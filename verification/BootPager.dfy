/**
 The boot loader's page-table builder as it runs: a bump allocator over a zeroed pool
 (boot/v2/ho_balloc.c), tables rewritten in place, and the loops over a region
 (boot/v2/blmm/pagetable.c, blmm.c, capsule.c).
 */
module BootPager {
  import opened Arithmetic
  import opened Paging
  import opened PageTree
  import opened Status
  import opened AddressSpace
  import opened BootMapping

  // ---------------------------------------------------------------- the bump allocator

  // UINT64 subtraction.
  function WrapSub(a: nat, b: nat): nat
    requires a < WORD_LIMIT && b < WORD_LIMIT
  {
    if a >= b then a - b else a + WORD_LIMIT - b
  }

  datatype Block = Block(start: nat, size: nat)

  ghost predicate Disjoint(a: Block, b: Block) {
    a.start + a.size <= b.start || b.start + b.size <= a.start
  }

  // HOB_BALLOC, with the blocks handed out so far as a proof-only record.
  class BumpAllocator {
    const base: nat
    const totalSize: nat
    var offset: nat
    var errorCode: Status
    ghost var blocks: seq<Block>

    ghost predicate Valid()
      reads this
    {
      && base > 0 && base + totalSize < WORD_LIMIT && offset <= totalSize
      && (forall k :: 0 <= k < |blocks| ==>
            base <= blocks[k].start && blocks[k].start + blocks[k].size <= base + offset)
      && (forall j, k :: 0 <= j < k < |blocks| ==> Disjoint(blocks[j], blocks[k]))
    }

    // HobAllocCreate.
    constructor (baseAddress: nat, pages: nat)
      requires baseAddress > 0 && baseAddress + pages * PAGE_4KB < WORD_LIMIT
      ensures Valid() && base == baseAddress && totalSize == pages * PAGE_4KB && offset == 0
      ensures errorCode == Success && blocks == []
    {
      base, totalSize, offset, errorCode, blocks := baseAddress, pages * PAGE_4KB, 0, Success, [];
    }

    // The next free byte of the pool is aligned.
    ghost predicate Aligned(used: nat, align: nat)
      requires align > 0
    {
      (base + used) % align == 0
    }

    // HobAlloc: blocks lie in the pool, one after another, and never overlap. A block has the alignment asked for
    // exactly when the blocks before it happen to end at it.
    method Alloc(size: nat, align: bv64) returns (address: nat)
      requires Valid() && size < WORD_LIMIT
      modifies this
      ensures Valid()
      ensures if align != 0 && align & (align - 1) == 0 && old(offset) + size <= totalSize
              then address == base + old(offset) && offset == old(offset) + size
                   && errorCode == old(errorCode) && blocks == old(blocks) + [Block(address, size)]
              else address == 0 && offset == old(offset) && errorCode != Success && blocks == old(blocks)
      ensures address != 0 ==> align > 0 && (address % (align as nat) == 0 <==> Aligned(old(offset), align as nat))
    {
      // The misalignment is the truth value of the power-of-two test: past it there is no padding, and the
      // room test for the padding cannot fail.
      if align == 0 || align & (align - 1) != 0 {
        errorCode := IllegalArgument;
        return 0;
      }
      if offset > WrapSub(totalSize, size) {
        errorCode := OutOfResource;
        return 0;
      }
      var start := base + offset;
      var pad := 0;
      var newOffset := offset + pad;
      if size > totalSize - newOffset {
        errorCode := OutOfResource;
        return 0;
      }
      offset := newOffset + size;
      blocks := blocks + [Block(start + pad, size)];
      return start + pad;
    }
  }

  // A block that is not aligned: 4KB are asked for at 4KB alignment after a block of 8 bytes.
  method MisalignedBlock(baseAddress: nat, pages: nat) returns (address: nat)
    requires baseAddress > 0 && baseAddress % PAGE_4KB == 0 && pages >= 2
    requires baseAddress + pages * PAGE_4KB < WORD_LIMIT
    ensures address == baseAddress + 8 && address % PAGE_4KB == 8
  {
    var allocator := new BumpAllocator(baseAddress, pages);
    var first := allocator.Alloc(8, 8);
    address := allocator.Alloc(PAGE_4KB, 0x1000);
  }

  predicate Between(lo: nat, f: nat, hi: nat) {
    lo <= f < hi
  }

  function ZeroPages(lo: nat, hi: nat): map<nat, Table> {
    map f: nat | f < hi && Between(lo, f, hi) :: EmptyTable()
  }

  // Pages of the pool that have not been handed out.
  ghost function Unused(base: nat, offset: nat, total: nat): set<nat> {
    var lo, hi := base / PAGE_4KB + offset / PAGE_4KB, base / PAGE_4KB + total / PAGE_4KB;
    set f: nat | f < hi && Between(lo, f, hi)
  }

  lemma EmptyRootOk(s: Space)
    requires s.pages == map[s.kroot := EmptyTable()] && s.shape == map[s.kroot := Node(4, s.kroot, 0, s.kroot, 0)]
    requires s.procs == {} && s.kroot !in s.free && s.kroot < FRAME_LIMIT && forall f :: f in s.free ==> f < FRAME_LIMIT
    ensures Inv(s)
  {
    forall x | IsRoot(s, x) ensures RootOk(s, x) {}
    forall x | x in s.shape ensures TableOk(s, x) {}
    forall x, i | x in s.shape && 0 <= i < 512 ensures EntryOk(s, x, i) {}
  }

  function LevelOf(pageSize: nat): (level: nat)
    ensures 1 <= level <= 3
  {
    if pageSize == PAGE_4KB then 1 else if pageSize == PAGE_2MB then 2 else 3
  }

  // ---------------------------------------------------------------- regions

  function PagesOf(size: nat): nat {
    (size + PAGE_4KB - 1) / PAGE_4KB
  }

  // The region stays inside the 48-bit and the physical address space.
  predicate RegionFits(physStart: nat, virtStart: nat, size: nat) {
    && Vpn(virtStart) + PagesOf(size) <= VPN_LIMIT
    && physStart / PAGE_4KB + PagesOf(size) <= FRAME_LIMIT
  }

  // The page size MapRegion and DetectBootMappingGranularity pick at an offset.
  function ChunkSize(physStart: nat, virtStart: nat, size: nat, offset: nat): (r: nat)
    requires offset < size
    ensures r == PAGE_4KB || r == PAGE_2MB
  {
    if size - offset >= PAGE_2MB && (physStart + offset) % PAGE_2MB == 0 && (virtStart + offset) % PAGE_2MB == 0
    then PAGE_2MB else PAGE_4KB
  }

  // All of them, in order.
  function Plan(physStart: nat, virtStart: nat, size: nat, offset: nat): seq<nat>
    decreases size - offset
  {
    if offset >= size then []
    else
      var chunk := ChunkSize(physStart, virtStart, size, offset);
      [chunk] + Plan(physStart, virtStart, size, offset + chunk)
  }

  // The chunks seen so far are those of the plan up to an offset.
  ghost predicate SeenTo(physStart: nat, virtStart: nat, size: nat, seen: seq<nat>, offset: nat) {
    seen + Plan(physStart, virtStart, size, offset) == Plan(physStart, virtStart, size, 0)
  }

  lemma SeenNext(physStart: nat, virtStart: nat, size: nat, seen: seq<nat>, offset: nat)
    requires SeenTo(physStart, virtStart, size, seen, offset) && offset < size
    ensures var chunk, plan := ChunkSize(physStart, virtStart, size, offset), Plan(physStart, virtStart, size, 0);
            && SeenTo(physStart, virtStart, size, seen + [chunk], offset + chunk)
            && |seen| < |plan| && plan[|seen|] == chunk && (forall k :: 0 <= k < |seen| ==> plan[k] == seen[k])
  {
    var chunk := ChunkSize(physStart, virtStart, size, offset);
    Regroup(seen, chunk, Plan(physStart, virtStart, size, offset + chunk));
  }

  lemma SeenAll(physStart: nat, virtStart: nat, size: nat, seen: seq<nat>, offset: nat)
    requires SeenTo(physStart, virtStart, size, seen, offset) && offset >= size
    ensures seen == Plan(physStart, virtStart, size, 0)
  {}

  lemma Regroup(seen: seq<nat>, pageSize: nat, rest: seq<nat>)
    ensures seen + ([pageSize] + rest) == (seen + [pageSize]) + rest
  {}

  // The leaf puts page v at this frame with these flags.
  ghost predicate PageMapped(w: Walk, v: nat, frame: nat, flags: Pte) {
    && w.Leaf? && 1 <= w.level <= 2
    && FrameOf(w.pte) / Span(w.level) * Span(w.level) + v % Span(w.level) == frame
    && w.pte.writable == flags.writable && w.pte.user == flags.user && w.pte.global == flags.global
    && w.pte.writeThrough == flags.writeThrough && w.pte.cacheDisable == flags.cacheDisable
    && NoExecute(w.pte) == NoExecute(flags)
  }

  // The first n pages from v0 on are mapped to the frames from f0 on; every other page is as in s0.
  ghost predicate RegionDone(s0: Space, s: Space, v0: nat, f0: nat, flags: Pte, n: nat) {
    && s.kroot == s0.kroot
    && (forall v: nat {:trigger Translate(s, s0.kroot, v)} :: v < VPN_LIMIT ==>
          if v0 <= v < v0 + n then PageMapped(Translate(s, s0.kroot, v), v, f0 + (v - v0), flags)
          else Translate(s, s0.kroot, v) == Translate(s0, s0.kroot, v))
  }

  lemma FrameOfBlock(addrPhys: nat, pageSize: nat)
    requires pageSize == PAGE_4KB || pageSize == PAGE_2MB || pageSize == PAGE_1GB
    ensures addrPhys / pageSize * pageSize / PAGE_4KB <= addrPhys / PAGE_4KB
  {}

  // A leaf of the wanted block puts each of its pages in place.
  lemma LeafPlaces(s: Space, v: nat, frame: nat, flags: Pte, stop: nat)
    requires HasLeaf(s, v, frame, flags, stop) && FlagsOk(flags) && 1 <= stop <= 2
    requires frame < FRAME_LIMIT && frame % Span(stop) == 0
    ensures PageMapped(Translate(s, s.kroot, v), v, frame + v % Span(stop), flags)
  {
    var e := Translate(s, s.kroot, v).pte;
    assert e.base == WithNx(frame, NoExecute(flags));
    BaseParts(frame, NoExecute(flags));
    BlockStart(frame, stop);
  }

  lemma BaseParts(frame: nat, nx: bool)
    requires frame < FRAME_LIMIT
    ensures WithNx(frame, nx) % FRAME_LIMIT == frame && (WithNx(frame, nx) / NX_BIT % 2 == 1 <==> nx)
  {
    assert frame / NX_BIT == 0;
    assert (frame + NX_BIT) % FRAME_LIMIT == frame && (frame + NX_BIT) / NX_BIT == 1;
  }

  lemma BlockStart(frame: nat, stop: nat)
    requires 1 <= stop <= 2 && frame % Span(stop) == 0
    ensures frame / Span(stop) * Span(stop) == frame
  {}

  lemma RegionStep(s0: Space, s: Space, s': Space, v0: nat, f0: nat, flags: Pte, n: nat, stop: nat)
    requires FlagsOk(flags) && 1 <= stop <= 2 && RegionDone(s0, s, v0, f0, flags, n)
    requires BootEffect(s, s', v0 + n, f0 + n, flags, stop, Success)
    requires (v0 + n) % Span(stop) == 0 && (f0 + n) % Span(stop) == 0
    requires v0 + n + Span(stop) <= VPN_LIMIT && f0 + n < FRAME_LIMIT
    ensures RegionDone(s0, s', v0, f0, flags, n + Span(stop))
  {
    forall v: nat | v < VPN_LIMIT
      ensures if v0 <= v < v0 + n + Span(stop) then PageMapped(Translate(s', s0.kroot, v), v, f0 + (v - v0), flags)
              else Translate(s', s0.kroot, v) == Translate(s0, s0.kroot, v)
    {
      InBlock(v, v0 + n, stop);
      assert Translate(s, s0.kroot, v) == Translate(s, s.kroot, v);
      if SameBlock(v, v0 + n, stop) {
        assert HasLeaf(s', v, f0 + n, flags, stop);
        LeafPlaces(s', v, f0 + n, flags, stop);
      } else {
        assert Translate(s', s'.kroot, v) == Translate(s, s.kroot, v);
      }
    }
  }

  // The leaf of a large page has PTE_PAGE_SIZE whether or not the flags ask for it.
  lemma SameEffect(s: Space, s': Space, vpn: nat, frame: nat, flags: Pte, other: Pte, stop: nat, status: Status)
    requires 1 <= stop <= 3 && BootEffect(s, s', vpn, frame, flags, stop, status)
    requires BootLeaf(frame, flags, stop) == BootLeaf(frame, other, stop)
    ensures BootEffect(s, s', vpn, frame, other, stop, status)
  {
    forall v: nat | v < VPN_LIMIT && status == Success && SameBlock(v, vpn, stop)
      ensures HasLeaf(s', v, frame, other, stop)
    {
      assert Translate(s', s'.kroot, v) == Translate(s', s.kroot, v) && HasLeaf(s', v, frame, flags, stop);
    }
  }

  // The block of an aligned page.
  lemma InBlock(v: nat, a: nat, stop: nat)
    requires 1 <= stop <= 2 && a % Span(stop) == 0
    ensures SameBlock(v, a, stop) <==> a <= v < a + Span(stop)
    ensures SameBlock(v, a, stop) ==> v % Span(stop) == v - a
  {}

  lemma RegionFailed(s0: Space, s: Space, s': Space, v0: nat, f0: nat, flags: Pte, n: nat, stop: nat, status: Status)
    requires 1 <= stop <= 2 && RegionDone(s0, s, v0, f0, flags, n) && status != Success
    requires BootEffect(s, s', v0 + n, f0 + n, flags, stop, status)
    ensures RegionDone(s0, s', v0, f0, flags, n)
  {
    forall v: nat | v < VPN_LIMIT ensures Translate(s', s0.kroot, v) == Translate(s, s0.kroot, v) {
      assert Translate(s', s'.kroot, v) == Translate(s, s.kroot, v);
    }
  }

  // Where the chunk at an offset lies once MapPage has rounded its arguments down.
  lemma ChunkPlace(physStart: nat, virtStart: nat, size: nat, offset: nat, pageSize: nat)
    requires RegionFits(physStart, virtStart, size) && offset < size && offset % PAGE_4KB == 0
    requires pageSize == ChunkSize(physStart, virtStart, size, offset)
    ensures var n, stop := offset / PAGE_4KB, LevelOf(pageSize);
            && stop <= 2 && pageSize == PAGE_4KB * Span(stop)
            && Vpn((virtStart + offset) / pageSize * pageSize) == Vpn(virtStart) + n
            && (physStart + offset) / pageSize * pageSize / PAGE_4KB == physStart / PAGE_4KB + n
            && (Vpn(virtStart) + n) % Span(stop) == 0 && (physStart / PAGE_4KB + n) % Span(stop) == 0
            && n + Span(stop) <= PagesOf(size) && (offset + pageSize) / PAGE_4KB == n + Span(stop)
            && (offset + pageSize) % PAGE_4KB == 0
  {
    AlignedAdd(virtStart, offset);
    AlignedAdd(physStart, offset);
    var n := offset / PAGE_4KB;
    assert n < PagesOf(size);
    VpnAdd(virtStart / PAGE_4KB, n);
    if pageSize == PAGE_2MB {
      BigAligned(virtStart + offset);
      BigAligned(physStart + offset);
      assert offset + PAGE_2MB <= size;
    }
  }

  // What MapPage did to the chunk at an offset is what the region needs there.
  lemma ChunkDone(s0: Space, s: Space, s': Space, physStart: nat, virtStart: nat, size: nat, offset: nat,
                  pageSize: nat, pageFlags: Pte, flags: Pte, status: Status)
    requires RegionFits(physStart, virtStart, size) && offset < size && offset % PAGE_4KB == 0 && FlagsOk(flags)
    requires pageSize == ChunkSize(physStart, virtStart, size, offset)
    requires pageFlags == if pageSize == PAGE_2MB then flags.(pageSize := true) else flags
    requires RegionDone(s0, s, Vpn(virtStart), physStart / PAGE_4KB, flags, offset / PAGE_4KB)
    requires BootEffect(s, s', Vpn((virtStart + offset) / pageSize * pageSize),
                        (physStart + offset) / pageSize * pageSize / PAGE_4KB, pageFlags, LevelOf(pageSize), status)
    ensures (offset + pageSize) % PAGE_4KB == 0 && (offset + pageSize) / PAGE_4KB <= PagesOf(size)
    ensures RegionDone(s0, s', Vpn(virtStart), physStart / PAGE_4KB, flags,
                       (if status == Success then offset + pageSize else offset) / PAGE_4KB)
  {
    ChunkPlace(physStart, virtStart, size, offset, pageSize);
    var v0, f0, n, stop := Vpn(virtStart), physStart / PAGE_4KB, offset / PAGE_4KB, LevelOf(pageSize);
    SameEffect(s, s', v0 + n, f0 + n, pageFlags, flags, stop, status);
    if status != Success {
      RegionFailed(s0, s, s', v0, f0, flags, n, stop, status);
    } else {
      RegionStep(s0, s, s', v0, f0, flags, n, stop);
    }
  }

  lemma AlignedAdd(a: nat, offset: nat)
    requires offset % PAGE_4KB == 0
    ensures (a + offset) / PAGE_4KB == a / PAGE_4KB + offset / PAGE_4KB
    ensures (a + offset) / PAGE_4KB * PAGE_4KB / PAGE_4KB == (a + offset) / PAGE_4KB
  {}

  lemma VpnAdd(page: nat, n: nat)
    requires page % VPN_LIMIT + n < VPN_LIMIT
    ensures (page + n) % VPN_LIMIT == page % VPN_LIMIT + n
  {}

  lemma BigAligned(a: nat)
    requires a % PAGE_2MB == 0
    ensures a / PAGE_2MB * PAGE_2MB == a && a / PAGE_4KB % 512 == 0 && a / PAGE_4KB % VPN_LIMIT % 512 == 0
  {
    var q := a / PAGE_2MB;
    assert a == q * PAGE_2MB;
    assert a / PAGE_4KB == q * 512;
    var k := q * 512 / VPN_LIMIT;
    assert q * 512 % VPN_LIMIT == q * 512 - k * VPN_LIMIT == (q - k * 0x800_0000) * 512;
  }

  // Every byte of the range lies in a page with a leaf.
  ghost predicate AllMapped(s: Space, from: nat, to: nat) {
    forall a: nat {:trigger Vpn(a)} :: from <= a < to ==> Translate(s, s.kroot, Vpn(a)).Leaf?
  }

  // Two addresses in one leaf-sized block are in one block of pages.
  lemma AddressBlock(a: nat, b: nat, stop: nat)
    requires 1 <= stop <= 3 && a / (PAGE_4KB * Span(stop)) == b / (PAGE_4KB * Span(stop))
    ensures SameBlock(Vpn(a), Vpn(b), stop)
  {
    BlockOfAddress(a);
    BlockOfAddress(b);
  }

  lemma BlockOfAddress(a: nat)
    ensures Vpn(a) / 512 == a / PAGE_2MB % 0x800_0000
    ensures Vpn(a) / 0x4_0000 == a / PAGE_1GB % 0x4_0000
  {
    var x := a / PAGE_4KB;
    LargeOfPage(x);
    HugeOfPage(x);
    assert a / PAGE_2MB == x / 512;
    assert a / PAGE_1GB == x / 0x4_0000;
  }

  lemma LargeOfPage(x: nat)
    ensures x % VPN_LIMIT / 512 == x / 512 % 0x800_0000
  {
    var q, r := x / VPN_LIMIT, x % VPN_LIMIT;
    assert x == q * 0x800_0000 * 512 + r;
    assert x / 512 == q * 0x800_0000 + r / 512;
  }

  lemma HugeOfPage(x: nat)
    ensures x % VPN_LIMIT / 0x4_0000 == x / 0x4_0000 % 0x4_0000
  {
    var q, r := x / VPN_LIMIT, x % VPN_LIMIT;
    assert x == q * 0x4_0000 * 0x4_0000 + r;
    assert x / 0x4_0000 == q * 0x4_0000 + r / 0x4_0000;
  }

  // From an address to the end of its leaf, every page has that leaf.
  lemma CoveredByLeaf(s: Space, virt: nat, covered: nat)
    requires Translate(s, s.kroot, Vpn(virt)).Leaf? && 1 <= Translate(s, s.kroot, Vpn(virt)).level <= 3
    requires var size := PAGE_4KB * Span(Translate(s, s.kroot, Vpn(virt)).level); covered == size - virt % size
    ensures covered > 0 && AllMapped(s, virt, virt + covered)
  {
    var leaf := Translate(s, s.kroot, Vpn(virt));
    forall a: nat | virt <= a < virt + covered ensures Translate(s, s.kroot, Vpn(a)).Leaf? {
      SameQuotient(virt, a, leaf.level);
      AddressBlock(virt, a, leaf.level);
      LookupBlock(s.pages, s.kroot, 4, Vpn(virt), Vpn(a));
    }
  }

  lemma SameQuotient(virt: nat, a: nat, level: nat)
    requires 1 <= level <= 3
    requires var size := PAGE_4KB * Span(level); virt <= a < virt + size - virt % size
    ensures virt / (PAGE_4KB * Span(level)) == a / (PAGE_4KB * Span(level))
  {}

  // The walk below a PDPT entry that is a link.
  lemma LowerLookup(s: Space, vpn: nat)
    requires Inv(s) && s.kroot in s.pages && s.pages[s.kroot][Index(vpn, 4)].present
    requires var e4 := s.pages[s.kroot][Index(vpn, 4)]; e4.base in s.pages && IsLink(s.pages[e4.base][Index(vpn, 3)], 3)
    ensures var e3 := s.pages[s.pages[s.kroot][Index(vpn, 4)].base][Index(vpn, 3)];
            && e3.base in s.pages
            && Translate(s, s.kroot, vpn) == Lookup(s.pages, e3.base, 2, vpn)
            && (var e2 := s.pages[e3.base][Index(vpn, 2)];
                IsLink(e2, 2) ==>
                  e2.base in s.pages && Lookup(s.pages, e3.base, 2, vpn) == Lookup(s.pages, e2.base, 1, vpn))
  {
    var e4 := s.pages[s.kroot][Index(vpn, 4)];
    assert RootOk(s, s.kroot) && EntryOk(s, s.kroot, Index(vpn, 4));
    assert EntryOk(s, e4.base, Index(vpn, 3));
    var e3 := s.pages[e4.base][Index(vpn, 3)];
    assert EntryOk(s, e3.base, Index(vpn, 2));
    assert Lookup(s.pages, s.kroot, 4, vpn) == Lookup(s.pages, e4.base, 3, vpn);
  }

  // What is left to do once the descent has arrived.
  lemma ArrivedMeans(s0: Space, s: Space, t: nat, vpn: nat, frame: nat, flags: Pte, stop: nat, picks: seq<nat>)
    requires 1 <= stop <= 3 && vpn < VPN_LIMIT && Addressable(s0, s0.kroot, vpn)
    requires Inv(s) && At(s0, s0.kroot, vpn, false, picks, s, t, stop)
    ensures t in s.pages
    ensures var i, leaf := Index(vpn, stop), BootLeaf(frame, flags, stop);
            var e := s.pages[t][i];
            && BootMap(s0, vpn, frame, flags, stop, picks)
               == (if e.present then (s, if SameMapping(e, leaf) then Success else IllegalArgument)
                   else (SetEntry(s, t, i, leaf), Success))
            && (!e.present ==> Inv(SetEntry(s, t, i, leaf)))
  {
    DescendArrives(s0, s0.kroot, stop, vpn, false, picks);
    var i, leaf := Index(vpn, stop), BootLeaf(frame, flags, stop);
    assert EntryOk(s, t, i);
    if !s.pages[t][i].present {
      SetEntryKeepsInv(s, t, i, leaf);
    }
  }

  class Pager {
    const root: nat
    const allocator: BumpAllocator
    // Words of the tables linked so far, and of the pool pages behind them.
    var pages: map<nat, Table>
    var pool: map<nat, Table>
    ghost var shape: map<nat, Node>

    ghost function View(): Space
      reads this
    {
      Space(pages, pool.Keys, shape, root, {})
    }

    // The pool behind the allocator's offset is page-aligned and still all zero.
    ghost predicate Valid()
      reads this, allocator
    {
      PoolOk() && Inv(View())
    }

    // CreateInitialMapping: a zeroed pool whose first page becomes the PML4 table.
    constructor (poolBase: nat, poolPages: nat)
      requires poolBase > 0 && poolBase % PAGE_4KB == 0 && poolPages > 0
      requires poolBase / PAGE_4KB + poolPages <= FRAME_LIMIT
      ensures Valid() && fresh(allocator) && root == poolBase / PAGE_4KB
      ensures forall v: nat {:trigger Translate(View(), root, v)} :: Translate(View(), root, v) == NoLeaf
    {
      var a := new BumpAllocator(poolBase, poolPages);
      var address := a.Alloc(PAGE_4KB, 0x1000);
      allocator := a;
      root := poolBase / PAGE_4KB;
      pages := map[poolBase / PAGE_4KB := EmptyTable()];
      pool := ZeroPages(poolBase / PAGE_4KB + 1, poolBase / PAGE_4KB + poolPages);
      shape := map[poolBase / PAGE_4KB := Node(4, poolBase / PAGE_4KB, 0, poolBase / PAGE_4KB, 0)];
      new;
      EmptyRootOk(View());
      forall v: nat ensures Translate(View(), root, v) == NoLeaf {}
    }

    // The allocator and the unused pool behind it.
    ghost predicate PoolOk()
      reads this, allocator
    {
      && allocator.Valid()
      && allocator.base % PAGE_4KB == 0 && allocator.totalSize % PAGE_4KB == 0 && allocator.offset % PAGE_4KB == 0
      && pool.Keys == Unused(allocator.base, allocator.offset, allocator.totalSize)
      && (forall f :: f in pool ==> pool[f] == EmptyTable())
    }

    // One page from the pool, 0 when it is used up.
    method TakePage() returns (child: nat, table: Table)
      requires PoolOk()
      modifies this`pool, allocator
      ensures PoolOk() && table == EmptyTable()
      ensures if child == 0 then pool == old(pool) else child in old(pool) && pool.Keys == old(pool.Keys) - {child}
    {
      table := EmptyTable();
      var address := allocator.Alloc(PAGE_4KB, 0x1000);
      if address == 0 {
        return 0, table;
      }
      child := address / PAGE_4KB;
      assert child == allocator.base / PAGE_4KB + old(allocator.offset) / PAGE_4KB;
      table := pool[child];
      pool := pool - {child};
    }

    // One `if (!(entry & PTE_PRESENT))` block of MapPage, with the check for a large leaf in its way.
    method EnsureTable(t: nat, i: nat, ghost vpn: nat) returns (status: Status, child: nat, ghost picks: seq<nat>)
      requires Valid() && AtTable(View(), t, vpn) && shape[t].level >= 2 && i == Index(vpn, shape[t].level)
      modifies this`pages, this`pool, this`shape, allocator
      ensures PoolOk() && |picks| <= 1 && PicksOk(old(View()), picks)
      ensures EnsureChild(old(View()), t, i, false, picks)
           == if status == Success then Reached(View(), child, []) else Blocked(View(), status)
    {
      picks := [];
      var word := pages[t][i];
      if !word.present {
        var table;
        child, table := TakePage();
        if child == 0 {
          return OutOfResource, 0, [];
        }
        picks := [child];
        pages := pages[t := pages[t][i := TablePte(child, false)]][child := table];
        ghost var n := shape[t];
        shape := shape[child := Node(n.level - 1, n.owner, n.prefix * 512 + i, t, i)];
        return Success, child, picks;
      }
      if word.pageSize {
        return NotSupported, 0, [];
      }
      return Success, word.base, [];
    }

    // One level of MapPage, seen from the state at the start of the call, on the way to level `to`.
    method Down(t: nat, i: nat, ghost s0: Space, ghost vpn: nat, ghost level: nat, ghost to: nat, ghost picks: seq<nat>)
      returns (status: Status, child: nat, ghost picks': seq<nat>)
      requires Valid() && 1 <= to < level <= 4 && i == Index(vpn, level) && s0.kroot == root
      requires At(s0, root, vpn, false, picks, View(), t, level)
      modifies this`pages, this`pool, this`shape, allocator
      ensures Valid()
      ensures status == Success ==> At(s0, root, vpn, false, picks', View(), child, level - 1)
      ensures status != Success ==>
                && PicksOk(s0, picks')
                && Descend(s0, root, to, vpn, false, picks') == Blocked(View(), status)
    {
      DescendArrives(s0, root, level, vpn, false, picks);
      ghost var s := View();
      ghost var p;
      status, child, p := EnsureTable(t, i, vpn);
      EnsureChildKeeps(s, t, vpn, false, p);
      DescendExtend(s0, root, level, vpn, false, picks, p);
      picks' := picks + p;
      if status != Success {
        DescendCut(s0, root, level - 1, to, vpn, false, picks');
      }
    }

    // The end of MapPage: a leaf of the wanted size in table t.
    method PutLeaf(t: nat, i: nat, leaf: Pte, stop: nat) returns (status: Status)
      requires t in pages && i < 512 && (stop > 1 ==> leaf.pageSize)
      modifies this`pages
      ensures var e := old(pages)[t][i];
              if e.present
              then View() == old(View()) && status == (if SameMapping(e, leaf) then Success else IllegalArgument)
              else View() == SetEntry(old(View()), t, i, leaf) && status == Success
    {
      var word := pages[t][i];
      if word.present {
        if stop > 1 && !word.pageSize {
          return IllegalArgument;
        }
        if SameMapping(word, leaf) {
          return Success;
        }
        return IllegalArgument;
      }
      pages := pages[t := pages[t][i := leaf]];
      return Success;
    }

    // PutLeaf where the descent has arrived: the whole call came to what BootMap says.
    method Finish(
        t: nat, i: nat, frame: nat, flags: Pte, stop: nat, ghost s0: Space, ghost vpn: nat, ghost picks: seq<nat>)
      returns (status: Status)
      requires Valid() && 1 <= stop <= 3 && i == Index(vpn, stop) && s0.kroot == root && vpn < VPN_LIMIT
      requires Addressable(s0, root, vpn) && At(s0, root, vpn, false, picks, View(), t, stop)
      modifies this`pages
      ensures Valid() && (View(), status) == BootMap(s0, vpn, frame, flags, stop, picks)
    {
      ArrivedMeans(s0, View(), t, vpn, frame, flags, stop, picks);
      status := PutLeaf(t, i, BootLeaf(frame, flags, stop), stop);
    }

    // MapPage past its argument checks.
    method MapAligned(frame: nat, alignedVirt: nat, flags: Pte, stop: nat)
        returns (status: Status, ghost picks: seq<nat>)
      requires Valid() && 1 <= stop <= 3 && Addressable(View(), root, Vpn(alignedVirt))
      modifies this`pages, this`pool, this`shape, allocator
      ensures Valid() && PicksOk(old(View()), picks)
      ensures (View(), status) == BootMap(old(View()), Vpn(alignedVirt), frame, flags, stop, picks)
    {
      ghost var s0, vpn := View(), Vpn(alignedVirt);
      IndexOfAddress(alignedVirt);
      RootAt(s0, root, vpn);
      assert At(s0, root, vpn, false, [], s0, root, 4);

      var t;
      status, t, picks := Down(root, alignedVirt / 0x80_0000_0000 % 512, s0, vpn, 4, stop, []);
      if status != Success {
        return Refused(status), picks;
      }
      if stop == 3 {
        status := Finish(t, alignedVirt / PAGE_1GB % 512, frame, flags, 3, s0, vpn, picks);
        return status, picks;
      }
      status, picks := MapLow(t, frame, alignedVirt, flags, stop, s0, vpn, picks);
    }

    // MapPage for 2MB and 4KB leaves, from the directory-pointer table on.
    method MapLow(
        pdpt: nat, frame: nat, alignedVirt: nat, flags: Pte, stop: nat, ghost s0: Space, ghost vpn: nat,
        ghost upper: seq<nat>)
        returns (status: Status, ghost picks: seq<nat>)
      requires Valid() && 1 <= stop <= 2 && vpn == Vpn(alignedVirt) && vpn < VPN_LIMIT && s0.kroot == root
      requires Addressable(s0, root, vpn) && At(s0, root, vpn, false, upper, View(), pdpt, 3)
      modifies this`pages, this`pool, this`shape, allocator
      ensures Valid() && PicksOk(s0, picks)
      ensures (View(), status) == BootMap(s0, vpn, frame, flags, stop, picks)
    {
      IndexOfAddress(alignedVirt);
      var t;
      status, t, picks := Down(pdpt, alignedVirt / PAGE_1GB % 512, s0, vpn, 3, stop, upper);
      if status != Success {
        return Refused(status), picks;
      }
      if stop == 2 {
        status := Finish(t, alignedVirt / PAGE_2MB % 512, frame, flags, 2, s0, vpn, picks);
        return status, picks;
      }
      status, picks := MapSmall(t, frame, alignedVirt, flags, s0, vpn, picks);
    }

    // The last level of MapPage for a 4KB leaf.
    method MapSmall(
        directory: nat, frame: nat, alignedVirt: nat, flags: Pte, ghost s0: Space, ghost vpn: nat,
        ghost upper: seq<nat>)
        returns (status: Status, ghost picks: seq<nat>)
      requires Valid() && vpn == Vpn(alignedVirt) && vpn < VPN_LIMIT && s0.kroot == root
      requires Addressable(s0, root, vpn) && At(s0, root, vpn, false, upper, View(), directory, 2)
      modifies this`pages, this`pool, this`shape, allocator
      ensures Valid() && PicksOk(s0, picks)
      ensures (View(), status) == BootMap(s0, vpn, frame, flags, 1, picks)
    {
      IndexOfAddress(alignedVirt);
      var t;
      status, t, picks := Down(directory, alignedVirt / PAGE_2MB % 512, s0, vpn, 2, 1, upper);
      if status != Success {
        return Refused(status), picks;
      }
      status := Finish(t, alignedVirt / PAGE_4KB % 512, frame, flags, 1, s0, vpn, picks);
    }

    // MapPage: a supported size leaves the translations BootEffect describes; the unused pool is still zero.
    method MapPage(addrPhys: nat, addrVirt: nat, flags: Pte, pageSize: nat) returns (status: Status)
      requires Valid() && FlagsOk(flags)
      modifies this`pages, this`pool, this`shape, allocator
      ensures Valid()
      ensures if pageSize == PAGE_4KB || pageSize == PAGE_2MB || pageSize == PAGE_1GB
              then BootEffect(old(View()), View(), Vpn(addrVirt / pageSize * pageSize),
                              addrPhys / pageSize * pageSize / PAGE_4KB, flags, LevelOf(pageSize), status)
              else status == IllegalArgument && View() == old(View())
      // A page that is mapped already may be mapped again only as it is.
      ensures pageSize == PAGE_4KB || pageSize == PAGE_2MB || pageSize == PAGE_1GB ==>
              addrPhys / PAGE_4KB < FRAME_LIMIT ==>
                  var w := Translate(old(View()), root, Vpn(addrVirt / pageSize * pageSize));
                  w.Leaf? ==> (status == Success <==>
                                 && w.level == LevelOf(pageSize)
                                 && SameLeaf(w.pte, addrPhys / pageSize * pageSize / PAGE_4KB, flags, w.level))
    {
      if pageSize != PAGE_4KB && pageSize != PAGE_2MB && pageSize != PAGE_1GB {
        return IllegalArgument;
      }
      var alignedPhys := addrPhys / pageSize * pageSize;
      var alignedVirt := addrVirt / pageSize * pageSize;
      ghost var picks;
      status, picks := MapAligned(alignedPhys / PAGE_4KB, alignedVirt, flags, LevelOf(pageSize));
      BootMapCorrect(old(View()), Vpn(alignedVirt), alignedPhys / PAGE_4KB, flags, LevelOf(pageSize), picks);
      if addrPhys / PAGE_4KB < FRAME_LIMIT {
        FrameOfBlock(addrPhys, pageSize);
        BootOutcome(old(View()), Vpn(alignedVirt), alignedPhys / PAGE_4KB, flags, LevelOf(pageSize), picks);
      }
    }

    // One round of MapRegion's loop.
    method MapChunk(physStart: nat, virtStart: nat, size: nat, offset: nat, flags: Pte, ghost s0: Space)
      returns (status: Status, pageSize: nat)
      requires Valid() && FlagsOk(flags) && RegionFits(physStart, virtStart, size)
      requires offset < size && offset % PAGE_4KB == 0
      requires RegionDone(s0, View(), Vpn(virtStart), physStart / PAGE_4KB, flags, offset / PAGE_4KB)
      modifies this`pages, this`pool, this`shape, allocator
      ensures Valid() && pageSize == ChunkSize(physStart, virtStart, size, offset)
      ensures (offset + pageSize) % PAGE_4KB == 0 && (offset + pageSize) / PAGE_4KB <= PagesOf(size)
      ensures RegionDone(s0, View(), Vpn(virtStart), physStart / PAGE_4KB, flags,
                         (if status == Success then offset + pageSize else offset) / PAGE_4KB)
    {
      var remaining := size - offset;
      var currPhys := physStart + offset;
      var currVirt := virtStart + offset;
      pageSize := PAGE_4KB;
      var pageFlags := flags;
      if remaining >= PAGE_2MB && currPhys % PAGE_2MB == 0 && currVirt % PAGE_2MB == 0 {
        pageSize := PAGE_2MB;
        pageFlags := flags.(pageSize := true);
      }
      ghost var s := View();
      status := MapPage(currPhys, currVirt, pageFlags, pageSize);
      ChunkDone(s0, s, View(), physStart, virtStart, size, offset, pageSize, pageFlags, flags, status);
    }

    // MapRegion: every page of the rounded region translates to its place, whatever mix of leaves was used;
    // a failure leaves a mapped prefix and changes nothing else.
    method MapRegion(physStart: nat, virtStart: nat, size: nat, flags: Pte)
      returns (status: Status, ghost used: seq<nat>, ghost done: nat)
      requires Valid() && FlagsOk(flags) && RegionFits(physStart, virtStart, size)
      modifies this`pages, this`pool, this`shape, allocator
      ensures Valid() && done <= PagesOf(size)
      ensures RegionDone(old(View()), View(), Vpn(virtStart), physStart / PAGE_4KB, flags, done)
      ensures status == Success ==> done == PagesOf(size) && used == Plan(physStart, virtStart, size, 0)
    {
      used, done := [], 0;
      if allocator.errorCode != Success {
        return OutOfResource, used, done;
      }
      ghost var s0 := View();
      var offset := 0;
      while offset < size
        invariant Valid() && offset % PAGE_4KB == 0 && done == offset / PAGE_4KB <= PagesOf(size)
        invariant RegionDone(s0, View(), Vpn(virtStart), physStart / PAGE_4KB, flags, done)
        invariant SeenTo(physStart, virtStart, size, used, offset)
        decreases size - offset
      {
        var pageSize;
        status, pageSize := MapChunk(physStart, virtStart, size, offset, flags, s0);
        if status != Success {
          return status, used, done;
        }
        SeenNext(physStart, virtStart, size, used, offset);
        offset := offset + pageSize;
        done := offset / PAGE_4KB;
        used := used + [pageSize];
      }
      SeenAll(physStart, virtStart, size, used, offset);
      return Success, used, done;
    }

    // One round of IsVirtualRangeMapped: how far the leaf of an address reaches, 0 when it has none.
    method BytesCovered(virt: nat) returns (covered: nat)
      requires Valid()
      ensures covered > 0 <==> Translate(View(), root, Vpn(virt)).Leaf?
      ensures AllMapped(View(), virt, virt + covered)
    {
      ghost var s, vpn := View(), Vpn(virt);
      IndexOfAddress(virt);
      assert RootOk(s, root) && EntryOk(s, root, Index(vpn, 4));
      var e4 := pages[root][virt / 0x80_0000_0000 % 512];
      if !e4.present {
        return 0;
      }
      assert EntryOk(s, e4.base, Index(vpn, 3));
      var e3 := pages[e4.base][virt / PAGE_1GB % 512];
      if !e3.present {
        return 0;
      }
      if e3.pageSize {
        covered := PAGE_1GB - virt % PAGE_1GB;
        assert Translate(s, root, vpn) == Leaf(3, e3);
      } else {
        assert EntryOk(s, e3.base, Index(vpn, 2));
        var e2 := pages[e3.base][virt / PAGE_2MB % 512];
        LowerLookup(s, vpn);
        if !e2.present {
          return 0;
        }
        if e2.pageSize {
          covered := PAGE_2MB - virt % PAGE_2MB;
        } else {
          var e1 := pages[e2.base][virt / PAGE_4KB % 512];
          if !e1.present {
            return 0;
          }
          covered := PAGE_4KB - virt % PAGE_4KB;
        }
      }
      CoveredByLeaf(s, virt, covered);
    }

    // IsVirtualRangeMapped: it looks at one page per leaf, and that is enough.
    method IsVirtualRangeMapped(virtStart: nat, size: nat) returns (mapped: bool)
      requires Valid()
      ensures mapped <==> AllMapped(View(), virtStart, virtStart + size)
    {
      if size == 0 {
        return true;
      }
      var offset := 0;
      while offset < size
        invariant offset <= size
        invariant AllMapped(View(), virtStart, virtStart + offset)
      {
        var covered := BytesCovered(virtStart + offset);
        if covered == 0 {
          assert Vpn(virtStart + offset) < VPN_LIMIT;
          return false;
        }
        if covered > size - offset {
          covered := size - offset;
        }
        offset := offset + covered;
      }
      return true;
    }
  }

  // BOOT_MAPPING_GRANULARITY.
  datatype Granularity = Invalid | Small | Large | Mixed

  ghost predicate Only(plan: seq<nat>, pageSize: nat) {
    forall k :: 0 <= k < |plan| ==> plan[k] == pageSize
  }

  // What has been seen so far is all of one size.
  ghost predicate Summary(seen: seq<nat>, detected: Granularity) {
    match detected
    case Invalid => seen == []
    case Small => seen != [] && Only(seen, PAGE_4KB)
    case Large => seen != [] && Only(seen, PAGE_2MB)
    case Mixed => false
  }

  lemma SummaryStep(seen: seq<nat>, current: Granularity, pageSize: nat)
    requires seen == [] || Summary(seen, current)
    requires (current == Small && pageSize == PAGE_4KB) || (current == Large && pageSize == PAGE_2MB)
    ensures Summary(seen + [pageSize], current)
  {}

  // DetectBootMappingGranularity: exactly the sizes MapRegion would use on the same arguments.
  method DetectGranularity(physStart: nat, virtStart: nat, size: nat) returns (detected: Granularity)
    ensures var plan := Plan(physStart, virtStart, size, 0);
            match detected
            case Invalid => size == 0
            case Small => plan != [] && Only(plan, PAGE_4KB)
            case Large => plan != [] && Only(plan, PAGE_2MB)
            case Mixed => !Only(plan, PAGE_4KB) && !Only(plan, PAGE_2MB)
  {
    detected := Invalid;
    if size == 0 {
      return Invalid;
    }
    var offset := 0;
    ghost var plan, seen := Plan(physStart, virtStart, size, 0), [];
    while offset < size
      invariant SeenTo(physStart, virtStart, size, seen, offset) && Summary(seen, detected)
      invariant offset > 0 ==> seen != []
      decreases size - offset
    {
      var current, pageSize := Small, PAGE_4KB;
      if size - offset >= PAGE_2MB && (physStart + offset) % PAGE_2MB == 0 && (virtStart + offset) % PAGE_2MB == 0 {
        current, pageSize := Large, PAGE_2MB;
      }
      SeenNext(physStart, virtStart, size, seen, offset);
      if detected == Invalid {
        detected := current;
      } else if detected != current {
        assert plan[0] == seen[0] != plan[|seen|];
        return Mixed;
      }
      SummaryStep(seen, current, pageSize);
      seen := seen + [pageSize];
      offset := offset + pageSize;
    }
    SeenAll(physStart, virtStart, size, seen, offset);
  }

  // The four answers exclude each other, so each is given exactly when it applies.
  lemma PlanSizes(physStart: nat, virtStart: nat, size: nat, offset: nat)
    ensures var plan := Plan(physStart, virtStart, size, offset);
            && (plan == [] <==> offset >= size)
            && (forall k :: 0 <= k < |plan| ==> plan[k] == PAGE_4KB || plan[k] == PAGE_2MB)
    decreases size - offset
  {}

  // EFI_INVALID_PARAMETER for a large leaf in the way, EFI_OUT_OF_RESOURCES for an exhausted pool.
  function Refused(status: Status): Status {
    if status == NotSupported then IllegalArgument else status
  }
}

/**
 Staging of a user process: code, const and stack pages mapped under a private root,
 and every way of taking them back (ke/user_mode.c, ex/process.c).

 The heap, the temporary-mapping window and the handle table are seen only through the
 status they return; those statuses are parameters.
 */
module UserStaging {
  import opened Paging
  import opened PageTree
  import opened Status
  import opened AddressSpace
  import opened AddressSpaceRuns
  import opened Mmu
  import M = Machine

  const CODE_BASE: nat := 0x8000_0000
  const CONST_BASE: nat := 0x8000_1000
  const GUARD_BASE: nat := 0x8000_2000
  const STACK_BASE: nat := 0x8000_3000
  const STACK_TOP: nat := 0x8000_4000

  const CODE_FLAGS := ZERO.(user := true)
  const CONST_FLAGS := ZERO.(user := true, base := NX_BIT)
  const STACK_FLAGS := ZERO.(user := true, writable := true, base := NX_BIT)

  datatype Kind = Code | Const | Stack

  // KE_USER_MODE_MAPPING_RECORD.
  datatype Record = Record(kind: Kind, va: nat, frame: nat, attributes: Pte)

  // KE_USER_MODE_CREATE_PARAMS.
  datatype Params = Params(hasCode: bool, codeLength: nat, entryOffset: nat, hasConst: bool, constLength: nat)

  // KE_USER_MODE_STAGING; room for three records.
  class Staging {
    var mappings: seq<Record>
    var ownerRoot: nat

    constructor (root: nat)
      ensures mappings == [] && ownerRoot == root
    {
      mappings, ownerRoot := [], root;
    }
  }

  // ---------------------------------------------------------------- pages in use

  ghost function Frames(records: seq<Record>): set<nat> {
    set r | r in records :: r.frame
  }

  // Every page that is free, a table, or holds staged bytes.
  ghost function Ledger(s: Space, records: seq<Record>): set<nat> {
    s.free + s.pages.Keys + Frames(records)
  }

  predicate LowPage(va: nat) {
    Index(Vpn(va), 4) < 256
  }

  // A recorded page is in use for nothing else and mapped where the record says.
  ghost predicate RecordOk(s: Space, root: nat, r: Record) {
    && r.frame !in s.free && r.frame !in s.pages && r.frame < FRAME_LIMIT
    && r.va % PAGE_4KB == 0 && LowPage(r.va)
    && Translate(s, root, Vpn(r.va)) == Leaf(1, LeafPte(r.frame, r.attributes))
  }

  // Two records are about different pages.
  ghost predicate Apart(records: seq<Record>, j: nat, k: nat)
    requires j < |records| && k < |records|
  {
    records[j].frame != records[k].frame && Vpn(records[j].va) != Vpn(records[k].va)
  }

  ghost predicate Held(s: Space, root: nat, records: seq<Record>) {
    && (forall k :: 0 <= k < |records| ==> RecordOk(s, root, records[k]))
    && (forall j, k {:trigger Apart(records, j, k)} :: 0 <= j < k < |records| ==> Apart(records, j, k))
  }

  // User entries of this root's tables have user entries above them.
  ghost predicate Closed(s: Space, root: nat) {
    Inv(s) && UserClosed(s, {root})
  }

  // This root has no tables below its high half.
  ghost predicate AllLow(s: Space, root: nat) {
    NoneHigh(s, {root})
  }

  // Every entry that leads to a table carries PTE_WRITABLE.
  ghost predicate AllWritable(s: Space) {
    Inv(s) && LinksWritable(s)
  }

  ghost predicate FormKept(s: Space, s': Space, root: nat) {
    && (Closed(s, root) ==> Closed(s', root)) && (AllLow(s, root) ==> AllLow(s', root))
    && (AllWritable(s) ==> AllWritable(s'))
  }

  // Work confined to one process root.
  ghost predicate Confined(s: Space, s': Space, root: nat) {
    && Inv(s') && s'.kroot == s.kroot && s'.procs == s.procs && SameOutside(s, s', root)
    && SameLost(s, s') && FormKept(s, s', root)
  }

  lemma ConfinedTransitive(s: Space, s1: Space, s2: Space, root: nat)
    requires Confined(s, s1, root) && Confined(s1, s2, root)
    ensures Confined(s, s2, root)
  {}

  // Which pages are free matters to no table.
  lemma ChangeFree(s: Space, free: set<nat>)
    requires Inv(s) && free !! s.pages.Keys && forall f :: f in free ==> f < FRAME_LIMIT
    ensures Inv(Space(s.pages, free, s.shape, s.kroot, s.procs))
  {
    var s' := Space(s.pages, free, s.shape, s.kroot, s.procs);
    forall x | IsRoot(s', x) ensures RootOk(s', x) { assert IsRoot(s, x) && RootOk(s, x); }
    forall x | x in s'.shape ensures TableOk(s', x) { assert TableOk(s, x); }
    forall x, i | x in s'.shape && 0 <= i < 512 ensures EntryOk(s', x, i) { assert EntryOk(s, x, i); }
  }

  lemma ClosedFree(s: Space, free: set<nat>, root: nat)
    requires Closed(s, root) && free !! s.pages.Keys && forall f :: f in free ==> f < FRAME_LIMIT
    ensures Closed(Space(s.pages, free, s.shape, s.kroot, s.procs), root)
  {
    var s' := Space(s.pages, free, s.shape, s.kroot, s.procs);
    ChangeFree(s, free);
    forall c, j | TableOf(s', {root}, c) && 0 <= j < 512 ensures UserUp(s', c, j) {
      assert TableOf(s, {root}, c) && UserUp(s, c, j);
    }
  }

  lemma FormFree(s: Space, free: set<nat>, root: nat)
    requires Inv(s) && free !! s.pages.Keys && forall f :: f in free ==> f < FRAME_LIMIT
    ensures FormKept(s, Space(s.pages, free, s.shape, s.kroot, s.procs), root)
  {
    var s' := Space(s.pages, free, s.shape, s.kroot, s.procs);
    ChangeFree(s, free);
    if Closed(s, root) { ClosedFree(s, free, root); }
    if AllWritable(s) {
      forall t, i | t in s'.shape && 0 <= i < 512 ensures LinkWritable(s', t, i) { assert LinkWritable(s, t, i); }
    }
  }

  // Records other than the one being changed stay as they are.
  lemma HeldElsewhere(s: Space, s': Space, root: nat, vpn: nat, records: seq<Record>)
    requires Inv(s) && Held(s, root, records) && OnlyPage(s, s', root, vpn) && s'.kroot == s.kroot
    requires s'.procs == s.procs
    requires IsRoot(s, root)
    requires forall k :: 0 <= k < |records| ==> Vpn(records[k].va) != vpn
    requires forall k :: 0 <= k < |records| ==> records[k].frame !in s'.free && records[k].frame !in s'.pages
    ensures Held(s', root, records)
  {
    forall k | 0 <= k < |records| ensures RecordOk(s', root, records[k]) {
      assert RecordOk(s, root, records[k]);
    }
  }

  // What each staging call keeps: other roots, the recorded pages, and the pages in use overall.
  ghost predicate Kept(s: Space, records: seq<Record>, s': Space, records': seq<Record>, root: nat) {
    && Confined(s, s', root)
    && Held(s', root, records')
    && Ledger(s', records') == Ledger(s, records)
  }

  lemma KeptTransitive(s: Space, rs: seq<Record>, s1: Space, rs1: seq<Record>, s2: Space, rs2: seq<Record>, root: nat)
    requires Kept(s, rs, s1, rs1, root) && Kept(s1, rs1, s2, rs2, root)
    ensures Kept(s, rs, s2, rs2, root)
  {
    ConfinedTransitive(s, s1, s2, root);
  }

  lemma OnlyPageTransitive(s: Space, s1: Space, s2: Space, root: nat, vpn: nat)
    requires OnlyPage(s, s1, root, vpn) && OnlyPage(s1, s2, root, vpn) && s1.kroot == s.kroot && s1.procs == s.procs
    ensures OnlyPage(s, s2, root, vpn)
  {
    forall q: nat, v: nat | IsRoot(s, q) && v < VPN_LIMIT && (v != vpn || (q != root && root != s.kroot))
      ensures Translate(s2, q, v) == Translate(s, q, v)
    {
      assert IsRoot(s1, q) && Translate(s1, q, v) == Translate(s, q, v);
    }
  }

  // ---------------------------------------------------------------- one page

  ghost function Without(s: Space, frame: nat): Space {
    Space(s.pages, s.free - {frame}, s.shape, s.kroot, s.procs)
  }

  ghost function With(s: Space, frame: nat): Space {
    Space(s.pages, s.free + {frame}, s.shape, s.kroot, s.procs)
  }

  ghost predicate CanStage(s: Space, root: nat, va: nat, records: seq<Record>) {
    && Inv(s) && root in s.procs && va % PAGE_4KB == 0 && LowPage(va)
    && Held(s, root, records)
    && (forall k :: 0 <= k < |records| ==> Vpn(records[k].va) != Vpn(va))
  }

  // KePtMapPage and KePtUnmapPage as staging uses them.
  method MapOne(m: M.Machine, space: M.SpaceHandle, va: nat, frame: nat, attributes: Pte) returns (status: Status)
    requires space.initialized && m.Valid() && space.root in m.procs && LowPage(va)
    requires va % PAGE_4KB == 0
    modifies m`pages, m`free, m`shape
    ensures status == Success ==>
              && Translate(old(m.View()), space.root, Vpn(va)) == NoLeaf
              && LeafSet(old(m.View()), m.View(), space.root, Vpn(va), Leaf(1, LeafPte(frame, attributes)))
    ensures status != Success ==> m.View() == old(m.View())
    ensures status == Success <==> M.CanMap(old(m.View()), space.root, Vpn(va))
    ensures status == Success ==> |m.free| + old(Missing(m.pages, space.root, 4, 1, Vpn(va))) == |old(m.free)|
    ensures FormKept(old(m.View()), m.View(), space.root)
  {
    ghost var picks, s := [], m.View();
    status, picks := m.MapPage(space, va, frame * PAGE_4KB, attributes);
    MapOneMeans(s, space.root, va, frame, attributes, picks);
  }

  lemma MapOneMeans(s: Space, root: nat, va: nat, frame: nat, attributes: Pte, picks: seq<nat>)
    requires Inv(s) && root in s.procs && LowPage(va) && va % PAGE_4KB == 0 && PicksOk(s, picks)
    ensures var (s', status) := AddressSpace.MapPage(s, root, va, frame * PAGE_4KB, attributes, picks);
            && (status == Success ==>
                  && Translate(s, root, Vpn(va)) == NoLeaf
                  && LeafSet(s, s', root, Vpn(va), Leaf(1, LeafPte(frame, attributes))))
            && (status != Success ==> s' == s)
            && (status == Success ==> |s'.free| + Missing(s.pages, root, 4, 1, Vpn(va)) == |s.free|)
            && FormKept(s, s', root)
  {
    if AllWritable(s) { MapKeepsWritable(s, root, va, frame * PAGE_4KB, attributes, picks); }
    if AllLow(s, root) { MapKeepsLow(s, root, va, frame * PAGE_4KB, attributes, picks, {root}); }
    MapPageCorrect(s, root, va, frame * PAGE_4KB, attributes, picks);
    assert frame * PAGE_4KB / PAGE_4KB == frame;
    if Closed(s, root) {
      MapKeepsUserClosed(s, {root}, root, va, frame * PAGE_4KB, attributes, picks);
    }
  }

  method UnmapOne(m: M.Machine, space: M.SpaceHandle, va: nat) returns (status: Status)
    requires space.initialized && m.Valid() && space.root in m.procs && LowPage(va)
    requires va % PAGE_4KB == 0
    modifies m`pages
    ensures status == Success <==> (var w := Translate(old(m.View()), space.root, Vpn(va)); w.Leaf? && w.level == 1)
    ensures status == Success ==> LeafSet(old(m.View()), m.View(), space.root, Vpn(va), NoLeaf) && m.free == old(m.free)
    ensures status != Success ==> m.View() == old(m.View())
    ensures FormKept(old(m.View()), m.View(), space.root)
  {
    ghost var s := m.View();
    status := m.UnmapPage(space, va);
    ChangeLeafCorrect(s, space.root, va, _ => ZERO);
    if Closed(s, space.root) {
      ChangeLeafKeepsUserClosed(s, {space.root}, space.root, va, _ => ZERO);
    }
    if AllWritable(s) { ChangeKeepsWritable(s, space.root, va, _ => ZERO); }
  }

  // A page taken from the allocator and mapped: what it does to translations ...
  lemma StagedPage(s: Space, s': Space, root: nat, frame: nat, vpn: nat, leaf: Walk)
    requires vpn < VPN_LIMIT && Index(vpn, 4) < 256 && LeafSet(Without(s, frame), s', root, vpn, leaf)
    ensures OnlyPage(s, s', root, vpn) && SameOutside(s, s', root)
  {
    var s1 := Without(s, frame);
    forall q: nat, v: nat | IsRoot(s, q) && v < VPN_LIMIT && (v != vpn || (q != root && root != s.kroot))
      ensures Translate(s', q, v) == Translate(s, q, v)
    {
      assert IsRoot(s1, q) && Translate(s1, q, v) == Translate(s, q, v);
    }
  }

  // ... and to the records.
  lemma StagedRecords(s: Space, s': Space, root: nat, r: Record, records: seq<Record>)
    requires CanStage(s, root, r.va, records) && r.frame in s.free && OnlyPage(s, s', root, Vpn(r.va))
    requires s'.kroot == s.kroot && s'.procs == s.procs
    requires Translate(s', root, Vpn(r.va)) == Leaf(1, LeafPte(r.frame, r.attributes))
    requires s'.free + s'.pages.Keys == (s.free - {r.frame}) + s.pages.Keys && r.frame !in s.pages
    ensures Held(s', root, records + [r]) && Ledger(s', records + [r]) == Ledger(s, records)
  {
    forall k | 0 <= k < |records|
      ensures records[k].frame !in s'.free && records[k].frame !in s'.pages && records[k].frame != r.frame
    {
      assert RecordOk(s, root, records[k]);
      assert records[k].frame !in s'.free + s'.pages.Keys;
    }
    assert r.frame !in s'.free + s'.pages.Keys;
    HeldElsewhere(s, s', root, Vpn(r.va), records);
    HeldMore(s', root, records, r);
    assert Frames(records + [r]) == Frames(records) + {r.frame};
  }

  lemma HeldMore(s: Space, root: nat, records: seq<Record>, r: Record)
    requires Held(s, root, records) && RecordOk(s, root, r)
    requires forall k :: 0 <= k < |records| ==> records[k].frame != r.frame && Vpn(records[k].va) != Vpn(r.va)
    ensures Held(s, root, records + [r])
  {
    var records' := records + [r];
    forall k | 0 <= k < |records'| ensures RecordOk(s, root, records'[k]) {
      if k < |records| { assert RecordOk(s, root, records[k]); }
    }
    forall j, k | 0 <= j < k < |records'| ensures Apart(records', j, k) {
      if k < |records| { assert Apart(records, j, k); }
    }
  }

  lemma Staged(s: Space, s': Space, root: nat, r: Record, records: seq<Record>)
    requires CanStage(s, root, r.va, records) && r.frame in s.free
    requires LeafSet(Without(s, r.frame), s', root, Vpn(r.va), Leaf(1, LeafPte(r.frame, r.attributes)))
    requires FormKept(Without(s, r.frame), s', root)
    ensures Kept(s, records, s', records + [r], root)
    ensures OnlyPage(s, s', root, Vpn(r.va))
  {
    FormFree(s, s.free - {r.frame}, root);
    StagedPage(s, s', root, r.frame, Vpn(r.va), Leaf(1, LeafPte(r.frame, r.attributes)));
    StagedRecords(s, s', root, r, records);
  }

  lemma HeldPrefix(s: Space, root: nat, records: seq<Record>, r: Record)
    requires Held(s, root, records + [r])
    ensures Held(s, root, records) && RecordOk(s, root, r)
    ensures forall k :: 0 <= k < |records| ==> Vpn(records[k].va) != Vpn(r.va) && records[k].frame != r.frame
    ensures Frames(records + [r]) == Frames(records) + {r.frame}
  {
    var records' := records + [r];
    assert forall k :: 0 <= k < |records| ==> records'[k] == records[k];
    assert records'[|records|] == r;
    forall j, k | 0 <= j < k < |records| ensures Apart(records, j, k) { assert Apart(records', j, k); }
    forall k | 0 <= k < |records| ensures Vpn(records[k].va) != Vpn(r.va) && records[k].frame != r.frame {
      assert Apart(records', k, |records|);
    }
  }

  // The last recorded page unmapped and given back: what it does to translations ...
  lemma UnstagedPage(s: Space, s': Space, root: nat, frame: nat, vpn: nat)
    requires vpn < VPN_LIMIT && Index(vpn, 4) < 256 && LeafSet(s, s', root, vpn, NoLeaf)
    ensures OnlyPage(s, With(s', frame), root, vpn) && SameOutside(s, With(s', frame), root)
    ensures Translate(With(s', frame), root, vpn) == NoLeaf
  {
    var s2 := With(s', frame);
    forall q: nat, v: nat | IsRoot(s, q) && v < VPN_LIMIT && (v != vpn || (q != root && root != s.kroot))
      ensures Translate(s2, q, v) == Translate(s, q, v)
    {
      assert Translate(s2, q, v) == Translate(s', q, v);
    }
  }

  lemma SameTables(s: Space, s': Space)
    requires Inv(s) && Inv(s') && s'.free == s.free && s'.free + s'.pages.Keys == s.free + s.pages.Keys
    ensures s'.pages.Keys == s.pages.Keys
  {
    assert s'.pages.Keys == (s'.free + s'.pages.Keys) - s'.free;
    assert s.pages.Keys == (s.free + s.pages.Keys) - s.free;
  }

  // ... and to the records.
  lemma UnstagedRecords(s: Space, s2: Space, root: nat, records: seq<Record>, r: Record)
    requires Inv(s) && IsRoot(s, root) && Held(s, root, records + [r]) && OnlyPage(s, s2, root, Vpn(r.va))
    requires s2.kroot == s.kroot && s2.procs == s.procs && s2.free == s.free + {r.frame}
    requires s2.pages.Keys == s.pages.Keys
    ensures Held(s2, root, records) && Ledger(s2, records) == Ledger(s, records + [r])
  {
    HeldPrefix(s, root, records, r);
    forall k | 0 <= k < |records| ensures records[k].frame !in s2.free && records[k].frame !in s2.pages {
      assert RecordOk(s, root, records[k]);
    }
    HeldElsewhere(s, s2, root, Vpn(r.va), records);
  }

  lemma Unstaged(s: Space, s': Space, s2: Space, root: nat, records: seq<Record>, r: Record)
    requires Inv(s) && root in s.procs && Held(s, root, records + [r]) && s2 == With(s', r.frame)
    requires LeafSet(s, s', root, Vpn(r.va), NoLeaf) && s'.free == s.free && FormKept(s, s', root)
    ensures Kept(s, records + [r], s2, records, root)
    ensures OnlyPage(s, s2, root, Vpn(r.va))
    ensures Translate(s2, root, Vpn(r.va)) == NoLeaf
  {
    HeldPrefix(s, root, records, r);
    SameTables(s, s');
    UnstagedPage(s, s', root, r.frame, Vpn(r.va));
    GivenBack(s, s', r.frame, root);
    UnstagedRecords(s, s2, root, records, r);
  }

  lemma GivenBack(s: Space, s': Space, frame: nat, root: nat)
    requires Inv(s) && Inv(s') && frame !in s'.pages && frame < FRAME_LIMIT
    requires SameLost(s, s') && FormKept(s, s', root)
    ensures Inv(With(s', frame)) && SameLost(s, With(s', frame)) && FormKept(s, With(s', frame), root)
  {
    ChangeFree(s', s'.free + {frame});
    FormFree(s', s'.free + {frame}, root);
  }

  // Unmap a recorded page and give it back.
  method TakeBack(m: M.Machine, space: M.SpaceHandle, r: Record, ghost records: seq<Record>) returns (status: Status)
    requires space.initialized && m.Valid() && space.root in m.procs && Held(m.View(), space.root, records + [r])
    modifies m`pages, m`free
    ensures status == Success
    ensures Kept(old(m.View()), records + [r], m.View(), records, space.root)
    ensures OnlyPage(old(m.View()), m.View(), space.root, Vpn(r.va))
    ensures Translate(m.View(), space.root, Vpn(r.va)) == NoLeaf
  {
    ghost var s := m.View();
    HeldPrefix(s, space.root, records, r);
    status := UnmapOne(m, space, r.va);
    ghost var s1 := m.View();
    SameTables(s, s1);
    GiveBack(m, r.frame);
    Unstaged(s, s1, m.View(), space.root, records, r);
  }

  // KePmmFreePages on a page that is no table.
  method GiveBack(m: M.Machine, frame: nat)
    requires frame !in m.free && frame !in m.pages
    modifies m`pages, m`free
    ensures m.View() == With(old(m.View()), frame)
  {
    m.FreePage(frame);
    assert m.pages == old(m.pages);
  }

  ghost predicate Appended(records: seq<Record>, records': seq<Record>, kind: Kind, va: nat, attributes: Pte) {
    && |records'| == |records| + 1
    && (forall k :: 0 <= k < |records| ==> records'[k] == records[k])
    && records'[|records|] == Record(kind, va, records'[|records|].frame, attributes)
  }

  // The free pages that staging a page takes: its own, and the tables missing on its path.
  ghost function Cost(s: Space, root: nat, va: nat): nat {
    1 + Missing(s.pages, root, 4, 1, Vpn(va))
  }

  // The bytes and the mapping of a page taken from the allocator; on failure it goes back.
  method FillAndMap(m: M.Machine, space: M.SpaceHandle, va: nat, frame: nat, attributes: Pte, populate: Status,
                    ghost s: Space)
    returns (status: Status)
    requires space.initialized && Inv(s) && space.root in s.procs && va % PAGE_4KB == 0 && LowPage(va)
    requires frame in s.free && m.View() == Without(s, frame)
    modifies m`pages, m`free, m`shape
    ensures status != Success ==> m.View() == s
    ensures status == Success <==>
              && populate == Success && Translate(s, space.root, Vpn(va)) == NoLeaf
              && |s.free| >= Cost(s, space.root, va)
    ensures status == Success ==>
              && LeafSet(Without(s, frame), m.View(), space.root, Vpn(va), Leaf(1, LeafPte(frame, attributes)))
              && FormKept(Without(s, frame), m.View(), space.root)
              && |m.free| + Cost(s, space.root, va) == |s.free|
  {
    ChangeFree(s, s.free - {frame});
    CostMeans(s, frame, space.root, va);
    status := populate;
    if status == Success {
      status := MapOne(m, space, va, frame, attributes);
    }
    if status != Success {
      assert s.free - {frame} + {frame} == s.free;
      GiveBack(m, frame);
    }
  }

  lemma CostMeans(s: Space, frame: nat, root: nat, va: nat)
    requires frame in s.free
    ensures |Without(s, frame).free| == |s.free| - 1
    ensures M.CanMap(Without(s, frame), root, Vpn(va)) <==>
              Translate(s, root, Vpn(va)) == NoLeaf && |s.free| >= Cost(s, root, va)
    ensures Missing(Without(s, frame).pages, root, 4, 1, Vpn(va)) + 1 == Cost(s, root, va)
  {}

  // KiAllocateAndMapUserPage.
  method AllocateAndMapUserPage(m: M.Machine, space: M.SpaceHandle, staging: Staging, kind: Kind, va: nat,
                                attributes: Pte, populate: Status)
    returns (status: Status)
    requires space.initialized && CanStage(m.View(), space.root, va, staging.mappings)
    modifies m`pages, m`free, m`shape, staging`mappings
    ensures Kept(old(m.View()), old(staging.mappings), m.View(), staging.mappings, space.root)
    ensures OnlyPage(old(m.View()), m.View(), space.root, Vpn(va))
    ensures status == Success <==>
              && populate == Success && old(|staging.mappings|) < 3
              && Translate(old(m.View()), space.root, Vpn(va)) == NoLeaf
              && |old(m.free)| >= Cost(old(m.View()), space.root, va)
    ensures status == Success ==>
              && |m.free| + Cost(old(m.View()), space.root, va) == |old(m.free)|
              && Appended(old(staging.mappings), staging.mappings, kind, va, attributes)
    ensures status != Success ==>
              && staging.mappings == old(staging.mappings)
              && Translate(m.View(), space.root, Vpn(va)) == Translate(old(m.View()), space.root, Vpn(va))
  {
    ghost var s, records := m.View(), staging.mappings;
    var ok, frame := m.AllocPage();
    if !ok {
      return OutOfResource;
    }
    status := FillAndMap(m, space, va, frame, attributes, populate, s);
    if status != Success {
      return;
    }
    var r := Record(kind, va, frame, attributes);
    ghost var s2 := m.View();
    Staged(s, s2, space.root, r, records);
    if |staging.mappings| >= 3 {
      var cleanup := TakeBack(m, space, r, records);
      OnlyPageTransitive(s, s2, m.View(), space.root, Vpn(va));
      KeptTransitive(s, records, s2, records + [r], m.View(), records, space.root);
      return InvalidState;
    }
    staging.mappings := staging.mappings + [r];
  }

  // ---------------------------------------------------------------- the whole image

  // The root translates every page as before.
  ghost predicate SameTranslations(s: Space, s': Space) {
    forall q: nat, v: nat {:trigger Translate(s', q, v)} :: IsRoot(s, q) && v < VPN_LIMIT ==>
      Translate(s', q, v) == Translate(s, q, v)
  }

  // Pages that differ between two states are pages of these records.
  ghost predicate OnlyRecords(s: Space, s': Space, root: nat, records: seq<Record>) {
    forall q: nat, v: nat {:trigger Translate(s', q, v)} ::
      IsRoot(s, q) && v < VPN_LIMIT && (q != root || NotRecorded(records, v)) ==>
        Translate(s', q, v) == Translate(s, q, v)
  }

  ghost predicate NotRecorded(records: seq<Record>, v: nat) {
    forall k :: 0 <= k < |records| ==> Vpn(records[k].va) != v
  }

  // The records from n on have been taken back.
  ghost predicate TakenBack(s: Space, s': Space, root: nat, all: seq<Record>, n: nat)
    requires n <= |all|
  {
    && Kept(s, all, s', all[..n], root)
    && OnlyRecords(s, s', root, all)
    && (forall k :: n <= k < |all| ==> Translate(s', root, Vpn(all[k].va)) == NoLeaf)
  }

  lemma TakenBackStep(s: Space, s1: Space, s2: Space, root: nat, all: seq<Record>, n: nat)
    requires 0 < n <= |all| && Inv(s) && root in s.procs && Held(s, root, all)
    requires TakenBack(s, s1, root, all, n)
    requires Kept(s1, all[..n], s2, all[..n - 1], root)
    requires OnlyPage(s1, s2, root, Vpn(all[n - 1].va)) && Translate(s2, root, Vpn(all[n - 1].va)) == NoLeaf
    ensures TakenBack(s, s2, root, all, n - 1)
  {
    KeptTransitive(s, all, s1, all[..n], s2, all[..n - 1], root);
    TakenBackElsewhere(s, s1, s2, root, all, n);
    TakenBackHoles(s, s1, s2, root, all, n);
  }

  lemma TakenBackStart(s: Space, root: nat, all: seq<Record>)
    requires Inv(s) && Held(s, root, all)
    ensures TakenBack(s, s, root, all, |all|) && all[..|all|] == all
  {
    assert all[..|all|] == all;
  }

  lemma TakenBackElsewhere(s: Space, s1: Space, s2: Space, root: nat, all: seq<Record>, n: nat)
    requires 0 < n <= |all| && Inv(s) && root in s.procs && s1.kroot == s.kroot && s1.procs == s.procs
    requires OnlyRecords(s, s1, root, all) && OnlyPage(s1, s2, root, Vpn(all[n - 1].va))
    ensures OnlyRecords(s, s2, root, all)
  {
    assert RootOk(s, s.kroot) && RootOk(s, root);
    forall q: nat, v: nat |
        IsRoot(s, q) && v < VPN_LIMIT && (q != root || NotRecorded(all, v))
      ensures Translate(s2, q, v) == Translate(s, q, v)
    {
      assert Translate(s1, q, v) == Translate(s, q, v) && IsRoot(s1, q);
    }
  }

  lemma TakenBackHoles(s: Space, s1: Space, s2: Space, root: nat, all: seq<Record>, n: nat)
    requires 0 < n <= |all| && root in s.procs && s1.procs == s.procs && Held(s, root, all)
    requires forall k :: n <= k < |all| ==> Translate(s1, root, Vpn(all[k].va)) == NoLeaf
    requires OnlyPage(s1, s2, root, Vpn(all[n - 1].va)) && Translate(s2, root, Vpn(all[n - 1].va)) == NoLeaf
    ensures forall k :: n - 1 <= k < |all| ==> Translate(s2, root, Vpn(all[k].va)) == NoLeaf
  {
    forall k | n - 1 <= k < |all| ensures Translate(s2, root, Vpn(all[k].va)) == NoLeaf {
      if k >= n {
        assert Apart(all, n - 1, k);
        assert IsRoot(s1, root) && Translate(s1, root, Vpn(all[k].va)) == NoLeaf;
      }
    }
  }

  lemma SplitLast(all: seq<Record>, n: nat)
    requires n < |all|
    ensures all[..n + 1] == all[..n] + [all[n]] && all[..n + 1][n] == all[n] && all[..n + 1][..n] == all[..n]
  {}

  // One round of KeUserModeDestroyStaging's loop, on record n.
  method PopRecord(m: M.Machine, root: nat, r: Record, ghost s: Space, ghost all: seq<Record>, ghost n: nat)
    returns (status: Status)
    requires n < |all| && r == all[n] && Inv(s) && root in s.procs && root != 0 && Held(s, root, all)
    requires TakenBack(s, m.View(), root, all, n + 1)
    modifies m`pages, m`free
    ensures status == Success && TakenBack(s, m.View(), root, all, n)
  {
    ghost var s1 := m.View();
    SplitLast(all, n);
    status := TakeBack(m, M.SpaceHandle(root, root != 0), r, all[..n]);
    TakenBackStep(s, s1, m.View(), root, all, n + 1);
  }

  // KeUserModeDestroyStaging: every recorded page is unmapped and freed once.
  method DestroyStaging(m: M.Machine, staging: Staging) returns (status: Status)
    requires m.Valid() && staging.ownerRoot in m.procs && staging.ownerRoot != 0
    requires Held(m.View(), staging.ownerRoot, staging.mappings)
    modifies m`pages, m`free, staging`mappings
    ensures status == Success && staging.mappings == []
    ensures TakenBack(old(m.View()), m.View(), staging.ownerRoot, old(staging.mappings), 0)
  {
    ghost var s, all, n := m.View(), staging.mappings, |staging.mappings|;
    var root := staging.ownerRoot;
    status := Success;
    TakenBackStart(s, root, all);
    while |staging.mappings| != 0
      invariant |staging.mappings| == n <= |all| && staging.mappings == all[..n] && status == Success
      invariant TakenBack(s, m.View(), root, all, n)
      decreases n
    {
      status := PopLast(m, staging, root, s, all, n);
      n := n - 1;
    }
  }

  method PopLast(m: M.Machine, staging: Staging, root: nat, ghost s: Space, ghost all: seq<Record>, ghost n: nat)
    returns (status: Status)
    requires 0 < n <= |all| && staging.mappings == all[..n] && root == staging.ownerRoot
    requires Inv(s) && root in s.procs && root != 0 && Held(s, root, all) && TakenBack(s, m.View(), root, all, n)
    modifies m`pages, m`free, staging`mappings
    ensures status == Success && staging.mappings == all[..n - 1] && TakenBack(s, m.View(), root, all, n - 1)
  {
    var last := |staging.mappings| - 1;
    SplitLast(all, last);
    status := PopRecord(m, root, staging.mappings[last], s, all, last);
    ghost var now := m.View();
    staging.mappings := staging.mappings[..last];
    assert m.View() == now;
  }

  // The four pages of the user window are in the low half and differ.
  lemma Window()
    ensures Vpn(CODE_BASE) == 0x8_0000 && Vpn(CONST_BASE) == 0x8_0001
    ensures Vpn(GUARD_BASE) == 0x8_0002 && Vpn(STACK_BASE) == 0x8_0003 && Vpn(0) == 0
    ensures forall v: nat {:trigger Index(v, 4)} :: v <= 0x8_0003 ==> Index(v, 4) == 0
  {}

  // Every recorded page was a hole.
  ghost predicate WereHoles(s0: Space, root: nat, records: seq<Record>) {
    forall k :: 0 <= k < |records| ==> Translate(s0, root, Vpn(records[k].va)) == NoLeaf
  }

  // From s0, in which the recorded pages were holes, these records have been staged.
  ghost predicate Building(s0: Space, s: Space, root: nat, records: seq<Record>) {
    Kept(s0, [], s, records, root) && OnlyRecords(s0, s, root, records) && WereHoles(s0, root, records)
  }

  lemma BuildStart(s0: Space, root: nat)
    requires Inv(s0)
    ensures Building(s0, s0, root, [])
  {}

  // One record more, at this page.
  ghost predicate Extended(records: seq<Record>, records': seq<Record>, va: nat) {
    && |records'| == |records| + 1 && records'[|records|].va == va
    && (forall k :: 0 <= k < |records| ==> records'[k] == records[k])
  }

  // One AllocateAndMapUserPage call, whether it added a record or not.
  lemma BuildStep(s0: Space, s: Space, s': Space, root: nat, records: seq<Record>, records': seq<Record>, va: nat)
    requires Inv(s0) && root in s0.procs && Building(s0, s, root, records)
    requires Kept(s, records, s', records', root) && OnlyPage(s, s', root, Vpn(va))
    requires Translate(s0, root, Vpn(va)) == NoLeaf
    requires || (records' == records && Translate(s', root, Vpn(va)) == Translate(s, root, Vpn(va)))
             || Extended(records, records', va)
    ensures Building(s0, s', root, records')
  {
    KeptTransitive(s0, [], s, records, s', records', root);
    BuildTranslations(s0, s, s', root, records, records', va);
    BuildHoles(s0, root, records, records', va);
  }

  lemma BuildHoles(s0: Space, root: nat, records: seq<Record>, records': seq<Record>, va: nat)
    requires WereHoles(s0, root, records) && Translate(s0, root, Vpn(va)) == NoLeaf
    requires records' == records || Extended(records, records', va)
    ensures WereHoles(s0, root, records')
  {
    forall k | 0 <= k < |records'| ensures Translate(s0, root, Vpn(records'[k].va)) == NoLeaf {
      assert k < |records| ==> records'[k] == records[k];
    }
  }

  lemma BuildTranslations(
      s0: Space, s: Space, s': Space, root: nat, records: seq<Record>, records': seq<Record>, va: nat)
    requires Inv(s0) && root in s0.procs && OnlyRecords(s0, s, root, records) && s.kroot == s0.kroot
    requires s.procs == s0.procs
    requires OnlyPage(s, s', root, Vpn(va))
    requires || (records' == records && Translate(s', root, Vpn(va)) == Translate(s, root, Vpn(va)))
             || Extended(records, records', va)
    ensures OnlyRecords(s0, s', root, records')
  {
    assert RootOk(s0, s0.kroot) && RootOk(s0, root);
    forall q: nat, v: nat |
        IsRoot(s0, q) && v < VPN_LIMIT && (q != root || NotRecorded(records', v))
      ensures Translate(s', q, v) == Translate(s0, q, v)
    {
      if q == root {
        forall k | 0 <= k < |records| ensures Vpn(records[k].va) != v {
          assert records'[k] == records[k];
        }
      }
      assert IsRoot(s, q) && Translate(s, q, v) == Translate(s0, q, v);
    }
  }

  // Staging that fails and takes everything back changes no translation and loses no page.
  lemma BuildUndone(s0: Space, s: Space, s': Space, root: nat, records: seq<Record>)
    requires Inv(s0) && root in s0.procs && Building(s0, s, root, records)
    requires TakenBack(s, s', root, records, 0)
    ensures Kept(s0, [], s', [], root) && SameTranslations(s0, s')
  {
    KeptTransitive(s0, [], s, records, s', [], root);
    forall q: nat, v: nat | IsRoot(s0, q) && v < VPN_LIMIT ensures Translate(s', q, v) == Translate(s0, q, v) {
      assert IsRoot(s, q);
      if q != root || NotRecorded(records, v) {
        assert Translate(s, q, v) == Translate(s0, q, v);
      }
    }
  }

  // KiValidateUserModeHole (a process view has no imported regions).
  method ValidateHole(m: M.Machine, space: M.SpaceHandle, va: nat) returns (status: Status)
    requires m.Valid() && space.initialized && IsRoot(m.View(), space.root) && va % PAGE_4KB == 0
    ensures status == if Translate(m.View(), space.root, Vpn(va)).Leaf? then InvalidState else Success
  {
    var mapping;
    status, mapping := m.QueryPage(space, va);
    if mapping.present {
      return InvalidState;
    }
  }

  // Code that fits in one page with the entry point in it, and const bytes, if any, that fit in one page.
  predicate ParamsOk(p: Params) {
    && p.hasCode && 0 < p.codeLength <= PAGE_4KB && p.entryOffset < p.codeLength
    && (p.hasConst <==> p.constLength != 0) && p.constLength <= PAGE_4KB
  }

  // KiValidateCreateParams.
  method ValidateParams(p: Params) returns (status: Status)
    ensures status == if ParamsOk(p) then Success else IllegalArgument
  {
    if !p.hasCode || p.codeLength == 0 || p.codeLength > PAGE_4KB {
      return IllegalArgument;
    }
    if p.entryOffset >= p.codeLength {
      return IllegalArgument;
    }
    if !p.hasConst != (p.constLength == 0) {
      return IllegalArgument;
    }
    if p.constLength > PAGE_4KB {
      return IllegalArgument;
    }
    return Success;
  }

  // The five holes KeUserModeCreateStaging insists on.
  ghost predicate Holes(s: Space, root: nat) {
    && Translate(s, root, Vpn(0)) == NoLeaf && Translate(s, root, Vpn(CODE_BASE)) == NoLeaf
    && Translate(s, root, Vpn(CONST_BASE)) == NoLeaf && Translate(s, root, Vpn(GUARD_BASE)) == NoLeaf
    && Translate(s, root, Vpn(STACK_BASE)) == NoLeaf
  }

  method ValidateHoles(m: M.Machine, space: M.SpaceHandle) returns (status: Status)
    requires m.Valid() && space.initialized && IsRoot(m.View(), space.root)
    ensures status == if Holes(m.View(), space.root) then Success else InvalidState
  {
    status := ValidateHole(m, space, 0);
    if status != Success { return; }
    status := ValidateHole(m, space, CODE_BASE);
    if status != Success { return; }
    status := ValidateHole(m, space, CONST_BASE);
    if status != Success { return; }
    status := ValidateHole(m, space, GUARD_BASE);
    if status != Success { return; }
    status := ValidateHole(m, space, STACK_BASE);
  }

  // What the finished image looks like: code read-only, const read-only and no-execute when there is one,
  // stack writable and no-execute, all user; guard page and page zero unmapped.
  ghost predicate Staged4(s: Space, root: nat, hasConst: bool) {
    && Translate(s, root, Vpn(0)) == NoLeaf
    && Translate(s, root, Vpn(GUARD_BASE)) == NoLeaf
    && (exists f: nat :: Translate(s, root, Vpn(CODE_BASE)) == Leaf(1, LeafPte(f, CODE_FLAGS)))
    && (if hasConst then exists f: nat :: Translate(s, root, Vpn(CONST_BASE)) == Leaf(1, LeafPte(f, CONST_FLAGS))
        else Translate(s, root, Vpn(CONST_BASE)) == NoLeaf)
    && (exists f: nat :: Translate(s, root, Vpn(STACK_BASE)) == Leaf(1, LeafPte(f, STACK_FLAGS)))
  }

  // Records at lower page addresses.
  ghost predicate Below(records: seq<Record>, va: nat) {
    forall k :: 0 <= k < |records| ==> records[k].va % PAGE_4KB == 0 && records[k].va < va
  }

  lemma BuildCanStage(s0: Space, s: Space, root: nat, records: seq<Record>, va: nat)
    requires Inv(s0) && root in s0.procs && Holes(s0, root) && Building(s0, s, root, records) && Below(records, va)
    requires va == CODE_BASE || va == CONST_BASE || va == STACK_BASE
    ensures CanStage(s, root, va, records) && Translate(s0, root, Vpn(va)) == NoLeaf
    ensures Translate(s, root, Vpn(va)) == NoLeaf
  {
    Window();
    forall k | 0 <= k < |records| ensures Vpn(records[k].va) != Vpn(va) {
      LowerPage(records[k].va, va);
    }
  }

  lemma LowerPage(a: nat, b: nat)
    requires a % PAGE_4KB == 0 && b % PAGE_4KB == 0 && a < b < 0x1_0000_0000
    ensures Vpn(a) != Vpn(b)
  {}

  // One of the three calls, with the bookkeeping from the start of the staging.
  method StagePage(m: M.Machine, space: M.SpaceHandle, staging: Staging, kind: Kind, va: nat, attributes: Pte,
                   populate: Status, ghost s0: Space)
    returns (status: Status)
    requires space.initialized && Inv(s0) && space.root in s0.procs && Holes(s0, space.root)
    requires va == CODE_BASE || va == CONST_BASE || va == STACK_BASE
    requires Building(s0, m.View(), space.root, staging.mappings)
    requires Below(staging.mappings, va)
    modifies m`pages, m`free, m`shape, staging`mappings
    ensures Building(s0, m.View(), space.root, staging.mappings)
    ensures if status == Success
            then Appended(old(staging.mappings), staging.mappings, kind, va, attributes)
                 && |m.free| + Cost(old(m.View()), space.root, va) == |old(m.free)|
            else staging.mappings == old(staging.mappings)
    ensures status == Success <==>
              populate == Success && old(|staging.mappings|) < 3 && |old(m.free)| >= Cost(old(m.View()), space.root, va)
  {
    ghost var s, records := m.View(), staging.mappings;
    BuildCanStage(s0, s, space.root, records, va);
    status := AllocateAndMapUserPage(m, space, staging, kind, va, attributes, populate);
    BuildStep(s0, s, m.View(), space.root, records, staging.mappings, va);
  }

  // The records KeUserModeCreateStaging leaves behind.
  ghost predicate Image(records: seq<Record>, hasConst: bool) {
    && |records| == (if hasConst then 3 else 2)
    && records[0] == Record(Code, CODE_BASE, records[0].frame, CODE_FLAGS)
    && (hasConst ==> records[1] == Record(Const, CONST_BASE, records[1].frame, CONST_FLAGS))
    && records[|records| - 1] == Record(Stack, STACK_BASE, records[|records| - 1].frame, STACK_FLAGS)
  }

  // The same before the stack page.
  ghost predicate ReadOnlyImage(records: seq<Record>, hasConst: bool) {
    && |records| == (if hasConst then 2 else 1)
    && records[0] == Record(Code, CODE_BASE, records[0].frame, CODE_FLAGS)
    && (hasConst ==> records[1] == Record(Const, CONST_BASE, records[1].frame, CONST_FLAGS))
  }

  lemma StackOnTop(records: seq<Record>, hasConst: bool)
    requires ReadOnlyImage(records, hasConst)
    ensures Below(records, STACK_BASE)
  {}

  lemma ConstOnTop(records: seq<Record>)
    requires ReadOnlyImage(records, false)
    ensures Below(records, CONST_BASE)
  {}

  lemma ConstAdded(records: seq<Record>, records': seq<Record>)
    requires ReadOnlyImage(records, false) && Appended(records, records', Const, CONST_BASE, CONST_FLAGS)
    ensures ReadOnlyImage(records', true)
  {
    assert records'[0] == records[0];
  }

  lemma ImageComplete(records: seq<Record>, records': seq<Record>, hasConst: bool)
    requires ReadOnlyImage(records, hasConst) && Appended(records, records', Stack, STACK_BASE, STACK_FLAGS)
    ensures Image(records', hasConst)
  {
    assert records'[0] == records[0];
    assert hasConst ==> records'[1] == records[1];
  }

  lemma ImageMeans(s0: Space, s: Space, root: nat, records: seq<Record>, hasConst: bool)
    requires Inv(s0) && root in s0.procs && Holes(s0, root) && Building(s0, s, root, records)
    requires Image(records, hasConst)
    ensures Staged4(s, root, hasConst)
  {
    ImagePages(records, hasConst);
    assert RecordOk(s, root, records[0]) && RecordOk(s, root, records[|records| - 1]);
    assert hasConst ==> RecordOk(s, root, records[1]);
    HoleKept(s0, s, root, records, Vpn(GUARD_BASE));
    HoleKept(s0, s, root, records, Vpn(0));
    if !hasConst { HoleKept(s0, s, root, records, Vpn(CONST_BASE)); }
  }

  lemma ImagePages(records: seq<Record>, hasConst: bool)
    requires Image(records, hasConst)
    ensures Vpn(0) <= 0x8_0003 && Vpn(GUARD_BASE) <= 0x8_0003 && Vpn(CONST_BASE) <= 0x8_0003
    ensures NotRecorded(records, Vpn(GUARD_BASE)) && NotRecorded(records, Vpn(0))
    ensures !hasConst ==> NotRecorded(records, Vpn(CONST_BASE))
  {
    Window();
  }

  lemma HoleKept(s0: Space, s: Space, root: nat, records: seq<Record>, v: nat)
    requires root in s0.procs && OnlyRecords(s0, s, root, records) && v <= 0x8_0003
    requires NotRecorded(records, v)
    ensures Translate(s, root, v) == Translate(s0, root, v)
  {
    Window();
  }

  // The pages of the window have their tables in common: once one of them is mapped, none is missing.
  lemma WindowCost(s: Space, root: nat, records: seq<Record>, va: nat)
    requires Held(s, root, records) && records != [] && records[0].va == CODE_BASE
    requires va == CONST_BASE || va == STACK_BASE
    ensures Cost(s, root, va) == 1
  {
    Window();
    assert RecordOk(s, root, records[0]);
    NoneMissing(s.pages, root, 4, Vpn(CODE_BASE));
    CommonTables(s.pages, root, Vpn(CODE_BASE), Vpn(va));
  }

  lemma {:induction false} NoneMissing(pages: map<nat, Table>, t: nat, level: nat, vpn: nat)
    requires 1 <= level <= 4 && Lookup(pages, t, level, vpn).Leaf? && Lookup(pages, t, level, vpn).level == 1
    ensures Missing(pages, t, level, 1, vpn) == 0
    decreases level
  {
    if level > 1 { NoneMissing(pages, pages[t][Index(vpn, level)].base, level - 1, vpn); }
  }

  lemma CommonTables(pages: map<nat, Table>, t: nat, v: nat, w: nat)
    requires v / 512 == w / 512
    ensures Missing(pages, t, 4, 1, v) == Missing(pages, t, 4, 1, w)
  {
    assert v / 0x4_0000 == v / 512 / 512 && w / 0x4_0000 == w / 512 / 512;
    assert v / 0x800_0000 == v / 512 / 0x4_0000 && w / 0x800_0000 == w / 512 / 0x4_0000;
    SameMissing(pages, t, 4, v, w);
  }

  lemma {:induction false} SameMissing(pages: map<nat, Table>, t: nat, level: nat, v: nat, w: nat)
    requires 1 <= level <= 4 && forall l :: 2 <= l <= 4 ==> Index(v, l) == Index(w, l)
    ensures Missing(pages, t, level, 1, v) == Missing(pages, t, level, 1, w)
    decreases level
  {
    if level > 1 && t in pages { SameMissing(pages, pages[t][Index(v, level)].base, level - 1, v, w); }
  }

  // What the mapping calls need: the bytes of each page, and free pages for the tables and the pages.
  ghost predicate CanFill(s: Space, root: nat, hasConst: bool, populate: seq<Status>)
    requires |populate| == 3
  {
    && populate[0] == Success && (hasConst ==> populate[1] == Success) && populate[2] == Success
    && |s.free| >= Cost(s, root, CODE_BASE) + if hasConst then 2 else 1
  }

  // KeUserModeCreateStaging.
  method CreateStaging(m: M.Machine, params: Params, space: M.SpaceHandle, heapOk: bool, populate: seq<Status>)
    returns (status: Status, staging: Staging?)
    requires m.Valid() && |populate| == 3 && (space.initialized ==> space.root in m.procs && space.root != 0)
    modifies m`pages, m`free, m`shape
    ensures status == Success ==>
              && staging != null && fresh(staging) && staging.ownerRoot == space.root && space.initialized
              && Building(old(m.View()), m.View(), space.root, staging.mappings)
              && Image(staging.mappings, params.constLength != 0)
              && Staged4(m.View(), space.root, params.constLength != 0)
    ensures status != Success ==>
              && staging == null
              && Kept(old(m.View()), [], m.View(), [], space.root)
              && SameTranslations(old(m.View()), m.View())
    ensures status == Success <==>
              && space.initialized && ParamsOk(params) && Holes(old(m.View()), space.root) && heapOk
              && CanFill(old(m.View()), space.root, params.constLength != 0, populate)
  {
    ghost var s0 := m.View();
    NothingStaged(s0, space.root);
    if !space.initialized {
      return InvalidState, null;
    }
    status := ValidateParams(params);
    if status != Success {
      return status, null;
    }
    assert RootOk(s0, space.root);
    status := ValidateHoles(m, space);
    if status != Success {
      return status, null;
    }
    if !heapOk {
      return OutOfResource, null;
    }
    status, staging := StageImage(m, params, space, populate, s0);
  }

  // KeUserModeCreateStaging past its checks.
  method StageImage(m: M.Machine, params: Params, space: M.SpaceHandle, populate: seq<Status>,
                    ghost s0: Space)
    returns (status: Status, staging: Staging?)
    requires m.Valid() && |populate| == 3 && space.initialized && space.root in m.procs && space.root != 0
    requires m.View() == s0 && Holes(s0, space.root)
    modifies m`pages, m`free, m`shape
    ensures status == Success ==>
              && staging != null && fresh(staging) && staging.ownerRoot == space.root
              && Building(s0, m.View(), space.root, staging.mappings)
              && Image(staging.mappings, params.constLength != 0)
              && Staged4(m.View(), space.root, params.constLength != 0)
    ensures status != Success ==>
              && staging == null
              && Kept(s0, [], m.View(), [], space.root)
              && SameTranslations(s0, m.View())
    ensures status == Success <==> CanFill(s0, space.root, params.constLength != 0, populate)
  {
    var built := new Staging(space.root);
    status := FillStaging(m, params, space, built, populate);
    if status == Success {
      return Success, built;
    }
    Cleanup(m, built, s0);
    return status, null;
  }

  // The cleanup label of KeUserModeCreateStaging.
  method Cleanup(m: M.Machine, staging: Staging, ghost s0: Space)
    requires Inv(s0) && staging.ownerRoot in s0.procs && staging.ownerRoot != 0
    requires Building(s0, m.View(), staging.ownerRoot, staging.mappings)
    modifies m`pages, m`free, staging`mappings
    ensures Kept(s0, [], m.View(), [], staging.ownerRoot) && SameTranslations(s0, m.View())
  {
    ghost var s, records := m.View(), staging.mappings;
    var status := DestroyStaging(m, staging);
    BuildUndone(s0, s, m.View(), staging.ownerRoot, records);
  }

  // The mapping calls of KeUserModeCreateStaging up to its cleanup label.
  method FillStaging(m: M.Machine, params: Params, space: M.SpaceHandle, staging: Staging, populate: seq<Status>)
    returns (status: Status)
    requires space.initialized && |populate| == 3
    requires m.Valid() && space.root in m.procs && Holes(m.View(), space.root) && staging.mappings == []
    modifies m`pages, m`free, m`shape, staging`mappings
    ensures Building(old(m.View()), m.View(), space.root, staging.mappings)
    ensures status == Success <==> CanFill(old(m.View()), space.root, params.constLength != 0, populate)
    ensures status == Success ==>
              && Image(staging.mappings, params.constLength != 0)
              && Staged4(m.View(), space.root, params.constLength != 0)
  {
    ghost var s0 := m.View();
    status := FillReadOnly(m, params, space, staging, populate, s0);
    if status != Success { return; }
    ghost var records := staging.mappings;
    StackOnTop(records, params.constLength != 0);
    WindowCost(m.View(), space.root, records, STACK_BASE);
    status := StagePage(m, space, staging, Stack, STACK_BASE, STACK_FLAGS, populate[2], s0);
    if status != Success { return; }
    ImageComplete(records, staging.mappings, params.constLength != 0);
    ImageMeans(s0, m.View(), space.root, staging.mappings, params.constLength != 0);
    status := ValidateHole(m, space, GUARD_BASE);
  }

  // Code and, when there are any, const bytes.
  method FillReadOnly(m: M.Machine, params: Params, space: M.SpaceHandle, staging: Staging, populate: seq<Status>,
                      ghost s0: Space)
    returns (status: Status)
    requires space.initialized && |populate| == 3
    requires Inv(s0) && space.root in s0.procs && Holes(s0, space.root) && m.View() == s0 && staging.mappings == []
    modifies m`pages, m`free, m`shape, staging`mappings
    ensures Building(s0, m.View(), space.root, staging.mappings)
    ensures var needed := Cost(s0, space.root, CODE_BASE) + if params.constLength != 0 then 1 else 0;
            && (status == Success <==>
                  && populate[0] == Success && (params.constLength != 0 ==> populate[1] == Success)
                  && |s0.free| >= needed)
            && (status == Success ==> |m.free| + needed == |s0.free|)
    ensures status == Success ==> ReadOnlyImage(staging.mappings, params.constLength != 0)
  {
    BuildStart(s0, space.root);
    status := StagePage(m, space, staging, Code, CODE_BASE, CODE_FLAGS, populate[0], s0);
    if status == Success && params.constLength != 0 {
      status := FillConst(m, space, staging, populate[1], s0);
    }
  }

  method FillConst(m: M.Machine, space: M.SpaceHandle, staging: Staging, populate: Status, ghost s0: Space)
    returns (status: Status)
    requires space.initialized && Inv(s0) && space.root in s0.procs && Holes(s0, space.root)
    requires Building(s0, m.View(), space.root, staging.mappings)
    requires ReadOnlyImage(staging.mappings, false)
    modifies m`pages, m`free, m`shape, staging`mappings
    ensures Building(s0, m.View(), space.root, staging.mappings)
    ensures status == Success <==> populate == Success && |old(m.free)| >= 1
    ensures status == Success ==> ReadOnlyImage(staging.mappings, true) && |m.free| + 1 == |old(m.free)|
  {
    ghost var records := staging.mappings;
    ConstOnTop(records);
    WindowCost(m.View(), space.root, records, CONST_BASE);
    status := StagePage(m, space, staging, Const, CONST_BASE, CONST_FLAGS, populate, s0);
    if status == Success { ConstAdded(records, staging.mappings); }
  }

  // ---------------------------------------------------------------- create and tear down a process

  // Staging and address space gone: the root owns nothing, and its pages are back, except for tables below its
  // high half.
  lemma PayloadGone(s: Space, s1: Space, s2: Space, root: nat, records: seq<Record>, active: nat)
    requires Inv(s) && Inv(s1) && root in s1.procs && active != root && (s2, Success) == DestroyRoot(s1, root, active)
    requires Kept(s, records, s1, [], root) && s1.shape == s.shape
    ensures Inv(s2) && s2.procs == s.procs - {root} && Owned(s2, root) == {} && SameOutside(s, s2, root)
    ensures Ledger(s2, []) == Ledger(s, records)
    ensures Lost(s2) == Lost(s) + (Owned(s, root) - LowOwned(s, root))
    ensures forall x :: x in Lost(s) ==> s2.pages[x] == s.pages[x]
  {
    DestroyRootCorrect(s1, root, active);
    OutsideTransitive(s, s1, s2, root);
  }

  // ExRuntimeTeardownProcessPayload: recorded pages and every table of the root are free again, except for tables
  // below its high half. Without an address space there is nothing to take down.
  method TeardownPayload(m: M.Machine, space: M.SpaceHandle, staging: Staging?) returns (status: Status)
    requires m.Valid() && m.kernelRoot != 0 && (space.initialized ==> space.root in m.procs && space.root != 0)
    requires staging != null ==>
               space.initialized && staging.ownerRoot == space.root && Held(m.View(), space.root, staging.mappings)
    modifies m, staging
    ensures status == Success && m.Valid() && m.kernelRoot == old(m.kernelRoot)
    ensures m.cr3 == if space.initialized && old(m.cr3) == space.root then m.kernelRoot else old(m.cr3)
    ensures !space.initialized ==> m.View() == old(m.View())
    ensures space.initialized ==>
              && m.procs == old(m.procs) - {space.root} && Owned(m.View(), space.root) == {}
              && SameOutside(old(m.View()), m.View(), space.root)
              && Ledger(m.View(), []) == old(Ledger(m.View(), if staging == null then [] else staging.mappings))
              && Lost(m.View()) == old(Lost(m.View()) + (Owned(m.View(), space.root) - LowOwned(m.View(), space.root)))
              && (forall x :: x in old(Lost(m.View())) ==> m.pages[x] == old(m.pages)[x])
  {
    status := Success;
    if space.initialized && m.cr3 == space.root {
      assert RootOk(m.View(), m.kernelRoot) && RootOk(m.View(), space.root);
      status := m.SwitchAddressSpace(m.kernelRoot);
    }
    ghost var s, records := m.View(), if staging == null then [] else staging.mappings;
    if staging != null {
      status := DestroyStaging(m, staging);
    } else if space.initialized {
      NothingStaged(s, space.root);
    }
    if space.initialized {
      ghost var s1 := m.View();
      status := m.DestroyProcessAddressSpace(space);
      PayloadGone(s, s1, m.View(), space.root, records, m.cr3);
    }
  }

  lemma NothingStaged(s: Space, root: nat)
    requires Inv(s)
    ensures Kept(s, [], s, [], root)
  {}

  // Nothing owned by the root is left, nothing else changed: the state is the one before the root was made.
  lemma BackToStart(s: Space, s': Space, root: nat)
    requires Inv(s) && Inv(s') && SameOutside(s, s', root) && s'.kroot == s.kroot && s'.procs == s.procs
    requires Owned(s, root) == {} && Owned(s', root) == {}
    requires Ledger(s', []) == Ledger(s, []) && SameLost(s, s')
    ensures s' == s
  {
    forall x ensures x in s.shape <==> x in s'.shape {
      assert x !in Owned(s, root) && x !in Owned(s', root);
    }
    assert s'.shape.Keys == s.shape.Keys;
    forall x | x in s.shape ensures s'.shape[x] == s.shape[x] && s'.pages[x] == s.pages[x] {
      assert x !in Owned(s, root);
    }
    assert s'.shape == s.shape;
    assert s'.pages.Keys == s'.shape.Keys + Lost(s') && s.pages.Keys == s.shape.Keys + Lost(s);
    assert s'.pages == s.pages;
    assert s'.free == Ledger(s', []) - s'.pages.Keys;
    assert s.free == Ledger(s, []) - s.pages.Keys;
  }

  // What ExRuntimeCreateProcess meets outside this model: the heap, the const-block builder, the temporary
  // mapping window and the three handle inserts.
  datatype Outside = Outside(
    processHeap: bool, constBytes: Status, stagingHeap: bool, populate: seq<Status>, inserts: seq<Status>)

  // A new root has nothing in its low half, and all three tables of the window's path are missing.
  lemma FreshRootEmpty(s: Space, f: nat)
    requires Inv(s) && f in s.free
    ensures RootOk(s, s.kroot)
    ensures EmptyLow(CreateRoot(s, [f]).0, f) && Cost(CreateRoot(s, [f]).0, f, CODE_BASE) == 4
  {
    CreateRootCorrect(s, f);
    Window();
  }

  lemma EmptyHoles(s: Space, root: nat)
    requires EmptyLow(s, root)
    ensures Holes(s, root)
  {
    Window();
  }

  // When ExRuntimeCreateProcess succeeds: nothing outside fails, the parameters are good, and there are free pages for
  // the root, three tables, and the code, const and stack pages.
  predicate CanCreate(params: Params, world: Outside, free: nat)
    requires |world.populate| == 3 && |world.inserts| == 3
  {
    && world.processHeap && world.constBytes == Success && ParamsOk(params) && world.stagingHeap
    && world.populate[0] == Success && (params.constLength != 0 ==> world.populate[1] == Success)
    && world.populate[2] == Success && (forall i :: 0 <= i < 3 ==> world.inserts[i] == Success)
    && free >= if params.constLength != 0 then 7 else 6
  }

  // A new root and what has been staged under it so far; nothing else differs from s0.
  ghost predicate InTheMaking(s0: Space, s: Space, root: nat, records: seq<Record>) {
    && Inv(s0) && Inv(s) && s.kroot == s0.kroot && s.procs == s0.procs + {root}
    && root !in s0.procs && root != 0 && root in s0.free && Owned(s0, root) == {}
    && SameOutside(s0, s, root) && SameLost(s0, s) && AllLow(s, root) && Closed(s, root)
    && (AllWritable(s0) ==> AllWritable(s))
    && Held(s, root, records) && Ledger(s, records) == Ledger(s0, [])
  }

  // No page of the low half is mapped.
  ghost predicate EmptyLow(s: Space, root: nat) {
    forall v: nat {:trigger Translate(s, root, v)} :: v < VPN_LIMIT && Index(v, 4) < 256 ==>
      Translate(s, root, v) == NoLeaf
  }

  // The finished image under a new root: its three or two pages, and nothing else in the low half.
  ghost predicate Finished(s: Space, root: nat, records: seq<Record>, hasConst: bool) {
    && Image(records, hasConst)
    && forall v: nat {:trigger Translate(s, root, v)} ::
         v < VPN_LIMIT && Index(v, 4) < 256 && NotRecorded(records, v) ==> Translate(s, root, v) == NoLeaf
  }

  lemma BuiltOnEmpty(s0: Space, s: Space, root: nat, records: seq<Record>, hasConst: bool)
    requires root in s0.procs && EmptyLow(s0, root) && OnlyRecords(s0, s, root, records) && Image(records, hasConst)
    ensures Finished(s, root, records, hasConst)
  {
    forall v: nat | v < VPN_LIMIT && Index(v, 4) < 256 && NotRecorded(records, v)
      ensures Translate(s, root, v) == NoLeaf
    {
      assert Translate(s0, root, v) == NoLeaf && IsRoot(s0, root);
    }
  }

  // What the program can do at each address: execute and read its code, read its const bytes, read and write its
  // stack. Every page is at the frame of its record; everything else in the low half faults.
  ghost function ProgramAccess(records: seq<Record>, hasConst: bool, va: nat): Access
    requires Image(records, hasConst)
  {
    if 0x8000_0000 <= va < 0x8000_1000 then
      Access(records[0].frame * PAGE_4KB + va % PAGE_4KB, false, true, true)
    else if 0x8000_1000 <= va < 0x8000_2000 && hasConst then
      Access(records[1].frame * PAGE_4KB + va % PAGE_4KB, false, true, false)
    else if 0x8000_3000 <= va < 0x8000_4000 then
      Access(records[|records| - 1].frame * PAGE_4KB + va % PAGE_4KB, true, true, false)
    else Fault
  }

  // What its record says of a page.
  ghost function RecordView(r: Record, va: nat): Access {
    Access(r.frame * PAGE_4KB + va % PAGE_4KB, r.attributes.writable, r.attributes.user, !NoExecute(r.attributes))
  }

  lemma OwnBitDecides(s: Space, root: nat, r: Record)
    requires Closed(s, root) && root in s.procs && RecordOk(s, root, r)
    ensures UserPath(s.pages, root, 4, Vpn(r.va)) <==> r.attributes.user
  {
    assert RootOk(s, root);
    LeafBitDecides(s, {root}, root, Vpn(r.va));
  }

  // The access that the processor finds for a recorded page.
  lemma RecordAccess(s: Space, root: nat, r: Record, offset: nat)
    requires Closed(s, root) && AllWritable(s) && root in s.procs && RecordOk(s, root, r) && offset < PAGE_4KB
    ensures var a := r.attributes;
            AccessAt(s.pages, root, r.va + offset)
            == Access(r.frame * PAGE_4KB + offset, a.writable, a.user, !NoExecute(a))
  {
    LeafFields(r.frame, r.attributes);
    OwnBitDecides(s, root, r);
    var a, phys := r.attributes, r.frame * PAGE_4KB;
    AccessGiven(s, root, r.va, offset, phys, a.writable, a.user, !NoExecute(a));
  }

  lemma {:induction false} ProgramSees(s: Space, root: nat, records: seq<Record>, hasConst: bool, va: nat)
    requires Closed(s, root) && AllWritable(s) && root in s.procs && Held(s, root, records)
    requires Finished(s, root, records, hasConst) && va < 0x8000_0000_0000
    ensures AccessAt(s.pages, root, va) == ProgramAccess(records, hasConst, va)
  {
    ImageViews(records, hasConst, va);
    if 0x8000_0000 <= va < 0x8000_1000 {
      ImageAccess(s, root, records, 0, va);
    } else if 0x8000_1000 <= va < 0x8000_2000 && hasConst {
      ImageAccess(s, root, records, 1, va);
    } else if 0x8000_3000 <= va < 0x8000_4000 {
      ImageAccess(s, root, records, |records| - 1, va);
    } else {
      NothingThere(s, root, records, hasConst, va);
    }
  }

  lemma ImageAccess(s: Space, root: nat, records: seq<Record>, k: nat, va: nat)
    requires Closed(s, root) && AllWritable(s) && root in s.procs && Held(s, root, records) && k < |records|
    requires records[k].va <= va < records[k].va + PAGE_4KB
    ensures AccessAt(s.pages, root, va) == RecordView(records[k], va)
  {
    InPage(records[k].va, va - records[k].va);
    RecordAccess(s, root, records[k], va - records[k].va);
  }

  lemma ImageViews(records: seq<Record>, hasConst: bool, va: nat)
    requires Image(records, hasConst)
    ensures 0x8000_0000 <= va < 0x8000_1000 ==> ProgramAccess(records, hasConst, va) == RecordView(records[0], va)
    ensures 0x8000_1000 <= va < 0x8000_2000 && hasConst ==>
              ProgramAccess(records, hasConst, va) == RecordView(records[1], va)
    ensures 0x8000_3000 <= va < 0x8000_4000 ==>
              ProgramAccess(records, hasConst, va) == RecordView(records[|records| - 1], va)
  {}

  lemma NothingThere(s: Space, root: nat, records: seq<Record>, hasConst: bool, va: nat)
    requires Inv(s) && root in s.procs && Finished(s, root, records, hasConst) && va < 0x8000_0000_0000
    requires va < 0x8000_0000 || (0x8000_1000 <= va < 0x8000_2000 && !hasConst) || 0x8000_2000 <= va < 0x8000_3000
             || va >= 0x8000_4000
    ensures AccessAt(s.pages, root, va) == Fault
  {
    OutsideImage(records, hasConst, va);
    AccessIs(s, root, va);
  }

  lemma OutsideImage(records: seq<Record>, hasConst: bool, va: nat)
    requires Image(records, hasConst) && va < 0x8000_0000_0000
    requires va < 0x8000_0000 || (0x8000_1000 <= va < 0x8000_2000 && !hasConst) || 0x8000_2000 <= va < 0x8000_3000
             || va >= 0x8000_4000
    ensures LowPage(va) && NotRecorded(records, Vpn(va))
  {
    Window();
    assert va / PAGE_4KB < VPN_LIMIT && Vpn(va) == va / PAGE_4KB;
  }

  // ExRuntimeCreateProcess: whatever step it fails at, every page is back where it was.
  method CreateProcess(m: M.Machine, params: Params, world: Outside)
    returns (status: Status, space: M.SpaceHandle, staging: Staging?)
    // The physical allocator keeps page 0 back (ke/pmm/pmm_boot_init.c:369-373).
    requires m.Valid() && 0 !in m.free && m.cr3 !in m.free && m.kernelRoot != 0
    requires |world.populate| == 3 && |world.inserts| == 3
    modifies m
    ensures m.cr3 == old(m.cr3)
    ensures status == Success <==> CanCreate(params, world, |old(m.free)|)
    ensures status != Success ==> m.View() == old(m.View())
    ensures status == Success ==>
              && staging != null && fresh(staging) && staging.ownerRoot == space.root && space.initialized
              && InTheMaking(old(m.View()), m.View(), space.root, staging.mappings)
              && Staged4(m.View(), space.root, params.constLength != 0)
              && Image(staging.mappings, params.constLength != 0)
    ensures status == Success && old(AllWritable(m.View())) ==>
              forall va: nat :: va < 0x8000_0000_0000 ==>
                AccessAt(m.pages, space.root, va) == ProgramAccess(staging.mappings, params.constLength != 0, va)
  {
    space, staging := M.SpaceHandle(0, false), null;
    if !world.processHeap {
      return OutOfResource, space, null;
    }
    ghost var s0 := m.View();
    status, space := NewRoot(m);
    if status != Success {
      return status, space, null;
    }
    status, staging := StageProcess(m, params, world, space, s0);
    if status != Success {
      return status, M.SpaceHandle(0, false), null;
    }
    status := InsertHandles(m, world, space, staging, s0);
    if status != Success {
      return status, M.SpaceHandle(0, false), null;
    }
    ProgramSeesAll(s0, m.View(), space.root, staging.mappings, params.constLength != 0);
  }

  lemma ProgramSeesAll(s0: Space, s: Space, root: nat, records: seq<Record>, hasConst: bool)
    requires InTheMaking(s0, s, root, records) && Finished(s, root, records, hasConst)
    ensures AllWritable(s0) ==>
              forall va: nat :: va < 0x8000_0000_0000 ==>
                AccessAt(s.pages, root, va) == ProgramAccess(records, hasConst, va)
  {
    if AllWritable(s0) {
      forall va: nat | va < 0x8000_0000_0000
        ensures AccessAt(s.pages, root, va) == ProgramAccess(records, hasConst, va)
      {
        ProgramSees(s, root, records, hasConst, va);
      }
    }
  }

  // So the first instruction can be fetched, and no page can be both written and executed.
  lemma ProgramCanStart(s: Space, root: nat, records: seq<Record>, params: Params, va: nat)
    requires Closed(s, root) && AllWritable(s) && root in s.procs && Held(s, root, records)
    requires Finished(s, root, records, params.constLength != 0) && ParamsOk(params) && va < 0x8000_0000_0000
    ensures var entry := AccessAt(s.pages, root, CODE_BASE + params.entryOffset);
            entry.Access? && entry.user && entry.execute
    ensures var access := AccessAt(s.pages, root, va);
            access.Access? ==> access.user && !(access.write && access.execute)
  {
    ProgramSees(s, root, records, params.constLength != 0, CODE_BASE + params.entryOffset);
    ProgramSees(s, root, records, params.constLength != 0, va);
  }

  // Its first step: the address space.
  method NewRoot(m: M.Machine) returns (status: Status, space: M.SpaceHandle)
    requires m.Valid() && 0 !in m.free
    modifies m
    ensures m.cr3 == old(m.cr3) && (status == Success <==> old(m.free) != {})
    ensures status != Success ==> m.View() == old(m.View())
    ensures status == Success ==>
              && space.initialized && |m.free| + 1 == |old(m.free)|
              && InTheMaking(old(m.View()), m.View(), space.root, [])
              && EmptyLow(m.View(), space.root) && Cost(m.View(), space.root, CODE_BASE) == 4
  {
    ghost var s0 := m.View();
    ghost var picks;
    status, space, picks := m.CreateProcessAddressSpace();
    if status == Success {
      NewRootMeans(s0, space.root);
    }
  }

  lemma NewRootMeans(s: Space, f: nat)
    requires Inv(s) && f in s.free && f != 0
    ensures RootOk(s, s.kroot)
    ensures var s' := CreateRoot(s, [f]).0;
            && InTheMaking(s, s', f, []) && EmptyLow(s', f) && Cost(s', f, CODE_BASE) == 4
            && |s'.free| + 1 == |s.free|
  {
    CreateRootCorrect(s, f);
    FreshRootClosed(s, f);
    FreshRootEmpty(s, f);
    if AllWritable(s) { CreateKeepsWritable(s, [f]); }
    forall x | x in s.shape ensures s.shape[x].owner != f { NotOwner(s, f, x); }
  }

  // Then the const bytes and the staging; when they fail the root is destroyed.
  method StageProcess(m: M.Machine, params: Params, world: Outside, space: M.SpaceHandle, ghost s0: Space)
    returns (status: Status, staging: Staging?)
    requires |world.populate| == 3 && space.initialized && m.cr3 != space.root
    requires InTheMaking(s0, m.View(), space.root, []) && EmptyLow(m.View(), space.root)
    modifies m
    ensures m.cr3 == old(m.cr3)
    ensures status == Success <==>
              && world.constBytes == Success && ParamsOk(params)
              && world.stagingHeap && CanFill(old(m.View()), space.root, params.constLength != 0, world.populate)
    ensures status != Success ==> staging == null && m.View() == s0
    ensures status == Success ==>
              && staging != null && fresh(staging) && staging.ownerRoot == space.root
              && InTheMaking(s0, m.View(), space.root, staging.mappings)
              && Staged4(m.View(), space.root, params.constLength != 0)
              && Finished(m.View(), space.root, staging.mappings, params.constLength != 0)
  {
    status, staging := world.constBytes, null;
    if status == Success {
      ghost var s1 := m.View();
      EmptyHoles(s1, space.root);
      status, staging := CreateStaging(m, params, space, world.stagingHeap, world.populate);
      StillMaking(s0, s1, m.View(), space.root, if staging == null then [] else staging.mappings);
      if status == Success {
        BuiltOnEmpty(s1, m.View(), space.root, staging.mappings, params.constLength != 0);
      }
    }
    if status != Success {
      AbandonRoot(m, space, s0);
    }
  }

  lemma StillMaking(s0: Space, s1: Space, s: Space, root: nat, records: seq<Record>)
    requires InTheMaking(s0, s1, root, []) && Kept(s1, [], s, records, root)
    ensures InTheMaking(s0, s, root, records)
  {
    OutsideTransitive(s0, s1, s, root);
  }

  // Then the three handles; when one fails the whole payload is torn down.
  method InsertHandles(m: M.Machine, world: Outside, space: M.SpaceHandle, staging: Staging, ghost s0: Space)
    returns (status: Status)
    requires |world.inserts| == 3 && space.initialized && m.kernelRoot != 0 && staging.ownerRoot == space.root
    requires m.cr3 != space.root && InTheMaking(s0, m.View(), space.root, staging.mappings)
    modifies m, staging
    ensures m.cr3 == old(m.cr3)
    ensures status == Success <==> forall i :: 0 <= i < 3 ==> world.inserts[i] == Success
    ensures status == Success ==> m.View() == old(m.View()) && staging.mappings == old(staging.mappings)
    ensures status == Success ==> staging.ownerRoot == old(staging.ownerRoot)
    ensures status != Success ==> m.View() == s0
  {
    status := world.inserts[0];
    if status == Success {
      status := world.inserts[1];
    }
    if status == Success {
      status := world.inserts[2];
    }
    if status != Success {
      Abandon(m, space, staging, s0);
    }
  }

  lemma FreshRootClosed(s: Space, f: nat)
    requires Inv(s) && f in s.free
    ensures RootOk(s, s.kroot) && Closed(CreateRoot(s, [f]).0, f) && AllLow(CreateRoot(s, [f]).0, f)
  {
    CreateRootKeepsInv(s, f);
    var s' := CreateRoot(s, [f]).0;
    forall c | c in s.shape ensures s.shape[c].owner != f { NotOwner(s, f, c); }
    assert forall c :: !TableOf(s', {f}, c);
  }

  // The failure paths before there is a staging: the address space is destroyed directly.
  method AbandonRoot(m: M.Machine, space: M.SpaceHandle, ghost s0: Space)
    requires space.initialized && m.cr3 != space.root && InTheMaking(s0, m.View(), space.root, [])
    modifies m
    ensures m.View() == s0 && m.cr3 == old(m.cr3)
  {
    ghost var s := m.View();
    DestroyRootCorrect(s, space.root, m.cr3);
    var status := m.DestroyProcessAddressSpace(space);
    Unmade(s0, s, m.View(), space.root, []);
  }

  // The failure paths after it: the whole payload is torn down.
  method Abandon(m: M.Machine, space: M.SpaceHandle, staging: Staging, ghost s0: Space)
    requires space.initialized && m.kernelRoot != 0 && staging.ownerRoot == space.root
    requires InTheMaking(s0, m.View(), space.root, staging.mappings)
    modifies m, staging
    ensures m.View() == s0 && m.cr3 == if old(m.cr3) == space.root then m.kernelRoot else old(m.cr3)
  {
    ghost var s, records := m.View(), staging.mappings;
    var status := TeardownPayload(m, space, staging);
    Unmade(s0, s, m.View(), space.root, records);
  }

  lemma Unmade(s0: Space, s: Space, s': Space, root: nat, records: seq<Record>)
    requires InTheMaking(s0, s, root, records) && Inv(s') && s'.kroot == s.kroot && s'.procs == s.procs - {root}
    requires Owned(s', root) == {} && SameOutside(s, s', root) && Ledger(s', []) == Ledger(s, records)
    requires Lost(s') == Lost(s) + (Owned(s, root) - LowOwned(s, root))
    requires forall x :: x in Lost(s) ==> s'.pages[x] == s.pages[x]
    ensures s' == s0
  {
    assert Owned(s, root) == LowOwned(s, root);
    OutsideTransitive(s0, s, s', root);
    assert s'.procs == s0.procs;
    BackToStart(s0, s', root);
  }

  // A process created and later torn down, with nothing else in between, leaves no trace.
  method CreateThenTeardown(m: M.Machine, params: Params, world: Outside) returns (status: Status)
    requires m.Valid() && 0 !in m.free && m.cr3 !in m.free && m.kernelRoot != 0
    requires |world.populate| == 3 && |world.inserts| == 3
    modifies m
    ensures m.View() == old(m.View()) && m.cr3 == old(m.cr3)
    ensures status == Success <==> CanCreate(params, world, |old(m.free)|)
  {
    ghost var s0 := m.View();
    var space, staging;
    status, space, staging := CreateProcess(m, params, world);
    if status == Success {
      Abandon(m, space, staging, s0);
    }
  }
}

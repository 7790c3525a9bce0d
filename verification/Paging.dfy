/**
 x86-64 four-level paging: the 64-bit page-table word and the four table indices
 of a virtual address.  A word is held as its flag bits plus `base`, the value of
 bits 12 to 63, so that masking with PAGE_MASK is reading `base`, and bit 63
 (no-execute) is bit 51 of `base`.
 */
module Paging {
  const PAGE_4KB: nat := 0x1000
  const PAGE_2MB: nat := 0x20_0000
  const PAGE_1GB: nat := 0x4000_0000

  // Number of virtual page numbers that the four indices can tell apart (48-bit addresses).
  const VPN_LIMIT: nat := 0x10_0000_0000
  // PTE_NO_EXECUTE seen inside `base`.
  const NX_BIT: nat := 0x8_0000_0000_0000
  // Physical addresses are below 2^52, so frame numbers are below 2^40.
  const FRAME_LIMIT: nat := 0x100_0000_0000

  datatype Pte = Pte(
    present: bool, writable: bool, user: bool, writeThrough: bool, cacheDisable: bool,
    accessed: bool, dirty: bool, pageSize: bool, global: bool,
    avail: nat, base: nat)

  const ZERO := Pte(false, false, false, false, false, false, false, false, false, 0, 0)

  predicate NoExecute(p: Pte) {
    p.base / NX_BIT % 2 == 1
  }

  // `b | PTE_NO_EXECUTE` when nx is set, read off bits 12 to 63.
  function WithNx(b: nat, nx: bool): nat {
    if nx && b / NX_BIT % 2 == 0 then b + NX_BIT else b
  }

  // The frame selected by KE_PT_PHYS_ADDR_MASK (bits 12 to 51).
  function FrameOf(p: Pte): nat {
    p.base % FRAME_LIMIT
  }

  // A 64-bit word is exactly one well-sized Pte.
  predicate WellSized(p: Pte) {
    p.avail < 8 && p.base < 0x10_0000_0000_0000
  }

  // One more low bit under a word, and a word without its low bit.
  function Push(bit: bool, rest: nat): (r: nat)
    ensures r / 2 == rest && (r % 2 == 1 <==> bit)
  {
    2 * rest + if bit then 1 else 0
  }

  function ToWord(p: Pte): nat {
    Push(p.present, Push(p.writable, Push(p.user, Push(p.writeThrough, Push(p.cacheDisable,
    Push(p.accessed, Push(p.dirty, Push(p.pageSize, Push(p.global, p.avail + 8 * p.base)))))))))
  }

  function FromWord(w: nat): Pte {
    var w1 := w / 2; var w2 := w1 / 2; var w3 := w2 / 2; var w4 := w3 / 2; var w5 := w4 / 2;
    var w6 := w5 / 2; var w7 := w6 / 2; var w8 := w7 / 2; var w9 := w8 / 2;
    Pte(w % 2 == 1, w1 % 2 == 1, w2 % 2 == 1, w3 % 2 == 1, w4 % 2 == 1,
        w5 % 2 == 1, w6 % 2 == 1, w7 % 2 == 1, w8 % 2 == 1, w9 % 8, w9 / 8)
  }

  // The record form keeps every bit of the word apart.
  lemma PteOfWord(p: Pte)
    requires WellSized(p)
    ensures FromWord(ToWord(p)) == p
  {}

  // An entry that points to a table: KiIntermediateEntryFlagsForLeaf plus the table's address.
  function TablePte(frame: nat, user: bool): Pte {
    ZERO.(present := true, writable := true, user := user, base := frame)
  }

  // KE_PT_ALLOWED_LEAF_FLAGS of `attributes`, the physical page, and PTE_PRESENT.
  function LeafPte(frame: nat, attributes: Pte): Pte {
    Pte(true, attributes.writable, attributes.user, attributes.writeThrough, attributes.cacheDisable,
        false, false, false, attributes.global, 0, WithNx(frame, NoExecute(attributes)))
  }

  function Bit(b: bool, value: nat): nat {
    if b then value else 0
  }

  // Where the flags are in the word.
  lemma WordBits(p: Pte)
    ensures ToWord(p) == Bit(p.present, 0x1) + Bit(p.writable, 0x2) + Bit(p.user, 0x4) + Bit(p.writeThrough, 0x8)
                         + Bit(p.cacheDisable, 0x10) + Bit(p.accessed, 0x20) + Bit(p.dirty, 0x40)
                         + Bit(p.pageSize, 0x80) + Bit(p.global, 0x100) + 0x200 * p.avail + PAGE_4KB * p.base
  {}

  // The word of a leaf: the physical page, PTE_PRESENT, and the flags that are allowed, PTE_NO_EXECUTE at the top.
  lemma LeafWord(frame: nat, attributes: Pte)
    requires frame < FRAME_LIMIT
    ensures ToWord(LeafPte(frame, attributes))
         == PAGE_4KB * frame + 0x1 + Bit(attributes.writable, 0x2) + Bit(attributes.user, 0x4)
            + Bit(attributes.writeThrough, 0x8) + Bit(attributes.cacheDisable, 0x10) + Bit(attributes.global, 0x100)
            + Bit(NoExecute(attributes), 0x8000_0000_0000_0000)
  {
    NxWord(frame, NoExecute(attributes));
    WordBits(LeafPte(frame, attributes));
  }

  lemma NxWord(frame: nat, nx: bool)
    requires frame < FRAME_LIMIT
    ensures PAGE_4KB * WithNx(frame, nx) == PAGE_4KB * frame + Bit(nx, 0x8000_0000_0000_0000)
  {
    assert frame / NX_BIT == 0;
  }

  // The word of an entry that points to a table: PTE_PRESENT, PTE_WRITABLE and perhaps PTE_USER.
  lemma TableWord(frame: nat, user: bool)
    ensures ToWord(TablePte(frame, user)) == PAGE_4KB * frame + 0x1 + 0x2 + Bit(user, 0x4)
  {
    WordBits(TablePte(frame, user));
  }

  // Span(L): how many pages one entry of a level-L table covers; Span(5) is the whole space.
  function Span(level: nat): (r: nat)
    requires 1 <= level <= 5
    ensures r > 0
  {
    match level
    case 1 => 1
    case 2 => 512
    case 3 => 0x4_0000
    case 4 => 0x800_0000
    case _ => VPN_LIMIT
  }

  // Bits 12 to 47 of a virtual address.
  function Vpn(va: nat): (r: nat)
    ensures r < VPN_LIMIT
  {
    va / PAGE_4KB % VPN_LIMIT
  }

  function Index(vpn: nat, level: nat): (r: nat)
    requires 1 <= level <= 4
    ensures r < 512
  {
    vpn / Span(level) % 512
  }

  // Which level-L table a page falls under: the indices above level L, read as a number.
  function Prefix(vpn: nat, level: nat): nat
    requires 1 <= level <= 4
  {
    vpn / Span(level + 1)
  }

  // PML4_INDEX, PDPT_INDEX, PD_INDEX and PT_INDEX of an address are the indices of its page.
  lemma IndexOfAddress(va: nat)
    ensures Index(Vpn(va), 4) == va / 0x80_0000_0000 % 512
    ensures Index(Vpn(va), 3) == va / PAGE_1GB % 512
    ensures Index(Vpn(va), 2) == va / PAGE_2MB % 512
    ensures Index(Vpn(va), 1) == va / PAGE_4KB % 512
  {
    var n := va / PAGE_4KB;
    var q, r := n / VPN_LIMIT, n % VPN_LIMIT;
    assert va / PAGE_2MB == n / 512;
    assert va / PAGE_1GB == n / 0x4_0000;
    assert va / 0x80_0000_0000 == n / 0x800_0000;
    Digit4(q, r); Digit3(q, r); Digit2(q, r); Digit1(q, r);
  }

  // The four nine-bit digits of a page number are below its bit 36.
  lemma Digit4(q: nat, r: nat)
    ensures (q * VPN_LIMIT + r) / 0x800_0000 % 512 == r / 0x800_0000 % 512
  {
    assert (q * VPN_LIMIT + r) / 0x800_0000 == q * 512 + r / 0x800_0000;
  }

  lemma Digit3(q: nat, r: nat)
    ensures (q * VPN_LIMIT + r) / 0x4_0000 % 512 == r / 0x4_0000 % 512
  {
    assert (q * VPN_LIMIT + r) / 0x4_0000 == (q * 512) * 512 + r / 0x4_0000;
  }

  lemma Digit2(q: nat, r: nat)
    ensures (q * VPN_LIMIT + r) / 512 % 512 == r / 512 % 512
  {
    assert (q * VPN_LIMIT + r) / 512 == (q * 0x4_0000) * 512 + r / 512;
  }

  lemma Digit1(q: nat, r: nat)
    ensures (q * VPN_LIMIT + r) % 512 == r % 512
  {
    assert q * VPN_LIMIT + r == (q * 0x800_0000) * 512 + r;
  }

  lemma PrefixStep(vpn: nat, level: nat)
    requires 2 <= level <= 4
    ensures Prefix(vpn, level - 1) == Prefix(vpn, level) * 512 + Index(vpn, level)
  {
    if level == 2 {
      assert vpn / 0x4_0000 == vpn / 512 / 512;
    } else if level == 3 {
      assert vpn / 0x800_0000 == vpn / 0x4_0000 / 512;
    } else {
      assert vpn / VPN_LIMIT == vpn / 0x800_0000 / 512;
    }
  }

  // A page is determined by its table and its index in that table.
  lemma VpnFromPrefix(vpn: nat)
    ensures vpn == Prefix(vpn, 1) * 512 + Index(vpn, 1)
  {}

  lemma RootPrefix(vpn: nat)
    requires vpn < VPN_LIMIT
    ensures Prefix(vpn, 4) == 0
  {}
}

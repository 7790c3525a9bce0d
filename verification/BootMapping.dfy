/**
 The boot loader's page-table builder (boot/v2/blmm/pagetable.c) as functions on the same
 table heap: leaves of 4KB, 2MB and 1GB, tables taken from a bump allocator, no undo.
 */
module BootMapping {
  import opened Paging
  import opened PageTree
  import opened Status
  import opened AddressSpace

  // ---------------------------------------------------------------- blocks of pages under one entry

  // Pages v and w use the same entry of level `stop` tables.
  predicate SameBlock(v: nat, w: nat, stop: nat)
    requires 1 <= stop <= 4
  {
    v / Span(stop) == w / Span(stop)
  }

  lemma Nested(v: nat)
    ensures v / 0x4_0000 == v / 512 / 512
    ensures v / 0x800_0000 == v / 0x4_0000 / 512
    ensures v / VPN_LIMIT == v / 0x800_0000 / 512
  {}

  lemma {:induction false} SameBlockIndex(v: nat, w: nat, stop: nat, level: nat)
    requires 1 <= stop <= level <= 4 && SameBlock(v, w, stop)
    ensures Index(v, level) == Index(w, level) && Prefix(v, level) == Prefix(w, level)
    ensures SameBlock(v, w, level)
    decreases level
  {
    Nested(v); Nested(w);
    if stop < level {
      SameBlockIndex(v, w, stop, level - 1);
    }
  }

  lemma BlockFromIndex(v: nat, w: nat, stop: nat)
    requires 1 <= stop <= 3 && Index(v, stop) == Index(w, stop) && Prefix(v, stop) == Prefix(w, stop)
    ensures SameBlock(v, w, stop)
  {
    if stop > 1 {
      PrefixStep(v, stop); PrefixStep(w, stop);
    } else {
      VpnFromPrefix(v); VpnFromPrefix(w);
    }
  }

  lemma {:induction false} ReachesBlock(pages: map<nat, Table>, t: nat, level: nat, x: nat, stop: nat, v: nat, w: nat)
    requires 1 <= stop <= level <= 4 && SameBlock(v, w, stop) && Reaches(pages, t, level, x, stop, v)
    ensures Reaches(pages, t, level, x, stop, w)
    decreases level
  {
    if level > stop {
      SameBlockIndex(v, w, stop, level);
      ReachesBlock(pages, pages[t][Index(v, level)].base, level - 1, x, stop, v, w);
    }
  }

  // All pages under one leaf have that leaf.
  lemma {:induction false} LookupBlock(pages: map<nat, Table>, t: nat, level: nat, v: nat, w: nat)
    requires 1 <= level <= 4 && Lookup(pages, t, level, v).Leaf?
    requires Lookup(pages, t, level, v).level <= level
    requires 1 <= Lookup(pages, t, level, v).level && SameBlock(v, w, Lookup(pages, t, level, v).level)
    ensures Lookup(pages, t, level, w) == Lookup(pages, t, level, v)
    decreases level
  {
    var stop := Lookup(pages, t, level, v).level;
    SameBlockIndex(v, w, stop, level);
    var e := pages[t][Index(v, level)];
    if !(level == 1 || (e.pageSize && level <= 3)) {
      LookupLevel(pages, e.base, level - 1, v);
      LookupBlock(pages, e.base, level - 1, v, w);
    }
  }

  lemma {:induction false} LookupLevel(pages: map<nat, Table>, t: nat, level: nat, v: nat)
    requires 1 <= level <= 4
    ensures Lookup(pages, t, level, v).Leaf? ==>
              1 <= Lookup(pages, t, level, v).level <= 3 && Lookup(pages, t, level, v).level <= level
    decreases level
  {
    if t in pages {
      var e := pages[t][Index(v, level)];
      if e.present && !(level == 1 || (e.pageSize && level <= 3)) {
        LookupLevel(pages, e.base, level - 1, v);
      }
    }
  }

  // ---------------------------------------------------------------- one mapping

  // The flag words the loader passes: no address bits, no available bits.
  predicate FlagsOk(flags: Pte) {
    (flags.base == 0 || flags.base == NX_BIT) && flags.avail == 0
  }

  // alignedAddrPhys | flags | PTE_PRESENT, with PTE_PAGE_SIZE on the larger sizes.
  function BootLeaf(frame: nat, flags: Pte, stop: nat): Pte {
    flags.(present := true, pageSize := flags.pageSize || stop > 1, base := WithNx(frame, NoExecute(flags)))
  }

  // IsSameMapping: accessed, dirty and the available bits do not count.
  predicate SameMapping(e: Pte, expected: Pte) {
    e.(accessed := false, dirty := false, avail := 0) == expected.(accessed := false, dirty := false, avail := 0)
  }

  // MapPage, for an aligned page and frame.  Nothing is undone on failure: new tables stay linked.
  function BootMap(s: Space, vpn: nat, frame: nat, flags: Pte, stop: nat, picks: seq<nat>): (Space, Status)
    requires Inv(s) && PicksOk(s, picks) && vpn < VPN_LIMIT && Addressable(s, s.kroot, vpn) && 1 <= stop <= 3
  {
    RootAt(s, s.kroot, vpn);
    DescendKeeps(s, s.kroot, stop, vpn, false, picks);
    match Descend(s, s.kroot, stop, vpn, false, picks)
    case Blocked(s1, status) => (s1, if status == NotSupported then IllegalArgument else status)
    case Reached(s1, t, _) =>
      var e := s1.pages[t][Index(vpn, stop)];
      if e.present then
        (s1, if SameMapping(e, BootLeaf(frame, flags, stop)) then Success else IllegalArgument)
      else (SetEntry(s1, t, Index(vpn, stop), BootLeaf(frame, flags, stop)), Success)
  }

  // The page has a leaf of this size, that frame block and these flags.
  ghost predicate HasLeaf(s: Space, v: nat, frame: nat, flags: Pte, stop: nat) {
    var w := Translate(s, s.kroot, v);
    w.Leaf? && w.level == stop && SameMapping(w.pte, BootLeaf(frame, flags, stop))
  }

  // What a call to MapPage does to the translations of the one root there is.
  ghost predicate BootEffect(s: Space, s': Space, vpn: nat, frame: nat, flags: Pte, stop: nat, status: Status)
    requires 1 <= stop <= 3
  {
    && Inv(s') && s'.kroot == s.kroot && s'.procs == s.procs
    && s'.free + s'.pages.Keys == s.free + s.pages.Keys
    && (forall v: nat {:trigger Translate(s', s'.kroot, v)} :: v < VPN_LIMIT ==>
          if status == Success && SameBlock(v, vpn, stop) then HasLeaf(s', v, frame, flags, stop)
          else Translate(s', s.kroot, v) == Translate(s, s.kroot, v))
  }

  lemma WriteBlock(s: Space, t: nat, stop: nat, e: Pte, vpn: nat)
    requires Inv(s) && Addressable(s, s.kroot, vpn) && 1 <= stop <= 3
    requires Reaches(s.pages, s.kroot, 4, t, stop, vpn) && t in s.pages
    requires !s.pages[t][Index(vpn, stop)].present && e.present && (stop > 1 ==> e.pageSize)
    ensures t in s.shape
    ensures var s' := SetEntry(s, t, Index(vpn, stop), e);
            && Inv(s')
            && (forall v: nat {:trigger Translate(s', s'.kroot, v)} :: v < VPN_LIMIT ==>
                  Translate(s', s.kroot, v)
                  == if SameBlock(v, vpn, stop) then Leaf(stop, e) else Translate(s, s.kroot, v))
  {
    RootAt(s, s.kroot, vpn);
    ReachedTable(s, s.kroot, t, stop, vpn);
    var i := Index(vpn, stop);
    SetEntryKeepsInv(s, t, i, e);
    var s' := SetEntry(s, t, i, e);
    forall v: nat | v < VPN_LIMIT
      ensures Translate(s', s.kroot, v) == if SameBlock(v, vpn, stop) then Leaf(stop, e) else Translate(s, s.kroot, v)
    {
      if SameBlock(v, vpn, stop) {
        ReachesBlock(s.pages, s.kroot, 4, t, stop, vpn, v);
        SameBlockIndex(v, vpn, stop, stop);
        SetEntryHere(s, s.kroot, t, stop, e, v);
      } else {
        if Index(v, stop) == i && Prefix(v, stop) == Prefix(vpn, stop) {
          BlockFromIndex(v, vpn, stop);
        }
        assert TableOk(s, t) && RootOk(s, s.kroot);
        RootPrefix(v);
        SetEntryElsewhere(s, t, i, e, s.kroot, v);
      }
    }
  }

  // Every leaf already there covers its whole block.
  lemma LeafThere(s: Space, t: nat, stop: nat, vpn: nat, v: nat)
    requires Inv(s) && Addressable(s, s.kroot, vpn) && 1 <= stop <= 3
    requires Reaches(s.pages, s.kroot, 4, t, stop, vpn) && t in s.pages && v < VPN_LIMIT && SameBlock(v, vpn, stop)
    requires s.pages[t][Index(vpn, stop)].present && (stop > 1 ==> s.pages[t][Index(vpn, stop)].pageSize)
    ensures Translate(s, s.kroot, v) == Leaf(stop, s.pages[t][Index(vpn, stop)])
  {
    RootAt(s, s.kroot, vpn);
    ReachedTable(s, s.kroot, t, stop, vpn);
    ReachesBlock(s.pages, s.kroot, 4, t, stop, vpn, v);
    SameBlockIndex(v, vpn, stop, stop);
    ReachesLookup(s, s.kroot, t, stop, v);
  }

  // A fresh leaf in a table the descent has made sure of.
  lemma BootWrites(s: Space, s1: Space, t: nat, vpn: nat, frame: nat, flags: Pte, stop: nat)
    requires Inv(s) && Addressable(s, s.kroot, vpn) && 1 <= stop <= 3 && Grown(s, s1, s.kroot)
    requires Reaches(s1.pages, s.kroot, 4, t, stop, vpn) && t in s1.pages && !s1.pages[t][Index(vpn, stop)].present
    ensures BootEffect(s, SetEntry(s1, t, Index(vpn, stop), BootLeaf(frame, flags, stop)),
                       vpn, frame, flags, stop, Success)
  {
    var leaf := BootLeaf(frame, flags, stop);
    var s' := SetEntry(s1, t, Index(vpn, stop), leaf);
    WriteBlock(s1, t, stop, leaf, vpn);
    forall v: nat | v < VPN_LIMIT
      ensures if SameBlock(v, vpn, stop) then HasLeaf(s', v, frame, flags, stop)
              else Translate(s', s.kroot, v) == Translate(s, s.kroot, v)
    {
      assert IsRoot(s, s.kroot) && Translate(s1, s.kroot, v) == Translate(s, s.kroot, v);
      assert Translate(s', s'.kroot, v)
             == if SameBlock(v, vpn, stop) then Leaf(stop, leaf) else Translate(s1, s.kroot, v);
    }
  }

  // A leaf that is there already.
  lemma BootFinds(s: Space, s1: Space, t: nat, vpn: nat, frame: nat, flags: Pte, stop: nat)
    requires Inv(s) && Addressable(s, s.kroot, vpn) && 1 <= stop <= 3 && Grown(s, s1, s.kroot)
    requires Reaches(s1.pages, s.kroot, 4, t, stop, vpn) && t in s1.pages
    requires var e := s1.pages[t][Index(vpn, stop)]; e.present && SameMapping(e, BootLeaf(frame, flags, stop))
    ensures BootEffect(s, s1, vpn, frame, flags, stop, Success)
  {
    forall v: nat | v < VPN_LIMIT
      ensures if SameBlock(v, vpn, stop) then HasLeaf(s1, v, frame, flags, stop)
              else Translate(s1, s.kroot, v) == Translate(s, s.kroot, v)
    {
      if SameBlock(v, vpn, stop) {
        LeafThere(s1, t, stop, vpn, v);
      } else {
        assert IsRoot(s, s.kroot);
      }
    }
  }

  lemma BootFails(s: Space, s1: Space, vpn: nat, frame: nat, flags: Pte, stop: nat, status: Status)
    requires 1 <= stop <= 3 && Grown(s, s1, s.kroot) && status != Success
    ensures BootEffect(s, s1, vpn, frame, flags, stop, status)
  {
    assert IsRoot(s, s.kroot);
  }

  lemma BootMapCorrect(s: Space, vpn: nat, frame: nat, flags: Pte, stop: nat, picks: seq<nat>)
    requires Inv(s) && PicksOk(s, picks) && Addressable(s, s.kroot, vpn) && 1 <= stop <= 3
    ensures BootEffect(s, BootMap(s, vpn, frame, flags, stop, picks).0, vpn, frame, flags, stop,
                       BootMap(s, vpn, frame, flags, stop, picks).1)
  {
    RootAt(s, s.kroot, vpn);
    DescendKeeps(s, s.kroot, stop, vpn, false, picks);
    DescendOutcome(s, s.kroot, stop, vpn, false, picks);
    var (s', status) := BootMap(s, vpn, frame, flags, stop, picks);
    match Descend(s, s.kroot, stop, vpn, false, picks)
    case Blocked(s1, _) =>
      BootFails(s, s1, vpn, frame, flags, stop, status);
    case Reached(s1, t, _) =>
      var e := s1.pages[t][Index(vpn, stop)];
      if !e.present {
        BootWrites(s, s1, t, vpn, frame, flags, stop);
      } else if SameMapping(e, BootLeaf(frame, flags, stop)) {
        BootFinds(s, s1, t, vpn, frame, flags, stop);
      } else {
        BootFails(s, s1, vpn, frame, flags, stop, status);
      }
  }

  // ---------------------------------------------------------------- when a mapping succeeds

  // The leaf for this frame and these flags, whatever the processor has noted in it.
  predicate SameLeaf(e: Pte, frame: nat, flags: Pte, stop: nat) {
    && e.present && e.pageSize == (flags.pageSize || stop > 1)
    && e.base == frame + (if NoExecute(flags) then NX_BIT else 0)
    && e.writable == flags.writable && e.user == flags.user && e.global == flags.global
    && e.writeThrough == flags.writeThrough && e.cacheDisable == flags.cacheDisable
  }

  lemma SameMeans(e: Pte, frame: nat, flags: Pte, stop: nat)
    requires frame < FRAME_LIMIT
    ensures SameMapping(e, BootLeaf(frame, flags, stop)) <==> SameLeaf(e, frame, flags, stop)
  {
    assert frame / NX_BIT == 0;
  }

  // A table that is missing for the page itself is missing one level further down too.
  lemma {:induction false} MissingMore(pages: map<nat, Table>, t: nat, level: nat, stop: nat, vpn: nat)
    requires 2 <= stop <= level <= 4 && Missing(pages, t, level, stop, vpn) > 0
    ensures Missing(pages, t, level, stop - 1, vpn) == Missing(pages, t, level, stop, vpn) + 1
    decreases level
  {
    var e := pages[t][Index(vpn, level)];
    if e.present { MissingMore(pages, e.base, level - 1, stop, vpn); }
  }

  // The descent makes the tables down to its level and no others.
  lemma {:induction false} DescendMissing(s: Space, t: nat, stop: nat, vpn: nat, picks: seq<nat>)
    requires Inv(s) && PicksOk(s, picks) && AtTable(s, t, vpn) && 2 <= stop <= s.shape[t].level
    requires Descend(s, t, stop, vpn, false, picks).Reached?
    ensures var d := Descend(s, t, stop, vpn, false, picks);
            Missing(d.s.pages, d.table, stop, stop - 1, vpn) + |picks|
            == Missing(s.pages, t, s.shape[t].level, stop - 1, vpn) + |d.rest|
    decreases if t in s.shape then s.shape[t].level else 0
  {
    var level := s.shape[t].level;
    if level > stop {
      EnsureChildKeeps(s, t, vpn, false, picks);
      EnsureChildMissing(s, t, stop - 1, vpn, false, picks);
      var d := EnsureChild(s, t, Index(vpn, level), false, picks);
      DescendMissing(d.s, d.table, stop, vpn, d.rest);
    }
  }

  // When MapPage succeeds: with the wanted leaf already there, or with nothing there, no table in its place, and as
  // many pages as tables are missing above it.
  ghost predicate CanBoot(s: Space, vpn: nat, frame: nat, flags: Pte, stop: nat, pages: nat)
    requires 1 <= stop <= 3
  {
    var w := Translate(s, s.kroot, vpn);
    if w.Leaf? then w.level == stop && SameLeaf(w.pte, frame, flags, stop)
    else
      && pages >= Missing(s.pages, s.kroot, 4, stop, vpn)
      && (stop > 1 ==> Missing(s.pages, s.kroot, 4, stop - 1, vpn) > 0)
  }

  lemma BootOutcome(s: Space, vpn: nat, frame: nat, flags: Pte, stop: nat, picks: seq<nat>)
    requires Inv(s) && PicksOk(s, picks) && Addressable(s, s.kroot, vpn) && 1 <= stop <= 3 && frame < FRAME_LIMIT
    ensures BootMap(s, vpn, frame, flags, stop, picks).1 == Success <==> CanBoot(s, vpn, frame, flags, stop, |picks|)
  {
    RootAt(s, s.kroot, vpn);
    DescendKeeps(s, s.kroot, stop, vpn, false, picks);
    DescendOutcome(s, s.kroot, stop, vpn, false, picks);
    var d := Descend(s, s.kroot, stop, vpn, false, picks);
    if d.Reached? {
      ReachedEntry(s, d.s, d.table, stop, vpn);
      SameMeans(d.s.pages[d.table][Index(vpn, stop)], frame, flags, stop);
      if stop > 1 {
        DescendMissing(s, s.kroot, stop, vpn, picks);
        if Missing(s.pages, s.kroot, 4, stop, vpn) > 0 { MissingMore(s.pages, s.kroot, 4, stop, vpn); }
      }
    }
  }

  // The entry the descent arrives at is the page's leaf, unless it leads to a table.
  lemma ReachedEntry(s: Space, s1: Space, t: nat, stop: nat, vpn: nat)
    requires Inv(s) && Addressable(s, s.kroot, vpn) && 1 <= stop <= 3 && Grown(s, s1, s.kroot)
    requires Reaches(s1.pages, s.kroot, 4, t, stop, vpn) && t in s1.pages && t in s1.shape && TableOk(s1, t)
    requires s1.shape[t].level == stop
    ensures var e, w := s1.pages[t][Index(vpn, stop)], Translate(s, s.kroot, vpn);
            && (!e.present ==> w.NoLeaf?)
            && (e.present && (stop == 1 || e.pageSize) ==> w == Leaf(stop, e))
            && (IsLink(e, stop) ==> w.Leaf? ==> w.level < stop)
  {
    RootAt(s, s.kroot, vpn);
    ReachesLookup(s1, s.kroot, t, stop, vpn);
    assert IsRoot(s, s.kroot) && EntryOk(s1, t, Index(vpn, stop));
    assert Translate(s1, s.kroot, vpn) == Translate(s, s.kroot, vpn);
    if IsLink(s1.pages[t][Index(vpn, stop)], stop) {
      AddressSpace.LookupLevel(s1, s1.pages[t][Index(vpn, stop)].base, vpn);
    }
  }
}

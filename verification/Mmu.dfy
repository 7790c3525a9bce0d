/**
 What the processor makes of the tables: the walk of four-level paging as the hardware does it, with
 the rights of every entry on the way taken together.  A page that KePtMapPage has mapped can be used
 as its attributes say, at the physical address it was mapped to.
 */
module Mmu {
  import opened Paging
  import opened PageTree
  import opened Status
  import opened AddressSpace
  import opened AddressSpaceRuns

  // What an access finds: the physical address, and whether it may write, come from user mode, fetch instructions.
  datatype Access = Fault | Access(phys: nat, write: bool, user: bool, execute: bool)

  // An entry leads to the physical page in bits 12 to 51. A right is granted only if every entry grants it.
  function HardwareWalk(
      pages: map<nat, Table>, t: nat, level: nat, va: nat, write: bool, user: bool, execute: bool): Access
    requires 1 <= level <= 4
    decreases level
  {
    if t !in pages then Fault
    else
      var e := pages[t][Index(Vpn(va), level)];
      var w, u, x := write && e.writable, user && e.user, execute && !NoExecute(e);
      if !e.present then Fault
      else if level == 1 then Access(FrameOf(e) * PAGE_4KB + va % PAGE_4KB, w, u, x)
      else if level == 2 && e.pageSize then Access(FrameOf(e) * PAGE_4KB / PAGE_2MB * PAGE_2MB + va % PAGE_2MB, w, u, x)
      else if level == 3 && e.pageSize then Access(FrameOf(e) * PAGE_4KB / PAGE_1GB * PAGE_1GB + va % PAGE_1GB, w, u, x)
      else HardwareWalk(pages, FrameOf(e), level - 1, va, w, u, x)
  }

  // An access through a root.
  function AccessAt(pages: map<nat, Table>, root: nat, va: nat): Access {
    HardwareWalk(pages, root, 4, va, true, true, true)
  }

  // Every present entry on the way to the leaf carries PTE_WRITABLE (the leaf included).
  predicate WritePath(pages: map<nat, Table>, t: nat, level: nat, vpn: nat)
    requires 1 <= level <= 4
    decreases level
  {
    t in pages &&
    var e := pages[t][Index(vpn, level)];
    e.present && e.writable &&
    (level == 1 || (e.pageSize && level <= 3) || WritePath(pages, e.base, level - 1, vpn))
  }

  // The page's block in physical memory, and the place in it.
  function PhysOf(leaf: Walk, va: nat): nat
    requires leaf.Leaf?
  {
    var frame := FrameOf(leaf.pte) * PAGE_4KB;
    if leaf.level == 1 then frame + va % PAGE_4KB
    else if leaf.level == 2 then frame / PAGE_2MB * PAGE_2MB + va % PAGE_2MB
    else frame / PAGE_1GB * PAGE_1GB + va % PAGE_1GB
  }

  function Found(leaf: Walk, va: nat, write: bool, user: bool, execute: bool): Access {
    if leaf.NoLeaf? then Fault else Access(PhysOf(leaf, va), write, user, execute && !NoExecute(leaf.pte))
  }

  // The hardware finds the leaf that Translate finds; links take no right to execute away.
  lemma {:induction false} WalkIs(s: Space, t: nat, va: nat, write: bool, user: bool, execute: bool)
    requires Inv(s) && t in s.shape && TableOk(s, t)
    ensures var level, vpn := s.shape[t].level, Vpn(va);
            HardwareWalk(s.pages, t, level, va, write, user, execute)
            == Found(Lookup(s.pages, t, level, vpn), va, write && WritePath(s.pages, t, level, vpn),
                     user && UserPath(s.pages, t, level, vpn), execute)
    decreases s.shape[t].level
  {
    var level := s.shape[t].level;
    var e := s.pages[t][Index(Vpn(va), level)];
    assert EntryOk(s, t, Index(Vpn(va), level));
    if IsLink(e, level) {
      WalkThroughLink(s.pages, t, level, va, write, user, execute);
      assert TableOk(s, e.base);
      WalkIs(s, e.base, va, write && e.writable, user && e.user, execute);
    } else {
      WalkEnds(s.pages, t, level, va, write, user, execute);
    }
  }

  lemma WalkEnds(pages: map<nat, Table>, t: nat, level: nat, va: nat, write: bool, user: bool, execute: bool)
    requires 1 <= level <= 4 && t in pages && !IsLink(pages[t][Index(Vpn(va), level)], level)
    requires level == 4 ==> !pages[t][Index(Vpn(va), level)].present
    ensures HardwareWalk(pages, t, level, va, write, user, execute)
         == Found(Lookup(pages, t, level, Vpn(va)), va, write && WritePath(pages, t, level, Vpn(va)),
                  user && UserPath(pages, t, level, Vpn(va)), execute)
  {}

  lemma WalkThroughLink(pages: map<nat, Table>, t: nat, level: nat, va: nat, write: bool, user: bool, execute: bool)
    requires 2 <= level <= 4 && t in pages && IsLink(pages[t][Index(Vpn(va), level)], level)
    requires pages[t][Index(Vpn(va), level)].base < FRAME_LIMIT
    ensures var v, e := Vpn(va), pages[t][Index(Vpn(va), level)];
            && HardwareWalk(pages, t, level, va, write, user, execute)
               == HardwareWalk(pages, e.base, level - 1, va, write && e.writable, user && e.user, execute)
            && Lookup(pages, t, level, v) == Lookup(pages, e.base, level - 1, v)
            && (WritePath(pages, t, level, v) <==> e.writable && WritePath(pages, e.base, level - 1, v))
            && (UserPath(pages, t, level, v) <==> e.user && UserPath(pages, e.base, level - 1, v))
  {
    LinkBase(pages[t][Index(Vpn(va), level)]);
  }

  lemma LinkBase(e: Pte)
    requires e.base < FRAME_LIMIT
    ensures FrameOf(e) == e.base && !NoExecute(e)
  {
    assert e.base / NX_BIT == 0;
  }

  lemma AccessIs(s: Space, root: nat, va: nat)
    requires Inv(s) && IsRoot(s, root)
    ensures var leaf := Translate(s, root, Vpn(va));
            AccessAt(s.pages, root, va)
            == if leaf.NoLeaf? then Fault
               else Access(PhysOf(leaf, va), WritePath(s.pages, root, 4, Vpn(va)), UserPath(s.pages, root, 4, Vpn(va)),
                           !NoExecute(leaf.pte))
  {
    assert RootOk(s, root) && TableOk(s, root);
    WalkIs(s, root, va, true, true, true);
  }

  // ---------------------------------------------------------------- PTE_WRITABLE along a path

  ghost predicate LinkWritable(s: Space, t: nat, i: nat)
    requires t in s.shape && t in s.pages && i < 512
  {
    IsLink(s.pages[t][i], s.shape[t].level) ==> s.pages[t][i].writable
  }

  // Every entry that leads to a table carries PTE_WRITABLE.
  ghost predicate LinksWritable(s: Space)
    requires Inv(s)
  {
    forall t, i {:trigger LinkWritable(s, t, i)} :: t in s.shape && 0 <= i < 512 ==> LinkWritable(s, t, i)
  }

  // So that the leaf's own bit decides whether the page can be written.
  lemma {:induction false} LeafBitWrites(s: Space, t: nat, vpn: nat)
    requires Inv(s) && LinksWritable(s) && t in s.shape && TableOk(s, t)
    ensures var w := Lookup(s.pages, t, s.shape[t].level, vpn);
            WritePath(s.pages, t, s.shape[t].level, vpn) <==> w.Leaf? && w.pte.writable
    decreases s.shape[t].level
  {
    var level := s.shape[t].level;
    var i := Index(vpn, level);
    var e := s.pages[t][i];
    assert EntryOk(s, t, i) && LinkWritable(s, t, i);
    if IsLink(e, level) {
      assert TableOk(s, e.base);
      LeafBitWrites(s, e.base, vpn);
    }
  }

  lemma LinkNewKeepsWritable(s: Space, t: nat, i: nat, f: nat, user: bool)
    requires CanLink(s, t, i, f) && LinksWritable(s)
    ensures Inv(LinkNew(s, t, i, f, user)) && LinksWritable(LinkNew(s, t, i, f, user))
  {
    LinkNewKeepsInv(s, t, i, f, user);
    var s' := LinkNew(s, t, i, f, user);
    forall x, j | x in s'.shape && 0 <= j < 512 ensures LinkWritable(s', x, j) {
      if x != f { assert LinkWritable(s, x, j); }
    }
  }

  lemma SetEntryKeepsWritable(s: Space, t: nat, i: nat, e: Pte)
    requires SameLink(s, t, i, e) && LinksWritable(s) && (IsLink(e, s.shape[t].level) ==> e.writable)
    ensures Inv(SetEntry(s, t, i, e)) && LinksWritable(SetEntry(s, t, i, e))
  {
    SetEntryKeepsInv(s, t, i, e);
    var s' := SetEntry(s, t, i, e);
    forall x, j | x in s'.shape && 0 <= j < 512 ensures LinkWritable(s', x, j) {
      assert LinkWritable(s, x, j);
    }
  }

  lemma EnsureChildKeepsWritable(s: Space, t: nat, i: nat, user: bool, picks: seq<nat>)
    requires Inv(s) && LinksWritable(s) && PicksOk(s, picks) && t in s.shape && s.shape[t].level >= 2 && i < 512
    ensures Inv(EnsureChild(s, t, i, user, picks).s) && LinksWritable(EnsureChild(s, t, i, user, picks).s)
  {
    var e := s.pages[t][i];
    assert EntryOk(s, t, i) && LinkWritable(s, t, i);
    if !e.present && picks != [] {
      LinkNewKeepsWritable(s, t, i, picks[0], user);
    } else if IsLink(e, s.shape[t].level) && user && !e.user {
      SetEntryKeepsWritable(s, t, i, e.(user := true));
    }
  }

  lemma {:induction false} DescendKeepsWritable(s: Space, t: nat, stop: nat, vpn: nat, user: bool, picks: seq<nat>)
    requires Inv(s) && PicksOk(s, picks) && AtTable(s, t, vpn) && 1 <= stop <= s.shape[t].level && LinksWritable(s)
    ensures var d := Descend(s, t, stop, vpn, user, picks); Inv(d.s) && LinksWritable(d.s)
    decreases if t in s.shape then s.shape[t].level else 0
  {
    var level := s.shape[t].level;
    if level > stop {
      EnsureChildKeeps(s, t, vpn, user, picks);
      EnsureChildKeepsWritable(s, t, Index(vpn, level), user, picks);
      match EnsureChild(s, t, Index(vpn, level), user, picks)
      case Blocked(_, _) =>
      case Reached(s1, c, rest) => DescendKeepsWritable(s1, c, stop, vpn, user, rest);
    }
  }

  // A map call keeps it, whichever way its path goes ...
  lemma PathKeepsWritable(s: Space, root: nat, vpn: nat, user: bool, picks: seq<nat>)
    requires Inv(s) && PicksOk(s, picks) && IsRoot(s, root) && vpn < VPN_LIMIT && LinksWritable(s)
    ensures var d := PathDown(s, root, vpn, user, picks); Inv(d.s) && LinksWritable(d.s)
  {
    if Shared(s, root, Index(vpn, 4)) {
      BorrowedStep(s, root, vpn, user, picks);
      EnsureChildKeepsWritable(s, root, Index(vpn, 4), user, picks);
      var d := EnsureChild(s, root, Index(vpn, 4), user, picks);
      DescendKeepsWritable(d.s, d.table, 1, vpn, user, picks);
    } else {
      RootAt(s, root, vpn);
      DescendKeepsWritable(s, root, 1, vpn, user, picks);
    }
  }

  lemma MapKeepsWritable(s: Space, root: nat, va: nat, phys: nat, attributes: Pte, picks: seq<nat>)
    requires Inv(s) && PicksOk(s, picks) && IsRoot(s, root) && LinksWritable(s)
    ensures var s' := MapPage(s, root, va, phys, attributes, picks).0; Inv(s') && LinksWritable(s')
  {
    MapPageCorrect(s, root, va, phys, attributes, picks);
    if MapPage(s, root, va, phys, attributes, picks).1 == Success {
      MappedKeepsWritable(s, root, Vpn(va), attributes.user, picks, LeafPte(phys / PAGE_4KB, attributes));
    }
  }

  lemma MappedKeepsWritable(s: Space, root: nat, vpn: nat, user: bool, picks: seq<nat>, e: Pte)
    requires Inv(s) && PicksOk(s, picks) && IsRoot(s, root) && vpn < VPN_LIMIT && LinksWritable(s)
    requires PathDown(s, root, vpn, user, picks).Reached?
    ensures var d := PathDown(s, root, vpn, user, picks);
            && d.table in d.s.pages
            && var s' := SetEntry(d.s, d.table, Index(vpn, 1), e); Inv(s') && LinksWritable(s')
  {
    PathKeepsWritable(s, root, vpn, user, picks);
    PathLevel(s, root, vpn, user, picks);
    var d := PathDown(s, root, vpn, user, picks);
    SetEntryKeepsWritable(d.s, d.table, Index(vpn, 1), e);
  }

  lemma PathLevel(s: Space, root: nat, vpn: nat, user: bool, picks: seq<nat>)
    requires Inv(s) && PicksOk(s, picks) && IsRoot(s, root) && vpn < VPN_LIMIT
    requires PathDown(s, root, vpn, user, picks).Reached?
    ensures var d := PathDown(s, root, vpn, user, picks); d.table in d.s.shape && d.s.shape[d.table].level == 1
  {
    if Shared(s, root, Index(vpn, 4)) {
      BorrowedStep(s, root, vpn, user, picks);
      var d := EnsureChild(s, root, Index(vpn, 4), user, picks);
      DescendKeeps(d.s, d.table, 1, vpn, user, picks);
    } else {
      RootAt(s, root, vpn);
      DescendKeeps(s, root, 1, vpn, user, picks);
    }
  }

  // ... and so do unmap and protect, which write leaves only.
  lemma ChangeKeepsWritable(s: Space, root: nat, va: nat, change: Pte -> Pte)
    requires Inv(s) && IsRoot(s, root) && LinksWritable(s)
    ensures var s' := ChangeLeaf(s, root, va, change).0; Inv(s') && LinksWritable(s')
  {
    ChangeLeafCorrect(s, root, va, change);
    if ChangeLeaf(s, root, va, change).1 == Success {
      var vpn := Vpn(va);
      assert RootOk(s, root) && TableOk(s, root);
      RootPrefix(vpn);
      HolderReached(s, root, vpn);
      var x := Holder(s.pages, root, 4, vpn);
      ReachedTable(s, root, x, 1, vpn);
      SetEntryKeepsWritable(s, x, Index(vpn, 1), change(Translate(s, root, vpn).pte));
    }
  }

  lemma CreateKeepsWritable(s: Space, picks: seq<nat>)
    requires Inv(s) && PicksOk(s, picks) && LinksWritable(s)
    ensures RootOk(s, s.kroot)
    ensures var s' := CreateRoot(s, picks).0; Inv(s') && LinksWritable(s')
  {
    assert RootOk(s, s.kroot);
    if picks != [] {
      CreateRootKeepsInv(s, picks[0]);
      var s' := CreateRoot(s, [picks[0]]).0;
      assert CreateRoot(s, picks).0 == s';
      forall x, j | x in s'.shape && 0 <= j < 512 ensures LinkWritable(s', x, j) {
        if x == picks[0] { assert LinkWritable(s, s.kroot, j); } else { assert LinkWritable(s, x, j); }
      }
    }
  }

  lemma StepKeepsWritable(s: Space, op: Op)
    requires Enabled(s, op) && LinksWritable(s)
    ensures Inv(Apply(s, op)) && LinksWritable(Apply(s, op))
  {
    match op
    case Create(picks) => CreateKeepsWritable(s, picks);
    case Map(root, va, phys, attributes, picks) => MapKeepsWritable(s, root, va, phys, attributes, picks);
    case Unmap(root, va) => ChangeKeepsWritable(s, root, va, _ => ZERO);
    case Protect(root, va, attributes) => ChangeKeepsWritable(s, root, va, leaf => Protected(leaf, attributes));
    case Destroy(root, active) =>
      if active != root {
        DestroyRootCorrect(s, root, active);
        var s' := Apply(s, op);
        forall x, j | x in s'.shape && 0 <= j < 512 ensures LinkWritable(s', x, j) { assert LinkWritable(s, x, j); }
      }
  }

  // Over every run on any roots.
  lemma {:induction false} RunKeepsWritable(s: Space, ops: seq<Op>)
    requires Inv(s) && Runs(s, ops) && LinksWritable(s)
    ensures Inv(Run(s, ops)) && LinksWritable(Run(s, ops))
    decreases |ops|
  {
    if ops != [] {
      StepKeepsWritable(s, ops[0]);
      RunKeepsWritable(Apply(s, ops[0]), ops[1..]);
    }
  }

  // ---------------------------------------------------------------- what a map and a protect give

  // The descent of a user mapping has put PTE_USER on every entry above the leaf.
  lemma {:induction false} DescendUserAbove(s: Space, t: nat, vpn: nat, picks: seq<nat>)
    requires Inv(s) && PicksOk(s, picks) && AtTable(s, t, vpn)
    requires Descend(s, t, 1, vpn, true, picks).Reached?
    ensures UserAbove(Descend(s, t, 1, vpn, true, picks).s.pages, t, s.shape[t].level, vpn)
    decreases if t in s.shape then s.shape[t].level else 0
  {
    var level := s.shape[t].level;
    if level > 1 {
      var i := Index(vpn, level);
      EnsureChildKeeps(s, t, vpn, true, picks);
      var d := EnsureChild(s, t, i, true, picks);
      assert d.Reached?;
      DescendUserAbove(d.s, d.table, vpn, d.rest);
      DescendKeepsEntry(d.s, d.table, 1, vpn, true, d.rest, t, i);
    }
  }

  lemma PathUserAbove(s: Space, root: nat, vpn: nat, picks: seq<nat>)
    requires Inv(s) && PicksOk(s, picks) && IsRoot(s, root) && vpn < VPN_LIMIT
    requires PathDown(s, root, vpn, true, picks).Reached?
    ensures UserAbove(PathDown(s, root, vpn, true, picks).s.pages, root, 4, vpn)
  {
    if Shared(s, root, Index(vpn, 4)) {
      BorrowedStep(s, root, vpn, true, picks);
      var d := EnsureChild(s, root, Index(vpn, 4), true, picks);
      DescendUserAbove(d.s, d.table, vpn, picks);
      DescendKeepsEntry(d.s, d.table, 1, vpn, true, picks, root, Index(vpn, 4));
    } else {
      RootAt(s, root, vpn);
      DescendUserAbove(s, root, vpn, picks);
    }
  }

  lemma MapUserPath(s: Space, root: nat, va: nat, phys: nat, attributes: Pte, picks: seq<nat>)
    requires Inv(s) && PicksOk(s, picks) && IsRoot(s, root)
    requires MapPage(s, root, va, phys, attributes, picks).1 == Success
    ensures UserPath(MapPage(s, root, va, phys, attributes, picks).0.pages, root, 4, Vpn(va)) <==> attributes.user
  {
    var vpn, e := Vpn(va), LeafPte(phys / PAGE_4KB, attributes);
    var s' := MapPage(s, root, va, phys, attributes, picks).0;
    MapPageCorrect(s, root, va, phys, attributes, picks);
    MappedUserPath(s, root, vpn, attributes.user, picks, e);
  }

  lemma MappedUserPath(s: Space, root: nat, vpn: nat, user: bool, picks: seq<nat>, e: Pte)
    requires Inv(s) && PicksOk(s, picks) && IsRoot(s, root) && vpn < VPN_LIMIT
    requires PathDown(s, root, vpn, user, picks).Reached? && e.present && e.user == user
    ensures var d := PathDown(s, root, vpn, user, picks);
            && d.table in d.s.pages
            && (UserPath(SetEntry(d.s, d.table, Index(vpn, 1), e).pages, root, 4, vpn) <==> user)
  {
    PathMeans(s, root, vpn, user, picks, e);
    PathLevel(s, root, vpn, user, picks);
    PathDownKeeps(s, root, vpn, user, picks);
    PathInv(s, root, vpn, user, picks);
    var d := PathDown(s, root, vpn, user, picks);
    assert RootOk(d.s, root) && TableOk(d.s, root);
    UserPathOfLeaf(d.s, root, d.table, e, vpn);
    if user { PathUserAbove(s, root, vpn, picks); }
  }

  lemma PathInv(s: Space, root: nat, vpn: nat, user: bool, picks: seq<nat>)
    requires Inv(s) && PicksOk(s, picks) && IsRoot(s, root) && vpn < VPN_LIMIT
    ensures var d := PathDown(s, root, vpn, user, picks); Inv(d.s) && d.s.kroot == s.kroot && d.s.procs == s.procs
  {
    if Shared(s, root, Index(vpn, 4)) {
      BorrowedStep(s, root, vpn, user, picks);
      var d := EnsureChild(s, root, Index(vpn, 4), user, picks);
      DescendKeeps(d.s, d.table, 1, vpn, user, picks);
    } else {
      RootAt(s, root, vpn);
      DescendKeeps(s, root, 1, vpn, user, picks);
    }
  }

  // The fields of a leaf that has been mapped: the physical page, the allowed flags, and nothing else.
  lemma MapLeaf(s: Space, root: nat, va: nat, phys: nat, attributes: Pte, picks: seq<nat>)
    requires Inv(s) && PicksOk(s, picks) && IsRoot(s, root) && phys < 0x10_0000_0000_0000
    requires MapPage(s, root, va, phys, attributes, picks).1 == Success
    ensures var w := Translate(MapPage(s, root, va, phys, attributes, picks).0, root, Vpn(va));
            && w.Leaf? && w.level == 1 && FrameOf(w.pte) * PAGE_4KB == phys && NoExecute(w.pte) == NoExecute(attributes)
            && w.pte.base == phys / PAGE_4KB + (if NoExecute(attributes) then NX_BIT else 0)
            && w.pte.present && w.pte.writable == attributes.writable && w.pte.user == attributes.user
            && w.pte.writeThrough == attributes.writeThrough && w.pte.cacheDisable == attributes.cacheDisable
            && w.pte.global == attributes.global
            && !w.pte.accessed && !w.pte.dirty && !w.pte.pageSize && w.pte.avail == 0
  {
    MapPageCorrect(s, root, va, phys, attributes, picks);
    FrameAddress(phys);
    LeafFields(phys / PAGE_4KB, attributes);
  }

  lemma FrameAddress(phys: nat)
    requires phys % PAGE_4KB == 0 && phys < 0x10_0000_0000_0000
    ensures phys / PAGE_4KB < FRAME_LIMIT && phys / PAGE_4KB * PAGE_4KB == phys
  {}

  lemma LeafFields(frame: nat, attributes: Pte)
    requires frame < FRAME_LIMIT
    ensures var e := LeafPte(frame, attributes);
            && FrameOf(e) == frame && NoExecute(e) == NoExecute(attributes)
            && e.base == frame + (if NoExecute(attributes) then NX_BIT else 0)
  {
    BaseParts(frame);
  }

  lemma BaseParts(frame: nat)
    requires frame < FRAME_LIMIT
    ensures frame / NX_BIT == 0 && (frame + NX_BIT) / NX_BIT == 1
    ensures frame % FRAME_LIMIT == frame && (frame + NX_BIT) % FRAME_LIMIT == frame
  {}

  // A page that has been mapped is at its physical address, with the rights its attributes give and no others.
  lemma MapAccess(s: Space, root: nat, va: nat, phys: nat, attributes: Pte, picks: seq<nat>, offset: nat)
    requires Inv(s) && PicksOk(s, picks) && IsRoot(s, root) && LinksWritable(s)
    requires phys < 0x10_0000_0000_0000 && offset < PAGE_4KB
    requires MapPage(s, root, va, phys, attributes, picks).1 == Success
    ensures AccessAt(MapPage(s, root, va, phys, attributes, picks).0.pages, root, va + offset)
         == Access(phys + offset, attributes.writable, attributes.user, !NoExecute(attributes))
  {
    MapState(s, root, va, phys, attributes, picks);
    MapLeaf(s, root, va, phys, attributes, picks);
    MapUserPath(s, root, va, phys, attributes, picks);
    MapKeepsWritable(s, root, va, phys, attributes, picks);
    var s' := MapPage(s, root, va, phys, attributes, picks).0;
    AccessGiven(s', root, va, offset, phys, attributes.writable, attributes.user, !NoExecute(attributes));
  }

  lemma MapState(s: Space, root: nat, va: nat, phys: nat, attributes: Pte, picks: seq<nat>)
    requires Inv(s) && PicksOk(s, picks) && IsRoot(s, root)
    requires MapPage(s, root, va, phys, attributes, picks).1 == Success
    ensures var s' := MapPage(s, root, va, phys, attributes, picks).0; Inv(s') && IsRoot(s', root)
    ensures va % PAGE_4KB == 0
  {
    MapPageCorrect(s, root, va, phys, attributes, picks);
  }

  lemma AccessGiven(
      s: Space, root: nat, va: nat, offset: nat, phys: nat, write: bool, user: bool, execute: bool)
    requires Inv(s) && IsRoot(s, root) && LinksWritable(s) && va % PAGE_4KB == 0 && offset < PAGE_4KB
    requires var w := Translate(s, root, Vpn(va));
             && w.Leaf? && w.level == 1 && FrameOf(w.pte) * PAGE_4KB == phys
             && w.pte.writable == write && NoExecute(w.pte) == !execute
    requires UserPath(s.pages, root, 4, Vpn(va)) <==> user
    ensures AccessAt(s.pages, root, va + offset) == Access(phys + offset, write, user, execute)
  {
    AccessOfLeaf(s, root, va, offset);
  }

  // An access to a page with a 4KB leaf.
  lemma AccessOfLeaf(s: Space, root: nat, va: nat, offset: nat)
    requires Inv(s) && IsRoot(s, root) && LinksWritable(s) && va % PAGE_4KB == 0 && offset < PAGE_4KB
    requires Translate(s, root, Vpn(va)).Leaf? && Translate(s, root, Vpn(va)).level == 1
    ensures var e := Translate(s, root, Vpn(va)).pte;
            AccessAt(s.pages, root, va + offset)
            == Access(FrameOf(e) * PAGE_4KB + offset, e.writable, UserPath(s.pages, root, 4, Vpn(va)), !NoExecute(e))
  {
    InPage(va, offset);
    assert RootOk(s, root) && TableOk(s, root);
    LeafBitWrites(s, root, Vpn(va));
    AccessIs(s, root, va + offset);
  }

  lemma InPage(va: nat, offset: nat)
    requires va % PAGE_4KB == 0 && offset < PAGE_4KB
    ensures Vpn(va + offset) == Vpn(va) && (va + offset) % PAGE_4KB == offset
  {}

  // Protecting a page keeps its physical page and the accessed and dirty bits, and replaces the rest.
  lemma ProtectLeaf(s: Space, root: nat, va: nat, attributes: Pte)
    requires Inv(s) && IsRoot(s, root) && ProtectPage(s, root, va, attributes).1 == Success
    ensures var was := Translate(s, root, Vpn(va));
            var w := Translate(ProtectPage(s, root, va, attributes).0, root, Vpn(va));
            && was.Leaf? && was.level == 1 && w.Leaf? && w.level == 1
            && FrameOf(w.pte) == FrameOf(was.pte) && NoExecute(w.pte) == NoExecute(attributes)
            && w.pte.base == FrameOf(was.pte) + (if NoExecute(attributes) then NX_BIT else 0)
            && w.pte.present && w.pte.writable == attributes.writable && w.pte.user == attributes.user
            && w.pte.writeThrough == attributes.writeThrough && w.pte.cacheDisable == attributes.cacheDisable
            && w.pte.global == attributes.global
            && w.pte.accessed == was.pte.accessed && w.pte.dirty == was.pte.dirty
            && !w.pte.pageSize && w.pte.avail == 0
  {
    ChangeLeafCorrect(s, root, va, leaf => Protected(leaf, attributes));
    LeafFields(FrameOf(Translate(s, root, Vpn(va)).pte), attributes);
  }

  // A protected page stays where it was; it can be written and executed as the attributes say, and used from user
  // mode if they and the entries above say so.
  lemma ProtectAccess(s: Space, root: nat, va: nat, attributes: Pte, offset: nat)
    requires Inv(s) && IsRoot(s, root) && LinksWritable(s) && offset < PAGE_4KB
    requires ProtectPage(s, root, va, attributes).1 == Success
    ensures var was := AccessAt(s.pages, root, va + offset);
            && was.Access?
            && AccessAt(ProtectPage(s, root, va, attributes).0.pages, root, va + offset)
               == Access(was.phys, attributes.writable, attributes.user && UserAbove(s.pages, root, 4, Vpn(va)),
                         !NoExecute(attributes))
  {
    ProtectedIs(s, root, va, attributes, offset, FrameOf(Translate(s, root, Vpn(va)).pte) * PAGE_4KB);
    PhysBefore(s, root, va, offset);
  }

  lemma ProtectedIs(s: Space, root: nat, va: nat, attributes: Pte, offset: nat, phys: nat)
    requires Inv(s) && IsRoot(s, root) && LinksWritable(s) && offset < PAGE_4KB
    requires ProtectPage(s, root, va, attributes).1 == Success
    requires var was := Translate(s, root, Vpn(va)); was.Leaf? && phys == FrameOf(was.pte) * PAGE_4KB
    ensures Translate(s, root, Vpn(va)).level == 1 && va % PAGE_4KB == 0
    ensures AccessAt(ProtectPage(s, root, va, attributes).0.pages, root, va + offset)
         == Access(phys + offset, attributes.writable, attributes.user && UserAbove(s.pages, root, 4, Vpn(va)),
                   !NoExecute(attributes))
  {
    var user := attributes.user && UserAbove(s.pages, root, 4, Vpn(va));
    var s' := ProtectPage(s, root, va, attributes).0;
    ProtectState(s, root, va, attributes);
    ProtectLeaf(s, root, va, attributes);
    AccessGiven(s', root, va, offset, phys, attributes.writable, user, !NoExecute(attributes));
  }

  lemma PhysBefore(s: Space, root: nat, va: nat, offset: nat)
    requires Inv(s) && IsRoot(s, root) && LinksWritable(s) && va % PAGE_4KB == 0 && offset < PAGE_4KB
    requires Translate(s, root, Vpn(va)).Leaf? && Translate(s, root, Vpn(va)).level == 1
    ensures var was := AccessAt(s.pages, root, va + offset);
            was.Access? && was.phys == FrameOf(Translate(s, root, Vpn(va)).pte) * PAGE_4KB + offset
  {
    AccessOfLeaf(s, root, va, offset);
  }

  lemma ProtectState(s: Space, root: nat, va: nat, attributes: Pte)
    requires Inv(s) && IsRoot(s, root) && LinksWritable(s) && ProtectPage(s, root, va, attributes).1 == Success
    ensures var s' := ProtectPage(s, root, va, attributes).0;
            && Inv(s') && IsRoot(s', root) && LinksWritable(s')
            && (UserPath(s'.pages, root, 4, Vpn(va)) <==> attributes.user && UserAbove(s.pages, root, 4, Vpn(va)))
    ensures va % PAGE_4KB == 0
  {
    ChangeLeafCorrect(s, root, va, leaf => Protected(leaf, attributes));
    ProtectUserExactly(s, root, va, attributes);
    ChangeKeepsWritable(s, root, va, leaf => Protected(leaf, attributes));
  }

  // An unmapped page cannot be accessed at all.
  lemma UnmapAccess(s: Space, root: nat, va: nat, offset: nat)
    requires Inv(s) && IsRoot(s, root) && offset < PAGE_4KB && UnmapPage(s, root, va).1 == Success
    ensures AccessAt(s.pages, root, va + offset).Access?
    ensures AccessAt(UnmapPage(s, root, va).0.pages, root, va + offset) == Fault
  {
    ChangeLeafCorrect(s, root, va, _ => ZERO);
    InPage(va, offset);
    AccessIs(s, root, va + offset);
    AccessIs(UnmapPage(s, root, va).0, root, va + offset);
  }
}

/**
 The page-table code of ke/mm/address_space.c as it runs: tables rewritten in place,
 undo logs kept in fixed arrays, subtrees freed by a recursive loop.  Each call is
 proved against the all-or-nothing functions of AddressSpace.
 */
module Machine {
  import opened Paging
  import opened PageTree
  import opened PageSubtree
  import opened Status
  import opened AddressSpace
  import opened AddressSpaceRuns
  import opened Mmu

  // A pointer to one table word.
  datatype EntryRef = EntryRef(table: nat, index: nat)

  // KE_NEW_TABLE.
  datatype NewTable = NewTable(parent: EntryRef, frame: nat)

  // KE_KERNEL_ADDRESS_SPACE / KE_PROCESS_ADDRESS_SPACE as the calls below use them.
  datatype SpaceHandle = SpaceHandle(root: nat, initialized: bool)

  // A pointer that may be NULL.
  datatype EntryPtr = Null | Ptr(entry: EntryRef)

  // KE_PT_WALK.
  datatype PtWalk = PtWalk(
    pml4: EntryPtr, pdpt: EntryPtr, pd: EntryPtr, pt: EntryPtr, leaf: EntryPtr,
    leafValue: Pte, level: nat, pageSize: nat, physBase: nat)

  // KE_PT_MAPPING.
  datatype PtMapping = PtMapping(
    present: bool, largeLeaf: bool, userAccessible: bool, level: nat,
    pageSize: nat, physicalBase: nat, attributes: Pte)

  // ---------------------------------------------------------------- the walk record

  function Word(pages: map<nat, Table>, p: EntryPtr): Pte {
    if p.Ptr? && p.entry.table in pages && p.entry.index < 512 then pages[p.entry.table][p.entry.index] else ZERO
  }

  // The pointer to the entry below a present link.
  function Next(pages: map<nat, Table>, p: EntryPtr, index: nat): EntryPtr {
    if Word(pages, p).present then Ptr(EntryRef(Word(pages, p).base, index)) else Null
  }

  // The record of one walk: entry pointers along the path, and the leaf where the path ends.
  ghost predicate WalkOk(pages: map<nat, Table>, root: nat, va: nat, w: PtWalk) {
    var vpn := Vpn(va);
    && w.pml4 == Ptr(EntryRef(root, Index(vpn, 4)))
    && w.pdpt == Next(pages, w.pml4, Index(vpn, 3))
    && if !Word(pages, w.pdpt).present then NoLeafIn(w)
       else if Word(pages, w.pdpt).pageSize then LeafIn(pages, w, w.pdpt, 3, va)
       else
         w.pd == Next(pages, w.pdpt, Index(vpn, 2)) && LowerWalkOk(pages, va, w)
  }

  // The part of the record from the page directory on.
  ghost predicate LowerWalkOk(pages: map<nat, Table>, va: nat, w: PtWalk) {
    if !Word(pages, w.pd).present then NoLeafIn(w)
    else if Word(pages, w.pd).pageSize then LeafIn(pages, w, w.pd, 2, va)
    else
      && w.pt == Next(pages, w.pd, Index(Vpn(va), 1))
      && if !Word(pages, w.pt).present then NoLeafIn(w) else LeafIn(pages, w, w.pt, 1, va)
  }

  ghost predicate NoLeafIn(w: PtWalk) {
    w.leaf.Null? && w.level == 0
  }

  ghost predicate LeafIn(pages: map<nat, Table>, w: PtWalk, p: EntryPtr, level: nat, va: nat)
    requires 1 <= level <= 3
  {
    var size := PAGE_4KB * Span(level);
    && w.leaf == p && w.leafValue == Word(pages, p) && w.level == level && w.pageSize == size
    && w.physBase == FrameOf(w.leafValue) * PAGE_4KB / size * size + (if level == 1 then 0 else va % size)
  }

  // KiIsUserReachableEntry.
  predicate UserReachable(pages: map<nat, Table>, p: EntryPtr) {
    Word(pages, p).present && Word(pages, p).user
  }

  // KiIsWalkUserAccessible.
  predicate WalkUserAccessible(pages: map<nat, Table>, w: PtWalk) {
    && w.leaf.Ptr?
    && UserReachable(pages, w.pml4) && UserReachable(pages, w.pdpt)
    && (w.level == 3 || (UserReachable(pages, w.pd) && (w.level == 2 || UserReachable(pages, w.pt))))
  }

  // Aligning a frame's address down is aligning the frame down.
  lemma BlockOfFrame(f: nat)
    ensures f * PAGE_4KB / PAGE_4KB * PAGE_4KB == PAGE_4KB * f
    ensures f * PAGE_4KB / PAGE_2MB * PAGE_2MB == PAGE_4KB * (f / 512 * 512)
    ensures f * PAGE_4KB / PAGE_1GB * PAGE_1GB == PAGE_4KB * (f / 0x4_0000 * 0x4_0000)
  {
    assert f * PAGE_4KB / PAGE_2MB == f / 512;
    assert f * PAGE_4KB / PAGE_1GB == f / 0x4_0000;
  }

  // The record describes the translation of the page and its user reachability.
  lemma WalkMeans(s: Space, root: nat, va: nat, w: PtWalk)
    requires Inv(s) && IsRoot(s, root) && va % PAGE_4KB == 0 && WalkOk(s.pages, root, va, w)
    ensures var leaf := Translate(s, root, Vpn(va));
            && (w.leaf.Null? <==> leaf.NoLeaf?)
            && (leaf.Leaf? ==>
                  && leaf == Leaf(w.level, w.leafValue) && 1 <= w.level <= 3
                  && w.leaf == Ptr(EntryRef(Holder(s.pages, root, 4, Vpn(va)), Index(Vpn(va), w.level)))
                  && w.pageSize == PAGE_4KB * Span(w.level)
                  && w.physBase == PhysBase(leaf, va))
            && (WalkUserAccessible(s.pages, w) <==> UserPath(s.pages, root, 4, Vpn(va)))
  {
    var vpn := Vpn(va);
    BlockOfFrame(FrameOf(w.leafValue));
    assert RootOk(s, root) && EntryOk(s, root, Index(vpn, 4));
    var e4 := s.pages[root][Index(vpn, 4)];
    if e4.present {
      assert EntryOk(s, e4.base, Index(vpn, 3));
      var e3 := s.pages[e4.base][Index(vpn, 3)];
      if IsLink(e3, 3) {
        LowerWalkMeans(s, e3.base, va, w);
      }
    }
  }

  lemma LowerWalkMeans(s: Space, t: nat, va: nat, w: PtWalk)
    requires Inv(s) && t in s.shape && s.shape[t].level == 2 && va % PAGE_4KB == 0
    requires w.pd == Ptr(EntryRef(t, Index(Vpn(va), 2))) && LowerWalkOk(s.pages, va, w)
    ensures var leaf := Lookup(s.pages, t, 2, Vpn(va));
            && (w.leaf.Null? <==> leaf.NoLeaf?)
            && (leaf.Leaf? ==>
                  && leaf == Leaf(w.level, w.leafValue) && 1 <= w.level <= 2
                  && w.leaf == Ptr(EntryRef(Holder(s.pages, t, 2, Vpn(va)), Index(Vpn(va), w.level)))
                  && w.pageSize == PAGE_4KB * Span(w.level)
                  && w.physBase == PhysBase(leaf, va))
            && (w.leaf.Ptr? && UserReachable(s.pages, w.pd) && (w.level == 2 || UserReachable(s.pages, w.pt))
                <==> UserPath(s.pages, t, 2, Vpn(va)))
  {
    var e2 := s.pages[t][Index(Vpn(va), 2)];
    assert EntryOk(s, t, Index(Vpn(va), 2));
    BlockOfFrame(FrameOf(w.leafValue));
    if IsLink(e2, 2) {
      assert EntryOk(s, e2.base, Index(Vpn(va), 1));
    }
  }

  // Where the page lies in physical memory: the leaf's block, at the page's offset in it.
  function PhysBase(leaf: Walk, va: nat): nat
    requires leaf.Leaf? && 1 <= leaf.level <= 3
  {
    PAGE_4KB * (FrameOf(leaf.pte) / Span(leaf.level) * Span(leaf.level)) + va % (PAGE_4KB * Span(leaf.level))
  }

  // It is the address that the processor comes to.
  lemma SeenByProcessor(s: Space, root: nat, va: nat)
    requires Inv(s) && IsRoot(s, root)
    ensures var leaf, access := Translate(s, root, Vpn(va)), AccessAt(s.pages, root, va);
            && (access.Access? <==> leaf.Leaf?)
            && (leaf.Leaf? ==>
                  && 1 <= leaf.level <= 3 && access.phys == PhysBase(leaf, va)
                  && (access.user <==> UserPath(s.pages, root, 4, Vpn(va)))
                  && (access.execute <==> !NoExecute(leaf.pte)))
  {
    assert RootOk(s, root) && TableOk(s, root);
    LookupLevel(s, root, Vpn(va));
    AccessIs(s, root, va);
    if Translate(s, root, Vpn(va)).Leaf? { SamePlace(Translate(s, root, Vpn(va)), va); }
  }

  lemma SamePlace(leaf: Walk, va: nat)
    requires leaf.Leaf? && 1 <= leaf.level <= 3
    ensures PhysOf(leaf, va) == PhysBase(leaf, va)
  {
    var f := FrameOf(leaf.pte);
    assert f * PAGE_4KB / PAGE_2MB == f / 512;
    assert f * PAGE_4KB / PAGE_1GB == f / 0x4_0000;
  }

  lemma MappedLeaf(s: Space, root: nat, va: nat, phys: nat, attributes: Pte, picks: seq<nat>)
    requires Inv(s) && PicksOk(s, picks) && IsRoot(s, root) && phys < 0x10_0000_0000_0000
    requires AddressSpace.MapPage(s, root, va, phys, attributes, picks).1 == Success
    ensures var w := Translate(AddressSpace.MapPage(s, root, va, phys, attributes, picks).0, root, Vpn(va));
            && w.Leaf? && w.level == 1 && PhysBase(w, va) == phys
            && w.pte.user == attributes.user && w.pte.writable == attributes.writable
            && NoExecute(w.pte) == NoExecute(attributes)
  {
    MapState(s, root, va, phys, attributes, picks);
    MapLeaf(s, root, va, phys, attributes, picks);
  }

  // ---------------------------------------------------------------- undo logs

  ghost function UndoTable(s: Space, n: NewTable): Space {
    if n.parent.table in s.pages && n.parent.index < 512
    then Unlink(s, n.parent.table, n.parent.index, n.frame) else s
  }

  // Newest first.
  ghost function UndoTables(s: Space, log: seq<NewTable>): Space
    decreases |log|
  {
    if log == [] then s
    else UndoTables(UndoTable(s, log[|log| - 1]), log[..|log| - 1])
  }

  // Each step gives back a page that is not free, and clears the entry above it.
  ghost predicate CanUndo(s: Space, log: seq<NewTable>)
    decreases |log|
  {
    log == [] ||
    (var n := log[|log| - 1];
     && n.parent.table in s.pages && n.parent.index < 512 && n.frame !in s.free && n.frame != n.parent.table
     && CanUndo(UndoTable(s, n), log[..|log| - 1]))
  }

  ghost predicate EntriesIn(s: Space, log: seq<EntryRef>) {
    forall k :: 0 <= k < |log| ==> log[k].table in s.pages && log[k].index < 512
  }

  ghost function UndoPromotion(s: Space, p: EntryRef): Space {
    if p.table in s.pages && p.index < 512
    then SetEntry(s, p.table, p.index, s.pages[p.table][p.index].(user := false)) else s
  }

  ghost function UndoPromotions(s: Space, log: seq<EntryRef>): Space
    decreases |log|
  {
    if log == [] then s
    else UndoPromotions(UndoPromotion(s, log[|log| - 1]), log[..|log| - 1])
  }

  ghost function Undo(s: Space, tables: seq<NewTable>, promotions: seq<EntryRef>): Space {
    UndoPromotions(UndoTables(s, tables), promotions)
  }

  lemma {:induction false} UndoLinkNew(s: Space, parent: EntryRef, f: nat, user: bool, tables: seq<NewTable>)
    requires CanLink(s, parent.table, parent.index, f)
    requires CanUndo(s, tables)
    ensures CanUndo(LinkNew(s, parent.table, parent.index, f, user), tables + [NewTable(parent, f)])
    ensures UndoTables(LinkNew(s, parent.table, parent.index, f, user), tables + [NewTable(parent, f)])
         == UndoTables(s, tables)
  {
    var log := tables + [NewTable(parent, f)];
    assert log[..|log| - 1] == tables;
    LinkThenUnlink(s, parent.table, parent.index, f, user);
  }

  lemma {:induction false} UndoPromote(s: Space, entry: EntryRef, promotions: seq<EntryRef>)
    requires entry.table in s.pages && entry.index < 512 && !s.pages[entry.table][entry.index].user
    ensures Undo(SetEntry(s, entry.table, entry.index, s.pages[entry.table][entry.index].(user := true)),
                 [], promotions + [entry])
         == Undo(s, [], promotions)
  {
    var log := promotions + [entry];
    assert log[..|log| - 1] == promotions;
    DemoteAgain(s, entry);
  }

  lemma DemoteAgain(s: Space, entry: EntryRef)
    requires entry.table in s.pages && entry.index < 512 && !s.pages[entry.table][entry.index].user
    ensures var e := s.pages[entry.table][entry.index];
            UndoPromotion(SetEntry(s, entry.table, entry.index, e.(user := true)), entry) == s
  {
    SetBack(s, entry.table, entry.index, s.pages[entry.table][entry.index].(user := true));
  }

  lemma SetBack(s: Space, t: nat, i: nat, e: Pte)
    requires t in s.pages && i < 512
    ensures SetEntry(SetEntry(s, t, i, e), t, i, s.pages[t][i]) == s
  {
    assert s.pages[t][i := e][i := s.pages[t][i]] == s.pages[t];
  }

  // ---------------------------------------------------------------- the state of a map call

  // The first call to KiEnsureChildTable on a private path.
  lemma FirstStep(s: Space, root: nat, vpn: nat, user: bool, picks: seq<nat>, s': Space, status: Status, pdpt: nat)
    requires Inv(s) && AtTable(s, root, vpn) && s.shape[root].level == 4 && PicksOk(s, picks) && |picks| <= 1
    requires var d := EnsureChild(s, root, Index(vpn, 4), user, picks);
             && s' == d.s && (status == Success <==> d.Reached?)
             && (d.Reached? ==> pdpt == d.table && d.rest == []) && (d.Blocked? ==> status == d.status)
    ensures status == Success ==> At(s, root, vpn, user, picks, s', pdpt, 3)
    ensures status != Success ==> Descend(s, root, 1, vpn, user, picks) == Blocked(s', status)
  {
    DescendExtend(s, root, 4, vpn, user, [], picks);
    assert [] + picks == picks;
    if status != Success { DescendCut(s, root, 3, 1, vpn, user, picks); }
  }

  // Any later call.
  lemma StepMeans(
      s0: Space, root: nat, vpn: nat, user: bool, picks: seq<nat>, s: Space, t: nat, level: nat, p: seq<nat>,
      s': Space, status: Status, table: nat)
    requires 2 <= level <= 4 && At(s0, root, vpn, user, picks, s, t, level) && |p| <= 1 && PicksOk(s, p)
    requires t in s.pages && t in s.shape && s.shape[t].level == level
    requires var d := EnsureChild(s, t, Index(vpn, level), user, p);
             && s' == d.s && (status == Success <==> d.Reached?)
             && (d.Reached? ==> table == d.table && d.rest == []) && (d.Blocked? ==> status == d.status)
    ensures PicksOk(s0, picks + p)
    ensures status == Success ==> At(s0, root, vpn, user, picks + p, s', table, level - 1)
    ensures status != Success ==> Descend(s0, root, 1, vpn, user, picks + p) == Blocked(s', status)
  {
    DescendExtend(s0, root, level, vpn, user, picks, p);
    if status != Success { DescendCut(s0, root, level - 1, 1, vpn, user, picks + p); }
  }

  // The logs lead from cur back to s0.
  ghost predicate Logs(s0: Space, cur: Space, tables: seq<NewTable>, promotions: seq<EntryRef>, level: nat) {
    && |tables| <= 4 - level && |promotions| <= 4 - level
    && CanUndo(cur, tables) && EntriesIn(UndoTables(cur, tables), promotions)
    && Undo(cur, tables, promotions) == s0
  }

  lemma Without(pages: map<nat, Table>, a: set<nat>, b: set<nat>)
    ensures (pages - a) - b == pages - (a + b)
  {}

  // The tables of a subtree are still in use, with their words as in s0.
  ghost predicate Standing(s0: Space, t: nat, pages: map<nat, Table>, free: set<nat>)
    requires Inv(s0) && t in s0.shape
  {
    forall x :: x in Sub(s0, t) ==> x in pages && x in s0.pages && pages[x] == s0.pages[x] && x !in free
  }

  // Freeing the children below entry k leaves the child at k standing.
  lemma ChildStanding(s0: Space, t: nat, k: nat, pages: map<nat, Table>, free: set<nat>)
    requires Inv(s0) && t in s0.shape && k < 512 && s0.shape[t].level >= 2 && !Shared(s0, t, k)
    requires Standing(s0, t, pages, free) && IsLink(s0.pages[t][k], s0.shape[t].level)
    ensures var c := s0.pages[t][k].base;
            c in s0.shape && Standing(s0, c, pages - Below(s0, t, k), free + Below(s0, t, k))
  {
    BelowStep(s0, t, k);
    var c := s0.pages[t][k].base;
    forall x | x in Sub(s0, c) ensures x in Sub(s0, t) && x !in Below(s0, t, k) {
      assert x in Below(s0, t, k + 1);
      BelowAll(s0, t);
    }
  }

  lemma RootStanding(s: Space, root: nat)
    requires Inv(s) && root in s.procs
    ensures RootOk(s, root) && Standing(s, root, s.pages, s.free)
  {
    assert RootOk(s, root);
  }

  // The page has no leaf, and there are as many free pages as tables missing on its path.
  ghost predicate CanMap(s: Space, root: nat, vpn: nat) {
    Translate(s, root, vpn) == NoLeaf && |s.free| >= Missing(s.pages, root, 4, 1, vpn)
  }

  lemma EnoughPages(s: Space, root: nat, vpn: nat, user: bool, picks: seq<nat>)
    requires Inv(s) && PicksOk(s, picks) && IsRoot(s, root) && vpn < VPN_LIMIT
    ensures var d := PathDown(s, root, vpn, user, picks);
            match d
            case Blocked(s1, status) =>
              status != Success && ((status == OutOfResource ==> s1.free == {}) ==> !CanMap(s, root, vpn))
            case Reached(s1, pt, _) =>
              pt in s1.pages && (s1.pages[pt][Index(vpn, 1)].present <==> !CanMap(s, root, vpn))
  {
    PathMeans(s, root, vpn, user, picks, ZERO.(present := true));
  }

  class Machine {
    // Words of the pages in use as tables; pages the physical allocator may hand out; CR3.
    var pages: map<nat, Table>
    var free: set<nat>
    var cr3: nat
    var kernelRoot: nat
    ghost var shape: map<nat, Node>
    ghost var procs: set<nat>

    ghost function View(): Space
      reads this
    {
      Space(pages, free, shape, kernelRoot, procs)
    }

    ghost predicate Valid()
      reads this
    {
      Inv(View())
    }

    // KePmmAllocPages(1, NULL, ...).
    method AllocPage() returns (ok: bool, frame: nat)
      modifies this`free
      ensures ok == (old(free) != {})
      ensures ok ==> frame in old(free) && free == old(free) - {frame}
      ensures !ok ==> free == old(free)
    {
      if free == {} {
        return false, 0;
      }
      frame :| frame in free;
      free := free - {frame};
      ok := true;
    }

    // KePmmFreePages(frame, 1): a page may be given back only once.
    method FreePage(frame: nat)
      requires frame !in free
      modifies this`free, this`pages
      ensures free == old(free) + {frame} && pages == old(pages) - {frame}
    {
      free := free + {frame};
      pages := pages - {frame};
    }

    // A new table, zeroed and linked.
    method LinkTable(parent: EntryRef, frame: nat, user: bool, ghost s: Space)
      requires CanLink(s, parent.table, parent.index, frame)
      requires View() == Space(s.pages, s.free - {frame}, s.shape, s.kroot, s.procs)
      modifies this`pages, this`shape
      ensures View() == LinkNew(s, parent.table, parent.index, frame, user)
    {
      pages := pages[parent.table := pages[parent.table][parent.index := TablePte(frame, user)]];
      pages := pages[frame := EmptyTable()];
      ghost var n := shape[parent.table];
      shape := shape[frame := Node(n.level - 1, n.owner, n.prefix * 512 + parent.index, parent.table, parent.index)];
    }

    // The branch of KiEnsureChildTable for an empty entry.
    method CreateChild(parent: EntryRef, user: bool, newTables: seq<NewTable>)
      returns (status: Status, table: nat, newTables': seq<NewTable>, ghost picks: seq<nat>)
      requires Valid() && parent.table in shape && shape[parent.table].level >= 2 && parent.index < 512
      requires !pages[parent.table][parent.index].present
      requires CanUndo(View(), newTables)
      modifies this`pages, this`free, this`shape
      ensures if status == Success
              then table in old(free) && picks == [table] && table in pages && pages[table] == EmptyTable()
                   && View() == LinkNew(old(View()), parent.table, parent.index, table, user)
              else status == OutOfResource && free == {} && picks == []
                   && View() == old(View()) && newTables' == newTables
      ensures |newTables'| <= |newTables| + 1
      ensures CanUndo(View(), newTables') && UndoTables(View(), newTables') == UndoTables(old(View()), newTables)
    {
      ghost var s := View();
      var ok, frame := AllocPage();
      if !ok {
        return OutOfResource, 0, newTables, [];
      }
      LinkTable(parent, frame, user, s);
      UndoLinkNew(s, parent, frame, user, newTables);
      return Success, frame, newTables + [NewTable(parent, frame)], [frame];
    }

    // PTE_USER on a link.
    method Promote(parent: EntryRef)
      requires parent.table in pages && parent.index < 512
      modifies this`pages
      ensures View() == SetEntry(old(View()), parent.table, parent.index,
                                 old(pages)[parent.table][parent.index].(user := true))
    {
      var word := pages[parent.table][parent.index];
      pages := pages[parent.table := pages[parent.table][parent.index := word.(user := true)]];
    }

    // KiEnsureChildTable.  The undo logs have room for three entries each.
    method EnsureChildTable(parent: EntryRef, attributes: Pte,
                            newTables: seq<NewTable>, promotions: seq<EntryRef>)
      returns (status: Status, table: nat, newTables': seq<NewTable>, promotions': seq<EntryRef>, ghost picks: seq<nat>)
      requires Valid() && parent.table in shape && shape[parent.table].level >= 2 && parent.index < 512
      requires |newTables| < 3 && |promotions| < 3
      // A fresh table is empty, so on every path promotions come before new tables.
      requires newTables != [] ==> !pages[parent.table][parent.index].present
      requires CanUndo(View(), newTables) && EntriesIn(UndoTables(View(), newTables), promotions)
      modifies this`pages, this`free, this`shape
      ensures |picks| <= 1 && PicksOk(old(View()), picks)
      ensures var d := EnsureChild(old(View()), parent.table, parent.index, attributes.user, picks);
              && View() == d.s
              && (status == Success <==> d.Reached?)
              && (d.Reached? ==> table == d.table && d.rest == [])
              && (d.Blocked? ==> status == d.status && picks == [])
      ensures status == OutOfResource ==> free == {}
      ensures |newTables'| <= |newTables| + 1 && |promotions'| <= |promotions| + 1
      ensures status == Success && newTables' != [] ==> table in pages && pages[table] == EmptyTable()
      ensures CanUndo(View(), newTables') && EntriesIn(UndoTables(View(), newTables'), promotions')
      ensures Undo(View(), newTables', promotions') == Undo(old(View()), newTables, promotions)
    {
      newTables', promotions', picks := newTables, promotions, [];
      var word := pages[parent.table][parent.index];
      if !word.present {
        status, table, newTables', picks := CreateChild(parent, attributes.user, newTables);
        return;
      }
      if word.pageSize {
        return NotSupported, 0, newTables, promotions, [];
      }
      if attributes.user && !word.user {
        UndoPromote(View(), parent, promotions);
        Promote(parent);
        promotions' := promotions + [parent];
      }
      return Success, word.base, newTables', promotions', [];
    }

    // KiRollbackNewTables.
    method RollbackNewTables(tables: seq<NewTable>)
      requires CanUndo(View(), tables)
      modifies this`pages, this`free, this`shape
      ensures View() == UndoTables(old(View()), tables)
    {
      var count: nat := |tables|;
      assert tables[..count] == tables;
      while count > 0
        invariant count <= |tables|
        invariant CanUndo(View(), tables[..count])
        invariant UndoTables(View(), tables[..count]) == UndoTables(old(View()), tables)
      {
        count := count - 1;
        assert tables[..count + 1][..count] == tables[..count];
        var parent, frame := tables[count].parent, tables[count].frame;
        pages := pages[parent.table := pages[parent.table][parent.index := ZERO]];
        FreePage(frame);
        shape := shape - {frame};
      }
      assert tables[..0] == [];
    }

    // KiRollbackEntryPromotions.
    method RollbackEntryPromotions(promotions: seq<EntryRef>)
      requires EntriesIn(View(), promotions)
      modifies this`pages
      ensures View() == UndoPromotions(old(View()), promotions)
    {
      var count: nat := |promotions|;
      assert promotions[..count] == promotions;
      while count > 0
        invariant count <= |promotions|
        invariant EntriesIn(View(), promotions)
        invariant UndoPromotions(View(), promotions[..count]) == UndoPromotions(old(View()), promotions)
      {
        count := count - 1;
        assert promotions[..count + 1][..count] == promotions[..count];
        var entry := promotions[count];
        var word := pages[entry.table][entry.index];
        pages := pages[entry.table := pages[entry.table][entry.index := word.(user := false)]];
      }
      assert promotions[..0] == [];
    }

    // KiRollbackMapSetup.
    method RollbackMapSetup(tables: seq<NewTable>, promotions: seq<EntryRef>)
      requires CanUndo(View(), tables) && EntriesIn(UndoTables(View(), tables), promotions)
      modifies this`pages, this`free, this`shape
      ensures View() == Undo(old(View()), tables, promotions)
    {
      RollbackNewTables(tables);
      RollbackEntryPromotions(promotions);
    }

    // One of KePtMapPage's calls to KiEnsureChildTable, seen from the state at the start of the call.
    method StepDown(parent: EntryRef, attributes: Pte, tables: seq<NewTable>, promotions: seq<EntryRef>,
                    ghost start: Space, ghost s0: Space, ghost root: nat, ghost vpn: nat, ghost level: nat,
                    ghost picks: seq<nat>)
      returns (status: Status, table: nat, tables': seq<NewTable>, promotions': seq<EntryRef>, ghost picks': seq<nat>)
      requires 2 <= level <= 4 && At(s0, root, vpn, attributes.user, picks, View(), parent.table, level)
      requires parent.index == Index(vpn, level)
      requires Logs(start, View(), tables, promotions, level)
      requires tables != [] ==> parent.table in pages && pages[parent.table] == EmptyTable()
      modifies this`pages, this`free, this`shape
      ensures status == Success ==> At(s0, root, vpn, attributes.user, picks', View(), table, level - 1)
      ensures status == Success && tables' != [] ==> table in pages && pages[table] == EmptyTable()
      ensures status != Success ==>
                && Inv(s0) && AtTable(s0, root, vpn) && PicksOk(s0, picks')
                && Descend(s0, root, 1, vpn, attributes.user, picks') == Blocked(View(), status)
                && (status == OutOfResource ==> free == {})
      ensures Logs(start, View(), tables', promotions', level - 1)
    {
      ghost var user, s := attributes.user, View();
      DescendArrives(s0, root, level, vpn, user, picks);
      ghost var p;
      status, table, tables', promotions', p := EnsureChildTable(parent, attributes, tables, promotions);
      picks' := picks + p;
      StepMeans(s0, root, vpn, user, picks, s, parent.table, level, p, View(), status, table);
    }

    // The three KiEnsureChildTable calls of KePtMapPage.
    method EnsureTables(root: nat, va: nat, attributes: Pte)
      returns (status: Status, pt: nat, tables: seq<NewTable>, promotions: seq<EntryRef>, ghost picks: seq<nat>)
      requires Valid() && IsRoot(View(), root)
      modifies this`pages, this`free, this`shape
      ensures PicksOk(old(View()), picks)
      ensures PathDown(old(View()), root, Vpn(va), attributes.user, picks)
           == if status == Success then Reached(View(), pt, []) else Blocked(View(), status)
      ensures status == OutOfResource ==> free == {}
      ensures Logs(old(View()), View(), tables, promotions, 0)
    {
      ghost var vpn, s, user := Vpn(va), View(), attributes.user;
      IndexOfAddress(va);
      assert RootOk(s, root) && TableOk(s, root);
      var pdpt;
      status, pdpt, tables, promotions, picks :=
        EnsureChildTable(EntryRef(root, va / 0x80_0000_0000 % 512), attributes, [], []);
      ghost var s0, from := s, root;
      if Shared(s, root, Index(vpn, 4)) {
        BorrowedStep(s, root, vpn, user, picks);
        s0, from := View(), pdpt;
        picks := [];
      } else {
        RootAt(s, root, vpn);
        FirstStep(s, root, vpn, user, picks, View(), status, pdpt);
      }
      if status != Success {
        return status, 0, tables, promotions, picks;
      }
      status, pt, tables, promotions, picks :=
        LowerTables(pdpt, va, attributes, tables, promotions, s, s0, from, picks);
    }

    // Its second and third.
    method LowerTables(pdpt: nat, va: nat, attributes: Pte, tables: seq<NewTable>, promotions: seq<EntryRef>,
                       ghost start: Space, ghost s0: Space, ghost from: nat, ghost picks: seq<nat>)
      returns (status: Status, pt: nat, tables': seq<NewTable>, promotions': seq<EntryRef>, ghost picks': seq<nat>)
      requires At(s0, from, Vpn(va), attributes.user, picks, View(), pdpt, 3)
      requires Logs(start, View(), tables, promotions, 3)
      requires tables != [] ==> pdpt in pages && pages[pdpt] == EmptyTable()
      modifies this`pages, this`free, this`shape
      ensures PicksOk(s0, picks')
      ensures Descend(s0, from, 1, Vpn(va), attributes.user, picks')
           == if status == Success then Reached(View(), pt, []) else Blocked(View(), status)
      ensures status == OutOfResource ==> free == {}
      ensures Logs(start, View(), tables', promotions', 0)
    {
      ghost var vpn := Vpn(va);
      IndexOfAddress(va);
      var pd;
      status, pd, tables', promotions', picks' :=
        StepDown(EntryRef(pdpt, va / PAGE_1GB % 512), attributes, tables, promotions, start, s0, from, vpn, 3, picks);
      if status != Success {
        return status, 0, tables', promotions', picks';
      }
      status, pt, tables', promotions', picks' :=
        StepDown(EntryRef(pd, va / PAGE_2MB % 512), attributes, tables', promotions', start, s0, from, vpn, 2, picks');
    }

    // KePtMapPage: whatever level it fails at, the undo logs take every word and every page back.
    method MapPage(space: SpaceHandle, va: nat, phys: nat, attributes: Pte)
      returns (status: Status, ghost picks: seq<nat>)
      requires Valid() && (space.initialized ==> IsRoot(View(), space.root))
      modifies this`pages, this`free, this`shape
      ensures PicksOk(old(View()), picks)
      ensures space.initialized ==>
                (View(), status) == AddressSpace.MapPage(old(View()), space.root, va, phys, attributes, picks)
      ensures space.initialized && va % PAGE_4KB == 0 && phys % PAGE_4KB == 0 ==>
                (status == Success <==> CanMap(old(View()), space.root, Vpn(va)))
      ensures !space.initialized ==> status == InvalidState && View() == old(View())
    {
      picks := [];
      if !space.initialized {
        return InvalidState, picks;
      }
      if va % PAGE_4KB != 0 || phys % PAGE_4KB != 0 {
        return IllegalArgument, picks;
      }
      IndexOfAddress(va);
      var pt, tables, promotions;
      status, pt, tables, promotions, picks := EnsureTables(space.root, va, attributes);
      EnoughPages(old(View()), space.root, Vpn(va), attributes.user, picks);
      if status != Success {
        RollbackMapSetup(tables, promotions);
        return status, picks;
      }
      PathDownKeeps(old(View()), space.root, Vpn(va), attributes.user, picks);
      var index := va / PAGE_4KB % 512;
      if pages[pt][index].present {
        RollbackMapSetup(tables, promotions);
        return InvalidState, picks;
      }
      pages := pages[pt := pages[pt][index := LeafPte(phys / PAGE_4KB, attributes)]];
      return Success, picks;
    }

    // KiWalkImportedRoot.
    method WalkRoot(space: SpaceHandle, va: nat) returns (status: Status, w: PtWalk)
      requires Valid() && (space.initialized ==> IsRoot(View(), space.root))
      ensures status == if !space.initialized then InvalidState
                        else if va % PAGE_4KB != 0 then IllegalArgument else Success
      ensures status == Success ==> WalkOk(pages, space.root, va, w)
    {
      w := PtWalk(Null, Null, Null, Null, Null, ZERO, 0, 0, 0);
      if !space.initialized {
        return InvalidState, w;
      }
      if va % PAGE_4KB != 0 {
        return IllegalArgument, w;
      }
      IndexOfAddress(va);
      assert RootOk(View(), space.root) && EntryOk(View(), space.root, Index(Vpn(va), 4));
      status := Success;
      w := w.(pml4 := Ptr(EntryRef(space.root, va / 0x80_0000_0000 % 512)));
      var e4 := pages[space.root][va / 0x80_0000_0000 % 512];
      if !e4.present {
        return;
      }
      w := w.(pdpt := Ptr(EntryRef(e4.base, va / PAGE_1GB % 512)));
      assert EntryOk(View(), e4.base, Index(Vpn(va), 3));
      var e3 := pages[e4.base][va / PAGE_1GB % 512];
      if !e3.present {
        return;
      }
      if e3.pageSize {
        w := w.(leaf := w.pdpt, leafValue := e3, level := 3, pageSize := PAGE_1GB,
                physBase := FrameOf(e3) * PAGE_4KB / PAGE_1GB * PAGE_1GB + va % PAGE_1GB);
        return;
      }
      w := WalkDirectory(e3.base, va, w);
    }

    // The walk from the page directory on.
    method WalkDirectory(t: nat, va: nat, w0: PtWalk) returns (w: PtWalk)
      requires Valid() && t in shape && shape[t].level == 2 && va % PAGE_4KB == 0 && NoLeafIn(w0)
      ensures w.pml4 == w0.pml4 && w.pdpt == w0.pdpt && w.pd == Ptr(EntryRef(t, Index(Vpn(va), 2)))
      ensures LowerWalkOk(pages, va, w)
    {
      IndexOfAddress(va);
      w := w0.(pd := Ptr(EntryRef(t, va / PAGE_2MB % 512)));
      assert EntryOk(View(), t, Index(Vpn(va), 2));
      var e2 := pages[t][va / PAGE_2MB % 512];
      if !e2.present {
        return;
      }
      if e2.pageSize {
        w := w.(leaf := w.pd, leafValue := e2, level := 2, pageSize := PAGE_2MB,
                physBase := FrameOf(e2) * PAGE_4KB / PAGE_2MB * PAGE_2MB + va % PAGE_2MB);
        return;
      }
      w := w.(pt := Ptr(EntryRef(e2.base, va / PAGE_4KB % 512)));
      var e1 := pages[e2.base][va / PAGE_4KB % 512];
      if !e1.present {
        return;
      }
      w := w.(leaf := w.pt, leafValue := e1, level := 1, pageSize := PAGE_4KB, physBase := FrameOf(e1) * PAGE_4KB);
    }

    // KePtQueryPage.
    method QueryPage(space: SpaceHandle, va: nat) returns (status: Status, mapping: PtMapping)
      requires Valid() && (space.initialized ==> IsRoot(View(), space.root))
      ensures status == if !space.initialized then InvalidState
                        else if va % PAGE_4KB != 0 then IllegalArgument else Success
      ensures status == Success ==>
                var leaf := Translate(View(), space.root, Vpn(va));
                && mapping.present == leaf.Leaf?
                && (leaf.Leaf? ==>
                      && 1 <= leaf.level <= 3
                      && mapping.level == leaf.level && mapping.largeLeaf == (leaf.level > 1)
                      && mapping.pageSize == PAGE_4KB * Span(leaf.level)
                      && mapping.attributes == leaf.pte
                      && mapping.physicalBase == PhysBase(leaf, va))
                && mapping.userAccessible == UserPath(pages, space.root, 4, Vpn(va))
    {
      mapping := PtMapping(false, false, false, 0, 0, 0, ZERO);
      var w;
      status, w := WalkRoot(space, va);
      if status != Success {
        return;
      }
      WalkMeans(View(), space.root, va, w);
      if w.leaf.Null? {
        return;
      }
      mapping := PtMapping(true, w.level > 1, WalkUserAccessible(pages, w), w.level, w.pageSize, w.physBase,
          w.leafValue);
    }

    // KePtUnmapPage.
    method UnmapPage(space: SpaceHandle, va: nat) returns (status: Status)
      requires Valid() && (space.initialized ==> IsRoot(View(), space.root))
      modifies this`pages
      ensures space.initialized ==> (View(), status) == AddressSpace.UnmapPage(old(View()), space.root, va)
      ensures !space.initialized ==> status == InvalidState && View() == old(View())
    {
      var w;
      status, w := WalkRoot(space, va);
      if status != Success {
        return;
      }
      WalkMeans(View(), space.root, va, w);
      if w.leaf.Null? {
        return InvalidState;
      }
      if w.level != 1 {
        return NotSupported;
      }
      var entry := w.leaf.entry;
      pages := pages[entry.table := pages[entry.table][entry.index := ZERO]];
    }

    // KePtProtectPage.
    method ProtectPage(space: SpaceHandle, va: nat, attributes: Pte) returns (status: Status)
      requires Valid() && (space.initialized ==> IsRoot(View(), space.root))
      modifies this`pages
      ensures space.initialized ==>
              (View(), status) == AddressSpace.ProtectPage(old(View()), space.root, va, attributes)
      ensures !space.initialized ==> status == InvalidState && View() == old(View())
    {
      var w;
      status, w := WalkRoot(space, va);
      if status != Success {
        return;
      }
      WalkMeans(View(), space.root, va, w);
      if w.leaf.Null? {
        return InvalidState;
      }
      if w.level != 1 {
        return NotSupported;
      }
      var entry := w.leaf.entry;
      var word := Pte(true, attributes.writable, attributes.user, attributes.writeThrough, attributes.cacheDisable,
                      w.leafValue.accessed, w.leafValue.dirty, false, attributes.global, 0,
                      WithNx(FrameOf(w.leafValue), NoExecute(attributes)));
      pages := pages[entry.table := pages[entry.table][entry.index := word]];
    }

    // A page that has been mapped is found where it was mapped to, with the flags asked for.
    method MapThenQuery(space: SpaceHandle, va: nat, phys: nat, attributes: Pte)
      returns (status: Status, mapping: PtMapping)
      requires Valid() && space.initialized && IsRoot(View(), space.root) && phys < 0x10_0000_0000_0000
      modifies this`pages, this`free, this`shape
      ensures status == Success ==>
                && mapping.present && !mapping.largeLeaf && mapping.level == 1 && mapping.pageSize == PAGE_4KB
                && mapping.physicalBase == phys && mapping.userAccessible == attributes.user
                && mapping.attributes.user == attributes.user && mapping.attributes.writable == attributes.writable
                && NoExecute(mapping.attributes) == NoExecute(attributes)
    {
      mapping := PtMapping(false, false, false, 0, 0, 0, ZERO);
      ghost var s, picks := View(), [];
      status, picks := MapPage(space, va, phys, attributes);
      if status == Success {
        MapState(s, space.root, va, phys, attributes, picks);
        MappedLeaf(s, space.root, va, phys, attributes, picks);
        MapUserPath(s, space.root, va, phys, attributes, picks);
        status, mapping := QueryPage(space, va);
      }
    }

    // KeCreateProcessAddressSpace.
    method CreateProcessAddressSpace() returns (status: Status, space: SpaceHandle, ghost picks: seq<nat>)
      requires Valid()
      modifies this`pages, this`free, this`shape, this`procs
      ensures PicksOk(old(View()), picks) && kernelRoot in old(pages) && (status == Success <==> picks != [])
      ensures (View(), status) == CreateRoot(old(View()), picks) && (status == Success <==> old(free) != {})
      ensures status == Success ==> picks == [space.root] && space.initialized
      ensures status != Success ==> !space.initialized
    {
      assert RootOk(View(), kernelRoot);
      space, picks := SpaceHandle(0, false), [];
      var ok, frame := AllocPage();
      if !ok {
        return OutOfResource, space, picks;
      }
      picks := [frame];
      pages := pages[frame := EmptyTable()];
      assert frame != kernelRoot;
      pages := pages[frame := pages[frame][..256] + pages[kernelRoot][256..]];
      assert pages == old(pages)[frame := PrivateTable(old(pages)[kernelRoot])];
      shape := shape[frame := Node(4, frame, 0, frame, 0)];
      procs := procs + {frame};
      return Success, SpaceHandle(frame, true), picks;
    }

    // KiDestroyOwnedPageTableSubtree: every table below t, and t, is given back exactly once.
    method DestroyOwnedSubtree(t: nat, level: nat, ghost s0: Space)
      requires Inv(s0) && t in s0.shape && s0.shape[t].level == level <= 3
      requires Standing(s0, t, pages, free)
      modifies this`pages, this`free
      ensures pages == old(pages) - Sub(s0, t) && free == old(free) + Sub(s0, t)
      decreases level, 1
    {
      BelowAll(s0, t);
      assert TableOk(s0, t);
      if level > 1 {
        DestroyChildren(t, level, 512, s0);
      }
      FreePage(t);
    }

    // The loop over the entries of one table; of a process root only the low half is visited.
    method DestroyChildren(t: nat, level: nat, count: nat, ghost s0: Space)
      requires Inv(s0) && t in s0.shape && 2 <= s0.shape[t].level == level <= 4
      requires count <= 512 && (t in s0.procs ==> count <= 256) && Standing(s0, t, pages, free)
      modifies this`pages, this`free
      ensures pages == old(pages) - Below(s0, t, count) && free == old(free) + Below(s0, t, count)
      decreases level, 0
    {
      BelowAll(s0, t);
      var idx := 0;
      while idx < count
        invariant idx <= count
        invariant pages == old(pages) - Below(s0, t, idx) && free == old(free) + Below(s0, t, idx)
      {
        var entry := pages[t][idx];
        BelowStep(s0, t, idx);
        assert EntryOk(s0, t, idx);
        if entry.present && !entry.pageSize {
          ChildStanding(s0, t, idx, old(pages), old(free));
          DestroyOwnedSubtree(entry.base, level - 1, s0);
          Without(old(pages), Below(s0, t, idx), Sub(s0, entry.base));
        }
        idx := idx + 1;
      }
    }

    // KeDestroyProcessAddressSpace.
    method DestroyProcessAddressSpace(space: SpaceHandle) returns (status: Status)
      requires Valid() && (space.initialized ==> space.root in procs)
      modifies this`pages, this`free, this`shape, this`procs
      ensures !space.initialized ==> status == InvalidState && View() == old(View())
      ensures space.initialized ==> (View(), status) == DestroyRoot(old(View()), space.root, cr3)
    {
      if !space.initialized {
        return InvalidState;
      }
      if cr3 == space.root {
        return InvalidState;
      }
      var root := space.root;
      ghost var s0 := View();
      RootStanding(s0, root);
      LowBelow(s0, root);
      DestroyChildren(root, 4, 256, s0);
      FreePage(root);
      assert pages == s0.pages - LowOwned(s0, root) && free == s0.free + LowOwned(s0, root);
      shape := shape - Owned(s0, root);
      procs := procs - {root};
      return Success;
    }

    // KeSwitchAddressSpace (CR3 is only a field here).
    method SwitchAddressSpace(root: nat) returns (status: Status)
      modifies this`cr3
      ensures if root == 0 then status == IllegalArgument && cr3 == old(cr3) else status == Success && cr3 == root
    {
      if root == 0 {
        return IllegalArgument;
      }
      cr3 := root;
      return Success;
    }
  }
}

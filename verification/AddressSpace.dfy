/**
 The kernel's page-table operations as all-or-nothing functions on a Space, and what
 any run of them does to the translations of every root and to the free pages.

 The physical allocator is an oracle: `picks` lists the pages it hands out during a
 call, in order, and running out of picks is an allocation failure.
 */
module AddressSpace {
  import opened Paging
  import opened PageTree
  import opened Status

  ghost predicate PicksOk(s: Space, picks: seq<nat>) {
    && (forall k :: 0 <= k < |picks| ==> picks[k] in s.free)
    && (forall j, k :: 0 <= j < k < |picks| ==> picks[j] != picks[k])
  }

  // ---------------------------------------------------------------- descending with table creation

  datatype Descent = Reached(s: Space, table: nat, rest: seq<nat>) | Blocked(s: Space, status: Status)

  // KiEnsureChildTable.
  function EnsureChild(s: Space, t: nat, i: nat, user: bool, picks: seq<nat>): Descent
    requires t in s.pages && t in s.shape && i < 512 && s.shape[t].level >= 2
  {
    var e := s.pages[t][i];
    if !e.present then
      if picks == [] then Blocked(s, OutOfResource)
      else Reached(LinkNew(s, t, i, picks[0], user), picks[0], picks[1..])
    else if e.pageSize then Blocked(s, NotSupported)
    else if user && !e.user then Reached(SetEntry(s, t, i, e.(user := true)), e.base, picks)
    else Reached(s, e.base, picks)
  }

  // s' has the tables of s, possibly more of them under `owner`, and every root translates as before.
  ghost predicate Grown(s: Space, s': Space, owner: nat) {
    && Inv(s')
    && s'.kroot == s.kroot && s'.procs == s.procs
    && MoreTables(s, s')
    && SameOutside(s, s', owner)
    && s'.free + s'.pages.Keys == s.free + s.pages.Keys
    && SameLost(s, s')
    && SameLeaves(s, s')
  }

  ghost predicate MoreTables(s: Space, s': Space) {
    forall x :: x in s.shape ==> x in s'.shape && s'.shape[x] == s.shape[x]
  }

  ghost predicate SameLeaves(s: Space, s': Space) {
    forall q, vpn :: IsRoot(s, q) ==> Translate(s', q, vpn) == Translate(s, q, vpn)
  }

  lemma SameLeavesTransitive(s: Space, s1: Space, s2: Space)
    requires SameLeaves(s, s1) && SameLeaves(s1, s2) && s1.kroot == s.kroot && s1.procs == s.procs
    ensures SameLeaves(s, s2)
  {
    forall q, vpn | IsRoot(s, q) ensures Translate(s2, q, vpn) == Translate(s, q, vpn) {
      assert IsRoot(s1, q);
    }
  }

  // Where a descent for a page may start and which entry it uses first.
  ghost predicate AtTable(s: Space, t: nat, vpn: nat) {
    && t in s.shape && TableOk(s, t)
    && !Shared(s, t, Index(vpn, s.shape[t].level))
    && s.shape[t].prefix == Prefix(vpn, s.shape[t].level)
  }

  lemma LinkNewGrown(s: Space, t: nat, i: nat, f: nat, user: bool)
    requires CanLink(s, t, i, f)
    ensures Grown(s, LinkNew(s, t, i, f, user), s.shape[t].owner)
  {
    var s' := LinkNew(s, t, i, f, user);
    LinkNewKeepsInv(s, t, i, f, user);
    LinkNewStable(s, t, i, f, user);
    LinkNewPages(s, t, i, f, user);
    StableTranslations(s, s');
  }

  lemma LinkNewPages(s: Space, t: nat, i: nat, f: nat, user: bool)
    requires CanLink(s, t, i, f)
    ensures var s' := LinkNew(s, t, i, f, user);
            && MoreTables(s, s') && SameLost(s, s') && SameOutside(s, s', s.shape[t].owner)
            && s'.free + s'.pages.Keys == s.free + s.pages.Keys
  {}

  lemma LinkNewStable(s: Space, t: nat, i: nat, f: nat, user: bool)
    requires CanLink(s, t, i, f)
    ensures Stable(s, LinkNew(s, t, i, f, user))
  {
    forall x, j | x in s.shape && 0 <= j < 512 ensures EntryStable(s, LinkNew(s, t, i, f, user), x, j) {}
  }

  lemma RelinkGrown(s: Space, t: nat, i: nat, e: Pte)
    requires SameLink(s, t, i, e) && IsLink(e, s.shape[t].level)
    ensures Grown(s, SetEntry(s, t, i, e), s.shape[t].owner)
    ensures Stable(s, SetEntry(s, t, i, e))
  {
    var s' := SetEntry(s, t, i, e);
    SetEntryKeepsInv(s, t, i, e);
    assert Stable(s, s') by {
      forall x, j | x in s.shape && 0 <= j < 512 ensures EntryStable(s, s', x, j) {}
    }
    StableTranslations(s, s');
  }

  lemma EnsureChildGrown(s: Space, t: nat, i: nat, user: bool, picks: seq<nat>)
    requires Inv(s) && PicksOk(s, picks) && t in s.shape && s.shape[t].level >= 2 && i < 512 && !Shared(s, t, i)
    ensures var d := EnsureChild(s, t, i, user, picks);
            Grown(s, d.s, s.shape[t].owner) && (d.Blocked? ==> d.s == s)
  {
    var e := s.pages[t][i];
    assert EntryOk(s, t, i);
    if !e.present && picks != [] {
      LinkNewGrown(s, t, i, picks[0], user);
    } else if IsLink(e, s.shape[t].level) && user && !e.user {
      RelinkGrown(s, t, i, e.(user := true));
    }
  }

  // The child a step arrives at: one level down, for the same page, under the same owner, linked from t.
  ghost predicate Arrived(s: Space, d: Descent, t: nat, vpn: nat)
    requires d.Reached? && t in s.shape && 2 <= s.shape[t].level <= 4
  {
    var level := s.shape[t].level;
    && PicksOk(d.s, d.rest)
    && AtTable(d.s, d.table, vpn)
    && d.s.shape[d.table].level == level - 1
    && d.s.shape[d.table].owner == s.shape[t].owner
    && t in d.s.pages
    && IsLink(d.s.pages[t][Index(vpn, level)], level)
    && d.s.pages[t][Index(vpn, level)].base == d.table
  }

  lemma EnsureChildKeeps(s: Space, t: nat, vpn: nat, user: bool, picks: seq<nat>)
    requires Inv(s) && PicksOk(s, picks) && AtTable(s, t, vpn) && s.shape[t].level >= 2
    ensures var d := EnsureChild(s, t, Index(vpn, s.shape[t].level), user, picks);
            && Grown(s, d.s, s.shape[t].owner)
            && (d.Blocked? ==> d.s == s)
            && (d.Reached? ==> Arrived(s, d, t, vpn))
  {
    var level := s.shape[t].level;
    var i := Index(vpn, level);
    var d := EnsureChild(s, t, i, user, picks);
    EnsureChildGrown(s, t, i, user, picks);
    if d.Reached? { EnsureChildArrives(s, t, vpn, user, picks); }
  }

  lemma EnsureChildArrives(s: Space, t: nat, vpn: nat, user: bool, picks: seq<nat>)
    requires Inv(s) && PicksOk(s, picks) && AtTable(s, t, vpn) && s.shape[t].level >= 2
    requires var d := EnsureChild(s, t, Index(vpn, s.shape[t].level), user, picks); d.Reached? && Inv(d.s)
    ensures Arrived(s, EnsureChild(s, t, Index(vpn, s.shape[t].level), user, picks), t, vpn)
  {
    var level := s.shape[t].level;
    var d := EnsureChild(s, t, Index(vpn, level), user, picks);
    assert EntryOk(s, t, Index(vpn, level));
    assert TableOk(d.s, d.table);
    PrefixStep(vpn, level);
  }

  // Make sure of a table of level `stop` for a page, from table t down.
  function Descend(s: Space, t: nat, stop: nat, vpn: nat, user: bool, picks: seq<nat>): Descent
    requires Inv(s) && PicksOk(s, picks) && AtTable(s, t, vpn) && 1 <= stop <= s.shape[t].level
    decreases if t in s.shape then s.shape[t].level else 0
  {
    var level := s.shape[t].level;
    if level == stop then Reached(s, t, picks)
    else
      EnsureChildKeeps(s, t, vpn, user, picks);
      match EnsureChild(s, t, Index(vpn, level), user, picks)
      case Blocked(s1, status) => Blocked(s1, status)
      case Reached(s1, c, rest) => Descend(s1, c, stop, vpn, user, rest)
  }

  lemma GrownTransitive(s: Space, s1: Space, s2: Space, owner: nat)
    requires Grown(s, s1, owner) && Grown(s1, s2, owner)
    ensures Grown(s, s2, owner)
  {
    OutsideTransitive(s, s1, s2, owner);
    SameLeavesTransitive(s, s1, s2);
  }

  lemma {:induction false} DescendKeeps(s: Space, t: nat, stop: nat, vpn: nat, user: bool, picks: seq<nat>)
    requires Inv(s) && PicksOk(s, picks) && AtTable(s, t, vpn) && 1 <= stop <= s.shape[t].level
    ensures var d := Descend(s, t, stop, vpn, user, picks);
            && Grown(s, d.s, s.shape[t].owner)
            && (d.Reached? ==>
                  && PicksOk(d.s, d.rest)
                  && AtTable(d.s, d.table, vpn)
                  && d.s.shape[d.table].level == stop
                  && d.s.shape[d.table].owner == s.shape[t].owner
                  && Reaches(d.s.pages, t, s.shape[t].level, d.table, stop, vpn))
    decreases if t in s.shape then s.shape[t].level else 0
  {
    var level := s.shape[t].level;
    if level > stop {
      EnsureChildKeeps(s, t, vpn, user, picks);
      var i := Index(vpn, level);
      match EnsureChild(s, t, i, user, picks)
      case Blocked(_, _) =>
      case Reached(s1, c, rest) =>
        DescendKeeps(s1, c, stop, vpn, user, rest);
        DescendKeepsEntry(s1, c, stop, vpn, user, rest, t, i);
        GrownTransitive(s, s1, Descend(s1, c, stop, vpn, user, rest).s, s.shape[t].owner);
    }
  }

  // A descent never touches a table of a higher level than the one it starts from.
  lemma {:induction false} DescendKeepsEntry(
      s: Space, t: nat, stop: nat, vpn: nat, user: bool, picks: seq<nat>, x: nat, i: nat)
    requires Inv(s) && PicksOk(s, picks) && AtTable(s, t, vpn) && 1 <= stop <= s.shape[t].level
    requires x in s.shape && s.shape[x].level > s.shape[t].level && i < 512
    ensures var d := Descend(s, t, stop, vpn, user, picks);
            x in d.s.pages && d.s.pages[x][i] == s.pages[x][i]
    decreases if t in s.shape then s.shape[t].level else 0
  {
    if s.shape[t].level > stop {
      EnsureChildKeeps(s, t, vpn, user, picks);
      match EnsureChild(s, t, Index(vpn, s.shape[t].level), user, picks)
      case Blocked(_, _) =>
      case Reached(s1, c, rest) =>
        assert s1.pages[x][i] == s.pages[x][i];
        DescendKeepsEntry(s1, c, stop, vpn, user, rest, x, i);
    }
  }

  // Exactly when a descent gets through: no large leaf in the way, and as many pages as tables are missing. It
  // takes that many from the allocator, or all there are.
  ghost predicate Outcome(s: Space, d: Descent, w: Walk, missing: nat, stop: nat, picks: seq<nat>) {
    match d
    case Blocked(s1, status) =>
      if w.Leaf? then w.level > stop && status == NotSupported
      else status == OutOfResource && |picks| < missing && |s1.free| + |picks| == |s.free|
    case Reached(s1, _, rest) =>
      && (w.Leaf? ==> w.level <= stop)
      && |rest| + missing == |picks| && |s1.free| + missing == |s.free|
  }

  lemma {:induction false} DescendOutcome(s: Space, t: nat, stop: nat, vpn: nat, user: bool, picks: seq<nat>)
    requires Inv(s) && PicksOk(s, picks) && AtTable(s, t, vpn) && 1 <= stop <= s.shape[t].level
    ensures var level := s.shape[t].level;
            Outcome(s, Descend(s, t, stop, vpn, user, picks), Lookup(s.pages, t, level, vpn),
                    Missing(s.pages, t, level, stop, vpn), stop, picks)
    decreases if t in s.shape then s.shape[t].level else 0
  {
    var level := s.shape[t].level;
    if level > stop {
      EnsureChildKeeps(s, t, vpn, user, picks);
      EnsureChildLookup(s, t, vpn, user, picks);
      EnsureChildMissing(s, t, stop, vpn, user, picks);
      match EnsureChild(s, t, Index(vpn, level), user, picks)
      case Blocked(_, _) =>
      case Reached(s1, c, rest) =>
        DescendOutcome(s1, c, stop, vpn, user, rest);
        var missing, missing1 := Missing(s.pages, t, level, stop, vpn), Missing(s1.pages, c, level - 1, stop, vpn);
        OutcomeStep(s, s1, Descend(s1, c, stop, vpn, user, rest), Lookup(s.pages, t, level, vpn),
                    missing, missing1, stop, picks, rest);
    } else {
      LookupLevel(s, t, vpn);
    }
  }

  lemma OutcomeStep(s: Space, s1: Space, d: Descent, w: Walk, missing: nat, missing1: nat, stop: nat,
                    picks: seq<nat>, rest: seq<nat>)
    requires Outcome(s1, d, w, missing1, stop, rest) && missing1 + |picks| == missing + |rest|
    requires |s1.free| + |picks| == |s.free| + |rest|
    ensures Outcome(s, d, w, missing, stop, picks)
  {}

  lemma LookupLevel(s: Space, t: nat, vpn: nat)
    requires t in s.shape && 1 <= s.shape[t].level <= 4
    ensures var w := Lookup(s.pages, t, s.shape[t].level, vpn); w.Leaf? ==> w.level <= s.shape[t].level
  {
    var w := Lookup(s.pages, t, s.shape[t].level, vpn);
    if w.Leaf? { var x := Holder(s.pages, t, s.shape[t].level, vpn); }
  }

  // One step down makes a missing table or none.
  lemma EnsureChildMissing(s: Space, t: nat, stop: nat, vpn: nat, user: bool, picks: seq<nat>)
    requires Inv(s) && PicksOk(s, picks) && AtTable(s, t, vpn) && 1 <= stop < s.shape[t].level
    ensures var level := s.shape[t].level;
            var missing := Missing(s.pages, t, level, stop, vpn);
            match EnsureChild(s, t, Index(vpn, level), user, picks)
            case Blocked(s1, status) => s1 == s && (status == OutOfResource ==> missing > 0 && picks == [])
            case Reached(s1, c, rest) =>
              && Missing(s1.pages, c, level - 1, stop, vpn) + |picks| == missing + |rest|
              && |s1.free| + |picks| == |s.free| + |rest|
  {
    var level := s.shape[t].level;
    var i := Index(vpn, level);
    var e := s.pages[t][i];
    assert EntryOk(s, t, i);
    if IsLink(e, level) {
      assert TableOk(s, e.base);
      RelinkMissing(s, t, i, e.(user := true), e.base, stop, vpn);
    } else if !e.present && picks != [] {
      assert |s.free - {picks[0]}| == |s.free| - 1;
    }
  }

  // One step down sees the same leaf from the child table.
  lemma EnsureChildLookup(s: Space, t: nat, vpn: nat, user: bool, picks: seq<nat>)
    requires Inv(s) && PicksOk(s, picks) && AtTable(s, t, vpn) && s.shape[t].level >= 2
    ensures var level := s.shape[t].level;
            var w := Lookup(s.pages, t, level, vpn);
            match EnsureChild(s, t, Index(vpn, level), user, picks)
            case Blocked(_, status) =>
              || (w.Leaf? && w.level == level && status == NotSupported)
              || (w.NoLeaf? && status == OutOfResource && picks == [])
            case Reached(s1, c, rest) => Lookup(s1.pages, c, level - 1, vpn) == w
  {
    var level := s.shape[t].level;
    var i := Index(vpn, level);
    assert EntryOk(s, t, i);
    if IsLink(s.pages[t][i], level) {
      RelinkStep(s, t, i, user, vpn);
    }
  }

  lemma RelinkStep(s: Space, t: nat, i: nat, user: bool, vpn: nat)
    requires Inv(s) && t in s.shape && i < 512 && IsLink(s.pages[t][i], s.shape[t].level)
    ensures var e := s.pages[t][i];
            && e.base in s.shape && TableOk(s, e.base)
            && Lookup(SetEntry(s, t, i, e.(user := true)).pages, e.base, s.shape[e.base].level, vpn)
            == Lookup(s.pages, e.base, s.shape[e.base].level, vpn)
  {
    var e := s.pages[t][i];
    assert EntryOk(s, t, i);
    RelinkGrown(s, t, i, e.(user := true));
    StableLookup(s, SetEntry(s, t, i, e.(user := true)), e.base, vpn);
  }

  // ---------------------------------------------------------------- one call per level is one descent

  // A descent to level `stop`, then one more step, is the descent to the level below.
  lemma {:induction false} DescendExtend(
      s: Space, t: nat, stop: nat, vpn: nat, user: bool, picks: seq<nat>, p: seq<nat>)
    requires Inv(s) && PicksOk(s, picks) && AtTable(s, t, vpn) && 2 <= stop <= s.shape[t].level && |p| <= 1
    requires var d := Descend(s, t, stop, vpn, user, picks); d.Reached? && d.rest == [] && PicksOk(d.s, p)
    ensures PicksOk(s, picks + p)
    ensures var d := Descend(s, t, stop, vpn, user, picks);
            && d.table in d.s.shape && d.table in d.s.pages && d.s.shape[d.table].level == stop
            && Descend(s, t, stop - 1, vpn, user, picks + p)
            == EnsureChild(d.s, d.table, Index(vpn, stop), user, p)
    decreases if t in s.shape then s.shape[t].level else 0
  {
    var level := s.shape[t].level;
    if level == stop {
      assert picks + p == p;
      EnsureChildKeeps(s, t, vpn, user, p);
    } else {
      EnsureChildKeeps(s, t, vpn, user, picks);
      var d := EnsureChild(s, t, Index(vpn, level), user, picks);
      DescendExtend(d.s, d.table, stop, vpn, user, d.rest, p);
      PicksLater(s, t, vpn, user, picks, p);
    }
  }

  // The pages a later step is given were already free and unused before an earlier one.
  lemma PicksLater(s: Space, t: nat, vpn: nat, user: bool, picks: seq<nat>, p: seq<nat>)
    requires Inv(s) && PicksOk(s, picks) && AtTable(s, t, vpn) && s.shape[t].level >= 2
    requires var d := EnsureChild(s, t, Index(vpn, s.shape[t].level), user, picks);
             d.Reached? && PicksOk(d.s, d.rest + p)
    ensures PicksOk(s, picks + p)
    ensures var d := EnsureChild(s, t, Index(vpn, s.shape[t].level), user, picks);
            EnsureChild(s, t, Index(vpn, s.shape[t].level), user, picks + p) == Reached(d.s, d.table, d.rest + p)
  {
    var d := EnsureChild(s, t, Index(vpn, s.shape[t].level), user, picks);
    if !s.pages[t][Index(vpn, s.shape[t].level)].present {
      assert (picks + p)[1..] == d.rest + p;
      assert d.s.free == s.free - {picks[0]};
    }
  }

  // A descent blocked on the way to level `stop` is blocked on the way to any lower level.
  lemma {:induction false} DescendCut(s: Space, t: nat, stop: nat, to: nat, vpn: nat, user: bool, picks: seq<nat>)
    requires Inv(s) && PicksOk(s, picks) && AtTable(s, t, vpn) && 1 <= to <= stop <= s.shape[t].level
    requires Descend(s, t, stop, vpn, user, picks).Blocked?
    ensures Descend(s, t, to, vpn, user, picks) == Descend(s, t, stop, vpn, user, picks)
    decreases if t in s.shape then s.shape[t].level else 0
  {
    if s.shape[t].level > stop {
      EnsureChildKeeps(s, t, vpn, user, picks);
      match EnsureChild(s, t, Index(vpn, s.shape[t].level), user, picks)
      case Blocked(_, _) =>
      case Reached(s1, c, rest) => DescendCut(s1, c, stop, to, vpn, user, rest);
    }
  }

  lemma DescendArrives(s: Space, t: nat, stop: nat, vpn: nat, user: bool, picks: seq<nat>)
    requires Inv(s) && PicksOk(s, picks) && AtTable(s, t, vpn) && 1 <= stop <= s.shape[t].level
    requires Descend(s, t, stop, vpn, user, picks).Reached?
    ensures var d := Descend(s, t, stop, vpn, user, picks);
            Inv(d.s) && AtTable(d.s, d.table, vpn) && d.s.shape[d.table].level == stop
  {
    DescendKeeps(s, t, stop, vpn, user, picks);
  }

  // The descent for a page from `root` of s0 has come to table t of state cur.
  ghost predicate At(s0: Space, root: nat, vpn: nat, user: bool, picks: seq<nat>, cur: Space, t: nat, level: nat) {
    && Inv(s0) && AtTable(s0, root, vpn) && 1 <= level <= s0.shape[root].level && PicksOk(s0, picks)
    && Descend(s0, root, level, vpn, user, picks) == Reached(cur, t, [])
  }

  // ---------------------------------------------------------------- map, unmap, protect, query

  // The page's path through this root is the root's own: the kernel root anywhere, a process root wherever its
  // entry does not lead into tables of the kernel.
  ghost predicate Addressable(s: Space, root: nat, vpn: nat) {
    vpn < VPN_LIMIT && IsRoot(s, root) && !Shared(s, root, Index(vpn, 4))
  }

  // The page's path through this process root leads into tables of the kernel. Every path is one or the other.
  ghost predicate Borrowed(s: Space, root: nat, vpn: nat) {
    vpn < VPN_LIMIT && Shared(s, root, Index(vpn, 4))
  }

  // The owner of the tables below the root on the page's path.
  ghost function Home(s: Space, root: nat, vpn: nat): nat
    requires vpn < VPN_LIMIT
  {
    if Shared(s, root, Index(vpn, 4)) then s.kroot else root
  }

  lemma RootAt(s: Space, root: nat, vpn: nat)
    requires Inv(s) && Addressable(s, root, vpn)
    ensures AtTable(s, root, vpn) && s.shape[root] == Node(4, root, 0, root, 0)
  {
    assert RootOk(s, root) && TableOk(s, root);
  }

  // The table a borrowed path leads to is the kernel's.
  lemma BorrowedChild(s: Space, root: nat, vpn: nat)
    requires Inv(s) && Borrowed(s, root, vpn)
    ensures RootOk(s, root)
    ensures var c := s.pages[root][Index(vpn, 4)].base;
            && c in s.shape && AtTable(s, c, vpn) && s.shape[c].level == 3 && s.shape[c].owner == s.kroot && c != root
            && Lookup(s.pages, c, 3, vpn) == Translate(s, root, vpn)
  {
    var i := Index(vpn, 4);
    assert RootOk(s, root) && RootOk(s, s.kroot) && EntryOk(s, root, i);
    assert TableOk(s, s.pages[root][i].base);
    PrefixStep(vpn, 4);
  }

  lemma SetSame(s: Space, t: nat, i: nat)
    requires t in s.pages && i < 512
    ensures SetEntry(s, t, i, s.pages[t][i]) == s
  {
    assert s.pages[t][i := s.pages[t][i]] == s.pages[t];
  }

  // The first step of a borrowed path: at most PTE_USER on the root's own copy of the kernel's entry.
  lemma BorrowedStep(s: Space, root: nat, vpn: nat, user: bool, picks: seq<nat>)
    requires Inv(s) && PicksOk(s, picks) && Borrowed(s, root, vpn)
    ensures RootOk(s, root)
    ensures var i := Index(vpn, 4);
            var d := EnsureChild(s, root, i, user, picks);
            && d.Reached? && d.rest == picks && PicksOk(d.s, picks) && d.table == s.pages[root][i].base
            && Grown(s, d.s, root) && d.s.free == s.free && d.s.shape == s.shape
            && d.s == SetEntry(s, root, i, d.s.pages[root][i]) && IsLink(d.s.pages[root][i], 4)
            && d.s.pages[root][i].base == d.table
            && AtTable(d.s, d.table, vpn) && d.s.shape[d.table].level == 3 && d.s.shape[d.table].owner == s.kroot
            && Lookup(d.s.pages, d.table, 3, vpn) == Translate(s, root, vpn)
            && Missing(d.s.pages, d.table, 3, 1, vpn) == Missing(s.pages, root, 4, 1, vpn)
  {
    var i := Index(vpn, 4);
    BorrowedChild(s, root, vpn);
    SetSame(s, root, i);
    var d := EnsureChild(s, root, i, user, picks);
    assert EntryOk(s, root, i);
    RelinkGrown(s, root, i, d.s.pages[root][i]);
    RelinkMissing(s, root, i, d.s.pages[root][i], d.table, 1, vpn);
    assert Borrowed(d.s, root, vpn);
    BorrowedChild(d.s, root, vpn);
    assert Translate(d.s, root, vpn) == Translate(s, root, vpn);
  }

  // KePtMapPage's way down to a level-1 table, through a private or a borrowed path.
  function PathDown(s: Space, root: nat, vpn: nat, user: bool, picks: seq<nat>): Descent
    requires Inv(s) && PicksOk(s, picks) && IsRoot(s, root) && vpn < VPN_LIMIT
  {
    if Shared(s, root, Index(vpn, 4)) then
      BorrowedStep(s, root, vpn, user, picks);
      var d := EnsureChild(s, root, Index(vpn, 4), user, picks);
      Descend(d.s, d.table, 1, vpn, user, d.rest)
    else
      RootAt(s, root, vpn);
      Descend(s, root, 1, vpn, user, picks)
  }

  lemma PathDownKeeps(s: Space, root: nat, vpn: nat, user: bool, picks: seq<nat>)
    requires Inv(s) && PicksOk(s, picks) && IsRoot(s, root) && vpn < VPN_LIMIT
    ensures var d := PathDown(s, root, vpn, user, picks);
            d.Reached? ==> d.table in d.s.pages && d.table in d.s.shape && Reaches(d.s.pages, root, 4, d.table, 1, vpn)
  {
    if Shared(s, root, Index(vpn, 4)) {
      BorrowedStep(s, root, vpn, user, picks);
      var d := EnsureChild(s, root, Index(vpn, 4), user, picks);
      DescendKeeps(d.s, d.table, 1, vpn, user, d.rest);
      DescendKeepsEntry(d.s, d.table, 1, vpn, user, d.rest, root, Index(vpn, 4));
    } else {
      RootAt(s, root, vpn);
      DescendKeeps(s, root, 1, vpn, user, picks);
    }
  }

  // KePtMapPage.
  function MapPage(s: Space, root: nat, va: nat, phys: nat, attributes: Pte, picks: seq<nat>): (Space, Status)
    requires Inv(s) && PicksOk(s, picks) && IsRoot(s, root)
  {
    if va % PAGE_4KB != 0 || phys % PAGE_4KB != 0 then (s, IllegalArgument)
    else
      var vpn := Vpn(va);
      PathDownKeeps(s, root, vpn, attributes.user, picks);
      match PathDown(s, root, vpn, attributes.user, picks)
      case Blocked(_, status) => (s, status)
      case Reached(s1, pt, _) =>
        if s1.pages[pt][Index(vpn, 1)].present then (s, InvalidState)
        else (SetEntry(s1, pt, Index(vpn, 1), LeafPte(phys / PAGE_4KB, attributes)), Success)
  }

  // The new value of a 4KB leaf, when the page has one.
  function ChangeLeaf(s: Space, root: nat, va: nat, change: Pte -> Pte): (Space, Status)
    requires Inv(s) && IsRoot(s, root)
  {
    if va % PAGE_4KB != 0 then (s, IllegalArgument)
    else
      var w := Translate(s, root, Vpn(va));
      if w.NoLeaf? then (s, InvalidState)
      else if w.level != 1 then (s, NotSupported)
      else (SetEntry(s, Holder(s.pages, root, 4, Vpn(va)), Index(Vpn(va), 1), change(w.pte)), Success)
  }

  // KePtUnmapPage.
  function UnmapPage(s: Space, root: nat, va: nat): (Space, Status)
    requires Inv(s) && IsRoot(s, root)
  {
    ChangeLeaf(s, root, va, _ => ZERO)
  }

  // What KePtProtectPage keeps of the old leaf: physical page, accessed and dirty.
  function Protected(leaf: Pte, attributes: Pte): Pte {
    LeafPte(FrameOf(leaf), attributes).(accessed := leaf.accessed, dirty := leaf.dirty)
  }

  // KePtProtectPage.
  function ProtectPage(s: Space, root: nat, va: nat, attributes: Pte): (Space, Status)
    requires Inv(s) && IsRoot(s, root)
  {
    ChangeLeaf(s, root, va, leaf => Protected(leaf, attributes))
  }

  // ---------------------------------------------------------------- what one call changes

  // Only this page of the root that owns its tables and, when that is the kernel root, of the roots that share them.
  ghost predicate OnlyPage(s: Space, s': Space, home: nat, vpn: nat) {
    forall q: nat, v: nat {:trigger Translate(s', q, v)} {:trigger Translate(s, q, v)} ::
      IsRoot(s, q) && v < VPN_LIMIT && (v != vpn || (q != home && home != s.kroot)) ==>
        Translate(s', q, v) == Translate(s, q, v)
  }

  lemma WriteLeaf(s: Space, root: nat, pt: nat, e: Pte, vpn: nat)
    requires Inv(s) && IsRoot(s, root) && vpn < VPN_LIMIT && Reaches(s.pages, root, 4, pt, 1, vpn)
    ensures pt in s.shape
    ensures var s' := SetEntry(s, pt, Index(vpn, 1), e);
            && Inv(s') && SameLost(s, s') && Home(s', root, vpn) == Home(s, root, vpn)
            && SameOutside(s, s', Home(s, root, vpn))
            && Translate(s', root, vpn) == (if e.present then Leaf(1, e) else NoLeaf)
            && OnlyPage(s, s', Home(s, root, vpn), vpn)
  {
    assert RootOk(s, root) && TableOk(s, root);
    RootPrefix(vpn);
    ReachedTable(s, root, pt, 1, vpn);
    var i, home := Index(vpn, 1), Home(s, root, vpn);
    SetEntryKeepsInv(s, pt, i, e);
    SetEntryHere(s, root, pt, 1, e, vpn);
    var s' := SetEntry(s, pt, i, e);
    forall q: nat, v: nat | IsRoot(s, q) && v < VPN_LIMIT && (v != vpn || (q != home && home != s.kroot))
      ensures Translate(s', q, v) == Translate(s, q, v)
    {
      assert RootOk(s, q) && TableOk(s, q);
      if v != vpn {
        WriteElsewhere(s, pt, e, vpn, q, v);
      } else {
        LookupOutside(s, s', home, q, v);
      }
    }
  }

  lemma WriteElsewhere(s: Space, pt: nat, e: Pte, vpn: nat, q: nat, v: nat)
    requires Inv(s) && pt in s.shape && s.shape[pt].level == 1 && s.shape[pt].prefix == Prefix(vpn, 1)
    requires RootOk(s, q) && vpn < VPN_LIMIT && v < VPN_LIMIT && v != vpn
    ensures Translate(SetEntry(s, pt, Index(vpn, 1), e), q, v) == Translate(s, q, v)
  {
    VpnFromPrefix(v);
    VpnFromPrefix(vpn);
    RootPrefix(v);
    assert TableOk(s, pt) && TableOk(s, q);
    SetEntryElsewhere(s, pt, Index(vpn, 1), e, q, v);
  }

  // What a call through this root leaves alone: the tables of every other owner, and of its own root table all
  // but PTE_USER on the entry of a borrowed path.
  ghost predicate LeavesAlone(s: Space, s': Space, root: nat, vpn: nat)
    requires vpn < VPN_LIMIT
  {
    if Shared(s, root, Index(vpn, 4)) then
      var i := Index(vpn, 4);
      && root in s.pages && root in s'.pages
      && s'.pages[root][i] in {s.pages[root][i], s.pages[root][i].(user := true)}
      && SameOutside(SetEntry(s, root, i, s'.pages[root][i]), s', s.kroot)
    else SameOutside(s, s', root)
  }

  // The page now has this leaf, or none; every other translation, the tables of other owners and the pages
  // in use are as before.
  ghost predicate LeafSet(s: Space, s': Space, root: nat, vpn: nat, leaf: Walk)
    requires vpn < VPN_LIMIT
  {
    && Inv(s') && s'.kroot == s.kroot && s'.procs == s.procs
    && s'.free + s'.pages.Keys == s.free + s.pages.Keys && SameLost(s, s') && MoreTables(s, s')
    && Home(s', root, vpn) == Home(s, root, vpn)
    && LeavesAlone(s, s', root, vpn)
    && OnlyPage(s, s', Home(s, root, vpn), vpn)
    && Translate(s', root, vpn) == leaf
  }

  // Kernel tables look the same through every root that shares them, before a call and after.
  lemma SharedAlike(s: Space, root: nat, vpn: nat)
    requires Inv(s) && Borrowed(s, root, vpn)
    ensures Translate(s, root, vpn) == Translate(s, s.kroot, vpn)
  {
    var i := Index(vpn, 4);
    assert RootOk(s, root) && RootOk(s, s.kroot) && EntryOk(s, root, i);
    var c := s.pages[root][i].base;
    assert TableOk(s, c);
  }

  // A call through one of them is seen through all of them.
  lemma SeenByAll(s: Space, s': Space, root: nat, vpn: nat, leaf: Walk, q: nat)
    requires Inv(s) && Borrowed(s, root, vpn) && LeafSet(s, s', root, vpn, leaf)
    requires q == s'.kroot || Borrowed(s', q, vpn)
    ensures Translate(s', q, vpn) == leaf
  {
    assert RootOk(s, root) && RootOk(s', root) && EntryOk(s', root, Index(vpn, 4));
    SharedAlike(s', root, vpn);
    if q != s'.kroot { SharedAlike(s', q, vpn); }
  }

  lemma MapWrites(s: Space, s1: Space, root: nat, pt: nat, e: Pte, vpn: nat)
    requires Inv(s) && Addressable(s, root, vpn) && Grown(s, s1, root) && Reaches(s1.pages, root, 4, pt, 1, vpn)
    requires pt in s1.shape && s1.shape[pt].owner == root && e.present
    ensures pt in s1.pages && LeafSet(s, SetEntry(s1, pt, Index(vpn, 1), e), root, vpn, Leaf(1, e))
  {
    WriteLeaf(s1, root, pt, e, vpn);
    var s' := SetEntry(s1, pt, Index(vpn, 1), e);
    PathOwner(s1, root, pt, vpn);
    ThenOnePage(s, s1, s', root, vpn);
    OutsideTransitive(s, s1, s', root);
  }

  // The table a page's path ends in belongs to the owner of the path.
  lemma PathOwner(s: Space, root: nat, pt: nat, vpn: nat)
    requires Inv(s) && IsRoot(s, root) && vpn < VPN_LIMIT && Reaches(s.pages, root, 4, pt, 1, vpn)
    ensures pt in s.shape && pt != root && s.shape[pt].owner == Home(s, root, vpn)
  {
    assert RootOk(s, root) && TableOk(s, root) && RootOk(s, s.kroot);
    RootPrefix(vpn);
    ReachedTable(s, root, pt, 1, vpn);
  }

  lemma ThenOnePage(s: Space, s1: Space, s2: Space, home: nat, vpn: nat)
    requires SameLeaves(s, s1) && s1.kroot == s.kroot && s1.procs == s.procs && OnlyPage(s1, s2, home, vpn)
    ensures OnlyPage(s, s2, home, vpn)
  {
    forall q: nat, v: nat | IsRoot(s, q) && v < VPN_LIMIT && (v != vpn || (q != home && home != s.kroot))
      ensures Translate(s2, q, v) == Translate(s, q, v)
    {
      assert IsRoot(s1, q) && Translate(s1, q, v) == Translate(s, q, v);
    }
  }

  lemma StillShared(s: Space, s1: Space, s2: Space, root: nat, i: nat)
    requires Shared(s, root, i) && MoreTables(s, s1) && MoreTables(s1, s2) && s2.procs == s.procs
    requires root in s1.pages && s1.pages[root][i] in {s.pages[root][i], s.pages[root][i].(user := true)}
    requires root in s2.pages && s2.pages[root] == s1.pages[root]
    ensures Shared(s1, root, i) || s1.procs != s.procs
    ensures Shared(s2, root, i)
  {}

  lemma BorrowedWrites(s: Space, s1: Space, s2: Space, root: nat, pt: nat, e: Pte, vpn: nat)
    requires Inv(s) && Borrowed(s, root, vpn) && e.present
    requires root in s.pages && root in s1.pages
    requires Grown(s, s1, root) && s1 == SetEntry(s, root, Index(vpn, 4), s1.pages[root][Index(vpn, 4)])
    requires var e := s.pages[root][Index(vpn, 4)]; s1.pages[root][Index(vpn, 4)] in {e, e.(user := true)}
    requires Grown(s1, s2, s.kroot) && Reaches(s2.pages, root, 4, pt, 1, vpn)
    requires root in s2.pages && s2.pages[root] == s1.pages[root]
    ensures pt in s2.pages && LeafSet(s, SetEntry(s2, pt, Index(vpn, 1), e), root, vpn, Leaf(1, e))
  {
    assert RootOk(s, root) && RootOk(s2, root);
    StillShared(s, s1, s2, root, Index(vpn, 4));
    PathOwner(s2, root, pt, vpn);
    WriteLeaf(s2, root, pt, e, vpn);
    BorrowedAlone(s, s1, s2, SetEntry(s2, pt, Index(vpn, 1), e), root, pt, e, vpn);
    SameLeavesTransitive(s, s1, s2);
    BorrowedFinish(s, s2, root, pt, e, vpn);
  }

  lemma BorrowedFinish(s: Space, s2: Space, root: nat, pt: nat, e: Pte, vpn: nat)
    requires IsRoot(s, root) && vpn < VPN_LIMIT && Borrowed(s, root, vpn) && Borrowed(s2, root, vpn) && e.present
    requires SameLeaves(s, s2) && MoreTables(s, s2) && SameLost(s, s2) && s2.kroot == s.kroot && s2.procs == s.procs
    requires s2.free + s2.pages.Keys == s.free + s.pages.Keys && pt in s2.pages && pt in s2.shape
    requires var s' := SetEntry(s2, pt, Index(vpn, 1), e);
             && Inv(s') && Home(s', root, vpn) == s.kroot && LeavesAlone(s, s', root, vpn)
             && OnlyPage(s2, s', s.kroot, vpn) && Translate(s', root, vpn) == Leaf(1, e)
    ensures LeafSet(s, SetEntry(s2, pt, Index(vpn, 1), e), root, vpn, Leaf(1, e))
  {
    ThenOnePage(s, s2, SetEntry(s2, pt, Index(vpn, 1), e), s.kroot, vpn);
  }

  lemma BorrowedAlone(s: Space, s1: Space, s2: Space, s': Space, root: nat, pt: nat, e: Pte, vpn: nat)
    requires vpn < VPN_LIMIT && Borrowed(s, root, vpn) && root in s.pages && root in s1.pages && root in s2.pages
    requires s1 == SetEntry(s, root, Index(vpn, 4), s1.pages[root][Index(vpn, 4)]) && s2.pages[root] == s1.pages[root]
    requires var e := s.pages[root][Index(vpn, 4)]; s1.pages[root][Index(vpn, 4)] in {e, e.(user := true)}
    requires SameOutside(s1, s2, s.kroot) && SameOutside(s2, s', s.kroot)
    requires pt in s2.pages && pt != root && s' == SetEntry(s2, pt, Index(vpn, 1), e)
    ensures LeavesAlone(s, s', root, vpn)
  {
    OutsideTransitive(s1, s2, s', s.kroot);
  }

  // The tables a descent makes are those of the page's path.
  lemma {:induction false} DescendNew(s: Space, t: nat, stop: nat, vpn: nat, user: bool, picks: seq<nat>, x: nat)
    requires Inv(s) && PicksOk(s, picks) && AtTable(s, t, vpn) && 1 <= stop <= s.shape[t].level
    requires x !in s.shape && x in Descend(s, t, stop, vpn, user, picks).s.shape
    ensures var n := Descend(s, t, stop, vpn, user, picks).s.shape[x];
            n.owner == s.shape[t].owner && 1 <= n.level < 4 && n.prefix == Prefix(vpn, n.level)
    decreases if t in s.shape then s.shape[t].level else 0
  {
    var level := s.shape[t].level;
    if level > stop {
      EnsureChildKeeps(s, t, vpn, user, picks);
      match EnsureChild(s, t, Index(vpn, level), user, picks)
      case Blocked(_, _) =>
      case Reached(s1, c, rest) =>
        if x in s1.shape {
          DescendKeeps(s1, c, stop, vpn, user, rest);
          NewChild(s, t, vpn, user, picks, x);
        } else {
          DescendNew(s1, c, stop, vpn, user, rest, x);
        }
    }
  }

  lemma NewChild(s: Space, t: nat, vpn: nat, user: bool, picks: seq<nat>, x: nat)
    requires Inv(s) && PicksOk(s, picks) && AtTable(s, t, vpn) && s.shape[t].level >= 2
    requires x !in s.shape && x in EnsureChild(s, t, Index(vpn, s.shape[t].level), user, picks).s.shape
    ensures var n := EnsureChild(s, t, Index(vpn, s.shape[t].level), user, picks).s.shape[x];
            n.owner == s.shape[t].owner && 1 <= n.level < 4 && n.prefix == Prefix(vpn, n.level)
  {
    PrefixStep(vpn, s.shape[t].level);
  }

  // Those a map call makes belong to the owner of the path.
  lemma MapNew(s: Space, root: nat, va: nat, phys: nat, attributes: Pte, picks: seq<nat>, x: nat)
    requires Inv(s) && PicksOk(s, picks) && IsRoot(s, root)
    requires x !in s.shape && x in MapPage(s, root, va, phys, attributes, picks).0.shape
    ensures var n := MapPage(s, root, va, phys, attributes, picks).0.shape[x];
            n.owner == Home(s, root, Vpn(va)) && 1 <= n.level < 4 && n.prefix == Prefix(Vpn(va), n.level)
  {
    var vpn := Vpn(va);
    if Shared(s, root, Index(vpn, 4)) {
      BorrowedStep(s, root, vpn, attributes.user, picks);
      var d := EnsureChild(s, root, Index(vpn, 4), attributes.user, picks);
      DescendNew(d.s, d.table, 1, vpn, attributes.user, picks, x);
    } else {
      RootAt(s, root, vpn);
      DescendNew(s, root, 1, vpn, attributes.user, picks, x);
    }
  }

  // A table is below the high half exactly when its pages are in the high half.
  lemma HighPath(vpn: nat, n: Node)
    requires 1 <= n.level < 4 && n.prefix == Prefix(vpn, n.level) && vpn < VPN_LIMIT
    ensures High(n) <==> Index(vpn, 4) >= 256
  {
    if n.level == 1 {
      assert vpn / 512 / 0x4_0000 == vpn / 0x800_0000;
    } else if n.level == 2 {
      assert vpn / 0x4_0000 / 512 == vpn / 0x800_0000;
    }
    assert vpn / 0x800_0000 < 512;
  }

  // What the descent of a map call comes to.
  ghost predicate DescentMeans(s: Space, root: nat, vpn: nat, d: Descent, picks: seq<nat>, e: Pte)
    requires vpn < VPN_LIMIT
  {
    var w := Translate(s, root, vpn);
    match d
    case Blocked(s1, status) =>
      if w.Leaf? then w.level > 1 && status == NotSupported
      else status == OutOfResource && |picks| < Missing(s.pages, root, 4, 1, vpn) && |s1.free| + |picks| == |s.free|
    case Reached(s1, pt, _) =>
      && pt in s1.pages
      && Missing(s.pages, root, 4, 1, vpn) <= |picks| && |s1.free| + Missing(s.pages, root, 4, 1, vpn) == |s.free|
      && (if s1.pages[pt][Index(vpn, 1)].present then w.Leaf? && w.level == 1 else w.NoLeaf?)
      && LeafSet(s, SetEntry(s1, pt, Index(vpn, 1), e), root, vpn, Leaf(1, e))
  }

  lemma PathMeans(s: Space, root: nat, vpn: nat, user: bool, picks: seq<nat>, e: Pte)
    requires Inv(s) && PicksOk(s, picks) && IsRoot(s, root) && vpn < VPN_LIMIT && e.present
    ensures DescentMeans(s, root, vpn, PathDown(s, root, vpn, user, picks), picks, e)
  {
    if Shared(s, root, Index(vpn, 4)) {
      BorrowedDescent(s, root, vpn, user, picks, e);
    } else {
      MapDescent(s, root, vpn, user, picks, e);
    }
  }

  lemma MapDescent(s: Space, root: nat, vpn: nat, user: bool, picks: seq<nat>, e: Pte)
    requires Inv(s) && PicksOk(s, picks) && Addressable(s, root, vpn) && e.present
    ensures DescentMeans(s, root, vpn, PathDown(s, root, vpn, user, picks), picks, e)
  {
    RootAt(s, root, vpn);
    DescendKeeps(s, root, 1, vpn, user, picks);
    DescendOutcome(s, root, 1, vpn, user, picks);
    match Descend(s, root, 1, vpn, user, picks)
    case Blocked(_, _) =>
    case Reached(s1, pt, _) =>
      ReachesLookup(s1, root, pt, 1, vpn);
      assert Translate(s1, root, vpn) == Translate(s, root, vpn);
      MapWrites(s, s1, root, pt, e, vpn);
  }

  lemma BorrowedDescent(s: Space, root: nat, vpn: nat, user: bool, picks: seq<nat>, e: Pte)
    requires Inv(s) && PicksOk(s, picks) && Borrowed(s, root, vpn) && e.present
    ensures DescentMeans(s, root, vpn, PathDown(s, root, vpn, user, picks), picks, e)
  {
    BorrowedStep(s, root, vpn, user, picks);
    PathDownKeeps(s, root, vpn, user, picks);
    var d := EnsureChild(s, root, Index(vpn, 4), user, picks);
    DescendKeeps(d.s, d.table, 1, vpn, user, picks);
    DescendOutcome(d.s, d.table, 1, vpn, user, picks);
    match Descend(d.s, d.table, 1, vpn, user, picks)
    case Blocked(_, _) =>
    case Reached(s2, pt, _) =>
      assert RootOk(s2, root) && TableOk(s2, root);
      ReachesLookup(s2, root, pt, 1, vpn);
      assert Translate(s2, root, vpn) == Translate(s, root, vpn);
      BorrowedWrites(s, d.s, s2, root, pt, e, vpn);
  }

  // KePtMapPage changes exactly one page, or nothing, and its status says exactly which.
  lemma MapPageCorrect(s: Space, root: nat, va: nat, phys: nat, attributes: Pte, picks: seq<nat>)
    requires Inv(s) && PicksOk(s, picks) && IsRoot(s, root)
    ensures var (s', status) := MapPage(s, root, va, phys, attributes, picks);
            && (status != Success ==> s' == s)
            && (status == Success ==>
                  LeafSet(s, s', root, Vpn(va), Leaf(1, LeafPte(phys / PAGE_4KB, attributes))))
            && (status == IllegalArgument <==> va % PAGE_4KB != 0 || phys % PAGE_4KB != 0)
            && (status != IllegalArgument ==>
                  var w, missing := Translate(s, root, Vpn(va)), Missing(s.pages, root, 4, 1, Vpn(va));
                  && (status == InvalidState <==> w.Leaf? && w.level == 1)
                  && (status == NotSupported <==> w.Leaf? && w.level > 1)
                  && (status == OutOfResource <==> w.NoLeaf? && |picks| < missing)
                  && (status == Success <==> w.NoLeaf? && |picks| >= missing)
                  && (status == Success ==> |s'.free| + missing == |s.free|))
  {
    if va % PAGE_4KB == 0 && phys % PAGE_4KB == 0 {
      PathMeans(s, root, Vpn(va), attributes.user, picks, LeafPte(phys / PAGE_4KB, attributes));
    }
  }

  lemma {:induction false} ReachesLookup(s: Space, t: nat, x: nat, stop: nat, vpn: nat)
    requires Inv(s) && t in s.shape && TableOk(s, t) && 1 <= stop <= s.shape[t].level
    requires Reaches(s.pages, t, s.shape[t].level, x, stop, vpn)
    ensures x in s.pages && Lookup(s.pages, t, s.shape[t].level, vpn) == Lookup(s.pages, x, stop, vpn)
    decreases s.shape[t].level
  {
    var level := s.shape[t].level;
    if level > stop {
      assert EntryOk(s, t, Index(vpn, level));
      assert TableOk(s, s.pages[t][Index(vpn, level)].base);
      ReachesLookup(s, s.pages[t][Index(vpn, level)].base, x, stop, vpn);
    }
  }

  // KePtUnmapPage and KePtProtectPage, through any root.
  lemma ChangeLeafCorrect(s: Space, root: nat, va: nat, change: Pte -> Pte)
    requires Inv(s) && IsRoot(s, root)
    ensures var (s', status) := ChangeLeaf(s, root, va, change);
            var w := Translate(s, root, Vpn(va));
            && (status == Success <==> va % PAGE_4KB == 0 && w.Leaf? && w.level == 1)
            && (status != Success ==> s' == s)
            && (status == Success ==>
                  && s'.free == s.free && s'.shape == s.shape
                  && LeafSet(s, s', root, Vpn(va), if change(w.pte).present then Leaf(1, change(w.pte)) else NoLeaf))
  {
    var vpn := Vpn(va);
    assert RootOk(s, root) && TableOk(s, root);
    var w := Translate(s, root, vpn);
    if va % PAGE_4KB == 0 && w.Leaf? && w.level == 1 {
      HolderReached(s, root, vpn);
      var pt := Holder(s.pages, root, 4, vpn);
      WriteLeaf(s, root, pt, change(w.pte), vpn);
      ReachedBelow(s, root, pt, vpn);
      SetSame(s, root, Index(vpn, 4));
    }
  }

  lemma ReachedBelow(s: Space, root: nat, pt: nat, vpn: nat)
    requires Inv(s) && RootOk(s, root) && Reaches(s.pages, root, 4, pt, 1, vpn) && vpn < VPN_LIMIT
    ensures pt in s.shape && pt != root
  {
    assert TableOk(s, root);
    RootPrefix(vpn);
    ReachedTable(s, root, pt, 1, vpn);
  }
}

/**
 The heap of page tables behind the kernel root and any number of process roots.

 `pages` holds the 512 words of every table in use, `free` the pages the physical
 allocator may still hand out.  `shape` is proof bookkeeping: for every table its
 level, the root that owns it, the range of pages it serves, and the one entry
 that points to it.  Every condition of the invariant is local to one entry or one
 table, so each primitive change is checked where it happens.
 */
module PageTree {
  import opened Paging

  type Table = t: seq<Pte> | |t| == 512 witness seq(512, _ => ZERO)

  function EmptyTable(): (t: Table)
    ensures forall i :: 0 <= i < 512 ==> t[i] == ZERO
  {
    seq(512, _ => ZERO)
  }

  datatype Node = Node(level: nat, owner: nat, prefix: nat, parent: nat, slot: nat)

  datatype Space = Space(
    pages: map<nat, Table>, free: set<nat>, shape: map<nat, Node>,
    kroot: nat, procs: set<nat>)

  // ---------------------------------------------------------------- translation

  datatype Walk = NoLeaf | Leaf(level: nat, pte: Pte)

  // The leaf that the tables select for a page, searching from table t at the given level.
  function Lookup(pages: map<nat, Table>, t: nat, level: nat, vpn: nat): Walk
    requires 1 <= level <= 4
    decreases level
  {
    if t !in pages then NoLeaf
    else
      var e := pages[t][Index(vpn, level)];
      if !e.present then NoLeaf
      else if level == 1 || (e.pageSize && level <= 3) then Leaf(level, e)
      else Lookup(pages, e.base, level - 1, vpn)
  }

  // Every present entry on the way to the leaf carries PTE_USER (the leaf included).
  predicate UserPath(pages: map<nat, Table>, t: nat, level: nat, vpn: nat)
    requires 1 <= level <= 4
    decreases level
  {
    t in pages &&
    var e := pages[t][Index(vpn, level)];
    e.present && e.user &&
    (level == 1 || (e.pageSize && level <= 3) || UserPath(pages, e.base, level - 1, vpn))
  }

  function Translate(s: Space, root: nat, vpn: nat): Walk {
    Lookup(s.pages, root, 4, vpn)
  }

  // ---------------------------------------------------------------- invariant

  // The entry selects a table of the next level.
  predicate IsLink(e: Pte, level: nat) {
    level >= 2 && e.present && !e.pageSize
  }

  // A high-half entry of a process root that leads to a table of another owner: a copy of the kernel root's entry.
  predicate Shared(s: Space, t: nat, i: nat) {
    && t in s.procs && 256 <= i < 512 && t in s.pages && s.pages[t][i].present
    && s.pages[t][i].base in s.shape && s.shape[s.pages[t][i].base].owner != t
  }

  predicate IsRoot(s: Space, t: nat) {
    t == s.kroot || t in s.procs
  }

  ghost predicate RootOk(s: Space, t: nat) {
    t in s.shape && s.shape[t] == Node(4, t, 0, t, 0)
  }

  // What one entry of one table must satisfy.
  ghost predicate EntryOk(s: Space, t: nat, i: nat)
    requires t in s.shape && t in s.pages && i < 512
  {
    var n, e := s.shape[t], s.pages[t][i];
    && (n.level >= 2 && !e.present ==> e == ZERO)
    && (n.level == 4 ==> !e.pageSize)
    && (IsLink(e, n.level) ==>
          && e.base in s.shape
          && s.shape[e.base] == Node(n.level - 1, if Shared(s, t, i) then s.kroot else n.owner,
                                     n.prefix * 512 + i, if Shared(s, t, i) then s.kroot else t, i))
  }

  // What one table must satisfy: it is a root, or exactly its recorded parent entry points to it.
  ghost predicate TableOk(s: Space, t: nat)
    requires t in s.shape
  {
    var n := s.shape[t];
    && 1 <= n.level <= 4
    && (n.level == 4 <==> IsRoot(s, t))
    && (n.level < 4 ==>
          && n.parent in s.shape && n.parent in s.pages && n.slot < 512
          && s.shape[n.parent].level == n.level + 1
          && s.shape[n.parent].owner == n.owner
          && n.prefix == s.shape[n.parent].prefix * 512 + n.slot
          && IsLink(s.pages[n.parent][n.slot], n.level + 1)
          && s.pages[n.parent][n.slot].base == t)
  }

  ghost predicate FramesOk(s: Space) {
    && s.shape.Keys <= s.pages.Keys
    && s.pages.Keys !! s.free
    && (forall f :: f in s.free || f in s.pages ==> f < FRAME_LIMIT)
  }

  ghost predicate Inv(s: Space) {
    && FramesOk(s)
    && s.kroot !in s.procs
    && (forall t {:trigger RootOk(s, t)} :: IsRoot(s, t) ==> RootOk(s, t))
    && (forall t {:trigger TableOk(s, t)} :: t in s.shape ==> TableOk(s, t))
    && (forall t, i {:trigger EntryOk(s, t, i)} :: t in s.shape && 0 <= i < 512 ==> EntryOk(s, t, i))
  }

  // ---------------------------------------------------------------- who has which page

  function Owned(s: Space, root: nat): set<nat> {
    set x | x in s.shape && s.shape[x].owner == root
  }

  // A table below the high half of its root.
  predicate High(n: Node) {
    1 <= n.level < 4 && n.prefix >= 256 * Span(4 - n.level)
  }

  // The root and the tables below its low half.
  function LowOwned(s: Space, root: nat): set<nat> {
    set x | x in s.shape && s.shape[x].owner == root && !High(s.shape[x])
  }

  // Pages in use that no root leads to.
  function Lost(s: Space): set<nat> {
    s.pages.Keys - s.shape.Keys
  }

  // The same pages are lost, with the same words.
  ghost predicate SameLost(s: Space, s': Space) {
    Lost(s') == Lost(s) && forall x :: x in Lost(s) ==> s'.pages[x] == s.pages[x]
  }

  // ---------------------------------------------------------------- primitive changes

  function SetEntry(s: Space, t: nat, i: nat, e: Pte): Space
    requires t in s.pages && i < 512
  {
    s.(pages := s.pages[t := s.pages[t][i := e]])
  }

  // A fresh zeroed table, linked into entry i of table t.
  function LinkNew(s: Space, t: nat, i: nat, f: nat, user: bool): Space
    requires t in s.pages && t in s.shape && i < 512 && s.shape[t].level >= 2
  {
    var n := s.shape[t];
    Space(s.pages[t := s.pages[t][i := TablePte(f, user)]][f := EmptyTable()],
          s.free - {f},
          s.shape[f := Node(n.level - 1, n.owner, n.prefix * 512 + i, t, i)],
          s.kroot, s.procs)
  }

  // The inverse of LinkNew: clear the parent entry and give the table page back.
  function Unlink(s: Space, t: nat, i: nat, f: nat): Space
    requires t in s.pages && i < 512
  {
    Space(s.pages[t := s.pages[t][i := ZERO]] - {f}, s.free + {f}, s.shape - {f}, s.kroot, s.procs)
  }

  ghost predicate CanLink(s: Space, t: nat, i: nat, f: nat) {
    && Inv(s) && t in s.shape && i < 512 && s.shape[t].level >= 2
    && !s.pages[t][i].present && f in s.free
  }

  lemma LinkNewTables(s: Space, t: nat, i: nat, f: nat, user: bool, x: nat)
    requires CanLink(s, t, i, f) && (x == f || x in s.shape)
    ensures TableOk(LinkNew(s, t, i, f, user), x)
  {
    assert TableOk(s, t);
    if x == f {
      assert IsRoot(s, f) ==> RootOk(s, f);
    } else {
      assert TableOk(s, x);
    }
  }

  lemma LinkNewEntries(s: Space, t: nat, i: nat, f: nat, user: bool, x: nat, j: nat)
    requires CanLink(s, t, i, f) && (x == f || x in s.shape) && j < 512
    ensures EntryOk(LinkNew(s, t, i, f, user), x, j)
  {
    if x != f {
      assert EntryOk(s, x, j);
      assert IsRoot(s, x) ==> RootOk(s, x);
    }
  }

  lemma LinkNewKeepsInv(s: Space, t: nat, i: nat, f: nat, user: bool)
    requires CanLink(s, t, i, f)
    ensures Inv(LinkNew(s, t, i, f, user))
  {
    var s' := LinkNew(s, t, i, f, user);
    forall x | IsRoot(s', x) ensures RootOk(s', x) {
      assert IsRoot(s, x) && RootOk(s, x);
    }
    forall x | x in s'.shape ensures TableOk(s', x) {
      LinkNewTables(s, t, i, f, user, x);
    }
    forall x, j | x in s'.shape && 0 <= j < 512 ensures EntryOk(s', x, j) {
      LinkNewEntries(s, t, i, f, user, x, j);
    }
  }

  lemma LinkThenUnlink(s: Space, t: nat, i: nat, f: nat, user: bool)
    requires Inv(s) && t in s.shape && i < 512 && s.shape[t].level >= 2
    requires !s.pages[t][i].present && f in s.free
    ensures Unlink(LinkNew(s, t, i, f, user), t, i, f) == s
  {
    assert EntryOk(s, t, i);
    var u := Unlink(LinkNew(s, t, i, f, user), t, i, f);
    assert u.pages == s.pages by {
      assert s.pages[t][i := TablePte(f, user)][i := ZERO] == s.pages[t];
    }
    assert u.shape == s.shape;
    assert u.free == s.free;
  }

  // The new word is a link exactly where the old one was, and to the same table.
  ghost predicate SameLink(s: Space, t: nat, i: nat, e: Pte) {
    && Inv(s) && t in s.shape && i < 512
    && var level := s.shape[t].level;
    && (IsLink(e, level) <==> IsLink(s.pages[t][i], level))
    && (IsLink(e, level) ==> e.base == s.pages[t][i].base)
    && (level >= 2 && !e.present ==> e == ZERO)
    && (level == 4 ==> !e.pageSize)
  }

  lemma SetEntryTables(s: Space, t: nat, i: nat, e: Pte, x: nat)
    requires SameLink(s, t, i, e) && x in s.shape
    ensures TableOk(SetEntry(s, t, i, e), x)
  {
    assert TableOk(s, x);
  }

  lemma SetEntryEntries(s: Space, t: nat, i: nat, e: Pte, x: nat, j: nat)
    requires SameLink(s, t, i, e) && x in s.shape && j < 512
    ensures EntryOk(SetEntry(s, t, i, e), x, j)
  {
    assert EntryOk(s, x, j);
  }

  // Rewriting a word without changing the links keeps the tree: leaves, and PTE_USER on links.
  lemma SetEntryKeepsInv(s: Space, t: nat, i: nat, e: Pte)
    requires SameLink(s, t, i, e)
    ensures Inv(SetEntry(s, t, i, e))
  {
    var s' := SetEntry(s, t, i, e);
    forall x | IsRoot(s', x) ensures RootOk(s', x) {
      assert IsRoot(s, x) && RootOk(s, x);
    }
    forall x | x in s'.shape ensures TableOk(s', x) {
      SetEntryTables(s, t, i, e, x);
    }
    forall x, j | x in s'.shape && 0 <= j < 512 ensures EntryOk(s', x, j) {
      SetEntryEntries(s, t, i, e, x, j);
    }
  }

  // ---------------------------------------------------------------- what a change does to translations

  // The entry keeps its meaning: unchanged, the same link, or an empty entry that now leads to an empty table.
  ghost predicate EntryStable(s: Space, s': Space, t: nat, i: nat)
    requires t in s.shape && t in s.pages && t in s'.pages && i < 512
  {
    var level, e, e' := s.shape[t].level, s.pages[t][i], s'.pages[t][i];
    || e' == e
    || (IsLink(e, level) && IsLink(e', level) && e'.base == e.base)
    || (IsLink(e', level) && !e.present && e'.base in s'.pages && s'.pages[e'.base] == EmptyTable())
  }

  ghost predicate Stable(s: Space, s': Space) {
    && s.shape.Keys <= s.pages.Keys && s.shape.Keys <= s'.pages.Keys
    && (forall t, i {:trigger EntryStable(s, s', t, i)} ::
          t in s.shape && 0 <= i < 512 ==> EntryStable(s, s', t, i))
  }

  lemma {:induction false} StableLookup(s: Space, s': Space, t: nat, vpn: nat)
    requires Inv(s) && Stable(s, s') && t in s.shape
    ensures TableOk(s, t)
    ensures Lookup(s'.pages, t, s.shape[t].level, vpn) == Lookup(s.pages, t, s.shape[t].level, vpn)
    decreases if t in s.shape then s.shape[t].level else 0
  {
    assert TableOk(s, t);
    var level := s.shape[t].level;
    var i := Index(vpn, level);
    assert EntryOk(s, t, i) && EntryStable(s, s', t, i);
    var e := s.pages[t][i];
    if IsLink(e, level) {
      StableLookup(s, s', e.base, vpn);
    }
  }

  lemma StableTranslations(s: Space, s': Space)
    requires Inv(s) && Stable(s, s')
    ensures forall q, vpn :: IsRoot(s, q) ==> Translate(s', q, vpn) == Translate(s, q, vpn)
  {
    forall q, vpn | IsRoot(s, q) ensures Translate(s', q, vpn) == Translate(s, q, vpn) {
      assert RootOk(s, q);
      StableLookup(s, s', q, vpn);
    }
  }

  // The path to the page does not use entry i of table x.
  ghost predicate Avoids(s: Space, x: nat, i: nat, vpn: nat)
    requires x in s.shape && 1 <= s.shape[x].level <= 4
  {
    s.shape[x].prefix != Prefix(vpn, s.shape[x].level) || i != Index(vpn, s.shape[x].level)
  }

  lemma {:induction false} SetEntryElsewhere(s: Space, x: nat, i: nat, e: Pte, t: nat, vpn: nat)
    requires Inv(s) && x in s.shape && i < 512 && t in s.shape
    requires TableOk(s, x) && TableOk(s, t)
    requires s.shape[t].prefix == Prefix(vpn, s.shape[t].level)
    requires Avoids(s, x, i, vpn)
    ensures Lookup(SetEntry(s, x, i, e).pages, t, s.shape[t].level, vpn) == Lookup(s.pages, t, s.shape[t].level, vpn)
    ensures UserPath(SetEntry(s, x, i, e).pages, t, s.shape[t].level, vpn)
            == UserPath(s.pages, t, s.shape[t].level, vpn)
    decreases s.shape[t].level
  {
    var level := s.shape[t].level;
    var j := Index(vpn, level);
    assert EntryOk(s, t, j);
    var e0 := s.pages[t][j];
    if IsLink(e0, level) {
      ChildFor(s, t, vpn);
      SetEntryElsewhere(s, x, i, e, e0.base, vpn);
    }
  }

  // The next table on a page's path.
  lemma ChildFor(s: Space, t: nat, vpn: nat)
    requires Inv(s) && t in s.shape && TableOk(s, t) && s.shape[t].prefix == Prefix(vpn, s.shape[t].level)
    requires IsLink(s.pages[t][Index(vpn, s.shape[t].level)], s.shape[t].level)
    ensures var level := s.shape[t].level;
            var c := s.pages[t][Index(vpn, level)].base;
            && c in s.shape && TableOk(s, c) && s.shape[c].level == level - 1
            && s.shape[c].prefix == Prefix(vpn, level - 1)
  {
    var level := s.shape[t].level;
    assert EntryOk(s, t, Index(vpn, level));
    PrefixStep(vpn, level);
    assert TableOk(s, s.pages[t][Index(vpn, level)].base);
  }

  // ---------------------------------------------------------------- PTE_USER along a path

  // A user entry of a process-owned table has a user entry above it.
  ghost predicate UserUp(s: Space, c: nat, j: nat)
    requires c in s.shape && c in s.pages && j < 512
  {
    && s.shape[c].parent in s.pages && s.shape[c].slot < 512
    && (s.pages[c][j].present && s.pages[c][j].user ==> s.pages[s.shape[c].parent][s.shape[c].slot].user)
  }

  ghost predicate TableOf(s: Space, roots: set<nat>, c: nat) {
    c in s.shape && s.shape[c].level < 4 && s.shape[c].owner in roots
  }

  // In the tables of these roots every user entry has user entries above it.
  ghost predicate UserClosed(s: Space, roots: set<nat>)
    requires Inv(s)
  {
    forall c, j {:trigger UserUp(s, c, j)} :: TableOf(s, roots, c) && 0 <= j < 512 ==> UserUp(s, c, j)
  }

  // Entry i of table t may carry PTE_USER without a kernel-only entry above it.
  ghost predicate MayBeUser(s: Space, roots: set<nat>, t: nat) {
    t in s.shape &&
    (s.shape[t].level < 4 && s.shape[t].owner in roots ==>
       TableOk(s, t) && s.pages[s.shape[t].parent][s.shape[t].slot].user)
  }

  lemma LinkNewKeepsUserClosed(s: Space, roots: set<nat>, t: nat, i: nat, f: nat, user: bool)
    requires CanLink(s, t, i, f) && UserClosed(s, roots)
    requires user ==> MayBeUser(s, roots, t)
    ensures Inv(LinkNew(s, t, i, f, user)) && UserClosed(LinkNew(s, t, i, f, user), roots)
    ensures user ==> MayBeUser(LinkNew(s, t, i, f, user), roots, f)
  {
    LinkNewKeepsInv(s, t, i, f, user);
    var s' := LinkNew(s, t, i, f, user);
    assert TableOk(s', f);
    forall c, j | TableOf(s', roots, c) && 0 <= j < 512 ensures UserUp(s', c, j) {
      LinkNewUserUp(s, roots, t, i, f, user, c, j);
    }
  }

  lemma LinkNewUserUp(s: Space, roots: set<nat>, t: nat, i: nat, f: nat, user: bool, c: nat, j: nat)
    requires CanLink(s, t, i, f) && UserClosed(s, roots) && (user ==> MayBeUser(s, roots, t))
    requires TableOf(LinkNew(s, t, i, f, user), roots, c) && j < 512
    ensures TableOk(LinkNew(s, t, i, f, user), c) && UserUp(LinkNew(s, t, i, f, user), c, j)
  {
    LinkNewTables(s, t, i, f, user, c);
    if c != f {
      assert TableOf(s, roots, c) && TableOk(s, c) && UserUp(s, c, j);
    }
  }

  lemma SetEntryKeepsUserClosed(s: Space, roots: set<nat>, t: nat, i: nat, e: Pte)
    requires Inv(s) && UserClosed(s, roots) && t in s.shape && i < 512
    requires Inv(SetEntry(s, t, i, e))
    requires IsLink(s.pages[t][i], s.shape[t].level) ==> e.user || !s.pages[t][i].user
    requires e.present && e.user ==> MayBeUser(s, roots, t)
    ensures UserClosed(SetEntry(s, t, i, e), roots)
  {
    var s' := SetEntry(s, t, i, e);
    forall c, j | TableOf(s', roots, c) && 0 <= j < 512 ensures UserUp(s', c, j) {
      assert TableOf(s, roots, c) && TableOk(s, c) && TableOk(s', c) && UserUp(s, c, j);
    }
  }

  // On a path of its own the leaf's own bit decides user reachability.
  lemma {:induction false} LeafBitDecides(s: Space, roots: set<nat>, t: nat, vpn: nat)
    requires Inv(s) && UserClosed(s, roots) && roots <= s.procs && t in s.shape && s.shape[t].owner in roots
    requires s.shape[t].level == 4 ==> !Shared(s, t, Index(vpn, 4))
    ensures TableOk(s, t)
    ensures var w := Lookup(s.pages, t, s.shape[t].level, vpn);
            && (UserPath(s.pages, t, s.shape[t].level, vpn) <==> w.Leaf? && w.pte.user)
            && (w.Leaf? && w.pte.user ==> s.shape[t].level == 4 || s.pages[s.shape[t].parent][s.shape[t].slot].user)
    decreases if t in s.shape then s.shape[t].level else 0
  {
    assert TableOk(s, t);
    var level := s.shape[t].level;
    var j := Index(vpn, level);
    assert EntryOk(s, t, j);
    if level < 4 {
      assert TableOf(s, roots, t) && UserUp(s, t, j);
    } else {
      assert RootOk(s, t);
    }
    if IsLink(s.pages[t][j], level) {
      LeafBitDecides(s, roots, s.pages[t][j].base, vpn);
    }
  }

  // ---------------------------------------------------------------- the entry that holds a leaf

  // Following the links for a page from t leads to table x at level `stop`.
  predicate Reaches(pages: map<nat, Table>, t: nat, level: nat, x: nat, stop: nat, vpn: nat)
    requires 1 <= stop <= level <= 4
    decreases level
  {
    t in pages &&
    if level == stop then t == x
    else
      var e := pages[t][Index(vpn, level)];
      e.present && !e.pageSize && Reaches(pages, e.base, level - 1, x, stop, vpn)
  }

  // How many tables have to be made on the way from t to level `stop`.
  function Missing(pages: map<nat, Table>, t: nat, level: nat, stop: nat, vpn: nat): (n: nat)
    requires 1 <= stop <= level <= 4
    ensures n <= level - stop
    decreases level
  {
    if level == stop || t !in pages then 0
    else
      var e := pages[t][Index(vpn, level)];
      if !e.present then level - stop
      else if e.pageSize then 0
      else Missing(pages, e.base, level - 1, stop, vpn)
  }

  // PTE_USER on links is of no matter here.
  lemma {:induction false} RelinkMissing(s: Space, x: nat, i: nat, e: Pte, t: nat, stop: nat, vpn: nat)
    requires SameLink(s, x, i, e) && IsLink(e, s.shape[x].level) && t in s.shape && TableOk(s, t)
    requires 1 <= stop <= s.shape[t].level
    ensures Missing(SetEntry(s, x, i, e).pages, t, s.shape[t].level, stop, vpn)
         == Missing(s.pages, t, s.shape[t].level, stop, vpn)
    decreases s.shape[t].level
  {
    var level := s.shape[t].level;
    if level > stop {
      var e0 := s.pages[t][Index(vpn, level)];
      assert EntryOk(s, t, Index(vpn, level));
      if IsLink(e0, level) {
        assert TableOk(s, e0.base);
        RelinkMissing(s, x, i, e, e0.base, stop, vpn);
      }
    }
  }

  lemma {:induction false} ReachedTable(s: Space, t: nat, x: nat, stop: nat, vpn: nat)
    requires Inv(s) && t in s.shape && TableOk(s, t) && 1 <= stop <= s.shape[t].level
    requires Reaches(s.pages, t, s.shape[t].level, x, stop, vpn)
    requires s.shape[t].prefix == Prefix(vpn, s.shape[t].level)
    ensures x in s.shape && s.shape[x].level == stop && s.shape[x].prefix == Prefix(vpn, stop)
    ensures s.shape[x].owner
            == if x != t && Shared(s, t, Index(vpn, s.shape[t].level)) then s.kroot else s.shape[t].owner
    decreases s.shape[t].level
  {
    var level := s.shape[t].level;
    if level > stop {
      var j := Index(vpn, level);
      assert EntryOk(s, t, j);
      PrefixStep(vpn, level);
      var c := s.pages[t][j].base;
      assert TableOk(s, c);
      ReachedTable(s, c, x, stop, vpn);
    }
  }

  // Writing the entry at the end of a path changes exactly what that path selects.
  lemma {:induction false} SetEntryHere(s: Space, t: nat, x: nat, stop: nat, e: Pte, vpn: nat)
    requires Inv(s) && t in s.shape && TableOk(s, t) && 1 <= stop <= s.shape[t].level
    requires Reaches(s.pages, t, s.shape[t].level, x, stop, vpn)
    requires x in s.shape && s.shape[x].level == stop && stop <= 3
    requires e.present ==> stop == 1 || e.pageSize
    ensures Lookup(SetEntry(s, x, Index(vpn, stop), e).pages, t, s.shape[t].level, vpn)
         == if e.present then Leaf(stop, e) else NoLeaf
    decreases s.shape[t].level
  {
    var level := s.shape[t].level;
    if level > stop {
      var j := Index(vpn, level);
      var c := s.pages[t][j].base;
      assert EntryOk(s, t, j);
      assert TableOk(s, c);
      SetEntryHere(s, c, x, stop, e, vpn);
      assert SetEntry(s, x, Index(vpn, stop), e).pages[t] == s.pages[t];
    }
  }

  // The table whose entry is the leaf of a page.
  function Holder(pages: map<nat, Table>, t: nat, level: nat, vpn: nat): (x: nat)
    requires 1 <= level <= 4 && Lookup(pages, t, level, vpn).Leaf?
    ensures var w := Lookup(pages, t, level, vpn);
            && w.level <= level
            && x in pages && pages[x][Index(vpn, w.level)] == w.pte && w.pte.present
    decreases level
  {
    if Lookup(pages, t, level, vpn).level == level then t
    else Holder(pages, pages[t][Index(vpn, level)].base, level - 1, vpn)
  }

  lemma {:induction false} HolderReached(s: Space, t: nat, vpn: nat)
    requires Inv(s) && t in s.shape && TableOk(s, t) && Lookup(s.pages, t, s.shape[t].level, vpn).Leaf?
    ensures var level, w := s.shape[t].level, Lookup(s.pages, t, s.shape[t].level, vpn);
            w.level <= level && Reaches(s.pages, t, level, Holder(s.pages, t, level, vpn), w.level, vpn)
    decreases s.shape[t].level
  {
    var level := s.shape[t].level;
    var e := s.pages[t][Index(vpn, level)];
    assert EntryOk(s, t, Index(vpn, level));
    if IsLink(e, level) {
      assert TableOk(s, e.base);
      HolderReached(s, e.base, vpn);
    }
  }

  // ---------------------------------------------------------------- work under one owner

  // Everything that `owner` does not own is the same in both.
  ghost predicate SameOutside(s: Space, s': Space, owner: nat) {
    && (forall x {:trigger s'.shape[x]} {:trigger s.shape[x]} :: x in s.shape && s.shape[x].owner != owner ==>
          x in s'.shape && s'.shape[x] == s.shape[x] && x in s.pages && x in s'.pages && s'.pages[x] == s.pages[x])
    && (forall x {:trigger s'.shape[x]} :: x in s'.shape && s'.shape[x].owner != owner ==>
          x in s.shape && s.shape[x].owner != owner)
  }

  lemma OutsideTransitive(s: Space, s1: Space, s2: Space, root: nat)
    requires SameOutside(s, s1, root) && SameOutside(s1, s2, root)
    ensures SameOutside(s, s2, root)
  {}

  // A table of another root selects the same leaves as before.
  lemma {:induction false} LookupOutside(s: Space, s': Space, owner: nat, t: nat, vpn: nat)
    requires Inv(s) && SameOutside(s, s', owner) && owner != s.kroot
    requires t in s.shape && TableOk(s, t) && s.shape[t].owner != owner
    ensures Lookup(s'.pages, t, s.shape[t].level, vpn) == Lookup(s.pages, t, s.shape[t].level, vpn)
    ensures UserPath(s'.pages, t, s.shape[t].level, vpn) == UserPath(s.pages, t, s.shape[t].level, vpn)
    decreases s.shape[t].level
  {
    var level := s.shape[t].level;
    var e := s.pages[t][Index(vpn, level)];
    assert EntryOk(s, t, Index(vpn, level));
    if IsLink(e, level) {
      assert TableOk(s, e.base);
      LookupOutside(s, s', owner, e.base, vpn);
    }
  }
}

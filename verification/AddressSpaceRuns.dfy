/**
 Private process roots, and runs of map, unmap, protect, create and destroy calls over
 any number of them: isolation between roots, conservation of pages, and PTE_USER along
 every path.
 */
module AddressSpaceRuns {
  import opened Paging
  import opened PageTree
  import opened Status
  import opened AddressSpace

  // ---------------------------------------------------------------- private roots

  // Low half empty, high half as in the kernel root.
  function PrivateTable(kernel: Table): (t: Table)
    ensures forall i :: 0 <= i < 512 ==> t[i] == if i < 256 then ZERO else kernel[i]
  {
    EmptyTable()[..256] + kernel[256..]
  }

  // KeCreateProcessAddressSpace.
  function CreateRoot(s: Space, picks: seq<nat>): (Space, Status)
    requires s.kroot in s.pages
  {
    if picks == [] then (s, OutOfResource)
    else
      var f := picks[0];
      (Space(s.pages[f := PrivateTable(s.pages[s.kroot])], s.free - {f},
             s.shape[f := Node(4, f, 0, f, 0)], s.kroot, s.procs + {f}), Success)
  }


  // KeDestroyProcessAddressSpace: the root and the tables below its low half go back to the allocator. Tables below
  // its high half stay allocated, and no root leads to them any more.
  function DestroyRoot(s: Space, root: nat, active: nat): (Space, Status)
  {
    if active == root then (s, InvalidState)
    else
      (Space(s.pages - LowOwned(s, root), s.free + LowOwned(s, root), s.shape - Owned(s, root),
             s.kroot, s.procs - {root}), Success)
  }

  lemma CreateRootKeepsInv(s: Space, f: nat)
    requires Inv(s) && f in s.free
    ensures RootOk(s, s.kroot)
    ensures Inv(CreateRoot(s, [f]).0)
  {
    assert RootOk(s, s.kroot);
    var s' := CreateRoot(s, [f]).0;
    forall x | IsRoot(s', x) ensures RootOk(s', x) {
      assert IsRoot(s, x) ==> RootOk(s, x);
    }
    forall x | x in s'.shape ensures TableOk(s', x) {
      if x != f {
        assert TableOk(s, x);
      }
    }
    forall x, i | x in s'.shape && 0 <= i < 512 ensures EntryOk(s', x, i) {
      CreateRootEntries(s, f, x, i);
    }
  }

  lemma CreateRootEntries(s: Space, f: nat, x: nat, i: nat)
    requires Inv(s) && f in s.free && RootOk(s, s.kroot) && (x == f || x in s.shape) && i < 512
    ensures EntryOk(CreateRoot(s, [f]).0, x, i)
  {
    if x == f {
      assert EntryOk(s, s.kroot, i);
    } else {
      assert EntryOk(s, x, i);
      assert x in s.procs ==> RootOk(s, x);
    }
  }

  lemma CreateRootCorrect(s: Space, f: nat)
    requires Inv(s) && f in s.free
    ensures RootOk(s, s.kroot)
    ensures var (s', status) := CreateRoot(s, [f]);
            && status == Success && Inv(s') && f !in s.procs
            && SameOutside(s, s', f)
            && s'.free + s'.pages.Keys == s.free + s.pages.Keys && SameLost(s, s')
            && (forall vpn: nat {:trigger Translate(s', f, vpn)} :: vpn < VPN_LIMIT ==>
                  Translate(s', f, vpn) == if Index(vpn, 4) < 256 then NoLeaf else Translate(s, s.kroot, vpn))
  {
    CreateRootKeepsInv(s, f);
    var s' := CreateRoot(s, [f]).0;
    assert IsRoot(s, f) ==> RootOk(s, f);
    forall x | x in s.shape ensures s.shape[x].owner != f {
      NotOwner(s, f, x);
    }
    forall vpn: nat | vpn < VPN_LIMIT
      ensures Translate(s', f, vpn) == if Index(vpn, 4) < 256 then NoLeaf else Translate(s, s.kroot, vpn)
    {
      FreshTranslation(s, f, vpn);
    }
  }

  lemma FreshTranslation(s: Space, f: nat, vpn: nat)
    requires Inv(s) && f in s.free && vpn < VPN_LIMIT && RootOk(s, s.kroot)
    requires SameOutside(s, CreateRoot(s, [f]).0, f)
    ensures Translate(CreateRoot(s, [f]).0, f, vpn)
            == if Index(vpn, 4) < 256 then NoLeaf else Translate(s, s.kroot, vpn)
  {
    var s' := CreateRoot(s, [f]).0;
    var i := Index(vpn, 4);
    var e := s.pages[s.kroot][i];
    assert EntryOk(s, s.kroot, i);
    if i >= 256 && IsLink(e, 4) {
      assert TableOk(s, e.base);
      NotOwner(s, f, e.base);
      LookupOutside(s, s', f, e.base, vpn);
    }
  }

  // Owners are roots.
  lemma {:induction false} OwnerIsRoot(s: Space, x: nat)
    requires Inv(s) && x in s.shape
    ensures TableOk(s, x) && IsRoot(s, s.shape[x].owner)
    decreases if x in s.shape then 4 - s.shape[x].level else 0
  {
    assert TableOk(s, x);
    if s.shape[x].level < 4 {
      assert TableOk(s, s.shape[x].parent);
      OwnerIsRoot(s, s.shape[x].parent);
    } else {
      assert RootOk(s, x);
    }
  }

  lemma NotOwner(s: Space, f: nat, x: nat)
    requires Inv(s) && f in s.free && x in s.shape
    ensures s.shape[x].owner != f
  {
    OwnerIsRoot(s, x);
    assert RootOk(s, s.shape[x].owner);
  }

  lemma DestroyRootCorrect(s: Space, root: nat, active: nat)
    requires Inv(s) && root in s.procs && active != root
    ensures var (s', status) := DestroyRoot(s, root, active);
            && status == Success && Inv(s') && root in LowOwned(s, root)
            && SameOutside(s, s', root)
            && s'.free + s'.pages.Keys == s.free + s.pages.Keys
            && LowOwned(s, root) !! s.free
            && Owned(s', root) == {}
            && Lost(s') == Lost(s) + (Owned(s, root) - LowOwned(s, root))
            && (forall x :: x in Lost(s) ==> s'.pages[x] == s.pages[x])
  {
    DestroyRootKeepsInv(s, root, active);
    assert RootOk(s, root);
  }

  lemma DestroyRootKeepsInv(s: Space, root: nat, active: nat)
    requires Inv(s) && root in s.procs && active != root
    ensures Inv(DestroyRoot(s, root, active).0)
  {
    var s' := DestroyRoot(s, root, active).0;
    assert RootOk(s, root) && RootOk(s, s.kroot);
    forall x | IsRoot(s', x) ensures RootOk(s', x) {
      assert IsRoot(s, x) && RootOk(s, x);
    }
    forall x | x in s'.shape ensures TableOk(s', x) {
      assert TableOk(s, x);
    }
    forall x, i | x in s'.shape && 0 <= i < 512 ensures EntryOk(s', x, i) {
      assert EntryOk(s, x, i);
    }
  }

  // ---------------------------------------------------------------- runs

  datatype Op =
    | Create(picks: seq<nat>)
    | Map(root: nat, va: nat, phys: nat, attributes: Pte, picks: seq<nat>)
    | Unmap(root: nat, va: nat)
    | Protect(root: nat, va: nat, attributes: Pte)
    | Destroy(root: nat, active: nat)

  // Calls on any root and any address, with an allocator that hands out free pages.
  ghost predicate Enabled(s: Space, op: Op) {
    && Inv(s)
    && match op
       case Create(picks) => PicksOk(s, picks)
       case Map(root, _, _, _, picks) => PicksOk(s, picks) && IsRoot(s, root)
       case Unmap(root, _) => IsRoot(s, root)
       case Protect(root, _, _) => IsRoot(s, root)
       case Destroy(root, _) => root in s.procs
  }

  ghost function Apply(s: Space, op: Op): Space
    requires Enabled(s, op)
  {
    assert RootOk(s, s.kroot);
    match op
    case Create(picks) => CreateRoot(s, picks).0
    case Map(root, va, phys, attributes, picks) => MapPage(s, root, va, phys, attributes, picks).0
    case Unmap(root, va) => UnmapPage(s, root, va).0
    case Protect(root, va, attributes) => ProtectPage(s, root, va, attributes).0
    case Destroy(root, active) => DestroyRoot(s, root, active).0
  }

  ghost predicate Runs(s: Space, ops: seq<Op>)
    decreases |ops|
  {
    ops == [] || (Enabled(s, ops[0]) && Runs(Apply(s, ops[0]), ops[1..]))
  }

  ghost function Run(s: Space, ops: seq<Op>): Space
    requires Runs(s, ops)
    decreases |ops|
  {
    if ops == [] then s else Run(Apply(s, ops[0]), ops[1..])
  }

  // A map, unmap or protect of a page.
  predicate OnPage(op: Op) {
    op.Map? || op.Unmap? || op.Protect?
  }

  // The call works on tables of this root: those on the page's path, the root's own table, or all of them.
  ghost predicate Touches(s: Space, op: Op, owner: nat) {
    match op
    case Create(picks) => picks != [] && picks[0] == owner
    case Map(root, va, _, _, _) => owner == root || owner == Home(s, root, Vpn(va))
    case Unmap(root, va) => owner == root || owner == Home(s, root, Vpn(va))
    case Protect(root, va, _) => owner == root || owner == Home(s, root, Vpn(va))
    case Destroy(root, _) => root == owner
  }

  ghost predicate Untouched(s: Space, ops: seq<Op>, owner: nat)
    requires Runs(s, ops)
    decreases |ops|
  {
    ops == [] || (!Touches(s, ops[0], owner) && Untouched(Apply(s, ops[0]), ops[1..], owner))
  }

  // ---------------------------------------------------------------- what one call keeps

  // Tables of these roots are the same in both, and neither has more of them.
  ghost predicate SameFor(s: Space, s': Space, roots: set<nat>) {
    forall x ::
      (x in s.shape && s.shape[x].owner in roots ==>
         x in s'.shape && x in s.pages && x in s'.pages && s'.shape[x] == s.shape[x] && s'.pages[x] == s.pages[x])
      && (x in s'.shape && s'.shape[x].owner in roots ==> x in s.shape && s.shape[x].owner in roots)
  }

  lemma SameForTransitive(s: Space, s1: Space, s2: Space, roots: set<nat>)
    requires SameFor(s, s1, roots) && SameFor(s1, s2, roots)
    ensures SameFor(s, s2, roots)
  {}

  lemma OutsideFor(s: Space, s': Space, target: nat, roots: set<nat>)
    requires SameOutside(s, s', target) && target !in roots
    ensures SameFor(s, s', roots)
  {}

  lemma LeafFor(s: Space, s': Space, root: nat, vpn: nat, leaf: Walk, roots: set<nat>)
    requires Inv(s) && IsRoot(s, root) && vpn < VPN_LIMIT && LeafSet(s, s', root, vpn, leaf)
    requires root !in roots && Home(s, root, vpn) !in roots
    ensures SameFor(s, s', roots)
  {
    if Shared(s, root, Index(vpn, 4)) {
      var i := Index(vpn, 4);
      var s1 := SetEntry(s, root, i, s'.pages[root][i]);
      assert RootOk(s, root);
      OutsideFor(s1, s', s.kroot, roots);
      SameForTransitive(s, s1, s', roots);
    } else {
      OutsideFor(s, s', root, roots);
    }
  }

  // What each call keeps of the pages in use and of the lost ones.
  ghost predicate StepKeeps(s: Space, s': Space) {
    && Inv(s') && s'.kroot == s.kroot
    && s'.free + s'.pages.Keys == s.free + s.pages.Keys
    && Lost(s) <= Lost(s') && (forall x :: x in Lost(s) ==> s'.pages[x] == s.pages[x])
  }

  lemma LeafStep(s: Space, s1: Space, root: nat, vpn: nat, leaf: Walk, roots: set<nat>)
    requires Inv(s) && IsRoot(s, root) && vpn < VPN_LIMIT && root !in roots && Home(s, root, vpn) !in roots
    requires s1 == s || LeafSet(s, s1, root, vpn, leaf)
    ensures StepKeeps(s, s1) && SameFor(s, s1, roots) && s1.procs == s.procs && SameLost(s, s1)
  {
    if s1 != s { LeafFor(s, s1, root, vpn, leaf, roots); }
  }

  lemma ChangeStep(s: Space, root: nat, va: nat, change: Pte -> Pte, roots: set<nat>)
    requires Inv(s) && IsRoot(s, root) && root !in roots && Home(s, root, Vpn(va)) !in roots
    ensures var s1 := ChangeLeaf(s, root, va, change).0;
            StepKeeps(s, s1) && SameFor(s, s1, roots) && s1.procs == s.procs && SameLost(s, s1)
  {
    ChangeLeafCorrect(s, root, va, change);
    var s1, w := ChangeLeaf(s, root, va, change).0, Translate(s, root, Vpn(va));
    var leaf := if w.Leaf? && change(w.pte).present then Leaf(1, change(w.pte)) else NoLeaf;
    LeafStep(s, s1, root, Vpn(va), leaf, roots);
  }

  lemma MapStep(s: Space, root: nat, va: nat, phys: nat, attributes: Pte, picks: seq<nat>, roots: set<nat>)
    requires Inv(s) && IsRoot(s, root) && PicksOk(s, picks) && root !in roots && Home(s, root, Vpn(va)) !in roots
    ensures var s1 := MapPage(s, root, va, phys, attributes, picks).0;
            StepKeeps(s, s1) && SameFor(s, s1, roots) && s1.procs == s.procs && SameLost(s, s1)
  {
    MapPageCorrect(s, root, va, phys, attributes, picks);
    var s1 := MapPage(s, root, va, phys, attributes, picks).0;
    LeafStep(s, s1, root, Vpn(va), Leaf(1, LeafPte(phys / PAGE_4KB, attributes)), roots);
  }

  lemma PageStep(s: Space, op: Op, roots: set<nat>)
    requires Enabled(s, op) && OnPage(op) && forall r :: r in roots ==> !Touches(s, op, r)
    ensures var s1 := Apply(s, op);
            StepKeeps(s, s1) && SameFor(s, s1, roots) && s1.procs == s.procs && SameLost(s, s1)
  {
    match op
    case Map(root, va, phys, attributes, picks) => MapStep(s, root, va, phys, attributes, picks, roots);
    case Unmap(root, va) => ChangeStep(s, root, va, _ => ZERO, roots);
    case Protect(root, va, attributes) => ChangeStep(s, root, va, leaf => Protected(leaf, attributes), roots);
  }

  lemma RootStep(s: Space, op: Op, roots: set<nat>)
    requires Enabled(s, op) && !OnPage(op) && forall r :: r in roots ==> !Touches(s, op, r)
    ensures var s1 := Apply(s, op);
            StepKeeps(s, s1) && SameFor(s, s1, roots) && (forall r :: r in roots ==> (r in s1.procs <==> r in s.procs))
  {
    match op
    case Create(picks) =>
      if picks != [] {
        CreateRootCorrect(s, picks[0]);
        assert CreateRoot(s, picks) == CreateRoot(s, [picks[0]]);
        OutsideFor(s, Apply(s, op), picks[0], roots);
      }
    case Destroy(root, active) =>
      if active != root {
        DestroyRootCorrect(s, root, active);
        OutsideFor(s, Apply(s, op), root, roots);
      }
  }

  lemma ApplyKeeps(s: Space, op: Op, roots: set<nat>)
    requires Enabled(s, op) && forall r :: r in roots ==> !Touches(s, op, r)
    ensures var s1 := Apply(s, op);
            StepKeeps(s, s1) && SameFor(s, s1, roots) && (forall r :: r in roots ==> (r in s1.procs <==> r in s.procs))
  {
    if OnPage(op) { PageStep(s, op, roots); } else { RootStep(s, op, roots); }
  }

  // ---------------------------------------------------------------- whole runs

  lemma {:induction false} RunKeeps(s: Space, ops: seq<Op>, roots: set<nat>)
    requires Inv(s) && Runs(s, ops)
    requires forall r :: r in roots ==> Untouched(s, ops, r)
    ensures var s' := Run(s, ops);
            && StepKeeps(s, s') && SameFor(s, s', roots)
            && (forall r :: r in roots ==> (r in s'.procs <==> r in s.procs))
    decreases |ops|
  {
    if ops != [] {
      var s1 := Apply(s, ops[0]);
      ApplyKeeps(s, ops[0], roots);
      RunKeeps(s1, ops[1..], roots);
      SameForTransitive(s, s1, Run(s1, ops[1..]), roots);
    }
  }

  // Work on other roots changes neither a translation nor the user reachability of a page in this one. Where the page
  // lies in tables of the kernel, the kernel root counts among the roots that are left alone.
  lemma RunIsolation(s: Space, ops: seq<Op>, q: nat, vpn: nat)
    requires Inv(s) && Runs(s, ops) && IsRoot(s, q) && Untouched(s, ops, q)
    requires Shared(s, q, Index(vpn, 4)) ==> Untouched(s, ops, s.kroot)
    ensures var s' := Run(s, ops);
            && IsRoot(s', q)
            && Translate(s', q, vpn) == Translate(s, q, vpn)
            && UserPath(s'.pages, q, 4, vpn) == UserPath(s.pages, q, 4, vpn)
  {
    var roots := if Shared(s, q, Index(vpn, 4)) then {q, s.kroot} else {q};
    RunKeeps(s, ops, roots);
    assert RootOk(s, q) && TableOk(s, q);
    LookupFor(s, Run(s, ops), roots, q, vpn);
  }

  lemma {:induction false} LookupFor(s: Space, s': Space, roots: set<nat>, t: nat, vpn: nat)
    requires Inv(s) && SameFor(s, s', roots)
    requires t in s.shape && TableOk(s, t) && s.shape[t].owner in roots
    requires Shared(s, t, Index(vpn, s.shape[t].level)) ==> s.kroot in roots
    ensures Lookup(s'.pages, t, s.shape[t].level, vpn) == Lookup(s.pages, t, s.shape[t].level, vpn)
    ensures UserPath(s'.pages, t, s.shape[t].level, vpn) == UserPath(s.pages, t, s.shape[t].level, vpn)
    decreases s.shape[t].level
  {
    var level := s.shape[t].level;
    var e := s.pages[t][Index(vpn, level)];
    assert EntryOk(s, t, Index(vpn, level));
    if IsLink(e, level) {
      assert TableOk(s, e.base);
      LookupFor(s, s', roots, e.base, vpn);
    }
  }

  // The call can change this page's translation through this root: it works on the page itself, in tables of the
  // root or of the kernel, or it destroys the root.
  ghost predicate Hits(s: Space, op: Op, q: nat, vpn: nat) {
    match op
    case Create(_) => false
    case Map(root, va, _, _, _) => vpn == Vpn(va) && Home(s, root, vpn) in {q, s.kroot}
    case Unmap(root, va) => vpn == Vpn(va) && Home(s, root, vpn) in {q, s.kroot}
    case Protect(root, va, _) => vpn == Vpn(va) && Home(s, root, vpn) in {q, s.kroot}
    case Destroy(root, _) => root == q
  }

  ghost predicate Missed(s: Space, ops: seq<Op>, q: nat, vpn: nat)
    requires Runs(s, ops)
    decreases |ops|
  {
    ops == [] || (!Hits(s, ops[0], q, vpn) && Missed(Apply(s, ops[0]), ops[1..], q, vpn))
  }

  lemma StepTranslation(s: Space, op: Op, q: nat, vpn: nat)
    requires Enabled(s, op) && IsRoot(s, q) && vpn < VPN_LIMIT && !Hits(s, op, q, vpn)
    ensures IsRoot(Apply(s, op), q) && Translate(Apply(s, op), q, vpn) == Translate(s, q, vpn)
  {
    assert RootOk(s, q) && TableOk(s, q);
    match op
    case Create(picks) =>
      if picks != [] {
        CreateRootCorrect(s, picks[0]);
        assert CreateRoot(s, picks) == CreateRoot(s, [picks[0]]);
        NotOwner(s, picks[0], q);
        assert RootOk(s, s.kroot);
        LookupOutside(s, Apply(s, op), picks[0], q, vpn);
      }
    case Map(root, va, phys, attributes, picks) => MapPageCorrect(s, root, va, phys, attributes, picks);
    case Unmap(root, va) => ChangeLeafCorrect(s, root, va, _ => ZERO);
    case Protect(root, va, attributes) => ChangeLeafCorrect(s, root, va, leaf => Protected(leaf, attributes));
    case Destroy(root, active) =>
      if active != root {
        DestroyRootCorrect(s, root, active);
        LookupOutside(s, Apply(s, op), root, q, vpn);
      }
  }

  // Over any run, on whatever roots, only such calls change a translation.
  lemma {:induction false} RunTranslation(s: Space, ops: seq<Op>, q: nat, vpn: nat)
    requires Inv(s) && Runs(s, ops) && IsRoot(s, q) && vpn < VPN_LIMIT && Missed(s, ops, q, vpn)
    ensures IsRoot(Run(s, ops), q) && Translate(Run(s, ops), q, vpn) == Translate(s, q, vpn)
    decreases |ops|
  {
    if ops != [] {
      StepTranslation(s, ops[0], q, vpn);
      ApplyKeeps(s, ops[0], {});
      RunTranslation(Apply(s, ops[0]), ops[1..], q, vpn);
    }
  }

  // Create any number of processes, map and unmap at will, destroy them all: every table is back as it was, and so
  // is every free page except those that have been lost.
  lemma RunRestores(s: Space, ops: seq<Op>)
    requires Inv(s) && Runs(s, ops)
    requires forall r :: IsRoot(s, r) ==> Untouched(s, ops, r)
    requires Run(s, ops).procs == s.procs
    ensures var s' := Run(s, ops);
            && s'.shape == s.shape && (forall x :: x in s.pages ==> x in s'.pages && s'.pages[x] == s.pages[x])
            && Lost(s) <= Lost(s') && s'.free == s.free - (Lost(s') - Lost(s))
            && (s' == s <==> Lost(s') == Lost(s))
  {
    var s', roots := Run(s, ops), s.procs + {s.kroot};
    RunKeeps(s, ops, roots);
    forall x | x in s.shape ensures x in s'.shape && s'.shape[x] == s.shape[x] && s'.pages[x] == s.pages[x] {
      OwnerIsRoot(s, x);
    }
    forall x | x in s'.shape ensures x in s.shape {
      OwnerIsRoot(s', x);
    }
    assert s'.shape.Keys == s.shape.Keys;
    assert s'.shape == s.shape;
    FreeLeft(s, s');
    if Lost(s') == Lost(s) {
      assert s'.pages.Keys == s.pages.Keys;
      assert s'.pages == s.pages;
    }
  }

  lemma FreeLeft(s: Space, s': Space)
    requires Inv(s) && Inv(s') && s'.free + s'.pages.Keys == s.free + s.pages.Keys
    requires s'.shape == s.shape && Lost(s) <= Lost(s')
    ensures s'.free == s.free - (Lost(s') - Lost(s))
  {
    assert s.pages.Keys == s.shape.Keys + Lost(s) && s'.pages.Keys == s.shape.Keys + Lost(s');
    forall x ensures x in s'.free <==> x in s.free && x !in Lost(s') - Lost(s) {
      assert x in s'.free + s'.pages.Keys <==> x in s.free + s.pages.Keys;
    }
  }

  // ---------------------------------------------------------------- lost pages

  // No process root has tables below its high half.
  ghost predicate NoneHigh(s: Space, roots: set<nat>) {
    forall x :: x in s.shape && s.shape[x].owner in roots ==> !High(s.shape[x])
  }

  // The call does not map a page of the high half through a process root whose entry is empty.
  ghost predicate MapsLow(s: Space, op: Op) {
    op.Map? && op.root != s.kroot ==>
      Index(Vpn(op.va), 4) < 256 || Home(s, op.root, Vpn(op.va)) == s.kroot
  }

  lemma MapKeepsLow(s: Space, root: nat, va: nat, phys: nat, attributes: Pte, picks: seq<nat>, roots: set<nat>)
    requires Inv(s) && PicksOk(s, picks) && IsRoot(s, root) && NoneHigh(s, roots)
    requires Home(s, root, Vpn(va)) in roots ==> Index(Vpn(va), 4) < 256
    ensures NoneHigh(MapPage(s, root, va, phys, attributes, picks).0, roots)
  {
    var s1 := MapPage(s, root, va, phys, attributes, picks).0;
    MapPageCorrect(s, root, va, phys, attributes, picks);
    forall x | x in s1.shape && s1.shape[x].owner in roots ensures !High(s1.shape[x]) {
      if x !in s.shape {
        MapNew(s, root, va, phys, attributes, picks, x);
        HighPath(Vpn(va), s1.shape[x]);
      }
    }
  }

  lemma StepKeepsLow(s: Space, op: Op)
    requires Enabled(s, op) && MapsLow(s, op) && NoneHigh(s, s.procs)
    ensures NoneHigh(Apply(s, op), Apply(s, op).procs) && SameLost(s, Apply(s, op))
  {
    assert RootOk(s, s.kroot);
    match op
    case Create(picks) =>
      if picks != [] {
        CreateRootCorrect(s, picks[0]);
        assert CreateRoot(s, picks) == CreateRoot(s, [picks[0]]);
        forall x | x in s.shape && s.shape[x].owner == picks[0] ensures false { NotOwner(s, picks[0], x); }
      }
    case Map(root, va, phys, attributes, picks) =>
      PageStep(s, op, {});
      MapKeepsLow(s, root, va, phys, attributes, picks, s.procs);
    case Unmap(root, va) => ChangeLeafCorrect(s, root, va, _ => ZERO);
    case Protect(root, va, attributes) => ChangeLeafCorrect(s, root, va, leaf => Protected(leaf, attributes));
    case Destroy(root, active) =>
      if active != root {
        DestroyRootCorrect(s, root, active);
        assert Owned(s, root) == LowOwned(s, root);
      }
  }

  ghost predicate RunsLow(s: Space, ops: seq<Op>)
    requires Runs(s, ops)
    decreases |ops|
  {
    ops == [] || (MapsLow(s, ops[0]) && RunsLow(Apply(s, ops[0]), ops[1..]))
  }

  // Runs without such a call lose no page ...
  lemma {:induction false} RunLosesNothing(s: Space, ops: seq<Op>)
    requires Inv(s) && Runs(s, ops) && RunsLow(s, ops) && NoneHigh(s, s.procs)
    ensures SameLost(s, Run(s, ops))
    decreases |ops|
  {
    if ops != [] {
      StepKeepsLow(s, ops[0]);
      ApplyKeeps(s, ops[0], {});
      RunLosesNothing(Apply(s, ops[0]), ops[1..]);
    }
  }

  // ... so that they restore the whole state ...
  lemma LowRunsRestore(s: Space, ops: seq<Op>)
    requires Inv(s) && Runs(s, ops) && RunsLow(s, ops) && NoneHigh(s, s.procs)
    requires forall r :: IsRoot(s, r) ==> Untouched(s, ops, r)
    requires Run(s, ops).procs == s.procs
    ensures Run(s, ops) == s
  {
    RunLosesNothing(s, ops);
    RunRestores(s, ops);
  }

  // ... and each such call that succeeds costs at least the table of its leaf when the root is destroyed.
  lemma HighMapLeaks(s: Space, root: nat, va: nat, phys: nat, attributes: Pte, picks: seq<nat>, active: nat)
    requires Inv(s) && PicksOk(s, picks) && root in s.procs && active != root
    requires Index(Vpn(va), 4) >= 256 && !Shared(s, root, Index(Vpn(va), 4))
    requires MapPage(s, root, va, phys, attributes, picks).1 == Success
    ensures var s1 := MapPage(s, root, va, phys, attributes, picks).0;
            && Inv(s1) && root in s1.procs && Translate(s1, root, Vpn(va)).Leaf?
            && var s2 := DestroyRoot(s1, root, active).0;
               var pt := Holder(s1.pages, root, 4, Vpn(va));
               && Inv(s2) && pt in s2.pages && pt !in s2.free && pt !in s2.shape && pt !in Lost(s)
  {
    var s1, vpn := MapPage(s, root, va, phys, attributes, picks).0, Vpn(va);
    MapPageCorrect(s, root, va, phys, attributes, picks);
    assert RootOk(s1, root) && TableOk(s1, root);
    HolderReached(s1, root, vpn);
    var pt := Holder(s1.pages, root, 4, vpn);
    RootPrefix(vpn);
    ReachedTable(s1, root, pt, 1, vpn);
    HighPath(vpn, s1.shape[pt]);
    DestroyRootCorrect(s1, root, active);
  }

  // ---------------------------------------------------------------- PTE_USER over runs

  // One step down.
  lemma EnsureChildKeepsUserClosed(s: Space, roots: set<nat>, t: nat, vpn: nat, user: bool, picks: seq<nat>)
    requires Inv(s) && PicksOk(s, picks) && AtTable(s, t, vpn) && s.shape[t].level >= 2
    requires UserClosed(s, roots) && (user ==> MayBeUser(s, roots, t))
    ensures var d := EnsureChild(s, t, Index(vpn, s.shape[t].level), user, picks);
            && Inv(d.s) && UserClosed(d.s, roots)
            && (d.Reached? && user ==> MayBeUser(d.s, roots, d.table))
  {
    var level := s.shape[t].level;
    var i := Index(vpn, level);
    var e := s.pages[t][i];
    assert EntryOk(s, t, i);
    if !e.present && picks != [] {
      LinkNewKeepsUserClosed(s, roots, t, i, picks[0], user);
    } else if IsLink(e, level) && user {
      if !e.user {
        SetEntryKeepsInv(s, t, i, e.(user := true));
        SetEntryKeepsUserClosed(s, roots, t, i, e.(user := true));
      }
      var s1 := EnsureChild(s, t, i, user, picks).s;
      assert TableOk(s, e.base) && TableOk(s1, e.base);
    }
  }

  lemma {:induction false} DescendKeepsUserClosed(
      s: Space, roots: set<nat>, t: nat, stop: nat, vpn: nat, user: bool, picks: seq<nat>)
    requires Inv(s) && PicksOk(s, picks) && AtTable(s, t, vpn) && 1 <= stop <= s.shape[t].level
    requires UserClosed(s, roots) && (user ==> MayBeUser(s, roots, t))
    ensures var d := Descend(s, t, stop, vpn, user, picks);
            && Inv(d.s) && UserClosed(d.s, roots)
            && (d.Reached? && user ==> MayBeUser(d.s, roots, d.table))
    decreases if t in s.shape then s.shape[t].level else 0
  {
    var level := s.shape[t].level;
    if level > stop {
      EnsureChildKeeps(s, t, vpn, user, picks);
      EnsureChildKeepsUserClosed(s, roots, t, vpn, user, picks);
      match EnsureChild(s, t, Index(vpn, level), user, picks)
      case Blocked(_, _) =>
      case Reached(s1, c, rest) => DescendKeepsUserClosed(s1, roots, c, stop, vpn, user, rest);
    }
  }

  // Where a map call arrives, its leaf may be written.
  lemma LeafKeepsUserClosed(s: Space, roots: set<nat>, root: nat, vpn: nat, picks: seq<nat>, e: Pte)
    requires Inv(s) && PicksOk(s, picks) && IsRoot(s, root) && vpn < VPN_LIMIT && UserClosed(s, roots)
    requires Shared(s, root, Index(vpn, 4)) ==> s.kroot !in roots
    requires PathDown(s, root, vpn, e.user, picks).Reached?
    ensures var d := PathDown(s, root, vpn, e.user, picks);
            d.table in d.s.pages && Inv(SetEntry(d.s, d.table, Index(vpn, 1), e))
            && UserClosed(SetEntry(d.s, d.table, Index(vpn, 1), e), roots)
  {
    var d := PathDown(s, root, vpn, e.user, picks);
    if Shared(s, root, Index(vpn, 4)) {
      BorrowedKeepsUserClosed(s, roots, root, vpn, e.user, picks);
    } else {
      RootAt(s, root, vpn);
      DescendKeeps(s, root, 1, vpn, e.user, picks);
      DescendKeepsUserClosed(s, roots, root, 1, vpn, e.user, picks);
    }
    SetEntryKeepsInv(d.s, d.table, Index(vpn, 1), e);
    SetEntryKeepsUserClosed(d.s, roots, d.table, Index(vpn, 1), e);
  }

  lemma BorrowedKeepsUserClosed(s: Space, roots: set<nat>, root: nat, vpn: nat, user: bool, picks: seq<nat>)
    requires Inv(s) && PicksOk(s, picks) && Borrowed(s, root, vpn) && UserClosed(s, roots) && s.kroot !in roots
    requires PathDown(s, root, vpn, user, picks).Reached?
    ensures var d := PathDown(s, root, vpn, user, picks);
            && Inv(d.s) && UserClosed(d.s, roots) && d.table in d.s.shape && d.s.shape[d.table].level == 1
            && d.s.shape[d.table].owner == s.kroot
  {
    BorrowedStep(s, root, vpn, user, picks);
    var i := Index(vpn, 4);
    var d := EnsureChild(s, root, i, user, picks);
    SetEntryKeepsUserClosed(s, roots, root, i, d.s.pages[root][i]);
    DescendKeeps(d.s, d.table, 1, vpn, user, picks);
    DescendKeepsUserClosed(d.s, roots, d.table, 1, vpn, user, picks);
  }

  lemma MapKeepsUserClosed(s: Space, roots: set<nat>, root: nat, va: nat, phys: nat, attributes: Pte, picks: seq<nat>)
    requires Inv(s) && PicksOk(s, picks) && IsRoot(s, root) && UserClosed(s, roots)
    requires Shared(s, root, Index(Vpn(va), 4)) ==> s.kroot !in roots
    ensures var s' := MapPage(s, root, va, phys, attributes, picks).0;
            Inv(s') && s'.procs == s.procs && UserClosed(s', roots)
  {
    MapPageCorrect(s, root, va, phys, attributes, picks);
    if MapPage(s, root, va, phys, attributes, picks).1 == Success {
      LeafKeepsUserClosed(s, roots, root, Vpn(va), picks, LeafPte(phys / PAGE_4KB, attributes));
    }
  }

  lemma ChangeLeafKeepsUserClosed(s: Space, roots: set<nat>, root: nat, va: nat, change: Pte -> Pte)
    requires Inv(s) && IsRoot(s, root) && UserClosed(s, roots)
    requires var w := Translate(s, root, Vpn(va));
             w.Leaf? && change(w.pte).present && change(w.pte).user ==> w.pte.user
    ensures var s' := ChangeLeaf(s, root, va, change).0;
            Inv(s') && s'.procs == s.procs && UserClosed(s', roots)
  {
    ChangeLeafCorrect(s, root, va, change);
    if ChangeLeaf(s, root, va, change).1 == Success {
      var vpn := Vpn(va);
      assert RootOk(s, root) && TableOk(s, root);
      RootPrefix(vpn);
      HolderReached(s, root, vpn);
      var x := Holder(s.pages, root, 4, vpn);
      ReachedTable(s, root, x, 1, vpn);
      assert TableOk(s, x);
      assert TableOf(s, roots, x) ==> UserUp(s, x, Index(vpn, 1));
      SetEntryKeepsUserClosed(s, roots, x, Index(vpn, 1), change(Translate(s, root, vpn).pte));
    }
  }

  // A protect call that asks for PTE_USER only where the leaf already has it.
  ghost predicate AddsNoUser(s: Space, op: Op) {
    op.Protect? && op.attributes.user ==>
      var w := Translate(s, op.root, Vpn(op.va));
      w.Leaf? ==> w.pte.user
  }

  ghost predicate RunsAddingNoUser(s: Space, ops: seq<Op>)
    decreases |ops|
  {
    ops == [] || (Enabled(s, ops[0]) && AddsNoUser(s, ops[0]) && RunsAddingNoUser(Apply(s, ops[0]), ops[1..]))
  }

  lemma ApplyKeepsUserClosed(s: Space, op: Op)
    requires Enabled(s, op) && AddsNoUser(s, op) && UserClosed(s, s.procs)
    ensures Inv(Apply(s, op)) && UserClosed(Apply(s, op), Apply(s, op).procs)
  {
    var s' := Apply(s, op);
    match op
    case Map(root, va, phys, attributes, picks) => MapKeepsUserClosed(s, s.procs, root, va, phys, attributes, picks);
    case Unmap(root, va) => ChangeLeafKeepsUserClosed(s, s.procs, root, va, _ => ZERO);
    case Protect(root, va, attributes) =>
      ChangeLeafKeepsUserClosed(s, s.procs, root, va, leaf => Protected(leaf, attributes));
    case Create(picks) => CreateKeepsUserClosed(s, picks);
    case Destroy(root, active) =>
      if active != root { DestroyRootCorrect(s, root, active); }
      forall c, j | TableOf(s', s'.procs, c) && 0 <= j < 512 ensures UserUp(s', c, j) {
        assert TableOf(s, s.procs, c) && TableOk(s, c) && TableOk(s', c) && UserUp(s, c, j);
      }
  }

  lemma CreateKeepsUserClosed(s: Space, picks: seq<nat>)
    requires Inv(s) && PicksOk(s, picks) && UserClosed(s, s.procs)
    ensures RootOk(s, s.kroot)
    ensures var s' := CreateRoot(s, picks).0; Inv(s') && UserClosed(s', s'.procs)
  {
    assert RootOk(s, s.kroot);
    var s' := CreateRoot(s, picks).0;
    if picks != [] {
      CreateRootKeepsInv(s, picks[0]);
      assert CreateRoot(s, picks) == CreateRoot(s, [picks[0]]);
      forall c, j | TableOf(s', s'.procs, c) && 0 <= j < 512 ensures UserUp(s', c, j) {
        assert TableOk(s', c) && RootOk(s', picks[0]);
        NotOwner(s, picks[0], c);
        assert TableOf(s, s.procs, c) && TableOk(s, c) && UserUp(s, c, j);
      }
    }
  }

  // Over every such run, KePtQueryPage's UserAccessible is the leaf's own PTE_USER bit.
  lemma {:induction false} RunUserAccessible(s: Space, ops: seq<Op>, root: nat, vpn: nat)
    requires Inv(s) && UserClosed(s, s.procs) && RunsAddingNoUser(s, ops)
    ensures Runs(s, ops) && Inv(Run(s, ops)) && UserClosed(Run(s, ops), Run(s, ops).procs)
    ensures var s' := Run(s, ops);
            root in s'.procs && vpn < VPN_LIMIT && !Shared(s', root, Index(vpn, 4)) ==>
              var w := Translate(s', root, vpn);
              UserPath(s'.pages, root, 4, vpn) <==> w.Leaf? && w.pte.user
    decreases |ops|
  {
    if ops == [] {
      if root in s.procs && vpn < VPN_LIMIT && !Shared(s, root, Index(vpn, 4)) {
        assert RootOk(s, root);
        LeafBitDecides(s, s.procs, root, vpn);
      }
    } else {
      ApplyKeepsUserClosed(s, ops[0]);
      RunUserAccessible(Apply(s, ops[0]), ops[1..], root, vpn);
    }
  }

  // Mapping one page, or failing to, never changes whether user mode reaches another page.
  lemma MapKeepsReachability(
      s: Space, root: nat, va: nat, phys: nat, attributes: Pte, picks: seq<nat>, q: nat, vpn: nat)
    requires Inv(s) && UserClosed(s, s.procs) && PicksOk(s, picks) && root in s.procs
    requires q in s.procs && vpn < VPN_LIMIT && Index(vpn, 4) < 256
    requires q != root || vpn != Vpn(va) || MapPage(s, root, va, phys, attributes, picks).1 != Success
    ensures UserPath(MapPage(s, root, va, phys, attributes, picks).0.pages, q, 4, vpn) == UserPath(s.pages, q, 4, vpn)
  {
    var s' := MapPage(s, root, va, phys, attributes, picks).0;
    MapPageCorrect(s, root, va, phys, attributes, picks);
    if MapPage(s, root, va, phys, attributes, picks).1 == Success {
      MapKeepsUserClosed(s, s.procs, root, va, phys, attributes, picks);
      Elsewhere(s, s', root, Vpn(va), Leaf(1, LeafPte(phys / PAGE_4KB, attributes)), q, vpn);
      SameReachability(s, s', q, vpn);
    }
  }

  lemma Elsewhere(s: Space, s': Space, root: nat, v: nat, leaf: Walk, q: nat, vpn: nat)
    requires Inv(s) && root in s.procs && q in s.procs && v < VPN_LIMIT && vpn < VPN_LIMIT && Index(vpn, 4) < 256
    requires LeafSet(s, s', root, v, leaf) && (q != root || vpn != v)
    ensures Translate(s', q, vpn) == Translate(s, q, vpn)
  {}

  lemma SameReachability(s: Space, s': Space, q: nat, vpn: nat)
    requires Inv(s) && Inv(s') && UserClosed(s, s.procs) && UserClosed(s', s'.procs)
    requires q in s.procs && q in s'.procs && Index(vpn, 4) < 256 && Translate(s', q, vpn) == Translate(s, q, vpn)
    ensures UserPath(s'.pages, q, 4, vpn) == UserPath(s.pages, q, 4, vpn)
  {
    assert RootOk(s, q) && RootOk(s', q);
    LeafBitDecides(s, s.procs, q, vpn);
    LeafBitDecides(s', s'.procs, q, vpn);
  }

  // ---------------------------------------------------------------- what KePtProtectPage does with PTE_USER

  // Every entry above the 4KB leaf of a page carries PTE_USER.
  predicate UserAbove(pages: map<nat, Table>, t: nat, level: nat, vpn: nat)
    requires 1 <= level <= 4
    decreases level
  {
    level == 1 ||
    (t in pages &&
     var e := pages[t][Index(vpn, level)];
     e.user && UserAbove(pages, e.base, level - 1, vpn))
  }

  lemma {:induction false} UserPathOfLeaf(s: Space, t: nat, x: nat, e: Pte, vpn: nat)
    requires Inv(s) && t in s.shape && TableOk(s, t) && Reaches(s.pages, t, s.shape[t].level, x, 1, vpn)
    requires x in s.shape && s.shape[x].level == 1 && e.present
    ensures UserPath(SetEntry(s, x, Index(vpn, 1), e).pages, t, s.shape[t].level, vpn)
        <==> UserAbove(s.pages, t, s.shape[t].level, vpn) && e.user
    decreases s.shape[t].level
  {
    var level := s.shape[t].level;
    if level > 1 {
      var c := s.pages[t][Index(vpn, level)].base;
      assert EntryOk(s, t, Index(vpn, level));
      assert TableOk(s, c);
      UserPathOfLeaf(s, c, x, e, vpn);
      assert SetEntry(s, x, Index(vpn, 1), e).pages[t] == s.pages[t];
    }
  }

  // KePtProtectPage promotes no entry above the leaf: asking for PTE_USER makes the page reachable from
  // user mode exactly when the entries above already allow it.
  lemma ProtectUserExactly(s: Space, root: nat, va: nat, attributes: Pte)
    requires Inv(s) && IsRoot(s, root) && ProtectPage(s, root, va, attributes).1 == Success
    ensures UserPath(ProtectPage(s, root, va, attributes).0.pages, root, 4, Vpn(va))
        <==> attributes.user && UserAbove(s.pages, root, 4, Vpn(va))
  {
    var vpn := Vpn(va);
    assert RootOk(s, root) && TableOk(s, root);
    RootPrefix(vpn);
    HolderReached(s, root, vpn);
    var x := Holder(s.pages, root, 4, vpn);
    ReachedTable(s, root, x, 1, vpn);
    UserPathOfLeaf(s, root, x, Protected(Translate(s, root, vpn).pte, attributes), vpn);
  }

  // The first mapping under a PML4 entry, made without PTE_USER, leaves that entry kernel-only ...
  lemma FreshMapIsKernelOnly(s: Space, root: nat, va: nat, phys: nat, attributes: Pte, picks: seq<nat>)
    requires Inv(s) && PicksOk(s, picks) && Addressable(s, root, Vpn(va))
    requires root in s.pages && !s.pages[root][Index(Vpn(va), 4)].present && !attributes.user
    requires MapPage(s, root, va, phys, attributes, picks).1 == Success
    ensures !UserAbove(MapPage(s, root, va, phys, attributes, picks).0.pages, root, 4, Vpn(va))
  {
    RootAt(s, root, Vpn(va));
    DescendOutcome(s, root, 1, Vpn(va), false, picks);
    FreshDescent(s, root, Vpn(va), picks);
    var s' := MapPage(s, root, va, phys, attributes, picks).0;
    assert s'.pages[root] == PathDown(s, root, Vpn(va), false, picks).s.pages[root];
  }

  lemma FreshDescent(s: Space, root: nat, vpn: nat, picks: seq<nat>)
    requires Inv(s) && PicksOk(s, picks) && Addressable(s, root, vpn)
    requires root in s.pages && !s.pages[root][Index(vpn, 4)].present && PathDown(s, root, vpn, false, picks).Reached?
    ensures var d := PathDown(s, root, vpn, false, picks);
            && d.table != root && root in d.s.pages && !d.s.pages[root][Index(vpn, 4)].user
  {
    RootAt(s, root, vpn);
    EnsureChildKeeps(s, root, vpn, false, picks);
    var d := EnsureChild(s, root, Index(vpn, 4), false, picks);
    DescendKeeps(s, root, 1, vpn, false, picks);
    DescendKeepsEntry(d.s, d.table, 1, vpn, false, d.rest, root, Index(vpn, 4));
    assert Descend(s, root, 1, vpn, false, picks) == Descend(d.s, d.table, 1, vpn, false, d.rest);
  }

  // ... so protecting that page with PTE_USER sets the leaf bit and does not make it user accessible.
  lemma ProtectWithoutPromotion(
      s: Space, root: nat, va: nat, phys: nat, attributes: Pte, picks: seq<nat>, wanted: Pte)
    requires Inv(s) && PicksOk(s, picks) && Addressable(s, root, Vpn(va))
    requires root in s.pages && !s.pages[root][Index(Vpn(va), 4)].present && !attributes.user && wanted.user
    requires MapPage(s, root, va, phys, attributes, picks).1 == Success
    ensures var s1 := MapPage(s, root, va, phys, attributes, picks).0;
            && Inv(s1) && IsRoot(s1, root)
            && var (s2, status) := ProtectPage(s1, root, va, wanted);
            && status == Success
            && Translate(s2, root, Vpn(va)).Leaf? && Translate(s2, root, Vpn(va)).pte.user
            && !UserPath(s2.pages, root, 4, Vpn(va))
  {
    MapPageCorrect(s, root, va, phys, attributes, picks);
    var s1 := MapPage(s, root, va, phys, attributes, picks).0;
    ChangeLeafCorrect(s1, root, va, leaf => Protected(leaf, wanted));
    ProtectUserExactly(s1, root, va, wanted);
    FreshMapIsKernelOnly(s, root, va, phys, attributes, picks);
  }

  // The smallest such space: a kernel root at page 1 and a process root about to be made at page 2.
  function Bare(): Space {
    Space(map[1 := EmptyTable()], {2, 3, 4, 5}, map[1 := Node(4, 1, 0, 1, 0)], 1, {})
  }

  lemma BareOk()
    ensures Inv(Bare()) && RootOk(Bare(), 1)
  {
    var b := Bare();
    forall x | x in b.shape ensures TableOk(b, x) {}
    forall x, i | x in b.shape && 0 <= i < 512 ensures EntryOk(b, x, i) {}
    forall x | IsRoot(b, x) ensures RootOk(b, x) {}
  }

  lemma BareProcess()
    ensures Inv(Bare()) && RootOk(Bare(), 1)
    ensures var s, picks := CreateRoot(Bare(), [2]).0, [3, 4, 5];
            && Inv(s) && PicksOk(s, picks) && Addressable(s, 2, Vpn(0)) && Translate(s, 2, Vpn(0)) == NoLeaf
            && 2 in s.pages && !s.pages[2][Index(Vpn(0), 4)].present
  {
    BareOk();
    CreateRootKeepsInv(Bare(), 2);
    assert Vpn(0) == 0 && Index(0, 4) == 0;
  }

  lemma UnpromotedPageExists()
    ensures Inv(Bare()) && RootOk(Bare(), 1)
    ensures var s, picks := CreateRoot(Bare(), [2]).0, [3, 4, 5];
            && Inv(s) && PicksOk(s, picks) && Addressable(s, 2, Vpn(0))
            && MapPage(s, 2, 0, 0x9000, ZERO, picks).1 == Success
            && var s1 := MapPage(s, 2, 0, 0x9000, ZERO, picks).0;
            && Inv(s1) && IsRoot(s1, 2)
            && var s2 := ProtectPage(s1, 2, 0, ZERO.(user := true)).0;
            && Translate(s2, 2, Vpn(0)).Leaf? && Translate(s2, 2, Vpn(0)).pte.user && !UserPath(s2.pages, 2, 4, Vpn(0))
  {
    BareProcess();
    var s, picks := CreateRoot(Bare(), [2]).0, [3, 4, 5];
    MapPageCorrect(s, 2, 0, 0x9000, ZERO, picks);
    ProtectWithoutPromotion(s, 2, 0, 0x9000, ZERO, picks, ZERO.(user := true));
  }

  // The first page of the high half, where this kernel has no entry.
  const HIGH_VA: nat := 0x8000_0000_0000

  lemma HighPage()
    ensures Index(Vpn(HIGH_VA), 4) == 256 && HIGH_VA % PAGE_4KB == 0
  {}

  lemma BareHigh()
    ensures Inv(Bare()) && RootOk(Bare(), 1)
    ensures var s := CreateRoot(Bare(), [2]).0;
            && Inv(s) && 2 in s.procs && PicksOk(s, [3, 4, 5]) && Lost(s) == {}
            && !Shared(s, 2, Index(Vpn(HIGH_VA), 4)) && Translate(s, 2, Vpn(HIGH_VA)) == NoLeaf
  {
    BareOk();
    HighPage();
    CreateRootKeepsInv(Bare(), 2);
  }

  // Create a process, map that page, destroy the process: a table is lost.
  lemma LeakExists()
    ensures Inv(Bare()) && RootOk(Bare(), 1)
    ensures var s, picks := CreateRoot(Bare(), [2]).0, [3, 4, 5];
            && Inv(s) && PicksOk(s, picks) && IsRoot(s, 2) && Lost(s) == {}
            && MapPage(s, 2, HIGH_VA, 0x9000, ZERO, picks).1 == Success
            && Lost(DestroyRoot(MapPage(s, 2, HIGH_VA, 0x9000, ZERO, picks).0, 2, 1).0) != {}
  {
    BareHigh();
    HighPage();
    var s, picks := CreateRoot(Bare(), [2]).0, [3, 4, 5];
    MapPageCorrect(s, 2, HIGH_VA, 0x9000, ZERO, picks);
    HighMapLeaks(s, 2, HIGH_VA, 0x9000, ZERO, picks, 1);
    var s1 := MapPage(s, 2, HIGH_VA, 0x9000, ZERO, picks).0;
    assert Holder(s1.pages, 2, 4, Vpn(HIGH_VA)) in Lost(DestroyRoot(s1, 2, 1).0);
  }
}

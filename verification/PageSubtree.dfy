/**
 The tables below a table, as KiDestroyOwnedPageTableSubtree visits them: child by child,
 each subtree disjoint from the others.
 */
module PageSubtree {
  import opened Paging
  import opened PageTree

  // The table of the given level above x (x itself at its own level).
  ghost function Up(s: Space, x: nat, level: nat): (r: nat)
    requires Inv(s) && x in s.shape && s.shape[x].level <= level <= 4
    ensures r in s.shape && s.shape[r].level == level && s.shape[r].owner == s.shape[x].owner
    decreases if x in s.shape then level - s.shape[x].level else 0
  {
    assert TableOk(s, x);
    if s.shape[x].level == level then x else Up(s, s.shape[x].parent, level)
  }

  lemma {:induction false} UpStep(s: Space, x: nat, level: nat)
    requires Inv(s) && x in s.shape && s.shape[x].level < level <= 4
    ensures Up(s, x, level) == s.shape[Up(s, x, level - 1)].parent
    decreases if x in s.shape then level - s.shape[x].level else 0
  {
    assert TableOk(s, x);
    if s.shape[x].level < level - 1 {
      UpStep(s, s.shape[x].parent, level);
    }
  }

  ghost predicate Under(s: Space, t: nat, x: nat)
    requires Inv(s) && t in s.shape
  {
    assert TableOk(s, t);
    x in s.shape && s.shape[x].level <= s.shape[t].level && Up(s, x, s.shape[t].level) == t
  }

  // t and every table below it.
  ghost function Sub(s: Space, t: nat): set<nat>
    requires Inv(s) && t in s.shape
  {
    set x | x in s.shape && Under(s, t, x)
  }

  // The tables below the first k entries of t.
  ghost function Below(s: Space, t: nat, k: nat): set<nat>
    requires Inv(s) && t in s.shape
  {
    assert TableOk(s, t);
    set x | x in s.shape && Under(s, t, x) && x != t && ChildSlot(s, t, x) < k
  }

  // The entry of t that leads to x.
  ghost function ChildSlot(s: Space, t: nat, x: nat): nat
    requires Inv(s) && t in s.shape && Under(s, t, x) && x != t
  {
    assert TableOk(s, t);
    s.shape[Up(s, x, s.shape[t].level - 1)].slot
  }

  lemma ChildOf(s: Space, t: nat, x: nat)
    requires Inv(s) && t in s.shape && Under(s, t, x) && x != t
    ensures var k := ChildSlot(s, t, x);
            var level := s.shape[t].level;
            && 2 <= level && k < 512 && !Shared(s, t, k)
            && IsLink(s.pages[t][k], level)
            && s.pages[t][k].base in s.shape && s.shape[s.pages[t][k].base].level == level - 1
            && Under(s, s.pages[t][k].base, x)
  {
    var level := s.shape[t].level;
    assert TableOk(s, t);
    UpStep(s, x, level);
    var c := Up(s, x, level - 1);
    assert TableOk(s, c) && TableOk(s, x) && (IsRoot(s, t) ==> RootOk(s, t));
  }

  lemma UnderChild(s: Space, t: nat, k: nat, x: nat)
    requires Inv(s) && t in s.shape && k < 512 && !Shared(s, t, k) && IsLink(s.pages[t][k], s.shape[t].level)
    requires s.pages[t][k].base in s.shape && Under(s, s.pages[t][k].base, x)
    ensures Under(s, t, x) && x != t && ChildSlot(s, t, x) == k
  {
    assert EntryOk(s, t, k) && TableOk(s, t) && TableOk(s, x);
    UpStep(s, x, s.shape[t].level);
  }

  // Entry k adds the subtree of its child, and nothing that was there before.
  lemma BelowStep(s: Space, t: nat, k: nat)
    requires Inv(s) && t in s.shape && k < 512 && s.shape[t].level >= 2 && !Shared(s, t, k)
    ensures !IsLink(s.pages[t][k], s.shape[t].level) ==> Below(s, t, k + 1) == Below(s, t, k)
    ensures IsLink(s.pages[t][k], s.shape[t].level) ==>
              && s.pages[t][k].base in s.shape && s.shape[s.pages[t][k].base].level == s.shape[t].level - 1
              && Below(s, t, k + 1) == Below(s, t, k) + Sub(s, s.pages[t][k].base)
              && Below(s, t, k) !! Sub(s, s.pages[t][k].base)
              && t !in Sub(s, s.pages[t][k].base)
  {
    assert EntryOk(s, t, k);
    forall x | x in Below(s, t, k + 1) && x !in Below(s, t, k)
      ensures IsLink(s.pages[t][k], s.shape[t].level) && s.pages[t][k].base in s.shape
      ensures x in Sub(s, s.pages[t][k].base)
    {
      ChildOf(s, t, x);
    }
    if IsLink(s.pages[t][k], s.shape[t].level) {
      forall x | x in Sub(s, s.pages[t][k].base) ensures x in Below(s, t, k + 1) && x !in Below(s, t, k) && x != t {
        UnderChild(s, t, k, x);
      }
    }
  }

  lemma BelowAll(s: Space, t: nat)
    requires Inv(s) && t in s.shape
    ensures Below(s, t, 0) == {}
    ensures Sub(s, t) == Below(s, t, 512) + {t} && t !in Below(s, t, 512)
    ensures s.shape[t].level == 1 ==> Sub(s, t) == {t}
  {
    assert TableOk(s, t);
    forall x | x in Sub(s, t) && x != t
      ensures x in Below(s, t, 512) && s.shape[t].level > 1
    {
      ChildOf(s, t, x);
    }
  }

  // The entry of the root that leads to x can be read off x's prefix.
  lemma {:induction false} PrefixTop(s: Space, x: nat)
    requires Inv(s) && x in s.shape && 1 <= s.shape[x].level < 4
    ensures s.shape[x].prefix / Span(4 - s.shape[x].level) == s.shape[Up(s, x, 3)].slot
    decreases if x in s.shape then 4 - s.shape[x].level else 0
  {
    var n := s.shape[x];
    assert TableOk(s, x) && TableOk(s, n.parent);
    if n.level < 3 {
      PrefixTop(s, n.parent);
      DivideTwice(s.shape[n.parent].prefix, n.slot, 4 - n.level);
    } else {
      assert RootOk(s, n.parent);
    }
  }

  lemma DivideTwice(a: nat, b: nat, level: nat)
    requires b < 512 && 2 <= level <= 3
    ensures (a * 512 + b) / Span(level) == a / Span(level - 1)
  {}

  // What the destroy call gives back: the root and what lies below its first 256 entries.
  lemma LowBelow(s: Space, root: nat)
    requires Inv(s) && root in s.procs
    ensures RootOk(s, root) && LowOwned(s, root) == Below(s, root, 256) + {root} && root !in Below(s, root, 256)
  {
    assert RootOk(s, root) && TableOk(s, root);
    forall x | x in s.shape ensures x in LowOwned(s, root) <==> x in Below(s, root, 256) + {root} {
      OwnedIsSub(s, root, x);
      assert TableOk(s, x);
      if x != root && x in Sub(s, root) {
        ChildOf(s, root, x);
        PrefixTop(s, x);
        HighSlot(s.shape[x], ChildSlot(s, root, x));
      }
    }
  }

  lemma HighSlot(n: Node, slot: nat)
    requires 1 <= n.level < 4 && n.prefix / Span(4 - n.level) == slot
    ensures High(n) <==> slot >= 256
  {}

  // A root owns exactly the tables below it.
  lemma OwnedIsSub(s: Space, root: nat, x: nat)
    requires Inv(s) && IsRoot(s, root) && x in s.shape
    ensures RootOk(s, root)
    ensures x in Sub(s, root) <==> s.shape[x].owner == root
  {
    assert RootOk(s, root) && TableOk(s, x);
    var r := Up(s, x, 4);
    assert TableOk(s, r) && RootOk(s, r);
  }
}

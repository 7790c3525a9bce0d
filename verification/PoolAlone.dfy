/**
 What the interleaved calls come to: a KePoolAlloc that nothing interrupts does what the pool's own method does, a
 destroy takes effect exactly on a live pool without objects, and the counters say what happened in the run.
 */
module PoolAlone {
  import opened PoolGeometry
  import opened PoolModel
  import opened PoolRaces
  import O = ObjectPool

  // ---------------------------------------------------------------- one call alone

  // The steps of call i from its start to its return, when the heap gives out heapPage.
  function AloneSteps(p: Pool, i: nat, heapPage: nat): seq<Step> {
    var go := Advance(i, 0);
    if p.magic != Alive then [go]
    else if p.free != [] then [go, go, go]
    else if heapPage == 0 then [go, go, go, go, go, go]
    else [go, go, go, go, Advance(i, heapPage), go, go]
  }

  // Call i has returned what KePoolAlloc run alone returns, and the pool is as after it.
  predicate Done(s: State, t: State, i: nat, heapPage: nat)
    requires i < |s.calls| && (s.pool.magic == Alive ==> s.pool.slotSize > 0)
  {
    var (pool, answer) := O.Allocated(s.pool, heapPage);
    && t.pool == pool && t.calls == s.calls[i := Returned(answer)]
    && t.held == s.held + (if answer == 0 then {} else {answer})
    && t.heap == (if s.pool.magic == Alive && s.pool.free == [] then s.heap - {heapPage} else s.heap)
  }

  lemma Next(s: State, step: Step, rest: seq<Step>)
    requires Enabled(s, step) && Runs(Apply(s, step), rest)
    ensures Runs(s, [step] + rest) && Run(s, [step] + rest) == Run(Apply(s, step), rest)
  {
    assert ([step] + rest)[1..] == rest;
  }

  lemma Last(s: State, step: Step)
    requires Enabled(s, step)
    ensures Runs(s, [step]) && Run(s, [step]) == Apply(s, step)
  {
    assert [step][1..] == [];
    assert Run(Apply(s, step), []) == Apply(s, step);
  }

  // A call on its way does not see the others.
  lemma AloneTakes(s: State, i: nat)
    requires i < |s.calls| && s.calls[i] == Checked && s.pool.magic == Alive && s.pool.free != []
    requires s.pool.free[0] != 0 && s.pool.slotSize > 0
    ensures var go := Advance(i, 0); Runs(s, [go, go]) && Done(s, Run(s, [go, go]), i, 0)
  {
    var go := Advance(i, 0);
    var s1 := Apply(s, go);
    Last(s1, go);
    Next(s, go, [go]);
    assert [go] + [go] == [go, go];
  }

  // From an empty free list: to the heap and back.
  lemma AloneGrows(s: State, i: nat, heapPage: nat)
    requires i < |s.calls| && s.calls[i].Growing? && s.pool.magic == Alive && s.calls[i].size == s.pool.slotSize
    requires s.pool.free == [] && heapPage != 0 && heapPage in s.heap && HeaderSize(s.pool.slotSize) < PAGE
    requires Publish(s.pool, heapPage).free != [] && Publish(s.pool, heapPage).free[0] != 0
    ensures var steps := [Advance(i, heapPage), Advance(i, 0), Advance(i, 0)];
            Runs(s, steps) && Done(s, Run(s, steps), i, heapPage)
  {
    var go, take := Advance(i, 0), Advance(i, heapPage);
    var s1 := Apply(s, take);
    var s2 := Apply(s1, go);
    Last(s2, go);
    Next(s1, go, [go]);
    Next(s, take, [go, go]);
    assert [go] + [go] == [go, go] && [take] + [go, go] == [take, go, go];
  }

  lemma AloneFails(s: State, i: nat)
    requires i < |s.calls| && s.calls[i].Growing? && s.pool.magic == Alive && s.pool.free == [] && s.pool.slotSize > 0
    requires 0 !in s.heap
    ensures var go := Advance(i, 0); Runs(s, [go, go]) && Done(s, Run(s, [go, go]), i, 0)
  {
    var go := Advance(i, 0);
    var s1 := Apply(s, go);
    Last(s1, go);
    Next(s, go, [go]);
    assert [go] + [go] == [go, go];
  }

  // What comes before.
  lemma AloneChecks(s: State, i: nat)
    requires i < |s.calls| && s.calls[i] == Started && s.pool.magic == Alive
    ensures Enabled(s, Advance(i, 0)) && Apply(s, Advance(i, 0)) == To(s, i, Checked)
  {}

  lemma AloneAsks(s: State, i: nat, rest: seq<Step>)
    requires i < |s.calls| && s.calls[i] == Checked && s.pool.magic == Alive && s.pool.free == []
    requires s.pool.slotSize > 0 && Runs(To(s, i, Growing(s.pool.slotSize)), rest)
    ensures var go := Advance(i, 0);
            && Runs(s, [go, go, go] + rest)
            && Run(s, [go, go, go] + rest) == Run(To(s, i, Growing(s.pool.slotSize)), rest)
  {
    var go := Advance(i, 0);
    var s1 := To(s, i, Empty);
    var s2 := To(s, i, Sized(s.pool.slotSize));
    var s3 := To(s, i, Growing(s.pool.slotSize));
    assert Apply(s, go) == s1;
    assert s1.calls[i := Sized(s.pool.slotSize)] == s2.calls;
    assert s2.calls[i := Growing(s.pool.slotSize)] == s3.calls;
    Next(s2, go, rest);
    Next(s1, go, [go] + rest);
    Next(s, go, [go] + ([go] + rest));
    assert [go, go, go] + rest == [go] + ([go] + ([go] + rest));
  }

  // What the heap gives out makes a page of slots, none of them 0.
  lemma HeapPage(s: State, heapPage: nat, all: set<nat>, size: nat)
    requires Inv(s, all, size) && s.pool.magic == Alive
    ensures 0 !in s.heap && s.pool.slotSize > 0 && HeaderSize(s.pool.slotSize) < PAGE
    ensures heapPage in s.heap ==> Publish(s.pool, heapPage).free != [] && Publish(s.pool, heapPage).free[0] != 0
    ensures s.pool.free != [] ==> s.pool.free[0] != 0
  {
    forall page | page in s.heap ensures page != 0 {
      OnePlace(s, all, size, page);
      assert PageOk(page);
    }
    if heapPage in s.heap {
      OnePlace(s, all, size, heapPage);
      assert PageOk(heapPage);
      PublishOk(s.pool, s.live, heapPage);
      PopOk(Publish(s.pool, heapPage), s.live);
    }
    if s.pool.free != [] { PopOk(s.pool, s.live); }
  }

  // KePoolAlloc run alone in any reachable state does what the pool's own Alloc does.
  lemma AloneIsAlloc(s: State, i: nat, heapPage: nat, all: set<nat>, size: nat)
    requires Inv(s, all, size) && i < |s.calls| && s.calls[i] == Started && (heapPage == 0 || heapPage in s.heap)
    ensures s.pool.magic == Alive ==> s.pool.slotSize > 0
    ensures var steps := AloneSteps(s.pool, i, heapPage); Runs(s, steps) && Done(s, Run(s, steps), i, heapPage)
  {
    if s.pool.magic != Alive {
      Last(s, Advance(i, 0));
    } else {
      HeapPage(s, heapPage, all, size);
      if s.pool.free != [] { AloneFromList(s, i, heapPage); } else { AloneFromHeap(s, i, heapPage); }
    }
  }

  lemma AloneFromList(s: State, i: nat, heapPage: nat)
    requires i < |s.calls| && s.calls[i] == Started && s.pool.magic == Alive && s.pool.free != []
    requires s.pool.free[0] != 0 && s.pool.slotSize > 0
    ensures var steps := AloneSteps(s.pool, i, heapPage); Runs(s, steps) && Done(s, Run(s, steps), i, heapPage)
  {
    var go := Advance(i, 0);
    AloneChecks(s, i);
    AloneTakes(To(s, i, Checked), i);
    Next(s, go, [go, go]);
    assert [go] + [go, go] == AloneSteps(s.pool, i, heapPage);
  }

  lemma AloneFromHeap(s: State, i: nat, heapPage: nat)
    requires i < |s.calls| && s.calls[i] == Started && s.pool.magic == Alive && s.pool.free == [] && 0 !in s.heap
    requires s.pool.slotSize > 0 && HeaderSize(s.pool.slotSize) < PAGE
    requires heapPage != 0 ==>
               heapPage in s.heap && Publish(s.pool, heapPage).free != [] && Publish(s.pool, heapPage).free[0] != 0
    ensures var steps := AloneSteps(s.pool, i, heapPage); Runs(s, steps) && Done(s, Run(s, steps), i, heapPage)
  {
    var go := Advance(i, 0);
    var tail := if heapPage == 0 then [go, go] else [Advance(i, heapPage), go, go];
    AloneChecks(s, i);
    AloneEmpty(To(s, i, Checked), i, heapPage);
    Next(s, go, [go, go, go] + tail);
    assert [go] + ([go, go, go] + tail) == AloneSteps(s.pool, i, heapPage);
  }

  lemma AloneEmpty(s: State, i: nat, heapPage: nat)
    requires i < |s.calls| && s.calls[i] == Checked && s.pool.magic == Alive && s.pool.free == [] && 0 !in s.heap
    requires s.pool.slotSize > 0 && HeaderSize(s.pool.slotSize) < PAGE
    requires heapPage != 0 ==>
               heapPage in s.heap && Publish(s.pool, heapPage).free != [] && Publish(s.pool, heapPage).free[0] != 0
    ensures var go := Advance(i, 0);
            var steps := [go, go, go] + if heapPage == 0 then [go, go] else [Advance(i, heapPage), go, go];
            Runs(s, steps) && Done(s, Run(s, steps), i, heapPage)
  {
    var go, s1 := Advance(i, 0), To(s, i, Growing(s.pool.slotSize));
    if heapPage == 0 {
      AloneFails(s1, i);
      AloneAsks(s, i, [go, go]);
    } else {
      AloneGrows(s1, i, heapPage);
      AloneAsks(s, i, [Advance(i, heapPage), go, go]);
    }
  }

  // ---------------------------------------------------------------- destroying

  // A destroy takes effect exactly on a live pool without objects.
  lemma DestroyExactly(s: State, all: set<nat>, size: nat)
    requires Inv(s, all, size)
    ensures var t := Apply(s, Destroy);
            if s.pool.magic == Alive && s.live == {}
            then t == s.(pool := t.pool, detached := s.pool.pages) && t.pool.magic == Dead && t.pool.pages == []
            else t == s
  {}

  // It then gives every page back.
  lemma {:induction false} DetachedFreed(s: State)
    ensures var frees := seq(|s.detached|, _ => FreeDetached);
            && Runs(s, frees)
            && Run(s, frees) == s.(heap := s.heap + (set page | page in s.detached), detached := [])
    decreases |s.detached|
  {
    var frees := seq(|s.detached|, _ => FreeDetached);
    if s.detached == [] {
      assert s.heap + (set page | page in s.detached) == s.heap;
    } else {
      var t := Apply(s, FreeDetached);
      DetachedFreed(t);
      assert frees[1..] == seq(|t.detached|, _ => FreeDetached);
      assert s.detached == [s.detached[0]] + t.detached;
      assert t.heap + (set page | page in t.detached) == s.heap + (set page | page in s.detached);
    }
  }

  // ---------------------------------------------------------------- the counters

  // The most objects in use at any time of a run.
  function MostUsed(s: State, steps: seq<Step>): nat
    requires Runs(s, steps)
    decreases |steps|
  {
    if steps == [] then s.pool.used
    else
      var later := MostUsed(Apply(s, steps[0]), steps[1..]);
      if s.pool.used > later then s.pool.used else later
  }

  predicate FailsToGrow(s: State, step: Step) {
    step.Advance? && step.call < |s.calls| && s.calls[step.call].Failed?
  }

  // How often in a run the heap has had no page for a call.
  function FailsIn(s: State, steps: seq<Step>): nat
    requires Runs(s, steps)
    decreases |steps|
  {
    if steps == [] then 0
    else (if FailsToGrow(s, steps[0]) then 1 else 0) + FailsIn(Apply(s, steps[0]), steps[1..])
  }

  lemma StepCounters(s: State, step: Step)
    requires Enabled(s, step) && Apply(s, step).pool.magic == Alive && s.pool.used <= s.pool.peak
    ensures var p, q := s.pool, Apply(s, step).pool;
            && p.magic == Alive && q.used <= q.peak == (if q.used > p.peak then q.used else p.peak)
            && q.failed == p.failed + if FailsToGrow(s, step) then 1 else 0
  {}

  lemma {:induction false} RunCounters(s: State, steps: seq<Step>)
    requires Runs(s, steps) && Run(s, steps).pool.magic == Alive && s.pool.used <= s.pool.peak
    ensures s.pool.magic == Alive
    ensures var p, most := Run(s, steps).pool, MostUsed(s, steps);
            && p.used <= p.peak == (if most > s.pool.peak then most else s.pool.peak)
            && p.failed == s.pool.failed + FailsIn(s, steps)
    decreases |steps|
  {
    if steps != [] {
      var t := Apply(s, steps[0]);
      if t.pool.magic != Alive {
        StaysDead(t, steps[1..]);
      } else {
        StepCounters(s, steps[0]);
        RunCounters(t, steps[1..]);
      }
    }
  }

  lemma {:induction false} StaysDead(s: State, steps: seq<Step>)
    requires Runs(s, steps) && s.pool.magic != Alive
    ensures Run(s, steps).pool.magic != Alive
    decreases |steps|
  {
    if steps != [] { StaysDead(Apply(s, steps[0]), steps[1..]); }
  }

  // As long as the pool is alive, its peak is the most objects there ever were in use, and its failure count is the
  // number of calls that the heap had no page for.
  lemma CountersTell(size: nat, given: seq<nat>, rest: set<nat>, steps: seq<Step>)
    requires CanStart(size, given, rest) && Runs(Start(size, given, rest), steps)
    requires Run(Start(size, given, rest), steps).pool.magic == Alive
    ensures var p := Run(Start(size, given, rest), steps).pool;
            && p.peak == MostUsed(Start(size, given, rest), steps)
            && p.failed == FailsIn(Start(size, given, rest), steps)
  {
    FilledCounters(NewPool(size), given);
    RunCounters(Start(size, given, rest), steps);
  }

  lemma {:induction false} FilledCounters(p: Pool, pages: seq<nat>)
    requires p.slotSize > 0
    ensures Filled(p, pages).used == p.used && Filled(p, pages).peak == p.peak && Filled(p, pages).failed == p.failed
    decreases |pages|
  {
    if pages != [] { FilledCounters(p, pages[..|pages| - 1]); }
  }
}

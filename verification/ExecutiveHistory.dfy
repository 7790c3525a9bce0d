/**
 What the lives of processes keep over whole runs: the first termination reason, and handle tables
 that change only by the insertions and closes of Handles, so that closed handles stay closed.
 */
module ExecutiveHistory {
  import opened Option
  import opened Executive
  import opened ExecutiveRefs
  import opened ExecutiveRuns
  import H = Handles

  // ---------------------------------------------------------------- how one life evolves

  // One step does at most one thing to a slot: it stays, is taken, or is cleared.
  predicate SlotMoves(x: Slot, y: Slot) {
    || y == x
    || (x.obj.None? && y.obj.Some? && y == H.Taken(x, y.obj.value, y.rights))
    || (x.obj.Some? && y == H.Cleared(x))
  }

  ghost predicate TableMoves(t: H.Table<Obj>, u: H.Table<Obj>) {
    |u| == |t| && forall i {:trigger SlotMoves(t[i], u[i])} :: 0 <= i < |t| ==> SlotMoves(t[i], u[i])
  }

  predicate KeepsReason(a: Life, b: Life) {
    a.reason != NoReason ==> b.reason == a.reason && b.exitStatus == a.exitStatus
  }

  ghost predicate Evolves(a: Life, b: Life) {
    KeepsReason(a, b) && TableMoves(a.slots, b.slots)
  }

  // The same without a change of handles.
  predicate Plain(a: Life, b: Life) {
    KeepsReason(a, b) && b.slots == a.slots
  }

  ghost predicate ProperTable(s: State, p: nat)
    requires p < |s.procs|
  {
    H.TableOk(s.procs[p].life.slots)
  }

  // Every process evolves, and the tables of new ones are proper.
  ghost predicate AllEvolve(s: State, r: State) {
    && |s.procs| <= |r.procs|
    && (forall p {:trigger Evolves(s.procs[p].life, r.procs[p].life)} :: 0 <= p < |s.procs| ==>
          Evolves(s.procs[p].life, r.procs[p].life))
    && (forall p {:trigger ProperTable(r, p)} :: |s.procs| <= p < |r.procs| ==> ProperTable(r, p))
  }

  ghost predicate AllPlain(s: State, r: State) {
    && |s.procs| == |r.procs|
    && (forall p {:trigger Plain(s.procs[p].life, r.procs[p].life)} :: 0 <= p < |s.procs| ==>
          Plain(s.procs[p].life, r.procs[p].life))
  }

  lemma PlainEvolves(a: Life, b: Life)
    requires Plain(a, b)
    ensures Evolves(a, b)
  {
    assert forall i :: 0 <= i < |a.slots| ==> SlotMoves(a.slots[i], b.slots[i]);
  }

  lemma OneSlot(t: H.Table<Obj>, i: nat, slot: Slot)
    requires i < |t| && SlotMoves(t[i], slot)
    ensures TableMoves(t, t[i := slot])
  {
    forall k | 0 <= k < |t| ensures SlotMoves(t[k], t[i := slot][k]) {}
  }

  lemma ThenPlain(s: State, r: State, t: State)
    requires AllEvolve(s, r) && AllPlain(r, t)
    ensures AllEvolve(s, t)
  {
    forall p | 0 <= p < |s.procs| ensures Evolves(s.procs[p].life, t.procs[p].life) {
      assert Evolves(s.procs[p].life, r.procs[p].life) && Plain(r.procs[p].life, t.procs[p].life);
    }
    forall p | |s.procs| <= p < |t.procs| ensures ProperTable(t, p) {
      assert ProperTable(r, p) && Plain(r.procs[p].life, t.procs[p].life);
    }
  }

  lemma PlainThen(s: State, r: State, t: State)
    requires AllPlain(s, r) && AllEvolve(r, t)
    ensures AllEvolve(s, t)
  {
    forall p | 0 <= p < |s.procs| ensures Evolves(s.procs[p].life, t.procs[p].life) {
      assert Plain(s.procs[p].life, r.procs[p].life) && Evolves(r.procs[p].life, t.procs[p].life);
    }
    forall p | |s.procs| <= p < |t.procs| ensures ProperTable(t, p) {
      assert ProperTable(t, p);
    }
  }

  // ---------------------------------------------------------------- the pieces of a step

  lemma AllPlainEvolve(s: State, r: State)
    requires AllPlain(s, r)
    ensures AllEvolve(s, r)
  {
    forall p | 0 <= p < |s.procs| ensures Evolves(s.procs[p].life, r.procs[p].life) {
      assert Plain(s.procs[p].life, r.procs[p].life);
      PlainEvolves(s.procs[p].life, r.procs[p].life);
    }
  }

  lemma SameEvolve(s: State, r: State)
    requires |s.procs| == |r.procs| && forall p :: 0 <= p < |s.procs| ==> r.procs[p].life == s.procs[p].life
    ensures AllPlain(s, r) && AllEvolve(s, r)
  {
    forall p | 0 <= p < |s.procs| ensures Plain(s.procs[p].life, r.procs[p].life) {}
    AllPlainEvolve(s, r);
  }

  // The life of p is replaced by one it evolves to; other fields of the state do not matter.
  lemma LifeEvolve(s: State, r: State, p: nat, life: Life)
    requires p < |s.procs| && r.procs == WithLife(s, p, life).procs && Evolves(s.procs[p].life, life)
    ensures AllEvolve(s, r)
  {
    forall q | 0 <= q < |s.procs| ensures Evolves(s.procs[q].life, r.procs[q].life) {
      if q != p { PlainEvolves(s.procs[q].life, r.procs[q].life); }
    }
  }

  // A life with the same handles and reason.
  lemma PlainEvolve(s: State, r: State, p: nat, life: Life)
    requires p < |s.procs| && r.procs == WithLife(s, p, life).procs && Plain(s.procs[p].life, life)
    ensures AllPlain(s, r) && AllEvolve(s, r)
  {
    forall q | 0 <= q < |s.procs| ensures Plain(s.procs[q].life, r.procs[q].life) {}
    AllPlainEvolve(s, r);
  }

  lemma ReleaseEvolve(s: State, r: State, o: Obj)
    requires AllEvolve(s, r)
    ensures AllEvolve(s, Release(r, o))
  {
    ReleaseLives(r, o);
    SameEvolve(r, Release(r, o));
    ThenPlain(s, r, Release(r, o));
  }

  lemma RetainThen(s: State, o: Obj, r: State)
    requires AllEvolve(Retain(s, o), r)
    ensures AllEvolve(s, r)
  {
    SameEvolve(s, Retain(s, o));
    PlainThen(s, Retain(s, o), r);
  }

  lemma ClearEvolve(s: State, p: nat, i: nat, phase: Phase)
    requires p < |s.procs| && i < |s.procs[p].life.slots|
    ensures AllEvolve(s, WithLife(s, p, Cleared(s.procs[p].life, i).(phase := phase)))
  {
    var life := s.procs[p].life;
    var after := Cleared(life, i).(phase := phase);
    if life.slots[i].obj.Some? { OneSlot(life.slots, i, H.Cleared(life.slots[i])); } else { PlainEvolves(life, after); }
    LifeEvolve(s, WithLife(s, p, after), p, after);
  }

  lemma InsertEvolve(s: State, p: nat, k: nat, o: Obj, rights: set<H.Right>, phase: Phase)
    requires p < |s.procs| && k < |s.procs[p].life.slots| && s.procs[p].life.slots[k].obj.None?
    ensures AllEvolve(s, Inserted(s, p, k, o, rights, phase))
  {
    var s1, life := Retain(s, o), s.procs[p].life;
    var after := life.(slots := life.slots[k := H.Taken(life.slots[k], o, rights)], phase := phase);
    OneSlot(life.slots, k, H.Taken(life.slots[k], o, rights));
    LifeEvolve(s1, WithLife(s1, p, after), p, after);
    RetainThen(s, o, WithLife(s1, p, after));
  }

  lemma CloseAllEvolve(s: State, p: nat, next: Next, allow: bool)
    requires p < |s.procs|
    ensures AllEvolve(s, BeginCloseAll(s, p, next, allow))
  {
    var s1, life := Retain(s, Proc(p)), s.procs[p].life;
    PlainEvolve(s, WithPhase(s, p, Dropping(next)), p, life.(phase := Dropping(next)));
    PlainEvolve(s1, WithPhase(s1, p, Closing(0, next)), p, life.(phase := Closing(0, next)));
    RetainThen(s, Proc(p), WithPhase(s1, p, Closing(0, next)));
  }

  // ---------------------------------------------------------------- the steps

  lemma CreateStepEvolves(s: State, p: nat, done: nat, ok: bool)
    requires p < |s.procs|
    ensures AllEvolve(s, CreateStep(s, p, done, ok))
  {
    var life := s.procs[p].life;
    var o := if done == 4 then Stdout(p) else Proc(p);
    if done < 3 {
      var r := CreateStep(s, p, done, ok);
      PlainEvolve(s, r, p, r.procs[p].life);
    } else if CanInsert(s, p, o) {
      InsertEvolve(s, p, H.FirstFree(life.slots), o, FirstRights(done), if done < 5 then Creating(done + 1) else Owned);
    } else {
      var s1 := WithLife(s, p, life.(staged := false));
      PlainEvolve(s, s1, p, life.(staged := false));
      CloseAllEvolve(s1, p, DropProcess, false);
      PlainThen(s, s1, BeginCloseAll(s1, p, DropProcess, false));
    }
  }

  lemma FailEvolve(s: State, p: nat, t: nat, inTable: bool, slot: nat)
    requires p < |s.procs| && t < |s.threads|
    ensures AllEvolve(s, FailThread(s, p, t, inTable, slot))
  {
    var s1 := WithPhase(s, p, Threading(t, 1, 0));
    if inTable && slot < |s.procs[p].life.slots| {
      var s0 := WithLife(s, p, Cleared(s.procs[p].life, slot).(phase := Threading(t, 1, 0)));
      ClearEvolve(s, p, slot, Threading(t, 1, 0));
      ReleaseEvolve(s, s0, Thread(t));
      ReleaseLives(s0, Thread(t));
      s1 := Release(s0, Thread(t));
    } else {
      PlainEvolve(s, s1, p, s1.procs[p].life);
    }
    var s2 := WithPhase(WithPointer(s1, t, None), p, Owned);
    PlainEvolve(s1, s2, p, s1.procs[p].life.(phase := Owned));
    ThenPlain(s, s1, s2);
    ReleaseEvolve(s, s2, Thread(t));
  }

  lemma ThreadEvolve(s: State, p: nat, t: nat, done: nat, slot: nat, ok: bool)
    requires p < |s.procs| && t < |s.threads|
    ensures AllEvolve(s, ThreadStep(s, p, t, done, slot, ok))
  {
    if done == 0 && !ok {
      LetGoEvolve(s, p, Owned, Thread(t));
    } else if done == 1 {
      SelfHandleEvolve(s, p, t);
    } else if done == 0 || (done == 2 && ok) {
      var r := ThreadStep(s, p, t, done, slot, ok);
      PlainEvolve(s, r, p, r.procs[p].life);
    } else {
      PublishEvolve(s, p, t, done, slot, ok);
    }
  }

  lemma PublishEvolve(s: State, p: nat, t: nat, done: nat, slot: nat, ok: bool)
    requires p < |s.procs| && t < |s.threads| && done >= 2 && (done == 2 ==> !ok)
    ensures AllEvolve(s, ThreadStep(s, p, t, done, slot, ok))
  {
    FailEvolve(s, p, t, true, slot);
    var r := ThreadStep(s, p, t, done, slot, ok);
    if r != FailThread(s, p, t, true, slot) {
      PlainEvolve(s, r, p, s.procs[p].life.(phase := Unstarted(t)));
    }
  }

  lemma SelfHandleEvolve(s: State, p: nat, t: nat)
    requires p < |s.procs| && t < |s.threads|
    ensures AllEvolve(s, ThreadStep(s, p, t, 1, 0, true))
  {
    var k := H.FirstFree(s.procs[p].life.slots);
    if CanInsert(s, p, Thread(t)) {
      InsertEvolve(s, p, k, Thread(t), THREAD_RIGHTS, Threading(t, 2, k));
    } else {
      FailEvolve(s, p, t, false, 0);
    }
  }

  lemma FinalizeEvolve(s: State, p: nat, t: nat, done: nat, clean: bool, ok: bool)
    requires p < |s.procs| && t < |s.threads|
    ensures AllEvolve(s, FinalizeStep(s, p, t, done, clean, ok))
  {
    var r := FinalizeStep(s, p, t, done, clean, ok);
    if done == 0 {
      var s1 := Retain(s, Proc(p));
      if r.procs == WithLife(s, p, r.procs[p].life).procs {
        PlainEvolve(s, r, p, r.procs[p].life);
      } else {
        PlainEvolve(s1, r, p, r.procs[p].life);
        RetainThen(s, Proc(p), r);
      }
    } else if done <= 3 {
      PlainEvolve(s, r, p, r.procs[p].life);
    } else {
      CloseAllEvolve(s, p, Finish(t, clean), true);
    }
  }

  lemma CancelEvolve(s: State, p: nat, t: nat, done: nat)
    requires p < |s.procs|
    ensures AllEvolve(s, CancelStep(s, p, t, done))
  {
    var r := CancelStep(s, p, t, done);
    if done <= 2 { PlainEvolve(s, r, p, r.procs[p].life); } else { CloseAllEvolve(s, p, DropThread(t), false); }
  }

  lemma CloseEvolve(s: State, p: nat, i: nat, next: Next)
    requires p < |s.procs|
    ensures AllEvolve(s, CloseStep(s, p, i, next))
  {
    var life := s.procs[p].life;
    if i >= |life.slots| {
      PlainEvolve(s, WithPhase(s, p, Dropping(next)), p, life.(phase := Dropping(next)));
      ReleaseEvolve(s, WithPhase(s, p, Dropping(next)), Proc(p));
    } else {
      ClearEvolve(s, p, i, Closing(i + 1, next));
      if life.slots[i].obj.Some? {
        ReleaseEvolve(s, WithLife(s, p, Cleared(life, i).(phase := Closing(i + 1, next))), life.slots[i].obj.value);
      }
    }
  }

  lemma LetGoEvolve(s: State, p: nat, phase: Phase, o: Obj)
    requires p < |s.procs|
    ensures AllEvolve(s, Release(WithPhase(s, p, phase), o))
  {
    PlainEvolve(s, WithPhase(s, p, phase), p, s.procs[p].life.(phase := phase));
    ReleaseEvolve(s, WithPhase(s, p, phase), o);
  }

  lemma DropEvolve(s: State, p: nat, next: Next)
    requires p < |s.procs|
    ensures AllEvolve(s, DropStep(s, p, next))
  {
    match next {
      case DropProcess => LetGoEvolve(s, p, Gone, Proc(p));
      case DropThread(t) => LetGoEvolve(s, p, Gone, Thread(t));
      case Finish(t, clean) => LetGoEvolve(s, p, Completing(clean), Thread(t));
    }
  }

  lemma GoEvolve(s: State, p: nat, ok: bool)
    requires Enabled(s, Go(p, ok))
    ensures AllEvolve(s, GoStep(s, p, ok))
  {
    SameEvolve(s, s);
    var r := GoStep(s, p, ok);
    match s.procs[p].life.phase {
      case Creating(done) => CreateStepEvolves(s, p, done, ok);
      case Threading(t, done, slot) => if t < |s.threads| { ThreadEvolve(s, p, t, done, slot, ok); }
      case InCall(t, o) => LetGoEvolve(s, p, Running(t), o);
      case Finalizing(t, done, clean) => if t < |s.threads| { FinalizeEvolve(s, p, t, done, clean, ok); }
      case Cancelling(t, done) => CancelEvolve(s, p, t, done);
      case Closing(i, next) => CloseEvolve(s, p, i, next);
      case Dropping(next) => DropEvolve(s, p, next);
      case Exited(t) => PlainEvolve(s, r, p, s.procs[p].life.(phase := Finalizing(t, 0, true)));
      case Completing(clean) => CompleteEvolve(s, p, clean);
    }
  }

  lemma CompleteEvolve(s: State, p: nat, clean: bool)
    requires p < |s.procs|
    ensures AllEvolve(s, CompleteStep(s, p, clean))
  {
    var r := CompleteStep(s, p, clean);
    PlainEvolve(s, r, p, r.procs[p].life);
  }

  lemma WaitEvolve(s: State, w: nat, ok: bool)
    requires Enabled(s, WaitOn(w, ok))
    ensures AllEvolve(s, WaitStep(s, w, ok))
  {
    var p, caller, r := s.waiters[w].p, s.waiters[w].caller, WaitStep(s, w, ok);
    match s.waiters[w] {
      case Consumed(_, _) =>
        SameEvolve(s, WithWaiter(s, w, Leaving(p, caller, true)));
        ReleaseEvolve(s, WithWaiter(s, w, Leaving(p, caller, true)), Proc(p));
      case Leaving(_, _, won) =>
        SameEvolve(s, WithWaiter(s, w, Left(p, caller, won)));
        ReleaseEvolve(s, WithWaiter(s, w, Left(p, caller, won)), Proc(p));
      case Killing(_, _) => PlainEvolve(s, r, p, r.procs[p].life);
      case Waiting(_, _) => PlainEvolve(s, r, p, r.procs[p].life);
      case Woken(_, _) => PlainEvolve(s, r, p, r.procs[p].life);
    }
  }

  // System calls of a running thread.
  lemma CallEvolve(s: State, p: nat, i: nat)
    requires p < |s.procs| && s.procs[p].life.phase.Running? && i < |s.procs[p].life.slots|
    ensures AllEvolve(s, Apply(s, Resolve(p, i))) && AllEvolve(s, Apply(s, CloseHandle(p, i)))
  {
    SameEvolve(s, s);
    var life, slot := s.procs[p].life, s.procs[p].life.slots[i];
    if slot.obj.Some? {
      var s1, called := Retain(s, slot.obj.value), life.(phase := InCall(life.phase.t, slot.obj.value));
      PlainEvolve(s1, WithLife(s1, p, called), p, called);
      RetainThen(s, slot.obj.value, WithLife(s1, p, called));
      ClearEvolve(s, p, i, life.phase);
      assert Cleared(life, i).(phase := life.phase) == Cleared(life, i);
      ReleaseEvolve(s, WithLife(s, p, Cleared(life, i)), slot.obj.value);
    }
  }

  lemma DestroyEvolve(s: State, p: nat)
    requires Enabled(s, DestroyProcess(p))
    ensures AllEvolve(s, Apply(s, DestroyProcess(p)))
  {
    SameEvolve(s, s);
    var life := s.procs[p].life.(staged := false);
    var s1 := WithLife(s, p, life);
    PlainEvolve(s, s1, p, life);
    CloseAllEvolve(s1, p, DropProcess, false);
    PlainThen(s, s1, BeginCloseAll(s1, p, DropProcess, false));
  }

  lemma CreateEvolves(s: State, parent: nat)
    ensures AllEvolve(s, Apply(s, Create(parent)))
  {
    var r := Apply(s, Create(parent));
    forall p | 0 <= p < |s.procs| ensures Evolves(s.procs[p].life, r.procs[p].life) {
      PlainEvolves(s.procs[p].life, r.procs[p].life);
    }
  }

  // Every step, on every process.
  lemma StepEvolves(s: State, step: Step)
    requires Enabled(s, step)
    ensures AllEvolve(s, Apply(s, step))
  {
    var r := Apply(s, step);
    match step {
      case Create(parent) => CreateEvolves(s, parent);
      case Go(p, ok) => GoEvolve(s, p, ok);
      case DestroyProcess(p) => DestroyEvolve(s, p);
      case Resolve(p, i) => CallEvolve(s, p, i);
      case CloseHandle(p, i) => CallEvolve(s, p, i);
      case BeginWait(p, _, _) => SameEvolve(s, r);
      case WaitOn(w, ok) => WaitEvolve(s, w, ok);
      case _ => PlainEvolve(s, r, step.p, r.procs[step.p].life);
    }
  }

  // ---------------------------------------------------------------- what follows

  // The first termination reason, and the status that came with it, are never overwritten.
  lemma {:induction false} ReasonKept(s: State, steps: seq<Step>, p: nat)
    requires Runs(s, steps) && p < |s.procs| && s.procs[p].life.reason != NoReason
    ensures var t := Run(s, steps);
            && p < |t.procs| && t.procs[p].life.reason == s.procs[p].life.reason
            && t.procs[p].life.exitStatus == s.procs[p].life.exitStatus
    decreases |steps|
  {
    if steps != [] {
      var r := Apply(s, steps[0]);
      StepEvolves(s, steps[0]);
      assert Evolves(s.procs[p].life, r.procs[p].life);
      ReasonKept(r, steps[1..], p);
    }
  }

  // Slot i of process p is in use before and free after.
  predicate Closed(s: State, r: State, p: nat, i: nat) {
    && p < |s.procs| && i < |s.procs[p].life.slots| && s.procs[p].life.slots[i].obj.Some?
    && p < |r.procs| && i < |r.procs[p].life.slots| && r.procs[p].life.slots[i].obj.None?
  }

  // How often the steps of a run have closed slot i of process p.
  function ClosesIn(s: State, steps: seq<Step>, p: nat, i: nat): nat
    requires Runs(s, steps)
    decreases |steps|
  {
    if steps == [] then 0
    else
      var r := Apply(s, steps[0]);
      (if Closed(s, r, p, i) then 1 else 0) + ClosesIn(r, steps[1..], p, i)
  }

  lemma MovedOk(t: H.Table<Obj>, u: H.Table<Obj>)
    requires H.TableOk(t) && TableMoves(t, u)
    ensures H.TableOk(u)
  {
    forall i | 0 <= i < H.SLOTS
      ensures u[i].generation < H.GENERATIONS && (u[i].obj.Some? ==> u[i].generation > 0)
    {
      assert SlotMoves(t[i], u[i]);
    }
  }

  // Over any run a slot that has been used moves on one generation for every step that closes it.
  lemma {:induction false} RunGeneration(s: State, steps: seq<Step>, p: nat, i: nat)
    requires Runs(s, steps) && p < |s.procs| && ProperTable(s, p) && i < H.SLOTS
    requires s.procs[p].life.slots[i].generation > 0
    ensures var t := Run(s, steps);
            && p < |t.procs| && ProperTable(t, p)
            && t.procs[p].life.slots[i].generation
               == H.AdvanceTimes(s.procs[p].life.slots[i].generation, ClosesIn(s, steps, p, i))
    decreases |steps|
  {
    if steps != [] {
      var r := Apply(s, steps[0]);
      StepEvolves(s, steps[0]);
      assert Evolves(s.procs[p].life, r.procs[p].life);
      MovedOk(s.procs[p].life.slots, r.procs[p].life.slots);
      MovedGeneration(s.procs[p].life.slots, r.procs[p].life.slots, i);
      RunGeneration(r, steps[1..], p, i);
      var g, n := s.procs[p].life.slots[i].generation, if Closed(s, r, p, i) then 1 else 0;
      H.AdvanceSum(g, n, ClosesIn(r, steps[1..], p, i));
    }
  }

  lemma MovedGeneration(t: H.Table<Obj>, u: H.Table<Obj>, i: nat)
    requires TableMoves(t, u) && i < |t| && t[i].generation > 0
    ensures u[i].generation == H.AdvanceTimes(t[i].generation, if t[i].obj.Some? && u[i].obj.None? then 1 else 0)
  {
    assert SlotMoves(t[i], u[i]);
    assert H.AdvanceTimes(t[i].generation, 1) == H.Advance(H.AdvanceTimes(t[i].generation, 0));
  }

  // ExHandleClose is such a step exactly when the handle has the close right and is not a listed process's or thread's
  // handle to itself; otherwise it changes nothing.
  lemma CloseCounts(s: State, p: nat, i: nat)
    requires Enabled(s, CloseHandle(p, i))
    ensures var slot, r := s.procs[p].life.slots[i], Apply(s, CloseHandle(p, i));
            var listed := match slot.obj
                          case None => false
                          case Some(o) =>
                            (o.Proc? && o.p in s.processTable) || (o.Thread? && o.t in s.threadTable);
            && (Closed(s, r, p, i) <==>
                  slot.obj.Some? && H.CloseRight in slot.rights
                  && (listed ==> H.ProcessSelf !in slot.rights && H.ThreadSelf !in slot.rights))
            && (!Closed(s, r, p, i) ==> r == s)
  {
    var life := s.procs[p].life;
    if life.slots[i].obj.Some? {
      ReleaseLives(WithLife(s, p, Cleared(life, i)), life.slots[i].obj.value);
    }
  }

  lemma {:induction false} RunProper(s: State, steps: seq<Step>, p: nat)
    requires Runs(s, steps) && p < |Run(s, steps).procs| && (p < |s.procs| ==> ProperTable(s, p))
    ensures ProperTable(Run(s, steps), p)
    decreases |steps|
  {
    if steps != [] {
      var r := Apply(s, steps[0]);
      StepEvolves(s, steps[0]);
      if p < |s.procs| {
        assert Evolves(s.procs[p].life, r.procs[p].life);
        MovedOk(s.procs[p].life.slots, r.procs[p].life.slots);
      } else if p < |r.procs| {
        assert ProperTable(r, p);
      }
      RunProper(r, steps[1..], p);
    }
  }

  // In every reachable state each process's table is a proper handle table.
  lemma TablesOk(steps: seq<Step>, p: nat)
    requires Runs(NO_PROCESSES, steps) && p < |Run(NO_PROCESSES, steps).procs|
    ensures H.TableOk(Run(NO_PROCESSES, steps).procs[p].life.slots)
  {
    RunProper(NO_PROCESSES, steps, p);
  }

  // A process's handle table at the end of a run.
  function RunSlots(s: State, steps: seq<Step>, p: nat): H.Table<Obj>
    requires Runs(s, steps)
  {
    if p < |Run(s, steps).procs| then Run(s, steps).procs[p].life.slots else []
  }

  // From any reachable state on: what a handle of slot i names after a run is decided by how often the run has
  // closed that slot. It names no other slot, and slot i exactly when the slot is in use and the number of its
  // closes is a multiple of 2^24 - 1.
  lemma HandleAfterRun(before: seq<Step>, after: seq<Step>, p: nat, i: nat, handle: nat, k: nat)
    requires Runs(NO_PROCESSES, before) && Runs(Run(NO_PROCESSES, before), after)
    requires H.Names(RunSlots(NO_PROCESSES, before, p), handle, i)
    ensures var s := Run(NO_PROCESSES, before);
            var slots := RunSlots(s, after, p);
            && |slots| == H.SLOTS
            && (H.Names(slots, handle, k) <==>
                  k == i && slots[i].obj.Some? && ClosesIn(s, after, p, i) % (H.GENERATIONS - 1) == 0)
  {
    var s := Run(NO_PROCESSES, before);
    TablesOk(before, p);
    RunGeneration(s, after, p, i);
    H.Period(s.procs[p].life.slots[i].generation, ClosesIn(s, after, p, i));
  }

  // So a handle whose slot has been closed names nothing again until the slot has been closed 2^24 - 2 times more.
  lemma HandlesStayClosed(before: seq<Step>, after: seq<Step>, p: nat, i: nat, handle: nat)
    requires Runs(NO_PROCESSES, before) && Runs(Run(NO_PROCESSES, before), after)
    requires H.Names(RunSlots(NO_PROCESSES, before, p), handle, i)
    ensures var s := Run(NO_PROCESSES, before);
            var n, slots := ClosesIn(s, after, p, i), RunSlots(s, after, p);
            && |slots| == H.SLOTS
            && (0 < n < H.GENERATIONS - 1 ==> forall k: nat :: !H.Names(slots, handle, k))
            && (n == H.GENERATIONS - 1 ==> (H.Names(slots, handle, i) <==> slots[i].obj.Some?))
  {
    var s := Run(NO_PROCESSES, before);
    var n, slots := ClosesIn(s, after, p, i), RunSlots(s, after, p);
    HandleAfterRun(before, after, p, i, handle, i);
    H.WithinPeriod(n);
    forall k: nat | 0 < n < H.GENERATIONS - 1 ensures !H.Names(slots, handle, k) {
      HandleAfterRun(before, after, p, i, handle, k);
    }
  }
}

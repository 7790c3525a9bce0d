/**
 Whole runs of the executive: the invariant holds in every reachable state, and what follows from
 it about destruction, the tables, completion and termination reasons.
 */
module ExecutiveRuns {
  import opened Option
  import opened Executive
  import opened ExecutiveInv
  import opened ExecutiveRefs
  import opened ExecutiveSteps
  import H = Handles

  const NO_PROCESSES := State([], [], [], {}, {})

  // ---------------------------------------------------------------- the remaining steps

  lemma DestroyKeeps(s: State, p: nat)
    requires Inv(s, multiset{}) && Enabled(s, DestroyProcess(p))
    ensures Inv(Apply(s, DestroyProcess(p)), multiset{})
  {
    AbandonKeeps(s, p);
  }

  lemma ResolveKeeps(s: State, p: nat, i: nat)
    requires Inv(s, multiset{}) && Enabled(s, Resolve(p, i)) && s.procs[p].life.slots[i].obj.Some?
    requires Refs(s, s.procs[p].life.slots[i].obj.value) > 0
    ensures Inv(Apply(s, Resolve(p, i)), multiset{})
  {
    var life, o := s.procs[p].life, s.procs[p].life.slots[i].obj.value;
    var after := life.(phase := InCall(life.phase.t, o));
    assert LifeOk(s, p) && SlotOk(s, p, life.slots[i]);
    Retained(s, o, p);
    assert SlotOk(Retain(s, o), p, life.slots[i]);
    TakeUp(Retain(s, o), p, after, o);
  }

  lemma CloseHandleKeeps(s: State, p: nat, i: nat)
    requires Inv(s, multiset{}) && Enabled(s, CloseHandle(p, i))
    ensures Inv(Apply(s, CloseHandle(p, i)), multiset{})
  {
    var life := s.procs[p].life;
    assert LifeOk(s, p);
    if life.slots[i].obj.Some? && MayClose(s, life.slots[i], false) {
      ClearedOk(s, p, i, life.phase);
      ClearKeeps(s, p, i, life.phase);
      assert Cleared(life, i).(phase := life.phase) == Cleared(life, i);
      Dropped(WithLife(s, p, Cleared(life, i)), life.slots[i].obj.value);
    }
  }

  lemma StartKeeps(s: State, p: nat)
    requires Inv(s, multiset{}) && Enabled(s, Start(p))
    ensures Inv(Apply(s, Start(p)), multiset{})
  {
    var life := s.procs[p].life;
    assert LifeOk(s, p);
    PlainKeeps(s, p, life.(phase := Running(life.phase.t), started := true, state := Ready));
  }

  lemma CancelKeeps(s: State, p: nat)
    requires Inv(s, multiset{}) && Enabled(s, Cancel(p))
    ensures Inv(Apply(s, Cancel(p)), multiset{})
  {
    var life := s.procs[p].life;
    assert LifeOk(s, p);
    PlainKeeps(s, p, life.(phase := Cancelling(life.phase.t, 0)));
  }

  lemma RunningKeeps(s: State, step: Step)
    requires Inv(s, multiset{}) && Enabled(s, step) && (step.Mark? || step.Exit?)
    ensures Inv(Apply(s, step), multiset{})
  {
    var life := s.procs[step.p].life;
    assert LifeOk(s, step.p);
    match step {
      case Mark(p, reason, status) => PlainKeeps(s, p, life.(reason := reason, exitStatus := status));
      case Exit(p) => PlainKeeps(s, p, life.(phase := Exited(life.phase.t)));
    }
  }

  // ---------------------------------------------------------------- waiting

  lemma WaiterKeeps(s: State, w: nat, waiter: Waiter, left: multiset<Obj>)
    requires Inv(s, multiset{}) && w < |s.waiters| && WaiterOk(WithWaiter(s, w, waiter), w)
    requires forall o :: WaiterHeld(s.waiters[w], o) == WaiterHeld(waiter, o) + left[o]
    ensures Inv(WithWaiter(s, w, waiter), left)
  {
    var s' := WithWaiter(s, w, waiter);
    forall o ensures Balanced(s', left, o) {
      assert Balanced(s, multiset{}, o);
      SumUpdate(s.waiters, WaiterHeld, o, w, waiter);
    }
    forall p | 0 <= p < |s.procs| ensures LifeOk(s', p) {
      assert LifeOk(s, p);
      Grown(s, s', p);
    }
    forall t | 0 <= t < |s.threads| ensures ThreadOk(s', t) { assert ThreadOk(s, t); }
    forall v | 0 <= v < |s.waiters| ensures WaiterOk(s', v) { assert WaiterOk(s, v); }
  }

  // ExRuntimeConsumeCompletedProcess: the completion reference passes to the waiter.
  lemma ConsumeKeeps(s: State, w: nat)
    requires Inv(s, multiset{}) && Enabled(s, WaitOn(w, true)) && s.waiters[w].Woken? && CanConsume(s, s.waiters[w].p)
    ensures Inv(WaitStep(s, w, true), multiset{})
    ensures s.procs[s.waiters[w].p].life.consumer == None
  {
    var p := s.waiters[w].p;
    var life, o := s.procs[p].life, Proc(p);
    var after := life.(retained := false, consumer := Some(w));
    assert LifeOk(s, p);
    var s1 := WithLife(s, p, after).(processTable := s.processTable - {p});
    NewLifeOk(s, s1, p, after);
    forall x ensures Even(p, life, after, multiset{}, multiset{o}, x) {}
    forall t | 0 <= t < |s.threads| && s.threads[t].owner == p && t in s1.threadTable
      ensures PhaseThread(after.phase) == Some(t)
    {
      assert ThreadOk(s, t);
    }
    MoveKeeps(s, s1, p, after, multiset{}, multiset{o});
    TakeOver(s1, w, p);
  }

  lemma TakeOver(s: State, w: nat, p: nat)
    requires Inv(s, multiset{Proc(p)}) && w < |s.waiters| && s.waiters[w].Woken? && s.waiters[w].p == p
    requires p < |s.procs| && s.procs[p].life.consumer == Some(w)
    ensures Inv(WithWaiter(s, w, Consumed(p, s.waiters[w].caller)), multiset{})
  {
    var waiter := Consumed(p, s.waiters[w].caller);
    var s' := WithWaiter(s, w, waiter);
    forall o ensures Balanced(s', multiset{}, o) {
      assert Balanced(s, multiset{Proc(p)}, o);
      SumUpdate(s.waiters, WaiterHeld, o, w, waiter);
    }
    forall q | 0 <= q < |s.procs| ensures LifeOk(s', q) {
      assert LifeOk(s, q);
      Grown(s, s', q);
    }
    forall t | 0 <= t < |s.threads| ensures ThreadOk(s', t) { assert ThreadOk(s, t); }
    forall v | 0 <= v < |s.waiters| ensures WaiterOk(s', v) { assert WaiterOk(s, v); }
  }

  lemma LeaveKeeps(s: State, w: nat, waiter: Waiter)
    requires Inv(s, multiset{}) && w < |s.waiters|
    requires s.waiters[w].p == waiter.p
    requires || (s.waiters[w].Consumed? && waiter.Leaving? && waiter.won)
             || (s.waiters[w].Leaving? && waiter.Left? && waiter.won == s.waiters[w].won)
    ensures Inv(Release(WithWaiter(s, w, waiter), Proc(waiter.p)), multiset{})
  {
    assert WaiterOk(s, w);
    WaiterKeeps(s, w, waiter, multiset{Proc(waiter.p)});
    Dropped(WithWaiter(s, w, waiter), Proc(waiter.p));
  }

  lemma KillKeeps(s: State, w: nat)
    requires Inv(s, multiset{}) && w < |s.waiters| && s.waiters[w].Killing? && s.waiters[w].p < |s.procs|
    ensures var p, waiter := s.waiters[w].p, Waiting(s.waiters[w].p, s.waiters[w].caller);
            Inv(WithWaiter(WithLife(s, p, s.procs[p].life.(killRequested := true)), w, waiter), multiset{})
  {
    var p := s.waiters[w].p;
    var life := s.procs[p].life.(killRequested := true);
    assert LifeOk(s, p);
    PlainKeeps(s, p, life);
    WaiterKeeps(WithLife(s, p, life), w, Waiting(p, s.waiters[w].caller), multiset{});
  }

  lemma WaitKeeps(s: State, w: nat, ok: bool)
    requires Inv(s, multiset{}) && Enabled(s, WaitOn(w, ok))
    ensures Inv(WaitStep(s, w, ok), multiset{})
  {
    var p, caller := s.waiters[w].p, s.waiters[w].caller;
    var life, gaveUp := s.procs[p].life, Leaving(p, caller, false);
    assert WaiterOk(s, w) && LifeOk(s, p);
    match s.waiters[w] {
      case Killing(_, _) =>
        if life.killRequested { WaiterKeeps(s, w, gaveUp, multiset{}); } else { KillKeeps(s, w); }
      case Waiting(_, _) => WaiterKeeps(s, w, if ok then Woken(p, caller) else gaveUp, multiset{});
      case Woken(_, _) =>
        if CanConsume(s, p) {
          ConsumeKeeps(s, w);
        } else {
          WaiterKeeps(s, w, gaveUp, multiset{});
        }
      case Consumed(_, _) => LeaveKeeps(s, w, Leaving(p, caller, true));
      case Leaving(_, _, won) => LeaveKeeps(s, w, Left(p, caller, won));
    }
  }

  lemma BeginWaitKeeps(s: State, p: nat, parent: nat, kill: bool)
    requires Inv(s, multiset{})
    ensures Inv(Apply(s, BeginWait(p, parent, kill)), multiset{})
  {
    if Apply(s, BeginWait(p, parent, kill)) != s {
      RetainKeeps(s, Proc(p), multiset{});
      assert multiset{} + multiset{Proc(p)} == multiset{Proc(p)};
      JoinKeeps(Retain(s, Proc(p)), p, if kill then Killing(p, parent) else Waiting(p, parent));
    }
  }

  lemma JoinKeeps(s: State, p: nat, waiter: Waiter)
    requires Inv(s, multiset{Proc(p)}) && p < |s.procs| && waiter.p == p && (waiter.Killing? || waiter.Waiting?)
    ensures Inv(s.(waiters := s.waiters + [waiter]), multiset{})
  {
    var s', n := s.(waiters := s.waiters + [waiter]), |s.waiters|;
    forall o ensures Balanced(s', multiset{}, o) {
      assert Balanced(s, multiset{Proc(p)}, o);
      SumAppend(s.waiters, WaiterHeld, o, waiter);
    }
    forall q | 0 <= q < |s.procs| ensures LifeOk(s', q) {
      assert LifeOk(s, q);
      Grown(s, s', q);
    }
    forall t | 0 <= t < |s.threads| ensures ThreadOk(s', t) { assert ThreadOk(s, t); }
    forall v | 0 <= v <= n ensures WaiterOk(s', v) {
      if v < n { assert WaiterOk(s, v); }
    }
  }

  lemma ApplyKeeps(s: State, step: Step)
    requires Inv(s, multiset{}) && Enabled(s, step)
    ensures Inv(Apply(s, step), multiset{})
  {
    match step {
      case Create(parent) => CreateKeeps(s, parent);
      case Go(p, ok) => GoKeeps(s, p, ok);
      case BeginThread(p) => BeginThreadKeeps(s, p);
      case DestroyProcess(p) => DestroyKeeps(s, p);
      case Start(p) => StartKeeps(s, p);
      case Cancel(p) => CancelKeeps(s, p);
      case Resolve(p, i) =>
        var slot := s.procs[p].life.slots[i];
        if slot.obj.Some? && Refs(s, slot.obj.value) > 0 { ResolveKeeps(s, p, i); }
      case CloseHandle(p, i) => CloseHandleKeeps(s, p, i);
      case BeginWait(p, parent, kill) => BeginWaitKeeps(s, p, parent, kill);
      case WaitOn(w, ok) => WaitKeeps(s, w, ok);
      case _ => RunningKeeps(s, step);
    }
  }

  // ---------------------------------------------------------------- runs

  predicate Runs(s: State, steps: seq<Step>)
    decreases |steps|
  {
    steps == [] || (Enabled(s, steps[0]) && Runs(Apply(s, steps[0]), steps[1..]))
  }

  function Run(s: State, steps: seq<Step>): State
    requires Runs(s, steps)
    decreases |steps|
  {
    if steps == [] then s else Run(Apply(s, steps[0]), steps[1..])
  }

  lemma {:induction false} RunKeeps(s: State, steps: seq<Step>)
    requires Inv(s, multiset{}) && Runs(s, steps)
    ensures Inv(Run(s, steps), multiset{})
    decreases |steps|
  {
    if steps != [] {
      ApplyKeeps(s, steps[0]);
      RunKeeps(Apply(s, steps[0]), steps[1..]);
    }
  }

  lemma Reachable(steps: seq<Step>)
    requires Runs(NO_PROCESSES, steps)
    ensures Inv(Run(NO_PROCESSES, steps), multiset{})
  {
    forall o ensures Balanced(NO_PROCESSES, multiset{}, o) {}
    RunKeeps(NO_PROCESSES, steps);
  }

  // ---------------------------------------------------------------- counts and destruction

  // In every reachable state an object's count is the number of its holders, and it has been destroyed
  // once if that number is zero and not at all otherwise.
  lemma CountsAreHolders(steps: seq<Step>, o: Obj)
    requires Runs(NO_PROCESSES, steps)
    ensures var s := Run(NO_PROCESSES, steps);
            && Refs(s, o) == Held(s, o)
            && (forall p :: 0 <= p < |s.procs| ==>
                  && s.procs[p].obj.destroyed == (if Held(s, Proc(p)) == 0 then 1 else 0)
                  && s.procs[p].stdout.destroyed == (if Held(s, Stdout(p)) == 0 then 1 else 0))
            && (forall t :: 0 <= t < |s.threads| ==>
                  s.threads[t].obj.destroyed == if Held(s, Thread(t)) == 0 then 1 else 0)
  {
    Reachable(steps);
    CountsHeld(Run(NO_PROCESSES, steps), o);
  }

  lemma CountsHeld(s: State, o: Obj)
    requires Inv(s, multiset{})
    ensures Refs(s, o) == Held(s, o)
    ensures forall p :: 0 <= p < |s.procs| ==>
              && s.procs[p].obj.destroyed == (if Held(s, Proc(p)) == 0 then 1 else 0)
              && s.procs[p].stdout.destroyed == (if Held(s, Stdout(p)) == 0 then 1 else 0)
    ensures forall t :: 0 <= t < |s.threads| ==> s.threads[t].obj.destroyed == if Held(s, Thread(t)) == 0 then 1 else 0
  {
    assert Balanced(s, multiset{}, o);
    forall p | 0 <= p < |s.procs|
      ensures s.procs[p].obj.destroyed == (if Held(s, Proc(p)) == 0 then 1 else 0)
      ensures s.procs[p].stdout.destroyed == (if Held(s, Stdout(p)) == 0 then 1 else 0)
    {
      assert Balanced(s, multiset{}, Proc(p)) && Balanced(s, multiset{}, Stdout(p)) && ProcCountOk(s.procs[p]);
    }
    forall t | 0 <= t < |s.threads| ensures s.threads[t].obj.destroyed == if Held(s, Thread(t)) == 0 then 1 else 0 {
      assert Balanced(s, multiset{}, Thread(t)) && ThreadCountOk(s.threads[t]);
    }
  }

  // A process that a call is at work on, or that a waiter holds, is alive: no step touches a freed object.
  lemma AliveWhileUsed(steps: seq<Step>, p: nat)
    requires Runs(NO_PROCESSES, steps) && p < |Run(NO_PROCESSES, steps).procs|
    ensures var s := Run(NO_PROCESSES, steps);
            || s.procs[p].life.phase != Gone
            || (exists w :: 0 <= w < |s.waiters| && s.waiters[w].p == p && !s.waiters[w].Left?) ==>
              s.procs[p].obj.destroyed == 0 && s.procs[p].stdout.destroyed == 0
  {
    var s := Run(NO_PROCESSES, steps);
    Reachable(steps);
    assert LifeOk(s, p) && Balanced(s, multiset{}, Proc(p)) && ProcCountOk(s.procs[p]);
    if s.procs[p].life.phase != Gone {
      ActiveHeld(s, p);
    } else if w :| 0 <= w < |s.waiters| && s.waiters[w].p == p && !s.waiters[w].Left? {
      SumUpdate(s.waiters, WaiterHeld, Proc(p), w, s.waiters[w]);
    }
    StdoutLives(s, p);
  }

  // The stdout service lives exactly as long as its process.
  lemma StdoutLives(s: State, p: nat)
    requires Inv(s, multiset{}) && p < |s.procs|
    ensures s.procs[p].stdout.destroyed == s.procs[p].obj.destroyed
  {
    assert Balanced(s, multiset{}, Proc(p)) && Balanced(s, multiset{}, Stdout(p));
    assert LifeOk(s, p) && ProcCountOk(s.procs[p]);
    if s.procs[p].life.phase == Gone {
      StdoutHeld(s, p);
    } else {
      ActiveHeld(s, p);
      SumUpdate(s.procs, ProcHeld, Stdout(p), p, s.procs[p]);
    }
  }

  // Table entries are not counted, but every one points at a live object.
  lemma TableEntriesLive(steps: seq<Step>, i: nat)
    requires Runs(NO_PROCESSES, steps)
    ensures var s := Run(NO_PROCESSES, steps);
            && (i in s.processTable ==> i < |s.procs| && s.procs[i].obj.destroyed == 0)
            && (i in s.threadTable ==> i < |s.threads| && s.threads[i].obj.destroyed == 0)
  {
    var s := Run(NO_PROCESSES, steps);
    Reachable(steps);
    if i in s.processTable { ListedProcessLives(s, i); }
    if i in s.threadTable { ListedThreadLives(s, i); }
  }

  lemma ListedProcessLives(s: State, p: nat)
    requires Inv(s, multiset{}) && p in s.processTable
    ensures p < |s.procs| && s.procs[p].obj.destroyed == 0
  {
    assert LifeOk(s, p) && Balanced(s, multiset{}, Proc(p)) && ProcCountOk(s.procs[p]);
    if s.procs[p].life.phase != Gone {
      ActiveHeld(s, p);
    } else {
      SumUpdate(s.procs, ProcHeld, Proc(p), p, s.procs[p]);
    }
  }

  lemma ListedThreadLives(s: State, t: nat)
    requires Inv(s, multiset{}) && t in s.threadTable
    ensures t < |s.threads| && s.threads[t].obj.destroyed == 0
  {
    assert ThreadOk(s, t) && Balanced(s, multiset{}, Thread(t)) && ThreadCountOk(s.threads[t]);
    var p := s.threads[t].owner;
    assert LifeOk(s, p);
    SumUpdate(s.procs, ProcHeld, Thread(t), p, s.procs[p]);
  }

  // ---------------------------------------------------------------- completion

  // The completion reference is taken at most once, and released to at most one of all the waiters.
  lemma OneConsumer(steps: seq<Step>, v: nat, w: nat)
    requires Runs(NO_PROCESSES, steps)
    ensures var s := Run(NO_PROCESSES, steps);
            && (forall p :: 0 <= p < |s.procs| ==>
                  s.procs[p].life.taken <= 1 && (s.procs[p].life.consumer != None ==> s.procs[p].life.taken == 1))
            && (v < |s.waiters| && w < |s.waiters| && s.waiters[v].p == s.waiters[w].p ==>
                  HasConsumed(s.waiters[v]) && HasConsumed(s.waiters[w]) ==> v == w)
  {
    var s := Run(NO_PROCESSES, steps);
    Reachable(steps);
    forall p | 0 <= p < |s.procs|
      ensures s.procs[p].life.taken <= 1 && (s.procs[p].life.consumer != None ==> s.procs[p].life.taken == 1)
    {
      assert LifeOk(s, p);
    }
    if v < |s.waiters| && w < |s.waiters| {
      assert WaiterOk(s, v) && WaiterOk(s, w);
    }
  }

  // A process that was started is freed only after a waiter has consumed it.
  lemma FreedAfterConsumed(steps: seq<Step>, p: nat)
    requires Runs(NO_PROCESSES, steps) && p < |Run(NO_PROCESSES, steps).procs|
    ensures var proc := Run(NO_PROCESSES, steps).procs[p];
            proc.life.started && proc.obj.destroyed > 0 ==> proc.life.consumer != None && proc.life.signaled
  {
    var s := Run(NO_PROCESSES, steps);
    Reachable(steps);
    assert LifeOk(s, p) && Balanced(s, multiset{}, Proc(p)) && ProcCountOk(s.procs[p]);
    SumUpdate(s.procs, ProcHeld, Proc(p), p, s.procs[p]);
    if s.procs[p].life.phase != Gone { ActiveHeld(s, p); }
  }

  // When no call is at work on a process, its completion reference is gone and all its waiters have left,
  // the process, its stdout service and every thread made for it are destroyed.
  lemma NothingLeaks(steps: seq<Step>, p: nat)
    requires Runs(NO_PROCESSES, steps) && p < |Run(NO_PROCESSES, steps).procs|
    requires var s := Run(NO_PROCESSES, steps);
             && s.procs[p].life.phase == Gone && !s.procs[p].life.retained
             && forall w :: 0 <= w < |s.waiters| && s.waiters[w].p == p ==> s.waiters[w].Left?
    ensures var s := Run(NO_PROCESSES, steps);
            && s.procs[p].obj.destroyed == 1 && s.procs[p].stdout.destroyed == 1
            && forall t :: 0 <= t < |s.threads| && s.threads[t].owner == p ==> s.threads[t].obj.destroyed == 1
  {
    var s := Run(NO_PROCESSES, steps);
    Reachable(steps);
    forall t | 0 <= t < |s.threads| && s.threads[t].owner == p
      ensures s.threads[t].obj.destroyed == 1 && s.threads[t].process == None
    {
      ThreadFreed(s, p, t);
    }
    forall q | 0 <= q < |s.procs| ensures ProcHeld(s.procs[q], Proc(p)) == 0 {
      NotHeldBy(s, p, q, Proc(p));
    }
    SumZero(s.procs, ProcHeld, Proc(p));
    forall t | 0 <= t < |s.threads| ensures ThreadHeld(s.threads[t], Proc(p)) == 0 {
      assert ThreadOk(s, t);
    }
    SumZero(s.threads, ThreadHeld, Proc(p));
    SumZero(s.waiters, WaiterHeld, Proc(p));
    assert Balanced(s, multiset{}, Proc(p)) && ProcCountOk(s.procs[p]);
    StdoutLives(s, p);
  }

  // Nobody's handles or calls hold a process or a thread of a process that is over.
  lemma NotHeldBy(s: State, p: nat, q: nat, o: Obj)
    requires Inv(s, multiset{}) && p < |s.procs| && q < |s.procs| && s.procs[p].life.phase == Gone
    requires !s.procs[p].life.retained
    requires !o.Stdout? && OwnObject(s, p, o)
    ensures ProcHeld(s.procs[q], o) == 0
  {
    var life := s.procs[q].life;
    assert LifeOk(s, q) && LifeOk(s, p);
    forall i | 0 <= i < |life.slots| ensures SlotHeld(life.slots[i], o) == 0 {
      assert SlotOk(s, q, life.slots[i]);
    }
    SumZero(life.slots, SlotHeld, o);
  }

  // A thread whose process is over has been destroyed; it no longer points at the process.
  lemma ThreadFreed(s: State, p: nat, t: nat)
    requires Inv(s, multiset{}) && p < |s.procs| && s.procs[p].life.phase == Gone && !s.procs[p].life.retained
    requires t < |s.threads| && s.threads[t].owner == p
    ensures s.threads[t].obj.destroyed == 1 && s.threads[t].process == None
  {
    var o := Thread(t);
    forall q | 0 <= q < |s.procs| ensures ProcHeld(s.procs[q], o) == 0 {
      NotHeldBy(s, p, q, o);
    }
    SumZero(s.procs, ProcHeld, o);
    SumZero(s.threads, ThreadHeld, o);
    SumZero(s.waiters, WaiterHeld, o);
    assert Balanced(s, multiset{}, o) && ThreadCountOk(s.threads[t]) && ThreadOk(s, t);
  }
}

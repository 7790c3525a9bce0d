/**
 Every way out of the executive comes to its end: the steps that finalize, cancel or destroy a process are always
 possible and there are a fixed number of them, and a process that was finalized cleanly can then be consumed by
 whoever waits for it.
 */
module ExecutiveProgress {
  import opened Executive
  import opened ExecutiveInv
  import opened ExecutiveRefs
  import opened ExecutiveSteps
  import H = Handles
  import opened ExecutiveRuns

  // On the way to the end of the process.
  predicate Winding(phase: Phase) {
    phase.Exited? || phase.Finalizing? || phase.Cancelling? || phase.Closing? || phase.Dropping? || phase.Completing?
  }

  // On the way from exit to completion, with everything successful so far.
  predicate Finishing(phase: Phase) {
    match phase
    case Exited(_) => true
    case Finalizing(_, _, clean) => clean
    case Closing(_, next) => next.Finish? && next.clean
    case Dropping(next) => next.Finish? && next.clean
    case Completing(clean) => clean
    case _ => false
  }

  function RankOfNext(next: Next): nat {
    if next.Finish? then 2 else 1
  }

  // How many steps are left.
  function Rank(phase: Phase): nat
    requires InBounds(phase)
  {
    match phase
    case Exited(_) => 41
    case Finalizing(_, done, _) => 40 - done
    case Cancelling(_, done) => 38 - done
    case Closing(i, next) => RankOfNext(next) + 1 + (H.SLOTS - i)
    case Dropping(next) => RankOfNext(next)
    case Completing(_) => 1
    case _ => 0
  }

  function After(phase: Phase): Phase
    requires Winding(phase) && InBounds(phase)
  {
    match phase
    case Exited(t) => Finalizing(t, 0, true)
    case Finalizing(t, done, clean) =>
      if done < 4 then Finalizing(t, done + 1, done == 2 || clean) else Closing(0, Finish(t, clean))
    case Cancelling(t, done) => if done < 3 then Cancelling(t, done + 1) else Closing(0, DropThread(t))
    case Closing(i, next) => if i < H.SLOTS then Closing(i + 1, next) else Dropping(next)
    case Dropping(next) => if next.Finish? then Completing(next.clean) else Gone
    case Completing(_) => Gone
  }

  lemma AfterRank(phase: Phase)
    requires Winding(phase) && InBounds(phase)
    ensures InBounds(After(phase)) && Rank(After(phase)) == Rank(phase) - 1
    ensures Winding(After(phase)) || After(phase) == Gone
    ensures Finishing(phase) ==> Finishing(After(phase)) || After(phase) == Gone
  {}

  // Each step moves the process on by one.
  lemma GoMoves(s: State, p: nat)
    requires Inv(s, multiset{}) && p < |s.procs| && Winding(s.procs[p].life.phase)
    ensures InBounds(s.procs[p].life.phase)
    ensures Enabled(s, Go(p, true)) && p < |GoStep(s, p, true).procs|
    ensures GoStep(s, p, true).procs[p].life.phase == After(s.procs[p].life.phase)
    ensures s.procs[p].life.phase == Completing(true) ==> CanConsume(GoStep(s, p, true), p)
  {
    var life := s.procs[p].life;
    assert LifeOk(s, p);
    match life.phase {
      case Finalizing(_, _, _) => FinalizeMoves(s, p);
      case Cancelling(_, _) => CancelMoves(s, p);
      case Closing(i, next) => CloseMoves(s, p, i, next);
      case Dropping(next) => DropMoves(s, p, next);
      case _ =>
    }
  }

  lemma FinalizeMoves(s: State, p: nat)
    requires StateOk(s) && p < |s.procs| && s.procs[p].life.phase.Finalizing?
    ensures InBounds(s.procs[p].life.phase) && p < |GoStep(s, p, true).procs|
    ensures GoStep(s, p, true).procs[p].life.phase == After(s.procs[p].life.phase)
  {
    assert LifeOk(s, p);
    if s.procs[p].life.phase.done == 4 { assert MayCloseAll(s, p, true); }
  }

  lemma CancelMoves(s: State, p: nat)
    requires Inv(s, multiset{}) && p < |s.procs| && s.procs[p].life.phase.Cancelling?
    ensures InBounds(s.procs[p].life.phase) && p < |GoStep(s, p, true).procs|
    ensures GoStep(s, p, true).procs[p].life.phase == After(s.procs[p].life.phase)
  {
    assert LifeOk(s, p);
    if s.procs[p].life.phase.done == 3 { UnlistedMayClose(s, p); }
  }

  lemma DropMoves(s: State, p: nat, next: Next)
    requires p < |s.procs|
    ensures p < |DropStep(s, p, next).procs|
    ensures DropStep(s, p, next).procs[p].life.phase == After(Dropping(next))
  {
    match next {
      case DropProcess => ReleaseLives(WithPhase(s, p, Gone), Proc(p));
      case DropThread(t) => ReleaseLives(WithPhase(s, p, Gone), Thread(t));
      case Finish(t, clean) => ReleaseLives(WithPhase(s, p, Completing(clean)), Thread(t));
    }
  }

  lemma CloseMoves(s: State, p: nat, i: nat, next: Next)
    requires p < |s.procs| && |s.procs[p].life.slots| == H.SLOTS && i <= H.SLOTS
    ensures p < |CloseStep(s, p, i, next).procs|
    ensures CloseStep(s, p, i, next).procs[p].life.phase == if i < H.SLOTS then Closing(i + 1, next) else Dropping(next)
  {
    var life := s.procs[p].life;
    if i >= |life.slots| {
      ReleaseLives(WithPhase(s, p, Dropping(next)), Proc(p));
    } else if life.slots[i].obj.Some? {
      ReleaseLives(WithLife(s, p, Cleared(life, i).(phase := Closing(i + 1, next))), life.slots[i].obj.value);
    }
  }

  function Times(n: nat, step: Step): (r: seq<Step>)
    ensures |r| == n && forall i :: 0 <= i < n ==> r[i] == step
  {
    seq(n, _ => step)
  }

  // The remaining steps of a clean finalizer can all be taken and leave a process that can be consumed.
  lemma {:induction false} FinalizerFinishes(s: State, p: nat)
    requires Inv(s, multiset{}) && p < |s.procs| && Finishing(s.procs[p].life.phase)
    ensures InBounds(s.procs[p].life.phase)
    ensures var steps := Times(Rank(s.procs[p].life.phase), Go(p, true));
            && Runs(s, steps) && p < |Run(s, steps).procs|
            && Run(s, steps).procs[p].life.phase == Gone && CanConsume(Run(s, steps), p)
    decreases if InBounds(s.procs[p].life.phase) then Rank(s.procs[p].life.phase) else 0
  {
    GoMoves(s, p);
    var phase := s.procs[p].life.phase;
    var s', steps := GoStep(s, p, true), Times(Rank(phase), Go(p, true));
    AfterRank(phase);
    ApplyKeeps(s, Go(p, true));
    assert steps[1..] == Times(Rank(phase) - 1, Go(p, true));
    assert Apply(s, steps[0]) == s';
    if phase.Completing? {
      assert steps[1..] == [];
    } else {
      FinalizerFinishes(s', p);
    }
  }

  // Whatever way a process goes out, the remaining steps can all be taken and leave nothing at work on it.
  lemma {:induction false} WindDown(s: State, p: nat)
    requires Inv(s, multiset{}) && p < |s.procs| && Winding(s.procs[p].life.phase)
    ensures InBounds(s.procs[p].life.phase)
    ensures var steps := Times(Rank(s.procs[p].life.phase), Go(p, true));
            && Runs(s, steps) && p < |Run(s, steps).procs| && Run(s, steps).procs[p].life.phase == Gone
    decreases if InBounds(s.procs[p].life.phase) then Rank(s.procs[p].life.phase) else 0
  {
    GoMoves(s, p);
    var phase := s.procs[p].life.phase;
    AfterRank(phase);
    ApplyKeeps(s, Go(p, true));
    if After(phase) == Gone {
      assert Times(0, Go(p, true)) == [];
    } else {
      WindDown(GoStep(s, p, true), p);
    }
    TimesStep(s, Rank(phase), Go(p, true));
  }

  // The ways there: giving a process back, giving its thread back, a failed creation, and the end of its thread.
  lemma WaysOut(s: State, p: nat)
    requires Inv(s, multiset{}) && p < |s.procs|
    ensures match s.procs[p].life.phase
            case Creating(done) => done < 3 ==> Winding(GoStep(s, p, false).procs[p].life.phase)
            case Owned => Winding(Apply(s, DestroyProcess(p)).procs[p].life.phase)
            case Unstarted(_) => Winding(Apply(s, Cancel(p)).procs[p].life.phase)
            case Running(_) => Winding(Apply(s, Exit(p)).procs[p].life.phase)
            case _ => true
  {
    assert LifeOk(s, p);
  }

  // A waiter that is about to consume, or has consumed, and the steps it has left.
  predicate Winning(s: State, w: nat)
    requires w < |s.waiters|
  {
    match s.waiters[w]
    case Killing(p, _) => p < |s.procs| && CanConsume(s, p) && !s.procs[p].life.killRequested
    case Waiting(p, _) => p < |s.procs| && CanConsume(s, p)
    case Woken(p, _) => p < |s.procs| && CanConsume(s, p)
    case Consumed(p, _) => p < |s.procs|
    case Leaving(p, _, won) => p < |s.procs| && won
    case _ => false
  }

  function WaiterRank(waiter: Waiter): nat {
    match waiter
    case Killing(_, _) => 5
    case Waiting(_, _) => 4
    case Woken(_, _) => 3
    case Consumed(_, _) => 2
    case Leaving(_, _, _) => 1
    case Left(_, _, _) => 0
  }

  lemma WaiterMoves(s: State, w: nat)
    requires w < |s.waiters| && Winning(s, w)
    ensures Enabled(s, WaitOn(w, true)) && w < |WaitStep(s, w, true).waiters|
    ensures var waiter := WaitStep(s, w, true).waiters[w];
            && waiter.p == s.waiters[w].p && WaiterRank(waiter) == WaiterRank(s.waiters[w]) - 1
            && waiter.caller == s.waiters[w].caller
            && (s.waiters[w].Leaving? ==> waiter == Left(waiter.p, waiter.caller, true))
            && (!s.waiters[w].Leaving? ==> Winning(WaitStep(s, w, true), w))
  {
    var p, caller := s.waiters[w].p, s.waiters[w].caller;
    match s.waiters[w] {
      case Consumed(_, _) => ReleaseLives(WithWaiter(s, w, Leaving(p, caller, true)), Proc(p));
      case Leaving(_, _, won) => ReleaseLives(WithWaiter(s, w, Left(p, caller, won)), Proc(p));
      case _ =>
    }
  }

  // A waiter of a process that can be consumed goes on to consume it; so does the first kill.
  lemma {:induction false} WaiterConsumes(s: State, w: nat)
    requires w < |s.waiters| && Winning(s, w)
    ensures var steps := Times(WaiterRank(s.waiters[w]), WaitOn(w, true));
            && Runs(s, steps) && w < |Run(s, steps).waiters|
            && Run(s, steps).waiters[w] == Left(s.waiters[w].p, s.waiters[w].caller, true)
    decreases WaiterRank(s.waiters[w])
  {
    WaiterMoves(s, w);
    var rank, s' := WaiterRank(s.waiters[w]), WaitStep(s, w, true);
    var steps := Times(rank, WaitOn(w, true));
    assert steps[1..] == Times(rank - 1, WaitOn(w, true));
    assert Apply(s, steps[0]) == s';
    if s.waiters[w].Leaving? {
      assert steps[1..] == [];
    } else {
      WaiterConsumes(s', w);
    }
  }

  lemma TimesStep(s: State, n: nat, step: Step)
    requires n > 0 && Enabled(s, step) && Runs(Apply(s, step), Times(n - 1, step))
    ensures Runs(s, Times(n, step)) && Run(s, Times(n, step)) == Run(Apply(s, step), Times(n - 1, step))
  {
    assert Times(n, step)[0] == step && Times(n, step)[1..] == Times(n - 1, step);
  }
}

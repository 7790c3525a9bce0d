/**
 Who has a say about a process: over whole runs every wait and every kill is a call of the process's parent, the
 parent's calls are the ones that are let in, the termination reason is the first one given, a failed teardown is
 never signaled as completion, and no call on another process has any part in it.
 */
module ExecutiveParents {
  import opened Option
  import opened Executive
  import opened ExecutiveInv
  import opened ExecutiveRefs
  import opened ExecutiveRuns
  import H = Handles

  // The parents that the processes of a run were created with, in order.
  function Parents(steps: seq<Step>): seq<nat> {
    if steps == [] then [] else ParentOf(steps[0]) + Parents(steps[1..])
  }

  function ParentOf(step: Step): seq<nat> {
    if step.Create? then [step.parent] else []
  }

  // Whether this step takes up a kill of process p that has been let in.
  predicate TakesUpKill(s: State, step: Step, p: nat) {
    step.WaitOn? && step.w < |s.waiters| && s.waiters[step.w].Killing? && s.waiters[step.w].p == p
  }

  // How many kills of process p a run takes up.
  function KillsIn(s: State, steps: seq<Step>, p: nat): nat
    requires Runs(s, steps)
    decreases |steps|
  {
    if steps == [] then 0
    else (if TakesUpKill(s, steps[0], p) then 1 else 0) + KillsIn(Apply(s, steps[0]), steps[1..], p)
  }

  // ---------------------------------------------------------------- what the calls leave alone

  // No more than eight processes and eight threads are listed.
  predicate Room(s: State) {
    |s.processTable| <= 8 && |s.threadTable| <= 8
  }

  lemma Fewer(s: set<nat>, x: nat)
    ensures |s - {x}| <= |s|
  {
    assert |s - {x}| == |s| - if x in s then 1 else 0;
  }

  // A call at work on process p leaves every other process's life, all waiters, and of p what others have said of it.
  predicate SameParties(s: State, r: State, p: nat) {
    && r.waiters == s.waiters && |r.procs| == |s.procs| && (Room(s) ==> Room(r))
    && (forall q {:trigger r.procs[q]} :: 0 <= q < |s.procs| && q != p ==> r.procs[q].life == s.procs[q].life)
    && (p < |s.procs| ==>
          var a, b := s.procs[p].life, r.procs[p].life;
          && b.parent == a.parent && b.killRequested == a.killRequested && b.reason == a.reason
          && b.exitStatus == a.exitStatus)
  }

  lemma LifeParties(s: State, r: State, p: nat, life: Life)
    requires p < |s.procs| && r.procs == WithLife(s, p, life).procs && r.waiters == s.waiters && (Room(s) ==> Room(r))
    requires var a := s.procs[p].life;
             && life.parent == a.parent && life.killRequested == a.killRequested && life.reason == a.reason
             && life.exitStatus == a.exitStatus
    ensures SameParties(s, r, p)
  {}

  lemma ReleaseParties(s: State, o: Obj, p: nat)
    ensures SameParties(s, Release(s, o), p)
  {
    ReleaseLives(s, o);
  }

  lemma LetGoParties(s: State, p: nat, phase: Phase, o: Obj)
    requires p < |s.procs|
    ensures SameParties(s, Release(WithPhase(s, p, phase), o), p)
  {
    ReleaseParties(WithPhase(s, p, phase), o, p);
  }

  lemma CloseAllParties(s: State, p: nat, next: Next, allow: bool)
    requires p < |s.procs|
    ensures SameParties(s, BeginCloseAll(s, p, next, allow), p)
  {}

  lemma InsertParties(s: State, p: nat, k: nat, o: Obj, rights: set<H.Right>, phase: Phase)
    requires p < |s.procs| && k < |s.procs[p].life.slots|
    ensures SameParties(s, Inserted(s, p, k, o, rights, phase), p)
  {}

  lemma CreateParties(s: State, p: nat, done: nat, ok: bool)
    requires p < |s.procs|
    ensures SameParties(s, CreateStep(s, p, done, ok), p)
  {
    var life, r := s.procs[p].life, CreateStep(s, p, done, ok);
    var o := if done == 4 then Stdout(p) else Proc(p);
    if done < 3 {
      LifeParties(s, r, p, r.procs[p].life);
    } else if CanInsert(s, p, o) {
      var next := if done < 5 then Creating(done + 1) else Owned;
      InsertParties(s, p, H.FirstFree(life.slots), o, FirstRights(done), next);
    } else {
      CloseAllParties(WithLife(s, p, life.(staged := false)), p, DropProcess, false);
    }
  }

  lemma FailParties(s: State, p: nat, t: nat, inTable: bool, slot: nat)
    requires p < |s.procs| && t < |s.threads|
    ensures SameParties(s, FailThread(s, p, t, inTable, slot), p)
  {
    var s1 := WithPhase(s, p, Threading(t, 1, 0));
    if inTable && slot < |s.procs[p].life.slots| {
      var s0 := WithLife(s, p, Cleared(s.procs[p].life, slot).(phase := Threading(t, 1, 0)));
      ReleaseLives(s0, Thread(t));
      s1 := Release(s0, Thread(t));
    }
    ReleaseParties(WithPhase(WithPointer(s1, t, None), p, Owned), Thread(t), p);
  }

  lemma ThreadParties(s: State, p: nat, t: nat, done: nat, slot: nat, ok: bool)
    requires p < |s.procs| && t < |s.threads|
    ensures SameParties(s, ThreadStep(s, p, t, done, slot, ok), p)
  {
    var r, k := ThreadStep(s, p, t, done, slot, ok), H.FirstFree(s.procs[p].life.slots);
    FailParties(s, p, t, done > 1, slot);
    FailParties(s, p, t, false, 0);
    if done == 0 && !ok {
      LetGoParties(s, p, Owned, Thread(t));
    } else if done == 1 && CanInsert(s, p, Thread(t)) {
      InsertParties(s, p, k, Thread(t), THREAD_RIGHTS, Threading(t, 2, k));
    } else if done == 0 {
      LifeParties(s, r, p, r.procs[p].life);
    } else if done > 1 && r != FailThread(s, p, t, true, slot) {
      ThreadGoesOn(s, p, t, done, slot, ok);
    }
  }

  lemma ThreadGoesOn(s: State, p: nat, t: nat, done: nat, slot: nat, ok: bool)
    requires p < |s.procs| && t < |s.threads| && done > 1
    requires ThreadStep(s, p, t, done, slot, ok) != FailThread(s, p, t, true, slot)
    ensures SameParties(s, ThreadStep(s, p, t, done, slot, ok), p)
  {
    var r := ThreadStep(s, p, t, done, slot, ok);
    LifeParties(s, r, p, s.procs[p].life.(phase := if done == 2 then Threading(t, 3, slot) else Unstarted(t)));
  }

  lemma FinalizeParties(s: State, p: nat, t: nat, done: nat, clean: bool, ok: bool)
    requires p < |s.procs| && t < |s.threads| && done > 0
    ensures SameParties(s, FinalizeStep(s, p, t, done, clean, ok), p)
  {
    var r := FinalizeStep(s, p, t, done, clean, ok);
    Fewer(s.threadTable, t);
    if done <= 3 {
      LifeParties(s, r, p, r.procs[p].life);
    } else {
      CloseAllParties(s, p, Finish(t, clean), true);
    }
  }

  lemma CancelParties(s: State, p: nat, t: nat, done: nat)
    requires p < |s.procs|
    ensures SameParties(s, CancelStep(s, p, t, done), p)
  {
    var r := CancelStep(s, p, t, done);
    Fewer(s.threadTable, t);
    Fewer(s.processTable, p);
    if done <= 2 { LifeParties(s, r, p, r.procs[p].life); } else { CloseAllParties(s, p, DropThread(t), false); }
  }

  lemma CloseParties(s: State, p: nat, i: nat, next: Next)
    requires p < |s.procs|
    ensures SameParties(s, CloseStep(s, p, i, next), p)
  {
    var life := s.procs[p].life;
    LetGoParties(s, p, Dropping(next), Proc(p));
    if i < |life.slots| && life.slots[i].obj.Some? {
      ReleaseParties(WithLife(s, p, Cleared(life, i).(phase := Closing(i + 1, next))), life.slots[i].obj.value, p);
    }
  }

  // The finalizer of p's thread marks the process terminated.
  predicate StartsFinalizing(s: State, step: Step, p: nat) {
    && step.Go? && step.p == p && p < |s.procs|
    && s.procs[p].life.phase.Finalizing? && s.procs[p].life.phase.done == 0 && s.procs[p].life.phase.t < |s.threads|
  }

  lemma GoParties(s: State, p: nat, ok: bool)
    requires Enabled(s, Go(p, ok)) && !StartsFinalizing(s, Go(p, ok), p)
    ensures SameParties(s, GoStep(s, p, ok), p)
  {
    match s.procs[p].life.phase {
      case Creating(done) => CreateParties(s, p, done, ok);
      case Threading(t, done, slot) => if t < |s.threads| { ThreadParties(s, p, t, done, slot, ok); }
      case InCall(t, o) => LetGoParties(s, p, Running(t), o);
      case Finalizing(t, done, clean) => if t < |s.threads| { FinalizeParties(s, p, t, done, clean, ok); }
      case Cancelling(t, done) => CancelParties(s, p, t, done);
      case Closing(i, next) => CloseParties(s, p, i, next);
      case Dropping(next) => DropParties(s, p, next);
      case Exited(t) =>
      case Completing(clean) =>
    }
  }

  lemma DropParties(s: State, p: nat, next: Next)
    requires p < |s.procs|
    ensures SameParties(s, DropStep(s, p, next), p)
  {
    match next {
      case DropProcess => LetGoParties(s, p, Gone, Proc(p));
      case DropThread(t) => LetGoParties(s, p, Gone, Thread(t));
      case Finish(t, clean) => LetGoParties(s, p, Completing(clean), Thread(t));
    }
  }

  lemma CloseHandleParties(s: State, p: nat, i: nat)
    requires Enabled(s, CloseHandle(p, i))
    ensures SameParties(s, Apply(s, CloseHandle(p, i)), p)
  {
    var life := s.procs[p].life;
    if life.slots[i].obj.Some? { ReleaseParties(WithLife(s, p, Cleared(life, i)), life.slots[i].obj.value, p); }
  }

  lemma ResolveParties(s: State, p: nat, i: nat)
    requires Enabled(s, Resolve(p, i))
    ensures SameParties(s, Apply(s, Resolve(p, i)), p)
  {}

  lemma DestroyParties(s: State, p: nat)
    requires Enabled(s, DestroyProcess(p))
    ensures SameParties(s, Apply(s, DestroyProcess(p)), p)
  {
    CloseAllParties(WithLife(s, p, s.procs[p].life.(staged := false)), p, DropProcess, false);
  }

  lemma ThreadCallParties(s: State, step: Step)
    requires Enabled(s, step) && (step.BeginThread? || step.Start? || step.Cancel? || step.Exit?)
    ensures SameParties(s, Apply(s, step), step.p)
  {}

  // What a step gives as the reason and status of termination of process p.
  function Given(s: State, step: Step, p: nat): Option<(Reason, nat)> {
    if step.Mark? && step.p == p then Some((step.reason, step.status))
    else if StartsFinalizing(s, step, p) then Some((ExitReason, 0))
    else None
  }

  // The first reason and status that a run gives.
  function FirstGiven(s: State, steps: seq<Step>, p: nat): Option<(Reason, nat)>
    requires Runs(s, steps)
    decreases |steps|
  {
    if steps == [] then None
    else if Given(s, steps[0], p).Some? then Given(s, steps[0], p)
    else FirstGiven(Apply(s, steps[0]), steps[1..], p)
  }

  // A step that gives one changes nothing else here, and leaves a reason that is already there.
  lemma GivenParties(s: State, step: Step, p: nat)
    requires Enabled(s, step) && Given(s, step, p).Some?
    ensures var r, given := Apply(s, step), Given(s, step, p).value;
            && r.waiters == s.waiters && p < |s.procs| == |r.procs| && (Room(s) ==> Room(r))
            && (forall q {:trigger r.procs[q]} :: 0 <= q < |s.procs| ==>
                  var a, b := s.procs[q].life, r.procs[q].life;
                  && b.parent == a.parent && b.killRequested == a.killRequested && (q != p ==> b == a)
                  && (b.reason, b.exitStatus)
                     == if q == p && a.reason == NoReason then given else (a.reason, a.exitStatus))
  {}

  // Only Create, BeginWait and WaitOn touch waiters and parents.
  lemma StepParties(s: State, step: Step)
    requires Enabled(s, step) && !step.Create? && !step.BeginWait? && !step.WaitOn? && !step.Mark?
    requires step.Go? ==> !StartsFinalizing(s, step, step.p)
    ensures SameParties(s, Apply(s, step), step.p)
  {
    match step {
      case Go(p, ok) => GoParties(s, p, ok);
      case CloseHandle(p, i) => CloseHandleParties(s, p, i);
      case DestroyProcess(p) => DestroyParties(s, p);
      case Resolve(p, i) => ResolveParties(s, p, i);
      case _ => ThreadCallParties(s, step);
    }
  }

  // Every step but Create, BeginWait and WaitOn.
  lemma OtherParties(s: State, step: Step)
    requires Enabled(s, step) && !step.Create? && !step.BeginWait? && !step.WaitOn?
    ensures var r := Apply(s, step);
            && r.waiters == s.waiters && |r.procs| == |s.procs| && (Room(s) ==> Room(r))
            && (forall q {:trigger r.procs[q]} :: 0 <= q < |s.procs| ==>
                  var a, b := s.procs[q].life, r.procs[q].life;
                  && b.parent == a.parent && b.killRequested == a.killRequested && (q != step.p ==> b == a)
                  && (b.reason, b.exitStatus)
                     == (if a.reason == NoReason && Given(s, step, q).Some? then Given(s, step, q).value
                         else (a.reason, a.exitStatus)))
  {
    if step.Mark? || (step.Go? && StartsFinalizing(s, step, step.p)) {
      GivenParties(s, step, step.p);
    } else {
      StepParties(s, step);
    }
  }

  // ---------------------------------------------------------------- parents

  // The processes have these parents, and each waiter was called from the parent of the process it waits for.
  predicate PartiesOk(s: State, parents: seq<nat>) {
    && |s.procs| == |parents|
    && (forall p {:trigger s.procs[p]} :: 0 <= p < |s.procs| ==> s.procs[p].life.parent == parents[p])
    && (forall w {:trigger s.waiters[w]} :: 0 <= w < |s.waiters| ==>
          s.waiters[w].p < |parents| && s.waiters[w].caller == parents[s.waiters[w].p])
  }

  // What a step of waiter w leaves: all other lives, of its process what is not for it to say, and who waits for what.
  predicate WaitKept(s: State, r: State, w: nat)
    requires w < |s.waiters|
  {
    && |r.procs| == |s.procs| && |r.waiters| == |s.waiters| && (Room(s) ==> Room(r))
    && (forall q {:trigger r.procs[q]} :: 0 <= q < |s.procs| && q != s.waiters[w].p ==>
          r.procs[q].life == s.procs[q].life)
    && (s.waiters[w].p < |s.procs| ==>
          var a, b := s.procs[s.waiters[w].p].life, r.procs[s.waiters[w].p].life;
          && b.parent == a.parent && b.reason == a.reason && b.exitStatus == a.exitStatus
          && b.phase == a.phase && b.signaled == a.signaled
          && (b.killRequested <==> a.killRequested || s.waiters[w].Killing?))
    && (forall v {:trigger r.waiters[v]} :: 0 <= v < |s.waiters| ==>
          r.waiters[v].p == s.waiters[v].p && r.waiters[v].caller == s.waiters[v].caller)
  }

  lemma WokenParties(s: State, w: nat, ok: bool)
    requires Enabled(s, WaitOn(w, ok)) && (s.waiters[w].Woken? || s.waiters[w].Waiting? || s.waiters[w].Killing?)
    ensures WaitKept(s, WaitStep(s, w, ok), w)
  {
    Fewer(s.processTable, s.waiters[w].p);
  }

  lemma LeaverParties(s: State, w: nat, waiter: Waiter)
    requires w < |s.waiters| && waiter.p == s.waiters[w].p && waiter.caller == s.waiters[w].caller
    requires !s.waiters[w].Killing?
    ensures WaitKept(s, Release(WithWaiter(s, w, waiter), Proc(waiter.p)), w)
  {
    ReleaseLives(WithWaiter(s, w, waiter), Proc(waiter.p));
  }

  // A step of a waiter.
  lemma WaitParties(s: State, w: nat, ok: bool)
    requires Enabled(s, WaitOn(w, ok))
    ensures WaitKept(s, WaitStep(s, w, ok), w)
  {
    var p, caller := s.waiters[w].p, s.waiters[w].caller;
    match s.waiters[w] {
      case Consumed(_, _) => LeaverParties(s, w, Leaving(p, caller, true));
      case Leaving(_, _, won) => LeaverParties(s, w, Left(p, caller, won));
      case _ => WokenParties(s, w, ok);
    }
  }

  lemma StepParents(s: State, step: Step, parents: seq<nat>)
    requires Enabled(s, step) && PartiesOk(s, parents)
    ensures PartiesOk(Apply(s, step), parents + ParentOf(step))
  {
    if step.WaitOn? {
      WaitParties(s, step.w, step.ok);
    } else if !step.Create? && !step.BeginWait? {
      OtherParties(s, step);
    }
  }

  lemma Regroup(a: seq<nat>, b: seq<nat>, c: seq<nat>)
    ensures (a + b) + c == a + (b + c)
  {}

  lemma {:induction false} RunParents(s: State, steps: seq<Step>, parents: seq<nat>)
    requires Runs(s, steps) && PartiesOk(s, parents)
    ensures PartiesOk(Run(s, steps), parents + Parents(steps))
    decreases |steps|
  {
    if steps == [] {
      assert parents + Parents(steps) == parents;
    } else {
      StepParents(s, steps[0], parents);
      RunParents(Apply(s, steps[0]), steps[1..], parents + ParentOf(steps[0]));
      Regroup(parents, ParentOf(steps[0]), Parents(steps[1..]));
    }
  }

  // In every reachable state each process has the parent it was created with, and nobody but that parent waits for
  // it or kills it.
  lemma OnlyParentsWait(steps: seq<Step>)
    requires Runs(NO_PROCESSES, steps)
    ensures PartiesOk(Run(NO_PROCESSES, steps), Parents(steps))
  {
    RunParents(NO_PROCESSES, steps, []);
    assert [] + Parents(steps) == Parents(steps);
  }

  // A wait or a kill is let in exactly when the process is in the process table and the caller is its parent. It is
  // then one call more that has a reference to the process, and nothing else changes; otherwise nothing changes.
  lemma WaitAdmission(steps: seq<Step>, p: nat, caller: nat, kill: bool)
    requires Runs(NO_PROCESSES, steps)
    ensures var s, r := Run(NO_PROCESSES, steps), Apply(Run(NO_PROCESSES, steps), BeginWait(p, caller, kill));
            if p in s.processTable && p < |Parents(steps)| && caller == Parents(steps)[p]
            then && r.waiters == s.waiters + [if kill then Killing(p, caller) else Waiting(p, caller)]
                 && (forall o :: Refs(r, o) == Refs(s, o) + if o == Proc(p) then 1 else 0)
                 && SameLives(s.(waiters := r.waiters), r) && r.processTable == s.processTable
            else r == s
  {
    var s := Run(NO_PROCESSES, steps);
    OnlyParentsWait(steps);
    Reachable(steps);
    if p in s.processTable {
      ListedProcessLives(s, p);
      assert ProcCountOk(s.procs[p]);
    }
  }

  // ---------------------------------------------------------------- kills

  lemma StepKills(s: State, step: Step, p: nat)
    requires Enabled(s, step) && p < |s.procs|
    ensures var r := Apply(s, step);
            && p < |r.procs|
            && (r.procs[p].life.killRequested <==> s.procs[p].life.killRequested || TakesUpKill(s, step, p))
  {
    if step.WaitOn? {
      WaitParties(s, step.w, step.ok);
    } else if !step.Create? && !step.BeginWait? {
      OtherParties(s, step);
    }
  }

  lemma {:induction false} RunKills(s: State, steps: seq<Step>, p: nat)
    requires Runs(s, steps) && p < |Run(s, steps).procs|
    requires forall w :: 0 <= w < |s.waiters| ==> s.waiters[w].p < |s.procs|
    ensures Run(s, steps).procs[p].life.killRequested <==>
              (p < |s.procs| && s.procs[p].life.killRequested) || KillsIn(s, steps, p) > 0
    decreases |steps|
  {
    if steps != [] {
      var r := Apply(s, steps[0]);
      if p < |s.procs| {
        StepKills(s, steps[0], p);
      } else {
        NewUnkilled(s, steps[0], p);
      }
      WaitersInRange(s, steps[0]);
      RunKills(r, steps[1..], p);
    }
  }

  lemma WaitersInRange(s: State, step: Step)
    requires Enabled(s, step) && forall w :: 0 <= w < |s.waiters| ==> s.waiters[w].p < |s.procs|
    ensures var r := Apply(s, step); forall w :: 0 <= w < |r.waiters| ==> r.waiters[w].p < |r.procs|
  {
    if step.WaitOn? {
      WaitParties(s, step.w, step.ok);
    } else if !step.Create? && !step.BeginWait? {
      OtherParties(s, step);
    }
  }

  lemma NewUnkilled(s: State, step: Step, p: nat)
    requires Enabled(s, step) && |s.procs| <= p
    requires forall w :: 0 <= w < |s.waiters| ==> s.waiters[w].p < |s.procs|
    ensures p < |Apply(s, step).procs| ==> !Apply(s, step).procs[p].life.killRequested
    ensures !TakesUpKill(s, step, p)
  {
    if step.WaitOn? {
      WaitParties(s, step.w, step.ok);
    } else if !step.Create? && !step.BeginWait? {
      OtherParties(s, step);
    }
  }

  // A process is asked to end exactly when a kill has been taken up, which only its parent can have called. The first
  // one goes on to wait for it; any later one is refused.
  lemma KilledExactly(steps: seq<Step>, p: nat)
    requires Runs(NO_PROCESSES, steps) && p < |Run(NO_PROCESSES, steps).procs|
    ensures Run(NO_PROCESSES, steps).procs[p].life.killRequested <==> KillsIn(NO_PROCESSES, steps, p) > 0
  {
    RunKills(NO_PROCESSES, steps, p);
  }

  lemma KillGoesOn(steps: seq<Step>, w: nat, ok: bool)
    requires Runs(NO_PROCESSES, steps) && w < |Run(NO_PROCESSES, steps).waiters|
    requires Run(NO_PROCESSES, steps).waiters[w].Killing?
    ensures var s := Run(NO_PROCESSES, steps);
            var p, caller := s.waiters[w].p, s.waiters[w].caller;
            && Enabled(s, WaitOn(w, ok)) && w < |Apply(s, WaitOn(w, ok)).waiters|
            && Apply(s, WaitOn(w, ok)).waiters[w]
               == if KillsIn(NO_PROCESSES, steps, p) == 0 then Waiting(p, caller) else Leaving(p, caller, false)
  {
    Reachable(steps);
    assert WaiterOk(Run(NO_PROCESSES, steps), w);
    KilledExactly(steps, Run(NO_PROCESSES, steps).waiters[w].p);
  }

  // ---------------------------------------------------------------- other processes

  // The process a step works on.
  function Subject(s: State, step: Step): Option<nat>
    requires Enabled(s, step)
  {
    match step
    case Create(_) => None
    case BeginWait(_, _, _) => None
    case WaitOn(w, _) => Some(s.waiters[w].p)
    case Go(p, _) => Some(p)
    case BeginThread(p) => Some(p)
    case DestroyProcess(p) => Some(p)
    case Start(p) => Some(p)
    case Cancel(p) => Some(p)
    case Resolve(p, _) => Some(p)
    case CloseHandle(p, _) => Some(p)
    case Mark(p, _, _) => Some(p)
    case Exit(p) => Some(p)
  }

  // A step on one process changes nothing in the life of any other: its phase, handles, reason, completion.
  lemma StepsStayApart(s: State, step: Step, q: nat)
    requires Enabled(s, step) && q < |s.procs| && Subject(s, step) != Some(q)
    ensures q < |Apply(s, step).procs| && Apply(s, step).procs[q].life == s.procs[q].life
  {
    if step.WaitOn? {
      WaitParties(s, step.w, step.ok);
    } else if !step.Create? && !step.BeginWait? {
      OtherParties(s, step);
    }
  }

  // ---------------------------------------------------------------- failed teardowns

  // The payload teardown of p's finalizer fails in this step.
  predicate FailsTeardown(s: State, step: Step, p: nat) {
    && step == Go(p, false) && p < |s.procs| && s.procs[p].life.phase.Finalizing?
    && s.procs[p].life.phase.done == 2 && s.procs[p].life.phase.t < |s.threads|
  }

  // Not signaled, and never to be.
  predicate Spoiled(life: Life) {
    !life.signaled &&
    match life.phase
    case Finalizing(_, done, clean) => done >= 3 && !clean
    case Closing(_, next) => next.Finish? && !next.clean
    case Dropping(next) => next.Finish? && !next.clean
    case Completing(clean) => !clean
    case Gone => true
    case _ => false
  }

  lemma FailureSpoils(s: State, p: nat)
    requires Inv(s, multiset{}) && FailsTeardown(s, Go(p, false), p)
    ensures p < |GoStep(s, p, false).procs| && Spoiled(GoStep(s, p, false).procs[p].life)
  {
    assert LifeOk(s, p);
  }

  lemma GoStaysSpoiled(s: State, p: nat, ok: bool)
    requires Enabled(s, Go(p, ok)) && Spoiled(s.procs[p].life)
    ensures p < |GoStep(s, p, ok).procs| && Spoiled(GoStep(s, p, ok).procs[p].life)
  {
    match s.procs[p].life.phase {
      case Finalizing(t, done, clean) => FinalizeStaysSpoiled(s, p, t, done, clean, ok);
      case Closing(i, next) => CloseStaysSpoiled(s, p, i, next);
      case Dropping(next) => DropStaysSpoiled(s, p, next);
      case _ =>
    }
  }

  lemma FinalizeStaysSpoiled(s: State, p: nat, t: nat, done: nat, clean: bool, ok: bool)
    requires p < |s.procs| && s.procs[p].life.phase == Finalizing(t, done, clean) && Spoiled(s.procs[p].life)
    ensures t < |s.threads| ==>
              p < |FinalizeStep(s, p, t, done, clean, ok).procs|
              && Spoiled(FinalizeStep(s, p, t, done, clean, ok).procs[p].life)
  {
    BeginsClosing(s, p, Finish(t, clean));
  }

  lemma BeginsClosing(s: State, p: nat, next: Next)
    requires p < |s.procs|
    ensures var life := BeginCloseAll(s, p, next, true).procs[p].life;
            && life.signaled == s.procs[p].life.signaled
            && (life.phase == Closing(0, next) || life.phase == Dropping(next))
  {}

  lemma DropStaysSpoiled(s: State, p: nat, next: Next)
    requires p < |s.procs| && s.procs[p].life.phase == Dropping(next) && Spoiled(s.procs[p].life)
    ensures p < |DropStep(s, p, next).procs| && Spoiled(DropStep(s, p, next).procs[p].life)
  {
    ReleaseLives(WithPhase(s, p, Completing(next.clean)), Thread(next.t));
  }

  lemma CloseStaysSpoiled(s: State, p: nat, i: nat, next: Next)
    requires p < |s.procs| && s.procs[p].life.phase == Closing(i, next) && Spoiled(s.procs[p].life)
    ensures p < |CloseStep(s, p, i, next).procs| && Spoiled(CloseStep(s, p, i, next).procs[p].life)
  {
    var life := s.procs[p].life;
    if i >= |life.slots| {
      ReleaseLives(WithPhase(s, p, Dropping(next)), Proc(p));
    } else if life.slots[i].obj.Some? {
      ReleaseLives(WithLife(s, p, Cleared(life, i).(phase := Closing(i + 1, next))), life.slots[i].obj.value);
    }
  }

  lemma StepStaysSpoiled(s: State, step: Step, p: nat)
    requires Enabled(s, step) && p < |s.procs| && Spoiled(s.procs[p].life)
    ensures p < |Apply(s, step).procs| && Spoiled(Apply(s, step).procs[p].life)
  {
    if step.WaitOn? {
      WaitParties(s, step.w, step.ok);
    } else if Subject(s, step) == Some(p) {
      GoStaysSpoiled(s, p, step.ok);
    } else {
      StepsStayApart(s, step, p);
    }
  }

  lemma {:induction false} RunStaysSpoiled(s: State, steps: seq<Step>, p: nat)
    requires Runs(s, steps) && p < |s.procs| && Spoiled(s.procs[p].life)
    ensures p < |Run(s, steps).procs| && Spoiled(Run(s, steps).procs[p].life)
    decreases |steps|
  {
    if steps != [] {
      StepStaysSpoiled(s, steps[0], p);
      RunStaysSpoiled(Apply(s, steps[0]), steps[1..], p);
    }
  }

  // A process whose payload teardown has failed is never signaled as completed, whatever happens afterwards, so that
  // no wait for it ends with success.
  lemma FailedTeardownUnsignaled(before: seq<Step>, p: nat, after: seq<Step>)
    requires Runs(NO_PROCESSES, before) && FailsTeardown(Run(NO_PROCESSES, before), Go(p, false), p)
    requires Runs(Apply(Run(NO_PROCESSES, before), Go(p, false)), after)
    ensures var t := Run(Apply(Run(NO_PROCESSES, before), Go(p, false)), after);
            p < |t.procs| && !t.procs[p].life.signaled && t.procs[p].life.consumer == None
  {
    var s := Run(NO_PROCESSES, before);
    Reachable(before);
    FailureSpoils(s, p);
    ApplyKeeps(s, Go(p, false));
    RunKeeps(Apply(s, Go(p, false)), after);
    RunStaysSpoiled(Apply(s, Go(p, false)), after, p);
    assert LifeOk(Run(Apply(s, Go(p, false)), after), p);
  }

  // ---------------------------------------------------------------- the tables

  lemma StepRoom(s: State, step: Step)
    requires Enabled(s, step) && Room(s)
    ensures Room(Apply(s, step))
  {
    if step.WaitOn? {
      WaitParties(s, step.w, step.ok);
    } else if !step.Create? && !step.BeginWait? {
      OtherParties(s, step);
    }
  }

  lemma {:induction false} RunRoom(s: State, steps: seq<Step>)
    requires Runs(s, steps) && Room(s)
    ensures Room(Run(s, steps))
    decreases |steps|
  {
    if steps != [] {
      StepRoom(s, steps[0]);
      RunRoom(Apply(s, steps[0]), steps[1..]);
    }
  }

  // Neither table ever has to hold more than its eight entries.
  lemma TablesSuffice(steps: seq<Step>)
    requires Runs(NO_PROCESSES, steps)
    ensures Room(Run(NO_PROCESSES, steps))
  {
    RunRoom(NO_PROCESSES, steps);
  }

  // ---------------------------------------------------------------- reasons

  lemma StepReason(s: State, step: Step, p: nat)
    requires Enabled(s, step) && p < |s.procs|
    ensures var r, a, given := Apply(s, step), s.procs[p].life, Given(s, step, p);
            && p < |r.procs|
            && (r.procs[p].life.reason, r.procs[p].life.exitStatus)
               == (if a.reason == NoReason && given.Some? then given.value else (a.reason, a.exitStatus))
    ensures Given(s, step, p).Some? ==> Given(s, step, p).value.0 != NoReason
  {
    if step.WaitOn? {
      WaitParties(s, step.w, step.ok);
    } else if !step.Create? && !step.BeginWait? {
      OtherParties(s, step);
    }
  }

  lemma {:induction false} RunReason(s: State, steps: seq<Step>, p: nat)
    requires Runs(s, steps) && p < |s.procs|
    ensures var r, a, given := Run(s, steps), s.procs[p].life, FirstGiven(s, steps, p);
            && p < |r.procs|
            && (r.procs[p].life.reason, r.procs[p].life.exitStatus)
               == (if a.reason == NoReason && given.Some? then given.value else (a.reason, a.exitStatus))
    decreases |steps|
  {
    if steps != [] {
      StepReason(s, steps[0], p);
      RunReason(Apply(s, steps[0]), steps[1..], p);
    }
  }

  // A new process has no reason yet.
  lemma {:induction false} NewReason(s: State, steps: seq<Step>, p: nat)
    requires Runs(s, steps) && |s.procs| <= p < |Run(s, steps).procs|
    ensures var life := Run(s, steps).procs[p].life;
            (life.reason, life.exitStatus)
            == if FirstGiven(s, steps, p).Some? then FirstGiven(s, steps, p).value else (NoReason, 0)
    decreases |steps|
  {
    var r := Apply(s, steps[0]);
    NewUnreasoned(s, steps[0], p);
    if p < |r.procs| { RunReason(r, steps[1..], p); } else { NewReason(r, steps[1..], p); }
  }

  lemma NewUnreasoned(s: State, step: Step, p: nat)
    requires Enabled(s, step) && |s.procs| <= p
    ensures var r := Apply(s, step);
            && Given(s, step, p) == None
            && (p < |r.procs| ==> r.procs[p].life.reason == NoReason && r.procs[p].life.exitStatus == 0)
  {
    if step.WaitOn? {
      WaitParties(s, step.w, step.ok);
    } else if !step.Create? && !step.BeginWait? {
      OtherParties(s, step);
    }
  }

  // In every reachable state a process has the reason and the status that its run gave first: those of the first
  // fault, kill or exit that marked it, or an exit with 0 when its thread was finalized without any.
  lemma FirstReason(steps: seq<Step>, p: nat)
    requires Runs(NO_PROCESSES, steps) && p < |Run(NO_PROCESSES, steps).procs|
    ensures var life, given := Run(NO_PROCESSES, steps).procs[p].life, FirstGiven(NO_PROCESSES, steps, p);
            (life.reason, life.exitStatus) == if given.Some? then given.value else (NoReason, 0)
  {
    NewReason(NO_PROCESSES, steps, p);
  }
}

/**
 A process comes to run: when nothing that its creation asks for fails, ExRuntimeCreateProcess, ExRuntimeCreateThread
 and ExRuntimeStartThread go through to a running, listed process with its four handles.
 */
module ExecutiveLaunch {
  import opened Option
  import opened Executive
  import opened ExecutiveInv
  import opened ExecutiveRuns
  import opened ExecutiveProgress
  import H = Handles

  // ---------------------------------------------------------------- the process

  // The first n of the handles that every process starts with: to itself, to its stdout service, to wait for itself.
  // The other slots are free.
  predicate HasHandles(slots: seq<Slot>, p: nat, n: nat) {
    && |slots| == H.SLOTS && (forall i {:trigger slots[i]} :: n <= i < H.SLOTS ==> slots[i].obj == None)
    && (n > 0 ==> slots[0].obj == Some(Proc(p)) && slots[0].rights == {H.Query, H.CloseRight, H.ProcessSelf})
    && (n > 1 ==> slots[1].obj == Some(Stdout(p)) && slots[1].rights == {H.Write, H.CloseRight})
    && (n > 2 ==> slots[2].obj == Some(Proc(p)) && slots[2].rights == {H.WaitRight, H.CloseRight})
  }

  // ExRuntimeCreateProcess after `done` of its six steps, the last three of which insert handles.
  predicate Made(s0: State, s: State, p: nat, done: nat) {
    && p < |s.procs| && s.threads == s0.threads && s.processTable == s0.processTable && s.threadTable == s0.threadTable
    && Refs(s, Proc(p)) > 0 && Refs(s, Stdout(p)) > 0
    && var life := s.procs[p].life;
       && life.phase == (if done < 6 then Creating(done) else Owned) && (done >= 3 ==> life.staged)
       && HasHandles(life.slots, p, if done <= 3 then 0 else done - 3)
  }

  lemma MadeStart(s: State, p: nat)
    requires Inv(s, multiset{}) && p < |s.procs| && s.procs[p].life.phase == Creating(0)
    ensures Made(s, s, p, 0)
  {
    assert LifeOk(s, p) && ProcCountOk(s.procs[p]) && Balanced(s, multiset{}, Proc(p));
    ActiveHeld(s, p);
    StdoutLives(s, p);
  }

  lemma MadeStep(s0: State, s: State, p: nat, done: nat)
    requires done < 6 && Made(s0, s, p, done)
    ensures Enabled(s, Go(p, true)) && Made(s0, Apply(s, Go(p, true)), p, done + 1)
  {
    if done >= 3 { NextHandle(s0, s, p, done - 3); }
  }

  lemma NextHandle(s0: State, s: State, p: nat, k: nat)
    requires k < 3 && Made(s0, s, p, 3 + k)
    ensures Made(s0, CreateStep(s, p, 3 + k, true), p, 4 + k)
  {
    var slots := s.procs[p].life.slots;
    assert slots[k].obj == None;
    assert H.FirstFree(slots) == k;
    var o := if k == 1 then Stdout(p) else Proc(p);
    var r := Inserted(s, p, k, o, FirstRights(3 + k), if k < 2 then Creating(4 + k) else Owned);
    assert CreateStep(s, p, 3 + k, true) == r;
    assert r.procs[p].life.slots == slots[k := H.Taken(slots[k], o, FirstRights(3 + k))];
  }

  // All that is left of the six steps.
  lemma {:induction false} CreationFinishes(s0: State, s: State, p: nat, done: nat)
    requires done <= 6 && Made(s0, s, p, done)
    ensures Runs(s, Times(6 - done, Go(p, true))) && Made(s0, Run(s, Times(6 - done, Go(p, true))), p, 6)
    decreases 6 - done
  {
    var go := Go(p, true);
    if done < 6 {
      MadeStep(s0, s, p, done);
      CreationFinishes(s0, Apply(s, go), p, done + 1);
      TimesStep(s, 6 - done, go);
    } else {
      assert Times(0, go) == [];
    }
  }

  // ---------------------------------------------------------------- its thread

  // ExRuntimeCreateThread after `done` of its four steps; the thread is a new one.
  predicate Threaded(s0: State, s: State, p: nat, done: nat) {
    && p < |s.procs| && |s.threads| == |s0.threads| + 1 && Refs(s, Thread(|s0.threads|)) > 0
    && var t, life := |s0.threads|, s.procs[p].life;
       && life.phase == (if done == 4 then Unstarted(t) else Threading(t, done, if done >= 2 then 3 else 0))
       && s.processTable == (if done == 4 then s0.processTable + {p} else s0.processTable)
       && s.threadTable == (if done == 4 then s0.threadTable + {t} else s0.threadTable)
       && (done > 0 ==> s.threads[t].process == Some(p))
       && (if done < 2 then HasHandles(life.slots, p, 3) else HasSelf(life.slots, p, t))
  }

  // The three handles and the thread's own.
  predicate HasSelf(slots: seq<Slot>, p: nat, t: nat) {
    && |slots| == H.SLOTS && slots[3].obj == Some(Thread(t))
    && slots[3].rights == {H.Query, H.CloseRight, H.ThreadSelf}
    && HasHandles(slots[3 := slots[3].(obj := None)], p, 3)
  }

  predicate Roomy(s0: State, p: nat) {
    && p !in s0.processTable && |s0.threads| !in s0.threadTable
    && |s0.processTable| < 8 && |s0.threadTable| < 8
  }

  lemma ThreadBegins(s0: State, s: State, p: nat)
    requires Made(s0, s, p, 6)
    ensures Enabled(s, BeginThread(p)) && Threaded(s0, Apply(s, BeginThread(p)), p, 0)
  {}

  lemma ThreadedStep(s0: State, s: State, p: nat, done: nat)
    requires done < 4 && Threaded(s0, s, p, done) && Roomy(s0, p)
    ensures Enabled(s, Go(p, true)) && Threaded(s0, Apply(s, Go(p, true)), p, done + 1)
  {
    if done == 1 { SelfHandle(s0, s, p); }
  }

  lemma SelfHandle(s0: State, s: State, p: nat)
    requires Threaded(s0, s, p, 1)
    ensures Threaded(s0, ThreadStep(s, p, |s0.threads|, 1, 0, true), p, 2)
  {
    var slots, t := s.procs[p].life.slots, |s0.threads|;
    assert slots[3].obj == None;
    assert H.FirstFree(slots) == 3;
    var r := Inserted(s, p, 3, Thread(t), THREAD_RIGHTS, Threading(t, 2, 3));
    assert ThreadStep(s, p, t, 1, 0, true) == r;
    var taken := slots[3 := H.Taken(slots[3], Thread(t), THREAD_RIGHTS)];
    assert r.procs[p].life.slots == taken;
    assert forall i {:trigger taken[i]} :: 0 <= i < H.SLOTS && i != 3 ==> taken[i] == slots[i];
  }

  lemma {:induction false} ThreadFinishes(s0: State, s: State, p: nat, done: nat)
    requires done <= 4 && Threaded(s0, s, p, done) && Roomy(s0, p)
    ensures Runs(s, Times(4 - done, Go(p, true))) && Threaded(s0, Run(s, Times(4 - done, Go(p, true))), p, 4)
    decreases 4 - done
  {
    var go := Go(p, true);
    if done < 4 {
      ThreadedStep(s0, s, p, done);
      ThreadFinishes(s0, Apply(s, go), p, done + 1);
      TimesStep(s, 4 - done, go);
    } else {
      assert Times(0, go) == [];
    }
  }

  // ---------------------------------------------------------------- all of it

  lemma {:induction false} RunJoins(s: State, a: seq<Step>, b: seq<Step>)
    requires Runs(s, a) && Runs(Run(s, a), b)
    ensures Runs(s, a + b) && Run(s, a + b) == Run(Run(s, a), b)
    decreases |a|
  {
    if a == [] {
      assert a + b == b;
    } else {
      assert (a + b)[1..] == a[1..] + b;
      RunJoins(Apply(s, a[0]), a[1..], b);
    }
  }

  function LaunchSteps(p: nat): seq<Step> {
    Times(6, Go(p, true)) + ([BeginThread(p)] + (Times(4, Go(p, true)) + [Start(p)]))
  }

  // What a launch leaves behind.
  predicate Launched(s0: State, s: State, p: nat) {
    && p < |s.procs| && s.processTable == s0.processTable + {p} && s.threadTable == s0.threadTable + {|s0.threads|}
    && var life := s.procs[p].life;
       && life.phase == Running(|s0.threads|) && life.started && life.state == Ready
       && HasSelf(life.slots, p, |s0.threads|)
  }

  lemma ThreadAndStart(s0: State, s: State, p: nat)
    requires Threaded(s0, s, p, 0) && Roomy(s0, p)
    ensures var steps := Times(4, Go(p, true)) + [Start(p)]; Runs(s, steps) && Launched(s0, Run(s, steps), p)
  {
    ThreadFinishes(s0, s, p, 0);
    var s1 := Run(s, Times(4, Go(p, true)));
    OneStep(s1, Start(p));
    RunJoins(s, Times(4, Go(p, true)), [Start(p)]);
  }

  lemma OneStep(s: State, step: Step)
    requires Enabled(s, step)
    ensures Runs(s, [step]) && Run(s, [step]) == Apply(s, step)
  {
    assert [step][1..] == [];
    assert Run(Apply(s, step), []) == Apply(s, step);
  }

  // From a process that has just been made, in any state that satisfies the invariant and has room in both tables.
  lemma LaunchFinishes(s: State, p: nat)
    requires Inv(s, multiset{}) && p < |s.procs| && s.procs[p].life.phase == Creating(0)
    requires |s.processTable| < 8 && |s.threadTable| < 8
    ensures Runs(s, LaunchSteps(p)) && Launched(s, Run(s, LaunchSteps(p)), p)
  {
    assert LifeOk(s, p);
    MadeStart(s, p);
    CreationFinishes(s, s, p, 0);
    var s1, rest := Run(s, Times(6, Go(p, true))), Times(4, Go(p, true)) + [Start(p)];
    ThreadBegins(s, s1, p);
    OneStep(s1, BeginThread(p));
    ThreadAndStart(s, Apply(s1, BeginThread(p)), p);
    RunJoins(s1, [BeginThread(p)], rest);
    RunJoins(s, Times(6, Go(p, true)), [BeginThread(p)] + rest);
  }
}

/**
 Retain and release keep the executive's invariant; in particular a release destroys exactly the
 objects nobody holds any more, and a process's stdout service always goes with it.
 */
module ExecutiveRefs {
  import opened Option
  import opened Executive
  import opened ExecutiveInv
  import H = Handles

  // ---------------------------------------------------------------- moving references

  lemma HeldWithProc(s: State, s': State, p: nat, proc: Process, o: Obj)
    requires p < |s.procs| && s'.procs == s.procs[p := proc] && s'.threads == s.threads && s'.waiters == s.waiters
    ensures Held(s', o) + ProcHeld(s.procs[p], o) == Held(s, o) + ProcHeld(proc, o)
    ensures ProcHeld(s.procs[p], o) <= Held(s, o)
  {
    SumUpdate(s.procs, ProcHeld, o, p, proc);
  }

  lemma HeldWithThread(s: State, s': State, t: nat, thread: ThreadObj, o: Obj)
    requires t < |s.threads| && s'.threads == s.threads[t := thread] && s'.procs == s.procs && s'.waiters == s.waiters
    ensures Held(s', o) + ThreadHeld(s.threads[t], o) == Held(s, o) + ThreadHeld(thread, o)
  {
    SumUpdate(s.threads, ThreadHeld, o, t, thread);
  }

  // ---------------------------------------------------------------- what retain and release leave alone

  // Only counts, and the pointers of destroyed threads, differ.
  ghost predicate SameLives(s: State, s': State) {
    && |s'.procs| == |s.procs| && |s'.threads| == |s.threads| && s'.waiters == s.waiters
    && s'.processTable == s.processTable && s'.threadTable == s.threadTable
    && (forall p {:trigger s'.procs[p]} :: 0 <= p < |s.procs| ==>
          s'.procs[p].life == s.procs[p].life && s'.procs[p].pid == s.procs[p].pid)
    && (forall t {:trigger s'.threads[t]} :: 0 <= t < |s.threads| ==> s'.threads[t].owner == s.threads[t].owner)
  }

  lemma RetainLives(s: State, o: Obj)
    ensures SameLives(s, Retain(s, o))
  {}

  // A reference of nobody's yet.
  lemma Retained(s: State, o: Obj, p: nat)
    requires Inv(s, multiset{}) && Refs(s, o) > 0 && p < |s.procs|
    ensures Inv(Retain(s, o), multiset{o}) && LifeOk(Retain(s, o), p) && SameLives(s, Retain(s, o))
    ensures Retain(s, o).procs[p].life == s.procs[p].life
  {
    RetainKeeps(s, o, multiset{});
    assert multiset{} + multiset{o} == multiset{o};
    assert LifeOk(Retain(s, o), p);
  }

  lemma ReleaseLives(s: State, o: Obj)
    ensures SameLives(s, Release(s, o))
  {}

  // Everything in Inv but the balance, for a state with the same lives and pointers.
  lemma SameLivesOk(s: State, s': State)
    requires SameLives(s, s')
    requires forall t {:trigger s'.threads[t]} :: 0 <= t < |s.threads| ==> s'.threads[t].process == s.threads[t].process
    ensures forall p {:trigger LifeOk(s', p)} :: 0 <= p < |s.procs| && LifeOk(s, p) ==> LifeOk(s', p)
    ensures forall t {:trigger ThreadOk(s', t)} :: 0 <= t < |s.threads| && ThreadOk(s, t) ==> ThreadOk(s', t)
    ensures forall w {:trigger WaiterOk(s', w)} :: 0 <= w < |s.waiters| && WaiterOk(s, w) ==> WaiterOk(s', w)
  {
    forall p | 0 <= p < |s.procs| && LifeOk(s, p) ensures LifeOk(s', p) {
      SameLifeOk(s, s', p);
    }
    forall w | 0 <= w < |s.waiters| && WaiterOk(s, w) ensures WaiterOk(s', w) {
      assert s'.procs[s.waiters[w].p].life == s.procs[s.waiters[w].p].life;
    }
    forall t | 0 <= t < |s.threads| && ThreadOk(s, t) ensures ThreadOk(s', t) {
      assert s'.procs[s.threads[t].owner].life == s.procs[s.threads[t].owner].life;
      assert s'.threads[t].owner == s.threads[t].owner;
    }
  }

  lemma SameLifeOk(s: State, s': State, p: nat)
    requires SameLives(s, s') && p < |s.procs| && LifeOk(s, p)
    requires PhaseThread(s.procs[p].life.phase) != None && PhaseThread(s.procs[p].life.phase).value < |s.threads| ==>
               s'.threads[PhaseThread(s.procs[p].life.phase).value].process
               == s.threads[PhaseThread(s.procs[p].life.phase).value].process
    ensures LifeOk(s', p)
  {
    var life := s.procs[p].life;
    assert s'.procs[p].life == life;
    forall i | 0 <= i < H.SLOTS ensures SlotOk(s', p, life.slots[i]) {
      assert SlotOk(s, p, life.slots[i]);
    }
  }

  // ---------------------------------------------------------------- retain

  lemma RetainKeeps(s: State, o: Obj, loose: multiset<Obj>)
    requires Inv(s, loose) && Refs(s, o) > 0
    ensures Inv(Retain(s, o), loose + multiset{o}) && SameLives(s, Retain(s, o))
  {
    RetainLives(s, o);
    if o.Thread? { RetainThreadKeeps(s, o.t, loose); } else { RetainProcessKeeps(s, o, loose); }
  }

  lemma RetainProcessKeeps(s: State, o: Obj, loose: multiset<Obj>)
    requires Inv(s, loose) && Refs(s, o) > 0 && !o.Thread?
    ensures Inv(Retain(s, o), loose + multiset{o})
  {
    var s' := Retain(s, o);
    SameLivesOk(s, s');
    ProcsCounted(s, s', o.p);
    forall x ensures Balanced(s', loose + multiset{o}, x) {
      assert Balanced(s, loose, x);
      HeldWithProc(s, s', o.p, s'.procs[o.p], x);
    }
  }

  lemma RetainThreadKeeps(s: State, t: nat, loose: multiset<Obj>)
    requires Inv(s, loose) && Refs(s, Thread(t)) > 0
    ensures Inv(Retain(s, Thread(t)), loose + multiset{Thread(t)})
  {
    var s' := Retain(s, Thread(t));
    assert ThreadCountOk(s.threads[t]);
    SameLivesOk(s, s');
    forall x ensures Balanced(s', loose + multiset{Thread(t)}, x) {
      assert Balanced(s, loose, x);
      HeldWithThread(s, s', t, s'.threads[t], x);
    }
  }

  // ---------------------------------------------------------------- release

  // All counts but those of process p are unchanged.
  lemma ProcsCounted(s: State, s': State, p: nat)
    requires p < |s.procs| && |s'.procs| == |s.procs| && s'.procs == s.procs[p := s'.procs[p]]
    requires forall q {:trigger ProcCountOk(s.procs[q])} :: 0 <= q < |s.procs| ==> ProcCountOk(s.procs[q])
    requires ProcCountOk(s.procs[p]) ==> ProcCountOk(s'.procs[p])
    ensures forall q {:trigger ProcCountOk(s'.procs[q])} :: 0 <= q < |s.procs| ==> ProcCountOk(s'.procs[q])
  {
    forall q | 0 <= q < |s.procs| ensures ProcCountOk(s'.procs[q]) {
      assert ProcCountOk(s.procs[q]);
    }
  }

  lemma ReleaseStdoutKeeps(s: State, p: nat, loose: multiset<Obj>)
    requires Inv(s, loose) && p < |s.procs| && loose[Stdout(p)] > 0
    ensures Inv(ReleaseStdout(s, p), loose - multiset{Stdout(p)}) && SameLives(s, ReleaseStdout(s, p))
  {
    var s', o := ReleaseStdout(s, p), Stdout(p);
    assert Balanced(s, loose, o);
    assert ProcCountOk(s.procs[p]);
    SameLivesOk(s, s');
    ProcsCounted(s, s', p);
    forall x ensures Balanced(s', loose - multiset{o}, x) {
      assert Balanced(s, loose, x);
      HeldWithProc(s, s', p, s'.procs[p], x);
    }
  }

  // The last release of a process: nothing is left in its table, its stdout service has no other holder.
  lemma LastReference(s: State, p: nat, loose: multiset<Obj>)
    requires Inv(s, loose) && p < |s.procs| && loose[Proc(p)] > 0 && loose[Stdout(p)] == 0 && s.procs[p].obj.refs == 1
    ensures s.procs[p].life.phase == Gone && !s.procs[p].life.retained && s.procs[p].stdout.refs == 1
    ensures s.procs[p].obj.destroyed == 0 && s.procs[p].stdout.destroyed == 0
  {
    assert Balanced(s, loose, Proc(p)) && Balanced(s, loose, Stdout(p));
    assert LifeOk(s, p) && ProcCountOk(s.procs[p]);
    if s.procs[p].life.phase != Gone {
      ActiveHeld(s, p);
    }
    HeldWithProc(s, s, p, s.procs[p], Proc(p));
    StdoutHeld(s, p);
  }

  lemma ReleaseProcessKeeps(s: State, p: nat, loose: multiset<Obj>)
    requires Inv(s, loose) && p < |s.procs| && loose[Proc(p)] > 0 && loose[Stdout(p)] == 0
    ensures Inv(ReleaseProcess(s, p), loose - multiset{Proc(p)}) && SameLives(s, ReleaseProcess(s, p))
  {
    var s', proc := ReleaseProcess(s, p), s.procs[p];
    assert Balanced(s, loose, Proc(p));
    assert LifeOk(s, p) && ProcCountOk(proc);
    if proc.obj.refs == 1 {
      LastReference(s, p, loose);
      ProcessCounted(s, s', p, proc.(obj := Counted(0, 1), stdout := Counted(0, 1)), loose);
    } else {
      ProcessCounted(s, s', p, proc.(obj := Less(proc.obj)), loose);
    }
  }

  lemma ProcessCounted(s: State, s': State, p: nat, proc: Process, loose: multiset<Obj>)
    requires Inv(s, loose) && p < |s.procs| && loose[Proc(p)] > 0 && s' == s.(procs := s.procs[p := proc])
    requires proc.life == s.procs[p].life && proc.pid == p && ProcCountOk(proc)
    requires proc.obj.refs == s.procs[p].obj.refs - 1
    requires proc.stdout.refs
             == s.procs[p].stdout.refs - if proc.obj.destroyed == s.procs[p].obj.destroyed then 0 else 1
    ensures Inv(s', loose - multiset{Proc(p)}) && SameLives(s, s')
  {
    assert LifeOk(s, p) && ProcCountOk(s.procs[p]);
    assert SameLives(s, s');
    SameLivesOk(s, s');
    ProcsCounted(s, s', p);
    forall x ensures Balanced(s', loose - multiset{Proc(p)}, x) {
      assert Balanced(s, loose, x);
      HeldWithProc(s, s', p, proc, x);
    }
  }

  // A thread whose last reference goes: its pointer to the process becomes a loose reference.
  lemma ThreadDestroyed(s: State, t: nat, loose: multiset<Obj>, s': State, left: multiset<Obj>)
    requires Inv(s, loose) && t < |s.threads| && loose[Thread(t)] > 0 && s.threads[t].obj.refs == 1
    requires s' == WithoutThread(s, t)
    requires left == loose - multiset{Thread(t)}
                     + (if s.threads[t].process.Some? then multiset{Proc(s.threads[t].process.value)} else multiset{})
    ensures Inv(s', left) && SameLives(s, s')
  {
    assert Balanced(s, loose, Thread(t));
    assert ThreadOk(s, t) && ThreadCountOk(s.threads[t]);
    forall x ensures Balanced(s', left, x) {
      assert Balanced(s, loose, x);
      HeldWithThread(s, s', t, s'.threads[t], x);
    }
    assert Held(s, Thread(t)) == 0;
    ThreadDestroyedOk(s, t, s');
  }

  // The thread with its last reference gone.
  function WithoutThread(s: State, t: nat): State
    requires t < |s.threads|
  {
    s.(threads := s.threads[t := s.threads[t].(obj := Counted(0, s.threads[t].obj.destroyed + 1), process := None)])
  }

  lemma ThreadDestroyedOk(s: State, t: nat, s': State)
    requires StateOk(s) && t < |s.threads| && s' == WithoutThread(s, t) && s.threads[t].obj.refs == 1
    requires Held(s, Thread(t)) == 0
    ensures StateOk(s') && SameLives(s, s')
  {
    forall p | 0 <= p < |s.procs| ensures LifeOk(s', p) {
      assert LifeOk(s, p);
      if PhaseThread(s.procs[p].life.phase) == Some(t) { PhaseHolds(s, p, t); }
      SameLifeOk(s, s', p);
    }
    forall u | 0 <= u < |s.threads| ensures ThreadOk(s', u) && ThreadCountOk(s'.threads[u]) {
      assert ThreadOk(s, u) && ThreadCountOk(s.threads[u]);
    }
    forall w | 0 <= w < |s.waiters| ensures WaiterOk(s', w) {
      assert WaiterOk(s, w);
    }
  }

  lemma PhaseHolds(s: State, p: nat, t: nat)
    requires p < |s.procs| && PhaseThread(s.procs[p].life.phase) == Some(t)
    ensures Held(s, Thread(t)) >= 1
  {
    HeldWithProc(s, s, p, s.procs[p], Thread(t));
  }

  lemma ThreadCounted(s: State, s': State, t: nat, loose: multiset<Obj>)
    requires Inv(s, loose) && t < |s.threads| && loose[Thread(t)] > 0 && s.threads[t].obj.refs > 1
    requires s' == s.(threads := s.threads[t := s.threads[t].(obj := Less(s.threads[t].obj))])
    ensures Inv(s', loose - multiset{Thread(t)}) && SameLives(s, s')
  {
    assert ThreadCountOk(s.threads[t]);
    SameLivesOk(s, s');
    forall x ensures Balanced(s', loose - multiset{Thread(t)}, x) {
      assert Balanced(s, loose, x);
      HeldWithThread(s, s', t, s'.threads[t], x);
    }
  }

  lemma ReleaseThreadKeeps(s: State, t: nat, loose: multiset<Obj>)
    requires Inv(s, loose) && t < |s.threads| && loose[Thread(t)] > 0 && forall q :: loose[Stdout(q)] == 0
    ensures Inv(ReleaseThread(s, t), loose - multiset{Thread(t)}) && SameLives(s, ReleaseThread(s, t))
  {
    var s', o := ReleaseThread(s, t), Thread(t);
    assert Balanced(s, loose, o);
    assert ThreadOk(s, t) && ThreadCountOk(s.threads[t]);
    if s.threads[t].obj.refs > 1 {
      ThreadCounted(s, s', t, loose);
    } else {
      LastThreadReference(s, t, loose, loose - multiset{o});
    }
  }

  lemma LastThreadReference(s: State, t: nat, loose: multiset<Obj>, left: multiset<Obj>)
    requires Inv(s, loose) && t < |s.threads| && loose[Thread(t)] > 0 && forall q :: loose[Stdout(q)] == 0
    requires s.threads[t].obj.refs == 1 && left == loose - multiset{Thread(t)}
    ensures Inv(ReleaseThread(s, t), left) && SameLives(s, ReleaseThread(s, t))
  {
    assert ThreadOk(s, t);
    LastIs(s, t);
    if s.threads[t].process.Some? {
      PassedOn(s, t, s.threads[t].process.value, loose, left);
    } else {
      assert left + multiset{} == left;
      ThreadDestroyed(s, t, loose, WithoutThread(s, t), left);
    }
  }

  lemma LastIs(s: State, t: nat)
    requires t < |s.threads| && s.threads[t].obj.refs == 1
    requires s.threads[t].process.Some? ==> s.threads[t].process.value < |s.procs|
    ensures ReleaseThread(s, t) == if s.threads[t].process.Some?
                                   then ReleaseProcess(WithoutThread(s, t), s.threads[t].process.value)
                                   else WithoutThread(s, t)
  {}

  // The thread's reference to its process goes with it.
  lemma PassedOn(s: State, t: nat, p: nat, loose: multiset<Obj>, left: multiset<Obj>)
    requires Inv(s, loose) && t < |s.threads| && loose[Thread(t)] > 0 && (forall q :: loose[Stdout(q)] == 0)
    requires s.threads[t].obj.refs == 1 && left == loose - multiset{Thread(t)}
    requires s.threads[t].process == Some(p) && p < |s.procs|
    ensures Inv(ReleaseProcess(WithoutThread(s, t), p), left)
    ensures SameLives(s, ReleaseProcess(WithoutThread(s, t), p))
  {
    var s1 := WithoutThread(s, t);
    ThreadDestroyed(s, t, loose, s1, left + multiset{Proc(p)});
    ReleaseProcessKeeps(s1, p, left + multiset{Proc(p)});
    assert left + multiset{Proc(p)} - multiset{Proc(p)} == left;
    LivesTransitive(s, s1, ReleaseProcess(s1, p));
  }

  lemma LivesTransitive(s: State, s1: State, s2: State)
    requires SameLives(s, s1) && SameLives(s1, s2)
    ensures SameLives(s, s2)
  {}

  lemma ReleaseKeeps(s: State, o: Obj, loose: multiset<Obj>)
    requires Inv(s, loose) && loose[o] > 0 && (!o.Stdout? ==> forall q :: loose[Stdout(q)] == 0)
    ensures Inv(Release(s, o), loose - multiset{o}) && SameLives(s, Release(s, o))
  {
    assert Balanced(s, loose, o);
    match o {
      case Proc(p) => ReleaseProcessKeeps(s, p, loose);
      case Thread(t) => ReleaseThreadKeeps(s, t, loose);
      case Stdout(p) => ReleaseStdoutKeeps(s, p, loose);
    }
  }
}

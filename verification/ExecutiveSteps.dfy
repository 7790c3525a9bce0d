/**
 Every step of the executive's protocol keeps the invariant.
 */
module ExecutiveSteps {
  import opened Option
  import opened Executive
  import opened ExecutiveInv
  import opened ExecutiveRefs
  import H = Handles

  // ---------------------------------------------------------------- one process moves on

  // What process p gives up becomes loose, what it takes was loose.
  ghost predicate Even(p: nat, life: Life, next: Life, loose: multiset<Obj>, left: multiset<Obj>, o: Obj) {
    LifeHeld(p, life, o) + loose[o] == LifeHeld(p, next, o) + left[o]
  }

  ghost predicate AllEven(p: nat, life: Life, next: Life, loose: multiset<Obj>, left: multiset<Obj>) {
    forall o {:trigger Even(p, life, next, loose, left, o)} :: Even(p, life, next, loose, left, o)
  }

  // The tables differ at p and at threads made for p at most.
  ghost predicate TablesOk(s: State, s': State, p: nat, phase: Phase) {
    && (forall q :: q != p ==> (q in s'.processTable <==> q in s.processTable))
    && (forall t :: t in s'.threadTable ==> t < |s.threads|)
    && (forall t :: 0 <= t < |s.threads| && s.threads[t].owner != p ==> (t in s'.threadTable <==> t in s.threadTable))
    && (forall t :: 0 <= t < |s.threads| && s.threads[t].owner == p && t in s'.threadTable ==>
          PhaseThread(phase) == Some(t))
  }

  lemma OtherLife(s: State, s': State, p: nat, q: nat)
    requires p < |s.procs| && q < |s.procs| && p != q && LifeOk(s, q)
    requires |s'.procs| == |s.procs| && s'.procs[q].life == s.procs[q].life && s'.procs[q].pid == s.procs[q].pid
    requires |s'.threads| >= |s.threads|
    requires forall t :: 0 <= t < |s.threads| ==>
               s'.threads[t].owner == s.threads[t].owner && (s.threads[t].owner == q ==> s'.threads[t] == s.threads[t])
    requires q in s'.processTable <==> q in s.processTable
    requires forall t :: 0 <= t < |s.threads| && s.threads[t].owner == q ==>
               (t in s'.threadTable <==> t in s.threadTable)
    ensures LifeOk(s', q)
  {
    var life := s.procs[q].life;
    forall i | 0 <= i < H.SLOTS ensures SlotOk(s', q, life.slots[i]) {
      assert SlotOk(s, q, life.slots[i]);
    }
  }

  lemma MoveKeeps(s: State, s': State, p: nat, life: Life, loose: multiset<Obj>, left: multiset<Obj>)
    requires Inv(s, loose) && p < |s.procs| && s'.procs == s.procs[p := s.procs[p].(life := life)]
    requires s'.threads == s.threads && s'.waiters == s.waiters && TablesOk(s, s', p, life.phase) && LifeOk(s', p)
    requires s.procs[p].life.consumer.Some? ==> life.consumer == s.procs[p].life.consumer
    requires AllEven(p, s.procs[p].life, life, loose, left)
    ensures Inv(s', left)
  {
    assert LifeOk(s, p);
    forall o ensures Balanced(s', left, o) {
      assert Balanced(s, loose, o) && Even(p, s.procs[p].life, life, loose, left, o);
      MoveBalanced(s, s', p, life, loose, left, o);
    }
    MoveOk(s, s', p, life);
  }

  lemma MoveBalanced(s: State, s': State, p: nat, life: Life, loose: multiset<Obj>, left: multiset<Obj>, o: Obj)
    requires p < |s.procs| && s.procs[p].pid == p && s'.procs == s.procs[p := s.procs[p].(life := life)]
    requires s'.threads == s.threads && s'.waiters == s.waiters
    requires Balanced(s, loose, o) && Even(p, s.procs[p].life, life, loose, left, o)
    ensures Balanced(s', left, o)
  {
    HeldWithProc(s, s', p, s'.procs[p], o);
  }

  lemma MoveOk(s: State, s': State, p: nat, life: Life)
    requires StateOk(s) && p < |s.procs| && s'.procs == s.procs[p := s.procs[p].(life := life)]
    requires s'.threads == s.threads && s'.waiters == s.waiters && TablesOk(s, s', p, life.phase) && LifeOk(s', p)
    requires s.procs[p].life.consumer.Some? ==> life.consumer == s.procs[p].life.consumer
    ensures StateOk(s')
  {
    forall q | 0 <= q < |s.procs| ensures LifeOk(s', q) && ProcCountOk(s'.procs[q]) {
      assert LifeOk(s, q) && ProcCountOk(s.procs[q]);
      if q != p { OtherLife(s, s', p, q); }
    }
    forall t | 0 <= t < |s.threads| ensures ThreadOk(s', t) {
      assert ThreadOk(s, t);
    }
    forall w | 0 <= w < |s.waiters| ensures WaiterOk(s', w) {
      assert WaiterOk(s, w);
    }
  }

  // The same with both tables unchanged.
  lemma PhaseKeeps(s: State, p: nat, life: Life, loose: multiset<Obj>, left: multiset<Obj>)
    requires Inv(s, loose) && p < |s.procs| && LifeOk(WithLife(s, p, life), p)
    requires PhaseThread(life.phase) == PhaseThread(s.procs[p].life.phase) || !ThreadListed(s.procs[p].life.phase)
    requires s.procs[p].life.consumer.Some? ==> life.consumer == s.procs[p].life.consumer
    requires AllEven(p, s.procs[p].life, life, loose, left)
    ensures Inv(WithLife(s, p, life), left)
  {
    var s' := WithLife(s, p, life);
    assert LifeOk(s, p);
    forall t | 0 <= t < |s.threads| && s.threads[t].owner == p && t in s'.threadTable
      ensures PhaseThread(life.phase) == Some(t)
    {
      assert ThreadOk(s, t);
    }
    MoveKeeps(s, s', p, life, loose, left);
  }

  // LifeOk for a life that differs from a good one in its phase and flags only.
  lemma NewLifeOk(s: State, s': State, p: nat, life: Life)
    requires p < |s.procs| && LifeOk(s, p) && |s'.procs| == |s.procs| && s'.procs[p] == s.procs[p].(life := life)
    requires s'.threads == s.threads && life.slots == s.procs[p].life.slots
    requires InBounds(life.phase) && CompletionOk(p in s'.processTable, life)
    requires life.phase != Gone ==> (life.started <==> HasStarted(life.phase))
    requires LinkOk(s', p, life.phase) && ClosedBelow(life.phase) <= ClosedBelow(s.procs[p].life.phase)
    requires life.phase.Threading? && life.phase.done >= 2 ==>
               s.procs[p].life.phase.Threading? && s.procs[p].life.phase.done >= 2
               && s.procs[p].life.phase.slot == life.phase.slot && s.procs[p].life.phase.t == life.phase.t
    requires life.phase.InCall? ==> OwnObject(s, p, life.phase.o)
    ensures LifeOk(s', p)
  {
    forall i | 0 <= i < H.SLOTS ensures SlotOk(s', p, life.slots[i]) {
      assert SlotOk(s, p, s.procs[p].life.slots[i]);
    }
  }

  // ---------------------------------------------------------------- handle tables

  // Nothing of an unlisted process is published, so that all of its handles may be closed.
  lemma UnlistedMayClose(s: State, p: nat)
    requires Inv(s, multiset{}) && p < |s.procs| && p !in s.processTable && !ThreadListed(s.procs[p].life.phase)
    ensures MayCloseAll(s, p, false)
  {
    var life := s.procs[p].life;
    assert LifeOk(s, p);
    forall i | 0 <= i < |life.slots| ensures MayClose(s, life.slots[i], false) {
      assert SlotOk(s, p, life.slots[i]);
      if life.slots[i].obj.Some? && life.slots[i].obj.value.Thread? {
        assert ThreadOk(s, life.slots[i].obj.value.t);
      }
    }
  }

  // The phases from which a handle table is closed.
  ghost predicate Closes(phase: Phase, next: Next) {
    match next
    case DropProcess => phase.Owned? || phase.Creating?
    case DropThread(t) => phase == Cancelling(t, 3)
    case Finish(t, clean) => phase == Finalizing(t, 4, clean)
  }

  lemma BeginCloseKeeps(s: State, p: nat, next: Next, allow: bool)
    requires Inv(s, multiset{}) && p < |s.procs| && Closes(s.procs[p].life.phase, next) && (allow || !next.Finish?)
    ensures Inv(BeginCloseAll(s, p, next, allow), multiset{})
  {
    var life, o := s.procs[p].life, Proc(p);
    assert LifeOk(s, p);
    if !allow { UnlistedMayClose(s, p); }
    ActiveHeld(s, p);
    assert Balanced(s, multiset{}, o);
    Retained(s, o, p);
    CloseRetained(Retain(s, o), p, next);
  }

  // With the owner retained, the table is closed from its first slot on.
  lemma CloseRetained(s: State, p: nat, next: Next)
    requires Inv(s, multiset{Proc(p)}) && p < |s.procs| && Closes(s.procs[p].life.phase, next)
    ensures Inv(WithPhase(s, p, Closing(0, next)), multiset{})
  {
    var life := s.procs[p].life;
    var closing := life.(phase := Closing(0, next));
    assert LifeOk(s, p);
    NewLifeOk(s, WithLife(s, p, closing), p, closing);
    forall x ensures Even(p, life, closing, multiset{Proc(p)}, multiset{}, x) {}
    PhaseKeeps(s, p, closing, multiset{Proc(p)}, multiset{});
  }

  lemma SlotsSum(slots: seq<Slot>, k: nat, slot: Slot, o: Obj)
    requires k < |slots|
    ensures Sum(slots[k := slot], SlotHeld, o) + SlotHeld(slots[k], o) == Sum(slots, SlotHeld, o) + SlotHeld(slot, o)
  {
    SumUpdate(slots, SlotHeld, o, k, slot);
  }

  // ExHandleInsert.
  lemma InsertKeeps(s: State, p: nat, o: Obj, rights: set<H.Right>, phase: Phase)
    requires Inv(s, multiset{}) && p < |s.procs| && CanInsert(s, p, o) && OwnObject(s, p, o) && H.CloseRight in rights
    requires InBounds(phase) && ClosedBelow(phase) == 0 && KindOf(phase) == Private && !HasStarted(phase)
    requires PhaseThread(phase) == PhaseThread(s.procs[p].life.phase) && !ThreadListed(phase)
    requires KindOf(s.procs[p].life.phase) == Private && !HasStarted(s.procs[p].life.phase)
    requires LinkOk(s, p, phase) && !phase.InCall?
    requires phase.Threading? && phase.done >= 2 ==>
               phase.slot == H.FirstFree(s.procs[p].life.slots) && o == Thread(phase.t)
    requires forall x :: PhaseHeld(p, phase, x) == PhaseHeld(p, s.procs[p].life.phase, x)
    ensures Inv(Inserted(s, p, H.FirstFree(s.procs[p].life.slots), o, rights, phase), multiset{})
  {
    var life, k := s.procs[p].life, H.FirstFree(s.procs[p].life.slots);
    var s1, after := Retain(s, o), life.(slots := life.slots[k := H.Taken(life.slots[k], o, rights)], phase := phase);
    Retained(s, o, p);
    InsertedLife(s1, p, k, o, rights, phase);
    forall x ensures Even(p, life, after, multiset{o}, multiset{}, x) {
      SlotsSum(life.slots, k, H.Taken(life.slots[k], o, rights), x);
    }
    PhaseKeeps(s1, p, after, multiset{o}, multiset{});
  }

  lemma InsertedLife(s: State, p: nat, k: nat, o: Obj, rights: set<H.Right>, phase: Phase)
    requires p < |s.procs| && LifeOk(s, p) && k < H.SLOTS && OwnObject(s, p, o) && H.CloseRight in rights
    requires InBounds(phase) && ClosedBelow(phase) == 0 && KindOf(phase) == Private && !HasStarted(phase)
    requires KindOf(s.procs[p].life.phase) == Private && !HasStarted(s.procs[p].life.phase)
    requires LinkOk(s, p, phase) && !phase.InCall?
    requires phase.Threading? && phase.done >= 2 ==> phase.slot == k && o == Thread(phase.t)
    ensures var life := s.procs[p].life;
            var slots := life.slots[k := H.Taken(life.slots[k], o, rights)];
            LifeOk(WithLife(s, p, life.(slots := slots, phase := phase)), p)
  {
    var life := s.procs[p].life;
    var after := life.(slots := life.slots[k := H.Taken(life.slots[k], o, rights)], phase := phase);
    forall i | 0 <= i < H.SLOTS ensures SlotOk(WithLife(s, p, after), p, after.slots[i]) {
      assert SlotOk(s, p, life.slots[i]);
    }
  }

  // One slot becomes free and its reference loose.
  lemma ClearKeeps(s: State, p: nat, i: nat, phase: Phase)
    requires Inv(s, multiset{}) && p < |s.procs| && i < H.SLOTS && |s.procs[p].life.slots| == H.SLOTS
    requires LifeOk(WithLife(s, p, Cleared(s.procs[p].life, i).(phase := phase)), p)
    requires PhaseThread(phase) == PhaseThread(s.procs[p].life.phase)
    requires forall x :: PhaseHeld(p, phase, x) == PhaseHeld(p, s.procs[p].life.phase, x)
    ensures var slot := s.procs[p].life.slots[i];
            Inv(WithLife(s, p, Cleared(s.procs[p].life, i).(phase := phase)),
                if slot.obj.Some? then multiset{slot.obj.value} else multiset{})
  {
    var life, slot := s.procs[p].life, s.procs[p].life.slots[i];
    var after := Cleared(life, i).(phase := phase);
    var left := if slot.obj.Some? then multiset{slot.obj.value} else multiset{};
    assert LifeOk(s, p);
    forall x ensures Even(p, life, after, multiset{}, left, x) {
      SlotsSum(life.slots, i, H.Cleared(life.slots[i]), x);
    }
    PhaseKeeps(s, p, after, multiset{}, left);
  }

  lemma ClearedOk(s: State, p: nat, i: nat, phase: Phase)
    requires p < |s.procs| && LifeOk(s, p) && i < H.SLOTS && InBounds(phase)
    requires LinkOk(s, p, phase) && CompletionOk(p in s.processTable, s.procs[p].life.(phase := phase))
    requires phase != Gone && (s.procs[p].life.started <==> HasStarted(phase))
    requires ClosedBelow(phase) <= ClosedBelow(s.procs[p].life.phase)
             || (ClosedBelow(phase) == i + 1 && ClosedBelow(s.procs[p].life.phase) == i)
    requires !(phase.Threading? && phase.done >= 2) && !phase.InCall?
    ensures LifeOk(WithLife(s, p, Cleared(s.procs[p].life, i).(phase := phase)), p)
  {
    ClearedSlots(s, p, i, phase);
  }

  lemma ClearedSlots(s: State, p: nat, i: nat, phase: Phase)
    requires p < |s.procs| && SlotsOk(s, p, s.procs[p].life) && i < H.SLOTS
    requires ClosedBelow(phase) <= ClosedBelow(s.procs[p].life.phase)
             || (ClosedBelow(phase) == i + 1 && ClosedBelow(s.procs[p].life.phase) == i)
    requires !(phase.Threading? && phase.done >= 2)
    ensures var after := Cleared(s.procs[p].life, i).(phase := phase);
            SlotsOk(WithLife(s, p, after), p, after)
  {
    var life := s.procs[p].life;
    var after := Cleared(life, i).(phase := phase);
    var s' := WithLife(s, p, after);
    forall k | 0 <= k < H.SLOTS
      ensures SlotOk(s', p, after.slots[k]) && (k < ClosedBelow(phase) ==> after.slots[k].obj.None?)
    {
      ClearedSlot(s, s', p, life, i, k);
    }
  }

  lemma ClearedSlot(s: State, s': State, p: nat, life: Life, i: nat, k: nat)
    requires s'.threads == s.threads && i < |life.slots| && k < |life.slots| && SlotOk(s, p, life.slots[k])
    ensures |Cleared(life, i).slots| == |life.slots| && SlotOk(s', p, Cleared(life, i).slots[k])
    ensures k == i || life.slots[k].obj.None? ==> Cleared(life, i).slots[k].obj.None?
  {}

  // ---------------------------------------------------------------- plain moves

  // A move that neither takes nor gives a reference and leaves the tables alone.
  lemma PlainKeeps(s: State, p: nat, life: Life)
    requires Inv(s, multiset{}) && p < |s.procs|
    requires life.slots == s.procs[p].life.slots && life.retained == s.procs[p].life.retained
    requires life.consumer == s.procs[p].life.consumer
    requires InBounds(life.phase) && CompletionOk(p in s.processTable, life)
    requires life.phase != Gone ==> (life.started <==> HasStarted(life.phase))
    requires LinkOk(s, p, life.phase) && ClosedBelow(life.phase) <= ClosedBelow(s.procs[p].life.phase)
    requires life.phase.Threading? && life.phase.done >= 2 ==>
               s.procs[p].life.phase.Threading? && s.procs[p].life.phase.done >= 2
               && s.procs[p].life.phase.slot == life.phase.slot && s.procs[p].life.phase.t == life.phase.t
    requires life.phase.InCall? ==> OwnObject(s, p, life.phase.o)
    requires PhaseThread(life.phase) == PhaseThread(s.procs[p].life.phase) || !ThreadListed(s.procs[p].life.phase)
    requires forall x :: PhaseHeld(p, life.phase, x) == PhaseHeld(p, s.procs[p].life.phase, x)
    ensures Inv(WithLife(s, p, life), multiset{})
  {
    assert LifeOk(s, p);
    NewLifeOk(s, WithLife(s, p, life), p, life);
    forall x ensures Even(p, s.procs[p].life, life, multiset{}, multiset{}, x) {}
    PhaseKeeps(s, p, life, multiset{}, multiset{});
  }

  // A move that takes up the one loose reference.
  lemma TakeUp(s: State, p: nat, life: Life, o: Obj)
    requires Inv(s, multiset{o}) && p < |s.procs|
    requires life.slots == s.procs[p].life.slots && life.consumer == s.procs[p].life.consumer
    requires InBounds(life.phase) && CompletionOk(p in s.processTable, life) && life.phase != Gone
    requires (life.started <==> HasStarted(life.phase)) && !life.phase.Threading?
    requires LinkOk(s, p, life.phase) && ClosedBelow(life.phase) <= ClosedBelow(s.procs[p].life.phase)
    requires life.phase.InCall? ==> OwnObject(s, p, life.phase.o)
    requires PhaseThread(life.phase) == PhaseThread(s.procs[p].life.phase)
    requires forall x :: LifeHeld(p, life, x) == LifeHeld(p, s.procs[p].life, x) + One(x, o)
    ensures Inv(WithLife(s, p, life), multiset{})
  {
    assert LifeOk(s, p);
    NewLifeOk(s, WithLife(s, p, life), p, life);
    forall x ensures Even(p, s.procs[p].life, life, multiset{o}, multiset{}, x) {}
    PhaseKeeps(s, p, life, multiset{o}, multiset{});
  }

  // The same move with changed tables.
  lemma TableKeeps(s: State, s': State, p: nat, phase: Phase)
    requires Inv(s, multiset{}) && p < |s.procs| && s'.procs == WithPhase(s, p, phase).procs
    requires s'.threads == s.threads && s'.waiters == s.waiters && TablesOk(s, s', p, phase)
    requires InBounds(phase) && CompletionOk(p in s'.processTable, s.procs[p].life.(phase := phase))
    requires phase != Gone && (s.procs[p].life.started <==> HasStarted(phase))
    requires LinkOk(s', p, phase) && ClosedBelow(phase) == 0 && !phase.Threading? && !phase.InCall?
    requires forall x :: PhaseHeld(p, phase, x) == PhaseHeld(p, s.procs[p].life.phase, x)
    ensures Inv(s', multiset{})
  {
    var life := s.procs[p].life.(phase := phase);
    assert LifeOk(s, p);
    NewLifeOk(s, s', p, life);
    forall x ensures Even(p, s.procs[p].life, life, multiset{}, multiset{}, x) {}
    MoveKeeps(s, s', p, life, multiset{}, multiset{});
  }

  // A phase that lets go of one reference, which is then released.
  lemma LetGo(s: State, p: nat, phase: Phase, o: Obj)
    requires Inv(s, multiset{}) && p < |s.procs| && !o.Stdout?
    requires InBounds(phase) && CompletionOk(p in s.processTable, s.procs[p].life.(phase := phase))
    requires phase != Gone ==> (s.procs[p].life.started <==> HasStarted(phase))
    requires LinkOk(s, p, phase) && ClosedBelow(phase) <= ClosedBelow(s.procs[p].life.phase)
    requires !phase.Threading? && !phase.InCall?
    requires PhaseThread(phase) == PhaseThread(s.procs[p].life.phase) || !ThreadListed(s.procs[p].life.phase)
    requires forall x :: PhaseHeld(p, s.procs[p].life.phase, x) == PhaseHeld(p, phase, x) + One(x, o)
    ensures Inv(Release(WithPhase(s, p, phase), o), multiset{})
  {
    var life := s.procs[p].life.(phase := phase);
    assert LifeOk(s, p);
    NewLifeOk(s, WithLife(s, p, life), p, life);
    forall x ensures Even(p, s.procs[p].life, life, multiset{}, multiset{o}, x) {}
    PhaseKeeps(s, p, life, multiset{}, multiset{o});
    Dropped(WithLife(s, p, life), o);
  }

  // Releasing the one loose reference.
  lemma Dropped(s: State, o: Obj)
    requires Inv(s, multiset{o})
    ensures Inv(Release(s, o), multiset{}) && SameLives(s, Release(s, o))
  {
    ReleaseKeeps(s, o, multiset{o});
    assert multiset{o} - multiset{o} == multiset{};
  }

  // ---------------------------------------------------------------- creation

  lemma CreateKeeps(s: State, parent: nat)
    requires Inv(s, multiset{})
    ensures Inv(Apply(s, Create(parent)), multiset{})
  {
    var s', n := Apply(s, Create(parent)), |s.procs|;
    forall o ensures Balanced(s', multiset{}, o) {
      assert Balanced(s, multiset{}, o);
      NewProcessBalanced(s, s', parent, o);
    }
    forall q | 0 <= q < |s'.procs| ensures LifeOk(s', q) && ProcCountOk(s'.procs[q]) {
      if q < n {
        assert LifeOk(s, q) && ProcCountOk(s.procs[q]);
        Grown(s, s', q);
      }
    }
    forall t | 0 <= t < |s.threads| ensures ThreadOk(s', t) { assert ThreadOk(s, t); }
    forall w | 0 <= w < |s.waiters| ensures WaiterOk(s', w) { assert WaiterOk(s, w); }
  }

  lemma NewProcessBalanced(s: State, s': State, parent: nat, o: Obj)
    requires Balanced(s, multiset{}, o) && s' == s.(procs := s.procs + [NewProcess(|s.procs|, parent)])
    ensures Balanced(s', multiset{}, o)
  {
    var proc := NewProcess(|s.procs|, parent);
    SumAppend(s.procs, ProcHeld, o, proc);
    SumZero(proc.life.slots, SlotHeld, o);
  }

  lemma Grown(s: State, s': State, q: nat)
    requires q < |s.procs| && LifeOk(s, q) && q < |s'.procs| && s'.procs[q] == s.procs[q]
    requires |s.threads| <= |s'.threads| && (forall t :: 0 <= t < |s.threads| ==> s'.threads[t] == s.threads[t])
    requires s'.processTable == s.processTable && s'.threadTable == s.threadTable
    ensures LifeOk(s', q)
  {
    forall i | 0 <= i < H.SLOTS ensures SlotOk(s', q, s.procs[q].life.slots[i]) {
      assert SlotOk(s, q, s.procs[q].life.slots[i]);
    }
  }

  lemma CreateStepKeeps(s: State, p: nat, ok: bool)
    requires Inv(s, multiset{}) && p < |s.procs| && s.procs[p].life.phase.Creating?
    ensures Inv(CreateStep(s, p, s.procs[p].life.phase.done, ok), multiset{})
  {
    var life, done := s.procs[p].life, s.procs[p].life.phase.done;
    assert LifeOk(s, p);
    if done < 3 {
      if !ok {
        PlainKeeps(s, p, life.(phase := Dropping(DropProcess)));
      } else {
        PlainKeeps(s, p, life.(phase := Creating(done + 1), staged := done == 2));
      }
    } else {
      FirstHandlesKeep(s, p, done);
    }
  }

  // The three handles every process starts with.
  lemma FirstHandlesKeep(s: State, p: nat, done: nat)
    requires Inv(s, multiset{}) && p < |s.procs| && s.procs[p].life.phase == Creating(done) && done >= 3
    ensures Inv(CreateStep(s, p, done, true), multiset{}) && Inv(CreateStep(s, p, done, false), multiset{})
  {
    var life, o := s.procs[p].life, if done == 4 then Stdout(p) else Proc(p);
    assert LifeOk(s, p);
    if CanInsert(s, p, o) {
      InsertKeeps(s, p, o, FirstRights(done), if done < 5 then Creating(done + 1) else Owned);
    } else {
      AbandonKeeps(s, p);
    }
  }

  // The payload goes, then the handle table is closed.
  lemma AbandonKeeps(s: State, p: nat)
    requires Inv(s, multiset{}) && p < |s.procs| && (s.procs[p].life.phase.Creating? || s.procs[p].life.phase.Owned?)
    ensures Inv(BeginCloseAll(WithLife(s, p, s.procs[p].life.(staged := false)), p, DropProcess, false), multiset{})
  {
    var life := s.procs[p].life.(staged := false);
    assert LifeOk(s, p);
    PlainKeeps(s, p, life);
    BeginCloseKeeps(WithLife(s, p, life), p, DropProcess, false);
  }

  // ---------------------------------------------------------------- threads

  // The owner reference of the process moves between the call and the thread's pointer.
  lemma PointerKeeps(s: State, p: nat, t: nat, pointer: Option<nat>, phase: Phase, left: multiset<Obj>)
    requires Inv(s, multiset{}) && p < |s.procs| && t < |s.threads| && s.threads[t].owner == p
    requires !ThreadListed(s.procs[p].life.phase)
    requires pointer.Some? ==> pointer.value == p && s.threads[t].obj.refs > 0
    requires LifeOk(WithPhase(WithPointer(s, t, pointer), p, phase), p)
    requires forall x :: PhaseHeld(p, s.procs[p].life.phase, x) + ThreadHeld(s.threads[t], x)
                         == PhaseHeld(p, phase, x) + ThreadHeld(s.threads[t].(process := pointer), x) + left[x]
    ensures Inv(WithPhase(WithPointer(s, t, pointer), p, phase), left)
  {
    var s1 := WithPointer(s, t, pointer);
    var s' := WithPhase(s1, p, phase);
    assert LifeOk(s, p);
    forall o ensures Balanced(s', left, o) {
      assert Balanced(s, multiset{}, o);
      PointerBalanced(s, p, t, pointer, phase, left, o);
    }
    forall q | 0 <= q < |s.procs| ensures LifeOk(s', q) {
      assert LifeOk(s, q);
      if q != p { OtherLife(s, s', p, q); }
    }
    forall u | 0 <= u < |s.threads| ensures ThreadOk(s', u) && ThreadCountOk(s'.threads[u]) {
      assert ThreadOk(s, u) && ThreadCountOk(s.threads[u]);
    }
    forall w | 0 <= w < |s.waiters| ensures WaiterOk(s', w) { assert WaiterOk(s, w); }
    forall q | 0 <= q < |s.procs| ensures ProcCountOk(s'.procs[q]) {
      assert ProcCountOk(s.procs[q]);
    }
  }

  lemma PointerBalanced(s: State, p: nat, t: nat, pointer: Option<nat>, phase: Phase, left: multiset<Obj>, o: Obj)
    requires p < |s.procs| && t < |s.threads| && s.procs[p].pid == p && Balanced(s, multiset{}, o)
    requires PhaseHeld(p, s.procs[p].life.phase, o) + ThreadHeld(s.threads[t], o)
             == PhaseHeld(p, phase, o) + ThreadHeld(s.threads[t].(process := pointer), o) + left[o]
    ensures Balanced(WithPhase(WithPointer(s, t, pointer), p, phase), left, o)
  {
    var s1 := WithPointer(s, t, pointer);
    var s' := WithPhase(s1, p, phase);
    HeldWithThread(s, s1, t, s1.threads[t], o);
    HeldWithProc(s1, s', p, s'.procs[p], o);
  }

  lemma PointedLifeOk(s: State, p: nat, t: nat, pointer: Option<nat>, phase: Phase)
    requires p < |s.procs| && t < |s.threads| && LifeOk(s, p) && s.procs[p].life.phase.Threading?
    requires s.threads[t].owner == p
    requires phase == Owned || (phase == Threading(t, 1, 0) && pointer == Some(p) && t !in s.threadTable)
    ensures LifeOk(WithPhase(WithPointer(s, t, pointer), p, phase), p)
  {
    var life := s.procs[p].life;
    forall i | 0 <= i < H.SLOTS ensures SlotOk(WithPhase(WithPointer(s, t, pointer), p, phase), p, life.slots[i]) {
      assert SlotOk(s, p, life.slots[i]);
    }
  }

  lemma DetachKeeps(s: State, p: nat, t: nat)
    requires Inv(s, multiset{}) && p < |s.procs| && s.procs[p].life.phase == Threading(t, 1, 0) && t < |s.threads|
    ensures Inv(Release(WithPhase(WithPointer(s, t, None), p, Owned), Thread(t)), multiset{})
  {
    assert LifeOk(s, p);
    PointedLifeOk(s, p, t, None, Owned);
    PointerKeeps(s, p, t, None, Owned, multiset{Thread(t)});
    Dropped(WithPhase(WithPointer(s, t, None), p, Owned), Thread(t));
  }

  lemma FailThreadKeeps(s: State, p: nat, t: nat, inTable: bool, slot: nat)
    requires Inv(s, multiset{}) && p < |s.procs| && t < |s.threads|
    requires s.procs[p].life.phase.Threading? && s.procs[p].life.phase.t == t && s.procs[p].life.phase.done >= 1
    requires inTable == (s.procs[p].life.phase.done >= 2) && (inTable ==> slot == s.procs[p].life.phase.slot)
    ensures Inv(FailThread(s, p, t, inTable, slot), multiset{})
  {
    assert LifeOk(s, p);
    var phase := Threading(t, 1, 0);
    if inTable {
      ClearedOk(s, p, slot, phase);
      ClearKeeps(s, p, slot, phase);
      var s0 := WithLife(s, p, Cleared(s.procs[p].life, slot).(phase := phase));
      Dropped(s0, Thread(t));
      assert Release(s0, Thread(t)).procs[p].life == s0.procs[p].life;
      DetachKeeps(Release(s0, Thread(t)), p, t);
    } else {
      PlainKeeps(s, p, s.procs[p].life.(phase := phase));
      DetachKeeps(WithPhase(s, p, phase), p, t);
    }
  }

  lemma PublishKeeps(s: State, p: nat, t: nat)
    requires Inv(s, multiset{}) && p < |s.procs| && t < |s.threads|
    requires s.procs[p].life.phase.Threading? && s.procs[p].life.phase.t == t && s.procs[p].life.phase.done == 3
    ensures Inv(WithPhase(s, p, Unstarted(t))
                .(processTable := s.processTable + {p}, threadTable := s.threadTable + {t}), multiset{})
  {
    assert LifeOk(s, p);
    var s' := WithPhase(s, p, Unstarted(t)).(processTable := s.processTable + {p}, threadTable := s.threadTable + {t});
    forall u | 0 <= u < |s.threads| && s.threads[u].owner == p && u in s'.threadTable ensures u == t {
      assert ThreadOk(s, u);
    }
    TableKeeps(s, s', p, Unstarted(t));
  }

  // The thread's pointer takes over the owner reference of the process.
  lemma AttachKeeps(s: State, p: nat, t: nat)
    requires Inv(s, multiset{}) && p < |s.procs| && t < |s.threads|
    requires s.procs[p].life.phase.Threading? && s.procs[p].life.phase.t == t && s.procs[p].life.phase.done == 0
    ensures Inv(WithPhase(WithPointer(s, t, Some(p)), p, Threading(t, 1, 0)), multiset{})
  {
    assert LifeOk(s, p);
    PointedLifeOk(s, p, t, Some(p), Threading(t, 1, 0));
    HeldWithProc(s, s, p, s.procs[p], Thread(t));
    assert Balanced(s, multiset{}, Thread(t));
    PointerKeeps(s, p, t, Some(p), Threading(t, 1, 0), multiset{});
  }

  lemma SelfHandleKeeps(s: State, p: nat, t: nat)
    requires Inv(s, multiset{}) && p < |s.procs| && t < |s.threads|
    requires s.procs[p].life.phase.Threading? && s.procs[p].life.phase.t == t && s.procs[p].life.phase.done == 1
    ensures Inv(ThreadStep(s, p, t, 1, 0, true), multiset{})
  {
    var life := s.procs[p].life;
    assert LifeOk(s, p);
    if CanInsert(s, p, Thread(t)) {
      InsertKeeps(s, p, Thread(t), THREAD_RIGHTS, Threading(t, 2, H.FirstFree(life.slots)));
    } else {
      FailThreadKeeps(s, p, t, false, 0);
    }
  }

  lemma ThreadStepKeeps(s: State, p: nat, ok: bool)
    requires Inv(s, multiset{}) && p < |s.procs| && s.procs[p].life.phase.Threading?
    ensures var phase := s.procs[p].life.phase;
            phase.t < |s.threads| && Inv(ThreadStep(s, p, phase.t, phase.done, phase.slot, ok), multiset{})
  {
    var life, t, slot := s.procs[p].life, s.procs[p].life.phase.t, s.procs[p].life.phase.slot;
    assert LifeOk(s, p);
    if life.phase.done == 0 {
      if ok {
        AttachKeeps(s, p, t);
      } else {
        LetGo(s, p, Owned, Thread(t));
      }
    } else if life.phase.done == 1 {
      SelfHandleKeeps(s, p, t);
    } else if life.phase.done == 2 && ok {
      PlainKeeps(s, p, life.(phase := Threading(t, 3, slot)));
    } else {
      FailThreadKeeps(s, p, t, true, slot);
      if life.phase.done == 3 {
        PublishKeeps(s, p, t);
      }
    }
  }

  lemma BeginThreadKeeps(s: State, p: nat)
    requires Inv(s, multiset{}) && Enabled(s, BeginThread(p))
    ensures Inv(Apply(s, BeginThread(p)), multiset{})
  {
    var t, s' := |s.threads|, Apply(s, BeginThread(p));
    assert LifeOk(s, p);
    forall o ensures Balanced(s', multiset{}, o) {
      assert Balanced(s, multiset{}, o);
      NewThreadBalanced(s, p, o);
    }
    forall q | 0 <= q < |s.procs| ensures LifeOk(s', q) && ProcCountOk(s'.procs[q]) {
      assert LifeOk(s, q) && ProcCountOk(s.procs[q]);
      if q != p { Grown(s, s', q); } else { NewThreadLife(s, s', p, t); }
    }
    forall u | 0 <= u < |s'.threads| ensures ThreadOk(s', u) && ThreadCountOk(s'.threads[u]) {
      if u < t { assert ThreadOk(s, u) && ThreadCountOk(s.threads[u]); }
    }
    forall w | 0 <= w < |s.waiters| ensures WaiterOk(s', w) { assert WaiterOk(s, w); }
  }

  lemma NewThreadBalanced(s: State, p: nat, o: Obj)
    requires p < |s.procs| && s.procs[p].life.phase == Owned && s.procs[p].pid == p && Balanced(s, multiset{}, o)
    ensures Balanced(WithThread(s, p), multiset{}, o)
  {
    var thread := ThreadObj(Counted(1, 0), p, None);
    var s1, s' := s.(threads := s.threads + [thread]), WithThread(s, p);
    ThreadAdded(s, s1, thread, o);
    HeldWithProc(s1, s', p, s'.procs[p], o);
    ThreadingHeld(p, s.procs[p].life, |s.threads|, o);
  }

  lemma ThreadAdded(s: State, s1: State, thread: ThreadObj, o: Obj)
    requires s1 == s.(threads := s.threads + [thread]) && thread.process == None
    ensures Held(s1, o) == Held(s, o)
  {
    SumAppend(s.threads, ThreadHeld, o, thread);
  }

  lemma ThreadingHeld(p: nat, life: Life, t: nat, o: Obj)
    requires life.phase == Owned
    ensures LifeHeld(p, life.(phase := Threading(t, 0, 0)), o) == LifeHeld(p, life, o) + One(o, Thread(t))
  {}

  // BeginThread's effect.
  function WithThread(s: State, p: nat): State
    requires p < |s.procs|
  {
    WithPhase(s, p, Threading(|s.threads|, 0, 0)).(threads := s.threads + [ThreadObj(Counted(1, 0), p, None)])
  }

  lemma NewThreadLife(s: State, s': State, p: nat, t: nat)
    requires p < |s.procs| && LifeOk(s, p) && s.procs[p].life.phase == Owned && t == |s.threads| && t !in s.threadTable
    requires s' == WithPhase(s, p, Threading(t, 0, 0)).(threads := s.threads + [ThreadObj(Counted(1, 0), p, None)])
    ensures LifeOk(s', p)
  {
    forall i | 0 <= i < H.SLOTS ensures SlotOk(s', p, s.procs[p].life.slots[i]) {
      assert SlotOk(s, p, s.procs[p].life.slots[i]);
    }
  }

  // ---------------------------------------------------------------- termination

  lemma MarkKeeps(s: State, p: nat, t: nat, clean: bool)
    requires Inv(s, multiset{}) && p < |s.procs| && s.procs[p].life.phase == Finalizing(t, 0, clean)
    ensures Inv(MarkTerminated(s, p, Finalizing(t, 1, clean)), multiset{})
  {
    var o := Proc(p);
    assert LifeOk(s, p);
    ActiveHeld(s, p);
    assert Balanced(s, multiset{}, o);
    MarkIs(s, p, Finalizing(t, 1, clean));
    Retained(s, o, p);
    MarkedKeeps(Retain(s, o), p, t, clean);
  }

  // The life ExRuntimeMarkProcessTerminated leaves when it takes the completion reference.
  function Ended(life: Life, phase: Phase): Life {
    life.(phase := phase, state := Terminated, reason := if life.reason == NoReason then ExitReason else life.reason,
          exitStatus := if life.reason == NoReason then 0 else life.exitStatus,
          retained := true, taken := life.taken + 1)
  }

  lemma MarkIs(s: State, p: nat, phase: Phase)
    requires p < |s.procs| && !s.procs[p].life.retained && Refs(s, Proc(p)) > 0
    ensures MarkTerminated(s, p, phase) == WithLife(Retain(s, Proc(p)), p, Ended(s.procs[p].life, phase))
  {}

  lemma MarkedKeeps(s: State, p: nat, t: nat, clean: bool)
    requires Inv(s, multiset{Proc(p)}) && p < |s.procs| && s.procs[p].life.phase == Finalizing(t, 0, clean)
    ensures Inv(WithLife(s, p, Ended(s.procs[p].life, Finalizing(t, 1, clean))), multiset{})
  {
    var life := s.procs[p].life;
    var ended := Ended(life, Finalizing(t, 1, clean));
    assert LifeOk(s, p);
    forall x ensures LifeHeld(p, ended, x) == LifeHeld(p, life, x) + One(x, Proc(p)) {
      MarkHeld(p, life, ended, t, clean, x);
    }
    TakeUp(s, p, ended, Proc(p));
  }

  lemma MarkHeld(p: nat, life: Life, ended: Life, t: nat, clean: bool, x: Obj)
    requires life.phase == Finalizing(t, 0, clean) && ended.phase == Finalizing(t, 1, clean)
    requires ended.slots == life.slots && !life.retained && ended.retained
    ensures LifeHeld(p, ended, x) == LifeHeld(p, life, x) + One(x, Proc(p))
  {}

  lemma UnlistThreadKeeps(s: State, p: nat, t: nat, phase: Phase)
    requires Inv(s, multiset{}) && p < |s.procs|
    requires (exists clean :: s.procs[p].life.phase == Finalizing(t, 3, clean) && phase == Finalizing(t, 4, clean))
             || (s.procs[p].life.phase == Cancelling(t, 1) && phase == Cancelling(t, 2))
    ensures Inv(WithPhase(s, p, phase).(threadTable := s.threadTable - {t}), multiset{})
  {
    assert LifeOk(s, p);
    var s' := WithPhase(s, p, phase).(threadTable := s.threadTable - {t});
    forall u | 0 <= u < |s.threads| && s.threads[u].owner == p ensures u !in s'.threadTable {
      assert ThreadOk(s, u);
    }
    TableKeeps(s, s', p, phase);
  }

  lemma FinalizeStepKeeps(s: State, p: nat, ok: bool)
    requires Inv(s, multiset{}) && p < |s.procs| && s.procs[p].life.phase.Finalizing?
    ensures var phase := s.procs[p].life.phase;
            phase.t < |s.threads| && Inv(FinalizeStep(s, p, phase.t, phase.done, phase.clean, ok), multiset{})
  {
    var life, t, clean := s.procs[p].life, s.procs[p].life.phase.t, s.procs[p].life.phase.clean;
    assert LifeOk(s, p);
    if life.phase.done == 0 {
      MarkKeeps(s, p, t, clean);
    } else if life.phase.done == 1 {
      PlainKeeps(s, p, life.(phase := Finalizing(t, 2, clean)));
    } else if life.phase.done == 2 {
      PlainKeeps(s, p, life.(phase := Finalizing(t, 3, ok), staged := false));
    } else if life.phase.done == 3 {
      UnlistThreadKeeps(s, p, t, Finalizing(t, 4, clean));
    } else {
      BeginCloseKeeps(s, p, Finish(t, clean), true);
    }
  }

  lemma CancelStepKeeps(s: State, p: nat)
    requires Inv(s, multiset{}) && p < |s.procs| && s.procs[p].life.phase.Cancelling?
    ensures Inv(CancelStep(s, p, s.procs[p].life.phase.t, s.procs[p].life.phase.done), multiset{})
  {
    var life, t := s.procs[p].life, s.procs[p].life.phase.t;
    assert LifeOk(s, p);
    if life.phase.done == 0 {
      PlainKeeps(s, p, life.(phase := Cancelling(t, 1), staged := false, state := Terminated));
    } else if life.phase.done == 1 {
      UnlistThreadKeeps(s, p, t, Cancelling(t, 2));
    } else if life.phase.done == 2 {
      var s' := CancelStep(s, p, t, 2);
      forall u | 0 <= u < |s.threads| && s.threads[u].owner == p ensures u !in s'.threadTable {
        assert ThreadOk(s, u);
      }
      TableKeeps(s, s', p, Cancelling(t, 3));
    } else {
      BeginCloseKeeps(s, p, DropThread(t), false);
    }
  }

  // ---------------------------------------------------------------- closing, dropping, completing

  lemma CloseStepKeeps(s: State, p: nat)
    requires Inv(s, multiset{}) && p < |s.procs| && s.procs[p].life.phase.Closing?
    ensures Inv(CloseStep(s, p, s.procs[p].life.phase.i, s.procs[p].life.phase.next), multiset{})
  {
    var life, i, next := s.procs[p].life, s.procs[p].life.phase.i, s.procs[p].life.phase.next;
    assert LifeOk(s, p);
    if i >= |life.slots| {
      LetGo(s, p, Dropping(next), Proc(p));
    } else {
      CloseSlotKeeps(s, p, i, next);
      if life.slots[i].obj.Some? {
        Dropped(WithLife(s, p, Cleared(life, i).(phase := Closing(i + 1, next))), life.slots[i].obj.value);
      }
    }
  }

  lemma CloseSlotKeeps(s: State, p: nat, i: nat, next: Next)
    requires Inv(s, multiset{}) && p < |s.procs| && s.procs[p].life.phase == Closing(i, next)
    requires i < H.SLOTS && |s.procs[p].life.slots| == H.SLOTS
    ensures var slot := s.procs[p].life.slots[i];
            Inv(WithLife(s, p, Cleared(s.procs[p].life, i).(phase := Closing(i + 1, next))),
                if slot.obj.Some? then multiset{slot.obj.value} else multiset{})
  {
    assert LifeOk(s, p);
    ClearedOk(s, p, i, Closing(i + 1, next));
    ClearKeeps(s, p, i, Closing(i + 1, next));
  }

  lemma DropStepKeeps(s: State, p: nat)
    requires Inv(s, multiset{}) && p < |s.procs| && s.procs[p].life.phase.Dropping?
    ensures Inv(DropStep(s, p, s.procs[p].life.phase.next), multiset{})
  {
    assert LifeOk(s, p);
    match s.procs[p].life.phase.next {
      case DropProcess => LetGo(s, p, Gone, Proc(p));
      case DropThread(t) => LetGo(s, p, Gone, Thread(t));
      case Finish(t, clean) => LetGo(s, p, Completing(clean), Thread(t));
    }
  }

  lemma CompleteStepKeeps(s: State, p: nat)
    requires Inv(s, multiset{}) && p < |s.procs| && s.procs[p].life.phase.Completing?
    ensures Inv(CompleteStep(s, p, s.procs[p].life.phase.clean), multiset{})
  {
    var life := s.procs[p].life;
    assert LifeOk(s, p);
    PlainKeeps(s, p, life.(phase := Gone, signaled := life.phase.clean));
  }

  lemma EndCallKeeps(s: State, p: nat)
    requires Inv(s, multiset{}) && p < |s.procs| && s.procs[p].life.phase.InCall?
    ensures Inv(Release(WithPhase(s, p, Running(s.procs[p].life.phase.t)), s.procs[p].life.phase.o), multiset{})
  {
    var life, o := s.procs[p].life, s.procs[p].life.phase.o;
    var after := life.(phase := Running(life.phase.t));
    assert LifeOk(s, p);
    NewLifeOk(s, WithLife(s, p, after), p, after);
    forall x ensures Even(p, life, after, multiset{}, multiset{o}, x) {}
    PhaseKeeps(s, p, after, multiset{}, multiset{o});
    Dropped(WithLife(s, p, after), o);
  }

  lemma GoKeeps(s: State, p: nat, ok: bool)
    requires Inv(s, multiset{}) && Enabled(s, Go(p, ok))
    ensures Inv(GoStep(s, p, ok), multiset{})
  {
    assert LifeOk(s, p);
    match s.procs[p].life.phase {
      case Creating(_) => CreateStepKeeps(s, p, ok);
      case Threading(_, _, _) => ThreadStepKeeps(s, p, ok);
      case InCall(_, _) => EndCallKeeps(s, p);
      case Exited(t) => PlainKeeps(s, p, s.procs[p].life.(phase := Finalizing(t, 0, true)));
      case Finalizing(_, _, _) => FinalizeStepKeeps(s, p, ok);
      case Cancelling(_, _) => CancelStepKeeps(s, p);
      case Closing(_, _) => CloseStepKeeps(s, p);
      case Dropping(_) => DropStepKeeps(s, p);
      case Completing(_) => CompleteStepKeeps(s, p);
    }
  }
}

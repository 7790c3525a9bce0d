/**
 Who holds a reference to what, and the invariant: every object's count is the number of its
 holders, and it is destroyed exactly when that number reaches zero.
 */
module ExecutiveInv {
  import opened Option
  import opened Executive
  import H = Handles

  // ---------------------------------------------------------------- holders

  function One(o: Obj, x: Obj): nat { if o == x then 1 else 0 }

  function Sum<T>(xs: seq<T>, held: (T, Obj) -> nat, o: Obj): nat {
    if xs == [] then 0 else held(xs[0], o) + Sum(xs[1..], held, o)
  }

  function SlotHeld(slot: Slot, o: Obj): nat {
    if slot.obj.Some? then One(o, slot.obj.value) else 0
  }

  function NextHeld(p: nat, next: Next, o: Obj): nat {
    match next
    case DropProcess => One(o, Proc(p))
    case DropThread(t) => One(o, Thread(t))
    case Finish(t, _) => One(o, Thread(t))
  }

  // The references in the hands of the call at work on process p: the owner reference of the process
  // or of its thread, and those it retained.
  function PhaseHeld(p: nat, phase: Phase, o: Obj): nat {
    match phase
    case Creating(_) => One(o, Proc(p))
    case Owned => One(o, Proc(p))
    case Threading(t, done, _) => One(o, Thread(t)) + if done == 0 then One(o, Proc(p)) else 0
    case Unstarted(t) => One(o, Thread(t))
    case Running(t) => One(o, Thread(t))
    case InCall(t, x) => One(o, Thread(t)) + One(o, x)
    case Exited(t) => One(o, Thread(t))
    case Finalizing(t, _, _) => One(o, Thread(t))
    case Cancelling(t, _) => One(o, Thread(t))
    case Closing(_, next) => One(o, Proc(p)) + NextHeld(p, next, o)
    case Dropping(next) => NextHeld(p, next, o)
    case Completing(_) => 0
    case Gone => 0
  }

  function LifeHeld(p: nat, life: Life, o: Obj): nat {
    PhaseHeld(p, life.phase, o) + Sum(life.slots, SlotHeld, o) + if life.retained then One(o, Proc(p)) else 0
  }

  // A process holds its stdout service until it is destroyed.
  function ProcHeld(proc: Process, o: Obj): nat {
    LifeHeld(proc.pid, proc.life, o) + if proc.obj.destroyed == 0 then One(o, Stdout(proc.pid)) else 0
  }

  function ThreadHeld(thread: ThreadObj, o: Obj): nat {
    if thread.process.Some? then One(o, Proc(thread.process.value)) else 0
  }

  function WaiterHeld(waiter: Waiter, o: Obj): nat {
    if waiter.Left? then 0 else if waiter.Consumed? then 2 * One(o, Proc(waiter.p)) else One(o, Proc(waiter.p))
  }

  function Held(s: State, o: Obj): nat {
    Sum(s.procs, ProcHeld, o) + Sum(s.threads, ThreadHeld, o) + Sum(s.waiters, WaiterHeld, o)
  }

  lemma {:induction false} SumUpdate<T>(xs: seq<T>, held: (T, Obj) -> nat, o: Obj, i: nat, x: T)
    requires i < |xs|
    ensures Sum(xs[i := x], held, o) + held(xs[i], o) == Sum(xs, held, o) + held(x, o)
    ensures held(xs[i], o) <= Sum(xs, held, o)
  {
    if i == 0 {
      assert xs[i := x][1..] == xs[1..];
    } else {
      assert xs[i := x][1..] == xs[1..][i - 1 := x];
      SumUpdate(xs[1..], held, o, i - 1, x);
    }
  }

  lemma {:induction false} SumAppend<T>(xs: seq<T>, held: (T, Obj) -> nat, o: Obj, x: T)
    ensures Sum(xs + [x], held, o) == Sum(xs, held, o) + held(x, o)
  {
    if xs == [] {
      assert (xs + [x])[1..] == [];
    } else {
      assert (xs + [x])[1..] == xs[1..] + [x];
      SumAppend(xs[1..], held, o, x);
    }
  }

  lemma {:induction false} SumZero<T>(xs: seq<T>, held: (T, Obj) -> nat, o: Obj)
    requires forall i :: 0 <= i < |xs| ==> held(xs[i], o) == 0
    ensures Sum(xs, held, o) == 0
  {
    if xs != [] { SumZero(xs[1..], held, o); }
  }

  // If only element i holds o, it holds all there is.
  lemma {:induction false} SumOnly<T>(xs: seq<T>, held: (T, Obj) -> nat, o: Obj, i: nat)
    requires i < |xs| && forall j :: 0 <= j < |xs| && j != i ==> held(xs[j], o) == 0
    ensures Sum(xs, held, o) == held(xs[i], o)
  {
    if i == 0 {
      SumZero(xs[1..], held, o);
    } else {
      SumOnly(xs[1..], held, o, i - 1);
    }
  }

  // ---------------------------------------------------------------- the protocol's side of the invariant

  datatype Kind = Private | Public | Marked | Over

  // Where a process stands towards the process table and its completion reference.
  function KindOf(phase: Phase): Kind {
    match phase
    case Creating(_) => Private
    case Owned => Private
    case Threading(_, _, _) => Private
    case Unstarted(_) => Public
    case Running(_) => Public
    case InCall(_, _) => Public
    case Exited(_) => Public
    case Finalizing(_, done, _) => if done == 0 then Public else Marked
    case Cancelling(_, done) => if done < 3 then Public else Private
    case Closing(_, next) => if next.Finish? then Marked else Private
    case Dropping(next) => if next.Finish? then Marked else Private
    case Completing(_) => Marked
    case Gone => Over
  }

  predicate HasStarted(phase: Phase) {
    match phase
    case Running(_) => true
    case InCall(_, _) => true
    case Exited(_) => true
    case Finalizing(_, _, _) => true
    case Closing(_, next) => next.Finish?
    case Dropping(next) => next.Finish?
    case Completing(_) => true
    case _ => false
  }

  function NextThread(next: Next): Option<nat> {
    if next.DropProcess? then None else Some(next.t)
  }

  // The thread whose owner reference the call holds.
  function PhaseThread(phase: Phase): Option<nat> {
    match phase
    case Threading(t, _, _) => Some(t)
    case Unstarted(t) => Some(t)
    case Running(t) => Some(t)
    case InCall(t, _) => Some(t)
    case Exited(t) => Some(t)
    case Finalizing(t, _, _) => Some(t)
    case Cancelling(t, _) => Some(t)
    case Closing(_, next) => NextThread(next)
    case Dropping(next) => NextThread(next)
    case _ => None
  }

  predicate ThreadListed(phase: Phase) {
    match phase
    case Unstarted(_) => true
    case Running(_) => true
    case InCall(_, _) => true
    case Exited(_) => true
    case Finalizing(_, done, _) => done < 4
    case Cancelling(_, done) => done < 2
    case _ => false
  }

  // Slots before this one are free.
  function ClosedBelow(phase: Phase): nat {
    match phase
    case Creating(done) => if done <= 3 then H.SLOTS else 0
    case Closing(i, _) => i
    case Dropping(_) => H.SLOTS
    case Completing(_) => H.SLOTS
    case Gone => H.SLOTS
    case _ => 0
  }

  predicate InBounds(phase: Phase) {
    match phase
    case Creating(done) => done <= 5
    case Threading(_, done, slot) => done <= 3 && (done >= 2 ==> slot < H.SLOTS)
    case Finalizing(_, done, _) => done <= 4
    case Cancelling(_, done) => done <= 3
    case Closing(i, _) => i <= H.SLOTS
    case _ => true
  }

  // A process's handles, and the objects its calls resolve, are its own; all its handles may be closed.
  predicate OwnObject(s: State, p: nat, o: Obj) {
    match o
    case Proc(q) => q == p
    case Stdout(q) => q == p
    case Thread(t) => t < |s.threads| && s.threads[t].owner == p
  }

  predicate SlotOk(s: State, p: nat, slot: Slot) {
    slot.obj.Some? ==> OwnObject(s, p, slot.obj.value) && H.CloseRight in slot.rights
  }

  predicate CompletionOk(listed: bool, life: Life) {
    match KindOf(life.phase)
    case Private => !listed && life.taken == 0 && !life.retained && !life.signaled && life.consumer == None
    case Public => listed && life.taken == 0 && !life.retained && !life.signaled && life.consumer == None
    case Marked =>
      && listed && life.taken == 1 && life.retained && !life.signaled && life.consumer == None
      && life.state == Terminated
    case Over =>
      if life.taken == 0 then !listed && !life.retained && !life.signaled && life.consumer == None && !life.started
      else
        && life.taken == 1 && life.state == Terminated && life.started && (listed <==> life.retained)
        && (life.retained <==> life.consumer == None) && (life.consumer != None ==> life.signaled)
  }

  predicate SlotsOk(s: State, p: nat, life: Life) {
    && |life.slots| == H.SLOTS
    && (forall i {:trigger life.slots[i]} :: 0 <= i < H.SLOTS ==> SlotOk(s, p, life.slots[i]))
    && (forall i {:trigger life.slots[i]} :: 0 <= i < ClosedBelow(life.phase) && i < H.SLOTS ==>
          life.slots[i].obj.None?)
    && (life.phase.Threading? && life.phase.done >= 2 && life.phase.slot < H.SLOTS ==>
          life.slots[life.phase.slot].obj == Some(Thread(life.phase.t)))
  }

  predicate LinkOk(s: State, p: nat, phase: Phase) {
    match PhaseThread(phase)
    case None => true
    case Some(t) =>
      && t < |s.threads| && s.threads[t].owner == p
      && s.threads[t].process == (if phase.Threading? && phase.done == 0 then None else Some(p))
      && (t in s.threadTable <==> ThreadListed(phase))
  }

  predicate LifeOk(s: State, p: nat)
    requires p < |s.procs|
  {
    var life := s.procs[p].life;
    && s.procs[p].pid == p && InBounds(life.phase)
    && CompletionOk(p in s.processTable, life) && (life.phase != Gone ==> (life.started <==> HasStarted(life.phase)))
    && SlotsOk(s, p, life) && LinkOk(s, p, life.phase)
    && (life.phase.InCall? ==> OwnObject(s, p, life.phase.o))
  }

  predicate ThreadOk(s: State, t: nat)
    requires t < |s.threads|
  {
    && s.threads[t].owner < |s.procs|
    && (s.threads[t].process.Some? ==> s.threads[t].process.value == s.threads[t].owner)
    && (t in s.threadTable ==> PhaseThread(s.procs[s.threads[t].owner].life.phase) == Some(t))
  }

  // A wait or kill that has consumed its process, whether or not it has left.
  predicate HasConsumed(waiter: Waiter) {
    waiter.Consumed? || (waiter.Leaving? && waiter.won) || (waiter.Left? && waiter.won)
  }

  predicate WaiterOk(s: State, w: nat)
    requires w < |s.waiters|
  {
    var waiter := s.waiters[w];
    && waiter.p < |s.procs|
    && (HasConsumed(waiter) ==> s.procs[waiter.p].life.consumer == Some(w))
  }

  // ---------------------------------------------------------------- the invariant

  // `loose` are references taken from their holders and not yet released.
  ghost predicate Balanced(s: State, loose: multiset<Obj>, o: Obj) {
    Refs(s, o) == Held(s, o) + loose[o]
  }

  predicate CountOk(c: Counted) {
    c.destroyed == if c.refs == 0 then 1 else 0
  }

  // A destroyed thread no longer points at its process.
  predicate ThreadCountOk(thread: ThreadObj) {
    CountOk(thread.obj) && (thread.obj.refs == 0 ==> thread.process == None)
  }

  predicate ProcCountOk(proc: Process) {
    CountOk(proc.obj) && CountOk(proc.stdout)
  }

  ghost predicate AllBalanced(s: State, loose: multiset<Obj>) {
    forall o {:trigger Balanced(s, loose, o)} :: Balanced(s, loose, o)
  }

  // Everything but the balance.
  ghost predicate StateOk(s: State) {
    && (forall p {:trigger LifeOk(s, p)} :: 0 <= p < |s.procs| ==> LifeOk(s, p))
    && (forall p {:trigger ProcCountOk(s.procs[p])} :: 0 <= p < |s.procs| ==> ProcCountOk(s.procs[p]))
    && (forall t {:trigger ThreadOk(s, t)} :: 0 <= t < |s.threads| ==> ThreadOk(s, t))
    && (forall t {:trigger ThreadCountOk(s.threads[t])} :: 0 <= t < |s.threads| ==> ThreadCountOk(s.threads[t]))
    && (forall w {:trigger WaiterOk(s, w)} :: 0 <= w < |s.waiters| ==> WaiterOk(s, w))
    && (forall p :: p in s.processTable ==> p < |s.procs|) && (forall t :: t in s.threadTable ==> t < |s.threads|)
  }

  ghost predicate Inv(s: State, loose: multiset<Obj>) {
    AllBalanced(s, loose) && StateOk(s)
  }

  // ---------------------------------------------------------------- what the counts say

  // Every process that a call is at work on is referenced.
  lemma ActiveHeld(s: State, p: nat)
    requires p < |s.procs| && LifeOk(s, p) && s.procs[p].life.phase != Gone
    ensures Held(s, Proc(p)) >= 1
  {
    var proc, o := s.procs[p], Proc(p);
    SumUpdate(s.procs, ProcHeld, o, p, proc);
    match PhaseThread(proc.life.phase) {
      case Some(t) => SumUpdate(s.threads, ThreadHeld, o, t, s.threads[t]);
      case None =>
    }
  }

  // Only the process itself and its own handles and calls hold its stdout service.
  lemma StdoutHeld(s: State, p: nat)
    requires p < |s.procs| && s.procs[p].life.phase == Gone
    requires forall q :: 0 <= q < |s.procs| ==> LifeOk(s, q)
    ensures Held(s, Stdout(p)) == if s.procs[p].obj.destroyed == 0 then 1 else 0
  {
    var o := Stdout(p);
    forall q | 0 <= q < |s.procs|
      ensures q != p ==> ProcHeld(s.procs[q], o) == 0
      ensures q == p ==> ProcHeld(s.procs[q], o) == if s.procs[p].obj.destroyed == 0 then 1 else 0
    {
      var life := s.procs[q].life;
      assert LifeOk(s, q);
      forall i | 0 <= i < |life.slots| ensures SlotHeld(life.slots[i], o) == 0 {
        assert SlotOk(s, q, life.slots[i]);
      }
      SumZero(life.slots, SlotHeld, o);
    }
    SumOnly(s.procs, ProcHeld, o, p);
    SumZero(s.threads, ThreadHeld, o);
    SumZero(s.waiters, WaiterHeld, o);
  }
}

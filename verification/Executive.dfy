/**
 Executive objects as a state machine: reference counts, handle slots, the process and thread
 tables, and the protocol create, start, terminate, finalize, wait.  Every retain, release and
 critical section is a step of its own; a process carries the call that is at work on it.
 */
module Executive {
  import opened Option
  import H = Handles

  const TABLE_SIZE: nat := 8

  const PROCESS_RIGHTS := {H.Query, H.CloseRight, H.ProcessSelf}
  const THREAD_RIGHTS := {H.Query, H.CloseRight, H.ThreadSelf}
  const STDOUT_RIGHTS := {H.Write, H.CloseRight}
  const WAIT_RIGHTS := {H.WaitRight, H.CloseRight}

  // Objects: a process, a thread, and the stdout service embedded in a process.
  datatype Obj = Proc(p: nat) | Thread(t: nat) | Stdout(p: nat)

  // EX_OBJECT_HEADER: the reference count, and how often the destroy routine has freed the object.
  datatype Counted = Counted(refs: nat, destroyed: nat)

  type Slot = H.Slot<Obj>

  datatype Reason = NoReason | ExitReason | KillReason | FaultReason

  datatype RunState = Created | Ready | Terminated

  // What the owner reference is still needed for once the handle table is closed.
  datatype Next =
    | DropProcess                         // ExRuntimeDestroyProcess, or a failed ExRuntimeCreateProcess
    | DropThread(t: nat)                  // ExRuntimeTeardownThread
    | Finish(t: nat, clean: bool)         // ExUserRuntimeFinalizeThread

  // The call that owns the process, and how far it has come.
  datatype Phase =
    | Creating(done: nat)                        // ExRuntimeCreateProcess
    | Owned                                      // its caller has the process
    | Threading(t: nat, done: nat, slot: nat)    // ExRuntimeCreateThread; slot is the thread's own handle
    | Unstarted(t: nat)                          // its caller has the thread
    | Running(t: nat)
    | InCall(t: nat, o: Obj)                     // a system call of the thread holds a resolved object
    | Exited(t: nat)
    | Finalizing(t: nat, done: nat, clean: bool) // ExUserRuntimeFinalizeThread
    | Cancelling(t: nat, done: nat)              // ExRuntimeTeardownThread
    | Closing(i: nat, next: Next)                // KiHandleCloseAll, at slot i
    | Dropping(next: Next)
    | Completing(clean: bool)                    // about to signal completion
    | Gone

  datatype Life = Life(
    phase: Phase, slots: seq<Slot>, parent: nat, staged: bool, state: RunState, started: bool,
    reason: Reason, exitStatus: nat, killRequested: bool,
    retained: bool, taken: nat, signaled: bool, consumer: Option<nat>)

  datatype Process = Process(pid: nat, obj: Counted, stdout: Counted, life: Life)

  // `owner` is the process the thread was made for, `process` the counted pointer to it.
  datatype ThreadObj = ThreadObj(obj: Counted, owner: nat, process: Option<nat>)

  // ExWaitProcess and ExKillProcess on process p, called from process `caller`.
  datatype Waiter =
    | Killing(p: nat, caller: nat) | Waiting(p: nat, caller: nat) | Woken(p: nat, caller: nat)
    | Consumed(p: nat, caller: nat)   // has the completion reference and its own
    | Leaving(p: nat, caller: nat, won: bool) | Left(p: nat, caller: nat, won: bool)

  datatype State = State(
    procs: seq<Process>, threads: seq<ThreadObj>, waiters: seq<Waiter>,
    processTable: set<nat>, threadTable: set<nat>)

  // ---------------------------------------------------------------- retain and release

  function Refs(s: State, o: Obj): nat {
    match o
    case Proc(p) => if p < |s.procs| then s.procs[p].obj.refs else 0
    case Thread(t) => if t < |s.threads| then s.threads[t].obj.refs else 0
    case Stdout(p) => if p < |s.procs| then s.procs[p].stdout.refs else 0
  }

  function More(c: Counted): Counted { c.(refs := c.refs + 1) }

  function Less(c: Counted): Counted
    requires c.refs > 0
  {
    if c.refs == 1 then Counted(0, c.destroyed + 1) else c.(refs := c.refs - 1)
  }

  // ExObjectRetain.
  function Retain(s: State, o: Obj): (r: State)
    ensures |r.procs| == |s.procs| && |r.threads| == |s.threads|
    ensures forall p :: 0 <= p < |s.procs| ==> r.procs[p].life == s.procs[p].life
  {
    if Refs(s, o) == 0 then s else
    match o
    case Proc(p) => s.(procs := s.procs[p := s.procs[p].(obj := More(s.procs[p].obj))])
    case Thread(t) => s.(threads := s.threads[t := s.threads[t].(obj := More(s.threads[t].obj))])
    case Stdout(p) => s.(procs := s.procs[p := s.procs[p].(stdout := More(s.procs[p].stdout))])
  }

  function ReleaseStdout(s: State, p: nat): State
    requires p < |s.procs|
  {
    if s.procs[p].stdout.refs == 0 then s
    else s.(procs := s.procs[p := s.procs[p].(stdout := Less(s.procs[p].stdout))])
  }

  // ExRuntimeReleaseProcess; KiDestroyProcessObject frees the process only when its stdout service goes with it.
  function ReleaseProcess(s: State, p: nat): State
    requires p < |s.procs|
  {
    var proc := s.procs[p];
    if proc.obj.refs == 0 then s
    else if proc.obj.refs > 1 then s.(procs := s.procs[p := proc.(obj := Less(proc.obj))])
    else
      var s1 := ReleaseStdout(s, p);
      if s1.procs[p].stdout.refs == 0 then s1.(procs := s1.procs[p := s1.procs[p].(obj := Less(proc.obj))])
      else s1.(procs := s1.procs[p := s1.procs[p].(obj := proc.obj.(refs := 0))])
  }

  // ExRuntimeReleaseThread; KiDestroyThreadObject passes the release on to the process it points at.
  function ReleaseThread(s: State, t: nat): State
    requires t < |s.threads|
  {
    var thread := s.threads[t];
    if thread.obj.refs == 0 then s
    else if thread.obj.refs > 1 then s.(threads := s.threads[t := thread.(obj := Less(thread.obj))])
    else
      var s1 := s.(threads := s.threads[t := thread.(obj := Less(thread.obj), process := None)]);
      if thread.process.Some? && thread.process.value < |s.procs| then ReleaseProcess(s1, thread.process.value) else s1
  }

  function Release(s: State, o: Obj): State {
    match o
    case Proc(p) => if p < |s.procs| then ReleaseProcess(s, p) else s
    case Thread(t) => if t < |s.threads| then ReleaseThread(s, t) else s
    case Stdout(p) => if p < |s.procs| then ReleaseStdout(s, p) else s
  }

  // ---------------------------------------------------------------- pieces of the calls

  function WithLife(s: State, p: nat, life: Life): State
    requires p < |s.procs|
  {
    s.(procs := s.procs[p := s.procs[p].(life := life)])
  }

  function WithPhase(s: State, p: nat, phase: Phase): State
    requires p < |s.procs|
  {
    WithLife(s, p, s.procs[p].life.(phase := phase))
  }

  function WithPointer(s: State, t: nat, process: Option<nat>): State
    requires t < |s.threads|
  {
    s.(threads := s.threads[t := s.threads[t].(process := process)])
  }

  // ExHandleInsert with success: a slot and a reference.
  function Inserted(s: State, p: nat, k: nat, o: Obj, rights: set<H.Right>, phase: Phase): State
    requires p < |s.procs| && k < |s.procs[p].life.slots|
  {
    var life := s.procs[p].life;
    WithLife(Retain(s, o), p, life.(slots := life.slots[k := H.Taken(life.slots[k], o, rights)], phase := phase))
  }

  predicate CanInsert(s: State, p: nat, o: Obj)
    requires p < |s.procs|
  {
    H.FirstFree(s.procs[p].life.slots) < |s.procs[p].life.slots| && Refs(s, o) > 0
  }

  // ExRuntimeIsPublishedObject.
  predicate Published(s: State, o: Obj) {
    match o
    case Proc(p) => p in s.processTable
    case Thread(t) => t in s.threadTable
    case Stdout(_) => false
  }

  // KiValidateCloseHandleSlot; a free slot is passed over.
  predicate MayClose(s: State, slot: Slot, allowPublished: bool) {
    slot.obj.Some? ==> H.MayClose(slot, Published(s, slot.obj.value), allowPublished)
  }

  predicate MayCloseAll(s: State, p: nat, allowPublished: bool)
    requires p < |s.procs|
  {
    forall i :: 0 <= i < |s.procs[p].life.slots| ==> MayClose(s, s.procs[p].life.slots[i], allowPublished)
  }

  // The start of KiHandleCloseAll: retain the owner, then close slot by slot, unless a slot may not be closed.
  function BeginCloseAll(s: State, p: nat, next: Next, allowPublished: bool): State
    requires p < |s.procs|
  {
    if MayCloseAll(s, p, allowPublished) then WithPhase(Retain(s, Proc(p)), p, Closing(0, next))
    else WithPhase(s, p, Dropping(next))
  }

  // KiClearHandleSlot on a used slot; the close loops pass free slots over.
  function Cleared(life: Life, i: nat): Life
    requires i < |life.slots|
  {
    if life.slots[i].obj.None? then life else life.(slots := life.slots[i := H.Cleared(life.slots[i])])
  }

  // The failure path of ExRuntimeCreateThread after the thread is attached.
  function FailThread(s: State, p: nat, t: nat, inTable: bool, slot: nat): State
    requires p < |s.procs| && t < |s.threads|
  {
    var s1 := if inTable && slot < |s.procs[p].life.slots|
              then Release(WithLife(s, p, Cleared(s.procs[p].life, slot).(phase := Threading(t, 1, 0))), Thread(t))
              else WithPhase(s, p, Threading(t, 1, 0));
    if p < |s1.procs| && t < |s1.threads|
    then Release(WithPhase(WithPointer(s1, t, None), p, Owned), Thread(t)) else s1
  }

  // ---------------------------------------------------------------- steps

  datatype Step =
    | Create(parent: nat)
    | Go(p: nat, ok: bool)         // the call at work on p goes on; ok answers for memory, staging and the scheduler
    | BeginThread(p: nat)
    | DestroyProcess(p: nat)
    | Start(p: nat)
    | Cancel(p: nat)
    | Resolve(p: nat, i: nat)
    | CloseHandle(p: nat, i: nat)
    | Mark(p: nat, reason: Reason, status: nat)
    | Exit(p: nat)
    | BeginWait(p: nat, parent: nat, kill: bool)
    | WaitOn(w: nat, ok: bool)

  predicate Enabled(s: State, step: Step) {
    match step
    case Create(_) => true
    case Go(p, ok) =>
      && p < |s.procs|
      && var phase := s.procs[p].life.phase;
         !phase.Owned? && !phase.Unstarted? && !phase.Running? && !phase.Gone?
    case BeginThread(p) => p < |s.procs| && s.procs[p].life.phase.Owned? && s.procs[p].life.staged
    case DestroyProcess(p) => p < |s.procs| && s.procs[p].life.phase.Owned?
    case Start(p) => p < |s.procs| && s.procs[p].life.phase.Unstarted?
    case Cancel(p) => p < |s.procs| && s.procs[p].life.phase.Unstarted?
    case Resolve(p, i) => p < |s.procs| && s.procs[p].life.phase.Running? && i < |s.procs[p].life.slots|
    case CloseHandle(p, i) => p < |s.procs| && s.procs[p].life.phase.Running? && i < |s.procs[p].life.slots|
    case Mark(p, reason, _) => p < |s.procs| && s.procs[p].life.phase.Running? && reason != NoReason
    case Exit(p) => p < |s.procs| && s.procs[p].life.phase.Running?
    case BeginWait(p, parent, kill) => true
    case WaitOn(w, ok) =>
      && w < |s.waiters| && !s.waiters[w].Left? && s.waiters[w].p < |s.procs|
      && (s.waiters[w].Waiting? && ok ==> s.procs[s.waiters[w].p].life.signaled)
  }

  // ExRuntimeMarkProcessTerminated.
  function MarkTerminated(s: State, p: nat, phase: Phase): State
    requires p < |s.procs|
  {
    var life := s.procs[p].life;
    var ended := life.(phase := phase, state := Terminated,
                       reason := if life.reason == NoReason then ExitReason else life.reason,
                       exitStatus := if life.reason == NoReason then 0 else life.exitStatus);
    if life.retained || Refs(s, Proc(p)) == 0 then WithLife(s, p, ended)
    else WithLife(Retain(s, Proc(p)), p, ended.(retained := true, taken := life.taken + 1))
  }

  // The rights of the three handles every process starts with.
  function FirstRights(done: nat): set<H.Right> {
    if done == 3 then PROCESS_RIGHTS else if done == 4 then STDOUT_RIGHTS else WAIT_RIGHTS
  }

  function CreateStep(s: State, p: nat, done: nat, ok: bool): State
    requires p < |s.procs|
  {
    var life := s.procs[p].life;
    if done < 3 then
      if !ok then WithPhase(s, p, Dropping(DropProcess))
      else WithLife(s, p, life.(phase := Creating(done + 1), staged := done == 2))
    else
      var o := if done == 4 then Stdout(p) else Proc(p);
      if CanInsert(s, p, o)
      then Inserted(s, p, H.FirstFree(life.slots), o, FirstRights(done), if done < 5 then Creating(done + 1) else Owned)
      else BeginCloseAll(WithLife(s, p, life.(staged := false)), p, DropProcess, false)
  }

  function ThreadStep(s: State, p: nat, t: nat, done: nat, slot: nat, ok: bool): State
    requires p < |s.procs| && t < |s.threads|
  {
    if done == 0 then
      if ok then WithPhase(WithPointer(s, t, Some(p)), p, Threading(t, 1, 0))
      else Release(WithPhase(s, p, Owned), Thread(t))
    else if done == 1 then
      var k := H.FirstFree(s.procs[p].life.slots);
      if CanInsert(s, p, Thread(t)) then Inserted(s, p, k, Thread(t), THREAD_RIGHTS, Threading(t, 2, k))
      else FailThread(s, p, t, false, 0)
    else if done == 2 then
      if ok then WithPhase(s, p, Threading(t, 3, slot)) else FailThread(s, p, t, true, slot)
    else if || p in s.processTable || t in s.threadTable
            || |s.processTable| >= TABLE_SIZE || |s.threadTable| >= TABLE_SIZE then
      FailThread(s, p, t, true, slot)
    else
      WithPhase(s, p, Unstarted(t)).(processTable := s.processTable + {p}, threadTable := s.threadTable + {t})
  }

  function FinalizeStep(s: State, p: nat, t: nat, done: nat, clean: bool, ok: bool): State
    requires p < |s.procs| && t < |s.threads|
  {
    if done == 0 then MarkTerminated(s, p, Finalizing(t, 1, clean))
    else if done == 1 then WithPhase(s, p, Finalizing(t, 2, clean))  // ExRuntimeSignalThreadCompletion
    else if done == 2 then
      WithLife(s, p, s.procs[p].life.(phase := Finalizing(t, 3, ok), staged := false))
    else if done == 3 then WithPhase(s, p, Finalizing(t, 4, clean)).(threadTable := s.threadTable - {t})
    else BeginCloseAll(s, p, Finish(t, clean), true)
  }

  function CancelStep(s: State, p: nat, t: nat, done: nat): State
    requires p < |s.procs|
  {
    if done == 0 then
      WithLife(s, p, s.procs[p].life.(phase := Cancelling(t, 1), staged := false, state := Terminated))
    else if done == 1 then WithPhase(s, p, Cancelling(t, 2)).(threadTable := s.threadTable - {t})
    else if done == 2 then WithPhase(s, p, Cancelling(t, 3)).(processTable := s.processTable - {p})
    else BeginCloseAll(s, p, DropThread(t), false)
  }

  function CloseStep(s: State, p: nat, i: nat, next: Next): State
    requires p < |s.procs|
  {
    var life := s.procs[p].life;
    if i >= |life.slots| then Release(WithPhase(s, p, Dropping(next)), Proc(p))
    else
      var s1 := WithLife(s, p, Cleared(life, i).(phase := Closing(i + 1, next)));
      if life.slots[i].obj.Some? then Release(s1, life.slots[i].obj.value) else s1
  }

  function DropStep(s: State, p: nat, next: Next): State
    requires p < |s.procs|
  {
    match next
    case DropProcess => Release(WithPhase(s, p, Gone), Proc(p))
    case DropThread(t) => Release(WithPhase(s, p, Gone), Thread(t))
    case Finish(t, clean) => Release(WithPhase(s, p, Completing(clean)), Thread(t))
  }

  // ExRuntimeSignalProcessCompletion, reached only when everything before it succeeded.
  function CompleteStep(s: State, p: nat, clean: bool): State
    requires p < |s.procs|
  {
    var life := s.procs[p].life;
    if clean && life.state == Terminated && life.retained then WithLife(s, p, life.(phase := Gone, signaled := true))
    else WithPhase(s, p, Gone)
  }

  function GoStep(s: State, p: nat, ok: bool): State
    requires Enabled(s, Go(p, ok))
  {
    match s.procs[p].life.phase
    case Creating(done) => CreateStep(s, p, done, ok)
    case Threading(t, done, slot) => if t < |s.threads| then ThreadStep(s, p, t, done, slot, ok) else s
    case InCall(t, o) => Release(WithPhase(s, p, Running(t)), o)
    case Exited(t) => WithPhase(s, p, Finalizing(t, 0, true))
    case Finalizing(t, done, clean) => if t < |s.threads| then FinalizeStep(s, p, t, done, clean, ok) else s
    case Cancelling(t, done) => CancelStep(s, p, t, done)
    case Closing(i, next) => CloseStep(s, p, i, next)
    case Dropping(next) => DropStep(s, p, next)
    case Completing(clean) => CompleteStep(s, p, clean)
    case _ => s
  }

  // ExRuntimeConsumeCompletedProcess.
  predicate CanConsume(s: State, p: nat)
    requires p < |s.procs|
  {
    var life := s.procs[p].life;
    life.state == Terminated && life.signaled && life.retained && p in s.processTable
  }

  function WithWaiter(s: State, w: nat, waiter: Waiter): State
    requires w < |s.waiters|
  {
    s.(waiters := s.waiters[w := waiter])
  }

  function WaitStep(s: State, w: nat, ok: bool): State
    requires Enabled(s, WaitOn(w, ok))
  {
    var p, caller := s.waiters[w].p, s.waiters[w].caller;
    var life := s.procs[p].life;
    match s.waiters[w]
    case Killing(_, _) =>
      if life.killRequested then WithWaiter(s, w, Leaving(p, caller, false))
      else WithWaiter(WithLife(s, p, life.(killRequested := true)), w, Waiting(p, caller))
    case Waiting(_, _) => WithWaiter(s, w, if ok then Woken(p, caller) else Leaving(p, caller, false))
    case Woken(_, _) =>
      if CanConsume(s, p)
      then WithWaiter(WithLife(s, p, life.(retained := false, consumer := Some(w))), w, Consumed(p, caller))
           .(processTable := s.processTable - {p})
      else WithWaiter(s, w, Leaving(p, caller, false))
    case Consumed(_, _) => Release(WithWaiter(s, w, Leaving(p, caller, true)), Proc(p))
    case Leaving(_, _, won) => Release(WithWaiter(s, w, Left(p, caller, won)), Proc(p))
    case Left(_, _, _) => s
  }

  function NewProcess(pid: nat, parent: nat): Process {
    Process(pid, Counted(1, 0), Counted(1, 0),
            Life(Creating(0), seq(H.SLOTS, _ => H.NewSlot()), parent, false, Created, false,
                 NoReason, 0, false, false, 0, false, None))
  }

  function Apply(s: State, step: Step): State
    requires Enabled(s, step)
  {
    match step
    case Create(parent) => s.(procs := s.procs + [NewProcess(|s.procs|, parent)])
    case Go(p, ok) => GoStep(s, p, ok)
    case BeginThread(p) =>
      WithPhase(s, p, Threading(|s.threads|, 0, 0)).(threads := s.threads + [ThreadObj(Counted(1, 0), p, None)])
    case DestroyProcess(p) =>
      if p in s.processTable then s
      else BeginCloseAll(WithLife(s, p, s.procs[p].life.(staged := false)), p, DropProcess, false)
    case Start(p) =>
      WithLife(s, p, s.procs[p].life.(phase := Running(s.procs[p].life.phase.t), started := true, state := Ready))
    case Cancel(p) => WithPhase(s, p, Cancelling(s.procs[p].life.phase.t, 0))
    case Resolve(p, i) =>
      var slot := s.procs[p].life.slots[i];
      if slot.obj.None? || Refs(s, slot.obj.value) == 0 then s
      else WithPhase(Retain(s, slot.obj.value), p, InCall(s.procs[p].life.phase.t, slot.obj.value))
    case CloseHandle(p, i) =>
      var slot := s.procs[p].life.slots[i];
      if slot.obj.None? || !MayClose(s, slot, false) then s
      else Release(WithLife(s, p, Cleared(s.procs[p].life, i)), slot.obj.value)
    case Mark(p, reason, status) =>
      if s.procs[p].life.reason != NoReason then s
      else WithLife(s, p, s.procs[p].life.(reason := reason, exitStatus := status))
    case Exit(p) => WithPhase(s, p, Exited(s.procs[p].life.phase.t))
    case BeginWait(p, parent, kill) =>
      if p < |s.procs| && p in s.processTable && s.procs[p].life.parent == parent && Refs(s, Proc(p)) > 0
      then Retain(s, Proc(p)).(waiters := s.waiters + [if kill then Killing(p, parent) else Waiting(p, parent)])
      else s
    case WaitOn(w, ok) => WaitStep(s, w, ok)
  }
}

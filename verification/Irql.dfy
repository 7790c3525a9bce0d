/**
 IRQL guards, critical sections and interrupt entry on one processor (ke/irql.c,
 ke/critical_section.c).  The code keeps only depths and levels; `frames` is the stack of what
 was entered and not yet left, and every call is stated against that stack.
 */
module Irql {
  const DEPTH_LIMIT: nat := 0xFFFF_FFFF

  datatype Level = Passive | Dispatch

  // A guard of its own, or the one inside a critical section object.
  datatype GuardId = Plain(n: nat) | InSection(n: nat)

  datatype Guard = Guard(
    active: bool, transitioned: bool, savedOn: bool, previous: Level, target: Level, enterDepth: nat)

  datatype Section = Section(active: bool, enterDepth: nat)

  datatype Frame = Held(id: GuardId) | Interrupt

  const IDLE_GUARD := Guard(false, false, false, Passive, Passive, 0)
  const IDLE_SECTION := Section(false, 0)

  // ---------------------------------------------------------------- the stack discipline

  datatype Event = Acquire(id: GuardId) | Release(id: GuardId) | Arrive | Leave

  // Which calls pass the kernel's assertions: a free guard may be acquired while there is room, the
  // innermost frame may be left, and an interrupt may arrive only at depth 0 with interrupts on.
  predicate Legal(frames: seq<Frame>, on: bool, e: Event) {
    match e
    case Acquire(id) => Held(id) !in frames && |frames| < DEPTH_LIMIT
    case Release(id) => frames != [] && frames[|frames| - 1] == Held(id)
    case Arrive => on && frames == []
    case Leave => frames != [] && frames[|frames| - 1] == Interrupt
  }

  function After(frames: seq<Frame>, e: Event): seq<Frame>
    requires frames == [] ==> e.Acquire? || e.Arrive?
  {
    match e
    case Acquire(id) => frames + [Held(id)]
    case Arrive => frames + [Interrupt]
    case _ => frames[..|frames| - 1]
  }

  // Interrupts are on exactly when nothing is held and they were on at the start.
  function OnNow(frames: seq<Frame>, original: bool): bool {
    original && frames == []
  }

  predicate Legals(frames: seq<Frame>, original: bool, events: seq<Event>)
    decreases |events|
  {
    events == [] ||
    (Legal(frames, OnNow(frames, original), events[0]) && Legals(After(frames, events[0]), original, events[1..]))
  }

  function Run(frames: seq<Frame>, original: bool, events: seq<Event>): seq<Frame>
    requires Legals(frames, original, events)
    decreases |events|
  {
    if events == [] then frames else Run(After(frames, events[0]), original, events[1..])
  }

  predicate Opens(e: Event) { e.Acquire? || e.Arrive? }

  function FrameOf(e: Event): Frame {
    match e
    case Acquire(id) => Held(id)
    case Release(id) => Held(id)
    case _ => Interrupt
  }

  // What is left when every close is cancelled against the nearest open before it; None if some close
  // has no open or another one's.
  function Cancelled(events: seq<Event>): (r: (bool, seq<Frame>))
    ensures events == [] ==> r == (true, [])
  {
    if events == [] then (true, []) else
    var (ok, open) := Cancelled(events[..|events| - 1]);
    var e := events[|events| - 1];
    if Opens(e) then (ok, open + [FrameOf(e)])
    else if open == [] || open[|open| - 1] != FrameOf(e) then (false, open)
    else (ok, open[..|open| - 1])
  }

  lemma {:induction false} RunSplit(frames: seq<Frame>, original: bool, events: seq<Event>, e: Event)
    requires Legals(frames, original, events + [e])
    ensures Legals(frames, original, events)
    ensures Legal(Run(frames, original, events), OnNow(Run(frames, original, events), original), e)
    ensures Run(frames, original, events + [e]) == After(Run(frames, original, events), e)
    decreases |events|
  {
    if events != [] {
      assert (events + [e])[1..] == events[1..] + [e];
      assert (events + [e])[0] == events[0];
      RunSplit(After(frames, events[0]), original, events[1..], e);
    } else {
      assert events + [e] == [e] && [e][1..] == [];
    }
  }

  // Releases are exactly last in, first out: a run passes all assertions only if cancelling closes against
  // opens succeeds, and the frames are the opens left over.
  lemma {:induction false} ReleasesNest(original: bool, events: seq<Event>)
    requires Legals([], original, events)
    ensures Cancelled(events) == (true, Run([], original, events))
    decreases |events|
  {
    if events != [] {
      var init, e := events[..|events| - 1], events[|events| - 1];
      assert events == init + [e];
      RunSplit([], original, init, e);
      ReleasesNest(original, init);
    }
  }

  // Only the outermost frame can be an interrupt, and a guard is held once.
  ghost predicate FramesOk(frames: seq<Frame>, original: bool) {
    && |frames| <= DEPTH_LIMIT
    && (forall i :: 0 < i < |frames| ==> frames[i].Held?)
    && (forall i, j :: 0 <= i < j < |frames| ==> frames[i] != frames[j])
    && (frames != [] && frames[0] == Interrupt ==> original)
  }

  lemma {:induction false} RunOk(frames: seq<Frame>, original: bool, events: seq<Event>)
    requires FramesOk(frames, original) && Legals(frames, original, events)
    ensures FramesOk(Run(frames, original, events), original)
    decreases |events|
  {
    if events != [] {
      RunOk(After(frames, events[0]), original, events[1..]);
    }
  }

  function Interrupts(frames: seq<Frame>): nat {
    if frames != [] && frames[0] == Interrupt then 1 else 0
  }

  predicate IsSection(f: Frame) { f.Held? && f.id.InSection? }

  // Critical sections among the first n frames.
  function Sections(frames: seq<Frame>, n: nat): nat
    requires n <= |frames|
  {
    if n == 0 then 0 else Sections(frames, n - 1) + if IsSection(frames[n - 1]) then 1 else 0
  }

  lemma {:induction false} SectionsSame(frames: seq<Frame>, more: seq<Frame>, n: nat)
    requires n <= |frames| && n <= |more| && forall i :: 0 <= i < n ==> frames[i] == more[i]
    ensures Sections(frames, n) == Sections(more, n) <= n
  {
    if n > 0 { SectionsSame(frames, more, n - 1); }
  }

  // ---------------------------------------------------------------- guards and sections against the stack

  function GuardAt(guards: map<GuardId, Guard>, id: GuardId): Guard {
    if id in guards then guards[id] else IDLE_GUARD
  }

  function SectionAt(sections: map<nat, Section>, n: nat): Section {
    if n in sections then sections[n] else IDLE_SECTION
  }

  // The guard of a frame remembers its depth, and the outermost one the interrupt flag.
  function FrameGuard(i: nat, original: bool): Guard {
    Guard(true, i == 0, i == 0 && original, if i == 0 then Passive else Dispatch, Dispatch, i + 1)
  }

  ghost predicate GuardOk(guards: map<GuardId, Guard>, frames: seq<Frame>, original: bool, i: nat)
    requires i < |frames|
  {
    frames[i].Held? ==> GuardAt(guards, frames[i].id) == FrameGuard(i, original)
  }

  ghost predicate GuardsOk(guards: map<GuardId, Guard>, frames: seq<Frame>, original: bool) {
    && (forall i {:trigger GuardOk(guards, frames, original, i)} :: 0 <= i < |frames| ==>
          GuardOk(guards, frames, original, i))
    && (forall id {:trigger GuardAt(guards, id)} :: GuardAt(guards, id).active ==> Held(id) in frames)
  }

  lemma ActiveIffHeld(guards: map<GuardId, Guard>, frames: seq<Frame>, original: bool, id: GuardId)
    requires GuardsOk(guards, frames, original)
    ensures GuardAt(guards, id).active <==> Held(id) in frames
  {
    if Held(id) in frames {
      var i :| 0 <= i < |frames| && frames[i] == Held(id);
      assert GuardOk(guards, frames, original, i);
    }
  }

  lemma GuardsPush(guards: map<GuardId, Guard>, frames: seq<Frame>, original: bool, id: GuardId)
    requires GuardsOk(guards, frames, original) && Held(id) !in frames
    ensures GuardsOk(guards[id := FrameGuard(|frames|, original)], frames + [Held(id)], original)
  {
    var after := guards[id := FrameGuard(|frames|, original)];
    forall i | 0 <= i < |frames| + 1 ensures GuardOk(after, frames + [Held(id)], original, i) {
      if i < |frames| { assert GuardOk(guards, frames, original, i) && frames[i] in frames; }
    }
    forall x | GuardAt(after, x).active ensures Held(x) in frames + [Held(id)] {
      if x != id { assert GuardAt(guards, x).active; }
    }
  }

  // Popping the innermost frame, with its guard (if any) put to rest.
  lemma GuardsPop(guards: map<GuardId, Guard>, frames: seq<Frame>, original: bool, rest: Guard)
    requires GuardsOk(guards, frames, original) && FramesOk(frames, original) && frames != [] && !rest.active
    ensures var f := frames[|frames| - 1];
            GuardsOk(if f.Held? then guards[f.id := rest] else guards, frames[..|frames| - 1], original)
  {
    var n, f := |frames| - 1, frames[|frames| - 1];
    var after := if f.Held? then guards[f.id := rest] else guards;
    forall i | 0 <= i < n ensures GuardOk(after, frames[..n], original, i) {
      assert GuardOk(guards, frames, original, i) && frames[i] != frames[n];
    }
    forall x | GuardAt(after, x).active ensures Held(x) in frames[..n] {
      assert GuardAt(guards, x).active && Held(x) in frames;
      var i :| 0 <= i < |frames| && frames[i] == Held(x);
      assert i != n;
      assert frames[..n][i] == Held(x);
    }
  }

  ghost predicate SectionOk(sections: map<nat, Section>, frames: seq<Frame>, i: nat)
    requires i < |frames|
  {
    IsSection(frames[i]) ==> SectionAt(sections, frames[i].id.n) == Section(true, Sections(frames, i + 1))
  }

  ghost predicate SectionsOk(sections: map<nat, Section>, depth: nat, frames: seq<Frame>) {
    && depth == Sections(frames, |frames|)
    && (forall i {:trigger SectionOk(sections, frames, i)} :: 0 <= i < |frames| ==> SectionOk(sections, frames, i))
    && (forall n {:trigger SectionAt(sections, n)} :: SectionAt(sections, n).active ==> Held(InSection(n)) in frames)
  }

  lemma SectionsPush(sections: map<nat, Section>, depth: nat, frames: seq<Frame>, f: Frame)
    requires SectionsOk(sections, depth, frames) && (IsSection(f) ==> f !in frames)
    ensures SectionsOk(if IsSection(f) then sections[f.id.n := Section(true, depth + 1)] else sections,
                       if IsSection(f) then depth + 1 else depth, frames + [f])
  {
    var more := frames + [f];
    var after := if IsSection(f) then sections[f.id.n := Section(true, depth + 1)] else sections;
    SectionsSame(frames, more, |frames|);
    forall i | 0 <= i < |more| ensures SectionOk(after, more, i) {
      if i < |frames| {
        assert SectionOk(sections, frames, i) && frames[i] in frames;
        SectionsSame(frames, more, i + 1);
      }
    }
    forall n | SectionAt(after, n).active ensures Held(InSection(n)) in more {
      if SectionAt(after, n) == SectionAt(sections, n) { assert SectionAt(sections, n).active; }
    }
  }

  // Popping the innermost frame, with its section (if any) put to rest.
  function Popped(sections: map<nat, Section>, f: Frame): map<nat, Section> {
    if IsSection(f) then sections[f.id.n := IDLE_SECTION] else sections
  }

  lemma SectionsPop(sections: map<nat, Section>, depth: nat, frames: seq<Frame>, original: bool)
    requires SectionsOk(sections, depth, frames) && FramesOk(frames, original) && frames != []
    ensures var f := frames[|frames| - 1];
            && (IsSection(f) ==> depth > 0 && SectionAt(sections, f.id.n) == Section(true, depth))
            && SectionsOk(Popped(sections, f), Sections(frames, |frames| - 1), frames[..|frames| - 1])
  {
    var n, f := |frames| - 1, frames[|frames| - 1];
    assert SectionOk(sections, frames, n);
    SectionsSame(frames, frames[..n], n);
    forall i | 0 <= i < n ensures SectionOk(Popped(sections, f), frames[..n], i) {
      SectionKept(sections, frames, original, i);
    }
    forall x ensures SectionAt(Popped(sections, f), x).active ==> Held(InSection(x)) in frames[..n] {
      assert SectionAt(sections, x).active ==> Held(InSection(x)) in frames;
      if SectionAt(Popped(sections, f), x).active { StillHeld(frames, Held(InSection(x))); }
    }
  }

  lemma SectionKept(sections: map<nat, Section>, frames: seq<Frame>, original: bool, i: nat)
    requires FramesOk(frames, original) && i + 1 < |frames| && SectionOk(sections, frames, i)
    ensures SectionOk(Popped(sections, frames[|frames| - 1]), frames[..|frames| - 1], i)
  {
    assert frames[i] != frames[|frames| - 1];
    SectionsSame(frames, frames[..|frames| - 1], i + 1);
  }

  lemma StillHeld(frames: seq<Frame>, f: Frame)
    requires f in frames && f != frames[|frames| - 1]
    ensures f in frames[..|frames| - 1]
  {
    var i :| 0 <= i < |frames| && frames[i] == f;
    assert frames[..|frames| - 1][i] == f;
  }

  lemma FramesPush(frames: seq<Frame>, original: bool, f: Frame)
    requires FramesOk(frames, original) && |frames| < DEPTH_LIMIT
    requires if f.Held? then f !in frames else frames == [] && original
    ensures FramesOk(frames + [f], original)
    ensures Interrupts(frames + [f]) == Interrupts(frames) + if f.Held? then 0 else 1
  {}

  lemma FramesPop(frames: seq<Frame>, original: bool)
    requires FramesOk(frames, original) && frames != []
    ensures FramesOk(frames[..|frames| - 1], original)
    ensures Interrupts(frames) == Interrupts(frames[..|frames| - 1]) + if frames[|frames| - 1].Held? then 0 else 1
    ensures frames[|frames| - 1] == Interrupt ==> |frames| == 1
  {}

  // ---------------------------------------------------------------- the code

  class Processor {
    var level: Level
    var dispatchDepth: nat
    var interruptDepth: nat
    var sectionDepth: nat
    var interruptsOn: bool
    var guards: map<GuardId, Guard>
    var sections: map<nat, Section>

    ghost var frames: seq<Frame>
    ghost var original: bool     // the interrupt flag when nothing is held

    ghost predicate Depths()
      reads this
    {
      && FramesOk(frames, original) && dispatchDepth == |frames| && interruptDepth == Interrupts(frames)
      && interruptsOn == OnNow(frames, original) && (level == Passive <==> frames == [])
      && GuardsOk(guards, frames, original)
    }

    ghost predicate Valid()
      reads this
    {
      Depths() && SectionsOk(sections, sectionDepth, frames)
    }

    constructor (on: bool)
      ensures Valid() && frames == [] && original == on
    {
      level, dispatchDepth, interruptDepth, sectionDepth, interruptsOn := Passive, 0, 0, 0, on;
      guards, sections, frames, original := map[], map[], [], on;
    }

    // KiAssertIrqlState never fails.
    method CheckState() returns (ok: bool)
      requires Depths()
      ensures ok
    {
      ok := interruptDepth <= dispatchDepth && level == if dispatchDepth == 0 then Passive else Dispatch;
    }

    // KeAcquireIrqlGuard. A false ok is a failed kernel assertion.
    method AcquireGuard(id: GuardId) returns (ok: bool)
      requires Depths()
      modifies this`level, this`dispatchDepth, this`interruptsOn, this`guards, this`frames
      ensures Depths() && ok == Legal(old(frames), old(interruptsOn), Acquire(id))
      ensures frames == if ok then After(old(frames), Acquire(id)) else old(frames)
    {
      var guard := GuardAt(guards, id);
      ActiveIffHeld(guards, frames, original, id);
      if guard.active || dispatchDepth == DEPTH_LIMIT {
        return false;
      }
      ok := CheckState();
      GuardsPush(guards, frames, original, id);
      FramesPush(frames, original, Held(id));
      guard := guard.(savedOn := false, previous := level, target := Dispatch, transitioned := false);
      if level == Passive {
        guard := guard.(savedOn := interruptsOn, transitioned := true);
        interruptsOn := false;
      }
      dispatchDepth := dispatchDepth + 1;
      level := Dispatch;
      guard := guard.(enterDepth := dispatchDepth, active := true);
      guards := guards[id := guard];
      frames := frames + [Held(id)];
      var closing := CheckState();
      ok := ok && closing;
    }

    // KeReleaseIrqlGuard.
    method ReleaseGuard(id: GuardId) returns (ok: bool)
      requires Depths()
      modifies this`level, this`dispatchDepth, this`interruptsOn, this`guards, this`frames
      ensures Depths() && ok == Legal(old(frames), old(interruptsOn), Release(id))
      ensures frames == if ok then After(old(frames), Release(id)) else old(frames)
    {
      var guard := GuardAt(guards, id);
      ActiveIffHeld(guards, frames, original, id);
      if !guard.active {
        return false;
      }
      HeldDepth(guards, frames, original, id);
      ok := CheckState();
      ok := ok && guard.target == Dispatch;
      if dispatchDepth == 0 || guard.enterDepth != dispatchDepth {
        return false;
      }
      FramesPop(frames, original);
      var rest := Guard(false, false, guard.savedOn, guard.previous, Passive, 0);
      GuardsPop(guards, frames, original, rest);
      dispatchDepth := dispatchDepth - 1;
      level := if dispatchDepth == 0 then guard.previous else Dispatch;
      if guard.transitioned {
        ok := ok && dispatchDepth == 0;
        interruptsOn := guard.savedOn;
      }
      guards := guards[id := rest];
      frames := frames[..|frames| - 1];
      var closing := CheckState();
      ok := ok && closing;
    }

    // KeEnterCriticalSection.
    method EnterSection(n: nat) returns (ok: bool)
      requires Valid()
      modifies this`level, this`dispatchDepth, this`interruptsOn, this`guards, this`frames, this`sections,
          this`sectionDepth
      ensures Valid() && ok == Legal(old(frames), old(interruptsOn), Acquire(InSection(n)))
      ensures frames == if ok then After(old(frames), Acquire(InSection(n))) else old(frames)
    {
      SectionHeld(sections, sectionDepth, frames, n);
      SectionsSame(frames, frames, |frames|);
      if SectionAt(sections, n).active || sectionDepth == DEPTH_LIMIT {
        return false;
      }
      SectionsPush(sections, sectionDepth, frames, Held(InSection(n)));
      ok := AcquireGuard(InSection(n));
      if !ok {
        return;
      }
      sectionDepth := sectionDepth + 1;
      sections := sections[n := Section(true, sectionDepth)];
    }

    // KeLeaveCriticalSection; when it stops in the middle of the inner release the kernel is halted.
    method LeaveSection(n: nat) returns (ok: bool)
      requires Valid()
      modifies this`level, this`dispatchDepth, this`interruptsOn, this`guards, this`frames, this`sections,
          this`sectionDepth
      ensures ok == Legal(old(frames), old(interruptsOn), Release(InSection(n)))
      ensures ok ==> Valid() && frames == After(old(frames), Release(InSection(n)))
    {
      SectionHeld(sections, sectionDepth, frames, n);
      if frames != [] { SectionsPop(sections, sectionDepth, frames, original); }
      if !SectionAt(sections, n).active || sectionDepth == 0 || SectionAt(sections, n).enterDepth != sectionDepth {
        return false;
      }
      sectionDepth := sectionDepth - 1;
      sections := sections[n := IDLE_SECTION];
      ok := ReleaseGuard(InSection(n));
    }

    // The processor takes an interrupt: the flag is cleared, then KeEnterInterruptContext.
    method EnterInterrupt() returns (ok: bool)
      requires Valid() && interruptsOn
      modifies this`level, this`dispatchDepth, this`interruptsOn, this`interruptDepth, this`frames
      ensures Valid() && ok && Legal(old(frames), old(interruptsOn), Arrive) && frames == After(old(frames), Arrive)
    {
      GuardsArrive(guards, original);
      SectionsPush(sections, sectionDepth, frames, Interrupt);
      FramesPush(frames, original, Interrupt);
      ok := CheckState();
      interruptsOn := false;
      ok := ok && dispatchDepth != DEPTH_LIMIT && interruptDepth != DEPTH_LIMIT;
      dispatchDepth := dispatchDepth + 1;
      interruptDepth := interruptDepth + 1;
      level := Dispatch;
      frames := frames + [Interrupt];
      var closing := CheckState();
      ok := ok && closing;
    }

    // KeLeaveInterruptContext and the return that turns interrupts on again.
    method LeaveInterrupt() returns (ok: bool)
      requires Valid()
      modifies this`level, this`dispatchDepth, this`interruptsOn, this`interruptDepth, this`frames
      ensures Valid() && ok == Legal(old(frames), old(interruptsOn), Leave)
      ensures frames == if ok then After(old(frames), Leave) else old(frames)
    {
      ok := CheckState();
      if interruptDepth == 0 || dispatchDepth == 0 || dispatchDepth != interruptDepth {
        return false;
      }
      GuardsPop(guards, frames, original, IDLE_GUARD);
      FramesPop(frames, original);
      SectionsPop(sections, sectionDepth, frames, original);
      interruptDepth := interruptDepth - 1;
      dispatchDepth := dispatchDepth - 1;
      level := if dispatchDepth == 0 then Passive else Dispatch;
      interruptsOn := true;
      frames := frames[..|frames| - 1];
      var closing := CheckState();
      ok := ok && closing;
    }
  }

  lemma GuardsArrive(guards: map<GuardId, Guard>, original: bool)
    requires GuardsOk(guards, [], original)
    ensures GuardsOk(guards, [Interrupt], original)
  {
    forall i | 0 <= i < 1 ensures GuardOk(guards, [Interrupt], original, i) {}
    forall x ensures GuardAt(guards, x).active ==> Held(x) in [Interrupt] {}
  }

  // A held guard's depth is that of the innermost frame exactly when it is the innermost frame.
  lemma HeldDepth(guards: map<GuardId, Guard>, frames: seq<Frame>, original: bool, id: GuardId)
    requires GuardsOk(guards, frames, original) && GuardAt(guards, id).active
    ensures frames != [] && (GuardAt(guards, id).enterDepth == |frames| <==> frames[|frames| - 1] == Held(id))
    ensures GuardAt(guards, id).enterDepth == |frames| ==> GuardAt(guards, id) == FrameGuard(|frames| - 1, original)
  {
    var i :| 0 <= i < |frames| && frames[i] == Held(id);
    assert GuardOk(guards, frames, original, i);
    assert GuardOk(guards, frames, original, |frames| - 1);
  }

  lemma SectionHeld(sections: map<nat, Section>, depth: nat, frames: seq<Frame>, n: nat)
    requires SectionsOk(sections, depth, frames)
    ensures SectionAt(sections, n).active <==> Held(InSection(n)) in frames
  {
    if Held(InSection(n)) in frames {
      var i :| 0 <= i < |frames| && frames[i] == Held(InSection(n));
      assert SectionOk(sections, frames, i);
    }
  }
}

/**
 The keyboard line of the foreground thread (ke/input/input.c).  The first half is the device
 as a value and what a run of scan codes, hand-offs and reads amounts to; the second half is the
 device as the code keeps it, in two fixed buffers.
 */
module InputLine {
  import opened Status

  const CAPACITY: nat := 128
  const NUL := 0 as char
  const BACKSPACE := 8 as char
  const NEWLINE := 10 as char

  // ---------------------------------------------------------------- scan codes

  // Keys of one row of the keyboard, from code `first` on.
  function Row(keys: string, first: nat, code: nat): char {
    if first <= code < first + |keys| then keys[code - first] else NUL
  }

  function Layout(code: nat, row1: string, row2: string, row3: string, row4: string): char {
    if code < 0x10 then Row(row1, 0x02, code)
    else if code < 0x1E then Row(row2, 0x10, code)
    else if code < 0x2B then Row(row3, 0x1E, code)
    else if code < 0x39 then Row(row4, 0x2B, code)
    else if code == 0x39 then ' ' else NUL
  }

  // KiTranslateSet1ScanCode.
  function Translate(code: nat, shifted: bool): char {
    if code >= 128 then NUL
    else if code == 0x1C then NEWLINE
    else if code == 0x0E then BACKSPACE
    else if shifted then Layout(code, "!@#$%^&*()_+", "QWERTYUIOP{}", "ASDFGHJKL:\"~", "|ZXCVBNM<>?")
    else Layout(code, "1234567890-=", "qwertyuiop[]", "asdfghjkl;'`", "\\zxcvbnm,./")
  }

  predicate Printable(c: char) { ' ' <= c <= '~' }

  // The key of a small letter.
  function LetterKey(c: char): nat {
    match c
    case 'a' => 0x1E case 'b' => 0x30 case 'c' => 0x2E case 'd' => 0x20 case 'e' => 0x12 case 'f' => 0x21
    case 'g' => 0x22 case 'h' => 0x23 case 'i' => 0x17 case 'j' => 0x24 case 'k' => 0x25 case 'l' => 0x26
    case 'm' => 0x32 case 'n' => 0x31 case 'o' => 0x18 case 'p' => 0x19 case 'q' => 0x10 case 'r' => 0x13
    case 's' => 0x1F case 't' => 0x14 case 'u' => 0x16 case 'v' => 0x2F case 'w' => 0x11 case 'x' => 0x2D
    case 'y' => 0x15 case 'z' => 0x2C case _ => 0
  }

  // The key of a printable character, and whether shift goes with it.
  function KeyOf(c: char): (nat, bool) {
    if 'a' <= c <= 'z' then (LetterKey(c), false)
    else if 'A' <= c <= 'Z' then (LetterKey((c as int + 32) as char), true)
    else
    match c
    case '\'' => (0x28, false) case ',' => (0x33, false) case '-' => (0x0C, false) case '.' => (0x34, false)
    case '/' => (0x35, false) case '0' => (0x0B, false) case '1' => (0x02, false) case '2' => (0x03, false)
    case '3' => (0x04, false) case '4' => (0x05, false) case '5' => (0x06, false) case '6' => (0x07, false)
    case '7' => (0x08, false) case '8' => (0x09, false) case '9' => (0x0A, false) case ';' => (0x27, false)
    case '=' => (0x0D, false) case '[' => (0x1A, false) case '\\' => (0x2B, false) case ']' => (0x1B, false)
    case '`' => (0x29, false) case '!' => (0x02, true) case '\"' => (0x28, true) case '#' => (0x04, true)
    case '$' => (0x05, true) case '%' => (0x06, true) case '&' => (0x08, true) case '(' => (0x0A, true)
    case ')' => (0x0B, true) case '*' => (0x09, true) case '+' => (0x0D, true) case ':' => (0x27, true)
    case '<' => (0x33, true) case '>' => (0x34, true) case '?' => (0x35, true) case '@' => (0x03, true)
    case '^' => (0x07, true) case '_' => (0x0C, true) case '{' => (0x1A, true) case '|' => (0x2B, true)
    case '}' => (0x1B, true) case '~' => (0x29, true) case _ => (0x39, false)
  }

  // Every printable character can be typed; a letter key gives the small letter, and the capital with shift.
  lemma KeyGives(c: char)
    requires Printable(c)
    ensures Translate(KeyOf(c).0, KeyOf(c).1) == c
  {
    if 'a' <= c <= 'z' {
      LetterGives(c);
    } else if 'A' <= c <= 'Z' {
      LetterGives((c as int + 32) as char);
    } else if c < '0' {
      LowGives(c);
    } else {
      HighGives(c);
    }
  }

  lemma LetterGives(c: char)
    requires 'a' <= c <= 'z'
    ensures Translate(LetterKey(c), false) == c && Translate(LetterKey(c), true) == (c as int - 32) as char
  {}

  lemma LowGives(c: char)
    requires ' ' <= c < '0'
    ensures Translate(KeyOf(c).0, KeyOf(c).1) == c
  {}

  lemma HighGives(c: char)
    requires '0' <= c < 'A' || 'Z' < c < 'a' || 'z' < c <= '~'
    ensures Translate(KeyOf(c).0, KeyOf(c).1) == c
  {}

  // No other key gives it, but that space needs no shift.
  lemma KeyIsOnly(code: nat, shifted: bool)
    requires Printable(Translate(code, shifted))
    ensures KeyOf(Translate(code, shifted)) == (code, shifted && code != 0x39)
  {
    if code < 0x10 {
      DigitRow(code, shifted);
    } else if code < 0x1E {
      TopRow(code, shifted);
    } else if code < 0x2B {
      HomeRow(code, shifted);
    } else if code < 0x39 {
      BottomRow(code, shifted);
    }
  }

  lemma ControlKeys(shifted: bool)
    ensures Translate(0x1C, shifted) == '\n' && Translate(0x0E, shifted) as int == 8
  {}

  lemma DigitRow(code: nat, shifted: bool)
    requires code < 0x10 && Printable(Translate(code, shifted))
    ensures KeyOf(Translate(code, shifted)) == (code, shifted)
  {}

  lemma TopRow(code: nat, shifted: bool)
    requires 0x10 <= code < 0x1E && Printable(Translate(code, shifted))
    ensures KeyOf(Translate(code, shifted)) == (code, shifted)
  {}

  lemma HomeRow(code: nat, shifted: bool)
    requires 0x1E <= code < 0x2B && Printable(Translate(code, shifted))
    ensures KeyOf(Translate(code, shifted)) == (code, shifted)
  {}

  lemma BottomRow(code: nat, shifted: bool)
    requires 0x2B <= code < 0x39 && Printable(Translate(code, shifted))
    ensures KeyOf(Translate(code, shifted)) == (code, shifted)
  {}

  // ---------------------------------------------------------------- the device as a value

  datatype Device = Device(
    owner: nat, current: string, completed: string, ready: bool, signaled: bool, shift: bool, readCount: nat)

  const NO_INPUT := Device(0, "", "", false, false, false, 0)

  // KiHandleTranslatedInputChar.
  function HandleChar(d: Device, c: char): Device {
    if d.owner == 0 then d
    else if c == BACKSPACE then
      if d.current == "" || d.ready then d else d.(current := d.current[..|d.current| - 1])
    else if c == NEWLINE then
      if d.ready then d else d.(completed := d.current, ready := true, current := "", signaled := true)
    else if !Printable(c) || d.ready || |d.current| >= CAPACITY then d
    else d.(current := d.current + [c])
  }

  predicate IsShift(code: nat) { code == 0x2A || code == 0x36 || code == 0xAA || code == 0xB6 }

  // One turn of KiKeyboardInterruptHandler's loop.
  function Scan(d: Device, code: nat): Device {
    if IsShift(code) then d.(shift := code < 0x80)
    else if code >= 0x80 || Translate(code, d.shift) == NUL then d
    else HandleChar(d, Translate(code, d.shift))
  }

  function ScanAll(d: Device, codes: seq<nat>): Device {
    if codes == [] then d else Scan(ScanAll(d, codes[..|codes| - 1]), codes[|codes| - 1])
  }

  // KeInputSetForegroundOwnerThreadId.
  function SetOwner(d: Device, thread: nat): Device {
    Device(thread, "", "", false, false, false, d.readCount)
  }

  predicate CanConsume(d: Device, thread: nat) {
    d.owner != 0 && thread == d.owner && d.ready
  }

  // KeInputConsumeCompletedLineForCurrentThread.
  function Consume(d: Device, thread: nat): Device {
    if CanConsume(d, thread)
    then d.(ready := false, completed := "", readCount := d.readCount + 1, signaled := false) else d
  }

  ghost predicate DeviceOk(d: Device) {
    && (d.ready <==> d.signaled) && (d.ready ==> d.current == "") && (!d.ready ==> d.completed == "")
    && |d.current| <= CAPACITY && |d.completed| <= CAPACITY
    && (d.owner == 0 ==> d.current == "" && !d.ready)
  }

  // ---------------------------------------------------------------- the simple editor

  // Backspace takes the last character away; printable characters are added while there is room.
  function Edit(typed: string): (line: string)
    ensures |line| <= CAPACITY
  {
    if typed == "" then "" else
    var line, c := Edit(typed[..|typed| - 1]), typed[|typed| - 1];
    if c == BACKSPACE then if line == "" then "" else line[..|line| - 1]
    else if Printable(c) && |line| < CAPACITY then line + [c] else line
  }

  // Printable characters alone are kept in full up to the 128th, and the others dropped.
  lemma {:induction false} PlainLine(typed: string)
    requires forall i :: 0 <= i < |typed| ==> ' ' <= typed[i] <= '~'
    ensures Edit(typed) == if |typed| <= 128 then typed else typed[..128]
    decreases |typed|
  {
    if typed != "" {
      var init := typed[..|typed| - 1];
      PlainLine(init);
      assert typed == init + [typed[|typed| - 1]];
    }
  }

  function ShiftAfter(shift: bool, codes: seq<nat>): bool {
    if codes == [] then shift
    else if IsShift(codes[|codes| - 1]) then codes[|codes| - 1] < 0x80
    else ShiftAfter(shift, codes[..|codes| - 1])
  }

  // The characters a run of scan codes types.
  function Typed(shift: bool, codes: seq<nat>): string {
    if codes == [] then "" else
    var init, code := codes[..|codes| - 1], codes[|codes| - 1];
    if IsShift(code) || Translate(code, ShiftAfter(shift, init)) == NUL then Typed(shift, init)
    else Typed(shift, init) + [Translate(code, ShiftAfter(shift, init))]
  }

  // The part before the first newline.
  function FirstLine(typed: string): string {
    if typed == "" then ""
    else if NEWLINE in typed[..|typed| - 1] then FirstLine(typed[..|typed| - 1])
    else if typed[|typed| - 1] == NEWLINE then typed[..|typed| - 1] else typed
  }

  lemma {:induction false} FirstLineMeans(typed: string)
    ensures NEWLINE !in FirstLine(typed) && FirstLine(typed) <= typed
    ensures NEWLINE in typed ==> |FirstLine(typed)| < |typed| && typed[|FirstLine(typed)|] == NEWLINE
    ensures NEWLINE !in typed ==> FirstLine(typed) == typed
  {
    if typed != "" {
      assert typed == typed[..|typed| - 1] + [typed[|typed| - 1]];
      FirstLineMeans(typed[..|typed| - 1]);
    }
  }

  lemma HighCode(code: nat, shift: bool)
    ensures code >= 0x80 ==> Translate(code, shift) == NUL
  {}

  // ---------------------------------------------------------------- runs

  datatype Event = Code(code: nat) | Handoff(thread: nat) | Read(thread: nat)

  function Apply(d: Device, e: Event): Device {
    match e
    case Code(code) => Scan(d, code)
    case Handoff(thread) => SetOwner(d, thread)
    case Read(thread) => Consume(d, thread)
  }

  function Run(d: Device, events: seq<Event>): Device {
    if events == [] then d else Apply(Run(d, events[..|events| - 1]), events[|events| - 1])
  }

  // What a run comes to, seen from outside: the foreground thread, the shift key, the characters typed since the
  // hand-off to that thread or since the last line it read, and the lines read so far.
  datatype Session = Session(owner: nat, shift: bool, typed: string, linesRead: nat)

  function AfterCode(s: Session, code: nat): Session {
    s.(shift := ShiftAfter(s.shift, [code]), typed := s.typed + Typed(s.shift, [code]))
  }

  function SessionOf(events: seq<Event>): Session {
    if events == [] then Session(0, false, "", 0) else
    var before := SessionOf(events[..|events| - 1]);
    match events[|events| - 1]
    case Code(code) => AfterCode(before, code)
    case Handoff(thread) => Session(thread, false, "", before.linesRead)
    case Read(thread) =>
      if thread == before.owner != 0 && NEWLINE in before.typed
      then before.(typed := "", linesRead := before.linesRead + 1) else before
  }

  // The thread of the last hand-off.
  function LastHandoff(events: seq<Event>): nat {
    if events == [] then 0
    else if events[|events| - 1].Handoff? then events[|events| - 1].thread
    else LastHandoff(events[..|events| - 1])
  }

  // The scan codes among these events.
  function CodesOf(events: seq<Event>): seq<nat> {
    if events == [] then []
    else CodesOf(events[..|events| - 1])
         + if events[|events| - 1].Code? then [events[|events| - 1].code] else []
  }

  lemma StepOk(d: Device, e: Event)
    requires DeviceOk(d)
    ensures DeviceOk(Apply(d, e))
  {
    if e.Code? { CharOk(d, Translate(e.code, d.shift)); }
  }

  lemma CharOk(d: Device, c: char)
    requires DeviceOk(d)
    ensures DeviceOk(HandleChar(d, c))
  {}

  lemma {:induction false} RunOk(d: Device, events: seq<Event>)
    requires DeviceOk(d)
    ensures DeviceOk(Run(d, events))
  {
    if events != [] {
      RunOk(d, events[..|events| - 1]);
      StepOk(Run(d, events[..|events| - 1]), events[|events| - 1]);
    }
  }

  // What the device then holds: the simple editor's line, delivered up to the first newline once there is one.
  function Screen(s: Session): Device {
    if s.owner == 0 then Device(0, "", "", false, false, s.shift, s.linesRead)
    else if NEWLINE in s.typed then Device(s.owner, "", Edit(FirstLine(s.typed)), true, true, s.shift, s.linesRead)
    else Device(s.owner, Edit(s.typed), "", false, false, s.shift, s.linesRead)
  }

  // In every run with hand-offs and reads, the device is what the session makes of it.
  lemma {:induction false} LineIsEdit(events: seq<Event>)
    ensures Run(NO_INPUT, events) == Screen(SessionOf(events))
    decreases |events|
  {
    if events != [] {
      var init := events[..|events| - 1];
      LineIsEdit(init);
      if events[|events| - 1].Code? { OneCode(SessionOf(init), events[|events| - 1].code); }
    }
  }

  lemma OneCode(s: Session, code: nat)
    ensures Scan(Screen(s), code) == Screen(AfterCode(s, code))
  {
    OneTyped(s.shift, code);
    HighCode(code, s.shift);
    var c := Translate(code, s.shift);
    if IsShift(code) || c == NUL {
      assert s.typed + Typed(s.shift, [code]) == s.typed;
    } else {
      OneCharacter(s, c);
    }
  }

  lemma OneCharacter(s: Session, c: char)
    requires c != NUL
    ensures HandleChar(Screen(s), c) == Screen(s.(typed := s.typed + [c]))
  {
    var more := s.typed + [c];
    assert more[..|more| - 1] == s.typed;
  }

  // One more scan code.
  lemma OneTyped(shift: bool, code: nat)
    ensures ShiftAfter(shift, [code]) == if IsShift(code) then code < 0x80 else shift
    ensures Typed(shift, [code])
         == if IsShift(code) || Translate(code, shift) == NUL then "" else [Translate(code, shift)]
  {
    MoreTyped(shift, [], code);
    assert [] + [code] == [code];
  }

  lemma MoreTyped(shift: bool, codes: seq<nat>, code: nat)
    ensures var now := ShiftAfter(shift, codes);
            && ShiftAfter(shift, codes + [code]) == (if IsShift(code) then code < 0x80 else now)
            && Typed(shift, codes + [code])
               == Typed(shift, codes)
                  + if IsShift(code) || Translate(code, now) == NUL then "" else [Translate(code, now)]
  {
    assert (codes + [code])[..|codes|] == codes;
  }

  // The owner is the thread of the last hand-off.
  lemma {:induction false} OwnerIsLast(events: seq<Event>)
    ensures SessionOf(events).owner == LastHandoff(events) == Run(NO_INPUT, events).owner
    decreases |events|
  {
    LineIsEdit(events);
    if events != [] { OwnerIsLast(events[..|events| - 1]); }
  }

  // Scan codes, and reads by other threads, after a point at which nothing has been typed.
  lemma {:induction false} SessionGoesOn(before: seq<Event>, more: seq<Event>)
    requires SessionOf(before).typed == ""
    requires forall j :: 0 <= j < |more| ==> !more[j].Handoff? && more[j] != Read(SessionOf(before).owner)
    ensures SessionOf(before + more) == AfterCodes(SessionOf(before), CodesOf(more))
    decreases |more|
  {
    if more == [] {
      assert before + more == before;
    } else {
      var init, e := more[..|more| - 1], more[|more| - 1];
      SessionGoesOn(before, init);
      assert more == init + [e] && before + more == (before + init) + [e];
      SessionStep(before + init, e);
      CodesStep(init, e);
      if e.Code? { AfterMore(SessionOf(before), CodesOf(init), e.code); }
    }
  }

  function AfterCodes(s: Session, codes: seq<nat>): Session {
    s.(shift := ShiftAfter(s.shift, codes), typed := Typed(s.shift, codes))
  }

  lemma AfterMore(s: Session, codes: seq<nat>, code: nat)
    ensures AfterCode(AfterCodes(s, codes), code) == AfterCodes(s, codes + [code])
  {
    MoreTyped(s.shift, codes, code);
    OneTyped(ShiftAfter(s.shift, codes), code);
    assert Typed(s.shift, codes) + "" == Typed(s.shift, codes);
  }

  // Whatever scan codes one interrupt finds, from an empty line they leave exactly the simple editor's line; everything
  // from the newline on is ignored.
  lemma {:induction false} ScanIsEdit(s: Session, codes: seq<nat>)
    requires s.typed == ""
    ensures ScanAll(Screen(s), codes) == Screen(AfterCodes(s, codes))
    decreases |codes|
  {
    if codes != [] {
      var init, code := codes[..|codes| - 1], codes[|codes| - 1];
      ScanIsEdit(s, init);
      OneCode(AfterCodes(s, init), code);
      assert init + [code] == codes;
      AfterMore(s, init, code);
    }
  }

  lemma SessionStep(events: seq<Event>, e: Event)
    ensures e.Code? ==> SessionOf(events + [e]) == AfterCode(SessionOf(events), e.code)
    ensures e.Read? && e.thread != SessionOf(events).owner ==> SessionOf(events + [e]) == SessionOf(events)
  {
    assert (events + [e])[..|events|] == events;
  }

  lemma CodesStep(events: seq<Event>, e: Event)
    ensures CodesOf(events + [e]) == if e.Code? then CodesOf(events) + [e.code] else CodesOf(events)
  {
    assert (events + [e])[..|events|] == events;
    assert CodesOf(events) + [] == CodesOf(events);
  }

  // The line that is there after a hand-off is the new owner's: what was typed since, from shift up, and nothing of
  // what was typed before.
  lemma LineSinceHandoff(before: seq<Event>, thread: nat, more: seq<Event>)
    requires thread != 0 && forall j :: 0 <= j < |more| ==> !more[j].Handoff? && more[j] != Read(thread)
    ensures var d, typed := Run(NO_INPUT, before + [Handoff(thread)] + more), Typed(false, CodesOf(more));
            && d.owner == thread
            && (d.ready <==> NEWLINE in typed)
            && (d.ready ==> d.completed == Edit(FirstLine(typed)))
            && (!d.ready ==> d.current == Edit(typed))
  {
    var start := before + [Handoff(thread)];
    assert start[..|start| - 1] == before;
    SessionGoesOn(start, more);
    LineIsEdit(start + more);
  }

  // The next line of the same thread is what was typed since it read the one before.
  lemma LineSinceRead(before: seq<Event>, thread: nat, more: seq<Event>)
    requires Run(NO_INPUT, before).owner == thread && Run(NO_INPUT, before).ready
    requires forall j :: 0 <= j < |more| ==> !more[j].Handoff? && more[j] != Read(thread)
    ensures var d := Run(NO_INPUT, before + [Read(thread)] + more);
            var typed := Typed(Run(NO_INPUT, before).shift, CodesOf(more));
            && d.owner == thread && d.readCount == Run(NO_INPUT, before).readCount + 1
            && (d.ready <==> NEWLINE in typed)
            && (d.ready ==> d.completed == Edit(FirstLine(typed)))
            && (!d.ready ==> d.current == Edit(typed))
  {
    var start := before + [Read(thread)];
    assert start[..|start| - 1] == before;
    LineIsEdit(before);
    SessionGoesOn(start, more);
    LineIsEdit(start + more);
  }

  // A line that is ready is for the thread of the last hand-off.
  lemma DeliveredLine(events: seq<Event>)
    requires Run(NO_INPUT, events).ready
    ensures var d, typed := Run(NO_INPUT, events), SessionOf(events).typed;
            && d.owner == LastHandoff(events) != 0 && d.current == "" && d.signaled
            && NEWLINE in typed && d.completed == Edit(FirstLine(typed))
  {
    LineIsEdit(events);
    OwnerIsLast(events);
  }

  // ---------------------------------------------------------------- the device in its buffers

  class InputDevice {
    const currentLine: array<char>
    const completedLine: array<char>
    var currentLength: nat
    var completedLength: nat
    var owner: nat
    var readCount: nat
    var lineReady: bool
    var eventSignaled: bool
    var shiftDown: bool

    ghost predicate Valid()
      reads this, currentLine, completedLine
    {
      && currentLine.Length == CAPACITY && completedLine.Length == CAPACITY && currentLine != completedLine
      && currentLength <= CAPACITY && completedLength <= CAPACITY && DeviceOk(View())
    }

    ghost function View(): Device
      reads this, currentLine, completedLine
      requires currentLength <= currentLine.Length && completedLength <= completedLine.Length
    {
      Device(owner, currentLine[..currentLength], completedLine[..completedLength], lineReady, eventSignaled,
          shiftDown, readCount)
    }

    constructor ()
      ensures Valid() && View() == NO_INPUT && fresh(currentLine) && fresh(completedLine)
    {
      currentLine := new char[CAPACITY](_ => NUL);
      completedLine := new char[CAPACITY](_ => NUL);
      currentLength, completedLength, owner, readCount := 0, 0, 0, 0;
      lineReady, eventSignaled, shiftDown := false, false, false;
    }

    method Clear(buffer: array<char>)
      modifies buffer
      ensures forall i :: 0 <= i < buffer.Length ==> buffer[i] == NUL
    {
      for i := 0 to buffer.Length
        invariant forall j :: 0 <= j < i ==> buffer[j] == NUL
      {
        buffer[i] := NUL;
      }
    }

    // memcpy of the first n characters.
    method CopyChars(target: array<char>, source: array<char>, n: nat)
      requires n <= target.Length && n <= source.Length && target != source
      modifies target
      ensures target[..n] == source[..n] && target[n..] == old(target[n..])
    {
      for i := 0 to n
        invariant target[..i] == source[..i] && target[i..] == old(target[i..])
      {
        target[i] := source[i];
      }
    }

    // The newline branch of KiHandleTranslatedInputChar.
    method CompleteLine()
      requires Valid() && owner != 0 && !lineReady
      modifies this`currentLength, this`completedLength, this`lineReady, this`eventSignaled, currentLine, completedLine
      ensures Valid() && View() == HandleChar(old(View()), NEWLINE)
    {
      if currentLength != 0 {
        CopyChars(completedLine, currentLine, currentLength);
      }
      completedLength := currentLength;
      lineReady := true;
      currentLength := 0;
      Clear(currentLine);
      eventSignaled := true;
    }

    method HandleInputChar(c: char)
      requires Valid()
      modifies this`currentLength, this`completedLength, this`lineReady, this`eventSignaled, currentLine, completedLine
      ensures Valid() && View() == HandleChar(old(View()), c)
    {
      if owner == 0 {
        return;
      }
      if c == BACKSPACE {
        if currentLength == 0 || lineReady {
          return;
        }
        currentLength := currentLength - 1;
        return;
      }
      if c == NEWLINE {
        if lineReady {
          return;
        }
        CompleteLine();
        return;
      }
      if c < ' ' || c > '~' || lineReady {
        return;
      }
      if currentLength >= CAPACITY {
        return;
      }
      currentLine[currentLength] := c;
      currentLength := currentLength + 1;
    }

    // KiKeyboardInterruptHandler; `pending` are the bytes the keyboard has ready.
    method KeyboardInterrupt(pending: seq<nat>)
      requires Valid()
      modifies this`currentLength, this`completedLength, this`lineReady, this`eventSignaled, this`shiftDown,
          currentLine, completedLine
      ensures Valid() && View() == ScanAll(old(View()), pending)
    {
      var i := 0;
      while i < |pending|
        invariant i <= |pending| && Valid() && View() == ScanAll(old(View()), pending[..i])
      {
        var code := pending[i];
        assert pending[..i + 1][..i] == pending[..i];
        i := i + 1;
        if code == 0x2A || code == 0x36 {
          shiftDown := true;
          continue;
        }
        if code == 0xAA || code == 0xB6 {
          shiftDown := false;
          continue;
        }
        HighCode(code, shiftDown);
        if code >= 0x80 {
          continue;
        }
        var c := Translate(code, shiftDown);
        if c != NUL {
          HandleInputChar(c);
        }
      }
      assert pending[..i] == pending;
    }

    method SetForegroundOwner(thread: nat)
      requires Valid()
      modifies this, currentLine, completedLine
      ensures Valid() && View() == SetOwner(old(View()), thread)
      ensures owner == thread && !shiftDown && !lineReady && !eventSignaled && readCount == old(readCount)
      ensures View().current == "" && View().completed == ""
    {
      owner := thread;
      currentLength, completedLength := 0, 0;
      lineReady, shiftDown := false, false;
      Clear(currentLine);
      Clear(completedLine);
      eventSignaled := false;
    }

    // KeInputCopyCompletedLineForCurrentThread.
    method CopyLine(thread: nat, buffer: array<char>) returns (status: Status, length: nat)
      requires Valid() && buffer != currentLine && buffer != completedLine
      modifies buffer
      ensures Valid() && View() == old(View())
      ensures status == (if buffer.Length == 0 then IllegalArgument
                         else if owner == 0 || thread != owner then InvalidState
                         else if !lineReady then Timeout
                         else if completedLength > buffer.Length then IllegalArgument else Success)
      ensures status == Success ==> length <= buffer.Length && buffer[..length] == View().completed
      ensures status != Success ==> buffer[..] == old(buffer[..])
    {
      length := 0;
      if buffer.Length == 0 {
        return IllegalArgument, length;
      }
      if owner == 0 || thread != owner {
        return InvalidState, length;
      }
      if !lineReady {
        return Timeout, length;
      }
      if completedLength > buffer.Length {
        return IllegalArgument, length;
      }
      if completedLength != 0 {
        CopyChars(buffer, completedLine, completedLength);
      }
      return Success, completedLength;
    }

    // KeInputConsumeCompletedLineForCurrentThread.
    method ConsumeLine(thread: nat) returns (status: Status)
      requires Valid()
      modifies this`lineReady, this`completedLength, this`readCount, this`eventSignaled, completedLine
      ensures Valid() && View() == Consume(old(View()), thread)
      ensures status == if old(lineReady) && thread == old(owner) != 0 then Success else InvalidState
    {
      if owner == 0 || thread != owner {
        return InvalidState;
      }
      if !lineReady {
        return InvalidState;
      }
      lineReady := false;
      completedLength := 0;
      readCount := readCount + 1;
      Clear(completedLine);
      eventSignaled := false;
      return Success;
    }
  }
}

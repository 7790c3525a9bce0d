/**
 A process's handle table (ex/handle.c).  A handle packs a slot number and the slot's
 generation; closing a slot moves its generation on, so that old handles stop resolving.
 */
module Handles {
  import opened Arithmetic
  import opened Option
  import opened Status

  const SLOTS: nat := 32
  const GENERATIONS: nat := 0x100_0000   // 24 bits
  const HANDLE_LIMIT: nat := 0x1_0000_0000

  datatype Right = Query | CloseRight | ProcessSelf | ThreadSelf | Write | WaitRight
  datatype Kind = ProcessKind | ThreadKind | ConsoleKind

  // EX_HANDLE_SLOT over whatever names objects.
  datatype Slot<T> = Slot(obj: Option<T>, rights: set<Right>, generation: nat)
  type Table<T> = seq<Slot<T>>

  // A slot of a zeroed table.
  function NewSlot<T>(): Slot<T> { Slot(None, {}, 0) }

  // ---------------------------------------------------------------- encoding

  // KiEncodeHandle; 0 is EX_HANDLE_INVALID. Handles are 32-bit words.
  function Encode(slot: nat, generation: nat): nat {
    if slot >= SLOTS || generation == 0 then 0 else generation * 256 % HANDLE_LIMIT + slot + 1
  }

  // KiDecodeHandle.
  function Decode(handle: nat): Option<(nat, nat)> {
    var index, generation := handle % 256, handle / 256 % GENERATIONS;
    if index == 0 || generation == 0 || index - 1 >= SLOTS then None else Some((index - 1, generation))
  }

  // KiAdvanceHandleGeneration.
  function Advance(generation: nat): nat {
    var next := (generation + 1) % GENERATIONS;
    if next == 0 then 1 else next
  }

  predicate ValidPair(slot: nat, generation: nat) {
    slot < SLOTS && 0 < generation < GENERATIONS
  }

  lemma Packed(generation: nat, low: nat)
    requires generation < GENERATIONS && low < 256
    ensures (generation * 256 + low) % 256 == low && (generation * 256 + low) / 256 == generation
    ensures generation * 256 + low < HANDLE_LIMIT
  {}

  lemma DecodeEncode(slot: nat, generation: nat)
    requires ValidPair(slot, generation)
    ensures 0 < Encode(slot, generation) < HANDLE_LIMIT && Decode(Encode(slot, generation)) == Some((slot, generation))
  {
    Packed(generation, slot + 1);
  }

  // Every word is either refused or the encoding of the one valid pair it decodes to.
  lemma EncodeDecode(handle: nat)
    requires handle < HANDLE_LIMIT
    ensures match Decode(handle)
            case Some(pair) => ValidPair(pair.0, pair.1) && Encode(pair.0, pair.1) == handle
            case None => forall slot, generation :: ValidPair(slot, generation) ==> Encode(slot, generation) != handle
  {
    assert handle == handle / 256 * 256 + handle % 256;
    if Decode(handle) == None {
      forall slot, generation | ValidPair(slot, generation) ensures Encode(slot, generation) != handle {
        DecodeEncode(slot, generation);
      }
    }
  }

  // ---------------------------------------------------------------- generations

  function AdvanceTimes(generation: nat, k: nat): nat {
    if k == 0 then generation else Advance(AdvanceTimes(generation, k - 1))
  }

  lemma StepModulo(a: nat, m: nat)
    requires m > 1
    ensures (a + 1) % m == if a % m + 1 == m then 0 else a % m + 1
  {
    var q, r := a / m, a % m;
    assert a == q * m + r;
    if r + 1 == m {
      assert a + 1 == (q + 1) * m;
      Multiple(q + 1, m);
    } else {
      assert a + 1 == q * m + (r + 1);
      Remainder(q, m, r + 1);
    }
  }

  lemma Multiple(q: nat, m: nat)
    requires m > 0
    ensures q * m % m == 0
  {
    Remainder(q, m, 0);
  }

  lemma Remainder(q: nat, m: nat, r: nat)
    requires r < m
    ensures (q * m + r) % m == r
  {
    var x := q * m + r;
    var d := x / m;
    DivMod(x, m);
    assert (d + 1) * m == d * m + m && (q + 1) * m == q * m + m;
    LessFromProduct(d, q + 1, m);
    LessFromProduct(q, d + 1, m);
  }

  // Generations run through 1 .. 2^24-1 in turn and never take the value 0.
  lemma {:induction false} Cycle(generation: nat, k: nat)
    requires 0 < generation < GENERATIONS
    ensures AdvanceTimes(generation, k) == (generation - 1 + k) % (GENERATIONS - 1) + 1
  {
    if k > 0 {
      Cycle(generation, k - 1);
      var before := AdvanceTimes(generation, k - 1);
      AdvanceMeans(before);
      StepModulo(generation - 1 + k - 1, GENERATIONS - 1);
    }
  }

  lemma AdvanceMeans(generation: nat)
    requires 0 < generation < GENERATIONS
    ensures Advance(generation) == if generation == GENERATIONS - 1 then 1 else generation + 1
  {}

  // The generations come back after every 2^24 - 1 moves, and only then.
  lemma Period(generation: nat, k: nat)
    requires 0 < generation < GENERATIONS
    ensures AdvanceTimes(generation, k) == generation <==> k % (GENERATIONS - 1) == 0
  {
    Cycle(generation, k);
    ShiftModulo(generation - 1, k, GENERATIONS - 1);
  }

  lemma ShiftModulo(a: nat, k: nat, m: nat)
    requires a < m
    ensures (a + k) % m == a <==> k % m == 0
  {
    var q, r := k / m, k % m;
    DivMod(k, m);
    if a + r < m {
      assert a + k == q * m + (a + r);
      Remainder(q, m, a + r);
    } else {
      assert a + k == (q + 1) * m + (a + r - m);
      Remainder(q + 1, m, a + r - m);
    }
  }

  lemma WithinPeriod(k: nat)
    ensures 0 < k < GENERATIONS - 1 ==> k % (GENERATIONS - 1) != 0
    ensures k == GENERATIONS - 1 ==> k % (GENERATIONS - 1) == 0
  {}

  lemma NoReturn(generation: nat, k: nat)
    requires 0 < generation < GENERATIONS && 0 < k < GENERATIONS - 1
    ensures AdvanceTimes(generation, k) != generation
  {
    Cycle(generation, k);
    var m, a := GENERATIONS - 1, generation - 1;
    if a + k >= m { Remainder(1, m, a + k - m); }
  }

  lemma Return(generation: nat)
    requires 0 < generation < GENERATIONS
    ensures AdvanceTimes(generation, GENERATIONS - 1) == generation
  {
    Cycle(generation, GENERATIONS - 1);
    Remainder(1, GENERATIONS - 1, generation - 1);
  }

  // ---------------------------------------------------------------- tables as values

  predicate TableOk<T>(t: Table<T>) {
    && |t| == SLOTS
    && forall i :: 0 <= i < SLOTS ==> t[i].generation < GENERATIONS && (t[i].obj.Some? ==> t[i].generation > 0)
  }

  function Taken<T>(slot: Slot<T>, obj: T, rights: set<Right>): Slot<T> {
    Slot(Some(obj), rights, if slot.generation == 0 then Advance(0) else slot.generation)
  }

  // KiClearHandleSlot.
  function Cleared<T>(slot: Slot<T>): Slot<T> {
    Slot(None, {}, Advance(slot.generation))
  }

  // The handle names slot i, which is in use with the handle's generation.
  predicate Names<T>(t: Table<T>, handle: nat, i: nat) {
    i < |t| && t[i].obj.Some? && Decode(handle) == Some((i, t[i].generation))
  }

  function Holding(t: Table<nat>, obj: nat): nat {
    if t == [] then 0 else (if t[0].obj == Some(obj) then 1 else 0) + Holding(t[1..], obj)
  }

  lemma {:induction false} HoldingUpdate(t: Table<nat>, i: nat, slot: Slot<nat>, obj: nat)
    requires i < |t|
    ensures Holding(t[i := slot], obj) + (if t[i].obj == Some(obj) then 1 else 0)
            == Holding(t, obj) + (if slot.obj == Some(obj) then 1 else 0)
    ensures t[i].obj == Some(obj) ==> Holding(t, obj) > 0
  {
    if i == 0 {
      assert t[i := slot][1..] == t[1..];
    } else {
      assert t[i := slot][1..] == t[1..][i - 1 := slot];
      HoldingUpdate(t[1..], i - 1, slot, obj);
    }
  }

  // KiValidateCloseHandleSlot for a used slot; `published` says whether its object is in a runtime table.
  predicate MayClose<T>(slot: Slot<T>, published: bool, allowPublished: bool) {
    CloseRight in slot.rights && (allowPublished || !published || slot.rights !! {ProcessSelf, ThreadSelf})
  }

  // The first free slot, or the size of a full table.
  function FirstFree<T>(t: Table<T>): (k: nat)
    ensures k <= |t| && (forall j :: 0 <= j < k ==> t[j].obj.Some?) && (k < |t| ==> t[k].obj.None?)
  {
    if |t| == 0 || t[0].obj.None? then 0
    else
      var k := FirstFree(t[1..]);
      assert forall j :: 1 <= j < k + 1 ==> t[j] == t[1..][j - 1];
      k + 1
  }

  // ---------------------------------------------------------------- runs

  datatype Op<T> = Put(slot: nat, obj: T, rights: set<Right>) | Close(slot: nat)

  predicate Enabled<T>(t: Table<T>, op: Op<T>) {
    op.slot < |t| && (op.Put? <==> t[op.slot].obj.None?)
  }

  function Apply<T>(t: Table<T>, op: Op<T>): Table<T>
    requires Enabled(t, op)
  {
    match op
    case Put(i, obj, rights) => t[i := Taken(t[i], obj, rights)]
    case Close(i) => t[i := Cleared(t[i])]
  }

  predicate Runs<T>(t: Table<T>, ops: seq<Op<T>>)
    decreases |ops|
  {
    |ops| == 0 || (Enabled(t, ops[0]) && Runs(Apply(t, ops[0]), ops[1..]))
  }

  function Run<T>(t: Table<T>, ops: seq<Op<T>>): Table<T>
    requires Runs(t, ops)
    decreases |ops|
  {
    if |ops| == 0 then t else Run(Apply(t, ops[0]), ops[1..])
  }

  function Closes<T>(ops: seq<Op<T>>, i: nat): nat {
    if |ops| == 0 then 0 else (if ops[0].Close? && ops[0].slot == i then 1 else 0) + Closes(ops[1..], i)
  }

  lemma {:induction false} AdvanceSum(generation: nat, j: nat, k: nat)
    ensures AdvanceTimes(AdvanceTimes(generation, j), k) == AdvanceTimes(generation, j + k)
  {
    if k > 0 { AdvanceSum(generation, j, k - 1); }
  }

  lemma {:induction false} RunOk<T>(t: Table<T>, ops: seq<Op<T>>)
    requires TableOk(t) && Runs(t, ops)
    ensures TableOk(Run(t, ops))
    decreases |ops|
  {
    if |ops| != 0 { RunOk(Apply(t, ops[0]), ops[1..]); }
  }

  lemma {:induction false} RunThen<T>(t: Table<T>, ops: seq<Op<T>>, more: seq<Op<T>>)
    requires Runs(t, ops) && Runs(Run(t, ops), more)
    ensures Runs(t, ops + more) && Run(t, ops + more) == Run(Run(t, ops), more)
    decreases |ops|
  {
    if |ops| == 0 {
      assert ops + more == more;
    } else {
      assert (ops + more)[1..] == ops[1..] + more;
      RunThen(Apply(t, ops[0]), ops[1..], more);
    }
  }

  // A used slot's generation has moved on once for every close.
  lemma {:induction false} RunGeneration<T>(t: Table<T>, ops: seq<Op<T>>, i: nat)
    requires TableOk(t) && Runs(t, ops) && i < SLOTS && t[i].generation > 0
    ensures TableOk(Run(t, ops)) && Run(t, ops)[i].generation == AdvanceTimes(t[i].generation, Closes(ops, i))
    decreases |ops|
  {
    if |ops| != 0 {
      var u := Apply(t, ops[0]);
      RunGeneration(u, ops[1..], i);
      if ops[0].Close? && ops[0].slot == i {
        assert u[i].generation == AdvanceTimes(t[i].generation, 1);
        AdvanceSum(t[i].generation, 1, Closes(ops[1..], i));
      }
    }
  }

  // A closed handle names nothing again under any run with fewer than 2^24 - 2 further closes of its slot.
  lemma StaleHandle<T>(t: Table<T>, i: nat, handle: nat, ops: seq<Op<T>>)
    requires TableOk(t) && Names(t, handle, i) && Runs(Apply(t, Close(i)), ops) && Closes(ops, i) < GENERATIONS - 2
    ensures forall k: nat :: !Names(Run(Apply(t, Close(i)), ops), handle, k)
  {
    var u, g := Apply(t, Close(i)), t[i].generation;
    RunGeneration(u, ops, i);
    AdvanceSum(g, 1, Closes(ops, i));
    assert AdvanceTimes(g, 1) == u[i].generation;
    NoReturn(g, 1 + Closes(ops, i));
  }

  // The bound is exact: with 2^24 - 2 further closes the generation is back, and the handle names its
  // slot again as soon as the slot is in use.
  lemma StaleBoundExact<T>(t: Table<T>, i: nat, handle: nat, ops: seq<Op<T>>)
    requires TableOk(t) && Names(t, handle, i) && Runs(Apply(t, Close(i)), ops) && Closes(ops, i) == GENERATIONS - 2
    ensures var u := Run(Apply(t, Close(i)), ops); |u| == SLOTS && (Names(u, handle, i) <==> u[i].obj.Some?)
  {
    var u, g := Apply(t, Close(i)), t[i].generation;
    RunGeneration(u, ops, i);
    AdvanceSum(g, 1, Closes(ops, i));
    assert AdvanceTimes(g, 1) == u[i].generation;
    Return(g);
  }

  // ---------------------------------------------------------------- the table in place

  type Counts = map<nat, nat>

  // KiHandleCloseAll's effect: every used slot cleared.
  function AllCleared<T>(t: Table<T>): (r: Table<T>)
    ensures |r| == |t| && forall i :: 0 <= i < |t| ==> r[i] == if t[i].obj.Some? then Cleared(t[i]) else t[i]
  {
    seq(|t|, i requires 0 <= i < |t| => if t[i].obj.Some? then Cleared(t[i]) else t[i])
  }

  lemma {:induction false} HoldingNone(t: Table<nat>, obj: nat)
    requires forall i :: 0 <= i < |t| ==> t[i].obj.None?
    ensures Holding(t, obj) == 0
  {
    if t != [] { HoldingNone(t[1..], obj); }
  }

  // Each object has a reference for every slot that holds it.
  ghost predicate Counted(t: Table<nat>, refs: Counts) {
    && (forall i :: 0 <= i < |t| && t[i].obj.Some? ==> t[i].obj.value in refs)
    && (forall x :: x in refs ==> refs[x] >= Holding(t, x))
  }

  // References and slots holding an object have changed by as much.
  ghost predicate SameSpare(t: Table<nat>, refs: Counts, t': Table<nat>, refs': Counts) {
    refs'.Keys == refs.Keys && forall x :: x in refs ==> refs'[x] + Holding(t, x) == refs[x] + Holding(t', x)
  }

  lemma PutCounted(t: Table<nat>, refs: Counts, i: nat, slot: Slot<nat>, obj: nat)
    requires Counted(t, refs) && i < |t| && t[i].obj.None? && slot.obj == Some(obj) && obj in refs
    ensures Counted(t[i := slot], refs[obj := refs[obj] + 1])
  {
    forall x | x in refs ensures refs[obj := refs[obj] + 1][x] >= Holding(t[i := slot], x) {
      HoldingUpdate(t, i, slot, x);
    }
  }

  lemma ClearCounted(t: Table<nat>, refs: Counts, i: nat)
    requires Counted(t, refs) && i < |t| && t[i].obj.Some?
    ensures var obj := t[i].obj.value;
            && obj in refs && refs[obj] > 0 && Counted(t[i := Cleared(t[i])], refs[obj := refs[obj] - 1])
            && SameSpare(t, refs, t[i := Cleared(t[i])], refs[obj := refs[obj] - 1])
  {
    var obj, u := t[i].obj.value, t[i := Cleared(t[i])];
    HoldingUpdate(t, i, Cleared(t[i]), obj);
    var less := refs[obj := refs[obj] - 1];
    forall x | x in refs ensures less[x] >= Holding(u, x) && less[x] + Holding(t, x) == refs[x] + Holding(u, x) {
      HoldingUpdate(t, i, Cleared(t[i]), x);
    }
  }

  lemma NothingHeld(t: Table<nat>)
    ensures forall x :: Holding(AllCleared(t), x) == 0
  {
    forall x ensures Holding(AllCleared(t), x) == 0 {
      HoldingNone(AllCleared(t), x);
    }
  }

  // The used slots below i have been cleared.
  ghost predicate ClearedTo<T>(before: Table<T>, now: Table<T>, i: nat) {
    i <= |before| && now == AllCleared(before[..i]) + before[i..]
  }

  lemma ClearedStep<T>(before: Table<T>, now: Table<T>, i: nat)
    requires ClearedTo(before, now, i) && i < |before|
    ensures i < |now| && now[i] == before[i]
    ensures ClearedTo(before, if now[i].obj.Some? then now[i := Cleared(now[i])] else now, i + 1)
  {}

  lemma ClearedEnds<T>(before: Table<T>, now: Table<T>)
    ensures ClearedTo(before, before, 0)
    ensures ClearedTo(before, now, |before|) ==> now == AllCleared(before)
  {
    assert before[..|before|] == before;
  }

  lemma SpareTransitive(t: Table<nat>, refs: Counts, t1: Table<nat>, refs1: Counts, t2: Table<nat>, refs2: Counts)
    requires SameSpare(t, refs, t1, refs1) && SameSpare(t1, refs1, t2, refs2)
    ensures SameSpare(t, refs, t2, refs2)
  {}

  class HandleTable {
    var slots: array<Slot<nat>>
    var refs: Counts          // reference counts of the objects
    var kinds: map<nat, Kind>

    ghost predicate Valid()
      reads this, slots
    {
      slots.Length == SLOTS && TableOk(slots[..]) && kinds.Keys == refs.Keys && Counted(slots[..], refs)
    }

    constructor (refs: Counts, kinds: map<nat, Kind>)
      requires kinds.Keys == refs.Keys
      ensures Valid() && fresh(slots) && this.refs == refs && forall i :: 0 <= i < SLOTS ==> slots[i] == NewSlot()
    {
      this.refs, this.kinds := refs, kinds;
      slots := new Slot<nat>[SLOTS](_ => NewSlot());
      new;
      forall x | x in refs ensures Holding(slots[..], x) == 0 {
        HoldingNone(slots[..], x);
      }
    }

    // The search loop of ExHandleInsert.
    method FindFree() returns (k: nat)
      requires Valid()
      ensures k == FirstFree(slots[..])
    {
      k := 0;
      while k < SLOTS && slots[k].obj.Some?
        invariant k <= SLOTS && forall j :: 0 <= j < k ==> slots[j].obj.Some?
      {
        k := k + 1;
      }
      assert forall j :: 0 <= j < SLOTS ==> slots[..][j] == slots[j];
    }

    // ExHandleInsert: the lowest free slot, one more reference.
    method Insert(obj: nat, rights: set<Right>) returns (status: Status, handle: nat)
      requires Valid()
      modifies this`refs, slots
      ensures Valid()
      ensures status == (if rights == {} then IllegalArgument
                         else if forall i :: 0 <= i < SLOTS ==> old(slots[i].obj).Some? then OutOfResource
                         else if obj !in old(refs) || old(refs)[obj] == 0 then InvalidState else Success)
      ensures status != Success ==> handle == 0 && slots[..] == old(slots[..]) && refs == old(refs)
      ensures status == Success ==>
                && refs == old(refs)[obj := old(refs)[obj] + 1]
                && var k := FirstFree(old(slots[..]));
                   && Enabled(old(slots[..]), Put(k, obj, rights))
                   && slots[..] == Apply(old(slots[..]), Put(k, obj, rights)) && Names(slots[..], handle, k)
                   && slots[k].obj == Some(obj) && slots[k].rights == rights
    {
      handle := 0;
      if rights == {} {
        return IllegalArgument, handle;
      }
      var k := FindFree();
      if k == SLOTS {
        return OutOfResource, handle;
      }
      if obj !in refs || refs[obj] == 0 {
        return InvalidState, handle;
      }
      handle := TakeSlot(k, obj, rights);
      status := Success;
    }

    // The end of ExHandleInsert, for a free slot.
    method TakeSlot(k: nat, obj: nat, rights: set<Right>) returns (handle: nat)
      requires Valid() && k < SLOTS && slots[k].obj.None? && obj in refs
      modifies this`refs, slots
      ensures Valid() && refs == old(refs)[obj := old(refs)[obj] + 1]
      ensures slots[..] == Apply(old(slots[..]), Put(k, obj, rights)) && Names(slots[..], handle, k)
    {
      ghost var before := slots[..];
      var slot := Taken(slots[k], obj, rights);
      PutCounted(before, refs, k, slot, obj);
      refs := refs[obj := refs[obj] + 1];
      slots[k] := slot;
      assert slots[..] == before[k := slot];
      handle := Encode(k, slot.generation);
      DecodeEncode(k, slot.generation);
    }

    // ExHandleResolve: finds what the handle names, if its kind and rights fit, and retains it.
    method Resolve(handle: nat, kind: Kind, desired: set<Right>) returns (status: Status, obj: nat)
      requires Valid() && handle < HANDLE_LIMIT
      modifies this`refs
      ensures Valid()
      ensures (status == Success) == exists i: nat :: Names(slots[..], handle, i) && desired <= slots[i].rights
                                                 && kinds[slots[i].obj.value] == kind
      ensures status == IllegalArgument <==> Decode(handle) == None
      ensures status != Success ==> refs == old(refs)
      ensures status == Success ==> obj in old(refs) && refs == old(refs)[obj := old(refs)[obj] + 1]
                                    && exists i: nat :: Names(slots[..], handle, i) && slots[i].obj == Some(obj)
    {
      obj := 0;
      EncodeDecode(handle);
      var decoded := Decode(handle);
      if decoded == None {
        return IllegalArgument, obj;
      }
      var i, generation := decoded.value.0, decoded.value.1;
      var slot := slots[i];
      if slot.obj == None || slot.generation != generation {
        return InvalidState, obj;
      }
      assert Names(slots[..], handle, i);
      HoldingUpdate(slots[..], i, slot, slot.obj.value);
      if !(desired <= slot.rights) {
        return InvalidState, obj;
      }
      if kinds[slot.obj.value] != kind || refs[slot.obj.value] == 0 {
        return InvalidState, obj;
      }
      obj := slot.obj.value;
      refs := refs[obj := refs[obj] + 1];
      status := Success;
    }

    // Clears one used slot and releases its object.
    method ClearSlot(i: nat)
      requires Valid() && i < SLOTS && slots[i].obj.Some?
      modifies this`refs, slots
      ensures Valid() && slots[..] == Apply(old(slots[..]), Close(i))
      ensures SameSpare(old(slots[..]), old(refs), slots[..], refs)
      ensures var obj := old(slots[i].obj).value;
              obj in old(refs) && old(refs)[obj] > 0 && refs == old(refs)[obj := old(refs)[obj] - 1]
    {
      ghost var before := slots[..];
      var obj, slot := slots[i].obj.value, Cleared(slots[i]);
      ClearCounted(before, refs, i);
      slots[i] := slot;
      refs := refs[obj := refs[obj] - 1];
      assert slots[..] == before[i := slot];
    }

    // ExHandleClose.
    method CloseHandle(handle: nat, published: set<nat>) returns (status: Status)
      requires Valid() && handle < HANDLE_LIMIT
      modifies this`refs, slots
      ensures Valid()
      ensures status == IllegalArgument <==> handle != 0 && Decode(handle) == None
      ensures (status == Success) == (handle == 0 ||
                exists i: nat :: Names(old(slots[..]), handle, i)
                            && MayClose(old(slots[..])[i], old(slots[..])[i].obj.value in published, false))
      // A handle without the close right stays open, and so does a published object's handle to itself.
      ensures forall i: nat :: Names(old(slots[..]), handle, i) ==>
                var slot := old(slots[..])[i];
                status == Success <==>
                  CloseRight in slot.rights
                  && (slot.obj.value in published ==> ProcessSelf !in slot.rights && ThreadSelf !in slot.rights)
      ensures status != Success || handle == 0 ==> slots[..] == old(slots[..]) && refs == old(refs)
      ensures status == Success && handle != 0 ==>
                exists i: nat :: Names(old(slots[..]), handle, i) && slots[..] == Apply(old(slots[..]), Close(i))
                            && forall k: nat :: !Names(slots[..], handle, k)
    {
      if handle == 0 {
        return Success;
      }
      EncodeDecode(handle);
      var decoded := Decode(handle);
      if decoded == None {
        return IllegalArgument;
      }
      var i, generation := decoded.value.0, decoded.value.1;
      if slots[i].obj == None || slots[i].generation != generation {
        return InvalidState;
      }
      ghost var before := slots[..];
      assert Names(before, handle, i);
      if !MayClose(slots[i], slots[i].obj.value in published, false) {
        return InvalidState;
      }
      ClearSlot(i);
      StaleHandle(before, i, handle, []);
      status := Success;
    }

    // KiHandleCloseAll: all slots or none.
    method CloseAll(published: set<nat>, allowPublished: bool) returns (status: Status)
      requires Valid()
      modifies this`refs, slots
      ensures Valid()
      ensures status == if forall i :: 0 <= i < SLOTS && old(slots[i].obj).Some? ==>
                                  MayClose(old(slots[i]), old(slots[i].obj).value in published, allowPublished)
                        then Success else InvalidState
      ensures status == Success ==> forall i :: 0 <= i < SLOTS && old(slots[i].obj).Some? ==>
                var slot := old(slots[..])[i];
                CloseRight in slot.rights
                && (allowPublished || slot.obj.value !in published || slot.rights * {ProcessSelf, ThreadSelf} == {})
      ensures status != Success ==> slots[..] == old(slots[..]) && refs == old(refs)
      ensures status == Success ==> slots[..] == AllCleared(old(slots[..])) && refs.Keys == old(refs).Keys
      ensures status == Success ==> forall x :: x in refs ==> refs[x] + Holding(old(slots[..]), x) == old(refs)[x]
    {
      var i := 0;
      while i < SLOTS
        invariant i <= SLOTS
        invariant forall j :: 0 <= j < i && slots[j].obj.Some? ==>
                    MayClose(slots[j], slots[j].obj.value in published, allowPublished)
      {
        if slots[i].obj.Some? && !MayClose(slots[i], slots[i].obj.value in published, allowPublished) {
          return InvalidState;
        }
        i := i + 1;
      }
      CloseSlots();
      status := Success;
    }

    // The second loop of KiHandleCloseAll.
    method CloseSlots()
      requires Valid()
      modifies this`refs, slots
      ensures Valid() && slots[..] == AllCleared(old(slots[..])) && refs.Keys == old(refs).Keys
      ensures forall x :: x in refs ==> refs[x] + Holding(old(slots[..]), x) == old(refs)[x]
    {
      ghost var before, counts := slots[..], refs;
      ClearedEnds(before, before);
      var i := 0;
      while i < SLOTS
        invariant i <= SLOTS && Valid() && SameSpare(before, counts, slots[..], refs) && ClearedTo(before, slots[..], i)
      {
        ghost var now, nowCounts := slots[..], refs;
        ClearedStep(before, now, i);
        if slots[i].obj.Some? {
          ClearSlot(i);
          SpareTransitive(before, counts, now, nowCounts, slots[..], refs);
        }
        i := i + 1;
      }
      ClearedEnds(before, slots[..]);
      NothingHeld(before);
    }
  }
}

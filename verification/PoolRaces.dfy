/**
 Any number of KePoolAlloc calls, KePoolFree calls and KePoolDestroy calls interleaved at
 their critical sections and at every read of the pool made outside one.
 */
module PoolRaces {
  import opened Arithmetic
  import opened PoolGeometry
  import opened PoolModel

  type Size = n: nat | n > 0 witness 8

  // Where one KePoolAlloc call stands.
  datatype Call =
    | Started
    | Checked                                  // saw the pool alive
    | Empty                                    // popped nothing
    | Sized(seen: nat)                         // has read the slot size
    | Growing(size: Size)                      // saw the pool alive again, and size is not 0
    | Prepared(page: nat, size: Size)          // owns a page whose slots it has linked
    | Failed                                   // the heap had no page
    | Orphaned(page: nat)                      // found the pool dead, still owns its page
    | Popped(slot: nat)                        // holds a slot, not yet cleared
    | Returned(answer: nat)                   // 0 is NULL

  datatype State = State(
    pool: Pool,
    heap: set<nat>,        // pages KeHeapAllocPages can give out
    calls: seq<Call>,
    held: set<nat>,        // objects returned to clients and not freed
    live: set<nat>,        // objects popped and not freed
    detached: seq<nat>)    // pages KePoolDestroy has taken and not yet freed

  datatype Step =
    | Begin
    | Advance(call: nat, heapPage: nat)  // heapPage is used by the call that asks the heap; 0 when it fails
    | FreeObject(x: nat)
    | Destroy
    | FreeDetached

  predicate Enabled(s: State, step: Step) {
    match step
    case Begin => true
    case Advance(i, heapPage) =>
      i < |s.calls| && !s.calls[i].Returned? && (heapPage == 0 || heapPage in s.heap)
    case FreeObject(x) => x in s.held
    case Destroy => true
    case FreeDetached => s.detached != []
  }

  function To(s: State, i: nat, call: Call): State
    requires i < |s.calls|
  {
    s.(calls := s.calls[i := call])
  }

  function Advanced(s: State, i: nat, heapPage: nat): State
    requires Enabled(s, Advance(i, heapPage))
  {
    match s.calls[i]
    case Started => To(s, i, if s.pool.magic != Alive then Returned(0) else Checked)
    case Checked =>
      var (pool, slot) := Pop(s.pool);
      if slot == 0 then To(s, i, Empty)
      else To(s, i, Popped(slot)).(pool := pool, live := s.live + {slot})
    case Empty => To(s, i, Sized(s.pool.slotSize))
    case Sized(size) => To(s, i, if s.pool.magic != Alive || size == 0 then Returned(0) else Growing(size))
    case Growing(size) =>
      if heapPage == 0 || HeaderSize(size) >= PAGE then To(s, i, Failed)
      else To(s, i, Prepared(heapPage, size)).(heap := s.heap - {heapPage})
    case Failed =>
      To(s, i, Returned(0)).(pool := if s.pool.magic == Alive then s.pool.(failed := s.pool.failed + 1) else s.pool)
    case Prepared(page, size) =>
      if s.pool.magic != Alive then To(s, i, Orphaned(page))
      else
        var (pool, slot) := Pop(Attach(s.pool, page, PageSlots(page, size)));
        To(s, i, Popped(slot)).(pool := pool, live := s.live + {slot})
    case Orphaned(page) => To(s, i, Returned(0)).(heap := s.heap + {page})
    case Popped(slot) => To(s, i, Returned(slot)).(held := s.held + {slot})
    case Returned(_) => s
  }

  function Apply(s: State, step: Step): State
    requires Enabled(s, step)
  {
    match step
    case Begin => s.(calls := s.calls + [Started])
    case Advance(i, heapPage) => Advanced(s, i, heapPage)
    case FreeObject(x) =>
      if s.pool.used == 0 then s  // the kernel stops here; UsedWhenHeld shows that it never comes to this
      else s.(pool := Release(s.pool, x), held := s.held - {x}, live := s.live - {x})
    case Destroy =>
      if !CanDestroy(s.pool) then s
      else s.(pool := DEAD_POOL, detached := s.detached + s.pool.pages)
    case FreeDetached => s.(heap := s.heap + {s.detached[0]}, detached := s.detached[1..])
  }

  predicate Runs(s: State, steps: seq<Step>)
    decreases |steps|
  {
    steps == [] || (Enabled(s, steps[0]) && Runs(Apply(s, steps[0]), steps[1..]))
  }

  function Run(s: State, steps: seq<Step>): State
    requires Runs(s, steps)
    decreases |steps|
  {
    if steps == [] then s else Run(Apply(s, steps[0]), steps[1..])
  }

  // ---------------------------------------------------------------- who holds what

  function PageInHand(call: Call): multiset<nat> {
    match call
    case Prepared(page, _) => multiset{page}
    case Orphaned(page) => multiset{page}
    case _ => multiset{}
  }

  function SlotInHand(call: Call): multiset<nat> {
    if call.Popped? then multiset{call.slot} else multiset{}
  }

  function Bag(calls: seq<Call>, hand: Call -> multiset<nat>): multiset<nat> {
    if calls == [] then multiset{} else hand(calls[0]) + Bag(calls[1..], hand)
  }

  lemma {:induction false} BagUpdate(calls: seq<Call>, hand: Call -> multiset<nat>, i: nat, call: Call, x: nat)
    requires i < |calls|
    ensures Bag(calls[i := call], hand)[x] + hand(calls[i])[x] == Bag(calls, hand)[x] + hand(call)[x]
    ensures hand(calls[i])[x] <= Bag(calls, hand)[x]
  {
    if i == 0 {
      assert calls[i := call][1..] == calls[1..];
    } else {
      assert calls[i := call][1..] == calls[1..][i - 1 := call];
      BagUpdate(calls[1..], hand, i - 1, call, x);
    }
  }

  lemma {:induction false} BagHas(calls: seq<Call>, hand: Call -> multiset<nat>, i: nat)
    requires i < |calls|
    ensures hand(calls[i]) <= Bag(calls, hand)
  {
    if i > 0 { BagHas(calls[1..], hand, i - 1); }
  }

  lemma {:induction false} BagAppend(calls: seq<Call>, hand: Call -> multiset<nat>, call: Call)
    requires hand(call) == multiset{}
    ensures Bag(calls + [call], hand) == Bag(calls, hand)
  {
    if calls == [] {
      assert (calls + [call])[1..] == [];
    } else {
      assert (calls + [call])[1..] == calls[1..] + [call];
      BagAppend(calls[1..], hand, call);
    }
  }

  function Pages(calls: seq<Call>): multiset<nat> {
    Bag(calls, PageInHand)
  }

  function Slots(calls: seq<Call>): multiset<nat> {
    Bag(calls, SlotInHand)
  }

  // Every heap page, with the number of places it is in.
  function Places(s: State): multiset<nat> {
    multiset(s.pool.pages) + Pages(s.calls) + multiset(s.detached) + multiset(s.heap)
  }

  // ---------------------------------------------------------------- invariant

  // What a call may believe; S is the slot size the pool was made with.
  ghost predicate CallOk(s: State, size: nat, call: Call) {
    match call
    case Sized(n) => s.pool.magic == Alive ==> n == size
    case Growing(n) => n == size
    case Prepared(_, n) => n == size
    case Popped(_) => s.pool.magic == Alive
    case _ => true
  }

  ghost predicate CallsFine(s: State, size: nat) {
    forall i {:trigger CallOk(s, size, s.calls[i])} :: 0 <= i < |s.calls| ==> CallOk(s, size, s.calls[i])
  }

  // `all` are the heap's pages, `size` the pool's slot size.
  ghost predicate Inv(s: State, all: set<nat>, size: nat) {
    && PoolOk(s.pool, s.live)
    && (s.pool.magic == Alive ==> s.pool.slotSize == size && s.detached == [])
    && (s.pool.magic != Alive ==> s.pool.pages == [])
    && AllBalanced(s, all)
    && (forall page {:trigger PageOk(page)} :: page in all ==> PageOk(page))
    && CallsFine(s, size)
  }

  // ---------------------------------------------------------------- each step keeps it

  lemma Moved(s: State, i: nat, call: Call, x: nat)
    requires i < |s.calls|
    ensures Pages(To(s, i, call).calls)[x] + PageInHand(s.calls[i])[x] == Pages(s.calls)[x] + PageInHand(call)[x]
    ensures Slots(To(s, i, call).calls)[x] + SlotInHand(s.calls[i])[x] == Slots(s.calls)[x] + SlotInHand(call)[x]
    ensures PageInHand(s.calls[i])[x] <= Pages(s.calls)[x] && SlotInHand(s.calls[i])[x] <= Slots(s.calls)[x]
  {
    BagUpdate(s.calls, PageInHand, i, call, x);
    BagUpdate(s.calls, SlotInHand, i, call, x);
  }

  // A page is in one place.
  lemma OnePlace(s: State, all: set<nat>, size: nat, page: nat)
    requires Inv(s, all, size)
    ensures multiset(s.pool.pages)[page] + Pages(s.calls)[page] + multiset(s.detached)[page] + multiset(s.heap)[page]
            == if page in all then 1 else 0
  {
    assert Places(s)[page] == multiset(all)[page];
  }

  lemma CallsOk(s: State, t: State, size: nat, i: nat, call: Call)
    requires i < |s.calls| && t.calls == s.calls[i := call]
    requires s.pool.magic == t.pool.magic && s.pool.slotSize == t.pool.slotSize && CallOk(t, size, call)
    requires CallsFine(s, size)
    ensures CallsFine(t, size)
  {
    forall k | 0 <= k < |t.calls| ensures CallOk(t, size, t.calls[k]) {
      if k != i { assert CallOk(s, size, s.calls[k]); }
    }
  }

  lemma SameCalls(s: State, t: State, size: nat)
    requires CallsFine(s, size) && t.calls == s.calls && s.pool.magic == t.pool.magic
    ensures CallsFine(t, size)
  {
    forall k | 0 <= k < |t.calls| ensures CallOk(t, size, t.calls[k]) {
      assert CallOk(s, size, s.calls[k]);
    }
  }

  // The two balances of Inv, one element at a time.
  ghost predicate Balanced(s: State, all: set<nat>, x: nat) {
    Places(s)[x] == multiset(all)[x] && multiset(s.live)[x] == multiset(s.held)[x] + Slots(s.calls)[x]
  }

  ghost predicate AllBalanced(s: State, all: set<nat>) {
    Places(s) == multiset(all) && multiset(s.live) == multiset(s.held) + Slots(s.calls)
  }

  lemma BalancedAll(s: State, all: set<nat>)
    requires forall x: nat :: Balanced(s, all, x)
    ensures AllBalanced(s, all)
  {
    forall x: nat ensures Places(s)[x] == multiset(all)[x] { assert Balanced(s, all, x); }
    forall x: nat ensures multiset(s.live)[x] == (multiset(s.held) + Slots(s.calls))[x] { assert Balanced(s, all, x); }
  }

  // Call i moves on; what the pool and the heap lose at x, the call gains, and the other way round.
  ghost predicate Traded(s: State, t: State, i: nat, call: Call, x: nat)
    requires i < |s.calls|
  {
    && multiset(t.pool.pages)[x] + PageInHand(call)[x] + multiset(t.heap)[x]
       == multiset(s.pool.pages)[x] + PageInHand(s.calls[i])[x] + multiset(s.heap)[x]
    && multiset(t.live)[x] + multiset(s.held)[x] + SlotInHand(s.calls[i])[x]
       == multiset(s.live)[x] + multiset(t.held)[x] + SlotInHand(call)[x]
  }

  lemma TradeAt(s: State, t: State, all: set<nat>, i: nat, call: Call, x: nat)
    requires Balanced(s, all, x) && i < |s.calls| && t.calls == s.calls[i := call] && t.detached == s.detached
    requires Traded(s, t, i, call, x)
    ensures Balanced(t, all, x)
  {
    Moved(s, i, call, x);
  }

  lemma TradeBalances(s: State, t: State, all: set<nat>, i: nat, call: Call)
    requires AllBalanced(s, all) && i < |s.calls| && t.calls == s.calls[i := call] && t.detached == s.detached
    requires forall x: nat :: Traded(s, t, i, call, x)
    ensures AllBalanced(t, all)
  {
    forall x: nat ensures Balanced(t, all, x) {
      assert Traded(s, t, i, call, x);
      assert Places(s)[x] == multiset(all)[x];
      TradeAt(s, t, all, i, call, x);
    }
    BalancedAll(t, all);
  }

  lemma TradeKeeps(s: State, t: State, all: set<nat>, size: nat, i: nat, call: Call)
    requires Inv(s, all, size) && i < |s.calls| && t.calls == s.calls[i := call] && t.detached == s.detached
    requires s.pool.magic == t.pool.magic && s.pool.slotSize == t.pool.slotSize && CallOk(t, size, call)
    requires t.pool.magic != Alive ==> t.pool.pages == s.pool.pages
    requires PoolOk(t.pool, t.live) && forall x: nat :: Traded(s, t, i, call, x)
    ensures Inv(t, all, size)
  {
    TradeBalances(s, t, all, i, call);
    CallsOk(s, t, size, i, call);
  }

  // The call goes on with nothing in hand before or after, or with the same in hand.
  lemma EmptyHanded(s: State, t: State, all: set<nat>, size: nat, i: nat, call: Call)
    requires Inv(s, all, size) && i < |s.calls|
    requires t == To(s, i, call) || t == To(s, i, call).(pool := s.pool.(failed := s.pool.failed + 1))
    requires PageInHand(s.calls[i]) == PageInHand(call) && SlotInHand(s.calls[i]) == SlotInHand(call)
    requires CallOk(s, size, call)
    ensures Inv(t, all, size)
  {
    if s.pool.magic == Alive {
      OtherFields(s.pool, s.live, s.pool.magic, t.pool.failed);
    }
    forall x: nat ensures Traded(s, t, i, call, x) {}
    TradeKeeps(s, t, all, size, i, call);
  }

  predicate Bare(call: Call) {
    !call.Prepared? && !call.Orphaned? && !call.Popped?
  }

  lemma BareKeeps(s: State, t: State, all: set<nat>, size: nat, i: nat, call: Call)
    requires Inv(s, all, size) && i < |s.calls| && Bare(s.calls[i]) && Bare(call) && CallOk(s, size, call)
    requires t == To(s, i, call) || t == To(s, i, call).(pool := s.pool.(failed := s.pool.failed + 1))
    ensures Inv(t, all, size)
  {
    EmptyHanded(s, t, all, size, i, call);
  }

  lemma OneMore(a: set<nat>, y: nat, x: nat)
    requires y !in a
    ensures multiset(a + {y})[x] == multiset(a)[x] + if x == y then 1 else 0
  {}

  lemma PopKeeps(s: State, all: set<nat>, size: nat, i: nat)
    requires Inv(s, all, size) && i < |s.calls| && s.calls[i].Checked? && s.pool.magic == Alive && s.pool.free != []
    ensures var slot := s.pool.free[0];
            && slot > 0
            && Inv(To(s, i, Popped(slot)).(pool := Pop(s.pool).0, live := s.live + {slot}), all, size)
  {
    var slot := s.pool.free[0];
    var t := To(s, i, Popped(slot)).(pool := Pop(s.pool).0, live := s.live + {slot});
    PopOk(s.pool, s.live);
    forall x: nat ensures Traded(s, t, i, Popped(slot), x) {}
    TradeKeeps(s, t, all, size, i, Popped(slot));
  }

  lemma TakePageKeeps(s: State, all: set<nat>, size: nat, i: nat, page: nat)
    requires Inv(s, all, size) && i < |s.calls| && s.calls[i].Growing? && page in s.heap
    ensures Inv(To(s, i, Prepared(page, s.calls[i].size)).(heap := s.heap - {page}), all, size)
  {
    var call := Prepared(page, s.calls[i].size);
    var t := To(s, i, call).(heap := s.heap - {page});
    assert CallOk(s, size, s.calls[i]);
    forall x: nat ensures Traded(s, t, i, call, x) {}
    TradeKeeps(s, t, all, size, i, call);
  }

  lemma PublishTraded(s: State, t: State, i: nat, page: nat, slot: nat, x: nat)
    requires i < |s.calls| && s.calls[i].Prepared? && s.calls[i].page == page && slot !in s.live
    requires t.pool.pages == [page] + s.pool.pages && t.heap == s.heap && t.held == s.held && t.live == s.live + {slot}
    ensures Traded(s, t, i, Popped(slot), x)
  {
    OneMore(s.live, slot, x);
    assert multiset([page] + s.pool.pages)[x] == multiset{page}[x] + multiset(s.pool.pages)[x];
  }

  lemma PublishKeeps(s: State, all: set<nat>, size: nat, i: nat)
    requires Inv(s, all, size) && i < |s.calls| && s.calls[i].Prepared? && s.pool.magic == Alive
    ensures s.pool.slotSize == s.calls[i].size && s.calls[i].page !in s.pool.pages
    ensures var grown := Publish(s.pool, s.calls[i].page);
            && grown.free != []
            && Inv(To(s, i, Popped(grown.free[0])).(pool := Pop(grown).0, live := s.live + {grown.free[0]}), all, size)
  {
    var page := s.calls[i].page;
    assert CallOk(s, size, s.calls[i]);
    Moved(s, i, Started, page);
    assert PageInHand(s.calls[i])[page] == 1;
    OnePlace(s, all, size, page);
    assert PageOk(page);
    var grown := Publish(s.pool, page);
    PublishOk(s.pool, s.live, page);
    PopOk(grown, s.live);
    var slot := grown.free[0];
    var t := To(s, i, Popped(slot)).(pool := Pop(grown).0, live := s.live + {slot});
    forall x: nat ensures Traded(s, t, i, Popped(slot), x) {
      PublishTraded(s, t, i, page, slot, x);
    }
    TradeKeeps(s, t, all, size, i, Popped(slot));
  }

  lemma OrphanTraded(s: State, t: State, i: nat, page: nat, x: nat)
    requires i < |s.calls| && s.calls[i] == Orphaned(page) && page !in s.heap
    requires t == To(s, i, Returned(0)).(heap := s.heap + {page})
    ensures Traded(s, t, i, Returned(0), x)
  {
    OneMore(s.heap, page, x);
  }

  lemma OrphanKeeps(s: State, all: set<nat>, size: nat, i: nat)
    requires Inv(s, all, size) && i < |s.calls| && s.calls[i].Orphaned?
    ensures Inv(To(s, i, Returned(0)).(heap := s.heap + {s.calls[i].page}), all, size) && s.calls[i].page !in s.heap
  {
    var page := s.calls[i].page;
    var t := To(s, i, Returned(0)).(heap := s.heap + {page});
    Moved(s, i, Started, page);
    assert PageInHand(s.calls[i])[page] == 1;
    OnePlace(s, all, size, page);
    forall x: nat ensures Traded(s, t, i, Returned(0), x) {
      OrphanTraded(s, t, i, page, x);
    }
    TradeKeeps(s, t, all, size, i, Returned(0));
  }

  lemma ReturnTraded(s: State, t: State, i: nat, slot: nat, x: nat)
    requires i < |s.calls| && s.calls[i] == Popped(slot) && slot !in s.held
    requires t == To(s, i, Returned(slot)).(held := s.held + {slot})
    ensures Traded(s, t, i, Returned(slot), x)
  {
    OneMore(s.held, slot, x);
  }

  // The memset of a slot: the pool cannot have been destroyed, so its slot size still stands.
  lemma ReturnKeeps(s: State, all: set<nat>, size: nat, i: nat)
    requires Inv(s, all, size) && i < |s.calls| && s.calls[i].Popped?
    ensures var x := s.calls[i].slot;
            && Inv(To(s, i, Returned(x)).(held := s.held + {x}), all, size)
            && x in s.live && x !in s.held && s.pool.magic == Alive && s.pool.slotSize == size
  {
    var slot := s.calls[i].slot;
    var t := To(s, i, Returned(slot)).(held := s.held + {slot});
    assert CallOk(s, size, s.calls[i]);
    Moved(s, i, Started, slot);
    assert SlotInHand(s.calls[i])[slot] == 1;
    assert multiset(s.live)[slot] == multiset(s.held)[slot] + Slots(s.calls)[slot];
    forall x: nat ensures Traded(s, t, i, Returned(slot), x) {
      ReturnTraded(s, t, i, slot, x);
    }
    TradeKeeps(s, t, all, size, i, Returned(slot));
  }

  lemma TakingKeeps(s: State, t: State, all: set<nat>, size: nat, i: nat, heapPage: nat)
    requires Inv(s, all, size) && Enabled(s, Advance(i, heapPage)) && t == Advanced(s, i, heapPage)
    requires s.calls[i].Checked? || s.calls[i].Growing?
    ensures Inv(t, all, size)
  {
    if t == To(s, i, Empty) {
      BareKeeps(s, t, all, size, i, Empty);
    } else if t == To(s, i, Failed) {
      BareKeeps(s, t, all, size, i, Failed);
    } else if s.calls[i].Checked? {
      PopKeeps(s, all, size, i);
    } else {
      TakePageKeeps(s, all, size, i, heapPage);
    }
  }

  lemma PreparedKeeps(s: State, t: State, all: set<nat>, size: nat, i: nat)
    requires Inv(s, all, size) && Enabled(s, Advance(i, 0)) && t == Advanced(s, i, 0) && s.calls[i].Prepared?
    ensures Inv(t, all, size)
  {
    if s.pool.magic == Alive {
      PublishKeeps(s, all, size, i);
      PopFirst(Publish(s.pool, s.calls[i].page));
    } else {
      EmptyHanded(s, t, all, size, i, Orphaned(s.calls[i].page));
    }
  }

  lemma OrphanedKeeps(s: State, t: State, all: set<nat>, size: nat, i: nat)
    requires Inv(s, all, size) && Enabled(s, Advance(i, 0)) && t == Advanced(s, i, 0) && s.calls[i].Orphaned?
    ensures Inv(t, all, size)
  {
    OrphanKeeps(s, all, size, i);
  }

  lemma PoppedKeeps(s: State, t: State, all: set<nat>, size: nat, i: nat)
    requires Inv(s, all, size) && Enabled(s, Advance(i, 0)) && t == Advanced(s, i, 0) && s.calls[i].Popped?
    ensures Inv(t, all, size)
  {
    ReturnKeeps(s, all, size, i);
  }

  predicate Idle(call: Call) {
    call.Started? || call.Empty? || call.Sized? || call.Failed?
  }

  lemma StartedKeeps(s: State, t: State, all: set<nat>, size: nat, i: nat)
    requires Inv(s, all, size) && Enabled(s, Advance(i, 0)) && t == Advanced(s, i, 0) && s.calls[i].Started?
    ensures Inv(t, all, size)
  {
    BareKeeps(s, t, all, size, i, if s.pool.magic != Alive then Returned(0) else Checked);
  }

  lemma EmptyKeeps(s: State, t: State, all: set<nat>, size: nat, i: nat)
    requires Inv(s, all, size) && Enabled(s, Advance(i, 0)) && t == Advanced(s, i, 0) && s.calls[i].Empty?
    ensures Inv(t, all, size)
  {
    BareKeeps(s, t, all, size, i, Sized(s.pool.slotSize));
  }

  lemma SizedKeeps(s: State, t: State, all: set<nat>, size: nat, i: nat)
    requires Inv(s, all, size) && Enabled(s, Advance(i, 0)) && t == Advanced(s, i, 0) && s.calls[i].Sized?
    ensures Inv(t, all, size)
  {
    assert CallOk(s, size, s.calls[i]);
    var n := s.calls[i].seen;
    BareKeeps(s, t, all, size, i, if s.pool.magic != Alive || n == 0 then Returned(0) else Growing(n));
  }

  lemma FailedKeeps(s: State, t: State, all: set<nat>, size: nat, i: nat)
    requires Inv(s, all, size) && Enabled(s, Advance(i, 0)) && t == Advanced(s, i, 0) && s.calls[i].Failed?
    ensures Inv(t, all, size)
  {
    BareKeeps(s, t, all, size, i, Returned(0));
  }

  lemma IdleKeeps(s: State, t: State, all: set<nat>, size: nat, i: nat)
    requires Inv(s, all, size) && Enabled(s, Advance(i, 0)) && t == Advanced(s, i, 0) && Idle(s.calls[i])
    ensures Inv(t, all, size)
  {
    match s.calls[i]
    case Started => StartedKeeps(s, t, all, size, i);
    case Empty => EmptyKeeps(s, t, all, size, i);
    case Sized(_) => SizedKeeps(s, t, all, size, i);
    case Failed => FailedKeeps(s, t, all, size, i);
  }

  lemma AdvanceKeeps(s: State, t: State, all: set<nat>, size: nat, i: nat, heapPage: nat)
    requires Inv(s, all, size) && Enabled(s, Advance(i, heapPage)) && t == Advanced(s, i, heapPage)
    ensures Inv(t, all, size)
  {
    if Idle(s.calls[i]) {
      IdleKeeps(s, t, all, size, i);
    } else if s.calls[i].Checked? || s.calls[i].Growing? {
      TakingKeeps(s, t, all, size, i, heapPage);
    } else if s.calls[i].Prepared? {
      PreparedKeeps(s, t, all, size, i);
    } else if s.calls[i].Orphaned? {
      OrphanedKeeps(s, t, all, size, i);
    } else {
      PoppedKeeps(s, t, all, size, i);
    }
  }

  lemma PopFirst(p: Pool)
    requires p.magic == Alive && p.free != []
    ensures Pop(p).1 == p.free[0]
  {}

  // KePoolFree's assertion holds whenever a client frees an object it has.
  lemma UsedWhenHeld(s: State, all: set<nat>, size: nat, x: nat)
    requires Inv(s, all, size) && x in s.held
    ensures x in s.live && s.pool.magic == Alive && s.pool.used > 0
  {
    assert multiset(s.live)[x] == multiset(s.held)[x] + Slots(s.calls)[x];
  }

  lemma FreeKeeps(s: State, all: set<nat>, size: nat, x: nat)
    requires Inv(s, all, size) && x in s.held
    ensures Inv(Apply(s, FreeObject(x)), all, size)
  {
    var t := Apply(s, FreeObject(x));
    UsedWhenHeld(s, all, size, x);
    ReleaseOk(s.pool, s.live, x);
    assert multiset(t.live) == multiset(s.live) - multiset{x};
    assert multiset(t.held) == multiset(s.held) - multiset{x};
    SameCalls(s, t, size);
  }

  lemma DestroyKeeps(s: State, all: set<nat>, size: nat)
    requires Inv(s, all, size) && CanDestroy(s.pool)
    ensures Inv(Apply(s, Destroy), all, size) && s.held == {} && s.live == {}
  {
    var t := Apply(s, Destroy);
    DestroyOk(s.pool, s.live);
    assert s.held == {} && Slots(s.calls) == multiset{} by {
      assert multiset(s.live) == multiset{};
      assert forall x :: x in s.held ==> multiset(s.held)[x] == 1;
    }
    assert t.detached == s.pool.pages && multiset(t.pool.pages) == multiset{};
    forall k | 0 <= k < |t.calls| ensures CallOk(t, size, t.calls[k]) {
      assert CallOk(s, size, s.calls[k]);
      BagHas(s.calls, SlotInHand, k);
    }
  }

  lemma FreeDetachedKeeps(s: State, all: set<nat>, size: nat)
    requires Inv(s, all, size) && s.detached != []
    ensures Inv(Apply(s, FreeDetached), all, size) && s.detached[0] !in s.heap
  {
    var t, page := Apply(s, FreeDetached), s.detached[0];
    assert s.detached == [page] + t.detached;
    assert multiset(s.detached) == multiset{page} + multiset(t.detached);
    OnePlace(s, all, size, page);
    assert multiset(t.heap) == multiset(s.heap) + multiset{page};
    SameCalls(s, t, size);
  }

  lemma BeginCalls(s: State, t: State, size: nat)
    requires CallsFine(s, size) && t == s.(calls := s.calls + [Started])
    ensures CallsFine(t, size) && Pages(t.calls) == Pages(s.calls) && Slots(t.calls) == Slots(s.calls)
  {
    BagAppend(s.calls, PageInHand, Started);
    BagAppend(s.calls, SlotInHand, Started);
    forall k | 0 <= k < |t.calls| ensures CallOk(t, size, t.calls[k]) {
      if k < |s.calls| { assert CallOk(s, size, s.calls[k]); }
    }
  }

  lemma BeginKeeps(s: State, all: set<nat>, size: nat)
    requires Inv(s, all, size)
    ensures Inv(Apply(s, Begin), all, size)
  {
    BeginCalls(s, Apply(s, Begin), size);
  }

  lemma ApplyKeeps(s: State, step: Step, all: set<nat>, size: nat)
    requires Inv(s, all, size) && Enabled(s, step)
    ensures Inv(Apply(s, step), all, size)
  {
    match step {
      case Begin => BeginKeeps(s, all, size);
      case Advance(i, heapPage) => AdvanceKeeps(s, Apply(s, step), all, size, i, heapPage);
      case FreeObject(x) => FreeKeeps(s, all, size, x);
      case Destroy => if CanDestroy(s.pool) { DestroyKeeps(s, all, size); }
      case FreeDetached => FreeDetachedKeeps(s, all, size);
    }
  }

  // ---------------------------------------------------------------- whole runs

  lemma {:induction false} RunKeeps(s: State, steps: seq<Step>, all: set<nat>, size: nat)
    requires Inv(s, all, size) && Runs(s, steps)
    ensures Inv(Run(s, steps), all, size)
    decreases |steps|
  {
    if steps != [] {
      ApplyKeeps(s, steps[0], all, size);
      RunKeeps(Apply(s, steps[0]), steps[1..], all, size);
    }
  }

  // Once the pool is dead it stays so, no call returns an object any more, and the objects returned before are
  // all freed.
  lemma {:induction false} DeadStays(s: State, steps: seq<Step>, all: set<nat>, size: nat, i: nat)
    requires Inv(s, all, size) && s.pool.magic == Dead && Runs(s, steps)
    ensures var t := Run(s, steps);
            && t.pool.magic == Dead && t.held == {} && |s.calls| <= |t.calls|
            && (i < |t.calls| && t.calls[i].Returned? && t.calls[i].answer != 0 ==>
                  i < |s.calls| && s.calls[i] == t.calls[i])
    decreases |steps|
  {
    if steps == [] {
      if s.held != {} {
        var x :| x in s.held;
        UsedWhenHeld(s, all, size, x);
      }
    } else {
      var t := Apply(s, steps[0]);
      ApplyKeeps(s, steps[0], all, size);
      DeadStep(s, steps[0], all, size, i);
      DeadStays(t, steps[1..], all, size, i);
    }
  }

  lemma DeadStep(s: State, step: Step, all: set<nat>, size: nat, i: nat)
    requires Inv(s, all, size) && s.pool.magic == Dead && Enabled(s, step)
    ensures var t := Apply(s, step);
            && t.pool.magic == Dead && |s.calls| <= |t.calls|
            && (i < |t.calls| && t.calls[i].Returned? && t.calls[i].answer != 0 ==>
                  i < |s.calls| && s.calls[i] == t.calls[i])
  {
    match step {
      case FreeObject(x) => UsedWhenHeld(s, all, size, x);
      case Advance(k, _) => assert CallOk(s, size, s.calls[k]);
      case _ =>
    }
  }

  lemma {:induction false} NoHands(calls: seq<Call>)
    requires forall i :: 0 <= i < |calls| ==> calls[i].Returned?
    ensures Pages(calls) == multiset{}
  {
    if calls != [] { NoHands(calls[1..]); }
  }

  lemma {:induction false} OnceEach(pages: seq<nat>)
    requires NoDup(pages)
    ensures multiset(pages) == multiset(set page | page in pages)
  {
    if pages != [] {
      var rest := pages[1..];
      NoDupTail(pages);
      OnceEach(rest);
      assert pages == [pages[0]] + rest;
      assert (set page | page in pages) == {pages[0]} + set page | page in rest;
    }
  }

  // ---------------------------------------------------------------- from the pool KePoolInit leaves

  // A slot size, the pages KePoolInit was given, and the pages left in the heap.
  ghost predicate CanStart(size: nat, given: seq<nat>, rest: set<nat>) {
    && size > 0 && size % 8 == 0 && size + 8 <= WORD_LIMIT && SlotsPerPage(size) > 0
    && NoDup(given) && (forall page :: page in given ==> PageOk(page) && page !in rest)
    && (forall page :: page in rest ==> PageOk(page))
  }

  // KePoolInit has succeeded and nothing else has happened.
  ghost function Start(size: nat, given: seq<nat>, rest: set<nat>): State
    requires size > 0
  {
    State(Filled(NewPool(size), given).(magic := Alive), rest, [], {}, {}, [])
  }

  ghost function AllPages(given: seq<nat>, rest: set<nat>): set<nat> {
    rest + set page | page in given
  }

  lemma StartPool(size: nat, given: seq<nat>, rest: set<nat>)
    requires CanStart(size, given, rest)
    ensures var p := Start(size, given, rest).pool;
            Sound(p, {}) && p.slotSize == size && forall x :: x in p.pages <==> x in given
  {
    var p := Filled(NewPool(size), given);
    NewPoolOk(size);
    FilledSound(NewPool(size), given);
    OtherFields(p, {}, Alive, p.failed);
  }

  lemma StartPlaces(s: State, given: seq<nat>, rest: set<nat>)
    requires NoDup(s.pool.pages) && (forall x :: x in s.pool.pages <==> x in given)
    requires forall x :: x in given ==> x !in rest
    requires s.calls == [] && s.detached == [] && s.heap == rest
    ensures Places(s) == multiset(AllPages(given, rest))
  {
    OnceEach(s.pool.pages);
    forall x ensures Places(s)[x] == multiset(AllPages(given, rest))[x] {
      assert x in s.pool.pages <==> x in given;
    }
  }

  lemma StartOk(size: nat, given: seq<nat>, rest: set<nat>)
    requires CanStart(size, given, rest)
    ensures Inv(Start(size, given, rest), AllPages(given, rest), size)
  {
    StartPool(size, given, rest);
    StartPlaces(Start(size, given, rest), given, rest);
  }

  lemma Reachable(size: nat, given: seq<nat>, rest: set<nat>, steps: seq<Step>)
    requires CanStart(size, given, rest) && Runs(Start(size, given, rest), steps)
    ensures Inv(Run(Start(size, given, rest), steps), AllPages(given, rest), size)
  {
    StartOk(size, given, rest);
    RunKeeps(Start(size, given, rest), steps, AllPages(given, rest), size);
  }

  // In every reachable state each heap page is in exactly one place: the pool's page list, one
  // call's hands, the detached list, or free.
  lemma RunPartition(size: nat, given: seq<nat>, rest: set<nat>, steps: seq<Step>, page: nat)
    requires CanStart(size, given, rest) && Runs(Start(size, given, rest), steps) && page in AllPages(given, rest)
    ensures var t := Run(Start(size, given, rest), steps);
            && multiset(t.pool.pages)[page] + Pages(t.calls)[page] + multiset(t.detached)[page]
               + (if page in t.heap then 1 else 0) == 1
  {
    Reachable(size, given, rest, steps);
    OnePlace(Run(Start(size, given, rest), steps), AllPages(given, rest), size, page);
  }

  // Once a destroy has succeeded no call returns an object any more, and no object is left in use.
  lemma NothingAfterDestroy(size: nat, given: seq<nat>, rest: set<nat>, before: seq<Step>, after: seq<Step>, i: nat)
    requires CanStart(size, given, rest) && Runs(Start(size, given, rest), before)
    requires Run(Start(size, given, rest), before).pool.magic == Dead
    requires Runs(Run(Start(size, given, rest), before), after)
    ensures var s := Run(Start(size, given, rest), before);
            var t := Run(s, after);
            && t.pool.magic == Dead && t.held == {} && |s.calls| <= |t.calls|
            && (i < |t.calls| && t.calls[i].Returned? && t.calls[i].answer != 0 ==>
                  i < |s.calls| && s.calls[i] == t.calls[i])
  {
    Reachable(size, given, rest, before);
    DeadStays(Run(Start(size, given, rest), before), after, AllPages(given, rest), size, i);
  }

  // After a destroy has freed its pages and every call has returned, the heap has all its pages again.
  lemma AllPagesBack(size: nat, given: seq<nat>, rest: set<nat>, steps: seq<Step>)
    requires CanStart(size, given, rest) && Runs(Start(size, given, rest), steps)
    requires var t := Run(Start(size, given, rest), steps);
             t.pool.magic == Dead && t.detached == [] && forall i :: 0 <= i < |t.calls| ==> t.calls[i].Returned?
    ensures Run(Start(size, given, rest), steps).heap == AllPages(given, rest)
  {
    var t, all := Run(Start(size, given, rest), steps), AllPages(given, rest);
    Reachable(size, given, rest, steps);
    NoHands(t.calls);
    forall page ensures page in t.heap <==> page in all {
      OnePlace(t, all, size, page);
    }
  }
}

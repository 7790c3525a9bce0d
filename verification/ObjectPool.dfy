/**
 The kernel object pool in place (ke/mm/pool.c): free slots and pages are linked through
 their own first word.  Each method leaves the lists that PoolModel says it should, and no
 method touches a word of an object that is in use.
 */
module ObjectPool {
  import opened Arithmetic
  import opened PoolGeometry
  import opened PoolModel
  import opened Status

  type Memory = map<nat, nat>

  // The 64-bit word at an address.
  function At(words: Memory, a: nat): nat {
    if a in words then words[a] else 0
  }

  function First(s: seq<nat>): nat {
    if s == [] then 0 else s[0]
  }

  ghost predicate Node(words: Memory, s: seq<nat>, i: nat)
    requires i < |s|
  {
    s[i] > 0 && At(words, s[i]) == if i + 1 < |s| then s[i + 1] else 0
  }

  // The list from head runs through exactly the nodes s and ends in NULL.
  ghost predicate Linked(words: Memory, head: nat, s: seq<nat>) {
    head == First(s) && forall i {:trigger Node(words, s, i)} :: 0 <= i < |s| ==> Node(words, s, i)
  }

  lemma LinkedHead(words: Memory, head: nat, s: seq<nat>)
    requires Linked(words, head, s)
    ensures head == 0 <==> s == []
    ensures s != [] ==> head == s[0]
  {
    if s != [] {
      assert Node(words, s, 0);
    }
  }

  lemma LinkedTail(words: Memory, head: nat, s: seq<nat>)
    requires Linked(words, head, s) && s != []
    ensures Linked(words, At(words, head), s[1..])
  {
    assert Node(words, s, 0);
    forall i | 0 <= i < |s[1..]| ensures Node(words, s[1..], i) {
      assert Node(words, s, i + 1);
    }
  }

  lemma LinkedCons(words: Memory, head: nat, s: seq<nat>, x: nat)
    requires Linked(words, head, s) && x > 0 && x !in s
    ensures Linked(words[x := head], x, [x] + s)
  {
    var t, w := [x] + s, words[x := head];
    LinkedHead(words, head, s);
    forall i | 0 <= i < |t| ensures Node(w, t, i) {
      if i > 0 {
        assert t[i] == s[i - 1] && Node(words, s, i - 1);
      }
    }
  }

  lemma LinkedConcat(words: Memory, a: seq<nat>, head: nat, b: seq<nat>, tail: nat)
    requires a != [] && NoDup(a) && tail == a[|a| - 1] && tail !in b
    requires Linked(words, a[0], a) && Linked(words, head, b)
    ensures Linked(words[tail := head], a[0], a + b)
  {
    var t, w := a + b, words[tail := head];
    LinkedHead(words, head, b);
    forall i | 0 <= i < |t| ensures Node(w, t, i) {
      if i >= |a| {
        assert t[i] == b[i - |a|] && Node(words, b, i - |a|);
      } else {
        assert Node(words, a, i);
        if i + 1 < |a| {
          assert Differ(a, i, |a| - 1);
        }
      }
    }
  }

  ghost predicate SameAt(words: Memory, after: Memory, s: seq<nat>) {
    forall x :: x in s ==> At(after, x) == At(words, x)
  }

  lemma LinkedSame(words: Memory, after: Memory, head: nat, s: seq<nat>)
    requires Linked(words, head, s) && SameAt(words, after, s)
    ensures Linked(after, head, s)
  {
    forall i | 0 <= i < |s| ensures Node(after, s, i) {
      assert Node(words, s, i) && s[i] in s;
    }
  }

  // Only words of [from, to) differ.
  ghost predicate ChangedWithin(words: Memory, after: Memory, from: nat, to: nat) {
    forall a: nat :: !(from <= a < to) ==> At(after, a) == At(words, a)
  }

  // The contents of every object in `live` are untouched.
  ghost predicate ContentsKept(words: Memory, after: Memory, live: set<nat>, slotSize: nat) {
    forall x, a: nat :: x in live && x <= a < x + slotSize ==> At(after, a) == At(words, a)
  }

  function Zeroed(words: Memory, x: nat, size: nat): (r: Memory)
    ensures ChangedWithin(words, r, x, x + size)
    ensures forall a :: x <= a < x + size && a % 8 == 0 ==> At(r, a) == 0
  {
    words + map a: nat | x <= a < x + size && a % 8 == 0 :: 0
  }

  // ---------------------------------------------------------------- where slots and headers lie

  // One turn of the loop that links a new page's slots.
  lemma ChainStep(words: Memory, head: nat, page: nat, slotSize: nat, n: nat)
    requires slotSize > 0 && slotSize % 8 == 0 && slotSize + 8 <= WORD_LIMIT && page % PAGE == 0
    requires n < SlotsPerPage(slotSize) && Linked(words, head, Chain(page, slotSize, n))
    ensures var slot := SlotAt(page, slotSize, n);
            && page < slot < page + PAGE && Linked(words[slot := head], slot, Chain(page, slotSize, n + 1))
  {
    var slot, chain := SlotAt(page, slotSize, n), Chain(page, slotSize, n);
    SlotsInPage(page, slotSize, n, n);
    if slot in chain {
      var k :| 0 <= k < n && chain[k] == slot;
      SlotsInPage(page, slotSize, n - 1 - k, n);
    }
    LinkedCons(words, head, chain, slot);
    assert [slot] + chain == Chain(page, slotSize, n + 1);
  }

  lemma PublishMemory(
      p: Pool, live: set<nat>, words: Memory, page: nat, freeList: nat, pageList: nat, head: nat, tail: nat)
    requires Sound(p, live) && page > 0 && page % PAGE == 0 && page !in p.pages
    requires Linked(words, freeList, p.free) && Linked(words, pageList, p.pages)
    requires Linked(words, head, PageSlots(page, p.slotSize))
    requires tail == PageSlots(page, p.slotSize)[p.slotsPerPage - 1]
    ensures var after := words[tail := freeList][page := pageList];
            && Linked(after, head, PageSlots(page, p.slotSize) + p.free)
            && Linked(after, page, [page] + p.pages) && ContentsKept(words, after, live, p.slotSize)
  {
    var slots, w := PageSlots(page, p.slotSize), words[tail := freeList];
    PageSlotsOk(page, p.slotSize, tail);
    SlotPage(p.slotSize, page, tail);
    if tail in p.free {
      assert IsSlot(p, tail);
      SlotOutside(p, tail, page);
    }
    LinkedConcat(words, slots, freeList, p.free, tail);
    PageWriteLocal(p, live, words, w, page);
    LinkedSame(words, w, pageList, p.pages);
    LinkedCons(w, pageList, p.pages, page);
    var after := w[page := pageList];
    PageWriteLocal(p, live, words, after, page);
    forall x | x in slots + p.free ensures At(after, x) == At(w, x) {
      PageSlotsOk(page, p.slotSize, x);
      if x in slots { SlotPage(p.slotSize, page, x); } else { assert IsSlot(p, x); SlotOutside(p, x, page); }
    }
    LinkedSame(w, after, head, slots + p.free);
  }

  lemma ReleaseMemory(p: Pool, live: set<nat>, words: Memory, freeList: nat, pageList: nat, x: nat)
    requires Sound(p, live) && x in live && Linked(words, freeList, p.free) && Linked(words, pageList, p.pages)
    ensures Linked(words[x := freeList], x, [x] + p.free) && Linked(words[x := freeList], pageList, p.pages)
    ensures ContentsKept(words, words[x := freeList], live - {x}, p.slotSize)
  {
    LiveNotNull(p, live);
    assert IsSlot(p, x);
    LinkedCons(words, freeList, p.free, x);
    SlotWriteLocal(p, live, words, words[x := freeList], x);
    LinkedSame(words, words[x := freeList], pageList, p.pages);
  }

  lemma LiveApart(p: Pool, live: set<nat>, x: nat)
    requires Sound(p, live) && x in live
    ensures IsSlot(p, x) && x % 8 == 0
    ensures forall y :: y in live && y != x ==> y + p.slotSize <= x || x + p.slotSize <= y
  {
    assert IsSlot(p, x);
    var k :| 0 <= k < |p.pages| && SlotOf(p.slotSize, p.pages[k], x);
    assert PageOk(p.pages[k]);
    SlotPage(p.slotSize, p.pages[k], x);
    forall y | y in live && y != x ensures y + p.slotSize <= x || x + p.slotSize <= y {
      assert IsSlot(p, y);
      if x < y { SlotsApart(p, x, y); } else { SlotsApart(p, y, x); }
    }
  }

  lemma HeaderFits(p: Pool)
    requires Geometry(p)
    ensures HeaderSize(p.slotSize) < PAGE
  {}

  lemma LiveNotNull(p: Pool, live: set<nat>)
    requires Sound(p, live)
    ensures 0 !in live
  {
    if 0 in live {
      assert IsSlot(p, 0);
      SlotPositive(p, 0);
    }
  }

  lemma SlotOutside(p: Pool, x: nat, page: nat)
    requires Geometry(p) && PagesOk(p.pages) && IsSlot(p, x) && page % PAGE == 0 && page !in p.pages
    ensures x + p.slotSize <= page || page + PAGE <= x
  {
    var k :| 0 <= k < |p.pages| && SlotOf(p.slotSize, p.pages[k], x);
    assert PageOk(p.pages[k]);
    SlotPage(p.slotSize, p.pages[k], x);
    if page < p.pages[k] { PagesApart(page, p.pages[k]); } else { PagesApart(p.pages[k], page); }
  }

  lemma SlotNoHeader(p: Pool, x: nat, page: nat)
    requires Geometry(p) && PagesOk(p.pages) && IsSlot(p, x) && page % PAGE == 0
    ensures x + p.slotSize <= page || page < x
  {
    var k :| 0 <= k < |p.pages| && SlotOf(p.slotSize, p.pages[k], x);
    assert PageOk(p.pages[k]);
    SlotPage(p.slotSize, p.pages[k], x);
    if page > p.pages[k] { PagesApart(p.pages[k], page); }
  }

  // A change inside one slot leaves the page list, the other free slots and the other objects alone.
  lemma SlotWriteLocal(p: Pool, live: set<nat>, words: Memory, after: Memory, x: nat)
    requires Sound(p, live) && IsSlot(p, x) && ChangedWithin(words, after, x, x + p.slotSize)
    ensures SameAt(words, after, p.pages)
    ensures forall y :: y in p.free && y != x ==> At(after, y) == At(words, y)
    ensures ContentsKept(words, after, live - {x}, p.slotSize)
  {
    forall y | y in p.pages ensures At(after, y) == At(words, y) {
      var k :| 0 <= k < |p.pages| && p.pages[k] == y;
      assert PageOk(p.pages[k]);
      SlotNoHeader(p, x, y);
    }
    forall y: nat, a: nat | IsSlot(p, y) && y != x && y <= a < y + p.slotSize ensures At(after, a) == At(words, a) {
      if x < y { SlotsApart(p, x, y); } else { SlotsApart(p, y, x); }
    }
    forall y | y in p.free && y != x ensures At(after, y) == At(words, y) {
      assert IsSlot(p, y);
      assert y <= y < y + p.slotSize;
    }
    forall y, a: nat | y in live - {x} && y <= a < y + p.slotSize ensures At(after, a) == At(words, a) {
      assert y in live && IsSlot(p, y);
    }
  }

  // A change inside a page the pool does not have leaves its lists and objects alone.
  lemma PageWriteLocal(p: Pool, live: set<nat>, words: Memory, after: Memory, page: nat)
    requires Sound(p, live) && page % PAGE == 0 && page !in p.pages && ChangedWithin(words, after, page, page + PAGE)
    ensures SameAt(words, after, p.pages) && SameAt(words, after, p.free)
    ensures ContentsKept(words, after, live, p.slotSize)
  {
    forall y | y in p.pages ensures At(after, y) == At(words, y) {
      var k :| 0 <= k < |p.pages| && p.pages[k] == y;
      assert PageOk(p.pages[k]);
      if page < y { PagesApart(page, y); } else { PagesApart(y, page); }
    }
    forall y | y in p.free ensures At(after, y) == At(words, y) {
      assert IsSlot(p, y);
      SlotOutside(p, y, page);
    }
    forall y, a: nat | y in live && y <= a < y + p.slotSize ensures At(after, a) == At(words, a) {
      assert IsSlot(p, y);
      SlotOutside(p, y, page);
    }
  }

  // KePoolAlloc run alone; heapPage is the page KeHeapAllocPages gives out, 0 when it fails.
  function Allocated(p: Pool, heapPage: nat): (Pool, nat)
    requires p.magic == Alive ==> p.slotSize > 0
  {
    if p.magic != Alive then (p, 0)
    else if p.free != [] then Pop(p)
    else if heapPage == 0 then (p.(failed := p.failed + 1), 0)
    else PublishAndPop(p, heapPage)
  }

  // The pages the heap can give out, apart from those of the pool.
  ghost predicate HeapOk(heap: set<nat>, pages: seq<nat>) {
    && (forall page {:trigger PageOk(page)} :: page in heap ==> PageOk(page))
    && (forall page :: page in heap ==> page !in pages)
  }

  class ObjectPool {
    var words: Memory
    var heap: set<nat>  // the pages KeHeapAllocPages can still give out

    var magic: Magic
    var freeList: nat
    var pageList: nat
    var slotSize: nat
    var slotsPerPage: nat
    var totalSlots: nat
    var usedSlots: nat
    var peakUsedSlots: nat
    var failedGrows: nat
    var pageCount: nat

    ghost var model: Pool
    ghost var live: set<nat>

    // The counters are the model's.
    ghost predicate Counters()
      reads this
    {
      && magic == model.magic && slotSize == model.slotSize && slotsPerPage == model.slotsPerPage
      && totalSlots == model.total && usedSlots == model.used && peakUsedSlots == model.peak
      && failedGrows == model.failed && pageCount == model.pageCount
    }

    // The lists in memory are the model's.
    ghost predicate Lists()
      reads this
    {
      Linked(words, freeList, model.free) && Linked(words, pageList, model.pages)
    }

    ghost predicate Heap()
      reads this
    {
      HeapOk(heap, model.pages)
    }

    ghost predicate Valid()
      reads this
    {
      Counters() && Lists() && Heap() && PoolOk(model, live)
    }

    constructor (heap: set<nat>)
      requires forall page {:trigger PageOk(page)} :: page in heap ==> PageOk(page)
      ensures Valid() && magic == Unborn && this.heap == heap
    {
      this.words, this.heap, this.magic := map[], heap, Unborn;
      this.freeList, this.pageList, this.slotSize, this.slotsPerPage := 0, 0, 0, 0;
      this.totalSlots, this.usedSlots, this.peakUsedSlots, this.failedGrows, this.pageCount := 0, 0, 0, 0, 0;
      this.model, this.live := Pool(Unborn, [], [], 0, 0, 0, 0, 0, 0, 0), {};
    }

    // KiPoolPrepareOnePage. Success hands back the slots of the page as a list of its own.
    method PrepareOnePage(size: nat, heapPage: nat) returns (status: Status, head: nat, tail: nat, count: nat)
      requires size > 0 && size % 8 == 0 && size + 8 <= WORD_LIMIT
      requires heapPage == 0 || (heapPage in heap && PageOk(heapPage))
      modifies this`words, this`heap
      ensures (status == Success) == (heapPage != 0 && HeaderSize(size) < PAGE)
      ensures status != Success ==> words == old(words) && heap == old(heap)
      ensures status == Success ==>
                && heap == old(heap) - {heapPage} && ChangedWithin(old(words), words, heapPage, heapPage + PAGE)
                && count == SlotsPerPage(size) && Linked(words, head, PageSlots(heapPage, size))
                && (count > 0 ==> tail == PageSlots(heapPage, size)[count - 1])
    {
      head, tail, count := 0, 0, 0;
      if heapPage == 0 {
        return OutOfResource, head, tail, count;
      }
      heap := heap - {heapPage};
      var headerSize := HeaderSize(size);
      if headerSize >= PAGE {
        heap := heap + {heapPage};
        return IllegalArgument, head, tail, count;
      }
      var usableSlots := (PAGE - headerSize) / size;
      QuotientMeans(PAGE - headerSize, size);
      while count < usableSlots
        invariant count <= usableSlots && heap == old(heap) - {heapPage}
        invariant Linked(words, head, Chain(heapPage, size, count))
        invariant tail == if count == 0 then 0 else SlotAt(heapPage, size, 0)
        invariant ChangedWithin(old(words), words, heapPage, heapPage + PAGE)
      {
        var node := SlotAt(heapPage, size, count);
        ChainStep(words, head, heapPage, size, count);
        words := words[node := head];
        head := node;
        if tail == 0 {
          tail := node;
        }
        count := count + 1;
      }
      status := Success;
    }

    // The same for a sound pool, whose own lists and objects the preparation leaves alone.
    method PreparePage(size: nat, heapPage: nat) returns (status: Status, head: nat, tail: nat, count: nat)
      requires Counters() && Lists() && Heap() && Sound(model, live) && size == slotSize
      requires heapPage == 0 || heapPage in heap
      modifies this`words, this`heap
      ensures Counters() && Lists() && Heap() && (status == Success) == (heapPage != 0)
      ensures status != Success ==> words == old(words) && heap == old(heap)
      ensures status == Success ==>
                && heap == old(heap) - {heapPage} && PageOk(heapPage) && heapPage !in model.pages
                && ContentsKept(old(words), words, live, slotSize)
                && count == slotsPerPage && Linked(words, head, PageSlots(heapPage, size))
                && tail == PageSlots(heapPage, size)[count - 1]
    {
      HeaderFits(model);
      assert PageOk(heapPage) || heapPage == 0;
      status, head, tail, count := PrepareOnePage(size, heapPage);
      if status == Success {
        PageWriteLocal(model, live, old(words), words, heapPage);
        LinkedSame(old(words), words, pageList, model.pages);
        LinkedSame(old(words), words, freeList, model.free);
      }
    }

    // KiPoolPublishPreparedPage; head and tail are those PrepareOnePage returned for `page`.
    method Publish(page: nat, head: nat, tail: nat, count: nat)
      requires Counters() && Lists() && Heap() && Sound(model, live)
      requires PageOk(page) && page !in heap && page !in model.pages
      requires Linked(words, head, PageSlots(page, slotSize)) && count == slotsPerPage
      requires tail == PageSlots(page, slotSize)[count - 1]
      modifies this`words, this`freeList, this`totalSlots, this`pageList, this`pageCount, this`model
      ensures Counters() && Lists() && Heap() && Sound(model, live) && model == PoolModel.Publish(old(model), page)
      ensures ContentsKept(old(words), words, live, slotSize)
    {
      ghost var slots := PageSlots(page, slotSize);
      PublishOk(model, live, page);
      PublishMemory(model, live, words, page, freeList, pageList, head, tail);
      words := words[tail := freeList];
      freeList := head;
      totalSlots := totalSlots + count;
      words := words[page := pageList];
      pageList := page;
      pageCount := pageCount + 1;
      model := PoolModel.Publish(model, page);
    }

    // KiPoolTryPopNode.
    method TryPopNode() returns (node: nat)
      requires Valid()
      modifies this`freeList, this`usedSlots, this`peakUsedSlots, this`model, this`live
      ensures Valid() && model == Pop(old(model)).0 && node == Pop(old(model)).1
      ensures node != 0 <==> old(magic) == Alive && old(model).free != []
      ensures live == old(live) + (if node == 0 then {} else {node}) && node !in old(live)
    {
      if magic != Alive {
        return 0;
      }
      LinkedHead(words, freeList, model.free);
      LiveNotNull(model, live);
      node := freeList;
      if node != 0 {
        TakeHead();
      }
    }

    // The head of the free list goes into use.
    method TakeHead()
      requires Valid() && magic == Alive && model.free != []
      modifies this`freeList, this`usedSlots, this`peakUsedSlots, this`model, this`live
      ensures Valid() && model == Pop(old(model)).0
      ensures live == old(live) + {old(model).free[0]} && old(model).free[0] !in old(live)
    {
      PopOk(model, live);
      LinkedHead(words, freeList, model.free);
      LinkedTail(words, freeList, model.free);
      live := live + {freeList};
      freeList := At(words, freeList);
      usedSlots := usedSlots + 1;
      assert usedSlots <= totalSlots;
      if usedSlots > peakUsedSlots {
        peakUsedSlots := usedSlots;
      }
      model := Pop(model).0;
    }

    // KiPoolPublishPreparedPageAndPop.
    method PublishAndPop(page: nat, head: nat, tail: nat, count: nat) returns (node: nat)
      requires Valid() && PageOk(page) && page !in heap && page !in model.pages
      requires magic == Alive ==>
                 && Linked(words, head, PageSlots(page, slotSize)) && count == slotsPerPage
                 && tail == PageSlots(page, slotSize)[count - 1]
      modifies this
      ensures Valid() && (model, node) == PoolModel.PublishAndPop(old(model), page)
      ensures heap == old(heap) + (if old(magic) == Alive then {} else {page})
      ensures old(magic) == Alive ==> node != 0 && ContentsKept(old(words), words, old(live), slotSize)
      ensures live == old(live) + (if node == 0 then {} else {node}) && node !in old(live)
    {
      if magic != Alive {
        ReturnPage(page);
        return 0;
      }
      node := PublishThenPop(page, head, tail, count);
    }

    // KeHeapFreePages for a page the pool does not take.
    method ReturnPage(page: nat)
      requires Valid() && PageOk(page) && page !in model.pages
      modifies this`heap
      ensures Valid() && heap == old(heap) + {page}
    {
      heap := heap + {page};
    }

    method PublishThenPop(page: nat, head: nat, tail: nat, count: nat) returns (node: nat)
      requires Valid() && magic == Alive && PageOk(page) && page !in heap && page !in model.pages
      requires Linked(words, head, PageSlots(page, slotSize)) && count == slotsPerPage
      requires tail == PageSlots(page, slotSize)[count - 1]
      modifies this
      ensures Valid() && (model, node) == Pop(PoolModel.Publish(old(model), page)) && node != 0
      ensures heap == old(heap) && live == old(live) + {node} && node !in old(live)
      ensures ContentsKept(old(words), words, old(live), slotSize)
    {
      PublishOk(model, live, page);
      Publish(page, head, tail, count);
      node := TryPopNode();
    }

    method CountFailure()
      requires Valid() && magic == Alive
      modifies this`failedGrows, this`model
      ensures Valid() && model == old(model).(failed := old(model).failed + 1)
    {
      OtherFields(model, live, magic, failedGrows + 1);
      failedGrows := failedGrows + 1;
      model := model.(failed := failedGrows);
    }

    // The part of KePoolAlloc that adds a page when the free list was empty.
    method Grow(heapPage: nat) returns (slot: nat)
      requires Valid() && magic == Alive && model.free == [] && (heapPage == 0 || heapPage in heap)
      modifies this
      ensures Valid() && (model, slot) == Allocated(old(model), heapPage)
      ensures slot == 0 <==> heapPage == 0
      ensures slot !in old(live) && live == old(live) + (if slot == 0 then {} else {slot})
      ensures ContentsKept(old(words), words, old(live), slotSize)
    {
      var size := slotSize;
      assert size != 0;
      LiveNotNull(model, live);
      var status, head, tail, count := PreparePage(size, heapPage);
      if status != Success {
        CountFailure();
        return 0;
      }
      slot := PublishAndPop(heapPage, head, tail, count);
    }

    // KePoolAlloc run alone.
    method Alloc(heapPage: nat) returns (slot: nat)
      requires Valid() && (heapPage == 0 || heapPage in heap)
      modifies this
      ensures Valid() && (model, slot) == Allocated(old(model), heapPage)
      ensures slot == 0 <==> old(magic) != Alive || (old(model).free == [] && heapPage == 0)
      ensures slot !in old(live) && live == old(live) + (if slot == 0 then {} else {slot})
      ensures slot != 0 ==>
                && slot % 8 == 0 && (forall a :: slot <= a < slot + slotSize && a % 8 == 0 ==> At(words, a) == 0)
                && (forall x :: x in old(live) ==> x + slotSize <= slot || slot + slotSize <= x)
      ensures ContentsKept(old(words), words, old(live), old(slotSize))
    {
      if magic != Alive {
        return 0;
      }
      slot := TakeOrGrow(heapPage);
      if slot != 0 {
        Zero(slot);
      }
    }

    // KePoolAlloc before its memset.
    method TakeOrGrow(heapPage: nat) returns (slot: nat)
      requires Valid() && magic == Alive && (heapPage == 0 || heapPage in heap)
      modifies this
      ensures Valid() && (model, slot) == Allocated(old(model), heapPage)
      ensures slot == 0 <==> old(model).free == [] && heapPage == 0
      ensures slot !in old(live) && live == old(live) + (if slot == 0 then {} else {slot})
      ensures ContentsKept(old(words), words, old(live), slotSize)
    {
      slot := TryPopNode();
      if slot == 0 {
        slot := Grow(heapPage);
      }
    }

    // The memset of a popped slot.
    method Zero(slot: nat)
      requires Valid() && magic == Alive && slot in live
      modifies this`words
      ensures Valid()
      ensures slot % 8 == 0 && forall a :: slot <= a < slot + slotSize && a % 8 == 0 ==> At(words, a) == 0
      ensures forall x :: x in live && x != slot ==> x + slotSize <= slot || slot + slotSize <= x
      ensures ContentsKept(old(words), words, live - {slot}, slotSize)
    {
      LiveApart(model, live, slot);
      words := Zeroed(words, slot, slotSize);
      SlotWriteLocal(model, live, old(words), words, slot);
      LinkedSame(old(words), words, pageList, model.pages);
      LinkedSame(old(words), words, freeList, model.free);
    }

    // A client stores into an object it holds.
    method Store(slot: nat, a: nat, value: nat)
      requires Valid() && magic == Alive && slot in live && slot <= a < slot + slotSize
      modifies this`words
      ensures Valid() && At(words, a) == value
      ensures ContentsKept(old(words), words, live - {slot}, slotSize)
    {
      assert IsSlot(model, slot);
      words := words[a := value];
      SlotWriteLocal(model, live, old(words), words, slot);
      LinkedSame(old(words), words, pageList, model.pages);
      LinkedSame(old(words), words, freeList, model.free);
    }

    // KePoolFree of an object in use.
    method Free(slot: nat)
      requires Valid() && magic == Alive && (slot == 0 || slot in live)
      modifies this`words, this`freeList, this`usedSlots, this`model, this`live
      ensures Valid() && live == old(live) - {slot}
      ensures model == if slot == 0 then old(model) else Release(old(model), slot)
      ensures ContentsKept(old(words), words, live, slotSize)
    {
      LiveNotNull(model, live);
      if slot != 0 {
        PushFree(slot);
      }
    }

    // The locked part of KePoolFree.
    method PushFree(slot: nat)
      requires Valid() && magic == Alive && slot in live
      modifies this`words, this`freeList, this`usedSlots, this`model, this`live
      ensures Valid() && live == old(live) - {slot} && old(model).used > 0 && model == Release(old(model), slot)
      ensures ContentsKept(old(words), words, live, slotSize)
    {
      ReleaseOk(model, live, slot);
      ReleaseMemory(model, live, words, freeList, pageList, slot);
      assert usedSlots != 0;
      words := words[slot := freeList];
      freeList := slot;
      usedSlots := usedSlots - 1;
      model := Release(model, slot);
      live := live - {slot};
    }

    // Gives every page of a detached page list back to the heap.
    method FreePages(list: nat, ghost nodes: seq<nat>)
      requires Linked(words, list, nodes) && PagesOk(nodes) && forall page :: page in nodes ==> page !in heap
      modifies this`heap
      ensures heap == old(heap) + (set page | page in nodes)
    {
      var cur := list;
      ghost var n: nat := 0;
      LinkedHead(words, list, nodes);
      while cur != 0
        invariant n <= |nodes| && cur == (if n < |nodes| then nodes[n] else 0) && (cur == 0 <==> n == |nodes|)
        invariant heap == old(heap) + (set page | page in nodes[..n])
        decreases |nodes| - n
      {
        var next := At(words, cur);
        assert Node(words, nodes, n);
        heap := heap + {cur};
        assert nodes[..n + 1] == nodes[..n] + [cur];
        n := n + 1;
        cur := next;
        if n < |nodes| {
          assert Node(words, nodes, n);
        }
      }
      assert nodes[..n] == nodes;
    }

    method ClearCounters()
      modifies this`totalSlots, this`usedSlots, this`peakUsedSlots, this`failedGrows, this`pageCount
      ensures totalSlots == usedSlots == peakUsedSlots == failedGrows == pageCount == 0
    {
      totalSlots, usedSlots, peakUsedSlots, failedGrows, pageCount := 0, 0, 0, 0, 0;
    }

    // The locked part of KePoolDestroy: mark dead, poison, take the page list.
    method Detach() returns (list: nat, ghost nodes: seq<nat>)
      requires Valid() && CanDestroy(model)
      modifies this
      ensures Valid() && model == DEAD_POOL && live == {} && heap == old(heap)
      ensures nodes == old(model).pages && Linked(words, list, nodes) && PagesOk(nodes)
    {
      assert live == {} by {
        DestroyOk(model, live);
      }
      list, nodes := pageList, model.pages;
      Poison();
    }

    method Poison()
      requires live == {} && forall page {:trigger PageOk(page)} :: page in heap ==> PageOk(page)
      modifies this
      ensures Valid() && model == DEAD_POOL && live == {} && heap == old(heap) && words == old(words)
    {
      magic := Dead;
      freeList, pageList, slotsPerPage, slotSize := 0, 0, 0, 0;
      ClearCounters();
      model := DEAD_POOL;
    }

    // KePoolDestroy run alone.
    method Destroy() returns (status: Status)
      requires Valid()
      modifies this
      ensures Valid()
      ensures status == if old(CanDestroy(model)) then Success else InvalidState
      ensures model == if status == Success then DEAD_POOL else old(model)
      ensures status == Success ==> live == {} && heap == old(heap) + (set page | page in old(model).pages)
      ensures status != Success ==> heap == old(heap) && live == old(live)
    {
      if magic != Alive {
        return InvalidState;
      }
      if usedSlots != 0 {
        return InvalidState;
      }
      var list, nodes := Detach();
      FreePages(list, nodes);
      status := Success;
    }

    // KePoolInit while it adds pages: those given so far are in the pool, all others still in the heap.
    ghost predicate Filling(start: Pool, given: seq<nat>, heap0: set<nat>)
      requires start.slotSize > 0
      reads this
    {
      && Counters() && Lists() && Heap() && Sound(model, live) && live == {} && model == Filled(start, given)
      && (forall page :: page in model.pages <==> page in given) && heap == heap0 - (set page | page in given)
      && (forall page :: page in given ==> page in heap0)
    }

    // KePoolInit's field initialisation.
    method Reset(size: nat)
      requires Valid() && magic == Unborn && size > 0 && size % 8 == 0 && size + 8 <= WORD_LIMIT
      requires HeaderSize(size) < PAGE
      modifies this
      ensures slotsPerPage == SlotsPerPage(size) && live == {} && heap == old(heap)
      ensures Valid() && magic == Unborn
      ensures slotsPerPage > 0 ==> Filling(NewPool(size), [], heap)
    {
      NewPoolOk(size);
      slotSize, slotsPerPage := size, (PAGE - HeaderSize(size)) / size;
      freeList, pageList := 0, 0;
      ClearCounters();
      model := NewPool(size);
    }

    // KePoolInit gives the pages it has taken back.
    method Rollback(ghost start: Pool, ghost given: seq<nat>, ghost heap0: set<nat>)
      requires start.slotSize > 0 && start.magic == Unborn && start.used == 0 && Filling(start, given, heap0)
      modifies this
      ensures Valid() && magic == Unborn && live == {} && heap == heap0
    {
      FreePages(pageList, model.pages);
      DropLists();
    }

    method DropLists()
      requires Counters() && live == {} && forall page {:trigger PageOk(page)} :: page in heap ==> PageOk(page)
      modifies this`freeList, this`pageList, this`totalSlots, this`pageCount, this`magic, this`model
      ensures Valid() && magic == Unborn
    {
      freeList, pageList, totalSlots, pageCount, magic := 0, 0, 0, 0, Unborn;
      model := model.(free := [], pages := [], total := 0, pageCount := 0, magic := Unborn);
    }

    // One turn of KePoolInit's loop, with its rollback when the heap has no page.
    method AddPage(size: nat, heapPages: seq<nat>, i: nat, ghost heap0: set<nat>) returns (ok: bool)
      requires size > 0 && i < |heapPages| && Filling(NewPool(size), heapPages[..i], heap0)
      requires heapPages[i] == 0 || (heapPages[i] in heap0 && heapPages[i] !in heapPages[..i])
      modifies this
      ensures ok == (heapPages[i] != 0)
      ensures ok ==> Filling(NewPool(size), heapPages[..i + 1], heap0)
      ensures !ok ==> Valid() && magic == Unborn && live == {} && heap == heap0
    {
      var status, head, tail, count := PreparePage(size, heapPages[i]);
      if status != Success {
        Rollback(NewPool(size), heapPages[..i], heap0);
        return false;
      }
      Publish(heapPages[i], head, tail, count);
      FilledStep(NewPool(size), heapPages, i);
      assert heapPages[..i + 1] == heapPages[..i] + [heapPages[i]];
      ok := true;
    }

    // A pool that was alive is forgotten: its pages are neither given back nor used again.
    method Forget()
      requires Valid()
      modifies this`magic, this`model, this`live
      ensures Valid() && magic == Unborn && live == {} && model == old(model).(magic := Unborn)
    {
      magic := Unborn;
      model := model.(magic := Unborn);
      live := {};
    }

    // KePoolInit; heapPages[i] is the page the heap gives at the i-th request, 0 when it fails.
    method Init(objectSize: nat, initialCapacity: nat, heapPages: seq<nat>) returns (status: Status)
      requires Valid() && objectSize < WORD_LIMIT && initialCapacity < COUNT_LIMIT
      requires |heapPages| == PagesNeeded(SlotSize(objectSize), initialCapacity)
      requires forall i :: 0 <= i < |heapPages| ==> heapPages[i] == 0 || heapPages[i] in heap
      requires forall i, j :: 0 <= i < j < |heapPages| && heapPages[i] != 0 ==> heapPages[i] != heapPages[j]
      modifies this
      ensures Valid() && live == {}
      ensures status == (if SlotsPerPage(SlotSize(objectSize)) == 0 then IllegalArgument
                         else if 0 in heapPages then OutOfResource else Success)
      ensures status != Success ==> magic == Unborn && heap == old(heap)
      ensures status == Success ==> model == Filled(NewPool(SlotSize(objectSize)), heapPages).(magic := Alive)
      ensures status == Success ==> heap == old(heap) - (set page | page in heapPages)
      ensures forall page :: page in old(model).pages ==> page !in heap
    {
      Forget();
      var size := SlotSize(objectSize);
      SlotHoldsObject(objectSize);
      var headerSize := HeaderSize(size);
      if headerSize >= PAGE {
        return IllegalArgument;
      }
      Reset(size);
      if slotsPerPage == 0 {
        return IllegalArgument;
      }
      var needed := (initialCapacity + slotsPerPage - 1) % COUNT_LIMIT / slotsPerPage;
      if needed == 0 {
        needed := 1;
      }
      QuotientMeans((initialCapacity + slotsPerPage - 1) % COUNT_LIMIT, slotsPerPage);
      assert needed == |heapPages|;
      var ok := AddPages(size, heapPages);
      status := if ok then Success else OutOfResource;
    }

    // KePoolInit's loop and the last step, which makes the pool live.
    method AddPages(size: nat, heapPages: seq<nat>) returns (ok: bool)
      requires size > 0 && Filling(NewPool(size), [], heap)
      requires forall i :: 0 <= i < |heapPages| ==> heapPages[i] == 0 || heapPages[i] in heap
      requires forall i, j :: 0 <= i < j < |heapPages| && heapPages[i] != 0 ==> heapPages[i] != heapPages[j]
      modifies this
      ensures Valid() && live == {} && ok == (0 !in heapPages)
      ensures !ok ==> magic == Unborn && heap == old(heap)
      ensures ok ==> model == Filled(NewPool(size), heapPages).(magic := Alive)
      ensures ok ==> heap == old(heap) - (set page | page in heapPages)
    {
      var i := 0;
      while i < |heapPages|
        invariant i <= |heapPages| && 0 !in heapPages[..i]
        invariant Filling(NewPool(size), heapPages[..i], old(heap))
      {
        ok := AddPage(size, heapPages, i, old(heap));
        if !ok {
          return false;
        }
        assert heapPages[..i + 1] == heapPages[..i] + [heapPages[i]];
        i := i + 1;
      }
      assert heapPages[..i] == heapPages;
      GoLive();
      ok := true;
    }

    method GoLive()
      requires Counters() && Lists() && Heap() && Sound(model, live)
      modifies this`magic, this`model
      ensures Valid() && model == old(model).(magic := Alive)
    {
      OtherFields(model, live, Alive, failedGrows);
      magic := Alive;
      model := model.(magic := Alive);
    }
  }
}

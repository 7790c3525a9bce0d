/**
 The kernel object pool seen through its critical sections: the free list and the page
 list as sequences, each critical section as one function, and the invariant they keep.
 */
module PoolModel {
  import opened Arithmetic
  import opened PoolGeometry

  datatype Magic = Unborn | Alive | Dead

  // KE_POOL, with the two intrusive lists as the sequences of their nodes.
  datatype Pool = Pool(
    magic: Magic, free: seq<nat>, pages: seq<nat>, slotSize: nat, slotsPerPage: nat,
    total: nat, used: nat, peak: nat, failed: nat, pageCount: nat)

  const COUNT_LIMIT: nat := 0x1_0000_0000

  const DEAD_POOL := Pool(Dead, [], [], 0, 0, 0, 0, 0, 0, 0)

  // The first n slots of a page in list order: the last of them is the head.
  function Chain(page: nat, slotSize: nat, n: nat): (slots: seq<nat>)
    requires slotSize > 0
    ensures |slots| == n
    ensures forall k :: 0 <= k < n ==> slots[k] == SlotAt(page, slotSize, n - 1 - k)
  {
    seq(n, k requires 0 <= k < n => SlotAt(page, slotSize, n - 1 - k))
  }

  function PageSlots(page: nat, slotSize: nat): (slots: seq<nat>)
    requires slotSize > 0
  {
    Chain(page, slotSize, SlotsPerPage(slotSize))
  }

  // ---------------------------------------------------------------- critical sections

  // KiPoolTryPopNode; 0 is NULL.
  function Pop(p: Pool): (Pool, nat) {
    if p.magic != Alive || p.free == [] then (p, 0)
    else
      var used := p.used + 1;
      (p.(free := p.free[1..], used := used, peak := if used > p.peak then used else p.peak), p.free[0])
  }

  // KiPoolPublishPreparedPage for a page with the given slots.
  function Attach(p: Pool, page: nat, slots: seq<nat>): Pool {
    p.(free := slots + p.free, total := p.total + |slots|, pages := [page] + p.pages, pageCount := p.pageCount + 1)
  }

  function Publish(p: Pool, page: nat): Pool
    requires p.slotSize > 0
  {
    Attach(p, page, PageSlots(page, p.slotSize))
  }

  // KiPoolPublishPreparedPageAndPop.
  function PublishAndPop(p: Pool, page: nat): (Pool, nat)
    requires p.magic == Alive ==> p.slotSize > 0
  {
    if p.magic != Alive then (p, 0) else Pop(Publish(p, page))
  }

  // KePoolFree.
  function Release(p: Pool, x: nat): Pool
    requires p.used > 0
  {
    p.(free := [x] + p.free, used := p.used - 1)
  }

  // The locked part of KePoolDestroy.
  predicate CanDestroy(p: Pool) {
    p.magic == Alive && p.used == 0
  }

  // KePoolInit before its first page.
  function NewPool(slotSize: nat): Pool
    requires slotSize > 0
  {
    Pool(Unborn, [], [], slotSize, SlotsPerPage(slotSize), 0, 0, 0, 0, 0)
  }

  // KePoolInit's number of pages, a 32-bit sum.
  function PagesNeeded(slotSize: nat, initialCapacity: nat): nat
    requires slotSize > 0
  {
    var perPage := SlotsPerPage(slotSize);
    if perPage == 0 then 0
    else
      var n := Quotient((initialCapacity + perPage - 1) % COUNT_LIMIT, perPage);
      if n == 0 then 1 else n
  }

  // The pool after publishing the pages in turn.
  function Filled(p: Pool, pages: seq<nat>): (r: Pool)
    requires p.slotSize > 0
    ensures r.slotSize == p.slotSize && r.magic == p.magic && r.used == p.used && r.slotsPerPage == p.slotsPerPage
    ensures |r.pages| == |p.pages| + |pages|
  {
    if pages == [] then p else Publish(Filled(p, pages[..|pages| - 1]), pages[|pages| - 1])
  }

  lemma FilledStep(p: Pool, pages: seq<nat>, i: nat)
    requires p.slotSize > 0 && i < |pages|
    ensures Filled(p, pages[..i + 1]) == Publish(Filled(p, pages[..i]), pages[i])
  {
    assert pages[..i + 1][..i] == pages[..i];
  }

  lemma FewSlots(slotSize: nat)
    requires slotSize > 0 && slotSize % 8 == 0 && slotSize + 8 <= WORD_LIMIT
    ensures SlotsPerPage(slotSize) < 512
  {
    HeaderAligned(slotSize);
    var header, n := HeaderSize(slotSize), SlotsPerPage(slotSize);
    if header < PAGE {
      QuotientFits(PAGE - header, slotSize);
      FewFit(n, slotSize);
    }
  }

  lemma QuotientFits(a: nat, b: nat)
    requires b > 0
    ensures Quotient(a, b) * b <= a
  {
    QuotientMeans(a, b);
    TimesMeans(Quotient(a, b), b);
  }

  lemma FewFit(n: nat, size: nat)
    requires n * size <= PAGE - NODE_SIZE && size >= 8
    ensures n < 512
  {
    ProductMono(8, size, n);
  }

  // The initial pages hold the requested capacity exactly when the 32-bit sum does not wrap, and never is one of them
  // more than enough.
  lemma CapacityMet(slotSize: nat, initialCapacity: nat)
    requires slotSize > 0 && slotSize % 8 == 0 && slotSize + 8 <= WORD_LIMIT && SlotsPerPage(slotSize) > 0
    requires initialCapacity < COUNT_LIMIT
    ensures PagesNeeded(slotSize, initialCapacity) > 0
    ensures PagesNeeded(slotSize, initialCapacity) * SlotsPerPage(slotSize) >= initialCapacity <==>
              initialCapacity + SlotsPerPage(slotSize) <= COUNT_LIMIT
    ensures PagesNeeded(slotSize, initialCapacity) > 1 ==>
              (PagesNeeded(slotSize, initialCapacity) - 1) * SlotsPerPage(slotSize) < initialCapacity
  {
    FewSlots(slotSize);
    EnoughPages(SlotsPerPage(slotSize), initialCapacity);
  }

  lemma EnoughPages(perPage: nat, initialCapacity: nat)
    requires 0 < perPage < 512 && initialCapacity < COUNT_LIMIT
    ensures var n := Quotient((initialCapacity + perPage - 1) % COUNT_LIMIT, perPage);
            && ((if n == 0 then 1 else n) * perPage >= initialCapacity <==> initialCapacity + perPage <= COUNT_LIMIT)
            && (n > 1 ==> (n - 1) * perPage < initialCapacity)
  {
    var sum := initialCapacity + perPage - 1;
    if sum < COUNT_LIMIT {
      assert sum % COUNT_LIMIT == sum;
      QuotientMeans(sum, perPage);
      RoundUp(initialCapacity, perPage);
    } else {
      assert sum % COUNT_LIMIT == sum - COUNT_LIMIT;
      assert Quotient(sum - COUNT_LIMIT, perPage) == 0;
    }
  }

  lemma RoundUp(n: nat, d: nat)
    requires d > 0
    ensures (n + d - 1) / d * d >= n && ((n + d - 1) / d > 0 ==> ((n + d - 1) / d - 1) * d < n)
  {
    DivMod(n + d - 1, d);
    var q := (n + d - 1) / d;
    assert q > 0 ==> (q - 1) * d == q * d - d;
  }

  // An input for which the sum wraps.
  lemma CapacityCanWrap()
    ensures SlotsPerPage(8) == 511 && PagesNeeded(8, 0xFFFF_FFFF) * SlotsPerPage(8) < 0xFFFF_FFFF
  {
    HeaderIsLowBit(8);
    QuotientMeans(PAGE - 8, 8);
    QuotientMeans((0xFFFF_FFFF + 511 - 1) % COUNT_LIMIT, 511);
    assert LowBit(8) == 2 * LowBit(4) && LowBit(4) == 2 * LowBit(2) && LowBit(2) == 2 * LowBit(1);
  }

  // ---------------------------------------------------------------- invariant

  ghost predicate Differ(s: seq<nat>, i: nat, j: nat)
    requires i < |s| && j < |s|
  {
    s[i] != s[j]
  }

  ghost predicate NoDup(s: seq<nat>) {
    forall i, j {:trigger Differ(s, i, j)} :: 0 <= i < j < |s| ==> Differ(s, i, j)
  }

  lemma NoDupTail(s: seq<nat>)
    requires NoDup(s) && s != []
    ensures NoDup(s[1..]) && s[0] !in s[1..]
  {
    forall i, j | 0 <= i < j < |s[1..]| ensures Differ(s[1..], i, j) {
      assert Differ(s, i + 1, j + 1);
    }
    forall j | 0 <= j < |s[1..]| ensures s[1..][j] != s[0] {
      assert Differ(s, 0, j + 1);
    }
  }

  ghost predicate PageOk(page: nat) { page > 0 && page % PAGE == 0 }

  ghost predicate Geometry(p: Pool) {
    && p.slotSize > 0 && p.slotSize % 8 == 0 && p.slotSize + 8 <= WORD_LIMIT
    && p.slotsPerPage == SlotsPerPage(p.slotSize) && p.slotsPerPage > 0
  }

  ghost predicate SlotOf(slotSize: nat, page: nat, x: nat)
    requires slotSize > 0
  {
    exists i: nat :: i < SlotsPerPage(slotSize) && x == SlotAt(page, slotSize, i)
  }

  // x is a slot of one of the pool's pages.
  ghost predicate IsSlot(p: Pool, x: nat)
    requires p.slotSize > 0
  {
    exists k :: 0 <= k < |p.pages| && SlotOf(p.slotSize, p.pages[k], x)
  }

  ghost predicate PagesOk(pages: seq<nat>) {
    && NoDup(pages)
    && (forall page {:trigger PageOk(page)} :: page in pages ==> PageOk(page))
  }

  // Every slot of every page is either on the free list, once, or live; the counters say how many.
  ghost predicate Sound(p: Pool, live: set<nat>) {
    && Geometry(p) && PagesOk(p.pages) && NoDup(p.free)
    && (forall x: nat {:trigger IsSlot(p, x)} :: x in p.free || x in live <==> IsSlot(p, x))
    && (forall x :: x in p.free ==> x !in live)
    && p.pageCount == |p.pages| && p.total == Times(|p.pages|, p.slotsPerPage)
    && p.used == |live| && |p.free| + p.used == p.total && p.used <= p.peak
  }

  ghost predicate PoolOk(p: Pool, live: set<nat>) {
    if p.magic == Alive then Sound(p, live) else live == {}
  }

  lemma PageOf(page: nat, x: nat)
    requires page % PAGE == 0 && page < x < page + PAGE
    ensures x / PAGE * PAGE == page && x % PAGE != 0
  {}

  // A slot lies in its own page, away from the page's header word.
  lemma SlotPage(slotSize: nat, page: nat, x: nat)
    requires slotSize > 0 && slotSize % 8 == 0 && slotSize + 8 <= WORD_LIMIT && page % PAGE == 0
    requires SlotOf(slotSize, page, x)
    ensures page + NODE_SIZE <= x && x + slotSize <= page + PAGE && x % 8 == 0
    ensures x / PAGE * PAGE == page && x % PAGE != 0
  {
    var i: nat :| i < SlotsPerPage(slotSize) && x == SlotAt(page, slotSize, i);
    SlotsInPage(page, slotSize, i, i);
    PageOf(page, x);
  }

  lemma SamePageApart(slotSize: nat, page: nat, x: nat, y: nat)
    requires slotSize > 0 && slotSize % 8 == 0 && slotSize + 8 <= WORD_LIMIT && page % PAGE == 0
    requires SlotOf(slotSize, page, x) && SlotOf(slotSize, page, y) && x < y
    ensures x + slotSize <= y
  {
    var i: nat :| i < SlotsPerPage(slotSize) && x == SlotAt(page, slotSize, i);
    var j: nat :| j < SlotsPerPage(slotSize) && y == SlotAt(page, slotSize, j);
    if i < j {
      SlotsInPage(page, slotSize, i, j);
    } else {
      SlotsInOrder(page, slotSize, j, i);
    }
  }

  lemma SlotsInOrder(page: nat, slotSize: nat, i: nat, j: nat)
    requires slotSize > 0 && i <= j
    ensures SlotAt(page, slotSize, i) <= SlotAt(page, slotSize, j)
  {
    TimesMono(i, j, slotSize);
  }

  lemma PagesApart(a: nat, b: nat)
    requires a % PAGE == 0 && b % PAGE == 0 && a < b
    ensures a + PAGE <= b
  {}

  // Two different slots do not overlap.
  lemma SlotsApart(p: Pool, x: nat, y: nat)
    requires Geometry(p) && PagesOk(p.pages) && IsSlot(p, x) && IsSlot(p, y) && x < y
    ensures x + p.slotSize <= y
  {
    var j :| 0 <= j < |p.pages| && SlotOf(p.slotSize, p.pages[j], x);
    assert PageOk(p.pages[j]);
    var k :| 0 <= k < |p.pages| && SlotOf(p.slotSize, p.pages[k], y);
    assert PageOk(p.pages[k]);
    ApartIn(p.slotSize, p.pages[j], p.pages[k], x, y);
  }

  lemma ApartIn(slotSize: nat, page: nat, other: nat, x: nat, y: nat)
    requires slotSize > 0 && slotSize % 8 == 0 && slotSize + 8 <= WORD_LIMIT && page % PAGE == 0 && other % PAGE == 0
    requires SlotOf(slotSize, page, x) && SlotOf(slotSize, other, y) && x < y
    ensures x + slotSize <= y
  {
    if page == other {
      SamePageApart(slotSize, page, x, y);
    } else {
      SlotPage(slotSize, page, x);
      SlotPage(slotSize, other, y);
      if page < other { PagesApart(page, other); } else { PagesApart(other, page); }
    }
  }

  lemma PageSlotsDiffer(page: nat, slotSize: nat)
    requires slotSize > 0 && slotSize % 8 == 0 && slotSize + 8 <= WORD_LIMIT && page % PAGE == 0
    ensures NoDup(PageSlots(page, slotSize))
  {
    var slots := PageSlots(page, slotSize);
    var n := |slots|;
    forall i, j | 0 <= i < j < n ensures Differ(slots, i, j) {
      SlotsInPage(page, slotSize, n - 1 - j, n - 1 - i);
    }
  }

  lemma PageSlotsOk(page: nat, slotSize: nat, x: nat)
    requires slotSize > 0 && slotSize % 8 == 0 && slotSize + 8 <= WORD_LIMIT && page % PAGE == 0
    ensures NoDup(PageSlots(page, slotSize))
    ensures x in PageSlots(page, slotSize) <==> SlotOf(slotSize, page, x)
  {
    var slots := PageSlots(page, slotSize);
    var n := |slots|;
    PageSlotsDiffer(page, slotSize);
    if x in slots {
      var k :| 0 <= k < n && slots[k] == x;
      assert x == SlotAt(page, slotSize, n - 1 - k);
    }
    if SlotOf(slotSize, page, x) {
      var i: nat :| i < n && x == SlotAt(page, slotSize, i);
      assert slots[n - 1 - i] == x;
    }
  }

  // ---------------------------------------------------------------- the critical sections keep it

  lemma SlotPositive(p: Pool, x: nat)
    requires Geometry(p) && PagesOk(p.pages) && IsSlot(p, x)
    ensures x > 0
  {
    var k :| 0 <= k < |p.pages| && SlotOf(p.slotSize, p.pages[k], x);
    assert PageOk(p.pages[k]);
    SlotPage(p.slotSize, p.pages[k], x);
  }

  lemma SameSlots(p: Pool, q: Pool)
    requires p.slotSize > 0 && p.slotSize == q.slotSize && p.pages == q.pages
    ensures forall x: nat :: IsSlot(p, x) <==> IsSlot(q, x)
  {}

  lemma OtherFields(p: Pool, live: set<nat>, magic: Magic, failed: nat)
    requires Sound(p, live)
    ensures Sound(p.(magic := magic, failed := failed), live)
  {
    SameSlots(p, p.(magic := magic, failed := failed));
  }

  lemma NewPoolOk(slotSize: nat)
    requires slotSize > 0 && slotSize % 8 == 0 && slotSize + 8 <= WORD_LIMIT && HeaderSize(slotSize) < PAGE
    ensures (PAGE - HeaderSize(slotSize)) / slotSize == SlotsPerPage(slotSize)
    ensures SlotsPerPage(slotSize) > 0 ==> Sound(NewPool(slotSize), {})
  {
    QuotientMeans(PAGE - HeaderSize(slotSize), slotSize);
  }

  lemma PopOk(p: Pool, live: set<nat>)
    requires Sound(p, live) && p.magic == Alive && p.free != []
    ensures var (p', x) := Pop(p);
            && x !in live && x in p.free && x > 0
            && Sound(p', live + {x}) && p'.magic == Alive && p'.pages == p.pages
  {
    var (p', x) := Pop(p);
    assert p.free[0] == x && x in p.free;
    assert p.free == [x] + p'.free;
    NoDupTail(p.free);
    assert IsSlot(p, x);
    SlotPositive(p, x);
    SameSlots(p, p');
  }

  lemma ReleaseOk(p: Pool, live: set<nat>, x: nat)
    requires Sound(p, live) && x in live
    ensures p.used > 0 && Sound(Release(p, x), live - {x}) && Release(p, x).pages == p.pages
  {
    assert |live - {x}| == |live| - 1;
    var p' := Release(p, x);
    assert NoDup([x]);
    NoDupConcat([x], p.free);
    forall y: nat ensures y in p'.free || y in live - {x} <==> IsSlot(p', y) {
      assert y in p'.free <==> y == x || y in p.free;
      assert IsSlot(p', y) <==> IsSlot(p, y);
    }
  }

  lemma PublishOk(p: Pool, live: set<nat>, page: nat)
    requires Sound(p, live) && page > 0 && page % PAGE == 0 && page !in p.pages
    ensures Sound(Publish(p, page), live) && Publish(p, page).free != []
  {
    var p', slots := Publish(p, page), PageSlots(page, p.slotSize);
    PageSlotsOk(page, p.slotSize, 0);
    forall x: nat ensures IsSlot(p', x) <==> x in slots || IsSlot(p, x) {
      PageSlotsOk(page, p.slotSize, x);
      PublishedSlot(p, page, x);
    }
    forall x | x in slots ensures !IsSlot(p, x) {
      PageSlotsOk(page, p.slotSize, x);
      SlotPage(p.slotSize, page, x);
      if IsSlot(p, x) {
        var k :| 0 <= k < |p.pages| && SlotOf(p.slotSize, p.pages[k], x);
        assert PageOk(p.pages[k]);
        SlotPage(p.slotSize, p.pages[k], x);
      }
    }
    NoDupConcat(slots, p.free);
    assert NoDup([page]);
    NoDupConcat([page], p.pages);
    assert p'.pages[0] == page && p'.pages[1..] == p.pages;
  }

  lemma PublishedSlot(p: Pool, page: nat, x: nat)
    requires p.slotSize > 0
    ensures IsSlot(Publish(p, page), x) <==> SlotOf(p.slotSize, page, x) || IsSlot(p, x)
  {
    var p' := Publish(p, page);
    assert p'.pages[0] == page;
    if IsSlot(p, x) {
      var k :| 0 <= k < |p.pages| && SlotOf(p.slotSize, p.pages[k], x);
      assert p'.pages[k + 1] == p.pages[k];
    }
    if IsSlot(p', x) {
      var k :| 0 <= k < |p'.pages| && SlotOf(p.slotSize, p'.pages[k], x);
      if k > 0 {
        assert p.pages[k - 1] == p'.pages[k];
      }
    }
  }

  lemma NoDupConcat(a: seq<nat>, b: seq<nat>)
    requires NoDup(a) && NoDup(b) && forall x :: x in a ==> x !in b
    ensures NoDup(a + b)
  {
    forall i, j | 0 <= i < j < |a + b| ensures Differ(a + b, i, j) {
      if j < |a| {
        assert Differ(a, i, j);
      } else if |a| <= i {
        assert Differ(b, i - |a|, j - |a|);
      } else {
        assert a[i] in a && b[j - |a|] in b;
      }
    }
  }

  // A destroyed pool had nothing live.
  lemma DestroyOk(p: Pool, live: set<nat>)
    requires PoolOk(p, live) && CanDestroy(p)
    ensures live == {} && PoolOk(DEAD_POOL, live)
  {}

  // The pool KePoolInit makes: the published pages and no others, every slot free.
  lemma {:induction false} FilledSound(p: Pool, pages: seq<nat>)
    requires Sound(p, {}) && NoDup(pages)
    requires forall page :: page in pages ==> PageOk(page) && page !in p.pages
    ensures Sound(Filled(p, pages), {}) && (forall x :: x in Filled(p, pages).pages <==> x in pages || x in p.pages)
    decreases |pages|
  {
    if pages != [] {
      var init, last := pages[..|pages| - 1], pages[|pages| - 1];
      assert pages == init + [last];
      forall i, j | 0 <= i < j < |init| ensures Differ(init, i, j) { assert Differ(pages, i, j); }
      forall i | 0 <= i < |init| ensures init[i] != last { assert Differ(pages, i, |pages| - 1); }
      FilledSound(p, init);
      assert PageOk(last);
      PublishOk(Filled(p, init), {}, last);
    }
  }
}

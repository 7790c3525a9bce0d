/**
 Where a pool's slots lie in a page (ke/mm/pool.c).  HO_ALIGN_UP masks with
 ~(alignment - 1), which is alignment upwards only for powers of two; here it is
 applied to slot sizes that are any multiple of 8.
 */
module PoolGeometry {
  import opened Arithmetic

  const PAGE: nat := 0x1000
  const NODE_SIZE: nat := 8

  // x & ~m on unsigned words, bit by bit.
  function AndNot(x: nat, m: nat): nat {
    if x == 0 then 0
    else 2 * AndNot(x / 2, m / 2) + if x % 2 == 1 && m % 2 == 0 then 1 else 0
  }

  // HO_ALIGN_UP on 64-bit words.
  function AlignUp(value: nat, alignment: nat): nat
    requires alignment > 0
  {
    AndNot((value + alignment - 1) % WORD_LIMIT, alignment - 1)
  }

  // The largest power of two that divides n.
  function LowBit(n: nat): (r: nat)
    requires n > 0
    ensures 0 < r <= n
  {
    if n % 2 == 1 then 1 else 2 * LowBit(n / 2)
  }

  ghost predicate Divides(d: nat, n: nat) {
    exists q: nat :: q * d == n
  }

  lemma {:induction false} AndNotSelf(x: nat)
    ensures AndNot(x, x) == 0
  {
    if x > 0 { AndNotSelf(x / 2); }
  }

  lemma {:induction false} AndNotPredecessor(n: nat)
    requires n > 0
    ensures AndNot(n, n - 1) == LowBit(n)
  {
    if n % 2 == 1 {
      assert (n - 1) / 2 == n / 2;
      AndNotSelf(n / 2);
    } else {
      assert (n - 1) / 2 == n / 2 - 1;
      AndNotPredecessor(n / 2);
    }
  }

  // A low bit that is set in the mask drops out.
  lemma OddMask(x: nat, m: nat)
    requires m % 2 == 1
    ensures AndNot(x, m) == 2 * AndNot(x / 2, m / 2)
  {}

  lemma AndNotLowBits(x: nat, m: nat)
    requires m % 8 == 7
    ensures AndNot(x, m) == 8 * AndNot(x / 8, m / 8)
  {
    OddMask(x, m);
    OddMask(x / 2, m / 2);
    OddMask(x / 2 / 2, m / 2 / 2);
    assert x / 2 / 2 / 2 == x / 8 && m / 2 / 2 / 2 == m / 8;
  }

  lemma LowBitDouble(n: nat)
    requires n > 0
    ensures LowBit(2 * n) == 2 * LowBit(n)
  {}

  lemma LowBitOfEight(t: nat)
    requires t > 0
    ensures LowBit(8 * t) == 8 * LowBit(t)
  {
    LowBitDouble(t);
    LowBitDouble(2 * t);
    LowBitDouble(4 * t);
    assert 2 * (4 * t) == 8 * t && 2 * (2 * t) == 4 * t;
  }

  // The header size: HO_ALIGN_UP(8, slotSize) is not a multiple of slotSize but the largest power of two
  // dividing it.
  lemma HeaderIsLowBit(slotSize: nat)
    requires slotSize > 0 && slotSize % 8 == 0 && slotSize + 8 <= WORD_LIMIT
    ensures AlignUp(NODE_SIZE, slotSize) == LowBit(slotSize)
  {
    var t := slotSize / 8;
    assert slotSize == 8 * t && NODE_SIZE + slotSize - 1 == 8 * t + 7;
    NoWrap(8 * t + 7);
    MaskOfEight(t);
  }

  lemma NoWrap(x: nat)
    requires x < WORD_LIMIT
    ensures x % WORD_LIMIT == x
  {}

  // So HO_ALIGN_UP(8, slotSize) is a multiple of slotSize exactly for powers of two: those that are their own low bit.
  lemma HeaderAlignedExactly(slotSize: nat)
    requires slotSize > 0 && slotSize % 8 == 0 && slotSize + 8 <= WORD_LIMIT
    ensures AlignUp(NODE_SIZE, slotSize) % slotSize == 0 <==> LowBit(slotSize) == slotSize
  {
    HeaderIsLowBit(slotSize);
    Whole(LowBit(slotSize), slotSize);
  }

  lemma Whole(r: nat, s: nat)
    requires 0 < r <= s
    ensures r % s == 0 <==> r == s
  {
    if r < s {
      assert r / s == 0;
    } else {
      assert r / s == 1;
    }
  }

  // An input for which it is not.
  lemma HeaderCanMisalign()
    ensures AlignUp(NODE_SIZE, 24) == 8 && AlignUp(NODE_SIZE, 24) % 24 != 0
  {
    HeaderIsLowBit(24);
    LowBitOfEight(3);
  }

  lemma MaskOfEight(t: nat)
    requires t > 0
    ensures AndNot(8 * t + 7, 8 * t - 1) == LowBit(8 * t)
  {
    var x, m := 8 * t + 7, 8 * t - 1;
    assert x / 8 == t && m / 8 == t - 1 && m % 8 == 7;
    AndNotLowBits(x, m);
    AndNotPredecessor(t);
    LowBitOfEight(t);
  }

  lemma DividesDouble(d: nat, n: nat)
    ensures Divides(2 * d, 2 * n) <==> Divides(d, n)
  {
    if Divides(d, n) {
      var q: nat :| q * d == n;
      assert q * (2 * d) == 2 * n;
    }
    if Divides(2 * d, 2 * n) {
      var q: nat :| q * (2 * d) == 2 * n;
      assert q * d == n;
    }
  }

  lemma EvenMultiple(k: nat, n: nat)
    requires k > 0 && Divides(Power(2, k), n)
    ensures n % 2 == 0
  {
    var q: nat :| q * Power(2, k) == n;
    assert n == 2 * (q * Power(2, k - 1));
  }

  // LowBit(n) is a power of two, divides n, and every power of two dividing n is at most it.
  lemma {:induction false} LowBitLargest(n: nat, k: nat)
    requires n > 0
    ensures exists j: nat :: Power(2, j) == LowBit(n)
    ensures Divides(LowBit(n), n)
    ensures Divides(Power(2, k), n) ==> Power(2, k) <= LowBit(n)
    decreases n
  {
    if n % 2 == 1 {
      assert Power(2, 0) == 1 && n * 1 == n;
      if k > 0 && Divides(Power(2, k), n) {
        EvenMultiple(k, n);
      }
    } else {
      var h := n / 2;
      assert n == 2 * h;
      LowBitLargest(h, if k > 0 then k - 1 else 0);
      var j: nat :| Power(2, j) == LowBit(h);
      assert Power(2, j + 1) == LowBit(n);
      DividesDouble(LowBit(h), h);
      if k > 0 {
        DividesDouble(Power(2, k - 1), h);
      }
    }
  }

  // ---------------------------------------------------------------- slots

  // KePoolInit's slot size for an object size (a 64-bit size_t).
  function SlotSize(objectSize: nat): nat {
    var aligned := AlignUp(objectSize, 8);
    if aligned < NODE_SIZE then NODE_SIZE else aligned
  }

  lemma AndNotSeven(x: nat)
    ensures AndNot(x, 7) == x / 8 * 8
  {
    AndNotLowBits(x, 7);
    AndNotZero(x / 8);
  }

  lemma {:induction false} AndNotZero(x: nat)
    ensures AndNot(x, 0) == x
  {
    if x > 0 { AndNotZero(x / 2); }
  }

  // A slot is a positive multiple of 8, and holds the object exactly when rounding the size does not overflow. It is
  // no larger than it has to be.
  lemma SlotHoldsObject(objectSize: nat)
    requires objectSize < WORD_LIMIT
    ensures SlotSize(objectSize) > 0 && SlotSize(objectSize) % 8 == 0 && SlotSize(objectSize) + 8 <= WORD_LIMIT
    ensures SlotSize(objectSize) >= objectSize <==> objectSize + 8 <= WORD_LIMIT
    ensures SlotSize(objectSize) < objectSize + 8 || SlotSize(objectSize) == 8
  {
    var v := if objectSize + 7 < WORD_LIMIT then objectSize + 7 else objectSize + 7 - WORD_LIMIT;
    assert v == (objectSize + 7) % WORD_LIMIT;
    AndNotSeven(v);
    RoundToEight(v);
  }

  // The largest size wraps to a slot of eight bytes.
  lemma SlotCanBeTooSmall()
    ensures SlotSize(0xFFFF_FFFF_FFFF_FFFF) == 8
  {
    AndNotSeven(6);
  }

  lemma RoundToEight(v: nat)
    ensures v / 8 * 8 % 8 == 0 && v - 7 <= v / 8 * 8 <= v
  {}

  function HeaderSize(slotSize: nat): nat
    requires slotSize > 0
  {
    AlignUp(NODE_SIZE, slotSize)
  }

  // n * d and a / b by repeated addition and subtraction, which keeps proofs about pools linear.
  function Times(n: nat, d: nat): nat {
    if n == 0 then 0 else Times(n - 1, d) + d
  }

  function Quotient(a: nat, b: nat): nat
    requires b > 0
  {
    if a < b then 0 else 1 + Quotient(a - b, b)
  }

  lemma {:induction false} TimesMeans(n: nat, d: nat)
    ensures Times(n, d) == n * d
  {
    if n > 0 { TimesMeans(n - 1, d); }
  }

  lemma TimesMono(i: nat, j: nat, d: nat)
    requires i <= j
    ensures Times(i, d) <= Times(j, d)
  {
    TimesMeans(i, d);
    TimesMeans(j, d);
    ProductMono(i, j, d);
  }

  lemma {:induction false} QuotientMeans(a: nat, b: nat)
    requires b > 0
    ensures Quotient(a, b) == a / b && Times(Quotient(a, b), b) <= a < Times(Quotient(a, b) + 1, b)
    decreases a
  {
    if a >= b {
      QuotientMeans(a - b, b);
      DivStep(a, b);
    } else {
      assert a / b == 0;
    }
  }

  lemma DivStep(a: nat, b: nat)
    requires 0 < b <= a
    ensures a / b == (a - b) / b + 1
  {
    var q, d := (a - b) / b, a / b;
    DivMod(a, b);
    DivMod(a - b, b);
    assert (q + 1) * b == q * b + b && (q + 2) * b == q * b + 2 * b && (d + 1) * b == d * b + b;
    LessFromProduct(d, q + 2, b);
    LessFromProduct(q + 1, d + 1, b);
  }

  function SlotsPerPage(slotSize: nat): nat
    requires slotSize > 0
  {
    var header := HeaderSize(slotSize);
    if header >= PAGE then 0 else Quotient(PAGE - header, slotSize)
  }

  function SlotAt(page: nat, slotSize: nat, i: nat): nat
    requires slotSize > 0
  {
    page + HeaderSize(slotSize) + Times(i, slotSize)
  }

  lemma HeaderAligned(slotSize: nat)
    requires slotSize > 0 && slotSize % 8 == 0 && slotSize + 8 <= WORD_LIMIT
    ensures HeaderSize(slotSize) % 8 == 0 && HeaderSize(slotSize) >= NODE_SIZE
  {
    HeaderIsLowBit(slotSize);
    LowBitOfEight(slotSize / 8);
  }

  // Slots are 8-aligned, clear of the page header, inside the page, and apart from each other.
  lemma SlotsInPage(page: nat, slotSize: nat, i: nat, j: nat)
    requires slotSize > 0 && slotSize % 8 == 0 && slotSize + 8 <= WORD_LIMIT && page % PAGE == 0
    requires i < SlotsPerPage(slotSize)
    ensures SlotAt(page, slotSize, i) % 8 == 0
    ensures page + NODE_SIZE <= SlotAt(page, slotSize, i) && SlotAt(page, slotSize, i) + slotSize <= page + PAGE
    ensures i < j ==> SlotAt(page, slotSize, i) + slotSize <= SlotAt(page, slotSize, j)
  {
    HeaderAligned(slotSize);
    var header, n := HeaderSize(slotSize), SlotsPerPage(slotSize);
    QuotientMeans(PAGE - header, slotSize);
    TimesMeans(n, slotSize);
    TimesMeans(i, slotSize);
    TimesMeans(j, slotSize);
    SlotArithmetic(page, header, slotSize, n, i, j);
  }

  // There are as many as fit.
  lemma PageIsFull(page: nat, slotSize: nat)
    requires slotSize > 0
    ensures SlotAt(page, slotSize, SlotsPerPage(slotSize)) + slotSize > page + PAGE
  {
    var header, n := HeaderSize(slotSize), SlotsPerPage(slotSize);
    TimesMeans(n, slotSize);
    if header < PAGE {
      QuotientMeans(PAGE - header, slotSize);
      DivMod(PAGE - header, slotSize);
    }
  }

  lemma SlotArithmetic(page: nat, header: nat, size: nat, n: nat, i: nat, j: nat)
    requires page % PAGE == 0 && header % 8 == 0 && size % 8 == 0 && i < n && header + n * size <= PAGE
    ensures (page + header + i * size) % 8 == 0
    ensures i * size >= 0 && header + i * size + size <= PAGE
    ensures i < j ==> i * size + size <= j * size
  {
    ProductMono(i + 1, n, size);
    assert (i + 1) * size == i * size + size;
    if i < j {
      ProductMono(i + 1, j, size);
    }
    EightTimes(i, size / 8);
    SumOfEights(page, header, i * size);
  }

  lemma SumOfEights(a: nat, b: nat, c: nat)
    requires a % PAGE == 0 && b % 8 == 0 && c % 8 == 0
    ensures (a + b + c) % 8 == 0
  {
    assert a + b + c == 8 * (512 * (a / PAGE) + b / 8 + c / 8);
  }

  lemma EightTimes(i: nat, t: nat)
    ensures i * (8 * t) % 8 == 0
  {
    assert i * (8 * t) == 8 * (i * t);
  }
}

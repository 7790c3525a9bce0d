/**
 Printing and parsing integers (libc/stdlib/hostdlib.c, user/calc/main.c): what lands in the
 caller's buffer is the minimal digit string, padded as asked, and parsing undoes printing.
 */
module Numbers {
  import opened Arithmetic
  import opened Digits

  // ---------------------------------------------------------------- digit counts

  predicate IsValidBase(base: int) {
    base == 2 || base == 4 || base == 8 || base == 10 || base == 16 || base == 32
  }

  // FindMostSignificantBit of a non-zero word.
  function TopBit(n: nat): nat
    requires n > 0
  {
    if n == 1 then 0 else 1 + TopBit(n / 2)
  }

  function CountDecDigit(n: nat): nat {
    if n < 10 then 1 else if n < 100 then 2 else if n < 1000 then 3 else if n < 10000 then 4
    else if n < 100000 then 5 else if n < 1000000 then 6 else if n < 10000000 then 7 else if n < 100000000 then 8
    else if n < 1000000000 then 9 else if n < 10000000000 then 10 else if n < 100000000000 then 11
    else if n < 1000000000000 then 12 else if n < 10000000000000 then 13 else if n < 100000000000000 then 14
    else if n < 1000000000000000 then 15 else if n < 10000000000000000 then 16 else if n < 100000000000000000 then 17
    else if n < 1000000000000000000 then 18 else if n < 10000000000000000000 then 19 else 20
  }

  lemma PowersOfTen()
    ensures Power(10, 1) == 10 && Power(10, 2) == 100 && Power(10, 3) == 1000 && Power(10, 4) == 10000
    ensures Power(10, 5) == 100000 && Power(10, 6) == 1000000 && Power(10, 7) == 10000000 && Power(10, 8) == 100000000
    ensures Power(10, 9) == 1000000000 && Power(10, 10) == 10000000000 && Power(10, 11) == 100000000000
    ensures Power(10, 12) == 1000000000000 && Power(10, 13) == 10000000000000 && Power(10, 14) == 100000000000000
    ensures Power(10, 15) == 1000000000000000 && Power(10, 16) == 10000000000000000
    ensures Power(10, 17) == 100000000000000000 && Power(10, 18) == 1000000000000000000
    ensures Power(10, 19) == 10000000000000000000 && Power(10, 20) == 100000000000000000000
  {
    assert Power(10, 0) == 1;
  }

  // The comparison chain counts the digits of every 64-bit word.
  lemma DecimalLength(n: nat)
    requires n < WORD_LIMIT
    ensures |Minimal(n, 10)| == CountDecDigit(n)
  {
    PowersOfTen();
    LengthOfMinimal(n, 10, CountDecDigit(n));
  }

  lemma {:induction false} TopBitMeans(n: nat)
    requires n > 0
    ensures Power(2, TopBit(n)) <= n < Power(2, TopBit(n) + 1)
  {
    if n > 1 {
      TopBitMeans(n / 2);
      assert Power(2, TopBit(n) + 1) == 2 * Power(2, TopBit(n));
    } else {
      assert Power(2, 1) == 2 * Power(2, 0);
    }
  }

  lemma {:induction false} PowerMono(a: nat, b: nat)
    requires a <= b
    ensures Power(2, a) <= Power(2, b)
  {
    if a < b { PowerMono(a, b - 1); }
  }

  lemma {:induction false} PowerAdd(a: nat, b: nat)
    ensures Power(2, a + b) == Power(2, a) * Power(2, b)
  {
    if a > 0 {
      PowerAdd(a - 1, b);
      assert Power(2, a + b) == 2 * Power(2, a - 1 + b);
      Associate(2, Power(2, a - 1), Power(2, b));
    }
  }

  lemma Associate(a: nat, b: nat, c: nat)
    ensures a * (b * c) == (a * b) * c
  {}

  lemma {:induction false} PowerOfPower(k: nat, d: nat)
    ensures Power(Power(2, k), d) == Power(2, k * d)
  {
    if d > 0 {
      PowerOfPower(k, d - 1);
      assert k * d == k + k * (d - 1);
      PowerAdd(k, k * (d - 1));
    } else {
      assert k * 0 == 0;
    }
  }

  // UInt64ToStringEx's count for the bases 2^k.
  function CountTwoBase(n: nat, k: nat): nat
    requires k > 0
  {
    if n == 0 then 1 else (TopBit(n) + 1 + k - 1) / k
  }

  lemma TwoBaseLength(n: nat, k: nat)
    requires 1 <= k <= 5
    ensures 2 <= Power(2, k) <= 32 && |Minimal(n, Power(2, k))| == CountTwoBase(n, k) > 0
  {
    BaseBounds(k);
    if n > 0 {
      var d := (TopBit(n) + k) / k;
      Bracket(TopBit(n), k, d);
      Between(n, k * (d - 1), k * d);
      PowerOfPower(k, d - 1);
      PowerOfPower(k, d);
      LengthOfMinimal(n, Power(2, k), d);
    }
  }

  lemma BaseBounds(k: nat)
    requires 1 <= k <= 5
    ensures 2 <= Power(2, k) <= 32
  {
    PowerMono(1, k);
    PowerMono(k, 5);
    assert Power(2, 0) == 1 && Power(2, 1) == 2 && Power(2, 5) == 32;
  }

  lemma Between(n: nat, low: nat, high: nat)
    requires n > 0 && low <= TopBit(n) < high
    ensures Power(2, low) <= n < Power(2, high)
  {
    TopBitMeans(n);
    PowerMono(low, TopBit(n));
    PowerMono(TopBit(n) + 1, high);
  }

  lemma Bracket(m: nat, k: nat, d: nat)
    requires 1 <= k && d == (m + k) / k
    ensures d >= 1 && k * (d - 1) <= m < k * d
  {
    DivMod(m + k, k);
    assert (d + 1) * k == d * k + k;
    LessFromProduct(1, d + 1, k);
    assert k * (d - 1) == d * k - k;
  }

  // ---------------------------------------------------------------- padded numerals

  // Padding a caller asked for; a negative one means the full width of a word in bases 2^k.
  function Width(base: int, padding: int): int
    requires IsValidBase(base)
  {
    if base == 10 || padding >= 0 then padding else (64 + BitsPerDigit(base) - 1) / BitsPerDigit(base)
  }

  function BitsPerDigit(base: int): (k: nat)
    requires IsValidBase(base)
    ensures 1 <= k <= 5
    ensures base != 10 ==> k == TopBit(base)
  {
    assert TopBit(1) == 0 && TopBit(2) == 1 && TopBit(4) == 2 && TopBit(8) == 3 && TopBit(16) == 4 && TopBit(32) == 5;
    if base == 2 then 1 else if base == 4 then 2 else if base == 8 || base == 10 then 3 else if base == 16 then 4 else 5
  }

  // The full width is the one that the largest word needs.
  lemma FullWidth(base: int, padding: int)
    requires IsValidBase(base) && base != 10 && padding < 0
    ensures var w := Width(base, padding); w == |Minimal(WORD_LIMIT - 1, base)|
  {
    var k := BitsPerDigit(base);
    PowerOfBits(base);
    TwoBaseLength(WORD_LIMIT - 1, k);
    TopOfWord();
  }

  lemma TopOfWord()
    ensures TopBit(WORD_LIMIT - 1) == 63
  {
    TopBitMeans(WORD_LIMIT - 1);
    Power2Word();
    var m := TopBit(WORD_LIMIT - 1);
    if m < 63 { PowerMono(m + 1, 63); }
    if m > 63 { PowerMono(64, m); }
  }

  lemma Power2Word()
    ensures Power(2, 63) == 0x8000_0000_0000_0000 && Power(2, 64) == WORD_LIMIT
  {
    assert Power(2, 0) == 1 && Power(2, 1) == 2 && Power(2, 2) == 4;
    PowerAdd(2, 2);
    PowerAdd(4, 4);
    PowerAdd(8, 8);
    PowerAdd(16, 16);
    PowerAdd(32, 32);
    assert Power(2, 64) == 2 * Power(2, 63);
  }

  function Fill(value: nat, base: int, padding: int): nat
    requires IsValidBase(base)
  {
    var w, n := Width(base, padding), |Minimal(value, base)|;
    if w > n then w - n else 0
  }

  function Numeral(value: nat, base: int, padding: int, padChar: char): string
    requires IsValidBase(base)
  {
    Repeat(padChar, Fill(value, base, padding)) + Minimal(value, base)
  }

  // Padding up to the width asked, then the digits.
  lemma NumeralShape(value: nat, base: int, padding: int, padChar: char)
    requires IsValidBase(base)
    ensures var n := |Minimal(value, base)|;
            var width := if base == 10 || padding >= 0 then padding else |Minimal(WORD_LIMIT - 1, base)|;
            var fill: nat := if width > n then width - n else 0;
            Numeral(value, base, padding, padChar) == Repeat(padChar, fill) + Minimal(value, base)
  {
    if base != 10 && padding < 0 { FullWidth(base, padding); }
  }

  // With zero padding the whole text reads back as the value, and with any other the part after the padding.
  lemma NumeralReadsBack(value: nat, base: int, padding: int, padChar: char)
    requires IsValidBase(base)
    ensures var s, fill := Numeral(value, base, padding, padChar), Fill(value, base, padding);
            && AllDigits(s[fill..], base) && Value(s[fill..], base) == value
            && (padChar == '0' ==> AllDigits(s, base) && Value(s, base) == value)
  {
    ValueOfMinimal(value, base);
    var s, fill := Numeral(value, base, padding, padChar), Fill(value, base, padding);
    assert s[fill..] == Minimal(value, base);
    LeadingZeros(Minimal(value, base), base, fill);
    if padChar == '0' {
      assert Repeat(padChar, fill) == Repeat('0', fill);
    }
  }

  // ---------------------------------------------------------------- writing into a buffer

  // The digits still to be written when m is what is left of the number.
  function Rest(m: nat, base: nat): string
    requires 2 <= base <= 36
  {
    if m == 0 then "" else Minimal(m, base)
  }

  lemma RestStep(m: nat, base: nat)
    requires 2 <= base <= 36 && m > 0
    ensures m % base < 36 && Rest(m, base) == Rest(m / base, base) + [DigitChar(m % base)]
  {
    DivMod(m, base);
    if m >= base {
      DivLess(m, base);
    } else {
      DivSmall(m, base);
      assert "" + [DigitChar(m)] == [DigitChar(m)];
    }
  }

  lemma DivSmall(m: nat, base: nat)
    requires m < base
    ensures m / base == 0 && m % base == m
  {}

  // One digit goes in front of those already written.
  lemma WrittenStep(text: string, before: string, after: string, rest: string, c: char, e: nat, stop: nat)
    requires 0 < e <= stop <= |before| && after == before[e - 1 := c] && text == rest + [c] + before[e..stop]
    ensures text == rest + after[e - 1..stop]
  {
    assert after[e - 1..stop] == [c] + before[e..stop];
  }

  // buffer[at..stop] is being filled from the right; the digits of `rest` are still missing.
  ghost predicate Filling(buffer: string, old_: string, text: string, rest: string, at: nat, e: nat, stop: nat) {
    && |buffer| == |old_| && at <= e <= stop <= |buffer| && e - at == |rest| && text == rest + buffer[e..stop]
    && buffer[..at] == old_[..at] && buffer[stop..] == old_[stop..]
  }

  lemma FillingStep(before: string, old_: string, text: string, m: nat, base: nat, at: nat, e: nat, stop: nat)
    requires 2 <= base <= 36 && m > 0 && Filling(before, old_, text, Rest(m, base), at, e, stop)
    ensures e > at && m % base < 36
    ensures Filling(before[e - 1 := DigitChar(m % base)], old_, text, Rest(m / base, base), at, e - 1, stop)
  {
    RestStep(m, base);
    var c := DigitChar(m % base);
    var rest, after := Rest(m / base, base), before[e - 1 := c];
    assert rest + [c] + before[e..stop] == Rest(m, base) + before[e..stop];
    WrittenStep(text, before, after, rest, c, e, stop);
    assert after[..at] == before[..at] && after[stop..] == before[stop..];
  }

  // The text stands at a position and everything else is as before.
  ghost predicate Placed(before: string, after: string, at: nat, text: string) {
    && at + |text| <= |before| == |after|
    && forall i :: 0 <= i < |after| ==> after[i] == if at <= i < at + |text| then text[i - at] else before[i]
  }

  lemma PlacedOne(before: string, at: nat, c: char)
    requires at < |before|
    ensures Placed(before, before[at := c], at, [c])
  {}

  // Text written in front of text written earlier, and one more character behind it.
  lemma PlacedFront(before: string, mid: string, after: string, at: nat, front: string, text: string)
    requires Placed(before, mid, at + |front|, text) && Placed(mid, after, at, front)
    ensures Placed(before, after, at, front + text)
  {}

  lemma PlacedBehind(before: string, after: string, at: nat, text: string, c: char)
    requires Placed(before, after, at, text) && at + |text| < |before|
    ensures |after| == |before| && Placed(before, after[at + |text| := c], at, text + [c])
  {}

  lemma FillingStarts(buffer: string, value: nat, base: nat, at: nat, size: nat)
    requires 2 <= base <= 36 && value > 0 && size == |Minimal(value, base)| && at + size <= |buffer|
    ensures Filling(buffer, buffer, Minimal(value, base), Rest(value, base), at, at + size, at + size)
  {
    assert Minimal(value, base) + buffer[at + size..at + size] == Minimal(value, base);
  }

  lemma FillingDone(buffer: string, old_: string, text: string, at: nat, e: nat, stop: nat, base: nat)
    requires 2 <= base <= 36 && Filling(buffer, old_, text, Rest(0, base), at, e, stop)
    ensures Placed(old_, buffer, at, text)
  {
    forall i | 0 <= i < |buffer| ensures buffer[i] == if at <= i < at + |text| then text[i - at] else old_[i] {
      if i < at {
        assert buffer[i] == buffer[..at][i] == old_[..at][i];
      } else if i < stop {
        assert text[i - at] == buffer[e..stop][i - at];
      } else {
        assert buffer[i] == buffer[stop..][i - stop] == old_[stop..][i - stop];
      }
    }
  }

  lemma ZeroDigit(base: nat)
    requires 2 <= base <= 36
    ensures 0 % base == 0 && Minimal(0, base) == [DigitChar(0)]
  {
    DivSmall(0, base);
  }

  method PutOne(buffer: array<char>, at: nat, c: char)
    requires at < buffer.Length
    modifies buffer
    ensures Placed(old(buffer[..]), buffer[..], at, [c])
  {
    buffer[at] := c;
  }

  method WriteIntDecimal(value: nat, buffer: array<char>, at: nat, size: nat)
    requires at + size <= buffer.Length && size == |Minimal(value, 10)|
    modifies buffer
    ensures Placed(old(buffer[..]), buffer[..], at, Minimal(value, 10))
  {
    var end: nat, num: nat := at + size, value;
    ghost var start := buffer[..];
    if num == 0 {
      ZeroDigit(10);
      end := end - 1;
      PutOne(buffer, end, '0');
      return;
    }
    FillingStarts(start, value, 10, at, size);
    while num > 0
      invariant Filling(buffer[..], start, Minimal(value, 10), Rest(num, 10), at, end, at + size)
      decreases num
    {
      end, num := PutDigit(buffer, start, Minimal(value, 10), num, 10, at, end, at + size);
    }
    FillingDone(buffer[..], start, Minimal(value, 10), at, end, at + size, 10);
  }

  // For base 2^step: num & (base - 1) is num % base, and num >> step is num / base.
  method WriteIntTwoBase(value: nat, buffer: array<char>, at: nat, size: nat, base: nat)
    requires IsValidBase(base) && at + size <= buffer.Length && size == |Minimal(value, base)|
    modifies buffer
    ensures Placed(old(buffer[..]), buffer[..], at, Minimal(value, base))
  {
    var end: nat, num: nat := at + size, value;
    ghost var start, text := buffer[..], Minimal(value, base);
    if num == 0 {
      ZeroDigit(base);
      end := end - 1;
      PutOne(buffer, end, DigitChar(num % base));
      return;
    }
    FillingStarts(start, value, base, at, size);
    while num != 0
      invariant Filling(buffer[..], start, text, Rest(num, base), at, end, at + size)
      decreases num
    {
      end, num := PutDigit(buffer, start, text, num, base, at, end, at + size);
    }
    FillingDone(buffer[..], start, text, at, end, at + size, base);
  }

  // One turn of either loop.
  method PutDigit(
      buffer: array<char>, ghost start: string, ghost text: string, num: nat, base: nat, at: nat, end: nat, stop: nat)
      returns (e: nat, m: nat)
    requires 2 <= base <= 36 && num > 0 && Filling(buffer[..], start, text, Rest(num, base), at, end, stop)
    modifies buffer
    ensures Filling(buffer[..], start, text, Rest(m, base), at, e, stop) && m < num
  {
    FillingStep(buffer[..], start, text, num, base, at, end, stop);
    ghost var now := buffer[..];
    e, m := end - 1, num / base;
    buffer[e] := DigitChar(num % base);
    assert buffer[..] == now[e := DigitChar(num % base)];
    if num >= base { DivLess(num, base); } else { DivSmall(num, base); }
  }

  method Set(buffer: array<char>, at: nat, c: char, n: nat)
    requires at + n <= buffer.Length
    modifies buffer
    ensures Placed(old(buffer[..]), buffer[..], at, Repeat(c, n))
  {
    ghost var start := buffer[..];
    for i := 0 to n
      invariant Placed(start, buffer[..], at, Repeat(c, i))
    {
      ghost var now := buffer[..];
      PlacedBehind(start, now, at, Repeat(c, i), c);
      buffer[at + i] := c;
      assert buffer[..] == now[at + i := c] && Repeat(c, i + 1) == Repeat(c, i) + [c];
    }
  }

  lemma PowerOfBits(base: int)
    requires IsValidBase(base) && base != 10
    ensures Power(2, BitsPerDigit(base)) == base
  {
    assert Power(2, 0) == 1 && Power(2, 1) == 2 && Power(2, 2) == 4;
    assert Power(2, 3) == 8 && Power(2, 4) == 16 && Power(2, 5) == 32;
  }

  // UInt64ToStringEx on buffer[at..]: the numeral and a terminating NUL, and nothing else.
  method UInt64ToStringEx(value: nat, buffer: array<char>, at: nat, base: int, padding: int, padChar: char)
      returns (count: nat)
    requires value < WORD_LIMIT
    requires IsValidBase(base) ==> at + |Numeral(value, base, padding, padChar)| < buffer.Length
    modifies buffer
    ensures !IsValidBase(base) ==> count == 0 && buffer[..] == old(buffer[..])
    ensures IsValidBase(base) ==>
              && count == |Numeral(value, base, padding, padChar)|
              && Placed(old(buffer[..]), buffer[..], at, Numeral(value, base, padding, padChar) + [0 as char])
  {
    if !IsValidBase(base) {
      return 0;
    }
    ghost var start, digits := buffer[..], Minimal(value, base);
    var total, toFill := WriteDigits(value, buffer, at, base, padding);
    ghost var written := buffer[..];
    Set(buffer, at, padChar, toFill);
    PlacedFront(start, written, buffer[..], at, Repeat(padChar, toFill), digits);
    total := total + toFill;
    ghost var now := buffer[..];
    PlacedBehind(start, now, at, Repeat(padChar, toFill) + digits, 0 as char);
    buffer[at + total] := 0 as char;
    assert buffer[..] == now[at + total := 0 as char];
    count := total;
  }

  // How many digits and how much padding, and the digits into place.
  method WriteDigits(value: nat, buffer: array<char>, at: nat, base: int, padding: int)
      returns (total: nat, toFill: nat)
    requires value < WORD_LIMIT && IsValidBase(base)
    requires at + Fill(value, base, padding) + |Minimal(value, base)| < buffer.Length
    modifies buffer
    ensures total == |Minimal(value, base)| && toFill == Fill(value, base, padding)
    ensures Placed(old(buffer[..]), buffer[..], at + toFill, Minimal(value, base))
  {
    if base == 10 {
      DecimalLength(value);
      total := CountDecDigit(value);
      toFill := Missing(padding, total);
      WriteIntDecimal(value, buffer, at + toFill, total);
    } else {
      var bitsPerDigit := TopBit(base);
      assert bitsPerDigit == BitsPerDigit(base);
      total := DigitCount(value, base, bitsPerDigit);
      var width := padding;
      if padding < 0 {
        width := (64 + bitsPerDigit - 1) / bitsPerDigit;
      }
      toFill := Missing(width, total);
      WriteIntTwoBase(value, buffer, at + toFill, total, base);
    }
  }

  method Missing(width: int, total: nat) returns (toFill: nat)
    ensures toFill == if width > total then width - total else 0
  {
    toFill := 0;
    if width > total {
      toFill := width - total;
    }
  }

  method DigitCount(value: nat, base: int, bitsPerDigit: nat) returns (total: nat)
    requires IsValidBase(base) && base != 10 && bitsPerDigit == BitsPerDigit(base)
    ensures total == |Minimal(value, base)|
  {
    PowerOfBits(base);
    TwoBaseLength(value, bitsPerDigit);
    if value == 0 {
      total := 1;
    } else {
      var bitsInValue := TopBit(value) + 1;
      total := (bitsInValue + bitsPerDigit - 1) / bitsPerDigit;
    }
  }

  // ---------------------------------------------------------------- signed numbers

  // The sign comes before the padding and counts towards the width.
  function SignedNumeral(value: int, padding: int, padChar: char): string {
    if value < 0 then "-" + Numeral(-value, 10, padding - 1, padChar) else Numeral(value, 10, padding, padChar)
  }

  // The text is '-' for a negative number, then padding up to the width asked, then the digits that read back as the
  // magnitude.
  lemma SignedNumeralMeans(value: int, padding: int, padChar: char)
    ensures var magnitude: nat := if value < 0 then -value else value;
            var sign, digits := if value < 0 then "-" else "", Minimal(magnitude, 10);
            var fill: nat := if padding > |sign| + |digits| then padding - |sign| - |digits| else 0;
            && SignedNumeral(value, padding, padChar) == sign + Repeat(padChar, fill) + digits
            && AllDigits(digits, 10) && Value(digits, 10) == magnitude && (|digits| > 1 ==> digits[0] != '0')
  {
    var magnitude: nat := if value < 0 then -value else value;
    ValueOfMinimal(magnitude, 10);
    if magnitude > 0 { NoLeadingZero(magnitude, 10); }
    if value < 0 {
      var pad, digits := Repeat(padChar, Fill(magnitude, 10, padding - 1)), Minimal(magnitude, 10);
      assert "-" + (pad + digits) == "-" + pad + digits;
    } else {
      var pad, digits := Repeat(padChar, Fill(magnitude, 10, padding)), Minimal(magnitude, 10);
      assert "" + pad + digits == pad + digits;
    }
  }

  // Without padding, or padded with zeros, the whole text is a number, and the one printed.
  lemma SignedReadsBack(value: int, padding: int, padChar: char)
    requires padding <= 0 || padChar == '0'
    ensures var s := SignedNumeral(value, padding, padChar); IsNumber(s) && NumberOf(s) == value
  {
    var s := SignedNumeral(value, padding, padChar);
    var magnitude: nat := if value < 0 then -value else value;
    var width := if value < 0 then padding - 1 else padding;
    WholeNumeral(magnitude, width, padChar);
    assert IsDigit(Numeral(magnitude, 10, width, padChar)[0], 10);
    assert Magnitude(s) == Numeral(magnitude, 10, width, padChar);
  }

  lemma WholeNumeral(magnitude: nat, width: int, padChar: char)
    requires width <= 0 || padChar == '0'
    ensures var s := Numeral(magnitude, 10, width, padChar); AllDigits(s, 10) && Value(s, 10) == magnitude
  {
    NumeralReadsBack(magnitude, 10, width, padChar);
    if width <= 0 { assert Numeral(magnitude, 10, width, padChar)[0..] == Numeral(magnitude, 10, width, padChar); }
  }

  // ... and it is the shortest text for it: no other number text without leading zeros has that value.
  lemma SignedShortest(value: int, padChar: char, token: string)
    requires IsNumber(token) && NumberOf(token) == value
    requires |Magnitude(token)| > 1 ==> Magnitude(token)[0] != '0'
    requires Negative(token) ==> value != 0
    ensures token == SignedNumeral(value, 0, padChar)
  {
    MinimalUnique(Magnitude(token), 10);
    var magnitude: nat := if value < 0 then -value else value;
    assert Repeat(padChar, 0) + Minimal(magnitude, 10) == Minimal(magnitude, 10);
    assert Negative(token) ==> token == "-" + Magnitude(token);
  }

  method Int64ToStringEx(value: int, buffer: array<char>, padding: int, padChar: char) returns (count: nat)
    requires -(INT_MIN_MAGNITUDE as int) <= value <= INT_MAX
    requires |SignedNumeral(value, padding, padChar)| < buffer.Length
    modifies buffer
    ensures count == |SignedNumeral(value, padding, padChar)|
    ensures Placed(old(buffer[..]), buffer[..], 0, SignedNumeral(value, padding, padChar) + [0 as char])
    ensures padding <= 0 || padChar == '0' ==> IsNumber(buffer[..count]) && NumberOf(buffer[..count]) == value
  {
    ghost var start := buffer[..];
    if value < 0 {
      count := WriteNegative(value, buffer, padding, padChar);
    } else {
      count := UInt64ToStringEx(value, buffer, 0, 10, padding, padChar);
    }
    PlacedText(start, buffer[..], SignedNumeral(value, padding, padChar), 0 as char);
    if padding <= 0 || padChar == '0' { SignedReadsBack(value, padding, padChar); }
  }

  lemma PlacedText(before: string, after: string, text: string, c: char)
    requires Placed(before, after, 0, text + [c])
    ensures |text| < |after| && after[..|text|] == text
  {}

  // The branch for negative numbers; the magnitude is computed without overflow.
  method WriteNegative(value: int, buffer: array<char>, padding: int, padChar: char) returns (count: nat)
    requires -(INT_MIN_MAGNITUDE as int) <= value < 0
    requires |SignedNumeral(value, padding, padChar)| < buffer.Length
    modifies buffer
    ensures count == |SignedNumeral(value, padding, padChar)|
    ensures Placed(old(buffer[..]), buffer[..], 0, SignedNumeral(value, padding, padChar) + [0 as char])
  {
    var magnitude: nat := -(value + 1) + 1;
    ghost var start, text := buffer[..], Numeral(magnitude, 10, padding - 1, padChar);
    count := UInt64ToStringEx(magnitude, buffer, 1, 10, padding - 1, padChar);
    ghost var written := buffer[..];
    buffer[0] := '-';
    count := count + 1;
    assert buffer[..] == written[0 := '-'];
    PlacedOne(written, 0, '-');
    PlacedFront(start, written, buffer[..], 0, "-", text + [0 as char]);
    assert "-" + (text + [0 as char]) == ("-" + text) + [0 as char];
  }
}

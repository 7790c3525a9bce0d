/**
 The calculator's integers (user/calc/main.c): the text it prints and the tokens it accepts.
 */
module Calculator {
  import opened Arithmetic
  import opened Digits

  const DIGIT_ROOM: nat := 20

  predicate InRange(v: int) {
    -0x8000_0000_0000_0000 <= v <= 0x7FFF_FFFF_FFFF_FFFF
  }

  // ---------------------------------------------------------------- what a token means

  function Decimal(v: int): string {
    if v < 0 then "-" + Minimal(-v, 10) else Minimal(v, 10)
  }

  // Printing and reading back gives the number, for all integers.
  lemma DecimalIsNumber(v: int)
    ensures IsNumber(Decimal(v)) && NumberOf(Decimal(v)) == v
  {
    var m := if v < 0 then -v else v;
    ValueOfMinimal(m, 10);
    assert IsDigit(Minimal(m, 10)[0], 10);
    assert Magnitude(Decimal(v)) == Minimal(m, 10);
  }

  // ---------------------------------------------------------------- parsing

  lemma {:induction false} PrefixValue(s: string, i: nat)
    requires AllDigits(s, 10) && i <= |s|
    ensures AllDigits(s[..i], 10) && Value(s[..i], 10) <= Value(s, 10)
    decreases |s|
  {
    if i < |s| {
      var init := s[..|s| - 1];
      assert s == init + [s[|s| - 1]];
      ValueSnoc(init, s[|s| - 1], 10);
      PrefixValue(init, i);
      assert init[..i] == s[..i];
    } else {
      assert s[..i] == s;
    }
  }

  // The overflow test before a digit is taken is exact.
  lemma ExactTest(m: nat, digit: nat, limit: nat)
    requires digit < 10
    ensures (m > limit / 10 || (m == limit / 10 && digit > limit % 10)) <==> m * 10 + digit > limit
  {}

  method ParseDigits(s: string, limit: nat) returns (ok: bool, magnitude: nat)
    ensures ok <==> AllDigits(s, 10) && Value(s, 10) <= limit
    ensures ok ==> magnitude == Value(s, 10)
  {
    magnitude := 0;
    var index := 0;
    while index < |s|
      invariant index <= |s| && AllDigits(s[..index], 10) && magnitude == Value(s[..index], 10) <= limit
    {
      assert s[..index + 1] == s[..index] + [s[index]];
      if !('0' <= s[index] <= '9') {
        assert !IsDigit(s[index], 10);
        return false, 0;
      }
      var digit := s[index] as nat - '0' as nat;
      assert IsDigit(s[index], 10) && DigitValue(s[index]) == digit;
      ValueSnoc(s[..index], s[index], 10);
      ExactTest(magnitude, digit, limit);
      if magnitude > limit / 10 || (magnitude == limit / 10 && digit > limit % 10) {
        if AllDigits(s, 10) { PrefixValue(s, index + 1); }
        return false, 0;
      }
      magnitude := magnitude * 10 + digit;
      index := index + 1;
    }
    assert s[..index] == s;
    ok := true;
  }

  // HoCalcParseInt64: accepts exactly the numbers in the int64 range.
  method ParseInt64(token: string) returns (ok: bool, value: int)
    ensures ok <==> IsNumber(token) && InRange(NumberOf(token))
    ensures ok ==> value == NumberOf(token)
  {
    if |token| == 0 {
      return false, 0;
    }
    var negative, limit := false, INT_MAX;
    if token[0] == '-' {
      if |token| == 1 {
        return false, 0;
      }
      negative, limit := true, INT_MIN_MAGNITUDE;
    }
    var digits := if negative then token[1..] else token;
    assert digits == Magnitude(token);
    var magnitude;
    ok, magnitude := ParseDigits(digits, limit);
    value := 0;
    if ok {
      if negative {
        value := if magnitude == INT_MIN_MAGNITUDE then -(INT_MAX as int) - 1 else -(magnitude as int);
      } else {
        value := magnitude;
      }
    }
  }

  // ---------------------------------------------------------------- printing

  function Reversed(s: string): (r: string)
    ensures |r| == |s|
  {
    if s == "" then "" else [s[|s| - 1]] + Reversed(s[..|s| - 1])
  }

  lemma {:induction false} ReversedAt(s: string, k: nat)
    requires k < |s|
    ensures Reversed(s)[k] == s[|s| - 1 - k]
  {
    if k > 0 { ReversedAt(s[..|s| - 1], k - 1); }
  }

  // The digits of a 64-bit magnitude, least significant first, in a 20-character array.
  method CollectDigits(magnitude: nat) returns (digits: array<char>, count: nat)
    requires magnitude <= INT_MIN_MAGNITUDE
    ensures fresh(digits) && digits.Length == DIGIT_ROOM && count == |Minimal(magnitude, 10)| <= DIGIT_ROOM
    ensures digits[..count] == Reversed(Minimal(magnitude, 10))
  {
    digits := new char[DIGIT_ROOM];
    count := 0;
    var rest := magnitude;
    ghost var text := Minimal(magnitude, 10);
    MagnitudeLength(magnitude);
    var more := true;
    while more
      invariant count <= |text| <= DIGIT_ROOM && (more ==> text[..|text| - count] == Minimal(rest, 10))
      invariant !more ==> count == |text|
      invariant forall k :: 0 <= k < count ==> digits[k] == text[|text| - 1 - k]
      decreases if more then rest + 1 else 0
    {
      ghost var left := text[..|text| - count];
      assert left == Minimal(rest, 10);
      LastDigit(rest);
      assert text[|text| - 1 - count] == left[|left| - 1];
      digits[count] := (48 + rest % 10) as char;
      count := count + 1;
      assert text[..|text| - count] == left[..|left| - 1];
      rest := rest / 10;
      more := rest != 0;
    }
    forall k | 0 <= k < count ensures digits[..count][k] == Reversed(text)[k] {
      ReversedAt(text, k);
    }
  }

  lemma LastDigit(m: nat)
    ensures var s := Minimal(m, 10);
            && |s| > 0 && s[|s| - 1] == (48 + m % 10) as char
            && (m >= 10 ==> s[..|s| - 1] == Minimal(m / 10, 10)) && (m < 10 ==> |s| == 1)
  {}

  lemma MagnitudeLength(m: nat)
    requires m <= INT_MIN_MAGNITUDE
    ensures |Minimal(m, 10)| <= DIGIT_ROOM
  {
    assert Power(10, 10) == 10000000000;
    assert Power(10, 20) == 100000000000000000000;
    Shorter(m, 20);
  }

  lemma {:induction false} Shorter(m: nat, k: nat)
    requires k > 0 && m < Power(10, k)
    ensures |Minimal(m, 10)| <= k
    decreases k
  {
    PowerStep(10, k);
    if m >= 10 {
      Shorter(m / 10, k - 1);
    }
  }

  // The loop that copies the collected digits out, most significant first.
  method CopyOut(buffer: array<char>, at: nat, digits: array<char>, count: nat, ghost text: string) returns (end: nat)
    requires count == |text| <= digits.Length && at + count <= buffer.Length && digits != buffer
    requires digits[..count] == Reversed(text)
    modifies buffer
    ensures end == at + count && buffer[..] == old(buffer[..at]) + text + old(buffer[end..])
  {
    end := at;
    var left := count;
    ghost var start := buffer[..];
    while left != 0
      invariant 0 <= left <= count && end == at + (count - left) && digits[..count] == Reversed(text)
      invariant buffer[..] == start[..at] + text[..count - left] + start[end..]
    {
      ghost var done := count - left;
      left := left - 1;
      ReversedAt(text, left);
      assert digits[left] == digits[..count][left] == text[done];
      assert text[..done + 1] == text[..done] + [text[done]];
      buffer[end] := digits[left];
      end := end + 1;
    }
    assert text[..count] == text;
  }

  // What the first part of HoCalcAppendInt64 writes.
  function Sign(value: int): string {
    if value < 0 then "-" else ""
  }

  method AppendSign(buffer: array<char>, offset: nat, capacity: nat, value: int) returns (ok: bool, end: nat)
    requires offset <= capacity <= buffer.Length
    modifies buffer
    ensures end <= capacity && (ok <==> offset + |Sign(value)| <= capacity)
    ensures ok ==> end == offset + |Sign(value)|
                   && buffer[..] == old(buffer[..offset]) + Sign(value) + old(buffer[end..])
  {
    end := offset;
    if value < 0 {
      if end + 1 > capacity {
        return false, end;
      }
      buffer[end] := '-';
      end := end + 1;
    }
    ok := true;
  }

  // The second part: the digits of the magnitude.
  method AppendMagnitude(buffer: array<char>, at: nat, capacity: nat, magnitude: nat) returns (ok: bool, end: nat)
    requires magnitude <= INT_MIN_MAGNITUDE && at <= capacity <= buffer.Length
    modifies buffer
    ensures ok <==> at + |Minimal(magnitude, 10)| <= capacity
    ensures ok ==> end == at + |Minimal(magnitude, 10)|
                   && buffer[..] == old(buffer[..at]) + Minimal(magnitude, 10) + old(buffer[end..])
  {
    ghost var start := buffer[..];
    var digits, count := CollectDigits(magnitude);
    assert buffer[..] == start;
    if at + count > capacity {
      return false, at;
    }
    end := CopyOut(buffer, at, digits, count, Minimal(magnitude, 10));
    ok := true;
  }

  lemma DecimalParts(value: int)
    ensures Decimal(value) == Sign(value) + Minimal(if value < 0 then -value else value, 10)
  {}

  // HoCalcAppendInt64; a false ok is HoUserAbort.
  method AppendInt64(buffer: array<char>, offset: nat, capacity: nat, value: int) returns (ok: bool, end: nat)
    requires InRange(value) && offset <= capacity <= buffer.Length
    modifies buffer
    ensures ok <==> offset + |Decimal(value)| <= capacity
    ensures ok ==> end == offset + |Decimal(value)|
                   && buffer[..] == old(buffer[..offset]) + Decimal(value) + old(buffer[end..])
  {
    ghost var start := buffer[..];
    var magnitude: nat := if value < 0 then -(value + 1) + 1 else value;
    DecimalParts(value);
    ok, end := AppendSign(buffer, offset, capacity, value);
    if !ok {
      return false, end;
    }
    ghost var signed := buffer[..];
    ok, end := AppendMagnitude(buffer, end, capacity, magnitude);
    if ok { Joined(start, signed, offset, Sign(value), Minimal(magnitude, 10)); }
  }

  lemma Joined(start: string, signed: string, offset: nat, sign: string, text: string)
    requires offset + |sign| + |text| <= |start| && signed == start[..offset] + sign + start[offset + |sign|..]
    ensures signed[..offset + |sign|] + text + signed[offset + |sign| + |text|..]
            == start[..offset] + (sign + text) + start[offset + |sign| + |text|..]
  {
    assert signed[..offset + |sign|] == start[..offset] + sign;
    assert signed[offset + |sign| + |text|..] == start[offset + |sign| + |text|..];
  }

  // Parsing undoes printing for every int64.
  method PrintThenParse(value: int) returns (text: string, ok: bool, parsed: int)
    requires InRange(value)
    ensures text == Decimal(value) && ok && parsed == value
  {
    var buffer := new char[DIGIT_ROOM + 1];
    var room, end := AppendInt64(buffer, 0, buffer.Length, value);
    MagnitudeLength(if value < 0 then -value else value);
    assert room;
    text := buffer[..end];
    DecimalIsNumber(value);
    ok, parsed := ParseInt64(text);
  }
}

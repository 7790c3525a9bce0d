/**
 Positional notation: the minimal digit string of a number and the value of a digit string.
 */
module Digits {
  import opened Arithmetic

  // DIGITS_STR[d]: '0' to '9', then 'A' to 'Z'.
  function DigitChar(d: nat): char
    requires d < 36
  {
    if d < 10 then (48 + d) as char else (55 + d) as char
  }

  predicate IsDigitChar(c: char) { '0' <= c <= '9' || 'A' <= c <= 'Z' }

  predicate IsDigit(c: char, base: nat) {
    IsDigitChar(c) && DigitValue(c) < base
  }

  function DigitValue(c: char): (d: nat)
    requires IsDigitChar(c)
    ensures d < 36
  {
    if c <= '9' then c as nat - 48 else c as nat - 55
  }

  // The digits are the ten figures and the capital letters, in order.
  lemma DigitTable(d: nat)
    requires d < 36
    ensures DigitChar(d) == "0123456789ABCDEFGHIJKLMNOPQRSTUVWXYZ"[d]
  {}

  lemma DigitRoundTrip(d: nat)
    requires d < 36
    ensures IsDigitChar(DigitChar(d)) && DigitValue(DigitChar(d)) == d
  {}

  lemma CharRoundTrip(c: char)
    requires IsDigitChar(c)
    ensures DigitChar(DigitValue(c)) == c
  {}

  predicate AllDigits(s: string, base: nat) {
    forall i :: 0 <= i < |s| ==> IsDigit(s[i], base)
  }

  // The number a digit string stands for.
  function Value(s: string, base: nat): nat
    requires AllDigits(s, base)
  {
    if s == "" then 0 else Value(s[..|s| - 1], base) * base + DigitValue(s[|s| - 1])
  }

  function Minimal(n: nat, base: nat): (s: string)
    requires 2 <= base <= 36
    ensures |s| > 0
    decreases n
  {
    if n < base then [DigitChar(n)] else DivLess(n, base); Minimal(n / base, base) + [DigitChar(n % base)]
  }

  lemma DivLess(n: nat, base: nat)
    requires 2 <= base <= n
    ensures n / base < n && n / base > 0
  {
    var q := n / base;
    DivMod(n, base);
    ProductMono(2, base, q);
    assert (q + 1) * base == q * base + base;
    LessFromProduct(1, q + 1, base);
  }

  lemma ValueSnoc(s: string, c: char, base: nat)
    requires AllDigits(s, base) && IsDigit(c, base)
    ensures AllDigits(s + [c], base) && Value(s + [c], base) == Value(s, base) * base + DigitValue(c)
  {
    assert (s + [c])[..|s|] == s;
  }

  // Reading the digits back gives the number.
  lemma {:induction false} ValueOfMinimal(n: nat, base: nat)
    requires 2 <= base <= 36
    ensures AllDigits(Minimal(n, base), base) && Value(Minimal(n, base), base) == n
    decreases n
  {
    if n < base {
      DigitRoundTrip(n);
      ValueSnoc("", DigitChar(n), base);
      assert "" + [DigitChar(n)] == [DigitChar(n)];
    } else {
      DivLess(n, base);
      DivMod(n, base);
      ValueOfMinimal(n / base, base);
      DigitRoundTrip(n % base);
      ValueSnoc(Minimal(n / base, base), DigitChar(n % base), base);
    }
  }

  // Any digit string without a leading zero is the minimal one of its value, so there is no other.
  lemma {:induction false} MinimalUnique(s: string, base: nat)
    requires 2 <= base <= 36 && s != "" && AllDigits(s, base) && (|s| > 1 ==> s[0] != '0')
    ensures s == Minimal(Value(s, base), base)
    ensures |s| > 1 ==> Value(s, base) >= base
    decreases |s|
  {
    var init, c := s[..|s| - 1], s[|s| - 1];
    var d := DigitValue(c);
    CharRoundTrip(c);
    assert s == init + [c];
    if |s| == 1 {
      assert init == "";
      assert Value("", base) * base == 0;
    } else {
      MinimalUnique(init, base);
      var v := Value(init, base);
      if |init| == 1 {
        CharRoundTrip(init[0]);
        assert init[..0] == "";
        assert v == 0 * base + DigitValue(init[0]);
      }
      assert v > 0;
      LeadAndLast(v, base, d);
    }
  }

  lemma LeadAndLast(v: nat, base: nat, d: nat)
    requires v > 0 && 0 < base && d < base
    ensures (v * base + d) / base == v && (v * base + d) % base == d && v * base + d >= base
  {
    var n := v * base + d;
    var q := n / base;
    DivMod(n, base);
    ProductMono(1, v, base);
    assert (q + 1) * base == q * base + base && (v + 1) * base == v * base + base;
    LessFromProduct(q, v + 1, base);
    LessFromProduct(v, q + 1, base);
  }

  // The minimal string has no leading zero.
  lemma {:induction false} NoLeadingZero(n: nat, base: nat)
    requires 2 <= base <= 36 && n > 0
    ensures Minimal(n, base)[0] != '0'
    decreases n
  {
    if n >= base {
      DivLess(n, base);
      NoLeadingZero(n / base, base);
    } else {
      DigitRoundTrip(n);
    }
  }

  // Leading zeros do not change the value.
  lemma {:induction false} LeadingZeros(s: string, base: nat, k: nat)
    requires base >= 1 && AllDigits(s, base)
    ensures AllDigits(Repeat('0', k) + s, base) && Value(Repeat('0', k) + s, base) == Value(s, base)
    decreases k + |s|
  {
    var z := Repeat('0', k) + s;
    if s != "" {
      assert z[..|z| - 1] == Repeat('0', k) + s[..|s| - 1];
      LeadingZeros(s[..|s| - 1], base, k);
    } else if k > 0 {
      assert z[..|z| - 1] == Repeat('0', k - 1) + "";
      LeadingZeros("", base, k - 1);
      assert 0 * base == 0;
    }
  }

  function Repeat(c: char, k: nat): (s: string)
    ensures |s| == k && forall i :: 0 <= i < k ==> s[i] == c
  {
    seq(k, _ => c)
  }

  // ---------------------------------------------------------------- signed tokens

  predicate Negative(token: string) {
    token != "" && token[0] == '-'
  }

  function Magnitude(token: string): string {
    if Negative(token) then token[1..] else token
  }

  // An optional minus and one or more decimal digits.
  predicate IsNumber(token: string) {
    Magnitude(token) != "" && AllDigits(Magnitude(token), 10)
  }

  function NumberOf(token: string): int
    requires IsNumber(token)
  {
    if Negative(token) then -(Value(Magnitude(token), 10) as int) else Value(Magnitude(token), 10)
  }

  // ---------------------------------------------------------------- lengths

  lemma DivBelow(n: nat, a: nat, b: nat)
    requires a > 0 && b > 0 && a * b <= n
    ensures b <= n / a
  {
    var q := n / a;
    DivMod(n, a);
    assert (q + 1) * a == q * a + a && b * a == a * b;
    LessFromProduct(b, q + 1, a);
  }

  lemma DivAbove(n: nat, a: nat, b: nat)
    requires a > 0 && b > 0 && n < a * b
    ensures n / a < b
  {
    var q := n / a;
    DivMod(n, a);
    assert b * a == a * b;
    LessFromProduct(q, b, a);
  }

  // A number has k digits exactly when it lies in [base^(k-1), base^k).
  lemma {:induction false} LengthOfMinimal(n: nat, base: nat, k: nat)
    requires 2 <= base <= 36 && k > 0 && n < Power(base, k) && (k > 1 ==> Power(base, k - 1) <= n)
    ensures |Minimal(n, base)| == k
    decreases n
  {
    PowerStep(base, k);
    if k > 1 {
      PowerStep(base, k - 1);
      DivLess(n, base);
      DivAbove(n, base, Power(base, k - 1));
      DivBelow(n, base, Power(base, k - 2));
      LengthOfMinimal(n / base, base, k - 1);
    }
  }
}

/** Decimal log positions: strings of digits of any length, compared without ever being
    converted to a fixed-width integer. */
module Decimal {
  import opened Options

  predicate IsDigit(c: char) {
    '0' <= c <= '9'
  }

  predicate IsDecimal(s: string) {
    s != "" && forall i :: 0 <= i < |s| ==> IsDigit(s[i])
  }

  function Digit(c: char): nat
    requires IsDigit(c)
  {
    c as int - '0' as int
  }

  function Pow10(n: nat): (p: nat)
    ensures p >= 1
  {
    if n == 0 then 1 else 10 * Pow10(n - 1)
  }

  /** The number a digit string denotes. */
  function Value(s: string): nat
    requires forall i :: 0 <= i < |s| ==> IsDigit(s[i])
  {
    if s == "" then 0 else Digit(s[0]) * Pow10(|s| - 1) + Value(s[1..])
  }

  // ---- the code ------------------------------------------------------------------------

  function TrimZeros(s: string): string {
    if s != "" && s[0] == '0' then TrimZeros(s[1..]) else s
  }

  function Normalized(s: string): Option<string> {
    if !IsDecimal(s) then None
    else if TrimZeros(s) == "" then Some("0")
    else Some(TrimZeros(s))
  }

  /** The loop of the source: reject non-digits, then cut leading zeros. */
  method NormalizedDecimalPosition(value: string) returns (r: Option<string>)
    ensures r == Normalized(value)
  {
    if value == "" {
      return None;
    }
    for i := 0 to |value|
      invariant forall k :: 0 <= k < i ==> IsDigit(value[k])
    {
      if value[i] < '0' || value[i] > '9' {
        return None;
      }
    }
    var start := 0;
    while start < |value| && value[start] == '0'
      invariant start <= |value|
      invariant TrimZeros(value[start..]) == TrimZeros(value)
    {
      assert value[start..][1..] == value[start + 1..];
      start := start + 1;
    }
    return Some(if start == |value| then "0" else value[start..]);
  }

  /** Byte-wise string order. */
  function CompareStrings(a: string, b: string): int {
    if a == "" then (if b == "" then 0 else -1)
    else if b == "" then 1
    else if a[0] < b[0] then -1
    else if a[0] > b[0] then 1
    else CompareStrings(a[1..], b[1..])
  }

  function Compare(candidate: string, existing: string): int {
    var c, e := Normalized(candidate), Normalized(existing);
    if c.None? then -1
    else if e.None? then 1
    else if |c.value| < |e.value| then -1
    else if |c.value| > |e.value| then 1
    else CompareStrings(c.value, e.value)
  }

  // ---- what it means -------------------------------------------------------------------

  function Sign(n: int): int {
    if n < 0 then -1 else if n > 0 then 1 else 0
  }

  lemma {:induction false} MulGap(d: nat, e: nat, p: nat)
    requires d < e
    ensures d * p + p <= e * p
  {
    if e > d + 1 {
      MulGap(d, e - 1, p);
    }
    assert e * p == (e - 1) * p + p;
  }

  lemma {:induction false} ValueBelowPow(s: string)
    requires forall i :: 0 <= i < |s| ==> IsDigit(s[i])
    ensures Value(s) < Pow10(|s|)
  {
    if s != "" {
      ValueBelowPow(s[1..]);
      MulGap(Digit(s[0]), 10, Pow10(|s| - 1));
    }
  }

  lemma {:induction false} Pow10Grows(m: nat, n: nat)
    requires m <= n
    ensures Pow10(m) <= Pow10(n)
    decreases n
  {
    if m < n {
      Pow10Grows(m, n - 1);
    }
  }

  lemma LeadingDigit(s: string)
    requires s != "" && (forall i :: 0 <= i < |s| ==> IsDigit(s[i])) && s[0] != '0'
    ensures Value(s) >= Pow10(|s| - 1)
  {
    MulGap(0, Digit(s[0]), Pow10(|s| - 1));
  }

  lemma {:induction false} TrimKeepsValue(s: string)
    requires forall i :: 0 <= i < |s| ==> IsDigit(s[i])
    ensures var t := TrimZeros(s);
            && (forall i :: 0 <= i < |t| ==> IsDigit(t[i]))
            && Value(t) == Value(s)
            && (t != "" ==> t[0] != '0')
  {
    if s != "" && s[0] == '0' {
      TrimKeepsValue(s[1..]);
    }
  }

  lemma NormalizedKeepsValue(s: string)
    requires IsDecimal(s)
    ensures var t := Normalized(s).value;
            IsDecimal(t) && Value(t) == Value(s) && (t == "0" || t[0] != '0')
  {
    TrimKeepsValue(s);
    if TrimZeros(s) == "" {
      assert Value("0") == 0;
    }
  }

  lemma {:induction false} SameLengthOrder(a: string, b: string)
    requires |a| == |b|
    requires forall i :: 0 <= i < |a| ==> IsDigit(a[i]) && IsDigit(b[i])
    ensures CompareStrings(a, b) == Sign(Value(a) - Value(b))
  {
    if a != "" {
      var p := Pow10(|a| - 1);
      ValueBelowPow(a[1..]);
      ValueBelowPow(b[1..]);
      if a[0] < b[0] {
        MulGap(Digit(a[0]), Digit(b[0]), p);
      } else if a[0] > b[0] {
        MulGap(Digit(b[0]), Digit(a[0]), p);
      } else {
        SameLengthOrder(a[1..], b[1..]);
      }
    }
  }

  lemma ShorterIsSmaller(a: string, b: string)
    requires IsDecimal(a) && IsDecimal(b) && |a| < |b| && b[0] != '0'
    ensures Value(a) < Value(b)
  {
    ValueBelowPow(a);
    LeadingDigit(b);
    Pow10Grows(|a|, |b| - 1);
  }

  /** For digit strings of any length, with any leading zeros, the comparison has the sign of
      the numeric difference. */
  lemma CompareIsNumeric(a: string, b: string)
    requires IsDecimal(a) && IsDecimal(b)
    ensures Compare(a, b) == Sign(Value(a) - Value(b))
  {
    NormalizedKeepsValue(a);
    NormalizedKeepsValue(b);
    var x, y := Normalized(a).value, Normalized(b).value;
    if |x| < |y| {
      ShorterIsSmaller(x, y);
    } else if |y| < |x| {
      ShorterIsSmaller(y, x);
    } else {
      SameLengthOrder(x, y);
    }
  }

  /** Hence a total preorder on positions. */
  lemma ComparePreorder(a: string, b: string, c: string)
    requires IsDecimal(a) && IsDecimal(b) && IsDecimal(c)
    ensures Compare(a, a) == 0
    ensures Compare(a, b) == -Compare(b, a)
    ensures Compare(a, b) <= 0 && Compare(b, c) <= 0 ==> Compare(a, c) <= 0
  {
    hide Compare;
    CompareIsNumeric(a, a);
    CompareIsNumeric(a, b);
    CompareIsNumeric(b, a);
    CompareIsNumeric(b, c);
    CompareIsNumeric(a, c);
  }

  // ---- printing ------------------------------------------------------------------------

  function DigitChar(d: nat): (c: char)
    requires d < 10
    ensures IsDigit(c) && Digit(c) == d
  {
    '0' + d as char
  }

  /** Decimal formatting of a natural number. */
  function Print(n: nat): (s: string)
    ensures IsDecimal(s)
    ensures n > 0 ==> s[0] != '0'
  {
    if n < 10 then [DigitChar(n)] else Print(n / 10) + [DigitChar(n % 10)]
  }

  lemma {:induction false} ValueOfAppend(s: string, c: char)
    requires (forall i :: 0 <= i < |s| ==> IsDigit(s[i])) && IsDigit(c)
    ensures Value(s + [c]) == 10 * Value(s) + Digit(c)
  {
    if s == "" {
      assert s + [c] == [c];
    } else {
      ValueOfAppend(s[1..], c);
      assert (s + [c])[1..] == s[1..] + [c];
      MulTen(Digit(s[0]), Pow10(|s| - 1));
    }
  }

  lemma MulTen(d: nat, p: nat)
    ensures d * (10 * p) == 10 * (d * p)
  {
  }

  /** Printing is undone by reading, so different numbers print differently. */
  lemma {:induction false} PrintRoundTrip(n: nat)
    ensures Value(Print(n)) == n
  {
    if n >= 10 {
      PrintRoundTrip(n / 10);
      ValueOfAppend(Print(n / 10), DigitChar(n % 10));
    }
  }
}

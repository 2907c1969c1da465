/** Decimal numerals of any length: `compareNumericStrings`, `strconv.Atoi` and `%d`. */
module Numerals {
  import opened Ordering
  import opened GoStrings

  const MAX_INT64 := 0x7fff_ffff_ffff_ffff

  function Pow10(n: nat): (p: int)
    ensures p >= 1
  {
    if n == 0 then 1 else 10 * Pow10(n - 1)
  }

  lemma {:induction false} Pow10Monotone(m: nat, n: nat)
    requires m <= n
    ensures Pow10(m) <= Pow10(n)
    decreases n
  {
    if m < n {
      Pow10Monotone(m, n - 1);
    }
  }

  function DigitValue(c: char): nat
    requires IsDigit(c)
  {
    c as int - '0' as int
  }

  /** The number a digit string denotes; the empty string denotes zero. */
  function NatValue(s: string): nat
    requires AllDigits(s)
  {
    if s == "" then 0 else 10 * NatValue(s[..|s| - 1]) + DigitValue(s[|s| - 1])
  }

  lemma {:induction false} LeadingDigit(s: string)
    requires AllDigits(s) && s != ""
    ensures NatValue(s) == DigitValue(s[0]) * Pow10(|s| - 1) + NatValue(s[1..])
  {
    var init, last := s[..|s| - 1], DigitValue(s[|s| - 1]);
    if init == "" {
      assert NatValue(s) == 10 * NatValue("") + last;
    } else {
      LeadingDigit(init);
      assert s[1..][..|s| - 2] == init[1..];
      TimesTen(DigitValue(s[0]), Pow10(|init| - 1));
    }
  }

  lemma TimesTen(d: int, p: int)
    ensures 10 * (d * p) == d * (10 * p)
  {}

  lemma {:induction false} NatValueBound(s: string)
    requires AllDigits(s)
    ensures NatValue(s) < Pow10(|s|)
  {
    if s != "" {
      NatValueBound(s[..|s| - 1]);
    }
  }

  predicate IsZero(c: char) {
    c == '0'
  }

  function CompareNumericStrings(a0: string, b0: string): int {
    var a, b := DropWhile(IsZero, a0), DropWhile(IsZero, b0);
    var a, b := if a == "" then "0" else a, if b == "" then "0" else b;
    if |a| != |b| then |a| - |b| else ListOrder(CharOrder, a, b)
  }

  lemma {:induction false} LeadingZerosDropped(s: string)
    requires AllDigits(s)
    ensures AllDigits(DropWhile(IsZero, s))
    ensures NatValue(DropWhile(IsZero, s)) == NatValue(s)
  {
    if s != "" && s[0] == '0' {
      LeadingZerosDropped(s[1..]);
      LeadingDigit(s);
      assert DropWhile(IsZero, s) == DropWhile(IsZero, s[1..]);
    } else {
      assert DropWhile(IsZero, s) == s;
    }
  }

  lemma LeadingDigitDecides(x: nat, y: nat, p: int, u: nat, v: nat)
    requires x < y && u < p
    ensures x * p + u < y * p + v
  {
    assert (x + 1) * p <= y * p;
  }

  lemma {:induction false} SameLengthOrder(a: string, b: string)
    requires AllDigits(a) && AllDigits(b) && |a| == |b|
    ensures ListOrder(CharOrder, a, b) == Sign(NatValue(a) - NatValue(b))
  {
    if a != "" {
      SameLengthOrder(a[1..], b[1..]);
      NatValueBound(a[1..]);
      NatValueBound(b[1..]);
      LeadingDigit(a);
      LeadingDigit(b);
      var x, y, p := DigitValue(a[0]), DigitValue(b[0]), Pow10(|a| - 1);
      if x < y {
        LeadingDigitDecides(x, y, p, NatValue(a[1..]), NatValue(b[1..]));
      } else if y < x {
        LeadingDigitDecides(y, x, p, NatValue(b[1..]), NatValue(a[1..]));
      }
    }
  }

  lemma {:induction false} LongerIsGreater(a: string, b: string)
    requires AllDigits(a) && AllDigits(b) && |a| < |b| && b[0] != '0'
    ensures NatValue(a) < NatValue(b)
  {
    NatValueBound(a);
    Pow10Monotone(|a|, |b| - 1);
    LeadingDigit(b);
    LeadingDigitDecides(0, DigitValue(b[0]), Pow10(|b| - 1), NatValue(a), NatValue(b[1..]));
  }

  lemma ZeroByValue()
    ensures NatValue("") == 0 && NatValue("0") == 0
  {
    assert "0"[..0] == "";
  }

  /** For digit strings of any length the result has the sign of the difference of the numbers. */
  lemma NumericStringsByValue(a0: string, b0: string)
    requires AllDigits(a0) && AllDigits(b0)
    ensures Sign(CompareNumericStrings(a0, b0)) == Sign(NatValue(a0) - NatValue(b0))
  {
    hide NatValue, ListOrder;
    LeadingZerosDropped(a0);
    LeadingZerosDropped(b0);
    SpanFacts(IsZero, a0);
    SpanFacts(IsZero, b0);
    ZeroByValue();
    var a, b := DropWhile(IsZero, a0), DropWhile(IsZero, b0);
    var x, y := if a == "" then "0" else a, if b == "" then "0" else b;
    if |x| < |y| {
      LongerIsGreater(x, y);
    } else if |y| < |x| {
      LongerIsGreater(y, x);
    } else {
      SameLengthOrder(x, y);
    }
  }

  /** More digits at the end never make a number smaller. */
  lemma {:induction false} NatValueExtended(a: string, b: string)
    requires AllDigits(a) && AllDigits(b)
    ensures AllDigits(a + b)
    ensures NatValue(a) <= NatValue(a + b)
  {
    if b == "" {
      assert a + b == a;
    } else {
      assert (a + b)[..|a + b| - 1] == a + b[..|b| - 1];
      NatValueExtended(a, b[..|b| - 1]);
    }
  }

  /** `strconv.Atoi` on a 64-bit platform: optional sign, digits, value in range. */
  function Atoi(s: string): (r: Option<int>)
    ensures r.Some? ==> -MAX_INT64 - 1 <= r.value <= MAX_INT64
  {
    var digits := if s != "" && (s[0] == '+' || s[0] == '-') then s[1..] else s;
    if digits == "" || !AllDigits(digits) then None
    else
      var v: int := if s[0] == '-' then -1 * NatValue(digits) else NatValue(digits);
      if -MAX_INT64 - 1 <= v <= MAX_INT64 then Some(v) else None
  }

  /** `%d` of a non-negative number. */
  function Itoa(n: nat): (s: string)
    ensures s != "" && AllDigits(s)
  {
    (if n < 10 then "" else Itoa(n / 10)) + [('0' as int + n % 10) as char]
  }

  /** Printing then reading gives the number back, so distinct numbers print differently. */
  lemma {:induction false} ItoaValue(n: nat)
    ensures NatValue(Itoa(n)) == n
  {
    var s := Itoa(n);
    if n >= 10 {
      ItoaValue(n / 10);
      assert s[..|s| - 1] == Itoa(n / 10);
    } else {
      assert s[..|s| - 1] == "";
    }
  }

  lemma ItoaInjective(m: nat, n: nat)
    requires Itoa(m) == Itoa(n)
    ensures m == n
  {
    ItoaValue(m);
    ItoaValue(n);
  }
}

/** The "epoch:" prefix of Debian and RPM versions, and Go's 64-bit subtraction of epochs. */
module VersionEpoch {
  import opened Ordering
  import opened GoStrings
  import opened Numerals

  /** `splitEpoch`: a prefix up to the first colon counts only if `strconv.Atoi` accepts it. */
  function SplitEpoch(v: string): (r: (int, string))
    ensures -MAX_INT64 - 1 <= r.0 <= MAX_INT64
    ensures |r.1| <= |v|
  {
    var colon := Index(v, ':');
    if colon == |v| then (0, v)
    else match Atoi(v[..colon]) {
      case None => (0, v)
      case Some(epoch) => (epoch, v[colon + 1..])
    }
  }

  function Epoch(v: string): (e: int)
    ensures -MAX_INT64 - 1 <= e <= MAX_INT64
  {
    SplitEpoch(v).0
  }

  /** Two's-complement wrap-around of a 64-bit result. */
  function Wrap64(x: int): (r: int)
    ensures -MAX_INT64 - 1 <= r <= MAX_INT64
  {
    (x + MAX_INT64 + 1) % (2 * MAX_INT64 + 2) - MAX_INT64 - 1
  }

  /** The difference of the epochs is a 64-bit number. */
  predicate EpochGapFits(a: string, b: string) {
    -MAX_INT64 - 1 <= Epoch(a) - Epoch(b) <= MAX_INT64
  }

  lemma WrappedSign(d: int)
    requires -2 * MAX_INT64 - 1 <= d <= 2 * MAX_INT64 + 1
    ensures Wrap64(d) == 0 <==> d == 0
    ensures Sign(Wrap64(d)) == Sign(d) <==> -MAX_INT64 - 1 <= d <= MAX_INT64
    ensures !(-MAX_INT64 - 1 <= d <= MAX_INT64) ==> Sign(Wrap64(d)) == -Sign(d)
  {
  }

  /** Go's `ae - be` has the sign of the difference exactly when the difference is a 64-bit number. */
  lemma EpochDifference(a: string, b: string)
    ensures Wrap64(Epoch(a) - Epoch(b)) == 0 <==> Epoch(a) == Epoch(b)
    ensures Sign(Wrap64(Epoch(a) - Epoch(b))) == Sign(Epoch(a) - Epoch(b)) <==> EpochGapFits(a, b)
    ensures !EpochGapFits(a, b) ==> Sign(Wrap64(Epoch(a) - Epoch(b))) == -Sign(Epoch(a) - Epoch(b))
  {
    hide Epoch;
    WrappedSign(Epoch(a) - Epoch(b));
  }

  lemma NonNegativeEpochsFit(a: string, b: string)
    requires Epoch(a) >= 0 && Epoch(b) >= 0
    ensures EpochGapFits(a, b)
  {
  }

  /** Writing an epoch in front of a version is read back as that epoch. */
  lemma PrintedEpoch(negative: bool, n: nat, rest: string)
    requires n <= MAX_INT64
    ensures SplitEpoch((if negative then "-" else "") + Itoa(n) + [':'] + rest) == (if negative then -1 * n else n, rest)
  {
    hide NatValue;
    var digits := Itoa(n);
    ItoaValue(n);
    var text := (if negative then "-" else "") + digits;
    var v := text + [':'] + rest;
    IndexIs(text, ':', rest);
    assert v[..|text|] == text && v[|text| + 1..] == rest;
    assert text[if negative then 1 else 0..] == digits;
  }

  /** A version without a colon has no epoch. */
  lemma NoEpoch(v: string)
    requires ':' !in v
    ensures SplitEpoch(v) == (0, v)
  {
    assert Index(v, ':') == |v|;
  }

  /** What counts as an epoch: an optional sign and digits, however many, whose value is a 64-bit number.  Anything else in
      front of the first colon, and the colon, stay part of the version. */
  lemma EpochExactly(sign: string, digits: string, rest: string)
    requires sign in ["", "+", "-"] && digits != "" && AllDigits(digits)
    ensures var value := if sign == "-" then -1 * NatValue(digits) else NatValue(digits);
      var v := sign + digits + [':'] + rest;
      SplitEpoch(v) == if -0x8000_0000_0000_0000 <= value <= 0x7fff_ffff_ffff_ffff then (value, rest) else (0, v)
  {
    hide NatValue;
    var text := sign + digits;
    var v := text + [':'] + rest;
    IndexIs(text, ':', rest);
    assert v[..|text|] == text && v[|text| + 1..] == rest;
    assert sign == "" ==> text == digits;
    assert sign != "" ==> text[1..] == digits;
  }

  lemma OtherPrefixIsNoEpoch(before: string, rest: string)
    requires ':' !in before
    requires forall sign: string, digits: string :: before == sign + digits ==>
      !(sign in ["", "+", "-"] && digits != "" && AllDigits(digits))
    ensures SplitEpoch(before + [':'] + rest) == (0, before + [':'] + rest)
  {
    hide NatValue;
    var v := before + [':'] + rest;
    IndexIs(before, ':', rest);
    assert v[..|before|] == before;
    assert before == "" + before;
    if before != "" && before[0] in "+-" {
      var sign := if before[0] == '-' then "-" else "+";
      assert before == sign + before[1..];
    }
  }
}

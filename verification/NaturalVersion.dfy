/** Natural version comparison, used for Alpine and for unknown sources. */
module NaturalVersion {
  import opened Ordering
  import opened GoStrings
  import opened Numerals

  // ----- The order, stated on segments -----

  /** Maximal runs of digits and of non-digits; digits keep their text. */
  datatype Segment = Text(text: string) | Number(text: string, value: nat)

  ghost predicate WellFormed(x: Segment) {
    && x.text != ""
    && (x.Number? ==> AllDigits(x.text) && x.value == NatValue(x.text))
    && (x.Text? ==> !IsDigit(x.text[0]))
  }

  function Class(s: string): char -> bool
    requires s != ""
  {
    if IsDigit(s[0]) then IsDigit else NotDigit
  }

  function FirstSegment(s: string): (x: Segment)
    requires s != ""
    ensures WellFormed(x)
  {
    SpanFacts(Class(s), s);
    var text := TakeWhile(Class(s), s);
    if IsDigit(s[0]) then Number(text, NatValue(text)) else Text(text)
  }

  function AfterSegment(s: string): (r: string)
    requires s != ""
    ensures |r| < |s|
  {
    SpanFacts(Class(s), s);
    DropWhile(Class(s), s)
  }

  function Segments(s: string): (r: seq<Segment>)
    ensures forall x :: x in r ==> WellFormed(x)
    decreases |s|
  {
    if s == "" then [] else [FirstSegment(s)] + Segments(AfterSegment(s))
  }

  /** Two numbers compare by value, anything else as raw text. */
  function SegmentOrder(x: Segment, y: Segment): int {
    if x.Number? && y.Number? then Sign(x.value - y.value) else ListOrder(CharOrder, x.text, y.text)
  }

  function NaturalOrder(a: string, b: string): (r: int)
    ensures -1 <= r <= 1
    ensures a == "" || b == "" ==> r == Sign(|a| - |b|)
  {
    ListOrder(SegmentOrder, Segments(a), Segments(b))
  }

  // ----- The comparator -----

  method TakeNaturalPart(s: string, numeric: bool) returns (r: string)
    ensures r == TakeWhile(if numeric then IsDigit else NotDigit, s)
  {
    ghost var p := if numeric then IsDigit else NotDigit;
    var i := 0;
    while i < |s| && IsDigit(s[i]) == numeric
      invariant i <= |s|
      invariant forall j :: 0 <= j < i ==> p(s[j])
    {
      i := i + 1;
    }
    SpanIs(p, s, i);
    return s[..i];
  }

  /** The sign of the segment order; in particular it always terminates. */
  method CompareNaturalVersion(a0: string, b0: string) returns (c: int)
    ensures Sign(c) == NaturalOrder(a0, b0)
  {
    hide NatValue, NaturalOrder, ListOrder, CompareNumericStrings;
    var a, b := a0, b0;
    while |a| > 0 || |b| > 0
      invariant NaturalOrder(a, b) == NaturalOrder(a0, b0)
      decreases |a| + |b|
    {
      if a == "" || b == "" {
        return |a| - |b|;
      }
      FirstSegmentDecides(a, b);
      var anum, bnum := IsDigit(a[0]), IsDigit(b[0]);
      SpanFacts(Class(a), a);
      SpanFacts(Class(b), b);
      var as_ := TakeNaturalPart(a, anum);
      var bs := TakeNaturalPart(b, bnum);
      if anum && bnum {
        NumericStringsByValue(as_, bs);
        c := CompareNumericStrings(as_, bs);
      } else {
        c := ListOrder(CharOrder, as_, bs);
      }
      if c != 0 {
        return c;
      }
      a := a[|as_|..];
      b := b[|bs|..];
    }
    return 0;
  }

  lemma {:induction false} FirstSegmentDecides(a: string, b: string)
    requires a != "" && b != ""
    ensures NaturalOrder(a, b) ==
      Then(SegmentOrder(FirstSegment(a), FirstSegment(b)), NaturalOrder(AfterSegment(a), AfterSegment(b)))
  {
    hide FirstSegment, AfterSegment, SegmentOrder, WellFormed, ListOrder;
    ListOrderUnfolds(SegmentOrder, FirstSegment(a), Segments(AfterSegment(a)), FirstSegment(b), Segments(AfterSegment(b)));
  }

  // ----- Total preorder -----

  lemma SegmentOrderIsTotal(x: Segment, y: Segment, z: Segment)
    requires WellFormed(x) && WellFormed(y) && WellFormed(z)
    ensures Opposite(SegmentOrder(x, y), SegmentOrder(y, x))
    ensures Transits(SegmentOrder(x, y), SegmentOrder(y, z), SegmentOrder(x, z))
  {
    StringOrderIsTotal(x.text, y.text, z.text);
  }

  /** Reflexive, antisymmetric in sign and transitive on all strings, though mixed segments compare as text. */
  lemma NaturalOrderIsTotal(a: string, b: string, c: string)
    ensures NaturalOrder(a, a) == 0
    ensures Opposite(NaturalOrder(a, b), NaturalOrder(b, a))
    ensures Transits(NaturalOrder(a, b), NaturalOrder(b, c), NaturalOrder(a, c))
  {
    forall x: Segment, y: Segment, z: Segment | WellFormed(x) && WellFormed(y) && WellFormed(z)
      ensures Opposite(SegmentOrder(x, y), SegmentOrder(y, x))
      ensures Transits(SegmentOrder(x, y), SegmentOrder(y, z), SegmentOrder(x, z))
    {
      SegmentOrderIsTotal(x, y, z);
    }
    ListOrderOpposite(SegmentOrder, Segments(a), Segments(a));
    ListOrderOpposite(SegmentOrder, Segments(a), Segments(b));
    ListOrderTransits(SegmentOrder, Segments(a), Segments(b), Segments(c));
  }

  /** A string never ranks above an extension of itself. */
  lemma {:induction false} ExtensionIsNotLower(a: string, s: string)
    ensures NaturalOrder(a, a + s) <= 0
    decreases |a|
  {
    hide NaturalOrder, FirstSegment, AfterSegment, SegmentOrder;
    if a != "" {
      FirstSegmentDecides(a, a + s);
      if AfterSegment(a) != "" {
        SegmentKept(a, s);
        SegmentOrderIsTotal(FirstSegment(a), FirstSegment(a), FirstSegment(a));
        ExtensionIsNotLower(AfterSegment(a), s);
      } else {
        SegmentGrows(a, s);
      }
    }
  }

  lemma {:induction false} SegmentKept(a: string, s: string)
    requires a != "" && AfterSegment(a) != ""
    ensures FirstSegment(a + s) == FirstSegment(a)
    ensures AfterSegment(a + s) == AfterSegment(a) + s
  {
    hide NatValue;
    assert Class(a + s) == Class(a);
    SpanThen(Class(a), a, s);
  }

  lemma {:induction false} SegmentGrows(a: string, s: string)
    requires a != "" && AfterSegment(a) == ""
    ensures SegmentOrder(FirstSegment(a), FirstSegment(a + s)) <= 0
  {
    hide NatValue, ListOrder;
    assert Class(a + s) == Class(a);
    var more := TakeWhile(Class(a), s);
    SpanFacts(Class(a), s);
    SpanThrough(Class(a), a, s);
    assert TakeWhile(Class(a), a) == a;
    if IsDigit(a[0]) {
      assert AllDigits(a) by {
        SpanFacts(IsDigit, a);
      }
      NatValueExtended(a, more);
    } else {
      assert a + "" == a;
      ListOrderSkip(CharOrder, a, "", more);
      assert ListOrder(CharOrder, "", more) <= 0 by {
        EmptyIsLowest(more);
      }
    }
  }

  lemma EmptyIsLowest(s: string)
    ensures ListOrder(CharOrder, "", s) <= 0
  {
  }

  // ----- Where two versions first differ -----

  predicate TextRun(s: string) {
    s != "" && forall i :: 0 <= i < |s| ==> NotDigit(s[i])
  }

  predicate NumberRun(s: string) {
    s != "" && AllDigits(s)
  }

  /** `s` does not go on in the class of the last character of `x`. */
  predicate Breaks(x: string, s: string) {
    x != "" && s != "" ==> IsDigit(x[|x| - 1]) != IsDigit(s[0])
  }

  lemma {:induction false} RunIsSegment(t: string, s: string)
    requires (TextRun(t) || NumberRun(t)) && Breaks(t, s)
    ensures FirstSegment(t + s).text == t && AfterSegment(t + s) == s
    ensures NumberRun(t) ==> FirstSegment(t + s) == Number(t, NatValue(t))
    ensures TextRun(t) ==> FirstSegment(t + s) == Text(t)
  {
    hide NatValue;
    SpanIs(Class(t + s), t + s, |t|);
  }

  /** What two versions have in common up to the end of a segment does not matter. */
  lemma {:induction false} CommonSegmentsDropped(x: string, y: string, z: string)
    requires Breaks(x, y) && Breaks(x, z)
    ensures NaturalOrder(x + y, x + z) == NaturalOrder(y, z)
    decreases |x|
  {
    hide NaturalOrder, FirstSegment, AfterSegment, SegmentOrder;
    if x == "" {
      assert x + y == y && x + z == z;
    } else {
      FirstSegmentDecides(x + y, x + z);
      SegmentBeforeBreak(x, y);
      SegmentBeforeBreak(x, z);
      SegmentOrderIsTotal(FirstSegment(x), FirstSegment(x), FirstSegment(x));
      CommonSegmentsDropped(AfterSegment(x), y, z);
    }
  }

  lemma {:induction false} SegmentBeforeBreak(x: string, y: string)
    requires x != "" && Breaks(x, y)
    ensures FirstSegment(x + y) == FirstSegment(x) && AfterSegment(x + y) == AfterSegment(x) + y
    ensures Breaks(AfterSegment(x), y)
  {
    hide NatValue;
    SpanFacts(Class(x), x);
    assert Class(x + y) == Class(x);
    SpanThen(Class(x), x, y);
  }

  /** Behind any common beginning that does not end in a digit, numbers compare by value: 1.9 is below 1.10. */
  lemma NumbersByValue(x: string, m: string, s: string, n: string, t: string)
    requires NumberRun(m) && NumberRun(n) && Breaks(m, s) && Breaks(n, t)
    requires x != "" ==> !IsDigit(x[|x| - 1])
    ensures NatValue(m) != NatValue(n) ==> NaturalOrder(x + (m + s), x + (n + t)) == Sign(NatValue(m) - NatValue(n))
    ensures NatValue(m) == NatValue(n) ==> NaturalOrder(x + (m + s), x + (n + t)) == NaturalOrder(s, t)
  {
    hide NaturalOrder, FirstSegment, AfterSegment, NatValue;
    CommonSegmentsDropped(x, m + s, n + t);
    FirstSegmentDecides(m + s, n + t);
    RunIsSegment(m, s);
    RunIsSegment(n, t);
  }

  /** Behind any common beginning that does not end in other text, text compares as it is written. */
  lemma TextsAsWritten(x: string, m: string, s: string, n: string, t: string)
    requires TextRun(m) && TextRun(n) && Breaks(m, s) && Breaks(n, t)
    requires x != "" ==> IsDigit(x[|x| - 1])
    ensures ListOrder(CharOrder, m, n) != 0 ==> NaturalOrder(x + (m + s), x + (n + t)) == ListOrder(CharOrder, m, n)
    ensures m == n ==> NaturalOrder(x + (m + s), x + (n + t)) == NaturalOrder(s, t)
  {
    hide NaturalOrder, FirstSegment, AfterSegment, ListOrder;
    CommonSegmentsDropped(x, m + s, n + t);
    FirstSegmentDecides(m + s, n + t);
    RunIsSegment(m, s);
    RunIsSegment(n, t);
    StringOrderIsTotal(m, m, m);
  }

  /** A number and a text at the beginning compare as they are written, so by their first characters; behind common text
      the number is the lower one, because it ends the text that the other goes on with. */
  lemma NumberAgainstText(x: string, m: string, s: string, n: string, t: string)
    requires NumberRun(m) && TextRun(n) && Breaks(m, s) && Breaks(n, t)
    ensures NaturalOrder(m + s, n + t) == ListOrder(CharOrder, m, n) == Sign(m[0] as int - n[0] as int)
    ensures TextRun(x) ==> NaturalOrder(x + (m + s), x + (n + t)) == -1
  {
    hide NaturalOrder, FirstSegment, AfterSegment;
    FirstSegmentDecides(m + s, n + t);
    RunIsSegment(m, s);
    RunIsSegment(n, t);
    if TextRun(x) {
      assert x + (n + t) == (x + n) + t;
      RunIsSegment(x, m + s);
      RunIsSegment(x + n, t);
      FirstSegmentDecides(x + (m + s), (x + n) + t);
      PrefixIsLower(x, n);
    }
  }

  lemma PrefixIsLower(x: string, n: string)
    requires n != ""
    ensures ListOrder(CharOrder, x, x + n) == -1
  {
    ListOrderSkip(CharOrder, x, "", n);
    assert x + "" == x;
  }
}

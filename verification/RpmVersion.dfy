/** RPM version comparison as this service defines it (not rpm's own algorithm). */
module RpmVersion {
  import opened Ordering
  import opened GoStrings
  import opened Numerals
  import opened VersionEpoch

  // ----- The order, stated on tokens -----

  datatype Token = Alpha(text: string) | Number(value: nat)

  predicate IsSeparator(c: char) {
    !(IsDigit(c) || IsLetter(c) || c == '~')
  }

  /** Letters and tilde. */
  predicate IsAlpha(c: char) {
    !IsDigit(c) && !IsSeparator(c)
  }

  function SkipSeparators(s: string): (r: string)
    ensures |r| <= |s|
    ensures r != "" ==> !IsSeparator(r[0])
  {
    SpanFacts(IsSeparator, s);
    DropWhile(IsSeparator, s)
  }

  /** The first token of a string that does not start with a separator, and what follows it. */
  function FirstToken(t: string): Token
    requires t != ""
  {
    SpanFacts(IsDigit, t);
    if IsDigit(t[0]) then Number(NatValue(TakeWhile(IsDigit, t))) else Alpha(TakeWhile(IsAlpha, t))
  }

  function AfterToken(t: string): (r: string)
    requires t != "" && !IsSeparator(t[0])
    ensures |r| < |t|
  {
    SpanFacts(if IsDigit(t[0]) then IsDigit else IsAlpha, t);
    DropWhile(if IsDigit(t[0]) then IsDigit else IsAlpha, t)
  }

  function Tokens(s: string): seq<Token>
    decreases |s|
  {
    var t := SkipSeparators(s);
    if t == "" then [] else [FirstToken(t)] + Tokens(AfterToken(t))
  }

  /** Letter tokens are below numbers; letters compare bytewise, numbers by value. */
  function TokenOrder(x: Token, y: Token): int {
    match (x, y)
    case (Number(m), Number(n)) => Sign(m - n)
    case (Alpha(s), Alpha(t)) => ListOrder(CharOrder, s, t)
    case (Number(_), Alpha(_)) => 1
    case (Alpha(_), Number(_)) => -1
  }

  /** Lexicographic on token lists; a proper prefix is lower. */
  function RpmPartOrder(a: string, b: string): (r: int)
    ensures -1 <= r <= 1
    ensures a == b == "" ==> r == 0
  {
    ListOrder(TokenOrder, Tokens(a), Tokens(b))
  }

  // ----- The comparator -----

  method TakeRPMPart(s: string, numeric: bool) returns (r: string)
    ensures r == TakeWhile(if numeric then IsDigit else IsAlpha, s)
  {
    ghost var p := if numeric then IsDigit else IsAlpha;
    var i := 0;
    while i < |s|
      invariant i <= |s|
      invariant forall j :: 0 <= j < i ==> p(s[j])
    {
      var isDigit := IsDigit(s[i]);
      if isDigit != numeric || IsSeparator(s[i]) {
        break;
      }
      i := i + 1;
    }
    SpanIs(p, s, i);
    return s[..i];
  }

  lemma {:induction false} TokensAfterSeparators(s: string)
    ensures Tokens(SkipSeparators(s)) == Tokens(s)
  {
    SpanIs(IsSeparator, SkipSeparators(s), 0);
  }

  lemma {:induction false} SkippingKeepsOrder(a: string, b: string)
    ensures RpmPartOrder(SkipSeparators(a), SkipSeparators(b)) == RpmPartOrder(a, b)
    ensures SkipSeparators(SkipSeparators(a)) == SkipSeparators(a)
    ensures SkipSeparators(SkipSeparators(b)) == SkipSeparators(b)
  {
    hide Tokens;
    TokensAfterSeparators(a);
    TokensAfterSeparators(b);
    SpanIs(IsSeparator, SkipSeparators(a), 0);
    SpanIs(IsSeparator, SkipSeparators(b), 0);
  }

  /** The sign of the token order; in particular it always terminates. */
  method RpmVerCmp(a0: string, b0: string) returns (c: int)
    ensures Sign(c) == RpmPartOrder(a0, b0)
  {
    hide NatValue, RpmPartOrder, SkipSeparators, ListOrder, CompareNumericStrings;
    var a, b := a0, b0;
    while |a| > 0 || |b| > 0
      invariant RpmPartOrder(a, b) == RpmPartOrder(a0, b0)
      decreases |a| + |b|
    {
      SkippingKeepsOrder(a, b);
      a, b := SkipSeparators(a), SkipSeparators(b);
      if a == "" || b == "" {
        LeftOver(a, b);
        return |a| - |b|;
      }
      FirstTokenDecides(a, b);
      var anum, bnum := IsDigit(a[0]), IsDigit(b[0]);
      if anum && !bnum {
        return 1;
      }
      if !anum && bnum {
        return -1;
      }
      SpanFacts(if anum then IsDigit else IsAlpha, a);
      SpanFacts(if bnum then IsDigit else IsAlpha, b);
      var as_ := TakeRPMPart(a, anum);
      var bs := TakeRPMPart(b, bnum);
      if anum {
        NumericStringsByValue(as_, bs);
        c := CompareNumericStrings(as_, bs);
      } else {
        c := ListOrder(CharOrder, as_, bs);
      }
      if c != 0 {
        return c;
      }
      a := a[|as_|..];
      b := b[|bs|..];
    }
    return 0;
  }

  lemma LeftOver(a: string, b: string)
    requires SkipSeparators(a) == a && SkipSeparators(b) == b
    requires a == "" || b == ""
    ensures RpmPartOrder(a, b) == Sign(|a| - |b|)
  {
  }

  lemma {:induction false} TokensUnfold(s: string)
    requires s != "" && SkipSeparators(s) == s
    ensures Tokens(s) == [FirstToken(s)] + Tokens(AfterToken(s))
  {
    hide FirstToken, AfterToken, SkipSeparators;
  }

  lemma {:induction false} FirstTokenDecides(a: string, b: string)
    requires a != "" && b != ""
    requires SkipSeparators(a) == a && SkipSeparators(b) == b
    ensures RpmPartOrder(a, b) ==
      Then(TokenOrder(FirstToken(a), FirstToken(b)), RpmPartOrder(AfterToken(a), AfterToken(b)))
  {
    hide FirstToken, AfterToken, SkipSeparators, Tokens, TokenOrder, ListOrder;
    TokensUnfold(a);
    TokensUnfold(b);
    ListOrderUnfolds(TokenOrder, FirstToken(a), Tokens(AfterToken(a)), FirstToken(b), Tokens(AfterToken(b)));
  }

  /** Epoch, then version and release as one token list. */
  function RpmOrder(a: string, b: string): int {
    Then(Epoch(a) - Epoch(b), RpmPartOrder(SplitEpoch(a).1, SplitEpoch(b).1))
  }

  method CompareRPMVersion(a: string, b: string) returns (c: int)
    ensures Sign(c) == Then(Wrap64(Epoch(a) - Epoch(b)), RpmPartOrder(SplitEpoch(a).1, SplitEpoch(b).1))
  {
    hide RpmPartOrder, Index, Atoi;
    EpochDifference(a, b);
    var (ae, av) := SplitEpoch(a);
    var (be, bv) := SplitEpoch(b);
    if ae != be {
      return Wrap64(ae - be);
    }
    c := RpmVerCmp(av, bv);
  }

  // ----- Total preorder -----

  lemma TokenOrderIsTotal(x: Token, y: Token, z: Token)
    ensures Opposite(TokenOrder(x, y), TokenOrder(y, x))
    ensures Transits(TokenOrder(x, y), TokenOrder(y, z), TokenOrder(x, z))
  {
    if x.Alpha? && y.Alpha? {
      StringOrderIsTotal(x.text, y.text, if z.Alpha? then z.text else "");
    }
  }

  lemma RpmPartOrderIsTotal(a: string, b: string, c: string)
    ensures RpmPartOrder(a, a) == 0
    ensures Opposite(RpmPartOrder(a, b), RpmPartOrder(b, a))
    ensures Transits(RpmPartOrder(a, b), RpmPartOrder(b, c), RpmPartOrder(a, c))
  {
    forall x: Token, y: Token, z: Token
      ensures Opposite(TokenOrder(x, y), TokenOrder(y, x))
      ensures Transits(TokenOrder(x, y), TokenOrder(y, z), TokenOrder(x, z))
    {
      TokenOrderIsTotal(x, y, z);
    }
    ListOrderOpposite(TokenOrder, Tokens(a), Tokens(a));
    ListOrderOpposite(TokenOrder, Tokens(a), Tokens(b));
    ListOrderTransits(TokenOrder, Tokens(a), Tokens(b), Tokens(c));
  }

  lemma RpmOrderIsTotal(a: string, b: string, c: string)
    ensures RpmOrder(a, a) == 0
    ensures Opposite(RpmOrder(a, b), RpmOrder(b, a))
    ensures Transits(RpmOrder(a, b), RpmOrder(b, c), RpmOrder(a, c))
  {
    hide RpmPartOrder, Epoch;
    RpmPartOrderIsTotal(SplitEpoch(a).1, SplitEpoch(b).1, SplitEpoch(c).1);
  }

  // ----- What the order cannot see -----

  lemma {:induction false} StringsEqualInOrder(s: string, t: string)
    requires ListOrder(CharOrder, s, t) == 0
    ensures s == t
  {
    if s != "" && t != "" {
      StringsEqualInOrder(s[1..], t[1..]);
      assert s == [s[0]] + s[1..] && t == [t[0]] + t[1..];
    }
  }

  lemma {:induction false} TokensEqualInOrder(xs: seq<Token>, ys: seq<Token>)
    requires ListOrder(TokenOrder, xs, ys) == 0
    ensures xs == ys
  {
    if xs != [] && ys != [] {
      if xs[0].Alpha? && ys[0].Alpha? {
        StringsEqualInOrder(xs[0].text, ys[0].text);
      }
      TokensEqualInOrder(xs[1..], ys[1..]);
      assert xs == [xs[0]] + xs[1..] && ys == [ys[0]] + ys[1..];
    }
  }

  /** Two strings compare equal exactly when they have the same tokens. */
  lemma EqualIffSameTokens(a: string, b: string)
    ensures RpmPartOrder(a, b) == 0 <==> Tokens(a) == Tokens(b)
  {
    RpmPartOrderIsTotal(a, b, b);
    if RpmPartOrder(a, b) == 0 {
      TokensEqualInOrder(Tokens(a), Tokens(b));
    }
    if Tokens(a) == Tokens(b) {
      RpmPartOrderIsTotal(a, a, a);
    }
  }

  predicate IsSeparatorRun(s: string) {
    s != "" && forall i :: 0 <= i < |s| ==> IsSeparator(s[i])
  }

  lemma {:induction false} FirstTokenKept(t: string, rest: string)
    requires t != "" && !IsSeparator(t[0])
    requires rest != "" ==> IsSeparator(rest[0])
    ensures FirstToken(t + rest) == FirstToken(t)
    ensures AfterToken(t + rest) == AfterToken(t) + rest
  {
    SpanThen(if IsDigit(t[0]) then IsDigit else IsAlpha, t, rest);
  }

  /** A run of separators only ends a token: which ones, and how many, does not matter. */
  lemma {:induction false} TokensAcrossSeparators(x: string, sep: string, y: string)
    requires IsSeparatorRun(sep)
    ensures Tokens(x + (sep + y)) == Tokens(x) + Tokens(y)
    decreases |x|
  {
    hide FirstToken, AfterToken, IsSeparator;
    var t := SkipSeparators(x);
    if t == "" {
      OnlySeparators(x, sep, y);
      TokensAfterSeparators(x + (sep + y));
      TokensAfterSeparators(y);
    } else {
      SpanThen(IsSeparator, x, sep + y);
      FirstTokenKept(t, sep + y);
      TokensAcrossSeparators(AfterToken(t), sep, y);
    }
  }

  lemma {:induction false} OnlySeparators(x: string, sep: string, y: string)
    requires SkipSeparators(x) == "" && IsSeparatorRun(sep)
    ensures SkipSeparators(x + (sep + y)) == SkipSeparators(y)
  {
    SpanIs(IsSeparator, sep, |sep|);
    SpanThrough(IsSeparator, sep, y);
    SpanThrough(IsSeparator, x, sep + y);
  }

  /** Which separators stand between two tokens, and around all of them, never shows. */
  lemma {:induction false} SeparatorsDoNotMatter(x: string, sep1: string, sep2: string, y: string, z: string)
    requires IsSeparatorRun(sep1) && IsSeparatorRun(sep2)
    ensures RpmPartOrder(x + (sep1 + y), z) == RpmPartOrder(x + (sep2 + y), z)
    ensures RpmPartOrder(sep1 + x, z) == RpmPartOrder(x, z)
    ensures RpmPartOrder(x + sep1, z) == RpmPartOrder(x, z)
  {
    hide Tokens;
    TokensAcrossSeparators(x, sep1, y);
    TokensAcrossSeparators(x, sep2, y);
    TokensAcrossSeparators("", sep1, x);
    TokensAcrossSeparators(x, sep1, "");
    NoTokens();
    assert "" + (sep1 + x) == sep1 + x && sep1 + "" == sep1;
    assert [] + Tokens(x) == Tokens(x) && Tokens(x) + [] == Tokens(x);
  }

  lemma NoTokens()
    ensures Tokens("") == []
  {
  }

  // ----- Where two versions first differ -----

  predicate AlphaRun(s: string) {
    s != "" && forall i :: 0 <= i < |s| ==> IsAlpha(s[i])
  }

  predicate NumberRun(s: string) {
    s != "" && AllDigits(s)
  }

  /** A beginning after which a new token starts. */
  predicate EndsToken(x: string) {
    x == "" || IsSeparator(x[|x| - 1])
  }

  /** What cannot go on with the run before it. */
  predicate Breaks(t: string, s: string) {
    t != "" && s != "" ==> IsSeparator(s[0]) || IsDigit(t[|t| - 1]) != IsDigit(s[0])
  }

  lemma {:induction false} RunIsToken(t: string, s: string)
    requires (AlphaRun(t) || NumberRun(t)) && Breaks(t, s)
    ensures Tokens(t + s) == [if IsDigit(t[0]) then Number(NatValue(t)) else Alpha(t)] + Tokens(s)
  {
    hide NatValue;
    var p := if IsDigit(t[0]) then IsDigit else IsAlpha;
    SpanIs(IsSeparator, t + s, 0);
    assert IsDigit(t[0]) ==> AllDigits(t);
    SpanIs(p, t + s, |t|);
    assert (t + s)[..|t|] == t && (t + s)[|t|..] == s;
  }

  /** What two versions have in common up to a separator does not matter. */
  lemma {:induction false} CommonTokensDropped(x: string, y: string, z: string)
    requires EndsToken(x)
    ensures RpmPartOrder(x + y, x + z) == RpmPartOrder(y, z)
  {
    hide Tokens, TokenOrder, ListOrder;
    if x == "" {
      assert x + y == y && x + z == z;
    } else {
      var (init, sep) := (x[..|x| - 1], [x[|x| - 1]]);
      assert x + y == init + (sep + y) && x + z == init + (sep + z);
      TokensAcrossSeparators(init, sep, y);
      TokensAcrossSeparators(init, sep, z);
      forall t: Token
        ensures TokenOrder(t, t) == 0
      {
        TokenOrderIsTotal(t, t, t);
      }
      ListOrderSkip(TokenOrder, Tokens(init), Tokens(y), Tokens(z));
    }
  }

  lemma {:induction false} TokenAfterCommon(x: string, m: string, s: string, n: string, t: string)
    requires EndsToken(x) && (AlphaRun(m) || NumberRun(m)) && (AlphaRun(n) || NumberRun(n)) && Breaks(m, s) && Breaks(n, t)
    ensures var (v, w) := (if IsDigit(m[0]) then Number(NatValue(m)) else Alpha(m), if IsDigit(n[0]) then Number(NatValue(n)) else Alpha(n));
      RpmPartOrder(x + (m + s), x + (n + t)) == Then(TokenOrder(v, w), RpmPartOrder(s, t))
  {
    hide Tokens, TokenOrder, ListOrder, NatValue;
    CommonTokensDropped(x, m + s, n + t);
    RunIsToken(m, s);
    RunIsToken(n, t);
    ListOrderUnfolds(TokenOrder, if IsDigit(m[0]) then Number(NatValue(m)) else Alpha(m), Tokens(s),
                     if IsDigit(n[0]) then Number(NatValue(n)) else Alpha(n), Tokens(t));
  }

  /** Behind a common beginning that ends in a separator, numbers compare by value. */
  lemma NumbersByValue(x: string, m: string, s: string, n: string, t: string)
    requires EndsToken(x) && NumberRun(m) && NumberRun(n) && Breaks(m, s) && Breaks(n, t)
    ensures NatValue(m) != NatValue(n) ==> RpmPartOrder(x + (m + s), x + (n + t)) == Sign(NatValue(m) - NatValue(n))
    ensures NatValue(m) == NatValue(n) ==> RpmPartOrder(x + (m + s), x + (n + t)) == RpmPartOrder(s, t)
  {
    hide RpmPartOrder, NatValue;
    TokenAfterCommon(x, m, s, n, t);
  }

  /** Letters, with the tilde among them, compare as they are written. */
  lemma LettersAsWritten(x: string, m: string, s: string, n: string, t: string)
    requires EndsToken(x) && AlphaRun(m) && AlphaRun(n) && Breaks(m, s) && Breaks(n, t)
    ensures ListOrder(CharOrder, m, n) != 0 ==> RpmPartOrder(x + (m + s), x + (n + t)) == ListOrder(CharOrder, m, n)
    ensures m == n ==> RpmPartOrder(x + (m + s), x + (n + t)) == RpmPartOrder(s, t)
  {
    hide RpmPartOrder, ListOrder;
    TokenAfterCommon(x, m, s, n, t);
    StringOrderIsTotal(m, m, m);
  }

  /** Letters are below numbers, and whatever goes on is above what ends. */
  lemma LettersBelowNumbers(x: string, m: string, s: string, n: string, t: string)
    requires EndsToken(x) && AlphaRun(m) && NumberRun(n) && Breaks(m, s) && Breaks(n, t)
    ensures RpmPartOrder(x + (m + s), x + (n + t)) == -1 && RpmPartOrder(x + (n + t), x + (m + s)) == 1
    ensures RpmPartOrder(x, x + (m + s)) == RpmPartOrder(x, x + (n + t)) == -1
  {
    hide RpmPartOrder, NatValue;
    TokenAfterCommon(x, m, s, n, t);
    TokenAfterCommon(x, n, t, m, s);
    CommonTokensDropped(x, "", m + s);
    CommonTokensDropped(x, "", n + t);
    assert x + "" == x;
    NothingIsLowest(m, s);
    NothingIsLowest(n, t);
  }

  lemma NothingIsLowest(t: string, s: string)
    requires (AlphaRun(t) || NumberRun(t)) && Breaks(t, s)
    ensures RpmPartOrder("", t + s) == -1
  {
    hide NatValue, Tokens;
    RunIsToken(t, s);
    NoTokens();
  }

  /** The epoch decides first. */
  lemma WrittenOrder(e: int, v: string, e': int, v': string)
    requires -MAX_INT64 <= e <= MAX_INT64 && -MAX_INT64 <= e' <= MAX_INT64
    ensures RpmOrder((if e < 0 then "-" + Itoa(-e) else Itoa(e)) + [':'] + v, (if e' < 0 then "-" + Itoa(-e') else Itoa(e')) + [':'] + v') ==
      Then(e - e', RpmPartOrder(v, v'))
    ensures ':' !in v && ':' !in v' ==> RpmOrder(v, v') == RpmPartOrder(v, v')
  {
    hide RpmPartOrder, SplitEpoch, Itoa;
    PrintedEpoch(e < 0, if e < 0 then -e else e, v);
    PrintedEpoch(e' < 0, if e' < 0 then -e' else e', v');
    assert e >= 0 ==> "" + Itoa(e) == Itoa(e);
    assert e' >= 0 ==> "" + Itoa(e') == Itoa(e');
    if ':' !in v && ':' !in v' {
      NoEpoch(v);
      NoEpoch(v');
    }
  }
}

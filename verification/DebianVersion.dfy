/** Debian version comparison (Debian Policy Manual, section 5.6.12). */
module DebianVersion {
  import opened Ordering
  import opened GoStrings
  import opened Numerals
  import opened VersionEpoch

  // ----- The order, stated on blocks -----

  /** A run of non-digits (possibly empty) followed by a number (absent reads as zero). */
  datatype Block = Block(run: string, num: nat)

  const EMPTY := Block("", 0)

  /** Tilde is below the end of the run, letters are below all other characters. */
  function Weight(c: char): int {
    if c == '~' then -1
    else if IsLetter(c) then c as int
    else c as int + 256
  }

  function Weights(run: string): seq<int> {
    if run == "" then [] else [Weight(run[0])] + Weights(run[1..])
  }

  function RunOrder(x: string, y: string): (r: int)
    ensures -1 <= r <= 1
  {
    PaddedOrder(IntOrder, 0, Weights(x), Weights(y))
  }

  function Run(s: string): string {
    TakeWhile(NotDigit, s)
  }

  function Digits(s: string): (r: string)
    ensures AllDigits(r)
  {
    SpanFacts(IsDigit, DropWhile(NotDigit, s));
    TakeWhile(IsDigit, DropWhile(NotDigit, s))
  }

  /** What follows the first block. */
  function Rest(s: string): (r: string)
    ensures |r| == |s| - |Run(s)| - |Digits(s)|
    ensures s != "" ==> |r| < |s|
  {
    SpanFacts(NotDigit, s);
    DropWhile(IsDigit, DropWhile(NotDigit, s))
  }

  function Blocks(s: string): seq<Block>
    decreases |s|
  {
    if s == "" then [] else [Block(Run(s), NatValue(Digits(s)))] + Blocks(Rest(s))
  }

  function BlockOrder(x: Block, y: Block): int {
    Then(RunOrder(x.run, y.run), x.num - y.num)
  }

  /** The order of two upstream parts, or of two revisions. */
  function PartOrder(a: string, b: string): (r: int)
    ensures -1 <= r <= 1
    ensures a == b == "" ==> r == 0
  {
    PaddedOrder(BlockOrder, EMPTY, Blocks(a), Blocks(b))
  }

  // ----- The comparator -----

  method TakeDebianNonDigit(s: string) returns (r: string)
    ensures r == TakeWhile(NotDigit, s)
  {
    var i := 0;
    while i < |s| && !IsDigit(s[i])
      invariant i <= |s|
      invariant forall j :: 0 <= j < i ==> NotDigit(s[j])
    {
      i := i + 1;
    }
    SpanIs(NotDigit, s, i);
    return s[..i];
  }

  method TakeDigits(s: string) returns (r: string)
    ensures r == TakeWhile(IsDigit, s)
  {
    var i := 0;
    while i < |s| && IsDigit(s[i])
      invariant i <= |s|
      invariant forall j :: 0 <= j < i ==> IsDigit(s[j])
    {
      i := i + 1;
    }
    SpanIs(IsDigit, s, i);
    return s[..i];
  }

  function DebianOrderChar(s: string): int {
    if s == "" then 0 else Weight(s[0])
  }

  method DebianLexCompare(a0: string, b0: string) returns (c: int)
    ensures Sign(c) == RunOrder(a0, b0)
  {
    var a, b := a0, b0;
    while |a| > 0 || |b| > 0
      invariant RunOrder(a, b) == RunOrder(a0, b0)
      decreases |a| + |b|
    {
      var ac, bc := DebianOrderChar(a), DebianOrderChar(b);
      if ac != bc {
        return ac - bc;
      }
      if |a| > 0 {
        a := a[1..];
      }
      if |b| > 0 {
        b := b[1..];
      }
    }
    return 0;
  }

  /** The sign of the block order; in particular it always terminates. */
  method DebianPartCompare(a0: string, b0: string) returns (c: int)
    ensures Sign(c) == PartOrder(a0, b0)
  {
    hide PartOrder, RunOrder, Run, Digits, Rest, CompareNumericStrings, TakeWhile, DropWhile, Span, AllDigits;
    var a, b := a0, b0;
    while |a| > 0 || |b| > 0
      invariant PartOrder(a, b) == PartOrder(a0, b0)
      decreases |a| + |b|
    {
      FirstBlockDecides(a, b);
      PartsByPosition(a);
      PartsByPosition(b);
      var an := TakeDebianNonDigit(a);
      var bn := TakeDebianNonDigit(b);
      c := DebianLexCompare(an, bn);
      if c != 0 {
        return c;
      }
      a := a[|an|..];
      b := b[|bn|..];
      var ad := TakeDigits(a);
      var bd := TakeDigits(b);
      c := CompareNumericStrings(ad, bd);
      if c != 0 {
        return c;
      }
      a := a[|ad|..];
      b := b[|bd|..];
    }
    return 0;
  }

  lemma PartsByPosition(s: string)
    ensures Run(s) == TakeWhile(NotDigit, s) && |Run(s)| <= |s|
    ensures var rest := s[|Run(s)|..];
      Digits(s) == TakeWhile(IsDigit, rest) && |Digits(s)| <= |rest| && Rest(s) == rest[|Digits(s)|..]
  {
  }

  lemma FirstBlockDecides(a: string, b: string)
    requires a != "" || b != ""
    ensures var (runs, digits) := (RunOrder(Run(a), Run(b)), CompareNumericStrings(Digits(a), Digits(b)));
      PartOrder(a, b) == if runs != 0 then runs else if digits != 0 then Sign(digits) else PartOrder(Rest(a), Rest(b))
    ensures |Rest(a)| + |Rest(b)| < |a| + |b|
  {
    hide RunOrder, Run, Digits, Rest, CompareNumericStrings, PartOrder, NatValue, AllDigits;
    PartOrderUnfolds(a, b);
    NumericStringsByValue(Digits(a), Digits(b));
  }

  lemma {:induction false} PartOrderUnfolds(a: string, b: string)
    requires a != "" || b != ""
    ensures PartOrder(a, b) ==
      Then(RunOrder(Run(a), Run(b)), Then(NatValue(Digits(a)) - NatValue(Digits(b)), PartOrder(Rest(a), Rest(b))))
  {
    hide Run, Digits, Rest;
    HeadBlock(a);
    HeadBlock(b);
    PaddedOrderUnfolds(BlockOrder, EMPTY, Blocks(a), Blocks(b));
  }

  lemma {:induction false} HeadBlock(s: string)
    ensures HeadOr(EMPTY, Blocks(s)) == Block(Run(s), NatValue(Digits(s)))
    ensures Tail(Blocks(s)) == Blocks(Rest(s))
  {
  }

  /** (upstream, revision): the revision follows the last dash. */
  function SplitRevision(v: string): (string, string) {
    var dash := LastIndex(v, '-');
    if dash >= 0 then (v[..dash], v[dash + 1..]) else (v, "")
  }

  function SplitDebianVersion(v: string): (int, string, string) {
    var (epoch, rest) := SplitEpoch(v);
    var (upstream, revision) := SplitRevision(rest);
    (epoch, upstream, revision)
  }

  function AfterEpoch(a: string, b: string): int {
    var ((_, au, ar), (_, bu, br)) := (SplitDebianVersion(a), SplitDebianVersion(b));
    Then(PartOrder(au, bu), PartOrder(ar, br))
  }

  /** Epoch, then upstream part, then revision. */
  function DebianOrder(a: string, b: string): int {
    Then(Epoch(a) - Epoch(b), AfterEpoch(a, b))
  }

  method CompareDebianVersion(a: string, b: string) returns (c: int)
    ensures Sign(c) == Then(Wrap64(Epoch(a) - Epoch(b)), AfterEpoch(a, b))
  {
    hide PartOrder, Index, Atoi;
    EpochDifference(a, b);
    var (ae, au, ar) := SplitDebianVersion(a);
    var (be, bu, br) := SplitDebianVersion(b);
    if ae != be {
      return Wrap64(ae - be);
    }
    c := DebianPartCompare(au, bu);
    if c != 0 {
      return c;
    }
    c := DebianPartCompare(ar, br);
  }

  // ----- Total preorder -----

  lemma RunOrderIsTotal(x: string, y: string, z: string)
    ensures Opposite(RunOrder(x, y), RunOrder(y, x))
    ensures Transits(RunOrder(x, y), RunOrder(y, z), RunOrder(x, z))
  {
    PaddedOrderOpposite(IntOrder, 0, Weights(x), Weights(y));
    PaddedOrderTransits(IntOrder, 0, Weights(x), Weights(y), Weights(z));
  }

  lemma BlockOrderIsTotal()
    ensures forall x, y :: Opposite(BlockOrder(x, y), BlockOrder(y, x))
    ensures forall x, y, z :: Transits(BlockOrder(x, y), BlockOrder(y, z), BlockOrder(x, z))
  {
    forall x: Block, y: Block, z: Block
      ensures Opposite(BlockOrder(x, y), BlockOrder(y, x))
      ensures Transits(BlockOrder(x, y), BlockOrder(y, z), BlockOrder(x, z))
    {
      RunOrderIsTotal(x.run, y.run, z.run);
    }
  }

  lemma PartOrderIsTotal(a: string, b: string, c: string)
    ensures PartOrder(a, a) == 0
    ensures Opposite(PartOrder(a, b), PartOrder(b, a))
    ensures Transits(PartOrder(a, b), PartOrder(b, c), PartOrder(a, c))
  {
    BlockOrderIsTotal();
    PaddedOrderOpposite(BlockOrder, EMPTY, Blocks(a), Blocks(a));
    PaddedOrderOpposite(BlockOrder, EMPTY, Blocks(a), Blocks(b));
    PaddedOrderTransits(BlockOrder, EMPTY, Blocks(a), Blocks(b), Blocks(c));
  }

  /** Reflexive, antisymmetric in sign and transitive on all strings. */
  lemma DebianOrderIsTotal(a: string, b: string, c: string)
    ensures DebianOrder(a, a) == 0
    ensures Opposite(DebianOrder(a, b), DebianOrder(b, a))
    ensures Transits(DebianOrder(a, b), DebianOrder(b, c), DebianOrder(a, c))
  {
    hide PartOrder;
    var ((_, au, ar), (_, bu, br), (_, cu, cr)) := (SplitDebianVersion(a), SplitDebianVersion(b), SplitDebianVersion(c));
    PartOrderIsTotal(au, bu, cu);
    PartOrderIsTotal(ar, br, cr);
  }

  // ----- Policy -----

  /** Tilde is below the end of the run, which is below every letter; letters are below all other characters; within a
      class characters follow their codes, so no two characters are equal. */
  lemma CharacterOrder(c: char, d: char)
    ensures (c == '~' <==> Weight(c) < 0) && Weight(c) != 0
    ensures IsLetter(c) && !IsLetter(d) && d != '~' ==> RunOrder([c], [d]) == -1
    ensures IsLetter(c) == IsLetter(d) && c != '~' && d != '~' ==> RunOrder([c], [d]) == Sign(c as int - d as int)
    ensures c != d ==> RunOrder([c], [d]) != 0
  {
    assert [c][1..] == "" && [d][1..] == "";
    assert Weights([c]) == [Weight(c)] && Weights([d]) == [Weight(d)];
    PaddedOrderUnfolds(IntOrder, 0, [Weight(c)], [Weight(d)]);
    assert [Weight(c)][1..] == [] && [Weight(d)][1..] == [];
  }

  lemma {:induction false} TildeLowersRun(run: string, more: string)
    requires HasPrefix(more, "~")
    ensures RunOrder(run + more, run) == -1
  {
    if run == "" {
      assert run + more == more;
    } else {
      assert (run + more)[1..] == run[1..] + more;
      TildeLowersRun(run[1..], more);
    }
  }

  /** The first block of a part that goes on after it is not changed by what is appended. */
  lemma FirstBlockKept(part: string, suffix: string)
    requires Span(NotDigit, part) < |part|
    requires suffix != "" ==> !IsDigit(suffix[0])
    ensures Run(part + suffix) == Run(part) && Digits(part + suffix) == Digits(part)
    ensures Rest(part + suffix) == Rest(part) + suffix
  {
    SpanThen(NotDigit, part, suffix);
    SpanThen(IsDigit, DropWhile(NotDigit, part), suffix);
  }

  /** A part followed by anything that begins with a tilde is strictly lower than the part. */
  lemma {:induction false} TildeLowersPart(part: string, suffix: string)
    requires HasPrefix(suffix, "~")
    ensures PartOrder(part + suffix, part) == -1
    decreases |part|
  {
    hide PartOrder, RunOrder, NatValue, Run, Digits, Rest;
    PartOrderUnfolds(part + suffix, part);
    if Span(NotDigit, part) == |part| {
      LastRunLowered(part, suffix);
    } else {
      FirstBlockKept(part, suffix);
      RunOrderIsTotal(Run(part), Run(part), Run(part));
      TildeLowersPart(Rest(part), suffix);
    }
  }

  lemma {:induction false} LastRunLowered(part: string, suffix: string)
    requires Span(NotDigit, part) == |part| && HasPrefix(suffix, "~")
    ensures RunOrder(Run(part + suffix), Run(part)) == -1
  {
    hide RunOrder;
    SpanThrough(NotDigit, part, suffix);
    assert Run(part) == part;
    TildeLowersRun(part, TakeWhile(NotDigit, suffix));
  }

  // ----- Versions as they are written -----

  /** [epoch:]upstream[-revision] */
  function Written(epoch: Option<int>, upstream: string, revision: Option<string>): string {
    (if epoch.None? then "" else (if epoch.value < 0 then "-" + Itoa(-epoch.value) else Itoa(epoch.value)) + ":")
    + upstream + if revision.None? then "" else "-" + revision.value
  }

  /** The writing is unambiguous: without an epoch there is no colon, without a revision no dash, and none in a revision. */
  predicate Readable(epoch: Option<int>, upstream: string, revision: Option<string>) {
    && (if epoch.None? then ':' !in upstream && (revision.Some? ==> ':' !in revision.value)
        else -MAX_INT64 <= epoch.value <= MAX_INT64)
    && (if revision.None? then '-' !in upstream else '-' !in revision.value)
  }

  lemma WrittenIsSplit(epoch: Option<int>, upstream: string, revision: Option<string>)
    requires Readable(epoch, upstream, revision)
    ensures SplitDebianVersion(Written(epoch, upstream, revision)) ==
      (if epoch.None? then 0 else epoch.value, upstream, if revision.None? then "" else revision.value)
  {
    hide SplitEpoch, Itoa;
    var rest := upstream + if revision.None? then "" else "-" + revision.value;
    var v := Written(epoch, upstream, revision);
    if epoch.None? {
      assert v == rest;
      NoEpoch(rest);
    } else {
      var (negative, n) := (epoch.value < 0, if epoch.value < 0 then -epoch.value else epoch.value);
      PrintedEpoch(negative, n, rest);
      assert v == (if negative then "-" else "") + Itoa(n) + [':'] + rest;
    }
    RevisionIsSplit(upstream, revision);
  }

  lemma RevisionIsSplit(upstream: string, revision: Option<string>)
    requires if revision.None? then '-' !in upstream else '-' !in revision.value
    ensures SplitRevision(upstream + if revision.None? then "" else "-" + revision.value) ==
      (upstream, if revision.None? then "" else revision.value)
  {
    if revision.None? {
      assert upstream + "" == upstream;
    } else {
      var v := upstream + ['-'] + revision.value;
      assert v == upstream + ("-" + revision.value);
      LastIndexIs(upstream, '-', revision.value);
      assert v[..|upstream|] == upstream && v[|upstream| + 1..] == revision.value;
    }
  }

  /** Epochs decide first, then the upstream parts, however many dashes they have, then the revisions; a missing epoch is
      zero and a missing revision empty. */
  lemma WrittenOrder(e: Option<int>, u: string, r: Option<string>, e': Option<int>, u': string, r': Option<string>)
    requires Readable(e, u, r) && Readable(e', u', r')
    ensures var (x, x') := (if e.None? then 0 else e.value, if e'.None? then 0 else e'.value);
      var (y, y') := (if r.None? then "" else r.value, if r'.None? then "" else r'.value);
      var (v, v') := (Written(e, u, r), Written(e', u', r'));
      && DebianOrder(v, v') == Then(x - x', Then(PartOrder(u, u'), PartOrder(y, y')))
      && Then(Wrap64(Epoch(v) - Epoch(v')), AfterEpoch(v, v')) == Then(Wrap64(x - x'), Then(PartOrder(u, u'), PartOrder(y, y')))
  {
    hide PartOrder, SplitRevision, SplitEpoch, Written, Readable, Wrap64;
    WrittenIsSplit(e, u, r);
    WrittenIsSplit(e', u', r');
  }

  // ----- Where two parts first differ -----

  lemma {:induction false} CommonRunDropped(x: string, y: string, z: string)
    ensures RunOrder(x + y, x + z) == RunOrder(y, z)
  {
    if x == "" {
      assert x + y == y && x + z == z;
    } else {
      assert (x + y)[1..] == x[1..] + y && (x + z)[1..] == x[1..] + z;
      CommonRunDropped(x[1..], y, z);
    }
  }

  /** Two runs are ordered by the first character in which they differ, where the end of a run is below everything but a
      tilde. */
  lemma FirstDifferentCharacterDecides(x: string, c: char, s: string, d: char, t: string)
    ensures c != d ==> RunOrder(x + ([c] + s), x + ([d] + t)) == RunOrder([c], [d])
    ensures RunOrder(x + ([c] + s), x) == if c == '~' then -1 else 1
    ensures RunOrder(x, x) == 0
  {
    CommonRunDropped(x, [c] + s, [d] + t);
    CommonRunDropped(x, [c] + s, "");
    CommonRunDropped(x, "", "");
    assert x + "" == x;
    CharacterOrder(c, d);
    FirstCharacterDecides([c] + s, [d] + t);
    FirstCharacterDecides([c], [d]);
    FirstCharacterDecides([c] + s, "");
  }

  lemma FirstCharacterDecides(x: string, y: string)
    requires x != ""
    ensures Weights(x)[0] == Weight(x[0])
    ensures y != "" && Weight(x[0]) != Weight(y[0]) ==> RunOrder(x, y) == Sign(Weight(x[0]) - Weight(y[0]))
    ensures y == "" && Weight(x[0]) != 0 ==> RunOrder(x, y) == Sign(Weight(x[0]))
  {
    PaddedOrderUnfolds(IntOrder, 0, Weights(x), Weights(y));
  }

  /** What two parts have in common up to the end of a number does not matter. */
  lemma {:induction false} CommonBlocksDropped(x: string, y: string, z: string)
    requires x != "" ==> IsDigit(x[|x| - 1])
    requires (y != "" ==> !IsDigit(y[0])) && (z != "" ==> !IsDigit(z[0]))
    ensures PartOrder(x + y, x + z) == PartOrder(y, z)
    decreases |x|
  {
    hide PartOrder, RunOrder, NatValue, Run, Digits, Rest;
    if x == "" {
      assert x + y == y && x + z == z;
    } else {
      EndsInNumber(x);
      FirstBlockKept(x, y);
      FirstBlockKept(x, z);
      PartOrderUnfolds(x + y, x + z);
      RunOrderIsTotal(Run(x), Run(x), Run(x));
      CommonBlocksDropped(Rest(x), y, z);
    }
  }

  lemma EndsInNumber(x: string)
    requires x != "" && IsDigit(x[|x| - 1])
    ensures Span(NotDigit, x) < |x|
    ensures Rest(x) != "" ==> IsDigit(Rest(x)[|Rest(x)| - 1])
  {
    SpanFacts(NotDigit, x);
  }

  lemma BlockParts(r: string, m: string, s: string)
    requires (forall i :: 0 <= i < |r| ==> NotDigit(r[i])) && AllDigits(m)
    requires (s != "" ==> !IsDigit(s[0])) && (m == "" ==> s == "")
    ensures Run(r + (m + s)) == r && Digits(r + (m + s)) == m && Rest(r + (m + s)) == s
  {
    SpanIs(NotDigit, r + (m + s), |r|);
    SpanIs(IsDigit, m + s, |m|);
    assert (r + (m + s))[|r|..] == m + s;
  }

  /** After a common beginning that ends in a number, the next runs of non-digits decide, then the numbers that follow them,
      by value. */
  lemma BlockAfterCommon(x: string, r: string, m: string, s: string, r': string, m': string, s': string)
    requires x != "" ==> IsDigit(x[|x| - 1]) && r != "" && r' != ""
    requires (forall i :: 0 <= i < |r| ==> NotDigit(r[i])) && AllDigits(m)
    requires (forall i :: 0 <= i < |r'| ==> NotDigit(r'[i])) && AllDigits(m')
    requires (s != "" ==> !IsDigit(s[0])) && (m == "" ==> s == "")
    requires (s' != "" ==> !IsDigit(s'[0])) && (m' == "" ==> s' == "")
    ensures RunOrder(r, r') != 0 ==> PartOrder(x + (r + (m + s)), x + (r' + (m' + s'))) == RunOrder(r, r')
    ensures RunOrder(r, r') == 0 && NatValue(m) != NatValue(m') ==>
      PartOrder(x + (r + (m + s)), x + (r' + (m' + s'))) == Sign(NatValue(m) - NatValue(m'))
  {
    hide PartOrder, RunOrder, NatValue, Run, Digits, Rest;
    BlockParts(r, m, s);
    BlockParts(r', m', s');
    if r + (m + s) != "" || r' + (m' + s') != "" {
      PartOrderUnfolds(r + (m + s), r' + (m' + s'));
    } else {
      assert r == r' == "" && m == m' == "";
      RunOrderIsTotal(r, r', r);
    }
    if x == "" {
      assert x + (r + (m + s)) == r + (m + s) && x + (r' + (m' + s')) == r' + (m' + s');
    } else {
      CommonBlocksDropped(x, r + (m + s), r' + (m' + s'));
    }
  }
}

/** The parts of Go's `strings`, `strconv` and `unicode` packages the service relies on.

    A Go string is a byte sequence; here it is a Dafny string whose characters are those bytes.
    Character classes are the ones `unicode` gives to a single byte read as a rune (Latin-1).
 */
module GoStrings {

  datatype Option<+T> = None | Some(value: T)

  /** Map lookup. */
  function Get<K, V>(m: map<K, V>, k: K): Option<V> {
    if k in m then Some(m[k]) else None
  }

  lemma MapsEqual<K, V>(m: map<K, V>, n: map<K, V>)
    requires forall k :: Get(m, k) == Get(n, k)
    ensures m == n
  {
    assert forall k :: k in m <==> Get(m, k).Some?;
    assert forall k :: k in n <==> Get(n, k).Some?;
    assert forall k :: k in m ==> Some(m[k]) == Get(m, k);
  }

  predicate IsDigit(c: char) {
    '0' <= c <= '9'
  }

  predicate NotDigit(c: char) {
    !IsDigit(c)
  }

  predicate IsLetter(c: char) {
    || 'A' <= c <= 'Z'
    || 'a' <= c <= 'z'
    || (c as int) in {0xAA, 0xB5, 0xBA}
    || 0xC0 <= c as int <= 0xD6
    || 0xD8 <= c as int <= 0xF6
    || 0xF8 <= c as int <= 0xFF
  }

  predicate AllDigits(s: string) {
    forall i :: 0 <= i < |s| ==> IsDigit(s[i])
  }

  /** Length of the longest prefix of `s` whose characters all satisfy `p`. */
  function Span(p: char -> bool, s: string): (n: nat)
    ensures n <= |s|
  {
    if s == "" || !p(s[0]) then 0 else 1 + Span(p, s[1..])
  }

  lemma {:induction false} SpanFacts(p: char -> bool, s: string)
    ensures var n := Span(p, s); (forall i :: 0 <= i < n ==> p(s[i])) && (n < |s| ==> !p(s[n]))
  {
    if s != "" && p(s[0]) {
      SpanFacts(p, s[1..]);
    }
  }

  /** What follows the span only matters if the span reaches the end. */
  lemma {:induction false} SpanThen(p: char -> bool, s: string, rest: string)
    requires Span(p, s) < |s| || (rest != "" ==> !p(rest[0]))
    ensures Span(p, s + rest) == Span(p, s)
    ensures TakeWhile(p, s + rest) == TakeWhile(p, s) && DropWhile(p, s + rest) == DropWhile(p, s) + rest
  {
    SpanFacts(p, s);
    SpanIs(p, s + rest, Span(p, s));
  }

  /** A span that reaches the end goes on into what follows. */
  lemma {:induction false} SpanThrough(p: char -> bool, s: string, rest: string)
    requires Span(p, s) == |s|
    ensures TakeWhile(p, s + rest) == s + TakeWhile(p, rest) && DropWhile(p, s + rest) == DropWhile(p, rest)
  {
    SpanFacts(p, s);
    SpanFacts(p, rest);
    SpanIs(p, s + rest, |s| + Span(p, rest));
  }

  lemma {:induction false} SpanIs(p: char -> bool, s: string, n: nat)
    requires n <= |s|
    requires forall i :: 0 <= i < n ==> p(s[i])
    requires n < |s| ==> !p(s[n])
    ensures Span(p, s) == n
  {
    if n > 0 {
      SpanIs(p, s[1..], n - 1);
    }
  }

  function TakeWhile(p: char -> bool, s: string): string {
    s[..Span(p, s)]
  }

  function DropWhile(p: char -> bool, s: string): string {
    s[Span(p, s)..]
  }

  /** Position of the first `c`, or |s|. */
  function Index(s: string, c: char): (n: nat)
    ensures n <= |s|
    ensures forall i :: 0 <= i < n ==> s[i] != c
    ensures n < |s| ==> s[n] == c
  {
    if s == "" || s[0] == c then 0 else 1 + Index(s[1..], c)
  }

  /** Position of the last `c`, or -1. */
  function LastIndex(s: string, c: char): (n: int)
    ensures -1 <= n < |s|
    ensures forall i :: n < i < |s| ==> s[i] != c
    ensures n >= 0 ==> s[n] == c
  {
    if s == "" then -1
    else if s[|s| - 1] == c then |s| - 1
    else LastIndex(s[..|s| - 1], c)
  }

  lemma {:induction false} IndexIs(left: string, c: char, right: string)
    requires c !in left
    ensures Index(left + [c] + right, c) == |left|
  {
    var s := left + [c] + right;
    assert forall i :: 0 <= i < |left| ==> s[i] == left[i];
    assert s[|left|] == c;
  }

  lemma {:induction false} LastIndexIs(left: string, c: char, right: string)
    requires c !in right
    ensures LastIndex(left + [c] + right, c) == |left|
  {
    var s := left + [c] + right;
    assert forall i :: |left| < i < |s| ==> s[i] == right[i - |left| - 1];
    assert s[|left|] == c;
  }

  predicate HasPrefix(s: string, prefix: string) {
    prefix <= s
  }

  predicate HasSuffix(s: string, suffix: string) {
    |suffix| <= |s| && s[|s| - |suffix|..] == suffix
  }

  function TrimPrefix(s: string, prefix: string): string {
    if HasPrefix(s, prefix) then s[|prefix|..] else s
  }

  function TrimSuffix(s: string, suffix: string): string {
    if HasSuffix(s, suffix) then s[..|s| - |suffix|] else s
  }

  // White space and case are those of ASCII.

  predicate IsSpace(c: char) {
    (c as int) in {9, 10, 11, 12, 13, 32}
  }

  predicate NotSpace(c: char) {
    !IsSpace(c)
  }

  function TrimRight(s: string): string {
    if s != "" && IsSpace(s[|s| - 1]) then TrimRight(s[..|s| - 1]) else s
  }

  function TrimSpace(s: string): string {
    TrimRight(DropWhile(IsSpace, s))
  }

  /** No white space at either end. */
  predicate Trimmed(s: string) {
    s != "" ==> !IsSpace(s[0]) && !IsSpace(s[|s| - 1])
  }

  lemma TrimSpaceOfTrimmed(s: string)
    requires Trimmed(s)
    ensures TrimSpace(s) == s
  {
    SpanIs(IsSpace, s, 0);
  }

  /** `strings.Fields`: the maximal runs of non-space characters. */
  function Fields(s: string): seq<string>
    decreases |s|
  {
    var rest := DropWhile(IsSpace, s);
    SpanFacts(IsSpace, s);
    SpanFacts(NotSpace, rest);
    if rest == "" then [] else [TakeWhile(NotSpace, rest)] + Fields(DropWhile(NotSpace, rest))
  }

  function ToUpperChar(c: char): char {
    if 'a' <= c <= 'z' then (c as int - 32) as char else c
  }

  function ToLowerChar(c: char): char {
    if 'A' <= c <= 'Z' then (c as int + 32) as char else c
  }

  function ToUpper(s: string): (r: string)
    ensures |r| == |s|
    ensures forall i :: 0 <= i < |s| ==> r[i] == ToUpperChar(s[i])
  {
    if s == "" then "" else [ToUpperChar(s[0])] + ToUpper(s[1..])
  }

  function ToLower(s: string): (r: string)
    ensures |r| == |s|
    ensures forall i :: 0 <= i < |s| ==> r[i] == ToLowerChar(s[i])
  {
    if s == "" then "" else [ToLowerChar(s[0])] + ToLower(s[1..])
  }

  predicate EqualFold(a: string, b: string) {
    ToLower(a) == ToLower(b)
  }

  /** `strings.Join`. */
  function Join(parts: seq<string>, sep: string): string {
    if parts == [] then ""
    else if |parts| == 1 then parts[0]
    else parts[0] + sep + Join(parts[1..], sep)
  }

  /** A string is split in one way only at its first `c`. */
  lemma {:induction false} SplitFirst(a: string, b: string, c: char, x: string, y: string)
    requires c !in a && c !in b
    requires a + [c] + x == b + [c] + y
    ensures a == b && x == y
  {
    IndexIs(a, c, x);
    IndexIs(b, c, y);
    var s := a + [c] + x;
    assert a == s[..|a|] && b == s[..|b|];
    assert x == s[|a| + 1..] && y == s[|b| + 1..];
  }

  /** A string is split in one way only at its last `c`. */
  lemma {:induction false} SplitLast(a: string, b: string, c: char, x: string, y: string)
    requires c !in x && c !in y
    requires a + [c] + x == b + [c] + y
    ensures a == b && x == y
  {
    LastIndexIs(a, c, x);
    LastIndexIs(b, c, y);
    var s := a + [c] + x;
    assert a == s[..|a|] && b == s[..|b|];
    assert x == s[|a| + 1..] && y == s[|b| + 1..];
  }

  // ----- The character classes, character by character -----

  const UPPER := "ABCDEFGHIJKLMNOPQRSTUVWXYZ"
  const LOWER := "abcdefghijklmnopqrstuvwxyz"

  lemma DigitsExactly(c: char)
    ensures IsDigit(c) <==> c in "0123456789"
  {
    if IsDigit(c) {
      assert "0123456789"[c as int - '0' as int] == c;
    }
  }

  lemma AlphabetByPosition(i: nat)
    requires i < 26
    ensures UPPER[i] as int == 65 + i && LOWER[i] as int == 97 + i
  {
  }

  lemma InAlphabet(c: char)
    ensures c in UPPER <==> 65 <= c as int <= 90
    ensures c in LOWER <==> 97 <= c as int <= 122
  {
    hide UPPER, LOWER;
    AlphabetLengths();
    forall i: nat | i < 26
      ensures UPPER[i] as int == 65 + i && LOWER[i] as int == 97 + i
    {
      AlphabetByPosition(i);
    }
    if 65 <= c as int <= 90 {
      assert UPPER[c as int - 65] == c;
    }
    if 97 <= c as int <= 122 {
      assert LOWER[c as int - 97] == c;
    }
  }

  lemma AlphabetLengths()
    ensures |UPPER| == |LOWER| == 26
  {
  }

  /** Of ASCII the 52 letters; of the rest of Latin-1 the two ordinals, the micro sign, and all from 0xC0 but the
      multiplication and division signs; nothing beyond. */
  lemma LettersExactly(c: char)
    ensures c as int < 128 ==> (IsLetter(c) <==> c in UPPER || c in LOWER)
    ensures 128 <= c as int <= 255 ==>
      (IsLetter(c) <==> c as int in {170, 181, 186} || (192 <= c as int && c as int != 215 && c as int != 247))
    ensures c as int > 255 ==> !IsLetter(c)
  {
    hide UPPER, LOWER;
    InAlphabet(c);
  }

  /** Case changes letter by letter and leaves everything else alone. */
  lemma CasesExactly(c: char, i: nat)
    requires i < 26
    ensures |UPPER| == |LOWER| == 26
    ensures ToLowerChar(UPPER[i]) == LOWER[i] && ToUpperChar(LOWER[i]) == UPPER[i]
    ensures c !in UPPER ==> ToLowerChar(c) == c
    ensures c !in LOWER ==> ToUpperChar(c) == c
  {
    hide UPPER, LOWER;
    AlphabetLengths();
    AlphabetByPosition(i);
    InAlphabet(c);
  }
}

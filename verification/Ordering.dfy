/** Three-way comparisons and how they lift to sequences.

    A comparison is a function to int of which only the sign matters.  Sequences are compared
    from the left, either with "a proper prefix is lower" (ListOrder) or as if the shorter one
    were followed by copies of a padding element (PaddedOrder).
 */
module Ordering {

  function Sign(v: int): int {
    if v < 0 then -1 else if v > 0 then 1 else 0
  }

  /** The first comparison that decides. */
  function Then(first: int, second: int): int {
    if first != 0 then Sign(first) else Sign(second)
  }

  /** What transitivity says of the comparisons xy, yz and xz. */
  predicate Transits(xy: int, yz: int, xz: int) {
    xy <= 0 && yz <= 0 ==> xz <= 0 && (xz == 0 <==> xy == 0 && yz == 0)
  }

  predicate Opposite(xy: int, yx: int) {
    Sign(xy) == -Sign(yx)
  }

  function IntOrder(x: int, y: int): int {
    Sign(x - y)
  }

  function CharOrder(x: char, y: char): int {
    Sign(x as int - y as int)
  }

  /** Lexicographic order in which a proper prefix is lower. */
  function ListOrder<T>(cmp: (T, T) -> int, xs: seq<T>, ys: seq<T>): (r: int)
    ensures -1 <= r <= 1
  {
    if xs == [] || ys == [] then Sign(|xs| - |ys|)
    else Then(cmp(xs[0], ys[0]), ListOrder(cmp, xs[1..], ys[1..]))
  }

  lemma {:induction false} ListOrderUnfolds<T>(cmp: (T, T) -> int, x: T, xs: seq<T>, y: T, ys: seq<T>)
    ensures ListOrder(cmp, [x] + xs, [y] + ys) == Then(cmp(x, y), ListOrder(cmp, xs, ys))
  {
    assert ([x] + xs)[1..] == xs && ([y] + ys)[1..] == ys;
  }

  lemma {:induction false} ListOrderOpposite<T>(cmp: (T, T) -> int, xs: seq<T>, ys: seq<T>)
    requires forall x, y :: x in xs && y in ys ==> Opposite(cmp(x, y), cmp(y, x))
    ensures Opposite(ListOrder(cmp, xs, ys), ListOrder(cmp, ys, xs))
  {
    if xs != [] && ys != [] {
      assert Opposite(cmp(xs[0], ys[0]), cmp(ys[0], xs[0]));
      ListOrderOpposite(cmp, xs[1..], ys[1..]);
    }
  }

  lemma {:induction false} ListOrderTransits<T>(cmp: (T, T) -> int, xs: seq<T>, ys: seq<T>, zs: seq<T>)
    requires forall x, y, z :: x in xs && y in ys && z in zs ==> Transits(cmp(x, y), cmp(y, z), cmp(x, z))
    ensures Transits(ListOrder(cmp, xs, ys), ListOrder(cmp, ys, zs), ListOrder(cmp, xs, zs))
  {
    if xs != [] && ys != [] && zs != [] {
      assert Transits(cmp(xs[0], ys[0]), cmp(ys[0], zs[0]), cmp(xs[0], zs[0]));
      ListOrderTransits(cmp, xs[1..], ys[1..], zs[1..]);
    }
  }

  function HeadOr<T>(pad: T, xs: seq<T>): T {
    if xs == [] then pad else xs[0]
  }

  function Tail<T>(xs: seq<T>): seq<T> {
    if xs == [] then [] else xs[1..]
  }

  /** Lexicographic order in which both lists are followed by copies of `pad`. */
  function PaddedOrder<T>(cmp: (T, T) -> int, pad: T, xs: seq<T>, ys: seq<T>): (r: int)
    ensures -1 <= r <= 1
    decreases |xs| + |ys|
  {
    if xs == [] && ys == [] then 0
    else Then(cmp(HeadOr(pad, xs), HeadOr(pad, ys)), PaddedOrder(cmp, pad, Tail(xs), Tail(ys)))
  }

  lemma PaddedOrderUnfolds<T>(cmp: (T, T) -> int, pad: T, xs: seq<T>, ys: seq<T>)
    requires xs != [] || ys != []
    ensures PaddedOrder(cmp, pad, xs, ys) ==
      Then(cmp(HeadOr(pad, xs), HeadOr(pad, ys)), PaddedOrder(cmp, pad, Tail(xs), Tail(ys)))
  {
  }

  lemma {:induction false} PaddedOrderOpposite<T(!new)>(cmp: (T, T) -> int, pad: T, xs: seq<T>, ys: seq<T>)
    requires forall x, y :: Opposite(cmp(x, y), cmp(y, x))
    ensures Opposite(PaddedOrder(cmp, pad, xs, ys), PaddedOrder(cmp, pad, ys, xs))
    decreases |xs| + |ys|
  {
    if xs != [] || ys != [] {
      assert Opposite(cmp(HeadOr(pad, xs), HeadOr(pad, ys)), cmp(HeadOr(pad, ys), HeadOr(pad, xs)));
      PaddedOrderOpposite(cmp, pad, Tail(xs), Tail(ys));
    }
  }

  lemma {:induction false} PaddedOrderTransits<T(!new)>(cmp: (T, T) -> int, pad: T, xs: seq<T>, ys: seq<T>, zs: seq<T>)
    requires forall x, y :: Opposite(cmp(x, y), cmp(y, x))
    requires forall x, y, z :: Transits(cmp(x, y), cmp(y, z), cmp(x, z))
    ensures Transits(PaddedOrder(cmp, pad, xs, ys), PaddedOrder(cmp, pad, ys, zs), PaddedOrder(cmp, pad, xs, zs))
    decreases |xs| + |ys| + |zs|
  {
    if xs != [] || ys != [] || zs != [] {
      var x, y, z := HeadOr(pad, xs), HeadOr(pad, ys), HeadOr(pad, zs);
      assert Opposite(cmp(pad, pad), cmp(pad, pad));
      assert Transits(cmp(x, y), cmp(y, z), cmp(x, z));
      PaddedOrderTransits(cmp, pad, Tail(xs), Tail(ys), Tail(zs));
    }
  }

  /** Equal heads can be dropped from both lists. */
  lemma {:induction false} ListOrderSkip<T>(cmp: (T, T) -> int, common: seq<T>, xs: seq<T>, ys: seq<T>)
    requires forall x :: x in common ==> cmp(x, x) == 0
    ensures ListOrder(cmp, common + xs, common + ys) == ListOrder(cmp, xs, ys)
  {
    if common == [] {
      assert common + xs == xs && common + ys == ys;
    } else {
      assert (common + xs)[1..] == common[1..] + xs && (common + ys)[1..] == common[1..] + ys;
      assert cmp(common[0], common[0]) == 0;
      ListOrderSkip(cmp, common[1..], xs, ys);
    }
  }

  lemma {:induction false} StringOrderIsTotal(x: string, y: string, z: string)
    ensures ListOrder(CharOrder, x, x) == 0
    ensures Opposite(ListOrder(CharOrder, x, y), ListOrder(CharOrder, y, x))
    ensures Transits(ListOrder(CharOrder, x, y), ListOrder(CharOrder, y, z), ListOrder(CharOrder, x, z))
  {
    ListOrderOpposite(CharOrder, x, x);
    ListOrderOpposite(CharOrder, x, y);
    ListOrderTransits(CharOrder, x, y, z);
  }
}

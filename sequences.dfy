/** Mapping a function over a sequence, and how that interacts with rearranging. */
module Sequences {

  /** `f` applied to every element of `s`, in order. */
  function MapSeq<T, U>(f: T -> U, s: seq<T>): (r: seq<U>)
    ensures |r| == |s|
  {
    if s == [] then [] else [f(s[0])] + MapSeq(f, s[1..])
  }

  lemma {:induction false} MapAppend<T, U>(f: T -> U, x: seq<T>, y: seq<T>)
    ensures MapSeq(f, x + y) == MapSeq(f, x) + MapSeq(f, y)
  {
    if x == [] {
      assert x + y == y;
    } else {
      assert (x + y)[1..] == x[1..] + y;
      MapAppend(f, x[1..], y);
    }
  }

  /** Taking one element out of the middle of a sequence takes its image out of the image. */
  lemma MapMiddle<T, U>(f: T -> U, left: seq<T>, x: T, right: seq<T>)
    ensures multiset(MapSeq(f, left + [x] + right)) == multiset(MapSeq(f, left + right)) + multiset{f(x)}
  {
    MapAppend(f, left + [x], right);
    MapAppend(f, left, [x]);
    MapAppend(f, left, right);
    assert MapSeq(f, [x]) == [f(x)];
  }

  lemma SplitAt<T>(b: seq<T>, x: T) returns (left: seq<T>, right: seq<T>)
    requires x in multiset(b)
    ensures b == left + [x] + right
  {
    var i :| 0 <= i < |b| && b[i] == x;
    left, right := b[..i], b[i + 1..];
    assert b == left + [x] + right;
  }

  lemma CancelFirst<T>(a: seq<T>, left: seq<T>, right: seq<T>)
    requires a != [] && multiset(a) == multiset(left + [a[0]] + right)
    ensures multiset(a[1..]) == multiset(left + right)
  {
    assert a == [a[0]] + a[1..];
    assert multiset(a[1..]) == multiset(a) - multiset{a[0]};
    assert multiset(left + [a[0]] + right) == multiset(left) + multiset{a[0]} + multiset(right);
  }

  lemma CancelHeads<T>(x: seq<T>, y: seq<T>)
    requires x != [] && y != [] && x[0] == y[0]
    requires multiset(x) == multiset(y)
    ensures multiset(x[1..]) == multiset(y[1..])
  {
    assert x == [x[0]] + x[1..] && y == [y[0]] + y[1..];
    assert multiset(x[1..]) == multiset(x) - multiset{x[0]};
    assert multiset(y[1..]) == multiset(y) - multiset{y[0]};
  }

  /** Rearranging a sequence rearranges its image the same way. */
  lemma {:induction false} MapPermutation<T, U>(f: T -> U, a: seq<T>, b: seq<T>)
    requires multiset(a) == multiset(b)
    ensures multiset(MapSeq(f, a)) == multiset(MapSeq(f, b))
  {
    if a != [] {
      var left, right := SplitAt(b, a[0]);
      CancelFirst(a, left, right);
      MapPermutation(f, a[1..], left + right);
      MapMiddle(f, left, a[0], right);
    }
  }

  lemma {:induction false} MapSeqAt<T, U>(f: T -> U, s: seq<T>, i: nat)
    requires i < |s|
    ensures MapSeq(f, s)[i] == f(s[i])
  {
    if i > 0 {
      MapSeqAt(f, s[1..], i - 1);
    }
  }
}

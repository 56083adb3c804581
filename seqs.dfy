/** Generic sequence combinators: the `flatMap` of the source's array pipelines. */
module Seqs {
  import Arith

  /** `xs.map(f)` */
  function Map<A, B>(f: A -> B, xs: seq<A>): (r: seq<B>)
    ensures |r| == |xs|
    ensures forall k :: 0 <= k < |xs| ==> r[k] == f(xs[k])
  {
    if xs == [] then [] else [f(xs[0])] + Map(f, xs[1..])
  }

  /** `xs.flatMap(f)` */
  function FlatMap<A, B>(f: A -> seq<B>, xs: seq<A>): seq<B>
  {
    if xs == [] then [] else f(xs[0]) + FlatMap(f, xs[1..])
  }

  /** `flatMap` distributes over concatenation. */
  lemma {:induction false} FlatMapAppend<A, B>(f: A -> seq<B>, a: seq<A>, b: seq<A>)
    ensures FlatMap(f, a + b) == FlatMap(f, a) + FlatMap(f, b)
  {
    if a == [] {
      assert a + b == b;
    } else {
      var ab := a + b;
      assert ab[0] == a[0] && ab[1..] == a[1..] + b;
      FlatMapAppend(f, a[1..], b);
      assert FlatMap(f, ab) == f(a[0]) + FlatMap(f, a[1..] + b);
    }
  }

  /** Every element of `xs.flatMap(f)` comes from `f` of some element of `xs`. */
  lemma {:induction false} FlatMapMember<A, B>(f: A -> seq<B>, xs: seq<A>, y: B)
    requires y in FlatMap(f, xs)
    ensures exists k :: 0 <= k < |xs| && y in f(xs[k])
  {
    if y !in f(xs[0]) {
      FlatMapMember(f, xs[1..], y);
      var k :| 0 <= k < |xs[1..]| && y in f(xs[1..][k]);
      assert y in f(xs[k + 1]);
    }
  }

  lemma AppendAssoc<T>(a: seq<T>, b: seq<T>, c: seq<T>)
    ensures (a + b) + c == a + (b + c)
  {
  }

  /** `s.slice(k).concat(s.slice(0, k))`: `s` rotated left by `k`. */
  function Rotate<T>(s: seq<T>, k: nat): (r: seq<T>)
    requires k <= |s|
    ensures |r| == |s|
  {
    s[k..] + s[..k]
  }

  /** Entry `i` of the rotation is entry `k + i` of `s`, counted round the end. */
  lemma RotateIndex<T>(s: seq<T>, k: nat, i: nat)
    requires k < |s| && i < |s|
    ensures Rotate(s, k)[i] == s[(k + i) % |s|]
  {
    Arith.ModBelowTwice(k + i, |s|);
  }

  /** `xs.filter(f)` */
  function Filter<T>(f: T -> bool, xs: seq<T>): (r: seq<T>)
    ensures |r| <= |xs|
    ensures forall x :: x in r ==> x in xs && f(x)
  {
    if xs == [] then [] else (if f(xs[0]) then [xs[0]] else []) + Filter(f, xs[1..])
  }

  /** The filter is empty exactly when no element passes. */
  lemma {:induction false} FilterEmpty<T>(f: T -> bool, xs: seq<T>)
    ensures Filter(f, xs) == [] <==> forall x :: x in xs ==> !f(x)
  {
    if xs != [] {
      FilterEmpty(f, xs[1..]);
      assert forall x :: x in xs <==> x == xs[0] || x in xs[1..];
    }
  }

  lemma {:induction false} FilterSnoc<T>(f: T -> bool, xs: seq<T>, x: T)
    ensures Filter(f, xs + [x]) == Filter(f, xs) + (if f(x) then [x] else [])
  {
    if xs == [] {
      assert xs + [x] == [x];
    } else {
      var ys := xs + [x];
      assert ys[0] == xs[0] && ys[1..] == xs[1..] + [x];
      FilterSnoc(f, xs[1..], x);
      var head := if f(xs[0]) then [xs[0]] else [];
      var tail := if f(x) then [x] else [];
      assert Filter(f, ys) == head + (Filter(f, xs[1..]) + tail);
      AppendAssoc(head, Filter(f, xs[1..]), tail);
    }
  }

  lemma MapSnoc<A, B>(f: A -> B, xs: seq<A>, x: A)
    ensures Map(f, xs + [x]) == Map(f, xs) + [f(x)]
  {
  }

  /** `xs.filter(Boolean)` on strings and `xs.filter((x) => x.length > 0)` on arrays: the
      non-empty elements, in order. */
  function NonEmpty<T>(xs: seq<seq<T>>): (r: seq<seq<T>>)
    ensures forall k :: 0 <= k < |r| ==> r[k] != [] && r[k] in xs
  {
    if xs == [] then []
    else if xs[0] == [] then NonEmpty(xs[1..])
    else [xs[0]] + NonEmpty(xs[1..])
  }

  /** Every non-empty element is kept. */
  lemma {:induction false} NonEmptyComplete<T>(xs: seq<seq<T>>, x: seq<T>)
    requires x in xs && x != []
    ensures x in NonEmpty(xs)
  {
    if x != xs[0] {
      assert x in xs[1..];
      NonEmptyComplete(xs[1..], x);
    }
  }

  /** Order is kept: the filter of a concatenation is the concatenation of the filters. */
  lemma {:induction false} NonEmptyAppend<T>(a: seq<seq<T>>, b: seq<seq<T>>)
    ensures NonEmpty(a + b) == NonEmpty(a) + NonEmpty(b)
  {
    if a == [] {
      assert a + b == b;
    } else {
      var ab := a + b;
      assert ab[0] == a[0] && ab[1..] == a[1..] + b;
      NonEmptyAppend(a[1..], b);
    }
  }

  /** A sequence of non-empty elements is kept whole. */
  lemma {:induction false} NonEmptyKeepsAll<T>(xs: seq<seq<T>>)
    requires forall k :: 0 <= k < |xs| ==> xs[k] != []
    ensures NonEmpty(xs) == xs
  {
    if xs != [] {
      NonEmptyKeepsAll(xs[1..]);
    }
  }
}

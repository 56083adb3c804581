/**
 * The keyed lists both sides of the application build with
 * `(groups[key] = groups[key] || []).push(value)`: the extract route groups image data URLs by
 * type code (src/app/api/extract/node/route.ts) and the viewer regroups a legacy image list the
 * same way (src/app/traffic/page.tsx).
 */
module Grouping {

  /** A record from keys to lists of values. */
  type Groups = map<string, seq<string>>

  /** `(g[k] = g[k] || []).push(v)` */
  function Push(g: Groups, k: string, v: string): (g': Groups)
    ensures g'.Keys == g.Keys + {k}
  {
    g[k := (if k in g then g[k] else []) + [v]]
  }

  /** The groups after pushing every (key, value) pair in order, starting from no groups. */
  function Bucket(ps: seq<(string, string)>): Groups
  {
    if ps == [] then map[] else Push(Bucket(ps[..|ps| - 1]), ps[|ps| - 1].0, ps[|ps| - 1].1)
  }

  /** One more pair pushes one more value. */
  lemma BucketStep(ps: seq<(string, string)>, i: nat)
    requires i < |ps|
    ensures Bucket(ps[..i + 1]) == Push(Bucket(ps[..i]), ps[i].0, ps[i].1)
  {
    assert ps[..i + 1][..i] == ps[..i];
  }

  /** The values of the pairs with key `k`, in order. */
  function ValuesOf(ps: seq<(string, string)>, k: string): seq<string>
  {
    if ps == [] then [] else (if ps[0].0 == k then [ps[0].1] else []) + ValuesOf(ps[1..], k)
  }

  /** Some pair has key `k`. */
  predicate HasKey(ps: seq<(string, string)>, k: string) {
    exists i :: 0 <= i < |ps| && ps[i].0 == k
  }

  lemma {:induction false} ValuesOfSnoc(ps: seq<(string, string)>, p: (string, string), k: string)
    ensures ValuesOf(ps + [p], k) == ValuesOf(ps, k) + (if p.0 == k then [p.1] else [])
  {
    if ps == [] {
      assert ps + [p] == [p];
    } else {
      var qs := ps + [p];
      assert qs[0] == ps[0] && qs[1..] == ps[1..] + [p];
      ValuesOfSnoc(ps[1..], p, k);
    }
  }

  lemma {:induction false} ValuesOfMissing(ps: seq<(string, string)>, k: string)
    requires !HasKey(ps, k)
    ensures ValuesOf(ps, k) == []
  {
    if ps != [] {
      assert ps[0].0 != k;
      forall i | 0 <= i < |ps[1..]|
        ensures ps[1..][i].0 != k
      {
        assert ps[1..][i] == ps[i + 1];
      }
      ValuesOfMissing(ps[1..], k);
    }
  }

  /** Grouping puts every pair's value in the list of its key and nowhere else: the keys are
      those of the pairs, and each list holds the values of its key in order. */
  lemma {:induction false} BucketContents(ps: seq<(string, string)>, k: string)
    ensures k in Bucket(ps) <==> HasKey(ps, k)
    ensures k in Bucket(ps) ==> Bucket(ps)[k] == ValuesOf(ps, k)
  {
    if ps != [] {
      var init, last := ps[..|ps| - 1], ps[|ps| - 1];
      assert ps == init + [last];
      BucketContents(init, k);
      ValuesOfSnoc(init, last, k);
      if HasKey(ps, k) && last.0 != k {
        var i :| 0 <= i < |ps| && ps[i].0 == k;
        assert init[i].0 == k;
      }
      if HasKey(init, k) {
        var i :| 0 <= i < |init| && init[i].0 == k;
        assert ps[i].0 == k;
      }
      if last.0 == k && !HasKey(init, k) {
        ValuesOfMissing(init, k);
      }
    }
  }

  /** When every pair has key `k`, grouping yields the one list of all values, in order. */
  lemma {:induction false} BucketOneKey(ps: seq<(string, string)>, k: string)
    requires forall i :: 0 <= i < |ps| ==> ps[i].0 == k
    ensures ps == [] ==> Bucket(ps) == map[]
    ensures ps != [] ==> Bucket(ps) == map[k := seq(|ps|, i requires 0 <= i < |ps| => ps[i].1)]
  {
    if ps != [] {
      var init := ps[..|ps| - 1];
      BucketOneKey(init, k);
      var vs := seq(|ps|, i requires 0 <= i < |ps| => ps[i].1);
      var ws := seq(|init|, i requires 0 <= i < |init| => init[i].1);
      assert vs == ws + [ps[|ps| - 1].1];
    }
  }

  /** The number of values over all groups. */
  ghost function Total(g: Groups): nat
    decreases |g.Keys|
  {
    if g.Keys == {} then 0
    else
      var k :| k in g;
      |g[k]| + Total(g - {k})
  }

  /** The total can be counted from any key first. */
  lemma {:induction false} TotalRemove(g: Groups, k: string)
    requires k in g
    ensures Total(g) == |g[k]| + Total(g - {k})
    decreases |g.Keys|
  {
    var j :| j in g && Total(g) == |g[j]| + Total(g - {j});
    if j != k {
      var gj, gk := g - {j}, g - {k};
      assert |gj.Keys| < |g.Keys| by {
        assert gj.Keys < g.Keys;
      }
      TotalRemove(gj, k);
      assert |gk.Keys| < |g.Keys| by {
        assert gk.Keys < g.Keys;
      }
      TotalRemove(gk, j);
      assert gj - {k} == gk - {j};
    }
  }

  lemma TotalPush(g: Groups, k: string, v: string)
    ensures Total(Push(g, k, v)) == Total(g) + 1
  {
    var g' := Push(g, k, v);
    TotalRemove(g', k);
    if k in g {
      TotalRemove(g, k);
      assert g' - {k} == g - {k};
    } else {
      assert g' - {k} == g;
    }
  }

  /** No value is lost or duplicated: the lists hold as many values as there are pairs. */
  lemma {:induction false} BucketTotal(ps: seq<(string, string)>)
    ensures Total(Bucket(ps)) == |ps|
  {
    if ps == [] {
      assert Bucket(ps).Keys == {};
    } else {
      var init := ps[..|ps| - 1];
      BucketTotal(init);
      TotalPush(Bucket(init), ps[|ps| - 1].0, ps[|ps| - 1].1);
    }
  }
}

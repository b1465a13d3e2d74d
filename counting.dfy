/**
 * Counting and de-duplication over sequences: the `counts[k] = (counts[k] || 0) + 1`
 * tallies built by the CRM code, and the first-occurrence de-duplication done by a
 * JavaScript `Set` (insertion order) or by `filter((e, i, a) => i === a.findIndex(...))`.
 */
module Counting {
  /** The number of occurrences of `x` in `xs`. */
  function Count<T(==)>(xs: seq<T>, x: T): nat
    decreases |xs|
  {
    if xs == [] then 0 else Count(xs[..|xs| - 1], x) + (if xs[|xs| - 1] == x then 1 else 0)
  }

  /** A value that does not occur is counted zero times. */
  lemma {:induction false} CountAbsent<T>(xs: seq<T>, x: T)
    requires x !in xs
    ensures Count(xs, x) == 0
    decreases |xs|
  {
    if xs != [] {
      CountAbsent(xs[..|xs| - 1], x);
    }
  }

  /** `counts[k] = (counts[k] || 0) + 1`: one more occurrence of `k`. */
  function Bump<T>(m: map<T, nat>, k: T): (r: map<T, nat>)
    ensures r.Keys == m.Keys + {k}
    ensures r[k] == (if k in m then m[k] else 0) + 1
    ensures forall j :: j in m && j != k ==> r[j] == m[j]
  {
    m[k := (if k in m then m[k] else 0) + 1]
  }

  /** The counting object `xs` builds, keyed by value. */
  function Tally<T(==)>(xs: seq<T>): map<T, nat>
    decreases |xs|
  {
    if xs == [] then map[]
    else
      Bump(Tally(xs[..|xs| - 1]), xs[|xs| - 1])
  }

  /** A tally has a key for each value that occurs, and counts its occurrences. */
  lemma {:induction false} TallyCounts<T>(xs: seq<T>)
    ensures Tally(xs).Keys == set x | x in xs
    ensures forall k :: k in Tally(xs) ==> Tally(xs)[k] == Count(xs, k) && Tally(xs)[k] >= 1
    decreases |xs|
  {
    if xs != [] {
      var init := xs[..|xs| - 1];
      var k := xs[|xs| - 1];
      TallyCounts(init);
      var m := Tally(init);
      assert xs == init + [k];
      assert forall j :: j in m ==> Count(xs, j) == Count(init, j) + (if k == j then 1 else 0);
      assert Count(xs, k) == Count(init, k) + 1;
      if k !in m {
        CountAbsent(init, k);
      }
    }
  }

  /** Tallying one more value bumps its count. */
  lemma TallySnoc<T>(xs: seq<T>, x: T)
    ensures Tally(xs + [x]) == Bump(Tally(xs), x)
  {
    assert (xs + [x])[..|xs|] == xs;
  }

  /** The sum of the counts in a tally. */
  ghost function MapSum<T>(m: map<T, nat>): nat
    decreases |m|
  {
    if m == map[] then 0 else var k :| k in m; m[k] + MapSum(m - {k})
  }

  /** A map's sum can be split at any of its keys. */
  lemma {:induction false} MapSumRemove<T>(m: map<T, nat>, x: T)
    requires x in m
    ensures MapSum(m) == m[x] + MapSum(m - {x})
    decreases |m|
  {
    var k :| k in m && MapSum(m) == m[k] + MapSum(m - {k});
    if k != x {
      MapSumRemove(m - {k}, x);
      MapSumRemove(m - {x}, k);
      assert m - {k} - {x} == m - {x} - {k};
    }
  }

  /** The counts of a tally add up to the number of values tallied. */
  lemma {:induction false} TallySum<T>(xs: seq<T>)
    ensures MapSum(Tally(xs)) == |xs|
    decreases |xs|
  {
    if xs != [] {
      var init := xs[..|xs| - 1];
      var k := xs[|xs| - 1];
      var m := Tally(init);
      TallySum(init);
      var m' := Tally(xs);
      MapSumRemove(m', k);
      if k in m {
        MapSumRemove(m, k);
        assert m' - {k} == m - {k};
      } else {
        assert m' - {k} == m;
      }
    }
  }

  /** The keys `key` gives the elements of `xs`. */
  function KeysOf<T, K>(xs: seq<T>, key: T -> K): set<K> {
    set i | 0 <= i < |xs| :: key(xs[i])
  }

  /** No two elements of `xs` share a key. */
  predicate DistinctBy<T, K(==)>(xs: seq<T>, key: T -> K) {
    forall i, j :: 0 <= i < j < |xs| ==> key(xs[i]) != key(xs[j])
  }

  /** `xs[i]` is the first element with its key: `i === xs.findIndex(e => key(e) === key(xs[i]))`. */
  predicate FirstWithKey<T, K(==)>(xs: seq<T>, i: nat, key: T -> K)
    requires i < |xs|
  {
    forall j :: 0 <= j < i ==> key(xs[j]) != key(xs[i])
  }

  /**
   * Insertion into a JavaScript `Set` (or a map keyed by `key`): an element is appended
   * unless an element with the same key is already present.
   */
  function DedupBy<T, K(==)>(xs: seq<T>, key: T -> K): (r: seq<T>)
    ensures DistinctBy(r, key)
    ensures KeysOf(r, key) == KeysOf(xs, key)
    ensures forall i :: 0 <= i < |r| ==> r[i] in xs
    ensures |r| <= |xs|
    decreases |xs|
  {
    if xs == [] then []
    else
      var init := xs[..|xs| - 1];
      var x := xs[|xs| - 1];
      var p := DedupBy(init, key);
      assert KeysOf(xs, key) == KeysOf(init, key) + {key(x)} by {
        assert xs == init + [x];
      }
      if key(x) in KeysOf(p, key) then p
      else
        var r := p + [x];
        assert KeysOf(r, key) == KeysOf(p, key) + {key(x)} by {
          assert forall i :: 0 <= i < |p| ==> r[i] == p[i];
          assert key(r[|p|]) in KeysOf(r, key);
        }
        r
  }

  /** The `findIndex` filter: keep the elements that are the first with their key. */
  function FirstsFilter<T, K(==)>(xs: seq<T>, key: T -> K): seq<T>
    decreases |xs|
  {
    if xs == [] then []
    else
      var n := |xs| - 1;
      FirstsFilter(xs[..n], key) + (if FirstWithKey(xs, n, key) then [xs[n]] else [])
  }

  /** The two de-duplications agree: `Set` insertion keeps exactly the first occurrences. */
  lemma {:induction false} DedupIsFirstsFilter<T, K>(xs: seq<T>, key: T -> K)
    ensures DedupBy(xs, key) == FirstsFilter(xs, key)
    decreases |xs|
  {
    if xs != [] {
      var n := |xs| - 1;
      var init := xs[..n];
      DedupIsFirstsFilter(init, key);
      assert KeysOf(DedupBy(init, key), key) == KeysOf(init, key);
      if FirstWithKey(xs, n, key) {
        assert key(xs[n]) !in KeysOf(init, key);
      } else {
        var j :| 0 <= j < n && key(xs[j]) == key(xs[n]);
        assert key(init[j]) == key(xs[n]);
      }
    }
  }

  /** Filtering more elements never disturbs the elements already kept. */
  lemma {:induction false} FirstsFilterExtends<T, K>(xs: seq<T>, ys: seq<T>, key: T -> K)
    ensures FirstsFilter(xs, key) <= FirstsFilter(xs + ys, key)
    decreases |ys|
  {
    if ys == [] {
      assert xs + ys == xs;
    } else {
      var zs := xs + ys;
      var n := |zs| - 1;
      assert zs[..n] == xs + ys[..|ys| - 1];
      FirstsFilterExtends(xs, ys[..|ys| - 1], key);
    }
  }

  /** Elements whose keys are already distinct are all kept. */
  lemma {:induction false} FirstsFilterOfDistinct<T, K>(xs: seq<T>, key: T -> K)
    requires DistinctBy(xs, key)
    ensures FirstsFilter(xs, key) == xs
    decreases |xs|
  {
    if xs != [] {
      var n := |xs| - 1;
      assert DistinctBy(xs[..n], key);
      FirstsFilterOfDistinct(xs[..n], key);
      assert xs == xs[..n] + [xs[n]];
    }
  }

  /** A sequence without repeated elements. */
  predicate Distinct<T(==)>(xs: seq<T>) {
    forall i, j :: 0 <= i < j < |xs| ==> xs[i] != xs[j]
  }

  /** The identity, as the key of plain values. */
  function Id<T>(x: T): T { x }

  /** Set insertion of plain values: each distinct element once, in order of first occurrence. */
  function Dedup<T(==)>(xs: seq<T>): (r: seq<T>)
    ensures Distinct(r)
    ensures forall i :: 0 <= i < |r| ==> r[i] in xs
    ensures forall i :: 0 <= i < |xs| ==> xs[i] in r
  {
    var r := DedupBy(xs, Id);
    assert forall i :: 0 <= i < |xs| ==> xs[i] in r by {
      forall i | 0 <= i < |xs| ensures xs[i] in r {
        assert Id(xs[i]) in KeysOf(xs, Id);
      }
    }
    assert Distinct(r) by {
      forall i, j | 0 <= i < j < |r| ensures r[i] != r[j] {
        assert Id(r[i]) != Id(r[j]);
      }
    }
    r
  }

  /** Inserting one more value into the `Set` appends it exactly when it is new. */
  lemma DedupSnoc<T>(xs: seq<T>, x: T)
    ensures Dedup(xs + [x]) == if x in xs then Dedup(xs) else Dedup(xs) + [x]
  {
    var ys := xs + [x];
    assert ys[..|ys| - 1] == xs;
    var p := DedupBy(xs, Id);
    assert Id(x) in KeysOf(p, Id) <==> x in xs by {
      assert KeysOf(p, Id) == KeysOf(xs, Id);
      if x in xs {
        var k :| 0 <= k < |xs| && xs[k] == x;
        assert Id(xs[k]) in KeysOf(xs, Id);
      }
    }
  }

  /** Inserting more values never disturbs the order of the values already in the `Set`. */
  lemma {:induction false} DedupExtends<T>(xs: seq<T>, ys: seq<T>)
    ensures Dedup(xs) <= Dedup(xs + ys)
    decreases |ys|
  {
    if ys == [] {
      assert xs + ys == xs;
    } else {
      var n := |ys| - 1;
      DedupExtends(xs, ys[..n]);
      assert xs + ys == (xs + ys[..n]) + [ys[n]];
      DedupSnoc(xs + ys[..n], ys[n]);
    }
  }

  /** Values that are already distinct pass through the `Set` unchanged. */
  lemma {:induction false} DedupOfDistinct<T>(xs: seq<T>)
    requires Distinct(xs)
    ensures Dedup(xs) == xs
    decreases |xs|
  {
    if xs != [] {
      var n := |xs| - 1;
      assert xs == xs[..n] + [xs[n]];
      DedupOfDistinct(xs[..n]);
      DedupSnoc(xs[..n], xs[n]);
    }
  }

  /** The `Set` holds exactly the inserted values. */
  lemma DedupMembers<T>(xs: seq<T>, x: T)
    ensures x in Dedup(xs) <==> x in xs
  {
    if x in xs {
      var k :| 0 <= k < |xs| && xs[k] == x;
      assert xs[k] in Dedup(xs);
    }
  }
}

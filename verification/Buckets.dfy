/** Distributing a map over buckets loses nothing and invents nothing. */
module Buckets {
  import opened Values
  import opened Jobs
  import opened Trees
  import opened EncodingBounds

  /** The contents of buckets `b` to `n`, one bucket after the other. */
  function PickAll<T>(h: Hash, n: nat, b: nat, ks: seq<Leaf>, xs: seq<T>): seq<T>
    requires |ks| == |xs| && b <= n
    decreases n - b
  {
    if b == n then [] else Pick(h, n, b, ks, xs) + PickAll(h, n, b + 1, ks, xs)
  }

  lemma {:induction false} PickAllLength<S, T>(h: Hash, n: nat, b: nat, ks: seq<Leaf>, xs: seq<S>, ys: seq<T>)
    requires |ks| == |xs| == |ys| && b <= n
    ensures |PickAll(h, n, b, ks, xs)| == |PickAll(h, n, b, ks, ys)|
    decreases n - b
  {
    if b < n {
      PickLength(h, n, b, ks, xs, ys);
      PickAllLength(h, n, b + 1, ks, xs, ys);
    }
  }

  // --- Pairs ---

  lemma PairInAppend<T>(ka: seq<Leaf>, xa: seq<T>, kb: seq<Leaf>, xb: seq<T>, k: Leaf, x: T)
    requires |ka| == |xa| && |kb| == |xb|
    ensures PairIn(ka + kb, xa + xb, k, x) <==> PairIn(ka, xa, k, x) || PairIn(kb, xb, k, x)
  {
    if i :| 0 <= i < |ka| && ka[i] == k && xa[i] == x {
      assert (ka + kb)[i] == k && (xa + xb)[i] == x;
    } else if i :| 0 <= i < |kb| && kb[i] == k && xb[i] == x {
      assert (ka + kb)[|ka| + i] == k && (xa + xb)[|ka| + i] == x;
    }
  }

  /** A bucket holds exactly the pairs whose key hashes to it. */
  lemma {:induction false} PickPairs<T>(h: Hash, n: nat, b: nat, ks: seq<Leaf>, xs: seq<T>, k: Leaf, x: T)
    requires n > 0 && |ks| == |xs|
    ensures |Pick(h, n, b, ks, ks)| == |Pick(h, n, b, ks, xs)|
    ensures PairIn(Pick(h, n, b, ks, ks), Pick(h, n, b, ks, xs), k, x) <==> PairIn(ks, xs, k, x) && h(k) % n == b
  {
    PickLength(h, n, b, ks, ks, xs);
    if ks != [] {
      var kt, xt := ks[1..], xs[1..];
      PickPairs(h, n, b, kt, xt, k, x);
      assert [ks[0]] + kt == ks && [xs[0]] + xt == xs;
      PairInAppend([ks[0]], [xs[0]], kt, xt, k, x);
      if h(ks[0]) % n == b {
        PairInAppend([ks[0]], [xs[0]], Pick(h, n, b, kt, kt), Pick(h, n, b, kt, xt), k, x);
      } else {
        assert [] + Pick(h, n, b, kt, kt) == Pick(h, n, b, kt, kt);
        assert [] + Pick(h, n, b, kt, xt) == Pick(h, n, b, kt, xt);
      }
    }
  }

  lemma {:induction false} PickAllPairs<T>(h: Hash, n: nat, b: nat, ks: seq<Leaf>, xs: seq<T>, k: Leaf, x: T)
    requires n > 0 && |ks| == |xs| && b <= n
    ensures |PickAll(h, n, b, ks, ks)| == |PickAll(h, n, b, ks, xs)|
    ensures PairIn(PickAll(h, n, b, ks, ks), PickAll(h, n, b, ks, xs), k, x) <==> PairIn(ks, xs, k, x) && h(k) % n >= b
    decreases n - b
  {
    PickAllLength(h, n, b, ks, ks, xs);
    if b < n {
      PickPairs(h, n, b, ks, xs, k, x);
      PickAllPairs(h, n, b + 1, ks, xs, k, x);
      PairInAppend(Pick(h, n, b, ks, ks), Pick(h, n, b, ks, xs),
                   PickAll(h, n, b + 1, ks, ks), PickAll(h, n, b + 1, ks, xs), k, x);
    }
  }

  // --- Keys stay distinct ---

  lemma InKeys(ks: seq<Leaf>, k: Leaf)
    ensures k in ks <==> PairIn(ks, ks, k, k)
  {
  }

  lemma {:induction false} PickDistinct(h: Hash, n: nat, b: nat, ks: seq<Leaf>)
    requires n > 0 && Distinct(ks)
    ensures Distinct(Pick(h, n, b, ks, ks))
  {
    if ks != [] {
      PickDistinct(h, n, b, ks[1..]);
      PickPairs(h, n, b, ks[1..], ks[1..], ks[0], ks[0]);
      InKeys(ks[1..], ks[0]);
      InKeys(Pick(h, n, b, ks[1..], ks[1..]), ks[0]);
      assert ks[0] !in ks[1..];
    }
  }

  ghost predicate Disjoint(a: seq<Leaf>, b: seq<Leaf>) {
    forall k :: k in a ==> k !in b
  }

  lemma DistinctAppend(a: seq<Leaf>, b: seq<Leaf>)
    requires Distinct(a) && Distinct(b) && Disjoint(a, b)
    ensures Distinct(a + b)
  {
    var ab := a + b;
    forall i, j | 0 <= i < j < |ab|
      ensures ab[i] != ab[j]
    {
      if i < |a| <= j {
        assert ab[i] in a && ab[j] == b[j - |a|];
      }
    }
  }

  lemma BucketsDisjoint(h: Hash, n: nat, b: nat, ks: seq<Leaf>)
    requires n > 0 && b < n
    ensures Disjoint(Pick(h, n, b, ks, ks), PickAll(h, n, b + 1, ks, ks))
  {
    var here, later := Pick(h, n, b, ks, ks), PickAll(h, n, b + 1, ks, ks);
    forall k | k in here
      ensures k !in later
    {
      PickPairs(h, n, b, ks, ks, k, k);
      PickAllPairs(h, n, b + 1, ks, ks, k, k);
      InKeys(here, k);
      InKeys(later, k);
    }
  }

  lemma {:induction false} PickAllDistinct(h: Hash, n: nat, b: nat, ks: seq<Leaf>)
    requires n > 0 && Distinct(ks) && b <= n
    ensures Distinct(PickAll(h, n, b, ks, ks))
    decreases n - b
  {
    if b < n {
      PickDistinct(h, n, b, ks);
      BucketsDisjoint(h, n, b, ks);
      PickAllDistinct(h, n, b + 1, ks);
      DistinctAppend(Pick(h, n, b, ks, ks), PickAll(h, n, b + 1, ks, ks));
    }
  }

  // --- The rebuilt map ---

  lemma {:induction false} ValuesPicked(h: Hash, n: nat, b: nat, ks: seq<Leaf>, vs: seq<Obj>)
    requires n > 0 && |ks| == |vs|
    ensures ValuesOf(Pick(h, n, b, ks, vs)) == Pick(h, n, b, ks, ValuesOf(vs))
  {
    if ks != [] {
      ValuesPicked(h, n, b, ks[1..], vs[1..]);
      assert [] + Pick(h, n, b, ks[1..], vs[1..]) == Pick(h, n, b, ks[1..], vs[1..]);
    }
  }

  lemma SameInserts(ka: seq<Leaf>, xa: seq<Value>, kb: seq<Leaf>, xb: seq<Value>)
    requires |ka| == |xa| && |kb| == |xb| && Distinct(ka) && Distinct(kb)
    requires forall k, x :: PairIn(ka, xa, k, x) <==> PairIn(kb, xb, k, x)
    ensures InsertAll(map[], ka, xa) == InsertAll(map[], kb, xb)
  {
    var a, b := InsertAll(map[], ka, xa), InsertAll(map[], kb, xb);
    forall k | k in a
      ensures k in b && b[k] == a[k]
    {
      InsertedPair(ka, xa, kb, xb, k);
    }
    forall k | k in b
      ensures k in a
    {
      InsertedPair(kb, xb, ka, xa, k);
    }
  }

  lemma InsertedPair(ka: seq<Leaf>, xa: seq<Value>, kb: seq<Leaf>, xb: seq<Value>, k: Leaf)
    requires |ka| == |xa| && |kb| == |xb| && Distinct(kb)
    requires forall k, x :: PairIn(ka, xa, k, x) ==> PairIn(kb, xb, k, x)
    requires k in InsertAll(map[], ka, xa)
    ensures k in InsertAll(map[], kb, xb) && InsertAll(map[], kb, xb)[k] == InsertAll(map[], ka, xa)[k]
  {
    InsertSource(map[], ka, xa, k);
    var x := InsertAll(map[], ka, xa)[k];
    assert PairIn(kb, xb, k, x);
    var j :| 0 <= j < |kb| && kb[j] == k && xb[j] == x;
    InsertGet(map[], kb, xb, j);
  }

  /** Inserting the buckets in order rebuilds the map, whatever the hash function. */
  lemma BucketsRebuild(h: Hash, n: nat, ks: seq<Leaf>, vs: seq<Value>)
    requires n > 0 && |ks| == |vs| && Distinct(ks)
    ensures |PickAll(h, n, 0, ks, ks)| == |PickAll(h, n, 0, ks, vs)|
    ensures InsertAll(map[], PickAll(h, n, 0, ks, ks), PickAll(h, n, 0, ks, vs)) == InsertAll(map[], ks, vs)
  {
    PickAllLength(h, n, 0, ks, ks, vs);
    PickAllDistinct(h, n, 0, ks);
    forall k, x
      ensures PairIn(PickAll(h, n, 0, ks, ks), PickAll(h, n, 0, ks, vs), k, x) <==> PairIn(ks, vs, k, x)
    {
      PickAllPairs(h, n, 0, ks, vs, k, x);
    }
    SameInserts(PickAll(h, n, 0, ks, ks), PickAll(h, n, 0, ks, vs), ks, vs);
  }

  /** With distinct keys, a different list of values makes a different map. */
  lemma InsertsDiffer(ks: seq<Leaf>, a: seq<Value>, b: seq<Value>)
    requires |ks| == |a| == |b| && Distinct(ks)
    ensures InsertAll(map[], ks, a) == InsertAll(map[], ks, b) <==> a == b
  {
    if InsertAll(map[], ks, a) == InsertAll(map[], ks, b) {
      forall j | 0 <= j < |ks|
        ensures a[j] == b[j]
      {
        InsertGet(map[], ks, a, j);
        InsertGet(map[], ks, b, j);
      }
    }
  }
}

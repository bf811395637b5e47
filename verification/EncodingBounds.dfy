/** How few bytes can decode to an object: never fewer than its own encoding has. */
module EncodingBounds {
  import opened Wrappers
  import opened Bytes
  import opened Values
  import opened Bincode
  import opened Jobs

  // --- Inserting pairs into a map ---

  lemma {:induction false} InsertGet(m: map<Leaf, Value>, ks: seq<Leaf>, vs: seq<Value>, j: nat)
    requires Distinct(ks) && |ks| == |vs| && j < |ks|
    ensures ks[j] in InsertAll(m, ks, vs) && InsertAll(m, ks, vs)[ks[j]] == vs[j]
    decreases |ks|
  {
    if j == 0 {
      InsertKeep(m[ks[0] := vs[0]], ks[1..], vs[1..], ks[0]);
    } else {
      InsertGet(m[ks[0] := vs[0]], ks[1..], vs[1..], j - 1);
    }
  }

  lemma {:induction false} InsertKeep(m: map<Leaf, Value>, ks: seq<Leaf>, vs: seq<Value>, x: Leaf)
    requires |ks| == |vs| && x !in ks
    ensures x in InsertAll(m, ks, vs) <==> x in m
    ensures x in m ==> InsertAll(m, ks, vs)[x] == m[x]
    decreases |ks|
  {
    if ks != [] {
      InsertKeep(m[ks[0] := vs[0]], ks[1..], vs[1..], x);
    }
  }

  /** `k` stands next to `x` in the two lists. */
  ghost predicate PairIn<T>(ks: seq<Leaf>, xs: seq<T>, k: Leaf, x: T)
    requires |ks| == |xs|
  {
    exists i :: 0 <= i < |ks| && ks[i] == k && xs[i] == x
  }

  lemma {:induction false} InsertSource(m: map<Leaf, Value>, ks: seq<Leaf>, vs: seq<Value>, x: Leaf)
    requires |ks| == |vs| && x in InsertAll(m, ks, vs)
    ensures PairIn(ks, vs, x, InsertAll(m, ks, vs)[x]) || (x in m && InsertAll(m, ks, vs)[x] == m[x])
    decreases |ks|
  {
    if ks != [] {
      var v := InsertAll(m, ks, vs)[x];
      InsertSource(m[ks[0] := vs[0]], ks[1..], vs[1..], x);
      if PairIn(ks[1..], vs[1..], x, v) {
        var i :| 0 <= i < |ks[1..]| && ks[1..][i] == x && vs[1..][i] == v;
        assert ks[i + 1] == x && vs[i + 1] == v;
      } else if x == ks[0] {
        assert ks[0] == x && vs[0] == v;
      }
    }
  }

  // --- Decoders consume at least what the encoder writes ---

  lemma EncUintGrows(a: nat, b: nat)
    requires a <= b
    ensures |EncUint(a)| <= |EncUint(b)|
  {
  }

  lemma DecUintLower(bs: bytes, wide: bool)
    requires DecUint(bs, wide).Ok?
    ensures |bs| >= |DecUint(bs, wide).value.1| + |EncUint(DecUint(bs, wide).value.0)|
  {
    Widths();
    if bs[0] == 251 {
      FromLEBound(bs[1..][..2]);
    } else if bs[0] == 252 {
      FromLEBound(bs[1..][..4]);
    }
  }

  lemma DecLeafLower(k: LeafTy, bs: bytes)
    requires DecLeaf(k, bs).Ok?
    ensures |bs| >= |DecLeaf(k, bs).value.1| + |EncLeaf(DecLeaf(k, bs).value.0)|
  {
    if !k.TByte? {
      DecUintLower(bs, true);
    }
  }

  /** Whatever bytes decode to the value of `o`, at least `|Enc(o)|` of them are used. */
  lemma {:induction false} DecLower(defs: Defs, o: Obj, ty: Ty, bs: bytes, fuel: nat)
    requires HasType(defs, o, ty)
    requires Dec(defs, ty, bs, fuel).Ok? && Dec(defs, ty, bs, fuel).value.0 == ValueOf(o)
    ensures |bs| >= |Dec(defs, ty, bs, fuel).value.1| + |Enc(o)|
    decreases fuel, 0
  {
    match o
    case OLeaf(l) => DecLeafLower(ty.k, bs);
    case OStruct(fs, _) => DecAllLower(defs, fs, defs[ty.id].tys, bs, fuel - 1);
    case OVec(items) =>
      var (n, r0) := DecUint(bs, true).value;
      DecUintLower(bs, true);
      assert n == |items|;
      DecAllLower(defs, items, Repeat(ty.elem, n), r0, fuel - 1);
    case OMap(ks, vs) =>
      var (n, r0) := DecUint(bs, true).value;
      var (dk, dv, rest) := DecPairs(defs, ty.key, ty.val, n, r0, fuel - 1).value;
      DecUintLower(bs, true);
      SameMapCovers(dk, dv, ks, vs);
      RepeatedType(defs, vs, ty.val);
      DecPairsLower(defs, ks, vs, ty.key, ty.val, n, r0, fuel - 1, dk, dv, rest);
      EncUintGrows(|ks|, n);
  }

  lemma {:induction false} DecAllLower(defs: Defs, os: seq<Obj>, tys: seq<Ty>, bs: bytes, fuel: nat)
    requires AllHave(defs, os, tys)
    requires DecAll(defs, tys, bs, fuel).Ok? && DecAll(defs, tys, bs, fuel).value.0 == ValuesOf(os)
    ensures |bs| >= |DecAll(defs, tys, bs, fuel).value.1| + |EncAll(os)|
    decreases fuel, 1 + |tys|
  {
    if os != [] {
      var (v, r0) := Dec(defs, tys[0], bs, fuel).value;
      var (vs, _) := DecAll(defs, tys[1..], r0, fuel).value;
      assert ([v] + vs)[0] == ValueOf(os[0]) && ([v] + vs)[1..] == vs;
      DecLower(defs, os[0], tys[0], bs, fuel);
      DecAllLower(defs, os[1..], tys[1..], r0, fuel);
    }
  }

  ghost predicate Covers(dk: seq<Leaf>, dv: seq<Value>, ks: seq<Leaf>, vs: seq<Obj>)
    requires |dk| == |dv| && |ks| == |vs|
  {
    && (ks != [] ==> dk != [])
    && forall j :: 0 <= j < |ks| ==> PairIn(dk, dv, ks[j], ValueOf(vs[j]))
  }

  lemma {:induction false} ValuesAt(os: seq<Obj>, i: nat)
    requires i < |os|
    ensures ValuesOf(os)[i] == ValueOf(os[i])
  {
    if i > 0 {
      ValuesAt(os[1..], i - 1);
    }
  }

  /** If two pair lists build the same map, the first has every pair of the second. */
  lemma SameMapCovers(dk: seq<Leaf>, dv: seq<Value>, ks: seq<Leaf>, vs: seq<Obj>)
    requires |dk| == |dv| && |ks| == |vs| && Distinct(ks)
    requires InsertAll(map[], dk, dv) == InsertAll(map[], ks, ValuesOf(vs))
    ensures Covers(dk, dv, ks, vs)
  {
    forall j | 0 <= j < |ks|
      ensures PairIn(dk, dv, ks[j], ValueOf(vs[j]))
    {
      InsertGet(map[], ks, ValuesOf(vs), j);
      ValuesAt(vs, j);
      InsertSource(map[], dk, dv, ks[j]);
    }
    assert ks != [] ==> PairIn(dk, dv, ks[0], ValueOf(vs[0]));
  }

  /** Dropping the first decoded pair leaves everything but the entry it stands for. */
  lemma CoversTail(dk: seq<Leaf>, dv: seq<Value>, ks: seq<Leaf>, vs: seq<Obj>)
    requires 0 < |dk| == |dv| && |ks| == |vs| && Covers(dk, dv, ks, vs)
    requires forall j :: 0 <= j < |ks| ==> dk[0] != ks[j] || dv[0] != ValueOf(vs[j])
    ensures Covers(dk[1..], dv[1..], ks, vs)
  {
    forall j | 0 <= j < |ks|
      ensures PairIn(dk[1..], dv[1..], ks[j], ValueOf(vs[j]))
    {
      assert PairIn(dk, dv, ks[j], ValueOf(vs[j]));
      var i :| 0 <= i < |dk| && dk[i] == ks[j] && dv[i] == ValueOf(vs[j]);
      assert dk[1..][i - 1] == ks[j] && dv[1..][i - 1] == ValueOf(vs[j]);
    }
    assert ks != [] ==> PairIn(dk[1..], dv[1..], ks[0], ValueOf(vs[0]));
  }

  function Without<T>(xs: seq<T>, j: nat): seq<T>
    requires j < |xs|
  {
    xs[..j] + xs[j + 1..]
  }

  lemma {:induction false} PairsWithout(ks: seq<Leaf>, vs: seq<Obj>, j: nat)
    requires |ks| == |vs| && j < |ks|
    ensures |EncPairs(ks, vs)| == |EncPairs(Without(ks, j), Without(vs, j))| + |EncLeaf(ks[j])| + |Enc(vs[j])|
    decreases j
  {
    if j == 0 {
      assert Without(ks, 0) == ks[1..] && Without(vs, 0) == vs[1..];
    } else {
      assert Without(ks, j)[1..] == Without(ks[1..], j - 1) && Without(vs, j)[1..] == Without(vs[1..], j - 1);
      PairsWithout(ks[1..], vs[1..], j - 1);
    }
  }

  lemma DistinctWithout(ks: seq<Leaf>, j: nat)
    requires Distinct(ks) && j < |ks|
    ensures Distinct(Without(ks, j))
    ensures forall i :: 0 <= i < |Without(ks, j)| ==> Without(ks, j)[i] != ks[j]
  {
  }

  lemma CoversWithout(dk: seq<Leaf>, dv: seq<Value>, ks: seq<Leaf>, vs: seq<Obj>, j: nat)
    requires 0 < |dk| == |dv| && |ks| == |vs| && Covers(dk, dv, ks, vs) && Distinct(ks)
    requires j < |ks| && dk[0] == ks[j]
    ensures Covers(dk[1..], dv[1..], Without(ks, j), Without(vs, j))
  {
    var ks', vs' := Without(ks, j), Without(vs, j);
    forall i | 0 <= i < |ks'|
      ensures PairIn(dk, dv, ks'[i], ValueOf(vs'[i]))
    {
      var from := if i < j then i else i + 1;
      assert ks'[i] == ks[from] && vs'[i] == vs[from];
    }
    DistinctWithout(ks, j);
    CoversTail(dk, dv, ks', vs');
  }

  ghost predicate AllOf(defs: Defs, vs: seq<Obj>, ty: Ty) {
    forall i :: 0 <= i < |vs| ==> HasType(defs, vs[i], ty)
  }

  lemma AllOfWithout(defs: Defs, vs: seq<Obj>, ty: Ty, j: nat)
    requires AllOf(defs, vs, ty) && j < |vs|
    ensures AllOf(defs, Without(vs, j), ty)
  {
    forall i | 0 <= i < |Without(vs, j)|
      ensures HasType(defs, Without(vs, j)[i], ty)
    {
      assert Without(vs, j)[i] == vs[if i < j then i else i + 1];
    }
  }

  lemma RepeatedType(defs: Defs, vs: seq<Obj>, ty: Ty)
    requires AllHave(defs, vs, Repeat(ty, |vs|))
    ensures AllOf(defs, vs, ty)
  {
    forall i | 0 <= i < |vs|
      ensures HasType(defs, vs[i], ty)
    {
      assert Repeat(ty, |vs|)[i] == ty;
    }
  }

  /** The entries that are left once entry `j` has been accounted for. */
  lemma DropEntry(defs: Defs, ty: Ty, dk: seq<Leaf>, dv: seq<Value>, ks: seq<Leaf>, vs: seq<Obj>, j: nat)
    returns (ks': seq<Leaf>, vs': seq<Obj>)
    requires 0 < |dk| == |dv| && |ks| == |vs| && Covers(dk, dv, ks, vs) && Distinct(ks) && AllOf(defs, vs, ty)
    requires j < |ks| && dk[0] == ks[j]
    ensures |ks'| == |vs'| == |ks| - 1 && Distinct(ks') && AllOf(defs, vs', ty)
    ensures Covers(dk[1..], dv[1..], ks', vs')
    ensures |EncPairs(ks, vs)| == |EncPairs(ks', vs')| + |EncLeaf(ks[j])| + |Enc(vs[j])|
  {
    ks', vs' := Without(ks, j), Without(vs, j);
    AllOfWithout(defs, vs, ty, j);
    CoversWithout(dk, dv, ks, vs, j);
    DistinctWithout(ks, j);
    PairsWithout(ks, vs, j);
  }

  /** The first pair and the others. */
  lemma DecPairsHead(
    defs: Defs, k: LeafTy, ty: Ty, n: nat, bs: bytes, fuel: nat, dk: seq<Leaf>, dv: seq<Value>, rest: bytes)
    returns (less: nat, r0: bytes, dk': seq<Leaf>, dv': seq<Value>)
    requires n > 0 && DecPairs(defs, k, ty, n, bs, fuel) == Ok((dk, dv, rest))
    ensures |dk| == |dv| == n && dk' == dk[1..] && dv' == dv[1..]
    ensures DecPair(defs, k, ty, bs, fuel) == Ok((dk[0], dv[0], r0))
    ensures n == less + 1 && DecPairs(defs, k, ty, less, r0, fuel) == Ok((dk', dv', rest))
  {
    less := n - 1;
    r0 := DecPair(defs, k, ty, bs, fuel).value.2;
    dk' := DecPairs(defs, k, ty, n - 1, r0, fuel).value.0;
    dv' := DecPairs(defs, k, ty, n - 1, r0, fuel).value.1;
    assert dk == [dk[0]] + dk' && dv == [dv[0]] + dv';
  }

  /** Decoded pairs that cover distinct entries take at least the bytes of those entries. */
  lemma {:induction false} DecPairsLower(
    defs: Defs, ks: seq<Leaf>, vs: seq<Obj>, k: LeafTy, ty: Ty, n: nat, bs: bytes, fuel: nat,
    dk: seq<Leaf>, dv: seq<Value>, rest: bytes)
    requires |ks| == |vs| && Distinct(ks) && AllOf(defs, vs, ty)
    requires DecPairs(defs, k, ty, n, bs, fuel) == Ok((dk, dv, rest)) && Covers(dk, dv, ks, vs)
    ensures n >= |ks| && |bs| >= |rest| + |EncPairs(ks, vs)|
    decreases fuel, 2 + n, 0
  {
    if n > 0 {
      var less, r0, dk', dv' := DecPairsHead(defs, k, ty, n, bs, fuel, dk, dv, rest);
      if j :| 0 <= j < |ks| && dk[0] == ks[j] && dv[0] == ValueOf(vs[j]) {
        DecPairLower(defs, vs[j], k, ty, bs, fuel);
        DropLower(defs, ks, vs, j, k, ty, less, r0, fuel, dk, dv, dk', dv', rest);
      } else {
        CoversTail(dk, dv, ks, vs);
        DecPairsLower(defs, ks, vs, k, ty, less, r0, fuel, dk', dv', rest);
      }
    }
  }

  lemma {:induction false} DropLower(
    defs: Defs, ks: seq<Leaf>, vs: seq<Obj>, j: nat, k: LeafTy, ty: Ty, n: nat, bs: bytes, fuel: nat,
    dk: seq<Leaf>, dv: seq<Value>, dk': seq<Leaf>, dv': seq<Value>, rest: bytes)
    requires j < |ks| == |vs| && Distinct(ks) && AllOf(defs, vs, ty)
    requires 0 < |dk| == |dv| && Covers(dk, dv, ks, vs) && dk[0] == ks[j] && dk' == dk[1..] && dv' == dv[1..]
    requires DecPairs(defs, k, ty, n, bs, fuel) == Ok((dk', dv', rest))
    ensures n + 1 >= |ks| && |bs| + |EncLeaf(ks[j])| + |Enc(vs[j])| >= |rest| + |EncPairs(ks, vs)|
    decreases fuel, 2 + n, 1
  {
    var ks', vs' := DropEntry(defs, ty, dk, dv, ks, vs, j);
    DecPairsLower(defs, ks', vs', k, ty, n, bs, fuel, dk', dv', rest);
  }

  lemma {:induction false} DecPairLower(defs: Defs, o: Obj, k: LeafTy, ty: Ty, bs: bytes, fuel: nat)
    requires HasType(defs, o, ty)
    requires DecPair(defs, k, ty, bs, fuel).Ok? && DecPair(defs, k, ty, bs, fuel).value.1 == ValueOf(o)
    ensures var r := DecPair(defs, k, ty, bs, fuel).value; |bs| >= |r.2| + |EncLeaf(r.0)| + |Enc(o)|
    decreases fuel, 1
  {
    DecLeafLower(k, bs);
    DecLower(defs, o, ty, DecLeaf(k, bs).value.1, fuel);
  }

  // --- What a shard entry leaves out ---

  /** Leaving fields out never lengthens an entry, and changes nothing if it saves nothing. */
  lemma {:induction false} LocalsWithin(fs: seq<Obj>, attrs: seq<Option<Attr>>)
    requires |fs| == |attrs|
    ensures |EncLocals(fs, attrs)| <= |EncAll(fs)|
    ensures |EncLocals(fs, attrs)| == |EncAll(fs)| ==> EncLocals(fs, attrs) == EncAll(fs)
  {
    if fs != [] {
      LocalsWithin(fs[1..], attrs[1..]);
    }
  }

  /** Whether a value takes no bytes depends on its type alone. */
  lemma {:induction false} EmptyByType(defs: Defs, a: Obj, b: Obj, ty: Ty)
    requires HasType(defs, a, ty) && HasType(defs, b, ty)
    ensures Enc(a) == [] <==> Enc(b) == []
    decreases a
  {
    if a.OStruct? {
      EmptyByTypes(defs, a.fields, b.fields, defs[ty.id].tys);
    }
  }

  lemma {:induction false} EmptyByTypes(defs: Defs, a: seq<Obj>, b: seq<Obj>, tys: seq<Ty>)
    requires AllHave(defs, a, tys) && AllHave(defs, b, tys)
    ensures EncAll(a) == [] <==> EncAll(b) == []
    decreases a
  {
    if a != [] {
      EmptyByType(defs, a[0], b[0], tys[0]);
      EmptyByTypes(defs, a[1..], b[1..], tys[1..]);
    }
  }

  lemma {:induction false} SavedByTypes(defs: Defs, a: seq<Obj>, b: seq<Obj>, tys: seq<Ty>, attrs: seq<Option<Attr>>)
    requires AllHave(defs, a, tys) && AllHave(defs, b, tys) && |attrs| == |tys|
    ensures |EncLocals(a, attrs)| == |EncAll(a)| <==> |EncLocals(b, attrs)| == |EncAll(b)|
    decreases |a|
  {
    if a != [] {
      LocalsWithin(a[1..], attrs[1..]);
      LocalsWithin(b[1..], attrs[1..]);
      EmptyByType(defs, a[0], b[0], tys[0]);
      SavedByTypes(defs, a[1..], b[1..], tys[1..], attrs[1..]);
    }
  }

  /** So a type's values are all self-contained or none is. */
  lemma SavedByType(defs: Defs, a: Obj, b: Obj, ty: Ty)
    requires HasType(defs, a, ty) && HasType(defs, b, ty)
    ensures |Shallow(a)| == |Enc(a)| <==> |Shallow(b)| == |Enc(b)|
  {
    if a.OStruct? {
      SavedByTypes(defs, a.fields, b.fields, defs[ty.id].tys, a.attrs);
    }
  }

  lemma ShallowWithin(defs: Defs, o: Obj, ty: Ty)
    requires HasType(defs, o, ty)
    ensures |Shallow(o)| <= |Enc(o)|
    ensures |Shallow(o)| == |Enc(o)| ==> Shallow(o) == Enc(o)
  {
    if o.OStruct? {
      LocalsWithin(o.fields, o.attrs);
    }
  }

  // --- Decoders only drop bytes at the front ---

  predicate IsSuffix(rest: bytes, bs: bytes) {
    |rest| <= |bs| && bs[|bs| - |rest|..] == rest
  }

  lemma SuffixThrough(rest: bytes, mid: bytes, bs: bytes)
    requires IsSuffix(rest, mid) && IsSuffix(mid, bs)
    ensures IsSuffix(rest, bs)
  {
    assert bs[|bs| - |mid|..][|mid| - |rest|..] == bs[|bs| - |rest|..];
  }

  lemma DecUintSuffix(bs: bytes, wide: bool)
    requires DecUint(bs, wide).Ok?
    ensures IsSuffix(DecUint(bs, wide).value.1, bs)
  {
  }

  lemma DecLeafSuffix(k: LeafTy, bs: bytes)
    requires DecLeaf(k, bs).Ok?
    ensures IsSuffix(DecLeaf(k, bs).value.1, bs)
  {
    if !k.TByte? {
      DecUintSuffix(bs, true);
      if k.TText? {
        SuffixThrough(DecLeaf(k, bs).value.1, DecUint(bs, true).value.1, bs);
      }
    }
  }

  lemma {:induction false} DecSuffix(defs: Defs, ty: Ty, bs: bytes, fuel: nat)
    requires Dec(defs, ty, bs, fuel).Ok?
    ensures IsSuffix(Dec(defs, ty, bs, fuel).value.1, bs)
    decreases fuel, 0
  {
    match ty
    case TLeaf(k) => DecLeafSuffix(k, bs);
    case TStruct(id) => DecAllSuffix(defs, defs[id].tys, bs, fuel - 1);
    case TVec(e) =>
      var (n, r0) := DecUint(bs, true).value;
      DecUintSuffix(bs, true);
      DecAllSuffix(defs, Repeat(e, n), r0, fuel - 1);
      SuffixThrough(Dec(defs, ty, bs, fuel).value.1, r0, bs);
    case TMap(k, v) =>
      var (n, r0) := DecUint(bs, true).value;
      DecUintSuffix(bs, true);
      DecPairsSuffix(defs, k, v, n, r0, fuel - 1);
      SuffixThrough(Dec(defs, ty, bs, fuel).value.1, r0, bs);
  }

  lemma {:induction false} DecAllSuffix(defs: Defs, tys: seq<Ty>, bs: bytes, fuel: nat)
    requires DecAll(defs, tys, bs, fuel).Ok?
    ensures IsSuffix(DecAll(defs, tys, bs, fuel).value.1, bs)
    decreases fuel, 1 + |tys|
  {
    if tys != [] {
      var r0 := Dec(defs, tys[0], bs, fuel).value.1;
      DecSuffix(defs, tys[0], bs, fuel);
      DecAllSuffix(defs, tys[1..], r0, fuel);
      SuffixThrough(DecAll(defs, tys, bs, fuel).value.1, r0, bs);
    }
  }

  lemma {:induction false} DecPairsSuffix(defs: Defs, k: LeafTy, ty: Ty, n: nat, bs: bytes, fuel: nat)
    requires DecPairs(defs, k, ty, n, bs, fuel).Ok?
    ensures IsSuffix(DecPairs(defs, k, ty, n, bs, fuel).value.2, bs)
    decreases fuel, 2 + n
  {
    if n > 0 {
      var r0 := DecPair(defs, k, ty, bs, fuel).value.2;
      DecPairSuffix(defs, k, ty, bs, fuel);
      DecPairsSuffix(defs, k, ty, n - 1, r0, fuel);
      SuffixThrough(DecPairs(defs, k, ty, n, bs, fuel).value.2, r0, bs);
    }
  }

  lemma {:induction false} DecPairSuffix(defs: Defs, k: LeafTy, ty: Ty, bs: bytes, fuel: nat)
    requires DecPair(defs, k, ty, bs, fuel).Ok?
    ensures IsSuffix(DecPair(defs, k, ty, bs, fuel).value.2, bs)
    decreases fuel, 1
  {
    var r0 := DecLeaf(k, bs).value.1;
    DecLeafSuffix(k, bs);
    DecSuffix(defs, ty, r0, fuel);
    SuffixThrough(DecPair(defs, k, ty, bs, fuel).value.2, r0, bs);
  }
}

/** The serde codec: bincode's standard configuration (variable-length integers,
    length-prefixed strings and sequences, fields in declaration order). A decoder
    takes the unread bytes and returns what is left of them. */
module Bincode {
  import opened Wrappers
  import opened Bytes
  import opened Values

  // --- Variable-length integers ---

  function EncUint(n: nat): (bs: bytes)
    ensures |bs| >= 1
  {
    if n <= 250 then [n]
    else if n < 0x1_0000 then [251] + LE(n, 2)
    else if n < U32 then [252] + LE(n, 4)
    else [253] + LE(n, 8)
  }

  /** `wide` is false where the target type is a `u32`, which rejects eight-byte forms. */
  function DecUint(bs: bytes, wide: bool): (r: Result<(nat, bytes)>)
    ensures r.Ok? ==> |r.value.1| < |bs|
  {
    if bs == [] then Err(BadEncoding)
    else if bs[0] <= 250 then Ok((bs[0], bs[1..]))
    else if bs[0] == 251 then DecFixed(bs[1..], 2)
    else if bs[0] == 252 then DecFixed(bs[1..], 4)
    else if bs[0] == 253 && wide then DecFixed(bs[1..], 8)
    else Err(BadEncoding)
  }

  function DecFixed(bs: bytes, k: nat): (r: Result<(nat, bytes)>)
    ensures r.Ok? ==> |r.value.1| + k == |bs|
  {
    if |bs| < k then Err(BadEncoding) else Ok((FromLE(bs[..k]), bs[k..]))
  }

  lemma DecFixedRoundTrip(n: nat, k: nat, rest: bytes)
    requires n < Pow256(k)
    ensures DecFixed(LE(n, k) + rest, k) == Ok((n, rest))
  {
    LEPrefix(n, k, rest);
  }

  lemma TaggedRoundTrip(tag: byte, k: nat, n: nat, rest: bytes, wide: bool)
    requires n < Pow256(k)
    requires (tag == 251 && k == 2) || (tag == 252 && k == 4) || (tag == 253 && k == 8 && wide)
    ensures DecUint([tag] + LE(n, k) + rest, wide) == Ok((n, rest))
  {
    var bs := [tag] + LE(n, k) + rest;
    assert bs[1..] == LE(n, k) + rest;
    DecFixedRoundTrip(n, k, rest);
  }

  lemma DecUintRoundTrip(n: nat, rest: bytes, wide: bool)
    requires n < U32 || (wide && n < U64)
    ensures DecUint(EncUint(n) + rest, wide) == Ok((n, rest))
  {
    Widths();
    if n <= 250 {
      assert ([n] + rest)[1..] == rest;
    } else if n < 0x1_0000 {
      TaggedRoundTrip(251, 2, n, rest, wide);
    } else if n < U32 {
      TaggedRoundTrip(252, 4, n, rest, wide);
    } else {
      TaggedRoundTrip(253, 8, n, rest, wide);
    }
  }

  // --- Scalars and strings ---

  function EncLeaf(l: Leaf): (bs: bytes)
    ensures |bs| >= 1
  {
    match l
    case Byte(b) => [b]
    case Num(n) => EncUint(n)
    case Text(s) => EncUint(|s|) + s
  }

  function DecLeaf(k: LeafTy, bs: bytes): (r: Result<(Leaf, bytes)>)
    ensures r.Ok? ==> |r.value.1| < |bs|
  {
    match k
    case TByte => if bs == [] then Err(BadEncoding) else Ok((Byte(bs[0]), bs[1..]))
    case TNum =>
      var (n, rest) :- DecUint(bs, true);
      Ok((Num(n), rest))
    case TText =>
      var (n, rest) :- DecUint(bs, true);
      if |rest| < n then Err(BadEncoding) else Ok((Text(rest[..n]), rest[n..]))
  }

  lemma DecLeafRoundTrip(l: Leaf, k: LeafTy, rest: bytes)
    requires LeafHas(l, k)
    ensures DecLeaf(k, EncLeaf(l) + rest) == Ok((l, rest))
  {
    match l
    case Byte(_) =>
    case Num(n) => DecUintRoundTrip(n, rest, true);
    case Text(s) =>
      assert EncLeaf(l) + rest == EncUint(|s|) + (s + rest);
      DecUintRoundTrip(|s|, s + rest, true);
      assert (s + rest)[..|s|] == s && (s + rest)[|s|..] == rest;
  }

  // --- Whole objects ---

  function Enc(o: Obj): bytes
    decreases o
  {
    match o
    case OLeaf(l) => EncLeaf(l)
    case OStruct(fs, _) => EncAll(fs)
    case OVec(items) => EncUint(|items|) + EncAll(items)
    case OMap(ks, vs) => EncUint(|ks|) + EncPairs(ks, vs)
  }

  function EncAll(os: seq<Obj>): bytes
    decreases os
  {
    if os == [] then [] else Enc(os[0]) + EncAll(os[1..])
  }

  function EncPairs(ks: seq<Leaf>, vs: seq<Obj>): bytes
    decreases vs
  {
    if ks == [] || vs == [] then [] else (EncLeaf(ks[0]) + Enc(vs[0])) + EncPairs(ks[1..], vs[1..])
  }

  /** Decodes one value of type `ty`; `fuel` bounds the depth of the call stack. */
  function Dec(defs: Defs, ty: Ty, bs: bytes, fuel: nat): (r: Result<(Value, bytes)>)
    ensures r.Ok? ==> |r.value.1| <= |bs|
    decreases fuel, 0
  {
    if fuel == 0 then Err(StackOverflow)
    else
      match ty
      case TLeaf(k) =>
        var (l, rest) :- DecLeaf(k, bs);
        Ok((VLeaf(l), rest))
      case TStruct(id) =>
        if id >= |defs| then Err(BadFormat)
        else
          var (vs, rest) :- DecAll(defs, defs[id].tys, bs, fuel - 1);
          Ok((VStruct(vs), rest))
      case TVec(e) =>
        var (n, r0) :- DecUint(bs, true);
        var (vs, rest) :- DecAll(defs, Repeat(e, n), r0, fuel - 1);
        Ok((VVec(vs), rest))
      case TMap(k, v) =>
        var (n, r0) :- DecUint(bs, true);
        var (ks, vs, rest) :- DecPairs(defs, k, v, n, r0, fuel - 1);
        Ok((VMap(InsertAll(map[], ks, vs)), rest))
  }

  function DecAll(defs: Defs, tys: seq<Ty>, bs: bytes, fuel: nat): (r: Result<(seq<Value>, bytes)>)
    ensures r.Ok? ==> |r.value.0| == |tys| && |r.value.1| <= |bs|
    decreases fuel, 1 + |tys|
  {
    if tys == [] then Ok(([], bs))
    else
      var (v, r0) :- Dec(defs, tys[0], bs, fuel);
      var (vs, rest) :- DecAll(defs, tys[1..], r0, fuel);
      Ok(([v] + vs, rest))
  }

  function DecPairs(defs: Defs, k: LeafTy, ty: Ty, n: nat, bs: bytes, fuel: nat)
    : (r: Result<(seq<Leaf>, seq<Value>, bytes)>)
    ensures r.Ok? ==> |r.value.0| == |r.value.1| == n && |r.value.2| <= |bs|
    decreases fuel, 2 + n
  {
    if n == 0 then Ok(([], [], bs))
    else
      var (key, v, r0) :- DecPair(defs, k, ty, bs, fuel);
      var (ks, vs, rest) :- DecPairs(defs, k, ty, n - 1, r0, fuel);
      Ok(([key] + ks, [v] + vs, rest))
  }

  /** A `(K, V)` tuple. */
  function DecPair(defs: Defs, k: LeafTy, ty: Ty, bs: bytes, fuel: nat): (r: Result<(Leaf, Value, bytes)>)
    ensures r.Ok? ==> |r.value.2| <= |bs|
    decreases fuel, 1
  {
    var (key, r0) :- DecLeaf(k, bs);
    var (v, rest) :- Dec(defs, ty, r0, fuel);
    Ok((key, v, rest))
  }

  /** Decoding undoes encoding and leaves what follows untouched. */
  lemma {:induction false} DecRoundTrip(defs: Defs, o: Obj, ty: Ty, rest: bytes, fuel: nat)
    requires HasType(defs, o, ty) && fuel >= Depth(o)
    ensures Dec(defs, ty, Enc(o) + rest, fuel) == Ok((ValueOf(o), rest))
    decreases o, 0
  {
    match o
    case OLeaf(l) => DecLeafRoundTrip(l, ty.k, rest);
    case OStruct(fs, _) => DecAllRoundTrip(defs, fs, defs[ty.id].tys, rest, fuel - 1);
    case OVec(items) =>
      var less := fuel - 1;
      DecAllRoundTrip(defs, items, Repeat(ty.elem, |items|), rest, less);
      DecVec(defs, items, ty.elem, rest, fuel, less);
    case OMap(ks, vs) =>
      var less := fuel - 1;
      DecPairsRoundTrip(defs, ks, vs, ty.key, ty.val, rest, less);
      DecMap(defs, ks, vs, ty.key, ty.val, rest, fuel, less);
  }

  lemma DecMap(defs: Defs, ks: seq<Leaf>, vs: seq<Obj>, k: LeafTy, ty: Ty, rest: bytes, fuel: nat, less: nat)
    requires fuel == less + 1 && |ks| == |vs| < U64
    requires DecPairs(defs, k, ty, |ks|, EncPairs(ks, vs) + rest, less) == Ok((ks, ValuesOf(vs), rest))
    ensures Dec(defs, TMap(k, ty), Enc(OMap(ks, vs)) + rest, fuel) == Ok((ValueOf(OMap(ks, vs)), rest))
  {
    CountedPrefix(|ks|, EncPairs(ks, vs), rest);
  }

  lemma DecVec(defs: Defs, items: seq<Obj>, e: Ty, rest: bytes, fuel: nat, less: nat)
    requires fuel == less + 1 && |items| < U64
    requires DecAll(defs, Repeat(e, |items|), EncAll(items) + rest, less) == Ok((ValuesOf(items), rest))
    ensures Dec(defs, TVec(e), Enc(OVec(items)) + rest, fuel) == Ok((ValueOf(OVec(items)), rest))
  {
    CountedPrefix(|items|, EncAll(items), rest);
  }

  lemma CountedPrefix(n: nat, body: bytes, rest: bytes)
    requires n < U64
    ensures DecUint(EncUint(n) + body + rest, true) == Ok((n, body + rest))
  {
    DecUintRoundTrip(n, body + rest, true);
    assert EncUint(n) + body + rest == EncUint(n) + (body + rest);
  }

  lemma {:induction false} DecAllRoundTrip(defs: Defs, os: seq<Obj>, tys: seq<Ty>, rest: bytes, fuel: nat)
    requires AllHave(defs, os, tys) && fuel >= DepthAll(os)
    ensures DecAll(defs, tys, EncAll(os) + rest, fuel) == Ok((ValuesOf(os), rest))
    decreases os, 0
  {
    if os == [] {
      assert EncAll(os) + rest == rest;
    } else {
      assert EncAll(os) + rest == Enc(os[0]) + (EncAll(os[1..]) + rest);
      DecRoundTrip(defs, os[0], tys[0], EncAll(os[1..]) + rest, fuel);
      DecAllRoundTrip(defs, os[1..], tys[1..], rest, fuel);
    }
  }

  lemma {:induction false} DecPairsRoundTrip(
    defs: Defs, ks: seq<Leaf>, vs: seq<Obj>, k: LeafTy, ty: Ty, rest: bytes, fuel: nat)
    requires |ks| == |vs| && KeysHave(ks, k)
    requires AllHave(defs, vs, Repeat(ty, |vs|)) && fuel >= DepthAll(vs)
    ensures DecPairs(defs, k, ty, |ks|, EncPairs(ks, vs) + rest, fuel) == Ok((ks, ValuesOf(vs), rest))
    decreases vs, 0
  {
    if ks == [] {
      assert EncPairs(ks, vs) + rest == rest;
    } else {
      assert Repeat(ty, |vs|)[0] == ty && Repeat(ty, |vs|)[1..] == Repeat(ty, |vs[1..]|);
      DecPairsRoundTrip(defs, ks[1..], vs[1..], k, ty, rest, fuel);
      DecPairRoundTrip(defs, ks[0], vs[0], k, ty, EncPairs(ks[1..], vs[1..]) + rest, fuel);
      Assoc(EncLeaf(ks[0]) + Enc(vs[0]), EncPairs(ks[1..], vs[1..]), rest);
      DecPairsStep(defs, k, ty, EncPairs(ks, vs) + rest, fuel, ks, ValueOf(vs[0]),
        EncPairs(ks[1..], vs[1..]) + rest, ValuesOf(vs[1..]), rest);
    }
  }

  lemma DecPairsStep(
    defs: Defs, k: LeafTy, ty: Ty, bs: bytes, fuel: nat, ks: seq<Leaf>,
    v: Value, r0: bytes, vs: seq<Value>, rest: bytes)
    requires ks != [] && DecPair(defs, k, ty, bs, fuel) == Ok((ks[0], v, r0))
    ensures DecPairs(defs, k, ty, |ks| - 1, r0, fuel) == Ok((ks[1..], vs, rest)) ==>
              DecPairs(defs, k, ty, |ks|, bs, fuel) == Ok((ks, [v] + vs, rest))
  {
    assert [ks[0]] + ks[1..] == ks;
  }

  lemma {:induction false} DecPairRoundTrip(defs: Defs, key: Leaf, o: Obj, k: LeafTy, ty: Ty, rest: bytes, fuel: nat)
    requires LeafHas(key, k) && HasType(defs, o, ty) && fuel >= Depth(o)
    ensures DecPair(defs, k, ty, EncLeaf(key) + Enc(o) + rest, fuel) == Ok((key, ValueOf(o), rest))
    decreases o, 1
  {
    assert EncLeaf(key) + Enc(o) + rest == EncLeaf(key) + (Enc(o) + rest);
    DecLeafRoundTrip(key, k, Enc(o) + rest);
    DecRoundTrip(defs, o, ty, rest, fuel);
  }
}

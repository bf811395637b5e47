/** Types, in-memory objects and the mathematical values they denote. */
module Values {
  import opened Wrappers
  import opened Bytes

  /** A scalar or a string: what a map key may be and where recursion ends. */
  datatype Leaf = Byte(b: byte) | Num(n: nat) | Text(s: bytes)
  datatype LeafTy = TByte | TNum | TText

  /** `#[parcode(...)]` on a field: `chunkable` or `map`, with its compressor id. */
  datatype Attr = Attr(cid: nat, isMap: bool)

  const NO_CONFIG := Attr(0, false)

  /** Struct types are referred to by index, so a type may mention itself. A field
      without an attribute is local, one with an attribute is a chunk of its own. */
  datatype Ty = TLeaf(k: LeafTy) | TStruct(id: nat) | TVec(elem: Ty) | TMap(key: LeafTy, val: Ty)
  datatype StructDef = StructDef(tys: seq<Ty>, attrs: seq<Option<Attr>>)
  type Defs = seq<StructDef>

  /** A live object. A struct lists its fields in declaration order; a map lists its
      keys, and the value of each, in its own iteration order. */
  datatype Obj =
    | OLeaf(leaf: Leaf)
    | OStruct(fields: seq<Obj>, attrs: seq<Option<Attr>>)
    | OVec(items: seq<Obj>)
    | OMap(keys: seq<Leaf>, vals: seq<Obj>)

  datatype Value =
    | VLeaf(leaf: Leaf)
    | VStruct(fields: seq<Value>)
    | VVec(items: seq<Value>)
    | VMap(entries: map<Leaf, Value>)

  function ValueOf(o: Obj): Value
    decreases o
  {
    match o
    case OLeaf(l) => VLeaf(l)
    case OStruct(fs, _) => VStruct(ValuesOf(fs))
    case OVec(items) => VVec(ValuesOf(items))
    case OMap(ks, vs) => VMap(InsertAll(map[], ks, ValuesOf(vs)))
  }

  function ValuesOf(os: seq<Obj>): (r: seq<Value>)
    ensures |r| == |os|
    decreases os
  {
    if os == [] then [] else [ValueOf(os[0])] + ValuesOf(os[1..])
  }

  /** `HashMap::insert` of each pair in turn: a later pair wins. */
  function InsertAll(m: map<Leaf, Value>, ks: seq<Leaf>, vs: seq<Value>): map<Leaf, Value>
    decreases |ks|
  {
    if ks == [] || vs == [] then m else InsertAll(m[ks[0] := vs[0]], ks[1..], vs[1..])
  }

  // --- Typing ---

  predicate LeafHas(l: Leaf, k: LeafTy) {
    match l
    case Byte(_) => k == TByte
    case Num(n) => k == TNum && n < U64
    case Text(s) => k == TText && |s| < U64
  }

  predicate KeysHave(ks: seq<Leaf>, k: LeafTy) {
    forall i :: 0 <= i < |ks| ==> LeafHas(ks[i], k)
  }

  predicate Distinct(ks: seq<Leaf>) {
    forall i, j :: 0 <= i < j < |ks| ==> ks[i] != ks[j]
  }

  /** `o` is a Rust value of type `ty`; every length fits a `u64`. */
  ghost predicate HasType(defs: Defs, o: Obj, ty: Ty)
    decreases o
  {
    match o
    case OLeaf(l) => ty.TLeaf? && LeafHas(l, ty.k)
    case OStruct(fs, attrs) =>
      ty.TStruct? && ty.id < |defs| && attrs == defs[ty.id].attrs && |attrs| == |fs| &&
      AllHave(defs, fs, defs[ty.id].tys)
    case OVec(items) => ty.TVec? && |items| < U64 && AllHave(defs, items, Repeat(ty.elem, |items|))
    case OMap(ks, vs) =>
      ty.TMap? && |ks| == |vs| < U64 && Distinct(ks) && KeysHave(ks, ty.key) &&
      AllHave(defs, vs, Repeat(ty.val, |vs|))
  }

  ghost predicate AllHave(defs: Defs, os: seq<Obj>, tys: seq<Ty>)
    decreases os
  {
    |os| == |tys| && forall i :: 0 <= i < |os| ==> HasType(defs, os[i], tys[i])
  }

  function Repeat<T>(x: T, n: nat): seq<T> {
    seq(n, _ => x)
  }

  /** How deep the recursion over an object goes. */
  function Depth(o: Obj): (d: nat)
    ensures d >= 1
    decreases o
  {
    1 + match o
        case OLeaf(_) => 0
        case OStruct(fs, _) => DepthAll(fs)
        case OVec(items) => DepthAll(items)
        case OMap(_, vs) => DepthAll(vs)
  }

  function DepthAll(os: seq<Obj>): nat
    decreases os
  {
    if os == [] then 0 else Max(Depth(os[0]), DepthAll(os[1..]))
  }
}

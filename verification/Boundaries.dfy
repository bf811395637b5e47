/** Concrete objects for which reading does not give back what was written. */
module Boundaries {
  import opened Wrappers
  import opened Bytes
  import opened Values
  import opened Bincode
  import opened Jobs
  import opened Trees
  import opened Stored
  import opened Format
  import opened Reader
  import opened Loadable
  import opened Lazy
  import opened Inspector
  import FileHeader
  import opened MapFormat
  import MapBack
  import MapLookup
  import MapLazy

  /** `struct V { #[parcode(chunkable)] x: u64 }` and
      `struct S { #[parcode(map)] m: HashMap<u8, V> }`. */
  const DEFS: Defs := [
    StructDef([TLeaf(TNum)], [Some(Attr(0, false))]),
    StructDef([TMap(TByte, TStruct(0))], [Some(Attr(0, true))])]

  const V7: Obj := OStruct([OLeaf(Num(7))], [Some(Attr(0, false))])
  const S7: Obj := OStruct([OMap([Byte(1)], [V7])], [Some(Attr(0, true))])

  /** A sharded map of one value with one chunkable field: the entry leaves the field out,
      and the readers look for it there. */
  lemma RemoteFieldTyped()
    ensures DefsOk(DEFS) && NodeTy(TStruct(1)) && HasType(DEFS, S7, TStruct(1)) && HasType(DEFS, V7, TStruct(0))
    ensures Shallow(V7) == [] && Enc(V7) == [7]
    ensures !Loads(S7, NO_CONFIG) && !LazyLoads(S7, NO_CONFIG)
  {
    assert DefOk(DEFS[0]) && DefOk(DEFS[1]);
    assert HasType(DEFS, OLeaf(Num(7)), TLeaf(TNum));
    assert AllHave(DEFS, [OLeaf(Num(7))], [TLeaf(TNum)]);
    assert HasType(DEFS, V7, TStruct(0));
    assert AllHave(DEFS, [V7], Repeat(TStruct(0), 1));
    assert HasType(DEFS, S7.fields[0], TMap(TByte, TStruct(0)));
    assert EncAll([OLeaf(Num(7))]) == [7] + EncAll([]);
    assert EncLocals([OLeaf(Num(7))], [Some(Attr(0, false))]) == [] + EncLocals([], []);
    assert Enc(V7) == [7] && |Shallow(V7)| == 0;
    assert [V7][0] == V7;
    assert !SelfContained([V7]);
    assert !Loads(S7.fields[0], Attr(0, true)) && !LazyLoads(S7.fields[0], Attr(0, true));
  }

  /** Whatever file holds that struct, eager loading fails on it, and so does the lookup of
      the map's only key; the lazy lookup gives the value. */
  lemma RemoteFieldInMapIsLost(f: File, env: Env, n: ChunkNode, fuel: nat)
    requires env.cpus >= 1 && StoredAt(f, env.hash, n, TreeOf(env, S7, NO_CONFIG)) && fuel >= Depth(S7)
    ensures FromNode(f, DEFS, n, TStruct(1), fuel) == Err(BadEncoding)
    ensures ChildAt(f, n, 0).Ok?
    ensures var m := ChildAt(f, n, 0).value;
      && MapLookup.GetValue(f, env.hash, DEFS, TByte, TStruct(0), m, Byte(1), fuel) == Err(BadEncoding)
      && var r := MapLazy.GetLazyValue(f, env.hash, DEFS, TByte, TStruct(0), m, Byte(1), fuel);
         r.Ok? && r.value.Some? && Materialize(f, DEFS, r.value.value, fuel) == Ok(ValueOf(V7))
  {
    DepthOfS7();
    var m := TheMap(f, env, n);
    MapIsStored(f, env, m, fuel);
    EagerFails(f, env, n, m, fuel);
    LookupFails(f, env, m, fuel);
    LazyFinds(f, env, m, fuel);
  }

  lemma LazyFinds(f: File, env: Env, m: ChunkNode, fuel: nat)
    requires env.cpus >= 1 && fuel >= 2
    requires MapLookup.MapStored(f, env.hash, DEFS, TByte, TStruct(0), m, [Byte(1)], [V7], TheForests(env), 0, fuel)
    ensures var r := MapLazy.GetLazyValue(f, env.hash, DEFS, TByte, TStruct(0), m, Byte(1), fuel);
      r.Ok? && r.value.Some? && Materialize(f, DEFS, r.value.value, fuel) == Ok(ValueOf(V7))
  {
    MapLazy.GetLazyMaterializes(f, env, DEFS, TByte, TStruct(0), m, [Byte(1)], [V7], 0, fuel, 0);
    V7Loads();
  }

  lemma DepthOfS7()
    ensures Depth(S7) == 4 && Depth(V7) == 2
  {
    assert Depth(OLeaf(Num(7))) == 1;
    assert DepthAll([OLeaf(Num(7))]) == 1;
    assert DepthAll([V7]) == 2;
    assert Depth(OMap([Byte(1)], [V7])) == 3;
    assert DepthAll(S7.fields) == 3;
  }

  lemma V7Loads()
    ensures LazyLoads(V7, NO_CONFIG)
  {
    assert LazyLoads(OLeaf(Num(7)), Attr(0, false));
  }

  /** The forest of the map's only value: its field. */
  function TheForests(env: Env): seq<seq<Tree>>
    requires env.cpus >= 1
  {
    Inlined(env, [V7])
  }

  lemma TheMap(f: File, env: Env, n: ChunkNode) returns (m: ChunkNode)
    requires env.cpus >= 1 && StoredAt(f, env.hash, n, TreeOf(env, S7, NO_CONFIG))
    ensures Open(f, n) == Ok(Cursor([], [m])) && ChildAt(f, n, 0) == Ok(m)
    ensures StoredAt(f, env.hash, m, MapTree(env.hash, [Byte(1)], [V7], TheForests(env), 0))
  {
    var t := TreeOf(env, S7, NO_CONFIG);
    var field := MapTree(env.hash, [Byte(1)], [V7], TheForests(env), 0);
    assert TreeOf(env, S7.fields[0], Attr(0, true)) == field;
    assert t.children == [field] + [] == [field] by {
      assert RemoteTrees(env, S7.fields, S7.attrs) == [field] + RemoteTrees(env, [], []);
    }
    assert EncLocals(S7.fields, S7.attrs) == [] + EncLocals([], []);
    OpenRead(f, env.hash, n, t);
    m := Children(f, n).value[0];
    assert Children(f, n).value == [m];
    assert ChildrenFrom(f, n, 0).value[0] == ChildAt(f, n, 0).value;
    assert Open(f, n).value.bs == EncLocals(S7.fields, S7.attrs);
  }

  lemma MapIsStored(f: File, env: Env, m: ChunkNode, fuel: nat)
    requires env.cpus >= 1 && fuel >= 2
    requires StoredAt(f, env.hash, m, MapTree(env.hash, [Byte(1)], [V7], TheForests(env), 0))
    ensures MapLookup.MapStored(f, env.hash, DEFS, TByte, TStruct(0), m, [Byte(1)], [V7], TheForests(env), 0, fuel)
  {
    RemoteFieldTyped();
    DepthOfS7();
  }

  /** The pair cannot be decoded: behind the key there is nothing. */
  lemma PairFails(rest: bytes, fuel: nat)
    requires rest == [] && fuel >= 2
    ensures DecPair(DEFS, TByte, TStruct(0), EntryBytes(Byte(1), V7) + rest, fuel) == Err(BadEncoding)
  {
    RemoteFieldTyped();
    assert EntryBytes(Byte(1), V7) + rest == [1];
    assert [1][1..] == [];
    assert DecAll(DEFS, [TLeaf(TNum)], [], fuel - 1) == Err(BadEncoding) by {
      assert Dec(DEFS, TLeaf(TNum), [], fuel - 1) == Err(BadEncoding);
    }
  }

  lemma EagerFails(f: File, env: Env, n: ChunkNode, m: ChunkNode, fuel: nat)
    requires env.cpus >= 1 && fuel >= 4 && Open(f, n) == Ok(Cursor([], [m]))
    requires StoredAt(f, env.hash, m, MapTree(env.hash, [Byte(1)], [V7], TheForests(env), 0))
    ensures FromNode(f, DEFS, n, TStruct(1), fuel) == Err(BadEncoding)
  {
    var less := fuel - 1;
    MapFails(f, env, m, less, less - 1);
    OnlyFieldFails(f, n, m, fuel, less);
  }

  lemma OnlyFieldFails(f: File, n: ChunkNode, m: ChunkNode, fuel: nat, less: nat)
    requires fuel == less + 1 && Open(f, n) == Ok(Cursor([], [m]))
    requires FromNode(f, DEFS, m, TMap(TByte, TStruct(0)), less) == Err(BadEncoding)
    ensures FromNode(f, DEFS, n, TStruct(1), fuel) == Err(BadEncoding)
  {
    assert ReadLocals(DEFS, DEFS[1].tys, DEFS[1].attrs, [], less) == Ok(([], []));
    assert ReadRemotes(f, DEFS, DEFS[1].tys, DEFS[1].attrs, [m], less) == Err(BadEncoding);
  }

  lemma MapFails(f: File, env: Env, m: ChunkNode, fuel: nat, less: nat)
    requires env.cpus >= 1 && fuel == less + 1 && less >= 2
    requires StoredAt(f, env.hash, m, MapTree(env.hash, [Byte(1)], [V7], TheForests(env), 0))
    ensures FromNode(f, DEFS, m, TMap(TByte, TStruct(0)), fuel) == Err(BadEncoding)
  {
    MapIsStored(f, env, m, fuel);
    MapBack.MapTreeOpen(f, env.hash, m, [Byte(1)], [V7], TheForests(env), 0);
    MapLookup.ShardFound(f, env.hash, DEFS, TByte, TStruct(0), m, [Byte(1)], [V7], TheForests(env), 0, fuel, Byte(1));
    var kids := Children(f, m).value;
    assert ChildrenFrom(f, m, 0).value[0] == ChildAt(f, m, 0).value;
    TheBucket(env.hash);
    ShardFails(env.hash, ReadRaw(f, kids[0]).value, less);
    FirstShardFails(f, m, kids, fuel, less);
  }

  lemma FirstShardFails(f: File, m: ChunkNode, kids: seq<ChunkNode>, fuel: nat, less: nat)
    requires fuel == less + 1 && ReadRaw(f, m).Ok? && |ReadRaw(f, m).value| >= 4 && m.childCount > 0
    requires Children(f, m) == Ok(kids) && kids != [] && ReadRaw(f, kids[0]).Ok?
    requires ReadMapShard(DEFS, TByte, TStruct(0), ReadRaw(f, kids[0]).value, less) == Err(BadEncoding)
    ensures FromNode(f, DEFS, m, TMap(TByte, TStruct(0)), fuel) == Err(BadEncoding)
  {
    assert ReadMapShards(f, DEFS, TByte, TStruct(0), kids, less) == Err(BadEncoding);
  }

  lemma TheBucket(h: Hash)
    ensures NumShards(1) == 1 && MapLookup.BucketOf(h, [Byte(1)], Byte(1)) == 0
    ensures MapLookup.BucketKeys(h, [Byte(1)], Byte(1)) == [Byte(1)]
    ensures MapLookup.BucketVals(h, [Byte(1)], [V7], Byte(1)) == [V7]
  {
    assert Pick(h, 1, 0, [Byte(1)], [Byte(1)]) == [Byte(1)] + Pick(h, 1, 0, [], []);
    assert Pick(h, 1, 0, [Byte(1)], [V7]) == [V7] + Pick(h, 1, 0, [], []);
  }

  lemma ShardFails(h: Hash, p: bytes, fuel: nat)
    requires MapShardBytes(h, [Byte(1)], [V7]) == Ok(p) && fuel >= 2
    ensures ReadMapShard(DEFS, TByte, TStruct(0), p, fuel) == Err(BadEncoding)
  {
    ShardHeader(h, [Byte(1)], [V7], p);
    ShardEntry(h, [Byte(1)], [V7], p, 0);
    PairFails(Blob([Byte(1)][1..], [V7][1..]), fuel);
  }

  lemma LookupFails(f: File, env: Env, m: ChunkNode, fuel: nat)
    requires env.cpus >= 1 && fuel >= 2
    requires MapLookup.MapStored(f, env.hash, DEFS, TByte, TStruct(0), m, [Byte(1)], [V7], TheForests(env), 0, fuel)
    ensures MapLookup.GetValue(f, env.hash, DEFS, TByte, TStruct(0), m, Byte(1), fuel) == Err(BadEncoding)
  {
    MapLookup.ShardFound(f, env.hash, DEFS, TByte, TStruct(0), m, [Byte(1)], [V7], TheForests(env), 0, fuel, Byte(1));
    TheBucket(env.hash);
    var shard := ChildAt(f, m, 0).value;
    var p := ReadRaw(f, shard).value;
    MapLookup.ShardSize(env.hash, [Byte(1)], [V7]);
    ShardHeader(env.hash, [Byte(1)], [V7], p);
    MapLookup.GetIsScan(f, env.hash, DEFS, TByte, TStruct(0), m, shard, p, 1, Byte(1), fuel);
    ScanFails(env.hash, p, fuel);
  }

  lemma ScanFails(h: Hash, p: bytes, fuel: nat)
    requires MapShardBytes(h, [Byte(1)], [V7]) == Ok(p) && fuel >= 2 && 16 <= |p|
    ensures MapLookup.Scan(DEFS, TByte, TStruct(0), p, 1, h(Byte(1)), Byte(1), 0, fuel) == Err(BadEncoding)
  {
    ShardHash(h, [Byte(1)], [V7], p, 0);
    MapLookup.CandidateStored(h, [Byte(1)], [V7], p, 0);
    PairFails(Blob([Byte(1)][1..], [V7][1..]), fuel);
  }

  /** `HashMap<u8, u8>` with one entry, as the root: a blob of three bytes. */
  const SMALL: Obj := OMap([Byte(1)], [OLeaf(Byte(2))])

  /** Whatever file holds it, it reads as an empty map. */
  lemma SmallBlobIsLost(f: File, env: Env, n: ChunkNode, fuel: nat)
    requires env.cpus >= 1 && StoredAt(f, env.hash, n, TreeOf(env, SMALL, NO_CONFIG)) && fuel > 0
    ensures HasType([], SMALL, TMap(TByte, TLeaf(TByte))) && !Loads(SMALL, NO_CONFIG)
    ensures FromNode(f, [], n, TMap(TByte, TLeaf(TByte)), fuel) == Ok(VMap(map[]))
    ensures ValueOf(SMALL) == VMap(map[Byte(1) := VLeaf(Byte(2))])
  {
    SmallTyped();
    assert TreeOf(env, SMALL, NO_CONFIG).job == PrimitiveJob(SMALL);
  }

  lemma SmallTyped()
    ensures HasType([], SMALL, TMap(TByte, TLeaf(TByte)))
    ensures Enc(SMALL) == [1, 1, 2] && ValueOf(SMALL) == VMap(map[Byte(1) := VLeaf(Byte(2))])
  {
    assert HasType([], OLeaf(Byte(2)), TLeaf(TByte));
    assert AllHave([], [OLeaf(Byte(2))], Repeat(TLeaf(TByte), 1));
    assert EncPairs([Byte(1)], [OLeaf(Byte(2))]) == ([1] + [2]) + EncPairs([], []);
    assert ValuesOf([OLeaf(Byte(2))]) == [VLeaf(Byte(2))] + ValuesOf([]);
    assert InsertAll(map[], [Byte(1)], [VLeaf(Byte(2))]) == InsertAll(map[][Byte(1) := VLeaf(Byte(2))], [], []);
  }

  /** Looking for a shard divides by zero exactly in the empty map. */
  lemma DividesByZero(
    f: File, env: Env, defs: Defs, k: LeafTy, ty: Ty, n: ChunkNode, ks: seq<Leaf>,
    vs: seq<Obj>, at: Attr, fuel: nat, key: Leaf)
    requires env.cpus >= 1 && at.isMap && MapBack.Entries(defs, k, ty, ks, vs, fuel) && Distinct(ks)
    requires StoredAt(f, env.hash, n, TreeOf(env, OMap(ks, vs), at))
    ensures MapLookup.ShardFor(f, env.hash, n, key) == Err(DivideByZero) <==> ks == []
  {
    if ks == [] {
      MapLookup.EmptyShardFor(f, env, OMap(ks, vs), at, n, key);
    } else {
      MapLookup.ShardFound(f, env.hash, defs, k, ty, n, ks, vs, Inlined(env, vs), at.cid, fuel, key);
    }
  }

  // --- A chunk that is its own child ---

  /** `struct Links { #[parcode(chunkable)] next: Vec<Links> }`. */
  const LINKS: Defs := [StructDef([TVec(TStruct(0))], [Some(Attr(0, false))])]

  const SELF: ChildRef := ChildRef(0, 22)

  /** One chunk with one byte of payload, naming itself as its only child. */
  function Loop(reg: Registry): File {
    File(Frame([1], [SELF], 0), SELF, reg)
  }

  const LOOP_NODE: ChunkNode := ChunkNode(0, 22, 1, 1, 1)

  /** The payload is stored as it is. */
  predicate Plain(reg: Registry) {
    |reg| > 0 && reg[0].Some? && reg[0].value.decompress([1]) == Some([1])
  }

  lemma LoopParses(reg: Registry)
    ensures GetChunk(Loop(reg), 0, 22) == Ok(LOOP_NODE)
    ensures RefAt(Loop(reg), LOOP_NODE, 0) == Ok(SELF)
    ensures Loop(reg).data[0..1] == [1]
  {
    assert |RefsBytes([SELF])| == REF_SIZE;
    FrameRoundTrip(Loop(reg), 0, [1], [SELF], 0);
    FramedRefAt(Loop(reg), LOOP_NODE, [1], [SELF], 0, 0);
  }

  /** The chunk's only child is itself. */
  predicate Cyclic(f: File, n: ChunkNode) {
    Children(f, n) == Ok([n]) && n.childCount == 1
  }

  lemma LoopCyclic(reg: Registry)
    ensures Cyclic(Loop(reg), LOOP_NODE)
    ensures Plain(reg) ==> ReadRaw(Loop(reg), LOOP_NODE) == Ok([1])
  {
    LoopParses(reg);
    OnlyChild(Loop(reg), LOOP_NODE, SELF);
  }

  lemma OnlyChild(f: File, n: ChunkNode, r: ChildRef)
    requires n.childCount == 1 && RefAt(f, n, 0) == Ok(r) && GetChunk(f, r.offset, r.length) == Ok(n)
    ensures Cyclic(f, n)
  {
    assert ChildrenFrom(f, n, 1) == Ok([]);
    assert [n] + [] == [n];
  }

  /** The file opens, but no number of levels is enough to inspect it, to walk it, or to
      load it as a struct that contains a vector of itself. */
  lemma LoopExhausts(reg: Registry, fuel: nat)
    ensures FileHeader.RootNode(Loop(reg)) == Ok(LOOP_NODE)
    ensures Inspect(Loop(reg), LOOP_NODE, fuel) == Err(StackOverflow)
    ensures Plain(reg) ==> Walk(Loop(reg), LOOP_NODE, fuel) == Err(StackOverflow)
    ensures Plain(reg) ==> Load(Loop(reg), LINKS, TStruct(0), fuel) == Err(StackOverflow)
  {
    LoopParses(reg);
    LoopCyclic(reg);
    InspectLoops(Loop(reg), LOOP_NODE, fuel);
    if Plain(reg) {
      WalkLoops(Loop(reg), LOOP_NODE, fuel);
      LoadLoops(Loop(reg), LOOP_NODE, fuel);
    }
  }

  lemma {:induction false} InspectLoops(f: File, n: ChunkNode, fuel: nat)
    requires Cyclic(f, n)
    ensures Inspect(f, n, fuel) == Err(StackOverflow)
  {
    if fuel > 0 {
      InspectLoops(f, n, fuel - 1);
    }
  }

  lemma {:induction false} WalkLoops(f: File, n: ChunkNode, fuel: nat)
    requires Cyclic(f, n) && ReadRaw(f, n) == Ok([1])
    ensures Walk(f, n, fuel) == Err(StackOverflow)
  {
    if fuel > 0 {
      WalkLoops(f, n, fuel - 1);
    }
  }

  lemma LoadLoops(f: File, n: ChunkNode, fuel: nat)
    requires Cyclic(f, n) && ReadRaw(f, n) == Ok([1])
    ensures FromNode(f, LINKS, n, TStruct(0), fuel) == Err(StackOverflow)
  {
    if fuel > 0 {
      ItemLoops(f, n, [1], fuel);
    }
  }

  lemma {:induction false} ItemLoops(f: File, n: ChunkNode, bs: bytes, fuel: nat)
    requires Cyclic(f, n) && ReadRaw(f, n) == Ok([1])
    ensures ReadItem(f, LINKS, TStruct(0), Cursor(bs, [n]), fuel) == Err(StackOverflow)
    decreases fuel
  {
    if fuel > 0 {
      assert ReadLocals(LINKS, LINKS[0].tys, LINKS[0].attrs, bs, fuel - 1) == Ok(([], bs));
      VectorLoops(f, n, fuel - 1);
      assert ReadRemotes(f, LINKS, LINKS[0].tys, LINKS[0].attrs, [n], fuel - 1) == Err(StackOverflow);
    }
  }

  /** As a vector the chunk promises one element and offers itself as its child. */
  lemma {:induction false} VectorLoops(f: File, n: ChunkNode, fuel: nat)
    requires Cyclic(f, n) && ReadRaw(f, n) == Ok([1])
    ensures FromNode(f, LINKS, n, TVec(TStruct(0)), fuel) == Err(StackOverflow)
    decreases fuel
  {
    if fuel > 0 {
      ItemLoops(f, n, [1][1..], fuel - 1);
      SliceLoops(f, n, fuel - 1);
    }
  }

  lemma SliceLoops(f: File, n: ChunkNode, fuel: nat)
    requires ReadItem(f, LINKS, TStruct(0), Cursor([1][1..], [n]), fuel) == Err(StackOverflow)
    ensures ReadSlice(f, LINKS, TStruct(0), Cursor([1], [n]), fuel) == Err(StackOverflow)
  {
    assert DecUint([1], true) == Ok((1, [1][1..]));
  }
}

/** Eager reading: what `from_node` and the shard readers compute. */
module Reader {
  import opened Wrappers
  import opened Bytes
  import opened Format
  import opened FileHeader
  import opened Values
  import opened Bincode
  import opened Sharding

  /** What a reader has left of a node: unread payload bytes and children not yet taken. */
  datatype Cursor = Cursor(bs: bytes, kids: seq<ChunkNode>)

  // --- Structs ---

  /** The local fields, in declaration order. */
  function ReadLocals(defs: Defs, tys: seq<Ty>, attrs: seq<Option<Attr>>, bs: bytes, fuel: nat)
    : (r: Result<(seq<Value>, bytes)>)
    ensures r.Ok? ==> |r.value.1| <= |bs|
    decreases |tys|
  {
    if tys == [] || attrs == [] then Ok(([], bs))
    else if attrs[0].Some? then ReadLocals(defs, tys[1..], attrs[1..], bs, fuel)
    else
      var (v, r0) :- Dec(defs, tys[0], bs, fuel);
      var (vs, rest) :- ReadLocals(defs, tys[1..], attrs[1..], r0, fuel);
      Ok(([v] + vs, rest))
  }

  /** One child for each remote field, in declaration order. */
  function ReadRemotes(f: File, defs: Defs, tys: seq<Ty>, attrs: seq<Option<Attr>>, kids: seq<ChunkNode>, fuel: nat)
    : Result<(seq<Value>, seq<ChunkNode>)>
    decreases fuel, 2, |tys|
  {
    if tys == [] || attrs == [] then Ok(([], kids))
    else if attrs[0].None? then ReadRemotes(f, defs, tys[1..], attrs[1..], kids, fuel)
    else if kids == [] then Err(MissingChild)
    else
      var v :- FromNode(f, defs, kids[0], tys[0], fuel);
      var (vs, rest) :- ReadRemotes(f, defs, tys[1..], attrs[1..], kids[1..], fuel);
      Ok(([v] + vs, rest))
  }

  /** The struct literal: local and remote values back in declaration order. */
  function Merge(attrs: seq<Option<Attr>>, locals: seq<Value>, remotes: seq<Value>): seq<Value>
    decreases |attrs|
  {
    if attrs == [] then []
    else if attrs[0].None? then
      if locals == [] then [] else [locals[0]] + Merge(attrs[1..], locals[1..], remotes)
    else
      if remotes == [] then [] else [remotes[0]] + Merge(attrs[1..], locals, remotes[1..])
  }

  /** `read_from_shard`: one item from the shared cursor and child iterator. Only scalars,
      strings and structs can be items of a chunked vector. */
  function ReadItem(f: File, defs: Defs, ty: Ty, cur: Cursor, fuel: nat): Result<(Value, Cursor)>
    decreases fuel, 0, 0
  {
    if fuel == 0 then Err(StackOverflow)
    else
      match ty
      case TLeaf(k) =>
        var (l, rest) :- DecLeaf(k, cur.bs);
        Ok((VLeaf(l), Cursor(rest, cur.kids)))
      case TStruct(id) =>
        if id >= |defs| then Err(BadFormat)
        else
          var (ls, rest) :- ReadLocals(defs, defs[id].tys, defs[id].attrs, cur.bs, fuel - 1);
          var (rs, kids) :- ReadRemotes(f, defs, defs[id].tys, defs[id].attrs, cur.kids, fuel - 1);
          Ok((VStruct(Merge(defs[id].attrs, ls, rs)), Cursor(rest, kids)))
      case _ => Err(BadFormat)
  }

  // --- Vectors ---

  function ReadItems(f: File, defs: Defs, ty: Ty, count: nat, cur: Cursor, fuel: nat)
    : (r: Result<(seq<Value>, Cursor)>)
    ensures r.Ok? ==> |r.value.0| == count
    decreases fuel, 2, count
  {
    if count == 0 then Ok(([], cur))
    else
      var (v, c0) :- ReadItem(f, defs, ty, cur, fuel);
      var (vs, rest) :- ReadItems(f, defs, ty, count - 1, c0, fuel);
      Ok(([v] + vs, rest))
  }

  /** `read_slice_from_shard`: a length prefix, then that many items. */
  function ReadSlice(f: File, defs: Defs, ty: Ty, cur: Cursor, fuel: nat): Result<seq<Value>>
    decreases fuel, 3, 0
  {
    var (n, rest) :- DecUint(cur.bs, true);
    var (vs, _) :- ReadItems(f, defs, ty, n, Cursor(rest, cur.kids), fuel);
    Ok(vs)
  }

  function Open(f: File, n: ChunkNode): Result<Cursor> {
    var payload :- ReadRaw(f, n);
    var kids :- Children(f, n);
    Ok(Cursor(payload, kids))
  }

  function ReadShard(f: File, defs: Defs, ty: Ty, shard: ChunkNode, fuel: nat): Result<seq<Value>>
    decreases fuel, 4, 0
  {
    var cur :- Open(f, shard);
    ReadSlice(f, defs, ty, cur, fuel)
  }

  /** `decode_shard_into_buffer`: the shard must hold exactly the expected items. */
  function ReadExactly(f: File, defs: Defs, ty: Ty, shard: ChunkNode, expected: nat, fuel: nat): (r: Result<seq<Value>>)
    ensures r.Ok? ==> |r.value| == expected
    decreases fuel, 4, 0
  {
    var cur :- Open(f, shard);
    var (n, rest) :- DecUint(cur.bs, true);
    if n != expected then Err(BadFormat)
    else
      var (vs, _) :- ReadItems(f, defs, ty, n, Cursor(rest, cur.kids), fuel);
      Ok(vs)
  }

  function DecRun(bs: bytes): Result<(ShardRun, bytes)> {
    var (n, r0) :- DecUint(bs, false);
    var (k, rest) :- DecUint(r0, false);
    Ok((ShardRun(n, k), rest))
  }

  function DecRunList(n: nat, bs: bytes): Result<seq<ShardRun>> {
    if n == 0 then Ok([])
    else
      var (run, rest) :- DecRun(bs);
      var runs :- DecRunList(n - 1, rest);
      Ok([run] + runs)
  }

  function DecRuns(bs: bytes): Result<seq<ShardRun>> {
    var (n, rest) :- DecUint(bs, true);
    DecRunList(n, rest)
  }

  /** The run table of a container, behind its eight-byte item count. */
  function ReadRuns(payload: bytes): Result<seq<ShardRun>> {
    if |payload| < 8 then Err(BadFormat) else DecRuns(payload[8..])
  }

  /** Shards `idx` onwards, with the item counts the run table promises, in order. */
  function DecodeShards(f: File, defs: Defs, ty: Ty, n: ChunkNode, idx: nat, lens: seq<nat>, fuel: nat)
    : (r: Result<seq<Value>>)
    ensures r.Ok? ==> |r.value| == Sum(lens)
    decreases fuel, 5, |lens|
  {
    if lens == [] then Ok([])
    else
      var shard :- ChildAt(f, n, idx);
      var vs :- ReadExactly(f, defs, ty, shard, lens[0], fuel);
      var rest :- DecodeShards(f, defs, ty, n, idx + 1, lens[1..], fuel);
      Ok(vs + rest)
  }

  /** `decode_parallel_collection`, as a value: its shards in order. */
  function DecodeCollection(f: File, defs: Defs, ty: Ty, n: ChunkNode, fuel: nat): Result<seq<Value>>
    decreases fuel, 6, 0
  {
    var payload :- ReadRaw(f, n);
    if payload == [] then Ok([])
    else if |payload| < 8 then
      var kids :- Children(f, n);
      ReadSlice(f, defs, ty, Cursor(payload, kids), fuel)
    else
      var runs :- DecRuns(payload[8..]);
      var lens := Expand(runs);
      if Sum(lens) >= U64 || Sum(lens) != FromLE(payload[..8]) then Err(BadFormat)
      else DecodeShards(f, defs, ty, n, 0, lens, fuel)
  }

  // --- Maps ---

  /** Keys, and the value of each. */
  type Pairs = (seq<Leaf>, seq<Value>)

  /** Start of the data of a map shard with `count` entries. */
  function DataStart(count: nat): nat {
    8 + count * 8 + count * 4
  }

  /** The bytes of the `i`-th entry and everything behind it. */
  function EntryData(payload: bytes, count: nat, i: nat): Result<bytes>
    requires i < count && DataStart(count) <= |payload|
  {
    var at := 8 + count * 8 + i * 4;
    var from := DataStart(count) + FromLE(payload[at..at + 4]);
    if from > |payload| then Err(BadFormat) else Ok(payload[from..])
  }

  function ReadEntries(defs: Defs, k: LeafTy, v: Ty, payload: bytes, count: nat, i: nat, fuel: nat)
    : (r: Result<Pairs>)
    requires i <= count && DataStart(count) <= |payload|
    ensures r.Ok? ==> |r.value.0| == |r.value.1| == count - i
    decreases count - i
  {
    if i == count then Ok(([], []))
    else
      var data :- EntryData(payload, count, i);
      var (key, val, _) :- DecPair(defs, k, v, data, fuel);
      var (ks, vs) :- ReadEntries(defs, k, v, payload, count, i + 1, fuel);
      Ok(([key] + ks, [val] + vs))
  }

  function ReadMapShard(defs: Defs, k: LeafTy, v: Ty, payload: bytes, fuel: nat): (r: Result<Pairs>)
    ensures r.Ok? ==> |r.value.0| == |r.value.1|
  {
    if |payload| < 8 then Ok(([], []))
    else
      var count := FromLE(payload[..4]);
      if DataStart(count) > |payload| then Err(BadFormat)
      else ReadEntries(defs, k, v, payload, count, 0, fuel)
  }

  /** The entries of shards `i` onwards, in order. */
  function ReadMapShards(f: File, defs: Defs, k: LeafTy, v: Ty, shards: seq<ChunkNode>, fuel: nat)
    : (r: Result<Pairs>)
    ensures r.Ok? ==> |r.value.0| == |r.value.1|
    decreases |shards|
  {
    if shards == [] then Ok(([], []))
    else
      var payload :- ReadRaw(f, shards[0]);
      var (ks, vs) :- ReadMapShard(defs, k, v, payload, fuel);
      var (ks', vs') :- ReadMapShards(f, defs, k, v, shards[1..], fuel);
      Ok((ks + ks', vs + vs'))
  }

  /** `HashMap::from_node`. */
  function MapFromNode(f: File, defs: Defs, k: LeafTy, v: Ty, n: ChunkNode, fuel: nat): Result<Value>
    requires fuel > 0
  {
    var payload :- ReadRaw(f, n);
    if |payload| < 4 then Ok(VMap(map[]))
    else if n.childCount == 0 then
      var (m, _) :- Dec(defs, TMap(k, v), payload, fuel);
      Ok(m)
    else
      var shards :- Children(f, n);
      var (ks, vs) :- ReadMapShards(f, defs, k, v, shards, fuel - 1);
      Ok(VMap(InsertAll(map[], ks, vs)))
  }

  // --- Any value ---

  /** `from_node`. */
  function FromNode(f: File, defs: Defs, n: ChunkNode, ty: Ty, fuel: nat): Result<Value>
    decreases fuel, 1, 0
  {
    if fuel == 0 then Err(StackOverflow)
    else
      match ty
      case TLeaf(k) =>
        var payload :- ReadRaw(f, n);
        var (l, _) :- DecLeaf(k, payload);
        Ok(VLeaf(l))
      case TStruct(_) =>
        var cur :- Open(f, n);
        var (v, _) :- ReadItem(f, defs, ty, cur, fuel);
        Ok(v)
      case TVec(e) =>
        var vs :- DecodeCollection(f, defs, e, n, fuel - 1);
        Ok(VVec(vs))
      case TMap(k, v) => MapFromNode(f, defs, k, v, n, fuel)
  }

  /** `ParcodeFile::load`. */
  function Load(f: File, defs: Defs, ty: Ty, fuel: nat): Result<Value> {
    var root :- RootNode(f);
    FromNode(f, defs, root, ty, fuel)
  }
}

/** Random access and streaming over a chunked vector. */
module Iteration {
  import opened Wrappers
  import opened Bytes
  import opened Format
  import opened Values
  import opened Bincode
  import opened Sharding
  import opened Jobs
  import opened Trees
  import opened Stored
  import opened Reader
  import opened Loadable
  import opened ReadBack
  import opened Indexing
  import Visitor

  // --- A vector in a file ---

  /** The node `n` of the file holds the vector `items` of type `Vec<e>`. */
  ghost predicate VecStored(f: File, env: Env, defs: Defs, items: seq<Obj>, e: Ty, cid: nat, n: ChunkNode, fuel: nat) {
    && VecTyped(env, defs, items, e, fuel)
    && StoredAt(f, env.hash, n, VecTree(items, Inlined(env, items), ShardLen(env, items), cid))
  }

  /** The part of it that is about the items alone. */
  ghost predicate VecTyped(env: Env, defs: Defs, items: seq<Obj>, e: Ty, fuel: nat) {
    && env.cpus >= 1 && fuel > 0
    && DefsOk(defs) && ItemTy(e) && ItemsOf(defs, items, items, e, fuel) && |items| < U64
  }

  function Lens(env: Env, items: seq<Obj>): seq<nat>
    requires env.cpus >= 1
  {
    ChunkLens(|items|, ShardLen(env, items))
  }

  /** The chunk of one shard, with everything below it. */
  function ShardTree(env: Env, os: seq<Obj>, cid: nat): Tree
    requires env.cpus >= 1
  {
    Tree(VecShardJob(os), cid, Flat(Inlined(env, os)))
  }

  /** The items of shard `k`. */
  function Shard(env: Env, items: seq<Obj>, k: nat): seq<Obj>
    requires env.cpus >= 1 && k < |Lens(env, items)|
    requires Sum(Lens(env, items)[..k]) + Lens(env, items)[k] <= |items|
  {
    items[Sum(Lens(env, items)[..k])..Sum(Lens(env, items)[..k]) + Lens(env, items)[k]]
  }

  function AllShards(env: Env, items: seq<Obj>, cid: nat): (ts: seq<Tree>)
    requires env.cpus >= 1
    ensures |ts| == |Lens(env, items)|
  {
    VecShards(items, Inlined(env, items), ShardLen(env, items), cid)
  }

  lemma {:induction false} VecShardsAt(
    os: seq<Obj>, forests: seq<seq<Tree>>, m: nat, cid: nat, k: nat, from: nat, len: nat)
    requires m >= 1 && |os| == |forests| && k < |ChunkLens(|os|, m)|
    requires from == Sum(ChunkLens(|os|, m)[..k]) && len == ChunkLens(|os|, m)[k]
    ensures from + len <= |os|
    ensures VecShards(os, forests, m, cid)[k] == SliceTree(os[from..from + len], forests[from..from + len], cid)
    decreases k
  {
    if k > 0 {
      var c, j := Min(m, |os|), k - 1;
      LensTail(|os|, m, k);
      var lo := from - c;
      VecShardsTail(os, forests, m, cid, k, c, j);
      VecShardsAt(os[c..], forests[c..], m, cid, j, lo, len);
      SliceOfTail(os, c, from, len, lo);
      SliceOfTail(forests, c, from, len, lo);
    } else {
      VecShardsHead(os, forests, m, cid);
    }
  }

  function SliceTree(os: seq<Obj>, forests: seq<seq<Tree>>, cid: nat): Tree {
    Tree(VecShardJob(os), cid, Flat(forests))
  }

  lemma InlinedSlice(env: Env, os: seq<Obj>, from: nat, len: nat)
    requires env.cpus >= 1 && from + len <= |os|
    ensures Inlined(env, os)[from..from + len] == Inlined(env, os[from..from + len])
  {
    Visitor.InlinedSplit(env, os, from + len);
    Visitor.InlinedSplit(env, os[..from + len], from);
    SliceTwice(os, from, from + len);
    SliceTwice(Inlined(env, os), from, from + len);
  }

  lemma SliceTwice<T>(s: seq<T>, lo: nat, hi: nat)
    requires lo <= hi <= |s|
    ensures s[..hi][lo..] == s[lo..hi]
  {
  }

  lemma VecShardsTail(os: seq<Obj>, forests: seq<seq<Tree>>, m: nat, cid: nat, k: nat, c: nat, j: nat)
    requires m >= 1 && |os| == |forests| && k < |ChunkLens(|os|, m)| && c == Min(m, |os|) && k == j + 1
    ensures j < |ChunkLens(|os| - c, m)|
    ensures VecShards(os, forests, m, cid)[k] == VecShards(os[c..], forests[c..], m, cid)[j]
  {
  }

  lemma VecShardsHead(os: seq<Obj>, forests: seq<seq<Tree>>, m: nat, cid: nat)
    requires m >= 1 && |os| == |forests| && 0 < |ChunkLens(|os|, m)|
    ensures ChunkLens(|os|, m)[0] == Min(m, |os|) && Sum(ChunkLens(|os|, m)[..0]) == 0
    ensures VecShards(os, forests, m, cid)[0]
         == SliceTree(os[0..Min(m, |os|)], forests[0..Min(m, |os|)], cid)
  {
  }

  lemma SliceOfTail<T>(os: seq<T>, c: nat, from: nat, len: nat, lo: nat)
    requires from == c + lo && from + len <= |os|
    ensures os[c..][lo..lo + len] == os[from..from + len]
  {
  }

  lemma LensTail(total: nat, m: nat, k: nat)
    requires m >= 1 && 0 < k <= |ChunkLens(total, m)|
    ensures ChunkLens(total, m)[1..] == ChunkLens(total - Min(m, total), m)
    ensures k - 1 <= |ChunkLens(total - Min(m, total), m)|
    ensures Sum(ChunkLens(total, m)[..k]) == Min(m, total) + Sum(ChunkLens(total - Min(m, total), m)[..k - 1])
  {
    assert ChunkLens(total, m)[..k][1..] == ChunkLens(total - Min(m, total), m)[..k - 1];
  }

  lemma ShardIsTree(env: Env, items: seq<Obj>, cid: nat, k: nat)
    requires env.cpus >= 1 && k < |Lens(env, items)|
    ensures Sum(Lens(env, items)[..k]) + Lens(env, items)[k] <= |items|
    ensures AllShards(env, items, cid)[k] == ShardTree(env, Shard(env, items, k), cid)
  {
    var from, len := Sum(Lens(env, items)[..k]), Lens(env, items)[k];
    VecShardsAt(items, Inlined(env, items), ShardLen(env, items), cid, k, from, len);
    InlinedSlice(env, items, from, len);
  }

  /** Shard `k` is the `k`-th child, and reads back if its items load. */
  lemma ShardStored(f: File, env: Env, defs: Defs, items: seq<Obj>, e: Ty, cid: nat, n: ChunkNode, fuel: nat, k: nat)
    requires VecStored(f, env, defs, items, e, cid, n, fuel) && k < |Lens(env, items)|
    ensures n.childCount == |Lens(env, items)|
    ensures Sum(Lens(env, items)[..k]) + Lens(env, items)[k] <= |items|
    ensures ItemsOf(defs, Shard(env, items, k), items, e, fuel)
    ensures ChildAt(f, n, k).Ok?
    ensures StoredAt(f, env.hash, ChildAt(f, n, k).value, ShardTree(env, Shard(env, items, k), cid))
  {
    ShardIsTree(env, items, cid, k);
    StoredKid(f, env.hash, n, VecTree(items, Inlined(env, items), ShardLen(env, items), cid), k);
  }

  lemma StoredKid(f: File, h: Hash, n: ChunkNode, t: Tree, k: nat)
    requires StoredAt(f, h, n, t) && k < |t.children|
    ensures n.childCount == |t.children|
    ensures ChildAt(f, n, k).Ok? && StoredAt(f, h, ChildAt(f, n, k).value, t.children[k])
  {
  }

  lemma ShardReads(f: File, env: Env, defs: Defs, items: seq<Obj>, e: Ty, cid: nat, n: ChunkNode, fuel: nat, k: nat)
    requires VecStored(f, env, defs, items, e, cid, n, fuel) && k < |Lens(env, items)|
    ensures ChildAt(f, n, k).Ok?
    ensures Sum(Lens(env, items)[..k]) + Lens(env, items)[k] <= |items|
    ensures AllItemsLoad(Shard(env, items, k)) ==>
              ReadShard(f, defs, e, ChildAt(f, n, k).value, fuel) == Ok(ValuesOf(Shard(env, items, k)))
  {
    ShardStored(f, env, defs, items, e, cid, n, fuel, k);
    SliceBack(f, env, defs, e, items, Shard(env, items, k), ChildAt(f, n, k).value, cid, fuel);
  }

  /** The figures of a stored vector: every shard but the last has the length that the sample
      and the machine prescribe, the last one has the rest, and is not empty. */
  lemma ShardsExact(
    f: File, env: Env, defs: Defs, items: seq<Obj>, e: Ty, cid: nat, n: ChunkNode, fuel: nat,
    avg: nat, candidate: nat, len: nat, last: nat, k: nat)
    requires VecStored(f, env, defs, items, e, cid, n, fuel) && items != []
    requires IsAverage(avg, |Enc(OVec(if |items| < 8 then items else items[..8]))|, |items|)
    requires IsCandidate(candidate, avg, |items|, env.cpus)
    requires if candidate * avg >= 4096 then len == candidate else IsFloor(len, avg)
    requires n.childCount == last + 1 && k <= last
    ensures last * len < |items| <= last * len + len
    ensures ShardHolds(f, n, k, if k < last then len else |items| - last * len)
  {
    ShardLenExact(env, items, avg, candidate, len);
    ContainerStored(f, env, defs, items, e, cid, n, fuel);
    ChunkLensExact(|items|, ShardLen(env, items), last);
    LengthStored(f, env, defs, items, e, cid, n, fuel, k);
  }

  /** The `k`-th child of `n` promises `count` items. */
  ghost predicate ShardHolds(f: File, n: ChunkNode, k: nat, count: nat) {
    && ChildAt(f, n, k).Ok? && Open(f, ChildAt(f, n, k).value).Ok?
    && var promised := DecUint(Open(f, ChildAt(f, n, k).value).value.bs, true);
       promised.Ok? && promised.value.0 == count
  }

  lemma LengthStored(f: File, env: Env, defs: Defs, items: seq<Obj>, e: Ty, cid: nat, n: ChunkNode, fuel: nat, k: nat)
    requires VecStored(f, env, defs, items, e, cid, n, fuel) && k < |Lens(env, items)|
    ensures ShardHolds(f, n, k, Lens(env, items)[k])
  {
    ShardStored(f, env, defs, items, e, cid, n, fuel, k);
    var os := Shard(env, items, k);
    ShardPrefix(f, env.hash, os, ChildAt(f, n, k).value, cid, Flat(Inlined(env, os)));
  }

  /** The container's payload. */
  lemma ContainerStored(f: File, env: Env, defs: Defs, items: seq<Obj>, e: Ty, cid: nat, n: ChunkNode, fuel: nat)
    requires VecStored(f, env, defs, items, e, cid, n, fuel)
    ensures ReadRaw(f, n).Ok? && |ReadRaw(f, n).value| > 8 && FromLE(ReadRaw(f, n).value[..8]) == |items|
    ensures ReadRuns(ReadRaw(f, n).value).Ok? && Expand(ReadRuns(ReadRaw(f, n).value).value) == Lens(env, items)
    ensures Sum(Lens(env, items)) == |items| && n.childCount == |Lens(env, items)|
  {
    ShardLenSmall(env, items);
    HeaderBack(|items|, ShardLen(env, items));
  }

  // --- Length ---

  /** `ChunkNode::len`, 0 for anything that is not a container. */
  function Len(f: File, n: ChunkNode): nat {
    match ReadRaw(f, n)
    case Ok(p) => if |p| >= 8 then FromLE(p[..8]) else 0
    case Err(_) => 0
  }

  lemma LenStored(f: File, env: Env, defs: Defs, items: seq<Obj>, e: Ty, cid: nat, n: ChunkNode, fuel: nat)
    requires VecStored(f, env, defs, items, e, cid, n, fuel)
    ensures Len(f, n) == |items|
  {
    ContainerStored(f, env, defs, items, e, cid, n, fuel);
  }

  // --- Random access ---

  /** The shard and local index of an item. */
  function ShardOf(f: File, n: ChunkNode, index: nat): Result<(nat, nat)> {
    var payload :- ReadRaw(f, n);
    var runs :- ReadRuns(payload);
    match Locate(Expand(runs), index)
    case Some(found) => Ok(found)
    case None => Err(BadFormat)
  }

  /** Where 64-bit index arithmetic overflows: the table counts more than a `u64` can. */
  ghost predicate TableOverflows(f: File, n: ChunkNode) {
    ReadRaw(f, n).Ok? && ReadRuns(ReadRaw(f, n).value).Ok? && Sum(Expand(ReadRuns(ReadRaw(f, n).value).value)) >= U64
  }

  method FindShard(f: File, n: ChunkNode, index: nat) returns (r: Result<(nat, nat)>)
    ensures r == ShardOf(f, n, index) || (r == Err(Overflow) && TableOverflows(f, n))
  {
    var payload := ReadRaw(f, n);
    if payload.Err? {
      return Err(payload.error);
    }
    if |payload.value| < 8 {
      return Err(BadFormat);
    }
    var runs := DecRuns(payload.value[8..]);
    if runs.Err? {
      return Err(runs.error);
    }
    r := ResolveRleIndex(runs.value, index);
  }

  function GetItem(f: File, defs: Defs, e: Ty, n: ChunkNode, index: nat, fuel: nat): Result<Value> {
    var (k, local) :- ShardOf(f, n, index);
    var shard :- ChildAt(f, n, k);
    var items :- ReadShard(f, defs, e, shard, fuel);
    if local < |items| then Ok(items[local]) else Err(BadFormat)
  }

  /** `ChunkNode::get`. */
  method Get(f: File, defs: Defs, e: Ty, n: ChunkNode, index: nat, fuel: nat) returns (r: Result<Value>)
    ensures r == GetItem(f, defs, e, n, index, fuel) || (r == Err(Overflow) && TableOverflows(f, n))
  {
    var found := FindShard(f, n, index);
    if found.Err? {
      return Err(found.error);
    }
    var shard := ChildAt(f, n, found.value.0);
    if shard.Err? {
      return Err(shard.error);
    }
    var items := ReadShard(f, defs, e, shard.value, fuel);
    if items.Err? {
      return Err(items.error);
    }
    return if found.value.1 < |items.value| then Ok(items.value[found.value.1]) else Err(BadFormat);
  }

  lemma ShardInside(env: Env, items: seq<Obj>, k: nat)
    requires env.cpus >= 1 && k < |Lens(env, items)|
    ensures Sum(Lens(env, items)) == |items|
    ensures Sum(Lens(env, items)[..k]) + Lens(env, items)[k] <= |items|
  {
    var lens := Lens(env, items);
    ChunkLensSum(|items|, ShardLen(env, items));
    SumPrefix(lens, k, |lens|);
    assert lens[..|lens|] == lens;
  }

  /** The items of the shard that holds item `index`. */
  function ShardWith(env: Env, items: seq<Obj>, index: nat): seq<Obj>
    requires env.cpus >= 1 && index < |items|
  {
    ChunkLensSum(|items|, ShardLen(env, items));
    var (k, _) := Locate(Lens(env, items), index).value;
    ShardInside(env, items, k);
    Shard(env, items, k)
  }

  /** `get` of an item of shard `k` is the shard's own reading of it, errors included. */
  lemma GetInShard(
    f: File, env: Env, defs: Defs, items: seq<Obj>, e: Ty, cid: nat,
    n: ChunkNode, fuel: nat, k: nat, local: nat, index: nat)
    requires VecStored(f, env, defs, items, e, cid, n, fuel)
    requires k < |Lens(env, items)| && local < Lens(env, items)[k] && Sum(Lens(env, items)[..k]) + local == index
    ensures index < |items| && ChildAt(f, n, k).Ok?
    ensures var r := ReadShard(f, defs, e, ChildAt(f, n, k).value, fuel);
      && (r.Ok? ==> |r.value| == Lens(env, items)[k] && GetItem(f, defs, e, n, index, fuel) == Ok(r.value[local]))
      && (r.Err? ==> GetItem(f, defs, e, n, index, fuel) == Err(r.error))
  {
    ContainerStored(f, env, defs, items, e, cid, n, fuel);
    LocateUnique(Lens(env, items), index, k, local);
    ShardStored(f, env, defs, items, e, cid, n, fuel, k);
    ShardLength(f, env, defs, e, Shard(env, items, k), ChildAt(f, n, k).value, cid, fuel);
  }

  lemma ShardLength(f: File, env: Env, defs: Defs, e: Ty, os: seq<Obj>, shard: ChunkNode, cid: nat, fuel: nat)
    requires env.cpus >= 1 && |os| < U64
    requires StoredAt(f, env.hash, shard, ShardTree(env, os, cid))
    ensures ReadShard(f, defs, e, shard, fuel).Ok? ==> |ReadShard(f, defs, e, shard, fuel).value| == |os|
  {
    ShardPrefix(f, env.hash, os, shard, cid, Flat(Inlined(env, os)));
    SliceLength(f, defs, e, Open(f, shard).value, |os|, fuel);
  }

  lemma ShardPrefix(f: File, h: Hash, os: seq<Obj>, shard: ChunkNode, cid: nat, ts: seq<Tree>)
    requires |os| < U64 && StoredAt(f, h, shard, Tree(VecShardJob(os), cid, ts))
    ensures Open(f, shard).Ok? && DecUint(Open(f, shard).value.bs, true) == Ok((|os|, ShallowAll(os)))
  {
    OpenRead(f, h, shard, Tree(VecShardJob(os), cid, ts));
    DecUintRoundTrip(|os|, ShallowAll(os), true);
  }

  lemma SliceLength(f: File, defs: Defs, e: Ty, cur: Cursor, count: nat, fuel: nat)
    requires DecUint(cur.bs, true).Ok? && DecUint(cur.bs, true).value.0 == count
    ensures ReadSlice(f, defs, e, cur, fuel).Ok? ==> |ReadSlice(f, defs, e, cur, fuel).value| == count
  {
  }

  /** On a stored vector `get(i)` is an error for every index past the end, whatever the
      items, and the `i`-th element if the items in the shard of `i` load. */
  lemma GetStored(f: File, env: Env, defs: Defs, items: seq<Obj>, e: Ty, cid: nat, n: ChunkNode, index: nat, fuel: nat)
    requires VecStored(f, env, defs, items, e, cid, n, fuel)
    ensures !TableOverflows(f, n)
    ensures index >= |items| ==> GetItem(f, defs, e, n, index, fuel) == Err(BadFormat)
    ensures index < |items| && AllItemsLoad(ShardWith(env, items, index)) ==>
              GetItem(f, defs, e, n, index, fuel) == Ok(ValueOf(items[index]))
  {
    ContainerStored(f, env, defs, items, e, cid, n, fuel);
    if index < |items| {
      var (k, local) := Locate(Lens(env, items), index).value;
      ShardReads(f, env, defs, items, e, cid, n, fuel, k);
      ShardItem(env, items, k, local, index);
      GetInShard(f, env, defs, items, e, cid, n, fuel, k, local, index);
      EncodingBounds.ValuesAt(Shard(env, items, k), local);
    }
  }

  /** If all items load, so do those of every shard. */
  lemma ShardWithLoads(env: Env, items: seq<Obj>, index: nat)
    requires env.cpus >= 1 && index < |items| && AllItemsLoad(items)
    ensures AllItemsLoad(ShardWith(env, items, index))
  {
    ChunkLensSum(|items|, ShardLen(env, items));
    var (k, local) := Locate(Lens(env, items), index).value;
    ShardInside(env, items, k);
    ShardItem(env, items, k, local, index);
  }

  lemma ShardItem(env: Env, items: seq<Obj>, k: nat, local: nat, index: nat)
    requires env.cpus >= 1 && k < |Lens(env, items)| && local < Lens(env, items)[k]
    requires Sum(Lens(env, items)[..k]) + Lens(env, items)[k] <= |items|
    requires Sum(Lens(env, items)[..k]) + local == index
    ensures local < |Shard(env, items, k)| && Shard(env, items, k)[local] == items[index]
    ensures AllItemsLoad(items) ==> AllItemsLoad(Shard(env, items, k))
  {
  }

  // --- Streaming ---

  class ChunkIterator {
    const f: File
    const defs: Defs
    const elem: Ty
    const container: ChunkNode
    const fuel: nat
    const totalItems: nat
    var currentGlobalIdx: nat
    var currentShardIdx: nat
    /** What is left of the shard that is loaded. */
    var currentItems: seq<Value>
    ghost const env: Env
    ghost const items: seq<Obj>
    ghost const cid: nat

    constructor (
      f: File, defs: Defs, elem: Ty, container: ChunkNode, fuel: nat, total: nat,
      ghost env: Env, ghost items: seq<Obj>, ghost cid: nat)
      ensures this.f == f && this.defs == defs && this.elem == elem && this.container == container && this.fuel == fuel
      ensures totalItems == total && this.env == env && this.items == items && this.cid == cid
      ensures currentGlobalIdx == 0 && currentShardIdx == 0 && currentItems == []
    {
      this.f, this.defs, this.elem, this.container, this.fuel := f, defs, elem, container, fuel;
      totalItems := total;
      currentGlobalIdx, currentShardIdx, currentItems := 0, 0, [];
      this.env, this.items, this.cid := env, items, cid;
    }

    /** What `get` answers for every index. */
    ghost function Gets(): seq<Result<Value>> {
      seq(totalItems, i requires 0 <= i < totalItems => GetItem(f, defs, elem, container, i, fuel))
    }

    /** The iterator was made for a stored vector, all or only some of whose items load. */
    ghost predicate OverVector() {
      VecStored(f, env, defs, items, elem, cid, container, fuel) && totalItems == |items|
    }

    ghost predicate Streams()
      reads this
    {
      && OverVector()
      && InStep(Gets(), Lens(env, items), currentGlobalIdx, currentShardIdx, currentItems)
    }

    /** `next`. On a stored vector it answers what `get` answers for the next index, and ends
        at the end. It advances past every item it yields, and stays at an item whose shard
        cannot be read. */
    method Next() returns (r: Option<Result<Value>>)
      modifies this
      ensures old(Streams()) ==> Streams()
      ensures old(Streams()) && old(currentGlobalIdx) < |items| ==>
                && r == Some(GetItem(f, defs, elem, container, old(currentGlobalIdx), fuel))
                && currentGlobalIdx == old(currentGlobalIdx) + if r.value.Ok? then 1 else 0
      ensures old(Streams()) && old(currentGlobalIdx) >= |items|
        ==> r == None && currentGlobalIdx == old(currentGlobalIdx)
      decreases container.childCount - currentShardIdx
    {
      if currentGlobalIdx >= totalItems {
        return None;
      }
      if currentItems != [] {
        var item := TakeItem();
        return Some(Ok(item));
      }
      var loaded := LoadShard();
      if loaded.Err? {
        return Some(Err(loaded.error));
      }
      r := Next();
    }

    /** Yields the first item of the buffer. */
    method TakeItem() returns (item: Value)
      requires currentItems != []
      modifies this`currentItems, this`currentGlobalIdx
      ensures currentGlobalIdx == old(currentGlobalIdx) + 1
      ensures old(Streams()) ==> Streams() && Gets()[old(currentGlobalIdx)] == Ok(item)
    {
      if Streams() {
        TakeOne(Gets(), Lens(env, items), currentGlobalIdx, currentShardIdx, currentItems);
      }
      item := currentItems[0];
      currentItems := currentItems[1..];
      currentGlobalIdx := currentGlobalIdx + 1;
    }

    /** Loads the next shard into the empty buffer. */
    method LoadShard() returns (r: Result<()>)
      requires currentItems == []
      modifies this`currentItems, this`currentShardIdx
      ensures r.Ok? ==> currentShardIdx == old(currentShardIdx) + 1 && currentShardIdx <= container.childCount
      ensures r.Err? ==> currentItems == [] && currentShardIdx == old(currentShardIdx)
      ensures old(Streams()) && currentGlobalIdx < totalItems ==> Streams()
      ensures old(Streams()) && currentGlobalIdx < totalItems && r.Ok? ==> currentItems != []
      ensures old(Streams()) && currentGlobalIdx < totalItems && r.Err? ==> Gets()[currentGlobalIdx] == Err(r.error)
    {
      if Streams() && currentGlobalIdx < totalItems {
        NextShard(f, env, defs, items, elem, cid, container, fuel, currentGlobalIdx,
          currentShardIdx, Lens(env, items), Gets());
      }
      if currentShardIdx >= container.childCount {
        return Err(BadFormat);
      }
      var shard := ChildAt(f, container, currentShardIdx);
      if shard.Err? {
        return Err(shard.error);
      }
      var loaded := ReadShard(f, defs, elem, shard.value, fuel);
      if loaded.Err? {
        return Err(loaded.error);
      }
      currentItems := loaded.value;
      currentShardIdx := currentShardIdx + 1;
      return Ok(());
    }
  }

  /** `ChunkNode::iter`. */
  method Iter(
    f: File, defs: Defs, e: Ty, n: ChunkNode, fuel: nat, ghost env: Env, ghost items: seq<Obj>, ghost cid: nat)
    returns (r: Result<ChunkIterator>)
    ensures r.Ok? ==> fresh(r.value) && r.value.currentGlobalIdx == 0 && r.value.items == items
    ensures r.Ok? ==>
              && r.value.f == f && r.value.defs == defs && r.value.elem == e
              && r.value.container == n && r.value.fuel == fuel
              && r.value.env == env && r.value.cid == cid
    ensures VecStored(f, env, defs, items, e, cid, n, fuel) ==> r.Ok? && r.value.Streams()
  {
    if VecStored(f, env, defs, items, e, cid, n, fuel) {
      ContainerStored(f, env, defs, items, e, cid, n, fuel);
    }
    var payload := ReadRaw(f, n);
    if payload.Err? {
      return Err(payload.error);
    }
    var total := 0;
    if payload.value != [] || n.childCount != 0 {
      if |payload.value| < 8 {
        return Err(BadFormat);
      }
      total := FromLE(payload.value[..8]);
      var runs := DecRuns(payload.value[8..]);
      if runs.Err? {
        return Err(runs.error);
      }
    }
    var it := new ChunkIterator(f, defs, e, n, fuel, total, env, items, cid);
    return Ok(it);
  }

  /** Draining the iterator of a stored vector gives what `get` gives, index by index, up to
      the first item that `get` cannot give. So it stops only in a shard that does not load,
      after the elements of all shards in front of it; and it gives the vector, if its items
      load. */
  method Drain(it: ChunkIterator) returns (vs: seq<Value>, stop: Option<Error>)
    requires it.Streams() && it.currentGlobalIdx == 0
    modifies it
    ensures Prefix(it.Gets(), vs)
    ensures stop.None? ==> |vs| == |it.items|
    ensures stop.Some? ==> |vs| < |it.items| && it.Gets()[|vs|] == Err(stop.value)
    ensures RightWhereLoaded(it.env, it.items, vs)
    ensures stop.Some? ==> !AllItemsLoad(ShardWith(it.env, it.items, |vs|))
    ensures AllItemsLoad(it.items) ==> vs == ValuesOf(it.items) && stop.None?
  {
    vs, stop := [], None;
    while true
      invariant it.Streams() && it.currentGlobalIdx == |vs| <= |it.items| == it.totalItems
      invariant Prefix(it.Gets(), vs)
      decreases |it.items| - |vs|
    {
      var next := it.Next();
      if next.None? {
        break;
      }
      if next.value.Err? {
        stop := Some(next.value.error);
        break;
      }
      OneMore(it.Gets(), vs, next.value.value);
      vs := vs + [next.value.value];
    }
    ShardsGot(it.f, it.env, it.defs, it.items, it.elem, it.cid, it.container, it.fuel, it.Gets());
    PrefixRight(it.env, it.items, it.Gets(), vs);
    if AllItemsLoad(it.items) {
      AllGot(it.env, it.items, it.Gets());
      SameValues(it.items, it.Gets(), vs);
    }
  }

  /** The first answers are these values. */
  ghost predicate Prefix(gets: seq<Result<Value>>, vs: seq<Value>) {
    |vs| <= |gets| && forall j :: 0 <= j < |vs| ==> gets[j] == Ok(vs[j])
  }

  lemma OneMore(gets: seq<Result<Value>>, vs: seq<Value>, v: Value)
    requires |vs| < |gets| && Prefix(gets, vs) && gets[|vs|] == Ok(v)
    ensures Prefix(gets, vs + [v])
  {
  }

  /** `get` is right about every item whose shard loads. */
  ghost predicate GotRight(env: Env, items: seq<Obj>, gets: seq<Result<Value>>)
    requires env.cpus >= 1
  {
    |gets| == |items| && forall i :: 0 <= i < |items| ==> GotItem(env, items, gets, i)
  }

  ghost predicate GotItem(env: Env, items: seq<Obj>, gets: seq<Result<Value>>, i: nat)
    requires env.cpus >= 1 && i < |items| == |gets|
  {
    AllItemsLoad(ShardWith(env, items, i)) ==> gets[i] == Ok(ValueOf(items[i]))
  }

  /** The values are the elements, wherever the shard of the element loads. */
  ghost predicate RightWhereLoaded(env: Env, items: seq<Obj>, vs: seq<Value>)
    requires env.cpus >= 1
  {
    && |vs| <= |items|
    && forall i :: 0 <= i < |vs| ==> (AllItemsLoad(ShardWith(env, items, i)) ==> vs[i] == ValueOf(items[i]))
  }

  lemma ShardsGot(
    f: File, env: Env, defs: Defs, items: seq<Obj>, e: Ty, cid: nat, n: ChunkNode, fuel: nat,
    gets: seq<Result<Value>>)
    requires VecStored(f, env, defs, items, e, cid, n, fuel) && |gets| == |items|
    requires forall i :: 0 <= i < |items| ==> gets[i] == GetItem(f, defs, e, n, i, fuel)
    ensures GotRight(env, items, gets)
  {
    forall i | 0 <= i < |items|
      ensures GotItem(env, items, gets, i)
    {
      GetStored(f, env, defs, items, e, cid, n, i, fuel);
    }
  }

  lemma PrefixRight(env: Env, items: seq<Obj>, gets: seq<Result<Value>>, vs: seq<Value>)
    requires env.cpus >= 1 && GotRight(env, items, gets) && Prefix(gets, vs)
    ensures RightWhereLoaded(env, items, vs)
    ensures |vs| < |items| && gets[|vs|].Err? ==> !AllItemsLoad(ShardWith(env, items, |vs|))
  {
    forall i | 0 <= i < |vs|
      ensures AllItemsLoad(ShardWith(env, items, i)) ==> vs[i] == ValueOf(items[i])
    {
      assert GotItem(env, items, gets, i);
    }
    if |vs| < |items| {
      assert GotItem(env, items, gets, |vs|);
    }
  }

  lemma AllGot(env: Env, items: seq<Obj>, gets: seq<Result<Value>>)
    requires env.cpus >= 1 && GotRight(env, items, gets) && AllItemsLoad(items)
    ensures forall i :: 0 <= i < |items| ==> gets[i] == Ok(ValueOf(items[i]))
  {
    forall i | 0 <= i < |items|
      ensures gets[i] == Ok(ValueOf(items[i]))
    {
      assert GotItem(env, items, gets, i);
      ShardWithLoads(env, items, i);
    }
  }

  lemma SameValues(items: seq<Obj>, gets: seq<Result<Value>>, vs: seq<Value>)
    requires Prefix(gets, vs) && |gets| == |items| && forall i :: 0 <= i < |items| ==> gets[i] == Ok(ValueOf(items[i]))
    ensures |vs| == |items| ==> vs == ValuesOf(items)
  {
    if |vs| == |items| {
      forall j | 0 <= j < |items|
        ensures ValuesOf(items)[j] == vs[j]
      {
        EncodingBounds.ValuesAt(items, j);
      }
    }
  }

  /** What has been loaded but not yielded, `buffer`, answers the next indices, and shards up
      to `k` have been loaded. */
  ghost predicate InStep(gets: seq<Result<Value>>, lens: seq<nat>, at: nat, k: nat, buffer: seq<Value>) {
    && k <= |lens|
    && at + |buffer| == Sum(lens[..k]) <= |gets|
    && forall j :: 0 <= j < |buffer| ==> gets[at + j] == Ok(buffer[j])
  }

  lemma TakeOne(gets: seq<Result<Value>>, lens: seq<nat>, at: nat, k: nat, buffer: seq<Value>)
    requires InStep(gets, lens, at, k, buffer) && buffer != []
    ensures gets[at] == Ok(buffer[0]) && InStep(gets, lens, at + 1, k, buffer[1..])
  {
    assert gets[at + 0] == Ok(buffer[0]);
    forall j | 0 <= j < |buffer[1..]|
      ensures gets[at + 1 + j] == Ok(buffer[1..][j])
    {
      assert gets[at + (j + 1)] == Ok(buffer[j + 1]);
    }
  }

  /** With items still to come, the next shard is there and is not empty; it continues the
      vector, or its error is what `get` answers for the next index. */
  lemma NextShard(
    f: File, env: Env, defs: Defs, items: seq<Obj>, e: Ty, cid: nat, n: ChunkNode, fuel: nat, at: nat, k: nat,
    lens: seq<nat>, gets: seq<Result<Value>>)
    requires VecStored(f, env, defs, items, e, cid, n, fuel) && lens == Lens(env, items) && |gets| == |items|
    requires forall i :: 0 <= i < |gets| ==> gets[i] == GetItem(f, defs, e, n, i, fuel)
    requires InStep(gets, lens, at, k, []) && at < |items|
    ensures k < n.childCount && ChildAt(f, n, k).Ok?
    ensures var r := ReadShard(f, defs, e, ChildAt(f, n, k).value, fuel);
      && (r.Ok? ==> r.value != [] && InStep(gets, lens, at, k + 1, r.value))
      && (r.Err? ==> gets[at] == Err(r.error))
  {
    ContainerStored(f, env, defs, items, e, cid, n, fuel);
    NextLength(lens, |items|, at, k);
    ChunkLensSum(|items|, ShardLen(env, items));
    GetInShard(f, env, defs, items, e, cid, n, fuel, k, 0, at);
    var r := ReadShard(f, defs, e, ChildAt(f, n, k).value, fuel);
    if r.Ok? {
      forall j | 0 <= j < |r.value|
        ensures gets[at + j] == Ok(r.value[j])
      {
        GetInShard(f, env, defs, items, e, cid, n, fuel, k, j, at + j);
      }
    }
  }

  lemma NextLength(lens: seq<nat>, total: nat, at: nat, k: nat)
    requires k <= |lens| && at == Sum(lens[..k]) < total == Sum(lens)
    ensures k < |lens| && Sum(lens[..k + 1]) == at + lens[k] <= total
  {
    assert lens[..|lens|] == lens;
    SumNext(lens, k);
    SumPrefix(lens, k, |lens|);
  }
}

/** The tree of chunks that an object becomes. */
module Trees {
  import opened Wrappers
  import opened Bytes
  import opened Values
  import opened Bincode
  import opened Sharding
  import opened Jobs

  /** A node of the tree: what it writes, the compressor it asks for, its children. */
  datatype Tree = Tree(job: Job, cid: nat, children: seq<Tree>)

  /** Properties of the machine that the layout depends on. */
  datatype Env = Env(cpus: nat, hash: Hash)

  const TARGET_ITEMS_PER_BUCKET: nat := 2000
  const MAX_BUCKETS: nat := 1024

  function NumShards(entries: nat): (n: nat)
    ensures entries > 0 ==> 1 <= n <= MAX_BUCKETS
  {
    if entries == 0 then 0 else Max(1, Min(entries / TARGET_ITEMS_PER_BUCKET, MAX_BUCKETS))
  }

  /** The number of buckets in figures: none for an empty map, one for each full 2000 entries,
      but at least one and at most 1024. */
  lemma NumShardsExact(entries: nat, n: nat)
    ensures entries == 0 ==> NumShards(entries) == 0
    ensures 0 < entries < 4000 ==> NumShards(entries) == 1
    ensures 1 < n < 1024 ==> (NumShards(entries) == n <==> n * 2000 <= entries < (n + 1) * 2000)
    ensures NumShards(entries) >= 1024 <==> entries >= 2048000
    ensures entries >= 2048000 ==> NumShards(entries) == 1024
  {
  }

  /** The elements of `xs` whose key falls in bucket `b`, in order. */
  function Pick<T>(h: Hash, n: nat, b: nat, ks: seq<Leaf>, xs: seq<T>): (r: seq<T>)
    requires n > 0 && |ks| == |xs|
  {
    if ks == [] then []
    else (if h(ks[0]) % n == b then [xs[0]] else []) + Pick(h, n, b, ks[1..], xs[1..])
  }

  lemma {:induction false} PickLength<S, T>(h: Hash, n: nat, b: nat, ks: seq<Leaf>, xs: seq<S>, ys: seq<T>)
    requires n > 0 && |ks| == |xs| == |ys|
    ensures |Pick(h, n, b, ks, xs)| == |Pick(h, n, b, ks, ys)|
  {
    if ks != [] {
      PickLength(h, n, b, ks[1..], xs[1..], ys[1..]);
    }
  }

  function ShardLen(env: Env, items: seq<Obj>): (n: nat)
    requires env.cpus >= 1
    ensures n >= 1
  {
    var sample := items[..Min(|items|, 8)];
    ItemsPerShard(|items|, |EncUint(|sample|) + EncAll(sample)|, env.cpus)
  }

  /** The sample is the encoding of the first eight items as a vector, remote fields included. */
  lemma ShardLenExact(env: Env, items: seq<Obj>, avg: nat, candidate: nat, n: nat)
    requires env.cpus >= 1 && items != []
    requires IsAverage(avg, |Enc(OVec(if |items| < 8 then items else items[..8]))|, |items|)
    requires IsCandidate(candidate, avg, |items|, env.cpus)
    ensures n == ShardLen(env, items) <==> if candidate * avg >= 4096 then n == candidate else IsFloor(n, avg)
  {
    assert items[..|items|] == items;
    var sample := items[..Min(|items|, 8)];
    ShardSizeExact(|items|, |EncUint(|sample|) + EncAll(sample)|, env.cpus, avg, candidate, n);
  }

  /** What `visit` builds for `o` under the attribute `at` of the field that holds it. */
  function TreeOf(env: Env, o: Obj, at: Attr): Tree
    requires env.cpus >= 1
    decreases o
  {
    match o
    case OLeaf(_) => Tree(PrimitiveJob(o), at.cid, [])
    case OStruct(fs, attrs) => Tree(StructJob(fs, attrs), at.cid, RemoteTrees(env, fs, attrs))
    case OVec(items) => VecTree(items, Inlined(env, items), ShardLen(env, items), at.cid)
    case OMap(ks, vs) =>
      if at.isMap && |ks| == |vs| then MapTree(env.hash, ks, vs, Inlined(env, vs), at.cid)
      else if |ks| != 0 then Tree(PrimitiveJob(o), at.cid, [])
      else Tree(MapContainerJob(0), 0, [])
  }

  /** One child for each remote field, in declaration order. */
  function RemoteTrees(env: Env, fs: seq<Obj>, attrs: seq<Option<Attr>>): seq<Tree>
    requires env.cpus >= 1
    decreases fs
  {
    if fs == [] || attrs == [] then []
    else (if attrs[0].Some? then [TreeOf(env, fs[0], attrs[0].value)] else []) + RemoteTrees(env, fs[1..], attrs[1..])
  }

  /** `visit_inlined`: the children an item contributes to the shard that holds it. */
  function InlinedTrees(env: Env, o: Obj): seq<Tree>
    requires env.cpus >= 1
    decreases o
  {
    match o
    case OStruct(fs, attrs) => RemoteTrees(env, fs, attrs)
    case _ => []
  }

  function Inlined(env: Env, os: seq<Obj>): (r: seq<seq<Tree>>)
    requires env.cpus >= 1
    ensures |r| == |os|
    decreases os
  {
    if os == [] then [] else [InlinedTrees(env, os[0])] + Inlined(env, os[1..])
  }

  function VecTree(items: seq<Obj>, forests: seq<seq<Tree>>, n: nat, cid: nat): Tree
    requires n >= 1 && |items| == |forests|
  {
    Tree(VecContainerJob(Rle(ChunkLens(|items|, n)), |items|), cid, VecShards(items, forests, n, cid))
  }

  function VecShards(items: seq<Obj>, forests: seq<seq<Tree>>, n: nat, cid: nat): (r: seq<Tree>)
    requires n >= 1 && |items| == |forests|
    ensures |r| == |ChunkLens(|items|, n)|
    decreases |items|
  {
    if items == [] then []
    else
      var k := Min(n, |items|);
      [Tree(VecShardJob(items[..k]), cid, Flat(forests[..k]))] + VecShards(items[k..], forests[k..], n, cid)
  }

  function MapTree(h: Hash, ks: seq<Leaf>, vs: seq<Obj>, forests: seq<seq<Tree>>, cid: nat): Tree
    requires |ks| == |vs| == |forests|
  {
    var n := NumShards(|ks|);
    Tree(MapContainerJob(Sat32(n)), cid, MapShards(h, ks, vs, forests, n, 0, cid))
  }

  /** Buckets `b` to `n`, empty ones included. */
  function MapShards(
    h: Hash, ks: seq<Leaf>, vs: seq<Obj>, forests: seq<seq<Tree>>, n: nat, b: nat, cid: nat): (r: seq<Tree>)
    requires |ks| == |vs| == |forests| && b <= n
    ensures |r| == n - b
    decreases n - b
  {
    if b == n then []
    else [MapShard(h, ks, vs, forests, n, b, cid)] + MapShards(h, ks, vs, forests, n, b + 1, cid)
  }

  function MapShard(h: Hash, ks: seq<Leaf>, vs: seq<Obj>, forests: seq<seq<Tree>>, n: nat, b: nat, cid: nat): Tree
    requires |ks| == |vs| == |forests| && b < n
  {
    Tree(MapShardJob(Pick(h, n, b, ks, ks), Pick(h, n, b, ks, vs)), cid, Flat(Pick(h, n, b, ks, forests)))
  }

  /** Number of nodes. */
  function Size(t: Tree): (n: nat)
    ensures n >= 1
    decreases t
  {
    1 + SizeAll(t.children)
  }

  function SizeAll(ts: seq<Tree>): nat
    decreases ts
  {
    if ts == [] then 0 else Size(ts[0]) + SizeAll(ts[1..])
  }

  lemma {:induction false} SizeAllAppend(a: seq<Tree>, b: seq<Tree>)
    ensures SizeAll(a + b) == SizeAll(a) + SizeAll(b)
  {
    if a == [] {
      assert a + b == b;
    } else {
      assert (a + b)[1..] == a[1..] + b;
      SizeAllAppend(a[1..], b);
    }
  }
}

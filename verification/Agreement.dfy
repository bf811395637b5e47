/** Which runs succeed, which errors are possible, and when the two executors agree. */
module Agreement {
  import opened Wrappers
  import opened Bytes
  import opened Format
  import opened Values
  import opened Jobs
  import opened Trees
  import opened Graph
  import opened Protocol
  import opened Invariant
  import opened Runs
  import opened EndToEnd
  import FileHeader

  // --- The jobs of a visited graph ---

  /** Every placeholder has been swapped for a real job; a map shard has a value per key. */
  predicate RealJob(j: Job) {
    match j
    case PlaceholderJob => false
    case MapShardJob(ks, vs) => |ks| == |vs|
    case _ => true
  }

  ghost predicate Real(t: Tree)
    decreases t
  {
    RealJob(t.job) && forall i :: 0 <= i < |t.children| ==> Real(t.children[i])
  }

  ghost predicate AllReal(ts: seq<Tree>) {
    forall i :: 0 <= i < |ts| ==> Real(ts[i])
  }

  lemma AllRealAppend(a: seq<Tree>, b: seq<Tree>)
    requires AllReal(a) && AllReal(b)
    ensures AllReal(a + b)
  {
  }

  lemma {:induction false} TreeReal(env: Env, o: Obj, at: Attr)
    requires env.cpus >= 1
    ensures Real(TreeOf(env, o, at))
    decreases o, 2
  {
    match o
    case OLeaf(_) =>
    case OStruct(fs, attrs) => RemotesReal(env, fs, attrs);
    case OVec(items) =>
      InlinedReal(env, items);
      VecShardsReal(items, Inlined(env, items), ShardLen(env, items), at.cid);
    case OMap(ks, vs) =>
      if at.isMap && |ks| == |vs| {
        InlinedReal(env, vs);
        MapShardsReal(env.hash, ks, vs, Inlined(env, vs), NumShards(|ks|), 0, at.cid);
      }
  }

  lemma {:induction false} RemotesReal(env: Env, fs: seq<Obj>, attrs: seq<Option<Attr>>)
    requires env.cpus >= 1
    ensures AllReal(RemoteTrees(env, fs, attrs))
    decreases fs
  {
    if fs != [] && attrs != [] {
      RemotesReal(env, fs[1..], attrs[1..]);
      if attrs[0].Some? {
        TreeReal(env, fs[0], attrs[0].value);
      }
    }
  }

  ghost predicate ForestsReal(forests: seq<seq<Tree>>) {
    forall i :: 0 <= i < |forests| ==> AllReal(forests[i])
  }

  lemma {:induction false} InlinedReal(env: Env, os: seq<Obj>)
    requires env.cpus >= 1
    ensures ForestsReal(Inlined(env, os))
    decreases os
  {
    if os != [] {
      if os[0].OStruct? {
        RemotesReal(env, os[0].fields, os[0].attrs);
      }
      InlinedReal(env, os[1..]);
    }
  }

  lemma {:induction false} FlatReal(forests: seq<seq<Tree>>)
    requires ForestsReal(forests)
    ensures AllReal(Flat(forests))
  {
    if forests != [] {
      FlatReal(forests[1..]);
      AllRealAppend(forests[0], Flat(forests[1..]));
    }
  }

  lemma {:induction false} VecShardsReal(items: seq<Obj>, forests: seq<seq<Tree>>, n: nat, cid: nat)
    requires n >= 1 && |items| == |forests| && ForestsReal(forests)
    ensures AllReal(VecShards(items, forests, n, cid))
    decreases |items|
  {
    if items != [] {
      var k := Min(n, |items|);
      FlatReal(forests[..k]);
      VecShardsReal(items[k..], forests[k..], n, cid);
    }
  }

  lemma {:induction false} PickReal(h: Hash, n: nat, b: nat, ks: seq<Leaf>, forests: seq<seq<Tree>>)
    requires n > 0 && |ks| == |forests| && ForestsReal(forests)
    ensures ForestsReal(Trees.Pick(h, n, b, ks, forests))
  {
    if ks != [] {
      PickReal(h, n, b, ks[1..], forests[1..]);
    }
  }

  lemma {:induction false} MapShardsReal(
    h: Hash, ks: seq<Leaf>, vs: seq<Obj>, forests: seq<seq<Tree>>, n: nat, b: nat, cid: nat)
    requires |ks| == |vs| == |forests| && b <= n && ForestsReal(forests)
    ensures AllReal(MapShards(h, ks, vs, forests, n, b, cid))
    decreases n - b
  {
    if b < n {
      PickReal(h, n, b, ks, forests);
      FlatReal(Trees.Pick(h, n, b, ks, forests));
      PickLength(h, n, b, ks, ks, vs);
      MapShardsReal(h, ks, vs, forests, n, b + 1, cid);
    }
  }

  ghost predicate RealNodes(ns: seq<Node>) {
    forall i :: 0 <= i < |ns| ==> RealJob(ns[i].job)
  }

  lemma {:induction false} FlattenReal(t: Tree, at: nat, parent: Option<nat>, slot: Option<nat>)
    requires Real(t)
    ensures RealNodes(Flatten(t, at, parent, slot))
    decreases t
  {
    ForestReal(t.children, at + 1, at, 0);
  }

  lemma {:induction false} ForestReal(ts: seq<Tree>, at: nat, p: nat, slot: nat)
    requires AllReal(ts)
    ensures RealNodes(Forest(ts, at, p, slot))
    decreases ts
  {
    if ts != [] {
      FlattenReal(ts[0], at, Some(p), Some(slot));
      ForestReal(ts[1..], at + Size(ts[0]), p, slot + 1);
    }
  }

  /** No placeholder is left in a graph that `visit` built. */
  lemma NoPlaceholder(w: Options, o: Obj)
    requires w.env.cpus >= 1
    ensures RealNodes(Setup(w, o).nodes)
  {
    TreeReal(w.env, o, NO_CONFIG);
    FlattenReal(RootTree(w, o), 0, None, None);
  }

  /** The only errors a run can return: the stream failed, a compressor is missing or
      refused its input, or a map shard outgrew its 32-bit fields. Missing child results,
      slots out of bounds and placeholder runs are unreachable. */
  lemma ErrorKinds(w: Options, o: Obj, sched: Schedule)
    requires w.env.cpus >= 1 && Quiescent(Setup(w, o), Exec(Setup(w, o), sched))
    requires Outcome(Exec(Setup(w, o), sched)).Err?
    ensures Outcome(Exec(Setup(w, o), sched)).error in {IoFailed, NotRegistered, CompressionFailed, BadEncoding}
  {
    var c, s := Setup(w, o), Exec(Setup(w, o), sched);
    RunOutcome(c, sched);
    NoPlaceholder(w, o);
    var e := s.error.value;
    if e != IoFailed {
      var i :| 0 <= i < |c.nodes| && Pack(c, i) == Err(e);
      PackErrors(c, i);
    }
  }

  lemma PackErrors(c: Config, i: nat)
    requires i < |c.nodes| && RealJob(c.nodes[i].job) && Pack(c, i).Err?
    ensures Pack(c, i).error in {NotRegistered, CompressionFailed, BadEncoding}
  {
  }

  // --- Success ---

  /** Without write faults, a run succeeds exactly if every node's own work does; this does
      not depend on the schedule. */
  lemma CleanOutcome(c: Config, sched: Schedule)
    requires Valid(c) && NoFaults(sched) && Quiescent(c, Exec(c, sched))
    ensures Outcome(Exec(c, sched)).Ok? <==> AllPack(c)
  {
    RunOutcome(c, sched);
    if AllPack(c) {
      NoFaultNoError(c, sched);
    } else {
      var i :| 0 <= i < |c.nodes| && Pack(c, i).Err?;
      FailureIsReported(c, sched, i);
    }
  }

  /** So every complete run without write faults, in whatever order, ends in a readable file
      as soon as every node's own work succeeds. */
  lemma CleanRunSucceeds(w: Options, o: Obj, sched: Schedule)
    requires w.env.cpus >= 1 && Size(RootTree(w, o)) <= U32
    requires |Exec(Setup(w, o), sched).out| + FileHeader.HEADER_SIZE < U64
    requires NoFaults(sched) && Quiescent(Setup(w, o), Exec(Setup(w, o), sched))
    ensures Succeeds(w, o, sched) <==> AllPack(Setup(w, o))
  {
    CleanOutcome(Setup(w, o), sched);
    RunOutcome(Setup(w, o), sched);
  }

  // --- The two executors ---

  function Wanted(c: Config, i: nat): nat
    requires i < |c.nodes|
  {
    if c.useCompression && c.nodes[i].cid == 0 then 1 else c.nodes[i].cid
  }

  ghost predicate AllRegistered(c: Config) {
    forall i :: 0 <= i < |c.nodes| ==> Lookup(c.reg, Wanted(c, i)).Ok?
  }

  /** If every requested compressor is registered, the executors run identically: every
      schedule takes both through the same states. */
  lemma {:induction false} SameRuns(c: Config, sched: Schedule)
    requires Valid(c) && !c.fallback && AllRegistered(c)
    ensures Exec(c, sched) == Exec(c.(fallback := true), sched)
    decreases |sched|
  {
    if sched != [] {
      SameRuns(c, sched[..|sched| - 1]);
      SamePick(c, Exec(c, sched[..|sched| - 1]), sched[|sched| - 1]);
    }
  }

  lemma SamePick(c: Config, s: State, at: (nat, bool))
    requires Valid(c) && Sized(c, s) && !c.fallback && AllRegistered(c)
    ensures Protocol.Pick(c, s, at) == Protocol.Pick(c.(fallback := true), s, at)
  {
    if at.0 < |c.nodes| {
      assert Lookup(c.reg, Wanted(c, at.0)).Ok?;
      SamePack(c, at.0);
    }
  }

  lemma SamePack(c: Config, i: nat)
    requires i < |c.nodes| && !c.fallback
    ensures Pack(c, i).Ok? ==> Lookup(c.reg, Wanted(c, i)).Ok?
    ensures Lookup(c.reg, Wanted(c, i)).Ok? ==> Pack(c.(fallback := true), i) == Pack(c, i)
  {
  }

  /** Without write faults, the parallel executor succeeds exactly when the serial one does
      and every requested compressor is registered. Only in that last respect do they
      differ: the serial executor replaces an unregistered compressor. */
  lemma ExecutorsAgree(c: Config, sched: Schedule, serial: Schedule)
    requires Valid(c) && !c.fallback && NoFaults(sched) && NoFaults(serial)
    requires Quiescent(c, Exec(c, sched)) && Quiescent(c.(fallback := true), Exec(c.(fallback := true), serial))
    ensures Outcome(Exec(c, sched)).Ok? <==> Outcome(Exec(c.(fallback := true), serial)).Ok? && AllRegistered(c)
  {
    var d := c.(fallback := true);
    CleanOutcome(c, sched);
    CleanOutcome(d, serial);
    forall i | 0 <= i < |c.nodes|
      ensures Pack(c, i).Ok? ==> Lookup(c.reg, Wanted(c, i)).Ok?
      ensures Lookup(c.reg, Wanted(c, i)).Ok? ==> Pack(d, i) == Pack(c, i)
    {
      SamePack(c, i);
    }
  }

  /** `struct S { #[parcode(chunkable, compression = "zstd")] x: u8 }` with `x: 7`. The
      attribute asks for compressor 2, which the default registry does not have. */
  const ZSTD_FIELD: Obj := OStruct([OLeaf(Byte(7))], [Some(Attr(2, false))])

  /** `NoCompression`. */
  const STORE: Compressor := Compressor(0, x => Some(x), x => Some(x))

  function Default(env: Env, reg: Registry, fallback: bool): Options {
    Options(env, reg, false, fallback)
  }

  /** They do differ on it: with write faults out of the way, every complete parallel run of
      this object fails and every complete serial one succeeds. */
  lemma ExecutorsDiffer(env: Env, reg: Registry, sched: Schedule, serial: Schedule)
    requires env.cpus >= 1 && Lookup(reg, 0) == Ok(STORE) && Lookup(reg, 2).Err?
    requires NoFaults(sched) && NoFaults(serial)
    requires Quiescent(Setup(Default(env, reg, false), ZSTD_FIELD),
      Exec(Setup(Default(env, reg, false), ZSTD_FIELD), sched))
    requires Quiescent(Setup(Default(env, reg, true), ZSTD_FIELD),
      Exec(Setup(Default(env, reg, true), ZSTD_FIELD), serial))
    ensures Outcome(Exec(Setup(Default(env, reg, false), ZSTD_FIELD), sched)) == Err(NotRegistered)
    ensures Outcome(Exec(Setup(Default(env, reg, true), ZSTD_FIELD), serial)).Ok?
  {
    ZstdNodes(env, reg, false);
    ZstdNodes(env, reg, true);
    OnlyNodeFails(Setup(Default(env, reg, false), ZSTD_FIELD), sched);
    BothNodesPack(Setup(Default(env, reg, true), ZSTD_FIELD), serial);
  }

  lemma BothNodesPack(c: Config, sched: Schedule)
    requires Valid(c) && NoFaults(sched) && Quiescent(c, Exec(c, sched))
    requires |c.nodes| == 2 && Pack(c, 0).Ok? && Pack(c, 1).Ok?
    ensures Outcome(Exec(c, sched)).Ok?
  {
    CleanOutcome(c, sched);
  }

  lemma OnlyNodeFails(c: Config, sched: Schedule)
    requires Valid(c) && NoFaults(sched) && Quiescent(c, Exec(c, sched))
    requires |c.nodes| == 2 && Pack(c, 0).Ok? && Pack(c, 1) == Err(NotRegistered)
    ensures Outcome(Exec(c, sched)) == Err(NotRegistered)
  {
    RunOutcome(c, sched);
    FailureIsReported(c, sched, 1);
    NoFaultNoIo(c, sched);
    OnlyError(c, Exec(c, sched).error.value);
  }

  lemma OnlyError(c: Config, e: Error)
    requires |c.nodes| == 2 && Pack(c, 0).Ok? && Pack(c, 1) == Err(NotRegistered)
    requires Legitimate(c, e) && e != IoFailed
    ensures e == NotRegistered
  {
  }

  lemma ZstdNodes(env: Env, reg: Registry, fallback: bool)
    requires env.cpus >= 1 && Lookup(reg, 0) == Ok(STORE) && Lookup(reg, 2).Err?
    ensures var c := Setup(Default(env, reg, fallback), ZSTD_FIELD);
      && |c.nodes| == 2
      && Pack(c, 0) == Ok(([], 0))
      && Pack(c, 1) == if fallback then Ok(([7], 0)) else Err(NotRegistered)
  {
    var leaf := Tree(PrimitiveJob(OLeaf(Byte(7))), 2, []);
    var job := StructJob(ZSTD_FIELD.fields, ZSTD_FIELD.attrs);
    assert TreeOf(env, OLeaf(Byte(7)), Attr(2, false)) == leaf;
    assert RemoteTrees(env, ZSTD_FIELD.fields, ZSTD_FIELD.attrs) == [leaf] + RemoteTrees(env, [], []);
    assert [leaf] + [] == [leaf];
    assert Setup(Default(env, reg, fallback), ZSTD_FIELD).nodes == Flatten(Tree(job, 0, [leaf]), 0, None, None);
    TwoNodes(job, leaf);
    assert EncLocals(ZSTD_FIELD.fields, ZSTD_FIELD.attrs) == [] + EncLocals([], []);
  }

  lemma TwoNodes(job: Job, leaf: Tree)
    requires leaf.children == []
    ensures var ns := Flatten(Tree(job, 0, [leaf]), 0, None, None);
      && |ns| == 2
      && ns[0].job == job && ns[0].cid == 0
      && ns[1].job == leaf.job && ns[1].cid == leaf.cid
  {
    assert Forest([leaf], 1, 0, 0) == Flatten(leaf, 1, Some(0), Some(0)) + Forest([], 1 + Size(leaf), 0, 1);
  }
}

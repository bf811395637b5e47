/** Decoding a vector into one buffer: shards are processed in any order, each writes its
    own region, and every slot is written exactly once. */
module Stitching {
  import opened Wrappers
  import opened Bytes
  import opened Format
  import opened Values
  import opened Bincode
  import opened Sharding
  import opened Reader
  import opened Indexing

  // --- The jobs behind a run table ---

  /** Shard `shard` fills the slots from `start` on. */
  datatype ShardJob = ShardJob(shard: nat, start: nat, count: nat)

  function JobAt(lens: seq<nat>, k: nat): ShardJob
    requires k < |lens|
  {
    ShardJob(k, Sum(lens[..k]), lens[k])
  }

  function JobsOf(lens: seq<nat>): seq<ShardJob> {
    seq(|lens|, k requires 0 <= k < |lens| => JobAt(lens, k))
  }

  lemma JobsAppend(lens: seq<nat>, count: nat)
    ensures JobsOf(lens + [count]) == JobsOf(lens) + [ShardJob(|lens|, Sum(lens), count)]
    ensures Sum(lens + [count]) == Sum(lens) + count
  {
    SumAppend(lens, [count]);
    forall k | 0 <= k <= |lens|
      ensures JobsOf(lens + [count])[k] == (JobsOf(lens) + [ShardJob(|lens|, Sum(lens), count)])[k]
    {
      SamePrefix(lens, count, k);
    }
  }

  lemma SamePrefix(lens: seq<nat>, count: nat, k: nat)
    requires k <= |lens|
    ensures (lens + [count])[..k] == lens[..k]
    ensures k == |lens| ==> lens[..k] == lens && (lens + [count])[k] == count
    ensures k < |lens| ==> (lens + [count])[k] == lens[k]
  {
  }

  predicate InJob(job: ShardJob, pos: nat) {
    job.start <= pos < job.start + job.count
  }

  /** Whatever the run table says, its jobs tile the buffer: every slot belongs to exactly
      one job, and no job reaches outside. */
  lemma JobsTile(lens: seq<nat>, pos: nat)
    ensures pos < Sum(lens) <==> exists k :: 0 <= k < |lens| && InJob(JobAt(lens, k), pos)
    ensures forall a, b ::
      0 <= a < |lens| && 0 <= b < |lens| && InJob(JobAt(lens, a), pos) && InJob(JobAt(lens, b), pos) ==> a == b
  {
    if pos < Sum(lens) {
      var (shard, local) := Locate(lens, pos).value;
      assert InJob(JobAt(lens, shard), pos);
    }
    forall a | 0 <= a < |lens| && InJob(JobAt(lens, a), pos)
      ensures pos < Sum(lens) && Locate(lens, pos) == Some((a, pos - JobAt(lens, a).start))
    {
      LocateUnique(lens, pos, a, pos - Sum(lens[..a]));
    }
  }

  lemma {:induction false} SumAppend(a: seq<nat>, b: seq<nat>)
    ensures Sum(a + b) == Sum(a) + Sum(b)
  {
    if a == [] {
      assert a + b == b;
    } else {
      assert (a + b)[1..] == a[1..] + b;
      SumAppend(a[1..], b);
    }
  }

  /** Expands the run table; refuses a table whose sum overflows or differs from the header. */
  method ExpandJobs(runs: seq<ShardRun>, total: nat) returns (r: Result<seq<ShardJob>>)
    requires total < U64
    ensures r == if Sum(Expand(runs)) == total then Ok(JobsOf(Expand(runs))) else Err(BadFormat)
  {
    var jobs: seq<ShardJob> := [];
    var shard, start := 0, 0;
    ghost var done: seq<nat> := [];
    var rest := runs;
    while rest != []
      invariant done + Expand(rest) == Expand(runs)
      invariant jobs == JobsOf(done) && shard == |done| && start == Sum(done) < U64
    {
      var run := rest[0];
      ghost var tail := Expand(rest[1..]);
      assert Expand(rest) == Uniform(run.itemCount, run.repeat) + tail;
      for i := 0 to run.repeat
        invariant done + (Uniform(run.itemCount, run.repeat - i) + tail) == Expand(runs)
        invariant jobs == JobsOf(done) && shard == |done| && start == Sum(done) < U64
      {
        UniformFirst(done, run.itemCount, run.repeat - i, tail);
        JobsAppend(done, run.itemCount);
        if start + run.itemCount >= U64 {
          SumAppend(done + [run.itemCount], Uniform(run.itemCount, run.repeat - i - 1) + tail);
          return Err(BadFormat);
        }
        jobs := jobs + [ShardJob(shard, start, run.itemCount)];
        shard := shard + 1;
        start := start + run.itemCount;
        done := done + [run.itemCount];
      }
      assert Uniform(run.itemCount, 0) + tail == tail;
      rest := rest[1..];
    }
    assert done + [] == done;
    return if start == total then Ok(jobs) else Err(BadFormat);
  }

  lemma UniformFirst(done: seq<nat>, count: nat, repeat: nat, tail: seq<nat>)
    requires repeat > 0
    ensures done + (Uniform(count, repeat) + tail) == done + [count] + (Uniform(count, repeat - 1) + tail)
  {
    UniformStep(count, repeat, tail);
    Assoc(done, [count], Uniform(count, repeat - 1) + tail);
  }

  // --- One shard into its region ---

  predicate Filled(slots: seq<Option<Value>>, start: nat, vs: seq<Value>) {
    start + |vs| <= |slots| && forall p :: start <= p < start + |vs| ==> slots[p] == Some(vs[p - start])
  }

  predicate Blank(slots: seq<Option<Value>>, start: nat, count: nat) {
    start + count <= |slots| && forall p :: start <= p < start + count ==> slots[p] == None
  }

  /** Outside the region from `start` on nothing has changed. */
  predicate SameOutside(before: seq<Option<Value>>, after: seq<Option<Value>>, start: nat, count: nat) {
    |before| == |after| && forall p :: 0 <= p < |before| && !(start <= p < start + count) ==> after[p] == before[p]
  }

  function After(vs: seq<Value>, r: Result<(seq<Value>, Cursor)>): Result<(seq<Value>, Cursor)> {
    match r
    case Ok((more, cur)) => Ok((vs + more, cur))
    case Err(e) => Err(e)
  }

  lemma AfterNext(f: File, defs: Defs, ty: Ty, count: nat, cur: Cursor, fuel: nat, vs: seq<Value>)
    requires count > 0
    ensures var first := ReadItem(f, defs, ty, cur, fuel);
      After(vs, ReadItems(f, defs, ty, count, cur, fuel))
      == if first.Err? then Err(first.error)
         else After(vs + [first.value.0], ReadItems(f, defs, ty, count - 1, first.value.1, fuel))
  {
    var first := ReadItem(f, defs, ty, cur, fuel);
    if first.Ok? {
      var rest := ReadItems(f, defs, ty, count - 1, first.value.1, fuel);
      if rest.Ok? {
        Assoc(vs, [first.value.0], rest.value.0);
      }
    }
  }

  /** `read_into_slice` for any item type: one item after the other into blank slots. */
  method ReadLoop(f: File, defs: Defs, ty: Ty, count: nat, start: Cursor, fuel: nat, buf: array<Option<Value>>, at: nat)
    returns (r: Result<()>)
    requires Blank(buf[..], at, count)
    modifies buf
    ensures SameOutside(old(buf[..]), buf[..], at, count)
    ensures r.Ok? <==> ReadItems(f, defs, ty, count, start, fuel).Ok?
    ensures r.Ok? ==> Filled(buf[..], at, ReadItems(f, defs, ty, count, start, fuel).value.0)
  {
    var cur := start;
    ghost var vs: seq<Value> := [];
    ghost var all := ReadItems(f, defs, ty, count, start, fuel);
    assert all.Ok? ==> [] + all.value.0 == all.value.0;
    for i := 0 to count
      invariant |vs| == i
      invariant all == After(vs, ReadItems(f, defs, ty, count - i, cur, fuel))
      invariant Filled(buf[..], at, vs) && SameOutside(old(buf[..]), buf[..], at, i)
    {
      AfterNext(f, defs, ty, count - i, cur, fuel, vs);
      var item := ReadItem(f, defs, ty, cur, fuel);
      if item.Err? {
        return Err(item.error);
      }
      buf[at + i] := Some(item.value.0);
      vs := vs + [item.value.0];
      cur := item.value.1;
    }
    assert all.Ok? && all.value.0 == vs;
    return Ok(());
  }

  function ByteValues(bs: bytes): (vs: seq<Value>)
    ensures |vs| == |bs|
  {
    seq(|bs|, i requires 0 <= i < |bs| => VLeaf(Byte(bs[i])))
  }

  /** The bulk copy of a byte vector reads what the item loop would have read. */
  lemma {:induction false} BulkIsLoop(f: File, defs: Defs, count: nat, cur: Cursor, fuel: nat)
    requires fuel > 0
    ensures ReadItems(f, defs, TLeaf(TByte), count, cur, fuel)
         == if count <= |cur.bs| then Ok((ByteValues(cur.bs[..count]), Cursor(cur.bs[count..], cur.kids)))
           else Err(BadEncoding)
    decreases count
  {
    if count == 0 {
      assert cur.bs[0..] == cur.bs;
    } else if cur.bs != [] {
      var next := Cursor(cur.bs[1..], cur.kids);
      BulkIsLoop(f, defs, count - 1, next, fuel);
      if count <= |cur.bs| {
        assert cur.bs[1..][..count - 1] == cur.bs[1..count];
        assert cur.bs[1..][count - 1..] == cur.bs[count..];
        assert ByteValues(cur.bs[..count]) == [VLeaf(Byte(cur.bs[0]))] + ByteValues(cur.bs[1..count]);
      }
    }
  }

  method CopyBytes(bs: bytes, buf: array<Option<Value>>, at: nat)
    requires Blank(buf[..], at, |bs|)
    modifies buf
    ensures SameOutside(old(buf[..]), buf[..], at, |bs|)
    ensures Filled(buf[..], at, ByteValues(bs))
  {
    for i := 0 to |bs|
      invariant Filled(buf[..], at, ByteValues(bs)[..i])
      invariant SameOutside(old(buf[..]), buf[..], at, i)
    {
      buf[at + i] := Some(VLeaf(Byte(bs[i])));
    }
  }

  /** `decode_shard_into_buffer`: reads the shard into its region, which must hold exactly
      the expected number of items. */
  method DecodeShardIntoBuffer(
    f: File, defs: Defs, ty: Ty, shard: ChunkNode, expected: nat,
    fuel: nat, buf: array<Option<Value>>, at: nat)
    returns (r: Result<()>)
    requires fuel > 0 && Blank(buf[..], at, expected)
    modifies buf
    ensures SameOutside(old(buf[..]), buf[..], at, expected)
    ensures r.Ok? <==> ReadExactly(f, defs, ty, shard, expected, fuel).Ok?
    ensures r.Ok? ==> Filled(buf[..], at, ReadExactly(f, defs, ty, shard, expected, fuel).value)
  {
    var cur := Open(f, shard);
    if cur.Err? {
      return Err(cur.error);
    }
    var len := DecUint(cur.value.bs, true);
    if len.Err? {
      return Err(len.error);
    }
    var (count, rest) := len.value;
    if expected < count {
      return Err(BadFormat);
    }
    var items := Cursor(rest, cur.value.kids);
    if ty == TLeaf(TByte) {
      BulkIsLoop(f, defs, count, items, fuel);
      if count > |rest| {
        return Err(BadEncoding);
      }
      CopyBytes(rest[..count], buf, at);
    } else {
      var read := ReadLoop(f, defs, ty, count, items, fuel, buf, at);
      if read.Err? {
        return Err(read.error);
      }
    }
    return if count == expected then Ok(()) else Err(BadFormat);
  }

  // --- All shards ---

  function ReadShardAt(
    f: File, defs: Defs, ty: Ty, n: ChunkNode, lens: seq<nat>, k: nat, fuel: nat): (r: Result<seq<Value>>)
    requires k < |lens|
    ensures r.Ok? ==> |r.value| == lens[k]
  {
    var shard :- ChildAt(f, n, k);
    ReadExactly(f, defs, ty, shard, lens[k], fuel)
  }

  /** The slots of shard `k` hold its items. */
  ghost predicate ShardDone(
    f: File, defs: Defs, ty: Ty, n: ChunkNode, lens: seq<nat>, k: nat, fuel: nat, slots: seq<Option<Value>>)
    requires k < |lens|
  {
    var r := ReadShardAt(f, defs, ty, n, lens, k, fuel);
    r.Ok? && Filled(slots, Sum(lens[..k]), r.value)
  }

  ghost predicate ShardBlank(lens: seq<nat>, k: nat, slots: seq<Option<Value>>)
    requires k < |lens|
  {
    Blank(slots, Sum(lens[..k]), lens[k])
  }

  /** Every shard once, in any order. */
  predicate IsOrder(order: seq<nat>, n: nat) {
    && (forall i :: 0 <= i < |order| ==> order[i] < n)
    && (forall i, j :: 0 <= i < j < |order| ==> order[i] != order[j])
    && (forall k :: 0 <= k < n ==> k in order)
  }

  lemma RegionsApart(lens: seq<nat>, a: nat, b: nat)
    requires a < |lens| && b < |lens|
    ensures Sum(lens[..a]) + lens[a] <= Sum(lens)
    ensures a < b ==> Sum(lens[..a]) + lens[a] <= Sum(lens[..b])
    ensures b < a ==> Sum(lens[..b]) + lens[b] <= Sum(lens[..a])
  {
    assert lens[..|lens|] == lens;
    SumPrefix(lens, a, |lens|);
    if a < b {
      SumPrefix(lens, a, b);
    } else {
      SumPrefix(lens, b, a);
    }
  }

  lemma OthersKeep(
    f: File, defs: Defs, ty: Ty, n: ChunkNode, lens: seq<nat>, k: nat, other: nat, fuel: nat,
    before: seq<Option<Value>>, after: seq<Option<Value>>)
    requires k < |lens| && other < |lens| && k != other
    requires SameOutside(before, after, Sum(lens[..k]), lens[k])
    ensures ShardDone(f, defs, ty, n, lens, other, fuel, before) ==> ShardDone(f, defs, ty, n, lens, other, fuel, after)
    ensures ShardBlank(lens, other, before) ==> ShardBlank(lens, other, after)
  {
    RegionsApart(lens, k, other);
  }

  /** The shards in `order` that have been processed are done, the others still blank. */
  ghost predicate Progress(
    f: File, defs: Defs, ty: Ty, n: ChunkNode, lens: seq<nat>, fuel: nat,
    order: seq<nat>, i: nat, slots: seq<Option<Value>>)
    requires i <= |order| && forall j :: 0 <= j < |order| ==> order[j] < |lens|
  {
    && (forall j :: 0 <= j < i ==> ShardDone(f, defs, ty, n, lens, order[j], fuel, slots))
    && (forall j :: i <= j < |order| ==> ShardBlank(lens, order[j], slots))
  }

  lemma ProgressStep(
    f: File, defs: Defs, ty: Ty, n: ChunkNode, lens: seq<nat>, fuel: nat, order: seq<nat>, i: nat,
    before: seq<Option<Value>>, after: seq<Option<Value>>)
    requires IsOrder(order, |lens|) && i < |order| && Progress(f, defs, ty, n, lens, fuel, order, i, before)
    requires SameOutside(before, after, Sum(lens[..order[i]]), lens[order[i]])
    requires ShardDone(f, defs, ty, n, lens, order[i], fuel, after)
    ensures Progress(f, defs, ty, n, lens, fuel, order, i + 1, after)
  {
    forall j | 0 <= j < |order| && j != i
      ensures ShardDone(f, defs, ty, n, lens, order[j], fuel, before)
        ==> ShardDone(f, defs, ty, n, lens, order[j], fuel, after)
      ensures ShardBlank(lens, order[j], before) ==> ShardBlank(lens, order[j], after)
    {
      assert order[j] != order[i];
      OthersKeep(f, defs, ty, n, lens, order[i], order[j], fuel, before, after);
    }
  }

  /** If some shard cannot be read, neither can the collection. */
  lemma {:induction false} ShardFails(
    f: File, defs: Defs, ty: Ty, n: ChunkNode, lens: seq<nat>, idx: nat, k: nat, fuel: nat)
    requires idx <= k < |lens| && ReadShardAt(f, defs, ty, n, lens, k, fuel).Err?
    ensures DecodeShards(f, defs, ty, n, idx, lens[idx..], fuel).Err?
    decreases k - idx
  {
    assert lens[idx..][0] == lens[idx] && lens[idx..][1..] == lens[idx + 1..];
    if idx < k {
      ShardFails(f, defs, ty, n, lens, idx + 1, k, fuel);
    }
  }

  /** If every region is filled, the buffer holds the shards' concatenation. */
  lemma {:induction false} RegionsJoin(
    f: File, defs: Defs, ty: Ty, n: ChunkNode, lens: seq<nat>, idx: nat, fuel: nat, slots: seq<Option<Value>>)
    requires idx <= |lens| && |slots| == Sum(lens)
    requires forall k :: idx <= k < |lens| ==> ShardDone(f, defs, ty, n, lens, k, fuel, slots)
    ensures var r := DecodeShards(f, defs, ty, n, idx, lens[idx..], fuel);
      r.Ok? && Filled(slots, Sum(lens[..idx]), r.value)
    decreases |lens| - idx
  {
    if idx < |lens| {
      assert lens[idx..][0] == lens[idx] && lens[idx..][1..] == lens[idx + 1..];
      assert ShardDone(f, defs, ty, n, lens, idx, fuel, slots);
      RegionsJoin(f, defs, ty, n, lens, idx + 1, fuel, slots);
      SumNext(lens, idx);
      FilledJoin(slots, Sum(lens[..idx]), Sum(lens[..idx + 1]), ReadShardAt(f, defs, ty, n, lens, idx, fuel).value,
                 DecodeShards(f, defs, ty, n, idx + 1, lens[idx + 1..], fuel).value);
    } else {
      assert lens[..idx] == lens;
    }
  }

  lemma FilledJoin(slots: seq<Option<Value>>, start: nat, mid: nat, a: seq<Value>, b: seq<Value>)
    requires Filled(slots, start, a) && mid == start + |a| && Filled(slots, mid, b)
    ensures Filled(slots, start, a + b)
  {
  }

  function Contents(slots: seq<Option<Value>>): seq<Value>
    requires forall i :: 0 <= i < |slots| ==> slots[i].Some?
  {
    seq(|slots|, i requires 0 <= i < |slots| => slots[i].value)
  }

  /** Runs the jobs in the given order, all into the same buffer. Starts with every slot
      blank and fills each exactly once, or fails because some shard cannot be read. */
  method Stitch(
    f: File, defs: Defs, ty: Ty, n: ChunkNode, ghost lens: seq<nat>, jobs: seq<ShardJob>,
    order: seq<nat>, fuel: nat, buf: array<Option<Value>>)
    returns (r: Result<()>)
    requires fuel > 0 && jobs == JobsOf(lens) && IsOrder(order, |lens|) && buf.Length == Sum(lens)
    requires Blank(buf[..], 0, buf.Length)
    modifies buf
    ensures r.Ok? <==> DecodeShards(f, defs, ty, n, 0, lens, fuel).Ok?
    ensures r.Ok? ==> Filled(buf[..], 0, DecodeShards(f, defs, ty, n, 0, lens, fuel).value)
  {
    assert lens[0..] == lens;
    forall j | 0 <= j < |order|
      ensures ShardBlank(lens, order[j], buf[..])
    {
      RegionsApart(lens, order[j], order[j]);
    }
    for i := 0 to |order|
      invariant Progress(f, defs, ty, n, lens, fuel, order, i, buf[..])
    {
      var job := jobs[order[i]];
      assert ShardBlank(lens, order[i], buf[..]);
      var shard := ChildAt(f, n, job.shard);
      if shard.Err? {
        ShardFails(f, defs, ty, n, lens, 0, order[i], fuel);
        return Err(shard.error);
      }
      ghost var before := buf[..];
      var done := DecodeShardIntoBuffer(f, defs, ty, shard.value, job.count, fuel, buf, job.start);
      if done.Err? {
        ShardFails(f, defs, ty, n, lens, 0, order[i], fuel);
        return Err(done.error);
      }
      ProgressStep(f, defs, ty, n, lens, fuel, order, i, before, buf[..]);
    }
    AllInOrder(f, defs, ty, n, lens, fuel, order, buf[..]);
    RegionsJoin(f, defs, ty, n, lens, 0, fuel, buf[..]);
    return Ok(());
  }

  lemma AllInOrder(
    f: File, defs: Defs, ty: Ty, n: ChunkNode, lens: seq<nat>, fuel: nat,
    order: seq<nat>, slots: seq<Option<Value>>)
    requires IsOrder(order, |lens|) && Progress(f, defs, ty, n, lens, fuel, order, |order|, slots)
    ensures forall k :: 0 <= k < |lens| ==> ShardDone(f, defs, ty, n, lens, k, fuel, slots)
  {
    forall k | 0 <= k < |lens|
      ensures ShardDone(f, defs, ty, n, lens, k, fuel, slots)
    {
      assert k in order;
      var j :| 0 <= j < |order| && order[j] == k;
      assert ShardDone(f, defs, ty, n, lens, order[j], fuel, slots);
    }
  }

  /** `decode_parallel_collection`, for arbitrary bytes. `order` stands for the order in
      which the workers happen to process the shards; it makes no difference to the result. */
  method DecodeParallelCollection(
    f: File, defs: Defs, ty: Ty, n: ChunkNode, order: seq<nat>, fuel: nat) returns (r: Result<seq<Value>>)
    requires fuel > 0
    requires ReadRaw(f, n).Ok? && ReadRuns(ReadRaw(f, n).value).Ok?
      ==> IsOrder(order, |Expand(ReadRuns(ReadRaw(f, n).value).value)|)
    ensures r.Ok? <==> DecodeCollection(f, defs, ty, n, fuel).Ok?
    ensures r.Ok? ==> r == DecodeCollection(f, defs, ty, n, fuel)
  {
    var raw := ReadRaw(f, n);
    if raw.Err? {
      return Err(raw.error);
    }
    var payload := raw.value;
    if payload == [] {
      return Ok([]);
    }
    if |payload| < 8 {
      var kids := Children(f, n);
      if kids.Err? {
        return Err(kids.error);
      }
      return ReadSlice(f, defs, ty, Cursor(payload, kids.value), fuel);
    }
    var total := FromLE(payload[..8]);
    Widths();
    FromLEBound(payload[..8]);
    var runs := DecRuns(payload[8..]);
    if runs.Err? {
      return Err(runs.error);
    }
    var jobs := ExpandJobs(runs.value, total);
    if jobs.Err? {
      return Err(jobs.error);
    }
    r := FillBuffer(f, defs, ty, n, Expand(runs.value), jobs.value, order, total, fuel);
  }

  method FillBuffer(
    f: File, defs: Defs, ty: Ty, n: ChunkNode, ghost lens: seq<nat>,
    jobs: seq<ShardJob>, order: seq<nat>, total: nat, fuel: nat)
    returns (r: Result<seq<Value>>)
    requires fuel > 0 && jobs == JobsOf(lens) && IsOrder(order, |lens|) && total == Sum(lens)
    ensures r.Ok? <==> DecodeShards(f, defs, ty, n, 0, lens, fuel).Ok?
    ensures r.Ok? ==> r == DecodeShards(f, defs, ty, n, 0, lens, fuel)
  {
    if jobs == [] {
      return Ok([]);
    }
    var buf := new Option<Value>[total](_ => None);
    var done := Stitch(f, defs, ty, n, lens, jobs, order, fuel, buf);
    if done.Err? {
      return Err(done.error);
    }
    assert forall i :: 0 <= i < buf.Length ==> buf[..][i].Some?;
    r := Ok(Contents(buf[..]));
    assert Contents(buf[..]) == DecodeShards(f, defs, ty, n, 0, lens, fuel).value;
  }
}

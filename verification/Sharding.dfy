/** How a vector is cut into shards, and the run-length table that records the cut. */
module Sharding {
  import opened Bytes

  const TARGET_SHARD_SIZE_BYTES: nat := 128 * 1024
  const MIN_SHARD_SIZE_BYTES: nat := 4 * 1024
  const TASKS_PER_CORE: nat := 4

  datatype ShardRun = ShardRun(itemCount: nat, repeat: nat)

  // --- Shard size ---

  /** Bytes per item, estimated from the encoded size of the first eight items. */
  function AvgItemSize(sampleBytes: nat, total: nat): (a: nat)
    requires total > 0
    ensures a >= 1
  {
    Max(sampleBytes / Min(total, 8), 1)
  }

  function CountByIo(avg: nat): (c: nat)
    requires avg >= 1
    ensures c >= 1
  {
    Max(TARGET_SHARD_SIZE_BYTES / avg, 1)
  }

  function CountByCpu(total: nat, cpus: nat): (c: nat)
    requires cpus >= 1
    ensures c >= 1
  {
    Max(total / (cpus * TASKS_PER_CORE), 1)
  }

  function ItemsPerShard(total: nat, sampleBytes: nat, cpus: nat): (n: nat)
    requires cpus >= 1
    ensures n >= 1
  {
    if total == 0 then 1
    else
      var avg := AvgItemSize(sampleBytes, total);
      var candidate := Min(CountByIo(avg), CountByCpu(total, cpus));
      if candidate * avg < MIN_SHARD_SIZE_BYTES
      then Max(MIN_SHARD_SIZE_BYTES / avg, 1)
      else candidate
  }

  function CeilDiv(a: nat, b: nat): nat
    requires b >= 1
  {
    (a + b - 1) / b
  }

  lemma DivTimes(a: nat, b: nat)
    requires b >= 1
    ensures a - b < a / b * b <= a
  {
  }

  lemma CeilDivBound(total: nat, n: nat, m: nat)
    requires n >= 1 && m >= 1 && n * m <= total
    ensures CeilDiv(total, n) >= m
  {
    DivTimes(total + n - 1, n);
    if CeilDiv(total, n) < m {
      MulMono(CeilDiv(total, n) + 1, m, n);
    }
  }

  /** The estimated shard stays between half the minimum and the larger of the target and
      one item, with no 64-bit overflow in the estimate; and unless the minimum size
      forces bigger shards, a long enough vector gives every core its tasks. */
  lemma ShardSizeBounds(total: nat, sampleBytes: nat, cpus: nat)
    requires total > 0 && cpus >= 1 && sampleBytes < U64
    ensures var avg := AvgItemSize(sampleBytes, total); var n := ItemsPerShard(total, sampleBytes, cpus);
      && MIN_SHARD_SIZE_BYTES < 2 * n * avg
      && n * avg <= Max(TARGET_SHARD_SIZE_BYTES, avg) < U64
      && var candidate := Min(CountByIo(avg), CountByCpu(total, cpus));
      && candidate * avg < U64
      && (candidate * avg >= MIN_SHARD_SIZE_BYTES && total >= cpus * TASKS_PER_CORE ==>
            CeilDiv(total, n) >= cpus * TASKS_PER_CORE)
  {
    var avg := AvgItemSize(sampleBytes, total);
    var candidate := Min(CountByIo(avg), CountByCpu(total, cpus));
    AvgBound(sampleBytes, total);
    CandidateBounds(avg, candidate);
    if candidate * avg < MIN_SHARD_SIZE_BYTES {
      FloorBounds(avg);
    } else if total >= cpus * TASKS_PER_CORE {
      EnoughShards(total, cpus, candidate);
    }
  }

  lemma CandidateBounds(avg: nat, candidate: nat)
    requires avg >= 1 && candidate <= CountByIo(avg)
    ensures candidate * avg <= Max(TARGET_SHARD_SIZE_BYTES, avg)
  {
    DivTimes(TARGET_SHARD_SIZE_BYTES, avg);
    MulMono(candidate, CountByIo(avg), avg);
  }

  lemma EnoughShards(total: nat, cpus: nat, n: nat)
    requires cpus >= 1 && 1 <= n <= CountByCpu(total, cpus) && total >= cpus * TASKS_PER_CORE
    ensures CeilDiv(total, n) >= cpus * TASKS_PER_CORE
  {
    var chunks := cpus * TASKS_PER_CORE;
    DivTimes(total, chunks);
    DivPositive(total, chunks);
    MulMono(n, total / chunks, chunks);
    CeilDivBound(total, n, chunks);
  }

  lemma DivPositive(a: nat, b: nat)
    requires a >= b >= 1
    ensures a / b >= 1
  {
  }

  lemma MulMono(a: nat, b: nat, c: nat)
    requires a <= b
    ensures a * c <= b * c
  {
  }

  lemma AvgBound(sampleBytes: nat, total: nat)
    requires total > 0 && sampleBytes < U64
    ensures AvgItemSize(sampleBytes, total) < U64
  {
    DivTimes(sampleBytes, Min(total, 8));
    var q, d := sampleBytes / Min(total, 8), Min(total, 8);
    assert q * d >= q;
  }

  lemma FloorBounds(avg: nat)
    requires avg >= 1
    ensures var n := Max(MIN_SHARD_SIZE_BYTES / avg, 1);
      MIN_SHARD_SIZE_BYTES < 2 * n * avg && n * avg <= Max(MIN_SHARD_SIZE_BYTES, avg)
  {
    var q := MIN_SHARD_SIZE_BYTES / avg;
    DivTimes(MIN_SHARD_SIZE_BYTES, avg);
    if q >= 1 {
      assert q * avg >= avg;
    }
  }

  // The rule itself, in the figures of the format: 128 KB and 4 KB per shard, four tasks per
  // core, a sample of eight items.

  /** The average encoded size of the sampled items, rounded down, and at least 1. */
  predicate IsAverage(avg: nat, sampleBytes: nat, total: nat) {
    var count := if total < 8 then total else 8;
    avg >= 1 && (avg == 1 || avg * count <= sampleBytes) && sampleBytes < (avg + 1) * count
  }

  /** `n` items of this size stay within 128 KB and leave four shards to every core. */
  predicate Affordable(n: nat, avg: nat, total: nat, cpus: nat) {
    n * avg <= 131072 && n * (cpus * 4) <= total
  }

  /** The largest affordable number of items, and at least 1. */
  predicate IsCandidate(n: nat, avg: nat, total: nat, cpus: nat) {
    n >= 1 && (n == 1 || Affordable(n, avg, total, cpus)) && !Affordable(n + 1, avg, total, cpus)
  }

  /** The largest number of items within 4 KB, and at least 1. */
  predicate IsFloor(n: nat, avg: nat) {
    n >= 1 && (n == 1 || n * avg <= 4096) && (n + 1) * avg > 4096
  }

  /** The shard size is the candidate if that many items reach 4 KB, else the floor. Average
      and candidate exist and there is one of each, so this decides the size of every vector. */
  lemma ShardSizeExact(total: nat, sampleBytes: nat, cpus: nat, avg: nat, candidate: nat, n: nat)
    requires total > 0 && cpus >= 1
    requires IsAverage(avg, sampleBytes, total) && IsCandidate(candidate, avg, total, cpus)
    ensures n == ItemsPerShard(total, sampleBytes, cpus)
       <==> if candidate * avg >= 4096 then n == candidate else IsFloor(n, avg)
  {
    var a := AverageOf(total, sampleBytes);
    var c := CandidateOf(total, avg, cpus);
    AverageUnique(a, avg, sampleBytes, total);
    CandidateUnique(c, candidate, avg, total, cpus);
    FloorIs(avg);
    if IsFloor(n, avg) {
      FloorUnique(n, Max(MIN_SHARD_SIZE_BYTES / avg, 1), avg);
    }
  }

  lemma AverageOf(total: nat, sampleBytes: nat) returns (avg: nat)
    requires total > 0
    ensures avg == AvgItemSize(sampleBytes, total) && IsAverage(avg, sampleBytes, total)
  {
    avg := AvgItemSize(sampleBytes, total);
    DivTimes(sampleBytes, Min(total, 8));
  }

  lemma AverageUnique(a: nat, b: nat, sampleBytes: nat, total: nat)
    requires IsAverage(a, sampleBytes, total) && IsAverage(b, sampleBytes, total)
    ensures a == b
  {
    var count := if total < 8 then total else 8;
    if a < b {
      MulMono(a + 1, b, count);
    } else if b < a {
      MulMono(b + 1, a, count);
    }
  }

  lemma CandidateOf(total: nat, avg: nat, cpus: nat) returns (c: nat)
    requires avg >= 1 && cpus >= 1
    ensures c == Min(CountByIo(avg), CountByCpu(total, cpus)) && IsCandidate(c, avg, total, cpus)
  {
    c := Min(CountByIo(avg), CountByCpu(total, cpus));
    Quotient(131072, avg, c);
    Quotient(total, cpus * 4, c);
    Quotient(131072, avg, c + 1);
    Quotient(total, cpus * 4, c + 1);
  }

  /** The quotient is the largest factor. */
  lemma Quotient(a: nat, b: nat, n: nat)
    requires b >= 1
    ensures n * b <= a <==> n <= a / b
  {
    DivTimes(a, b);
    if n <= a / b {
      MulMono(n, a / b, b);
    } else {
      MulMono(a / b + 1, n, b);
    }
  }

  lemma AffordableBelow(a: nat, b: nat, avg: nat, total: nat, cpus: nat)
    requires a <= b && Affordable(b, avg, total, cpus)
    ensures Affordable(a, avg, total, cpus)
  {
    MulMono(a, b, avg);
    MulMono(a, b, cpus * 4);
  }

  lemma CandidateUnique(a: nat, b: nat, avg: nat, total: nat, cpus: nat)
    requires IsCandidate(a, avg, total, cpus) && IsCandidate(b, avg, total, cpus)
    ensures a == b
  {
    if a < b {
      AffordableBelow(a + 1, b, avg, total, cpus);
    } else if b < a {
      AffordableBelow(b + 1, a, avg, total, cpus);
    }
  }

  lemma FloorIs(avg: nat)
    requires avg >= 1
    ensures IsFloor(Max(MIN_SHARD_SIZE_BYTES / avg, 1), avg)
  {
    var n := Max(MIN_SHARD_SIZE_BYTES / avg, 1);
    Quotient(4096, avg, n);
    Quotient(4096, avg, n + 1);
  }

  lemma FloorUnique(a: nat, b: nat, avg: nat)
    requires IsFloor(a, avg) && IsFloor(b, avg)
    ensures a == b
  {
    if a < b {
      MulMono(a + 1, b, avg);
    } else if b < a {
      MulMono(b + 1, a, avg);
    }
  }

  // --- Chunks and runs ---

  /** Lengths of `chunks(n)` over `total` items. */
  function ChunkLens(total: nat, n: nat): (lens: seq<nat>)
    requires n >= 1
    decreases total
  {
    if total == 0 then [] else [Min(n, total)] + ChunkLens(total - Min(n, total), n)
  }

  /** One step of the run-length loop: `runs` are closed, `cur` is open. */
  function RleFrom(runs: seq<ShardRun>, cur: ShardRun, lens: seq<nat>): seq<ShardRun>
    decreases |lens|
  {
    if lens == [] then runs + [cur]
    else if Sat32(lens[0]) == cur.itemCount then
      RleFrom(runs, ShardRun(cur.itemCount, cur.repeat + 1), lens[1..])
    else
      RleFrom(runs + [cur], ShardRun(Sat32(lens[0]), 1), lens[1..])
  }

  function Rle(lens: seq<nat>): seq<ShardRun> {
    if lens == [] then [] else RleFrom([], ShardRun(Sat32(lens[0]), 0), lens)
  }

  method BuildRuns(lens: seq<nat>) returns (runs: seq<ShardRun>)
    ensures runs == Rle(lens)
  {
    runs := [];
    if lens != [] {
      var cur := ShardRun(Sat32(lens[0]), 0);
      for i := 0 to |lens|
        invariant RleFrom(runs, cur, lens[i..]) == Rle(lens)
      {
        var len := Sat32(lens[i]);
        assert lens[i..][1..] == lens[i + 1..];
        if len == cur.itemCount {
          cur := cur.(repeat := cur.repeat + 1);
        } else {
          runs := runs + [cur];
          cur := ShardRun(len, 1);
        }
      }
      runs := runs + [cur];
    }
  }

  /** The shard lengths that a run table stands for. */
  function Expand(runs: seq<ShardRun>): seq<nat> {
    if runs == [] then []
    else seq(runs[0].repeat, _ => runs[0].itemCount) + Expand(runs[1..])
  }

  lemma {:induction false} ExpandAppend(a: seq<ShardRun>, b: seq<ShardRun>)
    ensures Expand(a + b) == Expand(a) + Expand(b)
  {
    if a == [] {
      assert a + b == b;
    } else {
      assert (a + b)[1..] == a[1..] + b;
      ExpandAppend(a[1..], b);
    }
  }

  predicate Small(lens: seq<nat>) {
    forall i :: 0 <= i < |lens| ==> lens[i] < U32
  }

  lemma {:induction false} ExpandRleFrom(runs: seq<ShardRun>, cur: ShardRun, lens: seq<nat>)
    requires Small(lens)
    ensures Expand(RleFrom(runs, cur, lens)) == Expand(runs) + Expand([cur]) + lens
    decreases |lens|
  {
    ExpandAppend(runs, [cur]);
    if lens != [] {
      var x := lens[0];
      if x == cur.itemCount {
        ExpandRleFrom(runs, ShardRun(x, cur.repeat + 1), lens[1..]);
        assert Expand([ShardRun(x, cur.repeat + 1)]) == Expand([cur]) + [x];
        Regroup(Expand(runs), Expand([cur]), [x], lens[1..]);
      } else {
        ExpandRleFrom(runs + [cur], ShardRun(x, 1), lens[1..]);
        assert Expand([ShardRun(x, 1)]) == [x];
      }
      assert [x] + lens[1..] == lens;
    }
  }

  lemma Regroup<T>(a: seq<T>, b: seq<T>, c: seq<T>, d: seq<T>)
    ensures a + (b + c) + d == a + b + (c + d)
  {
  }

  /** Expanding the run table gives back exactly the shard lengths. */
  lemma ExpandRle(lens: seq<nat>)
    requires Small(lens)
    ensures Expand(Rle(lens)) == lens
  {
    if lens != [] {
      ExpandRleFrom([], ShardRun(lens[0], 0), lens);
      assert Expand([ShardRun(lens[0], 0)]) == [];
    }
  }

  function Sum(xs: seq<nat>): nat {
    if xs == [] then 0 else xs[0] + Sum(xs[1..])
  }

  lemma {:induction false} ChunkLensSum(total: nat, n: nat)
    requires n >= 1
    ensures Sum(ChunkLens(total, n)) == total
    ensures forall i :: 0 <= i < |ChunkLens(total, n)| ==> 1 <= ChunkLens(total, n)[i] <= Min(n, total)
    decreases total
  {
    if total > 0 {
      ChunkLensSum(total - Min(n, total), n);
    }
  }

  /** All shards but the last are full, and the last one is not empty: so there are just as
      many shards as the items need. */
  lemma {:induction false} ChunkLensExact(total: nat, n: nat, last: nat)
    requires n >= 1 && |ChunkLens(total, n)| == last + 1
    ensures last * n < total <= last * n + n
    ensures forall i :: 0 <= i < last ==> ChunkLens(total, n)[i] == n
    ensures ChunkLens(total, n)[last] == total - last * n
    decreases total
  {
    if total > n {
      ChunkLensExact(total - n, n, last - 1);
      MulNext(last - 1, n);
    } else {
      assert ChunkLens(total, n) == [total] + ChunkLens(0, n);
    }
  }

  lemma MulNext(k: nat, n: nat)
    ensures (k + 1) * n == k * n + n
  {
  }

  /** The run table of a vector, entry by entry: the full shards, then a shorter one if
      something is left. */
  lemma RunTable(total: nat, n: nat, full: nat, rest: nat)
    requires 1 <= n < U32 && total == full * n + rest && rest < n
    ensures Rle(ChunkLens(total, n))
         == (if full > 0 then [ShardRun(n, full)] else []) + (if rest > 0 then [ShardRun(rest, 1)] else [])
  {
    if full > 0 {
      MulMono(1, full, n);
      RunTableFrom([], ShardRun(n, 0), total, n, full, rest);
      assert ChunkLens(total, n)[0] == n;
    } else if rest > 0 {
      OneShard(total, n);
    }
  }

  lemma OneShard(total: nat, n: nat)
    requires 0 < total < n < U32
    ensures Rle(ChunkLens(total, n)) == [ShardRun(total, 1)]
  {
    assert ChunkLens(total, n) == [total] + ChunkLens(0, n);
    assert Rle([total]) == RleFrom([], ShardRun(total, 1), [total][1..]);
  }

  lemma {:induction false} RunTableFrom(
    runs: seq<ShardRun>, cur: ShardRun, total: nat, n: nat, full: nat, rest: nat)
    requires 1 <= n < U32 && cur.itemCount == n && total == full * n + rest && rest < n
    ensures RleFrom(runs, cur, ChunkLens(total, n))
         == runs + [ShardRun(n, cur.repeat + full)] + (if rest > 0 then [ShardRun(rest, 1)] else [])
    decreases full
  {
    if full > 0 {
      MulNext(full - 1, n);
      RunTableFrom(runs, ShardRun(n, cur.repeat + 1), total - n, n, full - 1, rest);
      assert ChunkLens(total, n)[1..] == ChunkLens(total - n, n);
    } else if total > 0 {
      assert ChunkLens(total, n) == [total] + ChunkLens(0, n);
      assert ChunkLens(total, n)[1..] == [];
    }
  }

  /** A vector needs at most two runs: the full shards and the last one. */
  lemma AtMostTwoRuns(total: nat, n: nat)
    requires 1 <= n < U32
    ensures |Rle(ChunkLens(total, n))| <= 2
  {
    RunTable(total, n, total / n, total % n);
  }
}

/** Finding an item: the arithmetic over the run table refines a search over shard lengths. */
module Indexing {
  import opened Wrappers
  import opened Bytes
  import opened Sharding

  /** Searches the shard lengths one by one for the shard that holds item `index`. */
  function Locate(lens: seq<nat>, index: nat): (r: Option<(nat, nat)>)
    ensures r.Some? <==> index < Sum(lens)
    ensures r.Some? ==>
              && r.value.0 < |lens|
              && r.value.1 < lens[r.value.0]
              && Sum(lens[..r.value.0]) + r.value.1 == index
    decreases |lens|
  {
    if lens == [] then None
    else if index < lens[0] then Some((0, index))
    else
      match Locate(lens[1..], index - lens[0])
      case None => None
      case Some((shard, local)) =>
        assert lens[..shard + 1][1..] == lens[1..][..shard];
        Some((shard + 1, local))
  }

  lemma {:induction false} SumPrefix(lens: seq<nat>, a: nat, b: nat)
    requires a <= b <= |lens|
    ensures Sum(lens[..a]) <= Sum(lens[..b])
    ensures a < b ==> Sum(lens[..a]) + lens[a] <= Sum(lens[..b])
    decreases a
  {
    if a > 0 {
      assert lens[..a][1..] == lens[1..][..a - 1] && lens[..b][1..] == lens[1..][..b - 1];
      SumPrefix(lens[1..], a - 1, b - 1);
    } else if b > 0 {
      assert lens[..b][0] == lens[0];
    }
  }

  /** No other shard and local index stand for the same item. */
  lemma LocateUnique(lens: seq<nat>, index: nat, shard: nat, local: nat)
    requires shard < |lens| && local < lens[shard] && Sum(lens[..shard]) + local == index
    ensures Locate(lens, index) == Some((shard, local))
  {
    SumPrefix(lens, shard, |lens|);
    assert lens[..|lens|] == lens;
    SumPrefix(lens, shard, shard + 1);
    SumPrefix(lens, shard + 1, |lens|);
    assert index < Sum(lens) by {
      SumNext(lens, shard);
    }
    var (s, l) := Locate(lens, index).value;
    if s < shard {
      SumPrefix(lens, s, shard);
    } else if shard < s {
      SumPrefix(lens, shard, s);
    }
  }

  lemma {:induction false} SumNext(lens: seq<nat>, a: nat)
    requires a < |lens|
    ensures Sum(lens[..a + 1]) == Sum(lens[..a]) + lens[a]
    decreases a
  {
    if a > 0 {
      assert lens[..a][1..] == lens[1..][..a - 1] && lens[..a + 1][1..] == lens[1..][..a];
      SumNext(lens[1..], a - 1);
    } else {
      assert lens[..1][1..] == [];
    }
  }

  function Shift(skipped: nat, found: Option<(nat, nat)>): Option<(nat, nat)> {
    match found
    case None => None
    case Some((shard, local)) => Some((skipped + shard, local))
  }

  function Uniform(count: nat, repeat: nat): seq<nat> {
    seq(repeat, _ => count)
  }

  lemma UniformStep(count: nat, repeat: nat, more: seq<nat>)
    requires repeat > 0
    ensures Uniform(count, repeat) + more == [count] + (Uniform(count, repeat - 1) + more)
    ensures count * repeat == count + count * (repeat - 1)
  {
  }

  lemma {:induction false} SumRun(count: nat, repeat: nat, more: seq<nat>)
    ensures Sum(Uniform(count, repeat) + more) == count * repeat + Sum(more)
    decreases repeat
  {
    var all := Uniform(count, repeat) + more;
    if repeat == 0 {
      assert all == more;
    } else {
      assert all[1..] == Uniform(count, repeat - 1) + more;
      SumRun(count, repeat - 1, more);
      assert count * repeat == count + count * (repeat - 1);
    }
  }

  /** Items behind the first shards are found among the others. */
  lemma {:induction false} LocatePast(a: seq<nat>, b: seq<nat>, index: nat, past: nat)
    requires index == Sum(a) + past
    ensures Locate(a + b, index) == Shift(|a|, Locate(b, past))
    decreases |a|
  {
    if a == [] {
      assert a + b == b;
    } else {
      var later := index - a[0];
      LocatePast(a[1..], b, later, past);
      assert a + b == [a[0]] + (a[1..] + b);
      LocateSecond(a[0], a[1..] + b, index, later);
      ShiftTwice(1, |a[1..]|, |a|, Locate(b, past));
    }
  }

  lemma LocateSecond(first: nat, tail: seq<nat>, index: nat, later: nat)
    requires index == first + later
    ensures Locate([first] + tail, index) == Shift(1, Locate(tail, later))
  {
    assert ([first] + tail)[1..] == tail;
  }

  /** Items inside a run are found by division. */
  lemma LocateInside(count: nat, repeat: nat, more: seq<nat>, x: nat)
    requires 0 < count && x / count < repeat
    ensures Locate(Uniform(count, repeat) + more, x) == Some((x / count, x % count))
  {
    var all, shard := Uniform(count, repeat) + more, x / count;
    assert all[..shard] == Uniform(count, shard) + [];
    SumRun(count, shard, []);
    LocateUnique(all, x, shard, x % count);
  }

  lemma DivBelow(x: nat, count: nat, repeat: nat)
    requires x < count * repeat
    ensures count > 0 && x / count < repeat
  {
    var q := x / count;
    if q >= repeat {
      MulMono(repeat, q, count);
    }
  }

  /** A run that is long enough holds the item; otherwise it is among the later ones. */
  lemma RunStep(rest: seq<ShardRun>, x: nat, total: nat)
    requires rest != [] && total == rest[0].itemCount * rest[0].repeat
    ensures Sum(Expand(rest)) == total + Sum(Expand(rest[1..]))
    ensures x < total ==>
              && rest[0].itemCount > 0
              && Locate(Expand(rest), x) == Some((x / rest[0].itemCount, x % rest[0].itemCount))
  {
    var count, repeat, more := rest[0].itemCount, rest[0].repeat, Expand(rest[1..]);
    assert Expand(rest) == Uniform(count, repeat) + more;
    SumRun(count, repeat, more);
    if x < total {
      DivBelow(x, count, repeat);
      LocateInside(count, repeat, more, x);
    }
  }

  lemma RunSkip(rest: seq<ShardRun>, x: nat, total: nat, past: nat)
    requires rest != [] && total == rest[0].itemCount * rest[0].repeat && x == total + past
    ensures Locate(Expand(rest), x) == Shift(rest[0].repeat, Locate(Expand(rest[1..]), past))
  {
    var count, repeat, more := rest[0].itemCount, rest[0].repeat, Expand(rest[1..]);
    SumRun(count, repeat, []);
    assert Uniform(count, repeat) + [] == Uniform(count, repeat);
    LocatePast(Uniform(count, repeat), more, x, past);
  }

  lemma ShiftTwice(a: nat, b: nat, both: nat, found: Option<(nat, nat)>)
    requires both == a + b
    ensures Shift(a, Shift(b, found)) == Shift(both, found)
  {
  }

  /** The item sought and the items counted, when the runs before `rest` have been passed and
      `x` more items have to be. */
  predicate Passed(
    found: Option<(nat, nat)>, total: nat, base: nat, shardBase: nat, rest: seq<ShardRun>, x: nat)
  {
    total == base + Sum(Expand(rest)) && found == Shift(shardBase, Locate(Expand(rest), x))
  }

  lemma FoundInRun(
    found: Option<(nat, nat)>, total: nat, base: nat, shardBase: nat, rest: seq<ShardRun>, x: nat, n: nat)
    requires rest != [] && n == RunTotal(rest[0])
    requires Passed(found, total, base, shardBase, rest, x)
    ensures base + n <= total
    ensures x < n ==>
              rest[0].itemCount > 0 && found == Some(InRun(rest[0], shardBase, x))
  {
    RunStep(rest, x, n);
  }

  lemma PassRun(
    found: Option<(nat, nat)>, total: nat, base: nat, shardBase: nat, rest: seq<ShardRun>, x: nat, n: nat,
    base': nat, shardBase': nat, past: nat)
    requires rest != [] && n == RunTotal(rest[0])
    requires Passed(found, total, base, shardBase, rest, x)
    requires x == n + past && base' == base + n && shardBase' == shardBase + rest[0].repeat
    ensures Passed(found, total, base', shardBase', rest[1..], past)
  {
    RunStep(rest, x, n);
    RunSkip(rest, x, n, past);
    ShiftTwice(shardBase, rest[0].repeat, shardBase', Locate(Expand(rest[1..]), past));
  }

  function RunTotal(run: ShardRun): (n: nat)
    ensures n == run.itemCount * run.repeat
  {
    MulMono(0, run.itemCount, run.repeat);
    run.itemCount * run.repeat
  }

  function InRun(run: ShardRun, shardBase: nat, offset: nat): (nat, nat)
    requires run.itemCount > 0
  {
    (shardBase + offset / run.itemCount, offset % run.itemCount)
  }

  /** `resolve_rle_index`. For every run list, empty runs included, and every index: the
      unique shard and local index of the item, or an error exactly when there is no such
      item. Division by zero cannot happen, and 64-bit arithmetic overflows only if the
      table promises more items than a `u64` can count. */
  method ResolveRleIndex(runs: seq<ShardRun>, index: nat) returns (r: Result<(nat, nat)>)
    ensures r == Err(Overflow) ==> Sum(Expand(runs)) >= U64
    ensures r != Err(Overflow) ==>
              r == match Locate(Expand(runs), index) case Some(found) => Ok(found) case None => Err(BadFormat)
  {
    var base: nat, shardBase: nat := 0, 0;
    var rest := runs;
    ghost var total, found := Sum(Expand(runs)), Locate(Expand(runs), index);
    ghost var ahead := index;
    while rest != []
      invariant base <= index && ahead == index - base && Passed(found, total, base, shardBase, rest, ahead)
    {
      var run := rest[0];
      var totalRun := RunTotal(run);
      FoundInRun(found, total, base, shardBase, rest, ahead, totalRun);
      if base + totalRun >= U64 {
        return Err(Overflow);
      }
      if index < base + totalRun {
        return Ok(InRun(run, shardBase, index - base));
      }
      PassRun(found, total, base, shardBase, rest, ahead, totalRun,
              base + totalRun, shardBase + run.repeat, ahead - totalRun);
      ahead := ahead - totalRun;
      base := base + totalRun;
      shardBase := shardBase + run.repeat;
      rest := rest[1..];
    }
    return Err(BadFormat);
  }
}

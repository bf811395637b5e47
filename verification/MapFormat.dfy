/** Reading the tables of a map shard back from its payload. */
module MapFormat {
  import opened Wrappers
  import opened Bytes
  import opened Values
  import Format
  import opened Jobs
  import opened Reader

  /** Where entry `i` starts in the data. */
  function EntryPos(ks: seq<Leaf>, vs: seq<Obj>, i: nat): nat
    requires |ks| == |vs| && i <= |ks|
    decreases i
  {
    if i == 0 then 0 else |EntryBytes(ks[0], vs[0])| + EntryPos(ks[1..], vs[1..], i - 1)
  }

  lemma {:induction false} HashEntry(h: Hash, ks: seq<Leaf>, i: nat)
    requires i < |ks|
    ensures HashTable(h, ks)[i * 8..i * 8 + 8] == LE(h(ks[i]), 8)
    decreases i
  {
    var head, tail := LE(h(ks[0]), 8), HashTable(h, ks[1..]);
    if i > 0 {
      HashEntry(h, ks[1..], i - 1);
      assert (head + tail)[i * 8..i * 8 + 8] == tail[(i - 1) * 8..(i - 1) * 8 + 8];
    }
  }

  lemma {:induction false} OffsetEntry(ks: seq<Leaf>, vs: seq<Obj>, pos: nat, i: nat, at: nat)
    requires |ks| == |vs| && i < |ks| && at == pos + EntryPos(ks, vs, i)
    ensures OffsetTable(ks, vs, pos)[i * 4..i * 4 + 4] == LE(at, 4)
    ensures OffsetsFit(ks, vs, pos) ==> at < U32
    decreases i
  {
    var next := pos + |EntryBytes(ks[0], vs[0])|;
    OffsetUnfold(ks, vs, pos, next, ks[1..], vs[1..]);
    if i > 0 {
      OffsetEntry(ks[1..], vs[1..], next, i - 1, at);
      SkipFirst(LE(pos, 4), OffsetTable(ks[1..], vs[1..], next), i);
    } else {
      FirstFour(LE(pos, 4), OffsetTable(ks[1..], vs[1..], next));
    }
  }

  lemma FirstFour(head: bytes, tail: bytes)
    requires |head| == 4
    ensures (head + tail)[0 * 4..0 * 4 + 4] == head
  {
  }

  lemma SkipFirst(head: bytes, tail: bytes, i: nat)
    requires |head| == 4 && 0 < i && i * 4 <= |tail|
    ensures (head + tail)[i * 4..i * 4 + 4] == tail[(i - 1) * 4..(i - 1) * 4 + 4]
  {
  }

  lemma {:induction false} BlobEntry(ks: seq<Leaf>, vs: seq<Obj>, i: nat)
    requires |ks| == |vs| && i < |ks|
    ensures EntryPos(ks, vs, i) <= |Blob(ks, vs)|
    ensures Blob(ks, vs)[EntryPos(ks, vs, i)..] == EntryBytes(ks[i], vs[i]) + Blob(ks[i + 1..], vs[i + 1..])
    decreases i
  {
    var head, tail := EntryBytes(ks[0], vs[0]), Blob(ks[1..], vs[1..]);
    if i > 0 {
      var j := i - 1;
      BlobEntry(ks[1..], vs[1..], j);
      DropOne(ks, i, j);
      DropOne(vs, i, j);
      DropPast(head, tail, EntryPos(ks[1..], vs[1..], j), EntryPos(ks, vs, i));
    }
  }

  lemma DropOne<T>(s: seq<T>, i: nat, j: nat)
    requires i == j + 1 < |s|
    ensures s[1..][j] == s[i] && s[1..][j + 1..] == s[i + 1..]
  {
  }

  lemma DropPast(a: bytes, b: bytes, n: nat, past: nat)
    requires n <= |b| && past == |a| + n
    ensures (a + b)[past..] == b[n..]
  {
  }

  // --- The assembled payload ---

  /** The tables of a shard, at the places where the readers look for them. */
  lemma ShardTables(p: bytes, c: nat, hashes: bytes, offsets: bytes, blob: bytes)
    requires p == Assemble(c, hashes, offsets, blob) && c < U32 && |hashes| == 8 * c && |offsets| == 4 * c
    ensures |p| == DataStart(c) + |blob|
    ensures FromLE(p[..4]) == c
    ensures p[8..8 + |hashes|] == hashes
    ensures p[8 + c * 8..8 + c * 8 + |offsets|] == offsets
    ensures p[DataStart(c)..] == blob
  {
    Widths();
    FromLERoundTrip(c, 4);
    assert p[..4] == LE(c, 4);
  }

  lemma AssembledHash(p: bytes, c: nat, hashes: bytes, offsets: bytes, blob: bytes, i: nat, n: nat)
    requires p == Assemble(c, hashes, offsets, blob) && i < c < U32 && |hashes| == 8 * c && |offsets| == 4 * c
    requires hashes[i * 8..i * 8 + 8] == LE(n, 8) && n < U64
    ensures 8 + i * 8 + 8 <= |p| && FromLE(p[8 + i * 8..8 + i * 8 + 8]) == n
  {
    ShardTables(p, c, hashes, offsets, blob);
    Format.EntryInside(p, 8, hashes, i * 8, LE(n, 8));
    Widths();
    FromLERoundTrip(n, 8);
  }

  lemma AssembledOffset(p: bytes, c: nat, hashes: bytes, offsets: bytes, blob: bytes, i: nat, n: nat, at: nat)
    requires p == Assemble(c, hashes, offsets, blob) && i < c < U32 && |hashes| == 8 * c && |offsets| == 4 * c
    requires offsets[i * 4..i * 4 + 4] == LE(n, 4) && n < U32 && at == 8 + c * 8 + i * 4
    ensures at + 4 <= |p| && FromLE(p[at..at + 4]) == n
  {
    ShardTables(p, c, hashes, offsets, blob);
    Format.EntryInside(p, 8 + c * 8, offsets, i * 4, LE(n, 4));
    Widths();
    FromLERoundTrip(n, 4);
  }

  lemma AssembledData(p: bytes, c: nat, hashes: bytes, offsets: bytes, blob: bytes, n: nat, data: bytes)
    requires p == Assemble(c, hashes, offsets, blob) && c < U32 && |hashes| == 8 * c && |offsets| == 4 * c
    requires n <= |blob| && blob[n..] == data
    ensures DataStart(c) + n <= |p| && p[DataStart(c) + n..] == data
  {
    ShardTables(p, c, hashes, offsets, blob);
    DropTwice(p, DataStart(c), n);
  }

  lemma DropTwice(p: bytes, a: nat, b: nat)
    requires a + b <= |p|
    ensures p[a..][b..] == p[a + b..]
  {
  }

  // --- A written shard ---

  /** `p` is the payload of the non-empty shard with these entries. */
  ghost predicate IsShard(h: Hash, ks: seq<Leaf>, vs: seq<Obj>, p: bytes) {
    0 < |ks| == |vs| && MapShardBytes(h, ks, vs) == Ok(p)
  }

  lemma ShardHeader(h: Hash, ks: seq<Leaf>, vs: seq<Obj>, p: bytes)
    requires IsShard(h, ks, vs, p)
    ensures |ks| < U32 && FromLE(p[..4]) == |ks|
    ensures 8 + |ks| * 8 <= DataStart(|ks|) <= |p|
  {
    ShardTables(p, |ks|, HashTable(h, ks), OffsetTable(ks, vs, 0), Blob(ks, vs));
  }

  /** The stored hash of entry `i`. */
  lemma ShardHash(h: Hash, ks: seq<Leaf>, vs: seq<Obj>, p: bytes, i: nat)
    requires IsShard(h, ks, vs, p) && i < |ks|
    ensures 8 + i * 8 + 8 <= |p| && FromLE(p[8 + i * 8..8 + i * 8 + 8]) == h(ks[i])
  {
    HashEntry(h, ks, i);
    AssembledHash(p, |ks|, HashTable(h, ks), OffsetTable(ks, vs, 0), Blob(ks, vs), i, h(ks[i]));
  }

  /** The stored offset of entry `i`. */
  lemma ShardOffset(h: Hash, ks: seq<Leaf>, vs: seq<Obj>, p: bytes, i: nat, at: nat)
    requires IsShard(h, ks, vs, p) && i < |ks| && at == 8 + |ks| * 8 + i * 4
    ensures at + 4 <= |p| && FromLE(p[at..at + 4]) == EntryPos(ks, vs, i)
  {
    OffsetEntry(ks, vs, 0, i, EntryPos(ks, vs, i));
    AssembledOffset(p, |ks|, HashTable(h, ks), OffsetTable(ks, vs, 0), Blob(ks, vs), i, EntryPos(ks, vs, i), at);
  }

  lemma ShardRest(h: Hash, ks: seq<Leaf>, vs: seq<Obj>, p: bytes, i: nat, from: nat)
    requires IsShard(h, ks, vs, p) && i < |ks| && from == DataStart(|ks|) + EntryPos(ks, vs, i)
    ensures from <= |p| && p[from..] == EntryBytes(ks[i], vs[i]) + Blob(ks[i + 1..], vs[i + 1..])
  {
    BlobEntry(ks, vs, i);
    AssembledData(p, |ks|, HashTable(h, ks), OffsetTable(ks, vs, 0), Blob(ks, vs), EntryPos(ks, vs, i),
                  EntryBytes(ks[i], vs[i]) + Blob(ks[i + 1..], vs[i + 1..]));
  }

  /** The offset stored at `at` leads to the data at `from`. */
  ghost predicate EntryAt(p: bytes, count: nat, at: nat, from: nat, data: bytes) {
    && at + 4 <= |p|
    && from == DataStart(count) + FromLE(p[at..at + 4])
    && from <= |p|
    && p[from..] == data
  }

  lemma ShardEntryAt(h: Hash, ks: seq<Leaf>, vs: seq<Obj>, p: bytes, i: nat, at: nat, from: nat)
    requires IsShard(h, ks, vs, p) && i < |ks|
    requires at == 8 + |ks| * 8 + i * 4 && from == DataStart(|ks|) + EntryPos(ks, vs, i)
    ensures EntryAt(p, |ks|, at, from, EntryBytes(ks[i], vs[i]) + Blob(ks[i + 1..], vs[i + 1..]))
  {
    ShardOffset(h, ks, vs, p, i, at);
    ShardRest(h, ks, vs, p, i, from);
  }

  lemma EntryDataAt(p: bytes, count: nat, i: nat, at: nat, from: nat, data: bytes)
    requires i < count && DataStart(count) <= |p| && at == 8 + count * 8 + i * 4 && EntryAt(p, count, at, from, data)
    ensures EntryData(p, count, i) == Ok(data)
  {
  }

  /** The data found through the stored offset of entry `i`. */
  lemma ShardEntry(h: Hash, ks: seq<Leaf>, vs: seq<Obj>, p: bytes, i: nat)
    requires IsShard(h, ks, vs, p) && i < |ks|
    ensures DataStart(|ks|) <= |p|
    ensures EntryData(p, |ks|, i) == Ok(EntryBytes(ks[i], vs[i]) + Blob(ks[i + 1..], vs[i + 1..]))
  {
    var at, from := 8 + |ks| * 8 + i * 4, DataStart(|ks|) + EntryPos(ks, vs, i);
    ShardHeader(h, ks, vs, p);
    ShardEntryAt(h, ks, vs, p, i, at, from);
    EntryDataAt(p, |ks|, i, at, from, EntryBytes(ks[i], vs[i]) + Blob(ks[i + 1..], vs[i + 1..]));
  }
}

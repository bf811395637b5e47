/** The format byte by byte, in figures: integers are written out as their single bytes, and
    every position, tag and limit as a number. */
module Layout {
  import opened Wrappers
  import opened Bytes
  import opened Format
  import opened FileHeader
  import opened Values
  import opened Bincode
    import opened Jobs
  import opened MapFormat
  import opened EndToEnd
  import Protocol

  // --- Integers ---

  /** The low 32 bits of `n`, least significant byte first. */
  function Four(n: nat): (bs: bytes) {
    [n % 256, n / 256 % 256, n / 65536 % 256, n / 16777216 % 256]
  }

  function Eight(n: nat): (bs: bytes) {
    Four(n) + Four(n / 4294967296)
  }

  function FourAt(bs: bytes, at: nat): nat
    requires at + 4 <= |bs|
  {
    bs[at] as nat + 256 * bs[at + 1] as nat + 65536 * bs[at + 2] as nat + 16777216 * bs[at + 3] as nat
  }

  function EightAt(bs: bytes, at: nat): nat
    requires at + 8 <= |bs|
  {
    FourAt(bs, at) + 4294967296 * FourAt(bs, at + 4)
  }

  lemma WriteFour(n: nat)
    ensures LE(n, 4) == Four(n)
  {
    var a, b, c := n / 256, n / 65536, n / 16777216;
    assert a / 256 == b && b / 256 == c;
    assert LE(n, 4) == [n % 256] + LE(a, 3);
    assert LE(a, 3) == [a % 256] + LE(b, 2);
    assert LE(b, 2) == [b % 256] + LE(c, 1);
    assert LE(c, 1) == [c % 256] + LE(c / 256, 0);
  }

  lemma WriteEight(n: nat)
    ensures LE(n, 8) == Eight(n)
  {
    var a, b, c, d := n / 256, n / 65536, n / 16777216, n / 4294967296;
    assert a / 256 == b && b / 256 == c && c / 256 == d;
    assert LE(n, 8) == [n % 256] + LE(a, 7);
    assert LE(a, 7) == [a % 256] + LE(b, 6);
    assert LE(b, 6) == [b % 256] + LE(c, 5);
    assert LE(c, 5) == [c % 256] + LE(d, 4);
    WriteFour(d);
  }

  lemma ReadFour(bs: bytes, at: nat)
    requires at + 4 <= |bs|
    ensures FromLE(bs[at..at + 4]) == FourAt(bs, at)
  {
    FromFour(bs[at..at + 4]);
  }

  lemma FromFour(s: bytes)
    requires |s| == 4
    ensures FromLE(s) == FourAt(s, 0)
  {
    assert s[1..][1..] == s[2..] && s[2..][1..] == s[3..] && s[3..][1..] == [];
    assert FromLE(s[3..]) == s[3] as nat;
    assert FromLE(s[2..]) == s[2] as nat + 256 * FromLE(s[3..]);
    assert FromLE(s[1..]) == s[1] as nat + 256 * FromLE(s[2..]);
  }

  lemma ReadEight(bs: bytes, at: nat)
    requires at + 8 <= |bs|
    ensures FromLE(bs[at..at + 8]) == EightAt(bs, at)
  {
    var s := bs[at..at + 8];
    assert s == bs[at..at + 4] + bs[at + 4..at + 8];
    FromSplit(bs[at..at + 4], bs[at + 4..at + 8]);
    Widths();
    ReadFour(bs, at);
    ReadFour(bs, at + 4);
  }

  lemma {:induction false} FromSplit(a: bytes, b: bytes)
    ensures FromLE(a + b) == FromLE(a) + Pow256(|a|) * FromLE(b)
  {
    if a == [] {
      assert a + b == b;
    } else {
      assert (a + b)[1..] == a[1..] + b;
      FromSplit(a[1..], b);
      ShiftByte(a[0], FromLE(a[1..]), Pow256(|a[1..]|), FromLE(b));
    }
  }

  lemma ShiftByte(low: nat, high: nat, p: nat, x: nat)
    ensures low + 256 * (high + p * x) == low + 256 * high + 256 * p * x
  {
  }

  // --- The global header ---

  /** A file ends in `PAR4`, version 4, the extent of the root chunk, and four zero bytes. */
  lemma HeaderBytes(root: ChildRef)
    ensures Header(root)
         == [0x50, 0x41, 0x52, 0x34, 4, 0] + Eight(root.offset) + Eight(root.length) + [0, 0, 0, 0]
  {
    WriteEight(root.offset);
    WriteEight(root.length);
    WriteFour(0);
    assert LE(4, 2) == [4] + LE(0, 1) && LE(0, 1) == [0] + LE(0, 0);
    assert MAGIC + LE(VERSION, 2) == [0x50, 0x41, 0x52, 0x34, 4, 0];
  }

  /** The last 26 bytes of every written file; in front of them are the chunks alone. */
  lemma WrittenTail(w: Options, o: Obj, sched: Protocol.Schedule)
    requires OptionsOk(w) && Succeeds(w, o, sched)
    ensures var s := Protocol.Exec(Setup(w, o), sched);
      Saved(w, o, sched) == s.out + [0x50, 0x41, 0x52, 0x34, 4, 0]
                            + Eight(s.root.value.offset) + Eight(s.root.value.length) + [0, 0, 0, 0]
  {
    var s := Protocol.Exec(Setup(w, o), sched);
    HeaderBytes(s.root.value);
    AssocFour(s.out, [0x50, 0x41, 0x52, 0x34, 4, 0], Eight(s.root.value.offset), Eight(s.root.value.length),
              [0, 0, 0, 0]);
  }

  lemma AssocFour(a: bytes, b: bytes, c: bytes, d: bytes, e: bytes)
    ensures a + (b + c + d + e) == a + b + c + d + e
  {
  }

  /** Opening succeeds exactly on at least 26 bytes whose tail starts with `PAR4` and version
      4; the root extent is then read from the bytes behind, and nothing else matters. */
  lemma OpenExact(data: bytes, reg: Registry)
    ensures Open(data, reg).Ok?
       <==> |data| >= 26 && data[|data| - 26..|data| - 20] == [0x50, 0x41, 0x52, 0x34, 4, 0]
    ensures Open(data, reg).Ok? ==>
              Open(data, reg).value
              == File(data, ChildRef(EightAt(data, |data| - 20), EightAt(data, |data| - 12)), reg)
    ensures Open(data, reg).Err? ==> Open(data, reg) == Err(BadFormat)
  {
    if |data| >= 26 {
      var h := data[|data| - 26..];
      TailFields(data, h);
      VersionIs(h[4..6]);
      assert h[0..6] == h[0..4] + h[4..6];
      SplitSix(h[0..4], h[4..6]);
    }
  }

  lemma TailFields(data: bytes, h: bytes)
    requires |data| >= 26 && h == data[|data| - 26..]
    ensures data[|data| - 26..|data| - 20] == h[0..6]
    ensures FromLE(h[6..14]) == EightAt(data, |data| - 20) && FromLE(h[14..22]) == EightAt(data, |data| - 12)
  {
    assert h[6..14] == data[|data| - 20..|data| - 12] && h[14..22] == data[|data| - 12..|data| - 4];
    ReadEight(data, |data| - 20);
    ReadEight(data, |data| - 12);
  }

  lemma VersionIs(v: bytes)
    requires |v| == 2
    ensures FromLE(v) == 4 <==> v == [4, 0]
  {
    assert v[1..][1..] == [];
    assert FromLE(v[1..]) == v[1] as nat;
  }

  lemma SplitSix(a: bytes, b: bytes)
    requires |a| == 4 && |b| == 2
    ensures a + b == [0x50, 0x41, 0x52, 0x34, 4, 0] <==> a == [0x50, 0x41, 0x52, 0x34] && b == [4, 0]
  {
    var six: bytes := [0x50, 0x41, 0x52, 0x34, 4, 0];
    if a + b == six {
      assert a == six[..4] && b == six[4..];
    }
  }

  // --- Chunks ---

  /** Bit 0 of the last byte tells whether there are children, bits 1 to 3 name the compressor,
      and the others are written as zero and not looked at. */
  lemma MetaBits(chunkable: bool, id: nat, bit: nat, algo: nat, high: nat)
    requires bit < 2 && algo < 8 && high < 16
    ensures id < 8 ==> MetaByte(chunkable, id) == (if chunkable then 1 else 0) + 2 * id
    ensures id >= 8 ==> MetaByte(chunkable, id) == MetaByte(chunkable, id - 8)
    ensures IsChunkable(bit + 2 * algo + 16 * high) <==> bit == 1
    ensures CompressionMethod(bit + 2 * algo + 16 * high) == algo
  {
  }

  /** A chunk: the payload, 16 bytes for each child, their number in four, and the last byte.
      Without children, the payload and the last byte. */
  lemma FrameBytes(packed: bytes, refs: seq<ChildRef>, id: nat)
    requires |refs| < 4294967296 && id < 8
    ensures if refs == [] then Frame(packed, refs, id) == packed + [2 * id]
            else Frame(packed, refs, id) == packed + (RefsBytes(refs) + Four(|refs|)) + [1 + 2 * id]
    ensures |RefsBytes(refs)| == 16 * |refs|
  {
    MetaBits(refs != [], id, 0, 0, 0);
    if refs == [] {
      Leaf(packed, id);
    } else {
      FooterIs(refs);
    }
  }

  lemma Leaf(packed: bytes, id: nat)
    requires id < 8
    ensures Frame(packed, [], id) == packed + [2 * id]
  {
    assert packed + [] == packed;
  }

  lemma FooterIs(refs: seq<ChildRef>)
    requires 0 < |refs| < 4294967296
    ensures Footer(refs) == RefsBytes(refs) + Four(|refs|)
  {
    WriteFour(|refs|);
  }

  /** The table: for each child its offset and its length, in eight bytes each. */
  lemma {:induction false} TableBytes(refs: seq<ChildRef>, i: nat, from: nat, to: nat)
    requires i < |refs| && from == 16 * i && to == from + 16
    ensures |RefsBytes(refs)| == 16 * |refs|
    ensures RefsBytes(refs)[from..to] == Eight(refs[i].offset) + Eight(refs[i].length)
  {
    RefsBytesAt(refs, i);
    WriteEight(refs[i].offset);
    WriteEight(refs[i].length);
  }

  /** On arbitrary bytes, an extent is a chunk exactly if it is not empty, lies in the file, and
      has room for the children table that its last byte and the count in front of it promise. */
  lemma GetChunkExact(f: File, offset: nat, length: nat)
    requires offset + length < 18446744073709551616
    ensures var end, r := offset + length, GetChunk(f, offset, length);
      if end > |f.data| then r == Err(BadFormat)
      else if end == 0 then r == Err(Overflow)
      else if f.data[end - 1] % 2 == 0 then
        r == if length == 0 then Err(Overflow) else Ok(ChunkNode(offset, length, f.data[end - 1], 0, end - 1))
      else if length < 5 || length < 5 + 16 * FourAt(f.data, end - 5) then r == Err(BadFormat)
      else
        var count := FourAt(f.data, end - 5);
        r == Ok(ChunkNode(offset, length, f.data[end - 1], count, end - 5 - 16 * count))
  {
    if length >= 5 && offset + length <= |f.data| {
      ReadFour(f.data, offset + length - 5);
    }
  }

  /** The `i`-th entry of a children table, on arbitrary bytes. */
  lemma RefAtExact(f: File, n: ChunkNode, i: nat)
    ensures RefAt(f, n, i)
         == if i >= n.childCount || n.payloadEnd + 16 * i + 16 > |f.data| then Err(BadFormat)
            else Ok(ChildRef(EightAt(f.data, n.payloadEnd + 16 * i), EightAt(f.data, n.payloadEnd + 16 * i + 8)))
  {
    var at := n.payloadEnd + 16 * i;
    if i < n.childCount && at + 16 <= |f.data| {
      var bs := f.data[at..at + 16];
      assert bs[0..8] == f.data[at..at + 8] && bs[8..16] == f.data[at + 8..at + 8 + 8];
      ReadEight(f.data, at);
      ReadEight(f.data, at + 8);
    }
  }

  /** A payload is read with the compressor that bits 1 to 3 of the last byte name; it fails if
      the payload lies outside the file, if the registry lacks the compressor, or if that
      refuses the bytes. */
  lemma ReadRawExact(f: File, n: ChunkNode, algo: nat)
    requires algo == n.meta / 2 % 8
    ensures ReadRaw(f, n)
         == if n.offset > n.payloadEnd || n.payloadEnd > |f.data| then Err(BadFormat)
            else if algo >= |f.reg| || f.reg[algo].None? then Err(NotRegistered)
            else
              match f.reg[algo].value.decompress(f.data[n.offset..n.payloadEnd])
              case Some(p) => Ok(p)
              case None => Err(CompressionFailed)
  {
  }

  // --- Integers of the codec ---

  /** One byte up to 250; then a tag and two, four or eight bytes. */
  lemma UintBytes(n: nat)
    ensures EncUint(n)
         == if n <= 250 then [n]
            else if n < 65536 then [251, n % 256, n / 256]
            else if n < 4294967296 then [252] + Four(n)
            else [253] + Eight(n)
  {
    WriteFour(n);
    WriteEight(n);
    assert LE(n, 2) == [n % 256] + LE(n / 256, 1);
    assert LE(n / 256, 1) == [n / 256 % 256] + LE(n / 256 / 256, 0);
  }

  /** On arbitrary bytes: the tags 251 to 253 announce two, four and eight bytes, the last one
      only where 64 bits are wanted; nothing else starts an integer. Longer forms than needed
      are accepted. */
  lemma DecUintExact(bs: bytes, wide: bool)
    ensures var r := DecUint(bs, wide);
      if bs == [] then r == Err(BadEncoding)
      else if bs[0] <= 250 then r == Ok((bs[0], bs[1..]))
      else if bs[0] == 251 && |bs| >= 3 then r == Ok((bs[1] as nat + 256 * bs[2] as nat, bs[3..]))
      else if bs[0] == 252 && |bs| >= 5 then r == Ok((FourAt(bs, 1), bs[5..]))
      else if bs[0] == 253 && wide && |bs| >= 9 then r == Ok((EightAt(bs, 1), bs[9..]))
      else r == Err(BadEncoding)
  {
    if bs != [] {
      var t := bs[1..];
      if |bs| >= 3 {
        assert t[..2] == bs[1..3] && t[2..] == bs[3..];
        FromTwo(bs[1..3]);
      }
      if |bs| >= 5 {
        assert t[..4] == bs[1..1 + 4] && t[4..] == bs[5..];
        ReadFour(bs, 1);
      }
      if |bs| >= 9 {
        assert t[..8] == bs[1..1 + 8] && t[8..] == bs[9..];
        ReadEight(bs, 1);
      }
    }
  }

  lemma FromTwo(s: bytes)
    requires |s| == 2
    ensures FromLE(s) == s[0] as nat + 256 * s[1] as nat
  {
    assert s[1..][1..] == [];
    assert FromLE(s[1..]) == s[1] as nat;
  }

  // --- Map shards ---

  /** A shard that is not empty: the number of entries, four zero bytes, twelve bytes of tables
      for each entry, then the entries themselves. */
  lemma ShardBytes(h: Hash, ks: seq<Leaf>, vs: seq<Obj>, p: bytes)
    requires IsShard(h, ks, vs, p)
    ensures |p| == 8 + 12 * |ks| + |Blob(ks, vs)|
    ensures p[..8] == Four(|ks|) + [0, 0, 0, 0]
    ensures p[8 + 12 * |ks|..] == Blob(ks, vs)
  {
    ShardTables(p, |ks|, HashTable(h, ks), OffsetTable(ks, vs, 0), Blob(ks, vs));
    ShardStart(p, |ks|, HashTable(h, ks), OffsetTable(ks, vs, 0), Blob(ks, vs));
    WriteFour(|ks|);
  }

  /** The tables: every hash in eight bytes. */
  lemma ShardHashBytes(h: Hash, ks: seq<Leaf>, vs: seq<Obj>, p: bytes, i: nat, from: nat, to: nat)
    requires IsShard(h, ks, vs, p) && i < |ks| && from == 8 + 8 * i && to == from + 8
    ensures to <= |p| && p[from..to] == Eight(h(ks[i]))
  {
    HashEntry(h, ks, i);
    WriteEight(h(ks[i]));
    HashSlice(p, |ks|, HashTable(h, ks), OffsetTable(ks, vs, 0), Blob(ks, vs), i, LE(h(ks[i]), 8), from, to);
  }

  lemma HashSlice(
    p: bytes, c: nat, hashes: bytes, offsets: bytes, blob: bytes, i: nat, entry: bytes, from: nat, to: nat)
    requires p == Assemble(c, hashes, offsets, blob) && |hashes| == 8 * c && i < c
    requires hashes[i * 8..i * 8 + 8] == entry && from == 8 + i * 8 && to == from + 8
    ensures to <= |p| && p[from..to] == entry
  {
    assert |LE(c, 4) + [0, 0, 0, 0]| == 8;
    SliceInside(LE(c, 4) + [0, 0, 0, 0], hashes, offsets + blob, i * 8, from, to);
    Assoc(LE(c, 4) + [0, 0, 0, 0] + hashes, offsets, blob);
  }

  /** Behind them, every offset in four. */
  lemma ShardOffsetBytes(h: Hash, ks: seq<Leaf>, vs: seq<Obj>, p: bytes, i: nat, from: nat, to: nat)
    requires IsShard(h, ks, vs, p) && i < |ks| && from == 8 + 8 * |ks| + 4 * i && to == from + 4
    ensures to <= |p| && p[from..to] == Four(EntryPos(ks, vs, i))
  {
    OffsetEntry(ks, vs, 0, i, EntryPos(ks, vs, i));
    WriteFour(EntryPos(ks, vs, i));
    OffsetSlice(p, |ks|, HashTable(h, ks), OffsetTable(ks, vs, 0), Blob(ks, vs), i,
                LE(EntryPos(ks, vs, i), 4), from, to);
  }

  lemma OffsetSlice(
    p: bytes, c: nat, hashes: bytes, offsets: bytes, blob: bytes, i: nat, entry: bytes, from: nat, to: nat)
    requires p == Assemble(c, hashes, offsets, blob) && |hashes| == 8 * c && |offsets| == 4 * c && i < c
    requires offsets[i * 4..i * 4 + 4] == entry && from == 8 + 8 * c + i * 4 && to == from + 4
    ensures to <= |p| && p[from..to] == entry
  {
    assert |LE(c, 4) + [0, 0, 0, 0] + hashes| == 8 + 8 * c;
    SliceInside(LE(c, 4) + [0, 0, 0, 0] + hashes, offsets, blob, i * 4, from, to);
  }

  lemma SliceInside(a: bytes, b: bytes, c: bytes, at: nat, from: nat, to: nat)
    requires from == |a| + at && from <= to && to - |a| <= |b|
    ensures to <= |a + b + c| && (a + b + c)[from..to] == b[at..to - |a|]
  {
  }

  lemma ShardStart(p: bytes, c: nat, hashes: bytes, offsets: bytes, blob: bytes)
    requires p == Assemble(c, hashes, offsets, blob)
    ensures |p| >= 8 && p[..8] == LE(c, 4) + [0, 0, 0, 0]
  {
    var head := LE(c, 4) + [0, 0, 0, 0];
    assert p == head + (hashes + offsets + blob);
  }

  /** Writing a shard fails exactly if an entry starts at or past 4 GB, or there are 2^32 of
      them. */
  lemma ShardFails(h: Hash, ks: seq<Leaf>, vs: seq<Obj>)
    requires |ks| == |vs|
    ensures MapShardBytes(h, ks, vs).Err?
       <==> |ks| >= 4294967296 || exists i :: 0 <= i < |ks| && EntryPos(ks, vs, i) >= 4294967296
    ensures MapShardBytes(h, ks, vs).Err? ==> MapShardBytes(h, ks, vs) == Err(BadEncoding)
  {
    FitExactly(ks, vs, 0);
  }

  lemma {:induction false} FitExactly(ks: seq<Leaf>, vs: seq<Obj>, pos: nat)
    requires |ks| == |vs|
    ensures OffsetsFit(ks, vs, pos) <==> forall i :: 0 <= i < |ks| ==> pos + EntryPos(ks, vs, i) < 4294967296
    decreases |ks|
  {
    if ks != [] {
      var next := pos + |EntryBytes(ks[0], vs[0])|;
      FitExactly(ks[1..], vs[1..], next);
      OffsetUnfold(ks, vs, pos, next, ks[1..], vs[1..]);
      forall i | 0 <= i < |ks|
        ensures EntryPos(ks, vs, i) == if i == 0 then 0 else next - pos + EntryPos(ks[1..], vs[1..], i - 1)
      {
      }
      if OffsetsFit(ks[1..], vs[1..], next) && pos < U32 {
        forall i | 0 <= i < |ks|
          ensures pos + EntryPos(ks, vs, i) < 4294967296
        {
          assert i > 0 ==> next + EntryPos(ks[1..], vs[1..], i - 1) < 4294967296;
        }
      } else if pos < U32 {
        var j :| 0 <= j < |ks[1..]| && next + EntryPos(ks[1..], vs[1..], j) >= 4294967296;
        assert pos + EntryPos(ks, vs, j + 1) >= 4294967296;
      } else {
        assert pos + EntryPos(ks, vs, 0) >= 4294967296;
      }
    }
  }
}

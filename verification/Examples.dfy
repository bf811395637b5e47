/** Concrete payloads, and one whole file, byte by byte. */
module Examples {
  import opened Wrappers
  import opened Bytes
  import opened Format
  import opened Values
  import opened Bincode
  import opened Sharding
  import opened Jobs
  import opened Trees
  import opened Layout
  import opened Shape
  import opened Protocol
  import opened Invariant
  import opened Stored
  import opened Accounting
  import opened EndToEnd
  import opened Compression

  // --- Payloads ---

  /** The job's payload is `bs`. */
  predicate Writes(h: Hash, job: Job, bs: bytes) {
    Execute(h, job).Ok? && Execute(h, job).value == bs
  }

  /** Local fields in declaration order, without the remote one. */
  lemma StructPayload(h: Hash)
    ensures Writes(h, StructJob([OLeaf(Byte(7)), OLeaf(Num(300)), OLeaf(Num(1)), OLeaf(Text([72, 105]))],
                                [None, None, Some(Attr(1, false)), None]),
                   [7, 251, 44, 1, 2, 72, 105])
  {
    var a, b, c, d := OLeaf(Byte(7)), OLeaf(Num(300)), OLeaf(Num(1)), OLeaf(Text([72, 105]));
    UintBytes(300);
    assert EncLocals([d], [None]) == [2, 72, 105] + EncLocals([], []);
    assert EncLocals([c, d], [Some(Attr(1, false)), None]) == [] + EncLocals([d], [None]);
    assert EncLocals([b, c, d], [None, Some(Attr(1, false)), None])
        == [251, 44, 1] + EncLocals([c, d], [Some(Attr(1, false)), None]);
    assert EncLocals([a, b, c, d], [None, None, Some(Attr(1, false)), None])
        == [7] + EncLocals([b, c, d], [None, Some(Attr(1, false)), None]);
  }

  /** A vector of 19 items in shards of 8, 8 and 3. */
  lemma ContainerPayload(h: Hash)
    ensures Writes(h, VecContainerJob([ShardRun(8, 2), ShardRun(3, 1)], 19), [19, 0, 0, 0, 0, 0, 0, 0, 2, 8, 2, 3, 1])
  {
    WriteEight(19);
    assert LE(19, 8) == [19, 0, 0, 0, 0, 0, 0, 0];
    assert EncRunList([ShardRun(3, 1)]) == ([3] + [1]) + EncRunList([]);
    assert EncRunList([ShardRun(8, 2), ShardRun(3, 1)]) == ([8] + [2]) + EncRunList([ShardRun(3, 1)]);
    assert EncRuns([ShardRun(8, 2), ShardRun(3, 1)]) == [2, 8, 2, 3, 1];
  }

  /** A shard of two items. */
  lemma ShardPayload(h: Hash)
    ensures Writes(h, VecShardJob([OLeaf(Num(5)), OLeaf(Num(70000))]), [2, 5, 252, 112, 17, 1, 0])
  {
    UintBytes(70000);
    TwoItems(OLeaf(Num(5)), OLeaf(Num(70000)), [5], [252, 112, 17, 1, 0]);
    assert [2] + [5, 252, 112, 17, 1, 0] == [2, 5, 252, 112, 17, 1, 0];
  }

  lemma TwoItems(a: Obj, b: Obj, x: bytes, y: bytes)
    requires Shallow(a) == x && Shallow(b) == y
    ensures ShallowAll([a, b]) == x + y
  {
    assert ShallowAll([b]) == y + ShallowAll([]);
    assert ShallowAll([a, b]) == x + ShallowAll([b]);
  }

  /** A map of 5 buckets, and one of them with two entries whose hashes are 258 and 3. */
  lemma MapPayloads(h: Hash)
    requires h(Byte(1)) == 258 && h(Byte(2)) == 3
    ensures Writes(h, MapContainerJob(5), [5, 0, 0, 0])
    ensures Writes(h, MapShardJob([Byte(1), Byte(2)], [OLeaf(Byte(10)), OLeaf(Byte(20))]),
                   [2, 0, 0, 0, 0, 0, 0, 0]
                   + ([2, 1, 0, 0, 0, 0, 0, 0] + [3, 0, 0, 0, 0, 0, 0, 0])
                   + [0, 0, 0, 0, 2, 0, 0, 0]
                   + [1, 10, 2, 20])
  {
    SmallFour(5);
    TwoHashes(h);
    TwoEntries();
    AssembleTwo([2, 1, 0, 0, 0, 0, 0, 0] + [3, 0, 0, 0, 0, 0, 0, 0], [0, 0, 0, 0, 2, 0, 0, 0], [1, 10, 2, 20]);
  }

  lemma SmallFour(n: nat)
    requires n < 256
    ensures LE(n, 4) == [n, 0, 0, 0]
  {
    WriteFour(n);
  }

  lemma SmallEight(n: nat, low: nat, high: nat)
    requires low < 256 && high < 256 && n == low + 256 * high
    ensures LE(n, 8) == [low, high, 0, 0, 0, 0, 0, 0]
  {
    assert n % 256 == low && n / 256 == high && n / 4294967296 == 0;
    WriteEight(n);
  }

  lemma TwoHashes(h: Hash)
    requires h(Byte(1)) == 258 && h(Byte(2)) == 3
    ensures HashTable(h, [Byte(1), Byte(2)]) == [2, 1, 0, 0, 0, 0, 0, 0] + [3, 0, 0, 0, 0, 0, 0, 0]
  {
    SmallEight(h(Byte(1)), 2, 1);
    SmallEight(h(Byte(2)), 3, 0);
    TwoKeys(h, Byte(1), Byte(2), [2, 1, 0, 0, 0, 0, 0, 0], [3, 0, 0, 0, 0, 0, 0, 0]);
  }

  lemma TwoKeys(h: Hash, a: Leaf, b: Leaf, x: bytes, y: bytes)
    requires LE(h(a), 8) == x && LE(h(b), 8) == y
    ensures HashTable(h, [a, b]) == x + y
  {
    assert HashTable(h, [b]) == y + HashTable(h, []);
    assert HashTable(h, [a, b]) == x + HashTable(h, [b]);
  }

  lemma AssembleTwo(hashes: bytes, offsets: bytes, blob: bytes)
    ensures Assemble(2, hashes, offsets, blob) == [2, 0, 0, 0, 0, 0, 0, 0] + hashes + offsets + blob
  {
    SmallFour(2);
    assert [2, 0, 0, 0] + [0, 0, 0, 0] == [2, 0, 0, 0, 0, 0, 0, 0];
  }

  lemma TwoEntries()
    ensures var ks, vs := [Byte(1), Byte(2)], [OLeaf(Byte(10)), OLeaf(Byte(20))];
      && OffsetTable(ks, vs, 0) == [0, 0, 0, 0, 2, 0, 0, 0]
      && Blob(ks, vs) == [1, 10, 2, 20]
      && OffsetsFit(ks, vs, 0)
  {
    var a, b, x, y := Byte(1), Byte(2), OLeaf(Byte(10)), OLeaf(Byte(20));
    SmallFour(0);
    SmallFour(2);
    assert EntryBytes(a, x) == [1, 10] && EntryBytes(b, y) == [2, 20];
    assert OffsetTable([b], [y], 2) == LE(2, 4) + OffsetTable([], [], 4);
    assert OffsetTable([a, b], [x, y], 0) == LE(0, 4) + OffsetTable([b], [y], 2);
    assert Blob([b], [y]) == [2, 20] + Blob([], []);
    assert Blob([a, b], [x, y]) == [1, 10] + Blob([b], [y]);
    assert OffsetsFit([b], [y], 2) && OffsetsFit([a, b], [x, y], 0);
  }

  /** A map that is not in map mode: one blob of its number of entries and the pairs. */
  lemma BlobPayload(h: Hash)
    ensures Writes(h, PrimitiveJob(OMap([Byte(1), Byte(2)], [OLeaf(Num(3)), OLeaf(Num(251))])),
                   [2, 1, 3, 2, 251, 251, 0])
  {
    UintBytes(251);
    assert EncPairs([Byte(2)], [OLeaf(Num(251))]) == ([2] + [251, 251, 0]) + EncPairs([], []);
    assert EncPairs([Byte(1), Byte(2)], [OLeaf(Num(3)), OLeaf(Num(251))])
        == ([1] + [3]) + EncPairs([Byte(2)], [OLeaf(Num(251))]);
  }

  /** A chunk with one child at offset 258 and of length 3, made with compressor 1. */
  lemma FramedChunk()
    ensures Frame([9], [ChildRef(258, 3)], 1)
         == [9] + ([2, 1, 0, 0, 0, 0, 0, 0] + [3, 0, 0, 0, 0, 0, 0, 0] + [1, 0, 0, 0]) + [3]
  {
    SmallEight(258, 2, 1);
    SmallEight(3, 3, 0);
    SmallFour(1);
    OneRef(ChildRef(258, 3));
    assert Footer([ChildRef(258, 3)]) == RefBytes(ChildRef(258, 3)) + [1, 0, 0, 0];
  }

  lemma OneRef(r: ChildRef)
    ensures RefsBytes([r]) == RefBytes(r)
  {
    assert RefsBytes([r]) == RefBytes(r) + RefsBytes([]);
  }

  // --- Files ---

  /** An object without chunks of its own below it makes a file of one chunk: its packed
      payload, the last byte, and the header. */
  lemma OneChunkFile(w: Options, o: Obj, sched: Schedule, packed: bytes, id: nat)
    requires OptionsOk(w) && Succeeds(w, o, sched) && RootTree(w, o).children == []
    requires Pack(Setup(w, o), 0) == Ok((packed, id)) && id < 8
    ensures Saved(w, o, sched)
         == packed + [2 * id] + [0x50, 0x41, 0x52, 0x34, 4, 0] + Eight(0) + Eight(|packed| + 1) + [0, 0, 0, 0]
  {
    RunIsComplete(w, o, sched);
    PlacedHead(Setup(w, o).nodes, Setup(w, o).kids, RootTree(w, o), 0, None, None);
    OutputAccounted(Setup(w, o), sched);
    OnlyChunk(Setup(w, o), Exec(Setup(w, o), sched), packed, id);
    WrittenTail(w, o, sched);
  }

  lemma OnlyChunk(c: Config, s: State, packed: bytes, id: nat)
    requires Complete(c, s) && |c.nodes| == 1 && c.kids[0] == [] && s.root.Some?
    requires Appended(s.phase) == |s.out| && Pack(c, 0) == Ok((packed, id)) && id < 8
    ensures s.root.value == ChildRef(0, |packed| + 1) && s.out == packed + [2 * id]
  {
    assert NodeInv(c, s, 0);
    assert s.phase[1..] == [];
    assert SlotView(s.phase, c.kids[0]) == [];
    OnlyExtent(s.out, s.root.value, packed, id);
  }

  lemma OnlyExtent(out: bytes, r: ChildRef, packed: bytes, id: nat)
    requires r.offset + r.length <= |out| == r.length && id < 8
    requires out[r.offset..r.offset + r.length] == Frame(packed, [], id)
    ensures r == ChildRef(0, |packed| + 1) && out == packed + [2 * id]
  {
    assert out[0..|out|] == out;
  }

  /** `struct Answer { x: u8 }` with 42, stored as it is: the whole file. */
  lemma SmallestFile(w: Options, sched: Schedule)
    requires OptionsOk(w) && Succeeds(w, OStruct([OLeaf(Byte(42))], [None]), sched)
    requires !w.useCompression && |w.reg| > 0 && w.reg[0].Some? && w.reg[0].value.compress([42]) == Some([42])
    ensures Saved(w, OStruct([OLeaf(Byte(42))], [None]), sched)
         == [42, 0]
            + [0x50, 0x41, 0x52, 0x34, 4, 0, 0, 0, 0, 0, 0, 0, 0, 0, 2, 0, 0, 0, 0, 0, 0, 0, 0, 0, 0, 0]
  {
    var o := OStruct([OLeaf(Byte(42))], [None]);
    AnswerTree(w);
    GraphShape(RootTree(w, o));
    PlacedHead(Setup(w, o).nodes, Setup(w, o).kids, RootTree(w, o), 0, None, None);
    PackExact(Setup(w, o), 0, [42], 0);
    OneChunkFile(w, o, sched, [42], 0);
    AnswerBytes();
  }

  lemma AnswerBytes()
    ensures [42] + [2 * 0] + [0x50, 0x41, 0x52, 0x34, 4, 0] + Eight(0) + Eight(|[42]| + 1) + [0, 0, 0, 0]
         == [42, 0]
            + [0x50, 0x41, 0x52, 0x34, 4, 0, 0, 0, 0, 0, 0, 0, 0, 0, 2, 0, 0, 0, 0, 0, 0, 0, 0, 0, 0, 0]
  {
    assert Eight(0) == [0, 0, 0, 0, 0, 0, 0, 0] && Eight(2) == [2, 0, 0, 0, 0, 0, 0, 0];
  }

  lemma AnswerTree(w: Options)
    requires w.env.cpus >= 1
    ensures RootTree(w, OStruct([OLeaf(Byte(42))], [None])) == Tree(StructJob([OLeaf(Byte(42))], [None]), 0, [])
    ensures Writes(w.env.hash, StructJob([OLeaf(Byte(42))], [None]), [42])
  {
    assert RemoteTrees(w.env, [OLeaf(Byte(42))], [None]) == [] + RemoteTrees(w.env, [], []);
    assert EncLocals([OLeaf(Byte(42))], [None]) == [42] + EncLocals([], []);
  }
}

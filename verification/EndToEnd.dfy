/** From an object in memory to a file and back, over every run of the executor. */
module EndToEnd {
  import opened Wrappers
  import opened Bytes
  import opened Format
  import opened FileHeader
  import opened Values
  import opened Trees
  import opened Shape
  import opened Protocol
  import opened Invariant
  import opened Runs
  import opened Stored
  import Steps
  import Reader
  import opened Loadable
  import ReadBack
  import Lazy
  import opened Inspector
  import opened Accounting

  /** How a file is written. */
  datatype Options = Options(env: Env, reg: Registry, useCompression: bool, fallback: bool)

  ghost predicate OptionsOk(w: Options) {
    w.env.cpus >= 1 && RegistryOk(w.reg)
  }

  /** The tree of the root object: the root is visited without any attribute. */
  function RootTree(w: Options, o: Obj): Tree
    requires w.env.cpus >= 1
  {
    TreeOf(w.env, o, NO_CONFIG)
  }

  function Setup(w: Options, o: Obj): (c: Config)
    requires w.env.cpus >= 1
    ensures Valid(c)
  {
    ConfigFor(RootTree(w, o), w.reg, w.useCompression, w.fallback, w.env.hash)
  }

  /** The run under `sched` has joined without an error, and its output stays within the
      32-bit node ids and the 64-bit offsets of the format. */
  ghost predicate Succeeds(w: Options, o: Obj, sched: Schedule)
    requires w.env.cpus >= 1
  {
    var s := Exec(Setup(w, o), sched);
    && Quiescent(Setup(w, o), s)
    && Outcome(s).Ok?
    && s.root.Some?
    && Size(RootTree(w, o)) <= U32
    && |s.out| + HEADER_SIZE < U64
  }

  function Saved(w: Options, o: Obj, sched: Schedule): bytes
    requires w.env.cpus >= 1 && Exec(Setup(w, o), sched).root.Some?
  {
    FileBytes(Exec(Setup(w, o), sched))
  }

  /** The file that opening the written bytes yields. */
  function Reopened(w: Options, o: Obj, sched: Schedule): File
    requires w.env.cpus >= 1 && Exec(Setup(w, o), sched).root.Some?
  {
    File(Saved(w, o, sched), Exec(Setup(w, o), sched).root.value, w.reg)
  }

  lemma WrittenHolds(w: Options, o: Obj, sched: Schedule)
    requires OptionsOk(w) && Succeeds(w, o, sched)
    ensures Open(Saved(w, o, sched), w.reg) == Ok(Reopened(w, o, sched))
    ensures RootNode(Reopened(w, o, sched)).Ok?
    ensures StoredAt(Reopened(w, o, sched), w.env.hash, RootNode(Reopened(w, o, sched)).value, RootTree(w, o))
  {
    RunIsReadable(RootTree(w, o), Setup(w, o), sched);
    Steps.RunInv(Setup(w, o), sched);
    RunOutcome(Setup(w, o), sched);
    RootInFile(Setup(w, o), Exec(Setup(w, o), sched));
    OpenRoundTrip(Exec(Setup(w, o), sched).out, Exec(Setup(w, o), sched).root.value, w.reg);
  }

  /** `read(write(v)) == v`: for every object, machine, registry and schedule, loading what
      a successful run wrote gives the object's value back if and only if the object loads. */
  lemma RoundTrip(w: Options, defs: Defs, o: Obj, ty: Ty, sched: Schedule, fuel: nat)
    requires OptionsOk(w) && Succeeds(w, o, sched)
    requires DefsOk(defs) && HasType(defs, o, ty) && NodeTy(ty) && fuel >= Depth(o)
    ensures Open(Saved(w, o, sched), w.reg) == Ok(Reopened(w, o, sched))
    ensures Reader.Load(Reopened(w, o, sched), defs, ty, fuel) == Ok(ValueOf(o)) <==> Loads(o, NO_CONFIG)
  {
    WrittenHolds(w, o, sched);
    var f := Reopened(w, o, sched);
    ReadBack.NodeBack(f, w.env, defs, o, ty, NO_CONFIG, RootNode(f).value, fuel);
  }

  /** The same through the lazy root: its mirror can always be created, and calling `load` on
      everything in it gives the value back if and only if the object lazily loads. */
  lemma LazyRoundTrip(w: Options, defs: Defs, o: Obj, ty: Ty, sched: Schedule, fuel: nat)
    requires OptionsOk(w) && Succeeds(w, o, sched)
    requires DefsOk(defs) && HasType(defs, o, ty) && NodeTy(ty) && fuel >= Depth(o)
    ensures Open(Saved(w, o, sched), w.reg) == Ok(Reopened(w, o, sched)) && RootNode(Reopened(w, o, sched)).Ok?
    ensures var f := Reopened(w, o, sched);
      var m := Lazy.CreateLazy(f, defs, RootNode(f).value, ty, fuel);
      m.Ok? && (Lazy.Materialize(f, defs, m.value, fuel) == Ok(ValueOf(o)) <==> Lazy.LazyLoads(o, NO_CONFIG))
  {
    WrittenHolds(w, o, sched);
    var f := Reopened(w, o, sched);
    Lazy.CreateReflects(f, w.env, defs, o, ty, NO_CONFIG, RootNode(f).value, fuel);
    var m := Lazy.CreateLazy(f, defs, RootNode(f).value, ty, fuel).value;
    Lazy.MaterializeBack(f, w.env, defs, m, o, ty, NO_CONFIG, fuel);
  }

  /** No schedule and neither executor changes what a file contains: payloads and ordered
      child lists, read from the root, are those of the object's tree. */
  lemma ScheduleIndependence(w: Options, o: Obj, sched: Schedule)
    requires OptionsOk(w) && Succeeds(w, o, sched)
    ensures Open(Saved(w, o, sched), w.reg) == Ok(Reopened(w, o, sched)) && RootNode(Reopened(w, o, sched)).Ok?
    ensures var f := Reopened(w, o, sched);
      Walk(f, RootNode(f).value, |f.data| + 1) == Ok(ContentsOf(w.env.hash, RootTree(w, o)))
  {
    WrittenHolds(w, o, sched);
    var f := Reopened(w, o, sched);
    WalkRoot(f, w.env.hash, RootTree(w, o));
  }

  /** The report on a written file is right at every node of the object's tree. */
  lemma Inspected(w: Options, o: Obj, sched: Schedule) returns (info: ChunkInfo)
    requires OptionsOk(w) && Succeeds(w, o, sched)
    ensures Open(Saved(w, o, sched), w.reg) == Ok(Reopened(w, o, sched)) && RootNode(Reopened(w, o, sched)).Ok?
    ensures var f := Reopened(w, o, sched);
      && Inspect(f, RootNode(f).value, |f.data| + 1) == Ok(info)
      && Reported(f, w.env.hash, info, RootNode(f).value, RootTree(w, o))
  {
    WrittenHolds(w, o, sched);
    var f := Reopened(w, o, sched);
    GetChunkSafe(f, f.root.offset, f.root.length);
    GetChunkExtent(f, f.root);
    info := InspectStored(f, w.env.hash, RootNode(f).value, RootTree(w, o), |f.data| + 1);
  }

  /** Inspecting a written file accounts for every byte: its chunks and the header. */
  lemma Conservation(w: Options, o: Obj, sched: Schedule)
    requires OptionsOk(w) && Succeeds(w, o, sched)
    ensures Open(Saved(w, o, sched), w.reg) == Ok(Reopened(w, o, sched)) && RootNode(Reopened(w, o, sched)).Ok?
    ensures var f := Reopened(w, o, sched);
      var r := Inspect(f, RootNode(f).value, |f.data| + 1);
      r.Ok? && TotalLength(r.value) + HEADER_SIZE == |f.data|
  {
    var c, s, f := Setup(w, o), Exec(Setup(w, o), sched), Reopened(w, o, sched);
    WrittenHolds(w, o, sched);
    RunIsComplete(w, o, sched);
    var info := RootInspected(c, s, f, RootTree(w, o), |f.data| + 1);
    OutputAccounted(c, sched);
  }

  lemma RunIsComplete(w: Options, o: Obj, sched: Schedule)
    requires OptionsOk(w) && Succeeds(w, o, sched)
    ensures Complete(Setup(w, o), Exec(Setup(w, o), sched))
    ensures Holds(Setup(w, o), Exec(Setup(w, o), sched), Reopened(w, o, sched))
    ensures Placed(Setup(w, o).nodes, Setup(w, o).kids, RootTree(w, o), 0, None, None)
  {
    Steps.RunInv(Setup(w, o), sched);
    RunOutcome(Setup(w, o), sched);
    GraphShape(RootTree(w, o));
  }

  lemma RootInspected(c: Config, s: State, f: File, t: Tree, fuel: nat) returns (info: ChunkInfo)
    requires Complete(c, s) && Holds(c, s, f) && Placed(c.nodes, c.kids, t, 0, None, None) && |c.nodes| == Size(t)
    requires s.root.Some? && f.root == s.root.value && RootNode(f).Ok? && fuel > |f.data|
    ensures Inspect(f, RootNode(f).value, fuel) == Ok(info) && TotalLength(info) == Appended(s.phase)
  {
    RootInFile(c, s);
    FindAll(c, s, f);
    ShowPlaced(c.nodes, c.kids, s, f, t, 0, None, None);
    var total;
    info, total := InspectShown(s, f, RootNode(f).value, t, 0, fuel);
    assert Phases(s, 0, Size(t)) == s.phase;
  }

  lemma RootInFile(c: Config, s: State)
    requires Complete(c, s) && s.root.Some?
    ensures FinishedRef(s, 0) == s.root.value
    ensures |s.out| < U64 ==> FitsRef(s.root.value)
    ensures s.root.value.offset + s.root.value.length <= |s.out|
  {
    assert NodeInv(c, s, 0);
  }

  /** The root is the last chunk of the file: nothing is appended behind it. */
  lemma RootIsLast(w: Options, o: Obj, sched: Schedule)
    requires OptionsOk(w) && Succeeds(w, o, sched)
    ensures var s := Exec(Setup(w, o), sched); s.root.value.offset + s.root.value.length == |s.out|
  {
    var c, s := Setup(w, o), Exec(Setup(w, o), sched);
    Steps.RunInv(c, sched);
    RunOutcome(c, sched);
    RootInFile(c, s);
    var r := s.root.value;
    if r.offset + r.length < |s.out| {
      var pos := r.offset + r.length;
      assert Covered(s, pos);
      var i: nat :| InExtent(s, i, pos);
      BeforeRoot(c, s, i);
      assert false;
    }
  }

  /** Every other chunk ends before the root starts. */
  lemma {:induction false} BeforeRoot(c: Config, s: State, i: nat)
    requires Complete(c, s) && i < |c.nodes|
    ensures FinishedRef(s, i).offset + FinishedRef(s, i).length <= FinishedRef(s, 0).offset + FinishedRef(s, 0).length
    decreases i
  {
    if i > 0 {
      assert ParentOk(c.nodes, c.kids, i);
      var p := c.nodes[i].parent.value;
      BeforeRoot(c, s, p);
      assert NodeInv(c, s, p);
      assert EndsBefore(s, c.kids[p][c.nodes[i].parentSlot.value], FinishedRef(s, p).offset);
    }
  }
}

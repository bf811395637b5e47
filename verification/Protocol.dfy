/** The executor as a transition system: workers interleave freely, one step for each
    lock acquisition or atomic operation. */
module Protocol {
  import opened Wrappers
  import opened Bytes
  import opened Format
  import opened Jobs
  import opened Graph
  import opened Shape

  /** `fallback` is true for the serial executor, which uses compressor 0 where the
      parallel one reports an unregistered id. */
  datatype Config = Config(
    nodes: seq<Node>,
    kids: seq<seq<nat>>,
    reg: Registry,
    useCompression: bool,
    fallback: bool,
    hash: Hash)

  ghost predicate Valid(c: Config) {
    WellShaped(c.nodes, c.kids)
  }

  // --- The work of one node, apart from its children ---

  function Select(c: Config, cid: nat): Result<Compressor> {
    var wanted := if c.useCompression && cid == 0 then 1 else cid;
    var found := Lookup(c.reg, wanted);
    if found.Err? && c.fallback then Lookup(c.reg, 0) else found
  }

  /** Serialise and compress: the packed payload and the id of the compressor. */
  function Pack(c: Config, i: nat): Result<(bytes, nat)>
    requires i < |c.nodes|
  {
    var payload :- Execute(c.hash, c.nodes[i].job);
    var comp :- Select(c, c.nodes[i].cid);
    match comp.compress(payload)
    case Some(p) => Ok((p, comp.id))
    case None => Err(CompressionFailed)
  }

  function Collect(got: seq<Option<ChildRef>>): (r: Result<seq<ChildRef>>)
    ensures r.Ok? ==> |r.value| == |got|
  {
    if got == [] then Ok([])
    else if got[0].None? then Err(MissingChild)
    else
      var rest :- Collect(got[1..]);
      Ok([got[0].value] + rest)
  }

  /** The bytes node `i` appends, given what it found in its slots. */
  function Produce(c: Config, i: nat, got: seq<Option<ChildRef>>): Result<bytes>
    requires i < |c.nodes|
  {
    var refs :- Collect(got);
    var (packed, id) :- Pack(c, i);
    Ok(Frame(packed, refs, id))
  }

  // --- States and steps ---

  datatype Phase =
    | Waiting
    | Spawned
    | Running
    | Holding(got: seq<Option<ChildRef>>)
    | Built(buf: bytes)
    | Written(ref: ChildRef)
    | Registered(ref: ChildRef)
    | Finished(ref: ChildRef)
    | Failing(err: Error)
    | Aborting
    | Stopped

  datatype State = State(
    phase: seq<Phase>,
    slots: seq<seq<Option<ChildRef>>>,
    deps: seq<int>,
    out: bytes,
    error: Option<Error>,
    lock: Option<nat>,
    abort: bool,
    root: Option<ChildRef>)

  predicate Sized(c: Config, s: State) {
    |s.phase| == |s.slots| == |s.deps| == |c.nodes|
  }

  function Init(c: Config): (s: State)
    ensures Sized(c, s)
  {
    State(
      seq(|c.nodes|, i requires 0 <= i < |c.nodes| => if c.nodes[i].deps == 0 then Spawned else Waiting),
      seq(|c.nodes|, i requires 0 <= i < |c.nodes| => c.nodes[i].completed),
      seq(|c.nodes|, i requires 0 <= i < |c.nodes| => c.nodes[i].deps),
      [], None, None, false, None)
  }

  function Goto(s: State, i: nat, p: Phase): State
    requires i < |s.phase|
  {
    s.(phase := s.phase[i := p])
  }

  /** The next atomic step of the worker of node `i`, if it has one. `fault` makes the
      write of this step fail. */
  function Next(c: Config, s: State, i: nat, fault: bool): (r: Option<State>)
    requires Sized(c, s) && i < |c.nodes|
    requires c.nodes[i].parent.Some? ==> c.nodes[i].parent.value < |c.nodes| && c.nodes[i].parentSlot.Some?
    ensures r.Some? ==> Sized(c, r.value)
  {
    match s.phase[i]
    case Waiting => None
    case Finished(_) => None
    case Stopped => None
    case Spawned => Some(Goto(s, i, if s.abort then Stopped else Running))
    case Running => Some(Goto(s.(slots := s.slots[i := []]), i, Holding(s.slots[i])))
    case Holding(got) =>
      (match Produce(c, i, got)
       case Ok(buf) => Some(Goto(s, i, Built(buf)))
       case Err(e) => Some(Goto(s, i, Failing(e))))
    case Built(buf) =>
      if fault then Some(Goto(s, i, Failing(IoFailed)))
      else Some(Goto(s.(out := s.out + buf), i, Written(ChildRef(|s.out|, |buf|))))
    case Written(r) =>
      if c.nodes[i].parent.None? then Some(Goto(s.(root := Some(r)), i, Finished(r)))
      else Some(Register(s, i, r, c.nodes[i].parent.value, c.nodes[i].parentSlot.value))
    case Registered(r) =>
      if c.nodes[i].parent.None? then None
      else Some(Release(s, i, r, c.nodes[i].parent.value))
    case Failing(e) =>
      if s.lock.Some? then None
      else if s.error.None? then Some(Goto(s.(error := Some(e), lock := Some(i)), i, Aborting))
      else Some(Goto(s, i, Stopped))
    case Aborting => Some(Goto(s.(abort := true, lock := None), i, Stopped))
  }

  /** `register_child_result`. */
  function Register(s: State, i: nat, r: ChildRef, p: nat, slot: nat): State
    requires i < |s.phase| && p < |s.slots|
  {
    if slot < |s.slots[p]|
    then Goto(s.(slots := s.slots[p := s.slots[p][slot := Some(r)]]), i, Registered(r))
    else Goto(s, i, Failing(SlotOutOfBounds))
  }

  /** `fetch_sub` on the parent's counter; the child that brings it to zero spawns it. */
  function Release(s: State, i: nat, r: ChildRef, p: nat): State
    requires i < |s.phase| && p < |s.phase| == |s.deps|
  {
    var released := Goto(s.(deps := s.deps[p := s.deps[p] - 1]), i, Finished(r));
    if s.deps[p] == 1 then Goto(released, p, Spawned) else released
  }

  /** A schedule picks a worker at a time, and whether its write fails; picking a worker
      that cannot move changes nothing. Every run of the executor is some schedule. */
  type Schedule = seq<(nat, bool)>

  function Pick(c: Config, s: State, at: (nat, bool)): (r: State)
    requires Valid(c) && Sized(c, s)
    ensures Sized(c, r)
  {
    if at.0 >= |c.nodes| then s
    else
      assert at.0 > 0 ==> ParentOk(c.nodes, c.kids, at.0);
      match Next(c, s, at.0, at.1)
      case Some(s') => s'
      case None => s
  }

  function Exec(c: Config, sched: Schedule): (s: State)
    requires Valid(c)
    ensures Sized(c, s)
  {
    if sched == [] then Init(c) else Pick(c, Exec(c, sched[..|sched| - 1]), sched[|sched| - 1])
  }

  /** No worker can move: the scope has joined. */
  ghost predicate Quiescent(c: Config, s: State)
    requires Valid(c) && Sized(c, s)
  {
    forall i, fault :: 0 <= i < |c.nodes| ==> Pick(c, s, (i, fault)) == s
  }

  /** What the driver returns once the scope has joined. */
  function Outcome(s: State): Result<ChildRef> {
    if s.abort then Err(s.error.GetOr(NoRoot))
    else match s.root case Some(r) => Ok(r) case None => Err(NoRoot)
  }
}

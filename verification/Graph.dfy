/** The arena of nodes, and its closed form: a tree laid out in preorder. */
module Graph {
  import opened Wrappers
  import opened Bytes
  import opened Format
  import opened Jobs
  import opened Trees

  datatype Node = Node(
    parent: Option<nat>,
    parentSlot: Option<nat>,
    deps: nat,
    job: Job,
    cid: nat,
    completed: seq<Option<ChildRef>>)

  function Nones(n: nat): seq<Option<ChildRef>> {
    seq(n, _ => None)
  }

  class TaskGraph {
    var nodes: seq<Node>

    constructor ()
      ensures nodes == []
    {
      nodes := [];
    }

    method AddNode(job: Job, cid: nat) returns (id: nat)
      modifies this
      ensures id == Sat32(|old(nodes)|)
      ensures nodes == old(nodes) + [Node(None, None, 0, job, cid, [])]
    {
      id := Sat32(|nodes|);
      nodes := nodes + [Node(None, None, 0, job, cid, [])];
    }

    /** Counts the child as a dependency of the parent and reserves its result slot. */
    method LinkParentChild(parent: nat, child: nat)
      requires parent < |nodes| && child < |nodes| && parent != child
      modifies this
      ensures nodes == Linked(old(nodes), parent, child)
    {
      nodes := nodes[parent := nodes[parent].(deps := nodes[parent].deps + 1)];
      var slot := |nodes[parent].completed|;
      nodes := nodes[parent := nodes[parent].(completed := nodes[parent].completed + [None])];
      nodes := nodes[child := nodes[child].(parent := Some(parent), parentSlot := Some(slot))];
    }

    method ReplaceJob(id: nat, job: Job, cid: nat)
      requires id < |nodes|
      modifies this
      ensures nodes == old(nodes)[id := old(nodes)[id].(job := job, cid := cid)]
    {
      nodes := nodes[id := nodes[id].(job := job, cid := cid)];
    }

    /** `mem::take` on the node's slots. */
    method TakeChildren(id: nat) returns (got: seq<Option<ChildRef>>)
      requires id < |nodes|
      modifies this
      ensures got == old(nodes)[id].completed
      ensures nodes == old(nodes)[id := old(nodes)[id].(completed := [])]
    {
      got := nodes[id].completed;
      nodes := nodes[id := nodes[id].(completed := [])];
    }

    method RegisterChildResult(id: nat, slot: nat, r: ChildRef) returns (res: Result<()>)
      requires id < |nodes|
      modifies this
      ensures res.Ok? <==> slot < |old(nodes)[id].completed|
      ensures res.Ok? ==>
                nodes == old(nodes)[id := old(nodes)[id].(completed := old(nodes)[id].completed[slot := Some(r)])]
      ensures res.Err? ==> res == Err(SlotOutOfBounds) && nodes == old(nodes)
    {
      if slot >= |nodes[id].completed| {
        return Err(SlotOutOfBounds);
      }
      nodes := nodes[id := nodes[id].(completed := nodes[id].completed[slot := Some(r)])];
      return Ok(());
    }
  }

  function Linked(ns: seq<Node>, p: nat, c: nat): seq<Node>
    requires p < |ns| && c < |ns|
  {
    var slot := |ns[p].completed|;
    var bumped := ns[p := ns[p].(deps := ns[p].deps + 1, completed := ns[p].completed + [None])];
    bumped[c := bumped[c].(parent := Some(p), parentSlot := Some(slot))]
  }

  // --- Preorder layout ---

  /** The nodes of `t` when its root gets id `at`. */
  function Flatten(t: Tree, at: nat, parent: Option<nat>, slot: Option<nat>): (ns: seq<Node>)
    ensures |ns| == Size(t)
    decreases t
  {
    [Node(parent, slot, |t.children|, t.job, t.cid, Nones(|t.children|))] + Forest(t.children, at + 1, at, 0)
  }

  function Forest(ts: seq<Tree>, at: nat, parent: nat, slot: nat): (ns: seq<Node>)
    ensures |ns| == SizeAll(ts)
    decreases ts
  {
    if ts == [] then []
    else Flatten(ts[0], at, Some(parent), Some(slot)) + Forest(ts[1..], at + Size(ts[0]), parent, slot + 1)
  }

  /** A node with `k` more dependencies and empty slots. */
  function Grown(n: Node, k: nat): Node {
    n.(deps := n.deps + k, completed := n.completed + Nones(k))
  }

  /** Adding the trees `ts` as the next children of node `p`. */
  function Attach(ns: seq<Node>, ts: seq<Tree>, p: nat): (r: seq<Node>)
    requires p < |ns|
    ensures |r| == |ns| + SizeAll(ts)
  {
    ns[p := Grown(ns[p], |ts|)]
    + Forest(ts, |ns|, p, |ns[p].completed|)
  }

  predicate HasParent(ns: seq<Node>, parent: Option<nat>) {
    parent.Some? ==> parent.value < |ns|
  }

  /** The arena after visiting an object whose tree is `t`. */
  function Visited(ns: seq<Node>, t: Tree, parent: Option<nat>): seq<Node>
    requires HasParent(ns, parent)
  {
    match parent
    case None => ns + Flatten(t, |ns|, None, None)
    case Some(p) => Attach(ns, [t], p)
  }

  /** The arena after adding a node, linked to its parent, before its children. */
  function Opened(ns: seq<Node>, job: Job, cid: nat, parent: Option<nat>): (r: seq<Node>)
    requires HasParent(ns, parent)
    ensures |r| == |ns| + 1
  {
    match parent
    case None => ns + [Node(None, None, 0, job, cid, [])]
    case Some(p) =>
      ns[p := ns[p].(deps := ns[p].deps + 1, completed := ns[p].completed + [None])]
      + [Node(parent, Some(|ns[p].completed|), 0, job, cid, [])]
  }

  lemma {:induction false} ForestAppend(
    a: seq<Tree>, b: seq<Tree>, at: nat, p: nat, slot: nat, next: nat, nextSlot: nat)
    requires next == at + SizeAll(a) && nextSlot == slot + |a|
    ensures Forest(a + b, at, p, slot) == Forest(a, at, p, slot) + Forest(b, next, p, nextSlot)
    decreases a
  {
    if a == [] {
      assert a + b == b;
    } else {
      var at1, slot1 := at + Size(a[0]), slot + 1;
      assert (a + b)[1..] == a[1..] + b;
      ForestCons(a, at, p, slot, at1, slot1);
      ForestCons(a + b, at, p, slot, at1, slot1);
      ForestAppend(a[1..], b, at1, p, slot1, next, nextSlot);
      Assoc(Flatten(a[0], at, Some(p), Some(slot)), Forest(a[1..], at1, p, slot1), Forest(b, next, p, nextSlot));
    }
  }

  lemma ForestCons(ts: seq<Tree>, at: nat, p: nat, slot: nat, next: nat, nextSlot: nat)
    requires ts != [] && next == at + Size(ts[0]) && nextSlot == slot + 1
    ensures Forest(ts, at, p, slot) == Flatten(ts[0], at, Some(p), Some(slot)) + Forest(ts[1..], next, p, nextSlot)
  {
  }

  lemma AttachNothing(ns: seq<Node>, p: nat)
    requires p < |ns|
    ensures Attach(ns, [], p) == ns
  {
    assert ns[p].completed + Nones(0) == ns[p].completed;
  }

  lemma AttachAppend(ns: seq<Node>, a: seq<Tree>, b: seq<Tree>, p: nat)
    requires p < |ns|
    ensures Attach(Attach(ns, a, p), b, p) == Attach(ns, a + b, p)
  {
    var once, slots := Attach(ns, a, p), |ns[p].completed|;
    ForestAppend(a, b, |ns|, p, slots, |once|, |once[p].completed|);
    GrownTwice(ns[p], |a|, |b|, |a + b|);
    UpdateTwice(ns, p, Grown(ns[p], |a|), Forest(a, |ns|, p, slots), Grown(ns[p], |a + b|),
                Forest(b, |once|, p, |once[p].completed|));
  }

  lemma GrownTwice(n: Node, a: nat, b: nat, both: nat)
    requires both == a + b
    ensures Grown(Grown(n, a), b) == Grown(n, both)
  {
    assert n.completed + Nones(a) + Nones(b) == n.completed + Nones(both);
  }

  lemma UpdateTwice<T>(s: seq<T>, i: nat, x: T, a: seq<T>, y: T, b: seq<T>)
    requires i < |s|
    ensures (s[i := x] + a)[i := y] + b == s[i := y] + (a + b)
  {
  }

  /** A node opened and then given its children is the whole tree laid out. */
  lemma Closed(ns: seq<Node>, t: Tree, parent: Option<nat>)
    requires HasParent(ns, parent)
    ensures Attach(Opened(ns, t.job, t.cid, parent), t.children, |ns|) == Visited(ns, t, parent)
  {
    var ts := t.children;
    assert [] + Nones(|ts|) == Nones(|ts|);
    match parent
    case None =>
    case Some(p) =>
      var slot := |ns[p].completed|;
      assert Nones(1) == [None];
      assert Forest([t], |ns|, p, slot) == Flatten(t, |ns|, Some(p), Some(slot));
  }

  lemma SwapJob(ns: seq<Node>, t: Tree, job: Job, cid: nat, parent: Option<nat>)
    requires HasParent(ns, parent)
    ensures var placed := Attach(Opened(ns, job, cid, parent), t.children, |ns|);
      placed[|ns| := placed[|ns|].(job := t.job, cid := t.cid)] == Visited(ns, t, parent)
  {
    Closed(ns, t, parent);
    var a := Opened(ns, job, cid, parent);
    var b := Opened(ns, t.job, t.cid, parent);
    assert b == a[|ns| := a[|ns|].(job := t.job, cid := t.cid)];
  }
}

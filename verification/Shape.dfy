/** The shape of every arena that `visit` builds: a tree in preorder. */
module Shape {
  import opened Wrappers
  import opened Trees
  import opened Graph

  /** Ids of consecutive sibling subtrees, the first one at `at`. */
  function ChildIds(ts: seq<Tree>, at: nat): (ids: seq<nat>)
    ensures |ids| == |ts|
    decreases ts
  {
    if ts == [] then [] else [at] + ChildIds(ts[1..], at + Size(ts[0]))
  }

  /** For every node of `t` laid out from `at`, the ids of its children. */
  function Kids(t: Tree, at: nat): (r: seq<seq<nat>>)
    ensures |r| == Size(t)
    decreases t
  {
    [ChildIds(t.children, at + 1)] + KidsAll(t.children, at + 1)
  }

  function KidsAll(ts: seq<Tree>, at: nat): (r: seq<seq<nat>>)
    ensures |r| == SizeAll(ts)
    decreases ts
  {
    if ts == [] then [] else Kids(ts[0], at) + KidsAll(ts[1..], at + Size(ts[0]))
  }

  /** Children come later, know their parent and slot, and are listed in slot order;
      every slot is empty and counted as a dependency; the job is a real one. */
  ghost predicate KidsOk(ns: seq<Node>, kids: seq<seq<nat>>, i: nat)
    requires i < |ns| == |kids|
  {
    && ns[i].deps == |kids[i]|
    && ns[i].completed == Nones(|kids[i]|)
    && (forall k :: 0 <= k < |kids[i]| ==> KidOk(ns, i, k, kids[i][k]))
    && (forall k :: 0 < k < |kids[i]| ==> kids[i][k - 1] < kids[i][k])
  }

  predicate KidOk(ns: seq<Node>, i: nat, k: nat, kid: nat) {
    i < kid < |ns| && ns[kid].parent == Some(i) && ns[kid].parentSlot == Some(k)
  }

  /** Node `i` sits in a slot of an earlier node. */
  ghost predicate ParentOk(ns: seq<Node>, kids: seq<seq<nat>>, i: nat)
    requires i < |ns| == |kids|
  {
    && ns[i].parent.Some? && ns[i].parentSlot.Some?
    && ns[i].parent.value < i
    && ns[i].parentSlot.value < |kids[ns[i].parent.value]|
    && kids[ns[i].parent.value][ns[i].parentSlot.value] == i
  }

  /** One tree, rooted at node 0. */
  ghost predicate WellShaped(ns: seq<Node>, kids: seq<seq<nat>>) {
    && |ns| == |kids| > 0
    && ns[0].parent == None
    && (forall i :: 0 <= i < |ns| ==> KidsOk(ns, kids, i))
    && (forall i :: 0 < i < |ns| ==> ParentOk(ns, kids, i))
  }

  // --- Preorder layouts are well shaped ---

  ghost predicate Placed(ns: seq<Node>, kids: seq<seq<nat>>, t: Tree, at: nat, parent: Option<nat>, slot: Option<nat>) {
    && |ns| == |kids| && at + Size(t) <= |ns|
    && ns[at..at + Size(t)] == Flatten(t, at, parent, slot)
    && kids[at..at + Size(t)] == Kids(t, at)
  }

  ghost predicate PlacedAll(ns: seq<Node>, kids: seq<seq<nat>>, ts: seq<Tree>, at: nat, p: nat, slot: nat) {
    && |ns| == |kids| && at + SizeAll(ts) <= |ns|
    && ns[at..at + SizeAll(ts)] == Forest(ts, at, p, slot)
    && kids[at..at + SizeAll(ts)] == KidsAll(ts, at)
  }

  lemma SplitSlice<T>(s: seq<T>, at: nat, a: seq<T>, b: seq<T>)
    requires at + |a| + |b| <= |s| && s[at..at + |a| + |b|] == a + b
    ensures s[at..at + |a|] == a && s[at + |a|..at + |a| + |b|] == b
  {
    var w := s[at..at + |a| + |b|];
    assert w[..|a|] == a && w[|a|..] == b;
    assert s[at..at + |a|] == w[..|a|];
    assert s[at + |a|..at + |a| + |b|] == w[|a|..];
  }

  lemma PlacedHead(ns: seq<Node>, kids: seq<seq<nat>>, t: Tree, at: nat, parent: Option<nat>, slot: Option<nat>)
    requires Placed(ns, kids, t, at, parent, slot)
    ensures ns[at] == Node(parent, slot, |t.children|, t.job, t.cid, Nones(|t.children|))
    ensures kids[at] == ChildIds(t.children, at + 1)
    ensures PlacedAll(ns, kids, t.children, at + 1, at, 0)
  {
    SplitSlice(ns, at, Flatten(t, at, parent, slot)[..1], Forest(t.children, at + 1, at, 0));
    SplitSlice(kids, at, Kids(t, at)[..1], KidsAll(t.children, at + 1));
    assert ns[at..at + 1][0] == ns[at] && kids[at..at + 1][0] == kids[at];
  }

  lemma PlacedFirst(ns: seq<Node>, kids: seq<seq<nat>>, ts: seq<Tree>, at: nat, p: nat, slot: nat)
    requires PlacedAll(ns, kids, ts, at, p, slot) && ts != []
    ensures Placed(ns, kids, ts[0], at, Some(p), Some(slot))
    ensures PlacedAll(ns, kids, ts[1..], at + Size(ts[0]), p, slot + 1)
  {
    SplitSlice(ns, at, Flatten(ts[0], at, Some(p), Some(slot)), Forest(ts[1..], at + Size(ts[0]), p, slot + 1));
    SplitSlice(kids, at, Kids(ts[0], at), KidsAll(ts[1..], at + Size(ts[0])));
  }

  /** The `k`-th sibling of a forest is laid out at its id, in slot `slot + k`. */
  lemma {:induction false} PlacedChild(
    ns: seq<Node>, kids: seq<seq<nat>>, ts: seq<Tree>, at: nat, p: nat, slot: nat, k: nat, own: nat)
    requires PlacedAll(ns, kids, ts, at, p, slot) && k < |ts| && own == slot + k
    ensures at <= ChildIds(ts, at)[k]
    ensures Placed(ns, kids, ts[k], ChildIds(ts, at)[k], Some(p), Some(own))
    ensures k > 0 ==> ChildIds(ts, at)[k - 1] < ChildIds(ts, at)[k]
    decreases k
  {
    PlacedFirst(ns, kids, ts, at, p, slot);
    if k > 0 {
      PlacedChild(ns, kids, ts[1..], at + Size(ts[0]), p, slot + 1, k - 1, own);
    }
  }

  lemma PlacedKids(ns: seq<Node>, kids: seq<seq<nat>>, t: Tree, at: nat, parent: Option<nat>, slot: Option<nat>)
    requires Placed(ns, kids, t, at, parent, slot)
    ensures KidsOk(ns, kids, at)
  {
    PlacedHead(ns, kids, t, at, parent, slot);
    forall k | 0 <= k < |kids[at]|
      ensures KidOk(ns, at, k, kids[at][k])
      ensures k > 0 ==> kids[at][k - 1] < kids[at][k]
    {
      PlacedChild(ns, kids, t.children, at + 1, at, 0, k, k);
      PlacedHead(ns, kids, t.children[k], kids[at][k], Some(at), Some(k));
    }
  }

  lemma {:induction false} TreeShape(
    ns: seq<Node>, kids: seq<seq<nat>>, t: Tree, at: nat, parent: Option<nat>, slot: Option<nat>, i: nat)
    requires Placed(ns, kids, t, at, parent, slot) && at <= i < at + Size(t)
    ensures KidsOk(ns, kids, i)
    ensures i > at ==> ParentOk(ns, kids, i)
    decreases t
  {
    if i == at {
      PlacedKids(ns, kids, t, at, parent, slot);
    } else {
      PlacedHead(ns, kids, t, at, parent, slot);
      ForestShape(ns, kids, t.children, at + 1, at, 0, i);
    }
  }

  lemma {:induction false} ForestShape(
    ns: seq<Node>, kids: seq<seq<nat>>, ts: seq<Tree>, at: nat, p: nat, slot: nat, i: nat)
    requires PlacedAll(ns, kids, ts, at, p, slot) && at <= i < at + SizeAll(ts) && p < at
    requires |kids[p]| >= slot + |ts| && kids[p][slot..slot + |ts|] == ChildIds(ts, at)
    ensures KidsOk(ns, kids, i) && ParentOk(ns, kids, i)
    decreases ts
  {
    PlacedFirst(ns, kids, ts, at, p, slot);
    if i < at + Size(ts[0]) {
      TreeShape(ns, kids, ts[0], at, Some(p), Some(slot), i);
      PlacedHead(ns, kids, ts[0], at, Some(p), Some(slot));
      assert kids[p][slot..slot + |ts|][0] == kids[p][slot];
    } else {
      assert kids[p][slot + 1..slot + 1 + |ts[1..]|] == kids[p][slot..slot + |ts|][1..];
      ForestShape(ns, kids, ts[1..], at + Size(ts[0]), p, slot + 1, i);
    }
  }

  /** Every graph built by `visit` is a tree in preorder. */
  lemma GraphShape(t: Tree)
    ensures WellShaped(Flatten(t, 0, None, None), Kids(t, 0))
    ensures Placed(Flatten(t, 0, None, None), Kids(t, 0), t, 0, None, None)
  {
    var ns, kids := Flatten(t, 0, None, None), Kids(t, 0);
    assert ns[0..Size(t)] == ns && kids[0..Size(t)] == kids;
    forall i | 0 <= i < |ns|
      ensures KidsOk(ns, kids, i) && (i > 0 ==> ParentOk(ns, kids, i))
    {
      TreeShape(ns, kids, t, 0, None, None, i);
    }
  }

  /** There is always a node to start from, so the "no leaves" error cannot occur. */
  lemma LastIsLeaf(ns: seq<Node>, kids: seq<seq<nat>>)
    requires WellShaped(ns, kids)
    ensures ns[|ns| - 1].deps == 0
  {
    var last := |ns| - 1;
    assert KidsOk(ns, kids, last);
    assert kids[last] != [] ==> KidOk(ns, last, 0, kids[last][0]);
  }
}

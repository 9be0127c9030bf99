/** The linked list during the search: the head, then the nodes of the pending entries in order.
    Lifting the call on top of the stack and unlifting it again walk along the path. */
module PendingChain {
  import opened Linearizability
  import opened LinkedEntries
  import opened PendingList

  /** The head and one distinct node for every position of the history. */
  ghost predicate Nodes<I, O>(h: History<I, O>, head: Node<I, O>, ns: seq<Node<I, O>>) {
    h.Valid() && |ns| == |h.entries| && Distinct(ns) && head !in ns && Fits(h, ns, 0)
  }

  lemma GetNodes<I, O>(h: History<I, O>, head: Node<I, O>, ns: seq<Node<I, O>>)
    requires Nodes(h, head, ns)
    ensures h.Valid() && |ns| == |h.entries| && Fits(h, ns, 0)
  {
  }

  ghost function Chain<I, O>(h: History<I, O>, head: Node<I, O>, ns: seq<Node<I, O>>, done: set<nat>): seq<Node<I, O>>
    requires |ns| == |h.entries|
  {
    [head] + NodesAt(h, ns, done, All(h, done))
  }

  ghost function NodesAt<I, O>(h: History<I, O>, ns: seq<Node<I, O>>, done: set<nat>, ps: seq<nat>): seq<Node<I, O>>
    requires |ns| == |h.entries| && ps == All(h, done)
  {
    PendingAre(h, done, |h.entries|);
    seq(|ps|, i requires 0 <= i < |ps| => ns[ps[i]])
  }

  lemma ChainIs<I, O>(h: History<I, O>, head: Node<I, O>, ns: seq<Node<I, O>>, done: set<nat>)
    requires Nodes(h, head, ns)
    ensures var c, ps := Chain(h, head, ns, done), All(h, done);
      && |c| == |ps| + 1 && c[0] == head && Distinct(c)
      && (forall i :: 0 <= i < |ps| ==> ps[i] < |ns| && h.entries[ps[i]].id !in done)
      && (forall i :: 0 <= i < |c| ==> c[i] == if i == 0 then head else ns[ps[i - 1]])
  {
    PendingAre(h, done, |h.entries|);
  }

  /** The place of the pending position p in the chain. */
  function PlaceOf<I, O>(h: History<I, O>, done: set<nat>, p: nat): nat
    requires p <= |h.entries|
  {
    1 + Rank(h, done, p)
  }

  lemma ChainAt<I, O>(h: History<I, O>, head: Node<I, O>, ns: seq<Node<I, O>>, done: set<nat>, x: nat)
    requires Nodes(h, head, ns) && x < h.Size() && x !in done
    ensures var c, k, j := Chain(h, head, ns, done), PlaceOf(h, done, h.call[x]), PlaceOf(h, done, h.ret[x]);
      && 0 < k < j < |c| && c[k] == ns[h.call[x]] && c[j] == ns[h.ret[x]] && c[k].partner == c[j]
  {
    AtRank(h, done, h.call[x], |h.entries|);
    AtRank(h, done, h.ret[x], |h.entries|);
    CallRankLess(h, done, x);
    ChainIs(h, head, ns, done);
    assert FitsAt(h, ns, 0, h.call[x]);
  }

  /** Dropping two positions drops their nodes, one place further behind the head. */
  lemma DropNodes<T>(head: T, ns: seq<T>, c: seq<T>, c': seq<T>, ps: seq<nat>, ps': seq<nat>, k: nat, j: nat)
    requires k < j < |ps| && ps' == Drop(ps, k, j) && |c| == |ps| + 1 && |c'| == |ps'| + 1
    requires forall i :: 0 <= i < |ps| ==> ps[i] < |ns|
    requires forall i :: 0 <= i < |c| ==> c[i] == if i == 0 then head else ns[ps[i - 1]]
    requires forall i :: 0 <= i < |ps'| ==> ps'[i] < |ns|
    requires forall i :: 0 <= i < |c'| ==> c'[i] == if i == 0 then head else ns[ps'[i - 1]]
    ensures c' == Drop(c, k + 1, j + 1)
  {
  }

  /** Placing x turns the chain into the one without x's two nodes. */
  lemma ChainDrops<I, O>(h: History<I, O>, head: Node<I, O>, ns: seq<Node<I, O>>, done: set<nat>, x: nat)
    requires Nodes(h, head, ns) && x < h.Size() && x !in done
    ensures var c, k, j := Chain(h, head, ns, done), PlaceOf(h, done, h.call[x]), PlaceOf(h, done, h.ret[x]);
      && 0 < k < j < |c| && Chain(h, head, ns, done + {x}) == Drop(c, k, j)
  {
    hide Pending, Chain, NodesAt, Drop;
    ChainAt(h, head, ns, done, x);
    PlaceDrops(h, done, x, |h.entries|);
    ChainIs(h, head, ns, done);
    ChainIs(h, head, ns, done + {x});
    DropNodes(head, ns, Chain(h, head, ns, done), Chain(h, head, ns, done + {x}), All(h, done), All(h, done + {x}),
              Rank(h, done, h.call[x]), Rank(h, done, h.ret[x]));
  }

  /** x was lifted off the chain with the operations of `done` placed, and still points into it. */
  ghost predicate DetachedAt<I, O>(h: History<I, O>, head: Node<I, O>, ns: seq<Node<I, O>>, done: set<nat>, x: nat)
    requires Nodes(h, head, ns) && x < h.Size() && x !in done
    reads ns[h.call[x]], ns[h.ret[x]]
  {
    ChainAt(h, head, ns, done, x);
    Detached(Chain(h, head, ns, done), PlaceOf(h, done, h.call[x]), PlaceOf(h, done, h.ret[x]))
  }

  lemma NotInPrefix(path: seq<nat>, d: nat)
    requires Distinct(path) && d < |path|
    ensures path[d] !in Ids(path[..d])
  {
  }

  /** The list holds what is pending after the path, and every placed call can be put back. */
  ghost predicate ListOk<I, O>(h: History<I, O>, head: Node<I, O>, ns: seq<Node<I, O>>, path: seq<nat>)
    requires Nodes(h, head, ns) && Distinct(path) && InRange(h.Size(), path)
    reads head, ns
  {
    && (ChainIs(h, head, ns, Ids(path)); Linked(Chain(h, head, ns, Ids(path))))
    && forall d :: 0 <= d < |path| ==> (NotInPrefix(path, d); DetachedAt(h, head, ns, Ids(path[..d]), path[d]))
  }

  lemma PathParts(path: seq<nat>, x: nat)
    requires Distinct(path) && x !in path
    ensures Distinct(path + [x]) && Ids(path + [x]) == Ids(path) + {x} && x !in Ids(path)
    ensures forall d :: 0 <= d <= |path| ==> (path + [x])[..d] == path[..d]
  {
  }

  /** The nodes of a placed operation are not in the chain. */
  lemma PlacedOffChain<I, O>(h: History<I, O>, head: Node<I, O>, ns: seq<Node<I, O>>, done: set<nat>, y: nat)
    requires Nodes(h, head, ns) && y < h.Size() && y in done
    ensures ns[h.call[y]] !in Chain(h, head, ns, done) && ns[h.ret[y]] !in Chain(h, head, ns, done)
  {
    ChainIs(h, head, ns, done);
  }

  /** Taking the call x out of the list pushes x on the path. */
  method LiftCall<I, O>(entry: Node<I, O>, ghost h: History<I, O>, ghost head: Node<I, O>, ghost ns: seq<Node<I, O>>,
                        ghost path: seq<nat>, ghost x: nat)
    requires Nodes(h, head, ns) && Distinct(path) && InRange(h.Size(), path) && ListOk(h, head, ns, path)
    requires x < h.Size() && x !in path && entry == ns[h.call[x]]
    modifies head, ns
    ensures Distinct(path + [x]) && InRange(h.Size(), path + [x]) && ListOk(h, head, ns, path + [x])
  {
    hide Nodes, History.Valid, Chain, Linked, Drop, Detached;
    ghost var done := Ids(path);
    GetNodes(h, head, ns);
    Places(h, x);
    ghost var c, k, j := Chain(h, head, ns, done), PlaceOf(h, done, h.call[x]), PlaceOf(h, done, h.ret[x]);
    PathParts(path, x);
    ChainAt(h, head, ns, done, x);
    ChainDrops(h, head, ns, done, x);
    ChainIs(h, head, ns, done);
    Lift(entry, c, k, j);
    forall d | 0 <= d < |path + [x]| ensures DetachedAt(h, head, ns, Ids((path + [x])[..d]), (path + [x])[d]) {
      if d < |path| {
        assert old(DetachedAt(h, head, ns, Ids(path[..d]), path[d]));
        PlacedOffChain(h, head, ns, done, path[d]);
      } else {
        assert (path + [x])[..d] == path;
      }
    }
  }

  /** Putting the last call back gives exactly the list from before it was lifted. */
  method UnliftCall<I, O>(entry: Node<I, O>, ghost h: History<I, O>, ghost head: Node<I, O>, ghost ns: seq<Node<I, O>>,
                          ghost path: seq<nat>, ghost x: nat)
    requires Nodes(h, head, ns) && Distinct(path) && InRange(h.Size(), path)
    requires x < h.Size() && x !in path && entry == ns[h.call[x]]
    requires Distinct(path + [x]) && InRange(h.Size(), path + [x]) && ListOk(h, head, ns, path + [x])
    modifies head, ns
    ensures ListOk(h, head, ns, path)
  {
    hide Nodes, History.Valid, Chain, Linked, Drop, Detached;
    ghost var done := Ids(path);
    GetNodes(h, head, ns);
    Places(h, x);
    ghost var c, k, j := Chain(h, head, ns, done), PlaceOf(h, done, h.call[x]), PlaceOf(h, done, h.ret[x]);
    PathParts(path, x);
    ChainAt(h, head, ns, done, x);
    ChainDrops(h, head, ns, done, x);
    ChainIs(h, head, ns, done);
    assert (path + [x])[..|path|] == path && DetachedAt(h, head, ns, Ids((path + [x])[..|path|]), (path + [x])[|path|]);
    Unlift(entry, c, k, j);
    forall d | 0 <= d < |path| ensures DetachedAt(h, head, ns, Ids(path[..d]), path[d]) {
      assert old(DetachedAt(h, head, ns, Ids((path + [x])[..d]), (path + [x])[d]));
      PlacedOffChain(h, head, ns, done, path[d]);
    }
  }
}

/** What it means for a history to be linearizable, and the theory of the search for it:
    configurations (operations already placed, state of the model) and when one is dead. */
module Linearizability {
  import opened Quorums

  datatype Model<!S, !I, !O> = Model(init: S, step: (S, I, O) -> (bool, S), equal: (S, S) -> bool)

  datatype Entry<I, O> =
    | Call(id: nat, input: I)
    | Return(id: nat, output: O)

  /** A well-formed history: every operation's call and return, the call first. The two index
      sequences say where; they are determined by the entries. */
  datatype History<I, O> = History(entries: seq<Entry<I, O>>, call: seq<nat>, ret: seq<nat>) {
    function Size(): nat { |call| }

    ghost predicate Valid() {
      && |ret| == |call| && |entries| == 2 * |call|
      && (forall x :: 0 <= x < |call| ==> call[x] < ret[x] < |entries|)
      && (forall x :: 0 <= x < |call| ==> entries[call[x]].Call? && entries[call[x]].id == x)
      && (forall x :: 0 <= x < |call| ==> entries[ret[x]].Return? && entries[ret[x]].id == x)
      && (forall p :: 0 <= p < |entries| ==> entries[p].id < |call|)
      && (forall p :: 0 <= p < |entries| ==>
            p == if entries[p].Call? then call[entries[p].id] else ret[entries[p].id])
    }

    function Input(x: nat): I
      requires Valid() && x < Size()
    {
      entries[call[x]].input
    }

    function Output(x: nat): O
      requires Valid() && x < Size()
    {
      entries[ret[x]].output
    }
  }

  function Step<S, I, O>(m: Model<S, I, O>, h: History<I, O>, st: S, x: nat): (bool, S)
    requires h.Valid() && x < h.Size()
  {
    m.step(st, h.Input(x), h.Output(x))
  }

  ghost predicate InRange(n: nat, order: seq<nat>) {
    forall i :: 0 <= i < |order| ==> order[i] < n
  }

  ghost predicate Distinct<T>(s: seq<T>) {
    forall i, j :: 0 <= i < j < |s| ==> s[i] != s[j]
  }

  ghost function IndexOf<T>(s: seq<T>, e: T): (i: nat)
    requires e in s
    ensures i < |s| && s[i] == e
  {
    var i :| 0 <= i < |s| && s[i] == e;
    i
  }

  function Ids(order: seq<nat>): set<nat> { set x | x in order }

  /** Every step of the order succeeds from the given state. */
  ghost predicate Accepts<S, I, O>(m: Model<S, I, O>, h: History<I, O>, st: S, order: seq<nat>)
    requires h.Valid() && InRange(h.Size(), order)
  {
    order == [] || (Step(m, h, st, order[0]).0 && Accepts(m, h, Step(m, h, st, order[0]).1, order[1..]))
  }

  /** No operation stands before one that had returned before it was called. */
  ghost predicate InRealTime<I, O>(h: History<I, O>, order: seq<nat>)
    requires h.Valid() && InRange(h.Size(), order)
  {
    forall i, j :: 0 <= i < j < |order| ==> h.call[order[i]] < h.ret[order[j]]
  }

  /** `order` places exactly the operations outside `done`, legally from state st. */
  ghost predicate Completes<S, I, O>(m: Model<S, I, O>, h: History<I, O>, done: set<nat>, st: S, order: seq<nat>)
    requires h.Valid()
  {
    && InRange(h.Size(), order) && Distinct(order) && Ids(order) == Below(h.Size()) - done
    && InRealTime(h, order) && Accepts(m, h, st, order)
  }

  ghost predicate Live<S, I, O>(m: Model<S, I, O>, h: History<I, O>, done: set<nat>, st: S)
    requires h.Valid()
  {
    exists order :: Completes(m, h, done, st, order)
  }

  ghost predicate Linearizable<S, I, O>(m: Model<S, I, O>, h: History<I, O>)
    requires h.Valid()
  {
    Live(m, h, {}, m.init)
  }

  /** What the checker asks of the model's equality on states: reflexive, and equal states
      accept the same operations and stay equal. */
  ghost predicate Congruent<S(!new), I(!new), O(!new)>(m: Model<S, I, O>) {
    && (forall s :: m.equal(s, s))
    && (forall s, t, i, o :: m.equal(s, t) && m.step(s, i, o).0
          ==> m.step(t, i, o).0 && m.equal(m.step(s, i, o).1, m.step(t, i, o).1))
  }

  // ----- the search

  /** Placing x next cannot lead to a linearization. */
  ghost predicate Tried<S, I, O>(m: Model<S, I, O>, h: History<I, O>, done: set<nat>, st: S, x: nat)
    requires h.Valid() && x < h.Size()
  {
    Step(m, h, st, x).0 ==> !Live(m, h, done + {x}, Step(m, h, st, x).1)
  }

  /** Before position p there is no pending return, and every pending call was tried. */
  ghost predicate Scanned<S, I, O>(m: Model<S, I, O>, h: History<I, O>, done: set<nat>, st: S, p: nat)
    requires h.Valid()
  {
    forall q :: 0 <= q < p && q < |h.entries| && h.entries[q].id !in done ==>
      h.entries[q].Call? && Tried(m, h, done, st, h.entries[q].id)
  }

  /** A configuration whose scan meets a pending return is dead: any linearization would have
      to begin with a call before that return. */
  lemma ReturnMeansDead<S, I, O>(m: Model<S, I, O>, h: History<I, O>, done: set<nat>, st: S, p: nat)
    requires h.Valid() && p < |h.entries| && h.entries[p].Return? && h.entries[p].id !in done
    requires Scanned(m, h, done, st, p)
    ensures !Live(m, h, done, st)
  {
    if Live(m, h, done, st) {
      var order :| Completes(m, h, done, st, order);
      var r := h.entries[p].id;
      assert r in Ids(order);
      var x, rest := order[0], order[1..];
      FirstBeforeReturn(m, h, done, st, order, r);
      assert h.entries[h.call[x]].id !in done by { assert x in Ids(order); }
      TailCompletes(m, h, done, st, order);
    }
  }

  lemma FirstBeforeReturn<S, I, O>(m: Model<S, I, O>, h: History<I, O>, done: set<nat>, st: S, order: seq<nat>, r: nat)
    requires h.Valid() && Completes(m, h, done, st, order) && r in order
    ensures h.call[order[0]] < h.ret[r]
  {
    var j :| 0 <= j < |order| && order[j] == r;
  }

  lemma TailCompletes<S, I, O>(m: Model<S, I, O>, h: History<I, O>, done: set<nat>, st: S, order: seq<nat>)
    requires h.Valid() && Completes(m, h, done, st, order) && order != []
    ensures Step(m, h, st, order[0]).0
    ensures Completes(m, h, done + {order[0]}, Step(m, h, st, order[0]).1, order[1..])
  {
    assert Ids(order[1..]) == Ids(order) - {order[0]};
  }

  /** Equal states have the same future. */
  lemma {:induction false} EqualAccepts<S(!new), I(!new), O(!new)>(m: Model<S, I, O>, h: History<I, O>, s: S, t: S, order: seq<nat>)
    requires h.Valid() && Congruent(m) && m.equal(s, t) && InRange(h.Size(), order) && Accepts(m, h, s, order)
    ensures Accepts(m, h, t, order)
    decreases |order|
  {
    if order != [] {
      EqualAccepts(m, h, Step(m, h, s, order[0]).1, Step(m, h, t, order[0]).1, order[1..]);
    }
  }

  lemma EqualDead<S(!new), I(!new), O(!new)>(m: Model<S, I, O>, h: History<I, O>, done: set<nat>, s: S, t: S)
    requires h.Valid() && Congruent(m) && m.equal(s, t) && !Live(m, h, done, t)
    ensures !Live(m, h, done, s)
  {
    if Live(m, h, done, s) {
      var order :| Completes(m, h, done, s, order);
      EqualAccepts(m, h, s, t, order);
      assert Completes(m, h, done, t, order);
    }
  }

  // ----- the path on the stack

  type Config<S> = (set<nat>, S)

  /** The operations placed so far and the states between them. */
  ghost predicate PathOk<S, I, O>(m: Model<S, I, O>, h: History<I, O>, path: seq<nat>, states: seq<S>)
    requires h.Valid()
  {
    && |states| == |path| + 1 && states[0] == m.init
    && InRange(h.Size(), path) && Distinct(path)
    && (forall d :: 0 <= d < |path| ==> Step(m, h, states[d], path[d]) == (true, states[d + 1]))
    && (forall d :: 0 <= d < |path| ==> Scanned(m, h, Ids(path[..d]), states[d], h.call[path[d]]))
  }

  /** The configuration reached after d placements. */
  ghost function At<S>(path: seq<nat>, states: seq<S>, d: nat): Config<S>
    requires d <= |path| && |states| == |path| + 1
  {
    (Ids(path[..d]), states[d])
  }

  /** A cached configuration is on the stack or dead. */
  ghost predicate SeenOk<S, I, O>(m: Model<S, I, O>, h: History<I, O>, path: seq<nat>, states: seq<S>, seen: set<Config<S>>)
    requires h.Valid() && |states| == |path| + 1
  {
    forall c :: c in seen ==>
      (exists d :: 1 <= d <= |path| && c == At(path, states, d)) || !Live(m, h, c.0, c.1)
  }

  lemma {:induction false} IdsSize(order: seq<nat>)
    requires Distinct(order)
    ensures |Ids(order)| == |order|
  {
    if order != [] {
      var n := |order| - 1;
      IdsSize(order[..n]);
      assert Ids(order) == Ids(order[..n]) + {order[n]};
    }
  }

  lemma IdsOfPrefix(path: seq<nat>, d: nat)
    requires d < |path|
    ensures Ids(path[..d + 1]) == Ids(path[..d]) + {path[d]}
  {
    assert path[..d + 1] == path[..d] + [path[d]];
  }

  lemma LargerNotOnStack<S>(path: seq<nat>, states: seq<S>, c: Config<S>)
    requires |states| == |path| + 1 && Distinct(path) && |c.0| > |path|
    ensures forall d :: 1 <= d <= |path| ==> c != At(path, states, d)
  {
    forall d | 1 <= d <= |path| ensures c != At(path, states, d) {
      IdsSize(path[..d]);
    }
  }

  /** The cache never prunes a live branch: what it holds of the new size is explored and dead. */
  lemma PrunedIsTried<S(!new), I(!new), O(!new)>(m: Model<S, I, O>, h: History<I, O>, path: seq<nat>, states: seq<S>, seen: set<Config<S>>, x: nat, t: S)
    requires h.Valid() && Congruent(m) && PathOk(m, h, path, states) && SeenOk(m, h, path, states, seen)
    requires x < h.Size() && x !in path
    requires (Ids(path) + {x}, t) in seen && m.equal(Step(m, h, states[|path|], x).1, t)
    ensures Tried(m, h, Ids(path), states[|path|], x)
  {
    IdsSize(path);
    LargerNotOnStack(path, states, (Ids(path) + {x}, t));
    EqualDead(m, h, Ids(path) + {x}, Step(m, h, states[|path|], x).1, t);
  }

  lemma PushPath<S, I, O>(m: Model<S, I, O>, h: History<I, O>, path: seq<nat>, states: seq<S>, x: nat)
    requires h.Valid() && PathOk(m, h, path, states)
    requires x < h.Size() && x !in path && Scanned(m, h, Ids(path), states[|path|], h.call[x])
    requires Step(m, h, states[|path|], x).0
    ensures PathOk(m, h, path + [x], states + [Step(m, h, states[|path|], x).1])
    ensures Ids(path + [x]) == Ids(path) + {x}
  {
    hide Scanned, Step, History.Valid;
    var path', states' := path + [x], states + [Step(m, h, states[|path|], x).1];
    assert path'[..|path|] == path;
    forall d | 0 <= d < |path'|
      ensures Step(m, h, states'[d], path'[d]) == (true, states'[d + 1])
      ensures Scanned(m, h, Ids(path'[..d]), states'[d], h.call[path'[d]])
    {
      if d < |path| { assert path'[..d] == path[..d]; }
    }
    IdsOfPrefix(path', |path|);
    assert path'[..|path'|] == path';
  }

  lemma PushSeen<S, I, O>(m: Model<S, I, O>, h: History<I, O>, path: seq<nat>, states: seq<S>, seen: set<Config<S>>, x: nat, t: S)
    requires h.Valid() && |states| == |path| + 1 && SeenOk(m, h, path, states, seen)
    requires Ids(path + [x]) == Ids(path) + {x}
    ensures SeenOk(m, h, path + [x], states + [t], seen + {(Ids(path) + {x}, t)})
  {
    hide Live;
    var path', states' := path + [x], states + [t];
    assert path'[..|path'|] == path';
    forall c | c in seen + {(Ids(path) + {x}, t)}
      ensures (exists d :: 1 <= d <= |path'| && c == At(path', states', d)) || !Live(m, h, c.0, c.1)
    {
      if c in seen {
        if d :| 1 <= d <= |path| && c == At(path, states, d) {
          assert path'[..d] == path[..d];
          assert c == At(path', states', d);
        }
      } else {
        assert c == At(path', states', |path'|);
      }
    }
  }

  lemma PopPath<S, I, O>(m: Model<S, I, O>, h: History<I, O>, path: seq<nat>, states: seq<S>)
    requires h.Valid() && PathOk(m, h, path, states) && path != []
    ensures var n := |path| - 1;
      && PathOk(m, h, path[..n], states[..n + 1]) && path[n] !in path[..n]
      && Scanned(m, h, Ids(path[..n]), states[n], h.call[path[n]])
      && Step(m, h, states[n], path[n]) == (true, states[n + 1])
      && Ids(path) == Ids(path[..n]) + {path[n]}
  {
    hide Scanned, Step, History.Valid;
    var n := |path| - 1;
    forall d | 0 <= d < n ensures Scanned(m, h, Ids(path[..n][..d]), states[d], h.call[path[d]]) {
      assert path[..n][..d] == path[..d];
    }
    IdsOfPrefix(path, n);
    assert path[..n + 1] == path;
  }

  lemma PopSeen<S, I, O>(m: Model<S, I, O>, h: History<I, O>, path: seq<nat>, states: seq<S>, seen: set<Config<S>>)
    requires h.Valid() && |states| == |path| + 1 && path != [] && SeenOk(m, h, path, states, seen)
    requires !Live(m, h, Ids(path), states[|path|])
    ensures SeenOk(m, h, path[..|path| - 1], states[..|path|], seen)
  {
    hide Live;
    var n := |path| - 1;
    var path', states' := path[..n], states[..n + 1];
    assert path[..n + 1] == path;
    forall c | c in seen ensures (exists d :: 1 <= d <= n && c == At(path', states', d)) || !Live(m, h, c.0, c.1) {
      if d :| 1 <= d <= |path| && c == At(path, states, d) {
        if d <= n {
          assert path'[..d] == path[..d];
          assert c == At(path', states', d);
        }
      }
    }
  }

  /** A full path is a linearization. */
  lemma FullPath<S, I, O>(m: Model<S, I, O>, h: History<I, O>, path: seq<nat>, states: seq<S>)
    requires h.Valid() && PathOk(m, h, path, states) && Ids(path) == Below(h.Size())
    ensures Completes(m, h, {}, m.init, path)
  {
    hide History.Valid, PathOk, Accepts, InRealTime, Distinct, Step, Below;
    GetDistinct(m, h, path, states);
    PathInRealTime(m, h, path, states);
    SuffixAccepts(m, h, path, states, 0);
    assert path[0..] == path;
  }

  lemma PathInRealTime<S, I, O>(m: Model<S, I, O>, h: History<I, O>, path: seq<nat>, states: seq<S>)
    requires h.Valid() && PathOk(m, h, path, states)
    ensures InRealTime(h, path)
  {
    hide PathOk, Scanned;
    GetDistinct(m, h, path, states);
    forall i, j | 0 <= i < j < |path| ensures h.call[path[i]] < h.ret[path[j]] {
      PathMinimal(m, h, path, states, i, j);
    }
  }

  lemma PathMinimal<S, I, O>(m: Model<S, I, O>, h: History<I, O>, path: seq<nat>, states: seq<S>, i: nat, j: nat)
    requires h.Valid() && PathOk(m, h, path, states) && i < j < |path|
    ensures h.call[path[i]] < h.ret[path[j]]
  {
    var q := h.ret[path[j]];
    assert path[j] !in Ids(path[..i]);
    assert Scanned(m, h, Ids(path[..i]), states[i], h.call[path[i]]);
    assert h.entries[q].Return?;
    assert q != h.call[path[i]];
  }

  lemma {:induction false} SuffixAccepts<S, I, O>(m: Model<S, I, O>, h: History<I, O>, path: seq<nat>, states: seq<S>, d: nat)
    requires h.Valid() && PathOk(m, h, path, states) && d <= |path|
    ensures InRange(h.Size(), path[d..]) && Accepts(m, h, states[d], path[d..])
    decreases |path| - d
  {
    if d < |path| {
      SuffixAccepts(m, h, path, states, d + 1);
      assert path[d..][1..] == path[d + 1..];
    }
  }

  // ----- termination: the configurations the search can ever reach are finitely many

  ghost function Reach<S, I, O>(m: Model<S, I, O>, h: History<I, O>, d: nat): set<Config<S>>
    requires h.Valid()
  {
    if d == 0 then {({}, m.init)}
    else Reach(m, h, d - 1)
         + (set c, x | c in Reach(m, h, d - 1) && x in Below(h.Size()) :: Place(m, h, c, x))
  }

  /** The configuration after placing x. */
  function Place<S, I, O>(m: Model<S, I, O>, h: History<I, O>, c: Config<S>, x: nat): Config<S>
    requires h.Valid() && x < h.Size()
  {
    (c.0 + {x}, Step(m, h, c.1, x).1)
  }

  lemma PlacedReached<S, I, O>(m: Model<S, I, O>, h: History<I, O>, d: nat, c: Config<S>, x: nat)
    requires h.Valid() && d > 0 && c in Reach(m, h, d - 1) && x < h.Size()
    ensures Place(m, h, c, x) in Reach(m, h, d)
  {
    assert x in Below(h.Size());
  }

  lemma PathStep<S, I, O>(m: Model<S, I, O>, h: History<I, O>, path: seq<nat>, states: seq<S>, d: nat)
    requires h.Valid() && PathOk(m, h, path, states) && 0 < d <= |path|
    ensures At(path, states, d) == Place(m, h, At(path, states, d - 1), path[d - 1])
  {
    hide PathOk;
    GetDistinct(m, h, path, states);
    IdsOfPrefix(path, d - 1);
    assert Step(m, h, states[d - 1], path[d - 1]) == (true, states[d]);
  }

  lemma {:induction false} PathReached<S, I, O>(m: Model<S, I, O>, h: History<I, O>, path: seq<nat>, states: seq<S>, d: nat)
    requires h.Valid() && PathOk(m, h, path, states) && d <= |path|
    ensures At(path, states, d) in Reach(m, h, d)
  {
    hide PathOk, History.Valid, Place;
    GetDistinct(m, h, path, states);
    if d == 0 {
      assert Ids(path[..0]) == {};
    } else {
      hide Reach, At;
      PathReached(m, h, path, states, d - 1);
      PathStep(m, h, path, states, d);
      PlacedReached(m, h, d, At(path, states, d - 1), path[d - 1]);
    }
  }

  lemma ReachStep<S, I, O>(m: Model<S, I, O>, h: History<I, O>, d: nat)
    requires h.Valid()
    ensures Reach(m, h, d) <= Reach(m, h, d + 1)
  {
    hide Place, Step, History.Valid;
  }

  lemma {:induction false} ReachGrows<S, I, O>(m: Model<S, I, O>, h: History<I, O>, d: nat, e: nat)
    requires h.Valid() && d <= e
    ensures Reach(m, h, d) <= Reach(m, h, e)
    decreases e
  {
    hide Reach, Place, Step, History.Valid;
    if d < e {
      ReachGrows(m, h, d, e - 1);
      ReachStep(m, h, e - 1);
    }
  }

  lemma GetDistinct<S, I, O>(m: Model<S, I, O>, h: History<I, O>, path: seq<nat>, states: seq<S>)
    requires h.Valid() && PathOk(m, h, path, states)
    ensures Distinct(path) && InRange(h.Size(), path) && |states| == |path| + 1 && states[0] == m.init
    ensures forall d :: 0 <= d < |path| ==> Step(m, h, states[d], path[d]) == (true, states[d + 1])
  {
  }

  /** The configuration one placement beyond the path is among those the search can reach. */
  lemma NextReached<S, I, O>(m: Model<S, I, O>, h: History<I, O>, path: seq<nat>, states: seq<S>, x: nat)
    requires h.Valid() && PathOk(m, h, path, states) && x < h.Size() && x !in path
    ensures (Ids(path) + {x}, Step(m, h, states[|path|], x).1) in Reach(m, h, h.Size())
  {
    hide PathOk, Scanned;
    GetDistinct(m, h, path, states);
    PathReached(m, h, path, states, |path|);
    assert path[..|path|] == path;
    var c := (Ids(path), states[|path|]);
    assert Place(m, h, c, x) in Reach(m, h, |path| + 1);
    IdsSize(path);
    assert Ids(path) + {x} <= Below(h.Size());
    SubsetSize(Ids(path) + {x}, Below(h.Size()));
    ReachGrows(m, h, |path| + 1, h.Size());
  }
}

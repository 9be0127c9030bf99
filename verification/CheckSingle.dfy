/** checkSingle itself. */
module CheckSingle {
  import opened Quorums
  import opened Linearizability
  import opened LinkedEntries
  import opened PendingList
  import opened PendingChain
  import opened Bitset
  import opened Checker

  lemma StartPath<S, I, O>(m: Model<S, I, O>, h: History<I, O>, head: Node<I, O>, ns: seq<Node<I, O>>)
    requires Nodes(h, head, ns) && Linked([head] + ns) 
    ensures head.next == (if ns == [] then null else ns[0]) && Ids([]) == {} && Cursor(m, h, ns, {}, m.init, head.next, 0)
    ensures PathOk(m, h, [], [m.init]) && SeenOk(m, h, [], [m.init], {}) && ListOk(h, head, ns, [])
    ensures CallsOk<S, I, O>(h, ns, [], [m.init], [])
  {
    NothingDone(h, |h.entries|);
    assert Ids([]) == {};
    assert Chain(h, head, ns, {}) == [head] + ns;
    StartCursor(m, h, head, ns, {}, m.init);
  }

  lemma {:induction false} NothingDone<I, O>(h: History<I, O>, p: nat)
    requires p <= |h.entries|
    ensures |Pending(h, {}, p)| == p && forall i :: 0 <= i < p ==> Pending(h, {}, p)[i] == i
  {
    if p > 0 { NothingDone(h, p - 1); }
  }

  lemma HeadNext<I, O>(h: History<I, O>, head: Node<I, O>, ns: seq<Node<I, O>>, path: seq<nat>)
    requires Nodes(h, head, ns) && Distinct(path) && InRange(h.Size(), path) && ListOk(h, head, ns, path)
    ensures Linked(Chain(h, head, ns, Ids(path)))
    ensures head.next == null <==> All(h, Ids(path)) == []
  {
    hide Pending;
    assert LinkedAt(Chain(h, head, ns, Ids(path)), 0);
    ChainIs(h, head, ns, Ids(path));
  }

  lemma MakeNodes<I, O>(h: History<I, O>, head: Node<I, O>, ns: seq<Node<I, O>>)
    requires h.Valid() && |ns| == |h.entries| && Linked(ns) && Fits(h, ns, 0) && head !in ns
    ensures Nodes(h, head, ns) && |ns| / 2 == h.Size() && Distinct<nat>([])
  {
  }

  lemma EmptyCache<S>(width: nat)
    ensures CacheOk<S>(map[], {}, width)
  {
  }

  lemma SeenReach<S>(seen: set<Config<S>>, reach: set<Config<S>>, c: Config<S>)
    requires seen <= reach && c in reach && c !in seen
    ensures seen + {c} <= reach && |reach - (seen + {c})| < |reach - seen|
  {
    assert reach - (seen + {c}) == (reach - seen) - {c};
  }

  lemma NotPlaced(path: seq<nat>, x: nat)
    requires x !in Ids(path)
    ensures x !in path
  {
  }

  /** A state from which the step fails was tried. */
  lemma FailedIsTried<S, I, O>(m: Model<S, I, O>, h: History<I, O>, done: set<nat>, st: S, x: nat)
    requires h.Valid() && x < h.Size() && !Step(m, h, st, x).0
    ensures Tried(m, h, done, st, x)
  {
  }

  /** Backing out of a dead configuration marks the placement that led to it as tried. */
  lemma PoppedIsTried<S, I, O>(m: Model<S, I, O>, h: History<I, O>, path: seq<nat>, states: seq<S>)
    requires h.Valid() && PathOk(m, h, path, states) && path != [] && InRange(h.Size(), path) && |states| == |path| + 1
    requires !Live(m, h, Ids(path), states[|path|])
    ensures var d := |path| - 1;
      && Tried(m, h, Ids(path[..d]), states[d], path[d])
      && Distinct(path[..d]) && InRange(h.Size(), path[..d]) && path[d] !in Ids(path[..d]) && path[..d] + [path[d]] == path
  {
    hide Live, PathOk;
    GetDistinct(m, h, path, states);
    PopPath(m, h, path, states);
  }

  lemma PushCalls<S, I, O>(h: History<I, O>, ns: seq<Node<I, O>>, path: seq<nat>, states: seq<S>, calls: seq<CallsEntry<S, I, O>>, x: nat, st: S)
    requires h.Valid() && |ns| == |h.entries| && InRange(h.Size(), path) && |states| == |path| + 1
    requires CallsOk(h, ns, path, states, calls) && x < h.Size() && h.call[x] < |ns|
    ensures InRange(h.Size(), path + [x])
    ensures CallsOk(h, ns, path + [x], states + [st], calls + [CallsEntry(ns[h.call[x]], states[|path|])])
  {
  }

  lemma PopCalls<S, I, O>(h: History<I, O>, ns: seq<Node<I, O>>, path: seq<nat>, states: seq<S>, calls: seq<CallsEntry<S, I, O>>)
    requires h.Valid() && |ns| == |h.entries| && InRange(h.Size(), path) && |states| == |path| + 1
    requires CallsOk(h, ns, path, states, calls)
    ensures |calls| == |path|
    ensures path != [] ==> var d := |path| - 1;
      && calls[d] == CallsEntry(ns[h.call[path[d]]], states[d])
      && CallsOk(h, ns, path[..d], states[..d + 1], calls[..d])
  {
  }

  lemma NotLinearizable<S, I, O>(m: Model<S, I, O>, h: History<I, O>, path: seq<nat>, states: seq<S>, calls: seq<CallsEntry<S, I, O>>, ns: seq<Node<I, O>>)
    requires h.Valid() && PathOk(m, h, path, states) && |ns| == |h.entries| && CallsOk(h, ns, path, states, calls) && calls == []
    requires !Live(m, h, Ids(path), states[|path|])
    ensures !Linearizable(m, h)
  {
    hide Live;
    assert Ids(path) == {};
  }

  /** With nothing pending the path is a linearization. */
  lemma Found<S, I, O>(m: Model<S, I, O>, h: History<I, O>, path: seq<nat>, states: seq<S>)
    requires h.Valid() && PathOk(m, h, path, states) && All(h, Ids(path)) == []
    ensures Completes(m, h, {}, m.init, path) && Linearizable(m, h)
  {
    hide PathOk, Completes, All;
    GetDistinct(m, h, path, states);
    EmptyMeansDone(h, Ids(path));
    FullPath(m, h, path, states);
  }

  /** The ids on the stack are the path. */
  method Placed<S, I, O>(calls: seq<CallsEntry<S, I, O>>, ghost h: History<I, O>, ghost ns: seq<Node<I, O>>, ghost path: seq<nat>, ghost states: seq<S>)
    returns (order: seq<nat>)
    requires h.Valid() && |ns| == |h.entries| && InRange(h.Size(), path) && |states| == |path| + 1
    requires Fits(h, ns, 0) && CallsOk(h, ns, path, states, calls)
    ensures order == path
  {
    hide History.Valid, Fits;
    order := [];
    for i := 0 to |calls|
      invariant order == path[..i]
    {
      NodeId(h, ns, path[i]);
      order := order + [calls[i].entry.id];
    }
  }

  lemma NodeId<I, O>(h: History<I, O>, ns: seq<Node<I, O>>, x: nat)
    requires h.Valid() && |ns| == |h.entries| && Fits(h, ns, 0) && x < h.Size()
    ensures h.call[x] < |ns| && ns[h.call[x]].id == x
  {
    assert FitsAt(h, ns, 0, h.call[x]);
  }

  /** The invariant of the search, tying its data structures to the path and the configurations seen. */
  ghost predicate SearchOk<S, I, O>(m: Model<S, I, O>, h: History<I, O>, head: Node<I, O>, ns: seq<Node<I, O>>,
                                    path: seq<nat>, states: seq<S>, seen: set<Config<S>>, state: S,
                                    calls: seq<CallsEntry<S, I, O>>, linearized: array<Word>, cache: Cache<S>)
    reads head, ns, linearized
  {
    && Nodes(h, head, ns) && Distinct(path) && InRange(h.Size(), path) && |states| == |path| + 1
    && state == states[|path|] && PathOk(m, h, path, states)
    && SeenOk(m, h, path, states, seen) && seen <= Reach(m, h, h.Size())
    && ListOk(h, head, ns, path) && CallsOk(h, ns, path, states, calls)
    && Members(linearized[..]) == Ids(path) && h.Size() <= 64 * linearized.Length
    && CacheOk(cache, seen, linearized.Length)
  }

  /** Looks the configuration after placing x up, and remembers it when it is new. */
  method Remember<S(!new), I(!new), O(!new)>(m: Model<S, I, O>, linearized: array<Word>, id: nat, newState: S, cache: Cache<S>, ghost seen: set<Config<S>>)
    returns (hit: bool, cache': Cache<S>)
    requires id < 64 * linearized.Length && CacheOk(cache, seen, linearized.Length) && Congruent(m)
    ensures var done := Members(linearized[..]) + {id};
      if hit then cache' == cache && exists t :: (done, t) in seen && m.equal(newState, t)
      else (done, newState) !in seen && CacheOk(cache', seen + {(done, newState)}, linearized.Length)
  {
    hide Congruent, CacheOk, Members, HashOf, Bucket;
    var newLinearized := Clone(linearized);
    Set(newLinearized, id);
    ghost var words := newLinearized[..];
    hit := CacheContains(m, cache, newLinearized, newState);
    if hit {
      ghost var e :| e in Bucket(cache, Key(HashOf(words))) && e.linearized == words && m.equal(newState, e.state);
      CacheHit(cache, seen, |words|, words, e);
      cache' := cache;
    } else {
      CacheMiss(m, cache, seen, words, newState);
      CacheAdd(cache, seen, words, newState);
      var hash := Hash(newLinearized);
      cache' := Added(cache, Key(hash), CacheEntry(newLinearized[..], newState));
    }
  }

  /** Places the call x under the cursor: pushes it and takes it out of the list. */
  method Enter<S(!new), I(!new), O(!new)>(ghost m: Model<S, I, O>, ghost h: History<I, O>, head: Node<I, O>, ghost ns: seq<Node<I, O>>,
      ghost path: seq<nat>, ghost states: seq<S>, ghost seen: set<Config<S>>, ghost seen': set<Config<S>>, state: S, newState: S,
      calls: seq<CallsEntry<S, I, O>>, linearized: array<Word>, ghost cache: Cache<S>, ghost cache': Cache<S>, entry: Node<I, O>)
    returns (calls': seq<CallsEntry<S, I, O>>)
    requires SearchOk(m, h, head, ns, path, states, seen, state, calls, linearized, cache)
    requires var x := entry.id;
      && 0 <= x < h.Size() && x !in Ids(path) && Nodes(h, head, ns) && h.call[x] < |ns| && entry == ns[h.call[x]]
      && Step(m, h, state, x) == (true, newState) && Scanned(m, h, Ids(path), state, h.call[x])
      && (Ids(path) + {x}, newState) !in seen && seen' == seen + {(Ids(path) + {x}, newState)}
      && CacheOk(cache', seen', linearized.Length)
    modifies head, ns, linearized
    ensures SearchOk(m, h, head, ns, path + [entry.id], states + [newState], seen', newState, calls', linearized, cache')
    ensures |Reach(m, h, h.Size()) - seen'| < |Reach(m, h, h.Size()) - seen|
  {
    hide History.Valid, Congruent, PathOk, SeenOk, Nodes, ListOk, Chain, Linked, Fits, CallsOk, CacheOk;
    hide Scanned, Tried, Live, Reach, Members, HashOf, Bucket, Distinct, Ids, Below, Step;
    ghost var x: nat := entry.id;
    GetNodes(h, head, ns);
    NotPlaced(path, x);
    NextReached(m, h, path, states, x);
    SeenReach(seen, Reach(m, h, h.Size()), (Ids(path) + {x}, newState));
    PushPath(m, h, path, states, x);
    PushSeen(m, h, path, states, seen, x, newState);
    PushCalls(h, ns, path, states, calls, x, newState);
    calls' := calls + [CallsEntry(entry, state)];
    Set(linearized, entry.id);
    LiftCall(entry, h, head, ns, path, x);
  }

  /** Takes the last placement back: pops it and puts its call into the list again. */
  method Leave<S, I, O>(ghost m: Model<S, I, O>, ghost h: History<I, O>, ghost head: Node<I, O>, ghost ns: seq<Node<I, O>>,
      ghost path: seq<nat>, ghost states: seq<S>, ghost seen: set<Config<S>>, ghost state: S,
      calls: seq<CallsEntry<S, I, O>>, linearized: array<Word>, ghost cache: Cache<S>)
    returns (calls': seq<CallsEntry<S, I, O>>, entry: Node<I, O>, state': S)
    requires SearchOk(m, h, head, ns, path, states, seen, state, calls, linearized, cache) && calls != []
    requires !Live(m, h, Ids(path), state)
    modifies head, ns, linearized
    ensures |path| == |calls|
    ensures var d := |path| - 1;
      && SearchOk(m, h, head, ns, path[..d], states[..d + 1], seen, state', calls', linearized, cache)
      && path[d] !in Ids(path[..d]) && path[d] < h.Size() && h.call[path[d]] < |ns| && entry == ns[h.call[path[d]]]
      && Scanned(m, h, Ids(path[..d]), state', h.call[path[d]]) && Tried(m, h, Ids(path[..d]), state', path[d])
  {
    hide History.Valid, Congruent, PathOk, SeenOk, Nodes, ListOk, Chain, Linked, Fits, CallsOk, CacheOk;
    hide Scanned, Tried, Live, Reach, Members, HashOf, Bucket, Distinct, Ids, Below, Step;
    GetNodes(h, head, ns);
    PopCalls(h, ns, path, states, calls);
    ghost var d := |path| - 1;
    ghost var x := path[d];
    PopPath(m, h, path, states);
    PopSeen(m, h, path, states, seen);
    PoppedIsTried(m, h, path, states);
    var callsTop := calls[|calls| - 1];
    entry := callsTop.entry;
    state' := callsTop.state;
    NodeId(h, ns, x);
    Clear(linearized, entry.id);
    calls' := calls[..|calls| - 1];
    UnliftCall(entry, h, head, ns, path[..d], x);
  }

  /** The facts of the invariant about the list's head. */
  lemma SearchHead<S, I, O>(m: Model<S, I, O>, h: History<I, O>, head: Node<I, O>, ns: seq<Node<I, O>>,
                            path: seq<nat>, states: seq<S>, seen: set<Config<S>>, state: S,
                            calls: seq<CallsEntry<S, I, O>>, linearized: array<Word>, cache: Cache<S>)
    requires SearchOk(m, h, head, ns, path, states, seen, state, calls, linearized, cache)
    ensures Nodes(h, head, ns) && Fits(h, ns, 0) && InRange(h.Size(), path) && |states| == |path| + 1 && state == states[|path|]
    ensures PathOk(m, h, path, states) && CallsOk(h, ns, path, states, calls) && CacheOk(cache, seen, linearized.Length)
    ensures Members(linearized[..]) == Ids(path) && h.Size() <= 64 * linearized.Length
    ensures Linked(Chain(h, head, ns, Ids(path)))
    ensures head.next == null <==> All(h, Ids(path)) == []
  {
    hide History.Valid, Nodes, ListOk, PathOk, SeenOk, CallsOk, CacheOk, Members, Ids, Chain, Linked, All, Reach, Fits, Distinct;
    GetNodes(h, head, ns);
    HeadNext(h, head, ns, path);
  }

  lemma StepIs<S, I, O>(m: Model<S, I, O>, h: History<I, O>, st: S, x: nat)
    requires h.Valid() && x < h.Size()
    ensures Step(m, h, st, x) == m.step(st, h.Input(x), h.Output(x))
  {
  }

  lemma HitIsTried<S(!new), I(!new), O(!new)>(m: Model<S, I, O>, h: History<I, O>, head: Node<I, O>, ns: seq<Node<I, O>>,
                            path: seq<nat>, states: seq<S>, seen: set<Config<S>>, state: S,
                            calls: seq<CallsEntry<S, I, O>>, linearized: array<Word>, cache: Cache<S>, x: nat, t: S)
    requires SearchOk(m, h, head, ns, path, states, seen, state, calls, linearized, cache) && Congruent(m)
    requires h.Valid() && x < h.Size() && x !in Ids(path)
    requires (Ids(path) + {x}, t) in seen && m.equal(Step(m, h, state, x).1, t)
    ensures Tried(m, h, Ids(path), state, x)
  {
    hide History.Valid, Nodes, ListOk, PathOk, SeenOk, CallsOk, CacheOk, Members, Ids, Reach, Congruent, Step, Tried;
    NotPlaced(path, x);
    PrunedIsTried(m, h, path, states, seen, x, t);
  }

  /** Everything before the loop: the list behind its head, the empty set, cache and stack. */
  method Setup<S, I, O>(m: Model<S, I, O>, entries: seq<Entry<I, O>>, ghost h: History<I, O>)
    returns (head: Node<I, O>, entry: Node?<I, O>, ghost ns: seq<Node<I, O>>, linearized: array<Word>, cache: Cache<S>,
             calls: seq<CallsEntry<S, I, O>>, state: S)
    requires h.Valid() && h.entries == entries
    ensures fresh(head) && fresh(ns) && fresh(linearized) && state == m.init && |ns| == |h.entries|
    ensures SearchOk(m, h, head, ns, [], [state], {}, state, calls, linearized, cache)
    ensures Cursor(m, h, ns, Ids([]), state, entry, 0)
  {
    hide History.Valid, Nodes, ListOk, PathOk, SeenOk, CallsOk, CacheOk, Members, Ids, Chain, Linked, Reach, Fits, Distinct, Cursor;
    entry, ns := MakeLinkedEntries(entries, h);
    var n := Length(entry, ns);
    n := n / 2;
    linearized := NewBitset(n);
    cache, calls, state := map[], [], m.init;
    head := new Node<I, O>(Nothing, null, -1);
    MakeNodes(h, head, ns);
    InsertBefore(head, entry, ns, 0);
    assert ns[..0] + [head] + ns[0..] == [head] + ns;
    StartPath(m, h, head, ns);
    EmptyCache<S>(linearized.Length);
  }

  /** The whole search: it says yes exactly for the linearizable histories, and then gives a
      linearization. */
  method Run<S(!new), I(!new), O(!new)>(m: Model<S, I, O>, entries: seq<Entry<I, O>>, ghost h: History<I, O>)
    returns (ok: bool, order: seq<nat>)
    requires h.Valid() && h.entries == entries && Congruent(m)
    ensures ok <==> Linearizable(m, h)
    ensures ok ==> Completes(m, h, {}, m.init, order)
  {
    hide History.Valid, Congruent, SearchOk, Nodes, Chain, Linked, Fits, CacheOk, CallsOk, Cursor;
    hide Scanned, Tried, Live, Linearizable, Completes, Pending, All, Reach, Ids, Step;
    var head, entry, ns, linearized, cache, calls, state := Setup(m, entries, h);
    ghost var path: seq<nat>, states, seen: set<Config<S>>, at: nat := [], [state], {}, 0;
    while head.next != null
      invariant fresh(ns) && fresh(head) && fresh(linearized)
      invariant SearchOk(m, h, head, ns, path, states, seen, state, calls, linearized, cache)
      invariant |ns| == |h.entries| && Cursor(m, h, ns, Ids(path), state, entry, at)
      decreases |Reach(m, h, h.Size()) - seen|, |path|, |All(h, Ids(path))| - at
    {
      ghost var done := Ids(path);
      SearchHead(m, h, head, ns, path, states, seen, state, calls, linearized, cache);
      EntryHolds(m, h, head, ns, done, state, entry, at);
      ghost var x := h.entries[All(h, done)[at]].id;
      if entry.partner != null {
        var matching := entry.partner;
        var (good, newState) := m.step(state, entry.value.input, matching.value.output);
        StepIs(m, h, state, x);
        if good {
          var hit, cache' := Remember(m, linearized, entry.id, newState, cache, seen);
          if !hit {
            ghost var seen' := seen + {(done + {x}, newState)};
            calls := Enter(m, h, head, ns, path, states, seen, seen', state, newState, calls, linearized, cache, cache', entry);
            path, states, seen := path + [x], states + [newState], seen';
            state, cache := newState, cache';
            SearchHead(m, h, head, ns, path, states, seen, state, calls, linearized, cache);
            StartCursor(m, h, head, ns, Ids(path), state);
            entry, at := head.next, 0;
          } else {
            SearchHead(m, h, head, ns, path, states, seen, state, calls, linearized, cache);
            ghost var t :| (done + {x}, t) in seen && m.equal(newState, t);
            HitIsTried(m, h, head, ns, path, states, seen, state, calls, linearized, cache, x, t);
            NextCursor(m, h, head, ns, done, state, entry, at);
            entry, at := entry.next, at + 1;
          }
        } else {
          FailedIsTried(m, h, done, state, x);
          NextCursor(m, h, head, ns, done, state, entry, at);
          entry, at := entry.next, at + 1;
        }
      } else {
        ReturnMeansDead(m, h, done, state, All(h, done)[at]);
        if |calls| == 0 {
          NotLinearizable(m, h, path, states, calls, ns);
          return false, [];
        }
        calls, entry, state := Leave(m, h, head, ns, path, states, seen, state, calls, linearized, cache);
        x, path, states := path[|path| - 1], path[..|path| - 1], states[..|path|];
        SearchHead(m, h, head, ns, path, states, seen, state, calls, linearized, cache);
        CallCursor(m, h, ns, Ids(path), state, x);
        NextCursor(m, h, head, ns, Ids(path), state, entry, Rank(h, Ids(path), h.call[x]));
        entry, at := entry.next, Rank(h, Ids(path), h.call[x]) + 1;
      }
    }
    SearchHead(m, h, head, ns, path, states, seen, state, calls, linearized, cache);
    Found(m, h, path, states);
    order := Placed(calls, h, ns, path, states);
    ok := true;
  }
}

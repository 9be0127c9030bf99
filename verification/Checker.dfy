/** The checker's depth-first search over a linked list, a bitset, a stack and a cache: it answers
    exactly whether the history is linearizable. */
module Checker {
  import opened Quorums
  import opened Linearizability
  import opened LinkedEntries
  import opened PendingList
  import opened PendingChain
  import opened Bitset

  // ----- the cache of configurations already entered

  /** A cached configuration; its bitset is a clone that is never changed, so its contents suffice. */
  datatype CacheEntry<S> = CacheEntry(linearized: seq<Word>, state: S)

  /** A hash value as a key. */
  datatype Key = Key(hash: Word)

  type Cache<S> = map<Key, seq<CacheEntry<S>>>

  function Bucket<S>(cache: Cache<S>, key: Key): seq<CacheEntry<S>> {
    if key in cache then cache[key] else []
  }

  ghost predicate Stores<S>(cache: Cache<S>, key: Key, i: nat, c: Config<S>) {
    key in cache && i < |cache[key]| && Members(cache[key][i].linearized) == c.0 && cache[key][i].state == c.1
  }

  /** Every cached entry is in the bucket of its hash, and the entries are the configurations seen. */
  ghost predicate CacheOk<S>(cache: Cache<S>, seen: set<Config<S>>, width: nat) {
    && (forall k, i: nat :: k in cache && i < |cache[k]| ==>
          var e := cache[k][i];
          k == Key(HashOf(e.linearized)) && |e.linearized| == width && (Members(e.linearized), e.state) in seen)
    && (forall c :: c in seen ==> exists k, i: nat :: Stores(cache, k, i, c))
  }

  method CacheContains<S, I, O>(m: Model<S, I, O>, cache: Cache<S>, linearized: array<Word>, state: S) returns (found: bool)
    ensures found <==> exists e :: e in Bucket(cache, Key(HashOf(linearized[..]))) && e.linearized == linearized[..] && m.equal(state, e.state)
  {
    var hash := Hash(linearized);
    var bucket := Bucket(cache, Key(hash));
    for i := 0 to |bucket|
      invariant forall e :: e in bucket[..i] ==> e.linearized != linearized[..] || !m.equal(state, e.state)
    {
      var same := Equals(linearized, bucket[i].linearized);
      if same && m.equal(state, bucket[i].state) {
        assert bucket[i] in Bucket(cache, Key(HashOf(linearized[..])));
        return true;
      }
    }
    assert bucket[..|bucket|] == bucket;
    found := false;
  }

  lemma CacheHit<S>(cache: Cache<S>, seen: set<Config<S>>, width: nat, words: seq<Word>, e: CacheEntry<S>)
    requires CacheOk(cache, seen, width) && e in Bucket(cache, Key(HashOf(words))) && e.linearized == words
    ensures (Members(words), e.state) in seen
  {
  }

  lemma CacheFinds<S>(cache: Cache<S>, seen: set<Config<S>>, words: seq<Word>, st: S)
    requires CacheOk(cache, seen, |words|) && (Members(words), st) in seen
    ensures CacheEntry(words, st) in Bucket(cache, Key(HashOf(words)))
  {
    hide Members, HashOf;
    var k, i: nat :| Stores(cache, k, i, (Members(words), st));
    SameMembers(cache[k][i].linearized, words);
  }

  /** A lookup that fails means the configuration was never seen: equality is reflexive. */
  lemma CacheMiss<S(!new), I(!new), O(!new)>(m: Model<S, I, O>, cache: Cache<S>, seen: set<Config<S>>, words: seq<Word>, st: S)
    requires CacheOk(cache, seen, |words|) && Congruent(m)
    requires forall e :: e in Bucket(cache, Key(HashOf(words))) && e.linearized == words ==> !m.equal(st, e.state)
    ensures (Members(words), st) !in seen
  {
    hide Members, HashOf, CacheOk, Bucket;
    if (Members(words), st) in seen { CacheFinds(cache, seen, words, st); }
  }

  function Added<S>(cache: Cache<S>, key: Key, e: CacheEntry<S>): Cache<S> {
    cache[key := Bucket(cache, key) + [e]]
  }

  lemma CacheAdd<S>(cache: Cache<S>, seen: set<Config<S>>, words: seq<Word>, st: S)
    requires CacheOk(cache, seen, |words|)
    ensures CacheOk(Added(cache, Key(HashOf(words)), CacheEntry(words, st)), seen + {(Members(words), st)}, |words|)
  {
    hide Members, HashOf;
    var key, c' := Key(HashOf(words)), (Members(words), st);
    var cache' := Added(cache, key, CacheEntry(words, st));
    forall c | c in seen + {c'} ensures exists k, i: nat :: Stores(cache', k, i, c) {
      if c in seen {
        var k, i: nat :| Stores(cache, k, i, c);
        assert Stores(cache', k, i, c);
      } else {
        assert Stores(cache', key, |Bucket(cache, key)|, c);
      }
    }
  }

  // ----- the cursor

  /** The cursor stands on a pending entry, everything before it was tried; it is null at the end. */
  ghost predicate Cursor<S, I, O>(m: Model<S, I, O>, h: History<I, O>, ns: seq<Node<I, O>>, done: set<nat>, st: S, entry: Node?<I, O>, at: nat)
    requires h.Valid() && |ns| == |h.entries|
  {
    var ps := All(h, done);
    if ps == [] then entry == null && at == 0
    else at < |ps| && ps[at] < |ns| && entry == ns[ps[at]] && h.entries[ps[at]].id !in done && Scanned(m, h, done, st, ps[at])
  }

  lemma StartCursor<S, I, O>(m: Model<S, I, O>, h: History<I, O>, head: Node<I, O>, ns: seq<Node<I, O>>, done: set<nat>, st: S)
    requires Nodes(h, head, ns) && Linked(Chain(h, head, ns, done))
    ensures Cursor(m, h, ns, done, st, head.next, 0)
    ensures head.next == null <==> All(h, done) == []
  {
    hide Chain, Nodes, History.Valid, Tried;
    GetNodes(h, head, ns);
    ChainIs(h, head, ns, done);
    var ps := All(h, done);
    assert LinkedAt(Chain(h, head, ns, done), 0);
    if ps != [] {
      forall q: nat | q < ps[0] && q < |h.entries| ensures h.entries[q].id in done { FirstPending(h, done, q); }
    }
  }

  lemma NextCursor<S, I, O>(m: Model<S, I, O>, h: History<I, O>, head: Node<I, O>, ns: seq<Node<I, O>>, done: set<nat>, st: S, entry: Node<I, O>, at: nat)
    requires Nodes(h, head, ns) && Linked(Chain(h, head, ns, done)) && Cursor(m, h, ns, done, st, entry, at)
    requires var ps := All(h, done);
      at < |ps| && ps[at] < |ns| && h.entries[ps[at]].Call? && h.entries[ps[at]].id < h.Size() && Tried(m, h, done, st, h.entries[ps[at]].id)
    ensures at + 1 < |All(h, done)| && Cursor(m, h, ns, done, st, entry.next, at + 1)
  {
    hide Chain, Nodes, History.Valid, Tried, Pending;
    GetNodes(h, head, ns);
    ChainIs(h, head, ns, done);
    var ps := All(h, done);
    var p := ps[at];
    PendingAre(h, done, |h.entries|);
    CallHasNext(h, done, at);
    assert LinkedAt(Chain(h, head, ns, done), at + 1);
    forall q: nat | p < q < ps[at + 1] ensures q < |h.entries| && h.entries[q].id in done {
      NeighboursAdjacent(h, done, at, q);
    }
  }

  lemma CallHasNext<I, O>(h: History<I, O>, done: set<nat>, at: nat)
    requires h.Valid() && at < |All(h, done)| && All(h, done)[at] < |h.entries| && h.entries[All(h, done)[at]].Call?
    ensures at + 1 < |All(h, done)|
  {
    var n, p := |h.entries|, All(h, done)[at];
    PendingAre(h, done, n);
    AtRank(h, done, p, n);
    LastIsReturn(h, done, p);
  }

  lemma CallCursor<S, I, O>(m: Model<S, I, O>, h: History<I, O>, ns: seq<Node<I, O>>, done: set<nat>, st: S, x: nat)
    requires h.Valid() && |ns| == |h.entries| && x < h.Size() && x !in done && Scanned(m, h, done, st, h.call[x])
    ensures var at := Rank(h, done, h.call[x]);
      && Cursor(m, h, ns, done, st, ns[h.call[x]], at)
      && at < |All(h, done)| && All(h, done)[at] == h.call[x]
      && h.call[x] < |ns| && h.entries[h.call[x]].Call? && h.entries[h.call[x]].id == x
  {
    hide Scanned, Pending;
    AtRank(h, done, h.call[x], |h.entries|);
  }

  /** What the node under the cursor holds. */
  lemma EntryHolds<S, I, O>(m: Model<S, I, O>, h: History<I, O>, head: Node<I, O>, ns: seq<Node<I, O>>, done: set<nat>, st: S, entry: Node?<I, O>, at: nat)
    requires Nodes(h, head, ns) && Cursor(m, h, ns, done, st, entry, at) && All(h, done) != []
    ensures at < |All(h, done)| && entry != null
    ensures var p := All(h, done)[at];
      && p < |ns| && entry == ns[p] && Scanned(m, h, done, st, p)
      && var e := h.entries[p];
         && e.id !in done && e.id < h.Size() && entry.id == e.id
         && (e.Return? ==> entry.partner == null)
         && (e.Call? ==> && p == h.call[e.id] && entry.value == Input(h.Input(e.id))
                         && entry.partner != null && entry.partner.value == Output(h.Output(e.id)))
  {
    hide Scanned, Pending;
    var p := All(h, done)[at];
    assert FitsAt(h, ns, 0, p);
    if h.entries[p].Call? { assert FitsAt(h, ns, 0, h.ret[h.entries[p].id]); }
  }

  datatype CallsEntry<S, I, O> = CallsEntry(entry: Node<I, O>, state: S)

  /** The stack holds the nodes of the placed calls and the states they were placed in. */
  ghost predicate CallsOk<S, I, O>(h: History<I, O>, ns: seq<Node<I, O>>, path: seq<nat>, states: seq<S>, calls: seq<CallsEntry<S, I, O>>)
    requires h.Valid() && |ns| == |h.entries| && InRange(h.Size(), path) && |states| == |path| + 1
  {
    |calls| == |path| && forall d :: 0 <= d < |path| ==> calls[d].entry == ns[h.call[path[d]]] && calls[d].state == states[d]
  }

  method Length<I, O>(n: Node?<I, O>, ghost c: seq<Node<I, O>>) returns (l: nat)
    requires Linked(c) && n == if c == [] then null else c[0]
    ensures l == |c|
  {
    l := 0;
    var at := n;
    while at != null
      invariant l <= |c| && at == if l < |c| then c[l] else null
      decreases |c| - l
    {
      assert LinkedAt(c, l);
      at := at.next;
      l := l + 1;
    }
  }
}

/** The entries still pending when some operations are placed, as positions in the history:
    what the checker's linked list holds between its head and its end. */
module PendingList {
  import opened Linearizability
  import opened Quorums

  /** The positions below p whose operation is not in `done`, in order. */
  function Pending<I, O>(h: History<I, O>, done: set<nat>, p: nat): seq<nat>
    requires p <= |h.entries|
  {
    if p == 0 then []
    else Pending(h, done, p - 1) + if h.entries[p - 1].id in done then [] else [p - 1]
  }

  /** How many pending entries stand before position p. */
  function Rank<I, O>(h: History<I, O>, done: set<nat>, p: nat): nat
    requires p <= |h.entries|
  {
    |Pending(h, done, p)|
  }

  function All<I, O>(h: History<I, O>, done: set<nat>): seq<nat> { Pending(h, done, |h.entries|) }

  lemma {:induction false} PendingPrefix<I, O>(h: History<I, O>, done: set<nat>, q: nat, p: nat)
    requires q <= p <= |h.entries|
    ensures Pending(h, done, q) <= Pending(h, done, p)
    decreases p
  {
    if q < p { PendingPrefix(h, done, q, p - 1); }
  }

  lemma {:induction false} PendingAre<I, O>(h: History<I, O>, done: set<nat>, p: nat)
    requires p <= |h.entries|
    ensures forall i :: 0 <= i < |Pending(h, done, p)| ==>
      Pending(h, done, p)[i] < p && h.entries[Pending(h, done, p)[i]].id !in done
    ensures forall i, j :: 0 <= i < j < |Pending(h, done, p)| ==> Pending(h, done, p)[i] < Pending(h, done, p)[j]
  {
    if p > 0 { PendingAre(h, done, p - 1); }
  }

  /** A pending position is found at its rank. */
  lemma AtRank<I, O>(h: History<I, O>, done: set<nat>, q: nat, p: nat)
    requires q < p <= |h.entries| && h.entries[q].id !in done
    ensures Rank(h, done, q) < |Pending(h, done, p)| && Pending(h, done, p)[Rank(h, done, q)] == q
  {
    PendingPrefix(h, done, q + 1, p);
    assert Pending(h, done, q + 1)[Rank(h, done, q)] == q;
  }

  /** Between two neighbours of the list nothing is pending. */
  lemma NeighboursAdjacent<I, O>(h: History<I, O>, done: set<nat>, i: nat, q: nat)
    requires i + 1 < |All(h, done)| && All(h, done)[i] < q < All(h, done)[i + 1]
    ensures q < |h.entries| && h.entries[q].id in done
  {
    var n := |h.entries|;
    PendingAre(h, done, n);
    if h.entries[q].id !in done {
      AtRank(h, done, q, n);
    }
  }

  lemma FirstPending<I, O>(h: History<I, O>, done: set<nat>, q: nat)
    requires All(h, done) != [] && q < All(h, done)[0]
    ensures q < |h.entries| && h.entries[q].id in done
  {
    var n := |h.entries|;
    PendingAre(h, done, n);
    if h.entries[q].id !in done { AtRank(h, done, q, n); }
  }

  /** The last pending entry is a return. */
  lemma LastIsReturn<I, O>(h: History<I, O>, done: set<nat>, p: nat)
    requires h.Valid() && p < |h.entries| && h.entries[p].Call? && h.entries[p].id !in done
    ensures Rank(h, done, p) + 1 < |All(h, done)|
  {
    var r := h.ret[h.entries[p].id];
    AtRank(h, done, p, r);
    AtRank(h, done, r, |h.entries|);
  }

  function Drop<T>(s: seq<T>, i: int, j: int): seq<T>
    requires 0 <= i < j < |s|
  {
    s[..i] + s[i + 1..j] + s[j + 1..]
  }

  lemma {:induction false} PlaceBefore<I, O>(h: History<I, O>, done: set<nat>, x: nat, p: nat)
    requires h.Valid() && x < h.Size() && p <= h.call[x]
    ensures Pending(h, done + {x}, p) == Pending(h, done, p)
  {
    if p > 0 {
      PlaceBefore(h, done, x, p - 1);
      assert h.entries[p - 1].id != x;
    }
  }

  function Skip<T>(s: seq<T>, i: int): seq<T>
    requires 0 <= i < |s|
  {
    s[..i] + s[i + 1..]
  }

  lemma SkipLast<T>(s: seq<T>, i: int, y: T)
    requires 0 <= i <= |s|
    ensures Skip(s + [y], i) == if i == |s| then s else Skip(s, i) + [y]
  {
  }

  lemma {:induction false} PlaceBetween<I, O>(h: History<I, O>, done: set<nat>, x: nat, p: nat)
    requires h.Valid() && x < h.Size() && x !in done && h.call[x] < p <= h.ret[x]
    ensures var i := Rank(h, done, h.call[x]);
      i < |Pending(h, done, p)| && Pending(h, done + {x}, p) == Skip<nat>(Pending(h, done, p), i)
  {
    hide Skip, Pending, History.Valid;
    Places(h, x);
    var a, i := Pending(h, done, p - 1), Rank(h, done, h.call[x]);
    PendingStep(h, done, p);
    PendingStep(h, done + {x}, p);
    if p - 1 == h.call[x] {
      PlaceBefore(h, done, x, p - 1);
      SkipLast<nat>(a, i, p - 1);
    } else {
      PlaceBetween(h, done, x, p - 1);
      OnlyTwo(h, x, p - 1);
      if h.entries[p - 1].id !in done { SkipLast<nat>(a, i, p - 1); }
    }
  }

  lemma OnlyTwo<I, O>(h: History<I, O>, x: nat, p: nat)
    requires h.Valid() && x < h.Size() && p < |h.entries| && p != h.call[x] && p != h.ret[x]
    ensures h.entries[p].id != x
  {
  }

  lemma DropLast<T>(s: seq<T>, i: int, j: int, y: T)
    requires 0 <= i < j <= |s|
    ensures Drop(s + [y], i, j) == if j == |s| then Skip(s, i) else Drop(s, i, j) + [y]
  {
  }

  lemma Places<I, O>(h: History<I, O>, x: nat)
    requires h.Valid() && x < h.Size()
    ensures |h.ret| == |h.call| && h.call[x] < h.ret[x] < |h.entries|
    ensures h.entries[h.call[x]].id == x && h.entries[h.ret[x]].id == x
  {
  }

  lemma CallRankLess<I, O>(h: History<I, O>, done: set<nat>, x: nat)
    requires h.Valid() && x < h.Size() && x !in done
    ensures Rank(h, done, h.call[x]) < Rank(h, done, h.ret[x])
  {
    AtRank(h, done, h.call[x], h.ret[x]);
  }

  /** Placing x takes exactly its call and its return out of the list. */
  lemma {:induction false} PlaceDrops<I, O>(h: History<I, O>, done: set<nat>, x: nat, p: nat)
    requires h.Valid() && x < h.Size() && x !in done && h.ret[x] < p <= |h.entries|
    ensures var i, j := Rank(h, done, h.call[x]), Rank(h, done, h.ret[x]);
      i < j < |Pending(h, done, p)| && Pending(h, done + {x}, p) == Drop<nat>(Pending(h, done, p), i, j)
  {
    hide Drop, Skip, Pending, History.Valid;
    Places(h, x);
    var a, i, j := Pending(h, done, p - 1), Rank(h, done, h.call[x]), Rank(h, done, h.ret[x]);
    PendingStep(h, done, p);
    PendingStep(h, done + {x}, p);
    CallRankLess(h, done, x);
    if p - 1 == h.ret[x] {
      PlaceBetween(h, done, x, p - 1);
      DropLast<nat>(a, i, j, p - 1);
    } else {
      PlaceDrops(h, done, x, p - 1);
      OnlyTwo(h, x, p - 1);
      if h.entries[p - 1].id !in done { DropLast<nat>(a, i, j, p - 1); }
    }
  }

  lemma PendingStep<I, O>(h: History<I, O>, done: set<nat>, p: nat)
    requires 0 < p <= |h.entries|
    ensures Pending(h, done, p) ==
      if h.entries[p - 1].id in done then Pending(h, done, p - 1) else Pending(h, done, p - 1) + [p - 1]
  {
  }

  /** Nothing is pending exactly when everything is placed. */
  lemma EmptyMeansDone<I, O>(h: History<I, O>, done: set<nat>)
    requires h.Valid() && done <= Below(h.Size()) && All(h, done) == []
    ensures done == Below(h.Size())
  {
    forall x: nat | x < h.Size() ensures x in done {
      if x !in done { AtRank(h, done, h.call[x], |h.entries|); }
    }
  }
}

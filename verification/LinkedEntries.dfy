/** The checker's doubly linked list of call and return nodes: taking a call out together
    with its return, and putting both back in the reverse order. */
module LinkedEntries {
  import opened Linearizability
  import opened PendingList

  datatype Payload<I, O> = Input(input: I) | Output(output: O) | Nothing

  class Node<I, O> {
    const value: Payload<I, O>
    const partner: Node?<I, O>  // a call's return; null on a return and on the head
    const id: int
    var next: Node?<I, O>
    var prev: Node?<I, O>

    constructor (value: Payload<I, O>, partner: Node?<I, O>, id: int)
      ensures this.value == value && this.partner == partner && this.id == id
      ensures next == null && prev == null
    {
      this.value, this.partner, this.id := value, partner, id;
      next, prev := null, null;
    }
  }

  /** What node i of the list c points forward to, and, but for the first, back to. */
  ghost predicate LinkedAt<I, O>(c: seq<Node<I, O>>, i: nat)
    requires i < |c|
    reads c[i]
  {
    && c[i].next == (if i + 1 < |c| then c[i + 1] else null)
    && (i > 0 ==> c[i].prev == c[i - 1])
  }

  /** The nodes of c, in order, are doubly linked; the last has no next. */
  ghost predicate Linked<I, O>(c: seq<Node<I, O>>)
    reads c
  {
    Distinct(c) && forall i :: 0 <= i < |c| ==> LinkedAt(c, i)
  }

  /** Puts n in front of the node at position i; before an empty list n stands alone. */
  method InsertBefore<I, O>(n: Node<I, O>, mark: Node?<I, O>, ghost c: seq<Node<I, O>>, ghost i: nat)
    requires Linked(c) && n !in c && n.next == null && n.prev == null && i <= |c|
    requires if c == [] then mark == null else i < |c| && mark == c[i]
    requires c != [] ==> c[0].prev == null
    modifies n, c
    ensures Linked(c[..i] + [n] + c[i..]) && (c[..i] + [n] + c[i..])[0].prev == null
  {
    if mark != null {
      assert LinkedAt(c, i);
      var beforeMark := mark.prev;
      mark.prev := n;
      n.next := mark;
      if beforeMark != null {
        assert LinkedAt(c, i - 1);
        n.prev := beforeMark;
        beforeMark.next := n;
      }
    }
    ghost var d := c[..i] + [n] + c[i..];
    forall k | 0 <= k < |d| ensures LinkedAt(d, k) {
      if k != i { assert d[k] == c[if k < i then k else k - 1] && old(LinkedAt(c, if k < i then k else k - 1)); }
      if k + 1 < |d| { assert d[k + 1] == if k + 1 < i then c[k + 1] else if k + 1 == i then n else c[k]; }
      if k > i + 1 { assert d[k - 1] == c[k - 2]; }
    }
  }

  /** The nodes built so far, those from position `from` on, hold what the history says. */
  ghost predicate Fits<I, O>(h: History<I, O>, ns: seq<Node<I, O>>, from: nat)
    requires h.Valid() && from <= |h.entries| && |ns| == |h.entries| - from
  {
    forall p :: from <= p < |h.entries| ==> FitsAt(h, ns, from, p)
  }

  ghost predicate FitsAt<I, O>(h: History<I, O>, ns: seq<Node<I, O>>, from: nat, p: nat)
    requires h.Valid() && from <= p < |h.entries| && |ns| == |h.entries| - from
  {
    var e, n := h.entries[p], ns[p - from];
    && n.id == e.id
    && match e
       case Call(x, v) => n.value == Input(v) && n.partner == ns[h.ret[x] - from]
       case Return(x, v) => n.value == Output(v) && n.partner == null
  }

  /** The table of returns already built. */
  ghost predicate Matched<I, O>(h: History<I, O>, ns: seq<Node<I, O>>, from: nat, matches: map<nat, Node<I, O>>)
    requires h.Valid() && from <= |h.entries| && |ns| == |h.entries| - from
  {
    forall x :: 0 <= x < h.Size() && h.ret[x] >= from ==> x in matches && matches[x] == ns[h.ret[x] - from]
  }

  lemma GetMatch<I, O>(h: History<I, O>, ns: seq<Node<I, O>>, from: nat, matches: map<nat, Node<I, O>>)
    requires h.Valid() && 0 < from <= |h.entries| && |ns| == |h.entries| - from && Matched(h, ns, from, matches)
    requires h.entries[from - 1].Call?
    ensures h.entries[from - 1].id in matches
  {
    assert h.ret[h.entries[from - 1].id] >= from;
  }

  lemma NothingLinked<I, O>()
    ensures Linked<I, O>([])
  {
  }

  lemma FitsReturn<I, O>(h: History<I, O>, ns: seq<Node<I, O>>, from: nat, matches: map<nat, Node<I, O>>, n: Node<I, O>)
    requires h.Valid() && 0 < from <= |h.entries| && |ns| == |h.entries| - from
    requires Fits(h, ns, from) && Matched(h, ns, from, matches)
    requires var e := h.entries[from - 1]; e.Return? && n.id == e.id && n.value == Output(e.output) && n.partner == null
    ensures Fits(h, [n] + ns, from - 1) && Matched(h, [n] + ns, from - 1, matches[h.entries[from - 1].id := n])
  {
    var ns', f := [n] + ns, from - 1;
    forall p | from - 1 <= p < |h.entries| ensures FitsAt(h, ns', f, p) {
      if p >= from { assert FitsAt(h, ns, from, p); }
    }
  }

  lemma FitsCall<I, O>(h: History<I, O>, ns: seq<Node<I, O>>, from: nat, matches: map<nat, Node<I, O>>, n: Node<I, O>)
    requires h.Valid() && 0 < from <= |h.entries| && |ns| == |h.entries| - from
    requires Fits(h, ns, from) && Matched(h, ns, from, matches)
    requires var e := h.entries[from - 1];
      e.Call? && n.id == e.id && n.value == Input(e.input) && e.id in matches && n.partner == matches[e.id]
    ensures Fits(h, [n] + ns, from - 1) && Matched(h, [n] + ns, from - 1, matches)
  {
    var e, ns', f := h.entries[from - 1], [n] + ns, from - 1;
    assert h.ret[e.id] >= from;
    forall p | from - 1 <= p < |h.entries| ensures FitsAt(h, ns', f, p) {
      if p >= from { assert FitsAt(h, ns, from, p); }
    }
  }

  method MakeLinkedEntries<I, O>(entries: seq<Entry<I, O>>, ghost h: History<I, O>)
    returns (root: Node?<I, O>, ghost ns: seq<Node<I, O>>)
    requires h.Valid() && h.entries == entries
    ensures |ns| == |entries| && Linked(ns) && fresh(ns) && Fits(h, ns, 0)
    ensures if ns == [] then root == null else root == ns[0] && root.prev == null
  {
    hide History.Valid, Fits, Matched, Linked;
    root, ns := null, [];
    var matches: map<nat, Node<I, O>> := map[];
    var i := |entries| - 1;
    NothingBuilt(h);
    assert Linked(ns) by { NothingLinked<I, O>(); }
    while i >= 0
      invariant -1 <= i < |entries| && |ns| == |entries| - (i + 1)
      invariant fresh(ns) && Linked(ns)
      invariant if ns == [] then root == null else root == ns[0] && root.prev == null
      invariant Fits(h, ns, i + 1) && Matched(h, ns, i + 1, matches)
    {
      var elem := entries[i];
      if elem.Return? {
        var entry := new Node(Output(elem.output), null, elem.id);
        FitsReturn(h, ns, i + 1, matches, entry);
        matches := matches[elem.id := entry];
        InsertBefore(entry, root, ns, 0);
        assert ns[..0] + [entry] + ns[0..] == [entry] + ns;
        root := entry;
        ns := [entry] + ns;
      } else {
        GetMatch(h, ns, i + 1, matches);
        var entry := new Node(Input(elem.input), matches[elem.id], elem.id);
        FitsCall(h, ns, i + 1, matches, entry);
        InsertBefore(entry, root, ns, 0);
        assert ns[..0] + [entry] + ns[0..] == [entry] + ns;
        root := entry;
        ns := [entry] + ns;
      }
      i := i - 1;
    }
  }

  lemma NothingBuilt<I, O>(h: History<I, O>)
    requires h.Valid()
    ensures Fits(h, [], |h.entries|) && Matched(h, [], |h.entries|, map[])
  {
  }

  /** One node i of the list c has been bypassed, and still points to its old neighbours. */
  ghost predicate Bypassed<I, O>(c: seq<Node<I, O>>, i: nat)
    requires 0 < i < |c|
    reads c
  {
    Linked(Skip(c, i)) && Distinct(c) && LinkedAt(c, i)
  }

  method Bypass<I, O>(n: Node<I, O>, ghost c: seq<Node<I, O>>, ghost i: nat)
    requires Linked(c) && 0 < i < |c| && n == c[i]
    modifies c
    ensures Bypassed(c, i)
    ensures n.prev == old(n.prev) && n.next == old(n.next)
  {
    assert LinkedAt(c, i) && LinkedAt(c, i - 1) && (i + 1 < |c| ==> LinkedAt(c, i + 1));
    n.prev.next := n.next;
    if n.next != null { n.next.prev := n.prev; }
    ghost var d := Skip(c, i);
    forall k | 0 <= k < |d| ensures LinkedAt(d, k) {
      assert old(LinkedAt(c, if k < i then k else k + 1));
      assert d[k] == c[if k < i then k else k + 1];
      if k + 1 < |d| { assert d[k + 1] == c[if k + 1 < i then k + 1 else k + 2]; }
      if k > 0 { assert d[k - 1] == c[if k - 1 < i then k - 1 else k]; }
    }
  }

  method PutBack<I, O>(n: Node<I, O>, ghost c: seq<Node<I, O>>, ghost i: nat)
    requires 0 < i < |c| && n == c[i] && Bypassed(c, i)
    modifies c
    ensures Linked(c)
  {
    ghost var d := Skip(c, i);
    assert LinkedAt(d, i - 1) && d[i - 1] == c[i - 1];
    if i + 1 < |c| { assert LinkedAt(d, i) && d[i] == c[i + 1]; }
    n.prev.next := n;
    if n.next != null { n.next.prev := n; }
    forall k | 0 <= k < |c| ensures LinkedAt(c, k) {
      if k != i { assert d[if k < i then k else k - 1] == c[k] && old(LinkedAt(d, if k < i then k else k - 1)); }
      if k + 1 < i { assert d[k + 1] == c[k + 1]; }
      if k > i + 1 { assert d[k - 2] == c[k - 1]; }
      if k > i && k + 1 < |c| { assert d[k] == c[k + 1]; }
    }
  }

  /** A lifted call and its return still point into the list they were taken from. */
  ghost predicate Detached<I, O>(c: seq<Node<I, O>>, k: nat, j: nat)
    requires 0 < k < j < |c|
    reads c[k], c[j]
  {
    assert Skip(c, k)[j - 1] == c[j];
    LinkedAt(c, k) && LinkedAt(Skip(c, k), j - 1)
  }

  lemma SkipTwice<T>(c: seq<T>, k: nat, j: nat)
    requires 0 < k < j < |c|
    ensures Skip(Skip(c, k), j - 1) == Drop(c, k, j) && Skip(c, k)[j - 1] == c[j]
    ensures |Skip(c, k)| == |c| - 1 && (forall i :: 0 <= i < |c| - 1 ==> Skip(c, k)[i] == c[if i < k then i else i + 1])
    ensures Distinct(c) ==> Distinct(Skip(c, k)) && c[k] !in Skip(c, k)
  {
  }

  /** Takes a call and its return out: first the call, which always has a successor. */
  method Lift<I, O>(entry: Node<I, O>, ghost c: seq<Node<I, O>>, ghost k: nat, ghost j: nat)
    requires Linked(c) && 0 < k < j < |c| && entry == c[k] && entry.partner == c[j]
    modifies c
    ensures Linked(Drop(c, k, j)) && Detached(c, k, j)
  {
    hide Skip, Drop, Linked, LinkedAt;
    SkipTwice(c, k, j);
    GetDistinctNodes(c);
    Bypass(entry, c, k);
    var partner := entry.partner;
    Bypass(partner, Skip(c, k), j - 1);
  }

  /** Puts both back, the return first. */
  method Unlift<I, O>(entry: Node<I, O>, ghost c: seq<Node<I, O>>, ghost k: nat, ghost j: nat)
    requires 0 < k < j < |c| && entry == c[k] && entry.partner == c[j]
    requires Distinct(c) && Linked(Drop(c, k, j)) && Detached(c, k, j)
    modifies c
    ensures Linked(c)
  {
    hide Skip, Drop, Linked, LinkedAt;
    SkipTwice(c, k, j);
    var partner := entry.partner;
    PutBack(partner, Skip(c, k), j - 1);
    PutBack(entry, c, k);
  }

  lemma GetDistinctNodes<I, O>(c: seq<Node<I, O>>)
    requires Linked(c)
    ensures Distinct(c)
  {
  }
}

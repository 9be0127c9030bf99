/** The queue of committed batches waiting to be executed: inserted in order of sequence number by
    binary search, drained as long as the next number is at its head. */
module ExecuteQueue {

  datatype Commit = Commit(view: int, sequence: int, digest: string, identify: int)

  ghost predicate Sorted(q: seq<Commit>) {
    forall i, j :: 0 <= i < j < |q| ==> q[i].sequence <= q[j].sequence
  }

  /** How many commits at the head carry the numbers after `last`, without a gap. */
  function RunLength(q: seq<Commit>, last: int): (r: nat)
    ensures r <= |q| && forall i :: 0 <= i < r ==> q[i].sequence == last + 1 + i
    ensures r < |q| ==> q[r].sequence != last + 1 + r
  {
    if q == [] || q[0].sequence != last + 1 then 0 else 1 + RunLength(q[1..], last + 1)
  }

  /** The place for a number: behind everything not above it. */
  function Place(q: seq<Commit>, sequence: int): (p: nat)
    ensures p <= |q|
  {
    if q == [] || q[|q| - 1].sequence <= sequence then |q| else Place(q[..|q| - 1], sequence)
  }

  lemma {:induction false} PlaceIs(q: seq<Commit>, sequence: int, p: nat)
    requires Sorted(q) && p <= |q|
    requires (forall i :: 0 <= i < p ==> q[i].sequence <= sequence) && (forall i :: p <= i < |q| ==> sequence < q[i].sequence)
    ensures Place(q, sequence) == p
  {
    if p < |q| { PlaceIs(q[..|q| - 1], sequence, p); }
  }

  function Inserted(q: seq<Commit>, msg: Commit): seq<Commit> {
    var p := Place(q, msg.sequence);
    q[..p] + [msg] + q[p..]
  }

  /** Appending, shifting the tail up by one and overwriting inserts. */
  lemma ShiftIn(q: seq<Commit>, msg: Commit, p: nat)
    requires p <= |q|
    ensures var a := q + [msg]; var b := a[..p + 1] + a[p..|a| - 1]; |b| == |a| && b[p := msg] == q[..p] + [msg] + q[p..]
  {
  }

  lemma {:induction false} PlaceSplits(q: seq<Commit>, sequence: int)
    requires Sorted(q)
    ensures var p := Place(q, sequence);
      && (forall i :: 0 <= i < p ==> q[i].sequence <= sequence) && (forall i :: p <= i < |q| ==> sequence < q[i].sequence)
  {
    if q != [] && q[|q| - 1].sequence > sequence { PlaceSplits(q[..|q| - 1], sequence); }
  }

  lemma InsertedSorted(q: seq<Commit>, msg: Commit)
    requires Sorted(q)
    ensures Sorted(Inserted(q, msg))
  {
    hide Place;
    PlaceSplits(q, msg.sequence);
  }

  function Digests(q: seq<Commit>): seq<string> {
    seq(|q|, i requires 0 <= i < |q| => q[i].digest)
  }

  class Buffer {
    var executeQueue: seq<Commit>

    constructor ()
      ensures executeQueue == []
    {
      executeQueue := [];
    }

    /** Inserts behind every commit whose number is not above the new one's. */
    method AppendToExecuteQueue(msg: Commit)
      requires Sorted(executeQueue)
      modifies this
      ensures executeQueue == Inserted(old(executeQueue), msg) && Sorted(executeQueue)
    {
      var q := executeQueue;
      var count, first := |q|, 0;
      while count > 0
        invariant 0 <= first <= first + count <= |q|
        invariant forall i :: 0 <= i < first ==> q[i].sequence <= msg.sequence
        invariant forall i :: first + count <= i < |q| ==> msg.sequence < q[i].sequence
        decreases count
      {
        var step := count / 2;
        var index := step + first;
        if !(msg.sequence < q[index].sequence) {
          first := index + 1;
          count := count - step - 1;
        } else {
          count := step;
        }
      }
      hide Place, Sorted;
      PlaceIs(q, msg.sequence, first);
      ShiftIn(q, msg, first);
      InsertedSorted(q, msg);
      executeQueue := executeQueue + [msg];
      executeQueue := executeQueue[..first + 1] + executeQueue[first..|executeQueue| - 1];
      executeQueue := executeQueue[first := msg];
    }

    /** Takes the unbroken run of numbers after `lastSequence` off the head. */
    method BatchExecute(lastSequence: int) returns (batchs: seq<string>, index: int)
      modifies this
      ensures var r := RunLength(old(executeQueue), lastSequence);
        batchs == Digests(old(executeQueue)[..r]) && index == lastSequence + r && executeQueue == old(executeQueue)[r..]
      ensures |batchs| == index - lastSequence <= |old(executeQueue)| && executeQueue == old(executeQueue)[|batchs|..]
      ensures forall i :: 0 <= i < |batchs| ==>
        old(executeQueue)[i].sequence == lastSequence + 1 + i && batchs[i] == old(executeQueue)[i].digest
      ensures executeQueue != [] ==> executeQueue[0].sequence != index + 1
    {
      hide RunLength, Digests;
      RunDigests(executeQueue, lastSequence);
      var q := executeQueue;
      batchs, index := [], lastSequence;
      var loop := 0;
      RunStep(q, lastSequence, 0);
      while true
        invariant 0 <= loop <= |q| && index == lastSequence + loop && batchs == Digests(q[..loop]) && executeQueue == q
        invariant loop + RunLength(q[loop..], index) == RunLength(q, lastSequence)
        decreases |q| - loop
      {
        RunStep(q, index, loop);
        if loop == |q| {
          executeQueue := [];
          return;
        }
        if q[loop].sequence != index + 1 {
          executeQueue := executeQueue[loop..];
          return;
        }
        batchs := batchs + [q[loop].digest];
        loop := loop + 1;
        index := index + 1;
      }
    }
  }

  lemma RunDigests(q: seq<Commit>, last: int)
    ensures var d := Digests(q[..RunLength(q, last)]);
      |d| == RunLength(q, last) && forall i :: 0 <= i < |d| ==> q[i].sequence == last + 1 + i && d[i] == q[i].digest
  {
  }

  lemma RunStep(q: seq<Commit>, last: int, k: nat)
    requires k <= |q|
    ensures RunLength(q[k..], last) ==
      if k == |q| || q[k].sequence != last + 1 then 0 else 1 + RunLength(q[k + 1..], last + 1)
    ensures k < |q| ==> Digests(q[..k + 1]) == Digests(q[..k]) + [q[k].digest]
    ensures Digests(q[..0]) == [] && q[0..] == q
  {
    if k < |q| { assert q[k..][1..] == q[k + 1..]; }
  }

  // ----- whole runs

  /** A node's execution: the queue, the last number executed, and what was executed and enqueued. */
  datatype Node = Node(queue: seq<Commit>, last: int, executed: seq<Commit>, enqueued: seq<Commit>)

  datatype Event = Enqueue(msg: Commit) | Execute

  function Next(n: Node, e: Event): Node {
    match e
    case Enqueue(msg) => n.(queue := Inserted(n.queue, msg), enqueued := n.enqueued + [msg])
    case Execute =>
      var r := RunLength(n.queue, n.last);
      n.(queue := n.queue[r..], last := n.last + r, executed := n.executed + n.queue[..r])
  }

  function Run(n: Node, events: seq<Event>): Node
    decreases |events|
  {
    if events == [] then n else Next(Run(n, events[..|events| - 1]), events[|events| - 1])
  }

  ghost predicate Has(q: seq<Commit>, sequence: int) {
    exists i :: 0 <= i < |q| && q[i].sequence == sequence
  }

  /** Every number is enqueued once, and above the one execution started from. */
  ghost predicate Fresh(n: Node, start: int, e: Event) {
    e.Enqueue? ==> e.msg.sequence > start && !Has(n.enqueued, e.msg.sequence)
  }

  ghost predicate AllFresh(start: int, events: seq<Event>) {
    forall k :: 0 <= k < |events| ==> Fresh(Run(Node([], start, [], []), events[..k]), start, events[k])
  }

  /** The queue ascends strictly, above what was executed. */
  ghost predicate Waiting(q: seq<Commit>, last: int) {
    && (forall i, j :: 0 <= i < j < |q| ==> q[i].sequence < q[j].sequence)
    && (forall i :: 0 <= i < |q| ==> q[i].sequence > last)
  }

  /** The executed numbers follow one another without a gap. */
  ghost predicate GapFree(executed: seq<Commit>, start: int, last: int) {
    last == start + |executed| && forall i :: 0 <= i < |executed| ==> executed[i].sequence == start + 1 + i
  }

  /** Each enqueued commit is executed or waits, and is never in both. */
  ghost predicate Conserved(n: Node) {
    multiset(n.enqueued) == multiset(n.executed) + multiset(n.queue)
  }

  ghost predicate Ordered(n: Node, start: int) {
    Waiting(n.queue, n.last) && GapFree(n.executed, start, n.last) && Conserved(n)
  }

  lemma InsertedCounts(q: seq<Commit>, msg: Commit)
    ensures multiset(Inserted(q, msg)) == multiset(q) + multiset{msg}
  {
    var p := Place(q, msg.sequence);
    assert q == q[..p] + q[p..];
  }

  lemma InsertedWaits(q: seq<Commit>, last: int, msg: Commit)
    requires Waiting(q, last) && msg.sequence > last && !Has(q, msg.sequence)
    ensures Waiting(Inserted(q, msg), last)
  {
    hide Place;
    PlaceSplits(q, msg.sequence);
    var p := Place(q, msg.sequence);
    assert forall i :: 0 <= i < p ==> q[i].sequence != msg.sequence;
  }

  /** An insert keeps the order exactly when its number is fresh. */
  lemma EnqueueKeeps(n: Node, start: int, msg: Commit)
    requires Ordered(n, start)
    ensures Ordered(Next(n, Enqueue(msg)), start) <==> Fresh(n, start, Enqueue(msg))
  {
    hide Inserted, Waiting, GapFree, Has;
    InsertedCounts(n.queue, msg);
    assert multiset(n.enqueued + [msg]) == multiset(n.enqueued) + multiset{msg};
    if msg.sequence > start { NoneTwice(n, start, msg.sequence); }
    OneOfTwo(n, start, msg.sequence);
    if msg.sequence > n.last && !Has(n.queue, msg.sequence) {
      InsertedWaits(n.queue, n.last, msg);
    } else {
      InsertedDoesNotWait(n.queue, n.last, msg);
    }
  }

  lemma InsertedDoesNotWait(q: seq<Commit>, last: int, msg: Commit)
    requires Waiting(q, last) && (msg.sequence <= last || Has(q, msg.sequence))
    ensures !Waiting(Inserted(q, msg), last)
  {
    hide Place;
    PlaceSplits(q, msg.sequence);
    var p, r := Place(q, msg.sequence), Inserted(q, msg);
    assert r[p] == msg;
    if i :| 0 <= i < |q| && q[i].sequence == msg.sequence {
      assert i < p && r[i] == q[i];
    }
  }

  lemma OneOfTwo(n: Node, start: int, sequence: int)
    requires Ordered(n, start)
    ensures n.last >= start
    ensures Has(n.enqueued, sequence) ==> sequence <= n.last || Has(n.queue, sequence)
  {
    if i :| 0 <= i < |n.enqueued| && n.enqueued[i].sequence == sequence {
      var x := n.enqueued[i];
      assert x in multiset(n.enqueued);
      assert x in multiset(n.executed) || x in multiset(n.queue);
    }
  }

  /** A number not enqueued before is above the last executed one and not in the queue. */
  lemma NoneTwice(n: Node, start: int, sequence: int)
    requires Ordered(n, start) && sequence > start
    ensures !Has(n.enqueued, sequence) ==> sequence > n.last && !Has(n.queue, sequence)
  {
    if start < sequence <= n.last {
      assert n.executed[sequence - start - 1] in multiset(n.executed);
      assert n.executed[sequence - start - 1] in multiset(n.enqueued);
    }
    if i :| 0 <= i < |n.queue| && n.queue[i].sequence == sequence {
      assert n.queue[i] in multiset(n.queue);
      assert n.queue[i] in multiset(n.enqueued);
    }
  }

  /** Moving the run at the head from the waiting to the executed. */
  lemma RunMoves(q: seq<Commit>, executed: seq<Commit>, start: int, last: int)
    requires Waiting(q, last) && GapFree(executed, start, last)
    ensures var r := RunLength(q, last); Waiting(q[r..], last + r) && GapFree(executed + q[..r], start, last + r)
  {
    var r := RunLength(q, last);
    hide RunLength;
    RestWaits(q, last, r);
    RunFollows(executed, q[..r], start, last);
  }

  lemma RestWaits(q: seq<Commit>, last: int, r: nat)
    requires Waiting(q, last) && r <= |q| && forall i :: 0 <= i < r ==> q[i].sequence == last + 1 + i
    ensures Waiting(q[r..], last + r)
  {
    if r > 0 {
      assert q[r - 1].sequence == last + r;
      forall i | r <= i < |q| ensures q[i].sequence > last + r { assert q[r - 1].sequence < q[i].sequence; }
    }
    assert forall i :: 0 <= i < |q[r..]| ==> q[r..][i] == q[r + i];
  }

  lemma RunFollows(executed: seq<Commit>, run: seq<Commit>, start: int, last: int)
    requires GapFree(executed, start, last) && forall i :: 0 <= i < |run| ==> run[i].sequence == last + 1 + i
    ensures GapFree(executed + run, start, last + |run|)
  {
    var e := |executed|;
    forall i | 0 <= i < e + |run| ensures (executed + run)[i].sequence == start + 1 + i {
      if i >= e { assert run[i - e].sequence == last + 1 + (i - e); }
    }
  }

  lemma MovedCounts(q: seq<Commit>, executed: seq<Commit>, r: nat)
    requires r <= |q|
    ensures multiset(executed + q[..r]) + multiset(q[r..]) == multiset(executed) + multiset(q)
  {
    assert q == q[..r] + q[r..];
  }

  lemma ExecuteKeeps(n: Node, start: int)
    requires Ordered(n, start)
    ensures Ordered(Next(n, Execute), start)
  {
    hide Waiting, GapFree, RunLength;
    RunMoves(n.queue, n.executed, start, n.last);
    MovedCounts(n.queue, n.executed, RunLength(n.queue, n.last));
  }

  /** Over every interleaving of inserts and drains with fresh numbers. */
  lemma {:induction false} RunOrdered(start: int, events: seq<Event>)
    requires AllFresh(start, events)
    ensures Ordered(Run(Node([], start, [], []), events), start)
  {
    var n := |events|;
    if n > 0 {
      var before := events[..n - 1];
      forall k | 0 <= k < n - 1 ensures Fresh(Run(Node([], start, [], []), before[..k]), start, before[k]) {
        assert before[..k] == events[..k];
      }
      RunOrdered(start, before);
      var m := Run(Node([], start, [], []), before);
      assert Fresh(m, start, events[n - 1]);
      match events[n - 1] {
        case Enqueue(msg) => EnqueueKeeps(m, start, msg);
        case Execute => ExecuteKeeps(m, start);
      }
    }
  }

  /** The order holds throughout a run exactly when all its numbers are fresh. */
  lemma OrderedExactly(start: int, events: seq<Event>)
    ensures AllFresh(start, events) <==>
      forall k :: 0 <= k <= |events| ==> Ordered(Run(Node([], start, [], []), events[..k]), start)
  {
    var n0 := Node([], start, [], []);
    if AllFresh(start, events) {
      forall k | 0 <= k <= |events| ensures Ordered(Run(n0, events[..k]), start) {
        var before := events[..k];
        forall j | 0 <= j < k ensures Fresh(Run(n0, before[..j]), start, before[j]) { assert before[..j] == events[..j]; }
        RunOrdered(start, before);
      }
    } else {
      var k :| 0 <= k < |events| && !Fresh(Run(n0, events[..k]), start, events[k]);
      var m := Run(n0, events[..k]);
      assert events[..k + 1][..k] == events[..k];
      if Ordered(m, start) { EnqueueKeeps(m, start, events[k].msg); }
      assert Run(n0, events[..k + 1]) == Next(m, events[k]);
    }
  }

  /** A drain stops only where a number is missing: afterwards the next one was never enqueued. */
  lemma DrainsAll(n: Node, start: int)
    requires Ordered(n, start)
    ensures var m := Next(n, Execute); forall i :: 0 <= i < |m.enqueued| ==> m.enqueued[i].sequence != m.last + 1
  {
    var m := Next(n, Execute);
    ExecuteKeeps(n, start);
    forall i | 0 <= i < |m.enqueued| ensures m.enqueued[i].sequence != m.last + 1 {
      var x := m.enqueued[i];
      assert x in multiset(m.enqueued);
      assert x in multiset(m.executed) || x in multiset(m.queue);
    }
  }

  // ----- stale numbers

  /** A commit at or below the last executed number is in the queue. */
  ghost predicate Stuck(n: Node) {
    Sorted(n.queue) && exists i :: 0 <= i < |n.queue| && n.queue[i].sequence <= n.last
  }

  lemma StuckStep(n: Node, e: Event)
    requires Stuck(n)
    ensures Stuck(Next(n, e)) && Next(n, e).executed == n.executed
  {
    var i :| 0 <= i < |n.queue| && n.queue[i].sequence <= n.last;
    assert n.queue[0].sequence <= n.queue[i].sequence;
    if e.Enqueue? {
      InsertedSorted(n.queue, e.msg);
      var p, q := Place(n.queue, e.msg.sequence), Inserted(n.queue, e.msg);
      assert q[if i < p then i else i + 1] == n.queue[i];
    } else {
      assert n.queue[..0] == [];
    }
  }

  /** From then on nothing is executed any more, whatever is enqueued. */
  lemma {:induction false} StuckForGood(n: Node, events: seq<Event>)
    requires Stuck(n)
    ensures Stuck(Run(n, events)) && Run(n, events).executed == n.executed
    decreases |events|
  {
    if events != [] {
      StuckForGood(n, events[..|events| - 1]);
      StuckStep(Run(n, events[..|events| - 1]), events[|events| - 1]);
    }
  }
}

/** What a node with a compacted log delivers to the application: which events keep its reads in range,
    and that its whole runs are those of a node that never takes a snapshot. */
module CompactedDelivery {
  import opened CompactedLog

  function Delivered<C, D>(m: ApplyMsg<C, D>): int {
    match m
    case Command(_, i, _) => i
    case Snapshot(_, i, _) => i
  }

  /** Every command carries the index after the one delivered, or stood for, before it. */
  ghost predicate NoGaps<C, D>(applied: seq<ApplyMsg<C, D>>) {
    forall i :: 0 < i < |applied| && applied[i].Command? ==> applied[i].commandIndex == Delivered(applied[i - 1]) + 1
  }

  ghost predicate InStep<C, D>(n: Node<C, D>) {
    && n.applied != [] && n.applied[0].Snapshot? && NoGaps(n.applied)
    && Delivered(n.applied[|n.applied| - 1]) == n.lastApplied
    && n.lastIncludedIndex <= n.lastApplied <= LastIndex(n) && n.commitIndex <= LastIndex(n)
  }

  datatype Event<C, D> =
    | Append(a: AppendArgs<C>)
    | Take(index: int)
    | Install(i: InstallArgs<D>)
    | Apply
    | Accept(command: C)
    | Commit(index: int)

  predicate Conflicts<C, D>(n: Node<C, D>, a: AppendArgs<C>, i: nat)
    requires Mismatch(n, a).success
  {
    var p := Pos(n, a.prevLogIndex + 1) + i;
    i < |a.entries| && p < |n.log| && n.log[p].term != a.entries[i].term
  }

  ghost predicate NoConflict<C, D>(n: Node<C, D>, a: AppendArgs<C>)
    requires Mismatch(n, a).success
  {
    forall i: nat :: !Conflicts(n, a, i)
  }

  /** A newer snapshot ends inside the log, at an entry of another term. */
  predicate Disagrees<C, D>(n: Node<C, D>, a: InstallArgs<D>) {
    && a.term >= n.currentTerm && n.lastIncludedIndex < a.lastIncludedIndex < LastIndex(n)
    && n.log[Pos(n, a.lastIncludedIndex)].term != a.lastIncludedTerm
  }

  /** The event leaves the log long enough for what is applied and committed, and folds only applied
      indices. It does not say that the entries stay the same. */
  ghost predicate LongEnough<C, D>(n: Node<C, D>, e: Event<C, D>) {
    match e
    case Append(a) =>
      (a.term >= n.currentTerm && Mismatch(n, a).success) ==>
        var end := a.prevLogIndex + |a.entries|;
        NoConflict(n, a) || (end >= n.lastApplied && (end >= n.commitIndex || a.leaderCommit > n.commitIndex))
    case Take(index) => index <= n.lastApplied
    case Install(a) => Disagrees(n, a) ==> n.commitIndex <= a.lastIncludedIndex
    case Apply => true
    case Accept(_) => true
    case Commit(index) => CommitInRange(n, index)
  }

  /** Folding past the end of the log, like reading past it, is an index out of range. */
  predicate Enabled<C, D>(n: Node<C, D>, e: Event<C, D>) {
    match e
    case Take(index) => index <= LastIndex(n)
    case Apply => ApplyInRange(n)
    case Commit(index) => CommitInRange(n, index)
    case _ => true
  }

  function Next<C, D>(n: Node<C, D>, e: Event<C, D>): Node<C, D>
    requires Enabled(n, e)
  {
    match e
    case Append(a) => AppendEntries(n, a).0
    case Take(index) => TakeSnapshot(n, index)
    case Install(a) => InstallSnapshot(n, a).0
    case Apply => ApplyLog(n)
    case Accept(c) => Start(n, c)
    case Commit(index) => UpdateCommit(n, n.lastIncludedIndex, index)
  }

  /** Accepting entries cuts the log to their end exactly when one of them conflicts. */
  lemma AcceptedLength<C, D>(n: Node<C, D>, a: AppendArgs<C>)
    requires Mismatch(n, a).success
    ensures n.lastIncludedIndex <= a.prevLogIndex <= LastIndex(n)
    ensures var end := a.prevLogIndex + |a.entries|;
      LastIndex(Accepted(n, a)) ==
        if NoConflict(n, a) && LastIndex(n) > end then LastIndex(n) else end
  {
    hide SaveEntries, FirstOfTerm;
    var pos := Pos(n, a.prevLogIndex + 1);
    var d := FindDifference(n.log, pos, a.entries, 0);
    SavedAre(n.log, pos, a.entries, d);
    if d > 0 { assert !Differ(n.log, pos, a.entries, d - 1); }
    if d == |a.entries| {
      forall i: nat ensures !Conflicts(n, a, i) {
        if i < d { assert !Differ(n.log, pos, a.entries, i); }
      }
    } else if pos + d < |n.log| {
      assert Conflicts(n, a, d);
    }
  }

  /** From a state in step the next read is in range, and an event leaves the state in step exactly
      when it leaves the log long enough. */
  lemma StaysInStep<C, D>(n: Node<C, D>, e: Event<C, D>)
    requires InStep(n)
    ensures ApplyInRange(n) && (LongEnough(n, e) ==> Enabled(n, e))
    ensures Enabled(n, e) ==> (InStep(Next(n, e)) <==> LongEnough(n, e))
  {
    hide SaveEntries, FirstOfTerm;
    match e {
      case Append(a) =>
        if a.term >= n.currentTerm && Mismatch(n, a).success {
          AppendStays(n, a);
        }
      case Install(a) =>
        if a.term >= n.currentTerm && a.lastIncludedIndex > n.lastIncludedIndex { InstallStays(n, a); }
      case _ =>
    }
  }

  lemma AppendStays<C, D>(n: Node<C, D>, a: AppendArgs<C>)
    requires InStep(n) && a.term >= n.currentTerm && Mismatch(n, a).success
    ensures InStep(AppendEntries(n, a).0) <==> LongEnough(n, Append(a))
  {
    hide SaveEntries, FirstOfTerm, Mismatch, Conflicts;
    var m := SeenTerm(n, a.term, a.leaderId);
    SameMismatch(n, m, a);
    AcceptedLength(m, a);
  }

  lemma SameMismatch<C, D>(n: Node<C, D>, m: Node<C, D>, a: AppendArgs<C>)
    requires m.log == n.log && m.lastIncludedIndex == n.lastIncludedIndex && m.lastIncludedTerm == n.lastIncludedTerm
    ensures Mismatch(m, a) == Mismatch(n, a)
    ensures Mismatch(n, a).success ==> forall i: nat :: Conflicts(m, a, i) == Conflicts(n, a, i)
  {
  }

  lemma InstallStays<C, D>(n: Node<C, D>, a: InstallArgs<D>)
    requires InStep(n) && a.term >= n.currentTerm && a.lastIncludedIndex > n.lastIncludedIndex
    ensures InStep(InstallSnapshot(n, a).0) <==> LongEnough(n, Install(a))
  {
  }

  /** Over every run of events that leave the log long enough no read is out of range and commands come without a gap. */
  lemma {:induction false} DeliveryStaysInStep<C, D>(states: seq<Node<C, D>>, events: seq<Event<C, D>>, k: nat)
    requires |states| == |events| + 1 && k <= |events| && InStep(states[0])
    requires forall i :: 0 <= i < |events| ==> LongEnough(states[i], events[i])
    requires forall i :: 0 <= i < |events| ==> Enabled(states[i], events[i]) ==> states[i + 1] == Next(states[i], events[i])
    ensures InStep(states[k]) && ApplyInRange(states[k]) && (k < |events| ==> Enabled(states[k], events[k]))
  {
    if k > 0 {
      DeliveryStaysInStep(states, events, k - 1);
      StaysInStep(states[k - 1], events[k - 1]);
    }
    if k < |events| { StaysInStep(states[k], events[k]); } else { StaysInStep(states[k], Apply); }
  }

  // ----- nothing is committed that nobody said is

  /** The commit index a node was told with an event: by a leader, or by its own count as one. */
  function ToldBy<C, D>(e: Event<C, D>, otherwise: int): int {
    match e
    case Append(a) => a.leaderCommit
    case Commit(index) => index
    case _ => otherwise
  }

  /** The largest commit index the node started with or was told in the first k events. */
  function Told<C, D>(start: int, events: seq<Event<C, D>>, k: nat): int
    requires k <= |events|
  {
    if k == 0 then start
    else
      var before := Told(start, events, k - 1);
      if ToldBy(events[k - 1], before) > before then ToldBy(events[k - 1], before) else before
  }

  lemma CommitsOnlyToldStep<C, D>(n: Node<C, D>, e: Event<C, D>)
    requires Enabled(n, e)
    ensures var n' := Next(n, e);
      && (n'.commitIndex <= n.commitIndex || n'.commitIndex <= ToldBy(e, n.commitIndex))
      && n.applied <= n'.applied
      && forall x :: |n.applied| <= x < |n'.applied| && n'.applied[x].Command? ==> n'.applied[x].commandIndex <= n.commitIndex
  {
    hide SaveEntries, Mismatch;
    match e {
      case Append(a) => if a.term >= n.currentTerm && Mismatch(n, a).success { MismatchBound(n, a); }
      case _ =>
    }
  }

  /** Over every run of possible events neither the commit index nor any command delivered is beyond all that the
      node started with, was told by leaders, or committed as a leader. */
  lemma {:induction false} CommitsOnlyTold<C, D>(states: seq<Node<C, D>>, events: seq<Event<C, D>>, k: nat)
    requires |states| == |events| + 1 && k <= |events|
    requires forall i :: 0 <= i < |events| ==> Enabled(states[i], events[i]) && states[i + 1] == Next(states[i], events[i])
    ensures states[k].commitIndex <= Told(states[0].commitIndex, events, k) && states[0].applied <= states[k].applied
    ensures forall x :: |states[0].applied| <= x < |states[k].applied| && states[k].applied[x].Command? ==>
      states[k].applied[x].commandIndex <= Told(states[0].commitIndex, events, k)
  {
    hide Next, Enabled;
    if k > 0 {
      CommitsOnlyTold(states, events, k - 1);
      var n, n' := states[k - 1], states[k];
      CommitsOnlyToldStep(n, events[k - 1]);
      forall x | |states[0].applied| <= x < |n'.applied| && n'.applied[x].Command?
        ensures n'.applied[x].commandIndex <= Told(states[0].commitIndex, events, k)
      {
        if x < |n.applied| { assert n'.applied[x] == n.applied[x]; }
      }
    }
  }

  /** What is delivered is the full log's command at the index it carries. */
  lemma DeliversFullLog<C, D>(n: Node<C, D>, full: seq<LogEntry<C>>)
    requires Holds(n, full) && InStep(n) && CanApply(n)
    ensures ApplyInRange(n) && 0 <= n.lastApplied < |full|
    ensures var e := full[n.lastApplied];
      ApplyLog(n).applied == n.applied + [Command(e.command, n.lastApplied + 1, e.term)]
  {
    assert n.log[Pos(n, n.lastApplied + 1)] == full[n.lastApplied];
  }

  // ----- when reads stay in range

  /** The next k + 1 rounds of the apply loop read inside the log slice. */
  ghost predicate ReadsOn<C, D>(n: Node<C, D>, k: nat)
    decreases k
  {
    ApplyInRange(n) && (k == 0 || ReadsOn(ApplyLog(n), k - 1))
  }

  /** All of them do exactly when there is nothing to read, or everything up to the commit index lies
      in the slice. */
  predicate Readable<C, D>(n: Node<C, D>) {
    CanApply(n) ==> n.lastIncludedIndex <= n.lastApplied && n.commitIndex <= LastIndex(n)
  }

  lemma {:induction false} ReadableReadsOn<C, D>(n: Node<C, D>, k: nat)
    requires Readable(n)
    ensures ReadsOn(n, k)
    decreases k
  {
    if k > 0 { ReadableReadsOn(ApplyLog(n), k - 1); }
  }

  lemma {:induction false} ReadsOnReadable<C, D>(n: Node<C, D>)
    requires !Readable(n)
    ensures exists k: nat :: !ReadsOn(n, k)
    decreases n.commitIndex - n.lastApplied
  {
    if ApplyInRange(n) {
      ReadsOnReadable(ApplyLog(n));
      var k: nat :| !ReadsOn(ApplyLog(n), k);
      assert !ReadsOn(n, k + 1);
    } else {
      assert !ReadsOn(n, 0);
    }
  }

  /** What a caller can check before the event. */
  ghost predicate Safe<C, D>(n: Node<C, D>, e: Event<C, D>) {
    match e
    case Append(a) =>
      (a.term >= n.currentTerm && Mismatch(n, a).success) ==>
        || NoConflict(n, a) || n.commitIndex <= a.prevLogIndex + |a.entries|
        || a.leaderCommit > n.commitIndex || n.commitIndex <= n.lastApplied
    case Take(index) => index <= n.lastApplied || n.commitIndex <= n.lastApplied
    case Install(a) => Disagrees(n, a) ==> n.commitIndex <= a.lastIncludedIndex
    case Apply => true
    case Accept(_) => true
    case Commit(_) => true
  }

  /** After an event every later read is in range exactly when the event was safe. */
  lemma ReadsExactly<C, D>(n: Node<C, D>, e: Event<C, D>)
    requires InStep(n) && Enabled(n, e)
    ensures (forall k: nat :: ReadsOn(Next(n, e), k)) <==> Safe(n, e)
  {
    hide SaveEntries, FirstOfTerm, ReadsOn;
    SafeReadable(n, e);
    var n' := Next(n, e);
    hide Next, Safe, Readable;
    if Readable(n') {
      forall k: nat ensures ReadsOn(n', k) { ReadableReadsOn(n', k); }
    } else {
      ReadsOnReadable(n');
    }
  }

  lemma SafeReadable<C, D>(n: Node<C, D>, e: Event<C, D>)
    requires InStep(n) && Enabled(n, e)
    ensures Readable(Next(n, e)) <==> Safe(n, e)
  {
    hide SaveEntries, FirstOfTerm, Mismatch, Conflicts;
    match e {
      case Append(a) =>
        if a.term >= n.currentTerm && Mismatch(n, a).success {
          var m := SeenTerm(n, a.term, a.leaderId);
          SameMismatch(n, m, a);
          AcceptedLength(m, a);
        }
      case _ =>
    }
  }

  /** An input that fails: a snapshot that disagrees below the commit index leaves a commit index
      beyond the log, and the next read is out of range. */
  lemma InstallBreaksReads() returns (n: Node<string, string>, e: Event<string, string>)
    ensures InStep(n) && Enabled(n, e) && !Safe(n, e) && !ApplyInRange(Next(n, e))
  {
    var x := LogEntry("x", 1);
    n := Node(1, -1, [x, x, x], 0, 0, 3, 0, Follower, 1, [Snapshot("", 0, 0)]);
    e := Install(InstallArgs(2, 1, 2, 7, "y"));
  }

  /** Being in step is about lengths alone: here both entries delivered are overwritten. */
  lemma InStepOverwrites() returns (n: Node<string, string>, e: Event<string, string>)
    ensures InStep(n) && Enabled(n, e) && InStep(Next(n, e)) && n.lastApplied == n.commitIndex == 2
    ensures |Next(n, e).log| == |n.log| == 2 && Next(n, e).log[0] != n.log[0] && Next(n, e).log[1] != n.log[1]
  {
    var x, y := LogEntry("x", 1), LogEntry("y", 2);
    n := Node(1, -1, [x, x], 0, 0, 2, 2, Follower, 1, [Snapshot("", 0, 0), Command("x", 1, 1), Command("x", 2, 1)]);
    var a := AppendArgs(2, 1, 0, 0, [y, y], 2);
    e := Append(a);
    assert FirstDiffers(n.log, 0, a.entries, 0) by { assert Differ(n.log, 0, a.entries, 0); }
    SavedAre(n.log, 0, a.entries, 0);
    assert Next(n, e).log == [y, y];
  }

  // ----- runs beside a node that never takes a snapshot

  /** The last index delivered or known to be committed. */
  function Settled<C, D>(n: Node<C, D>): int {
    if n.commitIndex > n.lastApplied then n.commitIndex else n.lastApplied
  }

  /** The event overwrites nothing that is settled. `stands` are the entries an installed snapshot stands
      for: they share what is settled, and everything up to an entry of the same term. */
  ghost predicate Respects<C, D>(n: Node<C, D>, full: seq<LogEntry<C>>, e: Event<C, D>, stands: seq<LogEntry<C>>) {
    match e
    case Append(a) =>
      a.term >= n.currentTerm && Mismatch(n, a).success ==>
        forall i: nat :: Conflicts(n, a, i) ==> a.prevLogIndex + 1 + i > Settled(n)
    case Take(index) => index <= n.lastApplied
    case Install(a) =>
      && |stands| == a.lastIncludedIndex && TermAt(stands, |stands|) == a.lastIncludedTerm
      && (forall x :: 0 <= x < |stands| && x < |full| && x < Settled(n) ==> stands[x] == full[x])
      && (|stands| <= |full| && TermAt(full, |stands|) == a.lastIncludedTerm ==> stands == full[..|stands|])
    case Apply => true
    case Accept(_) => true
    case Commit(index) => CommitInRange(n, index)
  }

  predicate TwinEnabled<C, D>(u: Node<C, D>, e: Event<C, D>) {
    (e.Apply? ==> ApplyInRange(u)) && (e.Commit? ==> CommitInRange(u, e.index))
  }

  /** The same event on the uncompacted node. `base` is the other node's last snapshotted index: a message
      that begins below it counts as lost but for its term, and what it covers as committed. The node takes
      no snapshots; an installed one, when newer than the other's, leaves it the entries it stands for. */
  function TwinNext<C, D>(u: Node<C, D>, base: nat, e: Event<C, D>, stands: seq<LogEntry<C>>): Node<C, D>
    requires TwinEnabled(u, e)
  {
    match e
    case Append(a) =>
      if a.term >= u.currentTerm && a.prevLogIndex < base then SeenTerm(u, a.term, a.leaderId) else AppendEntries(u, a).0
    case Take(index) => u
    case Install(a) =>
      if a.term < u.currentTerm then u
      else
        var m := SeenTerm(u, a.term, a.leaderId);
        if a.lastIncludedIndex <= base then m
        else m.(log := if |stands| <= |u.log| && TermAt(u.log, |stands|) == a.lastIncludedTerm then u.log else stands,
                lastApplied := a.lastIncludedIndex,
                applied := u.applied + [Snapshot(a.data, a.lastIncludedIndex, a.lastIncludedTerm)])
    case Apply => ApplyLog(u)
    case Accept(c) => Start(u, c)
    case Commit(index) => UpdateCommit(u, base, index)
  }

  /** Every command delivered so far is settled and is the full log's at its index. */
  ghost predicate DeliveredAre<C, D>(n: Node<C, D>, full: seq<LogEntry<C>>) {
    forall x :: 0 <= x < |n.applied| && n.applied[x].Command? ==>
      var m := n.applied[x];
      && 1 <= m.commandIndex <= n.commitIndex && m.commandIndex <= |full|
      && full[m.commandIndex - 1] == LogEntry(m.command, m.commandTerm)
  }

  /** The two nodes differ only in where the log begins. */
  ghost predicate Twins<C, D>(n: Node<C, D>, u: Node<C, D>) {
    u == Uncompacted(n, u.log) && Holds(n, u.log) && InStep(n) && DeliveredAre(n, u.log)
  }

  lemma DeliveredStay<C, D>(n: Node<C, D>, full: seq<LogEntry<C>>, n': Node<C, D>, full': seq<LogEntry<C>>)
    requires DeliveredAre(n, full) && n'.commitIndex >= n.commitIndex && |full'| >= n.commitIndex
    requires forall x :: 0 <= x < n.commitIndex && x < |full| ==> full'[x] == full[x]
    requires n.applied <= n'.applied && forall x :: |n.applied| <= x < |n'.applied| ==> n'.applied[x].Snapshot?
    ensures DeliveredAre(n', full')
  {
    forall x | 0 <= x < |n'.applied| && n'.applied[x].Command?
      ensures var m := n'.applied[x];
        && 1 <= m.commandIndex <= n'.commitIndex && m.commandIndex <= |full'|
        && full'[m.commandIndex - 1] == LogEntry(m.command, m.commandTerm)
    {
      assert n'.applied[x] == n.applied[x];
    }
  }

  /** Stored entries without a conflict up to index b leave the first b entries alone. */
  lemma SaveKeeps<C, D>(n: Node<C, D>, full: seq<LogEntry<C>>, a: AppendArgs<C>, b: nat)
    requires Holds(n, full) && Mismatch(n, a).success && 0 <= a.prevLogIndex <= |full| && b <= |full|
    requires forall i: nat :: Conflicts(n, a, i) ==> a.prevLogIndex + 1 + i > b
    ensures var full' := SaveEntries(full, a.prevLogIndex, a.entries); |full'| >= b && full'[..b] == full[..b]
  {
    hide SaveEntries, FirstOfTerm, Mismatch;
    var d := FindDifference(full, a.prevLogIndex, a.entries, 0);
    SavedAre(full, a.prevLogIndex, a.entries, d);
    if d < |a.entries| && a.prevLogIndex + d < |full| {
      MismatchBound(n, a);
      assert n.log[Pos(n, a.prevLogIndex + 1) + d] == full[a.prevLogIndex + d];
      assert Conflicts(n, a, d);
    }
  }

  lemma MismatchBound<C, D>(n: Node<C, D>, a: AppendArgs<C>)
    requires Mismatch(n, a).success
    ensures n.lastIncludedIndex <= a.prevLogIndex <= LastIndex(n)
  {
  }

  lemma AppendTwins<C, D>(n: Node<C, D>, u: Node<C, D>, a: AppendArgs<C>)
    requires Twins(n, u) && Respects(n, u.log, Append(a), [])
    ensures Twins(AppendEntries(n, a).0, TwinNext(u, n.lastIncludedIndex, Append(a), []))
  {
    hide InStep, AppendEntries, DeliveredAre, LongEnough, Mismatch, Conflicts, Holds, SaveEntries, TermAt;
    Taken(n, a);
    Taken(u, a);
    if a.term >= n.currentTerm && a.prevLogIndex < n.lastIncludedIndex {
      BelowTwins(n, u, a);
    } else if a.term >= n.currentTerm {
      var n', u' := AppendEntries(n, a).0, AppendEntries(u, a).0;
      LongAppend(n, a);
      StaysInStep(n, Append(a));
      CommitStays(n, a);
      SettledInside(n, u.log);
      if Mismatch(n, a).success { MismatchBound(n, a); }
      AppendSimulates(n, u.log, a);
      SettledStay(n, u.log, a, u'.log);
      DeliveredStay(n, u.log, n', u'.log);
    }
  }

  /** A message that begins below the snapshot is refused and leaves behind its term only. */
  lemma BelowTwins<C, D>(n: Node<C, D>, u: Node<C, D>, a: AppendArgs<C>)
    requires Twins(n, u) && a.term >= n.currentTerm && a.prevLogIndex < n.lastIncludedIndex
    ensures Twins(AppendEntries(n, a).0, SeenTerm(u, a.term, a.leaderId))
  {
    AppendBelow(n, a);
    DeliveredStay(n, u.log, AppendEntries(n, a).0, u.log);
  }

  /** When a message that begins below the snapshot may reach the other node, too: when it brings that one
      nothing new. Otherwise the two nodes part. */
  lemma BelowExactly<C, D>(n: Node<C, D>, u: Node<C, D>, a: AppendArgs<C>)
    requires Twins(n, u) && Respects(u, u.log, Append(a), []) && a.term >= n.currentTerm && a.prevLogIndex < n.lastIncludedIndex
    ensures Twins(AppendEntries(n, a).0, AppendEntries(u, a).0) <==>
      (Mismatch(u, a).success ==> a.prevLogIndex + |a.entries| <= |u.log| && NoConflict(u, a)
                                  && (a.leaderCommit <= u.commitIndex || u.commitIndex == |u.log|))
  {
    hide SaveEntries, FirstOfTerm, DeliveredAre;
    BelowTwins(n, u, a);
    if Mismatch(u, a).success {
      var pos := a.prevLogIndex;
      var d := FindDifference(u.log, pos, a.entries, 0);
      SavedAre(u.log, pos, a.entries, d);
      Stops(u, a, d);
      if d < |a.entries| { AddsAnEntry(n, u, a, d); }
    }
  }

  /** Entries are saved exactly when one conflicts or lies beyond the log. */
  lemma Stops<C, D>(u: Node<C, D>, a: AppendArgs<C>, d: nat)
    requires u.lastIncludedIndex == 0 && Mismatch(u, a).success && FirstDiffers(u.log, a.prevLogIndex, a.entries, d)
    ensures a.prevLogIndex + d <= |u.log|
    ensures d == |a.entries| <==> a.prevLogIndex + |a.entries| <= |u.log| && NoConflict(u, a)
    ensures d < |a.entries| && a.prevLogIndex + d < |u.log| ==> Conflicts(u, a, d)
  {
    hide Mismatch;
    MismatchBound(u, a);
    if d > 0 { assert !Differ(u.log, a.prevLogIndex, a.entries, d - 1); }
    if d == |a.entries| {
      forall i: nat ensures !Conflicts(u, a, i) {
        if i < d { assert !Differ(u.log, a.prevLogIndex, a.entries, i); }
      }
    } else if a.prevLogIndex + d < |u.log| {
      assert Conflicts(u, a, d);
    }
  }

  /** What the other node then saves behind the snapshot is not in this one's slice. */
  lemma AddsAnEntry<C, D>(n: Node<C, D>, u: Node<C, D>, a: AppendArgs<C>, d: nat)
    requires Twins(n, u) && Respects(u, u.log, Append(a), []) && a.term >= n.currentTerm && a.prevLogIndex < n.lastIncludedIndex
    requires Mismatch(u, a).success && 0 <= a.prevLogIndex && FirstDiffers(u.log, a.prevLogIndex, a.entries, d) && d < |a.entries|
    ensures !Twins(AppendEntries(n, a).0, AppendEntries(u, a).0)
  {
    hide SaveEntries, FirstOfTerm, DeliveredAre;
    Stops(u, a, d);
    AppendBelow(n, a);
    SavedAre(u.log, a.prevLogIndex, a.entries, d);
    var full', p := AppendEntries(u, a).0.log, a.prevLogIndex + d;
    assert full' == u.log[..p] + a.entries[d..];
    if p < |u.log| { assert full'[p].term != u.log[p].term && p >= n.lastIncludedIndex; }
  }

  lemma SettledInside<C, D>(n: Node<C, D>, full: seq<LogEntry<C>>)
    requires Holds(n, full) && InStep(n)
    ensures 0 <= Settled(n) <= LastIndex(n) == |full| && 0 <= n.lastIncludedIndex
  {
  }

  /** A message of an earlier term changes nothing, another is taken exactly when it matches. */
  lemma Taken<C, D>(n: Node<C, D>, a: AppendArgs<C>)
    ensures if a.term < n.currentTerm then AppendEntries(n, a).0 == n else AppendEntries(n, a).1.success == Mismatch(n, a).success
  {
    hide Accepted, Mismatch;
  }

  lemma CommitStays<C, D>(n: Node<C, D>, a: AppendArgs<C>)
    requires InStep(n) && Respects(n, [], Append(a), [])
    ensures var n' := AppendEntries(n, a).0;
      n'.applied == n.applied && n'.commitIndex >= n.commitIndex && n.commitIndex <= Settled(n) <= LastIndex(n)
  {
    hide SaveEntries, FirstOfTerm, Conflicts;
    if a.term >= n.currentTerm && Mismatch(n, a).success {
      var m := SeenTerm(n, a.term, a.leaderId);
      SameMismatch(n, m, a);
      AcceptedLength(m, a);
      if i: nat :| Conflicts(n, a, i) { ConflictInside(n, a, i); }
    }
  }

  lemma ConflictInside<C, D>(n: Node<C, D>, a: AppendArgs<C>, i: nat)
    requires Mismatch(n, a).success && Conflicts(n, a, i)
    ensures i < |a.entries|
  {
  }

  /** What is settled stays, whether the entries are taken or not. */
  lemma SettledStay<C, D>(n: Node<C, D>, full: seq<LogEntry<C>>, a: AppendArgs<C>, full': seq<LogEntry<C>>)
    requires Holds(n, full) && Respects(n, full, Append(a), []) && a.term >= n.currentTerm && 0 <= Settled(n) <= |full|
    requires Mismatch(n, a).success ==> a.prevLogIndex <= |full| && full' == SaveEntries(full, a.prevLogIndex, a.entries)
    requires !Mismatch(n, a).success ==> full' == full
    ensures |full'| >= Settled(n) && full'[..Settled(n)] == full[..Settled(n)]
  {
    hide SaveEntries, Mismatch;
    if Mismatch(n, a).success {
      MismatchBound(n, a);
      SaveKeeps(n, full, a, Settled(n));
    }
  }

  lemma LongAppend<C, D>(n: Node<C, D>, a: AppendArgs<C>)
    requires InStep(n) && Respects(n, [], Append(a), [])
    ensures LongEnough(n, Append(a))
  {
  }

  /** An installed snapshot leaves both nodes with the same log. */
  lemma InstallSame<C, D>(n: Node<C, D>, u: Node<C, D>, a: InstallArgs<D>, stands: seq<LogEntry<C>>)
    requires u == Uncompacted(n, u.log) && Holds(n, u.log) && Respects(n, u.log, Install(a), stands)
    requires a.term >= n.currentTerm && a.lastIncludedIndex > n.lastIncludedIndex
    ensures var n', u' := InstallSnapshot(n, a).0, TwinNext(u, n.lastIncludedIndex, Install(a), stands);
      && u' == Uncompacted(n', u'.log) && Holds(n', u'.log)
      && u'.log == (if |stands| <= |u.log| && TermAt(u.log, |stands|) == a.lastIncludedTerm then u.log else stands)
      && n'.commitIndex == n.commitIndex && n'.applied == n.applied + [Snapshot(a.data, a.lastIncludedIndex, a.lastIncludedTerm)]
  {
    hide Holds, TermAt;
    InstallReplaces(n, u.log, a, stands);
    if |stands| <= |u.log| { assert u.log[..|stands|] + u.log[|stands|..] == u.log; }
    assert stands + [] == stands;
  }

  lemma InstallLong<C, D>(n: Node<C, D>, full: seq<LogEntry<C>>, a: InstallArgs<D>, stands: seq<LogEntry<C>>)
    requires InStep(n) && Holds(n, full) && Respects(n, full, Install(a), stands)
    ensures LongEnough(n, Install(a)) && LastIndex(n) == |full|
  {
    if n.lastIncludedIndex < a.lastIncludedIndex <= |full| && a.lastIncludedIndex <= Settled(n) {
      var x := a.lastIncludedIndex - 1;
      assert n.log[Pos(n, a.lastIncludedIndex)] == full[x] && stands[x] == full[x];
    }
  }

  lemma InstallTwins<C, D>(n: Node<C, D>, u: Node<C, D>, a: InstallArgs<D>, stands: seq<LogEntry<C>>)
    requires Twins(n, u) && Respects(n, u.log, Install(a), stands)
    ensures Twins(InstallSnapshot(n, a).0, TwinNext(u, n.lastIncludedIndex, Install(a), stands))
  {
    hide InstallSnapshot, TwinNext, Holds, DeliveredAre, Respects, LongEnough, InStep, TermAt;
    var n', u' := InstallSnapshot(n, a).0, TwinNext(u, n.lastIncludedIndex, Install(a), stands);
    if a.term >= n.currentTerm && a.lastIncludedIndex > n.lastIncludedIndex {
      InstallLong(n, u.log, a, stands);
      StaysInStep(n, Install(a));
      InstallSame(n, u, a, stands);
      StandsSettled(n, u.log, a, stands);
      SettledInside(n, u.log);
      DeliveredStay(n, u.log, n', u'.log);
    } else {
      NotInstalled(n, u, a, stands);
    }
  }

  lemma NotInstalled<C, D>(n: Node<C, D>, u: Node<C, D>, a: InstallArgs<D>, stands: seq<LogEntry<C>>)
    requires Twins(n, u) && !(a.term >= n.currentTerm && a.lastIncludedIndex > n.lastIncludedIndex)
    ensures Twins(InstallSnapshot(n, a).0, TwinNext(u, n.lastIncludedIndex, Install(a), stands))
  {
  }

  /** A snapshot that does not agree with the log reaches what is settled and shares it. */
  lemma StandsSettled<C, D>(n: Node<C, D>, full: seq<LogEntry<C>>, a: InstallArgs<D>, stands: seq<LogEntry<C>>)
    requires InStep(n) && LastIndex(n) == |full| && Respects(n, full, Install(a), stands) && a.lastIncludedIndex > n.lastIncludedIndex
    ensures || (|stands| <= |full| && TermAt(full, |stands|) == a.lastIncludedTerm)
            || (|stands| >= Settled(n) && forall x :: 0 <= x < Settled(n) ==> x < |full| && stands[x] == full[x])
  {
    if 0 < |stands| < Settled(n) { assert stands[|stands| - 1] == full[|stands| - 1]; }
  }

  lemma TakeTwins<C, D>(n: Node<C, D>, u: Node<C, D>, index: int)
    requires Twins(n, u) && index <= n.lastApplied
    ensures index <= LastIndex(n) && Twins(TakeSnapshot(n, index), u)
  {
    TakeSnapshotKeeps(n, u.log, index);
    DeliveredStay(n, u.log, TakeSnapshot(n, index), u.log);
  }

  lemma ApplyTwins<C, D>(n: Node<C, D>, u: Node<C, D>)
    requires Twins(n, u)
    ensures ApplyInRange(n) && ApplyInRange(u) && Twins(ApplyLog(n), ApplyLog(u))
  {
    if CanApply(n) { DeliversFullLog(n, u.log); }
  }

  lemma AcceptTwins<C, D>(n: Node<C, D>, u: Node<C, D>, c: C)
    requires Twins(n, u)
    ensures Twins(Start(n, c), Start(u, c))
  {
    hide DeliveredAre;
    DeliveredStay(n, u.log, Start(n, c), Start(u, c).log);
  }

  lemma CommitTwins<C, D>(n: Node<C, D>, u: Node<C, D>, index: int)
    requires Twins(n, u) && CommitInRange(n, index)
    ensures CommitInRange(u, index)
    ensures Twins(UpdateCommit(n, n.lastIncludedIndex, index), UpdateCommit(u, n.lastIncludedIndex, index))
  {
    var n' := UpdateCommit(n, n.lastIncludedIndex, index);
    DeliveredStay(n, u.log, n', u.log);
  }

  /** One event on both nodes: it is possible, and they stay twins. */
  lemma TwinStep<C, D>(n: Node<C, D>, u: Node<C, D>, e: Event<C, D>, stands: seq<LogEntry<C>>)
    requires Twins(n, u) && Respects(n, u.log, e, stands)
    ensures Enabled(n, e) && TwinEnabled(u, e)
    ensures Twins(Next(n, e), TwinNext(u, n.lastIncludedIndex, e, stands))
  {
    hide Twins, AppendEntries, InstallSnapshot, TakeSnapshot, ApplyLog, Start, UpdateCommit, CommitInRange;
    match e {
      case Append(a) => AppendTwins(n, u, a);
      case Install(a) => InstallTwins(n, u, a, stands);
      case Take(index) => TakeTwins(n, u, index);
      case Apply => ApplyTwins(n, u);
      case Accept(c) => AcceptTwins(n, u, c);
      case Commit(index) => CommitTwins(n, u, index);
    }
  }

  /** Over every run of events that overwrite nothing settled: no read or fold is out of range, the node
      holds the log of the one that never takes a snapshot and delivers what that one does, and every
      command delivered so far is the log's at its index. */
  lemma {:induction false} RunsAreTwins<C, D>(ns: seq<Node<C, D>>, us: seq<Node<C, D>>, events: seq<Event<C, D>>,
      stands: seq<seq<LogEntry<C>>>, k: nat)
    requires |ns| == |us| == |events| + 1 && |stands| == |events| && k <= |events| && Twins(ns[0], us[0])
    requires forall i :: 0 <= i < |events| ==> Respects(ns[i], us[i].log, events[i], stands[i])
    requires forall i :: 0 <= i < |events| && Enabled(ns[i], events[i]) ==> ns[i + 1] == Next(ns[i], events[i])
    requires forall i :: 0 <= i < |events| && TwinEnabled(us[i], events[i]) ==>
      us[i + 1] == TwinNext(us[i], ns[i].lastIncludedIndex, events[i], stands[i])
    ensures Holds(ns[k], us[k].log) && us[k] == Uncompacted(ns[k], us[k].log)
    ensures InStep(ns[k]) && DeliveredAre(ns[k], us[k].log)
    ensures k < |events| ==> Enabled(ns[k], events[k]) && TwinEnabled(us[k], events[k])
  {
    hide Next, TwinNext, Respects, InStep, DeliveredAre, Holds, Enabled, TwinEnabled;
    if k > 0 {
      RunsAreTwins(ns, us, events, stands, k - 1);
      TwinStep(ns[k - 1], us[k - 1], events[k - 1], stands[k - 1]);
    }
    if k < |events| { TwinStep(ns[k], us[k], events[k], stands[k]); }
  }
}

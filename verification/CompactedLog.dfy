/** A Raft log cut short by a snapshot: the snapshot stands for the entries up to lastIncludedIndex
    and the log slice for those after it. The handlers are shown to compute what they would on the
    full log. */
module CompactedLog {

  datatype LogEntry<C> = LogEntry(command: C, term: int)

  datatype Role = Leader | Follower | Candidate

  datatype ApplyMsg<C, D> =
    | Command(command: C, commandIndex: int, commandTerm: int)
    | Snapshot(data: D, lastIncludedIndex: int, lastIncludedTerm: int)

  datatype Node<C, D> = Node(
    currentTerm: int,
    votedFor: int,
    log: seq<LogEntry<C>>,
    lastIncludedIndex: nat,
    lastIncludedTerm: int,
    commitIndex: int,
    lastApplied: int,
    role: Role,
    leaderId: int,
    applied: seq<ApplyMsg<C, D>>)  // everything sent on the apply channel

  datatype AppendArgs<C> = AppendArgs(
    term: int, leaderId: int, prevLogIndex: int, prevLogTerm: int, entries: seq<LogEntry<C>>, leaderCommit: int)

  datatype AppendReply = AppendReply(term: int, success: bool, conflictIndex: int, conflictTerm: int)

  datatype InstallArgs<D> = InstallArgs(term: int, leaderId: int, lastIncludedIndex: int, lastIncludedTerm: int, data: D)

  function LastIndex<C, D>(n: Node<C, D>): int { n.lastIncludedIndex + |n.log| }

  function Pos<C, D>(n: Node<C, D>, index: int): int { index - n.lastIncludedIndex - 1 }

  // ----- the handlers

  /** Stores entries from slice position pos on: equal terms are kept, a different one cuts the log. */
  function SaveEntries<C>(log: seq<LogEntry<C>>, pos: nat, entries: seq<LogEntry<C>>): seq<LogEntry<C>>
    requires pos <= |log|
    decreases |entries|
  {
    if entries == [] then log
    else if pos >= |log| then SaveEntries(log + [entries[0]], pos + 1, entries[1..])
    else if log[pos].term != entries[0].term then SaveEntries(log[..pos] + [entries[0]], pos + 1, entries[1..])
    else SaveEntries(log, pos + 1, entries[1..])
  }

  /** The first position from `from` on whose term is t. */
  function FirstOfTerm<C>(log: seq<LogEntry<C>>, t: int, from: nat): (f: nat)
    requires from <= |log|
    ensures from <= f <= |log| && (f < |log| ==> log[f].term == t) && forall i :: from <= i < f ==> log[i].term != t
    decreases |log| - from
  {
    if from == |log| || log[from].term == t then from else FirstOfTerm(log, t, from + 1)
  }

  function SeenTerm<C, D>(n: Node<C, D>, term: int, leader: int): Node<C, D> {
    (if term > n.currentTerm then n.(currentTerm := term, role := Follower, votedFor := -1) else n).(leaderId := leader)
  }

  /** Why the previous entry does not match; the conflict index is -1 when it does. */
  function Mismatch<C, D>(n: Node<C, D>, a: AppendArgs<C>): AppendReply {
    if a.prevLogIndex < n.lastIncludedIndex then AppendReply(0, false, 1, -1)
    else if a.prevLogIndex == n.lastIncludedIndex then
      if a.prevLogTerm != n.lastIncludedTerm then AppendReply(0, false, 1, -1) else AppendReply(0, true, -1, -1)
    else if a.prevLogIndex > LastIndex(n) then AppendReply(0, false, LastIndex(n) + 1, -1)
    else
      var t := n.log[Pos(n, a.prevLogIndex)].term;
      if t != a.prevLogTerm then AppendReply(0, false, n.lastIncludedIndex + 1 + FirstOfTerm(n.log, t, 0), t)
      else AppendReply(0, true, -1, -1)
  }

  /** Stores the entries and takes over the leader's commit index, up to the end of the log. */
  function Accepted<C, D>(n: Node<C, D>, a: AppendArgs<C>): Node<C, D>
    requires n.lastIncludedIndex <= a.prevLogIndex <= LastIndex(n)
  {
    var s := n.(log := SaveEntries(n.log, Pos(n, a.prevLogIndex + 1), a.entries));
    if a.leaderCommit > s.commitIndex
    then s.(commitIndex := if LastIndex(s) < a.leaderCommit then LastIndex(s) else a.leaderCommit)
    else s
  }

  function AppendEntries<C, D>(n: Node<C, D>, a: AppendArgs<C>): (Node<C, D>, AppendReply) {
    if a.term < n.currentTerm then (n, AppendReply(n.currentTerm, false, -1, -1))
    else
      var m, r := SeenTerm(n, a.term, a.leaderId), Mismatch(n, a).(term := n.currentTerm);
      (if r.success then Accepted(m, a) else m, r)
  }

  /** The entry at a newer index the leader would commit is read, unless the snapshot holds it. */
  predicate CommitInRange<C, D>(n: Node<C, D>, index: int) {
    index > n.commitIndex ==> index <= n.lastIncludedIndex || 0 <= Pos(n, index) < |n.log|
  }

  /** A leader commits a newer index when it lies in the snapshot, of which `base` is the last index, or
      its entry is of the current term. */
  function UpdateCommit<C, D>(n: Node<C, D>, base: int, index: int): Node<C, D>
    requires CommitInRange(n, index)
  {
    if index > n.commitIndex && (index <= base || (index > n.lastIncludedIndex && n.log[Pos(n, index)].term == n.currentTerm))
    then n.(commitIndex := index) else n
  }

  function TakeSnapshot<C, D>(n: Node<C, D>, index: int): Node<C, D>
    requires index <= LastIndex(n)
  {
    if index <= n.lastIncludedIndex then n
    else n.(lastIncludedTerm := n.log[Pos(n, index)].term, lastIncludedIndex := index, log := n.log[index - n.lastIncludedIndex..])
  }

  function InstallSnapshotToApplication<C, D>(n: Node<C, D>, data: D): Node<C, D> {
    n.(lastApplied := n.lastIncludedIndex, applied := n.applied + [Snapshot(data, n.lastIncludedIndex, n.lastIncludedTerm)])
  }

  function InstallSnapshot<C, D>(n: Node<C, D>, a: InstallArgs<D>): (Node<C, D>, int) {
    if a.term < n.currentTerm then (n, n.currentTerm)
    else
      var m := SeenTerm(n, a.term, a.leaderId);
      if a.lastIncludedIndex <= n.lastIncludedIndex then (m, n.currentTerm)
      else
        var left := if a.lastIncludedIndex < LastIndex(n) && n.log[Pos(n, a.lastIncludedIndex)].term == a.lastIncludedTerm
                    then n.log[Pos(n, a.lastIncludedIndex) + 1..] else [];
        (InstallSnapshotToApplication(
           m.(log := left, lastIncludedIndex := a.lastIncludedIndex, lastIncludedTerm := a.lastIncludedTerm), a.data), n.currentTerm)
  }

  predicate CanApply<C, D>(n: Node<C, D>) { n.commitIndex > n.lastApplied }

  /** The position read next is inside the log slice. */
  predicate ApplyInRange<C, D>(n: Node<C, D>) { CanApply(n) ==> 0 <= Pos(n, n.lastApplied + 1) < |n.log| }

  function ApplyLog<C, D>(n: Node<C, D>): Node<C, D>
    requires ApplyInRange(n)
  {
    if !CanApply(n) then n
    else
      var e := n.log[Pos(n, n.lastApplied + 1)];
      n.(lastApplied := n.lastApplied + 1, applied := n.applied + [Command(e.command, n.lastApplied + 1, e.term)])
  }

  function Start<C, D>(n: Node<C, D>, command: C): Node<C, D> {
    if n.role != Leader then n else n.(log := n.log + [LogEntry(command, n.currentTerm)])
  }

  /** The message a leader sends a peer whose next index is past its snapshot. */
  function DoAppendEntries<C, D>(n: Node<C, D>, me: int, nextIndex: int): AppendArgs<C>
    requires n.lastIncludedIndex < nextIndex <= LastIndex(n) + 1
  {
    var prev := nextIndex - 1;
    AppendArgs(n.currentTerm, me, prev,
               if prev == n.lastIncludedIndex then n.lastIncludedTerm else n.log[Pos(n, prev)].term,
               n.log[Pos(n, prev + 1)..], n.commitIndex)
  }

  // ----- the full log

  /** The term at an index; index 0, before the first entry, has term 0. */
  function TermAt<C>(full: seq<LogEntry<C>>, index: int): int {
    if 0 < index <= |full| then full[index - 1].term else 0
  }

  /** The node holds the full log, its first entries folded into the snapshot. */
  ghost predicate Holds<C, D>(n: Node<C, D>, full: seq<LogEntry<C>>) {
    && n.lastIncludedIndex <= |full| && n.log == full[n.lastIncludedIndex..]
    && n.lastIncludedTerm == TermAt(full, n.lastIncludedIndex)
  }

  /** The same node had it never taken a snapshot. */
  function Uncompacted<C, D>(n: Node<C, D>, full: seq<LogEntry<C>>): Node<C, D> {
    n.(log := full, lastIncludedIndex := 0, lastIncludedTerm := 0)
  }

  ghost predicate Differ<C>(log: seq<LogEntry<C>>, pos: nat, entries: seq<LogEntry<C>>, d: nat) {
    d < |entries| && (pos + d >= |log| || log[pos + d].term != entries[d].term)
  }

  /** d is where the log first ends or differs from the entries. */
  ghost predicate FirstDiffers<C>(log: seq<LogEntry<C>>, pos: nat, entries: seq<LogEntry<C>>, d: nat) {
    d <= |entries| && (forall i :: 0 <= i < d ==> !Differ(log, pos, entries, i)) && (d < |entries| ==> Differ(log, pos, entries, d))
  }

  /** Saving keeps everything up to the first difference and takes the sender's entries from there;
      without one the log is untouched. */
  lemma {:induction false} SavedAre<C>(log: seq<LogEntry<C>>, pos: nat, entries: seq<LogEntry<C>>, d: nat)
    requires pos <= |log| && FirstDiffers(log, pos, entries, d)
    ensures if d == |entries| then SaveEntries(log, pos, entries) == log
            else pos + d <= |log| && SaveEntries(log, pos, entries) == log[..pos + d] + entries[d..]
    decreases |entries|
  {
    if entries != [] {
      if d == 0 {
        var l := log[..pos] + [entries[0]];
        SaveAtEnd(l, entries[1..]);
        assert l + entries[1..] == log[..pos] + entries;
        if pos >= |log| { assert log[..pos] == log; }
      } else {
        var next, rest := pos + 1, entries[1..];
        assert !Differ(log, pos, entries, 0);
        forall i | 0 <= i < d - 1 ensures !Differ(log, next, rest, i) { assert !Differ(log, pos, entries, i + 1); }
        if d < |entries| { assert Differ(log, pos, entries, d); }
        SavedAre(log, pos + 1, entries[1..], d - 1);
        assert entries[1..][d - 1..] == entries[d..];
      }
    }
  }

  lemma {:induction false} SaveAtEnd<C>(log: seq<LogEntry<C>>, entries: seq<LogEntry<C>>)
    ensures SaveEntries(log, |log|, entries) == log + entries
    decreases |entries|
  {
    if entries != [] {
      SaveAtEnd(log + [entries[0]], entries[1..]);
      assert log + [entries[0]] + entries[1..] == log + entries;
    } else {
      assert log + entries == log;
    }
  }

  lemma {:induction false} FindDifference<C>(log: seq<LogEntry<C>>, pos: nat, entries: seq<LogEntry<C>>, from: nat) returns (d: nat)
    requires from <= |entries| && forall i :: 0 <= i < from ==> !Differ(log, pos, entries, i)
    ensures FirstDiffers(log, pos, entries, d)
    decreases |entries| - from
  {
    if from == |entries| || Differ(log, pos, entries, from) { d := from; }
    else { d := FindDifference(log, pos, entries, from + 1); }
  }

  /** Saving into the slice is saving into the full log behind the snapshot. */
  lemma {:induction false} SaveInSlice<C>(full: seq<LogEntry<C>>, base: nat, pos: nat, entries: seq<LogEntry<C>>)
    requires base + pos <= |full|
    ensures var full' := SaveEntries(full, base + pos, entries);
      base <= |full'| && full'[..base] == full[..base] && full'[base..] == SaveEntries(full[base..], pos, entries)
    decreases |entries|
  {
    if entries != [] {
      var log := full[base..];
      var full1 := if base + pos >= |full| then full + [entries[0]]
                   else if full[base + pos].term != entries[0].term then full[..base + pos] + [entries[0]] else full;
      var log1 := if pos >= |log| then log + [entries[0]]
                  else if log[pos].term != entries[0].term then log[..pos] + [entries[0]] else log;
      assert full1[base..] == log1 && full1[..base] == full[..base];
      SaveInSlice(full1, base, pos + 1, entries[1..]);
    }
  }

  // ----- the handlers on the full log

  /** Folding entries into a snapshot changes nothing of the full log. */
  lemma TakeSnapshotKeeps<C, D>(n: Node<C, D>, full: seq<LogEntry<C>>, index: int)
    requires Holds(n, full) && index <= LastIndex(n)
    ensures Holds(TakeSnapshot(n, index), full)
    ensures TakeSnapshot(n, index).lastIncludedIndex == if index > n.lastIncludedIndex then index else n.lastIncludedIndex
    ensures LastIndex(TakeSnapshot(n, index)) == LastIndex(n)
  {
  }

  lemma MismatchSimulates<C, D>(n: Node<C, D>, full: seq<LogEntry<C>>, a: AppendArgs<C>)
    requires Holds(n, full) && a.prevLogIndex >= n.lastIncludedIndex
    ensures Mismatch(n, a).success <==> a.prevLogIndex <= |full| && a.prevLogTerm == TermAt(full, a.prevLogIndex)
    ensures Mismatch(Uncompacted(n, full), a).success == Mismatch(n, a).success
    ensures LastIndex(n) == |full|
  {
    hide FirstOfTerm;
    if n.lastIncludedIndex < a.prevLogIndex <= |full| {
      assert n.log[Pos(n, a.prevLogIndex)] == full[a.prevLogIndex - 1];
    }
  }

  /** The commit index of a follower that held `commit` and is told `leaderCommit` with `last` entries: the
      leader's when it is higher, but no further than the log goes. */
  function FollowedTo(commit: int, leaderCommit: int, last: int): (c: int)
    ensures c == commit || (commit < leaderCommit && c <= leaderCommit && c <= last && (c == leaderCommit || c == last))
  {
    if leaderCommit <= commit then commit else if leaderCommit <= last then leaderCommit else last
  }

  lemma AcceptedSimulates<C, D>(n: Node<C, D>, full: seq<LogEntry<C>>, a: AppendArgs<C>)
    requires Holds(n, full) && n.lastIncludedIndex <= a.prevLogIndex <= |full|
    ensures LastIndex(n) == |full|
    ensures var n', u' := Accepted(n, a), Accepted(Uncompacted(n, full), a);
      && u'.log == SaveEntries(full, a.prevLogIndex, a.entries) && Holds(n', u'.log) && n'.lastIncludedIndex == n.lastIncludedIndex
      && Uncompacted(n', u'.log) == u' && n'.commitIndex == FollowedTo(n.commitIndex, a.leaderCommit, |u'.log|)
      && n' == n.(log := n'.log, commitIndex := n'.commitIndex)
  {
    hide SaveEntries;
    SaveInSlice(full, n.lastIncludedIndex, a.prevLogIndex - n.lastIncludedIndex, a.entries);
    var full' := SaveEntries(full, a.prevLogIndex, a.entries);
    var base := n.lastIncludedIndex;
    if base > 0 { assert full'[..base][base - 1] == full[..base][base - 1]; }
  }

  lemma SameLog<C, D>(n: Node<C, D>, m: Node<C, D>, full: seq<LogEntry<C>>)
    requires Holds(n, full) && m.log == n.log && m.lastIncludedIndex == n.lastIncludedIndex && m.lastIncludedTerm == n.lastIncludedTerm
    ensures Holds(m, full)
  {
  }

  /** At or above its snapshot the node stores what it would store without one, and accepts exactly
      when the full log has the leader's entry; then it commits what the leader has, as far as its log goes. */
  lemma AppendSimulates<C, D>(n: Node<C, D>, full: seq<LogEntry<C>>, a: AppendArgs<C>)
    requires Holds(n, full) && a.prevLogIndex >= n.lastIncludedIndex
    ensures var (n', r) := AppendEntries(n, a);
      var (u', s) := AppendEntries(Uncompacted(n, full), a);
      && Holds(n', u'.log) && Uncompacted(n', u'.log) == u' && n'.lastIncludedIndex == n.lastIncludedIndex
      && r.success == s.success && r.term == s.term
      && (r.success <==> a.term >= n.currentTerm && a.prevLogIndex <= |full| && a.prevLogTerm == TermAt(full, a.prevLogIndex))
      && (r.success ==> u'.log == SaveEntries(full, a.prevLogIndex, a.entries)) && (!r.success ==> u'.log == full)
      && n'.commitIndex == u'.commitIndex
      && n'.commitIndex == (if !r.success || a.leaderCommit <= n.commitIndex then n.commitIndex
                            else if a.leaderCommit < |u'.log| then a.leaderCommit else |u'.log|)
      && n'.lastApplied == n.lastApplied && n'.applied == n.applied
      && (a.term >= n.currentTerm ==> n'.currentTerm == a.term && n'.leaderId == a.leaderId)
      && (a.term > n.currentTerm ==> n'.role == Follower && n'.votedFor == -1)
      && (a.term <= n.currentTerm ==> n'.role == n.role && n'.votedFor == n.votedFor && n'.currentTerm == n.currentTerm)
  {
    hide FirstOfTerm, SaveEntries, Mismatch, TermAt, Holds, Accepted;
    MismatchSimulates(n, full, a);
    var m := SeenTerm(n, a.term, a.leaderId);
    SameLog(n, m, full);
    if a.term >= n.currentTerm && Mismatch(n, a).success {
      AcceptedSimulates(m, full, a);
    }
  }

  ghost predicate Ascending<C>(full: seq<LogEntry<C>>) {
    forall i, j :: 0 <= i < j < |full| ==> full[i].term <= full[j].term
  }

  /** The first entry of a term behind the snapshot, when one is there. */
  lemma FirstInSlice<C>(full: seq<LogEntry<C>>, base: nat, t: int, p: nat)
    requires base <= p < |full| && full[p].term == t && Ascending(full)
    ensures var f := FirstOfTerm(full, t, 0);
      FirstOfTerm(full[base..], t, 0) == if f < base then 0 else f - base
  {
    var log := full[base..];
    assert log[p - base].term == t;
    var f, g := FirstOfTerm(full, t, 0), FirstOfTerm(log, t, 0);
    if f < base { assert full[base].term == t; assert log[0].term == t; } else { assert log[f - base].term == t; }
    assert log[g] == full[base + g];
  }

  lemma MismatchHints<C, D>(n: Node<C, D>, full: seq<LogEntry<C>>, a: AppendArgs<C>)
    requires Holds(n, full) && a.prevLogIndex > n.lastIncludedIndex && Ascending(full)
    ensures var r, s := Mismatch(n, a), Mismatch(Uncompacted(n, full), a);
      && r.success == s.success && r.conflictTerm == s.conflictTerm
      && r.conflictIndex == if !s.success && s.conflictIndex <= n.lastIncludedIndex then n.lastIncludedIndex + 1 else s.conflictIndex
  {
    hide FirstOfTerm, Ascending, TermAt;
    if a.prevLogIndex <= |full| {
      var p := a.prevLogIndex - 1;
      assert n.log[Pos(n, a.prevLogIndex)] == full[p];
      FirstInSlice(full, n.lastIncludedIndex, full[p].term, p);
    }
  }

  /** Above the snapshot the hints agree too, except that a conflicting term is only searched for
      behind the snapshot; when terms never fall the hint is then the first index there. */
  lemma HintsAgree<C, D>(n: Node<C, D>, full: seq<LogEntry<C>>, a: AppendArgs<C>)
    requires Holds(n, full) && a.prevLogIndex > n.lastIncludedIndex && Ascending(full)
    ensures var r, s := AppendEntries(n, a).1, AppendEntries(Uncompacted(n, full), a).1;
      && r.conflictTerm == s.conflictTerm
      && r.conflictIndex == if a.term >= n.currentTerm && !s.success && s.conflictIndex <= n.lastIncludedIndex
                            then n.lastIncludedIndex + 1 else s.conflictIndex
  {
    hide Mismatch, Accepted, Holds, Ascending;
    MismatchHints(n, full, a);
  }

  /** Below its snapshot the node refuses and asks for everything from the start. */
  lemma AppendBelow<C, D>(n: Node<C, D>, a: AppendArgs<C>)
    requires a.prevLogIndex < n.lastIncludedIndex && a.term >= n.currentTerm
    ensures var (n', r) := AppendEntries(n, a);
      !r.success && r.conflictIndex == 1 && r.conflictTerm == -1 && n' == SeenTerm(n, a.term, a.leaderId)
  {
  }

  /** What a rejection asks for: behind the log its end, at the snapshot the start, else where the conflicting
      term begins behind the snapshot; never past the previous index and never below the first. */
  lemma RejectionHints<C, D>(n: Node<C, D>, full: seq<LogEntry<C>>, a: AppendArgs<C>)
    requires Holds(n, full) && a.term >= n.currentTerm && a.prevLogIndex >= 1 && !AppendEntries(n, a).1.success
    ensures var r := AppendEntries(n, a).1; var t := TermAt(full, a.prevLogIndex);
      && 1 <= r.conflictIndex <= a.prevLogIndex && r.term == n.currentTerm
      && (a.prevLogIndex > |full| ==> r.conflictIndex == |full| + 1 && r.conflictTerm == -1)
      && (a.prevLogIndex <= n.lastIncludedIndex ==> r.conflictIndex == 1 && r.conflictTerm == -1)
      && (n.lastIncludedIndex < a.prevLogIndex <= |full| ==>
            && r.conflictTerm == t != a.prevLogTerm && r.conflictIndex > n.lastIncludedIndex
            && full[r.conflictIndex - 1].term == t
            && forall p :: n.lastIncludedIndex <= p < r.conflictIndex - 1 ==> full[p].term != t)
  {
    hide Accepted;
    var base := n.lastIncludedIndex;
    if base < a.prevLogIndex <= |full| {
      var t := full[a.prevLogIndex - 1].term;
      assert n.log[Pos(n, a.prevLogIndex)].term == t;
      var f := FirstOfTerm(n.log, t, 0);
      assert f <= Pos(n, a.prevLogIndex);
      forall p | base <= p < base + f ensures full[p].term != t { assert full[p] == n.log[p - base]; }
    }
  }

  /** A compacted leader sends what an uncompacted one would: the full log from the peer's next index on, and
      the entry before it. */
  lemma SendSimulates<C, D>(n: Node<C, D>, full: seq<LogEntry<C>>, me: int, nextIndex: int)
    requires Holds(n, full) && n.lastIncludedIndex < nextIndex <= LastIndex(n) + 1
    ensures DoAppendEntries(n, me, nextIndex) == DoAppendEntries(Uncompacted(n, full), me, nextIndex)
    ensures DoAppendEntries(n, me, nextIndex) ==
      AppendArgs(n.currentTerm, me, nextIndex - 1, TermAt(full, nextIndex - 1), full[nextIndex - 1..], n.commitIndex)
  {
    if nextIndex - 1 > n.lastIncludedIndex {
      assert n.log[Pos(n, nextIndex - 1)] == full[nextIndex - 2];
    }
  }

  /** An accepted snapshot replaces the entries it stands for, and keeps the rest of the log exactly
      when the entry at its last index has its term. */
  lemma InstallReplaces<C, D>(n: Node<C, D>, full: seq<LogEntry<C>>, a: InstallArgs<D>, prefix: seq<LogEntry<C>>)
    requires Holds(n, full) && a.term >= n.currentTerm && a.lastIncludedIndex > n.lastIncludedIndex
    requires |prefix| == a.lastIncludedIndex && TermAt(prefix, |prefix|) == a.lastIncludedTerm
    ensures var (n', term) := InstallSnapshot(n, a);
      var agree := a.lastIncludedIndex <= |full| && TermAt(full, a.lastIncludedIndex) == a.lastIncludedTerm;
      && Holds(n', prefix + if agree then full[a.lastIncludedIndex..] else [])
      && n'.lastIncludedIndex == n'.lastApplied == a.lastIncludedIndex && n'.commitIndex == n.commitIndex
      && term == n.currentTerm && n'.currentTerm == a.term && n'.leaderId == a.leaderId
      && n'.applied == n.applied + [Snapshot(a.data, a.lastIncludedIndex, a.lastIncludedTerm)]
  {
    var full' := prefix + if a.lastIncludedIndex <= |full| && TermAt(full, a.lastIncludedIndex) == a.lastIncludedTerm
                          then full[a.lastIncludedIndex..] else [];
    assert full'[..|prefix|] == prefix;
  }

  /** A snapshot of an earlier term changes nothing, one that is not newer nothing but term and leader. */
  lemma InstallIgnored<C, D>(n: Node<C, D>, a: InstallArgs<D>)
    requires a.term < n.currentTerm || a.lastIncludedIndex <= n.lastIncludedIndex
    ensures var (n', term) := InstallSnapshot(n, a);
      && term == n.currentTerm && n' == n.(currentTerm := n'.currentTerm, role := n'.role, votedFor := n'.votedFor, leaderId := n'.leaderId)
      && (a.term < n.currentTerm ==> n' == n)
      && (a.term >= n.currentTerm ==> n'.currentTerm == a.term && n'.leaderId == a.leaderId)
      && (a.term > n.currentTerm ==> n'.role == Follower && n'.votedFor == -1)
  {
  }

  /** A leader's full log grows by the command, with the leader's term; others take none. */
  lemma StartAppends<C, D>(n: Node<C, D>, full: seq<LogEntry<C>>, command: C)
    requires Holds(n, full)
    ensures var full' := full + if n.role == Leader then [LogEntry(command, n.currentTerm)] else [];
      Holds(Start(n, command), full') && Start(n, command) == n.(log := Start(n, command).log)
  {
    if n.lastIncludedIndex > 0 {
      assert (full + [LogEntry(command, n.currentTerm)])[n.lastIncludedIndex - 1] == full[n.lastIncludedIndex - 1];
    }
  }

  /** A leader raises its commit index to a newer one exactly when the snapshot covers it or the full log has an
      entry of the leader's term there. */
  lemma UpdatesCommitExactly<C, D>(n: Node<C, D>, full: seq<LogEntry<C>>, index: int)
    requires Holds(n, full) && CommitInRange(n, index) && n.commitIndex >= 0
    ensures var n' := UpdateCommit(n, n.lastIncludedIndex, index);
      && n' == n.(commitIndex := n'.commitIndex)
      && n'.commitIndex == if index > n.commitIndex && (index <= n.lastIncludedIndex || TermAt(full, index) == n.currentTerm)
                           then index else n.commitIndex
  {
    if index > n.commitIndex && index > n.lastIncludedIndex { assert n.log[Pos(n, index)] == full[index - 1]; }
  }
}

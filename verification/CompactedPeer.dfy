/** The Raft object with a compacted log: its fields change in place, its state goes to the persister's
    files, and every method is proved to compute the function of the same name in CompactedLog and to
    leave behind only crash points that restore the log from before or after it. */
module CompactedPeer {
  import opened CompactedLog
  import opened CompactedDelivery
  import opened Persistence

  /** What is encoded into the state file. */
  datatype RaftState<C> = RaftState(currentTerm: int, votedFor: int, log: seq<LogEntry<C>>, lastIncludedIndex: nat, lastIncludedTerm: int)

  /** The encoding, left open but for being read back and never empty. */
  datatype Codec<!C> = Codec(encode: RaftState<C> -> Bytes, decode: Bytes -> RaftState<C>)

  ghost predicate Faithful<C(!new)>(c: Codec<C>) {
    forall s :: c.encode(s) != [] && c.decode(c.encode(s)) == s
  }

  /** What a start from the given state bytes begins with; with none, from scratch. */
  function Loaded<C>(c: Codec<C>, bytes: Bytes): RaftState<C> {
    if bytes == [] then RaftState(0, -1, [], 0, 0) else c.decode(bytes)
  }

  function StateOf<C, D>(n: Node<C, D>): RaftState<C> {
    RaftState(n.currentTerm, n.votedFor, n.log, n.lastIncludedIndex, n.lastIncludedTerm)
  }

  predicate SameLog<C(==)>(s: RaftState<C>, t: RaftState<C>) {
    s.log == t.log && s.lastIncludedIndex == t.lastIncludedIndex && s.lastIncludedTerm == t.lastIncludedTerm
  }

  /** Every crash from point `from` on restores the compacted log from before or from after. */
  ghost predicate Between<C>(c: Codec<C>, points: seq<CrashPoint>, from: nat, before: RaftState<C>, after: RaftState<C>) {
    forall k :: from <= k < |points| ==>
      var s := Loaded(c, Contents(points[k].files, StateFile));
      SameLog(s, before) || SameLog(s, after)
  }

  /** Snapshots and what they hold do not change. */
  ghost predicate SameSnapshots(files: Files, files': Files) {
    forall i: int :: Contents(files', SnapshotFile(i)) == Contents(files, SnapshotFile(i))
  }

  lemma NothingBetween<C>(c: Codec<C>, points: seq<CrashPoint>, s: RaftState<C>)
    ensures Between(c, points, |points|, s, s)
  {
  }

  /** A save that leaves the log alone, then one that changes it. */
  lemma TwoSaves<C>(c: Codec<C>, points: seq<CrashPoint>, points1: seq<CrashPoint>, points2: seq<CrashPoint>,
                    before: RaftState<C>, middle: RaftState<C>, after: RaftState<C>)
    requires points <= points1 <= points2 && SameLog(before, middle)
    requires Between(c, points1, |points|, before, middle) && Between(c, points2, |points1|, middle, after)
    ensures Between(c, points2, |points|, before, after)
  {
    forall k | |points| <= k < |points2|
      ensures var s := Loaded(c, Contents(points2[k].files, StateFile)); SameLog(s, before) || SameLog(s, after)
    {
      if k < |points1| { assert points2[k] == points1[k]; }
    }
  }

  class Raft<C(!new)> {
    const me: int
    const codec: Codec<C>
    const persister: Persister
    var currentTerm: int
    var votedFor: int
    var log: seq<LogEntry<C>>
    var lastIncludedIndex: nat
    var lastIncludedTerm: int
    var commitIndex: int
    var lastApplied: int
    var role: Role
    var leaderId: int
    var applied: seq<ApplyMsg<C, Bytes>>  // everything sent on applyCh

    ghost function View(): Node<C, Bytes>
      reads this
    {
      Node(currentTerm, votedFor, log, lastIncludedIndex, lastIncludedTerm, commitIndex, lastApplied, role, leaderId, applied)
    }

    ghost predicate Linked()
      reads persister
    {
      && Faithful(codec) && persister.Valid()
      && (forall b :: persister.indexIn(b) == codec.decode(b).lastIncludedIndex)
    }

    /** The files hold the term, the vote and the compacted log, and the snapshot they need. */
    ghost predicate Valid()
      reads this, persister
    {
      Linked() && Loaded(codec, Contents(persister.files, StateFile)) == StateOf(View())
    }

    /** Make: what the files hold is loaded, and its snapshot is the first thing delivered. */
    constructor Make(me: int, persister: Persister, codec: Codec<C>)
      requires persister.Valid() && Faithful(codec)
      requires forall b :: persister.indexIn(b) == codec.decode(b).lastIncludedIndex
      modifies persister
      ensures Valid() && this.persister == persister && this.codec == codec && persister.files == old(persister.files)
      ensures persister.crashPoints == old(persister.crashPoints)
      ensures StateOf(View()) == Loaded(codec, Contents(persister.files, StateFile))
      ensures InStep(View()) && View().commitIndex == 0
      ensures applied == [Snapshot(Contents(persister.files, SnapshotFile(lastIncludedIndex)), lastIncludedIndex, lastIncludedTerm)]
    {
      this.me, this.persister, this.codec := me, persister, codec;
      role, leaderId, votedFor, currentTerm := Follower, -1, -1, 0;
      log, lastIncludedIndex, lastIncludedTerm := [], 0, 0;
      commitIndex, lastApplied, applied := 0, 0, [];
      new;
      LoadPersist();
      InstallSnapshotToApplication();
    }

    method LoadPersist()
      requires persister.Valid() && StateOf(View()) == RaftState(0, -1, [], 0, 0)
      modifies this`currentTerm, this`votedFor, this`log, this`lastIncludedIndex, this`lastIncludedTerm
      modifies persister`raftstate, persister`raftStateMemSynced
      ensures persister.Valid() && StateOf(View()) == Loaded(codec, Contents(persister.files, StateFile))
    {
      var data := persister.ReadRaftState();
      if |data| < 1 { return; }
      var s := codec.decode(data);
      currentTerm, votedFor, log := s.currentTerm, s.votedFor, s.log;
      lastIncludedIndex, lastIncludedTerm := s.lastIncludedIndex, s.lastIncludedTerm;
    }

    /** Saves the state; its snapshot is the one the files already hold. */
    method Persist()
      requires Linked() && Loaded(codec, Contents(persister.files, StateFile)).lastIncludedIndex == lastIncludedIndex
      modifies persister`raftstate, persister`raftStateMemSynced, persister`files, persister`crashPoints
      ensures Valid() && old(persister.crashPoints) <= persister.crashPoints
      ensures Between(codec, persister.crashPoints, |old(persister.crashPoints)|,
                      Loaded(codec, old(Contents(persister.files, StateFile))), StateOf(View()))
      ensures SameSnapshots(old(persister.files), persister.files)
    {
      hide Consistent, AllSafe;
      var data := codec.encode(RaftState(currentTerm, votedFor, log, lastIncludedIndex, lastIncludedTerm));
      persister.SaveRaftState(data);
    }

    /** Saves the state with the newer snapshot it names. */
    method SaveStateAndSnapshot(data: Bytes)
      requires Linked() && Loaded(codec, Contents(persister.files, StateFile)).lastIncludedIndex < lastIncludedIndex
      modifies persister
      ensures Valid() && old(persister.crashPoints) <= persister.crashPoints
      ensures Between(codec, persister.crashPoints, |old(persister.crashPoints)|,
                      Loaded(codec, old(Contents(persister.files, StateFile))), StateOf(View()))
      ensures Contents(persister.files, SnapshotFile(lastIncludedIndex)) == data
    {
      hide Consistent, AllSafe;
      var state := codec.encode(RaftState(currentTerm, votedFor, log, lastIncludedIndex, lastIncludedTerm));
      persister.SaveStateAndSnapshot(state, data, lastIncludedIndex);
    }

    method InstallSnapshotToApplication()
      requires Valid()
      modifies this`lastApplied, this`applied, persister`snapshot, persister`snapshotInMemSynced
      ensures Valid() && View() == CompactedLog.InstallSnapshotToApplication(old(View()), Contents(persister.files, SnapshotFile(lastIncludedIndex)))
    {
      hide Consistent, AllSafe;
      var data := persister.ReadSnapshot(lastIncludedIndex);
      lastApplied := lastIncludedIndex;
      applied := applied + [Snapshot(data, lastIncludedIndex, lastIncludedTerm)];
    }

    method SeeTerm(term: int, leader: int)
      requires Valid()
      modifies this`currentTerm, this`role, this`votedFor, this`leaderId
      modifies persister`raftstate, persister`raftStateMemSynced, persister`files, persister`crashPoints
      ensures Valid() && View() == SeenTerm(old(View()), term, leader) && old(persister.crashPoints) <= persister.crashPoints
      ensures Between(codec, persister.crashPoints, |old(persister.crashPoints)|, StateOf(old(View())), StateOf(View()))
      ensures SameSnapshots(old(persister.files), persister.files)
    {
      if term > currentTerm {
        currentTerm, role, votedFor := term, Follower, -1;
        Persist();
      }
      leaderId := leader;
    }

    /** Folds the entries up to an index the log still reaches into the snapshot. */
    method TakeSnapshot(data: Bytes, index: int)
      requires Valid() && index <= LastIndex(View())
      modifies this, persister
      ensures Valid() && View() == CompactedLog.TakeSnapshot(old(View()), index) && old(persister.crashPoints) <= persister.crashPoints
      ensures Between(codec, persister.crashPoints, |old(persister.crashPoints)|, StateOf(old(View())), StateOf(View()))
      ensures if index > old(lastIncludedIndex) then Contents(persister.files, SnapshotFile(index)) == data
              else persister.files == old(persister.files)
    {
      hide Between, Linked, Loaded;
      if index <= lastIncludedIndex {
        NothingBetween(codec, persister.crashPoints, StateOf(View()));
        return;
      }
      var compactLogLen := index - lastIncludedIndex;
      lastIncludedTerm := log[index - lastIncludedIndex - 1].term;
      lastIncludedIndex := index;
      log := log[compactLogLen..];
      SaveStateAndSnapshot(data);
    }

    method InstallSnapshot(a: InstallArgs<Bytes>) returns (replyTerm: int)
      requires Valid()
      modifies this, persister
      ensures Valid() && (View(), replyTerm) == CompactedLog.InstallSnapshot(old(View()), a)
      ensures old(persister.crashPoints) <= persister.crashPoints
      ensures Between(codec, persister.crashPoints, |old(persister.crashPoints)|, StateOf(old(View())), StateOf(View()))
      ensures applied != old(applied) ==> Contents(persister.files, SnapshotFile(lastIncludedIndex)) == a.data
    {
      hide Between, Linked, Loaded;
      replyTerm := currentTerm;
      NothingBetween(codec, persister.crashPoints, StateOf(View()));
      if a.term < currentTerm { return; }
      ghost var points, before := persister.crashPoints, StateOf(View());
      SeeTerm(a.term, a.leaderId);
      if a.lastIncludedIndex <= lastIncludedIndex { return; }
      ghost var points1, middle := persister.crashPoints, StateOf(View());
      if a.lastIncludedIndex < lastIncludedIndex + |log| {
        var pos := a.lastIncludedIndex - lastIncludedIndex - 1;
        if log[pos].term != a.lastIncludedTerm {
          log := [];
        } else {
          log := log[pos + 1..];
        }
      } else {
        log := [];
      }
      lastIncludedIndex, lastIncludedTerm := a.lastIncludedIndex, a.lastIncludedTerm;
      SaveStateAndSnapshot(a.data);
      TwoSaves(codec, points, points1, persister.crashPoints, before, middle, StateOf(View()));
      InstallSnapshotToApplication();
    }

    method SaveLoop(prevLogIndex: int, entries: seq<LogEntry<C>>)
      requires lastIncludedIndex <= prevLogIndex <= LastIndex(View())
      modifies this`log
      ensures log == SaveEntries(old(log), prevLogIndex - lastIncludedIndex, entries)
    {
      for i := 0 to |entries|
        invariant prevLogIndex + i <= lastIncludedIndex + |log|
        invariant SaveEntries(log, prevLogIndex + i - lastIncludedIndex, entries[i..])
               == SaveEntries(old(log), prevLogIndex - lastIncludedIndex, entries)
      {
        var index := prevLogIndex + 1 + i;
        var logPos := index - lastIncludedIndex - 1;
        assert entries[i..][1..] == entries[i + 1..];
        if index > lastIncludedIndex + |log| {
          log := log + [entries[i]];
        } else if log[logPos].term != entries[i].term {
          log := log[..logPos];
          log := log + [entries[i]];
        }
      }
    }

    /** The hint for a conflicting term: where it first occurs behind the snapshot. */
    method ConflictIndex(prevLogIndex: int, term: int) returns (index: int)
      requires lastIncludedIndex < prevLogIndex <= LastIndex(View()) && log[Pos(View(), prevLogIndex)].term == term
      ensures index == lastIncludedIndex + 1 + FirstOfTerm(log, term, 0)
    {
      index := lastIncludedIndex + 1;
      while index <= prevLogIndex && log[index - lastIncludedIndex - 1].term != term
        invariant lastIncludedIndex < index <= prevLogIndex
        invariant FirstOfTerm(log, term, 0) >= index - lastIncludedIndex - 1
      {
        index := index + 1;
      }
    }

    method AppendEntries(a: AppendArgs<C>) returns (reply: AppendReply)
      requires Valid()
      modifies this, persister
      ensures Valid() && (View(), reply) == CompactedLog.AppendEntries(old(View()), a)
      ensures old(persister.crashPoints) <= persister.crashPoints
      ensures Between(codec, persister.crashPoints, |old(persister.crashPoints)|, StateOf(old(View())), StateOf(View()))
      ensures SameSnapshots(old(persister.files), persister.files)
    {
      hide Between, Linked, Loaded;
      reply := AppendReply(currentTerm, false, -1, -1);
      NothingBetween(codec, persister.crashPoints, StateOf(View()));
      if a.term < currentTerm { return; }
      ghost var points, before := persister.crashPoints, StateOf(View());
      SeeTerm(a.term, a.leaderId);
      ghost var points1, middle := persister.crashPoints, StateOf(View());
      if a.prevLogIndex < lastIncludedIndex {
        reply := reply.(conflictIndex := 1);
        return;
      } else if a.prevLogIndex == lastIncludedIndex {
        if a.prevLogTerm != lastIncludedTerm {
          reply := reply.(conflictIndex := 1);
          return;
        }
      } else {
        if a.prevLogIndex > lastIncludedIndex + |log| {
          reply := reply.(conflictIndex := lastIncludedIndex + |log| + 1);
          return;
        }
        var t := log[a.prevLogIndex - lastIncludedIndex - 1].term;
        if t != a.prevLogTerm {
          var index := ConflictIndex(a.prevLogIndex, t);
          reply := reply.(conflictTerm := t, conflictIndex := index);
          return;
        }
      }
      SaveLoop(a.prevLogIndex, a.entries);
      Persist();
      TwoSaves(codec, points, points1, persister.crashPoints, before, middle, StateOf(View()));
      if a.leaderCommit > commitIndex {
        commitIndex := a.leaderCommit;
        if lastIncludedIndex + |log| < commitIndex {
          commitIndex := lastIncludedIndex + |log|;
        }
      }
      reply := reply.(success := true);
    }

    /** One round of the apply loop. */
    method ApplyLog() returns (noMore: bool)
      requires ApplyInRange(View())
      modifies this`lastApplied, this`applied
      ensures View() == CompactedLog.ApplyLog(old(View())) && noMore == !CanApply(old(View()))
    {
      noMore := true;
      if commitIndex > lastApplied {
        lastApplied := lastApplied + 1;
        var pos := lastApplied - lastIncludedIndex - 1;
        applied := applied + [Command(log[pos].command, lastApplied, log[pos].term)];
        noMore := false;
      }
    }

    /** What the leader does with the index in the middle of the sorted match indices. */
    method UpdateCommitIndex(newCommitIndex: int)
      requires CommitInRange(View(), newCommitIndex)
      modifies this`commitIndex
      ensures View() == UpdateCommit(old(View()), lastIncludedIndex, newCommitIndex)
    {
      if newCommitIndex > commitIndex
         && (newCommitIndex <= lastIncludedIndex || log[newCommitIndex - lastIncludedIndex - 1].term == currentTerm) {
        commitIndex := newCommitIndex;
      }
    }

    method Start(command: C) returns (index: int, term: int, isLeader: bool)
      requires Valid()
      modifies this`log, persister`raftstate, persister`raftStateMemSynced, persister`files, persister`crashPoints
      ensures old(persister.crashPoints) <= persister.crashPoints
      ensures Between(codec, persister.crashPoints, |old(persister.crashPoints)|, StateOf(old(View())), StateOf(View()))
      ensures Valid() && View() == CompactedLog.Start(old(View()), command) && isLeader == (role == Leader)
      ensures isLeader ==> index == LastIndex(View()) && term == currentTerm
      ensures !isLeader ==> index == -1 && term == -1
    {
      if role != Leader { return -1, -1, false; }
      log := log + [LogEntry(command, currentTerm)];
      index, term, isLeader := lastIncludedIndex + |log|, currentTerm, true;
      Persist();
    }

    method DoAppendEntries(nextIndex: int) returns (a: AppendArgs<C>)
      requires lastIncludedIndex < nextIndex <= LastIndex(View()) + 1
      ensures a == CompactedLog.DoAppendEntries(View(), me, nextIndex)
    {
      var prev := nextIndex - 1;
      var prevTerm := lastIncludedTerm;
      if prev != lastIncludedIndex { prevTerm := log[prev - lastIncludedIndex - 1].term; }
      a := AppendArgs(currentTerm, me, prev, prevTerm, log[prev - lastIncludedIndex..], commitIndex);
    }
  }

  /** A crash inside a handler restores the full log from before or after it. */
  lemma CrashRestores<C(!new)>(c: Codec<C>, points: seq<CrashPoint>, from: nat, k: nat, n: Node<C, Bytes>, n': Node<C, Bytes>,
                         full: seq<LogEntry<C>>, full': seq<LogEntry<C>>)
    requires Between(c, points, from, StateOf(n), StateOf(n')) && from <= k < |points|
    requires Holds(n, full) && Holds(n', full')
    ensures var s := Loaded(c, Contents(points[k].files, StateFile)); Keeps(s, full) || Keeps(s, full')
  {
  }

  /** A state's log is the full log behind its snapshot. */
  ghost predicate Keeps<C>(s: RaftState<C>, full: seq<LogEntry<C>>) {
    && s.lastIncludedIndex <= |full| && s.log == full[s.lastIncludedIndex..]
    && s.lastIncludedTerm == TermAt(full, s.lastIncludedIndex)
  }

  /** The restart after a crash at any disk operation k of a handler that took the node from n to n':
      the object made over the files found holds the full log from before or after the handler, and
      first delivers exactly the bytes saved for its snapshot. */
  method Restart<C(!new)>(files: Files, codec: Codec<C>, me: int, ghost r: Raft<C>, ghost from: nat, ghost k: nat,
                          ghost n: Node<C, Bytes>, ghost n': Node<C, Bytes>, ghost full: seq<LogEntry<C>>, ghost full': seq<LogEntry<C>>)
    returns (q: Raft<C>)
    requires r.Valid() && codec == r.codec && from <= k < |r.persister.crashPoints| && files == r.persister.crashPoints[k].files
    requires Between(codec, r.persister.crashPoints, from, StateOf(n), StateOf(n')) && Holds(n, full) && Holds(n', full')
    ensures fresh(q) && q.Valid() && InStep(q.View()) && (Holds(q.View(), full) || Holds(q.View(), full'))
    ensures |q.applied| == 1 && q.applied[0].Snapshot? && q.applied[0].lastIncludedIndex == q.lastIncludedIndex
    ensures q.lastIncludedIndex > 0 ==>
      && q.lastIncludedIndex in r.persister.crashPoints[k].saved
      && q.applied[0].data == r.persister.crashPoints[k].saved[q.lastIncludedIndex]
  {
    CrashRestores(codec, r.persister.crashPoints, from, k, n, n', full, full');
    hide Between;
    var p, _ := Recover(files, r.persister, k);
    q := new Raft.Make(me, p, codec);
  }
}

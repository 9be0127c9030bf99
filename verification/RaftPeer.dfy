/** The Raft object itself: fields updated in place, loops over entries and peers, and a
    persister that must hold term, vote and log whenever the lock is released. Every method
    is proved to compute the function of the same name in RaftServer. */
module RaftPeer {
  import opened RaftServer
  import RaftMatch

  datatype Saved = Saved(term: nat, vote: int, log: seq<Entry>)

  /** What decoding the persister's bytes gives; nothing was saved before the first save. */
  datatype Storage = Empty | Holding(state: Saved)

  function Decode(st: Storage): Saved {
    match st
    case Empty => Saved(0, NULL, [FIRST_ENTRY])
    case Holding(x) => x
  }

  class Raft {
    const me: nat
    const peers: nat
    var role: Role
    var currentTerm: nat
    var votedFor: int
    var log: seq<Entry>
    var commitIndex: int
    var lastApplied: int
    var nextIndex: array<int>
    var matchIndex: array<int>
    var persister: Storage
    var applied: seq<ApplyMsg>  // everything sent on applyCh so far

    ghost function View(): Server
      reads this, nextIndex, matchIndex
    {
      Server(role, currentTerm, votedFor, log, commitIndex, lastApplied, nextIndex[..], matchIndex[..])
    }

    /** A crash at this point restores exactly the server's term, vote and log. */
    ghost predicate Persisted()
      reads this
    {
      Decode(persister) == Saved(currentTerm, votedFor, log)
    }

    ghost predicate Valid()
      reads this
    {
      Persisted() && nextIndex != matchIndex
    }

    /** Make: a fresh object over whatever the persister still holds. */
    constructor Make(me: nat, peers: nat, persister: Storage)
      ensures Valid() && this.me == me && this.peers == peers && this.persister == persister
      ensures applied == [] && fresh(nextIndex) && fresh(matchIndex)
      ensures View() == NewServer().(currentTerm := Decode(persister).term, votedFor := Decode(persister).vote,
                                     log := Decode(persister).log)
    {
      this.me, this.peers, this.persister := me, peers, persister;
      role, currentTerm, votedFor, log := Follower, 0, NULL, [FIRST_ENTRY];
      commitIndex, lastApplied, applied := 0, 0, [];
      nextIndex := new int[0];
      matchIndex := new int[0];
      new;
      ReadPersist();
    }

    method ReadPersist()
      requires currentTerm == 0 && votedFor == NULL && log == [FIRST_ENTRY]
      modifies this`currentTerm, this`votedFor, this`log
      ensures Persisted()
    {
      match persister {
        case Empty =>
        case Holding(x) => currentTerm, votedFor, log := x.term, x.vote, x.log;
      }
    }

    method Persist()
      modifies this`persister
      ensures Persisted()
    {
      persister := Holding(Saved(currentTerm, votedFor, log));
    }

    method BeFollower(term: nat)
      requires nextIndex != matchIndex
      modifies this`role, this`currentTerm, this`votedFor, this`persister
      ensures Valid() && View() == RaftServer.BeFollower(old(View()), term)
      ensures role == Follower && votedFor == NULL && currentTerm == term
    {
      role, votedFor, currentTerm := Follower, NULL, term;
      Persist();
    }

    method BeCandidate()
      requires Valid()
      modifies this`role, this`currentTerm, this`votedFor, this`persister
      ensures Valid() && View() == RaftServer.BeCandidate(old(View()), me)
      ensures role == Candidate && currentTerm == old(currentTerm) + 1 && votedFor == me
    {
      role, currentTerm, votedFor := Candidate, currentTerm + 1, me;
      Persist();
    }

    method BeLeader()
      requires Valid()
      modifies this`role, this`nextIndex, this`matchIndex
      ensures Valid() && View() == RaftServer.BeLeader(old(View()), peers)
      ensures role == (if old(role) == Candidate then Leader else old(role))
      ensures role != old(role) ==> nextIndex.Length == matchIndex.Length == peers
      ensures role != old(role) ==> forall j :: 0 <= j < peers ==> nextIndex[j] == |log| && matchIndex[j] == 0
      ensures fresh({nextIndex, matchIndex} - old({nextIndex, matchIndex}))
    {
      if role != Candidate { return; }
      role := Leader;
      var next := new int[peers];
      for i := 0 to peers
        invariant forall k :: 0 <= k < i ==> next[k] == LastIndex(log) + 1
        modifies next
      {
        next[i] := (|log| - 1) + 1;
      }
      nextIndex := next;
      matchIndex := new int[peers](_ => 0);
      ghost var v := RaftServer.BeLeader(old(View()), peers);
      assert next[..] == v.nextIndex;
      assert matchIndex[..] == v.matchIndex;
    }

    method RequestVote(args: VoteArgs) returns (reply: VoteReply)
      requires Valid()
      modifies this`role, this`currentTerm, this`votedFor, this`persister
      ensures Valid()
      ensures var o := RaftServer.RequestVote(old(View()), args); View() == o.server && reply == o.reply
    {
      if args.term > currentTerm { BeFollower(args.term); }
      reply := VoteReply(currentTerm, false);
      var lastTerm := if |log| == 0 then -1 else log[|log| - 1].term;
      if args.term < currentTerm || (votedFor != NULL && votedFor != args.candidateId) {
      } else if args.lastLogTerm < lastTerm || (args.lastLogTerm == lastTerm && args.lastLogIndex < |log| - 1) {
      } else {
        votedFor := args.candidateId;
        reply := reply.(voteGranted := true);
        role := Follower;
        Persist();
      }
    }

    method UpdateLastApplied()
      requires -1 <= lastApplied && commitIndex < |log|
      modifies this`lastApplied, this`applied
      ensures lastApplied == if old(lastApplied) < commitIndex then commitIndex else old(lastApplied)
      ensures applied == old(applied) + Deliveries(log, old(lastApplied), commitIndex)
    {
      while lastApplied < commitIndex
        invariant old(lastApplied) <= lastApplied && (lastApplied <= commitIndex || lastApplied == old(lastApplied))
        invariant applied + Deliveries(log, lastApplied, commitIndex)
               == old(applied) + Deliveries(log, old(lastApplied), commitIndex)
      {
        ghost var rest := Deliveries(log, lastApplied, commitIndex);
        lastApplied := lastApplied + 1;
        applied := applied + [ApplyMsg(log[lastApplied].command, lastApplied)];
        assert rest == [ApplyMsg(log[lastApplied].command, lastApplied)] + Deliveries(log, lastApplied, commitIndex);
      }
    }

    /** The first index of the conflicting term, by a scan from the front. */
    method FindFirst(t: int) returns (i: int)
      ensures i == FirstOfTerm(log, t)
    {
      i := 0;
      while i < |log|
        invariant 0 <= i <= |log|
        invariant forall j :: 0 <= j < i ==> log[j].term != t
      {
        if log[i].term == t { break; }
        i := i + 1;
      }
    }

    /** Steps 3 and 4 of the handler: find the first disagreement, cut there, append the rest. */
    method StoreEntries(prev: int, entries: seq<Entry>)
      requires Valid() && -1 <= prev
      modifies this`log, this`persister
      ensures Valid() && log == Store(old(log), prev + 1, entries)
    {
      var logSize, index, i := |log|, prev, 0;
      while i < |entries|
        invariant 0 <= i <= |entries| && index == prev + i
        invariant log == old(log) && Persisted()
        invariant Store(log, index + 1, entries[i..]) == Store(log, prev + 1, entries)
      {
        index := index + 1;
        assert entries[i..][1..] == entries[i + 1..];
        if index < logSize {
          if log[index].term == entries[i].term {
            i := i + 1;
            continue;
          } else {
            log := log[..index];
          }
        }
        assert old(log)[..|old(log)|] == old(log);
        log := log + entries[i..];
        Persist();
        break;
      }
    }

    method AppendEntries(args: AppendArgs) returns (reply: AppendReply)
      requires Valid() && -1 <= args.prevLogIndex && -1 <= lastApplied
      modifies this
      ensures Valid() && nextIndex == old(nextIndex) && matchIndex == old(matchIndex)
      ensures var o := RaftServer.AppendEntries(old(View()), args);
        View() == o.server && reply == o.reply && applied == old(applied) + o.applied
    {
      if args.term > currentTerm { BeFollower(args.term); }
      reply := AppendReply(currentTerm, false, 0, NULL);
      var prevTerm: int := -1;
      if 0 <= args.prevLogIndex < |log| { prevTerm := log[args.prevLogIndex].term; }
      if prevTerm != args.prevLogTerm {
        reply := reply.(conflictIndex := |log|);
        if prevTerm != -1 {
          var first := FindFirst(prevTerm);
          reply := reply.(conflictTerm := prevTerm, conflictIndex := first);
        }
        return;
      }
      if args.term < currentTerm { return; }
      StoreEntries(args.prevLogIndex, args.entries);
      if args.leaderCommit > commitIndex {
        commitIndex := Min(args.leaderCommit, |log| - 1);
        UpdateLastApplied();
      }
      reply := reply.(success := true);
    }

    /** The message the leader builds for peer idx under the lock. */
    method PrepareAppend(idx: nat) returns (args: AppendArgs)
      requires CanSend(View(), idx)
      ensures args == MakeAppend(View(), me, idx)
      ensures args.term == currentTerm && args.leaderId == me && args.leaderCommit == commitIndex
      ensures args.prevLogIndex == nextIndex[idx] - 1 && args.entries == log[args.prevLogIndex + 1..]
      ensures 0 < nextIndex[idx] ==> args.prevLogTerm == log[args.prevLogIndex].term
    {
      var prev := nextIndex[idx] - 1;
      var prevTerm := if prev < 0 then -1 else log[prev].term;
      args := AppendArgs(currentTerm, me, prev, prevTerm, log[nextIndex[idx]..], commitIndex);
    }

    method UpdateCommitIndex()
      requires Valid() && me < matchIndex.Length && -1 <= lastApplied && -1 <= commitIndex
      requires MiddleMatch(matchIndex[..][me := LastIndex(log)]) < |log|
      modifies this`commitIndex, this`lastApplied, this`applied, matchIndex
      ensures Valid()
      ensures var (v, out) := UpdateCommit(old(View()), me); View() == v && applied == old(applied) + out
    {
      matchIndex[me] := |log| - 1;
      assert matchIndex[..] == old(matchIndex[..])[me := LastIndex(log)];
      var copy := new int[matchIndex.Length](i requires 0 <= i < matchIndex.Length reads this, matchIndex => matchIndex[i]);
      assert copy[..] == matchIndex[..];
      SortInPlace(copy);
      SortDescendingLength(matchIndex[..]);
      var n := copy[copy.Length / 2];
      if n > commitIndex && log[n].term == currentTerm {
        commitIndex := n;
        UpdateLastApplied();
      }
    }

    /** One past the last entry of the term, by the leader's nested scan. */
    method Backoff(r: AppendReply) returns (target: int)
      ensures target == BackoffIndex(log, r)
    {
      target := r.conflictIndex;
      if r.conflictTerm != NULL {
        var i := 0;
        while i < |log|
          invariant 0 <= i <= |log| + 1
          invariant target == BackoffIndex(log[..Min(i, |log|)], r)
        {
          assert log[..i + 1][..i] == log[..i];
          if log[i].term != r.conflictTerm {
            i := i + 1;
            continue;
          }
          ghost var start := i;
          while i < |log| && log[i].term == r.conflictTerm
            invariant start <= i <= |log|
            invariant i > start ==> log[i - 1].term == r.conflictTerm
            decreases |log| - i
          {
            i := i + 1;
          }
          target := i;
          assert PastLastOfTerm(log[..i], r.conflictTerm) == i;
          assert i < |log| ==> log[..i + 1][..i] == log[..i];
          i := i + 1;
        }
        assert log[..|log|] == log;
      }
    }

    /** What the leader does when a call returns. */
    method ReceiveAppendReply(idx: nat, args: AppendArgs, reply: AppendReply)
      requires Valid()
      requires StillLeading(View(), args) && reply.term <= currentTerm ==> CanReceive(View(), me, idx, args, reply)
      modifies this`role, this`currentTerm, this`votedFor, this`persister, this`commitIndex, this`lastApplied,
        this`applied, nextIndex, matchIndex
      ensures Valid()
      ensures var (v, out) := RaftServer.ReceiveAppendReply(old(View()), me, idx, args, reply);
        View() == v && applied == old(applied) + out
    {
      if role != Leader || currentTerm != args.term { return; }
      if reply.term > currentTerm {
        BeFollower(reply.term);
        return;
      }
      if reply.success {
        matchIndex[idx] := args.prevLogIndex + |args.entries|;
        nextIndex[idx] := matchIndex[idx] + 1;
        assert View() == RecordMatch(old(View()), idx, args.prevLogIndex + |args.entries|);
        UpdateCommitIndex();
      } else {
        var target := Backoff(reply);
        nextIndex[idx] := target;
      }
    }

    /** What a candidate does when a vote call of an election begun with `args` returns. */
    method ReceiveVoteReply(args: VoteArgs, votes: nat, reply: VoteReply) returns (count: nat)
      requires Valid()
      modifies this`role, this`currentTerm, this`votedFor, this`persister, this`nextIndex, this`matchIndex
      ensures Valid()
      ensures fresh({nextIndex, matchIndex} - old({nextIndex, matchIndex}))
      ensures (View(), count) == RaftServer.ReceiveVoteReply(old(View()), peers, args, votes, reply)
    {
      count := votes;
      if reply.term > currentTerm {
        BeFollower(reply.term);
        return;
      }
      if role != Candidate || currentTerm != args.term { return; }
      if reply.voteGranted { count := count + 1; }
      if count > peers / 2 { BeLeader(); }
    }

    method Start(command: Command) returns (index: int, term: nat, isLeader: bool)
      requires Valid()
      modifies this`log, this`persister
      ensures Valid() && View() == RaftServer.Start(old(View()), command)
      ensures log == if isLeader then old(log) + [Entry(currentTerm, command)] else old(log)
      ensures isLeader == (role == Leader) && term == currentTerm
      ensures index == if isLeader then LastIndex(log) else -1
    {
      index, term, isLeader := -1, currentTerm, role == Leader;
      if isLeader {
        index := (|log| - 1) + 1;
        log := log + [Entry(currentTerm, command)];
        Persist();
      }
    }
  }

  /** Moves element n down into the descending run before it. */
  method Sink(a: array<int>, n: nat)
    requires n < a.Length && RaftMatch.Descending(a[..n])
    modifies a
    ensures a[..n + 1] == InsertDescending(old(a[n]), old(a[..n])) && a[n + 1..] == old(a[n + 1..])
  {
    hide InsertDescending;
    ghost var before := a[..n];
    var x, i := a[n], n;
    while i > 0 && a[i - 1] < x
      invariant 0 <= i <= n
      invariant forall k :: 0 <= k < i ==> a[k] == before[k]
      invariant forall k :: i < k <= n ==> a[k] == before[k - 1]
      invariant forall k :: n < k < a.Length ==> a[k] == old(a[k])
      invariant i < n ==> before[i] < x
    {
      a[i] := a[i - 1];
      i := i - 1;
    }
    a[i] := x;
    RaftMatch.InsertAt(x, before, i);
  }

  /** The library's descending sort, as an insertion sort of the copied slice. */
  method SortInPlace(a: array<int>)
    modifies a
    ensures a[..] == SortDescending(old(a[..]))
  {
    var n := 0;
    ghost var was := a[..];
    while n < a.Length
      invariant 0 <= n <= a.Length
      invariant a[..n] == SortDescending(was[..n])
      invariant a[n..] == was[n..]
    {
      RaftMatch.SortDescends(was[..n]);
      assert a[n] == was[n] by { assert a[n..][0] == was[n..][0]; }
      assert was[..n + 1][..n] == was[..n];
      assert was[n + 1..] == was[n..][1..] == a[n..][1..] == a[n + 1..];
      Sink(a, n);
      n := n + 1;
    }
    assert was[..a.Length] == was && a[..a.Length] == a[..];
  }
}

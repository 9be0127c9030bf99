/** A run in which a leader's match index says more than the follower still holds: the follower has
    moved on to a later term, whose leader overwrote the entry. */
module RaftStaleMatch {
  import opened RaftServer
  import opened RaftProtocol
  import opened RaftTheorems

  function ArgsOf(v: Server, i: nat): VoteArgs { VoteArgs(v.currentTerm, i, LastIndex(v.log), LastTerm(v.log)) }

  /** Server i stands for election and asks the others for their votes. */
  lemma Stand(s: State, i: nat) returns (s': State, id: nat)
    requires Reachable(s) && |s.nodes| == 5 && i < 5
    ensures Reachable(s') && |s'.nodes| == 5
    ensures var c := BeCandidate(s.nodes[i].server, i); var args := ArgsOf(c, i);
      && s'.nodes[i].server == c && id in s'.nodes[i].elections && s'.nodes[i].elections[id] == Election(args, 1, Others(5, i))
      && (forall p: nat :: IsPeer(p, 5, i) ==> VoteRequest(i, p, id, args) in s'.net)
    ensures forall p :: 0 <= p < 5 && p != i ==> s'.nodes[p] == s.nodes[p]
  {
    hide Reachable, LastTerm;
    Reach(s, Timeout(i));
    var s1 := Apply(s, Timeout(i));
    Reach(s1, BeginElection(i));
    s', id := Apply(s1, BeginElection(i)), s1.nextId;
    var args := ArgsOf(s1.nodes[i].server, i);
    forall p: nat | IsPeer(p, 5, i) ensures VoteRequest(i, p, id, args) in s'.net {
      assert p in Others(5, i);
    }
  }

  /** Server i stands for election and wins with the votes of a and b. */
  lemma Elect(s: State, i: nat, a: nat, b: nat) returns (s': State)
    requires Reachable(s) && |s.nodes| == 5 && i < 5 && a < 5 && b < 5 && i != a && i != b && a != b
    requires var v := s.nodes[i].server;
      && s.nodes[a].server.currentTerm <= v.currentTerm && s.nodes[a].server.log == v.log
      && s.nodes[b].server.currentTerm <= v.currentTerm && s.nodes[b].server.log == v.log
    ensures Reachable(s') && |s'.nodes| == 5
    ensures var v, t := s.nodes[i].server, s.nodes[i].server.currentTerm + 1;
      && s'.nodes[i].server == BeLeader(BeCandidate(v, i), 5)
      && s'.nodes[a].server.currentTerm == t && s'.nodes[a].server.log == v.log
      && s'.nodes[b].server.currentTerm == t && s'.nodes[b].server.log == v.log
    ensures forall p :: 0 <= p < 5 && p != i && p != a && p != b ==> s'.nodes[p] == s.nodes[p]
  {
    hide Reachable;
    var s2, id := Stand(s, i);
    var c := s2.nodes[i].server;
    var args := ArgsOf(c, i);
    var ma, mb := VoteRequest(i, a, id, args), VoteRequest(i, b, id, args);
    assert IsPeer(a, 5, i) && IsPeer(b, 5, i);
    Reach(s2, ReceiveVoteRequest(ma));
    var s3 := Apply(s2, ReceiveVoteRequest(ma));
    Reach(s3, ReceiveVoteRequest(mb));
    var s4 := Apply(s3, ReceiveVoteRequest(mb));
    var ra := VoteResponse(a, i, id, args, VoteReply(c.currentTerm, true));
    var rb := VoteResponse(b, i, id, args, VoteReply(c.currentTerm, true));
    assert ra in s4.net && rb in s4.net;
    Reach(s4, ReceiveVoteResponse(ra));
    var s5 := Apply(s4, ReceiveVoteResponse(ra));
    Reach(s5, ReceiveVoteResponse(rb));
    s' := Apply(s5, ReceiveVoteResponse(rb));
  }

  /** A leader with only the first entry takes a command and stores it on server j. */
  lemma Replicate(s: State, i: nat, j: nat, x: Command) returns (s': State, m: Message)
    requires Reachable(s) && |s.nodes| == 5 && i < 5 && j < 5 && i != j
    requires var v, w := s.nodes[i].server, s.nodes[j].server;
      && v.role == Leader && v.log == [FIRST_ENTRY] && |v.nextIndex| == 5 && v.nextIndex[j] == 1 && v.commitIndex == 0
      && w.currentTerm <= v.currentTerm && |w.log| >= 1 && w.log[0] == FIRST_ENTRY
      && (|w.log| == 1 || w.log[1].term != v.currentTerm) && w.commitIndex == 0
    ensures Reachable(s') && |s'.nodes| == 5
    ensures var t := s.nodes[i].server.currentTerm;
      && s'.nodes[i].server == s.nodes[i].server.(log := [FIRST_ENTRY, Entry(t, x)])
      && s'.nodes[j].server.currentTerm == t && s'.nodes[j].server.log == [FIRST_ENTRY, Entry(t, x)]
      && s'.nodes[j].server.commitIndex == 0
      && m in s'.net && m == AppendResponse(j, i, AppendArgs(t, i, 0, 0, [Entry(t, x)], 0), AppendReply(t, true, 0, NULL))
    ensures forall p :: 0 <= p < 5 && p != i && p != j ==> s'.nodes[p] == s.nodes[p]
  {
    hide Reachable;
    var t := s.nodes[i].server.currentTerm;
    Reach(s, Client(i, x));
    var s1 := Apply(s, Client(i, x));
    Reach(s1, SendAppend(i, j));
    var s2 := Apply(s1, SendAppend(i, j));
    var a := AppendArgs(t, i, 0, 0, [Entry(t, x)], 0);
    assert s1.nodes[i].server.log == [FIRST_ENTRY, Entry(t, x)];
    assert s1.nodes[i].server.log[1..] == [Entry(t, x)];
    var q := AppendRequest(i, j, a);
    assert q in s2.net;
    Reach(s2, ReceiveAppendRequest(q));
    s' := Apply(s2, ReceiveAppendRequest(q));
    m := AppendResponse(j, i, a, AppendReply(t, true, 0, NULL));
    StoreOne(s2.nodes[j].server.log, Entry(t, x));
  }

  lemma StoreOne(log: seq<Entry>, e: Entry)
    requires |log| >= 1 && log[0] == FIRST_ENTRY && (|log| == 1 || log[1].term != e.term)
    ensures Store(log, 1, [e]) == [FIRST_ENTRY, e]
  {
    assert log[..1] == [FIRST_ENTRY];
  }

  /** The match index is not always a lower bound: here server 0, still leader of term 1, believes
      that server 1 shares its entry 1, which server 1 has meanwhile replaced. */
  lemma MatchIndexTooHigh() returns (s: State)
    ensures Reachable(s) && |s.nodes| == 5 && Leads(s, 0, 1)
    ensures |s.nodes[0].server.matchIndex| == 5 && s.nodes[0].server.matchIndex[1] == 1
    ensures |s.nodes[0].server.log| == |s.nodes[1].server.log| == 2
    ensures s.nodes[0].server.log[1] != s.nodes[1].server.log[1]
    ensures s.nodes[1].server.currentTerm == 2
  {
    hide RaftProtocol.Run;
    var s0 := State(seq(5, _ => Boot(NewServer())), {}, 0, History(map[], {}, {}, {}));
    assert Reachable(s0) by { StartReachable(s0); }
    var s1 := Elect(s0, 0, 3, 4);
    var s2, m := Replicate(s1, 0, 1, Command("x"));
    Reach(s2, ReceiveAppendResponse(m));
    var s3 := Apply(s2, ReceiveAppendResponse(m));
    Reach(s3, Timeout(2));
    var s4 := Apply(s3, Timeout(2));
    var s5 := Elect(s4, 2, 3, 4);
    var m2;
    s, m2 := Replicate(s5, 2, 1, Command("y"));
  }

  lemma StartReachable(s: State)
    requires Init(s)
    ensures Reachable(s)
  {
    assert RaftProtocol.Run(s, [], s);
  }
}

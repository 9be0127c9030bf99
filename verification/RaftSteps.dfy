/** Every step of the cluster keeps the invariant. */
module RaftSteps {
  import opened RaftServer
  import opened RaftProtocol
  import opened RaftInvariant
  import opened RaftMatch
  import opened Quorums

  /** A step of server i: the history grows, and only by what i may add to it. */
  ghost predicate HistoryStep(h: History, h': History, i: nat, v: Server) {
    && ReignsGrow(h.reigns, h'.reigns)
    && (forall t :: t in h'.reigns ==>
          (t in h.reigns && h'.reigns[t] == h.reigns[t]) || h'.reigns[t].leader == i)
    && h.acks <= h'.acks
    && (forall a :: a in h'.acks && a !in h.acks ==> a.server == i && a.term >= v.currentTerm)
    && h.ballots <= h'.ballots
    && (forall b :: b in h'.ballots && b !in h.ballots ==> b.voter == i)
    && h.delivered <= h'.delivered
  }

  ghost predicate OnlyNode(s: State, s': State, i: nat) {
    && i < |s.nodes| == |s'.nodes|
    && (forall j :: 0 <= j < |s.nodes| && j != i ==> s'.nodes[j] == s.nodes[j])
    && s.nodes[i].server.currentTerm <= s'.nodes[i].server.currentTerm
    && HistoryStep(s.hist, s'.hist, i, s.nodes[i].server)
    && s.net <= s'.net
  }

  lemma AckedEarlier(h: History, h': History, i: nat, v: Server, p: nat, t: nat, k: int)
    requires HistoryStep(h, h', i, v) && Acked(h'.acks, p, t, k) && (p == i ==> t < v.currentTerm)
    ensures Acked(h.acks, p, t, k)
  {
    var a :| a in h'.acks && a.server == p && a.term == t && k <= a.length;
    assert a in h.acks;
  }

  /** The worth of a vote cast earlier does not change: its voter acknowledges nothing older any more. */
  lemma BacksStays(s: State, s': State, i: nat, p: nat, l: seq<Entry>, u: nat)
    requires Inv(s) && OnlyNode(s, s', i) && p < |s.nodes|
    requires u <= s.nodes[p].server.currentTerm && Backs(s.hist.reigns, s.hist.acks, p, l, u)
    ensures Backs(s'.hist.reigns, s'.hist.acks, p, l, u)
  {
    forall t: nat, k: int | t < u && Acked(s'.hist.acks, p, t, k) && OwnEntry(s'.hist.reigns, t, k)
      ensures Kept(s'.hist.reigns, l, t, k, u)
    {
      AckedEarlier(s.hist, s'.hist, i, s.nodes[i].server, p, t, k);
      assert NodeOk(s.hist, |s.nodes|, p, s.nodes[p]);
      assert Agree(s.hist.reigns[t].log, s'.hist.reigns[t].log, |s.hist.reigns[t].log|);
      assert OwnEntry(s.hist.reigns, t, k);
      KeptGrows(s.hist.reigns, s'.hist.reigns, l, t, k, u);
    }
  }

  lemma AckedLater(h: History, h': History, i: nat, v: Server, p: nat, t: nat, k: int)
    requires HistoryStep(h, h', i, v) && Acked(h.acks, p, t, k)
    ensures Acked(h'.acks, p, t, k)
  {
    var a :| a in h.acks && a.server == p && a.term == t && k <= a.length;
    assert a in h'.acks;
  }

  lemma OldReign(s: State, s': State, i: nat, t: nat)
    requires Inv(s) && OnlyNode(s, s', i)
    requires t in s.hist.reigns && s'.hist.reigns[t] == s.hist.reigns[t]
    ensures ReignLogOk(s'.hist.reigns, t) && VotersOk(s'.hist, |s'.nodes|, t) && ChosenOk(s'.hist, |s'.nodes|, t)
  {
    var r := s.hist.reigns[t];
    var n := |s.nodes|;
    assert ReignLogOk(s.hist.reigns, t) && VotersOk(s.hist, n, t) && ChosenOk(s.hist, n, t);
    SoundGrows(s.hist.reigns, s'.hist.reigns, r.start);
    SoundGrows(s.hist.reigns, s'.hist.reigns, r.log);
    forall p | p in r.voters ensures Ballot(p, t, r.leader) in s'.hist.ballots && Backs(s'.hist.reigns, s'.hist.acks, p, r.start, t) {
      var b := Ballot(p, t, r.leader);
      assert b in s.hist.ballots && NodeOk(s.hist, n, p, s.nodes[p]);
      BacksStays(s, s', i, p, r.start, t);
    }
    if r.chosen > 0 {
      forall p | p in r.quorum ensures Acked(s'.hist.acks, p, t, r.chosen) {
        AckedLater(s.hist, s'.hist, i, s.nodes[i].server, p, t, r.chosen);
      }
    }
  }

  lemma ElectionGrows(h: History, h': History, n: nat, i: nat, v: Server, v': Server, e: Election)
    requires h.ballots <= h'.ballots && v.currentTerm <= v'.currentTerm && ElectionOk(h, n, i, v, e)
    ensures ElectionOk(h', n, i, v', e)
  {
    SubsetSize(VotersOf(h, n, e.args.term, i) - {i} - e.waiting, VotersOf(h', n, e.args.term, i) - {i} - e.waiting);
  }

  /** New ballots for server j's campaign carry the knowledge of their voters. */
  ghost predicate BallotsBack(h: History, h': History, j: nat, v: Server) {
    v.role == Candidate && v.currentTerm !in h'.reigns ==>
      forall p: nat :: Ballot(p, v.currentTerm, j) in h'.ballots && Ballot(p, v.currentTerm, j) !in h.ballots
        ==> Backs(h'.reigns, h'.acks, p, v.log, v.currentTerm)
  }

  lemma OtherRole(s: State, s': State, i: nat, j: nat)
    requires Inv(s) && OnlyNode(s, s', i) && j < |s.nodes| && j != i
    ensures RoleOk(s'.hist, |s'.nodes|, j, s'.nodes[j].server)
  {
    var h, h', n := s.hist, s'.hist, |s.nodes|;
    var v := s.nodes[j].server;
    assert NodeOk(h, n, j, s.nodes[j]);
    if v.role == Leader {
      assert h'.reigns[v.currentTerm] == h.reigns[v.currentTerm];
      forall p | 0 <= p < n && p != j && v.matchIndex[p] > 0
        ensures Acked(h'.acks, p, v.currentTerm, v.matchIndex[p] + 1)
      {
        AckedLater(h, h', i, s.nodes[i].server, p, v.currentTerm, v.matchIndex[p] + 1);
      }
    }
  }

  lemma OtherCandidate(s: State, s': State, i: nat, j: nat)
    requires Inv(s) && OnlyNode(s, s', i) && j < |s.nodes| && j != i
    requires BallotsBack(s.hist, s'.hist, j, s.nodes[j].server)
    ensures CandidateOk(s'.hist, j, s'.nodes[j].server)
  {
    var h, h', n := s.hist, s'.hist, |s.nodes|;
    var v := s.nodes[j].server;
    assert NodeOk(h, n, j, s.nodes[j]);
    if v.role == Candidate && v.currentTerm !in h'.reigns {
      forall p: nat | Ballot(p, v.currentTerm, j) in h'.ballots && Ballot(p, v.currentTerm, j) in h.ballots
        ensures Backs(h'.reigns, h'.acks, p, v.log, v.currentTerm)
      {
        BallotVoter(s, Ballot(p, v.currentTerm, j));
        BacksStays(s, s', i, p, v.log, v.currentTerm);
      }
    }
  }

  lemma OtherAcks(s: State, s': State, i: nat, j: nat)
    requires Inv(s) && OnlyNode(s, s', i) && j < |s.nodes| && j != i
    ensures AcksOk(s'.hist.reigns, s'.hist.acks, j, s'.nodes[j].server)
  {
    var h, h', n := s.hist, s'.hist, |s.nodes|;
    var v := s.nodes[j].server;
    assert NodeOk(h, n, j, s.nodes[j]);
    forall t: nat, k: int | Acked(h'.acks, j, t, k)
      ensures t in h'.reigns && t <= v.currentTerm && k <= |h'.reigns[t].log|
      ensures Kept(h'.reigns, v.log, t, k, v.currentTerm + 1)
    {
      AckedEarlier(h, h', i, s.nodes[i].server, j, t, k);
      KeptGrows(h.reigns, h'.reigns, v.log, t, k, v.currentTerm + 1);
    }
  }

  lemma OtherNode(s: State, s': State, i: nat, j: nat)
    requires Inv(s) && OnlyNode(s, s', i) && j < |s.nodes| && j != i
    requires BallotsBack(s.hist, s'.hist, j, s.nodes[j].server)
    ensures NodeOk(s'.hist, |s'.nodes|, j, s'.nodes[j])
  {
    var h, h', n, nd := s.hist, s'.hist, |s.nodes|, s.nodes[j];
    assert NodeOk(h, n, j, nd);
    SoundGrows(h.reigns, h'.reigns, nd.server.log);
    CommittedGrows(h.reigns, h'.reigns, nd.server.currentTerm, nd.server.currentTerm,
                   nd.server.log, nd.server.commitIndex + 1);
    OtherRole(s, s', i, j);
    OtherCandidate(s, s', i, j);
    OtherAcks(s, s', i, j);
    forall id | id in nd.elections ensures ElectionOk(h', n, j, nd.server, nd.elections[id]) {
      ElectionGrows(h, h', n, j, nd.server, nd.server, nd.elections[id]);
    }
  }

  lemma AppendRequestGrows(R: Reigns, R': Reigns, i: nat, a: AppendArgs)
    requires ReignsGrow(R, R') && AppendRequestOk(R, i, a)
    ensures AppendRequestOk(R', i, a)
  {
    var g, g' := R[a.term].log, R'[a.term].log;
    assert Agree(g, g', |g|);
    CommittedGrows(R, R', a.term, a.term, g, a.leaderCommit + 1);
    AgreeCommitted(R', a.term, g, g', a.leaderCommit + 1);
  }

  lemma AgreeCommitted(R: Reigns, u: nat, l: seq<Entry>, l': seq<Entry>, k: int)
    requires Committed(R, u, l, k) && Agree(l, l', k)
    ensures Committed(R, u, l', k)
  {
    if k > 1 {
      var t :| t in R && t <= u && k <= R[t].chosen && Agree(l, R[t].log, k);
      assert Agree(l', R[t].log, k);
    }
  }

  lemma OldMessage(s: State, s': State, i: nat, m: Message)
    requires Inv(s) && OnlyNode(s, s', i) && m in s.net && !(m.VoteRequest? && m.src == i)
    ensures MessageOk(s', m)
  {
    assert MessageOk(s, m);
    match m
    case VoteRequest(_, _, _, _) =>
    case VoteResponse(_, _, _, _, _) =>
    case AppendRequest(j, _, a) => AppendRequestGrows(s.hist.reigns, s'.hist.reigns, j, a);
    case AppendResponse(j, l, a, r) =>
      AppendRequestGrows(s.hist.reigns, s'.hist.reigns, l, a);
      if r.success {
        AckedLater(s.hist, s'.hist, i, s.nodes[i].server, j, a.term, a.prevLogIndex + |a.entries| + 1);
      }
  }

  lemma DeliveryGrows(R: Reigns, R': Reigns, m: ApplyMsg)
    requires ReignsGrow(R, R') && DeliveryOk(R, m)
    ensures DeliveryOk(R', m)
  {
    var t :| t in R && 1 <= m.index < R[t].chosen && m.index < |R[t].log| && R[t].log[m.index].command == m.command;
    assert t in R' && Agree(R[t].log, R'[t].log, |R[t].log|);
  }

  lemma BallotVoter(s: State, b: Ballot)
    requires Inv(s) && b in s.hist.ballots
    ensures b.voter < |s.nodes| && BallotsOk(s.hist, b.voter, s.nodes[b.voter].server)
  {
  }

  /** What a step of server i still has to show once the rest is known not to move. */
  lemma Frame(s: State, s': State, i: nat)
    requires Inv(s) && OnlyNode(s, s', i)
    requires forall t :: t in s'.hist.reigns && (t !in s.hist.reigns || s'.hist.reigns[t] != s.hist.reigns[t]) ==>
      ReignLogOk(s'.hist.reigns, t) && VotersOk(s'.hist, |s'.nodes|, t) && ChosenOk(s'.hist, |s'.nodes|, t)
    requires forall t :: t in s'.hist.reigns && s'.hist.reigns[t].leader == i ==>
      t <= s'.nodes[i].server.currentTerm
      && (t == s'.nodes[i].server.currentTerm ==> s'.nodes[i].server.role != Candidate)
    requires BallotBoxOk(s')
    requires forall j :: 0 <= j < |s.nodes| && j != i ==> BallotsBack(s.hist, s'.hist, j, s.nodes[j].server)
    requires NodeOk(s'.hist, |s'.nodes|, i, s'.nodes[i])
    requires forall m :: m in s'.net && (m !in s.net || (m.VoteRequest? && m.src == i)) ==> MessageOk(s', m)
    requires forall d :: d in s'.hist.delivered && d !in s.hist.delivered ==> DeliveryOk(s'.hist.reigns, d.msg)
    ensures Inv(s')
  {
    forall t | t in s'.hist.reigns
      ensures ReignLogOk(s'.hist.reigns, t) && VotersOk(s'.hist, |s'.nodes|, t) && ChosenOk(s'.hist, |s'.nodes|, t)
    {
      if t in s.hist.reigns && s'.hist.reigns[t] == s.hist.reigns[t] { OldReign(s, s', i, t); }
    }
    forall j | 0 <= j < |s'.nodes| ensures NodeOk(s'.hist, |s'.nodes|, j, s'.nodes[j]) {
      if j != i { OtherNode(s, s', i, j); }
    }
    forall m | m in s'.net ensures MessageOk(s', m) {
      if m in s.net && !(m.VoteRequest? && m.src == i) { OldMessage(s, s', i, m); }
    }
    forall d | d in s'.hist.delivered ensures DeliveryOk(s'.hist.reigns, d.msg) {
      if d in s.hist.delivered { DeliveryGrows(s.hist.reigns, s'.hist.reigns, d.msg); }
    }
  }

  // ----- steps that touch one server and its messages

  lemma CommittedAt(R: Reigns, v: Server, v': Server)
    requires LogOk(R, v) && v'.log == v.log && v.currentTerm <= v'.currentTerm
    requires 0 <= v'.lastApplied <= v'.commitIndex && (v'.commitIndex == v.commitIndex || v'.commitIndex == 0)
    ensures LogOk(R, v')
  {
    CommittedGrows(R, R, v.currentTerm, v'.currentTerm, v.log, v.commitIndex + 1);
  }

  /** What a server acknowledged stays accounted for when only its term moves. */
  lemma AcksAt(h: History, i: nat, v: Server, v': Server)
    requires AcksOk(h.reigns, h.acks, i, v) && v'.log == v.log && v.currentTerm <= v'.currentTerm
    ensures AcksOk(h.reigns, h.acks, i, v')
  {
    forall t: nat, k: int | Acked(h.acks, i, t, k) ensures Kept(h.reigns, v'.log, t, k, v'.currentTerm + 1) {
      if !Agree(v.log, h.reigns[t].log, k) {
        var d :| d in h.reigns && t < d < v.currentTerm + 1 && !Agree(h.reigns[d].start, h.reigns[t].log, k);
        assert d in h.reigns && t < d < v'.currentTerm + 1;
      }
    }
  }

  lemma TimeoutNode(h: History, h': History, n: nat, i: nat, nd: Node, nd': Node)
    requires NodeOk(h, n, i, nd)
    requires forall b :: b in h.ballots && b.candidate == i ==> b.term <= nd.server.currentTerm
    requires nd'.server == BeCandidate(nd.server, i) && nd'.elections == nd.elections
    requires h' == h.(ballots := h.ballots + {Ballot(i, nd'.server.currentTerm, i)})
    ensures NodeOk(h', n, i, nd')
  {
    var v, v' := nd.server, nd'.server;
    CommittedAt(h.reigns, v, v');
    AcksAt(h, i, v, v');
    SelfBacks(h, i, v, v'.currentTerm);
    assert Backs(h'.reigns, h'.acks, i, v'.log, v'.currentTerm);
    assert CandidateOk(h', i, v');
    assert AcksOk(h'.reigns, h'.acks, i, v');
    forall id | id in nd'.elections ensures ElectionOk(h', n, i, v', nd'.elections[id]) {
      ElectionGrows(h, h', n, i, v, v', nd.elections[id]);
    }
  }

  lemma GetNode(s: State, i: nat)
    requires Inv(s) && i < |s.nodes|
    ensures NodeOk(s.hist, |s.nodes|, i, s.nodes[i])
    ensures BallotsOk(s.hist, i, s.nodes[i].server)
  {
  }

  lemma TimeoutKeeps(s: State, i: nat)
    requires Inv(s) && i < |s.nodes|
    ensures Inv(DoTimeout(s, i))
  {
    hide NodeOk, ReignLogOk, VotersOk, ChosenOk, AppendRequestOk, AppendResponseOk, DeliveryOk, ReignsOk;
    hide Inv;
    var s' := DoTimeout(s, i);
    GetNode(s, i);
    GetBox(s);
    forall m | m in s.net && m.VoteRequest? && m.src == i ensures MessageOk(s', m) {
      GetMessage(s, m);
    }
    TimeoutNode(s.hist, s'.hist, |s.nodes|, i, s.nodes[i], s'.nodes[i]);
    Frame(s, s', i);
  }

  /** A server that votes for its own log brings what it acknowledged. */
  lemma SelfBacks(h: History, i: nat, v: Server, u: nat)
    requires AcksOk(h.reigns, h.acks, i, v) && v.currentTerm < u
    ensures Backs(h.reigns, h.acks, i, v.log, u)
  {
    forall t: nat, k: int | t < u && Acked(h.acks, i, t, k) && OwnEntry(h.reigns, t, k)
      ensures Kept(h.reigns, v.log, t, k, u)
    {
      if !Agree(v.log, h.reigns[t].log, k) {
        var d :| d in h.reigns && t < d < v.currentTerm + 1 && !Agree(h.reigns[d].start, h.reigns[t].log, k);
        assert d in h.reigns && t < d < u;
      }
    }
  }

  lemma BeginElectionNode(h: History, n: nat, i: nat, nd: Node, nd': Node, id: nat)
    requires NodeOk(h, n, i, nd)
    requires nd'.server == nd.server
    requires nd'.elections == nd.elections[id := Election(
      VoteArgs(nd.server.currentTerm, i, LastIndex(nd.server.log), LastTerm(nd.server.log)), 1, Others(n, i))]
    ensures NodeOk(h, n, i, nd')
  {
  }

  lemma BeginElectionKeeps(s: State, i: nat)
    requires Inv(s) && i < |s.nodes| && s.nodes[i].announced > 0
    ensures Inv(DoBeginElection(s, i))
  {
    hide NodeOk, ReignLogOk, VotersOk, ChosenOk, AppendRequestOk, AppendResponseOk, DeliveryOk, ReignsOk;
    var s' := DoBeginElection(s, i);
    GetNode(s, i);
    BeginElectionNode(s.hist, |s.nodes|, i, s.nodes[i], s'.nodes[i], s.nextId);
    Frame(s, s', i);
  }

  /** A vote carries what its voter acknowledged: the candidate's log is at least as up to
      date, so it holds each such prefix, or a reign in between began without it. */
  lemma VoteBacks(R: Reigns, acks: set<Ack>, i: nat, v: Server, l: seq<Entry>, u: nat)
    requires forall t :: t in R ==> ReignLogOk(R, t)
    requires Sound(R, v.log) && Sound(R, l) && AcksOk(R, acks, i, v)
    requires UpToDate(LastIndex(l), LastTerm(l), v.log)
    requires v.currentTerm <= u && u !in R && forall k :: 0 <= k < |l| ==> l[k].term <= u
    ensures Backs(R, acks, i, l, u)
  {
    forall t: nat, k: int | t < u && Acked(acks, i, t, k) && OwnEntry(R, t, k)
      ensures Kept(R, l, t, k, u)
    {
      if Agree(v.log, R[t].log, k) {
        VoteKeeps(R, v.log, l, t, k, u);
      } else {
        var d :| d in R && t < d < v.currentTerm + 1 && !Agree(R[d].start, R[t].log, k);
        assert d in R && t < d < u;
      }
    }
  }

  lemma VoteKeeps(R: Reigns, log: seq<Entry>, l: seq<Entry>, t: nat, k: int, u: nat)
    requires forall t :: t in R ==> ReignLogOk(R, t)
    requires Sound(R, log) && Sound(R, l) && UpToDate(LastIndex(l), LastTerm(l), log)
    requires OwnEntry(R, t, k) && Agree(log, R[t].log, k)
    requires u !in R && forall k :: 0 <= k < |l| ==> l[k].term <= u
    ensures Kept(R, l, t, k, u)
  {
    assert ReignLogOk(R, t);
    TermsAscend(R, log, k - 1, |log| - 1);
    var e: nat := l[|l| - 1].term;
    assert |l| > 1 && Owned(R, l, |l| - 1);
    assert Agree(l, R[e].log, |l|);
    if e != t {
      assert ReignLogOk(R, e);
      assert |l| - 1 >= |R[e].start|;
      if !Agree(R[e].start, R[t].log, k) { assert e in R && t < e < u; }
    }
  }

  /** A server whose log, commit and match state stay, with a later term or a vote as a follower. */
  lemma FollowerNode(h: History, h': History, n: nat, i: nat, nd: Node, nd': Node)
    requires NodeOk(h, n, i, nd)
    requires h'.reigns == h.reigns && h'.acks == h.acks && h.ballots <= h'.ballots
    requires nd'.elections.Keys <= nd.elections.Keys
    requires forall id :: id in nd'.elections ==>
      nd'.elections[id] == nd.elections[id] || ElectionOk(h', n, i, nd'.server, nd'.elections[id])
    requires nd'.server.role == Follower && nd'.server.log == nd.server.log
    requires nd.server.currentTerm <= nd'.server.currentTerm
    requires (nd'.server.commitIndex == nd.server.commitIndex && nd'.server.lastApplied == nd.server.lastApplied)
      || nd'.server.commitIndex == nd'.server.lastApplied == 0
    requires BallotsOk(h', i, nd'.server)
    ensures NodeOk(h', n, i, nd')
  {
    var v, v' := nd.server, nd'.server;
    CommittedAt(h.reigns, v, v');
    AcksAt(h, i, v, v');
    forall id | id in nd'.elections ensures ElectionOk(h', n, i, v', nd'.elections[id]) {
      if nd'.elections[id] == nd.elections[id] { ElectionGrows(h, h', n, i, v, v', nd.elections[id]); }
    }
  }

  /** A server that did not change, beside new ballots for others. */
  lemma IdleNode(h: History, h': History, n: nat, i: nat, nd: Node, nd': Node)
    requires NodeOk(h, n, i, nd) && nd'.server == nd.server
    requires h'.reigns == h.reigns && h'.acks == h.acks && h.ballots <= h'.ballots
    requires forall b :: b in h'.ballots && b !in h.ballots ==> b.candidate != i
    requires forall id :: id in nd'.elections ==> ElectionOk(h', n, i, nd'.server, nd'.elections[id])
    requires BallotsOk(h', i, nd'.server)
    ensures NodeOk(h', n, i, nd')
  {
  }

  lemma VoteRequestNode(h: History, h': History, n: nat, i: nat, nd: Node, nd': Node, a: VoteArgs)
    requires NodeOk(h, n, i, nd) && a.candidateId >= 0 && a.candidateId != i
    requires var o := RequestVote(nd.server, a);
      && nd' == nd.(server := o.server)
      && h' == if o.reply.voteGranted then h.(ballots := h.ballots + {Ballot(i, a.term, a.candidateId)}) else h
    ensures NodeOk(h', n, i, nd')
  {
    if nd'.server == nd.server {
      forall id | id in nd'.elections ensures ElectionOk(h', n, i, nd'.server, nd'.elections[id]) {
        ElectionGrows(h, h', n, i, nd.server, nd'.server, nd.elections[id]);
      }
      IdleNode(h, h', n, i, nd, nd');
    } else {
      FollowerNode(h, h', n, i, nd, nd');
    }
  }

  /** A granted vote backs the log its candidate campaigns with. */
  lemma GrantBacks(s: State, m: Message)
    requires Inv(s) && m in s.net && m.VoteRequest?
    requires RequestVote(s.nodes[m.dst].server, m.vote).reply.voteGranted
    requires s.nodes[m.src].server.role == Candidate && s.nodes[m.src].server.currentTerm == m.vote.term
    requires m.vote.term !in s.hist.reigns
    ensures Backs(s.hist.reigns, s.hist.acks, m.dst, s.nodes[m.src].server.log, m.vote.term)
  {
    assert MessageOk(s, m);
    GetNode(s, m.dst);
    GetNode(s, m.src);
    VoteBacks(s.hist.reigns, s.hist.acks, m.dst, s.nodes[m.dst].server, s.nodes[m.src].server.log, m.vote.term);
  }

  lemma VoteOutcome(v: Server, a: VoteArgs)
    ensures var o := RequestVote(v, a);
      && v.currentTerm <= o.server.currentTerm
      && (o.server.role == Candidate ==> o.server == v && !o.reply.voteGranted)
      && (o.reply.voteGranted ==> a.term == o.server.currentTerm && o.server.votedFor == a.candidateId)
  {
  }

  /** Of the other candidates only the one granted the vote has a new one, and it backs its log. */
  lemma GrantedBallots(s: State, s': State, m: Message)
    requires Inv(s) && m in s.net && m.VoteRequest? && m.dst < |s.nodes| && s' == DoReceiveVoteRequest(s, m)
    ensures forall j :: 0 <= j < |s.nodes| && j != m.dst ==> BallotsBack(s.hist, s'.hist, j, s.nodes[j].server)
  {
    hide Inv, Backs, RequestVote;
    GetMessage(s, m);
    var v := s.nodes[m.src].server;
    if RequestVote(s.nodes[m.dst].server, m.vote).reply.voteGranted
       && v.role == Candidate && v.currentTerm == m.vote.term && m.vote.term !in s.hist.reigns {
      GrantBacks(s, m);
    }
  }

  /** What handling a vote request touches: the server, at most one ballot, and the reply on the network. */
  lemma VoteRequestShape(s: State, s': State, m: Message)
    requires Inv(s) && m in s.net && m.VoteRequest? && m.dst < |s.nodes| && s' == DoReceiveVoteRequest(s, m)
    ensures OnlyNode(s, s', m.dst) && s'.hist.reigns == s.hist.reigns && s'.hist.delivered == s.hist.delivered
    ensures s'.nodes[m.dst].server.role == Candidate ==> s'.nodes[m.dst].server == s.nodes[m.dst].server
    ensures forall r :: r in s'.net && r !in s.net ==> MessageOk(s', r)
  {
    hide Inv, NodeOk, RequestVote, UpToDate;
    GetMessage(s, m);
    VoteOutcome(s.nodes[m.dst].server, m.vote);
  }

  lemma ReceiveVoteRequestKeeps(s: State, m: Message)
    requires Inv(s) && m in s.net && m.VoteRequest? && m.dst < |s.nodes|
    ensures Inv(DoReceiveVoteRequest(s, m))
  {
    hide Inv, NodeOk, ReignLogOk, VotersOk, ChosenOk, DeliveryOk, ReignsOk, MessageOk, RequestVote, OneBallotEach, BallotsBack;
    var s', i := DoReceiveVoteRequest(s, m), m.dst;
    VoteRequestShape(s, s', m);
    GetMessage(s, m);
    GetNode(s, i);
    GetBox(s);
    VoteRequestBox(s, s', m);
    GrantedBallots(s, s', m);
    RequestsStay(s, s', i);
    Frame(s, s', i);
  }

  lemma VoteRequestBox(s: State, s': State, m: Message)
    requires Inv(s) && m in s.net && m.VoteRequest? && m.dst < |s.nodes| && s' == DoReceiveVoteRequest(s, m)
    ensures NodeOk(s'.hist, |s'.nodes|, m.dst, s'.nodes[m.dst]) && BallotBoxOk(s')
  {
    hide Inv, NodeOk, ReignsOk, Backs, RequestVote, OneBallotEach;
    var i := m.dst;
    GetMessage(s, m);
    GetNode(s, i);
    GetBox(s);
    VoteOutcome(s.nodes[i].server, m.vote);
    VoteRequestNode(s.hist, s'.hist, |s.nodes|, i, s.nodes[i], s'.nodes[i], m.vote);
    NewBallotAlone(s.hist, s'.hist, |s.nodes|, i, s'.nodes[i], m.vote.candidateId);
  }

  /** The ballot just cast is its voter's only one in the term. */
  lemma NewBallotAlone(h: History, h': History, n: nat, i: nat, nd': Node, c: int)
    requires OneBallotEach(h) && NodeOk(h', n, i, nd') && c >= 0
    requires h'.ballots == h.ballots
      || (h'.ballots == h.ballots + {Ballot(i, nd'.server.currentTerm, c)} && nd'.server.votedFor == c)
    ensures OneBallotEach(h')
  {
  }

  /** A call that returned, with a vote only if one was cast. */
  lemma ReturnedElection(h: History, n: nat, i: nat, v: Server, e: Election, p: nat, votes: nat)
    requires ElectionOk(h, n, i, v, e) && p in e.waiting
    requires votes == e.votes || (votes == e.votes + 1 && Ballot(p, e.args.term, i) in h.ballots)
    ensures ElectionOk(h, n, i, v, Returned(e, p, votes))
  {
    var cast := VotersOf(h, n, e.args.term, i) - {i};
    var w' := e.waiting - {p};
    assert p in Others(n, i);
    if votes > e.votes {
      assert cast - w' == (cast - e.waiting) + {p};
    } else {
      SubsetSize(cast - e.waiting, cast - w');
    }
  }

  lemma VotesAreCast(h: History, n: nat, i: nat, v: Server, e: Election)
    requires ElectionOk(h, n, i, v, e) && i < n && Ballot(i, e.args.term, i) in h.ballots
    ensures e.votes <= |VotersOf(h, n, e.args.term, i)|
  {
    var all := VotersOf(h, n, e.args.term, i);
    SubsetSize(all - {i} - e.waiting, all - {i});
  }

  lemma BallotsMeet(h: History, p: nat, t: nat, c: int, d: int)
    requires OneBallotEach(h) && Ballot(p, t, c) in h.ballots && Ballot(p, t, d) in h.ballots
    ensures c == d
  {
    var b, b' := Ballot(p, t, c), Ballot(p, t, d);
    assert b.candidate == b'.candidate;
  }

  /** Election safety: a candidate whose votes suffice wins a term nobody has led. */
  lemma WinIsFirst(s: State, i: nat)
    requires Inv(s) && i < |s.nodes| && s.nodes[i].server.role == Candidate
    requires Majority(VotersOf(s.hist, |s.nodes|, s.nodes[i].server.currentTerm, i), |s.nodes|)
    ensures s.nodes[i].server.currentTerm !in s.hist.reigns
  {
    var t := s.nodes[i].server.currentTerm;
    if t in s.hist.reigns {
      var r := s.hist.reigns[t];
      assert VotersOk(s.hist, |s.nodes|, t);
      var p := Intersect(r.voters, VotersOf(s.hist, |s.nodes|, t, i), |s.nodes|);
      BallotsMeet(s.hist, p, t, r.leader, i);
      assert false;
    }
  }

  lemma NewReignOk(s: State, s': State, i: nat, v: Server)
    requires Inv(s) && i < |s.nodes| && v == s.nodes[i].server && v.role == Candidate && v.currentTerm !in s.hist.reigns
    requires Majority(VotersOf(s.hist, |s.nodes|, v.currentTerm, i), |s.nodes|)
    requires s'.hist == s.hist.(reigns := s.hist.reigns[v.currentTerm := NewReign(s, i, v)])
    requires OnlyNode(s, s', i)
    ensures ReignLogOk(s'.hist.reigns, v.currentTerm)
    ensures VotersOk(s'.hist, |s'.nodes|, v.currentTerm) && ChosenOk(s'.hist, |s'.nodes|, v.currentTerm)
  {
    var t, R, R' := v.currentTerm, s.hist.reigns, s'.hist.reigns;
    GetNode(s, i);
    SoundGrows(R, R', v.log);
    forall k | 0 <= k < |v.log| ensures v.log[k].term < t {
      if k > 0 { assert Owned(R, v.log, k); }
    }
    forall p | p in R'[t].voters ensures Backs(R', s'.hist.acks, p, v.log, t) {
      BallotVoter(s, Ballot(p, t, i));
      BacksStays(s, s', i, p, v.log, t);
    }
  }

  lemma WinnerNode(h: History, h': History, n: nat, i: nat, nd: Node, nd': Node, r: Reign)
    requires NodeOk(h, n, i, nd) && nd.server.role == Candidate
    requires ReignsGrow(h.reigns, h'.reigns)
    requires h' == h.(reigns := h.reigns[nd.server.currentTerm := r])
    requires r.leader == i && r.log == nd.server.log && r.chosen == 0
    requires nd'.server == BeLeader(nd.server, n)
    requires forall id :: id in nd'.elections ==> ElectionOk(h, n, i, nd.server, nd'.elections[id])
    ensures NodeOk(h', n, i, nd')
  {
    var v, v' := nd.server, nd'.server;
    SoundGrows(h.reigns, h'.reigns, v.log);
    CommittedGrows(h.reigns, h'.reigns, v.currentTerm, v.currentTerm, v.log, v.commitIndex + 1);
    forall t: nat, k: int | Acked(h.acks, i, t, k) ensures Kept(h'.reigns, v.log, t, k, v.currentTerm + 1) {
      KeptGrows(h.reigns, h'.reigns, v.log, t, k, v.currentTerm + 1);
    }
    forall id | id in nd'.elections ensures ElectionOk(h', n, i, v', nd'.elections[id]) {
      ElectionGrows(h, h', n, i, v, v', nd'.elections[id]);
    }
  }

  lemma GetElections(s: State, i: nat)
    requires Inv(s) && i < |s.nodes|
    ensures ElectionsOk(s.hist, |s.nodes|, i, s.nodes[i]) && RoleOk(s.hist, |s.nodes|, i, s.nodes[i].server)
    ensures LogOk(s.hist.reigns, s.nodes[i].server)
  {
    GetNode(s, i);
  }

  lemma GetMessage(s: State, m: Message)
    requires Inv(s) && m in s.net
    ensures MessageOk(s, m)
  {
  }

  lemma GetBox(s: State)
    requires Inv(s)
    ensures BallotBoxOk(s) && LeadersOk(s)
  {
  }

  /** The vote requests of a server that stays as it was, if it was a candidate, or becomes no candidate. */
  lemma RequestsStay(s: State, s': State, i: nat)
    requires Inv(s) && i < |s.nodes| == |s'.nodes|
    requires var v, v' := s.nodes[i].server, s'.nodes[i].server;
      v.currentTerm <= v'.currentTerm && (v'.role == Candidate ==> v == v')
    requires s.hist.reigns.Keys <= s'.hist.reigns.Keys
    ensures forall m :: m in s.net && m.VoteRequest? && m.src == i ==> MessageOk(s', m)
  {
    hide Inv;
    forall m | m in s.net && m.VoteRequest? && m.src == i ensures MessageOk(s', m) {
      GetMessage(s, m);
    }
  }

  /** A step that adds nothing to the history and keeps a candidate a candidate at most. */
  lemma QuietFrame(s: State, s': State, i: nat)
    requires Inv(s) && i < |s.nodes| == |s'.nodes| && s'.hist == s.hist && s.net <= s'.net
    requires s'.nodes == s.nodes[i := s'.nodes[i]]
    requires var v, v' := s.nodes[i].server, s'.nodes[i].server;
      && v.currentTerm <= v'.currentTerm
      && (v'.role == Candidate ==> v == v')
    requires NodeOk(s'.hist, |s.nodes|, i, s'.nodes[i])
    requires forall m :: m in s'.net && m !in s.net ==> MessageOk(s', m)
    ensures Inv(s')
  {
    hide Inv, NodeOk, ReignLogOk, VotersOk, ChosenOk, AppendRequestOk, AppendResponseOk, DeliveryOk, ReignsOk, Backs, MessageOk;
    GetBox(s);
    RequestsStay(s, s', i);
    Frame(s, s', i);
  }

  /** A candidate voted for by a majority begins its reign. */
  lemma Crown(s: State, s': State, i: nat, nd': Node)
    requires Inv(s) && i < |s.nodes| && s.nodes[i].server.role == Candidate
    requires Majority(VotersOf(s.hist, |s.nodes|, s.nodes[i].server.currentTerm, i), |s.nodes|)
    requires nd'.server == BeLeader(s.nodes[i].server, |s.nodes|)
    requires forall id :: id in nd'.elections ==>
      ElectionOk(s.hist, |s.nodes|, i, s.nodes[i].server, nd'.elections[id])
    requires s' == s.(nodes := s.nodes[i := nd'],
                      hist := s.hist.(reigns := s.hist.reigns[s.nodes[i].server.currentTerm := NewReign(s, i, s.nodes[i].server)]))
    ensures Inv(s') && ReignsGrow(s.hist.reigns, s'.hist.reigns)
  {
    hide Inv, NodeOk, ReignLogOk, VotersOk, ChosenOk, AppendRequestOk, AppendResponseOk, DeliveryOk, ReignsOk, Backs, ElectionOk;
    var v := s.nodes[i].server;
    WinIsFirst(s, i);
    GetNode(s, i);
    GetBox(s);
    assert OnlyNode(s, s', i);
    NewReignOk(s, s', i, v);
    WinnerNode(s.hist, s'.hist, |s.nodes|, i, s.nodes[i], nd', NewReign(s, i, v));
    RequestsStay(s, s', i);
    hide MessageOk;
    Frame(s, s', i);
  }

  /** Handling a vote reply counts at most the vote in it, and otherwise makes a leader or sees a term. */
  lemma VoteReplyOutcome(v: Server, n: nat, a: VoteArgs, votes: nat, r: VoteReply)
    ensures var (v1, count) := ReceiveVoteReply(v, n, a, votes, r);
      && (count == votes || (r.voteGranted && count == votes + 1))
      && if v.role == Candidate && v1.role == Leader
         then v.currentTerm == a.term && count > n / 2 && v1 == BeLeader(v, n)
         else v1 == ObserveTerm(v, r.term)
  {
  }

  lemma VoteResponseWins(s: State, s': State, m: Message)
    requires Inv(s) && Possible(s, ReceiveVoteResponse(m)) && s' == DoReceiveVoteResponse(s, m)
    requires s.nodes[m.dst].server.role == Candidate && s'.nodes[m.dst].server.role == Leader
    ensures Inv(s') && ReignsGrow(s.hist.reigns, s'.hist.reigns)
  {
    hide Inv, NodeOk, ElectionOk, ReceiveVoteReply;
    var i, n := m.dst, |s.nodes|;
    var nd, v := s.nodes[i], s.nodes[i].server;
    var e, e' := nd.elections[m.id], s'.nodes[i].elections[m.id];
    VoteReplyOutcome(v, n, e.args, e.votes, m.granted);
    GetMessage(s, m);
    GetElections(s, i);
    ReturnedElection(s.hist, n, i, v, e, m.src, e'.votes);
    VotesAreCast(s.hist, n, i, v, e');
    Crown(s, s', i, s'.nodes[i]);
  }

  lemma VoteResponseNode(h: History, n: nat, i: nat, nd: Node, nd': Node, id: nat, p: nat, term: nat, votes: nat)
    requires NodeOk(h, n, i, nd) && id in nd.elections && p in nd.elections[id].waiting
    requires nd' == nd.(server := nd'.server, elections := nd.elections[id := Returned(nd.elections[id], p, votes)])
    requires votes == nd.elections[id].votes
      || (votes == nd.elections[id].votes + 1 && Ballot(p, nd.elections[id].args.term, i) in h.ballots)
    requires nd'.server == ObserveTerm(nd.server, term)
    ensures NodeOk(h, n, i, nd')
  {
    hide Sound, Committed, Backs;
    ReturnedElection(h, n, i, nd.server, nd.elections[id], p, votes);
    forall x | x in nd'.elections ensures ElectionOk(h, n, i, nd.server, nd'.elections[x]) {
      assert x in nd.elections;
    }
    if nd'.server == nd.server {
      IdleNode(h, h, n, i, nd, nd');
    } else {
      ElectionGrows(h, h, n, i, nd.server, nd'.server, nd'.elections[id]);
      FollowerNode(h, h, n, i, nd, nd');
    }
  }

  lemma ReceiveVoteResponseKeeps(s: State, m: Message)
    requires Inv(s) && Possible(s, ReceiveVoteResponse(m))
    ensures Inv(DoReceiveVoteResponse(s, m))
    ensures ReignsGrow(s.hist.reigns, DoReceiveVoteResponse(s, m).hist.reigns)
  {
    hide Inv, NodeOk, ReignLogOk, VotersOk, ChosenOk, AppendRequestOk, AppendResponseOk, DeliveryOk, ReignsOk, Backs, ReceiveVoteReply;
    var s', i, n := DoReceiveVoteResponse(s, m), m.dst, |s.nodes|;
    var nd, v, e := s.nodes[i], s.nodes[i].server, s.nodes[i].elections[m.id];
    VoteReplyOutcome(v, n, e.args, e.votes, m.granted);
    if v.role == Candidate && s'.nodes[i].server.role == Leader {
      VoteResponseWins(s, s', m);
    } else {
      GetMessage(s, m);
      GetNode(s, i);
      VoteResponseNode(s.hist, n, i, nd, s'.nodes[i], m.id, m.src, m.granted.term, s'.nodes[i].elections[m.id].votes);
      QuietFrame(s, s', i);
    }
  }

  // ----- replication

  lemma SendAppendKeeps(s: State, i: nat, j: nat)
    requires Inv(s) && Enabled(s, SendAppend(i, j))
    ensures Inv(DoSendAppend(s, i, j))
  {
    hide Inv, NodeOk;
    GetNode(s, i);
    GetElections(s, i);
    QuietFrame(s, DoSendAppend(s, i, j), i);
  }

  /** Storing a reign's entries where its log already agrees: the log then agrees as far as the
      entries reach, and it loses no agreement it had. */
  lemma {:induction false} StoreAgrees(R: Reigns, l: seq<Entry>, g: seq<Entry>, index: nat, entries: seq<Entry>)
    requires Sound(R, l) && Sound(R, g) && Agree(l, g, index) && 1 <= index && index + |entries| <= |g|
    requires forall x :: 0 <= x < |entries| ==> entries[x] == g[index + x]
    ensures var l' := Store(l, index, entries);
      && (l' == l || l' == g[..index + |entries|])
      && Agree(l', g, index + |entries|)
      && Sound(R, l')
      && forall p :: Agree(l, g, p) ==> Agree(l', g, p)
    decreases entries
  {
    var m := index + |entries|;
    if entries != [] {
      if index < |l| && l[index].term == entries[0].term {
        SameTermAgree(R, l, g, index);
        StoreAgrees(R, l, g, index + 1, entries[1..]);
      } else {
        assert l[..index] + entries == g[..m];
        assert forall p :: Agree(l, g, p) ==> p <= index;
        forall k | 1 <= k < m ensures Owned(R, g[..m], k) {
          assert Owned(R, g, k);
        }
      }
    }
  }

  /** What the follower acknowledged to earlier reigns it still accounts for after storing. */
  lemma StoreKeepsAcks(h: History, n: nat, i: nat, v: Server, T: nat, l': seq<Entry>, t: nat, k: int)
    requires ReignsOk(h, n) && T in h.reigns && v.currentTerm <= T && AcksOk(h.reigns, h.acks, i, v)
    requires forall p :: Agree(v.log, h.reigns[T].log, p) ==> Agree(l', h.reigns[T].log, p)
    requires Acked(h.acks, i, t, k)
    ensures Kept(h.reigns, l', t, k, T + 1)
  {
    var R := h.reigns;
    assert ReignLogOk(R, T);
    if Agree(v.log, R[t].log, k) {
      if t == T || Agree(R[T].start, R[t].log, k) {
        assert Agree(v.log, R[T].log, k);
        assert Agree(l', R[T].log, k);
        assert Agree(l', R[t].log, k);
      } else {
        assert T in R && t < T < T + 1;
      }
    } else {
      var d :| d in R && t < d < v.currentTerm + 1 && !Agree(R[d].start, R[t].log, k);
      assert d in R && t < d < T + 1;
    }
  }

  lemma StoreKeepsCommitted(h: History, n: nat, v: Server, T: nat, l': seq<Entry>)
    requires ReignsOk(h, n) && T in h.reigns && v.currentTerm <= T && LogOk(h.reigns, v)
    requires forall p :: Agree(v.log, h.reigns[T].log, p) ==> Agree(l', h.reigns[T].log, p)
    ensures v.commitIndex < |l'| && Committed(h.reigns, T, l', v.commitIndex + 1)
  {
    var k := v.commitIndex + 1;
    CommittedInReign(h, n, v.log, k, v.currentTerm, T);
    assert Agree(l', h.reigns[T].log, k);
    CommittedGrows(h.reigns, h.reigns, v.currentTerm, T, v.log, k);
    AgreeCommitted(h.reigns, T, v.log, l', k);
  }

  lemma DeliveriesCommitted(R: Reigns, u: nat, log: seq<Entry>, lo: int, hi: int, i: nat)
    requires 0 <= lo && hi < |log| && (lo < hi ==> Committed(R, u, log, hi + 1))
    ensures forall d :: d in Delivered(i, Deliveries(log, lo, hi)) ==> DeliveryOk(R, d.msg)
  {
    var out := Deliveries(log, lo, hi);
    forall d | d in Delivered(i, out) ensures DeliveryOk(R, d.msg) {
      var k :| 0 <= k < |out| && d == Delivery(i, out[k]);
      var t :| t in R && t <= u && hi + 1 <= R[t].chosen && Agree(log, R[t].log, hi + 1);
      assert t in R && 1 <= d.msg.index < R[t].chosen && d.msg.index < |R[t].log|;
    }
  }

  /** The log a follower ends with, and its agreement with the reign the request came from. */
  lemma AcceptedLog(h: History, n: nat, i: nat, v: Server, a: AppendArgs, src: nat)
    requires ReignsOk(h, n) && LogOk(h.reigns, v) && AppendRequestOk(h.reigns, src, a)
    requires TermAt(v.log, a.prevLogIndex) == a.prevLogTerm
    ensures var l' := Store(v.log, a.prevLogIndex + 1, a.entries); var g := h.reigns[a.term].log;
      && Sound(h.reigns, l') && Agree(l', g, a.prevLogIndex + |a.entries| + 1)
      && (forall p :: Agree(v.log, g, p) ==> Agree(l', g, p))
      && (forall k :: 0 <= k < |l'| && v.currentTerm <= a.term ==> l'[k].term <= a.term)
  {
    var R, g := h.reigns, h.reigns[a.term].log;
    assert ReignLogOk(R, a.term);
    SameTermAgree(R, v.log, g, a.prevLogIndex);
    StoreAgrees(R, v.log, g, a.prevLogIndex + 1, a.entries);
    var l' := Store(v.log, a.prevLogIndex + 1, a.entries);
    forall k | 0 <= k < |l'| && v.currentTerm <= a.term ensures l'[k].term <= a.term {
      if l' != v.log { TermsAscend(R, g, k, |g| - 1); }
    }
  }

  ghost predicate Accepts(v: Server, a: AppendArgs) {
    a.prevLogIndex >= 0 && v.lastApplied >= 0 && v.currentTerm <= a.term
    && TermAt(v.log, a.prevLogIndex) == a.prevLogTerm
  }

  /** The commit index a follower takes from a message lies within what the message vouches for. */
  lemma AcceptedIndex(R: Reigns, v: Server, a: AppendArgs, src: nat, l': seq<Entry>)
    requires AppendRequestOk(R, src, a) && Agree(l', R[a.term].log, a.prevLogIndex + |a.entries| + 1)
    ensures Min(a.leaderCommit, LastIndex(l')) == a.leaderCommit
    ensures Committed(R, a.term, l', a.leaderCommit + 1)
  {
    var g := R[a.term].log;
    assert Agree(g, l', a.leaderCommit + 1);
    AgreeCommitted(R, a.term, g, l', a.leaderCommit + 1);
  }

  lemma AcceptedOutcome(v: Server, a: AppendArgs)
    requires Accepts(v, a)
    ensures var o, l' := AppendEntries(v, a), Store(v.log, a.prevLogIndex + 1, a.entries);
      var c := if a.leaderCommit > v.commitIndex then Min(a.leaderCommit, LastIndex(l')) else v.commitIndex;
      && o.server.log == l' && o.server.currentTerm == a.term && o.server.commitIndex == c
      && o.reply == AppendReply(a.term, true, 0, NULL)
      && (a.leaderCommit <= v.commitIndex ==> o.server.lastApplied == v.lastApplied && o.applied == [])
      && (a.leaderCommit > v.commitIndex ==>
            o.server.lastApplied == (if v.lastApplied < c then c else v.lastApplied)
            && o.applied == Deliveries(l', v.lastApplied, c))
  {
  }

  /** The log stored holds what was committed before and what the message says is committed. */
  lemma AcceptedStored(h: History, n: nat, i: nat, v: Server, a: AppendArgs, src: nat)
    requires ReignsOk(h, n) && LogOk(h.reigns, v) && AppendRequestOk(h.reigns, src, a) && Accepts(v, a)
    ensures var R, T, l' := h.reigns, a.term, Store(v.log, a.prevLogIndex + 1, a.entries);
      && Sound(R, l') && (forall k :: 0 <= k < |l'| ==> l'[k].term <= T) && Min(a.leaderCommit, LastIndex(l')) == a.leaderCommit
      && v.commitIndex < |l'| && Committed(R, T, l', v.commitIndex + 1)
      && a.leaderCommit < |l'| && Committed(R, T, l', a.leaderCommit + 1)
  {
    var l' := Store(v.log, a.prevLogIndex + 1, a.entries);
    hide ReignsOk, Sound, Agree, Committed, Store, AppendRequestOk, LogOk;
    AcceptedLog(h, n, i, v, a, src);
    AcceptedIndex(h.reigns, v, a, src, l');
    GetTerm(h.reigns, src, a);
    StoreKeepsCommitted(h, n, v, a.term, l');
  }

  lemma GetTerm(R: Reigns, src: nat, a: AppendArgs)
    requires AppendRequestOk(R, src, a)
    ensures a.term in R
  {
  }

  /** The follower commits no more than the message vouches for: the reign's log as far as sent. */
  lemma AcceptedCommit(h: History, n: nat, i: nat, v: Server, a: AppendArgs, src: nat)
    requires ReignsOk(h, n) && LogOk(h.reigns, v) && AppendRequestOk(h.reigns, src, a) && Accepts(v, a)
    ensures var o := AppendEntries(v, a); var v' := o.server;
      && LogOk(h.reigns, v') && v'.currentTerm == a.term
      && v'.commitIndex == (if a.leaderCommit > v.commitIndex then a.leaderCommit else v.commitIndex)
      && forall d :: d in Delivered(i, o.applied) ==> DeliveryOk(h.reigns, d.msg)
  {
    hide ReignsOk, Sound, Agree, Committed, DeliveryOk, Store, AppendEntries, AppendRequestOk, TermAt, Deliveries;
    AcceptedStored(h, n, i, v, a, src);
    AcceptedOutcome(v, a);
    if a.leaderCommit > v.commitIndex {
      DeliveriesCommitted(h.reigns, a.term, Store(v.log, a.prevLogIndex + 1, a.entries), v.lastApplied, a.leaderCommit, i);
    }
  }

  lemma RejectedOutcome(v: Server, a: AppendArgs)
    requires a.prevLogIndex >= 0 && v.lastApplied >= 0 && !Accepts(v, a)
    ensures var o := AppendEntries(v, a); var v1 := ObserveTerm(v, a.term);
      && o.server == v1 && o.applied == [] && !o.reply.success && a.term <= o.reply.term
      && (o.reply.term == a.term ==>
            TermAt(v1.log, a.prevLogIndex) != a.prevLogTerm && o.reply == Rejection(v1, a))
  {
  }

  lemma AcceptedAcks(h: History, n: nat, i: nat, v: Server, a: AppendArgs, src: nat, acks': set<Ack>)
    requires ReignsOk(h, n) && LogOk(h.reigns, v) && AppendRequestOk(h.reigns, src, a) && Accepts(v, a)
    requires AcksOk(h.reigns, h.acks, i, v)
    requires acks' == h.acks + {Ack(i, a.term, a.prevLogIndex + |a.entries| + 1)}
    ensures AcksOk(h.reigns, acks', i, AppendEntries(v, a).server)
  {
    var T, v' := a.term, AppendEntries(v, a).server;
    AcceptedLog(h, n, i, v, a, src);
    forall t: nat, k: int | Acked(acks', i, t, k)
      ensures t in h.reigns && t <= T && k <= |h.reigns[t].log| && Kept(h.reigns, v'.log, t, k, T + 1)
    {
      if Acked(h.acks, i, t, k) {
        StoreKeepsAcks(h, n, i, v, T, v'.log, t, k);
      } else {
        assert Agree(v'.log, h.reigns[T].log, k);
      }
    }
  }

  lemma AcceptedNode(h: History, h': History, n: nat, i: nat, nd: Node, nd': Node, a: AppendArgs, src: nat)
    requires ReignsOk(h, n) && NodeOk(h, n, i, nd) && AppendRequestOk(h.reigns, src, a) && src != i
    requires Accepts(nd.server, a) && nd' == nd.(server := AppendEntries(nd.server, a).server)
    requires h'.reigns == h.reigns && h'.ballots == h.ballots
    requires h'.acks == h.acks + {Ack(i, a.term, a.prevLogIndex + |a.entries| + 1)}
    ensures NodeOk(h', n, i, nd')
  {
    hide LogOk, AcksOk, ReignsOk, AppendRequestOk, Store;
    GetLog(h, n, i, nd);
    AcceptedCommit(h, n, i, nd.server, a, src);
    AcceptedAcks(h, n, i, nd.server, a, src, h'.acks);
    AcceptedRole(h, n, i, nd.server, a, src);
    forall id | id in nd'.elections ensures ElectionOk(h', n, i, nd'.server, nd'.elections[id]) {
      ElectionGrows(h, h', n, i, nd.server, nd'.server, nd.elections[id]);
    }
  }

  lemma GetLog(h: History, n: nat, i: nat, nd: Node)
    requires NodeOk(h, n, i, nd)
    ensures LogOk(h.reigns, nd.server) && AcksOk(h.reigns, h.acks, i, nd.server)
    ensures nd.server.lastApplied >= 0
  {
  }

  /** Nobody but the reign's leader leads in its term, and it sends itself nothing. */
  lemma AcceptedRole(h: History, n: nat, i: nat, v: Server, a: AppendArgs, src: nat)
    requires RoleOk(h, n, i, v) && AppendRequestOk(h.reigns, src, a) && src != i && Accepts(v, a)
    ensures var v' := AppendEntries(v, a).server;
      v'.role != Leader && a.term in h.reigns && v'.currentTerm == a.term
      && (v'.role == Candidate ==> v'.currentTerm == v.currentTerm && v'.votedFor == v.votedFor && v.role == Candidate)
      && (v'.currentTerm == v.currentTerm ==> v'.votedFor == v.votedFor)
  {
  }

  lemma RejectedNode(h: History, n: nat, i: nat, nd: Node, nd': Node, term: nat)
    requires NodeOk(h, n, i, nd) && nd' == nd.(server := ObserveTerm(nd.server, term))
    ensures NodeOk(h, n, i, nd')
  {
    if nd' != nd {
      FollowerNode(h, h, n, i, nd, nd');
    }
  }

  /** What a rejection says about the log it came from. */
  lemma RejectionConflict(h: History, n: nat, i: nat, v: Server, a: AppendArgs, src: nat)
    requires ReignsOk(h, n) && LogOk(h.reigns, v) && AppendRequestOk(h.reigns, src, a)
    requires TermAt(v.log, a.prevLogIndex) != a.prevLogTerm
    ensures ConflictOk(h.reigns, a, Rejection(v, a))
  {
    var R, p := h.reigns, a.prevLogIndex;
    assert ReignLogOk(R, a.term);
    if p < |v.log| {
      assert p > 0;
      assert Owned(R, v.log, p);
      assert ReignLogOk(R, v.log[p].term);
    }
  }

  lemma ReceiveAppendRequestKeeps(s: State, m: Message)
    requires Inv(s) && Enabled(s, ReceiveAppendRequest(m))
    ensures Inv(DoReceiveAppendRequest(s, m))
  {
    hide Inv, NodeOk, ReignsOk, AppendRequestOk, LogOk, AcksOk, Store, Sound, ConflictOk, Rejection;
    var s', i, a, n := DoReceiveAppendRequest(s, m), m.dst, m.append, |s.nodes|;
    var nd := s.nodes[i];
    GetMessage(s, m);
    GetNode(s, i);
    GetLog(s.hist, n, i, nd);
    GetReigns(s);
    var v1 := ObserveTerm(nd.server, a.term);
    GetRequest(s.hist.reigns, m.src, a);
    if Accepts(nd.server, a) {
      AcceptedNode(s.hist, s'.hist, n, i, nd, s'.nodes[i], a, m.src);
      AcceptedCommit(s.hist, n, i, nd.server, a, m.src);
      AcceptStep(s, s', m);
    } else {
      RejectedOutcome(nd.server, a);
      RejectedNode(s.hist, n, i, nd, s'.nodes[i], a.term);
      if TermAt(v1.log, a.prevLogIndex) != a.prevLogTerm {
        RejectedLog(s.hist, n, i, nd.server, a.term);
        RejectionConflict(s.hist, n, i, v1, a, m.src);
      }
      assert Delivered(i, []) == {};
      QuietFrame(s, s', i);
    }
  }

  lemma RejectedLog(h: History, n: nat, i: nat, v: Server, term: nat)
    requires LogOk(h.reigns, v)
    ensures LogOk(h.reigns, ObserveTerm(v, term))
  {
    CommittedAt(h.reigns, v, ObserveTerm(v, term));
  }

  lemma GetReigns(s: State)
    requires Inv(s)
    ensures ReignsOk(s.hist, |s.nodes|)
  {
  }

  lemma GetRequest(R: Reigns, i: nat, a: AppendArgs)
    requires AppendRequestOk(R, i, a)
    ensures a.prevLogIndex >= 0
  {
  }

  lemma AcceptStep(s: State, s': State, m: Message)
    requires Inv(s) && Enabled(s, ReceiveAppendRequest(m)) && Accepts(s.nodes[m.dst].server, m.append)
    requires s' == DoReceiveAppendRequest(s, m)
    requires NodeOk(s'.hist, |s'.nodes|, m.dst, s'.nodes[m.dst])
    requires forall d :: d in s'.hist.delivered && d !in s.hist.delivered ==> DeliveryOk(s'.hist.reigns, d.msg)
    ensures Inv(s')
  {
    hide Inv, NodeOk, ReignsOk, LogOk, AcksOk, Store, Sound, AppendEntries, LeadingOk, AppendRequestOk, ReignLogOk,
      VotersOk, ChosenOk, DeliveryOk;
    var i, a := m.dst, m.append;
    AcceptedFacts(s, m);
    assert Ack(i, a.term, a.prevLogIndex + |a.entries| + 1) in s'.hist.acks;
    assert OnlyNode(s, s', i);
    GetBox(s);
    forall m' | m' in s.net && m'.VoteRequest? && m'.src == i ensures MessageOk(s', m') {
      GetMessage(s, m');
    }
    Frame(s, s', i);
  }

  lemma AcceptedFacts(s: State, m: Message)
    requires Inv(s) && Enabled(s, ReceiveAppendRequest(m)) && Accepts(s.nodes[m.dst].server, m.append)
    ensures var v, v' := s.nodes[m.dst].server, AppendEntries(s.nodes[m.dst].server, m.append).server;
      && m.src < |s.nodes| && m.src != m.dst && AppendRequestOk(s.hist.reigns, m.src, m.append)
      && v'.role != Leader && m.append.term in s.hist.reigns && v'.currentTerm == m.append.term
      && (v'.role == Candidate ==> v.currentTerm == v'.currentTerm && v.role == Candidate)
      && AppendEntries(v, m.append).reply == AppendReply(m.append.term, true, 0, NULL)
      && 0 <= m.append.prevLogIndex
  {
    hide Inv, LeadingOk, LogOk;
    GetMessage(s, m);
    GetElections(s, m.dst);
    AcceptedRole(s.hist, |s.nodes|, m.dst, s.nodes[m.dst].server, m.append, m.src);
    AcceptedOutcome(s.nodes[m.dst].server, m.append);
  }

  // ----- the leader's side

  /** A log holding an entry of term t at q is, below q, the log of t's reign. */
  lemma TermAsInReign(R: Reigns, log: seq<Entry>, t: nat, p: int, q: int)
    requires Sound(R, log) && 0 <= p <= q < |log| && 0 < q && log[q].term == t
    ensures t in R && p < |R[t].log| && log[p] == R[t].log[p]
  {
    assert Owned(R, log, q);
  }

  /** Backoff makes progress: a rejection in the leader's own term sends it back to an index
      between 1 and the one rejected. The conflict-term branch needs log matching. */
  lemma BackoffProgress(h: History, n: nat, log: seq<Entry>, a: AppendArgs, r: AppendReply, i: nat)
    requires ReignsOk(h, n) && AppendRequestOk(h.reigns, i, a) && log == h.reigns[a.term].log
    requires ConflictOk(h.reigns, a, r)
    ensures 1 <= BackoffIndex(log, r) <= a.prevLogIndex
  {
    assert ReignLogOk(h.reigns, a.term);
    if r.conflictTerm != NULL {
      var p := PastLastOfTerm(log, r.conflictTerm);
      if p > a.prevLogIndex {
        TermAsInReign(h.reigns, log, r.conflictTerm, a.prevLogIndex, p - 1);
      }
    }
  }

  lemma BackoffNode(h: History, n: nat, i: nat, nd: Node, nd': Node, j: nat, a: AppendArgs, r: AppendReply)
    requires ReignsOk(h, n) && NodeOk(h, n, i, nd) && StillLeading(nd.server, a) && j < n
    requires AppendRequestOk(h.reigns, i, a) && ConflictOk(h.reigns, a, r)
    requires nd' == nd.(server := nd.server.(nextIndex := nd.server.nextIndex[j := BackoffIndex(nd.server.log, r)]))
    ensures NodeOk(h, n, i, nd')
  {
    BackoffProgress(h, n, nd.server.log, a, r, i);
    CommittedAt(h.reigns, nd.server, nd'.server);
  }

  /** A leader that records a success knows its follower holds that much. */
  lemma RecordedNode(h: History, n: nat, i: nat, nd: Node, nd': Node, j: nat, a: AppendArgs)
    requires NodeOk(h, n, i, nd) && StillLeading(nd.server, a) && j < n && j != i && i < n
    requires AppendRequestOk(h.reigns, i, a) && Acked(h.acks, j, a.term, a.prevLogIndex + |a.entries| + 1)
    requires var v1 := RecordMatch(nd.server, j, a.prevLogIndex + |a.entries|);
      nd' == nd.(server := v1.(matchIndex := v1.matchIndex[i := LastIndex(v1.log)]))
    ensures NodeOk(h, n, i, nd')
  {
    CommittedAt(h.reigns, nd.server, nd'.server);
  }

  /** The leader's own log is its own acknowledgement. */
  lemma SelfAckNode(h: History, h': History, n: nat, i: nat, nd: Node)
    requires NodeOk(h, n, i, nd) && nd.server.role == Leader
    requires h' == h.(acks := h.acks + {Ack(i, nd.server.currentTerm, |nd.server.log|)}, delivered := h'.delivered)
    ensures NodeOk(h', n, i, nd)
  {
    var v := nd.server;
    forall t: nat, k: int | Acked(h'.acks, i, t, k)
      ensures t in h.reigns && t <= v.currentTerm && k <= |h.reigns[t].log|
      ensures Kept(h.reigns, v.log, t, k, v.currentTerm + 1)
    {
      assert Acked(h.acks, i, t, k) || (t == v.currentTerm && k <= |v.log|);
    }
    forall p | 0 <= p < n && p != i && v.matchIndex[p] > 0
      ensures Acked(h'.acks, p, v.currentTerm, v.matchIndex[p] + 1)
    {
      AckedMore(h.acks, h'.acks, p, v.currentTerm, v.matchIndex[p] + 1);
    }
    forall id | id in nd.elections ensures ElectionOk(h', n, i, v, nd.elections[id]) {
      ElectionGrows(h, h', n, i, v, v, nd.elections[id]);
    }
  }

  lemma AckedMore(A: set<Ack>, A': set<Ack>, p: nat, t: nat, k: int)
    requires A <= A' && Acked(A, p, t, k)
    ensures Acked(A', p, t, k)
  {
    var a :| a in A && a.server == p && a.term == t && k <= a.length;
    assert a in A';
  }

  /** The commit rule: a majority holds the middle index, whose entry is of the leader's term. */
  lemma CommitChosen(h: History, h': History, n: nat, i: nat, v: Server, m: int)
    requires LeadingOk(h, n, i, v) && i < n && Acked(h.acks, i, v.currentTerm, |v.log|)
    requires v.matchIndex[i] == LastIndex(v.log) && m == MiddleMatch(v.matchIndex)
    requires 0 <= v.commitIndex < m < |v.log| && v.log[m].term == v.currentTerm
    requires h'.acks == h.acks
    requires h'.reigns == h.reigns[v.currentTerm := h.reigns[v.currentTerm].(chosen := m + 1, quorum := Matching(v.matchIndex, m))]
    ensures ChosenOk(h', n, v.currentTerm)
  {
    MiddleIsMajority(v.matchIndex);
    forall p | p in Matching(v.matchIndex, m) ensures Acked(h.acks, p, v.currentTerm, m + 1) {
      if p == i {
        AckedLess(h.acks, i, v.currentTerm, |v.log|, m + 1);
      } else {
        AckedLess(h.acks, p, v.currentTerm, v.matchIndex[p] + 1, m + 1);
      }
    }
  }

  lemma AckedLess(A: set<Ack>, p: nat, t: nat, k: int, k': int)
    requires Acked(A, p, t, k) && k' <= k
    ensures Acked(A, p, t, k')
  {
    var a :| a in A && a.server == p && a.term == t && k <= a.length;
    assert k' <= a.length;
  }

  lemma AcksGrow(R: Reigns, R': Reigns, acks: set<Ack>, i: nat, v: Server, v': Server)
    requires AcksOk(R, acks, i, v) && ReignsGrow(R, R') && v'.log == v.log && v'.currentTerm == v.currentTerm
    ensures AcksOk(R', acks, i, v')
  {
    forall u: nat, k: int | Acked(acks, i, u, k)
      ensures u in R' && u <= v.currentTerm && k <= |R'[u].log| && Kept(R', v.log, u, k, v.currentTerm + 1)
    {
      KeptGrows(R, R', v.log, u, k, v.currentTerm + 1);
    }
  }

  lemma CommittedLog(R: Reigns, R': Reigns, v: Server, m: int)
    requires LogOk(R, v) && ReignsGrow(R, R') && v.commitIndex < m < |v.log| && v.currentTerm in R'
    requires m < R'[v.currentTerm].chosen && R'[v.currentTerm].log == v.log
    ensures LogOk(R', CommitTo(v, m).0)
  {
    SoundGrows(R, R', v.log);
    var t := v.currentTerm;
    assert t in R' && t <= t && m + 1 <= R'[t].chosen && Agree(v.log, R'[t].log, m + 1);
  }

  lemma NotedGrows(R: Reigns, t: nat, k: nat, q: set<nat>)
    requires t in R && R[t].chosen <= k
    ensures ReignsGrow(R, Noted(R, t, k, q))
  {
  }

  lemma CommittedLeads(h: History, h': History, n: nat, i: nat, v: Server, m: int)
    requires RoleOk(h, n, i, v) && v.role == Leader && 0 <= v.lastApplied && v.commitIndex < m < |v.log|
    requires v.currentTerm in h.reigns && v.currentTerm in h'.reigns
    requires h'.reigns == Noted(h.reigns, v.currentTerm, m + 1, h'.reigns[v.currentTerm].quorum)
    requires h'.acks == h.acks && h'.ballots == h.ballots
    ensures RoleOk(h', n, i, CommitTo(v, m).0)
  {
  }

  /** The leader after committing up to m. */
  lemma CommittedNode(h: History, h': History, n: nat, i: nat, nd: Node, nd': Node, m: int)
    requires NodeOk(h, n, i, nd) && nd.server.role == Leader && 0 <= nd.server.commitIndex < m < |nd.server.log|
    requires 0 <= nd.server.lastApplied && nd' == nd.(server := CommitTo(nd.server, m).0)
    requires var t := nd.server.currentTerm;
      && t in h.reigns && t in h'.reigns && h.reigns[t].log == nd.server.log && h.reigns[t].chosen <= m + 1
      && h'.reigns == Noted(h.reigns, t, m + 1, h'.reigns[t].quorum)
    requires h'.acks == h.acks && h'.ballots == h.ballots
    ensures NodeOk(h', n, i, nd') && ReignsGrow(h.reigns, h'.reigns)
  {
    hide LogOk, AcksOk, LeadingOk, ReignsGrow;
    GetLog(h, n, i, nd);
    NotedGrows(h.reigns, nd.server.currentTerm, m + 1, h'.reigns[nd.server.currentTerm].quorum);
    CommittedLog(h.reigns, h'.reigns, nd.server, m);
    CommittedLeads(h, h', n, i, nd.server, m);
    AcksGrow(h.reigns, h'.reigns, h.acks, i, nd.server, nd'.server);
    forall id | id in nd.elections ensures ElectionOk(h', n, i, nd.server, nd.elections[id]) {
      ElectionGrows(h, h', n, i, nd.server, nd.server, nd.elections[id]);
    }
  }

  lemma GetLeading(s: State, i: nat)
    requires Inv(s) && i < |s.nodes| && s.nodes[i].server.role == Leader
    ensures LeadingOk(s.hist, |s.nodes|, i, s.nodes[i].server)
    ensures 0 <= s.nodes[i].server.lastApplied <= s.nodes[i].server.commitIndex
    ensures |s.nodes[i].server.log| > 0
  {
    GetElections(s, i);
  }

  lemma GetResponse(s: State, m: Message)
    requires Inv(s) && m in s.net && m.AppendResponse?
    ensures m.dst < |s.nodes| && m.src < |s.nodes| && m.src != m.dst
    ensures AppendRequestOk(s.hist.reigns, m.dst, m.append) && AppendResponseOk(s.hist, m.src, m.append, m.answer)
    ensures 0 <= m.append.prevLogIndex
    ensures m.append.term in s.hist.reigns
    ensures m.append.prevLogIndex + |m.append.entries| < |s.hist.reigns[m.append.term].log|
  {
    GetMessage(s, m);
  }

  /** The middle match index never leaves the leader's log. */
  lemma MiddleInLog(v: Server, i: nat, n: nat)
    requires |v.matchIndex| == n && i < n && |v.log| > 0
    requires forall j :: 0 <= j < n ==> 0 <= v.matchIndex[j] < |v.log|
    ensures MiddleMatch(v.matchIndex[i := LastIndex(v.log)]) < |v.log|
  {
    MiddleIsMember(v.matchIndex[i := LastIndex(v.log)]);
  }

  lemma ResponseInRange(s: State, m: Message)
    requires Inv(s) && Possible(s, ReceiveAppendResponse(m)) && StillLeading(s.nodes[m.dst].server, m.append)
    ensures CanReceive(s.nodes[m.dst].server, m.dst, m.src, m.append, m.answer)
  {
    hide Inv, AppendRequestOk, AppendResponseOk, MiddleMatch;
    var v, i, j := s.nodes[m.dst].server, m.dst, m.src;
    GetLeading(s, i);
    GetResponse(s, m);
    var index := m.append.prevLogIndex + |m.append.entries|;
    MiddleInLog(v.(matchIndex := v.matchIndex[j := index]), i, |s.nodes|);
  }

  lemma RequestInRange(s: State, m: Message)
    requires Inv(s) && Possible(s, ReceiveAppendRequest(m))
    ensures 0 <= m.append.prevLogIndex && 0 <= s.nodes[m.dst].server.lastApplied
  {
    GetMessage(s, m);
    GetElections(s, m.dst);
  }

  /** No handler ever indexes outside its log: what the network allows, the code survives. */
  lemma NoPanic(s: State, step: Step)
    requires Inv(s) && Possible(s, step)
    ensures InRange(s, step)
  {
    hide Inv, CanReceive;
    match step
    case SendAppend(i, j) => GetLeading(s, i);
    case ReceiveAppendRequest(m) => RequestInRange(s, m);
    case ReceiveAppendResponse(m) =>
      if StillLeading(s.nodes[m.dst].server, m.append) { ResponseInRange(s, m); }
    case _ =>
  }

  /** The reigns after noting that t committed its first k entries. */
  ghost function Noted(R: Reigns, t: nat, k: nat, q: set<nat>): Reigns
    requires t in R
  {
    R[t := R[t].(chosen := k, quorum := q)]
  }

  /** A recorded success, and what it commits. */
  lemma SuccessNode(h: History, h': History, n: nat, i: nat, nd: Node, nd': Node, j: nat, a: AppendArgs)
    requires ReignsOk(h, n) && NodeOk(h, n, i, nd) && StillLeading(nd.server, a) && j < n && j != i && i < n
    requires AppendRequestOk(h.reigns, i, a) && Acked(h.acks, j, a.term, a.prevLogIndex + |a.entries| + 1)
    requires j < |nd.server.nextIndex| && j < |nd.server.matchIndex| && i < |nd.server.matchIndex| && 0 <= nd.server.lastApplied
    requires 0 <= nd.server.commitIndex
    requires var v1 := RecordMatch(nd.server, j, a.prevLogIndex + |a.entries|);
      && MiddleMatch(v1.matchIndex[i := LastIndex(v1.log)]) < |v1.log|
      && nd' == nd.(server := UpdateCommit(v1, i).0)
    requires var h1 := NoteCommit(h, i, nd.server, nd'.server); h' == h1.(delivered := h'.delivered)
    ensures NodeOk(h', n, i, nd') && ReignsGrow(h.reigns, h'.reigns)
    ensures h'.reigns != h.reigns ==> ChosenOk(h', n, a.term)
  {
    hide NodeOk, ReignsOk, LeadingOk, AppendRequestOk, MiddleMatch, ChosenOk, Acked, ReignsGrow;
    var v1 := RecordMatch(nd.server, j, a.prevLogIndex + |a.entries|);
    var v2 := v1.(matchIndex := v1.matchIndex[i := LastIndex(v1.log)]);
    var nd2 := nd.(server := v2);
    RecordedNode(h, n, i, nd, nd2, j, a);
    LeadingHere(h, n, i, nd2);
    var h2 := h.(acks := h.acks + {Ack(i, a.term, |v2.log|)}, delivered := h'.delivered);
    SelfAckNode(h, h2, n, i, nd2);
    var m := MiddleMatch(v2.matchIndex);
    if m > v2.commitIndex && v2.log[m].term == v2.currentTerm {
      SuccessCommits(h2, h', n, i, nd2, nd', m);
    } else {
      assert h' == h2 && nd' == nd2;
      GrowsSelf(h.reigns);
    }
  }

  lemma GrowsSelf(R: Reigns)
    ensures ReignsGrow(R, R)
  {
  }

  lemma SuccessCommits(h: History, h': History, n: nat, i: nat, nd: Node, nd': Node, m: int)
    requires NodeOk(h, n, i, nd) && nd.server.role == Leader && i < n && i < |nd.server.matchIndex|
    requires Ack(i, nd.server.currentTerm, |nd.server.log|) in h.acks
    requires nd.server.matchIndex[i] == LastIndex(nd.server.log) && m == MiddleMatch(nd.server.matchIndex)
    requires 0 <= nd.server.commitIndex < m < |nd.server.log| && nd.server.log[m].term == nd.server.currentTerm
    requires 0 <= nd.server.lastApplied && nd' == nd.(server := CommitTo(nd.server, m).0)
    requires nd.server.currentTerm in h.reigns
    requires h' == h.(reigns := Noted(h.reigns, nd.server.currentTerm, m + 1, Matching(nd.server.matchIndex, m)))
    ensures NodeOk(h', n, i, nd') && ReignsGrow(h.reigns, h'.reigns) && ChosenOk(h', n, nd.server.currentTerm)
  {
    hide NodeOk, MiddleMatch, ChosenOk, Sound;
    LeadingHere(h, n, i, nd);
    CommitChosen(h, h', n, i, nd.server, m);
    CommittedNode(h, h', n, i, nd, nd', m);
  }

  lemma LeadingHere(h: History, n: nat, i: nat, nd: Node)
    requires NodeOk(h, n, i, nd) && nd.server.role == Leader
    ensures LeadingOk(h, n, i, nd.server)
    ensures nd.server.currentTerm in h.reigns && |nd.server.matchIndex| == n
  {
  }

  lemma SuccessDeliveries(R: Reigns, i: nat, v': Server, lo: int)
    requires LogOk(R, v') && 0 <= lo && v'.commitIndex > 0
    ensures forall d :: d in Delivered(i, Deliveries(v'.log, lo, v'.commitIndex)) ==> DeliveryOk(R, d.msg)
  {
    DeliveriesCommitted(R, v'.currentTerm, v'.log, lo, v'.commitIndex, i);
  }

  lemma SuccessStep(s: State, s': State, m: Message)
    requires Inv(s) && Enabled(s, ReceiveAppendResponse(m)) && s' == DoReceiveAppendResponse(s, m)
    requires var v := s.nodes[m.dst].server;
      StillLeading(v, m.append) && m.answer.term <= v.currentTerm && m.answer.success
    ensures Inv(s') && ReignsGrow(s.hist.reigns, s'.hist.reigns)
  {
    hide Inv, NodeOk, ReignsOk, LeadingOk, AppendRequestOk, ReignLogOk, VotersOk, ChosenOk, DeliveryOk, MiddleMatch, Sound;
    var i, j, a, n := m.dst, m.src, m.append, |s.nodes|;
    var v := s.nodes[i].server;
    GetResponse(s, m);
    GetLeading(s, i);
    GetReigns(s);
    GetNode(s, i);
    GetBox(s);
    SuccessNode(s.hist, s'.hist, n, i, s.nodes[i], s'.nodes[i], j, a);
    SuccessFrame(s, s', m);
  }

  lemma SuccessOutcome(v: Server, i: nat, j: nat, a: AppendArgs, r: AppendReply)
    requires StillLeading(v, a) && r.term <= v.currentTerm && r.success && CanReceive(v, i, j, a, r)
    ensures var v' := ReceiveAppendReply(v, i, j, a, r).0;
      v'.role == Leader && v'.currentTerm == v.currentTerm && v'.log == v.log
  {
  }

  /** A handled success changes the leader's server, its acknowledgements, what it committed and delivered. */
  lemma SuccessShape(s: State, s': State, m: Message)
    requires Inv(s) && Enabled(s, ReceiveAppendResponse(m)) && s' == DoReceiveAppendResponse(s, m)
    requires var v := s.nodes[m.dst].server;
      StillLeading(v, m.append) && m.answer.term <= v.currentTerm && m.answer.success
    requires ReignsGrow(s.hist.reigns, s'.hist.reigns)
    ensures var i, T, v' := m.dst, m.append.term, s'.nodes[m.dst].server;
      && OnlyNode(s, s', i) && s'.net == s.net && s'.hist.ballots == s.hist.ballots
      && v'.role == Leader && v'.currentTerm == s.nodes[i].server.currentTerm == T && T in s.hist.reigns && s.hist.reigns[T].leader == i
      && T in s'.hist.reigns && s'.hist.reigns == s.hist.reigns[T := s'.hist.reigns[T]]
      && s'.hist.reigns[T] == s.hist.reigns[T].(chosen := s'.hist.reigns[T].chosen, quorum := s'.hist.reigns[T].quorum)
  {
    hide Inv, MiddleMatch, ReceiveAppendReply, CanReceive;
    GetLead(s, m.dst);
    SuccessOutcome(s.nodes[m.dst].server, m.dst, m.src, m.append, m.answer);
  }

  lemma SuccessFrame(s: State, s': State, m: Message)
    requires Inv(s) && Enabled(s, ReceiveAppendResponse(m)) && s' == DoReceiveAppendResponse(s, m)
    requires var v := s.nodes[m.dst].server;
      StillLeading(v, m.append) && m.answer.term <= v.currentTerm && m.answer.success
    requires NodeOk(s'.hist, |s'.nodes|, m.dst, s'.nodes[m.dst]) && ReignsGrow(s.hist.reigns, s'.hist.reigns)
    requires s'.hist.reigns != s.hist.reigns ==> ChosenOk(s'.hist, |s'.nodes|, m.append.term)
    ensures Inv(s')
  {
    hide Inv, NodeOk, ReignsOk, LeadingOk, AppendRequestOk, ReignLogOk, VotersOk, ChosenOk, DeliveryOk, Sound,
      ReceiveAppendReply, CanReceive, ReignsGrow, DoReceiveAppendResponse, MessageOk;
    var i, T := m.dst, m.append.term;
    GetBox(s);
    SuccessShape(s, s', m);
    RequestsStay(s, s', i);
    GetLeading(s, i);
    if s'.hist.reigns != s.hist.reigns { ReignOnlyChosen(s, s', i, T); }
    GetLog(s'.hist, |s'.nodes|, i, s'.nodes[i]);
    CommitDeliveries(s, s', m);
    Frame(s, s', i);
  }

  lemma GetLead(s: State, i: nat)
    requires Inv(s) && i < |s.nodes| && s.nodes[i].server.role == Leader
    ensures s.nodes[i].server.currentTerm in s.hist.reigns
    ensures s.hist.reigns[s.nodes[i].server.currentTerm].leader == i
    ensures s.hist.reigns[s.nodes[i].server.currentTerm].log == s.nodes[i].server.log
  {
    GetLeading(s, i);
  }

  /** Noting a commit leaves the rest of the reign as it was. */
  lemma ReignOnlyChosen(s: State, s': State, i: nat, t: nat)
    requires Inv(s) && OnlyNode(s, s', i) && t in s.hist.reigns && t in s'.hist.reigns
    requires s'.hist.reigns[t] ==
      s.hist.reigns[t].(chosen := s'.hist.reigns[t].chosen, quorum := s'.hist.reigns[t].quorum)
    ensures ReignLogOk(s'.hist.reigns, t) && VotersOk(s'.hist, |s'.nodes|, t)
  {
    var r := s.hist.reigns[t];
    GetReigns(s);
    assert ReignLogOk(s.hist.reigns, t);
    SoundGrows(s.hist.reigns, s'.hist.reigns, r.start);
    SoundGrows(s.hist.reigns, s'.hist.reigns, r.log);
    VotersStay(s, s', i, t);
  }

  /** The voters of a reign still back the log it started with. */
  lemma VotersStay(s: State, s': State, i: nat, t: nat)
    requires Inv(s) && OnlyNode(s, s', i) && t in s.hist.reigns && t in s'.hist.reigns
    requires var r, r' := s.hist.reigns[t], s'.hist.reigns[t]; r'.leader == r.leader && r'.voters == r.voters && r'.start == r.start
    ensures VotersOk(s'.hist, |s'.nodes|, t)
  {
    hide Inv, Backs, ReignLogOk, ChosenOk;
    var r := s.hist.reigns[t];
    GetReigns(s);
    assert VotersOk(s.hist, |s.nodes|, t);
    forall p | p in r.voters ensures Ballot(p, t, r.leader) in s'.hist.ballots && Backs(s'.hist.reigns, s'.hist.acks, p, r.start, t) {
      BallotVoter(s, Ballot(p, t, r.leader));
      BacksStays(s, s', i, p, r.start, t);
    }
  }

  lemma CommitDeliveries(s: State, s': State, m: Message)
    requires Enabled(s, ReceiveAppendResponse(m)) && s' == DoReceiveAppendResponse(s, m)
    requires var v := s.nodes[m.dst].server;
      && StillLeading(v, m.append) && m.answer.term <= v.currentTerm && m.answer.success
      && 0 <= v.lastApplied <= v.commitIndex
    requires LogOk(s'.hist.reigns, s'.nodes[m.dst].server)
    ensures forall d :: d in s'.hist.delivered && d !in s.hist.delivered ==> DeliveryOk(s'.hist.reigns, d.msg)
  {
    hide LogOk, DeliveryOk, MiddleMatch;
    var i, v, v' := m.dst, s.nodes[m.dst].server, s'.nodes[m.dst].server;
    if v'.commitIndex > v.commitIndex {
      SuccessDeliveries(s'.hist.reigns, i, v', v.lastApplied);
    } else {
      assert Delivered(i, []) == {};
    }
  }

  lemma ReceiveAppendResponseKeeps(s: State, m: Message)
    requires Inv(s) && Enabled(s, ReceiveAppendResponse(m))
    ensures Inv(DoReceiveAppendResponse(s, m))
    ensures ReignsGrow(s.hist.reigns, DoReceiveAppendResponse(s, m).hist.reigns)
  {
    hide Inv, NodeOk, ReignsOk, LeadingOk, AppendRequestOk, ConflictOk, MiddleMatch, BackoffIndex;
    var s', i, j, a, r, n := DoReceiveAppendResponse(s, m), m.dst, m.src, m.append, m.answer, |s.nodes|;
    var nd, v := s.nodes[i], s.nodes[i].server;
    GetNode(s, i);
    GetResponse(s, m);
    GetReigns(s);
    if !StillLeading(v, a) {
      assert s'.nodes[i] == nd;
      QuietFrame(s, s', i);
    } else if r.term > v.currentTerm {
      FollowerTerm(s.hist, n, i, nd, s'.nodes[i], r.term);
      QuietFrame(s, s', i);
    } else if r.success {
      SuccessStep(s, s', m);
    } else {
      BackoffNode(s.hist, n, i, nd, s'.nodes[i], j, a, r);
      QuietFrame(s, s', i);
    }
  }

  lemma FollowerTerm(h: History, n: nat, i: nat, nd: Node, nd': Node, term: nat)
    requires NodeOk(h, n, i, nd) && term > nd.server.currentTerm && nd' == nd.(server := BeFollower(nd.server, term))
    ensures NodeOk(h, n, i, nd')
  {
    FollowerNode(h, h, n, i, nd, nd');
  }

  // ----- clients and crashes

  lemma ClientGrows(R: Reigns, t: nat, log: seq<Entry>)
    requires t in R && Agree(R[t].log, log, |R[t].log|)
    ensures ReignsGrow(R, R[t := R[t].(log := log)])
  {
  }

  /** Appending an own entry to a reign's log, at the leader and in the history alike. */
  lemma ClientLog(R: Reigns, R': Reigns, v: Server, v': Server)
    requires LogOk(R, v) && v.currentTerm in R && R[v.currentTerm].log == v.log && ReignLogOk(R, v.currentTerm)
    requires |v'.log| == |v.log| + 1
    requires v' == v.(log := v.log + [Entry(v.currentTerm, v'.log[|v.log|].command)])
    requires R' == R[v.currentTerm := R[v.currentTerm].(log := v'.log)]
    ensures ReignsGrow(R, R') && LogOk(R', v') && ReignLogOk(R', v.currentTerm)
  {
    hide ReignsGrow, Committed;
    var t := v.currentTerm;
    ClientGrows(R, t, v'.log);
    SoundGrows(R, R', v.log);
    SoundGrows(R, R', R[t].start);
    forall k | 1 <= k < |v'.log| ensures Owned(R', v'.log, k) {
      if k < |v.log| { assert Owned(R', v.log, k); }
    }
    CommittedGrows(R, R', t, t, v.log, v.commitIndex + 1);
    AgreeCommitted(R', t, v.log, v'.log, v.commitIndex + 1);
  }

  lemma ClientAcks(R: Reigns, R': Reigns, acks: set<Ack>, i: nat, v: Server, v': Server)
    requires AcksOk(R, acks, i, v) && ReignsGrow(R, R') && v'.currentTerm == v.currentTerm
    requires Agree(v.log, v'.log, |v.log|)
    ensures AcksOk(R', acks, i, v')
  {
    forall u: nat, k: int | Acked(acks, i, u, k)
      ensures u in R' && u <= v'.currentTerm && k <= |R'[u].log| && Kept(R', v'.log, u, k, v'.currentTerm + 1)
    {
      KeptGrows(R, R', v.log, u, k, v.currentTerm + 1);
      assert Agree(v.log, R'[u].log, k) ==> Agree(v'.log, R'[u].log, k);
    }
  }

  lemma ClientNode(h: History, h': History, n: nat, i: nat, nd: Node, nd': Node, command: Command)
    requires NodeOk(h, n, i, nd) && nd.server.role == Leader && nd' == nd.(server := Start(nd.server, command))
    requires nd.server.currentTerm in h.reigns && ReignLogOk(h.reigns, nd.server.currentTerm)
    requires var t := nd.server.currentTerm; h' == h.(reigns := h.reigns[t := h.reigns[t].(log := nd'.server.log)])
    ensures NodeOk(h', n, i, nd') && ReignsGrow(h.reigns, h'.reigns)
    ensures ReignLogOk(h'.reigns, nd.server.currentTerm)
  {
    hide LogOk, AcksOk, ReignsGrow, ReignLogOk, Agree;
    var v, v' := nd.server, nd'.server;
    GetLog(h, n, i, nd);
    ClientLog(h.reigns, h'.reigns, v, v');
    Extends(v.log, v'.log);
    ClientAcks(h.reigns, h'.reigns, h.acks, i, v, v');
    forall id | id in nd.elections ensures ElectionOk(h', n, i, v', nd.elections[id]) {
      ElectionGrows(h, h', n, i, v, v', nd.elections[id]);
    }
  }

  lemma Extends(l: seq<Entry>, l': seq<Entry>)
    requires l <= l'
    ensures Agree(l, l', |l|)
  {
  }

  lemma ReignExtended(s: State, s': State, i: nat, t: nat)
    requires Inv(s) && OnlyNode(s, s', i) && t in s.hist.reigns && t in s'.hist.reigns
    requires s'.hist.reigns[t] == s.hist.reigns[t].(log := s'.hist.reigns[t].log) && s'.hist.acks == s.hist.acks
    ensures VotersOk(s'.hist, |s'.nodes|, t) && ChosenOk(s'.hist, |s'.nodes|, t)
  {
    hide Inv, VotersOk;
    GetReigns(s);
    assert ChosenOk(s.hist, |s.nodes|, t);
    VotersStay(s, s', i, t);
  }

  lemma ClientKeeps(s: State, i: nat, command: Command)
    requires Inv(s) && i < |s.nodes|
    ensures Inv(DoClient(s, i, command))
    ensures ReignsGrow(s.hist.reigns, DoClient(s, i, command).hist.reigns)
  {
    hide Inv, NodeOk, ReignsOk, LeadingOk, AppendRequestOk, ReignLogOk, VotersOk, ChosenOk, DeliveryOk, Sound;
    var s', v := DoClient(s, i, command), s.nodes[i].server;
    GetNode(s, i);
    GetBox(s);
    if v.role == Leader {
      GetLead(s, i);
      GetReignLog(s, v.currentTerm);
      ClientNode(s.hist, s'.hist, |s.nodes|, i, s.nodes[i], s'.nodes[i], command);
      assert OnlyNode(s, s', i);
      ReignExtended(s, s', i, v.currentTerm);
      RequestsStay(s, s', i);
      hide MessageOk;
      Frame(s, s', i);
    } else {
      assert s'.nodes[i] == s.nodes[i];
      QuietFrame(s, s', i);
    }
  }

  lemma GetReignLog(s: State, t: nat)
    requires Inv(s) && t in s.hist.reigns
    ensures ReignLogOk(s.hist.reigns, t)
  {
  }

  lemma CrashNode(h: History, n: nat, i: nat, nd: Node, nd': Node, term: nat)
    requires NodeOk(h, n, i, nd) && nd' == Boot(Restart(ObserveTerm(nd.server, term)))
    ensures NodeOk(h, n, i, nd')
  {
    FollowerNode(h, h, n, i, nd, nd');
  }

  lemma CrashKeeps(s: State, i: nat)
    requires Inv(s) && i < |s.nodes|
    ensures Inv(DoCrash(s, i))
  {
    hide Inv, NodeOk;
    var s' := DoCrash(s, i);
    GetNode(s, i);
    CrashNode(s.hist, |s.nodes|, i, s.nodes[i], s'.nodes[i], 0);
    QuietFrame(s, s', i);
  }

  lemma CrashAfterTermKeeps(s: State, m: Message)
    requires Inv(s) && Possible(s, CrashAfterTerm(m))
    ensures Inv(DoCrashAfterTerm(s, m))
  {
    hide Inv, NodeOk;
    var s', i := DoCrashAfterTerm(s, m), m.dst;
    GetNode(s, i);
    CrashNode(s.hist, |s.nodes|, i, s.nodes[i], s'.nodes[i], if m.VoteRequest? then m.vote.term else m.append.term);
    QuietFrame(s, s', i);
  }

  // ----- every step, every run

  lemma StepKeeps(s: State, step: Step)
    requires Inv(s) && Enabled(s, step)
    ensures Inv(Apply(s, step)) && ReignsGrow(s.hist.reigns, Apply(s, step).hist.reigns)
  {
    hide Inv, ReignsGrow;
    GrowsSelf(s.hist.reigns);
    match step
    case Timeout(i) => TimeoutKeeps(s, i);
    case BeginElection(i) => BeginElectionKeeps(s, i);
    case ReceiveVoteRequest(m) => ReceiveVoteRequestKeeps(s, m);
    case ReceiveVoteResponse(m) => ReceiveVoteResponseKeeps(s, m);
    case SendAppend(i, j) => SendAppendKeeps(s, i, j);
    case ReceiveAppendRequest(m) => ReceiveAppendRequestKeeps(s, m);
    case ReceiveAppendResponse(m) => ReceiveAppendResponseKeeps(s, m);
    case Client(i, command) => ClientKeeps(s, i, command);
    case Crash(i) => CrashKeeps(s, i);
    case CrashAfterTerm(m) => CrashAfterTermKeeps(s, m);
  }

  lemma InitHolds(s: State)
    requires Init(s)
    ensures Inv(s)
  {
  }

  lemma GrowsThrough(R: Reigns, R1: Reigns, R2: Reigns)
    requires ReignsGrow(R, R1) && ReignsGrow(R1, R2)
    ensures ReignsGrow(R, R2)
  {
    forall t | t in R
      ensures t in R2 && R2[t].leader == R[t].leader && R2[t].start == R[t].start && R2[t].voters == R[t].voters
      ensures Agree(R[t].log, R2[t].log, |R[t].log|) && R[t].chosen <= R2[t].chosen
    {
      assert t in R1;
    }
  }

  lemma {:induction false} RunKeeps(s: State, steps: seq<Step>, t: State)
    requires Inv(s) && Run(s, steps, t)
    ensures Inv(t) && ReignsGrow(s.hist.reigns, t.hist.reigns)
    decreases |steps|
  {
    hide Inv, ReignsGrow;
    if steps == [] {
      GrowsSelf(s.hist.reigns);
    } else {
      var s1 := Apply(s, steps[0]);
      StepKeeps(s, steps[0]);
      RunKeeps(s1, steps[1..], t);
      GrowsThrough(s.hist.reigns, s1.hist.reigns, t.hist.reigns);
    }
  }

  lemma ReachableInv(s: State)
    requires Reachable(s)
    ensures Inv(s)
  {
    var s0: State, steps: seq<Step> :| Init(s0) && Run(s0, steps, s);
    InitHolds(s0);
    RunKeeps(s0, steps, s);
  }
}

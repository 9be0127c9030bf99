/** The cluster as a transition system: the servers, the remote calls in flight and
    the calls each server still waits for. A message, once sent, stays in `net`: it
    may be delivered never, late, out of order or many times. */
module RaftProtocol {
  import opened RaftServer

  /** One run of startElection that still collects votes. */
  datatype Election = Election(args: VoteArgs, votes: nat, waiting: set<nat>)

  /** A server with its goroutines: elections announced but not begun, and those under way. */
  datatype Node = Node(server: Server, announced: nat, elections: map<nat, Election>)

  datatype Message =
    | VoteRequest(src: nat, dst: nat, id: nat, vote: VoteArgs)
    | VoteResponse(src: nat, dst: nat, id: nat, vote: VoteArgs, granted: VoteReply)
    | AppendRequest(src: nat, dst: nat, append: AppendArgs)
    | AppendResponse(src: nat, dst: nat, append: AppendArgs, answer: AppendReply)

  /** What has happened, kept only to state properties; no step reads it.
      A reign is one leadership: the log it began with, the log it built, who elected it,
      and the longest prefix it ever committed with the servers that made it do so. */
  datatype Reign = Reign(
    leader: nat,
    start: seq<Entry>,
    log: seq<Entry>,
    voters: set<nat>,
    chosen: nat,
    quorum: set<nat>)

  /** Server `server` told the leader of `term` that it holds the first `length` entries of its log. */
  datatype Ack = Ack(server: nat, term: nat, length: nat)

  datatype Ballot = Ballot(voter: nat, term: nat, candidate: int)

  datatype Delivery = Delivery(server: nat, msg: ApplyMsg)

  datatype History = History(
    reigns: map<nat, Reign>,
    acks: set<Ack>,
    ballots: set<Ballot>,
    delivered: set<Delivery>)

  datatype State = State(nodes: seq<Node>, net: set<Message>, nextId: nat, hist: History)

  datatype Step =
    | Timeout(i: nat)
    | BeginElection(i: nat)
    | ReceiveVoteRequest(m: Message)
    | ReceiveVoteResponse(m: Message)
    | SendAppend(i: nat, j: nat)
    | ReceiveAppendRequest(m: Message)
    | ReceiveAppendResponse(m: Message)
    | Client(i: nat, command: Command)
    | Crash(i: nat)
    | CrashAfterTerm(m: Message)

  /** The server whose lock a step is under. */
  function Actor(step: Step): nat {
    match step
    case Timeout(i) => i
    case BeginElection(i) => i
    case ReceiveVoteRequest(m) => m.dst
    case ReceiveVoteResponse(m) => m.dst
    case SendAppend(i, j) => i
    case ReceiveAppendRequest(m) => m.dst
    case ReceiveAppendResponse(m) => m.dst
    case Client(i, command) => i
    case Crash(i) => i
    case CrashAfterTerm(m) => m.dst
  }

  function Boot(server: Server): Node { Node(server, 0, map[]) }

  predicate Init(s: State) {
    && 0 < |s.nodes|
    && (forall i :: 0 <= i < |s.nodes| ==> s.nodes[i] == Boot(NewServer()))
    && s.net == {}
    && s.hist == History(map[], {}, {}, {})
  }

  function SetServer(s: State, i: nat, server: Server): State
    requires i < |s.nodes|
  {
    s.(nodes := s.nodes[i := s.nodes[i].(server := server)])
  }

  function Delivered(i: nat, out: seq<ApplyMsg>): set<Delivery> {
    set k | 0 <= k < |out| :: Delivery(i, out[k])
  }

  /** What the network and the goroutines allow to happen. */
  predicate Possible(s: State, step: Step) {
    match step
    case Timeout(i) => i < |s.nodes|
    case BeginElection(i) => i < |s.nodes| && s.nodes[i].announced > 0
    case ReceiveVoteRequest(m) => m in s.net && m.VoteRequest? && m.dst < |s.nodes|
    case ReceiveVoteResponse(m) =>
      // the reply reaches the call that asked for it, once
      && m in s.net && m.VoteResponse? && m.dst < |s.nodes|
      && m.id in s.nodes[m.dst].elections
      && m.src in s.nodes[m.dst].elections[m.id].waiting
      && m.vote == s.nodes[m.dst].elections[m.id].args
    case SendAppend(i, j) =>
      i < |s.nodes| && j < |s.nodes| && i != j && s.nodes[i].server.role == Leader
    case ReceiveAppendRequest(m) => m in s.net && m.AppendRequest? && m.dst < |s.nodes|
    case ReceiveAppendResponse(m) => m in s.net && m.AppendResponse? && m.dst < |s.nodes|
    case Client(i, command) => i < |s.nodes|
    case Crash(i) => i < |s.nodes|
    case CrashAfterTerm(m) =>
      m in s.net && m.dst < |s.nodes| && (m.VoteRequest? || m.AppendRequest?)
  }

  /** Every slice and index the step's code takes stays in range; otherwise the code panics. */
  predicate InRange(s: State, step: Step)
    requires Possible(s, step)
  {
    match step
    case SendAppend(i, j) => CanSend(s.nodes[i].server, j)
    case ReceiveAppendRequest(m) =>
      -1 <= m.append.prevLogIndex && -1 <= s.nodes[m.dst].server.lastApplied
    case ReceiveAppendResponse(m) =>
      var v := s.nodes[m.dst].server;
      StillLeading(v, m.append) && m.answer.term <= v.currentTerm
      ==> CanReceive(v, m.dst, m.src, m.append, m.answer)
    case _ => true
  }

  predicate Enabled(s: State, step: Step) {
    Possible(s, step) && InRange(s, step)
  }

  /** beCandidate, whatever role the server has when its timer fires. */
  function DoTimeout(s: State, i: nat): State
    requires i < |s.nodes|
  {
    var nd := s.nodes[i];
    var v := BeCandidate(nd.server, i);
    s.(nodes := s.nodes[i := nd.(server := v, announced := nd.announced + 1)],
       hist := s.hist.(ballots := s.hist.ballots + {Ballot(i, v.currentTerm, i)}))
  }

  predicate IsPeer(p: nat, n: nat, i: nat) { p < n && p != i }

  function Others(n: nat, i: nat): set<nat> { set p: nat | 0 <= p < n && IsPeer(p, n, i) }

  /** startElection reads term and log only now; both may have moved since it was announced. */
  function DoBeginElection(s: State, i: nat): State
    requires i < |s.nodes| && s.nodes[i].announced > 0
  {
    var nd := s.nodes[i];
    var v := nd.server;
    var args := VoteArgs(v.currentTerm, i, LastIndex(v.log), LastTerm(v.log));
    var e := Election(args, 1, Others(|s.nodes|, i));
    s.(nodes := s.nodes[i := nd.(announced := nd.announced - 1, elections := nd.elections[s.nextId := e])],
       net := s.net + (set p | p in e.waiting :: VoteRequest(i, p, s.nextId, args)),
       nextId := s.nextId + 1)
  }

  function DoReceiveVoteRequest(s: State, m: Message): State
    requires m.VoteRequest? && m.dst < |s.nodes|
  {
    var o := RequestVote(s.nodes[m.dst].server, m.vote);
    SetServer(s, m.dst, o.server).(
      net := s.net + {VoteResponse(m.dst, m.src, m.id, m.vote, o.reply)},
      hist := if o.reply.voteGranted
              then s.hist.(ballots := s.hist.ballots + {Ballot(m.dst, m.vote.term, m.vote.candidateId)})
              else s.hist)
  }

  function Returned(e: Election, voter: nat, votes: nat): Election {
    e.(votes := votes, waiting := e.waiting - {voter})
  }

  /** The servers that voted for `candidate` in `term`. */
  function VotersOf(h: History, n: nat, term: nat, candidate: nat): set<nat> {
    set p: nat | 0 <= p < n && Ballot(p, term, candidate) in h.ballots
  }

  function NewReign(s: State, i: nat, v: Server): Reign {
    Reign(i, v.log, v.log, VotersOf(s.hist, |s.nodes|, v.currentTerm, i), 0, {})
  }

  /** Who becomes leader here begins a reign. */
  function DoReceiveVoteResponse(s: State, m: Message): State
    requires m.VoteResponse? && m.dst < |s.nodes| && m.id in s.nodes[m.dst].elections
  {
    var i := m.dst;
    var nd := s.nodes[i];
    var v := nd.server;
    var e := nd.elections[m.id];
    var (v1, count) := ReceiveVoteReply(v, |s.nodes|, e.args, e.votes, m.granted);
    s.(nodes := s.nodes[i := nd.(server := v1, elections := nd.elections[m.id := Returned(e, m.src, count)])],
       hist := if v.role == Candidate && v1.role == Leader
               then s.hist.(reigns := s.hist.reigns[v.currentTerm := NewReign(s, i, v)])
               else s.hist)
  }

  function DoSendAppend(s: State, i: nat, j: nat): State
    requires i < |s.nodes| && CanSend(s.nodes[i].server, j)
  {
    s.(net := s.net + {AppendRequest(i, j, MakeAppend(s.nodes[i].server, i, j))})
  }

  function DoReceiveAppendRequest(s: State, m: Message): State
    requires m.AppendRequest? && m.dst < |s.nodes|
    requires -1 <= m.append.prevLogIndex && -1 <= s.nodes[m.dst].server.lastApplied
  {
    var a := m.append;
    var o := AppendEntries(s.nodes[m.dst].server, a);
    SetServer(s, m.dst, o.server).(
      net := s.net + {AppendResponse(m.dst, m.src, a, o.reply)},
      hist := s.hist.(
        acks := if o.reply.success
                then s.hist.acks + {Ack(m.dst, a.term, a.prevLogIndex + |a.entries| + 1)}
                else s.hist.acks,
        delivered := s.hist.delivered + Delivered(m.dst, o.applied)))
  }

  /** The servers known to match at least up to `index`. */
  function Matching(matchIndex: seq<int>, index: int): set<nat> {
    set p: nat | 0 <= p < |matchIndex| && matchIndex[p] >= index
  }

  /** The leader's own log counts as acknowledged by itself; a commit is noted in its reign. */
  function NoteCommit(h: History, i: nat, before: Server, after: Server): History
    requires -1 <= before.commitIndex
  {
    var t := before.currentTerm;
    var h1 := h.(acks := h.acks + {Ack(i, t, |after.log|)});
    if after.commitIndex > before.commitIndex && t in h.reigns then
      h1.(reigns := h.reigns[t := h.reigns[t].(chosen := after.commitIndex + 1,
                                               quorum := Matching(after.matchIndex, after.commitIndex))])
    else h1
  }

  function DoReceiveAppendResponse(s: State, m: Message): State
    requires m.AppendResponse? && m.dst < |s.nodes|
    requires var v := s.nodes[m.dst].server;
      StillLeading(v, m.append) && m.answer.term <= v.currentTerm ==> CanReceive(v, m.dst, m.src, m.append, m.answer)
  {
    var i := m.dst;
    var v := s.nodes[i].server;
    var (v1, out) := ReceiveAppendReply(v, i, m.src, m.append, m.answer);
    var s1 := SetServer(s, i, v1);
    if StillLeading(v, m.append) && m.answer.term <= v.currentTerm && m.answer.success then
      var h := NoteCommit(s.hist, i, v, v1);
      s1.(hist := h.(delivered := h.delivered + Delivered(i, out)))
    else s1
  }

  function DoClient(s: State, i: nat, command: Command): State
    requires i < |s.nodes|
  {
    var v := s.nodes[i].server;
    var v1 := Start(v, command);
    var s1 := SetServer(s, i, v1);
    if v.role == Leader && v.currentTerm in s.hist.reigns then
      s1.(hist := s.hist.(reigns := s.hist.reigns[v.currentTerm := s.hist.reigns[v.currentTerm].(log := v1.log)]))
    else s1
  }

  function DoCrash(s: State, i: nat): State
    requires i < |s.nodes|
  {
    s.(nodes := s.nodes[i := Boot(Restart(s.nodes[i].server))])
  }

  /** A crash inside a handler, after the larger term was saved and before anything else was. */
  function DoCrashAfterTerm(s: State, m: Message): State
    requires (m.VoteRequest? || m.AppendRequest?) && m.dst < |s.nodes|
  {
    var t := if m.VoteRequest? then m.vote.term else m.append.term;
    s.(nodes := s.nodes[m.dst := Boot(Restart(ObserveTerm(s.nodes[m.dst].server, t)))])
  }

  function Apply(s: State, step: Step): State
    requires Enabled(s, step)
  {
    match step
    case Timeout(i) => DoTimeout(s, i)
    case BeginElection(i) => DoBeginElection(s, i)
    case ReceiveVoteRequest(m) => DoReceiveVoteRequest(s, m)
    case ReceiveVoteResponse(m) => DoReceiveVoteResponse(s, m)
    case SendAppend(i, j) => DoSendAppend(s, i, j)
    case ReceiveAppendRequest(m) => DoReceiveAppendRequest(s, m)
    case ReceiveAppendResponse(m) => DoReceiveAppendResponse(s, m)
    case Client(i, command) => DoClient(s, i, command)
    case Crash(i) => DoCrash(s, i)
    case CrashAfterTerm(m) => DoCrashAfterTerm(s, m)
  }

  /** The state after a sequence of steps, if every one of them was possible. */
  ghost predicate Run(s: State, steps: seq<Step>, t: State)
    decreases |steps|
  {
    if steps == [] then s == t
    else Enabled(s, steps[0]) && Run(Apply(s, steps[0]), steps[1..], t)
  }

  ghost predicate Reachable(s: State) {
    exists s0: State, steps: seq<Step> :: Init(s0) && Run(s0, steps, s)
  }
}

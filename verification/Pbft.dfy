/** One round of PBFT voting: what a node's state does with a request, a pre-prepare, and votes, and
    why two honest nodes that commit hold the same request although f of 3f+1 nodes may lie. */
module Pbft {
  import opened Quorums

  datatype Option<T> = None | Some(value: T)

  datatype Stage = Idle | PrePrepared | Prepared | Committed

  datatype RequestMsg = RequestMsg(timestamp: int, clientID: string, operation: string, sequenceID: int)

  datatype PrePrepareMsg = PrePrepareMsg(viewID: int, sequenceID: int, digest: string, requestMsg: Option<RequestMsg>)

  datatype MsgType = PrepareMsg | CommitMsg

  datatype VoteMsg = VoteMsg(viewID: int, sequenceID: int, digest: string, nodeID: nat, msgType: MsgType)

  datatype ReplyMsg = ReplyMsg(viewID: int, timestamp: int, clientID: string, result: string, nodeID: nat)

  /** The digest of a request, or of none; hashing is left open. */
  type Digest = Option<RequestMsg> -> string

  datatype State = State(
    viewID: int,
    lastSequenceID: int,
    reqMsg: Option<RequestMsg>,
    prepareMsgs: map<nat, VoteMsg>,
    commitMsgs: map<nat, VoteMsg>,
    currentStage: Stage)

  function CreateState(viewID: int, lastSequenceID: int): State {
    State(viewID, lastSequenceID, None, map[], map[], Idle)
  }

  /** The time, or the number after the last one where the clock is not past it. */
  function NextSequenceID(last: int, now: int): int {
    if last != -1 && last >= now then last + 1 else now
  }

  function StartConsensus(digest: Digest, s: State, request: RequestMsg, now: int): (State, PrePrepareMsg) {
    var id := NextSequenceID(s.lastSequenceID, now);
    var r := Some(request.(sequenceID := id));
    (s.(reqMsg := r, currentStage := PrePrepared), PrePrepareMsg(s.viewID, id, digest(r), r))
  }

  predicate VerifyMsg(digest: Digest, s: State, viewID: int, sequenceID: int, digestGot: string) {
    s.viewID == viewID && (s.lastSequenceID != -1 ==> s.lastSequenceID < sequenceID) && digestGot == digest(s.reqMsg)
  }

  /** The request is stored before it is checked. */
  function PrePrepare(digest: Digest, s: State, m: PrePrepareMsg, me: nat): (State, Option<VoteMsg>) {
    var s' := s.(reqMsg := m.requestMsg);
    if !VerifyMsg(digest, s', m.viewID, m.sequenceID, m.digest) then (s', None)
    else (s'.(currentStage := PrePrepared), Some(VoteMsg(s.viewID, m.sequenceID, m.digest, me, PrepareMsg)))
  }

  predicate IsPrepared(f: nat, s: State) {
    s.reqMsg.Some? && |s.prepareMsgs| >= 2 * f
  }

  predicate IsCommitted(f: nat, s: State) {
    IsPrepared(f, s) && |s.commitMsgs| >= 2 * f
  }

  function Prepare(digest: Digest, f: nat, s: State, v: VoteMsg, me: nat): (State, Option<VoteMsg>) {
    if !VerifyMsg(digest, s, v.viewID, v.sequenceID, v.digest) then (s, None)
    else
      var s' := s.(prepareMsgs := s.prepareMsgs[v.nodeID := v]);
      if IsPrepared(f, s') then (s'.(currentStage := Prepared), Some(VoteMsg(s.viewID, v.sequenceID, v.digest, me, CommitMsg)))
      else (s', None)
  }

  function Commit(digest: Digest, f: nat, s: State, v: VoteMsg, me: nat): (State, Option<(ReplyMsg, RequestMsg)>) {
    if !VerifyMsg(digest, s, v.viewID, v.sequenceID, v.digest) then (s, None)
    else
      var s' := s.(commitMsgs := s.commitMsgs[v.nodeID := v]);
      if IsCommitted(f, s') then
        (s'.(currentStage := Committed),
         Some((ReplyMsg(s.viewID, s.reqMsg.value.timestamp, s.reqMsg.value.clientID, "Executed", me), s.reqMsg.value)))
      else (s', None)
  }

  // ----- a node

  datatype Node = Node(currentState: Option<State>, committedMsgs: seq<RequestMsg>)

  function LastSequenceID(n: Node): int {
    if n.committedMsgs == [] then -1 else n.committedMsgs[|n.committedMsgs| - 1].sequenceID
  }

  /** A request or a pre-prepare is only taken by a node that has no state yet. */
  function GetReq(digest: Digest, n: Node, viewID: int, request: RequestMsg, now: int): (Node, Option<PrePrepareMsg>) {
    if n.currentState.Some? then (n, None)
    else
      var (s, m) := StartConsensus(digest, CreateState(viewID, LastSequenceID(n)), request, now);
      (n.(currentState := Some(s)), Some(m))
  }

  function GetPrePrepare(digest: Digest, n: Node, viewID: int, m: PrePrepareMsg, me: nat): (Node, Option<VoteMsg>) {
    if n.currentState.Some? then (n, None)
    else
      var (s, v) := PrePrepare(digest, CreateState(viewID, LastSequenceID(n)), m, me);
      (n.(currentState := Some(s)), v)
  }

  function GetPrepare(digest: Digest, f: nat, n: Node, v: VoteMsg, me: nat): (Node, Option<VoteMsg>)
    requires n.currentState.Some?
  {
    var (s, out) := Prepare(digest, f, n.currentState.value, v, me);
    (n.(currentState := Some(s)), out)
  }

  function GetCommit(digest: Digest, f: nat, n: Node, v: VoteMsg, me: nat): (Node, Option<ReplyMsg>)
    requires n.currentState.Some?
  {
    var (s, out) := Commit(digest, f, n.currentState.value, v, me);
    match out
    case None => (n.(currentState := Some(s)), None)
    case Some(p) => (n.(currentState := Some(s), committedMsgs := n.committedMsgs + [p.1]), Some(p.0))
  }

  // ----- all nodes

  datatype Config = Config(f: nat, viewID: int, byzantine: set<nat>, digest: Digest) {
    function Size(): nat { 3 * f + 1 }

    ghost predicate Valid() { byzantine <= Below(Size()) && |byzantine| <= f }

    predicate Honest(p: nat) { p < Size() && p !in byzantine }
  }

  /** The nodes, and every vote an honest node has broadcast. */
  datatype System = System(nodes: seq<Node>, sent: set<VoteMsg>)

  datatype Event =
    | Request(p: nat, request: RequestMsg, now: int)
    | PrePrepareEvent(p: nat, m: PrePrepareMsg)
    | Vote(p: nat, v: VoteMsg)

  /** Votes are authenticated: they come from the node they name, which is another one, and an honest
      node's vote is one it broadcast. Requests and pre-prepares may be anything. */
  ghost predicate Possible(c: Config, y: System, e: Event) {
    && |y.nodes| == c.Size() && c.Honest(e.p)
    && (e.Vote? ==>
          && y.nodes[e.p].currentState.Some? && e.v.nodeID != e.p && e.v.nodeID < c.Size()
          && (e.v.nodeID in c.byzantine || e.v in y.sent))
  }

  function Broadcast(sent: set<VoteMsg>, v: Option<VoteMsg>): set<VoteMsg> {
    if v.Some? then sent + {v.value} else sent
  }

  function Next(c: Config, y: System, e: Event): System
    requires |y.nodes| == c.Size() && c.Honest(e.p) && (e.Vote? ==> y.nodes[e.p].currentState.Some?)
  {
    var n := y.nodes[e.p];
    match e
    case Request(p, r, now) =>
      y.(nodes := y.nodes[p := GetReq(c.digest, n, c.viewID, r, now).0])
    case PrePrepareEvent(p, m) =>
      var (n', v) := GetPrePrepare(c.digest, n, c.viewID, m, p);
      System(y.nodes[p := n'], Broadcast(y.sent, v))
    case Vote(p, v) =>
      if v.msgType.PrepareMsg? then
        var (n', out) := GetPrepare(c.digest, c.f, n, v, p);
        System(y.nodes[p := n'], Broadcast(y.sent, out))
      else y.(nodes := y.nodes[p := GetCommit(c.digest, c.f, n, v, p).0])
  }

  function Init(c: Config): System {
    System(seq(c.Size(), _ => Node(None, [])), {})
  }

  ghost predicate Run(c: Config, states: seq<System>, events: seq<Event>) {
    && |states| == |events| + 1 && states[0] == Init(c)
    && forall i :: 0 <= i < |events| ==> Possible(c, states[i], events[i]) && states[i + 1] == Next(c, states[i], events[i])
  }

  // ----- what every step keeps

  /** The digest an honest node stands for; it never changes once it has a request. */
  ghost predicate StandsFor(c: Config, n: Node, d: string) {
    n.currentState.Some? && d == c.digest(n.currentState.value.reqMsg)
  }

  /** A vote counted by a node is for that node's own request, from the node it is filed under, and
      authentic. */
  ghost predicate Counted(c: Config, y: System, p: nat, s: State, q: nat, v: VoteMsg) {
    v.nodeID == q && q != p && q < c.Size() && v.digest == c.digest(s.reqMsg) && (q in c.byzantine || v in y.sent)
  }

  ghost predicate AllCounted(c: Config, y: System, p: nat, s: State, votes: map<nat, VoteMsg>) {
    forall q :: q in votes ==> Counted(c, y, p, s, q, votes[q])
  }

  /** A broadcast vote is for the digest its sender stands for; a commit vote shows it was prepared. */
  ghost predicate SentOk(c: Config, n: Node, v: VoteMsg) {
    StandsFor(c, n, v.digest) && (v.msgType.CommitMsg? ==> IsPrepared(c.f, n.currentState.value))
  }

  ghost predicate NodeOk(c: Config, y: System, p: nat)
    requires p < |y.nodes|
  {
    var n := y.nodes[p];
    match n.currentState
    case None => n.committedMsgs == []
    case Some(s) =>
      && AllCounted(c, y, p, s, s.prepareMsgs) && AllCounted(c, y, p, s, s.commitMsgs)
      && (n.committedMsgs != [] ==> IsCommitted(c.f, s))
      && (forall r :: r in n.committedMsgs ==> s.reqMsg == Some(r))
  }

  ghost predicate Inv(c: Config, y: System) {
    && |y.nodes| == c.Size()
    && (forall v :: v in y.sent ==> c.Honest(v.nodeID) && SentOk(c, y.nodes[v.nodeID], v))
    && (forall p: nat :: c.Honest(p) ==> NodeOk(c, y, p))
  }

  /** What the acting node must show for the invariant to be kept. */
  ghost predicate ActsWell(c: Config, y: System, y': System, p: nat) {
    && |y.nodes| == |y'.nodes| == c.Size() && p < c.Size()
    && (forall q :: 0 <= q < c.Size() && q != p ==> y'.nodes[q] == y.nodes[q])
    && y.sent <= y'.sent && (forall v :: v in y'.sent && v !in y.sent ==> v.nodeID == p && SentOk(c, y'.nodes[p], v))
    && (forall v :: SentOk(c, y.nodes[p], v) ==> SentOk(c, y'.nodes[p], v))
    && (forall d :: StandsFor(c, y.nodes[p], d) ==> StandsFor(c, y'.nodes[p], d))
    && NodeOk(c, y', p)
  }

  lemma ActingKeeps(c: Config, y: System, y': System, p: nat)
    requires Inv(c, y) && c.Honest(p) && ActsWell(c, y, y', p)
    ensures Inv(c, y') && y.sent <= y'.sent
    ensures forall q: nat, d :: c.Honest(q) && StandsFor(c, y.nodes[q], d) ==> StandsFor(c, y'.nodes[q], d)
  {
    forall q: nat | c.Honest(q) ensures NodeOk(c, y', q) {
      if q != p { NodeFrame(c, y, y', q); }
    }
    hide NodeOk;
    forall v | v in y'.sent ensures c.Honest(v.nodeID) && SentOk(c, y'.nodes[v.nodeID], v) {
      if v in y.sent { assert SentOk(c, y.nodes[v.nodeID], v); }
    }
  }

  lemma NodeFrame(c: Config, y: System, y': System, q: nat)
    requires q < |y.nodes| == |y'.nodes| && y'.nodes[q] == y.nodes[q] && y.sent <= y'.sent && NodeOk(c, y, q)
    ensures NodeOk(c, y', q)
  {
    var n := y.nodes[q];
    if n.currentState.Some? {
      var s := n.currentState.value;
      CountedStay(c, y, y', q, s, s.prepareMsgs);
      CountedStay(c, y, y', q, s, s.commitMsgs);
    }
  }

  lemma CountedStay(c: Config, y: System, y': System, p: nat, s: State, votes: map<nat, VoteMsg>)
    requires AllCounted(c, y, p, s, votes) && y.sent <= y'.sent
    ensures AllCounted(c, y', p, s, votes)
  {
    forall x | x in votes ensures Counted(c, y', p, s, x, votes[x]) {
      assert Counted(c, y, p, s, x, votes[x]);
    }
  }

  /** One more authentic vote for the node's digest. */
  lemma CountedMore(c: Config, y: System, y': System, p: nat, s: State, s': State, votes: map<nat, VoteMsg>, v: VoteMsg)
    requires AllCounted(c, y, p, s, votes) && y.sent <= y'.sent && s'.reqMsg == s.reqMsg
    requires Counted(c, y, p, s, v.nodeID, v)
    ensures AllCounted(c, y', p, s', votes) && AllCounted(c, y', p, s', votes[v.nodeID := v])
  {
    forall x | x in votes ensures Counted(c, y', p, s', x, votes[x]) {
      assert Counted(c, y, p, s, x, votes[x]);
    }
  }

  lemma PrepareActs(c: Config, y: System, p: nat, v: VoteMsg)
    requires Inv(c, y) && Possible(c, y, Vote(p, v)) && v.msgType.PrepareMsg?
    ensures ActsWell(c, y, Next(c, y, Vote(p, v)), p)
  {
    hide AllCounted, Counted;
    var y' := Next(c, y, Vote(p, v));
    var s, s' := y.nodes[p].currentState.value, y'.nodes[p].currentState.value;
    assert NodeOk(c, y, p);
    MoreVotes(s.prepareMsgs, v);
    if VerifyMsg(c.digest, s, v.viewID, v.sequenceID, v.digest) {
      VoteCounts(c, y, p, v);
      CountedMore(c, y, y', p, s, s', s.prepareMsgs, v);
      CountedMore(c, y, y', p, s, s', s.commitMsgs, v);
    } else {
      CountedStay(c, y, y', p, s, s.prepareMsgs);
      CountedStay(c, y, y', p, s, s.commitMsgs);
    }
  }

  lemma VoteCounts(c: Config, y: System, p: nat, v: VoteMsg)
    requires Possible(c, y, Vote(p, v)) && v.digest == c.digest(y.nodes[p].currentState.value.reqMsg)
    ensures Counted(c, y, p, y.nodes[p].currentState.value, v.nodeID, v)
  {
  }

  lemma MoreVotes(votes: map<nat, VoteMsg>, v: VoteMsg)
    ensures |votes[v.nodeID := v]| >= |votes|
  {
    SubsetSize(votes.Keys, votes[v.nodeID := v].Keys);
    assert |votes| == |votes.Keys| && |votes[v.nodeID := v]| == |votes[v.nodeID := v].Keys|;
  }

  lemma CommitActs(c: Config, y: System, p: nat, v: VoteMsg)
    requires Inv(c, y) && Possible(c, y, Vote(p, v)) && v.msgType.CommitMsg?
    ensures ActsWell(c, y, Next(c, y, Vote(p, v)), p)
  {
    hide AllCounted, Counted;
    var y' := Next(c, y, Vote(p, v));
    var s, s' := y.nodes[p].currentState.value, y'.nodes[p].currentState.value;
    assert NodeOk(c, y, p);
    MoreVotes(s.commitMsgs, v);
    if VerifyMsg(c.digest, s, v.viewID, v.sequenceID, v.digest) {
      VoteCounts(c, y, p, v);
      CountedMore(c, y, y', p, s, s', s.prepareMsgs, v);
      CountedMore(c, y, y', p, s, s', s.commitMsgs, v);
    } else {
      CountedStay(c, y, y', p, s, s.prepareMsgs);
      CountedStay(c, y, y', p, s, s.commitMsgs);
    }
  }

  lemma StartActs(c: Config, y: System, e: Event)
    requires Inv(c, y) && Possible(c, y, e) && !e.Vote?
    ensures ActsWell(c, y, Next(c, y, e), e.p)
  {
    assert NodeOk(c, y, e.p);
  }

  /** Every step keeps the invariant; nobody takes a vote back or changes its request. */
  lemma StepKeeps(c: Config, y: System, e: Event)
    requires Inv(c, y) && Possible(c, y, e)
    ensures Inv(c, Next(c, y, e)) && y.sent <= Next(c, y, e).sent
    ensures forall p: nat, d :: c.Honest(p) && StandsFor(c, y.nodes[p], d) ==> StandsFor(c, Next(c, y, e).nodes[p], d)
  {
    hide ActsWell, StandsFor, SentOk, NodeOk;
    match e {
      case Vote(p, v) => if v.msgType.PrepareMsg? { PrepareActs(c, y, p, v); } else { CommitActs(c, y, p, v); }
      case _ => StartActs(c, y, e);
    }
    hide Next, Inv;
    ActingKeeps(c, y, Next(c, y, e), e.p);
  }

  lemma {:induction false} RunKeeps(c: Config, states: seq<System>, events: seq<Event>, i: nat)
    requires c.Valid() && Run(c, states, events) && i <= |events|
    ensures Inv(c, states[i]) && |states[i].nodes| == c.Size()
  {
    if i > 0 {
      RunKeeps(c, states, events, i - 1);
      StepKeeps(c, states[i - 1], events[i - 1]);
    }
  }

  lemma {:induction false} StandsForEver(c: Config, states: seq<System>, events: seq<Event>, i: nat, j: nat, p: nat, d: string)
    requires c.Valid() && Run(c, states, events) && i <= j <= |events| && c.Honest(p)
    requires |states[i].nodes| == c.Size() && StandsFor(c, states[i].nodes[p], d)
    ensures |states[j].nodes| == c.Size() && StandsFor(c, states[j].nodes[p], d)
    decreases j
  {
    hide Next, Inv, StandsFor;
    RunKeeps(c, states, events, j);
    if i < j {
      StandsForEver(c, states, events, i, j - 1, p, d);
      RunKeeps(c, states, events, j - 1);
      StepKeeps(c, states[j - 1], events[j - 1]);
    }
  }

  // ----- agreement

  /** Votes counted for a node's request, with the node itself: the honest among them stand for its
      digest. */
  lemma VotersStand(c: Config, y: System, p: nat, votes: map<nat, VoteMsg>) returns (q: set<nat>)
    requires c.Valid() && Inv(c, y) && c.Honest(p) && y.nodes[p].currentState.Some?
    requires AllCounted(c, y, p, y.nodes[p].currentState.value, votes) && |votes| >= 2 * c.f
    ensures q <= Below(c.Size()) && |q| >= 2 * c.f + 1
    ensures forall x :: x in q && x !in c.byzantine ==>
      StandsFor(c, y.nodes[x], c.digest(y.nodes[p].currentState.value.reqMsg))
  {
    var s := y.nodes[p].currentState.value;
    assert forall x :: x in votes.Keys ==> Counted(c, y, p, s, x, votes[x]);
    assert p !in votes.Keys;
    q := votes.Keys + {p};
    assert |votes| == |votes.Keys|;
    forall x | x in q && x !in c.byzantine ensures StandsFor(c, y.nodes[x], c.digest(s.reqMsg)) {
      if x != p { assert Counted(c, y, p, s, x, votes[x]) && SentOk(c, y.nodes[x], votes[x]); }
    }
  }

  lemma CommitQuorum(c: Config, y: System, p: nat, r: RequestMsg) returns (q: set<nat>)
    requires c.Valid() && Inv(c, y) && c.Honest(p) && r in y.nodes[p].committedMsgs
    ensures q <= Below(c.Size()) && |q| >= 2 * c.f + 1
    ensures forall x :: x in q && x !in c.byzantine ==> StandsFor(c, y.nodes[x], c.digest(Some(r)))
  {
    assert NodeOk(c, y, p);
    q := VotersStand(c, y, p, y.nodes[p].currentState.value.commitMsgs);
  }

  /** A commit vote is already backed by 2f+1 nodes. */
  lemma PrepareQuorum(c: Config, y: System, v: VoteMsg) returns (q: set<nat>)
    requires c.Valid() && Inv(c, y) && v in y.sent && v.msgType.CommitMsg?
    ensures q <= Below(c.Size()) && |q| >= 2 * c.f + 1
    ensures forall x :: x in q && x !in c.byzantine ==> StandsFor(c, y.nodes[x], v.digest)
  {
    assert SentOk(c, y.nodes[v.nodeID], v) && NodeOk(c, y, v.nodeID);
    q := VotersStand(c, y, v.nodeID, y.nodes[v.nodeID].currentState.value.prepareMsgs);
  }

  /** Two quorums share a node that does not lie. */
  lemma HonestInBoth(c: Config, qa: set<nat>, qb: set<nat>) returns (x: nat)
    requires c.Valid() && qa <= Below(c.Size()) && qb <= Below(c.Size()) && |qa| >= 2 * c.f + 1 && |qb| >= 2 * c.f + 1
    ensures x in qa && x in qb && x !in c.byzantine && c.Honest(x)
  {
    Overlap(qa, qb, c.Size());
    if qa * qb <= c.byzantine { SubsetSize(qa * qb, c.byzantine); }
    x :| x in qa * qb && x !in c.byzantine;
  }

  /** Honest nodes never cast commit votes for different digests, whenever each was cast. */
  lemma CommitVotesAgree(c: Config, states: seq<System>, events: seq<Event>, i: nat, j: nat, v: VoteMsg, w: VoteMsg)
    requires c.Valid() && Run(c, states, events) && i <= |events| && j <= |events|
    requires v in states[i].sent && w in states[j].sent && v.msgType.CommitMsg? && w.msgType.CommitMsg?
    ensures v.digest == w.digest
  {
    RunKeeps(c, states, events, i);
    RunKeeps(c, states, events, j);
    var qa := PrepareQuorum(c, states[i], v);
    var qb := PrepareQuorum(c, states[j], w);
    var x := HonestInBoth(c, qa, qb);
    if i <= j {
      StandsForEver(c, states, events, i, j, x, v.digest);
    } else {
      StandsForEver(c, states, events, j, i, x, w.digest);
    }
  }

  /** Two honest nodes that have executed a request, whenever each did so, executed one with the same
      digest. */
  lemma Agreement(c: Config, states: seq<System>, events: seq<Event>, i: nat, j: nat, p: nat, q: nat, a: RequestMsg, b: RequestMsg)
    requires c.Valid() && Run(c, states, events) && i <= |events| && j <= |events|
    requires c.Honest(p) && c.Honest(q) && |states[i].nodes| == |states[j].nodes| == c.Size()
    requires a in states[i].nodes[p].committedMsgs && b in states[j].nodes[q].committedMsgs
    ensures c.digest(Some(a)) == c.digest(Some(b))
  {
    RunKeeps(c, states, events, i);
    RunKeeps(c, states, events, j);
    var qa := CommitQuorum(c, states[i], p, a);
    var qb := CommitQuorum(c, states[j], q, b);
    var x := HonestInBoth(c, qa, qb);
    if i <= j {
      StandsForEver(c, states, events, i, j, x, c.digest(Some(a)));
    } else {
      StandsForEver(c, states, events, j, i, x, c.digest(Some(b)));
    }
  }

  /** With a digest that tells requests apart they executed the same request. */
  lemma SameRequest(c: Config, states: seq<System>, events: seq<Event>, i: nat, j: nat, p: nat, q: nat, a: RequestMsg, b: RequestMsg)
    requires c.Valid() && Run(c, states, events) && i <= |events| && j <= |events|
    requires c.Honest(p) && c.Honest(q) && |states[i].nodes| == |states[j].nodes| == c.Size()
    requires a in states[i].nodes[p].committedMsgs && b in states[j].nodes[q].committedMsgs
    requires forall r, s :: c.digest(r) == c.digest(s) ==> r == s
    ensures a == b
  {
    Agreement(c, states, events, i, j, p, q, a, b);
  }

  /** An honest node's votes, at any two moments, are all for one digest. */
  lemma OneVote(c: Config, states: seq<System>, events: seq<Event>, i: nat, v: VoteMsg, w: VoteMsg)
    requires c.Valid() && Run(c, states, events) && i <= |events|
    requires v in states[i].sent && w in states[i].sent && v.nodeID == w.nodeID
    ensures v.digest == w.digest && c.Honest(v.nodeID)
  {
    RunKeeps(c, states, events, i);
  }
}

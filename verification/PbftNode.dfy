/** The node and its consensus state as objects: the methods change them in place and are proved to
    compute the functions of Pbft, for the one faulty node in four the program is built for. */
module PbftNode {
  import opened Pbft
  import opened PbftProgress

  const F: nat := 1

  class ConsensusState {
    const viewID: int
    const lastSequenceID: int
    var reqMsg: Option<RequestMsg>
    var prepareMsgs: map<nat, VoteMsg>
    var commitMsgs: map<nat, VoteMsg>
    var currentStage: Stage

    ghost function View(): State
      reads this
    {
      State(viewID, lastSequenceID, reqMsg, prepareMsgs, commitMsgs, currentStage)
    }

    constructor (viewID: int, lastSequenceID: int)
      ensures View() == CreateState(viewID, lastSequenceID)
    {
      this.viewID, this.lastSequenceID := viewID, lastSequenceID;
      reqMsg, prepareMsgs, commitMsgs, currentStage := None, map[], map[], Idle;
    }

    method StartConsensus(digest: Digest, request: RequestMsg, now: int) returns (m: PrePrepareMsg)
      modifies this
      ensures (View(), m) == Pbft.StartConsensus(digest, old(View()), request, now)
    {
      var sequenceID := now;
      if lastSequenceID != -1 {
        while lastSequenceID >= sequenceID
          invariant now <= sequenceID && (sequenceID > now ==> sequenceID <= lastSequenceID + 1)
          decreases lastSequenceID - sequenceID
        {
          sequenceID := sequenceID + 1;
        }
      }
      reqMsg := Some(request.(sequenceID := sequenceID));
      currentStage := PrePrepared;
      m := PrePrepareMsg(viewID, sequenceID, digest(reqMsg), reqMsg);
    }

    method VerifyMsg(digest: Digest, view: int, sequenceID: int, digestGot: string) returns (ok: bool)
      ensures ok == Pbft.VerifyMsg(digest, View(), view, sequenceID, digestGot)
    {
      if viewID != view { return false; }
      if lastSequenceID != -1 {
        if lastSequenceID >= sequenceID { return false; }
      }
      ok := digestGot == digest(reqMsg);
    }

    method PrePrepare(digest: Digest, m: PrePrepareMsg, me: nat) returns (v: Option<VoteMsg>)
      modifies this
      ensures (View(), v) == Pbft.PrePrepare(digest, old(View()), m, me)
    {
      reqMsg := m.requestMsg;
      var ok := VerifyMsg(digest, m.viewID, m.sequenceID, m.digest);
      if !ok { return None; }
      currentStage := PrePrepared;
      v := Some(VoteMsg(viewID, m.sequenceID, m.digest, me, PrepareMsg));
    }

    method Prepare(digest: Digest, v: VoteMsg, me: nat) returns (out: Option<VoteMsg>)
      modifies this
      ensures (View(), out) == Pbft.Prepare(digest, F, old(View()), v, me)
    {
      var ok := VerifyMsg(digest, v.viewID, v.sequenceID, v.digest);
      if !ok { return None; }
      prepareMsgs := prepareMsgs[v.nodeID := v];
      if reqMsg.Some? && |prepareMsgs| >= 2 * F {
        currentStage := Prepared;
        return Some(VoteMsg(viewID, v.sequenceID, v.digest, me, CommitMsg));
      }
      out := None;
    }

    method Commit(digest: Digest, v: VoteMsg, me: nat) returns (out: Option<(ReplyMsg, RequestMsg)>)
      modifies this
      ensures (View(), out) == Pbft.Commit(digest, F, old(View()), v, me)
    {
      var ok := VerifyMsg(digest, v.viewID, v.sequenceID, v.digest);
      if !ok { return None; }
      commitMsgs := commitMsgs[v.nodeID := v];
      if reqMsg.Some? && |prepareMsgs| >= 2 * F && |commitMsgs| >= 2 * F {
        currentStage := Committed;
        var r := reqMsg.value;
        return Some((ReplyMsg(viewID, r.timestamp, r.clientID, "Executed", me), r));
      }
      out := None;
    }
  }

  class PeerNode {
    const me: nat
    const viewID: int
    var currentState: ConsensusState?
    var committedMsgs: seq<RequestMsg>

    ghost function View(): Node
      reads this, currentState
    {
      Node(if currentState == null then None else Some(currentState.View()), committedMsgs)
    }

    constructor (me: nat, viewID: int)
      ensures View() == Node(None, []) && this.me == me && this.viewID == viewID && currentState == null
    {
      this.me, this.viewID, currentState, committedMsgs := me, viewID, null, [];
    }

    /** Fails when a consensus is already under way: the state, once made, stays. */
    method CreateStateForNewConsensus() returns (ok: bool)
      modifies this`currentState
      ensures ok == (old(currentState) == null) && (!ok ==> currentState == old(currentState))
      ensures ok ==> currentState != null && fresh(currentState)
      ensures ok ==> currentState.View() == CreateState(viewID, LastSequenceID(Node(None, committedMsgs)))
    {
      if currentState != null { return false; }
      var last := -1;
      if |committedMsgs| != 0 { last := committedMsgs[|committedMsgs| - 1].sequenceID; }
      currentState := new ConsensusState(viewID, last);
      ok := true;
    }

    method GetReq(digest: Digest, request: RequestMsg, now: int) returns (m: Option<PrePrepareMsg>)
      modifies this, currentState
      ensures (View(), m) == Pbft.GetReq(digest, old(View()), viewID, request, now)
      ensures currentState == old(currentState) || fresh(currentState)
    {
      var ok := CreateStateForNewConsensus();
      if !ok { return None; }
      var p := currentState.StartConsensus(digest, request, now);
      m := Some(p);
    }

    method GetPrePrepare(digest: Digest, m: PrePrepareMsg) returns (v: Option<VoteMsg>)
      modifies this, currentState
      ensures (View(), v) == Pbft.GetPrePrepare(digest, old(View()), viewID, m, me)
      ensures currentState == old(currentState) || fresh(currentState)
    {
      var ok := CreateStateForNewConsensus();
      if !ok { return None; }
      v := currentState.PrePrepare(digest, m, me);
    }

    method GetPrepare(digest: Digest, v: VoteMsg) returns (out: Option<VoteMsg>)
      requires currentState != null
      modifies currentState
      ensures (View(), out) == Pbft.GetPrepare(digest, F, old(View()), v, me)
    {
      out := currentState.Prepare(digest, v, me);
    }

    method GetCommit(digest: Digest, v: VoteMsg) returns (out: Option<ReplyMsg>)
      requires currentState != null
      modifies this, currentState
      ensures (View(), out) == Pbft.GetCommit(digest, F, old(View()), v, me)
      ensures currentState == old(currentState)
    {
      var done := currentState.Commit(digest, v, me);
      match done {
        case None => out := None;
        case Some(p) =>
          committedMsgs := committedMsgs + [p.1];
          out := Some(p.0);
      }
    }

    /** Hands a message to the method for its kind: the object takes the step the agreement proof
        reasons about, and gives the vote to be broadcast. */
    method ResolveMsg(c: Config, ghost y: System, e: Event) returns (out: Option<VoteMsg>)
      requires c.f == F && c.viewID == viewID && me == e.p && Possible(c, y, e) && y.nodes[me] == View()
      modifies this, currentState
      ensures View() == Next(c, y, e).nodes[me] && Next(c, y, e).sent == Broadcast(y.sent, out)
      ensures currentState == old(currentState) || fresh(currentState)
    {
      out := None;
      match e {
        case Request(_, r, now) => var m := GetReq(c.digest, r, now);
        case PrePrepareEvent(_, m) => out := GetPrePrepare(c.digest, m);
        case Vote(_, v) =>
          if v.msgType.PrepareMsg? {
            out := GetPrepare(c.digest, v);
          } else {
            var reply := GetCommit(c.digest, v);
          }
      }
    }
  }

  // ----- four nodes

  /** No two nodes share a consensus state. */
  ghost predicate Apart(nodes: seq<PeerNode>)
    reads nodes
  {
    forall p: nat, q: nat :: p < q < |nodes| ==>
      nodes[p] != nodes[q] && (nodes[p].currentState == null || nodes[p].currentState != nodes[q].currentState)
  }

  ghost function States(nodes: seq<PeerNode>): set<object>
    reads nodes
  {
    set p: nat | p < |nodes| && nodes[p].currentState != null :: nodes[p].currentState
  }

  /** The objects are where the honest nodes of the system are. */
  ghost predicate Play(c: Config, nodes: seq<PeerNode>, y: System)
    reads nodes, States(nodes)
  {
    && |nodes| == |y.nodes| == 4 && Apart(nodes)
    && forall p: nat :: p < 4 ==>
         nodes[p].me == p && nodes[p].viewID == c.viewID && (c.Honest(p) ==> nodes[p].View() == y.nodes[p])
  }

  /** The requests the honest among them have executed all have one digest. */
  ghost predicate Consistent(c: Config, nodes: seq<PeerNode>)
    reads nodes
  {
    forall p: nat, q: nat, a, b | p < |nodes| && q < |nodes| && c.Honest(p) && c.Honest(q) ::
      a in nodes[p].committedMsgs && b in nodes[q].committedMsgs ==> c.digest(Some(a)) == c.digest(Some(b))
  }

  lemma PlayIsConsistent(c: Config, states: seq<System>, events: seq<Event>, i: nat, nodes: seq<PeerNode>)
    requires c.Valid() && c.f == F && Run(c, states, events) && i <= |events| && Play(c, nodes, states[i])
    ensures Consistent(c, nodes)
  {
    forall p: nat, q: nat, a, b |
      p < |nodes| && q < |nodes| && c.Honest(p) && c.Honest(q) && a in nodes[p].committedMsgs && b in nodes[q].committedMsgs
      ensures c.digest(Some(a)) == c.digest(Some(b))
    {
      Agreement(c, states, events, i, i, p, q, a, b);
    }
  }

  /** Every honest object has cast its commit vote exactly when it should have, and executed as often as it
      should have, by the votes that reached it. */
  ghost predicate Responsive(c: Config, nodes: seq<PeerNode>, sent: set<VoteMsg>, states: seq<System>, events: seq<Event>)
    reads nodes, States(nodes)
  {
    forall p: nat | p < |nodes| && c.Honest(p) ::
      && |nodes[p].committedMsgs| == |Executions(c, states, events, p, |events|)|
      && var voters := Voters(c, states, events, p, PrepareMsg, |events|);
         (exists v :: v in sent && v.nodeID == p && v.msgType.CommitMsg?) <==>
           nodes[p].currentState != null && nodes[p].currentState.reqMsg.Some? && voters != {} && |voters| >= 2 * F
  }

  lemma PlayIsResponsive(c: Config, states: seq<System>, events: seq<Event>, nodes: seq<PeerNode>)
    requires c.Valid() && c.f == F && Run(c, states, events) && Play(c, nodes, states[|events|])
    ensures Responsive(c, nodes, states[|events|].sent, states, events)
  {
    hide Executions, Voters, Config.Valid, Next;
    forall p: nat | p < |nodes| && c.Honest(p)
      ensures |nodes[p].committedMsgs| == |Executions(c, states, events, p, |events|)|
      ensures var voters := Voters(c, states, events, p, PrepareMsg, |events|);
        (exists v :: v in states[|events|].sent && v.nodeID == p && v.msgType.CommitMsg?) <==>
          nodes[p].currentState != null && nodes[p].currentState.reqMsg.Some? && voters != {} && |voters| >= 2 * F
    {
      ExecutesExactly(c, states, events, p, |events|);
      CommitsExactly(c, states, events, p, |events|);
    }
  }

  /** Four node objects, one of which may be dead or lying, through any run of the system: they take
      every step of the honest nodes, cast the votes it says, never disagree on what they executed, and vote
      and execute whenever the votes that reached them ask for it. */
  method FourNodes(c: Config, ghost states: seq<System>, events: seq<Event>) returns (nodes: seq<PeerNode>, sent: set<VoteMsg>)
    requires c.Valid() && c.f == F && Run(c, states, events)
    ensures Play(c, nodes, states[|events|]) && sent == states[|events|].sent && Consistent(c, nodes)
    ensures Responsive(c, nodes, sent, states, events)
  {
    hide Next, Consistent, Responsive, Play, Init, Config.Valid;
    nodes := MakeNodes(c);
    sent := {};
    NothingSent(c);
    for i := 0 to |events|
      invariant fresh(nodes) && fresh(States(nodes))
      invariant Play(c, nodes, states[i]) && sent == states[i].sent
    {
      sent := Deliver(c, nodes, states[i], sent, events[i]);
      assert states[i + 1] == Next(c, states[i], events[i]);
    }
    PlayIsConsistent(c, states, events, |events|, nodes);
    PlayIsResponsive(c, states, events, nodes);
  }

  method MakeNodes(c: Config) returns (nodes: seq<PeerNode>)
    requires c.f == F
    ensures Play(c, nodes, Init(c)) && fresh(nodes) && States(nodes) == {}
  {
    var a := new PeerNode(0, c.viewID);
    var b := new PeerNode(1, c.viewID);
    var d := new PeerNode(2, c.viewID);
    var e := new PeerNode(3, c.viewID);
    nodes := [a, b, d, e];
  }

  lemma NothingSent(c: Config)
    ensures Init(c).sent == {}
  {
  }

  method Deliver(c: Config, nodes: seq<PeerNode>, ghost y: System, sent: set<VoteMsg>, e: Event) returns (sent': set<VoteMsg>)
    requires c.f == F && Play(c, nodes, y) && sent == y.sent && Possible(c, y, e)
    modifies nodes, States(nodes)
    ensures Play(c, nodes, Next(c, y, e)) && sent' == Next(c, y, e).sent && fresh(States(nodes) - old(States(nodes)))
  {
    StepLeavesOthers(c, y, e);
    hide Next;
    var out := nodes[e.p].ResolveMsg(c, y, e);
    sent' := Broadcast(sent, out);
  }

  lemma StepLeavesOthers(c: Config, y: System, e: Event)
    requires Possible(c, y, e)
    ensures e.p < |y.nodes| == |Next(c, y, e).nodes| && forall q :: 0 <= q < |y.nodes| && q != e.p ==> Next(c, y, e).nodes[q] == y.nodes[q]
  {
  }
}

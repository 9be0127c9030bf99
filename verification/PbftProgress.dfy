/** What honest nodes do, counted by the votes that reach them: when they cast their commit vote, when and how
    often they execute, that they can, and what stops them. */
module PbftProgress {
  import opened Quorums
  import opened Pbft

  // ----- votes that count

  /** Event k brings node p a vote of type t for the request it has. */
  ghost predicate Arrives(c: Config, states: seq<System>, events: seq<Event>, p: nat, t: MsgType, k: nat) {
    && k < |events| && k < |states| && p < |states[k].nodes|
    && events[k].Vote? && events[k].p == p && events[k].v.msgType == t && states[k].nodes[p].currentState.Some?
    && var s, v := states[k].nodes[p].currentState.value, events[k].v;
       v.viewID == s.viewID && (s.lastSequenceID != -1 ==> s.lastSequenceID < v.sequenceID) && v.digest == c.digest(s.reqMsg)
  }

  /** The nodes whose votes of type t reached p in the first n events. */
  ghost function Voters(c: Config, states: seq<System>, events: seq<Event>, p: nat, t: MsgType, n: nat): set<nat> {
    set k: nat | k < n && Arrives(c, states, events, p, t, k) :: events[k].v.nodeID
  }

  lemma VotersStep(c: Config, states: seq<System>, events: seq<Event>, p: nat, t: MsgType, n: nat)
    ensures Voters(c, states, events, p, t, n + 1) ==
      Voters(c, states, events, p, t, n) + if Arrives(c, states, events, p, t, n) then {events[n].v.nodeID} else {}
  {
    hide Arrives;
  }

  ghost predicate HasRequest(n: Node) {
    n.currentState.Some? && n.currentState.value.reqMsg.Some?
  }

  ghost predicate CastCommit(y: System, p: nat) {
    exists v :: v in y.sent && v.nodeID == p && v.msgType.CommitMsg?
  }

  /** Event k makes p execute: a commit vote, with prepare votes of 2f and commit votes of 2f others by then. */
  ghost predicate Executes(c: Config, states: seq<System>, events: seq<Event>, p: nat, k: nat) {
    && Arrives(c, states, events, p, CommitMsg, k) && HasRequest(states[k].nodes[p])
    && |Voters(c, states, events, p, PrepareMsg, k)| >= 2 * c.f && |Voters(c, states, events, p, CommitMsg, k + 1)| >= 2 * c.f
  }

  ghost function Executions(c: Config, states: seq<System>, events: seq<Event>, p: nat, n: nat): set<nat> {
    set k: nat | k < n && Executes(c, states, events, p, k)
  }

  lemma ExecutionsStep(c: Config, states: seq<System>, events: seq<Event>, p: nat, n: nat)
    ensures Executions(c, states, events, p, n + 1) ==
      Executions(c, states, events, p, n) + if Executes(c, states, events, p, n) then {n} else {}
    ensures n !in Executions(c, states, events, p, n)
  {
    hide Executes;
  }

  /** What the node has is what reached it. */
  ghost predicate Tally(c: Config, y: System, p: nat, prepares: set<nat>, commits: set<nat>, done: nat)
    requires p < |y.nodes|
  {
    var nd := y.nodes[p];
    && (nd.currentState.None? ==> prepares == commits == {})
    && (nd.currentState.Some? ==> nd.currentState.value.prepareMsgs.Keys == prepares && nd.currentState.value.commitMsgs.Keys == commits)
    && (CastCommit(y, p) <==> HasRequest(nd) && prepares != {} && |prepares| >= 2 * c.f)
    && |nd.committedMsgs| == done
  }

  ghost predicate Tallied(c: Config, states: seq<System>, events: seq<Event>, p: nat, n: nat)
    requires n < |states| && p < |states[n].nodes|
  {
    Tally(c, states[n], p, Voters(c, states, events, p, PrepareMsg, n), Voters(c, states, events, p, CommitMsg, n),
          |Executions(c, states, events, p, n)|)
  }

  /** A step of another node. */
  lemma OtherTally(c: Config, y: System, e: Event, p: nat)
    requires Possible(c, y, e) && p != e.p && p < |y.nodes|
    ensures p < |Next(c, y, e).nodes| && Next(c, y, e).nodes[p] == y.nodes[p] && (CastCommit(Next(c, y, e), p) <==> CastCommit(y, p))
  {
    forall v | v in Next(c, y, e).sent && v !in y.sent ensures v.nodeID == e.p {}
    assert y.sent <= Next(c, y, e).sent;
  }

  /** A request or a pre-prepare. */
  lemma StartTally(c: Config, y: System, e: Event)
    requires Possible(c, y, e) && !e.Vote?
    ensures e.p < |Next(c, y, e).nodes|
    ensures var n, n' := y.nodes[e.p], Next(c, y, e).nodes[e.p];
      && n'.committedMsgs == n.committedMsgs && (CastCommit(Next(c, y, e), e.p) <==> CastCommit(y, e.p))
      && (n.currentState.Some? ==> n' == n)
      && (n.currentState.None? ==> n'.currentState.Some? && n'.currentState.value.prepareMsgs == n'.currentState.value.commitMsgs == map[])
  {
    assert y.sent <= Next(c, y, e).sent;
  }

  lemma PrepareTally(c: Config, y: System, p: nat, v: VoteMsg)
    requires Possible(c, y, Vote(p, v)) && v.msgType.PrepareMsg?
    ensures p < |Next(c, y, Vote(p, v)).nodes|
    ensures var n, n' := y.nodes[p], Next(c, y, Vote(p, v)).nodes[p]; var s := n.currentState.value;
      && n'.currentState.Some? && n'.committedMsgs == n.committedMsgs
      && n'.currentState.value.reqMsg == s.reqMsg && n'.currentState.value.commitMsgs == s.commitMsgs
      && if VerifyMsg(c.digest, s, v.viewID, v.sequenceID, v.digest)
         then n'.currentState.value.prepareMsgs == s.prepareMsgs[v.nodeID := v]
              && (CastCommit(Next(c, y, Vote(p, v)), p) <==>
                    CastCommit(y, p) || (s.reqMsg.Some? && |s.prepareMsgs[v.nodeID := v]| >= 2 * c.f))
         else n' == n && (CastCommit(Next(c, y, Vote(p, v)), p) <==> CastCommit(y, p))
  {
    var y', s := Next(c, y, Vote(p, v)), y.nodes[p].currentState.value;
    assert y.sent <= y'.sent;
    if VerifyMsg(c.digest, s, v.viewID, v.sequenceID, v.digest) && s.reqMsg.Some? && |s.prepareMsgs[v.nodeID := v]| >= 2 * c.f {
      assert VoteMsg(s.viewID, v.sequenceID, v.digest, p, CommitMsg) in y'.sent;
    }
  }

  lemma CommitTally(c: Config, y: System, p: nat, v: VoteMsg)
    requires Possible(c, y, Vote(p, v)) && v.msgType.CommitMsg?
    ensures p < |Next(c, y, Vote(p, v)).nodes|
    ensures var n, n' := y.nodes[p], Next(c, y, Vote(p, v)).nodes[p]; var s := n.currentState.value;
      && n'.currentState.Some? && Next(c, y, Vote(p, v)).sent == y.sent
      && (CastCommit(Next(c, y, Vote(p, v)), p) <==> CastCommit(y, p))
      && n'.currentState.value.reqMsg == s.reqMsg && n'.currentState.value.prepareMsgs == s.prepareMsgs
      && if VerifyMsg(c.digest, s, v.viewID, v.sequenceID, v.digest)
         then n'.currentState.value.commitMsgs == s.commitMsgs[v.nodeID := v]
              && n'.committedMsgs == n.committedMsgs + (if s.reqMsg.Some? && |s.prepareMsgs| >= 2 * c.f && |s.commitMsgs[v.nodeID := v]| >= 2 * c.f
                                                        then [s.reqMsg.value] else [])
         else n' == n
  {
  }

  lemma ArrivesExactly(c: Config, states: seq<System>, events: seq<Event>, p: nat, t: MsgType, n: nat)
    requires c.Valid() && Run(c, states, events) && n < |events| && p < |states[n].nodes|
    ensures Arrives(c, states, events, p, t, n) <==>
      && events[n].Vote? && events[n].p == p && events[n].v.msgType == t && states[n].nodes[p].currentState.Some?
      && VerifyMsg(c.digest, states[n].nodes[p].currentState.value, events[n].v.viewID, events[n].v.sequenceID, events[n].v.digest)
  {
  }

  lemma KeysSize(votes: map<nat, VoteMsg>)
    ensures |votes| == |votes.Keys|
  {
  }

  lemma PrepareKeepsTally(c: Config, y: System, p: nat, v: VoteMsg, prepares: set<nat>, commits: set<nat>, done: nat)
    requires Possible(c, y, Vote(p, v)) && v.msgType.PrepareMsg? && Tally(c, y, p, prepares, commits, done)
    ensures var fits := VerifyMsg(c.digest, y.nodes[p].currentState.value, v.viewID, v.sequenceID, v.digest);
      p < |Next(c, y, Vote(p, v)).nodes|
      && Tally(c, Next(c, y, Vote(p, v)), p, prepares + (if fits then {v.nodeID} else {}), commits, done)
  {
    hide Next, VerifyMsg, CastCommit;
    var s := y.nodes[p].currentState.value;
    PrepareTally(c, y, p, v);
    KeysSize(s.prepareMsgs[v.nodeID := v]);
    MoreVotes(s.prepareMsgs, v);
    KeysSize(s.prepareMsgs);
    assert s.prepareMsgs[v.nodeID := v].Keys == prepares + {v.nodeID};
  }

  lemma CommitKeepsTally(c: Config, y: System, p: nat, v: VoteMsg, prepares: set<nat>, commits: set<nat>, done: nat)
    requires Possible(c, y, Vote(p, v)) && v.msgType.CommitMsg? && Tally(c, y, p, prepares, commits, done)
    ensures var fits := VerifyMsg(c.digest, y.nodes[p].currentState.value, v.viewID, v.sequenceID, v.digest);
      var commits' := commits + if fits then {v.nodeID} else {};
      var executes := fits && HasRequest(y.nodes[p]) && |prepares| >= 2 * c.f && |commits'| >= 2 * c.f;
      p < |Next(c, y, Vote(p, v)).nodes|
      && Tally(c, Next(c, y, Vote(p, v)), p, prepares, commits', done + if executes then 1 else 0)
  {
    hide Next, VerifyMsg, CastCommit;
    var s := y.nodes[p].currentState.value;
    CommitTally(c, y, p, v);
    KeysSize(s.commitMsgs[v.nodeID := v]);
    KeysSize(s.prepareMsgs);
    assert s.commitMsgs[v.nodeID := v].Keys == commits + {v.nodeID};
  }

  lemma TalliedStep(c: Config, states: seq<System>, events: seq<Event>, p: nat, n: nat)
    requires c.Valid() && Run(c, states, events) && n < |events| && c.Honest(p)
    requires |states[n].nodes| == |states[n + 1].nodes| == c.Size() && Tallied(c, states, events, p, n)
    ensures Tallied(c, states, events, p, n + 1)
  {
    hide Arrives, Voters, Executions, VerifyMsg, CastCommit, Next, Tally;
    var e, y, y' := events[n], states[n], states[n + 1];
    var prepares, commits := Voters(c, states, events, p, PrepareMsg, n), Voters(c, states, events, p, CommitMsg, n);
    var done := |Executions(c, states, events, p, n)|;
    RunAt(c, states, events, n);
    VotersStep(c, states, events, p, PrepareMsg, n);
    VotersStep(c, states, events, p, CommitMsg, n);
    ExecutionsStep(c, states, events, p, n);
    ArrivesExactly(c, states, events, p, PrepareMsg, n);
    ArrivesExactly(c, states, events, p, CommitMsg, n);
    if e.p != p || !e.Vote? {
      QuietKeepsTally(c, y, e, p, prepares, commits, done);
    } else if e.v.msgType.PrepareMsg? {
      PrepareKeepsTally(c, y, p, e.v, prepares, commits, done);
    } else {
      CommitKeepsTally(c, y, p, e.v, prepares, commits, done);
    }
  }

  lemma QuietKeepsTally(c: Config, y: System, e: Event, p: nat, prepares: set<nat>, commits: set<nat>, done: nat)
    requires Possible(c, y, e) && (e.p != p || !e.Vote?) && p < |y.nodes| && Tally(c, y, p, prepares, commits, done)
    ensures p < |Next(c, y, e).nodes| && Tally(c, Next(c, y, e), p, prepares, commits, done)
  {
    hide Next, CastCommit;
    if e.p != p { OtherTally(c, y, e, p); } else { StartTally(c, y, e); }
  }

  lemma RunAt(c: Config, states: seq<System>, events: seq<Event>, n: nat)
    requires Run(c, states, events) && n < |events|
    ensures Possible(c, states[n], events[n]) && states[n + 1] == Next(c, states[n], events[n])
  {
  }

  lemma {:induction false} TalliedAlways(c: Config, states: seq<System>, events: seq<Event>, p: nat, n: nat)
    requires c.Valid() && Run(c, states, events) && n <= |events| && c.Honest(p)
    ensures |states[n].nodes| == c.Size() && Tallied(c, states, events, p, n)
  {
    hide Run, Next;
    RunKeeps(c, states, events, n);
    if n == 0 {
      StartsTallied(c, states, events, p);
    } else {
      TalliedAlways(c, states, events, p, n - 1);
      TalliedStep(c, states, events, p, n - 1);
    }
  }

  lemma StartsTallied(c: Config, states: seq<System>, events: seq<Event>, p: nat)
    requires Run(c, states, events) && c.Honest(p)
    ensures |states[0].nodes| == c.Size() && Tallied(c, states, events, p, 0)
  {
    assert Voters(c, states, events, p, PrepareMsg, 0) == Voters(c, states, events, p, CommitMsg, 0) == {};
    assert Executions(c, states, events, p, 0) == {};
  }

  /** An honest node has cast its commit vote exactly when it has a request and prepare votes for it of 2f other
      nodes have reached it. */
  lemma CommitsExactly(c: Config, states: seq<System>, events: seq<Event>, p: nat, n: nat)
    requires c.Valid() && Run(c, states, events) && n <= |events| && c.Honest(p)
    ensures |states[n].nodes| == c.Size()
    ensures var voters := Voters(c, states, events, p, PrepareMsg, n);
      && p !in voters && voters <= Below(c.Size())
      && (CastCommit(states[n], p) <==> HasRequest(states[n].nodes[p]) && voters != {} && |voters| >= 2 * c.f)
  {
    TalliedAlways(c, states, events, p, n);
    VotersAreOthers(c, states, events, p, PrepareMsg, n);
  }

  lemma VotersAreOthers(c: Config, states: seq<System>, events: seq<Event>, p: nat, t: MsgType, n: nat)
    requires Run(c, states, events) && n <= |events|
    ensures p !in Voters(c, states, events, p, t, n) && Voters(c, states, events, p, t, n) <= Below(c.Size())
  {
    forall k: nat | k < n && Arrives(c, states, events, p, t, k)
      ensures events[k].v.nodeID != p && events[k].v.nodeID < c.Size()
    {
      RunAt(c, states, events, k);
    }
  }

  /** It has executed its request once for every commit vote that reached it when, with that vote, prepare
      votes and commit votes of 2f others had: at all exactly when there was one, and again with each further. */
  lemma ExecutesExactly(c: Config, states: seq<System>, events: seq<Event>, p: nat, n: nat)
    requires c.Valid() && Run(c, states, events) && n <= |events| && c.Honest(p)
    ensures |states[n].nodes| == c.Size()
    ensures var done := states[n].nodes[p].committedMsgs;
      && |done| == |Executions(c, states, events, p, n)|
      && (done != [] <==> exists k: nat :: k < n && Executes(c, states, events, p, k))
      && forall r :: r in done ==> HasRequest(states[n].nodes[p]) && r == states[n].nodes[p].currentState.value.reqMsg.value
  {
    hide Executes, Next;
    TalliedAlways(c, states, events, p, n);
    RunKeeps(c, states, events, n);
    assert NodeOk(c, states[n], p);
    var ks := Executions(c, states, events, p, n);
    if ks != {} {
      var k :| k in ks;
      assert Executes(c, states, events, p, k);
    } else {
      forall k: nat | k < n ensures !Executes(c, states, events, p, k) { assert k !in ks; }
    }
  }

  /** A reply is sent exactly when the node executes; it is to the client and for the request it executed. */
  lemma RepliesExactly(c: Config, y: System, p: nat, v: VoteMsg)
    requires Possible(c, y, Vote(p, v)) && v.msgType.CommitMsg?
    ensures var n, reply := y.nodes[p], GetCommit(c.digest, c.f, y.nodes[p], v, p).1; var n' := Next(c, y, Vote(p, v)).nodes[p];
      && (reply.Some? <==> n'.committedMsgs != n.committedMsgs)
      && (reply.Some? ==> HasRequest(n))
      && (reply.Some? ==> var r := n.currentState.value.reqMsg.value;
            n'.committedMsgs == n.committedMsgs + [r]
            && reply.value == ReplyMsg(n.currentState.value.viewID, r.timestamp, r.clientID, "Executed", p))
  {
  }

  /** A request is given the least number that is not before the clock and after the last one executed. */
  lemma NumbersFresh(last: int, now: int)
    ensures var id := NextSequenceID(last, now); IsFree(last, now, id) && forall x :: IsFree(last, now, x) ==> id <= x
  {
  }

  predicate IsFree(last: int, now: int, id: int) { now <= id && (last != -1 ==> last < id) }

  // ----- what stops a node

  /** A node that took the client's request itself, as the primary does, never casts a prepare vote. */
  ghost predicate NoPrepareFrom(y: System, q: nat) {
    forall v :: v in y.sent && v.nodeID == q ==> v.msgType.CommitMsg?
  }

  lemma PrimaryStaysSilent(c: Config, y: System, e: Event, q: nat)
    requires Possible(c, y, e) && q < |y.nodes| && y.nodes[q].currentState.Some? && NoPrepareFrom(y, q)
    ensures var y' := Next(c, y, e); q < |y'.nodes| && y'.nodes[q].currentState.Some? && NoPrepareFrom(y', q)
  {
  }

  /** The primary of a run is silent in its first phase for ever. */
  lemma {:induction false} PrimaryNeverPrepares(c: Config, states: seq<System>, events: seq<Event>, q: nat, k: nat, n: nat)
    requires c.Valid() && Run(c, states, events) && k < n <= |events| && c.Honest(q)
    requires |states[k].nodes| == c.Size() && events[k].Request? && events[k].p == q && states[k].nodes[q].currentState.None?
    ensures |states[n].nodes| == c.Size() && states[n].nodes[q].currentState.Some? && NoPrepareFrom(states[n], q)
    decreases n
  {
    hide Next, Inv;
    RunAt(c, states, events, n - 1);
    RunKeeps(c, states, events, n);
    if n == k + 1 {
      RunKeeps(c, states, events, k);
      RequestTaken(c, states[k], events[k]);
    } else {
      PrimaryNeverPrepares(c, states, events, q, k, n - 1);
      PrimaryStaysSilent(c, states[n - 1], events[n - 1], q);
    }
  }

  lemma RequestTaken(c: Config, y: System, e: Event)
    requires Inv(c, y) && Possible(c, y, e) && e.Request? && y.nodes[e.p].currentState.None?
    ensures Next(c, y, e).nodes[e.p].currentState.Some? && NoPrepareFrom(Next(c, y, e), e.p)
  {
    assert forall v :: v in y.sent && v.nodeID == e.p ==> SentOk(c, y.nodes[e.p], v);
  }

  /** f + 1 others whose prepare votes do not reach a node keep it from ever casting its commit vote or
      executing. */
  lemma SilentStop(c: Config, states: seq<System>, events: seq<Event>, p: nat, silent: set<nat>, n: nat)
    requires c.Valid() && Run(c, states, events) && n <= |events| && c.Honest(p)
    requires silent <= Below(c.Size()) && p !in silent && |silent| >= c.f + 1
    requires forall k: nat :: k < n && Arrives(c, states, events, p, PrepareMsg, k) ==> events[k].v.nodeID !in silent
    ensures |states[n].nodes| == c.Size() && !CastCommit(states[n], p) && states[n].nodes[p].committedMsgs == []
  {
    hide Run, Arrives;
    CommitsExactly(c, states, events, p, n);
    ExecutesExactly(c, states, events, p, n);
    FewVoters(c, states, events, p, silent, n);
    forall k: nat | k < n ensures !Executes(c, states, events, p, k) { FewVoters(c, states, events, p, silent, k); }
  }

  /** With the primary honest, f silent nodes are enough: whatever else happens, no other node to which their
      prepare votes do not come ever casts its commit vote or executes. */
  lemma ReplicasStop(c: Config, states: seq<System>, events: seq<Event>, p: nat, primary: nat, silent: set<nat>, k: nat, n: nat)
    requires c.Valid() && Run(c, states, events) && n <= |events| && c.Honest(p) && c.Honest(primary) && p != primary
    requires k < |events| && |states[k].nodes| == c.Size()
    requires events[k].Request? && events[k].p == primary && states[k].nodes[primary].currentState.None?
    requires silent <= Below(c.Size()) && p !in silent && primary !in silent && |silent| >= c.f
    requires forall i: nat :: i < n && Arrives(c, states, events, p, PrepareMsg, i) ==> events[i].v.nodeID !in silent
    ensures |states[n].nodes| == c.Size() && !CastCommit(states[n], p) && states[n].nodes[p].committedMsgs == []
  {
    hide Run, Next, Inv;
    forall i: nat | i < n && Arrives(c, states, events, p, PrepareMsg, i) ensures events[i].v.nodeID !in silent + {primary} {
      if events[i].v.nodeID == primary {
        RunAt(c, states, events, i);
        NoPrepareOfPrimary(c, states, events, primary, k, i);
      }
    }
    SilentStop(c, states, events, p, silent + {primary}, n);
  }

  lemma NoPrepareOfPrimary(c: Config, states: seq<System>, events: seq<Event>, q: nat, k: nat, i: nat)
    requires c.Valid() && Run(c, states, events) && k < |events| && i < |events| && c.Honest(q) && |states[k].nodes| == c.Size()
    requires events[k].Request? && events[k].p == q && states[k].nodes[q].currentState.None?
    ensures NoPrepareFrom(states[i], q)
  {
    hide Next;
    if i > k {
      PrimaryNeverPrepares(c, states, events, q, k, i);
    } else {
      RunKeeps(c, states, events, i);
      forall v | v in states[i].sent ensures v.nodeID != q {
        if v.nodeID == q {
          assert SentOk(c, states[i].nodes[q], v);
          StandsForEver(c, states, events, i, k, q, v.digest);
        }
      }
    }
  }

  lemma FewVoters(c: Config, states: seq<System>, events: seq<Event>, p: nat, silent: set<nat>, n: nat)
    requires Run(c, states, events) && n <= |events| && c.Honest(p)
    requires silent <= Below(c.Size()) && p !in silent && |silent| >= c.f + 1
    requires forall k: nat :: k < n && Arrives(c, states, events, p, PrepareMsg, k) ==> events[k].v.nodeID !in silent
    ensures |Voters(c, states, events, p, PrepareMsg, n)| < 2 * c.f
  {
    hide Run, Arrives;
    var voters := Voters(c, states, events, p, PrepareMsg, n);
    VotersAreOthers(c, states, events, p, PrepareMsg, n);
    assert voters !! silent && voters !! {p};
    SubsetSize(voters + silent + {p}, Below(c.Size()));
    assert |voters + silent + {p}| == |voters| + |silent| + 1;
  }

  // ----- that they can: a run in which every node executes

  function RequestOf(request: RequestMsg, now: int): Option<RequestMsg> { Some(request.(sequenceID := now)) }

  /** Node q's vote for the request numbered `now`. */
  function VoteOf(c: Config, request: RequestMsg, now: int, q: nat, t: MsgType): VoteMsg {
    VoteMsg(c.viewID, now, c.digest(RequestOf(request, now)), q, t)
  }

  /** The node has the request, and votes of just these others. */
  ghost predicate Ready(c: Config, request: RequestMsg, now: int, n: Node, prepares: set<nat>, commits: set<nat>, stage: Stage) {
    && n.currentState.Some?
    && var s := n.currentState.value;
       && s.viewID == c.viewID && s.lastSequenceID == -1 && s.reqMsg == RequestOf(request, now)
       && s.prepareMsgs.Keys == prepares && s.commitMsgs.Keys == commits && s.currentStage == stage
  }

  /** The program hands a node prepare votes only while it is pre-prepared and commit votes only while it is
      prepared; others wait in its buffers. */
  ghost predicate InTime(y: System, e: Event) {
    e.Vote? ==>
      e.p < |y.nodes| && y.nodes[e.p].currentState.Some?
      && y.nodes[e.p].currentState.value.currentStage == if e.v.msgType.PrepareMsg? then PrePrepared else Prepared
  }

  ghost predicate Routed(c: Config, states: seq<System>, events: seq<Event>) {
    Run(c, states, events) && |states| == |events| + 1 && forall k :: 0 <= k < |events| ==> InTime(states[k], events[k])
  }

  lemma Extend(c: Config, states: seq<System>, events: seq<Event>, e: Event) returns (states': seq<System>, events': seq<Event>)
    requires Routed(c, states, events) && Possible(c, states[|events|], e) && InTime(states[|events|], e)
    ensures Routed(c, states', events') && |states'| == |events'| + 1 && events' == events + [e] && states'[|events'|] == Next(c, states[|events|], e)
  {
    hide Next, InTime;
    states', events' := states + [Next(c, states[|events|], e)], events + [e];
    forall i | 0 <= i < |events'|
      ensures Possible(c, states'[i], events'[i]) && states'[i + 1] == Next(c, states'[i], events'[i]) && InTime(states'[i], events'[i])
    {
      if i < |events| { RunAt(c, states, events, i); }
    }
  }

  lemma RoutedSize(c: Config, states: seq<System>, events: seq<Event>)
    requires Routed(c, states, events)
    ensures |states| == |events| + 1
  {
  }

  lemma GivePrepare(c: Config, request: RequestMsg, now: int, y: System, p: nat, q: nat, prepares: set<nat>)
    requires |y.nodes| == c.Size() && c.Honest(p) && q != p && q < c.Size()
    requires VoteOf(c, request, now, q, PrepareMsg) in y.sent && Ready(c, request, now, y.nodes[p], prepares, {}, PrePrepared)
    ensures var e := Vote(p, VoteOf(c, request, now, q, PrepareMsg)); Possible(c, y, e) && InTime(y, e)
    ensures var y' := Next(c, y, Vote(p, VoteOf(c, request, now, q, PrepareMsg))); var enough := |prepares + {q}| >= 2 * c.f;
      && OnlyNode(y, y', p) && y'.nodes[p].committedMsgs == y.nodes[p].committedMsgs
      && Ready(c, request, now, y'.nodes[p], prepares + {q}, {}, if enough then Prepared else PrePrepared)
      && (enough ==> VoteOf(c, request, now, p, CommitMsg) in y'.sent)
  {
    var s, v := y.nodes[p].currentState.value, VoteOf(c, request, now, q, PrepareMsg);
    KeysSize(s.prepareMsgs[q := v]);
    assert s.prepareMsgs[q := v].Keys == prepares + {q};
  }

  lemma GiveCommit(c: Config, request: RequestMsg, now: int, y: System, p: nat, q: nat, prepares: set<nat>, commits: set<nat>)
    requires |y.nodes| == c.Size() && c.Honest(p) && q != p && q < c.Size() && |prepares| >= 2 * c.f
    requires VoteOf(c, request, now, q, CommitMsg) in y.sent && Ready(c, request, now, y.nodes[p], prepares, commits, Prepared)
    ensures var e := Vote(p, VoteOf(c, request, now, q, CommitMsg)); Possible(c, y, e) && InTime(y, e)
    ensures var y' := Next(c, y, Vote(p, VoteOf(c, request, now, q, CommitMsg))); var enough := |commits + {q}| >= 2 * c.f;
      && OnlyNode(y, y', p)
      && Ready(c, request, now, y'.nodes[p], prepares, commits + {q}, if enough then Committed else Prepared)
      && y'.nodes[p].committedMsgs == y.nodes[p].committedMsgs + if enough then [RequestOf(request, now).value] else []
  {
    var s, v := y.nodes[p].currentState.value, VoteOf(c, request, now, q, CommitMsg);
    KeysSize(s.commitMsgs[q := v]);
    KeysSize(s.prepareMsgs);
    assert s.commitMsgs[q := v].Keys == commits + {q};
  }

  ghost predicate OnlyNode(y: System, y': System, p: nat) {
    && |y'.nodes| == |y.nodes| && y.sent <= y'.sent
    && forall x :: 0 <= x < |y.nodes| && x != p ==> y'.nodes[x] == y.nodes[x]
  }

  /** How many nodes numbered `from` to n - 1 there are besides p. */
  function CountOthers(from: nat, n: nat, p: nat): nat {
    if n == 0 then 0 else CountOthers(from, n - 1, p) + if from <= n - 1 && n - 1 != p then 1 else 0
  }

  lemma {:induction false} OthersAre(from: nat, n: nat, p: nat)
    ensures CountOthers(from, n, p) + from + (if p < n then 1 else 0) >= n
  {
    if n > 0 { OthersAre(from, n - 1, p); }
  }

  /** A moment of the run: which nodes have the request only, and which are prepared. */
  ghost predicate AllWaiting(c: Config, request: RequestMsg, now: int, y: System, from: nat, to: nat) {
    |y.nodes| == c.Size() && forall x: nat :: from <= x < to <= c.Size() ==> Ready(c, request, now, y.nodes[x], {}, {}, PrePrepared)
  }

  ghost predicate IsReady(c: Config, request: RequestMsg, now: int, n: Node) {
    && n.committedMsgs == []
    && exists prepares :: |prepares| >= 2 * c.f && Ready(c, request, now, n, prepares, {}, Prepared)
  }

  ghost predicate AllPrepared(c: Config, request: RequestMsg, now: int, y: System, from: nat, to: nat) {
    |y.nodes| == c.Size() && forall x: nat :: from <= x < to <= c.Size() ==> IsReady(c, request, now, y.nodes[x])
  }

  ghost predicate AllCast(c: Config, request: RequestMsg, now: int, y: System, from: nat, to: nat, t: MsgType) {
    forall x: nat :: from <= x < to ==> VoteOf(c, request, now, x, t) in y.sent
  }

  ghost predicate AllDone(c: Config, request: RequestMsg, now: int, y: System, to: nat) {
    && |y.nodes| == c.Size()
    && forall x: nat :: x < to <= c.Size() ==> y.nodes[x].committedMsgs == [RequestOf(request, now).value]
  }

  lemma OnlyTwice(y0: System, y1: System, y2: System, p: nat)
    requires OnlyNode(y0, y1, p) && OnlyNode(y1, y2, p)
    ensures OnlyNode(y0, y2, p)
  {
  }

  lemma OnlySame(y: System, p: nat)
    ensures OnlyNode(y, y, p)
  {
  }

  lemma GivesPrepare(c: Config, request: RequestMsg, now: int, states: seq<System>, events: seq<Event>, p: nat, q: nat, got: set<nat>)
    returns (states': seq<System>, events': seq<Event>)
    requires Routed(c, states, events) && |states| == |events| + 1 && c.Honest(p) && |states[|events|].nodes| == c.Size()
    requires q != p && q < c.Size() && VoteOf(c, request, now, q, PrepareMsg) in states[|events|].sent
    requires Ready(c, request, now, states[|events|].nodes[p], got, {}, PrePrepared) && states[|events|].nodes[p].committedMsgs == []
    ensures Routed(c, states', events') && |states'| == |events'| + 1 && OnlyNode(states[|events|], states'[|events'|], p)
    ensures |states'[|events'|].nodes| == c.Size() && states'[|events'|].nodes[p].committedMsgs == []
    ensures var enough := |got + {q}| >= 2 * c.f;
      && Ready(c, request, now, states'[|events'|].nodes[p], got + {q}, {}, if enough then Prepared else PrePrepared)
      && (enough ==> VoteOf(c, request, now, p, CommitMsg) in states'[|events'|].sent)
  {
    hide Ready, Next, Possible, VoteOf, InTime, Run, Routed;
    GivePrepare(c, request, now, states[|events|], p, q, got);
    states', events' := Extend(c, states, events, Vote(p, VoteOf(c, request, now, q, PrepareMsg)));
  }

  lemma GivesCommit(c: Config, request: RequestMsg, now: int, states: seq<System>, events: seq<Event>, p: nat, q: nat,
                    prepares: set<nat>, got: set<nat>)
    returns (states': seq<System>, events': seq<Event>)
    requires Routed(c, states, events) && |states| == |events| + 1 && c.Honest(p) && |states[|events|].nodes| == c.Size()
    requires q != p && q < c.Size() && |prepares| >= 2 * c.f && VoteOf(c, request, now, q, CommitMsg) in states[|events|].sent
    requires Ready(c, request, now, states[|events|].nodes[p], prepares, got, Prepared)
    ensures Routed(c, states', events') && |states'| == |events'| + 1 && OnlyNode(states[|events|], states'[|events'|], p)
    ensures |states'[|events'|].nodes| == c.Size()
    ensures var enough := |got + {q}| >= 2 * c.f;
      && Ready(c, request, now, states'[|events'|].nodes[p], prepares, got + {q}, if enough then Committed else Prepared)
      && states'[|events'|].nodes[p].committedMsgs ==
           states[|events|].nodes[p].committedMsgs + if enough then [RequestOf(request, now).value] else []
  {
    hide Ready, Next, Possible, VoteOf, InTime, Run, Routed;
    GiveCommit(c, request, now, states[|events|], p, q, prepares, got);
    states', events' := Extend(c, states, events, Vote(p, VoteOf(c, request, now, q, CommitMsg)));
  }

  /** Node p hears prepare votes of the replicas until there are 2f. */
  lemma GivePrepares(c: Config, request: RequestMsg, now: int, states: seq<System>, events: seq<Event>, p: nat)
    returns (states': seq<System>, events': seq<Event>)
    requires Routed(c, states, events) && c.f > 0 && c.Honest(p) && |states[|events|].nodes| == c.Size()
    requires Ready(c, request, now, states[|events|].nodes[p], {}, {}, PrePrepared) && states[|events|].nodes[p].committedMsgs == []
    requires AllCast(c, request, now, states[|events|], 1, c.Size(), PrepareMsg)
    ensures Routed(c, states', events') && OnlyNode(states[|events|], states'[|events'|], p)
    ensures IsReady(c, request, now, states'[|events'|].nodes[p])
    ensures VoteOf(c, request, now, p, CommitMsg) in states'[|events'|].sent
  {
    hide Ready, Next, VoteOf, InTime, Run, Routed, Inv, OnlyNode;
    RoutedSize(c, states, events);
    states', events' := states, events;
    var got: set<nat> := {};
    ghost var y0 := states[|events|];
    OnlySame(y0, p);
    for q := 0 to c.Size()
      invariant Routed(c, states', events') && |states'| == |events'| + 1 && OnlyNode(y0, states'[|events'|], p)
      invariant |states'[|events'|].nodes| == c.Size() && states'[|events'|].nodes[p].committedMsgs == []
      invariant (forall x :: x in got ==> x < q) && |got| == Least(CountOthers(1, q, p), 2 * c.f)
      invariant Ready(c, request, now, states'[|events'|].nodes[p], got, {}, if |got| >= 2 * c.f then Prepared else PrePrepared)
      invariant |got| >= 2 * c.f ==> VoteOf(c, request, now, p, CommitMsg) in states'[|events'|].sent
    {
      if q >= 1 && q != p && |got| < 2 * c.f {
        ghost var y := states'[|events'|];
        SentStays(y0, y, p);
        states', events' := GivesPrepare(c, request, now, states', events', p, q, got);
        OnlyTwice(y0, y, states'[|events'|], p);
        got := got + {q};
      }
    }
    OthersAre(1, c.Size(), p);
    assert |got| >= 2 * c.f;
    assert Ready(c, request, now, states'[|events'|].nodes[p], got, {}, Prepared);
  }

  lemma SentStays(y: System, y': System, p: nat)
    requires OnlyNode(y, y', p)
    ensures y.sent <= y'.sent
  {
  }

  function Least(a: nat, b: nat): nat { if a <= b then a else b }

  /** Node p hears commit votes until there are 2f. */
  lemma GiveCommits(c: Config, request: RequestMsg, now: int, states: seq<System>, events: seq<Event>, p: nat)
    returns (states': seq<System>, events': seq<Event>)
    requires Routed(c, states, events) && c.f > 0 && c.Honest(p) && |states[|events|].nodes| == c.Size()
    requires IsReady(c, request, now, states[|events|].nodes[p])
    requires AllCast(c, request, now, states[|events|], 0, c.Size(), CommitMsg)
    ensures Routed(c, states', events') && OnlyNode(states[|events|], states'[|events'|], p)
    ensures states'[|events'|].nodes[p].committedMsgs == [RequestOf(request, now).value]
  {
    hide Ready, Next, VoteOf, InTime, Run, Routed, Inv, OnlyNode;
    RoutedSize(c, states, events);
    states', events' := states, events;
    var prepares :| |prepares| >= 2 * c.f && Ready(c, request, now, states[|events|].nodes[p], prepares, {}, Prepared);
    var got: set<nat> := {};
    ghost var y0 := states[|events|];
    OnlySame(y0, p);
    for q := 0 to c.Size()
      invariant Routed(c, states', events') && |states'| == |events'| + 1 && OnlyNode(y0, states'[|events'|], p)
      invariant |states'[|events'|].nodes| == c.Size()
      invariant (forall x :: x in got ==> x < q) && |got| == Least(CountOthers(0, q, p), 2 * c.f)
      invariant Ready(c, request, now, states'[|events'|].nodes[p], prepares, got, if |got| >= 2 * c.f then Committed else Prepared)
      invariant states'[|events'|].nodes[p].committedMsgs == if |got| >= 2 * c.f then [RequestOf(request, now).value] else []
    {
      if q != p && |got| < 2 * c.f {
        ghost var y := states'[|events'|];
        SentStays(y0, y, p);
        states', events' := GivesCommit(c, request, now, states', events', p, q, prepares, got);
        OnlyTwice(y0, y, states'[|events'|], p);
        got := got + {q};
      }
    }
    OthersAre(0, c.Size(), p);
  }

  function Announcement(c: Config, request: RequestMsg, now: int): PrePrepareMsg {
    PrePrepareMsg(c.viewID, now, c.digest(RequestOf(request, now)), RequestOf(request, now))
  }

  lemma TakeRequest(c: Config, request: RequestMsg, now: int, y: System)
    requires y == Init(c) && c.Honest(0)
    ensures Possible(c, y, Request(0, request, now)) && GetReq(c.digest, y.nodes[0], c.viewID, request, now).1 == Some(Announcement(c, request, now))
    ensures var y' := Next(c, y, Request(0, request, now));
      && OnlyNode(y, y', 0) && |y'.nodes| == c.Size() && y'.nodes[0].committedMsgs == []
      && Ready(c, request, now, y'.nodes[0], {}, {}, PrePrepared)
  {
  }

  lemma TakePrePrepare(c: Config, request: RequestMsg, now: int, y: System, p: nat)
    requires |y.nodes| == c.Size() && c.Honest(p) && y.nodes[p] == Node(None, [])
    ensures Possible(c, y, PrePrepareEvent(p, Announcement(c, request, now)))
    ensures var y' := Next(c, y, PrePrepareEvent(p, Announcement(c, request, now)));
      && OnlyNode(y, y', p) && y'.nodes[p].committedMsgs == [] && Ready(c, request, now, y'.nodes[p], {}, {}, PrePrepared)
      && VoteOf(c, request, now, p, PrepareMsg) in y'.sent
  {
  }

  /** The primary takes the request and what it announces reaches every replica. */
  lemma Announce(c: Config, request: RequestMsg, now: int) returns (states: seq<System>, events: seq<Event>)
    requires c.byzantine == {}
    ensures Routed(c, states, events) && AllWaiting(c, request, now, states[|events|], 0, c.Size())
    ensures forall x :: 0 <= x < c.Size() ==> states[|events|].nodes[x].committedMsgs == []
    ensures AllCast(c, request, now, states[|events|], 1, c.Size(), PrepareMsg)
  {
    hide Ready, Next, VoteOf, Announcement;
    TakeRequest(c, request, now, Init(c));
    states, events := [Init(c), Next(c, Init(c), Request(0, request, now))], [Request(0, request, now)];
    for p := 1 to c.Size()
      invariant Routed(c, states, events) && |states[|events|].nodes| == c.Size()
      invariant AllWaiting(c, request, now, states[|events|], 0, p) && AllCast(c, request, now, states[|events|], 1, p, PrepareMsg)
      invariant forall x :: 0 <= x < c.Size() ==> states[|events|].nodes[x].committedMsgs == []
      invariant forall x :: p <= x < c.Size() ==> states[|events|].nodes[x] == Node(None, [])
    {
      TakePrePrepare(c, request, now, states[|events|], p);
      states, events := Extend(c, states, events, PrePrepareEvent(p, Announcement(c, request, now)));
    }
  }

  /** With one fault to tolerate or more and nobody faulty, the primary's announcement of a client's request
      leads to a run, within what the program's buffers let through, in which every node executes it. */
  lemma EveryoneExecutes(c: Config, request: RequestMsg, now: int) returns (states: seq<System>, events: seq<Event>)
    requires c.byzantine == {} && c.f > 0
    ensures Routed(c, states, events) && |states[|events|].nodes| == c.Size()
    ensures forall p :: 0 <= p < c.Size() ==> states[|events|].nodes[p].committedMsgs == [RequestOf(request, now).value]
  {
    hide Ready, Next, VoteOf, IsReady, Possible, InTime;
    states, events := Announce(c, request, now);
    for p := 0 to c.Size()
      invariant Routed(c, states, events)
      invariant AllCast(c, request, now, states[|events|], 1, c.Size(), PrepareMsg) && AllCast(c, request, now, states[|events|], 0, p, CommitMsg)
      invariant AllPrepared(c, request, now, states[|events|], 0, p) && AllWaiting(c, request, now, states[|events|], p, c.Size())
      invariant forall x :: p <= x < c.Size() ==> states[|events|].nodes[x].committedMsgs == []
    {
      states, events := GivePrepares(c, request, now, states, events, p);
    }
    for p := 0 to c.Size()
      invariant Routed(c, states, events)
      invariant AllCast(c, request, now, states[|events|], 0, c.Size(), CommitMsg)
      invariant AllDone(c, request, now, states[|events|], p) && AllPrepared(c, request, now, states[|events|], p, c.Size())
    {
      states, events := GiveCommits(c, request, now, states, events, p);
    }
  }
}

/** What the cluster promises, in every state any run can reach. */
module RaftTheorems {
  import opened RaftServer
  import opened RaftProtocol
  import opened RaftInvariant
  import opened RaftSteps

  predicate Leads(s: State, i: nat, t: nat) {
    i < |s.nodes| && s.nodes[i].server.role == Leader && s.nodes[i].server.currentTerm == t
  }

  /** Whatever the network lets happen, no handler takes an index or a slice out of range. */
  lemma NeverPanics(s: State, step: Step)
    requires Reachable(s) && Possible(s, step)
    ensures Enabled(s, step)
  {
    ReachableInv(s);
    NoPanic(s, step);
  }

  lemma {:induction false} RunThen(s: State, steps: seq<Step>, t: State, step: Step)
    requires Run(s, steps, t) && Enabled(t, step)
    ensures Run(s, steps + [step], Apply(t, step))
    decreases |steps|
  {
    hide Apply, Enabled;
    if steps == [] {
      assert ([step])[1..] == [];
      assert Run(Apply(t, step), [], Apply(t, step));
    } else {
      RunThen(Apply(s, steps[0]), steps[1..], t, step);
      assert (steps + [step])[1..] == steps[1..] + [step];
    }
  }

  /** Every possible step of a reachable state can be taken and leads to another. */
  lemma Reach(s: State, step: Step)
    requires Reachable(s) && Possible(s, step)
    ensures Enabled(s, step) && Reachable(Apply(s, step))
  {
    hide Possible, Enabled, Apply, Run;
    NeverPanics(s, step);
    var s0, steps :| Init(s0) && Run(s0, steps, s);
    RunThen(s0, steps, s, step);
  }

  /** Only the acting server's node changes. */
  lemma OthersStay(s: State, step: Step)
    requires Enabled(s, step)
    ensures var s', i := Apply(s, step), Actor(step);
      && i < |s.nodes| == |s'.nodes| && s'.nextId == (if step.BeginElection? then s.nextId + 1 else s.nextId)
      && forall k :: 0 <= k < |s.nodes| && k != i ==> s'.nodes[k] == s.nodes[k]
  {
  }

  /** A run of what the network and the timers allow. That a step stays in range is not asked. */
  ghost predicate Runs(states: seq<State>, steps: seq<Step>) {
    && |states| == |steps| + 1 && Init(states[0])
    && forall k :: 0 <= k < |steps| ==>
         Possible(states[k], steps[k]) && (InRange(states[k], steps[k]) ==> states[k + 1] == Apply(states[k], steps[k]))
  }

  lemma {:induction false} RunsReach(states: seq<State>, steps: seq<Step>, k: nat)
    requires Runs(states, steps) && k <= |steps|
    ensures Reachable(states[k])
    ensures k < |steps| ==> Enabled(states[k], steps[k]) && states[k + 1] == Apply(states[k], steps[k])
  {
    hide Possible, InRange, Apply;
    if k > 0 {
      RunsReach(states, steps, k - 1);
      Reach(states[k - 1], steps[k - 1]);
    } else {
      assert Run(states[0], [], states[0]);
    }
    if k < |steps| { NeverPanics(states[k], steps[k]); }
  }

  /** Election safety: one term has one leader, now and at any later time. */
  lemma ElectionSafety(s: State, steps: seq<Step>, s': State, i: nat, j: nat, t: nat)
    requires Reachable(s) && Run(s, steps, s')
    requires Leads(s, i, t) && Leads(s', j, t)
    ensures i == j
  {
    hide Inv;
    ReachableInv(s);
    RunKeeps(s, steps, s');
    GetLead(s, i);
    GetLead(s', j);
  }

  /** Log matching: two logs with the same term at an index are the same up to it. */
  lemma LogMatching(s: State, i: nat, j: nat, k: nat)
    requires Reachable(s) && i < |s.nodes| && j < |s.nodes|
    requires k < |s.nodes[i].server.log| && k < |s.nodes[j].server.log|
    requires s.nodes[i].server.log[k].term == s.nodes[j].server.log[k].term
    ensures s.nodes[i].server.log[..k + 1] == s.nodes[j].server.log[..k + 1]
  {
    hide Inv;
    ReachableInv(s);
    GetElections(s, i);
    GetElections(s, j);
    SameTermAgree(s.hist.reigns, s.nodes[i].server.log, s.nodes[j].server.log, k);
  }

  /** Leader completeness: what a reign has committed is, from then on, in the log of every leader of
      its own or a later term. */
  lemma LeaderCompleteness(s: State, steps: seq<Step>, s': State, t: nat, j: nat, u: nat)
    requires Reachable(s) && Run(s, steps, s')
    requires t in s.hist.reigns && Leads(s', j, u) && t <= u
    ensures 0 <= s.hist.reigns[t].chosen <= |s.hist.reigns[t].log|
    ensures s.hist.reigns[t].log[..s.hist.reigns[t].chosen] <= s'.nodes[j].server.log
  {
    hide Inv, ReignsOk, ReignsGrow, Run;
    ReachableInv(s);
    RunKeeps(s, steps, s');
    GetReigns(s);
    GetReigns(s');
    GetLead(s', j);
    GetLeading(s', j);
    ChosenInLater(s.hist, |s.nodes|, s'.hist, |s'.nodes|, t, u);
  }

  lemma ChosenInLater(h: History, n: nat, h': History, n': nat, t: nat, u: nat)
    requires ReignsOk(h, n) && ReignsOk(h', n') && ReignsGrow(h.reigns, h'.reigns)
    requires t in h.reigns && u in h'.reigns && t <= u
    ensures 0 <= h.reigns[t].chosen <= |h.reigns[t].log|
    ensures h.reigns[t].log[..h.reigns[t].chosen] <= h'.reigns[u].log
  {
    hide Sound;
    assert ReignLogOk(h'.reigns, u) && ChosenOk(h, n, t);
    if t < u && h.reigns[t].chosen > 0 { Completeness(h', n', t, u); }
  }

  /** The server's committed prefix is part of what the reign of term t committed. */
  ghost predicate CommittedIn(r: Reign, t: nat, v: Server) {
    && t <= v.currentTerm && 0 <= v.commitIndex < |v.log|
    && v.commitIndex < r.chosen <= |r.log| && v.log[..v.commitIndex + 1] <= r.log[..r.chosen]
  }

  /** Whatever a server holds as committed was committed in a reign, no later than its term. */
  lemma CommittedByReign(s: State, i: nat)
    requires Reachable(s) && i < |s.nodes|
    ensures var v := s.nodes[i].server;
      && 0 <= v.commitIndex < |v.log|
      && (v.commitIndex > 0 ==> exists t :: t in s.hist.reigns && CommittedIn(s.hist.reigns[t], t, v))
  {
    hide Inv;
    ReachableInv(s);
    GetElections(s, i);
    GetReigns(s);
    var v, R := s.nodes[i].server, s.hist.reigns;
    if v.commitIndex > 0 {
      var t :| t in R && t <= v.currentTerm && v.commitIndex + 1 <= R[t].chosen && Agree(v.log, R[t].log, v.commitIndex + 1);
      assert ChosenOk(s.hist, |s.nodes|, t);
      assert CommittedIn(R[t], t, v);
    }
  }

  /** State machine safety: no two servers ever deliver different commands at one index. */
  lemma StateMachineSafety(s: State, d: Delivery, e: Delivery)
    requires Reachable(s) && d in s.hist.delivered && e in s.hist.delivered
    requires d.msg.index == e.msg.index
    ensures d.msg.command == e.msg.command
  {
    ReachableInv(s);
    var R, k := s.hist.reigns, d.msg.index;
    assert DeliveryOk(R, d.msg) && DeliveryOk(R, e.msg);
    var t :| t in R && 1 <= k < R[t].chosen && k < |R[t].log| && R[t].log[k].command == d.msg.command;
    var u :| u in R && 1 <= k < R[u].chosen && k < |R[u].log| && R[u].log[k].command == e.msg.command;
    ChosenAgree(s, t, u, k);
  }

  /** Two committed prefixes never disagree. */
  lemma ChosenAgree(s: State, t: nat, u: nat, k: nat)
    requires Inv(s) && t in s.hist.reigns && u in s.hist.reigns
    requires k < s.hist.reigns[t].chosen && k < s.hist.reigns[u].chosen
    ensures k < |s.hist.reigns[t].log| && k < |s.hist.reigns[u].log| && s.hist.reigns[t].log[k] == s.hist.reigns[u].log[k]
  {
    GetReigns(s);
    var h, n := s.hist, |s.nodes|;
    assert ReignLogOk(h.reigns, t) && ReignLogOk(h.reigns, u) && ChosenOk(h, n, t) && ChosenOk(h, n, u);
    if t < u {
      Completeness(h, n, t, u);
    } else if u < t {
      Completeness(h, n, u, t);
    }
  }

  /** The leader's match index bounds what it shares with a follower still in its term, whatever
      stale replies did to it; a follower that moved on may have lost the rest to a later reign. */
  lemma MatchIndexBound(s: State, i: nat, j: nat, t: nat)
    requires Reachable(s) && Leads(s, i, t) && j < |s.nodes| && j != i
    ensures var v, l, g := s.nodes[i].server, s.nodes[j].server.log, s.nodes[i].server.log;
      && |v.matchIndex| == |s.nodes| && 0 <= v.matchIndex[j] < |g|
      && (s.nodes[j].server.currentTerm <= t ==> Agree(l, g, v.matchIndex[j] + 1))
      && t in s.hist.reigns
      && (Agree(l, g, v.matchIndex[j] + 1) || Lost(s.hist.reigns, t, v.matchIndex[j] + 1, s.nodes[j].server.currentTerm + 1))
  {
    hide Inv;
    ReachableInv(s);
    GetLeading(s, i);
    GetElections(s, j);
    GetElections(s, i);
    GetNode(s, j);
    GetLog(s.hist, |s.nodes|, j, s.nodes[j]);
    var k := s.nodes[i].server.matchIndex[j] + 1;
    if k > 1 {
      assert Acked(s.hist.acks, j, t, k);
      assert Kept(s.hist.reigns, s.nodes[j].server.log, t, k, s.nodes[j].server.currentTerm + 1);
    }
  }

  /** A leader's record of a follower is right exactly when the follower's entry there has the leader's
      term: the test the follower itself makes on the next message. */
  lemma MatchExactly(s: State, i: nat, j: nat, t: nat)
    requires Reachable(s) && Leads(s, i, t) && j < |s.nodes| && j != i
    ensures var v, l, g := s.nodes[i].server, s.nodes[j].server.log, s.nodes[i].server.log;
      && |v.matchIndex| == |s.nodes| && 0 <= v.matchIndex[j] < |g|
      && (Agree(l, g, v.matchIndex[j] + 1) <==> TermAt(l, v.matchIndex[j]) == g[v.matchIndex[j]].term)
  {
    hide Inv, Sound;
    MatchIndexBound(s, i, j, t);
    ReachableInv(s);
    GetElections(s, i);
    GetElections(s, j);
    var m := s.nodes[i].server.matchIndex[j];
    var l, g := s.nodes[j].server.log, s.nodes[i].server.log;
    if m < |l| && l[m].term == g[m].term { SameTermAgree(s.hist.reigns, l, g, m); }
  }

  /** Up to the leader's commit index its record is always right, whatever the follower's term. */
  lemma CommittedMatchIsShared(s: State, i: nat, j: nat, t: nat)
    requires Reachable(s) && Leads(s, i, t) && j < |s.nodes| && j != i
    ensures var v := s.nodes[i].server;
      && |v.matchIndex| == |s.nodes|
      && (v.matchIndex[j] <= v.commitIndex ==> Agree(s.nodes[j].server.log, v.log, v.matchIndex[j] + 1))
  {
    hide Inv, Sound, Committed, Lost, ReignsOk;
    MatchIndexBound(s, i, j, t);
    ReachableInv(s);
    GetElections(s, i);
    GetElections(s, j);
    GetLead(s, i);
    GetReigns(s);
    var v := s.nodes[i].server;
    var k := v.matchIndex[j] + 1;
    if k == 1 {
      FirstShared(s.hist.reigns, s.nodes[j].server.log, v.log);
    } else if k <= v.commitIndex + 1 {
      NeverLost(s.hist, |s.nodes|, t, v.commitIndex + 1, k, s.nodes[j].server.currentTerm + 1);
    }
  }

  lemma FirstShared(R: Reigns, l: seq<Entry>, g: seq<Entry>)
    requires Sound(R, l) && Sound(R, g)
    ensures Agree(l, g, 1)
  {
  }

  /** No later reign begins without what is committed in a leader's log. */
  lemma NeverLost(h: History, n: nat, t: nat, c: int, k: int, u: nat)
    requires ReignsOk(h, n) && t in h.reigns && 1 < k <= c <= |h.reigns[t].log| && Committed(h.reigns, t, h.reigns[t].log, c)
    ensures !Lost(h.reigns, t, k, u)
  {
    var R := h.reigns;
    var t' :| t' in R && t' <= t && c <= R[t'].chosen && Agree(R[t].log, R[t'].log, c);
    forall d | d in R && t < d < u ensures Agree(R[d].start, R[t].log, k) {
      Completeness(h, n, t', d);
    }
  }

  /** A leader's message always names a real previous entry, so the term -1 of a missing one never
      occurs, and announces no more than it lets the follower verify. */
  lemma SendsRealPrevious(s: State, i: nat, j: nat)
    requires Reachable(s) && i < |s.nodes| && j < |s.nodes| && s.nodes[i].server.role == Leader
    ensures CanSend(s.nodes[i].server, j)
    ensures var a := MakeAppend(s.nodes[i].server, i, j);
      0 <= a.prevLogIndex && 0 <= a.prevLogTerm && a.leaderCommit <= a.prevLogIndex + |a.entries|
  {
    hide Inv;
    ReachableInv(s);
    GetLeading(s, i);
    GetElections(s, i);
  }

  /** Backoff makes progress: a rejection handled by a leader still in the request's term sends
      it back, and never below the first real index. */
  lemma BackoffMovesBack(s: State, m: Message)
    requires Reachable(s) && Possible(s, ReceiveAppendResponse(m))
    requires StillLeading(s.nodes[m.dst].server, m.append) && m.answer.term <= s.nodes[m.dst].server.currentTerm
    requires !m.answer.success
    ensures Enabled(s, ReceiveAppendResponse(m))
    ensures m.src < |s.nodes[m.dst].server.nextIndex|
    ensures var v' := Apply(s, ReceiveAppendResponse(m)).nodes[m.dst].server;
      |v'.nextIndex| > m.src && 1 <= v'.nextIndex[m.src] <= m.append.prevLogIndex
  {
    hide Inv, CanReceive;
    NeverPanics(s, ReceiveAppendResponse(m));
    ReachableInv(s);
    GetResponse(s, m);
    GetLeading(s, m.dst);
    GetReigns(s);
    GetLead(s, m.dst);
    BackoffProgress(s.hist, |s.nodes|, s.nodes[m.dst].server.log, m.append, m.answer, m.dst);
  }

  /** The commit shortcut is safe: a follower commits exactly what the leader announced, and
      never past the last entry the message let it verify. */
  lemma CommitShortcut(s: State, m: Message)
    requires Reachable(s) && Possible(s, ReceiveAppendRequest(m))
    requires Accepts(s.nodes[m.dst].server, m.append)
    requires m.append.leaderCommit > s.nodes[m.dst].server.commitIndex
    ensures Enabled(s, ReceiveAppendRequest(m))
    ensures var v' := Apply(s, ReceiveAppendRequest(m)).nodes[m.dst].server; var last := m.append.prevLogIndex + |m.append.entries|;
      && v'.commitIndex == m.append.leaderCommit <= last < |v'.log|
      && m.append.term in s.hist.reigns
      && Agree(v'.log, s.hist.reigns[m.append.term].log, last + 1)
  {
    hide Inv, Sound, ReignsOk, Committed, AppendEntries, Store;
    NeverPanics(s, ReceiveAppendRequest(m));
    ReachableInv(s);
    GetMessage(s, m);
    GetReigns(s);
    GetElections(s, m.dst);
    var v := s.nodes[m.dst].server;
    AcceptedCommit(s.hist, |s.nodes|, m.dst, v, m.append, m.src);
    AcceptedLog(s.hist, |s.nodes|, m.dst, v, m.append, m.src);
    AcceptedOutcome(v, m.append);
  }
}

/** What the cluster does for its clients, beyond keeping out of trouble: every server delivers each entry it
    applies, once and in order; a leader commits everything a majority has stored; votes are granted and
    logs are backed up exactly as far as the log allows; and nothing is delivered that no client sent. */
module RaftDelivery {
  import opened RaftServer
  import opened RaftProtocol
  import opened RaftInvariant
  import opened RaftMatch
  import opened RaftSteps
  import opened RaftTheorems
  import opened Quorums

  // ----- the apply channel

  /** What a step puts on the apply channel of its server. */
  function Puts(s: State, step: Step): seq<ApplyMsg>
    requires Enabled(s, step)
  {
    match step
    case ReceiveAppendRequest(m) => AppendEntries(s.nodes[m.dst].server, m.append).applied
    case ReceiveAppendResponse(m) => ReceiveAppendReply(s.nodes[m.dst].server, m.dst, m.src, m.append, m.answer).1
    case _ => []
  }

  predicate Restarts(step: Step, i: nat) {
    Actor(step) == i && (step.Crash? || step.CrashAfterTerm?)
  }

  /** A server's channel after a step; a restart begins a new one. */
  function ChannelAfter(s: State, step: Step, i: nat, channel: seq<ApplyMsg>): seq<ApplyMsg>
    requires Enabled(s, step)
  {
    if Restarts(step, i) then [] else if Actor(step) == i then channel + Puts(s, step) else channel
  }

  /** The channel holds exactly the entries from the first to the last applied one, each at its own index,
      and nothing committed waits. */
  ghost predicate Exactly(v: Server, channel: seq<ApplyMsg>) {
    && 0 <= v.lastApplied < |v.log| && v.commitIndex == v.lastApplied == |channel|
    && forall k :: 0 <= k < |channel| ==> channel[k] == ApplyMsg(v.log[k + 1].command, k + 1)
  }

  /** Storing a message of a reign touches nothing the follower has committed. */
  lemma StoringKeepsCommitted(s: State, m: Message)
    requires Inv(s) && Enabled(s, ReceiveAppendRequest(m)) && Accepts(s.nodes[m.dst].server, m.append)
    ensures var v := s.nodes[m.dst].server;
      0 <= v.commitIndex && Agree(Store(v.log, m.append.prevLogIndex + 1, m.append.entries), v.log, v.commitIndex + 1)
  {
    hide Inv, Store, ReignsOk, Sound, Committed;
    var v, a := s.nodes[m.dst].server, m.append;
    GetReigns(s);
    GetElections(s, m.dst);
    AcceptedFacts(s, m);
    AcceptedLog(s.hist, |s.nodes|, m.dst, v, a, m.src);
    CommittedInReign(s.hist, |s.nodes|, v.log, v.commitIndex + 1, v.currentTerm, a.term);
  }

  lemma RequestExactly(s: State, m: Message, channel: seq<ApplyMsg>)
    requires Inv(s) && Enabled(s, ReceiveAppendRequest(m)) && Exactly(s.nodes[m.dst].server, channel)
    ensures var o := AppendEntries(s.nodes[m.dst].server, m.append); Exactly(o.server, channel + o.applied)
  {
    hide Inv, AppendEntries, Store;
    var v, a := s.nodes[m.dst].server, m.append;
    RequestInRange(s, m);
    if Accepts(v, a) {
      StoringKeepsCommitted(s, m);
      AcceptedOutcome(v, a);
    } else {
      RejectedOutcome(v, a);
    }
  }

  lemma ResponseExactly(v: Server, i: nat, j: nat, a: AppendArgs, r: AppendReply, channel: seq<ApplyMsg>)
    requires StillLeading(v, a) && r.term <= v.currentTerm ==> CanReceive(v, i, j, a, r)
    requires Exactly(v, channel)
    ensures var (v', out) := ReceiveAppendReply(v, i, j, a, r); Exactly(v', channel + out)
  {
    hide MiddleMatch, BackoffIndex;
  }

  /** Every step keeps every server's channel exact. */
  lemma StepExactly(s: State, step: Step, i: nat, channel: seq<ApplyMsg>)
    requires Inv(s) && Enabled(s, step) && i < |s.nodes| && Exactly(s.nodes[i].server, channel)
    ensures i < |Apply(s, step).nodes| && Exactly(Apply(s, step).nodes[i].server, ChannelAfter(s, step, i, channel))
  {
    hide Inv, AppendEntries, ReceiveAppendReply, CanReceive, RequestVote, ReceiveVoteReply;
    OthersStay(s, step);
    if Actor(step) == i {
      assert channel + [] == channel;
      match step {
        case ReceiveVoteRequest(m) => SameLogVoting(s.nodes[i].server, m.vote);
        case ReceiveVoteResponse(m) =>
          var e := s.nodes[i].elections[m.id];
          VoteReplyOutcome(s.nodes[i].server, |s.nodes|, e.args, e.votes, m.granted);
        case ReceiveAppendRequest(m) => RequestExactly(s, m, channel);
        case ReceiveAppendResponse(m) => ResponseExactly(s.nodes[i].server, i, m.src, m.append, m.answer, channel);
        case _ =>
      }
    }
  }

  lemma SameLogVoting(v: Server, a: VoteArgs)
    ensures var v' := RequestVote(v, a).server;
      && v'.log == v.log && v'.commitIndex == v.commitIndex && v'.lastApplied == v.lastApplied
      && v'.matchIndex == v.matchIndex && (v'.role == Leader ==> v' == v)
  {
  }

  /** What server i has put on its apply channel since it last started. */
  function Channel(states: seq<State>, steps: seq<Step>, i: nat): seq<ApplyMsg>
    requires |states| > |steps| && forall k :: 0 <= k < |steps| ==> Enabled(states[k], steps[k])
  {
    if steps == [] then []
    else var n := |steps| - 1; ChannelAfter(states[n], steps[n], i, Channel(states[..n + 1], steps[..n], i))
  }

  lemma EnabledThroughout(states: seq<State>, steps: seq<Step>)
    requires Runs(states, steps)
    ensures forall k :: 0 <= k < |steps| ==> Enabled(states[k], steps[k])
  {
    hide Enabled;
    forall k | 0 <= k < |steps| ensures Enabled(states[k], steps[k]) { RunsReach(states, steps, k); }
  }

  lemma {:induction false} NodesStay(states: seq<State>, steps: seq<Step>, k: nat)
    requires Runs(states, steps) && k <= |steps|
    ensures |states[k].nodes| == |states[0].nodes|
  {
    hide Apply, Possible, InRange;
    if k > 0 {
      NodesStay(states, steps, k - 1);
      RunsReach(states, steps, k - 1);
      OthersStay(states[k - 1], steps[k - 1]);
    }
  }

  lemma RunsPrefix(states: seq<State>, steps: seq<Step>, n: nat)
    requires Runs(states, steps) && n <= |steps|
    ensures Runs(states[..n + 1], steps[..n])
  {
  }

  /** At every moment of every run, what a server has delivered since it started is exactly the commands of
      its log from the first to the last applied entry, in order, and that is all it has committed. */
  lemma {:induction false} AppliedExactly(states: seq<State>, steps: seq<Step>, i: nat)
    requires Runs(states, steps) && i < |states[0].nodes|
    ensures |states[|steps|].nodes| == |states[0].nodes|
    ensures forall k :: 0 <= k < |steps| ==> Enabled(states[k], steps[k])
    ensures Exactly(states[|steps|].nodes[i].server, Channel(states, steps, i))
    decreases |steps|
  {
    hide Possible, InRange, Apply, ChannelAfter, Exactly;
    EnabledThroughout(states, steps);
    NodesStay(states, steps, |steps|);
    if steps == [] {
      StartsExactly(states[0], i);
    } else {
      var n := |steps| - 1;
      RunsPrefix(states, steps, n);
      AppliedExactly(states[..n + 1], steps[..n], i);
      RunsReach(states, steps, n);
      ReachableInv(states[n]);
      StepExactly(states[n], steps[n], i, Channel(states[..n + 1], steps[..n], i));
    }
  }

  lemma StartsExactly(s: State, i: nat)
    requires Init(s) && i < |s.nodes|
    ensures Exactly(s.nodes[i].server, [])
  {
  }

  /** A follower takes a message exactly when its term is not old and its previous entry is in the log; then
      it holds the sender's log as far as the message goes and has committed all the sender had. */
  lemma FollowsExactly(s: State, m: Message)
    requires Reachable(s) && Possible(s, ReceiveAppendRequest(m))
    ensures Enabled(s, ReceiveAppendRequest(m)) && m.append.term in s.hist.reigns
    ensures var v, a := s.nodes[m.dst].server, m.append; var o := AppendEntries(v, a); var v' := o.server;
      && (o.reply.success <==> v.currentTerm <= a.term && TermAt(v.log, a.prevLogIndex) == a.prevLogTerm)
      && (o.reply.success ==> Agree(v'.log, s.hist.reigns[a.term].log, a.prevLogIndex + |a.entries| + 1))
      && (o.reply.success ==> v'.commitIndex == if a.leaderCommit > v.commitIndex then a.leaderCommit else v.commitIndex)
      && (!o.reply.success ==> v'.log == v.log && v'.commitIndex == v.commitIndex)
  {
    hide Inv, Sound, ReignsOk, Committed, AppendEntries, Store;
    NeverPanics(s, ReceiveAppendRequest(m));
    ReachableInv(s);
    var v, a := s.nodes[m.dst].server, m.append;
    GetMessage(s, m);
    GetReigns(s);
    GetElections(s, m.dst);
    RequestInRange(s, m);
    if Accepts(v, a) {
      AcceptedCommit(s.hist, |s.nodes|, m.dst, v, a, m.src);
      AcceptedLog(s.hist, |s.nodes|, m.dst, v, a, m.src);
      AcceptedOutcome(v, a);
    } else {
      RejectedOutcome(v, a);
    }
  }

  // ----- a leader commits what it can

  /** A leader's commit index is at or above every entry of its own term that a majority is recorded to hold. */
  ghost predicate NothingHeldBack(v: Server) {
    v.role == Leader ==>
      forall k :: 0 <= k < |v.log| && v.log[k].term == v.currentTerm && Majority(Matching(v.matchIndex, k), |v.matchIndex|)
        ==> k <= v.commitIndex
  }

  /** A handled success records the follower and commits what a majority then holds, at once. */
  lemma SuccessCommitsAll(R: Reigns, v: Server, i: nat, j: nat, a: AppendArgs, r: AppendReply)
    requires StillLeading(v, a) && r.term <= v.currentTerm && r.success && CanReceive(v, i, j, a, r) && i != j
    requires Sound(R, v.log) && (forall t :: t in R ==> ReignLogOk(R, t)) && forall k :: 0 <= k < |v.log| ==> v.log[k].term <= v.currentTerm
    ensures var v' := ReceiveAppendReply(v, i, j, a, r).0;
      && |v'.matchIndex| == |v.matchIndex| && |v'.nextIndex| == |v.nextIndex|
      && v'.matchIndex[j] == a.prevLogIndex + |a.entries| && v'.nextIndex[j] == v'.matchIndex[j] + 1
      && v'.matchIndex[i] == |v.log| - 1
      && (forall k :: 0 <= k < |v.matchIndex| && k != i && k != j ==> v'.matchIndex[k] == v.matchIndex[k])
      && NothingHeldBack(v')
  {
    hide MiddleMatch, Sound, ReignLogOk;
    var v' := ReceiveAppendReply(v, i, j, a, r).0;
    var m := MiddleMatch(v'.matchIndex);
    forall k | 0 <= k < |v'.log| && v'.log[k].term == v'.currentTerm && Majority(Matching(v'.matchIndex, k), |v'.matchIndex|)
      ensures k <= v'.commitIndex
    {
      MiddleIsLargest(v'.matchIndex, k);
      TermsAscend(R, v.log, k, m);
    }
  }

  lemma RequestHeldBack(s: State, m: Message)
    requires Inv(s) && Enabled(s, ReceiveAppendRequest(m)) && NothingHeldBack(s.nodes[m.dst].server)
    ensures NothingHeldBack(AppendEntries(s.nodes[m.dst].server, m.append).server)
  {
    hide Inv, AppendEntries, Store;
    var v, a := s.nodes[m.dst].server, m.append;
    RequestInRange(s, m);
    if Accepts(v, a) { AcceptedFacts(s, m); } else { RejectedOutcome(v, a); }
  }

  lemma ResponseHeldBack(s: State, m: Message)
    requires Inv(s) && Enabled(s, ReceiveAppendResponse(m)) && NothingHeldBack(s.nodes[m.dst].server)
    ensures NothingHeldBack(ReceiveAppendReply(s.nodes[m.dst].server, m.dst, m.src, m.append, m.answer).0)
  {
    hide Inv, MiddleMatch, BackoffIndex, ReignsOk, Sound, NothingHeldBack;
    var v, a, r := s.nodes[m.dst].server, m.append, m.answer;
    if StillLeading(v, a) && r.term <= v.currentTerm && r.success {
      GetResponse(s, m);
      GetReigns(s);
      GetElections(s, m.dst);
      LogsAscend(s.hist, |s.nodes|);
      SuccessCommitsAll(s.hist.reigns, v, m.dst, m.src, a, r);
    } else {
      SameHeldBack(v, m.dst, m.src, a, r);
    }
  }

  lemma LogsAscend(h: History, n: nat)
    requires ReignsOk(h, n)
    ensures forall t :: t in h.reigns ==> ReignLogOk(h.reigns, t)
  {
  }

  lemma SameHeldBack(v: Server, i: nat, j: nat, a: AppendArgs, r: AppendReply)
    requires StillLeading(v, a) && r.term <= v.currentTerm ==> CanReceive(v, i, j, a, r) && !r.success
    requires NothingHeldBack(v)
    ensures NothingHeldBack(ReceiveAppendReply(v, i, j, a, r).0)
  {
  }

  /** Nobody is recorded to hold what was only just appended. */
  lemma ClientHeldBack(h: History, n: nat, i: nat, v: Server, command: Command)
    requires v.role == Leader ==> LeadingOk(h, n, i, v)
    requires NothingHeldBack(v)
    ensures NothingHeldBack(Start(v, command))
  {
    var v' := Start(v, command);
    if v.role == Leader {
      assert Matching(v.matchIndex, |v.log|) == {};
      forall k | 0 <= k < |v'.log| && v'.log[k].term == v'.currentTerm && Majority(Matching(v'.matchIndex, k), |v'.matchIndex|)
        ensures k <= v'.commitIndex
      {
      }
    }
  }

  /** A new leader has recorded nothing. */
  lemma NewLeaderHeldBack(v: Server, n: nat)
    requires v.commitIndex >= 0 && NothingHeldBack(v)
    ensures NothingHeldBack(BeLeader(v, n))
  {
    var v' := BeLeader(v, n);
    if v.role == Candidate {
      assert forall k :: k > 0 ==> Matching(v'.matchIndex, k) == {};
      forall k | 0 <= k < |v'.log| && v'.log[k].term == v'.currentTerm && Majority(Matching(v'.matchIndex, k), |v'.matchIndex|)
        ensures k <= v'.commitIndex
      {
      }
    }
  }

  lemma NotLeading(v: Server)
    requires v.role != Leader
    ensures NothingHeldBack(v)
  {
  }

  lemma VoteReplyHeldBack(R: Reigns, v: Server, n: nat, a: VoteArgs, votes: nat, r: VoteReply)
    requires LogOk(R, v) && NothingHeldBack(v)
    ensures NothingHeldBack(ReceiveVoteReply(v, n, a, votes, r).0)
  {
    hide ReceiveVoteReply, NothingHeldBack, RaftServer.BeLeader, LogOk;
    GetCommit(R, v);
    VoteReplyOutcome(v, n, a, votes, r);
    NewLeaderHeldBack(v, n);
    var v' := ReceiveVoteReply(v, n, a, votes, r).0;
    if v'.role != Leader { NotLeading(v'); }
  }

  lemma StepHeldBack(s: State, step: Step, i: nat)
    requires Inv(s) && Enabled(s, step) && i < |s.nodes| && NothingHeldBack(s.nodes[i].server)
    ensures i < |Apply(s, step).nodes| && NothingHeldBack(Apply(s, step).nodes[i].server)
  {
    hide Inv, NothingHeldBack, AppendEntries, ReceiveAppendReply, CanReceive, RequestVote, ReceiveVoteReply, RaftServer.Start, LogOk, LeadingOk;
    OthersStay(s, step);
    var v := s.nodes[i].server;
    if Actor(step) == i {
      GetElections(s, i);
      var v' := Apply(s, step).nodes[i].server;
      match step {
        case ReceiveVoteRequest(m) =>
          SameLogVoting(v, m.vote);
          if v'.role != Leader { NotLeading(v'); }
        case ReceiveVoteResponse(m) =>
          var e := s.nodes[i].elections[m.id];
          VoteReplyHeldBack(s.hist.reigns, v, |s.nodes|, e.args, e.votes, m.granted);
        case ReceiveAppendRequest(m) => RequestHeldBack(s, m);
        case ReceiveAppendResponse(m) => ResponseHeldBack(s, m);
        case Client(_, command) => ClientHeldBack(s.hist, |s.nodes|, i, v, command);
        case _ => if v' != v { NotLeading(v'); }
      }
    }
  }

  lemma GetCommit(R: Reigns, v: Server)
    requires LogOk(R, v)
    ensures v.commitIndex >= 0
  {
  }

  ghost predicate NobodyHoldsBack(s: State) {
    forall i :: 0 <= i < |s.nodes| ==> NothingHeldBack(s.nodes[i].server)
  }

  lemma {:induction false} RunHeldBack(s: State, steps: seq<Step>, t: State)
    requires Inv(s) && NobodyHoldsBack(s) && Run(s, steps, t)
    ensures NobodyHoldsBack(t)
    decreases |steps|
  {
    hide Inv, Apply, Enabled, NothingHeldBack;
    if steps != [] {
      var s1 := Apply(s, steps[0]);
      StepKeeps(s, steps[0]);
      OthersStay(s, steps[0]);
      forall i | 0 <= i < |s1.nodes| ensures NothingHeldBack(s1.nodes[i].server) { StepHeldBack(s, steps[0], i); }
      RunHeldBack(s1, steps[1..], t);
    }
  }

  /** In every reachable state a leader has committed every entry of its own term that it knows a majority to
      hold: its commit index is as high as the rule allows. */
  lemma CommitsAll(s: State, i: nat, k: nat)
    requires Reachable(s) && i < |s.nodes| && s.nodes[i].server.role == Leader
    requires var v := s.nodes[i].server;
      k < |v.log| && v.log[k].term == v.currentTerm && Majority(Matching(v.matchIndex, k), |v.matchIndex|)
    ensures k <= s.nodes[i].server.commitIndex
  {
    var s0: State, steps: seq<Step> :| Init(s0) && Run(s0, steps, s);
    InitHolds(s0);
    hide Inv, Run;
    RunHeldBack(s0, steps, s);
  }

  // ----- votes

  /** When a vote is granted, and what it leaves: whenever the voter is free in the term and the candidate's
      last entry is not behind its own. */
  lemma VotesExactly(v: Server, a: VoteArgs)
    ensures var o := RequestVote(v, a); var free := a.term > v.currentTerm || v.votedFor == NULL || v.votedFor == a.candidateId;
      var term := if v.log == [] then -1 else v.log[|v.log| - 1].term;
      && o.reply.voteGranted == (a.term >= v.currentTerm && free
           && (term < a.lastLogTerm || (term == a.lastLogTerm && |v.log| - 1 <= a.lastLogIndex)))
      && o.reply.term == o.server.currentTerm == (if a.term > v.currentTerm then a.term else v.currentTerm)
      && o.server.votedFor == (if o.reply.voteGranted then a.candidateId else if a.term > v.currentTerm then NULL else v.votedFor)
      && o.server.role == (if o.reply.voteGranted || a.term > v.currentTerm then Follower else v.role)
      && o.server.log == v.log && o.server.commitIndex == v.commitIndex && o.server.lastApplied == v.lastApplied
  {
  }

  /** A candidate becomes leader, of the term it stands in, exactly when the votes counted are a majority. */
  lemma WinsExactly(v: Server, n: nat, a: VoteArgs, votes: nat, r: VoteReply)
    requires v.role == Candidate
    ensures var (v', count) := ReceiveVoteReply(v, n, a, votes, r); var current := r.term <= v.currentTerm == a.term;
      && count == (if current && r.voteGranted then votes + 1 else votes)
      && (v'.role == Leader <==> current && 2 * count > n)
      && (v'.role == Leader ==> v'.currentTerm == v.currentTerm && v'.log == v.log)
      && (v'.role == Leader ==> |v'.nextIndex| == |v'.matchIndex| == n)
      && (v'.role == Leader ==> forall j :: 0 <= j < n ==> v'.nextIndex[j] == |v.log| && v'.matchIndex[j] == 0)
  {
  }

  // ----- backing up

  ghost predicate Ascending(l: seq<Entry>) {
    forall i, j :: 0 <= i < j < |l| ==> l[i].term <= l[j].term
  }

  /** A rejection takes the leader back over exactly the indices where the two logs cannot agree: at every
      index skipped the terms differ, and at the one before it they may be the same, as the leader itself has
      the follower's conflicting term there, or the follower another. */
  lemma BacksUpExactly(v: Server, g: seq<Entry>, a: AppendArgs)
    requires Ascending(v.log) && Ascending(g) && 0 <= a.prevLogIndex < |g|
    requires TermAt(v.log, a.prevLogIndex) != g[a.prevLogIndex].term
    ensures var next, conflict := BackoffIndex(g, Rejection(v, a)), TermAt(v.log, a.prevLogIndex);
      && (forall k :: next <= k <= a.prevLogIndex ==> 0 <= k && TermAt(v.log, k) != g[k].term)
      && (next > 0 ==> next <= |v.log| || next <= |g|)
      && (next > 0 ==> TermAt(g, next - 1) == conflict || (next <= |v.log| && v.log[next - 1].term != conflict))
  {
  }

  /** A handled rejection moves back this follower's next index alone; an answer of a later term ends the reign,
      and one to an earlier reign's request changes nothing. */
  lemma AnswersExactly(v: Server, i: nat, j: nat, a: AppendArgs, r: AppendReply)
    requires StillLeading(v, a) && r.term <= v.currentTerm ==> CanReceive(v, i, j, a, r)
    requires !(StillLeading(v, a) && r.term <= v.currentTerm && r.success)
    ensures var (v', out) := ReceiveAppendReply(v, i, j, a, r);
      && out == [] && v'.log == v.log && v'.commitIndex == v.commitIndex && v'.lastApplied == v.lastApplied && v'.matchIndex == v.matchIndex
      && (!StillLeading(v, a) ==> v' == v)
      && (StillLeading(v, a) && r.term > v.currentTerm ==>
            v'.role == Follower && v'.currentTerm == r.term && v'.votedFor == NULL && v'.nextIndex == v.nextIndex)
      && (StillLeading(v, a) && r.term <= v.currentTerm ==> v' == v.(nextIndex := v.nextIndex[j := BackoffIndex(v.log, r)]))
  {
    hide BackoffIndex, MiddleMatch;
  }

  // ----- nothing else is delivered

  /** The commands clients sent during the steps. */
  function Sent(steps: seq<Step>): set<Command> {
    set k | 0 <= k < |steps| && steps[k].Client? :: steps[k].command
  }

  ghost predicate EntriesSent(l: seq<Entry>, from: nat, sent: set<Command>) {
    forall k :: from <= k < |l| ==> l[k].command in sent
  }

  /** Behind the first entry, logs and messages hold only commands that were sent. */
  ghost predicate OnlySent(s: State, sent: set<Command>) {
    && (forall i :: 0 <= i < |s.nodes| ==> EntriesSent(s.nodes[i].server.log, 1, sent))
    && (forall m :: m in s.net && m.AppendRequest? ==> EntriesSent(m.append.entries, 0, sent))
  }

  function SentBy(step: Step): set<Command> {
    if step.Client? then {step.command} else {}
  }

  lemma {:induction false} StoredFrom(log: seq<Entry>, index: nat, entries: seq<Entry>, sent: set<Command>)
    requires 1 <= index <= |log| && EntriesSent(log, 1, sent) && EntriesSent(entries, 0, sent)
    ensures EntriesSent(Store(log, index, entries), 1, sent)
    decreases |entries|
  {
    if entries != [] && index < |log| && log[index].term == entries[0].term {
      StoredFrom(log, index + 1, entries[1..], sent);
    }
  }

  lemma RequestOnlySent(s: State, m: Message, sent: set<Command>)
    requires Inv(s) && Enabled(s, ReceiveAppendRequest(m)) && OnlySent(s, sent)
    ensures EntriesSent(AppendEntries(s.nodes[m.dst].server, m.append).server.log, 1, sent)
  {
    hide Inv, AppendEntries, Store, EntriesSent;
    var v, a := s.nodes[m.dst].server, m.append;
    RequestInRange(s, m);
    if Accepts(v, a) {
      GetMessage(s, m);
      AcceptedOutcome(v, a);
      assert a.prevLogIndex < |v.log|;
      StoredFrom(v.log, a.prevLogIndex + 1, a.entries, sent);
    } else {
      RejectedOutcome(v, a);
    }
  }

  lemma SendOnlySent(s: State, i: nat, j: nat, sent: set<Command>)
    requires Inv(s) && Enabled(s, SendAppend(i, j)) && OnlySent(s, sent)
    ensures EntriesSent(MakeAppend(s.nodes[i].server, i, j).entries, 0, sent)
  {
    hide Inv;
    GetLeading(s, i);
  }

  /** The log of the acting server after a step. */
  lemma LogOnlySent(s: State, step: Step, sent: set<Command>)
    requires Inv(s) && Enabled(s, step) && OnlySent(s, sent) && Actor(step) < |Apply(s, step).nodes|
    ensures EntriesSent(Apply(s, step).nodes[Actor(step)].server.log, 1, sent + SentBy(step))
  {
    hide Inv, AppendEntries, ReceiveAppendReply, CanReceive, RequestVote, ReceiveVoteReply;
    var i := Actor(step);
    OthersStay(s, step);
    match step {
      case ReceiveVoteRequest(m) => SameLogVoting(s.nodes[i].server, m.vote);
      case ReceiveVoteResponse(m) =>
        var e := s.nodes[i].elections[m.id];
        VoteReplyOutcome(s.nodes[i].server, |s.nodes|, e.args, e.votes, m.granted);
      case ReceiveAppendRequest(m) => RequestOnlySent(s, m, sent);
      case ReceiveAppendResponse(m) => SameLogAnswered(s.nodes[i].server, i, m.src, m.append, m.answer);
      case _ =>
    }
  }

  lemma SameLogAnswered(v: Server, i: nat, j: nat, a: AppendArgs, r: AppendReply)
    requires StillLeading(v, a) && r.term <= v.currentTerm ==> CanReceive(v, i, j, a, r)
    ensures ReceiveAppendReply(v, i, j, a, r).0.log == v.log
  {
  }

  lemma StepOnlySent(s: State, step: Step, sent: set<Command>)
    requires Inv(s) && Enabled(s, step) && OnlySent(s, sent)
    ensures OnlySent(Apply(s, step), sent + SentBy(step))
  {
    hide Inv, InRange, CanReceive, AppendEntries, ReceiveAppendReply, RequestVote, ReceiveVoteReply, MakeAppend, SentBy;
    var s', sent' := Apply(s, step), sent + SentBy(step);
    OthersStay(s, step);
    LogOnlySent(s, step, sent);
    forall i | 0 <= i < |s'.nodes| ensures EntriesSent(s'.nodes[i].server.log, 1, sent') {
      if i != Actor(step) { assert EntriesSent(s.nodes[i].server.log, 1, sent); }
    }
    forall m | m in s'.net && m.AppendRequest? ensures EntriesSent(m.append.entries, 0, sent') {
      if m in s.net {
        assert EntriesSent(m.append.entries, 0, sent);
      } else {
        NewRequest(s, step, m);
        SendOnlySent(s, step.i, step.j, sent);
      }
    }
  }

  /** Only a leader's send adds a request. */
  lemma NewRequest(s: State, step: Step, m: Message)
    requires Enabled(s, step) && m in Apply(s, step).net && m !in s.net && m.AppendRequest?
    ensures step.SendAppend? && m.append == MakeAppend(s.nodes[step.i].server, step.i, step.j)
  {
    hide AppendEntries, ReceiveAppendReply, RequestVote, ReceiveVoteReply, MakeAppend, CanReceive;
  }

  lemma {:induction false} RunsOnlySent(states: seq<State>, steps: seq<Step>, k: nat)
    requires Runs(states, steps) && k <= |steps|
    ensures OnlySent(states[k], Sent(steps[..k]))
  {
    hide Possible, InRange, Apply, OnlySent;
    if k == 0 {
      NothingSentYet(states[0]);
    } else {
      RunsOnlySent(states, steps, k - 1);
      RunsReach(states, steps, k - 1);
      ReachableInv(states[k - 1]);
      StepOnlySent(states[k - 1], steps[k - 1], Sent(steps[..k - 1]));
      SentMore(steps, k - 1);
    }
  }

  lemma NothingSentYet(s: State)
    requires Init(s)
    ensures OnlySent(s, {}) && Sent([]) == {}
  {
  }

  lemma SentMore(steps: seq<Step>, k: nat)
    requires k < |steps|
    ensures Sent(steps[..k + 1]) == Sent(steps[..k]) + SentBy(steps[k])
  {
    var a, b := steps[..k], steps[..k + 1];
    assert b == a + [steps[k]];
    forall c ensures c in Sent(b) <==> c in Sent(a) + SentBy(steps[k]) {
      if c in Sent(a) {
        var x :| 0 <= x < |a| && a[x].Client? && a[x].command == c;
        assert b[x] == a[x];
      }
      if c in SentBy(steps[k]) { assert b[k] == steps[k]; }
    }
  }

  /** Whatever a server delivers, a client sent before. */
  lemma DeliversOnlySent(states: seq<State>, steps: seq<Step>, i: nat, k: nat)
    requires Runs(states, steps) && i < |states[0].nodes|
    requires forall k :: 0 <= k < |steps| ==> Enabled(states[k], steps[k])
    requires k < |Channel(states, steps, i)|
    ensures Channel(states, steps, i)[k].command in Sent(steps)
  {
    hide Possible, InRange, Channel;
    AppliedExactly(states, steps, i);
    RunsOnlySent(states, steps, |steps|);
    assert steps[..|steps|] == steps;
    assert EntriesSent(states[|steps|].nodes[i].server.log, 1, Sent(steps));
  }

  lemma DeliveredGrow(s: State, step: Step)
    requires Enabled(s, step)
    ensures Apply(s, step).hist.delivered == s.hist.delivered + Delivered(Actor(step), Puts(s, step))
  {
    hide AppendEntries, RequestVote, ReceiveVoteReply, CanReceive, UpdateCommit, MiddleMatch, BackoffIndex, RecordMatch, RaftServer.BeLeader;
  }

  lemma PutsSent(s: State, step: Step, channel: seq<ApplyMsg>, sent: set<Command>)
    requires Inv(s) && Enabled(s, step) && Actor(step) < |s.nodes| && Exactly(s.nodes[Actor(step)].server, channel)
    requires OnlySent(Apply(s, step), sent)
    ensures forall m :: m in Puts(s, step) ==> m.command in sent
  {
    hide Inv, Enabled, Apply;
    var i, puts := Actor(step), Puts(s, step);
    StepExactly(s, step, i, channel);
    assert EntriesSent(Apply(s, step).nodes[i].server.log, 1, sent);
    forall x | 0 <= x < |puts| ensures puts[x].command in sent {
      assert puts[x] == (channel + puts)[|channel| + x];
    }
  }

  /** Every command ever delivered is one a client sent before. */
  lemma {:induction false} AllDeliveredSent(states: seq<State>, steps: seq<Step>, k: nat)
    requires Runs(states, steps) && k <= |steps|
    ensures forall d :: d in states[k].hist.delivered ==> d.msg.command in Sent(steps[..k])
  {
    hide Possible, InRange, Apply, Puts, Exactly, OnlySent, Channel;
    if k > 0 {
      var n := k - 1;
      AllDeliveredSent(states, steps, n);
      RunsReach(states, steps, n);
      OthersStay(states[n], steps[n]);
      NodesStay(states, steps, n);
      RunsPrefix(states, steps, n);
      AppliedExactly(states[..n + 1], steps[..n], Actor(steps[n]));
      ReachableInv(states[n]);
      RunsOnlySent(states, steps, k);
      PutsSent(states[n], steps[n], Channel(states[..n + 1], steps[..n], Actor(steps[n])), Sent(steps[..k]));
      DeliveredGrow(states[n], steps[n]);
      SentMore(steps, n);
      DeliveredFrom(Actor(steps[n]), Puts(states[n], steps[n]), Sent(steps[..k]));
    }
  }

  lemma DeliveredFrom(i: nat, out: seq<ApplyMsg>, sent: set<Command>)
    requires forall m :: m in out ==> m.command in sent
    ensures forall d :: d in Delivered(i, out) ==> d.msg.command in sent
  {
  }
}

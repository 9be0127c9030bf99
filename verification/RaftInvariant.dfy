/** The inductive invariant of the cluster. Its heart: every log is, up to each of its
    entries, a prefix of the log of the reign that created the entry (`Sound`), and a server
    that acknowledged a prefix of a reign's log still holds it unless a later reign began
    without it (`AcksOk`). */
module RaftInvariant {
  import opened RaftServer
  import opened RaftProtocol
  import opened Quorums

  type Reigns = map<nat, Reign>

  ghost predicate Agree(l: seq<Entry>, g: seq<Entry>, k: int) {
    k <= |l| && k <= |g| && forall x :: 0 <= x < k ==> l[x] == g[x]
  }

  /** Up to its entry k, the log l is a prefix of the log of the reign that created the entry. */
  ghost predicate Owned(R: Reigns, l: seq<Entry>, k: int)
    requires 0 <= k < |l|
  {
    l[k].term in R && Agree(l, R[l[k].term].log, k + 1)
  }

  ghost predicate Sound(R: Reigns, l: seq<Entry>) {
    |l| > 0 && l[0] == FIRST_ENTRY && forall k :: 1 <= k < |l| ==> Owned(R, l, k)
  }

  /** Some reign after t and before u began without the first k entries of t's log. */
  ghost predicate Lost(R: Reigns, t: nat, k: int, u: nat)
    requires t in R
  {
    exists d :: d in R && t < d < u && !Agree(R[d].start, R[t].log, k)
  }

  ghost predicate Kept(R: Reigns, l: seq<Entry>, t: nat, k: int, u: nat)
    requires t in R
  {
    Agree(l, R[t].log, k) || Lost(R, t, k, u)
  }

  /** Server v told the leader of term t that it holds the first k entries of its log. */
  ghost predicate Acked(acks: set<Ack>, v: nat, t: nat, k: int) {
    exists a :: a in acks && a.server == v && a.term == t && k <= a.length
  }

  /** The first k entries of l were committed in some reign up to term u. */
  ghost predicate Committed(R: Reigns, u: nat, l: seq<Entry>, k: int) {
    k <= 1 || exists t :: t in R && t <= u && k <= R[t].chosen && Agree(l, R[t].log, k)
  }

  /** Entry k-1 of t's log is one of t's own. */
  ghost predicate OwnEntry(R: Reigns, t: nat, k: int) {
    t in R && 1 <= k <= |R[t].log| && R[t].log[k - 1].term == t
  }

  /** What a vote for a log l in term u is worth: what the voter acknowledged in an earlier
      reign, up to an entry of that reign, is in l, unless a reign in between lost it. */
  ghost predicate Backs(R: Reigns, acks: set<Ack>, voter: nat, l: seq<Entry>, u: nat) {
    forall t: nat, k: int :: t < u && Acked(acks, voter, t, k) && OwnEntry(R, t, k)
      ==> Kept(R, l, t, k, u)
  }

  ghost predicate ReignLogOk(R: Reigns, t: nat)
    requires t in R
  {
    var r := R[t];
    && 1 <= t
    && Sound(R, r.start) && Sound(R, r.log)
    && Agree(r.start, r.log, |r.start|)
    && (forall k :: 0 <= k < |r.start| ==> r.start[k].term < t)
    && (forall k :: |r.start| <= k < |r.log| ==> r.log[k].term == t)
  }

  ghost predicate VotersOk(h: History, n: nat, t: nat)
    requires t in h.reigns
  {
    var r := h.reigns[t];
    && r.leader < n && Majority(r.voters, n)
    && (forall p :: p in r.voters ==> Ballot(p, t, r.leader) in h.ballots && Backs(h.reigns, h.acks, p, r.start, t))
  }

  ghost predicate ChosenOk(h: History, n: nat, t: nat)
    requires t in h.reigns
  {
    var r := h.reigns[t];
    r.chosen > 0 ==>
      && OwnEntry(h.reigns, t, r.chosen) && Majority(r.quorum, n)
      && (forall p :: p in r.quorum ==> Acked(h.acks, p, t, r.chosen))
  }

  ghost predicate ReignsOk(h: History, n: nat) {
    forall t :: t in h.reigns ==> ReignLogOk(h.reigns, t) && VotersOk(h, n, t) && ChosenOk(h, n, t)
  }

  /** A leader never goes back below its reign, and never campaigns again within it. */
  ghost predicate LeadersOk(s: State) {
    forall t :: t in s.hist.reigns ==>
      var i := s.hist.reigns[t].leader;
      i < |s.nodes| && t <= s.nodes[i].server.currentTerm
      && (t == s.nodes[i].server.currentTerm ==> s.nodes[i].server.role != Candidate)
  }

  ghost predicate LogOk(R: Reigns, v: Server) {
    && Sound(R, v.log)
    && (forall k :: 0 <= k < |v.log| ==> v.log[k].term <= v.currentTerm)
    && 0 <= v.lastApplied <= v.commitIndex < |v.log|
    && Committed(R, v.currentTerm, v.log, v.commitIndex + 1)
  }

  ghost predicate RoleOk(h: History, n: nat, i: nat, v: Server) {
    && (v.role != Follower ==> 1 <= v.currentTerm && v.votedFor == i && Ballot(i, v.currentTerm, i) in h.ballots)
    && (v.role == Leader ==> LeadingOk(h, n, i, v))
  }

  ghost predicate LeadingOk(h: History, n: nat, i: nat, v: Server) {
    && v.currentTerm in h.reigns && h.reigns[v.currentTerm].leader == i
    && h.reigns[v.currentTerm].log == v.log
    && h.reigns[v.currentTerm].chosen <= v.commitIndex + 1
    && |v.nextIndex| == |v.matchIndex| == n
    && (forall j :: 0 <= j < n ==> 1 <= v.nextIndex[j] <= |v.log|)
    && (forall j :: 0 <= j < n ==> 0 <= v.matchIndex[j] < |v.log|)
    && (forall j :: 0 <= j < n && j != i && v.matchIndex[j] > 0
          ==> Acked(h.acks, j, v.currentTerm, v.matchIndex[j] + 1))
  }

  /** Whatever a candidate's voters acknowledged earlier is in its log, unless already lost. */
  ghost predicate CandidateOk(h: History, i: nat, v: Server) {
    v.role == Candidate && v.currentTerm !in h.reigns ==>
      forall p: nat :: Ballot(p, v.currentTerm, i) in h.ballots ==> Backs(h.reigns, h.acks, p, v.log, v.currentTerm)
  }

  ghost predicate AcksOk(R: Reigns, acks: set<Ack>, i: nat, v: Server) {
    forall t: nat, k: int :: Acked(acks, i, t, k) ==>
      t in R && t <= v.currentTerm && k <= |R[t].log|
      && Kept(R, v.log, t, k, v.currentTerm + 1)
  }

  ghost predicate BallotsOk(h: History, i: nat, v: Server) {
    forall b :: b in h.ballots && b.voter == i ==>
      && b.term <= v.currentTerm && b.candidate >= 0
      && (b.term == v.currentTerm ==> v.votedFor == b.candidate)
  }

  ghost predicate OneBallotEach(h: History) {
    forall b, c :: b in h.ballots && c in h.ballots && b.voter == c.voter && b.term == c.term
      ==> b.candidate == c.candidate
  }

  /** Ballots are for servers, by servers, and no one votes for a candidate ahead of its own term. */
  ghost predicate BallotBoxOk(s: State) {
    && OneBallotEach(s.hist)
    && (forall b :: b in s.hist.ballots ==>
          b.voter < |s.nodes| && 0 <= b.candidate < |s.nodes|
          && b.term <= s.nodes[b.candidate].server.currentTerm)
  }

  /** An election counts no vote that was not cast. */
  ghost predicate ElectionOk(h: History, n: nat, i: nat, v: Server, e: Election) {
    && e.args.candidateId == i && e.args.term <= v.currentTerm
    && e.waiting <= Others(n, i)
    && e.votes <= 1 + |VotersOf(h, n, e.args.term, i) - {i} - e.waiting|
  }

  ghost predicate ElectionsOk(h: History, n: nat, i: nat, nd: Node) {
    forall id :: id in nd.elections ==> ElectionOk(h, n, i, nd.server, nd.elections[id])
  }

  ghost predicate NodeOk(h: History, n: nat, i: nat, nd: Node) {
    && LogOk(h.reigns, nd.server) && RoleOk(h, n, i, nd.server)
    && CandidateOk(h, i, nd.server) && AcksOk(h.reigns, h.acks, i, nd.server)
    && BallotsOk(h, i, nd.server) && ElectionsOk(h, n, i, nd)
  }

  ghost predicate NodesOk(s: State) {
    forall i :: 0 <= i < |s.nodes| ==> NodeOk(s.hist, |s.nodes|, i, s.nodes[i])
  }

  /** While its sender still campaigns unelected, a vote request describes the sender's log. */
  ghost predicate VoteRequestOk(h: History, v: Server, i: nat, a: VoteArgs) {
    && a.candidateId == i && a.term <= v.currentTerm
    && (v.role == Candidate && v.currentTerm == a.term && a.term !in h.reigns
        ==> a.lastLogIndex == LastIndex(v.log) && a.lastLogTerm == LastTerm(v.log))
  }

  ghost predicate AppendRequestOk(R: Reigns, i: nat, a: AppendArgs) {
    && a.term in R && R[a.term].leader == i
    && 0 <= a.prevLogIndex && a.prevLogIndex + |a.entries| < |R[a.term].log|
    && a.prevLogTerm == R[a.term].log[a.prevLogIndex].term
    && (forall x :: 0 <= x < |a.entries| ==> a.entries[x] == R[a.term].log[a.prevLogIndex + 1 + x])
    && 0 <= a.leaderCommit <= a.prevLogIndex + |a.entries|
    && Committed(R, a.term, R[a.term].log, a.leaderCommit + 1)
  }

  /** What a rejection in the request's own term tells: the follower's log ends early, or
      belongs at prevLogIndex to another reign, whose log has that entry there. */
  ghost predicate ConflictOk(R: Reigns, a: AppendArgs, r: AppendReply) {
    && 1 <= r.conflictIndex <= a.prevLogIndex
    && (r.conflictTerm != NULL ==>
          r.conflictTerm >= 0 && r.conflictTerm != a.prevLogTerm && r.conflictTerm in R
          && TermAt(R[r.conflictTerm].log, a.prevLogIndex) == r.conflictTerm)
  }

  ghost predicate AppendResponseOk(h: History, i: nat, a: AppendArgs, r: AppendReply) {
    && a.term <= r.term
    && (r.success ==> Acked(h.acks, i, a.term, a.prevLogIndex + |a.entries| + 1))
    && (!r.success && r.term == a.term ==> ConflictOk(h.reigns, a, r))
  }

  ghost predicate MessageOk(s: State, m: Message) {
    && m.src < |s.nodes| && m.dst < |s.nodes| && m.src != m.dst
    && match m
       case VoteRequest(i, _, _, a) => VoteRequestOk(s.hist, s.nodes[i].server, i, a)
       case VoteResponse(i, c, _, a, r) => r.voteGranted ==> Ballot(i, a.term, c) in s.hist.ballots
       case AppendRequest(i, _, a) => AppendRequestOk(s.hist.reigns, i, a)
       case AppendResponse(i, l, a, r) =>
         AppendRequestOk(s.hist.reigns, l, a) && AppendResponseOk(s.hist, i, a, r)
  }

  ghost predicate MessagesOk(s: State) {
    forall m :: m in s.net ==> MessageOk(s, m)
  }

  /** Every delivered command stands, at its index, in a committed prefix. */
  ghost predicate DeliveryOk(R: Reigns, m: ApplyMsg) {
    exists t :: t in R && 1 <= m.index < R[t].chosen && m.index < |R[t].log|
      && R[t].log[m.index].command == m.command
  }

  ghost predicate DeliveriesOk(h: History) {
    forall d :: d in h.delivered ==> DeliveryOk(h.reigns, d.msg)
  }

  ghost predicate Inv(s: State) {
    && 0 < |s.nodes|
    && ReignsOk(s.hist, |s.nodes|) && LeadersOk(s) && BallotBoxOk(s)
    && NodesOk(s) && MessagesOk(s) && DeliveriesOk(s.hist)
  }

  // ----- logs

  /** Log matching: two sound logs with the same term at an index agree up to it. */
  lemma SameTermAgree(R: Reigns, l: seq<Entry>, g: seq<Entry>, p: int)
    requires Sound(R, l) && Sound(R, g) && 0 <= p < |l| && p < |g| && l[p].term == g[p].term
    ensures Agree(l, g, p + 1)
  {
    if p > 0 {
      assert Owned(R, l, p) && Owned(R, g, p);
    }
  }

  /** Terms never fall along a sound log. */
  lemma TermsAscend(R: Reigns, l: seq<Entry>, i: int, j: int)
    requires Sound(R, l) && 0 <= i <= j < |l|
    requires forall t :: t in R ==> ReignLogOk(R, t)
    ensures l[i].term <= l[j].term
  {
    if j > 0 {
      assert Owned(R, l, j);
      var t := l[j].term;
      assert ReignLogOk(R, t);
      assert l[i] == R[t].log[i];
      if i < |R[t].start| { assert R[t].start[i].term < t; }
    }
  }

  // ----- growth of the history

  /** Reigns are only added, their logs only extended, their committed prefixes only lengthened. */
  ghost predicate ReignsGrow(R: Reigns, R': Reigns) {
    forall t :: t in R ==>
      && t in R' && R'[t].leader == R[t].leader && R'[t].start == R[t].start && R'[t].voters == R[t].voters
      && Agree(R[t].log, R'[t].log, |R[t].log|) && R[t].chosen <= R'[t].chosen
  }

  lemma SoundGrows(R: Reigns, R': Reigns, l: seq<Entry>)
    requires ReignsGrow(R, R') && Sound(R, l)
    ensures Sound(R', l)
  {
    forall k | 1 <= k < |l| ensures Owned(R', l, k) {
      assert Owned(R, l, k);
    }
  }

  lemma KeptGrows(R: Reigns, R': Reigns, l: seq<Entry>, t: nat, k: int, u: nat)
    requires ReignsGrow(R, R') && t in R && k <= |R[t].log| && Kept(R, l, t, k, u)
    ensures Kept(R', l, t, k, u)
  {
    if !Agree(l, R[t].log, k) {
      var d :| d in R && t < d < u && !Agree(R[d].start, R[t].log, k);
      assert d in R';
    }
  }

  lemma CommittedGrows(R: Reigns, R': Reigns, u: nat, u': nat, l: seq<Entry>, k: int)
    requires ReignsGrow(R, R') && u <= u' && Committed(R, u, l, k)
    ensures Committed(R', u', l, k)
  {
    if k > 1 {
      var t :| t in R && t <= u && k <= R[t].chosen && Agree(l, R[t].log, k);
      assert t in R';
    }
  }

  /** Leader completeness: what a reign commits, every later reign begins with. */
  lemma {:induction false} Completeness(h: History, n: nat, t: nat, u: nat)
    requires ReignsOk(h, n) && t in h.reigns && u in h.reigns && t < u && h.reigns[t].chosen > 0
    ensures Agree(h.reigns[u].start, h.reigns[t].log, h.reigns[t].chosen)
    decreases u
  {
    var k := h.reigns[t].chosen;
    var p := Intersect(h.reigns[u].voters, h.reigns[t].quorum, n);
    assert VotersOk(h, n, u) && ChosenOk(h, n, t);
    assert Acked(h.acks, p, t, k) && Backs(h.reigns, h.acks, p, h.reigns[u].start, u);
    assert Kept(h.reigns, h.reigns[u].start, t, k, u);
    if !Agree(h.reigns[u].start, h.reigns[t].log, k) {
      var d :| d in h.reigns && t < d < u && !Agree(h.reigns[d].start, h.reigns[t].log, k);
      Completeness(h, n, t, d);
      assert false;
    }
  }

  /** A committed prefix of any log is a prefix of the log of every reign from its term on. */
  lemma CommittedInReign(h: History, n: nat, l: seq<Entry>, k: int, u: nat, T: nat)
    requires ReignsOk(h, n) && Sound(h.reigns, l) && 0 <= k <= |l|
    requires Committed(h.reigns, u, l, k) && u <= T && T in h.reigns
    ensures Agree(l, h.reigns[T].log, k)
  {
    assert ReignLogOk(h.reigns, T);
    if k > 1 {
      var t :| t in h.reigns && t <= u && k <= h.reigns[t].chosen && Agree(l, h.reigns[t].log, k);
      if t < T { Completeness(h, n, t, T); }
    }
  }
}

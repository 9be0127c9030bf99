/** One Raft server as a value: the fields a peer keeps and, for every region of
    the program that runs under the server's lock, the function from the server
    and its input to the new server, the reply and the commands it delivers. */
module RaftServer {

  const NULL: int := -1

  datatype Command = NoCommand | Command(text: string)

  datatype Entry = Entry(term: nat, command: Command)

  /** The entry every log starts with, so that the first real index is 1. */
  const FIRST_ENTRY := Entry(0, NoCommand)

  datatype Role = Follower | Candidate | Leader

  datatype Server = Server(
    role: Role,
    currentTerm: nat,
    votedFor: int,
    log: seq<Entry>,
    commitIndex: int,
    lastApplied: int,
    nextIndex: seq<int>,
    matchIndex: seq<int>)

  datatype VoteArgs = VoteArgs(term: nat, candidateId: int, lastLogIndex: int, lastLogTerm: int)

  datatype VoteReply = VoteReply(term: nat, voteGranted: bool)

  datatype AppendArgs = AppendArgs(
    term: nat,
    leaderId: int,
    prevLogIndex: int,
    prevLogTerm: int,
    entries: seq<Entry>,
    leaderCommit: int)

  datatype AppendReply = AppendReply(term: nat, success: bool, conflictIndex: int, conflictTerm: int)

  datatype ApplyMsg = ApplyMsg(command: Command, index: int)

  /** What a handler leaves behind: the server, its reply, and what it sent on the apply channel. */
  datatype Outcome<R> = Outcome(server: Server, reply: R, applied: seq<ApplyMsg>)

  function Min(a: int, b: int): int { if a > b then b else a }

  function LastIndex(log: seq<Entry>): int { |log| - 1 }

  /** The term at an index, -1 where there is no entry. */
  function TermAt(log: seq<Entry>, i: int): int {
    if 0 <= i < |log| then log[i].term else -1
  }

  function LastTerm(log: seq<Entry>): int { TermAt(log, LastIndex(log)) }

  /** A server that starts with nothing saved. */
  function NewServer(): Server {
    Server(Follower, 0, NULL, [FIRST_ENTRY], 0, 0, [], [])
  }

  /** What a crash leaves: term, vote and log are read back, the rest starts afresh. */
  function Restart(s: Server): Server {
    NewServer().(currentTerm := s.currentTerm, votedFor := s.votedFor, log := s.log)
  }

  function BeFollower(s: Server, term: nat): Server {
    s.(role := Follower, votedFor := NULL, currentTerm := term)
  }

  function BeCandidate(s: Server, me: nat): Server {
    s.(role := Candidate, currentTerm := s.currentTerm + 1, votedFor := me)
  }

  function BeLeader(s: Server, peers: nat): Server {
    if s.role != Candidate then s else
    s.(role := Leader,
       nextIndex := seq(peers, _ => LastIndex(s.log) + 1),
       matchIndex := seq(peers, _ => 0))
  }

  /** What a candidate does when a vote call of an election begun with `a` returns, and its votes then. */
  function ReceiveVoteReply(s: Server, peers: nat, a: VoteArgs, votes: nat, r: VoteReply): (Server, nat) {
    if r.term > s.currentTerm then (BeFollower(s, r.term), votes)
    else if s.role != Candidate || s.currentTerm != a.term then (s, votes)
    else
      var count := if r.voteGranted then votes + 1 else votes;
      (if count > peers / 2 then BeLeader(s, peers) else s, count)
  }

  /** All servers, rule 1: a larger term turns the server into a follower of that term. */
  function ObserveTerm(s: Server, term: nat): Server {
    if term > s.currentTerm then BeFollower(s, term) else s
  }

  /** Whether a log ending in (lastIndex, lastTerm) is at least as up to date as `log`. */
  predicate UpToDate(lastIndex: int, lastTerm: int, log: seq<Entry>) {
    lastTerm > LastTerm(log) || (lastTerm == LastTerm(log) && lastIndex >= LastIndex(log))
  }

  function RequestVote(s: Server, a: VoteArgs): Outcome<VoteReply> {
    var s1 := ObserveTerm(s, a.term);
    if a.term < s1.currentTerm || (s1.votedFor != NULL && s1.votedFor != a.candidateId)
       || !UpToDate(a.lastLogIndex, a.lastLogTerm, s1.log) then
      Outcome(s1, VoteReply(s1.currentTerm, false), [])
    else
      Outcome(s1.(votedFor := a.candidateId, role := Follower), VoteReply(s1.currentTerm, true), [])
  }

  /** The first index holding an entry of term t, |log| when there is none. */
  function FirstOfTerm(log: seq<Entry>, t: int): (i: nat)
    ensures i <= |log|
    ensures i < |log| ==> log[i].term == t
    ensures forall j :: 0 <= j < i ==> log[j].term != t
  {
    if log == [] || log[0].term == t then 0 else 1 + FirstOfTerm(log[1..], t)
  }

  /** One past the last index holding an entry of term t, 0 when there is none. */
  function PastLastOfTerm(log: seq<Entry>, t: int): (i: nat)
    ensures i <= |log|
    ensures i > 0 ==> log[i - 1].term == t
    ensures forall j :: i <= j < |log| ==> log[j].term != t
  {
    if log == [] || log[|log| - 1].term == t then |log| else PastLastOfTerm(log[..|log| - 1], t)
  }

  /** The log after storing `entries` from `index` on: entries already present by term are
      kept together with everything after them, the first disagreement cuts the log. */
  function Store(log: seq<Entry>, index: nat, entries: seq<Entry>): seq<Entry>
    decreases entries
  {
    if entries == [] then log
    else if index < |log| && log[index].term == entries[0].term then Store(log, index + 1, entries[1..])
    else log[..Min(index, |log|)] + entries
  }

  /** The deliveries that take a server from having applied `lo` to having applied `hi`. */
  function Deliveries(log: seq<Entry>, lo: int, hi: int): (out: seq<ApplyMsg>)
    requires -1 <= lo && hi < |log|
    ensures |out| == if lo < hi then hi - lo else 0
    ensures forall k :: 0 <= k < |out| ==> out[k] == ApplyMsg(log[lo + 1 + k].command, lo + 1 + k)
    decreases hi - lo
  {
    if lo >= hi then [] else [ApplyMsg(log[lo + 1].command, lo + 1)] + Deliveries(log, lo + 1, hi)
  }

  /** Moves the commit index forward and delivers everything up to it. */
  function CommitTo(s: Server, index: int): (Server, seq<ApplyMsg>)
    requires -1 <= s.lastApplied && index < |s.log|
  {
    (s.(commitIndex := index, lastApplied := if s.lastApplied < index then index else s.lastApplied),
     Deliveries(s.log, s.lastApplied, index))
  }

  function Rejection(s: Server, a: AppendArgs): AppendReply {
    var t := TermAt(s.log, a.prevLogIndex);
    if t == -1 then AppendReply(s.currentTerm, false, |s.log|, NULL)
    else AppendReply(s.currentTerm, false, FirstOfTerm(s.log, t), t)
  }

  function AppendEntries(s: Server, a: AppendArgs): Outcome<AppendReply>
    requires -1 <= a.prevLogIndex && -1 <= s.lastApplied
  {
    var s1 := ObserveTerm(s, a.term);
    if TermAt(s1.log, a.prevLogIndex) != a.prevLogTerm then Outcome(s1, Rejection(s1, a), [])
    else if a.term < s1.currentTerm then Outcome(s1, AppendReply(s1.currentTerm, false, 0, NULL), [])
    else
      var s2 := s1.(log := Store(s1.log, a.prevLogIndex + 1, a.entries));
      var (s3, out) := if a.leaderCommit > s2.commitIndex
                       then CommitTo(s2, Min(a.leaderCommit, LastIndex(s2.log)))
                       else (s2, []);
      Outcome(s3, AppendReply(s3.currentTerm, true, 0, NULL), out)
  }

  /** The slices a leader takes to build its message stay inside its log. */
  predicate CanSend(s: Server, j: nat) {
    j < |s.nextIndex| && 0 <= s.nextIndex[j] <= |s.log|
  }

  function MakeAppend(s: Server, me: nat, j: nat): AppendArgs
    requires CanSend(s, j)
  {
    var prev := s.nextIndex[j] - 1;
    AppendArgs(s.currentTerm, me, prev, TermAt(s.log, prev), s.log[s.nextIndex[j]..], s.commitIndex)
  }

  /** Insertion into a sequence kept in descending order. */
  function InsertDescending(x: int, s: seq<int>): seq<int> {
    if s == [] || x > s[0] then [x] + s else [s[0]] + InsertDescending(x, s[1..])
  }

  function SortDescending(s: seq<int>): seq<int> {
    if s == [] then [] else InsertDescending(s[|s| - 1], SortDescending(s[..|s| - 1]))
  }

  lemma InsertDescendingLength(x: int, s: seq<int>)
    ensures |InsertDescending(x, s)| == |s| + 1
  {}

  lemma SortDescendingLength(s: seq<int>)
    ensures |SortDescending(s)| == |s|
  {
    if s != [] {
      SortDescendingLength(s[..|s| - 1]);
      InsertDescendingLength(s[|s| - 1], SortDescending(s[..|s| - 1]));
    }
  }

  /** The match index at the middle position of the descending order. */
  function MiddleMatch(matchIndex: seq<int>): int
    requires matchIndex != []
  {
    SortDescendingLength(matchIndex);
    SortDescending(matchIndex)[|matchIndex| / 2]
  }

  /** Commits the middle match index when it is new and of the leader's own term. */
  function UpdateCommit(s: Server, me: nat): (Server, seq<ApplyMsg>)
    requires me < |s.matchIndex| && -1 <= s.lastApplied && -1 <= s.commitIndex
    requires MiddleMatch(s.matchIndex[me := LastIndex(s.log)]) < |s.log|
  {
    var s1 := s.(matchIndex := s.matchIndex[me := LastIndex(s.log)]);
    var m := MiddleMatch(s1.matchIndex);
    if m > s1.commitIndex && s1.log[m].term == s1.currentTerm then CommitTo(s1, m) else (s1, [])
  }

  /** Where a rejected leader resumes for this follower. */
  function BackoffIndex(log: seq<Entry>, r: AppendReply): int {
    if r.conflictTerm != NULL && PastLastOfTerm(log, r.conflictTerm) > 0
    then PastLastOfTerm(log, r.conflictTerm)
    else r.conflictIndex
  }

  /** Whether the reply still concerns the reign the request was sent in. */
  predicate StillLeading(s: Server, a: AppendArgs) {
    s.role == Leader && s.currentTerm == a.term
  }

  function RecordMatch(s: Server, j: nat, index: int): Server
    requires j < |s.nextIndex| && j < |s.matchIndex|
  {
    s.(matchIndex := s.matchIndex[j := index], nextIndex := s.nextIndex[j := index + 1])
  }

  predicate CanReceive(s: Server, me: nat, j: nat, a: AppendArgs, r: AppendReply) {
    && j < |s.nextIndex| && j < |s.matchIndex| && me < |s.matchIndex|
    && -1 <= s.lastApplied && -1 <= s.commitIndex
    && (r.success ==>
          MiddleMatch(s.matchIndex[j := a.prevLogIndex + |a.entries|][me := LastIndex(s.log)]) < |s.log|)
  }

  function ReceiveAppendReply(s: Server, me: nat, j: nat, a: AppendArgs, r: AppendReply): (Server, seq<ApplyMsg>)
    requires StillLeading(s, a) && r.term <= s.currentTerm ==> CanReceive(s, me, j, a, r)
  {
    if !StillLeading(s, a) then (s, [])
    else if r.term > s.currentTerm then (BeFollower(s, r.term), [])
    else if r.success then UpdateCommit(RecordMatch(s, j, a.prevLogIndex + |a.entries|), me)
    else (s.(nextIndex := s.nextIndex[j := BackoffIndex(s.log, r)]), [])
  }

  function Start(s: Server, command: Command): Server {
    if s.role == Leader then s.(log := s.log + [Entry(s.currentTerm, command)]) else s
  }
}

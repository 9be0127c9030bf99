/** The cluster as objects: every server is a Raft object with the goroutines that wait on its behalf. Along any
    run of the protocol the objects take exactly its steps. */
module RaftCluster {
  import opened RaftServer
  import opened RaftProtocol
  import opened RaftTheorems
  import opened RaftDelivery
  import opened Quorums
  import RaftSteps
  import RaftPeer

  /** What a step does apart from its own server: the messages sent, and the commands put on the apply channel. */
  datatype Effect = Effect(sent: set<Message>, applied: seq<ApplyMsg>)

  class Host {
    const me: nat
    const peers: nat
    var raft: RaftPeer.Raft
    var announced: nat
    var elections: map<nat, Election>

    ghost function View(): Node
      reads this, raft, raft.nextIndex, raft.matchIndex
    {
      Node(raft.View(), announced, elections)
    }

    ghost function Repr(): set<object>
      reads this, raft
    {
      {this, raft, raft.nextIndex, raft.matchIndex}
    }

    ghost predicate Valid()
      reads this, raft
    {
      raft.Valid() && raft.me == me && raft.peers == peers
    }

    /** The host stands where the state's node does and may take the step. */
    ghost predicate CanTake(s: State, step: Step)
      reads this, raft, raft.nextIndex, raft.matchIndex
    {
      && Valid() && Enabled(s, step) && Actor(step) == me < |s.nodes| && peers == |s.nodes|
      && s.nodes[me] == View()
    }

    /** The host is where the step leads, its channel goes on from `before`, and the step did elsewhere what
        is said. */
    ghost predicate Took(s: State, step: Step, e: Effect, before: seq<ApplyMsg>)
      requires Enabled(s, step)
      reads this, raft, raft.nextIndex, raft.matchIndex
    {
      var s' := Apply(s, step);
      && Valid() && me < |s.nodes| == |s'.nodes| && View() == s'.nodes[me]
      && s'.net == s.net + e.sent && s'.hist.delivered == s.hist.delivered + Delivered(me, e.applied)
      && e.applied == Puts(s, step) && raft.applied == ChannelAfter(s, step, me, before)
    }

    constructor (me: nat, peers: nat)
      ensures Valid() && this.me == me && this.peers == peers && View() == Boot(NewServer())
      ensures fresh(Repr()) && raft.applied == []
    {
      this.me, this.peers := me, peers;
      raft := new RaftPeer.Raft.Make(me, peers, RaftPeer.Empty);
      announced, elections := 0, map[];
    }

    /** A timer fires: a new candidate announces an election. */
    method Timeout(ghost s: State) returns (e: Effect)
      requires CanTake(s, RaftProtocol.Timeout(me))
      modifies Repr()
      ensures Took(s, RaftProtocol.Timeout(me), e, old(raft.applied)) && fresh(Repr() - old(Repr()))
    {
      raft.BeCandidate();
      announced := announced + 1;
      e := Effect({}, []);
    }

    /** The goroutine that was announced asks every other server for its vote. */
    method BeginElection(ghost s: State, id: nat) returns (e: Effect)
      requires CanTake(s, RaftProtocol.BeginElection(me)) && id == s.nextId
      modifies Repr()
      ensures Took(s, RaftProtocol.BeginElection(me), e, old(raft.applied)) && fresh(Repr() - old(Repr()))
    {
      var lastTerm := if |raft.log| == 0 then -1 else raft.log[|raft.log| - 1].term;
      var args := VoteArgs(raft.currentTerm, me, |raft.log| - 1, lastTerm);
      var waiting: set<nat> := {};
      for p := 0 to peers
        invariant waiting == set q: nat | 0 <= q < p && IsPeer(q, peers, me)
      {
        if p != me { waiting := waiting + {p}; }
      }
      assert waiting == Others(peers, me);
      announced, elections := announced - 1, elections[id := Election(args, 1, waiting)];
      e := Effect(set p | p in waiting :: VoteRequest(me, p, id, args), []);
    }

    method ReceiveVoteRequest(ghost s: State, m: Message) returns (e: Effect)
      requires CanTake(s, RaftProtocol.ReceiveVoteRequest(m))
      modifies Repr()
      ensures Took(s, RaftProtocol.ReceiveVoteRequest(m), e, old(raft.applied)) && fresh(Repr() - old(Repr()))
    {
      var reply := raft.RequestVote(m.vote);
      e := Effect({VoteResponse(me, m.src, m.id, m.vote, reply)}, []);
    }

    /** A vote call returns to the goroutine that made it. */
    method ReceiveVoteResponse(ghost s: State, m: Message) returns (e: Effect)
      requires CanTake(s, RaftProtocol.ReceiveVoteResponse(m))
      modifies Repr()
      ensures Took(s, RaftProtocol.ReceiveVoteResponse(m), e, old(raft.applied)) && fresh(Repr() - old(Repr()))
    {
      var election := elections[m.id];
      var votes := raft.ReceiveVoteReply(election.args, election.votes, m.granted);
      elections := elections[m.id := election.(votes := votes, waiting := election.waiting - {m.src})];
      e := Effect({}, []);
    }

    method SendAppend(ghost s: State, j: nat) returns (e: Effect)
      requires CanTake(s, RaftProtocol.SendAppend(me, j))
      modifies Repr()
      ensures Took(s, RaftProtocol.SendAppend(me, j), e, old(raft.applied)) && fresh(Repr() - old(Repr()))
    {
      var args := raft.PrepareAppend(j);
      e := Effect({AppendRequest(me, j, args)}, []);
    }

    method ReceiveAppendRequest(ghost s: State, m: Message) returns (e: Effect)
      requires CanTake(s, RaftProtocol.ReceiveAppendRequest(m))
      modifies Repr()
      ensures Took(s, RaftProtocol.ReceiveAppendRequest(m), e, old(raft.applied)) && fresh(Repr() - old(Repr()))
    {
      var before := |raft.applied|;
      var reply := raft.AppendEntries(m.append);
      e := Effect({AppendResponse(me, m.src, m.append, reply)}, raft.applied[before..]);
    }

    method ReceiveAppendResponse(ghost s: State, m: Message) returns (e: Effect)
      requires CanTake(s, RaftProtocol.ReceiveAppendResponse(m))
      modifies Repr()
      ensures Took(s, RaftProtocol.ReceiveAppendResponse(m), e, old(raft.applied)) && fresh(Repr() - old(Repr()))
    {
      var before := |raft.applied|;
      raft.ReceiveAppendReply(m.src, m.append, m.answer);
      e := Effect({}, raft.applied[before..]);
    }

    method Client(ghost s: State, command: Command) returns (e: Effect)
      requires CanTake(s, RaftProtocol.Client(me, command))
      modifies Repr()
      ensures Took(s, RaftProtocol.Client(me, command), e, old(raft.applied)) && fresh(Repr() - old(Repr()))
    {
      var index, term, isLeader := raft.Start(command);
      e := Effect({}, []);
    }

    /** The process dies, with all its goroutines, and a new object is made over what was persisted. */
    method Restart()
      requires Valid()
      modifies this`raft, this`announced, this`elections
      ensures Valid() && View() == Boot(RaftServer.Restart(old(raft.View()))) && raft.applied == [] && fresh(Repr() - old(Repr()))
    {
      raft := new RaftPeer.Raft.Make(me, peers, raft.persister);
      announced, elections := 0, map[];
    }

    method Crash(ghost s: State) returns (e: Effect)
      requires CanTake(s, RaftProtocol.Crash(me))
      modifies Repr()
      ensures Took(s, RaftProtocol.Crash(me), e, old(raft.applied)) && fresh(Repr() - old(Repr()))
    {
      Restart();
      e := Effect({}, []);
    }

    /** The process dies in a handler that has saved the larger term and nothing else. */
    method CrashAfterTerm(ghost s: State, m: Message) returns (e: Effect)
      requires CanTake(s, RaftProtocol.CrashAfterTerm(m))
      modifies Repr()
      ensures Took(s, RaftProtocol.CrashAfterTerm(m), e, old(raft.applied)) && fresh(Repr() - old(Repr()))
    {
      var term := if m.VoteRequest? then m.vote.term else m.append.term;
      if term > raft.currentTerm { raft.BeFollower(term); }
      Restart();
      e := Effect({}, []);
    }

    method Take(ghost s: State, step: Step, id: nat) returns (e: Effect)
      requires CanTake(s, step) && id == s.nextId
      modifies Repr()
      ensures Took(s, step, e, old(raft.applied)) && fresh(Repr() - old(Repr()))
    {
      hide Took, Apply, InRange;
      match step {
        case Timeout(i) => e := Timeout(s);
        case BeginElection(i) => e := BeginElection(s, id);
        case ReceiveVoteRequest(m) => e := ReceiveVoteRequest(s, m);
        case ReceiveVoteResponse(m) => e := ReceiveVoteResponse(s, m);
        case SendAppend(i, j) => e := SendAppend(s, j);
        case ReceiveAppendRequest(m) => e := ReceiveAppendRequest(s, m);
        case ReceiveAppendResponse(m) => e := ReceiveAppendResponse(s, m);
        case Client(i, command) => e := Client(s, command);
        case Crash(i) => e := Crash(s);
        case CrashAfterTerm(m) => e := CrashAfterTerm(s, m);
      }
    }
  }

  // ----- all hosts

  ghost function Rafts(hosts: seq<Host>): set<RaftPeer.Raft>
    reads hosts
  {
    set k | 0 <= k < |hosts| :: hosts[k].raft
  }

  ghost function Arrays(hosts: seq<Host>): set<array<int>>
    reads hosts, Rafts(hosts)
  {
    (set r | r in Rafts(hosts) :: r.nextIndex) + (set r | r in Rafts(hosts) :: r.matchIndex)
  }

  /** All objects of the hosts. */
  ghost function Objects(hosts: seq<Host>): set<object>
    reads hosts, Rafts(hosts)
  {
    var own: set<object> := set h | h in hosts;
    var rafts: set<object>, arrays: set<object> := Rafts(hosts), Arrays(hosts);
    own + rafts + arrays
  }

  /** No two hosts share an object. */
  ghost predicate Apart(hosts: seq<Host>)
    reads hosts, Rafts(hosts)
  {
    forall j, k :: 0 <= j < |hosts| && 0 <= k < |hosts| && j != k ==> hosts[j].Repr() !! hosts[k].Repr()
  }

  /** The hosts are where the nodes of the state are. */
  ghost predicate Stand(hosts: seq<Host>, s: State)
    reads hosts, Rafts(hosts), Arrays(hosts)
  {
    && |hosts| == |s.nodes| && Apart(hosts)
    && forall k :: 0 <= k < |hosts| ==> Stands(hosts, k, s.nodes[k])
  }

  ghost predicate Stands(hosts: seq<Host>, k: nat, nd: Node)
    requires k < |hosts|
    reads hosts[k], hosts[k].raft, hosts[k].raft.nextIndex, hosts[k].raft.matchIndex
  {
    hosts[k].Valid() && hosts[k].me == k && hosts[k].peers == |hosts| && hosts[k].View() == nd
    && Exactly(nd.server, hosts[k].raft.applied)
  }

  method Deliver(hosts: seq<Host>, ghost s: State, step: Step, id: nat) returns (e: Effect)
    requires Reachable(s) && Stand(hosts, s) && Enabled(s, step) && id == s.nextId
    modifies Objects(hosts)
    ensures Stand(hosts, Apply(s, step))
    ensures Apply(s, step).net == s.net + e.sent
    ensures e.applied == Puts(s, step)
    ensures Apply(s, step).hist.delivered == s.hist.delivered + Delivered(Actor(step), e.applied)
    ensures forall o :: o in Objects(hosts) ==> o in old(Objects(hosts)) || fresh(o)
  {
    OthersStay(s, step);
    hide Apply, InRange, Host.CanTake, Host.Took, Stands, Apart, Puts;
    var i := Actor(step);
    ghost var before := hosts[i].raft.applied;
    StandsCanTake(hosts, s, step);
    e := TakeFresh(hosts, s, step, i, id);
    TookStands(hosts, s, step, e, before);
  }

  lemma StandsCanTake(hosts: seq<Host>, s: State, step: Step)
    requires Enabled(s, step) && Actor(step) < |hosts| == |s.nodes| && Stands(hosts, Actor(step), s.nodes[Actor(step)])
    ensures hosts[Actor(step)].CanTake(s, step) && Exactly(s.nodes[Actor(step)].server, hosts[Actor(step)].raft.applied)
    ensures hosts[Actor(step)].me == Actor(step) && hosts[Actor(step)].peers == |hosts|
  {
    hide Enabled, Exactly, Host.View, Host.Valid;
  }

  lemma TookStands(hosts: seq<Host>, s: State, step: Step, e: Effect, before: seq<ApplyMsg>)
    requires Reachable(s) && Enabled(s, step) && Actor(step) < |hosts| == |s.nodes|
    requires hosts[Actor(step)].me == Actor(step) && hosts[Actor(step)].peers == |hosts|
    requires hosts[Actor(step)].Took(s, step, e, before) && Exactly(s.nodes[Actor(step)].server, before)
    ensures |Apply(s, step).nodes| == |hosts| && Stands(hosts, Actor(step), Apply(s, step).nodes[Actor(step)])
    ensures Apply(s, step).net == s.net + e.sent && e.applied == Puts(s, step)
    ensures Apply(s, step).hist.delivered == s.hist.delivered + Delivered(Actor(step), e.applied)
  {
    hide Enabled, Apply, InRange, Exactly, ChannelAfter, Host.View, Host.Valid;
    RaftSteps.ReachableInv(s);
    StepExactly(s, step, Actor(step), before);
  }

  /** Everything another host works on. */
  ghost predicate KeepsObjects(hosts: seq<Host>, k: nat, r: RaftPeer.Raft, next: array<int>, matches: array<int>)
    requires k < |hosts|
    reads hosts[k], hosts[k].raft
  {
    hosts[k].raft == r && r.nextIndex == next && r.matchIndex == matches
  }

  /** All objects the hosts have afterwards are theirs from before or new. */
  method TakeFresh(hosts: seq<Host>, ghost s: State, step: Step, i: nat, id: nat) returns (e: Effect)
    requires Stand(hosts, s) && i < |hosts| && hosts[i].CanTake(s, step) && id == s.nextId
    modifies hosts[i].Repr()
    ensures hosts[i].Took(s, step, e, old(hosts[i].raft.applied)) && Apart(hosts)
    ensures forall k :: 0 <= k < |hosts| && k != i ==> Stands(hosts, k, s.nodes[k])
    ensures fresh(Objects(hosts) - old(Objects(hosts)))
  {
    hide Apply, InRange, Enabled, Host.CanTake, Host.Took, Stands, Stand, Apart;
    e := TakeAlone(hosts, s, step, i, id);
  }

  /** One host takes the step; the others stay as they are and share nothing with it. */
  method TakeAlone(hosts: seq<Host>, ghost s: State, step: Step, i: nat, id: nat) returns (e: Effect)
    requires Stand(hosts, s) && i < |hosts| && hosts[i].CanTake(s, step) && id == s.nextId
    modifies hosts[i].Repr()
    ensures hosts[i].Took(s, step, e, old(hosts[i].raft.applied)) && Apart(hosts) && fresh(hosts[i].Repr() - old(hosts[i].Repr()))
    ensures forall k :: 0 <= k < |hosts| && k != i ==>
      && Stands(hosts, k, s.nodes[k])
      && KeepsObjects(hosts, k, old(hosts[k].raft), old(hosts[k].raft.nextIndex), old(hosts[k].raft.matchIndex))
  {
    hide Apply, InRange, Host.CanTake, Host.Took, RaftPeer.Raft.View, RaftPeer.Raft.Valid, Host.View, Host.Valid;
    assert forall k :: 0 <= k < |hosts| && k != i ==> hosts[k].Repr() !! hosts[i].Repr() && Stands(hosts, k, s.nodes[k]);
    assert forall k :: 0 <= k < |hosts| ==> allocated(hosts[k].Repr());
    e := hosts[i].Take(s, step, id);
    forall j, k | 0 <= j < |hosts| && 0 <= k < |hosts| && j != k ensures hosts[j].Repr() !! hosts[k].Repr() {}
  }

  /** No two commands delivered at one index differ. */
  ghost predicate OneCommand(delivered: set<Delivery>) {
    forall d, e :: d in delivered && e in delivered && d.msg.index == e.msg.index ==> d.msg.command == e.msg.command
  }

  /** No two hosts lead one term. */
  ghost predicate OneLeader(hosts: seq<Host>)
    reads hosts, Rafts(hosts)
  {
    forall i, j | 0 <= i < |hosts| && 0 <= j < |hosts| && hosts[i].raft.role == hosts[j].raft.role == Leader ::
      hosts[i].raft.currentTerm == hosts[j].raft.currentTerm ==> i == j
  }

  /** Every host has put on its channel, since its object was made, exactly the commands of its log from the
      first to the last applied entry, each at its index, and has applied all it has committed. */
  ghost predicate InOrder(hosts: seq<Host>)
    reads hosts, Rafts(hosts)
  {
    forall i :: 0 <= i < |hosts| ==>
      var r := hosts[i].raft;
      && r.commitIndex == r.lastApplied == |r.applied| < |r.log|
      && forall k :: 0 <= k < |r.applied| ==> r.applied[k] == ApplyMsg(r.log[k + 1].command, k + 1)
  }

  /** Every host that leads has committed each entry of its own term that it knows a majority to hold. */
  ghost predicate AllCommitted(hosts: seq<Host>)
    reads hosts, Rafts(hosts), Arrays(hosts)
  {
    forall i, k :: 0 <= i < |hosts| && hosts[i].raft.role == Leader && 0 <= k < |hosts[i].raft.log| ==>
      var r := hosts[i].raft;
      r.log[k].term == r.currentTerm && Majority(Matching(r.matchIndex[..], k), |hosts|) ==> k <= r.commitIndex
  }

  lemma LiveWhereTheyStand(hosts: seq<Host>, s: State)
    requires Reachable(s) && Stand(hosts, s)
    ensures InOrder(hosts) && AllCommitted(hosts)
  {
    hide Reachable, Apart;
    forall i | 0 <= i < |hosts|
      ensures var r := hosts[i].raft;
        && r.commitIndex == r.lastApplied == |r.applied| < |r.log|
        && forall k :: 0 <= k < |r.applied| ==> r.applied[k] == ApplyMsg(r.log[k + 1].command, k + 1)
    {
      assert Stands(hosts, i, s.nodes[i]);
    }
    forall i, k | 0 <= i < |hosts| && hosts[i].raft.role == Leader && 0 <= k < |hosts[i].raft.log|
      ensures var r := hosts[i].raft;
        r.log[k].term == r.currentTerm && Majority(Matching(r.matchIndex[..], k), |hosts|) ==> k <= r.commitIndex
    {
      assert Stands(hosts, i, s.nodes[i]);
      LeaderSize(s, i);
      var r := hosts[i].raft;
      if r.log[k].term == r.currentTerm && Majority(Matching(r.matchIndex[..], k), |hosts|) { CommitsAll(s, i, k); }
    }
  }

  lemma LeaderSize(s: State, i: nat)
    requires Reachable(s) && i < |s.nodes| && s.nodes[i].server.role == Leader
    ensures |s.nodes[i].server.matchIndex| == |s.nodes|
  {
    RaftSteps.ReachableInv(s);
    RaftSteps.GetLeading(s, i);
  }

  lemma SafeWhereTheyStand(hosts: seq<Host>, s: State)
    requires Reachable(s) && Stand(hosts, s)
    ensures OneCommand(s.hist.delivered) && OneLeader(hosts)
  {
    hide Reachable, Apart;
    forall d, e | d in s.hist.delivered && e in s.hist.delivered && d.msg.index == e.msg.index
      ensures d.msg.command == e.msg.command
    {
      StateMachineSafety(s, d, e);
    }
    forall i, j | 0 <= i < |hosts| && 0 <= j < |hosts| && hosts[i].raft.role == hosts[j].raft.role == Leader
        && hosts[i].raft.currentTerm == hosts[j].raft.currentTerm
      ensures i == j
    {
      assert Stands(hosts, i, s.nodes[i]) && Stands(hosts, j, s.nodes[j]);
      assert Run(s, [], s);
      ElectionSafety(s, [], s, i, j, hosts[i].raft.currentTerm);
    }
  }

  ghost predicate Booted(hosts: seq<Host>, n: nat)
    reads hosts, Rafts(hosts), Arrays(hosts)
  {
    forall k :: 0 <= k < |hosts| ==>
      hosts[k].Valid() && hosts[k].me == k && hosts[k].peers == n && hosts[k].View() == Boot(NewServer()) && hosts[k].raft.applied == []
  }

  /** One more host, which shares nothing with the others and leaves them as they are. */
  method NewHost(hosts: seq<Host>, n: nat) returns (h: Host)
    requires Apart(hosts) && Booted(hosts, n)
    ensures h.Valid() && h.me == |hosts| && h.peers == n && h.View() == Boot(NewServer()) && h.raft.applied == []
    ensures fresh(h.Repr()) && (forall k :: 0 <= k < |hosts| ==> hosts[k].Repr() !! h.Repr())
    ensures Apart(hosts) && Booted(hosts, n) && Objects(hosts) == old(Objects(hosts))
  {
    hide RaftPeer.Raft.Valid, RaftPeer.Raft.View;
    h := new Host(|hosts|, n);
  }

  lemma BootedMore(hosts: seq<Host>, h: Host, n: nat)
    requires Booted(hosts, n) && h.Valid() && h.me == |hosts| && h.peers == n && h.View() == Boot(NewServer()) && h.raft.applied == []
    ensures Booted(hosts + [h], n)
  {
    hide Host.Valid, Host.View;
  }

  lemma ApartMore(hosts: seq<Host>, h: Host)
    requires Apart(hosts) && forall k :: 0 <= k < |hosts| ==> hosts[k].Repr() !! h.Repr()
    ensures Apart(hosts + [h])
  {
    hide Host.Repr;
  }

  method MakeHosts(n: nat) returns (hosts: seq<Host>)
    ensures |hosts| == n && Apart(hosts) && Booted(hosts, n) && fresh(Objects(hosts))
  {
    hide Booted, Apart, Objects, Host.Repr;
    hosts := [];
    NoHosts(n);
    for i := 0 to n
      invariant |hosts| == i && fresh(Objects(hosts)) && Apart(hosts) && Booted(hosts, n)
    {
      hosts := AddHost(hosts, n);
    }
  }

  method AddHost(hosts: seq<Host>, n: nat) returns (more: seq<Host>)
    requires Apart(hosts) && Booted(hosts, n)
    ensures |more| == |hosts| + 1 && Apart(more) && Booted(more, n)
    ensures forall o :: o in Objects(more) ==> o in old(Objects(hosts)) || fresh(o)
  {
    hide Booted, Apart, Objects, Host.Valid, Host.View;
    var h := NewHost(hosts, n);
    more := hosts + [h];
    BootedMore(hosts, h, n);
    ApartMore(hosts, h);
    ObjectsMore(hosts, h);
  }

  lemma ObjectsMore(hosts: seq<Host>, h: Host)
    ensures Objects(hosts + [h]) == Objects(hosts) + h.Repr()
  {
    var more := hosts + [h];
    assert forall k :: 0 <= k < |hosts| ==> more[k] == hosts[k];
    assert more[|hosts|] == h;
    assert Rafts(more) == Rafts(hosts) + {h.raft};
  }

  lemma NoHosts(n: nat)
    ensures Booted([], n) && Apart([]) && Objects([]) == {}
  {
  }

  lemma BootedStand(hosts: seq<Host>, s: State)
    requires Init(s) && |hosts| == |s.nodes| && Apart(hosts) && Booted(hosts, |hosts|)
    ensures Stand(hosts, s) && s.net == {} && s.hist.delivered == {}
  {
    hide Apart, Host.Valid, Host.View;
  }

  /** Any number of hosts through any run of lost, repeated and reordered messages, timeouts, commands and
      crashes: no object takes an index out of range, together they are always where the run is and send
      what it sends, and so never lead one term twice or deliver two commands at one index. What a host has
      delivered is its applied log, whole and in order; a leader commits all that a majority holds; and only
      what clients sent is delivered. */
  method Cluster(n: nat, ghost states: seq<State>, steps: seq<Step>, firstId: nat)
    returns (hosts: seq<Host>, net: set<Message>, delivered: set<Delivery>)
    requires Runs(states, steps) && |states[0].nodes| == n && firstId == states[0].nextId
    ensures Stand(hosts, states[|steps|]) && net == states[|steps|].net && delivered == states[|steps|].hist.delivered
    ensures OneCommand(delivered) && OneLeader(hosts) && InOrder(hosts) && AllCommitted(hosts)
    ensures forall d :: d in delivered ==> d.msg.command in Sent(steps)
  {
    hide InOrder, AllCommitted, Sent, Apply, InRange, Possible, Stand, Reachable, OneCommand, OneLeader, Apart, Booted, Actor, Delivered, Objects;
    hosts := MakeHosts(n);
    BootedStand(hosts, states[0]);
    net, delivered := {}, {};
    var id := firstId;
    for k := 0 to |steps|
      invariant fresh(Objects(hosts))
      invariant Stand(hosts, states[k]) && id == states[k].nextId
      invariant net == states[k].net && delivered == states[k].hist.delivered
    {
      RunsReach(states, steps, k);
      OthersStay(states[k], steps[k]);
      var e := Deliver(hosts, states[k], steps[k], id);
      net, delivered := net + e.sent, delivered + Delivered(Actor(steps[k]), e.applied);
      if steps[k].BeginElection? { id := id + 1; }
    }
    RunsReach(states, steps, |steps|);
    SafeWhereTheyStand(hosts, states[|steps|]);
    LiveWhereTheyStand(hosts, states[|steps|]);
    AllDeliveredSent(states, steps, |steps|);
    assert steps[..|steps|] == steps;
  }
}

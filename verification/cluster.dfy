/** The cluster: its nodes, and the messages ever sent.  A message may be delivered late, repeatedly or
    never; every step is one critical section of one node. */
module Cluster {
  import opened Types
  import opened LogStorage
  import opened StateMap
  import opened NodeStore
  import opened RaftNode

  datatype Message =
    | VoteAsk(src: Id, ballot: nat, dst: Id, ask: VoteRequest)
    | VoteAnswer(src: Id, ballot: nat, dst: Id, answer: VoteResponse)
    | AppendAsk(src: Id, dst: Id, sent: Sent, request: AppendRequest)
    | AppendAnswer(src: Id, dst: Id, sent: Sent, response: AppendResponse)

  datatype Election = Election(ballot: nat, voters: set<Id>)
  datatype Writing = Writing(author: Id, command: Command)

  /** Beside the nodes and the messages: who was ever elected in which term by whom, and which leader
      ever wrote which command as a new entry of which index and term. */
  datatype System = System(
    nodes: map<Id, Node>, net: set<Message>,
    elected: map<(Id, nat), Election>, written: map<(nat, nat), Writing>)

  datatype Action =
    | Timeout(n: Id)
    | AskVote(n: Id, ballot: nat, dst: Id)
    | AnswerVote(m: Message)
    | CountVote(m: Message, initial: seq<Command>)
    | SendAppend(n: Id, dst: Id, maximumLength: nat, startTerm: nat)
    | AnswerAppend(m: Message)
    | CountAppend(m: Message)
    | ClientAppend(n: Id, command: Command)
    | Apply(n: Id)
    | BackUp(n: Id)

  /** What the code lets happen. */
  ghost predicate Possible(s: System, a: Action) {
    match a
    case Timeout(n) => n in s.nodes && (s.nodes[n].role == Candidate || s.nodes[n].role == Follower)
    case AskVote(n, b, dst) => n in s.nodes && b < |s.nodes[n].ballots| && dst in s.nodes[n].peers && AskForVote(s.nodes[n], b).Some?
    case AnswerVote(m) => m in s.net && m.VoteAsk? && m.dst in s.nodes
    case CountVote(m, _) => m in s.net && m.VoteAnswer? && m.src in s.nodes && m.ballot < |s.nodes[m.src].ballots|
    case SendAppend(n, dst, maximumLength, startTerm) =>
      n in s.nodes && dst in s.nodes[n].peers && s.nodes[n].role == Leader && startTerm <= s.nodes[n].currentTerm
      && PrepareAppend(s.nodes[n], dst, maximumLength).Batch?
    case AnswerAppend(m) => m in s.net && m.AppendAsk? && m.dst in s.nodes
    case CountAppend(m) => m in s.net && m.AppendAnswer? && m.src in s.nodes
    case ClientAppend(n, _) => n in s.nodes && s.nodes[n].role == Leader
    case Apply(n) => n in s.nodes
    case BackUp(n) => n in s.nodes
  }

  /** The hypothesis of the safety theorems: no answer makes a node retreat.  That is the case exactly for
      timely answers. */
  ghost predicate Timely(s: System, a: Action)
    requires Possible(s, a)
  {
    match a
    case CountVote(m, _) => VoteIsTimely(s.nodes[m.src], m.ballot, m.answer)
    case CountAppend(m) => AppendIsTimely(s.nodes[m.src], m.sent, m.response)
    case _ => true
  }

  ghost predicate Enabled(s: System, a: Action) {
    Possible(s, a) && Timely(s, a)
  }

  /** The entries that the author's log has gained at its end, all in its term. */
  ghost function Gained(author: Id, term: nat, before: Log, after: Log): map<(nat, nat), Writing> {
    map i | before.maximumIndex < i <= after.maximumIndex && i in after.entries :: (i, term) := Writing(author, after.entries[i].command)
  }

  ghost function Update(s: System, n: Node): System {
    s.(nodes := s.nodes[n.id := n])
  }

  ghost function Send(s: System, m: Message): System {
    s.(net := s.net + {m})
  }

  ghost function YesVotes(b: Ballot): set<Id> {
    set p | p in b.voteMap && b.voteMap[p]
  }

  ghost function Next(s: System, a: Action): System
    requires Possible(s, a)
  {
    match a
    case Timeout(n) => Update(s, StartCandidacy(s.nodes[n]))
    case AskVote(n, b, dst) => Send(s, VoteAsk(n, b, dst, AskForVote(s.nodes[n], b).value))
    case AnswerVote(m) =>
      var (n, r) := HandleVoteRequest(s.nodes[m.dst], m.ask);
      var s1 := Update(s, n);
      if r.None? then s1 else Send(s1, VoteAnswer(m.src, m.ballot, m.dst, r.value))
    case CountVote(m, initial) =>
      var before := s.nodes[m.src];
      var n := HandleVoteResponse(before, m.ballot, m.dst, m.answer, initial);
      var s1 := Update(s, n);
      if before.role == Candidate && n.role == Leader then
        s1.(elected := s.elected[(m.src, n.currentTerm) := Election(m.ballot, YesVotes(n.ballots[m.ballot]))],
            written := s.written + Gained(m.src, n.currentTerm, before.store.log, n.store.log))
      else s1
    case SendAppend(n, dst, maximumLength, startTerm) =>
      var r := PrepareAppend(s.nodes[n], dst, maximumLength).request;
      Send(s, AppendAsk(n, dst, Sent(startTerm, r.prevEntryIndex + 1, |r.entryList|), r))
    case AnswerAppend(m) =>
      var (n, r) := HandleAppendRequest(s.nodes[m.dst], m.request);
      var s1 := Update(s, n);
      if r.None? then s1 else Send(s1, AppendAnswer(m.src, m.dst, m.sent, r.value))
    case CountAppend(m) => Update(s, HandleAppendResponse(s.nodes[m.src], m.dst, m.sent, m.response))
    case ClientAppend(n, command) =>
      var before := s.nodes[n];
      var log := Append(before.store.log, before.currentTerm, command);
      Update(s, before.(store := before.store.(log := log))).(written := s.written + Gained(n, before.currentTerm, before.store.log, log))
    case Apply(n) => Update(s, s.nodes[n].(store := CommitProcedure(s.nodes[n].store)))
    case BackUp(n) =>
      Update(s, s.nodes[n].(store := s.nodes[n].store.(lastBackupIndex := s.nodes[n].store.commitIndex)))
  }

  /** A fresh cluster of distinct non-zero ids that all know each other. */
  ghost predicate Init(s: System) {
    && 0 !in s.nodes && s.net == {} && s.elected == map[] && s.written == map[]
    && forall n :: n in s.nodes ==>
         s.nodes[n] == Node(n, s.nodes.Keys - {n}, Follower, 1, 0, EMPTY_STORE,
                            map p | p in s.nodes.Keys - {n} :: 0, map p | p in s.nodes.Keys - {n} :: 0, [])
  }

  ghost predicate Leads(s1: System, actions: seq<Action>, s2: System)
    decreases |actions|
  {
    if actions == [] then s1 == s2
    else Enabled(s1, actions[0]) && Leads(Next(s1, actions[0]), actions[1..], s2)
  }

  ghost predicate ReachedFrom(s0: System, actions: seq<Action>, s: System) {
    Init(s0) && Leads(s0, actions, s)
  }

  ghost predicate Reachable(s: System) {
    exists s0, actions :: ReachedFrom(s0, actions, s)
  }

  lemma {:induction false} LeadsOn(s1: System, actions: seq<Action>, s2: System, a: Action)
    requires Leads(s1, actions, s2) && Enabled(s2, a)
    ensures Leads(s1, actions + [a], Next(s2, a))
    decreases |actions|
  {
    if actions == [] {
      assert ([] + [a])[1..] == [];
      assert Leads(Next(s1, a), [], Next(s2, a));
    } else {
      LeadsOn(Next(s1, actions[0]), actions[1..], s2, a);
      assert (actions + [a])[1..] == actions[1..] + [a];
    }
  }

  lemma ReachableGoesOn(s: System, a: Action)
    requires Reachable(s) && Enabled(s, a)
    ensures Reachable(Next(s, a))
  {
    var s0, actions :| ReachedFrom(s0, actions, s);
    LeadsOn(s0, actions, s, a);
    assert ReachedFrom(s0, actions + [a], Next(s, a));
  }

  lemma {:induction false} RunIsReachable(s1: System, actions: seq<Action>, s2: System)
    requires Reachable(s1) && Leads(s1, actions, s2)
    ensures Reachable(s2)
    decreases |actions|
  {
    hide Reachable, Next, Possible;
    if actions != [] {
      ReachableGoesOn(s1, actions[0]);
      RunIsReachable(Next(s1, actions[0]), actions[1..], s2);
    }
  }
}

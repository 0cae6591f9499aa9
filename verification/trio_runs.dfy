/** Steps of concrete runs of three nodes, for the things that the code does not keep. */
module TrioRuns {
  import opened Types
  import opened LogStorage
  import opened StateMap
  import opened NodeStore
  import opened RaftNode
  import opened Cluster

  const Trio: set<Id> := {1, 2, 3}

  /** A node of the trio with this store. */
  ghost predicate Has(s: System, n: Id, role: Role, term: nat, store: Store) {
    && s.nodes.Keys == Trio && n in Trio
    && s.nodes[n].id == n && s.nodes[n].peers == Trio - {n} && s.nodes[n].role == role
    && s.nodes[n].currentTerm == term && s.nodes[n].store == store
  }

  /** A node of the trio with an empty log. */
  ghost predicate Is(s: System, n: Id, role: Role, term: nat, voted: Id) {
    Has(s, n, role, term, EMPTY_STORE) && s.nodes[n].votedPeer == voted
  }

  /** A store with one entry. */
  function Single(e: Entry, committed: nat): Store {
    EMPTY_STORE.(log := Log(map[1 := e], 1), commitIndex := committed)
  }

  /** A store with two entries, of which nothing is committed. */
  function Double(e1: Entry, e2: Entry): Store {
    EMPTY_STORE.(log := Log(map[1 := e1, 2 := e2], 2))
  }

  ghost predicate Uncounted(b: Ballot, n: Id, term: nat) {
    b.term == term && b.collected == 1 && forall p :: p in b.voteMap && b.voteMap[p] ==> p == n
  }

  /** Candidacy b of node n is of this term, and nobody else's vote is counted in it. */
  ghost predicate Runs(s: System, n: Id, b: nat, term: nat) {
    n in s.nodes && b < |s.nodes[n].ballots| && Uncounted(s.nodes[n].ballots[b], n, term)
  }

  /** The step touches one node only and forgets no message. */
  ghost predicate Only(s: System, s': System, n: Id) {
    && s'.nodes.Keys == s.nodes.Keys && s.net <= s'.net && s.elected.Keys <= s'.elected.Keys
    && forall k :: k in s.nodes && k != n ==> s'.nodes[k] == s.nodes[k]
  }

  // ---------------------------------------------------------------------------------------------
  // Runs
  // ---------------------------------------------------------------------------------------------

  ghost predicate Comes(s1: System, s2: System) {
    exists actions :: Leads(s1, actions, s2)
  }

  lemma ComesOn(s1: System, s2: System, a: Action)
    requires Comes(s1, s2) && Enabled(s2, a)
    ensures Comes(s1, Next(s2, a))
  {
    var actions :| Leads(s1, actions, s2);
    LeadsOn(s1, actions, s2, a);
  }

  lemma ComesToItself(s: System)
    ensures Comes(s, s)
  {
    assert Leads(s, [], s);
  }

  // ---------------------------------------------------------------------------------------------
  // Elections
  // ---------------------------------------------------------------------------------------------

  /** A node that does not lead starts a candidacy, with the next number. */
  lemma TimesOut(s: System, n: Id, role: Role, term: nat, store: Store) returns (s': System)
    requires Has(s, n, role, term, store) && (role == Follower || role == Candidate)
    ensures Enabled(s, Timeout(n)) && s' == Next(s, Timeout(n)) && Only(s, s', n)
    ensures Has(s', n, Candidate, term + 1, store) && s'.nodes[n].votedPeer == n
    ensures |s'.nodes[n].ballots| == |s.nodes[n].ballots| + 1
    ensures s.nodes[n].ballots <= s'.nodes[n].ballots && Runs(s', n, |s.nodes[n].ballots|, term + 1)
  {
    s' := Next(s, Timeout(n));
  }

  lemma Asks(s: System, n: Id, term: nat, store: Store, b: nat, dst: Id) returns (s': System, m: Message)
    requires Has(s, n, Candidate, term, store) && Runs(s, n, b, term) && dst in Trio && dst != n && LastTerm(store.log).Some?
    ensures Enabled(s, AskVote(n, b, dst)) && s' == Next(s, AskVote(n, b, dst)) && Only(s, s', n)
    ensures s'.nodes == s.nodes && m in s'.net
    ensures m == VoteAsk(n, b, dst, VoteRequest(term, n, store.log.maximumIndex, LastTerm(store.log).value))
  {
    m := VoteAsk(n, b, dst, VoteRequest(term, n, store.log.maximumIndex, LastTerm(store.log).value));
    s' := Next(s, AskVote(n, b, dst));
  }

  /** A node votes for a higher term whatever the logs are, or in its own term when it is free and its log
      is empty. */
  lemma Agrees(s: System, n: Id, role: Role, term: nat, store: Store, m: Message) returns (s': System, a: Message)
    requires Has(s, n, role, term, store) && role != Dead
    requires m in s.net && m.VoteAsk? && m.dst == n && m.ask.nodeId == m.src
    requires m.ask.term > term
          || (m.ask.term == term && role == Follower && s.nodes[n].votedPeer == 0 && store == EMPTY_STORE)
    ensures Enabled(s, AnswerVote(m)) && s' == Next(s, AnswerVote(m)) && Only(s, s', n)
    ensures Has(s', n, Follower, m.ask.term, store) && s'.nodes[n].votedPeer == m.src
    ensures s'.nodes[n].ballots == s.nodes[n].ballots
    ensures a in s'.net && a == VoteAnswer(m.src, m.ballot, n, VoteResponse(m.ask.term, n, true))
  {
    a := VoteAnswer(m.src, m.ballot, n, VoteResponse(m.ask.term, n, true));
    s' := Next(s, AnswerVote(m));
  }

  /** The second vote of three makes a leader; with nothing to apply and nothing to write its store stays. */
  lemma Wins(s: System, n: Id, term: nat, store: Store, a: Message) returns (s': System)
    requires a in s.net && a.VoteAnswer? && a.src == n && a.dst != n && a.answer == VoteResponse(term, a.dst, true)
    requires Has(s, n, Candidate, term, store) && Runs(s, n, a.ballot, term) && store.commitIndex <= store.lastAppliedIndex
    ensures Enabled(s, CountVote(a, [])) && s' == Next(s, CountVote(a, [])) && Only(s, s', n)
    ensures (n, term) in s'.elected && Has(s', n, Leader, term, store) && s'.nodes[n].votedPeer == s.nodes[n].votedPeer
    ensures |s'.nodes[n].ballots| == |s.nodes[n].ballots|
    ensures forall i :: 0 <= i < |s.nodes[n].ballots| && i != a.ballot ==> s'.nodes[n].ballots[i] == s.nodes[n].ballots[i]
    ensures forall p :: p in Trio && p != n ==> p in s'.nodes[n].nextIndex && s'.nodes[n].nextIndex[p] == store.log.maximumIndex + 1
  {
    hide HandleVoteResponse, Gained, YesVotes;
    SecondVoteElects(s.nodes[n], a.ballot, a.dst, a.answer);
    s' := Next(s, CountVote(a, []));
  }

  lemma SecondVoteElects(n: Node, b: nat, peer: Id, r: VoteResponse)
    requires n.role == Candidate && n.id in Trio && n.peers == Trio - {n.id} && peer != n.id && b < |n.ballots|
    requires r == VoteResponse(n.currentTerm, peer, true) && Uncounted(n.ballots[b], n.id, n.currentTerm)
    requires n.store.commitIndex <= n.store.lastAppliedIndex
    ensures var after := HandleVoteResponse(n, b, peer, r, []);
            && after == n.(role := Leader, ballots := after.ballots, nextIndex := after.nextIndex)
            && after.nextIndex == (map p | p in n.peers :: Max(n) + 1)
            && |after.ballots| == |n.ballots| && forall i :: 0 <= i < |n.ballots| && i != b ==> after.ballots[i] == n.ballots[i]
  {
    assert |n.peers| == 2 by { assert Trio == n.peers + {n.id}; }
  }

  /** Node 1 leads term 2; node 3 has heard of nothing. */
  lemma NodeOneLeads(s0: System) returns (s: System)
    requires Init(s0) && s0.nodes.Keys == Trio
    ensures Comes(s0, s) && (1, 2) in s.elected
    ensures Is(s, 1, Leader, 2, 1) && |s.nodes[1].ballots| == 1
    ensures Is(s, 2, Follower, 2, 1) && Is(s, 3, Follower, 1, 0) && s.nodes[3].ballots == []
    ensures 2 in s.nodes[1].nextIndex && s.nodes[1].nextIndex[2] == 1
  {
    hide Comes;
    ComesToItself(s0);
    var s1 := TimesOut(s0, 1, Follower, 1, EMPTY_STORE);
    ComesOn(s0, s0, Timeout(1));
    var s2, ask := Asks(s1, 1, 2, EMPTY_STORE, 0, 2);
    ComesOn(s0, s1, AskVote(1, 0, 2));
    var s3, vote := Agrees(s2, 2, Follower, 1, EMPTY_STORE, ask);
    ComesOn(s0, s2, AnswerVote(ask));
    s := Wins(s3, 1, 2, EMPTY_STORE, vote);
    ComesOn(s0, s3, CountVote(vote, []));
  }

  // ---------------------------------------------------------------------------------------------
  // Writing and replicating
  // ---------------------------------------------------------------------------------------------

  /** A leader's new entry. */
  lemma Writes(s: System, n: Id, term: nat, store: Store, command: Command) returns (s': System)
    requires Has(s, n, Leader, term, store)
    ensures Enabled(s, ClientAppend(n, command)) && s' == Next(s, ClientAppend(n, command)) && Only(s, s', n)
    ensures Has(s', n, Leader, term, store.(log := Append(store.log, term, command)))
    ensures s'.nodes[n].nextIndex == s.nodes[n].nextIndex && s'.nodes[n].ballots == s.nodes[n].ballots
  {
    hide Append;
    s' := Next(s, ClientAppend(n, command));
  }

  lemma AppendOneOrTwo(term: nat, first: Command, second: Command)
    ensures var e1, e2 := Entry(term, 1, first), Entry(term, 2, second);
            && EMPTY_STORE.(log := Append(EMPTY_LOG, term, first)) == Single(e1, 0)
            && Single(e1, 0).(log := Append(Single(e1, 0).log, term, second)) == Double(e1, e2)
  {
  }

  /** The leader's first batch. */
  lemma SendsOne(s: System, n: Id, term: nat, e: Entry, dst: Id) returns (s': System, m: Message)
    requires Has(s, n, Leader, term, Single(e, 0)) && dst in Trio && dst != n
    requires dst in s.nodes[n].nextIndex && s.nodes[n].nextIndex[dst] == 1
    ensures Enabled(s, SendAppend(n, dst, 1, term)) && s' == Next(s, SendAppend(n, dst, 1, term)) && Only(s, s', n)
    ensures s'.nodes == s.nodes && m in s'.net
    ensures m == AppendAsk(n, dst, Sent(term, 1, 1), AppendRequest(term, n, 0, 0, 0, [e]))
  {
    var log := s.nodes[n].store.log;
    assert Slice(log, 0, 0) == Some([]);
    assert Slice(log, 0, 1) == Some([] + [e]);
    assert PrepareAppend(s.nodes[n], dst, 1) == Batch(AppendRequest(term, n, 0, 0, 0, [e]));
    m := AppendAsk(n, dst, Sent(term, 1, 1), AppendRequest(term, n, 0, 0, 0, [e]));
    s' := Next(s, SendAppend(n, dst, 1, term));
  }

  /** A node takes the first entry of a leader, whatever it holds there and has committed. */
  lemma Takes(s: System, n: Id, role: Role, term: nat, store: Store, m: Message, e: Entry) returns (s': System, a: Message)
    requires Has(s, n, role, term, store) && (role == Follower || role == Leader)
    requires store == EMPTY_STORE || exists e0 :: store == Single(e0, store.commitIndex)
    requires m in s.net && m.AppendAsk? && m.dst == n && m.request == AppendRequest(m.request.term, m.src, 0, 0, 0, [e])
    requires e.index == 1 && (m.request.term > term || (m.request.term == term && role == Follower))
    ensures Enabled(s, AnswerAppend(m)) && s' == Next(s, AnswerAppend(m)) && Only(s, s', n)
    ensures Has(s', n, Follower, m.request.term, Single(e, store.commitIndex))
    ensures a in s'.net && a == AppendAnswer(m.src, n, m.sent, AppendResponse(m.request.term, n, 0, 0, store.commitIndex, true))
  {
    var r := m.request;
    assert r.entryList[..|r.entryList| - 1] == [];
    assert InsertList(store.log, r.entryList) == Log(map[1 := e], 1) by {
      assert InsertList(store.log, []) == store.log;
    }
    a := AppendAnswer(m.src, n, m.sent, AppendResponse(m.request.term, n, 0, 0, store.commitIndex, true));
    s' := Next(s, AnswerAppend(m));
  }

  // ---------------------------------------------------------------------------------------------
  // A leader that is elected again
  // ---------------------------------------------------------------------------------------------

  /** For any two commands: node 1 writes both in term 2, node 2 has the first only, nothing is committed;
      then a rival unseats node 1, which is elected again in term 4 with the vote of node 2. */
  lemma ElectedAgain(s0: System, first: Command, second: Command) returns (s: System)
    requires Init(s0) && s0.nodes.Keys == Trio
    ensures Comes(s0, s) && (1, 4) in s.elected
    ensures var e1, e2 := Entry(2, 1, first), Entry(2, 2, second);
            Has(s, 1, Leader, 4, Double(e1, e2)) && Has(s, 2, Follower, 4, Single(e1, 0))
    ensures forall p :: p in Trio && p != 1 ==> p in s.nodes[1].nextIndex && s.nodes[1].nextIndex[p] == 3
  {
    hide Comes, Next, Enabled;
    var e1, e2 := Entry(2, 1, first), Entry(2, 2, second);
    var t := NodeOneLeads(s0);
    var t1 := WritesTwo(s0, t, first, second);
    var t2, ask := RivalAsks(s0, t1, Double(e1, e2));
    var t3, vote := Agrees(t2, 1, Leader, 2, Double(e1, e2), ask);
    ComesOn(s0, t2, AnswerVote(ask));
    s := WinsAgain(s0, t3, e1, e2);
  }

  lemma WritesTwo(s0: System, t: System, first: Command, second: Command) returns (s: System)
    requires Comes(s0, t) && Is(t, 1, Leader, 2, 1) && |t.nodes[1].ballots| == 1 && Is(t, 2, Follower, 2, 1)
    requires Is(t, 3, Follower, 1, 0) && t.nodes[3].ballots == [] && 2 in t.nodes[1].nextIndex && t.nodes[1].nextIndex[2] == 1
    ensures var e1, e2 := Entry(2, 1, first), Entry(2, 2, second);
            Has(s, 1, Leader, 2, Double(e1, e2)) && Has(s, 2, Follower, 2, Single(e1, 0))
    ensures Comes(s0, s) && |s.nodes[1].ballots| == 1 && Is(s, 3, Follower, 1, 0) && s.nodes[3].ballots == []
  {
    hide Comes, Next, Enabled;
    var e1 := Entry(2, 1, first);
    AppendOneOrTwo(2, first, second);
    var t1 := Writes(t, 1, 2, EMPTY_STORE, first);
    ComesOn(s0, t, ClientAppend(1, first));
    var t2, m := SendsOne(t1, 1, 2, e1, 2);
    ComesOn(s0, t1, SendAppend(1, 2, 1, 2));
    var t3, a := Takes(t2, 2, Follower, 2, EMPTY_STORE, m, e1);
    ComesOn(s0, t2, AnswerAppend(m));
    s := Writes(t3, 1, 2, Single(e1, 0), second);
    ComesOn(s0, t3, ClientAppend(1, second));
  }

  /** Node 3 times out twice and asks node 1 for its vote in term 3. */
  lemma RivalAsks(s0: System, t: System, store: Store) returns (s: System, ask: Message)
    requires Comes(s0, t) && Has(t, 1, Leader, 2, store) && Is(t, 3, Follower, 1, 0) && t.nodes[3].ballots == []
    ensures Comes(s0, s) && s.nodes.Keys == Trio && (forall k :: k in t.nodes && k != 3 ==> s.nodes[k] == t.nodes[k])
    ensures ask in s.net && ask == VoteAsk(3, 1, 1, VoteRequest(3, 3, 0, 0))
  {
    hide Comes, Next, Enabled;
    var t1 := TimesOut(t, 3, Follower, 1, EMPTY_STORE);
    ComesOn(s0, t, Timeout(3));
    var t2 := TimesOut(t1, 3, Candidate, 2, EMPTY_STORE);
    ComesOn(s0, t1, Timeout(3));
    s, ask := Asks(t2, 3, 3, EMPTY_STORE, 1, 1);
    ComesOn(s0, t2, AskVote(3, 1, 1));
  }

  lemma WinsAgain(s0: System, t: System, e1: Entry, e2: Entry) returns (s: System)
    requires Comes(s0, t) && Has(t, 1, Follower, 3, Double(e1, e2)) && |t.nodes[1].ballots| == 1
    requires Has(t, 2, Follower, 2, Single(e1, 0))
    ensures Comes(s0, s) && (1, 4) in s.elected && Has(s, 1, Leader, 4, Double(e1, e2)) && Has(s, 2, Follower, 4, Single(e1, 0))
    ensures forall p :: p in Trio && p != 1 ==> p in s.nodes[1].nextIndex && s.nodes[1].nextIndex[p] == 3
  {
    hide Comes, Next, Enabled;
    var t1 := TimesOut(t, 1, Follower, 3, Double(e1, e2));
    ComesOn(s0, t, Timeout(1));
    assert LastTerm(Double(e1, e2).log).Some?;
    var t2, ask := Asks(t1, 1, 4, Double(e1, e2), 1, 2);
    ComesOn(s0, t1, AskVote(1, 1, 2));
    var t3, vote := Agrees(t2, 2, Follower, 2, Single(e1, 0), ask);
    ComesOn(s0, t2, AnswerVote(ask));
    s := Wins(t3, 1, 4, Double(e1, e2), vote);
    ComesOn(s0, t3, CountVote(vote, []));
  }
}

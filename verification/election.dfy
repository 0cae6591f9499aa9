/** Election safety: at most one node is ever leader of a term. */
module ElectionSafety {
  import opened Types
  import opened LogStorage
  import opened StateMap
  import opened NodeStore
  import opened RaftNode
  import opened Cluster

  // ---------------------------------------------------------------------------------------------
  // The invariant
  // ---------------------------------------------------------------------------------------------

  ghost predicate Config(s: System) {
    && 0 !in s.nodes
    && forall n :: n in s.nodes ==> s.nodes[n].id == n && s.nodes[n].peers == s.nodes.Keys - {n}
  }

  /** Candidates and leaders have voted for themselves. */
  ghost predicate SelfVotes(s: System) {
    forall n :: n in s.nodes ==>
      s.nodes[n].role != Dead
      && (s.nodes[n].role == Candidate || s.nodes[n].role == Leader ==> s.nodes[n].votedPeer == n)
  }

  ghost predicate AskIsOf(s: System, m: Message)
    requires m.VoteAsk?
  {
    && m.src in s.nodes && m.dst in s.nodes && m.src != m.dst && m.ask.nodeId == m.src
    && m.ballot < |s.nodes[m.src].ballots| && s.nodes[m.src].ballots[m.ballot].term == m.ask.term
  }

  ghost predicate Asks(s: System) {
    forall m :: m in s.net && m.VoteAsk? ==> AskIsOf(s, m)
  }

  /** A vote given to another node binds the voter: it stays a follower that has voted for that node until
      it moves to a higher term, and it was and will not be elected in that term. */
  ghost predicate Binding(s: System, m: Message)
    requires m.VoteAnswer?
  {
    && m.src in s.nodes && m.dst in s.nodes && m.src != m.dst && m.answer.nodeId == m.dst
    && m.ballot < |s.nodes[m.src].ballots| && s.nodes[m.src].ballots[m.ballot].term == m.answer.term
    && s.nodes[m.dst].currentTerm >= m.answer.term
    && (s.nodes[m.dst].currentTerm == m.answer.term ==> s.nodes[m.dst].role == Follower && s.nodes[m.dst].votedPeer == m.src)
    && (m.dst, m.answer.term) !in s.elected
  }

  ghost predicate Yes(s: System, m: Message) {
    m in s.net && m.VoteAnswer? && m.answer.accepted
  }

  ghost predicate Votes(s: System) {
    && (forall m :: Yes(s, m) ==> Binding(s, m))
    && (forall m1, m2 :: Yes(s, m1) && Yes(s, m2) && m1.dst == m2.dst && m1.answer.term == m2.answer.term ==> m1.src == m2.src)
  }

  ghost predicate Voted(s: System, candidate: Id, ballot: nat, term: nat, p: Id) {
    p == candidate || (p in s.nodes && VoteAnswer(candidate, ballot, p, VoteResponse(term, p, true)) in s.net)
  }

  /** What a candidacy has counted are votes it was given. */
  ghost predicate BallotIsCovered(s: System, n: Id, b: nat)
    requires n in s.nodes && b < |s.nodes[n].ballots|
  {
    var ballot := s.nodes[n].ballots[b];
    && ballot.term <= s.nodes[n].currentTerm
    && ballot.collected == |YesVotes(ballot)|
    && forall p :: p in YesVotes(ballot) ==> Voted(s, n, b, ballot.term, p)
  }

  ghost predicate Ballots(s: System) {
    forall n, b :: n in s.nodes && 0 <= b < |s.nodes[n].ballots| ==> BallotIsCovered(s, n, b)
  }

  ghost predicate ElectedBy(s: System, l: Id, t: nat)
    requires (l, t) in s.elected
  {
    var e := s.elected[(l, t)];
    && l in s.nodes && s.nodes[l].currentTerm >= t
    && (s.nodes[l].currentTerm == t ==> s.nodes[l].role == Leader)
    && Majority(|e.voters|, s.nodes.Keys - {l})
    && forall p :: p in e.voters ==> p in s.nodes && Voted(s, l, e.ballot, t, p)
  }

  ghost predicate Elections(s: System) {
    && (forall l, t :: (l, t) in s.elected ==> ElectedBy(s, l, t))
    && (forall n :: n in s.nodes && s.nodes[n].role == Leader ==> (n, s.nodes[n].currentTerm) in s.elected)
  }

  ghost predicate Appends(s: System) {
    forall m :: m in s.net && m.AppendAsk? ==>
      (m.src, m.request.term) in s.elected && m.dst in s.nodes && m.src != m.dst && m.request.nodeId == m.src
      && m.sent.term <= m.request.term
  }

  ghost predicate OneLeader(s: System) {
    forall l1, l2, t :: (l1, t) in s.elected && (l2, t) in s.elected ==> l1 == l2
  }

  ghost predicate ElectionInv(s: System) {
    Config(s) && SelfVotes(s) && Asks(s) && Votes(s) && Ballots(s) && Elections(s) && Appends(s) && OneLeader(s)
  }

  // ---------------------------------------------------------------------------------------------
  // Changes of one node
  // ---------------------------------------------------------------------------------------------

  /** The part of a node that elections look at. */
  ghost predicate SamePosture(a: Node, b: Node) {
    && a.id == b.id && a.peers == b.peers && a.role == b.role && a.currentTerm == b.currentTerm
    && a.votedPeer == b.votedPeer && a.ballots == b.ballots
  }

  /** A node moves to a higher term as a follower or a candidate. */
  ghost predicate MovesUp(a: Node, b: Node) {
    && a.id == b.id && a.peers == b.peers && a.currentTerm < b.currentTerm && a.ballots <= b.ballots
    && (b.role == Follower || b.role == Candidate) && (b.role == Candidate ==> b.votedPeer == b.id)
    && (forall i :: |a.ballots| <= i < |b.ballots| ==>
          b.ballots[i].term <= b.currentTerm && b.ballots[i].collected == |YesVotes(b.ballots[i])| && YesVotes(b.ballots[i]) <= {b.id})
  }

  /** A candidate gives up in its own term. */
  ghost predicate StepsDown(a: Node, b: Node) {
    && a.id == b.id && a.peers == b.peers && a.currentTerm == b.currentTerm && a.ballots == b.ballots
    && a.role == Candidate && b.role == Follower
  }

  /** A follower that is free, or already pledged to that node, pledges its vote. */
  ghost predicate Pledges(a: Node, b: Node) {
    && a.id == b.id && a.peers == b.peers && a.currentTerm == b.currentTerm && a.ballots == b.ballots
    && a.role == Follower && b.role == Follower && (a.votedPeer == 0 || a.votedPeer == b.votedPeer)
  }

  ghost predicate Changes(s: System, s': System, n: Id, b: Node) {
    && n in s.nodes && s'.nodes == s.nodes[n := b]
    && s'.elected == s.elected
  }

  ghost predicate Quiet(a: Node, b: Node) {
    SamePosture(a, b) || MovesUp(a, b) || StepsDown(a, b) || Pledges(a, b)
  }

  /** Beside those, a ballot may count. */
  ghost predicate Harmless(a: Node, b: Node) {
    || Quiet(a, b)
    || (SamePosture(a, b.(ballots := a.ballots)) && |a.ballots| == |b.ballots|
        && forall i :: 0 <= i < |a.ballots| ==> a.ballots[i].term == b.ballots[i].term)
  }

  lemma QuietKeepsVotes(s: System, s': System, n: Id, b: Node)
    requires Config(s) && Votes(s) && Changes(s, s', n, b) && s'.net == s.net && Harmless(s.nodes[n], b)
    ensures Votes(s')
  {
    forall m | Yes(s', m) ensures Binding(s', m) {
      assert Yes(s, m) && Binding(s, m);
    }
    forall m1, m2 | Yes(s', m1) && Yes(s', m2) && m1.dst == m2.dst && m1.answer.term == m2.answer.term ensures m1.src == m2.src {
      assert Yes(s, m1) && Yes(s, m2);
    }
  }

  lemma QuietKeepsAsks(s: System, s': System, n: Id, b: Node)
    requires Asks(s) && Changes(s, s', n, b) && s'.net == s.net && Harmless(s.nodes[n], b)
    ensures Asks(s')
  {
    forall m | m in s'.net && m.VoteAsk? ensures AskIsOf(s', m) {
      assert AskIsOf(s, m);
    }
  }

  lemma QuietKeepsBallots(s: System, s': System, n: Id, b: Node)
    requires Config(s) && Ballots(s) && Changes(s, s', n, b) && s'.net == s.net && Quiet(s.nodes[n], b)
    ensures Ballots(s')
  {
    forall k, i | k in s'.nodes && 0 <= i < |s'.nodes[k].ballots| ensures BallotIsCovered(s', k, i) {
      if i < |s.nodes[k].ballots| {
        assert BallotIsCovered(s, k, i);
        assert s'.nodes[k].ballots[i] == s.nodes[k].ballots[i];
      }
    }
  }

  lemma QuietKeepsElections(s: System, s': System, n: Id, b: Node)
    requires Elections(s) && Changes(s, s', n, b) && s'.net == s.net && Harmless(s.nodes[n], b)
    ensures Elections(s')
  {
    forall l, t | (l, t) in s'.elected ensures ElectedBy(s', l, t) {
      QuietKeepsElected(s, s', n, b, l, t);
    }
  }

  lemma QuietKeepsElected(s: System, s': System, n: Id, b: Node, l: Id, t: nat)
    requires (l, t) in s.elected && ElectedBy(s, l, t)
    requires Changes(s, s', n, b) && s'.net == s.net && Harmless(s.nodes[n], b)
    ensures ElectedBy(s', l, t)
  {
    assert s'.nodes.Keys == s.nodes.Keys;
  }

  lemma QuietKeeps(s: System, s': System, n: Id, b: Node)
    requires ElectionInv(s) && Changes(s, s', n, b) && s'.net == s.net && Quiet(s.nodes[n], b)
    requires s'.nodes[n].role != Dead
    ensures ElectionInv(s')
  {
    assert s'.nodes.Keys == s.nodes.Keys;
    QuietKeepsVotes(s, s', n, b);
    QuietKeepsAsks(s, s', n, b);
    QuietKeepsBallots(s, s', n, b);
    QuietKeepsElections(s, s', n, b);
    QuietKeepsRest(s, s', n, b);
    hide Config, SelfVotes, Votes, Asks, Ballots, Elections, Appends, OneLeader;
  }

  lemma QuietKeepsRest(s: System, s': System, n: Id, b: Node)
    requires Config(s) && SelfVotes(s) && Appends(s) && OneLeader(s)
    requires Changes(s, s', n, b) && s'.net == s.net && Harmless(s.nodes[n], b) && b.role != Dead
    ensures Config(s') && SelfVotes(s') && Appends(s') && OneLeader(s')
  {
    assert s'.nodes.Keys == s.nodes.Keys;
    QuietKeepsSelfVotes(s, s', n, b);
    hide Harmless, SelfVotes;
  }

  lemma QuietKeepsSelfVotes(s: System, s': System, n: Id, b: Node)
    requires Config(s) && SelfVotes(s) && Changes(s, s', n, b) && Harmless(s.nodes[n], b) && b.role != Dead
    ensures SelfVotes(s') && b.id == s.nodes[n].id && b.peers == s.nodes[n].peers
  {
  }

  /** Messages other than votes and requests of leaders are of no concern. */
  lemma SendKeeps(s: System, m: Message)
    requires ElectionInv(s)
    requires m.VoteAsk? ==> AskIsOf(s, m)
    requires m.VoteAnswer? ==> !m.answer.accepted
    requires m.AppendAsk? ==> (m.src, m.request.term) in s.elected && m.dst in s.nodes && m.src != m.dst
                              && m.request.nodeId == m.src && m.sent.term <= m.request.term
    ensures ElectionInv(Send(s, m))
  {
    SendKeepsVotes(s, m);
    SendKeepsAsks(s, m);
    SendKeepsBallots(s, m);
    SendKeepsElections(s, m);
    hide Votes, Asks, Ballots, Elections;
  }

  lemma SendKeepsVotes(s: System, m: Message)
    requires Votes(s) && (m.VoteAnswer? ==> !m.answer.accepted)
    ensures Votes(Send(s, m))
  {
    var s' := Send(s, m);
    forall k | Yes(s', k) ensures Binding(s', k) { assert Yes(s, k) && Binding(s, k); }
    forall m1, m2 | Yes(s', m1) && Yes(s', m2) && m1.dst == m2.dst && m1.answer.term == m2.answer.term ensures m1.src == m2.src {
      assert Yes(s, m1) && Yes(s, m2);
    }
  }

  lemma SendKeepsAsks(s: System, m: Message)
    requires Asks(s) && (m.VoteAsk? ==> AskIsOf(s, m))
    ensures Asks(Send(s, m))
  {
    var s' := Send(s, m);
    forall k | k in s'.net && k.VoteAsk? ensures AskIsOf(s', k) { if k != m { assert AskIsOf(s, k); } }
  }

  lemma SendKeepsBallots(s: System, m: Message)
    requires Ballots(s)
    ensures Ballots(Send(s, m))
  {
    var s' := Send(s, m);
    forall k, i | k in s'.nodes && 0 <= i < |s'.nodes[k].ballots| ensures BallotIsCovered(s', k, i) { assert BallotIsCovered(s, k, i); }
  }

  lemma SendKeepsElections(s: System, m: Message)
    requires Elections(s)
    ensures Elections(Send(s, m))
  {
    var s' := Send(s, m);
    forall l, t | (l, t) in s'.elected ensures ElectedBy(s', l, t) { assert ElectedBy(s, l, t); }
  }

  /** A vote: the voter is bound to the candidate and to nobody else in this term. */
  lemma SendYesKeeps(s: System, m: Message)
    requires ElectionInv(s) && m.VoteAnswer? && m.answer.accepted
    requires Binding(s, m)
    requires forall k :: Yes(s, k) && k.dst == m.dst && k.answer.term == m.answer.term ==> k.src == m.src
    ensures ElectionInv(Send(s, m))
  {
    var s' := Send(s, m);
    assert Votes(s') by {
      forall k | Yes(s', k) ensures Binding(s', k) { if k != m { assert Yes(s, k) && Binding(s, k); } }
      forall m1, m2 | Yes(s', m1) && Yes(s', m2) && m1.dst == m2.dst && m1.answer.term == m2.answer.term ensures m1.src == m2.src {
        assert (Yes(s, m1) || m1 == m) && (Yes(s, m2) || m2 == m);
      }
    }
    SendKeepsRest(s, m);
  }

  lemma SendKeepsRest(s: System, m: Message)
    requires Asks(s) && Ballots(s) && Elections(s) && !m.VoteAsk?
    ensures Asks(Send(s, m)) && Ballots(Send(s, m)) && Elections(Send(s, m))
  {
    var s' := Send(s, m);
    forall k | k in s'.net && k.VoteAsk? ensures AskIsOf(s', k) { assert AskIsOf(s, k); }
    forall k, i | k in s'.nodes && 0 <= i < |s'.nodes[k].ballots| ensures BallotIsCovered(s', k, i) { assert BallotIsCovered(s, k, i); }
    forall l, t | (l, t) in s'.elected ensures ElectedBy(s', l, t) { assert ElectedBy(s, l, t); }
  }

  // ---------------------------------------------------------------------------------------------
  // The actions
  // ---------------------------------------------------------------------------------------------

  lemma TimeoutKeeps(s: System, n: Id)
    requires ElectionInv(s) && Possible(s, Timeout(n))
    ensures ElectionInv(Next(s, Timeout(n)))
  {
    var b := StartCandidacy(s.nodes[n]);
    assert YesVotes(b.ballots[|b.ballots| - 1]) == {n};
    assert MovesUp(s.nodes[n], b);
    hide ElectionInv;
    QuietKeeps(s, Next(s, Timeout(n)), n, b);
  }

  /** The node of an answered vote request, and what its answer binds it to. */
  lemma AnswerVoteKeeps(s: System, m: Message)
    requires ElectionInv(s) && Possible(s, AnswerVote(m))
    ensures ElectionInv(Next(s, AnswerVote(m)))
  {
    hide ElectionInv, HandleVoteRequest, Quiet, AskIsOf, Binding;
    var a := s.nodes[m.dst];
    var (b, r) := HandleVoteRequest(a, m.ask);
    var s1 := Update(s, b);
    AnswerVoteIsQuiet(s, m);
    QuietKeeps(s, s1, m.dst, b);
    if r.Some? {
      var answer := VoteAnswer(m.src, m.ballot, m.dst, r.value);
      if r.value.accepted {
        VoteBinds(s, m);
        SendYesKeeps(s1, answer);
      } else {
        SendKeeps(s1, answer);
      }
    }
  }

  lemma AnswerVoteIsQuiet(s: System, m: Message)
    requires ElectionInv(s) && Possible(s, AnswerVote(m))
    ensures var b := HandleVoteRequest(s.nodes[m.dst], m.ask).0;
            AskIsOf(s, m) && Quiet(s.nodes[m.dst], b) && b.id == m.dst && b.role != Dead
  {
    hide ElectionInv, HandleVoteRequest, Quiet;
    AskFacts(s, m);
    VoteRequestIsQuiet(s.nodes[m.dst], m.ask);
  }

  lemma AskFacts(s: System, m: Message)
    requires ElectionInv(s) && Possible(s, AnswerVote(m))
    ensures AskIsOf(s, m) && m.dst != 0
    ensures var n := s.nodes[m.dst];
            n.id == m.dst && n.role != Dead && (n.role == Candidate || n.role == Leader ==> n.votedPeer == n.id)
  {
    hide Votes, Ballots, Elections, Appends, OneLeader;
  }

  lemma VoteRequestIsQuiet(n: Node, r: VoteRequest)
    requires n.role != Dead && n.id != 0 && r.nodeId != n.id
    requires n.role == Candidate || n.role == Leader ==> n.votedPeer == n.id
    ensures var b := HandleVoteRequest(n, r).0; Quiet(n, b) && b.id == n.id && b.role != Dead
  {
  }

  lemma ElectedLeads(s: System, l: Id, t: nat)
    requires Elections(s)
    ensures (l, t) in s.elected ==> l in s.nodes && s.nodes[l].currentTerm >= t && (s.nodes[l].currentTerm == t ==> s.nodes[l].role == Leader)
  {
  }

  lemma VoteBinds(s: System, m: Message)
    requires ElectionInv(s) && Possible(s, AnswerVote(m)) && AskIsOf(s, m)
    requires var r := HandleVoteRequest(s.nodes[m.dst], m.ask).1; r.Some? && r.value.accepted
    ensures var (b, r) := HandleVoteRequest(s.nodes[m.dst], m.ask);
            var s1, answer := Update(s, b), VoteAnswer(m.src, m.ballot, m.dst, r.value);
            && Binding(s1, answer)
            && forall k :: Yes(s1, k) && k.dst == m.dst && k.answer.term == r.value.term ==> k.src == m.src
  {
    var (b, r) := HandleVoteRequest(s.nodes[m.dst], m.ask);
    var s1 := Update(s, b);
    ElectedLeads(s, m.dst, r.value.term);
    forall k | Yes(s1, k) && k.dst == m.dst && k.answer.term == r.value.term ensures k.src == m.src {
      assert Yes(s, k) && Binding(s, k);
    }
  }

  lemma AskVoteKeeps(s: System, a: Action)
    requires ElectionInv(s) && a.AskVote? && Possible(s, a)
    ensures ElectionInv(Next(s, a))
  {
    SendKeeps(s, VoteAsk(a.n, a.ballot, a.dst, AskForVote(s.nodes[a.n], a.ballot).value));
  }

  /** Counting a vote that is in the network keeps the ballots covered. */
  lemma CountKeeps(s: System, s': System, n: Id, b: nat, p: Id, node: Node)
    requires ElectionInv(s) && n in s.nodes && b < |s.nodes[n].ballots|
    requires var old' := s.nodes[n].ballots[b];
             && p !in YesVotes(old') && Voted(s, n, b, old'.term, p)
             && node == s.nodes[n].(ballots := s.nodes[n].ballots[b := Ballot(old'.term, old'.collected + 1, old'.voteMap[p := true])])
    requires s' == Update(s, node)
    ensures ElectionInv(s')
  {
    assert s'.nodes.Keys == s.nodes.Keys;
    CountKeepsBallots(s, s', n, b, p, node);
    assert Harmless(s.nodes[n], node);
    QuietKeepsVotes(s, s', n, node);
    QuietKeepsAsks(s, s', n, node);
    QuietKeepsElections(s, s', n, node);
    QuietKeepsRest(s, s', n, node);
    hide Config, SelfVotes, Votes, Asks, Ballots, Elections, Appends, OneLeader;
  }

  lemma CountKeepsBallots(s: System, s': System, n: Id, b: nat, p: Id, node: Node)
    requires Config(s) && Ballots(s) && n in s.nodes && b < |s.nodes[n].ballots|
    requires var old' := s.nodes[n].ballots[b];
             && p !in YesVotes(old') && Voted(s, n, b, old'.term, p)
             && node == s.nodes[n].(ballots := s.nodes[n].ballots[b := Ballot(old'.term, old'.collected + 1, old'.voteMap[p := true])])
    requires s' == Update(s, node)
    ensures Ballots(s')
  {
    forall k, i | k in s'.nodes && 0 <= i < |s'.nodes[k].ballots| ensures BallotIsCovered(s', k, i) {
      assert BallotIsCovered(s, k, i);
      if k == n && i == b {
        assert YesVotes(node.ballots[b]) == YesVotes(s.nodes[n].ballots[b]) + {p};
      }
    }
  }

  lemma MajoritiesMeet(all: set<Id>, a: set<Id>, b: set<Id>) returns (p: Id)
    requires a <= all && b <= all && 2 * |a| > |all| && 2 * |b| > |all|
    ensures p in a && p in b
  {
    assert |a + b| <= |all| by { SubsetIsSmaller(a + b, all); }
    assert |a + b| + |a * b| == |a| + |b|;
    assert a * b != {};
    p :| p in a * b;
  }

  lemma PeersPlusSelf(s: System, n: Id)
    requires n in s.nodes
    ensures |s.nodes.Keys - {n}| + 1 == |s.nodes|
  {
    assert s.nodes.Keys == (s.nodes.Keys - {n}) + {n};
  }

  /** Two candidates that both collected a majority in one term are the same. */
  lemma WinnerIsAlone(s: System, n: Id, b: nat, l: Id)
    requires ElectionInv(s) && n in s.nodes && b < |s.nodes[n].ballots|
    requires s.nodes[n].role == Candidate && s.nodes[n].ballots[b].term == s.nodes[n].currentTerm
    requires Majority(s.nodes[n].ballots[b].collected, s.nodes[n].peers)
    ensures (l, s.nodes[n].currentTerm) !in s.elected
  {
    var t := s.nodes[n].currentTerm;
    assert (l, t) in s.elected ==> ElectedBy(s, l, t) && l != n;
    assert BallotIsCovered(s, n, b);
    if (l, t) in s.elected {
      PeersPlusSelf(s, n);
      PeersPlusSelf(s, l);
      var p := MajoritiesMeet(s.nodes.Keys, s.elected[(l, t)].voters, YesVotes(s.nodes[n].ballots[b]));
      NoCommonVoter(s, n, b, l, s.elected[(l, t)].ballot, p, t);
      assert false;
    }
  }

  lemma NoCommonVoter(s: System, n: Id, b: nat, l: Id, c: nat, p: Id, t: nat)
    requires Votes(s) && n in s.nodes && s.nodes[n].role == Candidate && s.nodes[n].currentTerm == t && n != l
    requires (l, t) in s.elected
    ensures !(Voted(s, n, b, t, p) && Voted(s, l, c, t, p))
  {
    var toN := VoteAnswer(n, b, p, VoteResponse(t, p, true));
    var toL := VoteAnswer(l, c, p, VoteResponse(t, p, true));
    assert Yes(s, toL) ==> Binding(s, toL);
    assert Yes(s, toN) ==> Binding(s, toN);
  }

  /** A candidate with a majority in its term becomes leader. */
  lemma ElectKeeps(s: System, s': System, n: Id, b: nat, node: Node)
    requires ElectionInv(s) && n in s.nodes && b < |s.nodes[n].ballots|
    requires s.nodes[n].role == Candidate && s.nodes[n].ballots[b].term == s.nodes[n].currentTerm
    requires Majority(s.nodes[n].ballots[b].collected, s.nodes[n].peers)
    requires node.role == Leader && SamePosture(s.nodes[n], node.(role := Candidate))
    requires s'.nodes == s.nodes[n := node] && s'.net == s.net
    requires s'.elected == s.elected[(n, node.currentTerm) := Election(b, YesVotes(s.nodes[n].ballots[b]))]
    ensures ElectionInv(s')
  {
    assert s'.nodes.Keys == s.nodes.Keys;
    forall l | (l, node.currentTerm) in s.elected ensures false {
      WinnerIsAlone(s, n, b, l);
    }
    assert OneLeader(s') && Config(s') && SelfVotes(s') && Appends(s');
    ElectKeepsVotes(s, s', n, b, node);
    ElectKeepsBallots(s, s', n, b, node);
    ElectKeepsElections(s, s', n, b, node);
  }

  lemma ElectKeepsVotes(s: System, s': System, n: Id, b: nat, node: Node)
    requires Votes(s) && Asks(s) && n in s.nodes && b < |s.nodes[n].ballots|
    requires s.nodes[n].role == Candidate && node.role == Leader && SamePosture(s.nodes[n], node.(role := Candidate))
    requires s'.nodes == s.nodes[n := node] && s'.net == s.net
    requires s'.elected == s.elected[(n, node.currentTerm) := Election(b, YesVotes(s.nodes[n].ballots[b]))]
    ensures Votes(s') && Asks(s')
  {
    forall m | Yes(s', m) ensures Binding(s', m) { assert Yes(s, m) && Binding(s, m); }
    forall m1, m2 | Yes(s', m1) && Yes(s', m2) && m1.dst == m2.dst && m1.answer.term == m2.answer.term ensures m1.src == m2.src {
      assert Yes(s, m1) && Yes(s, m2);
    }
    forall m | m in s'.net && m.VoteAsk? ensures AskIsOf(s', m) { assert AskIsOf(s, m); }
  }

  lemma ElectKeepsElections(s: System, s': System, n: Id, b: nat, node: Node)
    requires Config(s) && Ballots(s) && Elections(s) && n in s.nodes && b < |s.nodes[n].ballots|
    requires s.nodes[n].role == Candidate && s.nodes[n].ballots[b].term == s.nodes[n].currentTerm
    requires Majority(s.nodes[n].ballots[b].collected, s.nodes[n].peers)
    requires node.role == Leader && SamePosture(s.nodes[n], node.(role := Candidate))
    requires s'.nodes == s.nodes[n := node] && s'.net == s.net
    requires s'.elected == s.elected[(n, node.currentTerm) := Election(b, YesVotes(s.nodes[n].ballots[b]))]
    ensures Elections(s')
  {
    assert BallotIsCovered(s, n, b);
    NewlyElected(s, s', n, b, node);
    hide ElectedBy, Ballots, BallotIsCovered, Config, Majority;
    forall l, t | (l, t) in s'.elected ensures ElectedBy(s', l, t) {
      if (l, t) != (n, node.currentTerm) {
        EarlierStayElected(s, s', n, node, l, t);
      }
    }
  }

  lemma NewlyElected(s: System, s': System, n: Id, b: nat, node: Node)
    requires Config(s) && n in s.nodes && b < |s.nodes[n].ballots| && BallotIsCovered(s, n, b)
    requires s.nodes[n].role == Candidate && s.nodes[n].ballots[b].term == s.nodes[n].currentTerm
    requires Majority(s.nodes[n].ballots[b].collected, s.nodes[n].peers)
    requires node.role == Leader && SamePosture(s.nodes[n], node.(role := Candidate))
    requires s'.nodes == s.nodes[n := node] && s'.net == s.net
    requires s'.elected == s.elected[(n, node.currentTerm) := Election(b, YesVotes(s.nodes[n].ballots[b]))]
    ensures ElectedBy(s', n, node.currentTerm)
  {
    assert s'.nodes.Keys == s.nodes.Keys;
  }

  lemma EarlierStayElected(s: System, s': System, n: Id, node: Node, l: Id, t: nat)
    requires n in s.nodes && (l, t) in s.elected && (l, t) in s'.elected && s'.elected[(l, t)] == s.elected[(l, t)]
    requires SamePosture(s.nodes[n].(role := Leader), node)
    requires s'.nodes == s.nodes[n := node] && s'.net == s.net
    requires ElectedBy(s, l, t)
    ensures ElectedBy(s', l, t)
  {
    assert s'.nodes.Keys == s.nodes.Keys;
  }

  lemma ElectKeepsBallots(s: System, s': System, n: Id, b: nat, node: Node)
    requires Ballots(s) && n in s.nodes && SamePosture(s.nodes[n].(role := Leader), node)
    requires s'.nodes == s.nodes[n := node] && s'.net == s.net
    ensures Ballots(s')
  {
    forall k, i | k in s'.nodes && 0 <= i < |s'.nodes[k].ballots| ensures BallotIsCovered(s', k, i) { assert BallotIsCovered(s, k, i); }
  }

  lemma CountVoteKeeps(s: System, a: Action)
    requires ElectionInv(s) && a.CountVote? && Enabled(s, a)
    ensures ElectionInv(Next(s, a))
  {
    hide ElectionInv;
    var m, before := a.m, s.nodes[a.m.src];
    var ballot := before.ballots[m.ballot];
    var after := HandleVoteResponse(before, m.ballot, m.dst, m.answer, a.initial);
    KeysAreIds(s, m.src);
    if before.role == Candidate && m.answer.term == ballot.term == before.currentTerm {
      CountThenElectKeeps(s, a);
    } else {
      QuietKeeps(s, Next(s, a), m.src, after);
    }
  }

  lemma KeysAreIds(s: System, n: Id)
    requires ElectionInv(s) && n in s.nodes
    ensures s.nodes[n].id == n && s.nodes[n].role != Dead
  {
  }

  lemma CountThenElectKeeps(s: System, a: Action)
    requires ElectionInv(s) && a.CountVote? && Enabled(s, a)
    requires s.nodes[a.m.src].role == Candidate
    requires a.m.answer.term == s.nodes[a.m.src].ballots[a.m.ballot].term == s.nodes[a.m.src].currentTerm
    ensures ElectionInv(Next(s, a))
  {
    hide ElectionInv, BecomeLeader, Gained, YesVotes;
    var m, before := a.m, s.nodes[a.m.src];
    var n1 := Counted(before, m);
    CountedKeeps(s, m);
    KeysAreIds(s, m.src);
    CountedThenDecided(before, m, a.initial);
    if Majority(n1.ballots[m.ballot].collected, before.peers) {
      BecomeLeaderPosture(n1, a.initial);
      ElectKeeps(Update(s, n1), Next(s, a), m.src, m.ballot, BecomeLeader(n1, a.initial));
    } else {
      assert Next(s, a) == Update(s, n1);
    }
  }

  lemma CountedThenDecided(before: Node, m: Message, initial: seq<Command>)
    requires m.VoteAnswer? && m.ballot < |before.ballots| && before.role == Candidate
    requires m.answer.term == before.ballots[m.ballot].term == before.currentTerm
    ensures var n1 := Counted(before, m);
            && HandleVoteResponse(before, m.ballot, m.dst, m.answer, initial)
               == (if Majority(n1.ballots[m.ballot].collected, before.peers) then BecomeLeader(n1, initial) else n1)
            && SamePosture(before, n1.(ballots := before.ballots)) && |n1.ballots| == |before.ballots|
            && n1.ballots[m.ballot].term == before.ballots[m.ballot].term
  {
    assert before.ballots[m.ballot := before.ballots[m.ballot]] == before.ballots;
  }

  ghost function Counted(before: Node, m: Message): Node
    requires m.VoteAnswer? && m.ballot < |before.ballots|
  {
    var ballot := before.ballots[m.ballot];
    if m.answer.accepted && !(m.dst in ballot.voteMap && ballot.voteMap[m.dst]) then
      before.(ballots := before.ballots[m.ballot := Ballot(ballot.term, ballot.collected + 1, ballot.voteMap[m.dst := true])])
    else before
  }

  lemma BecomeLeaderPosture(n: Node, initial: seq<Command>)
    ensures BecomeLeader(n, initial).role == Leader && SamePosture(n, BecomeLeader(n, initial).(role := n.role))
  {
  }

  lemma CountedKeeps(s: System, m: Message)
    requires ElectionInv(s) && m in s.net && m.VoteAnswer? && m.src in s.nodes && m.ballot < |s.nodes[m.src].ballots|
    requires m.answer.term == s.nodes[m.src].ballots[m.ballot].term
    ensures ElectionInv(Update(s, Counted(s.nodes[m.src], m)))
  {
    hide ElectionInv, Majority;
    var n1 := Counted(s.nodes[m.src], m);
    KeysAreIds(s, m.src);
    if n1 != s.nodes[m.src] {
      YesBinds(s, m);
      CountKeeps(s, Update(s, n1), m.src, m.ballot, m.dst, n1);
    } else {
      QuietKeeps(s, Update(s, n1), m.src, n1);
    }
  }

  lemma YesBinds(s: System, m: Message)
    requires ElectionInv(s) && Yes(s, m)
    ensures Binding(s, m)
  {
    hide Config, SelfVotes, Asks, Ballots, Elections, Appends, OneLeader;
  }

  lemma PreparedInItsTerm(n: Node, dst: Id, maximumLength: nat)
    requires PrepareAppend(n, dst, maximumLength).Batch?
    ensures var r := PrepareAppend(n, dst, maximumLength).request; r.term == n.currentTerm && r.nodeId == n.id
  {
  }

  lemma LeaderIsElected(s: System, n: Id, dst: Id)
    requires ElectionInv(s) && n in s.nodes && s.nodes[n].role == Leader && dst in s.nodes[n].peers
    ensures (n, s.nodes[n].currentTerm) in s.elected && s.nodes[n].id == n && dst in s.nodes && dst != n
  {
  }

  lemma SendAppendKeeps(s: System, a: Action)
    requires ElectionInv(s) && a.SendAppend? && Possible(s, a)
    ensures ElectionInv(Next(s, a))
  {
    hide ElectionInv, PrepareAppend;
    PreparedInItsTerm(s.nodes[a.n], a.dst, a.maximumLength);
    LeaderIsElected(s, a.n, a.dst);
    var r := PrepareAppend(s.nodes[a.n], a.dst, a.maximumLength).request;
    SendKeeps(s, AppendAsk(a.n, a.dst, Sent(a.startTerm, r.prevEntryIndex + 1, |r.entryList|), r));
  }

  lemma AppendRequestPosture(a: Node, r: AppendRequest)
    requires a.role != Dead
    ensures var b := HandleAppendRequest(a, r).0;
            if r.term > a.currentTerm then MovesUp(a, b)
            else if r.term < a.currentTerm || a.role == Follower then SamePosture(a, b)
            else SamePosture(BecomeFollower(a, r.term), b)
  {
  }

  lemma AppendResponsePosture(n: Node, peer: Id, sent: Sent, r: AppendResponse)
    requires AppendIsTimely(n, sent, r)
    ensures var b := HandleAppendResponse(n, peer, sent, r);
            if n.role == Leader && r.term > sent.term then MovesUp(n, b) else SamePosture(n, b)
  {
  }

  /** A leader of the term never hears from another leader of the term. */
  lemma AnswerAppendIsQuiet(s: System, m: Message)
    requires ElectionInv(s) && Possible(s, AnswerAppend(m))
    ensures Quiet(s.nodes[m.dst], HandleAppendRequest(s.nodes[m.dst], m.request).0)
  {
    AppendRequestPosture(s.nodes[m.dst], m.request);
    NoRivalLeader(s, m);
    hide ElectionInv, HandleAppendRequest;
  }

  lemma NoRivalLeader(s: System, m: Message)
    requires ElectionInv(s) && m in s.net && m.AppendAsk? && m.dst in s.nodes
    ensures s.nodes[m.dst].role == Leader ==> s.nodes[m.dst].currentTerm != m.request.term
  {
  }

  lemma AnswerAppendKeeps(s: System, m: Message)
    requires ElectionInv(s) && Possible(s, AnswerAppend(m))
    ensures ElectionInv(Next(s, AnswerAppend(m)))
  {
    hide ElectionInv, HandleAppendRequest;
    KeysAreIds(s, m.dst);
    AnswerAppendIsQuiet(s, m);
    QuietKeepsIdentity(s.nodes[m.dst], HandleAppendRequest(s.nodes[m.dst], m.request).0);
    var (b, r) := HandleAppendRequest(s.nodes[m.dst], m.request);
    var s1 := Update(s, b);
    QuietKeeps(s, s1, m.dst, b);
    if r.Some? {
      SendKeeps(s1, AppendAnswer(m.src, m.dst, m.sent, r.value));
    }
  }

  lemma QuietKeepsIdentity(a: Node, b: Node)
    requires Quiet(a, b) && a.role != Dead
    ensures b.id == a.id && b.role != Dead
  {
  }

  lemma CountAppendKeeps(s: System, a: Action)
    requires ElectionInv(s) && a.CountAppend? && Enabled(s, a)
    ensures ElectionInv(Next(s, a))
  {
    KeysAreIds(s, a.m.src);
    AppendResponsePosture(s.nodes[a.m.src], a.m.dst, a.m.sent, a.m.response);
    hide ElectionInv, HandleAppendResponse;
    QuietKeeps(s, Next(s, a), a.m.src, HandleAppendResponse(s.nodes[a.m.src], a.m.dst, a.m.sent, a.m.response));
  }

  lemma LocalKeeps(s: System, a: Action)
    requires ElectionInv(s) && (a.ClientAppend? || a.Apply? || a.BackUp?) && Possible(s, a)
    ensures ElectionInv(Next(s, a))
  {
    hide ElectionInv, CommitProcedure, Append, Gained;
    var before := s.nodes[a.n].store;
    KeysAreIds(s, a.n);
    match a
    case ClientAppend(n, command) =>
      StoreChangeKeeps(s, Next(s, a), n, before.(log := Append(before.log, s.nodes[n].currentTerm, command)));
    case Apply(n) => StoreChangeKeeps(s, Next(s, a), n, CommitProcedure(before));
    case BackUp(n) => StoreChangeKeeps(s, Next(s, a), n, before.(lastBackupIndex := before.commitIndex));
  }

  lemma StoreChangeKeeps(s: System, s': System, n: Id, st: Store)
    requires ElectionInv(s) && n in s.nodes
    requires s'.nodes == s.nodes[n := s.nodes[n].(store := st)] && s'.net == s.net && s'.elected == s.elected
    ensures ElectionInv(s')
  {
    KeysAreIds(s, n);
    hide ElectionInv;
    QuietKeeps(s, s', n, s.nodes[n].(store := st));
  }

  lemma StepKeepsElectionInv(s: System, a: Action)
    requires ElectionInv(s) && Enabled(s, a)
    ensures ElectionInv(Next(s, a))
  {
    hide ElectionInv, Next;
    match a
    case Timeout(n) => TimeoutKeeps(s, n);
    case AskVote(_, _, _) => AskVoteKeeps(s, a);
    case AnswerVote(m) => AnswerVoteKeeps(s, m);
    case CountVote(_, _) => CountVoteKeeps(s, a);
    case SendAppend(_, _, _, _) => SendAppendKeeps(s, a);
    case AnswerAppend(m) => AnswerAppendKeeps(s, m);
    case CountAppend(_) => CountAppendKeeps(s, a);
    case ClientAppend(_, _) => LocalKeeps(s, a);
    case Apply(_) => LocalKeeps(s, a);
    case BackUp(_) => LocalKeeps(s, a);
  }

  lemma InitHoldsElectionInv(s: System)
    requires Init(s)
    ensures ElectionInv(s)
  {
  }

  lemma {:induction false} RunKeepsElectionInv(s1: System, actions: seq<Action>, s2: System)
    requires ElectionInv(s1) && Leads(s1, actions, s2)
    ensures ElectionInv(s2)
    decreases |actions|
  {
    hide ElectionInv;
    if actions != [] {
      StepKeepsElectionInv(s1, actions[0]);
      RunKeepsElectionInv(Next(s1, actions[0]), actions[1..], s2);
    }
  }

  /** Election safety: over every run of a fresh cluster, no two nodes are ever elected in one term, and
      every leader was elected in its term. */
  lemma ElectionSafetyHolds(s: System, l1: Id, l2: Id, t: nat)
    requires Reachable(s)
    ensures (l1, t) in s.elected && (l2, t) in s.elected ==> l1 == l2
    ensures l1 in s.nodes && s.nodes[l1].role == Leader && s.nodes[l1].currentTerm == t ==> (l1, t) in s.elected
  {
    var s0, actions :| ReachedFrom(s0, actions, s);
    InitHoldsElectionInv(s0);
    RunKeepsElectionInv(s0, actions, s);
  }
}

/** Why election safety needs timely answers: the code compares an answer with the term of its request
    only, and a run of three nodes shows what a stale answer does. */
module StaleAnswers {
  import opened Types
  import opened LogStorage
  import opened StateMap
  import opened NodeStore
  import opened RaftNode
  import opened Cluster
  import opened TrioRuns

  lemma Refuses(s: System, n: Id, role: Role, term: nat, voted: Id, m: Message) returns (s': System, a: Message)
    requires Is(s, n, role, term, voted) && role != Dead
    requires m in s.net && m.VoteAsk? && m.dst == n && m.ask.term < term
    ensures Enabled(s, AnswerVote(m)) && s' == Next(s, AnswerVote(m)) && Only(s, s', n)
    ensures s'.nodes == s.nodes && a in s'.net && a == VoteAnswer(m.src, m.ballot, n, VoteResponse(term, n, false))
  {
    a := VoteAnswer(m.src, m.ballot, n, VoteResponse(term, n, false));
    s' := Next(s, AnswerVote(m));
    assert s'.nodes == s.nodes;
  }

  /** A stale refusal takes a candidate back to the term of the refusal, free to vote again. */
  lemma FallsBack(s: System, n: Id, term: nat, a: Message) returns (s': System)
    requires Is(s, n, Candidate, term, n)
    requires a in s.net && a.VoteAnswer? && a.src == n && a.ballot < |s.nodes[n].ballots|
    requires s.nodes[n].ballots[a.ballot].term < a.answer.term < term
    ensures Possible(s, CountVote(a, [])) && s' == Next(s, CountVote(a, [])) && Only(s, s', n)
    ensures !Timely(s, CountVote(a, []))
    ensures Is(s', n, Follower, a.answer.term, 0)
  {
    s' := Next(s, CountVote(a, []));
  }

  /** Node 2, which is a candidate of term 3 by then, refuses the first candidacy of node 1. */
  lemma FirstRefusal(s0: System) returns (s: System, stale: Message)
    requires Init(s0) && s0.nodes.Keys == Trio
    ensures Comes(s0, s)
    ensures stale in s.net && stale == VoteAnswer(1, 0, 2, VoteResponse(3, 2, false))
    ensures Is(s, 2, Candidate, 3, 2) && Runs(s, 2, 1, 3) && Is(s, 3, Follower, 1, 0) && s.nodes[3].ballots == []
    ensures Is(s, 1, Candidate, 2, 1) && |s.nodes[1].ballots| == 1 && s.nodes[1].ballots[0].term == 2
  {
    hide Comes, Enabled;
    ComesToItself(s0);
    var s1 := TimesOut(s0, 1, Follower, 1, EMPTY_STORE);
    var s2, ask := Asks(s1, 1, 2, EMPTY_STORE, 0, 2);
    var s3 := TimesOut(s2, 2, Follower, 1, EMPTY_STORE);
    var s4 := TimesOut(s3, 2, Candidate, 2, EMPTY_STORE);
    s, stale := Refuses(s4, 2, Candidate, 3, 2, ask);
    ComesOn(s0, s0, Timeout(1));
    ComesOn(s0, s1, AskVote(1, 0, 2));
    ComesOn(s0, s2, Timeout(2));
    ComesOn(s0, s3, Timeout(2));
    ComesOn(s0, s4, AnswerVote(ask));
  }

  /** Everything up to the election of node 1 in term 3; the refusal of its first candidacy is still under
      way, and node 2 is a candidate of term 3 as well. */
  lemma FirstElection(s0: System) returns (s: System, stale: Message)
    requires Init(s0) && s0.nodes.Keys == Trio
    ensures Comes(s0, s)
    ensures stale in s.net && stale == VoteAnswer(1, 0, 2, VoteResponse(3, 2, false))
    ensures (1, 3) in s.elected
    ensures Is(s, 2, Candidate, 3, 2) && Runs(s, 2, 1, 3) && Is(s, 3, Follower, 3, 1) && s.nodes[3].ballots == []
    ensures Is(s, 1, Leader, 3, 1) && |s.nodes[1].ballots| == 2 && s.nodes[1].ballots[0].term == 2
  {
    hide Comes, Enabled;
    var s5, refusal := FirstRefusal(s0);
    stale := refusal;
    var s6 := TimesOut(s5, 1, Candidate, 2, EMPTY_STORE);
    var s7, ask := Asks(s6, 1, 3, EMPTY_STORE, 1, 3);
    var s8, vote := Agrees(s7, 3, Follower, 1, EMPTY_STORE, ask);
    s := Wins(s8, 1, 3, EMPTY_STORE, vote);
    ComesOn(s0, s5, Timeout(1));
    ComesOn(s0, s6, AskVote(1, 1, 3));
    ComesOn(s0, s7, AnswerVote(ask));
    ComesOn(s0, s8, CountVote(vote, []));
  }

  /** With one stale answer, all other answers being timely, the code elects two leaders in one term. */
  lemma TwoLeadersInOneTerm(s0: System) returns (before: System, stale: Message, s: System)
    requires Init(s0) && s0.nodes.Keys == Trio
    ensures Comes(s0, before) && stale.VoteAnswer? && Possible(before, CountVote(stale, [])) && !Timely(before, CountVote(stale, []))
    ensures Comes(Next(before, CountVote(stale, [])), s) && (1, 3) in s.elected && (2, 3) in s.elected
  {
    hide Comes, Enabled;
    var t0;
    t0, stale := FirstElection(s0);
    var t1 := TimesOut(t0, 3, Follower, 3, EMPTY_STORE);
    ComesOn(s0, t0, Timeout(3));
    var t2, ask3 := Asks(t1, 3, 4, EMPTY_STORE, 0, 1);
    ComesOn(s0, t1, AskVote(3, 0, 1));
    var t3, vote3 := Agrees(t2, 1, Leader, 3, EMPTY_STORE, ask3);
    ComesOn(s0, t2, AnswerVote(ask3));
    before := TimesOut(t3, 1, Follower, 4, EMPTY_STORE);
    ComesOn(s0, t3, Timeout(1));
    var t5 := FallsBack(before, 1, 5, stale);
    s := SecondVote(t5);
  }

  lemma SecondVote(t: System) returns (s: System)
    requires Is(t, 2, Candidate, 3, 2) && Runs(t, 2, 1, 3) && Is(t, 1, Follower, 3, 0)
    ensures Comes(t, s) && t.elected.Keys <= s.elected.Keys && (2, 3) in s.elected
  {
    hide Comes, Enabled;
    ComesToItself(t);
    var t6, ask4 := Asks(t, 2, 3, EMPTY_STORE, 1, 1);
    ComesOn(t, t, AskVote(2, 1, 1));
    var t7, vote4 := Agrees(t6, 1, Follower, 3, EMPTY_STORE, ask4);
    ComesOn(t, t6, AnswerVote(ask4));
    s := Wins(t7, 2, 3, EMPTY_STORE, vote4);
    ComesOn(t, t7, CountVote(vote4, []));
  }

  // ---------------------------------------------------------------------------------------------
  // A stale answer to an append
  // ---------------------------------------------------------------------------------------------

  /** A leader's heartbeat to a peer. */
  lemma Sends(s: System, n: Id, term: nat, dst: Id) returns (s': System, m: Message)
    requires Is(s, n, Leader, term, n) && dst in Trio && dst != n && dst in s.nodes[n].nextIndex && s.nodes[n].nextIndex[dst] == 1
    ensures Enabled(s, SendAppend(n, dst, 1, term)) && s' == Next(s, SendAppend(n, dst, 1, term)) && Only(s, s', n)
    ensures s'.nodes == s.nodes && m in s'.net
    ensures m == AppendAsk(n, dst, Sent(term, 1, 0), AppendRequest(term, n, 0, 0, 0, []))
  {
    assert Slice(EMPTY_LOG, 0, 0) == Some([]);
    m := AppendAsk(n, dst, Sent(term, 1, 0), AppendRequest(term, n, 0, 0, 0, []));
    s' := Next(s, SendAppend(n, dst, 1, term));
  }

  /** A peer that is in a higher term answers with that term. */
  lemma Outranks(s: System, n: Id, role: Role, term: nat, voted: Id, m: Message) returns (s': System, a: Message)
    requires Is(s, n, role, term, voted) && role != Dead
    requires m in s.net && m.AppendAsk? && m.dst == n && m.request.term < term
    ensures Enabled(s, AnswerAppend(m)) && s' == Next(s, AnswerAppend(m)) && Only(s, s', n) && s'.nodes == s.nodes
    ensures a in s'.net && a == AppendAnswer(m.src, n, m.sent, AppendResponse(term, n, 0, 0, 0, false))
  {
    a := AppendAnswer(m.src, n, m.sent, AppendResponse(term, n, 0, 0, 0, false));
    s' := Next(s, AnswerAppend(m));
    assert s'.nodes == s.nodes;
  }

  /** A stale answer of a leader's own term makes it give up leading, free to vote in that term again. */
  lemma GivesUp(s: System, n: Id, term: nat, a: Message) returns (s': System)
    requires Is(s, n, Leader, term, n)
    requires a in s.net && a.AppendAnswer? && a.src == n && a.sent.term < term && a.response.term == term
    ensures Possible(s, CountAppend(a)) && s' == Next(s, CountAppend(a)) && Only(s, s', n)
    ensures !Timely(s, CountAppend(a))
    ensures Is(s', n, Follower, term, 0)
  {
    s' := Next(s, CountAppend(a));
  }

  /** Node 1 leads term 2 and has sent a heartbeat to node 2 that is still under way. */
  lemma SlowHeartbeat(s0: System) returns (s: System, slow: Message)
    requires Init(s0) && s0.nodes.Keys == Trio
    ensures Comes(s0, s)
    ensures slow in s.net && slow.AppendAsk? && slow.src == 1 && slow.dst == 2 && slow.sent.term == slow.request.term == 2
    ensures Is(s, 1, Leader, 2, 1) && |s.nodes[1].ballots| == 1
    ensures Is(s, 2, Follower, 2, 1) && Is(s, 3, Follower, 1, 0) && s.nodes[3].ballots == []
  {
    hide Comes, Enabled;
    var s4 := NodeOneLeads(s0);
    s, slow := Sends(s4, 1, 2, 2);
    ComesOn(s0, s4, SendAppend(1, 2, 1, 2));
  }

  /** Node 3 unseats node 1; both are then candidates of term 4. */
  lemma BothRun(s0: System, t0: System) returns (s: System)
    requires Comes(s0, t0)
    requires Is(t0, 1, Leader, 2, 1) && |t0.nodes[1].ballots| == 1
    requires Is(t0, 2, Follower, 2, 1) && Is(t0, 3, Follower, 1, 0) && t0.nodes[3].ballots == []
    ensures Comes(s0, s) && t0.net <= s.net
    ensures Is(s, 1, Candidate, 4, 1) && Runs(s, 1, 1, 4) && Is(s, 2, Follower, 2, 1)
    ensures Is(s, 3, Candidate, 4, 3) && Runs(s, 3, 2, 4)
  {
    hide Comes, Enabled;
    var t1 := TimesOut(t0, 3, Follower, 1, EMPTY_STORE);
    var t2 := TimesOut(t1, 3, Candidate, 2, EMPTY_STORE);
    var t3, ask := Asks(t2, 3, 3, EMPTY_STORE, 1, 1);
    var t4, vote := Agrees(t3, 1, Leader, 2, EMPTY_STORE, ask);
    var t5 := TimesOut(t4, 1, Follower, 3, EMPTY_STORE);
    s := TimesOut(t5, 3, Candidate, 3, EMPTY_STORE);
    ComesOn(s0, t0, Timeout(3));
    ComesOn(s0, t1, Timeout(3));
    ComesOn(s0, t2, AskVote(3, 1, 1));
    ComesOn(s0, t3, AnswerVote(ask));
    ComesOn(s0, t4, Timeout(1));
    ComesOn(s0, t5, Timeout(3));
  }

  /** With one stale answer to an append, all others being timely, it elects two leaders in one term as well. */
  lemma TwoLeadersByAppendAnswer(s0: System) returns (before: System, stale: Message, s: System)
    requires Init(s0) && s0.nodes.Keys == Trio
    ensures Comes(s0, before) && stale.AppendAnswer? && Possible(before, CountAppend(stale)) && !Timely(before, CountAppend(stale))
    ensures Comes(Next(before, CountAppend(stale)), s) && (1, 4) in s.elected && (3, 4) in s.elected
  {
    hide Comes, Enabled;
    var r0, slow := SlowHeartbeat(s0);
    var t0 := BothRun(s0, r0);
    var t1, ask1 := Asks(t0, 1, 4, EMPTY_STORE, 1, 2);
    ComesOn(s0, t0, AskVote(1, 1, 2));
    var t2, vote1 := Agrees(t1, 2, Follower, 2, EMPTY_STORE, ask1);
    ComesOn(s0, t1, AnswerVote(ask1));
    var t3 := Wins(t2, 1, 4, EMPTY_STORE, vote1);
    ComesOn(s0, t2, CountVote(vote1, []));
    before, stale := Outranks(t3, 2, Follower, 4, 1, slow);
    ComesOn(s0, t3, AnswerAppend(slow));
    var t5 := GivesUp(before, 1, 4, stale);
    s := ThirdVote(t5);
  }

  lemma ThirdVote(t: System) returns (s: System)
    requires Is(t, 3, Candidate, 4, 3) && Runs(t, 3, 2, 4) && Is(t, 1, Follower, 4, 0)
    ensures Comes(t, s) && t.elected.Keys <= s.elected.Keys && (3, 4) in s.elected
  {
    hide Comes, Enabled;
    ComesToItself(t);
    var t6, ask3 := Asks(t, 3, 4, EMPTY_STORE, 2, 1);
    ComesOn(t, t, AskVote(3, 2, 1));
    var t7, vote3 := Agrees(t6, 1, Follower, 4, EMPTY_STORE, ask3);
    ComesOn(t, t6, AnswerVote(ask3));
    s := Wins(t7, 3, 4, EMPTY_STORE, vote3);
    ComesOn(t, t7, CountVote(vote3, []));
  }
}

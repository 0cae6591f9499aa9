/** Over every run: no node holds or sends an entry of a term above its own. */
module TermOrder {
  import opened Types
  import opened LogStorage
  import opened StateMap
  import opened NodeStore
  import opened RaftNode
  import opened NodeSteps
  import opened Cluster
  import opened ElectionSafety
  import opened LogSafety
  import opened ClusterTheorems

  ghost predicate LogTerms(n: Node) {
    forall i :: i in n.store.log.entries ==> n.store.log.entries[i].term <= n.currentTerm
  }

  ghost predicate BatchTerms(r: AppendRequest) {
    forall e :: e in r.entryList ==> e.term <= r.term
  }

  ghost predicate TermsInv(s: System) {
    && (forall n :: n in s.nodes ==> LogTerms(s.nodes[n]))
    && (forall m :: m in s.net && m.AppendAsk? ==> BatchTerms(m.request))
  }

  lemma ChangeKeepsTerms(s: System, s': System, n: Id, b: Node)
    requires TermsInv(s) && n in s.nodes && s'.nodes == s.nodes[n := b] && s'.net == s.net && LogTerms(b)
    ensures TermsInv(s')
  {
    hide LogTerms, BatchTerms;
  }

  lemma SendKeepsTerms(s: System, m: Message)
    requires TermsInv(s) && (m.AppendAsk? ==> BatchTerms(m.request))
    ensures TermsInv(Send(s, m))
  {
    hide LogTerms, BatchTerms;
  }

  lemma SameLogTerms(a: Node, b: Node)
    requires LogTerms(a) && b.store.log == a.store.log && a.currentTerm <= b.currentTerm
    ensures LogTerms(b)
  {
  }

  lemma GrownLogTerms(a: Node, b: Node)
    requires LogTerms(a) && WellFormed(b.store) && GrowsBy(a.store.log, b.store.log, b.currentTerm) && a.currentTerm <= b.currentTerm
    ensures LogTerms(b)
  {
    var max := a.store.log.maximumIndex;
    forall i | i in b.store.log.entries ensures b.store.log.entries[i].term <= b.currentTerm {
      if i <= max {
        assert i in a.store.log.entries && a.store.log.entries[i] == b.store.log.entries[i];
      }
    }
  }

  lemma TermsOf(s: System, n: Id, m: Message)
    requires TermsInv(s) && n in s.nodes
    ensures LogTerms(s.nodes[n]) && (m in s.net && m.AppendAsk? ==> BatchTerms(m.request))
  {
    hide LogTerms, BatchTerms;
  }

  /** A batch is accepted only in its own term. */
  lemma AppendRequestTerms(n: Node, r: AppendRequest)
    requires LogTerms(n) && BatchTerms(r) && WellFormed(n.store) && Contiguous(r.entryList, r.prevEntryIndex)
    ensures LogTerms(HandleAppendRequest(n, r).0)
  {
    hide AcceptEntries, Matches, Conflict, Contiguous;
    MatchesAndConflictAreFound(n.store.log, r);
    var b := HandleAppendRequest(n, r).0;
    if r.term >= n.currentTerm && n.role != Dead && Matches(n.store.log, r).value {
      AcceptMovesForward(n.store, r);
      assert EntriesFrom(n.store.log, b.store.log, r.entryList) && b.currentTerm == r.term;
    }
  }

  lemma AnswerAppendKeepsTerms(s: System, m: Message)
    requires ClusterInv(s) && TermsInv(s) && Possible(s, AnswerAppend(m))
    ensures TermsInv(Next(s, AnswerAppend(m)))
  {
    hide ElectionInv, LogInv, HandleAppendRequest, TermsInv, Contiguous, WellFormed;
    var n := s.nodes[m.dst];
    var (b, r) := HandleAppendRequest(n, m.request);
    KeysAreIds(s, m.dst);
    StoreOf(s, m.dst);
    FlightOf(s, m);
    TermsOf(s, m.dst, m);
    AppendRequestMoves(n, m.request);
    AppendRequestTerms(n, m.request);
    ChangeKeepsTerms(s, Update(s, b), m.dst, b);
    if r.Some? {
      SendKeepsTerms(Update(s, b), AppendAnswer(m.src, m.dst, m.sent, r.value));
    }
  }

  lemma AnswerVoteKeepsTerms(s: System, m: Message)
    requires ClusterInv(s) && TermsInv(s) && Possible(s, AnswerVote(m))
    ensures TermsInv(Next(s, AnswerVote(m)))
  {
    hide ElectionInv, LogInv, HandleVoteRequest, TermsInv;
    var (b, r) := HandleVoteRequest(s.nodes[m.dst], m.ask);
    KeysAreIds(s, m.dst);
    VoteRequestKeepsStore(s.nodes[m.dst], m.ask);
    TermsOf(s, m.dst, m);
    SameLogTerms(s.nodes[m.dst], b);
    ChangeKeepsTerms(s, Update(s, b), m.dst, b);
    if r.Some? {
      SendKeepsTerms(Update(s, b), VoteAnswer(m.src, m.ballot, m.dst, r.value));
    }
  }

  lemma CountVoteKeepsTerms(s: System, a: Action)
    requires ClusterInv(s) && TermsInv(s) && a.CountVote? && Enabled(s, a)
    ensures TermsInv(Next(s, a))
  {
    hide ElectionInv, LogInv, HandleVoteResponse, TermsInv, Gained, YesVotes, GrowsBy, Window, LogTerms;
    var before := s.nodes[a.m.src];
    var b := HandleVoteResponse(before, a.m.ballot, a.m.dst, a.m.answer, a.initial);
    KeysAreIds(s, a.m.src);
    StoreOf(s, a.m.src);
    TermsOf(s, a.m.src, a.m);
    VoteResponseEffect(before, a.m.ballot, a.m.dst, a.m.answer, a.initial);
    VoteResponseTerm(before, a.m.ballot, a.m.dst, a.m.answer, a.initial);
    if b.role == Leader && before.role == Candidate {
      GrownLogTerms(before, b);
    } else {
      SameLogTerms(before, b);
    }
    ChangeKeepsTerms(s, Next(s, a), a.m.src, b);
  }

  lemma VoteResponseTerm(n: Node, b: nat, peer: Id, r: VoteResponse, initial: seq<Command>)
    requires b < |n.ballots| && VoteIsTimely(n, b, r)
    ensures var n' := HandleVoteResponse(n, b, peer, r, initial); n.currentTerm <= n'.currentTerm && n'.id == n.id
  {
  }

  lemma SendAppendKeepsTerms(s: System, a: Action)
    requires ClusterInv(s) && TermsInv(s) && a.SendAppend? && Possible(s, a)
    ensures TermsInv(Next(s, a))
  {
    hide ElectionInv, LogInv, PrepareAppend, TermsInv;
    StoreOf(s, a.n);
    BatchIsSlice(s.nodes[a.n], a.dst, a.maximumLength);
    var r := PrepareAppend(s.nodes[a.n], a.dst, a.maximumLength).request;
    var m := AppendAsk(a.n, a.dst, Sent(a.startTerm, r.prevEntryIndex + 1, |r.entryList|), r);
    TermsOf(s, a.n, m);
    SendKeepsTerms(s, m);
  }

  lemma CountAppendKeepsTerms(s: System, a: Action)
    requires ClusterInv(s) && TermsInv(s) && a.CountAppend? && Enabled(s, a)
    ensures TermsInv(Next(s, a))
  {
    hide ElectionInv, LogInv, HandleAppendResponse, TermsInv, Window, AnswerWithin;
    var n := s.nodes[a.m.src];
    var b := HandleAppendResponse(n, a.m.dst, a.m.sent, a.m.response);
    KeysAreIds(s, a.m.src);
    TermsOf(s, a.m.src, a.m);
    AppendResponsePosture(n, a.m.dst, a.m.sent, a.m.response);
    AppendResponseKeepsLog(n, a.m.dst, a.m.sent, a.m.response);
    SameLogTerms(n, b);
    ChangeKeepsTerms(s, Next(s, a), a.m.src, b);
  }

  lemma AppendResponseKeepsLog(n: Node, peer: Id, sent: Sent, r: AppendResponse)
    ensures HandleAppendResponse(n, peer, sent, r).store.log == n.store.log
  {
  }

  lemma ClientAppendKeepsTerms(s: System, n: Id, command: Command)
    requires ClusterInv(s) && TermsInv(s) && Possible(s, ClientAppend(n, command))
    ensures TermsInv(Next(s, ClientAppend(n, command)))
  {
    hide ElectionInv, LogInv, Gained, Append, TermsInv, GrowsBy;
    var before := s.nodes[n];
    var b := before.(store := before.store.(log := Append(before.store.log, before.currentTerm, command)));
    KeysAreIds(s, n);
    StoreOf(s, n);
    TermsOf(s, n, VoteAnswer(0, 0, 0, VoteResponse(0, 0, false)));
    ClientAppendEffect(before, command);
    GrownLogTerms(before, b);
    ChangeKeepsTerms(s, Next(s, ClientAppend(n, command)), n, b);
  }

  lemma LocalKeepsTerms(s: System, a: Action)
    requires ClusterInv(s) && TermsInv(s) && (a.Timeout? || a.Apply? || a.BackUp?) && Possible(s, a)
    ensures TermsInv(Next(s, a))
  {
    hide ElectionInv, LogInv, UpdateFromLog, TermsInv;
    KeysAreIds(s, a.n);
    TermsOf(s, a.n, VoteAnswer(0, 0, 0, VoteResponse(0, 0, false)));
    SameLogTerms(s.nodes[a.n], Next(s, a).nodes[a.n]);
    ChangeKeepsTerms(s, Next(s, a), a.n, Next(s, a).nodes[a.n]);
  }

  lemma StepKeepsTerms(s: System, a: Action)
    requires ClusterInv(s) && TermsInv(s) && Enabled(s, a)
    ensures TermsInv(Next(s, a))
  {
    hide ElectionInv, LogInv, Next, TermsInv;
    match a
    case Timeout(_) => LocalKeepsTerms(s, a);
    case AskVote(_, _, _) => AskVoteKeepsTerms(s, a);
    case AnswerVote(m) => AnswerVoteKeepsTerms(s, m);
    case CountVote(_, _) => CountVoteKeepsTerms(s, a);
    case SendAppend(_, _, _, _) => SendAppendKeepsTerms(s, a);
    case AnswerAppend(m) => AnswerAppendKeepsTerms(s, m);
    case CountAppend(_) => CountAppendKeepsTerms(s, a);
    case ClientAppend(n, command) => ClientAppendKeepsTerms(s, n, command);
    case Apply(_) => LocalKeepsTerms(s, a);
    case BackUp(_) => LocalKeepsTerms(s, a);
  }

  lemma AskVoteKeepsTerms(s: System, a: Action)
    requires TermsInv(s) && a.AskVote? && Possible(s, a)
    ensures TermsInv(Next(s, a))
  {
    hide TermsInv;
    SendKeepsTerms(s, VoteAsk(a.n, a.ballot, a.dst, AskForVote(s.nodes[a.n], a.ballot).value));
  }

  lemma {:induction false} RunKeepsTerms(s1: System, actions: seq<Action>, s2: System)
    requires ClusterInv(s1) && TermsInv(s1) && Leads(s1, actions, s2)
    ensures TermsInv(s2)
    decreases |actions|
  {
    hide ClusterInv, TermsInv;
    if actions != [] {
      StepKeepsTerms(s1, actions[0]);
      StepKeepsClusterInv(s1, actions[0]);
      RunKeepsTerms(Next(s1, actions[0]), actions[1..], s2);
    }
  }

  /** In every state of every run no log holds an entry of a term above its node's. */
  lemma EntriesAreNotAhead(s: System, n: Id, i: nat)
    requires Reachable(s) && n in s.nodes && i in s.nodes[n].store.log.entries
    ensures s.nodes[n].store.log.entries[i].term <= s.nodes[n].currentTerm
  {
    var s0, actions :| ReachedFrom(s0, actions, s);
    InitHoldsClusterInv(s0);
    RunKeepsTerms(s0, actions, s);
    TermsOf(s, n, VoteAnswer(0, 0, 0, VoteResponse(0, 0, false)));
  }
}

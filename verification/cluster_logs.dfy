/** Every run: dense logs, ordered indices, leader windows, and the identity of entries. */
module LogSafety {
  import opened Types
  import opened LogStorage
  import opened StateMap
  import opened NodeStore
  import opened RaftNode
  import opened NodeSteps
  import opened Cluster
  import opened ElectionSafety

  // ---------------------------------------------------------------------------------------------
  // The invariant
  // ---------------------------------------------------------------------------------------------

  ghost predicate Stores(s: System) {
    forall n :: n in s.nodes ==> WellFormed(s.nodes[n].store) && Window(s.nodes[n])
  }

  /** A batch in flight is a run of consecutive indices that its sender has. */
  ghost predicate BatchWithin(s: System, m: Message)
    requires m.AppendAsk?
  {
    && m.src in s.nodes && m.dst in s.nodes
    && Contiguous(m.request.entryList, m.request.prevEntryIndex)
    && m.sent.next == m.request.prevEntryIndex + 1 && m.sent.length == |m.request.entryList|
    && SentWithin(m.sent, Max(s.nodes[m.src]))
  }

  ghost predicate AnswerWithin(s: System, m: Message)
    requires m.AppendAnswer?
  {
    && m.src in s.nodes && m.dst in s.nodes && SentWithin(m.sent, Max(s.nodes[m.src]))
    && m.response.conflictEntryIndex < m.sent.next
    && (m.response.conflictEntryTerm > 0 ==> m.response.conflictEntryIndex >= 1)
    && (m.response.success ==> Confirmed(s, m))
  }

  /** The follower's log reaches as far as the batch did. */
  ghost predicate Confirmed(s: System, m: Message)
    requires m.AppendAnswer?
  {
    m.dst in s.nodes && Max(s.nodes[m.dst]) >= m.sent.next - 1 + m.sent.length
  }

  ghost predicate Flights(s: System) {
    && (forall m :: m in s.net && m.AppendAsk? ==> BatchWithin(s, m))
    && (forall m :: m in s.net && m.AppendAnswer? ==> AnswerWithin(s, m))
  }

  ghost predicate Known(s: System, e: Entry) {
    (e.index, e.term) in s.written && s.written[(e.index, e.term)].command == e.command
  }

  ghost predicate KnownLogs(s: System) {
    forall n, i :: n in s.nodes && i in s.nodes[n].store.log.entries ==> Known(s, s.nodes[n].store.log.entries[i])
  }

  ghost predicate KnownFlights(s: System) {
    forall m, e :: m in s.net && m.AppendAsk? && e in m.request.entryList ==> Known(s, e)
  }

  /** Its author was elected in that term, and while it is in that term its log reaches that far. */
  ghost predicate AuthoredAt(s: System, i: nat, t: nat)
    requires (i, t) in s.written
  {
    var author := s.written[(i, t)].author;
    && author in s.nodes && (author, t) in s.elected && s.nodes[author].currentTerm >= t
    && (s.nodes[author].currentTerm == t ==> i <= Max(s.nodes[author]))
  }

  ghost predicate Authored(s: System) {
    forall i, t :: (i, t) in s.written ==> AuthoredAt(s, i, t)
  }

  ghost predicate LogInv(s: System) {
    Stores(s) && Flights(s) && KnownLogs(s) && KnownFlights(s) && Authored(s)
  }

  // ---------------------------------------------------------------------------------------------
  // Steps that write nothing new
  // ---------------------------------------------------------------------------------------------

  /** One node changes: its store moves forward, with entries that are already known. */
  ghost predicate CopiesAt(s: System, s': System, n: Id, b: Node) {
    && n in s.nodes && s'.nodes == s.nodes[n := b]
    && s'.elected == s.elected && s'.written == s.written
    && Forward(s.nodes[n].store, b.store) && Window(b) && s.nodes[n].currentTerm <= b.currentTerm
    && (forall i :: i in b.store.log.entries ==> Known(s, b.store.log.entries[i]))
  }

  lemma CopyKeepsFlights(s: System, s': System, n: Id, b: Node)
    requires Flights(s) && CopiesAt(s, s', n, b) && s'.net == s.net
    ensures Flights(s')
  {
    assert s'.nodes.Keys == s.nodes.Keys;
    forall m | m in s'.net && m.AppendAsk? ensures BatchWithin(s', m) { assert BatchWithin(s, m); }
    forall m | m in s'.net && m.AppendAnswer? ensures AnswerWithin(s', m) { assert AnswerWithin(s, m); }
  }

  lemma CopyKeepsKnown(s: System, s': System, n: Id, b: Node)
    requires KnownLogs(s) && KnownFlights(s) && Authored(s) && CopiesAt(s, s', n, b) && s'.net == s.net
    ensures KnownLogs(s') && KnownFlights(s') && Authored(s')
  {
    forall k, i | k in s'.nodes && i in s'.nodes[k].store.log.entries ensures Known(s', s'.nodes[k].store.log.entries[i]) {
      assert Known(s, s'.nodes[k].store.log.entries[i]);
    }
    forall m, e | m in s'.net && m.AppendAsk? && e in m.request.entryList ensures Known(s', e) { assert Known(s, e); }
    forall i, t | (i, t) in s'.written ensures AuthoredAt(s', i, t) { assert AuthoredAt(s, i, t); }
  }

  lemma CopyKeeps(s: System, s': System, n: Id, b: Node)
    requires LogInv(s) && CopiesAt(s, s', n, b) && s'.net == s.net
    ensures LogInv(s')
  {
    CopyKeepsFlights(s, s', n, b);
    CopyKeepsKnown(s, s', n, b);
    hide Flights, KnownLogs, KnownFlights, Authored;
  }

  lemma SendKeepsLogs(s: System, m: Message)
    requires LogInv(s)
    requires m.AppendAsk? ==> BatchWithin(s, m) && forall e :: e in m.request.entryList ==> Known(s, e)
    requires m.AppendAnswer? ==> AnswerWithin(s, m)
    ensures LogInv(Send(s, m))
  {
    var s' := Send(s, m);
    assert Flights(s') by {
      forall k | k in s'.net && k.AppendAsk? ensures BatchWithin(s', k) { if k != m { assert BatchWithin(s, k); } }
      forall k | k in s'.net && k.AppendAnswer? ensures AnswerWithin(s', k) { if k != m { assert AnswerWithin(s, k); } }
    }
    SendKeepsKnown(s, m);
  }

  lemma SendKeepsKnown(s: System, m: Message)
    requires KnownLogs(s) && KnownFlights(s) && Authored(s)
    requires m.AppendAsk? ==> forall e :: e in m.request.entryList ==> Known(s, e)
    ensures KnownLogs(Send(s, m)) && KnownFlights(Send(s, m)) && Authored(Send(s, m))
  {
    var s' := Send(s, m);
    forall k, i | k in s'.nodes && i in s'.nodes[k].store.log.entries ensures Known(s', s'.nodes[k].store.log.entries[i]) {
      assert Known(s, s'.nodes[k].store.log.entries[i]);
    }
    forall k, e | k in s'.net && k.AppendAsk? && e in k.request.entryList ensures Known(s', e) { assert Known(s, e); }
    forall i, t | (i, t) in s'.written ensures AuthoredAt(s', i, t) { assert AuthoredAt(s, i, t); }
  }

  // ---------------------------------------------------------------------------------------------
  // Steps that write
  // ---------------------------------------------------------------------------------------------

  /** A leader writes new entries at the end of its log, in its own term. */
  ghost predicate WritesAt(s: System, s': System, n: Id, b: Node) {
    && n in s.nodes && s'.nodes == s.nodes[n := b] && s'.net == s.net
    && s.elected.Keys <= s'.elected.Keys && (n, b.currentTerm) in s'.elected
    && s'.written == s.written + Gained(n, b.currentTerm, s.nodes[n].store.log, b.store.log)
    && Forward(s.nodes[n].store, b.store) && Window(b) && b.currentTerm == s.nodes[n].currentTerm
    && GrowsBy(s.nodes[n].store.log, b.store.log, b.currentTerm)
  }

  /** Nobody, this leader included, has written beyond the end of its log in this term. */
  ghost predicate NothingBeyond(s: System, n: Id) {
    n in s.nodes && forall i :: (i, s.nodes[n].currentTerm) in s.written ==> i <= Max(s.nodes[n])
  }

  lemma WriteKeepsOld(s: System, s': System, n: Id, b: Node, e: Entry)
    requires WritesAt(s, s', n, b) && NothingBeyond(s, n) && Known(s, e)
    ensures Known(s', e)
  {
  }

  lemma WriteKeepsKnown(s: System, s': System, n: Id, b: Node)
    requires Stores(s) && KnownLogs(s) && KnownFlights(s) && WritesAt(s, s', n, b) && NothingBeyond(s, n)
    ensures KnownLogs(s') && KnownFlights(s')
  {
    forall k, i | k in s'.nodes && i in s'.nodes[k].store.log.entries ensures Known(s', s'.nodes[k].store.log.entries[i]) {
      if k == n && i > Max(s.nodes[n]) {
        assert b.store.log.entries[i].term == b.currentTerm;
        assert (i, b.currentTerm) in Gained(n, b.currentTerm, s.nodes[n].store.log, b.store.log);
      } else {
        assert i in s.nodes[k].store.log.entries;
        WriteKeepsOld(s, s', n, b, s.nodes[k].store.log.entries[i]);
      }
    }
    forall m, e | m in s'.net && m.AppendAsk? && e in m.request.entryList ensures Known(s', e) {
      WriteKeepsOld(s, s', n, b, e);
    }
  }

  lemma WriteKeepsFlights(s: System, s': System, n: Id, b: Node)
    requires Flights(s) && WritesAt(s, s', n, b)
    ensures Flights(s')
  {
    assert s'.nodes.Keys == s.nodes.Keys;
    forall m | m in s'.net && m.AppendAsk? ensures BatchWithin(s', m) { assert BatchWithin(s, m); }
    forall m | m in s'.net && m.AppendAnswer? ensures AnswerWithin(s', m) { assert AnswerWithin(s, m); }
  }

  lemma WriteKeepsAuthored(s: System, s': System, n: Id, b: Node)
    requires Authored(s) && WritesAt(s, s', n, b)
    ensures Authored(s')
  {
    forall i, t | (i, t) in s'.written ensures AuthoredAt(s', i, t) {
      if (i, t) !in Gained(n, b.currentTerm, s.nodes[n].store.log, b.store.log) {
        assert AuthoredAt(s, i, t);
        assert s'.written[(i, t)] == s.written[(i, t)];
      }
    }
  }

  lemma WriteKeeps(s: System, s': System, n: Id, b: Node)
    requires LogInv(s) && WritesAt(s, s', n, b) && NothingBeyond(s, n)
    ensures LogInv(s')
  {
    hide Stores, Flights, KnownLogs, KnownFlights, Authored, WritesAt, NothingBeyond;
    WriteKeepsStores(s, s', n, b);
    WriteKeepsKnown(s, s', n, b);
    WriteKeepsFlights(s, s', n, b);
    WriteKeepsAuthored(s, s', n, b);
  }

  lemma WriteKeepsStores(s: System, s': System, n: Id, b: Node)
    requires Stores(s) && WritesAt(s, s', n, b)
    ensures Stores(s')
  {
  }

  /** A leader has written everything that was ever written in its term. */
  lemma LeaderWroteAll(s: System, n: Id)
    requires ElectionInv(s) && LogInv(s) && n in s.nodes && s.nodes[n].role == Leader
    ensures NothingBeyond(s, n)
  {
    hide SelfVotes, Votes, Ballots, Asks, Appends, Stores, Flights, KnownLogs, KnownFlights;
    forall i | (i, s.nodes[n].currentTerm) in s.written ensures i <= Max(s.nodes[n]) {
      assert AuthoredAt(s, i, s.nodes[n].currentTerm);
    }
  }

  /** Nothing has been written in a term before its leader is elected. */
  lemma NewTermIsBlank(s: System, n: Id, t: nat)
    requires LogInv(s) && n in s.nodes && s.nodes[n].currentTerm == t
    requires forall l: Id :: (l, t) !in s.elected
    ensures NothingBeyond(s, n)
  {
    forall i: nat ensures (i, t) !in s.written {
      assert (i, t) in s.written ==> AuthoredAt(s, i, t);
    }
  }

  // ---------------------------------------------------------------------------------------------
  // The actions
  // ---------------------------------------------------------------------------------------------

  lemma StoreOf(s: System, n: Id)
    requires LogInv(s) && n in s.nodes
    ensures WellFormed(s.nodes[n].store) && Window(s.nodes[n])
    ensures forall i :: i in s.nodes[n].store.log.entries ==> Known(s, s.nodes[n].store.log.entries[i])
  {
  }

  /** A node that keeps its log and moves its indices forward. */
  lemma SameLogKeeps(s: System, s': System, n: Id, b: Node)
    requires LogInv(s) && n in s.nodes && s'.nodes == s.nodes[n := b] && s'.net == s.net
    requires s'.elected == s.elected && s'.written == s.written
    requires b.store.log == s.nodes[n].store.log && Forward(s.nodes[n].store, b.store) && Window(b)
    requires s.nodes[n].currentTerm <= b.currentTerm
    ensures LogInv(s')
  {
    StoreOf(s, n);
    hide LogInv;
    CopyKeeps(s, s', n, b);
  }

  lemma TimeoutKeepsLogs(s: System, n: Id)
    requires ElectionInv(s) && LogInv(s) && Possible(s, Timeout(n))
    ensures LogInv(Next(s, Timeout(n)))
  {
    KeysAreIds(s, n);
    StoreOf(s, n);
    hide LogInv, ElectionInv;
    SameLogKeeps(s, Next(s, Timeout(n)), n, StartCandidacy(s.nodes[n]));
  }

  lemma VoteRequestKeepsStore(n: Node, r: VoteRequest)
    ensures var n' := HandleVoteRequest(n, r).0;
            n'.store == n.store && n'.nextIndex == n.nextIndex && n'.id == n.id && n.currentTerm <= n'.currentTerm
            && (n'.role == Leader ==> n.role == Leader) && n'.peers == n.peers
  {
  }

  lemma AnswerVoteKeepsLogs(s: System, m: Message)
    requires ElectionInv(s) && LogInv(s) && Possible(s, AnswerVote(m))
    ensures LogInv(Next(s, AnswerVote(m)))
  {
    KeysAreIds(s, m.dst);
    StoreOf(s, m.dst);
    VoteRequestKeepsStore(s.nodes[m.dst], m.ask);
    hide LogInv, ElectionInv, HandleVoteRequest;
    var (b, r) := HandleVoteRequest(s.nodes[m.dst], m.ask);
    SameLogKeeps(s, Update(s, b), m.dst, b);
    if r.Some? {
      SendKeepsLogs(Update(s, b), VoteAnswer(m.src, m.ballot, m.dst, r.value));
    }
  }

  lemma VoteResponseMoves(n: Node, b: nat, peer: Id, r: VoteResponse, initial: seq<Command>)
    requires b < |n.ballots| && VoteIsTimely(n, b, r)
    ensures var n' := HandleVoteResponse(n, b, peer, r, initial);
            && n'.id == n.id && n.currentTerm <= n'.currentTerm
            && (n.role == Candidate && n'.role == Leader ==>
                  n'.currentTerm == n.currentTerm && Majority(n'.ballots[b].collected, n.peers) && |n'.ballots| == |n.ballots|)
  {
  }

  lemma CountVoteKeepsLogs(s: System, a: Action)
    requires ElectionInv(s) && LogInv(s) && a.CountVote? && Enabled(s, a)
    ensures LogInv(Next(s, a))
  {
    var m, before := a.m, s.nodes[a.m.src];
    var after := HandleVoteResponse(before, m.ballot, m.dst, m.answer, a.initial);
    hide LogInv, ElectionInv, HandleVoteResponse, Gained, YesVotes;
    KeysAreIds(s, m.src);
    StoreOf(s, m.src);
    VoteResponseEffect(before, m.ballot, m.dst, m.answer, a.initial);
    VoteResponseMoves(before, m.ballot, m.dst, m.answer, a.initial);
    if before.role == Candidate && after.role == Leader {
      ElectionWrites(s, a);
    } else {
      SameLogKeeps(s, Next(s, a), m.src, after);
    }
  }

  lemma ElectionWrites(s: System, a: Action)
    requires ElectionInv(s) && LogInv(s) && a.CountVote? && Enabled(s, a) && s.nodes[a.m.src].role == Candidate
    requires HandleVoteResponse(s.nodes[a.m.src], a.m.ballot, a.m.dst, a.m.answer, a.initial).role == Leader
    ensures LogInv(Next(s, a))
  {
    hide LogInv, ElectionInv, HandleVoteResponse, WritesAt, NothingBeyond, Next;
    ElectionIsWriting(s, a);
    ElectedTermIsNew(s, a);
    NewTermIsBlank(s, a.m.src, s.nodes[a.m.src].currentTerm);
    WriteKeeps(s, Next(s, a), a.m.src, HandleVoteResponse(s.nodes[a.m.src], a.m.ballot, a.m.dst, a.m.answer, a.initial));
  }

  lemma ElectionIsWriting(s: System, a: Action)
    requires ElectionInv(s) && LogInv(s) && a.CountVote? && Enabled(s, a) && s.nodes[a.m.src].role == Candidate
    requires HandleVoteResponse(s.nodes[a.m.src], a.m.ballot, a.m.dst, a.m.answer, a.initial).role == Leader
    ensures WritesAt(s, Next(s, a), a.m.src, HandleVoteResponse(s.nodes[a.m.src], a.m.ballot, a.m.dst, a.m.answer, a.initial))
  {
    var m, before := a.m, s.nodes[a.m.src];
    hide LogInv, ElectionInv, HandleVoteResponse, Gained, YesVotes, GrowsBy, Window, Forward;
    KeysAreIds(s, m.src);
    StoreOf(s, m.src);
    VoteResponseEffect(before, m.ballot, m.dst, m.answer, a.initial);
    VoteResponseMoves(before, m.ballot, m.dst, m.answer, a.initial);
  }

  /** The term in which a candidate wins has had no leader before. */
  lemma ElectedTermIsNew(s: System, a: Action)
    requires ElectionInv(s) && a.CountVote? && Enabled(s, a) && s.nodes[a.m.src].role == Candidate
    requires HandleVoteResponse(s.nodes[a.m.src], a.m.ballot, a.m.dst, a.m.answer, a.initial).role == Leader
    ensures forall l: Id :: (l, s.nodes[a.m.src].currentTerm) !in s.elected
  {
    var m, before := a.m, s.nodes[a.m.src];
    hide ElectionInv, BecomeLeader;
    assert m.answer.term == before.ballots[m.ballot].term == before.currentTerm;
    var n1 := Counted(before, m);
    CountedKeeps(s, m);
    KeysAreIds(s, m.src);
    CountedThenDecided(before, m, a.initial);
    forall l: Id ensures (l, before.currentTerm) !in s.elected {
      WinnerIsAlone(Update(s, n1), m.src, m.ballot, l);
    }
  }

  lemma PreparedIsWithin(s: System, n: Id, dst: Id, maximumLength: nat, startTerm: nat)
    requires LogInv(s) && n in s.nodes && s.nodes[n].role == Leader && dst in s.nodes[n].peers && dst in s.nodes
    requires PrepareAppend(s.nodes[n], dst, maximumLength).Batch?
    ensures var r := PrepareAppend(s.nodes[n], dst, maximumLength).request;
            && BatchWithin(s, AppendAsk(n, dst, Sent(startTerm, r.prevEntryIndex + 1, |r.entryList|), r))
            && forall e :: e in r.entryList ==> Known(s, e)
  {
    StoreOf(s, n);
    hide LogInv, PrepareAppend, Known;
    BatchIsSlice(s.nodes[n], dst, maximumLength);
  }

  lemma SendAppendKeepsLogs(s: System, a: Action)
    requires ElectionInv(s) && LogInv(s) && a.SendAppend? && Possible(s, a)
    ensures LogInv(Next(s, a))
  {
    hide LogInv, ElectionInv, PrepareAppend, BatchWithin, Known;
    LeaderIsElected(s, a.n, a.dst);
    PreparedIsWithin(s, a.n, a.dst, a.maximumLength, a.startTerm);
    var r := PrepareAppend(s.nodes[a.n], a.dst, a.maximumLength).request;
    SendKeepsLogs(s, AppendAsk(a.n, a.dst, Sent(a.startTerm, r.prevEntryIndex + 1, |r.entryList|), r));
  }

  lemma FlightOf(s: System, m: Message)
    requires LogInv(s) && m in s.net
    ensures m.AppendAsk? ==> BatchWithin(s, m) && forall e :: e in m.request.entryList ==> Known(s, e)
    ensures m.AppendAnswer? ==> AnswerWithin(s, m)
  {
  }

  lemma AppendRequestMoves(n: Node, r: AppendRequest)
    ensures var n' := HandleAppendRequest(n, r).0;
            n'.id == n.id && n'.peers == n.peers && n.currentTerm <= n'.currentTerm
            && (n'.role == Leader ==> n.role == Leader && n'.store == n.store)
  {
  }

  lemma AnswerAppendKeepsLogs(s: System, m: Message)
    requires ElectionInv(s) && LogInv(s) && Possible(s, AnswerAppend(m))
    ensures LogInv(Next(s, AnswerAppend(m)))
  {
    hide LogInv, ElectionInv, HandleAppendRequest, CopiesAt, AnswerWithin;
    KeysAreIds(s, m.dst);
    AppendRequestMoves(s.nodes[m.dst], m.request);
    AnswerIsCopy(s, m);
    var (b, r) := HandleAppendRequest(s.nodes[m.dst], m.request);
    var s1 := Update(s, b);
    CopyKeeps(s, s1, m.dst, b);
    if r.Some? {
      SendKeepsLogs(s1, AppendAnswer(m.src, m.dst, m.sent, r.value));
    }
  }

  lemma AnswerIsCopy(s: System, m: Message)
    requires ElectionInv(s) && LogInv(s) && Possible(s, AnswerAppend(m))
    ensures var (b, r) := HandleAppendRequest(s.nodes[m.dst], m.request);
            && CopiesAt(s, Update(s, b), m.dst, b)
            && (r.Some? ==> AnswerWithin(Update(s, b), AppendAnswer(m.src, m.dst, m.sent, r.value)))
  {
    hide LogInv, ElectionInv, HandleAppendRequest, Known, WellFormed, Contiguous;
    KeysAreIds(s, m.dst);
    StoreOf(s, m.dst);
    FlightOf(s, m);
    AppendRequestEffect(s.nodes[m.dst], m.request);
    AppendRequestMoves(s.nodes[m.dst], m.request);
  }

  lemma CountAppendKeepsLogs(s: System, a: Action)
    requires ElectionInv(s) && LogInv(s) && a.CountAppend? && Enabled(s, a)
    ensures LogInv(Next(s, a))
  {
    var n := s.nodes[a.m.src];
    KeysAreIds(s, a.m.src);
    StoreOf(s, a.m.src);
    FlightOf(s, a.m);
    AppendResponseEffect(n, a.m.dst, a.m.sent, a.m.response);
    AppendResponsePosture(n, a.m.dst, a.m.sent, a.m.response);
    hide LogInv, ElectionInv, HandleAppendResponse;
    SameLogKeeps(s, Next(s, a), a.m.src, HandleAppendResponse(n, a.m.dst, a.m.sent, a.m.response));
  }

  lemma ClientAppendKeepsLogs(s: System, n: Id, command: Command)
    requires ElectionInv(s) && LogInv(s) && Possible(s, ClientAppend(n, command))
    ensures LogInv(Next(s, ClientAppend(n, command)))
  {
    hide LogInv, ElectionInv, NothingBeyond, Gained, Append;
    var before := s.nodes[n];
    var b := before.(store := before.store.(log := Append(before.store.log, before.currentTerm, command)));
    KeysAreIds(s, n);
    StoreOf(s, n);
    LeaderWroteAll(s, n);
    IsElected(s, n);
    ClientAppendEffect(before, command);
    assert WritesAt(s, Next(s, ClientAppend(n, command)), n, b);
    hide WritesAt, Next;
    WriteKeeps(s, Next(s, ClientAppend(n, command)), n, b);
  }

  lemma ClientAppendEffect(n: Node, command: Command)
    requires WellFormed(n.store) && Window(n)
    ensures var b := n.(store := n.store.(log := Append(n.store.log, n.currentTerm, command)));
            Forward(n.store, b.store) && Window(b) && GrowsBy(n.store.log, b.store.log, n.currentTerm)
  {
  }

  lemma IsElected(s: System, n: Id)
    requires ElectionInv(s) && n in s.nodes && s.nodes[n].role == Leader
    ensures (n, s.nodes[n].currentTerm) in s.elected
  {
  }

  lemma LocalKeepsLogs(s: System, a: Action)
    requires ElectionInv(s) && LogInv(s) && (a.Apply? || a.BackUp?) && Possible(s, a)
    ensures LogInv(Next(s, a))
  {
    hide LogInv, ElectionInv, CommitProcedure, Window, WellFormed;
    var st := s.nodes[a.n].store;
    KeysAreIds(s, a.n);
    StoreOf(s, a.n);
    if a.Apply? {
      CommitProcedureMovesForward(st);
      WindowIgnoresIndices(s.nodes[a.n], CommitProcedure(st));
      SameLogKeeps(s, Next(s, a), a.n, s.nodes[a.n].(store := CommitProcedure(st)));
    } else {
      BackUpMovesForward(st);
      WindowIgnoresIndices(s.nodes[a.n], st.(lastBackupIndex := st.commitIndex));
      SameLogKeeps(s, Next(s, a), a.n, s.nodes[a.n].(store := st.(lastBackupIndex := st.commitIndex)));
    }
  }

  lemma BackUpMovesForward(st: Store)
    requires WellFormed(st)
    ensures Forward(st, st.(lastBackupIndex := st.commitIndex))
  {
  }

  lemma WindowIgnoresIndices(n: Node, st: Store)
    requires Window(n) && st.log == n.store.log
    ensures Window(n.(store := st))
  {
  }

  lemma AskVoteKeepsLogs(s: System, a: Action)
    requires LogInv(s) && a.AskVote? && Possible(s, a)
    ensures LogInv(Next(s, a))
  {
    hide LogInv;
    SendKeepsLogs(s, VoteAsk(a.n, a.ballot, a.dst, AskForVote(s.nodes[a.n], a.ballot).value));
  }

  lemma StepKeepsLogInv(s: System, a: Action)
    requires ElectionInv(s) && LogInv(s) && Enabled(s, a)
    ensures LogInv(Next(s, a))
  {
    hide LogInv, ElectionInv, Next;
    match a
    case Timeout(n) => TimeoutKeepsLogs(s, n);
    case AskVote(_, _, _) => AskVoteKeepsLogs(s, a);
    case AnswerVote(m) => AnswerVoteKeepsLogs(s, m);
    case CountVote(_, _) => CountVoteKeepsLogs(s, a);
    case SendAppend(_, _, _, _) => SendAppendKeepsLogs(s, a);
    case AnswerAppend(m) => AnswerAppendKeepsLogs(s, m);
    case CountAppend(_) => CountAppendKeepsLogs(s, a);
    case ClientAppend(n, command) => ClientAppendKeepsLogs(s, n, command);
    case Apply(_) => LocalKeepsLogs(s, a);
    case BackUp(_) => LocalKeepsLogs(s, a);
  }
}

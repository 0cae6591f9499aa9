/** What holds over every run of a fresh cluster. */
module ClusterTheorems {
  import opened Types
  import opened LogStorage
  import opened StateMap
  import opened NodeStore
  import opened RaftNode
  import opened NodeSteps
  import opened Cluster
  import opened ElectionSafety
  import opened LogSafety

  ghost predicate ClusterInv(s: System) {
    ElectionInv(s) && LogInv(s)
  }

  lemma InitHoldsClusterInv(s: System)
    requires Init(s)
    ensures ClusterInv(s)
  {
    InitHoldsElectionInv(s);
  }

  lemma {:induction false} RunKeepsClusterInv(s1: System, actions: seq<Action>, s2: System)
    requires ClusterInv(s1) && Leads(s1, actions, s2)
    ensures ClusterInv(s2)
    decreases |actions|
  {
    hide ElectionInv, LogInv;
    if actions != [] {
      StepKeepsElectionInv(s1, actions[0]);
      StepKeepsLogInv(s1, actions[0]);
      RunKeepsClusterInv(Next(s1, actions[0]), actions[1..], s2);
    }
  }

  lemma ReachableHoldsClusterInv(s: System)
    requires Reachable(s)
    ensures ClusterInv(s)
  {
    var s0, actions :| ReachedFrom(s0, actions, s);
    hide ClusterInv;
    InitHoldsClusterInv(s0);
    RunKeepsClusterInv(s0, actions, s);
  }

  // ---------------------------------------------------------------------------------------------
  // Entry identity
  // ---------------------------------------------------------------------------------------------

  /** An entry is somewhere: in the log of a node, or in a batch that was sent. */
  ghost predicate InLog(s: System, n: Id, e: Entry) {
    n in s.nodes && e.index in s.nodes[n].store.log.entries && s.nodes[n].store.log.entries[e.index] == e
  }

  ghost predicate InFlight(s: System, m: Message, e: Entry) {
    m in s.net && m.AppendAsk? && e in m.request.entryList
  }

  ghost predicate Somewhere(s: System, e: Entry) {
    (exists n :: InLog(s, n, e)) || (exists m :: InFlight(s, m, e))
  }

  /** Two entries of the same index and term are the same entry, wherever they are. */
  lemma EntryIdentity(s: System, e1: Entry, e2: Entry)
    requires Reachable(s) && Somewhere(s, e1) && Somewhere(s, e2)
    requires e1.index == e2.index && e1.term == e2.term
    ensures e1 == e2
  {
    ReachableHoldsClusterInv(s);
    SomewhereIsKnown(s, e1);
    SomewhereIsKnown(s, e2);
  }

  lemma SomewhereIsKnown(s: System, e: Entry)
    requires LogInv(s) && Somewhere(s, e)
    ensures Known(s, e)
  {
    if exists n :: InLog(s, n, e) {
      var n :| InLog(s, n, e);
      assert Known(s, s.nodes[n].store.log.entries[e.index]);
    } else {
      var m :| InFlight(s, m, e);
    }
  }

  // ---------------------------------------------------------------------------------------------
  // Nothing falls
  // ---------------------------------------------------------------------------------------------

  /** No node's term, log length or index falls, and what was written stays written. */
  ghost predicate Onward(s: System, s': System) {
    && s'.nodes.Keys == s.nodes.Keys
    && (forall n :: n in s.nodes ==> Forward(s.nodes[n].store, s'.nodes[n].store) && s.nodes[n].currentTerm <= s'.nodes[n].currentTerm)
    && (forall i, t :: (i, t) in s.written ==> (i, t) in s'.written && s'.written[(i, t)] == s.written[(i, t)])
  }

  lemma OneMovesOn(s: System, s': System, n: Id, b: Node)
    requires Stores(s) && n in s.nodes && s'.nodes == s.nodes[n := b] && s'.written == s.written
    requires Forward(s.nodes[n].store, b.store) && s.nodes[n].currentTerm <= b.currentTerm
    ensures Onward(s, s')
  {
    assert s'.nodes.Keys == s.nodes.Keys;
  }

  lemma OneWritesOn(s: System, s': System, n: Id, b: Node)
    requires Stores(s) && WritesAt(s, s', n, b) && NothingBeyond(s, n)
    ensures Onward(s, s')
  {
    hide Gained, NothingBeyond, GrowsBy, Window;
    assert s'.nodes.Keys == s.nodes.Keys;
    forall i, t | (i, t) in s.written ensures (i, t) in s'.written && s'.written[(i, t)] == s.written[(i, t)] {
      GainedIsNew(s, n, b, i, t);
    }
  }

  lemma GainedIsNew(s: System, n: Id, b: Node, i: nat, t: nat)
    requires NothingBeyond(s, n) && (i, t) in s.written && b.currentTerm == s.nodes[n].currentTerm
    ensures (i, t) !in Gained(n, b.currentTerm, s.nodes[n].store.log, b.store.log)
  {
  }

  lemma StoresOf(s: System)
    requires LogInv(s)
    ensures Stores(s)
  {
  }

  lemma CountVoteMovesOn(s: System, a: Action)
    requires ElectionInv(s) && LogInv(s) && a.CountVote? && Enabled(s, a)
    ensures Onward(s, Next(s, a))
  {
    hide LogInv, ElectionInv, HandleVoteResponse, WritesAt, NothingBeyond, Stores, Onward, YesVotes, Gained;
    var before := s.nodes[a.m.src];
    var after := HandleVoteResponse(before, a.m.ballot, a.m.dst, a.m.answer, a.initial);
    StoresOf(s);
    StoreOf(s, a.m.src);
    KeysAreIds(s, a.m.src);
    VoteResponseEffect(before, a.m.ballot, a.m.dst, a.m.answer, a.initial);
    VoteResponseMoves(before, a.m.ballot, a.m.dst, a.m.answer, a.initial);
    if before.role == Candidate && after.role == Leader {
      ElectionIsWriting(s, a);
      ElectedTermIsNew(s, a);
      NewTermIsBlank(s, a.m.src, before.currentTerm);
      OneWritesOn(s, Next(s, a), a.m.src, after);
    } else {
      OneMovesOn(s, Next(s, a), a.m.src, after);
    }
  }

  lemma ClientAppendMovesOn(s: System, n: Id, command: Command)
    requires ElectionInv(s) && LogInv(s) && Possible(s, ClientAppend(n, command))
    ensures Onward(s, Next(s, ClientAppend(n, command)))
  {
    hide LogInv, ElectionInv, NothingBeyond, Stores, Onward, Gained;
    var before := s.nodes[n];
    var b := before.(store := before.store.(log := Append(before.store.log, before.currentTerm, command)));
    StoresOf(s);
    StoreOf(s, n);
    KeysAreIds(s, n);
    IsElected(s, n);
    LeaderWroteAll(s, n);
    ClientAppendEffect(before, command);
    assert WritesAt(s, Next(s, ClientAppend(n, command)), n, b);
    hide WritesAt, Next;
    OneWritesOn(s, Next(s, ClientAppend(n, command)), n, b);
  }

  lemma GainedHolds(author: Id, term: nat, before: Log, after: Log, i: nat)
    requires before.maximumIndex < i <= after.maximumIndex && i in after.entries
    ensures var g := Gained(author, term, before, after);
            (i, term) in g && g[(i, term)] == Writing(author, after.entries[i].command)
  {
  }

  lemma ClientAppendIsWritten(s: System, n: Id, command: Command)
    requires Possible(s, ClientAppend(n, command))
    ensures var key := (Max(s.nodes[n]) + 1, s.nodes[n].currentTerm);
            var s' := Next(s, ClientAppend(n, command));
            key in s'.written && s'.written[key] == Writing(n, command)
  {
    hide Gained;
    var log := s.nodes[n].store.log;
    GainedHolds(n, s.nodes[n].currentTerm, log, Append(log, s.nodes[n].currentTerm, command), log.maximumIndex + 1);
  }

  lemma AnswerAppendMovesOn(s: System, m: Message)
    requires ElectionInv(s) && LogInv(s) && Possible(s, AnswerAppend(m))
    ensures Onward(s, Next(s, AnswerAppend(m)))
  {
    hide LogInv, ElectionInv, HandleAppendRequest, Stores, Onward;
    StoresOf(s);
    KeysAreIds(s, m.dst);
    AnswerIsCopy(s, m);
    AppendRequestMoves(s.nodes[m.dst], m.request);
    OneMovesOn(s, Next(s, AnswerAppend(m)), m.dst, HandleAppendRequest(s.nodes[m.dst], m.request).0);
  }

  lemma CountAppendMovesOn(s: System, a: Action)
    requires ElectionInv(s) && LogInv(s) && a.CountAppend? && Enabled(s, a)
    ensures Onward(s, Next(s, a))
  {
    hide LogInv, ElectionInv, HandleAppendResponse, Stores, Onward;
    var n := s.nodes[a.m.src];
    StoresOf(s);
    StoreOf(s, a.m.src);
    FlightOf(s, a.m);
    KeysAreIds(s, a.m.src);
    AppendResponseEffect(n, a.m.dst, a.m.sent, a.m.response);
    AppendResponsePosture(n, a.m.dst, a.m.sent, a.m.response);
    OneMovesOn(s, Next(s, a), a.m.src, HandleAppendResponse(n, a.m.dst, a.m.sent, a.m.response));
  }

  lemma AnswerVoteMovesOn(s: System, m: Message)
    requires ElectionInv(s) && LogInv(s) && Possible(s, AnswerVote(m))
    ensures Onward(s, Next(s, AnswerVote(m)))
  {
    hide LogInv, ElectionInv, HandleVoteRequest, Stores, Onward;
    StoresOf(s);
    StoreOf(s, m.dst);
    KeysAreIds(s, m.dst);
    VoteRequestKeepsStore(s.nodes[m.dst], m.ask);
    OneMovesOn(s, Next(s, AnswerVote(m)), m.dst, HandleVoteRequest(s.nodes[m.dst], m.ask).0);
  }

  lemma LocalMovesOn(s: System, a: Action)
    requires ElectionInv(s) && LogInv(s) && (a.Timeout? || a.Apply? || a.BackUp?) && Possible(s, a)
    ensures Onward(s, Next(s, a))
  {
    hide LogInv, ElectionInv, CommitProcedure, Stores, Onward;
    StoresOf(s);
    StoreOf(s, a.n);
    KeysAreIds(s, a.n);
    CommitProcedureMovesForward(s.nodes[a.n].store);
    match a
    case Timeout(n) => OneMovesOn(s, Next(s, a), n, StartCandidacy(s.nodes[n]));
    case Apply(n) => OneMovesOn(s, Next(s, a), n, s.nodes[n].(store := CommitProcedure(s.nodes[n].store)));
    case BackUp(n) =>
      OneMovesOn(s, Next(s, a), n, s.nodes[n].(store := s.nodes[n].store.(lastBackupIndex := s.nodes[n].store.commitIndex)));
  }

  lemma SendMovesOn(s: System, a: Action)
    requires LogInv(s) && (a.AskVote? || a.SendAppend?) && Possible(s, a)
    ensures Onward(s, Next(s, a))
  {
  }

  lemma StepMovesOn(s: System, a: Action)
    requires ClusterInv(s) && Enabled(s, a)
    ensures Onward(s, Next(s, a))
  {
    hide LogInv, ElectionInv, Onward, Next;
    match a
    case Timeout(_) => LocalMovesOn(s, a);
    case AskVote(_, _, _) => SendMovesOn(s, a);
    case AnswerVote(m) => AnswerVoteMovesOn(s, m);
    case CountVote(_, _) => CountVoteMovesOn(s, a);
    case SendAppend(_, _, _, _) => SendMovesOn(s, a);
    case AnswerAppend(m) => AnswerAppendMovesOn(s, m);
    case CountAppend(_) => CountAppendMovesOn(s, a);
    case ClientAppend(n, command) => ClientAppendMovesOn(s, n, command);
    case Apply(_) => LocalMovesOn(s, a);
    case BackUp(_) => LocalMovesOn(s, a);
  }

  lemma {:induction false} RunMovesOn(s1: System, actions: seq<Action>, s2: System)
    requires ClusterInv(s1) && Leads(s1, actions, s2)
    ensures Onward(s1, s2)
    decreases |actions|
  {
    if actions == [] {
      OnwardReflexive(s1);
    } else {
      var s := Next(s1, actions[0]);
      StepMovesOn(s1, actions[0]);
      StepKeepsClusterInv(s1, actions[0]);
      hide ClusterInv, Onward;
      RunMovesOn(s, actions[1..], s2);
      OnwardTransitive(s1, s, s2);
    }
  }

  lemma OnwardTransitive(a: System, b: System, c: System)
    requires Onward(a, b) && Onward(b, c)
    ensures Onward(a, c)
  {
    hide WellFormed;
  }

  lemma OnwardReflexive(s: System)
    requires ClusterInv(s)
    ensures Onward(s, s)
  {
  }

  lemma StepKeepsClusterInv(s: System, a: Action)
    requires ClusterInv(s) && Enabled(s, a)
    ensures ClusterInv(Next(s, a))
  {
    hide ElectionInv, LogInv;
    StepKeepsElectionInv(s, a);
    StepKeepsLogInv(s, a);
  }

  /** On every node of every run the log is dense and the indices are in order, and along every run
      neither they nor the terms fall. */
  lemma DenseAndOrdered(s1: System, actions: seq<Action>, s2: System, n: Id)
    requires Reachable(s1) && Leads(s1, actions, s2) && n in s1.nodes
    ensures n in s2.nodes && WellFormed(s1.nodes[n].store) && Forward(s1.nodes[n].store, s2.nodes[n].store)
    ensures s1.nodes[n].currentTerm <= s2.nodes[n].currentTerm
  {
    ReachableHoldsClusterInv(s1);
    RunMovesOn(s1, actions, s2);
  }

  // ---------------------------------------------------------------------------------------------
  // The commit check of a client's write, and the leader's window
  // ---------------------------------------------------------------------------------------------

  /** The commit check of a write: if the entry at the index is committed and has the term in which the
      request was appended, it is the request's own command. */
  lemma CommitCheckIsSound(s: System, n: Id, command: Command, actions: seq<Action>, s2: System)
    requires Reachable(s) && Enabled(s, ClientAppend(n, command))
    requires Leads(Next(s, ClientAppend(n, command)), actions, s2)
    requires var i := Max(s.nodes[n]) + 1;
             n in s2.nodes && i <= s2.nodes[n].store.commitIndex
             && i in s2.nodes[n].store.log.entries && s2.nodes[n].store.log.entries[i].term == s.nodes[n].currentTerm
    ensures s2.nodes[n].store.log.entries[Max(s.nodes[n]) + 1] == Entry(s.nodes[n].currentTerm, Max(s.nodes[n]) + 1, command)
  {
    hide Reachable, ElectionInv, LogInv, Next, Forward, Append, Leads;
    ReachableHoldsClusterInv(s);
    var a := ClientAppend(n, command);
    var s1 := Next(s, a);
    StepKeepsClusterInv(s, a);
    ClientAppendIsWritten(s, n, command);
    RunMovesOn(s1, actions, s2);
    RunKeepsClusterInv(s1, actions, s2);
    LogEntryIsKnown(s2, n, Max(s.nodes[n]) + 1);
  }

  lemma LogEntryIsKnown(s: System, n: Id, i: nat)
    requires LogInv(s) && n in s.nodes && i in s.nodes[n].store.log.entries
    ensures Known(s, s.nodes[n].store.log.entries[i]) && s.nodes[n].store.log.entries[i].index == i
  {
  }

  /** In every run, whatever is lost, late or repeated, a leader can always prepare a batch for a peer,
      and the batch is exactly the contiguous slice of its log from the peer's next index on. */
  lemma LeaderWindow(s: System, n: Id, peer: Id, maximumLength: nat)
    requires Reachable(s) && n in s.nodes && s.nodes[n].role == Leader && peer in s.nodes[n].peers
    ensures peer in s.nodes[n].nextIndex && 1 <= s.nodes[n].nextIndex[peer] <= Max(s.nodes[n]) + 1
    ensures var next := s.nodes[n].nextIndex[peer];
            var batch := PrepareAppend(s.nodes[n], peer, maximumLength);
            && batch.Batch? && batch.request.prevEntryIndex == next - 1
            && |batch.request.entryList| == Min(maximumLength, Max(s.nodes[n]) + 1 - next)
            && forall i :: 0 <= i < |batch.request.entryList| ==>
                 Fetch(s.nodes[n].store.log, next + i) == Some(batch.request.entryList[i])
  {
    hide *;
    ReachableHoldsClusterInv(s);
    LeaderOf(s, n);
    WindowBatch(s.nodes[n], peer, maximumLength);
  }

  lemma LeaderOf(s: System, n: Id)
    requires ClusterInv(s) && n in s.nodes
    ensures WellFormed(s.nodes[n].store) && Window(s.nodes[n])
  {
  }

  lemma WindowBatch(n: Node, peer: Id, maximumLength: nat)
    requires WellFormed(n.store) && Window(n) && n.role == Leader && peer in n.peers
    ensures peer in n.nextIndex && 1 <= n.nextIndex[peer] <= Max(n) + 1
    ensures var next := n.nextIndex[peer];
            var batch := PrepareAppend(n, peer, maximumLength);
            && batch.Batch? && batch.request.prevEntryIndex == next - 1
            && |batch.request.entryList| == Min(maximumLength, Max(n) + 1 - next)
            && forall i :: 0 <= i < |batch.request.entryList| ==>
                 Fetch(n.store.log, next + i) == Some(batch.request.entryList[i])
  {
    hide PrepareAppend, Slice;
    BatchIsSlice(n, peer, maximumLength);
  }
}

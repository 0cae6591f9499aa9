/** What is guaranteed over every run: true match indices and held commits; and over every run in which only
    longest logs are written to: the logs of all nodes, what is committed, and what is applied. */
module ReplicationTheorems {
  import opened Types
  import opened LogStorage
  import opened StateMap
  import opened NodeStore
  import opened RaftNode
  import opened NodeSteps
  import opened Cluster
  import opened ElectionSafety
  import opened LogSafety
  import opened ClusterTheorems
  import opened Holding
  import opened Replication
  import Recovery

  // ---------------------------------------------------------------------------------------------
  // Every step lets every store advance
  // ---------------------------------------------------------------------------------------------

  /** A store advances: its log keeps its entries, and its map stays or takes in what is committed. */
  ghost predicate Advances(a: Store, b: Store) {
    && WellFormed(b) && Prefix(a.log, b.log)
    && ((b.stateMap == a.stateMap && b.lastAppliedIndex == a.lastAppliedIndex)
        || (b.stateMap == CommitProcedure(a).stateMap && b.lastAppliedIndex == CommitProcedure(a).lastAppliedIndex))
    && (b.lastBackupIndex == a.lastBackupIndex || b == a.(lastBackupIndex := a.commitIndex))
  }

  ghost predicate AllAdvance(s: System, s': System) {
    && s'.nodes.Keys == s.nodes.Keys
    && forall n :: n in s.nodes ==> Advances(s.nodes[n].store, s'.nodes[n].store)
  }

  lemma OneAdvances(s: System, s': System, n: Id, b: Node)
    requires LogInv(s) && n in s.nodes && s'.nodes == s.nodes[n := b] && Advances(s.nodes[n].store, b.store)
    ensures AllAdvance(s, s')
  {
    hide LogInv, Advances;
    forall k | k in s.nodes ensures Advances(s.nodes[k].store, s'.nodes[k].store) {
      if k != n {
        StoreOf(s, k);
        SameAdvances(s.nodes[k].store);
      }
    }
    assert s'.nodes.Keys == s.nodes.Keys;
  }

  lemma SameAdvances(st: Store)
    requires WellFormed(st)
    ensures Advances(st, st)
  {
    PrefixReflexive(st.log);
  }

  lemma SameNodesAdvance(s: System, s': System)
    requires LogInv(s) && s'.nodes == s.nodes
    ensures AllAdvance(s, s')
  {
    hide LogInv, Advances;
    forall k | k in s.nodes ensures Advances(s.nodes[k].store, s'.nodes[k].store) {
      StoreOf(s, k);
      SameAdvances(s.nodes[k].store);
    }
  }

  lemma AppendRequestKeepsMap(n: Node, r: AppendRequest)
    ensures var b := HandleAppendRequest(n, r).0;
            && b.store.stateMap == n.store.stateMap && b.store.lastAppliedIndex == n.store.lastAppliedIndex
            && b.store.lastBackupIndex == n.store.lastBackupIndex
  {
    hide InsertList, Matches, Conflict;
  }

  lemma AnswerAppendAdvances(s: System, l: Id, m: Message)
    requires ClusterInv(s) && PrefixInv(s, l) && Possible(s, AnswerAppend(m))
    ensures AllAdvance(s, Next(s, AnswerAppend(m)))
  {
    hide ElectionInv, LogInv, HandleAppendRequest, PrefixInv, Prefix, SliceOf, Window, Known, Contiguous, AllAdvance,
         CommitProcedure;
    var n := s.nodes[m.dst];
    var b := HandleAppendRequest(n, m.request).0;
    KeysAreIds(s, m.dst);
    AppendRequestMoves(n, m.request);
    WriterIsThere(s, l);
    StoreOf(s, m.dst);
    StoreOf(s, l);
    FlightOf(s, m);
    BatchFacts(s, l, m.dst, m);
    AppendRequestReplicates(n, m.request, LogOf(s, l));
    AppendRequestEffect(n, m.request);
    AppendRequestKeepsMap(n, m.request);
    OneAdvances(s, Next(s, AnswerAppend(m)), m.dst, b);
  }

  lemma SameStoreAdvances(s: System, s': System, n: Id, b: Node)
    requires LogInv(s) && n in s.nodes && s'.nodes == s.nodes[n := b]
    requires b.store.log == s.nodes[n].store.log && b.store.stateMap == s.nodes[n].store.stateMap
    requires b.store.lastAppliedIndex == s.nodes[n].store.lastAppliedIndex && WellFormed(b.store)
    requires b.store.lastBackupIndex == s.nodes[n].store.lastBackupIndex
    ensures AllAdvance(s, s')
  {
    StoreOf(s, n);
    PrefixReflexive(b.store.log);
    hide LogInv;
    OneAdvances(s, s', n, b);
  }

  lemma AnswerVoteAdvances(s: System, m: Message)
    requires ClusterInv(s) && Possible(s, AnswerVote(m))
    ensures AllAdvance(s, Next(s, AnswerVote(m)))
  {
    hide ElectionInv, LogInv, HandleVoteRequest, AllAdvance;
    KeysAreIds(s, m.dst);
    StoreOf(s, m.dst);
    VoteRequestKeepsStore(s.nodes[m.dst], m.ask);
    SameStoreAdvances(s, Next(s, AnswerVote(m)), m.dst, HandleVoteRequest(s.nodes[m.dst], m.ask).0);
  }

  lemma VoteResponseAdvances(n: Node, b: nat, peer: Id, r: VoteResponse, initial: seq<Command>)
    requires WellFormed(n.store) && Window(n) && b < |n.ballots|
    ensures Advances(n.store, HandleVoteResponse(n, b, peer, r, initial).store)
  {
    VoteResponseEffect(n, b, peer, r, initial);
    VoteResponseWrites(n, b, peer, r, initial);
    CommitProcedureMovesForward(n.store);
    AppendAllEffect(CommitProcedure(n.store), n.currentTerm, initial);
    hide AppendAll, CommitProcedure, Prefix;
  }

  lemma CountVoteAdvances(s: System, a: Action)
    requires ClusterInv(s) && a.CountVote? && Enabled(s, a)
    ensures AllAdvance(s, Next(s, a))
  {
    hide ElectionInv, LogInv, HandleVoteResponse, AllAdvance, Gained, YesVotes, Advances;
    var before := s.nodes[a.m.src];
    KeysAreIds(s, a.m.src);
    StoreOf(s, a.m.src);
    VoteResponseKeepsMatch(before, a.m.ballot, a.m.dst, a.m.answer, a.initial);
    VoteResponseAdvances(before, a.m.ballot, a.m.dst, a.m.answer, a.initial);
    OneAdvances(s, Next(s, a), a.m.src, HandleVoteResponse(before, a.m.ballot, a.m.dst, a.m.answer, a.initial));
  }

  lemma CountAppendAdvances(s: System, a: Action)
    requires ClusterInv(s) && a.CountAppend? && Enabled(s, a)
    ensures AllAdvance(s, Next(s, a))
  {
    hide ElectionInv, LogInv, HandleAppendResponse, AllAdvance;
    var n := s.nodes[a.m.src];
    KeysAreIds(s, a.m.src);
    StoreOf(s, a.m.src);
    FlightOf(s, a.m);
    AppendResponseEffect(n, a.m.dst, a.m.sent, a.m.response);
    AppendResponsePosture(n, a.m.dst, a.m.sent, a.m.response);
    AppendResponseKeepsMap(n, a.m.dst, a.m.sent, a.m.response);
    SameStoreAdvances(s, Next(s, a), a.m.src, HandleAppendResponse(n, a.m.dst, a.m.sent, a.m.response));
  }

  lemma AppendResponseKeepsMap(n: Node, peer: Id, sent: Sent, r: AppendResponse)
    ensures var b := HandleAppendResponse(n, peer, sent, r);
            && b.store.stateMap == n.store.stateMap && b.store.lastAppliedIndex == n.store.lastAppliedIndex
            && b.store.lastBackupIndex == n.store.lastBackupIndex
  {
  }

  lemma ClientAppendAdvances(s: System, n: Id, command: Command)
    requires ClusterInv(s) && Possible(s, ClientAppend(n, command))
    ensures AllAdvance(s, Next(s, ClientAppend(n, command)))
  {
    hide ElectionInv, LogInv, AllAdvance, Gained, Append;
    var before := s.nodes[n];
    var b := before.(store := before.store.(log := Append(before.store.log, before.currentTerm, command)));
    KeysAreIds(s, n);
    StoreOf(s, n);
    ClientAppendEffect(before, command);
    OneAdvances(s, Next(s, ClientAppend(n, command)), n, b);
  }

  lemma LocalAdvances(s: System, a: Action)
    requires ClusterInv(s) && (a.Timeout? || a.Apply? || a.BackUp?) && Possible(s, a)
    ensures AllAdvance(s, Next(s, a))
  {
    hide ElectionInv, LogInv, UpdateFromLog, AllAdvance;
    KeysAreIds(s, a.n);
    StoreOf(s, a.n);
    PrefixReflexive(s.nodes[a.n].store.log);
    OneAdvances(s, Next(s, a), a.n, Next(s, a).nodes[a.n]);
  }

  lemma StepAdvances(s: System, l: Id, a: Action)
    requires ClusterInv(s) && PrefixInv(s, l) && Enabled(s, a)
    ensures AllAdvance(s, Next(s, a))
  {
    hide ElectionInv, LogInv, PrefixInv, AllAdvance, Gained, YesVotes,
         HandleVoteRequest, HandleVoteResponse, HandleAppendRequest, HandleAppendResponse, CommitProcedure;
    match a
    case Timeout(_) => LocalAdvances(s, a);
    case AskVote(_, _, _) => SameNodesAdvance(s, Next(s, a));
    case AnswerVote(m) => AnswerVoteAdvances(s, m);
    case CountVote(_, _) => CountVoteAdvances(s, a);
    case SendAppend(_, _, _, _) => SameNodesAdvance(s, Next(s, a));
    case AnswerAppend(m) => AnswerAppendAdvances(s, l, m);
    case CountAppend(_) => CountAppendAdvances(s, a);
    case ClientAppend(n, command) => ClientAppendAdvances(s, n, command);
    case Apply(_) => LocalAdvances(s, a);
    case BackUp(_) => LocalAdvances(s, a);
  }

  // ---------------------------------------------------------------------------------------------
  // Runs
  // ---------------------------------------------------------------------------------------------

  lemma InitHoldsHolding(s: System)
    requires Init(s)
    ensures HoldingInv(s)
  {
    forall n | n in s.nodes ensures Held(s, s.nodes[n].store.commitIndex) {
      assert Holders(s, 0) == s.nodes.Keys;
      assert |s.nodes.Keys| == |s.nodes|;
    }
  }

  lemma {:induction false} RunKeepsHolding(s1: System, actions: seq<Action>, s2: System)
    requires ClusterInv(s1) && HoldingInv(s1) && Leads(s1, actions, s2)
    ensures HoldingInv(s2)
    decreases |actions|
  {
    hide ClusterInv, HoldingInv;
    if actions != [] {
      var s := Next(s1, actions[0]);
      StepKeepsHolding(s1, actions[0]);
      StepKeepsClusterInv(s1, actions[0]);
      RunKeepsHolding(s, actions[1..], s2);
    }
  }

  /** In every state of every run of a fresh cluster, whoever leads or writes, no match index exceeds the log
      that it speaks of, and whatever a node has committed is reached by the logs of a majority. */
  lemma CommitsAreHeld(s: System)
    requires Reachable(s)
    ensures forall n, p :: n in s.nodes && p in s.nodes && p in s.nodes[n].matchIndex ==> s.nodes[n].matchIndex[p] <= Max(s.nodes[p])
    ensures forall n, k: nat :: n in s.nodes && k <= s.nodes[n].store.commitIndex ==> Held(s, k)
  {
    ReachableHoldsHolding(s);
    hide Reachable, Held;
    forall n, k: nat | n in s.nodes && k <= s.nodes[n].store.commitIndex ensures Held(s, k) {
      HeldBelow(s, s.nodes[n].store.commitIndex, k);
    }
  }

  lemma ReachableHoldsHolding(s: System)
    requires Reachable(s)
    ensures HoldingInv(s)
  {
    var s0, actions :| ReachedFrom(s0, actions, s);
    hide ClusterInv, HoldingInv;
    InitHoldsClusterInv(s0);
    InitHoldsHolding(s0);
    RunKeepsHolding(s0, actions, s);
  }

  /** All logs are parts of node l's. */
  ghost predicate WriterInv(s: System, l: Id) {
    ClusterInv(s) && HoldingInv(s) && PrefixInv(s, l)
  }

  lemma ChainStartsInv(s: System) returns (l: Id)
    requires ChainStarts(s)
    ensures WriterInv(s, l)
  {
    hide ClusterInv, HoldingInv, PrefixInv, Reachable;
    ReachableHoldsClusterInv(s);
    ReachableHoldsHolding(s);
    l :| PrefixInv(s, l);
  }

  lemma LongestIsWriter(s: System, l: Id, n: Id)
    requires WriterInv(s, l) && Longest(s, n)
    ensures WriterInv(s, n)
  {
    hide ClusterInv, HoldingInv, PrefixInv, Longest;
    assert n in s.nodes by { LongestIsThere(s, n); }
    HandOverIff(s, l, n);
  }

  lemma LongestIsThere(s: System, n: Id)
    requires Longest(s, n)
    ensures n in s.nodes
  {
  }

  /** The map of a node is right: it describes the applied entries if these are orderly, and is stuck
      behind the applied index otherwise. */
  ghost predicate AppliedRight(st: Store) {
    && WellFormed(st)
    && if Orderly(st.log, st.lastAppliedIndex) then Describes(st.stateMap, st.log, st.lastAppliedIndex)
       else st.stateMap.prevIndex < st.lastAppliedIndex
  }

  ghost predicate AllAppliedRight(s: System) {
    forall n :: n in s.nodes ==> AppliedRight(s.nodes[n].store)
  }

  lemma AdvanceKeepsApplied(a: Store, b: Store)
    requires AppliedRight(a) && Advances(a, b)
    ensures AppliedRight(b)
  {
    ApplyingStaysRight(a);
    CommitProcedureMovesForward(a);
    var c := if b.stateMap == a.stateMap && b.lastAppliedIndex == a.lastAppliedIndex then a else CommitProcedure(a);
    hide CommitProcedure;
    var k := c.lastAppliedIndex;
    if Orderly(c.log, k) {
      OrderlyAgree(c.log, b.log, k);
      DescribesAgree(c.stateMap, c.log, b.log, k);
    } else if Orderly(b.log, k) {
      OrderlyAgree(b.log, c.log, k);
      assert false;
    }
  }

  lemma ApplyingStaysRight(st: Store)
    requires AppliedRight(st)
    ensures AppliedRight(CommitProcedure(st))
  {
    CommitProcedureMovesForward(st);
    if Orderly(st.log, st.lastAppliedIndex) {
      CommitAppliesIffOrderly(st);
    } else {
      BehindStays(st);
      var i :| 1 <= i <= st.lastAppliedIndex && !OrderlyAt(st.log, i);
      assert !Orderly(st.log, CommitProcedure(st).lastAppliedIndex);
    }
  }

  ghost predicate LogsGrow(s: System, s': System) {
    && s'.nodes.Keys == s.nodes.Keys
    && forall n :: n in s.nodes ==> Prefix(LogOf(s, n), LogOf(s', n))
                                    && s.nodes[n].store.commitIndex <= s'.nodes[n].store.commitIndex
  }

  lemma {:induction false} RunKeepsWriter(s1: System, actions: seq<Action>, s2: System, l1: Id) returns (l2: Id)
    requires WriterInv(s1, l1) && ChainRun(s1, actions, s2)
    ensures WriterInv(s2, l2) && LogsGrow(s1, s2)
    ensures AllAppliedRight(s1) ==> AllAppliedRight(s2)
    ensures OneWriter(actions, l1) ==> l2 == l1
    decreases |actions|
  {
    hide WriterInv, LogsGrow, AllAppliedRight;
    if actions == [] {
      l2 := l1;
      LogsStay(s1, l1);
    } else {
      var s := Next(s1, actions[0]);
      assert actions[0] in actions;
      var l := WriterOfStep(s1, l1, actions[0]);
      StepOfRun(s1, l, actions[0]);
      l2 := RunKeepsWriter(s, actions[1..], s2, l);
      GrowthIsTransitive(s1, s, s2);
    }
  }

  lemma WriterOfStep(s: System, l: Id, a: Action) returns (n: Id)
    requires WriterInv(s, l) && ByLongest(s, a)
    ensures WriterInv(s, n) && SoleWriter(a, n) && (SoleWriter(a, l) ==> n == l)
  {
    hide ClusterInv, HoldingInv, PrefixInv, ByLongest;
    n := WriterTakesOver(s, l, a);
  }

  /** Where one node writes whose log all others are parts of, it is the longest throughout. */
  lemma {:induction false} OneWriterIsChain(s1: System, actions: seq<Action>, s2: System, l: Id)
    requires WriterInv(s1, l) && Leads(s1, actions, s2) && OneWriter(actions, l)
    ensures ChainRun(s1, actions, s2)
    decreases |actions|
  {
    hide ClusterInv, HoldingInv;
    if actions != [] {
      assert actions[0] in actions;
      StepOfRun(s1, l, actions[0]);
      OneWriterIsChain(Next(s1, actions[0]), actions[1..], s2, l);
    }
  }

  lemma StepOfRun(s: System, l: Id, a: Action)
    requires WriterInv(s, l) && Enabled(s, a) && SoleWriter(a, l)
    ensures WriterInv(Next(s, a), l) && LogsGrow(s, Next(s, a))
    ensures AllAppliedRight(s) ==> AllAppliedRight(Next(s, a))
  {
    hide ClusterInv, HoldingInv, PrefixInv, Next, AllAdvance, Onward, LogsGrow, AllAppliedRight;
    StepKeepsClusterInv(s, a);
    StepKeepsHolding(s, a);
    StepKeepsPrefixes(s, l, a);
    StepAdvances(s, l, a);
    StepMovesOn(s, a);
    AdvanceGrows(s, Next(s, a));
    if AllAppliedRight(s) {
      AdvanceKeepsAllApplied(s, Next(s, a));
    }
  }

  lemma AdvanceGrows(s: System, s': System)
    requires AllAdvance(s, s') && Onward(s, s')
    ensures LogsGrow(s, s')
  {
    hide Prefix, CommitProcedure;
  }

  lemma AdvanceKeepsAllApplied(s: System, s': System)
    requires AllAdvance(s, s') && AllAppliedRight(s)
    ensures AllAppliedRight(s')
  {
    hide Advances, AppliedRight;
    forall n | n in s'.nodes ensures AppliedRight(s'.nodes[n].store) {
      AdvanceKeepsApplied(s.nodes[n].store, s'.nodes[n].store);
    }
  }

  lemma LogsStay(s: System, l: Id)
    requires WriterInv(s, l)
    ensures LogsGrow(s, s)
  {
    hide ElectionInv, LogInv, HoldingInv, PrefixInv, Prefix;
    forall n | n in s.nodes ensures Prefix(LogOf(s, n), LogOf(s, n)) {
      StoreOf(s, n);
      PrefixReflexive(LogOf(s, n));
    }
  }

  lemma GrowthIsTransitive(a: System, b: System, c: System)
    requires LogsGrow(a, b) && LogsGrow(b, c)
    ensures LogsGrow(a, c)
  {
    hide Prefix;
    forall n | n in a.nodes ensures Prefix(LogOf(a, n), LogOf(c, n)) {
      PrefixTransitive(LogOf(a, n), LogOf(b, n), LogOf(c, n));
    }
  }

  // ---------------------------------------------------------------------------------------------
  // The theorems
  // ---------------------------------------------------------------------------------------------

  /** In every state of the run every log is a prefix of whichever is longest, and whatever a node has
      committed is held by a majority; nobody's knowledge of another node is too high. */
  lemma ReplicationSafety(s0: System, actions: seq<Action>, s: System, l: Id)
    requires ChainStarts(s0) && ChainRun(s0, actions, s) && Longest(s, l)
    ensures l in s.nodes && forall n :: n in s.nodes ==> Prefix(LogOf(s, n), LogOf(s, l))
    ensures (l, s.nodes[l].currentTerm) in s.elected ==> s.nodes[l].role == Leader
    ensures forall n, p :: n in s.nodes && p in s.nodes && p in s.nodes[n].matchIndex ==> s.nodes[n].matchIndex[p] <= Max(s.nodes[p])
    ensures forall n, k: nat :: n in s.nodes && k <= s.nodes[n].store.commitIndex ==> Held(s, k)
  {
    hide WriterInv, Held, Prefix, Longest;
    InvOfRun(s0, actions, s, l);
    hide ChainStarts, ChainRun;
    WriterOfRun(s, l);
    forall n | n in s.nodes ensures Prefix(LogOf(s, n), LogOf(s, l)) {
      WriterFacts(s, l, n);
    }
    forall n, k: nat | n in s.nodes && k <= s.nodes[n].store.commitIndex ensures Held(s, k) {
      WriterFacts(s, l, n);
      HeldBelow(s, s.nodes[n].store.commitIndex, k);
    }
  }

  lemma InvOfRun(s0: System, actions: seq<Action>, s: System, l: Id)
    requires ChainStarts(s0) && ChainRun(s0, actions, s) && Longest(s, l)
    ensures WriterInv(s, l) && LogsGrow(s0, s)
    ensures AllAppliedRight(s0) ==> AllAppliedRight(s)
  {
    hide ChainStarts, ChainRun, WriterInv, LogsGrow, AllAppliedRight, Longest;
    var l0 := ChainStartsInv(s0);
    var l1 := RunKeepsWriter(s0, actions, s, l0);
    LongestIsWriter(s, l1, l);
  }

  lemma WriterOfRun(s: System, l: Id)
    requires WriterInv(s, l)
    ensures l in s.nodes && MatchesWithin(s)
    ensures (l, s.nodes[l].currentTerm) in s.elected ==> s.nodes[l].role == Leader
  {
    hide LogInv, Followers, Batches, MatchesWithin, Commits, Promises;
    if (l, s.nodes[l].currentTerm) in s.elected {
      assert ElectedBy(s, l, s.nodes[l].currentTerm);
    }
  }

  lemma WriterFacts(s: System, l: Id, n: Id)
    requires WriterInv(s, l) && n in s.nodes
    ensures l in s.nodes && WellFormed(s.nodes[n].store) && Prefix(LogOf(s, n), LogOf(s, l))
    ensures Held(s, s.nodes[n].store.commitIndex)
  {
    hide ElectionInv, LogInv, Held, MatchesWithin, Promises, Batches, Prefix;
    StoreOf(s, n);
  }

  ghost function HoldersOf(s: System, k: nat, e: Entry): set<Id> {
    set n | n in s.nodes && Fetch(LogOf(s, n), k) == Some(e)
  }

  /** What some node has committed stays: on whatever node the index is present later in the run, it
      holds the same entry, and more than half of the nodes hold it. */
  lemma CommittedForever(s0: System, before: seq<Action>, s1: System, after: seq<Action>, s2: System, n: Id, k: nat)
    requires ChainStarts(s0) && ChainRun(s0, before, s1) && ChainRun(s1, after, s2)
    requires n in s1.nodes && 1 <= k <= s1.nodes[n].store.commitIndex
    ensures n in s2.nodes && k <= s2.nodes[n].store.commitIndex && Fetch(LogOf(s1, n), k).Some?
    ensures var e := Fetch(LogOf(s1, n), k).value;
            && (forall p :: p in s2.nodes && k <= Max(s2.nodes[p]) ==> Fetch(LogOf(s2, p), k) == Some(e))
            && 2 * |HoldersOf(s2, k, e)| > |s2.nodes|
  {
    hide ChainStarts, ChainRun, WriterInv, Held, LogsGrow;
    var l0 := ChainStartsInv(s0);
    var l1 := RunKeepsWriter(s0, before, s1, l0);
    var l2 := RunKeepsWriter(s1, after, s2, l1);
    CommittedIsThere(s1, l1, n, k);
    GrowthOf(s1, s2, n);
    CommittedStays(s1, s2, l1, l2, n, k, Fetch(LogOf(s1, n), k).value);
  }

  lemma CommittedIsThere(s: System, l: Id, n: Id, k: nat)
    requires WriterInv(s, l) && n in s.nodes && 1 <= k <= s.nodes[n].store.commitIndex
    ensures Fetch(LogOf(s, n), k).Some? && Held(s, k)
  {
    hide WriterInv;
    WriterFacts(s, l, n);
    HeldBelow(s, s.nodes[n].store.commitIndex, k);
  }

  lemma CommittedStays(s1: System, s2: System, l1: Id, l2: Id, n: Id, k: nat, e: Entry)
    requires n in s1.nodes && Fetch(LogOf(s1, n), k) == Some(e) && 1 <= k <= s1.nodes[n].store.commitIndex && Held(s1, k)
    requires LogsGrow(s1, s2)
    requires WriterInv(s1, l1) && WriterInv(s2, l2)
    ensures forall p :: p in s2.nodes && k <= Max(s2.nodes[p]) ==> Fetch(LogOf(s2, p), k) == Some(e)
    ensures 2 * |HoldersOf(s2, k, e)| > |s2.nodes|
  {
    hide WriterInv, Held, Fetch, HoldersOf, LogsGrow;
    forall p | p in s2.nodes && k <= Max(s2.nodes[p]) ensures Fetch(LogOf(s2, p), k) == Some(e) {
      SameEntry(s1, s2, l1, l2, n, p, k, e);
    }
    HeldGrows(s1, s2, k);
    AllHoldTheEntry(s2, k, e);
  }

  lemma GrowthOf(s1: System, s2: System, n: Id)
    requires LogsGrow(s1, s2) && n in s1.nodes
    ensures n in s2.nodes && s1.nodes[n].store.commitIndex <= s2.nodes[n].store.commitIndex
    ensures Prefix(LogOf(s1, n), LogOf(s2, n))
  {
  }

  lemma AllHoldTheEntry(s: System, k: nat, e: Entry)
    requires Held(s, k) && forall p :: p in s.nodes && k <= Max(s.nodes[p]) ==> Fetch(LogOf(s, p), k) == Some(e)
    ensures 2 * |HoldersOf(s, k, e)| > |s.nodes|
  {
    SubsetIsSmaller(Holders(s, k), HoldersOf(s, k, e));
  }

  lemma HeldGrows(s1: System, s2: System, k: nat)
    requires LogsGrow(s1, s2) && Held(s1, k)
    ensures Held(s2, k)
  {
    SubsetIsSmaller(Holders(s1, k), Holders(s2, k));
    assert |s1.nodes| == |s1.nodes.Keys| && |s2.nodes| == |s2.nodes.Keys|;
  }

  lemma SameEntry(s1: System, s2: System, l1: Id, l2: Id, n: Id, p: Id, k: nat, e: Entry)
    requires n in s1.nodes && Fetch(LogOf(s1, n), k) == Some(e) && k >= 1 && p in s2.nodes && k <= Max(s2.nodes[p])
    requires LogsGrow(s1, s2)
    requires WriterInv(s1, l1) && WriterInv(s2, l2)
    ensures Fetch(LogOf(s2, p), k) == Some(e)
  {
    hide WriterInv, Held, WellFormed, LogsGrow, Prefix;
    WriterFacts(s1, l1, n);
    WriterFacts(s2, l2, p);
    GrowthOf(s1, s2, n);
    WriterFacts(s2, l2, n);
    PrefixAt(LogOf(s1, n), LogOf(s2, n), k);
    PrefixAt(LogOf(s2, n), LogOf(s2, l2), k);
    PrefixAt(LogOf(s2, p), LogOf(s2, l2), k);
  }

  lemma PrefixAt(a: Log, b: Log, k: nat)
    requires Prefix(a, b) && 1 <= k <= a.maximumIndex
    ensures Fetch(a, k).Some? && Fetch(b, k) == Fetch(a, k)
  {
  }

  /** Every node's lock map is the replay of the longest log up to its own applied index; this fails only
      where that log is not orderly, and then the map is stuck for good. */
  lemma AppliedAgreement(s0: System, actions: seq<Action>, s: System, l: Id, n: Id)
    requires ChainStarts(s0) && AllAppliedRight(s0) && ChainRun(s0, actions, s) && Longest(s, l) && n in s.nodes
    ensures l in s.nodes && Dense(LogOf(s, l)) && s.nodes[n].store.lastAppliedIndex <= LogOf(s, l).maximumIndex
    ensures var k := s.nodes[n].store.lastAppliedIndex;
            && (Faithful(s.nodes[n].store) <==> Orderly(LogOf(s, l), k))
            && (Orderly(LogOf(s, l), k) && k > 0 ==>
                  UpdateFromLog(EMPTY_MAP, LogOf(s, l), 1, k) == (s.nodes[n].store.stateMap, Updated))
            && (!Orderly(LogOf(s, l), k) ==> s.nodes[n].store.stateMap.prevIndex < k)
  {
    hide ChainStarts, ChainRun, WriterInv, LogsGrow, Longest;
    InvOfRun(s0, actions, s, l);
    WriterFacts(s, l, n);
    WriterFacts(s, l, l);
    MapIsReplay(s.nodes[n].store, LogOf(s, l));
  }

  lemma MapIsReplay(st: Store, log: Log)
    requires AppliedRight(st) && Dense(log) && Prefix(st.log, log)
    ensures var k := st.lastAppliedIndex;
            && (Faithful(st) <==> Orderly(log, k))
            && (Orderly(log, k) && k > 0 ==> UpdateFromLog(EMPTY_MAP, log, 1, k) == (st.stateMap, Updated))
            && (!Orderly(log, k) ==> st.stateMap.prevIndex < k)
  {
    var k := st.lastAppliedIndex;
    if Orderly(log, k) {
      OrderlyAgree(log, st.log, k);
      if k > 0 {
        ReplayIsLastWrite(log, k);
        DescribesUnique(st.stateMap, st.log, UpdateFromLog(EMPTY_MAP, log, 1, k).0, log, k);
      }
    } else if Orderly(st.log, k) {
      OrderlyAgree(st.log, log, k);
      assert false;
    }
  }

  /** Two nodes that have applied equally far have equal lock maps. */
  lemma EquallyAppliedIsEqual(s0: System, actions: seq<Action>, s: System, n1: Id, n2: Id)
    requires ChainStarts(s0) && AllAppliedRight(s0) && ChainRun(s0, actions, s)
    requires n1 in s.nodes && n2 in s.nodes && s.nodes[n1].store.lastAppliedIndex == s.nodes[n2].store.lastAppliedIndex
    requires Faithful(s.nodes[n1].store)
    ensures s.nodes[n1].store.stateMap == s.nodes[n2].store.stateMap
  {
    hide ChainStarts, WriterInv;
    var l0 := ChainStartsInv(s0);
    var l := RunKeepsWriter(s0, actions, s, l0);
    WriterIsLongest(s, l);
    AppliedAgreement(s0, actions, s, l, n1);
    AppliedAgreement(s0, actions, s, l, n2);
    hide ChainRun;
    BothEmpty(s.nodes[n1].store, s.nodes[n2].store);
  }

  lemma WriterIsLongest(s: System, l: Id)
    requires WriterInv(s, l)
    ensures Longest(s, l)
  {
    hide ClusterInv, HoldingInv;
  }

  lemma BothEmpty(a: Store, b: Store)
    requires Faithful(a) && Faithful(b) && a.lastAppliedIndex == b.lastAppliedIndex
    ensures a.lastAppliedIndex == 0 ==> a.stateMap == b.stateMap
  {
    if a.lastAppliedIndex == 0 {
      DescribesUnique(a.stateMap, a.log, b.stateMap, b.log, 0);
    }
  }

  /** The file of a node: every step of a reign is, for every node, either a backup or a step that keeps
      what is committed, as the theorems of Recovery ask for. */
  lemma StepKeepsFile(s: System, l: Id, a: Action, n: Id)
    requires WriterInv(s, l) && Enabled(s, a) && n in s.nodes
    ensures n in Next(s, a).nodes
    ensures var before, after := s.nodes[n].store, Next(s, a).nodes[n].store;
            Recovery.Moves(before, after) || after == before.(lastBackupIndex := before.commitIndex)
  {
    hide ClusterInv, HoldingInv, PrefixInv, Next, Advances, Onward;
    StepAdvances(s, l, a);
    StepMovesOn(s, a);
    WriterFacts(s, l, n);
    AdvanceIsFileStep(s, Next(s, a), n);
  }

  lemma AdvanceIsFileStep(s: System, s': System, n: Id)
    requires AllAdvance(s, s') && Onward(s, s') && n in s.nodes && WellFormed(s.nodes[n].store)
    ensures n in s'.nodes
    ensures Recovery.Moves(s.nodes[n].store, s'.nodes[n].store)
         || s'.nodes[n].store == s.nodes[n].store.(lastBackupIndex := s.nodes[n].store.commitIndex)
  {
  }

  // ---------------------------------------------------------------------------------------------
  // The first writer of a fresh cluster
  // ---------------------------------------------------------------------------------------------

  /** In a fresh cluster the logs form a chain: any of them is longest. */
  lemma FreshClusterStarts(s: System, l: Id)
    requires Init(s) && l in s.nodes
    ensures ChainStarts(s) && PrefixInv(s, l) && AllAppliedRight(s)
  {
    assert PrefixInv(s, l);
    assert Leads(s, [], s);
    assert ReachedFrom(s, [], s);
    forall n | n in s.nodes ensures AppliedRight(s.nodes[n].store) {
      DescribesEmpty(s.nodes[n].store.log);
    }
  }

  /** Nobody writes: any step of an election, any heartbeat, any answer. */
  predicate Silent(a: Action) {
    Writer(a).None?
  }

  ghost predicate Blank(s: System) {
    && (forall n :: n in s.nodes ==> s.nodes[n].store == EMPTY_STORE)
    && (forall m :: m in s.net && m.AppendAsk? ==> m.request.entryList == [] && m.request.commitEntryIndex == 0)
  }

  lemma VoteResponseKeepsBlank(n: Node, b: nat, peer: Id, r: VoteResponse)
    requires b < |n.ballots| && n.store == EMPTY_STORE
    ensures HandleVoteResponse(n, b, peer, r, []).store == EMPTY_STORE
  {
  }

  lemma AppendKeepsBlank(n: Node, r: AppendRequest, peer: Id, sent: Sent, answer: AppendResponse)
    requires n.store == EMPTY_STORE && r.entryList == [] && r.commitEntryIndex == 0
    ensures HandleAppendRequest(n, r).0.store == EMPTY_STORE
    ensures HandleAppendResponse(n, peer, sent, answer).store == EMPTY_STORE
  {
  }

  lemma HeartbeatIsBlank(n: Node, peer: Id, maximumLength: nat)
    requires n.store == EMPTY_STORE && PrepareAppend(n, peer, maximumLength).Batch?
    ensures var r := PrepareAppend(n, peer, maximumLength).request; r.entryList == [] && r.commitEntryIndex == 0
  {
  }

  lemma StepKeepsBlank(s: System, a: Action)
    requires ElectionInv(s) && Blank(s) && Silent(a) && Possible(s, a)
    ensures Blank(Next(s, a))
  {
    hide ElectionInv, Next, Silent;
    StepKeepsBlankStores(s, a);
    StepKeepsBlankBatches(s, a);
  }

  lemma StepKeepsBlankBatches(s: System, a: Action)
    requires Blank(s) && Possible(s, a)
    ensures forall m :: m in Next(s, a).net && m.AppendAsk? ==> m.request.entryList == [] && m.request.commitEntryIndex == 0
  {
    hide YesVotes, Gained, HandleVoteRequest, HandleVoteResponse, HandleAppendRequest, HandleAppendResponse, PrepareAppend,
         StartCandidacy, CommitProcedure, Append;
    if a.SendAppend? {
      HeartbeatIsBlank(s.nodes[a.n], a.dst, a.maximumLength);
    }
  }

  lemma StepKeepsBlankStores(s: System, a: Action)
    requires ElectionInv(s) && Blank(s) && Silent(a) && Possible(s, a)
    ensures forall n :: n in Next(s, a).nodes ==> Next(s, a).nodes[n].store == EMPTY_STORE
  {
    hide ElectionInv, YesVotes, Gained, HandleVoteRequest, HandleVoteResponse, HandleAppendRequest, HandleAppendResponse,
         PrepareAppend;
    var heartbeat := AppendRequest(0, 0, 0, 0, 0, []);
    match a
    case AnswerVote(m) => VoteRequestKeepsStore(s.nodes[m.dst], m.ask);
    case CountVote(m, _) => VoteResponseKeepsBlank(s.nodes[m.src], m.ballot, m.dst, m.answer);
    case AnswerAppend(m) => AppendKeepsBlank(s.nodes[m.dst], m.request, 0, m.sent, AppendResponse(0, 0, 0, 0, 0, false));
    case CountAppend(m) => AppendKeepsBlank(s.nodes[m.src], heartbeat, m.dst, m.sent, m.response);
    case _ =>
  }

  lemma {:induction false} SilenceKeepsBlank(s1: System, actions: seq<Action>, s2: System)
    requires ClusterInv(s1) && Blank(s1) && Leads(s1, actions, s2) && forall a :: a in actions ==> Silent(a)
    ensures Blank(s2)
    decreases |actions|
  {
    hide ElectionInv, LogInv, Blank;
    if actions != [] {
      assert actions[0] in actions;
      StepKeepsBlank(s1, actions[0]);
      StepKeepsClusterInv(s1, actions[0]);
      SilenceKeepsBlank(Next(s1, actions[0]), actions[1..], s2);
    }
  }

  /** Nor does it matter what came before, as long as nothing was written: all stores are still empty. */
  lemma FirstWriterStarts(s0: System, actions: seq<Action>, s: System, l: Id)
    requires Init(s0) && Leads(s0, actions, s) && (forall a :: a in actions ==> Silent(a)) && l in s.nodes
    ensures ChainStarts(s) && PrefixInv(s, l) && AllAppliedRight(s) && Blank(s)
  {
    hide ClusterInv, Leads, Init, AllAppliedRight, Blank, ChainStarts, PrefixInv;
    assert ReachedFrom(s0, actions, s);
    InitHoldsClusterInv(s0);
    InitIsBlank(s0);
    SilenceKeepsBlank(s0, actions, s);
    BlankStarts(s, l);
  }

  lemma InitIsBlank(s: System)
    requires Init(s)
    ensures Blank(s)
  {
  }

  lemma BlankStarts(s: System, l: Id)
    requires Blank(s) && l in s.nodes && Reachable(s)
    ensures ChainStarts(s) && PrefixInv(s, l) && AllAppliedRight(s)
  {
    hide Reachable, ElectionInv, LogInv, AppliedRight;
    ReachableHoldsClusterInv(s);
    forall m | m in s.net && m.AppendAsk? ensures SliceOf(LogOf(s, l), m.request) {
      FlightOf(s, m);
      assert s.nodes[m.src].store == EMPTY_STORE && m.request.entryList == [];
      assert m.request.prevEntryIndex == 0;
    }
    assert PrefixInv(s, l);
    forall n | n in s.nodes ensures AppliedRight(s.nodes[n].store) {
      assert s.nodes[n].store == EMPTY_STORE;
      EmptyIsRight();
    }
  }

  lemma EmptyIsRight()
    ensures AppliedRight(EMPTY_STORE)
  {
    DescribesEmpty(EMPTY_LOG);
  }
}

/** From one reign of the lock service to the next: what a later leader needs so that everything that holds
    in a reign holds again. */
module SuccessiveReigns {
  import opened Types
  import opened LogStorage
  import opened StateMap
  import opened NodeStore
  import opened RaftNode
  import opened NodeSteps
  import opened Cluster
  import opened ElectionSafety
  import opened LogSafety
  import opened ClusterTheorems
  import opened TermOrder
  import opened Holding
  import opened Replication
  import opened ReplicationTheorems
  import opened WholeSystem
  import LockService
  import ReignRuns
  import ReignScan

  // ---------------------------------------------------------------------------------------------
  // While nobody writes
  // ---------------------------------------------------------------------------------------------

  /** The longest log gains nothing. */
  lemma SilentStepKeepsLength(s: System, l: Id, a: Action)
    requires ClusterInv(s) && PrefixInv(s, l) && Enabled(s, a) && Silent(a)
    ensures l in s.nodes && l in Next(s, a).nodes && Max(Next(s, a).nodes[l]) <= Max(s.nodes[l])
  {
    hide ElectionInv, LogInv, PrefixInv, HandleVoteRequest, HandleVoteResponse, HandleAppendRequest, HandleAppendResponse,
         PrepareAppend, CommitProcedure, Gained, YesVotes, WellFormed, Window, AskForVote, Timely;
    WriterIsThere(s, l);
    match a
    case Timeout(n) => KeysAreIds(s, n);
    case AskVote(_, _, _) =>
    case AnswerVote(m) =>
      KeysAreIds(s, m.dst);
      VoteRequestKeepsStore(s.nodes[m.dst], m.ask);
    case CountVote(m, initial) =>
      KeysAreIds(s, m.src);
      StoreOf(s, m.src);
      VoteResponseKeepsMatch(s.nodes[m.src], m.ballot, m.dst, m.answer, initial);
      VoteResponseWrites(s.nodes[m.src], m.ballot, m.dst, m.answer, initial);
    case SendAppend(_, _, _, _) =>
    case AnswerAppend(m) => AnswerKeepsLength(s, l, m);
    case CountAppend(m) => CountKeepsLength(s, l, m);
    case Apply(n) => ApplyKeepsLength(s, l, n);
    case BackUp(n) => KeysAreIds(s, n);
  }

  lemma AnswerKeepsLength(s: System, l: Id, m: Message)
    requires ClusterInv(s) && PrefixInv(s, l) && Possible(s, AnswerAppend(m)) && l in s.nodes
    ensures l in Next(s, AnswerAppend(m)).nodes && Max(Next(s, AnswerAppend(m)).nodes[l]) <= Max(s.nodes[l])
  {
    hide ElectionInv, LogInv, PrefixInv, HandleAppendRequest, Agree, SliceOf, Window, Known, Contiguous;
    KeysAreIds(s, m.dst);
    AppendRequestMoves(s.nodes[m.dst], m.request);
    if m.dst == l {
      StoreOf(s, l);
      FlightOf(s, m);
      BatchFacts(s, l, l, m);
      AppendRequestReplicates(s.nodes[l], m.request, LogOf(s, l));
    }
  }

  lemma CountKeepsLength(s: System, l: Id, m: Message)
    requires ClusterInv(s) && Enabled(s, CountAppend(m)) && l in s.nodes
    ensures l in Next(s, CountAppend(m)).nodes && Max(Next(s, CountAppend(m)).nodes[l]) <= Max(s.nodes[l])
  {
    hide ElectionInv, LogInv, HandleAppendResponse;
    KeysAreIds(s, m.src);
    AppendResponsePosture(s.nodes[m.src], m.dst, m.sent, m.response);
    AppendResponseKeepsLog(s.nodes[m.src], m.dst, m.sent, m.response);
  }

  lemma ApplyKeepsLength(s: System, l: Id, n: Id)
    requires ClusterInv(s) && Possible(s, Apply(n)) && l in s.nodes
    ensures l in Next(s, Apply(n)).nodes && Max(Next(s, Apply(n)).nodes[l]) <= Max(s.nodes[l])
  {
    hide ElectionInv, LogInv, UpdateFromLog;
    KeysAreIds(s, n);
  }

  /** Over a run in which nobody writes the longest log stays as it is. */
  lemma {:induction false} SilenceKeepsLog(s1: System, actions: seq<Action>, s2: System, l: Id)
    requires WriterInv(s1, l) && Leads(s1, actions, s2) && forall a :: a in actions ==> Silent(a)
    ensures WriterInv(s2, l) && (AllAppliedRight(s1) ==> AllAppliedRight(s2))
    ensures l in s1.nodes && l in s2.nodes && Prefix(LogOf(s1, l), LogOf(s2, l)) && Max(s2.nodes[l]) <= Max(s1.nodes[l])
    decreases |actions|
  {
    hide ClusterInv, HoldingInv, PrefixInv, AllAppliedRight, Prefix, LogsGrow;
    WriterIsThere(s1, l);
    if actions == [] {
      WriterFacts(s1, l, l);
    } else {
      assert actions[0] in actions;
      var s := Next(s1, actions[0]);
      SilentStepKeepsLength(s1, l, actions[0]);
      StepOfRun(s1, l, actions[0]);
      GrowthOf(s1, s, l);
      SilenceKeepsLog(s, actions[1..], s2, l);
      PrefixTransitive(LogOf(s1, l), LogOf(s, l), LogOf(s2, l));
    }
  }

  // ---------------------------------------------------------------------------------------------
  // The next leader
  // ---------------------------------------------------------------------------------------------

  /** The lock service that a newly elected node opens. */
  function Opening(s: System, n: Id, acquirementExpire: nat): LockService.Leader
    requires n in s.nodes
  {
    LockService.Leader(s.nodes[n].currentTerm, s.nodes[n].store, map[], acquirementExpire)
  }

  /** An answered vote makes node n a leader, and its first entries are those of the first scan. */
  ghost predicate Elects(s: System, a: Action, n: Id, names: seq<string>, acquirementExpire: nat, timestamp: int) {
    && a.CountVote? && a.m.src == n && Enabled(s, a) && n in s.nodes && n in Next(s, a).nodes
    && s.nodes[n].role == Candidate && Next(s, a).nodes[n].role == Leader
    && var start := LockService.Commit(Opening(s, n, acquirementExpire));
       && ReignScan.Enumerates(names, start.store.stateMap.locks)
       && AppendAll(start.store, s.nodes[n].currentTerm, a.initial) == LockService.Scan(start, names, timestamp).store
  }

  /** A reign of the lock service is over, and nobody has written since.  When a node is elected whose log is
      longest and has no lock entry above its commit index, the next reign starts: all that holds over the
      runs of a reign holds again. */
  lemma NextReignStarts(trace: seq<Whole>, steps: seq<WholeStep>, base: nat, l: Id, t: nat,
                        actions: seq<Action>, s: System, a: Action, n: Id,
                        names: seq<string>, acquirementExpire: nat, timestamp: int)
    requires |trace| > 0 && WholeStarts(trace[0], base, l, t) && WholeRun(trace, steps, l, t)
    requires Leads(trace[|steps|].system, actions, s) && forall b :: b in actions ==> Silent(b)
    requires Elects(s, a, n, names, acquirementExpire, timestamp) && Longest(s, n)
    requires WellFormed(s.nodes[n].store) && ReignRuns.NoLockAbove(LogOf(s, n), s.nodes[n].store.commitIndex)
    ensures ReignRuns.MayOpen(Opening(s, n, acquirementExpire), names)
    ensures WholeStarts(Whole(Next(s, a), ReignRuns.Open(Opening(s, n, acquirementExpire), names, timestamp)),
                        s.nodes[n].store.commitIndex, n, s.nodes[n].currentTerm)
  {
    hide WriterInv, Cluster.Reachable, Longest, Leads, Silent, AllAppliedRight, ReignRuns.Reachable, LockService.Scan, Next,
         Enabled, ReignRuns.MayOpen, Prefix, Orderly, WholeStarts, WholeInv, Moves;
    var w := trace[|steps|];
    RunKeepsWhole(trace, steps, base, l, t, |steps|);
    RunStaysReachable(trace, steps, base, l, t, |steps|);
    WholeLogIsOrderly(w, base, l, t);
    WholeIsWriter(w, base, l, t);
    WholeIsRight(w, base, l, t);
    SilenceKeepsLog(w.system, actions, s, l);
    LongestIsWriter(s, l, n);
    RunIsReachable(w.system, actions, s);
    LongestIsOrderly(w.system, s, l, n);
    MayOpenNext(s, n, names, acquirementExpire);
    ElectionStarts(s, a, n, names, acquirementExpire, timestamp);
  }

  lemma WholeLogIsOrderly(w: Whole, base: nat, l: Id, t: nat)
    requires WholeInv(w, base, l, t)
    ensures l in w.system.nodes
    ensures var log := LogOf(w.system, l); Dense(log) && Orderly(log, log.maximumIndex)
  {
    hide WriterInv, AllAppliedRight, ReignRuns.Reachable;
    LeaderLogIsOrderly(w.moment, base);
  }

  lemma WholeIsRight(w: Whole, base: nat, l: Id, t: nat)
    requires WholeInv(w, base, l, t)
    ensures AllAppliedRight(w.system)
  {
  }

  lemma {:induction false} RunStaysReachable(trace: seq<Whole>, steps: seq<WholeStep>, base: nat, l: Id, t: nat, i: nat)
    requires |trace| > 0 && WholeStarts(trace[0], base, l, t) && WholeRun(trace, steps, l, t) && i < |trace|
    ensures Cluster.Reachable(trace[i].system)
  {
    hide Cluster.Reachable, Moves, PrefixInv, AllAppliedRight, Coupled, ReignRuns.Reachable;
    if i > 0 {
      RunStaysReachable(trace, steps, base, l, t, i - 1);
      assert Moves(trace[i - 1], steps[i - 1], trace[i - 1 + 1], l, t);
      MoveIsRun(trace[i - 1], steps[i - 1], trace[i], l, t);
      RunIsReachable(trace[i - 1].system, ActionsOf(steps[i - 1], l), trace[i].system);
    }
  }

  lemma LongestIsOrderly(s1: System, s2: System, l: Id, n: Id)
    requires WriterInv(s2, l) && WriterInv(s2, n) && l in s1.nodes && l in s2.nodes && n in s2.nodes
    requires Dense(LogOf(s1, l)) && Orderly(LogOf(s1, l), Max(s1.nodes[l]))
    requires Prefix(LogOf(s1, l), LogOf(s2, l)) && Max(s2.nodes[l]) <= Max(s1.nodes[l])
    ensures Dense(LogOf(s2, n)) && Orderly(LogOf(s2, n), Max(s2.nodes[n]))
  {
    hide WriterInv, Orderly, Held;
    WriterFacts(s2, l, l);
    WriterFacts(s2, l, n);
    WriterFacts(s2, n, l);
    PrefixTransitive(LogOf(s1, l), LogOf(s2, l), LogOf(s2, n));
    OrderlyAgree(LogOf(s1, l), LogOf(s2, n), Max(s2.nodes[n]));
  }

  lemma MayOpenNext(s: System, n: Id, names: seq<string>, acquirementExpire: nat)
    requires Cluster.Reachable(s) && n in s.nodes && AllAppliedRight(s) && WellFormed(s.nodes[n].store)
    requires Orderly(LogOf(s, n), Max(s.nodes[n])) && ReignRuns.NoLockAbove(LogOf(s, n), s.nodes[n].store.commitIndex)
    requires ReignScan.Enumerates(names, LockService.Commit(Opening(s, n, acquirementExpire)).store.stateMap.locks)
    ensures ReignRuns.MayOpen(Opening(s, n, acquirementExpire), names)
  {
    hide Cluster.Reachable, CommitProcedure;
    var st := s.nodes[n].store;
    PrefixReflexive(st.log);
    MapIsReplay(st, st.log);
    if Max(s.nodes[n]) > 0 {
      EntriesAreNotAhead(s, n, Max(s.nodes[n]));
    }
  }

  lemma ElectionStarts(s: System, a: Action, n: Id, names: seq<string>, acquirementExpire: nat, timestamp: int)
    requires Cluster.Reachable(s) && WriterInv(s, n) && AllAppliedRight(s)
    requires Elects(s, a, n, names, acquirementExpire, timestamp) && ReignRuns.MayOpen(Opening(s, n, acquirementExpire), names)
    ensures WholeStarts(Whole(Next(s, a), ReignRuns.Open(Opening(s, n, acquirementExpire), names, timestamp)),
                        s.nodes[n].store.commitIndex, n, s.nodes[n].currentTerm)
  {
    hide Cluster.Reachable, ClusterInv, HoldingInv, PrefixInv, AllAppliedRight, ReignRuns.MayOpen, LockService.Scan, LogsGrow,
         HandleVoteResponse, Gained, YesVotes, CommitProcedure, AppendAll;
    ReachableGoesOn(s, a);
    StepOfRun(s, n, a);
    ElectedStore(s, a, n);
    OpensReign(Opening(s, n, acquirementExpire), names, timestamp);
  }

  lemma ElectedStore(s: System, a: Action, n: Id)
    requires ClusterInv(s) && a.CountVote? && a.m.src == n && Enabled(s, a) && n in s.nodes && n in Next(s, a).nodes
    requires s.nodes[n].role == Candidate && Next(s, a).nodes[n].role == Leader
    ensures var b := Next(s, a).nodes[n];
            b.currentTerm == s.nodes[n].currentTerm && b.store == AppendAll(CommitProcedure(s.nodes[n].store), b.currentTerm, a.initial)
  {
    hide ElectionInv, LogInv, Gained, YesVotes, CommitProcedure, AppendAll;
    KeysAreIds(s, n);
  }

  lemma OpensReign(leader: LockService.Leader, names: seq<string>, timestamp: int)
    requires ReignRuns.MayOpen(leader, names)
    ensures ReignRuns.Reachable(ReignRuns.Open(leader, names, timestamp), leader.store.commitIndex)
    ensures ReignRuns.Open(leader, names, timestamp).leader == LockService.Scan(LockService.Commit(leader), names, timestamp)
    ensures ReignRuns.Open(leader, names, timestamp).leader.term == leader.term
  {
    var m := ReignRuns.Open(leader, names, timestamp);
    ScanKeepsTerm(LockService.Commit(leader), names, timestamp);
    assert ReignRuns.Leads(m, [], m);
    assert ReignRuns.ReachedFrom(leader, names, timestamp, [], m);
  }
}

/** The lock service inside the cluster: one leader runs it and keeps its term, while the other nodes may lag,
    time out, run for election in higher terms, vote, or lead without writing; and what clients may rely on
    at every node. */
module WholeSystem {
  import opened Types
  import opened LogStorage
  import opened StateMap
  import opened NodeStore
  import opened RaftNode
  import opened NodeSteps
  import opened Cluster
  import opened ElectionSafety
  import opened LogSafety
  import opened ClusterTheorems
  import opened Holding
  import opened Replication
  import opened ReplicationTheorems
  import AcquirementQueue
  import LockService
  import Reign
  import ReignRuns
  import ReignTheorems
  import LockScan
  import KVStateMap
  import Framing
  import Recovery
  import ReplicatedFiles

  /** The cluster, and its leader's lock service. */
  datatype Whole = Whole(system: System, moment: ReignRuns.Moment)

  /** Either the leader serves a request, a scan or a write, which appends the commands, or anything else
      happens in the cluster. */
  datatype WholeStep = Serve(step: ReignRuns.Step, commands: seq<Command>) | Elsewhere(action: Action)

  ghost predicate Reigns(s: System, l: Id, t: nat) {
    l in s.nodes && s.nodes[l].role == Leader && s.nodes[l].currentTerm == t
  }

  /** The lock service works on the store of node l, which leads term t. */
  ghost predicate Coupled(w: Whole, l: Id, t: nat) {
    Reigns(w.system, l, t) && w.moment.leader.term == t && w.system.nodes[l].store == w.moment.leader.store
  }

  predicate IsService(step: ReignRuns.Step) {
    step.RequestStep? || step.ReleaseStep? || step.ScanStep? || step.PutStep?
  }

  function ClientAppends(l: Id, commands: seq<Command>): (actions: seq<Action>) {
    seq(|commands|, i requires 0 <= i < |commands| => ClientAppend(l, commands[i]))
  }

  /** What a service does to the cluster: the lock services apply first what is committed. */
  function ServiceActions(l: Id, step: ReignRuns.Step, commands: seq<Command>): (actions: seq<Action>) {
    (if step.PutStep? then [] else [Apply(l)]) + ClientAppends(l, commands)
  }

  function ActionsOf(step: WholeStep, l: Id): (actions: seq<Action>) {
    match step
    case Serve(st, commands) => ServiceActions(l, st, commands)
    case Elsewhere(a) => [a]
  }

  /** Elsewhere anything may happen but that somebody else writes, or that the leader is deposed. */
  ghost predicate Moves(w1: Whole, step: WholeStep, w2: Whole, l: Id, t: nat) {
    match step
    case Serve(st, commands) =>
      && IsService(st) && ReignRuns.Enabled(w1.moment, st) && w2.moment == ReignRuns.Next(w1.moment, st)
      && Leads(w1.system, ServiceActions(l, st, commands), w2.system) && Coupled(w2, l, t)
    case Elsewhere(a) =>
      && !a.ClientAppend? && SoleWriter(a, l) && Enabled(w1.system, a) && w2.system == Next(w1.system, a)
      && Reigns(w2.system, l, t)
      && w2.moment == w1.moment.(leader := w1.moment.leader.(store := w2.system.nodes[l].store))
  }

  /** All logs are parts of the leader's, and its lock service has opened; base is the commit index at its
      opening. */
  ghost predicate WholeStarts(w: Whole, base: nat, l: Id, t: nat) {
    && Cluster.Reachable(w.system) && PrefixInv(w.system, l) && AllAppliedRight(w.system)
    && Coupled(w, l, t) && ReignRuns.Reachable(w.moment, base)
  }

  ghost predicate WholeRun(trace: seq<Whole>, steps: seq<WholeStep>, l: Id, t: nat) {
    && |trace| == |steps| + 1
    && forall i :: 0 <= i < |steps| ==> Moves(trace[i], steps[i], trace[i + 1], l, t)
  }

  ghost predicate WholeInv(w: Whole, base: nat, l: Id, t: nat) {
    WriterInv(w.system, l) && AllAppliedRight(w.system) && Coupled(w, l, t) && ReignRuns.Reachable(w.moment, base)
  }

  /** The files of all nodes along a run. */
  ghost predicate WholeFiles(c: Framing.Codec, trace: seq<Whole>, steps: seq<WholeStep>, files: seq<map<Id, Framing.bytes>>, l: Id)
    requires |trace| == |steps| + 1
  {
    && |files| == |trace|
    && forall i :: 0 <= i < |steps| ==>
         ReplicatedFiles.FiledRun(c, trace[i].system, files[i], ActionsOf(steps[i], l), trace[i + 1].system, files[i + 1])
  }

  // ---------------------------------------------------------------------------------------------
  // The leader's store outside its services
  // ---------------------------------------------------------------------------------------------

  ghost predicate LeaderChange(a: Store, b: Store) {
    || b == a
    || (a.commitIndex <= b.commitIndex <= a.log.maximumIndex && b == a.(commitIndex := b.commitIndex))
    || b == CommitProcedure(a)
    || b == a.(lastBackupIndex := a.commitIndex)
  }

  lemma AppendResponseChange(n: Node, peer: Id, sent: Sent, r: AppendResponse)
    requires WellFormed(n.store)
    ensures LeaderChange(n.store, HandleAppendResponse(n, peer, sent, r).store)
  {
    if r.success {
      var n1 := AdvanceFollower(n, peer, sent);
      CommitTargetIsGreatest(n1, Max(n1));
    }
  }

  lemma CountVoteOfLeader(n: Node, b: nat, peer: Id, r: VoteResponse, initial: seq<Command>)
    requires b < |n.ballots| && n.role == Leader
    ensures HandleVoteResponse(n, b, peer, r, initial) == n
  {
  }

  lemma CountVoteAround(s: System, l: Id, a: Action)
    requires ElectionInv(s) && l in s.nodes && s.nodes[l].role == Leader && a.CountVote? && Enabled(s, a)
    ensures l in Next(s, a).nodes && Next(s, a).nodes[l].store == s.nodes[l].store
  {
    hide ElectionInv, HandleVoteResponse, Gained, YesVotes;
    KeysAreIds(s, a.m.src);
    VoteResponseKeepsMatch(s.nodes[a.m.src], a.m.ballot, a.m.dst, a.m.answer, a.initial);
    if a.m.src == l {
      CountVoteOfLeader(s.nodes[l], a.m.ballot, a.m.dst, a.m.answer, a.initial);
    }
  }

  lemma CountAppendAround(s: System, l: Id, a: Action)
    requires ElectionInv(s) && l in s.nodes && WellFormed(s.nodes[l].store) && a.CountAppend? && Enabled(s, a)
    ensures l in Next(s, a).nodes && LeaderChange(s.nodes[l].store, Next(s, a).nodes[l].store)
  {
    hide ElectionInv, HandleAppendResponse, LeaderChange, WellFormed, CommitProcedure;
    ChangeKinds(s.nodes[l].store);
    KeysAreIds(s, a.m.src);
    AppendResponsePosture(s.nodes[a.m.src], a.m.dst, a.m.sent, a.m.response);
    if a.m.src == l {
      AppendResponseChange(s.nodes[l], a.m.dst, a.m.sent, a.m.response);
    }
  }

  /** Only commits, applications and backups move the leader's store. */
  lemma LeaderStoreChanges(s: System, l: Id, t: nat, a: Action)
    requires ClusterInv(s) && Reigns(s, l, t) && Enabled(s, a) && Reigns(Next(s, a), l, t) && !a.ClientAppend?
    ensures l in s.nodes && l in Next(s, a).nodes && LeaderChange(s.nodes[l].store, Next(s, a).nodes[l].store)
  {
    hide ElectionInv, LogInv, LeaderChange, HandleVoteRequest, HandleVoteResponse, HandleAppendRequest,
         HandleAppendResponse, CommitProcedure, Gained, YesVotes, PrepareAppend, AskForVote, WellFormed;
    StoreOf(s, l);
    ChangeKinds(s.nodes[l].store);
    match a
    case Timeout(n) => KeysAreIds(s, n);
    case AskVote(_, _, _) =>
    case AnswerVote(m) =>
      KeysAreIds(s, m.dst);
      VoteRequestKeepsStore(s.nodes[m.dst], m.ask);
    case CountVote(_, _) => CountVoteAround(s, l, a);
    case SendAppend(_, _, _, _) =>
    case AnswerAppend(m) => AnswerOfLeader(s, l, t, m);
    case CountAppend(_) => CountAppendAround(s, l, a);
    case Apply(n) => KeysAreIds(s, n);
    case BackUp(n) => KeysAreIds(s, n);
  }

  lemma ChangeKinds(st: Store)
    ensures LeaderChange(st, st) && LeaderChange(st, CommitProcedure(st)) && LeaderChange(st, st.(lastBackupIndex := st.commitIndex))
  {
  }

  /** A leader refuses what is of an earlier term, gives way to a later one, and hears of no other leader of
      its own. */
  lemma AnswerOfLeader(s: System, l: Id, t: nat, m: Message)
    requires ElectionInv(s) && Reigns(s, l, t) && Possible(s, AnswerAppend(m)) && Reigns(Next(s, AnswerAppend(m)), l, t)
    ensures l in Next(s, AnswerAppend(m)).nodes && Next(s, AnswerAppend(m)).nodes[l].store == s.nodes[l].store
  {
    hide ElectionInv, HandleAppendRequest;
    KeysAreIds(s, m.dst);
    AppendRequestMoves(s.nodes[m.dst], m.request);
  }

  // ---------------------------------------------------------------------------------------------
  // The invariant of the whole
  // ---------------------------------------------------------------------------------------------

  lemma ReignGoesOn(m: ReignRuns.Moment, base: nat, step: ReignRuns.Step)
    requires ReignRuns.Reachable(m, base) && ReignRuns.Enabled(m, step)
    ensures ReignRuns.Reachable(ReignRuns.Next(m, step), base)
  {
    var next := ReignRuns.Next(m, step);
    assert ReignRuns.Leads(next, [], next);
    assert [step][1..] == [];
    ReignRuns.ReachableGoesOn(m, base, [step], next);
  }

  /** A change of the leader's store outside its services is a step of the reign. */
  lemma ChangeIsReignStep(m: ReignRuns.Moment, base: nat, st: Store)
    requires ReignRuns.Reachable(m, base) && LeaderChange(m.leader.store, st)
    ensures ReignRuns.Reachable(m.(leader := m.leader.(store := st)), base)
  {
    hide ReignRuns.Reachable, CommitProcedure;
    if st == m.leader.store {
      assert m.(leader := m.leader.(store := st)) == m;
    } else if st == CommitProcedure(m.leader.store) {
      ReignGoesOn(m, base, ReignRuns.ApplyStep);
    } else if st == m.leader.store.(lastBackupIndex := m.leader.store.commitIndex) {
      ReignGoesOn(m, base, ReignRuns.BackUpStep);
    } else {
      ReignGoesOn(m, base, ReignRuns.AdvanceStep(st.commitIndex));
    }
  }

  lemma ServiceIsSole(step: WholeStep, l: Id)
    requires step.Elsewhere? ==> SoleWriter(step.action, l)
    ensures OneWriter(ActionsOf(step, l), l)
  {
  }

  lemma StepKeepsWhole(w1: Whole, step: WholeStep, w2: Whole, base: nat, l: Id, t: nat)
    requires WholeInv(w1, base, l, t) && Moves(w1, step, w2, l, t)
    ensures WholeInv(w2, base, l, t) && ChainRun(w1.system, ActionsOf(step, l), w2.system)
  {
    hide ClusterInv, HoldingInv, PrefixInv, AllAppliedRight, ReignRuns.Reachable, ReignRuns.Next, ReignRuns.Enabled, Next,
         Enabled, LeaderChange, OneWriter, LogsGrow, ChainRun, ServiceActions;
    ServiceIsSole(step, l);
    MoveIsRun(w1, step, w2, l, t);
    OneWriterIsChain(w1.system, ActionsOf(step, l), w2.system, l);
    var l' := RunKeepsWriter(w1.system, ActionsOf(step, l), w2.system, l);
    match step
    case Serve(st, commands) =>
      ReignGoesOn(w1.moment, base, st);
    case Elsewhere(a) =>
      LeaderStoreChanges(w1.system, l, t, a);
      ChangeIsReignStep(w1.moment, base, w2.system.nodes[l].store);
  }

  lemma MoveIsRun(w1: Whole, step: WholeStep, w2: Whole, l: Id, t: nat)
    requires Moves(w1, step, w2, l, t)
    ensures Leads(w1.system, ActionsOf(step, l), w2.system)
  {
    hide Next, Enabled;
    if step.Elsewhere? {
      assert Leads(w2.system, [], w2.system);
      assert [step.action][1..] == [];
    }
  }

  lemma {:induction false} RunKeepsWhole(trace: seq<Whole>, steps: seq<WholeStep>, base: nat, l: Id, t: nat, i: nat)
    requires |trace| > 0 && WholeStarts(trace[0], base, l, t) && WholeRun(trace, steps, l, t) && i < |trace|
    ensures WholeInv(trace[i], base, l, t)
  {
    hide ClusterInv, HoldingInv, PrefixInv, AllAppliedRight, Coupled, Cluster.Reachable, ReignRuns.Reachable, Moves;
    if i == 0 {
      ReachableHoldsClusterInv(trace[0].system);
      ReachableHoldsHolding(trace[0].system);
    } else {
      RunKeepsWhole(trace, steps, base, l, t, i - 1);
      assert Moves(trace[i - 1], steps[i - 1], trace[i - 1 + 1], l, t);
      hide WholeInv;
      StepKeepsWhole(trace[i - 1], steps[i - 1], trace[i], base, l, t);
    }
  }

  /** The files mirror the logs throughout when they do at the start. */
  lemma {:induction false} FilesMirrorThroughout(c: Framing.Codec, trace: seq<Whole>, steps: seq<WholeStep>,
                                                 files: seq<map<Id, Framing.bytes>>, base: nat, l: Id, t: nat, i: nat)
    requires |trace| > 0 && WholeStarts(trace[0], base, l, t) && WholeRun(trace, steps, l, t) && i < |trace|
    requires WholeFiles(c, trace, steps, files, l) && ReplicatedFiles.AllMirror(c, trace[0].system, files[0])
    ensures ReplicatedFiles.AllMirror(c, trace[i].system, files[i])
  {
    hide WholeStarts, WholeInv, WriterInv, ReplicatedFiles.AllMirror, ReplicatedFiles.FiledRun, Moves, ChainRun;
    if i > 0 {
      FilesMirrorThroughout(c, trace, steps, files, base, l, t, i - 1);
      RunKeepsWhole(trace, steps, base, l, t, i - 1);
      assert Moves(trace[i - 1], steps[i - 1], trace[i - 1 + 1], l, t);
      StepKeepsWhole(trace[i - 1], steps[i - 1], trace[i], base, l, t);
      assert ReplicatedFiles.FiledRun(c, trace[i - 1].system, files[i - 1], ActionsOf(steps[i - 1], l), trace[i - 1 + 1].system, files[i - 1 + 1]);
      WholeIsWriter(trace[i - 1], base, l, t);
      var l' := ReplicatedFiles.RunMirrors(c, trace[i - 1].system, files[i - 1], ActionsOf(steps[i - 1], l),
                                           trace[i].system, files[i], l);
    }
  }

  lemma WholeIsWriter(w: Whole, base: nat, l: Id, t: nat)
    requires WholeInv(w, base, l, t)
    ensures WriterInv(w.system, l)
  {
  }

  /** Every run of the whole takes the files somewhere. */
  lemma {:induction false} FilesFollowWhole(c: Framing.Codec, trace: seq<Whole>, steps: seq<WholeStep>,
                                            files0: map<Id, Framing.bytes>, l: Id, t: nat)
    returns (files: seq<map<Id, Framing.bytes>>)
    requires WholeRun(trace, steps, l, t)
    ensures WholeFiles(c, trace, steps, files, l) && files[0] == files0
    decreases |steps|
  {
    hide Moves, ReplicatedFiles.FiledRun;
    if steps == [] {
      files := [files0];
    } else {
      var k := |steps| - 1;
      forall i | 0 <= i < k ensures Moves(trace[..k + 1][i], steps[..k][i], trace[..k + 1][i + 1], l, t) {
        assert Moves(trace[i], steps[i], trace[i + 1], l, t);
      }
      var before := FilesFollowWhole(c, trace[..k + 1], steps[..k], files0, l, t);
      assert Moves(trace[k], steps[k], trace[k + 1], l, t);
      MoveIsRun(trace[k], steps[k], trace[k + 1], l, t);
      var last := ReplicatedFiles.FilesFollow(c, trace[k].system, before[k], ActionsOf(steps[k], l), trace[k + 1].system);
      files := before + [last];
      forall i | 0 <= i < |steps|
        ensures ReplicatedFiles.FiledRun(c, trace[i].system, files[i], ActionsOf(steps[i], l), trace[i + 1].system, files[i + 1])
      {
        if i < k {
          assert ReplicatedFiles.FiledRun(c, trace[..k + 1][i].system, before[i], ActionsOf(steps[..k][i], l),
                                          trace[..k + 1][i + 1].system, before[i + 1]);
        }
      }
    }
  }

  // ---------------------------------------------------------------------------------------------
  // What clients may rely on at every node
  // ---------------------------------------------------------------------------------------------

  /** In every state of a reign the lock map of every node is the replay of the leader's log up to the
      node's applied index: replication and the lock service together never let a map get stuck. */
  lemma LockMapsAgree(trace: seq<Whole>, steps: seq<WholeStep>, base: nat, l: Id, t: nat, i: nat, n: Id)
    requires |trace| > 0 && WholeStarts(trace[0], base, l, t) && WholeRun(trace, steps, l, t) && i < |trace|
    requires n in trace[i].system.nodes
    ensures l in trace[i].system.nodes && Faithful(trace[i].system.nodes[n].store)
    ensures var s, k := trace[i].system, trace[i].system.nodes[n].store.lastAppliedIndex;
            && s.nodes[n].store.stateMap.prevIndex == k
            && (k > 0 ==> UpdateFromLog(EMPTY_MAP, LogOf(s, l), 1, k) == (s.nodes[n].store.stateMap, Updated))
  {
    hide WholeStarts, WholeRun, WriterInv, ReignRuns.Reachable;
    RunKeepsWhole(trace, steps, base, l, t, i);
    var w := trace[i];
    LeaderLogIsOrderly(w.moment, base);
    WriterFacts(w.system, l, n);
    WriterFacts(w.system, l, l);
    hide Held;
    var k := w.system.nodes[n].store.lastAppliedIndex;
    assert Orderly(LogOf(w.system, l), k);
    hide Orderly;
    MapIsReplay(w.system.nodes[n].store, LogOf(w.system, l));
  }

  /** In every state of a run whose files mirror the logs at the start, whichever node restarts from its file:
      the lock entries never stand in its way, it starts exactly when the leader's log up to its last backup
      deletes no absent key before the last entry, and its lock map is then the replay of the leader's log. */
  lemma EveryNodeRestarts(c: Framing.Codec, trace: seq<Whole>, steps: seq<WholeStep>, files: seq<map<Id, Framing.bytes>>,
                          base: nat, l: Id, t: nat, i: nat, n: Id)
    requires |trace| > 0 && WholeStarts(trace[0], base, l, t) && WholeRun(trace, steps, l, t) && i < |trace|
    requires WholeFiles(c, trace, steps, files, l) && ReplicatedFiles.AllMirror(c, trace[0].system, files[0])
    requires n in trace[i].system.nodes && Framing.Lossless(c) && Framing.AllFit(c, LogOf(trace[i].system, n))
    ensures var s, b := trace[i].system, trace[i].system.nodes[n].store.lastBackupIndex;
            && l in s.nodes && Dense(LogOf(s, l)) && b <= LogOf(s, l).maximumIndex && n in files[i]
            && (Recovery.Recover(c, files[i][n]).Some? <==> Recovery.DeletesOnlyPresent(LogOf(s, l), b))
            && (Recovery.Recover(c, files[i][n]).Some? && b > 0 ==>
                  UpdateFromLog(EMPTY_MAP, LogOf(s, l), 1, b) == (Recovery.Recover(c, files[i][n]).value.store.stateMap, Updated))
  {
    assert |files| == |trace|;
    hide WholeStarts, WholeRun, WholeFiles, WriterInv, ReignRuns.Reachable, Recovery.Recover, Recovery.DeletesOnlyPresent,
         ReplicatedFiles.AllMirror, Recovery.Mirrors, AllAppliedRight;
    FilesMirrorThroughout(c, trace, steps, files, base, l, t, i);
    RunKeepsWhole(trace, steps, base, l, t, i);
    var w := trace[i];
    ReplicatedFiles.MirrorOf(c, w.system, files[i], n);
    LeaderLogIsOrderly(w.moment, base);
    WriterFacts(w.system, l, n);
    hide Held;
    var d := Recovery.Disk(w.system.nodes[n].store, files[i][n]);
    RestartAgainst(c, d, LogOf(w.system, l));
  }

  lemma RestartAgainst(c: Framing.Codec, d: Recovery.Disk, leader: Log)
    requires Framing.Lossless(c) && Recovery.Mirrors(c, d) && Framing.AllFit(c, d.store.log)
    requires Dense(leader) && Orderly(leader, leader.maximumIndex) && Prefix(d.store.log, leader)
    ensures var r, b := Recovery.Recover(c, d.file), d.store.lastBackupIndex;
            && (r.Some? <==> Recovery.DeletesOnlyPresent(leader, b))
            && (r.Some? && b > 0 ==> UpdateFromLog(EMPTY_MAP, leader, 1, b) == (r.value.store.stateMap, Updated))
  {
    hide Recovery.Recover;
    Recovery.RecoveryIsExact(c, d);
    var log, b := d.store.log, d.store.lastBackupIndex;
    OrderlyAgree(leader, log, b);
    forall k | 1 <= k < b ensures KVStateMap.DeletesAbsent(log, k) == KVStateMap.DeletesAbsent(leader, k) {
      KVStateMap.DeletesAgree(log, leader, k);
    }
    if Recovery.Recover(c, d.file).Some? && b > 0 {
      var sm := Recovery.Recover(c, d.file).value.store.stateMap;
      DescribesAgree(sm, log, leader, b);
      ReplayIsLastWrite(leader, b);
      DescribesUnique(sm, leader, UpdateFromLog(EMPTY_MAP, leader, 1, b).0, leader, b);
    }
  }

  lemma LeaderLogIsOrderly(m: ReignRuns.Moment, base: nat)
    requires ReignRuns.Reachable(m, base)
    ensures var log := m.leader.store.log;
            Dense(log) && Orderly(log, log.maximumIndex) && base <= log.maximumIndex
  {
    ReignRuns.ReachableHoldsInv(m, base);
  }

  /** Lease exclusion at every node: in the log of any node, when a lock is granted the lease of every
      earlier holder has run out or has been released. */
  lemma LeasesExcludeEverywhere(trace: seq<Whole>, steps: seq<WholeStep>, base: nat, l: Id, t: nat, k: nat, n: Id,
                                name: string, i: nat, j: nat)
    requires |trace| > 0 && WholeStarts(trace[0], base, l, t) && WholeRun(trace, steps, l, t) && k < |trace|
    requires n in trace[k].system.nodes
    requires var log := LogOf(trace[k].system, n);
             && LockEntry(log, i, name) && LockEntry(log, j, name) && i < j && base < j
             && (base < i || i == LastOf(log, base, name)) && InfoAt(log, j).newOwner != ""
    ensures var log := LogOf(trace[k].system, n);
            ReignTheorems.LeaseOver(log, name, i, InfoAt(log, j).timestamp)
  {
    hide WholeStarts, WholeRun, WriterInv, ReignRuns.Reachable;
    RunKeepsWhole(trace, steps, base, l, t, k);
    var w := trace[k];
    WriterFacts(w.system, l, n);
    hide Held;
    ExclusionOnPrefix(w.moment, base, LogOf(w.system, n), name, i, j);
  }

  lemma ExclusionOnPrefix(m: ReignRuns.Moment, base: nat, log: Log, name: string, i: nat, j: nat)
    requires ReignRuns.Reachable(m, base) && Dense(log) && Prefix(log, m.leader.store.log)
    requires LockEntry(log, i, name) && LockEntry(log, j, name) && i < j && base < j
    requires base < i || i == LastOf(log, base, name)
    requires InfoAt(log, j).newOwner != ""
    ensures ReignTheorems.LeaseOver(log, name, i, InfoAt(log, j).timestamp)
  {
    var leader := m.leader.store.log;
    LastOfAgree(log, leader, base, name);
    hide ReignRuns.Reachable;
    ReignTheorems.LeaseExclusion(m, base, name, i, j);
    OverOnPrefix(log, leader, name, i, j);
  }

  lemma OverOnPrefix(log: Log, leader: Log, name: string, i: nat, j: nat)
    requires Dense(log) && Prefix(log, leader) && LockEntry(log, i, name) && LockEntry(log, j, name) && i < j
    requires LockEntry(leader, i, name) && LockEntry(leader, j, name)
    requires ReignTheorems.LeaseOver(leader, name, i, InfoAt(leader, j).timestamp)
    ensures ReignTheorems.LeaseOver(log, name, i, InfoAt(log, j).timestamp)
  {
    var t := InfoAt(log, j).timestamp;
    if InfoAt(log, i).timestamp + InfoAt(log, i).expire > t {
      var r: nat :| ReignTheorems.ReleasedBy(leader, name, i, r, t);
      assert r <= j;
      forall k: nat | i < k < r ensures !LockEntry(log, k, name) {
        assert !LockEntry(leader, k, name);
        assert k in log.entries && log.entries[k] == leader.entries[k];
      }
      assert ReignTheorems.ReleasedBy(log, name, i, r, t);
    }
  }

  // ---------------------------------------------------------------------------------------------
  // Every service can be carried out
  // ---------------------------------------------------------------------------------------------

  /** What a service writes is a list of commands at the end of the leader's log. */
  lemma ServiceWrites(m: ReignRuns.Moment, step: ReignRuns.Step) returns (commands: seq<Command>)
    requires IsService(step) && ReignRuns.Enabled(m, step)
    ensures var st := if step.PutStep? then m.leader.store else CommitProcedure(m.leader.store);
            var next := ReignRuns.Next(m, step).leader;
            next.store == AppendAll(st, m.leader.term, commands) && next.term == m.leader.term
  {
    hide CommitProcedure;
    match step
    case RequestStep(name, client, sequence, expire, timestamp) =>
      commands := RequestWrites(m.leader, name, client, sequence, expire, timestamp);
    case ReleaseStep(name, client, timestamp) =>
      var c := LockService.Commit(m.leader);
      if LockService.Release(m.leader, name, client, timestamp).0.store == c.store {
        commands := [];
      } else {
        commands := [DLock(LockService.ReleaseOf(c.store.stateMap.locks[name], timestamp))];
        AppendOne(c.store, c.term, commands[0]);
      }
    case ScanStep(names, timestamp) =>
      commands := LockScan.ScanIsAppendAll(LockService.Commit(m.leader), names, timestamp);
      ScanKeepsTerm(LockService.Commit(m.leader), names, timestamp);
    case PutStep(key, value) =>
      commands := [KVStore(key, value)];
      AppendOne(m.leader.store, m.leader.term, commands[0]);
  }

  lemma AppendOne(st: Store, term: nat, command: Command)
    ensures AppendAll(st, term, [command]) == st.(log := Append(st.log, term, command))
  {
    assert [command][..0] == [];
  }

  lemma ScanKeepsTerm(s: LockService.Leader, names: seq<string>, timestamp: int)
    requires forall n :: n in names ==> n in s.store.stateMap.locks
    ensures LockService.Scan(s, names, timestamp).term == s.term
  {
    var (s1, due) := LockService.ScanLocks(s, names, timestamp);
    LockScan.AppendLocksIsAppendAll(s1, due);
  }

  lemma LockIsAppendAll(s: LockService.Leader, info: LockInfo)
    ensures var r := LockService.AppendLock(s, info);
            r.store == AppendAll(s.store, s.term, [DLock(info)]) && r.term == s.term
  {
    AppendOne(s.store, s.term, DLock(info));
  }

  lemma RequestWrites(s: LockService.Leader, name: string, client: string, sequence: nat, expire: int, timestamp: int)
    returns (commands: seq<Command>)
    ensures var r := LockService.AcquireService(s, name, client, sequence, expire, timestamp).0;
            r.store == AppendAll(CommitProcedure(s.store), s.term, commands) && r.term == s.term
  {
    hide CommitProcedure, LockService.RefreshLock, LockService.AppendLock, AppendAll;
    var c := LockService.Commit(s);
    NothingAppended(c.store, c.term);
    commands := [];
    if sequence != 0 {
      if name in c.pending {
        var (q, err) := AcquirementQueue.Refresh(AcquirementQueue.Abandon(c.pending[name], timestamp), sequence, timestamp);
        if err.None? {
          commands := RefreshWrites(c.(pending := c.pending[name := q]), name, client, timestamp);
        }
      }
    } else if name !in c.store.stateMap.locks {
      if name !in c.pending {
        var info := LockInfo(1, name, client, timestamp, expire);
        LockIsAppendAll(c.(pending := c.pending[name := AcquirementQueue.NewQueue(0)]), info);
        commands := [DLock(info)];
      }
    } else if name in c.pending {
      var st := c.store.stateMap.locks[name];
      var q := c.pending[name];
      if q.lastAppendedNonce == st.lockNonce && q.waiting == [] && LockService.LeaseEnd(st) < timestamp {
        var info := LockInfo(st.lockNonce + 1, name, client, timestamp, expire);
        LockIsAppendAll(c, info);
        commands := [DLock(info)];
      } else if q.lastAppendedNonce > st.lockNonce || q.waiting != [] || LockService.LeaseEnd(st) >= timestamp {
        var info := LockInfo(0, name, client, timestamp, expire);
        var q1 := AcquirementQueue.InsertNew(q, info, timestamp, c.acquirementExpire).0;
        commands := RefreshWrites(c.(pending := c.pending[name := q1]), name, client, timestamp);
      }
    }
  }

  lemma NothingAppended(st: Store, term: nat)
    ensures AppendAll(st, term, []) == st
  {
  }

  lemma RefreshWrites(s: LockService.Leader, name: string, client: string, timestamp: int) returns (commands: seq<Command>)
    ensures var r := LockService.RefreshLock(s, name, client, timestamp).0;
            r.store == AppendAll(s.store, s.term, commands) && r.term == s.term
  {
    commands := [];
    if LockService.RefreshLock(s, name, client, timestamp).0.store != s.store {
      var q1 := AcquirementQueue.FetchFirst(s.pending[name], false, timestamp).0;
      var info := AcquirementQueue.FetchFirst(q1, true, timestamp).1.value;
      AppendOne(s.store, s.term, DLock(info));
      commands := [DLock(info)];
    }
  }

  lemma {:induction false} AppendFirst(st: Store, term: nat, commands: seq<Command>)
    requires commands != []
    ensures AppendAll(st, term, commands) == AppendAll(st.(log := Append(st.log, term, commands[0])), term, commands[1..])
  {
    if |commands| == 1 {
      AppendOne(st, term, commands[0]);
      assert commands == [commands[0]];
    } else {
      var before := commands[..|commands| - 1];
      AppendFirst(st, term, before);
      assert commands[1..][..|commands| - 2] == before[1..];
    }
  }

  /** A leader can append any list of commands, one after the other. */
  lemma {:induction false} AppendsRun(s: System, l: Id, t: nat, commands: seq<Command>) returns (s2: System)
    requires Reigns(s, l, t) && s.nodes[l].id == l
    ensures Leads(s, ClientAppends(l, commands), s2)
    ensures Reigns(s2, l, t) && s2.nodes[l].store == AppendAll(s.nodes[l].store, t, commands)
    decreases |commands|
  {
    hide Gained, Append;
    if commands == [] {
      s2 := s;
      NothingAppended(s.nodes[l].store, t);
    } else {
      var a := ClientAppend(l, commands[0]);
      var s1 := Next(s, a);
      s2 := AppendsRun(s1, l, t, commands[1..]);
      AppendFirst(s.nodes[l].store, t, commands);
      assert ClientAppends(l, commands)[1..] == ClientAppends(l, commands[1..]);
    }
  }

  /** The cluster's side of a service. */
  lemma ServeRun(s: System, l: Id, t: nat, step: ReignRuns.Step, commands: seq<Command>) returns (s2: System)
    requires Reigns(s, l, t) && s.nodes[l].id == l
    ensures Leads(s, ServiceActions(l, step, commands), s2) && Reigns(s2, l, t)
    ensures var st := s.nodes[l].store;
            s2.nodes[l].store == AppendAll(if step.PutStep? then st else CommitProcedure(st), t, commands)
  {
    hide CommitProcedure, AppendAll, ClientAppends;
    var appends := ClientAppends(l, commands);
    if step.PutStep? {
      s2 := AppendsRun(s, l, t, commands);
      assert ServiceActions(l, step, commands) == appends;
    } else {
      var s1 := Next(s, Apply(l));
      s2 := AppendsRun(s1, l, t, commands);
      assert ServiceActions(l, step, commands)[0] == Apply(l);
      assert ServiceActions(l, step, commands)[1..] == appends;
    }
  }

  /** No service is held up: in every state of the whole, every request, release, scan or write that the
      leader may serve at its time can be carried out. */
  lemma ServicesArePossible(w: Whole, step: ReignRuns.Step, base: nat, l: Id, t: nat) returns (commands: seq<Command>, w2: Whole)
    requires WholeInv(w, base, l, t) && IsService(step) && ReignRuns.Enabled(w.moment, step)
    ensures Moves(w, Serve(step, commands), w2, l, t)
  {
    hide LogInv, ElectionInv, HoldingInv, PrefixInv, ReignRuns.Reachable, AllAppliedRight, ReignRuns.Next, ReignRuns.Enabled,
         CommitProcedure, AppendAll, Leads, ServiceActions, IsService;
    commands := ServiceWrites(w.moment, step);
    KeysAreIds(w.system, l);
    var s2 := ServeRun(w.system, l, t, step, commands);
    w2 := Whole(s2, ReignRuns.Next(w.moment, step));
  }

  // ---------------------------------------------------------------------------------------------
  // The first reign of a fresh cluster
  // ---------------------------------------------------------------------------------------------

  /** The first leader of a fresh cluster opens its lock service on an empty log. */
  function FirstMoment(t: nat, acquirementExpire: nat, timestamp: int): ReignRuns.Moment {
    ReignRuns.Moment(LockService.Leader(t, EMPTY_STORE, map[], acquirementExpire), timestamp)
  }

  /** In a fresh cluster the whole starts with the first leader that may write, whatever elections and
      heartbeats came before, and whatever the other nodes have seen of it. */
  lemma FirstWholeStarts(s0: System, actions: seq<Action>, s: System, l: Id, t: nat, acquirementExpire: nat, timestamp: int)
    requires Init(s0) && Leads(s0, actions, s) && (forall a :: a in actions ==> Silent(a)) && Reigns(s, l, t)
    ensures WholeStarts(Whole(s, FirstMoment(t, acquirementExpire, timestamp)), 0, l, t)
  {
    hide Leads, Silent, AllAppliedRight, PrefixInv;
    FirstWriterStarts(s0, actions, s, l);
    FirstMomentIsOpen(t, acquirementExpire, timestamp);
  }

  lemma FirstMomentIsOpen(t: nat, acquirementExpire: nat, timestamp: int)
    ensures ReignRuns.Reachable(FirstMoment(t, acquirementExpire, timestamp), 0)
  {
    var leader := LockService.Leader(t, EMPTY_STORE, map[], acquirementExpire);
    DescribesEmpty(EMPTY_LOG);
    assert ReignRuns.MayOpen(leader, []);
    assert ReignRuns.Open(leader, [], timestamp) == FirstMoment(t, acquirementExpire, timestamp);
    assert ReignRuns.ReachedFrom(leader, [], timestamp, [], FirstMoment(t, acquirementExpire, timestamp));
  }
}

/** When a reign may open: the appended nonce of a lock is seeded from the applied one, which is right
    exactly when no entry of the lock is still waiting to be applied. */
module ReignOpening {
  import opened Types
  import opened LogStorage
  import opened StateMap
  import opened NodeStore
  import opened AcquirementQueue
  import opened LockService
  import opened Reign
  import opened ReignSteps
  import opened ReignScan
  import opened ReignRuns
  import opened ReignTheorems
  import RaftNode
  import Cluster
  import TrioRuns

  // ---------------------------------------------------------------------------------------------
  // What the first scan does to the queues
  // ---------------------------------------------------------------------------------------------

  lemma {:induction false} ScanLocksSeeds(s: Leader, names: seq<string>, timestamp: int)
    requires s.pending == map[] && NoDuplicates(names) && forall n :: n in names ==> n in s.store.stateMap.locks
    ensures var s' := ScanLocks(s, names, timestamp).0;
            && s'.store == s.store && (forall n :: n in s'.pending <==> n in names)
            && (forall n :: n in names ==> s'.pending[n].lastAppendedNonce == s.store.stateMap.locks[n].lockNonce)
  {
    if names != [] {
      var before, name := names[..|names| - 1], names[|names| - 1];
      ScanLocksSeeds(s, before, timestamp);
      var s1 := ScanLocks(s, before, timestamp).0;
      var k := AbandonDropsExpiredPrefix(HandlerOf(s1, name), timestamp);
      hide Abandon;
      assert name !in before;
      assert names == before + [name];
    }
  }

  lemma {:induction false} AppendLocksKeepsOthers(s: Leader, due: seq<LockInfo>, name: string)
    ensures AppendLocks(s, due).pending.Keys == s.pending.Keys
    ensures name in s.pending && (forall i :: 0 <= i < |due| ==> due[i].lockName != name) ==>
              AppendLocks(s, due).pending[name] == s.pending[name]
  {
    if due != [] {
      AppendLocksKeepsOthers(s, due[..|due| - 1], name);
    }
  }

  /** After the first scan a queue has the applied nonce of its lock, unless the scan has appended a release
      of that lock. */
  ghost predicate Seeded(c: Leader, s': Leader, name: string) {
    && s'.store.stateMap == c.store.stateMap && s'.store.lastAppliedIndex == c.store.lastAppliedIndex
    && Prefix(c.store.log, s'.store.log) && (name in s'.pending <==> name in c.store.stateMap.locks)
    && (name in s'.pending ==>
          (s'.pending[name].lastAppendedNonce == c.store.stateMap.locks[name].lockNonce
           || exists j :: AppendedAt(c, s', name, j)))
  }

  ghost predicate AppendedAt(c: Leader, s': Leader, name: string, j: nat) {
    c.store.log.maximumIndex < j <= s'.store.log.maximumIndex && LockEntry(s'.store.log, j, name)
  }

  lemma ScanSeeds(c: Leader, names: seq<string>, timestamp: int, name: string)
    requires c.pending == map[] && WellFormed(c.store) && Enumerates(names, c.store.stateMap.locks)
    ensures Seeded(c, Scan(c, names, timestamp), name)
  {
    hide AppendLocks, ScanLocks, WellFormed, LockEntry;
    ScanLocksSeeds(c, names, timestamp);
    var (s1, due) := ScanLocks(c, names, timestamp);
    AppendLocksKeepsOthers(s1, due, name);
    AppendLocksExtends(s1, due);
    AppendLocksKeepsIndices(s1, due);
    if i :| 0 <= i < |due| && due[i].lockName == name {
      ReleaseIsAppended(c, s1, due, name, i);
    }
  }

  lemma ReleaseIsAppended(c: Leader, s1: Leader, due: seq<LockInfo>, name: string, i: nat)
    requires WellFormed(s1.store) && s1.store == c.store && i < |due| && due[i].lockName == name
    ensures AppendedAt(c, AppendLocks(s1, due), name, s1.store.log.maximumIndex + 1 + i)
  {
    hide AppendLocks;
    AppendLocksExtends(s1, due);
    assert HoldsInfo(AppendLocks(s1, due).store.log, s1.store.log.maximumIndex + 1 + i, due[i]);
  }

  lemma {:induction false} AppendLocksKeepsIndices(s: Leader, due: seq<LockInfo>)
    ensures var r := AppendLocks(s, due);
            r.store.stateMap == s.store.stateMap && r.store.lastAppliedIndex == s.store.lastAppliedIndex
  {
    if due != [] {
      AppendLocksKeepsIndices(s, due[..|due| - 1]);
    }
  }

  // ---------------------------------------------------------------------------------------------
  // The exact condition
  // ---------------------------------------------------------------------------------------------

  /** The claims about the nonce of one lock: whoever has an entry in flight has a queue, there is at most one
      such entry, and the appended nonce is ahead of the applied one exactly by it. */
  ghost predicate NonceAgrees(s: Leader, name: string) {
    && ((exists i :: InFlight(s.store, name, i)) ==> name in s.pending)
    && (name in s.pending ==>
          var ahead := if exists i :: InFlight(s.store, name, i) then 1 else 0;
          s.pending[name].lastAppendedNonce == AppliedNonce(s.store.stateMap, name) + ahead)
    && (forall i, j :: InFlight(s.store, name, i) && InFlight(s.store, name, j) ==> i == j)
  }

  lemma InvAgrees(s: Leader, base: nat, now: int, name: string)
    requires Inv(s, base, now)
    ensures NonceAgrees(s, name)
  {
    if name in s.pending {
      HandledHasOneInFlight(s, base, now, name);
      SettledIffNonce(s, base, now, name);
    } else {
      LastOfIsGreatest(s.store.log, s.store.log.maximumIndex, name);
    }
  }

  lemma CommitProcedureKeeps(st: Store)
    requires WellFormed(st)
    ensures WellFormed(CommitProcedure(st)) && CommitProcedure(st).log == st.log
    ensures CommitProcedure(st).lastAppliedIndex == st.commitIndex
  {
  }

  /** An old entry of a lock that is not committed refutes the claims about its nonce. */
  lemma OldEntryDisagrees(s: Leader, names: seq<string>, timestamp: int, i: nat)
    requires MayScan(s, names) && s.store.commitIndex < i <= s.store.log.maximumIndex && s.store.log.entries[i].command.DLock?
    ensures !NonceAgrees(Open(s, names, timestamp).leader, s.store.log.entries[i].command.info.lockName)
  {
    var name := s.store.log.entries[i].command.info.lockName;
    var s' := Open(s, names, timestamp).leader;
    var c := Commit(s);
    CommitProcedureKeeps(s.store);
    ScanSeeds(c, names, timestamp, name);
    hide Scan, CommitProcedure, Faithful, Orderly, Enumerates;
    assert InFlight(s'.store, name, i);
    if j: nat :| AppendedAt(c, s', name, j) {
      assert InFlight(s'.store, name, j);
    }
  }

  /** A newly elected leader's claims about nonces hold exactly when no lock entry of its log lies above the
      commit index; then, and only then, it is in a state of a reign. */
  lemma OpeningIsSoundIff(s: Leader, names: seq<string>, timestamp: int)
    requires MayScan(s, names)
    ensures NoLockAbove(s.store.log, s.store.commitIndex)
       <==> forall name :: NonceAgrees(Open(s, names, timestamp).leader, name)
    ensures NoLockAbove(s.store.log, s.store.commitIndex)
       <==> exists base, now :: Inv(Open(s, names, timestamp).leader, base, now)
  {
    var s' := Open(s, names, timestamp).leader;
    hide Inv, NonceAgrees, Open;
    if NoLockAbove(s.store.log, s.store.commitIndex) {
      OpenHoldsInv(s, names, timestamp);
    } else {
      var i :| s.store.commitIndex < i <= s.store.log.maximumIndex && s.store.log.entries[i].command.DLock?;
      OldEntryDisagrees(s, names, timestamp, i);
    }
    forall base, now, name | Inv(s', base, now) ensures NonceAgrees(s', name) {
      InvAgrees(s', base, now, name);
    }
  }

  // ---------------------------------------------------------------------------------------------
  // A leader that opens too early
  // ---------------------------------------------------------------------------------------------

  const EarlyLog: Log :=
    Log(map[1 := Entry(2, 1, DLock(LockInfo(1, "a", "x", 0, 10))), 2 := Entry(2, 2, KVStore("k", Some([])))], 2)

  /** A leader of term 4 whose log holds an uncommitted lock entry of term 2. */
  const EarlyLeader: Leader := Leader(4, Store(EarlyLog, 0, 0, 0, EMPTY_MAP), map[], 1)

  /** A fresh cluster of three may get there with timely answers only.  The leader then grants the lock once
      more under the same nonce, and when all entries are committed its lock map gets stuck behind the
      applied index. */
  lemma EarlyLeaderGetsStuck(s0: Cluster.System) returns (s: Cluster.System, steps: seq<Step>, m: Moment)
    requires Cluster.Init(s0) && s0.nodes.Keys == TrioRuns.Trio
    ensures TrioRuns.Comes(s0, s) && 1 in s.nodes && s.nodes[1].role == RaftNode.Leader
    ensures s.nodes[1].currentTerm == EarlyLeader.term && s.nodes[1].store == EarlyLeader.store
    ensures MayScan(EarlyLeader, []) && !NoLockAbove(EarlyLog, EarlyLeader.store.commitIndex)
    ensures Leads(Open(EarlyLeader, [], 0), steps, m)
    ensures HoldsInfo(m.leader.store.log, 1, LockInfo(1, "a", "x", 0, 10)) && HoldsInfo(m.leader.store.log, 3, LockInfo(1, "a", "y", 0, 10))
    ensures m.leader.store.stateMap.prevIndex == 2 < m.leader.store.lastAppliedIndex == 3
  {
    s := TrioRuns.ElectedAgain(s0, EarlyLog.entries[1].command, EarlyLog.entries[2].command);
    assert TrioRuns.Double(EarlyLog.entries[1], EarlyLog.entries[2]) == EarlyLeader.store;
    steps, m := EarlyLeaderGoesOn();
  }

  lemma EarlyLeaderGoesOn() returns (steps: seq<Step>, m: Moment)
    ensures MayScan(EarlyLeader, []) && !NoLockAbove(EarlyLog, EarlyLeader.store.commitIndex)
    ensures Leads(Open(EarlyLeader, [], 0), steps, m)
    ensures HoldsInfo(m.leader.store.log, 1, LockInfo(1, "a", "x", 0, 10)) && HoldsInfo(m.leader.store.log, 3, LockInfo(1, "a", "y", 0, 10))
    ensures m.leader.store.stateMap.prevIndex == 2 < m.leader.store.lastAppliedIndex == 3
  {
    var s, log := EarlyLeader, EarlyLog;
    EarlyLogIsOrderly();
    var m0 := Open(s, [], 0);
    assert m0 == Moment(s, 0);
    var request := RequestStep("a", "y", 0, 10, 0);
    var m1 := Next(m0, request);
    var log1 := Log(log.entries[3 := Entry(4, 3, DLock(LockInfo(1, "a", "y", 0, 10)))], 3);
    assert m1.leader.store.log == log1;
    var m2 := Next(m1, AdvanceStep(3));
    m := Next(m2, ApplyStep);
    ReplayStops(log1);
    steps := [request, AdvanceStep(3), ApplyStep];
    assert steps[1..] == [AdvanceStep(3), ApplyStep] && steps[1..][1..] == [ApplyStep] && steps[1..][1..][1..] == [];
    assert Leads(m, [], m);
    assert Leads(m2, [ApplyStep], m);
    assert Leads(m1, [AdvanceStep(3), ApplyStep], m);
  }

  lemma EarlyLogIsOrderly()
    ensures Dense(EarlyLog) && Orderly(EarlyLog, 2) && Describes(EMPTY_MAP, EarlyLog, 0) && EarlyLog.entries[1].command.DLock?
  {
    DescribesEmpty(EarlyLog);
    assert OrderlyAt(EarlyLog, 1);
    assert OrderlyAt(EarlyLog, 2);
  }

  lemma ReplayStops(log: Log)
    requires log == Log(EarlyLog.entries[3 := Entry(4, 3, DLock(LockInfo(1, "a", "y", 0, 10)))], 3)
    ensures UpdateFromLog(EMPTY_MAP, log, 1, 3).0.prevIndex == 2
  {
    var e1, e2, e3 := log.entries[1], log.entries[2], log.entries[3];
    KeywordSelectsDLock(e1.command);
    KeywordSelectsDLock(e2.command);
    KeywordSelectsDLock(e3.command);
    var sm := UpdateFromEntry(EMPTY_MAP, e1).0;
    var sm2 := UpdateFromEntry(sm, e2).0;
    assert sm.prevIndex == 1 && sm2.prevIndex == 2 && UpdateFromEntry(sm2, e3) == (sm2, NonceMismatchError);
    assert ApplyRange(sm2, log, 3, 3) == (sm2, NonceMismatchError);
    assert ApplyRange(sm, log, 2, 3) == (sm2, NonceMismatchError);
  }
}

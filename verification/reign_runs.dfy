/** Whole runs of a reign: any sequence of requests, releases, scans, key-value writes, commits and
    applications, at non-decreasing times. */
module ReignRuns {
  import opened Types
  import opened LogStorage
  import opened StateMap
  import opened NodeStore
  import opened AcquirementQueue
  import opened LockService
  import opened Reign
  import opened ReignSteps
  import opened ReignScan

  datatype Moment = Moment(leader: Leader, now: int)

  datatype Step =
    | RequestStep(name: string, client: string, sequence: nat, expire: int, timestamp: int)
    | ReleaseStep(name: string, client: string, timestamp: int)
    | ScanStep(names: seq<string>, timestamp: int)
    | PutStep(key: string, value: Option<seq<byte>>)
    | AdvanceStep(index: nat)
    | ApplyStep
    | BackUpStep

  ghost predicate Enabled(m: Moment, step: Step) {
    match step
    case RequestStep(_, _, _, _, timestamp) => m.now <= timestamp
    case ReleaseStep(_, _, timestamp) => m.now <= timestamp
    case ScanStep(names, timestamp) =>
      m.now <= timestamp && Enumerates(names, Commit(m.leader).store.stateMap.locks)
    case PutStep(_, _) => true
    case AdvanceStep(index) => m.leader.store.commitIndex <= index <= m.leader.store.log.maximumIndex
    case ApplyStep => true
    case BackUpStep => true
  }

  ghost function Next(m: Moment, step: Step): Moment
    requires Enabled(m, step)
  {
    match step
    case RequestStep(name, client, sequence, expire, timestamp) =>
      Moment(AcquireService(m.leader, name, client, sequence, expire, timestamp).0, timestamp)
    case ReleaseStep(name, client, timestamp) => Moment(Release(m.leader, name, client, timestamp).0, timestamp)
    case ScanStep(names, timestamp) => Moment(Scan(Commit(m.leader), names, timestamp), timestamp)
    case PutStep(key, value) => m.(leader := AppendCommand(m.leader, KVStore(key, value)))
    case AdvanceStep(index) => m.(leader := m.leader.(store := m.leader.store.(commitIndex := index)))
    case ApplyStep => m.(leader := Commit(m.leader))
    case BackUpStep => m.(leader := m.leader.(store := m.leader.store.(lastBackupIndex := m.leader.store.commitIndex)))
  }

  /** m2 is reached from m1 by the steps, one after the other. */
  ghost predicate Leads(m1: Moment, steps: seq<Step>, m2: Moment)
    decreases |steps|
  {
    if steps == [] then m1 == m2
    else Enabled(m1, steps[0]) && Leads(Next(m1, steps[0]), steps[1..], m2)
  }

  /** No lock entry lies above index k. */
  ghost predicate NoLockAbove(log: Log, k: nat)
    requires Dense(log)
  {
    forall i :: k < i <= log.maximumIndex ==> !log.entries[i].command.DLock?
  }

  /** A node that has just been elected: no queues, a faithful map, and a log that its term continues. */
  ghost predicate MayScan(s: Leader, names: seq<string>) {
    && s.pending == map[]
    && Faithful(s.store)
    && Orderly(s.store.log, s.store.log.maximumIndex)
    && (s.store.log.maximumIndex > 0 ==> s.store.log.entries[s.store.log.maximumIndex].term <= s.term)
    && Enumerates(names, Commit(s).store.stateMap.locks)
  }

  /** It opens a reign when all lock entries of its log are committed. */
  ghost predicate MayOpen(s: Leader, names: seq<string>) {
    MayScan(s, names) && NoLockAbove(s.store.log, s.store.commitIndex)
  }

  ghost function Open(s: Leader, names: seq<string>, timestamp: int): Moment
    requires MayScan(s, names)
  {
    Moment(Scan(Commit(s), names, timestamp), timestamp)
  }

  ghost predicate ReachedFrom(s: Leader, names: seq<string>, timestamp: int, steps: seq<Step>, m: Moment) {
    MayOpen(s, names) && Leads(Open(s, names, timestamp), steps, m)
  }

  /** The states of a reign that was opened with this commit index. */
  ghost predicate Reachable(m: Moment, base: nat) {
    exists s, names, timestamp, steps :: ReachedFrom(s, names, timestamp, steps, m) && base == s.store.commitIndex
  }

  lemma OpenHoldsInv(s: Leader, names: seq<string>, timestamp: int)
    requires MayOpen(s, names)
    ensures Inv(Open(s, names, timestamp).leader, s.store.commitIndex, timestamp)
  {
    CommitAppliesIffOrderly(s.store);
    var c := Commit(s);
    var base := s.store.commitIndex;
    forall name ensures Settled(c.store, name) {
      LastOfIsGreatest(c.store.log, c.store.log.maximumIndex, name);
    }
    assert Core(c, base, timestamp);
    ScanKeepsInv(c, base, timestamp, names, timestamp);
  }

  lemma StepKeepsInv(m: Moment, base: nat, step: Step)
    requires Inv(m.leader, base, m.now) && Enabled(m, step)
    ensures Inv(Next(m, step).leader, base, Next(m, step).now) && m.now <= Next(m, step).now
  {
    hide Inv;
    match step
    case RequestStep(name, client, sequence, expire, timestamp) =>
      if sequence != 0 {
        RefreshBySequenceKeepsInv(m.leader, base, m.now, name, client, sequence, timestamp);
      } else {
        AcquireKeepsInv(m.leader, base, m.now, name, client, expire, timestamp);
      }
    case ReleaseStep(name, client, timestamp) => ReleaseKeepsInv(m.leader, base, m.now, name, client, timestamp);
    case ScanStep(names, timestamp) =>
      CommitKeepsInv(m.leader, base, m.now);
      InvIsCore(Commit(m.leader), base, m.now);
      ScanKeepsInv(Commit(m.leader), base, m.now, names, timestamp);
    case PutStep(key, value) => PutKeepsInv(m.leader, base, m.now, KVStore(key, value));
    case AdvanceStep(index) => AdvanceKeepsInv(m.leader, base, m.now, index);
    case ApplyStep => CommitKeepsInv(m.leader, base, m.now);
    case BackUpStep => BackUpKeepsInv(m.leader, base, m.now);
  }

  lemma {:induction false} RunKeepsInv(m1: Moment, base: nat, steps: seq<Step>, m2: Moment)
    requires Inv(m1.leader, base, m1.now) && Leads(m1, steps, m2)
    ensures Inv(m2.leader, base, m2.now)
    decreases |steps|
  {
    if steps != [] {
      StepKeepsInv(m1, base, steps[0]);
      RunKeepsInv(Next(m1, steps[0]), base, steps[1..], m2);
    }
  }

  /** The invariant holds in every reachable state of every reign. */
  lemma ReachableHoldsInv(m: Moment, base: nat)
    requires Reachable(m, base)
    ensures Inv(m.leader, base, m.now)
  {
    var s, names, timestamp, steps :| ReachedFrom(s, names, timestamp, steps, m) && base == s.store.commitIndex;
    OpenHoldsInv(s, names, timestamp);
    RunKeepsInv(Open(s, names, timestamp), base, steps, m);
  }

  lemma {:induction false} LeadsTransitive(m1: Moment, s1: seq<Step>, m2: Moment, s2: seq<Step>, m3: Moment)
    requires Leads(m1, s1, m2) && Leads(m2, s2, m3)
    ensures Leads(m1, s1 + s2, m3)
    decreases |s1|
  {
    if s1 == [] {
      assert s1 + s2 == s2;
    } else {
      LeadsTransitive(Next(m1, s1[0]), s1[1..], m2, s2, m3);
      assert (s1 + s2)[1..] == s1[1..] + s2;
    }
  }

  /** A run that goes on from a reachable state stays reachable. */
  lemma ReachableGoesOn(m1: Moment, base: nat, steps: seq<Step>, m2: Moment)
    requires Reachable(m1, base) && Leads(m1, steps, m2)
    ensures Reachable(m2, base)
  {
    var s, names, timestamp, before :| ReachedFrom(s, names, timestamp, before, m1) && base == s.store.commitIndex;
    LeadsTransitive(Open(s, names, timestamp), before, m1, steps, m2);
    assert ReachedFrom(s, names, timestamp, before + steps, m2);
  }

  // ---------------------------------------------------------------------------------------------
  // The log and the outcomes of the queues only grow
  // ---------------------------------------------------------------------------------------------

  ghost predicate Extends(s: Leader, s': Leader) {
    && Prefix(s.store.log, s'.store.log)
    && s.store.commitIndex <= s'.store.commitIndex && s.store.lastAppliedIndex <= s'.store.lastAppliedIndex
    && s.term == s'.term
    && (forall n :: n in s.pending ==> n in s'.pending && KeepsClaims(s.pending[n], s'.pending[n]))
  }

  lemma AppendLockExtends(s: Leader, info: LockInfo)
    requires WellFormed(s.store)
    ensures Extends(s, AppendLock(s, info))
  {
    AppendEffect(s.store.log, s.term, DLock(info));
  }

  lemma RefreshLockExtends(s: Leader, name: string, client: string, timestamp: int)
    requires WellFormed(s.store)
    ensures Extends(s, RefreshLock(s, name, client, timestamp).0)
  {
    hide FetchFirst, Extends, Append, BumpNonce, WellFormed;
    ExtendsItself(s);
    if name in s.pending {
      var q1 := FetchFirst(s.pending[name], false, timestamp).0;
      var (q2, info) := FetchFirst(q1, true, timestamp);
      FetchKeepsClaims(s.pending[name], false, timestamp);
      FetchKeepsClaims(q1, true, timestamp);
      KeepsClaimsTransitive(s.pending[name], q1, q2);
      QueueExtends(s, name, q1);
      QueueExtends(s, name, q2);
      if info.Some? {
        var s2 := s.(pending := s.pending[name := q2]);
        AppendLockExtends(s2, info.value);
        ExtendsTransitive(s, s2, AppendLock(s2, info.value));
      }
    }
  }

  lemma ExtendsItself(s: Leader)
    requires WellFormed(s.store)
    ensures Extends(s, s)
  {
  }

  lemma ExtendsTransitive(a: Leader, b: Leader, c: Leader)
    requires Extends(a, b) && Extends(b, c)
    ensures Extends(a, c)
  {
  }

  lemma RequestExtends(s: Leader, base: nat, now: int, name: string, client: string, sequence: nat, expire: int, timestamp: int)
    requires Inv(s, base, now)
    ensures Extends(s, AcquireService(s, name, client, sequence, expire, timestamp).0)
  {
    var c := Commit(s);
    CommitKeepsInv(s, base, now);
    assert Extends(s, c) && WellFormed(c.store);
    var s' := AcquireService(s, name, client, sequence, expire, timestamp).0;
    hide Inv, Extends;
    assert Extends(c, s') by {
      if sequence != 0 {
        RefreshBySequenceExtends(s, c, name, client, sequence, timestamp);
      } else {
        AcquireExtends(s, c, name, client, expire, timestamp);
      }
    }
    ExtendsTransitive(s, c, s');
  }

  lemma QueueExtends(s: Leader, name: string, q: Queue)
    requires WellFormed(s.store) && (name in s.pending ==> KeepsClaims(s.pending[name], q))
    ensures Extends(s, s.(pending := s.pending[name := q]))
  {
  }

  lemma RefreshBySequenceExtends(s: Leader, c: Leader, name: string, client: string, sequence: nat, timestamp: int)
    requires c == Commit(s) && WellFormed(c.store)
    ensures Extends(c, RefreshBySequence(s, name, client, sequence, timestamp).0)
  {
    if name in c.pending {
      var q1 := Abandon(c.pending[name], timestamp);
      var q := Refresh(q1, sequence, timestamp).0;
      AbandonKeepsClaims(c.pending[name], timestamp);
      RefreshKeepsClaims(q1, sequence, timestamp);
      KeepsClaimsTransitive(c.pending[name], q1, q);
      QueueExtends(c, name, q);
      var s1 := c.(pending := c.pending[name := q]);
      RefreshLockExtends(s1, name, client, timestamp);
      ExtendsTransitive(c, s1, RefreshLock(s1, name, client, timestamp).0);
    }
  }

  lemma AcquireExtends(s: Leader, c: Leader, name: string, client: string, expire: int, timestamp: int)
    requires c == Commit(s) && WellFormed(c.store)
    ensures Extends(c, Acquire(s, name, client, expire, timestamp).0)
  {
    var info := LockInfo(if name in c.store.stateMap.locks then 0 else 1, name, client, timestamp, expire);
    if name !in c.pending {
      AppendLockExtends(c.(pending := c.pending[name := NewQueue(0)]), info);
    } else {
      var q := InsertNew(c.pending[name], info, timestamp, c.acquirementExpire).0;
      InsertKeepsClaims(c.pending[name], info, timestamp, c.acquirementExpire);
      QueueExtends(c, name, q);
      var s1 := c.(pending := c.pending[name := q]);
      RefreshLockExtends(s1, name, client, timestamp);
      ExtendsTransitive(c, s1, RefreshLock(s1, name, client, timestamp).0);
      if name in c.store.stateMap.locks {
        AppendLockExtends(c, LockInfo(c.store.stateMap.locks[name].lockNonce + 1, name, client, timestamp, expire));
      }
    }
  }

  lemma {:induction false} AppendLocksExtends(s: Leader, due: seq<LockInfo>)
    requires WellFormed(s.store)
    ensures Extends(s, AppendLocks(s, due)) && WellFormed(AppendLocks(s, due).store)
    ensures AppendLocks(s, due).store.log.maximumIndex == s.store.log.maximumIndex + |due|
    ensures forall i :: 0 <= i < |due| ==> HoldsInfo(AppendLocks(s, due).store.log, s.store.log.maximumIndex + 1 + i, due[i])
  {
    if due != [] {
      AppendLocksExtends(s, due[..|due| - 1]);
      AppendLockExtends(AppendLocks(s, due[..|due| - 1]), due[|due| - 1]);
    }
  }

  lemma {:induction false} ScanLocksExtends(s: Leader, names: seq<string>, timestamp: int)
    requires WellFormed(s.store) && forall n :: n in names ==> n in s.store.stateMap.locks
    ensures Extends(s, ScanLocks(s, names, timestamp).0)
  {
    if names != [] {
      var before, name := names[..|names| - 1], names[|names| - 1];
      ScanLocksExtends(s, before, timestamp);
      var s1 := ScanLocks(s, before, timestamp).0;
      AbandonKeepsClaims(HandlerOf(s1, name), timestamp);
    }
  }

  lemma ScanExtends(s: Leader, names: seq<string>, timestamp: int)
    requires WellFormed(s.store) && forall n :: n in names ==> n in s.store.stateMap.locks
    ensures Extends(s, Scan(s, names, timestamp))
  {
    ScanLocksExtends(s, names, timestamp);
    var (s1, due) := ScanLocks(s, names, timestamp);
    AppendLocksExtends(s1, due);
    ExtendsTransitive(s, s1, AppendLocks(s1, due));
  }

  lemma CommitExtends(s: Leader, base: nat, now: int)
    requires Inv(s, base, now)
    ensures Extends(s, Commit(s)) && WellFormed(s.store) && WellFormed(Commit(s).store)
  {
    CommitKeepsInv(s, base, now);
  }

  lemma ReleaseExtends(s: Leader, base: nat, now: int, name: string, client: string, timestamp: int)
    requires Inv(s, base, now)
    ensures Extends(s, Release(s, name, client, timestamp).0)
  {
    hide Inv, Extends, CommitProcedure, AppendLock, WellFormed;
    CommitExtends(s, base, now);
    var c := Commit(s);
    if name in c.store.stateMap.locks {
      AppendLockExtends(c, ReleaseOf(c.store.stateMap.locks[name], timestamp));
      ExtendsTransitive(s, c, AppendLock(c, ReleaseOf(c.store.stateMap.locks[name], timestamp)));
    }
  }

  lemma PutExtends(s: Leader, command: Command)
    requires WellFormed(s.store)
    ensures Extends(s, AppendCommand(s, command))
  {
    AppendEffect(s.store.log, s.term, command);
  }

  lemma StepExtends(m: Moment, base: nat, step: Step)
    requires Inv(m.leader, base, m.now) && Enabled(m, step)
    ensures Extends(m.leader, Next(m, step).leader)
  {
    hide Inv, Extends, WellFormed, AcquireService, Release, Scan, AppendCommand, CommitProcedure;
    var s := m.leader;
    CommitExtends(s, base, m.now);
    match step
    case RequestStep(name, client, sequence, expire, timestamp) =>
      RequestExtends(s, base, m.now, name, client, sequence, expire, timestamp);
    case ReleaseStep(name, client, timestamp) => ReleaseExtends(s, base, m.now, name, client, timestamp);
    case ScanStep(names, timestamp) =>
      ScanExtends(Commit(s), names, timestamp);
      ExtendsTransitive(s, Commit(s), Next(m, step).leader);
    case PutStep(key, value) => PutExtends(s, KVStore(key, value));
    case AdvanceStep(index) => AdvanceExtends(s, index);
    case ApplyStep =>
    case BackUpStep => BackUpExtends(s);
  }

  lemma BackUpExtends(s: Leader)
    requires WellFormed(s.store)
    ensures Extends(s, s.(store := s.store.(lastBackupIndex := s.store.commitIndex)))
  {
  }

  lemma AdvanceExtends(s: Leader, index: nat)
    requires WellFormed(s.store) && s.store.commitIndex <= index
    ensures Extends(s, s.(store := s.store.(commitIndex := index)))
  {
  }

  /** Along a run the log is only appended to, and an outcome in a queue never changes. */
  lemma {:induction false} RunExtends(m1: Moment, base: nat, steps: seq<Step>, m2: Moment)
    requires Inv(m1.leader, base, m1.now) && Leads(m1, steps, m2)
    ensures Extends(m1.leader, m2.leader)
    decreases |steps|
  {
    if steps != [] {
      StepKeepsInv(m1, base, steps[0]);
      StepExtends(m1, base, steps[0]);
      RunExtends(Next(m1, steps[0]), base, steps[1..], m2);
      ExtendsTransitive(m1.leader, Next(m1, steps[0]).leader, m2.leader);
    }
  }
}

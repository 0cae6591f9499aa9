/** What the lock service promises, over every run of a reign. */
module ReignTheorems {
  import opened Types
  import opened LogStorage
  import opened StateMap
  import opened NodeStore
  import opened AcquirementQueue
  import opened LockService
  import opened Reign
  import opened ReignSteps
  import opened ReignScan
  import opened ReignRuns

  // ---------------------------------------------------------------------------------------------
  // Nonces
  // ---------------------------------------------------------------------------------------------

  /** The nonce a client can see: that of the state map, 0 for an unknown lock. */
  function AppliedNonce(sm: DlockMap, name: string): nat {
    if name in sm.locks then sm.locks[name].lockNonce else 0
  }

  ghost predicate InFlight(st: Store, name: string, i: nat) {
    st.lastAppliedIndex < i <= st.log.maximumIndex && LockEntry(st.log, i, name)
  }

  /** The last appended nonce is the applied one or one more; it is one more exactly when an entry of
      the lock is in flight, and then there is only that one.  For an unknown lock it is 1. */
  lemma NonceDiscipline(m: Moment, base: nat, name: string)
    requires Reachable(m, base) && name in m.leader.pending
    ensures var applied := AppliedNonce(m.leader.store.stateMap, name);
            var appended := m.leader.pending[name].lastAppendedNonce;
            && appended == applied + (if exists i :: InFlight(m.leader.store, name, i) then 1 else 0)
            && (forall i, j :: InFlight(m.leader.store, name, i) && InFlight(m.leader.store, name, j) ==> i == j)
            && (name !in m.leader.store.stateMap.locks ==> appended == 1)
  {
    ReachableHoldsInv(m, base);
    HandledHasOneInFlight(m.leader, base, m.now, name);
    SettledIffNonce(m.leader, base, m.now, name);
  }

  lemma HandledHasOneInFlight(s: Leader, base: nat, now: int, name: string)
    requires Core(s, base, now) && name in s.pending
    ensures (exists i :: InFlight(s.store, name, i)) <==> !Settled(s.store, name)
    ensures forall i, j :: InFlight(s.store, name, i) && InFlight(s.store, name, j) ==> i == j
  {
    hide Fair, Sound, Timed, Recorded;
    var st := s.store;
    assert Handled(st, base, name, s.pending[name], now);
    var last := LastOf(st.log, st.log.maximumIndex, name);
    LastOfIsGreatest(st.log, st.log.maximumIndex, name);
    if !Settled(st, name) {
      assert InFlight(st, name, last);
      LastOfIsGreatest(st.log, last - 1, name);
    }
  }

  ghost function CountEntries(log: Log, from: nat, upTo: nat, name: string): nat {
    if upTo <= from then 0 else CountEntries(log, from, upTo - 1, name) + (if LockEntry(log, upTo, name) then 1 else 0)
  }

  lemma {:induction false} NonceCounts(log: Log, base: nat, term: nat, i: nat, upTo: nat, name: string)
    requires Dense(log) && LegalFrom(log, base, term)
    requires base <= i <= upTo <= log.maximumIndex
    ensures var p, last := LastOf(log, i, name), LastOf(log, upTo, name);
            && p <= last
            && (p > 0 ==> LockEntry(log, p, name) && LockEntry(log, last, name)
                          && InfoAt(log, last).lockNonce == InfoAt(log, p).lockNonce + CountEntries(log, i, upTo, name))
            && (p == 0 && last > 0 ==> LockEntry(log, last, name) && InfoAt(log, last).lockNonce == CountEntries(log, i, upTo, name))
            && (p == 0 && last == 0 ==> CountEntries(log, i, upTo, name) == 0)
  {
    LastOfIsGreatest(log, i, name);
    LastOfIsGreatest(log, upTo, name);
    if i < upTo {
      NonceCounts(log, base, term, i, upTo - 1, name);
      LastOfIsGreatest(log, upTo - 1, name);
      assert Legal(log, upTo);
    }
  }

  /** The nonces of a lock count its entries: from any entry, also the last one before the reign, to a
      later one they grow by the number of entries in between. */
  lemma NoncesAreConsecutive(m: Moment, base: nat, name: string, i: nat, j: nat)
    requires Reachable(m, base)
    requires LockEntry(m.leader.store.log, i, name) && LockEntry(m.leader.store.log, j, name) && i < j && base < j
    requires base < i || i == LastOf(m.leader.store.log, base, name)
    ensures InfoAt(m.leader.store.log, j).lockNonce
         == InfoAt(m.leader.store.log, i).lockNonce + CountEntries(m.leader.store.log, if i < base then base else i, j, name)
    ensures InfoAt(m.leader.store.log, i).lockNonce < InfoAt(m.leader.store.log, j).lockNonce
  {
    ReachableHoldsInv(m, base);
    NoncesGrow(m.leader.store.log, base, m.leader.term, name, i, j);
  }

  lemma NoncesGrow(log: Log, base: nat, term: nat, name: string, i: nat, j: nat)
    requires Dense(log) && base <= log.maximumIndex && LegalFrom(log, base, term)
    requires LockEntry(log, i, name) && LockEntry(log, j, name) && i < j && base < j
    requires base < i || i == LastOf(log, base, name)
    ensures InfoAt(log, j).lockNonce == InfoAt(log, i).lockNonce + CountEntries(log, if i < base then base else i, j, name)
    ensures InfoAt(log, i).lockNonce < InfoAt(log, j).lockNonce
  {
    var from := if i < base then base else i;
    LastOfUnique(log, j, name, j);
    LastOfIsGreatest(log, base, name);
    LastOfUnique(log, from, name, i);
    NonceCounts(log, base, term, from, j, name);
    assert CountEntries(log, from, j, name) >= 1;
  }

  // ---------------------------------------------------------------------------------------------
  // Leases
  // ---------------------------------------------------------------------------------------------

  /** The lease granted at i is over at time t: it has run out, or the lock's very next entry is a
      release not later than t. */
  ghost predicate LeaseOver(log: Log, name: string, i: nat, t: int)
    requires LockEntry(log, i, name)
  {
    || InfoAt(log, i).timestamp + InfoAt(log, i).expire <= t
    || exists r :: ReleasedBy(log, name, i, r, t)
  }

  ghost predicate ReleasedBy(log: Log, name: string, i: nat, r: nat, t: int) {
    && i < r && LockEntry(log, r, name)
    && InfoAt(log, r).newOwner == "" && InfoAt(log, r).timestamp <= t
    && forall k :: i < k < r ==> !LockEntry(log, k, name)
  }

  lemma {:induction false} FirstAfter(log: Log, name: string, i: nat, j: nat) returns (r: nat)
    requires i < j && LockEntry(log, j, name)
    ensures i < r <= j && LockEntry(log, r, name) && forall k :: i < k < r ==> !LockEntry(log, k, name)
    decreases j
  {
    var p := LastOf(log, j - 1, name);
    LastOfIsGreatest(log, j - 1, name);
    if p <= i {
      r := j;
    } else {
      r := FirstAfter(log, name, i, p);
    }
  }

  /** Lease exclusion: when a lock is granted, the lease of every earlier holder is over.  It covers any
      two grants of the reign, adjacent or not, and the holder that the reign inherits. */
  lemma LeaseExclusion(m: Moment, base: nat, name: string, i: nat, j: nat)
    requires Reachable(m, base)
    requires LockEntry(m.leader.store.log, i, name) && LockEntry(m.leader.store.log, j, name) && i < j && base < j
    requires base < i || i == LastOf(m.leader.store.log, base, name)
    requires InfoAt(m.leader.store.log, j).newOwner != ""
    ensures LeaseOver(m.leader.store.log, name, i, InfoAt(m.leader.store.log, j).timestamp)
  {
    ReachableHoldsInv(m, base);
    LegalLogExcludes(m.leader.store.log, base, m.leader.term, m.now, name, i, j);
  }

  lemma LegalLogExcludes(log: Log, base: nat, term: nat, now: int, name: string, i: nat, j: nat)
    requires Dense(log) && LegalFrom(log, base, term) && Timed(log, base, now)
    requires LockEntry(log, i, name) && LockEntry(log, j, name) && i < j && base < j
    requires base < i || i == LastOf(log, base, name)
    requires InfoAt(log, j).newOwner != ""
    ensures LeaseOver(log, name, i, InfoAt(log, j).timestamp)
  {
    hide Timed;
    var r := FirstAfter(log, name, i, j);
    LastOfIsGreatest(log, base, name);
    LastOfUnique(log, r - 1, name, i);
    assert Legal(log, r);
    TimesGrow(log, base, now, r, j);
    if ReleaseShaped(InfoAt(log, r)) {
      assert ReleasedBy(log, name, i, r, InfoAt(log, j).timestamp);
    }
  }

  lemma TimesGrow(log: Log, base: nat, now: int, r: nat, j: nat)
    requires Timed(log, base, now) && base < r <= j && LockAt(log, r) && LockAt(log, j)
    ensures InfoAt(log, r).timestamp <= InfoAt(log, j).timestamp
  {
  }

  /** The lease that the state map shows is over, or there is none. */
  ghost predicate LeaseFree(s: Leader, name: string, timestamp: int) {
    name in s.store.stateMap.locks ==> LeaseEnd(s.store.stateMap.locks[name]) <= timestamp
  }

  /** Nothing is written, or one entry for the client, to a lock whose lease is over. */
  ghost predicate WritesWithinLease(c: Leader, s': Leader, name: string, client: string, timestamp: int) {
    || s'.store == c.store
    || (LeaseFree(c, name, timestamp) && exists nonce, e :: GrownBy(c, s', LockInfo(nonce, name, client, timestamp, e)))
  }

  lemma RequestRespectsLease(s: Leader, base: nat, now: int, name: string, client: string, sequence: nat, expire: int, timestamp: int)
    requires Inv(s, base, now) && now <= timestamp
    ensures WritesWithinLease(Commit(s), AcquireService(s, name, client, sequence, expire, timestamp).0, name, client, timestamp)
  {
    hide Inv, WritesWithinLease;
    var c := Commit(s);
    CommitKeepsInv(s, base, now);
    if sequence != 0 {
      WaitingRespectsLease(s, c, base, now, name, client, sequence, timestamp);
    } else {
      AcquireRespectsLease(s, c, base, now, name, client, expire, timestamp);
    }
  }

  lemma WaitingRespectsLease(s: Leader, c: Leader, base: nat, now: int, name: string, client: string, sequence: nat, timestamp: int)
    requires c == Commit(s) && Inv(c, base, now) && now <= timestamp
    ensures WritesWithinLease(c, RefreshBySequence(s, name, client, sequence, timestamp).0, name, client, timestamp)
  {
    hide Inv;
    if name in c.pending {
      RefreshKeepsInv(c, base, now, name, sequence, timestamp);
      var q := Refresh(Abandon(c.pending[name], timestamp), sequence, timestamp).0;
      RefreshLockRespectsLease(c.(pending := c.pending[name := q]), base, timestamp, name, client, timestamp);
    }
  }

  lemma AcquireRespectsLease(s: Leader, c: Leader, base: nat, now: int, name: string, client: string, expire: int, timestamp: int)
    requires c == Commit(s) && Inv(c, base, now) && now <= timestamp
    ensures WritesWithinLease(c, Acquire(s, name, client, expire, timestamp).0, name, client, timestamp)
  {
    hide Inv;
    if name !in c.store.stateMap.locks {
      AcquireUnknownKeepsInv(c, base, now, name, client, expire, timestamp);
    } else {
      MapIsCovered(c, base, now, name);
      var q, st := c.pending[name], c.store.stateMap.locks[name];
      if q.lastAppendedNonce == st.lockNonce && q.waiting == [] && LeaseEnd(st) < timestamp {
        assert GrownBy(c, Acquire(s, name, client, expire, timestamp).0, LockInfo(st.lockNonce + 1, name, client, timestamp, expire));
      } else {
        var info := LockInfo(0, name, client, timestamp, expire);
        InsertKeepsInv(c, base, now, info, timestamp);
        var q1 := InsertNew(q, info, timestamp, c.acquirementExpire).0;
        RefreshLockRespectsLease(c.(pending := c.pending[name := q1]), base, timestamp, name, client, timestamp);
      }
    }
  }

  lemma RefreshLockRespectsLease(s: Leader, base: nat, now: int, name: string, client: string, timestamp: int)
    requires Inv(s, base, now) && now <= timestamp
    ensures WritesWithinLease(s, RefreshLock(s, name, client, timestamp).0, name, client, timestamp)
  {
    RefreshLockKeepsInv(s, base, now, name, client, timestamp);
    var (s', r) := RefreshLock(s, name, client, timestamp);
    hide Inv;
    if r.Ok? && r.value > 0 {
      var e :| GrownBy(s, s', LockInfo(r.value, name, client, timestamp, e));
    }
  }

  /** Every release of the scan is of a lock whose lease is over. */
  lemma {:induction false} ScanRespectsLease(s: Leader, names: seq<string>, timestamp: int)
    requires forall n :: n in names ==> n in s.store.stateMap.locks
    requires forall n :: n in s.store.stateMap.locks ==> s.store.stateMap.locks[n].lockName == n
    ensures forall i :: 0 <= i < |ScanLocks(s, names, timestamp).1| ==>
              LeaseFree(s, ScanLocks(s, names, timestamp).1[i].lockName, timestamp)
              && ScanLocks(s, names, timestamp).1[i].timestamp == timestamp
  {
    if names != [] {
      ScanRespectsLease(s, names[..|names| - 1], timestamp);
    }
  }

  /** An unexpired lease ends only by its owner: a step that writes an entry to a lock before the lease
      in force is over is the release asked for by the owner of that lease. */
  lemma OnlyTheOwnerCutsALease(m: Moment, base: nat, step: Step, name: string, i: nat)
    requires Reachable(m, base) && Enabled(m, step)
    requires m.leader.store.log.maximumIndex < i && LockEntry(Next(m, step).leader.store.log, i, name)
    requires !LeaseFree(Commit(m.leader), name, InfoAt(Next(m, step).leader.store.log, i).timestamp)
    ensures step.ReleaseStep? && step.name == name
            && step.client == Commit(m.leader).store.stateMap.locks[name].owner
            && InfoAt(Next(m, step).leader.store.log, i).newOwner == ""
  {
    var s, c := m.leader, Commit(m.leader);
    ReachableHoldsInv(m, base);
    CommitKeepsInv(s, base, m.now);
    hide Inv;
    CommitKeepsLog(s);
    match step
    case RequestStep(n, client, sequence, expire, timestamp) =>
      RequestRespectsLease(s, base, m.now, n, client, sequence, expire, timestamp);
      WritesOnlyFreeLocks(c, Next(m, step).leader, n, client, timestamp, name, i);
      assert false;
    case ReleaseStep(n, client, timestamp) =>
      ReleaseKeepsInv(s, base, m.now, n, client, timestamp);
      ReleaseWritesOwn(s, base, m.now, n, client, timestamp, name, i);
    case ScanStep(names, timestamp) =>
      ScanWritesFreeLocks(c, base, m.now, names, timestamp, name, i);
      assert false;
    case PutStep(key, value) => PutWritesNoLock(s, key, value, name, i);
      assert false;
    case AdvanceStep(index) =>
    case ApplyStep =>
    case BackUpStep =>
  }

  lemma CommitKeepsLog(s: Leader)
    ensures Commit(s).store.log == s.store.log && Commit(s).pending == s.pending && Commit(s).term == s.term
  {
  }

  lemma WritesOnlyFreeLocks(c: Leader, s': Leader, n: string, client: string, timestamp: int, name: string, i: nat)
    requires Dense(c.store.log) && WritesWithinLease(c, s', n, client, timestamp)
    requires c.store.log.maximumIndex < i && LockEntry(s'.store.log, i, name)
    ensures LeaseFree(c, name, InfoAt(s'.store.log, i).timestamp)
  {
    if s'.store != c.store {
      var nonce, e :| GrownBy(c, s', LockInfo(nonce, n, client, timestamp, e));
      AppendEffect(c.store.log, c.term, DLock(LockInfo(nonce, n, client, timestamp, e)));
    }
  }

  lemma ReleaseWritesOwn(s: Leader, base: nat, now: int, n: string, client: string, timestamp: int, name: string, i: nat)
    requires Inv(Commit(s), base, now) && now <= timestamp
    requires Commit(s).store.log.maximumIndex < i && LockEntry(Release(s, n, client, timestamp).0.store.log, i, name)
    ensures n == name && n in Commit(s).store.stateMap.locks && Commit(s).store.stateMap.locks[n].owner == client
    ensures InfoAt(Release(s, n, client, timestamp).0.store.log, i).newOwner == ""
  {
    var c := Commit(s);
    if n in c.store.stateMap.locks {
      MapIsKeyedByName(c, base, now, n);
      AppendEffect(c.store.log, c.term, DLock(ReleaseOf(c.store.stateMap.locks[n], timestamp)));
    }
  }

  lemma ScanWritesFreeLocks(c: Leader, base: nat, now: int, names: seq<string>, timestamp: int, name: string, i: nat)
    requires Inv(c, base, now) && forall n :: n in names ==> n in c.store.stateMap.locks
    requires c.store.log.maximumIndex < i && LockEntry(Scan(c, names, timestamp).store.log, i, name)
    ensures LeaseFree(c, name, InfoAt(Scan(c, names, timestamp).store.log, i).timestamp)
  {
    hide Inv, ScanLocks, AppendLocks, LeaseFree, WellFormed;
    StoreIsWellFormed(c, base, now);
    forall n | n in c.store.stateMap.locks ensures c.store.stateMap.locks[n].lockName == n {
      InvIsCore(c, base, now);
      MapIsKeyedByName(c, base, now, n);
    }
    ScanRespectsLease(c, names, timestamp);
    var (s1, due) := ScanLocks(c, names, timestamp);
    AppendedIsDue(c.store.log.maximumIndex, s1, due, name, i);
  }

  lemma StoreIsWellFormed(s: Leader, base: nat, now: int)
    requires Inv(s, base, now)
    ensures WellFormed(s.store)
  {
  }

  /** A lock entry behind the old end of the log is one of those that were appended. */
  lemma AppendedIsDue(max: nat, s: Leader, due: seq<LockInfo>, name: string, i: nat)
    requires WellFormed(s.store) && max == s.store.log.maximumIndex < i && LockEntry(AppendLocks(s, due).store.log, i, name)
    ensures i - max - 1 < |due| && due[i - max - 1].lockName == name
    ensures InfoAt(AppendLocks(s, due).store.log, i) == due[i - max - 1]
  {
    hide AppendLocks, Extends;
    AppendLocksExtends(s, due);
    var k := i - max - 1;
    assert HoldsInfo(AppendLocks(s, due).store.log, max + 1 + k, due[k]);
  }

  lemma PutWritesNoLock(s: Leader, key: string, value: Option<seq<byte>>, name: string, i: nat)
    requires Dense(s.store.log) && s.store.log.maximumIndex < i
    ensures !LockEntry(AppendCommand(s, KVStore(key, value)).store.log, i, name)
  {
    AppendEffect(s.store.log, s.term, KVStore(key, value));
  }

  // ---------------------------------------------------------------------------------------------
  // The queue
  // ---------------------------------------------------------------------------------------------

  /** First in, first out: when sequence number j + 1 was granted, every smaller one had been granted by
      an earlier entry of the log or abandoned after it had expired, no later than the grant. */
  lemma FifoFairness(m: Moment, base: nat, name: string, i: nat, j: nat) returns (a: nat, b: nat)
    requires Reachable(m, base) && name in m.leader.pending
    requires i < j < |m.leader.pending[name].done| && m.leader.pending[name].done[j].Granted?
    ensures var log, done := m.leader.store.log, m.leader.pending[name].done;
            && base < b && HoldsInfo(log, b, GrantInfo(name, done[j]))
            && !Expired(done[j].who, done[j].at)
            && done[i].at <= done[j].at
            && match done[i]
               case Granted(_, _, _) => base < a < b && HoldsInfo(log, a, GrantInfo(name, done[i]))
               case Abandoned(who, at) => Expired(who, at)
  {
    ReachableHoldsInv(m, base);
    var log, q := m.leader.store.log, m.leader.pending[name];
    assert Handled(m.leader.store, base, name, q, m.now);
    b := QueueGrantEntry(m.leader, base, m.now, name, j);
    a := 0;
    if q.done[i].Granted? {
      a := QueueGrantEntry(m.leader, base, m.now, name, i);
      GrantsAreOrdered(m.leader, base, m.now, name, a, b);
    }
  }

  lemma QueueGrantEntry(s: Leader, base: nat, now: int, name: string, j: nat) returns (b: nat)
    requires Core(s, base, now) && name in s.pending && j < |s.pending[name].done| && s.pending[name].done[j].Granted?
    ensures base < b && HoldsInfo(s.store.log, b, GrantInfo(name, s.pending[name].done[j]))
  {
    hide Fair, Sound, Timed;
    var q := s.pending[name];
    assert Handled(s.store, base, name, q, now);
    assert q.done[j] in q.done;
    assert Recorded(s.store.log, base, GrantInfo(name, q.done[j]));
    b :| base < b <= s.store.log.maximumIndex && HoldsInfo(s.store.log, b, GrantInfo(name, q.done[j]));
  }

  lemma GrantsAreOrdered(s: Leader, base: nat, now: int, name: string, a: nat, b: nat)
    requires Core(s, base, now) && base < a && base < b
    requires LockEntry(s.store.log, a, name) && LockEntry(s.store.log, b, name)
    requires InfoAt(s.store.log, a).lockNonce < InfoAt(s.store.log, b).lockNonce
    ensures a < b
  {
    hide Handlers, Timed;
    if b < a {
      NoncesGrow(s.store.log, base, s.term, name, b, a);
    }
  }

  /** Nobody overtakes: a request that is granted a lock on which somebody is still waiting is granted to
      the one who has waited longest. */
  lemma NobodyOvertakes(m: Moment, base: nat, step: Step)
    requires Reachable(m, base) && step.RequestStep? && Enabled(m, step)
    requires step.name in m.leader.pending && Abandon(m.leader.pending[step.name], step.timestamp).waiting != []
    requires Next(m, step).leader.store.log != m.leader.store.log
    ensures step.client == Abandon(m.leader.pending[step.name], step.timestamp).waiting[0].acquirer
  {
    hide Reachable, Inv, Abandon, CommitProcedure, RefreshBySequence, Acquire;
    ReachableHoldsInv(m, base);
    CommitKeepsInv(m.leader, base, m.now);
    CommitKeepsLog(m.leader);
    if step.sequence != 0 {
      WaitersDoNotOvertake(m.leader, Commit(m.leader), base, m.now, step.name, step.client, step.sequence, step.timestamp);
    } else {
      NewcomersDoNotOvertake(m.leader, Commit(m.leader), base, m.now, step.name, step.client, step.expire, step.timestamp);
    }
  }

  lemma WaitersDoNotOvertake(s: Leader, c: Leader, base: nat, now: int, name: string, client: string, sequence: nat, timestamp: int)
    requires c == Commit(s) && Inv(c, base, now) && now <= timestamp
    requires name in c.pending && Abandon(c.pending[name], timestamp).waiting != []
    requires RefreshBySequence(s, name, client, sequence, timestamp).0.store.log != c.store.log
    ensures client == Abandon(c.pending[name], timestamp).waiting[0].acquirer
  {
    var q := c.pending[name];
    assert Handled(c.store, base, name, q, now);
    hide Inv;
    AbandonKeepsFair(q, name, now, timestamp);
    RefreshKeepsFair(Abandon(q, timestamp), sequence, name, timestamp, timestamp);
    RefreshKeepsFirst(q, sequence, timestamp);
    var q1 := Refresh(Abandon(q, timestamp), sequence, timestamp).0;
    hide History, Abandon;
    GrantGoesToFirst(c.(pending := c.pending[name := q1]), name, client, timestamp);
  }

  lemma RefreshKeepsFirst(q: Queue, sequence: nat, timestamp: int)
    requires Abandon(q, timestamp).waiting != []
    ensures var r := Refresh(Abandon(q, timestamp), sequence, timestamp).0;
            && r.waiting != [] && r.waiting[0].acquirer == Abandon(q, timestamp).waiting[0].acquirer
            && !Expired(r.waiting[0], timestamp)
  {
    var k := AbandonDropsExpiredPrefix(q, timestamp);
    AbandonIdempotent(q, timestamp);
  }

  lemma NewcomersDoNotOvertake(s: Leader, c: Leader, base: nat, now: int, name: string, client: string, expire: int, timestamp: int)
    requires c == Commit(s) && Inv(c, base, now) && now <= timestamp
    requires name in c.pending && Abandon(c.pending[name], timestamp).waiting != []
    requires Acquire(s, name, client, expire, timestamp).0.store.log != c.store.log
    ensures client == Abandon(c.pending[name], timestamp).waiting[0].acquirer
  {
    var q := c.pending[name];
    assert Handled(c.store, base, name, q, now);
    hide Inv;
    var k := AbandonDropsExpiredPrefix(q, timestamp);
    if name in c.store.stateMap.locks {
      var info := LockInfo(0, name, client, timestamp, expire);
      InsertKeepsFair(q, info, c.acquirementExpire, now, timestamp);
      var q1 := InsertNew(q, info, timestamp, c.acquirementExpire).0;
      assert q1.waiting[0] == Abandon(q, timestamp).waiting[0];
      GrantGoesToFirst(c.(pending := c.pending[name := q1]), name, client, timestamp);
    }
  }

  lemma GrantGoesToFirst(s: Leader, name: string, client: string, timestamp: int)
    requires name in s.pending && Addressed(s.pending[name].waiting, name) && s.pending[name].waiting != []
    requires !Expired(s.pending[name].waiting[0], timestamp)
    requires RefreshLock(s, name, client, timestamp).0.store.log != s.store.log
    ensures client == s.pending[name].waiting[0].acquirer
  {
  }

  // ---------------------------------------------------------------------------------------------
  // Receipts
  // ---------------------------------------------------------------------------------------------

  lemma ReceiptIsApplied(m: Moment, base: nat, name: string, i: nat)
    requires Inv(m.leader, base, m.now) && base < i && LockEntry(m.leader.store.log, i, name)
    requires AppliedNonce(m.leader.store.stateMap, name) >= InfoAt(m.leader.store.log, i).lockNonce > 0
    ensures i <= m.leader.store.lastAppliedIndex
  {
    var st := m.leader.store;
    assert DescribesLock(st.stateMap, st.log, st.lastAppliedIndex, name);
    LastOfIsGreatest(st.log, st.lastAppliedIndex, name);
    var p := LastOf(st.log, st.lastAppliedIndex, name);
    if st.lastAppliedIndex < i {
      if p <= base {
        LastOfIsGreatest(st.log, base, name);
        LastOfUnique(st.log, base, name, p);
      }
      NoncesGrow(st.log, base, m.leader.term, name, p, i);
    }
  }

  // ---------------------------------------------------------------------------------------------
  // Answers
  // ---------------------------------------------------------------------------------------------

  /** In a reign the services always have an answer: acquiring and releasing never fail, and a waiting
      client is refused only for its sequence number, its expiry, or a lock that is not applied yet. */
  lemma ServicesAnswer(m: Moment, base: nat, name: string, client: string, sequence: nat, expire: int, timestamp: int)
    requires Reachable(m, base) && m.now <= timestamp
    ensures Acquire(m.leader, name, client, expire, timestamp).1.Ok?
    ensures Release(m.leader, name, client, timestamp).1.Ok?
    ensures match RefreshBySequence(m.leader, name, client, sequence, timestamp).1
            case Ok(_) => true
            case Err(e) => || e == QueueError(InvalidSequenceError) || e == QueueError(ExpireError)
                           || (e == LockFetchError && name !in Commit(m.leader).store.stateMap.locks)
  {
    ReachableHoldsInv(m, base);
    hide Inv;
    AcquireKeepsInv(m.leader, base, m.now, name, client, expire, timestamp);
    ReleaseKeepsInv(m.leader, base, m.now, name, client, timestamp);
    WaitingErrors(m.leader, name, client, sequence, timestamp);
  }

  lemma WaitingErrors(s: Leader, name: string, client: string, sequence: nat, timestamp: int)
    ensures match RefreshBySequence(s, name, client, sequence, timestamp).1
            case Ok(_) => true
            case Err(e) => || e == QueueError(InvalidSequenceError) || e == QueueError(ExpireError)
                           || (e == LockFetchError && name !in Commit(s).store.stateMap.locks)
  {
  }

  /** What a release answers, in terms of the log alone. */
  lemma ReleaseAnswers(m: Moment, base: nat, name: string, applicant: string, timestamp: int)
    requires Reachable(m, base) && m.now <= timestamp
    ensures var st := Commit(m.leader).store;
            var answer := Release(m.leader, name, applicant, timestamp).1;
            var last := (LastOfIsGreatest(st.log, st.commitIndex, name); LastOf(st.log, st.commitIndex, name));
            && answer.Ok?
            && (answer.value.0 == NoDLockExist <==> LastOf(st.log, st.log.maximumIndex, name) == 0)
            && (answer.value.0 == AlreadyReleased <==> last > 0 && InfoAt(st.log, last).newOwner != applicant)
            && (answer.value.0 == TriggerReleaseLater <==>
                  (last > 0 ==> InfoAt(st.log, last).newOwner == applicant) && exists i :: InFlight(st, name, i))
  {
    ReachableHoldsInv(m, base);
    CommitKeepsInv(m.leader, base, m.now);
    var c := Commit(m.leader);
    var st := c.store;
    LastOfIsGreatest(st.log, st.commitIndex, name);
    LastOfIsGreatest(st.log, st.log.maximumIndex, name);
    if name in c.pending {
      SettledIffNonce(c, base, m.now, name);
      assert Handled(st, base, name, c.pending[name], m.now);
    }
    if !Settled(st, name) {
      assert InFlight(st, name, LastOf(st.log, st.log.maximumIndex, name));
    }
    if name in st.stateMap.locks {
      assert DescribesLock(st.stateMap, st.log, st.lastAppliedIndex, name);
    }
  }

  /** Applying never sticks: in every reachable state the state map is the replay of the log, in one
      piece, up to the applied index. */
  lemma AppliedIsReplay(m: Moment, base: nat)
    requires Reachable(m, base) && m.leader.store.lastAppliedIndex > 0
    ensures UpdateFromLog(EMPTY_MAP, m.leader.store.log, 1, m.leader.store.lastAppliedIndex) == (m.leader.store.stateMap, Updated)
    ensures m.leader.store.stateMap.prevIndex == m.leader.store.lastAppliedIndex
  {
    ReachableHoldsInv(m, base);
    var st := m.leader.store;
    ReplayIsLastWrite(st.log, st.lastAppliedIndex);
    DescribesUnique(st.stateMap, st.log, UpdateFromLog(EMPTY_MAP, st.log, 1, st.lastAppliedIndex).0, st.log, st.lastAppliedIndex);
  }
}

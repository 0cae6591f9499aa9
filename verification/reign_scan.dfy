/** The scan that releases expired locks, which also opens a reign. */
module ReignScan {
  import opened Types
  import opened LogStorage
  import opened StateMap
  import opened NodeStore
  import opened AcquirementQueue
  import opened LockService
  import opened Reign
  import opened ReignSteps

  ghost predicate NoDuplicates(names: seq<string>) {
    forall i, j :: 0 <= i < j < |names| ==> names[i] != names[j]
  }

  /** The names of the scan: every lock of the state map once, in any order. */
  ghost predicate Enumerates(names: seq<string>, locks: map<string, DlockState>) {
    NoDuplicates(names) && forall n :: n in names <==> n in locks
  }

  /** The collected releases are due, each for a lock of its own. */
  ghost predicate AllDue(s: Leader, due: seq<LockInfo>, timestamp: int) {
    && (forall i, j :: 0 <= i < j < |due| ==> due[i].lockName != due[j].lockName)
    && (forall i :: 0 <= i < |due| ==> Due(s, due[i]) && ReleaseShaped(due[i]) && due[i].timestamp == timestamp)
  }

  lemma NewHandlerKeepsCore(s: Leader, base: nat, now: int, name: string)
    requires Core(s, base, now) && name !in s.pending && name in s.store.stateMap.locks
    ensures Core(s.(pending := s.pending[name := NewQueue(s.store.stateMap.locks[name].lockNonce)]), base, now)
  {
    LastOfIsGreatest(s.store.log, s.store.lastAppliedIndex, name);
    assert DescribesLock(s.store.stateMap, s.store.log, s.store.lastAppliedIndex, name);
    assert Settled(s.store, name);
    var last := LastOf(s.store.log, s.store.log.maximumIndex, name);
    LastOfIsGreatest(s.store.log, s.store.log.maximumIndex, name);
    LastOfUnique(s.store.log, s.store.lastAppliedIndex, name, last);
    assert Handled(s.store, base, name, NewQueue(s.store.stateMap.locks[name].lockNonce), now);
  }

  lemma AbandonKeepsCore(s: Leader, base: nat, now: int, name: string, timestamp: int)
    requires Core(s, base, now) && now <= timestamp && name in s.pending
    ensures Core(s.(pending := s.pending[name := Abandon(s.pending[name], timestamp)]), base, timestamp)
  {
    assert Handled(s.store, base, name, s.pending[name], now);
    AbandonKeepsFair(s.pending[name], name, now, timestamp);
    AbandonGrantsNobody(s.pending[name], timestamp);
    QueueKeepsCore(s, base, now, timestamp, name, Abandon(s.pending[name], timestamp));
  }

  lemma ScanOneKeepsCore(s: Leader, base: nat, now: int, name: string, timestamp: int)
    requires Core(s, base, now) && now <= timestamp && name in s.store.stateMap.locks
    ensures var (s', due) := ScanOne(s, name, timestamp);
            && Core(s', base, timestamp)
            && name in s'.pending && s'.pending.Keys == s.pending.Keys + {name}
            && (forall n :: n in s.pending && n != name ==> s'.pending[n] == s.pending[n])
            && AllDue(s', due, timestamp) && (forall i :: 0 <= i < |due| ==> due[i].lockName == name)
  {
    hide Core, Abandon;
    MapIsKeyedByName(s, base, now, name);
    var q := Abandon(HandlerOf(s, name), timestamp);
    if name in s.pending {
      AbandonKeepsCore(s, base, now, name, timestamp);
    } else {
      NewHandlerKeepsCore(s, base, now, name);
      var s1 := s.(pending := s.pending[name := HandlerOf(s, name)]);
      AbandonKeepsCore(s1, base, now, name, timestamp);
      assert s1.pending[name := q] == s.pending[name := q];
    }
  }

  lemma MapIsKeyedByName(s: Leader, base: nat, now: int, name: string)
    requires Core(s, base, now) && name in s.store.stateMap.locks
    ensures s.store.stateMap.locks[name].lockName == name
  {
    assert DescribesLock(s.store.stateMap, s.store.log, s.store.lastAppliedIndex, name);
    LastOfIsGreatest(s.store.log, s.store.lastAppliedIndex, name);
  }

  lemma NothingDue(s: Leader, timestamp: int)
    ensures AllDue(s, [], timestamp)
  {
  }

  lemma ScanOneKeepsStore(s: Leader, name: string, timestamp: int)
    requires name in s.store.stateMap.locks
    ensures ScanOne(s, name, timestamp).0.store == s.store
  {
  }

  /** The releases that were due before the visit of another lock stay due. */
  lemma DueJoins(s1: Leader, s2: Leader, due: seq<LockInfo>, more: seq<LockInfo>, name: string, timestamp: int)
    requires AllDue(s1, due, timestamp) && AllDue(s2, more, timestamp) && s2.store == s1.store
    requires forall i :: 0 <= i < |due| ==> due[i].lockName != name
    requires forall i :: 0 <= i < |more| ==> more[i].lockName == name
    requires s1.pending.Keys <= s2.pending.Keys && forall n :: n in s1.pending && n != name ==> s2.pending[n] == s1.pending[n]
    ensures AllDue(s2, due + more, timestamp)
  {
    forall i | 0 <= i < |due| ensures Due(s2, due[i]) {
      assert Due(s1, due[i]);
    }
  }

  lemma {:induction false} ScanLocksKeepsCore(s: Leader, base: nat, now: int, names: seq<string>, timestamp: int)
    requires Core(s, base, now) && now <= timestamp && NoDuplicates(names)
    requires forall n :: n in names ==> n in s.store.stateMap.locks
    ensures var (s', due) := ScanLocks(s, names, timestamp);
            && Core(s', base, timestamp)
            && (forall n :: n in names ==> n in s'.pending) && s.pending.Keys <= s'.pending.Keys
            && AllDue(s', due, timestamp) && (forall i :: 0 <= i < |due| ==> due[i].lockName in names)
  {
    hide Core, ScanOne, AllDue;
    if names == [] {
      NothingDue(s, timestamp);
      LaterKeepsCore(s, base, now, timestamp);
    } else {
      var before, name := names[..|names| - 1], names[|names| - 1];
      assert name !in before;
      ScanLocksKeepsCore(s, base, now, before, timestamp);
      var (s1, due) := ScanLocks(s, before, timestamp);
      var (s2, more) := ScanOne(s1, name, timestamp);
      ScanOneKeepsCore(s1, base, timestamp, name, timestamp);
      ScanOneKeepsStore(s1, name, timestamp);
      assert forall i :: 0 <= i < |due| ==> due[i].lockName in before;
      DueJoins(s1, s2, due, more, name, timestamp);
      assert names == before + [name];
    }
  }

  /** After visiting every lock of the map, every lock with an entry has a queue. */
  lemma ScanCovers(s: Leader, base: nat, now: int)
    requires Core(s, base, now) && forall n :: n in s.store.stateMap.locks ==> n in s.pending
    ensures Inv(s, base, now)
  {
    forall name | LastOf(s.store.log, s.store.log.maximumIndex, name) > 0 ensures name in s.pending {
      if name !in s.pending {
        assert Settled(s.store, name);
        LastOfIsGreatest(s.store.log, s.store.log.maximumIndex, name);
        LastOfUnique(s.store.log, s.store.lastAppliedIndex, name, LastOf(s.store.log, s.store.log.maximumIndex, name));
        assert false;
      }
    }
  }

  lemma {:induction false} AppendLocksKeepsInv(s: Leader, base: nat, timestamp: int, due: seq<LockInfo>)
    requires Inv(s, base, timestamp) && AllDue(s, due, timestamp)
    ensures var s' := AppendLocks(s, due);
            && Inv(s', base, timestamp)
            && s'.store.stateMap == s.store.stateMap && s'.store.lastAppliedIndex == s.store.lastAppliedIndex
            && s'.store.commitIndex == s.store.commitIndex && s'.term == s.term
            && s'.pending.Keys == s.pending.Keys
            && (forall n :: n in s.pending && (forall i :: 0 <= i < |due| ==> due[i].lockName != n) ==> s'.pending[n] == s.pending[n])
  {
    hide Inv;
    if due != [] {
      var before, info := due[..|due| - 1], due[|due| - 1];
      AppendLocksKeepsInv(s, base, timestamp, before);
      var s1 := AppendLocks(s, before);
      assert Due(s, info) && s1.pending[info.lockName] == s.pending[info.lockName];
      DirectAppendKeepsInv(s1, base, timestamp, info);
    }
  }

  lemma ScanKeepsInv(s: Leader, base: nat, now: int, names: seq<string>, timestamp: int)
    requires Core(s, base, now) && now <= timestamp && Enumerates(names, s.store.stateMap.locks)
    ensures Inv(Scan(s, names, timestamp), base, timestamp)
  {
    hide Core;
    ScanLocksKeepsCore(s, base, now, names, timestamp);
    var (s1, due) := ScanLocks(s, names, timestamp);
    ScanCovers(s1, base, timestamp);
    AppendLocksKeepsInv(s1, base, timestamp, due);
  }
}

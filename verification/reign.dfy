/** One reign: the states of a leader from its election on, and the invariant they all keep.

    A reign begins when all lock entries of the log are committed and applied; `base` is the commit index at
    that time, and `now` the time of the latest request. */
module Reign {
  import opened Types
  import opened LogStorage
  import opened StateMap
  import opened NodeStore
  import opened AcquirementQueue
  import opened LockService

  // ---------------------------------------------------------------------------------------------
  // The invariant
  // ---------------------------------------------------------------------------------------------

  ghost predicate ReleaseShaped(info: LockInfo) {
    info.newOwner == "" && info.expire == 0
  }

  /** An entry may follow the lock's previous entry: it takes the next nonce, and unless it is a
      release, the previous lease is over. */
  ghost predicate Follows(previous: LockInfo, info: LockInfo) {
    && info.lockNonce == previous.lockNonce + 1
    && (ReleaseShaped(info) || previous.timestamp + previous.expire <= info.timestamp)
  }

  /** The lock entry at i follows the lock's entry before it, or is the lock's first with nonce 1. */
  ghost predicate Legal(log: Log, i: nat)
    requires i in log.entries && i > 0
  {
    log.entries[i].command.DLock? ==>
      var info := InfoAt(log, i);
      var p := LastOf(log, i - 1, info.lockName);
      LastOfIsGreatest(log, i - 1, info.lockName);
      if p == 0 then info.lockNonce == 1 else Follows(InfoAt(log, p), info)
  }

  ghost predicate LegalFrom(log: Log, base: nat, term: nat)
    requires Dense(log)
  {
    forall i :: base < i <= log.maximumIndex ==>
      (log.entries[i].command.DLock? ==> log.entries[i].term == term) && Legal(log, i)
  }

  ghost predicate LockAt(log: Log, i: nat) {
    i in log.entries && log.entries[i].command.DLock?
  }

  /** The lock entries of the reign carry non-decreasing times, none later than now. */
  ghost predicate Timed(log: Log, base: nat, now: int) {
    && (forall i :: base < i && LockAt(log, i) ==> InfoAt(log, i).timestamp <= now)
    && (forall i, j :: base < i < j && LockAt(log, i) && LockAt(log, j) ==> InfoAt(log, i).timestamp <= InfoAt(log, j).timestamp)
  }

  /** The store of a leader: faithful, orderly to its end, all of base applied. */
  ghost predicate Sound(s: Leader, base: nat) {
    && Faithful(s.store)
    && base <= s.store.lastAppliedIndex
    && Orderly(s.store.log, s.store.log.maximumIndex)
    && (s.store.log.maximumIndex > 0 ==> s.store.log.entries[s.store.log.maximumIndex].term <= s.term)
    && LegalFrom(s.store.log, base, s.term)
  }

  /** The info that a queue grant leaves in the log. */
  ghost function GrantInfo(name: string, o: AcquirementQueue.Outcome): LockInfo
    requires o.Granted?
  {
    LockInfo(o.nonce, name, o.who.acquirer, o.at, o.who.command.expire)
  }

  ghost predicate HoldsInfo(log: Log, i: nat, info: LockInfo) {
    i in log.entries && log.entries[i].command == DLock(info)
  }

  ghost predicate Recorded(log: Log, base: nat, info: LockInfo) {
    exists i :: base < i <= log.maximumIndex && HoldsInfo(log, i, info)
  }

  /** No entry of the lock is waiting to be applied. */
  ghost predicate Settled(st: Store, name: string) {
    LastOf(st.log, st.log.maximumIndex, name) <= st.lastAppliedIndex
  }

  /** At most one entry of the lock is waiting to be applied. */
  ghost predicate AlmostSettled(st: Store, name: string) {
    var last := LastOf(st.log, st.log.maximumIndex, name);
    last <= st.lastAppliedIndex || LastOf(st.log, last - 1, name) <= st.lastAppliedIndex
  }

  /** The queue of a lock and its last entry agree on the nonce, at most one entry is in flight, and
      every grant of the queue is in the log. */
  ghost predicate Handled(st: Store, base: nat, name: string, q: Queue, now: int) {
    var last := LastOf(st.log, st.log.maximumIndex, name);
    LastOfIsGreatest(st.log, st.log.maximumIndex, name);
    && last > 0
    && q.lastAppendedNonce == InfoAt(st.log, last).lockNonce
    && AlmostSettled(st, name)
    && Fair(q, name, now)
    && (forall o :: o in q.done && o.Granted? ==> Recorded(st.log, base, GrantInfo(name, o)))
  }

  ghost predicate Handlers(s: Leader, base: nat, now: int) {
    && (forall name :: name in s.pending ==> Handled(s.store, base, name, s.pending[name], now))
    && (forall name :: name !in s.pending ==> Settled(s.store, name))
  }

  /** The invariant without its last part, as it holds while the first scan is still under way. */
  ghost predicate Core(s: Leader, base: nat, now: int) {
    Sound(s, base) && Timed(s.store.log, base, now) && Handlers(s, base, now)
  }

  /** Every lock that ever had an entry has a queue. */
  ghost predicate Covered(s: Leader) {
    forall name :: LastOf(s.store.log, s.store.log.maximumIndex, name) > 0 ==> name in s.pending
  }

  ghost predicate Inv(s: Leader, base: nat, now: int) {
    Core(s, base, now) && Covered(s)
  }

  lemma InvIsCore(s: Leader, base: nat, now: int)
    requires Inv(s, base, now)
    ensures Core(s, base, now)
  {
  }

  /** What the invariant says about one queue. */
  lemma QueueOf(s: Leader, base: nat, now: int, name: string)
    requires Core(s, base, now) && name in s.pending
    ensures var q := s.pending[name];
            Fair(q, name, now) && forall o :: o in q.done && o.Granted? ==> Recorded(s.store.log, base, GrantInfo(name, o))
  {
    assert Handled(s.store, base, name, s.pending[name], now);
  }

  // ---------------------------------------------------------------------------------------------
  // What an append does
  // ---------------------------------------------------------------------------------------------

  lemma AppendEffect(log: Log, term: nat, command: Command)
    requires Dense(log)
    ensures var r := Append(log, term, command);
            && Dense(r) && r.maximumIndex == log.maximumIndex + 1
            && r.entries[r.maximumIndex] == Entry(term, r.maximumIndex, command)
            && Agree(log, r, log.maximumIndex) && Prefix(log, r)
  {
  }

  lemma LastOfAppend(log: Log, term: nat, command: Command, name: string)
    requires Dense(log)
    ensures var r := Append(log, term, command);
            && (forall k: nat :: k <= log.maximumIndex ==> LastOf(r, k, name) == LastOf(log, k, name))
            && LastOf(r, r.maximumIndex, name)
               == if command.DLock? && command.info.lockName == name then r.maximumIndex
                  else LastOf(log, log.maximumIndex, name)
  {
    var r := Append(log, term, command);
    forall k: nat | k <= log.maximumIndex ensures LastOf(r, k, name) == LastOf(log, k, name) {
      LastOfAgree(log, r, k, name);
    }
  }

  lemma LegalAgree(a: Log, b: Log, i: nat)
    requires Dense(a) && Dense(b) && 0 < i <= a.maximumIndex && i <= b.maximumIndex && Agree(a, b, i)
    requires Legal(a, i)
    ensures Legal(b, i)
  {
    if a.entries[i].command.DLock? {
      LastOfAgree(a, b, i - 1, InfoAt(a, i).lockName);
      LastOfIsGreatest(a, i - 1, InfoAt(a, i).lockName);
    }
  }

  /** What a new last entry must satisfy. */
  ghost predicate MayAppend(s: Leader, command: Command)
    requires Dense(s.store.log)
  {
    command.DLock? ==>
      var name := command.info.lockName;
      var p := LastOf(s.store.log, s.store.log.maximumIndex, name);
      LastOfIsGreatest(s.store.log, s.store.log.maximumIndex, name);
      if p == 0 then command.info.lockNonce == 1 else Follows(InfoAt(s.store.log, p), command.info)
  }

  lemma AppendKeepsSound(s: Leader, base: nat, command: Command)
    requires Sound(s, base) && MayAppend(s, command)
    ensures Sound(AppendCommand(s, command), base)
  {
    var log := s.store.log;
    var r := Append(log, s.term, command);
    AppendEffect(log, s.term, command);
    DescribesAgree(s.store.stateMap, log, r, s.store.lastAppliedIndex);
    OrderlyAgree(log, r, log.maximumIndex);
    assert OrderlyAt(r, r.maximumIndex) && Legal(r, r.maximumIndex) by {
      if command.DLock? {
        LastOfAppend(log, s.term, command, command.info.lockName);
        LastOfIsGreatest(log, log.maximumIndex, command.info.lockName);
      }
    }
    forall i | base < i <= r.maximumIndex ensures (r.entries[i].command.DLock? ==> r.entries[i].term == s.term) && Legal(r, i) {
      if i <= log.maximumIndex {
        LegalAgree(log, r, i);
      }
    }
    assert Orderly(r, r.maximumIndex);
  }

  lemma AppendKeepsTimed(s: Leader, base: nat, now: int, later: int, command: Command)
    requires Dense(s.store.log) && Timed(s.store.log, base, now) && now <= later
    requires command.DLock? ==> command.info.timestamp == later
    ensures Timed(AppendCommand(s, command).store.log, base, later)
  {
    var log, r := s.store.log, AppendCommand(s, command).store.log;
    AppendEffect(log, s.term, command);
    assert forall i: nat :: LockAt(r, i) && i <= log.maximumIndex ==> LockAt(log, i);
  }

  lemma RecordedGrows(a: Log, b: Log, base: nat, info: LockInfo)
    requires Dense(a) && Prefix(a, b) && Recorded(a, base, info)
    ensures Recorded(b, base, info)
  {
    var i :| base < i <= a.maximumIndex && HoldsInfo(a, i, info);
    assert HoldsInfo(b, i, info);
  }

  /** A queue stays handled when an entry of another lock, or no lock, is appended. */
  lemma AppendKeepsHandled(st: Store, base: nat, name: string, q: Queue, now: int, later: int, term: nat, command: Command)
    requires WellFormed(st) && Handled(st, base, name, q, now) && now <= later
    requires !(command.DLock? && command.info.lockName == name)
    ensures Handled(st.(log := Append(st.log, term, command)), base, name, q, later)
  {
    var r := Append(st.log, term, command);
    AppendEffect(st.log, term, command);
    LastOfAppend(st.log, term, command, name);
    LastOfIsGreatest(st.log, st.log.maximumIndex, name);
    forall o | o in q.done && o.Granted? ensures Recorded(r, base, GrantInfo(name, o)) {
      RecordedGrows(st.log, r, base, GrantInfo(name, o));
    }
  }

  lemma AppendKeepsSettled(st: Store, name: string, term: nat, command: Command)
    requires WellFormed(st) && Settled(st, name)
    requires !(command.DLock? && command.info.lockName == name)
    ensures Settled(st.(log := Append(st.log, term, command)), name)
  {
    LastOfAppend(st.log, term, command, name);
  }

  lemma LaterKeepsHandled(st: Store, base: nat, name: string, q: Queue, now: int, later: int)
    requires Handled(st, base, name, q, now) && now <= later
    ensures Handled(st, base, name, q, later)
  {
  }

  lemma LaterKeepsCore(s: Leader, base: nat, now: int, later: int)
    requires Core(s, base, now) && now <= later
    ensures Core(s, base, later)
  {
    forall name | name in s.pending ensures Handled(s.store, base, name, s.pending[name], later) {
      LaterKeepsHandled(s.store, base, name, s.pending[name], now, later);
    }
  }

  /** The five append paths meet here: a settled lock takes an entry that may follow, and its queue
      moves to the entry's nonce, with at most the one grant that the entry records. */
  lemma AppendKeepsCore(s: Leader, base: nat, now: int, info: LockInfo, q: Queue)
    requires Core(s, base, now) && now <= info.timestamp
    requires MayAppend(s, DLock(info)) && Settled(s.store, info.lockName)
    requires q.lastAppendedNonce == info.lockNonce && Fair(q, info.lockName, info.timestamp)
    requires forall o :: o in q.done && o.Granted? ==>
               GrantInfo(info.lockName, o) == info || Recorded(s.store.log, base, GrantInfo(info.lockName, o))
    ensures Core(AppendCommand(s, DLock(info)).(pending := s.pending[info.lockName := q]), base, info.timestamp)
  {
    var command := DLock(info);
    var s' := AppendCommand(s, command).(pending := s.pending[info.lockName := q]);
    AppendKeepsSound(s, base, command);
    AppendKeepsTimed(s, base, now, info.timestamp, command);
    AppendEffect(s.store.log, s.term, command);
    forall name | name in s'.pending ensures Handled(s'.store, base, name, s'.pending[name], info.timestamp) {
      if name == info.lockName {
        AppendedIsHandled(s, base, info, q);
      } else {
        AppendKeepsHandled(s.store, base, name, s.pending[name], now, info.timestamp, s.term, command);
      }
    }
    forall name | name !in s'.pending ensures Settled(s'.store, name) {
      AppendKeepsSettled(s.store, name, s.term, command);
    }
  }

  lemma AppendedIsHandled(s: Leader, base: nat, info: LockInfo, q: Queue)
    requires Sound(s, base) && Settled(s.store, info.lockName)
    requires q.lastAppendedNonce == info.lockNonce && Fair(q, info.lockName, info.timestamp)
    requires forall o :: o in q.done && o.Granted? ==>
               GrantInfo(info.lockName, o) == info || Recorded(s.store.log, base, GrantInfo(info.lockName, o))
    ensures Handled(AppendCommand(s, DLock(info)).store, base, info.lockName, q, info.timestamp)
  {
    var log := s.store.log;
    var r := Append(log, s.term, DLock(info));
    AppendEffect(log, s.term, DLock(info));
    LastOfAppend(log, s.term, DLock(info), info.lockName);
    assert HoldsInfo(r, r.maximumIndex, info);
    forall o | o in q.done && o.Granted? ensures Recorded(r, base, GrantInfo(info.lockName, o)) {
      if GrantInfo(info.lockName, o) != info {
        RecordedGrows(log, r, base, GrantInfo(info.lockName, o));
      }
    }
  }

  /** A queue may change as long as it keeps its nonce and grants nobody. */
  lemma QueueKeepsCore(s: Leader, base: nat, now: int, later: int, name: string, q: Queue)
    requires Core(s, base, now) && now <= later
    requires name in s.pending && q.lastAppendedNonce == s.pending[name].lastAppendedNonce
    requires Fair(q, name, later) && NoNewGrant(s.pending[name], q)
    ensures Core(s.(pending := s.pending[name := q]), base, later)
  {
    LaterKeepsCore(s, base, now, later);
    assert Handled(s.store, base, name, s.pending[name], later);
    assert Handled(s.store, base, name, q, later);
  }

  ghost predicate NonceTells(s: Leader, name: string)
    requires Dense(s.store.log) && name in s.pending
  {
    var applied := LastOf(s.store.log, s.store.lastAppliedIndex, name);
    LastOfIsGreatest(s.store.log, s.store.lastAppliedIndex, name);
    && (name in s.store.stateMap.locks <==> applied > 0)
    && (name in s.store.stateMap.locks ==>
          && s.store.stateMap.locks[name] == StateOf(InfoAt(s.store.log, applied))
          && s.store.stateMap.locks[name].lockName == name
          && s.pending[name].lastAppendedNonce == s.store.stateMap.locks[name].lockNonce + (if Settled(s.store, name) then 0 else 1)
          && (Settled(s.store, name) ==> applied == LastOf(s.store.log, s.store.log.maximumIndex, name)))
    && (name !in s.store.stateMap.locks ==> !Settled(s.store, name) && s.pending[name].lastAppendedNonce == 1)
  }

  /** Knowing the queue's nonce is knowing whether an entry is in flight. */
  lemma SettledIffNonce(s: Leader, base: nat, now: int, name: string)
    requires Core(s, base, now) && name in s.pending
    ensures NonceTells(s, name)
  {
    var log, max, a := s.store.log, s.store.log.maximumIndex, s.store.lastAppliedIndex;
    var last := LastOf(log, max, name);
    LastOfIsGreatest(log, max, name);
    LastOfIsGreatest(log, a, name);
    if name in s.store.stateMap.locks {
      assert DescribesLock(s.store.stateMap, log, a, name);
    }
    if last <= a {
      LastOfUnique(log, a, name, last);
    } else {
      assert Legal(log, last);
      var p := LastOf(log, last - 1, name);
      LastOfIsGreatest(log, last - 1, name);
      LastOfUnique(log, a, name, p);
    }
  }
}

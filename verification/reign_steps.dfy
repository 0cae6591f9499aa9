/** Every operation of the lock service keeps the invariant of the reign. */
module ReignSteps {
  import opened Types
  import opened LogStorage
  import opened StateMap
  import opened NodeStore
  import opened AcquirementQueue
  import opened LockService
  import opened Reign

  // Committing and applying -----------------------------------------------------------------------

  lemma IndicesKeepHandlers(s: Leader, st: Store, base: nat, now: int)
    requires WellFormed(s.store) && WellFormed(st) && Handlers(s, base, now)
    requires st.log == s.store.log && s.store.lastAppliedIndex <= st.lastAppliedIndex
    ensures Handlers(s.(store := st), base, now)
  {
    forall name | name in s.pending ensures Handled(st, base, name, s.pending[name], now) {
      assert Handled(s.store, base, name, s.pending[name], now);
    }
    forall name | name !in s.pending ensures Settled(st, name) {
      assert Settled(s.store, name);
    }
  }

  /** Applying never sticks in a reign: the state map stays faithful up to the commit index. */
  lemma CommitKeepsInv(s: Leader, base: nat, now: int)
    requires Inv(s, base, now)
    ensures Inv(Commit(s), base, now)
    ensures Commit(s).store.lastAppliedIndex == s.store.commitIndex
    ensures Commit(s).store.stateMap.prevIndex == s.store.commitIndex
  {
    CommitAppliesIffOrderly(s.store);
    IndicesKeepHandlers(s, CommitProcedure(s.store), base, now);
  }

  lemma AdvanceKeepsInv(s: Leader, base: nat, now: int, index: nat)
    requires Inv(s, base, now) && s.store.commitIndex <= index <= s.store.log.maximumIndex
    ensures Inv(s.(store := s.store.(commitIndex := index)), base, now)
  {
    IndicesKeepHandlers(s, s.store.(commitIndex := index), base, now);
  }

  lemma BackUpKeepsInv(s: Leader, base: nat, now: int)
    requires Inv(s, base, now)
    ensures Inv(s.(store := s.store.(lastBackupIndex := s.store.commitIndex)), base, now)
  {
    IndicesKeepHandlers(s, s.store.(lastBackupIndex := s.store.commitIndex), base, now);
  }

  /** Entries of the key-value store pass between the lock entries unnoticed. */
  lemma PutKeepsInv(s: Leader, base: nat, now: int, command: Command)
    requires Inv(s, base, now) && command.KVStore?
    ensures Inv(AppendCommand(s, command), base, now)
  {
    var s' := AppendCommand(s, command);
    AppendKeepsSound(s, base, command);
    AppendEffect(s.store.log, s.term, command);
    assert forall i: nat :: LockAt(s'.store.log, i) ==> LockAt(s.store.log, i);
    forall name | name in s'.pending ensures Handled(s'.store, base, name, s'.pending[name], now) {
      AppendKeepsHandled(s.store, base, name, s.pending[name], now, now, s.term, command);
    }
    forall name | name !in s'.pending ensures Settled(s'.store, name) {
      AppendKeepsSettled(s.store, name, s.term, command);
    }
    forall name | LastOf(s'.store.log, s'.store.log.maximumIndex, name) > 0 ensures name in s'.pending {
      LastOfAppend(s.store.log, s.term, command, name);
    }
  }

  // One lock entry --------------------------------------------------------------------------------

  /** An append covers the lock it writes and leaves the others covered. */
  lemma AppendKeepsInv(s: Leader, base: nat, now: int, info: LockInfo, q: Queue)
    requires Inv(s, base, now) && now <= info.timestamp
    requires MayAppend(s, DLock(info)) && Settled(s.store, info.lockName)
    requires q.lastAppendedNonce == info.lockNonce && Fair(q, info.lockName, info.timestamp)
    requires forall o :: o in q.done && o.Granted? ==>
               GrantInfo(info.lockName, o) == info || Recorded(s.store.log, base, GrantInfo(info.lockName, o))
    ensures Inv(AppendCommand(s, DLock(info)).(pending := s.pending[info.lockName := q]), base, info.timestamp)
  {
    AppendKeepsCore(s, base, now, info, q);
    var s' := AppendCommand(s, DLock(info)).(pending := s.pending[info.lockName := q]);
    forall name | LastOf(s'.store.log, s'.store.log.maximumIndex, name) > 0 ensures name in s'.pending {
      LastOfAppend(s.store.log, s.term, DLock(info), name);
    }
  }

  lemma QueueKeepsInv(s: Leader, base: nat, now: int, later: int, name: string, q: Queue)
    requires Inv(s, base, now) && now <= later
    requires name in s.pending && q.lastAppendedNonce == s.pending[name].lastAppendedNonce
    requires Fair(q, name, later) && NoNewGrant(s.pending[name], q)
    ensures Inv(s.(pending := s.pending[name := q]), base, later)
  {
    QueueKeepsCore(s, base, now, later, name, q);
  }

  /** The log has grown by at most one lock entry. */
  ghost predicate GrownBy(s: Leader, s': Leader, info: LockInfo) {
    s'.store.log == Append(s.store.log, s.term, DLock(info))
  }

  /** The guard of every append to a known lock: no entry in flight, the next nonce, and a release
      or a lease that is over. */
  ghost predicate Due(s: Leader, info: LockInfo) {
    && info.lockName in s.store.stateMap.locks && info.lockName in s.pending
    && s.pending[info.lockName].lastAppendedNonce <= s.store.stateMap.locks[info.lockName].lockNonce
    && info.lockNonce == s.store.stateMap.locks[info.lockName].lockNonce + 1
    && (ReleaseShaped(info) || LeaseEnd(s.store.stateMap.locks[info.lockName]) <= info.timestamp)
  }

  lemma DueMayAppend(s: Leader, base: nat, now: int, info: LockInfo)
    requires Core(s, base, now) && Due(s, info)
    ensures Settled(s.store, info.lockName) && MayAppend(s, DLock(info))
    ensures info.lockNonce == s.pending[info.lockName].lastAppendedNonce + 1
  {
    SettledIffNonce(s, base, now, info.lockName);
    LastOfIsGreatest(s.store.log, s.store.log.maximumIndex, info.lockName);
  }

  lemma FairLater(q: Queue, name: string, now: int, later: int, nonce: nat)
    requires Fair(q, name, now) && now <= later && q.lastAppendedNonce <= nonce
    ensures Fair(q.(lastAppendedNonce := nonce), name, later)
  {
  }

  /** A direct append to a known lock: a release by its owner or by the scan, or a grant of a lock
      whose lease is over. */
  lemma DirectAppendKeepsInv(s: Leader, base: nat, now: int, info: LockInfo)
    requires Inv(s, base, now) && now <= info.timestamp && Due(s, info)
    ensures Inv(AppendLock(s, info), base, info.timestamp)
  {
    hide Inv, Core, Fair, Recorded, MayAppend;
    var q := s.pending[info.lockName];
    InvIsCore(s, base, now);
    QueueOf(s, base, now, info.lockName);
    DueMayAppend(s, base, now, info);
    FairLater(q, info.lockName, now, info.timestamp, info.lockNonce);
    AppendKeepsInv(s, base, now, info, q.(lastAppendedNonce := info.lockNonce));
  }

  /** The first entry of a lock. */
  lemma FirstAppendKeepsInv(s: Leader, base: nat, now: int, info: LockInfo)
    requires Inv(s, base, now) && now <= info.timestamp && info.lockNonce == 1
    requires info.lockName !in s.store.stateMap.locks && info.lockName !in s.pending
    ensures Inv(AppendLock(s.(pending := s.pending[info.lockName := NewQueue(0)]), info), base, info.timestamp)
  {
    var q := NewQueue(1);
    AppendKeepsInv(s, base, now, info, q);
    assert s.pending[info.lockName := NewQueue(0)][info.lockName := q] == s.pending[info.lockName := q];
  }

  // Queue operations ------------------------------------------------------------------------------

  lemma AbandonGrantsNobody(q: Queue, timestamp: int)
    ensures NoNewGrant(q, Abandon(q, timestamp))
  {
    var k := AbandonDropsExpiredPrefix(q, timestamp);
  }

  lemma RefreshKeepsInv(s: Leader, base: nat, now: int, name: string, sequence: nat, timestamp: int)
    requires Inv(s, base, now) && now <= timestamp && name in s.pending
    ensures Inv(s.(pending := s.pending[name := Refresh(Abandon(s.pending[name], timestamp), sequence, timestamp).0]), base, timestamp)
  {
    var q := s.pending[name];
    var q1 := Abandon(q, timestamp);
    assert Handled(s.store, base, name, q, now);
    AbandonKeepsFair(q, name, now, timestamp);
    AbandonGrantsNobody(q, timestamp);
    AbandonIdempotent(q, timestamp);
    RefreshKeepsFair(q1, sequence, name, timestamp, timestamp);
    QueueKeepsInv(s, base, now, timestamp, name, Refresh(q1, sequence, timestamp).0);
  }

  lemma InsertKeepsInv(s: Leader, base: nat, now: int, command: LockInfo, timestamp: int)
    requires Inv(s, base, now) && now <= timestamp && command.lockName in s.pending
    ensures var (q, sequence) := InsertNew(s.pending[command.lockName], command, timestamp, s.acquirementExpire);
            Inv(s.(pending := s.pending[command.lockName := q]), base, timestamp) && sequence > 0
  {
    var q := s.pending[command.lockName];
    assert Handled(s.store, base, command.lockName, q, now);
    InsertKeepsFair(q, command, s.acquirementExpire, now, timestamp);
    AbandonGrantsNobody(q, timestamp);
    QueueKeepsInv(s, base, now, timestamp, command.lockName, InsertNew(q, command, timestamp, s.acquirementExpire).0);
  }

  lemma LookKeepsInv(s: Leader, base: nat, now: int, name: string, timestamp: int)
    requires Inv(s, base, now) && now <= timestamp && name in s.pending
    ensures Inv(s.(pending := s.pending[name := FetchFirst(s.pending[name], false, timestamp).0]), base, timestamp)
  {
    var q := s.pending[name];
    assert Handled(s.store, base, name, q, now);
    LookKeepsFair(q, name, now, timestamp);
    AbandonGrantsNobody(q, timestamp);
    QueueKeepsInv(s, base, now, timestamp, name, FetchFirst(q, false, timestamp).0);
  }

  /** What a pop of the first acquirement means for its queue. */
  lemma PopGrantsFirst(q: Queue, name: string, before: int, timestamp: int)
    requires Fair(q, name, before) && before <= timestamp
    requires FetchFirst(q, false, timestamp).1.Some?
    ensures var (q1, look) := FetchFirst(q, false, timestamp);
            var (q2, info) := FetchFirst(q1, true, timestamp);
            && info == look
            && info.value.lockNonce == q.lastAppendedNonce + 1 == q2.lastAppendedNonce + 1
            && info.value.lockName == name && info.value.timestamp == timestamp
            && Fair(q2.(lastAppendedNonce := info.value.lockNonce), name, timestamp)
            && (forall o :: o in q2.done && o.Granted? ==> GrantInfo(name, o) == info.value || o in q.done)
  {
    LookKeepsFair(q, name, before, timestamp);
    LookThenPop(q, timestamp);
    PopKeepsFair(q, name, before, timestamp);
    AbandonGrantsNobody(q, timestamp);
  }

  /** Popping the first acquirement of a settled lock and appending its command. */
  lemma PopKeepsInv(s: Leader, base: nat, now: int, name: string, timestamp: int, q2: Queue, info: LockInfo)
    requires Inv(s, base, now) && now <= timestamp
    requires name in s.pending && FetchFirst(s.pending[name], false, timestamp).1 == Some(info)
    requires FetchFirst(FetchFirst(s.pending[name], false, timestamp).0, true, timestamp) == (q2, Some(info))
    requires info.lockName == name ==> Due(s, info)
    ensures Inv(AppendLock(s.(pending := s.pending[name := q2]), info), base, timestamp)
  {
    hide Inv, Core, Fair, Recorded, MayAppend, FetchFirst;
    var q := s.pending[name];
    InvIsCore(s, base, now);
    QueueOf(s, base, now, name);
    PopGrantsFirst(q, name, now, timestamp);
    DueMayAppend(s, base, now, info);
    var q3 := q2.(lastAppendedNonce := info.lockNonce);
    AppendKeepsInv(s, base, now, info, q3);
    assert s.pending[name := q2][name := q3] == s.pending[name := q3];
  }

  /** The grant path of the queue; its nonce names the entry it appended for this client. */
  lemma RefreshLockKeepsInv(s: Leader, base: nat, now: int, name: string, client: string, timestamp: int)
    requires Inv(s, base, now) && now <= timestamp
    ensures var (s', r) := RefreshLock(s, name, client, timestamp);
            && Inv(s', base, timestamp)
            && (r.Ok? && r.value > 0 ==> exists expire :: GrownBy(s, s', LockInfo(r.value, name, client, timestamp, expire)))
            && ((r.Ok? ==> r.value == 0) ==> s'.store == s.store)
  {
    hide Inv, Fair;
    LaterKeepsInv(s, base, now, timestamp);
    if name in s.pending && name in s.store.stateMap.locks {
      var st := s.store.stateMap.locks[name];
      var q := s.pending[name];
      if LeaseEnd(st) <= timestamp && q.lastAppendedNonce <= st.lockNonce {
        LookKeepsInv(s, base, now, name, timestamp);
        var (q1, look) := FetchFirst(q, false, timestamp);
        if look.Some? && look.value.newOwner == client {
          GrantIsDue(s, base, now, name, timestamp);
          PopKeepsInv(s, base, now, name, timestamp, FetchFirst(q1, true, timestamp).0, look.value);
          var s' := RefreshLock(s, name, client, timestamp).0;
          assert GrownBy(s, s', LockInfo(look.value.lockNonce, name, client, timestamp, look.value.expire));
        }
      }
    }
  }

  lemma LaterKeepsInv(s: Leader, base: nat, now: int, later: int)
    requires Inv(s, base, now) && now <= later
    ensures Inv(s, base, later)
  {
    LaterKeepsCore(s, base, now, later);
  }

  lemma GrantIsDue(s: Leader, base: nat, now: int, name: string, timestamp: int)
    requires Inv(s, base, now) && now <= timestamp
    requires name in s.pending && name in s.store.stateMap.locks
    requires LeaseEnd(s.store.stateMap.locks[name]) <= timestamp
    requires s.pending[name].lastAppendedNonce <= s.store.stateMap.locks[name].lockNonce
    requires FetchFirst(s.pending[name], false, timestamp).1.Some?
    ensures var (q1, look) := FetchFirst(s.pending[name], false, timestamp);
            var (q2, info) := FetchFirst(q1, true, timestamp);
            && look == info && Due(s, info.value)
            && info.value.lockNonce == q2.lastAppendedNonce + 1
            && info.value.lockName == name && info.value.timestamp == timestamp
  {
    hide Fair, Sound, Timed;
    assert Handled(s.store, base, name, s.pending[name], now);
    PopGrantsFirst(s.pending[name], name, now, timestamp);
    SettledIffNonce(s, base, now, name);
  }

  // The services ----------------------------------------------------------------------------------

  /** The answer of an acquire names the entry it appended, if it appended one. */
  ghost predicate Answered(s: Leader, s': Leader, name: string, client: string, timestamp: int, nonce: nat) {
    nonce > 0 ==> exists expire :: GrownBy(Commit(s), s', LockInfo(nonce, name, client, timestamp, expire))
  }

  lemma AcquireUnknownKeepsInv(s: Leader, base: nat, now: int, name: string, client: string, expire: int, timestamp: int)
    requires Inv(s, base, now) && now <= timestamp && name !in s.store.stateMap.locks
    ensures var (s', r) := AcquireUnknown(s, name, client, expire, timestamp);
            && Inv(s', base, timestamp)
            && r.Ok? && (r.value.sequence == 0 <==> r.value.nonce > 0)
            && (r.value.nonce > 0 ==> GrownBy(s, s', LockInfo(1, name, client, timestamp, expire)) && r.value.nonce == 1)
  {
    hide Inv;
    var info := LockInfo(1, name, client, timestamp, expire);
    if name !in s.pending {
      FirstAppendKeepsInv(s, base, now, info);
    } else {
      InsertKeepsInv(s, base, now, info, timestamp);
    }
  }

  lemma AcquireByQueueKeepsInv(s: Leader, base: nat, now: int, name: string, client: string, expire: int, timestamp: int)
    requires Inv(s, base, now) && now <= timestamp && name in s.store.stateMap.locks && name in s.pending
    ensures var (s', r) := AcquireByQueue(s, name, client, expire, timestamp);
            && Inv(s', base, timestamp)
            && r.Ok? && r.value.sequence > 0 && r.value.nonce == 0
  {
    hide Inv;
    var info := LockInfo(0, name, client, timestamp, expire);
    InsertKeepsInv(s, base, now, info, timestamp);
    var q := InsertNew(s.pending[name], info, timestamp, s.acquirementExpire).0;
    RefreshLockKeepsInv(s.(pending := s.pending[name := q]), base, timestamp, name, client, timestamp);
  }

  /** In a reign an acquire is always answered: by a nonce, whose entry it appended, or by a place in
      the queue. */
  lemma AcquireKeepsInv(s0: Leader, base: nat, now: int, name: string, client: string, expire: int, timestamp: int)
    requires Inv(s0, base, now) && now <= timestamp
    ensures var (s', r) := Acquire(s0, name, client, expire, timestamp);
            && Inv(s', base, timestamp)
            && r.Ok? && (r.value.sequence == 0 <==> r.value.nonce > 0)
            && (r.value.nonce > 0 ==> GrownBy(Commit(s0), s', LockInfo(r.value.nonce, name, client, timestamp, expire)))
  {
    hide Inv;
    var s := Commit(s0);
    CommitKeepsInv(s0, base, now);
    if name !in s.store.stateMap.locks {
      AcquireUnknownKeepsInv(s, base, now, name, client, expire, timestamp);
    } else {
      MapIsCovered(s, base, now, name);
      var st := s.store.stateMap.locks[name];
      var q := s.pending[name];
      if q.lastAppendedNonce == st.lockNonce && q.waiting == [] && LeaseEnd(st) < timestamp {
        DirectAppendKeepsInv(s, base, now, LockInfo(st.lockNonce + 1, name, client, timestamp, expire));
      } else {
        AcquireByQueueKeepsInv(s, base, now, name, client, expire, timestamp);
      }
    }
  }

  lemma MapIsCovered(s: Leader, base: nat, now: int, name: string)
    requires Inv(s, base, now) && name in s.store.stateMap.locks
    ensures name in s.pending
    ensures s.store.stateMap.locks[name].lockName == name
    ensures s.pending[name].lastAppendedNonce >= s.store.stateMap.locks[name].lockNonce
  {
    LastOfIsGreatest(s.store.log, s.store.lastAppliedIndex, name);
    LastOfIsGreatest(s.store.log, s.store.log.maximumIndex, name);
    assert DescribesLock(s.store.stateMap, s.store.log, s.store.lastAppliedIndex, name);
    SettledIffNonce(s, base, now, name);
  }

  lemma RefreshBySequenceKeepsInv(s0: Leader, base: nat, now: int, name: string, client: string, sequence: nat, timestamp: int)
    requires Inv(s0, base, now) && now <= timestamp
    ensures var (s', r) := RefreshBySequence(s0, name, client, sequence, timestamp);
            && Inv(s', base, timestamp)
            && (r.Ok? ==> Answered(s0, s', name, client, timestamp, r.value.1))
            && (r.Ok? && !r.value.0 ==> r.value.1 == 0)
  {
    hide Inv;
    var s := Commit(s0);
    CommitKeepsInv(s0, base, now);
    LaterKeepsInv(s, base, now, timestamp);
    if name in s.pending {
      RefreshKeepsInv(s, base, now, name, sequence, timestamp);
      var (q, err) := Refresh(Abandon(s.pending[name], timestamp), sequence, timestamp);
      if err.None? {
        RefreshLockKeepsInv(s.(pending := s.pending[name := q]), base, timestamp, name, client, timestamp);
      }
    }
  }

  lemma ReleaseKeepsInv(s0: Leader, base: nat, now: int, name: string, applicant: string, timestamp: int)
    requires Inv(s0, base, now) && now <= timestamp
    ensures var (s', r) := Release(s0, name, applicant, timestamp);
            && Inv(s', base, timestamp)
            && r.Ok?
            && (r.value.0 == TriggerReleaseSuccess ==> GrownBy(Commit(s0), s', LockInfo(r.value.1, name, "", timestamp, 0)))
            && (r.value.0 != TriggerReleaseSuccess ==> s'.store == Commit(s0).store)
  {
    hide Inv;
    var s := Commit(s0);
    CommitKeepsInv(s0, base, now);
    LaterKeepsInv(s, base, now, timestamp);
    if name in s.store.stateMap.locks {
      MapIsCovered(s, base, now, name);
      var st := s.store.stateMap.locks[name];
      if st.owner == applicant && s.pending[name].lastAppendedNonce <= st.lockNonce {
        DirectAppendKeepsInv(s, base, now, ReleaseOf(st, timestamp));
      }
    }
  }
}

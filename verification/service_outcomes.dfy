/** What every lock service does in a reign, in terms of the committed log and the queue: when it must grant,
    release or write, and not only when it may. */
module ServiceOutcomes {
  import opened Types
  import opened LogStorage
  import opened StateMap
  import opened NodeStore
  import opened AcquirementQueue
  import opened LockService
  import opened Reign
  import opened ReignSteps
  import opened ReignScan
  import opened ReignRuns
  import opened ReignTheorems

  // ---------------------------------------------------------------------------------------------
  // What the log says of a lock
  // ---------------------------------------------------------------------------------------------

  /** No entry of the lock is waiting to be committed. */
  ghost predicate Quiet(st: Store, name: string) {
    forall i :: st.commitIndex < i <= st.log.maximumIndex ==> !LockEntry(st.log, i, name)
  }

  /** The lock's last committed entry, 0 when there is none. */
  ghost function Current(st: Store, name: string): (last: nat)
    ensures last <= st.commitIndex && (last > 0 ==> LockEntry(st.log, last, name))
  {
    LastOfIsGreatest(st.log, st.commitIndex, name);
    LastOf(st.log, st.commitIndex, name)
  }

  /** The lock is known, nothing of it is in flight, and its lease has run out at that time. */
  ghost predicate Available(st: Store, name: string, timestamp: int) {
    var last := Current(st, name);
    && last > 0 && Quiet(st, name)
    && InfoAt(st.log, last).timestamp + InfoAt(st.log, last).expire <= timestamp
  }

  /** What the log tells about a lock, for a leader that has applied what is committed. */
  ghost predicate Told(c: Leader, name: string)
    requires Dense(c.store.log)
  {
    var last := Current(c.store, name);
    && (name in c.store.stateMap.locks <==> last > 0)
    && (last > 0 ==>
          var st, info := c.store.stateMap.locks[name], InfoAt(c.store.log, last);
          && st.owner == info.newOwner && st.lockNonce == info.lockNonce && st.lockName == name
          && st.timestamp == info.timestamp && st.expire == info.expire
          && name in c.pending
          && c.pending[name].lastAppendedNonce == info.lockNonce + (if Quiet(c.store, name) then 0 else 1))
    && (name in c.pending <==> exists i :: LockEntry(c.store.log, i, name))
  }

  /** Map, queue and nonce of a lock are as the log determines them once what is committed is applied. */
  lemma LogTells(c: Leader, base: nat, now: int, name: string)
    requires Inv(c, base, now) && c.store.lastAppliedIndex == c.store.commitIndex
    ensures Told(c, name)
  {
    var log, max := c.store.log, c.store.log.maximumIndex;
    LastOfIsGreatest(log, max, name);
    LastOfIsGreatest(log, c.store.commitIndex, name);
    if name in c.pending {
      SettledIffNonce(c, base, now, name);
      assert Handled(c.store, base, name, c.pending[name], now);
    }
    if exists i :: LockEntry(log, i, name) {
      var i :| LockEntry(log, i, name);
      assert 1 <= i <= max;
    }
    if name in c.store.stateMap.locks {
      MapIsCovered(c, base, now, name);
    }
    if Settled(c.store, name) {
      assert Quiet(c.store, name);
    } else {
      assert !Quiet(c.store, name);
    }
  }

  // ---------------------------------------------------------------------------------------------
  // Granting from the queue
  // ---------------------------------------------------------------------------------------------

  /** q is a with one acquirement refreshed. */
  ghost predicate OneRefreshed(a: Queue, q: Queue, sequence: nat, timestamp: int) {
    && q.done == a.done && |q.waiting| == |a.waiting|
    && forall i :: 0 <= i < |a.waiting| ==>
         SameClaim(a.waiting[i], q.waiting[i]) && q.waiting[i].command == a.waiting[i].command
         && q.waiting[i].lastRefreshed == if |a.done| + 1 + i == sequence then timestamp else a.waiting[i].lastRefreshed
  }

  /** q' is q, up to the stamp of a command. */
  ghost predicate AllStay(q: Queue, q': Queue) {
    && |q'.done| == |q.done| && |q'.waiting| == |q.waiting|
    && forall i :: 0 <= i < |q.waiting| ==> SameClaim(q.waiting[i], q'.waiting[i]) && q'.waiting[i].lastRefreshed == q.waiting[i].lastRefreshed
  }

  /** Those who wait in q waited in a already, with the same claims; one of them was refreshed. */
  ghost predicate Remain(a: Queue, q: Queue, sequence: nat, timestamp: int) {
    forall n :: Waits(q, n) ==>
      && Waits(a, n) && SameClaim(Waiter(a, n), Waiter(q, n))
      && Waiter(q, n).lastRefreshed == if n == sequence then timestamp else Waiter(a, n).lastRefreshed
  }

  /** What is committed has been applied, and nothing else has changed in the store. */
  ghost predicate GainsNothing(before: Leader, after: Leader) {
    && after.store.log == before.store.log && after.store.commitIndex == before.store.commitIndex
    && after.store.lastAppliedIndex == before.store.commitIndex && after.term == before.term
  }

  /** The same, but for one new lock entry at the end of the log. */
  ghost predicate Gains(before: Leader, after: Leader, info: LockInfo) {
    var next := before.store.log.maximumIndex + 1;
    && after.store.log == Log(before.store.log.entries[next := Entry(before.term, next, DLock(info))], next)
    && after.store.commitIndex == before.store.commitIndex
    && after.store.lastAppliedIndex == before.store.commitIndex && after.term == before.term
  }

  ghost predicate Unwritten(c: Leader, s: Leader) {
    s.store == c.store && s.term == c.term
  }

  ghost predicate Wrote(c: Leader, s: Leader, info: LockInfo) {
    s.store == c.store.(log := Append(c.store.log, c.term, DLock(info))) && s.term == c.term
  }

  lemma KeepsClaimsItself(q: Queue)
    ensures KeepsClaims(q, q)
  {
  }

  lemma BumpKeepsClaims(a: Queue, b: Queue, nonce: nat)
    requires KeepsClaims(a, b)
    ensures KeepsClaims(a, b.(lastAppendedNonce := nonce))
  {
    var c := b.(lastAppendedNonce := nonce);
    forall n | 0 < n <= a.Assigned() ensures SameClaim(Claim(a, n), Claim(c, n)) {
      assert SameClaim(Claim(a, n), Claim(b, n));
    }
  }

  /** The queue is asked for a client: it grants the first claim if that is the client's, the lease is over
      and nothing is in flight. */
  lemma QueueGrants(s: Leader, name: string, client: string, timestamp: int)
    requires name in s.pending && name in s.store.stateMap.locks && Addressed(Abandon(s.pending[name], timestamp).waiting, name)
    ensures var st, q, a := s.store.stateMap.locks[name], s.pending[name], Abandon(s.pending[name], timestamp);
            var (s', r) := RefreshLock(s, name, client, timestamp);
            && name in s'.pending && KeepsClaims(q, s'.pending[name])
            && if st.timestamp + st.expire <= timestamp && q.lastAppendedNonce <= st.lockNonce
                  && a.waiting != [] && a.waiting[0].acquirer == client then
              && r == Ok(q.lastAppendedNonce + 1)
              && Wrote(s, s', LockInfo(q.lastAppendedNonce + 1, name, client, timestamp, a.waiting[0].command.expire))
              && |s'.pending[name].done| == |a.done| + 1 && s'.pending[name].waiting == a.waiting[1..]
            else
              && r == Ok(0) && Unwritten(s, s')
              && (s'.pending[name] == q || AllStay(a, s'.pending[name]))
  {
    var st, q := s.store.stateMap.locks[name], s.pending[name];
    FetchOutcome(q, false, timestamp);
    FetchKeepsClaims(q, false, timestamp);
    KeepsClaimsItself(q);
    if FetchFirst(q, false, timestamp).1.Some? {
      var q1 := FetchFirst(q, false, timestamp).0;
      LookThenPop(q, timestamp);
      FetchOutcome(q1, true, timestamp);
      FetchKeepsClaims(q1, true, timestamp);
      KeepsClaimsTransitive(q, q1, FetchFirst(q1, true, timestamp).0);
      BumpKeepsClaims(q, FetchFirst(q1, true, timestamp).0, q.lastAppendedNonce + 1);
    }
    hide FetchFirst, Abandon, Append, KeepsClaims;
  }

  // ---------------------------------------------------------------------------------------------
  // Requests
  // ---------------------------------------------------------------------------------------------

  lemma CommittedStore(s: Leader, base: nat, now: int)
    requires Inv(s, base, now)
    ensures var c := Commit(s);
            && Inv(c, base, now) && c == s.(store := c.store) && c.store.log == s.store.log
            && c.store.commitIndex == s.store.commitIndex == c.store.lastAppliedIndex
            && Dense(s.store.log)
  {
    CommitKeepsInv(s, base, now);
    CommitKeepsLog(s);
    hide CommitProcedure;
  }

  /** The lock entry that grants the first claim. */
  ghost function NextGrant(c: Leader, name: string, client: string, timestamp: int, a: Queue): LockInfo
    requires Current(c.store, name) > 0 && a.waiting != []
  {
    LockInfo(InfoAt(c.store.log, Current(c.store, name)).lockNonce + 1, name, client, timestamp, a.waiting[0].command.expire)
  }

  /** What a client that waits is told, and what its request does, in every case. */
  ghost predicate WaiterServed(s: Leader, name: string, client: string, sequence: nat, timestamp: int,
                               s': Leader, r: Result<Response>)
    requires Dense(s.store.log)
  {
    if name !in s.pending then r == Ok(Response(true, sequence, 0)) && GainsNothing(s, s') && s'.pending == s.pending
    else
      var a, last := Abandon(s.pending[name], timestamp), Current(s.store, name);
      && name in s'.pending
      && if !Waits(a, sequence) then r == Ok(Response(false, sequence, 0)) && GainsNothing(s, s') && s'.pending[name] == a
         else if Waiter(a, sequence).lastRefreshed + Waiter(a, sequence).expire < timestamp then
           r == Err(QueueError(ExpireError)) && GainsNothing(s, s') && s'.pending[name] == a
         else
           && Remain(a, s'.pending[name], sequence, timestamp)
           && if last == 0 then r == Err(LockFetchError) && GainsNothing(s, s') && |s'.pending[name].done| == |a.done|
              else if Available(s.store, name, timestamp) && a.waiting[0].acquirer == client then
                var info := NextGrant(s, name, client, timestamp, a);
                && r == Ok(Response(false, sequence, info.lockNonce)) && Gains(s, s', info)
                && |s'.pending[name].done| == |a.done| + 1 && s'.pending[name].Assigned() == a.Assigned()
              else
                && r == Ok(Response(true, sequence, 0)) && GainsNothing(s, s')
                && |s'.pending[name].done| == |a.done| && s'.pending[name].Assigned() == a.Assigned()
  }

  lemma WaiterOutcome(m: Moment, base: nat, step: Step)
    requires Reachable(m, base) && step.RequestStep? && Enabled(m, step) && step.sequence != 0
    ensures Dense(m.leader.store.log)
    ensures var r := AcquireService(m.leader, step.name, step.client, step.sequence, step.expire, step.timestamp).1;
            WaiterServed(m.leader, step.name, step.client, step.sequence, step.timestamp, Next(m, step).leader, r)
  {
    ReachableHoldsInv(m, base);
    CommittedStore(m.leader, base, m.now);
    WaiterIsServed(m.leader, base, m.now, step.name, step.client, step.sequence, step.expire, step.timestamp);
  }

  /** A waiting client is granted the lock exactly when its number waits and has not expired, the lock is
      available, and it waits first; the nonce is then the next one, and the log has gained that grant. */
  lemma WaiterIsGrantedIff(m: Moment, base: nat, step: Step)
    requires Reachable(m, base) && step.RequestStep? && Enabled(m, step) && step.sequence != 0 && step.name in m.leader.pending
    ensures var st, a := m.leader.store, Abandon(m.leader.pending[step.name], step.timestamp);
            var r := AcquireService(m.leader, step.name, step.client, step.sequence, step.expire, step.timestamp).1;
            && (r.Ok? && r.value.nonce > 0 <==>
                  && Waits(a, step.sequence)
                  && step.timestamp <= Waiter(a, step.sequence).lastRefreshed + Waiter(a, step.sequence).expire
                  && Available(st, step.name, step.timestamp) && a.waiting[0].acquirer == step.client)
            && (r.Ok? && r.value.nonce > 0 ==>
                  && !r.value.pending && r.value.nonce == InfoAt(st.log, Current(st, step.name)).lockNonce + 1
                  && Gains(m.leader, Next(m, step).leader,
                           LockInfo(r.value.nonce, step.name, step.client, step.timestamp, a.waiting[0].command.expire)))
  {
    hide Reachable, AcquireService, Next, Gains, Abandon, Remain;
    WaiterOutcome(m, base, step);
  }

  lemma WaiterIsServed(s: Leader, base: nat, now: int, name: string, client: string, sequence: nat, expire: int, timestamp: int)
    requires Inv(s, base, now) && now <= timestamp && sequence != 0 && Dense(s.store.log)
    ensures var (s', r) := AcquireService(s, name, client, sequence, expire, timestamp);
            WaiterServed(s, name, client, sequence, timestamp, s', r)
  {
    var c := Commit(s);
    CommittedStore(s, base, now);
    WaiterSteps(s, c, name, client, sequence, expire, timestamp);
    if name in c.pending {
      QueueIsAddressed(c, base, now, name, timestamp);
      LogTells(c, base, now, name);
    }
    hide Inv, CommitProcedure, AcquireService, WaiterAnswer, WaiterServed, Abandon;
    CommittedWaiter(c, name, client, sequence, timestamp);
    var (s', r) := AcquireService(s, name, client, sequence, expire, timestamp);
    ServedBeforeCommit(s, c, name, client, sequence, timestamp, s', r);
  }

  lemma ServedBeforeCommit(s: Leader, c: Leader, name: string, client: string, sequence: nat, timestamp: int,
                           s': Leader, r: Result<Response>)
    requires c == s.(store := c.store) && c.store.log == s.store.log && c.store.commitIndex == s.store.commitIndex
    requires Dense(s.store.log) && WaiterServed(c, name, client, sequence, timestamp, s', r)
    ensures WaiterServed(s, name, client, sequence, timestamp, s', r)
  {
    hide Abandon, Remain;
  }

  /** The request of a waiting client, step by step. */
  function WaiterAnswer(c: Leader, name: string, client: string, sequence: nat, timestamp: int): (Leader, Result<Response>) {
    if name !in c.pending then (c, Ok(Response(true, sequence, 0)))
    else
      var (q, err) := AcquirementQueue.Refresh(Abandon(c.pending[name], timestamp), sequence, timestamp);
      var s1 := c.(pending := c.pending[name := q]);
      if err == Some(InvalidSequenceError) || err == Some(InfoFetchingError) then (s1, Ok(Response(false, sequence, 0)))
      else if err.Some? then (s1, Err(QueueError(err.value)))
      else
        var (s2, nonce) := RefreshLock(s1, name, client, timestamp);
        (s2, if nonce.Err? then Err(nonce.error) else Ok(Response(nonce.value == 0, sequence, nonce.value)))
  }

  lemma WaiterSteps(s: Leader, c: Leader, name: string, client: string, sequence: nat, expire: int, timestamp: int)
    requires c == Commit(s) && sequence != 0
    ensures AcquireService(s, name, client, sequence, expire, timestamp) == WaiterAnswer(c, name, client, sequence, timestamp)
  {
    hide CommitProcedure, Abandon, AcquirementQueue.Refresh, FetchFirst, Append;
  }

  lemma CommittedWaiter(c: Leader, name: string, client: string, sequence: nat, timestamp: int)
    requires Dense(c.store.log) && c.store.lastAppliedIndex == c.store.commitIndex
    requires name in c.pending ==>
               var a := Abandon(c.pending[name], timestamp);
               Told(c, name) && Addressed(a.waiting, name) && a.lastAppendedNonce == c.pending[name].lastAppendedNonce
    ensures var (s', r) := WaiterAnswer(c, name, client, sequence, timestamp);
            WaiterServed(c, name, client, sequence, timestamp, s', r)
  {
    hide Abandon, AcquirementQueue.Refresh, RefreshLock, Remain, Available, Addressed, Told, Unwritten, Wrote, Gains, GainsNothing;
    var (s', r) := WaiterAnswer(c, name, client, sequence, timestamp);
    WrittenGains(c, s');
    if name in c.pending {
      var a := Abandon(c.pending[name], timestamp);
      AbandonIdempotent(c.pending[name], timestamp);
      RefreshOutcome(a, sequence, timestamp);
      if AcquirementQueue.Refresh(a, sequence, timestamp).1.None? {
        RefreshedIsServed(c, a, AcquirementQueue.Refresh(a, sequence, timestamp).0, name, client, sequence, timestamp);
      }
    }
  }

  lemma WrittenGains(c: Leader, s': Leader)
    requires c.store.lastAppliedIndex == c.store.commitIndex
    ensures Unwritten(c, s') ==> GainsNothing(c, s')
    ensures s'.store == c.store && s'.term == c.term ==> GainsNothing(c, s')
    ensures forall info :: Wrote(c, s', info) ==> Gains(c, s', info)
  {
  }

  /** The grant attempt after a successful refresh of a queue that was abandoned before. */
  lemma RefreshedIsServed(c: Leader, a: Queue, q: Queue, name: string, client: string, sequence: nat, timestamp: int)
    requires Abandon(a, timestamp) == a && Addressed(a.waiting, name) && AcquirementQueue.Refresh(a, sequence, timestamp) == (q, None)
    requires Dense(c.store.log) && name in c.pending && Told(c, name) && a.lastAppendedNonce == c.pending[name].lastAppendedNonce
    ensures Waits(a, sequence)
    ensures var (s', r) := RefreshLock(c.(pending := c.pending[name := q]), name, client, timestamp);
            && name in s'.pending && Remain(a, s'.pending[name], sequence, timestamp)
            && if Current(c.store, name) == 0 then r == Err(LockFetchError) && Unwritten(c, s') && |s'.pending[name].done| == |a.done|
               else if Available(c.store, name, timestamp) && a.waiting[0].acquirer == client then
                 && r == Ok(NextGrant(c, name, client, timestamp, a).lockNonce) && Wrote(c, s', NextGrant(c, name, client, timestamp, a))
                 && |s'.pending[name].done| == |a.done| + 1 && s'.pending[name].Assigned() == a.Assigned()
               else
                 && r == Ok(0) && Unwritten(c, s')
                 && |s'.pending[name].done| == |a.done| && s'.pending[name].Assigned() == a.Assigned()
  {
    hide Addressed, Remain, RefreshLock, Wrote, Unwritten, SameClaim, AcquirementQueue.Refresh, Abandon;
    RefreshedQueue(a, q, sequence, timestamp);
    RefreshKeepsAddress(a, q, sequence, timestamp, name);
    var s1 := c.(pending := c.pending[name := q]);
    if name in c.store.stateMap.locks {
      QueueGrants(s1, name, client, timestamp);
      var (s', r) := RefreshLock(s1, name, client, timestamp);
      RemainAfterGrant(a, q, s'.pending[name], sequence, timestamp);
      SameStoreWrites(c, s1, s');
    } else {
      UnknownIsRefused(s1, name, client, timestamp);
      RemainAfterGrant(a, q, q, sequence, timestamp);
      SameStoreWrites(c, s1, s1);
    }
  }

  lemma UnknownIsRefused(s: Leader, name: string, client: string, timestamp: int)
    requires name in s.pending && name !in s.store.stateMap.locks
    ensures RefreshLock(s, name, client, timestamp) == (s, Err(LockFetchError)) && Unwritten(s, s)
  {
  }

  lemma SameStoreWrites(c: Leader, s: Leader, s': Leader)
    requires s.store == c.store && s.term == c.term
    ensures Unwritten(s, s') <==> Unwritten(c, s')
    ensures forall info :: Wrote(s, s', info) <==> Wrote(c, s', info)
  {
  }

  lemma RefreshKeepsAddress(a: Queue, q: Queue, sequence: nat, timestamp: int, name: string)
    requires Addressed(a.waiting, name) && AcquirementQueue.Refresh(a, sequence, timestamp) == (q, None) && Abandon(a, timestamp) == a
    ensures Addressed(q.waiting, name)
  {
    RefreshKeepsFront(a, q, sequence, timestamp);
    hide AcquirementQueue.Refresh, Abandon;
  }

  lemma RemainAfterGrant(a: Queue, q: Queue, q': Queue, sequence: nat, timestamp: int)
    requires OneRefreshed(a, q, sequence, timestamp)
    requires q' == q || AllStay(q, q') || (|q'.done| == |q.done| + 1 && |q.waiting| > 0 && q'.waiting == q.waiting[1..])
    ensures Remain(a, q', sequence, timestamp)
  {
  }

  lemma QueueIsAddressed(s: Leader, base: nat, now: int, name: string, timestamp: int)
    requires Inv(s, base, now) && now <= timestamp && name in s.pending
    ensures var a := Abandon(s.pending[name], timestamp);
            && Addressed(a.waiting, name) && Distinct(a.waiting)
            && a.lastAppendedNonce == s.pending[name].lastAppendedNonce && a.Assigned() == s.pending[name].Assigned()
  {
    InvIsCore(s, base, now);
    QueueOf(s, base, now, name);
    hide Inv;
    AbandonKeepsFair(s.pending[name], name, now, timestamp);
  }

  /** Refreshing an abandoned queue leaves nothing to abandon. */
  lemma RefreshedQueue(a: Queue, q: Queue, sequence: nat, timestamp: int)
    requires Abandon(a, timestamp) == a && AcquirementQueue.Refresh(a, sequence, timestamp) == (q, None)
    ensures Abandon(q, timestamp) == q && Waits(a, sequence) && OneRefreshed(a, q, sequence, timestamp)
    ensures q.lastAppendedNonce == a.lastAppendedNonce
    ensures q.waiting[0].acquirer == a.waiting[0].acquirer && q.waiting[0].command == a.waiting[0].command
  {
    FrontIsFresh(a, timestamp);
    hide Abandon;
    RefreshKeepsFront(a, q, sequence, timestamp);
    AbandonOfFresh(q, timestamp);
  }

  lemma RefreshKeepsFront(a: Queue, q: Queue, sequence: nat, timestamp: int)
    requires Abandon(a, timestamp) == a && AcquirementQueue.Refresh(a, sequence, timestamp) == (q, None)
    ensures Waits(a, sequence) && q.done == a.done && |q.waiting| == |a.waiting| && q.lastAppendedNonce == a.lastAppendedNonce
    ensures forall i :: 0 <= i < |a.waiting| ==>
              q.waiting[i] == if |a.done| + 1 + i == sequence then a.waiting[i].(lastRefreshed := timestamp) else a.waiting[i]
  {
    hide Abandon;
  }

  lemma AbandonOfFresh(q: Queue, timestamp: int)
    requires q.waiting == [] || timestamp <= q.waiting[0].lastRefreshed + q.waiting[0].expire
    ensures Abandon(q, timestamp) == q
  {
  }

  // ---------------------------------------------------------------------------------------------
  // New requests
  // ---------------------------------------------------------------------------------------------

  ghost predicate Known(a: Queue, client: string) {
    exists i :: 0 <= i < |a.waiting| && a.waiting[i].acquirer == client
  }

  /** Client's place in the queue: its old number, or a new one behind all others with this claim. */
  ghost predicate Placed(a: Queue, q: Queue, n: nat, name: string, client: string, expire: int, timestamp: int, acquirementExpire: nat) {
    && (if Known(a, client) then Waits(a, n) && Waiter(a, n).acquirer == client && q.Assigned() == a.Assigned()
        else
          && n == a.Assigned() + 1 == q.Assigned()
          && var w := Claim(q, n);
             && w.acquirer == w.command.newOwner == client && w.expire == acquirementExpire
             && w.command.lockName == name && w.command.expire == expire && (Waits(q, n) ==> w.lastRefreshed == timestamp))
    && forall k: nat :: Waits(q, k) && k <= a.Assigned() ==>
         Waits(a, k) && SameClaim(Waiter(a, k), Waiter(q, k)) && Waiter(q, k).lastRefreshed == Waiter(a, k).lastRefreshed
  }

  /** What a new request is told, and what it does, in every case. */
  ghost predicate NewcomerServed(s: Leader, name: string, client: string, expire: int, timestamp: int, s': Leader, r: Result<Response>)
    requires Dense(s.store.log)
  {
    var st, last := s.store, Current(s.store, name);
    if forall i :: !LockEntry(st.log, i, name) then
      && r == Ok(Response(false, 0, 1)) && Gains(s, s', LockInfo(1, name, client, timestamp, expire))
      && name in s'.pending && s'.pending[name].done == [] && s'.pending[name].waiting == []
    else
      && name in s.pending && name in s'.pending
      && var a, q := Abandon(s.pending[name], timestamp), s'.pending[name];
         if last > 0 && Quiet(st, name) && s.pending[name].waiting == []
            && InfoAt(st.log, last).timestamp + InfoAt(st.log, last).expire < timestamp then
           var nonce := InfoAt(st.log, last).lockNonce + 1;
           && r == Ok(Response(false, 0, nonce)) && Gains(s, s', LockInfo(nonce, name, client, timestamp, expire))
           && q.done == s.pending[name].done && q.waiting == []
         else
           && r.Ok? && r.value.pending && r.value.nonce == 0
           && Placed(a, q, r.value.sequence, name, client, expire, timestamp, s.acquirementExpire)
           && if Available(st, name, timestamp) && (a.waiting == [] || a.waiting[0].acquirer == client) then
                var nonce := InfoAt(st.log, last).lockNonce + 1;
                var granted := if a.waiting == [] then expire else a.waiting[0].command.expire;
                Gains(s, s', LockInfo(nonce, name, client, timestamp, granted)) && |q.done| == |a.done| + 1
              else GainsNothing(s, s') && |q.done| == |a.done|
  }

  lemma NewcomerOutcome(m: Moment, base: nat, step: Step)
    requires Reachable(m, base) && step.RequestStep? && Enabled(m, step) && step.sequence == 0
    ensures Dense(m.leader.store.log)
    ensures var r := AcquireService(m.leader, step.name, step.client, 0, step.expire, step.timestamp).1;
            NewcomerServed(m.leader, step.name, step.client, step.expire, step.timestamp, Next(m, step).leader, r)
  {
    ReachableHoldsInv(m, base);
    CommittedStore(m.leader, base, m.now);
    NewcomerIsServed(m.leader, base, m.now, step.name, step.client, step.expire, step.timestamp);
  }

  lemma NewcomerIsServed(s: Leader, base: nat, now: int, name: string, client: string, expire: int, timestamp: int)
    requires Inv(s, base, now) && now <= timestamp && Dense(s.store.log)
    ensures var (s', r) := AcquireService(s, name, client, 0, expire, timestamp);
            NewcomerServed(s, name, client, expire, timestamp, s', r)
  {
    var c := Commit(s);
    CommittedStore(s, base, now);
    NewcomerSteps(s, c, name, client, expire, timestamp);
    LogTells(c, base, now, name);
    if name in c.pending {
      QueueIsAddressed(c, base, now, name, timestamp);
    }
    hide Inv, CommitProcedure, AcquireService, NewcomerAnswer, NewcomerServed, Abandon;
    CommittedNewcomer(c, name, client, expire, timestamp);
    var (s', r) := AcquireService(s, name, client, 0, expire, timestamp);
    NewcomerBeforeCommit(s, c, name, client, expire, timestamp, s', r);
  }

  lemma NewcomerBeforeCommit(s: Leader, c: Leader, name: string, client: string, expire: int, timestamp: int,
                             s': Leader, r: Result<Response>)
    requires c == s.(store := c.store) && c.store.log == s.store.log && c.store.commitIndex == s.store.commitIndex
    requires Dense(s.store.log) && NewcomerServed(c, name, client, expire, timestamp, s', r)
    ensures NewcomerServed(s, name, client, expire, timestamp, s', r)
  {
    hide Abandon, Placed;
  }

  /** A new request, step by step. */
  function NewcomerAnswer(c: Leader, name: string, client: string, expire: int, timestamp: int): (Leader, Result<Response>) {
    if name !in c.store.stateMap.locks then
      var (s1, r) := AcquireUnknown(c, name, client, expire, timestamp);
      (s1, TicketAnswer(r))
    else if name !in c.pending then (c, Err(EmptyAcquirementError))
    else
      var (s1, r) := AcquireKnown(c, name, client, expire, timestamp, c.store.stateMap.locks[name]);
      (s1, TicketAnswer(r))
  }

  function TicketAnswer(r: Result<Ticket>): Result<Response> {
    match r
    case Err(e) => Err(e)
    case Ok(t) => Ok(if t.sequence == 0 then Response(false, 0, t.nonce) else Response(true, t.sequence, 0))
  }

  lemma NewcomerSteps(s: Leader, c: Leader, name: string, client: string, expire: int, timestamp: int)
    requires c == Commit(s)
    ensures AcquireService(s, name, client, 0, expire, timestamp) == NewcomerAnswer(c, name, client, expire, timestamp)
  {
    hide CommitProcedure, AcquireUnknown, AcquireKnown;
  }

  lemma CommittedNewcomer(c: Leader, name: string, client: string, expire: int, timestamp: int)
    requires Dense(c.store.log) && c.store.lastAppliedIndex == c.store.commitIndex && Told(c, name)
    requires name in c.pending ==>
               var a := Abandon(c.pending[name], timestamp);
               Addressed(a.waiting, name) && a.lastAppendedNonce == c.pending[name].lastAppendedNonce
    ensures var (s', r) := NewcomerAnswer(c, name, client, expire, timestamp);
            NewcomerServed(c, name, client, expire, timestamp, s', r)
  {
    hide Abandon, Addressed, Placed, InsertNew;
    var (s', r) := NewcomerAnswer(c, name, client, expire, timestamp);
    if name in c.pending {
      var a := Abandon(c.pending[name], timestamp);
      if name in c.store.stateMap.locks {
        KnownIsServed(c, name, client, expire, timestamp);
      } else {
        var info := LockInfo(1, name, client, timestamp, expire);
        InsertedIsPlaced(c.pending[name], info, timestamp, c.acquirementExpire);
      }
    } else {
      assert forall i :: !LockEntry(c.store.log, i, name);
      WrittenGains(c, s');
    }
  }

  /** The insert places the client. */
  lemma InsertedIsPlaced(q: Queue, info: LockInfo, timestamp: int, acquirementExpire: nat)
    ensures var a := Abandon(q, timestamp);
            var (q1, n) := InsertNew(q, info, timestamp, acquirementExpire);
            && Placed(a, q1, n, info.lockName, info.newOwner, info.expire, timestamp, acquirementExpire)
            && n > 0 && q1.done == a.done && q1.lastAppendedNonce == q.lastAppendedNonce && q1.waiting != []
            && (if a.waiting == [] then q1.waiting[0].acquirer == info.newOwner && q1.waiting[0].command == info
                else q1.waiting[0] == a.waiting[0])
            && (forall name :: Addressed(a.waiting, name) && info.lockName == name ==> Addressed(q1.waiting, name))
            && (q1.waiting[0].lastRefreshed + q1.waiting[0].expire >= timestamp)
  {
    hide Abandon;
    InsertOutcome(q, info, timestamp, acquirementExpire);
    FrontIsFresh(q, timestamp);
    FetchOutcome(q, false, timestamp);
  }

  /** The claims that stand in q1 stand in q, unless the first was granted. */
  lemma PlacedAfterGrant(a: Queue, q1: Queue, q: Queue, n: nat, name: string, client: string, expire: int, timestamp: int,
                         acquirementExpire: nat)
    requires Placed(a, q1, n, name, client, expire, timestamp, acquirementExpire) && |q1.done| == |a.done| && KeepsClaims(q1, q)
    requires q == q1 || AllStay(q1, q) || (|q.done| == |q1.done| + 1 && |q1.waiting| > 0 && q.waiting == q1.waiting[1..])
    ensures Placed(a, q, n, name, client, expire, timestamp, acquirementExpire)
  {
    if !Known(a, client) {
      assert SameClaim(Claim(q1, n), Claim(q, n));
    }
    forall k: nat | Waits(q, k) ensures Waits(q1, k) && SameClaim(Waiter(q1, k), Waiter(q, k)) && Waiter(q, k).lastRefreshed == Waiter(q1, k).lastRefreshed {
    }
  }

  lemma KnownIsServed(c: Leader, name: string, client: string, expire: int, timestamp: int)
    requires Dense(c.store.log) && c.store.lastAppliedIndex == c.store.commitIndex && Told(c, name)
    requires name in c.pending && name in c.store.stateMap.locks
    requires var a := Abandon(c.pending[name], timestamp);
             Addressed(a.waiting, name) && a.lastAppendedNonce == c.pending[name].lastAppendedNonce
    ensures var (s', r) := AcquireKnown(c, name, client, expire, timestamp, c.store.stateMap.locks[name]);
            NewcomerServed(c, name, client, expire, timestamp, s', TicketAnswer(r))
  {
    var q, st := c.pending[name], c.store.stateMap.locks[name];
    var a := Abandon(q, timestamp);
    if q.lastAppendedNonce == st.lockNonce && q.waiting == [] && st.timestamp + st.expire < timestamp {
      hide Abandon, Placed;
      var s' := AcquireKnown(c, name, client, expire, timestamp, st).0;
      assert Wrote(c, s', LockInfo(st.lockNonce + 1, name, client, timestamp, expire));
      WrittenGains(c, s');
    } else {
      hide Abandon, Placed, InsertNew, RefreshLock, Addressed;
      QueuedIsServed(c, name, client, expire, timestamp);
    }
  }

  /** The queue path of a new request. */
  lemma QueuedIsServed(c: Leader, name: string, client: string, expire: int, timestamp: int)
    requires Dense(c.store.log) && c.store.lastAppliedIndex == c.store.commitIndex && Told(c, name)
    requires name in c.pending && name in c.store.stateMap.locks
    requires var a := Abandon(c.pending[name], timestamp);
             Addressed(a.waiting, name) && a.lastAppendedNonce == c.pending[name].lastAppendedNonce
    ensures var (s', r) := AcquireByQueue(c, name, client, expire, timestamp);
            var a, st := Abandon(c.pending[name], timestamp), c.store;
            && r.Ok? && r.value.nonce == 0 && r.value.sequence > 0 && name in s'.pending
            && Placed(a, s'.pending[name], r.value.sequence, name, client, expire, timestamp, c.acquirementExpire)
            && if Available(st, name, timestamp) && (a.waiting == [] || a.waiting[0].acquirer == client) then
                 var nonce := InfoAt(st.log, Current(st, name)).lockNonce + 1;
                 var granted := if a.waiting == [] then expire else a.waiting[0].command.expire;
                 Gains(c, s', LockInfo(nonce, name, client, timestamp, granted)) && |s'.pending[name].done| == |a.done| + 1
               else GainsNothing(c, s') && |s'.pending[name].done| == |a.done|
  {
    hide Abandon, Placed, InsertNew, RefreshLock, Addressed, Wrote, Unwritten, Gains, GainsNothing;
    var info := LockInfo(0, name, client, timestamp, expire);
    var q, a := c.pending[name], Abandon(c.pending[name], timestamp);
    var (q1, n) := InsertNew(q, info, timestamp, c.acquirementExpire);
    InsertedIsPlaced(q, info, timestamp, c.acquirementExpire);
    AbandonOfFresh(q1, timestamp);
    var s1 := c.(pending := c.pending[name := q1]);
    QueueGrants(s1, name, client, timestamp);
    var s' := RefreshLock(s1, name, client, timestamp).0;
    SameStoreWrites(c, s1, s');
    WrittenGains(c, s');
    PlacedAfterGrant(a, q1, s'.pending[name], n, name, client, expire, timestamp, c.acquirementExpire);
  }

  // ---------------------------------------------------------------------------------------------
  // Releases
  // ---------------------------------------------------------------------------------------------

  /** What a release is answered and what it writes, in every case. */
  ghost predicate ReleaseServed(s: Leader, name: string, applicant: string, timestamp: int, s': Leader, r: Result<(ReleaseInfo, nat)>)
    requires Dense(s.store.log)
  {
    var st, last := s.store, Current(s.store, name);
    if last == 0 then
      r == Ok((if exists i :: LockEntry(st.log, i, name) then TriggerReleaseLater else NoDLockExist, 0)) && GainsNothing(s, s')
    else if InfoAt(st.log, last).newOwner != applicant then r == Ok((AlreadyReleased, 0)) && GainsNothing(s, s')
    else if !Quiet(st, name) then r == Ok((TriggerReleaseLater, 0)) && GainsNothing(s, s')
    else
      var nonce := InfoAt(st.log, last).lockNonce + 1;
      r == Ok((TriggerReleaseSuccess, nonce)) && Gains(s, s', LockInfo(nonce, name, "", timestamp, 0))
  }

  lemma ReleaseOutcome(m: Moment, base: nat, step: Step)
    requires Reachable(m, base) && step.ReleaseStep? && Enabled(m, step)
    ensures Dense(m.leader.store.log)
    ensures var r := Release(m.leader, step.name, step.client, step.timestamp).1;
            ReleaseServed(m.leader, step.name, step.client, step.timestamp, Next(m, step).leader, r)
  {
    ReachableHoldsInv(m, base);
    ReleaseIsServed(m.leader, base, m.now, step.name, step.client, step.timestamp);
  }

  lemma ReleaseIsServed(s: Leader, base: nat, now: int, name: string, applicant: string, timestamp: int)
    requires Inv(s, base, now)
    ensures Dense(s.store.log)
    ensures var (s', r) := Release(s, name, applicant, timestamp);
            ReleaseServed(s, name, applicant, timestamp, s', r)
  {
    var c := Commit(s);
    CommittedStore(s, base, now);
    LogTells(c, base, now, name);
    if name in c.pending && name !in c.store.stateMap.locks {
      NoncesArePositive(c, base, now, name);
    }
    hide Inv, CommitProcedure, ReleaseServed, AppendLock;
    CommittedRelease(s, c, name, applicant, timestamp);
    var (s', r) := Release(s, name, applicant, timestamp);
    ReleaseBeforeCommit(s, c, name, applicant, timestamp, s', r);
  }

  lemma CommittedRelease(s: Leader, c: Leader, name: string, applicant: string, timestamp: int)
    requires c == Commit(s) && Dense(c.store.log) && c.store.lastAppliedIndex == c.store.commitIndex && Told(c, name)
    requires name in c.pending && name !in c.store.stateMap.locks ==> c.pending[name].lastAppendedNonce > 0
    ensures var (s', r) := Release(s, name, applicant, timestamp);
            ReleaseServed(c, name, applicant, timestamp, s', r)
  {
    hide CommitProcedure, Gains, GainsNothing, Quiet, Append, Current;
    var s' := Release(s, name, applicant, timestamp).0;
    WrittenGains(c, s');
    if name in c.store.stateMap.locks {
      AppendLockWrites(c, ReleaseOf(c.store.stateMap.locks[name], timestamp));
    }
    hide AppendLock;
  }

  lemma AppendLockWrites(c: Leader, info: LockInfo)
    ensures Wrote(c, AppendLock(c, info), info)
  {
  }

  lemma ReleaseBeforeCommit(s: Leader, c: Leader, name: string, applicant: string, timestamp: int,
                            s': Leader, r: Result<(ReleaseInfo, nat)>)
    requires c == s.(store := c.store) && c.store.log == s.store.log && c.store.commitIndex == s.store.commitIndex
    requires Dense(s.store.log) && ReleaseServed(c, name, applicant, timestamp, s', r)
    ensures ReleaseServed(s, name, applicant, timestamp, s', r)
  {
  }

  lemma NoncesArePositive(c: Leader, base: nat, now: int, name: string)
    requires Inv(c, base, now) && name in c.pending && name !in c.store.stateMap.locks
    ensures c.pending[name].lastAppendedNonce > 0
  {
    SettledIffNonce(c, base, now, name);
  }

  // ---------------------------------------------------------------------------------------------
  // The scan
  // ---------------------------------------------------------------------------------------------

  /** The lock has an owner whose lease has run out, and nothing of it is in flight. */
  ghost predicate ReleaseDue(st: Store, name: string, timestamp: int)
    requires Dense(st.log)
  {
    var last := Current(st, name);
    && last > 0 && Quiet(st, name) && InfoAt(st.log, last).newOwner != ""
    && InfoAt(st.log, last).timestamp + InfoAt(st.log, last).expire < timestamp
  }

  ghost predicate ScanDue(s: Leader, name: string, timestamp: int)
    requires name in s.store.stateMap.locks
  {
    var st := s.store.stateMap.locks[name];
    HandlerOf(s, name).lastAppendedNonce <= st.lockNonce && st.timestamp + st.expire < timestamp && st.owner != ""
  }

  ghost predicate Mentions(due: seq<LockInfo>, name: string) {
    exists i :: 0 <= i < |due| && due[i].lockName == name
  }

  /** The scan collects exactly the due releases, one for each lock. */
  ghost predicate CollectsDue(s: Leader, names: seq<string>, timestamp: int, due: seq<LockInfo>)
    requires forall n :: n in names ==> n in s.store.stateMap.locks
  {
    && (forall n :: n in names ==> (ScanDue(s, n, timestamp) <==> Mentions(due, n)))
    && (forall i :: 0 <= i < |due| ==>
          && due[i].lockName in names
          && due[i] == LockInfo(s.store.stateMap.locks[due[i].lockName].lockNonce + 1, due[i].lockName, "", timestamp, 0))
    && (forall i, j :: 0 <= i < j < |due| ==> due[i].lockName != due[j].lockName)
  }

  lemma {:induction false} ScanCollectsDue(s: Leader, names: seq<string>, timestamp: int)
    requires NoDuplicates(names) && forall n :: n in names ==> n in s.store.stateMap.locks
    requires forall n :: n in s.store.stateMap.locks ==> s.store.stateMap.locks[n].lockName == n
    ensures var (s', due) := ScanLocks(s, names, timestamp);
            && CollectsDue(s, names, timestamp, due)
            && (forall n :: n !in names ==> (n in s'.pending <==> n in s.pending) && (n in s.pending ==> s'.pending[n] == s.pending[n]))
  {
    if names != [] {
      var before, name := names[..|names| - 1], names[|names| - 1];
      assert names == before + [name] && name !in before;
      ScanCollectsDue(s, before, timestamp);
      var (s1, due) := ScanLocks(s, before, timestamp);
      var (s2, more) := ScanOne(s1, name, timestamp);
      assert ScanLocks(s, before, timestamp) == (s1, due) && ScanOne(s1, name, timestamp) == (s2, more);
      assert name in s1.pending <==> name in s.pending;
      assert HandlerOf(s1, name) == HandlerOf(s, name);
      OneMoreCollected(s, before, name, timestamp, s1, due, more);
    }
  }

  lemma OneMoreCollected(s: Leader, before: seq<string>, name: string, timestamp: int, s1: Leader, due: seq<LockInfo>, more: seq<LockInfo>)
    requires name !in before && forall n :: n in before + [name] ==> n in s.store.stateMap.locks
    requires CollectsDue(s, before, timestamp, due) && s1.store == s.store && s.store.stateMap.locks[name].lockName == name
    requires HandlerOf(s1, name) == HandlerOf(s, name) && more == ScanOne(s1, name, timestamp).1
    ensures CollectsDue(s, before + [name], timestamp, due + more)
  {
    ScanOneIsExact(s, s1, name, timestamp, more);
    hide ScanOne, ScanDue, HandlerOf;
    forall n | n in before + [name] ensures ScanDue(s, n, timestamp) <==> Mentions(due + more, n) {
      MentionsJoin(due, more, n);
      if n == name && Mentions(due, n) {
        var i := MentionedAt(due, n);
      }
    }
  }

  lemma MentionsJoin(due: seq<LockInfo>, more: seq<LockInfo>, n: string)
    ensures Mentions(due + more, n) <==> Mentions(due, n) || Mentions(more, n)
  {
    if Mentions(due, n) {
      var i := MentionedAt(due, n);
      assert (due + more)[i] == due[i];
    }
    if Mentions(more, n) {
      var i := MentionedAt(more, n);
      assert (due + more)[|due| + i] == more[i];
    }
  }

  lemma ScanOneIsExact(s: Leader, s1: Leader, name: string, timestamp: int, more: seq<LockInfo>)
    requires name in s.store.stateMap.locks && s.store.stateMap.locks[name].lockName == name && s1.store == s.store
    requires HandlerOf(s1, name) == HandlerOf(s, name) && more == ScanOne(s1, name, timestamp).1
    ensures if ScanDue(s, name, timestamp) then more == [LockInfo(s.store.stateMap.locks[name].lockNonce + 1, name, "", timestamp, 0)]
            else more == []
    ensures forall n :: Mentions(more, n) <==> n == name && ScanDue(s, name, timestamp)
  {
    var k := AbandonDropsExpiredPrefix(HandlerOf(s, name), timestamp);
    hide Abandon;
    if ScanDue(s, name, timestamp) {
      assert more[0].lockName == name;
    }
  }

  /** The release of an expired lock is at i. */
  ghost predicate ReleasedAt(st: Store, log: Log, i: nat, name: string, timestamp: int)
    requires Dense(st.log)
  {
    && ReleaseDue(st, name, timestamp)
    && HoldsInfo(log, i, LockInfo(InfoAt(st.log, Current(st, name)).lockNonce + 1, name, "", timestamp, 0))
  }

  /** From `before` to `after` the log has gained one release for exactly those locks whose release is due, and
      nothing else. */
  ghost predicate ScanWrote(before: Store, after: Store, timestamp: int)
    requires Dense(before.log)
  {
    var old', new', max := before.log, after.log, before.log.maximumIndex;
    && Prefix(old', new')
    && (forall name :: ReleaseDue(before, name, timestamp) <==> exists i :: max < i <= new'.maximumIndex && ReleasedAt(before, new', i, name, timestamp))
    && (forall i :: max < i <= new'.maximumIndex ==>
          i in new'.entries && new'.entries[i].command.DLock?
          && ReleasedAt(before, new', i, new'.entries[i].command.info.lockName, timestamp))
    && (forall i, j :: max < i < j <= new'.maximumIndex ==> new'.entries[i].command != new'.entries[j].command)
  }

  /** After a scan the log holds one new release for exactly those locks that have an owner, whose lease is over
      and of which nothing is in flight, and no other new entry. */
  lemma ScanOutcome(m: Moment, base: nat, step: Step)
    requires Reachable(m, base) && step.ScanStep? && Enabled(m, step)
    ensures Dense(m.leader.store.log)
    ensures var st, after := m.leader.store, Next(m, step).leader.store;
            ScanWrote(st, after, step.timestamp) && after.commitIndex == after.lastAppliedIndex == st.commitIndex
  {
    ReachableHoldsInv(m, base);
    var c := Commit(m.leader);
    CommittedStore(m.leader, base, m.now);
    ScanIsComplete(c, base, m.now, step.names, step.timestamp);
    hide Inv, Scan, CommitProcedure;
    ScanBeforeCommit(m.leader.store, c.store, Next(m, step).leader.store, step.timestamp);
  }

  lemma ScanBeforeCommit(st: Store, c: Store, after: Store, timestamp: int)
    requires c.log == st.log && c.commitIndex == st.commitIndex && Dense(st.log) && ScanWrote(c, after, timestamp)
    ensures ScanWrote(st, after, timestamp)
  {
    assert forall name :: ReleaseDue(st, name, timestamp) <==> ReleaseDue(c, name, timestamp);
    assert forall i, name :: ReleasedAt(st, after.log, i, name, timestamp) <==> ReleasedAt(c, after.log, i, name, timestamp);
    hide ReleasedAt, ReleaseDue;
  }

  lemma ScanIsComplete(c: Leader, base: nat, now: int, names: seq<string>, timestamp: int)
    requires Inv(c, base, now) && c.store.lastAppliedIndex == c.store.commitIndex && Enumerates(names, c.store.stateMap.locks)
    ensures ScanWrote(c.store, Scan(c, names, timestamp).store, timestamp)
    ensures var after := Scan(c, names, timestamp).store;
            after.commitIndex == c.store.commitIndex && after.lastAppliedIndex == c.store.lastAppliedIndex
  {
    var (s1, due) := ScanLocks(c, names, timestamp);
    StoreIsWellFormed(c, base, now);
    DueByLog(c, base, now, names, timestamp, due);
    hide Inv, ScanLocks, DueInLog, ScanWrote, AppendLocks;
    AppendLocksKeepsIndices(s1, due);
    AppendedReleases(c, s1, due, timestamp);
  }

  /** What the scan sees of a lock is what the log says of it. */
  ghost predicate Visible(c: Leader, name: string)
    requires Dense(c.store.log)
  {
    var last := Current(c.store, name);
    && (name in c.store.stateMap.locks <==> last > 0)
    && (last > 0 ==>
          var st, info := c.store.stateMap.locks[name], InfoAt(c.store.log, last);
          && st.owner == info.newOwner && st.lockNonce == info.lockNonce && st.lockName == name
          && st.timestamp == info.timestamp && st.expire == info.expire
          && (HandlerOf(c, name).lastAppendedNonce <= st.lockNonce <==> Quiet(c.store, name)))
  }

  /** The scan with which a reign opens does the same. */
  lemma OpeningOutcome(s: Leader, names: seq<string>, timestamp: int)
    requires MayOpen(s, names)
    ensures ScanWrote(s.store, Open(s, names, timestamp).leader.store, timestamp)
  {
    CommitAppliesIffOrderly(s.store);
    CommitKeepsLog(s);
    var c := Commit(s);
    forall n ensures Visible(c, n) {
      OpeningIsVisible(s, c, names, n);
    }
    forall n | n in c.store.stateMap.locks ensures c.store.stateMap.locks[n].lockName == n {
      assert Visible(c, n);
    }
    ScanCollectsDue(c, names, timestamp);
    var (s1, due) := ScanLocks(c, names, timestamp);
    hide CollectsDue, ScanLocks, Visible, AppendLocks, ScanWrote, CommitProcedure, Describes, Orderly;
    DueIsTold(c, names, timestamp, due);
    AppendedReleases(c, s1, due, timestamp);
    ScanBeforeCommit(s.store, c.store, Open(s, names, timestamp).leader.store, timestamp);
  }

  lemma OpeningIsVisible(s: Leader, c: Leader, names: seq<string>, name: string)
    requires MayOpen(s, names) && c == Commit(s) && c.store.log == s.store.log && c.pending == map[]
    requires Faithful(c.store) && c.store.lastAppliedIndex == c.store.commitIndex == s.store.commitIndex
    ensures Visible(c, name)
  {
    hide CommitProcedure, Orderly;
    LastOfIsGreatest(c.store.log, c.store.commitIndex, name);
    if name in c.store.stateMap.locks {
      assert DescribesLock(c.store.stateMap, c.store.log, c.store.lastAppliedIndex, name);
    }
    assert Quiet(c.store, name);
  }

  /** What is collected, in terms of the log. */
  ghost predicate DueInLog(st: Store, due: seq<LockInfo>, timestamp: int)
    requires Dense(st.log)
  {
    && (forall name :: ReleaseDue(st, name, timestamp) <==> Mentions(due, name))
    && (forall i :: 0 <= i < |due| ==>
          && ReleaseDue(st, due[i].lockName, timestamp)
          && due[i] == LockInfo(InfoAt(st.log, Current(st, due[i].lockName)).lockNonce + 1, due[i].lockName, "", timestamp, 0))
    && (forall i, j :: 0 <= i < j < |due| ==> due[i].lockName != due[j].lockName)
  }

  lemma DueByLog(c: Leader, base: nat, now: int, names: seq<string>, timestamp: int, due: seq<LockInfo>)
    requires Inv(c, base, now) && c.store.lastAppliedIndex == c.store.commitIndex && Enumerates(names, c.store.stateMap.locks)
    requires due == ScanLocks(c, names, timestamp).1
    ensures DueInLog(c.store, due, timestamp)
  {
    forall n ensures Visible(c, n) {
      LogTells(c, base, now, n);
    }
    forall n | n in c.store.stateMap.locks ensures c.store.stateMap.locks[n].lockName == n {
      assert Visible(c, n);
    }
    ScanCollectsDue(c, names, timestamp);
    hide Inv, ScanLocks, CollectsDue;
    DueIsTold(c, names, timestamp, due);
  }

  lemma DueIsTold(c: Leader, names: seq<string>, timestamp: int, due: seq<LockInfo>)
    requires Dense(c.store.log) && Enumerates(names, c.store.stateMap.locks) && (forall n :: Visible(c, n))
    requires CollectsDue(c, names, timestamp, due)
    ensures DueInLog(c.store, due, timestamp)
  {
    hide Mentions, Current, Visible;
    forall name ensures ReleaseDue(c.store, name, timestamp) <==> Mentions(due, name) {
      ToldIsDue(c, name, timestamp);
      if Mentions(due, name) {
        var k := MentionedAt(due, name);
      }
    }
    forall i | 0 <= i < |due| ensures ReleaseDue(c.store, due[i].lockName, timestamp) {
      ToldIsDue(c, due[i].lockName, timestamp);
      MentionsOne(due, i);
    }
    forall i | 0 <= i < |due|
      ensures due[i] == LockInfo(InfoAt(c.store.log, Current(c.store, due[i].lockName)).lockNonce + 1, due[i].lockName, "", timestamp, 0)
    {
      ToldIsDue(c, due[i].lockName, timestamp);
    }
  }

  lemma MentionsOne(due: seq<LockInfo>, i: nat)
    requires i < |due|
    ensures Mentions(due, due[i].lockName)
  {
  }

  lemma ToldIsDue(c: Leader, name: string, timestamp: int)
    requires Dense(c.store.log) && Visible(c, name)
    ensures name in c.store.stateMap.locks <==> Current(c.store, name) > 0
    ensures ReleaseDue(c.store, name, timestamp) ==> name in c.store.stateMap.locks
    ensures name in c.store.stateMap.locks ==>
              && (ScanDue(c, name, timestamp) <==> ReleaseDue(c.store, name, timestamp))
              && c.store.stateMap.locks[name].lockNonce == InfoAt(c.store.log, Current(c.store, name)).lockNonce
  {
  }

  lemma AppendedReleases(c: Leader, s1: Leader, due: seq<LockInfo>, timestamp: int)
    requires Dense(c.store.log) && s1.store == c.store && DueInLog(c.store, due, timestamp)
    ensures ScanWrote(c.store, AppendLocks(s1, due).store, timestamp)
  {
    hide AppendLocks, DueInLog, ScanWrote, Prefix, Written;
    AppendLocksWrite(s1, due);
    ReleasesAreWritten(c.store, AppendLocks(s1, due).store, due, timestamp);
  }

  /** Behind max stand the commands of the list. */
  ghost predicate Written(log: Log, max: nat, due: seq<LockInfo>) {
    log.maximumIndex == max + |due| && forall i :: max < i <= max + |due| ==> WrittenAt(log, max, due, i)
  }

  ghost predicate WrittenAt(log: Log, max: nat, due: seq<LockInfo>, i: nat) {
    max < i <= max + |due| && HoldsInfo(log, i, due[i - max - 1])
  }

  lemma {:induction false} AppendLocksWrite(s: Leader, due: seq<LockInfo>)
    requires Dense(s.store.log)
    ensures var log, after := s.store.log, AppendLocks(s, due).store.log;
            Dense(after) && Prefix(log, after) && Written(after, log.maximumIndex, due)
  {
    var log, max := s.store.log, s.store.log.maximumIndex;
    if due != [] {
      var before := due[..|due| - 1];
      AppendLocksWrite(s, before);
      var s1 := AppendLocks(s, before);
      AppendEffect(s1.store.log, s1.term, DLock(due[|due| - 1]));
      var after := AppendLocks(s, due).store.log;
      hide AppendLocks, Append;
      forall i | max < i <= max + |due| ensures WrittenAt(after, max, due, i) {
        if i < max + |due| {
          assert WrittenAt(s1.store.log, max, before, i);
        }
      }
    }
  }

  lemma ReleasesAreWritten(st: Store, after: Store, due: seq<LockInfo>, timestamp: int)
    requires Dense(st.log) && DueInLog(st, due, timestamp) && Prefix(st.log, after.log)
    requires Written(after.log, st.log.maximumIndex, due)
    ensures ScanWrote(st, after, timestamp)
  {
    hide ReleaseDue, Prefix, Mentions;
    var max := st.log.maximumIndex;
    forall i | max < i <= after.log.maximumIndex
      ensures i in after.log.entries && after.log.entries[i].command == DLock(due[i - max - 1])
      ensures ReleasedAt(st, after.log, i, due[i - max - 1].lockName, timestamp)
    {
      assert WrittenAt(after.log, max, due, i);
    }
    forall name | ReleaseDue(st, name, timestamp)
      ensures exists i :: max < i <= after.log.maximumIndex && ReleasedAt(st, after.log, i, name, timestamp)
    {
      var k := MentionedAt(due, name);
      assert ReleasedAt(st, after.log, max + 1 + k, due[max + 1 + k - max - 1].lockName, timestamp);
    }
  }

  lemma MentionedAt(due: seq<LockInfo>, name: string) returns (k: nat)
    requires Mentions(due, name)
    ensures k < |due| && due[k].lockName == name
  {
    k :| 0 <= k < |due| && due[k].lockName == name;
  }

  lemma {:induction false} AppendLocksKeepsIndices(s: Leader, due: seq<LockInfo>)
    ensures var after := AppendLocks(s, due).store;
            after.commitIndex == s.store.commitIndex && after.lastAppliedIndex == s.store.lastAppliedIndex
  {
    if due != [] {
      AppendLocksKeepsIndices(s, due[..|due| - 1]);
    }
  }

  // ---------------------------------------------------------------------------------------------
  // Receipts
  // ---------------------------------------------------------------------------------------------

  /** The length of the lease that a granted request gets: a new request's own, or that of the claim that waits
      first. */
  ghost function LeaseOf(s: Leader, step: Step): int
    requires step.RequestStep?
  {
    if step.sequence != 0 && step.name in s.pending && Abandon(s.pending[step.name], step.timestamp).waiting != [] then
      Abandon(s.pending[step.name], step.timestamp).waiting[0].command.expire
    else step.expire
  }

  lemma AnswerIsEntry(m: Moment, base: nat, step: Step)
    requires Reachable(m, base) && step.RequestStep? && Enabled(m, step)
    requires var r := AcquireService(m.leader, step.name, step.client, step.sequence, step.expire, step.timestamp).1;
             r.Ok? && r.value.nonce > 0
    ensures var r := AcquireService(m.leader, step.name, step.client, step.sequence, step.expire, step.timestamp).1.value;
            && !r.pending
            && Gains(m.leader, Next(m, step).leader, LockInfo(r.nonce, step.name, step.client, step.timestamp, LeaseOf(m.leader, step)))
  {
    hide Reachable, AcquireService, Next, Gains, GainsNothing, Abandon, Remain, Placed;
    if step.sequence != 0 {
      WaiterOutcome(m, base, step);
    } else {
      NewcomerOutcome(m, base, step);
    }
  }

  /** A non-zero nonce answered to a client names exactly one entry of that lock in the reign, now and
      ever after; it is the client's grant, with the lease that was asked for, and once the applied nonce has
      reached it, it is applied. */
  lemma GrantReceipt(m: Moment, base: nat, step: Step, steps: seq<Step>, m2: Moment) returns (i: nat)
    requires Reachable(m, base) && step.RequestStep? && Enabled(m, step) && Leads(Next(m, step), steps, m2)
    requires var r := AcquireService(m.leader, step.name, step.client, step.sequence, step.expire, step.timestamp).1;
             r.Ok? && r.value.nonce > 0
    ensures var r := AcquireService(m.leader, step.name, step.client, step.sequence, step.expire, step.timestamp).1.value;
            var log := m2.leader.store.log;
            && !r.pending
            && base < i <= log.maximumIndex
            && HoldsInfo(log, i, LockInfo(r.nonce, step.name, step.client, step.timestamp, LeaseOf(m.leader, step)))
            && (forall j :: base < j && LockEntry(log, j, step.name) && InfoAt(log, j).lockNonce == r.nonce ==> j == i)
            && (AppliedNonce(m2.leader.store.stateMap, step.name) >= r.nonce ==> i <= m2.leader.store.lastAppliedIndex)
  {
    AnswerIsEntry(m, base, step);
    ReachableHoldsInv(m, base);
    var nonce := AcquireService(m.leader, step.name, step.client, step.sequence, step.expire, step.timestamp).1.value.nonce;
    i := m.leader.store.log.maximumIndex + 1;
    var m1 := Next(m, step);
    EntryIsNew(m.leader, base, m.now);
    assert HoldsInfo(m1.leader.store.log, i, LockInfo(nonce, step.name, step.client, step.timestamp, LeaseOf(m.leader, step)));
    StepKeepsInv(m, base, step);
    hide Inv, Next, AcquireService, Reachable, LeaseOf, Gains;
    ReceiptLasts(m1, base, steps, m2, i, LockInfo(nonce, step.name, step.client, step.timestamp, LeaseOf(m.leader, step)));
  }

  lemma EntryIsNew(s: Leader, base: nat, now: int)
    requires Inv(s, base, now)
    ensures base <= s.store.log.maximumIndex
  {
  }

  lemma ReceiptLasts(m1: Moment, base: nat, steps: seq<Step>, m2: Moment, i: nat, info: LockInfo)
    requires Inv(m1.leader, base, m1.now) && Leads(m1, steps, m2) && base < i <= m1.leader.store.log.maximumIndex
    requires HoldsInfo(m1.leader.store.log, i, info) && info.lockNonce > 0
    ensures i <= m2.leader.store.log.maximumIndex && HoldsInfo(m2.leader.store.log, i, info)
    ensures forall j :: base < j && LockEntry(m2.leader.store.log, j, info.lockName) ==>
              (InfoAt(m2.leader.store.log, j).lockNonce == info.lockNonce ==> j == i)
    ensures AppliedNonce(m2.leader.store.stateMap, info.lockName) >= info.lockNonce ==> i <= m2.leader.store.lastAppliedIndex
  {
    RunExtends(m1, base, steps, m2);
    RunKeepsInv(m1, base, steps, m2);
    var log, name := m2.leader.store.log, info.lockName;
    hide Leads;
    forall j | base < j && LockEntry(log, j, name) && InfoAt(log, j).lockNonce == info.lockNonce ensures j == i {
      if j < i {
        NoncesGrow(log, base, m2.leader.term, name, j, i);
      } else if i < j {
        NoncesGrow(log, base, m2.leader.term, name, i, j);
      }
    }
    if AppliedNonce(m2.leader.store.stateMap, name) >= info.lockNonce {
      ReceiptIsApplied(m2, base, name, i);
    }
  }

  // ---------------------------------------------------------------------------------------------
  // A place in the queue
  // ---------------------------------------------------------------------------------------------

  /** A new request that gets a new number: ever after that number is this client's, for the lease it has asked
      for; whenever it is granted, the log holds the entry with that lease. */
  lemma TicketIsHonoured(m: Moment, base: nat, step: Step, steps: seq<Step>, m2: Moment)
    requires Reachable(m, base) && step.RequestStep? && step.sequence == 0 && Enabled(m, step) && Leads(Next(m, step), steps, m2)
    requires var r := AcquireService(m.leader, step.name, step.client, 0, step.expire, step.timestamp).1;
             && r.Ok? && r.value.pending && step.name in m.leader.pending
             && !Known(Abandon(m.leader.pending[step.name], step.timestamp), step.client)
    ensures var n := AcquireService(m.leader, step.name, step.client, 0, step.expire, step.timestamp).1.value.sequence;
            && step.name in m2.leader.pending && 0 < n <= m2.leader.pending[step.name].Assigned()
            && var q := m2.leader.pending[step.name];
               && Claim(q, n).acquirer == step.client && Claim(q, n).command.expire == step.expire
               && (n <= |q.done| && q.done[n - 1].Granted? ==>
                     Recorded(m2.leader.store.log, base,
                              LockInfo(q.done[n - 1].nonce, step.name, step.client, q.done[n - 1].at, step.expire)))
  {
    NewcomerOutcome(m, base, step);
    ReachableHoldsInv(m, base);
    StepKeepsInv(m, base, step);
    var m1, n := Next(m, step), AcquireService(m.leader, step.name, step.client, 0, step.expire, step.timestamp).1.value.sequence;
    NewNumberIsClaimed(m, base, step);
    RunExtends(m1, base, steps, m2);
    RunKeepsInv(m1, base, steps, m2);
    hide Reachable, Next, AcquireService, Leads, Inv, NewcomerServed;
    ClaimLasts(m1.leader, m2.leader, step.name, n);
    InvIsCore(m2.leader, base, m2.now);
    QueueOf(m2.leader, base, m2.now, step.name);
    var q := m2.leader.pending[step.name];
    if n <= |q.done| && q.done[n - 1].Granted? {
      assert q.done[n - 1] in q.done;
    }
  }

  lemma ClaimLasts(s1: Leader, s2: Leader, name: string, n: nat)
    requires Extends(s1, s2) && name in s1.pending && 0 < n <= s1.pending[name].Assigned()
    ensures name in s2.pending && 0 < n <= s2.pending[name].Assigned()
    ensures SameClaim(Claim(s1.pending[name], n), Claim(s2.pending[name], n))
  {
  }

  lemma NewNumberIsClaimed(m: Moment, base: nat, step: Step)
    requires Reachable(m, base) && step.RequestStep? && step.sequence == 0 && Enabled(m, step)
    requires var r := AcquireService(m.leader, step.name, step.client, 0, step.expire, step.timestamp).1;
             && r.Ok? && r.value.pending && step.name in m.leader.pending
             && !Known(Abandon(m.leader.pending[step.name], step.timestamp), step.client)
    ensures var n := AcquireService(m.leader, step.name, step.client, 0, step.expire, step.timestamp).1.value.sequence;
            && step.name in Next(m, step).leader.pending
            && var q := Next(m, step).leader.pending[step.name];
               0 < n <= q.Assigned() && Claim(q, n).acquirer == step.client && Claim(q, n).command.expire == step.expire
  {
    hide Reachable, AcquireService, Next, Gains, GainsNothing, Abandon;
    NewcomerOutcome(m, base, step);
  }

  /** The grant that a client gets for its number carries the lease that it asked for when it got the number. */
  lemma PromisedLease(m: Moment, base: nat, step: Step, steps: seq<Step>, m2: Moment, later: Step)
    requires Reachable(m, base) && step.RequestStep? && step.sequence == 0 && Enabled(m, step) && Leads(Next(m, step), steps, m2)
    requires var r := AcquireService(m.leader, step.name, step.client, 0, step.expire, step.timestamp).1;
             && r.Ok? && r.value.pending && step.name in m.leader.pending
             && !Known(Abandon(m.leader.pending[step.name], step.timestamp), step.client)
             && later.RequestStep? && Enabled(m2, later) && later.name == step.name && later.client == step.client
             && later.sequence == r.value.sequence
    requires var r := AcquireService(m2.leader, later.name, later.client, later.sequence, later.expire, later.timestamp).1;
             r.Ok? && r.value.nonce > 0
    ensures var r := AcquireService(m2.leader, later.name, later.client, later.sequence, later.expire, later.timestamp).1;
            Gains(m2.leader, Next(m2, later).leader, LockInfo(r.value.nonce, step.name, step.client, later.timestamp, step.expire))
  {
    TicketIsHonoured(m, base, step, steps, m2);
    assert ([step] + steps)[1..] == steps;
    ReachableGoesOn(m, base, [step] + steps, m2);
    hide Reachable, AcquireService, Next, Gains, Leads, Abandon;
    WaiterIsGrantedIff(m2, base, later);
    ReachableHoldsInv(m2, base);
    QueueIsAddressed(m2.leader, base, m2.now, step.name, later.timestamp);
    hide Inv;
    OwnClaimIsFirst(m2.leader.pending[step.name], later.sequence, step.client, later.timestamp);
  }

  lemma OwnClaimIsFirst(q: Queue, n: nat, client: string, timestamp: int)
    requires var a := Abandon(q, timestamp); Distinct(a.waiting) && Waits(a, n) && a.waiting[0].acquirer == client
    requires 0 < n <= q.Assigned() && Claim(q, n).acquirer == client
    ensures Abandon(q, timestamp).waiting[0].command.expire == Claim(q, n).command.expire
  {
    AbandonKeepsClaims(q, timestamp);
    hide Abandon;
    assert SameClaim(Claim(q, n), Claim(Abandon(q, timestamp), n));
  }

  // ---------------------------------------------------------------------------------------------
  // The other queues
  // ---------------------------------------------------------------------------------------------

  /** The same outcomes and the same waiting list. */
  ghost predicate SameList(a: Queue, b: Queue) {
    a.done == b.done && a.waiting == b.waiting
  }

  /** The scan relieves the queues that it visits of their expired prefix, and opens an empty one where there is none. */
  ghost predicate Relieved(before: map<string, Queue>, after: map<string, Queue>, names: seq<string>, timestamp: int) {
    && (forall n :: n in after <==> n in before || n in names)
    && (forall n :: n in before ==> SameList(after[n], if n in names then Abandon(before[n], timestamp) else before[n]))
    && (forall n :: n in after && n !in before ==> after[n].done == [] && after[n].waiting == [])
  }

  ghost predicate QueuesMove(step: Step, before: map<string, Queue>, after: map<string, Queue>) {
    match step
    case RequestStep(name, _, _, _, _) =>
      forall n :: n != name ==> (n in after <==> n in before) && (n in before ==> after[n] == before[n])
    case ScanStep(names, timestamp) => Relieved(before, after, names, timestamp)
    case ReleaseStep(_, _, _) => after.Keys == before.Keys && forall n :: n in before ==> SameList(after[n], before[n])
    case _ => after == before
  }

  /** Only a request and the scan touch queues: the request that of its own lock, the scan all it visits, which it
      relieves of their expired prefix. */
  lemma QueuesOfStep(m: Moment, base: nat, step: Step)
    requires Reachable(m, base) && Enabled(m, step)
    ensures QueuesMove(step, m.leader.pending, Next(m, step).leader.pending)
  {
    CommitKeepsLog(m.leader);
    match step
    case RequestStep(name, client, sequence, expire, timestamp) =>
      ReachableHoldsInv(m, base);
      RequestKeepsOthers(m.leader, base, m.now, name, client, sequence, expire, timestamp);
      hide Reachable, Inv, AcquireService;
    case ScanStep(names, timestamp) =>
      hide Reachable, CommitProcedure;
      ScanQueues(Commit(m.leader), names, timestamp);
      hide Scan, Abandon;
    case ReleaseStep(name, client, timestamp) =>
      ReleaseQueues(m.leader, name, client, timestamp);
      hide Reachable, Release;
    case _ =>
  }

  lemma ReleaseQueues(s: Leader, name: string, client: string, timestamp: int)
    ensures QueuesMove(ReleaseStep(name, client, timestamp), s.pending, Release(s, name, client, timestamp).0.pending)
  {
    CommitKeepsLog(s);
    hide CommitProcedure, Append;
  }

  lemma ScanQueues(c: Leader, names: seq<string>, timestamp: int)
    requires forall n :: n in names ==> n in c.store.stateMap.locks
    ensures QueuesMove(ScanStep(names, timestamp), c.pending, Scan(c, names, timestamp).pending)
  {
    ScanLocksQueues(c, names, timestamp);
    var (s1, due) := ScanLocks(c, names, timestamp);
    AppendLocksQueues(s1, due);
    hide ScanLocks, AppendLocks, Abandon;
  }

  ghost predicate OthersStay(s: Leader, s': Leader, name: string) {
    forall n :: n != name ==> (n in s'.pending <==> n in s.pending) && (n in s.pending ==> s'.pending[n] == s.pending[n])
  }

  lemma RequestKeepsOthers(s: Leader, base: nat, now: int, name: string, client: string, sequence: nat, expire: int, timestamp: int)
    requires Inv(s, base, now) && now <= timestamp
    ensures OthersStay(s, AcquireService(s, name, client, sequence, expire, timestamp).0, name)
  {
    hide Inv, CommitProcedure, Abandon, InsertNew, AcquirementQueue.Refresh, Append, RefreshLock, Addressed, AcquireService,
         WaiterAnswer, NewcomerAnswer, Distinct;
    var c := Commit(s);
    CommittedStore(s, base, now);
    if name in c.pending {
      QueueIsAddressed(c, base, now, name, timestamp);
    }
    if sequence != 0 {
      WaiterSteps(s, c, name, client, sequence, expire, timestamp);
      WaiterKeepsOthers(c, name, client, sequence, timestamp);
    } else {
      NewcomerSteps(s, c, name, client, expire, timestamp);
      NewcomerKeepsOthers(c, name, client, expire, timestamp);
    }
  }

  lemma WaiterKeepsOthers(c: Leader, name: string, client: string, sequence: nat, timestamp: int)
    requires name in c.pending ==> Addressed(Abandon(c.pending[name], timestamp).waiting, name)
    ensures OthersStay(c, WaiterAnswer(c, name, client, sequence, timestamp).0, name)
  {
    hide Abandon, AcquirementQueue.Refresh, RefreshLock, Addressed;
    if name in c.pending {
      var a := Abandon(c.pending[name], timestamp);
      AbandonIdempotent(c.pending[name], timestamp);
      var (q, err) := AcquirementQueue.Refresh(a, sequence, timestamp);
      if err.None? {
        RefreshKeepsAddress(a, q, sequence, timestamp, name);
        RefreshedQueue(a, q, sequence, timestamp);
        RefreshKeepsOthers(c.(pending := c.pending[name := q]), name, client, timestamp);
      }
    }
  }

  lemma NewcomerKeepsOthers(c: Leader, name: string, client: string, expire: int, timestamp: int)
    requires name in c.pending ==> Addressed(Abandon(c.pending[name], timestamp).waiting, name)
    ensures OthersStay(c, NewcomerAnswer(c, name, client, expire, timestamp).0, name)
  {
    hide Abandon, InsertNew, RefreshLock, Addressed, Append;
    if name in c.pending {
      var info := LockInfo(0, name, client, timestamp, expire);
      var q := InsertNew(c.pending[name], info, timestamp, c.acquirementExpire).0;
      InsertedIsPlaced(c.pending[name], info, timestamp, c.acquirementExpire);
      AbandonOfFresh(q, timestamp);
      RefreshKeepsOthers(c.(pending := c.pending[name := q]), name, client, timestamp);
    }
  }

  lemma RefreshKeepsOthers(s: Leader, name: string, client: string, timestamp: int)
    requires name in s.pending ==> Addressed(Abandon(s.pending[name], timestamp).waiting, name)
    ensures OthersStay(s, RefreshLock(s, name, client, timestamp).0, name)
  {
    if name in s.pending {
      var q := s.pending[name];
      FetchOutcome(q, false, timestamp);
      if FetchFirst(q, false, timestamp).1.Some? {
        LookThenPop(q, timestamp);
      }
      hide Abandon, FetchFirst, Append;
    }
  }

  lemma AbandonSameList(a: Queue, b: Queue, timestamp: int, again: bool)
    requires SameList(a, if again then Abandon(b, timestamp) else b)
    ensures SameList(Abandon(a, timestamp), Abandon(b, timestamp))
  {
    AbandonIdempotent(b, timestamp);
    if again {
      AbandonBySame(a, Abandon(b, timestamp), timestamp);
    } else {
      AbandonBySame(a, b, timestamp);
    }
  }

  lemma {:induction false} AbandonBySame(a: Queue, b: Queue, timestamp: int)
    requires SameList(a, b)
    ensures SameList(Abandon(a, timestamp), Abandon(b, timestamp))
    decreases |a.waiting|
  {
    if a.waiting != [] && Expired(a.waiting[0], timestamp) {
      AbandonBySame(a.(done := a.done + [Abandoned(a.waiting[0], timestamp)], waiting := a.waiting[1..]),
                    b.(done := b.done + [Abandoned(b.waiting[0], timestamp)], waiting := b.waiting[1..]), timestamp);
    }
  }

  lemma {:induction false} ScanLocksQueues(s: Leader, names: seq<string>, timestamp: int)
    requires forall n :: n in names ==> n in s.store.stateMap.locks
    ensures Relieved(s.pending, ScanLocks(s, names, timestamp).0.pending, names, timestamp)
  {
    if names != [] {
      var rest, name := names[..|names| - 1], names[|names| - 1];
      assert names == rest + [name];
      ScanLocksQueues(s, rest, timestamp);
      var (s1, due) := ScanLocks(s, rest, timestamp);
      ScanOneQueue(s1, name, timestamp);
      hide ScanOne, Abandon, HandlerOf;
      OneMoreRelieved(s.pending, s1.pending, ScanOne(s1, name, timestamp).0.pending, rest, name, timestamp);
    }
  }

  lemma ScanOneQueue(s: Leader, name: string, timestamp: int)
    requires name in s.store.stateMap.locks
    ensures var after := ScanOne(s, name, timestamp).0.pending;
            && after == s.pending[name := after[name]]
            && (name in s.pending ==> after[name] == Abandon(s.pending[name], timestamp))
            && (name !in s.pending ==> after[name].done == [] && after[name].waiting == [])
  {
  }

  lemma OneMoreRelieved(before: map<string, Queue>, mid: map<string, Queue>, after: map<string, Queue>, rest: seq<string>,
                        name: string, timestamp: int)
    requires Relieved(before, mid, rest, timestamp) && name in after && after == mid[name := after[name]]
    requires name in mid ==> after[name] == Abandon(mid[name], timestamp)
    requires name !in mid ==> after[name].done == [] && after[name].waiting == []
    ensures Relieved(before, after, rest + [name], timestamp)
  {
    if name in before {
      AbandonSameList(mid[name], before[name], timestamp, name in rest);
    } else if name in mid {
      AbandonEmpty(mid[name], timestamp);
    }
    hide Abandon, SameList;
  }

  lemma AbandonEmpty(q: Queue, timestamp: int)
    requires q.waiting == []
    ensures Abandon(q, timestamp) == q
  {
  }

  lemma {:induction false} AppendLocksQueues(s: Leader, due: seq<LockInfo>)
    ensures var after := AppendLocks(s, due).pending;
            after.Keys == s.pending.Keys && forall n :: n in after ==> SameList(after[n], s.pending[n])
  {
    if due != [] {
      AppendLocksQueues(s, due[..|due| - 1]);
    }
  }
}

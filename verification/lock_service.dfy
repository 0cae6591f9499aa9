/** The lock service of a leader: the paths by which lock entries reach the log. */
module LockService {
  import opened Types
  import opened LogStorage
  import opened StateMap
  import opened NodeStore
  import opened AcquirementQueue

  datatype Leader = Leader(term: nat, store: Store, pending: map<string, Queue>, acquirementExpire: nat)

  datatype LockError =
    | EmptyAcquirementError
    | LockFetchError
    | UnexpectedError
    | QueueError(error: AcquirementError)

  datatype ReleaseInfo = NoDLockExist | TriggerReleaseLater | AlreadyReleased | TriggerReleaseSuccess

  datatype Result<T> = Ok(value: T) | Err(error: LockError)

  function Commit(s: Leader): Leader {
    s.(store := CommitProcedure(s.store))
  }

  function AppendCommand(s: Leader, command: Command): Leader {
    s.(store := s.store.(log := Append(s.store.log, s.term, command)))
  }

  function BumpNonce(pending: map<string, Queue>, name: string): map<string, Queue> {
    if name in pending then
      pending[name := pending[name].(lastAppendedNonce := pending[name].lastAppendedNonce + 1)]
    else pending
  }

  /** A lock entry at the end of the log, and the nonce it takes. */
  function AppendLock(s: Leader, info: LockInfo): Leader {
    AppendCommand(s, DLock(info)).(pending := BumpNonce(s.pending, info.lockName))
  }

  function AppendLocks(s: Leader, infos: seq<LockInfo>): Leader {
    if infos == [] then s else AppendLock(AppendLocks(s, infos[..|infos| - 1]), infos[|infos| - 1])
  }

  function LeaseEnd(st: DlockState): int { st.timestamp + st.expire }

  function ReleaseOf(st: DlockState, timestamp: int): LockInfo {
    LockInfo(st.lockNonce + 1, st.lockName, "", timestamp, 0)
  }

  // Releasing expired locks -----------------------------------------------------------------------

  function HandlerOf(s: Leader, name: string): Queue
    requires name in s.store.stateMap.locks
  {
    if name in s.pending then s.pending[name] else NewQueue(s.store.stateMap.locks[name].lockNonce)
  }

  /** One lock of the scan: its queue is refreshed, and its release is collected when it is due. */
  function ScanOne(s: Leader, name: string, timestamp: int): (Leader, seq<LockInfo>)
    requires name in s.store.stateMap.locks
  {
    var st := s.store.stateMap.locks[name];
    var q := Abandon(HandlerOf(s, name), timestamp);
    var s1 := s.(pending := s.pending[name := q]);
    if q.lastAppendedNonce <= st.lockNonce && LeaseEnd(st) < timestamp && st.owner != "" then
      (s1, [ReleaseOf(st, timestamp)])
    else (s1, [])
  }

  /** The scan visits the locks in some order and collects the releases. */
  function ScanLocks(s: Leader, names: seq<string>, timestamp: int): (r: (Leader, seq<LockInfo>))
    requires forall n :: n in names ==> n in s.store.stateMap.locks
    ensures r.0.store == s.store && r.0.term == s.term && r.0.acquirementExpire == s.acquirementExpire
  {
    if names == [] then (s, [])
    else
      var (s1, due) := ScanLocks(s, names[..|names| - 1], timestamp);
      var (s2, more) := ScanOne(s1, names[|names| - 1], timestamp);
      (s2, due + more)
  }

  function Scan(s: Leader, names: seq<string>, timestamp: int): Leader
    requires forall n :: n in names ==> n in s.store.stateMap.locks
  {
    var (s1, due) := ScanLocks(s, names, timestamp);
    AppendLocks(s1, due)
  }

  // Granting from the queue -----------------------------------------------------------------------

  function RefreshLock(s: Leader, name: string, client: string, timestamp: int): (Leader, Result<nat>) {
    if name !in s.pending then (s, Err(EmptyAcquirementError))
    else if name !in s.store.stateMap.locks then (s, Err(LockFetchError))
    else
      var st := s.store.stateMap.locks[name];
      var q := s.pending[name];
      if LeaseEnd(st) > timestamp then (s, Ok(0))
      else if q.lastAppendedNonce > st.lockNonce then (s, Ok(0))
      else
        var (q1, look) := FetchFirst(q, false, timestamp);
        var s1 := s.(pending := s.pending[name := q1]);
        if look.None? || look.value.newOwner != client then (s1, Ok(0))
        else
          var (q2, info) := FetchFirst(q1, true, timestamp);
          if info.None? then (s1, Ok(0))
          else
            var s2 := AppendLock(s.(pending := s.pending[name := q2]), info.value);
            (s2, Ok(q2.lastAppendedNonce + 1))
  }

  // The services ----------------------------------------------------------------------------------

  datatype Ticket = Ticket(sequence: nat, nonce: nat)

  /** The lock is not in the state map: its first entry, or a place in the queue behind it. */
  function AcquireUnknown(s: Leader, name: string, client: string, expire: int, timestamp: int): (Leader, Result<Ticket>) {
    var info := LockInfo(1, name, client, timestamp, expire);
    if name !in s.pending then
      (AppendLock(s.(pending := s.pending[name := NewQueue(0)]), info), Ok(Ticket(0, 1)))
    else
      var (q, sequence) := InsertNew(s.pending[name], info, timestamp, s.acquirementExpire);
      (s.(pending := s.pending[name := q]), Ok(Ticket(sequence, 0)))
  }

  /** The lock is busy or contended: a place in the queue, and perhaps the grant at once. */
  function AcquireByQueue(s: Leader, name: string, client: string, expire: int, timestamp: int): (Leader, Result<Ticket>)
    requires name in s.pending
  {
    var info := LockInfo(0, name, client, timestamp, expire);
    var (q, sequence) := InsertNew(s.pending[name], info, timestamp, s.acquirementExpire);
    var (s1, nonce) := RefreshLock(s.(pending := s.pending[name := q]), name, client, timestamp);
    (s1, if nonce.Err? then Err(nonce.error) else Ok(Ticket(sequence, 0)))
  }

  /** The lock is in the state map, in state st, and has a queue. */
  function AcquireKnown(s: Leader, name: string, client: string, expire: int, timestamp: int, st: DlockState): (Leader, Result<Ticket>)
    requires name in s.pending
  {
    var q := s.pending[name];
    if q.lastAppendedNonce == st.lockNonce && q.waiting == [] && LeaseEnd(st) < timestamp then
      (AppendLock(s, LockInfo(st.lockNonce + 1, name, client, timestamp, expire)), Ok(Ticket(0, st.lockNonce + 1)))
    else if q.lastAppendedNonce > st.lockNonce || q.waiting != [] || LeaseEnd(st) >= timestamp then
      AcquireByQueue(s, name, client, expire, timestamp)
    else (s, Err(UnexpectedError))
  }

  /** A new acquirement: appended at once when the lock is unknown or free, queued otherwise. */
  function Acquire(s0: Leader, name: string, client: string, expire: int, timestamp: int): (Leader, Result<Ticket>) {
    var s := Commit(s0);
    if name !in s.store.stateMap.locks then AcquireUnknown(s, name, client, expire, timestamp)
    else if name !in s.pending then (s, Err(EmptyAcquirementError))
    else AcquireKnown(s, name, client, expire, timestamp, s.store.stateMap.locks[name])
  }

  /** A client that is still waiting; the answer tells whether its sequence number is known, and the
      nonce of the entry if the lock was granted to it now. */
  function RefreshBySequence(s0: Leader, name: string, client: string, sequence: nat, timestamp: int):
    (Leader, Result<(bool, nat)>)
  {
    var s := Commit(s0);
    if name !in s.pending then (s, Ok((false, 0)))
    else
      var (q, err) := Refresh(Abandon(s.pending[name], timestamp), sequence, timestamp);
      var s1 := s.(pending := s.pending[name := q]);
      if err.Some? then (s1, Err(QueueError(err.value)))
      else
        var (s2, nonce) := RefreshLock(s1, name, client, timestamp);
        (s2, if nonce.Err? then Err(nonce.error) else Ok((true, nonce.value)))
  }

  function Release(s0: Leader, name: string, applicant: string, timestamp: int):
    (Leader, Result<(ReleaseInfo, nat)>)
  {
    var s := Commit(s0);
    if name !in s.store.stateMap.locks then
      (s, Ok((if name in s.pending && s.pending[name].lastAppendedNonce > 0 then TriggerReleaseLater else NoDLockExist, 0)))
    else
      var st := s.store.stateMap.locks[name];
      if st.owner != applicant then (s, Ok((AlreadyReleased, 0)))
      else if name !in s.pending then (s, Err(EmptyAcquirementError))
      else if s.pending[name].lastAppendedNonce > st.lockNonce then (s, Ok((TriggerReleaseLater, 0)))
      else (AppendLock(s, ReleaseOf(st, timestamp)), Ok((TriggerReleaseSuccess, st.lockNonce + 1)))
  }

  /** The answer to an acquire request. */
  datatype Response = Response(pending: bool, sequence: nat, nonce: nat)

  function AcquireService(s: Leader, name: string, client: string, sequence: nat, expire: int, timestamp: int):
    (Leader, Result<Response>)
  {
    if sequence != 0 then
      var (s1, r) := RefreshBySequence(s, name, client, sequence, timestamp);
      match r
      case Err(e) =>
        if e == QueueError(InfoFetchingError) || e == QueueError(InvalidSequenceError) then
          (s1, Ok(Response(false, sequence, 0)))
        else (s1, Err(e))
      case Ok(known) => (s1, Ok(Response(known.1 == 0, sequence, if known.0 then known.1 else 0)))
    else
      var (s1, r) := Acquire(s, name, client, expire, timestamp);
      match r
      case Err(e) => (s1, Err(e))
      case Ok(t) => (s1, Ok(if t.sequence == 0 then Response(false, 0, t.nonce) else Response(true, t.sequence, 0)))
  }
}

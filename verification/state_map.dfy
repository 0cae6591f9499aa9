/** The lock state map: the replay of the log's lock entries, one by one and in index order. */
module StateMap {
  import opened Types
  import opened LogStorage

  const KEYWORD := "DLock"

  datatype DlockState = DlockState(owner: string, lockNonce: nat, lockName: string, timestamp: int, expire: int)

  datatype DlockMap = DlockMap(locks: map<string, DlockState>, prevIndex: nat, prevTerm: nat)

  const EMPTY_MAP := DlockMap(map[], 0, 0)

  datatype UpdateStatus = Updated | KeywordError | IndexTermError | ContentError | NonceMismatchError | EntryNotExistError | DeleteNoKeyError

  function StateOf(info: LockInfo): DlockState {
    DlockState(info.newOwner, info.lockNonce, info.lockName, info.timestamp, info.expire)
  }

  function UpdateFromEntry(sm: DlockMap, e: Entry): (DlockMap, UpdateStatus) {
    if sm.prevIndex + 1 != e.index || sm.prevTerm > e.term then (sm, IndexTermError)
    else if !HasPrefix(e.command.FastIndex(), KEYWORD) then
      (sm.(prevIndex := e.index, prevTerm := e.term), KeywordError)
    else match e.command
      case KVStore(_, _) => (sm, ContentError)
      case DLock(info) =>
        if info.lockName in sm.locks && info.lockNonce != sm.locks[info.lockName].lockNonce + 1 then
          (sm, NonceMismatchError)
        else
          (DlockMap(sm.locks[info.lockName := StateOf(info)], e.index, e.term), Updated)
  }

  /** Entries from..to are applied one by one; an error stops the replay where it is. */
  function ApplyRange(sm: DlockMap, log: Log, from: nat, last: nat): (DlockMap, UpdateStatus)
    decreases last - from
  {
    match Fetch(log, from)
    case None => (sm, EntryNotExistError)
    case Some(e) =>
      var (sm', status) := UpdateFromEntry(sm, e);
      if status != Updated && status != KeywordError then (sm', status)
      else if from >= last then (sm', Updated)
      else ApplyRange(sm', log, from + 1, last)
  }

  function UpdateFromLog(sm: DlockMap, log: Log, start: nat, end: nat): (DlockMap, UpdateStatus) {
    if start == 0 || end == 0 || start != sm.prevIndex + 1 || start > end || end > log.maximumIndex then
      (sm, IndexTermError)
    else
      ApplyRange(sm, log, start, end)
  }

  /** Every state is filed under its lock's name. */
  ghost predicate Keyed(sm: DlockMap) {
    forall name :: name in sm.locks ==> sm.locks[name].lockName == name
  }

  lemma {:induction false} ApplyRangeKeepsKeyed(sm: DlockMap, log: Log, from: nat, last: nat)
    requires Keyed(sm)
    ensures Keyed(ApplyRange(sm, log, from, last).0)
    decreases last - from
  {
    match Fetch(log, from)
    case None =>
    case Some(e) =>
      var (sm', status) := UpdateFromEntry(sm, e);
      if (status == Updated || status == KeywordError) && from < last {
        ApplyRangeKeepsKeyed(sm', log, from + 1, last);
      }
  }

  /** Only lock commands carry the keyword. */
  lemma KeywordSelectsDLock(c: Command)
    ensures HasPrefix(c.FastIndex(), KEYWORD) <==> c.DLock?
  {
    match c
    case KVStore(key, _) =>
      assert c.FastIndex()[..|KEYWORD|][0] == 'K' != KEYWORD[0];
    case DLock(info) =>
      assert c.FastIndex()[..|KEYWORD|] == KEYWORD;
  }

  // ---------------------------------------------------------------------------------------------
  // What a replay means, without replaying: the last entry of each lock
  // ---------------------------------------------------------------------------------------------

  ghost predicate LockEntry(log: Log, i: nat, name: string) {
    i in log.entries && log.entries[i].command.DLock? && log.entries[i].command.info.lockName == name
  }

  /** The greatest index up to k that holds an entry of the lock; 0 when there is none. */
  ghost function LastOf(log: Log, k: nat, name: string): nat {
    if k == 0 then 0 else if LockEntry(log, k, name) then k else LastOf(log, k - 1, name)
  }

  ghost function InfoAt(log: Log, i: nat): LockInfo
    requires i in log.entries && log.entries[i].command.DLock?
  {
    log.entries[i].command.info
  }

  lemma {:induction false} LastOfIsGreatest(log: Log, k: nat, name: string)
    ensures LastOf(log, k, name) <= k
    ensures LastOf(log, k, name) > 0 ==> LockEntry(log, LastOf(log, k, name), name)
    ensures forall i :: LastOf(log, k, name) < i <= k ==> !LockEntry(log, i, name)
  {
    if k > 0 {
      LastOfIsGreatest(log, k - 1, name);
    }
  }

  /** LastOf is the only index with that property. */
  lemma LastOfUnique(log: Log, k: nat, name: string, j: nat)
    requires j <= k && (j == 0 || LockEntry(log, j, name))
    requires forall i :: j < i <= k ==> !LockEntry(log, i, name)
    ensures LastOf(log, k, name) == j
  {
    LastOfIsGreatest(log, k, name);
  }

  lemma {:induction false} LastOfAgree(a: Log, b: Log, k: nat, name: string)
    requires Agree(a, b, k)
    ensures LastOf(a, k, name) == LastOf(b, k, name)
  {
    if k > 0 {
      LastOfAgree(a, b, k - 1, name);
    }
  }

  /** Entry i continues its predecessor: terms do not fall, and a lock's nonce is one more than
      the nonce of the lock's previous entry. */
  ghost predicate OrderlyAt(log: Log, i: nat)
    requires i in log.entries
  {
    && (i - 1 in log.entries ==> log.entries[i - 1].term <= log.entries[i].term)
    && (log.entries[i].command.DLock? && i > 0 ==>
          var info := InfoAt(log, i);
          var p := LastOf(log, i - 1, info.lockName);
          LastOfIsGreatest(log, i - 1, info.lockName);
          p > 0 ==> info.lockNonce == InfoAt(log, p).lockNonce + 1)
  }

  ghost predicate Orderly(log: Log, k: nat)
    requires Dense(log) && k <= log.maximumIndex
  {
    forall i :: 1 <= i <= k ==> OrderlyAt(log, i)
  }

  /** The map is the last write of every lock among the entries 1..k. */
  ghost predicate Describes(sm: DlockMap, log: Log, k: nat)
    requires Dense(log) && k <= log.maximumIndex
  {
    && sm.prevIndex == k
    && sm.prevTerm == (if k == 0 then 0 else log.entries[k].term)
    && (forall name :: name in sm.locks <==> LastOf(log, k, name) > 0)
    && (forall name :: name in sm.locks ==> DescribesLock(sm, log, k, name))
  }

  ghost predicate DescribesLock(sm: DlockMap, log: Log, k: nat, name: string)
    requires name in sm.locks
  {
    LastOfIsGreatest(log, k, name);
    var i := LastOf(log, k, name);
    i > 0 && sm.locks[name] == StateOf(InfoAt(log, i))
  }

  lemma DescribesEmpty(log: Log)
    requires Dense(log)
    ensures Describes(EMPTY_MAP, log, 0)
  {
  }

  /** One entry: the update succeeds exactly when the entry continues its predecessors, and then
      the map describes one entry more. */
  lemma UpdateStep(sm: DlockMap, log: Log, k: nat)
    requires Dense(log) && k < log.maximumIndex && Describes(sm, log, k)
    ensures var (sm', status) := UpdateFromEntry(sm, log.entries[k + 1]);
            && (status == Updated || status == KeywordError <==> OrderlyAt(log, k + 1))
            && (OrderlyAt(log, k + 1) ==> Describes(sm', log, k + 1))
            && (!OrderlyAt(log, k + 1) ==> sm' == sm)
  {
    var e := log.entries[k + 1];
    KeywordSelectsDLock(e.command);
    if e.command.DLock? {
      var name := e.command.info.lockName;
      LastOfIsGreatest(log, k, name);
      assert name in sm.locks ==> DescribesLock(sm, log, k, name);
      if OrderlyAt(log, k + 1) {
        var sm' := UpdateFromEntry(sm, e).0;
        forall n | n in sm'.locks ensures DescribesLock(sm', log, k + 1, n) {
          if n != name {
            assert DescribesLock(sm, log, k, n);
          }
        }
      }
    } else if OrderlyAt(log, k + 1) {
      var sm' := UpdateFromEntry(sm, e).0;
      forall n | n in sm'.locks ensures DescribesLock(sm', log, k + 1, n) {
        assert DescribesLock(sm, log, k, n);
      }
    }
  }

  /** A range: it is applied without an error exactly when all of its entries continue their
      predecessors; the result is then the last write of every lock. */
  lemma {:induction false} ApplyRangeMeaning(sm: DlockMap, log: Log, from: nat, last: nat)
    requires Dense(log) && 1 <= from <= last <= log.maximumIndex
    requires Describes(sm, log, from - 1) && Orderly(log, from - 1)
    ensures ApplyRange(sm, log, from, last).1 == Updated <==> Orderly(log, last)
    ensures Orderly(log, last) ==> Describes(ApplyRange(sm, log, from, last).0, log, last)
    ensures !Orderly(log, last) ==> ApplyRange(sm, log, from, last).0.prevIndex < last
    decreases last - from
  {
    UpdateStep(sm, log, from - 1);
    var (sm', status) := UpdateFromEntry(sm, log.entries[from]);
    if OrderlyAt(log, from) {
      assert Orderly(log, from);
      if from < last {
        ApplyRangeMeaning(sm', log, from + 1, last);
      }
    }
  }

  /** Replaying from scratch succeeds exactly for orderly logs and yields the last writes. */
  lemma ReplayIsLastWrite(log: Log, k: nat)
    requires Dense(log) && 1 <= k <= log.maximumIndex
    ensures UpdateFromLog(EMPTY_MAP, log, 1, k).1 == Updated <==> Orderly(log, k)
    ensures Orderly(log, k) ==> Describes(UpdateFromLog(EMPTY_MAP, log, 1, k).0, log, k)
  {
    DescribesEmpty(log);
    ApplyRangeMeaning(EMPTY_MAP, log, 1, k);
  }

  /** Two maps that describe the same entries, even of two logs, are equal. */
  lemma DescribesUnique(a: DlockMap, la: Log, b: DlockMap, lb: Log, k: nat)
    requires Dense(la) && Dense(lb) && k <= la.maximumIndex && k <= lb.maximumIndex && Agree(la, lb, k)
    requires Describes(a, la, k) && Describes(b, lb, k)
    ensures a == b
  {
    forall name ensures name in a.locks <==> name in b.locks {
      LastOfAgree(la, lb, k, name);
    }
    forall name | name in a.locks ensures a.locks[name] == b.locks[name] {
      LastOfAgree(la, lb, k, name);
      LastOfIsGreatest(la, k, name);
      assert DescribesLock(a, la, k, name) && DescribesLock(b, lb, k, name);
    }
    assert a.locks == b.locks;
  }

  lemma DescribesAgree(sm: DlockMap, a: Log, b: Log, k: nat)
    requires Dense(a) && Dense(b) && k <= a.maximumIndex && k <= b.maximumIndex && Agree(a, b, k)
    requires Describes(sm, a, k)
    ensures Describes(sm, b, k)
  {
    forall name ensures LastOf(a, k, name) == LastOf(b, k, name) {
      LastOfAgree(a, b, k, name);
    }
    forall name | name in sm.locks ensures DescribesLock(sm, b, k, name) {
      assert DescribesLock(sm, a, k, name);
      LastOfIsGreatest(a, k, name);
    }
  }

  lemma OrderlyAgree(a: Log, b: Log, k: nat)
    requires Dense(a) && Dense(b) && k <= a.maximumIndex && k <= b.maximumIndex && Agree(a, b, k)
    requires Orderly(a, k)
    ensures Orderly(b, k)
  {
    forall i | 1 <= i <= k ensures OrderlyAt(b, i) {
      assert OrderlyAt(a, i);
      if a.entries[i].command.DLock? {
        LastOfAgree(a, b, i - 1, a.entries[i].command.info.lockName);
        LastOfIsGreatest(a, i - 1, a.entries[i].command.info.lockName);
      }
    }
  }

  /** Replay in consecutive chunks, of any map and any log, is one replay. */
  lemma {:induction false} ChunkedReplay(sm: DlockMap, log: Log, from: nat, mid: nat, last: nat)
    requires from <= mid < last
    ensures var (first, status) := ApplyRange(sm, log, from, mid);
            ApplyRange(sm, log, from, last) == if status == Updated then ApplyRange(first, log, mid + 1, last)
                                             else (first, status)
    decreases mid - from
  {
    match Fetch(log, from)
    case None =>
    case Some(e) =>
      var (sm', status) := UpdateFromEntry(sm, e);
      if (status == Updated || status == KeywordError) && from < mid {
        ChunkedReplay(sm', log, from + 1, mid, last);
      }
  }

  class StateMapMemoryDLock {
    var locks: map<string, DlockState>
    var prevIndex: nat
    var prevTerm: nat

    ghost function View(): DlockMap
      reads this
    {
      DlockMap(locks, prevIndex, prevTerm)
    }

    constructor ()
      ensures View() == EMPTY_MAP
    {
      locks := map[];
      prevIndex, prevTerm := 0, 0;
    }

    method QuerySpecificState(key: string) returns (r: Option<DlockState>)
      ensures r == if key in locks then Some(locks[key]) else None
    {
      if key !in locks {
        return None;
      }
      return Some(locks[key]);
    }

    method UpdateStateFromLogEntry(entry: Entry) returns (status: UpdateStatus)
      modifies this
      ensures (View(), status) == UpdateFromEntry(old(View()), entry)
    {
      if prevIndex + 1 != entry.index || prevTerm > entry.term {
        return IndexTermError;
      } else if !HasPrefix(entry.command.FastIndex(), KEYWORD) {
        prevIndex := entry.index;
        prevTerm := entry.term;
        return KeywordError;
      }
      if !entry.command.DLock? {
        return ContentError;
      }
      var info := entry.command.info;
      var current := QuerySpecificState(info.lockName);
      if current.Some? && info.lockNonce != current.value.lockNonce + 1 {
        return NonceMismatchError;
      }
      locks := locks[info.lockName := StateOf(info)];
      prevIndex := entry.index;
      prevTerm := entry.term;
      return Updated;
    }

    method UpdateStateFromLogMemory(logMemory: LogMemory, start: nat, end: nat) returns (status: UpdateStatus)
      modifies this
      ensures (View(), status) == UpdateFromLog(old(View()), logMemory.View(), start, end)
    {
      if start == 0 || end == 0 || start != prevIndex + 1 || start > end || end > logMemory.maximumIndex {
        return IndexTermError;
      }
      var sequence := start;
      while true
        invariant start <= sequence <= end
        invariant logMemory.View() == old(logMemory.View())
        invariant ApplyRange(View(), logMemory.View(), sequence, end)
               == ApplyRange(old(View()), logMemory.View(), start, end)
        decreases end - sequence
      {
        var entry := logMemory.FetchLogEntry(sequence);
        if entry.None? {
          return EntryNotExistError;
        }
        status := UpdateStateFromLogEntry(entry.value);
        if status != Updated && status != KeywordError {
          return status;
        }
        sequence := sequence + 1;
        if sequence > end {
          break;
        }
      }
      return Updated;
    }
  }
}

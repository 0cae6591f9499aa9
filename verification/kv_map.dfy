/** The key-value state map: the replay of the log's key-value entries.  Deleting a key that is not there is
    an error that the replay tolerates, but the map does not move past that entry. */
module KVStateMap {
  import opened Types
  import opened LogStorage
  import opened StateMap

  const KV_KEYWORD := "KVStore"

  datatype KVMap = KVMap(values: map<string, seq<byte>>, prevIndex: nat, prevTerm: nat)

  const EMPTY_KV := KVMap(map[], 0, 0)

  function Update(kv: KVMap, e: Entry): (KVMap, UpdateStatus) {
    if kv.prevIndex + 1 != e.index || kv.prevTerm > e.term then (kv, IndexTermError)
    else if !HasPrefix(e.command.FastIndex(), KV_KEYWORD) then (kv.(prevIndex := e.index, prevTerm := e.term), KeywordError)
    else match e.command
      case DLock(_) => (kv, ContentError)
      case KVStore(key, Some(value)) => (KVMap(kv.values[key := value], e.index, e.term), Updated)
      case KVStore(key, None) =>
        if key in kv.values then (KVMap(kv.values - {key}, e.index, e.term), Updated) else (kv, DeleteNoKeyError)
  }

  predicate Tolerated(status: UpdateStatus) {
    status == Updated || status == KeywordError || status == DeleteNoKeyError
  }

  function Apply(kv: KVMap, log: Log, from: nat, last: nat): (KVMap, UpdateStatus)
    decreases last - from
  {
    match Fetch(log, from)
    case None => (kv, EntryNotExistError)
    case Some(e) =>
      var (kv', status) := Update(kv, e);
      if !Tolerated(status) then (kv', status)
      else if from >= last then (kv', Updated)
      else Apply(kv', log, from + 1, last)
  }

  function Replay(kv: KVMap, log: Log, start: nat, end: nat): (KVMap, UpdateStatus) {
    if start == 0 || end == 0 || start != kv.prevIndex + 1 || start > end || end > log.maximumIndex then (kv, IndexTermError)
    else Apply(kv, log, start, end)
  }

  /** What a node does with its map when it applies what is committed. */
  function Commit(kv: KVMap, log: Log, applied: nat, committed: nat): KVMap {
    if committed > applied then Replay(kv, log, applied + 1, committed).0 else kv
  }

  lemma KeywordSelectsKVStore(c: Command)
    ensures HasPrefix(c.FastIndex(), KV_KEYWORD) <==> c.KVStore?
  {
    match c
    case KVStore(key, _) =>
      assert c.FastIndex()[..|KV_KEYWORD|] == KV_KEYWORD;
    case DLock(info) =>
      var s := c.FastIndex();
      assert s[0] == 'D' != KV_KEYWORD[0];
      assert |KV_KEYWORD| <= |s| ==> s[..|KV_KEYWORD|][0] == s[0];
  }

  // ---------------------------------------------------------------------------------------------
  // What a replay means: the last write of each key
  // ---------------------------------------------------------------------------------------------

  ghost predicate KeyEntry(log: Log, i: nat, key: string) {
    i in log.entries && log.entries[i].command.KVStore? && log.entries[i].command.key == key
  }

  /** What the last write of the key among the entries 1..k leaves there. */
  ghost function ValueAt(log: Log, k: nat, key: string): Option<seq<byte>> {
    if k == 0 then None
    else if KeyEntry(log, k, key) then log.entries[k].command.value
    else ValueAt(log, k - 1, key)
  }

  /** Entry i deletes a key that the entries before it leave absent. */
  ghost predicate DeletesAbsent(log: Log, i: nat)
    requires i in log.entries
  {
    var c := log.entries[i].command;
    i > 0 && c.KVStore? && c.value.None? && ValueAt(log, i - 1, c.key).None?
  }

  ghost predicate TermContinues(log: Log, i: nat)
    requires i in log.entries
  {
    i - 1 in log.entries ==> log.entries[i - 1].term <= log.entries[i].term
  }

  /** The greatest index up to last that the replay reaches from index `from` on. */
  ghost function Reach(log: Log, from: nat, last: nat): nat
    requires Dense(log) && last <= log.maximumIndex
    decreases last - from
  {
    if from >= last then from
    else if TermContinues(log, from + 1) && !DeletesAbsent(log, from + 1) then Reach(log, from + 1, last)
    else from
  }

  ghost predicate Describes(kv: KVMap, log: Log, k: nat)
    requires Dense(log) && k <= log.maximumIndex
  {
    && kv.prevIndex == k
    && kv.prevTerm == (if k == 0 then 0 else log.entries[k].term)
    && forall key :: (if key in kv.values then Some(kv.values[key]) else None) == ValueAt(log, k, key)
  }

  lemma DescribesEmpty(log: Log)
    requires Dense(log)
    ensures Describes(EMPTY_KV, log, 0)
  {
  }

  lemma DescribesUnique(a: KVMap, la: Log, b: KVMap, lb: Log, k: nat)
    requires Dense(la) && Dense(lb) && k <= la.maximumIndex && k <= lb.maximumIndex && Agree(la, lb, k)
    requires Describes(a, la, k) && Describes(b, lb, k)
    ensures a == b
  {
    forall key ensures (key in a.values <==> key in b.values) && (key in a.values ==> a.values[key] == b.values[key]) {
      ValueAgree(la, lb, k, key);
    }
    assert a.values == b.values;
  }

  lemma {:induction false} ValueAgree(a: Log, b: Log, k: nat, key: string)
    requires Agree(a, b, k)
    ensures ValueAt(a, k, key) == ValueAt(b, k, key)
  {
    if k > 0 {
      ValueAgree(a, b, k - 1, key);
    }
  }

  lemma DescribesAgree(kv: KVMap, a: Log, b: Log, k: nat)
    requires Dense(a) && Dense(b) && k <= a.maximumIndex && k <= b.maximumIndex && Agree(a, b, k)
    requires Describes(kv, a, k)
    ensures Describes(kv, b, k)
  {
    forall key ensures ValueAt(a, k, key) == ValueAt(b, k, key) {
      ValueAgree(a, b, k, key);
    }
  }

  lemma {:induction false} ReachAgree(a: Log, b: Log, from: nat, last: nat)
    requires Dense(a) && Dense(b) && last <= a.maximumIndex && last <= b.maximumIndex && Agree(a, b, last)
    ensures Reach(a, from, last) == Reach(b, from, last)
    decreases last - from
  {
    if from < last {
      DeletesAgree(a, b, from + 1);
      ReachAgree(a, b, from + 1, last);
    }
  }

  lemma DeletesAgree(a: Log, b: Log, i: nat)
    requires Dense(a) && Dense(b) && 1 <= i <= a.maximumIndex && i <= b.maximumIndex && Agree(a, b, i)
    ensures DeletesAbsent(a, i) == DeletesAbsent(b, i)
  {
    if a.entries[i].command.KVStore? {
      ValueAgree(a, b, i - 1, a.entries[i].command.key);
    }
  }

  /** One entry: it is refused when its term falls, skipped without moving when it deletes an absent key, and
      otherwise the map describes one entry more. */
  lemma UpdateStep(kv: KVMap, log: Log, k: nat)
    requires Dense(log) && k < log.maximumIndex && Describes(kv, log, k)
    ensures var (kv', status) := Update(kv, log.entries[k + 1]);
            if !TermContinues(log, k + 1) then kv' == kv && status == IndexTermError
            else if DeletesAbsent(log, k + 1) then kv' == kv && status == DeleteNoKeyError
            else Describes(kv', log, k + 1) && (status == Updated || status == KeywordError)
  {
    var e := log.entries[k + 1];
    KeywordSelectsKVStore(e.command);
    if e.command.KVStore? {
      assert (if e.command.key in kv.values then Some(kv.values[e.command.key]) else None) == ValueAt(log, k, e.command.key);
    }
  }

  lemma ReachStays(log: Log, from: nat, last: nat)
    requires Dense(log) && from <= last <= log.maximumIndex
    ensures from <= Reach(log, from, last) <= last
    decreases last - from
  {
  }

  /** A range: the replay reports no error exactly when terms do not fall and no entry before the last deletes
      an absent key; the map then describes the entries up to where the replay reaches. */
  lemma {:induction false} ApplyMeaning(kv: KVMap, log: Log, from: nat, last: nat)
    requires Dense(log) && 1 <= from <= last <= log.maximumIndex && Describes(kv, log, from - 1)
    ensures Apply(kv, log, from, last).1 == Updated <==>
              && (forall i :: from <= i <= last ==> TermContinues(log, i))
              && (forall i :: from <= i < last ==> !DeletesAbsent(log, i))
    ensures Reach(log, from - 1, last) <= last && Describes(Apply(kv, log, from, last).0, log, Reach(log, from - 1, last))
    decreases last - from
  {
    UpdateStep(kv, log, from - 1);
    var (kv', status) := Update(kv, log.entries[from]);
    if from < last {
      if TermContinues(log, from) && !DeletesAbsent(log, from) {
        ApplyMeaning(kv', log, from + 1, last);
      } else if TermContinues(log, from) {
        StuckHere(kv, log, from + 1, last);
      }
    }
  }

  /** Behind an entry that the map has not moved past the replay fails at once. */
  lemma StuckHere(kv: KVMap, log: Log, from: nat, last: nat)
    requires Dense(log) && 1 <= from <= last <= log.maximumIndex && kv.prevIndex + 1 < from
    ensures Apply(kv, log, from, last) == (kv, IndexTermError)
  {
  }

  lemma {:induction false} ReachSplits(log: Log, from: nat, mid: nat, last: nat)
    requires Dense(log) && from <= mid <= last <= log.maximumIndex
    ensures Reach(log, from, last) == if Reach(log, from, mid) == mid then Reach(log, mid, last) else Reach(log, from, mid)
    decreases mid - from
  {
    if from < mid && TermContinues(log, from + 1) && !DeletesAbsent(log, from + 1) {
      ReachSplits(log, from + 1, mid, last);
      ReachStays(log, from + 1, mid);
    }
  }

  /** However the log is applied in chunks, the live map describes the entries up to where one replay of all
      of them reaches; once it is behind the applied index it stays there. */
  lemma CommitReaches(kv: KVMap, log: Log, applied: nat, committed: nat)
    requires Dense(log) && applied <= committed <= log.maximumIndex
    requires Reach(log, 0, applied) <= applied && Describes(kv, log, Reach(log, 0, applied))
    ensures Reach(log, 0, committed) <= committed && Describes(Commit(kv, log, applied, committed), log, Reach(log, 0, committed))
  {
    ReachSplits(log, 0, applied, committed);
    ReachStays(log, 0, committed);
    if committed > applied && Reach(log, 0, applied) == applied {
      ApplyMeaning(kv, log, applied + 1, committed);
    }
  }

  class StateMapMemoryKVStore {
    var values: map<string, seq<byte>>
    var prevIndex: nat
    var prevTerm: nat

    ghost function View(): KVMap
      reads this
    {
      KVMap(values, prevIndex, prevTerm)
    }

    constructor ()
      ensures View() == EMPTY_KV
    {
      values := map[];
      prevIndex, prevTerm := 0, 0;
    }

    method QuerySpecificState(key: string) returns (r: Option<seq<byte>>)
      ensures r == if key in values then Some(values[key]) else None
    {
      if key !in values {
        return None;
      }
      return Some(values[key]);
    }

    method UpdateStateFromLogEntry(entry: Entry) returns (status: UpdateStatus)
      modifies this
      ensures (View(), status) == Update(old(View()), entry)
    {
      if prevIndex + 1 != entry.index || prevTerm > entry.term {
        return IndexTermError;
      } else if !HasPrefix(entry.command.FastIndex(), KV_KEYWORD) {
        prevIndex := entry.index;
        prevTerm := entry.term;
        return KeywordError;
      }
      if !entry.command.KVStore? {
        return ContentError;
      }
      var key := entry.command.key;
      if entry.command.value.None? {
        if key in values {
          values := values - {key};
        } else {
          return DeleteNoKeyError;
        }
      } else {
        values := values[key := entry.command.value.value];
      }
      prevIndex := entry.index;
      prevTerm := entry.term;
      return Updated;
    }

    method UpdateStateFromLogMemory(logMemory: LogMemory, start: nat, end: nat) returns (status: UpdateStatus)
      modifies this
      ensures (View(), status) == Replay(old(View()), logMemory.View(), start, end)
    {
      if start == 0 || end == 0 || start != prevIndex + 1 || start > end || end > logMemory.maximumIndex {
        return IndexTermError;
      }
      var sequence := start;
      while true
        invariant start <= sequence <= end
        invariant logMemory.View() == old(logMemory.View())
        invariant Apply(View(), logMemory.View(), sequence, end) == Apply(old(View()), logMemory.View(), start, end)
        decreases end - sequence
      {
        var entry := logMemory.FetchLogEntry(sequence);
        if entry.None? {
          return EntryNotExistError;
        }
        status := UpdateStateFromLogEntry(entry.value);
        if status != Updated && status != KeywordError && status != DeleteNoKeyError {
          return status;
        }
        sequence := sequence + 1;
        if sequence > end {
          break;
        }
      }
      return Updated;
    }
  }
}

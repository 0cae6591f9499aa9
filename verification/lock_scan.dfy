/** What the scan of the lock map comes to as lists of commands and entries, and what stays of the queues. */
module LockScan {
  import opened Types
  import opened LogStorage
  import opened StateMap
  import opened NodeStore
  import opened RaftNode
  import opened AcquirementQueue
  import opened ReignScan
  import LockService

  /** The entries of a list of commands, numbered from the end of the log on. */
  function EntriesOf(infos: seq<LockInfo>, term: nat, from: nat): (entries: seq<Entry>) {
    seq(|infos|, i requires 0 <= i < |infos| => Entry(term, from + 1 + i, DLock(infos[i])))
  }

  lemma EntriesGrow(infos: seq<LockInfo>, more: seq<LockInfo>, term: nat, from: nat)
    requires |more| <= 1
    ensures EntriesOf([], term, from) == [] && |EntriesOf(infos, term, from)| == |infos|
    ensures EntriesOf(infos + more, term, from)
         == EntriesOf(infos, term, from) + if more == [] then [] else [Entry(term, from + |infos| + 1, DLock(more[0]))]
  {
  }

  lemma NothingScanned(s: LockService.Leader, timestamp: int)
    ensures LockService.ScanLocks(s, [], timestamp) == (s, []) && NoDuplicates([])
  {
  }

  lemma OneMoreScanned(s: LockService.Leader, order: seq<string>, name: string, timestamp: int)
    requires forall n :: n in order + [name] ==> n in s.store.stateMap.locks
    requires NoDuplicates(order) && name !in order
    ensures NoDuplicates(order + [name])
    ensures var (s1, due) := LockService.ScanLocks(s, order, timestamp);
            var (s2, more) := LockService.ScanOne(s1, name, timestamp);
            LockService.ScanLocks(s, order + [name], timestamp) == (s2, due + more)
  {
    assert (order + [name])[..|order|] == order;
  }

  ghost function BumpAll(pending: map<string, Queue>, infos: seq<LockInfo>): map<string, Queue> {
    if infos == [] then pending
    else LockService.BumpNonce(BumpAll(pending, infos[..|infos| - 1]), infos[|infos| - 1].lockName)
  }

  /** Appending locks one by one is inserting all entries, then taking all nonces. */
  lemma {:induction false} AppendLocksApart(s: LockService.Leader, infos: seq<LockInfo>)
    ensures var r := LockService.AppendLocks(s, infos);
            && r == s.(store := s.store.(log := InsertList(s.store.log, EntriesOf(infos, s.term, s.store.log.maximumIndex))),
                       pending := BumpAll(s.pending, infos))
            && r.store.log.maximumIndex == s.store.log.maximumIndex + |infos|
  {
    if infos != [] {
      var before := infos[..|infos| - 1];
      AppendLocksApart(s, before);
      var es := EntriesOf(infos, s.term, s.store.log.maximumIndex);
      assert es[..|es| - 1] == EntriesOf(before, s.term, s.store.log.maximumIndex);
    }
  }

  function CommandsOf(infos: seq<LockInfo>): (commands: seq<Command>) {
    seq(|infos|, i requires 0 <= i < |infos| => DLock(infos[i]))
  }

  /** What the first scan of a leader writes is a list of commands at the end of its log. */
  lemma ScanIsAppendAll(s: LockService.Leader, names: seq<string>, timestamp: int) returns (initial: seq<Command>)
    requires forall n :: n in names ==> n in s.store.stateMap.locks
    ensures LockService.Scan(s, names, timestamp).store == AppendAll(s.store, s.term, initial)
  {
    var (s1, due) := LockService.ScanLocks(s, names, timestamp);
    AppendLocksIsAppendAll(s1, due);
    initial := CommandsOf(due);
  }

  lemma {:induction false} AppendLocksIsAppendAll(s: LockService.Leader, infos: seq<LockInfo>)
    ensures LockService.AppendLocks(s, infos).store == AppendAll(s.store, s.term, CommandsOf(infos))
    ensures LockService.AppendLocks(s, infos).term == s.term
  {
    if infos != [] {
      AppendLocksIsAppendAll(s, infos[..|infos| - 1]);
      assert CommandsOf(infos)[..|infos| - 1] == CommandsOf(infos[..|infos| - 1]);
    }
  }

  lemma CommitKeepsKeyed(st: Store)
    requires Keyed(st.stateMap)
    ensures Keyed(NodeStore.CommitProcedure(st).stateMap)
  {
    if st.commitIndex > st.lastAppliedIndex && st.commitIndex <= st.log.maximumIndex {
      ApplyRangeKeepsKeyed(st.stateMap, st.log, st.lastAppliedIndex + 1, st.commitIndex);
    }
  }

  lemma AbandonKeepsAddressed(q: Queue, timestamp: int, lockName: string)
    requires Addressed(q.waiting, lockName)
    ensures Addressed(Abandon(q, timestamp).waiting, lockName)
  {
    var k := AbandonDropsExpiredPrefix(q, timestamp);
  }

  lemma InsertKeepsAddressed(q: Queue, command: LockInfo, timestamp: int, expire: nat, lockName: string)
    requires Addressed(q.waiting, lockName) && command.lockName == lockName
    ensures Addressed(InsertNew(q, command, timestamp, expire).0.waiting, lockName)
  {
    AbandonKeepsAddressed(q, timestamp, lockName);
  }

  lemma FetchKeepsAddressed(q: Queue, popTag: bool, timestamp: int, lockName: string)
    requires Addressed(q.waiting, lockName)
    ensures Addressed(FetchFirst(q, popTag, timestamp).0.waiting, lockName)
    ensures FetchFirst(q, popTag, timestamp).1.Some? ==> FetchFirst(q, popTag, timestamp).1.value.lockName == lockName
  {
    var k := AbandonDropsExpiredPrefix(q, timestamp);
  }
}

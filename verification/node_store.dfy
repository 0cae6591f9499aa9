/** What a node keeps: its log, how far it is committed, applied and backed up, and its lock map. */
module NodeStore {
  import opened Types
  import opened LogStorage
  import opened StateMap

  datatype Store = Store(log: Log, commitIndex: nat, lastAppliedIndex: nat, lastBackupIndex: nat, stateMap: DlockMap)

  const EMPTY_STORE := Store(EMPTY_LOG, 0, 0, 0, EMPTY_MAP)

  /** Newly committed entries are applied; an error of the state map does not stop the index. */
  function CommitProcedure(st: Store): Store {
    if st.commitIndex > st.lastAppliedIndex then
      st.(stateMap := UpdateFromLog(st.stateMap, st.log, st.lastAppliedIndex + 1, st.commitIndex).0,
          lastAppliedIndex := st.commitIndex)
    else st
  }

  /** A dense log, and the indices in their order. */
  ghost predicate WellFormed(st: Store) {
    && Dense(st.log)
    && st.lastAppliedIndex <= st.commitIndex <= st.log.maximumIndex
    && st.lastBackupIndex <= st.commitIndex
  }

  /** The state map is the last write of every lock among the applied entries. */
  ghost predicate Faithful(st: Store) {
    WellFormed(st) && Describes(st.stateMap, st.log, st.lastAppliedIndex)
  }

  /** Applying keeps the map faithful exactly when the committed entries are orderly; otherwise the
      map falls behind the applied index. */
  lemma CommitAppliesIffOrderly(st: Store)
    requires Faithful(st) && Orderly(st.log, st.lastAppliedIndex)
    ensures Faithful(CommitProcedure(st)) <==> Orderly(st.log, st.commitIndex)
    ensures CommitProcedure(st) == st.(stateMap := CommitProcedure(st).stateMap, lastAppliedIndex := st.commitIndex)
    ensures !Orderly(st.log, st.commitIndex) ==> CommitProcedure(st).stateMap.prevIndex < CommitProcedure(st).lastAppliedIndex
  {
    hide ApplyRange, OrderlyAt, LastOf, DescribesLock;
    if st.commitIndex > st.lastAppliedIndex {
      ApplyRangeMeaning(st.stateMap, st.log, st.lastAppliedIndex + 1, st.commitIndex);
    }
  }

  /** Anything that may happen to a store: its log grows, its commit or backup index moves, or what is
      committed is applied. */
  ghost predicate StoreStep(a: Store, b: Store) {
    || (b.stateMap == a.stateMap && b.lastAppliedIndex == a.lastAppliedIndex)
    || b == CommitProcedure(a)
  }

  ghost predicate StoreRun(trace: seq<Store>) {
    forall i :: 0 <= i < |trace| - 1 ==> StoreStep(trace[i], trace[i + 1])
  }

  /** A map that has fallen behind the applied index never moves again, over any run of appends, overwrites,
      commits, backups and applications. */
  lemma {:induction false} BehindIsForever(trace: seq<Store>, i: nat)
    requires StoreRun(trace) && i < |trace| && trace[0].stateMap.prevIndex < trace[0].lastAppliedIndex
    ensures trace[i].stateMap == trace[0].stateMap && trace[0].lastAppliedIndex <= trace[i].lastAppliedIndex
  {
    if i > 0 {
      BehindIsForever(trace, i - 1);
      assert StoreStep(trace[i - 1], trace[i - 1 + 1]);
      BehindStays(trace[i - 1]);
    }
  }

  lemma BehindStays(st: Store)
    requires st.stateMap.prevIndex < st.lastAppliedIndex
    ensures CommitProcedure(st).stateMap == st.stateMap
    ensures CommitProcedure(st).stateMap.prevIndex < CommitProcedure(st).lastAppliedIndex
  {
  }
}

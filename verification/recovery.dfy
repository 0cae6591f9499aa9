/** Backing the committed log up to a file in chunks, and starting again from that file. */
module Recovery {
  import opened Types
  import opened LogStorage
  import opened StateMap
  import opened NodeStore
  import opened Framing
  import KVStateMap

  // ---------------------------------------------------------------------------------------------
  // Backups
  // ---------------------------------------------------------------------------------------------

  /** A node's store and its log file. */
  datatype Disk = Disk(store: Store, file: bytes)

  /** Newly committed entries are appended to the file. */
  ghost function BackUp(c: Codec, d: Disk): Disk
    requires WellFormed(d.store)
  {
    if d.store.commitIndex > d.store.lastBackupIndex then
      Disk(d.store.(lastBackupIndex := d.store.commitIndex),
           d.file + Frames(c, d.store.log, d.store.lastBackupIndex + 1, d.store.commitIndex))
    else d
  }

  /** Whatever else the node does: it may append, commit and apply, but the committed entries stay. */
  ghost predicate Moves(a: Store, b: Store) {
    && WellFormed(b) && b.lastBackupIndex == a.lastBackupIndex && a.commitIndex <= b.commitIndex
    && Agree(a.log, b.log, a.commitIndex)
  }

  datatype DiskStep = BackUpStep | MoveStep(next: Store)

  ghost predicate Leads(c: Codec, d1: Disk, steps: seq<DiskStep>, d2: Disk)
    requires WellFormed(d1.store)
    decreases |steps|
  {
    if steps == [] then d1 == d2
    else match steps[0]
      case BackUpStep => Leads(c, BackUp(c, d1), steps[1..], d2)
      case MoveStep(next) => Moves(d1.store, next) && Leads(c, d1.(store := next), steps[1..], d2)
  }

  /** The file holds the frames of the entries that are backed up. */
  ghost predicate Mirrors(c: Codec, d: Disk) {
    WellFormed(d.store) && d.file == Frames(c, d.store.log, 1, d.store.lastBackupIndex)
  }

  lemma {:induction false} FramesJoin(c: Codec, log: Log, mid: nat, last: nat)
    requires Dense(log) && mid <= last <= log.maximumIndex
    ensures Frames(c, log, 1, mid) + Frames(c, log, mid + 1, last) == Frames(c, log, 1, last)
    decreases last - mid
  {
    hide Frame;
    if mid < last {
      FramesJoin(c, log, mid, last - 1);
      var f := Frame(c, log.entries[last]);
      assert Frames(c, log, mid + 1, last) == Frames(c, log, mid + 1, last - 1) + f;
      assert Frames(c, log, 1, mid) + (Frames(c, log, mid + 1, last - 1) + f)
          == (Frames(c, log, 1, mid) + Frames(c, log, mid + 1, last - 1)) + f;
    } else {
      assert Frames(c, log, mid + 1, last) == [];
    }
  }

  lemma {:induction false} FramesAgree(c: Codec, a: Log, b: Log, k: nat)
    requires Dense(a) && Dense(b) && k <= a.maximumIndex && k <= b.maximumIndex && Agree(a, b, k)
    ensures Frames(c, a, 1, k) == Frames(c, b, 1, k)
  {
    if k > 0 {
      FramesAgree(c, a, b, k - 1);
    }
  }

  /** However backups and other steps alternate, the file is the concatenated frames of the entries up to
      the last backup, and what was committed at the start is still in the log. */
  lemma {:induction false} FileMirrorsLog(c: Codec, d1: Disk, steps: seq<DiskStep>, d2: Disk)
    requires Mirrors(c, d1) && Leads(c, d1, steps, d2)
    ensures Mirrors(c, d2) && Agree(d1.store.log, d2.store.log, d1.store.commitIndex)
    ensures d1.store.commitIndex <= d2.store.commitIndex && d1.store.lastBackupIndex <= d2.store.lastBackupIndex
    decreases |steps|
  {
    if steps != [] {
      match steps[0]
      case BackUpStep =>
        FramesJoin(c, d1.store.log, d1.store.lastBackupIndex, d1.store.commitIndex);
        FileMirrorsLog(c, BackUp(c, d1), steps[1..], d2);
      case MoveStep(next) =>
        FramesAgree(c, d1.store.log, next.log, d1.store.lastBackupIndex);
        FileMirrorsLog(c, d1.(store := next), steps[1..], d2);
    }
  }

  lemma FreshDiskMirrors(c: Codec)
    ensures Mirrors(c, Disk(EMPTY_STORE, []))
  {
  }

  // ---------------------------------------------------------------------------------------------
  // Recovery
  // ---------------------------------------------------------------------------------------------

  datatype Recovered = Recovered(store: Store, kv: KVStateMap.KVMap, term: nat, count: nat)

  /** A starting node reads the file and replays it into both of its maps; it does not start when the
      reading or one of the replays fails. */
  function Recover(c: Codec, file: bytes): Option<Recovered> {
    var r := ReloadFrom(c, EMPTY_LOG, 0, file);
    var k := r.log.maximumIndex;
    if r.broken then None
    else if k == 0 then Some(Recovered(Store(r.log, 0, 0, 0, EMPTY_MAP), KVStateMap.EMPTY_KV, 1, r.count))
    else match Fetch(r.log, k)
      case None => None
      case Some(last) =>
        var (sm, status) := UpdateFromLog(EMPTY_MAP, r.log, 1, k);
        var (kv, kvStatus) := KVStateMap.Replay(KVStateMap.EMPTY_KV, r.log, 1, k);
        if status != Updated || kvStatus != Updated then None
        else Some(Recovered(Store(r.log, k, k, k, sm), kv, last.term, r.count))
  }

  /** No entry before the last of 1..k deletes a key that the entries before it leave absent. */
  ghost predicate DeletesOnlyPresent(log: Log, k: nat)
    requires Dense(log) && k <= log.maximumIndex
  {
    forall i :: 1 <= i < k ==> !KVStateMap.DeletesAbsent(log, i)
  }

  lemma TruncatedIsDense(log: Log, k: nat)
    requires Dense(log) && k <= log.maximumIndex
    ensures Dense(Truncated(log, k)) && Agree(Truncated(log, k), log, k) && Agree(log, Truncated(log, k), k)
  {
  }

  /** A node that starts again from the file of a mirrored store has exactly the log up to the last backup,
      all of it committed, applied and backed up, and the maps of those entries.  It starts exactly when those
      entries are orderly and none before the last deletes an absent key. */
  lemma RecoveryIsExact(c: Codec, d: Disk)
    requires Lossless(c) && Mirrors(c, d) && AllFit(c, d.store.log)
    ensures Recover(c, d.file).Some? <==>
              Orderly(d.store.log, d.store.lastBackupIndex) && DeletesOnlyPresent(d.store.log, d.store.lastBackupIndex)
    ensures Recover(c, d.file).Some? ==> Restored(c, d, Recover(c, d.file).value)
  {
    var log, b := d.store.log, d.store.lastBackupIndex;
    ReloadIsLog(c, log, b);
    hide ReloadFrom, Frames, Payload;
    TruncatedIsDense(log, b);
    var t := Truncated(log, b);
    FramesAgree(c, log, t, b);
    RecoveredMap(log, t, b);
    RecoveredValues(log, t, b);
  }

  /** What a node has that was started from the file of d. */
  ghost predicate Restored(c: Codec, d: Disk, r: Recovered)
    requires WellFormed(d.store)
  {
    var b := d.store.lastBackupIndex;
    && r.store.log == Truncated(d.store.log, b)
    && r.store.commitIndex == r.store.lastAppliedIndex == r.store.lastBackupIndex == b
    && NodeStore.Faithful(r.store) && Describes(r.store.stateMap, d.store.log, b)
    && KVStateMap.Reach(d.store.log, 0, b) <= b && KVStateMap.Describes(r.kv, d.store.log, KVStateMap.Reach(d.store.log, 0, b))
    && r.term == (if b == 0 then 1 else d.store.log.entries[b].term)
    && r.count == Payload(c, d.store.log, 1, b) + 9 * b == |d.file|
    && Mirrors(c, Disk(r.store, d.file))
  }

  lemma RecoveredMap(log: Log, t: Log, b: nat)
    requires Dense(log) && Dense(t) && b == t.maximumIndex <= log.maximumIndex && Agree(log, t, b) && Agree(t, log, b)
    ensures b > 0 ==> (UpdateFromLog(EMPTY_MAP, t, 1, b).1 == Updated <==> Orderly(log, b))
    ensures b > 0 && Orderly(log, b) ==> Describes(UpdateFromLog(EMPTY_MAP, t, 1, b).0, t, b)
                                         && Describes(UpdateFromLog(EMPTY_MAP, t, 1, b).0, log, b)
    ensures b == 0 ==> Describes(EMPTY_MAP, t, 0) && Describes(EMPTY_MAP, log, 0) && Orderly(log, 0)
  {
    if b > 0 {
      ReplayIsLastWrite(t, b);
      if Orderly(log, b) {
        OrderlyAgree(log, t, b);
        DescribesAgree(UpdateFromLog(EMPTY_MAP, t, 1, b).0, t, log, b);
      } else if Orderly(t, b) {
        OrderlyAgree(t, log, b);
        assert false;
      }
    } else {
      DescribesEmpty(t);
      DescribesEmpty(log);
    }
  }

  /** The same for the key-value map. */
  lemma RecoveredValues(log: Log, t: Log, b: nat)
    requires Dense(log) && Dense(t) && b == t.maximumIndex <= log.maximumIndex && Agree(log, t, b) && Agree(t, log, b)
    ensures b > 0 && Orderly(log, b) ==>
              (KVStateMap.Replay(KVStateMap.EMPTY_KV, t, 1, b).1 == Updated <==> DeletesOnlyPresent(log, b))
    ensures KVStateMap.Reach(log, 0, b) <= b
    ensures b > 0 ==> KVStateMap.Describes(KVStateMap.Replay(KVStateMap.EMPTY_KV, t, 1, b).0, log, KVStateMap.Reach(log, 0, b))
    ensures b == 0 ==> KVStateMap.Describes(KVStateMap.EMPTY_KV, log, 0)
  {
    hide LastOf, KVStateMap.Apply;
    KVStateMap.DescribesEmpty(t);
    KVStateMap.DescribesEmpty(log);
    if b > 0 {
      var kv := KVStateMap.Replay(KVStateMap.EMPTY_KV, t, 1, b).0;
      KVStateMap.ApplyMeaning(KVStateMap.EMPTY_KV, t, 1, b);
      KVStateMap.ReachAgree(t, log, 0, b);
      KVStateMap.DescribesAgree(kv, t, log, KVStateMap.Reach(log, 0, b));
      forall i | 1 <= i <= b ensures KVStateMap.DeletesAbsent(t, i) == KVStateMap.DeletesAbsent(log, i) {
        KVStateMap.DeletesAgree(t, log, i);
      }
      forall i | Orderly(log, b) && 1 <= i <= b ensures KVStateMap.TermContinues(t, i) {
        assert OrderlyAt(log, i);
      }
    }
  }

  /** The recovered maps are those that the live node had when it had applied exactly as much, be that
      before or after the backup. */
  lemma RecoveryIsThePast(c: Codec, d1: Disk, steps: seq<DiskStep>, d2: Disk)
    requires Lossless(c) && Mirrors(c, d1) && Leads(c, d1, steps, d2) && AllFit(c, d1.store.log) && AllFit(c, d2.store.log)
    ensures WellFormed(d2.store)
    ensures NodeStore.Faithful(d1.store) && d1.store.lastAppliedIndex == d2.store.lastBackupIndex && Recover(c, d2.file).Some? ==>
              Recover(c, d2.file).value.store.stateMap == d1.store.stateMap
    ensures NodeStore.Faithful(d2.store) && d2.store.lastAppliedIndex == d1.store.lastBackupIndex && Recover(c, d1.file).Some? ==>
              Recover(c, d1.file).value.store.stateMap == d2.store.stateMap
  {
    FileMirrorsLog(c, d1, steps, d2);
    RecoveryIsExact(c, d1);
    RecoveryIsExact(c, d2);
    hide Recover, Frames, Leads;
    var a, b := d1.store, d2.store;
    if NodeStore.Faithful(a) && a.lastAppliedIndex == b.lastBackupIndex && Recover(c, d2.file).Some? {
      DescribesUnique(a.stateMap, a.log, Recover(c, d2.file).value.store.stateMap, b.log, a.lastAppliedIndex);
    }
    if NodeStore.Faithful(b) && b.lastAppliedIndex == a.lastBackupIndex && Recover(c, d1.file).Some? {
      DescribesUnique(Recover(c, d1.file).value.store.stateMap, a.log, b.stateMap, b.log, b.lastAppliedIndex);
    }
  }

  /** The same for the key-value map: `live` is what the node had applied. */
  lemma RecoveredValuesArePast(c: Codec, d1: Disk, steps: seq<DiskStep>, d2: Disk, live: KVStateMap.KVMap)
    requires Lossless(c) && Mirrors(c, d1) && Leads(c, d1, steps, d2) && AllFit(c, d2.store.log)
    requires d1.store.lastAppliedIndex == d2.store.lastBackupIndex && Recover(c, d2.file).Some?
    requires var log, k := d1.store.log, d1.store.lastAppliedIndex;
             KVStateMap.Reach(log, 0, k) <= k && KVStateMap.Describes(live, log, KVStateMap.Reach(log, 0, k))
    ensures Recover(c, d2.file).value.kv == live
  {
    FileMirrorsLog(c, d1, steps, d2);
    RecoveryIsExact(c, d2);
    hide Recover, Frames, Leads;
    var a, b, k := d1.store.log, d2.store.log, d1.store.lastAppliedIndex;
    KVStateMap.ReachAgree(a, b, 0, k);
    KVStateMap.DescribesUnique(live, a, Recover(c, d2.file).value.kv, b, KVStateMap.Reach(a, 0, k));
  }

  // ---------------------------------------------------------------------------------------------
  // A file from which no node starts
  // ---------------------------------------------------------------------------------------------

  function DoubleDeletion(): Log {
    Log(map[1 := Entry(2, 1, KVStore("k", Some([]))), 2 := Entry(2, 2, KVStore("k", None)),
            3 := Entry(2, 3, KVStore("k", None)), 4 := Entry(2, 4, KVStore("j", Some([])))], 4)
  }

  /** Two deletions of one key may both be accepted before the first is applied.  A node that has backed up
      the entry after them does not start from its file, although its lock entries are orderly. */
  lemma DoubleDeletionBlocksTheStart(c: Codec, d: Disk)
    requires Lossless(c) && Mirrors(c, d) && AllFit(c, d.store.log)
    requires d.store.log == DoubleDeletion() && d.store.lastBackupIndex == 4
    ensures Orderly(d.store.log, 4) && Recover(c, d.file).None?
  {
    var log := d.store.log;
    RecoveryIsExact(c, d);
    assert KVStateMap.KeyEntry(log, 2, "k");
    assert KVStateMap.ValueAt(log, 2, "k") == None;
    assert KVStateMap.DeletesAbsent(log, 3);
    forall i | 1 <= i <= 4 ensures OrderlyAt(log, i) {
    }
  }
}

/** Storing the log into a file and reloading it, step by step on the file's bytes. */
module LogFiles {
  import opened Types
  import opened LogStorage
  import opened StateMap
  import opened NodeStore
  import opened Framing
  import opened RaftNode
  import Recovery
  import Servers

  /** An open file: its bytes, and the offset of the next read or write. */
  class DiskFile {
    var content: bytes
    var position: nat

    ghost predicate Valid()
      reads this
    {
      position <= |content|
    }

    ghost function Remaining(): bytes
      requires Valid()
      reads this
    {
      content[position..]
    }

    ghost predicate AtEnd()
      reads this
    {
      position == |content|
    }

    constructor (content: bytes)
      ensures Valid() && position == 0 && this.content == content
    {
      this.content := content;
      position := 0;
    }

    method Write(bs: bytes)
      requires Valid()
      modifies this
      ensures Valid() && position == old(position) + |bs|
      ensures old(AtEnd()) ==> AtEnd() && content == old(content) + bs
    {
      var after := position + |bs|;
      content := content[..position] + bs + (if after <= |content| then content[after..] else []);
      position := after;
    }

    method EndOfFile() returns (end: bool)
      requires Valid()
      ensures end == (Remaining() == [])
    {
      end := position == |content|;
    }

    method SkipSpace()
      requires Valid()
      modifies this`position
      ensures Valid() && Remaining() == SkipBlanks(old(Remaining()))
    {
      while position < |content| && content[position] == BLANK
        invariant Valid()
        invariant SkipBlanks(Remaining()) == SkipBlanks(old(Remaining()))
        decreases |content| - position
      {
        position := position + 1;
        assert content[position..] == content[position - 1..][1..];
      }
    }

    /** The number in the first digits, and how many there are. */
    method ScanDigits() returns (length: nat, k: nat)
      requires Valid()
      modifies this`position
      ensures Valid()
      ensures var t := old(Remaining());
              k == CountDigits(t, 8) && k <= |t| && length == HexValue(t[..k]) && Remaining() == t[k..]
    {
      length, k := 0, 0;
      ghost var t := Remaining();
      while k < 8 && position < |content| && DigitValue(content[position]).Some?
        invariant Valid() && k <= 8 && k <= |t| && Remaining() == t[k..]
        invariant CountDigits(t, 8) == k + CountDigits(t[k..], 8 - k)
        invariant length == HexValue(t[..k])
        decreases |content| - position
      {
        assert t[..k + 1][..k] == t[..k];
        assert t[k..][1..] == t[k + 1..];
        assert content[position] == t[k];
        length := 16 * length + DigitValue(content[position]).value;
        k := k + 1;
        position := position + 1;
      }
    }

    /** Blanks, up to eight digits, and a newline; the end of the file may take the place of the newline. */
    method ScanLength() returns (r: HeaderRead)
      requires Valid()
      modifies this`position
      ensures Valid()
      ensures r == ReadHeader(old(Remaining()))
      ensures r.Length? ==> Remaining() == r.rest
      ensures r.NoMoreHeader? ==> AtEnd()
    {
      hide HexValue, CountDigits, SkipBlanks;
      SkipSpace();
      ghost var t := Remaining();
      if position == |content| {
        return NoMoreHeader;
      }
      var length, k := ScanDigits();
      if k == 0 {
        return BadHeader;
      }
      if position == |content| {
        assert t[..k] == t;
        return Length(length, []);
      }
      assert content[position] == Remaining()[0] == t[k];
      if content[position] != NEWLINE {
        return BadHeader;
      }
      position := position + 1;
      assert content[position..] == t[k..][1..] == t[k + 1..];
      return Length(length, content[position..]);
    }
  }

  datatype EntryRead = Loaded(entry: Entry, count: nat) | NoMoreEntries | Failed

  /** Writes one entry; the answer does not count the header. */
  method StoreEntry(c: Codec, entry: Entry, file: DiskFile) returns (written: nat)
    requires file.Valid()
    modifies file
    ensures file.Valid() && written == |c.encode(entry)|
    ensures old(file.AtEnd()) ==> file.AtEnd() && file.content == old(file.content) + Frame(c, entry)
  {
    var encoded := c.encode(entry);
    file.Write(Header(|encoded|));
    file.Write(encoded);
    assert old(file.AtEnd()) ==> old(file.content) + Header(|encoded|) + encoded == old(file.content) + Frame(c, entry);
    return |encoded|;
  }

  /** Reads one entry; the answer counts nine bytes for the header. */
  method ReloadEntry(c: Codec, file: DiskFile) returns (r: EntryRead)
    requires file.Valid()
    modifies file`position
    ensures file.Valid()
    ensures match ReadFrame(c, old(file.Remaining()))
            case EndOfFile => r == NoMoreEntries && file.AtEnd()
            case Broken => r == Failed
            case Read(e, k, rest) => r == Loaded(e, k) && file.Remaining() == rest
  {
    var header := file.ScanLength();
    match header {
      case NoMoreHeader => return NoMoreEntries;
      case BadHeader => return Failed;
      case Length(length, rest) =>
        var end := file.EndOfFile();
        if length > 0 && end {
          return NoMoreEntries;
        }
        if |file.content| - file.position < length {
          return Failed;
        }
        var encoded := file.content[file.position..file.position + length];
        assert encoded == file.Remaining()[..length];
        file.position := file.position + length;
        assert file.Remaining() == rest[length..];
        var entry := c.decode(encoded);
        return if entry.None? then Failed else Loaded(entry.value, length + 8 + 1);
    }
  }

  lemma OneMoreFrame(c: Codec, log: Log, start: nat, i: nat, before: bytes)
    requires Dense(log) && 1 <= start <= i <= log.maximumIndex
    ensures before + Frames(c, log, start, i - 1) + Frame(c, log.entries[i]) == before + Frames(c, log, start, i)
    ensures Payload(c, log, start, i) == Payload(c, log, start, i - 1) + |c.encode(log.entries[i])|
  {
    hide Frame;
  }

  /** Stores the entries start..end. */
  method StoreLogMemory(c: Codec, logMemory: LogMemory, start: nat, end: nat, file: DiskFile) returns (written: nat, ok: bool)
    requires file.Valid()
    modifies file
    ensures file.Valid()
    ensures start == 0 || end == 0 || start > end || end > logMemory.maximumIndex ==> !ok && written == 0 && file.content == old(file.content)
    ensures Dense(logMemory.View()) && 1 <= start <= end <= logMemory.maximumIndex && old(file.AtEnd()) ==>
              && ok && written == Payload(c, logMemory.View(), start, end)
              && file.AtEnd() && file.content == old(file.content) + Frames(c, logMemory.View(), start, end)
  {
    written := 0;
    if start == 0 || end == 0 || start > logMemory.maximumIndex || end > logMemory.maximumIndex || start > end {
      return 0, false;
    }
    hide Frame;
    ghost var log, before, atEnd := logMemory.View(), file.content, file.AtEnd();
    var i := start;
    while i <= end
      invariant file.Valid() && start <= i <= end + 1
      invariant Dense(log) && atEnd ==>
                  && written == Payload(c, log, start, i - 1)
                  && file.AtEnd() && file.content == before + Frames(c, log, start, i - 1)
    {
      var entry := logMemory.FetchLogEntry(i);
      if entry.None? {
        return 0, false;
      }
      if Dense(log) {
        OneMoreFrame(c, log, start, i, before);
      }
      var bytesWritten := StoreEntry(c, entry.value, file);
      written := written + bytesWritten;
      i := i + 1;
    }
    return written, true;
  }

  /** Reads entries into the log until the end of the file, or an error. */
  method ReloadLogMemory(c: Codec, logMemory: LogMemory, file: DiskFile) returns (count: nat, broken: bool)
    requires file.Valid()
    modifies logMemory, file`position
    ensures file.Valid()
    ensures Reloaded(logMemory.View(), count, broken) == ReloadFrom(c, old(logMemory.View()), 0, old(file.Remaining()))
    ensures !broken ==> file.AtEnd()
  {
    count := 0;
    while true
      invariant file.Valid()
      invariant ReloadFrom(c, logMemory.View(), count, file.Remaining()) == ReloadFrom(c, old(logMemory.View()), 0, old(file.Remaining()))
      decreases |file.content| - file.position
    {
      ReadShrinks(c, file.Remaining());
      var r := ReloadEntry(c, file);
      match r {
        case NoMoreEntries => return count, false;
        case Failed => return count, true;
        case Loaded(entry, k) =>
          logMemory.InsertLogEntry(entry);
          count := count + k;
      }
    }
  }

  /** Appends newly committed entries to the file, if there is one. */
  method BackupProcedure(c: Codec, node: Servers.Server, file: DiskFile?)
    requires file != null ==> file.Valid() && file.AtEnd()
    requires WellFormed(node.StoreView())
    modifies node`lastBackupIndex, file
    ensures file == null ==> node.View() == old(node.View())
    ensures file != null ==>
              && file.Valid() && file.AtEnd()
              && Recovery.Disk(node.StoreView(), file.content)
                 == Recovery.BackUp(c, Recovery.Disk(old(node.StoreView()), old(file.content)))
              && node.View() == old(node.View()).(store := node.StoreView())
  {
    hide Frames;
    if node.commitIndex > node.lastBackupIndex && file != null {
      var written, ok := StoreLogMemory(c, node.logMemory, node.lastBackupIndex + 1, node.commitIndex, file);
      if ok {
        node.lastBackupIndex := node.commitIndex;
      }
    }
  }

  /** A node that is made from its file: the log is read and replayed into both maps.  It is dead until its
      modules are started. */
  method NewNode(c: Codec, id: Id, peerList: seq<Id>, acquirementExpire: nat, file: DiskFile) returns (node: Servers.Server?)
    requires forall i, j :: 0 <= i < j < |peerList| ==> peerList[i] != peerList[j]
    requires id !in peerList && file.Valid()
    modifies file`position
    ensures file.Valid()
    ensures node != null <==> Recovery.Recover(c, old(file.Remaining())).Some?
    ensures node != null ==>
              var r := Recovery.Recover(c, old(file.Remaining())).value;
              && file.AtEnd() && fresh(node) && node.StoreView() == r.store && node.stateMapKVStore.View() == r.kv
              && node.currentTerm == r.term
              && node.role == Dead && node.votedPeer == 0 && node.id == id && node.peerList == peerList
  {
    var fresh' := new Servers.Server(id, peerList, acquirementExpire);
    var count, broken := ReloadLogMemory(c, fresh'.logMemory, file);
    if broken {
      return null;
    }
    var last := fresh'.logMemory.maximumIndex;
    fresh'.lastBackupIndex, fresh'.commitIndex, fresh'.lastAppliedIndex := last, last, last;
    if last != 0 {
      var lastEntry := fresh'.logMemory.FetchLogEntry(last);
      if lastEntry.None? {
        return null;
      }
      fresh'.currentTerm := lastEntry.value.term;
      var status := fresh'.stateMap.UpdateStateFromLogMemory(fresh'.logMemory, 1, last);
      var kvStatus := fresh'.stateMapKVStore.UpdateStateFromLogMemory(fresh'.logMemory, 1, last);
      if status != Updated || kvStatus != Updated {
        return null;
      }
    }
    return fresh';
  }
}

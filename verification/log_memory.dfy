/** The in-memory log: entries kept in a map under their index, and the largest index seen. */
module LogStorage {
  import opened Types

  datatype Log = Log(entries: map<nat, Entry>, maximumIndex: nat)

  const EMPTY_LOG := Log(map[], 0)

  /** The log holds exactly the indices 1..maximumIndex, each entry under its own index. */
  ghost predicate Dense(log: Log) {
    && (forall i :: i in log.entries <==> 1 <= i <= log.maximumIndex)
    && (forall i :: i in log.entries ==> log.entries[i].index == i)
  }

  function Insert(log: Log, e: Entry): Log {
    Log(log.entries[e.index := e], if e.index > log.maximumIndex then e.index else log.maximumIndex)
  }

  function InsertList(log: Log, es: seq<Entry>): Log {
    if es == [] then log else Insert(InsertList(log, es[..|es| - 1]), es[|es| - 1])
  }

  function Fetch(log: Log, index: nat): Option<Entry> {
    if index > log.maximumIndex || index !in log.entries then None else Some(log.entries[index])
  }

  /** Appending at the end, as a leader does. */
  function Append(log: Log, term: nat, command: Command): Log {
    Insert(log, Entry(term, log.maximumIndex + 1, command))
  }

  /** `es` carries the indices from + 1, from + 2, ... in this order. */
  ghost predicate Contiguous(es: seq<Entry>, from: nat) {
    forall i :: 0 <= i < |es| ==> es[i].index == from + 1 + i
  }

  /** The two logs hold the same entries at 1..k. */
  ghost predicate Agree(a: Log, b: Log, k: nat) {
    forall i :: 1 <= i <= k ==> i in a.entries && i in b.entries && a.entries[i] == b.entries[i]
  }

  ghost predicate Prefix(a: Log, b: Log) {
    a.maximumIndex <= b.maximumIndex && Agree(a, b, a.maximumIndex)
  }

  /** What inserting a list next to or inside a dense log does to every position. */
  lemma {:induction false} InsertListEffect(log: Log, es: seq<Entry>, from: nat)
    requires Dense(log) && from <= log.maximumIndex && Contiguous(es, from)
    ensures var r := InsertList(log, es);
            && Dense(r)
            && r.maximumIndex == (if from + |es| > log.maximumIndex then from + |es| else log.maximumIndex)
            && (forall i :: from < i <= from + |es| ==> r.entries[i] == es[i - from - 1])
            && (forall i :: i in log.entries && !(from < i <= from + |es|) ==> r.entries[i] == log.entries[i])
  {
    if es != [] {
      InsertListEffect(log, es[..|es| - 1], from);
    }
  }

  /** The answer of the backward search for the last entry of a term. */
  datatype TermSearch = FoundAt(index: nat) | NoSpecificTerm | EntryMissing

  function LastIndexOfTerm(log: Log, term: nat, from: nat): TermSearch {
    if from == 0 then NoSpecificTerm
    else match Fetch(log, from)
      case None => EntryMissing
      case Some(e) => if e.term == term then FoundAt(from) else LastIndexOfTerm(log, term, from - 1)
  }

  function FetchLastIndexOfTerm(log: Log, term: nat): TermSearch {
    if term == 0 then FoundAt(0) else LastIndexOfTerm(log, term, log.maximumIndex)
  }

  /** On a dense log the search finds the greatest index of the term, or the term is absent. */
  lemma {:induction false} LastIndexOfTermIsGreatest(log: Log, term: nat, from: nat)
    requires Dense(log) && from <= log.maximumIndex
    ensures match LastIndexOfTerm(log, term, from)
            case FoundAt(k) => 1 <= k <= from && log.entries[k].term == term
                               && forall i :: k < i <= from ==> log.entries[i].term != term
            case NoSpecificTerm => forall i :: 1 <= i <= from ==> log.entries[i].term != term
            case EntryMissing => false
  {
    if from > 0 {
      LastIndexOfTermIsGreatest(log, term, from - 1);
    }
  }

  class LogMemory {
    var logInMemory: map<nat, Entry>
    var maximumIndex: nat

    ghost function View(): Log
      reads this
    {
      Log(logInMemory, maximumIndex)
    }

    constructor ()
      ensures View() == EMPTY_LOG
    {
      logInMemory := map[];
      maximumIndex := 0;
    }

    method InsertLogEntry(entry: Entry)
      modifies this
      ensures View() == Insert(old(View()), entry)
    {
      logInMemory := logInMemory[entry.index := entry];
      if entry.index > maximumIndex {
        maximumIndex := entry.index;
      }
    }

    method FetchLogEntry(index: nat) returns (r: Option<Entry>)
      ensures r == Fetch(View(), index)
    {
      if index > maximumIndex {
        return None;
      }
      if index !in logInMemory {
        return None;
      }
      return Some(logInMemory[index]);
    }

    method InsertValidEntryList(entryList: seq<Entry>)
      modifies this
      ensures View() == InsertList(old(View()), entryList)
    {
      for n := 0 to |entryList|
        invariant View() == InsertList(old(View()), entryList[..n])
      {
        assert entryList[..n + 1][..n] == entryList[..n];
        InsertLogEntry(entryList[n]);
      }
      assert entryList[..|entryList|] == entryList;
    }

    method FetchLastIndexOfTerm(term: nat) returns (r: TermSearch)
      ensures term == 0 ==> r == FoundAt(0)
      ensures term != 0 ==> r == LastIndexOfTerm(View(), term, maximumIndex)
    {
      if term == 0 {
        return FoundAt(0);
      }
      var i: nat := maximumIndex;
      while true
        invariant i <= maximumIndex
        invariant LastIndexOfTerm(View(), term, i) == LastIndexOfTerm(View(), term, maximumIndex)
        decreases i
      {
        if i == 0 {
          return NoSpecificTerm;
        }
        var e := FetchLogEntry(i);
        if e.None? {
          return EntryMissing;
        }
        if e.value.term == term {
          return FoundAt(i);
        }
        i := i - 1;
      }
    }
  }
}

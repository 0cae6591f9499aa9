/** What each handler of one node does to its store and to the window of its peers. */
module NodeSteps {
  import opened Types
  import opened LogStorage
  import opened StateMap
  import opened NodeStore
  import opened RaftNode

  /** The store moves forward: no index falls. */
  ghost predicate Forward(a: Store, b: Store) {
    && WellFormed(b)
    && a.log.maximumIndex <= b.log.maximumIndex && a.commitIndex <= b.commitIndex
    && a.lastAppliedIndex <= b.lastAppliedIndex && a.lastBackupIndex <= b.lastBackupIndex
  }

  /** Every entry of b comes from a or from the list. */
  ghost predicate EntriesFrom(a: Log, b: Log, es: seq<Entry>) {
    forall i :: i in b.entries ==> (i in a.entries && b.entries[i] == a.entries[i]) || b.entries[i] in es
  }

  lemma AcceptMovesForward(st: Store, r: AppendRequest)
    requires WellFormed(st) && Contiguous(r.entryList, r.prevEntryIndex) && r.prevEntryIndex <= st.log.maximumIndex
    ensures var st' := AcceptEntries(st, r);
            && Forward(st, st') && EntriesFrom(st.log, st'.log, r.entryList)
            && st'.log.maximumIndex >= r.prevEntryIndex + |r.entryList|
  {
    InsertListEffect(st.log, r.entryList, r.prevEntryIndex);
    var st' := AcceptEntries(st, r);
    forall i | i in st'.log.entries ensures (i in st.log.entries && st'.log.entries[i] == st.log.entries[i]) || st'.log.entries[i] in r.entryList {
      if r.prevEntryIndex < i <= r.prevEntryIndex + |r.entryList| {
        assert st'.log.entries[i] == r.entryList[i - r.prevEntryIndex - 1];
      }
    }
  }

  /** On a dense log the handlers find every entry they look for. */
  lemma MatchesAndConflictAreFound(log: Log, r: AppendRequest)
    requires Dense(log)
    ensures Matches(log, r).Some? && Conflict(log, r.prevEntryIndex).Some?
    ensures Matches(log, r).value ==> r.prevEntryIndex <= log.maximumIndex
    ensures Conflict(log, r.prevEntryIndex).value.0 <= r.prevEntryIndex
    ensures Conflict(log, r.prevEntryIndex).value.1 > 0 ==> Conflict(log, r.prevEntryIndex).value.0 >= 1
  {
  }

  /** An answer to an append request: the store moves forward with entries of the request, a success
      means that the whole batch is in the log, a conflict points below the batch. */
  lemma AppendRequestEffect(n: Node, r: AppendRequest)
    requires WellFormed(n.store) && Contiguous(r.entryList, r.prevEntryIndex)
    ensures var (n', a) := HandleAppendRequest(n, r);
            && Forward(n.store, n'.store) && EntriesFrom(n.store.log, n'.store.log, r.entryList)
            && n'.nextIndex == n.nextIndex && n'.matchIndex == n.matchIndex
            && (n.role != Dead ==> a.Some?)
            && (a.Some? ==>
                  && a.value.conflictEntryIndex <= r.prevEntryIndex
                  && (a.value.conflictEntryTerm > 0 ==> a.value.conflictEntryIndex >= 1)
                  && (a.value.success ==> n'.store.log.maximumIndex >= r.prevEntryIndex + |r.entryList|))
  {
    hide AcceptEntries, Matches, Conflict;
    MatchesAndConflictAreFound(n.store.log, r);
    if Matches(n.store.log, r).value {
      AcceptMovesForward(n.store, r);
    }
  }

  ghost predicate Window(n: Node) {
    n.role == Leader ==> forall p :: p in n.peers ==> p in n.nextIndex && 1 <= n.nextIndex[p] <= Max(n) + 1
  }

  /** What a leader remembers of a request stays below the end of its log. */
  ghost predicate SentWithin(sent: Sent, max: nat) {
    sent.next >= 1 && sent.next - 1 + sent.length <= max
  }

  lemma AppendResponseEffect(n: Node, peer: Id, sent: Sent, r: AppendResponse)
    requires WellFormed(n.store) && Window(n) && SentWithin(sent, Max(n))
    requires r.conflictEntryIndex < sent.next && (r.conflictEntryTerm > 0 ==> r.conflictEntryIndex >= 1)
    ensures var n' := HandleAppendResponse(n, peer, sent, r);
            Forward(n.store, n'.store) && n'.store.log == n.store.log && Window(n')
  {
    if r.success {
      CommitTargetIsGreatest(AdvanceFollower(n, peer, sent), Max(n));
    } else if r.conflictEntryTerm > 0 {
      LastIndexOfTermIsGreatest(n.store.log, r.conflictEntryTerm, Max(n));
    }
  }

  lemma CommitProcedureMovesForward(st: Store)
    requires WellFormed(st)
    ensures Forward(st, CommitProcedure(st)) && CommitProcedure(st).log == st.log
  {
  }

  /** New entries at the end, all in one term. */
  ghost predicate GrowsBy(a: Log, b: Log, term: nat) {
    && a.maximumIndex <= b.maximumIndex && Agree(a, b, a.maximumIndex)
    && forall i :: a.maximumIndex < i <= b.maximumIndex ==> i in b.entries && b.entries[i].term == term
  }

  lemma {:induction false} AppendAllEffect(st: Store, term: nat, commands: seq<Command>)
    requires WellFormed(st)
    ensures var st' := AppendAll(st, term, commands);
            && Forward(st, st') && GrowsBy(st.log, st'.log, term)
            && st'.log.maximumIndex == st.log.maximumIndex + |commands|
            && st' == st.(log := st'.log)
            && forall i :: 0 <= i < |commands| ==> st'.log.entries[st.log.maximumIndex + 1 + i].command == commands[i]
  {
    if commands != [] {
      AppendAllEffect(st, term, commands[..|commands| - 1]);
    }
  }

  lemma BecomeLeaderEffect(n: Node, initial: seq<Command>)
    requires WellFormed(n.store)
    ensures var n' := BecomeLeader(n, initial);
            && Forward(n.store, n'.store) && GrowsBy(n.store.log, n'.store.log, n.currentTerm) && Window(n')
            && n'.store.commitIndex == n.store.commitIndex
  {
    CommitProcedureMovesForward(n.store);
    AppendAllEffect(CommitProcedure(n.store), n.currentTerm, initial);
  }

  lemma VoteResponseEffect(n: Node, b: nat, peer: Id, r: VoteResponse, initial: seq<Command>)
    requires WellFormed(n.store) && Window(n) && b < |n.ballots|
    ensures var n' := HandleVoteResponse(n, b, peer, r, initial);
            && Forward(n.store, n'.store) && Window(n')
            && (n'.role == Leader && n.role == Candidate ==> GrowsBy(n.store.log, n'.store.log, n'.currentTerm))
            && (n'.role != Leader || n.role != Candidate ==> n'.store == n.store)
            && n'.store.commitIndex == n.store.commitIndex
  {
    if n.role == Candidate && r.term == n.ballots[b].term {
      var ballot := n.ballots[b];
      var counted := if r.accepted && !(peer in ballot.voteMap && ballot.voteMap[peer])
                     then Ballot(ballot.term, ballot.collected + 1, ballot.voteMap[peer := true]) else ballot;
      BecomeLeaderEffect(n.(ballots := n.ballots[b := counted]), initial);
    }
  }

  /** Within the window a batch is exactly the contiguous slice of the log that starts at the next
      index: nothing underflows and nothing is missing. */
  lemma BatchIsSlice(n: Node, peer: Id, maximumLength: nat)
    requires WellFormed(n.store) && Window(n) && n.role == Leader && peer in n.peers
    ensures var prev := n.nextIndex[peer] - 1;
            var length := Min(maximumLength, Max(n) - prev);
            && PrepareAppend(n, peer, maximumLength).Batch?
            && var r := PrepareAppend(n, peer, maximumLength).request;
               && r.prevEntryIndex == prev && |r.entryList| == length && Contiguous(r.entryList, prev)
               && r.commitEntryIndex == n.store.commitIndex && r.term == n.currentTerm && r.nodeId == n.id
               && (forall i :: 0 <= i < length ==> r.entryList[i] == n.store.log.entries[prev + 1 + i])
               && (prev > 0 ==> r.prevEntryTerm == n.store.log.entries[prev].term)
  {
    SliceIsRun(n.store.log, n.nextIndex[peer] - 1, Min(maximumLength, Max(n) - (n.nextIndex[peer] - 1)));
  }
}

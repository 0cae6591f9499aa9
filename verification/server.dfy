/** A Raft node as the program keeps it, and its lock service; the two objects refer to each other.  Their
    handlers update fields, maps and the log in place, and each is proved to do exactly what RaftNode and
    LockService say of the value. */
module Servers {
  import opened Types
  import opened LogStorage
  import opened StateMap
  import opened NodeStore
  import opened RaftNode
  import opened AcquirementQueue
  import opened ReignScan
  import opened LockScan
  import KVStateMap
  import LockService

  class Server {
    const id: Id
    const peerList: seq<Id>
    const logMemory: LogMemory
    const stateMap: StateMapMemoryDLock
    const stateMapKVStore: KVStateMap.StateMapMemoryKVStore
    const acquirementExpire: nat
    var role: Role
    var currentTerm: nat
    var votedPeer: Id
    var commitIndex: nat
    var lastAppliedIndex: nat
    var lastBackupIndex: nat
    var nextIndex: map<Id, nat>
    var matchIndex: map<Id, nat>
    var ballots: seq<Ballot>
    var dlockInterchange: DlockInterchange?

    /** The peers have distinct ids, different from the node's own, and every lock state is filed under
        its name. */
    ghost predicate Valid()
      reads this, stateMap
    {
      && Keyed(stateMap.View())
      && nextIndex.Keys == matchIndex.Keys == PeerIds()
      && (forall i, j :: 0 <= i < j < |peerList| ==> peerList[i] != peerList[j])
      && id !in peerList
    }

    ghost function PeerIds(): set<Id> {
      Ids(peerList)
    }

    ghost function StoreView(): Store
      reads this, logMemory, stateMap
    {
      Store(logMemory.View(), commitIndex, lastAppliedIndex, lastBackupIndex, stateMap.View())
    }

    ghost function View(): Node
      reads this, logMemory, stateMap
    {
      Node(id, PeerIds(), role, currentTerm, votedPeer, StoreView(), nextIndex, matchIndex, ballots)
    }

    /** A dead node on an empty log, knowing nothing of its peers. */
    constructor (id: Id, peerList: seq<Id>, acquirementExpire: nat)
      requires forall i, j :: 0 <= i < j < |peerList| ==> peerList[i] != peerList[j]
      requires id !in peerList
      ensures Valid() && fresh(logMemory) && fresh(stateMap) && fresh(stateMapKVStore)
      ensures View() == Node(id, PeerIds(), Dead, 1, 0, EMPTY_STORE,
                             map p | p in PeerIds() :: 0, map p | p in PeerIds() :: 0, [])
      ensures stateMapKVStore.View() == KVStateMap.EMPTY_KV
      ensures this.peerList == peerList && this.id == id && this.acquirementExpire == acquirementExpire
    {
      this.id, this.peerList, this.acquirementExpire := id, peerList, acquirementExpire;
      role, currentTerm, votedPeer := Dead, 1, 0;
      commitIndex, lastAppliedIndex, lastBackupIndex := 0, 0, 0;
      nextIndex, matchIndex, ballots := (map p | p in peerList :: 0), (map p | p in peerList :: 0), [];
      dlockInterchange := null;
      logMemory := new LogMemory();
      stateMap := new StateMapMemoryDLock();
      stateMapKVStore := new KVStateMap.StateMapMemoryKVStore();
    }

    /** A dead node begins as a follower; another one goes on as it is. */
    method InitRaftConsensusModule()
      modifies this`role
      ensures View() == if old(role) == Dead then old(View()).(role := Follower) else old(View())
    {
      if role == Dead {
        role := Follower;
      }
    }

    method CommitProcedure()
      modifies this`lastAppliedIndex, stateMap, stateMapKVStore
      ensures StoreView() == NodeStore.CommitProcedure(old(StoreView()))
      ensures stateMapKVStore.View()
           == KVStateMap.Commit(old(stateMapKVStore.View()), logMemory.View(), old(lastAppliedIndex), commitIndex)
      ensures old(Valid()) ==> Valid()
      ensures View() == old(View()).(store := StoreView())
    {
      if Keyed(stateMap.View()) {
        CommitKeepsKeyed(StoreView());
      }
      if commitIndex > lastAppliedIndex {
        var status := stateMap.UpdateStateFromLogMemory(logMemory, lastAppliedIndex + 1, commitIndex);
        status := stateMapKVStore.UpdateStateFromLogMemory(logMemory, lastAppliedIndex + 1, commitIndex);
        lastAppliedIndex := commitIndex;
      }
    }

    method BecomeFollower(term: nat)
      modifies this`votedPeer, this`currentTerm, this`role
      ensures View() == RaftNode.BecomeFollower(old(View()), term)
    {
      votedPeer := 0;
      currentTerm := term;
      role := Follower;
    }

    // Elections -----------------------------------------------------------------------------------

    method StartCandidateVoteModule()
      requires Valid()
      modifies this`role, this`currentTerm, this`votedPeer, this`ballots
      ensures View() == StartCandidacy(old(View()))
    {
      role := Candidate;
      currentTerm := currentTerm + 1;
      votedPeer := id;
      var voteMap := NewVoteMap();
      ballots := ballots + [Ballot(currentTerm, 1, voteMap)];
    }

    /** Only the candidate itself has voted for it yet. */
    method NewVoteMap() returns (voteMap: map<Id, bool>)
      requires Valid()
      ensures voteMap == (map p | p in PeerIds() :: false)[id := true]
    {
      voteMap := map[id := true];
      for i := 0 to |peerList|
        invariant forall p :: p in voteMap <==> p == id || p in peerList[..i]
        invariant forall p :: p in voteMap ==> voteMap[p] == (p == id)
      {
        assert peerList[..i + 1] == peerList[..i] + [peerList[i]];
        voteMap := voteMap[peerList[i] := false];
      }
      assert peerList[..|peerList|] == peerList;
    }

    method LastEntryTerm() returns (term: Option<nat>)
      ensures term == LastTerm(logMemory.View())
    {
      if logMemory.maximumIndex == 0 {
        return Some(0);
      }
      var entry := logMemory.FetchLogEntry(logMemory.maximumIndex);
      return if entry.None? then None else Some(entry.value.term);
    }

    /** The first half of a vote goroutine: the request of candidacy b. */
    method PrepareVoteRequest(b: nat) returns (request: Option<VoteRequest>)
      requires b < |ballots|
      ensures request == AskForVote(View(), b)
    {
      if role != Candidate && role != Follower {
        return None;
      }
      if currentTerm > ballots[b].term {
        return None;
      }
      var term := LastEntryTerm();
      if term.None? {
        return None;
      }
      return Some(VoteRequest(ballots[b].term, id, logMemory.maximumIndex, term.value));
    }

    /** The election is won: a new lock service starts, and every peer's window at the end of the log. */
    method BecomeLeader(timestamp: int) returns (ghost order: seq<string>, ghost initial: seq<Command>)
      requires Valid()
      modifies this, logMemory, stateMap, stateMapKVStore
      ensures Valid() && View() == RaftNode.BecomeLeader(old(View()), initial)
      ensures dlockInterchange != null && dlockInterchange.Valid() && fresh(dlockInterchange.Repr() - {this, logMemory, stateMap, stateMapKVStore})
      ensures dlockInterchange.nodeRef == this && dlockInterchange.leaderTerm == currentTerm
      ensures var start := LockService.Commit(LockService.Leader(currentTerm, old(StoreView()), map[], acquirementExpire));
              && Enumerates(order, start.store.stateMap.locks)
              && dlockInterchange.View() == LockService.Scan(start, order, timestamp)
    {
      hide LockService.Scan, NodeStore.CommitProcedure, AppendAll, Valid, View, DlockInterchange.Valid, DlockInterchange.View;
      order, initial := StartLeading(timestamp);
      ResetWindows();
    }

    /** The node is a leader, with a lock service whose first scan has appended its releases. */
    method StartLeading(timestamp: int) returns (ghost order: seq<string>, ghost initial: seq<Command>)
      requires Valid()
      modifies this`role, this`dlockInterchange, this`lastAppliedIndex, logMemory, stateMap, stateMapKVStore
      ensures Valid()
      ensures View() == var n := old(View());
                        n.(role := Leader, store := AppendAll(NodeStore.CommitProcedure(n.store), n.currentTerm, initial))
      ensures dlockInterchange != null && dlockInterchange.Valid() && fresh(dlockInterchange.Repr() - {this, logMemory, stateMap, stateMapKVStore})
      ensures dlockInterchange.nodeRef == this && dlockInterchange.leaderTerm == currentTerm
      ensures var start := LockService.Commit(LockService.Leader(currentTerm, old(StoreView()), map[], acquirementExpire));
              && Enumerates(order, start.store.stateMap.locks)
              && dlockInterchange.View() == LockService.Scan(start, order, timestamp)
    {
      hide LockService.Scan, NodeStore.CommitProcedure, AppendAll;
      role := Leader;
      ghost var start := LockService.Commit(LockService.Leader(currentTerm, StoreView(), map[], acquirementExpire));
      order := OpenLockService(timestamp);
      initial := ScanIsAppendAll(start, order, timestamp);
    }

    method OpenLockService(timestamp: int) returns (ghost order: seq<string>)
      requires Valid()
      modifies this`dlockInterchange, this`lastAppliedIndex, logMemory, stateMap, stateMapKVStore
      ensures Valid()
      ensures dlockInterchange != null && dlockInterchange.Valid() && fresh(dlockInterchange.Repr() - {this, logMemory, stateMap, stateMapKVStore})
      ensures dlockInterchange.nodeRef == this && dlockInterchange.leaderTerm == currentTerm
      ensures var start := LockService.Commit(LockService.Leader(currentTerm, old(StoreView()), map[], acquirementExpire));
              && Enumerates(order, start.store.stateMap.locks)
              && dlockInterchange.View() == LockService.Scan(start, order, timestamp)
      ensures StoreView() == dlockInterchange.View().store
    {
      hide DlockInterchange.Valid, LockService.Scan, NodeStore.CommitProcedure;
      dlockInterchange := new DlockInterchange(this);
      order := dlockInterchange.InitFromDLockStateMap(timestamp);
      dlockInterchange.StatesAreKeyed();
    }

    method ResetEach()
      requires Valid()
      modifies this`nextIndex
      ensures Valid() && nextIndex == map p | p in PeerIds() :: logMemory.maximumIndex + 1
    {
      for i := 0 to |peerList|
        invariant nextIndex.Keys == PeerIds()
        invariant forall j :: 0 <= j < i ==> nextIndex[peerList[j]] == logMemory.maximumIndex + 1
      {
        nextIndex := nextIndex[peerList[i] := logMemory.maximumIndex + 1];
      }
    }

    method ResetWindows()
      requires Valid()
      modifies this`nextIndex
      ensures Valid()
      ensures View() == var n := old(View()); n.(nextIndex := map p | p in n.peers :: n.store.log.maximumIndex + 1)
      ensures dlockInterchange != null && old(dlockInterchange.Valid()) ==>
                && dlockInterchange.Valid() && dlockInterchange.View() == old(dlockInterchange.View())
                && dlockInterchange.Repr() == old(dlockInterchange.Repr())
    {
      hide DlockInterchange.Valid, DlockInterchange.View, DlockInterchange.Repr;
      ResetEach();
      if dlockInterchange != null && old(dlockInterchange.Valid()) {
        dlockInterchange.ViewIgnoresWindows();
      }
    }

    /** The second half of a vote goroutine: the answer of a peer to candidacy b. */
    method ProcessVoteResponse(b: nat, peer: Id, response: VoteResponse, timestamp: int) returns (ghost initial: seq<Command>)
      requires Valid() && b < |ballots|
      modifies this, logMemory, stateMap, stateMapKVStore
      ensures Valid() && View() == HandleVoteResponse(old(View()), b, peer, response, initial)
      ensures old(role) == Candidate && role == Leader ==>
                dlockInterchange != null && dlockInterchange.Valid() && dlockInterchange.nodeRef == this
    {
      hide RaftNode.BecomeLeader;
      initial := [];
      if role != Candidate {
        return;
      }
      if response.term > ballots[b].term {
        BecomeFollower(response.term);
        return;
      } else if response.term == ballots[b].term && currentTerm == ballots[b].term {
        CollectVote(b, peer, response.accepted);
        PeersAreCounted();
        if 2 * ballots[b].collected > |peerList| + 1 {
          ghost var order;
          order, initial := BecomeLeader(timestamp);
        }
      }
    }

    method CollectVote(b: nat, peer: Id, accepted: bool)
      requires Valid() && b < |ballots|
      modifies this`ballots
      ensures Valid() && |ballots| == old(|ballots|)
      ensures var ballot := old(ballots[b]);
              var counted := if accepted && !(peer in ballot.voteMap && ballot.voteMap[peer])
                             then Ballot(ballot.term, ballot.collected + 1, ballot.voteMap[peer := true]) else ballot;
              ballots[b] == counted && View() == old(View()).(ballots := old(ballots)[b := counted])
    {
      var ballot := ballots[b];
      if accepted && !(peer in ballot.voteMap && ballot.voteMap[peer]) {
        ballots := ballots[b := Ballot(ballot.term, ballot.collected + 1, ballot.voteMap[peer := true])];
      }
    }

    method CandidateVotesService(request: VoteRequest) returns (response: Option<VoteResponse>)
      modifies this`votedPeer, this`currentTerm, this`role
      ensures (View(), response) == HandleVoteRequest(old(View()), request)
    {
      if role == Dead {
        return None;
      }
      var accepted := false;
      if request.term > currentTerm {
        BecomeFollower(request.term);
        accepted := true;
        votedPeer := request.nodeId;
      } else if request.term == currentTerm && (votedPeer == 0 || votedPeer == request.nodeId) {
        var lastEntryTerm := LastEntryTerm();
        if lastEntryTerm.None? {
          return None;
        }
        if request.prevEntryTerm > lastEntryTerm.value
           || (request.prevEntryTerm == lastEntryTerm.value && request.prevEntryIndex >= logMemory.maximumIndex) {
          accepted := true;
          votedPeer := request.nodeId;
        }
      }
      return Some(VoteResponse(currentTerm, id, accepted));
    }

    // Replication ---------------------------------------------------------------------------------

    method AppendEntriesService(request: AppendRequest) returns (response: Option<AppendResponse>)
      modifies this`votedPeer, this`currentTerm, this`role, this`commitIndex, logMemory
      ensures (View(), response) == HandleAppendRequest(old(View()), request)
    {
      hide InsertList;
      if role == Dead {
        return None;
      }
      var conflictIndex, conflictTerm, committed, success := 0, 0, commitIndex, false;
      if request.term > currentTerm {
        BecomeFollower(request.term);
      }
      if request.term == currentTerm {
        if role != Follower {
          BecomeFollower(request.term);
        }
        if request.prevEntryIndex <= logMemory.maximumIndex {
          if request.prevEntryIndex != 0 {
            var previous := logMemory.FetchLogEntry(request.prevEntryIndex);
            if previous.None? {
              return None;
            }
            success := previous.value.term == request.prevEntryTerm;
          } else {
            success := true;
          }
        }
        if success {
          logMemory.InsertValidEntryList(request.entryList);
          if request.commitEntryIndex > commitIndex {
            commitIndex := Min(request.commitEntryIndex, logMemory.maximumIndex);
            committed := commitIndex;
          }
        } else {
          var maximumIndex := logMemory.maximumIndex;
          if maximumIndex == 0 {
          } else if request.prevEntryIndex > maximumIndex {
            var last := logMemory.FetchLogEntry(maximumIndex);
            if last.None? {
              return None;
            }
            conflictIndex, conflictTerm := maximumIndex, last.value.term;
          } else if request.prevEntryIndex != 0 {
            var previous := logMemory.FetchLogEntry(request.prevEntryIndex);
            if previous.None? {
              return None;
            }
            conflictIndex, conflictTerm := request.prevEntryIndex, previous.value.term;
          }
        }
      }
      return Some(AppendResponse(currentTerm, id, conflictIndex, conflictTerm, committed, success));
    }

    /** The first half of an append goroutine: the batch for one peer. */
    method PrepareAppendEntries(peer: Id, maximumEntryListLength: nat) returns (batch: Batch)
      ensures batch == PrepareAppend(View(), peer, maximumEntryListLength)
    {
      if peer !in nextIndex || nextIndex[peer] == 0 || nextIndex[peer] - 1 > logMemory.maximumIndex {
        return WindowError;
      }
      var prevIndexRecord := nextIndex[peer] - 1;
      var entryLength := Min(maximumEntryListLength, logMemory.maximumIndex - prevIndexRecord);
      var entryList := [];
      for j := 0 to entryLength
        invariant Slice(logMemory.View(), prevIndexRecord, j) == Some(entryList)
      {
        var entry := logMemory.FetchLogEntry(prevIndexRecord + 1 + j);
        if entry.None? {
          SliceStaysMissing(logMemory.View(), prevIndexRecord, j + 1, entryLength);
          return FetchError;
        }
        entryList := entryList + [entry.value];
      }
      var prevEntryTerm := 0;
      if prevIndexRecord != 0 {
        var entry := logMemory.FetchLogEntry(prevIndexRecord);
        if entry.None? {
          return FetchError;
        }
        prevEntryTerm := entry.value.term;
      }
      return Batch(AppendRequest(currentTerm, id, prevIndexRecord, prevEntryTerm, commitIndex, entryList));
    }

    /** Counts the node itself and the followers that are known to hold the log up to k. */
    method CountMatchedPeers(k: nat) returns (matchedPeers: nat)
      requires Valid()
      ensures matchedPeers == 1 + |Matched(View(), k)|
    {
      hide View;
      matchedPeers := 1;
      ghost var counted: set<Id> := {};
      for i := 0 to |peerList|
        invariant forall p :: p in counted ==> p in peerList[..i] && matchIndex[p] >= k
        invariant forall j :: 0 <= j < i && matchIndex[peerList[j]] >= k ==> peerList[j] in counted
        invariant matchedPeers == 1 + |counted|
      {
        assert peerList[i] !in peerList[..i];
        if matchIndex[peerList[i]] >= k {
          matchedPeers := matchedPeers + 1;
          counted := counted + {peerList[i]};
        }
      }
      MatchedAre(k, counted);
    }

    lemma MatchedAre(k: nat, counted: set<Id>)
      requires Valid()
      requires forall p :: p in counted ==> p in peerList && matchIndex[p] >= k
      requires forall j :: 0 <= j < |peerList| && matchIndex[peerList[j]] >= k ==> peerList[j] in counted
      ensures counted == Matched(View(), k)
    {
    }

    lemma PeersAreCounted()
      requires Valid()
      ensures |PeerIds()| == |peerList|
    {
      DistinctCount(peerList);
    }

    /** The loop that looks for a higher commit index; it runs to the end of the log. */
    method AdvanceCommitIndex()
      requires Valid()
      modifies this`commitIndex
      ensures View() == old(View()).(store := old(StoreView()).(commitIndex := CommitTarget(old(View()), old(logMemory.maximumIndex))))
    {
      var k := commitIndex + 1;
      ghost var n := View();
      PeersAreCounted();
      while k <= logMemory.maximumIndex
        invariant k > n.store.commitIndex
        invariant commitIndex == CommitTarget(n, k - 1)
        invariant k <= logMemory.maximumIndex + 1 || k == n.store.commitIndex + 1
      {
        var matchedPeers := CountMatchedPeers(k);
        assert Matched(View(), k) == Matched(n, k);
        if 2 * matchedPeers > |peerList| + 1 {
          commitIndex := k;
        }
        k := k + 1;
      }
      assert commitIndex == CommitTarget(n, logMemory.maximumIndex);
    }

    /** The peer has taken the batch. */
    method AdvancePeer(peer: Id, sent: Sent)
      requires Valid() && peer in peerList
      modifies this`nextIndex, this`matchIndex
      ensures Valid() && View() == AdvanceFollower(old(View()), peer, sent)
    {
      nextIndex := nextIndex[peer := sent.next + sent.length];
      if nextIndex[peer] > 0 && nextIndex[peer] - 1 > matchIndex[peer] {
        matchIndex := matchIndex[peer := nextIndex[peer] - 1];
      }
    }

    /** The peer has refused the batch. */
    method BackOffPeer(peer: Id, response: AppendResponse)
      requires Valid() && peer in peerList
      modifies this`nextIndex
      ensures Valid() && View() == BackOff(old(View()), peer, response)
    {
      if response.conflictEntryTerm > 0 {
        var lastIndexOfTerm := logMemory.FetchLastIndexOfTerm(response.conflictEntryTerm);
        match lastIndexOfTerm {
          case NoSpecificTerm => nextIndex := nextIndex[peer := response.conflictEntryIndex];
          case EntryMissing =>
          case FoundAt(k) => nextIndex := nextIndex[peer := k + 1];
        }
      } else {
        nextIndex := nextIndex[peer := response.conflictEntryIndex];
        if response.conflictEntryIndex == 0 {
          nextIndex := nextIndex[peer := 1];
        }
      }
    }

    /** The second half of an append goroutine: the answer of a peer to a remembered request. */
    method ProcessAppendResponse(peer: Id, sent: Sent, response: AppendResponse)
      requires Valid() && peer in peerList
      modifies this`votedPeer, this`currentTerm, this`role, this`nextIndex, this`matchIndex, this`commitIndex
      ensures Valid() && View() == HandleAppendResponse(old(View()), peer, sent, response)
    {
      hide AdvanceFollower, BackOff, CommitTarget;
      if role != Leader {
        return;
      }
      if response.term > sent.term {
        BecomeFollower(response.term);
        return;
      }
      if response.term == sent.term {
        if response.success {
          AdvancePeer(peer, sent);
          AdvanceCommitIndex();
        } else {
          BackOffPeer(peer, response);
        }
      }
    }

    /** A leader's new entry, as the key-value service and the lock service write it. */
    method AppendCommand(command: Command) returns (index: nat)
      modifies logMemory
      ensures View() == old(View()).(store := old(StoreView()).(log := Append(old(logMemory.View()), currentTerm, command)))
      ensures index == old(logMemory.maximumIndex) + 1
    {
      index := logMemory.maximumIndex + 1;
      logMemory.InsertLogEntry(Entry(currentTerm, index, command));
    }
  }

  ghost function Ids(ids: seq<Id>): set<Id> {
    set p | p in ids
  }

  lemma {:induction false} DistinctCount(ids: seq<Id>)
    requires forall i, j :: 0 <= i < j < |ids| ==> ids[i] != ids[j]
    ensures |Ids(ids)| == |ids|
  {
    if ids != [] {
      var last := ids[|ids| - 1];
      DistinctCount(ids[..|ids| - 1]);
      assert ids == ids[..|ids| - 1] + [last];
      assert Ids(ids) == Ids(ids[..|ids| - 1]) + {last};
    }
  }

  lemma {:induction false} SliceStaysMissing(log: Log, from: nat, j: nat, length: nat)
    requires j <= length && Slice(log, from, j).None?
    ensures Slice(log, from, length).None?
  {
    if j < length {
      SliceStaysMissing(log, from, j, length - 1);
    }
  }

  // ---------------------------------------------------------------------------------------------
  // The lock service of a leader
  // ---------------------------------------------------------------------------------------------

  class DlockInterchange {
    const nodeRef: Server
    const leaderTerm: nat
    var pendingAcquire: map<string, DlockVolatileAcquirement>
    /** All command objects that were ever queued. */
    ghost var commands: set<CommandDLock>

    ghost function Repr(): set<object>
      reads this
    {
      {this, nodeRef, nodeRef.logMemory, nodeRef.stateMap, nodeRef.stateMapKVStore}
      + (set q: object | q in pendingAcquire.Values) + (set c: object | c in commands)
    }

    /** Every queue serves the lock it is filed under. */
    ghost predicate QueuesValid()
      reads this, pendingAcquire.Values, commands
    {
      forall name :: name in pendingAcquire ==>
        var q := pendingAcquire[name];
        q.Commands() <= commands && q.Valid() && q.lockName == name && Addressed(q.View().waiting, name)
    }

    ghost predicate Valid()
      reads this, pendingAcquire.Values, commands, nodeRef.stateMap
    {
      Keyed(nodeRef.stateMap.View()) && QueuesValid()
    }

    ghost function Queues(): map<string, Queue>
      reads this, pendingAcquire.Values
    {
      map name | name in pendingAcquire :: pendingAcquire[name].View()
    }

    ghost function View(): LockService.Leader
      reads this, nodeRef, nodeRef.logMemory, nodeRef.stateMap, pendingAcquire.Values
    {
      LockService.Leader(nodeRef.currentTerm, nodeRef.StoreView(), Queues(), nodeRef.acquirementExpire)
    }

    twostate lemma ViewIgnoresWindows()
      requires old(Valid()) && unchanged(this) && forall name :: name in pendingAcquire ==> unchanged(pendingAcquire[name])
      requires forall c :: c in commands ==> unchanged(c)
      requires unchanged(nodeRef.logMemory) && unchanged(nodeRef.stateMap)
      requires nodeRef.currentTerm == old(nodeRef.currentTerm) && nodeRef.StoreView() == old(nodeRef.StoreView())
      ensures Valid() && View() == old(View()) && Repr() == old(Repr())
    {
    }

    lemma StatesAreKeyed()
      requires Valid()
      ensures Keyed(nodeRef.stateMap.View())
    {
    }

    constructor (nodeRef: Server)
      requires Keyed(nodeRef.stateMap.View())
      ensures Valid() && this.nodeRef == nodeRef && leaderTerm == nodeRef.currentTerm && pendingAcquire == map[] && commands == {}
      ensures View() == LockService.Leader(nodeRef.currentTerm, nodeRef.StoreView(), map[], nodeRef.acquirementExpire)
    {
      this.nodeRef := nodeRef;
      leaderTerm := nodeRef.currentTerm;
      pendingAcquire := map[];
      commands := {};
    }

    /** Brings the state map up to date, as every service does first. */
    method Commit()
      requires Valid()
      modifies nodeRef`lastAppliedIndex, nodeRef.stateMap, nodeRef.stateMapKVStore
      ensures Valid() && View() == LockService.Commit(old(View()))
    {
      CommitKeepsKeyed(nodeRef.StoreView());
      nodeRef.CommitProcedure();
    }

    // One queue at a time --------------------------------------------------------------------------

    /** When only one queue and commands for its lock have changed, the view has changed in that queue alone. */
    twostate lemma OneQueueChanged(name: string)
      requires old(Valid()) && name in pendingAcquire && pendingAcquire == old(pendingAcquire) && old(commands) <= commands
      requires unchanged(nodeRef) && unchanged(nodeRef.logMemory) && unchanged(nodeRef.stateMap)
      requires forall n :: n in pendingAcquire && n != name ==> unchanged(pendingAcquire[n])
      requires forall c :: c in old(commands) ==> c.content == old(c.content) || old(c.content).lockName == name
      requires var q := pendingAcquire[name]; q.Valid() && q.Commands() <= commands && Addressed(q.View().waiting, name)
      ensures Valid()
      ensures View() == old(View()).(pending := old(View()).pending[name := pendingAcquire[name].View()])
    {
      OthersStayValid(name);
      hide Keyed, DlockVolatileAcquirement.Valid, DlockVolatileAcquirement.Commands, Addressed;
      OtherViewsStay(name);
      assert QueuesValid();
      assert Queues() == old(Queues())[name := pendingAcquire[name].View()];
    }

    twostate lemma OtherViewsStay(name: string)
      requires old(QueuesValid()) && name in pendingAcquire && pendingAcquire == old(pendingAcquire) && old(commands) <= commands
      requires forall n :: n in pendingAcquire && n != name ==> unchanged(pendingAcquire[n])
      ensures forall n :: n in pendingAcquire && n != name ==>
                var q := pendingAcquire[n];
                q.Commands() <= commands && q.View() == old(q.View()) && q.lockName == n && Addressed(q.View().waiting, n)
    {
      hide DlockVolatileAcquirement.Valid, Addressed;
    }

    twostate lemma OthersStayValid(name: string)
      requires old(Valid()) && name in pendingAcquire && pendingAcquire == old(pendingAcquire)
      requires forall n :: n in pendingAcquire && n != name ==> unchanged(pendingAcquire[n])
      requires forall c :: c in old(commands) ==> c.content == old(c.content) || old(c.content).lockName == name
      ensures forall n :: n in pendingAcquire && n != name ==> pendingAcquire[n].Valid()
    {
      forall n | n in pendingAcquire && n != name ensures pendingAcquire[n].Valid() {
        pendingAcquire[n].StaysValid(name);
      }
    }

    twostate lemma QueueAdded(name: string, new dlockAcq: DlockVolatileAcquirement)
      requires old(Valid()) && name !in old(pendingAcquire) && pendingAcquire == old(pendingAcquire)[name := dlockAcq]
      requires commands == old(commands)
      requires unchanged(nodeRef) && unchanged(nodeRef.logMemory) && unchanged(nodeRef.stateMap)
      requires forall n :: n in old(pendingAcquire) ==> unchanged(old(pendingAcquire)[n])
      requires forall c :: c in commands ==> unchanged(c)
      requires dlockAcq.Valid() && dlockAcq.lockName == name && dlockAcq.Commands() == {} && Addressed(dlockAcq.View().waiting, name)
      ensures Valid()
      ensures View() == old(View()).(pending := old(View()).pending[name := dlockAcq.View()])
    {
    }

    method AbandonExpired(name: string, timestamp: int)
      requires Valid() && name in pendingAcquire
      modifies pendingAcquire[name]
      ensures Valid()
      ensures View() == var v := old(View()); v.(pending := v.pending[name := Abandon(v.pending[name], timestamp)])
    {
      AbandonKeepsAddressed(pendingAcquire[name].View(), timestamp, name);
      var err := pendingAcquire[name].AbandonExpiredAcquirement(timestamp);
      OneQueueChanged(name);
      if err.Some? {
        assert false;
      }
    }

    method Refresh(name: string, sequence: nat, timestamp: int) returns (err: Option<AcquirementError>)
      requires Valid() && name in pendingAcquire
      modifies pendingAcquire[name]
      ensures Valid()
      ensures View() == var v := old(View());
                        v.(pending := v.pending[name := AcquirementQueue.Refresh(v.pending[name], sequence, timestamp).0])
      ensures err == AcquirementQueue.Refresh(old(View()).pending[name], sequence, timestamp).1
    {
      AbandonKeepsAddressed(pendingAcquire[name].View(), timestamp, name);
      err := pendingAcquire[name].RefreshAcquirement(sequence, timestamp);
      OneQueueChanged(name);
    }

    method Insert(name: string, command: CommandDLock, timestamp: int) returns (sequence: nat)
      requires Valid() && name in pendingAcquire && command.content.lockName == name && command !in commands
      modifies pendingAcquire[name], this`commands
      ensures Valid() && commands == old(commands) + {command}
      ensures View() == var v := old(View());
                        v.(pending := v.pending[name := InsertNew(v.pending[name], command.content, timestamp, v.acquirementExpire).0])
      ensures sequence == InsertNew(old(View()).pending[name], command.content, timestamp, old(View()).acquirementExpire).1
    {
      hide InsertNew, Addressed, Keyed;
      InsertKeepsAddressed(pendingAcquire[name].View(), command.content, timestamp, nodeRef.acquirementExpire, name);
      var err: Option<AcquirementError>;
      sequence, err := pendingAcquire[name].InsertNewAcquirement(command, timestamp, nodeRef.acquirementExpire);
      commands := commands + {command};
      OneQueueChanged(name);
      if err.Some? {
        assert false;
      }
    }

    /** The look and the pop leave the log as it is: what an entry took from a command stays. */
    method FetchFirstOf(name: string, popTag: bool, timestamp: int) returns (command: Option<CommandDLock>)
      requires Valid() && name in pendingAcquire
      modifies pendingAcquire[name], commands
      ensures Valid() && nodeRef.logMemory.View() == old(nodeRef.logMemory.View())
      ensures var v := old(View());
              var (q, info) := FetchFirst(v.pending[name], popTag, timestamp);
              && View() == v.(pending := v.pending[name := q]) && (command.Some? <==> info.Some?)
              && (command.Some? ==> command.value in commands && command.value.content == info.value && info.value.lockName == name)
    {
      FetchKeepsAddressed(pendingAcquire[name].View(), popTag, timestamp, name);
      var err: Option<AcquirementError>;
      command, err := pendingAcquire[name].FetchFirstValidAcquirement(popTag, timestamp);
      assert forall c :: c in old(commands) ==> c.content == old(c.content) || old(c.content).lockName == name;
      OneQueueChanged(name);
      if err.Some? {
        assert false;
      }
    }

    method InsertDLockEntry(info: LockInfo)
      requires Valid()
      modifies nodeRef.logMemory
      ensures Valid() && View() == LockService.AppendCommand(old(View()), DLock(info))
    {
      var index := nodeRef.AppendCommand(DLock(info));
    }

    method IncrementNonce(name: string)
      requires Valid() && name in pendingAcquire
      modifies pendingAcquire[name]
      ensures Valid() && View() == old(View()).(pending := LockService.BumpNonce(old(View()).pending, name))
      ensures pendingAcquire[name].lastAppendedNonce == old(pendingAcquire[name].lastAppendedNonce) + 1
    {
      pendingAcquire[name].CountAppended();
      OneQueueChanged(name);
    }

    /** A lock entry at the end of the log, and the nonce it takes. */
    method AppendLockEntry(info: LockInfo)
      requires Valid() && info.lockName in pendingAcquire
      modifies nodeRef.logMemory, pendingAcquire[info.lockName]
      ensures Valid() && View() == LockService.AppendLock(old(View()), info)
      ensures pendingAcquire[info.lockName].lastAppendedNonce == old(pendingAcquire[info.lockName].lastAppendedNonce) + 1
    {
      hide Valid, View;
      InsertDLockEntry(info);
      IncrementNonce(info.lockName);
    }

    /** A new queue for a lock. */
    method OpenQueue(name: string, lockNonce: nat)
      requires Valid() && name !in pendingAcquire
      modifies this`pendingAcquire
      ensures Valid() && name in pendingAcquire && fresh(pendingAcquire[name])
      ensures pendingAcquire == old(pendingAcquire)[name := pendingAcquire[name]]
      ensures View() == var v := old(View()); v.(pending := v.pending[name := NewQueue(lockNonce)])
    {
      var dlockAcq := new DlockVolatileAcquirement(name, lockNonce);
      pendingAcquire := pendingAcquire[name := dlockAcq];
      QueueAdded(name, dlockAcq);
    }

    // The services ---------------------------------------------------------------------------------

    method HasQueue(name: string) returns (known: bool)
      requires Valid()
      ensures known == (name in pendingAcquire) == (name in View().pending)
      ensures Valid() && View() == old(View())
    {
      known := name in pendingAcquire;
    }

    method QueryLock(name: string) returns (current: Option<DlockState>)
      requires Valid()
      ensures var locks := View().store.stateMap.locks; current == if name in locks then Some(locks[name]) else None
      ensures current.Some? ==> current.value.lockName == name
      ensures Valid() && View() == old(View())
    {
      current := nodeRef.stateMap.QuerySpecificState(name);
    }

    method LastAppendedNonce(name: string) returns (nonce: nat)
      requires Valid() && name in pendingAcquire
      ensures name in View().pending && nonce == View().pending[name].lastAppendedNonce
      ensures Valid() && View() == old(View())
    {
      nonce := pendingAcquire[name].lastAppendedNonce;
    }

    method RefreshSpecificDLock(dlockName: string, clientID: string, timestamp: int) returns (r: LockService.Result<nat>)
      requires Valid()
      modifies nodeRef.logMemory, pendingAcquire.Values, commands
      ensures Valid()
      ensures (View(), r) == LockService.RefreshLock(old(View()), dlockName, clientID, timestamp)
    {
      hide FetchFirst, Append, Valid, View;
      var known := HasQueue(dlockName);
      if !known {
        return LockService.Err(LockService.EmptyAcquirementError);
      }
      var current := QueryLock(dlockName);
      if current.None? {
        return LockService.Err(LockService.LockFetchError);
      }
      if current.value.timestamp + current.value.expire > timestamp {
        return LockService.Ok(0);
      }
      var nonce := LastAppendedNonce(dlockName);
      if nonce > current.value.lockNonce {
        return LockService.Ok(0);
      }
      ghost var v, q := View(), View().pending[dlockName];
      ghost var q1 := FetchFirst(q, false, timestamp).0;
      var command := FetchFirstOf(dlockName, false, timestamp);
      if command.None? {
        return LockService.Ok(0);
      }
      var dlockInfo := command.value.GetAsDLockInfo();
      if dlockInfo.newOwner != clientID {
        return LockService.Ok(0);
      }
      LookThenPop(q, timestamp);
      ghost var q2 := FetchFirst(q1, true, timestamp).0;
      assert v.pending[dlockName := q1][dlockName := q2] == v.pending[dlockName := q2];
      nonce := PopAndAppend(dlockName, timestamp);
      return LockService.Ok(nonce);
    }

    /** The first command is popped, and what it holds is appended. */
    method PopAndAppend(name: string, timestamp: int) returns (nonce: nat)
      requires Valid() && name in pendingAcquire && name in View().pending && FetchFirst(View().pending[name], true, timestamp).1.Some?
      modifies nodeRef.logMemory, pendingAcquire[name], commands
      ensures Valid()
      ensures var v := old(View());
              var (q, info) := FetchFirst(v.pending[name], true, timestamp);
              && info.value.lockName == name
              && View() == LockService.AppendLock(v.(pending := v.pending[name := q]), info.value)
              && name in View().pending && nonce == View().pending[name].lastAppendedNonce
    {
      hide FetchFirst, Append, Valid, View;
      var command := FetchFirstOf(name, true, timestamp);
      AppendLockEntry(command.value.content);
      nonce := LastAppendedNonce(name);
    }

    /** Whether the queue of a lock is empty. */
    method NobodyWaits(name: string) returns (empty: bool)
      requires Valid() && name in pendingAcquire
      ensures name in View().pending && empty == (View().pending[name].waiting == [])
      ensures Valid() && View() == old(View())
    {
      empty := pendingAcquire[name].lastProcessed == pendingAcquire[name].lastAssigned;
    }

    /** The command is a new object, as the service makes it for each request. */
    method AcquireDLock(lockName: string, timestamp: int, command: CommandDLock)
      returns (r: LockService.Result<LockService.Ticket>)
      requires Valid() && command !in commands
      requires command.content == LockInfo(0, lockName, command.content.newOwner, timestamp, command.content.expire)
      modifies this`pendingAcquire, this`commands, nodeRef`lastAppliedIndex, nodeRef.logMemory, nodeRef.stateMap,
               nodeRef.stateMapKVStore, pendingAcquire.Values, commands, command
      ensures Valid() && fresh(pendingAcquire.Values - old(pendingAcquire.Values)) && commands <= old(commands) + {command}
      ensures (View(), r) == LockService.Acquire(old(View()), lockName, old(command.content.newOwner), old(command.content.expire), timestamp)
    {
      hide Valid, View, Repr, NodeStore.CommitProcedure;
      hide LockService.AppendLock, LockService.AcquireUnknown, LockService.AcquireKnown;
      Commit();
      var current := QueryLock(lockName);
      var known := HasQueue(lockName);
      if current.None? {
        r := AcquireUnknownDLock(lockName, timestamp, command, known);
        return;
      }
      if !known {
        return LockService.Err(LockService.EmptyAcquirementError);
      }
      r := AcquireKnownDLock(lockName, timestamp, command, current.value);
    }

    /** The second and third case: the lock is in the state map and has a queue. */
    method AcquireKnownDLock(lockName: string, timestamp: int, command: CommandDLock, state: DlockState)
      returns (r: LockService.Result<LockService.Ticket>)
      requires Valid() && command !in commands && lockName in pendingAcquire && lockName in View().pending
      requires command.content == LockInfo(0, lockName, command.content.newOwner, timestamp, command.content.expire)
      modifies this`commands, nodeRef.logMemory, pendingAcquire.Values, commands, command
      ensures Valid() && commands <= old(commands) + {command}
      ensures var client, expire := old(command.content.newOwner), old(command.content.expire);
              (View(), r) == LockService.AcquireKnown(old(View()), lockName, client, expire, timestamp, state)
    {
      hide Valid, View, LockService.AppendLock, LockService.AcquireByQueue;
      var dlockInfo := command.GetAsDLockInfo();
      var nonce := LastAppendedNonce(lockName);
      var empty := NobodyWaits(lockName);
      if nonce == state.lockNonce && empty && state.timestamp + state.expire < timestamp {
        dlockInfo := dlockInfo.(lockNonce := state.lockNonce + 1, timestamp := timestamp);
        AppendCommandObject(lockName, command, dlockInfo);
        return LockService.Ok(LockService.Ticket(0, dlockInfo.lockNonce));
      } else if nonce > state.lockNonce || !empty || state.timestamp + state.expire >= timestamp {
        r := QueueAcquirement(lockName, timestamp, command);
        return;
      }
      return LockService.Err(LockService.UnexpectedError);
    }

    /** The second case of an acquirement: the rewritten command is appended at once. */
    method AppendCommandObject(lockName: string, command: CommandDLock, info: LockInfo)
      requires Valid() && lockName in pendingAcquire && command !in commands && info.lockName == lockName
      modifies nodeRef.logMemory, pendingAcquire[lockName], command
      ensures Valid() && View() == LockService.AppendLock(old(View()), info)
    {
      hide Valid, View, LockService.AppendLock;
      SetCommand(command, info);
      AppendLockEntry(command.content);
    }

    /** Rewriting a command that does not wait anywhere changes nothing else. */
    method SetCommand(command: CommandDLock, info: LockInfo)
      requires Valid() && command !in commands
      modifies command
      ensures Valid() && View() == old(View()) && command.content == info
    {
      command.SetAsDLockInfo(info);
    }

    /** The third case of an acquirement: a place in the queue, and perhaps the grant at once. */
    method QueueAcquirement(lockName: string, timestamp: int, command: CommandDLock)
      returns (r: LockService.Result<LockService.Ticket>)
      requires Valid() && lockName in pendingAcquire && lockName in View().pending && command !in commands
      requires command.content == LockInfo(0, lockName, command.content.newOwner, timestamp, command.content.expire)
      modifies this`commands, nodeRef.logMemory, pendingAcquire.Values, commands, command
      ensures Valid() && commands == old(commands) + {command}
      ensures (View(), r)
           == LockService.AcquireByQueue(old(View()), lockName, old(command.content.newOwner), old(command.content.expire), timestamp)
    {
      hide Valid, View, InsertNew, LockService.RefreshLock;
      var dlockInfo := command.GetAsDLockInfo();
      var sequence := Insert(lockName, command, timestamp);
      var granted := RefreshSpecificDLock(lockName, dlockInfo.newOwner, timestamp);
      if granted.Err? {
        return LockService.Err(granted.error);
      }
      return LockService.Ok(LockService.Ticket(sequence, 0));
    }

    lemma QueuesAreViewed(name: string)
      requires Valid()
      ensures name in pendingAcquire <==> name in View().pending
    {
    }

    /** The first case of an acquirement: the lock is not in the state map. */
    method AcquireUnknownDLock(lockName: string, timestamp: int, command: CommandDLock, known: bool)
      returns (r: LockService.Result<LockService.Ticket>)
      requires Valid() && known == (lockName in pendingAcquire) && command !in commands && command.content.lockName == lockName
      modifies this`pendingAcquire, this`commands, nodeRef.logMemory, pendingAcquire.Values, command
      ensures Valid() && fresh(pendingAcquire.Values - old(pendingAcquire.Values)) && commands <= old(commands) + {command}
      ensures (View(), r)
           == LockService.AcquireUnknown(old(View()), lockName, old(command.content.newOwner), old(command.content.expire), timestamp)
    {
      hide Valid, View, InsertNew, Append;
      assert known == (lockName in View().pending) by { QueuesAreViewed(lockName); }
      var dlockInfo := command.GetAsDLockInfo();
      dlockInfo := dlockInfo.(lockNonce := 1, timestamp := timestamp);
      SetCommand(command, dlockInfo);
      if !known {
        OpenQueue(lockName, 0);
        AppendLockEntry(command.content);
        var nonce := LastAppendedNonce(lockName);
        return LockService.Ok(LockService.Ticket(0, nonce));
      } else {
        var sequence := Insert(lockName, command, timestamp);
        return LockService.Ok(LockService.Ticket(sequence, 0));
      }
    }

    method RefreshAcquirementBySequence(lockName: string, clientId: string, sequence: nat, timestamp: int)
      returns (r: LockService.Result<(bool, nat)>)
      requires Valid()
      modifies this`pendingAcquire, nodeRef`lastAppliedIndex, nodeRef.logMemory, nodeRef.stateMap, nodeRef.stateMapKVStore,
               pendingAcquire.Values, commands
      ensures Valid() && Repr() == old(Repr())
      ensures (View(), r) == LockService.RefreshBySequence(old(View()), lockName, clientId, sequence, timestamp)
    {
      hide Valid, View, NodeStore.CommitProcedure, LockService.RefreshLock, AcquirementQueue.Refresh, Abandon;
      Commit();
      var known := HasQueue(lockName);
      if !known {
        return LockService.Ok((false, 0));
      }
      ghost var v := View();
      AbandonExpired(lockName, timestamp);
      ghost var q := View().pending[lockName];
      var err := Refresh(lockName, sequence, timestamp);
      ghost var q1 := View().pending[lockName];
      assert v.pending[lockName := q][lockName := q1] == v.pending[lockName := q1];
      if err.Some? {
        return LockService.Err(LockService.QueueError(err.value));
      }
      var nonce := RefreshSpecificDLock(lockName, clientId, timestamp);
      if nonce.Err? {
        return LockService.Err(nonce.error);
      }
      return LockService.Ok((true, nonce.value));
    }

    method ReleaseDLock(lockName: string, applicant: string, timestamp: int)
      returns (r: LockService.Result<(LockService.ReleaseInfo, nat)>)
      requires Valid()
      modifies this`pendingAcquire, nodeRef`lastAppliedIndex, nodeRef.logMemory, nodeRef.stateMap, nodeRef.stateMapKVStore, pendingAcquire.Values
      ensures Valid() && Repr() == old(Repr())
      ensures (View(), r) == LockService.Release(old(View()), lockName, applicant, timestamp)
    {
      hide Valid, View, NodeStore.CommitProcedure, LockService.AppendLock;
      Commit();
      var known := HasQueue(lockName);
      var current := QueryLock(lockName);
      var nonce := 0;
      if known {
        nonce := LastAppendedNonce(lockName);
      }
      if current.None? {
        if known && nonce > 0 {
          return LockService.Ok((LockService.TriggerReleaseLater, 0));
        } else {
          return LockService.Ok((LockService.NoDLockExist, 0));
        }
      }
      if current.value.owner != applicant {
        return LockService.Ok((LockService.AlreadyReleased, 0));
      }
      if known && nonce > current.value.lockNonce {
        return LockService.Ok((LockService.TriggerReleaseLater, 0));
      } else if !known {
        return LockService.Err(LockService.EmptyAcquirementError);
      } else {
        AppendLockEntry(LockService.ReleaseOf(current.value, timestamp));
        return LockService.Ok((LockService.TriggerReleaseSuccess, current.value.lockNonce + 1));
      }
    }

    // Releasing expired locks ----------------------------------------------------------------------

    /** One lock of the scan: its queue is refreshed, and its release is due or not. */
    method ScanDLock(lockName: string, timestamp: int) returns (due: seq<LockInfo>)
      requires Valid() && lockName in nodeRef.stateMap.locks
      modifies this`pendingAcquire, pendingAcquire.Values
      ensures Valid() && fresh(pendingAcquire.Values - old(pendingAcquire.Values)) && pendingAcquire.Keys == old(pendingAcquire.Keys) + {lockName}
      ensures lockName in old(View()).store.stateMap.locks
      ensures (View(), due) == LockService.ScanOne(old(View()), lockName, timestamp)
      ensures |due| <= 1 && (due != [] ==> due[0].lockName == lockName)
    {
      hide Valid, View, Abandon;
      StatesAreViewed();
      var current := QueryLock(lockName);
      var known := HasQueue(lockName);
      ghost var v := View();
      if !known {
        OpenQueue(lockName, current.value.lockNonce);
      }
      AbandonExpired(lockName, timestamp);
      ghost var q := View().pending[lockName];
      assert v.pending[lockName := NewQueue(current.value.lockNonce)][lockName := q] == v.pending[lockName := q];
      var nonce := LastAppendedNonce(lockName);
      if nonce > current.value.lockNonce {
        return [];
      }
      if current.value.timestamp + current.value.expire < timestamp {
        if current.value.owner != "" {
          return [LockInfo(current.value.lockNonce + 1, current.value.lockName, "", timestamp, 0)];
        }
      }
      return [];
    }

    lemma StatesAreViewed()
      requires Valid()
      ensures View().store.stateMap.locks == nodeRef.stateMap.locks && View().store.log.maximumIndex == nodeRef.logMemory.maximumIndex
      ensures View().term == nodeRef.currentTerm
    {
    }

    method InsertEntries(entries: seq<Entry>)
      requires Valid()
      modifies nodeRef.logMemory
      ensures Valid()
      ensures View() == var v := old(View()); v.(store := v.store.(log := InsertList(v.store.log, entries)))
    {
      nodeRef.logMemory.InsertValidEntryList(entries);
    }

    method IncrementNonces(entries: seq<Entry>, ghost due: seq<LockInfo>)
      requires Valid() && |entries| == |due|
      requires forall i :: 0 <= i < |due| ==> entries[i].command == DLock(due[i]) && due[i].lockName in pendingAcquire
      modifies pendingAcquire.Values
      ensures Valid() && View() == old(View()).(pending := BumpAll(old(View()).pending, due))
    {
      hide Valid, View;
      for i := 0 to |entries|
        invariant Valid() && pendingAcquire == old(pendingAcquire)
        invariant View() == old(View()).(pending := BumpAll(old(View()).pending, due[..i]))
      {
        assert entries[i].command == DLock(due[i]);
        assert due[..i + 1][..i] == due[..i];
        IncrementNonce(entries[i].command.info.lockName);
      }
      assert due[..|entries|] == due;
    }

    /** The scan visits every lock of the state map, in any order, and collects the due releases. */
    method CollectReleases(timestamp: int) returns (logEntries: seq<Entry>, ghost due: seq<LockInfo>, ghost order: seq<string>)
      requires Valid()
      modifies this`pendingAcquire, pendingAcquire.Values
      ensures Valid() && fresh(pendingAcquire.Values - old(pendingAcquire.Values))
      ensures Enumerates(order, old(View()).store.stateMap.locks)
      ensures (View(), due) == LockService.ScanLocks(old(View()), order, timestamp)
      ensures forall i :: 0 <= i < |due| ==> due[i].lockName in pendingAcquire
      ensures logEntries == EntriesOf(due, View().term, View().store.log.maximumIndex)
    {
      hide Valid, View, Repr, LockService.ScanOne, LockService.ScanLocks, EntriesOf, NoDuplicates;
      StatesAreViewed();
      var todo, currentTerm, base := nodeRef.stateMap.locks.Keys, nodeRef.currentTerm, nodeRef.logMemory.maximumIndex;
      logEntries, due, order := [], [], [];
      EntriesGrow([], [], currentTerm, base);
      NothingScanned(View(), timestamp);
      while todo != {}
        invariant Valid() && fresh(pendingAcquire.Values - old(pendingAcquire.Values))
        invariant todo <= nodeRef.stateMap.locks.Keys && NoDuplicates(order)
        invariant forall n :: n in order <==> n in nodeRef.stateMap.locks && n !in todo
        invariant (View(), due) == LockService.ScanLocks(old(View()), order, timestamp)
        invariant forall i :: 0 <= i < |due| ==> due[i].lockName in pendingAcquire
        invariant logEntries == EntriesOf(due, currentTerm, base)
      {
        var lockName :| lockName in todo;
        todo := todo - {lockName};
        var more := ScanDLock(lockName, timestamp);
        OneMoreScanned(old(View()), order, lockName, timestamp);
        order := order + [lockName];
        EntriesGrow(due, more, currentTerm, base);
        if more != [] {
          logEntries := logEntries + [Entry(currentTerm, base + |logEntries| + 1, DLock(more[0]))];
        }
        due := due + more;
      }
    }

    /** All due releases are appended as one list, and take their nonces afterwards. */
    method ScanDLockStateMap(timestamp: int) returns (ghost order: seq<string>)
      requires Valid()
      modifies this`pendingAcquire, nodeRef.logMemory, pendingAcquire.Values
      ensures Valid() && fresh(Repr() - old(Repr()))
      ensures Enumerates(order, old(View()).store.stateMap.locks)
      ensures View() == LockService.Scan(old(View()), order, timestamp)
    {
      hide Valid, View, LockService.ScanLocks, LockService.AppendLocks, InsertList, BumpAll;
      ghost var due;
      var logEntries;
      logEntries, due, order := CollectReleases(timestamp);
      AppendLocksApart(View(), due);
      InsertEntries(logEntries);
      IncrementNonces(logEntries, due);
    }

    /** A new leader's lock service starts from the state map. */
    method InitFromDLockStateMap(timestamp: int) returns (ghost order: seq<string>)
      requires Valid()
      modifies this`pendingAcquire, nodeRef`lastAppliedIndex, nodeRef.logMemory, nodeRef.stateMap, nodeRef.stateMapKVStore, pendingAcquire.Values
      ensures Valid() && fresh(Repr() - old(Repr()))
      ensures Enumerates(order, LockService.Commit(old(View())).store.stateMap.locks)
      ensures View() == LockService.Scan(LockService.Commit(old(View())), order, timestamp)
    {
      hide Valid, View, NodeStore.CommitProcedure, LockService.Scan;
      Commit();
      order := ScanDLockStateMap(timestamp);
    }

    /** One tick of the periodic release: it ends when the node has left the term of this service. */
    method ReleaseExpiredDLock(now: int) returns (goOn: bool, ghost order: seq<string>)
      requires Valid()
      modifies this`pendingAcquire, nodeRef`lastAppliedIndex, nodeRef.logMemory, nodeRef.stateMap, nodeRef.stateMapKVStore, pendingAcquire.Values
      ensures Valid() && fresh(Repr() - old(Repr()))
      ensures goOn == (old(nodeRef.currentTerm) == leaderTerm && old(nodeRef.role) == Leader)
      ensures !goOn ==> View() == old(View())
      ensures goOn ==> Enumerates(order, LockService.Commit(old(View())).store.stateMap.locks)
                       && View() == LockService.Scan(LockService.Commit(old(View())), order, now)
    {
      if nodeRef.currentTerm != leaderTerm {
        return false, [];
      } else if nodeRef.role != Leader {
        return false, [];
      }
      order := InitFromDLockStateMap(now);
      return true, order;
    }

    method QueryDLockAcquirementInfo(lockName: string) returns (n: int)
      requires Valid()
      ensures n == if lockName in View().pending then |View().pending[lockName].waiting| else -1
    {
      if lockName !in pendingAcquire {
        return -1;
      }
      n := pendingAcquire[lockName].QueryPending();
    }
  }
}

/** The requests of clients to one node. */
module ClientServers {
  import opened Types
  import opened LogStorage
  import opened StateMap
  import opened NodeStore
  import opened RaftNode
  import opened AcquirementQueue
  import opened Servers
  import KVStateMap
  import LockService
  import ReignRuns
  import ServiceOutcomes

  datatype PutStart = DeadNode | Redirected | EmptyKeyDeleted | Appended(index: nat, term: nat)

  datatype ReleaseResponse = Redirection | InternalError | NothingToRelease | Released(nonce: nat) | TryLater

  /** What a release attempt is answered: whether it is over, and with which nonce. */
  function ReleaseAnswer(r: LockService.Result<(LockService.ReleaseInfo, nat)>): ReleaseResponse {
    match r
    case Err(_) => InternalError
    case Ok(answer) =>
      if answer.0 == LockService.NoDLockExist || answer.0 == LockService.AlreadyReleased then NothingToRelease
      else if answer.0 == LockService.TriggerReleaseSuccess then Released(answer.1)
      else TryLater
  }

  /** What a client is told about its release, in terms of the log: there is nothing to release when the lock's last
      committed entry is not its own, it is to try later while an entry is in flight, and otherwise it has the
      nonce of its release. */
  lemma ReleaseIsAnswered(m: ReignRuns.Moment, base: nat, step: ReignRuns.Step)
    requires ReignRuns.Reachable(m, base) && step.ReleaseStep? && ReignRuns.Enabled(m, step)
    ensures Dense(m.leader.store.log)
    ensures var st, last := m.leader.store, ServiceOutcomes.Current(m.leader.store, step.name);
            var r := ReleaseAnswer(LockService.Release(m.leader, step.name, step.client, step.timestamp).1);
            if last == 0 then r == if exists i :: LockEntry(st.log, i, step.name) then TryLater else NothingToRelease
            else if InfoAt(st.log, last).newOwner != step.client then r == NothingToRelease
            else if !ServiceOutcomes.Quiet(st, step.name) then r == TryLater
            else r == Released(InfoAt(st.log, last).lockNonce + 1)
  {
    ServiceOutcomes.ReleaseOutcome(m, base, step);
    hide ReignRuns.Reachable, LockService.Release, ReignRuns.Next, ServiceOutcomes.Gains, ServiceOutcomes.GainsNothing;
  }

  class ClientServer {
    const nodeRef: Server

    ghost predicate Valid()
      reads nodeRef, nodeRef.stateMap
      reads if nodeRef.dlockInterchange == null then {} else {nodeRef.dlockInterchange}
      reads if nodeRef.dlockInterchange == null then {} else nodeRef.dlockInterchange.pendingAcquire.Values
      reads if nodeRef.dlockInterchange == null then {} else nodeRef.dlockInterchange.commands
    {
      nodeRef.role == Leader ==>
        nodeRef.dlockInterchange != null && nodeRef.dlockInterchange.nodeRef == nodeRef && nodeRef.dlockInterchange.Valid()
    }

    constructor (nodeRef: Server)
      ensures this.nodeRef == nodeRef
    {
      this.nodeRef := nodeRef;
    }

    /** The answer to an acquire request; nothing when this node is not the leader. */
    method AcquireDLockService(lockName: string, clientId: string, sequence: nat, expire: int, timestamp: int)
      returns (r: Option<LockService.Result<LockService.Response>>)
      requires Valid()
      modifies if nodeRef.dlockInterchange == null then {} else nodeRef.dlockInterchange.Repr()
      ensures r.None? <==> old(nodeRef.role) != Leader
      ensures nodeRef.dlockInterchange == old(nodeRef.dlockInterchange) && nodeRef.role == old(nodeRef.role)
      ensures r.Some? ==>
                && nodeRef.dlockInterchange.Valid()
                && (nodeRef.dlockInterchange.View(), r.value)
                   == LockService.AcquireService(old(nodeRef.dlockInterchange.View()), lockName, clientId, sequence, expire, timestamp)
    {
      hide LockService.Acquire, LockService.RefreshBySequence, DlockInterchange.Valid, DlockInterchange.View;
      if nodeRef.role != Leader {
        return None;
      }
      var di := nodeRef.dlockInterchange;
      if sequence != 0 {
        var refreshed := di.RefreshAcquirementBySequence(lockName, clientId, sequence, timestamp);
        match refreshed {
          case Err(e) =>
            if e == LockService.QueueError(InfoFetchingError) || e == LockService.QueueError(InvalidSequenceError) {
              return Some(LockService.Ok(LockService.Response(false, sequence, 0)));
            }
            return Some(LockService.Err(e));
          case Ok(known) =>
            var nonce := if known.0 then known.1 else 0;
            return Some(LockService.Ok(LockService.Response(known.1 == 0, sequence, nonce)));
        }
      } else {
        var command := new CommandDLock(LockInfo(0, lockName, clientId, timestamp, expire));
        var acquired := di.AcquireDLock(lockName, timestamp, command);
        match acquired {
          case Err(e) => return Some(LockService.Err(e));
          case Ok(t) =>
            if t.sequence == 0 {
              return Some(LockService.Ok(LockService.Response(false, 0, t.nonce)));
            }
            return Some(LockService.Ok(LockService.Response(true, t.sequence, 0)));
        }
      }
    }

    /** One attempt to release a lock. */
    method ReleaseDLockService(lockName: string, clientId: string, timestamp: int) returns (r: ReleaseResponse)
      requires Valid()
      modifies if nodeRef.dlockInterchange == null then {} else nodeRef.dlockInterchange.Repr()
      ensures r == Redirection <==> old(nodeRef.role) != Leader
      ensures nodeRef.dlockInterchange == old(nodeRef.dlockInterchange) && nodeRef.role == old(nodeRef.role)
      ensures r != Redirection ==>
                var (leader, answer) := LockService.Release(old(nodeRef.dlockInterchange.View()), lockName, clientId, timestamp);
                nodeRef.dlockInterchange.Valid() && nodeRef.dlockInterchange.View() == leader && r == ReleaseAnswer(answer)
    {
      hide LockService.Release, DlockInterchange.Valid, DlockInterchange.View;
      if nodeRef.role != Leader {
        return Redirection;
      }
      var attempt := nodeRef.dlockInterchange.ReleaseDLock(lockName, clientId, timestamp);
      if attempt.Err? {
        return InternalError;
      }
      var (releaseInfo, nonce) := attempt.value;
      if releaseInfo == LockService.NoDLockExist || releaseInfo == LockService.AlreadyReleased {
        return NothingToRelease;
      } else if releaseInfo == LockService.TriggerReleaseSuccess {
        return Released(nonce);
      } else {
        return TryLater;
      }
    }

    /** The first half of a write: the entry is appended, unless it deletes a key that is not in the map. */
    method PutStateKVService(key: string, value: Option<seq<byte>>) returns (r: PutStart)
      modifies nodeRef.logMemory
      ensures r == DeadNode <==> nodeRef.role == Dead
      ensures r == Redirected <==> nodeRef.role == Candidate || nodeRef.role == Follower
      ensures r == EmptyKeyDeleted <==> nodeRef.role == Leader && value.None? && key !in nodeRef.stateMapKVStore.View().values
      ensures !r.Appended? ==> nodeRef.View() == old(nodeRef.View())
      ensures r.Appended? ==>
                && r.index == old(nodeRef.logMemory.maximumIndex) + 1 && r.term == nodeRef.currentTerm
                && nodeRef.View() == var n := old(nodeRef.View());
                                     n.(store := n.store.(log := Append(n.store.log, n.currentTerm, KVStore(key, value))))
    {
      if nodeRef.role == Dead {
        return DeadNode;
      }
      if nodeRef.role != Leader {
        return Redirected;
      }
      if value.None? {
        var current := nodeRef.stateMapKVStore.QuerySpecificState(key);
        if current.None? {
          return EmptyKeyDeleted;
        }
      }
      var index := nodeRef.AppendCommand(KVStore(key, value));
      return Appended(index, nodeRef.currentTerm);
    }

    /** Two deletions of a key that is in the map are both appended when nothing is applied in between. */
    method DeleteTwice(key: string) returns (first: PutStart, second: PutStart)
      requires nodeRef.role == Leader && key in nodeRef.stateMapKVStore.View().values
      modifies nodeRef.logMemory
      ensures first.Appended? && second.Appended? && second.index == first.index + 1
      ensures nodeRef.View() == var n := old(nodeRef.View());
                                var log := Append(n.store.log, n.currentTerm, KVStore(key, None));
                                n.(store := n.store.(log := Append(log, n.currentTerm, KVStore(key, None))))
    {
      first := PutStateKVService(key, None);
      second := PutStateKVService(key, None);
    }

    /** The routine check of a waiting write: is the entry at that index committed, with that term? */
    method IsCommitted(index: nat, term: nat) returns (committed: Option<bool>)
      ensures nodeRef.commitIndex < index ==> committed == Some(false)
      ensures nodeRef.commitIndex >= index ==>
                match Fetch(nodeRef.logMemory.View(), index)
                case None => committed == None
                case Some(e) => committed == Some(e.term == term)
    {
      if nodeRef.commitIndex >= index {
        var entry := nodeRef.logMemory.FetchLogEntry(index);
        if entry.None? {
          return None;
        }
        if entry.value.term == term {
          return Some(true);
        }
      }
      return Some(false);
    }
  }
}

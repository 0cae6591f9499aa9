/** How a leader goes back when a follower refuses a batch, and when that makes progress. */
module BackingOff {
  import opened Types
  import opened LogStorage
  import opened StateMap
  import opened NodeStore
  import opened RaftNode
  import opened NodeSteps
  import Cluster
  import TrioRuns

  /** The leader holds an entry of that term at or behind index i. */
  ghost predicate HoldsTermFrom(log: Log, term: nat, i: nat)
    requires Dense(log)
  {
    exists k :: i <= k <= log.maximumIndex && HoldsTermAt(log, term, k)
  }

  ghost predicate HoldsTermAt(log: Log, term: nat, k: nat) {
    k in log.entries && log.entries[k].term == term
  }

  /** After a refusal the next index falls exactly when the leader holds no entry of the conflicting term
      at or behind the entry before the batch; without a conflicting term it falls unless it is 1. */
  lemma BackOffDecreasesIff(n: Node, peer: Id, next: nat, r: AppendResponse)
    requires Dense(n.store.log) && next >= 1 && r.conflictEntryIndex < next
    ensures peer in BackOff(n, peer, r).nextIndex
    ensures BackOff(n, peer, r).nextIndex[peer] < next <==>
              if r.conflictEntryTerm == 0 then next > 1 else !HoldsTermFrom(n.store.log, r.conflictEntryTerm, next - 1)
  {
    var log := n.store.log;
    if r.conflictEntryTerm > 0 {
      LastIndexOfTermIsGreatest(log, r.conflictEntryTerm, log.maximumIndex);
      match FetchLastIndexOfTerm(log, r.conflictEntryTerm)
      case FoundAt(k) => assert HoldsTermAt(log, r.conflictEntryTerm, k);
      case NoSpecificTerm =>
    }
  }

  /** One exchange: the batch for a peer, its answer, and what the leader makes of it. */
  function Exchange(leader: Node, follower: Node, peer: Id, maximumLength: nat): Option<(Node, Node, AppendResponse)> {
    match PrepareAppend(leader, peer, maximumLength)
    case WindowError => None
    case FetchError => None
    case Batch(r) =>
      match HandleAppendRequest(follower, r)
      case (_, None) => None
      case (f, Some(a)) =>
        var sent := Sent(leader.currentTerm, r.prevEntryIndex + 1, |r.entryList|);
        Some((HandleAppendResponse(leader, peer, sent, a), f, a))
  }

  /** A follower of the leader's term whose log ends before the batch, in the term that the leader's log
      has before the batch. */
  ghost predicate ShortSameTerm(leader: Node, follower: Node, peer: Id) {
    && leader.role == Leader && follower.role == Follower && follower.currentTerm == leader.currentTerm
    && WellFormed(leader.store) && WellFormed(follower.store) && Window(leader) && peer in leader.peers
    && peer in leader.nextIndex && 0 < Max(follower) < leader.nextIndex[peer] - 1 <= Max(leader)
    && follower.store.log.entries[Max(follower)].term == leader.store.log.entries[leader.nextIndex[peer] - 1].term > 0
  }

  /** Such a follower refuses, keeps its log, and the leader does not go back: the next batch is refused
      for the same reason. */
  lemma ShortFollowerIsNotReached(leader: Node, follower: Node, peer: Id, maximumLength: nat)
    requires ShortSameTerm(leader, follower, peer)
    ensures var x := Exchange(leader, follower, peer, maximumLength);
            && x.Some? && !x.value.2.success && x.value.1.store == follower.store
            && peer in x.value.0.nextIndex && x.value.0.nextIndex[peer] >= leader.nextIndex[peer]
            && ShortSameTerm(x.value.0, x.value.1, peer)
  {
    var prev := leader.nextIndex[peer] - 1;
    hide Slice, BackOff;
    BatchIsSlice(leader, peer, maximumLength);
    hide PrepareAppend;
    var r := PrepareAppend(leader, peer, maximumLength).request;
    Refused(leader, follower, peer, r, maximumLength);
    var a := HandleAppendRequest(follower, r).1.value;
    LastIndexOfTermIsGreatest(leader.store.log, a.conflictEntryTerm, Max(leader));
    GoesBackTo(leader, peer, a, prev);
  }

  lemma Refused(leader: Node, follower: Node, peer: Id, r: AppendRequest, maximumLength: nat)
    requires ShortSameTerm(leader, follower, peer) && PrepareAppend(leader, peer, maximumLength) == Batch(r)
    requires r.prevEntryIndex == leader.nextIndex[peer] - 1
    ensures r.term == leader.currentTerm
    ensures var (f, a) := HandleAppendRequest(follower, r);
            && f == follower && a.Some? && !a.value.success && a.value.term == leader.currentTerm
            && a.value.conflictEntryTerm == leader.store.log.entries[leader.nextIndex[peer] - 1].term
  {
    hide Slice, Window;
  }

  /** The leader finds the conflicting term at prev or behind it, and stays in the same position. */
  lemma GoesBackTo(leader: Node, peer: Id, a: AppendResponse, prev: nat)
    requires Dense(leader.store.log) && 0 < prev <= Max(leader)
    requires a.conflictEntryTerm == leader.store.log.entries[prev].term > 0
    ensures var b := BackOff(leader, peer, a);
            && b == leader.(nextIndex := b.nextIndex) && b.nextIndex.Keys == leader.nextIndex.Keys + {peer}
            && prev + 1 <= b.nextIndex[peer] <= Max(leader) + 1
            && (forall p :: p in leader.nextIndex && p != peer ==> b.nextIndex[p] == leader.nextIndex[p])
            && leader.store.log.entries[b.nextIndex[peer] - 1].term == a.conflictEntryTerm
  {
    LastIndexOfTermIsGreatest(leader.store.log, a.conflictEntryTerm, Max(leader));
  }

  /** The back-off can stand still for good: a run of a fresh cluster of three, with timely answers only,
      after which leader 1 of term 4 and follower 2 remain exactly as they are in every further exchange. */
  lemma BackOffMayStandStill(s0: Cluster.System, first: Command, second: Command, maximumLength: nat) returns (s: Cluster.System)
    requires Cluster.Init(s0) && s0.nodes.Keys == TrioRuns.Trio
    ensures TrioRuns.Comes(s0, s) && {1, 2} <= s.nodes.Keys && (1, 4) in s.elected
    ensures ShortSameTerm(s.nodes[1], s.nodes[2], 2)
    ensures var x := Exchange(s.nodes[1], s.nodes[2], 2, maximumLength);
            x.Some? && x.value.0 == s.nodes[1] && x.value.1 == s.nodes[2]
  {
    s := TrioRuns.ElectedAgain(s0, first, second);
    var leader, follower := s.nodes[1], s.nodes[2];
    StandsStill(leader, follower, Entry(2, 1, first), Entry(2, 2, second), maximumLength);
  }

  lemma StandsStill(leader: Node, follower: Node, e1: Entry, e2: Entry, maximumLength: nat)
    requires e1.index == 1 && e2.index == 2 && e1.term == e2.term > 0
    requires leader.role == Leader && leader.store == TrioRuns.Double(e1, e2) && 2 in leader.peers
    requires forall p :: p in leader.peers ==> p in leader.nextIndex && leader.nextIndex[p] == 3
    requires follower.role == Follower && follower.store == TrioRuns.Single(e1, 0) && follower.currentTerm == leader.currentTerm
    ensures ShortSameTerm(leader, follower, 2)
    ensures var x := Exchange(leader, follower, 2, maximumLength); x.Some? && x.value.0 == leader && x.value.1 == follower
  {
    var log := leader.store.log;
    assert Min(maximumLength, Max(leader) - 2) == 0;
    assert Slice(log, 2, 0) == Some([]);
    assert LastIndexOfTerm(log, e2.term, 2) == FoundAt(2);
    assert leader.nextIndex[2 := 3] == leader.nextIndex;
  }
}

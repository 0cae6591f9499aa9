/** Replication makes progress: the exchanges of a leader and a follower that agree before the batch bring the
    follower the leader's whole log and its commits. */
module CatchingUp {
  import opened Types
  import opened LogStorage
  import opened StateMap
  import opened NodeStore
  import opened RaftNode
  import opened NodeSteps
  import opened Cluster
  import opened ElectionSafety
  import opened LogSafety
  import opened ClusterTheorems
  import opened NodeOutcomes
  import opened BackingOff
  import opened TrioRuns

  /** A leader, and a live node of no later term that has the leader's entry before the next batch. */
  ghost predicate Agreed(leader: Node, follower: Node, peer: Id) {
    && leader.role == Leader && follower.role != Dead && follower.currentTerm <= leader.currentTerm
    && WellFormed(leader.store) && WellFormed(follower.store) && Window(leader) && peer in leader.peers
    && var prev := leader.nextIndex[peer] - 1;
       prev <= Max(follower) && (prev > 0 ==> follower.store.log.entries[prev] == leader.store.log.entries[prev])
  }

  ghost function Prev(leader: Node, follower: Node, peer: Id): nat
    requires Agreed(leader, follower, peer)
  {
    leader.nextIndex[peer] - 1
  }

  /** The follower has the leader's entries from one index to another. */
  ghost predicate Copied(leader: Log, follower: Log, from: nat, upTo: nat) {
    forall i :: from < i <= upTo ==> i in leader.entries && i in follower.entries && follower.entries[i] == leader.entries[i]
  }

  /** One exchange moves the next index on by the batch, which is as long as allowed, and copies it; nothing before
      it changes, and the follower commits as far as it goes of what the leader has committed. */
  lemma ExchangeMovesOn(leader: Node, follower: Node, peer: Id, maximumLength: nat)
    requires Agreed(leader, follower, peer)
    ensures var prev := Prev(leader, follower, peer);
            var rest := Max(leader) - prev;
            var x := Exchange(leader, follower, peer, maximumLength);
            && x.Some? && x.value.2.success
            && Agreed(x.value.0, x.value.1, peer) && x.value.0.store.log == leader.store.log
            && x.value.0.currentTerm == leader.currentTerm && leader.store.commitIndex <= x.value.0.store.commitIndex
            && Prev(x.value.0, x.value.1, peer) == prev + (if maximumLength < rest then maximumLength else rest)
            && Copied(leader.store.log, x.value.1.store.log, prev, Prev(x.value.0, x.value.1, peer))
            && Agree(follower.store.log, x.value.1.store.log, prev)
            && peer in x.value.0.matchIndex && x.value.0.matchIndex[peer] >= Prev(x.value.0, x.value.1, peer)
            && follower.store.commitIndex <= x.value.1.store.commitIndex
            && (leader.store.commitIndex <= Max(x.value.1) ==> leader.store.commitIndex <= x.value.1.store.commitIndex)
  {
    var r := NextBatch(leader, follower, peer, maximumLength);
    var (f, a) := HandleAppendRequest(follower, r);
    var sent := Sent(leader.currentTerm, r.prevEntryIndex + 1, |r.entryList|);
    hide HandleAppendRequest, HandleAppendResponse, PrepareAppend, WellFormed, Contiguous, Copied, Window, Exchange;
    BatchArrives(leader, follower, peer, r, f, a);
    ExchangeIs(leader, follower, peer, maximumLength, r, f, a);
    BatchIsAnswered(leader, f, peer, r, sent, a.value);
  }

  /** What the leader sends. */
  ghost predicate Carries(leader: Node, peer: Id, r: AppendRequest) {
    && peer in leader.nextIndex && leader.nextIndex[peer] == r.prevEntryIndex + 1
    && r.term == leader.currentTerm && r.commitEntryIndex == leader.store.commitIndex
    && Contiguous(r.entryList, r.prevEntryIndex) && r.prevEntryIndex + |r.entryList| <= Max(leader)
    && (forall i :: 0 <= i < |r.entryList| ==>
          r.prevEntryIndex + 1 + i in leader.store.log.entries && r.entryList[i] == leader.store.log.entries[r.prevEntryIndex + 1 + i])
    && (r.prevEntryIndex > 0 ==>
          r.prevEntryIndex in leader.store.log.entries && r.prevEntryTerm == leader.store.log.entries[r.prevEntryIndex].term)
  }

  lemma NextBatch(leader: Node, follower: Node, peer: Id, maximumLength: nat) returns (r: AppendRequest)
    requires Agreed(leader, follower, peer)
    ensures PrepareAppend(leader, peer, maximumLength) == Batch(r) && Carries(leader, peer, r)
    ensures var rest := Max(leader) - r.prevEntryIndex; |r.entryList| == if maximumLength < rest then maximumLength else rest
  {
    BatchIsSlice(leader, peer, maximumLength);
    r := PrepareAppend(leader, peer, maximumLength).request;
    hide PrepareAppend;
  }

  lemma BatchArrives(leader: Node, follower: Node, peer: Id, r: AppendRequest, f: Node, a: Option<AppendResponse>)
    requires Agreed(leader, follower, peer) && Carries(leader, peer, r) && (f, a) == HandleAppendRequest(follower, r)
    ensures a.Some? && a.value.success && a.value.term == leader.currentTerm && f.currentTerm == leader.currentTerm && f.role == Follower
    ensures WellFormed(f.store) && r.prevEntryIndex + |r.entryList| <= Max(f)
    ensures Copied(leader.store.log, f.store.log, r.prevEntryIndex, r.prevEntryIndex + |r.entryList|)
    ensures Agree(follower.store.log, f.store.log, r.prevEntryIndex)
    ensures follower.store.commitIndex <= f.store.commitIndex
    ensures leader.store.commitIndex <= Max(f) ==> leader.store.commitIndex <= f.store.commitIndex
  {
    AcceptOutcome(follower, r);
    hide HandleAppendRequest, WellFormed, Contiguous;
    BatchIsCopied(leader.store.log, f.store.log, r);
    DenseOf(follower.store);
  }

  lemma DenseOf(st: Store)
    requires WellFormed(st)
    ensures Dense(st.log)
  {
  }

  lemma BatchIsAnswered(leader: Node, f: Node, peer: Id, r: AppendRequest, sent: Sent, a: AppendResponse)
    requires leader.role == Leader && WellFormed(leader.store) && Window(leader) && peer in leader.peers && Carries(leader, peer, r)
    requires sent == Sent(leader.currentTerm, r.prevEntryIndex + 1, |r.entryList|)
    requires a.success && a.term == leader.currentTerm && f.role == Follower && f.currentTerm == leader.currentTerm
    requires WellFormed(f.store) && r.prevEntryIndex + |r.entryList| <= Max(f)
    requires Copied(leader.store.log, f.store.log, r.prevEntryIndex, r.prevEntryIndex + |r.entryList|)
    requires r.prevEntryIndex > 0 ==> r.prevEntryIndex in f.store.log.entries
                                      && f.store.log.entries[r.prevEntryIndex] == leader.store.log.entries[r.prevEntryIndex]
    ensures var b, end := HandleAppendResponse(leader, peer, sent, a), r.prevEntryIndex + |r.entryList|;
            && Agreed(b, f, peer) && Prev(b, f, peer) == end && b.store.log == leader.store.log && b.currentTerm == leader.currentTerm
            && leader.store.commitIndex <= b.store.commitIndex && peer in b.matchIndex && b.matchIndex[peer] >= end
  {
    SuccessOutcome(leader, peer, sent, a);
    NoConflictEffect(leader, peer, sent, a);
    hide HandleAppendResponse, Window, WellFormed, Contiguous;
    var b := HandleAppendResponse(leader, peer, sent, a);
    WindowOf(leader, peer);
    WindowOf(b, peer);
  }

  lemma NoConflictEffect(leader: Node, peer: Id, sent: Sent, a: AppendResponse)
    requires WellFormed(leader.store) && Window(leader) && SentWithin(sent, Max(leader)) && a.success
    ensures var b := HandleAppendResponse(leader, peer, sent, a);
            WellFormed(b.store) && leader.store.commitIndex <= b.store.commitIndex && b.store.log == leader.store.log && Window(b)
  {
    CommitTargetIsGreatest(AdvanceFollower(leader, peer, sent), Max(leader));
    hide CommitTarget;
  }

  lemma WindowOf(n: Node, peer: Id)
    requires Window(n) && n.role == Leader && peer in n.peers
    ensures peer in n.nextIndex && 1 <= n.nextIndex[peer] <= Max(n) + 1
  {
  }

  lemma BatchIsCopied(leader: Log, follower: Log, r: AppendRequest)
    requires Dense(leader) && r.prevEntryIndex + |r.entryList| <= leader.maximumIndex
    requires forall i :: 0 <= i < |r.entryList| ==> r.entryList[i] == leader.entries[r.prevEntryIndex + 1 + i]
    requires forall i :: 0 <= i < |r.entryList| ==>
               r.prevEntryIndex + 1 + i in follower.entries && follower.entries[r.prevEntryIndex + 1 + i] == r.entryList[i]
    ensures Copied(leader, follower, r.prevEntryIndex, r.prevEntryIndex + |r.entryList|)
  {
    forall i | r.prevEntryIndex < i <= r.prevEntryIndex + |r.entryList|
      ensures i in leader.entries && i in follower.entries && follower.entries[i] == leader.entries[i]
    {
      var k := i - r.prevEntryIndex - 1;
      assert r.entryList[k] == leader.entries[r.prevEntryIndex + 1 + k];
      assert follower.entries[r.prevEntryIndex + 1 + k] == r.entryList[k];
    }
  }

  /** A number of exchanges, one after the other. */
  ghost function Exchanges(leader: Node, follower: Node, peer: Id, maximumLength: nat, count: nat): Option<(Node, Node)>
    decreases count
  {
    if count == 0 then Some((leader, follower))
    else
      match Exchange(leader, follower, peer, maximumLength)
      case None => None
      case Some(x) => Exchanges(x.0, x.1, peer, maximumLength, count - 1)
  }

  /** With batches of at least one entry, as many exchanges as batches are missing give the follower the leader's
      whole log behind the first batch, and one more all that the leader had committed before it. */
  lemma {:induction false} FollowerCatchesUp(leader: Node, follower: Node, peer: Id, maximumLength: nat, count: nat)
    requires Agreed(leader, follower, peer) && maximumLength > 0
    requires Max(leader) - Prev(leader, follower, peer) <= count * maximumLength
    ensures var x := Exchanges(leader, follower, peer, maximumLength, count);
            && x.Some? && Agreed(x.value.0, x.value.1, peer) && x.value.0.store.log == leader.store.log
            && Prev(x.value.0, x.value.1, peer) == Max(leader)
            && Copied(leader.store.log, x.value.1.store.log, Prev(leader, follower, peer), Max(leader))
            && Agree(follower.store.log, x.value.1.store.log, Prev(leader, follower, peer))
            && (count > 0 ==> leader.store.commitIndex <= x.value.1.store.commitIndex)
    decreases count
  {
    PrevIsWithin(leader, follower, peer);
    hide Agreed, Exchange, Copied, Agree;
    NothingCopied(leader.store.log, follower.store.log, Prev(leader, follower, peer));
    AgreesItself(leader, follower, peer);
    if count > 0 {
      var prev := Prev(leader, follower, peer);
      ExchangeMovesOn(leader, follower, peer, maximumLength);
      var x := Exchange(leader, follower, peer, maximumLength).value;
      Shorter(Max(leader) - prev, maximumLength, count);
      FollowerCatchesUp(x.0, x.1, peer, maximumLength, count - 1);
      var y := Exchanges(x.0, x.1, peer, maximumLength, count - 1).value;
      CopiedOn(leader.store.log, follower.store.log, x.1.store.log, y.1.store.log, prev, Prev(x.0, x.1, peer), Max(leader));
    } else {
      assert Max(leader) == Prev(leader, follower, peer);
    }
  }

  lemma NothingCopied(leader: Log, follower: Log, k: nat)
    ensures Copied(leader, follower, k, k)
  {
  }

  lemma AgreesItself(leader: Node, follower: Node, peer: Id)
    requires Agreed(leader, follower, peer)
    ensures Agree(follower.store.log, follower.store.log, Prev(leader, follower, peer))
  {
  }

  lemma CopiedOn(leader: Log, a: Log, b: Log, c: Log, from: nat, mid: nat, upTo: nat)
    requires Agree(a, b, from) && Copied(leader, b, from, mid) && Agree(b, c, mid) && Copied(leader, c, mid, upTo) && from <= mid <= upTo
    ensures Agree(a, c, from) && Copied(leader, c, from, upTo)
  {
  }

  lemma Shorter(rest: nat, step: nat, count: nat)
    requires step > 0 && count > 0 && rest <= count * step
    ensures rest - (if step < rest then step else rest) <= (count - 1) * step
  {
    assert (count - 1) * step == count * step - step;
    assert 0 <= (count - 1) * step;
  }

  // ---------------------------------------------------------------------------------------------
  // In the cluster
  // ---------------------------------------------------------------------------------------------

  /** An exchange is three steps of the cluster: the request, its answer, and what the leader makes of it. */
  lemma ExchangeRuns(s0: System, s: System, l: Id, p: Id, maximumLength: nat) returns (s': System)
    requires Comes(s0, s) && ClusterInv(s) && l in s.nodes && p in s.nodes && Agreed(s.nodes[l], s.nodes[p], p)
    ensures Comes(s0, s') && ClusterInv(s')
    ensures var x := Exchange(s.nodes[l], s.nodes[p], p, maximumLength);
            x.Some? && s'.nodes == s.nodes[p := x.value.1][l := x.value.0]
  {
    var leader, follower := s.nodes[l], s.nodes[p];
    hide ElectionInv, LogInv, Comes, HandleAppendRequest, HandleAppendResponse, PrepareAppend, WellFormed;
    PeersOf(s, l, p);
    KeysAreIds(s, p);
    var r := NextBatch(leader, follower, p, maximumLength);
    var (f, a) := HandleAppendRequest(follower, r);
    BatchArrives(leader, follower, p, r, f, a);
    AppendRequestMoves(follower, r);
    var sent := Sent(leader.currentTerm, r.prevEntryIndex + 1, |r.entryList|);
    var ask := AppendAsk(l, p, sent, r);
    var answer := AppendAnswer(l, p, sent, a.value);
    LeaderKeepsId(leader, p, sent, a.value, l);
    hide Carries, Copied, Agreed, ClusterInv, Exchange, Next, Enabled;
    assert Exchange(leader, follower, p, maximumLength) == Some((HandleAppendResponse(leader, p, sent, a.value), f, a.value)) by {
      ExchangeIs(leader, follower, p, maximumLength, r, f, a);
    }
    SendStep(s, l, p, maximumLength, r);
    var s1 := StepTaken(s0, s, SendAppend(l, p, maximumLength, leader.currentTerm));
    AnswerStep(s1, ask, f, a.value);
    var s2 := StepTaken(s0, s1, AnswerAppend(ask));
    CountStep(s2, answer);
    s' := StepTaken(s0, s2, CountAppend(answer));
  }

  lemma ExchangeIs(leader: Node, follower: Node, p: Id, maximumLength: nat, r: AppendRequest, f: Node, a: Option<AppendResponse>)
    requires PrepareAppend(leader, p, maximumLength) == Batch(r) && HandleAppendRequest(follower, r) == (f, a) && a.Some?
    ensures var sent := Sent(leader.currentTerm, r.prevEntryIndex + 1, |r.entryList|);
            Exchange(leader, follower, p, maximumLength) == Some((HandleAppendResponse(leader, p, sent, a.value), f, a.value))
  {
    hide PrepareAppend, HandleAppendRequest, HandleAppendResponse;
  }

  lemma SendStep(s: System, l: Id, p: Id, maximumLength: nat, r: AppendRequest)
    requires l in s.nodes && s.nodes[l].role == Leader && p in s.nodes[l].peers && PrepareAppend(s.nodes[l], p, maximumLength) == Batch(r)
    ensures var t := s.nodes[l].currentTerm;
            && Enabled(s, SendAppend(l, p, maximumLength, t)) && Next(s, SendAppend(l, p, maximumLength, t)).nodes == s.nodes
            && AppendAsk(l, p, Sent(t, r.prevEntryIndex + 1, |r.entryList|), r) in Next(s, SendAppend(l, p, maximumLength, t)).net
  {
    hide PrepareAppend;
  }

  lemma AnswerStep(s: System, m: Message, f: Node, a: AppendResponse)
    requires m in s.net && m.AppendAsk? && m.dst in s.nodes && HandleAppendRequest(s.nodes[m.dst], m.request) == (f, Some(a)) && f.id == m.dst
    ensures Enabled(s, AnswerAppend(m)) && Next(s, AnswerAppend(m)).nodes == s.nodes[m.dst := f]
    ensures AppendAnswer(m.src, m.dst, m.sent, a) in Next(s, AnswerAppend(m)).net
  {
    hide HandleAppendRequest;
  }

  lemma CountStep(s: System, m: Message)
    requires m in s.net && m.AppendAnswer? && m.src in s.nodes && m.response.term == m.sent.term
    requires HandleAppendResponse(s.nodes[m.src], m.dst, m.sent, m.response).id == m.src
    ensures Enabled(s, CountAppend(m))
    ensures Next(s, CountAppend(m)).nodes == s.nodes[m.src := HandleAppendResponse(s.nodes[m.src], m.dst, m.sent, m.response)]
  {
    hide HandleAppendResponse;
  }

  lemma LeaderKeepsId(n: Node, peer: Id, sent: Sent, r: AppendResponse, l: Id)
    requires n.id == l
    ensures HandleAppendResponse(n, peer, sent, r).id == l
  {
  }

  lemma PeersOf(s: System, l: Id, p: Id)
    requires ClusterInv(s) && l in s.nodes && p in s.nodes[l].peers
    ensures p != l && p in s.nodes && s.nodes[l].id == l
  {
    hide LogInv;
  }

  lemma StepTaken(s0: System, s: System, a: Action) returns (s': System)
    requires Comes(s0, s) && ClusterInv(s) && Enabled(s, a)
    ensures s' == Next(s, a) && Comes(s0, s') && ClusterInv(s')
  {
    hide ClusterInv, Comes, Next;
    s' := Next(s, a);
    ComesOn(s0, s, a);
    StepKeepsClusterInv(s, a);
  }

  /** From any state of the cluster in which a leader and a live node agree before the next batch, a run leads to
      one in which that node has the leader's whole log and commits what the leader had committed. */
  lemma FollowerCanCatchUp(s: System, l: Id, p: Id, maximumLength: nat) returns (s': System)
    requires Reachable(s) && l in s.nodes && p in s.nodes && Agreed(s.nodes[l], s.nodes[p], p) && maximumLength > 0
    ensures Comes(s, s') && l in s'.nodes && p in s'.nodes && s'.nodes[l].store.log == s.nodes[l].store.log
    ensures Copied(s.nodes[l].store.log, s'.nodes[p].store.log, Prev(s.nodes[l], s.nodes[p], p), Max(s.nodes[l]))
    ensures s.nodes[l].store.commitIndex <= s'.nodes[p].store.commitIndex
  {
    hide ClusterInv, Agreed, Reachable, Comes, Copied, Exchanges;
    ReachableHoldsClusterInv(s);
    ComesToItself(s);
    var leader, follower := s.nodes[l], s.nodes[p];
    var count := Max(leader) + 1;
    PrevIsWithin(leader, follower, p);
    Enough(Max(leader) - Prev(leader, follower, p), Max(leader), maximumLength);
    FollowerCatchesUp(leader, follower, p, maximumLength, count);
    s' := ExchangesRun(s, s, l, p, maximumLength, count);
  }

  lemma PrevIsWithin(leader: Node, follower: Node, p: Id)
    requires Agreed(leader, follower, p)
    ensures Prev(leader, follower, p) <= Max(leader)
  {
  }

  lemma Enough(rest: nat, max: nat, step: nat)
    requires rest <= max && step > 0
    ensures rest <= (max + 1) * step
  {
    assert (max + 1) * step >= max + 1;
  }

  lemma {:induction false} ExchangesRun(s0: System, s: System, l: Id, p: Id, maximumLength: nat, count: nat) returns (s': System)
    requires Comes(s0, s) && ClusterInv(s) && l in s.nodes && p in s.nodes && Agreed(s.nodes[l], s.nodes[p], p)
    ensures Comes(s0, s') && l in s'.nodes && p in s'.nodes
    ensures Exchanges(s.nodes[l], s.nodes[p], p, maximumLength, count) == Some((s'.nodes[l], s'.nodes[p]))
    decreases count
  {
    hide ClusterInv, Comes;
    if count == 0 {
      s' := s;
    } else {
      ExchangeMovesOn(s.nodes[l], s.nodes[p], p, maximumLength);
      PeersOf(s, l, p);
      var s1 := ExchangeRuns(s0, s, l, p, maximumLength);
      hide Exchange, Agreed;
      s' := ExchangesRun(s0, s1, l, p, maximumLength, count - 1);
    }
  }
}

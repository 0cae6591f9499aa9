/** What every message makes a node do: when it must grant, accept, elect, commit or move on, and not only when
    it may. */
module NodeOutcomes {
  import opened Types
  import opened LogStorage
  import opened StateMap
  import opened NodeStore
  import opened RaftNode
  import opened NodeSteps
  import opened Cluster
  import opened ElectionSafety
  import opened LogSafety
  import opened ClusterTheorems

  // ---------------------------------------------------------------------------------------------
  // Votes
  // ---------------------------------------------------------------------------------------------

  ghost function TermOfLast(log: Log): nat
    requires Dense(log)
  {
    if log.maximumIndex == 0 then 0 else log.entries[log.maximumIndex].term
  }

  /** A candidacy asks, while the node has not moved on, with the position and term of its last entry. */
  lemma AskOutcome(n: Node, b: nat)
    requires Dense(n.store.log) && b < |n.ballots|
    ensures AskForVote(n, b).Some? <==> (n.role == Candidate || n.role == Follower) && n.currentTerm <= n.ballots[b].term
    ensures AskForVote(n, b).Some? ==>
              AskForVote(n, b).value == VoteRequest(n.ballots[b].term, n.id, n.store.log.maximumIndex, TermOfLast(n.store.log))
  {
  }

  /** A live voter grants exactly to a higher term, or in its own term, if it is free or pledged to that candidate,
      to one whose last entry is not behind its own; it is pledged then, and otherwise stays as it is. */
  lemma VoteOutcome(n: Node, r: VoteRequest)
    requires Dense(n.store.log) && n.role != Dead
    ensures var (b, a) := HandleVoteRequest(n, r);
            var newer := r.prevEntryTerm > TermOfLast(n.store.log)
                         || (r.prevEntryTerm == TermOfLast(n.store.log) && r.prevEntryIndex >= n.store.log.maximumIndex);
            && a.Some? && a.value.nodeId == n.id && a.value.term == b.currentTerm
            && (a.value.accepted <==>
                  r.term > n.currentTerm || (r.term == n.currentTerm && (n.votedPeer == 0 || n.votedPeer == r.nodeId) && newer))
            && (!a.value.accepted ==> b == n)
            && (a.value.accepted ==>
                  b == n.(votedPeer := r.nodeId, currentTerm := r.term, role := if r.term > n.currentTerm then Follower else n.role))
  {
  }

  /** A candidacy begins in the next term with the node's own vote and no other. */
  lemma CandidacyOutcome(n: Node)
    ensures var b, k := StartCandidacy(n), |n.ballots|;
            && b.role == Candidate && b.currentTerm == n.currentTerm + 1 && b.votedPeer == n.id && b.store == n.store
            && |b.ballots| == k + 1 && b.ballots[..k] == n.ballots && b.ballots[k].term == b.currentTerm
            && b.ballots[k].collected == 1 && YesVotes(b.ballots[k]) == {n.id}
  {
  }

  ghost function WithVote(b: Ballot, peer: Id, accepted: bool): set<Id> {
    YesVotes(b) + if accepted then {peer} else {}
  }

  /** In every run, an answer in the term of a candidacy adds that vote, and makes the candidate a leader exactly
      when more nodes have voted for it than have not. */
  lemma ElectedIff(s: System, a: Action)
    requires Reachable(s) && a.CountVote? && Enabled(s, a) && s.nodes[a.m.src].role == Candidate
    requires a.m.answer.term == s.nodes[a.m.src].ballots[a.m.ballot].term == s.nodes[a.m.src].currentTerm
    ensures a.m.src in Next(s, a).nodes
    ensures var before, after := s.nodes[a.m.src], Next(s, a).nodes[a.m.src];
            var votes := WithVote(before.ballots[a.m.ballot], a.m.dst, a.m.answer.accepted);
            && a.m.ballot < |after.ballots| && YesVotes(after.ballots[a.m.ballot]) == votes
            && votes <= s.nodes.Keys && after.currentTerm == before.currentTerm
            && (after.role == Leader <==> |votes| > |s.nodes.Keys - votes|)
            && (after.role != Leader ==> after.role == Candidate && after.store == before.store)
  {
    ReachableHoldsClusterInv(s);
    hide Reachable, LogInv;
    var m, n := a.m, s.nodes[a.m.src];
    KeysAreIds(s, m.src);
    VotesAreCounted(s, m);
    VotesDecide(n, m.ballot, m.dst, m.answer, a.initial);
    var votes := WithVote(n.ballots[m.ballot], m.dst, m.answer.accepted);
    hide ElectionInv, HandleVoteResponse, Gained;
    RestOf(s.nodes.Keys, votes);
    PeersPlusSelf(s, m.src);
  }

  lemma RestOf(all: set<Id>, part: set<Id>)
    requires part <= all
    ensures |all - part| == |all| - |part|
  {
    assert all == part + (all - part);
  }

  /** The counter of a candidacy is the number of its votes, and they come from nodes of the cluster. */
  lemma VotesAreCounted(s: System, m: Message)
    requires ElectionInv(s) && m in s.net && m.VoteAnswer? && m.src in s.nodes && m.ballot < |s.nodes[m.src].ballots|
    requires m.answer.term == s.nodes[m.src].ballots[m.ballot].term
    ensures var b := s.nodes[m.src].ballots[m.ballot];
            b.collected == |YesVotes(b)| && WithVote(b, m.dst, m.answer.accepted) <= s.nodes.Keys
    ensures s.nodes[m.src].peers == s.nodes.Keys - {m.src}
  {
    assert BallotIsCovered(s, m.src, m.ballot);
    if m.answer.accepted {
      YesBinds(s, m);
    }
  }

  lemma VotesDecide(n: Node, b: nat, peer: Id, r: VoteResponse, initial: seq<Command>)
    requires b < |n.ballots| && n.role == Candidate && r.term == n.ballots[b].term == n.currentTerm
    requires n.ballots[b].collected == |YesVotes(n.ballots[b])|
    ensures var after := HandleVoteResponse(n, b, peer, r, initial);
            var votes := WithVote(n.ballots[b], peer, r.accepted);
            && after.id == n.id && after.currentTerm == n.currentTerm && b < |after.ballots| && YesVotes(after.ballots[b]) == votes
            && (after.role == Leader <==> 2 * |votes| > |n.peers| + 1)
            && (after.role != Leader ==> after.role == Candidate && after.store == n.store)
  {
    hide AppendAll, CommitProcedure;
    var ballot := n.ballots[b];
    var votes := WithVote(ballot, peer, r.accepted);
    var first := r.accepted && !(peer in ballot.voteMap && ballot.voteMap[peer]);
    var counted := if first then Ballot(ballot.term, ballot.collected + 1, ballot.voteMap[peer := true]) else ballot;
    if first {
      assert peer !in YesVotes(ballot) && YesVotes(counted) == YesVotes(ballot) + {peer};
    } else {
      assert votes == YesVotes(ballot);
    }
    assert counted.collected == |votes|;
  }

  /** A new leader has applied what is committed, has written exactly its first entries, and starts every window at
      the end of its log. */
  lemma LeaderOutcome(n: Node, initial: seq<Command>)
    requires WellFormed(n.store)
    ensures var b := BecomeLeader(n, initial);
            && b.role == Leader && b.currentTerm == n.currentTerm && WellFormed(b.store)
            && b.store.lastAppliedIndex == b.store.commitIndex == n.store.commitIndex
            && b.store.log.maximumIndex == Max(n) + |initial| && Prefix(n.store.log, b.store.log)
            && (forall i :: 0 <= i < |initial| ==>
                  b.store.log.entries[Max(n) + 1 + i].command == initial[i] && b.store.log.entries[Max(n) + 1 + i].term == n.currentTerm)
            && b.nextIndex.Keys == n.peers && (forall p :: p in n.peers ==> b.nextIndex[p] == b.store.log.maximumIndex + 1)
  {
    CommitProcedureMovesForward(n.store);
    AppendAllEffect(CommitProcedure(n.store), n.currentTerm, initial);
    hide AppendAll, UpdateFromLog;
  }

  // ---------------------------------------------------------------------------------------------
  // Append requests
  // ---------------------------------------------------------------------------------------------

  /** The entry before the batch is in the log, with the leader's term. */
  ghost predicate Fits(log: Log, r: AppendRequest)
    requires Dense(log)
  {
    r.prevEntryIndex == 0 || (r.prevEntryIndex <= log.maximumIndex && log.entries[r.prevEntryIndex].term == r.prevEntryTerm)
  }

  /** A live node accepts a request exactly when it is not of an earlier term and fits.  It is then a follower of
      that term, has the whole batch, and has committed as far as the request says and its log goes; the answer
      reports that. */
  lemma AcceptOutcome(n: Node, r: AppendRequest)
    requires WellFormed(n.store) && n.role != Dead && Contiguous(r.entryList, r.prevEntryIndex)
    ensures var (b, a) := HandleAppendRequest(n, r);
            var last := r.prevEntryIndex + |r.entryList|;
            && a.Some? && a.value.nodeId == n.id && a.value.term == b.currentTerm
            && b.currentTerm == (if r.term > n.currentTerm then r.term else n.currentTerm)
            && (a.value.success <==> r.term >= n.currentTerm && Fits(n.store.log, r))
            && (r.term >= n.currentTerm ==> b.role == Follower)
            && (a.value.success ==>
                  && WellFormed(b.store)
                  && b.store.log.maximumIndex == (if last > Max(n) then last else Max(n))
                  && (forall i :: 0 <= i < |r.entryList| ==>
                        r.prevEntryIndex + 1 + i in b.store.log.entries && b.store.log.entries[r.prevEntryIndex + 1 + i] == r.entryList[i])
                  && (forall i :: i in n.store.log.entries && !(r.prevEntryIndex < i <= last) ==>
                        i in b.store.log.entries && b.store.log.entries[i] == n.store.log.entries[i])
                  && n.store.commitIndex <= b.store.commitIndex
                  && (r.commitEntryIndex <= b.store.log.maximumIndex ==> r.commitEntryIndex <= b.store.commitIndex)
                  && (b.store.log.maximumIndex < r.commitEntryIndex ==> b.store.commitIndex == b.store.log.maximumIndex)
                  && (b.store.commitIndex > n.store.commitIndex ==> b.store.commitIndex <= r.commitEntryIndex)
                  && a.value.commitEntryIndex == b.store.commitIndex)
  {
    MatchesAndConflictAreFound(n.store.log, r);
    if r.term >= n.currentTerm && Fits(n.store.log, r) {
      AcceptedStore(n.store, r);
    }
    hide AcceptEntries, Contiguous, WellFormed;
  }

  /** What an accepted batch makes of a store. */
  lemma AcceptedStore(st: Store, r: AppendRequest)
    requires WellFormed(st) && r.prevEntryIndex <= st.log.maximumIndex && Contiguous(r.entryList, r.prevEntryIndex)
    ensures var b, last := AcceptEntries(st, r), r.prevEntryIndex + |r.entryList|;
            && WellFormed(b) && b.log.maximumIndex == (if last > st.log.maximumIndex then last else st.log.maximumIndex)
            && (forall i :: 0 <= i < |r.entryList| ==>
                  r.prevEntryIndex + 1 + i in b.log.entries && b.log.entries[r.prevEntryIndex + 1 + i] == r.entryList[i])
            && (forall i :: i in st.log.entries && !(r.prevEntryIndex < i <= last) ==>
                  i in b.log.entries && b.log.entries[i] == st.log.entries[i])
            && st.commitIndex <= b.commitIndex
            && (r.commitEntryIndex <= b.log.maximumIndex ==> r.commitEntryIndex <= b.commitIndex)
            && (b.log.maximumIndex < r.commitEntryIndex ==> b.commitIndex == b.log.maximumIndex)
            && (b.commitIndex > st.commitIndex ==> b.commitIndex <= r.commitEntryIndex)
            && b == st.(log := b.log, commitIndex := b.commitIndex)
  {
    InsertListEffect(st.log, r.entryList, r.prevEntryIndex);
    AcceptAt(st.log, r);
    hide InsertList;
  }

  lemma AcceptAt(log: Log, r: AppendRequest)
    requires Dense(log) && r.prevEntryIndex <= log.maximumIndex && Contiguous(r.entryList, r.prevEntryIndex)
    ensures var b := InsertList(log, r.entryList);
            forall i :: 0 <= i < |r.entryList| ==>
              r.prevEntryIndex + 1 + i in b.entries && b.entries[r.prevEntryIndex + 1 + i] == r.entryList[i]
  {
    InsertListEffect(log, r.entryList, r.prevEntryIndex);
    var b := InsertList(log, r.entryList);
    hide InsertList;
    forall i | 0 <= i < |r.entryList|
      ensures r.prevEntryIndex + 1 + i in b.entries && b.entries[r.prevEntryIndex + 1 + i] == r.entryList[i]
    {
      assert b.entries[r.prevEntryIndex + 1 + i] == r.entryList[r.prevEntryIndex + 1 + i - r.prevEntryIndex - 1];
    }
  }

  /** A refusal leaves the store alone and, in the request's term, points at the last entry that the node has at or
      before the batch. */
  lemma RefuseOutcome(n: Node, r: AppendRequest)
    requires Dense(n.store.log) && n.role != Dead && !(r.term >= n.currentTerm && Fits(n.store.log, r))
    ensures var (b, a) := HandleAppendRequest(n, r);
            && b.store == n.store && a.Some? && !a.value.success
            && (r.term < n.currentTerm ==> b == n && a.value.term == n.currentTerm)
            && (r.term >= n.currentTerm ==>
                  if Max(n) == 0 then a.value.conflictEntryIndex == 0 && a.value.conflictEntryTerm == 0
                  else
                    && a.value.conflictEntryIndex == (if r.prevEntryIndex > Max(n) then Max(n) else r.prevEntryIndex)
                    && a.value.conflictEntryTerm == n.store.log.entries[a.value.conflictEntryIndex].term)
  {
  }

  // ---------------------------------------------------------------------------------------------
  // Answers to append requests
  // ---------------------------------------------------------------------------------------------

  /** After a success the leader goes on behind the batch, and knows that the peer has it. */
  lemma SuccessOutcome(n: Node, peer: Id, sent: Sent, r: AppendResponse)
    requires n.role == Leader && r.term == sent.term && r.success && sent.next >= 1
    ensures var b, end := HandleAppendResponse(n, peer, sent, r), sent.next + sent.length - 1;
            && b == n.(nextIndex := b.nextIndex, matchIndex := b.matchIndex, store := n.store.(commitIndex := b.store.commitIndex))
            && b.nextIndex == n.nextIndex[peer := end + 1]
            && peer in b.matchIndex && b.matchIndex[peer] >= end
            && b.matchIndex[peer] == (if peer in n.matchIndex && n.matchIndex[peer] > end then n.matchIndex[peer] else end)
            && (forall p :: p != peer ==> (p in b.matchIndex <==> p in n.matchIndex) && (p in n.matchIndex ==> b.matchIndex[p] == n.matchIndex[p]))
  {
    hide CommitTarget;
  }

  /** The nodes that are known to hold the log up to k: the node itself, and peers. */
  ghost function KnownHolders(n: Node, k: nat): set<Id> {
    {n.id} + set p | p in n.peers && p in n.matchIndex && n.matchIndex[p] >= k
  }

  /** In every run, after a success exactly those indices are committed that were, or that the log has and more
      nodes are known to hold than not. */
  lemma CommittedIff(s: System, a: Action, k: nat)
    requires Reachable(s) && a.CountAppend? && Enabled(s, a) && s.nodes[a.m.src].role == Leader
    requires a.m.response.term == a.m.sent.term && a.m.response.success
    ensures a.m.src in Next(s, a).nodes
    ensures var before, after := s.nodes[a.m.src], Next(s, a).nodes[a.m.src];
            && KnownHolders(after, k) <= s.nodes.Keys
            && (k <= after.store.commitIndex <==>
                  k <= before.store.commitIndex || (k <= Max(before) && |KnownHolders(after, k)| > |s.nodes.Keys - KnownHolders(after, k)|))
  {
    ReachableHoldsClusterInv(s);
    hide Reachable, LogInv;
    var m, n := a.m, s.nodes[a.m.src];
    KeysAreIds(s, m.src);
    assert n.peers == s.nodes.Keys - {m.src};
    hide ElectionInv, HandleAppendResponse, KnownHolders;
    var after := HandleAppendResponse(n, m.dst, m.sent, m.response);
    CommitByHolders(n, m.dst, m.sent, m.response, k);
    HoldersDecide(after, s.nodes.Keys, k);
    assert Next(s, a).nodes[m.src] == after;
  }

  lemma CommitByHolders(n: Node, peer: Id, sent: Sent, r: AppendResponse, k: nat)
    requires n.role == Leader && r.term == sent.term && r.success
    ensures var after := HandleAppendResponse(n, peer, sent, r);
            && after.id == n.id && after.peers == n.peers
            && (k <= after.store.commitIndex <==> k <= n.store.commitIndex || (k <= Max(n) && HeldByMajority(after, k)))
  {
    var n1 := AdvanceFollower(n, peer, sent);
    CommitTargetIsGreatest(n1, Max(n1));
    var after := HandleAppendResponse(n, peer, sent, r);
    assert Matched(after, k) == Matched(n1, k) && n1.peers == n.peers;
    assert HeldByMajority(after, k) <==> HeldByMajority(n1, k);
    assert after.store.commitIndex == CommitTarget(n1, Max(n1)) && Max(n1) == Max(n) && n1.store.commitIndex == n.store.commitIndex;
    hide CommitTarget, AdvanceFollower, HandleAppendResponse, HeldByMajority;
  }

  lemma HoldersDecide(n: Node, all: set<Id>, k: nat)
    requires n.peers == all - {n.id} && n.id in all
    ensures KnownHolders(n, k) <= all
    ensures HeldByMajority(n, k) <==> |KnownHolders(n, k)| > |all - KnownHolders(n, k)|
  {
    assert KnownHolders(n, k) == {n.id} + Matched(n, k);
    assert n.id !in Matched(n, k);
    assert all == n.peers + {n.id};
    RestOf(all, KnownHolders(n, k));
  }

  /** After a refusal the leader goes back to behind its last entry of the conflicting term, if it has one, and
      otherwise to the conflicting index, or to the first entry when that is 0. */
  lemma RefusedOutcome(n: Node, peer: Id, sent: Sent, r: AppendResponse)
    requires Dense(n.store.log) && n.role == Leader && r.term == sent.term && !r.success
    ensures var b := HandleAppendResponse(n, peer, sent, r);
            && peer in b.nextIndex && b == n.(nextIndex := n.nextIndex[peer := b.nextIndex[peer]])
            && (r.conflictEntryTerm == 0 ==> b.nextIndex[peer] == if r.conflictEntryIndex == 0 then 1 else r.conflictEntryIndex)
            && (r.conflictEntryTerm > 0 ==>
                  if exists i :: i in n.store.log.entries && n.store.log.entries[i].term == r.conflictEntryTerm then
                    && b.nextIndex[peer] > 0 && b.nextIndex[peer] - 1 in n.store.log.entries
                    && n.store.log.entries[b.nextIndex[peer] - 1].term == r.conflictEntryTerm
                    && (forall i :: i in n.store.log.entries && i >= b.nextIndex[peer] ==> n.store.log.entries[i].term != r.conflictEntryTerm)
                  else b.nextIndex[peer] == r.conflictEntryIndex)
  {
    if r.conflictEntryTerm > 0 {
      LastIndexOfTermIsGreatest(n.store.log, r.conflictEntryTerm, Max(n));
    }
  }

  /** An answer from above its request's term makes whoever waits for it a free follower of that term; any other
      answer that does not belong to the node's role and term changes nothing. */
  lemma OtherAnswers(n: Node, b: nat, vote: VoteResponse, initial: seq<Command>, peer: Id, sent: Sent, r: AppendResponse)
    requires b < |n.ballots|
    ensures var after := HandleVoteResponse(n, b, peer, vote, initial);
            if n.role == Candidate && vote.term > n.ballots[b].term then
              after == n.(role := Follower, currentTerm := vote.term, votedPeer := 0)
            else n.role != Candidate || vote.term < n.ballots[b].term || n.currentTerm != n.ballots[b].term ==> after == n
    ensures var after := HandleAppendResponse(n, peer, sent, r);
            if n.role == Leader && r.term > sent.term then after == n.(role := Follower, currentTerm := r.term, votedPeer := 0)
            else n.role != Leader || r.term < sent.term ==> after == n
  {
  }
}

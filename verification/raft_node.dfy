/** One Raft node: the handlers of elections and of log replication, each an atomic step. */
module RaftNode {
  import opened Types
  import opened LogStorage
  import opened StateMap
  import opened NodeStore

  type Id = nat

  datatype Role = Dead | Leader | Candidate | Follower

  /** The variables that the reply handlers of one candidacy share. */
  datatype Ballot = Ballot(term: nat, collected: nat, voteMap: map<Id, bool>)

  datatype Node = Node(
    id: Id, peers: set<Id>, role: Role, currentTerm: nat, votedPeer: Id, store: Store,
    nextIndex: map<Id, nat>, matchIndex: map<Id, nat>, ballots: seq<Ballot>)

  datatype VoteRequest = VoteRequest(term: nat, nodeId: Id, prevEntryIndex: nat, prevEntryTerm: nat)
  datatype VoteResponse = VoteResponse(term: nat, nodeId: Id, accepted: bool)

  datatype AppendRequest = AppendRequest(
    term: nat, nodeId: Id, prevEntryIndex: nat, prevEntryTerm: nat, commitEntryIndex: nat, entryList: seq<Entry>)
  datatype AppendResponse = AppendResponse(
    term: nat, nodeId: Id, conflictEntryIndex: nat, conflictEntryTerm: nat, commitEntryIndex: nat, success: bool)

  function Max(n: Node): nat { n.store.log.maximumIndex }

  /** More than half of the cluster, which is the peers and the node itself. */
  predicate Majority(count: nat, peers: set<Id>) {
    2 * count > |peers| + 1
  }

  // Elections -------------------------------------------------------------------------------------

  function BecomeFollower(n: Node, term: nat): Node {
    n.(votedPeer := 0, currentTerm := term, role := Follower)
  }

  function StartCandidacy(n: Node): Node {
    n.(role := Candidate, currentTerm := n.currentTerm + 1, votedPeer := n.id,
       ballots := n.ballots + [Ballot(n.currentTerm + 1, 1, (map p | p in n.peers :: false)[n.id := true])])
  }

  /** The term of the last entry; nothing when the log has a hole there. */
  function LastTerm(log: Log): Option<nat> {
    if log.maximumIndex == 0 then Some(0)
    else match Fetch(log, log.maximumIndex) case None => None case Some(e) => Some(e.term)
  }

  /** The request of candidacy b to one peer, unless the node has moved on. */
  function AskForVote(n: Node, b: nat): Option<VoteRequest>
    requires b < |n.ballots|
  {
    if (n.role != Candidate && n.role != Follower) || n.currentTerm > n.ballots[b].term then None
    else match LastTerm(n.store.log)
      case None => None
      case Some(t) => Some(VoteRequest(n.ballots[b].term, n.id, Max(n), t))
  }

  function HandleVoteRequest(n: Node, r: VoteRequest): (Node, Option<VoteResponse>) {
    if n.role == Dead then (n, None)
    else if r.term > n.currentTerm then
      (BecomeFollower(n, r.term).(votedPeer := r.nodeId), Some(VoteResponse(r.term, n.id, true)))
    else if r.term == n.currentTerm && (n.votedPeer == 0 || n.votedPeer == r.nodeId) then
      match LastTerm(n.store.log)
      case None => (n, None)
      case Some(t) =>
        if r.prevEntryTerm > t || (r.prevEntryTerm == t && r.prevEntryIndex >= Max(n)) then
          (n.(votedPeer := r.nodeId), Some(VoteResponse(n.currentTerm, n.id, true)))
        else (n, Some(VoteResponse(n.currentTerm, n.id, false)))
    else (n, Some(VoteResponse(n.currentTerm, n.id, false)))
  }

  /** The commands that a new leader's lock service writes at once are `initial`. */
  function AppendAll(st: Store, term: nat, commands: seq<Command>): Store {
    if commands == [] then st
    else
      var st1 := AppendAll(st, term, commands[..|commands| - 1]);
      st1.(log := Append(st1.log, term, commands[|commands| - 1]))
  }

  function BecomeLeader(n: Node, initial: seq<Command>): Node {
    var st := AppendAll(CommitProcedure(n.store), n.currentTerm, initial);
    n.(role := Leader, store := st, nextIndex := map p | p in n.peers :: st.log.maximumIndex + 1)
  }

  /** The answer of `peer` to the request of candidacy b. */
  function HandleVoteResponse(n: Node, b: nat, peer: Id, r: VoteResponse, initial: seq<Command>): Node
    requires b < |n.ballots|
  {
    var ballot := n.ballots[b];
    if n.role != Candidate then n
    else if r.term > ballot.term then BecomeFollower(n, r.term)
    else if r.term == ballot.term && n.currentTerm == ballot.term then
      var counted := if r.accepted && !(peer in ballot.voteMap && ballot.voteMap[peer])
                     then Ballot(ballot.term, ballot.collected + 1, ballot.voteMap[peer := true]) else ballot;
      var n1 := n.(ballots := n.ballots[b := counted]);
      if Majority(counted.collected, n.peers) then BecomeLeader(n1, initial) else n1
    else n
  }

  // Replication -----------------------------------------------------------------------------------

  function Min(a: nat, b: nat): (m: nat)
    ensures m <= a && m <= b && (m == a || m == b)
  {
    if a < b then a else b
  }

  /** Preparing a batch either yields a request or fails: the window has left the log, where the
      unsigned difference of the code would wrap around, or an entry is missing. */
  datatype Batch = Batch(request: AppendRequest) | WindowError | FetchError

  function Slice(log: Log, from: nat, length: nat): Option<seq<Entry>> {
    if length == 0 then Some([])
    else match Slice(log, from, length - 1)
      case None => None
      case Some(es) => match Fetch(log, from + length) case None => None case Some(e) => Some(es + [e])
  }

  function PrepareAppend(n: Node, peer: Id, maximumLength: nat): Batch {
    if peer !in n.nextIndex || n.nextIndex[peer] == 0 || n.nextIndex[peer] - 1 > Max(n) then WindowError
    else
      var prev := n.nextIndex[peer] - 1;
      var length := Min(maximumLength, Max(n) - prev);
      match Slice(n.store.log, prev, length)
      case None => FetchError
      case Some(es) =>
        if prev == 0 then Batch(AppendRequest(n.currentTerm, n.id, 0, 0, n.store.commitIndex, es))
        else match Fetch(n.store.log, prev)
          case None => FetchError
          case Some(e) => Batch(AppendRequest(n.currentTerm, n.id, prev, e.term, n.store.commitIndex, es))
  }

  /** Whether the entry before the batch is in the log, with the leader's term. */
  function Matches(log: Log, r: AppendRequest): Option<bool> {
    if r.prevEntryIndex > log.maximumIndex then Some(false)
    else if r.prevEntryIndex == 0 then Some(true)
    else match Fetch(log, r.prevEntryIndex) case None => None case Some(e) => Some(e.term == r.prevEntryTerm)
  }

  function Conflict(log: Log, prev: nat): Option<(nat, nat)> {
    if log.maximumIndex == 0 then Some((0, 0))
    else if prev > log.maximumIndex then
      match Fetch(log, log.maximumIndex) case None => None case Some(e) => Some((log.maximumIndex, e.term))
    else if prev != 0 then
      match Fetch(log, prev) case None => None case Some(e) => Some((prev, e.term))
    else Some((0, 0))
  }

  function AcceptEntries(st: Store, r: AppendRequest): Store {
    var log := InsertList(st.log, r.entryList);
    st.(log := log,
        commitIndex := if r.commitEntryIndex > st.commitIndex then Min(r.commitEntryIndex, log.maximumIndex) else st.commitIndex)
  }

  function HandleAppendRequest(n: Node, r: AppendRequest): (Node, Option<AppendResponse>) {
    if n.role == Dead then (n, None)
    else
      var n1 := if r.term > n.currentTerm then BecomeFollower(n, r.term) else n;
      if r.term != n1.currentTerm then
        (n1, Some(AppendResponse(n1.currentTerm, n.id, 0, 0, n.store.commitIndex, false)))
      else
        var n2 := if n1.role != Follower then BecomeFollower(n1, r.term) else n1;
        match Matches(n2.store.log, r)
        case None => (n2, None)
        case Some(true) =>
          var n3 := n2.(store := AcceptEntries(n2.store, r));
          (n3, Some(AppendResponse(n3.currentTerm, n.id, 0, 0, n3.store.commitIndex, true)))
        case Some(false) =>
          match Conflict(n2.store.log, r.prevEntryIndex)
          case None => (n2, None)
          case Some(c) => (n2, Some(AppendResponse(n2.currentTerm, n.id, c.0, c.1, n2.store.commitIndex, false)))
  }

  /** The followers that are known to hold the log up to k. */
  function Matched(n: Node, k: nat): set<Id> {
    set p | p in n.peers && p in n.matchIndex && n.matchIndex[p] >= k
  }

  function HeldByMajority(n: Node, k: nat): bool {
    Majority(1 + |Matched(n, k)|, n.peers)
  }

  /** The greatest index up to k, above the commit index, that a majority holds. */
  function CommitTarget(n: Node, k: nat): nat {
    if k <= n.store.commitIndex then n.store.commitIndex
    else if HeldByMajority(n, k) then k
    else CommitTarget(n, k - 1)
  }

  /** What the leader remembers of a request it has sent. */
  datatype Sent = Sent(term: nat, next: nat, length: nat)

  function AdvanceFollower(n: Node, peer: Id, sent: Sent): Node {
    var next := sent.next + sent.length;
    n.(nextIndex := n.nextIndex[peer := next],
       matchIndex := if next > 0 && (peer !in n.matchIndex || next - 1 > n.matchIndex[peer])
                     then n.matchIndex[peer := next - 1] else n.matchIndex)
  }

  function BackOff(n: Node, peer: Id, r: AppendResponse): Node {
    if r.conflictEntryTerm > 0 then
      match FetchLastIndexOfTerm(n.store.log, r.conflictEntryTerm)
      case NoSpecificTerm => n.(nextIndex := n.nextIndex[peer := r.conflictEntryIndex])
      case EntryMissing => n
      case FoundAt(k) => n.(nextIndex := n.nextIndex[peer := k + 1])
    else n.(nextIndex := n.nextIndex[peer := if r.conflictEntryIndex == 0 then 1 else r.conflictEntryIndex])
  }

  function HandleAppendResponse(n: Node, peer: Id, sent: Sent, r: AppendResponse): Node {
    if n.role != Leader then n
    else if r.term > sent.term then BecomeFollower(n, r.term)
    else if r.term == sent.term then
      if r.success then
        var n1 := AdvanceFollower(n, peer, sent);
        n1.(store := n1.store.(commitIndex := CommitTarget(n1, Max(n1))))
      else BackOff(n, peer, r)
    else n
  }

  /** The commit loop: the new commit index is the greatest index that a majority holds, if that is
      above the old one; every index in between is then held by a majority too. */
  lemma {:induction false} CommitTargetIsGreatest(n: Node, k: nat)
    ensures var c := CommitTarget(n, k);
            && n.store.commitIndex <= c && (c <= k || c == n.store.commitIndex)
            && (c > n.store.commitIndex ==> HeldByMajority(n, c))
            && (forall i :: c < i <= k ==> !HeldByMajority(n, i))
            && (forall i :: n.store.commitIndex < i <= c ==> HeldByMajority(n, i))
  {
    if k > n.store.commitIndex {
      if HeldByMajority(n, k) {
        forall i | n.store.commitIndex < i <= k ensures HeldByMajority(n, i) {
          MatchedShrinks(n, i, k);
        }
      } else {
        CommitTargetIsGreatest(n, k - 1);
      }
    }
  }

  lemma MatchedShrinks(n: Node, i: nat, k: nat)
    requires i <= k
    ensures Matched(n, k) <= Matched(n, i) && |Matched(n, k)| <= |Matched(n, i)|
  {
    SubsetIsSmaller(Matched(n, k), Matched(n, i));
  }

  lemma SubsetIsSmaller<T>(a: set<T>, b: set<T>)
    requires a <= b
    ensures |a| <= |b|
  {
    assert b == a + (b - a);
  }

  /** A node retreats: it returns to an earlier term, or gives up leading in the term that it leads. */
  ghost predicate Retreats(a: Node, b: Node) {
    b.currentTerm < a.currentTerm || (b.currentTerm == a.currentTerm && a.role == Leader && b.role != Leader)
  }

  /** An answer whose term is above its request's is timely for a candidate that is not past that term. */
  predicate VoteIsTimely(n: Node, b: nat, r: VoteResponse)
    requires b < |n.ballots|
  {
    n.role == Candidate && r.term > n.ballots[b].term ==> r.term >= n.currentTerm
  }

  /** It is timely for a leader that has not reached that term. */
  predicate AppendIsTimely(n: Node, sent: Sent, r: AppendResponse) {
    n.role == Leader && r.term > sent.term ==> r.term > n.currentTerm
  }

  /** The reply handlers compare an answer with the term of its request only.  They make a node retreat
      exactly when the answer is not timely. */
  lemma VoteResponseRetreatsIff(n: Node, b: nat, peer: Id, r: VoteResponse, initial: seq<Command>)
    requires b < |n.ballots|
    ensures Retreats(n, HandleVoteResponse(n, b, peer, r, initial)) <==> !VoteIsTimely(n, b, r)
  {
  }

  lemma AppendResponseRetreatsIff(n: Node, peer: Id, sent: Sent, r: AppendResponse)
    ensures Retreats(n, HandleAppendResponse(n, peer, sent, r)) <==> !AppendIsTimely(n, sent, r)
  {
  }

  /** On a dense log a slice inside the log is exactly the contiguous run of its entries. */
  lemma {:induction false} SliceIsRun(log: Log, from: nat, length: nat)
    requires Dense(log) && from + length <= log.maximumIndex
    ensures var s := Slice(log, from, length);
            && s.Some? && |s.value| == length && Contiguous(s.value, from)
            && forall i :: 0 <= i < length ==> s.value[i] == log.entries[from + 1 + i]
  {
    if length > 0 {
      SliceIsRun(log, from, length - 1);
    }
  }
}

/** Over every run, whoever leads and writes: what a node knows of the others is true, and what it has
    committed is held by a majority. */
module Holding {
  import opened Types
  import opened LogStorage
  import opened StateMap
  import opened NodeStore
  import opened RaftNode
  import opened NodeSteps
  import opened Cluster
  import opened ElectionSafety
  import opened LogSafety
  import opened ClusterTheorems

  ghost function LogOf(s: System, n: Id): Log
    requires n in s.nodes
  {
    s.nodes[n].store.log
  }

  ghost function Holders(s: System, k: nat): set<Id> {
    set n | n in s.nodes && Max(s.nodes[n]) >= k
  }

  /** The log of more than half of the nodes reaches k. */
  ghost predicate Held(s: System, k: nat) {
    2 * |Holders(s, k)| > |s.nodes|
  }

  ghost predicate MatchesWithin(s: System) {
    forall n, p :: n in s.nodes && p in s.nodes && p in s.nodes[n].matchIndex ==> s.nodes[n].matchIndex[p] <= Max(s.nodes[p])
  }

  ghost predicate Commits(s: System) {
    forall n :: n in s.nodes ==> Held(s, s.nodes[n].store.commitIndex)
  }

  /** An append request promises no more than a majority holds. */
  ghost predicate Promises(s: System) {
    forall m :: m in s.net && m.AppendAsk? ==> Held(s, m.request.commitEntryIndex)
  }

  ghost predicate HoldingInv(s: System) {
    MatchesWithin(s) && Commits(s) && Promises(s)
  }

  /** A batch is a slice of a log. */
  ghost predicate SliceOf(log: Log, r: AppendRequest) {
    && r.prevEntryIndex + |r.entryList| <= log.maximumIndex
    && forall i :: r.prevEntryIndex < i <= r.prevEntryIndex + |r.entryList| ==>
      i in log.entries && r.entryList[i - r.prevEntryIndex - 1] == log.entries[i]
  }

  // ---------------------------------------------------------------------------------------------
  // Facts about holders
  // ---------------------------------------------------------------------------------------------

  lemma HoldersGrow(s: System, s': System, k: nat)
    requires Onward(s, s') && Held(s, k)
    ensures Held(s', k)
  {
    SubsetIsSmaller(Holders(s, k), Holders(s', k));
  }

  lemma HeldBelow(s: System, k: nat, j: nat)
    requires Held(s, k) && j <= k
    ensures Held(s, j)
  {
    SubsetIsSmaller(Holders(s, k), Holders(s, j));
  }

  /** What a node counts as a majority is one. */
  lemma MajorityHolds(s: System, l: Id, n: Node, k: nat)
    requires l in s.nodes && n.peers == s.nodes.Keys - {l} && k <= Max(s.nodes[l]) && HeldByMajority(n, k)
    requires forall p :: p in n.matchIndex && p in s.nodes && p != l ==> n.matchIndex[p] <= Max(s.nodes[p])
    ensures Held(s, k)
  {
    PeersPlusSelf(s, l);
    var m := Matched(n, k);
    assert l !in m;
    assert |m + {l}| == |m| + 1;
    SubsetIsSmaller(m + {l}, Holders(s, k));
  }

  // ---------------------------------------------------------------------------------------------
  // Every step keeps what is known and committed true
  // ---------------------------------------------------------------------------------------------

  /** One node changes, and nothing is sent. */
  ghost predicate Changed(s: System, s': System, n: Id, b: Node) {
    n in s.nodes && s'.nodes == s.nodes[n := b] && s'.net == s.net && Onward(s, s')
  }

  lemma ChangeKeepsHolding(s: System, s': System, n: Id, b: Node)
    requires HoldingInv(s) && Changed(s, s', n, b)
    requires b.store.commitIndex == s.nodes[n].store.commitIndex || Held(s, b.store.commitIndex)
    requires forall p :: p in b.matchIndex && p in s.nodes ==> b.matchIndex[p] <= Max(s.nodes[p])
    ensures HoldingInv(s')
  {
    hide Held;
    ChangeKeepsMatches(s, s', n, b);
    hide Onward;
    forall k | k in s'.nodes ensures Held(s', s'.nodes[k].store.commitIndex) {
      HoldersGrow(s, s', s'.nodes[k].store.commitIndex);
    }
    forall m | m in s'.net && m.AppendAsk? ensures Held(s', m.request.commitEntryIndex) {
      HoldersGrow(s, s', m.request.commitEntryIndex);
    }
  }

  lemma ChangeKeepsMatches(s: System, s': System, n: Id, b: Node)
    requires MatchesWithin(s) && Changed(s, s', n, b)
    requires forall p :: p in b.matchIndex && p in s.nodes ==> b.matchIndex[p] <= Max(s.nodes[p])
    ensures MatchesWithin(s')
  {
    forall k, p | k in s'.nodes && p in s'.nodes && p in s'.nodes[k].matchIndex
      ensures s'.nodes[k].matchIndex[p] <= Max(s'.nodes[p])
    {
      assert Max(s.nodes[p]) <= Max(s'.nodes[p]);
    }
  }

  lemma SameKeepsHolding(s: System, s': System, n: Id, b: Node)
    requires HoldingInv(s) && Changed(s, s', n, b)
    requires b.store.commitIndex == s.nodes[n].store.commitIndex && b.matchIndex == s.nodes[n].matchIndex
    ensures HoldingInv(s')
  {
    hide Held, Onward, Commits, Promises;
    ChangeKeepsHolding(s, s', n, b);
  }

  lemma SendKeepsHolding(s: System, m: Message)
    requires HoldingInv(s) && (m.AppendAsk? ==> Held(s, m.request.commitEntryIndex))
    ensures HoldingInv(Send(s, m))
  {
    hide Held;
    var s' := Send(s, m);
    forall n | n in s'.nodes ensures Held(s', s'.nodes[n].store.commitIndex) {
      SendKeepsHeld(s, m, s.nodes[n].store.commitIndex);
    }
    forall k | k in s'.net && k.AppendAsk? ensures Held(s', k.request.commitEntryIndex) {
      SendKeepsHeld(s, m, k.request.commitEntryIndex);
    }
  }

  lemma SendKeepsHeld(s: System, m: Message, k: nat)
    requires Held(s, k)
    ensures Held(Send(s, m), k)
  {
    assert Holders(Send(s, m), k) == Holders(s, k);
  }

  lemma AppendRequestCommits(n: Node, r: AppendRequest)
    ensures var c := HandleAppendRequest(n, r).0.store.commitIndex;
            c == n.store.commitIndex || c <= r.commitEntryIndex
    ensures HandleAppendRequest(n, r).0.matchIndex == n.matchIndex
  {
    hide InsertList, Matches, Conflict;
  }

  lemma AnswerAppendKeepsHolding(s: System, m: Message)
    requires ClusterInv(s) && HoldingInv(s) && Possible(s, AnswerAppend(m))
    ensures HoldingInv(Next(s, AnswerAppend(m)))
  {
    hide ElectionInv, LogInv, HandleAppendRequest, HoldingInv, Onward, Held;
    var n := s.nodes[m.dst];
    var (b, r) := HandleAppendRequest(n, m.request);
    var s1 := Update(s, b);
    KeysAreIds(s, m.dst);
    AppendRequestMoves(n, m.request);
    AppendRequestCommits(n, m.request);
    AnswerAppendMovesOn(s, m);
    OnwardBeforeSend(s, s1, Next(s, AnswerAppend(m)));
    FactsOf(s, m.dst, m);
    if b.store.commitIndex != n.store.commitIndex {
      HeldBelow(s, m.request.commitEntryIndex, b.store.commitIndex);
    }
    ChangeKeepsHolding(s, s1, m.dst, b);
    if r.Some? {
      SendKeepsHolding(s1, AppendAnswer(m.src, m.dst, m.sent, r.value));
    }
  }

  /** What the invariant says about one node and one message. */
  lemma FactsOf(s: System, n: Id, m: Message)
    requires HoldingInv(s) && n in s.nodes
    ensures Held(s, s.nodes[n].store.commitIndex)
    ensures forall p :: p in s.nodes[n].matchIndex && p in s.nodes ==> s.nodes[n].matchIndex[p] <= Max(s.nodes[p])
    ensures m in s.net && m.AppendAsk? ==> Held(s, m.request.commitEntryIndex)
  {
    hide Held;
  }

  lemma OnwardBeforeSend(s: System, s1: System, s2: System)
    requires Onward(s, s2) && s1.nodes == s2.nodes && s1.written == s2.written
    ensures Onward(s, s1)
  {
  }

  lemma AnswerVoteKeepsHolding(s: System, m: Message)
    requires ClusterInv(s) && HoldingInv(s) && Possible(s, AnswerVote(m))
    ensures HoldingInv(Next(s, AnswerVote(m)))
  {
    hide ElectionInv, LogInv, HandleVoteRequest, HoldingInv, Onward;
    var (b, r) := HandleVoteRequest(s.nodes[m.dst], m.ask);
    KeysAreIds(s, m.dst);
    VoteRequestKeepsStore(s.nodes[m.dst], m.ask);
    VoteRequestKeepsMatch(s.nodes[m.dst], m.ask);
    AnswerVoteMovesOn(s, m);
    OnwardBeforeSend(s, Update(s, b), Next(s, AnswerVote(m)));
    SameKeepsHolding(s, Update(s, b), m.dst, b);
    if r.Some? {
      SendKeepsHolding(Update(s, b), VoteAnswer(m.src, m.ballot, m.dst, r.value));
    }
  }

  lemma VoteRequestKeepsMatch(n: Node, r: VoteRequest)
    ensures HandleVoteRequest(n, r).0.matchIndex == n.matchIndex
  {
  }

  lemma CountVoteKeepsHolding(s: System, a: Action)
    requires ClusterInv(s) && HoldingInv(s) && a.CountVote? && Enabled(s, a)
    ensures HoldingInv(Next(s, a))
  {
    hide ElectionInv, LogInv, HandleVoteResponse, HoldingInv, Onward, Gained, YesVotes;
    var before := s.nodes[a.m.src];
    var b := HandleVoteResponse(before, a.m.ballot, a.m.dst, a.m.answer, a.initial);
    KeysAreIds(s, a.m.src);
    StoreOf(s, a.m.src);
    CountVoteMovesOn(s, a);
    VoteResponseEffect(before, a.m.ballot, a.m.dst, a.m.answer, a.initial);
    VoteResponseKeepsMatch(before, a.m.ballot, a.m.dst, a.m.answer, a.initial);
    SameKeepsHolding(s, Next(s, a), a.m.src, b);
  }

  lemma VoteResponseKeepsMatch(n: Node, b: nat, peer: Id, r: VoteResponse, initial: seq<Command>)
    requires b < |n.ballots|
    ensures HandleVoteResponse(n, b, peer, r, initial).matchIndex == n.matchIndex
    ensures HandleVoteResponse(n, b, peer, r, initial).id == n.id
  {
  }

  lemma SendAppendKeepsHolding(s: System, a: Action)
    requires ClusterInv(s) && HoldingInv(s) && a.SendAppend? && Possible(s, a)
    ensures HoldingInv(Next(s, a))
  {
    hide ElectionInv, LogInv, HoldingInv, PrepareAppend, SliceOf, Held;
    PreparedIsSlice(s, a.n, a.dst, a.maximumLength);
    var r := PrepareAppend(s.nodes[a.n], a.dst, a.maximumLength).request;
    var m := AppendAsk(a.n, a.dst, Sent(a.startTerm, r.prevEntryIndex + 1, |r.entryList|), r);
    FactsOf(s, a.n, m);
    SendKeepsHolding(s, m);
  }

  lemma PreparedIsSlice(s: System, n: Id, dst: Id, maximumLength: nat)
    requires LogInv(s) && n in s.nodes && s.nodes[n].role == Leader && dst in s.nodes[n].peers
    ensures PrepareAppend(s.nodes[n], dst, maximumLength).Batch?
    ensures var r := PrepareAppend(s.nodes[n], dst, maximumLength).request;
            SliceOf(LogOf(s, n), r) && r.commitEntryIndex == s.nodes[n].store.commitIndex
  {
    hide LogInv, PrepareAppend, Known, WellFormed, Window, SliceOf;
    StoreOf(s, n);
    BatchIsSliceOf(s.nodes[n], dst, maximumLength);
  }

  lemma BatchIsSliceOf(n: Node, peer: Id, maximumLength: nat)
    requires WellFormed(n.store) && Window(n) && n.role == Leader && peer in n.peers
    ensures PrepareAppend(n, peer, maximumLength).Batch?
    ensures var r := PrepareAppend(n, peer, maximumLength).request;
            SliceOf(n.store.log, r) && r.commitEntryIndex == n.store.commitIndex
  {
    hide PrepareAppend, SliceOf, Contiguous;
    BatchIsSlice(n, peer, maximumLength);
    SliceByIndex(n.store.log, PrepareAppend(n, peer, maximumLength).request);
  }

  lemma SliceByIndex(log: Log, r: AppendRequest)
    requires Dense(log) && r.prevEntryIndex + |r.entryList| <= log.maximumIndex
    requires forall i :: 0 <= i < |r.entryList| ==> r.entryList[i] == log.entries[r.prevEntryIndex + 1 + i]
    ensures SliceOf(log, r)
  {
    forall i | r.prevEntryIndex < i <= r.prevEntryIndex + |r.entryList|
      ensures i in log.entries && r.entryList[i - r.prevEntryIndex - 1] == log.entries[i]
    {
      var k := i - r.prevEntryIndex - 1;
      assert r.entryList[k] == log.entries[r.prevEntryIndex + 1 + k];
    }
  }

  /** A leader that counts an answer learns at most what is true, and its new commit index is held by a
      majority. */
  lemma CountAppendKeepsHolding(s: System, a: Action)
    requires ClusterInv(s) && HoldingInv(s) && a.CountAppend? && Enabled(s, a)
    ensures HoldingInv(Next(s, a))
  {
    hide ElectionInv, LogInv, HandleAppendResponse, HoldingInv, Onward, Held, HeldByMajority, AnswerWithin;
    var n := s.nodes[a.m.src];
    var b := HandleAppendResponse(n, a.m.dst, a.m.sent, a.m.response);
    KeysAreIds(s, a.m.src);
    PeersAreOthers(s, a.m.src);
    FlightOf(s, a.m);
    CountAppendMovesOn(s, a);
    AppendResponsePosture(n, a.m.dst, a.m.sent, a.m.response);
    FactsOf(s, a.m.src, a.m);
    LearnsTruth(s, a.m.src, a.m);
    if b.store.commitIndex != n.store.commitIndex {
      MajorityHolds(s, a.m.src, b, b.store.commitIndex);
    }
    ChangeKeepsHolding(s, Next(s, a), a.m.src, b);
  }

  lemma PeersAreOthers(s: System, l: Id)
    requires ElectionInv(s) && l in s.nodes
    ensures s.nodes[l].peers == s.nodes.Keys - {l}
  {
  }

  lemma LearnsTruth(s: System, n: Id, m: Message)
    requires n in s.nodes && m.AppendAnswer? && AnswerWithin(s, m) && m.src == n
    requires forall p :: p in s.nodes[n].matchIndex && p in s.nodes ==> s.nodes[n].matchIndex[p] <= Max(s.nodes[p])
    ensures var before, b := s.nodes[n], HandleAppendResponse(s.nodes[n], m.dst, m.sent, m.response);
            && (forall p :: p in b.matchIndex && p in s.nodes ==> b.matchIndex[p] <= Max(s.nodes[p]))
            && b.peers == before.peers
            && (b.store.commitIndex != before.store.commitIndex ==>
                  HeldByMajority(b, b.store.commitIndex) && b.store.commitIndex <= Max(before))
  {
    var before := s.nodes[n];
    if m.response.success && m.response.term == m.sent.term {
      var n1 := AdvanceFollower(before, m.dst, m.sent);
      CommitTargetIsGreatest(n1, Max(n1));
      var c := CommitTarget(n1, Max(n1));
      assert c > before.store.commitIndex ==> HeldByMajority(n1, c);
      assert Matched(n1.(store := n1.store.(commitIndex := c)), c) == Matched(n1, c);
    }
  }

  lemma LocalKeepsHolding(s: System, a: Action)
    requires ClusterInv(s) && HoldingInv(s) && (a.Timeout? || a.Apply? || a.BackUp?) && Possible(s, a)
    ensures HoldingInv(Next(s, a))
  {
    hide ElectionInv, LogInv, HoldingInv, Onward, UpdateFromLog;
    KeysAreIds(s, a.n);
    LocalMovesOn(s, a);
    SameKeepsHolding(s, Next(s, a), a.n, Next(s, a).nodes[a.n]);
  }

  lemma ClientAppendKeepsHolding(s: System, n: Id, command: Command)
    requires ClusterInv(s) && HoldingInv(s) && Possible(s, ClientAppend(n, command))
    ensures HoldingInv(Next(s, ClientAppend(n, command)))
  {
    hide ElectionInv, LogInv, HoldingInv, Onward, Gained, Append;
    KeysAreIds(s, n);
    ClientAppendMovesOn(s, n, command);
    SameKeepsHolding(s, Next(s, ClientAppend(n, command)), n, Next(s, ClientAppend(n, command)).nodes[n]);
  }

  /** Every step of every run keeps what each node knows of the others true, and commits held. */
  lemma StepKeepsHolding(s: System, a: Action)
    requires ClusterInv(s) && HoldingInv(s) && Enabled(s, a)
    ensures HoldingInv(Next(s, a))
  {
    hide ElectionInv, LogInv, Next, MatchesWithin, Commits, Promises;
    match a
    case Timeout(_) => LocalKeepsHolding(s, a);
    case AskVote(_, _, _) => AskVoteKeepsHolding(s, a);
    case AnswerVote(m) => AnswerVoteKeepsHolding(s, m);
    case CountVote(_, _) => CountVoteKeepsHolding(s, a);
    case SendAppend(_, _, _, _) => SendAppendKeepsHolding(s, a);
    case AnswerAppend(m) => AnswerAppendKeepsHolding(s, m);
    case CountAppend(_) => CountAppendKeepsHolding(s, a);
    case ClientAppend(n, command) => ClientAppendKeepsHolding(s, n, command);
    case Apply(_) => LocalKeepsHolding(s, a);
    case BackUp(_) => LocalKeepsHolding(s, a);
  }

  lemma AskVoteKeepsHolding(s: System, a: Action)
    requires HoldingInv(s) && a.AskVote? && Possible(s, a)
    ensures HoldingInv(Next(s, a))
  {
    hide HoldingInv;
    SendKeepsHolding(s, VoteAsk(a.n, a.ballot, a.dst, AskForVote(s.nodes[a.n], a.ballot).value));
  }
}

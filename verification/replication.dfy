/** Over every run in which whoever writes has a log no shorter than any other's, whatever terms pass and
    whoever leads, the logs form a chain of prefixes.  Messages may be lost, late or repeated throughout. */
module Replication {
  import opened Types
  import opened LogStorage
  import opened StateMap
  import opened NodeStore
  import opened RaftNode
  import opened NodeSteps
  import opened Cluster
  import opened ElectionSafety
  import opened LogSafety
  import opened ClusterTheorems
  import opened Holding

  ghost predicate Followers(s: System, l: Id)
    requires l in s.nodes
  {
    forall n :: n in s.nodes ==> Prefix(LogOf(s, n), LogOf(s, l))
  }

  /** An append request reaches its addressee too late. */
  ghost predicate Late(s: System, m: Message)
    requires m.AppendAsk?
  {
    m.dst in s.nodes && m.request.term < s.nodes[m.dst].currentTerm
  }

  ghost predicate Batches(s: System, l: Id)
    requires l in s.nodes
  {
    forall m :: m in s.net && m.AppendAsk? ==> SliceOf(LogOf(s, l), m.request) || Late(s, m)
  }

  ghost predicate PrefixInv(s: System, l: Id) {
    l in s.nodes && Followers(s, l) && Batches(s, l)
  }

  /** The logs form a chain: there is one that all others, and all batches under way, are parts of. */
  ghost predicate Chain(s: System) {
    exists l :: PrefixInv(s, l)
  }

  /** The node whose log a step may write new entries to: a client's command is appended, or an elected
      leader's lock service writes at once. */
  function Writer(a: Action): Option<Id> {
    if a.ClientAppend? then Some(a.n) else if a.CountVote? && a.initial != [] then Some(a.m.src) else None
  }

  ghost predicate Longest(s: System, l: Id) {
    l in s.nodes && forall n :: n in s.nodes ==> Max(s.nodes[n]) <= Max(s.nodes[l])
  }

  /** Whoever writes has a log that is no shorter than any other. */
  ghost predicate ByLongest(s: System, a: Action) {
    Writer(a).Some? ==> Longest(s, Writer(a).value)
  }

  ghost predicate ChainRun(s1: System, actions: seq<Action>, s2: System)
    decreases |actions|
  {
    if actions == [] then s1 == s2
    else Enabled(s1, actions[0]) && ByLongest(s1, actions[0]) && ChainRun(Next(s1, actions[0]), actions[1..], s2)
  }

  /** Nobody but node l writes. */
  predicate SoleWriter(a: Action, l: Id) {
    Writer(a).Some? ==> Writer(a).value == l
  }

  ghost predicate OneWriter(actions: seq<Action>, l: Id) {
    forall a :: a in actions ==> SoleWriter(a, l)
  }

  /** Any state of the cluster in which the logs form a chain. */
  ghost predicate ChainStarts(s: System) {
    Reachable(s) && Chain(s)
  }

  // ---------------------------------------------------------------------------------------------
  // Facts about prefixes and holders
  // ---------------------------------------------------------------------------------------------

  lemma PrefixTransitive(a: Log, b: Log, c: Log)
    requires Prefix(a, b) && Prefix(b, c)
    ensures Prefix(a, c)
  {
  }

  lemma PrefixReflexive(log: Log)
    requires Dense(log)
    ensures Prefix(log, log)
  {
  }

  lemma SliceGrows(a: Log, b: Log, r: AppendRequest)
    requires Prefix(a, b) && SliceOf(a, r)
    ensures SliceOf(b, r)
  {
  }

  // ---------------------------------------------------------------------------------------------
  // Every step keeps logs prefixes of the only writer's
  // ---------------------------------------------------------------------------------------------

  lemma InsertKeepsPrefix(log: Log, r: AppendRequest, leader: Log)
    requires Dense(log) && Dense(leader) && Prefix(log, leader)
    requires Contiguous(r.entryList, r.prevEntryIndex) && r.prevEntryIndex <= log.maximumIndex
    requires SliceOf(leader, r)
    ensures Prefix(InsertList(log, r.entryList), leader) && Prefix(log, InsertList(log, r.entryList))
  {
    hide InsertList, Contiguous, Prefix, SliceOf, Dense;
    InsertListEffect(log, r.entryList, r.prevEntryIndex);
    var b := InsertList(log, r.entryList);
    InsertedIsPrefix(log, r, leader, b);
  }

  lemma SliceIsWithin(leader: Log, r: AppendRequest)
    requires SliceOf(leader, r)
    ensures r.prevEntryIndex + |r.entryList| <= leader.maximumIndex
  {
  }

  lemma SliceAt(leader: Log, r: AppendRequest, i: nat)
    requires SliceOf(leader, r) && r.prevEntryIndex < i <= r.prevEntryIndex + |r.entryList|
    ensures i in leader.entries && r.entryList[i - r.prevEntryIndex - 1] == leader.entries[i]
  {
  }

  lemma InsertedIsPrefix(log: Log, r: AppendRequest, leader: Log, b: Log)
    requires Dense(log) && Dense(b) && Prefix(log, leader) && SliceOf(leader, r)
    requires var last := r.prevEntryIndex + |r.entryList|;
             && b.maximumIndex == (if last > log.maximumIndex then last else log.maximumIndex)
             && (forall i :: r.prevEntryIndex < i <= last ==> b.entries[i] == r.entryList[i - r.prevEntryIndex - 1])
             && (forall i :: i in log.entries && !(r.prevEntryIndex < i <= last) ==> b.entries[i] == log.entries[i])
    requires r.prevEntryIndex <= log.maximumIndex
    ensures Prefix(b, leader) && Prefix(log, b)
  {
    hide SliceOf;
    assert r.prevEntryIndex + |r.entryList| <= leader.maximumIndex by { SliceIsWithin(leader, r); }
    var last := r.prevEntryIndex + |r.entryList|;
    forall i | 1 <= i <= b.maximumIndex ensures i in b.entries && i in leader.entries && b.entries[i] == leader.entries[i] {
      assert i in b.entries;
      if r.prevEntryIndex < i <= last {
        SliceAt(leader, r, i);
      } else {
        assert i in log.entries && b.entries[i] == log.entries[i];
      }
    }
  }

  /** A node that accepts a slice of a longer log stays a prefix of that log, and keeps its own entries. */
  lemma AcceptReplicates(st: Store, r: AppendRequest, leader: Log)
    requires WellFormed(st) && Dense(leader) && Prefix(st.log, leader)
    requires Contiguous(r.entryList, r.prevEntryIndex) && r.prevEntryIndex <= st.log.maximumIndex && SliceOf(leader, r)
    ensures var st' := AcceptEntries(st, r);
            && Prefix(st'.log, leader) && Prefix(st.log, st'.log)
            && st'.log.maximumIndex >= r.prevEntryIndex + |r.entryList|
            && (st'.commitIndex == st.commitIndex || st'.commitIndex <= r.commitEntryIndex)
  {
    InsertKeepsPrefix(st.log, r, leader);
    AcceptMovesForward(st, r);
  }

  lemma AppendRequestReplicates(n: Node, r: AppendRequest, leader: Log)
    requires WellFormed(n.store) && Dense(leader) && Prefix(n.store.log, leader)
    requires Contiguous(r.entryList, r.prevEntryIndex) && (SliceOf(leader, r) || r.term < n.currentTerm)
    ensures var b := HandleAppendRequest(n, r).0;
            Prefix(b.store.log, leader) && Prefix(n.store.log, b.store.log)
  {
    hide AcceptEntries, Matches, Conflict, SliceOf, Prefix;
    MatchesAndConflictAreFound(n.store.log, r);
    PrefixReflexive(n.store.log);
    if r.term >= n.currentTerm && Matches(n.store.log, r).value {
      AcceptReplicates(n.store, r, leader);
    }
  }

  lemma ChangeKeepsPrefixes(s: System, s': System, l: Id, n: Id, b: Node)
    requires PrefixInv(s, l) && Changed(s, s', n, b)
    requires if n == l then Prefix(LogOf(s, l), b.store.log) else Prefix(b.store.log, LogOf(s, l))
    ensures PrefixInv(s', l)
  {
    hide Prefix;
    forall k | k in s'.nodes ensures Prefix(LogOf(s', k), LogOf(s', l)) {
      if k == l {
        PrefixReflexive(LogOf(s', l));
      } else if n == l {
        PrefixTransitive(LogOf(s, k), LogOf(s, l), b.store.log);
      }
    }
    ChangeKeepsBatches(s, s', l, n, b);
  }

  lemma ChangeKeepsBatches(s: System, s': System, l: Id, n: Id, b: Node)
    requires l in s.nodes && Batches(s, l) && Changed(s, s', n, b)
    requires n == l ==> Prefix(LogOf(s, l), b.store.log)
    ensures Batches(s', l)
  {
    hide Prefix, SliceOf;
    forall m | m in s'.net && m.AppendAsk? ensures SliceOf(LogOf(s', l), m.request) || Late(s', m) {
      if Late(s, m) {
        assert Late(s', m);
      } else if n == l {
        SliceGrows(LogOf(s, l), b.store.log, m.request);
      }
    }
  }

  lemma SameLogKeepsPrefixes(s: System, s': System, l: Id, n: Id, b: Node)
    requires PrefixInv(s, l) && Changed(s, s', n, b) && b.store.log == LogOf(s, n)
    ensures PrefixInv(s', l)
  {
    hide Prefix, SliceOf, Batches;
    PrefixReflexive(LogOf(s, n));
    ChangeKeepsPrefixes(s, s', l, n, b);
  }

  lemma SendKeepsPrefixes(s: System, l: Id, m: Message)
    requires PrefixInv(s, l) && (m.AppendAsk? ==> SliceOf(LogOf(s, l), m.request))
    ensures PrefixInv(Send(s, m), l)
  {
    hide SliceOf, Prefix;
    forall k | k in Send(s, m).net && k.AppendAsk? ensures SliceOf(LogOf(s, l), k.request) || Late(Send(s, m), k) {
      if k != m {
        assert Late(s, k) ==> Late(Send(s, m), k);
      }
    }
  }

  lemma BatchFacts(s: System, l: Id, n: Id, m: Message)
    requires PrefixInv(s, l) && n in s.nodes
    ensures Prefix(LogOf(s, n), LogOf(s, l))
    ensures m in s.net && m.AppendAsk? && m.dst == n ==> SliceOf(LogOf(s, l), m.request) || m.request.term < s.nodes[n].currentTerm
  {
    hide Prefix, SliceOf;
  }

  lemma WriterIsThere(s: System, l: Id)
    requires PrefixInv(s, l)
    ensures l in s.nodes
  {
  }

  lemma AnswerAppendKeepsPrefixes(s: System, l: Id, m: Message)
    requires ClusterInv(s) && PrefixInv(s, l) && Possible(s, AnswerAppend(m))
    ensures PrefixInv(Next(s, AnswerAppend(m)), l)
  {
    hide ElectionInv, LogInv, HandleAppendRequest, PrefixInv, Onward, Prefix, SliceOf, WellFormed, Contiguous, Window, Known;
    var n := s.nodes[m.dst];
    var (b, r) := HandleAppendRequest(n, m.request);
    var s1 := Update(s, b);
    KeysAreIds(s, m.dst);
    AppendRequestMoves(n, m.request);
    AnswerAppendMovesOn(s, m);
    OnwardBeforeSend(s, s1, Next(s, AnswerAppend(m)));
    WriterIsThere(s, l);
    StoreOf(s, m.dst);
    StoreOf(s, l);
    FlightOf(s, m);
    BatchFacts(s, l, m.dst, m);
    AppendRequestReplicates(n, m.request, LogOf(s, l));
    ChangeKeepsPrefixes(s, s1, l, m.dst, b);
    if r.Some? {
      SendKeepsPrefixes(s1, l, AppendAnswer(m.src, m.dst, m.sent, r.value));
    }
  }

  lemma AnswerVoteKeepsPrefixes(s: System, l: Id, m: Message)
    requires ClusterInv(s) && PrefixInv(s, l) && Possible(s, AnswerVote(m))
    ensures PrefixInv(Next(s, AnswerVote(m)), l)
  {
    hide ElectionInv, LogInv, HandleVoteRequest, PrefixInv, Onward, Window, Known;
    var (b, r) := HandleVoteRequest(s.nodes[m.dst], m.ask);
    var s1 := Update(s, b);
    KeysAreIds(s, m.dst);
    StoreOf(s, m.dst);
    VoteRequestKeepsStore(s.nodes[m.dst], m.ask);
    AnswerVoteMovesOn(s, m);
    OnwardBeforeSend(s, s1, Next(s, AnswerVote(m)));
    SameLogKeepsPrefixes(s, s1, l, m.dst, b);
    if r.Some? {
      SendKeepsPrefixes(s1, l, VoteAnswer(m.src, m.ballot, m.dst, r.value));
    }
  }

  lemma CountVoteKeepsPrefixes(s: System, l: Id, a: Action)
    requires ClusterInv(s) && PrefixInv(s, l) && a.CountVote? && Enabled(s, a) && SoleWriter(a, l)
    ensures PrefixInv(Next(s, a), l)
  {
    hide ElectionInv, LogInv, HandleVoteResponse, PrefixInv, Onward, Gained, YesVotes, Prefix;
    var before := s.nodes[a.m.src];
    var b := HandleVoteResponse(before, a.m.ballot, a.m.dst, a.m.answer, a.initial);
    KeysAreIds(s, a.m.src);
    StoreOf(s, a.m.src);
    CountVoteMovesOn(s, a);
    VoteResponseKeepsMatch(before, a.m.ballot, a.m.dst, a.m.answer, a.initial);
    VoteResponseWrites(before, a.m.ballot, a.m.dst, a.m.answer, a.initial);
    BatchFacts(s, l, a.m.src, a.m);
    ChangeKeepsPrefixes(s, Next(s, a), l, a.m.src, b);
  }

  /** An election only adds to the log, and nothing when there is nothing to write at once. */
  lemma VoteResponseWrites(n: Node, b: nat, peer: Id, r: VoteResponse, initial: seq<Command>)
    requires WellFormed(n.store) && Window(n) && b < |n.ballots|
    ensures var after := HandleVoteResponse(n, b, peer, r, initial).store.log;
            Prefix(n.store.log, after) && (initial == [] ==> after == n.store.log)
  {
    VoteResponseEffect(n, b, peer, r, initial);
    PrefixReflexive(n.store.log);
  }

  lemma SendAppendKeepsPrefixes(s: System, l: Id, a: Action)
    requires ClusterInv(s) && PrefixInv(s, l) && a.SendAppend? && Possible(s, a)
    ensures PrefixInv(Next(s, a), l)
  {
    hide ElectionInv, LogInv, PrefixInv, PrepareAppend, SliceOf, Prefix;
    PreparedIsSlice(s, a.n, a.dst, a.maximumLength);
    var r := PrepareAppend(s.nodes[a.n], a.dst, a.maximumLength).request;
    var m := AppendAsk(a.n, a.dst, Sent(a.startTerm, r.prevEntryIndex + 1, |r.entryList|), r);
    WriterIsThere(s, l);
    BatchFacts(s, l, a.n, m);
    SliceGrows(LogOf(s, a.n), LogOf(s, l), r);
    SendKeepsPrefixes(s, l, m);
  }

  lemma CountAppendKeepsPrefixes(s: System, l: Id, a: Action)
    requires ClusterInv(s) && PrefixInv(s, l) && a.CountAppend? && Enabled(s, a)
    ensures PrefixInv(Next(s, a), l)
  {
    hide ElectionInv, LogInv, HandleAppendResponse, PrefixInv, Onward;
    var n := s.nodes[a.m.src];
    KeysAreIds(s, a.m.src);
    StoreOf(s, a.m.src);
    FlightOf(s, a.m);
    CountAppendMovesOn(s, a);
    AppendResponsePosture(n, a.m.dst, a.m.sent, a.m.response);
    AppendResponseEffect(n, a.m.dst, a.m.sent, a.m.response);
    SameLogKeepsPrefixes(s, Next(s, a), l, a.m.src, HandleAppendResponse(n, a.m.dst, a.m.sent, a.m.response));
  }

  lemma LocalKeepsPrefixes(s: System, l: Id, a: Action)
    requires ClusterInv(s) && PrefixInv(s, l) && (a.Timeout? || a.Apply? || a.BackUp?) && Possible(s, a)
    ensures PrefixInv(Next(s, a), l)
  {
    hide ElectionInv, LogInv, PrefixInv, Onward, UpdateFromLog;
    KeysAreIds(s, a.n);
    LocalMovesOn(s, a);
    SameLogKeepsPrefixes(s, Next(s, a), l, a.n, Next(s, a).nodes[a.n]);
  }

  lemma ClientAppendKeepsPrefixes(s: System, l: Id, command: Command)
    requires ClusterInv(s) && PrefixInv(s, l) && Possible(s, ClientAppend(l, command))
    ensures PrefixInv(Next(s, ClientAppend(l, command)), l)
  {
    hide ElectionInv, LogInv, PrefixInv, Onward, Gained, Append;
    var before := s.nodes[l];
    var b := before.(store := before.store.(log := Append(before.store.log, before.currentTerm, command)));
    KeysAreIds(s, l);
    StoreOf(s, l);
    ClientAppendMovesOn(s, l, command);
    ClientAppendEffect(before, command);
    ChangeKeepsPrefixes(s, Next(s, ClientAppend(l, command)), l, l, b);
  }

  /** Every step in which nobody else writes keeps every log a prefix of the writer's. */
  lemma StepKeepsPrefixes(s: System, l: Id, a: Action)
    requires ClusterInv(s) && PrefixInv(s, l) && Enabled(s, a) && SoleWriter(a, l)
    ensures PrefixInv(Next(s, a), l)
  {
    hide ElectionInv, LogInv, Next, PrefixInv;
    match a
    case Timeout(_) => LocalKeepsPrefixes(s, l, a);
    case AskVote(_, _, _) => AskVoteKeepsPrefixes(s, l, a);
    case AnswerVote(m) => AnswerVoteKeepsPrefixes(s, l, m);
    case CountVote(_, _) => CountVoteKeepsPrefixes(s, l, a);
    case SendAppend(_, _, _, _) => SendAppendKeepsPrefixes(s, l, a);
    case AnswerAppend(m) => AnswerAppendKeepsPrefixes(s, l, m);
    case CountAppend(_) => CountAppendKeepsPrefixes(s, l, a);
    case ClientAppend(_, command) => ClientAppendKeepsPrefixes(s, l, command);
    case Apply(_) => LocalKeepsPrefixes(s, l, a);
    case BackUp(_) => LocalKeepsPrefixes(s, l, a);
  }

  lemma AskVoteKeepsPrefixes(s: System, l: Id, a: Action)
    requires PrefixInv(s, l) && a.AskVote? && Possible(s, a)
    ensures PrefixInv(Next(s, a), l)
  {
    hide PrefixInv;
    SendKeepsPrefixes(s, l, VoteAsk(a.n, a.ballot, a.dst, AskForVote(s.nodes[a.n], a.ballot).value));
  }

  // ---------------------------------------------------------------------------------------------
  // Who may write
  // ---------------------------------------------------------------------------------------------

  /** Another log may take over as the one that all others are parts of exactly when it is as long. */
  lemma HandOverIff(s: System, l: Id, n: Id)
    requires PrefixInv(s, l) && n in s.nodes
    ensures PrefixInv(s, n) <==> Longest(s, n)
  {
    if Longest(s, n) {
      assert Prefix(LogOf(s, n), LogOf(s, l)) && Max(s.nodes[l]) <= Max(s.nodes[n]);
      assert Prefix(LogOf(s, l), LogOf(s, n));
      forall k | k in s.nodes ensures Prefix(LogOf(s, k), LogOf(s, n)) {
        PrefixTransitive(LogOf(s, k), LogOf(s, l), LogOf(s, n));
      }
      HandOverBatches(s, l, n);
    }
  }

  lemma HandOverBatches(s: System, l: Id, n: Id)
    requires l in s.nodes && n in s.nodes && Batches(s, l) && Prefix(LogOf(s, l), LogOf(s, n))
    ensures Batches(s, n)
  {
    hide SliceOf, Prefix;
    forall m | m in s.net && m.AppendAsk? ensures SliceOf(LogOf(s, n), m.request) || Late(s, m) {
      if SliceOf(LogOf(s, l), m.request) {
        SliceGrows(LogOf(s, l), LogOf(s, n), m.request);
      }
    }
  }

  /** The writer of a step, or whoever was the longest before. */
  lemma WriterTakesOver(s: System, l: Id, a: Action) returns (n: Id)
    requires PrefixInv(s, l) && ByLongest(s, a)
    ensures PrefixInv(s, n) && SoleWriter(a, n) && (SoleWriter(a, l) ==> n == l)
  {
    n := if Writer(a).Some? then Writer(a).value else l;
    if n != l {
      HandOverIff(s, l, n);
    }
  }

  /** A step that writes keeps the chain exactly when no log is longer than the writer's. */
  lemma WriteKeepsChainIff(s: System, a: Action, n: Id)
    requires ClusterInv(s) && Chain(s) && Enabled(s, a) && Writer(a) == Some(n)
    requires n in s.nodes && n in Next(s, a).nodes && Max(Next(s, a).nodes[n]) > Max(s.nodes[n])
    ensures Chain(Next(s, a)) <==> Longest(s, n)
  {
    hide ElectionInv, LogInv, PrefixInv, Next, Longest;
    var l :| PrefixInv(s, l);
    HandOverIff(s, l, n);
    if Longest(s, n) {
      StepKeepsPrefixes(s, n, a);
    } else {
      hide Enabled;
      if Chain(Next(s, a)) {
        var l' :| PrefixInv(Next(s, a), l');
        ForkedLog(s, a, l, n, l');
        assert false;
      }
    }
  }

  /** A new entry beside an existing one of the same index differs from it. */
  lemma ForkedLog(s: System, a: Action, l: Id, n: Id, l': Id)
    requires ClusterInv(s) && PrefixInv(s, l) && Enabled(s, a) && Writer(a) == Some(n) && !Longest(s, n)
    requires n in s.nodes && n in Next(s, a).nodes && Max(Next(s, a).nodes[n]) > Max(s.nodes[n])
    ensures !PrefixInv(Next(s, a), l')
  {
    hide ElectionInv, LogInv, Batches, Next, Possible, Prefix;
    var s' := Next(s, a);
    var i := Max(s.nodes[n]) + 1;
    LongerLog(s, l, n);
    WriteIsNew(s, a, n);
    StoreOf(s, l);
    if PrefixInv(s', l') {
      BatchFacts(s', l', n, VoteAnswer(0, 0, 0, VoteResponse(0, 0, false)));
      BatchFacts(s', l', l, VoteAnswer(0, 0, 0, VoteResponse(0, 0, false)));
      AgreeAt(LogOf(s', n), LogOf(s', l), LogOf(s', l'), i);
    }
  }

  lemma AgreeAt(a: Log, b: Log, c: Log, i: nat)
    requires Prefix(a, c) && Prefix(b, c) && 1 <= i <= a.maximumIndex && i <= b.maximumIndex
    ensures i in a.entries && i in b.entries && a.entries[i] == b.entries[i]
  {
  }

  lemma LongerLog(s: System, l: Id, n: Id)
    requires PrefixInv(s, l) && n in s.nodes && !Longest(s, n)
    ensures l in s.nodes && l != n && Max(s.nodes[n]) < Max(s.nodes[l])
  {
    hide Batches;
  }

  /** The first new entry is of a term in which nothing was ever written at its index; other nodes stay. */
  lemma WriteIsNew(s: System, a: Action, n: Id)
    requires ClusterInv(s) && Enabled(s, a) && Writer(a) == Some(n)
    requires n in s.nodes && n in Next(s, a).nodes && Max(Next(s, a).nodes[n]) > Max(s.nodes[n])
    ensures var s', i := Next(s, a), Max(s.nodes[n]) + 1;
            && i in LogOf(s', n).entries && (i, LogOf(s', n).entries[i].term) !in s.written
            && s'.nodes.Keys == s.nodes.Keys && (forall k :: k in s.nodes && k != n ==> s'.nodes[k] == s.nodes[k])
  {
    hide ElectionInv, LogInv, Gained, YesVotes, Append, HandleVoteResponse;
    KeysAreIds(s, n);
    StoreOf(s, n);
    if a.ClientAppend? {
      LeaderWroteAll(s, n);
      ClientAppendEffect(s.nodes[n], a.command);
    } else {
      var before, m := s.nodes[n], a.m;
      VoteResponseEffect(before, m.ballot, m.dst, m.answer, a.initial);
      VoteResponseKeepsMatch(before, m.ballot, m.dst, m.answer, a.initial);
      ElectedTermIsNew(s, a);
      NewTermIsBlank(s, n, before.currentTerm);
      ElectedInItsTerm(before, m.ballot, m.dst, m.answer, a.initial);
    }
  }

  lemma ElectedInItsTerm(n: Node, b: nat, peer: Id, r: VoteResponse, initial: seq<Command>)
    requires b < |n.ballots|
    ensures var after := HandleVoteResponse(n, b, peer, r, initial);
            after.role == Leader && n.role == Candidate ==> after.currentTerm == n.currentTerm
  {
  }
}

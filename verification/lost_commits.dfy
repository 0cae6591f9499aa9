/** What a higher term may do to committed entries: a voter compares no logs for a higher term, and a batch
    overwrites whatever is at its indices.  A run of three nodes in which every answer is timely loses a
    committed entry. */
module LostCommits {
  import opened Types
  import opened LogStorage
  import opened StateMap
  import opened NodeStore
  import opened RaftNode
  import opened Cluster
  import opened TrioRuns

  // ---------------------------------------------------------------------------------------------
  // When exactly
  // ---------------------------------------------------------------------------------------------

  /** The comparison of logs that a voter is meant to make. */
  predicate UpToDate(n: Node, r: VoteRequest) {
    var t := LastTerm(n.store.log);
    t.Some? && (r.prevEntryTerm > t.value || (r.prevEntryTerm == t.value && r.prevEntryIndex >= Max(n)))
  }

  predicate Grants(n: Node, r: VoteRequest) {
    var answer := HandleVoteRequest(n, r).1;
    answer.Some? && answer.value.accepted
  }

  /** A live node votes for a candidate whose log is behind its own exactly when the request's term is
      higher than its own. */
  lemma VoteIgnoresLogIff(n: Node, r: VoteRequest)
    requires n.role != Dead && !UpToDate(n, r)
    ensures Grants(n, r) <==> r.term > n.currentTerm
  {
  }

  /** Accepting a batch keeps the entries up to k, for instance all committed ones, exactly when the batch
      agrees with them. */
  lemma AcceptKeepsIff(st: Store, r: AppendRequest, k: nat)
    requires Dense(st.log) && r.prevEntryIndex <= st.log.maximumIndex && k <= st.log.maximumIndex
    requires Contiguous(r.entryList, r.prevEntryIndex)
    ensures Agree(st.log, AcceptEntries(st, r).log, k)
       <==> forall i :: 0 <= i < |r.entryList| && r.prevEntryIndex + 1 + i <= k ==>
              r.entryList[i] == st.log.entries[r.prevEntryIndex + 1 + i]
  {
    InsertKeepsIff(st.log, r.entryList, r.prevEntryIndex, k);
    hide InsertList;
  }

  lemma InsertKeepsIff(log: Log, es: seq<Entry>, prev: nat, k: nat)
    requires Dense(log) && prev <= log.maximumIndex && k <= log.maximumIndex && Contiguous(es, prev)
    ensures Agree(log, InsertList(log, es), k)
       <==> forall i :: 0 <= i < |es| && prev + 1 + i <= k ==> es[i] == log.entries[prev + 1 + i]
  {
    var after := InsertList(log, es);
    InsertListEffect(log, es, prev);
    hide InsertList;
    forall i | Agree(log, after, k) && 0 <= i < |es| && prev + 1 + i <= k ensures es[i] == log.entries[prev + 1 + i] {
      assert after.entries[prev + 1 + i] == es[prev + 1 + i - prev - 1];
    }
    if forall i :: 0 <= i < |es| && prev + 1 + i <= k ==> es[i] == log.entries[prev + 1 + i] {
      forall i | 1 <= i <= k ensures i in log.entries && i in after.entries && log.entries[i] == after.entries[i] {
        assert prev < i <= prev + |es| ==> after.entries[i] == es[i - prev - 1] == log.entries[prev + 1 + (i - prev - 1)];
      }
    }
  }

  // ---------------------------------------------------------------------------------------------
  // A run
  // ---------------------------------------------------------------------------------------------

  /** With the success of one peer a leader of three commits its first entry. */
  lemma CommitsOne(s: System, n: Id, term: nat, e: Entry, a: Message) returns (s': System)
    requires Has(s, n, Leader, term, Single(e, 0))
    requires a in s.net && a.AppendAnswer? && a.src == n && a.dst in Trio - {n} && a.sent == Sent(term, 1, 1)
    requires a.response.term == term && a.response.success
    ensures Enabled(s, CountAppend(a)) && s' == Next(s, CountAppend(a)) && Only(s, s', n)
    ensures Has(s', n, Leader, term, Single(e, 1))
  {
    var n1 := AdvanceFollower(s.nodes[n], a.dst, a.sent);
    assert a.dst in Matched(n1, 1);
    SubsetIsSmaller({a.dst}, Matched(n1, 1));
    assert |Trio - {n}| == 2 by { assert Trio == (Trio - {n}) + {n}; }
    assert CommitTarget(n1, 1) == 1;
    s' := Next(s, CountAppend(a));
  }

  /** Its first entry is committed: nodes 1 and 2 hold it. */
  lemma FirstCommit(s0: System, s4: System, command: Command) returns (s: System)
    requires Comes(s0, s4) && Is(s4, 1, Leader, 2, 1) && Is(s4, 2, Follower, 2, 1) && Is(s4, 3, Follower, 1, 0)
    requires s4.nodes[3].ballots == [] && 2 in s4.nodes[1].nextIndex && s4.nodes[1].nextIndex[2] == 1
    ensures Comes(s0, s) && s4.elected.Keys <= s.elected.Keys
    ensures var e := Entry(2, 1, command); Has(s, 1, Leader, 2, Single(e, 1)) && Has(s, 2, Follower, 2, Single(e, 0))
    ensures Is(s, 3, Follower, 1, 0) && s.nodes[3].ballots == []
  {
    hide Comes, Enabled, Next;
    var e := Entry(2, 1, command);
    AppendOneOrTwo(2, command, command);
    var s5 := Writes(s4, 1, 2, EMPTY_STORE, command);
    ComesOn(s0, s4, ClientAppend(1, command));
    var s6, m := SendsOne(s5, 1, 2, e, 2);
    ComesOn(s0, s5, SendAppend(1, 2, 1, 2));
    var s7, a := Takes(s6, 2, Follower, 2, EMPTY_STORE, m, e);
    ComesOn(s0, s6, AnswerAppend(m));
    s := CommitsOne(s7, 1, 2, e, a);
    ComesOn(s0, s7, CountAppend(a));
  }

  /** Node 3 is elected in term 3 with an empty log. */
  lemma NodeThreeLeads(s1: System, e: Entry) returns (s: System)
    requires Has(s1, 1, Leader, 2, Single(e, 1)) && Has(s1, 2, Follower, 2, Single(e, 0))
    requires Is(s1, 3, Follower, 1, 0) && s1.nodes[3].ballots == []
    ensures Comes(s1, s) && (3, 3) in s.elected && Has(s, 1, Leader, 2, Single(e, 1)) && Is(s, 3, Leader, 3, 3)
    ensures 1 in s.nodes[3].nextIndex && s.nodes[3].nextIndex[1] == 1
  {
    hide Comes;
    ComesToItself(s1);
    var s2 := TimesOut(s1, 3, Follower, 1, EMPTY_STORE);
    ComesOn(s1, s1, Timeout(3));
    var s3 := TimesOut(s2, 3, Candidate, 2, EMPTY_STORE);
    ComesOn(s1, s2, Timeout(3));
    var s4, ask := Asks(s3, 3, 3, EMPTY_STORE, 1, 2);
    ComesOn(s1, s3, AskVote(3, 1, 2));
    var s5, vote := Agrees(s4, 2, Follower, 2, Single(e, 0), ask);
    ComesOn(s1, s4, AnswerVote(ask));
    s := Wins(s5, 3, 3, EMPTY_STORE, vote);
    ComesOn(s1, s5, CountVote(vote, []));
  }

  /** For any two commands: node 1 commits the first, held by two nodes of three; then node 3, which lacks it,
      is elected, and its first entry replaces the committed one on node 1. */
  lemma CommittedIsOverwritten(s0: System, first: Command, second: Command) returns (s1: System, s2: System)
    requires Init(s0) && s0.nodes.Keys == Trio
    ensures Comes(s0, s1) && (1, 2) in s1.elected && {1, 2} <= s1.nodes.Keys && s1.nodes[1].store.commitIndex == 1
    ensures Fetch(s1.nodes[1].store.log, 1) == Fetch(s1.nodes[2].store.log, 1) == Some(Entry(2, 1, first))
    ensures Comes(s1, s2) && (3, 3) in s2.elected && 1 in s2.nodes && s2.nodes[1].store.commitIndex == 1
    ensures Fetch(s2.nodes[1].store.log, 1) == Some(Entry(3, 1, second))
  {
    hide Comes, Enabled, Next;
    var t0 := NodeOneLeads(s0);
    s1 := FirstCommit(s0, t0, first);
    var e, e' := Entry(2, 1, first), Entry(3, 1, second);
    var t1 := NodeThreeLeads(s1, e);
    AppendOneOrTwo(3, second, second);
    var t2 := Writes(t1, 3, 3, EMPTY_STORE, second);
    ComesOn(s1, t1, ClientAppend(3, second));
    var t3, m := SendsOne(t2, 3, 3, e', 1);
    ComesOn(s1, t2, SendAppend(3, 1, 1, 3));
    var t4, a := Takes(t3, 1, Leader, 2, Single(e, 1), m, e');
    s2 := t4;
    ComesOn(s1, t3, AnswerAppend(m));
  }
}

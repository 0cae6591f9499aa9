/** The log files of all nodes over a run in which only longest logs are written to. */
module ReplicatedFiles {
  import opened Types
  import opened LogStorage
  import opened NodeStore
  import opened Framing
  import opened RaftNode
  import opened NodeSteps
  import opened Cluster
  import opened ElectionSafety
  import opened LogSafety
  import opened ClusterTheorems
  import opened Holding
  import opened Replication
  import opened ReplicationTheorems
  import Recovery

  /** A backup appends to the file of its node; nothing else touches a file. */
  ghost function FilesAfter(c: Codec, s: System, files: map<Id, bytes>, a: Action): map<Id, bytes> {
    if a.BackUp? && a.n in s.nodes && a.n in files && WellFormed(s.nodes[a.n].store) then
      files[a.n := Recovery.BackUp(c, Recovery.Disk(s.nodes[a.n].store, files[a.n])).file]
    else files
  }

  /** A run, and what becomes of the files. */
  ghost predicate FiledRun(c: Codec, s1: System, files1: map<Id, bytes>, actions: seq<Action>, s2: System, files2: map<Id, bytes>)
    decreases |actions|
  {
    if actions == [] then s1 == s2 && files1 == files2
    else Enabled(s1, actions[0])
         && FiledRun(c, Next(s1, actions[0]), FilesAfter(c, s1, files1, actions[0]), actions[1..], s2, files2)
  }

  /** Every file holds exactly the frames of its node's entries up to the last backup. */
  ghost predicate AllMirror(c: Codec, s: System, files: map<Id, bytes>) {
    && files.Keys == s.nodes.Keys
    && forall n :: n in s.nodes ==> Recovery.Mirrors(c, Recovery.Disk(s.nodes[n].store, files[n]))
  }

  lemma MirrorOf(c: Codec, s: System, files: map<Id, bytes>, n: Id)
    requires AllMirror(c, s, files) && n in s.nodes
    ensures n in files && Recovery.Mirrors(c, Recovery.Disk(s.nodes[n].store, files[n]))
  {
  }

  // ---------------------------------------------------------------------------------------------
  // One step
  // ---------------------------------------------------------------------------------------------

  lemma {:induction false} AppendAllKeepsBackup(st: Store, term: nat, commands: seq<Command>)
    ensures AppendAll(st, term, commands).lastBackupIndex == st.lastBackupIndex
  {
    if commands != [] {
      AppendAllKeepsBackup(st, term, commands[..|commands| - 1]);
    }
  }

  lemma VoteResponseKeepsBackup(n: Node, b: nat, peer: Id, r: VoteResponse, initial: seq<Command>)
    requires b < |n.ballots|
    ensures HandleVoteResponse(n, b, peer, r, initial).store.lastBackupIndex == n.store.lastBackupIndex
  {
    AppendAllKeepsBackup(CommitProcedure(n.store), n.currentTerm, initial);
    hide AppendAll;
  }

  lemma AppendRequestKeepsBackup(n: Node, r: AppendRequest)
    ensures HandleAppendRequest(n, r).0.store.lastBackupIndex == n.store.lastBackupIndex
  {
    hide InsertList, Matches, Conflict;
  }

  lemma AppendResponseKeepsBackup(n: Node, peer: Id, sent: Sent, r: AppendResponse)
    ensures HandleAppendResponse(n, peer, sent, r).store.lastBackupIndex == n.store.lastBackupIndex
  {
    hide CommitTarget, FetchLastIndexOfTerm;
  }

  /** Only a backup moves a node's backup index. */
  lemma OnlyBackUpsBackUp(s: System, a: Action, n: Id)
    requires ElectionInv(s) && Enabled(s, a) && n in s.nodes && a != BackUp(n)
    ensures n in Next(s, a).nodes && Next(s, a).nodes[n].store.lastBackupIndex == s.nodes[n].store.lastBackupIndex
  {
    hide ElectionInv, HandleVoteRequest, HandleVoteResponse, HandleAppendRequest, HandleAppendResponse, AskForVote,
         PrepareAppend, Gained, YesVotes, Append, Timely;
    match a
    case Timeout(k) => KeysAreIds(s, k);
    case AskVote(_, _, _) =>
    case AnswerVote(m) =>
      KeysAreIds(s, m.dst);
      VoteRequestKeepsStore(s.nodes[m.dst], m.ask);
    case CountVote(m, initial) =>
      KeysAreIds(s, m.src);
      VoteResponseKeepsMatch(s.nodes[m.src], m.ballot, m.dst, m.answer, initial);
      VoteResponseKeepsBackup(s.nodes[m.src], m.ballot, m.dst, m.answer, initial);
    case SendAppend(_, _, _, _) =>
    case AnswerAppend(m) =>
      KeysAreIds(s, m.dst);
      AppendRequestMoves(s.nodes[m.dst], m.request);
      AppendRequestKeepsBackup(s.nodes[m.dst], m.request);
    case CountAppend(m) =>
      KeysAreIds(s, m.src);
      CountAppendKeepsBackup(s, m);
    case ClientAppend(k, _) => KeysAreIds(s, k);
    case Apply(k) => KeysAreIds(s, k);
    case BackUp(k) => KeysAreIds(s, k);
  }

  lemma CountAppendKeepsBackup(s: System, m: Message)
    requires m.AppendAnswer? && m.src in s.nodes && Possible(s, CountAppend(m)) && Timely(s, CountAppend(m))
    ensures var b := HandleAppendResponse(s.nodes[m.src], m.dst, m.sent, m.response);
            b.id == s.nodes[m.src].id && b.store.lastBackupIndex == s.nodes[m.src].store.lastBackupIndex
  {
    hide HandleAppendResponse;
    AppendResponsePosture(s.nodes[m.src], m.dst, m.sent, m.response);
    AppendResponseKeepsBackup(s.nodes[m.src], m.dst, m.sent, m.response);
  }

  lemma BackUpStores(s: System, n: Id)
    requires ElectionInv(s) && Possible(s, BackUp(n))
    ensures var st := s.nodes[n].store;
            Next(s, BackUp(n)).nodes == s.nodes[n := s.nodes[n].(store := st.(lastBackupIndex := st.commitIndex))]
  {
    KeysAreIds(s, n);
  }

  /** A file follows its node through any step that is not its backup. */
  lemma MoveMirrors(c: Codec, before: Store, after: Store, file: bytes)
    requires Recovery.Mirrors(c, Recovery.Disk(before, file))
    requires Recovery.Moves(before, after) || after == before.(lastBackupIndex := before.commitIndex)
    requires after.lastBackupIndex == before.lastBackupIndex
    ensures Recovery.Mirrors(c, Recovery.Disk(after, file))
  {
    if Recovery.Moves(before, after) {
      var d1, d2 := Recovery.Disk(before, file), Recovery.Disk(after, file);
      assert Recovery.Leads(c, d2, [], d2);
      assert [Recovery.MoveStep(after)][1..] == [];
      Recovery.FileMirrorsLog(c, d1, [Recovery.MoveStep(after)], d2);
    } else {
      assert after == before;
    }
  }

  lemma BackUpMirrors(c: Codec, st: Store, file: bytes)
    requires Recovery.Mirrors(c, Recovery.Disk(st, file))
    ensures Recovery.Mirrors(c, Recovery.Disk(st.(lastBackupIndex := st.commitIndex), Recovery.BackUp(c, Recovery.Disk(st, file)).file))
  {
    var d1 := Recovery.Disk(st, file);
    var d2 := Recovery.BackUp(c, d1);
    assert Recovery.Leads(c, d2, [], d2);
    assert [Recovery.BackUpStep][1..] == [];
    Recovery.FileMirrorsLog(c, d1, [Recovery.BackUpStep], d2);
    assert d2.store == st.(lastBackupIndex := st.commitIndex);
  }

  lemma StepMirrors(c: Codec, s: System, files: map<Id, bytes>, a: Action, l: Id)
    requires WriterInv(s, l) && AllMirror(c, s, files) && Enabled(s, a)
    ensures AllMirror(c, Next(s, a), FilesAfter(c, s, files, a))
  {
    hide ElectionInv, LogInv, HoldingInv, PrefixInv, Next, Timely, Recovery.Mirrors, Recovery.Moves, Recovery.BackUp, Onward;
    var s', files' := Next(s, a), FilesAfter(c, s, files, a);
    StepMovesOn(s, a);
    NodesStay(s, s');
    forall n | n in s'.nodes ensures Recovery.Mirrors(c, Recovery.Disk(s'.nodes[n].store, files'[n])) {
      WriterFacts(s, l, n);
      if a == BackUp(n) {
        BackUpStores(s, n);
        BackUpMirrors(c, s.nodes[n].store, files[n]);
      } else {
        StepKeepsFile(s, l, a, n);
        OnlyBackUpsBackUp(s, a, n);
        MoveMirrors(c, s.nodes[n].store, s'.nodes[n].store, files[n]);
      }
    }
  }

  lemma NodesStay(s: System, s': System)
    requires Onward(s, s')
    ensures s'.nodes.Keys == s.nodes.Keys
  {
  }

  // ---------------------------------------------------------------------------------------------
  // Runs
  // ---------------------------------------------------------------------------------------------

  /** Every run takes the files somewhere. */
  lemma {:induction false} FilesFollow(c: Codec, s1: System, files1: map<Id, bytes>, actions: seq<Action>, s2: System)
    returns (files2: map<Id, bytes>)
    requires Leads(s1, actions, s2)
    ensures FiledRun(c, s1, files1, actions, s2, files2)
    decreases |actions|
  {
    files2 := files1;
    if actions != [] {
      files2 := FilesFollow(c, Next(s1, actions[0]), FilesAfter(c, s1, files1, actions[0]), actions[1..], s2);
    }
  }

  lemma {:induction false} RunMirrors(c: Codec, s1: System, files1: map<Id, bytes>, actions: seq<Action>,
                                      s2: System, files2: map<Id, bytes>, l1: Id) returns (l2: Id)
    requires WriterInv(s1, l1) && AllMirror(c, s1, files1)
    requires ChainRun(s1, actions, s2) && FiledRun(c, s1, files1, actions, s2, files2)
    ensures WriterInv(s2, l2) && AllMirror(c, s2, files2)
    decreases |actions|
  {
    hide WriterInv, AllMirror, FilesAfter, ByLongest;
    if actions == [] {
      l2 := l1;
    } else {
      StepMirrors(c, s1, files1, actions[0], l1);
      var l := WriterOfStep(s1, l1, actions[0]);
      StepOfRun(s1, l, actions[0]);
      l2 := RunMirrors(c, Next(s1, actions[0]), FilesAfter(c, s1, files1, actions[0]), actions[1..], s2, files2, l);
    }
  }

  /** In every state of the run the file of every node is exactly the frames of its entries up to its last
      backup, and whoever starts from it has a prefix of the longest log. */
  lemma FilesMirrorLogs(c: Codec, s0: System, files0: map<Id, bytes>, actions: seq<Action>,
                        s: System, files: map<Id, bytes>, l: Id, n: Id)
    requires ChainStarts(s0) && AllMirror(c, s0, files0)
    requires ChainRun(s0, actions, s) && FiledRun(c, s0, files0, actions, s, files)
    requires Longest(s, l) && n in s.nodes
    ensures l in s.nodes && n in files && WellFormed(s.nodes[n].store)
    ensures files[n] == Frames(c, LogOf(s, n), 1, s.nodes[n].store.lastBackupIndex)
    ensures Lossless(c) && AllFit(c, LogOf(s, n)) && Recovery.Recover(c, files[n]).Some? ==>
              var log := Recovery.Recover(c, files[n]).value.store.log;
              log.maximumIndex == s.nodes[n].store.lastBackupIndex && Prefix(log, LogOf(s, l))
  {
    hide ChainStarts, ChainRun, FiledRun, WriterInv, Recovery.Recover, Held, Frames, Longest;
    var l0 := ChainStartsInv(s0);
    var l1 := RunMirrors(c, s0, files0, actions, s, files, l0);
    LongestIsWriter(s, l1, l);
    WriterFacts(s, l, n);
    if Lossless(c) && AllFit(c, LogOf(s, n)) {
      var d := Recovery.Disk(s.nodes[n].store, files[n]);
      Recovery.RecoveryIsExact(c, d);
      if Recovery.Recover(c, files[n]).Some? {
        Recovery.TruncatedIsDense(LogOf(s, n), s.nodes[n].store.lastBackupIndex);
        PrefixTransitive(Truncated(LogOf(s, n), s.nodes[n].store.lastBackupIndex), LogOf(s, n), LogOf(s, l));
      }
    }
  }

  /** The empty files of a fresh cluster mirror its logs. */
  lemma FreshFilesMirror(c: Codec, s: System, l: Id)
    requires Init(s) && l in s.nodes
    ensures ChainStarts(s) && AllMirror(c, s, map n | n in s.nodes :: [])
  {
    FreshClusterStarts(s, l);
    Recovery.FreshDiskMirrors(c);
  }

  /** So do those of a cluster in which nothing has been written. */
  lemma FirstFilesMirror(c: Codec, s0: System, actions: seq<Action>, s: System, l: Id)
    requires Init(s0) && Leads(s0, actions, s) && (forall a :: a in actions ==> Silent(a)) && l in s.nodes
    ensures ChainStarts(s) && AllMirror(c, s, map n | n in s.nodes :: [])
  {
    hide Leads, ChainStarts, AllAppliedRight;
    FirstWriterStarts(s0, actions, s, l);
    Recovery.FreshDiskMirrors(c);
  }
}

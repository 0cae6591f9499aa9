/** The volatile queue of acquirements of one lock during one leader term. */
module AcquirementQueue {
  import opened Types

  datatype Acquirement = Acquirement(acquirer: string, lastRefreshed: int, expire: nat, command: LockInfo)

  /** How an acquirement left the queue. */
  datatype Outcome =
    | Abandoned(who: Acquirement, at: int)
    | Granted(who: Acquirement, at: int, nonce: nat)

  /** The queue as one list: sequence number n is the n-th acquirement ever accepted.  Those that
      have left are in `done`, with their outcome; the others are in `waiting`. */
  datatype Queue = Queue(done: seq<Outcome>, waiting: seq<Acquirement>, lastAppendedNonce: nat)
  {
    function Assigned(): nat { |done| + |waiting| }
  }

  datatype AcquirementError = InvalidSequenceError | InfoFetchingError | ExpireError

  function NewQueue(lastAppendedNonce: nat): Queue {
    Queue([], [], lastAppendedNonce)
  }

  predicate Expired(a: Acquirement, timestamp: int) {
    a.lastRefreshed + a.expire < timestamp
  }

  function Abandon(q: Queue, timestamp: int): Queue
    decreases |q.waiting|
  {
    if q.waiting == [] || !Expired(q.waiting[0], timestamp) then q
    else Abandon(q.(done := q.done + [Abandoned(q.waiting[0], timestamp)], waiting := q.waiting[1..]), timestamp)
  }

  function Refresh(q: Queue, sequence: nat, timestamp: int): (Queue, Option<AcquirementError>) {
    var q1 := Abandon(q, timestamp);
    if sequence > q1.Assigned() || sequence <= |q1.done| then (q1, Some(InvalidSequenceError))
    else
      var i := sequence - |q1.done| - 1;
      if Expired(q1.waiting[i], timestamp) then (q1, Some(ExpireError))
      else (q1.(waiting := q1.waiting[i := q1.waiting[i].(lastRefreshed := timestamp)]), None)
  }

  /** The first position of an acquirer in the list; the length when there is none. */
  function Position(waiting: seq<Acquirement>, acquirer: string): nat {
    if waiting == [] then 0
    else if waiting[0].acquirer == acquirer then 0
    else 1 + Position(waiting[1..], acquirer)
  }

  function InsertNew(q: Queue, command: LockInfo, timestamp: int, expire: nat): (Queue, nat) {
    var q1 := Abandon(q, timestamp);
    var p := Position(q1.waiting, command.newOwner);
    if p < |q1.waiting| then (q1, |q1.done| + 1 + p)
    else
      (q1.(waiting := q1.waiting + [Acquirement(command.newOwner, timestamp, expire, command)]), q1.Assigned() + 1)
  }

  /** The command of the first acquirement, stamped with the time and the next nonce. */
  function Stamp(q: Queue, timestamp: int): LockInfo
    requires q.waiting != []
  {
    q.waiting[0].command.(timestamp := timestamp, lockNonce := q.lastAppendedNonce + 1)
  }

  function FetchFirst(q: Queue, popTag: bool, timestamp: int): (Queue, Option<LockInfo>) {
    var q1 := Abandon(q, timestamp);
    if q1.waiting == [] then (q1, None)
    else
      var info := Stamp(q1, timestamp);
      var head := q1.waiting[0].(command := info);
      if popTag then
        (q1.(done := q1.done + [Granted(head, timestamp, info.lockNonce)], waiting := q1.waiting[1..]), Some(info))
      else
        (q1.(waiting := q1.waiting[0 := head]), Some(info))
  }

  // ---------------------------------------------------------------------------------------------
  // Invariants of one queue
  // ---------------------------------------------------------------------------------------------

  ghost predicate Distinct(waiting: seq<Acquirement>) {
    forall i, j :: 0 <= i < j < |waiting| ==> waiting[i].acquirer != waiting[j].acquirer
  }

  /** Every waiting command asks for this lock in the name of its acquirer. */
  ghost predicate Addressed(waiting: seq<Acquirement>, lockName: string) {
    forall i :: 0 <= i < |waiting| ==>
      waiting[i].command.lockName == lockName && waiting[i].command.newOwner == waiting[i].acquirer
  }

  /** An outcome is just: who was abandoned had expired, who was granted had not. */
  ghost predicate Just(o: Outcome) {
    match o
    case Abandoned(who, at) => Expired(who, at)
    case Granted(who, at, nonce) => !Expired(who, at)
  }

  ghost predicate History(done: seq<Outcome>, nonceBound: nat, now: int) {
    && (forall i :: 0 <= i < |done| ==> Just(done[i]) && done[i].at <= now)
    && (forall i :: 0 <= i < |done| && done[i].Granted? ==> done[i].nonce <= nonceBound)
    && (forall i, j :: 0 <= i < j < |done| ==> done[i].at <= done[j].at)
    && (forall i, j :: 0 <= i < j < |done| && done[i].Granted? && done[j].Granted? ==> done[i].nonce < done[j].nonce)
  }

  /** Whoever counts as granted in b already did in a. */
  ghost predicate NoNewGrant(a: Queue, b: Queue) {
    forall o :: o in b.done && o.Granted? ==> o in a.done
  }

  ghost predicate Fair(q: Queue, lockName: string, now: int) {
    Distinct(q.waiting) && Addressed(q.waiting, lockName) && History(q.done, q.lastAppendedNonce, now)
  }

  /** Abandoning drops the maximal expired prefix, in order, and nothing else. */
  lemma {:induction false} AbandonDropsExpiredPrefix(q: Queue, timestamp: int) returns (k: nat)
    ensures k <= |q.waiting|
    ensures Abandon(q, timestamp).waiting == q.waiting[k..]
    ensures forall i :: 0 <= i < k ==> q.waiting[i].lastRefreshed + q.waiting[i].expire < timestamp
    ensures k < |q.waiting| ==> timestamp <= q.waiting[k].lastRefreshed + q.waiting[k].expire
    ensures Abandon(q, timestamp).done == q.done + seq(k, i requires 0 <= i < k => Abandoned(q.waiting[i], timestamp))
    ensures Abandon(q, timestamp).lastAppendedNonce == q.lastAppendedNonce
    decreases |q.waiting|
  {
    if q.waiting == [] || !Expired(q.waiting[0], timestamp) {
      k := 0;
    } else {
      var q1 := q.(done := q.done + [Abandoned(q.waiting[0], timestamp)], waiting := q.waiting[1..]);
      var k1 := AbandonDropsExpiredPrefix(q1, timestamp);
      k := k1 + 1;
    }
  }

  /** At a fixed time a second abandon changes nothing. */
  lemma AbandonIdempotent(q: Queue, timestamp: int)
    ensures Abandon(Abandon(q, timestamp), timestamp) == Abandon(q, timestamp)
  {
    var k := AbandonDropsExpiredPrefix(q, timestamp);
  }

  lemma {:induction false} PositionFinds(waiting: seq<Acquirement>, acquirer: string)
    ensures var p := Position(waiting, acquirer);
            && p <= |waiting|
            && (p < |waiting| ==> waiting[p].acquirer == acquirer)
            && (forall i :: 0 <= i < p ==> waiting[i].acquirer != acquirer)
  {
    if waiting != [] && waiting[0].acquirer != acquirer {
      PositionFinds(waiting[1..], acquirer);
    }
  }

  // ---------------------------------------------------------------------------------------------
  // What the operations leave
  // ---------------------------------------------------------------------------------------------

  ghost predicate Waits(q: Queue, sequence: nat) {
    |q.done| < sequence <= |q.done| + |q.waiting|
  }

  ghost function Waiter(q: Queue, sequence: nat): Acquirement
    requires Waits(q, sequence)
  {
    q.waiting[sequence - |q.done| - 1]
  }

  /** A refresh fails exactly for a number that does not wait or has expired; otherwise that acquirement is
      refreshed at this time, and nothing else changes. */
  lemma RefreshOutcome(q: Queue, sequence: nat, timestamp: int)
    ensures var a := Abandon(q, timestamp);
            var (r, err) := Refresh(q, sequence, timestamp);
            && (err == Some(InvalidSequenceError) <==> !Waits(a, sequence)) && err != Some(InfoFetchingError)
            && (err.Some? ==> r == a)
            && (Waits(a, sequence) ==>
                  var w := Waiter(a, sequence);
                  && (err == Some(ExpireError) <==> w.lastRefreshed + w.expire < timestamp)
                  && (err.None? <==> timestamp <= w.lastRefreshed + w.expire)
                  && (err.None? ==>
                        && r.done == a.done && r.lastAppendedNonce == q.lastAppendedNonce && |r.waiting| == |a.waiting|
                        && Waiter(r, sequence) == Acquirement(w.acquirer, timestamp, w.expire, w.command)
                        && forall n :: Waits(a, n) && n != sequence ==> Waiter(r, n) == Waiter(a, n)))
  {
    var k := AbandonDropsExpiredPrefix(q, timestamp);
  }

  /** A new acquirement waits behind all others, with the given command, refreshed now and expiring as
      configured; one that waits already stays as it is. */
  lemma InsertOutcome(q: Queue, command: LockInfo, timestamp: int, expire: nat)
    ensures var a := Abandon(q, timestamp);
            var (r, n) := InsertNew(q, command, timestamp, expire);
            if exists i :: 0 <= i < |a.waiting| && a.waiting[i].acquirer == command.newOwner then
              r == a && Waits(a, n) && Waiter(a, n).acquirer == command.newOwner
            else
              && r.done == a.done && r.lastAppendedNonce == q.lastAppendedNonce && n == |a.done| + |a.waiting| + 1
              && r.waiting == a.waiting + [Acquirement(command.newOwner, timestamp, expire, command)]
  {
    var k := AbandonDropsExpiredPrefix(q, timestamp);
    PositionFinds(Abandon(q, timestamp).waiting, command.newOwner);
  }

  /** The look and the pop yield the command of whoever waits first, with this time and the next nonce and
      otherwise as it was given; the look leaves all waiting, the pop moves that one to the outcomes. */
  lemma FetchOutcome(q: Queue, popTag: bool, timestamp: int)
    ensures var a := Abandon(q, timestamp);
            var (r, c) := FetchFirst(q, popTag, timestamp);
            && (c.None? <==> a.waiting == []) && (c.None? ==> r == a) && r.lastAppendedNonce == q.lastAppendedNonce
            && (a.waiting != [] ==>
                  var h := a.waiting[0];
                  var info := LockInfo(q.lastAppendedNonce + 1, h.command.lockName, h.command.newOwner, timestamp, h.command.expire);
                  var stamped := Acquirement(h.acquirer, h.lastRefreshed, h.expire, info);
                  && c == Some(info)
                  && (if popTag then r.done == a.done + [Granted(stamped, timestamp, info.lockNonce)] && r.waiting == a.waiting[1..]
                      else r.done == a.done && r.waiting == [stamped] + a.waiting[1..]))
  {
    var k := AbandonDropsExpiredPrefix(q, timestamp);
  }

  /** The same claim to the lock, whenever it was refreshed and however its command is stamped. */
  ghost predicate SameClaim(x: Acquirement, y: Acquirement) {
    && x.acquirer == y.acquirer && x.expire == y.expire
    && x.command.newOwner == y.command.newOwner && x.command.lockName == y.command.lockName && x.command.expire == y.command.expire
  }

  /** Number n's acquirement, wherever it is. */
  ghost function Claim(q: Queue, n: nat): Acquirement
    requires 0 < n <= q.Assigned()
  {
    if n <= |q.done| then q.done[n - 1].who else q.waiting[n - |q.done| - 1]
  }

  /** From a to b no number is lost, no outcome and no claim changes. */
  ghost predicate KeepsClaims(a: Queue, b: Queue) {
    && a.done <= b.done && a.Assigned() <= b.Assigned()
    && forall n :: 0 < n <= a.Assigned() ==> SameClaim(Claim(a, n), Claim(b, n))
  }

  lemma KeepsClaimsTransitive(a: Queue, b: Queue, c: Queue)
    requires KeepsClaims(a, b) && KeepsClaims(b, c)
    ensures KeepsClaims(a, c)
  {
    forall n | 0 < n <= a.Assigned() ensures SameClaim(Claim(a, n), Claim(c, n)) {
      assert SameClaim(Claim(a, n), Claim(b, n)) && SameClaim(Claim(b, n), Claim(c, n));
    }
  }

  lemma AbandonKeepsClaims(q: Queue, timestamp: int)
    ensures KeepsClaims(q, Abandon(q, timestamp))
  {
    var k := AbandonDropsExpiredPrefix(q, timestamp);
    hide Abandon;
  }

  lemma RefreshKeepsClaims(q: Queue, sequence: nat, timestamp: int)
    ensures KeepsClaims(q, Refresh(q, sequence, timestamp).0)
  {
    AbandonKeepsClaims(q, timestamp);
    hide Abandon;
    var a, r := Abandon(q, timestamp), Refresh(q, sequence, timestamp).0;
    assert KeepsClaims(a, r);
    KeepsClaimsTransitive(q, a, r);
  }

  lemma InsertKeepsClaims(q: Queue, command: LockInfo, timestamp: int, expire: nat)
    ensures KeepsClaims(q, InsertNew(q, command, timestamp, expire).0)
  {
    AbandonKeepsClaims(q, timestamp);
    hide Abandon;
    var a, r := Abandon(q, timestamp), InsertNew(q, command, timestamp, expire).0;
    assert KeepsClaims(a, r);
    KeepsClaimsTransitive(q, a, r);
  }

  lemma FetchKeepsClaims(q: Queue, popTag: bool, timestamp: int)
    ensures KeepsClaims(q, FetchFirst(q, popTag, timestamp).0)
  {
    AbandonKeepsClaims(q, timestamp);
    FetchOutcome(q, popTag, timestamp);
    hide Abandon, FetchFirst;
    var a, r := Abandon(q, timestamp), FetchFirst(q, popTag, timestamp).0;
    assert KeepsClaims(a, r);
    KeepsClaimsTransitive(q, a, r);
  }

  lemma AbandonKeepsFair(q: Queue, lockName: string, before: int, timestamp: int)
    requires Fair(q, lockName, before) && before <= timestamp
    ensures Fair(Abandon(q, timestamp), lockName, timestamp)
    ensures Abandon(q, timestamp).lastAppendedNonce == q.lastAppendedNonce
    ensures Abandon(q, timestamp).Assigned() == q.Assigned()
    ensures q.done <= Abandon(q, timestamp).done
  {
    var k := AbandonDropsExpiredPrefix(q, timestamp);
  }

  lemma RefreshKeepsFair(q: Queue, sequence: nat, lockName: string, before: int, timestamp: int)
    requires Fair(q, lockName, before) && before <= timestamp
    ensures var r := Refresh(q, sequence, timestamp).0;
            Fair(r, lockName, timestamp) && r.lastAppendedNonce == q.lastAppendedNonce
            && r.Assigned() == q.Assigned() && q.done <= r.done
  {
    AbandonKeepsFair(q, lockName, before, timestamp);
  }

  lemma InsertKeepsFair(q: Queue, command: LockInfo, expire: nat, before: int, timestamp: int)
    requires Fair(q, command.lockName, before) && before <= timestamp
    ensures var (r, n) := InsertNew(q, command, timestamp, expire);
            && Fair(r, command.lockName, timestamp) && r.lastAppendedNonce == q.lastAppendedNonce && q.done <= r.done
            && |r.done| < n <= r.Assigned() && r.waiting[n - |r.done| - 1].acquirer == command.newOwner
            && q.Assigned() <= r.Assigned() <= q.Assigned() + 1
            && Abandon(q, timestamp).waiting <= r.waiting && r.done == Abandon(q, timestamp).done
            && (r.Assigned() > q.Assigned() ==> r.waiting[|r.waiting| - 1].command == command)
  {
    AbandonKeepsFair(q, command.lockName, before, timestamp);
    PositionFinds(Abandon(q, timestamp).waiting, command.newOwner);
  }

  /** Looking does not move the queue, up to the stamp of the first command. */
  lemma LookKeepsFair(q: Queue, lockName: string, before: int, timestamp: int)
    requires Fair(q, lockName, before) && before <= timestamp
    ensures var (r, c) := FetchFirst(q, false, timestamp);
            && Fair(r, lockName, timestamp) && r.lastAppendedNonce == q.lastAppendedNonce
            && r.Assigned() == q.Assigned() && q.done <= r.done
            && (c.None? <==> r.waiting == [])
            && (c.Some? ==> Abandon(q, timestamp).waiting != [] && c.value == LockInfo(q.lastAppendedNonce + 1, lockName, r.waiting[0].acquirer, timestamp, Abandon(q, timestamp).waiting[0].command.expire))
  {
    AbandonKeepsFair(q, lockName, before, timestamp);
  }

  /** Check-then-pop is exact: the pop after the look removes the acquirement that was looked at
      and yields the command that was looked at. */
  lemma LookThenPop(q: Queue, timestamp: int)
    requires FetchFirst(q, false, timestamp).1.Some?
    ensures var (q1, c1) := FetchFirst(q, false, timestamp);
            var (q2, c2) := FetchFirst(q1, true, timestamp);
            && c2 == c1
            && q1.waiting == [q1.waiting[0]] + q2.waiting
            && q2.done == q1.done + [Granted(q1.waiting[0], timestamp, q.lastAppendedNonce + 1)]
            && !Expired(q1.waiting[0], timestamp)
            && q2.lastAppendedNonce == q.lastAppendedNonce
  {
    FrontIsFresh(q, timestamp);
    var q1 := FetchFirst(q, false, timestamp).0;
    assert Abandon(q1, timestamp) == q1 by {
      hide FetchFirst;
      assert q1.waiting != [] && !Expired(q1.waiting[0], timestamp);
    }
    hide Abandon;
  }

  /** Whoever waits first after abandoning has not expired. */
  lemma FrontIsFresh(q: Queue, timestamp: int)
    ensures var a := Abandon(q, timestamp);
            (a.waiting != [] ==> !Expired(a.waiting[0], timestamp)) && a.lastAppendedNonce == q.lastAppendedNonce
  {
    var k := AbandonDropsExpiredPrefix(q, timestamp);
  }

  /** After the pop and the increment of the appended nonce the queue is fair again. */
  lemma PopKeepsFair(q: Queue, lockName: string, before: int, timestamp: int)
    requires Fair(q, lockName, before) && before <= timestamp
    requires FetchFirst(q, false, timestamp).1.Some?
    ensures var q1 := FetchFirst(q, false, timestamp).0;
            var q2 := FetchFirst(q1, true, timestamp).0;
            && Fair(q2.(lastAppendedNonce := q.lastAppendedNonce + 1), lockName, timestamp)
            && q.done <= q2.done && q2.Assigned() == q.Assigned()
  {
    LookKeepsFair(q, lockName, before, timestamp);
    LookThenPop(q, timestamp);
    hide FetchFirst, Abandon;
  }

  // ---------------------------------------------------------------------------------------------
  // The queue as the leader keeps it: a map and two counters
  // ---------------------------------------------------------------------------------------------

  /** A lock command is an object.  Its encoded content is replaced as a whole and never written into, so
      whoever has taken the content keeps what it took. */
  class CommandDLock {
    var content: LockInfo

    constructor (content: LockInfo)
      ensures this.content == content
    {
      this.content := content;
    }

    method GetAsDLockInfo() returns (info: LockInfo)
      ensures info == content
    {
      info := content;
    }

    method SetAsDLockInfo(info: LockInfo)
      modifies this
      ensures content == info
    {
      content := info;
    }
  }

  /** A queued acquirement refers to the command object that its client's request came with. */
  datatype AcquirementInfo = AcquirementInfo(acquirer: string, lastRefreshed: int, expire: nat, command: CommandDLock)

  class DlockVolatileAcquirement {
    const lockName: string
    var lastProcessed: nat
    var lastAssigned: nat
    var lastAppendedNonce: nat
    var pending: map<nat, AcquirementInfo>
    ghost var done: seq<Outcome>
    ghost var waiting: seq<Acquirement>

    /** The commands of those who wait, and of those who have been granted the lock. */
    ghost function Commands(): set<CommandDLock>
      reads this
    {
      set i | i in pending :: pending[i].command
    }

    lemma CommandsAreQueued()
      ensures forall i :: i in pending ==> pending[i].command in Commands()
    {
    }

    twostate lemma CommandsStay()
      requires pending == old(pending)
      ensures Commands() == old(Commands())
    {
    }

    twostate lemma CommandsShrink()
      requires forall i :: i in pending ==> i in old(pending) && pending[i].command == old(pending[i].command)
      ensures Commands() <= old(Commands())
      ensures old(Apart()) && old(lastProcessed) <= lastProcessed && lastAssigned <= old(lastAssigned) ==> Apart()
    {
    }

    twostate lemma CommandsGrow(command: CommandDLock)
      requires lastAssigned in pending && pending[lastAssigned].command == command && lastProcessed == old(lastProcessed)
      requires forall i :: i in pending && i != lastAssigned ==>
                 i in old(pending) && pending[i].command == old(pending[i].command)
      ensures Commands() <= old(Commands()) + {command}
      ensures old(Apart()) && command !in old(Commands()) && lastAssigned == old(lastAssigned) + 1 ==> Apart()
    {
      assert forall i :: i in old(pending) ==> old(pending[i].command) in old(Commands());
    }

    /** Sequence number i is present, and stands for this acquirement. */
    ghost predicate Holds(i: nat, a: Acquirement)
      reads this, Commands()
    {
      && i in pending && pending[i].command in Commands()
      && a == Acquirement(pending[i].acquirer, pending[i].lastRefreshed, pending[i].expire, pending[i].command.content)
    }

    /** Every sequence number after the last processed one is present, with a command of its own. */
    ghost predicate Valid()
      reads this, Commands()
    {
      && |done| == lastProcessed && lastProcessed + |waiting| == lastAssigned
      && (forall k :: 0 <= k < |waiting| ==> Holds(lastProcessed + 1 + k, waiting[k]))
      && Apart()
    }

    ghost predicate Apart()
      reads this
    {
      forall i, j :: lastProcessed < i < j <= lastAssigned && i in pending && j in pending ==>
        pending[i].command != pending[j].command
    }

    ghost function View(): Queue
      reads this
    {
      Queue(done, waiting, lastAppendedNonce)
    }

    /** Commands for another lock may be rewritten. */
    twostate lemma StaysValid(other: string)
      requires old(Valid()) && unchanged(this)
      requires forall a :: a in waiting ==> a.command.lockName != other
      requires forall c :: c in Commands() ==> c.content == old(c.content) || old(c.content).lockName == other
      ensures Valid()
    {
      forall k | 0 <= k < |waiting| ensures Holds(lastProcessed + 1 + k, waiting[k]) {
        assert old(Holds(lastProcessed + 1 + k, waiting[k]));
        assert waiting[k] in waiting;
      }
    }

    constructor (lockName: string, lastAppendedNonce: nat)
      ensures Valid() && View() == NewQueue(lastAppendedNonce) && this.lockName == lockName && Commands() == {}
    {
      this.lockName := lockName;
      this.lastProcessed, this.lastAssigned, this.lastAppendedNonce := 0, 0, lastAppendedNonce;
      this.pending := map[];
      this.done, this.waiting := [], [];
    }

    /** Only a missing sequence number stops this with an error. */
    method AbandonExpiredAcquirement(timestamp: int) returns (err: Option<AcquirementError>)
      modifies this
      ensures Commands() <= old(Commands()) && lastAppendedNonce == old(lastAppendedNonce) && lastAssigned == old(lastAssigned)
      ensures old(Valid()) ==> Valid() && err.None? && View() == Abandon(old(View()), timestamp)
    {
      hide Valid, Commands;
      FirstIsPresent();
      var i := lastProcessed + 1;
      while i <= lastAssigned
        invariant i == lastProcessed + 1 && Commands() <= old(Commands()) && lastAppendedNonce == old(lastAppendedNonce)
        invariant lastAssigned == old(lastAssigned)
        invariant old(Valid()) ==> Valid() && Abandon(View(), timestamp) == Abandon(old(View()), timestamp)
      {
        FirstIsPresent();
        if i !in pending {
          return Some(InfoFetchingError);
        }
        var a := pending[i];
        if a.lastRefreshed + a.expire < timestamp {
          DropFirst(Abandoned(Acquirement(a.acquirer, a.lastRefreshed, a.expire, a.command.content), timestamp));
          Forget(i);
        } else {
          return None;
        }
        i := i + 1;
      }
      FirstIsPresent();
      return None;
    }

    lemma FirstIsPresent()
      ensures Valid() ==> |waiting| == lastAssigned - lastProcessed && (waiting != [] ==> Holds(lastProcessed + 1, waiting[0]))
      ensures lastProcessed + 1 in pending ==> pending[lastProcessed + 1].command in Commands()
    {
      assert Valid() && waiting != [] ==> Holds(lastProcessed + 1 + 0, waiting[0]);
    }

    /** The first one is processed; those behind it keep their numbers. */
    method DropFirst(ghost outcome: Outcome)
      modifies this`lastProcessed, this`done, this`waiting
      ensures lastProcessed == old(lastProcessed) + 1 && Commands() <= old(Commands())
      ensures old(Valid()) && old(waiting) != [] ==> Valid() && waiting == old(waiting)[1..] && done == old(done) + [outcome]
    {
      hide Commands;
      ghost var rest, first := waiting, lastProcessed + 1;
      assert Valid() ==> forall k :: 0 <= k < |rest| ==> Holds(first + k, rest[k]);
      lastProcessed := lastProcessed + 1;
      if waiting != [] {
        done, waiting := done + [outcome], waiting[1..];
      }
      CommandsShrink();
      CommandsAreQueued();
      forall k | old(Valid()) && 0 <= k < |waiting| ensures Holds(lastProcessed + 1 + k, waiting[k]) {
        assert old(Holds(first + (k + 1), rest[k + 1]));
        assert Holds(first + (k + 1), rest[k + 1]);
      }
    }

    /** A processed acquirement is deleted. */
    method Forget(i: nat)
      requires i == lastProcessed
      modifies this`pending
      ensures Commands() <= old(Commands())
      ensures old(Valid()) ==> Valid()
    {
      hide Commands;
      assert Valid() ==> forall k :: 0 <= k < |waiting| ==> Holds(lastProcessed + 1 + k, waiting[k]);
      pending := pending - {i};
      CommandsShrink();
      CommandsAreQueued();
      assert old(Valid()) ==> forall k :: 0 <= k < |waiting| ==> Holds(lastProcessed + 1 + k, waiting[k]);
    }

    method RefreshAcquirement(acquireSeq: nat, timestamp: int) returns (err: Option<AcquirementError>)
      modifies this
      ensures Commands() <= old(Commands()) && lastAppendedNonce == old(lastAppendedNonce)
      ensures old(Valid()) ==> Valid() && (View(), err) == Refresh(old(View()), acquireSeq, timestamp)
    {
      hide Abandon, Valid;
      err := AbandonExpiredAcquirement(timestamp);
      if err.Some? {
        return;
      }
      OneIsPresent(acquireSeq);
      if acquireSeq > lastAssigned || acquireSeq <= lastProcessed {
        return Some(InvalidSequenceError);
      }
      if acquireSeq !in pending {
        return Some(InfoFetchingError);
      }
      var a := pending[acquireSeq];
      if a.lastRefreshed + a.expire < timestamp {
        return Some(ExpireError);
      }
      Touch(acquireSeq, timestamp);
      return None;
    }

    lemma OneIsPresent(i: nat)
      ensures Valid() ==> |waiting| == lastAssigned - lastProcessed && |done| == lastProcessed
      ensures Valid() && lastProcessed < i <= lastAssigned ==> Holds(i, waiting[i - lastProcessed - 1])
    {
      ghost var k := i - lastProcessed - 1;
      assert Valid() && 0 <= k < |waiting| ==> Holds(lastProcessed + 1 + k, waiting[k]);
    }

    method Touch(i: nat, timestamp: int)
      requires lastProcessed < i <= lastAssigned && i in pending
      modifies this`pending, this`waiting
      ensures Commands() <= old(Commands())
      ensures old(Valid()) ==>
                var k := i - lastProcessed - 1;
                Valid() && waiting == old(waiting)[k := old(waiting)[k].(lastRefreshed := timestamp)]
    {
      hide Commands, Apart;
      pending := pending[i := pending[i].(lastRefreshed := timestamp)];
      ghost var at := i - lastProcessed - 1;
      if at < |waiting| {
        waiting := waiting[at := waiting[at].(lastRefreshed := timestamp)];
      }
      CommandsShrink();
      CommandsAreQueued();
      forall k | old(Valid()) && 0 <= k < |waiting| ensures Holds(lastProcessed + 1 + k, waiting[k]) {
        assert old(Holds(lastProcessed + 1 + k, waiting[k]));
      }
    }

    /** The sequence number of an acquirer that is waiting, or 0. */
    method FindAcquirer(acquirer: string) returns (sequence: nat, err: Option<AcquirementError>)
      ensures Valid() ==>
                && err.None?
                && var p := Position(waiting, acquirer);
                   sequence == if p < |waiting| then lastProcessed + 1 + p else 0
    {
      hide Valid;
      OneIsPresent(lastAssigned);
      var i := lastProcessed + 1;
      while i <= lastAssigned
        invariant lastProcessed < i && (i <= lastAssigned + 1 || i == lastProcessed + 1)
        invariant Valid() ==>
                    var n := i - lastProcessed - 1;
                    n <= |waiting| && Position(waiting, acquirer) == n + Position(waiting[n..], acquirer)
      {
        ghost var n := i - lastProcessed - 1;
        OneIsPresent(i);
        assert Valid() ==> waiting[n..][0] == waiting[n] && waiting[n..][1..] == waiting[n + 1..];
        if i !in pending {
          return 0, Some(InfoFetchingError);
        }
        if pending[i].acquirer == acquirer {
          return i, None;
        }
        i := i + 1;
      }
      OneIsPresent(lastAssigned);
      assert Valid() ==> i - lastProcessed - 1 == |waiting|;
      assert Valid() ==> waiting[i - lastProcessed - 1..] == [];
      return 0, None;
    }

    /** The command, an object that is not here yet, waits itself, unless its acquirer is waiting already. */
    method InsertNewAcquirement(command: CommandDLock, timestamp: int, expire: nat)
      returns (sequence: nat, err: Option<AcquirementError>)
      modifies this
      ensures Commands() <= old(Commands()) + {command}
      ensures lastAssigned > old(lastAssigned) ==> lastAssigned in pending && pending[lastAssigned].command == command
      ensures old(Valid()) && command !in old(Commands()) ==>
                Valid() && err.None? && (View(), sequence) == InsertNew(old(View()), command.content, timestamp, expire)
    {
      hide Abandon, Position, Valid;
      sequence := 0;
      err := AbandonExpiredAcquirement(timestamp);
      if err.Some? {
        return;
      }
      OneIsPresent(lastAssigned);
      var dlockInfo := command.GetAsDLockInfo();
      sequence, err := FindAcquirer(dlockInfo.newOwner);
      if err.Some? || sequence != 0 {
        return;
      }
      Enqueue(dlockInfo.newOwner, timestamp, expire, command);
      return lastAssigned, None;
    }

    method Enqueue(acquirer: string, timestamp: int, expire: nat, command: CommandDLock)
      modifies this`pending, this`waiting, this`lastAssigned
      ensures Commands() <= old(Commands()) + {command} && lastAssigned == old(lastAssigned) + 1
      ensures lastAssigned in pending && pending[lastAssigned].command == command
      ensures old(Valid()) && command !in old(Commands()) ==>
                Valid() && waiting == old(waiting) + [Acquirement(acquirer, timestamp, expire, command.content)]
    {
      hide Commands, Apart;
      CommandsAreQueued();
      lastAssigned := lastAssigned + 1;
      pending := pending[lastAssigned := AcquirementInfo(acquirer, timestamp, expire, command)];
      waiting := waiting + [Acquirement(acquirer, timestamp, expire, command.content)];
      CommandsGrow(command);
      CommandsAreQueued();
      forall k | old(Valid()) && 0 <= k < |waiting| ensures Holds(lastProcessed + 1 + k, waiting[k]) {
        assert k < |old(waiting)| ==> old(Holds(lastProcessed + 1 + k, waiting[k]));
      }
    }

    /** Looking and popping rewrite the content of the first command, and of no other object. */
    method FetchFirstValidAcquirement(popTag: bool, timestamp: int)
      returns (command: Option<CommandDLock>, err: Option<AcquirementError>)
      modifies this, Commands()
      ensures Commands() <= old(Commands())
      ensures forall c :: c in old(Commands()) && command != Some(c) ==> c.content == old(c.content)
      ensures old(Valid()) ==>
                && Valid() && err.None?
                && var (q, info) := FetchFirst(old(View()), popTag, timestamp);
                   View() == q && (command.Some? <==> info.Some?)
                   && (command.Some? ==>
                         && command.value in old(Commands()) && Some(command.value.content) == info
                         && old(command.value.content).lockName == info.value.lockName)
    {
      hide Abandon, Valid;
      command := None;
      err := AbandonExpiredAcquirement(timestamp);
      if err.Some? {
        return;
      }
      FirstIsPresent();
      if lastAssigned == lastProcessed {
        return None, None;
      }
      var first := lastProcessed + 1;
      if first !in pending {
        return None, Some(InfoFetchingError);
      }
      var a := pending[first];
      var dlockInfo := a.command.GetAsDLockInfo();
      dlockInfo := dlockInfo.(timestamp := timestamp, lockNonce := lastAppendedNonce + 1);
      StampFirst(a.command, dlockInfo);
      if popTag {
        DropFirst(Granted(Acquirement(a.acquirer, a.lastRefreshed, a.expire, dlockInfo), timestamp, dlockInfo.lockNonce));
      }
      return Some(a.command), None;
    }

    /** The content of the first command is replaced. */
    method StampFirst(command: CommandDLock, info: LockInfo)
      requires lastProcessed + 1 in pending && pending[lastProcessed + 1].command == command
      modifies this`waiting, command
      ensures command.content == info && Commands() == old(Commands())
      ensures old(Valid()) && old(waiting) != [] ==> Valid() && waiting == old(waiting)[0 := old(waiting)[0].(command := info)]
    {
      hide Commands;
      command.SetAsDLockInfo(info);
      if waiting != [] {
        waiting := waiting[0 := waiting[0].(command := info)];
      }
      CommandsStay();
      CommandsAreQueued();
      forall k | old(Valid()) && 0 <= k < |waiting| ensures Holds(lastProcessed + 1 + k, waiting[k]) {
        assert old(Holds(lastProcessed + 1 + k, waiting[k]));
      }
    }

    /** An entry of this lock has been appended to the log. */
    method CountAppended()
      modifies this`lastAppendedNonce
      ensures lastAppendedNonce == old(lastAppendedNonce) + 1 && Commands() == old(Commands())
      ensures old(Valid()) ==> Valid() && View() == old(View()).(lastAppendedNonce := lastAppendedNonce)
    {
      lastAppendedNonce := lastAppendedNonce + 1;
    }

    method QueryPending() returns (n: int)
      ensures Valid() ==> n == |View().waiting|
    {
      n := lastAssigned - lastProcessed;
    }
  }
}

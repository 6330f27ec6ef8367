/**
 How often one entry is attempted in any run at all, with failing store transactions and crashes anywhere: at most
 MAX_RETRIES times for each drain goroutine, because an entry that was begun is in no snapshot until a retry of it
 was recorded (apps/backend/internal/sync/coordinator.go and apps/backend/internal/store/wal.go).
 */
module AttemptCap {
  import opened Wire
  import opened Decimal
  import opened Bolt
  import opened Wal
  import opened Coordinator
  import opened QueueRuns
  import opened AttemptBound

  // ---------------------------------------------------------------------------------------------
  // How many attempts are left
  // ---------------------------------------------------------------------------------------------

  /**
   How often a thread may still attempt the entry that is stored: while it is pending, once for each retry left;
   otherwise a retry has to be recorded first, except for the copy in its snapshot.
   */
  function Left(stored: Option<WALEntry>, th: Thread, id: string): nat {
    match stored
    case None => 0
    case Some(e) =>
      var copy := if IsStale(th, id) then 1 else 0;
      if e.retries >= MAX_RETRIES then copy
      else if e.status == Pending then MAX_RETRIES - e.retries
      else MAX_RETRIES - e.retries - 1 + copy
  }

  function Total(stored: Option<WALEntry>, threads: seq<Thread>, id: string): nat {
    if threads == [] then 0 else Left(stored, threads[0], id) + Total(stored, threads[1..], id)
  }

  /** A transaction that was not about this entry, or deleted it, moved it out of pending, or recorded a retry. */
  predicate Eases(stored: Option<WALEntry>, stored': Option<WALEntry>) {
    stored' == None || stored' == stored ||
    (stored.Some? && stored'.Some? &&
     if stored'.value.status == Pending then stored'.value.retries > stored.value.retries
     else stored'.value.retries >= stored.value.retries)
  }

  lemma LeftEases(stored: Option<WALEntry>, stored': Option<WALEntry>, th: Thread, th': Thread, id: string)
    requires Eases(stored, stored') && (IsStale(th', id) ==> IsStale(th, id))
    ensures Left(stored', th', id) <= Left(stored, th, id)
  {
    hide IsStale;
  }

  /** Starting the delivery of the copy in the snapshot uses up one of the attempts left. */
  lemma LeftBegins(e: WALEntry, e': WALEntry, th: Thread, th': Thread, id: string)
    requires e'.retries == e.retries && e'.status == InFlight && IsStale(th, id) && !IsStale(th', id)
    ensures Left(Some(e'), th', id) + 1 <= Left(Some(e), th, id)
  {
    hide IsStale;
  }

  lemma {:induction false} TotalShrinks(stored: Option<WALEntry>, stored': Option<WALEntry>,
                                        threads: seq<Thread>, threads': seq<Thread>, id: string, t: nat, used: nat)
    requires |threads| == |threads'|
    requires forall u | 0 <= u < |threads| ::
               Left(stored', threads'[u], id) + (if u == t then used else 0) <= Left(stored, threads[u], id)
    ensures Total(stored', threads', id) + (if t < |threads| then used else 0) <= Total(stored, threads, id)
    decreases |threads|
  {
    hide Left;
    if threads != [] {
      forall u | 0 <= u < |threads[1..]|
        ensures Left(stored', threads'[1..][u], id) + (if t > 0 && u == t - 1 then used else 0)
             <= Left(stored, threads[1..][u], id)
      {
        assert threads[1..][u] == threads[u + 1] && threads'[1..][u] == threads'[u + 1];
      }
      if t == 0 {
        TotalShrinks(stored, stored', threads[1..], threads'[1..], id, |threads|, used);
      } else {
        TotalShrinks(stored, stored', threads[1..], threads'[1..], id, t - 1, used);
      }
    }
  }

  lemma {:induction false} TotalOfNew(e: WALEntry, threads: seq<Thread>, id: string)
    requires e.status == Pending && e.retries == 0
    ensures Total(Some(e), threads, id) == MAX_RETRIES * |threads|
    decreases |threads|
  {
    if threads != [] {
      hide IsStale;
      TotalOfNew(e, threads[1..], id);
    }
  }

  lemma {:induction false} TotalOfNone(threads: seq<Thread>, id: string)
    ensures Total(None, threads, id) == 0
    decreases |threads|
  {
    if threads != [] {
      TotalOfNone(threads[1..], id);
    }
  }

  // ---------------------------------------------------------------------------------------------
  // Every step keeps the sum
  // ---------------------------------------------------------------------------------------------

  /** Attempts made and attempts left are at most MAX_RETRIES for each thread. */
  ghost predicate Capped(s: State, id: string) {
    && (forall t | 0 <= t < |s.threads| :: DistinctIds(Holds(s.threads[t])))
    && (Enqueued(id) !in s.events ==> s.events[Attempt(id)] == 0)
    && s.events[Attempt(id)] + Total(Get(s.log, id), s.threads, id) <= MAX_RETRIES * |s.threads|
  }

  /** A step of thread `t` with `used` attempts of the entry. */
  lemma ThreadCap(s: State, s': State, t: nat, id: string, used: nat)
    requires Capped(s, id) && t < |s.threads| == |s'.threads| && s'.threads == s.threads[t := s'.threads[t]]
    requires DistinctIds(Holds(s'.threads[t])) && Eases(Get(s.log, id), Get(s'.log, id))
    requires Left(Get(s'.log, id), s'.threads[t], id) + used <= Left(Get(s.log, id), s.threads[t], id)
    requires s'.events[Attempt(id)] == s.events[Attempt(id)] + used
    requires (Enqueued(id) in s.events <==> Enqueued(id) in s'.events) && (used > 0 ==> Enqueued(id) in s.events)
    ensures Capped(s', id)
  {
    hide Eases, Left, DistinctIds, Get;
    forall u | 0 <= u < |s.threads|
      ensures Left(Get(s'.log, id), s'.threads[u], id) + (if u == t then used else 0)
           <= Left(Get(s.log, id), s.threads[u], id)
    {
      LeftEases(Get(s.log, id), Get(s'.log, id), s.threads[u], s.threads[u], id);
    }
    TotalShrinks(Get(s.log, id), Get(s'.log, id), s.threads, s'.threads, id, t, used);
  }

  /** A step of thread `t` without an attempt, after which its snapshot holds no new copy. */
  lemma QuietCap(s: State, s': State, t: nat, id: string)
    requires Capped(s, id) && t < |s.threads| == |s'.threads| && s'.threads == s.threads[t := s'.threads[t]]
    requires DistinctIds(Holds(s'.threads[t])) && Eases(Get(s.log, id), Get(s'.log, id))
    requires IsStale(s'.threads[t], id) ==> IsStale(s.threads[t], id)
    requires s'.events[Attempt(id)] == s.events[Attempt(id)]
    requires Enqueued(id) in s.events <==> Enqueued(id) in s'.events
    ensures Capped(s', id)
  {
    hide IsStale, Capped, DistinctIds, Get, Eases;
    LeftEases(Get(s.log, id), Get(s'.log, id), s.threads[t], s'.threads[t], id);
    ThreadCap(s, s', t, id, 0);
  }

  lemma EnqueueCap(s: State, step: Step, id: string)
    requires Inv(s) && Capped(s, id) && step.Enqueue?
    ensures Capped(Apply(s, step), id)
  {
    var key := Key(s.sequence + 1);
    var e := WALEntry(key, step.peerID, step.op, step.payload, Pending, 0, step.now, step.now);
    EnqueueKeepsInv(s, step);
    PutSpec(s.log, key, e);
    hide Inv, Key, Put, Get, DistinctIds;
    if id == key {
      TotalOfNew(e, s.threads, id);
    }
  }

  /** A snapshot holds a copy that can be attempted only of an entry that is pending and has retries left. */
  lemma SnapshotCap(s: State, t: nat, keep: WALEntry -> bool, onlineOnly: bool, id: string)
    requires Inv(s) && Capped(s, id) && t < |s.threads| && s.threads[t].Asleep?
    requires forall e :: keep(e) ==> e.status == Pending
    ensures Capped(s.(threads := s.threads[t := Draining(Select(s.log, keep), onlineOnly)]), id)
  {
    var th := Draining(Select(s.log, keep), onlineOnly);
    FreshSnapshot(s.log, keep, onlineOnly, id);
    SelectSpec(s.log, keep);
    assert Left(Get(s.log, id), th, id) <= Left(Get(s.log, id), s.threads[t], id);
    hide Inv, Select, Left, Capped, Get, DistinctIds;
    ThreadCap(s, s.(threads := s.threads[t := th]), t, id, 0);
  }

  lemma MoveCap(s: State, step: Step, id: string)
    requires Inv(s) && Capped(s, id) && Enabled(s, step) && (step.Pass? || step.Leave? || step.Succeed?)
    ensures Capped(Apply(s, step), id)
  {
    var before := s.threads[step.t];
    assert DistinctIds(Holds(before));
    if step.Pass? {
      DropFirst(before.rest);
    }
    hide Inv, Capped, DistinctIds, Get;
    QuietCap(s, Apply(s, step), step.t, id);
  }

  lemma RetryEases(log: Log, key: string, stored: bool, now: int, id: string)
    requires WellKeyed(log)
    ensures Eases(Get(log, id), Get(Commit(log, Retry(log, key, now), stored), id))
  {
    if Get(log, key).Some? {
      RetrySpec(log, key, now);
    }
    hide Get, WellKeyed;
  }

  lemma StatusEases(log: Log, key: string, status: Status, stored: bool, now: int, id: string)
    requires WellKeyed(log) && status != Pending
    ensures Eases(Get(log, id), Get(Commit(log, SetStatus(log, key, status, now), stored), id))
  {
    if Get(log, key).Some? {
      SetStatusSpec(log, key, status, now);
    }
    hide Get, WellKeyed;
  }

  /** The thread goes on with the rest of its snapshot. */
  lemma RestIsDistinct(before: Thread, id: string)
    requires DistinctIds(Holds(before)) && before != Asleep && Holds(before) != []
    ensures var th := Draining(if before.Draining? then before.rest[1..] else before.rest, before.onlineOnly);
            DistinctIds(Holds(th)) && (IsStale(th, id) ==> IsStale(before, id))
  {
    DropFirst(Holds(before));
    assert before.Draining? || Holds(before)[1..] == before.rest;
  }

  lemma RetryCap(s: State, step: Step, id: string)
    requires Inv(s) && Capped(s, id) && Enabled(s, step) && (step.GiveUp? || step.Fail?)
    ensures Capped(Apply(s, step), id)
  {
    var before := s.threads[step.t];
    RestIsDistinct(before, id);
    RetryEases(s.log, if step.GiveUp? then before.rest[0].id else before.entry.id, step.stored, step.now, id);
    hide Inv, Capped, DistinctIds, Get, IsStale, Eases, Retry, Commit, Holds;
    QuietCap(s, Apply(s, step), step.t, id);
  }

  lemma DoneCap(s: State, step: Step, id: string)
    requires Inv(s) && Capped(s, id) && Enabled(s, step) && step.Done?
    ensures Capped(Apply(s, step), id)
  {
    var before := s.threads[step.t];
    assert DistinctIds(Holds(before));
    StatusEases(s.log, before.entry.id, Status.Done, step.stored, step.now, id);
    hide Inv, Capped, DistinctIds, Get, Eases, SetStatus, Commit;
    QuietCap(s, Apply(s, step), step.t, id);
  }

  lemma RemoveCap(s: State, step: Step, id: string)
    requires Inv(s) && Capped(s, id) && Enabled(s, step) && step.Remove?
    ensures Capped(Apply(s, step), id)
  {
    var before := s.threads[step.t];
    RestIsDistinct(before, id);
    DeleteSpec(s.log, before.entry.id);
    hide Inv, Capped, DistinctIds, Get, Delete, IsStale, Holds;
    QuietCap(s, Apply(s, step), step.t, id);
  }

  /** A thread that goes on to its next entry, delivering it or not, holds no further copy of it. */
  lemma HeadIsOnlyCopy(before: Thread, th: Thread, id: string)
    requires before.Draining? && before.rest != [] && DistinctIds(before.rest)
    requires before.rest[0].retries < MAX_RETRIES
    requires th == Draining(before.rest[1..], before.onlineOnly)
          || th == Delivering(before.rest[0], before.rest[1..], before.onlineOnly)
    ensures DistinctIds(Holds(th)) && (IsStale(th, id) ==> IsStale(before, id))
    ensures IsStale(before, before.rest[0].id) && !IsStale(th, before.rest[0].id)
  {
    DropFirst(before.rest);
    assert Holds(th) == before.rest || Holds(th) == before.rest[1..];
  }

  /** Moving on to the delivery of the next entry; only a delivery of the entry itself is an attempt. */
  lemma BeginCap(s: State, step: Step, id: string)
    requires Inv(s) && Capped(s, id) && Enabled(s, step) && step.Begin?
    ensures Capped(Apply(s, step), id)
  {
    var before := s.threads[step.t];
    var e := before.rest[0];
    var s' := Apply(s, step);
    var th := s'.threads[step.t];
    assert ThreadKnown(s, before) && WellKeyed(s.log);
    hide Inv, DistinctIds, IsStale;
    HeadIsOnlyCopy(before, th, id);
    hide Capped, Left, Eases, Holds, WellKeyed;
    StatusEases(s.log, e.id, InFlight, step.stored, step.now, id);
    if step.stored && Get(s.log, e.id).Some? && e.id == id {
      SetStatusSpec(s.log, id, InFlight, step.now);
      hide Get;
      LeftBegins(Get(s.log, id).value, Get(s'.log, id).value, before, th, id);
      ThreadCap(s, s', step.t, id, 1);
    } else {
      hide Get, SetStatus, Commit;
      QuietCap(s, s', step.t, id);
    }
  }

  lemma CrashCap(s: State, id: string)
    requires Capped(s, id)
    ensures Capped(Apply(s, Crash), id)
  {
    var s' := Apply(s, Crash);
    hide Get;
    forall u | 0 <= u < |s.threads|
      ensures Left(Get(s.log, id), s'.threads[u], id) <= Left(Get(s.log, id), s.threads[u], id)
    {
      LeftEases(Get(s.log, id), Get(s.log, id), s.threads[u], Asleep, id);
    }
    hide Left;
    TotalShrinks(Get(s.log, id), Get(s.log, id), s.threads, s'.threads, id, 0, 0);
  }

  lemma SnapshotStepCap(s: State, step: Step, id: string)
    requires Inv(s) && Capped(s, id) && Enabled(s, step) && (step.DrainPeer? || step.Poll?)
    ensures Capped(Apply(s, step), id)
  {
    if step.DrainPeer? {
      SnapshotCap(s, step.t, (e: WALEntry) => IsPendingFor(e, step.peerID), false, id);
    } else {
      SnapshotCap(s, step.t, (e: WALEntry) => IsPending(e), true, id);
    }
    hide Capped, Inv;
  }

  lemma StepCap(s: State, step: Step, id: string)
    requires Inv(s) && Capped(s, id) && Enabled(s, step)
    ensures Capped(Apply(s, step), id)
  {
    hide Inv;
    match step
    case Enqueue(_, _, _, _) => EnqueueCap(s, step, id);
    case SetOnline(_, _) =>
    case DrainPeer(_, _) => SnapshotStepCap(s, step, id);
    case Poll(_) => SnapshotStepCap(s, step, id);
    case GiveUp(_, _, _) => RetryCap(s, step, id);
    case Fail(_, _, _) => RetryCap(s, step, id);
    case Begin(_, _, _) => BeginCap(s, step, id);
    case Done(_, _, _) => DoneCap(s, step, id);
    case Remove(_, _) => RemoveCap(s, step, id);
    case Crash => CrashCap(s, id);
    case _ => MoveCap(s, step, id);
  }

  /** Every success is that of an attempt, and so is every call that has not returned. */
  ghost predicate Matched(s: State, id: string) {
    s.events[Success(id)] + Count(s.threads, id, InCall) <= s.events[Attempt(id)]
  }

  lemma StepMatched(s: State, step: Step, id: string)
    requires Matched(s, id) && Enabled(s, step)
    ensures Matched(Apply(s, step), id)
  {
    hide Get, Count, Commit, Retry, SetStatus, Delete, Select, Put, Key;
    var s' := Apply(s, step);
    match step {
      case Enqueue(_, _, _, _) =>
      case SetOnline(_, _) =>
      case Crash => CountNone(s'.threads, id, InCall);
      case _ => CountUpdate(s.threads, step.t, s'.threads[step.t], id, InCall);
    }
  }

  lemma {:induction false} ReachesCap(s: State, steps: seq<Step>, s': State, id: string)
    requires Inv(s) && Capped(s, id) && Matched(s, id) && Reaches(s, steps, s')
    ensures Capped(s', id) && Matched(s', id) && |s'.threads| == |s.threads|
    decreases |steps|
  {
    if steps != [] {
      StepKeepsInv(s, steps[0]);
      StepCap(s, steps[0], id);
      StepMatched(s, steps[0], id);
      assert |Apply(s, steps[0]).threads| == |s.threads|;
      hide Inv, Capped, Matched, Apply, Enabled;
      ReachesCap(Apply(s, steps[0]), steps[1..], s', id);
    }
  }

  /**
   In every run of `d` drain goroutines, whatever store transactions fail and whenever the process crashes, no entry
   is attempted more than MAX_RETRIES * d times, and it is delivered at most as often as it is attempted.
   */
  lemma AttemptsAreCapped(d: nat, steps: seq<Step>, s: State, id: string)
    requires Reaches(Init(d), steps, s)
    ensures s.events[Success(id)] <= s.events[Attempt(id)] <= 10 * d
  {
    InitInv(d);
    TotalOfNone(Init(d).threads, id);
    CountNone(Init(d).threads, id, InCall);
    assert Capped(Init(d), id);
    ReachesCap(Init(d), steps, s, id);
  }

  // ---------------------------------------------------------------------------------------------
  // The cap is reached
  // ---------------------------------------------------------------------------------------------

  lemma {:induction false} ReachesOn(s: State, steps: seq<Step>, m: State, more: seq<Step>, s': State)
    requires Reaches(s, steps, m) && Reaches(m, more, s')
    ensures Reaches(s, steps + more, s')
    decreases |steps|
  {
    hide Apply, Enabled;
    if steps == [] {
      assert steps + more == more;
    } else {
      ReachesOn(Apply(s, steps[0]), steps[1..], m, more, s');
      assert (steps + more)[1..] == steps[1..] + more;
    }
  }

  /** Only the first entry is stored, with `e` as its value. */
  predicate Holding(s: State, e: WALEntry) {
    s.log == [(e.id, e)]
  }

  /** A thread attempts the copy in its snapshot, the delivery fails, and the failure is recorded or not. */
  lemma OneAttempt(s: State, t: nat, copy: WALEntry, x: WALEntry, stored: bool, now: int)
    returns (steps: seq<Step>, s': State)
    requires t < |s.threads| && s.threads[t] == Draining([copy], false) && copy.retries < MAX_RETRIES
    requires copy.id == x.id && Holding(s, x)
    ensures Reaches(s, steps, s') && s'.threads == s.threads[t := Asleep]
    ensures s'.events[Attempt(x.id)] == s.events[Attempt(x.id)] + 1
    ensures Holding(s', if stored then x.(status := Pending, retries := x.retries + 1, updatedAt := now)
                        else x.(status := InFlight, updatedAt := now))
  {
    hide Get, SetStatus, Retry, Reaches;
    var y := x.(status := InFlight, updatedAt := now);
    OnlyEntry(x, (e: WALEntry) => true, InFlight, now);
    OnlyEntry(y, (e: WALEntry) => true, InFlight, now);
    assert [copy][1..] == [];
    var s1 := Apply(s, Begin(t, true, now));
    assert s1.threads[t] == Delivering(copy, [], false) && s1.log == [(y.id, y)];
    var s2 := Apply(s1, Fail(t, stored, now));
    assert s2.threads[t] == Draining([], false);
    s' := Apply(s2, Leave(t));
    assert s'.threads == s.threads[t := Asleep];
    assert Enabled(s, Begin(t, true, now)) && Enabled(s1, Fail(t, stored, now)) && Enabled(s2, Leave(t));
    hide Apply, Enabled;
    NothingDone(s');
    StepThen(s2, Leave(t), [], s');
    StepThen(s1, Fail(t, stored, now), [Leave(t)] + [], s');
    StepThen(s, Begin(t, true, now), [Fail(t, stored, now)] + ([Leave(t)] + []), s');
    steps := [Begin(t, true, now)] + ([Fail(t, stored, now)] + ([Leave(t)] + []));
  }

  lemma NothingDone(s: State)
    ensures Reaches(s, [], s)
  {
  }

  /** The first `k` threads take a snapshot of the pending entry. */
  lemma {:induction false} AllSnapshots(s: State, e: WALEntry, k: nat) returns (steps: seq<Step>, s': State)
    requires k <= |s.threads| && Holding(s, e) && e.status == Pending
    requires forall t | 0 <= t < |s.threads| :: s.threads[t] == Asleep
    ensures Reaches(s, steps, s') && |s'.threads| == |s.threads| && s'.log == s.log && s'.events == s.events
    ensures forall t | 0 <= t < |s.threads| :: s'.threads[t] == if t < k then Draining([e], false) else Asleep
    decreases k
  {
    hide Select, Reaches;
    NothingDone(s);
    steps, s' := [], s;
    if k > 0 {
      var m;
      steps, m := AllSnapshots(s, e, k - 1);
      OnlyEntry(e, (x: WALEntry) => IsPendingFor(x, e.peerID), InFlight, 0);
      s' := Apply(m, DrainPeer(k - 1, e.peerID));
      NothingDone(s');
      StepThen(m, DrainPeer(k - 1, e.peerID), [], s');
      ReachesOn(s, steps, m, [DrainPeer(k - 1, e.peerID)] + [], s');
      steps := steps + ([DrainPeer(k - 1, e.peerID)] + []);
    }
  }

  /** The first `k` threads attempt their copies; only the last of all records its failure. */
  lemma {:induction false} AllAttempts(s: State, e: WALEntry, k: nat) returns (steps: seq<Step>, s': State)
    requires k <= |s.threads| && Holding(s, e) && e.status == Pending && e.retries < MAX_RETRIES
    requires forall t | 0 <= t < |s.threads| :: s.threads[t] == Draining([e], false)
    ensures Reaches(s, steps, s') && |s'.threads| == |s.threads|
    ensures s'.events[Attempt(e.id)] == s.events[Attempt(e.id)] + k
    ensures forall t | 0 <= t < |s.threads| :: s'.threads[t] == if t < k then Asleep else Draining([e], false)
    ensures Holding(s', if k == 0 then e
                        else if k < |s.threads| then e.(status := InFlight)
                        else e.(retries := e.retries + 1))
    decreases k
  {
    NothingDone(s);
    hide Reaches;
    steps, s' := [], s;
    if k > 0 {
      var m, last;
      steps, m := AllAttempts(s, e, k - 1);
      var x := if k == 1 then e else e.(status := InFlight);
      last, s' := OneAttempt(m, k - 1, e, x, k == |s.threads|, e.updatedAt);
      ReachesOn(s, steps, m, last, s');
      steps := steps + last;
    }
  }

  /** All threads attempt the entry once for each of the first `r` retries. */
  lemma {:induction false} AllRetries(s: State, e: WALEntry, r: nat) returns (steps: seq<Step>, s': State)
    requires |s.threads| > 0 && Holding(s, e) && e.status == Pending && e.retries == 0 && r <= MAX_RETRIES
    requires forall t | 0 <= t < |s.threads| :: s.threads[t] == Asleep
    ensures Reaches(s, steps, s') && |s'.threads| == |s.threads| && Holding(s', e.(retries := r))
    ensures forall t | 0 <= t < |s.threads| :: s'.threads[t] == Asleep
    ensures s'.events[Attempt(e.id)] == s.events[Attempt(e.id)] + r * |s.threads|
    decreases r
  {
    NothingDone(s);
    hide Reaches;
    steps, s' := [], s;
    if r > 0 {
      var m, n, more, last;
      steps, m := AllRetries(s, e, r - 1);
      more, n := AllSnapshots(m, e.(retries := r - 1), |s.threads|);
      last, s' := AllAttempts(n, e.(retries := r - 1), |s.threads|);
      ReachesOn(s, steps, m, more, n);
      ReachesOn(s, steps + more, n, last, s');
      steps := steps + more + last;
      assert r * |s.threads| == (r - 1) * |s.threads| + |s.threads|;
    }
  }

  /** The cap is the least: with any number of drain goroutines some run reaches it. */
  lemma CapIsReached(d: nat) returns (steps: seq<Step>, s: State)
    requires d > 0
    ensures Reaches(Init(d), steps, s) && s.events[Attempt(Key(1))] == 10 * d
  {
    var enqueue := Enqueue("", "", [], 0);
    var e := WALEntry(Key(1), "", "", [], Pending, 0, 0, 0);
    hide Key;
    var first := Apply(Init(d), enqueue);
    assert Holding(first, e);
    hide Reaches;
    steps, s := AllRetries(first, e, MAX_RETRIES);
    StepThen(Init(d), enqueue, steps, s);
    steps := [enqueue] + steps;
  }
}

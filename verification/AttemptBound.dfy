/**
 How often one entry is delivered when several drain goroutines work on stale snapshots: with D of them, failures and
 removals that are recorded and no crash, at most MAX_RETRIES + D - 1 attempts and at most D successes.
 */
module AttemptBound {
  import opened Wire
  import opened Decimal
  import opened Bolt
  import opened Wal
  import opened Coordinator
  import opened QueueRuns

  // ---------------------------------------------------------------------------------------------
  // Counting threads
  // ---------------------------------------------------------------------------------------------

  datatype Kind = InCall | Busy | Live

  predicate IsBusy(th: Thread, id: string) {
    (th.Delivering? || th.Delivered? || th.Removing?) && th.entry.id == id
  }

  /** The rest of the snapshot lets the thread start a delivery of `id`. */
  predicate IsStale(th: Thread, id: string) {
    !th.Asleep? && exists e :: e in th.rest && e.id == id && e.retries < MAX_RETRIES
  }

  predicate Is(th: Thread, id: string, kind: Kind) {
    match kind
    case InCall => th.Delivering? && th.entry.id == id
    case Busy => IsBusy(th, id)
    case Live => IsBusy(th, id) || IsStale(th, id)
  }

  function Count(threads: seq<Thread>, id: string, kind: Kind): nat {
    if threads == [] then 0 else (if Is(threads[0], id, kind) then 1 else 0) + Count(threads[1..], id, kind)
  }

  lemma {:induction false} CountUpdate(threads: seq<Thread>, t: nat, th: Thread, id: string, kind: Kind)
    requires t < |threads|
    ensures Count(threads[t := th], id, kind)
         == Count(threads, id, kind) - (if Is(threads[t], id, kind) then 1 else 0) + (if Is(th, id, kind) then 1 else 0)
    decreases t
  {
    hide Is;
    if t == 0 {
      assert threads[0 := th][1..] == threads[1..];
    } else {
      CountUpdate(threads[1..], t - 1, th, id, kind);
      assert threads[t := th][1..] == threads[1..][t - 1 := th];
    }
  }

  lemma {:induction false} CountBounds(threads: seq<Thread>, id: string)
    ensures Count(threads, id, InCall) <= Count(threads, id, Busy) <= Count(threads, id, Live) <= |threads|
    decreases |threads|
  {
    hide IsStale;
    if threads != [] {
      CountBounds(threads[1..], id);
    }
  }

  lemma {:induction false} CountNone(threads: seq<Thread>, id: string, kind: Kind)
    requires forall t | 0 <= t < |threads| :: !Is(threads[t], id, kind)
    ensures Count(threads, id, kind) == 0
    decreases |threads|
  {
    hide Is;
    if threads != [] {
      CountNone(threads[1..], id, kind);
    }
  }

  // ---------------------------------------------------------------------------------------------
  // The invariant for one entry
  // ---------------------------------------------------------------------------------------------

  ghost predicate DistinctIds(es: seq<WALEntry>) {
    forall i, j | 0 <= i < j < |es| :: es[i].id != es[j].id
  }

  /** Snapshots hold an entry once, with at most as many retries as are stored now. */
  ghost predicate Older(log: Log, th: Thread, id: string) {
    && DistinctIds(Holds(th))
    && (Get(log, id).Some? ==> forall e | e in Holds(th) && e.id == id :: e.retries <= Get(log, id).value.retries)
  }

  ghost predicate Bounded(s: State, id: string) {
    && s.events[Attempt(id)] <= MAX_RETRIES + |s.threads| - 1
    && s.events[Success(id)] + Count(s.threads, id, InCall) <= |s.threads|
  }

  /** While the entry is stored, its counters tell what happened to it. */
  ghost predicate Accounted(s: State, id: string) {
    Get(s.log, id).Some? ==>
      var retries := Get(s.log, id).value.retries;
      && retries == s.events[Failure(id)] + s.events[GaveUp(id)]
      && s.events[Attempt(id)] == s.events[Failure(id)] + Count(s.threads, id, Busy)
      && s.events[Success(id)] == Count(s.threads, id, Busy) - Count(s.threads, id, InCall)
      && (retries < MAX_RETRIES ==> s.events[GaveUp(id)] == 0)
      && (retries >= MAX_RETRIES ==>
            && s.events[Failure(id)] >= MAX_RETRIES
            && s.events[Failure(id)] + Count(s.threads, id, Live) <= MAX_RETRIES + |s.threads| - 1)
  }

  ghost predicate Untouched(s: State, id: string) {
    Enqueued(id) !in s.events ==>
      && Attempt(id) !in s.events && Success(id) !in s.events && Failure(id) !in s.events && GaveUp(id) !in s.events
  }

  ghost predicate Aged(log: Log, threads: seq<Thread>, id: string) {
    forall t | 0 <= t < |threads| :: Older(log, threads[t], id)
  }

  ghost predicate Entry(s: State, id: string) {
    && |s.threads| >= 1
    && Aged(s.log, s.threads, id)
    && Bounded(s, id) && Accounted(s, id) && Untouched(s, id)
  }

  /** Failures and removals are recorded, and the process does not crash. */
  predicate Reliable(step: Step) {
    match step
    case Crash => false
    case Fail(_, stored, _) => stored
    case Remove(_, stored) => stored
    case _ => true
  }

  // ---------------------------------------------------------------------------------------------
  // Every step keeps it
  // ---------------------------------------------------------------------------------------------

  /** The entry just enqueued: no thread holds it, and nothing has happened to it. */
  lemma NewEntry(s: State, s': State, id: string)
    requires Inv(s) && Entry(s, id) && Enqueued(id) !in s.events
    requires s'.threads == s.threads && s'.events == s.events + multiset{Enqueued(id)}
    requires Get(s'.log, id).Some? && Get(s'.log, id).value.retries == 0
    ensures Entry(s', id)
  {
    UnknownIsIdle(s, id);
    forall t | 0 <= t < |s'.threads|
      ensures Older(s'.log, s'.threads[t], id)
    {
      assert Older(s.log, s.threads[t], id);
    }
    hide Inv, Get, Count, Aged;
  }

  lemma OtherEntry(s: State, s': State, id: string, key: string)
    requires Entry(s, id) && id != key
    requires s'.threads == s.threads && s'.events == s.events + multiset{Enqueued(key)}
    requires Get(s'.log, id) == Get(s.log, id)
    ensures Entry(s', id)
  {
    forall t | 0 <= t < |s'.threads|
      ensures Older(s'.log, s'.threads[t], id)
    {
      assert Older(s.log, s.threads[t], id);
    }
    hide Get, Count, Aged, Older;
  }

  lemma EnqueueKeepsEntry(s: State, step: Step, id: string)
    requires Inv(s) && Entry(s, id) && step.Enqueue?
    ensures Entry(Apply(s, step), id)
  {
    var key := Key(s.sequence + 1);
    EnqueueKeepsInv(s, step);
    PutSpec(s.log, key, WALEntry(key, step.peerID, step.op, step.payload, Pending, 0, step.now, step.now));
    hide Inv, Key, Put, Entry, Get;
    if id == key {
      NewEntry(s, Apply(s, step), id);
    } else {
      OtherEntry(s, Apply(s, step), id, key);
    }
  }

  /** No thread holds an id that was never enqueued. */
  lemma UnknownIsIdle(s: State, id: string)
    requires Inv(s) && Enqueued(id) !in s.events
    ensures forall kind :: Count(s.threads, id, kind) == 0
    ensures forall t | 0 <= t < |s.threads| :: forall e | e in Holds(s.threads[t]) :: e.id != id
  {
    forall t | 0 <= t < |s.threads|
      ensures forall e | e in Holds(s.threads[t]) :: e.id != id
      ensures forall kind :: !Is(s.threads[t], id, kind)
    {
      assert ThreadKnown(s, s.threads[t]);
    }
    forall kind
      ensures Count(s.threads, id, kind) == 0
    {
      CountNone(s.threads, id, kind);
    }
  }

  function One(th: Thread, id: string, kind: Kind): nat {
    if Is(th, id, kind) then 1 else 0
  }

  /** The counts when thread `t` becomes `th`. */
  lemma Recount(threads: seq<Thread>, t: nat, th: Thread, id: string)
    requires t < |threads|
    ensures var after := threads[t := th];
            && Count(after, id, InCall)
               == Count(threads, id, InCall) - One(threads[t], id, InCall) + One(th, id, InCall)
            && Count(after, id, Busy) == Count(threads, id, Busy) - One(threads[t], id, Busy) + One(th, id, Busy)
            && Count(after, id, Live) == Count(threads, id, Live) - One(threads[t], id, Live) + One(th, id, Live)
            && Count(after, id, InCall) <= Count(after, id, Busy) <= Count(after, id, Live) <= |threads|
            && Count(threads, id, Live) <= |threads|
  {
    hide Is;
    CountUpdate(threads, t, th, id, InCall);
    CountUpdate(threads, t, th, id, Busy);
    CountUpdate(threads, t, th, id, Live);
    CountBounds(threads[t := th], id);
    CountBounds(threads, id);
  }

  lemma AgedAfter(log: Log, log': Log, threads: seq<Thread>, t: nat, th: Thread, id: string)
    requires t < |threads| && Aged(log, threads, id) && Older(log', th, id)
    requires Get(log', id).Some? ==> Get(log, id).Some? && Get(log, id).value.retries <= Get(log', id).value.retries
    ensures Aged(log', threads[t := th], id)
  {
    var after := threads[t := th];
    forall u | 0 <= u < |after|
      ensures Older(log', after[u], id)
    {
      assert Older(log, threads[u], id);
    }
  }

  lemma OlderShrinks(log: Log, log': Log, before: Thread, th: Thread, id: string)
    requires Older(log, before, id) && DistinctIds(Holds(th)) && (forall e | e in Holds(th) :: e in Holds(before))
    requires Get(log', id).Some? ==> Get(log, id).Some? && Get(log, id).value.retries <= Get(log', id).value.retries
    ensures Older(log', th, id)
  {
  }

  lemma DropFirst(es: seq<WALEntry>)
    requires es != [] && DistinctIds(es)
    ensures DistinctIds(es[1..])
    ensures forall e | e in es[1..] :: e in es && e.id != es[0].id
    ensures forall e | e in es :: e == es[0] || e in es[1..]
    ensures [es[0]] + es[1..] == es
  {
    forall e | e in es[1..]
      ensures e.id != es[0].id
    {
      var i :| 0 <= i < |es[1..]| && es[1..][i] == e;
      assert es[i + 1] == e;
    }
  }

  /**
   What a thread's step does to the counters of the entry `e` it works on, as numbers: `retries` stored before,
   the changes of the event counts and of the thread counts.
   */
  ghost predicate Balance(s: State, s': State, id: string, attempts: int, failures: int, giveUps: int, successes: int) {
    && |s'.threads| == |s.threads|
    && s'.events[Attempt(id)] == s.events[Attempt(id)] + attempts
    && s'.events[Failure(id)] == s.events[Failure(id)] + failures
    && s'.events[GaveUp(id)] == s.events[GaveUp(id)] + giveUps
    && s'.events[Success(id)] == s.events[Success(id)] + successes
    && s'.events[Enqueued(id)] == s.events[Enqueued(id)]
    && (Get(s'.log, id).Some? ==>
          && Get(s.log, id).Some?
          && Get(s'.log, id).value.retries == Get(s.log, id).value.retries + failures + giveUps)
  }

  ghost predicate Shifts(s: State, s': State, id: string, inCall: int, busy: int, live: int) {
    && Count(s'.threads, id, InCall) == Count(s.threads, id, InCall) + inCall
    && Count(s'.threads, id, Busy) == Count(s.threads, id, Busy) + busy
    && Count(s'.threads, id, Live) <= Count(s.threads, id, Live) + live
    && Count(s'.threads, id, InCall) <= Count(s'.threads, id, Busy) <= Count(s'.threads, id, Live)
    && Count(s.threads, id, Live) <= |s.threads| && Count(s'.threads, id, Live) <= |s.threads|
  }

  /** The arithmetic of the bound: the kinds of step an entry can see. */
  lemma CountersStayBounded(s: State, s': State, id: string,
                            attempts: nat, failures: nat, giveUps: nat, successes: nat,
                            inCall: int, busy: int, live: int)
    requires |s.threads| >= 1 && Bounded(s, id) && Accounted(s, id) && Untouched(s, id)
    requires attempts + failures + giveUps + successes > 0 ==> Enqueued(id) in s.events
    requires Balance(s, s', id, attempts, failures, giveUps, successes) && Shifts(s, s', id, inCall, busy, live)
    requires inCall + successes <= attempts
    requires
      || (attempts == 1 && failures == giveUps == successes == 0 && Get(s.log, id).Some?
          && inCall == busy == 1 && live == 0)
      || (failures == 1 && attempts == giveUps == successes == 0 && inCall == busy == live == -1)
      || (giveUps == 1 && attempts == failures == successes == 0 && inCall == busy == live == 0
          && (Get(s.log, id).Some? ==> Get(s.log, id).value.retries >= MAX_RETRIES))
      || (successes == 1 && attempts == failures == giveUps == 0 && inCall == -1 && busy == live == 0)
      || (attempts == failures == giveUps == successes == 0
          && (Get(s'.log, id).None?
              || (inCall == busy == 0 && (live == 0 || Get(s'.log, id).value.retries < MAX_RETRIES))))
    ensures Bounded(s', id) && Accounted(s', id) && Untouched(s', id)
  {
    hide Count;
  }

  /** A step of thread `t`, which becomes `th`, as seen by the entry `id`. */
  lemma ThreadStep(s: State, s': State, t: nat, id: string, attempts: nat, failures: nat, giveUps: nat, successes: nat)
    requires Entry(s, id) && t < |s.threads| == |s'.threads| && s'.threads == s.threads[t := s'.threads[t]]
    requires Older(s'.log, s'.threads[t], id)
    requires attempts + failures + giveUps + successes > 0 ==> Enqueued(id) in s.events
    requires Balance(s, s', id, attempts, failures, giveUps, successes)
    requires var before, th := s.threads[t], s'.threads[t];
             var inCall := One(th, id, InCall) - One(before, id, InCall);
             var busy := One(th, id, Busy) - One(before, id, Busy);
             var live := One(th, id, Live) - One(before, id, Live);
             || (attempts == 1 && failures == giveUps == successes == 0 && Get(s.log, id).Some?
                 && inCall == busy == 1 && live <= 0)
             || (failures == 1 && attempts == giveUps == successes == 0 && inCall == busy == live == -1)
             || (giveUps == 1 && attempts == failures == successes == 0 && inCall == busy == 0 && live <= 0
                 && (Get(s.log, id).Some? ==> Get(s.log, id).value.retries >= MAX_RETRIES))
             || (successes == 1 && attempts == failures == giveUps == 0 && inCall == -1 && busy == 0 && live <= 0)
             || (attempts == failures == giveUps == successes == 0 && inCall <= 0
                 && (Get(s'.log, id).None?
                     || (inCall == busy == 0 && (live <= 0 || Get(s'.log, id).value.retries < MAX_RETRIES))))
    ensures Entry(s', id)
  {
    hide One, Is, Older;
    var before, th := s.threads[t], s'.threads[t];
    AgedAfter(s.log, s'.log, s.threads, t, th, id);
    Recount(s.threads, t, th, id);
    var inCall := One(th, id, InCall) - One(before, id, InCall);
    var busy := One(th, id, Busy) - One(before, id, Busy);
    var live := One(th, id, Live) - One(before, id, Live);
    hide Aged, Count;
    CountersStayBounded(s, s', id, attempts, failures, giveUps, successes, inCall, busy,
                        if live < 0 && failures == 0 then 0 else live);
  }

  /** A thread moves past the first entry of its snapshot, delivering it or not. */
  lemma HeadTaken(before: Thread, id: string)
    requires before.Draining? && before.rest != [] && DistinctIds(before.rest)
    ensures var e, rest := before.rest[0], before.rest[1..];
            var passed, begun := Draining(rest, before.onlineOnly), Delivering(e, rest, before.onlineOnly);
            && DistinctIds(rest) && Holds(begun) == Holds(before) && e in Holds(before)
            && (forall x | x in rest :: x in Holds(before))
            && One(before, id, InCall) == One(before, id, Busy) == One(passed, id, InCall) == One(passed, id, Busy) == 0
            && One(passed, id, Live) <= One(before, id, Live)
            && One(begun, id, InCall) == One(begun, id, Busy) == (if e.id == id then 1 else 0)
            && (e.retries < MAX_RETRIES ==> One(begun, id, Live) <= One(before, id, Live))
  {
    DropFirst(before.rest);
  }

  /** A thread is finished with the entry it worked on. */
  lemma EntryDropped(before: Thread, id: string)
    requires before.Delivering? || before.Delivered? || before.Removing?
    requires DistinctIds(Holds(before))
    ensures var th := Draining(before.rest, before.onlineOnly);
            && DistinctIds(before.rest) && before.entry in Holds(before)
            && (forall x | x in before.rest :: x in Holds(before))
            && One(th, id, InCall) == One(th, id, Busy) == 0
            && One(before, id, Busy) == (if before.entry.id == id then 1 else 0)
            && One(before, id, InCall) == (if before.Delivering? && before.entry.id == id then 1 else 0)
            && (before.entry.id == id ==> One(th, id, Live) == 0 && One(before, id, Live) == 1)
            && (before.entry.id != id ==> One(th, id, Live) == One(before, id, Live))
  {
    DropFirst(Holds(before));
    assert Holds(before)[1..] == before.rest;
  }

  lemma TakeSnapshot(s: State, t: nat, keep: WALEntry -> bool, onlineOnly: bool, id: string)
    requires Inv(s) && Entry(s, id) && t < |s.threads| && s.threads[t].Asleep?
    ensures Entry(s.(threads := s.threads[t := Draining(Select(s.log, keep), onlineOnly)]), id)
  {
    var th := Draining(Select(s.log, keep), onlineOnly);
    var s' := s.(threads := s.threads[t := th]);
    FreshSnapshot(s.log, keep, onlineOnly, id);
    assert One(Asleep, id, InCall) == One(Asleep, id, Busy) == One(Asleep, id, Live) == 0;
    hide One, Inv, Older, Select, Aged, Bounded, Accounted, Untouched;
    ThreadStep(s, s', t, id, 0, 0, 0, 0);
  }

  lemma SnapshotKeepsEntry(s: State, step: Step, id: string)
    requires Inv(s) && Entry(s, id) && Enabled(s, step) && (step.DrainPeer? || step.Poll?)
    ensures Entry(Apply(s, step), id)
  {
    if step.DrainPeer? {
      TakeSnapshot(s, step.t, (e: WALEntry) => IsPendingFor(e, step.peerID), false, id);
    } else {
      TakeSnapshot(s, step.t, (e: WALEntry) => IsPending(e), true, id);
    }
    hide Entry, Inv;
  }

  lemma FreshSnapshot(log: Log, keep: WALEntry -> bool, onlineOnly: bool, id: string)
    requires WellKeyed(log)
    ensures var th := Draining(Select(log, keep), onlineOnly);
            && Older(log, th, id)
            && One(th, id, InCall) == One(th, id, Busy) == 0
            && (Get(log, id).None? || Get(log, id).value.retries >= MAX_RETRIES ==> One(th, id, Live) == 0)
  {
    var es := Select(log, keep);
    SelectSpec(log, keep);
    forall i, j | 0 <= i < j < |es|
      ensures es[i].id != es[j].id
    {
      LessTotal(es[i].id, es[j].id);
    }
  }

  lemma MoveKeepsEntry(s: State, step: Step, id: string)
    requires Inv(s) && Entry(s, id) && Enabled(s, step)
    requires step.Pass? || step.Leave? || ((step.GiveUp? || step.Begin?) && !step.stored)
    ensures Entry(Apply(s, step), id)
  {
    var before := s.threads[step.t];
    assert Older(s.log, before, id);
    if !step.Leave? {
      HeadTaken(before, id);
    }
    ThreadStep(s, Apply(s, step), step.t, id, 0, 0, 0, 0);
  }

  lemma GiveUpKeepsEntry(s: State, t: nat, now: int, id: string)
    requires Inv(s) && Entry(s, id) && Enabled(s, GiveUp(t, true, now))
    ensures Entry(Apply(s, GiveUp(t, true, now)), id)
  {
    var s' := Apply(s, GiveUp(t, true, now));
    var before := s.threads[t];
    var e := before.rest[0];
    assert Older(s.log, before, id) && ThreadKnown(s, before);
    HeadTaken(before, id);
    hide One, Inv, Aged, Bounded, Accounted, Untouched;
    if Get(s.log, e.id).Some? {
      RetrySpec(s.log, e.id, now);
    }
    var giveUps := if e.id == id && Get(s.log, id).Some? then 1 else 0;
    assert Older(s'.log, s'.threads[t], id);
    assert Balance(s, s', id, 0, 0, giveUps, 0);
    hide Older, Balance;
    ThreadStep(s, s', t, id, 0, 0, giveUps, 0);
  }

  lemma BeginStarts(s: State, t: nat, now: int, id: string)
    requires Inv(s) && Entry(s, id) && Enabled(s, Begin(t, true, now)) && Get(s.log, s.threads[t].rest[0].id).Some?
    ensures Entry(Apply(s, Begin(t, true, now)), id)
  {
    var s' := Apply(s, Begin(t, true, now));
    var before := s.threads[t];
    var e := before.rest[0];
    var th := Delivering(e, before.rest[1..], before.onlineOnly);
    var log := SetStatus(s.log, e.id, InFlight, now).value;
    assert s' == s.(threads := s.threads[t := th], log := log, events := s.events + multiset{Attempt(e.id)});
    assert Older(s.log, before, id) && ThreadKnown(s, before);
    hide Apply, One, Inv, Aged, Bounded, Accounted, Untouched;
    HeadTaken(before, id);
    SetStatusSpec(s.log, e.id, InFlight, now);
    assert Older(log, th, id);
    assert Balance(s, s', id, if e.id == id then 1 else 0, 0, 0, 0);
    hide Older, Balance, SetStatus;
    ThreadStep(s, s', t, id, if e.id == id then 1 else 0, 0, 0, 0);
  }

  lemma BeginKeepsEntry(s: State, t: nat, now: int, id: string)
    requires Inv(s) && Entry(s, id) && Enabled(s, Begin(t, true, now))
    ensures Entry(Apply(s, Begin(t, true, now)), id)
  {
    var before := s.threads[t];
    var e := before.rest[0];
    if Get(s.log, e.id).Some? {
      BeginStarts(s, t, now, id);
    } else {
      var s' := s.(threads := s.threads[t := Draining(before.rest[1..], before.onlineOnly)]);
      assert Apply(s, Begin(t, true, now)) == s';
      assert Older(s.log, before, id);
      hide Apply, One, Inv, Aged, Bounded, Accounted, Untouched;
      HeadTaken(before, id);
      ThreadStep(s, s', t, id, 0, 0, 0, 0);
    }
  }

  lemma ThreadFacts(s: State, t: nat, id: string)
    requires Inv(s) && Entry(s, id) && t < |s.threads|
    ensures WellKeyed(s.log) && Older(s.log, s.threads[t], id) && ThreadKnown(s, s.threads[t])
  {
  }

  /** What recording a failure does to the state. */
  lemma FailApplied(s: State, t: nat, now: int)
    requires Enabled(s, Fail(t, true, now)) && Get(s.log, s.threads[t].entry.id).Some?
    ensures var th := s.threads[t];
            && Retry(s.log, th.entry.id, now).Some?
            && Apply(s, Fail(t, true, now))
               == s.(threads := s.threads[t := Draining(th.rest, th.onlineOnly)],
                     log := Retry(s.log, th.entry.id, now).value,
                     events := s.events + multiset{Failure(th.entry.id)})
  {
    hide Get, Put;
  }

  /** The counters of an entry when the failure of `key` is recorded. */
  lemma FailureCounts(s: State, s': State, key: string, now: int, id: string)
    requires WellKeyed(s.log) && Retry(s.log, key, now) == Some(s'.log)
    requires |s'.threads| == |s.threads| && s'.events == s.events + multiset{Failure(key)}
    ensures Balance(s, s', id, 0, if key == id then 1 else 0, 0, 0)
    ensures Get(s'.log, id).Some? ==> Get(s.log, id).Some?
    ensures Get(s'.log, id).Some? ==> Get(s.log, id).value.retries <= Get(s'.log, id).value.retries
  {
    RetrySpec(s.log, key, now);
    hide Retry, Get, WellKeyed;
  }

  lemma FailRecorded(s: State, t: nat, now: int, id: string)
    requires Inv(s) && Entry(s, id) && Enabled(s, Fail(t, true, now)) && Get(s.log, s.threads[t].entry.id).Some?
    ensures Entry(Apply(s, Fail(t, true, now)), id)
  {
    var before := s.threads[t];
    var e := before.entry;
    var th := Draining(before.rest, before.onlineOnly);
    FailApplied(s, t, now);
    ThreadFacts(s, t, id);
    hide Inv, Entry, Apply, Retry, Get, IsBusy, IsStale, Balance, WellKeyed;
    var log := Retry(s.log, e.id, now).value;
    var s' := s.(threads := s.threads[t := th], log := log, events := s.events + multiset{Failure(e.id)});
    FailureCounts(s, s', e.id, now, id);
    EntryDropped(before, id);
    OlderShrinks(s.log, log, before, th, id);
    hide Older, One, Holds;
    ThreadStep(s, s', t, id, 0, if e.id == id then 1 else 0, 0, 0);
  }

  lemma FailKeepsEntry(s: State, t: nat, now: int, id: string)
    requires Inv(s) && Entry(s, id) && Enabled(s, Fail(t, true, now))
    ensures Entry(Apply(s, Fail(t, true, now)), id)
  {
    var before := s.threads[t];
    if Get(s.log, before.entry.id).Some? {
      FailRecorded(s, t, now, id);
    } else {
      var s' := s.(threads := s.threads[t := Draining(before.rest, before.onlineOnly)]);
      assert Apply(s, Fail(t, true, now)) == s';
      assert Older(s.log, before, id);
      hide Apply, One, Inv, Aged, Bounded, Accounted, Untouched;
      EntryDropped(before, id);
      ThreadStep(s, s', t, id, 0, 0, 0, 0);
    }
  }

  /** A thread whose delivery function returned is still busy with the entry, and no longer in the call. */
  lemma CallReturns(before: Thread, id: string)
    requires before.Delivering?
    ensures var th := Delivered(before.entry, before.rest, before.onlineOnly);
            && Holds(th) == Holds(before) && before.entry in Holds(before)
            && One(th, id, InCall) == 0 && One(before, id, InCall) == (if before.entry.id == id then 1 else 0)
            && One(th, id, Busy) == One(before, id, Busy) && One(th, id, Live) == One(before, id, Live)
  {
  }

  lemma SucceedKeepsEntry(s: State, t: nat, id: string)
    requires Inv(s) && Entry(s, id) && Enabled(s, Succeed(t))
    ensures Entry(Apply(s, Succeed(t)), id)
  {
    var before := s.threads[t];
    var th := Delivered(before.entry, before.rest, before.onlineOnly);
    var s' := s.(threads := s.threads[t := th], events := s.events + multiset{Success(before.entry.id)});
    assert Apply(s, Succeed(t)) == s';
    ThreadFacts(s, t, id);
    CallReturns(before, id);
    hide Inv, Entry, Apply, One, WellKeyed, Get;
    assert Older(s'.log, th, id);
    assert Balance(s, s', id, 0, 0, 0, if before.entry.id == id then 1 else 0);
    hide Older, Balance;
    ThreadStep(s, s', t, id, 0, 0, 0, if before.entry.id == id then 1 else 0);
  }

  lemma DoneKeepsEntry(s: State, t: nat, stored: bool, now: int, id: string)
    requires Inv(s) && Entry(s, id) && Enabled(s, Step.Done(t, stored, now))
    ensures Entry(Apply(s, Step.Done(t, stored, now)), id)
  {
    var before := s.threads[t];
    assert Older(s.log, before, id);
    if Get(s.log, before.entry.id).Some? {
      SetStatusSpec(s.log, before.entry.id, Status.Done, now);
    }
    hide Inv, Aged, Bounded, Accounted, Untouched;
    var s' := Apply(s, Step.Done(t, stored, now));
    var th := s'.threads[t];
    assert th.rest == before.rest && th.entry == before.entry && Holds(th) == Holds(before);
    assert IsStale(th, id) == IsStale(before, id);
    hide IsStale;
    assert One(th, id, InCall) == One(before, id, InCall) == 0 && One(th, id, Busy) == One(before, id, Busy)
           && One(th, id, Live) == One(before, id, Live);
    assert Older(s'.log, th, id);
    assert Balance(s, s', id, 0, 0, 0, 0);
    hide One, Older, Balance;
    ThreadStep(s, s', t, id, 0, 0, 0, 0);
  }

  lemma RemoveKeepsEntry(s: State, t: nat, id: string)
    requires Inv(s) && Entry(s, id) && Enabled(s, Remove(t, true))
    ensures Entry(Apply(s, Remove(t, true)), id)
  {
    var before := s.threads[t];
    assert Older(s.log, before, id);
    EntryDropped(before, id);
    DeleteSpec(s.log, before.entry.id);
    hide One, Inv, Aged, Bounded, Accounted, Untouched;
    ThreadStep(s, Apply(s, Remove(t, true)), t, id, 0, 0, 0, 0);
  }

  lemma StepKeepsEntry(s: State, step: Step, id: string)
    requires Inv(s) && Entry(s, id) && Enabled(s, step) && Reliable(step)
    ensures Entry(Apply(s, step), id)
  {
    hide Inv, Entry, Apply;
    match step
    case Enqueue(_, _, _, _) => EnqueueKeepsEntry(s, step, id);
    case SetOnline(_, _) => OnlineKeepsEntry(s, step, id);
    case DrainPeer(_, _) => SnapshotKeepsEntry(s, step, id);
    case Poll(_) => SnapshotKeepsEntry(s, step, id);
    case Pass(_) => MoveKeepsEntry(s, step, id);
    case Leave(_) => MoveKeepsEntry(s, step, id);
    case GiveUp(t, stored, now) => if stored { GiveUpKeepsEntry(s, t, now, id); } else { MoveKeepsEntry(s, step, id); }
    case Begin(t, stored, now) => if stored { BeginKeepsEntry(s, t, now, id); } else { MoveKeepsEntry(s, step, id); }
    case Fail(t, _, now) => FailKeepsEntry(s, t, now, id);
    case Succeed(t) => SucceedKeepsEntry(s, t, id);
    case Done(t, stored, now) => DoneKeepsEntry(s, t, stored, now, id);
    case Remove(t, _) => RemoveKeepsEntry(s, t, id);
  }

  lemma OnlineKeepsEntry(s: State, step: Step, id: string)
    requires Entry(s, id) && step.SetOnline?
    ensures Entry(Apply(s, step), id)
  {
  }

  lemma InitEntry(d: nat, id: string)
    requires d >= 1
    ensures Entry(Init(d), id)
  {
    CountNone(Init(d).threads, id, InCall);
  }

  lemma {:induction false} ReachesEntry(s: State, steps: seq<Step>, s': State, id: string)
    requires Inv(s) && Entry(s, id) && Reaches(s, steps, s')
    requires forall i | 0 <= i < |steps| :: Reliable(steps[i])
    ensures Entry(s', id) && |s'.threads| == |s.threads|
    decreases |steps|
  {
    if steps != [] {
      StepKeepsInv(s, steps[0]);
      StepKeepsEntry(s, steps[0], id);
      assert |Apply(s, steps[0]).threads| == |s.threads|;
      hide Inv, Entry, Apply, Enabled;
      ReachesEntry(Apply(s, steps[0]), steps[1..], s', id);
    }
  }

  /**
   The attempt bound: with `d` drain goroutines and reliable steps, no entry gets more than MAX_RETRIES + d - 1
   attempts or more than `d` successful deliveries, and a stored entry's retries are its recorded failures plus
   the give-ups.
   */
  lemma AttemptsAreBounded(d: nat, steps: seq<Step>, s: State, id: string)
    requires d >= 1 && Reaches(Init(d), steps, s)
    requires forall i | 0 <= i < |steps| :: Reliable(steps[i])
    ensures s.events[Attempt(id)] <= 10 + d - 1
    ensures s.events[Success(id)] <= d
    ensures Get(s.log, id).Some? ==>
              Get(s.log, id).value.retries == s.events[Failure(id)] + s.events[GaveUp(id)]
  {
    InitInv(d);
    InitEntry(d, id);
    ReachesEntry(Init(d), steps, s, id);
  }
}

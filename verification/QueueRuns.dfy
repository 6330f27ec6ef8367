/**
 Concurrent runs of the queue: several drain goroutines (one per MarkOnline, and the poller) act on snapshots of
 the write-ahead log while entries are enqueued, store operations may fail, contexts are cancelled and the
 process may crash (apps/backend/internal/sync/coordinator.go and apps/backend/internal/store/wal.go).
 */
module QueueRuns {
  import opened Hasher
  import opened Wire
  import opened Decimal
  import opened Bolt
  import opened Wal
  import opened Coordinator

  // What happened in a run, counted in a multiset.
  datatype Event =
    | Enqueued(id: string)
    | Attempt(id: string)      // the delivery function was called
    | Success(id: string)      // it returned nil
    | Failure(id: string)      // it failed and the failure was recorded
    | GaveUp(id: string)       // the retry cap was recorded instead of an attempt

  // A drain goroutine: what it is doing with one entry, and the rest of its snapshot.
  datatype Thread =
    | Asleep
    | Draining(rest: seq<WALEntry>, onlineOnly: bool)
    | Delivering(entry: WALEntry, rest: seq<WALEntry>, onlineOnly: bool)
    | Delivered(entry: WALEntry, rest: seq<WALEntry>, onlineOnly: bool)   // before MarkDone
    | Removing(entry: WALEntry, rest: seq<WALEntry>, onlineOnly: bool)    // before DeleteEntry

  datatype State = State(
    sequence: nat, log: Log, threads: seq<Thread>, online: map<string, bool>, events: multiset<Event>)

  // `stored` says whether the store transaction of the step succeeds.
  datatype Step =
    | Enqueue(peerID: string, op: string, payload: Bytes, now: int)
    | SetOnline(peerID: string, reachable: bool)
    | DrainPeer(t: nat, peerID: string)
    | Poll(t: nat)
    | Pass(t: nat)                             // the entry's peer is offline
    | Leave(t: nat)                            // end of the snapshot, or the context is cancelled
    | GiveUp(t: nat, stored: bool, now: int)
    | Begin(t: nat, stored: bool, now: int)
    | Fail(t: nat, stored: bool, now: int)
    | Succeed(t: nat)
    | Done(t: nat, stored: bool, now: int)
    | Remove(t: nat, stored: bool)
    | Crash

  predicate IsOnline(s: State, peerID: string) {
    peerID in s.online && s.online[peerID]
  }

  /** Thread `t` is about to deliver the next entry of its snapshot. */
  predicate AtNext(s: State, t: nat) {
    && t < |s.threads| && s.threads[t].Draining? && s.threads[t].rest != []
    && (s.threads[t].onlineOnly ==> IsOnline(s, s.threads[t].rest[0].peerID))
  }

  predicate Enabled(s: State, step: Step) {
    match step
    case Enqueue(_, _, _, _) => true
    case SetOnline(_, _) => true
    case DrainPeer(t, _) => t < |s.threads| && s.threads[t].Asleep?
    case Poll(t) => t < |s.threads| && s.threads[t].Asleep?
    case Pass(t) => t < |s.threads| && s.threads[t].Draining? && s.threads[t].rest != []
                    && s.threads[t].onlineOnly && !IsOnline(s, s.threads[t].rest[0].peerID)
    case Leave(t) => t < |s.threads| && s.threads[t].Draining?
    case GiveUp(t, _, _) => AtNext(s, t) && s.threads[t].rest[0].retries >= MAX_RETRIES
    case Begin(t, _, _) => AtNext(s, t) && s.threads[t].rest[0].retries < MAX_RETRIES
    case Fail(t, _, _) => t < |s.threads| && s.threads[t].Delivering?
    case Succeed(t) => t < |s.threads| && s.threads[t].Delivering?
    case Done(t, _, _) => t < |s.threads| && s.threads[t].Delivered?
    case Remove(t, _) => t < |s.threads| && s.threads[t].Removing?
    case Crash => true
  }

  /** A transaction that may fail or find no entry. */
  function Commit(log: Log, attempted: Option<Log>, stored: bool): Log {
    if stored && attempted.Some? then attempted.value else log
  }

  function At(s: State, t: nat, thread: Thread): seq<Thread>
    requires t < |s.threads|
  {
    s.threads[t := thread]
  }

  function Apply(s: State, step: Step): State
    requires Enabled(s, step)
  {
    match step
    case Enqueue(peerID, op, payload, now) =>
      var id := Key(s.sequence + 1);
      s.(sequence := s.sequence + 1,
         log := Put(s.log, id, WALEntry(id, peerID, op, payload, Pending, 0, now, now)),
         events := s.events + multiset{Enqueued(id)})
    case SetOnline(peerID, reachable) => s.(online := s.online[peerID := reachable])
    case DrainPeer(t, peerID) => s.(threads := At(s, t, Draining(PendingFor(s.log, peerID), false)))
    case Poll(t) => s.(threads := At(s, t, Draining(AllPending(s.log), true)))
    case Pass(t) => s.(threads := At(s, t, Draining(s.threads[t].rest[1..], s.threads[t].onlineOnly)))
    case Leave(t) => s.(threads := At(s, t, Asleep))
    case GiveUp(t, stored, now) =>
      var e := s.threads[t].rest[0];
      s.(threads := At(s, t, Draining(s.threads[t].rest[1..], s.threads[t].onlineOnly)),
         log := Commit(s.log, Retry(s.log, e.id, now), stored),
         events := if stored && Get(s.log, e.id).Some? then s.events + multiset{GaveUp(e.id)} else s.events)
    case Begin(t, stored, now) =>
      var th := s.threads[t];
      var e := th.rest[0];
      var begun := stored && Get(s.log, e.id).Some?;
      s.(threads := At(s, t, if begun then Delivering(e, th.rest[1..], th.onlineOnly)
                             else Draining(th.rest[1..], th.onlineOnly)),
         log := Commit(s.log, SetStatus(s.log, e.id, InFlight, now), stored),
         events := if begun then s.events + multiset{Attempt(e.id)} else s.events)
    case Fail(t, stored, now) =>
      var th := s.threads[t];
      s.(threads := At(s, t, Draining(th.rest, th.onlineOnly)),
         log := Commit(s.log, Retry(s.log, th.entry.id, now), stored),
         events := if stored && Get(s.log, th.entry.id).Some? then s.events + multiset{Failure(th.entry.id)}
                   else s.events)
    case Succeed(t) =>
      var th := s.threads[t];
      s.(threads := At(s, t, Delivered(th.entry, th.rest, th.onlineOnly)),
         events := s.events + multiset{Success(th.entry.id)})
    case Done(t, stored, now) =>
      var th := s.threads[t];
      s.(threads := At(s, t, Removing(th.entry, th.rest, th.onlineOnly)),
         log := Commit(s.log, SetStatus(s.log, th.entry.id, Status.Done, now), stored))
    case Remove(t, stored) =>
      var th := s.threads[t];
      s.(threads := At(s, t, Draining(th.rest, th.onlineOnly)),
         log := if stored then Delete(s.log, th.entry.id) else s.log)
    case Crash => s.(threads := seq(|s.threads|, _ => Asleep), online := map[])
  }

  predicate Reaches(s: State, steps: seq<Step>, t: State)
    decreases |steps|
  {
    if steps == [] then s == t
    else Enabled(s, steps[0]) && Reaches(Apply(s, steps[0]), steps[1..], t)
  }

  /** An empty queue served by `d` drain goroutines. */
  function Init(d: nat): State {
    State(0, [], seq(d, _ => Asleep), map[], multiset{})
  }

  lemma StepThen(s: State, step: Step, rest: seq<Step>, s': State)
    requires Enabled(s, step) && Reaches(Apply(s, step), rest, s')
    ensures Reaches(s, [step] + rest, s')
  {
    hide Enabled, Apply;
    assert ([step] + rest)[1..] == rest;
  }

  /** A delivery that the store does not disturb is one deliver of the coordinator: the class and the runs agree. */
  lemma DeliverIsARun(s: State, t: nat, ok: bool, now: int) returns (steps: seq<Step>, s': State)
    requires AtNext(s, t)
    ensures Reaches(s, steps, s')
    ensures var th := s.threads[t];
            && s'.log == DeliverOne(s.log, th.rest[0], ok, now)
            && s'.threads == s.threads[t := Draining(th.rest[1..], th.onlineOnly)]
            && s'.events[Attempt(th.rest[0].id)]
               == s.events[Attempt(th.rest[0].id)] + (if Attempted(s.log, th.rest[0]) then 1 else 0)
  {
    var th := s.threads[t];
    var e := th.rest[0];
    if e.retries >= MAX_RETRIES {
      s' := Apply(s, GiveUp(t, true, now));
      steps := [GiveUp(t, true, now)] + [];
      StepThen(s, GiveUp(t, true, now), [], s');
    } else {
      var s1 := Apply(s, Begin(t, true, now));
      if Get(s.log, e.id).None? {
        s' := s1;
        steps := [Begin(t, true, now)] + [];
        StepThen(s, Begin(t, true, now), [], s');
      } else {
        steps, s' := CallReturnsRun(s1, t, e, th.rest[1..], th.onlineOnly, ok, now);
        StepThen(s, Begin(t, true, now), steps, s');
        steps := [Begin(t, true, now)] + steps;
      }
    }
  }

  lemma CallReturnsRun(s: State, t: nat, e: WALEntry, rest: seq<WALEntry>, onlineOnly: bool, ok: bool, now: int)
    returns (steps: seq<Step>, s': State)
    requires t < |s.threads| && s.threads[t] == Delivering(e, rest, onlineOnly)
    ensures Reaches(s, steps, s')
    ensures s'.log ==
              if ok then
                Delete(match SetStatus(s.log, e.id, Status.Done, now) case None => s.log case Some(l) => l, e.id)
              else match Retry(s.log, e.id, now) case None => s.log case Some(l) => l
    ensures s'.threads == s.threads[t := Draining(rest, onlineOnly)]
    ensures s'.events[Attempt(e.id)] == s.events[Attempt(e.id)]
  {
    hide Get, SetStatus, Retry, Delete;
    if ok {
      var s1 := Apply(s, Succeed(t));
      var s2 := Apply(s1, Step.Done(t, true, now));
      s' := Apply(s2, Remove(t, true));
      StepThen(s2, Remove(t, true), [], s');
      StepThen(s1, Step.Done(t, true, now), [Remove(t, true)] + [], s');
      steps := [Succeed(t)] + ([Step.Done(t, true, now)] + ([Remove(t, true)] + []));
      StepThen(s, Succeed(t), [Step.Done(t, true, now)] + ([Remove(t, true)] + []), s');
      assert s'.threads == s.threads[t := Draining(rest, onlineOnly)];
    } else {
      s' := Apply(s, Fail(t, true, now));
      steps := [Fail(t, true, now)] + [];
      StepThen(s, Fail(t, true, now), [], s');
    }
  }

  // ---------------------------------------------------------------------------------------------
  // No loss, no reuse of ids, no resurrection
  // ---------------------------------------------------------------------------------------------

  /** The entries a thread still holds. */
  function Holds(th: Thread): seq<WALEntry> {
    match th
    case Asleep => []
    case Draining(rest, _) => rest
    case Delivering(e, rest, _) => [e] + rest
    case Delivered(e, rest, _) => [e] + rest
    case Removing(e, rest, _) => [e] + rest
  }

  ghost predicate ThreadKnown(s: State, th: Thread) {
    && (forall e | e in Holds(th) :: Enqueued(e.id) in s.events)
    && (th.Delivered? || th.Removing? ==> Success(th.entry.id) in s.events)
  }

  ghost predicate Known(s: State, id: string) {
    && (Enqueued(id) in s.events ==> exists n :: 1 <= n <= s.sequence && id == Key(n))
    && (Get(s.log, id).Some? ==> Enqueued(id) in s.events && Get(s.log, id).value.status != Failed)
    && (Enqueued(id) in s.events ==> Get(s.log, id).Some? || Success(id) in s.events)
    && s.events[Enqueued(id)] <= 1
  }

  ghost predicate Inv(s: State) {
    && WellKeyed(s.log)
    && (forall id :: Known(s, id))
    && (forall t | 0 <= t < |s.threads| :: ThreadKnown(s, s.threads[t]))
  }

  /** The log changes at most the stored value of `id`, and never to Failed. */
  ghost predicate SameKeys(log: Log, after: Log) {
    && WellKeyed(after)
    && forall k :: && (Get(after, k).Some? <==> Get(log, k).Some?)
                   && (Get(after, k).Some? && Get(after, k).value.status == Failed
                       ==> Get(log, k).value.status == Failed)
  }

  lemma CommitKeepsKeys(log: Log, id: string, status: Status, stored: bool, now: int)
    requires WellKeyed(log) && status != Failed
    ensures SameKeys(log, Commit(log, SetStatus(log, id, status, now), stored))
    ensures SameKeys(log, Commit(log, Retry(log, id, now), stored))
  {
    if Get(log, id).Some? {
      SetStatusSpec(log, id, status, now);
      RetrySpec(log, id, now);
    }
  }

  lemma SnapshotKnown(s: State, keep: WALEntry -> bool)
    requires Inv(s)
    ensures forall e | e in Select(s.log, keep) :: Enqueued(e.id) in s.events
  {
    SelectSpec(s.log, keep);
    forall e | e in Select(s.log, keep)
      ensures Enqueued(e.id) in s.events
    {
      assert Known(s, e.id);
    }
  }

  lemma EnqueueKeepsInv(s: State, step: Step)
    requires Inv(s) && step.Enqueue?
    ensures Inv(Apply(s, step))
    ensures Get(s.log, Key(s.sequence + 1)).None? && Enqueued(Key(s.sequence + 1)) !in s.events
  {
    var id := Key(s.sequence + 1);
    var e := WALEntry(id, step.peerID, step.op, step.payload, Pending, 0, step.now, step.now);
    var s' := Apply(s, step);
    PutSpec(s.log, id, e);
    PutWellKeyed(s.log, id, e);
    assert Known(s, id);
    if Enqueued(id) in s.events {
      var n :| 1 <= n <= s.sequence && id == Key(n);
      KeyInjective(n, s.sequence + 1);
    }
    forall k
      ensures Known(s', k)
    {
      assert Known(s, k);
      if k == id {
        assert 1 <= s'.sequence <= s'.sequence && id == Key(s'.sequence);
      } else if Enqueued(k) in s.events {
        var n :| 1 <= n <= s.sequence && k == Key(n);
        assert 1 <= n <= s'.sequence && k == Key(n);
      }
    }
    forall t | 0 <= t < |s'.threads|
      ensures ThreadKnown(s', s'.threads[t])
    {
      assert ThreadKnown(s, s.threads[t]);
    }
  }

  /** A step of one thread that keeps the keys of the log and only adds events other than Enqueued. */
  lemma ThreadStepKeepsInv(s: State, s': State, t: nat)
    requires Inv(s) && t < |s.threads|
    requires SameKeys(s.log, s'.log) && s'.sequence == s.sequence
    requires s.events <= s'.events && forall id :: s'.events[Enqueued(id)] == s.events[Enqueued(id)]
    requires |s'.threads| == |s.threads| && s'.threads == s.threads[t := s'.threads[t]]
    requires ThreadKnown(s', s'.threads[t])
    ensures Inv(s')
  {
    forall k
      ensures Known(s', k)
    {
      assert Known(s, k);
    }
    forall u | 0 <= u < |s'.threads|
      ensures ThreadKnown(s', s'.threads[u])
    {
      if u != t {
        assert ThreadKnown(s, s.threads[u]);
      }
    }
  }

  lemma SnapshotKeepsInv(s: State, step: Step)
    requires Inv(s) && Enabled(s, step) && (step.DrainPeer? || step.Poll?)
    ensures Inv(Apply(s, step))
  {
    if step.DrainPeer? {
      SnapshotKnown(s, (e: WALEntry) => IsPendingFor(e, step.peerID));
    } else {
      SnapshotKnown(s, (e: WALEntry) => IsPending(e));
    }
    ThreadStepKeepsInv(s, Apply(s, step), step.t);
  }

  lemma MoveKeepsInv(s: State, step: Step)
    requires Inv(s) && Enabled(s, step) && (step.Pass? || step.Leave? || step.Succeed?)
    ensures Inv(Apply(s, step))
  {
    assert ThreadKnown(s, s.threads[step.t]);
    ThreadStepKeepsInv(s, Apply(s, step), step.t);
  }

  lemma RetryKeepsInv(s: State, step: Step)
    requires Inv(s) && Enabled(s, step) && (step.GiveUp? || step.Fail?)
    ensures Inv(Apply(s, step))
  {
    var th := s.threads[step.t];
    assert ThreadKnown(s, th);
    CommitKeepsKeys(s.log, if step.GiveUp? then th.rest[0].id else th.entry.id, Pending, step.stored, step.now);
    ThreadStepKeepsInv(s, Apply(s, step), step.t);
  }

  lemma StatusKeepsInv(s: State, step: Step)
    requires Inv(s) && Enabled(s, step) && (step.Begin? || step.Done?)
    ensures Inv(Apply(s, step))
  {
    var th := s.threads[step.t];
    assert ThreadKnown(s, th);
    if step.Begin? {
      CommitKeepsKeys(s.log, th.rest[0].id, InFlight, step.stored, step.now);
      assert th.rest == [th.rest[0]] + th.rest[1..];
    } else {
      CommitKeepsKeys(s.log, th.entry.id, Status.Done, step.stored, step.now);
    }
    ThreadStepKeepsInv(s, Apply(s, step), step.t);
  }

  lemma RemoveKeepsInv(s: State, step: Step)
    requires Inv(s) && Enabled(s, step) && step.Remove?
    ensures Inv(Apply(s, step))
  {
    var s' := Apply(s, step);
    var th := s.threads[step.t];
    assert ThreadKnown(s, th);
    DeleteSpec(s.log, th.entry.id);
    DeleteWellKeyed(s.log, th.entry.id);
    forall k
      ensures Known(s', k)
    {
      assert Known(s, k);
    }
    forall u | 0 <= u < |s'.threads|
      ensures ThreadKnown(s', s'.threads[u])
    {
      assert ThreadKnown(s, s.threads[u]);
    }
  }

  lemma StepKeepsInv(s: State, step: Step)
    requires Inv(s) && Enabled(s, step)
    ensures Inv(Apply(s, step))
  {
    match step
    case Enqueue(_, _, _, _) => EnqueueKeepsInv(s, step);
    case SetOnline(_, _) => FrameKeepsInv(s, Apply(s, step));
    case DrainPeer(_, _) => SnapshotKeepsInv(s, step);
    case Poll(_) => SnapshotKeepsInv(s, step);
    case Pass(_) => MoveKeepsInv(s, step);
    case Leave(_) => MoveKeepsInv(s, step);
    case Succeed(_) => MoveKeepsInv(s, step);
    case GiveUp(_, _, _) => RetryKeepsInv(s, step);
    case Fail(_, _, _) => RetryKeepsInv(s, step);
    case Begin(_, _, _) => StatusKeepsInv(s, step);
    case Done(_, _, _) => StatusKeepsInv(s, step);
    case Remove(_, _) => RemoveKeepsInv(s, step);
    case Crash => FrameKeepsInv(s, Apply(s, step));
  }

  lemma FrameKeepsInv(s: State, s': State)
    requires Inv(s)
    requires s'.sequence == s.sequence && s'.log == s.log && s'.events == s.events
    requires s'.threads == s.threads || (forall t | 0 <= t < |s'.threads| :: s'.threads[t] == Asleep)
    ensures Inv(s')
  {
    forall k
      ensures Known(s', k)
    {
      assert Known(s, k);
    }
    forall t | 0 <= t < |s'.threads|
      ensures ThreadKnown(s', s'.threads[t])
    {
      if s'.threads == s.threads {
        assert ThreadKnown(s, s.threads[t]);
      }
    }
  }

  lemma {:induction false} ReachesInv(s: State, steps: seq<Step>, s': State)
    requires Inv(s) && Reaches(s, steps, s')
    ensures Inv(s')
    decreases |steps|
  {
    if steps != [] {
      StepKeepsInv(s, steps[0]);
      hide Inv, Apply, Enabled;
      ReachesInv(Apply(s, steps[0]), steps[1..], s');
    }
  }

  lemma InitInv(d: nat)
    ensures Inv(Init(d))
  {
  }

  /**
   Nothing is lost: in every run, with any store failures, cancellations and crashes, an enqueued entry is still
   stored or its delivery function returned nil; and no id was given out twice.
   */
  lemma NoLoss(d: nat, steps: seq<Step>, s: State, id: string)
    requires Reaches(Init(d), steps, s)
    ensures Enqueued(id) in s.events ==> Get(s.log, id).Some? || Success(id) in s.events
    ensures s.events[Enqueued(id)] <= 1
  {
    InitInv(d);
    ReachesInv(Init(d), steps, s);
    assert Known(s, id);
  }

  /** The give-up branch never fails an entry for good: no stored entry has the status failed. */
  lemma NeverTerminallyFailed(d: nat, steps: seq<Step>, s: State, id: string)
    requires Reaches(Init(d), steps, s)
    ensures Get(s.log, id).Some? ==> Get(s.log, id).value.status != Failed
  {
    InitInv(d);
    ReachesInv(Init(d), steps, s);
    assert Known(s, id);
  }

  /** After giving up on an entry it is pending again, so the next snapshot of its peer contains it. */
  lemma GiveUpMeansPending(d: nat, steps: seq<Step>, s: State, t: nat, now: int)
    requires Reaches(Init(d), steps, s) && Enabled(s, GiveUp(t, true, now))
    ensures var e := s.threads[t].rest[0];
            var after := Apply(s, GiveUp(t, true, now)).log;
            Get(s.log, e.id).Some? ==>
              Get(after, e.id).Some? && Get(after, e.id).value in PendingFor(after, Get(s.log, e.id).value.peerID)
  {
    InitInv(d);
    ReachesInv(Init(d), steps, s);
    var e := s.threads[t].rest[0];
    if Get(s.log, e.id).Some? {
      RetrySpec(s.log, e.id, now);
      var peerID := Get(s.log, e.id).value.peerID;
      var after := Apply(s, GiveUp(t, true, now)).log;
      SelectSpec(after, (x: WALEntry) => IsPendingFor(x, peerID));
      GetIsKeyed(after, e.id);
    }
  }

  ghost predicate Gone(s: State, id: string) {
    Enqueued(id) in s.events && Get(s.log, id).None?
  }

  lemma EnqueueKeepsGone(s: State, step: Step, id: string)
    requires Inv(s) && step.Enqueue? && Gone(s, id)
    ensures Gone(Apply(s, step), id) && Apply(s, step).events[Attempt(id)] == s.events[Attempt(id)]
  {
    var key := Key(s.sequence + 1);
    EnqueueKeepsInv(s, step);
    PutSpec(s.log, key, WALEntry(key, step.peerID, step.op, step.payload, Pending, 0, step.now, step.now));
    hide Inv, Key, Put, Get;
  }

  lemma RetryKeepsGone(s: State, step: Step, id: string)
    requires Inv(s) && Enabled(s, step) && (step.GiveUp? || step.Fail?) && Gone(s, id)
    ensures Gone(Apply(s, step), id) && Apply(s, step).events[Attempt(id)] == s.events[Attempt(id)]
  {
    var th := s.threads[step.t];
    CommitKeepsKeys(s.log, if step.GiveUp? then th.rest[0].id else th.entry.id, Pending, step.stored, step.now);
    hide Inv, Get, Retry, Commit, WellKeyed;
  }

  lemma StatusKeepsGone(s: State, step: Step, id: string)
    requires Inv(s) && Enabled(s, step) && (step.Begin? || step.Done?) && Gone(s, id)
    ensures Gone(Apply(s, step), id) && Apply(s, step).events[Attempt(id)] == s.events[Attempt(id)]
  {
    var th := s.threads[step.t];
    if step.Begin? {
      CommitKeepsKeys(s.log, th.rest[0].id, InFlight, step.stored, step.now);
    } else {
      CommitKeepsKeys(s.log, th.entry.id, Status.Done, step.stored, step.now);
    }
    hide Inv, Get, SetStatus, Commit, WellKeyed;
  }

  lemma StepKeepsGone(s: State, step: Step, id: string)
    requires Inv(s) && Enabled(s, step) && Gone(s, id)
    ensures Gone(Apply(s, step), id) && Apply(s, step).events[Attempt(id)] == s.events[Attempt(id)]
  {
    match step
    case Enqueue(_, _, _, _) => EnqueueKeepsGone(s, step, id);
    case GiveUp(_, _, _) => RetryKeepsGone(s, step, id);
    case Fail(_, _, _) => RetryKeepsGone(s, step, id);
    case Begin(_, _, _) => StatusKeepsGone(s, step, id);
    case Done(_, _, _) => StatusKeepsGone(s, step, id);
    case Remove(t, _) =>
      DeleteSpec(s.log, s.threads[t].entry.id);
      hide Inv;
    case _ => hide Inv;
  }

  /**
   No resurrection: once an enqueued entry has been deleted, no later step puts it back and no thread, however
   stale its snapshot, starts another delivery of it.
   */
  lemma {:induction false} NoResurrection(s: State, steps: seq<Step>, s': State, id: string)
    requires Inv(s) && Reaches(s, steps, s')
    requires Gone(s, id)
    ensures Gone(s', id) && s'.events[Attempt(id)] == s.events[Attempt(id)]
    decreases |steps|
  {
    if steps != [] {
      StepKeepsInv(s, steps[0]);
      StepKeepsGone(s, steps[0], id);
      hide Inv, Apply, Enabled, Gone;
      NoResurrection(Apply(s, steps[0]), steps[1..], s', id);
    }
  }

  // ---------------------------------------------------------------------------------------------
  // A drain stays with its peer
  // ---------------------------------------------------------------------------------------------

  /** What a snapshot says about an entry's peer is what is stored. */
  ghost predicate PeersMatch(log: Log, th: Thread) {
    forall e | e in Holds(th) && Get(log, e.id).Some? :: Get(log, e.id).value.peerID == e.peerID
  }

  ghost predicate AllPeersMatch(s: State) {
    forall t | 0 <= t < |s.threads| :: PeersMatch(s.log, s.threads[t])
  }

  /** A stored entry keeps its peer, and only entries that were never enqueued before appear. */
  ghost predicate PeersStay(s: State, log: Log) {
    forall k | Get(log, k).Some? ::
      if Get(s.log, k).Some? then Get(log, k).value.peerID == Get(s.log, k).value.peerID
      else Enqueued(k) !in s.events
  }

  lemma CommitKeepsPeers(s: State, id: string, status: Status, stored: bool, now: int)
    requires WellKeyed(s.log)
    ensures PeersStay(s, Commit(s.log, SetStatus(s.log, id, status, now), stored))
    ensures PeersStay(s, Commit(s.log, Retry(s.log, id, now), stored))
  {
    if Get(s.log, id).Some? {
      SetStatusSpec(s.log, id, status, now);
      RetrySpec(s.log, id, now);
    }
    hide Get, WellKeyed;
  }

  lemma StepKeepsPeers(s: State, step: Step)
    requires Inv(s) && Enabled(s, step)
    ensures PeersStay(s, Apply(s, step).log)
  {
    match step
    case Enqueue(peerID, op, payload, now) =>
      var key := Key(s.sequence + 1);
      EnqueueKeepsInv(s, step);
      PutSpec(s.log, key, WALEntry(key, peerID, op, payload, Pending, 0, now, now));
      hide Inv, Key, Put, Get;
    case GiveUp(t, stored, now) => CommitKeepsPeers(s, s.threads[t].rest[0].id, Pending, stored, now);
    case Begin(t, stored, now) => CommitKeepsPeers(s, s.threads[t].rest[0].id, InFlight, stored, now);
    case Fail(t, stored, now) => CommitKeepsPeers(s, s.threads[t].entry.id, Pending, stored, now);
    case Done(t, stored, now) => CommitKeepsPeers(s, s.threads[t].entry.id, Status.Done, stored, now);
    case Remove(t, _) =>
      DeleteSpec(s.log, s.threads[t].entry.id);
      hide Inv, Get, Delete;
    case _ => hide Inv, Get;
  }

  predicate TakesSnapshot(step: Step, t: nat) {
    match step
    case DrainPeer(u, _) => u == t
    case Poll(u) => u == t
    case _ => false
  }

  lemma MovesHoldLess(s: State, step: Step, t: nat)
    requires Enabled(s, step) && t < |s.threads| && !TakesSnapshot(step, t)
    ensures forall e | e in Holds(Apply(s, step).threads[t]) :: e in Holds(s.threads[t])
  {
    hide Get, Commit, Retry, SetStatus, Delete, Put, Key, Select;
  }

  lemma SnapshotHolds(s: State, step: Step, t: nat)
    requires Inv(s) && Enabled(s, step) && TakesSnapshot(step, t)
    ensures forall e | e in Holds(Apply(s, step).threads[t]) ::
              Get(s.log, e.id) == Some(e) && (step.DrainPeer? ==> e.peerID == step.peerID)
  {
    AllPendingIff(s.log);
    if step.DrainPeer? {
      PendingForIff(s.log, step.peerID);
    }
    hide Inv, Get, Select;
  }

  lemma StepKeepsMatch(s: State, step: Step)
    requires Inv(s) && AllPeersMatch(s) && Enabled(s, step)
    ensures AllPeersMatch(Apply(s, step))
  {
    var s' := Apply(s, step);
    StepKeepsPeers(s, step);
    assert |s'.threads| == |s.threads|;
    forall t | 0 <= t < |s'.threads|
      ensures PeersMatch(s'.log, s'.threads[t])
    {
      if TakesSnapshot(step, t) {
        SnapshotHolds(s, step, t);
      } else {
        MovesHoldLess(s, step, t);
      }
      assert PeersMatch(s.log, s.threads[t]) && ThreadKnown(s, s.threads[t]);
      hide Inv, AllPeersMatch, Apply, Get, Holds;
    }
  }

  ghost predicate OnlyFor(th: Thread, peerID: string) {
    forall e | e in Holds(th) :: e.peerID == peerID
  }

  lemma {:induction false} ReachesOnlyFor(s: State, steps: seq<Step>, s': State, t: nat, peerID: string)
    requires Inv(s) && AllPeersMatch(s) && Reaches(s, steps, s') && t < |s.threads| && OnlyFor(s.threads[t], peerID)
    requires forall i | 0 <= i < |steps| :: !TakesSnapshot(steps[i], t)
    ensures Inv(s') && AllPeersMatch(s') && |s'.threads| == |s.threads| && OnlyFor(s'.threads[t], peerID)
    decreases |steps|
  {
    if steps != [] {
      StepKeepsInv(s, steps[0]);
      StepKeepsMatch(s, steps[0]);
      MovesHoldLess(s, steps[0], t);
      assert |Apply(s, steps[0]).threads| == |s.threads|;
      hide Inv, AllPeersMatch, Apply, Enabled, Get, Holds;
      ReachesOnlyFor(Apply(s, steps[0]), steps[1..], s', t, peerID);
    }
  }

  lemma {:induction false} ReachesMatch(s: State, steps: seq<Step>, s': State)
    requires Inv(s) && AllPeersMatch(s) && Reaches(s, steps, s')
    ensures Inv(s') && AllPeersMatch(s')
    decreases |steps|
  {
    if steps != [] {
      StepKeepsInv(s, steps[0]);
      StepKeepsMatch(s, steps[0]);
      hide Inv, AllPeersMatch, Apply, Enabled;
      ReachesMatch(Apply(s, steps[0]), steps[1..], s');
    }
  }

  lemma FreshDrain(s: State, t: nat, peerID: string)
    requires Inv(s) && AllPeersMatch(s) && Enabled(s, DrainPeer(t, peerID))
    ensures var first := Apply(s, DrainPeer(t, peerID));
            Inv(first) && AllPeersMatch(first) && t < |first.threads| && OnlyFor(first.threads[t], peerID)
  {
    StepKeepsInv(s, DrainPeer(t, peerID));
    StepKeepsMatch(s, DrainPeer(t, peerID));
    SnapshotHolds(s, DrainPeer(t, peerID), t);
    hide Inv, AllPeersMatch, Get, Select;
  }

  lemma NextIsFor(s: State, t: nat, peerID: string)
    requires AllPeersMatch(s) && t < |s.threads| && OnlyFor(s.threads[t], peerID)
    ensures AtNext(s, t) ==>
              var id := s.threads[t].rest[0].id;
              Get(s.log, id).Some? ==> Get(s.log, id).value.peerID == peerID
  {
    assert PeersMatch(s.log, s.threads[t]);
    hide Get;
  }

  /**
   In every run, whatever the other threads do and whatever fails: a thread that started a drain for a peer holds
   entries of that peer only until its next drain, and the entry it attempts next is stored for that peer.
   */
  lemma DrainNeverLeavesPeer(d: nat, before: seq<Step>, s: State, t: nat, peerID: string, steps: seq<Step>, s': State)
    requires Reaches(Init(d), before, s) && Enabled(s, DrainPeer(t, peerID))
    requires Reaches(Apply(s, DrainPeer(t, peerID)), steps, s')
    requires forall i | 0 <= i < |steps| :: !TakesSnapshot(steps[i], t)
    ensures t < |s'.threads| && forall e | e in Holds(s'.threads[t]) :: e.peerID == peerID
    ensures forall stored, now | Enabled(s', Begin(t, stored, now)) ::
              var id := s'.threads[t].rest[0].id;
              Get(s'.log, id).Some? ==> Get(s'.log, id).value.peerID == peerID
  {
    hide Inv, AllPeersMatch, Reaches, Get, Apply;
    InitInv(d);
    assert AllPeersMatch(Init(d)) by {
      NothingHeld(d);
    }
    ReachesMatch(Init(d), before, s);
    FreshDrain(s, t, peerID);
    ReachesOnlyFor(Apply(s, DrainPeer(t, peerID)), steps, s', t, peerID);
    NextIsFor(s', t, peerID);
  }

  /** The thread works on a snapshot of the poll. */
  predicate Polls(th: Thread) {
    th.Asleep? || th.onlineOnly
  }

  lemma MoveKeepsPolling(s: State, step: Step, t: nat)
    requires Enabled(s, step) && t < |s.threads| && !TakesSnapshot(step, t) && Polls(s.threads[t])
    ensures |Apply(s, step).threads| == |s.threads| && Polls(Apply(s, step).threads[t])
  {
    hide Get, Commit, Retry, SetStatus, Delete, Put, Key, Select;
  }

  /** A thread that started a poll attempts the entries of online peers only, until its next drain. */
  lemma {:induction false} PollNeverLeavesOnline(s: State, steps: seq<Step>, s': State, t: nat)
    requires t < |s.threads| && Polls(s.threads[t]) && Reaches(s, steps, s')
    requires forall i | 0 <= i < |steps| :: !TakesSnapshot(steps[i], t)
    ensures t < |s'.threads|
    ensures forall stored, now | Enabled(s', Begin(t, stored, now)) ::
              var peerID := s'.threads[t].rest[0].peerID; peerID in s'.online && s'.online[peerID]
    decreases |steps|
  {
    if steps != [] {
      MoveKeepsPolling(s, steps[0], t);
      hide Apply, Polls;
      PollNeverLeavesOnline(Apply(s, steps[0]), steps[1..], s', t);
    }
  }

  lemma NothingHeld(d: nat)
    ensures AllPeersMatch(Init(d))
  {
  }
}

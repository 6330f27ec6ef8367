/**
 What a crash leaves in the queue: entries that were pending are picked up again, entries that were in flight are
 never attempted again, because nothing puts them back to pending (apps/backend/internal/sync/coordinator.go and
 apps/backend/internal/store/wal.go).
 */
module CrashRecovery {
  import opened Decimal
  import opened Bolt
  import opened Wal
  import opened QueueRuns

  ghost predicate HoldsNone(th: Thread, id: string) {
    forall e | e in Holds(th) :: e.id != id
  }

  /** Stored, not pending, and in no snapshot. */
  ghost predicate Stranded(s: State, id: string) {
    && Get(s.log, id).Some? && Get(s.log, id).value.status != Pending
    && forall t | 0 <= t < |s.threads| :: HoldsNone(s.threads[t], id)
  }

  /** Transactions on another entry. */
  lemma OtherEntryUntouched(log: Log, other: string, status: Status, stored: bool, now: int, id: string)
    requires WellKeyed(log) && other != id
    ensures Get(Commit(log, SetStatus(log, other, status, now), stored), id) == Get(log, id)
    ensures Get(Commit(log, Retry(log, other, now), stored), id) == Get(log, id)
  {
    if Get(log, other).Some? {
      SetStatusSpec(log, other, status, now);
      RetrySpec(log, other, now);
    }
  }

  lemma EnqueueKeepsStranded(s: State, step: Step, id: string)
    requires Inv(s) && Stranded(s, id) && step.Enqueue?
    ensures Stranded(Apply(s, step), id)
  {
    var key := Key(s.sequence + 1);
    EnqueueKeepsInv(s, step);
    PutSpec(s.log, key, WALEntry(key, step.peerID, step.op, step.payload, Pending, 0, step.now, step.now));
    hide Inv, Key, Put, Get;
  }

  lemma SnapshotKeepsStranded(s: State, step: Step, id: string)
    requires Inv(s) && Stranded(s, id) && Enabled(s, step) && (step.DrainPeer? || step.Poll?)
    ensures Stranded(Apply(s, step), id)
  {
    if step.DrainPeer? {
      SelectSpec(s.log, (e: WALEntry) => IsPendingFor(e, step.peerID));
    } else {
      SelectSpec(s.log, (e: WALEntry) => IsPending(e));
    }
    hide Inv, Get, Select;
  }

  /** The other steps only touch what their thread holds. */
  lemma RetryKeepsStranded(s: State, step: Step, id: string)
    requires Inv(s) && Stranded(s, id) && Enabled(s, step) && (step.GiveUp? || step.Fail?)
    ensures Stranded(Apply(s, step), id) && Apply(s, step).events[Attempt(id)] == s.events[Attempt(id)]
  {
    var th := s.threads[step.t];
    assert HoldsNone(th, id);
    OtherEntryUntouched(s.log, if step.GiveUp? then th.rest[0].id else th.entry.id, Pending, step.stored, step.now, id);
    hide Inv, Get, Retry, Commit;
  }

  lemma ThreadMoves(s: State, s': State, t: nat, id: string)
    requires Stranded(s, id) && t < |s.threads| == |s'.threads| && s'.threads == s.threads[t := s'.threads[t]]
    requires HoldsNone(s'.threads[t], id) && Get(s'.log, id) == Get(s.log, id)
    ensures Stranded(s', id)
  {
    hide HoldsNone, Get;
  }

  lemma BeginKeepsStranded(s: State, t: nat, stored: bool, now: int, id: string)
    requires Inv(s) && Stranded(s, id) && Enabled(s, Begin(t, stored, now))
    ensures var s' := Apply(s, Begin(t, stored, now));
            Stranded(s', id) && s'.events[Attempt(id)] == s.events[Attempt(id)]
  {
    var rest := s.threads[t].rest;
    assert HoldsNone(s.threads[t], id);
    OtherEntryUntouched(s.log, rest[0].id, InFlight, stored, now, id);
    hide Inv, Get, SetStatus, Commit, Stranded;
    assert rest == [rest[0]] + rest[1..];
    ThreadMoves(s, Apply(s, Begin(t, stored, now)), t, id);
  }

  lemma DoneKeepsStranded(s: State, t: nat, stored: bool, now: int, id: string)
    requires Inv(s) && Stranded(s, id) && Enabled(s, Step.Done(t, stored, now))
    ensures var s' := Apply(s, Step.Done(t, stored, now));
            Stranded(s', id) && s'.events[Attempt(id)] == s.events[Attempt(id)]
  {
    var th := s.threads[t];
    assert HoldsNone(th, id);
    OtherEntryUntouched(s.log, th.entry.id, Status.Done, stored, now, id);
    hide Inv, Get, SetStatus, Commit, Stranded;
    ThreadMoves(s, Apply(s, Step.Done(t, stored, now)), t, id);
  }

  lemma MoveKeepsStranded(s: State, step: Step, id: string)
    requires Inv(s) && Stranded(s, id) && Enabled(s, step)
    requires step.Pass? || step.Leave? || step.Succeed? || step.Remove?
    ensures Stranded(Apply(s, step), id) && Apply(s, step).events[Attempt(id)] == s.events[Attempt(id)]
  {
    var th := s.threads[step.t];
    assert HoldsNone(th, id);
    if step.Remove? {
      DeleteSpec(s.log, th.entry.id);
    }
    hide Inv, Get, Delete;
  }

  lemma StepKeepsStranded(s: State, step: Step, id: string)
    requires Inv(s) && Stranded(s, id) && Enabled(s, step)
    ensures Stranded(Apply(s, step), id) && Apply(s, step).events[Attempt(id)] == s.events[Attempt(id)]
  {
    hide Inv;
    match step
    case Enqueue(_, _, _, _) => EnqueueKeepsStranded(s, step, id);
    case DrainPeer(_, _) => SnapshotKeepsStranded(s, step, id);
    case Poll(_) => SnapshotKeepsStranded(s, step, id);
    case SetOnline(_, _) =>
    case Crash =>
    case GiveUp(_, _, _) => RetryKeepsStranded(s, step, id);
    case Fail(_, _, _) => RetryKeepsStranded(s, step, id);
    case Begin(t, stored, now) => BeginKeepsStranded(s, t, stored, now, id);
    case Done(t, stored, now) => DoneKeepsStranded(s, t, stored, now, id);
    case _ => MoveKeepsStranded(s, step, id);
  }

  /** A stranded entry stays in the log and is never attempted again, whatever happens later. */
  lemma {:induction false} StrandedForever(s: State, steps: seq<Step>, s': State, id: string)
    requires Inv(s) && Stranded(s, id) && Reaches(s, steps, s')
    ensures Stranded(s', id) && Get(s'.log, id).Some? && s'.events[Attempt(id)] == s.events[Attempt(id)]
    decreases |steps|
  {
    assert Get(s.log, id).Some?;
    if steps != [] {
      StepKeepsInv(s, steps[0]);
      StepKeepsStranded(s, steps[0], id);
      hide Inv, Stranded, Apply, Enabled;
      StrandedForever(Apply(s, steps[0]), steps[1..], s', id);
    }
  }

  /**
   After a crash a stored entry has a future exactly when it was pending: then the next drain of its peer has it in
   its snapshot; otherwise no run attempts it again, although it stays stored.
   */
  lemma CrashStrandsInFlight(d: nat, steps: seq<Step>, s: State, id: string)
    requires Reaches(Init(d), steps, s) && Get(s.log, id).Some?
    ensures var e, after := Get(s.log, id).value, Apply(s, Crash);
            && (e.status == Pending <==> e in PendingFor(after.log, e.peerID))
            && (e.status != Pending ==>
                  forall more, s' | Reaches(after, more, s') ::
                    Get(s'.log, id).Some? && s'.events[Attempt(id)] == s.events[Attempt(id)])
  {
    QueueRuns.InitInv(d);
    ReachesInv(Init(d), steps, s);
    var e, after := Get(s.log, id).value, Apply(s, Crash);
    StepKeepsInv(s, Crash);
    GetIsKeyed(s.log, id);
    SelectSpec(s.log, (x: WALEntry) => IsPendingFor(x, e.peerID));
    if e.status != Pending {
      assert Stranded(after, id);
      hide Inv, Stranded, Apply;
      forall more, s' | Reaches(after, more, s')
        ensures Get(s'.log, id).Some? && s'.events[Attempt(id)] == s.events[Attempt(id)]
      {
        StrandedForever(after, more, s', id);
      }
    }
  }

  /** The state in which the first entry ever enqueued is being delivered. */
  function FirstInFlight(e: WALEntry, now: int): State {
    State(1, [(e.id, e.(status := InFlight, updatedAt := now))], [Delivering(e, [], false)], map[],
          multiset{Enqueued(e.id), Attempt(e.id)})
  }

  lemma FirstDelivery(e: WALEntry, now: int)
    requires e == WALEntry(Key(1), e.peerID, e.op, e.payload, Pending, 0, now, now)
    ensures Reaches(Init(1), [Enqueue(e.peerID, e.op, e.payload, now), DrainPeer(0, e.peerID), Begin(0, true, now)],
                    FirstInFlight(e, now))
  {
    hide Key, Select;
    assert Reaches(FirstInFlight(e, now), [], FirstInFlight(e, now));
    hide Reaches;
    var s1 := Init(1).(sequence := 1, log := [(e.id, e)], events := multiset{Enqueued(e.id)});
    var s2 := s1.(threads := [Draining([e], false)]);
    var enqueue, drain, begin := Enqueue(e.peerID, e.op, e.payload, now), DrainPeer(0, e.peerID), Begin(0, true, now);
    assert Apply(Init(1), enqueue) == s1;
    OnlyEntry(e, (x: WALEntry) => IsPendingFor(x, e.peerID), InFlight, now);
    assert Apply(s1, drain) == s2;
    assert [e][1..] == [];
    hide SetStatus, Get;
    assert Apply(s2, begin) == FirstInFlight(e, now);
    assert Enabled(s2, begin) && Enabled(s1, drain);
    hide Apply, Enabled;
    StepThen(s2, begin, [], FirstInFlight(e, now));
    StepThen(s1, drain, [begin] + [], FirstInFlight(e, now));
    StepThen(Init(1), enqueue, [drain] + ([begin] + []), FirstInFlight(e, now));
    assert [enqueue] + ([drain] + ([begin] + [])) == [enqueue, drain, begin];
  }

  /** Such entries exist: one is enqueued, drained, in flight when the process crashes, and stranded from then on. */
  lemma ACrashStrands(e: WALEntry, now: int)
    requires e == WALEntry(Key(1), e.peerID, e.op, e.payload, Pending, 0, now, now)
    ensures Reaches(Init(1), [Enqueue(e.peerID, e.op, e.payload, now), DrainPeer(0, e.peerID), Begin(0, true, now)],
                    FirstInFlight(e, now))
    ensures Stranded(Apply(FirstInFlight(e, now), Crash), e.id)
  {
    FirstDelivery(e, now);
    hide Key, Reaches;
  }
}

/**
 Control of the sender: no deadlock, termination of every goroutine, no use of a closed channel and no early
 success, in every interleaving, whatever the calls return and whenever the context is cancelled.
 */
module SenderControl {
  import opened Hasher
  import opened Wire
  import opened Sender

  // ---------------------------------------------------------------------------------------------
  // The invariant
  // ---------------------------------------------------------------------------------------------

  /** Points of the feeder before it closes `jobs`. */
  predicate BeforeClose(f: Feeder) {
    f.Reading? || f.Handing? || f.AbortClose? || f.EarlyClose? || f.Closing?
  }

  /** Points of the feeder after it took the delivery result. */
  predicate Taken(f: Feeder) {
    f.EarlyClose? || f.Stopping? || f.Ending? || f.ClosingStream? || f.Returned?
  }

  /** Points of the feeder after its own stopWorkers (or after delivery's, when it returned early). */
  predicate PastStop(f: Feeder) {
    f.AbortWait? || f.Ending? || f.ClosingStream? || f.Returned?
  }

  predicate DeliveryFailed(d: Delivery) {
    d == Reporting(false) || d == Gone(false)
  }

  predicate DeliverySucceeded(d: Delivery) {
    d == Reporting(true) || d == Gone(true)
  }

  /** Evidence that some chunk will not be delivered. */
  predicate TroubleIn(stopped: bool, delivery: Delivery, results: seq<Result>, workers: seq<Worker>) {
    stopped || delivery.Failing? || Failed in results || Offering(Failed) in workers
  }

  predicate Trouble(s: State) {
    TroubleIn(s.stopped, s.delivery, s.results, s.workers)
  }

  ghost predicate Shape(c: Config, s: State) {
    && |s.workers| == c.P()
    && |s.jobs| <= c.Capacity() && |s.results| <= c.Capacity()
    && s.idx <= |c.chunks|
    && (s.feeder.Handing? ==> s.idx < |c.chunks|)
    && !s.panicked
  }

  ghost predicate Channels(c: Config, s: State) {
    && (s.jobsClosed <==> !BeforeClose(s.feeder))
    && (s.resultsClosed ==> AllExited(s.workers))
    && (s.delivery.Gone? && !Taken(s.feeder) ==> s.netErr == [s.delivery.ok])
    && (!s.delivery.Gone? || Taken(s.feeder) ==> s.netErr == [])
    && (Taken(s.feeder) ==> s.delivery.Gone?)
    && (s.feeder.EarlyClose? ==> s.delivery == Gone(s.feeder.ok))
    && (s.feeder.Stopping? || s.feeder.Ending? || s.feeder.ClosingStream? || s.feeder == Returned(true)
        ==> s.delivery == Gone(true))
  }

  ghost predicate Stops(c: Config, s: State) {
    && (DeliveryFailed(s.delivery) ==> s.stopped)
    && (s.stopped && !PastStop(s.feeder) ==> DeliveryFailed(s.delivery))
    && (PastStop(s.feeder) ==> s.stopped)
    && (Exited in s.workers && !Trouble(s) ==> s.jobsClosed && s.jobs == [])
    && (DeliverySucceeded(s.delivery) ==> s.resultsClosed && s.results == [] && s.jobsClosed)
  }

  ghost predicate Inv(c: Config, s: State) {
    Shape(c, s) && Channels(c, s) && Stops(c, s)
  }

  lemma InitInv(c: Config)
    ensures Inv(c, Init(c))
  {
  }

  // ---------------------------------------------------------------------------------------------
  // Every step keeps it
  // ---------------------------------------------------------------------------------------------

  lemma ReadKeepsInv(c: Config, s: State, fault: bool)
    requires Inv(c, s) && Enabled(c, s, Read(fault))
    ensures Inv(c, Apply(c, s, Read(fault)))
  {
    hide TroubleIn, AllExited;
  }

  lemma FeederSelectKeepsInv(c: Config, s: State, step: Step)
    requires Inv(c, s) && Enabled(c, s, step)
    requires step.Cancel? || step.HandOver? || step.SeeCancel? || step.TakeResult?
    ensures Inv(c, Apply(c, s, step))
  {
  }

  lemma FeederEndKeepsInv(c: Config, s: State, step: Step)
    requires Inv(c, s) && Enabled(c, s, step)
    requires step.CloseJobs? || step.StopWorkers? || step.SendEnd? || step.CloseStream?
    ensures Inv(c, Apply(c, s, step))
  {
  }

  /** Replacing one worker that has not exited. */
  lemma WorkerSwap(ws: seq<Worker>, w: nat, v: Worker)
    requires w < |ws| && !ws[w].Exited?
    ensures forall u: Worker | u in ws[w := v] && u != v :: u in ws
    ensures forall u: Worker | u in ws && u != ws[w] :: u in ws[w := v]
    ensures v in ws[w := v] && ws[w] in ws
    ensures !AllExited(ws)
  {
    var vs := ws[w := v];
    assert vs[w] == v && ws[w] in ws;
    forall u: Worker | u in vs && u != v
      ensures u in ws
    {
      var i :| 0 <= i < |vs| && vs[i] == u;
      assert ws[i] == u;
    }
    forall u: Worker | u in ws && u != ws[w]
      ensures u in vs
    {
      var i :| 0 <= i < |ws| && ws[i] == u;
      assert vs[i] == u;
    }
  }

  lemma WorkerKeepsInv(c: Config, s: State, w: nat, step: Step)
    requires Inv(c, s) && Enabled(c, s, step)
    requires step == Receive(w) || step == Quit(w) || step == Offer(w) || step == Abandon(w)
    ensures Inv(c, Apply(c, s, step))
  {
    WorkerSwap(s.workers, w, Apply(c, s, step).workers[w]);
  }

  lemma ProcessKeepsInv(c: Config, s: State, w: nat, fault: bool, nonce: Bytes)
    requires Inv(c, s) && Enabled(c, s, Process(w, fault, nonce))
    ensures Inv(c, Apply(c, s, Process(w, fault, nonce)))
  {
    hide MakeResult;
    WorkerSwap(s.workers, w, Offering(MakeResult(c, s.workers[w].job, fault, nonce)));
  }

  lemma SomeExited(c: Config, s: State)
    requires |s.workers| == c.P() && AllExited(s.workers)
    ensures Exited in s.workers && Offering(Failed) !in s.workers
  {
    assert s.workers[0] == Exited;
  }

  lemma FailedInTail(results: seq<Result>)
    requires results != []
    ensures Failed in results <==> results[0].Failed? || Failed in results[1..]
  {
    assert results == [results[0]] + results[1..];
  }

  /** Taking a result off the channel moves trouble and does not make or end it. */
  lemma CollectKeepsTrouble(c: Config, s: State)
    requires Enabled(c, s, Collect)
    ensures Trouble(s) <==> Trouble(Apply(c, s, Collect))
  {
    FailedInTail(s.results);
  }

  lemma CollectKeepsInv(c: Config, s: State)
    requires Inv(c, s) && Enabled(c, s, Collect)
    ensures Inv(c, Apply(c, s, Collect))
  {
    CollectKeepsTrouble(c, s);
    hide TroubleIn, AllExited, Arrived;
  }

  lemma CollectEndKeepsInv(c: Config, s: State)
    requires Inv(c, s) && Enabled(c, s, CollectEnd)
    ensures Inv(c, Apply(c, s, CollectEnd))
  {
    SomeExited(c, s);
  }

  lemma SendKeepsInv(c: Config, s: State, fault: bool)
    requires Inv(c, s) && Enabled(c, s, SendNext(fault))
    ensures Inv(c, Apply(c, s, SendNext(fault)))
  {
  }

  lemma ReportKeepsInv(c: Config, s: State, step: Step)
    requires Inv(c, s) && Enabled(c, s, step)
    requires step.CloseResults? || step.Gap? || step.GiveUp? || step.Report?
    ensures Inv(c, Apply(c, s, step))
  {
  }

  lemma StepKeepsInv(c: Config, s: State, step: Step)
    requires Inv(c, s) && Enabled(c, s, step)
    ensures Inv(c, Apply(c, s, step))
  {
    hide Inv, Enabled, Apply;
    match step
    case Cancel => FeederSelectKeepsInv(c, s, step);
    case Read(fault) => ReadKeepsInv(c, s, fault);
    case HandOver => FeederSelectKeepsInv(c, s, step);
    case SeeCancel => FeederSelectKeepsInv(c, s, step);
    case TakeResult => FeederSelectKeepsInv(c, s, step);
    case CloseJobs => FeederEndKeepsInv(c, s, step);
    case StopWorkers => FeederEndKeepsInv(c, s, step);
    case SendEnd(_) => FeederEndKeepsInv(c, s, step);
    case CloseStream(_) => FeederEndKeepsInv(c, s, step);
    case Receive(w) => WorkerKeepsInv(c, s, w, step);
    case Quit(w) => WorkerKeepsInv(c, s, w, step);
    case Offer(w) => WorkerKeepsInv(c, s, w, step);
    case Abandon(w) => WorkerKeepsInv(c, s, w, step);
    case Process(w, fault, nonce) => ProcessKeepsInv(c, s, w, fault, nonce);
    case Collect => CollectKeepsInv(c, s);
    case CollectEnd => CollectEndKeepsInv(c, s);
    case SendNext(fault) => SendKeepsInv(c, s, fault);
    case _ => ReportKeepsInv(c, s, step);
  }

  lemma {:induction false} ReachesInv(c: Config, s: State, steps: seq<Step>, t: State)
    requires Inv(c, s) && Reaches(c, s, steps, t)
    ensures Inv(c, t)
    decreases |steps|
  {
    if steps != [] {
      StepKeepsInv(c, s, steps[0]);
      hide Inv;
      ReachesInv(c, Apply(c, s, steps[0]), steps[1..], t);
    }
  }

  /** In no run is a closed channel sent to or closed again. */
  lemma NoPanic(c: Config, steps: seq<Step>, s: State)
    requires Reaches(c, Init(c), steps, s)
    ensures !s.panicked
  {
    InitInv(c);
    ReachesInv(c, Init(c), steps, s);
  }

  /** A delivery result received while chunks are still being fed is never a success. */
  lemma NoEarlySuccess(c: Config, steps: seq<Step>, s: State)
    requires Reaches(c, Init(c), steps, s)
    ensures s.feeder.EarlyClose? ==> !s.feeder.ok
    ensures s.feeder.Handing? && s.netErr != [] ==> s.netErr == [false]
  {
    InitInv(c);
    ReachesInv(c, Init(c), steps, s);
  }

  // ---------------------------------------------------------------------------------------------
  // Deadlock freedom
  // ---------------------------------------------------------------------------------------------

  /** A step of one of the goroutines; the outside cancellation does not count as progress. */
  predicate Internal(step: Step) {
    !step.Cancel?
  }

  ghost predicate CanStep(c: Config, s: State) {
    exists step :: Internal(step) && Enabled(c, s, step)
  }

  lemma Can(c: Config, s: State, step: Step)
    requires Internal(step) && Enabled(c, s, step)
    ensures CanStep(c, s)
  {
  }

  /** With `jobs` closed and room for results, or the stop signal given, any worker left can move. */
  lemma WorkerCanMove(c: Config, s: State, w: nat)
    requires Inv(c, s) && w < |s.workers| && !s.workers[w].Exited?
    requires s.jobsClosed || s.jobs != []
    requires s.stopped || s.results == []
    ensures CanStep(c, s)
  {
    match s.workers[w]
    case Idle =>
      if s.jobs != [] {
        Can(c, s, Receive(w));
      } else {
        Can(c, s, Quit(w));
      }
    case Working(_) => Can(c, s, Process(w, false, []));
    case Offering(_) =>
      if s.stopped {
        Can(c, s, Abandon(w));
      } else {
        Can(c, s, Offer(w));
      }
  }

  lemma FeederCanMove(c: Config, s: State)
    requires Inv(c, s)
    requires !s.feeder.Returned?
    requires s.netErr != [] || !(s.feeder.AbortWait? || s.feeder.Waiting?)
    requires s.netErr != [] || !s.feeder.Handing? || s.jobs == []
    ensures CanStep(c, s)
  {
    match s.feeder
    case Reading => Can(c, s, Read(false));
    case Handing(_) =>
      if s.netErr != [] {
        Can(c, s, TakeResult);
      } else {
        Can(c, s, HandOver);
      }
    case AbortWait => Can(c, s, TakeResult);
    case Waiting => Can(c, s, TakeResult);
    case AbortStop => Can(c, s, StopWorkers);
    case Stopping => Can(c, s, StopWorkers);
    case Ending => Can(c, s, SendEnd(false));
    case ClosingStream => Can(c, s, CloseStream(false));
    case _ => Can(c, s, CloseJobs);
  }

  lemma DeliveryCanMove(c: Config, s: State)
    requires Inv(c, s) && !s.delivery.Gone?
    requires s.delivery.Ranging? ==> s.results != [] || s.resultsClosed
    ensures CanStep(c, s)
  {
    match s.delivery
    case Ranging =>
      if s.results != [] {
        Can(c, s, Collect);
      } else {
        Can(c, s, CollectEnd);
      }
    case Flushing =>
      if s.next in s.pending {
        Can(c, s, SendNext(false));
      } else {
        Can(c, s, Gap);
      }
    case Failing => Can(c, s, GiveUp);
    case Reporting(_) => Can(c, s, Report);
  }

  /** Every state is either final or some goroutine can move, with no help from outside. */
  lemma Progress(c: Config, s: State)
    requires Inv(c, s)
    ensures Finished(s) || CanStep(c, s)
  {
    hide CanStep;
    if !s.delivery.Gone? && (s.delivery.Ranging? ==> s.results != [] || s.resultsClosed) {
      DeliveryCanMove(c, s);
    } else if s.delivery.Gone? && !s.feeder.Returned? {
      FeederCanMove(c, s);
    } else if AllExited(s.workers) {
      if !s.resultsClosed {
        Can(c, s, CloseResults);
      }
    } else {
      var w :| 0 <= w < |s.workers| && !s.workers[w].Exited?;
      if s.jobsClosed || s.jobs != [] {
        WorkerCanMove(c, s, w);
      } else {
        FeederCanMove(c, s);
      }
    }
  }

  // ---------------------------------------------------------------------------------------------
  // Termination
  // ---------------------------------------------------------------------------------------------

  function FeederRank(f: Feeder): nat {
    match f
    case Reading => 12
    case Handing(_) => 11
    case Closing => 10
    case Waiting => 9
    case Stopping => 8
    case AbortClose => 7
    case AbortStop => 6
    case AbortWait => 5
    case EarlyClose(_) => 4
    case Ending => 3
    case ClosingStream => 2
    case Returned(_) => 0
  }

  function WorkerRank(w: Worker): nat {
    match w
    case Idle => 1
    case Working(_) => 8
    case Offering(_) => 7
    case Exited => 0
  }

  function DeliveryRank(d: Delivery): nat {
    match d
    case Flushing => 5
    case Ranging => 4
    case Failing => 3
    case Reporting(_) => 2
    case Gone(_) => 0
  }

  function WorkersRank(ws: seq<Worker>): nat {
    if ws == [] then 0 else WorkerRank(ws[0]) + WorkersRank(ws[1..])
  }

  /** Chunks on their way: each weighs less at each stage from the source to the stream. */
  function Load(unread: int, jobs: nat, workers: seq<Worker>, results: nat, pending: nat): int {
    10 * unread + 8 * jobs + WorkersRank(workers) + 4 * results + 2 * pending
  }

  /** Work left. */
  function Measure(c: Config, s: State): int {
    Load(|c.chunks| - s.idx, |s.jobs|, s.workers, |s.results|, |s.pending|)
    + FeederRank(s.feeder) + DeliveryRank(s.delivery)
    + (if s.resultsClosed then 0 else 1) + (if s.cancelled then 0 else 1)
  }

  lemma {:induction false} WorkersRankUpdate(ws: seq<Worker>, w: nat, v: Worker)
    requires w < |ws|
    ensures WorkersRank(ws[w := v]) == WorkersRank(ws) - WorkerRank(ws[w]) + WorkerRank(v)
    decreases w
  {
    if w == 0 {
      assert ws[0 := v][1..] == ws[1..];
    } else {
      WorkersRankUpdate(ws[1..], w - 1, v);
      assert ws[w := v][1..] == ws[1..][w - 1 := v];
    }
  }

  lemma ReadDecreases(c: Config, s: State, fault: bool)
    requires Inv(c, s) && Enabled(c, s, Read(fault))
    ensures Measure(c, Apply(c, s, Read(fault))) < Measure(c, s)
  {
    hide WorkersRank, DeliveryRank, Inv;
  }

  lemma SelectDecreases(c: Config, s: State, step: Step)
    requires Inv(c, s) && Enabled(c, s, step)
    requires step.Cancel? || step.HandOver? || step.SeeCancel? || step.TakeResult?
    ensures Measure(c, Apply(c, s, step)) < Measure(c, s)
  {
    hide WorkersRank, DeliveryRank, Stops;
  }

  lemma CloseDecreases(c: Config, s: State)
    requires Inv(c, s) && Enabled(c, s, CloseJobs)
    ensures Measure(c, Apply(c, s, CloseJobs)) < Measure(c, s)
  {
    hide WorkersRank, DeliveryRank, Stops;
  }

  lemma StopDecreases(c: Config, s: State)
    requires Enabled(c, s, StopWorkers)
    ensures Measure(c, Apply(c, s, StopWorkers)) < Measure(c, s)
  {
    hide Load, DeliveryRank;
  }

  lemma FinishDecreases(c: Config, s: State, fault: bool)
    ensures Enabled(c, s, SendEnd(fault)) ==> Measure(c, Apply(c, s, SendEnd(fault))) < Measure(c, s)
    ensures Enabled(c, s, CloseStream(fault)) ==> Measure(c, Apply(c, s, CloseStream(fault))) < Measure(c, s)
  {
    hide Load, DeliveryRank;
  }

  lemma WorkerDecreases(c: Config, s: State, w: nat, step: Step)
    requires Inv(c, s) && Enabled(c, s, step)
    requires step == Receive(w) || step == Quit(w) || step == Offer(w) || step == Abandon(w)
             || (step.Process? && step.w == w)
    ensures Measure(c, Apply(c, s, step)) < Measure(c, s)
  {
    hide Stops, FeederRank, DeliveryRank;
    WorkersRankUpdate(s.workers, w, Apply(c, s, step).workers[w]);
    hide WorkersRank;
  }

  lemma PendingGrows(pending: map<nat, Packet>, r: Result)
    ensures |Arrived(pending, r)| <= |pending| + 1
  {
    if r.Delivered? {
      assert Arrived(pending, r).Keys == pending.Keys + {r.index};
    }
  }

  lemma CollectDecreases(c: Config, s: State)
    requires Inv(c, s) && Enabled(c, s, Collect)
    ensures Measure(c, Apply(c, s, Collect)) < Measure(c, s)
  {
    PendingGrows(s.pending, s.results[0]);
    hide WorkersRank, FeederRank, Inv, Arrived;
  }

  lemma SendDecreases(c: Config, s: State, fault: bool)
    requires Inv(c, s) && Enabled(c, s, SendNext(fault))
    ensures Measure(c, Apply(c, s, SendNext(fault))) < Measure(c, s)
  {
    hide WorkersRank, FeederRank, Inv;
    assert (s.pending - {s.next}).Keys == s.pending.Keys - {s.next};
  }

  lemma ReportDecreases(c: Config, s: State, step: Step)
    requires Inv(c, s) && Enabled(c, s, step)
    requires step.CloseResults? || step.CollectEnd? || step.Gap? || step.GiveUp? || step.Report?
    ensures Measure(c, Apply(c, s, step)) < Measure(c, s)
  {
    hide Load, FeederRank, Inv;
  }

  /** Every step, also a cancellation, uses up some of the work left. */
  lemma StepDecreases(c: Config, s: State, step: Step)
    requires Inv(c, s) && Enabled(c, s, step)
    ensures Measure(c, Apply(c, s, step)) < Measure(c, s)
  {
    hide Inv, Enabled, Apply, Measure;
    match step
    case Receive(w) => WorkerDecreases(c, s, w, step);
    case Quit(w) => WorkerDecreases(c, s, w, step);
    case Offer(w) => WorkerDecreases(c, s, w, step);
    case Abandon(w) => WorkerDecreases(c, s, w, step);
    case Process(w, _, _) => WorkerDecreases(c, s, w, step);
    case Read(fault) => ReadDecreases(c, s, fault);
    case Cancel => SelectDecreases(c, s, step);
    case HandOver => SelectDecreases(c, s, step);
    case SeeCancel => SelectDecreases(c, s, step);
    case TakeResult => SelectDecreases(c, s, step);
    case CloseJobs => CloseDecreases(c, s);
    case StopWorkers => StopDecreases(c, s);
    case SendEnd(fault) => FinishDecreases(c, s, fault);
    case CloseStream(fault) => FinishDecreases(c, s, fault);
    case Collect => CollectDecreases(c, s);
    case SendNext(fault) => SendDecreases(c, s, fault);
    case _ => ReportDecreases(c, s, step);
  }

  lemma {:induction false} RunsAreBounded(c: Config, s: State, steps: seq<Step>, t: State)
    requires Inv(c, s) && Reaches(c, s, steps, t)
    ensures |steps| <= Measure(c, s) - Measure(c, t)
    decreases |steps|
  {
    if steps != [] {
      StepKeepsInv(c, s, steps[0]);
      StepDecreases(c, s, steps[0]);
      hide Inv, Measure;
      RunsAreBounded(c, Apply(c, s, steps[0]), steps[1..], t);
    }
  }

  lemma {:induction false} InitialWorkersRank(n: nat)
    ensures WorkersRank(seq(n, _ => Idle)) == n
  {
    if n > 0 {
      var ws := seq(n, _ => Idle);
      assert ws[1..] == seq(n - 1, _ => Idle);
      InitialWorkersRank(n - 1);
    }
  }

  /**
   Termination: no run is longer than ten steps per chunk, one per worker and eighteen more, and a run that
   cannot be continued by any goroutine has ended with all of them returned.
   */
  lemma AllRunsEnd(c: Config, steps: seq<Step>, s: State)
    requires Reaches(c, Init(c), steps, s)
    ensures |steps| <= 10 * |c.chunks| + c.P() + 18
    ensures !CanStep(c, s) ==> Finished(s)
  {
    InitInv(c);
    InitialWorkersRank(c.P());
    ReachesInv(c, Init(c), steps, s);
    RunsAreBounded(c, Init(c), steps, s);
    Progress(c, s);
  }
}

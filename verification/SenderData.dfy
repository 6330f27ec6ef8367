/**
 What the sender puts on the stream: in every interleaving the stream is `start` followed by the chunks from
 the resume index on, each once and in order, and a nil return means that all of them and `end` were written.
 */
module SenderData {
  import opened Hasher
  import opened Wire
  import opened Sender
  import opened SenderControl

  // ---------------------------------------------------------------------------------------------
  // Chunks in transit carry the right data
  // ---------------------------------------------------------------------------------------------

  ghost predicate Good(c: Config, k: int, p: Packet) {
    Carries(c.cipher, c.key, c.chunks, k, p)
  }

  ghost predicate JobGood(c: Config, job: Job) {
    job.index < |c.chunks| && job.chunk == c.chunks[job.index]
  }

  ghost predicate ResultGood(c: Config, r: Result) {
    r.Delivered? ==> Good(c, r.index, r.packet)
  }

  ghost predicate WorkerGood(c: Config, w: Worker) {
    (w.Working? ==> JobGood(c, w.job)) && (w.Offering? ==> ResultGood(c, w.result))
  }

  ghost predicate Payloads(c: Config, jobs: seq<Job>, workers: seq<Worker>, results: seq<Result>,
                           pending: map<nat, Packet>)
  {
    && (forall i | 0 <= i < |jobs| :: JobGood(c, jobs[i]))
    && (forall w | 0 <= w < |workers| :: WorkerGood(c, workers[w]))
    && (forall i | 0 <= i < |results| :: ResultGood(c, results[i]))
    && (forall k | k in pending :: Good(c, k, pending[k]))
  }

  ghost predicate HandingGood(c: Config, f: Feeder, idx: nat) {
    f.Handing? ==> c.resumeIndex <= idx < |c.chunks| && f.job == Job(idx, c.chunks[idx])
  }

  /** `start`, then the chunks from the resume index up to `next`, then possibly `end`. */
  ghost predicate InOrder(c: Config, wire: seq<Packet>, next: nat, ended: bool) {
    && c.resumeIndex <= next
    && |wire| == 1 + (next - c.resumeIndex) + (if ended then 1 else 0)
    && wire[0] == c.start
    && (forall i | 1 <= i <= next - c.resumeIndex :: Good(c, c.resumeIndex + i - 1, wire[i]))
    && (ended ==> wire[|wire| - 1] == End)
  }

  lemma MadeResultGood(c: Config, job: Job, fault: bool, nonce: Bytes)
    requires JobGood(c, job)
    ensures ResultGood(c, MakeResult(c, job, fault, nonce))
  {
  }

  // ---------------------------------------------------------------------------------------------
  // No chunk is lost or doubled
  // ---------------------------------------------------------------------------------------------

  function JobCopies(jobs: seq<Job>, k: nat): nat {
    if jobs == [] then 0 else (if jobs[0].index == k then 1 else 0) + JobCopies(jobs[1..], k)
  }

  function WorkerCopy(w: Worker, k: nat): nat {
    match w
    case Working(job) => if job.index == k then 1 else 0
    case Offering(Delivered(index, _)) => if index == k then 1 else 0
    case _ => 0
  }

  function WorkerCopies(workers: seq<Worker>, k: nat): nat {
    if workers == [] then 0 else WorkerCopy(workers[0], k) + WorkerCopies(workers[1..], k)
  }

  function ResultCopies(results: seq<Result>, k: nat): nat {
    if results == [] then 0
    else (if results[0].Delivered? && results[0].index == k then 1 else 0) + ResultCopies(results[1..], k)
  }

  /** In how many places between the feeder and the stream chunk `k` is. */
  function Copies(jobs: seq<Job>, workers: seq<Worker>, results: seq<Result>, pending: map<nat, Packet>, k: nat): nat {
    JobCopies(jobs, k) + WorkerCopies(workers, k) + ResultCopies(results, k) + (if k in pending then 1 else 0)
  }

  /** Chunks handed over and not yet sent are in one place, unless there is trouble; no other chunk is in any. */
  predicate Balanced(s: State, k: nat) {
    var copies := Copies(s.jobs, s.workers, s.results, s.pending, k);
    if s.next <= k < s.idx then copies <= 1 && (!Trouble(s) ==> copies == 1) else copies == 0
  }

  lemma {:induction false} JobCopiesAppend(jobs: seq<Job>, job: Job, k: nat)
    ensures JobCopies(jobs + [job], k) == JobCopies(jobs, k) + (if job.index == k then 1 else 0)
    decreases |jobs|
  {
    if jobs != [] {
      JobCopiesAppend(jobs[1..], job, k);
      assert (jobs + [job])[1..] == jobs[1..] + [job];
    }
  }

  lemma {:induction false} ResultCopiesAppend(results: seq<Result>, r: Result, k: nat)
    ensures ResultCopies(results + [r], k)
         == ResultCopies(results, k) + (if r.Delivered? && r.index == k then 1 else 0)
    decreases |results|
  {
    if results != [] {
      ResultCopiesAppend(results[1..], r, k);
      assert (results + [r])[1..] == results[1..] + [r];
    }
  }

  lemma {:induction false} WorkerCopiesUpdate(workers: seq<Worker>, w: nat, v: Worker, k: nat)
    requires w < |workers|
    ensures WorkerCopies(workers[w := v], k)
         == WorkerCopies(workers, k) - WorkerCopy(workers[w], k) + WorkerCopy(v, k)
    decreases w
  {
    if w == 0 {
      assert workers[0 := v][1..] == workers[1..];
    } else {
      WorkerCopiesUpdate(workers[1..], w - 1, v, k);
      assert workers[w := v][1..] == workers[1..][w - 1 := v];
    }
  }

  lemma {:induction false} ExitedHoldNothing(workers: seq<Worker>, k: nat)
    requires AllExited(workers)
    ensures WorkerCopies(workers, k) == 0
    decreases |workers|
  {
    if workers != [] {
      ExitedHoldNothing(workers[1..], k);
    }
  }

  // ---------------------------------------------------------------------------------------------
  // The invariant
  // ---------------------------------------------------------------------------------------------

  /** Points of the feeder at which the source has been read to its end. */
  predicate AtEnd(f: Feeder) {
    f.Closing? || f.Waiting? || Succeeding(f)
  }

  predicate Succeeding(f: Feeder) {
    f.Stopping? || f.Ending? || f.ClosingStream? || f == Returned(true)
  }

  ghost predicate Positions(c: Config, s: State) {
    && c.resumeIndex <= s.next && (s.next == c.resumeIndex || s.next <= s.idx)
    && (AtEnd(s.feeder) ==> s.idx == |c.chunks|)
    && (s.delivery.Ranging? || DeliverySucceeded(s.delivery) ==> s.next !in s.pending)
    && (Succeeding(s.feeder) ==> s.pending == map[] && s.next >= |c.chunks|)
    && (s.ended ==> s.next >= |c.chunks|)
    && (s.ended ==> s.delivery == Gone(true) && (s.feeder.ClosingStream? || s.feeder.Returned?))
    && (s.feeder.ClosingStream? || s.feeder == Returned(true) ==> s.ended)
  }

  ghost predicate AllBalanced(s: State) {
    forall k: nat :: Balanced(s, k)
  }

  ghost predicate Data(c: Config, s: State) {
    && Payloads(c, s.jobs, s.workers, s.results, s.pending)
    && HandingGood(c, s.feeder, s.idx)
    && InOrder(c, s.wire, s.next, s.ended)
    && Positions(c, s)
    && AllBalanced(s)
  }

  lemma InitData(c: Config)
    ensures Data(c, Init(c))
  {
    forall k: nat
      ensures Balanced(Init(c), k)
    {
      IdleHoldNothing(c.P(), k);
    }
  }

  lemma {:induction false} IdleHoldNothing(n: nat, k: nat)
    ensures WorkerCopies(seq(n, _ => Idle), k) == 0
  {
    if n > 0 {
      var ws := seq(n, _ => Idle);
      assert ws[1..] == seq(n - 1, _ => Idle);
      IdleHoldNothing(n - 1, k);
    }
  }

  // ---------------------------------------------------------------------------------------------
  // Every step keeps it
  // ---------------------------------------------------------------------------------------------

  lemma ReadKeepsData(c: Config, s: State, fault: bool)
    requires Inv(c, s) && Data(c, s) && Enabled(c, s, Read(fault))
    ensures Data(c, Apply(c, s, Read(fault)))
  {
    hide Payloads, InOrder, Copies, TroubleIn, Stops;
    var t := Apply(c, s, Read(fault));
    forall k: nat
      ensures Balanced(t, k)
    {
      assert Balanced(s, k);
    }
  }

  lemma HandOverKeepsData(c: Config, s: State)
    requires Inv(c, s) && Data(c, s) && Enabled(c, s, HandOver)
    ensures Data(c, Apply(c, s, HandOver))
  {
    hide InOrder, TroubleIn, Stops, JobCopies, WorkerCopies, ResultCopies;
    var t := Apply(c, s, HandOver);
    forall k: nat
      ensures Balanced(t, k)
    {
      assert Balanced(s, k);
      JobCopiesAppend(s.jobs, s.feeder.job, k);
    }
  }

  lemma ReceiveKeepsData(c: Config, s: State, w: nat)
    requires Inv(c, s) && Data(c, s) && Enabled(c, s, Receive(w))
    ensures Data(c, Apply(c, s, Receive(w)))
  {
    hide InOrder, Stops, Shape, Channels, ResultCopies, WorkerCopies;
    var t := Apply(c, s, Receive(w));
    WorkerSwap(s.workers, w, t.workers[w]);
    assert Trouble(s) == Trouble(t);
    hide TroubleIn;
    forall k: nat
      ensures Balanced(t, k)
    {
      assert Balanced(s, k);
      WorkerCopiesUpdate(s.workers, w, t.workers[w], k);
    }
  }

  lemma ProcessKeepsData(c: Config, s: State, w: nat, fault: bool, nonce: Bytes)
    requires Inv(c, s) && Data(c, s) && Enabled(c, s, Process(w, fault, nonce))
    ensures Data(c, Apply(c, s, Process(w, fault, nonce)))
  {
    hide InOrder, Stops, Shape, Channels, ResultCopies, WorkerCopies, JobCopies;
    var t := Apply(c, s, Process(w, fault, nonce));
    var job := s.workers[w].job;
    var r := MakeResult(c, job, fault, nonce);
    assert r.Failed? || r.index == job.index;
    MadeResultGood(c, job, fault, nonce);
    hide MakeResult;
    WorkerSwap(s.workers, w, Offering(r));
    assert r == Failed || Trouble(s) == Trouble(t);
    assert r == Failed ==> Trouble(t);
    hide TroubleIn;
    forall k: nat
      ensures Balanced(t, k)
    {
      assert Balanced(s, k);
      WorkerCopiesUpdate(s.workers, w, Offering(r), k);
    }
  }

  lemma OfferKeepsData(c: Config, s: State, w: nat)
    requires Inv(c, s) && Data(c, s) && Enabled(c, s, Offer(w))
    ensures Data(c, Apply(c, s, Offer(w)))
  {
    hide InOrder, Stops, Shape, ResultCopies, WorkerCopies, JobCopies;
    var t := Apply(c, s, Offer(w));
    var r := s.workers[w].result;
    WorkerSwap(s.workers, w, t.workers[w]);
    assert !s.resultsClosed;
    assert Trouble(s) == Trouble(t);
    hide TroubleIn, Channels, AllExited;
    assert WorkerGood(c, s.workers[w]);
    forall k: nat
      ensures Balanced(t, k)
    {
      assert Balanced(s, k);
      WorkerCopiesUpdate(s.workers, w, t.workers[w], k);
      ResultCopiesAppend(s.results, r, k);
    }
  }

  lemma LeaveKeepsData(c: Config, s: State, w: nat, step: Step)
    requires Inv(c, s) && Data(c, s) && Enabled(c, s, step)
    requires step == Quit(w) || step == Abandon(w)
    ensures Data(c, Apply(c, s, step))
  {
    hide InOrder, Stops, Shape, Channels, ResultCopies, WorkerCopies, JobCopies;
    var t := Apply(c, s, step);
    WorkerSwap(s.workers, w, Exited);
    assert t == s.(workers := s.workers[w := Exited]);
    assert Trouble(s) == Trouble(t);
    assert step == Abandon(w) ==> Trouble(t);
    hide TroubleIn;
    forall k: nat
      ensures Balanced(t, k)
    {
      assert Balanced(s, k);
      WorkerCopiesUpdate(s.workers, w, Exited, k);
    }
  }

  lemma CollectPayloads(c: Config, s: State)
    requires s.results != [] && Payloads(c, s.jobs, s.workers, s.results, s.pending)
    ensures Payloads(c, s.jobs, s.workers, s.results[1..], Arrived(s.pending, s.results[0]))
  {
    hide Good, JobGood, WorkerGood;
    assert ResultGood(c, s.results[0]);
  }

  /** A chunk taken off the channel is in the reorder map; it was not there before. */
  lemma CollectMovesOne(results: seq<Result>, pending: map<nat, Packet>, k: nat)
    requires results != [] && (results[0].Delivered? ==> results[0].index !in pending)
    ensures ResultCopies(results[1..], k) + (if k in Arrived(pending, results[0]) then 1 else 0)
         == ResultCopies(results, k) + (if k in pending then 1 else 0)
  {
  }

  lemma HeadNotPending(s: State)
    requires AllBalanced(s) && s.results != [] && s.results[0].Delivered?
    ensures s.results[0].index !in s.pending
  {
    assert Balanced(s, s.results[0].index);
    hide TroubleIn, WorkerCopies, JobCopies;
  }

  lemma CollectKeepsData(c: Config, s: State)
    requires Inv(c, s) && Data(c, s) && Enabled(c, s, Collect)
    ensures Data(c, Apply(c, s, Collect))
  {
    CollectPayloads(c, s);
    CollectKeepsTrouble(c, s);
    if s.results[0].Delivered? {
      HeadNotPending(s);
    }
    hide InOrder, Payloads, Stops, Shape, Arrived, ResultCopies, WorkerCopies, JobCopies, TroubleIn, AllExited;
    forall k: nat
      ensures Balanced(Apply(c, s, Collect), k)
    {
      assert Balanced(s, k);
      CollectMovesOne(s.results, s.pending, k);
    }
  }

  lemma SendKeepsData(c: Config, s: State, fault: bool)
    requires Inv(c, s) && Data(c, s) && Enabled(c, s, SendNext(fault))
    ensures Data(c, Apply(c, s, SendNext(fault)))
  {
    hide Stops, Shape, Channels, WorkerCopies, JobCopies, ResultCopies;
    var t := Apply(c, s, SendNext(fault));
    assert Balanced(s, s.next);
    assert Good(c, s.next, s.pending[s.next]);
    assert fault ==> Trouble(t);
    assert !fault ==> Trouble(s) == Trouble(t);
    hide TroubleIn, Good;
    forall k: nat
      ensures Balanced(t, k)
    {
      assert Balanced(s, k);
    }
  }

  /** When the feeder learns of the end of delivery after closing `jobs`, everything has been sent. */
  lemma AllSent(c: Config, s: State)
    requires Inv(c, s) && Data(c, s) && s.feeder.Waiting? && s.netErr != [] && s.netErr[0]
    ensures s.pending == map[] && s.next >= |c.chunks|
  {
    SomeExited(c, s);
    assert !Trouble(s);
    hide Payloads, InOrder;
    forall k: nat
      ensures Copies(s.jobs, s.workers, s.results, s.pending, k) == (if k in s.pending then 1 else 0)
    {
      ExitedHoldNothing(s.workers, k);
    }
    assert Balanced(s, s.next);
    assert forall k | k in s.pending :: !Balanced(s, k);
  }

  lemma TakeKeepsData(c: Config, s: State)
    requires Inv(c, s) && Data(c, s) && Enabled(c, s, TakeResult)
    ensures Data(c, Apply(c, s, TakeResult))
  {
    if s.feeder.Waiting? && s.netErr[0] {
      AllSent(c, s);
    }
    hide Payloads, InOrder, Copies, TroubleIn;
    var t := Apply(c, s, TakeResult);
    forall k: nat
      ensures Balanced(t, k)
    {
      assert Balanced(s, k);
    }
  }

  /** Steps that only move a program point or set a flag. */
  lemma CloseKeepsData(c: Config, s: State)
    requires Inv(c, s) && Data(c, s) && Enabled(c, s, CloseJobs)
    ensures Data(c, Apply(c, s, CloseJobs))
  {
    hide Payloads, InOrder, Copies, TroubleIn;
    var t := Apply(c, s, CloseJobs);
    forall k: nat
      ensures Balanced(t, k)
    {
      assert Balanced(s, k);
    }
  }

  lemma FinishKeepsData(c: Config, s: State, fault: bool)
    requires Inv(c, s) && Data(c, s) && Enabled(c, s, SendEnd(fault))
    ensures Data(c, Apply(c, s, SendEnd(fault)))
  {
    hide Payloads, Copies, TroubleIn, Good;
    var t := Apply(c, s, SendEnd(fault));
    forall k: nat
      ensures Balanced(t, k)
    {
      assert Balanced(s, k);
    }
  }

  ghost predicate SameLoad(s: State, t: State) {
    && s.idx == t.idx && s.jobs == t.jobs && s.workers == t.workers && s.results == t.results
    && s.pending == t.pending && s.next == t.next && s.wire == t.wire && s.ended == t.ended
  }

  lemma ControlKeepsData(c: Config, s: State, t: State)
    requires Data(c, s) && SameLoad(s, t)
    requires HandingGood(c, t.feeder, t.idx) && Positions(c, t)
    requires Trouble(s) ==> Trouble(t)
    ensures Data(c, t)
  {
    hide Payloads, InOrder, Copies, TroubleIn, Positions, HandingGood;
    forall k: nat
      ensures Balanced(t, k)
    {
      assert Balanced(s, k);
    }
  }

  lemma FeederControlKeepsData(c: Config, s: State, step: Step)
    requires Inv(c, s) && Data(c, s) && Enabled(c, s, step)
    requires step.Cancel? || step.SeeCancel? || step.StopWorkers? || step.CloseStream?
    ensures Data(c, Apply(c, s, step))
  {
    hide Payloads, InOrder, AllBalanced, Stops, Shape, AllExited;
    ControlKeepsData(c, s, Apply(c, s, step));
  }

  lemma DeliveryControlKeepsData(c: Config, s: State, step: Step)
    requires Inv(c, s) && Data(c, s) && Enabled(c, s, step)
    requires step.CloseResults? || step.CollectEnd? || step.Gap? || step.GiveUp? || step.Report?
    ensures Data(c, Apply(c, s, step))
  {
    hide Payloads, InOrder, AllBalanced, Stops, Shape, AllExited;
    ControlKeepsData(c, s, Apply(c, s, step));
  }

  lemma StepKeepsData(c: Config, s: State, step: Step)
    requires Inv(c, s) && Data(c, s) && Enabled(c, s, step)
    ensures Data(c, Apply(c, s, step))
  {
    hide Inv, Data, Enabled, Apply;
    match step
    case Read(fault) => ReadKeepsData(c, s, fault);
    case HandOver => HandOverKeepsData(c, s);
    case TakeResult => TakeKeepsData(c, s);
    case CloseJobs => CloseKeepsData(c, s);
    case SendEnd(fault) => FinishKeepsData(c, s, fault);
    case Receive(w) => ReceiveKeepsData(c, s, w);
    case Quit(w) => LeaveKeepsData(c, s, w, step);
    case Process(w, fault, nonce) => ProcessKeepsData(c, s, w, fault, nonce);
    case Offer(w) => OfferKeepsData(c, s, w);
    case Abandon(w) => LeaveKeepsData(c, s, w, step);
    case Collect => CollectKeepsData(c, s);
    case SendNext(fault) => SendKeepsData(c, s, fault);
    case Cancel => FeederControlKeepsData(c, s, step);
    case SeeCancel => FeederControlKeepsData(c, s, step);
    case StopWorkers => FeederControlKeepsData(c, s, step);
    case CloseStream(_) => FeederControlKeepsData(c, s, step);
    case _ => DeliveryControlKeepsData(c, s, step);
  }

  lemma {:induction false} ReachesData(c: Config, s: State, steps: seq<Step>, t: State)
    requires Inv(c, s) && Data(c, s) && Reaches(c, s, steps, t)
    ensures Inv(c, t) && Data(c, t)
    decreases |steps|
  {
    if steps != [] {
      StepKeepsInv(c, s, steps[0]);
      StepKeepsData(c, s, steps[0]);
      hide Inv, Data, Enabled, Apply;
      ReachesData(c, Apply(c, s, steps[0]), steps[1..], t);
    }
  }

  // ---------------------------------------------------------------------------------------------
  // Main results
  // ---------------------------------------------------------------------------------------------

  /** The stream is `start`, then the first `count` chunks from the resume index on, then `end` if `ended`. */
  ghost predicate StreamIs(c: Config, wire: seq<Packet>, count: nat, ended: bool) {
    && |wire| == 1 + count + (if ended then 1 else 0)
    && wire[0] == c.start
    && (forall i | 1 <= i <= count :: Good(c, c.resumeIndex + i - 1, wire[i]))
    && (ended ==> wire[|wire| - 1] == End)
  }

  /** How many chunks a complete transfer sends: none when the resume index is past the last one. */
  function ToSend(c: Config): nat {
    if c.resumeIndex <= |c.chunks| then |c.chunks| - c.resumeIndex else 0
  }

  /** At every moment of every run the stream holds the chunks in order, each once; `end` only after all of them. */
  lemma StreamAlways(c: Config, steps: seq<Step>, s: State)
    requires Reaches(c, Init(c), steps, s)
    ensures exists count: nat :: count <= ToSend(c) && StreamIs(c, s.wire, count, s.ended)
                                 && (s.ended ==> count == ToSend(c))
  {
    InitInv(c);
    InitData(c);
    ReachesData(c, Init(c), steps, s);
    hide Payloads, Good, Stops, Copies;
    var count := s.next - c.resumeIndex;
    assert Balanced(s, s.next) && (count > 0 ==> s.next <= s.idx);
    EndedIsComplete(c, s);
    assert StreamIs(c, s.wire, count, s.ended);
  }

  lemma EndedIsComplete(c: Config, s: State)
    requires Inv(c, s) && Data(c, s)
    ensures s.ended ==> s.next - c.resumeIndex == ToSend(c)
    ensures Succeeding(s.feeder) ==> s.next - c.resumeIndex == ToSend(c)
  {
  }

  /** A nil return means that `start`, every chunk from the resume index on and `end` are on the stream. */
  lemma NilMeansComplete(c: Config, steps: seq<Step>, s: State)
    requires Reaches(c, Init(c), steps, s) && s.feeder == Returned(true)
    ensures s.ended && StreamIs(c, s.wire, ToSend(c), true)
    ensures s.pending == map[]
  {
    InitInv(c);
    InitData(c);
    ReachesData(c, Init(c), steps, s);
    EndedIsComplete(c, s);
  }

  // ---------------------------------------------------------------------------------------------
  // Without a failure the sender returns nil
  // ---------------------------------------------------------------------------------------------

  predicate Aborting(f: Feeder) {
    f.AbortClose? || f.AbortStop? || f.AbortWait? || f.EarlyClose? || f == Returned(false)
  }

  /**
   The step is a failure: of a read, of storing or sealing a chunk (also for want of a usable key), of a write or of
   the final close; or it gives way to a cancellation.
   */
  predicate Fails(c: Config, step: Step) {
    match step
    case Read(fault) => fault
    case SeeCancel => true
    case Process(_, fault, _) => (fault && (c.hasEngine || |c.key| > 0)) || |c.key| !in {0, 32}
    case SendNext(fault) => fault
    case SendEnd(fault) => fault
    case CloseStream(fault) => fault
    case _ => false
  }

  /** A failure is on its way to the caller, or has reached it. */
  predicate Doomed(s: State) {
    || Aborting(s.feeder) || s.delivery.Failing? || DeliveryFailed(s.delivery)
    || Failed in s.results || Offering(Failed) in s.workers
  }

  predicate Untroubled(s: State) {
    !Doomed(s)
  }

  lemma UntroubledWorker(c: Config, s: State, w: nat, step: Step)
    requires Inv(c, s) && Untroubled(s) && Enabled(c, s, step)
    requires step == Receive(w) || step == Quit(w) || step == Offer(w) || step == Abandon(w)
    ensures Untroubled(Apply(c, s, step))
  {
    WorkerSwap(s.workers, w, Apply(c, s, step).workers[w]);
  }

  lemma UntroubledProcess(c: Config, s: State, w: nat, fault: bool, nonce: Bytes)
    requires Inv(c, s) && Untroubled(s) && Enabled(c, s, Process(w, fault, nonce))
    requires !Fails(c, Process(w, fault, nonce))
    ensures Untroubled(Apply(c, s, Process(w, fault, nonce)))
  {
    hide Inv;
    var r := MakeResult(c, s.workers[w].job, fault, nonce);
    assert r.Delivered?;
    hide MakeResult;
    WorkerSwap(s.workers, w, Offering(r));
  }

  lemma UntroubledTake(c: Config, s: State)
    requires Inv(c, s) && Untroubled(s) && Enabled(c, s, TakeResult)
    ensures Untroubled(Apply(c, s, TakeResult))
  {
  }

  lemma UntroubledElse(c: Config, s: State, step: Step)
    requires Untroubled(s) && Enabled(c, s, step) && !Fails(c, step)
    requires !step.Receive? && !step.Quit? && !step.Process? && !step.Offer? && !step.Abandon? && !step.TakeResult?
    ensures Untroubled(Apply(c, s, step))
  {
    if step.Collect? {
      assert s.results == [s.results[0]] + s.results[1..];
    }
  }

  lemma UntroubledStep(c: Config, s: State, step: Step)
    requires Inv(c, s) && Untroubled(s) && Enabled(c, s, step) && !Fails(c, step)
    ensures Untroubled(Apply(c, s, step))
  {
    hide Inv, Untroubled, Enabled, Apply, Fails;
    match step
    case TakeResult => UntroubledTake(c, s);
    case Receive(w) => UntroubledWorker(c, s, w, step);
    case Quit(w) => UntroubledWorker(c, s, w, step);
    case Offer(w) => UntroubledWorker(c, s, w, step);
    case Abandon(w) => UntroubledWorker(c, s, w, step);
    case Process(w, fault, nonce) => UntroubledProcess(c, s, w, fault, nonce);
    case _ => UntroubledElse(c, s, step);
  }

  lemma {:induction false} UntroubledRun(c: Config, s: State, steps: seq<Step>, t: State)
    requires Inv(c, s) && Untroubled(s) && Reaches(c, s, steps, t)
    requires forall i | 0 <= i < |steps| :: !Fails(c, steps[i])
    ensures Untroubled(t)
    decreases |steps|
  {
    if steps != [] {
      StepKeepsInv(c, s, steps[0]);
      UntroubledStep(c, s, steps[0]);
      hide Inv, Untroubled, Enabled, Apply, Fails;
      UntroubledRun(c, Apply(c, s, steps[0]), steps[1..], t);
    }
  }

  // ---------------------------------------------------------------------------------------------
  // After a failure the sender does not return nil
  // ---------------------------------------------------------------------------------------------

  lemma DoomedWorker(c: Config, s: State, w: nat, step: Step)
    requires Inv(c, s) && Doomed(s) && Enabled(c, s, step)
    requires step == Receive(w) || step == Quit(w) || step == Offer(w) || step == Abandon(w)
          || (step.Process? && step.w == w)
    ensures Doomed(Apply(c, s, step))
  {
    WorkerSwap(s.workers, w, Apply(c, s, step).workers[w]);
    hide MakeResult;
    if step.Offer? {
      assert s.workers[w].result in s.results + [s.workers[w].result];
    }
  }

  lemma FailedChunk(c: Config, s: State, step: Step)
    requires Enabled(c, s, step) && step.Process? && Fails(c, step)
    ensures Doomed(Apply(c, s, step))
  {
    assert MakeResult(c, s.workers[step.w].job, step.fault, step.nonce) == Failed;
    var after := Apply(c, s, step).workers;
    assert after[step.w] == Offering(Failed);
  }

  lemma DoomedElse(c: Config, s: State, step: Step)
    requires Inv(c, s) && (Doomed(s) || Fails(c, step)) && Enabled(c, s, step)
    requires !step.Receive? && !step.Quit? && !step.Process? && !step.Offer? && !step.Abandon? && !step.TakeResult?
    requires !step.Collect?
    ensures Doomed(Apply(c, s, step))
  {
  }

  lemma DoomedTake(c: Config, s: State)
    requires Inv(c, s) && Doomed(s) && Enabled(c, s, TakeResult)
    ensures Doomed(Apply(c, s, TakeResult))
  {
  }

  lemma DoomedCollect(c: Config, s: State)
    requires Inv(c, s) && Doomed(s) && Enabled(c, s, Collect)
    ensures Doomed(Apply(c, s, Collect))
  {
    assert s.results == [s.results[0]] + s.results[1..];
    hide Arrived;
  }

  lemma DoomedStep(c: Config, s: State, step: Step)
    requires Inv(c, s) && (Doomed(s) || Fails(c, step)) && Enabled(c, s, step)
    ensures Doomed(Apply(c, s, step))
  {
    hide Inv, Doomed, Enabled, Apply;
    match step
    case TakeResult => DoomedTake(c, s);
    case Collect => DoomedCollect(c, s);
    case Receive(w) => DoomedWorker(c, s, w, step);
    case Quit(w) => DoomedWorker(c, s, w, step);
    case Offer(w) => DoomedWorker(c, s, w, step);
    case Abandon(w) => DoomedWorker(c, s, w, step);
    case Process(w, _, _) =>
      if Fails(c, step) {
        FailedChunk(c, s, step);
      } else {
        DoomedWorker(c, s, w, step);
      }
    case _ => DoomedElse(c, s, step);
  }

  lemma {:induction false} DoomedRun(c: Config, s: State, steps: seq<Step>, t: State)
    requires Inv(c, s) && Reaches(c, s, steps, t)
    requires Doomed(s) || exists i :: 0 <= i < |steps| && Fails(c, steps[i])
    ensures Inv(c, t) && Doomed(t)
    decreases |steps|
  {
    if steps != [] {
      StepKeepsInv(c, s, steps[0]);
      if Doomed(s) || Fails(c, steps[0]) {
        DoomedStep(c, s, steps[0]);
      } else {
        var i :| 0 <= i < |steps| && Fails(c, steps[i]);
        assert steps[1..][i - 1] == steps[i];
      }
      hide Inv, Doomed, Enabled, Apply, Fails;
      DoomedRun(c, Apply(c, s, steps[0]), steps[1..], t);
    }
  }

  /**
   A run that cannot be continued by a goroutine has returned nil, with the complete stream written, if and only if
   nothing failed in any goroutine and no cancellation was given way to.
   */
  lemma NilIffNothingFailed(c: Config, steps: seq<Step>, s: State)
    requires Reaches(c, Init(c), steps, s) && !CanStep(c, s)
    ensures s.feeder == Returned(true) <==> forall i | 0 <= i < |steps| :: !Fails(c, steps[i])
    ensures s.feeder == Returned(true) ==> StreamIs(c, s.wire, ToSend(c), true)
  {
    InitInv(c);
    AllRunsEnd(c, steps, s);
    if exists i :: 0 <= i < |steps| && Fails(c, steps[i]) {
      DoomedRun(c, Init(c), steps, s);
    } else {
      UntroubledRun(c, Init(c), steps, s);
    }
    if s.feeder == Returned(true) {
      NilMeansComplete(c, steps, s);
    }
  }

  /** A return value of nil rules out a failure, also while other goroutines are still at work. */
  lemma NilMeansNoFailure(c: Config, steps: seq<Step>, s: State)
    requires Reaches(c, Init(c), steps, s) && s.feeder == Returned(true)
    ensures forall i | 0 <= i < |steps| :: !Fails(c, steps[i])
  {
    InitInv(c);
    if i :| 0 <= i < |steps| && Fails(c, steps[i]) {
      DoomedRun(c, Init(c), steps, s);
    }
  }

  /** A step in which no call fails and nothing is cancelled from outside. */
  predicate Smooth(step: Step) {
    match step
    case Cancel => false
    case Read(fault) => !fault
    case SendEnd(fault) => !fault
    case CloseStream(fault) => !fault
    case Process(_, fault, _) => !fault
    case SendNext(fault) => !fault
    case _ => true
  }

  lemma OnlyCancelCancels(c: Config, s: State, step: Step)
    requires !s.cancelled && Enabled(c, s, step) && Smooth(step)
    ensures !Apply(c, s, step).cancelled && step != SeeCancel
  {
    hide MakeResult, Arrived, AllExited, Config.P, Config.Capacity;
    match step
    case Read(_) =>
    case HandOver =>
    case TakeResult =>
    case CloseJobs =>
    case SendEnd(_) =>
    case Offer(_) =>
    case Collect =>
    case SendNext(_) =>
    case _ =>
  }

  lemma {:induction false} NeverCancelled(c: Config, s: State, steps: seq<Step>, t: State, i: nat)
    requires !s.cancelled && Reaches(c, s, steps, t) && forall j | 0 <= j < |steps| :: Smooth(steps[j])
    requires i < |steps|
    ensures steps[i] != SeeCancel
    decreases |steps|
  {
    OnlyCancelCancels(c, s, steps[0]);
    hide Apply, Enabled, Smooth;
    if i > 0 {
      NeverCancelled(c, Apply(c, s, steps[0]), steps[1..], t, i - 1);
    }
  }

  /**
   When no call fails, nothing is cancelled and the key is usable, every run that cannot be continued by a
   goroutine has returned nil with the complete stream written.
   */
  lemma SmoothRunsSucceed(c: Config, steps: seq<Step>, s: State)
    requires Reaches(c, Init(c), steps, s) && !CanStep(c, s)
    requires forall i | 0 <= i < |steps| :: Smooth(steps[i])
    requires |c.key| in {0, SPACE_KEY_SIZE}
    ensures s.feeder == Returned(true) && StreamIs(c, s.wire, ToSend(c), true)
  {
    forall i | 0 <= i < |steps|
      ensures !Fails(c, steps[i])
    {
      NeverCancelled(c, Init(c), steps, s, i);
    }
    hide Reaches, CanStep, Fails, Smooth;
    NilIffNothingFailed(c, steps, s);
  }
}

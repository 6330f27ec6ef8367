/**
 The parallel sender, SendFileWithOptions of apps/backend/internal/network/transport.go (SendFileOverConn runs
 the same machine): the feeder (the calling goroutine), P workers, the closer and the delivery goroutine, as an
 interleaving transition system over two bounded channels, a one-slot result channel and a stop signal.
 */
module Sender {
  import opened Hasher
  import opened Chunker
  import opened Wire

  datatype Config = Config(
    parallelism: int,
    start: Packet,
    chunks: seq<Chunk>,  // what repeated Next yields
    resumeIndex: nat,
    hasEngine: bool,     // workers also store chunks locally
    key: Bytes,
    cipher: Cipher)
  {
    function P(): (p: nat)
      ensures p >= 1
    {
      if parallelism < 1 then 1 else parallelism
    }

    function Capacity(): nat { 2 * P() }
  }

  datatype Job = Job(index: nat, chunk: Chunk)

  datatype Result = Delivered(index: nat, packet: Packet) | Failed

  datatype Worker = Idle | Working(job: Job) | Offering(result: Result) | Exited

  // Program points of the calling goroutine. The Abort points follow a read error or a cancellation.
  datatype Feeder =
    | Reading                 // about to call Next
    | Handing(job: Job)       // in the select
    | AbortClose | AbortStop | AbortWait
    | EarlyClose(ok: bool)    // got a delivery result inside the select
    | Closing | Waiting | Stopping | Ending | ClosingStream
    | Returned(ok: bool)      // ok: returned nil

  datatype Delivery = Ranging | Flushing | Failing | Reporting(ok: bool) | Gone(ok: bool)

  datatype State = State(
    idx: nat,
    feeder: Feeder,
    cancelled: bool,
    jobs: seq<Job>, jobsClosed: bool,
    workers: seq<Worker>,
    results: seq<Result>, resultsClosed: bool,
    stopped: bool,
    delivery: Delivery, next: nat, pending: map<nat, Packet>,
    netErr: seq<bool>,
    wire: seq<Packet>, ended: bool,
    panicked: bool)           // a send on, or a second close of, a closed channel

  function Init(c: Config): State {
    State(0, Reading, false, [], false, seq(c.P(), _ => Idle), [], false, false,
          Ranging, c.resumeIndex, map[], [], [c.start], false, false)
  }

  // One label per atomic action. `fault` resolves the outcome of the blocking call made in it: reading the
  // source, storing or encrypting a chunk, writing to the stream, closing it.
  datatype Step =
    | Cancel                                   // the context is cancelled, from outside
    // the feeder
    | Read(fault: bool)                        // chunker.Next
    | HandOver                                 // jobs <- job
    | SeeCancel                                // <-ctx.Done()
    | TakeResult                               // <-netErrCh
    | CloseJobs
    | StopWorkers
    | SendEnd(fault: bool)
    | CloseStream(fault: bool)
    // worker w
    | Receive(w: nat)
    | Quit(w: nat)                             // jobs is closed and empty
    | Process(w: nat, fault: bool, nonce: Bytes)
    | Offer(w: nat)                            // results <- result
    | Abandon(w: nat)                          // <-stopped
    // the closer
    | CloseResults
    // the delivery goroutine
    | Collect                                  // <-results
    | CollectEnd                               // results is closed and empty
    | SendNext(fault: bool)
    | Gap                                      // chunk `next` has not arrived yet
    | GiveUp                                   // stopWorkers after a failure
    | Report                                   // netErrCh <- result

  predicate WorkerAt(s: State, w: nat) {
    w < |s.workers|
  }

  predicate Enabled(c: Config, s: State, step: Step) {
    match step
    case Cancel => !s.cancelled
    case Read(_) => s.feeder.Reading?
    case HandOver => s.feeder.Handing? && (s.jobsClosed || |s.jobs| < c.Capacity())
    case SeeCancel => s.feeder.Handing? && s.cancelled
    case TakeResult => (s.feeder.Handing? || s.feeder.AbortWait? || s.feeder.Waiting?) && s.netErr != []
    case CloseJobs => s.feeder.AbortClose? || s.feeder.EarlyClose? || s.feeder.Closing?
    case StopWorkers => s.feeder.AbortStop? || s.feeder.Stopping?
    case SendEnd(_) => s.feeder.Ending?
    case CloseStream(_) => s.feeder.ClosingStream?
    case Receive(w) => WorkerAt(s, w) && s.workers[w].Idle? && s.jobs != []
    case Quit(w) => WorkerAt(s, w) && s.workers[w].Idle? && s.jobs == [] && s.jobsClosed
    case Process(w, _, _) => WorkerAt(s, w) && s.workers[w].Working?
    case Offer(w) => WorkerAt(s, w) && s.workers[w].Offering? && (s.resultsClosed || |s.results| < c.Capacity())
    case Abandon(w) => WorkerAt(s, w) && s.workers[w].Offering? && s.stopped
    case CloseResults => !s.resultsClosed && AllExited(s.workers)
    case Collect => s.delivery.Ranging? && s.results != []
    case CollectEnd => s.delivery.Ranging? && s.results == [] && s.resultsClosed
    case SendNext(_) => s.delivery.Flushing? && s.next in s.pending
    case Gap => s.delivery.Flushing? && s.next !in s.pending
    case GiveUp => s.delivery.Failing?
    case Report => s.delivery.Reporting? && |s.netErr| < 1
  }

  predicate AllExited(workers: seq<Worker>) {
    forall w | 0 <= w < |workers| :: workers[w].Exited?
  }

  /** What a worker makes of a job. */
  function MakeResult(c: Config, job: Job, fault: bool, nonce: Bytes): Result {
    if fault && (c.hasEngine || |c.key| > 0) then Failed
    else match c.cipher.Protect(c.key, nonce, job.chunk.data)
      case None => Failed
      case Some(data) => Delivered(job.index, ChunkPacket(job.chunk.hash, data, job.chunk.size, job.index))
  }

  /** The reorder map after a result was received; a failure leaves it alone. */
  function Arrived(pending: map<nat, Packet>, r: Result): map<nat, Packet> {
    if r.Failed? then pending else pending[r.index := r.packet]
  }

  function Apply(c: Config, s: State, step: Step): State
    requires Enabled(c, s, step)
  {
    match step
    case Cancel => s.(cancelled := true)
    case Read(fault) =>
      // chunks the receiver already has are read and passed over
      var skip := !fault && s.idx < |c.chunks| && s.idx < c.resumeIndex;
      s.(idx := if skip then s.idx + 1 else s.idx,
         feeder := if skip then Reading
                   else if fault then AbortClose
                   else if s.idx >= |c.chunks| then Closing
                   else Handing(Job(s.idx, c.chunks[s.idx])))
    case HandOver =>
      if s.jobsClosed then s.(panicked := true)
      else s.(jobs := s.jobs + [s.feeder.job], idx := s.idx + 1, feeder := Reading)
    case SeeCancel => s.(feeder := AbortClose)
    case TakeResult =>
      s.(netErr := s.netErr[1..],
         feeder := if s.feeder.Handing? then EarlyClose(s.netErr[0])
                   else if s.feeder.Waiting? && s.netErr[0] then Stopping
                   else Returned(false))
    case CloseJobs =>
      if s.jobsClosed then s.(panicked := true)
      else s.(jobsClosed := true,
              feeder := if s.feeder.AbortClose? then AbortStop
                        else if s.feeder.Closing? then Waiting
                        else Returned(s.feeder.ok))
    case StopWorkers => s.(stopped := true, feeder := if s.feeder.AbortStop? then AbortWait else Ending)
    case SendEnd(fault) =>
      if fault then s.(feeder := Returned(false))
      else s.(wire := s.wire + [End], ended := true, feeder := ClosingStream)
    case CloseStream(fault) => s.(feeder := Returned(!fault))
    case Receive(w) => s.(workers := s.workers[w := Working(s.jobs[0])], jobs := s.jobs[1..])
    case Quit(w) => s.(workers := s.workers[w := Exited])
    case Process(w, fault, nonce) =>
      s.(workers := s.workers[w := Offering(MakeResult(c, s.workers[w].job, fault, nonce))])
    case Offer(w) =>
      if s.resultsClosed then s.(panicked := true)
      else s.(results := s.results + [s.workers[w].result],
              workers := s.workers[w := if s.workers[w].result.Failed? then Exited else Idle])
    case Abandon(w) => s.(workers := s.workers[w := Exited])
    case CloseResults => s.(resultsClosed := true)
    case Collect =>
      s.(results := s.results[1..],
         delivery := if s.results[0].Failed? then Failing else Flushing,
         pending := Arrived(s.pending, s.results[0]))
    case CollectEnd => s.(delivery := Reporting(true))
    case SendNext(fault) =>
      if fault then s.(delivery := Failing)
      else s.(wire := s.wire + [s.pending[s.next]], pending := s.pending - {s.next}, next := s.next + 1)
    case Gap => s.(delivery := Ranging)
    case GiveUp => s.(stopped := true, delivery := Reporting(false))
    case Report => s.(netErr := s.netErr + [s.delivery.ok], delivery := Gone(s.delivery.ok))
  }

  /** The steps lead from `s` to `t`. */
  predicate Reaches(c: Config, s: State, steps: seq<Step>, t: State)
    decreases |steps|
  {
    if steps == [] then s == t
    else Enabled(c, s, steps[0]) && Reaches(c, Apply(c, s, steps[0]), steps[1..], t)
  }

  /** Every goroutine has returned. */
  predicate Finished(s: State) {
    s.feeder.Returned? && AllExited(s.workers) && s.resultsClosed && s.delivery.Gone?
  }
}

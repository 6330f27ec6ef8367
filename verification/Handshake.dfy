/**
 The opening of a session, apps/backend/internal/network/transport.go: the sender writes `start` and, if it resumes,
 waits for the reply; the receiver takes what arrives. Two parties and the two directions of the stream between them.
 */
module Handshake {
  import opened Wire
  import opened Receiver
  import opened Resume

  datatype Setting = Setting(o: Options, senderResumes: bool, d: Dir, start: Packet)

  datatype Sender = Opening | Awaiting | Proceeding(resumeIndex: int) | Refused

  // `read` counts the replies the sender has taken; the connection is closed when the receiver has returned.
  datatype State = State(sender: Sender, inbound: seq<Packet>, receiver: RState, returned: bool, read: nat)

  datatype Step =
    | WriteStart(fault: bool)
    | Take(f: Faults)          // the receiver decodes and processes a packet
    | ReadReply                // the sender decodes a packet, or fails on the closed connection

  function Init(h: Setting): State {
    State(Opening, [], Fresh(h.d.files, h.d.sidecars), false, 0)
  }

  predicate Enabled(s: State, step: Step) {
    match step
    case WriteStart(_) => s.sender.Opening?
    case Take(_) => !s.returned && s.inbound != []
    case ReadReply => s.sender.Awaiting? && (s.read < |s.receiver.replies| || s.returned)
  }

  /** What the sender makes of a reply. */
  function OnReply(p: Packet): Sender {
    match p
    case Resume(i) => Proceeding(if i > 0 then i else 0)
    case _ => Refused
  }

  function Apply(h: Setting, s: State, step: Step): State
    requires Enabled(s, step)
  {
    match step
    case WriteStart(fault) =>
      if fault then s.(sender := Refused)
      else s.(sender := if h.senderResumes then Awaiting else Proceeding(0), inbound := s.inbound + [h.start])
    case Take(f) =>
      var (r, outcome) := Process(h.o, s.receiver, s.inbound[0], f);
      s.(inbound := s.inbound[1..], receiver := r, returned := outcome != Continue)
    case ReadReply =>
      if s.read < |s.receiver.replies| then s.(sender := OnReply(s.receiver.replies[s.read]), read := s.read + 1)
      else s.(sender := Refused)
  }

  ghost predicate Reaches(h: Setting, s: State, steps: seq<Step>, s': State)
    decreases |steps|
  {
    if steps == [] then s == s'
    else Enabled(s, steps[0]) && Reaches(h, Apply(h, s, steps[0]), steps[1..], s')
  }

  /** Neither party can go on by itself. */
  ghost predicate Quiescent(s: State) {
    forall step :: !Enabled(s, step)
  }

  predicate Faultless(step: Step) {
    match step
    case WriteStart(fault) => !fault
    case Take(f) => f == SMOOTH
    case ReadReply => true
  }

  ghost predicate AllFaultless(steps: seq<Step>) {
    forall i | 0 <= i < |steps| :: Faultless(steps[i])
  }

  /** Where the sender starts. */
  function ResumeFrom(senderResumes: bool, recorded: int): nat {
    if senderResumes && recorded > 0 then recorded else 0
  }

  function RecordedFor(h: Setting): int
    requires h.start.Start?
  {
    Recorded(h.o, h.d.sidecars, Base(h.start.fileName), h.start.fileSize, h.start.fileMTime)
  }

  // ---------------------------------------------------------------------------------------------
  // Every run
  // ---------------------------------------------------------------------------------------------

  /** The receiver has processed `start`. */
  ghost predicate Taken(h: Setting, s: State, f: Faults) {
    && s.inbound == []
    && var (r, outcome) := Process(h.o, Fresh(h.d.files, h.d.sidecars), h.start, f);
       s.receiver == r && (s.returned <==> outcome != Continue)
  }

  ghost predicate StartOnItsWay(h: Setting, s: State) {
    s.inbound == [h.start] && !s.returned && s.receiver == Fresh(h.d.files, h.d.sidecars)
  }

  /** `smooth`: no step so far had a fault. */
  ghost predicate Inv(h: Setting, s: State, smooth: bool)
    requires h.start.Start?
  {
    && (s.sender.Opening? ==> s == Init(h))
    && (s.sender.Awaiting? ==>
          && h.senderResumes && s.read == 0
          && (StartOnItsWay(h, s) || exists f :: Taken(h, s, f) && (smooth ==> f == SMOOTH)))
    && (s.sender.Proceeding? ==>
          && s.sender.resumeIndex == ResumeFrom(h.senderResumes, RecordedFor(h))
          && (h.senderResumes ==> h.o.resume))
    && (s.sender.Refused? ==> !smooth)
    && |s.inbound| <= 1
  }

  lemma StartReply(h: Setting, f: Faults)
    requires h.start.Start?
    ensures var (r, outcome) := Process(h.o, Fresh(h.d.files, h.d.sidecars), h.start, f);
            && (r.replies == [] || (h.o.resume && r.replies == [Resume(RecordedFor(h))]))
            && (outcome == Continue && h.o.resume ==> r.replies != [])
            && (f == SMOOTH ==> outcome == Continue)
  {
  }

  lemma StepKeepsInv(h: Setting, s: State, step: Step, smooth: bool)
    requires h.start.Start? && Inv(h, s, smooth) && Enabled(s, step) && (smooth ==> Faultless(step))
    ensures Inv(h, Apply(h, s, step), smooth)
  {
    hide Process, Recorded, Base;
    match step
    case WriteStart(_) =>
    case Take(f) =>
      if s.sender.Awaiting? {
        assert StartOnItsWay(h, s);
        assert Taken(h, Apply(h, s, step), f);
      }
    case ReadReply =>
      if !StartOnItsWay(h, s) {
        var f :| Taken(h, s, f) && (smooth ==> f == SMOOTH);
        StartReply(h, f);
      }
  }

  lemma {:induction false} RunKeepsInv(h: Setting, s: State, steps: seq<Step>, s': State, smooth: bool)
    requires h.start.Start? && Inv(h, s, smooth) && Reaches(h, s, steps, s') && (smooth ==> AllFaultless(steps))
    ensures Inv(h, s', smooth)
    decreases |steps|
  {
    hide Inv;
    if steps != [] {
      StepKeepsInv(h, s, steps[0], smooth);
      RunKeepsInv(h, Apply(h, s, steps[0]), steps[1..], s', smooth);
    }
  }

  /** How many steps are left at most. */
  function Work(s: State): nat {
    |s.inbound| + match s.sender
                  case Opening => 3
                  case Awaiting => 1
                  case _ => 0
  }

  lemma {:induction false} RunIsShort(h: Setting, s: State, steps: seq<Step>, s': State)
    requires Reaches(h, s, steps, s')
    ensures |steps| + Work(s') <= Work(s)
    decreases |steps|
  {
    if steps != [] {
      hide Process;
      assert Work(Apply(h, s, steps[0])) < Work(s);
      RunIsShort(h, Apply(h, s, steps[0]), steps[1..], s');
    }
  }

  /**
   Every run of the handshake has at most three steps. It can only come to a stand with the sender waiting, the
   receiver waiting too and nothing in flight, when the sender resumes and the receiver does not; without faults it
   then always does. In every other fault-free run the sender goes on, and whenever it goes on, it does so from the
   chunk the receiver has recorded.
   */
  lemma HandshakeStalls(h: Setting, steps: seq<Step>, s: State)
    requires h.start.Start? && Reaches(h, Init(h), steps, s)
    ensures |steps| <= 3
    ensures s.sender.Proceeding? ==> s.sender.resumeIndex == ResumeFrom(h.senderResumes, RecordedFor(h))
    ensures Quiescent(s) && s.sender.Awaiting? ==>
              !s.returned && s.inbound == [] && s.read == |s.receiver.replies| && h.senderResumes && !h.o.resume
    ensures Quiescent(s) && AllFaultless(steps) ==>
              && (s.sender.Awaiting? <==> h.senderResumes && !h.o.resume)
              && (s.sender.Proceeding? <==> !h.senderResumes || h.o.resume)
  {
    RunIsShort(h, Init(h), steps, s);
    RunKeepsInv(h, Init(h), steps, s, false);
    if AllFaultless(steps) {
      RunKeepsInv(h, Init(h), steps, s, true);
    }
    if Quiescent(s) {
      assert !Enabled(s, WriteStart(false)) && !Enabled(s, Take(SMOOTH)) && !Enabled(s, ReadReply);
      if s.sender.Awaiting? {
        var f :| Taken(h, s, f);
        StartReply(h, f);
      }
    }
  }
}

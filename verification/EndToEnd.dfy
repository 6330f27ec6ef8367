/**
 Sender and receiver together, over any number of sessions of one transfer: every session runs the parallel
 sender in some interleaving, and the receiver gets some prefix of what was written to the stream.
 */
module EndToEnd {
  import opened Hasher
  import opened Chunker
  import opened Wire
  import opened Sender
  import opened SenderControl
  import opened SenderData
  import opened Receiver
  import opened Resume
  import Handshake

  /**
   One session: its key and settings, how the sender ran, how many of its packets arrived, and what went wrong at
   the receiver.
   */
  datatype Session = Session(
    key: Bytes, parallelism: int, senderStores: bool, receiverStores: bool, senderResumes: bool,
    steps: seq<Step>, sent: State,
    arrived: nat, faults: seq<Faults>)

  /** The transfer under the key and the receiver settings of a session. */
  function On(t: Transfer, s: Session): Transfer {
    t.(o := t.o.(key := s.key, hasEngine := s.receiverStores))
  }

  /** What a directory says about a transfer does not depend on the session. */
  lemma SameRecord(t: Transfer, s: Session, d: Dir)
    ensures On(t, s).ResumeAt(d) == t.ResumeAt(d)
    ensures Accurate(On(t, s), d) <==> Accurate(t, d)
    ensures 0 <= t.ResumeAt(d) <= |t.cs| ==> Slack(On(t, s), d) == Slack(t, d)
  {
    assert 0 <= t.ResumeAt(d) <= |t.cs| ==> Slack(On(t, s), d) == Slack(t, d);
  }

  /** The resume index a sender takes from the receiver's reply to `start`; 0 when it does not ask for one. */
  function ResumeIndex(t: Transfer, d: Dir, s: Session): nat {
    Handshake.ResumeFrom(s.senderResumes, t.ResumeAt(d))
  }

  /** Every handshake after which the sender goes on gives it that index. */
  lemma HandshakeGivesIndex(t: Transfer, d: Dir, s: Session, steps: seq<Handshake.Step>, h: Handshake.State)
    requires Base(t.id.name) == t.id.name
    requires var setting := Handshake.Setting(On(t, s).o, s.senderResumes, d, t.StartPacket());
             Handshake.Reaches(setting, Handshake.Init(setting), steps, h)
    ensures h.sender.Proceeding? ==> h.sender.resumeIndex == ResumeIndex(t, d, s)
  {
    var setting := Handshake.Setting(On(t, s).o, s.senderResumes, d, t.StartPacket());
    Handshake.HandshakeStalls(setting, steps, h);
    assert Handshake.RecordedFor(setting) == t.ResumeAt(d);
  }

  function SenderConfig(t: Transfer, d: Dir, s: Session): Config {
    Config(s.parallelism, t.StartPacket(), t.cs, ResumeIndex(t, d, s), s.senderStores, s.key, t.o.cipher)
  }

  ghost predicate Possible(t: Transfer, d: Dir, s: Session) {
    var c := SenderConfig(t, d, s);
    && Reaches(c, Init(c), s.steps, s.sent)
    && s.arrived <= |s.sent.wire| && s.arrived <= |s.faults|
  }

  function After(t: Transfer, d: Dir, s: Session): (Dir, SessionEnd)
    requires s.arrived <= |s.sent.wire| && s.arrived <= |s.faults|
  {
    RunSession(On(t, s), d, s.sent.wire[..s.arrived], s.faults)
  }

  /** The transfer of `content`, to a receiver that resumes or does not. */
  ghost predicate TransferOf(t: Transfer, content: Bytes) {
    Base(t.id.name) == t.id.name && t.o.cipher.Inverts() && t.cs == Chunks(t.o.hash, content)
  }

  lemma TransferIsValid(t: Transfer, content: Bytes)
    requires TransferOf(t, content)
    ensures t.Valid() && Slice(t.cs, 0, |t.cs|) == content
  {
    ChunksAreHashed(t.o, content);
    AllChunksAreTheFile(t.o.hash, content);
  }

  /** A prefix of the sender's stream, without `start`, is a part of the stream as the receiver expects it. */
  lemma PrefixIsStreamPart(t: Transfer, c: Config, wire: seq<Packet>, count: nat, ended: bool, arrived: nat)
    requires c.cipher == t.o.cipher && c.key == t.o.key && c.chunks == t.cs && c.resumeIndex <= |t.cs|
    requires StreamIs(c, wire, count, ended) && (ended ==> count == ToSend(c)) && 1 <= arrived <= |wire|
    ensures StreamPart(t, c.resumeIndex, wire[1..arrived])
  {
    var rest := wire[1..arrived];
    hide Carries;
    forall i | 0 <= i < |rest|
      ensures Carries(t.o.cipher, t.o.key, t.cs, c.resumeIndex + i, rest[i])
           || (rest[i] == End && c.resumeIndex + i == |t.cs|)
    {
      assert rest[i] == wire[1 + i];
      if 1 + i <= count {
        assert Good(c, c.resumeIndex + (1 + i) - 1, wire[1 + i]);
      }
    }
  }

  /** What the sender's stream looks like to the receiver, in every interleaving and cut anywhere. */
  lemma StreamReachesReceiver(t: Transfer, d: Dir, s: Session)
    requires Possible(t, d, s) && 0 <= t.ResumeAt(d) <= |t.cs|
    ensures SessionStream(On(t, s), ResumeIndex(t, d, s), s.sent.wire[..s.arrived])
    ensures s.sent.feeder == Returned(true) ==> End in s.sent.wire
  {
    var c := SenderConfig(t, d, s);
    assert c.start == t.StartPacket() && c.resumeIndex == ResumeIndex(t, d, s) <= |t.cs|;
    hide Reaches, Recorded, StreamPart;
    StreamAlways(c, s.steps, s.sent);
    var count: nat :| count <= ToSend(c) && StreamIs(c, s.sent.wire, count, s.sent.ended)
                      && (s.sent.ended ==> count == ToSend(c));
    if s.arrived > 0 {
      PrefixIsStreamPart(On(t, s), c, s.sent.wire, count, s.sent.ended, s.arrived);
      assert s.sent.wire[..s.arrived][1..] == s.sent.wire[1..s.arrived];
    }
    if s.sent.feeder == Returned(true) {
      NilMeansComplete(c, s.steps, s.sent);
      assert s.sent.wire[|s.sent.wire| - 1] == End;
    }
  }

  /** The session leaves part of a chunk behind a readable record that does not count it. */
  ghost predicate Harmful(t: Transfer, d: Dir, s: Session) {
    Possible(t, d, s) && DoesHarm(On(t, s).o, Fresh(d.files, d.sidecars), s.sent.wire[..s.arrived], s.faults)
  }

  /** One session of the whole system. */
  lemma OneSession(t: Transfer, content: Bytes, d: Dir, s: Session)
    requires TransferOf(t, content) && Accurate(t, d) && Possible(t, d, s)
    ensures var (after, end) := After(t, d, s);
            && Accurate(t, after)
            && (end == SawEnd ==>
                  && t.id.name in after.files
                  && |after.files[t.id.name]| == |content| + Slack(t, d)
                  && (after.files[t.id.name] == content <==> Slack(t, d) == 0))
            && (Slack(t, after) > Slack(t, d) <==> Harmful(t, d, s))
            && (Slack(t, after) < Slack(t, d) ==> t.ResumeAt(after) == 0)
  {
    SameRecord(t, s, d);
    TransferIsValid(On(t, s), content);
    StreamReachesReceiver(t, d, s);
    SameRecord(t, s, After(t, d, s).0);
    hide Possible, RunSession, Slack, DoesHarm;
    SessionKeepsAccurate(On(t, s), d, ResumeIndex(t, d, s), s.sent.wire[..s.arrived], s.faults);
  }

  // ---------------------------------------------------------------------------------------------
  // Any number of sessions
  // ---------------------------------------------------------------------------------------------

  /** What happens in the output directory: a session of this transfer, or any session for other files. */
  datatype Event =
    | Ours(s: Session)
    | Others(o: Options, packets: seq<Packet>, faults: seq<Faults>)

  ghost predicate Happens(t: Transfer, d: Dir, e: Event, after: Dir) {
    match e
    case Ours(s) => Possible(t, d, s) && after == After(t, d, s).0
    case Others(o, packets, faults) =>
      && |faults| >= |packets| && NotFor(t.id.name, packets)
      && var r := Receiver.Receive(o, Fresh(d.files, d.sidecars), packets, faults).0;
         after == Dir(r.files, r.sidecars)
  }

  /** The directories `dirs` are the states between the events `es`. */
  ghost predicate History(t: Transfer, dirs: seq<Dir>, es: seq<Event>) {
    && |dirs| == |es| + 1
    && forall i | 0 <= i < |es| :: Happens(t, dirs[i], es[i], dirs[i + 1])
  }

  ghost predicate HarmfulEvent(t: Transfer, d: Dir, e: Event) {
    e.Ours? && Harmful(t, d, e.s)
  }

  lemma OneEvent(t: Transfer, content: Bytes, d: Dir, e: Event, after: Dir)
    requires TransferOf(t, content) && Accurate(t, d) && Happens(t, d, e, after)
    ensures Accurate(t, after)
    ensures Slack(t, after) > Slack(t, d) <==> HarmfulEvent(t, d, e)
    ensures Slack(t, after) < Slack(t, d) ==> t.ResumeAt(after) == 0
  {
    hide Harmful, Possible, Accurate, Slack, Transfer.ResumeAt, NotFor;
    match e
    case Ours(s) => OneSession(t, content, d, s);
    case Others(o, packets, faults) =>
      OthersKeepOut(t.id.name, o, Fresh(d.files, d.sidecars), packets, faults);
      SameAtIsEnough(t, d, after);
      SlackIsDefined(t, d);
  }

  lemma SlackIsDefined(t: Transfer, d: Dir)
    requires Accurate(t, d)
    ensures 0 <= t.ResumeAt(d) <= |t.cs| && Slack(t, d) >= 0
    ensures t.ResumeAt(d) == 0 ==> Slack(t, d) == 0
  {
  }

  lemma NoRecordIsAccurate(t: Transfer, d: Dir)
    requires t.ResumeAt(d) == 0
    ensures Accurate(t, d) && Slack(t, d) == 0
  {
  }

  lemma {:induction false} HistoryAccurate(t: Transfer, content: Bytes, dirs: seq<Dir>, es: seq<Event>, n: nat)
    requires TransferOf(t, content) && History(t, dirs, es) && Accurate(t, dirs[0]) && n <= |es|
    ensures Accurate(t, dirs[n])
    decreases n
  {
    if n > 0 {
      HistoryAccurate(t, content, dirs, es, n - 1);
      OneEvent(t, content, dirs[n - 1], es[n - 1], dirs[n]);
    }
  }

  /** Since a moment without a record for this file no session did harm. */
  ghost predicate CleanSince(t: Transfer, dirs: seq<Dir>, es: seq<Event>, m: nat, n: nat)
    requires |dirs| == |es| + 1 && m <= n <= |es|
  {
    t.ResumeAt(dirs[m]) == 0 && forall i | m <= i < n :: !HarmfulEvent(t, dirs[i], es[i])
  }

  ghost predicate Clean(t: Transfer, dirs: seq<Dir>, es: seq<Event>, n: nat)
    requires |dirs| == |es| + 1 && n <= |es|
  {
    exists m: nat :: m <= n && CleanSince(t, dirs, es, m, n)
  }

  lemma CleanStep(t: Transfer, dirs: seq<Dir>, es: seq<Event>, n: nat)
    requires |dirs| == |es| + 1 && n < |es|
    ensures Clean(t, dirs, es, n + 1) <==>
            t.ResumeAt(dirs[n + 1]) == 0 || (Clean(t, dirs, es, n) && !HarmfulEvent(t, dirs[n], es[n]))
  {
    hide HarmfulEvent, Transfer.ResumeAt;
    if Clean(t, dirs, es, n + 1) {
      var m: nat :| m <= n + 1 && CleanSince(t, dirs, es, m, n + 1);
      if m <= n {
        assert CleanSince(t, dirs, es, m, n);
      }
    }
    if t.ResumeAt(dirs[n + 1]) == 0 {
      assert CleanSince(t, dirs, es, n + 1, n + 1);
    }
    if !HarmfulEvent(t, dirs[n], es[n]) && Clean(t, dirs, es, n) {
      var m: nat :| m <= n && CleanSince(t, dirs, es, m, n);
      assert CleanSince(t, dirs, es, m, n + 1);
    }
  }

  /** The directory has no slack exactly when it is clean. */
  lemma {:induction false} NoSlackIffClean(t: Transfer, content: Bytes, dirs: seq<Dir>, es: seq<Event>, n: nat)
    requires TransferOf(t, content) && History(t, dirs, es) && t.ResumeAt(dirs[0]) == 0 && n <= |es|
    ensures Accurate(t, dirs[n])
    ensures Slack(t, dirs[n]) == 0 <==> Clean(t, dirs, es, n)
    decreases n
  {
    hide TransferOf, Happens, Accurate, Slack, HarmfulEvent, Transfer.ResumeAt;
    NoRecordIsAccurate(t, dirs[0]);
    HistoryAccurate(t, content, dirs, es, n);
    if n == 0 {
      assert CleanSince(t, dirs, es, 0, 0);
    } else {
      assert Happens(t, dirs[n - 1], es[n - 1], dirs[n]);
      hide CleanSince, Clean;
      NoSlackIffClean(t, content, dirs, es, n - 1);
      OneEvent(t, content, dirs[n - 1], es[n - 1], dirs[n]);
      CleanStep(t, dirs, es, n - 1);
      SlackIsDefined(t, dirs[n - 1]);
      SlackIsDefined(t, dirs[n]);
    }
  }

  /** Event `n` is a session of this transfer that processes `end`. */
  ghost predicate Completes(t: Transfer, dirs: seq<Dir>, es: seq<Event>, n: nat)
    requires History(t, dirs, es)
  {
    n < |es| && es[n].Ours? && Possible(t, dirs[n], es[n].s) && After(t, dirs[n], es[n].s).1 == SawEnd
  }

  /**
   End-to-end resume, with faults: start from a directory whose sidecar, if any, is accurate, for example one
   without a sidecar for this file. After any number of sessions, each with its own key and settings, any
   interleaving of any number of workers, cut at any packet and failing anywhere, and any sessions for other files
   in between, the session that processes `end` leaves exactly the content if and only if the directory had no slack
   before it; otherwise the file is longer by the slack.
   */
  lemma EventualContent(t: Transfer, content: Bytes, dirs: seq<Dir>, es: seq<Event>, n: nat)
    requires TransferOf(t, content) && History(t, dirs, es) && Accurate(t, dirs[0]) && Completes(t, dirs, es, n)
    ensures Accurate(t, dirs[n]) && t.id.name in dirs[n + 1].files
    ensures dirs[n + 1].files[t.id.name] == content <==> Slack(t, dirs[n]) == 0
    ensures |dirs[n + 1].files[t.id.name]| == |content| + Slack(t, dirs[n])
  {
    HistoryAccurate(t, content, dirs, es, n);
    assert Happens(t, dirs[n], es[n], dirs[n + 1]);
    OneSession(t, content, dirs[n], es[n].s);
  }

  /**
   When the transfer starts without a record: the session that processes `end` leaves the content if and only if
   no session did harm since the record was last missing. Nothing else that failed before matters: streams cut
   anywhere, opens, replies to `start`, writes of the first chunk, closes, removals.
   */
  lemma ResumedTransferIsExact(t: Transfer, content: Bytes, dirs: seq<Dir>, es: seq<Event>, n: nat)
    requires TransferOf(t, content) && History(t, dirs, es) && t.ResumeAt(dirs[0]) == 0 && Completes(t, dirs, es, n)
    ensures t.id.name in dirs[n + 1].files
    ensures dirs[n + 1].files[t.id.name] == content <==> Clean(t, dirs, es, n)
  {
    NoRecordIsAccurate(t, dirs[0]);
    NoSlackIffClean(t, content, dirs, es, n);
    hide Clean, Slack, Accurate, Completes, Transfer.ResumeAt;
    EventualContent(t, content, dirs, es, n);
  }

  /** A directory that is clean tells a prefix after the next session, in whatever way that one fails. */
  lemma SidecarAlwaysTellsPrefix(t: Transfer, content: Bytes, dirs: seq<Dir>, es: seq<Event>, n: nat)
    requires TransferOf(t, content) && History(t, dirs, es) && t.ResumeAt(dirs[0]) == 0
    requires n < |es| && es[n].Ours? && Clean(t, dirs, es, n)
    ensures TellsPrefix(t, dirs[n + 1])
  {
    NoSlackIffClean(t, content, dirs, es, n);
    assert Happens(t, dirs[n], es[n], dirs[n + 1]);
    hide Clean, History;
    var d, s := dirs[n], es[n].s;
    SameRecord(t, s, d);
    SameRecord(t, s, dirs[n + 1]);
    TransferIsValid(On(t, s), content);
    StreamReachesReceiver(t, d, s);
    hide Possible, RunSession, Slack, Accurate, Transfer.Valid;
    SidecarTellsPrefix(On(t, s), d, ResumeIndex(t, d, s), s.sent.wire[..s.arrived], s.faults);
  }

  /** A session whose sender returned nil, all of whose packets arrived and whose receiver had no fault, ends. */
  lemma CompleteSessionEnds(t: Transfer, content: Bytes, d: Dir, s: Session)
    requires TransferOf(t, content) && Accurate(t, d) && Possible(t, d, s)
    requires s.sent.feeder == Returned(true) && s.arrived == |s.sent.wire| && AllSmooth(s.faults)
    ensures After(t, d, s).1 == SawEnd
  {
    SameRecord(t, s, d);
    TransferIsValid(On(t, s), content);
    StreamReachesReceiver(t, d, s);
    assert s.sent.wire[..s.arrived] == s.sent.wire;
    hide Possible, Recorded, StreamPart;
    var n, extra, readable := SessionLeavesBehind(On(t, s), d, ResumeIndex(t, d, s), s.sent.wire, s.faults);
  }

  /** Nothing fails at the sender and it has nothing left to do, all arrives, and the receiver has no fault. */
  ghost predicate Undisturbed(t: Transfer, d: Dir, s: Session) {
    && !CanStep(SenderConfig(t, d, s), s.sent)
    && (forall i | 0 <= i < |s.steps| :: !Fails(SenderConfig(t, d, s), s.steps[i]))
    && s.arrived == |s.sent.wire| && AllSmooth(s.faults)
  }

  /** On a clean directory, and only there, one undisturbed session leaves the content, in every interleaving. */
  lemma UndisturbedSessionDelivers(t: Transfer, content: Bytes, dirs: seq<Dir>, es: seq<Event>, n: nat)
    requires TransferOf(t, content) && History(t, dirs, es) && t.ResumeAt(dirs[0]) == 0
    requires n < |es| && es[n].Ours? && Undisturbed(t, dirs[n], es[n].s)
    ensures t.id.name in dirs[n + 1].files
    ensures dirs[n + 1].files[t.id.name] == content <==> Clean(t, dirs, es, n)
  {
    NoRecordIsAccurate(t, dirs[0]);
    HistoryAccurate(t, content, dirs, es, n);
    assert Happens(t, dirs[n], es[n], dirs[n + 1]);
    var s := es[n].s;
    NilIffNothingFailed(SenderConfig(t, dirs[n], s), s.steps, s.sent);
    CompleteSessionEnds(t, content, dirs[n], s);
    hide Possible, After, Slack, Accurate, Clean, History, Transfer.ResumeAt;
    ResumedTransferIsExact(t, content, dirs, es, n);
  }
}

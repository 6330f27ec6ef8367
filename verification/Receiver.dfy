/**
 The receiver, ReceiveOnceWithOptions of apps/backend/internal/network/transport.go: a packet state machine over
 output files and their resume sidecars, both of which survive the session. `Process` is what one packet does;
 the class `ReceiveSession` updates its fields and the disk step by step and is proved to do exactly that.
 */
module Receiver {
  import opened Hasher
  import opened Chunker
  import opened Wire

  /** The JSON sidecar of an output file. */
  datatype ResumeState = ResumeState(fileName: string, fileSize: int, fileMTime: int, nextIndex: int)

  datatype Options = Options(resume: bool, hasEngine: bool, key: Bytes, cipher: Cipher, hash: Bytes -> string)

  datatype Persisted = Stored | Kept | Garbled

  // Outcomes of the calls made while one packet is processed. A failing write leaves the first `written` bytes
  // on disk; a failing sidecar update leaves the old sidecar or an unreadable one.
  datatype Faults = Faults(
    open': bool, ack: bool, write: bool, written: nat, store: bool, persist: Persisted, close: bool, remove: bool)

  const SMOOTH := Faults(false, false, false, 0, false, Stored, false, false)

  datatype Outcome = Continue | Ended | Error

  // A sidecar that cannot be read back is None.
  datatype RState = RState(
    files: map<string, Bytes>,
    sidecars: map<string, Option<ResumeState>>,
    outFile: Option<string>,
    resumeName: Option<string>,
    nextIndex: int,
    fileSize: int,
    fileMTime: int,
    replies: seq<Packet>)

  /** A new session on a disk. */
  function Fresh(files: map<string, Bytes>, sidecars: map<string, Option<ResumeState>>): RState {
    RState(files, sidecars, None, None, 0, 0, 0, [])
  }

  // ---------------------------------------------------------------------------------------------
  // File names
  // ---------------------------------------------------------------------------------------------

  function StripSlashes(path: string): string {
    if path != "" && path[|path| - 1] == '/' then StripSlashes(path[..|path| - 1]) else path
  }

  function AfterLastSlash(path: string): string {
    if path == "" || path[|path| - 1] == '/' then "" else AfterLastSlash(path[..|path| - 1]) + [path[|path| - 1]]
  }

  /** The last element of a path. */
  function Base(path: string): string {
    if path == "" then "."
    else if StripSlashes(path) == "" then "/"
    else AfterLastSlash(StripSlashes(path))
  }

  lemma {:induction false} NoSlashAfterLast(path: string)
    ensures '/' !in AfterLastSlash(path)
    ensures path != "" && path[|path| - 1] != '/' ==> AfterLastSlash(path) != ""
    decreases |path|
  {
    if path != "" && path[|path| - 1] != '/' {
      NoSlashAfterLast(path[..|path| - 1]);
    }
  }

  lemma {:induction false} AfterLastSlashOfPlain(name: string)
    requires '/' !in name
    ensures AfterLastSlash(name) == name
    decreases |name|
  {
    if name != "" {
      AfterLastSlashOfPlain(name[..|name| - 1]);
    }
  }

  lemma {:induction false} StripLeavesNoSlash(path: string)
    ensures StripSlashes(path) != "" ==> StripSlashes(path)[|StripSlashes(path)| - 1] != '/'
    decreases |path|
  {
    if path != "" && path[|path| - 1] == '/' {
      StripLeavesNoSlash(path[..|path| - 1]);
    }
  }

  predicate OnlySlashes(s: string) {
    forall c | c in s :: c == '/'
  }

  lemma {:induction false} StripSplits(path: string) returns (slashes: string)
    ensures path == StripSlashes(path) + slashes && OnlySlashes(slashes)
    decreases |path|
  {
    slashes := "";
    if path != "" && path[|path| - 1] == '/' {
      slashes := StripSplits(path[..|path| - 1]);
      slashes := slashes + "/";
    }
  }

  lemma {:induction false} LastSlashSplits(path: string) returns (dir: string)
    ensures path == dir + AfterLastSlash(path) && (dir == "" || dir[|dir| - 1] == '/')
    decreases |path|
  {
    dir := path;
    if path != "" && path[|path| - 1] != '/' {
      dir := LastSlashSplits(path[..|path| - 1]);
      assert path == path[..|path| - 1] + [path[|path| - 1]];
    }
  }

  /** The base of a path with anything but slashes in it is what stands between its last separator and its end. */
  lemma BaseIsLastElement(path: string) returns (dir: string, slashes: string)
    requires !OnlySlashes(path)
    ensures path == dir + Base(path) + slashes && OnlySlashes(slashes) && (dir == "" || dir[|dir| - 1] == '/')
    ensures Base(path) != "" && '/' !in Base(path)
  {
    slashes := StripSplits(path);
    var t := StripSlashes(path);
    assert t == "" ==> path == slashes;
    StripLeavesNoSlash(path);
    NoSlashAfterLast(t);
    dir := LastSlashSplits(t);
  }

  /** The receiver takes the base of a name that the sender already reduced to its base. */
  lemma BaseIdempotent(path: string)
    ensures Base(Base(path)) == Base(path)
  {
    var t := StripSlashes(path);
    if path != "" && t != "" {
      StripLeavesNoSlash(path);
      NoSlashAfterLast(t);
      AfterLastSlashOfPlain(AfterLastSlash(t));
    } else if path != "" {
      assert "/"[..0] == "" && StripSlashes("/") == "";
    } else {
      AfterLastSlashOfPlain(".");
    }
  }

  // ---------------------------------------------------------------------------------------------
  // One packet
  // ---------------------------------------------------------------------------------------------

  /** Where a transfer with this identity resumes. */
  function Recorded(o: Options, sidecars: map<string, Option<ResumeState>>, name: string, size: int, mtime: int): int {
    if o.resume && name in sidecars && sidecars[name].Some?
       && sidecars[name].value == ResumeState(name, size, mtime, sidecars[name].value.nextIndex)
    then sidecars[name].value.nextIndex else 0
  }

  function ContentOf(files: map<string, Bytes>, name: string): Bytes {
    if name in files then files[name] else []
  }

  function OnStart(o: Options, r: RState, p: Packet, f: Faults): (RState, Outcome)
    requires p.Start?
  {
    var name := Base(p.fileName);
    var next := Recorded(o, r.sidecars, name, p.fileSize, p.fileMTime);
    var known := r.(resumeName := Some(name), fileSize := p.fileSize, fileMTime := p.fileMTime, nextIndex := next);
    if f.open' then (known, Error)
    else
      var kept := if next > 0 then ContentOf(r.files, name) else [];
      var ready := known.(files := r.files[name := kept], outFile := Some(name));
      if !o.resume then (ready, Continue)
      else if f.ack then (ready, Error)
      else (ready.(replies := r.replies + [Resume(next)]), Continue)
  }

  /** Appends the plain bytes of the expected chunk and records it. */
  function Accept(o: Options, r: RState, plain: Bytes, f: Faults): (RState, Outcome)
    requires r.outFile.Some?
  {
    var name := r.outFile.value;
    var content := ContentOf(r.files, name);
    if f.write then
      (r.(files := r.files[name := content + plain[..if f.written < |plain| then f.written else |plain|]]), Error)
    else
      var written := r.(files := r.files[name := content + plain]);
      if o.hasEngine && (f.store || plain == []) then (written, Error)
      else
        var counted := written.(nextIndex := r.nextIndex + 1);
        if !o.resume || r.resumeName.None? then (counted, Continue)
        else
          match f.persist
          case Kept => (counted, Error)
          case Garbled => (counted.(sidecars := r.sidecars[r.resumeName.value := None]), Error)
          case Stored =>
            var state := ResumeState(name, r.fileSize, r.fileMTime, r.nextIndex + 1);
            (counted.(sidecars := r.sidecars[r.resumeName.value := Some(state)]), Continue)
  }

  function OnChunk(o: Options, r: RState, p: Packet, f: Faults): (RState, Outcome)
    requires p.ChunkPacket?
  {
    if r.outFile.None? then (r, Error)
    else if p.index < r.nextIndex then (r, Continue)
    else if p.index > r.nextIndex then (r, Error)
    else
      match o.cipher.Unprotect(o.key, p.data)
      case None => (r, Error)
      case Some(plain) => if o.hash(plain) != p.hash then (r, Error) else Accept(o, r, plain, f)
  }

  function OnEnd(o: Options, r: RState, f: Faults): (RState, Outcome) {
    if r.outFile.Some? && f.close then (r, Error)
    else
      var removed := o.resume && r.resumeName.Some? && !f.remove;
      (r.(outFile := None,
          sidecars := if removed then r.sidecars - {r.resumeName.value} else r.sidecars), Ended)
  }

  function Process(o: Options, r: RState, p: Packet, f: Faults): (RState, Outcome) {
    match p
    case Start(_, _, _) => OnStart(o, r, p, f)
    case ChunkPacket(_, _, _, _) => OnChunk(o, r, p, f)
    case End => OnEnd(o, r, f)
    case _ => (r, Error)
  }

  datatype SessionEnd = SawEnd | StreamOver | Aborted

  /** A whole session: packets are processed until one ends or aborts it, or the stream is over. */
  function Receive(o: Options, r: RState, packets: seq<Packet>, faults: seq<Faults>): (RState, SessionEnd)
    requires |faults| >= |packets|
    decreases |packets|
  {
    if packets == [] then (r, StreamOver)
    else
      var (next, outcome) := Process(o, r, packets[0], faults[0]);
      match outcome
      case Ended => (next, SawEnd)
      case Error => (next, Aborted)
      case Continue => Receive(o, next, packets[1..], faults[1..])
  }

  // ---------------------------------------------------------------------------------------------
  // How a session goes
  // ---------------------------------------------------------------------------------------------

  /** The session processes its first `i` packets, goes on after each, and is then in state `ri`. */
  predicate Arrives(o: Options, r: RState, packets: seq<Packet>, faults: seq<Faults>, i: nat, ri: RState)
    requires |faults| >= |packets| >= i
    decreases i
  {
    if i == 0 then ri == r
    else
      var (next, outcome) := Process(o, r, packets[0], faults[0]);
      outcome == Continue && Arrives(o, next, packets[1..], faults[1..], i - 1, ri)
  }

  /** The session processes all packets and is then in state `last`. */
  predicate GoesThrough(o: Options, r: RState, packets: seq<Packet>, faults: seq<Faults>, last: RState)
    requires |faults| >= |packets|
  {
    Arrives(o, r, packets, faults, |packets|, last)
  }

  /** The session processes packet `i`, which is `end`, and the open file, if any, is closed without a fault. */
  ghost predicate EndsAt(o: Options, r: RState, packets: seq<Packet>, faults: seq<Faults>, i: nat)
    requires |faults| >= |packets|
  {
    i < |packets| && packets[i] == End &&
    exists ri :: Arrives(o, r, packets, faults, i, ri) && (ri.outFile.Some? ==> !faults[i].close)
  }

  /** After a packet that is not the last to be processed the session is that from the next state. */
  lemma {:induction false} ArrivesThen(o: Options, r: RState, packets: seq<Packet>, faults: seq<Faults>,
                                       i: nat, ri: RState)
    requires |faults| >= |packets| >= i && Arrives(o, r, packets, faults, i, ri)
    ensures Receive(o, r, packets, faults) == Receive(o, ri, packets[i..], faults[i..])
    decreases i
  {
    hide Process;
    if i == 0 {
      assert packets[0..] == packets && faults[0..] == faults;
    } else {
      ArrivesThen(o, Process(o, r, packets[0], faults[0]).0, packets[1..], faults[1..], i - 1, ri);
      assert packets[1..][i - 1..] == packets[i..] && faults[1..][i - 1..] == faults[i..];
    }
  }

  /** A session comes to a packet that it does not go on after, or to the end of the stream. */
  lemma {:induction false} SessionStops(o: Options, r: RState, packets: seq<Packet>, faults: seq<Faults>)
    returns (i: nat, ri: RState)
    requires |faults| >= |packets|
    ensures i <= |packets| && Arrives(o, r, packets, faults, i, ri)
    ensures i < |packets| ==> Process(o, ri, packets[i], faults[i]).1 != Continue
    ensures Receive(o, r, packets, faults) ==
            if i == |packets| then (ri, StreamOver)
            else var (last, outcome) := Process(o, ri, packets[i], faults[i]);
                 (last, if outcome == Ended then SawEnd else Aborted)
    decreases |packets|
  {
    hide Process;
    i, ri := 0, r;
    if packets != [] {
      var (next, outcome) := Process(o, r, packets[0], faults[0]);
      if outcome == Continue {
        i, ri := SessionStops(o, next, packets[1..], faults[1..]);
        assert i < |packets[1..]| ==> packets[1..][i] == packets[i + 1] && faults[1..][i] == faults[i + 1];
        i := i + 1;
      }
    }
  }

  lemma {:induction false} ArrivesOnce(o: Options, r: RState, packets: seq<Packet>, faults: seq<Faults>,
                                       i: nat, ri: RState, j: nat, rj: RState)
    requires |faults| >= |packets| >= j && i <= j
    requires Arrives(o, r, packets, faults, i, ri) && Arrives(o, r, packets, faults, j, rj)
    ensures i == j ==> ri == rj
    ensures i < j ==> Process(o, ri, packets[i], faults[i]).1 == Continue
    decreases i
  {
    hide Process;
    if i > 0 {
      ArrivesOnce(o, Process(o, r, packets[0], faults[0]).0, packets[1..], faults[1..], i - 1, ri, j - 1, rj);
    }
  }

  /** Only `end` ends a session, and it does unless the file cannot be closed. */
  lemma EndOnly(o: Options, r: RState, p: Packet, f: Faults)
    ensures Process(o, r, p, f).1 == Ended <==> p == End && (r.outFile.Some? ==> !f.close)
    ensures p == End ==> Process(o, r, p, f).1 != Continue
  {
    hide Base, Recorded;
  }

  /** The session sees `end` exactly when it processes one; it is over when all packets were processed. */
  lemma SessionOutcome(o: Options, r: RState, packets: seq<Packet>, faults: seq<Faults>)
    requires |faults| >= |packets|
    ensures var (r', end) := Receive(o, r, packets, faults);
            && (end == SawEnd <==> exists i: nat :: EndsAt(o, r, packets, faults, i))
            && (end == StreamOver <==> exists last :: GoesThrough(o, r, packets, faults, last))
            && (end == StreamOver ==> GoesThrough(o, r, packets, faults, r'))
            && (forall last | GoesThrough(o, r, packets, faults, last) :: last == r')
  {
    var i, ri := SessionStops(o, r, packets, faults);
    hide Process, Receive;
    forall last | GoesThrough(o, r, packets, faults, last)
      ensures i == |packets| && last == ri
    {
      ArrivesOnce(o, r, packets, faults, i, ri, |packets|, last);
    }
    forall j: nat | EndsAt(o, r, packets, faults, j)
      ensures i == j && i < |packets| && Process(o, ri, packets[i], faults[i]).1 == Ended
    {
      var rj :| Arrives(o, r, packets, faults, j, rj) && (rj.outFile.Some? ==> !faults[j].close);
      EndOnly(o, rj, packets[j], faults[j]);
      if j < i {
        ArrivesOnce(o, r, packets, faults, j, rj, i, ri);
      } else {
        ArrivesOnce(o, r, packets, faults, i, ri, j, rj);
      }
    }
    if i == |packets| {
      assert GoesThrough(o, r, packets, faults, ri);
    } else {
      EndOnly(o, ri, packets[i], faults[i]);
      if Process(o, ri, packets[i], faults[i]).1 == Ended {
        assert EndsAt(o, r, packets, faults, i);
      }
    }
  }

  /** Whether the session returns nil. */
  predicate ReturnsNil(r: RState, end: SessionEnd, cleanEof: bool, closeFails: bool) {
    end == SawEnd || (end == StreamOver && cleanEof && (r.outFile.Some? ==> !closeFails))
  }

  /**
   When the session has reason to return nil: it processed `end`, or it processed all packets, the stream then ended
   cleanly and the open file, if any, could be closed.
   */
  ghost predicate NilIsDue(o: Options, r: RState, packets: seq<Packet>, faults: seq<Faults>,
                           cleanEof: bool, closeFails: bool)
    requires |faults| >= |packets|
  {
    || (exists i: nat :: EndsAt(o, r, packets, faults, i))
    || (cleanEof && exists last :: GoesThrough(o, r, packets, faults, last) && (last.outFile.Some? ==> !closeFails))
  }

  /** Nil is returned exactly when it is due, so never by a session that was aborted or whose stream broke. */
  lemma NilIff(o: Options, r: RState, packets: seq<Packet>, faults: seq<Faults>, cleanEof: bool, closeFails: bool)
    requires |faults| >= |packets|
    ensures var (r', end) := Receive(o, r, packets, faults);
            && (ReturnsNil(r', end, cleanEof, closeFails) <==> NilIsDue(o, r, packets, faults, cleanEof, closeFails))
            && (end == Aborted || (end == StreamOver && !cleanEof) ==>
                  !NilIsDue(o, r, packets, faults, cleanEof, closeFails))
  {
    SessionOutcome(o, r, packets, faults);
    hide Receive, EndsAt, GoesThrough;
  }

  // ---------------------------------------------------------------------------------------------
  // What a session writes
  // ---------------------------------------------------------------------------------------------

  /** The packet opens under the session key, to data that has the hash it announces. */
  predicate Intact(o: Options, p: Packet)
    requires p.ChunkPacket?
  {
    var plain := o.cipher.Unprotect(o.key, p.data);
    plain.Some? && o.hash(plain.value) == p.hash
  }

  /** A chunk before `start`, out of order, that does not open or has another hash aborts and changes nothing. */
  lemma ChunkRejected(o: Options, r: RState, p: Packet, f: Faults)
    requires p.ChunkPacket?
    requires r.outFile.None? || p.index > r.nextIndex || (p.index == r.nextIndex && !Intact(o, p))
    ensures Process(o, r, p, f) == (r, Error)
  {
  }

  lemma RejectionAborts(o: Options, r: RState, packets: seq<Packet>, faults: seq<Faults>, i: nat, ri: RState)
    requires |faults| >= |packets| > i && packets[i].ChunkPacket? && Arrives(o, r, packets, faults, i, ri)
    requires ri.outFile.None? || packets[i].index > ri.nextIndex
          || (packets[i].index == ri.nextIndex && !Intact(o, packets[i]))
    ensures Receive(o, r, packets, faults) == (ri, Aborted)
  {
    ArrivesThen(o, r, packets, faults, i, ri);
    ChunkRejected(o, ri, packets[i], faults[i]);
    hide Process, Arrives;
  }

  /** The data of an intact packet with this index, or a prefix of it. */
  predicate PartOf(o: Options, p: Packet, index: int, part: Bytes) {
    && p.ChunkPacket? && p.index == index && Intact(o, p)
    && part <= o.cipher.Unprotect(o.key, p.data).value
  }

  predicate WholeOf(o: Options, p: Packet, index: int, part: Bytes) {
    PartOf(o, p, index, part) && part == o.cipher.Unprotect(o.key, p.data).value
  }

  /** What one packet other than `start` writes: nothing, or the data of the expected chunk or a prefix of it. */
  lemma PacketWrites(o: Options, r: RState, p: Packet, f: Faults) returns (part: Bytes)
    requires !p.Start?
    ensures var (next, outcome) := Process(o, r, p, f);
            var taken := p.ChunkPacket? && r.outFile.Some? && p.index == r.nextIndex && Intact(o, p);
            && (!taken ==> next.files == r.files && next.sidecars.Keys <= r.sidecars.Keys
                           && next.nextIndex == r.nextIndex)
            && (taken ==>
                  && PartOf(o, p, r.nextIndex, part)
                  && next.files == r.files[r.outFile.value := ContentOf(r.files, r.outFile.value) + part]
                  && (outcome == Continue ==> WholeOf(o, p, r.nextIndex, part) && next.nextIndex == r.nextIndex + 1))
            && (outcome == Continue ==> next.outFile == r.outFile)
  {
    part := [];
    if p.ChunkPacket? {
      var plain := o.cipher.Unprotect(o.key, p.data);
      if plain.Some? {
        part := if f.write && f.written < |plain.value| then plain.value[..f.written] else plain.value;
        assert plain.value[..|plain.value|] == plain.value;
      }
    }
  }

  /**
   An intact chunk that is expected is taken without an error exactly when nothing fails, and then it is recorded if
   the receiver resumes. A receiver with an engine cannot store an empty chunk.
   */
  lemma ChunkTaken(o: Options, r: RState, p: Packet, f: Faults)
    requires p.ChunkPacket? && r.outFile.Some? && p.index == r.nextIndex && Intact(o, p)
    ensures var plain := o.cipher.Unprotect(o.key, p.data).value;
            var recorded := o.resume && r.resumeName.Some?;
            var (next, outcome) := Process(o, r, p, f);
            && outcome != Ended
            && (outcome == Continue <==>
                  !f.write && !(o.hasEngine && (f.store || plain == [])) && (recorded ==> f.persist == Stored))
            && (outcome == Continue ==>
                  next.sidecars ==
                    if recorded
                    then r.sidecars[r.resumeName.value :=
                           Some(ResumeState(r.outFile.value, r.fileSize, r.fileMTime, r.nextIndex + 1))]
                    else r.sidecars)
  {
  }

  /** A packet that a receiver does not expect at all aborts and changes nothing. */
  lemma OtherPacketsAbort(o: Options, r: RState, p: Packet, f: Faults)
    requires p.Resume? || p.Unknown?
    ensures Process(o, r, p, f) == (r, Error)
  {
  }

  /** The parts come from packets further and further on, one index after the other, and only the last may be cut. */
  ghost predicate Parts(o: Options, next: int, packets: seq<Packet>, parts: seq<Bytes>, from: seq<nat>) {
    && |from| == |parts|
    && (forall j | 0 <= j < |parts| :: from[j] < |packets| && PartOf(o, packets[from[j]], next + j, parts[j]))
    && (forall j | 0 <= j < |parts| - 1 ::
          from[j] < from[j + 1] && WholeOf(o, packets[from[j]], next + j, parts[j]))
  }

  lemma PartsLater(o: Options, next: int, packets: seq<Packet>, parts: seq<Bytes>, from: seq<nat>)
    returns (later: seq<nat>)
    requires packets != [] && Parts(o, next, packets[1..], parts, from)
    ensures Parts(o, next, packets, parts, later) && forall j | 0 <= j < |later| :: later[j] > 0
  {
    hide PartOf, WholeOf;
    later := seq(|from|, j requires 0 <= j < |from| => from[j] + 1);
    forall j | 0 <= j < |parts|
      ensures packets[later[j]] == packets[1..][from[j]]
    {
    }
  }

  lemma PartsCons(o: Options, next: int, packets: seq<Packet>, part: Bytes, parts: seq<Bytes>, later: seq<nat>)
    requires packets != [] && PartOf(o, packets[0], next, part)
    requires parts != [] ==> WholeOf(o, packets[0], next, part)
    requires Parts(o, next + 1, packets, parts, later) && forall j | 0 <= j < |later| :: later[j] > 0
    ensures Parts(o, next, packets, [part] + parts, [0] + later)
  {
    hide PartOf, WholeOf;
    var all, from := [part] + parts, [0] + later;
    forall j | 0 <= j < |all|
      ensures from[j] < |packets| && PartOf(o, packets[from[j]], next + j, all[j])
    {
      if j > 0 {
        assert all[j] == parts[j - 1] && from[j] == later[j - 1];
        assert PartOf(o, packets[later[j - 1]], next + 1 + (j - 1), parts[j - 1]);
      }
    }
    forall j | 0 <= j < |all| - 1
      ensures from[j] < from[j + 1] && WholeOf(o, packets[from[j]], next + j, all[j])
    {
      if j > 0 {
        assert all[j] == parts[j - 1] && from[j] == later[j - 1] && from[j + 1] == later[j];
        assert WholeOf(o, packets[later[j - 1]], next + 1 + (j - 1), parts[j - 1]);
      }
    }
  }

  /**
   Whatever arrives and fails: what a session appends to its file until the next `start` are the data of intact
   packets, in order, one for each index from the expected one on; only the last may be cut short.
   */
  lemma {:induction false} SessionWrites(o: Options, r: RState, packets: seq<Packet>, faults: seq<Faults>)
    returns (parts: seq<Bytes>, from: seq<nat>)
    requires |faults| >= |packets| && forall p | p in packets :: !p.Start?
    ensures Parts(o, r.nextIndex, packets, parts, from)
    ensures var files := Receive(o, r, packets, faults).0.files;
            if r.outFile.None? || parts == [] then files == r.files && parts == []
            else files == r.files[r.outFile.value := ContentOf(r.files, r.outFile.value) + Flatten(parts)]
    decreases |packets|
  {
    parts, from := [], [];
    if packets != [] {
      assert packets[0] in packets;
      var p, f := packets[0], faults[0];
      var (next, outcome) := Process(o, r, p, f);
      assert outcome != Continue ==> Receive(o, r, packets, faults).0 == next;
      assert outcome == Continue ==> Receive(o, r, packets, faults) == Receive(o, next, packets[1..], faults[1..]);
      hide Process, Intact, PartOf, WholeOf, Receive;
      var part := PacketWrites(o, r, p, f);
      var taken := p.ChunkPacket? && r.outFile.Some? && p.index == r.nextIndex && Intact(o, p);
      if outcome == Continue {
        assert forall q | q in packets[1..] :: q in packets;
        parts, from := SessionWrites(o, next, packets[1..], faults[1..]);
        from := PartsLater(o, next.nextIndex, packets, parts, from);
      }
      if taken {
        if outcome != Continue {
          parts, from := [], [];
        }
        PartsCons(o, r.nextIndex, packets, part, parts, from);
        FilesGrow(r.files, r.outFile.value, part, parts);
        parts, from := [part] + parts, [0] + from;
      }
    }
  }

  lemma FilesGrow(files: map<string, Bytes>, name: string, part: Bytes, parts: seq<Bytes>)
    ensures var once := files[name := ContentOf(files, name) + part];
            && once[name := ContentOf(once, name) + Flatten(parts)]
               == files[name := ContentOf(files, name) + Flatten([part] + parts)]
            && (parts == [] ==> once == files[name := ContentOf(files, name) + Flatten([part] + parts)])
  {
    assert ([part] + parts)[1..] == parts;
    ConcatAssoc(ContentOf(files, name), part, Flatten(parts));
    assert parts == [] ==> part + Flatten(parts) == part;
  }

  /**
   What `start` does to the file: it is kept if the receiver resumes and the sidecar can be read, is about the same
   name, size and time, and counts chunks; else it is emptied. The session goes on behind the chunks counted.
   */
  lemma StartOpens(o: Options, r: RState, p: Packet, f: Faults)
    requires p.Start? && !f.open' && !(o.resume && f.ack)
    ensures var name := Base(p.fileName);
            var counted := if o.resume && name in r.sidecars && r.sidecars[name].Some? then r.sidecars[name].value
                           else ResumeState(name, p.fileSize, p.fileMTime, 0);
            var same := counted.fileName == name && counted.fileSize == p.fileSize && counted.fileMTime == p.fileMTime;
            var (next, outcome) := Process(o, r, p, f);
            && outcome == Continue && next.outFile == next.resumeName == Some(name)
            && next.nextIndex == (if same then counted.nextIndex else 0)
            && next.sidecars == r.sidecars
            && next.files == r.files[name := if same && counted.nextIndex > 0 then ContentOf(r.files, name) else []]
            && next.replies == (if o.resume then r.replies + [Resume(next.nextIndex)] else r.replies)
  {
    hide Base;
  }

  /** `end` removes the sidecar of a receiver that resumes, and changes no file; a failing removal is ignored. */
  lemma EndCloses(o: Options, r: RState, f: Faults)
    ensures var (next, outcome) := Process(o, r, End, f);
            && next.files == r.files
            && (r.outFile.Some? && f.close ==> (next, outcome) == (r, Error))
            && (r.outFile.None? || !f.close ==>
                  && outcome == Ended && next.outFile == None
                  && next.sidecars == if o.resume && r.resumeName.Some? && !f.remove
                                      then r.sidecars - {r.resumeName.value} else r.sidecars)
  {
  }

  // ---------------------------------------------------------------------------------------------
  // The session object
  // ---------------------------------------------------------------------------------------------

  /** The output directory. */
  class Disk {
    var files: map<string, Bytes>
    var sidecars: map<string, Option<ResumeState>>

    method Append(name: string, data: Bytes)
      modifies `files
      ensures files == old(files)[name := ContentOf(old(files), name) + data]
    {
      files := files[name := (if name in files then files[name] else []) + data];
    }
  }

  class ReceiveSession {
    const o: Options
    const disk: Disk
    var outFile: Option<string>
    var resumeName: Option<string>
    var nextIndex: int
    var fileSize: int
    var fileMTime: int
    var replies: seq<Packet>

    ghost function View(): RState
      reads this, disk
    {
      RState(disk.files, disk.sidecars, outFile, resumeName, nextIndex, fileSize, fileMTime, replies)
    }

    constructor (o: Options, disk: Disk)
      ensures this.o == o && this.disk == disk
      ensures View() == Fresh(disk.files, disk.sidecars)
    {
      this.o, this.disk := o, disk;
      outFile, resumeName, nextIndex, fileSize, fileMTime, replies := None, None, 0, 0, 0, [];
    }

    method HandleStart(p: Packet, f: Faults) returns (outcome: Outcome)
      requires p.Start?
      modifies this, disk
      ensures (View(), outcome) == OnStart(o, old(View()), p, f)
    {
      var safeName := Base(p.fileName);
      resumeName := Some(safeName);
      fileSize := p.fileSize;
      fileMTime := p.fileMTime;
      nextIndex := 0;
      if o.resume && safeName in disk.sidecars {
        var s := disk.sidecars[safeName];
        if s.Some? && s.value.fileName == safeName && s.value.fileSize == p.fileSize
           && s.value.fileMTime == p.fileMTime
        {
          nextIndex := s.value.nextIndex;
        }
      }
      if f.open' {
        return Error;
      }
      if nextIndex > 0 {
        assert ContentOf(disk.files, safeName) + [] == ContentOf(disk.files, safeName);
        disk.Append(safeName, []);
      } else {
        disk.files := disk.files[safeName := []];
      }
      outFile := Some(safeName);
      if o.resume {
        if f.ack {
          return Error;
        }
        replies := replies + [Resume(nextIndex)];
      }
      return Continue;
    }

    method HandleChunk(p: Packet, f: Faults) returns (outcome: Outcome)
      requires p.ChunkPacket?
      modifies this, disk
      ensures (View(), outcome) == OnChunk(o, old(View()), p, f)
    {
      if outFile.None? {
        return Error;
      }
      if p.index < nextIndex {
        return Continue;
      }
      if p.index > nextIndex {
        return Error;
      }
      var plain := o.cipher.Unprotect(o.key, p.data);
      if plain.None? {
        return Error;
      }
      if o.hash(plain.value) != p.hash {
        return Error;
      }
      if f.write {
        disk.Append(outFile.value, plain.value[..if f.written < |plain.value| then f.written else |plain.value|]);
        return Error;
      }
      disk.Append(outFile.value, plain.value);
      if o.hasEngine && (f.store || plain.value == []) {
        return Error;
      }
      nextIndex := nextIndex + 1;
      if o.resume && resumeName.Some? {
        match f.persist
        case Kept =>
          return Error;
        case Garbled =>
          disk.sidecars := disk.sidecars[resumeName.value := None];
          return Error;
        case Stored =>
          var state := ResumeState(outFile.value, fileSize, fileMTime, nextIndex);
          disk.sidecars := disk.sidecars[resumeName.value := Some(state)];
      }
      return Continue;
    }

    method HandleEnd(f: Faults) returns (outcome: Outcome)
      modifies this, disk
      ensures (View(), outcome) == OnEnd(o, old(View()), f)
    {
      if outFile.Some? {
        if f.close {
          return Error;
        }
        outFile := None;
      }
      if o.resume && resumeName.Some? && !f.remove {
        disk.sidecars := disk.sidecars - {resumeName.value};
      }
      return Ended;
    }

    method ProcessPacket(p: Packet, f: Faults) returns (outcome: Outcome)
      modifies this, disk
      ensures (View(), outcome) == Process(o, old(View()), p, f)
    {
      match p
      case Start(_, _, _) => outcome := HandleStart(p, f);
      case ChunkPacket(_, _, _, _) => outcome := HandleChunk(p, f);
      case End => outcome := HandleEnd(f);
      case _ => return Error;
    }

    /**
     The receive loop. It returns nil on `end` and also on a clean end of the stream without one.
     */
    method Run(packets: seq<Packet>, faults: seq<Faults>, cleanEof: bool, closeFails: bool)
      returns (end: SessionEnd, isNil: bool)
      requires |faults| >= |packets|
      modifies this, disk
      ensures var (r, e) := Receive(o, old(View()), packets, faults);
              && end == e
              && disk.files == r.files && disk.sidecars == r.sidecars && replies == r.replies
      ensures isNil <==> NilIsDue(o, old(View()), packets, faults, cleanEof, closeFails)
    {
      NilIff(o, View(), packets, faults, cleanEof, closeFails);
      hide Process, NilIsDue;
      var i := 0;
      while i < |packets|
        invariant 0 <= i <= |packets|
        invariant Receive(o, View(), packets[i..], faults[i..]) == Receive(o, old(View()), packets, faults)
      {
        assert packets[i..][1..] == packets[i + 1..] && faults[i..][1..] == faults[i + 1..];
        var outcome := ProcessPacket(packets[i], faults[i]);
        if outcome == Ended {
          return SawEnd, true;
        }
        if outcome == Error {
          return Aborted, false;
        }
        i := i + 1;
      }
      if !cleanEof {
        outFile := None;
        return StreamOver, false;
      }
      if outFile.Some? && closeFails {
        return StreamOver, false;
      }
      outFile := None;
      return StreamOver, true;
    }
  }
}

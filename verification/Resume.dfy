/**
 What a receive session leaves on disk, and what that means for the next one: resumable transfer of one file
 (fixed name, size and modification time) over any number of sessions, each cut or failing anywhere.
 */
module Resume {
  import opened Hasher
  import opened Chunker
  import opened Wire
  import opened Receiver

  datatype Identity = Identity(name: string, size: int, mtime: int)

  datatype Dir = Dir(files: map<string, Bytes>, sidecars: map<string, Option<ResumeState>>)

  // ---------------------------------------------------------------------------------------------
  // Contents
  // ---------------------------------------------------------------------------------------------

  /** The data of chunks `from` up to `to`. */
  function Slice(cs: seq<Chunk>, from: nat, to: nat): Bytes
    requires from <= to <= |cs|
  {
    if from == to then [] else Slice(cs, from, to - 1) + cs[to - 1].data
  }

  lemma {:induction false} SliceSplit(cs: seq<Chunk>, i: nat, j: nat, k: nat)
    requires i <= j <= k <= |cs|
    ensures Slice(cs, i, k) == Slice(cs, i, j) + Slice(cs, j, k)
    decreases k
  {
    if j == k {
      assert Slice(cs, i, j) + [] == Slice(cs, i, j);
    } else {
      SliceSplit(cs, i, j, k - 1);
      ConcatAssoc(Slice(cs, i, j), Slice(cs, j, k - 1), cs[k - 1].data);
    }
  }

  lemma {:induction false} SliceOfLabels(hash: Bytes -> string, pieces: seq<Bytes>, offset: nat, k: nat)
    requires k <= |pieces|
    ensures Slice(Label(hash, pieces, offset), 0, k) == Flatten(pieces[..k])
    decreases k
  {
    if k > 0 {
      SliceOfLabels(hash, pieces, offset, k - 1);
      LabelsAreContiguous(hash, pieces, offset, k - 1);
      FlattenSnoc(pieces[..k - 1], pieces[k - 1]);
      assert pieces[..k] == pieces[..k - 1] + [pieces[k - 1]];
    }
  }

  lemma {:induction false} FlattenSnoc(pieces: seq<Bytes>, last: Bytes)
    ensures Flatten(pieces + [last]) == Flatten(pieces) + last
    decreases |pieces|
  {
    if pieces == [] {
      assert [last][1..] == [];
      assert last + [] == last;
    } else {
      FlattenSnoc(pieces[1..], last);
      assert (pieces + [last])[1..] == pieces[1..] + [last];
    }
  }

  /** All chunks of a file together are the file. */
  lemma AllChunksAreTheFile(hash: Bytes -> string, content: Bytes)
    ensures var cs := Chunks(hash, content); Slice(cs, 0, |cs|) == content
  {
    var pieces := Split(content);
    SliceOfLabels(hash, pieces, 0, |pieces|);
    assert pieces[..|pieces|] == pieces;
    Partition(content);
  }

  /** Every chunk record carries the hash of its data. */
  ghost predicate Hashed(o: Options, cs: seq<Chunk>) {
    forall i | 0 <= i < |cs| :: cs[i].hash == o.hash(cs[i].data)
  }

  lemma ChunksAreHashed(o: Options, content: Bytes)
    ensures Hashed(o, Chunks(o.hash, content))
    ensures forall i | 0 <= i < |Chunks(o.hash, content)| :: Chunks(o.hash, content)[i].data != []
  {
    var pieces := Split(content);
    PieceSizes(content);
    forall i | 0 <= i < |pieces|
      ensures Chunks(o.hash, content)[i].hash == o.hash(Chunks(o.hash, content)[i].data)
      ensures Chunks(o.hash, content)[i].data != []
    {
      LabelsAreContiguous(o.hash, pieces, 0, i);
    }
  }

  // ---------------------------------------------------------------------------------------------
  // One session
  // ---------------------------------------------------------------------------------------------

  /** Everything a session of this transfer depends on; the receiver resumes if `o.resume`. */
  datatype Transfer = Transfer(o: Options, id: Identity, cs: seq<Chunk>)
  {
    ghost predicate Valid() {
      && Base(id.name) == id.name
      && Hashed(o, cs) && o.cipher.Inverts() && (forall i | 0 <= i < |cs| :: cs[i].data != [])
    }

    function StartPacket(): Packet { Start(id.name, id.size, id.mtime) }

    /** The chunk the receiver expects when a session starts on this directory. */
    function ResumeAt(d: Dir): int { Recorded(o, d.sidecars, id.name, id.size, id.mtime) }

    /** What the session keeps of the output file. */
    function KeptFile(d: Dir): Bytes { if ResumeAt(d) > 0 then ContentOf(d.files, id.name) else [] }

    function Mark(n: int): Option<ResumeState> { Some(ResumeState(id.name, id.size, id.mtime, n)) }
  }

  /** From chunk `first` on, each packet is the next chunk, and `end` comes after the last one only. */
  ghost predicate StreamPart(t: Transfer, first: nat, packets: seq<Packet>) {
    forall i | 0 <= i < |packets| ::
      Carries(t.o.cipher, t.o.key, t.cs, first + i, packets[i]) || (packets[i] == End && first + i == |t.cs|)
  }

  /** The directory when chunks up to `n` have been written and recorded. */
  function Progressed(t: Transfer, d: Dir, n: nat): Dir
    requires 0 <= t.ResumeAt(d) <= n <= |t.cs|
  {
    Dir(d.files[t.id.name := t.KeptFile(d) + Slice(t.cs, t.ResumeAt(d), n)],
        if n == t.ResumeAt(d) || !t.o.resume then d.sidecars else d.sidecars[t.id.name := t.Mark(n)])
  }

  /** The session stands before chunk `n`. */
  ghost predicate Midway(t: Transfer, d: Dir, r: RState, n: nat) {
    && 0 <= t.ResumeAt(d) <= n <= |t.cs|
    && Dir(r.files, r.sidecars) == Progressed(t, d, n)
    && r.outFile == r.resumeName == Some(t.id.name)
    && r.fileSize == t.id.size && r.fileMTime == t.id.mtime && r.nextIndex == n
  }

  /**
   The directory after a session: chunks up to `n` are written and recorded, followed by the `extra` bytes of a
   chunk whose record failed; the sidecar may have become unreadable, and is removed after `end`.
   */
  ghost predicate LeftBehind(t: Transfer, d: Dir, after: Dir, n: nat, extra: Bytes, readable: bool) {
    && 0 <= t.ResumeAt(d) <= n <= |t.cs|
    && (extra != [] ==> n < |t.cs| && extra <= t.cs[n].data)
    && var p := Progressed(t, d, n);
       && after.files == p.files[t.id.name := p.files[t.id.name] + extra]
       && (readable ==> after.sidecars == p.sidecars)
       && (!readable ==> after.sidecars == p.sidecars - {t.id.name} || after.sidecars == p.sidecars[t.id.name := None])
  }

  lemma MidwayBound(t: Transfer, d: Dir, r: RState, n: nat)
    requires Midway(t, d, r, n)
    ensures 0 <= t.ResumeAt(d) <= n <= |t.cs|
    ensures LeftBehind(t, d, Dir(r.files, r.sidecars), n, [], true)
    ensures r.files[t.id.name] == t.KeptFile(d) + Slice(t.cs, t.ResumeAt(d), n)
  {
    var content := r.files[t.id.name];
    assert content + [] == content;
  }

  lemma StartSession(t: Transfer, d: Dir, f: Faults)
    requires t.Valid() && 0 <= t.ResumeAt(d) <= |t.cs|
    ensures var (r, outcome) := Process(t.o, Fresh(d.files, d.sidecars), t.StartPacket(), f);
            && (outcome == Continue <==> !f.open' && !(t.o.resume && f.ack))
            && (outcome == Continue ==> Midway(t, d, r, t.ResumeAt(d)))
            && (outcome == Continue ==> r.replies == if t.o.resume then [Resume(t.ResumeAt(d))] else [])
            && outcome != Ended
            && (outcome == Error ==> r.sidecars == d.sidecars)
            && (outcome == Error ==> r.files == d.files || r.files == d.files[t.id.name := t.KeptFile(d)])
  {
    var kept := t.KeptFile(d);
    assert kept + [] == kept;
  }

  /** What the output file holds before and after chunk `n` is appended. */
  lemma AppendChunk(t: Transfer, d: Dir, r: RState, n: nat)
    requires Midway(t, d, r, n) && n < |t.cs|
    ensures t.id.name in r.files && r.outFile == r.resumeName == Some(t.id.name)
    ensures ContentOf(r.files, t.id.name) == Progressed(t, d, n).files[t.id.name]
    ensures r.files == Progressed(t, d, n).files
    ensures r.files[t.id.name := ContentOf(r.files, t.id.name) + t.cs[n].data] == Progressed(t, d, n + 1).files
    ensures Progressed(t, d, n + 1).sidecars ==
            if t.o.resume then r.sidecars[t.id.name := t.Mark(n + 1)] else r.sidecars
  {
    ConcatAssoc(t.KeptFile(d), Slice(t.cs, t.ResumeAt(d), n), t.cs[n].data);
    hide Recorded;
  }

  /** A fault that keeps the next chunk from being written, stored and recorded. */
  predicate Stops(o: Options, f: Faults) {
    f.write || (o.hasEngine && f.store) || (o.resume && f.persist != Stored)
  }

  /**
   Whatever else fails (the open, the reply to `start`, the close, the removal), the chunk being processed is not
   left on disk behind a readable record that does not count it.
   */
  predicate Harmless(o: Options, f: Faults) {
    if f.write then f.written == 0 else !(o.hasEngine && f.store) && !(o.resume && f.persist == Kept)
  }

  /** The packet is the chunk expected next, not the first one, and part of it is left behind an older record. */
  predicate Harms(o: Options, r: RState, p: Packet, f: Faults) {
    o.resume && p.ChunkPacket? && p.index == r.nextIndex && p.index > 0 && !Harmless(o, f)
  }

  /** A packet that is processed in the session does harm. */
  predicate DoesHarm(o: Options, r: RState, packets: seq<Packet>, faults: seq<Faults>)
    requires |faults| >= |packets|
    decreases |packets|
  {
    packets != [] &&
    (Harms(o, r, packets[0], faults[0]) ||
     var (next, outcome) := Process(o, r, packets[0], faults[0]);
     outcome == Continue && DoesHarm(o, next, packets[1..], faults[1..]))
  }

  /** Only faults that meet a chunk other than the first one, at a receiver that resumes, can do harm. */
  lemma {:induction false} HarmNeedsAChunk(o: Options, r: RState, packets: seq<Packet>, faults: seq<Faults>)
    requires |faults| >= |packets|
    requires forall i | 0 <= i < |packets| ::
               o.resume && packets[i].ChunkPacket? && packets[i].index > 0 ==> Harmless(o, faults[i])
    ensures !DoesHarm(o, r, packets, faults)
    decreases |packets|
  {
    if packets != [] {
      hide Process, Harmless;
      HarmNeedsAChunk(o, Process(o, r, packets[0], faults[0]).0, packets[1..], faults[1..]);
    }
  }

  lemma AcceptSucceeds(t: Transfer, d: Dir, r: RState, n: nat, f: Faults)
    requires t.Valid() && Midway(t, d, r, n) && n < |t.cs|
    requires !Stops(t.o, f)
    ensures var (r', outcome) := Accept(t.o, r, t.cs[n].data, f);
            outcome == Continue && Midway(t, d, r', n + 1)
  {
    AppendChunk(t, d, r, n);
    hide Progressed, Hashed, ContentOf;
  }

  lemma AcceptFails(t: Transfer, d: Dir, r: RState, n: nat, f: Faults) returns (extra: Bytes, readable: bool)
    requires t.Valid() && Midway(t, d, r, n) && n < |t.cs|
    requires Stops(t.o, f)
    ensures var (r', outcome) := Accept(t.o, r, t.cs[n].data, f);
            outcome == Error && LeftBehind(t, d, Dir(r'.files, r'.sidecars), n, extra, readable)
    ensures extra == if f.write && f.written < |t.cs[n].data| then t.cs[n].data[..f.written] else t.cs[n].data
    ensures readable <==> f.write || (t.o.hasEngine && f.store) || f.persist != Garbled
    ensures Harmless(t.o, f) <==> extra == [] || !readable
  {
    AppendChunk(t, d, r, n);
    var plain := t.cs[n].data;
    extra := if f.write then plain[..if f.written < |plain| then f.written else |plain|] else plain;
    readable := f.write || (t.o.hasEngine && f.store) || f.persist != Garbled;
    hide Progressed, Hashed, ContentOf;
  }

  lemma AcceptChunk(t: Transfer, d: Dir, r: RState, n: nat, f: Faults) returns (extra: Bytes, readable: bool)
    requires t.Valid() && Midway(t, d, r, n) && n < |t.cs|
    ensures var (r', outcome) := Accept(t.o, r, t.cs[n].data, f);
            && outcome != Ended
            && (outcome == Continue ==> Midway(t, d, r', n + 1))
            && (outcome == Error ==> LeftBehind(t, d, Dir(r'.files, r'.sidecars), n, extra, readable))
            && (f == SMOOTH ==> outcome == Continue)
            && (Harmless(t.o, f) <==> extra == [] || !readable)
            && (outcome == Continue ==> extra == [])
  {
    hide Midway, LeftBehind, Accept;
    extra, readable := [], true;
    if Stops(t.o, f) {
      extra, readable := AcceptFails(t, d, r, n, f);
    } else {
      AcceptSucceeds(t, d, r, n, f);
    }
  }

  lemma OneChunk(t: Transfer, d: Dir, r: RState, n: nat, p: Packet, i: nat, f: Faults)
    returns (extra: Bytes, readable: bool)
    requires t.Valid() && Midway(t, d, r, n) && i <= n && Carries(t.o.cipher, t.o.key, t.cs, i, p)
    ensures var (r', outcome) := Process(t.o, r, p, f);
            && outcome != Ended
            && (outcome == Continue ==> Midway(t, d, r', if i == n then n + 1 else n))
            && (outcome == Error ==> LeftBehind(t, d, Dir(r'.files, r'.sidecars), n, extra, readable))
            && (f == SMOOTH ==> outcome == Continue)
            && (outcome == Continue ==> extra == [])
            && (Harms(t.o, r, p, f) <==> Leaves(t, n, extra, readable))
  {
    extra, readable := [], true;
    if i == n {
      var nonce :| t.o.cipher.Protect(t.o.key, nonce, t.cs[n].data) == Some(p.data);
      ProtectRoundTrip(t.o.cipher, t.o.key, nonce, t.cs[n].data);
      extra, readable := AcceptChunk(t, d, r, n, f);
      assert r.outFile.Some? && r.nextIndex == n;
      hide Midway, LeftBehind, Accept, Harmless;
    }
  }

  lemma EndSession(t: Transfer, d: Dir, r: RState, n: nat, f: Faults)
    requires t.Valid() && Midway(t, d, r, n)
    ensures var (r', outcome) := Process(t.o, r, End, f);
            && (outcome == Ended <==> !f.close) && (outcome == Error <==> f.close)
            && LeftBehind(t, d, Dir(r'.files, r'.sidecars), n, [], f.close || f.remove || !t.o.resume)
  {
    var so := r.files[t.id.name];
    assert so + [] == so;
  }

  ghost predicate AllSmooth(faults: seq<Faults>) {
    forall i | 0 <= i < |faults| :: faults[i] == SMOOTH
  }

  /** Bytes of chunk `n` stand behind a record that is readable, but does not count them. */
  predicate Leaves(t: Transfer, n: nat, extra: Bytes, readable: bool) {
    t.o.resume && n > 0 && readable && extra != []
  }

  /** How processing these packets from here ends, and what it leaves on disk. */
  ghost predicate EndsWith(t: Transfer, d: Dir, r: RState, packets: seq<Packet>, faults: seq<Faults>,
                           n: nat, extra: Bytes, readable: bool)
    requires |faults| >= |packets|
  {
    var (r', end) := Receive(t.o, r, packets, faults);
    && LeftBehind(t, d, Dir(r'.files, r'.sidecars), n, extra, readable)
    && (end == SawEnd ==> n == |t.cs| && extra == [])
    && (end == StreamOver ==> extra == [] && readable && End !in packets)
    && (DoesHarm(t.o, r, packets, faults) <==> Leaves(t, n, extra, readable))
    && (AllSmooth(faults) ==> extra == [] && end != Aborted && (end != SawEnd ==> readable))
  }

  lemma NoMorePackets(t: Transfer, d: Dir, r: RState, n: nat, faults: seq<Faults>)
    requires Midway(t, d, r, n)
    ensures EndsWith(t, d, r, [], faults, n, [], true)
  {
    var content := r.files[t.id.name];
    assert content + [] == content;
  }

  lemma EndComes(t: Transfer, d: Dir, r: RState, n: nat, packets: seq<Packet>, faults: seq<Faults>)
    requires t.Valid() && Midway(t, d, r, n) && n == |t.cs|
    requires |faults| >= |packets| && packets != [] && packets[0] == End
    ensures EndsWith(t, d, r, packets, faults, n, [], faults[0].close || faults[0].remove || !t.o.resume)
  {
    EndSession(t, d, r, n, faults[0]);
    hide Process, Midway, LeftBehind;
  }

  lemma FirstPacketOnly(t: Transfer, d: Dir, r: RState, packets: seq<Packet>, faults: seq<Faults>,
                        n: nat, extra: Bytes, readable: bool)
    requires |faults| >= |packets| && packets != [] && packets[0] != End
    requires var (next, outcome) := Process(t.o, r, packets[0], faults[0]);
             && (outcome == Continue ==> EndsWith(t, d, next, packets[1..], faults[1..], n, extra, readable))
             && (outcome == Error ==> LeftBehind(t, d, Dir(next.files, next.sidecars), n, extra, readable))
             && (Harms(t.o, r, packets[0], faults[0]) ==> outcome == Error)
             && (outcome == Error ==> (Harms(t.o, r, packets[0], faults[0]) <==> Leaves(t, n, extra, readable)))
             && (faults[0] == SMOOTH ==> outcome == Continue) && outcome != Ended
    ensures EndsWith(t, d, r, packets, faults, n, extra, readable)
  {
    hide Process, LeftBehind, Harms, Leaves;
    assert packets == [packets[0]] + packets[1..];
  }

  lemma HarmStops(t: Transfer, r: RState, n: nat, p: Packet, f: Faults,
                  outcome: Outcome, extra: Bytes, readable: bool)
    requires Harms(t.o, r, p, f) <==> Leaves(t, n, extra, readable)
    requires outcome != Ended && (outcome == Continue ==> extra == [])
    ensures Harms(t.o, r, p, f) ==> outcome == Error
  {
  }

  lemma StreamPartHead(t: Transfer, i: nat, packets: seq<Packet>)
    requires StreamPart(t, i, packets) && packets != []
    ensures Carries(t.o.cipher, t.o.key, t.cs, i, packets[0]) || (packets[0] == End && i == |t.cs|)
    ensures StreamPart(t, i + 1, packets[1..])
    ensures packets[0] == End ==> i == |t.cs|
  {
    assert packets[0] == End ==> i == |t.cs|;
    hide Carries;
    forall j | 0 <= j < |packets[1..]|
      ensures Carries(t.o.cipher, t.o.key, t.cs, i + 1 + j, packets[1..][j])
              || (packets[1..][j] == End && i + 1 + j == |t.cs|)
    {
      assert packets[1..][j] == packets[j + 1];
    }
  }

  /** The rest of a session, standing before chunk `n`, when the stream continues with chunk `i`. */
  lemma {:induction false} RestOfSession(t: Transfer, d: Dir, r: RState, n: nat, i: nat,
                                         packets: seq<Packet>, faults: seq<Faults>)
    returns (n': nat, extra: Bytes, readable: bool)
    requires t.Valid() && Midway(t, d, r, n) && i <= n && |faults| >= |packets|
    requires StreamPart(t, i, packets) && (i < n ==> n == t.ResumeAt(d))
    ensures EndsWith(t, d, r, packets, faults, n', extra, readable)
    decreases |packets|
  {
    n', extra, readable := n, [], true;
    hide *;
    if packets == [] {
      NoMorePackets(t, d, r, n, faults);
    } else {
      StreamPartHead(t, i, packets);
      if packets[0] == End {
        MidwayBound(t, d, r, n);
        EndComes(t, d, r, n, packets, faults);
        readable := faults[0].close || faults[0].remove || !t.o.resume;
      } else {
        extra, readable := OneChunk(t, d, r, n, packets[0], i, faults[0]);
        var (next, outcome) := Process(t.o, r, packets[0], faults[0]);
        HarmStops(t, r, n, packets[0], faults[0], outcome, extra, readable);
        if outcome == Continue {
          n', extra, readable :=
            RestOfSession(t, d, next, if i == n then n + 1 else n, i + 1, packets[1..], faults[1..]);
        }
        FirstPacketOnly(t, d, r, packets, faults, n', extra, readable);
      }
    }
  }

  // ---------------------------------------------------------------------------------------------
  // What the directory says about the next session
  // ---------------------------------------------------------------------------------------------

  /** How much longer the output file is than the chunks the sidecar accounts for. */
  function Slack(t: Transfer, d: Dir): int
    requires 0 <= t.ResumeAt(d) <= |t.cs|
  {
    var k := t.ResumeAt(d);
    if k == 0 then 0 else |ContentOf(d.files, t.id.name)| - |Slice(t.cs, 0, k)|
  }

  /** When the sidecar accounts for k chunks, the file is at least that long, and if not longer it is these chunks. */
  ghost predicate Accurate(t: Transfer, d: Dir) {
    && 0 <= t.ResumeAt(d) <= |t.cs|
    && Slack(t, d) >= 0
    && (Slack(t, d) == 0 && t.ResumeAt(d) > 0 ==> ContentOf(d.files, t.id.name) == Slice(t.cs, 0, t.ResumeAt(d)))
  }

  lemma LeftBehindIsAccurate(t: Transfer, d: Dir, after: Dir, n: nat, extra: Bytes, readable: bool)
    requires t.Valid() && Accurate(t, d) && LeftBehind(t, d, after, n, extra, readable)
    ensures Accurate(t, after)
    ensures t.ResumeAt(after) == if readable && t.o.resume then n else 0
    ensures Slack(t, after) == if readable && t.o.resume && n > 0 then Slack(t, d) + |extra| else 0
  {
    var k := t.ResumeAt(d);
    var kept, done := t.KeptFile(d), Slice(t.cs, k, n);
    SliceSplit(t.cs, 0, k, n);
    hide Slice;
    assert after.files[t.id.name] == kept + done + extra;
    if extra == [] {
      assert kept + done + extra == kept + done;
    }
  }

  /** The packets that reach the receiver: `start`, then a part of the stream from chunk `first` on. */
  ghost predicate SessionStream(t: Transfer, first: nat, packets: seq<Packet>) {
    packets != [] ==> packets[0] == t.StartPacket() && StreamPart(t, first, packets[1..])
  }

  function RunSession(t: Transfer, d: Dir, packets: seq<Packet>, faults: seq<Faults>): (Dir, SessionEnd)
    requires |faults| >= |packets|
  {
    var (r, end) := Receive(t.o, Fresh(d.files, d.sidecars), packets, faults);
    (Dir(r.files, r.sidecars), end)
  }

  /** Any session leaves chunks up to some `n` recorded, and possibly some bytes of the next one behind. */
  lemma SessionLeavesBehind(t: Transfer, d: Dir, first: nat, packets: seq<Packet>, faults: seq<Faults>)
    returns (n: nat, extra: Bytes, readable: bool)
    requires t.Valid() && 0 <= t.ResumeAt(d) <= |t.cs| && first <= t.ResumeAt(d)
    requires SessionStream(t, first, packets) && |faults| >= |packets|
    ensures var (after, end) := RunSession(t, d, packets, faults);
            && (LeftBehind(t, d, after, n, extra, readable) || (after == d && extra == []))
            && (end == SawEnd ==> LeftBehind(t, d, after, |t.cs|, [], readable))
            && (DoesHarm(t.o, Fresh(d.files, d.sidecars), packets, faults) <==> Leaves(t, n, extra, readable))
            && (AllSmooth(faults) ==> extra == [] && end != Aborted && (end != SawEnd ==> readable))
            && (end == StreamOver ==> End !in packets)
  {
    n, extra, readable := t.ResumeAt(d), [], true;
    if packets != [] {
      var r0 := Fresh(d.files, d.sidecars);
      var (r, outcome) := Process(t.o, r0, packets[0], faults[0]);
      StartSession(t, d, faults[0]);
      assert packets == [packets[0]] + packets[1..];
      hide Process, Midway, StreamPart, Transfer.Valid;
      if outcome == Continue {
        n, extra, readable := RestOfSession(t, d, r, n, first, packets[1..], faults[1..]);
      } else {
        var kept := t.KeptFile(d);
        assert kept + [] == kept;
        assert kept + Slice(t.cs, n, n) == kept;
      }
    }
  }

  /**
   The invariant over arbitrary sessions, with faults anywhere: an accurate directory stays accurate. If `end`
   was processed, the output file is the content exactly when there was no slack before the session; otherwise
   it is longer by just that slack. The slack grows exactly when the session does harm, and shrinks only when no
   record is left.
   */
  lemma SessionKeepsAccurate(t: Transfer, d: Dir, first: nat, packets: seq<Packet>, faults: seq<Faults>)
    requires t.Valid() && Accurate(t, d) && first <= t.ResumeAt(d)
    requires SessionStream(t, first, packets) && |faults| >= |packets|
    ensures var (after, end) := RunSession(t, d, packets, faults);
            && Accurate(t, after)
            && (end == SawEnd ==>
                  && t.id.name in after.files
                  && |after.files[t.id.name]| == |Slice(t.cs, 0, |t.cs|)| + Slack(t, d)
                  && (after.files[t.id.name] == Slice(t.cs, 0, |t.cs|) <==> Slack(t, d) == 0))
            && (Slack(t, after) > Slack(t, d) <==> DoesHarm(t.o, Fresh(d.files, d.sidecars), packets, faults))
            && (Slack(t, after) < Slack(t, d) ==> t.ResumeAt(after) == 0)
  {
    var (after, end) := RunSession(t, d, packets, faults);
    var n, extra, readable := SessionLeavesBehind(t, d, first, packets, faults);
    hide RunSession, DoesHarm;
    if LeftBehind(t, d, after, n, extra, readable) {
      LeftBehindIsAccurate(t, d, after, n, extra, readable);
    }
    if end == SawEnd {
      SawEndContent(t, d, after, readable);
    }
  }

  lemma SawEndContent(t: Transfer, d: Dir, after: Dir, readable: bool)
    requires t.Valid() && 0 <= t.ResumeAt(d) <= |t.cs| && LeftBehind(t, d, after, |t.cs|, [], readable)
    ensures t.id.name in after.files
    ensures after.files[t.id.name] == t.KeptFile(d) + Slice(t.cs, t.ResumeAt(d), |t.cs|)
    ensures |after.files[t.id.name]| == |Slice(t.cs, 0, |t.cs|)| + |t.KeptFile(d)| - |Slice(t.cs, 0, t.ResumeAt(d))|
    ensures after.files[t.id.name] == Slice(t.cs, 0, |t.cs|) <==> t.KeptFile(d) == Slice(t.cs, 0, t.ResumeAt(d))
  {
    var k := t.ResumeAt(d);
    SliceSplit(t.cs, 0, k, |t.cs|);
    var whole := t.KeptFile(d) + Slice(t.cs, k, |t.cs|);
    assert whole + [] == whole;
    assert |Slice(t.cs, 0, |t.cs|)| == |Slice(t.cs, 0, k)| + |Slice(t.cs, k, |t.cs|)|;
    if whole == Slice(t.cs, 0, |t.cs|) {
      assert t.KeptFile(d) == whole[..|t.KeptFile(d)|];
      assert Slice(t.cs, 0, k) == Slice(t.cs, 0, |t.cs|)[..|Slice(t.cs, 0, k)|];
    }
  }

  /**
   On any directory at all, also one with a stale sidecar: a session that processes `end` produces the content
   exactly when the part of the file it kept was the chunks it did not ask for.
   */
  lemma CompletesIffKeptPartIsRight(t: Transfer, d: Dir, first: nat, packets: seq<Packet>, faults: seq<Faults>)
    requires t.Valid() && 0 <= t.ResumeAt(d) <= |t.cs| && first <= t.ResumeAt(d)
    requires SessionStream(t, first, packets) && |faults| >= |packets|
    requires RunSession(t, d, packets, faults).1 == SawEnd
    ensures var files := RunSession(t, d, packets, faults).0.files;
            && t.id.name in files
            && (files[t.id.name] == Slice(t.cs, 0, |t.cs|) <==> t.KeptFile(d) == Slice(t.cs, 0, t.ResumeAt(d)))
  {
    var n, extra, readable := SessionLeavesBehind(t, d, first, packets, faults);
    SawEndContent(t, d, RunSession(t, d, packets, faults).0, readable);
  }

  /** When the sidecar says k > 0, the file is the first k chunks followed by a prefix of chunk k. */
  ghost predicate TellsPrefix(t: Transfer, d: Dir) {
    var k := t.ResumeAt(d);
    && 0 <= k <= |t.cs|
    && (k > 0 ==>
          && Slice(t.cs, 0, k) <= ContentOf(d.files, t.id.name)
          && (k < |t.cs| ==> ContentOf(d.files, t.id.name) <= Slice(t.cs, 0, k + 1))
          && (k == |t.cs| ==> ContentOf(d.files, t.id.name) == Slice(t.cs, 0, k)))
  }

  /** After one session on a directory without slack, however it ended, the sidecar tells a prefix. */
  lemma SidecarTellsPrefix(t: Transfer, d: Dir, first: nat, packets: seq<Packet>, faults: seq<Faults>)
    requires t.Valid() && Accurate(t, d) && Slack(t, d) == 0 && first <= t.ResumeAt(d)
    requires SessionStream(t, first, packets) && |faults| >= |packets|
    ensures TellsPrefix(t, RunSession(t, d, packets, faults).0)
  {
    var (after, end) := RunSession(t, d, packets, faults);
    var n, extra, readable := SessionLeavesBehind(t, d, first, packets, faults);
    hide RunSession;
    if after == d {
      var k := t.ResumeAt(d);
      if 0 < k < |t.cs| {
        SliceSplit(t.cs, 0, k, k + 1);
      }
    } else {
      RecordedPrefix(t, d, after, n, extra, readable);
    }
  }

  lemma RecordedPrefix(t: Transfer, d: Dir, after: Dir, n: nat, extra: Bytes, readable: bool)
    requires t.Valid() && Accurate(t, d) && Slack(t, d) == 0 && LeftBehind(t, d, after, n, extra, readable)
    ensures t.ResumeAt(after) == if readable && t.o.resume then n else 0
    ensures Slice(t.cs, 0, n) <= ContentOf(after.files, t.id.name)
    ensures n < |t.cs| ==> ContentOf(after.files, t.id.name) <= Slice(t.cs, 0, n + 1)
    ensures n == |t.cs| ==> ContentOf(after.files, t.id.name) == Slice(t.cs, 0, n)
  {
    SliceSplit(t.cs, 0, t.ResumeAt(d), n);
    assert t.KeptFile(d) == Slice(t.cs, 0, t.ResumeAt(d));
    if n < |t.cs| {
      assert Slice(t.cs, 0, n + 1) == Slice(t.cs, 0, n) + t.cs[n].data;
    }
    hide Slice;
    assert after.files[t.id.name] == Slice(t.cs, 0, n) + extra;
  }

  // ---------------------------------------------------------------------------------------------
  // Packets that are not what they should be
  // ---------------------------------------------------------------------------------------------

  /** Chunk packets announce the hash of the chunk with their index; what they carry may be anything. */
  ghost predicate Announces(t: Transfer, stream: seq<Packet>) {
    forall p | p in stream ::
      !p.Start? && (p.ChunkPacket? && p.index >= 0 ==> p.index < |t.cs| && p.hash == t.cs[p.index].hash)
  }

  /** No other data has the hash of a chunk. */
  ghost predicate NoSecondPreimage(t: Transfer) {
    forall i, x | 0 <= i < |t.cs| && t.o.hash(x) == t.cs[i].hash :: x == t.cs[i].data
  }

  lemma NoStarts(t: Transfer, stream: seq<Packet>)
    requires Announces(t, stream)
    ensures forall p | p in stream :: !p.Start?
  {
  }

  lemma PartIsOfChunk(t: Transfer, stream: seq<Packet>, p: Packet, i: nat, part: Bytes)
    requires Announces(t, stream) && NoSecondPreimage(t) && p in stream && PartOf(t.o, p, i, part)
    ensures i < |t.cs| && part <= t.cs[i].data
    ensures WholeOf(t.o, p, i, part) ==> part == t.cs[i].data
  {
  }

  /** Intact parts, one for each index from `k` on, are chunks, the last one possibly cut short. */
  lemma {:induction false} PartsAreChunks(t: Transfer, stream: seq<Packet>, k: nat,
                                          parts: seq<Bytes>, from: seq<nat>, m: nat)
    requires Announces(t, stream) && NoSecondPreimage(t) && Parts(t.o, k, stream, parts, from) && m < |parts|
    requires k <= |t.cs|
    ensures k + m < |t.cs| && parts[m] <= t.cs[k + m].data
    ensures Flatten(parts[..m]) == Slice(t.cs, k, k + m)
    decreases m
  {
    assert stream[from[m]] in stream;
    PartIsOfChunk(t, stream, stream[from[m]], k + m, parts[m]);
    hide PartOf, WholeOf, Announces, NoSecondPreimage;
    if m > 0 {
      PartsAreChunks(t, stream, k, parts, from, m - 1);
      assert stream[from[m - 1]] in stream;
      PartIsOfChunk(t, stream, stream[from[m - 1]], k + (m - 1), parts[m - 1]);
      FlattenSnoc(parts[..m - 1], parts[m - 1]);
      assert parts[..m] == parts[..m - 1] + [parts[m - 1]];
    }
  }

  lemma PartsTogether(t: Transfer, stream: seq<Packet>, k: nat, parts: seq<Bytes>, from: seq<nat>)
    requires Announces(t, stream) && NoSecondPreimage(t) && Parts(t.o, k, stream, parts, from) && parts != []
    requires k <= |t.cs|
    ensures var m := |parts| - 1;
            k + m < |t.cs| && parts[m] <= t.cs[k + m].data && Flatten(parts) == Slice(t.cs, k, k + m) + parts[m]
  {
    hide Announces, NoSecondPreimage, Parts, Slice;
    var m := |parts| - 1;
    PartsAreChunks(t, stream, k, parts, from, m);
    FlattenSnoc(parts[..m], parts[m]);
    assert parts == parts[..m] + [parts[m]];
  }

  /** From any state with an open file. */
  lemma StreamExtends(t: Transfer, r: RState, k: nat, stream: seq<Packet>, faults: seq<Faults>)
    returns (n: nat, extra: Bytes)
    requires r.outFile == Some(t.id.name) && r.nextIndex == k <= |t.cs| && |faults| >= |stream|
    requires Announces(t, stream) && NoSecondPreimage(t)
    ensures k <= n <= |t.cs| && (extra != [] ==> n < |t.cs| && extra <= t.cs[n].data)
    ensures var files := Receive(t.o, r, stream, faults).0.files;
            || (files == r.files && n == k && extra == [])
            || files == r.files[t.id.name := ContentOf(r.files, t.id.name) + (Slice(t.cs, k, n) + extra)]
  {
    hide Receive, ContentOf, Announces, NoSecondPreimage, Parts, Slice;
    assert forall p | p in stream :: !p.Start? by {
      NoStarts(t, stream);
    }
    n, extra := k, [];
    var parts, from := SessionWrites(t.o, r, stream, faults);
    if parts != [] {
      PartsTogether(t, stream, k, parts, from);
      n, extra := k + |parts| - 1, parts[|parts| - 1];
      hide Flatten;
    }
  }

  /**
   Whatever the packets carry, in whatever order they come, however often, and whatever fails: as long as they
   announce the right hashes, and these have no second preimage, the file is only ever extended by the true content.
   */
  lemma DamageIsRejected(t: Transfer, d: Dir, stream: seq<Packet>, f: Faults, faults: seq<Faults>)
    returns (n: nat, extra: Bytes)
    requires t.Valid() && 0 <= t.ResumeAt(d) <= |t.cs| && |faults| == |stream|
    requires Announces(t, stream) && NoSecondPreimage(t)
    ensures t.ResumeAt(d) <= n <= |t.cs| && (extra != [] ==> n < |t.cs| && extra <= t.cs[n].data)
    ensures var files := RunSession(t, d, [t.StartPacket()] + stream, [f] + faults).0.files;
            files == d.files || files == d.files[t.id.name := t.KeptFile(d) + (Slice(t.cs, t.ResumeAt(d), n) + extra)]
  {
    var r0, k := Fresh(d.files, d.sidecars), t.ResumeAt(d);
    n, extra := k, [];
    StartLeaves(t, d, f);
    hide Process, Transfer.Valid, Announces, NoSecondPreimage, ContentOf, Transfer.ResumeAt, Transfer.KeptFile;
    ReceiveCons(t.o, r0, t.StartPacket(), f, stream, faults);
    var (r, outcome) := Process(t.o, r0, t.StartPacket(), f);
    if outcome == Continue {
      n, extra := StreamExtends(t, r, k, stream, faults);
    }
    hide Receive, Slice;
    WriteOver(d.files, t.id.name, t.KeptFile(d), t.KeptFile(d) + (Slice(t.cs, k, n) + extra));
  }

  /** What `start` leaves of the files. */
  lemma StartLeaves(t: Transfer, d: Dir, f: Faults)
    requires t.Valid() && 0 <= t.ResumeAt(d) <= |t.cs|
    ensures var (r, outcome) := Process(t.o, Fresh(d.files, d.sidecars), t.StartPacket(), f);
            var k, kept := t.ResumeAt(d), t.KeptFile(d);
            && outcome != Ended && kept == kept + (Slice(t.cs, k, k) + [])
            && (outcome == Error ==> r.files == d.files || r.files == d.files[t.id.name := kept])
            && (outcome == Continue ==>
                  && r.files == d.files[t.id.name := kept] && ContentOf(r.files, t.id.name) == kept
                  && r.outFile == Some(t.id.name) && r.nextIndex == k)
  {
    StartSession(t, d, f);
    hide Process, Transfer.Valid;
    var kept := t.KeptFile(d);
    assert kept + Slice(t.cs, t.ResumeAt(d), t.ResumeAt(d)) == kept;
  }

  lemma WriteOver(files: map<string, Bytes>, name: string, once: Bytes, twice: Bytes)
    ensures files[name := once][name := twice] == files[name := twice]
  {
  }

  // ---------------------------------------------------------------------------------------------
  // Sessions cut between chunks
  // ---------------------------------------------------------------------------------------------

  /** Chunk packets only, from chunk `first` on. */
  ghost predicate ChunksFrom(t: Transfer, first: nat, stream: seq<Packet>) {
    StreamPart(t, first, stream) && End !in stream
  }

  /** Chunks that arrive without a fault are all written and recorded. */
  lemma {:induction false} SmoothChunks(t: Transfer, d: Dir, r: RState, n: nat,
                                        stream: seq<Packet>, faults: seq<Faults>)
    requires t.Valid() && Midway(t, d, r, n) && ChunksFrom(t, n, stream)
    requires |faults| == |stream| && AllSmooth(faults)
    ensures var (r', end) := Receive(t.o, r, stream, faults);
            end == StreamOver && n + |stream| <= |t.cs| && Midway(t, d, r', n + |stream|)
    decreases |stream|
  {
    hide Process, Midway, Carries, Transfer.Valid;
    if stream == [] {
      assert n <= |t.cs| by { MidwayBound(t, d, r, n); }
    } else {
      StreamPartHead(t, n, stream);
      assert stream[0] in stream;
      var extra, readable := OneChunk(t, d, r, n, stream[0], n, faults[0]);
      SmoothChunks(t, d, Process(t.o, r, stream[0], faults[0]).0, n + 1, stream[1..], faults[1..]);
    }
  }

  lemma {:induction false} ReceiveSnoc(o: Options, r: RState, packets: seq<Packet>, faults: seq<Faults>,
                                       p: Packet, f: Faults)
    requires |faults| == |packets| && Receive(o, r, packets, faults).1 == StreamOver
    ensures var r' := Receive(o, r, packets, faults).0;
            Receive(o, r, packets + [p], faults + [f]) == Receive(o, r', [p], [f])
    decreases |packets|
  {
    hide Process;
    if packets == [] {
      assert packets + [p] == [p] && faults + [f] == [f];
    } else {
      assert (packets + [p])[1..] == packets[1..] + [p] && (faults + [f])[1..] == faults[1..] + [f];
      ReceiveSnoc(o, Process(o, r, packets[0], faults[0]).0, packets[1..], faults[1..], p, f);
    }
  }

  /** A fault-free session of `start` and the chunks in `stream`. */
  function SmoothSession(t: Transfer, d: Dir, stream: seq<Packet>): (RState, SessionEnd) {
    Receive(t.o, Fresh(d.files, d.sidecars), [t.StartPacket()] + stream, seq(1 + |stream|, _ => SMOOTH))
  }

  lemma ReceiveCons(o: Options, r: RState, p: Packet, f: Faults, packets: seq<Packet>, faults: seq<Faults>)
    requires |faults| == |packets|
    ensures var (next, outcome) := Process(o, r, p, f);
            Receive(o, r, [p] + packets, [f] + faults) ==
              match outcome
              case Continue => Receive(o, next, packets, faults)
              case Ended => (next, SawEnd)
              case Error => (next, Aborted)
  {
    assert ([p] + packets)[1..] == packets && ([f] + faults)[1..] == faults;
    hide Process;
  }

  lemma SmoothSessionState(t: Transfer, d: Dir, stream: seq<Packet>)
    requires t.Valid() && 0 <= t.ResumeAt(d) <= |t.cs| && ChunksFrom(t, t.ResumeAt(d), stream)
    ensures var (r, end) := SmoothSession(t, d, stream);
            end == StreamOver && Midway(t, d, r, t.ResumeAt(d) + |stream|)
  {
    hide Midway, ChunksFrom, Process, Receive, Transfer.Valid, Transfer.ResumeAt;
    var r0, faults := Fresh(d.files, d.sidecars), seq(|stream|, _ => SMOOTH);
    assert seq(1 + |stream|, _ => SMOOTH) == [SMOOTH] + faults;
    assert AllSmooth(faults);
    StartSession(t, d, SMOOTH);
    ReceiveCons(t.o, r0, t.StartPacket(), SMOOTH, stream, faults);
    SmoothChunks(t, d, Process(t.o, r0, t.StartPacket(), SMOOTH).0, t.ResumeAt(d), stream, faults);
  }

  lemma {:induction false} SlicesDiffer(cs: seq<Chunk>, i: nat, j: nat)
    requires i <= |cs| && j <= |cs| && forall k | 0 <= k < |cs| :: cs[k].data != []
    ensures Slice(cs, 0, i) == Slice(cs, 0, j) <==> i == j
  {
    if i < j {
      SliceSplit(cs, 0, i, j);
    } else if j < i {
      SliceSplit(cs, 0, j, i);
    }
  }

  /**
   A stream that is over cleanly after a chunk makes the receiver return nil without `end`. Then the file is the
   chunks so far, and the content if and only if they are all.
   */
  lemma NilWithoutEnd(t: Transfer, d: Dir, stream: seq<Packet>)
    requires t.Valid() && Accurate(t, d) && Slack(t, d) == 0 && ChunksFrom(t, t.ResumeAt(d), stream)
    ensures var (r, end) := SmoothSession(t, d, stream);
            var n := t.ResumeAt(d) + |stream|;
            && ReturnsNil(r, end, true, false) && end != SawEnd
            && n <= |t.cs| && t.id.name in r.files && r.files[t.id.name] == Slice(t.cs, 0, n)
            && (r.files[t.id.name] == Slice(t.cs, 0, |t.cs|) <==> n == |t.cs|)
  {
    var r := SmoothSession(t, d, stream).0;
    var k := t.ResumeAt(d);
    SmoothSessionState(t, d, stream);
    MidwayBound(t, d, r, k + |stream|);
    SliceSplit(t.cs, 0, k, k + |stream|);
    assert t.KeptFile(d) == Slice(t.cs, 0, k);
    SlicesDiffer(t.cs, k + |stream|, |t.cs|);
  }

  // ---------------------------------------------------------------------------------------------
  // A chunk that is written but not recorded
  // ---------------------------------------------------------------------------------------------

  /** How many bytes of a chunk a fault leaves in the file behind a readable record that does not count them. */
  function Harm(o: Options, f: Faults, data: Bytes): nat {
    if f.write then (if f.written < |data| then f.written else |data|)
    else if (o.hasEngine && f.store) || (o.resume && f.persist == Kept) then |data| else 0
  }

  /** The record became unreadable: the next session starts from the beginning. */
  predicate Heals(o: Options, f: Faults) {
    o.resume && !f.write && !(o.hasEngine && f.store) && f.persist == Garbled
  }

  /** The slack once chunk `data` was processed. */
  function SlackWith(o: Options, f: Faults, data: Bytes, slack: int): int {
    if Heals(o, f) then 0 else slack + Harm(o, f, data)
  }

  lemma AcceptLeavesHarm(t: Transfer, d: Dir, r: RState, n: nat, f: Faults)
    requires t.Valid() && t.o.resume && Accurate(t, d) && Midway(t, d, r, n) && 0 < n < |t.cs|
    ensures var r' := Accept(t.o, r, t.cs[n].data, f).0;
            var after := Dir(r'.files, r'.sidecars);
            && Accurate(t, after)
            && Slack(t, after) == SlackWith(t.o, f, t.cs[n].data, Slack(t, d))
    ensures Accept(t.o, r, t.cs[n].data, f).1 == if Stops(t.o, f) then Error else Continue
  {
    assert r.outFile.Some?;
    hide Midway, LeftBehind, Accept, Transfer.Valid, Transfer.ResumeAt, Accurate, Slack;
    var (r', outcome) := Accept(t.o, r, t.cs[n].data, f);
    var after := Dir(r'.files, r'.sidecars);
    if Stops(t.o, f) {
      var extra, readable := AcceptFails(t, d, r, n, f);
      LeftBehindIsAccurate(t, d, after, n, extra, readable);
    } else {
      AcceptSucceeds(t, d, r, n, f);
      MidwayBound(t, d, r', n + 1);
      LeftBehindIsAccurate(t, d, after, n + 1, [], true);
    }
  }

  /** The session in which the chunks in `stream` go well and fault `f` strikes while `p` is processed. */
  function StruckSession(t: Transfer, d: Dir, stream: seq<Packet>, p: Packet, f: Faults): (Dir, SessionEnd) {
    RunSession(t, d, [t.StartPacket()] + stream + [p], seq(1 + |stream|, _ => SMOOTH) + [f])
  }

  /**
   Exactly what a fault at chunk n > 0 makes of the slack: the harm it does is added, and an unreadable record
   clears it.
   */
  lemma FaultMakesSlack(t: Transfer, d: Dir, stream: seq<Packet>, p: Packet, f: Faults)
    requires t.Valid() && t.o.resume && Accurate(t, d) && ChunksFrom(t, t.ResumeAt(d), stream)
    requires var n := t.ResumeAt(d) + |stream|; 0 < n && Carries(t.o.cipher, t.o.key, t.cs, n, p)
    ensures var after := StruckSession(t, d, stream, p, f).0;
            && Accurate(t, after)
            && Slack(t, after) == SlackWith(t.o, f, t.cs[t.ResumeAt(d) + |stream|].data, Slack(t, d))
  {
    var n := t.ResumeAt(d) + |stream|;
    var r := SmoothSession(t, d, stream).0;
    SmoothSessionState(t, d, stream);
    ReceiveSnoc(t.o, Fresh(d.files, d.sidecars), [t.StartPacket()] + stream, seq(1 + |stream|, _ => SMOOTH), p, f);
    AcceptLeavesHarm(t, d, r, n, f);
    LastChunk(t, d, r, n, p, f);
  }

  lemma LastChunk(t: Transfer, d: Dir, r: RState, n: nat, p: Packet, f: Faults)
    requires t.Valid() && Midway(t, d, r, n) && Carries(t.o.cipher, t.o.key, t.cs, n, p)
    ensures Receive(t.o, r, [p], [f]).0 == Accept(t.o, r, t.cs[n].data, f).0
  {
    var nonce :| t.o.cipher.Protect(t.o.key, nonce, t.cs[n].data) == Some(p.data);
    ProtectRoundTrip(t.o.cipher, t.o.key, nonce, t.cs[n].data);
    assert t.o.hash(t.cs[n].data) == p.hash;
    hide Accept;
  }

  /**
   A chunk written but not recorded is written again: the next session that processes `end` leaves a file that is
   longer than the content by the slack before and the harm, unless the fault cleared them. It is the content if and
   only if the fault cleared them, or there was no slack and the fault was harmless.
   */
  lemma HarmDoublesData(t: Transfer, d: Dir, stream: seq<Packet>, p: Packet, f: Faults,
                        first: nat, packets: seq<Packet>, faults: seq<Faults>)
    requires t.Valid() && t.o.resume && Accurate(t, d) && ChunksFrom(t, t.ResumeAt(d), stream)
    requires var n := t.ResumeAt(d) + |stream|; 0 < n && Carries(t.o.cipher, t.o.key, t.cs, n, p)
    requires SessionStream(t, first, packets) && |faults| >= |packets|
    requires var after := StruckSession(t, d, stream, p, f).0;
             first <= t.ResumeAt(after) && RunSession(t, after, packets, faults).1 == SawEnd
    ensures var files := RunSession(t, StruckSession(t, d, stream, p, f).0, packets, faults).0.files;
            && t.id.name in files
            && |files[t.id.name]| == |Slice(t.cs, 0, |t.cs|)|
                                   + SlackWith(t.o, f, t.cs[t.ResumeAt(d) + |stream|].data, Slack(t, d))
            && (files[t.id.name] == Slice(t.cs, 0, |t.cs|) <==>
                Heals(t.o, f) || (Slack(t, d) == 0 && Harmless(t.o, f)))
  {
    FaultMakesSlack(t, d, stream, p, f);
    assert t.cs[t.ResumeAt(d) + |stream|].data != [];
    hide StruckSession, RunSession, ChunksFrom;
    SessionKeepsAccurate(t, StruckSession(t, d, stream, p, f).0, first, packets, faults);
  }

  // ---------------------------------------------------------------------------------------------
  // Sessions of something else under the same name
  // ---------------------------------------------------------------------------------------------

  /** With Resume off no session touches a sidecar, whatever arrives and whatever fails. */
  lemma {:induction false} PlainSessionKeepsSidecars(o: Options, r: RState, packets: seq<Packet>, faults: seq<Faults>)
    requires !o.resume && |faults| >= |packets|
    ensures Receive(o, r, packets, faults).0.sidecars == r.sidecars
    decreases |packets|
  {
    if packets != [] {
      var (next, outcome) := Process(o, r, packets[0], faults[0]);
      assert next.sidecars == r.sidecars;
      hide Process;
      if outcome == Continue {
        PlainSessionKeepsSidecars(o, next, packets[1..], faults[1..]);
      }
    }
  }

  /** What a fault-free session of `u` leaves that delivers the chunks in `stream` and, if `ended`, `end`. */
  function Foreign(u: Transfer, d: Dir, stream: seq<Packet>, ended: bool): Dir {
    RunSession(u, d, [u.StartPacket()] + stream + (if ended then [End] else []),
               seq(1 + |stream|, _ => SMOOTH) + (if ended then [SMOOTH] else [])).0
  }

  /** The session has replaced or removed the sidecar. */
  predicate Overwrites(u: Transfer, delivered: nat, ended: bool) {
    u.o.resume && (delivered > 0 || ended)
  }

  ghost predicate ForeignResult(u: Transfer, d: Dir, left: Dir, j: nat, ended: bool) {
    && j <= |u.cs|
    && u.id.name in left.files && left.files[u.id.name] == Slice(u.cs, 0, j)
    && (!Overwrites(u, j, ended) ==> left.sidecars == d.sidecars)
    && (Overwrites(u, j, ended) ==>
          left.sidecars == if ended then d.sidecars - {u.id.name} else d.sidecars[u.id.name := u.Mark(j)])
  }

  lemma ChunksLeave(u: Transfer, d: Dir, r: RState, j: nat)
    requires u.ResumeAt(d) == 0 && Midway(u, d, r, j)
    ensures ForeignResult(u, d, Dir(r.files, r.sidecars), j, false)
  {
    MidwayBound(u, d, r, j);
    hide Slice;
    assert [] + Slice(u.cs, 0, j) == Slice(u.cs, 0, j);
  }

  lemma EndLeaves(u: Transfer, d: Dir, r: RState, j: nat)
    requires u.ResumeAt(d) == 0 && Midway(u, d, r, j)
    ensures var r' := Receive(u.o, r, [End], [SMOOTH]).0;
            ForeignResult(u, d, Dir(r'.files, r'.sidecars), j, true)
  {
    ChunksLeave(u, d, r, j);
    hide Slice;
    assert d.sidecars[u.id.name := u.Mark(j)] - {u.id.name} == d.sidecars - {u.id.name};
  }

  lemma ForeignLeaves(u: Transfer, d: Dir, stream: seq<Packet>, ended: bool)
    requires u.Valid() && u.ResumeAt(d) == 0 && ChunksFrom(u, 0, stream)
    ensures ForeignResult(u, d, Foreign(u, d, stream, ended), |stream|, ended)
  {
    var packets, faults := [u.StartPacket()] + stream, seq(1 + |stream|, _ => SMOOTH);
    assert packets + [] == packets && faults + [] == faults;
    var r := SmoothSession(u, d, stream).0;
    SmoothSessionState(u, d, stream);
    hide ForeignResult, Midway, ChunksFrom;
    if ended {
      ReceiveSnoc(u.o, Fresh(d.files, d.sidecars), packets, faults, End, SMOOTH);
      EndLeaves(u, d, r, |stream|);
      hide Receive;
    } else {
      ChunksLeave(u, d, r, |stream|);
      hide Receive;
    }
  }

  /**
   A session of `u`, which has the name of `t` but runs with Resume off or has another size or time, truncates the
   file and delivers some chunks. The next session of `t` that processes `end` leaves the content of `t` if and
   only if nothing of `t` was recorded, or the record was replaced, or the file happens to hold exactly what was
   recorded; when `u` is the same file received with Resume off, that means as many chunks as were recorded.
   */
  lemma StaleSidecarLosesData(t: Transfer, d: Dir, u: Transfer, stream: seq<Packet>, ended: bool,
                              first: nat, packets: seq<Packet>, faults: seq<Faults>)
    requires t.Valid() && t.o.resume && 0 <= t.ResumeAt(d) <= |t.cs|
    requires u.Valid() && u.id.name == t.id.name && (u.o.resume ==> u.id != t.id && u.ResumeAt(d) == 0)
    requires ChunksFrom(u, 0, stream)
    requires SessionStream(t, first, packets) && |faults| >= |packets|
    requires var left := Foreign(u, d, stream, ended);
             first <= t.ResumeAt(left) && RunSession(t, left, packets, faults).1 == SawEnd
    ensures var (k, j) := (t.ResumeAt(d), |stream|);
            var files := RunSession(t, Foreign(u, d, stream, ended), packets, faults).0.files;
            && j <= |u.cs| && t.id.name in files
            && (files[t.id.name] == Slice(t.cs, 0, |t.cs|) <==>
                k == 0 || Overwrites(u, j, ended) || Slice(u.cs, 0, j) == Slice(t.cs, 0, k))
            && (u.cs == t.cs ==> (Slice(u.cs, 0, j) == Slice(t.cs, 0, k) <==> j == k))
  {
    var left := Foreign(u, d, stream, ended);
    ForeignLeaves(u, d, stream, ended);
    assert t.ResumeAt(left) == if Overwrites(u, |stream|, ended) then 0 else t.ResumeAt(d);
    if u.cs == t.cs {
      SlicesDiffer(t.cs, |stream|, t.ResumeAt(d));
    }
    hide Foreign, RunSession, ChunksFrom;
    CompletesIffKeptPartIsRight(t, left, first, packets, faults);
  }

  // ---------------------------------------------------------------------------------------------
  // Sessions under other names
  // ---------------------------------------------------------------------------------------------

  /** No `start` of these packets is for the file `name`. */
  ghost predicate NotFor(name: string, packets: seq<Packet>) {
    forall p | p in packets && p.Start? :: Base(p.fileName) != name
  }

  /** The file and its sidecar are the same in both directories. */
  ghost predicate SameAt(name: string, d: Dir, d': Dir) {
    && (name in d.files <==> name in d'.files) && (name in d.files ==> d.files[name] == d'.files[name])
    && (name in d.sidecars <==> name in d'.sidecars)
    && (name in d.sidecars ==> d.sidecars[name] == d'.sidecars[name])
  }

  lemma OtherPacket(name: string, o: Options, r: RState, p: Packet, f: Faults)
    requires r.outFile != Some(name) && r.resumeName != Some(name) && (p.Start? ==> Base(p.fileName) != name)
    ensures var r' := Process(o, r, p, f).0;
            && SameAt(name, Dir(r.files, r.sidecars), Dir(r'.files, r'.sidecars))
            && r'.outFile != Some(name) && r'.resumeName != Some(name)
  {
    hide Base, Recorded;
  }

  /** A session for other files, whatever arrives and fails, leaves this file and its sidecar alone. */
  lemma {:induction false} OthersKeepOut(name: string, o: Options, r: RState,
                                         packets: seq<Packet>, faults: seq<Faults>)
    requires r.outFile != Some(name) && r.resumeName != Some(name)
    requires NotFor(name, packets) && |faults| >= |packets|
    ensures var r' := Receive(o, r, packets, faults).0;
            SameAt(name, Dir(r.files, r.sidecars), Dir(r'.files, r'.sidecars))
    decreases |packets|
  {
    if packets != [] {
      assert packets[0] in packets;
      OtherPacket(name, o, r, packets[0], faults[0]);
      hide Process;
      var next := Process(o, r, packets[0], faults[0]).0;
      assert forall p | p in packets[1..] :: p in packets;
      OthersKeepOut(name, o, next, packets[1..], faults[1..]);
    }
  }

  /** What a directory says about a transfer depends on its file and sidecar only. */
  lemma SameAtIsEnough(t: Transfer, d: Dir, d': Dir)
    requires SameAt(t.id.name, d, d')
    ensures t.ResumeAt(d') == t.ResumeAt(d)
    ensures 0 <= t.ResumeAt(d) <= |t.cs| ==> Slack(t, d') == Slack(t, d)
    ensures Accurate(t, d') <==> Accurate(t, d)
  {
    assert 0 <= t.ResumeAt(d) <= |t.cs| ==> Slack(t, d') == Slack(t, d);
  }
}

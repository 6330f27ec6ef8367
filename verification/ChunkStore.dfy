/**
 The content-addressed chunk store, apps/backend/internal/store/chunks.go: chunk files named by the hash of their
 data and an index of them, filled by any number of concurrent writers that go through a temporary file and may
 fail or crash at every point. The class `Store` runs one call while the others go on in between, and is proved to
 take only steps of the transition system.
 */
module ChunkStore {
  import opened Hasher
  import opened Wire

  // Whether the index and the chunk directory are configured.
  datatype Config = Config(hash: Bytes -> string, hasIndex: bool, hasDir: bool)

  datatype Row = Row(path: string, size: nat)

  // Where a WriteChunk call is: about to do what the name says.
  datatype Writer =
    | Idle
    | Preparing(data: Bytes)                // make the directory
    | Checking(data: Bytes)                 // stat the final name
    | Creating(data: Bytes)                 // create the temporary file
    | Filling(data: Bytes, tmp: string)
    | Closing(data: Bytes, tmp: string)
    | Renaming(data: Bytes, tmp: string)
    | Cleaning(data: Bytes, tmp: string, goOn: bool)
    | Indexing(data: Bytes)

  // `called` and `returned` hold the data of all WriteChunk calls, and of those that returned without an error.
  datatype State = State(
    files: map<string, Bytes>, index: map<string, Row>, writers: seq<Writer>,
    called: set<Bytes>, returned: set<Bytes>)

  datatype RenameOutcome = Moved | TargetExists | NotMoved

  datatype Step =
    | Call(w: nat, data: Bytes)
    | MakeDir(w: nat, fault: bool)
    | Stat(w: nat, fault: bool)
    | CreateTemp(w: nat, suffix: string, fault: bool)
    | WritePart(w: nat, n: nat)             // the write is under way
    | Write(w: nat, n: nat, fault: bool)    // it returns; a failing one leaves n bytes
    | Close(w: nat, fault: bool)
    | Rename(w: nat, outcome: RenameOutcome)
    | Cleanup(w: nat, fault: bool)
    | Upsert(w: nat, fault: bool)
    | Crash

  function ChunkName(hash: string): string {
    hash + ".chunk"
  }

  function TempName(hash: string, suffix: string): string {
    hash + "-" + suffix + ".tmp"
  }

  predicate IsTemp(name: string) {
    name != "" && name[|name| - 1] == 'p'
  }

  lemma NamesApart(hash: string, other: string, suffix: string)
    ensures IsTemp(TempName(hash, suffix)) && !IsTemp(ChunkName(hash))
    ensures ChunkName(hash) == ChunkName(other) <==> hash == other
  {
    assert ChunkName(hash)[..|hash|] == hash && ChunkName(other)[..|other|] == other;
  }

  function Final(c: Config, data: Bytes): string {
    ChunkName(c.hash(data))
  }

  function First(data: Bytes, n: nat): Bytes {
    if n < |data| then data[..n] else data
  }

  function Init(writers: nat): State {
    State(map[], map[], seq(writers, _ => Idle), {}, {})
  }

  predicate At(s: State, w: nat) {
    w < |s.writers|
  }

  predicate Enabled(c: Config, s: State, step: Step) {
    match step
    case Call(w, _) => At(s, w) && s.writers[w].Idle?
    case MakeDir(w, _) => At(s, w) && s.writers[w].Preparing?
    case Stat(w, _) => At(s, w) && s.writers[w].Checking?
    case CreateTemp(w, suffix, fault) =>
      At(s, w) && s.writers[w].Creating? && (fault || TempName(c.hash(s.writers[w].data), suffix) !in s.files)
    case WritePart(w, _) => At(s, w) && s.writers[w].Filling?
    case Write(w, _, _) => At(s, w) && s.writers[w].Filling?
    case Close(w, _) => At(s, w) && s.writers[w].Closing?
    case Rename(w, outcome) =>
      At(s, w) && s.writers[w].Renaming? && s.writers[w].tmp in s.files
      && (outcome == TargetExists ==> Final(c, s.writers[w].data) in s.files)
    case Cleanup(w, _) => At(s, w) && s.writers[w].Cleaning?
    case Upsert(w, _) => At(s, w) && s.writers[w].Indexing?
    case Crash => true
  }

  function Put(s: State, w: nat, writer: Writer): seq<Writer>
    requires At(s, w)
  {
    s.writers[w := writer]
  }

  function Apply(c: Config, s: State, step: Step): State
    requires Enabled(c, s, step)
  {
    match step
    case Call(w, data) =>
      var refused := data == [] || !c.hasIndex || !c.hasDir;
      s.(writers := Put(s, w, if refused then Idle else Preparing(data)), called := s.called + {data})
    case MakeDir(w, fault) => s.(writers := Put(s, w, if fault then Idle else Checking(s.writers[w].data)))
    case Stat(w, fault) =>
      var data := s.writers[w].data;
      s.(writers := Put(s, w, if fault then Idle
                              else if Final(c, data) in s.files then Indexing(data)
                              else Creating(data)))
    case CreateTemp(w, suffix, fault) =>
      var data := s.writers[w].data;
      var tmp := TempName(c.hash(data), suffix);
      s.(writers := Put(s, w, if fault then Idle else Filling(data, tmp)),
         files := if fault then s.files else s.files[tmp := []])
    case WritePart(w, n) => s.(files := s.files[s.writers[w].tmp := First(s.writers[w].data, n)])
    case Write(w, n, fault) =>
      var data, tmp := s.writers[w].data, s.writers[w].tmp;
      s.(writers := Put(s, w, if fault then Cleaning(data, tmp, false) else Closing(data, tmp)),
         files := s.files[tmp := if fault then First(data, n) else data])
    case Close(w, fault) =>
      var data, tmp := s.writers[w].data, s.writers[w].tmp;
      s.(writers := Put(s, w, if fault then Cleaning(data, tmp, false) else Renaming(data, tmp)))
    case Rename(w, outcome) =>
      var data, tmp := s.writers[w].data, s.writers[w].tmp;
      s.(writers := Put(s, w, if outcome == Moved then Indexing(data)
                              else Cleaning(data, tmp, outcome == TargetExists)),
         files := if outcome == Moved then (s.files - {tmp})[Final(c, data) := s.files[tmp]] else s.files)
    case Cleanup(w, fault) =>
      var writer := s.writers[w];
      s.(writers := Put(s, w, if writer.goOn then Indexing(writer.data) else Idle),
         files := if fault then s.files else s.files - {writer.tmp})
    case Upsert(w, fault) =>
      var data := s.writers[w].data;
      s.(writers := Put(s, w, Idle),
         index := if fault then s.index else s.index[c.hash(data) := Row(Final(c, data), |data|)],
         returned := if fault then s.returned else s.returned + {data})
    case Crash => s.(writers := seq(|s.writers|, _ => Idle))
  }

  predicate Reaches(c: Config, s: State, steps: seq<Step>, t: State)
    decreases |steps|
  {
    if steps == [] then s == t
    else Enabled(c, s, steps[0]) && Reaches(c, Apply(c, s, steps[0]), steps[1..], t)
  }

  /** ReadChunk: the file the index names. */
  function Read(c: Config, s: State, hash: string): Option<Bytes> {
    if !c.hasIndex || hash !in s.index || s.index[hash].path !in s.files then None
    else Some(s.files[s.index[hash].path])
  }

  /** VerifyChunk: None is an error. */
  function Verify(c: Config, s: State, hash: string): Option<bool> {
    match Read(c, s, hash)
    case None => None
    case Some(data) => Some(c.hash(data) == hash)
  }

  // ---------------------------------------------------------------------------------------------
  // The invariant
  // ---------------------------------------------------------------------------------------------

  ghost predicate FilesGood(c: Config, files: map<string, Bytes>, called: set<Bytes>) {
    forall h | ChunkName(h) in files ::
      c.hash(files[ChunkName(h)]) == h && files[ChunkName(h)] in called && files[ChunkName(h)] != []
  }

  ghost predicate RowGood(c: Config, returned: set<Bytes>, h: string, row: Row) {
    row.path == ChunkName(h) && exists d :: d in returned && c.hash(d) == h && row.size == |d|
  }

  ghost predicate IndexGood(c: Config, files: map<string, Bytes>, index: map<string, Row>, returned: set<Bytes>) {
    forall h | h in index :: ChunkName(h) in files && RowGood(c, returned, h, index[h])
  }

  predicate HasTemp(writer: Writer) {
    writer.Filling? || writer.Closing? || writer.Renaming? || writer.Cleaning?
  }

  predicate WriterGood(c: Config, files: map<string, Bytes>, called: set<Bytes>, writer: Writer) {
    && (!writer.Idle? ==> writer.data != [] && writer.data in called && c.hasIndex && c.hasDir)
    && (HasTemp(writer) ==> IsTemp(writer.tmp) && writer.tmp in files)
    && (writer.Closing? || writer.Renaming? ==> files[writer.tmp] == writer.data)
    && (writer.Indexing? || (writer.Cleaning? && writer.goOn) ==> Final(c, writer.data) in files)
  }

  predicate Apart(u: Writer, v: Writer) {
    HasTemp(u) && HasTemp(v) ==> u.tmp != v.tmp
  }

  ghost predicate WritersGood(c: Config, s: State) {
    && (forall w | 0 <= w < |s.writers| :: WriterGood(c, s.files, s.called, s.writers[w]))
    && (forall u, v | 0 <= u < v < |s.writers| :: Apart(s.writers[u], s.writers[v]))
  }

  ghost predicate ReturnedGood(c: Config, s: State) {
    && (forall d | d in s.returned :: d != [] && d in s.called && c.hash(d) in s.index)
    && (!c.hasIndex || !c.hasDir ==> s.files == map[] && s.returned == {})
  }

  ghost predicate Inv(c: Config, s: State) {
    && FilesGood(c, s.files, s.called) && IndexGood(c, s.files, s.index, s.returned)
    && WritersGood(c, s) && ReturnedGood(c, s)
  }

  lemma InitInv(c: Config, writers: nat)
    ensures Inv(c, Init(writers))
  {
  }

  // ---------------------------------------------------------------------------------------------
  // Every step keeps it
  // ---------------------------------------------------------------------------------------------

  /** Final names stay, and no temporary file but `mine` changes. */
  ghost predicate Evolves(files: map<string, Bytes>, files': map<string, Bytes>, mine: Option<string>) {
    && (forall name | name in files && !IsTemp(name) :: name in files')
    && (forall name | name in files && IsTemp(name) && Some(name) != mine ::
          name in files' && files'[name] == files[name])
  }

  /** One writer moves on while the others stay where they are. */
  lemma WriterMoves(c: Config, s: State, s': State, w: nat, writer: Writer, mine: Option<string>)
    requires WritersGood(c, s) && At(s, w) && s'.writers == s.writers[w := writer]
    requires s.called <= s'.called && WriterGood(c, s'.files, s'.called, writer)
    requires Evolves(s.files, s'.files, mine)
    requires HasTemp(writer) ==> Some(writer.tmp) == mine
    requires mine.None? || (HasTemp(s.writers[w]) && Some(s.writers[w].tmp) == mine) || mine.value !in s.files
    ensures WritersGood(c, s')
  {
    forall v | 0 <= v < |s.writers| && v != w
      ensures WriterGood(c, s'.files, s'.called, s.writers[v])
      ensures Apart(s.writers[v], writer) && Apart(writer, s.writers[v])
    {
      var other := s.writers[v];
      assert WriterGood(c, s.files, s.called, other);
      assert Apart(s.writers[if v < w then v else w], s.writers[if v < w then w else v]);
      NamesApart(if other.Idle? then "" else c.hash(other.data), "", "");
    }
  }

  lemma IndexStays(c: Config, s: State, s': State)
    requires IndexGood(c, s.files, s.index, s.returned) && s'.index == s.index && s.returned == s'.returned
    requires forall name | name in s.files && !IsTemp(name) :: name in s'.files
    ensures IndexGood(c, s'.files, s'.index, s'.returned)
  {
    forall h | h in s'.index
      ensures ChunkName(h) in s'.files && RowGood(c, s'.returned, h, s'.index[h])
    {
      NamesApart(h, h, "");
    }
  }

  /** Steps that only move a program point. */
  lemma PointStep(c: Config, s: State, step: Step)
    requires Inv(c, s) && Enabled(c, s, step)
    requires step.Call? || step.MakeDir? || step.Stat? || step.Close?
    ensures Inv(c, Apply(c, s, step))
  {
    var s' := Apply(c, s, step);
    var before := s.writers[step.w];
    assert WriterGood(c, s.files, s.called, before);
    IndexStays(c, s, s');
    WriterMoves(c, s, s', step.w, s'.writers[step.w], if HasTemp(before) then Some(before.tmp) else None);
  }

  /** Steps that only touch the writer's own temporary file. */
  lemma TempStep(c: Config, s: State, step: Step)
    requires Inv(c, s) && Enabled(c, s, step)
    requires step.CreateTemp? || step.WritePart? || step.Write? || step.Cleanup?
    ensures Inv(c, Apply(c, s, step))
  {
    var s' := Apply(c, s, step);
    var before, after := s.writers[step.w], s'.writers[step.w];
    assert WriterGood(c, s.files, s.called, before);
    var mine := if step.CreateTemp? then TempName(c.hash(before.data), step.suffix) else before.tmp;
    forall h
      ensures ChunkName(h) != mine
    {
      NamesApart(h, h, if step.CreateTemp? then step.suffix else "");
      NamesApart(c.hash(before.data), h, if step.CreateTemp? then step.suffix else "");
    }
    assert IsTemp(mine) by {
      if step.CreateTemp? {
        NamesApart(c.hash(before.data), "", step.suffix);
      }
    }
    IndexStays(c, s, s');
    WriterMoves(c, s, s', step.w, after, if step.CreateTemp? && step.fault then None else Some(mine));
  }

  lemma RenameStep(c: Config, s: State, w: nat, outcome: RenameOutcome)
    requires Inv(c, s) && Enabled(c, s, Rename(w, outcome))
    ensures Inv(c, Apply(c, s, Rename(w, outcome)))
  {
    var s' := Apply(c, s, Rename(w, outcome));
    var before := s.writers[w];
    assert WriterGood(c, s.files, s.called, before);
    var h := c.hash(before.data);
    forall k
      ensures ChunkName(k) != before.tmp && (ChunkName(k) == ChunkName(h) <==> k == h)
    {
      NamesApart(k, h, "");
    }
    IndexStays(c, s, s');
    WriterMoves(c, s, s', w, s'.writers[w], Some(before.tmp));
  }

  lemma UpsertStep(c: Config, s: State, w: nat, fault: bool)
    requires Inv(c, s) && Enabled(c, s, Upsert(w, fault))
    ensures Inv(c, Apply(c, s, Upsert(w, fault)))
  {
    var s' := Apply(c, s, Upsert(w, fault));
    var data := s.writers[w].data;
    assert WriterGood(c, s.files, s.called, s.writers[w]);
    if !fault {
      assert data in s'.returned && RowGood(c, s'.returned, c.hash(data), Row(Final(c, data), |data|));
      forall h | h in s.index
        ensures RowGood(c, s'.returned, h, s.index[h])
      {
        assert RowGood(c, s.returned, h, s.index[h]);
        var d :| d in s.returned && c.hash(d) == h && s.index[h].size == |d|;
        assert d in s'.returned;
      }
    }
    WriterMoves(c, s, s', w, Idle, None);
  }

  lemma CrashStep(c: Config, s: State)
    requires Inv(c, s)
    ensures Inv(c, Apply(c, s, Crash))
  {
    hide FilesGood, IndexGood;
  }

  lemma StepKeepsInv(c: Config, s: State, step: Step)
    requires Inv(c, s) && Enabled(c, s, step)
    ensures Inv(c, Apply(c, s, step))
  {
    hide Inv, Enabled, Apply;
    match step
    case Crash => CrashStep(c, s);
    case Rename(w, outcome) => RenameStep(c, s, w, outcome);
    case Upsert(w, fault) => UpsertStep(c, s, w, fault);
    case Call(_, _) => PointStep(c, s, step);
    case MakeDir(_, _) => PointStep(c, s, step);
    case Stat(_, _) => PointStep(c, s, step);
    case Close(_, _) => PointStep(c, s, step);
    case _ => TempStep(c, s, step);
  }

  lemma {:induction false} ReachesInv(c: Config, s: State, steps: seq<Step>, t: State)
    requires Inv(c, s) && Reaches(c, s, steps, t)
    ensures Inv(c, t)
    ensures s.returned <= t.returned && s.called <= t.called
    decreases |steps|
  {
    if steps != [] {
      StepKeepsInv(c, s, steps[0]);
      assert s.returned <= Apply(c, s, steps[0]).returned && s.called <= Apply(c, s, steps[0]).called;
      hide Inv, Enabled, Apply;
      ReachesInv(c, Apply(c, s, steps[0]), steps[1..], t);
    }
  }

  // ---------------------------------------------------------------------------------------------
  // Main results
  // ---------------------------------------------------------------------------------------------

  /**
   In every run of concurrent writers, with any faults and crashes: a file under a final name is never partial or
   wrong, it is the whole data of some WriteChunk call and hashes to its name; and every indexed hash is readable
   and verifies.
   */
  lemma StoreIsSound(c: Config, writers: nat, steps: seq<Step>, s: State, h: string)
    requires Reaches(c, Init(writers), steps, s)
    ensures ChunkName(h) in s.files ==> c.hash(s.files[ChunkName(h)]) == h && s.files[ChunkName(h)] in s.called
    ensures h in s.index ==> s.index[h].path == ChunkName(h) && ChunkName(h) in s.files
    ensures h in s.index && c.hasIndex ==> Verify(c, s, h) == Some(true)
  {
    InitInv(c, writers);
    ReachesInv(c, Init(writers), steps, s);
    assert h in s.index ==> RowGood(c, s.returned, h, s.index[h]);
  }

  /** No two of these contents have the same hash. */
  ghost predicate NoCollision(c: Config, contents: set<Bytes>) {
    forall a, b | a in contents && b in contents && c.hash(a) == c.hash(b) :: a == b
  }

  /** Without a collision among the data written, what a WriteChunk call stored is read back in every later state. */
  lemma ReadReturnsWritten(c: Config, writers: nat, steps: seq<Step>, s: State, more: seq<Step>, t: State, data: Bytes)
    requires Reaches(c, Init(writers), steps, s) && data in s.returned
    requires Reaches(c, s, more, t) && NoCollision(c, t.called)
    ensures Read(c, t, c.hash(data)) == Some(data)
    ensures t.index[c.hash(data)] == Row(Final(c, data), |data|)
  {
    InitInv(c, writers);
    ReachesInv(c, Init(writers), steps, s);
    ReachesInv(c, s, more, t);
    hide Reaches;
    assert RowGood(c, t.returned, c.hash(data), t.index[c.hash(data)]);
  }

  /**
   In every run: a hash can be read exactly when a WriteChunk call of data with this hash returned without an error;
   reading or verifying any other hash is an error. Without an index or a directory nothing is ever stored, and no
   empty chunk is.
   */
  lemma ReadableIffRecorded(c: Config, writers: nat, steps: seq<Step>, s: State, h: string)
    requires Reaches(c, Init(writers), steps, s)
    ensures Read(c, s, h).Some? <==> exists d :: d in s.returned && c.hash(d) == h
    ensures Verify(c, s, h) == if exists d :: d in s.returned && c.hash(d) == h then Some(true) else None
    ensures [] !in s.returned && (!c.hasIndex || !c.hasDir ==> s.files == map[] && s.returned == {})
  {
    InitInv(c, writers);
    ReachesInv(c, Init(writers), steps, s);
    hide Reaches;
    if h in s.index {
      assert RowGood(c, s.returned, h, s.index[h]);
    }
  }

  /** Files stand one to one with contents: two final names hold the same data only if they are the same name. */
  lemma FilesAreDistinct(c: Config, writers: nat, steps: seq<Step>, s: State, h: string, k: string)
    requires Reaches(c, Init(writers), steps, s) && ChunkName(h) in s.files && ChunkName(k) in s.files
    ensures s.files[ChunkName(h)] == s.files[ChunkName(k)] <==> h == k
  {
    StoreIsSound(c, writers, steps, s, h);
    StoreIsSound(c, writers, steps, s, k);
  }

  /**
   A file changed from outside fails the verification exactly when its hash differs from that of what was stored;
   without a collision, exactly when the data differs.
   */
  lemma TamperingIsDetected(c: Config, writers: nat, steps: seq<Step>, s: State, h: string, data: Bytes)
    requires Reaches(c, Init(writers), steps, s) && c.hasIndex && h in s.index
    ensures ChunkName(h) in s.files
    ensures var stored, result := s.files[ChunkName(h)], Verify(c, s.(files := s.files[ChunkName(h) := data]), h);
            && result == Some(c.hash(data) == c.hash(stored))
            && (NoCollision(c, s.called + {data}) ==> result == Some(data == stored))
  {
    StoreIsSound(c, writers, steps, s, h);
  }

  // ---------------------------------------------------------------------------------------------
  // Temporary files
  // ---------------------------------------------------------------------------------------------

  /** Some writer works on this temporary file. */
  ghost predicate Owned(writers: seq<Writer>, name: string) {
    exists w: nat :: w < |writers| && HasTemp(writers[w]) && writers[w].tmp == name
  }

  ghost predicate AllOwned(s: State) {
    forall name | name in s.files && IsTemp(name) :: Owned(s.writers, name)
  }

  /** The process does not crash, and a temporary file can be removed. */
  predicate Tidy(step: Step) {
    match step
    case Crash => false
    case Cleanup(_, fault) => !fault
    case _ => true
  }

  lemma OwnerStays(writers: seq<Writer>, w: nat, writer: Writer, name: string)
    requires w < |writers| && Owned(writers, name)
    requires HasTemp(writers[w]) && writers[w].tmp == name ==> HasTemp(writer) && writer.tmp == name
    ensures Owned(writers[w := writer], name)
  {
    var u: nat :| u < |writers| && HasTemp(writers[u]) && writers[u].tmp == name;
    assert writers[w := writer][u] == if u == w then writer else writers[u];
  }

  lemma NewOwner(writers: seq<Writer>, w: nat, writer: Writer)
    requires w < |writers| && HasTemp(writer)
    ensures Owned(writers[w := writer], writer.tmp)
  {
    assert writers[w := writer][w] == writer;
  }

  lemma StepKeepsOwned(c: Config, s: State, step: Step)
    requires Inv(c, s) && AllOwned(s) && Enabled(c, s, step) && Tidy(step)
    ensures AllOwned(Apply(c, s, step))
  {
    var s', w := Apply(c, s, step), step.w;
    var before, after := s.writers[w], s'.writers[w];
    assert WriterGood(c, s.files, s.called, before);
    if !before.Idle? {
      NamesApart(c.hash(before.data), "", "");
    }
    assert s'.writers == s.writers[w := after];
    forall name | name in s'.files && IsTemp(name)
      ensures Owned(s'.writers, name)
    {
      if HasTemp(after) && after.tmp == name {
        NewOwner(s.writers, w, after);
      } else {
        assert name in s.files;
        hide Owned;
        OwnerStays(s.writers, w, after, name);
      }
    }
  }

  lemma {:induction false} ReachesOwned(c: Config, s: State, steps: seq<Step>, t: State)
    requires Inv(c, s) && AllOwned(s) && Reaches(c, s, steps, t) && forall i | 0 <= i < |steps| :: Tidy(steps[i])
    ensures AllOwned(t)
    decreases |steps|
  {
    if steps != [] {
      StepKeepsInv(c, s, steps[0]);
      StepKeepsOwned(c, s, steps[0]);
      hide Inv, AllOwned, Enabled, Apply, Tidy;
      ReachesOwned(c, Apply(c, s, steps[0]), steps[1..], t);
    }
  }

  /**
   Temporary files are removed, also after failures: without a crash or a failing removal every temporary file is one
   that some writer works on, and when no call is under way there is none.
   */
  lemma NoTempIsLeft(c: Config, writers: nat, steps: seq<Step>, s: State, name: string)
    requires Reaches(c, Init(writers), steps, s) && forall i | 0 <= i < |steps| :: Tidy(steps[i])
    requires name in s.files && IsTemp(name)
    ensures exists w: nat :: w < |s.writers| && HasTemp(s.writers[w]) && s.writers[w].tmp == name
    ensures !forall w | 0 <= w < |s.writers| :: s.writers[w] == Idle
  {
    InitInv(c, writers);
    ReachesOwned(c, Init(writers), steps, s);
    assert Owned(s.writers, name);
  }

  lemma StepKeepsNames(c: Config, s: State, step: Step)
    requires Inv(c, s) && Enabled(c, s, step)
    ensures forall name | name in s.files && !IsTemp(name) :: name in Apply(c, s, step).files
  {
    if !step.Crash? {
      assert WriterGood(c, s.files, s.called, s.writers[step.w]);
    }
  }

  /** A file under a final name stays. */
  lemma {:induction false} NamesStay(c: Config, s: State, steps: seq<Step>, t: State, name: string)
    requires Inv(c, s) && Reaches(c, s, steps, t) && name in s.files && !IsTemp(name)
    ensures name in t.files
    decreases |steps|
  {
    if steps != [] {
      StepKeepsInv(c, s, steps[0]);
      StepKeepsNames(c, s, steps[0]);
      hide Inv, Enabled, Apply;
      NamesStay(c, Apply(c, s, steps[0]), steps[1..], t, name);
    }
  }

  lemma FinalStays(c: Config, s: State, steps: seq<Step>, t: State, data: Bytes)
    requires Inv(c, s) && Reaches(c, s, steps, t)
    ensures Final(c, data) in s.files ==> Final(c, data) in t.files
  {
    NamesApart(c.hash(data), "", "");
    hide Inv, Reaches;
    if Final(c, data) in s.files {
      NamesStay(c, s, steps, t, Final(c, data));
    }
  }

  // ---------------------------------------------------------------------------------------------
  // One writer
  // ---------------------------------------------------------------------------------------------

  lemma {:induction false} OneMoreStep(c: Config, s: State, steps: seq<Step>, t: State, step: Step)
    requires Reaches(c, s, steps, t) && Enabled(c, t, step)
    ensures Reaches(c, s, steps + [step], Apply(c, t, step))
    decreases |steps|
  {
    hide Enabled, Apply;
    if steps == [] {
      assert steps + [step] == [step] && [step][1..] == [];
    } else {
      OneMoreStep(c, Apply(c, s, steps[0]), steps[1..], t, step);
      assert (steps + [step])[1..] == steps[1..] + [step];
    }
  }

  // What happens to the calls made by one WriteChunk; a failing write leaves `written` bytes.
  datatype Faults = Faults(
    mkdir: bool, stat: bool, create: bool, write: bool, written: nat, close: bool, rename: RenameOutcome,
    remove: bool, upsert: bool)

  predicate Smooth(f: Faults) {
    !f.mkdir && !f.stat && !f.create && !f.write && !f.close && f.rename == Moved && !f.upsert
  }

  // What the start of a call finds: an error, or the final file missing or present.
  datatype Found = Stopped | Missing | Present

  function AfterStat(data: Bytes, found: Found): Writer {
    match found
    case Stopped => Idle
    case Missing => Creating(data)
    case Present => Indexing(data)
  }

  predicate ByOther(step: Step, w: nat) {
    !step.Crash? && step.w != w
  }

  class Store {
    const c: Config
    var files: map<string, Bytes>
    var index: map<string, Row>
    // Where every call is, and what was written so far.
    var writers: seq<Writer>
    var called: set<Bytes>
    var returned: set<Bytes>
    // The steps taken since the call under way began.
    ghost var steps: seq<Step>

    ghost function View(): State
      reads this
    {
      State(files, index, writers, called, returned)
    }

    constructor (c: Config, writers: nat)
      ensures this.c == c && View() == Init(writers) && steps == []
    {
      this.c := c;
      files, index, called, returned, steps := map[], map[], {}, {}, [];
      this.writers := seq(writers, _ => Idle);
    }

    /** The call of writer `w` began at `start`, has come to `writer`, and has not recorded the chunk. */
    ghost predicate Going(start: State, w: nat, writer: Writer)
      reads this
    {
      && Reaches(c, start, steps, View())
      && w < |writers| && writers[w] == writer
      && Upsert(w, false) !in steps
    }

    /** The call of writer `w` has created a temporary file, or tried to. */
    ghost predicate Creates(w: nat)
      reads this
    {
      exists i :: 0 <= i < |steps| && steps[i].CreateTemp? && steps[i].w == w
    }

    /** Records that the fields have just changed as `step` says. */
    ghost method Took(before: State, start: State, step: Step)
      requires Reaches(c, start, steps, before) && Enabled(c, before, step)
      requires Apply(c, before, step) == View()
      modifies `steps
      ensures steps == old(steps) + [step] && Reaches(c, start, steps, View())
    {
      hide Reaches, Apply, Enabled;
      OneMoreStep(c, start, steps, before, step);
      steps := steps + [step];
    }

    /** The other writers go on: of the given steps, those that are theirs and possible. */
    method Interfere(w: nat, others: seq<Step>, ghost start: State, ghost writer: Writer)
      requires Going(start, w, writer)
      modifies this
      ensures Going(start, w, writer) && |writers| == |old(writers)|
      ensures Creates(w) ==> old(Creates(w))
    {
      hide Reaches;
      for i := 0 to |others|
        invariant Going(start, w, writer) && |writers| == |old(writers)|
        invariant Creates(w) ==> old(Creates(w))
      {
        var s := State(files, index, writers, called, returned);
        if Enabled(c, s, others[i]) && ByOther(others[i], w) {
          var s' := Apply(c, s, others[i]);
          assert |s'.writers| == |s.writers| && s'.writers[w] == s.writers[w];
          hide Apply, Enabled;
          files, index, writers, called, returned := s'.files, s'.index, s'.writers, s'.called, s'.returned;
          Took(s, start, others[i]);
        }
      }
    }

    /** The checks at the start of the call, up to whether the final file is already there. */
    method Prepare(w: nat, data: Bytes, f: Faults, others: nat -> seq<Step>, ghost start: State)
      returns (found: Found)
      requires Inv(c, start) && Going(start, w, Idle) && !Creates(w)
      modifies this
      ensures |writers| == |old(writers)| && !Creates(w)
      ensures Final(c, data) in start.files ==> found != Missing
      ensures Going(start, w, AfterStat(data, found))
      ensures found == Stopped ==> data == [] || !c.hasIndex || !c.hasDir || !Smooth(f)
    {
      hide Reaches, Final;
      ghost var s := View();
      called := called + {data};
      if |data| == 0 || !c.hasIndex || !c.hasDir {
        Took(s, start, Call(w, data));
        return Stopped;
      }
      writers := writers[w := Preparing(data)];
      Took(s, start, Call(w, data));
      Interfere(w, others(0), start, Preparing(data));
      s := View();
      writers := writers[w := if f.mkdir then Idle else Checking(data)];
      Took(s, start, MakeDir(w, f.mkdir));
      if f.mkdir {
        return Stopped;
      }
      found := LookUp(w, data, f.stat, others(1), start);
    }

    method LookUp(w: nat, data: Bytes, fault: bool, others: seq<Step>, ghost start: State) returns (found: Found)
      requires Inv(c, start) && Going(start, w, Checking(data)) && !Creates(w)
      modifies this
      ensures |writers| == |old(writers)| && !Creates(w)
      ensures Final(c, data) in start.files ==> found != Missing
      ensures Going(start, w, AfterStat(data, found))
      ensures found == Stopped <==> fault
    {
      hide Reaches, Final;
      Interfere(w, others, start, Checking(data));
      ghost var s := View();
      FinalStays(c, start, steps, s, data);
      found := if fault then Stopped else if Final(c, data) in files then Present else Missing;
      writers := writers[w := AfterStat(data, found)];
      Took(s, start, Stat(w, fault));
    }

    /** Creates a temporary file; this also fails when the name is taken. */
    method OpenTemp(w: nat, data: Bytes, suffix: string, fault: bool, others: seq<Step>, ghost start: State)
      returns (ok: bool)
      requires Going(start, w, Creating(data))
      modifies this
      ensures |writers| == |old(writers)|
      ensures Going(start, w, if ok then Filling(data, TempName(c.hash(data), suffix)) else Idle)
      ensures !ok ==> fault || CreateTemp(w, suffix, true) in steps
    {
      hide Reaches, TempName;
      Interfere(w, others, start, Creating(data));
      ghost var s := View();
      var tmp := TempName(c.hash(data), suffix);
      ok := !fault && tmp !in files;
      if ok {
        files := files[tmp := []];
      }
      writers := writers[w := if ok then Filling(data, tmp) else Idle];
      Took(s, start, CreateTemp(w, suffix, !ok));
    }

    /** Writes the whole data; a failing write leaves the first `written` bytes. */
    method FillTemp(w: nat, data: Bytes, tmp: string, fault: bool, written: nat, others: seq<Step>, ghost start: State)
      requires Going(start, w, Filling(data, tmp))
      modifies this
      ensures |writers| == |old(writers)|
      ensures Going(start, w, if fault then Cleaning(data, tmp, false) else Closing(data, tmp))
    {
      hide Reaches, First;
      Interfere(w, others, start, Filling(data, tmp));
      ghost var s := View();
      files := files[tmp := if fault then First(data, written) else data];
      writers := writers[w := if fault then Cleaning(data, tmp, false) else Closing(data, tmp)];
      Took(s, start, Write(w, written, fault));
    }

    method CloseTemp(w: nat, data: Bytes, tmp: string, fault: bool, others: seq<Step>, ghost start: State)
      requires Going(start, w, Closing(data, tmp))
      modifies this
      ensures |writers| == |old(writers)|
      ensures Going(start, w, if fault then Cleaning(data, tmp, false) else Renaming(data, tmp))
    {
      hide Reaches;
      Interfere(w, others, start, Closing(data, tmp));
      ghost var s := View();
      writers := writers[w := if fault then Cleaning(data, tmp, false) else Renaming(data, tmp)];
      Took(s, start, Close(w, fault));
    }

    /** Moves the temporary file to its final name. That fails as `wanted`; a target can only exist if it does. */
    method RenameTemp(w: nat, data: Bytes, tmp: string, wanted: RenameOutcome, others: seq<Step>, ghost start: State)
      returns (outcome: RenameOutcome)
      requires Inv(c, start) && Going(start, w, Renaming(data, tmp))
      modifies this
      ensures |writers| == |old(writers)| && (outcome == Moved <==> wanted == Moved)
      ensures Going(start, w, if outcome == Moved then Indexing(data) else Cleaning(data, tmp, outcome == TargetExists))
    {
      hide Reaches, Final;
      Interfere(w, others, start, Renaming(data, tmp));
      ghost var s := View();
      ReachesInv(c, start, steps, s);
      assert WriterGood(c, s.files, s.called, s.writers[w]);
      hide Inv;
      outcome := if wanted == TargetExists && Final(c, data) !in files then NotMoved else wanted;
      if outcome == Moved {
        files := (files - {tmp})[Final(c, data) := files[tmp]];
      }
      writers := writers[w := if outcome == Moved then Indexing(data)
                              else Cleaning(data, tmp, outcome == TargetExists)];
      Took(s, start, Rename(w, outcome));
    }

    /** The clean-up of the temporary file. Its own failure is ignored. */
    method RemoveTemp(w: nat, data: Bytes, tmp: string, goOn: bool, fault: bool, others: seq<Step>, ghost start: State)
      requires Going(start, w, Cleaning(data, tmp, goOn))
      modifies this
      ensures |writers| == |old(writers)|
      ensures Going(start, w, if goOn then Indexing(data) else Idle)
    {
      hide Reaches;
      Interfere(w, others, start, Cleaning(data, tmp, goOn));
      ghost var s := View();
      if !fault {
        files := files - {tmp};
      }
      writers := writers[w := if goOn then Indexing(data) else Idle];
      Took(s, start, Cleanup(w, fault));
    }

    /**
     Writes the data to a temporary file and renames it; `ok` when a file is under the final name afterwards, also
     when another writer put it there first.
     */
    method CreateFile(w: nat, data: Bytes, suffix: string, f: Faults, others: nat -> seq<Step>, ghost start: State)
      returns (ok: bool)
      requires Inv(c, start) && Going(start, w, Creating(data))
      modifies this
      ensures |writers| == |old(writers)| && Going(start, w, if ok then Indexing(data) else Idle)
      ensures !ok ==> !Smooth(f) || CreateTemp(w, suffix, true) in steps
    {
      hide Reaches, TempName, Going, Inv;
      var tmp := TempName(c.hash(data), suffix);
      ok := OpenTemp(w, data, suffix, f.create, others(2), start);
      if !ok {
        return;
      }
      FillTemp(w, data, tmp, f.write, f.written, others(3), start);
      if f.write {
        RemoveTemp(w, data, tmp, false, f.remove, others(4), start);
        return false;
      }
      CloseTemp(w, data, tmp, f.close, others(4), start);
      if f.close {
        RemoveTemp(w, data, tmp, false, f.remove, others(5), start);
        return false;
      }
      var outcome := RenameTemp(w, data, tmp, f.rename, others(5), start);
      if outcome != Moved {
        RemoveTemp(w, data, tmp, outcome == TargetExists, f.remove, others(6), start);
      }
      return outcome != NotMoved;
    }

    method Record(w: nat, data: Bytes, fault: bool, others: seq<Step>, ghost start: State)
      requires Going(start, w, Indexing(data))
      modifies this
      ensures |writers| == |old(writers)| && w < |writers| && writers[w] == Idle
      ensures Creates(w) ==> old(Creates(w))
      ensures Reaches(c, start, steps, View())
      ensures Upsert(w, false) in steps <==> !fault
      ensures !fault ==> data in returned && c.hash(data) in index
                         && index[c.hash(data)] == Row(Final(c, data), |data|)
    {
      hide Reaches, Final;
      Interfere(w, others, start, Indexing(data));
      ghost var s := View();
      if !fault {
        index := index[c.hash(data) := Row(Final(c, data), |data|)];
        returned := returned + {data};
      }
      writers := writers[w := Idle];
      Took(s, start, Upsert(w, fault));
    }

    /**
     Stores one chunk while the other writers do whatever they want in between. The store changes only by steps of
     the transition system; the call answers without an error exactly when it recorded the chunk, and then the
     chunk can be read back unless its hash collides. Without a fault it fails only on arguments it refuses, or
     when the name of its temporary file was taken. A file that is there already is not made again.
     */
    method WriteChunk(w: nat, data: Bytes, suffix: string, f: Faults, others: nat -> seq<Step>)
      returns (stored: Option<(string, string, nat)>)
      requires Inv(c, View()) && w < |writers| && writers[w] == Idle
      modifies this
      ensures Inv(c, View()) && Reaches(c, old(View()), steps, View())
      ensures |writers| == |old(writers)| && writers[w] == Idle
      ensures stored.Some? <==> Upsert(w, false) in steps
      ensures stored.Some? ==> stored.value == (c.hash(data), c.hash(data) + ".chunk", |data|) && data in returned
      ensures Final(c, data) in old(files) ==> !Creates(w)
      ensures stored.Some? && NoCollision(c, called) ==> Read(c, View(), c.hash(data)) == Some(data)
      ensures stored.None? && Smooth(f) && data != [] && c.hasIndex && c.hasDir ==> CreateTemp(w, suffix, true) in steps
    {
      ghost var start := View();
      stored := Attempt(w, data, suffix, f, others, start);
      hide Reaches, Smooth;
      ReachesInv(c, start, steps, View());
      if stored.Some? {
        assert RowGood(c, returned, c.hash(data), index[c.hash(data)]);
      }
    }

    /** WriteChunk step by step. */
    method Attempt(w: nat, data: Bytes, suffix: string, f: Faults, others: nat -> seq<Step>, ghost start: State)
      returns (stored: Option<(string, string, nat)>)
      requires start == View() && Inv(c, start) && w < |writers| && writers[w] == Idle
      modifies this
      ensures Reaches(c, start, steps, View())
      ensures |writers| == |old(writers)| && writers[w] == Idle
      ensures stored.Some? <==> Upsert(w, false) in steps
      ensures Final(c, data) in start.files ==> !Creates(w)
      ensures stored.Some? ==> stored.value == (c.hash(data), Final(c, data), |data|) && data in returned
      ensures stored.Some? ==> c.hash(data) in index && index[c.hash(data)] == Row(Final(c, data), |data|)
      ensures stored.None? && Smooth(f) && data != [] && c.hasIndex && c.hasDir ==> CreateTemp(w, suffix, true) in steps
    {
      steps := [];
      assert Reaches(c, start, steps, start);
      hide Reaches, Final;
      var found := Prepare(w, data, f, others, start);
      if found == Stopped {
        return None;
      }
      if found == Missing {
        var created := CreateFile(w, data, suffix, f, others, start);
        if !created {
          return None;
        }
      }
      Record(w, data, f.upsert, others(7), start);
      return if f.upsert then None else Some((c.hash(data), Final(c, data), |data|));
    }

    method ReadChunk(hash: string) returns (r: Option<Bytes>)
      ensures r == Read(c, View(), hash)
    {
      if !c.hasIndex || hash !in index {
        return None;
      }
      var path := index[hash].path;
      if path !in files {
        return None;
      }
      return Some(files[path]);
    }

    method VerifyChunk(hash: string) returns (r: Option<bool>)
      ensures r == Verify(c, View(), hash)
    {
      var data := ReadChunk(hash);
      if data.None? {
        return None;
      }
      return Some(c.hash(data.value) == hash);
    }
  }
}

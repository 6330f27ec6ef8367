/**
 File transfer through the relay, apps/backend/internal/network/relay_transfer.go: a file is pushed as keyed
 pieces and a manifest, and rebuilt from whatever bag of pieces the inbox holds. `Outcome` is the meaning of
 ReceiveFile on such a bag; RelayReassembly proves what it writes.
 */
module RelayTransfer {
  import opened Hasher
  import opened Chunker
  import opened Wire
  import opened Decimal
  import opened RelayInbox
  import Receiver

  const MANIFEST_PREFIX := "manifest:"

  datatype Manifest = Manifest(
    transferId: string, fileName: string, totalSize: int, chunkCount: int, spaceId: string)

  /** The JSON encoding of manifests. */
  datatype Codec = Codec(encode: Manifest -> Bytes, decode: Bytes -> Option<Manifest>) {
    ghost predicate Inverts() {
      forall m :: decode(encode(m)) == Some(m)
    }
  }

  // The session key, and the receiver's lookup of space keys when it has an engine.
  datatype Setup = Setup(
    cipher: Cipher, codec: Codec, hash: Bytes -> string, key: Bytes, spaces: Option<string -> Option<Bytes>>)

  /** One file on its way: the arguments of SendFile, the random id, and what the file holds. */
  datatype Transfer = Transfer(id: string, path: string, spaceId: string, content: Bytes)

  // ---------------------------------------------------------------------------------------------
  // Keys
  // ---------------------------------------------------------------------------------------------

  function ChunkKey(id: string, index: int, hash: string): string {
    id + ":" + Itoa(index) + ":" + hash
  }

  function ManifestKey(id: string): string {
    MANIFEST_PREFIX + id
  }

  function IndexOf(s: string, c: char): (i: nat)
    ensures i <= |s|
    ensures c !in s[..i] && (i < |s| ==> s[i] == c)
  {
    if s == "" then 0
    else if s[0] == c then 0
    else
      var i := IndexOf(s[1..], c);
      assert s[..i + 1] == [s[0]] + s[1..][..i];
      i + 1
  }

  /** At most `n` parts, separated by the first occurrences of `c`. */
  function SplitN(s: string, c: char, n: nat): seq<string>
    decreases n
  {
    var i := IndexOf(s, c);
    if n <= 1 || i == |s| then [s] else [s[..i]] + SplitN(s[i + 1..], c, n - 1)
  }

  datatype ParsedKey = ParsedKey(id: string, index: int, hash: string)

  function ParseChunkKey(key: string): Option<ParsedKey> {
    var parts := SplitN(key, ':', 3);
    if |parts| != 3 then None
    else
      match Atoi(parts[1])
      case None => None
      case Some(index) => Some(ParsedKey(parts[0], index, parts[2]))
  }

  lemma {:induction false} IndexOfFirst(head: string, c: char, tail: string)
    requires c !in head
    ensures IndexOf(head + [c] + tail, c) == |head|
    decreases |head|
  {
    var s := head + [c] + tail;
    if head == "" {
      assert s[0] == c;
    } else {
      assert s[0] == head[0] && head[0] in head;
      assert s[1..] == head[1..] + [c] + tail;
      IndexOfFirst(head[1..], c, tail);
    }
  }

  lemma {:induction false} IndexOfAtMost(s: string, c: char, k: nat)
    requires k < |s| && s[k] == c
    ensures IndexOf(s, c) <= k
    decreases |s|
  {
    if s[0] != c {
      IndexOfAtMost(s[1..], c, k - 1);
    }
  }

  lemma SplitFirst(head: string, c: char, tail: string, n: nat)
    requires c !in head && n >= 2
    ensures SplitN(head + [c] + tail, c, n) == [head] + SplitN(tail, c, n - 1)
  {
    var s := head + [c] + tail;
    IndexOfFirst(head, c, tail);
    assert s[..|head|] == head && s[|head| + 1..] == tail;
  }

  lemma BuiltKeyParses(id: string, index: int, hash: string)
    requires -MAX_INT - 1 <= index <= MAX_INT && ':' !in id
    ensures ParseChunkKey(ChunkKey(id, index, hash)) == Some(ParsedKey(id, index, hash))
  {
    var number := Itoa(index);
    AtoiOfItoa(index);
    hide Itoa, Atoi, IndexOf;
    assert ChunkKey(id, index, hash) == id + [':'] + (number + [':'] + hash);
    SplitFirst(id, ':', number + [':'] + hash, 3);
    SplitFirst(number, ':', hash, 2);
    assert SplitN(hash, ':', 1) == [hash];
    hide SplitN;
    assert [id] + ([number] + [hash]) == [id, number, hash];
  }

  lemma ColonEndsId(id: string, rest: string)
    requires ':' in id
    ensures SplitN(id + rest, ':', 3)[0] != id
  {
    var j :| 0 <= j < |id| && id[j] == ':';
    assert (id + rest)[j] == ':';
    IndexOfAtMost(id + rest, ':', j);
  }

  lemma SplitParts(s: string, c: char, n: nat)
    requires n >= 2
    ensures var parts := SplitN(s, c, n);
            if c !in s then parts == [s]
            else c !in parts[0] && |parts[0]| < |s| && parts == [parts[0]] + SplitN(s[|parts[0]| + 1..], c, n - 1)
                 && s == parts[0] + [c] + s[|parts[0]| + 1..]
  {
    var i := IndexOf(s, c);
    if i == |s| {
      assert s[..i] == s;
    } else {
      assert s[i] in s;
      assert SplitN(s, c, n) == [s[..i]] + SplitN(s[i + 1..], c, n - 1);
      assert s == s[..i] + [s[i]] + s[i + 1..];
    }
  }

  lemma OnePart(s: string, c: char)
    ensures SplitN(s, c, 1) == [s]
  {
  }

  /** The key of a piece, taken apart: `number` is its index in text. */
  predicate Spells(key: string, k: ParsedKey, number: string) {
    key == k.id + [':'] + (number + [':'] + k.hash) && ':' !in k.id && ':' !in number && Atoi(number) == Some(k.index)
  }

  lemma SpelledParses(key: string, k: ParsedKey, number: string)
    requires Spells(key, k, number)
    ensures ParseChunkKey(key) == Some(k)
  {
    hide Atoi;
    SplitFirst(k.id, ':', number + [':'] + k.hash, 3);
    SplitFirst(number, ':', k.hash, 2);
    OnePart(k.hash, ':');
    hide SplitN;
    assert [k.id] + ([number] + [k.hash]) == [k.id, number, k.hash];
  }

  lemma KeySplits(key: string)
    requires |SplitN(key, ':', 3)| == 3
    ensures var parts := SplitN(key, ':', 3);
            key == parts[0] + [':'] + (parts[1] + [':'] + parts[2]) && ':' !in parts[0] && ':' !in parts[1]
  {
    hide SplitN;
    SplitParts(key, ':', 3);
    var first := SplitN(key, ':', 3)[0];
    var rest := key[|first| + 1..];
    SplitParts(rest, ':', 2);
    if ':' in rest {
      OnePart(rest[|SplitN(rest, ':', 2)[0]| + 1..], ':');
    }
  }

  /** A key is read as that of a piece exactly when it is an id and a number without colons, and a rest, in between. */
  lemma ParsesIff(key: string, k: ParsedKey)
    ensures ParseChunkKey(key) == Some(k) <==> exists number :: Spells(key, k, number)
  {
    if number :| Spells(key, k, number) {
      SpelledParses(key, k, number);
    }
    if ParseChunkKey(key) == Some(k) {
      KeySplits(key);
      hide SplitN, Atoi;
      assert Spells(key, k, SplitN(key, ':', 3)[1]);
    }
  }

  /** A built key is read back, whatever the hash holds, exactly when the transfer id has no colon. */
  lemma KeyRoundTrip(id: string, index: int, hash: string)
    requires -MAX_INT - 1 <= index <= MAX_INT
    ensures ParseChunkKey(ChunkKey(id, index, hash)) == Some(ParsedKey(id, index, hash)) <==> ':' !in id
  {
    hide SplitN, Itoa, Atoi;
    if ':' in id {
      ColonEndsId(id, ":" + Itoa(index) + ":" + hash);
      assert id + (":" + Itoa(index) + ":" + hash) == ChunkKey(id, index, hash);
    } else {
      BuiltKeyParses(id, index, hash);
    }
  }

  /** Keys of pieces with different ids, indices or hashes are different. */
  lemma ChunkKeyInjective(id: string, index: int, hash: string, id': string, index': int, hash': string)
    requires ':' !in id && ':' !in id'
    requires -MAX_INT - 1 <= index <= MAX_INT && -MAX_INT - 1 <= index' <= MAX_INT
    ensures ChunkKey(id, index, hash) == ChunkKey(id', index', hash') <==>
            id == id' && index == index' && hash == hash'
  {
    hide *;
    KeyRoundTrip(id, index, hash);
    KeyRoundTrip(id', index', hash');
  }

  predicate IsHex(id: string) {
    forall c | c in id :: '0' <= c <= '9' || 'a' <= c <= 'f'
  }

  /** The key of a piece is taken for that of a manifest exactly when its transfer is called "manifest". */
  lemma PieceOrManifest(id: string, index: int, hash: string)
    requires ':' !in id
    ensures MANIFEST_PREFIX <= ChunkKey(id, index, hash) <==> id == "manifest"
  {
    hide Itoa, IndexOf;
    var key := ChunkKey(id, index, hash);
    IndexOfFirst(id, ':', Itoa(index) + ":" + hash);
    assert key == id + [':'] + (Itoa(index) + ":" + hash);
    if MANIFEST_PREFIX <= key {
      assert key == "manifest" + [':'] + key[9..];
      IndexOfFirst("manifest", ':', key[9..]);
      assert id == key[..8] == "manifest";
    }
  }

  lemma HexIds(id: string)
    requires IsHex(id)
    ensures ':' !in id && id != "manifest"
  {
    assert 'm' in "manifest" by {
      assert "manifest"[0] == 'm';
    }
  }

  // ---------------------------------------------------------------------------------------------
  // What a transfer pushes
  // ---------------------------------------------------------------------------------------------

  function ManifestOf(e: Setup, t: Transfer): Manifest {
    Manifest(t.id, Receiver.Base(t.path), |t.content|, |Chunks(e.hash, t.content)|, t.spaceId)
  }

  function PieceKey(e: Setup, t: Transfer, i: nat): string
    requires i < |Chunks(e.hash, t.content)|
  {
    ChunkKey(t.id, i, Chunks(e.hash, t.content)[i].hash)
  }

  /** The bytes pushed for `plain`; only used where sealing succeeds. */
  function Sealed(e: Setup, nonce: Bytes, plain: Bytes): Bytes {
    match e.cipher.Protect(e.key, nonce, plain)
    case None => []
    case Some(data) => data
  }

  /** The pushes of one SendFile, in order: piece `i` uses nonce `i` and is pushed at time `clock(i)`. */
  function Pushes(e: Setup, t: Transfer, nonces: nat -> Bytes, clock: nat -> int): seq<RelayedChunk> {
    var chunks := Chunks(e.hash, t.content);
    Pieces(e, t.id, chunks, nonces, clock)
    + [RelayedChunk(ManifestKey(t.id), Sealed(e, nonces(|chunks|), e.codec.encode(ManifestOf(e, t))), clock(|chunks|))]
  }

  function Pieces(e: Setup, id: string, chunks: seq<Chunk>, nonces: nat -> Bytes, clock: nat -> int)
    : (ps: seq<RelayedChunk>)
    ensures |ps| == |chunks|
    ensures forall i | 0 <= i < |chunks| :: ps[i] == PieceOf(e, id, chunks[i], i, nonces, clock)
  {
    seq(|chunks|, i requires 0 <= i < |chunks| => PieceOf(e, id, chunks[i], i, nonces, clock))
  }

  function PieceOf(e: Setup, id: string, c: Chunk, i: nat, nonces: nat -> Bytes, clock: nat -> int): RelayedChunk {
    RelayedChunk(ChunkKey(id, i, c.hash), Sealed(e, nonces(i), c.data), clock(i))
  }

  function PushAll(boxes: Inboxes, recipient: string, pushes: seq<RelayedChunk>): Inboxes
    decreases |pushes|
  {
    if pushes == [] then boxes
    else Pushed(PushAll(boxes, recipient, pushes[..|pushes| - 1]), recipient, pushes[|pushes| - 1])
  }

  // ---------------------------------------------------------------------------------------------
  // What ReceiveFile makes of a bag
  // ---------------------------------------------------------------------------------------------

  datatype Collected = Collected(manifests: map<string, Manifest>, raw: map<string, map<int, Bytes>>)

  datatype Sorting = Sorted(c: Collected) | UndecryptableManifest | UnreadableManifest

  const NOTHING := Collected(map[], map[])

  function RawOf(c: Collected, id: string): map<int, Bytes> {
    if id in c.raw then c.raw[id] else map[]
  }

  /** One received push goes to the manifests or to the pieces; a key that cannot be parsed is skipped. */
  function Add(e: Setup, c: Collected, rc: RelayedChunk): Sorting {
    if MANIFEST_PREFIX <= rc.chunkHash then
      match e.cipher.Unprotect(e.key, rc.data)
      case None => UndecryptableManifest
      case Some(plain) =>
        match e.codec.decode(plain)
        case None => UnreadableManifest
        case Some(m) => Sorted(c.(manifests := c.manifests[rc.chunkHash[|MANIFEST_PREFIX|..] := m]))
    else
      match ParseChunkKey(rc.chunkHash)
      case None => Sorted(c)
      case Some(k) => Sorted(c.(raw := c.raw[k.id := RawOf(c, k.id)[k.index := rc.data]]))
  }

  function AddAll(e: Setup, c: Collected, rcs: seq<RelayedChunk>): Sorting
    decreases |rcs|
  {
    if rcs == [] then Sorted(c)
    else
      match Add(e, c, rcs[0])
      case Sorted(c') => AddAll(e, c', rcs[1..])
      case failed => failed
  }

  predicate Complete(c: Collected, id: string) {
    id in c.manifests && |RawOf(c, id)| >= c.manifests[id].chunkCount
  }

  ghost predicate LeastComplete(c: Collected, id: string) {
    Complete(c, id) && forall other | Complete(c, other) && other != id :: Less(id, other)
  }

  /** The session key, or else the key of the manifest's space, or else none; a failing lookup is None. */
  function KeyFor(e: Setup, m: Manifest): Option<Bytes> {
    if |e.key| > 0 then Some(e.key)
    else if e.spaces.Some? && m.spaceId != "" then e.spaces.value(m.spaceId)
    else Some([])
  }

  datatype Result =
    | Written(name: string, data: Bytes)
    | InboxEmpty
    | BadManifest
    | NoManifest
    | NoCompleteTransfer
    | NoSpaceKey
    | MissingChunk(index: int)
    | UndecryptableChunk(index: int)
    | Interrupted

  /** Pieces from `i` on, opened and put behind `soFar`. */
  function Rebuild(e: Setup, key: Bytes, m: Manifest, raw: map<int, Bytes>, i: int, soFar: Bytes): Result
    decreases m.chunkCount - i
  {
    if i >= m.chunkCount then Written(Receiver.Base(m.fileName), soFar)
    else if i !in raw then MissingChunk(i)
    else
      match e.cipher.Unprotect(key, raw[i])
      case None => UndecryptableChunk(i)
      case Some(plain) => Rebuild(e, key, m, raw, i + 1, soFar + plain)
  }

  function Deliver(e: Setup, c: Collected, id: string): Result
    requires id in c.manifests
  {
    match KeyFor(e, c.manifests[id])
    case None => NoSpaceKey
    case Some(key) => Rebuild(e, key, c.manifests[id], RawOf(c, id), 0, [])
  }

  /** The meaning of ReceiveFile without interruptions: the complete transfer with the least id is rebuilt. */
  ghost function Outcome(e: Setup, rcs: seq<RelayedChunk>): Result {
    if rcs == [] then InboxEmpty
    else
      match AddAll(e, NOTHING, rcs)
      case Sorted(c) =>
        if c.manifests == map[] then NoManifest
        else if exists id :: LeastComplete(c, id) then
          var id :| LeastComplete(c, id);
          Deliver(e, c, id)
        else NoCompleteTransfer
      case _ => BadManifest
  }

  // ---------------------------------------------------------------------------------------------
  // Sorting ids
  // ---------------------------------------------------------------------------------------------

  ghost predicate Ascending(ids: seq<string>) {
    forall i, j | 0 <= i < j < |ids| :: Less(ids[i], ids[j])
  }

  function Insert(id: string, ids: seq<string>): seq<string> {
    if ids == [] then [id]
    else if Less(id, ids[0]) then [id] + ids
    else [ids[0]] + Insert(id, ids[1..])
  }

  lemma {:induction false} InsertSpec(id: string, ids: seq<string>)
    requires Ascending(ids) && id !in ids
    ensures Ascending(Insert(id, ids))
    ensures forall x :: x in Insert(id, ids) <==> x == id || x in ids
    decreases |ids|
  {
    if ids == [] {
    } else if Less(id, ids[0]) {
      forall j | 0 <= j < |ids|
        ensures Less(id, ids[j])
      {
        if j > 0 {
          LessTransitive(id, ids[0], ids[j]);
        }
      }
    } else {
      var rest := Insert(id, ids[1..]);
      InsertSpec(id, ids[1..]);
      LessTotal(id, ids[0]);
      forall j | 0 <= j < |rest|
        ensures Less(ids[0], rest[j])
      {
        assert rest[j] in rest;
      }
      assert ids == [ids[0]] + ids[1..];
    }
  }

  /** The keys of a map in byte order. */
  method SortedIds(manifests: map<string, Manifest>) returns (ids: seq<string>)
    ensures Ascending(ids)
    ensures forall id :: id in ids <==> id in manifests
  {
    ids := [];
    var left := manifests.Keys;
    while left != {}
      invariant left <= manifests.Keys && Ascending(ids)
      invariant forall id :: id in ids <==> id in manifests && id !in left
      decreases |left|
    {
      var id :| id in left;
      left := left - {id};
      InsertSpec(id, ids);
      ids := Insert(id, ids);
    }
  }

  // ---------------------------------------------------------------------------------------------
  // The two operations
  // ---------------------------------------------------------------------------------------------

  lemma PushesShape(e: Setup, t: Transfer, nonces: nat -> Bytes, clock: nat -> int)
    ensures var pushes, chunks := Pushes(e, t, nonces, clock), Label(e.hash, Split(t.content), 0);
            var n := |chunks|;
            var m := Manifest(t.id, Receiver.Base(t.path), |t.content|, n, t.spaceId);
            && |pushes| == n + 1
            && (forall i: nat | i < n :: pushes[i] ==
                  RelayedChunk(ChunkKey(t.id, i, chunks[i].hash), Sealed(e, nonces(i), chunks[i].data), clock(i)))
            && pushes[n] == RelayedChunk(ManifestKey(t.id), Sealed(e, nonces(n), e.codec.encode(m)), clock(n))
  {
    hide Label, Split, ChunkKey, ManifestKey, Sealed;
  }

  /** The inboxes after the first `n` pushes of a transfer. */
  function After(e: Setup, t: Transfer, nonces: nat -> Bytes, clock: nat -> int,
                 boxes: Inboxes, recipient: string, n: nat): Inboxes
    requires n <= |Pushes(e, t, nonces, clock)|
  {
    PushAll(boxes, recipient, Pushes(e, t, nonces, clock)[..n])
  }

  lemma PushedOneMore(boxes: Inboxes, recipient: string, pushes: seq<RelayedChunk>, i: nat)
    requires i < |pushes|
    ensures PushAll(boxes, recipient, pushes[..i + 1])
         == Pushed(PushAll(boxes, recipient, pushes[..i]), recipient, pushes[i])
  {
    assert pushes[..i + 1][..i] == pushes[..i];
  }

  /** `idx` chunks are pushed, and `rest` at `offset` is still to be cut. */
  ghost predicate SentSoFar(hash: Bytes -> string, content: Bytes, rest: Bytes, offset: nat, idx: nat) {
    var chunks := Label(hash, Split(content), 0);
    idx <= |chunks| && chunks[..idx] + Label(hash, Split(rest), offset) == chunks
  }

  lemma StartOfSend(e: Setup, t: Transfer, nonces: nat -> Bytes, clock: nat -> int, boxes: Inboxes, recipient: string)
    ensures SentSoFar(e.hash, t.content, t.content, 0, 0)
    ensures After(e, t, nonces, clock, boxes, recipient, 0) == boxes
  {
  }

  lemma EndOfChunks(e: Setup, t: Transfer, nonces: nat -> Bytes, clock: nat -> int, offset: nat, idx: nat)
    requires SentSoFar(e.hash, t.content, [], offset, idx)
    ensures idx == |Pushes(e, t, nonces, clock)| - 1
  {
    hide Label, Split, Pushes;
    NoChunks(e.hash, offset);
    PushesShape(e, t, nonces, clock);
  }

  lemma SendStep(e: Setup, t: Transfer, nonces: nat -> Bytes, clock: nat -> int, boxes: Inboxes, recipient: string,
                 rest: Bytes, offset: nat, idx: nat)
    requires rest != [] && SentSoFar(e.hash, t.content, rest, offset, idx)
    ensures idx + 1 < |Pushes(e, t, nonces, clock)|
    ensures Pushes(e, t, nonces, clock)[idx].data == Sealed(e, nonces(idx), rest[..CutLen(rest)])
    ensures var n := CutLen(rest);
            && SentSoFar(e.hash, t.content, rest[n..], offset + n, idx + 1)
            && After(e, t, nonces, clock, boxes, recipient, idx + 1)
            == Pushed(After(e, t, nonces, clock, boxes, recipient, idx), recipient,
                      RelayedChunk(ChunkKey(t.id, idx, e.hash(rest[..n])), Sealed(e, nonces(idx), rest[..n]),
                                   clock(idx)))
  {
    hide Label, Split, CutLen, Pushes, Pushed, PushAll, ChunkKey, Sealed;
    PushesShape(e, t, nonces, clock);
    NextChunk(e.hash, rest, offset, Label(e.hash, Split(t.content), 0), idx);
    PushedOneMore(boxes, recipient, Pushes(e, t, nonces, clock), idx);
  }

  lemma LastStep(e: Setup, t: Transfer, nonces: nat -> Bytes, clock: nat -> int, boxes: Inboxes, recipient: string)
    requires |Pushes(e, t, nonces, clock)| > 0
    ensures var n := |Pushes(e, t, nonces, clock)| - 1;
            var m := Manifest(t.id, Receiver.Base(t.path), |t.content|, n, t.spaceId);
            && Pushes(e, t, nonces, clock)[n].data == Sealed(e, nonces(n), e.codec.encode(m))
            && After(e, t, nonces, clock, boxes, recipient, n + 1)
            == Pushed(After(e, t, nonces, clock, boxes, recipient, n), recipient,
                      RelayedChunk(ManifestKey(t.id), Sealed(e, nonces(n), e.codec.encode(m)), clock(n)))
  {
    hide Pushes, Pushed, PushAll, ManifestKey, Sealed, Label, Split;
    PushesShape(e, t, nonces, clock);
    PushedOneMore(boxes, recipient, Pushes(e, t, nonces, clock), |Pushes(e, t, nonces, clock)| - 1);
  }

  lemma NextChunk(hash: Bytes -> string, rest: Bytes, offset: nat, chunks: seq<Chunk>, idx: nat)
    requires rest != [] && idx <= |chunks| && chunks[..idx] + Label(hash, Split(rest), offset) == chunks
    ensures var n := CutLen(rest);
            && idx < |chunks| && chunks[idx] == Chunk(hash(rest[..n]), rest[..n], n, offset)
            && chunks[..idx + 1] + Label(hash, Split(rest[n..]), offset + n) == chunks
  {
    hide CutLen, Split, Label;
    ChunksStep(hash, rest, offset, chunks[..idx]);
    var n := CutLen(rest);
    var head, tail := chunks[..idx] + [Chunk(hash(rest[..n]), rest[..n], n, offset)],
                      Label(hash, Split(rest[n..]), offset + n);
    assert chunks == head + tail;
    assert head == chunks[..idx + 1];
    assert chunks[idx] == head[idx];
  }

  // Interruptions of ReceiveFile: the output file cannot be opened or closed, the context is cancelled before
  // chunk i, or the write of chunk i fails after `written` bytes.
  datatype Interruptions = Interruptions(
    open': bool, cancelled: nat -> bool, write: nat -> bool, written: nat, close: bool)

  ghost predicate Calm(x: Interruptions) {
    !x.open' && !x.close && forall i: nat :: !x.cancelled(i) && !x.write(i)
  }

  /** No other file was created, changed or removed. */
  predicate SameExcept(before: map<string, Bytes>, after: map<string, Bytes>, name: string) {
    after - {name} == before - {name}
  }

  /** What the relay takes. */
  predicate Takes(recipient: string, data: Bytes) {
    |data| <= 8388608 && recipient != ""
  }

  /** Push `i` of a transfer can be sealed and is taken. */
  ghost predicate TakenAt(e: Setup, t: Transfer, nonces: nat -> Bytes, clock: nat -> int, recipient: string, i: nat)
    requires i < |Pushes(e, t, nonces, clock)|
  {
    |e.key| in {0, 32} && Takes(recipient, Pushes(e, t, nonces, clock)[i].data)
  }

  ghost predicate AllTaken(e: Setup, t: Transfer, nonces: nat -> Bytes, clock: nat -> int, recipient: string, n: nat)
    requires n <= |Pushes(e, t, nonces, clock)|
  {
    forall i | 0 <= i < n :: TakenAt(e, t, nonces, clock, recipient, i)
  }

  lemma OneMoreTaken(e: Setup, t: Transfer, nonces: nat -> Bytes, clock: nat -> int, recipient: string, n: nat)
    requires n < |Pushes(e, t, nonces, clock)|
    ensures AllTaken(e, t, nonces, clock, recipient, n + 1) <==>
            && AllTaken(e, t, nonces, clock, recipient, n)
            && |e.key| in {0, 32} && Takes(recipient, Pushes(e, t, nonces, clock)[n].data)
  {
    assert TakenAt(e, t, nonces, clock, recipient, n) <==>
           |e.key| in {0, 32} && Takes(recipient, Pushes(e, t, nonces, clock)[n].data);
    hide Pushes, TakenAt;
  }

  lemma FewerTaken(e: Setup, t: Transfer, nonces: nat -> Bytes, clock: nat -> int, recipient: string, n: nat, m: nat)
    requires n <= m <= |Pushes(e, t, nonces, clock)|
    ensures AllTaken(e, t, nonces, clock, recipient, m) ==> AllTaken(e, t, nonces, clock, recipient, n)
    ensures AllTaken(e, t, nonces, clock, recipient, 0)
  {
    hide TakenAt;
  }

  datatype Round = OnePushed | AllCut | Stuck

  class FileRelay {
    const e: Setup
    const server: Server
    const files: Receiver.Disk

    constructor (e: Setup, server: Server, files: Receiver.Disk)
      ensures this.e == e && this.server == server && this.files == files
    {
      this.e, this.server, this.files := e, server, files;
    }

    /** Seals and pushes one message. */
    method Push(recipient: string, key: string, plain: Bytes, nonce: Bytes, now: int) returns (ok: bool)
      requires server.Valid()
      modifies server
      ensures server.Valid()
      ensures ok ==>
                server.boxes == Pushed(old(server.boxes), recipient, RelayedChunk(key, Sealed(e, nonce, plain), now))
      ensures !ok ==> server.boxes == old(server.boxes)
      ensures ok <==> |e.key| in {0, 32} && Takes(recipient, Sealed(e, nonce, plain))
    {
      hide Pushed;
      var sealed := e.cipher.Protect(e.key, nonce, plain);
      if sealed.None? {
        return false;
      }
      ok := server.Push(recipient, key, sealed.value, now);
    }

    /** One round of the loop: cuts the next chunk, seals and pushes it. */
    method PushNext(c: BufferedChunker, recipient: string, t: Transfer, nonces: nat -> Bytes, clock: nat -> int,
                    idx: nat, ghost before: Inboxes)
      returns (round: Round)
      requires c.Valid() && server.Valid() && {c, c.r, c.hasher, c.hasher.window} !! {server}
      requires c.hash == e.hash && SentSoFar(e.hash, t.content, c.Rest(), c.offset, idx)
      requires idx < |Pushes(e, t, nonces, clock)|
      requires server.boxes == After(e, t, nonces, clock, before, recipient, idx)
      modifies c, c.r, c.hasher, c.hasher.window, server
      ensures c.Valid() && server.Valid()
      ensures round == AllCut ==> idx == |Pushes(e, t, nonces, clock)| - 1
      ensures round == OnePushed ==>
                && SentSoFar(e.hash, t.content, c.Rest(), c.offset, idx + 1)
                && idx + 1 < |Pushes(e, t, nonces, clock)|
                && server.boxes == After(e, t, nonces, clock, before, recipient, idx + 1)
                && |c.Rest()| < |old(c.Rest())|
      ensures round != OnePushed ==> server.boxes == old(server.boxes)
      ensures Steady(old(c.r.script)) ==> Steady(c.r.script)
      ensures round == OnePushed ==>
                AllTaken(e, t, nonces, clock, recipient, idx) ==> AllTaken(e, t, nonces, clock, recipient, idx + 1)
      ensures round == Stuck && Steady(old(c.r.script)) ==>
                idx < |Pushes(e, t, nonces, clock)| && !AllTaken(e, t, nonces, clock, recipient, idx + 1)
    {
      hide *;
      ghost var rest, offset := c.Rest(), c.offset;
      var next := c.Next();
      match next
      case EndOfFile =>
        EndOfChunks(e, t, nonces, clock, offset, idx);
        return AllCut;
      case ReadFailed =>
        return Stuck;
      case Emit(chunk) =>
        SendStep(e, t, nonces, clock, before, recipient, rest, offset, idx);
        OneMoreTaken(e, t, nonces, clock, recipient, idx);
        var pushed := Push(recipient, ChunkKey(t.id, idx, chunk.hash), chunk.data, nonces(idx), clock(idx));
        return if pushed then OnePushed else Stuck;
    }

    /** Chunks, seals and pushes the file until its end or the first error. */
    method PushChunks(c: BufferedChunker, recipient: string, t: Transfer, nonces: nat -> Bytes, clock: nat -> int,
                      cancelled: nat -> bool)
      returns (ok: bool, idx: nat)
      requires c.Valid() && server.Valid() && {c, c.r, c.hasher, c.hasher.window} !! {server}
      requires c.hash == e.hash && c.offset == 0 && c.Rest() == t.content
      modifies c, c.r, c.hasher, c.hasher.window, server
      ensures server.Valid() && idx < |Pushes(e, t, nonces, clock)|
      ensures server.boxes == After(e, t, nonces, clock, old(server.boxes), recipient, idx)
      ensures ok ==> idx == |Pushes(e, t, nonces, clock)| - 1 && AllTaken(e, t, nonces, clock, recipient, idx)
      ensures !ok && Steady(old(c.r.script)) && (forall i :: !cancelled(i)) ==>
                !AllTaken(e, t, nonces, clock, recipient, |Pushes(e, t, nonces, clock)|)
    {
      hide *;
      idx := 0;
      FewerTaken(e, t, nonces, clock, recipient, 0, 0);
      PushesShape(e, t, nonces, clock);
      StartOfSend(e, t, nonces, clock, server.boxes, recipient);
      while true
        invariant c.Valid() && server.Valid()
        invariant SentSoFar(e.hash, t.content, c.Rest(), c.offset, idx) && idx < |Pushes(e, t, nonces, clock)|
        invariant server.boxes == After(e, t, nonces, clock, old(server.boxes), recipient, idx)
        invariant Steady(old(c.r.script)) ==> Steady(c.r.script)
        invariant AllTaken(e, t, nonces, clock, recipient, idx)
        decreases |c.Rest()|
      {
        if cancelled(idx) {
          return false, idx;
        }
        var round := PushNext(c, recipient, t, nonces, clock, idx, old(server.boxes));
        if round != OnePushed {
          FewerTaken(e, t, nonces, clock, recipient, idx + 1, |Pushes(e, t, nonces, clock)|);
          return round == AllCut, idx;
        }
        idx := idx + 1;
      }
    }

    /**
     Pushes the chunks of the file in order, then the manifest. An error at any point leaves a prefix of these
     pushes in the inbox.
     */
    method SendFile(c: BufferedChunker, recipient: string, t: Transfer, nonces: nat -> Bytes, clock: nat -> int,
                    cancelled: nat -> bool)
      returns (ok: bool, ghost sent: nat)
      requires c.Valid() && server.Valid() && {c, c.r, c.hasher, c.hasher.window} !! {server}
      requires c.hash == e.hash && c.offset == 0 && c.Rest() == t.content
      modifies c, c.r, c.hasher, c.hasher.window, server
      ensures server.Valid() && sent <= |Pushes(e, t, nonces, clock)|
      ensures server.boxes == After(e, t, nonces, clock, old(server.boxes), recipient, sent)
      ensures ok <==> sent == |Pushes(e, t, nonces, clock)|
      ensures ok ==> |e.key| in {0, 32} && AllTaken(e, t, nonces, clock, recipient, sent)
      ensures Steady(old(c.r.script)) && (forall i :: !cancelled(i)) ==>
                (ok <==> AllTaken(e, t, nonces, clock, recipient, |Pushes(e, t, nonces, clock)|))
    {
      hide *;
      var pushed, idx := PushChunks(c, recipient, t, nonces, clock, cancelled);
      sent := idx;
      if !pushed {
        return false, sent;
      }
      var m := Manifest(t.id, Receiver.Base(t.path), |t.content|, idx, t.spaceId);
      LastStep(e, t, nonces, clock, old(server.boxes), recipient);
      OneMoreTaken(e, t, nonces, clock, recipient, idx);
      ok := Push(recipient, ManifestKey(t.id), e.codec.encode(m), nonces(idx), clock(idx));
      if ok {
        sent := idx + 1;
      }
    }

    /** Sorts what was pulled into manifests and pieces. */
    method SortOut(chunks: seq<RelayedChunk>) returns (sorting: Sorting)
      ensures sorting == AddAll(e, NOTHING, chunks)
    {
      var manifests: map<string, Manifest> := map[];
      var rawChunks: map<string, map<int, Bytes>> := map[];
      for i := 0 to |chunks|
        invariant AddAll(e, Collected(manifests, rawChunks), chunks[i..]) == AddAll(e, NOTHING, chunks)
      {
        var rc := chunks[i];
        assert chunks[i..][1..] == chunks[i + 1..];
        if MANIFEST_PREFIX <= rc.chunkHash {
          var transferId := rc.chunkHash[|MANIFEST_PREFIX|..];
          var raw := e.cipher.Unprotect(e.key, rc.data);
          if raw.None? {
            return UndecryptableManifest;
          }
          var m := e.codec.decode(raw.value);
          if m.None? {
            return UnreadableManifest;
          }
          manifests := manifests[transferId := m.value];
        } else {
          var k := ParseChunkKey(rc.chunkHash);
          if k.Some? {
            var ofTransfer := if k.value.id in rawChunks then rawChunks[k.value.id] else map[];
            rawChunks := rawChunks[k.value.id := ofTransfer[k.value.index := rc.data]];
          }
        }
      }
      return Sorted(Collected(manifests, rawChunks));
    }

    /** Rebuilds one complete transfer into its output file. */
    method WriteOut(c: Collected, id: string, x: Interruptions) returns (result: Result)
      requires id in c.manifests
      modifies files`files
      ensures result == Deliver(e, c, id) || (!Calm(x) && result == Interrupted)
      ensures result.Written? ==> files.files == old(files.files)[result.name := result.data]
      ensures SameExcept(old(files.files), files.files, Receiver.Base(c.manifests[id].fileName))
    {
      hide RawOf, Receiver.Base, Receiver.ContentOf;
      var m, encrypted := c.manifests[id], RawOf(c, id);
      var key := KeyFor(e, m);
      if key.None? {
        return NoSpaceKey;
      }
      var name := Receiver.Base(m.fileName);
      if x.open' {
        return Interrupted;
      }
      files.files := files.files[name := []];
      var i := 0;
      while i < m.chunkCount
        invariant 0 <= i && name in files.files && files.files == old(files.files)[name := files.files[name]]
        invariant Rebuild(e, key.value, m, encrypted, i, files.files[name]) == Deliver(e, c, id)
      {
        if x.cancelled(i) {
          return Interrupted;
        }
        if i !in encrypted {
          return MissingChunk(i);
        }
        var plain := e.cipher.Unprotect(key.value, encrypted[i]);
        if plain.None? {
          return UndecryptableChunk(i);
        }
        if x.write(i) {
          AppendTo(name, plain.value[..if x.written < |plain.value| then x.written else |plain.value|]);
          return Interrupted;
        }
        AppendTo(name, plain.value);
        i := i + 1;
      }
      if x.close {
        return Interrupted;
      }
      return Written(name, files.files[name]);
    }

    method AppendTo(name: string, data: Bytes)
      requires name in files.files
      modifies files`files
      ensures files.files == old(files.files)[name := old(files.files[name]) + data]
    {
      files.Append(name, data);
    }

    /**
     Takes everything out of the inbox and writes the complete transfer with the least id. Interrupted or not, it
     reports no other result than that of the bag, and touches no other file.
     */
    method ReceiveFile(peer: string, x: Interruptions) returns (result: Result, ghost touched: string)
      requires server.Valid()
      modifies server, files`files
      ensures server.Valid() && server.boxes == old(server.boxes) - {peer}
      ensures result == Outcome(e, Buffered(old(server.boxes), peer)) || (!Calm(x) && result == Interrupted)
      ensures result.Written? ==> files.files == old(files.files)[result.name := result.data]
      ensures SameExcept(old(files.files), files.files, touched)
    {
      hide Calm, Deliver, AddAll, Buffered, LeastComplete, RawOf, FileRelay.server;
      touched := "";
      var chunks := server.Pull(peer);
      if |chunks| == 0 {
        return InboxEmpty, touched;
      }
      var sorting := SortOut(chunks);
      if !sorting.Sorted? {
        return BadManifest, touched;
      }
      var c := sorting.c;
      if |c.manifests| == 0 {
        return NoManifest, touched;
      }
      var ids := SortedIds(c.manifests);
      for k := 0 to |ids|
        invariant forall j | 0 <= j < k :: !Complete(c, ids[j])
        invariant files.files == old(files.files)
      {
        if Complete(c, ids[k]) {
          FirstIsLeast(c, ids, k);
          OutcomeOfLeast(e, chunks, c, ids[k]);
          touched := Receiver.Base(c.manifests[ids[k]].fileName);
          result := WriteOut(c, ids[k], x);
          return;
        }
      }
      NoneComplete(e, chunks, c, ids);
      return NoCompleteTransfer, touched;
    }
  }

  lemma FirstIsLeast(c: Collected, ids: seq<string>, k: nat)
    requires k < |ids| && Ascending(ids) && (forall id :: id in ids <==> id in c.manifests)
    requires Complete(c, ids[k]) && forall j | 0 <= j < k :: !Complete(c, ids[j])
    ensures LeastComplete(c, ids[k])
  {
    forall other | Complete(c, other) && other != ids[k]
      ensures Less(ids[k], other)
    {
      var j :| 0 <= j < |ids| && ids[j] == other;
      assert k < j;
    }
  }

  lemma OutcomeOfLeast(e: Setup, rcs: seq<RelayedChunk>, c: Collected, id: string)
    requires rcs != [] && AddAll(e, NOTHING, rcs) == Sorted(c) && LeastComplete(c, id)
    ensures id in c.manifests && Outcome(e, rcs) == Deliver(e, c, id)
  {
    hide AddAll, Deliver, RawOf;
    assert c.manifests != map[];
    var chosen :| LeastComplete(c, chosen) && Outcome(e, rcs) == Deliver(e, c, chosen);
    LessTotal(id, chosen);
  }

  lemma NoneComplete(e: Setup, rcs: seq<RelayedChunk>, c: Collected, ids: seq<string>)
    requires rcs != [] && AddAll(e, NOTHING, rcs) == Sorted(c) && c.manifests != map[]
    requires (forall id :: id in ids <==> id in c.manifests) && forall j | 0 <= j < |ids| :: !Complete(c, ids[j])
    ensures Outcome(e, rcs) == NoCompleteTransfer
  {
    hide AddAll, Deliver, RawOf;
    forall id
      ensures !LeastComplete(c, id)
    {
      if id in c.manifests {
        var j :| 0 <= j < |ids| && ids[j] == id;
      }
    }
  }
}

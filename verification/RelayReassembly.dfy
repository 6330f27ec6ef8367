/**
 What ReceiveFile writes for a bag of honest pushes: however they are reordered, lost or duplicated, and however
 many transfers they come from, the result is the original file of the complete transfer with the least id.
 */
module RelayReassembly {
  import opened Hasher
  import opened Chunker
  import opened Wire
  import opened Decimal
  import opened RelayInbox
  import opened RelayTransfer

  function ChunksOf(e: Setup, t: Transfer): seq<Chunk> {
    Chunks(e.hash, t.content)
  }

  // ---------------------------------------------------------------------------------------------
  // Honest pushes
  // ---------------------------------------------------------------------------------------------

  /** The data is `plain`, sealed under the session key with some nonce. */
  ghost predicate Seals(e: Setup, data: Bytes, plain: Bytes) {
    exists nonce :: e.cipher.Protect(e.key, nonce, plain) == Some(data)
  }

  ghost predicate IsManifest(e: Setup, t: Transfer, rc: RelayedChunk) {
    rc.chunkHash == ManifestKey(t.id) && Seals(e, rc.data, e.codec.encode(ManifestOf(e, t)))
  }

  ghost predicate IsPiece(e: Setup, t: Transfer, i: nat, rc: RelayedChunk) {
    && i < |ChunksOf(e, t)|
    && rc.chunkHash == PieceKey(e, t, i)
    && Seals(e, rc.data, ChunksOf(e, t)[i].data)
  }

  ghost predicate HonestFor(e: Setup, t: Transfer, rc: RelayedChunk) {
    IsManifest(e, t, rc) || exists i: nat :: IsPiece(e, t, i, rc)
  }

  ghost predicate Honest(e: Setup, ts: set<Transfer>, rc: RelayedChunk) {
    exists t :: t in ts && HonestFor(e, t, rc)
  }

  ghost predicate AllHonest(e: Setup, ts: set<Transfer>, rcs: seq<RelayedChunk>) {
    forall rc | rc in rcs :: Honest(e, ts, rc)
  }

  /** One key, an inverting cipher and codec; transfers have different hexadecimal ids; file sizes are 64-bit. */
  ghost predicate Sound(e: Setup, ts: set<Transfer>) {
    && e.cipher.Inverts() && e.codec.Inverts()
    && (forall t | t in ts :: IsHex(t.id) && |t.content| <= MAX_INT)
    && forall t, u | t in ts && u in ts && t.id == u.id :: t == u
  }

  predicate HasKey(rcs: seq<RelayedChunk>, key: string) {
    exists rc | rc in rcs :: rc.chunkHash == key
  }

  /** The bag holds the manifest and every piece of the transfer. */
  ghost predicate Delivered(e: Setup, t: Transfer, rcs: seq<RelayedChunk>) {
    HasKey(rcs, ManifestKey(t.id)) && forall i: nat | i < |ChunksOf(e, t)| :: HasKey(rcs, PieceKey(e, t, i))
  }

  /** Everything one SendFile pushes is honest, and all of it together is a delivered transfer. */
  lemma SentIsHonest(e: Setup, t: Transfer, nonces: nat -> Bytes, clock: nat -> int)
    requires |e.key| in {0, SPACE_KEY_SIZE}
    ensures AllHonest(e, {t}, Pushes(e, t, nonces, clock))
    ensures Delivered(e, t, Pushes(e, t, nonces, clock))
  {
    var pushes, chunks := Pushes(e, t, nonces, clock), ChunksOf(e, t);
    PushesShape(e, t, nonces, clock);
    hide Pushes, Label, Split, ChunkKey, ManifestKey;
    forall rc | rc in pushes
      ensures HonestFor(e, t, rc)
    {
      var i :| 0 <= i < |pushes| && pushes[i] == rc;
      if i < |chunks| {
        assert e.cipher.Protect(e.key, nonces(i), chunks[i].data) == Some(rc.data);
        assert IsPiece(e, t, i, rc);
      } else {
        assert e.cipher.Protect(e.key, nonces(i), e.codec.encode(ManifestOf(e, t))) == Some(rc.data);
      }
    }
    forall i: nat | i < |chunks|
      ensures HasKey(pushes, PieceKey(e, t, i))
    {
      assert pushes[i] in pushes;
    }
    assert pushes[|chunks|] in pushes;
  }

  // ---------------------------------------------------------------------------------------------
  // Sorting out a bag of honest pushes
  // ---------------------------------------------------------------------------------------------

  /** The manifest kept for a transfer is its own, and it is there when one was received. */
  ghost predicate ManifestKept(e: Setup, t: Transfer, rcs: seq<RelayedChunk>, c: Collected) {
    && (t.id in c.manifests <==> HasKey(rcs, ManifestKey(t.id)))
    && (t.id in c.manifests ==> c.manifests[t.id] == ManifestOf(e, t))
  }

  /** The pieces kept for a transfer are its own, and exactly those received. */
  ghost predicate PiecesKept(e: Setup, t: Transfer, rcs: seq<RelayedChunk>, c: Collected) {
    && (forall i | i in RawOf(c, t.id) ::
          0 <= i < |ChunksOf(e, t)| && Seals(e, RawOf(c, t.id)[i], ChunksOf(e, t)[i].data))
    && (forall i: nat | i < |ChunksOf(e, t)| :: i in RawOf(c, t.id) <==> HasKey(rcs, PieceKey(e, t, i)))
  }

  ghost predicate Mirrors(e: Setup, ts: set<Transfer>, rcs: seq<RelayedChunk>, c: Collected) {
    && (forall id | id in c.manifests :: exists t :: t in ts && t.id == id)
    && (forall t | t in ts :: ManifestKept(e, t, rcs, c) && PiecesKept(e, t, rcs, c))
  }

  lemma HasKeyOneMore(rcs: seq<RelayedChunk>, rc: RelayedChunk, key: string)
    ensures HasKey(rcs + [rc], key) <==> HasKey(rcs, key) || rc.chunkHash == key
  {
    if HasKey(rcs, key) {
      var x :| x in rcs && x.chunkHash == key;
      assert x in rcs + [rc];
    }
    assert rc in rcs + [rc];
  }

  lemma UnsealWhatIsSealed(e: Setup, data: Bytes, plain: Bytes)
    requires e.cipher.Inverts() && Seals(e, data, plain)
    ensures e.cipher.Unprotect(e.key, data) == Some(plain)
  {
    var nonce :| e.cipher.Protect(e.key, nonce, plain) == Some(data);
    ProtectRoundTrip(e.cipher, e.key, nonce, plain);
  }

  lemma IndexFits(e: Setup, t: Transfer)
    requires |t.content| <= MAX_INT
    ensures |ChunksOf(e, t)| <= MAX_INT
  {
    if t.content != [] {
      PieceCount(t.content);
    }
  }

  /** The key of a piece is not one of a manifest. */
  lemma PieceIsNoManifest(e: Setup, ts: set<Transfer>, t: Transfer, i: nat, id: string)
    requires Sound(e, ts) && t in ts && i < |ChunksOf(e, t)|
    ensures !(MANIFEST_PREFIX <= PieceKey(e, t, i)) && PieceKey(e, t, i) != ManifestKey(id)
  {
    HexIds(t.id);
    hide Chunks, ChunkKey;
    PieceOrManifest(t.id, i, ChunksOf(e, t)[i].hash);
  }

  lemma PieceKeysApart(e: Setup, ts: set<Transfer>, t: Transfer, u: Transfer, i: nat, j: nat)
    requires Sound(e, ts) && t in ts && u in ts && i < |ChunksOf(e, t)| && j < |ChunksOf(e, u)|
    ensures PieceKey(e, t, i) == PieceKey(e, u, j) <==> t == u && i == j
  {
    IndexFits(e, t);
    IndexFits(e, u);
    HexIds(t.id);
    HexIds(u.id);
    hide Chunks, ChunkKey;
    ChunkKeyInjective(t.id, i, ChunksOf(e, t)[i].hash, u.id, j, ChunksOf(e, u)[j].hash);
  }

  lemma AddManifest(e: Setup, ts: set<Transfer>, c: Collected, t: Transfer, rc: RelayedChunk)
    requires Sound(e, ts) && t in ts && IsManifest(e, t, rc)
    ensures Add(e, c, rc) == Sorted(c.(manifests := c.manifests[t.id := ManifestOf(e, t)]))
  {
    hide ManifestOf;
    UnsealWhatIsSealed(e, rc.data, e.codec.encode(ManifestOf(e, t)));
    assert rc.chunkHash[|MANIFEST_PREFIX|..] == t.id;
  }

  lemma AddPiece(e: Setup, ts: set<Transfer>, c: Collected, t: Transfer, i: nat, rc: RelayedChunk)
    requires Sound(e, ts) && t in ts && IsPiece(e, t, i, rc)
    ensures Add(e, c, rc) == Sorted(c.(raw := c.raw[t.id := RawOf(c, t.id)[i := rc.data]]))
  {
    IndexFits(e, t);
    HexIds(t.id);
    hide Chunks, ChunkKey, ParseChunkKey;
    PieceOrManifest(t.id, i, ChunksOf(e, t)[i].hash);
    KeyRoundTrip(t.id, i, ChunksOf(e, t)[i].hash);
  }

  lemma ManifestIsKept(e: Setup, ts: set<Transfer>, rcs: seq<RelayedChunk>, c: Collected, t: Transfer,
                       rc: RelayedChunk, u: Transfer)
    requires (t.id == u.id ==> t == u) && rc.chunkHash == ManifestKey(t.id) && ManifestKept(e, u, rcs, c)
    ensures ManifestKept(e, u, rcs + [rc], c.(manifests := c.manifests[t.id := ManifestOf(e, t)]))
  {
    assert ManifestKey(t.id)[|MANIFEST_PREFIX|..] == t.id && ManifestKey(u.id)[|MANIFEST_PREFIX|..] == u.id;
    hide ManifestOf, HasKey, ManifestKey;
    HasKeyOneMore(rcs, rc, ManifestKey(u.id));
  }

  /** A message that is no piece of a transfer does not change its pieces. */
  lemma PiecesStay(e: Setup, rcs: seq<RelayedChunk>, c: Collected, rc: RelayedChunk, u: Transfer,
                   manifests: map<string, Manifest>)
    requires PiecesKept(e, u, rcs, c) && forall i: nat | i < |ChunksOf(e, u)| :: rc.chunkHash != PieceKey(e, u, i)
    ensures PiecesKept(e, u, rcs + [rc], c.(manifests := manifests))
  {
    hide Chunks, HasKey, ChunkKey, Seals;
    var c' := c.(manifests := manifests);
    assert RawOf(c', u.id) == RawOf(c, u.id);
    hide RawOf;
    forall i: nat | i < |ChunksOf(e, u)|
      ensures i in RawOf(c', u.id) <==> HasKey(rcs + [rc], PieceKey(e, u, i))
    {
      HasKeyOneMore(rcs, rc, PieceKey(e, u, i));
    }
  }

  lemma ManifestMirrored(e: Setup, ts: set<Transfer>, rcs: seq<RelayedChunk>, c: Collected, t: Transfer,
                         rc: RelayedChunk, u: Transfer)
    requires Sound(e, ts) && t in ts && u in ts && rc.chunkHash == ManifestKey(t.id)
    requires ManifestKept(e, u, rcs, c) && PiecesKept(e, u, rcs, c)
    ensures var c' := c.(manifests := c.manifests[t.id := ManifestOf(e, t)]);
            ManifestKept(e, u, rcs + [rc], c') && PiecesKept(e, u, rcs + [rc], c')
  {
    assert t.id == u.id ==> t == u;
    hide *;
    forall i: nat | i < |ChunksOf(e, u)|
      ensures rc.chunkHash != PieceKey(e, u, i)
    {
      PieceIsNoManifest(e, ts, u, i, t.id);
    }
    ManifestIsKept(e, ts, rcs, c, t, rc, u);
    PiecesStay(e, rcs, c, rc, u, c.manifests[t.id := ManifestOf(e, t)]);
  }

  lemma PieceMirrored(e: Setup, ts: set<Transfer>, rcs: seq<RelayedChunk>, c: Collected, t: Transfer, i: nat,
                      rc: RelayedChunk, u: Transfer)
    requires Sound(e, ts) && t in ts && u in ts && IsPiece(e, t, i, rc)
    requires ManifestKept(e, u, rcs, c) && PiecesKept(e, u, rcs, c)
    ensures var c' := c.(raw := c.raw[t.id := RawOf(c, t.id)[i := rc.data]]);
            ManifestKept(e, u, rcs + [rc], c') && PiecesKept(e, u, rcs + [rc], c')
  {
    assert t.id == u.id ==> t == u;
    HasKeyOneMore(rcs, rc, ManifestKey(u.id));
    PieceIsNoManifest(e, ts, t, i, u.id);
    hide ManifestOf, ManifestKey;
    forall j: nat | j < |ChunksOf(e, u)|
      ensures HasKey(rcs + [rc], PieceKey(e, u, j)) <==> HasKey(rcs, PieceKey(e, u, j)) || (t == u && i == j)
    {
      HasKeyOneMore(rcs, rc, PieceKey(e, u, j));
      PieceKeysApart(e, ts, t, u, i, j);
    }
    hide ChunksOf, HasKey, PieceKey, Seals, Sound;
  }

  /** One more honest push is added without an error and mirrored. */
  lemma AddMirrors(e: Setup, ts: set<Transfer>, rcs: seq<RelayedChunk>, c: Collected, rc: RelayedChunk)
    requires Sound(e, ts) && Mirrors(e, ts, rcs, c) && Honest(e, ts, rc)
    ensures Add(e, c, rc).Sorted? && Mirrors(e, ts, rcs + [rc], Add(e, c, rc).c)
  {
    hide Add, ManifestKept, PiecesKept, Sound, IsPiece, ManifestOf, RawOf, Seals;
    var t :| t in ts && HonestFor(e, t, rc);
    if IsManifest(e, t, rc) {
      AddManifest(e, ts, c, t, rc);
      forall u | u in ts
        ensures var c' := c.(manifests := c.manifests[t.id := ManifestOf(e, t)]);
                ManifestKept(e, u, rcs + [rc], c') && PiecesKept(e, u, rcs + [rc], c')
      {
        ManifestMirrored(e, ts, rcs, c, t, rc, u);
      }
    } else {
      var i: nat :| IsPiece(e, t, i, rc);
      AddPiece(e, ts, c, t, i, rc);
      forall u | u in ts
        ensures var c' := c.(raw := c.raw[t.id := RawOf(c, t.id)[i := rc.data]]);
                ManifestKept(e, u, rcs + [rc], c') && PiecesKept(e, u, rcs + [rc], c')
      {
        PieceMirrored(e, ts, rcs, c, t, i, rc, u);
      }
    }
  }

  lemma {:induction false} AddAllMirrors(e: Setup, ts: set<Transfer>, seen: seq<RelayedChunk>, c: Collected,
                                         rcs: seq<RelayedChunk>)
    requires Sound(e, ts) && Mirrors(e, ts, seen, c) && AllHonest(e, ts, rcs)
    ensures AddAll(e, c, rcs).Sorted? && Mirrors(e, ts, seen + rcs, AddAll(e, c, rcs).c)
    decreases |rcs|
  {
    hide Sound, Mirrors, Add, Honest;
    if rcs == [] {
      assert seen + rcs == seen;
    } else {
      AddMirrors(e, ts, seen, c, rcs[0]);
      AddAllMirrors(e, ts, seen + [rcs[0]], Add(e, c, rcs[0]).c, rcs[1..]);
      assert rcs == [rcs[0]] + rcs[1..];
      ConcatAssoc(seen, [rcs[0]], rcs[1..]);
    }
  }

  /** What any bag of honest pushes is sorted into. */
  lemma Sorts(e: Setup, ts: set<Transfer>, rcs: seq<RelayedChunk>) returns (c: Collected)
    requires Sound(e, ts) && AllHonest(e, ts, rcs)
    ensures AddAll(e, NOTHING, rcs) == Sorted(c) && Mirrors(e, ts, rcs, c)
  {
    hide ManifestOf, ChunksOf, ManifestKey, PieceKey, Seals, AllHonest, Sound, AddAll;
    assert Mirrors(e, ts, [], NOTHING);
    hide *;
    AddAllMirrors(e, ts, [], NOTHING, rcs);
    c := AddAll(e, NOTHING, rcs).c;
    assert [] + rcs == rcs;
  }

  // ---------------------------------------------------------------------------------------------
  // Counting pieces
  // ---------------------------------------------------------------------------------------------

  /** Pigeonhole: as many pieces as chunks, with indices in range, are all of them. */
  lemma {:induction false} EnoughIsAll(indices: set<int>, n: nat)
    requires forall i | i in indices :: 0 <= i < n
    ensures |indices| <= n
    ensures |indices| == n <==> forall i | 0 <= i < n :: i in indices
    decreases n
  {
    if n == 0 {
      assert forall i :: i !in indices;
      assert indices == {};
    } else {
      var rest := indices - {n - 1};
      EnoughIsAll(rest, n - 1);
      if n - 1 in indices {
        assert indices == rest + {n - 1};
      } else {
        assert indices == rest;
      }
    }
  }

  /** A transfer counts as complete exactly when it was delivered. */
  lemma CompleteIffDelivered(e: Setup, ts: set<Transfer>, rcs: seq<RelayedChunk>, c: Collected, t: Transfer)
    requires Mirrors(e, ts, rcs, c) && t in ts
    ensures Complete(c, t.id) <==> Delivered(e, t, rcs)
    ensures Complete(c, t.id) ==> forall i | 0 <= i < |ChunksOf(e, t)| :: i in RawOf(c, t.id)
  {
    hide HasKey, PieceKey, ManifestKey, Seals;
    assert ManifestKept(e, t, rcs, c) && PiecesKept(e, t, rcs, c);
    hide Mirrors;
    var raw, n := RawOf(c, t.id), |ChunksOf(e, t)|;
    EnoughIsAll(raw.Keys, n);
    assert |raw| == |raw.Keys|;
  }

  // ---------------------------------------------------------------------------------------------
  // What is written
  // ---------------------------------------------------------------------------------------------

  /** The receiver opens the pieces with the key they were sealed with: it has a session key, or looks up none. */
  predicate SameKey(e: Setup, t: Transfer) {
    |e.key| > 0 || e.spaces.None? || t.spaceId == ""
  }

  lemma {:induction false} RebuildWhole(e: Setup, t: Transfer, raw: map<int, Bytes>, i: nat, soFar: Bytes)
    requires e.cipher.Inverts() && i <= |ChunksOf(e, t)| && |ChunksOf(e, t)| == |Split(t.content)|
    requires forall j | 0 <= j < |ChunksOf(e, t)| :: j in raw && Seals(e, raw[j], Split(t.content)[j])
    ensures Rebuild(e, e.key, ManifestOf(e, t), raw, i, soFar)
         == Written(Receiver.Base(t.path), soFar + Flatten(Split(t.content)[i..]))
    decreases |ChunksOf(e, t)| - i
  {
    hide Split, Seals, Chunks, Receiver.Base;
    Receiver.BaseIdempotent(t.path);
    var pieces := Split(t.content);
    if i == |pieces| {
      assert soFar + Flatten(pieces[i..]) == soFar;
    } else {
      UnsealWhatIsSealed(e, raw[i], pieces[i]);
      RebuildWhole(e, t, raw, i + 1, soFar + pieces[i]);
      assert pieces[i..] == [pieces[i]] + pieces[i + 1..];
      ConcatAssoc(soFar, pieces[i], Flatten(pieces[i + 1..]));
    }
  }

  /** A complete transfer without a space key in the way is rebuilt to its own content. */
  lemma DeliverWritesContent(e: Setup, ts: set<Transfer>, rcs: seq<RelayedChunk>, c: Collected, t: Transfer)
    requires Sound(e, ts) && Mirrors(e, ts, rcs, c) && t in ts && SameKey(e, t) && Complete(c, t.id)
    ensures Deliver(e, c, t.id) == Written(Receiver.Base(t.path), t.content)
  {
    CompleteIffDelivered(e, ts, rcs, c, t);
    var raw, pieces := RawOf(c, t.id), Split(t.content);
    assert ManifestKept(e, t, rcs, c) && PiecesKept(e, t, rcs, c);
    forall j | 0 <= j < |pieces|
      ensures j in raw && Seals(e, raw[j], pieces[j])
    {
      LabelsAreContiguous(e.hash, pieces, 0, j);
    }
    hide Seals, Split, Mirrors;
    RebuildWhole(e, t, raw, 0, []);
    Partition(t.content);
    assert pieces[0..] == pieces;
  }

  /** The pieces opened under a key and put together, if they all open. */
  function OpenAll(e: Setup, key: Bytes, pieces: seq<Bytes>): Option<Bytes> {
    if pieces == [] then Some([])
    else
      match e.cipher.Unprotect(key, pieces[0])
      case None => None
      case Some(plain) =>
        match OpenAll(e, key, pieces[1..])
        case None => None
        case Some(rest) => Some(plain + rest)
  }

  /** Rebuilding from pieces that are all there writes what they open to, if they do. */
  lemma {:induction false} RebuildOpens(e: Setup, key: Bytes, m: Manifest, raw: map<int, Bytes>, pieces: seq<Bytes>,
                                        i: nat, soFar: Bytes)
    requires i <= |pieces| == m.chunkCount
    requires forall j | 0 <= j < |pieces| :: j in raw && raw[j] == pieces[j]
    ensures var result, whole := Rebuild(e, key, m, raw, i, soFar), OpenAll(e, key, pieces[i..]);
            && (whole.None? ==> result.UndecryptableChunk?)
            && (whole.Some? ==> result == Written(Receiver.Base(m.fileName), soFar + whole.value))
    decreases |pieces| - i
  {
    hide Receiver.Base;
    if i < |pieces| {
      assert pieces[i..][1..] == pieces[i + 1..];
      var plain := e.cipher.Unprotect(key, pieces[i]);
      if plain.Some? {
        RebuildOpens(e, key, m, raw, pieces, i + 1, soFar + plain.value);
        var rest := OpenAll(e, key, pieces[i + 1..]);
        if rest.Some? {
          ConcatAssoc(soFar, plain.value, rest.value);
        }
      }
    } else {
      assert soFar + [] == soFar;
    }
  }

  /** What the receiver makes of a transfer: a file with these bytes, or else the error. */
  ghost predicate ReadsAs(e: Setup, t: Transfer, result: Result) {
    if SameKey(e, t) then result == Written(Receiver.Base(t.path), t.content)
    else
      match e.spaces.value(t.spaceId)
      case None => result == NoSpaceKey
      case Some(key) =>
        match OpenAll(e, key, Split(t.content))
        case None => result.UndecryptableChunk?
        case Some(whole) => result == Written(Receiver.Base(t.path), whole)
  }

  /** The receiver reads the transfer as it was sent. */
  predicate ReadsRight(e: Setup, t: Transfer) {
    SameKey(e, t) ||
    var key := e.spaces.value(t.spaceId);
    key.Some? && OpenAll(e, key.value, Split(t.content)) == Some(t.content)
  }

  /** Without a session key the pieces kept are plain. */
  lemma KeptPlain(e: Setup, ts: set<Transfer>, rcs: seq<RelayedChunk>, c: Collected, t: Transfer)
    requires Sound(e, ts) && Mirrors(e, ts, rcs, c) && t in ts && Complete(c, t.id) && e.key == []
    ensures t.id in c.manifests && c.manifests[t.id] == ManifestOf(e, t) && |Split(t.content)| == |ChunksOf(e, t)|
    ensures forall j | 0 <= j < |Split(t.content)| ::
              j in RawOf(c, t.id) && RawOf(c, t.id)[j] == Split(t.content)[j]
  {
    CompleteIffDelivered(e, ts, rcs, c, t);
    var raw, pieces := RawOf(c, t.id), Split(t.content);
    assert ManifestKept(e, t, rcs, c) && PiecesKept(e, t, rcs, c);
    hide Mirrors, RawOf, Split;
    forall j | 0 <= j < |pieces|
      ensures j in raw && raw[j] == pieces[j]
    {
      LabelsAreContiguous(e.hash, pieces, 0, j);
      UnsealWhatIsSealed(e, raw[j], pieces[j]);
    }
  }

  lemma DeliverUnderSpaceKey(e: Setup, ts: set<Transfer>, rcs: seq<RelayedChunk>, c: Collected, t: Transfer)
    requires Sound(e, ts) && Mirrors(e, ts, rcs, c) && t in ts && Complete(c, t.id) && !SameKey(e, t)
    ensures t.id in c.manifests && ReadsAs(e, t, Deliver(e, c, t.id))
  {
    hide Sound, Mirrors, Complete, Split, Rebuild, RawOf, OpenAll, Receiver.Base;
    KeptPlain(e, ts, rcs, c, t);
    var raw, pieces := RawOf(c, t.id), Split(t.content);
    var key := e.spaces.value(t.spaceId);
    if key.Some? {
      RebuildOpens(e, key.value, ManifestOf(e, t), raw, pieces, 0, []);
      Receiver.BaseIdempotent(t.path);
      assert pieces[0..] == pieces;
      assert Deliver(e, c, t.id) == Rebuild(e, key.value, ManifestOf(e, t), raw, 0, []);
    }
  }

  /** The delivered transfer with the least id. */
  ghost predicate FirstDelivered(e: Setup, ts: set<Transfer>, t: Transfer, rcs: seq<RelayedChunk>) {
    && t in ts && Delivered(e, t, rcs)
    && forall u | u in ts && Delivered(e, u, rcs) && u != t :: Less(t.id, u.id)
  }

  lemma LeastIffFirst(e: Setup, ts: set<Transfer>, rcs: seq<RelayedChunk>, c: Collected, t: Transfer)
    requires Sound(e, ts) && Mirrors(e, ts, rcs, c) && t in ts
    ensures LeastComplete(c, t.id) <==> FirstDelivered(e, ts, t, rcs)
  {
    forall u | u in ts
      ensures Complete(c, u.id) <==> Delivered(e, u, rcs)
    {
      CompleteIffDelivered(e, ts, rcs, c, u);
    }
    hide Delivered, ManifestKept, PiecesKept, RawOf;
  }

  /** Some delivered transfer is the first one. */
  lemma {:induction false} FirstExists(e: Setup, ts: set<Transfer>, rcs: seq<RelayedChunk>)
    requires exists t :: t in ts && Delivered(e, t, rcs)
    requires forall t, u | t in ts && u in ts && t.id == u.id :: t == u
    ensures exists t :: FirstDelivered(e, ts, t, rcs)
    decreases |ts|
  {
    hide Delivered;
    var t :| t in ts && Delivered(e, t, rcs);
    var rest := ts - {t};
    if exists u :: u in rest && Delivered(e, u, rcs) {
      FirstExists(e, rest, rcs);
      var u :| FirstDelivered(e, rest, u, rcs);
      LessTotal(t.id, u.id);
      if Less(t.id, u.id) {
        forall x | x in ts && Delivered(e, x, rcs) && x != t
          ensures Less(t.id, x.id)
        {
          if x != u {
            LessTransitive(t.id, u.id, x.id);
          }
        }
        assert FirstDelivered(e, ts, t, rcs);
      } else {
        assert FirstDelivered(e, ts, u, rcs);
      }
    } else {
      assert FirstDelivered(e, ts, t, rcs);
    }
  }

  lemma SomeFirst(e: Setup, ts: set<Transfer>, rcs: seq<RelayedChunk>)
    requires Sound(e, ts)
    ensures (exists t :: t in ts && Delivered(e, t, rcs)) <==> exists t :: FirstDelivered(e, ts, t, rcs)
  {
    assert forall t | FirstDelivered(e, ts, t, rcs) :: t in ts && Delivered(e, t, rcs);
    assert forall t, u | t in ts && u in ts && t.id == u.id :: t == u;
    hide FirstDelivered, Delivered, Sound;
    if exists t :: t in ts && Delivered(e, t, rcs) {
      FirstExists(e, ts, rcs);
    }
  }

  lemma FirstIsDelivered(e: Setup, ts: set<Transfer>, rcs: seq<RelayedChunk>, c: Collected, t: Transfer)
    requires Sound(e, ts) && AddAll(e, NOTHING, rcs) == Sorted(c) && Mirrors(e, ts, rcs, c)
    requires FirstDelivered(e, ts, t, rcs)
    ensures Complete(c, t.id) && Outcome(e, rcs) == Deliver(e, c, t.id)
  {
    LeastIffFirst(e, ts, rcs, c, t);
    assert rcs != [];
    hide AddAll, Mirrors, Sound, FirstDelivered, SameKey, Deliver, Outcome;
    assert LeastComplete(c, t.id);
    OutcomeOfLeast(e, rcs, c, t.id);
  }

  /** With nothing delivered no transfer is complete. */
  lemma NoneDelivered(e: Setup, ts: set<Transfer>, rcs: seq<RelayedChunk>, c: Collected)
    requires Sound(e, ts) && AddAll(e, NOTHING, rcs) == Sorted(c) && Mirrors(e, ts, rcs, c)
    requires !exists t :: t in ts && Delivered(e, t, rcs)
    ensures Outcome(e, rcs) in {InboxEmpty, NoManifest, NoCompleteTransfer}
  {
    forall id
      ensures !LeastComplete(c, id)
    {
      if LeastComplete(c, id) {
        var t :| t in ts && t.id == id;
        CompleteIffDelivered(e, ts, rcs, c, t);
      }
    }
    hide AddAll, LeastComplete, Delivered, Mirrors;
  }

  /**
   What ReceiveFile makes of a bag. If a transfer was delivered whole, the one with the least id decides: its
   original file is written exactly when it is read right. Otherwise nothing is written, because there is nothing,
   no manifest or no complete transfer. No piece is ever found missing.
   */
  ghost predicate Reassembled(e: Setup, ts: set<Transfer>, rcs: seq<RelayedChunk>, result: Result) {
    && (forall t | FirstDelivered(e, ts, t, rcs) ::
          && (result == Written(Receiver.Base(t.path), t.content) <==> ReadsRight(e, t))
          && ReadsAs(e, t, result))
    && ((exists t :: t in ts && Delivered(e, t, rcs)) <==> exists t :: FirstDelivered(e, ts, t, rcs))
    && ((forall t | t in ts :: !Delivered(e, t, rcs)) ==> result in {InboxEmpty, NoManifest, NoCompleteTransfer})
  }

  lemma ReadsRightIff(e: Setup, t: Transfer, result: Result)
    ensures SameKey(e, t) && result == Written(Receiver.Base(t.path), t.content) ==> ReadsAs(e, t, result)
    ensures ReadsAs(e, t, result) ==> (result == Written(Receiver.Base(t.path), t.content) <==> ReadsRight(e, t))
  {
    hide OpenAll, Split, Receiver.Base;
  }

  lemma FirstIsRead(e: Setup, ts: set<Transfer>, rcs: seq<RelayedChunk>, c: Collected, t: Transfer)
    requires Sound(e, ts) && AddAll(e, NOTHING, rcs) == Sorted(c) && Mirrors(e, ts, rcs, c)
    requires FirstDelivered(e, ts, t, rcs)
    ensures ReadsAs(e, t, Outcome(e, rcs))
    ensures Outcome(e, rcs) == Written(Receiver.Base(t.path), t.content) <==> ReadsRight(e, t)
  {
    assert t in ts;
    hide *;
    FirstIsDelivered(e, ts, rcs, c, t);
    if SameKey(e, t) {
      DeliverWritesContent(e, ts, rcs, c, t);
    } else {
      DeliverUnderSpaceKey(e, ts, rcs, c, t);
    }
    ReadsRightIff(e, t, Outcome(e, rcs));
  }

  /**
   Reassembly is safe and complete, for any bag of honest pushes of transfers with different ids under one session
   key, whatever spaces they name.
   */
  lemma Reassembly(e: Setup, ts: set<Transfer>, rcs: seq<RelayedChunk>)
    requires Sound(e, ts) && AllHonest(e, ts, rcs)
    ensures Reassembled(e, ts, rcs, Outcome(e, rcs))
  {
    hide Sound, AllHonest, Outcome, FirstDelivered, Delivered, ReadsAs, ReadsRight, Receiver.Base, AddAll, Mirrors;
    var c := Sorts(e, ts, rcs);
    SomeFirst(e, ts, rcs);
    forall t | FirstDelivered(e, ts, t, rcs)
      ensures Outcome(e, rcs) == Written(Receiver.Base(t.path), t.content) <==> ReadsRight(e, t)
      ensures ReadsAs(e, t, Outcome(e, rcs))
    {
      FirstIsRead(e, ts, rcs, c, t);
    }
    if forall t | t in ts :: !Delivered(e, t, rcs) {
      NoneDelivered(e, ts, rcs, c);
    }
  }

  // ---------------------------------------------------------------------------------------------
  // Outside SameKey
  // ---------------------------------------------------------------------------------------------

  /**
   Without a session key nothing was sealed, but a receiver with an engine opens the pieces of a transfer with a
   space id all the same, with the key of that space. The first delivered transfer is then written as it was if and
   only if there is such a key and what the plain pieces open to under it happens to be the content.
   */
  lemma SpaceKeyIsAnother(e: Setup, ts: set<Transfer>, rcs: seq<RelayedChunk>, t: Transfer)
    requires Sound(e, ts) && AllHonest(e, ts, rcs) && FirstDelivered(e, ts, t, rcs) && !SameKey(e, t)
    ensures var key, result := e.spaces.value(t.spaceId), Outcome(e, rcs);
            && (result == Written(Receiver.Base(t.path), t.content) <==>
                key.Some? && OpenAll(e, key.value, Split(t.content)) == Some(t.content))
            && (result == NoSpaceKey <==> key.None?)
            && (result.Written? <==> key.Some? && OpenAll(e, key.value, Split(t.content)).Some?)
  {
    hide Sound, AllHonest, FirstDelivered, Delivered, Outcome, OpenAll, Split, Receiver.Base;
    Reassembly(e, ts, rcs);
  }

  /** An empty space key changes nothing: the pieces open to the content. */
  lemma {:induction false} EmptyKeyOpens(e: Setup, pieces: seq<Bytes>)
    ensures OpenAll(e, [], pieces) == Some(Flatten(pieces))
    decreases |pieces|
  {
    if pieces != [] {
      EmptyKeyOpens(e, pieces[1..]);
    }
  }

  lemma OneDelivered(e: Setup, t: Transfer, rcs: seq<RelayedChunk>)
    requires e.cipher.Inverts() && e.codec.Inverts() && IsHex(t.id) && |t.content| <= MAX_INT
    ensures Sound(e, {t})
    ensures FirstDelivered(e, {t}, t, rcs) <==> Delivered(e, t, rcs)
  {
    hide Delivered, IsHex, Cipher.Inverts, Codec.Inverts;
  }

  /** A file sent whole, without a session key and to a space whose key the receiver does not have, is lost. */
  lemma UnknownSpaceLosesFile(e: Setup, t: Transfer, nonces: nat -> Bytes, clock: nat -> int)
    requires e.cipher.Inverts() && e.codec.Inverts() && IsHex(t.id) && |t.content| <= MAX_INT
    requires e.key == [] && e.spaces.Some? && t.spaceId != "" && e.spaces.value(t.spaceId) == None
    ensures Outcome(e, Pushes(e, t, nonces, clock)) == NoSpaceKey
  {
    assert !SameKey(e, t);
    hide Pushes, Sound, Outcome, FirstDelivered, Delivered, AllHonest, IsHex, OpenAll, SameKey;
    SentIsHonest(e, t, nonces, clock);
    OneDelivered(e, t, Pushes(e, t, nonces, clock));
    SpaceKeyIsAnother(e, {t}, Pushes(e, t, nonces, clock), t);
  }

  // ---------------------------------------------------------------------------------------------
  // Any bag at all
  // ---------------------------------------------------------------------------------------------

  /** The push has the key of a manifest, and does not open to one. */
  predicate SpoiltManifest(e: Setup, rc: RelayedChunk) {
    MANIFEST_PREFIX <= rc.chunkHash &&
    var plain := e.cipher.Unprotect(e.key, rc.data);
    plain.None? || e.codec.decode(plain.value).None?
  }

  lemma {:induction false} SortedIff(e: Setup, c: Collected, rcs: seq<RelayedChunk>)
    ensures AddAll(e, c, rcs).Sorted? <==> forall rc | rc in rcs :: !SpoiltManifest(e, rc)
    decreases |rcs|
  {
    if rcs != [] {
      assert rcs == [rcs[0]] + rcs[1..];
      assert Add(e, c, rcs[0]).Sorted? <==> !SpoiltManifest(e, rcs[0]);
      hide Add, SpoiltManifest;
      if Add(e, c, rcs[0]).Sorted? {
        SortedIff(e, Add(e, c, rcs[0]).c, rcs[1..]);
      }
    }
  }

  lemma {:induction false} AddAllConcat(e: Setup, c: Collected, xs: seq<RelayedChunk>, ys: seq<RelayedChunk>)
    ensures AddAll(e, c, xs + ys) ==
            if AddAll(e, c, xs).Sorted? then AddAll(e, AddAll(e, c, xs).c, ys) else AddAll(e, c, xs)
    decreases |xs|
  {
    hide Add;
    if xs == [] {
      assert xs + ys == ys;
    } else {
      assert (xs + ys)[1..] == xs[1..] + ys;
      if Add(e, c, xs[0]).Sorted? {
        AddAllConcat(e, Add(e, c, xs[0]).c, xs[1..], ys);
      }
    }
  }

  /** Bags that are sorted alike have the same outcome. */
  lemma SameSorting(e: Setup, rcs: seq<RelayedChunk>, rcs': seq<RelayedChunk>)
    requires rcs != [] && rcs' != [] && AddAll(e, NOTHING, rcs) == AddAll(e, NOTHING, rcs')
    ensures Outcome(e, rcs) == Outcome(e, rcs')
  {
    var sorting := AddAll(e, NOTHING, rcs);
    hide AddAll, Deliver;
    if sorting.Sorted? {
      if id :| LeastComplete(sorting.c, id) {
        OutcomeOfLeast(e, rcs, sorting.c, id);
        OutcomeOfLeast(e, rcs', sorting.c, id);
      }
    }
  }

  /** A push whose key is that of no manifest and cannot be read as that of a piece changes nothing. */
  lemma UnreadableKeyIsSkipped(e: Setup, xs: seq<RelayedChunk>, rc: RelayedChunk, ys: seq<RelayedChunk>)
    requires !("manifest:" <= rc.chunkHash) && ParseChunkKey(rc.chunkHash) == None
    ensures Outcome(e, xs + [rc] + ys) == if xs + ys == [] then NoManifest else Outcome(e, xs + ys)
  {
    AddAllConcat(e, NOTHING, xs, ys);
    AddAllConcat(e, NOTHING, xs, [rc] + ys);
    assert xs + [rc] + ys == xs + ([rc] + ys);
    var c := if AddAll(e, NOTHING, xs).Sorted? then AddAll(e, NOTHING, xs).c else NOTHING;
    assert ([rc] + ys)[1..] == ys;
    assert AddAll(e, c, [rc] + ys) == AddAll(e, c, ys);
    if xs + ys == [] {
      assert xs + [rc] + ys == [rc];
      assert AddAll(e, NOTHING, []) == Sorted(NOTHING);
      hide AddAll;
    } else {
      hide AddAll, Outcome;
      SameSorting(e, xs + [rc] + ys, xs + ys);
    }
  }

  lemma {:induction false} RebuildKinds(e: Setup, key: Bytes, m: Manifest, raw: map<int, Bytes>, i: int, soFar: Bytes)
    ensures var result := Rebuild(e, key, m, raw, i, soFar);
            result.Written? || result.MissingChunk? || result.UndecryptableChunk?
    decreases m.chunkCount - i
  {
    hide Receiver.Base;
    if i < m.chunkCount && i in raw {
      var plain := e.cipher.Unprotect(key, raw[i]);
      if plain.Some? {
        RebuildKinds(e, key, m, raw, i + 1, soFar + plain.value);
      }
    }
  }

  /** The manifests are reported bad exactly when some push has the key of one and does not open to one. */
  lemma BadManifestIff(e: Setup, rcs: seq<RelayedChunk>)
    ensures Outcome(e, rcs) == BadManifest <==> exists rc :: rc in rcs && SpoiltManifest(e, rc)
  {
    SortedIff(e, NOTHING, rcs);
    hide SpoiltManifest;
    if rcs != [] && AddAll(e, NOTHING, rcs).Sorted? {
      var c := AddAll(e, NOTHING, rcs).c;
      if id :| LeastComplete(c, id) {
        OutcomeOfLeast(e, rcs, c, id);
        hide AddAll, Rebuild, Outcome, LeastComplete;
        var key := KeyFor(e, c.manifests[id]);
        if key.Some? {
          RebuildKinds(e, key.value, c.manifests[id], RawOf(c, id), 0, []);
        }
      } else {
        hide AddAll;
      }
    }
  }

  /** Some push of the bag holds this manifest. */
  ghost predicate HoldsManifest(e: Setup, rcs: seq<RelayedChunk>, id: string, m: Manifest) {
    exists rc :: rc in rcs && rc.chunkHash == ManifestKey(id) && e.cipher.Unprotect(e.key, rc.data).Some?
                 && e.codec.decode(e.cipher.Unprotect(e.key, rc.data).value) == Some(m)
  }

  /** Some push of the bag has the key of piece `i` and this data. */
  ghost predicate HoldsPiece(rcs: seq<RelayedChunk>, id: string, i: int, data: Bytes) {
    exists rc :: rc in rcs && rc.data == data && ParseChunkKey(rc.chunkHash).Some?
                 && ParseChunkKey(rc.chunkHash).value.id == id && ParseChunkKey(rc.chunkHash).value.index == i
  }

  ghost predicate FromBag(e: Setup, rcs: seq<RelayedChunk>, c: Collected) {
    && (forall id | id in c.manifests :: HoldsManifest(e, rcs, id, c.manifests[id]))
    && (forall id, i | i in RawOf(c, id) :: HoldsPiece(rcs, id, i, RawOf(c, id)[i]))
  }

  lemma ManifestFromBag(e: Setup, rcs: seq<RelayedChunk>, c: Collected, rc: RelayedChunk)
    requires FromBag(e, rcs, c) && rc in rcs && Add(e, c, rc).Sorted? && MANIFEST_PREFIX <= rc.chunkHash
    ensures FromBag(e, rcs, Add(e, c, rc).c)
  {
    var c', id := Add(e, c, rc).c, rc.chunkHash[|MANIFEST_PREFIX|..];
    assert rc.chunkHash == ManifestKey(id);
    assert HoldsManifest(e, rcs, id, c'.manifests[id]);
    assert c' == c.(manifests := c.manifests[id := c'.manifests[id]]);
    hide HoldsManifest, HoldsPiece, ManifestKey, Add;
    assert forall other :: RawOf(c', other) == RawOf(c, other);
  }

  lemma PieceFromBag(e: Setup, rcs: seq<RelayedChunk>, c: Collected, rc: RelayedChunk)
    requires FromBag(e, rcs, c) && rc in rcs && !(MANIFEST_PREFIX <= rc.chunkHash)
    ensures Add(e, c, rc).Sorted? && FromBag(e, rcs, Add(e, c, rc).c)
  {
    hide ParseChunkKey;
    var k := ParseChunkKey(rc.chunkHash);
    if k.Some? {
      var id, i := k.value.id, k.value.index;
      assert HoldsPiece(rcs, id, i, rc.data);
      hide HoldsManifest, HoldsPiece, ManifestKey;
      var c' := c.(raw := c.raw[id := RawOf(c, id)[i := rc.data]]);
      assert Add(e, c, rc) == Sorted(c');
      hide Add;
      forall other, j | j in RawOf(c', other)
        ensures HoldsPiece(rcs, other, j, RawOf(c', other)[j])
      {
        if other != id || j != i {
          assert j in RawOf(c, other) && RawOf(c', other)[j] == RawOf(c, other)[j];
        }
      }
    }
  }

  lemma AddFromBag(e: Setup, rcs: seq<RelayedChunk>, c: Collected, rc: RelayedChunk)
    requires FromBag(e, rcs, c) && rc in rcs && Add(e, c, rc).Sorted?
    ensures FromBag(e, rcs, Add(e, c, rc).c)
  {
    hide FromBag, Add;
    if MANIFEST_PREFIX <= rc.chunkHash {
      ManifestFromBag(e, rcs, c, rc);
    } else {
      PieceFromBag(e, rcs, c, rc);
    }
  }

  lemma {:induction false} AddAllFromBag(e: Setup, bag: seq<RelayedChunk>, c: Collected, rcs: seq<RelayedChunk>)
    requires FromBag(e, bag, c) && (forall rc | rc in rcs :: rc in bag) && AddAll(e, c, rcs).Sorted?
    ensures FromBag(e, bag, AddAll(e, c, rcs).c)
    decreases |rcs|
  {
    hide FromBag, Add;
    if rcs != [] {
      assert rcs[0] in rcs;
      AddFromBag(e, bag, c, rcs[0]);
      assert forall rc | rc in rcs[1..] :: rc in rcs;
      AddAllFromBag(e, bag, Add(e, c, rcs[0]).c, rcs[1..]);
    }
  }

  /** The pieces under the indices from `i` up to the count of the manifest. */
  ghost predicate PiecesFrom(m: Manifest, raw: map<int, Bytes>, i: nat, pieces: seq<Bytes>) {
    && |pieces| == (if m.chunkCount > i then m.chunkCount - i else 0)
    && forall j | i <= j < i + |pieces| :: j in raw && raw[j] == pieces[j - i]
  }

  lemma PiecesCons(m: Manifest, raw: map<int, Bytes>, i: nat, pieces: seq<Bytes>)
    requires i < m.chunkCount && i in raw && PiecesFrom(m, raw, i + 1, pieces)
    ensures PiecesFrom(m, raw, i, [raw[i]] + pieces)
  {
    var all := [raw[i]] + pieces;
    forall j | i <= j < i + |all|
      ensures j in raw && raw[j] == all[j - i]
    {
      if j > i {
        assert all[j - i] == pieces[j - (i + 1)];
      }
    }
  }

  lemma OpenCons(e: Setup, key: Bytes, piece: Bytes, pieces: seq<Bytes>, plain: Bytes, rest: Bytes)
    requires e.cipher.Unprotect(key, piece) == Some(plain) && OpenAll(e, key, pieces) == Some(rest)
    ensures OpenAll(e, key, [piece] + pieces) == Some(plain + rest)
  {
    assert ([piece] + pieces)[1..] == pieces;
  }

  /** A rebuilt file is what the pieces open to. */
  lemma {:induction false} RebuiltFrom(e: Setup, key: Bytes, m: Manifest, raw: map<int, Bytes>, i: nat, soFar: Bytes)
    returns (pieces: seq<Bytes>, rest: Bytes)
    requires Rebuild(e, key, m, raw, i, soFar).Written?
    ensures PiecesFrom(m, raw, i, pieces) && OpenAll(e, key, pieces) == Some(rest)
    ensures Rebuild(e, key, m, raw, i, soFar) == Written(Receiver.Base(m.fileName), soFar + rest)
    decreases m.chunkCount - i
  {
    hide Receiver.Base, PiecesFrom, OpenAll;
    if i < m.chunkCount {
      var plain := e.cipher.Unprotect(key, raw[i]).value;
      pieces, rest := RebuiltFrom(e, key, m, raw, i + 1, soFar + plain);
      PiecesCons(m, raw, i, pieces);
      OpenCons(e, key, raw[i], pieces, plain, rest);
      ConcatAssoc(soFar, plain, rest);
      pieces, rest := [raw[i]] + pieces, plain + rest;
    } else {
      pieces, rest := [], [];
      NoPieces(e, key, m, raw, i);
      assert soFar + [] == soFar;
    }
  }

  lemma NoPieces(e: Setup, key: Bytes, m: Manifest, raw: map<int, Bytes>, i: nat)
    requires i >= m.chunkCount
    ensures PiecesFrom(m, raw, i, []) && OpenAll(e, key, []) == Some([])
  {
  }

  /** The key for a manifest: the session key, or that of its space, or none. */
  function KeyOf(e: Setup, m: Manifest): Bytes {
    if |e.key| > 0 then e.key
    else if e.spaces.Some? && m.spaceId != "" && e.spaces.value(m.spaceId).Some? then e.spaces.value(m.spaceId).value
    else []
  }

  lemma DeliveredFrom(e: Setup, rcs: seq<RelayedChunk>, c: Collected, id: string)
    returns (pieces: seq<Bytes>)
    requires id in c.manifests && FromBag(e, rcs, c) && Deliver(e, c, id).Written?
    ensures var m := c.manifests[id];
            && HoldsManifest(e, rcs, id, m) && PiecesFrom(m, RawOf(c, id), 0, pieces)
            && OpenAll(e, KeyOf(e, m), pieces) == Some(Deliver(e, c, id).data)
            && Deliver(e, c, id).name == Receiver.Base(m.fileName)
  {
    assert HoldsManifest(e, rcs, id, c.manifests[id]);
    hide HoldsManifest, FromBag, Receiver.Base, PiecesFrom, OpenAll, RawOf, Rebuild;
    var key := KeyFor(e, c.manifests[id]).value;
    var rest;
    pieces, rest := RebuiltFrom(e, key, c.manifests[id], RawOf(c, id), 0, []);
    assert [] + rest == rest;
  }

  /**
   Whatever bag was pulled: a file that is written has the name of a manifest in the bag, and its bytes are what
   pushes of the bag with the keys of pieces 0 to the count open to, in order, under the key for that manifest.
   */
  lemma WhatIsWritten(e: Setup, rcs: seq<RelayedChunk>) returns (id: string, m: Manifest, pieces: seq<Bytes>)
    requires Outcome(e, rcs).Written?
    ensures HoldsManifest(e, rcs, id, m) && Outcome(e, rcs).name == Receiver.Base(m.fileName)
    ensures |pieces| == if m.chunkCount > 0 then m.chunkCount else 0
    ensures forall i | 0 <= i < |pieces| :: HoldsPiece(rcs, id, i, pieces[i])
    ensures OpenAll(e, KeyOf(e, m), pieces) == Some(Outcome(e, rcs).data)
  {
    var c := WrittenIsSorted(e, rcs);
    hide AddAll, FromBag, HoldsManifest, HoldsPiece, OpenAll, Receiver.Base, Deliver, LeastComplete;
    id :| LeastComplete(c, id) && Outcome(e, rcs) == Deliver(e, c, id);
    hide Outcome;
    CompleteIsKnown(c, id);
    m := c.manifests[id];
    pieces := DeliveredFrom(e, rcs, c, id);
    PiecesHeld(e, rcs, c, id, pieces);
  }

  lemma PiecesHeld(e: Setup, rcs: seq<RelayedChunk>, c: Collected, id: string, pieces: seq<Bytes>)
    requires FromBag(e, rcs, c) && id in c.manifests && PiecesFrom(c.manifests[id], RawOf(c, id), 0, pieces)
    ensures forall i | 0 <= i < |pieces| :: HoldsPiece(rcs, id, i, pieces[i])
    ensures |pieces| == if c.manifests[id].chunkCount > 0 then c.manifests[id].chunkCount else 0
  {
    hide HoldsManifest, HoldsPiece;
    forall i | 0 <= i < |pieces|
      ensures HoldsPiece(rcs, id, i, pieces[i])
    {
      assert i in RawOf(c, id) && RawOf(c, id)[i] == pieces[i];
    }
  }

  lemma WrittenIsSorted(e: Setup, rcs: seq<RelayedChunk>) returns (c: Collected)
    requires Outcome(e, rcs).Written?
    ensures rcs != [] && AddAll(e, NOTHING, rcs) == Sorted(c) && FromBag(e, rcs, c)
  {
    hide Add, HoldsManifest, HoldsPiece, Deliver;
    c := AddAll(e, NOTHING, rcs).c;
    assert FromBag(e, rcs, NOTHING);
    hide FromBag;
    AddAllFromBag(e, rcs, NOTHING, rcs);
  }

  lemma CompleteIsKnown(c: Collected, id: string)
    requires LeastComplete(c, id)
    ensures id in c.manifests
  {
  }

  /** The manifest of a transfer that counts: the one pushed last. */
  function LastManifest(e: Setup, rcs: seq<RelayedChunk>, id: string): Option<Manifest>
    decreases |rcs|
  {
    if rcs == [] then None
    else
      var last := rcs[|rcs| - 1];
      if last.chunkHash == ManifestKey(id) then
        match e.cipher.Unprotect(e.key, last.data)
        case None => None
        case Some(plain) => e.codec.decode(plain)
      else LastManifest(e, rcs[..|rcs| - 1], id)
  }

  /** The push has the key of a piece of this transfer. */
  predicate NamesPiece(rc: RelayedChunk, id: string) {
    !("manifest:" <= rc.chunkHash) && ParseChunkKey(rc.chunkHash).Some? && ParseChunkKey(rc.chunkHash).value.id == id
  }

  /** The indices of the pieces of a transfer in the bag. */
  function Indices(rcs: seq<RelayedChunk>, id: string): set<int> {
    set rc | rc in rcs && NamesPiece(rc, id) :: ParseChunkKey(rc.chunkHash).value.index
  }

  lemma IndicesSnoc(rcs: seq<RelayedChunk>, rc: RelayedChunk, id: string)
    ensures Indices(rcs + [rc], id) ==
            Indices(rcs, id) + (if NamesPiece(rc, id) then {ParseChunkKey(rc.chunkHash).value.index} else {})
  {
    hide ParseChunkKey;
    assert forall x :: x in rcs + [rc] <==> x in rcs || x == rc;
    if NamesPiece(rc, id) {
      assert rc in rcs + [rc];
    }
  }

  lemma AddOne(e: Setup, c: Collected, rc: RelayedChunk, id: string)
    requires Add(e, c, rc).Sorted?
    ensures var c' := Add(e, c, rc).c;
            && RawOf(c', id).Keys ==
               RawOf(c, id).Keys + (if NamesPiece(rc, id) then {ParseChunkKey(rc.chunkHash).value.index} else {})
            && (rc.chunkHash == ManifestKey(id) ==>
                  && e.cipher.Unprotect(e.key, rc.data).Some? && id in c'.manifests
                  && e.codec.decode(e.cipher.Unprotect(e.key, rc.data).value) == Some(c'.manifests[id]))
            && (rc.chunkHash != ManifestKey(id) ==>
                  && (id in c'.manifests <==> id in c.manifests)
                  && (id in c.manifests ==> c'.manifests[id] == c.manifests[id]))
  {
    hide ParseChunkKey;
    if MANIFEST_PREFIX <= rc.chunkHash {
      assert rc.chunkHash == MANIFEST_PREFIX + rc.chunkHash[|MANIFEST_PREFIX|..];
      assert rc.chunkHash == ManifestKey(id) ==> rc.chunkHash[|MANIFEST_PREFIX|..] == id;
    } else {
      assert MANIFEST_PREFIX <= ManifestKey(id);
    }
  }

  /** For any bag: what is kept are the last manifest of each transfer and all indices of its pieces. */
  lemma {:induction false} SortingKeeps(e: Setup, rcs: seq<RelayedChunk>, c: Collected, id: string)
    requires AddAll(e, NOTHING, rcs) == Sorted(c)
    ensures RawOf(c, id).Keys == Indices(rcs, id)
    ensures if id in c.manifests then LastManifest(e, rcs, id) == Some(c.manifests[id])
            else LastManifest(e, rcs, id) == None
    decreases |rcs|
  {
    if rcs == [] {
      assert c == NOTHING;
    } else {
      var front, last := rcs[..|rcs| - 1], rcs[|rcs| - 1];
      assert rcs == front + [last] && [last][1..] == [];
      AddAllConcat(e, NOTHING, front, [last]);
      var before := AddAll(e, NOTHING, front).c;
      assert AddAll(e, before, [last]) == Add(e, before, last);
      hide AddAll, Add, ParseChunkKey, NamesPiece, RawOf, Indices, ManifestKey;
      SortingKeeps(e, front, before, id);
      AddOne(e, before, last, id);
      IndicesSnoc(front, last, id);
    }
  }

  predicate HasManifest(e: Setup, rcs: seq<RelayedChunk>, id: string) {
    LastManifest(e, rcs, id).Some?
  }

  /** The transfer has a manifest in the bag, and pieces with as many different indices as it counts chunks. */
  predicate Countable(e: Setup, rcs: seq<RelayedChunk>, id: string) {
    var m := LastManifest(e, rcs, id);
    m.Some? && |Indices(rcs, id)| >= m.value.chunkCount
  }

  /** Any bag is found incomplete exactly when it has a manifest, all its manifests open, and none is countable. */
  lemma IncompleteIff(e: Setup, rcs: seq<RelayedChunk>)
    ensures Outcome(e, rcs) == NoCompleteTransfer <==>
            && (forall rc | rc in rcs :: !SpoiltManifest(e, rc))
            && (exists id :: HasManifest(e, rcs, id))
            && forall id :: !Countable(e, rcs, id)
  {
    SortedIff(e, NOTHING, rcs);
    if AddAll(e, NOTHING, rcs).Sorted? {
      IncompleteWhenSorted(e, rcs, AddAll(e, NOTHING, rcs).c);
    } else {
      hide AddAll, SpoiltManifest, HasManifest, Countable;
    }
  }

  lemma CountableIff(e: Setup, rcs: seq<RelayedChunk>, c: Collected, id: string)
    requires AddAll(e, NOTHING, rcs) == Sorted(c)
    ensures HasManifest(e, rcs, id) <==> id in c.manifests
    ensures Countable(e, rcs, id) <==> Complete(c, id)
  {
    SortingKeeps(e, rcs, c, id);
    hide AddAll, LastManifest, Indices, RawOf;
    assert |RawOf(c, id)| == |RawOf(c, id).Keys|;
  }

  lemma IncompleteWhenSorted(e: Setup, rcs: seq<RelayedChunk>, c: Collected)
    requires AddAll(e, NOTHING, rcs) == Sorted(c)
    ensures Outcome(e, rcs) == NoCompleteTransfer <==>
            (exists id :: HasManifest(e, rcs, id)) && forall id :: !Countable(e, rcs, id)
  {
    hide AddAll, HasManifest, Countable, Complete, Outcome;
    IncompleteMeans(e, rcs, c);
    forall id
      ensures HasManifest(e, rcs, id) <==> id in c.manifests
      ensures Countable(e, rcs, id) <==> Complete(c, id)
    {
      CountableIff(e, rcs, c, id);
    }
    if c.manifests != map[] {
      var id :| id in c.manifests;
      assert HasManifest(e, rcs, id);
    }
  }

  ghost predicate LeastIn(c: Collected, ids: set<string>, id: string) {
    id in ids && Complete(c, id) && forall other | other in ids && Complete(c, other) && other != id :: Less(id, other)
  }

  lemma LeastOfMore(c: Collected, ids: set<string>, id: string, least: string)
    requires id in ids && Complete(c, id) && LeastIn(c, ids - {id}, least)
    ensures LeastIn(c, ids, id) || LeastIn(c, ids, least)
  {
    hide Complete, Less;
    LessTotal(id, least);
    if Less(id, least) {
      forall other | other in ids && Complete(c, other) && other != id
        ensures Less(id, other)
      {
        if other != least {
          LessTransitive(id, least, other);
        }
      }
    }
  }

  lemma {:induction false} LeastOf(c: Collected, ids: set<string>) returns (least: string)
    requires exists id :: id in ids && Complete(c, id)
    ensures LeastIn(c, ids, least)
    decreases |ids|
  {
    hide Complete, Less;
    var id :| id in ids && Complete(c, id);
    var rest := ids - {id};
    least := id;
    if exists other :: other in rest && Complete(c, other) {
      least := LeastOf(c, rest);
      LeastOfMore(c, ids, id, least);
      if LeastIn(c, ids, id) {
        least := id;
      }
    }
  }

  lemma LeastIsFound(c: Collected, id: string) returns (least: string)
    requires Complete(c, id)
    ensures least in c.manifests && LeastComplete(c, least)
  {
    hide Less;
    least := LeastOf(c, c.manifests.Keys);
  }

  lemma IncompleteMeans(e: Setup, rcs: seq<RelayedChunk>, c: Collected)
    requires AddAll(e, NOTHING, rcs) == Sorted(c)
    ensures Outcome(e, rcs) == NoCompleteTransfer <==> c.manifests != map[] && forall id :: !Complete(c, id)
  {
    assert rcs == [] ==> c == NOTHING;
    if id :| Complete(c, id) {
      hide AddAll, Rebuild, LeastComplete, Outcome;
      var least := LeastIsFound(c, id);
      CompleteIsKnown(c, least);
      assert rcs != [];
      OutcomeOfLeast(e, rcs, c, least);
      var key := KeyFor(e, c.manifests[least]);
      if key.Some? {
        RebuildKinds(e, key.value, c.manifests[least], RawOf(c, least), 0, []);
      }
    } else {
      assert forall id :: !LeastComplete(c, id);
      hide AddAll, LeastComplete;
    }
  }

  /** The error names the first piece that is missing or does not open. */
  lemma {:induction false} RebuildErrors(e: Setup, key: Bytes, m: Manifest, raw: map<int, Bytes>, i: int, soFar: Bytes)
    ensures var result := Rebuild(e, key, m, raw, i, soFar);
            && (result.MissingChunk? ==>
                  && i <= result.index < m.chunkCount && result.index !in raw
                  && forall k | i <= k < result.index :: k in raw && e.cipher.Unprotect(key, raw[k]).Some?)
            && (result.UndecryptableChunk? ==>
                  && i <= result.index < m.chunkCount
                  && result.index in raw && e.cipher.Unprotect(key, raw[result.index]).None?
                  && forall k | i <= k < result.index :: k in raw && e.cipher.Unprotect(key, raw[k]).Some?)
    decreases m.chunkCount - i
  {
    hide Receiver.Base;
    if i < m.chunkCount && i in raw {
      var plain := e.cipher.Unprotect(key, raw[i]);
      if plain.Some? {
        RebuildErrors(e, key, m, raw, i + 1, soFar + plain.value);
      }
    }
  }

  /**
   A piece is reported missing only if the bag has none with its index, although it has those before it, and
   undecryptable only if the bag has one.
   */
  lemma ErrorsAreTrue(e: Setup, rcs: seq<RelayedChunk>) returns (id: string)
    requires Outcome(e, rcs).MissingChunk? || Outcome(e, rcs).UndecryptableChunk?
    ensures Countable(e, rcs, id)
    ensures var index := Outcome(e, rcs).index;
            && 0 <= index < LastManifest(e, rcs, id).value.chunkCount
            && (forall k | 0 <= k < index :: k in Indices(rcs, id))
            && (Outcome(e, rcs).MissingChunk? <==> index !in Indices(rcs, id))
  {
    var c;
    c, id := ErrorIsOfLeast(e, rcs);
    hide AddAll, Complete, LastManifest, Indices, RawOf, Outcome, Deliver;
    CountableIff(e, rcs, c, id);
    SortingKeeps(e, rcs, c, id);
    DeliverErrors(e, c, id);
  }

  lemma ErrorIsOfLeast(e: Setup, rcs: seq<RelayedChunk>) returns (c: Collected, id: string)
    requires Outcome(e, rcs).MissingChunk? || Outcome(e, rcs).UndecryptableChunk?
    ensures AddAll(e, NOTHING, rcs) == Sorted(c) && id in c.manifests && Complete(c, id)
    ensures Outcome(e, rcs) == Deliver(e, c, id)
  {
    hide AddAll, Deliver, RawOf, Less;
    c := AddAll(e, NOTHING, rcs).c;
    id :| LeastComplete(c, id) && Outcome(e, rcs) == Deliver(e, c, id);
  }

  lemma DeliverErrors(e: Setup, c: Collected, id: string)
    requires id in c.manifests
    ensures var result, indices := Deliver(e, c, id), RawOf(c, id).Keys;
            result.MissingChunk? || result.UndecryptableChunk? ==>
              && 0 <= result.index < c.manifests[id].chunkCount
              && (forall k | 0 <= k < result.index :: k in indices)
              && (result.MissingChunk? <==> result.index !in indices)
  {
    hide Rebuild, RawOf;
    var key := KeyFor(e, c.manifests[id]);
    if key.Some? {
      RebuildErrors(e, key.value, c.manifests[id], RawOf(c, id), 0, []);
    }
  }
}

/**
 Content-defined chunking, apps/backend/internal/chunk/cdc.go. `Split` is the pure meaning (where a byte
 sequence is cut), `BufferedChunker` is the incremental, read-driven scanner that refines it.
 */
module Chunker {
  import opened Hasher

  const MIN_CHUNK_SIZE: nat := 512 * 1024
  const MAX_CHUNK_SIZE: nat := 8 * 1024 * 1024
  const MASK: bv64 := 0x1F_FFFF
  const PATTERN: bv64 := 0

  datatype Chunk = Chunk(hash: string, data: Bytes, size: nat, offset: nat)

  predicate Matches(fp: bv64) {
    fp & MASK == PATTERN
  }

  /** A chunk may end after exactly these bytes. */
  predicate Boundary(head: Bytes) {
    |head| >= MAX_CHUNK_SIZE || (|head| >= MIN_CHUNK_SIZE && Matches(Fingerprint(head)))
  }

  /** Length of the first chunk of `s`, when none of its first `from` prefixes is a chunk. */
  function CutLen(s: Bytes, from: nat := 0): (n: nat)
    requires from <= |s|
    ensures from <= n <= |s|
    ensures from < |s| ==> from < n
    decreases |s| - from
  {
    if from == |s| then from
    else if Boundary(s[..from + 1]) then from + 1
    else CutLen(s, from + 1)
  }

  /** The pieces a byte sequence is cut into. */
  function Split(s: Bytes): seq<Bytes> {
    if s == [] then [] else [s[..CutLen(s)]] + Split(s[CutLen(s)..])
  }

  function Flatten(pieces: seq<Bytes>): Bytes {
    if pieces == [] then [] else pieces[0] + Flatten(pieces[1..])
  }

  /** Pieces as chunk records, the first one at `offset`. */
  function Label(hash: Bytes -> string, pieces: seq<Bytes>, offset: nat): (cs: seq<Chunk>)
    ensures |cs| == |pieces|
  {
    if pieces == [] then []
    else [Chunk(hash(pieces[0]), pieces[0], |pieces[0]|, offset)] + Label(hash, pieces[1..], offset + |pieces[0]|)
  }

  /** The chunks of a whole file. */
  function Chunks(hash: Bytes -> string, content: Bytes): seq<Chunk> {
    Label(hash, Split(content), 0)
  }

  // ---------------------------------------------------------------------------------------------
  // First cut
  // ---------------------------------------------------------------------------------------------

  ghost predicate NoBoundary(s: Bytes, upTo: nat)
    requires upTo <= |s|
  {
    forall k | 0 < k <= upTo :: !Boundary(s[..k])
  }

  lemma {:induction false} CutLenFirst(s: Bytes, from: nat, n: nat)
    requires from <= n <= |s| && (n == 0 ==> s == [])
    requires forall k | from < k < n :: !Boundary(s[..k])
    requires n == |s| || (from < n && Boundary(s[..n]))
    ensures CutLen(s, from) == n
    decreases n - from
  {
    hide Boundary;
    if from < n {
      if Boundary(s[..from + 1]) {
        assert from + 1 == n || (n == |s| && from + 1 >= n);
      } else {
        CutLenFirst(s, from + 1, n);
      }
    }
  }

  /** The first cut is a boundary or the end, and there is no boundary before it. */
  lemma {:induction false} CutLenIsFirst(s: Bytes, from: nat)
    requires from <= |s|
    ensures forall k | from < k < CutLen(s, from) :: !Boundary(s[..k])
    ensures CutLen(s, from) == |s| || Boundary(s[..CutLen(s, from)])
    decreases |s| - from
  {
    hide Boundary;
    if from < |s| && !Boundary(s[..from + 1]) {
      CutLenIsFirst(s, from + 1);
    }
  }

  /** The first cut only looks at the bytes up to it. */
  lemma CutLenOfPrefix(s: Bytes, t: Bytes, n: nat)
    requires 0 < n <= |s| && n <= |t| && s[..n] == t[..n]
    requires n == CutLen(s) && (n == |t| || Boundary(s[..n]))
    ensures CutLen(t) == n
  {
    hide Boundary;
    CutLenIsFirst(s, 0);
    forall k | 0 < k < n
      ensures !Boundary(t[..k])
    {
      assert t[..k] == t[..n][..k] == s[..k];
    }
    CutLenFirst(t, 0, n);
  }

  lemma CutLenBounds(s: Bytes)
    requires s != []
    ensures 0 < CutLen(s) <= MAX_CHUNK_SIZE
    ensures CutLen(s) == |s| || CutLen(s) >= MIN_CHUNK_SIZE
  {
    CutLenIsFirst(s, 0);
    if MAX_CHUNK_SIZE <= |s| {
      assert Boundary(s[..MAX_CHUNK_SIZE]);
    }
  }

  // ---------------------------------------------------------------------------------------------
  // Partition, size bounds, prefix stability
  // ---------------------------------------------------------------------------------------------

  /** The pieces put together are the file. */
  lemma {:induction false} Partition(s: Bytes)
    ensures Flatten(Split(s)) == s
  {
    hide Boundary;
    if s != [] {
      Partition(s[CutLen(s)..]);
    }
  }

  ghost predicate SizesInBounds(pieces: seq<Bytes>) {
    && (forall i | 0 <= i < |pieces| :: 0 < |pieces[i]| <= MAX_CHUNK_SIZE)
    && (forall i | 0 <= i < |pieces| - 1 :: |pieces[i]| >= MIN_CHUNK_SIZE)
  }

  /** All pieces but the last have a size in [Min, Max], the last one in (0, Max]. */
  lemma {:induction false} PieceSizes(s: Bytes)
    ensures SizesInBounds(Split(s))
  {
    if s != [] {
      CutLenBounds(s);
      hide Boundary, CutLen;
      PieceSizes(s[CutLen(s)..]);
    }
  }

  lemma {:induction false} FlattenLength(pieces: seq<Bytes>)
    requires pieces != [] && SizesInBounds(pieces)
    ensures (|pieces| - 1) * MIN_CHUNK_SIZE < |Flatten(pieces)| <= |pieces| * MAX_CHUNK_SIZE
  {
    var rest := pieces[1..];
    if rest == [] {
      assert Flatten(pieces) == pieces[0];
    } else {
      assert SizesInBounds(rest);
      FlattenLength(rest);
    }
  }

  /** The number of chunks is fixed by the size up to the ratio of Max to Min. */
  lemma PieceCount(s: Bytes)
    requires s != []
    ensures (|Split(s)| - 1) * MIN_CHUNK_SIZE < |s| <= |Split(s)| * MAX_CHUNK_SIZE
  {
    Partition(s);
    PieceSizes(s);
    FlattenLength(Split(s));
  }

  // ---------------------------------------------------------------------------------------------
  // Where the cuts are
  // ---------------------------------------------------------------------------------------------

  /** The fingerprint is a multiple of 2^21. */
  predicate Divisible(s: Bytes) {
    Fingerprint(s) % 0x20_0000 == 0
  }

  lemma MatchesIff(fp: bv64)
    ensures Matches(fp) <==> fp % 0x20_0000 == 0
  {
  }

  /** What a boundary is, in numbers. */
  lemma BoundaryIff(s: Bytes)
    ensures Boundary(s) <==> |s| >= 8388608 || (|s| >= 524288 && Fingerprint(s) % 0x20_0000 == 0)
  {
    MatchesIff(Fingerprint(s));
    hide Matches, Fingerprint;
  }

  /** A piece that could not be ended earlier. */
  ghost predicate Uncut(piece: Bytes) {
    && 0 < |piece| <= 8388608
    && forall k | 524288 <= k < |piece| :: !Divisible(piece[..k])
  }

  /** A piece that had to end. */
  predicate Ended(piece: Bytes) {
    |piece| == 8388608 || (|piece| >= 524288 && Divisible(piece))
  }

  ghost predicate ContentDefined(pieces: seq<Bytes>) {
    && (forall i | 0 <= i < |pieces| :: Uncut(pieces[i]))
    && (forall i | 0 <= i < |pieces| - 1 :: Ended(pieces[i]))
  }

  lemma FirstPiece(s: Bytes)
    requires s != []
    ensures var n := CutLen(s);
            Uncut(s[..n]) && (n < |s| ==> Ended(s[..n]))
  {
    var n := CutLen(s);
    CutLenIsFirst(s, 0);
    CutLenBounds(s);
    BoundaryIff(s[..n]);
    hide Boundary, CutLen, Fingerprint;
    forall k | 524288 <= k < n
      ensures !Divisible(s[..n][..k])
    {
      assert s[..n][..k] == s[..k];
      BoundaryIff(s[..k]);
    }
  }

  lemma NotYet(s: Bytes, n: nat, k: nat)
    requires k < n <= |s| && Uncut(s[..n])
    ensures !Boundary(s[..k])
  {
    assert s[..n][..k] == s[..k];
    BoundaryIff(s[..k]);
    hide Boundary, Fingerprint;
  }

  lemma FirstPieceIsCut(s: Bytes, n: nat)
    requires 0 < n <= |s| && Uncut(s[..n]) && (n < |s| ==> Ended(s[..n]))
    ensures CutLen(s) == n
  {
    BoundaryIff(s[..n]);
    hide Boundary, Fingerprint, CutLen, Uncut;
    forall k | 0 < k < n
      ensures !Boundary(s[..k])
    {
      NotYet(s, n, k);
    }
    CutLenFirst(s, 0, n);
  }

  /**
   The chunking in numbers: of all ways to cut a file, it is the one whose pieces are never empty or above 8 MiB,
   end as soon as they have 512 KiB and a fingerprint that is a multiple of 2^21, and but for the last one only
   there or at 8 MiB.
   */
  lemma {:induction false} SplitIff(s: Bytes, pieces: seq<Bytes>)
    ensures pieces == Split(s) <==> Flatten(pieces) == s && ContentDefined(pieces)
    decreases |s|
  {
    Partition(s);
    hide Boundary, CutLen, Uncut, Ended;
    if s == [] {
      if pieces != [] && ContentDefined(pieces) {
        assert Uncut(pieces[0]);
        UncutIsNotEmpty(pieces[0]);
      }
    } else {
      var n := CutLen(s);
      FirstPiece(s);
      SplitIff(s[n..], Split(s[n..]));
      SplitHasTail(s);
      ConsContentDefined(s[..n], Split(s[n..]));
      if Flatten(pieces) == s && ContentDefined(pieces) {
        HeadIsCut(s, pieces);
        SplitIff(s[n..], pieces[1..]);
        assert pieces == [pieces[0]] + pieces[1..];
      }
    }
  }

  lemma UncutIsNotEmpty(piece: Bytes)
    requires Uncut(piece)
    ensures piece != []
  {
  }

  lemma SplitHasTail(s: Bytes)
    requires s != []
    ensures CutLen(s) == |s| <==> Split(s[CutLen(s)..]) == []
  {
    hide CutLen;
  }

  lemma ConsContentDefined(piece: Bytes, rest: seq<Bytes>)
    requires Uncut(piece) && (rest != [] ==> Ended(piece)) && ContentDefined(rest)
    ensures ContentDefined([piece] + rest)
  {
    hide Uncut, Ended;
  }

  lemma HeadIsCut(s: Bytes, pieces: seq<Bytes>)
    requires s != [] && Flatten(pieces) == s && ContentDefined(pieces)
    ensures pieces != [] && |pieces[0]| == CutLen(s) && pieces[0] == s[..CutLen(s)]
    ensures Flatten(pieces[1..]) == s[CutLen(s)..] && ContentDefined(pieces[1..])
  {
    var n := |pieces[0]|;
    assert s[..n] == pieces[0] && s[n..] == Flatten(pieces[1..]);
    UncutIsNotEmpty(pieces[0]);
    hide Uncut, Ended, CutLen;
    if n < |s| {
      assert pieces[1..] != [];
    }
    FirstPieceIsCut(s, n);
  }

  lemma {:induction false} ZeroFingerprint(s: Bytes)
    requires forall i | 0 <= i < |s| :: s[i] == 0
    ensures Fingerprint(s) == 0
    decreases |s|
  {
    hide Fingerprint, Table, Slid;
    if s == [] {
      EmptyFingerprint();
    } else {
      var before := s[..|s| - 1];
      ZeroFingerprint(before);
      TableFits(0);
      SlideIs(before, 0);
      Mixed(0, 0, 0);
      assert s == before + [0];
    }
  }

  /** A file of zero bytes is cut every 512 KiB. */
  lemma ZerosAreCutAtMin(s: Bytes, i: nat)
    requires (forall j | 0 <= j < |s| :: s[j] == 0) && i < |Split(s)|
    ensures |Split(s)[i]| == if i < |Split(s)| - 1 then 524288 else |s| - 524288 * i
    ensures i == |Split(s)| - 1 ==> 0 < |Split(s)[i]| <= 524288
    decreases |s|
  {
    hide Boundary, CutLen, Split, Fingerprint, Divisible;
    SplitIff(s, Split(s));
    ZeroPieces(Split(s), i);
  }

  lemma ZeroPiece(piece: Bytes)
    requires Uncut(piece) && forall i | 0 <= i < |piece| :: piece[i] == 0
    ensures 0 < |piece| <= 524288
  {
    var head := piece[..if |piece| < 524288 then |piece| else 524288];
    ZeroFingerprint(head);
    assert Divisible(head);
    hide Divisible;
  }

  lemma {:induction false} ZeroPieces(pieces: seq<Bytes>, i: nat)
    requires ContentDefined(pieces) && i < |pieces|
    requires forall j | 0 <= j < |Flatten(pieces)| :: Flatten(pieces)[j] == 0
    ensures |pieces[i]| == if i < |pieces| - 1 then 524288 else |Flatten(pieces)| - 524288 * i
    ensures i == |pieces| - 1 ==> 0 < |pieces[i]| <= 524288
    decreases |pieces|
  {
    var piece, rest := pieces[0], pieces[1..];
    assert Flatten(pieces) == piece + Flatten(rest);
    assert forall j | 0 <= j < |piece| :: piece[j] == Flatten(pieces)[j];
    assert forall j | 0 <= j < |Flatten(rest)| :: Flatten(rest)[j] == Flatten(pieces)[|piece| + j];
    assert Uncut(piece) && (|pieces| > 1 ==> Ended(piece));
    ZeroPiece(piece);
    hide Uncut;
    if rest == [] {
      assert Flatten(pieces) == piece;
    } else if i == 0 {
      assert |piece| >= 524288;
    } else {
      hide Ended;
      ZeroPieces(rest, i - 1);
    }
  }

  /** Chunk offsets are contiguous, sizes are the data lengths and hashes are those of the data. */
  lemma {:induction false} LabelsAreContiguous(hash: Bytes -> string, pieces: seq<Bytes>, offset: nat, i: nat)
    requires i < |pieces|
    ensures Label(hash, pieces, offset)[i]
         == Chunk(hash(pieces[i]), pieces[i], |pieces[i]|, offset + |Flatten(pieces[..i])|)
  {
    if i > 0 {
      LabelsAreContiguous(hash, pieces[1..], offset + |pieces[0]|, i - 1);
      assert pieces[..i][1..] == pieces[1..][..i - 1];
    }
  }

  /** The last piece, when it ended with the file and not at a boundary, grows with the file. */
  lemma OpenTail(s: Bytes, t: Bytes)
    requires s != [] && t != [] && CutLen(s) == |s| && !Boundary(s)
    ensures Split(s) == [s] && CutLen(s + t) > |s|
  {
    hide Boundary;
    var whole := s + t;
    assert whole[..|s|] == s == s[..|s|];
    CutLenIsFirst(whole, 0);
    if CutLen(whole) <= |s| {
      CutLenOfPrefix(whole, s, CutLen(whole));
    }
  }

  lemma ClosedHead(s: Bytes, t: Bytes)
    requires s != [] && Boundary(s[..CutLen(s)])
    ensures Split(s) == [s[..CutLen(s)]] + Split(s[CutLen(s)..])
    ensures Split(s + t) == [s[..CutLen(s)]] + Split(s[CutLen(s)..] + t)
  {
    hide Boundary;
    var n, whole := CutLen(s), s + t;
    CutLenOfPrefix(s, whole, n);
    assert whole[..n] == s[..n] && whole[n..] == s[n..] + t;
  }

  /**
   Appending data keeps every piece except possibly the last, and keeps the last one too exactly when it ended
   at a boundary rather than at the end of the file.
   */
  lemma {:induction false} PrefixStability(s: Bytes, t: Bytes)
    requires s != [] && t != []
    ensures var m := |Split(s)|;
            && 0 < m <= |Split(s + t)|
            && Split(s + t)[..m - 1] == Split(s)[..m - 1]
            && (Split(s + t)[m - 1] == Split(s)[m - 1] <==> Boundary(Split(s)[m - 1]))
            && (Boundary(Split(s)[m - 1]) ==> Split(s + t) == Split(s) + Split(t))
  {
    hide Boundary, CutLen;
    var n := CutLen(s);
    CutLenIsFirst(s, 0);
    assert s[..|s|] == s;
    if n == |s| && !Boundary(s) {
      OpenTail(s, t);
    } else {
      ClosedHead(s, t);
      var rest := s[n..];
      if n == |s| {
        assert rest == [] && rest + t == t;
      } else {
        PrefixStability(rest, t);
        ConsPrefix(s[..n], Split(rest), Split(rest + t));
      }
    }
  }

  lemma ConsPrefix(piece: Bytes, xs: seq<Bytes>, ys: seq<Bytes>)
    requires 0 < |xs| <= |ys| && ys[..|xs| - 1] == xs[..|xs| - 1]
    ensures ([piece] + ys)[..|xs|] == ([piece] + xs)[..|xs|]
    ensures forall zs | ys == xs + zs :: [piece] + ys == [piece] + xs + zs
  {
  }

  // ---------------------------------------------------------------------------------------------
  // Resynchronisation after an edit
  // ---------------------------------------------------------------------------------------------

  /** A chunk of `s` starts (or the file ends) at position `p`. */
  predicate CutPoint(s: Bytes, p: nat)
    requires p <= |s|
    decreases |s|
  {
    p == 0 || (CutLen(s) <= p && CutPoint(s[CutLen(s)..], p - CutLen(s)))
  }

  lemma CutPointStep(s: Bytes, p: nat)
    requires 0 < p <= |s|
    ensures CutPoint(s, p) <==> CutLen(s) <= p && CutPoint(s[CutLen(s)..], p - CutLen(s))
  {
  }

  lemma SplitStep(s: Bytes)
    requires s != []
    ensures Split(s) == [s[..CutLen(s)]] + Split(s[CutLen(s)..])
  {
  }

  lemma Slices(s: Bytes, n: nat, p: nat)
    requires n <= p <= |s|
    ensures s[..p][..n] == s[..n] && s[..p][n..] == s[n..][..p - n] && s[n..][p - n..] == s[p..]
  {
  }

  /** At a cut point the chunking forgets what came before. */
  lemma {:induction false} SplitAtCutPoint(s: Bytes, p: nat)
    requires p <= |s| && CutPoint(s, p)
    ensures Split(s) == Split(s[..p]) + Split(s[p..])
    decreases |s|
  {
    if p == 0 {
      assert s[p..] == s;
    } else {
      hide Boundary, CutLen, Split, CutPoint;
      var n, head := CutLen(s), s[..p];
      CutPointStep(s, p);
      CutLenIsFirst(s, 0);
      Slices(s, n, p);
      CutLenOfPrefix(s, head, n);
      SplitAtCutPoint(s[n..], p - n);
      SplitStep(s);
      SplitStep(head);
      ConcatAssoc([s[..n]], Split(head[n..]), Split(s[p..]));
    }
  }

  lemma {:induction false} NextCutPoint(s: Bytes, start: nat)
    requires start < |s| && CutPoint(s, start)
    ensures CutPoint(s, start + CutLen(s[start..]))
    decreases |s|
  {
    var n := CutLen(s);
    if start == 0 {
      assert s[start..] == s;
      assert CutPoint(s[n..], 0);
      CutPointStep(s, n);
    } else {
      hide Boundary, CutLen, CutPoint;
      CutPointStep(s, start);
      NextCutPoint(s[n..], start - n);
      assert s[n..][start - n..] == s[start..];
      CutPointStep(s, start + CutLen(s[start..]));
    }
  }

  /** The chunk opened at `start` has not been closed before `p`. */
  ghost predicate OpenAt(s: Bytes, start: nat, p: nat) {
    start < p <= |s| && CutPoint(s, start) && p - start <= CutLen(s[start..])
  }

  lemma LocalBoundary(s: Bytes, start: nat, p: nat)
    requires start + MIN_CHUNK_SIZE <= p <= |s|
    requires Matches(Fingerprint(s[p - REACH..p]))
    ensures Boundary(s[start..p])
  {
    hide Fingerprint, Matches;
    var head := s[start..p];
    StartForgotten([], head);
    assert [] + head == head;
    assert head[|head| - REACH..] == s[p - REACH..p];
  }

  /** An open chunk of admissible size closes where the last 117 bytes match the mask. */
  lemma LocalCut(s: Bytes, start: nat, p: nat)
    requires OpenAt(s, start, p) && MIN_CHUNK_SIZE <= p - start
    requires Matches(Fingerprint(s[p - REACH..p]))
    ensures CutPoint(s, p)
  {
    hide Boundary, Fingerprint, Matches;
    LocalBoundary(s, start, p);
    assert s[start..][..p - start] == s[start..p];
    CutLenIsFirst(s[start..], 0);
    NextCutPoint(s, start);
  }

  lemma CutInSuffix(a: Bytes, x: Bytes, p: nat, start: nat)
    requires REACH <= p <= |x| && Matches(Fingerprint(x[p - REACH..p]))
    requires OpenAt(a + x, start, |a| + p) && MIN_CHUNK_SIZE <= |a| + p - start
    ensures CutPoint(a + x, |a| + p)
  {
    hide Boundary, CutPoint, Fingerprint, Matches, CutLen;
    assert (a + x)[|a| + p - REACH..|a| + p] == x[p - REACH..p];
    LocalCut(a + x, start, |a| + p);
  }

  /** Two files with a common suffix `x` that are both cut at the same place of it agree from there on. */
  lemma SuffixChunksAgree(hash: Bytes -> string, a: Bytes, b: Bytes, x: Bytes, p: nat)
    requires p <= |x| && CutPoint(a + x, |a| + p) && CutPoint(b + x, |b| + p)
    ensures Chunks(hash, a + x)
         == Chunks(hash, a + x[..p]) + Label(hash, Split(x[p..]), |a| + p)
    ensures Chunks(hash, b + x)
         == Chunks(hash, b + x[..p]) + Label(hash, Split(x[p..]), |b| + p)
  {
    TailChunks(hash, a, x, p);
    TailChunks(hash, b, x, p);
  }

  lemma TailChunks(hash: Bytes -> string, a: Bytes, x: Bytes, p: nat)
    requires p <= |x| && CutPoint(a + x, |a| + p)
    ensures Chunks(hash, a + x) == Chunks(hash, a + x[..p]) + Label(hash, Split(x[p..]), |a| + p)
  {
    hide Boundary, CutPoint;
    SplitAtCutPoint(a + x, |a| + p);
    assert (a + x)[..|a| + p] == a + x[..p];
    assert (a + x)[|a| + p..] == x[p..];
    LabelConcat(hash, Split(a + x[..p]), Split(x[p..]), 0);
    Partition(a + x[..p]);
  }

  lemma ConcatAssoc<T>(a: seq<T>, b: seq<T>, c: seq<T>)
    ensures (a + b) + c == a + (b + c)
  {
  }

  lemma LabelStep(hash: Bytes -> string, x: Bytes, rest: seq<Bytes>, offset: nat)
    ensures Label(hash, [x] + rest, offset) == [Chunk(hash(x), x, |x|, offset)] + Label(hash, rest, offset + |x|)
    ensures |Flatten([x] + rest)| == |x| + |Flatten(rest)|
  {
    assert ([x] + rest)[1..] == rest;
  }

  lemma {:induction false} LabelConcat(hash: Bytes -> string, xs: seq<Bytes>, ys: seq<Bytes>, offset: nat)
    ensures Label(hash, xs + ys, offset) == Label(hash, xs, offset) + Label(hash, ys, offset + |Flatten(xs)|)
    decreases |xs|
  {
    if xs == [] {
      assert xs + ys == ys;
    } else {
      hide Label, Flatten;
      var x, rest := xs[0], xs[1..];
      LabelConcat(hash, rest, ys, offset + |x|);
      assert xs == [x] + rest;
      ConcatAssoc([x], rest, ys);
      LabelStep(hash, x, rest, offset);
      LabelStep(hash, x, rest + ys, offset);
      ConcatAssoc([Chunk(hash(x), x, |x|, offset)], Label(hash, rest, offset + |x|),
                  Label(hash, ys, offset + |Flatten(xs)|));
    }
  }

  /**
   Delta sync: two files that share a suffix resynchronise at any place at least 117 bytes into it that matches
   the mask while both open chunks have an admissible size; from there all chunks carry the same hashes, data
   and sizes, their offsets shifted by the difference of the prefix lengths.
   */
  lemma Resynchronise(hash: Bytes -> string, a: Bytes, b: Bytes, x: Bytes, p: nat, startA: nat, startB: nat)
    requires REACH <= p <= |x| && Matches(Fingerprint(x[p - REACH..p]))
    requires OpenAt(a + x, startA, |a| + p) && MIN_CHUNK_SIZE <= |a| + p - startA
    requires OpenAt(b + x, startB, |b| + p) && MIN_CHUNK_SIZE <= |b| + p - startB
    ensures Chunks(hash, a + x) == Chunks(hash, a + x[..p]) + Label(hash, Split(x[p..]), |a| + p)
    ensures Chunks(hash, b + x) == Chunks(hash, b + x[..p]) + Label(hash, Split(x[p..]), |b| + p)
    ensures Flatten(Split(x[p..])) == x[p..]
  {
    hide *;
    CutInSuffix(a, x, p, startA);
    CutInSuffix(b, x, p, startB);
    SuffixChunksAgree(hash, a, b, x, p);
    Partition(x[p..]);
  }

  // ---------------------------------------------------------------------------------------------
  // The incremental chunker
  // ---------------------------------------------------------------------------------------------

  datatype ReadError = NoError | Eof | Fault

  /** One call of Read: some bytes, and possibly an error together with them. */
  datatype ReadResult = ReadResult(data: Bytes, err: ReadError)

  /** The bytes a reader delivers up to its end of file. */
  function Content(script: seq<ReadResult>): Bytes {
    if script == [] then []
    else script[0].data + if script[0].err == Eof then [] else Content(script[1..])
  }

  /** No read of the script fails. */
  ghost predicate Steady(script: seq<ReadResult>) {
    forall read | read in script :: read.err != Fault
  }

  /** A source whose reads return what its script says, then end of file. */
  class Reader {
    var script: seq<ReadResult>

    constructor (script: seq<ReadResult>)
      ensures this.script == script
    {
      this.script := script;
    }

    method Read() returns (r: ReadResult)
      modifies this
      ensures old(script) == [] ==> r == ReadResult([], Eof) && script == []
      ensures old(script) != [] ==> r == old(script)[0] && script == old(script)[1..]
    {
      if script == [] {
        return ReadResult([], Eof);
      }
      r := script[0];
      script := script[1..];
    }
  }

  datatype NextResult = Emit(chunk: Chunk) | EndOfFile | ReadFailed

  class BufferedChunker {
    const r: Reader
    const hasher: RabinHasher
    const hash: Bytes -> string
    var pending: Bytes
    var offset: nat
    var done: bool

    ghost predicate Valid()
      reads this, hasher, hasher.window, hasher.tables
    {
      hasher.Valid()
    }

    /** What is still to be cut: the bytes read but not emitted, then the bytes not read yet. */
    ghost function Rest(): Bytes
      reads this, r
    {
      pending + if done then [] else Content(r.script)
    }

    constructor (r: Reader, hash: Bytes -> string)
      ensures Valid() && fresh(hasher) && fresh(hasher.window) && fresh(hasher.tables)
      ensures this.r == r && this.hash == hash
      ensures Rest() == Content(r.script) && offset == 0
    {
      this.r := r;
      this.hash := hash;
      hasher := new RabinHasher();
      pending, offset, done := [], 0, false;
    }

    /** The scan over the bytes appended since the last read: stops behind the first boundary it meets. */
    method Scan(scanned: nat) returns (found: bool, chunkLen: nat)
      requires Valid() && scanned <= |pending| && hasher.history == pending[..scanned]
      requires NoBoundary(pending, scanned)
      modifies hasher, hasher.window
      ensures Valid() && chunkLen <= |pending| && hasher.history == pending[..chunkLen]
      ensures found ==> 0 < chunkLen && NoBoundary(pending, chunkLen - 1) && Boundary(pending[..chunkLen])
      ensures !found ==> chunkLen == |pending| && NoBoundary(pending, chunkLen)
    {
      hide Boundary, Fingerprint, Matches, CutLen, RabinHasher.Valid;
      var i := scanned;
      while i < |pending|
        invariant Valid() && 0 <= i <= |pending| && hasher.history == pending[..i]
        invariant NoBoundary(pending, i)
      {
        var fp := hasher.Slide(pending[i]);
        chunkLen := i + 1;
        assert pending[..i] + [pending[i]] == pending[..chunkLen];
        BoundaryTest(pending[..chunkLen], fp);
        if chunkLen >= MAX_CHUNK_SIZE || (chunkLen >= MIN_CHUNK_SIZE && Matches(fp)) {
          return true, chunkLen;
        }
        i := i + 1;
      }
      return false, |pending|;
    }

    /** Emits the first `n` pending bytes. */
    method Take(n: nat) returns (c: Chunk)
      requires 0 < n <= |pending|
      modifies `pending, `offset
      ensures n <= |old(Rest())| && old(Rest())[..n] == old(pending)[..n] && Rest() == old(Rest())[n..]
      ensures c == Chunk(hash(old(pending)[..n]), old(pending)[..n], n, old(offset))
      ensures offset == old(offset) + n
    {
      var data := pending[..n];
      c := Chunk(hash(data), data, n, offset);
      pending := pending[n..];
      offset := offset + n;
    }

    /** One read from the source into `pending`. */
    method Fill() returns (ok: bool)
      requires !done
      modifies `pending, `done, r
      ensures Rest() == old(Rest()) && old(pending) <= pending
      ensures |r.script| <= old(|r.script|)
      ensures !done || !ok ==> |r.script| < old(|r.script|)
      ensures !ok ==> !done
      ensures Steady(old(r.script)) ==> ok && Steady(r.script)
    {
      var read := r.Read();
      pending := pending + read.data;
      if read.err == Eof {
        done := true;
      }
      return read.err != Fault;
    }

    /**
     One chunk. The result only depends on the bytes still to come, not on how they are split into reads; every
     byte of an emitted chunk was slid exactly once, in order; a failed read loses nothing.
     */
    method Next() returns (result: NextResult)
      requires Valid()
      modifies this, r, hasher, hasher.window
      ensures Valid()
      ensures result.EndOfFile? <==> old(Rest()) == [] && !result.ReadFailed?
      ensures result.Emit? ==>
                var rest, n := old(Rest()), CutLen(old(Rest()));
                && result.chunk == Chunk(hash(rest[..n]), rest[..n], n, old(offset))
                && Rest() == rest[n..]
                && offset == old(offset) + n
                && hasher.history == rest[..n]
      ensures !result.Emit? ==> Rest() == old(Rest()) && offset == old(offset)
      ensures result.ReadFailed? ==> |r.script| < |old(r.script)|
      ensures |r.script| <= |old(r.script)|
      ensures Steady(old(r.script)) ==> !result.ReadFailed? && Steady(r.script)
    {
      hide Boundary, Fingerprint, Matches, CutLen, RabinHasher.Valid, Steady;
      if done && |pending| == 0 {
        return EndOfFile;
      }
      hasher.Reset();
      var scanned := 0;
      while true
        invariant Valid() && 0 <= scanned <= |pending| && hasher.history == pending[..scanned]
        invariant forall k | 0 < k <= scanned :: !Boundary(pending[..k])
        invariant Rest() == old(Rest()) && offset == old(offset)
        invariant |r.script| <= |old(r.script)|
        invariant Steady(old(r.script)) ==> Steady(r.script)
        decreases |r.script| + if done then 0 else 1
      {
        var found, chunkLen := Scan(scanned);
        if found {
          FoundCut(pending, old(Rest()), chunkLen);
          var c := Take(chunkLen);
          return Emit(c);
        }
        scanned := |pending|;
        if done {
          if |pending| > 0 {
            CutLenFirst(pending, 0, |pending|);
            assert pending[..|pending|] == pending == old(Rest());
            var c := Take(|pending|);
            return Emit(c);
          }
          return EndOfFile;
        }
        ghost var before := pending;
        var ok := Fill();
        forall k | 0 < k <= scanned ensures pending[..k] == before[..k] {}
        if !ok {
          return ReadFailed;
        }
      }
    }
  }

  lemma BoundaryTest(head: Bytes, fp: bv64)
    requires fp == Fingerprint(head)
    ensures Boundary(head) <==> |head| >= MAX_CHUNK_SIZE || (|head| >= MIN_CHUNK_SIZE && Matches(fp))
  {
  }

  lemma FoundCut(pending: Bytes, rest: Bytes, n: nat)
    requires 0 < n <= |pending| <= |rest| && pending == rest[..|pending|]
    requires NoBoundary(pending, n - 1) && Boundary(pending[..n])
    ensures CutLen(rest) == n && rest[..n] == pending[..n]
  {
    hide Boundary;
    forall k | 0 < k <= n
      ensures rest[..k] == pending[..k]
    {
    }
    CutLenFirst(rest, 0, n);
  }

  lemma NoChunks(hash: Bytes -> string, offset: nat)
    ensures Label(hash, Split([]), offset) == []
  {
  }

  lemma ChunksStep(hash: Bytes -> string, rest: Bytes, offset: nat, soFar: seq<Chunk>)
    requires rest != []
    ensures var n := CutLen(rest);
            soFar + Label(hash, Split(rest), offset)
            == soFar + [Chunk(hash(rest[..n]), rest[..n], n, offset)] + Label(hash, Split(rest[n..]), offset + n)
  {
    hide Boundary;
    var n := CutLen(rest);
    assert Split(rest) == [rest[..n]] + Split(rest[n..]);
    assert Split(rest)[1..] == Split(rest[n..]);
  }

  /**
   Repeated Next until the end of the file, retrying after failed reads, yields the chunks of the content: how
   the content was split into reads, and where reads failed, makes no difference.
   */
  method CollectChunks(c: BufferedChunker) returns (chunks: seq<Chunk>)
    requires c.Valid()
    modifies c, c.r, c.hasher, c.hasher.window
    ensures chunks == Label(c.hash, Split(old(c.Rest())), old(c.offset))
  {
    hide Boundary, CutLen, Split, Label, Fingerprint, RabinHasher.Valid;
    chunks := [];
    while true
      invariant c.Valid()
      invariant chunks + Label(c.hash, Split(c.Rest()), c.offset) == Label(c.hash, Split(old(c.Rest())), old(c.offset))
      decreases |c.Rest()|, |c.r.script|
    {
      ghost var rest, offset, soFar := c.Rest(), c.offset, chunks;
      var next := c.Next();
      match next
      case EndOfFile =>
        NoChunks(c.hash, c.offset);
        return;
      case ReadFailed =>
      case Emit(chunk) =>
        chunks := chunks + [chunk];
        ChunksStep(c.hash, rest, offset, soFar);
    }
  }
}

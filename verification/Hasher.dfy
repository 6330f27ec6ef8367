/**
 The rolling fingerprint of apps/backend/internal/chunk/cdc.go: a 64-slot ring of recent bytes, a 64-bit
 hash and a 256-entry table. `Fingerprint` says what the hash is after a history of slides; the lemmas
 say on which bytes of that history it depends.
 */
module Hasher {

  type Byte = bv8
  type Bytes = seq<Byte>

  const WINDOW_SIZE: nat := 64
  const POLY: bv64 := 0x3DA3358B4DC173

  // Number of most recent bytes that can reach the hash: a byte enters at age 0 and is XORed in a second
  // time at age 64; each copy is shifted out after 54 slides.
  const COPY_LIFE: nat := 54
  const REACH: nat := 117

  // ---------------------------------------------------------------------------------------------
  // The table
  // ---------------------------------------------------------------------------------------------

  function TableRound(x: bv64): bv64 {
    if x & 1 == 1 then (x >> 1) ^ POLY else x >> 1
  }

  function TableRounds(x: bv64, rounds: nat): bv64 {
    if rounds == 0 then x else TableRound(TableRounds(x, rounds - 1))
  }

  /** The table entry of a byte. */
  function Table(b: Byte): bv64 {
    TableRounds(b as bv64, 8)
  }

  lemma {:induction false} TableRoundsFit(x: bv64, rounds: nat)
    requires x < 0x40_0000_0000_0000
    ensures TableRounds(x, rounds) < 0x40_0000_0000_0000
  {
    if rounds > 0 {
      TableRoundsFit(x, rounds - 1);
    }
  }

  lemma {:induction false} TableRoundsOfZero(rounds: nat)
    ensures TableRounds(0, rounds) == 0
  {
    if rounds > 0 {
      TableRoundsOfZero(rounds - 1);
    }
  }

  /** Every table entry is below 2^54, and the entry of the zero byte is zero. */
  lemma TableFits(b: Byte)
    ensures Table(b) < 0x40_0000_0000_0000
    ensures b == 0 ==> Table(b) == 0
  {
    TableRoundsFit(b as bv64, 8);
    if b == 0 {
      TableRoundsOfZero(8);
    }
  }

  predicate Odd(x: bv64) {
    x & 1 == 1
  }

  lemma TableRoundIs(x: bv64)
    ensures TableRound(x) == if Odd(x) then Xor(Half(x), POLY) else Half(x)
  {
  }

  lemma OddOfXor(x: bv64, y: bv64)
    ensures Odd(Xor(x, y)) <==> Odd(x) != Odd(y)
  {
  }

  lemma PolyMoves(x: bv64, y: bv64)
    ensures Xor(Xor(x, POLY), Xor(y, POLY)) == Xor(x, y)
    ensures Xor(Xor(x, POLY), y) == Xor(x, Xor(y, POLY)) == Xor(Xor(x, y), POLY)
  {
    var p := POLY;
    assert Xor(p, p) == 0;
    hide Xor;
    XorAssoc(x, p, y);
    XorComm(p, y);
    XorAssoc(x, y, p);
    XorAssoc(x, p, Xor(y, p));
    XorComm(y, p);
    XorAssoc(p, p, y);
    XorComm(0, y);
  }

  lemma TableRoundXor(x: bv64, y: bv64)
    ensures TableRound(Xor(x, y)) == Xor(TableRound(x), TableRound(y))
  {
    hide TableRound, Xor, Half, Odd;
    TableRoundIs(x);
    TableRoundIs(y);
    TableRoundIs(Xor(x, y));
    OddOfXor(x, y);
    HalfOfXor(x, y);
    PolyMoves(Half(x), Half(y));
  }

  lemma {:induction false} TableRoundsXor(x: bv64, y: bv64, rounds: nat)
    ensures TableRounds(Xor(x, y), rounds) == Xor(TableRounds(x, rounds), TableRounds(y, rounds))
  {
    hide TableRound, Xor;
    if rounds > 0 {
      TableRoundsXor(x, y, rounds - 1);
      TableRoundXor(TableRounds(x, rounds - 1), TableRounds(y, rounds - 1));
    }
  }

  lemma WordOfXor(a: Byte, b: Byte)
    ensures (a ^ b) as bv64 == Xor(a as bv64, b as bv64)
  {
  }

  /** The table is linear: the entry of a XOR of bytes is the XOR of their entries. */
  lemma TableIsLinear(a: Byte, b: Byte)
    ensures Table(a ^ b) == Table(a) ^ Table(b)
  {
    hide TableRounds;
    assert Table(a) ^ Table(b) == Xor(Table(a), Table(b));
    hide Xor;
    WordOfXor(a, b);
    TableRoundsXor(a as bv64, b as bv64, 8);
  }

  /** A round can be undone: the polynomial has bit 53, which halving clears. */
  lemma TableRoundInjective(x: bv64, y: bv64)
    requires x < 0x40_0000_0000_0000 && y < 0x40_0000_0000_0000 && TableRound(x) == TableRound(y)
    ensures x == y
  {
  }

  lemma {:induction false} TableRoundsInjective(x: bv64, y: bv64, rounds: nat)
    requires x < 0x40_0000_0000_0000 && y < 0x40_0000_0000_0000 && TableRounds(x, rounds) == TableRounds(y, rounds)
    ensures x == y
  {
    if rounds > 0 {
      TableRoundsFit(x, rounds - 1);
      TableRoundsFit(y, rounds - 1);
      TableRoundInjective(TableRounds(x, rounds - 1), TableRounds(y, rounds - 1));
      TableRoundsInjective(x, y, rounds - 1);
    }
  }

  /** Different bytes have different entries. */
  lemma TableIsInjective(a: Byte, b: Byte)
    ensures Table(a) == Table(b) <==> a == b
  {
    if Table(a) == Table(b) {
      TableRoundsInjective(a as bv64, b as bv64, 8);
    }
    hide TableRounds;
  }

  lemma {:induction false} FirstRound(x: bv64, rounds: nat)
    ensures TableRounds(TableRound(x), rounds) == TableRound(TableRounds(x, rounds))
  {
    hide TableRound;
    if rounds > 0 {
      FirstRound(x, rounds - 1);
    }
  }

  /**
   The entry of a byte is one shift of the entry of its double, reduced by the polynomial: with the entry of 128 and
   linearity this fixes the whole table.
   */
  lemma TableHalves(b: Byte)
    requires b < 128
    ensures var double := Table(2 * b);
            Table(b) == if double & 1 == 1 then (double >> 1) ^ 0x3DA3358B4DC173 else double >> 1
  {
    assert TableRound((2 * b) as bv64) == b as bv64;
    FirstRound((2 * b) as bv64, 8);
    hide TableRounds;
  }

  // ---------------------------------------------------------------------------------------------
  // Fingerprint of a history
  // ---------------------------------------------------------------------------------------------

  /** The byte slid in `age` slides before the newest one; zero before the start of the history. */
  function At(history: Bytes, age: nat): Byte {
    if age < |history| then history[|history| - 1 - age] else 0
  }

  function Xor(a: bv64, b: bv64): bv64 { a ^ b }

  function Half(a: bv64): bv64 { a >> 1 }

  /** The hash after sliding the bytes of `history`, oldest first, into a fresh hasher. */
  function Fingerprint(history: Bytes): bv64 {
    if history == [] then 0
    else
      var before := history[..|history| - 1];
      var kept := Half(Xor(Fingerprint(before), Table(At(before, WINDOW_SIZE - 1))));
      Xor(kept, Table(history[|history| - 1]))
  }

  // ---------------------------------------------------------------------------------------------
  // Closed form
  // ---------------------------------------------------------------------------------------------

  /** `x` shifted right `n` times. */
  function Shr(x: bv64, n: nat): bv64 {
    if n == 0 then x else Half(Shr(x, n - 1))
  }

  /** XOR of the first copies of the `n` newest bytes: the byte of age k contributes Table(b) >> k. */
  function FirstCopies(history: Bytes, n: nat): bv64 {
    if n == 0 then 0 else Xor(FirstCopies(history, n - 1), Shr(Table(At(history, n - 1)), n - 1))
  }

  /** XOR of the second copies of `n` bytes leaving the window: age 63 + k contributes Table(b) >> k. */
  function SecondCopies(history: Bytes, n: nat): bv64 {
    if n == 0 then 0 else Xor(SecondCopies(history, n - 1), Shr(Table(At(history, WINDOW_SIZE - 1 + n)), n))
  }

  lemma HalfOfXor(a: bv64, b: bv64)
    ensures Half(Xor(a, b)) == Xor(Half(a), Half(b))
  {
  }

  lemma XorAssoc(a: bv64, b: bv64, c: bv64)
    ensures Xor(Xor(a, b), c) == Xor(a, Xor(b, c))
    ensures Xor(a, 0) == Xor(0, a) == a
    ensures Half(0) == 0
  {
  }

  lemma {:induction false} ShrSum(x: bv64, m: nat, n: nat)
    ensures Shr(x, m + n) == Shr(Shr(x, m), n)
  {
    hide Xor, Half, Table;
    if n > 0 {
      ShrSum(x, m, n - 1);
    }
  }

  function Down6(x: bv64): bv64 { x >> 6 }

  function Down18(x: bv64): bv64 { x >> 18 }

  lemma DownsAdd(x: bv64)
    ensures Down6(Down6(Down6(x))) == Down18(x)
  {
  }

  lemma ThreeDowns(x: bv64)
    requires x < 0x40_0000_0000_0000
    ensures Down18(Down18(Down18(x))) == 0
  {
  }

  lemma SixHalves(x: bv64)
    ensures Half(Half(Half(Half(Half(Half(x)))))) == Down6(x)
  {
  }

  lemma ShrThree(x: bv64)
    ensures Shr(x, 3) == Half(Half(Half(x)))
  {
    hide Half;
    assert Shr(x, 1) == Half(x);
  }

  lemma ShrSix(x: bv64)
    ensures Shr(x, 6) == Down6(x)
  {
    hide *;
    ShrSum(x, 3, 3);
    ShrThree(x);
    ShrThree(Shr(x, 3));
    SixHalves(x);
  }

  lemma ShrEighteen(x: bv64)
    ensures Shr(x, 18) == Down18(x)
  {
    hide *;
    ShrSum(x, 6, 6);
    ShrSum(x, 12, 6);
    ShrSix(x);
    ShrSix(Down6(x));
    ShrSix(Down6(Down6(x)));
    DownsAdd(x);
  }

  /** A table entry is shifted out completely after 54 slides. */
  lemma TableDies(b: Byte)
    ensures Shr(Table(b), COPY_LIFE) == 0
  {
    hide Shr, Table, Down18;
    var x := Table(b);
    ShrEighteen(x);
    ShrEighteen(Down18(x));
    ShrEighteen(Down18(Down18(x)));
    ShrSum(x, 18, 18);
    ShrSum(x, 36, 18);
    TableFits(b);
    ThreeDowns(x);
  }

  /** One slide ages every first copy by one. */
  lemma {:induction false} FirstCopiesAge(before: Bytes, b: Byte, n: nat)
    ensures FirstCopies(before + [b], n + 1) == Xor(Table(b), Half(FirstCopies(before, n)))
  {
    hide Xor, Half, Table;
    var after := before + [b];
    assert At(after, 0) == b;
    if n == 0 {
      XorAssoc(Table(b), 0, 0);
      assert FirstCopies(after, 1) == Xor(FirstCopies(after, 0), Shr(Table(At(after, 0)), 0));
    } else {
      FirstCopiesAge(before, b, n - 1);
      var young := Shr(Table(At(before, n - 1)), n - 1);
      assert At(after, n) == At(before, n - 1);
      HalfOfXor(FirstCopies(before, n - 1), young);
      XorAssoc(Table(b), Half(FirstCopies(before, n - 1)), Half(young));
    }
  }

  /** One slide ages every second copy by one, and the byte pushed out of the window starts its second copy. */
  lemma {:induction false} SecondCopiesAge(before: Bytes, b: Byte, n: nat)
    ensures SecondCopies(before + [b], n + 1)
         == Xor(Half(Table(At(before, WINDOW_SIZE - 1))), Half(SecondCopies(before, n)))
  {
    hide Xor, Half, Table;
    var after := before + [b];
    var out := Table(At(before, WINDOW_SIZE - 1));
    assert At(after, WINDOW_SIZE + n) == At(before, WINDOW_SIZE - 1 + n);
    if n == 0 {
      XorAssoc(Half(out), 0, 0);
      assert Shr(out, 1) == Half(Shr(out, 0)) == Half(out);
      assert SecondCopies(after, 1) == Xor(SecondCopies(after, 0), Shr(out, 1));
    } else {
      SecondCopiesAge(before, b, n - 1);
      var leaving := Shr(Table(At(before, WINDOW_SIZE - 1 + n)), n);
      HalfOfXor(SecondCopies(before, n - 1), leaving);
      XorAssoc(Half(out), Half(SecondCopies(before, n - 1)), Half(leaving));
    }
  }

  lemma {:induction false} CopiesOfNothing(n: nat)
    ensures FirstCopies([], n) == 0 && SecondCopies([], n) == 0
  {
    hide Xor, Half, Table;
    XorAssoc(0, 0, 0);
    TableFits(0);
    if n > 0 {
      CopiesOfNothing(n - 1);
      ShrOfZero(n - 1);
      ShrOfZero(n);
    }
  }

  lemma {:induction false} ShrOfZero(n: nat)
    ensures Shr(0, n) == 0
  {
    hide Xor, Half, Table;
    XorAssoc(0, 0, 0);
    if n > 0 {
      ShrOfZero(n - 1);
    }
  }

  /**
   Closed form of the rolling hash: the byte of age k contributes Table(b) >> k while k <= 53, nothing at ages
   54..63, and Table(b) >> (k - 63) again at ages 64..116.
   */
  lemma {:induction false} ClosedForm(history: Bytes)
    ensures Fingerprint(history) == Xor(FirstCopies(history, COPY_LIFE), SecondCopies(history, COPY_LIFE - 1))
  {
    hide Xor, Half, Table;
    if history == [] {
      CopiesOfNothing(COPY_LIFE);
      CopiesOfNothing(COPY_LIFE - 1);
      XorAssoc(0, 0, 0);
    } else {
      var before, b := history[..|history| - 1], history[|history| - 1];
      assert history == before + [b];
      ClosedForm(before);
      FirstCopiesAge(before, b, COPY_LIFE - 1);
      SecondCopiesAge(before, b, COPY_LIFE - 2);
      LastCopyDies(FirstCopies(before, COPY_LIFE - 1), At(before, COPY_LIFE - 1));
      LastCopyDies(SecondCopies(before, COPY_LIFE - 2), At(before, WINDOW_SIZE - 1 + COPY_LIFE - 1));
      SlideArith(FirstCopies(before, COPY_LIFE), SecondCopies(before, COPY_LIFE - 1),
                 Table(At(before, WINDOW_SIZE - 1)), Table(b));
    }
  }

  lemma LastCopyDies(rest: bv64, b: Byte)
    ensures Half(Xor(rest, Shr(Table(b), COPY_LIFE - 1))) == Half(rest)
  {
    hide Xor, Half, Table;
    TableDies(b);
    HalfOfXor(rest, Shr(Table(b), COPY_LIFE - 1));
    assert Shr(Table(b), COPY_LIFE) == Half(Shr(Table(b), COPY_LIFE - 1));
    XorAssoc(Half(rest), 0, 0);
  }

  lemma SlideArith(first: bv64, second: bv64, out: bv64, new': bv64)
    ensures Xor(Half(Xor(Xor(first, second), out)), new')
         == Xor(Xor(new', Half(first)), Xor(Half(out), Half(second)))
  {
    hide Half;
    HalfOfXor(Xor(first, second), out);
    HalfOfXor(first, second);
    Shuffle(Half(first), Half(second), Half(out), new');
  }

  lemma XorComm(a: bv64, b: bv64)
    ensures Xor(a, b) == Xor(b, a)
  {
  }

  lemma Shuffle(a: bv64, b: bv64, c: bv64, d: bv64)
    ensures Xor(Xor(Xor(a, b), c), d) == Xor(Xor(d, a), Xor(c, b))
  {
    hide Xor;
    XorComm(Xor(Xor(a, b), c), d);
    XorAssoc(a, b, c);
    XorComm(b, c);
    XorAssoc(d, a, Xor(c, b));
  }

  // ---------------------------------------------------------------------------------------------
  // Locality
  // ---------------------------------------------------------------------------------------------

  lemma {:induction false} CopiesLocal(s: Bytes, t: Bytes, n: nat)
    requires forall age | 0 <= age < n :: At(s, age) == At(t, age)
    ensures FirstCopies(s, n) == FirstCopies(t, n)
  {
    hide Xor, Half, Table;
    if n > 0 {
      CopiesLocal(s, t, n - 1);
    }
  }

  lemma {:induction false} SecondCopiesLocal(s: Bytes, t: Bytes, n: nat)
    requires forall age | WINDOW_SIZE <= age < WINDOW_SIZE + n :: At(s, age) == At(t, age)
    ensures SecondCopies(s, n) == SecondCopies(t, n)
  {
    hide Xor, Half, Table;
    if n > 0 {
      SecondCopiesLocal(s, t, n - 1);
      assert At(s, WINDOW_SIZE - 1 + n) == At(t, WINDOW_SIZE - 1 + n);
    }
  }

  /** The fingerprint is a function of the last 117 bytes, of which those of ages 54..63 do not matter. */
  lemma Locality(s: Bytes, t: Bytes)
    requires forall age | 0 <= age < COPY_LIFE || WINDOW_SIZE <= age < REACH :: At(s, age) == At(t, age)
    ensures Fingerprint(s) == Fingerprint(t)
  {
    hide Xor, Half, Table;
    ClosedForm(s);
    ClosedForm(t);
    CopiesLocal(s, t, COPY_LIFE);
    SecondCopiesLocal(s, t, COPY_LIFE - 1);
  }

  /** Where the hashing started is forgotten: only the last 117 bytes count. */
  lemma StartForgotten(prefix: Bytes, recent: Bytes)
    requires |recent| >= 117
    ensures Fingerprint(prefix + recent) == Fingerprint(recent[|recent| - 117..])
  {
    var s, t := prefix + recent, recent[|recent| - REACH..];
    forall age | 0 <= age < REACH
      ensures At(s, age) == At(t, age)
    {
    }
    Locality(s, t);
  }

  /**
   The window is documented as 64 bytes. Two histories that agree on their last 64 bytes have the same
   fingerprint exactly when the second copies of the bytes that already left the window coincide.
   */
  lemma WindowedIff(s: Bytes, t: Bytes)
    requires forall age | 0 <= age < WINDOW_SIZE :: At(s, age) == At(t, age)
    ensures Fingerprint(s) == Fingerprint(t) <==> SecondCopies(s, COPY_LIFE - 1) == SecondCopies(t, COPY_LIFE - 1)
  {
    hide Xor, Half, Table;
    ClosedForm(s);
    ClosedForm(t);
    CopiesLocal(s, t, COPY_LIFE);
    var f, a, b := FirstCopies(s, COPY_LIFE), SecondCopies(s, COPY_LIFE - 1), SecondCopies(t, COPY_LIFE - 1);
    XorCancels(f, a, b);
  }

  lemma XorCancels(f: bv64, a: bv64, b: bv64)
    ensures Xor(f, a) == Xor(f, b) <==> a == b
  {
  }

  lemma TopEntry()
    ensures Table(128) == POLY
    ensures Shr(POLY, REACH - WINDOW_SIZE) != 0
  {
    var x: bv64 := 128;
    assert TableRounds(x, 2) == 32;
    assert TableRounds(x, 4) == 8;
    assert TableRounds(x, 6) == 2;
    assert TableRounds(x, 7) == 1;
    ShrEighteen(POLY);
    ShrEighteen(POLY >> 18);
    ShrSum(POLY, 18, 18);
    ShrSix(POLY >> 36);
    ShrSix(POLY >> 42);
    ShrSum(POLY, 36, 6);
    ShrSum(POLY, 42, 6);
    ShrFive(POLY >> 48);
    ShrSum(POLY, 48, 5);
  }

  lemma ShrFive(x: bv64)
    ensures Shr(x, 5) == x >> 5
  {
    var y := Half(Half(Half(x)));
    assert Shr(x, 1) == Half(x) && Shr(x, 2) == Half(Half(x)) && Shr(x, 3) == y;
    assert Shr(x, 4) == Half(y) && Shr(x, 5) == Half(Half(y));
  }

  lemma {:induction false} OnlyOldestMatters(s: Bytes, n: nat)
    requires forall age | 0 <= age < REACH - 1 :: At(s, age) == 0
    ensures n <= COPY_LIFE ==> FirstCopies(s, n) == 0
    ensures n < COPY_LIFE - 1 ==> SecondCopies(s, n) == 0
  {
    hide Xor, Half, Table;
    if n > 0 {
      OnlyOldestMatters(s, n - 1);
      TableFits(0);
      ShrOfZero(n - 1);
      ShrOfZero(n);
      XorAssoc(0, 0, 0);
    }
  }

  lemma AloneAtReach(s: Bytes)
    requires |s| == REACH
    requires forall age | 0 <= age < REACH - 1 :: At(s, age) == 0
    ensures Fingerprint(s) == Shr(Table(s[0]), REACH - WINDOW_SIZE)
  {
    hide Xor, Half, Table;
    var n := REACH - WINDOW_SIZE;
    assert At(s, WINDOW_SIZE - 1 + n) == s[0];
    ClosedForm(s);
    OnlyOldestMatters(s, COPY_LIFE);
    OnlyOldestMatters(s, n - 1);
    XorAssoc(Shr(Table(s[0]), n), 0, 0);
  }

  /**
   117 is the least reach: these two histories agree on their last 116 bytes, so on the whole documented window,
   and their fingerprints differ.
   */
  lemma ReachIsTight(s: Bytes, t: Bytes)
    requires |s| == |t| == 117 && s[0] == 128 && t[0] == 0
    requires forall i | 1 <= i < 117 :: s[i] == t[i] == 0
    ensures forall age | 0 <= age < 116 :: At(s, age) == At(t, age)
    ensures Fingerprint(s) != Fingerprint(t)
  {
    hide Xor, Half, Table, Fingerprint;
    AloneAtReach(s);
    AloneAtReach(t);
    TopEntry();
    TableFits(0);
    ShrOfZero(REACH - WINDOW_SIZE);
  }

  // ---------------------------------------------------------------------------------------------
  // The hasher object
  // ---------------------------------------------------------------------------------------------

  lemma ByteOfInt(b: Byte)
    ensures 0 <= b as int < 256 && (b as int) as bv8 == b
  {
  }

  lemma WordOfInt(i: int)
    requires 0 <= i < 256
    ensures (i as bv8) as bv64 == i as bv64
  {
  }

  /** What the constructor computes for slot `i` of the table. */
  function Entry(i: nat): bv64
    requires i < 256
  {
    TableRounds(i as bv64, 8)
  }

  lemma EntryOfByte(b: Byte)
    ensures 0 <= b as int < 256 && Entry(b as int) == Table(b)
  {
    hide TableRounds;
    ByteOfInt(b);
    WordOfInt(b as int);
  }

  lemma SlideHash(before: Bytes, b: Byte)
    ensures Fingerprint(before + [b])
         == Xor(Half(Xor(Fingerprint(before), Table(At(before, WINDOW_SIZE - 1)))), Table(b))
  {
    hide Table, Xor, Half;
    assert (before + [b])[..|before|] == before;
  }

  lemma EmptyFingerprint()
    ensures Fingerprint([]) == 0
  {
  }

  /** The hash after one slide. */
  function Slid(hash: bv64, out: bv64, b: bv64): bv64 {
    ((hash ^ out) >> 1) ^ b
  }

  lemma Mixed(hash: bv64, out: bv64, b: bv64)
    ensures Slid(hash, out, b) == Xor(Half(Xor(hash, out)), b)
    ensures Slid(0, 0, 0) == 0
  {
  }

  /** The byte that the next slide drops from the 64-byte window. */
  function Leaving(history: Bytes): Byte {
    if |history| >= 64 then history[|history| - 64] else 0
  }

  /** One slide: the byte leaving the window is mixed in, the hash halved, and the new byte mixed in. */
  lemma SlideIs(before: Bytes, b: Byte)
    ensures Fingerprint(before + [b]) == Slid(Fingerprint(before), Table(Leaving(before)), Table(b))
  {
    assert At(before, WINDOW_SIZE - 1) == Leaving(before);
    hide *;
    SlideHash(before, b);
    Mixed(Fingerprint(before), Table(Leaving(before)), Table(b));
  }

  lemma AtAfterSlide(before: Bytes, b: Byte, age: nat)
    ensures At(before + [b], age + 1) == At(before, age)
  {
  }

  class RabinHasher {
    const window: array<Byte>
    const tables: array<bv64>
    var pos: nat
    var hash: bv64
    // The bytes slid in since the last Reset, oldest first.
    ghost var history: Bytes

    /** The slot `i` of the ring holds the byte of this age. */
    ghost function AgeOfSlot(i: nat): nat
      requires i < WINDOW_SIZE && pos < WINDOW_SIZE
      reads this
    {
      if i < pos then pos - 1 - i else pos + WINDOW_SIZE - 1 - i
    }

    ghost predicate TablesValid()
      reads tables
    {
      && tables.Length == 256
      && (forall b: Byte :: tables[b as int] == Table(b))
    }

    ghost predicate Valid()
      reads this, window, tables
    {
      && window.Length == WINDOW_SIZE
      && TablesValid()
      && pos < WINDOW_SIZE
      && (forall i | 0 <= i < WINDOW_SIZE :: window[i] == At(history, AgeOfSlot(i)))
      && hash == Fingerprint(history)
    }

    constructor ()
      ensures Valid() && fresh(window) && fresh(tables)
      ensures history == []
    {
      window := new Byte[WINDOW_SIZE](_ => 0);
      tables := new bv64[256];
      pos, hash, history := 0, 0, [];
      new;
      assert Fingerprint([]) == 0;
      hide Table, TableRounds, TableRound, Fingerprint;
      FillTables(tables);
    }

    static method FillTables(tables: array<bv64>)
      requires tables.Length == 256
      modifies tables
      ensures forall b: Byte :: 0 <= b as int < 256 && tables[b as int] == Table(b)
    {
      hide *;
      for i := 0 to 256
        invariant forall k | 0 <= k < i :: tables[k] == Entry(k)
      {
        FillEntry(tables, i);
      }
      forall b: Byte
        ensures 0 <= b as int < 256 && tables[b as int] == Table(b)
      {
        EntryOfByte(b);
      }
    }

    static method FillEntry(tables: array<bv64>, i: nat)
      requires tables.Length == 256 && i < 256
      modifies tables
      ensures tables[i] == Entry(i)
      ensures forall k | 0 <= k < 256 && k != i :: tables[k] == old(tables[k])
    {
      tables[i] := i as bv64;
      for j := 0 to 8
        invariant tables[i] == TableRounds(i as bv64, j)
        invariant forall k | 0 <= k < 256 && k != i :: tables[k] == old(tables[k])
      {
        if tables[i] & 1 == 1 {
          tables[i] := (tables[i] >> 1) ^ POLY;
        } else {
          tables[i] := tables[i] >> 1;
        }
      }
    }

    method Slide(b: Byte) returns (fp: bv64)
      requires Valid()
      modifies this, window
      ensures Valid()
      ensures history == old(history) + [b]
      ensures fp == hash == Fingerprint(history)
    {
      hide Table, Xor, Half, Fingerprint;
      ByteOfInt(b);
      var out := window[pos];
      ByteOfInt(out);
      assert tables[out as int] == Table(out) && tables[b as int] == Table(b);
      hide TablesValid;
      window[pos] := b;
      pos := (pos + 1) % WINDOW_SIZE;
      hash := Xor(hash, tables[out as int]);
      hash := Xor(Half(hash), tables[b as int]);
      fp := hash;
      history := history + [b];
      assert hash == Fingerprint(history) by {
        SlideHash(old(history), b);
      }
      forall i | 0 <= i < WINDOW_SIZE
        ensures window[i] == At(history, AgeOfSlot(i))
      {
        if i != old(pos) {
          AtAfterSlide(old(history), b, old(AgeOfSlot(i)));
        }
      }
    }

    method Reset()
      requires Valid()
      modifies this, window
      ensures Valid()
      ensures history == []
    {
      hash := 0;
      pos := 0;
      history := [];
      for i := 0 to WINDOW_SIZE
        invariant hash == 0 && pos == 0 && history == []
        invariant forall k | 0 <= k < i :: window[k] == 0
      {
        window[i] := 0;
      }
    }
  }
}

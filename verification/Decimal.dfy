/**
 Decimal numerals as the program uses them: strconv.Itoa and strconv.Atoi for relay keys, and the "%010d" keys
 under which bbolt buckets keep their entries, together with the byte order of keys.
 */
module Decimal {
  import opened Wire

  const MAX_INT: int := 0x7FFF_FFFF_FFFF_FFFF
  const KEY_WIDTH: nat := 10

  predicate IsDigit(c: char) {
    '0' <= c <= '9'
  }

  predicate AllDigits(s: string) {
    forall i | 0 <= i < |s| :: IsDigit(s[i])
  }

  function DigitChar(d: nat): (c: char)
    requires d < 10
    ensures IsDigit(c) && DigitValue(c) == d
  {
    '0' + d as char
  }

  function DigitValue(c: char): nat
    requires IsDigit(c)
  {
    c as int - '0' as int
  }

  function Digits(n: nat): string {
    if n < 10 then [DigitChar(n)] else Digits(n / 10) + [DigitChar(n % 10)]
  }

  function Itoa(n: int): string {
    if n < 0 then "-" + Digits(-n) else Digits(n)
  }

  /** The number a digit string denotes. */
  function Value(s: string): nat
    requires AllDigits(s)
  {
    if s == "" then 0 else 10 * Value(s[..|s| - 1]) + DigitValue(s[|s| - 1])
  }

  /** An optional sign, then at least one digit, within the range of a 64-bit int. */
  function Atoi(s: string): Option<int> {
    var signed := s != "" && s[0] in {'+', '-'};
    var digits := if signed then s[1..] else s;
    if digits == "" || !AllDigits(digits) then None
    else
      var v := if signed && s[0] == '-' then -(Value(digits) as int) else Value(digits);
      if -MAX_INT - 1 <= v <= MAX_INT then Some(v) else None
  }

  lemma {:induction false} DigitsValue(n: nat)
    ensures Digits(n) != "" && AllDigits(Digits(n)) && Value(Digits(n)) == n
  {
    if n >= 10 {
      DigitsValue(n / 10);
      var s := Digits(n / 10) + [DigitChar(n % 10)];
      assert s[..|s| - 1] == Digits(n / 10);
    } else {
      assert [DigitChar(n)][..0] == "";
    }
  }

  lemma AtoiOfDigits(s: string)
    requires s != "" && AllDigits(s)
    ensures Value(s) <= MAX_INT ==> Atoi(s) == Atoi("+" + s) == Some(Value(s))
    ensures Value(s) <= MAX_INT + 1 ==> Atoi("-" + s) == Some(-(Value(s) as int))
  {
    assert IsDigit(s[0]);
    assert ("-" + s)[1..] == s && ("+" + s)[1..] == s;
    hide Value;
  }

  lemma {:induction false} NoLeadingDigit(n: nat)
    ensures n > 0 ==> Digits(n)[0] != '0'
    decreases n
  {
    if n >= 10 {
      NoLeadingDigit(n / 10);
    }
  }

  /** Numerals have no leading zero, and a minus sign is the only difference of a negative one. */
  lemma NoLeadingZero(n: nat)
    ensures n > 0 ==> Itoa(n) != "" && Itoa(n)[0] != '0' && Itoa(-(n as int)) == "-" + Itoa(n)
    ensures Itoa(0) == "0"
  {
    DigitsValue(n);
    NoLeadingDigit(n);
  }

  /** A formatted index is read back, over the whole range of a 64-bit int. */
  lemma AtoiOfItoa(n: int)
    requires -MAX_INT - 1 <= n <= MAX_INT
    ensures Atoi(Itoa(n)) == Some(n)
    ensures ':' !in Itoa(n)
  {
    var m := if n < 0 then -n else n;
    DigitsValue(m);
    hide Digits, Value, Atoi;
    AtoiOfDigits(Digits(m));
  }

  function Zeros(k: nat): string {
    if k == 0 then "" else Zeros(k - 1) + "0"
  }

  lemma DigitsSnoc(v: nat, c: char)
    requires IsDigit(c)
    ensures Digits(10 * v + DigitValue(c)) == if v == 0 then [c] else Digits(v) + [c]
    ensures Digits(0) == "0"
  {
    assert DigitChar(DigitValue(c)) == c;
    if v > 0 {
      var n := 10 * v + DigitValue(c);
      assert n >= 10 && n / 10 == v && n % 10 == DigitValue(c);
    }
  }

  /** A digit string is the numeral of its value behind some zeros. */
  lemma {:induction false} NumeralOf(s: string) returns (k: nat)
    requires s != "" && AllDigits(s)
    ensures s == Zeros(k) + Digits(Value(s))
    decreases |s|
  {
    var front, c := s[..|s| - 1], s[|s| - 1];
    assert s == front + [c];
    var v := Value(front);
    assert Value(s) == 10 * v + DigitValue(c);
    DigitsSnoc(v, c);
    hide Digits, Value;
    k := 0;
    if front == "" {
      assert v == 0 by {
        EmptyValue();
      }
      assert Zeros(0) + [c] == s;
    } else {
      k := NumeralOf(front);
      if v == 0 {
        k := k + 1;
      } else {
        ConcatThree(Zeros(k), Digits(v), [c]);
      }
    }
  }

  lemma EmptyValue()
    ensures Value("") == 0
  {
  }

  lemma ConcatThree(a: string, b: string, c: string)
    ensures (a + b) + c == a + (b + c)
  {
  }

  /** What is read as a number is its numeral, behind an optional sign and zeros, and fits into 64 bits. */
  lemma AtoiReads(s: string) returns (sign: string, k: nat)
    requires Atoi(s).Some?
    ensures var n := Atoi(s).value;
            && -0x8000_0000_0000_0000 <= n <= 0x7FFF_FFFF_FFFF_FFFF
            && sign in {"", "+", "-"} && (sign == "-" ==> n <= 0) && (sign != "-" ==> n >= 0)
            && s == sign + (Zeros(k) + Digits(if n < 0 then -n else n))
  {
    var signed := s[0] in {'+', '-'};
    sign := if signed then [s[0]] else "";
    var digits := if signed then s[1..] else s;
    k := NumeralOf(digits);
    assert s == sign + digits;
    hide Digits, Value;
  }

  // ---------------------------------------------------------------------------------------------
  // Byte order
  // ---------------------------------------------------------------------------------------------

  /** Byte-wise order of keys. */
  predicate Less(a: string, b: string) {
    if b == "" then false
    else if a == "" then true
    else if a[0] != b[0] then a[0] < b[0]
    else Less(a[1..], b[1..])
  }

  /** The first difference decides, and a prefix comes first. */
  ghost predicate DiffersAt(a: string, b: string, i: nat) {
    i <= |a| && i < |b| && a[..i] == b[..i] && (i < |a| ==> a[i] < b[i])
  }

  lemma SameHeads(a: string, b: string, i: nat)
    requires DiffersAt(a, b, i)
    ensures i > 0 ==> a != "" && b != "" && a[0] == b[0]
  {
    assert i > 0 ==> a[..i][0] == a[0] && b[..i][0] == b[0];
  }

  lemma TailsDiffer(a: string, b: string, i: nat)
    requires a != "" && b != "" && a[0] == b[0]
    ensures DiffersAt(a[1..], b[1..], i) <==> DiffersAt(a, b, i + 1)
  {
    if i < |a| && i < |b| {
      assert a[..i + 1] == [a[0]] + a[1..][..i] && b[..i + 1] == [b[0]] + b[1..][..i];
      assert a[1..][..i] == a[..i + 1][1..] && b[1..][..i] == b[..i + 1][1..];
    }
  }

  lemma {:induction false} LessIff(a: string, b: string)
    ensures Less(a, b) <==> exists i: nat :: DiffersAt(a, b, i)
    decreases |a|
  {
    forall i: nat | DiffersAt(a, b, i)
      ensures i > 0 ==> a != "" && b != "" && a[0] == b[0]
    {
      SameHeads(a, b, i);
    }
    if a != "" && b != "" && a[0] == b[0] {
      LessIff(a[1..], b[1..]);
      if Less(a, b) {
        var i: nat :| DiffersAt(a[1..], b[1..], i);
        TailsDiffer(a, b, i);
      }
      if i: nat :| DiffersAt(a, b, i) {
        TailsDiffer(a, b, i - 1);
      }
    } else if Less(a, b) {
      assert DiffersAt(a, b, 0);
    }
  }

  /** Byte order is a strict total order. */
  lemma {:induction false} LessTotal(a: string, b: string)
    ensures a == b || Less(a, b) || Less(b, a)
    ensures !(Less(a, b) && Less(b, a))
    ensures a == b ==> !Less(a, b)
    decreases |a|
  {
    if a != "" && b != "" {
      LessTotal(a[1..], b[1..]);
      if a[0] == b[0] && a[1..] == b[1..] {
        assert a == [a[0]] + a[1..] == b;
      }
    }
  }

  lemma {:induction false} LessTransitive(a: string, b: string, c: string)
    requires Less(a, b) && Less(b, c)
    ensures Less(a, c)
    decreases |a|
  {
    if a != "" && a[0] == b[0] && b[0] == c[0] {
      LessTransitive(a[1..], b[1..], c[1..]);
    }
  }

  lemma {:induction false} LessSnoc(a: string, b: string, x: char, y: char)
    requires |a| == |b|
    ensures Less(a + [x], b + [y]) <==> Less(a, b) || (a == b && x < y)
    decreases |a|
  {
    if a == "" {
      assert [x][1..] == "" && [y][1..] == "";
      assert a + [x] == [x] && b + [y] == [y];
    } else {
      LessSnoc(a[1..], b[1..], x, y);
      assert (a + [x])[1..] == a[1..] + [x] && (b + [y])[1..] == b[1..] + [y];
      assert a == [a[0]] + a[1..] && b == [b[0]] + b[1..];
      LessTotal(a, b);
    }
  }

  /** Digit strings of one length are ordered as their numbers. */
  lemma {:induction false} LessIsValueOrder(a: string, b: string)
    requires |a| == |b| && AllDigits(a) && AllDigits(b)
    ensures Less(a, b) <==> Value(a) < Value(b)
    ensures a == b <==> Value(a) == Value(b)
    decreases |a|
  {
    if a != "" {
      var n := |a| - 1;
      LessIsValueOrder(a[..n], b[..n]);
      LessSnoc(a[..n], b[..n], a[n], b[n]);
      assert a == a[..n] + [a[n]] && b == b[..n] + [b[n]];
    }
  }

  // ---------------------------------------------------------------------------------------------
  // Bucket keys
  // ---------------------------------------------------------------------------------------------

  function Pad(s: string, width: nat): string
    decreases if |s| < width then width - |s| else 0
  {
    if |s| >= width then s else Pad("0" + s, width)
  }

  /** The "%010d" key of a sequence number. */
  function Key(n: nat): string {
    Pad(Digits(n), KEY_WIDTH)
  }

  lemma {:induction false} LeadingZero(s: string)
    requires AllDigits(s)
    ensures AllDigits("0" + s) && Value("0" + s) == Value(s)
    decreases |s|
  {
    if s == "" {
      assert "0" + s == "0" && "0"[..0] == "";
    } else {
      LeadingZero(s[..|s| - 1]);
      assert ("0" + s)[..|s|] == "0" + s[..|s| - 1];
    }
  }

  lemma {:induction false} PadKeepsValue(s: string, width: nat)
    requires AllDigits(s)
    ensures AllDigits(Pad(s, width)) && Value(Pad(s, width)) == Value(s)
    ensures |Pad(s, width)| == if |s| >= width then |s| else width
    decreases if |s| < width then width - |s| else 0
  {
    if |s| < width {
      LeadingZero(s);
      PadKeepsValue("0" + s, width);
    }
  }

  function Pow10(k: nat): nat {
    if k == 0 then 1 else 10 * Pow10(k - 1)
  }

  lemma {:induction false} DigitsLength(n: nat, k: nat)
    requires k >= 1
    ensures |Digits(n)| <= k <==> n < Pow10(k)
    decreases k
  {
    if k == 1 {
      assert Pow10(1) == 10 * Pow10(0);
    } else if n >= 10 {
      DigitsLength(n / 10, k - 1);
    } else {
      Pow10Grows(k - 1);
    }
  }

  lemma {:induction false} Pow10Grows(k: nat)
    ensures Pow10(k) >= 1
  {
    if k > 0 {
      Pow10Grows(k - 1);
    }
  }

  lemma KeyValue(n: nat)
    ensures AllDigits(Key(n)) && Value(Key(n)) == n
    ensures |Key(n)| == KEY_WIDTH <==> n < 10_000_000_000
    ensures |Key(n)| >= KEY_WIDTH
  {
    DigitsValue(n);
    PadKeepsValue(Digits(n), KEY_WIDTH);
    DigitsLength(n, KEY_WIDTH);
    assert Pow10(5) == 100_000;
    assert Pow10(10) == 10_000_000_000;
  }

  /** Different sequence numbers have different keys. */
  lemma KeyInjective(m: nat, n: nat)
    ensures Key(m) == Key(n) <==> m == n
  {
    KeyValue(m);
    KeyValue(n);
  }

  lemma KeyOrder(m: nat, n: nat)
    requires m < 10_000_000_000 && n < 10_000_000_000
    ensures Less(Key(m), Key(n)) <==> m < n
  {
    KeyValue(m);
    KeyValue(n);
    LessIsValueOrder(Key(m), Key(n));
  }

  ghost predicate OrderedBelow(bound: nat) {
    forall m: nat, n: nat | m < n < bound :: Less(Key(m), Key(n))
  }

  lemma FirstDigits()
    ensures Key(10_000_000_000)[0] == '1' && Key(9_999_999_999)[0] == '9'
    ensures |Key(10_000_000_000)| > 0 && |Key(9_999_999_999)| > 0
  {
    KeyValue(10_000_000_000);
    KeyValue(9_999_999_999);
    FirstDigit(10_000_000_000, 10, 1);
    FirstDigit(9_999_999_999, 9, 9);
    assert Pow10(5) == 100_000;
    assert Pow10(9) == 1_000_000_000;
    assert Pow10(10) == 10_000_000_000;
    DigitsLength(9_999_999_999, 10);
    DigitsLength(9_999_999_999, 9);
    DigitsLength(10_000_000_000, 10);
  }

  lemma {:induction false} FirstDigit(n: nat, k: nat, d: nat)
    requires 0 < d < 10 && d * Pow10(k) <= n < (d + 1) * Pow10(k)
    ensures |Digits(n)| > 0 && Digits(n)[0] == DigitChar(d)
    decreases k
  {
    if k == 0 {
    } else {
      Pow10Grows(k - 1);
      assert d * Pow10(k) == 10 * (d * Pow10(k - 1));
      assert (d + 1) * Pow10(k) == 10 * ((d + 1) * Pow10(k - 1));
      FirstDigit(n / 10, k - 1, d);
    }
  }

  /** Byte order of keys is the order of sequence numbers exactly while these stay below 10^10. */
  lemma KeyOrderIsFifo(bound: nat)
    ensures OrderedBelow(bound) <==> bound <= 10_000_000_000
  {
    forall m: nat, n: nat | m < n < bound && bound <= 10_000_000_000
      ensures Less(Key(m), Key(n))
    {
      KeyOrder(m, n);
    }
    FirstDigits();
    assert !Less(Key(9_999_999_999), Key(10_000_000_000));
  }
}

/** Event ids: a fixed-width base-32 number whose text order is its numeric order. */
module Ids {
  import opened Wrappers

  const CROCKFORD := "0123456789ABCDEFGHJKMNPQRSTVWXYZ"

  const WIDTH := 26

  const MILLIS_BOUND := 0x4_0000_0000_0000

  const RANDOM_BOUND := 0x1_0000_0000_0000_0000_0000

  function Digit(d: int): char
    requires 0 <= d < 32
  {
    CROCKFORD[d]
  }

  /** The digits and the upper-case letters but I, L, O and U, in their order. */
  lemma Alphabet()
    ensures |CROCKFORD| == 32
    ensures forall c :: c in CROCKFORD <==> '0' <= c <= '9' || ('A' <= c <= 'Z' && c !in "ILOU")
    ensures forall i, j :: 0 <= i < j < 32 ==> CROCKFORD[i] < CROCKFORD[j]
  {
    forall c | '0' <= c <= '9' || ('A' <= c <= 'Z' && c !in "ILOU") ensures c in CROCKFORD {
      var i := AlphabetIndex(c);
      assert CROCKFORD[i] == c;
    }
    forall i, j | 0 <= i < j < 32 ensures CROCKFORD[i] < CROCKFORD[j] {
      AlphabetRises(i, j);
    }
    forall c | c in CROCKFORD ensures '0' <= c <= '9' || ('A' <= c <= 'Z' && c !in "ILOU") {
      var i :| 0 <= i < |CROCKFORD| && CROCKFORD[i] == c;
      CodeAt(i);
    }
  }

  /** The place of a letter, counting past the four that are left out. */
  function AlphabetIndex(c: char): nat
    requires '0' <= c <= '9' || ('A' <= c <= 'Z' && c !in "ILOU")
  {
    if c <= '9' then c as int - '0' as int
    else
      c as int - 'A' as int + 10 - (if c > 'I' then 1 else 0) - (if c > 'L' then 1 else 0) -
      (if c > 'O' then 1 else 0) - if c > 'U' then 1 else 0
  }

  lemma CodeAt(i: int)
    requires 0 <= i < 32
    ensures var c := CROCKFORD[i]; ('0' <= c <= '9' || ('A' <= c <= 'Z' && c !in "ILOU")) && AlphabetIndex(c) == i
  {
  }

  /** The last n base-32 digits of a number, the highest first. */
  function Encoded(value: int, n: nat): string
    decreases n, value
  {
    if n == 0 then "" else Encoded(value / 32, n - 1) + [Digit(value % 32)]
  }

  function Reversed(s: string): string {
    if s == "" then "" else Reversed(s[1..]) + [s[0]]
  }

  lemma {:induction false} ReversedAppend(s: string, c: char)
    ensures Reversed(s + [c]) == [c] + Reversed(s)
  {
    if s != "" {
      ReversedAppend(s[1..], c);
      assert (s + [c])[1..] == s[1..] + [c];
    }
  }

  /** Takes 26 digits from the low end, then turns them around. */
  method EncodeCrockford(value: int) returns (text: string)
    ensures text == Encoded(value, WIDTH)
  {
    var chars, rest := "", value;
    for i := 0 to WIDTH
      invariant Encoded(value, WIDTH) == Encoded(rest, WIDTH - i) + Reversed(chars)
    {
      ReversedAppend(chars, CROCKFORD[rest % 32]);
      chars := chars + [CROCKFORD[rest % 32]];
      rest := rest / 32;
    }
    return Reversed(chars);
  }

  // ----- decoding -----

  function Place(c: char): (d: Option<int>)
    ensures d.Some? ==> 0 <= d.value < 32 && Digit(d.value) == c
  {
    PlaceFrom(c, 0)
  }

  function PlaceFrom(c: char, from: nat): (d: Option<int>)
    requires from <= 32
    ensures d.Some? ==> from <= d.value < 32 && Digit(d.value) == c
    ensures d.None? ==> forall k :: from <= k < 32 ==> Digit(k) != c
    decreases 32 - from
  {
    if from == 32 then None else if CROCKFORD[from] == c then Some(from) else PlaceFrom(c, from + 1)
  }

  /** The alphabet is in the order of its characters, so no character occurs twice. */
  lemma AlphabetRises(d: int, e: int)
    requires 0 <= d < e < 32
    ensures Digit(d) < Digit(e)
  {
  }

  predicate IsText(s: string) {
    forall i :: 0 <= i < |s| ==> Place(s[i]).Some?
  }

  function Decoded(s: string): int
    requires IsText(s)
  {
    if s == "" then 0 else Decoded(s[..|s| - 1]) * 32 + Place(s[|s| - 1]).value
  }

  function Power(n: nat): (p: int)
    ensures p >= 1
  {
    if n == 0 then 1 else 32 * Power(n - 1)
  }

  lemma PlaceOfDigit(d: int)
    requires 0 <= d < 32
    ensures Place(Digit(d)) == Some(d)
  {
    var p := Place(Digit(d));
    if p.Some? && p.value < d {
      AlphabetRises(p.value, d);
    } else if p.Some? && p.value > d {
      AlphabetRises(d, p.value);
    }
  }

  /** Every number below the bound has exactly 26 characters of the alphabet and is read back. */
  lemma {:induction false} DecodeInvertsEncode(value: int, n: nat)
    requires 0 <= value < Power(n)
    ensures |Encoded(value, n)| == n && IsText(Encoded(value, n))
    ensures Decoded(Encoded(value, n)) == value
  {
    if n > 0 {
      DecodeInvertsEncode(value / 32, n - 1);
      PlaceOfDigit(value % 32);
      assert Encoded(value, n)[..n - 1] == Encoded(value / 32, n - 1);
    }
  }

  /** And every such text is the encoding of the number it is read as. */
  lemma {:induction false} EncodeInvertsDecode(s: string)
    requires IsText(s)
    ensures 0 <= Decoded(s) < Power(|s|) && Encoded(Decoded(s), |s|) == s
  {
    if s != "" {
      EncodeInvertsDecode(s[..|s| - 1]);
      var d := Place(s[|s| - 1]).value;
      assert Decoded(s) / 32 == Decoded(s[..|s| - 1]) && Decoded(s) % 32 == d;
      assert s == s[..|s| - 1] + [s[|s| - 1]];
    }
  }

  // ----- order -----

  /** Character by character, as strings of one length are compared. */
  ghost predicate LexLess(a: string, b: string)
    requires |a| == |b|
  {
    exists i :: DiffersAt(a, b, i)
  }

  predicate DiffersAt(a: string, b: string, i: nat)
    requires |a| == |b|
  {
    i < |a| && a[..i] == b[..i] && a[i] < b[i]
  }

  lemma LexIsStrict(a: string, b: string)
    requires |a| == |b| && LexLess(a, b)
    ensures a != b && !LexLess(b, a)
  {
    var i: nat :| DiffersAt(a, b, i);
    forall j: nat
      ensures !DiffersAt(b, a, j)
    {
      if j < i && j < |a| {
        assert a[..i][j] == b[..i][j];
      } else if i < j && j < |a| {
        assert a[i] == a[..j][i] && b[i] == b[..j][i];
      }
    }
  }

  lemma {:induction false} EncodedLength(value: int, n: nat)
    ensures |Encoded(value, n)| == n
    decreases n, value
  {
    if n > 0 {
      EncodedLength(value / 32, n - 1);
    }
  }

  lemma LastDigit(value: int, n: nat)
    requires n > 0
    ensures Encoded(value, n) == Encoded(value / 32, n - 1) + [Digit(value % 32)]
    ensures |Encoded(value / 32, n - 1)| == n - 1
  {
    EncodedLength(value / 32, n - 1);
  }

  lemma LongerDiffers(p: string, q: string, c: char, d: char)
    requires |p| == |q| && LexLess(p, q)
    ensures LexLess(p + [c], q + [d])
  {
    var i: nat :| DiffersAt(p, q, i);
    assert (p + [c])[..i] == p[..i] && (q + [d])[..i] == q[..i];
    assert DiffersAt(p + [c], q + [d], i);
  }

  lemma LastDiffers(p: string, c: char, d: char)
    requires c < d
    ensures LexLess(p + [c], p + [d])
  {
    assert (p + [c])[..|p|] == p && (p + [d])[..|p|] == p;
    assert DiffersAt(p + [c], p + [d], |p|);
  }

  lemma {:induction false} SmallerIsLess(v: int, w: int, n: nat)
    requires 0 <= v < w < Power(n)
    ensures |Encoded(v, n)| == n && |Encoded(w, n)| == n && LexLess(Encoded(v, n), Encoded(w, n))
  {
    LastDigit(v, n);
    LastDigit(w, n);
    if v / 32 < w / 32 {
      SmallerIsLess(v / 32, w / 32, n - 1);
      LongerDiffers(Encoded(v / 32, n - 1), Encoded(w / 32, n - 1), Digit(v % 32), Digit(w % 32));
    } else {
      AlphabetRises(v % 32, w % 32);
      LastDiffers(Encoded(v / 32, n - 1), Digit(v % 32), Digit(w % 32));
    }
  }

  /** Text order is numeric order. */
  lemma OrderPreserved(v: int, w: int)
    requires 0 <= v < Power(WIDTH) && 0 <= w < Power(WIDTH)
    ensures |Encoded(v, WIDTH)| == |Encoded(w, WIDTH)| == WIDTH
    ensures LexLess(Encoded(v, WIDTH), Encoded(w, WIDTH)) <==> v < w
    ensures Encoded(v, WIDTH) == Encoded(w, WIDTH) <==> v == w
  {
    EncodedLength(v, WIDTH);
    EncodedLength(w, WIDTH);
    if v < w {
      SmallerIsLess(v, w, WIDTH);
      LexIsStrict(Encoded(v, WIDTH), Encoded(w, WIDTH));
    } else if w < v {
      SmallerIsLess(w, v, WIDTH);
      LexIsStrict(Encoded(w, WIDTH), Encoded(v, WIDTH));
    }
  }

  // ----- event ids -----

  /** The clock in the high bits, random bits below. */
  function IdNumber(millis: int, random: int): int { millis * RANDOM_BOUND + random }

  function NewEventId(millis: int, random: int): string {
    "ad:" + Encoded(IdNumber(millis, random), WIDTH)
  }

  lemma Bounds()
    ensures Power(10) == MILLIS_BOUND && Power(16) == RANDOM_BOUND
    ensures Power(WIDTH) == MILLIS_BOUND * RANDOM_BOUND
  {
  }

  /** Ids made from different numbers differ, and an id from a later millisecond is greater
      whatever the random bits. */
  lemma LaterIsGreater(m1: int, r1: int, m2: int, r2: int)
    requires 0 <= m1 < MILLIS_BOUND && 0 <= m2 < MILLIS_BOUND
    requires 0 <= r1 < RANDOM_BOUND && 0 <= r2 < RANDOM_BOUND
    ensures |NewEventId(m1, r1)| == |NewEventId(m2, r2)| == 29
    ensures NewEventId(m1, r1) == NewEventId(m2, r2) <==> m1 == m2 && r1 == r2
    ensures LexLess(NewEventId(m1, r1), NewEventId(m2, r2)) <==> m1 < m2 || (m1 == m2 && r1 < r2)
  {
    Bounds();
    var v, w := IdNumber(m1, r1), IdNumber(m2, r2);
    OrderPreserved(v, w);
    PrefixedOrder("ad:", Encoded(v, WIDTH), Encoded(w, WIDTH));
  }

  /** An id is the prefix and the number, in 26 digits, whose upper part is the millisecond and whose
      lower 80 bits are random. */
  lemma IdReads(millis: int, random: int)
    requires 0 <= millis < 0x4_0000_0000_0000 && 0 <= random < 0x1_0000_0000_0000_0000_0000
    ensures var id := NewEventId(millis, random);
      && id[..3] == "ad:" && |id[3..]| == 26 && IsText(id[3..])
      && Decoded(id[3..]) == millis * 0x1_0000_0000_0000_0000_0000 + random
  {
    Bounds();
    DecodeInvertsEncode(IdNumber(millis, random), WIDTH);
    assert NewEventId(millis, random)[3..] == Encoded(IdNumber(millis, random), WIDTH);
  }

  lemma PrefixedOrder(p: string, a: string, b: string)
    requires |a| == |b|
    ensures LexLess(p + a, p + b) <==> LexLess(a, b)
    ensures p + a == p + b <==> a == b
  {
    if i: nat :| DiffersAt(a, b, i) {
      assert (p + a)[..|p| + i] == p + a[..i] && (p + b)[..|p| + i] == p + b[..i];
      assert DiffersAt(p + a, p + b, |p| + i);
    }
    if j: nat :| DiffersAt(p + a, p + b, j) {
      assert j >= |p|;
      assert a[..j - |p|] == (p + a)[..j][|p|..] && b[..j - |p|] == (p + b)[..j][|p|..];
      assert DiffersAt(a, b, j - |p|);
    }
    if p + a == p + b {
      assert a == (p + a)[|p|..] && b == (p + b)[|p|..];
    }
  }
}

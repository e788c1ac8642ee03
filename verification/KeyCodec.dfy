/** Index keys: every supported type maps to byte strings whose order is the type's own. */
module KeyCodec {
  import opened Entries
  import opened BtPages
  import opened TupleCodec

  datatype KeyError = Unsupported | TooLarge | Damaged

  // ---------------------------------------------------------------- integers

  /** Big-endian, the highest of `n` bytes first. */
  function Be(x: nat, n: nat): (s: seq<byte>)
    ensures |s| == n
  {
    if n == 0 then [] else Be(x / 256, n - 1) + [x % 256]
  }

  function FromBe(s: seq<byte>): nat {
    if s == [] then 0 else 256 * FromBe(s[..|s| - 1]) + s[|s| - 1]
  }

  /** The top bit of an `n`-byte number flipped. */
  function Flip(u: nat, n: nat): nat {
    if 2 * u < Pow256(n) then u + Pow256(n) / 2 else u - Pow256(n) / 2
  }

  function IntKey(x: int, n: nat): (s: seq<byte>)
    ensures |s| == n
  {
    Be(Flip(Wrap(x, n), n), n)
  }

  function KeyInt(s: seq<byte>): int {
    Unwrap(Flip(FromBe(s), |s|), |s|)
  }

  lemma {:induction false} BeRoundTrip(x: nat, n: nat)
    requires x < Pow256(n)
    ensures FromBe(Be(x, n)) == x
  {
    if n > 0 {
      BeRoundTrip(x / 256, n - 1);
      assert Be(x, n)[..n - 1] == Be(x / 256, n - 1);
    }
  }

  /** Equal widths: big-endian order is the order of the numbers. */
  lemma {:induction false} BeOrder(x: nat, y: nat, n: nat)
    requires x < y < Pow256(n)
    ensures KeyLess(Be(x, n), Be(y, n))
  {
    if n > 0 {
      if x / 256 < y / 256 {
        BeOrder(x / 256, y / 256, n - 1);
        LessPadded(Be(x / 256, n - 1), Be(y / 256, n - 1), [x % 256], [y % 256]);
      } else {
        SamePrefix(Be(x / 256, n - 1), [x % 256], [y % 256]);
      }
    }
  }

  /** What follows a difference between equally long strings does not matter. */
  lemma LessPadded(a: seq<byte>, b: seq<byte>, x: seq<byte>, y: seq<byte>)
    requires KeyLess(a, b) && |a| == |b|
    ensures KeyLess(a + x, b + y)
  {
    KeyLexicographic(a, b);
    var k: nat :| DiffersAt(a, b, k);
    assert (a + x)[..k] == a[..k] && (b + y)[..k] == b[..k];
    assert DiffersAt(a + x, b + y, k);
    KeyLexicographic(a + x, b + y);
  }

  lemma {:induction false} SamePrefix(a: seq<byte>, x: seq<byte>, y: seq<byte>)
    ensures KeyLess(a + x, a + y) <==> KeyLess(x, y)
  {
    if a == [] {
      assert a + x == x && a + y == y;
    } else {
      assert (a + x)[1..] == a[1..] + x && (a + y)[1..] == a[1..] + y;
      SamePrefix(a[1..], x, y);
    }
  }

  lemma {:induction false} PowEven(n: nat)
    requires n > 0
    ensures Pow256(n) % 2 == 0
  {
  }

  /** Sign-flipped big-endian bytes order as the signed integers do, and read back. */
  lemma IntKeyOrder(x: int, y: int, n: nat)
    requires n > 0 && Signed(x, n) && Signed(y, n)
    ensures KeyLess(IntKey(x, n), IntKey(y, n)) <==> x < y
    ensures KeyInt(IntKey(x, n)) == x
  {
    PowEven(n);
    var h := Pow256(n) / 2;
    assert Flip(Wrap(x, n), n) == x + h && Flip(Wrap(y, n), n) == y + h;
    BeRoundTrip(x + h, n);
    if x < y {
      BeOrder(x + h, y + h, n);
    } else if y < x {
      BeOrder(y + h, x + h, n);
      KeyTotal(IntKey(x, n), IntKey(y, n));
    } else {
      KeyTotal(IntKey(x, n), IntKey(x, n));
    }
  }

  // ---------------------------------------------------------------- keys

  function EncodeKey(d: Datum): Result<seq<byte>, KeyError> {
    var bytes := match d
      case IntDatum(i) => Some(IntKey(i, 4))
      case LongDatum(l) => Some(IntKey(l, 8))
      case TextDatum(s) => Some(s)
      case ByteaDatum(b) => Some(b)
      case _ => None;
    if bytes.None? then Err(Unsupported)
    else if |bytes.value| > MAX_INDEX_KEY_BYTES then Err(TooLarge)
    else Ok(bytes.value)
  }

  function DecodeKey(c: ColumnType, bytes: seq<byte>): Result<Datum, KeyError> {
    match c
    case Int4 => if |bytes| == 4 then Ok(IntDatum(KeyInt(bytes))) else Err(Damaged)
    case Int8 => if |bytes| == 8 then Ok(LongDatum(KeyInt(bytes))) else Err(Damaged)
    case Text => if Utf8(bytes) then Ok(TextDatum(bytes)) else Err(Damaged)
    case Bytea => Ok(ByteaDatum(bytes))
    case _ => Err(Unsupported)
  }

  /** The native order of two keys of one type: of the integers, the code points, the bytes. */
  ghost predicate NativeLess(c: ColumnType, a: Datum, b: Datum)
    requires Matches(c, a) && Matches(c, b) && ValidDatum(a) && ValidDatum(b)
  {
    match (a, b)
    case (IntDatum(x), IntDatum(y)) => x < y
    case (LongDatum(x), LongDatum(y)) => x < y
    case (TextDatum(s), TextDatum(t)) => PointsLess(CodePoints(s), CodePoints(t))
    case (ByteaDatum(s), ByteaDatum(t)) => s < t || exists k :: DiffersAt(s, t, k)
    case _ => false
  }

  /** A key reads back, and keys of one type order as their values do. */
  lemma KeysOrder(c: ColumnType, a: Datum, b: Datum)
    requires c in {Int4, Int8, Text, Bytea} && Matches(c, a) && Matches(c, b) && ValidDatum(a) && ValidDatum(b)
    requires EncodeKey(a).Ok? && EncodeKey(b).Ok?
    ensures DecodeKey(c, EncodeKey(a).value) == Ok(a)
    ensures KeyLess(EncodeKey(a).value, EncodeKey(b).value) <==> NativeLess(c, a, b)
  {
    match a
    case IntDatum(x) => IntKeyOrder(x, b.i, 4);
    case LongDatum(x) => IntKeyOrder(x, b.l, 8);
    case TextDatum(s) => TextOrder(s, b.s);
    case ByteaDatum(s) => KeyLexicographic(s, b.b);
  }

  /** Only these four types are keys, and only over the size bound is one of them refused. */
  lemma KeysAccepted(d: Datum)
    ensures EncodeKey(d) == Err(Unsupported) <==> !(d.IntDatum? || d.LongDatum? || d.TextDatum? || d.ByteaDatum?)
    ensures EncodeKey(d) == Err(TooLarge) <==>
      (d.TextDatum? && |d.s| > MAX_INDEX_KEY_BYTES) || (d.ByteaDatum? && |d.b| > MAX_INDEX_KEY_BYTES)
  {
  }

  // ---------------------------------------------------------------- text

  predicate Scalar(c: nat) {
    c < 0xD800 || 0xE000 <= c < 0x110000
  }

  /** UTF-8 of one code point. */
  function PointBytes(c: nat): (s: seq<byte>)
    requires Scalar(c)
    ensures 1 <= |s| <= 4
  {
    if c < 0x80 then [c]
    else if c < 0x800 then [0xC0 + c / 64, 0x80 + c % 64]
    else if c < 0x10000 then [0xE0 + c / 4096, 0x80 + c / 64 % 64, 0x80 + c % 64]
    else [0xF0 + c / 262144, 0x80 + c / 4096 % 64, 0x80 + c / 64 % 64, 0x80 + c % 64]
  }

  ghost predicate Scalars(ps: seq<nat>) {
    forall i :: 0 <= i < |ps| ==> Scalar(ps[i])
  }

  function TextBytes(ps: seq<nat>): seq<byte>
    requires Scalars(ps)
  {
    if ps == [] then [] else PointBytes(ps[0]) + TextBytes(ps[1..])
  }

  function FirstLength(s: seq<byte>): nat
    requires s != []
  {
    if s[0] < 0x80 then 1 else if s[0] < 0xE0 then 2 else if s[0] < 0xF0 then 3 else 4
  }

  /** `hi` followed by the six bits of `lo`. */
  function Join(hi: nat, lo: nat): nat {
    64 * hi + lo
  }

  lemma Joined(hi: nat, lo: nat)
    requires lo < 64
    ensures Join(hi, lo) / 64 == hi && Join(hi, lo) % 64 == lo
  {
  }

  /** The six bits of a continuation byte. */
  function Bits(b: byte): nat {
    if b < 0x80 then 0 else b - 0x80
  }

  function FirstPoint(s: seq<byte>): nat
    requires s != [] && Utf8(s)
  {
    if s[0] < 0x80 then s[0]
    else if s[0] < 0xE0 then Join(s[0] - 0xC0, Bits(s[1]))
    else if s[0] < 0xF0 then Join(Join(s[0] - 0xE0, Bits(s[1])), Bits(s[2]))
    else Join(Join(Join(s[0] - 0xF0, Bits(s[1])), Bits(s[2])), Bits(s[3]))
  }

  lemma FirstIs(s: seq<byte>)
    requires s != [] && Utf8(s)
    ensures FirstLength(s) <= |s| && Utf8(s[FirstLength(s)..])
    ensures Scalar(FirstPoint(s)) && PointBytes(FirstPoint(s)) == s[..FirstLength(s)]
  {
    hide PointBytes, Join, Bits, Scalar, Utf8, FirstPoint;
    Starts(s);
    PointIs(s);
    if s[0] < 0x80 {
      OneByte(s[0]);
    } else if s[0] < 0xE0 {
      TwoBytes(s[0], s[1]);
    } else if s[0] < 0xF0 {
      ThreeBytes(s[0], s[1], s[2]);
    } else {
      FourBytes(s[0], s[1], s[2], s[3]);
    }
  }

  lemma PointIs(s: seq<byte>)
    requires s != [] && Utf8(s) && FirstLength(s) <= |s| && (0x80 <= s[0] ==> 0xC2 <= s[0])
    ensures s[0] < 0x80 ==> FirstPoint(s) == s[0] && s[..1] == [s[0]]
    ensures 0x80 <= s[0] < 0xE0 ==> FirstPoint(s) == Join(s[0] - 0xC0, Bits(s[1])) && s[..2] == [s[0], s[1]]
    ensures 0xE0 <= s[0] < 0xF0 ==>
      FirstPoint(s) == Join(Join(s[0] - 0xE0, Bits(s[1])), Bits(s[2])) && s[..3] == [s[0], s[1], s[2]]
    ensures 0xF0 <= s[0] ==>
      && FirstPoint(s) == Join(Join(Join(s[0] - 0xF0, Bits(s[1])), Bits(s[2])), Bits(s[3]))
      && s[..4] == [s[0], s[1], s[2], s[3]]
  {
    hide Utf8, Join, Bits;
  }

  lemma Starts(s: seq<byte>)
    requires s != [] && Utf8(s)
    ensures FirstLength(s) <= |s| && Utf8(s[FirstLength(s)..])
    ensures 0x80 <= s[0] ==> 0xC2 <= s[0] <= 0xF4
    ensures 0xC2 <= s[0] < 0xE0 ==> 0x80 <= s[1] <= 0xBF
    ensures 0xE0 <= s[0] < 0xF0 ==>
      && (if s[0] == 0xE0 then 0xA0 else 0x80) <= s[1] <= (if s[0] == 0xED then 0x9F else 0xBF) && 0x80 <= s[2] <= 0xBF
    ensures 0xF0 <= s[0] ==>
      && (if s[0] == 0xF0 then 0x90 else 0x80) <= s[1] <= (if s[0] == 0xF4 then 0x8F else 0xBF)
      && 0x80 <= s[2] <= 0xBF && 0x80 <= s[3] <= 0xBF
  {
  }

  lemma OneByte(a: byte)
    requires a < 0x80
    ensures Scalar(a) && PointBytes(a) == [a]
  {
  }

  lemma TwoBytes(a: byte, b: byte)
    requires 0xC2 <= a <= 0xDF && 0x80 <= b <= 0xBF
    ensures var c := Join(a - 0xC0, Bits(b)); Scalar(c) && PointBytes(c) == [a, b]
  {
    Joined(a - 0xC0, Bits(b));
  }

  lemma ThreeBytes(a: byte, b: byte, d: byte)
    requires 0xE0 <= a <= 0xEF && (if a == 0xE0 then 0xA0 else 0x80) <= b <= (if a == 0xED then 0x9F else 0xBF)
    requires 0x80 <= d <= 0xBF
    ensures var c := Join(Join(a - 0xE0, Bits(b)), Bits(d)); Scalar(c) && PointBytes(c) == [a, b, d]
  {
    var h := Join(a - 0xE0, Bits(b));
    Joined(a - 0xE0, Bits(b));
    Joined(h, Bits(d));
    var c := Join(h, Bits(d));
    assert c / 4096 == c / 64 / 64;
  }

  lemma FourBytes(a: byte, b: byte, d: byte, e: byte)
    requires 0xF0 <= a <= 0xF4 && (if a == 0xF0 then 0x90 else 0x80) <= b <= (if a == 0xF4 then 0x8F else 0xBF)
    requires 0x80 <= d <= 0xBF && 0x80 <= e <= 0xBF
    ensures var c := Join(Join(Join(a - 0xF0, Bits(b)), Bits(d)), Bits(e)); Scalar(c) && PointBytes(c) == [a, b, d, e]
  {
    var h := Join(a - 0xF0, Bits(b));
    var m := Join(h, Bits(d));
    Joined(a - 0xF0, Bits(b));
    Joined(h, Bits(d));
    Joined(m, Bits(e));
    var c := Join(m, Bits(e));
    assert c / 4096 == c / 64 / 64 && c / 262144 == c / 64 / 64 / 64;
  }

  /** The code points of well-formed text. */
  function CodePoints(s: seq<byte>): (ps: seq<nat>)
    requires Utf8(s)
    ensures Scalars(ps) && TextBytes(ps) == s
    decreases |s|
  {
    if s == [] then [] else
      FirstIs(s);
      var ps := CodePoints(s[FirstLength(s)..]);
      assert ([FirstPoint(s)] + ps)[1..] == ps;
      [FirstPoint(s)] + ps
  }

  /** Lexicographic in the code points. */
  ghost predicate PointsLess(a: seq<nat>, b: seq<nat>) {
    a < b || exists k :: 0 <= k < |a| && k < |b| && a[..k] == b[..k] && a[k] < b[k]
  }

  /** A smaller code point has the smaller bytes, whatever follows. */
  lemma PointOrder(c: nat, d: nat, x: seq<byte>, y: seq<byte>)
    requires Scalar(c) && Scalar(d) && c < d
    ensures KeyLess(PointBytes(c) + x, PointBytes(d) + y)
  {
    var k := FirstDiff(c, d);
    var a, b := PointBytes(c) + x, PointBytes(d) + y;
    assert a[..k] == PointBytes(c)[..k] && b[..k] == PointBytes(d)[..k];
    assert DiffersAt(a, b, k);
    KeyLexicographic(a, b);
  }

  function Lead(c: nat): nat
    requires Scalar(c)
  {
    PointBytes(c)[0]
  }

  /** The leading byte tells the length, and longer means larger. */
  lemma LeadLength(c: nat)
    requires Scalar(c)
    ensures |PointBytes(c)| ==
      if Lead(c) < 0x80 then 1 else if Lead(c) < 0xE0 then 2 else if Lead(c) < 0xF0 then 3 else 4
    ensures |PointBytes(c)| == if c < 0x80 then 1 else if c < 0x800 then 2 else if c < 0x10000 then 3 else 4
  {
  }

  lemma FirstDiff(c: nat, d: nat) returns (k: nat)
    requires Scalar(c) && Scalar(d) && c < d
    ensures DiffersAt(PointBytes(c), PointBytes(d), k)
  {
    LeadLength(c);
    LeadLength(d);
    var a, b := PointBytes(c), PointBytes(d);
    if |a| != |b| {
      k := 0;
    } else if |a| == 1 {
      k := 0;
    } else {
      k := SameLength(c, d);
    }
  }

  lemma SameLength(c: nat, d: nat) returns (k: nat)
    requires Scalar(c) && Scalar(d) && c < d && |PointBytes(c)| == |PointBytes(d)| > 1
    ensures DiffersAt(PointBytes(c), PointBytes(d), k)
  {
    var a, b := PointBytes(c), PointBytes(d);
    var n := |a|;
    if c / 64 == d / 64 {
      k := n - 1;
      SixBits(c);
      SixBits(d);
      assert a[..n - 1] == b[..n - 1];
    } else if c / 4096 == d / 4096 {
      k := n - 2;
      SixBits(c / 64);
      SixBits(d / 64);
      assert c / 64 / 64 == c / 4096 && d / 64 / 64 == d / 4096;
      assert a[..n - 2] == b[..n - 2];
    } else if c / 262144 == d / 262144 {
      k := n - 3;
      SixBits(c / 4096);
      SixBits(d / 4096);
      assert c / 4096 / 64 == c / 262144 && d / 4096 / 64 == d / 262144;
      assert a[..n - 3] == b[..n - 3];
    } else {
      k := 0;
    }
  }

  lemma SixBits(c: nat)
    ensures c == 64 * (c / 64) + c % 64
  {
  }

  /** Byte order of text is code-point order. */
  lemma {:induction false} TextLess(ps: seq<nat>, qs: seq<nat>)
    requires Scalars(ps) && Scalars(qs)
    ensures KeyLess(TextBytes(ps), TextBytes(qs)) <==> PointsLess(ps, qs)
    decreases |ps|
  {
    if ps == [] || qs == [] {
      assert qs != [] ==> PointBytes(qs[0]) != [];
    } else if ps[0] < qs[0] {
      PointOrder(ps[0], qs[0], TextBytes(ps[1..]), TextBytes(qs[1..]));
      assert ps[..0] == qs[..0];
    } else if qs[0] < ps[0] {
      PointOrder(qs[0], ps[0], TextBytes(qs[1..]), TextBytes(ps[1..]));
      KeyTotal(TextBytes(ps), TextBytes(qs));
      LaterHead(ps, qs);
    } else {
      SamePrefix(PointBytes(ps[0]), TextBytes(ps[1..]), TextBytes(qs[1..]));
      TextLess(ps[1..], qs[1..]);
      TailLess(ps, qs);
    }
  }

  lemma LaterHead(ps: seq<nat>, qs: seq<nat>)
    requires ps != [] && qs != [] && qs[0] < ps[0]
    ensures !PointsLess(ps, qs)
  {
    forall k | 0 <= k < |ps| && k < |qs| && ps[..k] == qs[..k] ensures k == 0 {
      if k > 0 { HeadKept(ps, k); HeadKept(qs, k); }
    }
  }

  lemma HeadKept(s: seq<nat>, k: nat)
    requires 0 < k <= |s|
    ensures s[..k][0] == s[0]
  {
  }

  lemma TailLess(ps: seq<nat>, qs: seq<nat>)
    requires ps != [] && qs != [] && qs[0] == ps[0]
    ensures PointsLess(ps, qs) <==> PointsLess(ps[1..], qs[1..])
  {
    assert ps == [ps[0]] + ps[1..] && qs == [qs[0]] + qs[1..];
    if k :| 0 <= k < |ps| && k < |qs| && ps[..k] == qs[..k] && ps[k] < qs[k] {
      assert k > 0 && ps[1..][..k - 1] == ps[..k][1..] && qs[1..][..k - 1] == qs[..k][1..];
      assert ps[1..][k - 1] < qs[1..][k - 1];
    }
    if k :| 0 <= k < |ps[1..]| && k < |qs[1..]| && ps[1..][..k] == qs[1..][..k] && ps[1..][k] < qs[1..][k] {
      assert ps[..k + 1] == [ps[0]] + ps[1..][..k] && qs[..k + 1] == [qs[0]] + qs[1..][..k];
      assert ps[k + 1] < qs[k + 1];
    }
  }

  lemma TextOrder(s: seq<byte>, t: seq<byte>)
    requires Utf8(s) && Utf8(t)
    ensures KeyLess(s, t) <==> PointsLess(CodePoints(s), CodePoints(t))
  {
    TextLess(CodePoints(s), CodePoints(t));
  }
}

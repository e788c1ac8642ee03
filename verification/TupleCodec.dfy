/** The heap tuple format: a 64-byte header, an optional null bitmap, the columns, and an optional trailing node id. */
module TupleCodec {
  import opened Entries
  import opened Layout

  const TOAST_POINTER_SIZE: nat := 20
  const MAX_NATTS: nat := 2047
  const MAX_VECTOR_DIM: nat := 2000

  /** The two tag bits of a varlena header sit above the 30-bit length; `01` marks an external pointer. */
  const VARLENA_LIMIT: nat := 0x4000_0000

  const HASNULL: nat := 0x0001
  const HASVARWIDTH: nat := 0x0002
  const HASEXTERNAL: nat := 0x0004
  const HAS_NODEID: nat := 0x0800

  datatype ColumnType = Int4 | Int8 | Timestamptz | Uuid | Text | Bytea | Vector(dim: nat)

  datatype ToastPointer = ToastPointer(rawsize: nat, extsize: nat, valueid: nat, toastrelid: nat)

  /** Text is its UTF-8 bytes; vector components are their 32 bits. */
  datatype Datum =
    | IntDatum(i: int)
    | LongDatum(l: int)
    | TimeDatum(t: int)
    | UuidDatum(u: seq<byte>)
    | TextDatum(s: seq<byte>)
    | ByteaDatum(b: seq<byte>)
    | VectorDatum(v: seq<nat>)
    | ExternalDatum(ptr: ToastPointer)

  type Row = seq<Option<Datum>>

  datatype Header = Header(xmin: nat, xmax: nat, agent: nat, trace: seq<byte>, ctidPage: nat, ctidSlot: nat,
                           infomask: nat, infomask2: nat, hoff: nat, flags: nat, cid: nat)

  datatype CodecError = InvalidArgument | Corrupted

  // ---------------------------------------------------------------- little-endian numbers

  function Pow256(n: nat): (p: nat)
    ensures p > 0
  {
    if n == 0 then 1 else 256 * Pow256(n - 1)
  }

  function Le(x: nat, n: nat): (s: seq<byte>)
    ensures |s| == n
  {
    if n == 0 then [] else [x % 256] + Le(x / 256, n - 1)
  }

  function FromLe(s: seq<byte>): nat {
    if s == [] then 0 else s[0] + 256 * FromLe(s[1..])
  }

  lemma {:induction false} LeRoundTrip(x: nat, n: nat)
    requires x < Pow256(n)
    ensures FromLe(Le(x, n)) == x
  {
    if n > 0 {
      LeRoundTrip(x / 256, n - 1);
      assert Le(x, n)[1..] == Le(x / 256, n - 1);
    }
  }

  lemma PowValues()
    ensures Pow256(1) == 256 && Pow256(2) == 65536 && Pow256(4) == 0x1_0000_0000 && Pow256(8) == 0x1_0000_0000_0000_0000
  {
    assert Pow256(3) == 0x100_0000;
    assert Pow256(5) == 0x100_0000_0000;
    assert Pow256(6) == 0x1_0000_0000_0000;
    assert Pow256(7) == 0x100_0000_0000_0000;
  }

  /** Two's complement in `n` bytes. */
  function Wrap(x: int, n: nat): nat {
    if x < 0 then if x + Pow256(n) < 0 then 0 else x + Pow256(n) else x
  }

  function Unwrap(u: nat, n: nat): int {
    if 2 * u < Pow256(n) then u else u - Pow256(n)
  }

  predicate Signed(x: int, n: nat) {
    2 * x < Pow256(n) && 0 <= 2 * x + Pow256(n)
  }

  lemma SignedRoundTrip(x: int, n: nat)
    requires Signed(x, n)
    ensures Unwrap(FromLe(Le(Wrap(x, n), n)), n) == x
  {
    LeRoundTrip(Wrap(x, n), n);
  }

  // ---------------------------------------------------------------- bits of a mask

  predicate Bit(m: nat, p: nat)
    requires p > 0
  {
    m / p % 2 == 1
  }

  /** The three structural bits replaced; what the caller put in the others stays. */
  function Masked(m: nat, nulls: bool, wide: bool, external: bool): nat {
    m - m % 8 + (if nulls then HASNULL else 0) + (if wide then HASVARWIDTH else 0)
    + (if external then HASEXTERNAL else 0)
  }

  /** The 11-bit column count and the node-id bit above it replaced. */
  function Masked2(m: nat, natts: nat, node: bool): nat {
    m - m % 4096 + natts + if node then HAS_NODEID else 0
  }

  lemma MaskReads(m: nat, nulls: bool, wide: bool, external: bool)
    requires m < 65536
    ensures var k := Masked(m, nulls, wide, external);
      && k < 65536 && k / 8 == m / 8
      && (Bit(k, HASNULL) <==> nulls) && (Bit(k, HASVARWIDTH) <==> wide) && (Bit(k, HASEXTERNAL) <==> external)
  {
    Octet(m / 8, if nulls then 1 else 0, if wide then 1 else 0, if external then 1 else 0);
  }

  lemma Octet(q: nat, a: nat, b: nat, c: nat)
    requires a < 2 && b < 2 && c < 2
    ensures var k := 8 * q + a + 2 * b + 4 * c; k / 1 % 2 == a && k / 2 % 2 == b && k / 4 % 2 == c && k / 8 == q
  {
    var k := 8 * q + a + 2 * b + 4 * c;
    Halve(4 * q + b + 2 * c, a);
    Halve(2 * q + c, b);
    Halve(q, c);
    assert k / 4 == k / 2 / 2 && k / 8 == k / 4 / 2;
  }

  lemma Halve(x: nat, a: nat)
    requires a < 2
    ensures (2 * x + a) / 2 == x && (2 * x + a) % 2 == a
  {
  }

  lemma Mask2Reads(m: nat, natts: nat, node: bool)
    requires m < 65536 && natts <= MAX_NATTS
    ensures var k := Masked2(m, natts, node);
      k < 65536 && k % 2048 == natts && (Bit(k, HAS_NODEID) <==> node) && k / 4096 == m / 4096
  {
    var q := m / 4096;
    assert m - m % 4096 == 4096 * q;
  }

  // ---------------------------------------------------------------- the null bitmap

  /** `1 << k` for a bit of a byte. */
  function Pow2(k: nat): (p: nat)
    requires k <= 8
    ensures p > 0
  {
    [1, 2, 4, 8, 16, 32, 64, 128, 256][k]
  }

  predicate IsNull(row: Row, i: nat) {
    i < |row| && row[i].None?
  }

  /** The low `n` bits of bitmap byte `j`: a set bit is a null column. */
  function NullBits(row: Row, j: nat, n: nat): nat
    requires n <= 8
  {
    if n == 0 then 0 else NullBits(row, j, n - 1) + if IsNull(row, 8 * j + n - 1) then Pow2(n - 1) else 0
  }

  lemma {:induction false} NullBitsBound(row: Row, j: nat, n: nat)
    requires n <= 8
    ensures NullBits(row, j, n) < Pow2(n)
  {
    if n > 0 { NullBitsBound(row, j, n - 1); }
  }

  lemma AddTwice(r: nat, d: nat, t: nat)
    requires d in {1, 2, 4, 8, 16, 32, 64}
    ensures (r + 2 * d * t) / d == r / d + 2 * t
  {
    if d == 1 {} else if d == 2 {} else if d == 4 {} else if d == 8 {} else if d == 16 {} else if d == 32 {} else {}
  }

  /** A higher bit does not change a lower one. */
  lemma AddHigh(r: nat, k: nat, m: nat)
    requires k < m < 8
    ensures (r + Pow2(m)) / Pow2(k) % 2 == r / Pow2(k) % 2
  {
    var d, t := Pow2(k), Pow2(m - k - 1);
    assert 2 * d * t == Pow2(m) by {
      if k == 0 {} else if k == 1 {} else if k == 2 {} else if k == 3 {} else if k == 4 {} else if k == 5 {} else {}
    }
    AddTwice(r, d, t);
  }

  lemma TopBit(r: nat, k: nat)
    requires k < 8 && r < Pow2(k)
    ensures r / Pow2(k) == 0 && (r + Pow2(k)) / Pow2(k) == 1
  {
  }

  lemma {:induction false} NullBitAt(row: Row, j: nat, n: nat, k: nat)
    requires k < n <= 8
    ensures Bit(NullBits(row, j, n), Pow2(k)) <==> IsNull(row, 8 * j + k)
  {
    var r := NullBits(row, j, n - 1);
    NullBitsBound(row, j, n - 1);
    if k == n - 1 {
      TopBit(r, k);
    } else {
      NullBitAt(row, j, n - 1, k);
      AddHigh(r, k, n - 1);
    }
  }

  // ---------------------------------------------------------------- columns

  predicate Cont(s: seq<byte>, i: nat, lo: nat, hi: nat) {
    i < |s| && lo <= s[i] <= hi
  }

  /** Well-formed UTF-8: no overlong forms, no surrogates, nothing above U+10FFFF. */
  predicate Utf8(s: seq<byte>) {
    s == [] ||
      if s[0] < 0x80 then Utf8(s[1..])
      else if 0xC2 <= s[0] <= 0xDF then Cont(s, 1, 0x80, 0xBF) && Utf8(s[2..])
      else if 0xE0 <= s[0] <= 0xEF then
        Cont(s, 1, if s[0] == 0xE0 then 0xA0 else 0x80, if s[0] == 0xED then 0x9F else 0xBF) &&
          Cont(s, 2, 0x80, 0xBF) && Utf8(s[3..])
      else
        && 0xF0 <= s[0] <= 0xF4 && Cont(s, 1, if s[0] == 0xF0 then 0x90 else 0x80, if s[0] == 0xF4 then 0x8F else 0xBF)
        && Cont(s, 2, 0x80, 0xBF) && Cont(s, 3, 0x80, 0xBF) && Utf8(s[4..])
  }

  predicate U32(x: nat) {
    x < 0x1_0000_0000
  }

  /** What the datum's own type guarantees. */
  ghost predicate ValidDatum(d: Datum) {
    match d
    case IntDatum(i) => Signed(i, 4)
    case LongDatum(l) => Signed(l, 8)
    case TimeDatum(t) => Signed(t, 8)
    case UuidDatum(u) => |u| == 16
    case TextDatum(s) => Utf8(s)
    case ByteaDatum(_) => true
    case VectorDatum(v) => forall i :: 0 <= i < |v| ==> U32(v[i])
    case ExternalDatum(p) => U32(p.rawsize) && U32(p.extsize) && U32(p.valueid) && U32(p.toastrelid)
  }

  function FixedWidth(c: ColumnType): Option<nat> {
    match c
    case Int4 => Some(4)
    case Int8 => Some(8)
    case Timestamptz => Some(8)
    case Uuid => Some(16)
    case Text => None
    case Bytea => None
    case Vector(dim) => Some(4 * dim)
  }

  predicate DimOk(c: ColumnType) {
    c.Vector? ==> 1 <= c.dim <= MAX_VECTOR_DIM
  }

  /** An external pointer stands in for either varlena type; a vector must have the column's dimension. */
  predicate Matches(c: ColumnType, d: Datum) {
    match d
    case IntDatum(_) => c == Int4
    case LongDatum(_) => c == Int8
    case TimeDatum(_) => c == Timestamptz
    case UuidDatum(_) => c == Uuid
    case TextDatum(_) => c == Text
    case ByteaDatum(_) => c == Bytea
    case VectorDatum(v) => c.Vector? && |v| == c.dim
    case ExternalDatum(_) => FixedWidth(c).None?
  }

  /** An inline payload whose length stays clear of the tag bits. */
  predicate Inlineable(d: Datum) {
    (d.TextDatum? ==> |d.s| + 4 < VARLENA_LIMIT) && (d.ByteaDatum? ==> |d.b| + 4 < VARLENA_LIMIT)
  }

  function VectorBytes(v: seq<nat>): (s: seq<byte>)
    ensures |s| == 4 * |v|
  {
    if v == [] then [] else Le(v[0], 4) + VectorBytes(v[1..])
  }

  function VectorOf(s: seq<byte>): seq<nat> {
    if |s| < 4 then [] else [FromLe(s[..4])] + VectorOf(s[4..])
  }

  function PointerBytes(p: ToastPointer): (s: seq<byte>)
    ensures |s| == TOAST_POINTER_SIZE
  {
    Le(TOAST_POINTER_SIZE + VARLENA_LIMIT,
      4) + (Le(p.rawsize, 4) + (Le(p.extsize, 4) + (Le(p.valueid, 4) + Le(p.toastrelid, 4))))
  }

  function DatumBytes(d: Datum): seq<byte> {
    match d
    case IntDatum(i) => Le(Wrap(i, 4), 4)
    case LongDatum(l) => Le(Wrap(l, 8), 8)
    case TimeDatum(t) => Le(Wrap(t, 8), 8)
    case UuidDatum(u) => u
    case TextDatum(s) => Le(|s| + 4, 4) + s
    case ByteaDatum(b) => Le(|b| + 4, 4) + b
    case VectorDatum(v) => VectorBytes(v)
    case ExternalDatum(p) => PointerBytes(p)
  }

  predicate IsExternal(vl: nat) {
    vl / VARLENA_LIMIT == 1
  }

  function VarlenaLength(vl: nat): nat {
    vl % VARLENA_LIMIT
  }

  function PointerOf(s: seq<byte>): Result<ToastPointer, CodecError> {
    if |s| != TOAST_POINTER_SIZE then Err(Corrupted) else
      var vl := FromLe(s[0..4]);
      if !IsExternal(vl) || VarlenaLength(vl) != TOAST_POINTER_SIZE then Err(Corrupted)
      else Ok(ToastPointer(FromLe(s[4..8]), FromLe(s[8..12]), FromLe(s[12..16]), FromLe(s[16..20])))
  }

  /** A field of fixed width read as its column type says. */
  function FixedDatum(c: ColumnType, field: seq<byte>): Datum
    requires FixedWidth(c).Some?
  {
    match c
    case Int4 => IntDatum(Unwrap(FromLe(field), 4))
    case Int8 => LongDatum(Unwrap(FromLe(field), 8))
    case Timestamptz => TimeDatum(Unwrap(FromLe(field), 8))
    case Uuid => UuidDatum(field)
    case Vector(_) => VectorDatum(VectorOf(field))
  }

  /** The datum at `pos` and the position behind it. */
  function DecodeDatum(bytes: seq<byte>, c: ColumnType, pos: nat): (r: Result<(Datum, nat), CodecError>)
    ensures r.Ok? ==> pos <= r.value.1 <= |bytes|
  {
    match FixedWidth(c)
    case Some(width) =>
      if pos + width > |bytes| then Err(Corrupted) else Ok((FixedDatum(c, bytes[pos..pos + width]), pos + width))
    case None =>
      if pos + 4 > |bytes| then Err(Corrupted) else
        var vl := FromLe(bytes[pos..pos + 4]);
        if IsExternal(vl) then
          if pos + TOAST_POINTER_SIZE > |bytes| then Err(Corrupted) else
            match PointerOf(bytes[pos..pos + TOAST_POINTER_SIZE])
            case Ok(p) => Ok((ExternalDatum(p), pos + TOAST_POINTER_SIZE))
            case Err(e) => Err(e)
        else
          var total := VarlenaLength(vl);
          if total < 4 || pos + total > |bytes| then Err(Corrupted) else
            var payload := bytes[pos + 4..pos + total];
            if c == Bytea then Ok((ByteaDatum(payload), pos + total))
            else if Utf8(payload) then Ok((TextDatum(payload), pos + total))
            else Err(Corrupted)
  }

  // ---------------------------------------------------------------- one column there and back

  predicate At(bytes: seq<byte>, pos: nat, s: seq<byte>) {
    pos + |s| <= |bytes| && bytes[pos..pos + |s|] == s
  }

  lemma AtParts(bytes: seq<byte>, pos: nat, a: seq<byte>, b: seq<byte>)
    requires At(bytes, pos, a + b)
    ensures At(bytes, pos, a) && At(bytes, pos + |a|, b) && pos + |a| + |b| <= |bytes|
  {
    var s := bytes[pos..pos + |a + b|];
    assert s[..|a|] == a && s[|a|..] == b;
    assert bytes[pos..pos + |a|] == s[..|a|];
    assert bytes[pos + |a|..pos + |a| + |b|] == s[|a|..];
  }

  lemma {:induction false} VectorRoundTrip(v: seq<nat>)
    requires forall i :: 0 <= i < |v| ==> U32(v[i])
    ensures VectorOf(VectorBytes(v)) == v
  {
    if v != [] {
      var s := VectorBytes(v);
      VectorRoundTrip(v[1..]);
      PowValues();
      LeRoundTrip(v[0], 4);
      assert s[..4] == Le(v[0], 4) && s[4..] == VectorBytes(v[1..]);
    }
  }

  lemma PointerRoundTrip(p: ToastPointer)
    requires ValidDatum(ExternalDatum(p))
    ensures PointerOf(PointerBytes(p)) == Ok(p)
    ensures FromLe(PointerBytes(p)[..4]) == TOAST_POINTER_SIZE + VARLENA_LIMIT
  {
    var s := PointerBytes(p);
    var a, b, c, d, e := Le(TOAST_POINTER_SIZE + VARLENA_LIMIT, 4), Le(p.rawsize, 4), Le(p.extsize, 4),
        Le(p.valueid, 4), Le(p.toastrelid, 4);
    PowValues();
    LeRoundTrip(TOAST_POINTER_SIZE + VARLENA_LIMIT, 4);
    LeRoundTrip(p.rawsize, 4);
    LeRoundTrip(p.extsize, 4);
    LeRoundTrip(p.valueid, 4);
    LeRoundTrip(p.toastrelid, 4);
    assert At(s, 0, a + (b + (c + (d + e))));
    hide Le, FromLe, PointerBytes;
    AtParts(s, 0, a, b + (c + (d + e)));
    AtParts(s, 4, b, c + (d + e));
    AtParts(s, 8, c, d + e);
    AtParts(s, 12, d, e);
    assert s[..4] == s[0..4];
    TagReads();
  }

  lemma TagReads()
    ensures IsExternal(TOAST_POINTER_SIZE + VARLENA_LIMIT)
    ensures VarlenaLength(TOAST_POINTER_SIZE + VARLENA_LIMIT) == TOAST_POINTER_SIZE
  {
  }

  lemma FixedRoundTrip(c: ColumnType, d: Datum)
    requires Matches(c, d) && ValidDatum(d) && FixedWidth(c).Some?
    ensures |DatumBytes(d)| == FixedWidth(c).value && FixedDatum(c, DatumBytes(d)) == d
  {
    match d
    case IntDatum(i) => SignedRoundTrip(i, 4);
    case LongDatum(l) => SignedRoundTrip(l, 8);
    case TimeDatum(t) => SignedRoundTrip(t, 8);
    case UuidDatum(_) =>
    case VectorDatum(v) => VectorRoundTrip(v);
  }

  lemma InlineRoundTrip(payload: seq<byte>)
    requires |payload| + 4 < VARLENA_LIMIT
    ensures FromLe(Le(|payload| + 4, 4)) == |payload| + 4
    ensures !IsExternal(|payload| + 4) && VarlenaLength(|payload| + 4) == |payload| + 4
  {
    hide Le, FromLe;
    PowValues();
    LeRoundTrip(|payload| + 4, 4);
  }

  lemma InlineDecodes(bytes: seq<byte>, pos: nat, c: ColumnType, payload: seq<byte>)
    requires c == Bytea || (c == Text && Utf8(payload))
    requires |payload| + 4 < VARLENA_LIMIT && At(bytes, pos, Le(|payload| + 4, 4) + payload)
    ensures DecodeDatum(bytes, c, pos)
      == Ok((if c == Text then TextDatum(payload) else ByteaDatum(payload), pos + 4 + |payload|))
  {
    InlineRoundTrip(payload);
    AtParts(bytes, pos, Le(|payload| + 4, 4), payload);
    assert bytes[pos..pos + 4] == Le(|payload| + 4, 4);
    hide DecodeDatum, Utf8, Le, FromLe;
    InlineAt(bytes, c, pos, payload);
  }

  lemma InlineAt(bytes: seq<byte>, c: ColumnType, pos: nat, payload: seq<byte>)
    requires c == Bytea || (c == Text && Utf8(payload))
    requires |payload| + 4 < VARLENA_LIMIT && At(bytes, pos + 4, payload)
    requires FromLe(bytes[pos..pos + 4]) == |payload| + 4
    ensures DecodeDatum(bytes, c, pos)
      == Ok((if c == Text then TextDatum(payload) else ByteaDatum(payload), pos + 4 + |payload|))
  {
    InlineRoundTrip(payload);
    var total := |payload| + 4;
    assert bytes[pos + 4..pos + total] == payload;
    hide Le, FromLe, Utf8, IsExternal, VarlenaLength, At, PointerOf, FixedDatum;
  }

  lemma PointerDecodes(bytes: seq<byte>, pos: nat, c: ColumnType, p: ToastPointer)
    requires FixedWidth(c).None? && ValidDatum(ExternalDatum(p)) && At(bytes, pos, PointerBytes(p))
    ensures DecodeDatum(bytes, c, pos) == Ok((ExternalDatum(p), pos + TOAST_POINTER_SIZE))
  {
    var body := PointerBytes(p);
    PointerRoundTrip(p);
    hide PointerBytes, PointerOf, FromLe;
    assert bytes[pos..pos + 4] == bytes[pos..pos + TOAST_POINTER_SIZE][..4];
  }

  lemma FixedDecodes(bytes: seq<byte>, pos: nat, c: ColumnType, d: Datum)
    requires Matches(c, d) && ValidDatum(d) && FixedWidth(c).Some? && At(bytes, pos, DatumBytes(d))
    ensures DecodeDatum(bytes, c, pos) == Ok((d, pos + |DatumBytes(d)|))
  {
    FixedRoundTrip(c, d);
    hide DatumBytes, FixedDatum;
  }

  /** A datum decodes from wherever its bytes stand. */
  lemma DatumRoundTrip(bytes: seq<byte>, pos: nat, c: ColumnType, d: Datum)
    requires Matches(c, d) && ValidDatum(d) && Inlineable(d) && At(bytes, pos, DatumBytes(d))
    ensures DecodeDatum(bytes, c, pos) == Ok((d, pos + |DatumBytes(d)|))
  {
    hide DecodeDatum, Utf8, Le, At;
    match d {
      case TextDatum(s) => InlineDecodes(bytes, pos, c, s);
      case ByteaDatum(b) => InlineDecodes(bytes, pos, c, b);
      case ExternalDatum(p) => PointerDecodes(bytes, pos, c, p);
      case _ => FixedDecodes(bytes, pos, c, d);
    }
  }

  // ---------------------------------------------------------------- all columns

  function ValueBytes(v: Option<Datum>): seq<byte> {
    if v.Some? then DatumBytes(v.value) else []
  }

  function RowBytes(row: Row): seq<byte> {
    if row == [] then [] else ValueBytes(row[0]) + RowBytes(row[1..])
  }

  /** Columns `i` and up, from `pos`; null columns take no bytes. */
  function DecodeCols(bytes: seq<byte>, cols: seq<ColumnType>, nulls: seq<bool>, i: nat,
                      pos: nat): (r: Result<(Row, nat), CodecError>)
    requires i <= |cols| == |nulls| && pos <= |bytes|
    ensures r.Ok? ==> |r.value.0| == |cols| - i && pos <= r.value.1 <= |bytes|
    decreases |cols| - i
  {
    if i == |cols| then Ok(([], pos))
    else if nulls[i] then
      match DecodeCols(bytes, cols, nulls, i + 1, pos)
      case Ok(rest) => Ok(([None] + rest.0, rest.1))
      case Err(e) => Err(e)
    else
      match DecodeDatum(bytes, cols[i], pos)
      case Err(e) => Err(e)
      case Ok(d) =>
        match DecodeCols(bytes, cols, nulls, i + 1, d.1)
        case Ok(rest) => Ok(([Some(d.0)] + rest.0, rest.1))
        case Err(e) => Err(e)
  }

  /** Every value fits its column, and the codec can write it. */
  predicate Typed(c: ColumnType, v: Option<Datum>) {
    DimOk(c) && (v.Some? ==> Matches(c, v.value) && Inlineable(v.value))
  }

  ghost predicate ValidRow(row: Row) {
    forall i :: 0 <= i < |row| && row[i].Some? ==> ValidDatum(row[i].value)
  }

  function NullsOf(row: Row): (n: seq<bool>)
    ensures |n| == |row| && forall i :: 0 <= i < |row| ==> n[i] == row[i].None?
  {
    seq(|row|, i requires 0 <= i < |row| => row[i].None?)
  }

  lemma ColsStep(bytes: seq<byte>, cols: seq<ColumnType>, nulls: seq<bool>, i: nat, pos: nat, row: Row, next: nat,
                 end: nat)
    requires row != [] && i < |cols| == |nulls| && pos <= |bytes| && next <= |bytes| && nulls[i] == row[0].None?
    requires row[0].None? ==> next == pos
    requires row[0].Some? ==> DecodeDatum(bytes, cols[i], pos) == Ok((row[0].value, next))
    requires DecodeCols(bytes, cols, nulls, i + 1, next) == Ok((row[1..], end))
    ensures DecodeCols(bytes, cols, nulls, i, pos) == Ok((row, end))
  {
    hide DecodeDatum;
    assert row == [row[0]] + row[1..];
  }

  /** `row` is what columns `i` and up hold. */
  ghost predicate Suits(cols: seq<ColumnType>, nulls: seq<bool>, i: nat, row: Row)
    decreases |row|
  {
    i + |row| == |cols| == |nulls| &&
      (row != [] ==>
         && Typed(cols[i], row[0]) && nulls[i] == row[0].None? && (row[0].Some? ==> ValidDatum(row[0].value))
         && Suits(cols, nulls, i + 1, row[1..]))
  }

  lemma {:induction false} RowSuits(cols: seq<ColumnType>, row: Row, i: nat)
    requires |cols| == |row| && i <= |row| && ValidRow(row) && forall k :: 0 <= k < |row| ==> Typed(cols[k], row[k])
    ensures Suits(cols, NullsOf(row), i, row[i..])
    decreases |row| - i
  {
    if i < |row| {
      RowSuits(cols, row, i + 1);
      assert row[i..][1..] == row[i + 1..];
    }
  }

  lemma {:induction false} ColsRoundTrip(bytes: seq<byte>, pos: nat, cols: seq<ColumnType>, nulls: seq<bool>, i: nat,
        row: Row)
    requires Suits(cols, nulls, i, row) && At(bytes, pos, RowBytes(row))
    ensures DecodeCols(bytes, cols, nulls, i, pos) == Ok((row, pos + |RowBytes(row)|))
    decreases |row|
  {
    hide DecodeCols, DecodeDatum, RowBytes, ValueBytes, At, ValidDatum, Typed;
    if row == [] {
      ColsEnd(bytes, pos, cols, nulls);
    } else {
      var next, end := pos + |ValueBytes(row[0])|, pos + |RowBytes(row)|;
      RowParts(bytes, pos, row);
      ColsRoundTrip(bytes, next, cols, nulls, i + 1, row[1..]);
      if row[0].Some? { ValueRoundTrip(bytes, pos, cols[i], row[0]); }
      ColsStep(bytes, cols, nulls, i, pos, row, next, end);
    }
  }

  lemma ColsEnd(bytes: seq<byte>, pos: nat, cols: seq<ColumnType>, nulls: seq<bool>)
    requires |cols| == |nulls| && At(bytes, pos, RowBytes([]))
    ensures DecodeCols(bytes, cols, nulls, |cols|, pos) == Ok(([], pos)) && RowBytes([]) == []
  {
  }

  lemma RowParts(bytes: seq<byte>, pos: nat, row: Row)
    requires row != [] && At(bytes, pos, RowBytes(row))
    ensures At(bytes, pos, ValueBytes(row[0])) && At(bytes, pos + |ValueBytes(row[0])|, RowBytes(row[1..]))
    ensures |RowBytes(row)| == |ValueBytes(row[0])| + |RowBytes(row[1..])| && pos + |RowBytes(row)| <= |bytes|
    ensures row[0].None? ==> |ValueBytes(row[0])| == 0
  {
    hide At, DatumBytes;
    AtParts(bytes, pos, ValueBytes(row[0]), RowBytes(row[1..]));
  }

  lemma ValueRoundTrip(bytes: seq<byte>, pos: nat, c: ColumnType, v: Option<Datum>)
    requires v.Some? && Typed(c, v) && ValidDatum(v.value) && At(bytes, pos, ValueBytes(v))
    ensures DecodeDatum(bytes, c, pos) == Ok((v.value, pos + |ValueBytes(v)|))
  {
    DatumRoundTrip(bytes, pos, c, v.value);
  }

  // ---------------------------------------------------------------- the header

  ghost predicate ValidHeader(h: Header) {
    && h.xmin < Pow256(8) && h.xmax < Pow256(8) && h.agent < Pow256(8) && |h.trace| == 16 && h.ctidPage < Pow256(8)
    && h.ctidSlot < 65536 && h.infomask < 65536 && h.infomask2 < 65536 && h.hoff < 65536 && h.flags < 65536
    && h.cid < Pow256(4)
  }

  /** The 64 header bytes in front of the rest; the pad behind the slot is zero. */
  function Written(h: Header, rest: seq<byte>): seq<byte> {
    Le(h.xmin, 8) + (Le(h.xmax, 8) + (Le(h.agent, 8) + (h.trace + (Le(h.ctidPage, 8) + (Le(h.ctidSlot, 2) + (Le(0, 2)
    + (Le(h.infomask, 2) + (Le(h.infomask2, 2) + (Le(h.hoff, 2) + (Le(h.flags, 2) + (Le(h.cid, 4) + rest)))))))))))
  }

  function ReadHeader(b: seq<byte>): Result<Header, CodecError> {
    if |b| < TUPLE_HEADER_SIZE || FromLe(b[50..52]) != 0 then Err(Corrupted)
    else Ok(Header(FromLe(b[0..8]), FromLe(b[8..16]), FromLe(b[16..24]), b[24..40], FromLe(b[40..48]),
      FromLe(b[48..50]),
                   FromLe(b[52..54]), FromLe(b[54..56]), FromLe(b[56..58]), FromLe(b[58..60]), FromLe(b[60..64])))
  }

  lemma LeReads(x: nat, n: nat, b: seq<byte>, at: nat)
    requires x < Pow256(n) && At(b, at, Le(x, n))
    ensures FromLe(b[at..at + n]) == x
  {
    LeRoundTrip(x, n);
  }

  lemma HeaderParts(h: Header, rest: seq<byte>, b: seq<byte>)
    requires b == Written(h, rest) && |h.trace| == 16
    ensures At(b, 0, Le(h.xmin, 8)) && At(b, 8, Le(h.xmax, 8)) && At(b, 16, Le(h.agent, 8)) && At(b, 24, h.trace)
    ensures At(b, 40, Le(h.ctidPage, 8)) && At(b, 48, Le(h.ctidSlot, 2)) && At(b, 50, Le(0, 2))
    ensures At(b, 52, Le(h.infomask, 2))
    ensures At(b, 54, Le(h.infomask2, 2)) && At(b, 56, Le(h.hoff, 2)) && At(b, 58, Le(h.flags, 2))
    ensures At(b, 60, Le(h.cid, 4))
    ensures At(b, 64, rest) && |b| == 64 + |rest|
  {
    var r11 := Le(h.cid, 4) + rest;
    var r10 := Le(h.flags, 2) + r11;
    var r9 := Le(h.hoff, 2) + r10;
    var r8 := Le(h.infomask2, 2) + r9;
    var r7 := Le(h.infomask, 2) + r8;
    var r6 := Le(0, 2) + r7;
    var r5 := Le(h.ctidSlot, 2) + r6;
    var r4 := Le(h.ctidPage, 8) + r5;
    var r3 := h.trace + r4;
    var r2 := Le(h.agent, 8) + r3;
    var r1 := Le(h.xmax, 8) + r2;
    assert At(b, 0, Le(h.xmin, 8) + r1) by { assert b[0..|b|] == b; }
    assert |b| == 64 + |rest|;
    hide Written, At, Le;
    AtParts(b, 0, Le(h.xmin, 8), r1);
    AtParts(b, 8, Le(h.xmax, 8), r2);
    AtParts(b, 16, Le(h.agent, 8), r3);
    AtParts(b, 24, h.trace, r4);
    AtParts(b, 40, Le(h.ctidPage, 8), r5);
    AtParts(b, 48, Le(h.ctidSlot, 2), r6);
    AtParts(b, 50, Le(0, 2), r7);
    AtParts(b, 52, Le(h.infomask, 2), r8);
    AtParts(b, 54, Le(h.infomask2, 2), r9);
    AtParts(b, 56, Le(h.hoff, 2), r10);
    AtParts(b, 58, Le(h.flags, 2), r11);
    AtParts(b, 60, Le(h.cid, 4), rest);
  }

  /** The header reads back field by field. */
  lemma HeaderRoundTrip(h: Header, rest: seq<byte>)
    requires ValidHeader(h)
    ensures ReadHeader(Written(h, rest)) == Ok(h)
  {
    var b := Written(h, rest);
    HeaderParts(h, rest, b);
    PowValues();
    hide Written, Le, FromLe, Pow256;
    LeReads(h.xmin, 8, b, 0);
    LeReads(h.xmax, 8, b, 8);
    LeReads(h.agent, 8, b, 16);
    LeReads(h.ctidPage, 8, b, 40);
    LeReads(h.ctidSlot, 2, b, 48);
    LeReads(0, 2, b, 50);
    LeReads(h.infomask, 2, b, 52);
    LeReads(h.infomask2, 2, b, 54);
    LeReads(h.hoff, 2, b, 56);
    LeReads(h.flags, 2, b, 58);
    LeReads(h.cid, 4, b, 60);
  }

  // ---------------------------------------------------------------- whole tuples

  predicate Accepts(cols: seq<ColumnType>, row: Row) {
    |cols| == |row| <= MAX_NATTS && forall i :: 0 <= i < |row| ==> Typed(cols[i], row[i])
  }

  predicate HasNulls(row: Row) {
    exists i :: 0 <= i < |row| && row[i].None?
  }

  predicate HasWide(cols: seq<ColumnType>, row: Row)
    requires |cols| == |row|
  {
    exists i :: 0 <= i < |row| && row[i].Some? && FixedWidth(cols[i]).None?
  }

  predicate HasExternal(row: Row) {
    exists i :: 0 <= i < |row| && row[i].Some? && row[i].value.ExternalDatum?
  }

  function BitmapLen(natts: nat, nulls: bool): nat {
    if nulls then (natts + 7) / 8 else 0
  }

  /** Header and bitmap, rounded up to eight bytes. */
  function Hoff(bitmap: nat): nat {
    (TUPLE_HEADER_SIZE + bitmap + 7) / 8 * 8
  }

  function Filled(h: Header, cols: seq<ColumnType>, row: Row, node: Option<nat>): Header
    requires |cols| == |row|
  {
    h.(infomask := Masked(h.infomask, HasNulls(row), HasWide(cols, row), HasExternal(row)),
       infomask2 := Masked2(h.infomask2, |cols|, node.Some?),
       hoff := Hoff(BitmapLen(|cols|, HasNulls(row))),
       flags := h.flags - h.flags % 16)
  }

  function BitmapByte(row: Row, j: nat): (b: byte) {
    NullBitsBound(row, j, 8);
    NullBits(row, j, 8)
  }

  function Bitmap(row: Row, n: nat): (s: seq<byte>)
    ensures |s| == n && forall j :: 0 <= j < n ==> s[j] == NullBits(row, j, 8)
  {
    seq(n, j requires 0 <= j < n => BitmapByte(row, j))
  }

  function NodeBytes(node: Option<nat>): seq<byte> {
    if node.Some? then Le(node.value, 4) else []
  }

  /** Null bitmap, padding, columns, node id. */
  function Parts(bits: seq<byte>, pad: seq<byte>, data: seq<byte>, tail: seq<byte>): seq<byte> {
    bits + (pad + (data + tail))
  }

  function Body(cols: seq<ColumnType>, row: Row, node: Option<nat>): seq<byte> {
    var n := BitmapLen(|cols|, HasNulls(row));
    Parts(Bitmap(row, n), Zeros(Hoff(n) - TUPLE_HEADER_SIZE - n), RowBytes(row), NodeBytes(node))
  }

  function Encode(h: Header, cols: seq<ColumnType>, row: Row, node: Option<nat>): Result<seq<byte>, CodecError> {
    if Accepts(cols, row) then Ok(Written(Filled(h, cols, row, node), Body(cols, row, node))) else Err(InvalidArgument)
  }

  function NullsAt(bytes: seq<byte>, natts: nat, nulls: bool): (s: seq<bool>)
    requires TUPLE_HEADER_SIZE + BitmapLen(natts, nulls) <= |bytes|
    ensures |s| == natts
    ensures forall i :: 0 <= i < natts ==> s[i] == (nulls && Bit(bytes[TUPLE_HEADER_SIZE + i / 8], Pow2(i % 8)))
  {
    seq(natts, i requires 0 <= i < natts => nulls && Bit(bytes[TUPLE_HEADER_SIZE + i / 8], Pow2(i % 8)))
  }

  predicate Sane(h: Header, cols: seq<ColumnType>, size: nat) {
    && h.infomask2 % 2048 == |cols| && (forall i :: 0 <= i < |cols| ==> DimOk(cols[i]))
    && TUPLE_HEADER_SIZE <= h.hoff <= size && h.hoff % 8 == 0
    && TUPLE_HEADER_SIZE + BitmapLen(|cols|, Bit(h.infomask, HASNULL)) <= h.hoff
  }

  function Tail(h: Header): nat {
    if Bit(h.infomask2, HAS_NODEID) then 4 else 0
  }

  function Decode(bytes: seq<byte>, cols: seq<ColumnType>): Result<(Header, Row), CodecError> {
    match ReadHeader(bytes)
    case Err(e) => Err(e)
    case Ok(h) =>
      if !Sane(h, cols, |bytes|) then Err(Corrupted) else
        match DecodeCols(bytes, cols, NullsAt(bytes, |cols|, Bit(h.infomask, HASNULL)), 0, h.hoff)
        case Err(e) => Err(e)
        case Ok(r) => if |bytes| - r.1 != Tail(h) then Err(Corrupted) else Ok((h, r.0))
  }

  /** The trailing node id, read only from a tuple that decodes. */
  function NodeId(bytes: seq<byte>, cols: seq<ColumnType>): Result<Option<nat>, CodecError> {
    match Decode(bytes, cols)
    case Err(e) => Err(e)
    case Ok(r) => if Tail(r.0) == 0 || |bytes| < 4 then Ok(None) else Ok(Some(FromLe(bytes[|bytes| - 4..])))
  }

  // ---------------------------------------------------------------- the round trip

  /** A tuple as the caller's types allow it. */
  ghost predicate ValidTuple(h: Header, cols: seq<ColumnType>, row: Row, node: Option<nat>) {
    ValidHeader(h) && ValidRow(row) && Accepts(cols, row) && (node.Some? ==> U32(node.value))
  }

  lemma FilledReads(h: Header, cols: seq<ColumnType>, row: Row, node: Option<nat>)
    requires ValidTuple(h, cols, row, node)
    ensures var f := Filled(h, cols, row, node);
      && ValidHeader(f) && f.infomask2 % 2048 == |cols| && (Bit(f.infomask, HASNULL) <==> HasNulls(row))
      && Tail(f) == (if node.Some? then 4 else 0) && f.hoff % 8 == 0
      && TUPLE_HEADER_SIZE + BitmapLen(|cols|, HasNulls(row)) <= f.hoff == Hoff(BitmapLen(|cols|, HasNulls(row)))
      && (forall i :: 0 <= i < |cols| ==> DimOk(cols[i]))
  {
    forall i | 0 <= i < |cols| ensures DimOk(cols[i]) { assert Typed(cols[i], row[i]); }
    MaskReads(h.infomask, HasNulls(row), HasWide(cols, row), HasExternal(row));
    Mask2Reads(h.infomask2, |cols|, node.Some?);
    hide Masked, Masked2, Bit;
    Aligned(BitmapLen(|cols|, HasNulls(row)));
  }

  lemma Aligned(n: nat)
    ensures Hoff(n) % 8 == 0 && TUPLE_HEADER_SIZE + n <= Hoff(n) < TUPLE_HEADER_SIZE + n + 8
  {
  }

  /** Where the parts of an encoded tuple stand. */
  lemma BodyParts(b: seq<byte>, f: Header, cols: seq<ColumnType>, row: Row, node: Option<nat>)
    requires |f.trace| == 16 && b == Written(f, Body(cols, row, node))
    ensures var n := BitmapLen(|cols|, HasNulls(row));
      && At(b, 64, Bitmap(row, n)) && At(b, Hoff(n), RowBytes(row)) && At(b, Hoff(n) + |RowBytes(row)|, NodeBytes(node))
      && TUPLE_HEADER_SIZE + n <= Hoff(n) && At(b, 64 + n, Zeros(Hoff(n) - TUPLE_HEADER_SIZE - n))
      && |b| == Hoff(n) + |RowBytes(row)| + |NodeBytes(node)|
  {
    hide *;
    var n := BitmapLen(|cols|, HasNulls(row));
    BodyIs(cols, row, node);
    BodyAt(b, f, Hoff(n), Bitmap(row, n), Zeros(Hoff(n) - TUPLE_HEADER_SIZE - n), RowBytes(row), NodeBytes(node));
  }

  lemma BodyIs(cols: seq<ColumnType>, row: Row, node: Option<nat>)
    ensures var n := BitmapLen(|cols|, HasNulls(row));
      && Hoff(n) >= TUPLE_HEADER_SIZE + n
      && Hoff(n) == 64 + |Bitmap(row, n)| + |Zeros(Hoff(n) - TUPLE_HEADER_SIZE - n)|
      && Body(cols, row, node)
         == Parts(Bitmap(row, n), Zeros(Hoff(n) - TUPLE_HEADER_SIZE - n), RowBytes(row), NodeBytes(node))
  {
  }

  lemma BodyAt(b: seq<byte>, f: Header, hoff: nat, bits: seq<byte>, zeros: seq<byte>, data: seq<byte>, tail: seq<byte>)
    requires |f.trace| == 16 && b == Written(f, Parts(bits, zeros, data, tail)) && hoff == 64 + |bits| + |zeros|
    ensures At(b, 64, bits) && At(b, hoff, data) && At(b, hoff + |data|, tail) && |b| == hoff + |data| + |tail|
    ensures At(b, 64 + |bits|, zeros)
  {
    hide Written, At;
    HeaderParts(f, bits + (zeros + (data + tail)), b);
    FourAt(b, 64, bits, zeros, data, tail);
  }

  lemma FourAt(b: seq<byte>, at: nat, p: seq<byte>, q: seq<byte>, r: seq<byte>, t: seq<byte>)
    requires At(b, at, p + (q + (r + t)))
    ensures At(b, at, p) && At(b, at + |p|, q) && At(b, at + |p| + |q|, r) && At(b, at + |p| + |q| + |r|, t)
  {
    hide At;
    AtParts(b, at, p, q + (r + t));
    AtParts(b, at + |p|, q, r + t);
    AtParts(b, at + |p| + |q|, r, t);
  }

  /** The bitmap reads back as the row's nulls. */
  lemma NullsRead(b: seq<byte>, row: Row)
    requires At(b, 64, Bitmap(row, BitmapLen(|row|, HasNulls(row))))
    ensures NullsAt(b, |row|, HasNulls(row)) == NullsOf(row)
  {
    var n := BitmapLen(|row|, HasNulls(row));
    var bits := Bitmap(row, n);
    forall i | 0 <= i < |row| ensures NullsAt(b, |row|, HasNulls(row))[i] == row[i].None? {
      if HasNulls(row) {
        var j, k := i / 8, i % 8;
        assert b[64..64 + n][j] == b[64 + j] == bits[j];
        NullBitAt(row, j, 8, k);
      }
    }
  }

  /** The header that goes out: the structural bits say what the row holds, the version is zero, the data starts at the
      first multiple of eight behind the bitmap, and everything else is the caller's. */
  ghost predicate HeaderRight(h: Header, f: Header, cols: seq<ColumnType>, row: Row, node: Option<nat>)
    requires |cols| == |row|
  {
    && f.xmin == h.xmin && f.xmax == h.xmax && f.agent == h.agent && f.trace == h.trace && f.cid == h.cid
    && f.ctidPage == h.ctidPage && f.ctidSlot == h.ctidSlot
    && (Bit(f.infomask, 0x0001) <==> exists i :: 0 <= i < |row| && row[i].None?)
    && (Bit(f.infomask, 0x0002) <==> exists i :: 0 <= i < |row| && row[i].Some? && cols[i] in {Text, Bytea})
    && (Bit(f.infomask, 0x0004) <==> exists i :: 0 <= i < |row| && row[i].Some? && row[i].value.ExternalDatum?)
    && f.infomask / 8 == h.infomask / 8
    && f.infomask2 % 2048 == |cols| && (Bit(f.infomask2, 0x0800) <==> node.Some?)
    && f.infomask2 / 4096 == h.infomask2 / 4096
    && f.flags % 16 == 0 && f.flags / 16 == h.flags / 16
    && f.hoff % 8 == 0 && 0 <= f.hoff - 64 - (if Bit(f.infomask, 0x0001) then (|cols| + 7) / 8 else 0) < 8
  }

  lemma FilledRight(h: Header, cols: seq<ColumnType>, row: Row, node: Option<nat>)
    requires ValidTuple(h, cols, row, node)
    ensures HeaderRight(h, Filled(h, cols, row, node), cols, row, node)
  {
    var f := Filled(h, cols, row, node);
    MaskReads(h.infomask, HasNulls(row), HasWide(cols, row), HasExternal(row));
    Mask2Reads(h.infomask2, |cols|, node.Some?);
    WideIsVarlena(cols, row);
    hide Masked, Masked2, Bit, HasWide;
    Aligned(BitmapLen(|cols|, HasNulls(row)));
    assert h.flags == h.flags / 16 * 16 + h.flags % 16;
  }

  lemma WideIsVarlena(cols: seq<ColumnType>, row: Row)
    requires |cols| == |row|
    ensures HasWide(cols, row) <==> exists i :: 0 <= i < |row| && row[i].Some? && cols[i] in {Text, Bytea}
  {
    if HasWide(cols, row) {
      var i :| 0 <= i < |row| && row[i].Some? && FixedWidth(cols[i]).None?;
      assert cols[i] in {Text, Bytea};
    }
  }

  /** Decoding an encoded tuple gives back the row, the caller's header fields with the structural bits filled in, and
      the node id; encoding succeeds exactly on rows that match their schema. */
  lemma RoundTrip(h: Header, cols: seq<ColumnType>, row: Row, node: Option<nat>)
    requires ValidTuple(h, cols, row, node)
    ensures var b := Encode(h, cols, row, node);
      && b.Ok? && Decode(b.value, cols) == Ok((Filled(h, cols, row, node), row)) && NodeId(b.value, cols) == Ok(node)
      && HeaderRight(h, Filled(h, cols, row, node), cols, row, node)
  {
    hide Written, Body, ReadHeader, DecodeCols, Decode, NodeId, RowBytes, At, HasNulls, HasWide, HasExternal, Hoff,
         BitmapLen, Typed;
    hide Masked, Masked2, Bit, Filled, Sane, HeaderRight;
    FilledRight(h, cols, row, node);
    var f, n := Filled(h, cols, row, node), BitmapLen(|cols|, HasNulls(row));
    var b := Written(f, Body(cols, row, node));
    FilledReads(h, cols, row, node);
    HeaderRoundTrip(f, Body(cols, row, node));
    BodyParts(b, f, cols, row, node);
    NullsRead(b, row);
    RowSuits(cols, row, 0);
    assert row[0..] == row;
    ColsRoundTrip(b, Hoff(n), cols, NullsOf(row), 0, row);
    FilledSane(f, cols, |b|, HasNulls(row));
    DecodeIs(b, cols, f, row, Hoff(n) + |RowBytes(row)|);
    NodeReads(b, cols, f, row, node);
  }

  lemma FilledSane(f: Header, cols: seq<ColumnType>, size: nat, nulls: bool)
    requires f.infomask2 % 2048 == |cols| && (forall i :: 0 <= i < |cols| ==> DimOk(cols[i])) && f.hoff <= size
    requires f.hoff % 8 == 0
    requires (Bit(f.infomask, HASNULL) <==> nulls) && TUPLE_HEADER_SIZE + BitmapLen(|cols|, nulls) <= f.hoff
    ensures Sane(f, cols, size)
  {
  }

  lemma DecodeIs(b: seq<byte>, cols: seq<ColumnType>, f: Header, row: Row, end: nat)
    requires ReadHeader(b) == Ok(f) && Sane(f, cols, |b|)
    requires DecodeCols(b, cols, NullsAt(b, |cols|, Bit(f.infomask, HASNULL)), 0, f.hoff) == Ok((row, end))
    requires |b| - end == Tail(f)
    ensures Decode(b, cols) == Ok((f, row))
  {
    hide ReadHeader, DecodeCols;
  }

  lemma NodeReads(b: seq<byte>, cols: seq<ColumnType>, f: Header, row: Row, node: Option<nat>)
    requires Decode(b, cols) == Ok((f, row)) && (node.Some? ==> U32(node.value))
    requires |NodeBytes(node)| == Tail(f) <= |b| && At(b, |b| - Tail(f), NodeBytes(node))
    ensures NodeId(b, cols) == Ok(node)
  {
    hide Decode;
    if node.Some? {
      PowValues();
      LeRoundTrip(node.value, 4);
      assert b[|b| - 4..] == b[|b| - 4..|b| - 4 + 4];
    }
  }

  // ---------------------------------------------------------------- the bytes of a tuple

  /** `x` stands at `at` in `n` bytes, the lowest first. */
  ghost predicate Number(b: seq<byte>, at: nat, n: nat, x: nat) {
    at + n <= |b| && forall k :: 0 <= k < n ==> b[at + k] == x / Pow256(k) % 256
  }

  lemma DivDiv(x: nat, p: nat)
    requires p > 0
    ensures x / 256 / p == x / (256 * p)
  {
    var q, r := x / (256 * p), x % (256 * p);
    assert x == 256 * (p * q) + r;
    assert x / 256 == p * q + r / 256 && 0 <= r / 256 < p;
    assert (p * q + r / 256) / p == q by { DivSum(p, q, r / 256); }
  }

  lemma DivSum(p: nat, q: nat, r: nat)
    requires r < p
    ensures (p * q + r) / p == q
  {
    var d := (p * q + r) / p;
    assert p * d <= p * q + r < p * d + p;
    assert d < q ==> p * (d + 1) <= p * q;
    assert q < d ==> p * (q + 1) <= p * d;
  }

  lemma {:induction false} LeDigit(x: nat, n: nat, k: nat)
    requires k < n
    ensures Le(x, n)[k] == x / Pow256(k) % 256
    decreases n
  {
    if k > 0 {
      LeDigit(x / 256, n - 1, k - 1);
      DivDiv(x, Pow256(k - 1));
    }
  }

  lemma LeStands(b: seq<byte>, at: nat, n: nat, x: nat)
    requires At(b, at, Le(x, n))
    ensures Number(b, at, n, x)
  {
    forall k | 0 <= k < n ensures b[at + k] == x / Pow256(k) % 256 {
      LeDigit(x, n, k);
      assert b[at + k] == b[at..at + n][k];
    }
  }

  /** The 64 bytes of a header. */
  ghost predicate HeaderStands(b: seq<byte>, f: Header) {
    && Number(b, 0, 8, f.xmin) && Number(b, 8, 8, f.xmax) && Number(b, 16, 8, f.agent) && At(b, 24, f.trace)
    && Number(b, 40, 8, f.ctidPage) && Number(b, 48, 2, f.ctidSlot) && Number(b, 50, 2, 0)
    && Number(b, 52, 2, f.infomask) && Number(b, 54, 2, f.infomask2) && Number(b, 56, 2, f.hoff)
    && Number(b, 58, 2, f.flags) && Number(b, 60, 4, f.cid)
  }

  lemma HeaderBytes(f: Header, rest: seq<byte>, b: seq<byte>)
    requires b == Written(f, rest) && |f.trace| == 16
    ensures HeaderStands(b, f)
  {
    hide Written, Le, At, Number;
    HeaderParts(f, rest, b);
    LeStands(b, 0, 8, f.xmin);
    LeStands(b, 8, 8, f.xmax);
    LeStands(b, 16, 8, f.agent);
    LeStands(b, 40, 8, f.ctidPage);
    LeStands(b, 48, 2, f.ctidSlot);
    LeStands(b, 50, 2, 0);
    LeStands(b, 52, 2, f.infomask);
    LeStands(b, 54, 2, f.infomask2);
    LeStands(b, 56, 2, f.hoff);
    LeStands(b, 58, 2, f.flags);
    LeStands(b, 60, 4, f.cid);
  }

  function Width(v: Option<Datum>): nat {
    match v
    case None => 0
    case Some(IntDatum(_)) => 4
    case Some(LongDatum(_)) => 8
    case Some(TimeDatum(_)) => 8
    case Some(UuidDatum(u)) => |u|
    case Some(TextDatum(s)) => 4 + |s|
    case Some(ByteaDatum(b)) => 4 + |b|
    case Some(VectorDatum(v)) => 4 * |v|
    case Some(ExternalDatum(_)) => 20
  }

  /** Where column `i` starts: columns stand one behind the other, without padding, nulls take no room. */
  function ColumnAt(row: Row, hoff: nat, i: nat): nat
    requires i <= |row|
  {
    if i == 0 then hoff else ColumnAt(row, hoff, i - 1) + Width(row[i - 1])
  }

  /** Two's complement of `x` in `n` bytes. */
  ghost predicate SignedNumber(b: seq<byte>, at: nat, n: nat, x: int) {
    if x < 0 then x + Pow256(n) >= 0 && Number(b, at, n, x + Pow256(n)) else Number(b, at, n, x)
  }

  /** The bytes of one value: numbers lowest byte first, varlena behind their length including itself, an external
      pointer behind its length tagged with bit 30. */
  ghost predicate ValueStands(b: seq<byte>, at: nat, d: Datum) {
    match d
    case IntDatum(i) => SignedNumber(b, at, 4, i)
    case LongDatum(l) => SignedNumber(b, at, 8, l)
    case TimeDatum(t) => SignedNumber(b, at, 8, t)
    case UuidDatum(u) => At(b, at, u)
    case TextDatum(s) => Number(b, at, 4, |s| + 4) && At(b, at + 4, s)
    case ByteaDatum(s) => Number(b, at, 4, |s| + 4) && At(b, at + 4, s)
    case VectorDatum(v) => forall k :: 0 <= k < |v| ==> Number(b, at + 4 * k, 4, v[k])
    case ExternalDatum(p) =>
      && Number(b, at, 4, 0x4000_0014) && Number(b, at + 4, 4, p.rawsize) && Number(b, at + 8, 4, p.extsize)
      && Number(b, at + 12, 4, p.valueid) && Number(b, at + 16, 4, p.toastrelid)
  }

  lemma {:induction false} VectorStands(b: seq<byte>, at: nat, v: seq<nat>, k: nat)
    requires At(b, at, VectorBytes(v)) && k < |v|
    ensures Number(b, at + 4 * k, 4, v[k])
    decreases k
  {
    hide Number, Le, At;
    AtParts(b, at, Le(v[0], 4), VectorBytes(v[1..]));
    if k == 0 { LeStands(b, at, 4, v[0]); } else { VectorStands(b, at + 4, v[1..], k - 1); }
  }

  lemma InlineStands(b: seq<byte>, at: nat, s: seq<byte>)
    requires At(b, at, Le(|s| + 4, 4) + s)
    ensures Number(b, at, 4, |s| + 4) && At(b, at + 4, s)
  {
    hide Number, Le, At;
    AtParts(b, at, Le(|s| + 4, 4), s);
    LeStands(b, at, 4, |s| + 4);
  }

  lemma PointerStands(b: seq<byte>, at: nat, p: ToastPointer)
    requires At(b, at, PointerBytes(p))
    ensures ValueStands(b, at, ExternalDatum(p))
  {
    hide Number, Le, At;
    var x, y, z, u, w := Le(TOAST_POINTER_SIZE + VARLENA_LIMIT, 4), Le(p.rawsize, 4), Le(p.extsize, 4),
        Le(p.valueid, 4), Le(p.toastrelid, 4);
    AtParts(b, at, x, y + (z + (u + w)));
    AtParts(b, at + 4, y, z + (u + w));
    AtParts(b, at + 8, z, u + w);
    AtParts(b, at + 12, u, w);
    LeStands(b, at, 4, TOAST_POINTER_SIZE + VARLENA_LIMIT);
    LeStands(b, at + 4, 4, p.rawsize);
    LeStands(b, at + 8, 4, p.extsize);
    LeStands(b, at + 12, 4, p.valueid);
    LeStands(b, at + 16, 4, p.toastrelid);
  }

  lemma DatumStands(b: seq<byte>, at: nat, d: Datum)
    requires At(b, at, DatumBytes(d)) && ValidDatum(d)
    ensures ValueStands(b, at, d) && |DatumBytes(d)| == Width(Some(d))
  {
    hide Number, Le, At, PointerBytes;
    match d
    case IntDatum(i) => LeStands(b, at, 4, Wrap(i, 4));
    case LongDatum(l) => LeStands(b, at, 8, Wrap(l, 8));
    case TimeDatum(t) => LeStands(b, at, 8, Wrap(t, 8));
    case UuidDatum(_) =>
    case TextDatum(s) => InlineStands(b, at, s);
    case ByteaDatum(s) => InlineStands(b, at, s);
    case VectorDatum(v) => forall k | 0 <= k < |v| ensures Number(b, at + 4 * k, 4, v[k]) { VectorStands(b, at, v, k); }
    case ExternalDatum(p) => PointerStands(b, at, p);
  }

  /** Columns `i` and up of the row stand where they should. */
  lemma {:induction false} ColumnsStand(b: seq<byte>, hoff: nat, row: Row, i: nat)
    requires ValidRow(row) && i <= |row| && At(b, ColumnAt(row, hoff, i), RowBytes(row[i..]))
    ensures forall k :: i <= k < |row| && row[k].Some? ==> ValueStands(b, ColumnAt(row, hoff, k), row[k].value)
    ensures ColumnAt(row, hoff, |row|) == ColumnAt(row, hoff, i) + |RowBytes(row[i..])|
    decreases |row| - i
  {
    hide At, DatumBytes, ValueStands, ValidDatum;
    if i < |row| {
      var at := ColumnAt(row, hoff, i);
      RowParts(b, at, row[i..]);
      assert row[i..][1..] == row[i + 1..];
      if row[i].Some? { DatumStands(b, at, row[i].value); }
      ColumnsStand(b, hoff, row, i + 1);
    }
  }

  ghost predicate BitmapRight(b: seq<byte>, row: Row) {
    forall i :: 0 <= i < |row| ==> 64 + i / 8 < |b| && (Bit(b[64 + i / 8], Pow2(i % 8)) <==> row[i].None?)
  }

  /** The bytes an encoded tuple consists of: the header at its offsets, the null bitmap with bit `i` set exactly for a
      null column `i`, the columns from `t_hoff` on, and the node id behind the last. */
  lemma EncodedBytes(h: Header, cols: seq<ColumnType>, row: Row, node: Option<nat>)
    requires ValidTuple(h, cols, row, node) && Encode(h, cols, row, node).Ok?
    ensures var b, f := Encode(h, cols, row, node).value, Filled(h, cols, row, node);
      && HeaderStands(b, f)
      && (HasNulls(row) ==> BitmapRight(b, row))
      && (forall i :: 64 + BitmapLen(|cols|, HasNulls(row)) <= i < f.hoff ==> i < |b| && b[i] == 0)
      && (forall i :: 0 <= i < |row| && row[i].Some? ==> ValueStands(b, ColumnAt(row, f.hoff, i), row[i].value))
      && (node.Some? ==> Number(b, ColumnAt(row, f.hoff, |row|), 4, node.value))
      && |b| == ColumnAt(row, f.hoff, |row|) + (if node.Some? then 4 else 0)
  {
    hide Written, Body, RowBytes, At, HasNulls, HasWide, HasExternal, BitmapLen, Typed, Le, Number, Bit;
    hide Masked, Masked2, HeaderStands, ValueStands;
    var f, n := Filled(h, cols, row, node), BitmapLen(|cols|, HasNulls(row));
    var b := Written(f, Body(cols, row, node));
    HeaderBytes(f, Body(cols, row, node), b);
    BodyParts(b, f, cols, row, node);
    assert row[0..] == row;
    ColumnsStand(b, f.hoff, row, 0);
    if HasNulls(row) { BitmapStands(b, row); }
    PadStands(b, 64 + n, Hoff(n));
    if node.Some? { LeStands(b, ColumnAt(row, f.hoff, |row|), 4, node.value); }
  }

  lemma PadStands(b: seq<byte>, from: nat, to: nat)
    requires from <= to && At(b, from, Zeros(to - from))
    ensures forall i :: from <= i < to ==> i < |b| && b[i] == 0
  {
    forall i | from <= i < to ensures i < |b| && b[i] == 0 { assert b[i] == b[from..to][i - from]; }
  }

  lemma BitmapStands(b: seq<byte>, row: Row)
    requires HasNulls(row) && At(b, 64, Bitmap(row, BitmapLen(|row|, true)))
    ensures BitmapRight(b, row)
  {
    var n := BitmapLen(|row|, true);
    forall i | 0 <= i < |row| ensures 64 + i / 8 < |b| && (Bit(b[64 + i / 8], Pow2(i % 8)) <==> row[i].None?) {
      var j, k := i / 8, i % 8;
      assert b[64..64 + n][j] == b[64 + j];
      NullBitAt(row, j, 8, k);
    }
  }

  // ---------------------------------------------------------------- the strict tail

  lemma DatumPrefix(a: seq<byte>, b: seq<byte>, c: ColumnType, pos: nat)
    requires a <= b && pos <= |a| && DecodeDatum(a, c, pos).Ok?
    ensures DecodeDatum(b, c, pos) == DecodeDatum(a, c, pos)
  {
    var end := DecodeDatum(a, c, pos).value.1;
    assert forall i, j :: 0 <= i <= j <= |a| ==> a[i..j] == b[i..j];
  }

  lemma {:induction false} ColsPrefix(a: seq<byte>, b: seq<byte>, cols: seq<ColumnType>, nulls: seq<bool>, i: nat,
                                      pos: nat)
    requires a <= b && i <= |cols| == |nulls| && pos <= |a| && DecodeCols(a, cols, nulls, i, pos).Ok?
    ensures DecodeCols(b, cols, nulls, i, pos) == DecodeCols(a, cols, nulls, i, pos)
    decreases |cols| - i
  {
    hide DecodeDatum;
    if i < |cols| {
      if nulls[i] {
        ColsPrefix(a, b, cols, nulls, i + 1, pos);
      } else {
        DatumPrefix(a, b, cols[i], pos);
        ColsPrefix(a, b, cols, nulls, i + 1, DecodeDatum(a, cols[i], pos).value.1);
      }
    }
  }

  /** No tuple that decodes is a proper prefix of another: bytes cut off or added are always noticed. */
  lemma PrefixFree(a: seq<byte>, b: seq<byte>, cols: seq<ColumnType>)
    requires a < b && Decode(a, cols).Ok?
    ensures Decode(b, cols).Err?
  {
    var h := ReadHeader(a).value;
    HeaderPrefix(a, b);
    var nulls := NullsAt(a, |cols|, Bit(h.infomask, HASNULL));
    assert NullsAt(b, |cols|, Bit(h.infomask, HASNULL)) == nulls;
    ColsPrefix(a, b, cols, nulls, 0, h.hoff);
  }

  lemma HeaderPrefix(a: seq<byte>, b: seq<byte>)
    requires a <= b && ReadHeader(a).Ok?
    ensures ReadHeader(b) == ReadHeader(a)
  {
    assert forall i, j :: 0 <= i <= j <= |a| ==> a[i..j] == b[i..j];
  }

  // ---------------------------------------------------------------- the codec as it runs

  function SetBit(m: nat, p: nat): nat
    requires p > 0
  {
    if Bit(m, p) then m else m + p
  }

  /** How many bits of bitmap byte `j` the first `i` columns settle. */
  function Settled(i: nat, j: nat): nat {
    if i <= 8 * j then 0 else if i >= 8 * j + 8 then 8 else i - 8 * j
  }

  lemma NullBitSet(row: Row, j: nat, k: nat)
    requires k < 8
    ensures NullBits(row, j, k) < Pow2(k) && NullBits(row, j, k + 1) < 256
    ensures if IsNull(row, 8 * j + k) then SetBit(NullBits(row, j, k), Pow2(k)) == NullBits(row, j, k + 1)
      else NullBits(row, j, k) == NullBits(row, j, k + 1)
  {
    NullBitsBound(row, j, k);
    NullBitsBound(row, j, k + 1);
    TopBit(NullBits(row, j, k), k);
  }

  method WriteBitmap(row: Row, n: nat) returns (bits: seq<byte>)
    requires |row| <= 8 * n
    ensures bits == Bitmap(row, n)
  {
    bits := Zeros(n);
    for i := 0 to |row|
      invariant |bits| == n && forall j :: 0 <= j < n ==> bits[j] == NullBits(row, j, Settled(i, j))
    {
      var j, k := i / 8, i % 8;
      NullBitSet(row, j, k);
      assert IsNull(row, 8 * j + k) <==> row[i].None?;
      hide NullBits, Bit, Pow2;
      assert Settled(i, j) == k && Settled(i + 1, j) == k + 1;
      assert forall x :: 0 <= x < n && x != j ==> Settled(i + 1, x) == Settled(i, x);
      if row[i].None? {
        bits := bits[j := SetBit(bits[j], Pow2(k))];
      }
    }
    forall j | 0 <= j < n ensures bits[j] == NullBits(row, j, 8) {
      if |row| < 8 * j + 8 { PastEnd(row, j, Settled(|row|, j)); }
    }
  }

  lemma {:induction false} PastEnd(row: Row, j: nat, k: nat)
    requires k <= 8 && |row| <= 8 * j + k
    ensures NullBits(row, j, k) == NullBits(row, j, 8)
    decreases 8 - k
  {
    if k < 8 { PastEnd(row, j, k + 1); }
  }

  lemma {:induction false} RowSnoc(row: Row, v: Option<Datum>)
    ensures RowBytes(row + [v]) == RowBytes(row) + ValueBytes(v)
  {
    hide ValueBytes;
    if row == [] {
      assert row + [v] == [v] && [v][1..] == [];
    } else {
      assert (row + [v])[1..] == row[1..] + [v];
      RowSnoc(row[1..], v);
      Assoc(ValueBytes(row[0]), RowBytes(row[1..]), ValueBytes(v));
    }
  }

  lemma Assoc<T>(a: seq<T>, b: seq<T>, c: seq<T>)
    ensures a + (b + c) == a + b + c
  {
  }

  lemma WrittenRest(f: Header, rest: seq<byte>)
    ensures Written(f, rest) == Written(f, []) + rest
  {
    hide Le;
  }

  /** The first pass over the schema: refuse mismatches, note what the header must say. */
  method CheckRow(cols: seq<ColumnType>, row: Row) returns (ok: bool, nulls: bool, wide: bool, external: bool)
    requires |cols| == |row|
    ensures ok <==> forall i :: 0 <= i < |row| ==> DimOk(cols[i]) && (row[i].Some? ==> Matches(cols[i], row[i].value))
    ensures ok ==> nulls == HasNulls(row) && wide == HasWide(cols, row) && external == HasExternal(row)
  {
    ok, nulls, wide, external := true, false, false, false;
    for i := 0 to |row|
      invariant ok && forall k :: 0 <= k < i ==> DimOk(cols[k]) && (row[k].Some? ==> Matches(cols[k], row[k].value))
      invariant nulls <==> exists k :: 0 <= k < i && row[k].None?
      invariant wide <==> exists k :: 0 <= k < i && row[k].Some? && FixedWidth(cols[k]).None?
      invariant external <==> exists k :: 0 <= k < i && row[k].Some? && row[k].value.ExternalDatum?
    {
      if !DimOk(cols[i]) {
        return false, nulls, wide, external;
      }
      if row[i].None? {
        nulls := true;
      } else {
        if !Matches(cols[i], row[i].value) {
          return false, nulls, wide, external;
        }
        if FixedWidth(cols[i]).None? { wide := true; }
        if row[i].value.ExternalDatum? { external := true; }
      }
    }
  }

  /** The column area, or nothing if an inline value is too long. */
  method WriteColumns(row: Row) returns (r: Option<seq<byte>>)
    ensures r.Some? <==> forall i :: 0 <= i < |row| && row[i].Some? ==> Inlineable(row[i].value)
    ensures r.Some? ==> r.value == RowBytes(row)
  {
    var out := [];
    for i := 0 to |row|
      invariant forall k :: 0 <= k < i && row[k].Some? ==> Inlineable(row[k].value)
      invariant out == RowBytes(row[..i])
    {
      assert row[..i + 1] == row[..i] + [row[i]];
      RowSnoc(row[..i], row[i]);
      hide DatumBytes;
      if row[i].Some? {
        if !Inlineable(row[i].value) {
          return None;
        }
        out := out + DatumBytes(row[i].value);
      }
    }
    assert row[..|row|] == row;
    r := Some(out);
  }

  method EncodeTuple(h: Header, cols: seq<ColumnType>, row: Row, node: Option<nat>)
    returns (r: Result<seq<byte>, CodecError>)
    ensures r == Encode(h, cols, row, node)
  {
    if |cols| != |row| || |cols| > MAX_NATTS {
      return Err(InvalidArgument);
    }
    var ok, nulls, wide, external := CheckRow(cols, row);
    if !ok {
      return Err(InvalidArgument);
    }
    hide HasNulls, HasWide, HasExternal, Matches, Inlineable, RowBytes, Bitmap;
    var n := BitmapLen(|cols|, nulls);
    var f := h.(infomask := Masked(h.infomask, nulls, wide, external),
        infomask2 := Masked2(h.infomask2, |cols|, node.Some?),
                hoff := Hoff(n), flags := h.flags - h.flags % 16);
    var bits := [];
    if nulls { bits := WriteBitmap(row, n); }
    var data := WriteColumns(row);
    if data.None? {
      return Err(InvalidArgument);
    }
    NoBits(row);
    assert bits == Bitmap(row, n);
    var out := Written(f, []) + (bits + (Zeros(Hoff(n) - TUPLE_HEADER_SIZE - n) + (data.value + NodeBytes(node))));
    WrittenRest(f, Body(cols, row, node));
    hide Written, Zeros, NodeBytes;
    r := Ok(out);
  }

  lemma NoBits(row: Row)
    ensures Bitmap(row, 0) == []
  {
  }

  function Prepend(vals: Row, r: Result<(Row, nat), CodecError>): Result<(Row, nat), CodecError> {
    match r
    case Ok(v) => Ok((vals + v.0, v.1))
    case Err(e) => Err(e)
  }

  lemma ColsUnfold(bytes: seq<byte>, cols: seq<ColumnType>, nulls: seq<bool>, i: nat, pos: nat, vals: Row)
    requires i < |cols| == |nulls| && pos <= |bytes|
    ensures nulls[i] ==>
      Prepend(vals, DecodeCols(bytes, cols, nulls, i, pos)) == Prepend(vals + [None],
        DecodeCols(bytes, cols, nulls, i + 1, pos))
    ensures !nulls[i] && DecodeDatum(bytes, cols[i], pos).Err? ==> DecodeCols(bytes, cols, nulls, i, pos).Err?
    ensures !nulls[i] && DecodeDatum(bytes, cols[i], pos).Ok? ==>
      var d := DecodeDatum(bytes, cols[i], pos).value;
      Prepend(vals, DecodeCols(bytes, cols, nulls, i, pos)) == Prepend(vals + [Some(d.0)],
        DecodeCols(bytes, cols, nulls, i + 1, d.1))
  {
    hide DecodeDatum;
    var d := DecodeDatum(bytes, cols[i], pos);
    if nulls[i] {
      Appended(vals, None, DecodeCols(bytes, cols, nulls, i + 1, pos));
    } else if d.Ok? {
      Appended(vals, Some(d.value.0), DecodeCols(bytes, cols, nulls, i + 1, d.value.1));
    }
  }

  lemma Appended(vals: Row, v: Option<Datum>, r: Result<(Row, nat), CodecError>)
    ensures r.Ok? ==> Prepend(vals, Ok(([v] + r.value.0, r.value.1))) == Prepend(vals + [v], r)
  {
    if r.Ok? { assert vals + ([v] + r.value.0) == vals + [v] + r.value.0; }
  }

  method DecodeColumns(bytes: seq<byte>, cols: seq<ColumnType>, nulls: seq<bool>, start: nat)
    returns (r: Result<(Row, nat), CodecError>)
    requires |nulls| == |cols| && start <= |bytes|
    ensures r.Err? <==> DecodeCols(bytes, cols, nulls, 0, start).Err?
    ensures r.Ok? ==> r == DecodeCols(bytes, cols, nulls, 0, start)
  {
    var vals: Row, pos: nat := [], start;
    ColsDone(bytes, cols, nulls, start);
    hide DecodeCols, DecodeDatum, Prepend;
    for i := 0 to |cols|
      invariant pos <= |bytes| && |vals| == i
      invariant DecodeCols(bytes, cols, nulls, 0, start) == Prepend(vals, DecodeCols(bytes, cols, nulls, i, pos))
    {
      ColsUnfold(bytes, cols, nulls, i, pos, vals);
      PrependErr(vals, DecodeCols(bytes, cols, nulls, i, pos));
      if nulls[i] {
        vals := vals + [None];
      } else {
        var d := DecodeDatum(bytes, cols[i], pos);
        if d.Err? {
          return Err(d.error);
        }
        vals, pos := vals + [Some(d.value.0)], d.value.1;
      }
    }
    LastCols(bytes, cols, nulls, pos, vals);
    r := Ok((vals, pos));
  }

  lemma ColsDone(bytes: seq<byte>, cols: seq<ColumnType>, nulls: seq<bool>, start: nat)
    requires |nulls| == |cols| && start <= |bytes|
    ensures DecodeCols(bytes, cols, nulls, 0, start) == Prepend([], DecodeCols(bytes, cols, nulls, 0, start))
  {
    hide DecodeCols;
    var r := DecodeCols(bytes, cols, nulls, 0, start);
    if r.Ok? { assert [] + r.value.0 == r.value.0; }
  }

  lemma PrependErr(vals: Row, r: Result<(Row, nat), CodecError>)
    ensures Prepend(vals, r).Err? <==> r.Err?
  {
  }

  lemma LastCols(bytes: seq<byte>, cols: seq<ColumnType>, nulls: seq<bool>, pos: nat, vals: Row)
    requires |nulls| == |cols| && pos <= |bytes|
    ensures Prepend(vals, DecodeCols(bytes, cols, nulls, |cols|, pos)) == Ok((vals, pos))
  {
    hide DecodeDatum;
    assert vals + [] == vals;
  }

  method DecodeTuple(bytes: seq<byte>, cols: seq<ColumnType>) returns (r: Result<(Header, Row), CodecError>)
    ensures r.Err? <==> Decode(bytes, cols).Err?
    ensures r.Ok? ==> r == Decode(bytes, cols)
  {
    var read := ReadHeader(bytes);
    if read.Err? {
      return Err(Corrupted);
    }
    var h := read.value;
    hide ReadHeader, DecodeCols;
    if !Sane(h, cols, |bytes|) {
      return Err(Corrupted);
    }
    var rest := DecodeColumns(bytes, cols, NullsAt(bytes, |cols|, Bit(h.infomask, HASNULL)), h.hoff);
    if rest.Err? {
      return Err(rest.error);
    }
    if |bytes| - rest.value.1 != Tail(h) {
      return Err(Corrupted);
    }
    r := Ok((h, rest.value.0));
  }
}

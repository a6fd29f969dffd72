/** The wire primitives of the Protocol Buffers encoding ("Base 128 Varints",
    "Length-Delimited Records"): a byte cursor that reads and a writer that keeps
    a stack of suspended buffers.  The generated codecs are built on these. */
module Wire {

  type Byte = x: int | 0 <= x < 256
  type Bytes = seq<Byte>

  const TWO_32: int := 0x1_0000_0000
  const TWO_53: int := 0x20_0000_0000_0000
  const TWO_64: int := 0x1_0000_0000_0000_0000

  type Int32 = x: int | -0x8000_0000 <= x < 0x8000_0000
  // The integers a JavaScript number holds exactly.
  type SafeInt = x: int | -TWO_53 < x < TWO_53
  type SafeNat = x: int | 0 <= x < TWO_53
  // An IEEE double is eight bytes that nothing here looks into.
  type Double = d: Bytes | |d| == 8 witness [0, 0, 0, 0, 0, 0, 0, 0]

  /** A thrown exception is a Failure. */
  datatype Result<+T> = Success(value: T) | Failure {
    predicate IsFailure() { Failure? }
    function PropagateFailure<U>(): Result<U>
      requires Failure?
    {
      Failure
    }
    function Extract(): T
      requires Success?
    {
      value
    }
  }

  datatype Option<+T> = None | Some(value: T)

  /** What a read at a position gives: a value and the position after it, or an exception. */
  datatype Parsed<+T> = Got(value: T, pos: nat) | Bad

  datatype WireType = Varint | Bit64 | LengthDelimited | StartGroup | EndGroup | Bit32

  datatype Tag = Tag(fieldNo: nat, wireType: WireType)

  function Code(w: WireType): nat {
    match w
    case Varint => 0
    case Bit64 => 1
    case LengthDelimited => 2
    case StartGroup => 3
    case EndGroup => 4
    case Bit32 => 5
  }

  function WireTypeOf(code: nat): Option<WireType> {
    match code
    case 0 => Some(Varint)
    case 1 => Some(Bit64)
    case 2 => Some(LengthDelimited)
    case 3 => Some(StartGroup)
    case 4 => Some(EndGroup)
    case 5 => Some(Bit32)
    case _ => None
  }

  // ---------------------------------------------------------------- reading

  // At most `limit` bytes, seven bits each, least significant first.
  function VarintAt(b: Bytes, pos: nat, limit: nat): (r: Parsed<nat>)
    requires pos <= |b|
    ensures r.Got? ==> pos < r.pos <= |b|
    decreases |b| - pos
  {
    if limit == 0 || pos == |b| then Bad
    else if b[pos] < 128 then Got(b[pos], pos + 1)
    else match VarintAt(b, pos + 1, limit - 1)
         case Bad => Bad
         case Got(high, p) => Got(b[pos] - 128 + 128 * high, p)
  }

  function Uint64At(b: Bytes, pos: nat): (r: Parsed<nat>)
    requires pos <= |b|
    ensures r.Got? ==> pos < r.pos <= |b| && r.value < TWO_64
  {
    match VarintAt(b, pos, 10)
    case Bad => Bad
    case Got(n, p) => Got(n % TWO_64, p)
  }

  function Uint32At(b: Bytes, pos: nat): (r: Parsed<nat>)
    requires pos <= |b|
    ensures r.Got? ==> pos < r.pos <= |b| && r.value < TWO_32
  {
    match VarintAt(b, pos, 10)
    case Bad => Bad
    case Got(n, p) => Got(n % TWO_32, p)
  }

  function Int32At(b: Bytes, pos: nat): (r: Parsed<Int32>)
    requires pos <= |b|
    ensures r.Got? ==> pos < r.pos <= |b|
  {
    match Uint32At(b, pos)
    case Bad => Bad
    case Got(n, p) => Got(if n < TWO_32 / 2 then n else n - TWO_32, p)
  }

  function BoolAt(b: Bytes, pos: nat): (r: Parsed<bool>)
    requires pos <= |b|
    ensures r.Got? ==> pos < r.pos <= |b|
  {
    match Uint64At(b, pos)
    case Bad => Bad
    case Got(n, p) => Got(n != 0, p)
  }

  // uint64().toNumber(): refuses what a number cannot hold.
  function SafeNatAt(b: Bytes, pos: nat): (r: Parsed<SafeNat>)
    requires pos <= |b|
    ensures r.Got? ==> pos < r.pos <= |b|
  {
    match Uint64At(b, pos)
    case Bad => Bad
    case Got(n, p) => if n < TWO_53 then Got(n, p) else Bad
  }

  // int64().toNumber(): two's complement, then the same refusal.
  function SafeIntAt(b: Bytes, pos: nat): (r: Parsed<SafeInt>)
    requires pos <= |b|
    ensures r.Got? ==> pos < r.pos <= |b|
  {
    match Uint64At(b, pos)
    case Bad => Bad
    case Got(n, p) =>
      var signed := if n < TWO_64 / 2 then n else n - TWO_64;
      if -TWO_53 < signed < TWO_53 then Got(signed, p) else Bad
  }

  function TagAt(b: Bytes, pos: nat): (r: Parsed<Tag>)
    requires pos <= |b|
    ensures r.Got? ==> pos < r.pos <= |b|
  {
    match Uint32At(b, pos)
    case Bad => Bad
    case Got(n, p) =>
      match WireTypeOf(n % 8)
      case None => Bad
      case Some(w) => if n / 8 == 0 then Bad else Got(Tag(n / 8, w), p)
  }

  function FixedAt(b: Bytes, pos: nat, length: nat): (r: Parsed<Bytes>)
    requires pos <= |b|
    ensures r.Got? ==> r.pos == pos + length <= |b|
    ensures r.Got? ==> r.value == b[pos..r.pos]
  {
    if pos + length <= |b| then Got(b[pos..pos + length], pos + length) else Bad
  }

  function DoubleAt(b: Bytes, pos: nat): (r: Parsed<Double>)
    requires pos <= |b|
    ensures r.Got? ==> pos < r.pos <= |b|
  {
    match FixedAt(b, pos, 8)
    case Bad => Bad
    case Got(d, p) => Got(d, p)
  }

  // string() and bytes(): a length, then that many bytes inside the buffer.
  function BytesAt(b: Bytes, pos: nat): (r: Parsed<Bytes>)
    requires pos <= |b|
    ensures r.Got? ==> pos < r.pos <= |b|
  {
    match Uint32At(b, pos)
    case Bad => Bad
    case Got(length, p) => FixedAt(b, p, length)
  }

  function SkipAt(b: Bytes, pos: nat, w: WireType): (r: Parsed<()>)
    requires pos <= |b|
    ensures r.Got? ==> pos < r.pos <= |b|
    decreases |b| - pos, 1
  {
    match w
    case Varint => (match VarintAt(b, pos, 10) case Bad => Bad case Got(_, p) => Got((), p))
    case Bit64 => (match FixedAt(b, pos, 8) case Bad => Bad case Got(_, p) => Got((), p))
    case Bit32 => (match FixedAt(b, pos, 4) case Bad => Bad case Got(_, p) => Got((), p))
    case LengthDelimited => (match BytesAt(b, pos) case Bad => Bad case Got(_, p) => Got((), p))
    case StartGroup => SkipGroupAt(b, pos)
    case EndGroup => Bad
  }

  function SkipGroupAt(b: Bytes, pos: nat): (r: Parsed<()>)
    requires pos <= |b|
    ensures r.Got? ==> pos < r.pos <= |b|
    decreases |b| - pos, 0
  {
    match TagAt(b, pos)
    case Bad => Bad
    case Got(tag, p) =>
      if tag.wireType.EndGroup? then Got((), p)
      else match SkipAt(b, p, tag.wireType)
           case Bad => Bad
           case Got(_, q) => SkipGroupAt(b, q)
  }

  // ---------------------------------------------------------------- encoding

  function EncVarint(n: nat): (e: Bytes)
    ensures |e| > 0
  {
    if n < 128 then [n] else [128 + n % 128] + EncVarint(n / 128)
  }

  // A negative value is written as the two's complement of its 64 bits.
  function EncInt(n: int): (e: Bytes)
    requires -TWO_53 < n < TWO_53
    ensures |e| > 0
  {
    EncVarint(if n < 0 then n + TWO_64 else n)
  }

  function EncBool(b: bool): (e: Bytes)
    ensures |e| > 0
  {
    EncVarint(if b then 1 else 0)
  }

  function EncTag(fieldNo: nat, w: WireType): (e: Bytes)
    ensures |e| > 0
  {
    EncVarint(fieldNo * 8 + Code(w))
  }

  function Delimited(content: Bytes): (e: Bytes)
    ensures |e| == |EncVarint(|content|)| + |content| > |content|
  {
    EncVarint(|content|) + content
  }

  // A length has to fit an unsigned 32-bit varint, otherwise the writer throws.
  predicate Fits(content: Bytes) {
    |content| < TWO_32
  }

  // ---------------------------------------------------------------- reading back

  /** The bytes `e` stand in `b` at `pos`. */
  predicate At(b: Bytes, pos: nat, e: Bytes) {
    pos + |e| <= |b| && forall i :: 0 <= i < |e| ==> b[pos + i] == e[i]
  }

  lemma AtSplit(b: Bytes, pos: nat, e1: Bytes, e2: Bytes)
    requires At(b, pos, e1 + e2)
    ensures At(b, pos, e1) && At(b, pos + |e1|, e2)
  {
    forall i | 0 <= i < |e1| ensures b[pos + i] == e1[i] {
      assert (e1 + e2)[i] == e1[i];
    }
    forall i | 0 <= i < |e2| ensures b[pos + |e1| + i] == e2[i] {
      assert (e1 + e2)[|e1| + i] == e2[i] && b[pos + (|e1| + i)] == e2[i];
    }
  }

  function Pow128(k: nat): nat {
    if k == 0 then 1 else 128 * Pow128(k - 1)
  }

  lemma Pow128Ten()
    ensures TWO_64 < Pow128(10)
  {
    assert Pow128(4) == 0x1000_0000;
    assert Pow128(7) == 128 * 128 * 128 * Pow128(4);
    assert Pow128(10) == 128 * 128 * 128 * Pow128(7);
  }

  lemma {:induction false} VarintReadBack(b: Bytes, pos: nat, n: nat, limit: nat)
    requires At(b, pos, EncVarint(n)) && limit > 0 && n < Pow128(limit)
    ensures VarintAt(b, pos, limit) == Got(n, pos + |EncVarint(n)|)
    decreases limit
  {
    var e := EncVarint(n);
    assert b[pos + 0] == e[0];
    if n >= 128 {
      AtSplit(b, pos, [128 + n % 128], EncVarint(n / 128));
      VarintReadBack(b, pos + 1, n / 128, limit - 1);
    }
  }

  /** Every 64-bit varint is read back, whole by uint64() and its low half by uint32(). */
  lemma UintReadBack(b: Bytes, pos: nat, n: nat)
    requires At(b, pos, EncVarint(n)) && n < TWO_64
    ensures Uint64At(b, pos) == Got(n, pos + |EncVarint(n)|)
    ensures Uint32At(b, pos) == Got(n % TWO_32, pos + |EncVarint(n)|)
  {
    Pow128Ten();
    VarintReadBack(b, pos, n, 10);
    hide VarintAt, EncVarint, At, Pow128;
  }

  /** int32(), int64() and bool() give back what was written, negative numbers included. */
  lemma IntReadBack(b: Bytes, pos: nat, n: int)
    requires -TWO_53 < n < TWO_53 && At(b, pos, EncInt(n))
    ensures SafeIntAt(b, pos) == Got(n, pos + |EncInt(n)|)
    ensures 0 <= n ==> SafeNatAt(b, pos) == Got(n, pos + |EncInt(n)|)
    ensures -0x8000_0000 <= n < 0x8000_0000 ==> Int32At(b, pos) == Got(n, pos + |EncInt(n)|)
  {
    var word := if n < 0 then n + TWO_64 else n;
    UintReadBack(b, pos, word);
    if -0x8000_0000 <= n < 0x8000_0000 {
      LowHalf(n);
    }
  }

  lemma LowHalf(n: int)
    requires -0x8000_0000 <= n < 0x8000_0000
    ensures (if n < 0 then n + TWO_64 else n) % TWO_32 == if n < 0 then n + TWO_32 else n
  {
    if n < 0 {
      assert n + TWO_64 == 0xFFFF_FFFF * TWO_32 + (n + TWO_32);
    }
  }

  lemma BoolReadBack(b: Bytes, pos: nat, v: bool)
    requires At(b, pos, EncBool(v))
    ensures BoolAt(b, pos) == Got(v, pos + |EncBool(v)|)
  {
    UintReadBack(b, pos, if v then 1 else 0);
  }

  lemma TagReadBack(b: Bytes, pos: nat, fieldNo: nat, w: WireType)
    requires 0 < fieldNo < 0x2000_0000 && At(b, pos, EncTag(fieldNo, w))
    ensures TagAt(b, pos) == Got(Tag(fieldNo, w), pos + |EncTag(fieldNo, w)|)
  {
    hide At, Uint32At;
    LengthReadBack(b, pos, fieldNo * 8 + Code(w));
  }

  lemma LengthReadBack(b: Bytes, pos: nat, n: nat)
    requires n < TWO_32 && At(b, pos, EncVarint(n))
    ensures Uint32At(b, pos) == Got(n, pos + |EncVarint(n)|)
  {
    UintReadBack(b, pos, n);
  }

  /** A length prefix leads exactly to its content. */
  lemma DelimitedReadBack(b: Bytes, pos: nat, content: Bytes)
    requires Fits(content) && At(b, pos, Delimited(content))
    ensures var start := pos + |EncVarint(|content|)|;
            && Uint32At(b, pos) == Got(|content|, start)
            && At(b, start, content)
            && BytesAt(b, pos) == Got(content, pos + |Delimited(content)|)
  {
    var prefix := EncVarint(|content|);
    assert At(b, pos, prefix + content);
    AtSplit(b, pos, prefix, content);
    LengthReadBack(b, pos, |content|);
    assert b[pos + |prefix|..pos + |prefix| + |content|] == content;
    assert FixedAt(b, pos + |prefix|, |content|) == Got(content, pos + |prefix| + |content|);
  }

  lemma DoubleReadBack(b: Bytes, pos: nat, d: Double)
    requires At(b, pos, d)
    ensures DoubleAt(b, pos) == Got(d, pos + |d|)
  {
    assert b[pos..pos + 8] == d;
  }

  /** A negative number takes ten bytes. */
  lemma NegativeTakesTenBytes(n: int)
    requires -TWO_53 < n < 0
    ensures |EncInt(n)| == 10
  {
    Pow128Ten();
    VarintLength(n + TWO_64, 10);
  }

  lemma {:induction false} VarintLength(n: nat, k: nat)
    requires k > 0 && (k == 1 || Pow128(k - 1) <= n) && n < Pow128(k)
    ensures |EncVarint(n)| == k
  {
    if k > 1 {
      VarintLength(n / 128, k - 1);
    }
  }

  // ---------------------------------------------------------------- the format, digit by digit

  // The number whose digits to the base of 128 these are, the lowest first.
  function FromDigits(e: Bytes): nat {
    if e == [] then 0 else e[0] % 128 + 128 * FromDigits(e[1..])
  }

  /** A varint is the digits of the number to the base of 128, the lowest first; all bytes but the last
      have the continuation bit, and the last is no idle zero. */
  lemma {:induction false} VarintLayout(n: nat)
    ensures var e := EncVarint(n);
            && FromDigits(e) == n
            && (forall i :: 0 <= i < |e| ==> (e[i] >= 128 <==> i + 1 < |e|))
            && (|e| > 1 ==> e[|e| - 1] != 0)
  {
    if n >= 128 {
      var rest := EncVarint(n / 128);
      VarintLayout(n / 128);
      assert EncVarint(n) == [128 + n % 128] + rest;
      assert ([128 + n % 128] + rest)[1..] == rest;
    } else {
      assert FromDigits([]) == 0;
    }
  }

  /** A tag is the varint of eight times the number of the field, and the code of its wire type. */
  lemma TagLayout(fieldNo: nat)
    ensures EncTag(fieldNo, Varint) == EncVarint(8 * fieldNo)
    ensures EncTag(fieldNo, Bit64) == EncVarint(8 * fieldNo + 1)
    ensures EncTag(fieldNo, LengthDelimited) == EncVarint(8 * fieldNo + 2)
    ensures EncTag(fieldNo, StartGroup) == EncVarint(8 * fieldNo + 3)
    ensures EncTag(fieldNo, EndGroup) == EncVarint(8 * fieldNo + 4)
    ensures EncTag(fieldNo, Bit32) == EncVarint(8 * fieldNo + 5)
  {
    hide EncVarint;
  }

  /** What stands behind a tag: a number is the varint of its 64 bits, a truth value of 0 or 1, and a
      content stands behind the varint of its length, which has to stay below 2^32. */
  lemma PayloadLayout(n: int, content: Bytes)
    requires -9007199254740991 <= n <= 9007199254740991
    ensures EncInt(n) == EncVarint(if n < 0 then n + 18446744073709551616 else n)
    ensures EncBool(false) == EncVarint(0) && EncBool(true) == EncVarint(1)
    ensures Delimited(content) == EncVarint(|content|) + content
    ensures Fits(content) <==> |content| <= 4294967295
  {
    hide EncVarint;
  }

  /** Every number that JavaScript holds exactly is read back, and every 64-bit word that stands for
      another number is refused. */
  lemma NumberOrRefused(b: Bytes, pos: nat, word: nat)
    requires word <= 18446744073709551615 && At(b, pos, EncVarint(word))
    ensures var next := pos + |EncVarint(word)|;
            var n := if word < 9223372036854775808 then word else word - 18446744073709551616;
            && SafeIntAt(b, pos) == (if -9007199254740991 <= n <= 9007199254740991 then Got(n, next) else Bad)
            && SafeNatAt(b, pos) == (if word <= 9007199254740991 then Got(word, next) else Bad)
            && BoolAt(b, pos) == Got(word != 0, next)
    ensures var next, low := pos + |EncVarint(word)|, word % 4294967296;
            && Uint32At(b, pos) == Got(low, next)
            && Int32At(b, pos) == Got(if low < 2147483648 then low else low - 4294967296, next)
  {
    UintReadBack(b, pos, word);
    hide Uint64At, EncVarint, At;
  }

  /** A varint ends with its first byte below 128, which has to be among the ten next bytes. */
  lemma {:induction false} VarintEnds(b: Bytes, pos: nat, limit: nat)
    requires pos <= |b|
    ensures VarintAt(b, pos, limit).Got? <==> exists j :: pos <= j < pos + limit && j < |b| && b[j] < 128
    ensures VarintAt(b, pos, limit).Got? ==>
              var last := VarintAt(b, pos, limit).pos - 1;
              pos <= last && b[last] < 128 && forall i :: pos <= i < last ==> b[i] >= 128
    decreases limit
  {
    if limit > 0 && pos < |b| && b[pos] >= 128 {
      VarintEnds(b, pos + 1, limit - 1);
    }
  }

  lemma OverlongIsRefused(b: Bytes, pos: nat)
    requires pos <= |b| && forall i :: pos <= i < pos + 10 && i < |b| ==> b[i] >= 128
    ensures Uint64At(b, pos) == Bad && Uint32At(b, pos) == Bad
  {
    VarintEnds(b, pos, 10);
    hide VarintAt;
  }

  lemma NumberReadBack(b: Bytes, pos: nat, n: int)
    requires -9007199254740991 <= n <= 9007199254740991 && At(b, pos, EncInt(n))
    ensures SafeIntAt(b, pos) == Got(n, pos + |EncInt(n)|)
    ensures 0 <= n ==> SafeNatAt(b, pos) == Got(n, pos + |EncInt(n)|)
  {
    NumberOrRefused(b, pos, if n < 0 then n + 18446744073709551616 else n);
    hide EncVarint, At, SafeIntAt, SafeNatAt;
  }

  // ---------------------------------------------------------------- unknown fields

  /** A field that no reader knows, of any wire type; a group holds further such fields. */
  datatype Unknown = Unknown(no: nat, payload: Payload)
  datatype Payload =
    | Number(n: nat)
    | Fixed64(eight: Bytes)
    | Fixed32(four: Bytes)
    | Content(content: Bytes)
    | Group(fields: seq<Unknown>)

  predicate WfUnknown(u: Unknown)
    decreases u, 1
  {
    0 < u.no < 0x2000_0000 && WfPayload(u.payload)
  }

  predicate WfPayload(p: Payload)
    decreases p, 0
  {
    match p
    case Number(n) => n < TWO_64
    case Fixed64(eight) => |eight| == 8
    case Fixed32(four) => |four| == 4
    case Content(content) => Fits(content)
    case Group(fields) => WfUnknowns(fields)
  }

  predicate WfUnknowns(us: seq<Unknown>)
    decreases us, 0
  {
    us == [] || (WfUnknown(us[0]) && WfUnknowns(us[1..]))
  }

  function TypeOf(p: Payload): WireType {
    match p
    case Number(_) => Varint
    case Fixed64(_) => Bit64
    case Fixed32(_) => Bit32
    case Content(_) => LengthDelimited
    case Group(_) => StartGroup
  }

  function EncUnknown(u: Unknown): Bytes
    decreases u, 2
  {
    EncTag(u.no, TypeOf(u.payload)) + EncPayload(u.no, u.payload)
  }

  // A group ends with the end tag of its own number.
  function EncPayload(no: nat, p: Payload): Bytes
    decreases p, 1
  {
    match p
    case Number(n) => EncVarint(n)
    case Fixed64(eight) => eight
    case Fixed32(four) => four
    case Content(content) => Delimited(content)
    case Group(fields) => EncUnknowns(fields) + EncTag(no, EndGroup)
  }

  function EncUnknowns(us: seq<Unknown>): Bytes
    decreases us, 0
  {
    if us == [] then [] else EncUnknown(us[0]) + EncUnknowns(us[1..])
  }

  /** skip() goes exactly behind the payload of any unknown field, nested groups included. */
  lemma {:induction false} SkipsPayload(b: Bytes, pos: nat, no: nat, p: Payload)
    requires 0 < no < 0x2000_0000 && WfPayload(p) && At(b, pos, EncPayload(no, p))
    ensures SkipAt(b, pos, TypeOf(p)) == Got((), pos + |EncPayload(no, p)|)
    decreases p, 1
  {
    hide At, EncTag, EncVarint, Delimited, SkipGroupAt, VarintAt, BytesAt, TagAt, Pow128;
    match p
    case Number(n) =>
      Pow128Ten();
      VarintReadBack(b, pos, n, 10);
    case Fixed64(eight) => FixedReadBack(b, pos, eight);
    case Fixed32(four) => FixedReadBack(b, pos, four);
    case Content(content) => DelimitedReadBack(b, pos, content);
    case Group(fields) => SkipsGroup(b, pos, no, fields);
  }

  lemma FixedReadBack(b: Bytes, pos: nat, content: Bytes)
    requires At(b, pos, content)
    ensures FixedAt(b, pos, |content|) == Got(content, pos + |content|)
  {
    assert b[pos..pos + |content|] == content;
  }

  lemma {:induction false} SkipsGroup(b: Bytes, pos: nat, no: nat, us: seq<Unknown>)
    requires 0 < no < 0x2000_0000 && WfUnknowns(us) && At(b, pos, EncUnknowns(us) + EncTag(no, EndGroup))
    ensures SkipGroupAt(b, pos) == Got((), pos + |EncUnknowns(us) + EncTag(no, EndGroup)|)
    decreases us, 0
  {
    hide At, EncTag, EncPayload, TagAt, SkipAt, WfPayload;
    var end := EncTag(no, EndGroup);
    if us == [] {
      assert EncUnknowns(us) + end == end;
      TagReadBack(b, pos, no, EndGroup);
    } else {
      var u, rest := us[0], EncUnknowns(us[1..]) + end;
      hide EncUnknown;
      assert EncUnknowns(us) + end == EncUnknown(u) + rest;
      AtSplit(b, pos, EncUnknown(u), rest);
      SkipsUnknown(b, pos, u);
      SkipsGroup(b, pos + |EncUnknown(u)|, no, us[1..]);
    }
  }

  lemma {:induction false} SkipsUnknown(b: Bytes, pos: nat, u: Unknown)
    requires WfUnknown(u) && At(b, pos, EncUnknown(u))
    ensures var p := pos + |EncTag(u.no, TypeOf(u.payload))|;
            && TagAt(b, pos) == Got(Tag(u.no, TypeOf(u.payload)), p)
            && SkipAt(b, p, TypeOf(u.payload)) == Got((), pos + |EncUnknown(u)|)
    decreases u, 2
  {
    hide At, EncTag, EncPayload, TagAt, SkipAt, WfPayload;
    var tag := EncTag(u.no, TypeOf(u.payload));
    AtSplit(b, pos, tag, EncPayload(u.no, u.payload));
    TagReadBack(b, pos, u.no, TypeOf(u.payload));
    SkipsPayload(b, pos + |tag|, u.no, u.payload);
  }

  lemma UnknownIsBehind(b: Bytes, pos: nat, u: Unknown)
    requires At(b, pos, EncUnknown(u))
    ensures pos < pos + |EncTag(u.no, TypeOf(u.payload))| <= pos + |EncUnknown(u)| <= |b|
  {
    hide EncTag, EncPayload;
  }

  // ---------------------------------------------------------------- whole fields

  // A proto3 string is left out when it is empty, a proto3 number when it is zero.
  function StringFieldOf(no: nat, s: Bytes): Bytes {
    if s == [] then [] else EncTag(no, LengthDelimited) + Delimited(s)
  }

  function IntFieldOf(no: nat, n: SafeInt): Bytes {
    if n == 0 then [] else EncTag(no, Varint) + EncInt(n)
  }

  // An optional field is left out when it is absent, whatever its value.
  function OptionalBytesOf(no: nat, s: Option<Bytes>): Bytes {
    match s
    case None => []
    case Some(content) => EncTag(no, LengthDelimited) + Delimited(content)
  }

  function OptionalIntOf(no: nat, n: Option<SafeNat>): Bytes {
    match n
    case None => []
    case Some(value) => EncTag(no, Varint) + EncInt(value)
  }

  function BoolFieldOf(no: nat, v: bool): Bytes {
    if v then EncTag(no, Varint) + EncBool(v) else []
  }

  lemma DelimitedFieldReadBack(b: Bytes, pos: nat, no: nat, content: Bytes)
    requires 0 < no < 16 && Fits(content) && At(b, pos, EncTag(no, LengthDelimited) + Delimited(content))
    ensures var p := pos + |EncTag(no, LengthDelimited)|;
            var start := p + |EncVarint(|content|)|;
            && TagAt(b, pos) == Got(Tag(no, LengthDelimited), p)
            && BytesAt(b, p) == Got(content, p + |Delimited(content)|)
            && Uint32At(b, p) == Got(|content|, start) && At(b, start, content)
  {
    hide At, TagAt, BytesAt, Uint32At, EncVarint, Delimited;
    AtSplit(b, pos, EncTag(no, LengthDelimited), Delimited(content));
    TagReadBack(b, pos, no, LengthDelimited);
    DelimitedReadBack(b, pos + |EncTag(no, LengthDelimited)|, content);
  }

  lemma IntFieldReadBack(b: Bytes, pos: nat, no: nat, n: SafeInt)
    requires 0 < no < 16 && At(b, pos, EncTag(no, Varint) + EncInt(n))
    ensures var p := pos + |EncTag(no, Varint)|;
            && TagAt(b, pos) == Got(Tag(no, Varint), p)
            && SafeIntAt(b, p) == Got(n, p + |EncInt(n)|)
            && (0 <= n ==> SafeNatAt(b, p) == Got(n, p + |EncInt(n)|))
  {
    hide At, TagAt, SafeIntAt, SafeNatAt, EncVarint;
    AtSplit(b, pos, EncTag(no, Varint), EncInt(n));
    TagReadBack(b, pos, no, Varint);
    IntReadBack(b, pos + |EncTag(no, Varint)|, n);
  }

  lemma BoolFieldReadBack(b: Bytes, pos: nat, no: nat, v: bool)
    requires 0 < no < 16 && At(b, pos, EncTag(no, Varint) + EncBool(v))
    ensures var p := pos + |EncTag(no, Varint)|;
            TagAt(b, pos) == Got(Tag(no, Varint), p) && BoolAt(b, p) == Got(v, p + |EncBool(v)|)
  {
    hide At, TagAt, BoolAt, EncVarint;
    AtSplit(b, pos, EncTag(no, Varint), EncBool(v));
    TagReadBack(b, pos, no, Varint);
    BoolReadBack(b, pos + |EncTag(no, Varint)|, v);
  }

  // ---------------------------------------------------------------- the reader and the writer

  ghost predicate Agrees<T>(r: Result<T>, pos: nat, g: Parsed<T>) {
    match g
    case Got(v, p) => r == Success(v) && pos == p
    case Bad => r.Failure?
  }

  /** A cursor over the bytes of a message; every method reads at `pos` and moves it. */
  class Reader {
    const buf: Bytes
    var pos: nat

    ghost predicate Valid()
      reads this
    {
      pos <= |buf|
    }

    constructor (data: Bytes)
      ensures Valid() && buf == data && pos == 0
    {
      buf, pos := data, 0;
    }

    method Accept<T>(g: Parsed<T>) returns (r: Result<T>)
      requires Valid() && (g.Got? ==> pos < g.pos <= |buf|)
      modifies this
      ensures Valid() && Agrees(r, pos, g)
    {
      match g
      case Bad => r := Failure;
      case Got(v, p) => pos, r := p, Success(v);
    }

    method Tag() returns (r: Result<Tag>)
      requires Valid()
      modifies this
      ensures Valid() && Agrees(r, pos, TagAt(buf, old(pos)))
    {
      r := Accept(TagAt(buf, pos));
    }

    method Uint32() returns (r: Result<nat>)
      requires Valid()
      modifies this
      ensures Valid() && Agrees(r, pos, Uint32At(buf, old(pos)))
    {
      r := Accept(Uint32At(buf, pos));
    }

    method Int32() returns (r: Result<Int32>)
      requires Valid()
      modifies this
      ensures Valid() && Agrees(r, pos, Int32At(buf, old(pos)))
    {
      r := Accept(Int32At(buf, pos));
    }

    method SafeNat() returns (r: Result<SafeNat>)
      requires Valid()
      modifies this
      ensures Valid() && Agrees(r, pos, SafeNatAt(buf, old(pos)))
    {
      r := Accept(SafeNatAt(buf, pos));
    }

    method SafeInt() returns (r: Result<SafeInt>)
      requires Valid()
      modifies this
      ensures Valid() && Agrees(r, pos, SafeIntAt(buf, old(pos)))
    {
      r := Accept(SafeIntAt(buf, pos));
    }

    method Bool() returns (r: Result<bool>)
      requires Valid()
      modifies this
      ensures Valid() && Agrees(r, pos, BoolAt(buf, old(pos)))
    {
      r := Accept(BoolAt(buf, pos));
    }

    method Double() returns (r: Result<Double>)
      requires Valid()
      modifies this
      ensures Valid() && Agrees(r, pos, DoubleAt(buf, old(pos)))
    {
      r := Accept(DoubleAt(buf, pos));
    }

    method Bytes() returns (r: Result<Bytes>)
      requires Valid()
      modifies this
      ensures Valid() && Agrees(r, pos, BytesAt(buf, old(pos)))
    {
      r := Accept(BytesAt(buf, pos));
    }

    method Skip(w: WireType) returns (r: Result<()>)
      requires Valid()
      modifies this
      ensures Valid() && Agrees(r, pos, SkipAt(buf, old(pos), w))
    {
      r := Accept(SkipAt(buf, pos, w));
    }
  }

  /** The bytes written since the last open fork, and below them the suspended buffers. */
  class Writer {
    var buf: Bytes
    var stack: seq<Bytes>

    constructor ()
      ensures buf == [] && stack == []
    {
      buf, stack := [], [];
    }

    method Append(e: Bytes)
      modifies this`buf
      ensures buf == old(buf) + e
    {
      buf := buf + e;
    }

    method Tag(fieldNo: nat, w: WireType)
      modifies this`buf
      ensures buf == old(buf) + EncTag(fieldNo, w)
    {
      Append(EncTag(fieldNo, w));
    }

    // string() and bytes()
    method Bytes(content: Bytes) returns (r: Result<()>)
      modifies this`buf
      ensures r.Success? <==> Fits(content)
      ensures r.Success? ==> buf == old(buf) + Delimited(content)
    {
      if |content| >= TWO_32 {
        return Failure;
      }
      Append(Delimited(content));
      r := Success(());
    }

    method Fork()
      modifies this
      ensures buf == [] && stack == old(stack) + [old(buf)]
    {
      buf, stack := [], stack + [buf];
    }

    // Closes the innermost fork: its bytes go below, behind their length.
    method Join() returns (r: Result<()>)
      modifies this
      ensures r.Success? <==> old(stack) != [] && Fits(old(buf))
      ensures r.Success? ==> stack == old(stack[..|stack| - 1])
      ensures r.Success? ==> buf == old(stack[|stack| - 1]) + Delimited(old(buf))
    {
      if stack == [] {
        return Failure;
      }
      var chunk := buf;
      buf, stack := stack[|stack| - 1], stack[..|stack| - 1];
      r := Bytes(chunk);
    }

    // if (message.s !== "") writer.tag(no, LengthDelimited).string(message.s)
    method StringField(no: nat, s: Bytes) returns (r: Result<()>)
      modifies this`buf
      ensures r.Success? <==> Fits(s)
      ensures r.Success? ==> buf == old(buf) + StringFieldOf(no, s)
    {
      hide EncTag, EncInt, EncBool, Delimited;
      if s != [] {
        Tag(no, LengthDelimited);
        var _ :- Bytes(s);
      }
      r := Success(());
    }

    // if (message.n !== 0) writer.tag(no, Varint).int64(message.n)
    method IntField(no: nat, n: SafeInt)
      modifies this`buf
      ensures buf == old(buf) + IntFieldOf(no, n)
    {
      hide EncTag, EncInt, EncBool, Delimited, Fits;
      if n != 0 {
        Tag(no, Varint);
        Append(EncInt(n));
      }
    }

    // if (message.s !== undefined) writer.tag(no, LengthDelimited).bytes(message.s)
    method OptionalBytes(no: nat, s: Option<Bytes>) returns (r: Result<()>)
      modifies this`buf
      ensures r.Success? <==> s.None? || Fits(s.value)
      ensures r.Success? ==> buf == old(buf) + OptionalBytesOf(no, s)
    {
      hide EncTag, EncInt, EncBool, Delimited, Fits;
      if s.Some? {
        Tag(no, LengthDelimited);
        var _ :- Bytes(s.value);
      }
      r := Success(());
    }

    // if (message.n !== undefined) writer.tag(no, Varint).uint64(message.n)
    method OptionalInt(no: nat, n: Option<SafeNat>)
      modifies this`buf
      ensures buf == old(buf) + OptionalIntOf(no, n)
    {
      hide EncTag, EncInt, EncBool, Delimited, Fits;
      if n.Some? {
        Tag(no, Varint);
        Append(EncInt(n.value));
      }
    }

    // if (message.v !== false) writer.tag(no, Varint).bool(message.v)
    method BoolField(no: nat, v: bool)
      modifies this`buf
      ensures buf == old(buf) + BoolFieldOf(no, v)
    {
      hide EncTag, EncInt, EncBool, Delimited, Fits;
      if v {
        Tag(no, Varint);
        Append(EncBool(v));
      }
    }
  }
}

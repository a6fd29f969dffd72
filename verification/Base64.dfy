/** Base 64 with padding, section 4 of RFC 4648. */
module Base64 {
  import opened Wire
  import opened Sequences

  type Sextet = n: int | 0 <= n < 64

  function Letter(n: Sextet): (c: char)
    ensures c != '='
  {
    if n < 26 then ('A' as int + n) as char
    else if n < 52 then ('a' as int + n - 26) as char
    else if n < 62 then ('0' as int + n - 52) as char
    else if n == 62 then '+'
    else '/'
  }

  function SextetOf(c: char): (r: Option<Sextet>)
  {
    if 'A' <= c <= 'Z' then Some(c as int - 'A' as int)
    else if 'a' <= c <= 'z' then Some(c as int - 'a' as int + 26)
    else if '0' <= c <= '9' then Some(c as int - '0' as int + 52)
    else if c == '+' then Some(62)
    else if c == '/' then Some(63)
    else None
  }

  lemma LetterReadBack(n: Sextet)
    ensures SextetOf(Letter(n)) == Some(n)
  {
  }

  // ---------------------------------------------------------------- encoding

  // Three bytes as four sextets.
  function S0(x: Byte): Sextet { x / 4 }
  function S1(x: Byte, y: Byte): Sextet { x % 4 * 16 + y / 16 }
  function S2(y: Byte, z: Byte): Sextet { y % 16 * 4 + z / 64 }
  function S3(z: Byte): Sextet { z % 64 }

  function Encode(b: Bytes): (t: string) {
    if b == [] then []
    else if |b| == 1 then [Letter(S0(b[0])), Letter(S1(b[0], 0)), '=', '=']
    else if |b| == 2 then [Letter(S0(b[0])), Letter(S1(b[0], b[1])), Letter(S2(b[1], 0)), '=']
    else EncodeTriple(b[0], b[1], b[2]) + Encode(b[3..])
  }

  function EncodeTriple(x: Byte, y: Byte, z: Byte): (t: string)
    ensures |t| == 4 && '=' !in t
  {
    [Letter(S0(x)), Letter(S1(x, y)), Letter(S2(y, z)), Letter(S3(z))]
  }

  /** The four sextets are the twenty-four bits of the three bytes, in order. */
  lemma SextetsAreTheBits(x: Byte, y: Byte, z: Byte)
    ensures x as int * 65536 + y as int * 256 + z as int
         == S0(x) as int * 262144 + S1(x, y) as int * 4096 + S2(y, z) as int * 64 + S3(z) as int
  {
    assert x == x / 4 * 4 + x % 4 && y == y / 16 * 16 + y % 16 && z == z / 64 * 64 + z % 64;
  }

  // The byte at position i, and zero behind the end.
  function ByteAt(b: Bytes, i: nat): (x: int)
    ensures 0 <= x < 256
  {
    if i < |b| then b[i] else 0
  }

  /** The 64 letters of section 4, and no others. */
  lemma Alphabet(n: int, c: char)
    ensures 0 <= n < 26 ==> Letter(n) == "ABCDEFGHIJKLMNOPQRSTUVWXYZ"[n]
    ensures 26 <= n < 52 ==> Letter(n) == "abcdefghijklmnopqrstuvwxyz"[n - 26]
    ensures 52 <= n < 62 ==> Letter(n) == "0123456789"[n - 52]
    ensures Letter(62) == '+' && Letter(63) == '/'
    ensures SextetOf(c).Some? ==> Letter(SextetOf(c).value) == c
  {
  }

  /** The encoding, character by character: quad j holds three bytes as one number, and its digits to
      the base of 64, the highest first; where there is no byte stands the padding. */
  lemma {:induction false} EncodedAt(b: Bytes, j: nat, i: nat)
    requires 3 * j < |b| && i < 4
    ensures |Encode(b)| == (|b| + 2) / 3 * 4 && 4 * j + i < |Encode(b)|
    ensures var word := ByteAt(b, 3 * j) * 65536 + ByteAt(b, 3 * j + 1) * 256 + ByteAt(b, 3 * j + 2);
            Encode(b)[4 * j + i] ==
            if 3 * j + i > |b| then '='
            else if i == 0 then Letter(word / 262144)
            else if i == 1 then Letter(word / 4096 % 64)
            else if i == 2 then Letter(word / 64 % 64)
            else Letter(word % 64)
    decreases j
  {
    hide *;
    EncodeLength(b);
    if j > 0 {
      FirstTriple(b);
      EncodedAt(b[3..], j - 1, i);
      SameBytes(b, j);
      TripleShift(EncodeTriple(b[0], b[1], b[2]), Encode(b[3..]), 4 * (j - 1) + i);
    } else {
      FirstQuad(b, i);
    }
  }

  lemma TripleShift(head: string, rest: string, k: nat)
    requires |head| == 4 && k < |rest|
    ensures (head + rest)[4 + k] == rest[k]
  {
  }

  lemma SameBytes(b: Bytes, j: nat)
    requires j > 0 && |b| >= 3
    ensures ByteAt(b, 3 * j) == ByteAt(b[3..], 3 * (j - 1))
    ensures ByteAt(b, 3 * j + 1) == ByteAt(b[3..], 3 * (j - 1) + 1)
    ensures ByteAt(b, 3 * j + 2) == ByteAt(b[3..], 3 * (j - 1) + 2)
  {
  }

  lemma FirstQuad(b: Bytes, i: nat)
    requires b != [] && i < 4 && i < |Encode(b)|
    ensures var word := ByteAt(b, 0) * 65536 + ByteAt(b, 1) * 256 + ByteAt(b, 2);
            Encode(b)[i] ==
            if i > |b| then '='
            else if i == 0 then Letter(word / 262144)
            else if i == 1 then Letter(word / 4096 % 64)
            else if i == 2 then Letter(word / 64 % 64)
            else Letter(word % 64)
  {
    SextetDigits(ByteAt(b, 0), ByteAt(b, 1), ByteAt(b, 2));
    hide Letter, S0, S1, S2, S3;
  }

  lemma {:induction false} EncodeLength(b: Bytes)
    ensures |Encode(b)| == (|b| + 2) / 3 * 4
  {
    hide Letter, S0, S1, S2, S3;
    if |b| >= 3 {
      EncodeLength(b[3..]);
    }
  }

  lemma SextetDigits(x: int, y: int, z: int)
    requires 0 <= x < 256 && 0 <= y < 256 && 0 <= z < 256
    ensures var word := x * 65536 + y * 256 + z;
            && S0(x) == word / 262144 && S1(x, y) == word / 4096 % 64
            && S2(y, z) == word / 64 % 64 && S3(z) == word % 64
  {
    SextetsAreTheBits(x, y, z);
    hide S0, S1, S2, S3;
    Digits(S0(x), S1(x, y), S2(y, z), S3(z));
  }

  lemma Digits(p: int, q: int, r: int, s: int)
    requires 0 <= p < 64 && 0 <= q < 64 && 0 <= r < 64 && 0 <= s < 64
    ensures var word := p * 262144 + q * 4096 + r * 64 + s;
            p == word / 262144 && q == word / 4096 % 64 && r == word / 64 % 64 && s == word % 64
  {
    var word := p * 262144 + q * 4096 + r * 64 + s;
    Quotient(word, 64, p * 4096 + q * 64 + r, s);
    Quotient(p * 4096 + q * 64 + r, 64, p * 64 + q, r);
    Quotient(word, 4096, p * 64 + q, r * 64 + s);
    Quotient(p * 64 + q, 64, p, q);
    Quotient(word, 262144, p, q * 4096 + r * 64 + s);
  }

  lemma Quotient(n: int, d: int, q: int, r: int)
    requires (d == 64 || d == 4096 || d == 262144) && 0 <= r < d
    requires d == 64 ==> n == 64 * q + r
    requires d == 4096 ==> n == 4096 * q + r
    requires d == 262144 ==> n == 262144 * q + r
    ensures d == 64 ==> n / 64 == q && n % 64 == r
    ensures d == 4096 ==> n / 4096 == q
    ensures d == 262144 ==> n / 262144 == q
  {
  }

  // ---------------------------------------------------------------- decoding

  // Strict: padding only at the end, and no stray bits in front of it.
  function Decode(t: string): Result<Bytes> {
    if t == [] then Success([])
    else if |t| < 4 then Failure
    else if |t| == 4 && t[3] == '=' then DecodeLast(t)
    else match DecodeQuad(t[..4])
         case Failure => Failure
         case Success(head) =>
           match Decode(t[4..])
           case Failure => Failure
           case Success(rest) => Success(head + rest)
  }

  // Four sextets as three bytes.
  function First(p: Sextet, q: Sextet): (b: Byte) {
    var n: int := p;
    n * 4 + q / 16
  }

  function Second(q: Sextet, r: Sextet): (b: Byte) {
    var n: int := q % 16;
    n * 16 + r / 4
  }

  function Third(r: Sextet, s: Sextet): (b: Byte) {
    var n: int := r % 4;
    n * 64 + s
  }

  function DecodeQuad(t: string): (r: Result<Bytes>)
    requires |t| == 4
  {
    match (SextetOf(t[0]), SextetOf(t[1]), SextetOf(t[2]), SextetOf(t[3]))
    case (Some(p), Some(q), Some(r), Some(s)) => Success([First(p, q), Second(q, r), Third(r, s)])
    case _ => Failure
  }

  function DecodeLast(t: string): Result<Bytes>
    requires |t| == 4
  {
    if t[2] == '=' then
      match (SextetOf(t[0]), SextetOf(t[1]))
      case (Some(p), Some(q)) => if q % 16 == 0 then Success([First(p, q)]) else Failure
      case _ => Failure
    else
      match (SextetOf(t[0]), SextetOf(t[1]), SextetOf(t[2]))
      case (Some(p), Some(q), Some(r)) =>
        if r % 4 == 0 then Success([First(p, q), Second(q, r)]) else Failure
      case _ => Failure
  }

  // ---------------------------------------------------------------- properties

  /** Decoding undoes encoding. */
  lemma {:induction false} DecodeEncode(b: Bytes)
    ensures Decode(Encode(b)) == Success(b)
  {
    hide *;
    if |b| < 3 {
      TailReadBack(b);
    } else {
      FirstTriple(b);
      var head := EncodeTriple(b[0], b[1], b[2]);
      TripleReadBack(b[0], b[1], b[2]);
      DecodeEncode(b[3..]);
      DecodeStep(head, Encode(b[3..]));
      assert b == [b[0], b[1], b[2]] + b[3..];
    }
  }

  /** And it accepts nothing but encodings. */
  lemma {:induction false} EncodeDecode(t: string)
    requires Decode(t).Success?
    ensures Encode(Decode(t).value) == t
  {
    hide DecodeQuad, DecodeLast, EncodeTriple;
    if t != [] {
      if t[3] == '=' && |t| == 4 {
        LastQuadBack(t);
      } else {
        var b, rest := DecodeQuad(t[..4]).value, Decode(t[4..]).value;
        QuadBack(t[..4]);
        EncodeDecode(t[4..]);
        assert Decode(t).value == b + rest && (b + rest)[3..] == rest;
        FirstTriple(b + rest);
        hide Encode, Decode;
        assert t == t[..4] + t[4..];
      }
    }
  }

  lemma QuadBack(t: string)
    requires |t| == 4 && DecodeQuad(t).Success?
    ensures var b := DecodeQuad(t).value;
            |b| == 3 && EncodeTriple(b[0], b[1], b[2]) == t
  {
    SextetsBack(t);
    hide SextetOf, Letter, First, Second, Third, S0, S1, S2, S3;
    assert t == [t[0], t[1], t[2], t[3]];
    SextetsOfBytes(SextetOf(t[0]).value, SextetOf(t[1]).value, SextetOf(t[2]).value, SextetOf(t[3]).value);
  }

  lemma LastQuadBack(t: string)
    requires |t| == 4 && t[3] == '=' && DecodeLast(t).Success?
    ensures Encode(DecodeLast(t).value) == t
  {
    SextetsBack(t);
    hide SextetOf, Letter, First, Second, S0, S1, S2;
    assert t == [t[0], t[1], t[2], t[3]];
    var p, q := SextetOf(t[0]).value, SextetOf(t[1]).value;
    var r: Sextet := if t[2] == '=' then 0 else SextetOf(t[2]).value;
    LastSextets(p, q, r);
  }

  lemma SextetsBack(t: string)
    ensures forall i :: 0 <= i < |t| && SextetOf(t[i]).Some? ==> Letter(SextetOf(t[i]).value) == t[i]
  {
  }

  lemma SextetsOfBytes(p: Sextet, q: Sextet, r: Sextet, s: Sextet)
    ensures S0(First(p, q)) == p && S1(First(p, q), Second(q, r)) == q
    ensures S2(Second(q, r), Third(r, s)) == r && S3(Third(r, s)) == s
  {
  }

  lemma LastSextets(p: Sextet, q: Sextet, r: Sextet)
    ensures S0(First(p, q)) == p
    ensures q % 16 == 0 ==> S1(First(p, q), 0) == q
    ensures S1(First(p, q), Second(q, r)) == q
    ensures r % 4 == 0 ==> S2(Second(q, r), 0) == r
  {
  }

  lemma DecodeStep(head: string, rest: string)
    requires |head| == 4 && '=' !in head && DecodeQuad(head).Success? && Decode(rest).Success?
    ensures Decode(head + rest) == Success(DecodeQuad(head).value + Decode(rest).value)
  {
    assert (head + rest)[..4] == head && (head + rest)[4..] == rest && (head + rest)[3] == head[3];
    hide DecodeQuad, DecodeLast;
  }

  lemma TailReadBack(b: Bytes)
    requires |b| < 3
    ensures Decode(Encode(b)) == Success(b)
  {
    hide Letter, SextetOf, DecodeQuad, First, Second, S0, S1, S2;
    if |b| == 1 {
      LetterReadBack(S0(b[0]));
      LetterReadBack(S1(b[0], 0));
      FirstBack(b[0], 0);
      NoStrayBits(b[0], 0);
      assert b == [b[0]];
    } else if |b| == 2 {
      LetterReadBack(S0(b[0]));
      LetterReadBack(S1(b[0], b[1]));
      LetterReadBack(S2(b[1], 0));
      FirstBack(b[0], b[1]);
      SecondBack(b[0], b[1], 0);
      NoStrayBits(b[0], b[1]);
      LetterIsNoPadding(S2(b[1], 0));
      assert b == [b[0], b[1]];
    }
  }

  lemma LetterIsNoPadding(n: Sextet)
    ensures Letter(n) != '='
  {
  }

  lemma FirstBack(x: Byte, y: Byte)
    ensures First(S0(x), S1(x, y)) == x
  {
  }

  lemma SecondBack(x: Byte, y: Byte, z: Byte)
    ensures Second(S1(x, y), S2(y, z)) == y
  {
    assert S1(x, y) % 16 == y / 16 && S2(y, z) / 4 == y % 16;
  }

  lemma ThirdBack(y: Byte, z: Byte)
    ensures Third(S2(y, z), S3(z)) == z
  {
    assert S2(y, z) % 4 == z / 64;
  }

  lemma NoStrayBits(x: Byte, y: Byte)
    ensures S1(x, 0) % 16 == 0 && S2(y, 0) % 4 == 0
  {
  }

  lemma TripleReadBack(x: Byte, y: Byte, z: Byte)
    ensures DecodeQuad(EncodeTriple(x, y, z)) == Success([x, y, z])
  {
    hide Letter, SextetOf, First, Second, Third, S0, S1, S2, S3;
    LetterReadBack(S0(x));
    LetterReadBack(S1(x, y));
    LetterReadBack(S2(y, z));
    LetterReadBack(S3(z));
    FirstBack(x, y);
    SecondBack(x, y, z);
    ThirdBack(y, z);
  }

  lemma QuadHasNoPadding(t: string)
    requires |t| == 4 && DecodeQuad(t).Success?
    ensures '=' !in t
  {
    assert SextetOf('=').None?;
    hide SextetOf;
    assert t == [t[0], t[1], t[2], t[3]];
  }

  lemma EncodingIsEmptyOnlyOfNothing(b: Bytes)
    ensures b == [] ==> Encode(b) == []
    ensures b != [] ==> |Encode(b)| >= 4
  {
    hide Letter, EncodeTriple;
  }

  // The padding character stands at most in the last two places,
  // and in the last one unless the bytes come in threes.
  lemma {:induction false} PaddingIsLast(b: Bytes)
    ensures forall i :: 0 <= i < |Encode(b)| - 2 ==> Encode(b)[i] != '='
    ensures |b| % 3 != 0 ==> |Encode(b)| > 0 && Encode(b)[|Encode(b)| - 1] == '='
    ensures |b| % 3 == 0 ==> '=' !in Encode(b)
  {
    hide *;
    if |b| < 3 {
      ShortPadding(b);
    } else {
      FirstTriple(b);
      PaddingIsLast(b[3..]);
      AppendQuad(EncodeTriple(b[0], b[1], b[2]), Encode(b[3..]));
      assert |b[3..]| % 3 == |b| % 3;
    }
  }

  lemma ShortPadding(b: Bytes)
    requires |b| < 3
    ensures forall i :: 0 <= i < |Encode(b)| - 2 ==> Encode(b)[i] != '='
    ensures b != [] ==> |Encode(b)| > 0 && Encode(b)[|Encode(b)| - 1] == '='
    ensures b == [] ==> Encode(b) == []
  {
    hide S0, S1, S2;
  }

  lemma AppendQuad(head: string, rest: string)
    requires |head| == 4 && '=' !in head
    ensures (forall i :: 0 <= i < |rest| - 2 ==> rest[i] != '=') ==>
              forall i :: 0 <= i < |head + rest| - 2 ==> (head + rest)[i] != '='
    ensures rest != [] ==> (head + rest)[|head + rest| - 1] == rest[|rest| - 1]
    ensures '=' !in rest ==> '=' !in head + rest
  {
    forall i | 4 <= i < |head + rest| ensures (head + rest)[i] == rest[i - 4] {
    }
  }

  lemma {:induction false} EncodeConcat(a: Bytes, b: Bytes)
    requires |a| % 3 == 0
    ensures Encode(a + b) == Encode(a) + Encode(b)
  {
    if a == [] {
      assert a + b == b;
    } else {
      EncodeConcat(a[3..], b);
      TripleThenConcat(a, b);
    }
  }

  lemma TripleThenConcat(a: Bytes, b: Bytes)
    requires |a| >= 3 && Encode(a[3..] + b) == Encode(a[3..]) + Encode(b)
    ensures Encode(a + b) == Encode(a) + Encode(b)
  {
    hide *;
    FirstTriple(a);
    FirstTriple(a + b);
    var head := EncodeTriple(a[0], a[1], a[2]);
    assert (a + b)[0] == a[0] && (a + b)[1] == a[1] && (a + b)[2] == a[2];
    assert (a + b)[3..] == a[3..] + b;
    Associate(head, Encode(a[3..]), Encode(b));
  }

  lemma FirstTriple(b: Bytes)
    requires |b| >= 3
    ensures Encode(b) == EncodeTriple(b[0], b[1], b[2]) + Encode(b[3..])
  {
    hide EncodeTriple;
  }

  /** The encodings of two pieces join to the encoding of the whole exactly when the first
      comes in threes or the second is empty. */
  lemma EncodeConcatIff(a: Bytes, b: Bytes)
    ensures Encode(a + b) == Encode(a) + Encode(b) <==> |a| % 3 == 0 || b == []
  {
    if b == [] {
      assert a + b == a;
    } else if |a| % 3 == 0 {
      EncodeConcat(a, b);
    } else {
      PaddedPrefixDiffers(a, a + b, Encode(b));
      EncodingIsEmptyOnlyOfNothing(b);
    }
  }

  // A text with padding inside is no encoding.
  lemma PaddedPrefixDiffers(a: Bytes, whole: Bytes, rest: string)
    requires |a| % 3 != 0 && |rest| >= 2
    ensures Encode(whole) != Encode(a) + rest
  {
    PaddingIsLast(a);
    PaddingIsLast(whole);
    var t := Encode(a) + rest;
    assert t[|Encode(a)| - 1] == '=';
  }

  /** A text cut behind a multiple of four characters, with something behind the cut, decodes
      piece by piece. */
  lemma {:induction false} DecodeConcat(a: string, b: string)
    requires |a| % 4 == 0 && b != []
    requires Decode(a + b).Success?
    ensures Decode(a).Success? && Decode(b).Success?
    ensures Decode(a + b).value == Decode(a).value + Decode(b).value
  {
    hide *;
    if a == [] {
      DecodeNothing();
      assert a + b == b;
      assert [] + Decode(b).value == Decode(b).value;
    } else {
      var head, rest := a[..4], a[4..];
      DecodeFirst(a, b);
      DecodeConcat(rest, b);
      DecodeStep(head, rest);
      assert a == head + rest;
    }
  }

  lemma DecodeNothing()
    ensures Decode([]) == Success([])
  {
  }

  // With more behind it the first quad is no last one.
  lemma DecodeFirst(a: string, b: string)
    requires |a| >= 4 && b != [] && Decode(a + b).Success?
    ensures '=' !in a[..4] && DecodeQuad(a[..4]).Success? && Decode(a[4..] + b).Success?
    ensures Decode(a + b).value == DecodeQuad(a[..4]).value + Decode(a[4..] + b).value
  {
    assert (a + b)[..4] == a[..4] && (a + b)[4..] == a[4..] + b;
    QuadHasNoPadding(a[..4]);
    hide DecodeQuad, DecodeLast;
  }
}

/** The encrypted upload of sendFile against receiveDecryptedFile: two loops that cut their
    input into 16 KiB blocks and decide about padding from two different lengths, the
    sender's from the plaintext's and the receiver's from the ciphertext's. */
module ChunkedEncryption {
  import opened Wire
  import opened Sequences

  // ENCRYPTION_BLOCK_SIZE, the same in both packages.
  const BLOCK: nat := 16 * 1024

  type Block = b: Bytes | |b| == 16 witness [0, 0, 0, 0, 0, 0, 0, 0, 0, 0, 0, 0, 0, 0, 0, 0]

  // A block cipher under some key; nothing is known of it but that it decrypts.
  datatype Cipher = Cipher(enc: Block -> Block, dec: Block -> Block)

  ghost predicate Decrypts(c: Cipher) {
    forall b: Block :: c.dec(c.enc(b)) == b
  }

  // ---------------------------------------------------------------- CBC, section 6.2 of NIST SP 800-38A

  function Pow2(k: nat): nat {
    if k == 0 then 1 else 2 * Pow2(k - 1)
  }

  function XorBits(a: nat, b: nat, bits: nat): (r: nat)
    ensures r < Pow2(bits)
    decreases bits
  {
    if bits == 0 then 0
    else (if a % 2 == b % 2 then 0 else 1) + 2 * XorBits(a / 2, b / 2, bits - 1)
  }

  lemma {:induction false} XorBitsTwice(a: nat, b: nat, bits: nat)
    requires a < Pow2(bits)
    ensures XorBits(XorBits(a, b, bits), b, bits) == a
    decreases bits
  {
    if bits > 0 {
      XorBitsTwice(a / 2, b / 2, bits - 1);
      var x, low := XorBits(a / 2, b / 2, bits - 1), if a % 2 == b % 2 then 0 else 1;
      assert (low + 2 * x) / 2 == x && (low + 2 * x) % 2 == low;
    }
  }

  function Xor(a: Block, b: Block): (r: Block) {
    assert Pow2(8) == 256;
    seq(16, i requires 0 <= i < 16 => XorBits(a[i], b[i], 8))
  }

  // Bit k of a number, the lowest first.
  function Bit(n: nat, k: nat): (bit: nat)
    ensures bit < 2
  {
    if k == 0 then n % 2 else Bit(n / 2, k - 1)
  }

  /** The bits are those of the quotients by the powers of two. */
  lemma BitsOfByte(n: nat)
    ensures Bit(n, 0) == n % 2 && Bit(n, 1) == n / 2 % 2 && Bit(n, 2) == n / 4 % 2 && Bit(n, 3) == n / 8 % 2
    ensures Bit(n, 4) == n / 16 % 2 && Bit(n, 5) == n / 32 % 2 && Bit(n, 6) == n / 64 % 2 && Bit(n, 7) == n / 128 % 2
  {
    hide Bit, Halved;
    LowHalves(n);
    HighHalves(n);
    HalvedOnce(n, 7, n / 128);
  }

  lemma LowHalves(n: nat)
    ensures Bit(n, 0) == n % 2 && Bit(n, 1) == n / 2 % 2 && Bit(n, 2) == n / 4 % 2 && Bit(n, 3) == n / 8 % 2
    ensures Halved(n, 4) == n / 16
  {
    hide Bit, Halved;
    HalvedOnce(n, 0, n);
    HalvedOnce(n, 1, n / 2);
    HalvedOnce(n, 2, n / 4);
    HalvedOnce(n, 3, n / 8);
  }

  lemma HighHalves(n: nat)
    requires Halved(n, 4) == n / 16
    ensures Bit(n, 4) == n / 16 % 2 && Bit(n, 5) == n / 32 % 2 && Bit(n, 6) == n / 64 % 2
    ensures Halved(n, 7) == n / 128
  {
    hide Bit, Halved;
    HalvedOnce(n, 4, n / 16);
    HalvedOnce(n, 5, n / 32);
    HalvedOnce(n, 6, n / 64);
  }

  function Halved(n: nat, k: nat): nat {
    if k == 0 then n else Halved(n / 2, k - 1)
  }

  lemma {:induction false} HalvedOnce(n: nat, k: nat, h: nat)
    ensures Halved(n, 0) == n && Bit(n, k) == Halved(n, k) % 2
    ensures h == Halved(n, k) ==> Halved(n, k + 1) == h / 2
    decreases k
  {
    if k > 0 {
      HalvedOnce(n / 2, k - 1, h);
    }
  }

  /** Bit by bit it is the sum without carry. */
  lemma XorIsBitwise(a: Block, b: Block, i: nat, k: nat)
    requires i < 16 && k < 8
    ensures Bit(Xor(a, b)[i], k) == (Bit(a[i], k) + Bit(b[i], k)) % 2
  {
    assert Pow2(8) == 256;
    hide Bit, XorBits;
    XorBit(a[i], b[i], 8, k);
  }

  lemma {:induction false} XorBit(a: nat, b: nat, bits: nat, k: nat)
    requires k < bits
    ensures Bit(XorBits(a, b, bits), k) == (Bit(a, k) + Bit(b, k)) % 2
    decreases k
  {
    var x, low := XorBits(a / 2, b / 2, bits - 1), if a % 2 == b % 2 then 0 else 1;
    assert XorBits(a, b, bits) == low + 2 * x && (low + 2 * x) / 2 == x;
    if k > 0 {
      XorBit(a / 2, b / 2, bits - 1, k - 1);
    }
  }

  lemma XorTwice(a: Block, b: Block)
    ensures Xor(Xor(a, b), b) == a
  {
    assert Pow2(8) == 256;
    forall i | 0 <= i < 16 ensures Xor(Xor(a, b), b)[i] == a[i] {
      XorBitsTwice(a[i], b[i], 8);
    }
  }

  function CbcEncrypt(c: Cipher, iv: Block, data: Bytes): (r: Bytes)
    requires |data| % 16 == 0
    ensures |r| == |data|
    decreases |data|
  {
    if data == [] then []
    else
      var b := c.enc(Xor(data[..16], iv));
      b + CbcEncrypt(c, b, data[16..])
  }

  function BlockAt(data: Bytes, j: nat): (b: Block)
    requires 16 * j + 16 <= |data|
  {
    data[16 * j..16 * j + 16]
  }

  lemma BlockBehind(head: Block, data: Bytes, j: nat)
    requires 16 * j + 16 <= |data|
    ensures BlockAt(head + data, j + 1) == BlockAt(data, j)
    ensures BlockAt(head + data, 0) == head
  {
  }

  /** Each block is encrypted over the ciphertext of the one before, the first over the vector. */
  lemma {:induction false} CbcChains(c: Cipher, iv: Block, data: Bytes, j: nat)
    requires |data| % 16 == 0 && 16 * j + 16 <= |data|
    ensures var e := CbcEncrypt(c, iv, data);
            BlockAt(e, j) == c.enc(Xor(BlockAt(data, j), if j == 0 then iv else BlockAt(e, j - 1)))
    decreases j
  {
    var b := c.enc(Xor(data[..16], iv));
    var rest := data[16..];
    assert CbcEncrypt(c, iv, data) == b + CbcEncrypt(c, b, rest);
    assert data == data[..16] + rest && BlockAt(data, 0) == data[..16];
    hide *;
    var e := CbcEncrypt(c, b, rest);
    if j == 0 {
      FirstBlock(b, e);
    } else {
      CbcChains(c, b, rest, j - 1);
      BlockBehind(data[..16], rest, j - 1);
      BlockBehind(b, e, j - 1);
      if j > 1 {
        BlockBehind(b, e, j - 2);
      }
    }
  }

  lemma FirstBlock(head: Block, data: Bytes)
    ensures BlockAt(head + data, 0) == head
  {
  }

  /** What is enciphered for block j is the block, bit by bit added without carry to the ciphertext
      before it, and to the vector for the first. */
  lemma CbcChainsBits(c: Cipher, iv: Block, data: Bytes, j: nat) returns (input: Block)
    requires |data| % 16 == 0 && 16 * j + 16 <= |data|
    ensures var e := CbcEncrypt(c, iv, data);
            && e[16 * j..16 * j + 16] == c.enc(input)
            && forall i, k :: 0 <= i < 16 && 0 <= k < 8 ==>
                 var before := if j == 0 then iv[i] else e[16 * (j - 1) + i];
                 Bit(input[i], k) == (Bit(data[16 * j + i], k) + Bit(before, k)) % 2
  {
    hide *;
    CbcChains(c, iv, data, j);
    var e := CbcEncrypt(c, iv, data);
    var previous := if j == 0 then iv else BlockAt(e, j - 1);
    input := Xor(BlockAt(data, j), previous);
    BlockBytes(e, j);
    forall i, k | 0 <= i < 16 && 0 <= k < 8
      ensures var before := if j == 0 then iv[i] else e[16 * (j - 1) + i];
              Bit(input[i], k) == (Bit(data[16 * j + i], k) + Bit(before, k)) % 2
    {
      XorIsBitwise(BlockAt(data, j), previous, i, k);
      BlockBytes(data, j);
      if j > 0 {
        BlockBytes(e, j - 1);
      }
    }
  }

  lemma BlockBytes(data: Bytes, j: nat)
    requires 16 * j + 16 <= |data|
    ensures data[16 * j..16 * j + 16] == BlockAt(data, j)
    ensures forall i :: 0 <= i < 16 ==> BlockAt(data, j)[i] == data[16 * j + i]
  {
  }

  function CbcDecrypt(c: Cipher, iv: Block, data: Bytes): (r: Bytes)
    requires |data| % 16 == 0
    ensures |r| == |data|
    decreases |data|
  {
    if data == [] then []
    else Xor(c.dec(data[..16]), iv) + CbcDecrypt(c, data[..16], data[16..])
  }

  lemma {:induction false} CbcInverts(c: Cipher, iv: Block, data: Bytes)
    requires Decrypts(c) && |data| % 16 == 0
    ensures CbcDecrypt(c, iv, CbcEncrypt(c, iv, data)) == data
    decreases |data|
  {
    if data != [] {
      var p: Block := data[..16];
      var b := c.enc(Xor(p, iv));
      var e := CbcEncrypt(c, iv, data);
      assert e[..16] == b && e[16..] == CbcEncrypt(c, b, data[16..]);
      XorTwice(p, iv);
      CbcInverts(c, b, data[16..]);
    }
  }

  // ---------------------------------------------------------------- padding, section 6.3 of RFC 5652

  function Padding(n: nat): (p: Bytes)
    requires 1 <= n <= 16
    ensures |p| == n
  {
    seq(n, i => n)
  }

  function Pad(data: Bytes): (r: Bytes)
    ensures |r| % 16 == 0 && |data| < |r| <= |data| + 16
  {
    data + Padding(16 - |data| % 16)
  }

  // strip of aes-js, which is laxer than the section: a last byte of zero passes, and strips nothing.
  function Strip(data: Bytes): Result<Bytes> {
    if |data| < 16 then Failure
    else
      var n := data[|data| - 1];
      if n > 16 then Failure
      else if data[|data| - n..] != seq(n, i => n) then Failure
      else Success(data[..|data| - n])
  }

  /** The padding is one to sixteen bytes that each say how many they are, up to a multiple of sixteen. */
  lemma PadLayout(data: Bytes)
    ensures var n := 16 - |data| % 16;
            1 <= n <= 16 && Pad(data) == data + seq(n, i => n)
  {
    IsPadding(16 - |data| % 16);
  }

  lemma StripPad(data: Bytes)
    ensures Strip(Pad(data)) == Success(data)
  {
    var n := 16 - |data| % 16;
    assert Pad(data)[|data|..] == Padding(n) && Pad(data)[..|data|] == data;
    assert Pad(data)[|Pad(data)| - 1] == n;
  }

  // ---------------------------------------------------------------- the sender

  // slice(start, end), which stops at the end of the data.
  function Slice(data: Bytes, start: nat, end: nat): (r: Bytes)
    requires start <= end
  {
    if start >= |data| then [] else if end >= |data| then data[start..] else data[start..end]
  }

  lemma FullBlock(data: Bytes, start: nat)
    requires start + BLOCK <= |data|
    ensures |Slice(data, start, start + BLOCK)| == BLOCK
  {
  }

  // An empty key sends the block as it is.
  function SendBlock(key: Option<Cipher>, iv: Block, file: Bytes, start: nat): Bytes
    requires start < |file| || start == 0
  {
    var block := Slice(file, start, start + BLOCK);
    if key.None? then block
    else if |file| - (start + BLOCK) < 0 then CbcEncrypt(key.value, iv, Pad(block))
    else CbcEncrypt(key.value, iv, block)
  }

  // The blocks yielded from `start` on.
  function SendFrom(key: Option<Cipher>, iv: Block, file: Bytes, start: nat): seq<Bytes>
    requires start <= |file| + BLOCK
    decreases |file| + BLOCK - start
  {
    if start < |file| || start == 0 then [SendBlock(key, iv, file, start)] + SendFrom(key, iv, file, start + BLOCK)
    else []
  }

  /** sendFile, behind its first message. */
  method SendFile(key: Option<Cipher>, iv: Block, file: Bytes) returns (blocks: seq<Bytes>)
    ensures blocks == SendFrom(key, iv, file, 0)
  {
    hide CbcEncrypt, Pad, Slice, SendFrom;
    var fileSize, startP, endP := |file|, 0, BLOCK;
    blocks := [];
    assert [] + SendFrom(key, iv, file, 0) == SendFrom(key, iv, file, 0);
    while startP < fileSize || startP == 0
      invariant 0 <= startP <= |file| + BLOCK && endP == startP + BLOCK
      invariant blocks + SendFrom(key, iv, file, startP) == SendFrom(key, iv, file, 0)
      decreases |file| + BLOCK - startP
    {
      SendStep(key, iv, file, startP, blocks);
      var block := Slice(file, startP, endP);
      var sent := block;
      if key.Some? {
        if fileSize - endP < 0 {
          sent := CbcEncrypt(key.value, iv, Pad(block));
        } else {
          FullBlock(file, startP);
          sent := CbcEncrypt(key.value, iv, block);
        }
      }
      assert sent == SendBlock(key, iv, file, startP);
      blocks := blocks + [sent];
      startP, endP := startP + BLOCK, endP + BLOCK;
    }
    SendStep(key, iv, file, startP, blocks);
  }

  // One turn of the loop, or its end.
  lemma SendStep(key: Option<Cipher>, iv: Block, file: Bytes, start: nat, blocks: seq<Bytes>)
    requires start <= |file| + BLOCK
    ensures start < |file| || start == 0 ==>
              blocks + SendFrom(key, iv, file, start)
              == blocks + [SendBlock(key, iv, file, start)] + SendFrom(key, iv, file, start + BLOCK)
    ensures !(start < |file| || start == 0) ==> blocks + SendFrom(key, iv, file, start) == blocks
  {
    hide SendBlock;
  }

  /** What sendFile yields: one block for every 16384 bytes of the file, and one for an empty file; with a
      key each is enciphered afresh from the vector, and padded if and only if it is not full. */
  lemma {:induction false} SentBlock(key: Option<Cipher>, iv: Block, file: Bytes, start: nat, k: nat)
    requires start < |file| || start == |file| == 0
    requires k < |SendFrom(key, iv, file, start)|
    ensures |SendFrom(key, iv, file, start)| == (if file == [] then 1 else (|file| - start + 16383) / 16384)
    ensures var sent, from := SendFrom(key, iv, file, start)[k], start + 16384 * k;
            && from <= |file|
            && (from + 16384 <= |file| ==>
                  && |sent| == 16384
                  && sent == if key.None? then file[from..from + 16384]
                             else CbcEncrypt(key.value, iv, file[from..from + 16384]))
            && (from + 16384 > |file| ==>
                  && k == |SendFrom(key, iv, file, start)| - 1
                  && sent == if key.None? then file[from..] else CbcEncrypt(key.value, iv, Pad(file[from..])))
    decreases k
  {
    hide *;
    SentCount(key, iv, file, start);
    if k == 0 {
      SentFirst(key, iv, file, start);
    } else {
      SentRest(key, iv, file, start, k);
      SentBlock(key, iv, file, start + 16384, k - 1);
    }
  }

  lemma SentFirst(key: Option<Cipher>, iv: Block, file: Bytes, start: nat)
    requires start < |file| || start == |file| == 0
    ensures |SendFrom(key, iv, file, start)| > 0
    ensures var sent := SendFrom(key, iv, file, start)[0];
            && (start + 16384 <= |file| ==>
                  && |sent| == 16384
                  && sent == if key.None? then file[start..start + 16384]
                             else CbcEncrypt(key.value, iv, file[start..start + 16384]))
            && (start + 16384 > |file| ==>
                  sent == if key.None? then file[start..] else CbcEncrypt(key.value, iv, Pad(file[start..])))
  {
    assert SendFrom(key, iv, file, start)[0] == SendBlock(key, iv, file, start);
    hide SendFrom, CbcEncrypt, Pad;
    assert start + 16384 == |file| ==> file[start..] == file[start..start + 16384];
  }

  lemma SentRest(key: Option<Cipher>, iv: Block, file: Bytes, start: nat, k: nat)
    requires start < |file| || start == |file| == 0
    requires 0 < k < |SendFrom(key, iv, file, start)|
    ensures start + 16384 < |file| && k - 1 < |SendFrom(key, iv, file, start + 16384)|
    ensures |SendFrom(key, iv, file, start)| == |SendFrom(key, iv, file, start + 16384)| + 1
    ensures SendFrom(key, iv, file, start)[k] == SendFrom(key, iv, file, start + 16384)[k - 1]
  {
    hide SendBlock;
    var rest := SendFrom(key, iv, file, start + BLOCK);
    assert SendFrom(key, iv, file, start) == [SendBlock(key, iv, file, start)] + rest;
  }

  lemma {:induction false} SentCount(key: Option<Cipher>, iv: Block, file: Bytes, start: nat)
    requires start <= |file| + BLOCK
    ensures start < |file| ==> |SendFrom(key, iv, file, start)| == (|file| - start + 16383) / 16384
    ensures start >= |file| ==> |SendFrom(key, iv, file, start)| == if start == 0 then 1 else 0
    decreases |file| + BLOCK - start
  {
    hide SendBlock;
    if start < |file| {
      SentCount(key, iv, file, start + BLOCK);
    }
  }

  // ---------------------------------------------------------------- the receiver

  function ReceiveBlock(c: Cipher, iv: Block, content: Bytes, start: nat): Result<Bytes> {
    var block := Slice(content, start, start + BLOCK);
    if |block| % 16 != 0 then Failure
    else if |content| - (start + BLOCK) < 0 then Strip(CbcDecrypt(c, iv, block))
    else Success(CbcDecrypt(c, iv, block))
  }

  // What is decrypted from `start` on.
  function ReceiveFrom(c: Cipher, iv: Block, content: Bytes, start: nat): Result<Bytes>
    requires start <= |content| + BLOCK
    decreases |content| + BLOCK - start
  {
    if start < |content| || start == 0 then
      match ReceiveBlock(c, iv, content, start)
      case Failure => Failure
      case Success(plain) => Prepend(plain, ReceiveFrom(c, iv, content, start + BLOCK))
    else Success([])
  }

  // for await (const chunk of source) content = content.concat(chunk)
  method JoinChunks(source: seq<Bytes>) returns (content: Bytes)
    ensures content == Flatten(source)
  {
    var i := 0;
    content := [];
    assert source[0..] == source;
    while i < |source|
      invariant 0 <= i <= |source|
      invariant content + Flatten(source[i..]) == Flatten(source)
    {
      assert source[i..][0] == source[i] && source[i..][1..] == source[i + 1..];
      Associate(content, source[i], Flatten(source[i + 1..]));
      content := content + source[i];
      i := i + 1;
    }
    assert content + [] == content;
  }

  /** receiveDecryptedFile: the chunks are joined, cut again and decrypted. */
  method ReceiveDecryptedFile(c: Cipher, iv: Block, source: seq<Bytes>) returns (r: Result<Bytes>)
    ensures r == ReceiveFrom(c, iv, Flatten(source), 0)
  {
    hide CbcDecrypt, Strip, Flatten, Slice;
    var content := JoinChunks(source);
    var fileSize, startP, endP, res := |content|, 0, BLOCK, [];
    PrependNothing(ReceiveFrom(c, iv, content, 0));
    while startP < fileSize || startP == 0
      invariant 0 <= startP <= |content| + BLOCK && endP == startP + BLOCK
      invariant Prepend(res, ReceiveFrom(c, iv, content, startP)) == ReceiveFrom(c, iv, content, 0)
      decreases |content| + BLOCK - startP
    {
      var block := Slice(content, startP, endP);
      assert block == Slice(content, startP, startP + BLOCK);
      if |block| % 16 != 0 {
        return Failure;
      }
      var decrypted;
      if fileSize - endP < 0 {
        decrypted :- Strip(CbcDecrypt(c, iv, block));
      } else {
        decrypted := CbcDecrypt(c, iv, block);
      }
      PrependTwice(res, decrypted, ReceiveFrom(c, iv, content, startP + BLOCK));
      res := res + decrypted;
      startP, endP := startP + BLOCK, endP + BLOCK;
    }
    assert res + [] == res;
    r := Success(res);
  }

  function Prepend(head: Bytes, r: Result<Bytes>): Result<Bytes> {
    match r
    case Failure => Failure
    case Success(rest) => Success(head + rest)
  }

  lemma PrependNothing(r: Result<Bytes>)
    ensures Prepend([], r) == r
  {
    if r.Success? {
      assert [] + r.value == r.value;
    }
  }

  lemma PrependTwice(a: Bytes, b: Bytes, r: Result<Bytes>)
    ensures Prepend(a + b, r) == Prepend(a, Prepend(b, r))
  {
    if r.Success? {
      Associate(a, b, r.value);
    }
  }

  // ---------------------------------------------------------------- what the two agree on

  lemma SameResidue(r: nat, k: nat)
    ensures (16 * k + r) % 16 == r % 16
  {
  }

  lemma Residues(n: nat)
    ensures n % 16 == n % BLOCK % 16
    ensures n >= BLOCK ==> (n - BLOCK) % BLOCK == n % BLOCK && (n - BLOCK) % 16 == n % 16
  {
    var q, r := n / BLOCK, n % BLOCK;
    assert n == 16 * (1024 * q) + r;
    SameResidue(r, 1024 * q);
    if n >= BLOCK {
      assert n - BLOCK == 16 * (1024 * (q - 1)) + r && n - BLOCK == BLOCK * (q - 1) + r;
      SameResidue(r, 1024 * (q - 1));
    }
  }

  // What the sender encrypts: padded unless it ends with a full block.
  function Padded(t: Bytes): (p: Bytes)
    ensures |p| % 16 == 0 && |p| > 0
  {
    Residues(|t|);
    if t != [] && |t| % BLOCK == 0 then t else Pad(t)
  }

  // CBC started afresh for every 16 KiB.
  function Chunked(c: Cipher, iv: Block, p: Bytes): (r: Bytes)
    requires |p| % 16 == 0
    ensures |r| == |p|
    decreases |p|
  {
    if |p| <= BLOCK then CbcEncrypt(c, iv, p)
    else CbcEncrypt(c, iv, p[..BLOCK]) + Chunked(c, iv, p[BLOCK..])
  }

  lemma PaddedTail(t: Bytes)
    requires |t| > BLOCK
    ensures Padded(t) == t[..BLOCK] + Padded(t[BLOCK..])
    ensures Padded(t)[..BLOCK] == t[..BLOCK] && Padded(t)[BLOCK..] == Padded(t[BLOCK..])
  {
    hide Padding;
    Residues(|t|);
    assert t == t[..BLOCK] + t[BLOCK..];
    var rest := t[BLOCK..];
    assert |rest| % BLOCK == |t| % BLOCK && |rest| % 16 == |t| % 16;
    if |t| % BLOCK != 0 {
      var n := 16 - |t| % 16;
      assert Padded(t) == t + Padding(n) && Padded(rest) == rest + Padding(n);
    }
  }

  lemma {:induction false} SendsChunked(c: Cipher, iv: Block, file: Bytes, start: nat)
    requires start < |file| || start == |file| == 0
    ensures Flatten(SendFrom(Some(c), iv, file, start)) == Chunked(c, iv, Padded(file[start..]))
    decreases |file| - start
  {
    if start + BLOCK < |file| {
      SendsChunked(c, iv, file, start + BLOCK);
      SendsFullBlock(c, iv, file, start);
    } else {
      SendsLastBlock(c, iv, file, start);
    }
  }

  lemma SendsFirst(key: Option<Cipher>, iv: Block, file: Bytes, start: nat)
    requires start < |file| || start == 0
    ensures Flatten(SendFrom(key, iv, file, start))
         == SendBlock(key, iv, file, start) + Flatten(SendFrom(key, iv, file, start + BLOCK))
  {
    hide SendBlock, Flatten;
    FlattenCons(SendBlock(key, iv, file, start), SendFrom(key, iv, file, start + BLOCK));
  }

  lemma SendsFullBlock(c: Cipher, iv: Block, file: Bytes, start: nat)
    requires start + BLOCK < |file|
    requires Flatten(SendFrom(Some(c), iv, file, start + BLOCK)) == Chunked(c, iv, Padded(file[start + BLOCK..]))
    ensures Flatten(SendFrom(Some(c), iv, file, start)) == Chunked(c, iv, Padded(file[start..]))
  {
    hide CbcEncrypt, Pad, Flatten, SendFrom;
    SendsFirst(Some(c), iv, file, start);
    var t := file[start..];
    assert file[start + BLOCK..] == t[BLOCK..];
    PaddedTail(t);
    hide Padded;
    assert file[start..start + BLOCK] == t[..BLOCK];
  }

  lemma SendsLastBlock(c: Cipher, iv: Block, file: Bytes, start: nat)
    requires start < |file| <= start + BLOCK || start == |file| == 0
    ensures Flatten(SendFrom(Some(c), iv, file, start)) == Chunked(c, iv, Padded(file[start..]))
  {
    assert SendFrom(Some(c), iv, file, start + BLOCK) == [];
    hide CbcEncrypt, SendFrom;
    SendsFirst(Some(c), iv, file, start);
    var block := SendBlock(Some(c), iv, file, start);
    assert block + Flatten([]) == block;
    var t := file[start..];
    LastBlockLength(t);
    assert |t| == BLOCK ==> file[start..start + BLOCK] == t;
  }

  // What the receiver makes of it: the padding goes unless it filled a block.
  function Received(t: Bytes): Bytes {
    if |Padded(t)| % BLOCK == 0 then Padded(t) else t
  }

  lemma {:induction false} ReceivesChunked(c: Cipher, iv: Block, content: Bytes, start: nat, t: Bytes)
    requires Decrypts(c) && start <= |content| && content[start..] == Chunked(c, iv, Padded(t))
    ensures ReceiveFrom(c, iv, content, start) == Success(Received(t))
    decreases |t|
  {
    if |t| > BLOCK {
      ReceivesFirstBlock(c, iv, content, start, t);
      hide *;
      ReceivesChunked(c, iv, content, start + BLOCK, t[BLOCK..]);
    } else {
      ReceivesLastBlock(c, iv, content, start, t);
    }
  }

  lemma ReceivesFirstBlock(c: Cipher, iv: Block, content: Bytes, start: nat, t: Bytes)
    requires Decrypts(c) && start <= |content| && content[start..] == Chunked(c, iv, Padded(t)) && |t| > BLOCK
    ensures |t[BLOCK..]| < |t|
    ensures start + BLOCK <= |content| && content[start + BLOCK..] == Chunked(c, iv, Padded(t[BLOCK..]))
    ensures ReceiveFrom(c, iv, content, start + BLOCK) == Success(Received(t[BLOCK..])) ==>
              ReceiveFrom(c, iv, content, start) == Success(Received(t))
  {
    hide CbcEncrypt, CbcDecrypt, Decrypts, Strip;
    PaddedTail(t);
    var tail, rest := content[start..], t[BLOCK..];
    assert |tail| == BLOCK + |Padded(rest)|;
    assert tail[..BLOCK] == CbcEncrypt(c, iv, t[..BLOCK]) && tail[BLOCK..] == Chunked(c, iv, Padded(rest));
    assert content[start + BLOCK..] == tail[BLOCK..];
    assert Slice(content, start, start + BLOCK) == tail[..BLOCK];
    CbcInverts(c, iv, t[..BLOCK]);
    ReceivedTail(t);
  }

  lemma ReceivedTail(t: Bytes)
    requires |t| > BLOCK
    ensures Received(t) == t[..BLOCK] + Received(t[BLOCK..])
  {
    PaddedTail(t);
    Residues(|Padded(t)|);
    hide Padded;
  }

  lemma ReceivesLastBlock(c: Cipher, iv: Block, content: Bytes, start: nat, t: Bytes)
    requires Decrypts(c) && start <= |content| && content[start..] == Chunked(c, iv, Padded(t)) && |t| <= BLOCK
    ensures ReceiveFrom(c, iv, content, start) == Success(Received(t))
  {
    hide CbcEncrypt, CbcDecrypt, Decrypts;
    var p := Padded(t);
    LastBlockLength(t);
    assert Slice(content, start, start + BLOCK) == content[start..];
    CbcInverts(c, iv, p);
    if |p| < BLOCK {
      StripPad(t);
    }
    hide Strip, Pad;
    assert ReceiveFrom(c, iv, content, start + BLOCK) == Success([]);
    assert Received(t) + [] == Received(t);
  }

  lemma LastBlockLength(t: Bytes)
    requires |t| <= BLOCK
    ensures |Padded(t)| <= BLOCK && (|Padded(t)| % BLOCK == 0 <==> |Padded(t)| == BLOCK)
    ensures |Padded(t)| < BLOCK ==> Padded(t) == Pad(t)
  {
  }

  /** For every file and key, with r the size modulo 16384: the file comes back exactly when
      r < 16368; otherwise its last block's padding filled that block, the receiver takes it for
      data, and 16384-r bytes of that value follow the file. */
  lemma ReceiveAfterSend(c: Cipher, iv: Block, file: Bytes)
    requires Decrypts(c)
    ensures var r := |file| % 16384;
            var received := ReceiveFrom(c, iv, Flatten(SendFrom(Some(c), iv, file, 0)), 0);
            && received == Success(if r < 16368 then file else file + seq(16384 - r, i => 16384 - r))
            && (received == Success(file) <==> r < 16368)
  {
    SendsChunked(c, iv, file, 0);
    assert file[0..] == file;
    var content := Flatten(SendFrom(Some(c), iv, file, 0));
    assert content[0..] == content;
    ReceivesChunked(c, iv, content, 0, file);
    PaddingFills(file);
  }

  lemma PaddingFills(file: Bytes)
    ensures var r := |file| % BLOCK;
            && (r < BLOCK - 16 ==> Received(file) == file)
            && (r >= BLOCK - 16 ==> Received(file) == file + seq(BLOCK - r, i => BLOCK - r))
  {
    var r := |file| % BLOCK;
    var n := 16 - r % 16;
    Residues(|file|);
    hide Padding;
    if file == [] || r != 0 {
      PaddedResidue(|file| / BLOCK, r, n);
      assert |file| == |file| / BLOCK * BLOCK + r;
      if r >= BLOCK - 16 {
        IsPadding(n);
      }
    }
  }

  lemma IsPadding(n: nat)
    requires 1 <= n <= 16
    ensures Padding(n) == seq(n, i => n)
  {
  }

  lemma PaddedResidue(q: nat, r: nat, n: nat)
    requires r < BLOCK && n == 16 - r % 16
    ensures r >= BLOCK - 16 <==> (q * BLOCK + r + n) % BLOCK == 0
    ensures r >= BLOCK - 16 ==> n == BLOCK - r
  {
    if r >= BLOCK - 16 {
      assert q * BLOCK + r + n == (q + 1) * BLOCK;
    } else {
      assert q * BLOCK + r + n == q * BLOCK + (r + n) && 0 < r + n < BLOCK;
    }
  }

  /** Without a key the blocks are the file itself, for receiveFile to join. */
  lemma {:induction false} PlainBlocksJoin(iv: Block, file: Bytes, start: nat)
    requires start <= |file| + BLOCK
    ensures Flatten(SendFrom(None, iv, file, start)) == if start < |file| then file[start..] else []
    decreases |file| + BLOCK - start
  {
    hide CbcEncrypt, Pad, Flatten;
    if start < |file| || start == 0 {
      SendsFirst(None, iv, file, start);
      PlainBlocksJoin(iv, file, start + BLOCK);
      hide SendFrom;
      assert start + BLOCK < |file| ==> file[start..] == file[start..start + BLOCK] + file[start + BLOCK..];
    } else {
      NothingToFlatten();
    }
  }

  lemma NothingToFlatten()
    ensures Flatten<Byte>([]) == []
  {
  }
}

/** How the React Native bridge frames a stream as base64 text: groups of three chunks one
    way, slices of a text the other way. */
module BridgeFraming {
  import opened Wire
  import opened Base64
  import opened Sequences

  // The messages of one transfer.
  datatype Message = StartMessage | ChunkMessage(data: string) | EndMessage

  // ---------------------------------------------------------------- concatArrayBuffers

  /** Every buffer lands at the running offset: one behind the other, no gap, no overlap. */
  method ConcatArrayBuffers(bufs: seq<Bytes>) returns (result: array<Byte>)
    ensures fresh(result) && result[..] == Flatten(bufs)
  {
    hide Flatten;
    var totalSize, i := 0, 0;
    FlattenFrom(bufs, i);
    while i < |bufs|
      invariant 0 <= i <= |bufs| && totalSize + |Flatten(bufs[i..])| == |Flatten(bufs)|
    {
      FlattenFrom(bufs, i);
      totalSize, i := totalSize + |bufs[i]|, i + 1;
    }
    FlattenFrom(bufs, i);
    result := new Byte[totalSize];
    var offset := 0;
    i := 0;
    while i < |bufs|
      invariant 0 <= i <= |bufs| && 0 <= offset && offset + |Flatten(bufs[i..])| == result.Length
      invariant result[..offset] + Flatten(bufs[i..]) == Flatten(bufs)
    {
      FlattenFrom(bufs, i);
      ghost var done, rest := result[..offset], Flatten(bufs[i + 1..]);
      Set(result, bufs[i], offset);
      assert result[..offset + |bufs[i]|] == done + bufs[i];
      Associate(done, bufs[i], rest);
      offset, i := offset + |bufs[i]|, i + 1;
    }
    FlattenFrom(bufs, i);
    assert result[..offset] + [] == result[..];
  }

  lemma FlattenFrom(bufs: seq<Bytes>, i: nat)
    requires i <= |bufs|
    ensures bufs[0..] == bufs
    ensures i < |bufs| ==> Flatten(bufs[i..]) == bufs[i] + Flatten(bufs[i + 1..])
    ensures i == |bufs| ==> Flatten(bufs[i..]) == []
  {
    if i < |bufs| {
      assert bufs[i..][0] == bufs[i] && bufs[i..][1..] == bufs[i + 1..];
    }
  }

  // result.set(buf, offset)
  method Set(result: array<Byte>, buf: Bytes, offset: nat)
    requires offset + |buf| <= result.Length
    modifies result
    ensures result[..offset] == old(result[..offset])
    ensures result[offset..offset + |buf|] == buf
    ensures result[offset + |buf|..] == old(result[offset + |buf|..])
  {
    var k := 0;
    while k < |buf|
      invariant 0 <= k <= |buf|
      invariant forall i :: 0 <= i < k ==> result[offset + i] == buf[i]
      invariant forall i :: 0 <= i < offset || offset + |buf| <= i < result.Length ==> result[i] == old(result[i])
    {
      result[offset + k] := buf[k];
      k := k + 1;
    }
  }

  // ---------------------------------------------------------------- streamSend of the web view

  // Three chunks to a group; the last group takes what is left.
  function Groups(chunks: seq<Bytes>): (gs: seq<seq<Bytes>>)
    ensures forall i :: 0 <= i < |gs| ==> 0 < |gs[i]| <= 3 && (i < |gs| - 1 ==> |gs[i]| == 3)
    decreases |chunks|
  {
    if chunks == [] then []
    else if |chunks| <= 3 then [chunks]
    else [chunks[..3]] + Groups(chunks[3..])
  }

  function Payloads(gs: seq<seq<Bytes>>): (ts: seq<string>) {
    if gs == [] then [] else [Encode(Flatten(gs[0]))] + Payloads(gs[1..])
  }

  function ChunkMessages(payloads: seq<string>): (ms: seq<Message>) {
    seq(|payloads|, i requires 0 <= i < |payloads| => ChunkMessage(payloads[i]))
  }

  /** START, one CHUNK for every group, END; the buffer never holds more than three chunks. */
  method StreamSend(chunks: seq<Bytes>) returns (posted: seq<Message>)
    ensures posted == [StartMessage] + ChunkMessages(Payloads(Groups(chunks))) + [EndMessage]
  {
    hide Groups, Payloads, ChunkMessages, Encode, Flatten;
    posted := [StartMessage];
    var buffer: seq<Bytes>, i := [], 0;
    ghost var sent: seq<seq<Bytes>> := [];
    NothingPosted(chunks);
    while i < |chunks|
      invariant 0 <= i <= |chunks| && |buffer| <= 3 && (i > 0 ==> buffer != [])
      invariant Groups(chunks) == sent + Groups(buffer + chunks[i..])
      invariant posted == [StartMessage] + ChunkMessages(Payloads(sent))
    {
      var chunk := chunks[i];
      assert chunks[i..] == [chunk] + chunks[i + 1..];
      if |buffer| < 3 {
        assert buffer + chunks[i..] == buffer + [chunk] + chunks[i + 1..];
        buffer := buffer + [chunk];
      } else {
        var all := ConcatArrayBuffers(buffer);
        posted := posted + [ChunkMessage(Encode(all[..]))];
        PostsChunk(sent, buffer);
        FullGroup(sent, buffer, chunks[i..]);
        sent := sent + [buffer];
        buffer := [chunk];
      }
      i := i + 1;
    }
    assert buffer + chunks[i..] == buffer;
    LastGroup(buffer);
    if |buffer| > 0 {
      var all := ConcatArrayBuffers(buffer);
      posted := posted + [ChunkMessage(Encode(all[..]))];
      PostsChunk(sent, buffer);
    } else {
      assert sent + [] == sent;
    }
    posted := posted + [EndMessage];
  }

  lemma NothingPosted(chunks: seq<Bytes>)
    ensures Groups(chunks) == [] + Groups([] + chunks[0..])
    ensures [StartMessage] == [StartMessage] + ChunkMessages(Payloads([]))
  {
    assert [] + chunks[0..] == chunks;
  }

  lemma FullGroup(sent: seq<seq<Bytes>>, g: seq<Bytes>, rest: seq<Bytes>)
    requires |g| == 3 && rest != []
    ensures sent + Groups(g + rest) == sent + [g] + Groups(rest)
  {
    assert (g + rest)[..3] == g && (g + rest)[3..] == rest;
    Associate(sent, [g], Groups(rest));
  }

  lemma LastGroup(g: seq<Bytes>)
    requires |g| <= 3
    ensures Groups(g) == if g == [] then [] else [g]
  {
  }

  lemma PostsChunk(gs: seq<seq<Bytes>>, g: seq<Bytes>)
    ensures [StartMessage] + ChunkMessages(Payloads(gs)) + [ChunkMessage(Encode(Flatten(g)))]
         == [StartMessage] + ChunkMessages(Payloads(gs + [g]))
  {
    PayloadsSnoc(gs, g);
  }

  lemma {:induction false} PayloadsSnoc(gs: seq<seq<Bytes>>, g: seq<Bytes>)
    ensures Payloads(gs + [g]) == Payloads(gs) + [Encode(Flatten(g))]
  {
    if gs == [] {
      assert gs + [g] == [g];
    } else {
      PayloadsSnoc(gs[1..], g);
      assert (gs + [g])[1..] == gs[1..] + [g];
    }
  }

  // ---------------------------------------------------------------- receiveFile of the client

  /** result += value for every chunk of the transfer. */
  method ReceiveText(posted: seq<Message>) returns (result: string)
    ensures result == TextOf(posted)
  {
    hide TextOf;
    result := "";
    var i := 0;
    assert posted[0..] == posted && [] + TextOf(posted) == TextOf(posted);
    while i < |posted|
      invariant 0 <= i <= |posted| && result + TextOf(posted[i..]) == TextOf(posted)
    {
      TextOfFirst(posted[i..]);
      assert posted[i..][1..] == posted[i + 1..];
      if posted[i].ChunkMessage? {
        Associate(result, posted[i].data, TextOf(posted[i + 1..]));
        result := result + posted[i].data;
      }
      i := i + 1;
    }
    TextOfFirst(posted[i..]);
    assert result + [] == result;
  }

  lemma TextOfFirst(posted: seq<Message>)
    ensures posted == [] ==> TextOf(posted) == []
    ensures posted != [] ==>
              TextOf(posted) == (if posted[0].ChunkMessage? then posted[0].data else []) + TextOf(posted[1..])
  {
    if posted != [] {
      assert [] + TextOf(posted[1..]) == TextOf(posted[1..]);
    }
  }

  function TextOf(posted: seq<Message>): string {
    if posted == [] then []
    else (if posted[0].ChunkMessage? then posted[0].data else []) + TextOf(posted[1..])
  }

  lemma {:induction false} TextOfChunks(payloads: seq<string>, after: seq<Message>)
    ensures TextOf(ChunkMessages(payloads) + after) == Flatten(payloads) + TextOf(after)
  {
    if payloads == [] {
      assert ChunkMessages(payloads) + after == after;
    } else {
      TextOfChunks(payloads[1..], after);
      assert (ChunkMessages(payloads) + after)[1..] == ChunkMessages(payloads[1..]) + after;
    }
  }

  lemma TransferText(payloads: seq<string>)
    ensures TextOf([StartMessage] + ChunkMessages(payloads) + [EndMessage]) == Flatten(payloads)
  {
    var chunks := ChunkMessages(payloads) + [EndMessage];
    TextOfChunks(payloads, [EndMessage]);
    assert [StartMessage] + ChunkMessages(payloads) + [EndMessage] == [StartMessage] + chunks;
    assert ([StartMessage] + chunks)[1..] == chunks;
    assert TextOf([EndMessage]) == [];
  }

  // ---------------------------------------------------------------- the theorems

  /** The groups hold exactly the chunks, in order. */
  lemma {:induction false} GroupsFlatten(chunks: seq<Bytes>)
    ensures Flatten(Groups(chunks)) == chunks
    decreases |chunks|
  {
    if chunks == [] {
    } else if |chunks| <= 3 {
      assert Groups(chunks)[1..] == [];
      assert Flatten(Groups(chunks)) == chunks + [];
    } else {
      GroupsFlatten(chunks[3..]);
      assert Groups(chunks)[1..] == Groups(chunks[3..]);
      assert chunks == chunks[..3] + chunks[3..];
    }
  }

  // The bytes of all groups.
  function Content(gs: seq<seq<Bytes>>): Bytes {
    if gs == [] then [] else Flatten(gs[0]) + Content(gs[1..])
  }

  lemma {:induction false} GroupsContent(chunks: seq<Bytes>)
    ensures Content(Groups(chunks)) == Flatten(chunks)
    decreases |chunks|
  {
    if chunks == [] {
    } else if |chunks| <= 3 {
      assert Groups(chunks)[1..] == [];
      assert Flatten(chunks) + [] == Flatten(chunks);
    } else {
      GroupsContent(chunks[3..]);
      assert Groups(chunks)[1..] == Groups(chunks[3..]);
      assert chunks == chunks[..3] + chunks[3..];
      FlattenConcat(chunks[..3], chunks[3..]);
    }
  }

  function DecodeAll(payloads: seq<string>): Result<Bytes> {
    if payloads == [] then Success([])
    else match Decode(payloads[0])
         case Failure => Failure
         case Success(head) =>
           match DecodeAll(payloads[1..])
           case Failure => Failure
           case Success(rest) => Success(head + rest)
  }

  /** Whatever the sizes of the chunks, decoding every payload gives the source bytes in order. */
  lemma {:induction false} PayloadsDecode(gs: seq<seq<Bytes>>)
    ensures DecodeAll(Payloads(gs)) == Success(Content(gs))
  {
    if gs != [] {
      DecodeEncode(Flatten(gs[0]));
      PayloadsDecode(gs[1..]);
    }
  }

  lemma StreamDecodesToSource(chunks: seq<Bytes>)
    ensures DecodeAll(Payloads(Groups(chunks))) == Success(Flatten(chunks))
  {
    PayloadsDecode(Groups(chunks));
    GroupsContent(chunks);
  }

  /** Every group that is followed by any byte at all comes in threes. */
  predicate Aligned(gs: seq<seq<Bytes>>) {
    gs == [] || ((|Flatten(gs[0])| % 3 == 0 || Content(gs[1..]) == []) && Aligned(gs[1..]))
  }

  lemma {:induction false} JoinedTextIff(gs: seq<seq<Bytes>>)
    ensures Flatten(Payloads(gs)) == Encode(Content(gs)) <==> Aligned(gs)
  {
    if gs != [] {
      var a, b, rest := Flatten(gs[0]), Content(gs[1..]), Flatten(Payloads(gs[1..]));
      JoinedTextIff(gs[1..]);
      JoinedLength(gs[1..]);
      assert Payloads(gs)[1..] == Payloads(gs[1..]);
      EncodeConcatIff(a, b);
      if |a| % 3 != 0 && b != [] {
        PaddedPrefixDiffers(a, a + b, rest);
      } else {
        SamePrefix(Encode(a), rest, Encode(b));
      }
    }
  }

  lemma SamePrefix(p: string, s: string, t: string)
    ensures p + s == p + t <==> s == t
  {
    assert (p + s)[|p|..] == s && (p + t)[|p|..] == t;
  }

  lemma {:induction false} JoinedLength(gs: seq<seq<Bytes>>)
    ensures Content(gs) == [] ==> Flatten(Payloads(gs)) == []
    ensures Content(gs) != [] ==> |Flatten(Payloads(gs))| >= 4
  {
    if gs != [] {
      JoinedLength(gs[1..]);
      EncodingIsEmptyOnlyOfNothing(Flatten(gs[0]));
      assert Payloads(gs)[1..] == Payloads(gs[1..]);
    }
  }

  /** The client's text is the base64 of the whole content exactly when every group that is
      not behind the last byte comes in threes. */
  lemma TextIsBase64Iff(chunks: seq<Bytes>)
    ensures var posted := [StartMessage] + ChunkMessages(Payloads(Groups(chunks))) + [EndMessage];
            TextOf(posted) == Encode(Flatten(chunks)) <==> Aligned(Groups(chunks))
  {
    TransferText(Payloads(Groups(chunks)));
    JoinedTextIff(Groups(chunks));
    GroupsContent(chunks);
  }

  /** So it is when all chunks but the last have one length: a full group has three of them. */
  lemma EqualChunksGiveBase64(chunks: seq<Bytes>, length: nat)
    requires forall i :: 0 <= i < |chunks| - 1 ==> |chunks[i]| == length
    ensures TextOf([StartMessage] + ChunkMessages(Payloads(Groups(chunks))) + [EndMessage]) == Encode(Flatten(chunks))
  {
    TextIsBase64Iff(chunks);
    EqualChunksAligned(chunks, length);
  }

  lemma {:induction false} EqualChunksAligned(chunks: seq<Bytes>, length: nat)
    requires forall i :: 0 <= i < |chunks| - 1 ==> |chunks[i]| == length
    ensures Aligned(Groups(chunks))
    decreases |chunks|
  {
    if |chunks| > 3 {
      EqualChunksAligned(chunks[3..], length);
      assert Groups(chunks)[1..] == Groups(chunks[3..]);
      ThreeChunks(chunks[0], chunks[1], chunks[2]);
      assert chunks[..3] == [chunks[0], chunks[1], chunks[2]];
      assert |Flatten(chunks[..3])| == 3 * length;
    } else if chunks != [] {
      assert Groups(chunks)[1..] == [];
    }
  }

  lemma ThreeChunks(a: Bytes, b: Bytes, c: Bytes)
    ensures Flatten([a, b, c]) == a + (b + c)
  {
    assert [a, b, c][1..] == [b, c] && [b, c][1..] == [c] && [c][1..] == [];
    assert Flatten([c]) == c + [];
    assert Flatten([b, c]) == b + Flatten([c]);
  }

  /** Unequal chunks can spoil the text: the first group here has four bytes. */
  lemma UnequalChunksSpoilTheText(a: Byte)
    ensures var chunks := [[a, a], [a], [a], [a]];
            TextOf([StartMessage] + ChunkMessages(Payloads(Groups(chunks))) + [EndMessage]) != Encode(Flatten(chunks))
  {
    var chunks: seq<Bytes> := [[a, a], [a], [a], [a]];
    TextIsBase64Iff(chunks);
    ThreeChunks([a, a], [a], [a]);
    assert chunks[..3] == [[a, a], [a], [a]] && chunks[3..] == [[a]];
    assert Groups(chunks) == [chunks[..3]] + Groups(chunks[3..]);
    assert Groups(chunks)[1..] == [[[a]]];
    assert Flatten([[a]]) == [a] + Flatten([[a]][1..]);
    assert Content([[[a]]]) == Flatten([[a]]) + Content([[[a]]][1..]);
  }

  // ---------------------------------------------------------------- fileReader2

  function Cut(text: string, size: nat): (parts: seq<string>)
    requires size > 0
    decreases |text|
  {
    if text == [] then []
    else if |text| <= size then [text]
    else [text[..size]] + Cut(text[size..], size)
  }

  /** The slicing loop, for any positive size. */
  method FileReader2(content: string, chunksAmount: nat) returns (parts: seq<string>)
    requires chunksAmount > 0
    ensures parts == Cut(content, chunksAmount)
  {
    hide Cut;
    parts := [];
    var byteStart, byteEnd := 0, chunksAmount;
    assert content[0..] == content && [] + Cut(content, chunksAmount) == Cut(content, chunksAmount);
    while byteStart < |content|
      invariant 0 <= byteStart
      invariant byteStart < |content| ==>
                  byteEnd == byteStart + chunksAmount || (byteEnd == |content| <= byteStart + chunksAmount)
      invariant byteStart < |content| ==> byteStart < byteEnd
      invariant var rest := if byteStart < |content| then content[byteStart..] else [];
                Cut(content, chunksAmount) == parts + Cut(rest, chunksAmount)
      decreases |content| - byteStart
    {
      var part := if byteEnd <= |content| then content[byteStart..byteEnd] else content[byteStart..];
      CutFirst(content[byteStart..], chunksAmount);
      ghost var rest := if byteEnd < |content| then content[byteEnd..] else [];
      ghost var tail := content[byteStart..];
      assert |tail| <= chunksAmount ==> part == tail && rest == [];
      assert |tail| > chunksAmount ==> part == tail[..chunksAmount] && rest == tail[chunksAmount..];
      Associate(parts, [part], Cut(rest, chunksAmount));
      parts := parts + [part];
      byteStart := byteEnd;
      byteEnd := byteEnd + chunksAmount;
      if byteEnd >= |content| {
        byteEnd := |content|;
      }
    }
    CutNothing(chunksAmount);
    assert parts + [] == parts;
  }

  lemma CutNothing(size: nat)
    requires size > 0
    ensures Cut([], size) == []
  {
  }

  lemma CutFirst(text: string, size: nat)
    requires size > 0 && text != []
    ensures Cut(text, size) ==
            if |text| <= size then [text] + Cut([], size) else [text[..size]] + Cut(text[size..], size)
  {
  }

  /** The slices cover the text, and each but the last has the full size. */
  lemma CutCovers(text: string, size: nat)
    requires size > 0
    ensures Flatten(Cut(text, size)) == text
    ensures forall i :: 0 <= i < |Cut(text, size)| ==> 0 < |Cut(text, size)[i]| <= size
    ensures forall i :: 0 <= i < |Cut(text, size)| - 1 ==> |Cut(text, size)[i]| == size
  {
    CutIsSliced(text, size);
    hide Cut, Flatten;
  }

  lemma {:induction false} CutIsSliced(text: string, size: nat)
    requires size > 0
    ensures Flatten(Cut(text, size)) == text && Slices(Cut(text, size), size)
    decreases |text|
  {
    hide *;
    CutNothing(size);
    NothingFlattens(size);
    if text != [] {
      CutFirst(text, size);
      if |text| <= size {
        OneSlice(text, size);
      } else {
        CutIsSliced(text[size..], size);
        MoreSlices(text[..size], Cut(text[size..], size), size);
        assert text == text[..size] + text[size..];
      }
    }
  }

  // What the slices of a text have to be.
  predicate Slices(parts: seq<string>, size: nat) {
    && (forall i :: 0 <= i < |parts| ==> 0 < |parts[i]| <= size)
    && (forall i :: 0 <= i < |parts| - 1 ==> |parts[i]| == size)
  }

  lemma NothingFlattens(size: nat)
    ensures Flatten<char>([]) == [] && Slices([], size)
  {
  }

  lemma OneSlice(text: string, size: nat)
    requires 0 < |text| <= size
    ensures Flatten([text] + []) == text && Slices([text] + [], size)
  {
    FlattenCons(text, []);
  }

  lemma MoreSlices(head: string, rest: seq<string>, size: nat)
    requires |head| == size > 0 && Slices(rest, size)
    ensures Flatten([head] + rest) == head + Flatten(rest) && Slices([head] + rest, size)
  {
    FlattenCons(head, rest);
    hide Flatten;
  }

  /** Slices of a size that four divides decode one by one to what the whole text decodes to. */
  lemma {:induction false} SlicesDecode(text: string, size: nat)
    requires size > 0 && size % 4 == 0 && Decode(text).Success?
    ensures DecodeAll(Cut(text, size)) == Decode(text)
    decreases |text|
  {
    if text == [] {
    } else if |text| <= size {
      assert Cut(text, size)[1..] == [];
      assert Decode(text).value + [] == Decode(text).value;
    } else {
      assert text == text[..size] + text[size..];
      DecodeConcat(text[..size], text[size..]);
      SlicesDecode(text[size..], size);
      assert Cut(text, size)[1..] == Cut(text[size..], size);
    }
  }

  /** With the default size every padded base64 text survives slicing and slice-wise decoding. */
  lemma DefaultSlicesDecode(content: Bytes)
    ensures DecodeAll(Cut(Encode(content), 1048576)) == Success(content)
  {
    DecodeEncode(content);
    SlicesDecode(Encode(content), 1048576);
  }
}

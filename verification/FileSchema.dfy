/** The messages of the file protocol: Meta, Chunk, Request and File.
    Strings are their UTF-8 bytes; sizes and times are the integers a number holds exactly. */
module FileSchema {
  import opened Wire

  datatype Meta = Meta(name: Bytes, mime: Bytes, size: SafeNat, lastModified: SafeInt, preview: Option<Bytes>)
  datatype Chunk = Chunk(id: Bytes, skip: Option<SafeNat>, limit: Option<SafeNat>)
  datatype Request = NoRequest | MetaRequest(id: Bytes) | Receive(chunk: Chunk) | Send(meta: Meta)
  datatype File = File(meta: Option<Meta>, contentPath: Bytes)

  // create()
  const FRESH_META := Meta([], [], 0, 0, None)
  const FRESH_CHUNK := Chunk([], None, None)
  const FRESH_FILE := File(None, [])

  // ---------------------------------------------------------------- the encodings

  function EncMeta(m: Meta): Bytes {
    StringFieldOf(1, m.name) + (StringFieldOf(2, m.mime) + (IntFieldOf(3, m.size)
    + (IntFieldOf(4, m.lastModified) + OptionalBytesOf(5, m.preview))))
  }

  function EncChunk(c: Chunk): Bytes {
    StringFieldOf(1, c.id) + (OptionalIntOf(2, c.skip) + OptionalIntOf(3, c.limit))
  }

  function EncRequest(r: Request): Bytes {
    match r
    case NoRequest => []
    case MetaRequest(id) => EncTag(1, LengthDelimited) + Delimited(id)
    case Receive(chunk) => EncTag(2, LengthDelimited) + Delimited(EncChunk(chunk))
    case Send(meta) => EncTag(3, LengthDelimited) + Delimited(EncMeta(meta))
  }

  function EncFile(f: File): Bytes {
    OptionalBytesOf(1, if f.meta.Some? then Some(EncMeta(f.meta.value)) else None) + StringFieldOf(2, f.contentPath)
  }

  predicate FitsMeta(m: Meta) {
    Fits(m.name) && Fits(m.mime) && (m.preview.Some? ==> Fits(m.preview.value))
  }

  predicate FitsRequest(r: Request) {
    match r
    case NoRequest => true
    case MetaRequest(id) => Fits(id)
    case Receive(chunk) => Fits(chunk.id) && Fits(EncChunk(chunk))
    case Send(meta) => FitsMeta(meta) && Fits(EncMeta(meta))
  }

  predicate FitsFile(f: File) {
    Fits(f.contentPath) && (f.meta.Some? ==> FitsMeta(f.meta.value) && Fits(EncMeta(f.meta.value)))
  }

  // ---------------------------------------------------------------- what a read does to its target

  // A field left out of the message leaves the target's field.
  function MergeMeta(t: Meta, m: Meta): Meta {
    Meta(
      if m.name == [] then t.name else m.name,
      if m.mime == [] then t.mime else m.mime,
      if m.size == 0 then t.size else m.size,
      if m.lastModified == 0 then t.lastModified else m.lastModified,
      if m.preview.None? then t.preview else m.preview)
  }

  function MergeChunk(t: Chunk, c: Chunk): Chunk {
    Chunk(
      if c.id == [] then t.id else c.id,
      if c.skip.None? then t.skip else c.skip,
      if c.limit.None? then t.limit else c.limit)
  }

  // Only a message of the same kind is merged with the target's.
  function MergeRequest(t: Request, r: Request): Request {
    match r
    case NoRequest => t
    case MetaRequest(_) => r
    case Receive(chunk) => Receive(MergeChunk(ChunkOf(t), chunk))
    case Send(meta) => Send(MergeMeta(SentMeta(t), meta))
  }

  function ChunkOf(r: Request): Chunk {
    if r.Receive? then r.chunk else FRESH_CHUNK
  }

  function SentMeta(r: Request): Meta {
    if r.Send? then r.meta else FRESH_META
  }

  function MergeFile(t: File, f: File): File {
    File(
      if f.meta.None? then t.meta else Some(MergeMeta(MetaOf(t), f.meta.value)),
      if f.contentPath == [] then t.contentPath else f.contentPath)
  }

  function MetaOf(f: File): Meta {
    if f.meta.Some? then f.meta.value else FRESH_META
  }

  // ---------------------------------------------------------------- what the readers compute

  function MetaAt(b: Bytes, pos: nat, end: nat, message: Meta): (r: Parsed<Meta>)
    requires pos <= |b|
    ensures r.Got? ==> pos <= r.pos <= |b|
    decreases |b| - pos
  {
    if pos >= end then Got(message, pos)
    else match TagAt(b, pos)
         case Bad => Bad
         case Got(tag, p) =>
           match MetaFieldAt(b, p, tag, message)
           case Bad => Bad
           case Got(m, q) => MetaAt(b, q, end, m)
  }

  function MetaFieldAt(b: Bytes, pos: nat, tag: Tag, message: Meta): (r: Parsed<Meta>)
    requires pos <= |b|
    ensures r.Got? ==> pos < r.pos <= |b|
  {
    match tag.fieldNo
    case 1 => (match BytesAt(b, pos) case Bad => Bad case Got(s, p) => Got(message.(name := s), p))
    case 2 => (match BytesAt(b, pos) case Bad => Bad case Got(s, p) => Got(message.(mime := s), p))
    case 3 => (match SafeNatAt(b, pos) case Bad => Bad case Got(n, p) => Got(message.(size := n), p))
    case 4 => (match SafeIntAt(b, pos) case Bad => Bad case Got(n, p) => Got(message.(lastModified := n), p))
    case 5 => (match BytesAt(b, pos) case Bad => Bad case Got(s, p) => Got(message.(preview := Some(s)), p))
    case _ => (match SkipAt(b, pos, tag.wireType) case Bad => Bad case Got(_, p) => Got(message, p))
  }

  function ChunkAt(b: Bytes, pos: nat, end: nat, message: Chunk): (r: Parsed<Chunk>)
    requires pos <= |b|
    ensures r.Got? ==> pos <= r.pos <= |b|
    decreases |b| - pos
  {
    if pos >= end then Got(message, pos)
    else match TagAt(b, pos)
         case Bad => Bad
         case Got(tag, p) =>
           match ChunkFieldAt(b, p, tag, message)
           case Bad => Bad
           case Got(m, q) => ChunkAt(b, q, end, m)
  }

  function ChunkFieldAt(b: Bytes, pos: nat, tag: Tag, message: Chunk): (r: Parsed<Chunk>)
    requires pos <= |b|
    ensures r.Got? ==> pos < r.pos <= |b|
  {
    match tag.fieldNo
    case 1 => (match BytesAt(b, pos) case Bad => Bad case Got(s, p) => Got(message.(id := s), p))
    case 2 => (match SafeNatAt(b, pos) case Bad => Bad case Got(n, p) => Got(message.(skip := Some(n)), p))
    case 3 => (match SafeNatAt(b, pos) case Bad => Bad case Got(n, p) => Got(message.(limit := Some(n)), p))
    case _ => (match SkipAt(b, pos, tag.wireType) case Bad => Bad case Got(_, p) => Got(message, p))
  }

  function SubMetaAt(b: Bytes, pos: nat, target: Meta): (r: Parsed<Meta>)
    requires pos <= |b|
    ensures r.Got? ==> pos < r.pos <= |b|
  {
    match Uint32At(b, pos)
    case Bad => Bad
    case Got(length, p) => MetaAt(b, p, p + length, target)
  }

  function SubChunkAt(b: Bytes, pos: nat, target: Chunk): (r: Parsed<Chunk>)
    requires pos <= |b|
    ensures r.Got? ==> pos < r.pos <= |b|
  {
    match Uint32At(b, pos)
    case Bad => Bad
    case Got(length, p) => ChunkAt(b, p, p + length, target)
  }

  function RequestAt(b: Bytes, pos: nat, end: nat, message: Request): (r: Parsed<Request>)
    requires pos <= |b|
    ensures r.Got? ==> pos <= r.pos <= |b|
    decreases |b| - pos
  {
    if pos >= end then Got(message, pos)
    else match TagAt(b, pos)
         case Bad => Bad
         case Got(tag, p) =>
           match RequestFieldAt(b, p, tag, message)
           case Bad => Bad
           case Got(m, q) => RequestAt(b, q, end, m)
  }

  function RequestFieldAt(b: Bytes, pos: nat, tag: Tag, message: Request): (r: Parsed<Request>)
    requires pos <= |b|
    ensures r.Got? ==> pos < r.pos <= |b|
  {
    match tag.fieldNo
    case 1 => (match BytesAt(b, pos) case Bad => Bad case Got(s, p) => Got(MetaRequest(s), p))
    case 2 => (match SubChunkAt(b, pos, ChunkOf(message)) case Bad => Bad case Got(c, p) => Got(Receive(c), p))
    case 3 => (match SubMetaAt(b, pos, SentMeta(message)) case Bad => Bad case Got(m, p) => Got(Send(m), p))
    case _ => (match SkipAt(b, pos, tag.wireType) case Bad => Bad case Got(_, p) => Got(message, p))
  }

  function FileAt(b: Bytes, pos: nat, end: nat, message: File): (r: Parsed<File>)
    requires pos <= |b|
    ensures r.Got? ==> pos <= r.pos <= |b|
    decreases |b| - pos
  {
    if pos >= end then Got(message, pos)
    else match TagAt(b, pos)
         case Bad => Bad
         case Got(tag, p) =>
           match FileFieldAt(b, p, tag, message)
           case Bad => Bad
           case Got(m, q) => FileAt(b, q, end, m)
  }

  function FileFieldAt(b: Bytes, pos: nat, tag: Tag, message: File): (r: Parsed<File>)
    requires pos <= |b|
    ensures r.Got? ==> pos < r.pos <= |b|
  {
    match tag.fieldNo
    case 1 =>
      (match SubMetaAt(b, pos, MetaOf(message)) case Bad => Bad case Got(m, p) => Got(message.(meta := Some(m)), p))
    case 2 => (match BytesAt(b, pos) case Bad => Bad case Got(s, p) => Got(message.(contentPath := s), p))
    case _ => (match SkipAt(b, pos, tag.wireType) case Bad => Bad case Got(_, p) => Got(message, p))
  }

  // ---------------------------------------------------------------- reading merges

  /** Reading the bytes of a Meta merges it into the target, field by field. */
  lemma ReadMergesMeta(b: Bytes, pos: nat, end: nat, m: Meta, t: Meta)
    requires FitsMeta(m) && At(b, pos, EncMeta(m)) && pos + |EncMeta(m)| <= end
    ensures MetaAt(b, pos, end, t) == MetaAt(b, pos + |EncMeta(m)|, end, MergeMeta(t, m))
  {
    hide At, MetaAt, MetaPiece, MergeMetaField, MergeMeta;
    var e5 := MetaPiece(m, 5);
    var e4 := MetaPiece(m, 4) + e5;
    var e3 := MetaPiece(m, 3) + e4;
    var e2 := MetaPiece(m, 2) + e3;
    assert EncMeta(m) == MetaPiece(m, 1) + e2 by {
      MetaPieces(m);
    }
    hide EncMeta;
    var p2, t2 := MetaStep(b, pos, end, m, t, 1, e2);
    var p3, t3 := MetaStep(b, p2, end, m, t2, 2, e3);
    var p4, t4 := MetaStep(b, p3, end, m, t3, 3, e4);
    assert MetaPiece(m, 4) + e5 == e4 && e5 + [] == e5;
    var p5, t5 := MetaStep(b, p4, end, m, t4, 4, e5);
    var p6, t6 := MetaStep(b, p5, end, m, t5, 5, []);
    MergeMetaFields(t, m);
  }

  // The i-th field of the encoding, and of the merge.
  function MetaPiece(m: Meta, i: nat): Bytes {
    match i
    case 1 => StringFieldOf(1, m.name)
    case 2 => StringFieldOf(2, m.mime)
    case 3 => IntFieldOf(3, m.size)
    case 4 => IntFieldOf(4, m.lastModified)
    case _ => OptionalBytesOf(5, m.preview)
  }

  lemma MetaPieces(m: Meta)
    ensures EncMeta(m)
         == MetaPiece(m, 1) + (MetaPiece(m, 2) + (MetaPiece(m, 3) + (MetaPiece(m, 4) + MetaPiece(m, 5))))
  {
  }

  function MergeMetaField(t: Meta, m: Meta, i: nat): Meta {
    var r := MergeMeta(t, m);
    match i
    case 1 => t.(name := r.name)
    case 2 => t.(mime := r.mime)
    case 3 => t.(size := r.size)
    case 4 => t.(lastModified := r.lastModified)
    case _ => t.(preview := r.preview)
  }

  lemma MergeMetaFields(t: Meta, m: Meta)
    ensures var t3 := MergeMetaField(MergeMetaField(MergeMetaField(t, m, 1), m, 2), m, 3);
            MergeMetaField(MergeMetaField(t3, m, 4), m, 5) == MergeMeta(t, m)
  {
  }

  lemma MetaStep(b: Bytes, pos: nat, end: nat, m: Meta, t: Meta, i: nat, rest: Bytes) returns (next: nat, t': Meta)
    requires 1 <= i <= 5 && FitsMeta(m)
    requires At(b, pos, MetaPiece(m, i) + rest) && pos + |MetaPiece(m, i)| + |rest| <= end
    ensures next == pos + |MetaPiece(m, i)| && At(b, next, rest)
    ensures t' == MergeMetaField(t, m, i) && pos <= |b| && next <= |b|
    ensures MetaAt(b, pos, end, t) == MetaAt(b, next, end, t')
  {
    hide MetaPiece, MetaAt, MergeMetaField, FitsMeta;
    next, t' := pos + |MetaPiece(m, i)|, MergeMetaField(t, m, i);
    AtSplit(b, pos, MetaPiece(m, i), rest);
    ReadMergesMetaField(b, pos, end, m, t, i);
  }

  // One turn of the loop, or none for a field left out.
  lemma ReadMergesMetaField(b: Bytes, pos: nat, end: nat, m: Meta, t: Meta, i: nat)
    requires 1 <= i <= 5 && FitsMeta(m) && At(b, pos, MetaPiece(m, i)) && pos + |MetaPiece(m, i)| <= end
    ensures MetaAt(b, pos, end, t) == MetaAt(b, pos + |MetaPiece(m, i)|, end, MergeMetaField(t, m, i))
  {
    hide At, TagAt, BytesAt, Uint32At, SafeIntAt, SafeNatAt, SkipAt, EncVarint, EncInt, Delimited, MetaAt;
    if MetaPiece(m, i) != [] {
      var w := if i == 3 || i == 4 then Varint else LengthDelimited;
      match i {
        case 1 => DelimitedFieldReadBack(b, pos, 1, m.name);
        case 2 => DelimitedFieldReadBack(b, pos, 2, m.mime);
        case 3 => IntFieldReadBack(b, pos, 3, m.size);
        case 4 => IntFieldReadBack(b, pos, 4, m.lastModified);
        case _ => DelimitedFieldReadBack(b, pos, 5, m.preview.value);
      }
      hide EncTag;
      MetaTurn(b, pos, pos + |EncTag(i, w)|, pos + |MetaPiece(m, i)|, end, Tag(i, w), t, MergeMetaField(t, m, i));
    }
  }

  lemma MetaTurn(b: Bytes, pos: nat, p: nat, q: nat, end: nat, tag: Tag, t: Meta, t': Meta)
    requires pos < q <= end && p <= |b| && pos <= |b|
    requires TagAt(b, pos) == Got(tag, p) && MetaFieldAt(b, p, tag, t) == Got(t', q)
    ensures MetaAt(b, pos, end, t) == MetaAt(b, q, end, t')
  {
    hide TagAt, MetaFieldAt;
  }

  /** Reading the bytes of a Chunk merges it into the target. */
  lemma ReadMergesChunk(b: Bytes, pos: nat, end: nat, c: Chunk, t: Chunk)
    requires Fits(c.id) && At(b, pos, EncChunk(c)) && pos + |EncChunk(c)| <= end
    ensures ChunkAt(b, pos, end, t) == ChunkAt(b, pos + |EncChunk(c)|, end, MergeChunk(t, c))
  {
    hide At, ChunkAt, StringFieldOf, OptionalIntOf;
    var e1, e2, e3 := StringFieldOf(1, c.id), OptionalIntOf(2, c.skip), OptionalIntOf(3, c.limit);
    AtSplit(b, pos, e1, e2 + e3);
    AtSplit(b, pos + |e1|, e2, e3);
    ReadMergesChunkId(b, pos, end, c, t);
    var t2 := t.(id := MergeChunk(t, c).id);
    ReadMergesSkip(b, pos + |e1|, end, c, t2);
    ReadMergesLimit(b, pos + |e1| + |e2|, end, c, t2.(skip := MergeChunk(t, c).skip));
  }

  lemma ReadMergesChunkId(b: Bytes, pos: nat, end: nat, c: Chunk, t: Chunk)
    requires Fits(c.id) && At(b, pos, StringFieldOf(1, c.id)) && pos + |StringFieldOf(1, c.id)| <= end
    ensures ChunkAt(b, pos, end, t) == ChunkAt(b, pos + |StringFieldOf(1, c.id)|, end, t.(id := MergeChunk(t, c).id))
  {
    hide At, TagAt, BytesAt, Uint32At, SafeNatAt, SkipAt, EncVarint, EncTag, Delimited;
    if c.id != [] {
      DelimitedFieldReadBack(b, pos, 1, c.id);
    }
  }

  lemma ReadMergesSkip(b: Bytes, pos: nat, end: nat, c: Chunk, t: Chunk)
    requires At(b, pos, OptionalIntOf(2, c.skip)) && pos + |OptionalIntOf(2, c.skip)| <= end
    ensures ChunkAt(b, pos, end, t)
         == ChunkAt(b, pos + |OptionalIntOf(2, c.skip)|, end, t.(skip := MergeChunk(t, c).skip))
  {
    hide At, TagAt, BytesAt, Uint32At, SafeNatAt, SkipAt, EncVarint, EncTag, EncInt;
    if c.skip.Some? {
      IntFieldReadBack(b, pos, 2, c.skip.value);
    }
  }

  lemma ReadMergesLimit(b: Bytes, pos: nat, end: nat, c: Chunk, t: Chunk)
    requires At(b, pos, OptionalIntOf(3, c.limit)) && pos + |OptionalIntOf(3, c.limit)| <= end
    ensures ChunkAt(b, pos, end, t)
         == ChunkAt(b, pos + |OptionalIntOf(3, c.limit)|, end, t.(limit := MergeChunk(t, c).limit))
  {
    hide At, TagAt, BytesAt, Uint32At, SafeNatAt, SkipAt, EncVarint, EncTag, EncInt;
    if c.limit.Some? {
      IntFieldReadBack(b, pos, 3, c.limit.value);
    }
  }

  // A submessage behind its length.
  lemma SubMetaReadBack(b: Bytes, pos: nat, m: Meta, t: Meta)
    requires FitsMeta(m) && Fits(EncMeta(m)) && At(b, pos, Delimited(EncMeta(m)))
    ensures SubMetaAt(b, pos, t) == Got(MergeMeta(t, m), pos + |Delimited(EncMeta(m))|)
  {
    hide At, Uint32At, BytesAt, EncMeta, MergeMeta, Delimited;
    var e := EncMeta(m);
    DelimitedReadBack(b, pos, e);
    var p := pos + |EncVarint(|e|)|;
    ReadMergesMeta(b, p, p + |e|, m, t);
  }

  lemma SubChunkReadBack(b: Bytes, pos: nat, c: Chunk, t: Chunk)
    requires Fits(c.id) && Fits(EncChunk(c)) && At(b, pos, Delimited(EncChunk(c)))
    ensures SubChunkAt(b, pos, t) == Got(MergeChunk(t, c), pos + |Delimited(EncChunk(c))|)
  {
    hide At, Uint32At, BytesAt, EncChunk, MergeChunk, Delimited;
    var e := EncChunk(c);
    DelimitedReadBack(b, pos, e);
    var p := pos + |EncVarint(|e|)|;
    ReadMergesChunk(b, p, p + |e|, c, t);
  }

  /** Reading the bytes of a Request merges within its kind and replaces across kinds. */
  lemma ReadMergesRequest(b: Bytes, pos: nat, end: nat, r: Request, t: Request)
    requires FitsRequest(r) && At(b, pos, EncRequest(r)) && pos + |EncRequest(r)| <= end
    ensures RequestAt(b, pos, end, t) == RequestAt(b, pos + |EncRequest(r)|, end, MergeRequest(t, r))
  {
    hide At, TagAt, BytesAt, Uint32At, SkipAt, SubChunkAt, SubMetaAt, EncTag, Delimited, EncMeta, EncChunk, EncVarint;
    hide MergeMeta, MergeChunk, FitsMeta, Fits;
    match r
    case NoRequest =>
    case MetaRequest(id) =>
      DelimitedFieldReadBack(b, pos, 1, id);
    case Receive(chunk) =>
      DelimitedFieldReadBack(b, pos, 2, EncChunk(chunk));
      AtSplit(b, pos, EncTag(2, LengthDelimited), Delimited(EncChunk(chunk)));
      SubChunkReadBack(b, pos + |EncTag(2, LengthDelimited)|, chunk, ChunkOf(t));
    case Send(meta) =>
      DelimitedFieldReadBack(b, pos, 3, EncMeta(meta));
      AtSplit(b, pos, EncTag(3, LengthDelimited), Delimited(EncMeta(meta)));
      SubMetaReadBack(b, pos + |EncTag(3, LengthDelimited)|, meta, SentMeta(t));
  }

  /** Reading the bytes of a File merges its Meta with the target's. */
  lemma ReadMergesFile(b: Bytes, pos: nat, end: nat, f: File, t: File)
    requires FitsFile(f) && At(b, pos, EncFile(f)) && pos + |EncFile(f)| <= end
    ensures FileAt(b, pos, end, t) == FileAt(b, pos + |EncFile(f)|, end, MergeFile(t, f))
  {
    hide At, FileAt, OptionalBytesOf, StringFieldOf, MergeMeta;
    var e1 := OptionalBytesOf(1, if f.meta.Some? then Some(EncMeta(f.meta.value)) else None);
    var e2 := StringFieldOf(2, f.contentPath);
    AtSplit(b, pos, e1, e2);
    ReadMergesFileMeta(b, pos, end, f, t);
    ReadMergesContentPath(b, pos + |e1|, end, f, t.(meta := MergeFile(t, f).meta));
  }

  lemma ReadMergesFileMeta(b: Bytes, pos: nat, end: nat, f: File, t: File)
    requires FitsFile(f)
    requires var e := OptionalBytesOf(1, if f.meta.Some? then Some(EncMeta(f.meta.value)) else None);
             At(b, pos, e) && pos + |e| <= end
    ensures var e := OptionalBytesOf(1, if f.meta.Some? then Some(EncMeta(f.meta.value)) else None);
            FileAt(b, pos, end, t) == FileAt(b, pos + |e|, end, t.(meta := MergeFile(t, f).meta))
  {
    hide At, TagAt, BytesAt, Uint32At, SkipAt, SubMetaAt, EncTag, Delimited, EncMeta, EncVarint, MergeMeta;
    if f.meta.Some? {
      var e := EncMeta(f.meta.value);
      DelimitedFieldReadBack(b, pos, 1, e);
      AtSplit(b, pos, EncTag(1, LengthDelimited), Delimited(e));
      SubMetaReadBack(b, pos + |EncTag(1, LengthDelimited)|, f.meta.value, MetaOf(t));
    }
  }

  lemma ReadMergesContentPath(b: Bytes, pos: nat, end: nat, f: File, t: File)
    requires FitsFile(f) && At(b, pos, StringFieldOf(2, f.contentPath))
    requires pos + |StringFieldOf(2, f.contentPath)| <= end
    ensures FileAt(b, pos, end, t)
         == FileAt(b, pos + |StringFieldOf(2, f.contentPath)|, end, t.(contentPath := MergeFile(t, f).contentPath))
  {
    hide At, TagAt, BytesAt, Uint32At, SkipAt, SubMetaAt, EncTag, Delimited, EncVarint, MergeMeta;
    if f.contentPath != [] {
      DelimitedFieldReadBack(b, pos, 2, f.contentPath);
    }
  }

  // ---------------------------------------------------------------- round trips

  // Request.fromBinary and its like.
  function Finish<T>(g: Parsed<T>): Result<T> {
    match g
    case Bad => Failure
    case Got(v, _) => Success(v)
  }

  function MetaFromBinary(data: Bytes): Result<Meta> {
    Finish(MetaAt(data, 0, |data|, FRESH_META))
  }

  function ChunkFromBinary(data: Bytes): Result<Chunk> {
    Finish(ChunkAt(data, 0, |data|, FRESH_CHUNK))
  }

  function RequestFromBinary(data: Bytes): Result<Request> {
    Finish(RequestAt(data, 0, |data|, NoRequest))
  }

  function FileFromBinary(data: Bytes): Result<File> {
    Finish(FileAt(data, 0, |data|, FRESH_FILE))
  }

  // A loop that starts at the end does nothing, and a merge into a fresh message gives the message.
  lemma NothingLeft(b: Bytes, m: Meta, c: Chunk, r: Request, f: File)
    ensures At(b, 0, b)
    ensures MetaAt(b, |b|, |b|, m) == Got(m, |b|) && MergeMeta(FRESH_META, m) == m
    ensures ChunkAt(b, |b|, |b|, c) == Got(c, |b|) && MergeChunk(FRESH_CHUNK, c) == c
    ensures RequestAt(b, |b|, |b|, r) == Got(r, |b|)
    ensures FileAt(b, |b|, |b|, f) == Got(f, |b|)
  {
  }

  lemma FreshMerges(r: Request, f: File)
    ensures MergeRequest(NoRequest, r) == r && MergeFile(FRESH_FILE, f) == f
  {
  }

  /** Every message of the file protocol survives write then read: sizes up to 2^53-1, negative
      times, omitted defaults, and optional fields absent apart from present and zero or empty. */
  lemma MetaRoundTrip(m: Meta)
    requires FitsMeta(m)
    ensures MetaFromBinary(EncMeta(m)) == Success(m)
  {
    hide EncMeta, MetaAt, At, MergeMeta, FitsMeta, FRESH_META;
    var b := EncMeta(m);
    NothingLeft(b, m, FRESH_CHUNK, NoRequest, FRESH_FILE);
    ReadMergesMeta(b, 0, |b|, m, FRESH_META);
  }

  /** So does every size from 0 to 2^53-1 and every time from -(2^53-1) to 2^53-1, and every skip and
      limit of that range, absent or present. */
  lemma NumbersRoundTrip(m: Meta, c: Chunk, size: int, time: int, skip: Option<int>, limit: Option<int>)
    requires FitsMeta(m) && Fits(c.id)
    requires 0 <= size <= 9007199254740991 && -9007199254740991 <= time <= 9007199254740991
    requires skip.Some? ==> 0 <= skip.value <= 9007199254740991
    requires limit.Some? ==> 0 <= limit.value <= 9007199254740991
    ensures var sent := m.(size := size, lastModified := time);
            MetaFromBinary(EncMeta(sent)) == Success(sent)
    ensures var sent := c.(skip := OptionalNat(skip), limit := OptionalNat(limit));
            ChunkFromBinary(EncChunk(sent)) == Success(sent)
  {
    hide EncMeta, EncChunk, MetaFromBinary, ChunkFromBinary;
    MetaRoundTrip(m.(size := size, lastModified := time));
    ChunkRoundTrip(c.(skip := OptionalNat(skip), limit := OptionalNat(limit)));
  }

  function OptionalNat(n: Option<int>): (r: Option<SafeNat>)
    requires n.Some? ==> 0 <= n.value <= 9007199254740991
    ensures r == n
  {
    match n
    case None => None
    case Some(value) => Some(value)
  }

  lemma ChunkRoundTrip(c: Chunk)
    requires Fits(c.id)
    ensures ChunkFromBinary(EncChunk(c)) == Success(c)
  {
    hide EncChunk, ChunkAt, At, MergeChunk, Fits, FRESH_CHUNK;
    var b := EncChunk(c);
    NothingLeft(b, FRESH_META, c, NoRequest, FRESH_FILE);
    ReadMergesChunk(b, 0, |b|, c, FRESH_CHUNK);
  }

  lemma RequestRoundTrip(r: Request)
    requires FitsRequest(r)
    ensures RequestFromBinary(EncRequest(r)) == Success(r)
  {
    hide EncRequest, RequestAt, At, MergeRequest, FitsRequest;
    var b := EncRequest(r);
    NothingLeft(b, FRESH_META, FRESH_CHUNK, r, FRESH_FILE);
    FreshMerges(r, FRESH_FILE);
    ReadMergesRequest(b, 0, |b|, r, NoRequest);
  }

  lemma FileRoundTrip(f: File)
    requires FitsFile(f)
    ensures FileFromBinary(EncFile(f)) == Success(f)
  {
    hide EncFile, FileAt, At, MergeFile, FitsFile, FRESH_FILE;
    var b := EncFile(f);
    NothingLeft(b, FRESH_META, FRESH_CHUNK, NoRequest, f);
    FreshMerges(NoRequest, f);
    ReadMergesFile(b, 0, |b|, f, FRESH_FILE);
  }

  // ---------------------------------------------------------------- the format, field by field

  /** The fields under their numbers, left out where they are empty, zero or absent: the tags are given
      as bytes. */
  lemma MetaLayout(m: Meta)
    ensures EncMeta(m)
         == (if m.name == [] then [] else [0x0A] + Delimited(m.name))
            + (if m.mime == [] then [] else [0x12] + Delimited(m.mime))
            + (if m.size == 0 then [] else [0x18] + EncInt(m.size))
            + (if m.lastModified == 0 then [] else [0x20] + EncInt(m.lastModified))
            + (if m.preview.None? then [] else [0x2A] + Delimited(m.preview.value))
  {
    MetaPieces(m);
    MetaPieceLayout(m);
    hide EncMeta, MetaPiece, EncInt, Delimited;
    var p1, p2, p3, p4, p5 := MetaPiece(m, 1), MetaPiece(m, 2), MetaPiece(m, 3), MetaPiece(m, 4), MetaPiece(m, 5);
    Reassociate([], p1, p2, p3, p4, p5);
    assert [] + p1 == p1 && [] + (p1 + (p2 + (p3 + (p4 + p5)))) == p1 + (p2 + (p3 + (p4 + p5)));
  }

  lemma MetaPieceLayout(m: Meta)
    ensures MetaPiece(m, 1) == if m.name == [] then [] else [0x0A] + Delimited(m.name)
    ensures MetaPiece(m, 2) == if m.mime == [] then [] else [0x12] + Delimited(m.mime)
    ensures MetaPiece(m, 3) == if m.size == 0 then [] else [0x18] + EncInt(m.size)
    ensures MetaPiece(m, 4) == if m.lastModified == 0 then [] else [0x20] + EncInt(m.lastModified)
    ensures MetaPiece(m, 5) == if m.preview.None? then [] else [0x2A] + Delimited(m.preview.value)
  {
    hide EncInt, Delimited;
  }

  lemma ChunkLayout(c: Chunk)
    ensures EncChunk(c)
         == (if c.id == [] then [] else [0x0A] + Delimited(c.id))
            + (if c.skip.None? then [] else [0x10] + EncInt(c.skip.value))
            + (if c.limit.None? then [] else [0x18] + EncInt(c.limit.value))
  {
    assert EncTag(1, LengthDelimited) == [0x0A] && EncTag(2, Varint) == [0x10] && EncTag(3, Varint) == [0x18];
    hide EncTag, EncInt, Delimited;
  }

  lemma RequestLayout(r: Request)
    ensures EncRequest(r) ==
            match r
            case NoRequest => []
            case MetaRequest(id) => [0x0A] + Delimited(id)
            case Receive(chunk) => [0x12] + Delimited(EncChunk(chunk))
            case Send(meta) => [0x1A] + Delimited(EncMeta(meta))
  {
    hide Delimited, EncChunk, EncMeta;
  }

  lemma FileLayout(f: File)
    ensures EncFile(f)
         == (if f.meta.None? then [] else [0x0A] + Delimited(EncMeta(f.meta.value)))
            + (if f.contentPath == [] then [] else [0x12] + Delimited(f.contentPath))
  {
    hide Delimited, EncMeta;
  }

  /** Of two messages behind one another the last wins in every field that it carries. */
  lemma LastMetaWins(m: Meta, n: Meta)
    requires FitsMeta(m) && FitsMeta(n)
    ensures MetaFromBinary(EncMeta(m) + EncMeta(n)) == Success(Meta(
              if n.name == [] then m.name else n.name,
              if n.mime == [] then m.mime else n.mime,
              if n.size == 0 then m.size else n.size,
              if n.lastModified == 0 then m.lastModified else n.lastModified,
              if n.preview.None? then m.preview else n.preview))
  {
    hide EncMeta, MetaAt, At, FitsMeta;
    var b := EncMeta(m) + EncMeta(n);
    NothingLeft(b, MergeMeta(m, n), FRESH_CHUNK, NoRequest, FRESH_FILE);
    NothingLeft([], m, FRESH_CHUNK, NoRequest, FRESH_FILE);
    AtSplit(b, 0, EncMeta(m), EncMeta(n));
    ReadMergesMeta(b, 0, |b|, m, FRESH_META);
    ReadMergesMeta(b, |EncMeta(m)|, |b|, n, m);
  }

  lemma LastChunkWins(c: Chunk, d: Chunk)
    requires Fits(c.id) && Fits(d.id)
    ensures ChunkFromBinary(EncChunk(c) + EncChunk(d)) == Success(Chunk(
              if d.id == [] then c.id else d.id,
              if d.skip.None? then c.skip else d.skip,
              if d.limit.None? then c.limit else d.limit))
  {
    hide EncChunk, ChunkAt, At, Fits;
    var b := EncChunk(c) + EncChunk(d);
    NothingLeft(b, FRESH_META, MergeChunk(c, d), NoRequest, FRESH_FILE);
    NothingLeft([], FRESH_META, c, NoRequest, FRESH_FILE);
    AtSplit(b, 0, EncChunk(c), EncChunk(d));
    ReadMergesChunk(b, 0, |b|, c, FRESH_CHUNK);
    ReadMergesChunk(b, |EncChunk(c)|, |b|, d, c);
  }

  /** A Request of the same kind is merged as its Meta or its Chunk is, one of another kind replaces. */
  lemma LastRequestWins(r: Request, q: Request)
    requires FitsRequest(r) && FitsRequest(q)
    ensures var both := RequestFromBinary(EncRequest(r) + EncRequest(q));
            && both.Success?
            && (q.NoRequest? ==> both.value == r)
            && (q.MetaRequest? ==> both.value == q)
            && (q.Send? ==>
                  && both.value.Send?
                  && Success(both.value.meta)
                     == MetaFromBinary(if r.Send? then EncMeta(r.meta) + EncMeta(q.meta) else EncMeta(q.meta)))
            && (q.Receive? ==>
                  && both.value.Receive?
                  && Success(both.value.chunk)
                     == ChunkFromBinary(
                          if r.Receive? then EncChunk(r.chunk) + EncChunk(q.chunk) else EncChunk(q.chunk)))
  {
    RequestsMerge(r, q);
    hide RequestFromBinary, MetaFromBinary, ChunkFromBinary, EncRequest, EncMeta, EncChunk, FitsMeta, Fits;
    match q
    case Send(n) =>
      if r.Send? {
        LastMetaWins(r.meta, n);
      } else {
        MetaRoundTrip(n);
      }
    case Receive(d) =>
      if r.Receive? {
        LastChunkWins(r.chunk, d);
      } else {
        ChunkRoundTrip(d);
      }
    case _ =>
  }

  lemma RequestsMerge(r: Request, q: Request)
    requires FitsRequest(r) && FitsRequest(q)
    ensures RequestFromBinary(EncRequest(r) + EncRequest(q)) == Success(MergeRequest(r, q))
  {
    hide EncRequest, RequestAt, At, MergeRequest, FitsRequest;
    var b := EncRequest(r) + EncRequest(q);
    NothingLeft(b, FRESH_META, FRESH_CHUNK, MergeRequest(r, q), FRESH_FILE);
    FreshMerges(r, FRESH_FILE);
    AtSplit(b, 0, EncRequest(r), EncRequest(q));
    ReadMergesRequest(b, 0, |b|, r, NoRequest);
    ReadMergesRequest(b, |EncRequest(r)|, |b|, q, r);
  }

  /** A File takes over the later path and merges the two Metas. */
  lemma LastFileWins(f: File, g: File)
    requires FitsFile(f) && FitsFile(g)
    ensures var both := FileFromBinary(EncFile(f) + EncFile(g));
            && both.Success?
            && both.value.contentPath == (if g.contentPath == [] then f.contentPath else g.contentPath)
            && (g.meta.None? ==> both.value.meta == f.meta)
            && (f.meta.None? ==> both.value.meta == g.meta)
            && (f.meta.Some? && g.meta.Some? ==>
                  && both.value.meta.Some?
                  && Success(both.value.meta.value) == MetaFromBinary(EncMeta(f.meta.value) + EncMeta(g.meta.value)))
  {
    FilesMerge(f, g);
    hide FileFromBinary, MetaFromBinary, EncFile, EncMeta, FitsMeta, Fits;
    if f.meta.Some? && g.meta.Some? {
      LastMetaWins(f.meta.value, g.meta.value);
    }
  }

  lemma FilesMerge(f: File, g: File)
    requires FitsFile(f) && FitsFile(g)
    ensures FileFromBinary(EncFile(f) + EncFile(g)) == Success(MergeFile(f, g))
  {
    hide EncFile, FileAt, At, MergeFile, FitsFile, FRESH_FILE;
    var b := EncFile(f) + EncFile(g);
    NothingLeft(b, FRESH_META, FRESH_CHUNK, NoRequest, MergeFile(f, g));
    FreshMerges(NoRequest, f);
    AtSplit(b, 0, EncFile(f), EncFile(g));
    ReadMergesFile(b, 0, |b|, f, FRESH_FILE);
    ReadMergesFile(b, |EncFile(f)|, |b|, g, f);
  }

  // ---------------------------------------------------------------- unknown fields

  /** A field of a later version is skipped whole by all four readers. */
  lemma UnknownFieldIsSkipped(b: Bytes, pos: nat, end: nat, u: Unknown, m: Meta, c: Chunk, r: Request, f: File)
    requires WfUnknown(u) && At(b, pos, EncUnknown(u)) && pos + |EncUnknown(u)| <= end
    ensures var next := pos + |EncUnknown(u)|;
            && (u.no > 5 ==> MetaAt(b, pos, end, m) == MetaAt(b, next, end, m))
            && (u.no > 3 ==> ChunkAt(b, pos, end, c) == ChunkAt(b, next, end, c))
            && (u.no > 3 ==> RequestAt(b, pos, end, r) == RequestAt(b, next, end, r))
            && (u.no > 2 ==> FileAt(b, pos, end, f) == FileAt(b, next, end, f))
  {
    hide *;
    SkipsUnknown(b, pos, u);
    UnknownIsBehind(b, pos, u);
    var tag, p, next := Tag(u.no, TypeOf(u.payload)), pos + |EncTag(u.no, TypeOf(u.payload))|, pos + |EncUnknown(u)|;
    if u.no > 2 {
      FileSkips(b, pos, p, next, end, tag, f);
    }
    if u.no > 3 {
      ChunkSkips(b, pos, p, next, end, tag, c);
      RequestSkips(b, pos, p, next, end, tag, r);
    }
    if u.no > 5 {
      MetaSkips(b, pos, p, next, end, tag, m);
    }
  }

  lemma MetaSkips(b: Bytes, pos: nat, p: nat, next: nat, end: nat, tag: Tag, message: Meta)
    requires pos < next <= end && next <= |b| && p <= |b| && tag.fieldNo > 5
    requires TagAt(b, pos) == Got(tag, p) && SkipAt(b, p, tag.wireType) == Got((), next)
    ensures MetaAt(b, pos, end, message) == MetaAt(b, next, end, message)
  {
    hide TagAt, SkipAt, BytesAt, SafeNatAt, SafeIntAt;
  }

  lemma ChunkSkips(b: Bytes, pos: nat, p: nat, next: nat, end: nat, tag: Tag, message: Chunk)
    requires pos < next <= end && next <= |b| && p <= |b| && tag.fieldNo > 3
    requires TagAt(b, pos) == Got(tag, p) && SkipAt(b, p, tag.wireType) == Got((), next)
    ensures ChunkAt(b, pos, end, message) == ChunkAt(b, next, end, message)
  {
    hide TagAt, SkipAt, BytesAt, SafeNatAt;
  }

  lemma RequestSkips(b: Bytes, pos: nat, p: nat, next: nat, end: nat, tag: Tag, message: Request)
    requires pos < next <= end && next <= |b| && p <= |b| && tag.fieldNo > 3
    requires TagAt(b, pos) == Got(tag, p) && SkipAt(b, p, tag.wireType) == Got((), next)
    ensures RequestAt(b, pos, end, message) == RequestAt(b, next, end, message)
  {
    hide TagAt, SkipAt, BytesAt, SubChunkAt, SubMetaAt;
  }

  lemma FileSkips(b: Bytes, pos: nat, p: nat, next: nat, end: nat, tag: Tag, message: File)
    requires pos < next <= end && next <= |b| && p <= |b| && tag.fieldNo > 2
    requires TagAt(b, pos) == Got(tag, p) && SkipAt(b, p, tag.wireType) == Got((), next)
    ensures FileAt(b, pos, end, message) == FileAt(b, next, end, message)
  {
    hide TagAt, SkipAt, BytesAt, SubMetaAt;
  }

  // ---------------------------------------------------------------- the readers

  /** Meta.internalBinaryRead */
  method ReadMeta(reader: Reader, length: nat, target: Meta) returns (r: Result<Meta>)
    requires reader.Valid()
    modifies reader
    ensures reader.Valid()
    ensures Agrees(r, reader.pos, MetaAt(reader.buf, old(reader.pos), old(reader.pos) + length, target))
  {
    hide TagAt, BytesAt, SafeNatAt, SafeIntAt, SkipAt;
    var message, end := target, reader.pos + length;
    while reader.pos < end
      invariant reader.Valid() && old(reader.pos) <= reader.pos
      invariant MetaAt(reader.buf, reader.pos, end, message) == MetaAt(reader.buf, old(reader.pos), end, target)
      decreases |reader.buf| - reader.pos
    {
      var tag :- reader.Tag();
      match tag.fieldNo
      case 1 =>
        var name :- reader.Bytes();
        message := message.(name := name);
      case 2 =>
        var mime :- reader.Bytes();
        message := message.(mime := mime);
      case 3 =>
        var size :- reader.SafeNat();
        message := message.(size := size);
      case 4 =>
        var time :- reader.SafeInt();
        message := message.(lastModified := time);
      case 5 =>
        var preview :- reader.Bytes();
        message := message.(preview := Some(preview));
      case _ =>
        var _ :- reader.Skip(tag.wireType);
    }
    r := Success(message);
  }

  method ReadSubMeta(reader: Reader, target: Meta) returns (r: Result<Meta>)
    requires reader.Valid()
    modifies reader
    ensures reader.Valid() && Agrees(r, reader.pos, SubMetaAt(reader.buf, old(reader.pos), target))
  {
    var length :- reader.Uint32();
    r := ReadMeta(reader, length, target);
  }

  /** Chunk.internalBinaryRead */
  method ReadChunk(reader: Reader, length: nat, target: Chunk) returns (r: Result<Chunk>)
    requires reader.Valid()
    modifies reader
    ensures reader.Valid()
    ensures Agrees(r, reader.pos, ChunkAt(reader.buf, old(reader.pos), old(reader.pos) + length, target))
  {
    hide TagAt, BytesAt, SafeNatAt, SafeIntAt, SkipAt;
    var message, end := target, reader.pos + length;
    while reader.pos < end
      invariant reader.Valid() && old(reader.pos) <= reader.pos
      invariant ChunkAt(reader.buf, reader.pos, end, message) == ChunkAt(reader.buf, old(reader.pos), end, target)
      decreases |reader.buf| - reader.pos
    {
      var tag :- reader.Tag();
      match tag.fieldNo
      case 1 =>
        var id :- reader.Bytes();
        message := message.(id := id);
      case 2 =>
        var skip :- reader.SafeNat();
        message := message.(skip := Some(skip));
      case 3 =>
        var limit :- reader.SafeNat();
        message := message.(limit := Some(limit));
      case _ =>
        var _ :- reader.Skip(tag.wireType);
    }
    r := Success(message);
  }

  method ReadSubChunk(reader: Reader, target: Chunk) returns (r: Result<Chunk>)
    requires reader.Valid()
    modifies reader
    ensures reader.Valid() && Agrees(r, reader.pos, SubChunkAt(reader.buf, old(reader.pos), target))
  {
    var length :- reader.Uint32();
    r := ReadChunk(reader, length, target);
  }

  /** Request.internalBinaryRead */
  method ReadRequest(reader: Reader, length: nat, target: Request) returns (r: Result<Request>)
    requires reader.Valid()
    modifies reader
    ensures reader.Valid()
    ensures Agrees(r, reader.pos, RequestAt(reader.buf, old(reader.pos), old(reader.pos) + length, target))
  {
    hide TagAt, BytesAt, SafeNatAt, SafeIntAt, SkipAt, SubChunkAt, SubMetaAt;
    var message, end := target, reader.pos + length;
    while reader.pos < end
      invariant reader.Valid() && old(reader.pos) <= reader.pos
      invariant RequestAt(reader.buf, reader.pos, end, message) == RequestAt(reader.buf, old(reader.pos), end, target)
      decreases |reader.buf| - reader.pos
    {
      var tag :- reader.Tag();
      match tag.fieldNo
      case 1 =>
        var id :- reader.Bytes();
        message := MetaRequest(id);
      case 2 =>
        var chunk :- ReadSubChunk(reader, ChunkOf(message));
        message := Receive(chunk);
      case 3 =>
        var meta :- ReadSubMeta(reader, SentMeta(message));
        message := Send(meta);
      case _ =>
        var _ :- reader.Skip(tag.wireType);
    }
    r := Success(message);
  }

  /** File.internalBinaryRead */
  method ReadFile(reader: Reader, length: nat, target: File) returns (r: Result<File>)
    requires reader.Valid()
    modifies reader
    ensures reader.Valid()
    ensures Agrees(r, reader.pos, FileAt(reader.buf, old(reader.pos), old(reader.pos) + length, target))
  {
    hide TagAt, BytesAt, SafeNatAt, SafeIntAt, SkipAt, SubMetaAt;
    var message, end := target, reader.pos + length;
    while reader.pos < end
      invariant reader.Valid() && old(reader.pos) <= reader.pos
      invariant FileAt(reader.buf, reader.pos, end, message) == FileAt(reader.buf, old(reader.pos), end, target)
      decreases |reader.buf| - reader.pos
    {
      var tag :- reader.Tag();
      match tag.fieldNo
      case 1 =>
        var meta :- ReadSubMeta(reader, MetaOf(message));
        message := message.(meta := Some(meta));
      case 2 =>
        var path :- reader.Bytes();
        message := message.(contentPath := path);
      case _ =>
        var _ :- reader.Skip(tag.wireType);
    }
    r := Success(message);
  }

  // ---------------------------------------------------------------- the writers

  lemma Reassociate(b: Bytes, e1: Bytes, e2: Bytes, e3: Bytes, e4: Bytes, e5: Bytes)
    ensures b + e1 + e2 + e3 + e4 + e5 == b + (e1 + (e2 + (e3 + (e4 + e5))))
  {
    assert b + e1 + e2 + e3 + e4 + e5 == b + e1 + e2 + e3 + (e4 + e5);
    assert b + e1 + e2 + e3 + (e4 + e5) == b + e1 + e2 + (e3 + (e4 + e5));
    assert b + e1 + e2 + (e3 + (e4 + e5)) == b + e1 + (e2 + (e3 + (e4 + e5)));
  }

  /** Meta.internalBinaryWrite */
  method WriteMeta(writer: Writer, message: Meta) returns (r: Result<()>)
    modifies writer
    ensures r.Success? <==> FitsMeta(message)
    ensures r.Success? ==> writer.buf == old(writer.buf) + EncMeta(message) && writer.stack == old(writer.stack)
  {
    hide StringFieldOf, IntFieldOf, OptionalBytesOf, Fits;
    var _ :- writer.StringField(1, message.name);
    var _ :- writer.StringField(2, message.mime);
    writer.IntField(3, message.size);
    writer.IntField(4, message.lastModified);
    var _ :- writer.OptionalBytes(5, message.preview);
    Reassociate(old(writer.buf), StringFieldOf(1, message.name), StringFieldOf(2, message.mime),
                IntFieldOf(3, message.size), IntFieldOf(4, message.lastModified), OptionalBytesOf(5, message.preview));
    r := Success(());
  }

  /** Chunk.internalBinaryWrite */
  method WriteChunk(writer: Writer, message: Chunk) returns (r: Result<()>)
    modifies writer
    ensures r.Success? <==> Fits(message.id)
    ensures r.Success? ==> writer.buf == old(writer.buf) + EncChunk(message) && writer.stack == old(writer.stack)
  {
    hide StringFieldOf, OptionalIntOf, Fits;
    var _ :- writer.StringField(1, message.id);
    writer.OptionalInt(2, message.skip);
    writer.OptionalInt(3, message.limit);
    assert writer.buf == old(writer.buf) + EncChunk(message);
    r := Success(());
  }

  /** Request.internalBinaryWrite */
  method WriteRequest(writer: Writer, message: Request) returns (r: Result<()>)
    modifies writer
    ensures r.Success? <==> FitsRequest(message)
    ensures r.Success? ==> writer.buf == old(writer.buf) + EncRequest(message) && writer.stack == old(writer.stack)
  {
    hide EncTag, Delimited, EncMeta, EncChunk, FitsMeta;
    ghost var before := writer.buf;
    match message {
      case NoRequest =>
      case MetaRequest(id) =>
        writer.Tag(1, LengthDelimited);
        var _ :- writer.Bytes(id);
        assert writer.buf == before + (EncTag(1, LengthDelimited) + Delimited(id));
      case Receive(chunk) =>
        writer.Tag(2, LengthDelimited);
        writer.Fork();
        var _ :- WriteChunk(writer, chunk);
        assert writer.buf == EncChunk(chunk);
        var _ :- writer.Join();
        assert writer.buf == before + (EncTag(2, LengthDelimited) + Delimited(EncChunk(chunk)));
      case Send(meta) =>
        writer.Tag(3, LengthDelimited);
        writer.Fork();
        var _ :- WriteMeta(writer, meta);
        assert writer.buf == EncMeta(meta);
        var _ :- writer.Join();
        assert writer.buf == before + (EncTag(3, LengthDelimited) + Delimited(EncMeta(meta)));
    }
    r := Success(());
  }

  /** File.internalBinaryWrite */
  method WriteFile(writer: Writer, message: File) returns (r: Result<()>)
    modifies writer
    ensures r.Success? <==> FitsFile(message)
    ensures r.Success? ==> writer.buf == old(writer.buf) + EncFile(message) && writer.stack == old(writer.stack)
  {
    hide EncTag, Delimited, EncMeta, FitsMeta;
    ghost var before := writer.buf;
    if message.meta.Some? {
      writer.Tag(1, LengthDelimited);
      writer.Fork();
      var _ :- WriteMeta(writer, message.meta.value);
      assert writer.buf == EncMeta(message.meta.value);
      var _ :- writer.Join();
      assert writer.buf == before + (EncTag(1, LengthDelimited) + Delimited(EncMeta(message.meta.value)));
    }
    var e1 := OptionalBytesOf(1, if message.meta.Some? then Some(EncMeta(message.meta.value)) else None);
    assert writer.buf == before + e1;
    var _ :- writer.StringField(2, message.contentPath);
    assert writer.buf == before + (e1 + StringFieldOf(2, message.contentPath));
    r := Success(());
  }
}

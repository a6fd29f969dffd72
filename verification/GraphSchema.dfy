/** The messages of the graph protocol: Request and Result. */
module GraphSchema {
  import opened Wire
  import opened StructCodec

  datatype Request = Request(query: Bytes, variableValues: Option<Value>, operationName: Bytes, subscribe: bool)
  // The oneof dataOrError.
  datatype Outcome = NoOutcome | Data(data: Value) | Error(error: Value)

  const FRESH_REQUEST := Request([], None, [], false)

  predicate WfRequest(r: Request) {
    r.variableValues.Some? ==> Wf(r.variableValues.value)
  }

  predicate WfOutcome(o: Outcome) {
    match o
    case NoOutcome => true
    case Data(v) => Wf(v)
    case Error(v) => Wf(v)
  }

  predicate FitsRequest(r: Request) {
    && Fits(r.query) && Fits(r.operationName)
    && (r.variableValues.Some? ==> FitsValue(r.variableValues.value) && Fits(EncValue(r.variableValues.value)))
  }

  predicate FitsOutcome(o: Outcome) {
    match o
    case NoOutcome => true
    case Data(v) => FitsValue(v) && Fits(EncValue(v))
    case Error(v) => FitsValue(v) && Fits(EncValue(v))
  }

  // ---------------------------------------------------------------- the encodings

  function VariablesOf(r: Request): Option<Bytes> {
    if r.variableValues.Some? then Some(EncValue(r.variableValues.value)) else None
  }

  function EncRequest(r: Request): Bytes {
    StringFieldOf(1, r.query) + (OptionalBytesOf(2, VariablesOf(r))
    + (StringFieldOf(3, r.operationName) + BoolFieldOf(4, r.subscribe)))
  }

  function EncOutcome(o: Outcome): Bytes {
    match o
    case NoOutcome => []
    case Data(v) => EncTag(1, LengthDelimited) + Delimited(EncValue(v))
    case Error(v) => EncTag(2, LengthDelimited) + Delimited(EncValue(v))
  }

  // ---------------------------------------------------------------- what a read does to its target

  function MergeRequest(t: Request, r: Request): Request {
    Request(
      if r.query == [] then t.query else r.query,
      if r.variableValues.None? then t.variableValues else Some(Merge(Variables(t), r.variableValues.value)),
      if r.operationName == [] then t.operationName else r.operationName,
      t.subscribe || r.subscribe)
  }

  function Variables(r: Request): Value {
    if r.variableValues.Some? then r.variableValues.value else Unset
  }

  // Only an outcome of the same kind is merged with the target's.
  function MergeOutcome(t: Outcome, o: Outcome): Outcome {
    match o
    case NoOutcome => t
    case Data(v) => Data(Merge(DataOf(t), v))
    case Error(v) => Error(Merge(ErrorOf(t), v))
  }

  function DataOf(o: Outcome): Value {
    if o.Data? then o.data else Unset
  }

  function ErrorOf(o: Outcome): Value {
    if o.Error? then o.error else Unset
  }

  // ---------------------------------------------------------------- what the readers compute

  function RequestAt(b: Bytes, pos: nat, end: nat, message: Request): (r: Parsed<Request>)
    requires pos <= |b|
    ensures r.Got? ==> pos <= r.pos <= |b|
    decreases |b| - pos
  {
    if pos >= end then Got(message, pos)
    else match TagAt(b, pos)
         case Bad => Bad
         case Got(tag, p) =>
           match RequestFieldAt(b, p, tag, message)
           case Bad => Bad
           case Got(m, q) => RequestAt(b, q, end, m)
  }

  function RequestFieldAt(b: Bytes, pos: nat, tag: Tag, message: Request): (r: Parsed<Request>)
    requires pos <= |b|
    ensures r.Got? ==> pos < r.pos <= |b|
  {
    match tag.fieldNo
    case 1 => (match BytesAt(b, pos) case Bad => Bad case Got(s, p) => Got(message.(query := s), p))
    case 2 =>
      (match SubValueAt(b, pos, Variables(message))
       case Bad => Bad
       case Got(v, p) => Got(message.(variableValues := Some(v)), p))
    case 3 => (match BytesAt(b, pos) case Bad => Bad case Got(s, p) => Got(message.(operationName := s), p))
    case 4 => (match BoolAt(b, pos) case Bad => Bad case Got(t, p) => Got(message.(subscribe := t), p))
    case _ => (match SkipAt(b, pos, tag.wireType) case Bad => Bad case Got(_, p) => Got(message, p))
  }

  function OutcomeAt(b: Bytes, pos: nat, end: nat, message: Outcome): (r: Parsed<Outcome>)
    requires pos <= |b|
    ensures r.Got? ==> pos <= r.pos <= |b|
    decreases |b| - pos
  {
    if pos >= end then Got(message, pos)
    else match TagAt(b, pos)
         case Bad => Bad
         case Got(tag, p) =>
           match OutcomeFieldAt(b, p, tag, message)
           case Bad => Bad
           case Got(m, q) => OutcomeAt(b, q, end, m)
  }

  function OutcomeFieldAt(b: Bytes, pos: nat, tag: Tag, message: Outcome): (r: Parsed<Outcome>)
    requires pos <= |b|
    ensures r.Got? ==> pos < r.pos <= |b|
  {
    match tag.fieldNo
    case 1 => (match SubValueAt(b, pos, DataOf(message)) case Bad => Bad case Got(v, p) => Got(Data(v), p))
    case 2 => (match SubValueAt(b, pos, ErrorOf(message)) case Bad => Bad case Got(v, p) => Got(Error(v), p))
    case _ => (match SkipAt(b, pos, tag.wireType) case Bad => Bad case Got(_, p) => Got(message, p))
  }

  // ---------------------------------------------------------------- reading merges

  /** Reading the bytes of a Request merges it into the target, field by field. */
  lemma ReadMergesRequest(b: Bytes, pos: nat, end: nat, r: Request, t: Request)
    requires WfRequest(r) && FitsRequest(r) && At(b, pos, EncRequest(r)) && pos + |EncRequest(r)| <= end
    ensures RequestAt(b, pos, end, t) == RequestAt(b, pos + |EncRequest(r)|, end, MergeRequest(t, r))
  {
    hide At, RequestAt, Merge, StringFieldOf, OptionalBytesOf, BoolFieldOf, Wf, FitsValue, Fits;
    var e1, e2 := StringFieldOf(1, r.query), OptionalBytesOf(2, VariablesOf(r));
    var e3, e4 := StringFieldOf(3, r.operationName), BoolFieldOf(4, r.subscribe);
    var p2, p3, p4 := pos + |e1|, pos + |e1| + |e2|, pos + |e1| + |e2| + |e3|;
    AtSplit(b, pos, e1, e2 + (e3 + e4));
    AtSplit(b, p2, e2, e3 + e4);
    AtSplit(b, p3, e3, e4);
    ReadMergesString(b, pos, end, r, t, 1);
    var t2 := t.(query := MergeRequest(t, r).query);
    ReadMergesVariables(b, p2, end, r, t2);
    var t3 := t2.(variableValues := MergeRequest(t, r).variableValues);
    ReadMergesString(b, p3, end, r, t3, 3);
    var t4 := t3.(operationName := MergeRequest(t, r).operationName);
    ReadMergesSubscribe(b, p4, end, r, t4);
  }

  lemma ReadMergesString(b: Bytes, pos: nat, end: nat, r: Request, t: Request, no: nat)
    requires FitsRequest(r) && (no == 1 || no == 3)
    requires var e := StringFieldOf(no, if no == 1 then r.query else r.operationName);
             At(b, pos, e) && pos + |e| <= end
    ensures var e := StringFieldOf(no, if no == 1 then r.query else r.operationName);
            RequestAt(b, pos, end, t) == RequestAt(b, pos + |e|, end,
              if no == 1 then t.(query := MergeRequest(t, r).query)
              else t.(operationName := MergeRequest(t, r).operationName))
  {
    hide At, TagAt, BytesAt, Uint32At, SkipAt, BoolAt, SubValueAt, EncTag, Delimited, EncVarint, Merge;
    var s := if no == 1 then r.query else r.operationName;
    if s != [] {
      DelimitedFieldReadBack(b, pos, no, s);
    }
  }

  lemma ReadMergesVariables(b: Bytes, pos: nat, end: nat, r: Request, t: Request)
    requires WfRequest(r) && FitsRequest(r)
    requires At(b, pos, OptionalBytesOf(2, VariablesOf(r))) && pos + |OptionalBytesOf(2, VariablesOf(r))| <= end
    ensures RequestAt(b, pos, end, t)
         == RequestAt(b, pos + |OptionalBytesOf(2, VariablesOf(r))|, end,
              t.(variableValues := MergeRequest(t, r).variableValues))
  {
    hide At, TagAt, BytesAt, Uint32At, SkipAt, BoolAt, SubValueAt, EncTag, Delimited, EncVarint, Merge, EncValue;
    if r.variableValues.Some? {
      var e := EncValue(r.variableValues.value);
      DelimitedFieldReadBack(b, pos, 2, e);
      AtSplit(b, pos, EncTag(2, LengthDelimited), Delimited(e));
      ReadMergesSubValue(b, pos + |EncTag(2, LengthDelimited)|, r.variableValues.value, Variables(t));
    }
  }

  lemma ReadMergesSubscribe(b: Bytes, pos: nat, end: nat, r: Request, t: Request)
    requires At(b, pos, BoolFieldOf(4, r.subscribe)) && pos + |BoolFieldOf(4, r.subscribe)| <= end
    ensures RequestAt(b, pos, end, t)
         == RequestAt(b, pos + |BoolFieldOf(4, r.subscribe)|, end, t.(subscribe := MergeRequest(t, r).subscribe))
  {
    hide At, TagAt, BytesAt, SkipAt, BoolAt, SubValueAt, EncTag, EncBool, Merge;
    if r.subscribe {
      BoolFieldReadBack(b, pos, 4, true);
    }
  }

  /** Reading the bytes of a Result merges within its kind and replaces across kinds. */
  lemma ReadMergesOutcome(b: Bytes, pos: nat, end: nat, o: Outcome, t: Outcome)
    requires WfOutcome(o) && FitsOutcome(o) && At(b, pos, EncOutcome(o)) && pos + |EncOutcome(o)| <= end
    ensures OutcomeAt(b, pos, end, t) == OutcomeAt(b, pos + |EncOutcome(o)|, end, MergeOutcome(t, o))
  {
    hide At, TagAt, BytesAt, Uint32At, SkipAt, SubValueAt, EncTag, Delimited, EncVarint, Merge, EncValue, Wf, FitsValue;
    if o != NoOutcome {
      var no, v := if o.Data? then 1 else 2, if o.Data? then o.data else o.error;
      DelimitedFieldReadBack(b, pos, no, EncValue(v));
      AtSplit(b, pos, EncTag(no, LengthDelimited), Delimited(EncValue(v)));
      ReadMergesSubValue(b, pos + |EncTag(no, LengthDelimited)|, v, if o.Data? then DataOf(t) else ErrorOf(t));
    }
  }

  // Request.fromBinary, Result.fromBinary
  function RequestFromBinary(data: Bytes): Result<Request> {
    match RequestAt(data, 0, |data|, FRESH_REQUEST)
    case Bad => Failure
    case Got(r, _) => Success(r)
  }

  function OutcomeFromBinary(data: Bytes): Result<Outcome> {
    match OutcomeAt(data, 0, |data|, NoOutcome)
    case Bad => Failure
    case Got(o, _) => Success(o)
  }

  lemma RequestRoundTrip(r: Request)
    requires WfRequest(r) && FitsRequest(r)
    ensures RequestFromBinary(EncRequest(r)) == Success(r)
  {
    hide EncRequest, Wf, FitsValue;
    var b := EncRequest(r);
    ReadMergesRequest(b, 0, |b|, r, FRESH_REQUEST);
    if r.variableValues.Some? {
      MergeIntoFresh(r.variableValues.value);
    }
    assert MergeRequest(FRESH_REQUEST, r) == r;
  }

  lemma OutcomeRoundTrip(o: Outcome)
    requires WfOutcome(o) && FitsOutcome(o)
    ensures OutcomeFromBinary(EncOutcome(o)) == Success(o)
  {
    hide EncOutcome, Wf, FitsValue;
    var b := EncOutcome(o);
    ReadMergesOutcome(b, 0, |b|, o, NoOutcome);
    match o
    case NoOutcome =>
    case Data(v) => MergeIntoFresh(v);
    case Error(v) => MergeIntoFresh(v);
  }

  // ---------------------------------------------------------------- the format, field by field

  /** The fields under their numbers, left out where they are empty, absent or false: the tags are given
      as bytes. */
  lemma RequestLayout(r: Request)
    ensures EncRequest(r)
         == (if r.query == [] then [] else [0x0A] + Delimited(r.query))
            + (if r.variableValues.None? then [] else [0x12] + Delimited(EncValue(r.variableValues.value)))
            + (if r.operationName == [] then [] else [0x1A] + Delimited(r.operationName))
            + (if r.subscribe then [0x20, 0x01] else [])
  {
    assert EncTag(1, LengthDelimited) == [0x0A] && EncTag(2, LengthDelimited) == [0x12];
    assert EncTag(3, LengthDelimited) == [0x1A] && EncTag(4, Varint) + EncBool(true) == [0x20, 0x01];
    hide EncTag, EncBool, Delimited, EncValue;
    var e1, e2 := StringFieldOf(1, r.query), OptionalBytesOf(2, VariablesOf(r));
    var e3, e4 := StringFieldOf(3, r.operationName), BoolFieldOf(4, r.subscribe);
    assert e1 + (e2 + (e3 + e4)) == e1 + e2 + e3 + e4;
  }

  lemma OutcomeLayout(o: Outcome)
    ensures EncOutcome(o) ==
            match o
            case NoOutcome => []
            case Data(v) => [0x0A] + Delimited(EncValue(v))
            case Error(v) => [0x12] + Delimited(EncValue(v))
  {
    hide Delimited, EncValue;
  }

  lemma RequestsMerge(r: Request, q: Request)
    requires WfRequest(r) && FitsRequest(r) && WfRequest(q) && FitsRequest(q)
    ensures RequestFromBinary(EncRequest(r) + EncRequest(q)) == Success(MergeRequest(r, q))
  {
    hide EncRequest, RequestAt, At, Merge, Wf, FitsValue, Fits;
    var b := EncRequest(r) + EncRequest(q);
    RequestsEnd(b, MergeRequest(r, q));
    AtSplit(b, 0, EncRequest(r), EncRequest(q));
    ReadMergesRequest(b, 0, |b|, r, FRESH_REQUEST);
    if r.variableValues.Some? {
      MergeIntoFresh(r.variableValues.value);
    }
    assert MergeRequest(FRESH_REQUEST, r) == r;
    ReadMergesRequest(b, |EncRequest(r)|, |b|, q, r);
  }

  lemma RequestsEnd(b: Bytes, r: Request)
    ensures At(b, 0, b) && RequestAt(b, |b|, |b|, r) == Got(r, |b|)
  {
  }

  /** Of two requests behind one another the last wins in every field that it carries, but their
      variables are read as one value behind the other. */
  lemma LastRequestWins(r: Request, q: Request)
    requires WfRequest(r) && FitsRequest(r) && WfRequest(q) && FitsRequest(q)
    ensures var both := RequestFromBinary(EncRequest(r) + EncRequest(q));
            && both.Success?
            && both.value.query == (if q.query == [] then r.query else q.query)
            && both.value.operationName == (if q.operationName == [] then r.operationName else q.operationName)
            && both.value.subscribe == (r.subscribe || q.subscribe)
            && (q.variableValues.None? ==> both.value.variableValues == r.variableValues)
            && (r.variableValues.None? ==> both.value.variableValues == q.variableValues)
            && (r.variableValues.Some? && q.variableValues.Some? ==>
                  && both.value.variableValues.Some?
                  && Success(both.value.variableValues.value)
                     == FromBinary(EncValue(r.variableValues.value) + EncValue(q.variableValues.value)))
  {
    RequestsMerge(r, q);
    hide RequestFromBinary, EncRequest, Merge, Wf, FitsValue, ValueAt, Fits, EncValue;
    if q.variableValues.Some? {
      if r.variableValues.Some? {
        ValuesMerge(r.variableValues.value, q.variableValues.value);
      } else {
        MergeIntoFresh(q.variableValues.value);
      }
    }
  }

  lemma ValuesMerge(v: Value, w: Value)
    requires Wf(v) && FitsValue(v) && Wf(w) && FitsValue(w)
    ensures FromBinary(EncValue(v) + EncValue(w)) == Success(Merge(v, w))
  {
    hide ValueAt, EncValue, Merge, Wf, FitsValue;
    ConcatenationMerges(v, w, Unset);
    MergeIntoFresh(v);
  }

  /** A Result of the same kind is merged as its value is, one of the other kind replaces. */
  lemma LastOutcomeWins(o: Outcome, q: Outcome)
    requires WfOutcome(o) && FitsOutcome(o) && WfOutcome(q) && FitsOutcome(q)
    ensures var both := OutcomeFromBinary(EncOutcome(o) + EncOutcome(q));
            && both.Success?
            && (q.NoOutcome? ==> both.value == o)
            && (q.Data? ==>
                  && both.value.Data?
                  && Success(both.value.data)
                     == FromBinary(if o.Data? then EncValue(o.data) + EncValue(q.data) else EncValue(q.data)))
            && (q.Error? ==>
                  && both.value.Error?
                  && Success(both.value.error)
                     == FromBinary(if o.Error? then EncValue(o.error) + EncValue(q.error) else EncValue(q.error)))
  {
    OutcomesMerge(o, q);
    hide OutcomeFromBinary, EncOutcome, FromBinary, EncValue, Merge, Wf, FitsValue, Fits;
    match q
    case NoOutcome =>
    case Data(w) =>
      if o.Data? { ValuesMerge(o.data, w); } else { MergeIntoFresh(w); RoundTrip(w); }
    case Error(w) =>
      if o.Error? { ValuesMerge(o.error, w); } else { MergeIntoFresh(w); RoundTrip(w); }
  }

  lemma OutcomesMerge(o: Outcome, q: Outcome)
    requires WfOutcome(o) && FitsOutcome(o) && WfOutcome(q) && FitsOutcome(q)
    ensures OutcomeFromBinary(EncOutcome(o) + EncOutcome(q)) == Success(MergeOutcome(o, q))
  {
    hide EncOutcome, OutcomeAt, At, Merge, Wf, FitsValue, Fits;
    var b := EncOutcome(o) + EncOutcome(q);
    OutcomesEnd(b, MergeOutcome(o, q));
    AtSplit(b, 0, EncOutcome(o), EncOutcome(q));
    ReadMergesOutcome(b, 0, |b|, o, NoOutcome);
    match o {
      case NoOutcome =>
      case Data(v) => MergeIntoFresh(v);
      case Error(v) => MergeIntoFresh(v);
    }
    ReadMergesOutcome(b, |EncOutcome(o)|, |b|, q, o);
  }

  lemma OutcomesEnd(b: Bytes, o: Outcome)
    ensures At(b, 0, b) && OutcomeAt(b, |b|, |b|, o) == Got(o, |b|)
  {
  }

  /** A field of a later version is skipped whole. */
  lemma UnknownFieldIsSkipped(b: Bytes, pos: nat, end: nat, u: Unknown, r: Request, o: Outcome)
    requires WfUnknown(u) && At(b, pos, EncUnknown(u)) && pos + |EncUnknown(u)| <= end
    ensures var next := pos + |EncUnknown(u)|;
            && (u.no > 4 ==> RequestAt(b, pos, end, r) == RequestAt(b, next, end, r))
            && (u.no > 2 ==> OutcomeAt(b, pos, end, o) == OutcomeAt(b, next, end, o))
  {
    hide *;
    SkipsUnknown(b, pos, u);
    UnknownIsBehind(b, pos, u);
    var tag, p, next := Tag(u.no, TypeOf(u.payload)), pos + |EncTag(u.no, TypeOf(u.payload))|, pos + |EncUnknown(u)|;
    if u.no > 2 {
      OutcomeSkips(b, pos, p, next, end, tag, o);
    }
    if u.no > 4 {
      RequestSkips(b, pos, p, next, end, tag, r);
    }
  }

  lemma RequestSkips(b: Bytes, pos: nat, p: nat, next: nat, end: nat, tag: Tag, message: Request)
    requires pos < next <= end && next <= |b| && p <= |b| && tag.fieldNo > 4
    requires TagAt(b, pos) == Got(tag, p) && SkipAt(b, p, tag.wireType) == Got((), next)
    ensures RequestAt(b, pos, end, message) == RequestAt(b, next, end, message)
  {
    hide TagAt, SkipAt, BytesAt, BoolAt, SubValueAt;
  }

  lemma OutcomeSkips(b: Bytes, pos: nat, p: nat, next: nat, end: nat, tag: Tag, message: Outcome)
    requires pos < next <= end && next <= |b| && p <= |b| && tag.fieldNo > 2
    requires TagAt(b, pos) == Got(tag, p) && SkipAt(b, p, tag.wireType) == Got((), next)
    ensures OutcomeAt(b, pos, end, message) == OutcomeAt(b, next, end, message)
  {
    hide TagAt, SkipAt, SubValueAt;
  }

  // ---------------------------------------------------------------- the readers

  /** Request.internalBinaryRead */
  method ReadRequest(reader: Reader, length: nat, target: Request) returns (r: Result<Request>)
    requires reader.Valid()
    modifies reader
    ensures reader.Valid()
    ensures Agrees(r, reader.pos, RequestAt(reader.buf, old(reader.pos), old(reader.pos) + length, target))
  {
    hide TagAt, BytesAt, BoolAt, SkipAt, SubValueAt;
    var message, end := target, reader.pos + length;
    while reader.pos < end
      invariant reader.Valid() && old(reader.pos) <= reader.pos
      invariant RequestAt(reader.buf, reader.pos, end, message) == RequestAt(reader.buf, old(reader.pos), end, target)
      decreases |reader.buf| - reader.pos
    {
      var tag :- reader.Tag();
      match tag.fieldNo
      case 1 =>
        var query :- reader.Bytes();
        message := message.(query := query);
      case 2 =>
        var v :- ReadSubValue(reader, Variables(message));
        message := message.(variableValues := Some(v));
      case 3 =>
        var name :- reader.Bytes();
        message := message.(operationName := name);
      case 4 =>
        var subscribe :- reader.Bool();
        message := message.(subscribe := subscribe);
      case _ =>
        var _ :- reader.Skip(tag.wireType);
    }
    r := Success(message);
  }

  /** Result.internalBinaryRead */
  method ReadOutcome(reader: Reader, length: nat, target: Outcome) returns (r: Result<Outcome>)
    requires reader.Valid()
    modifies reader
    ensures reader.Valid()
    ensures Agrees(r, reader.pos, OutcomeAt(reader.buf, old(reader.pos), old(reader.pos) + length, target))
  {
    hide TagAt, SkipAt, SubValueAt;
    var message, end := target, reader.pos + length;
    while reader.pos < end
      invariant reader.Valid() && old(reader.pos) <= reader.pos
      invariant OutcomeAt(reader.buf, reader.pos, end, message) == OutcomeAt(reader.buf, old(reader.pos), end, target)
      decreases |reader.buf| - reader.pos
    {
      var tag :- reader.Tag();
      match tag.fieldNo
      case 1 =>
        var v :- ReadSubValue(reader, DataOf(message));
        message := Data(v);
      case 2 =>
        var v :- ReadSubValue(reader, ErrorOf(message));
        message := Error(v);
      case _ =>
        var _ :- reader.Skip(tag.wireType);
    }
    r := Success(message);
  }

  // ---------------------------------------------------------------- the writers

  /** Request.internalBinaryWrite */
  method WriteRequest(writer: Writer, message: Request) returns (r: Result<()>)
    modifies writer
    ensures r.Success? <==> FitsRequest(message)
    ensures r.Success? ==> writer.buf == old(writer.buf) + EncRequest(message) && writer.stack == old(writer.stack)
  {
    hide EncTag, Delimited, EncValue, FitsValue, Fits, StringFieldOf, BoolFieldOf;
    var _ :- writer.StringField(1, message.query);
    ghost var b1 := writer.buf;
    if message.variableValues.Some? {
      writer.Tag(2, LengthDelimited);
      writer.Fork();
      var _ :- WriteValue(writer, message.variableValues.value);
      assert writer.buf == EncValue(message.variableValues.value);
      var _ :- writer.Join();
      assert writer.buf == b1 + OptionalBytesOf(2, VariablesOf(message));
    }
    ghost var b2 := writer.buf;
    assert b2 == b1 + OptionalBytesOf(2, VariablesOf(message));
    var _ :- writer.StringField(3, message.operationName);
    writer.BoolField(4, message.subscribe);
    assert writer.buf == b2 + (StringFieldOf(3, message.operationName) + BoolFieldOf(4, message.subscribe));
    r := Success(());
  }

  /** Result.internalBinaryWrite */
  method WriteOutcome(writer: Writer, message: Outcome) returns (r: Result<()>)
    modifies writer
    ensures r.Success? <==> FitsOutcome(message)
    ensures r.Success? ==> writer.buf == old(writer.buf) + EncOutcome(message) && writer.stack == old(writer.stack)
  {
    hide EncTag, Delimited, EncValue, FitsValue, Fits;
    ghost var before := writer.buf;
    if message.Data? {
      writer.Tag(1, LengthDelimited);
      writer.Fork();
      var _ :- WriteValue(writer, message.data);
      assert writer.buf == EncValue(message.data);
      var _ :- writer.Join();
      assert writer.buf == before + EncOutcome(message);
    }
    if message.Error? {
      writer.Tag(2, LengthDelimited);
      writer.Fork();
      var _ :- WriteValue(writer, message.error);
      assert writer.buf == EncValue(message.error);
      var _ :- writer.Join();
      assert writer.buf == before + EncOutcome(message);
    }
    r := Success(());
  }
}

/** google.protobuf.Value, Struct and ListValue: the generated binary reader and
    writer, the encoding they agree on, and the merge a read performs on its target.

    A Struct's object is the sequence of its properties in Object.keys order, so
    a statement about every value is a statement about every order of the keys. */
module StructCodec {
  import opened Wire
  import opened Sequences

  datatype Value =
    | Unset
    | NullValue(n: Int32)
    | NumberValue(number: Double)
    | StringValue(s: Bytes)
    | BoolValue(b: bool)
    | StructValue(fields: seq<Field>)
    | ListValue(values: seq<Value>)

  datatype Field = Field(key: Bytes, value: Value)

  // ---------------------------------------------------------------- objects

  predicate DistinctKeys(fs: seq<Field>) {
    forall i, j :: 0 <= i < j < |fs| ==> fs[i].key != fs[j].key
  }

  /** What every JavaScript object satisfies: no key twice, at any depth. */
  predicate Wf(v: Value)
    decreases v, 0
  {
    match v
    case StructValue(fields) => WfStruct(fields)
    case ListValue(values) => WfList(values)
    case _ => true
  }

  predicate WfStruct(fs: seq<Field>)
    decreases fs, 0
  {
    fs == [] || (Wf(fs[0].value) && DistinctKeys(fs) && WfStruct(fs[1..]))
  }

  predicate WfList(vs: seq<Value>)
    decreases vs, 0
  {
    vs == [] || (Wf(vs[0]) && WfList(vs[1..]))
  }

  // map[key] = value: an existing property keeps its place, a new one comes last.
  function Put(fs: seq<Field>, f: Field): (r: seq<Field>) {
    if fs == [] then [f]
    else if fs[0].key == f.key then [f] + fs[1..]
    else [fs[0]] + Put(fs[1..], f)
  }

  function PutAll(target: seq<Field>, fs: seq<Field>): (r: seq<Field>)
    decreases |fs|
  {
    if fs == [] then target else PutAll(Put(target, fs[0]), fs[1..])
  }

  function AsMap(fs: seq<Field>): (m: map<Bytes, Value>) {
    if fs == [] then map[] else map[fs[0].key := fs[0].value] + AsMap(fs[1..])
  }

  /** What reading the bytes of `v` does to a target: structs take the new
      properties, lists grow, any other kind replaces, an unset kind changes nothing. */
  function Merge(target: Value, v: Value): (r: Value) {
    match v
    case Unset => target
    case StructValue(fields) => StructValue(PutAll(StructOf(target), fields))
    case ListValue(values) => ListValue(ListOf(target) + values)
    case _ => v
  }

  // (message.kind as any).structValue, or a fresh Struct.
  function StructOf(v: Value): seq<Field> {
    if v.StructValue? then v.fields else []
  }

  // (message.kind as any).listValue, or a fresh ListValue.
  function ListOf(v: Value): seq<Value> {
    if v.ListValue? then v.values else []
  }

  // ---------------------------------------------------------------- the encoding

  function EncValue(v: Value): Bytes
    decreases v, 0
  {
    match v
    case Unset => []
    case NullValue(n) => EncTag(1, Varint) + EncInt(n)
    case NumberValue(number) => EncTag(2, Bit64) + number
    case StringValue(s) => EncTag(3, LengthDelimited) + Delimited(s)
    case BoolValue(b) => EncTag(4, Varint) + EncBool(b)
    case StructValue(fields) => EncTag(5, LengthDelimited) + Delimited(EncStruct(fields))
    case ListValue(values) => EncTag(6, LengthDelimited) + Delimited(EncList(values))
  }

  function EncStruct(fs: seq<Field>): Bytes
    decreases fs, 0
  {
    if fs == [] then [] else EncEntry(fs[0]) + EncStruct(fs[1..])
  }

  function EncEntry(f: Field): Bytes
    decreases f, 2
  {
    EncTag(1, LengthDelimited) + Delimited(EncEntryBody(f))
  }

  function EncEntryBody(f: Field): Bytes
    decreases f, 1
  {
    (EncTag(1, LengthDelimited) + Delimited(f.key))
    + (EncTag(2, LengthDelimited) + Delimited(EncValue(f.value)))
  }

  function EncList(vs: seq<Value>): Bytes
    decreases vs, 0
  {
    if vs == [] then [] else EncItem(vs[0]) + EncList(vs[1..])
  }

  function EncItem(v: Value): Bytes
    decreases v, 1
  {
    EncTag(1, LengthDelimited) + Delimited(EncValue(v))
  }

  /** The writer does not throw: every length it prefixes fits. */
  predicate FitsValue(v: Value)
    decreases v, 0
  {
    match v
    case StringValue(s) => Fits(s)
    case StructValue(fields) => Fits(EncStruct(fields)) && FitsStruct(fields)
    case ListValue(values) => Fits(EncList(values)) && FitsList(values)
    case _ => true
  }

  predicate FitsStruct(fs: seq<Field>)
    decreases fs, 0
  {
    fs == [] || (FitsField(fs[0]) && FitsStruct(fs[1..]))
  }

  predicate FitsField(f: Field)
    decreases f, 1
  {
    Fits(f.key) && FitsValue(f.value) && Fits(EncValue(f.value)) && Fits(EncEntryBody(f))
  }

  predicate FitsList(vs: seq<Value>)
    decreases vs, 0
  {
    vs == [] || (FitsValue(vs[0]) && Fits(EncValue(vs[0])) && FitsList(vs[1..]))
  }

  // ---------------------------------------------------------------- what the readers compute

  function ValueAt(b: Bytes, pos: nat, end: nat, message: Value): (r: Parsed<Value>)
    requires pos <= |b|
    ensures r.Got? ==> pos <= r.pos <= |b|
    decreases |b| - pos, 0
  {
    if pos >= end then Got(message, pos)
    else match TagAt(b, pos)
         case Bad => Bad
         case Got(tag, p) =>
           match ValueFieldAt(b, p, tag, message)
           case Bad => Bad
           case Got(m, q) => ValueAt(b, q, end, m)
  }

  function ValueFieldAt(b: Bytes, pos: nat, tag: Tag, message: Value): (r: Parsed<Value>)
    requires pos <= |b|
    ensures r.Got? ==> pos < r.pos <= |b|
    decreases |b| - pos, 2
  {
    match tag.fieldNo
    case 1 => (match Int32At(b, pos) case Bad => Bad case Got(n, p) => Got(NullValue(n), p))
    case 2 => (match DoubleAt(b, pos) case Bad => Bad case Got(d, p) => Got(NumberValue(d), p))
    case 3 => (match BytesAt(b, pos) case Bad => Bad case Got(s, p) => Got(StringValue(s), p))
    case 4 => (match BoolAt(b, pos) case Bad => Bad case Got(t, p) => Got(BoolValue(t), p))
    case 5 => (match SubStructAt(b, pos, StructOf(message)) case Bad => Bad case Got(fs, p) => Got(StructValue(fs), p))
    case 6 => (match SubListAt(b, pos, ListOf(message)) case Bad => Bad case Got(vs, p) => Got(ListValue(vs), p))
    case _ => (match SkipAt(b, pos, tag.wireType) case Bad => Bad case Got(_, p) => Got(message, p))
  }

  function StructAt(b: Bytes, pos: nat, end: nat, message: seq<Field>): (r: Parsed<seq<Field>>)
    requires pos <= |b|
    ensures r.Got? ==> pos <= r.pos <= |b|
    decreases |b| - pos, 0
  {
    if pos >= end then Got(message, pos)
    else match TagAt(b, pos)
         case Bad => Bad
         case Got(tag, p) =>
           if tag.fieldNo == 1 then
             match EntryAt(b, p)
             case Bad => Bad
             case Got(f, q) => StructAt(b, q, end, Put(message, f))
           else
             match SkipAt(b, p, tag.wireType)
             case Bad => Bad
             case Got(_, q) => StructAt(b, q, end, message)
  }

  // A map entry has its own length, and a fresh key and value.
  function EntryAt(b: Bytes, pos: nat): (r: Parsed<Field>)
    requires pos <= |b|
    ensures r.Got? ==> pos < r.pos <= |b|
    decreases |b| - pos, 1
  {
    match Uint32At(b, pos)
    case Bad => Bad
    case Got(length, p) => EntryFieldsAt(b, p, p + length, Field([], Unset))
  }

  function EntryFieldsAt(b: Bytes, pos: nat, end: nat, f: Field): (r: Parsed<Field>)
    requires pos <= |b|
    ensures r.Got? ==> pos <= r.pos <= |b|
    decreases |b| - pos, 0
  {
    if pos >= end then Got(f, pos)
    else match TagAt(b, pos)
         case Bad => Bad
         case Got(tag, p) =>
           match tag.fieldNo
           case 1 => (match BytesAt(b, p) case Bad => Bad case Got(k, q) => EntryFieldsAt(b, q, end, f.(key := k)))
           case 2 =>
             (match SubValueAt(b, p, Unset) case Bad => Bad case Got(v, q) => EntryFieldsAt(b, q, end, f.(value := v)))
           case _ => Bad
  }

  function ListAt(b: Bytes, pos: nat, end: nat, message: seq<Value>): (r: Parsed<seq<Value>>)
    requires pos <= |b|
    ensures r.Got? ==> pos <= r.pos <= |b|
    decreases |b| - pos, 0
  {
    if pos >= end then Got(message, pos)
    else match TagAt(b, pos)
         case Bad => Bad
         case Got(tag, p) =>
           if tag.fieldNo == 1 then
             match SubValueAt(b, p, Unset)
             case Bad => Bad
             case Got(v, q) => ListAt(b, q, end, message + [v])
           else
             match SkipAt(b, p, tag.wireType)
             case Bad => Bad
             case Got(_, q) => ListAt(b, q, end, message)
  }

  // A message behind its length: internalBinaryRead(reader, reader.uint32(), options, target).
  function SubValueAt(b: Bytes, pos: nat, target: Value): (r: Parsed<Value>)
    requires pos <= |b|
    ensures r.Got? ==> pos < r.pos <= |b|
    decreases |b| - pos, 1
  {
    match Uint32At(b, pos)
    case Bad => Bad
    case Got(length, p) => ValueAt(b, p, p + length, target)
  }

  function SubStructAt(b: Bytes, pos: nat, target: seq<Field>): (r: Parsed<seq<Field>>)
    requires pos <= |b|
    ensures r.Got? ==> pos < r.pos <= |b|
    decreases |b| - pos, 1
  {
    match Uint32At(b, pos)
    case Bad => Bad
    case Got(length, p) => StructAt(b, p, p + length, target)
  }

  function SubListAt(b: Bytes, pos: nat, target: seq<Value>): (r: Parsed<seq<Value>>)
    requires pos <= |b|
    ensures r.Got? ==> pos < r.pos <= |b|
    decreases |b| - pos, 1
  {
    match Uint32At(b, pos)
    case Bad => Bad
    case Got(length, p) => ListAt(b, p, p + length, target)
  }

  // ---------------------------------------------------------------- reading merges

  /** Reading the bytes of `v` merges `v` into the target and goes on behind them. */
  lemma {:induction false} ReadMergesValue(b: Bytes, pos: nat, end: nat, v: Value, target: Value)
    requires Wf(v) && FitsValue(v) && At(b, pos, EncValue(v)) && pos + |EncValue(v)| <= end
    ensures ValueAt(b, pos, end, target) == ValueAt(b, pos + |EncValue(v)|, end, Merge(target, v))
    decreases v, 1
  {
    hide ValueFieldAt, StructAt, EntryAt, EntryFieldsAt, ListAt, SubValueAt, SubStructAt, SubListAt;
    hide At, PutAll, EncTag, EncInt, EncBool, Delimited, EncStruct, EncList, FitsValue, Wf, Payload, FieldNo, WireOf;
    if v != Unset {
      hide Merge, EncValue;
      var fieldNo, w, payload := FieldNo(v), WireOf(v), Payload(v);
      assert EncValue(v) == EncTag(fieldNo, w) + payload;
      AtSplit(b, pos, EncTag(fieldNo, w), payload);
      TagReadBack(b, pos, fieldNo, w);
      ReadMergesField(b, pos + |EncTag(fieldNo, w)|, v, target);
    }
  }

  function FieldNo(v: Value): (no: nat)
    requires v != Unset
    ensures 0 < no < 7
  {
    match v
    case NullValue(_) => 1
    case NumberValue(_) => 2
    case StringValue(_) => 3
    case BoolValue(_) => 4
    case StructValue(_) => 5
    case ListValue(_) => 6
  }

  function WireOf(v: Value): WireType
    requires v != Unset
  {
    match v
    case NullValue(_) => Varint
    case NumberValue(_) => Bit64
    case BoolValue(_) => Varint
    case _ => LengthDelimited
  }

  function Payload(v: Value): (e: Bytes)
    requires v != Unset
    ensures EncValue(v) == EncTag(FieldNo(v), WireOf(v)) + e
  {
    match v
    case NullValue(n) => EncInt(n)
    case NumberValue(number) => number
    case StringValue(s) => Delimited(s)
    case BoolValue(b) => EncBool(b)
    case StructValue(fields) => Delimited(EncStruct(fields))
    case ListValue(values) => Delimited(EncList(values))
  }

  lemma {:induction false} ReadMergesField(b: Bytes, pos: nat, v: Value, target: Value)
    requires v != Unset && Wf(v) && FitsValue(v) && At(b, pos, Payload(v))
    ensures ValueFieldAt(b, pos, Tag(FieldNo(v), WireOf(v)), target) == Got(Merge(target, v), pos + |Payload(v)|)
    decreases v, 0
  {
    hide ValueAt, StructAt, EntryAt, EntryFieldsAt, ListAt, SubValueAt, SubStructAt, SubListAt, At, PutAll, EncTag;
    match v
    case NullValue(n) => IntReadBack(b, pos, n);
    case NumberValue(number) => DoubleReadBack(b, pos, number);
    case StringValue(s) => DelimitedReadBack(b, pos, s);
    case BoolValue(t) => BoolReadBack(b, pos, t);
    case StructValue(fields) => ReadMergesSubStruct(b, pos, fields, StructOf(target));
    case ListValue(values) => ReadMergesSubList(b, pos, values, ListOf(target));
  }

  lemma {:induction false} ReadMergesSubStruct(b: Bytes, pos: nat, fs: seq<Field>, target: seq<Field>)
    requires WfStruct(fs) && FitsStruct(fs) && Fits(EncStruct(fs)) && At(b, pos, Delimited(EncStruct(fs)))
    ensures SubStructAt(b, pos, target) == Got(PutAll(target, fs), pos + |Delimited(EncStruct(fs))|)
    decreases fs, 2
  {
    hide ValueAt, ValueFieldAt, StructAt, EntryAt, EntryFieldsAt, ListAt, SubValueAt, SubListAt;
    hide At, Delimited, PutAll, EncStruct, FitsStruct, WfStruct;
    var e := EncStruct(fs);
    DelimitedReadBack(b, pos, e);
    var p := pos + |EncVarint(|e|)|;
    ReadMergesStruct(b, p, fs, target);
    assert SubStructAt(b, pos, target) == StructAt(b, p, p + |e|, target);
  }

  lemma {:induction false} ReadMergesSubList(b: Bytes, pos: nat, vs: seq<Value>, target: seq<Value>)
    requires WfList(vs) && FitsList(vs)
    requires Fits(EncList(vs)) && At(b, pos, Delimited(EncList(vs)))
    ensures SubListAt(b, pos, target) == Got(target + vs, pos + |Delimited(EncList(vs))|)
    decreases vs, 2
  {
    hide ValueAt, ValueFieldAt, StructAt, EntryAt, EntryFieldsAt, ListAt, SubValueAt, SubStructAt;
    hide At, Delimited, EncList, FitsList, WfList;
    var e := EncList(vs);
    DelimitedReadBack(b, pos, e);
    var p := pos + |EncVarint(|e|)|;
    ReadMergesList(b, p, vs, target);
    assert SubListAt(b, pos, target) == ListAt(b, p, p + |e|, target);
  }

  lemma {:induction false} ReadMergesStruct(b: Bytes, pos: nat, fs: seq<Field>, target: seq<Field>)
    requires WfStruct(fs) && FitsStruct(fs) && At(b, pos, EncStruct(fs))
    ensures StructAt(b, pos, pos + |EncStruct(fs)|, target) == Got(PutAll(target, fs), pos + |EncStruct(fs)|)
    decreases fs, 1
  {
    hide *;
    if fs == [] {
      NothingToRead(b, pos, target, []);
    } else {
      var next := ReadsFirstEntry(b, pos, fs, target);
      ReadMergesStruct(b, next, fs[1..], Put(target, fs[0]));
    }
  }

  lemma {:induction false} ReadsFirstEntry(b: Bytes, pos: nat, fs: seq<Field>, target: seq<Field>) returns (next: nat)
    requires fs != [] && WfStruct(fs) && FitsStruct(fs) && At(b, pos, EncStruct(fs))
    ensures next <= next + |EncStruct(fs[1..])| == pos + |EncStruct(fs)| && At(b, next, EncStruct(fs[1..]))
    ensures pos <= |b| && next <= |b| && WfStruct(fs[1..]) && FitsStruct(fs[1..])
    ensures PutAll(target, fs) == PutAll(Put(target, fs[0]), fs[1..])
    ensures StructAt(b, pos, pos + |EncStruct(fs)|, target)
         == StructAt(b, next, pos + |EncStruct(fs)|, Put(target, fs[0]))
    decreases fs, 0
  {
    hide ValueAt, ValueFieldAt, StructAt, EntryAt, EntryFieldsAt, ListAt, SubValueAt, SubStructAt, SubListAt;
    hide EncTag, EncEntry, EncValue, Put, Wf, DistinctKeys, FitsField;
    var f := fs[0];
    next := pos + |EncEntry(f)|;
    AtSplit(b, pos, EncEntry(f), EncStruct(fs[1..]));
    ReadsEntry(b, pos, f);
    StructStep(b, pos, pos + |EncTag(1, LengthDelimited)|, next, pos + |EncStruct(fs)|, f, target);
  }

  // The outer fork of a map entry.
  lemma {:induction false} ReadsEntry(b: Bytes, pos: nat, f: Field)
    requires Wf(f.value) && FitsField(f) && At(b, pos, EncEntry(f))
    ensures var p := pos + |EncTag(1, LengthDelimited)|;
            && TagAt(b, pos) == Got(Tag(1, LengthDelimited), p)
            && EntryAt(b, p) == Got(f, pos + |EncEntry(f)|)
    decreases f, 1
  {
    hide ValueAt, ValueFieldAt, StructAt, EntryFieldsAt, ListAt, SubValueAt, SubStructAt, SubListAt;
    hide At, EncTag, EncEntryBody, Delimited;
    var tag, body := EncTag(1, LengthDelimited), EncEntryBody(f);
    AtSplit(b, pos, tag, Delimited(body));
    TagReadBack(b, pos, 1, LengthDelimited);
    DelimitedReadBack(b, pos + |tag|, body);
    var p := pos + |tag|;
    var q := p + |EncVarint(|body|)|;
    ReadsEntryBody(b, q, f);
    assert EntryAt(b, p) == EntryFieldsAt(b, q, q + |body|, Field([], Unset));
    assert q + |body| == pos + |EncEntry(f)|;
  }

  // Its key, then the inner fork with its value.
  lemma {:induction false} ReadsEntryBody(b: Bytes, pos: nat, f: Field)
    requires Wf(f.value) && FitsField(f) && At(b, pos, EncEntryBody(f))
    ensures EntryFieldsAt(b, pos, pos + |EncEntryBody(f)|, Field([], Unset)) == Got(f, pos + |EncEntryBody(f)|)
    decreases f, 0
  {
    hide ValueAt, ValueFieldAt, StructAt, EntryAt, EntryFieldsAt, ListAt, SubValueAt, SubStructAt, SubListAt;
    hide At, EncTag, EncValue, Delimited;
    var tag1, tag2 := EncTag(1, LengthDelimited), EncTag(2, LengthDelimited);
    var key, val := Delimited(f.key), Delimited(EncValue(f.value));
    var next, end := pos + |tag1 + key|, pos + |EncEntryBody(f)|;
    AtSplit(b, pos, tag1 + key, tag2 + val);
    AtSplit(b, pos, tag1, key);
    TagReadBack(b, pos, 1, LengthDelimited);
    DelimitedReadBack(b, pos + |tag1|, f.key);
    AtSplit(b, next, tag2, val);
    TagReadBack(b, next, 2, LengthDelimited);
    ReadMergesSubValue(b, next + |tag2|, f.value, Unset);
    MergeIntoFresh(f.value);
    EntrySteps(b, pos, pos + |tag1|, next, next + |tag2|, end, f);
  }

  lemma EntrySteps(b: Bytes, pos: nat, p: nat, next: nat, q: nat, end: nat, f: Field)
    requires pos < next < end <= |b| && p <= |b| && q <= |b|
    requires TagAt(b, pos) == Got(Tag(1, LengthDelimited), p) && BytesAt(b, p) == Got(f.key, next)
    requires TagAt(b, next) == Got(Tag(2, LengthDelimited), q) && SubValueAt(b, q, Unset) == Got(f.value, end)
    ensures EntryFieldsAt(b, pos, end, Field([], Unset)) == Got(f, end)
  {
    hide ValueAt, ValueFieldAt, StructAt, EntryAt, ListAt, SubValueAt, SubStructAt, SubListAt;
    assert EntryFieldsAt(b, next, end, Field(f.key, Unset)) == EntryFieldsAt(b, end, end, f);
  }

  lemma {:induction false} ReadMergesSubValue(b: Bytes, pos: nat, v: Value, target: Value)
    requires Wf(v) && FitsValue(v) && Fits(EncValue(v)) && At(b, pos, Delimited(EncValue(v)))
    ensures SubValueAt(b, pos, target) == Got(Merge(target, v), pos + |Delimited(EncValue(v))|)
    decreases v, 2
  {
    hide ValueAt, ValueFieldAt, StructAt, EntryAt, EntryFieldsAt, ListAt, SubStructAt, SubListAt;
    hide At, Merge, EncValue, Delimited;
    var e := EncValue(v);
    DelimitedReadBack(b, pos, e);
    var p := pos + |EncVarint(|e|)|;
    ReadMergesValue(b, p, p + |e|, v, target);
    LoopEnds(b, p + |e|, Merge(target, v), [], []);
    assert SubValueAt(b, pos, target) == ValueAt(b, p, p + |e|, target);
  }

  lemma {:induction false} ReadMergesList(b: Bytes, pos: nat, vs: seq<Value>, target: seq<Value>)
    requires WfList(vs) && FitsList(vs) && At(b, pos, EncList(vs))
    ensures ListAt(b, pos, pos + |EncList(vs)|, target) == Got(target + vs, pos + |EncList(vs)|)
    decreases vs, 1
  {
    hide *;
    if vs == [] {
      NothingToRead(b, pos, [], target);
    } else {
      var next := ReadsFirstItem(b, pos, vs, target);
      ReadMergesList(b, next, vs[1..], target + [vs[0]]);
      Shift(target, vs);
    }
  }

  lemma {:induction false} ReadsFirstItem(b: Bytes, pos: nat, vs: seq<Value>, target: seq<Value>) returns (next: nat)
    requires vs != [] && WfList(vs) && FitsList(vs) && At(b, pos, EncList(vs))
    ensures next <= next + |EncList(vs[1..])| == pos + |EncList(vs)| && At(b, next, EncList(vs[1..]))
    ensures pos <= |b| && next <= |b| && WfList(vs[1..]) && FitsList(vs[1..])
    ensures ListAt(b, pos, pos + |EncList(vs)|, target) == ListAt(b, next, pos + |EncList(vs)|, target + [vs[0]])
    decreases vs, 0
  {
    hide ValueAt, ValueFieldAt, StructAt, EntryAt, EntryFieldsAt, ListAt, SubValueAt, SubStructAt, SubListAt;
    hide EncTag, EncItem, EncValue, Fits, FitsValue, Wf;
    var v := vs[0];
    next := pos + |EncItem(v)|;
    AtSplit(b, pos, EncItem(v), EncList(vs[1..]));
    ReadsItem(b, pos, v);
    ListStep(b, pos, pos + |EncTag(1, LengthDelimited)|, next, pos + |EncList(vs)|, v, target);
  }

  lemma {:induction false} ReadsItem(b: Bytes, pos: nat, v: Value)
    requires Wf(v) && FitsValue(v) && Fits(EncValue(v)) && At(b, pos, EncItem(v))
    ensures var p := pos + |EncTag(1, LengthDelimited)|;
            && TagAt(b, pos) == Got(Tag(1, LengthDelimited), p)
            && SubValueAt(b, p, Unset) == Got(v, pos + |EncItem(v)|)
    decreases v, 3
  {
    hide ValueAt, ValueFieldAt, StructAt, EntryAt, EntryFieldsAt, ListAt, SubValueAt, SubStructAt, SubListAt;
    hide At, EncTag, EncValue, Delimited, Merge;
    AtSplit(b, pos, EncTag(1, LengthDelimited), Delimited(EncValue(v)));
    TagReadBack(b, pos, 1, LengthDelimited);
    ReadMergesSubValue(b, pos + |EncTag(1, LengthDelimited)|, v, Unset);
    MergeIntoFresh(v);
  }

  lemma LoopEnds(b: Bytes, pos: nat, v: Value, fs: seq<Field>, vs: seq<Value>)
    requires pos <= |b|
    ensures ValueAt(b, pos, pos, v) == Got(v, pos)
    ensures StructAt(b, pos, pos, fs) == Got(fs, pos) && ListAt(b, pos, pos, vs) == Got(vs, pos)
  {
  }

  lemma NothingToRead(b: Bytes, pos: nat, fs: seq<Field>, vs: seq<Value>)
    ensures At(b, pos, EncStruct([])) ==> StructAt(b, pos, pos + |EncStruct([])|, fs) == Got(PutAll(fs, []), pos)
    ensures At(b, pos, EncList([])) ==> ListAt(b, pos, pos + |EncList([])|, vs) == Got(vs + [], pos)
    ensures EncStruct([]) == [] && EncList([]) == []
  {
    assert vs + [] == vs;
  }

  // One turn of each loop.
  lemma StructStep(b: Bytes, pos: nat, p: nat, next: nat, end: nat, f: Field, target: seq<Field>)
    requires pos < next <= end <= |b| && p <= |b|
    requires TagAt(b, pos) == Got(Tag(1, LengthDelimited), p) && EntryAt(b, p) == Got(f, next)
    ensures StructAt(b, pos, end, target) == StructAt(b, next, end, Put(target, f))
  {
    hide ValueAt, ValueFieldAt, EntryAt, EntryFieldsAt, ListAt, SubValueAt, SubStructAt, SubListAt, Put;
  }

  lemma ListStep(b: Bytes, pos: nat, p: nat, next: nat, end: nat, v: Value, target: seq<Value>)
    requires pos < next <= end <= |b| && p <= |b|
    requires TagAt(b, pos) == Got(Tag(1, LengthDelimited), p) && SubValueAt(b, p, Unset) == Got(v, next)
    ensures ListAt(b, pos, end, target) == ListAt(b, next, end, target + [v])
  {
    hide ValueAt, ValueFieldAt, StructAt, EntryAt, EntryFieldsAt, SubValueAt, SubStructAt, SubListAt;
  }

  // ---------------------------------------------------------------- what the merge is

  /** Merging into a fresh message gives the message itself. */
  lemma MergeIntoFresh(v: Value)
    requires Wf(v)
    ensures Merge(Unset, v) == v
  {
    if v.StructValue? {
      PutAllDistinct([], v.fields);
    }
  }

  lemma {:induction false} PutAllDistinct(target: seq<Field>, fs: seq<Field>)
    requires DistinctKeys(target + fs)
    ensures PutAll(target, fs) == target + fs
    decreases |fs|
  {
    if fs == [] {
      assert target + fs == target;
    } else {
      forall i | 0 <= i < |target| ensures target[i].key != fs[0].key {
        assert (target + fs)[i] == target[i] && (target + fs)[|target|] == fs[0];
      }
      PutNew(target, fs[0]);
      assert target + [fs[0]] + fs[1..] == target + fs;
      PutAllDistinct(target + [fs[0]], fs[1..]);
    }
  }

  lemma {:induction false} PutNew(fs: seq<Field>, f: Field)
    requires forall i :: 0 <= i < |fs| ==> fs[i].key != f.key
    ensures Put(fs, f) == fs + [f]
  {
    if fs != [] {
      PutNew(fs[1..], f);
      assert [fs[0]] + (fs[1..] + [f]) == fs + [f];
    }
  }

  /** In terms of objects the merge is map union: the later entry of a key wins,
      and the order in which distinct keys come does not matter. */
  lemma {:induction false} PutAllIsUnion(target: seq<Field>, fs: seq<Field>)
    requires DistinctKeys(target)
    ensures AsMap(PutAll(target, fs)) == AsMap(target) + AsMap(fs)
    ensures DistinctKeys(PutAll(target, fs))
    decreases |fs|
  {
    hide DistinctKeys;
    if fs == [] {
      assert AsMap(target) + map[] == AsMap(target);
    } else {
      PutIsUpdate(target, fs[0]);
      PutAllIsUnion(Put(target, fs[0]), fs[1..]);
      UpdateThenUnion(AsMap(target), fs[0].key, fs[0].value, AsMap(fs[1..]));
    }
  }

  lemma UpdateThenUnion<K, V>(m: map<K, V>, k: K, v: V, n: map<K, V>)
    ensures m[k := v] + n == m + (map[k := v] + n)
  {
  }

  lemma {:induction false} PutIsUpdate(fs: seq<Field>, f: Field)
    requires DistinctKeys(fs)
    ensures AsMap(Put(fs, f)) == AsMap(fs)[f.key := f.value]
    ensures DistinctKeys(Put(fs, f))
  {
    if fs == [] {
      assert AsMap([f]) == map[f.key := f.value] + map[];
    } else {
      var g, rest := fs[0], fs[1..];
      KeysOf(rest, g.key);
      if g.key == f.key {
        assert Put(fs, f) == [f] + rest && ([f] + rest)[1..] == rest;
      } else {
        PutIsUpdate(rest, f);
        PutOther(g, rest, f);
      }
    }
  }

  lemma PutOther(g: Field, rest: seq<Field>, f: Field)
    requires g.key != f.key && g.key !in AsMap(rest)
    requires DistinctKeys(Put(rest, f)) && AsMap(Put(rest, f)) == AsMap(rest)[f.key := f.value]
    ensures AsMap(Put([g] + rest, f)) == AsMap([g] + rest)[f.key := f.value]
    ensures DistinctKeys(Put([g] + rest, f))
  {
    hide DistinctKeys;
    var p := Put(rest, f);
    assert ([g] + rest)[1..] == rest && ([g] + p)[1..] == p;
    assert Put([g] + rest, f) == [g] + p;
    DistinctCons(g, p);
  }

  lemma DistinctCons(f: Field, fs: seq<Field>)
    requires DistinctKeys(fs) && f.key !in AsMap(fs)
    ensures DistinctKeys([f] + fs)
  {
    KeysOf(fs, f.key);
  }

  lemma {:induction false} KeysOf(fs: seq<Field>, k: Bytes)
    ensures k in AsMap(fs) <==> exists i :: 0 <= i < |fs| && fs[i].key == k
  {
    if fs != [] {
      KeysOf(fs[1..], k);
      if i :| 0 <= i < |fs| && fs[i].key == k {
        assert i > 0 ==> fs[1..][i - 1].key == k;
      }
    }
  }

  /** The same object written in any two orders of its keys reads back as the same object. */
  lemma KeyOrderIrrelevant(fs: seq<Field>, gs: seq<Field>, target: seq<Field>)
    requires WfStruct(fs) && FitsStruct(fs) && WfStruct(gs) && FitsStruct(gs)
    requires AsMap(fs) == AsMap(gs) && DistinctKeys(target)
    ensures var e, e' := EncStruct(fs), EncStruct(gs);
            var r, r' := StructAt(e, 0, |e|, target), StructAt(e', 0, |e'|, target);
            r.Got? && r'.Got? && AsMap(r.value) == AsMap(r'.value) == AsMap(target) + AsMap(fs)
  {
    hide EncStruct, StructAt, PutAll, AsMap, DistinctKeys, FitsStruct;
    ReadMergesStruct(EncStruct(fs), 0, fs, target);
    ReadMergesStruct(EncStruct(gs), 0, gs, target);
    PutAllIsUnion(target, fs);
    PutAllIsUnion(target, gs);
  }

  /** The writer never throws on a message whose encoding is under four gigabytes. */
  lemma {:induction false} SmallFits(v: Value)
    requires |EncValue(v)| < TWO_32
    ensures FitsValue(v)
    decreases v, 0
  {
    match v
    case StructValue(fields) => SmallStructFits(fields);
    case ListValue(values) => SmallListFits(values);
    case _ =>
  }

  lemma {:induction false} SmallStructFits(fs: seq<Field>)
    requires |EncStruct(fs)| < TWO_32
    ensures FitsStruct(fs)
    decreases fs, 0
  {
    if fs != [] {
      assert |EncStruct(fs)| == |EncEntry(fs[0])| + |EncStruct(fs[1..])|;
      assert |EncEntry(fs[0])| > |EncEntryBody(fs[0])| > |EncValue(fs[0].value)|;
      SmallFits(fs[0].value);
      SmallStructFits(fs[1..]);
    }
  }

  lemma {:induction false} SmallListFits(vs: seq<Value>)
    requires |EncList(vs)| < TWO_32
    ensures FitsList(vs)
    decreases vs, 0
  {
    if vs != [] {
      SmallFits(vs[0]);
      SmallListFits(vs[1..]);
    }
  }

  /** Messages concatenated on the wire read as their merge, one after the other. */
  lemma ConcatenationMerges(v: Value, w: Value, target: Value)
    requires Wf(v) && FitsValue(v) && Wf(w) && FitsValue(w)
    ensures var b := EncValue(v) + EncValue(w);
            ValueAt(b, 0, |b|, target) == Got(Merge(Merge(target, v), w), |b|)
  {
    hide ValueAt, ValueFieldAt, StructAt, EntryAt, EntryFieldsAt, ListAt, SubValueAt, SubStructAt, SubListAt;
    hide EncValue, Merge, Wf, FitsValue;
    var b := EncValue(v) + EncValue(w);
    AtSplit(b, 0, EncValue(v), EncValue(w));
    ReadMergesValue(b, 0, |b|, v, target);
    ReadMergesValue(b, |EncValue(v)|, |b|, w, Merge(target, v));
    LoopEnds(b, |b|, Merge(Merge(target, v), w), [], []);
  }

  /** A field of a later version of the messages is skipped whole, whatever its number, its wire
      type and its content; only inside a map entry it throws. */
  lemma UnknownFieldIsSkipped(b: Bytes, pos: nat, end: nat, u: Unknown,
                              v: Value, fs: seq<Field>, vs: seq<Value>, f: Field)
    requires WfUnknown(u) && At(b, pos, EncUnknown(u)) && pos + |EncUnknown(u)| <= end
    ensures var next := pos + |EncUnknown(u)|;
            && (u.no > 6 ==> ValueAt(b, pos, end, v) == ValueAt(b, next, end, v))
            && (u.no > 1 ==> StructAt(b, pos, end, fs) == StructAt(b, next, end, fs))
            && (u.no > 1 ==> ListAt(b, pos, end, vs) == ListAt(b, next, end, vs))
            && (u.no > 2 ==> EntryFieldsAt(b, pos, end, f) == Bad)
  {
    hide *;
    SkipsUnknown(b, pos, u);
    var tag, p, next := Tag(u.no, TypeOf(u.payload)), pos + |EncTag(u.no, TypeOf(u.payload))|, pos + |EncUnknown(u)|;
    UnknownIsBehind(b, pos, u);
    if u.no > 1 {
      StructSkips(b, pos, p, next, end, tag, fs);
      ListSkips(b, pos, p, next, end, tag, vs);
    }
    if u.no > 2 {
      EntryThrows(b, pos, p, end, tag, f);
    }
    if u.no > 6 {
      ValueSkips(b, pos, p, next, end, tag, v);
    }
  }

  // One turn of each loop on a field it does not know.
  lemma ValueSkips(b: Bytes, pos: nat, p: nat, next: nat, end: nat, tag: Tag, message: Value)
    requires pos < next <= end && next <= |b| && p <= |b| && tag.fieldNo > 6
    requires TagAt(b, pos) == Got(tag, p) && SkipAt(b, p, tag.wireType) == Got((), next)
    ensures ValueAt(b, pos, end, message) == ValueAt(b, next, end, message)
  {
    hide TagAt, SkipAt, BytesAt, Int32At, DoubleAt, BoolAt, SubStructAt, SubListAt;
  }

  lemma StructSkips(b: Bytes, pos: nat, p: nat, next: nat, end: nat, tag: Tag, message: seq<Field>)
    requires pos < next <= end && next <= |b| && p <= |b| && tag.fieldNo > 1
    requires TagAt(b, pos) == Got(tag, p) && SkipAt(b, p, tag.wireType) == Got((), next)
    ensures StructAt(b, pos, end, message) == StructAt(b, next, end, message)
  {
    hide TagAt, SkipAt, EntryAt, Put;
  }

  lemma ListSkips(b: Bytes, pos: nat, p: nat, next: nat, end: nat, tag: Tag, message: seq<Value>)
    requires pos < next <= end && next <= |b| && p <= |b| && tag.fieldNo > 1
    requires TagAt(b, pos) == Got(tag, p) && SkipAt(b, p, tag.wireType) == Got((), next)
    ensures ListAt(b, pos, end, message) == ListAt(b, next, end, message)
  {
    hide TagAt, SkipAt, SubValueAt;
  }

  lemma EntryThrows(b: Bytes, pos: nat, p: nat, end: nat, tag: Tag, f: Field)
    requires pos < end && pos <= |b| && p <= |b| && tag.fieldNo > 2 && TagAt(b, pos) == Got(tag, p)
    ensures EntryFieldsAt(b, pos, end, f) == Bad
  {
    hide TagAt, BytesAt, SubValueAt;
  }

  // ---------------------------------------------------------------- order of keys at every depth

  /** The same value but for the order of keys, at any depth. */
  predicate Alike(v: Value, w: Value)
    decreases v, 0
  {
    match v
    case StructValue(fields) => w.StructValue? && AlikeStruct(fields, w.fields)
    case ListValue(values) => w.ListValue? && AlikeList(values, w.values)
    case _ => v == w
  }

  predicate AlikeStruct(fs: seq<Field>, gs: seq<Field>)
    decreases fs, 0
  {
    && AsMap(fs).Keys == AsMap(gs).Keys
    && forall i, j :: 0 <= i < |fs| && 0 <= j < |gs| && fs[i].key == gs[j].key ==> Alike(fs[i].value, gs[j].value)
  }

  predicate AlikeList(vs: seq<Value>, ws: seq<Value>)
    decreases vs, 0
  {
    |vs| == |ws| && forall i :: 0 <= i < |vs| ==> Alike(vs[i], ws[i])
  }

  lemma {:induction false} WfStructIs(fs: seq<Field>)
    ensures WfStruct(fs) <==> DistinctKeys(fs) && forall i :: 0 <= i < |fs| ==> Wf(fs[i].value)
  {
    if fs != [] {
      WfStructIs(fs[1..]);
      assert forall i :: 0 < i < |fs| ==> fs[i] == fs[1..][i - 1];
    }
  }

  lemma {:induction false} WfListIs(vs: seq<Value>)
    ensures WfList(vs) <==> forall i :: 0 <= i < |vs| ==> Wf(vs[i])
  {
    if vs != [] {
      WfListIs(vs[1..]);
      assert forall i :: 0 < i < |vs| ==> vs[i] == vs[1..][i - 1];
    }
  }

  lemma {:induction false} AlikeItself(v: Value)
    requires Wf(v)
    ensures Alike(v, v)
    decreases v
  {
    match v
    case StructValue(fields) =>
      WfStructIs(fields);
      forall i | 0 <= i < |fields| ensures Alike(fields[i].value, fields[i].value) {
        AlikeItself(fields[i].value);
      }
    case ListValue(values) =>
      WfListIs(values);
      forall i | 0 <= i < |values| ensures Alike(values[i], values[i]) {
        AlikeItself(values[i]);
      }
    case _ =>
  }

  // A property is found under its key.
  lemma {:induction false} FoundUnderKey(fs: seq<Field>, i: nat)
    requires DistinctKeys(fs) && i < |fs|
    ensures fs[i].key in AsMap(fs) && AsMap(fs)[fs[i].key] == fs[i].value
  {
    KeysOf(fs[1..], fs[0].key);
    if i > 0 {
      FoundUnderKey(fs[1..], i - 1);
    }
  }

  lemma AlikeStructItself(fs: seq<Field>)
    requires WfStruct(fs)
    ensures AlikeStruct(fs, fs)
  {
    AlikeItself(StructValue(fs));
  }

  lemma MapsAlike(fs: seq<Field>, gs: seq<Field>, k: Bytes)
    requires DistinctKeys(fs) && DistinctKeys(gs) && AlikeStruct(fs, gs) && k in AsMap(fs)
    ensures k in AsMap(gs) && Alike(AsMap(fs)[k], AsMap(gs)[k])
  {
    KeysOf(fs, k);
    KeysOf(gs, k);
    var i :| 0 <= i < |fs| && fs[i].key == k;
    var j :| 0 <= j < |gs| && gs[j].key == k;
    FoundUnderKey(fs, i);
    FoundUnderKey(gs, j);
  }

  lemma PutAllAlike(target: seq<Field>, fs: seq<Field>, gs: seq<Field>)
    requires WfStruct(target) && DistinctKeys(fs) && DistinctKeys(gs) && AlikeStruct(fs, gs)
    ensures AlikeStruct(PutAll(target, fs), PutAll(target, gs))
  {
    hide Alike, AlikeStruct, AsMap, PutAll, DistinctKeys, WfStruct;
    var r, r' := PutAll(target, fs), PutAll(target, gs);
    WfStructIs(target);
    PutAllIsUnion(target, fs);
    PutAllIsUnion(target, gs);
    AlikeStructItself(target);
    SameKeys(fs, gs);
    forall i, j | 0 <= i < |r| && 0 <= j < |r'| && r[i].key == r'[j].key ensures Alike(r[i].value, r'[j].value) {
      FoundUnderKey(r, i);
      FoundUnderKey(r', j);
      if r[i].key in AsMap(fs) {
        MapsAlike(fs, gs, r[i].key);
      } else {
        MapsAlike(target, target, r[i].key);
      }
    }
    AlikeStructFrom(r, r');
  }

  lemma SameKeys(fs: seq<Field>, gs: seq<Field>)
    requires AlikeStruct(fs, gs)
    ensures AsMap(fs).Keys == AsMap(gs).Keys
  {
    hide Alike, AsMap;
  }

  lemma AlikeStructFrom(fs: seq<Field>, gs: seq<Field>)
    requires AsMap(fs).Keys == AsMap(gs).Keys
    requires forall i, j :: 0 <= i < |fs| && 0 <= j < |gs| && fs[i].key == gs[j].key ==> Alike(fs[i].value, gs[j].value)
    ensures AlikeStruct(fs, gs)
  {
    hide Alike, AsMap;
  }

  lemma MergeAlike(target: Value, v: Value, w: Value)
    requires Wf(target) && Wf(v) && Wf(w) && Alike(v, w)
    ensures Alike(Merge(target, v), Merge(target, w))
  {
    match v
    case Unset => AlikeItself(target);
    case StructValue(fields) =>
      WfStructIs(fields);
      WfStructIs(w.fields);
      PutAllAlike(StructOf(target), fields, w.fields);
    case ListValue(values) =>
      var head := ListOf(target);
      WfListIs(head);
      forall i | 0 <= i < |head| ensures Alike(head[i], head[i]) {
        AlikeItself(head[i]);
      }
      hide Alike, Wf;
      AlikeBehind(head, values, w.values);
    case _ =>
  }

  lemma AlikeBehind(head: seq<Value>, vs: seq<Value>, ws: seq<Value>)
    requires AlikeList(vs, ws) && forall i :: 0 <= i < |head| ==> Alike(head[i], head[i])
    ensures Alike(ListValue(head + vs), ListValue(head + ws))
  {
  }

  /** Two values that differ only in the order of keys, at whatever depth, read back into any target
      as two values that differ in no more. */
  lemma DeepKeyOrderIrrelevant(v: Value, w: Value, target: Value)
    requires Wf(v) && FitsValue(v) && Wf(w) && FitsValue(w) && Wf(target) && Alike(v, w)
    ensures var e, e' := EncValue(v), EncValue(w);
            var r, r' := ValueAt(e, 0, |e|, target), ValueAt(e', 0, |e'|, target);
            r.Got? && r'.Got? && Alike(r.value, r'.value)
  {
    hide *;
    MergeAlike(target, v, w);
    ReadsToMerge(v, target);
    ReadsToMerge(w, target);
  }

  // A whole message, read into a target.
  lemma ReadsToMerge(v: Value, target: Value)
    requires Wf(v) && FitsValue(v)
    ensures var e := EncValue(v);
            ValueAt(e, 0, |e|, target) == Got(Merge(target, v), |e|)
  {
    hide ValueAt, EncValue, Merge, Wf, FitsValue;
    var e := EncValue(v);
    ReadMergesValue(e, 0, |e|, v, target);
    LoopEnds(e, |e|, Merge(target, v), [], []);
  }

  // ---------------------------------------------------------------- what is read is well formed

  lemma PutKeepsWf(fs: seq<Field>, f: Field)
    requires WfStruct(fs) && Wf(f.value)
    ensures WfStruct(Put(fs, f))
  {
    hide Wf;
    WfStructIs(fs);
    WfStructIs(Put(fs, f));
    PutIsUpdate(fs, f);
    PutFields(fs, f);
  }

  lemma {:induction false} PutFields(fs: seq<Field>, f: Field)
    ensures forall i :: 0 <= i < |Put(fs, f)| ==> Put(fs, f)[i] == f || Put(fs, f)[i] in fs
  {
    if fs != [] {
      PutFields(fs[1..], f);
    }
  }

  lemma SnocKeepsWf(vs: seq<Value>, v: Value)
    requires WfList(vs) && Wf(v)
    ensures WfList(vs + [v])
  {
    hide Wf;
    WfListIs(vs);
    WfListIs(vs + [v]);
  }

  /** Whatever bytes are read, into whatever object: the result is an object. */
  lemma {:induction false} ReadsWf(b: Bytes, pos: nat, end: nat, message: Value)
    requires pos <= |b| && Wf(message)
    ensures ValueAt(b, pos, end, message).Got? ==> Wf(ValueAt(b, pos, end, message).value)
    decreases |b| - pos, 0
  {
    hide ValueFieldAt, StructAt, EntryAt, EntryFieldsAt, ListAt, SubValueAt, SubStructAt, SubListAt, TagAt, Wf;
    if pos < end && TagAt(b, pos).Got? {
      var tag, p := TagAt(b, pos).value, TagAt(b, pos).pos;
      ReadsWfField(b, p, tag, message);
      var r := ValueFieldAt(b, p, tag, message);
      if r.Got? {
        ReadsWf(b, r.pos, end, r.value);
      }
    }
  }

  lemma {:induction false} ReadsWfField(b: Bytes, pos: nat, tag: Tag, message: Value)
    requires pos <= |b| && Wf(message)
    ensures ValueFieldAt(b, pos, tag, message).Got? ==> Wf(ValueFieldAt(b, pos, tag, message).value)
    decreases |b| - pos, 2
  {
    hide ValueAt, StructAt, EntryAt, EntryFieldsAt, ListAt, SubValueAt, SubStructAt, SubListAt;
    hide Int32At, DoubleAt, BytesAt, BoolAt, SkipAt;
    if tag.fieldNo == 5 {
      ReadsWfSubStruct(b, pos, StructOf(message));
    } else if tag.fieldNo == 6 {
      ReadsWfSubList(b, pos, ListOf(message));
    }
  }

  lemma {:induction false} ReadsWfSubStruct(b: Bytes, pos: nat, target: seq<Field>)
    requires pos <= |b| && WfStruct(target)
    ensures SubStructAt(b, pos, target).Got? ==> WfStruct(SubStructAt(b, pos, target).value)
    decreases |b| - pos, 1
  {
    hide ValueAt, StructAt, ListAt, Uint32At, WfStruct;
    var len := Uint32At(b, pos);
    if len.Got? {
      ReadsWfStruct(b, len.pos, len.pos + len.value, target);
    }
  }

  lemma {:induction false} ReadsWfSubList(b: Bytes, pos: nat, target: seq<Value>)
    requires pos <= |b| && WfList(target)
    ensures SubListAt(b, pos, target).Got? ==> WfList(SubListAt(b, pos, target).value)
    decreases |b| - pos, 1
  {
    hide ValueAt, StructAt, ListAt, Uint32At, WfList;
    var len := Uint32At(b, pos);
    if len.Got? {
      ReadsWfList(b, len.pos, len.pos + len.value, target);
    }
  }

  lemma {:induction false} ReadsWfSubValue(b: Bytes, pos: nat, target: Value)
    requires pos <= |b| && Wf(target)
    ensures SubValueAt(b, pos, target).Got? ==> Wf(SubValueAt(b, pos, target).value)
    decreases |b| - pos, 1
  {
    hide ValueAt, StructAt, ListAt, Uint32At, Wf;
    var len := Uint32At(b, pos);
    if len.Got? {
      ReadsWf(b, len.pos, len.pos + len.value, target);
    }
  }

  lemma {:induction false} ReadsWfStruct(b: Bytes, pos: nat, end: nat, message: seq<Field>)
    requires pos <= |b| && WfStruct(message)
    ensures StructAt(b, pos, end, message).Got? ==> WfStruct(StructAt(b, pos, end, message).value)
    decreases |b| - pos, 0
  {
    hide ValueAt, ValueFieldAt, EntryAt, EntryFieldsAt, ListAt, SubValueAt, TagAt, SkipAt, Wf, WfStruct, Put;
    if pos < end && TagAt(b, pos).Got? {
      var tag, p := TagAt(b, pos).value, TagAt(b, pos).pos;
      if tag.fieldNo == 1 {
        ReadsWfEntry(b, p);
        var r := EntryAt(b, p);
        if r.Got? {
          PutKeepsWf(message, r.value);
          ReadsWfStruct(b, r.pos, end, Put(message, r.value));
        }
      } else {
        var r := SkipAt(b, p, tag.wireType);
        if r.Got? {
          ReadsWfStruct(b, r.pos, end, message);
        }
      }
    }
  }

  lemma {:induction false} ReadsWfEntry(b: Bytes, pos: nat)
    requires pos <= |b|
    ensures EntryAt(b, pos).Got? ==> Wf(EntryAt(b, pos).value.value)
    decreases |b| - pos, 1
  {
    hide ValueAt, StructAt, ListAt, EntryFieldsAt, Uint32At;
    var len := Uint32At(b, pos);
    if len.Got? {
      ReadsWfEntryFields(b, len.pos, len.pos + len.value, Field([], Unset));
    }
  }

  lemma {:induction false} ReadsWfEntryFields(b: Bytes, pos: nat, end: nat, f: Field)
    requires pos <= |b| && Wf(f.value)
    ensures EntryFieldsAt(b, pos, end, f).Got? ==> Wf(EntryFieldsAt(b, pos, end, f).value.value)
    decreases |b| - pos, 0
  {
    hide ValueAt, StructAt, ListAt, EntryAt, SubValueAt, TagAt, BytesAt;
    if pos < end && TagAt(b, pos).Got? {
      var tag, p := TagAt(b, pos).value, TagAt(b, pos).pos;
      if tag.fieldNo == 1 {
        var r := BytesAt(b, p);
        if r.Got? {
          ReadsWfEntryFields(b, r.pos, end, f.(key := r.value));
        }
      } else if tag.fieldNo == 2 {
        ReadsWfSubValue(b, p, Unset);
        var r := SubValueAt(b, p, Unset);
        hide Wf;
        if r.Got? {
          ReadsWfEntryFields(b, r.pos, end, f.(value := r.value));
        }
      }
    }
  }

  lemma {:induction false} ReadsWfList(b: Bytes, pos: nat, end: nat, message: seq<Value>)
    requires pos <= |b| && WfList(message)
    ensures ListAt(b, pos, end, message).Got? ==> WfList(ListAt(b, pos, end, message).value)
    decreases |b| - pos, 0
  {
    hide ValueAt, StructAt, EntryAt, EntryFieldsAt, SubValueAt, TagAt, SkipAt, WfList;
    if pos < end && TagAt(b, pos).Got? {
      var tag, p := TagAt(b, pos).value, TagAt(b, pos).pos;
      if tag.fieldNo == 1 {
        ReadsWfSubValue(b, p, Unset);
        var r := SubValueAt(b, p, Unset);
        hide Wf;
        if r.Got? {
          SnocKeepsWf(message, r.value);
          ReadsWfList(b, r.pos, end, message + [r.value]);
        }
      } else {
        var r := SkipAt(b, p, tag.wireType);
        if r.Got? {
          ReadsWfList(b, r.pos, end, message);
        }
      }
    }
  }

  // Value.fromBinary
  function FromBinary(data: Bytes): Result<Value> {
    match ValueAt(data, 0, |data|, Unset)
    case Bad => Failure
    case Got(v, _) => Success(v)
  }

  /** What the writer wrote, the reader reads: at any depth, in any order of keys. */
  lemma RoundTrip(v: Value)
    requires Wf(v) && FitsValue(v)
    ensures FromBinary(EncValue(v)) == Success(v)
  {
    hide ValueAt, EncValue, Merge, Wf, FitsValue;
    ReadsToMerge(v, Unset);
    MergeIntoFresh(v);
  }

  /** A message decoded from any bytes is well formed, and survives being written and read again. */
  lemma DecodedSurvives(data: Bytes)
    ensures var r := FromBinary(data);
            r.Success? ==> Wf(r.value) && (FitsValue(r.value) ==> FromBinary(EncValue(r.value)) == r)
  {
    ReadsWf(data, 0, |data|, Unset);
    hide ValueAt, EncValue, FitsValue, Wf;
    var r := FromBinary(data);
    if r.Success? && FitsValue(r.value) {
      RoundTrip(r.value);
    }
  }

  /** The fields of Value, Struct and ListValue under their numbers: the tags are given as bytes. */
  lemma ValueLayout(v: Value)
    ensures EncValue(v) ==
            match v
            case Unset => []
            case NullValue(n) => [0x08] + EncInt(n)
            case NumberValue(number) => [0x11] + number
            case StringValue(s) => [0x1A] + Delimited(s)
            case BoolValue(b) => [0x20] + EncBool(b)
            case StructValue(fields) => [0x2A] + Delimited(EncStruct(fields))
            case ListValue(values) => [0x32] + Delimited(EncList(values))
  {
    hide EncInt, EncBool, Delimited, EncStruct, EncList;
  }

  lemma StructLayout(f: Field, fs: seq<Field>, v: Value, vs: seq<Value>)
    ensures EncStruct([]) == [] && EncList([]) == []
    ensures EncStruct([f] + fs)
         == [0x0A] + Delimited([0x0A] + Delimited(f.key) + ([0x12] + Delimited(EncValue(f.value)))) + EncStruct(fs)
    ensures EncList([v] + vs) == [0x0A] + Delimited(EncValue(v)) + EncList(vs)
  {
    assert EncTag(1, LengthDelimited) == [0x0A] && EncTag(2, LengthDelimited) == [0x12];
    hide EncTag, Delimited, EncValue;
    assert ([f] + fs)[1..] == fs && ([v] + vs)[1..] == vs;
    assert EncEntryBody(f) == [0x0A] + Delimited(f.key) + ([0x12] + Delimited(EncValue(f.value)));
    assert EncEntry(f) == [0x0A] + Delimited(EncEntryBody(f)) && EncItem(v) == [0x0A] + Delimited(EncValue(v));
  }

  /** Of two messages behind one another the last wins ("Last One Wins"), but lists grow and structs
      take over the properties of both. */
  lemma LastWins(v: Value, w: Value)
    requires Wf(v) && FitsValue(v) && Wf(w) && FitsValue(w)
    ensures var r := FromBinary(EncValue(v) + EncValue(w));
            && r.Success?
            && (w == Unset ==> r.value == v)
            && (v.ListValue? && w.ListValue? ==> r.value == ListValue(v.values + w.values))
            && (v.StructValue? && w.StructValue? ==>
                  r.value.StructValue? && AsMap(r.value.fields) == AsMap(v.fields) + AsMap(w.fields))
            && (w != Unset && !(v.ListValue? && w.ListValue?) && !(v.StructValue? && w.StructValue?) ==>
                  r.value == w)
  {
    ConcatenationMerges(v, w, Unset);
    MergeIntoFresh(v);
    hide ValueAt, EncValue, FitsValue;
    if w.StructValue? {
      if v.StructValue? {
        WfStructIs(v.fields);
        PutAllIsUnion(v.fields, w.fields);
      } else {
        MergeIntoFresh(w);
      }
    }
  }

  // ---------------------------------------------------------------- the readers

  /** Value.internalBinaryRead.  `target` is Unset where the caller passes none. */
  method ReadValue(reader: Reader, length: nat, target: Value) returns (r: Result<Value>)
    requires reader.Valid()
    modifies reader
    ensures reader.Valid()
    ensures Agrees(r, reader.pos, ValueAt(reader.buf, old(reader.pos), old(reader.pos) + length, target))
    decreases |reader.buf| - reader.pos, 0
  {
    hide StructAt, EntryAt, EntryFieldsAt, ListAt, SubValueAt, SubStructAt, SubListAt;
    var message, end := target, reader.pos + length;
    while reader.pos < end
      invariant reader.Valid() && old(reader.pos) <= reader.pos
      invariant ValueAt(reader.buf, reader.pos, end, message) == ValueAt(reader.buf, old(reader.pos), end, target)
      decreases |reader.buf| - reader.pos
    {
      var tag :- reader.Tag();
      match tag.fieldNo
      case 1 =>
        var n :- reader.Int32();
        message := NullValue(n);
      case 2 =>
        var number :- reader.Double();
        message := NumberValue(number);
      case 3 =>
        var s :- reader.Bytes();
        message := StringValue(s);
      case 4 =>
        var b :- reader.Bool();
        message := BoolValue(b);
      case 5 =>
        var fields :- ReadSubStruct(reader, StructOf(message));
        message := StructValue(fields);
      case 6 =>
        var values :- ReadSubList(reader, ListOf(message));
        message := ListValue(values);
      case _ =>
        var _ :- reader.Skip(tag.wireType);
    }
    r := Success(message);
  }

  /** Struct.internalBinaryRead */
  method ReadStruct(reader: Reader, length: nat, target: seq<Field>) returns (r: Result<seq<Field>>)
    requires reader.Valid()
    modifies reader
    ensures reader.Valid()
    ensures Agrees(r, reader.pos, StructAt(reader.buf, old(reader.pos), old(reader.pos) + length, target))
    decreases |reader.buf| - reader.pos, 0
  {
    hide ValueAt, ValueFieldAt, EntryAt, EntryFieldsAt, ListAt, SubValueAt, SubStructAt, SubListAt, Put;
    var message, end := target, reader.pos + length;
    while reader.pos < end
      invariant reader.Valid() && old(reader.pos) <= reader.pos
      invariant StructAt(reader.buf, reader.pos, end, message) == StructAt(reader.buf, old(reader.pos), end, target)
      decreases |reader.buf| - reader.pos
    {
      var tag :- reader.Tag();
      if tag.fieldNo == 1 {
        var f :- ReadMapEntry(reader);
        message := Put(message, f);
      } else {
        var _ :- reader.Skip(tag.wireType);
      }
    }
    r := Success(message);
  }

  /** Struct.binaryReadMap1, up to the assignment into the map. */
  method ReadMapEntry(reader: Reader) returns (r: Result<Field>)
    requires reader.Valid()
    modifies reader
    ensures reader.Valid()
    ensures Agrees(r, reader.pos, EntryAt(reader.buf, old(reader.pos)))
    decreases |reader.buf| - reader.pos, 0
  {
    hide ValueAt, ValueFieldAt, StructAt, ListAt, SubValueAt, SubStructAt, SubListAt;
    var len :- reader.Uint32();
    ghost var start := reader.pos;
    var end, key, val := reader.pos + len, [], Unset;
    while reader.pos < end
      invariant reader.Valid() && old(reader.pos) < start <= reader.pos
      invariant EntryFieldsAt(reader.buf, reader.pos, end, Field(key, val))
             == EntryFieldsAt(reader.buf, start, end, Field([], Unset))
      decreases |reader.buf| - reader.pos
    {
      var tag :- reader.Tag();
      match tag.fieldNo
      case 1 =>
        key :- reader.Bytes();
      case 2 =>
        val :- ReadSubValue(reader, Unset);
      case _ =>
        return Failure;
    }
    r := Success(Field(key, val));
  }

  /** ListValue.internalBinaryRead */
  method ReadList(reader: Reader, length: nat, target: seq<Value>) returns (r: Result<seq<Value>>)
    requires reader.Valid()
    modifies reader
    ensures reader.Valid()
    ensures Agrees(r, reader.pos, ListAt(reader.buf, old(reader.pos), old(reader.pos) + length, target))
    decreases |reader.buf| - reader.pos, 0
  {
    hide ValueAt, ValueFieldAt, StructAt, EntryAt, EntryFieldsAt, SubValueAt, SubStructAt, SubListAt;
    var message, end := target, reader.pos + length;
    while reader.pos < end
      invariant reader.Valid() && old(reader.pos) <= reader.pos
      invariant ListAt(reader.buf, reader.pos, end, message) == ListAt(reader.buf, old(reader.pos), end, target)
      decreases |reader.buf| - reader.pos
    {
      var tag :- reader.Tag();
      if tag.fieldNo == 1 {
        var v :- ReadSubValue(reader, Unset);
        message := message + [v];
      } else {
        var _ :- reader.Skip(tag.wireType);
      }
    }
    r := Success(message);
  }

  // internalBinaryRead(reader, reader.uint32(), options, target) of each type.
  method ReadSubValue(reader: Reader, target: Value) returns (r: Result<Value>)
    requires reader.Valid()
    modifies reader
    ensures reader.Valid() && Agrees(r, reader.pos, SubValueAt(reader.buf, old(reader.pos), target))
    decreases |reader.buf| - reader.pos, 1
  {
    hide ValueAt, ValueFieldAt, StructAt, EntryAt, EntryFieldsAt, ListAt, SubStructAt, SubListAt;
    var len :- reader.Uint32();
    r := ReadValue(reader, len, target);
  }

  method ReadSubStruct(reader: Reader, target: seq<Field>) returns (r: Result<seq<Field>>)
    requires reader.Valid()
    modifies reader
    ensures reader.Valid() && Agrees(r, reader.pos, SubStructAt(reader.buf, old(reader.pos), target))
    decreases |reader.buf| - reader.pos, 1
  {
    hide ValueAt, ValueFieldAt, StructAt, EntryAt, EntryFieldsAt, ListAt, SubValueAt, SubListAt;
    var len :- reader.Uint32();
    r := ReadStruct(reader, len, target);
  }

  method ReadSubList(reader: Reader, target: seq<Value>) returns (r: Result<seq<Value>>)
    requires reader.Valid()
    modifies reader
    ensures reader.Valid() && Agrees(r, reader.pos, SubListAt(reader.buf, old(reader.pos), target))
    decreases |reader.buf| - reader.pos, 1
  {
    hide ValueAt, ValueFieldAt, StructAt, EntryAt, EntryFieldsAt, ListAt, SubValueAt, SubStructAt;
    var len :- reader.Uint32();
    r := ReadList(reader, len, target);
  }

  // ---------------------------------------------------------------- the writers

  /** Value.internalBinaryWrite: the pure encoding lands behind what is already in
      the buffer, and every fork is joined; it throws exactly when a length does not fit. */
  method WriteValue(writer: Writer, message: Value) returns (r: Result<()>)
    modifies writer
    ensures r.Success? <==> FitsValue(message)
    ensures r.Success? ==> writer.buf == old(writer.buf) + EncValue(message) && writer.stack == old(writer.stack)
    decreases message, 0
  {
    hide EncTag, Delimited, EncVarint, EncStruct, EncList;
    ghost var before := writer.buf;
    match message {
    case Unset =>
    case NullValue(n) =>
      writer.Tag(1, Varint);
      writer.Append(EncInt(n));
      assert writer.buf == before + (EncTag(1, Varint) + EncInt(n));
    case NumberValue(number) =>
      writer.Tag(2, Bit64);
      writer.Append(number);
      assert writer.buf == before + (EncTag(2, Bit64) + number);
    case StringValue(s) =>
      writer.Tag(3, LengthDelimited);
      var _ :- writer.Bytes(s);
      assert writer.buf == before + (EncTag(3, LengthDelimited) + Delimited(s));
    case BoolValue(b) =>
      writer.Tag(4, Varint);
      writer.Append(EncBool(b));
      assert writer.buf == before + (EncTag(4, Varint) + EncBool(b));
    case StructValue(fields) =>
      writer.Tag(5, LengthDelimited);
      writer.Fork();
      var _ :- WriteStruct(writer, fields);
      assert writer.buf == EncStruct(fields);
      var _ :- writer.Join();
      assert writer.buf == before + (EncTag(5, LengthDelimited) + Delimited(EncStruct(fields)));
    case ListValue(values) =>
      writer.Tag(6, LengthDelimited);
      writer.Fork();
      var _ :- WriteList(writer, values);
      assert writer.buf == EncList(values);
      var _ :- writer.Join();
      assert writer.buf == before + (EncTag(6, LengthDelimited) + Delimited(EncList(values)));
    }
    r := Success(());
  }

  /** Struct.internalBinaryWrite: two forks for every map entry. */
  method WriteStruct(writer: Writer, fields: seq<Field>) returns (r: Result<()>)
    modifies writer
    ensures r.Success? <==> FitsStruct(fields)
    ensures r.Success? ==> writer.buf == old(writer.buf) + EncStruct(fields) && writer.stack == old(writer.stack)
    decreases fields, 0
  {
    var i := 0;
    while i < |fields|
      invariant 0 <= i <= |fields|
      invariant FitsStruct(fields) <==> FitsStruct(fields[i..])
      invariant writer.buf + EncStruct(fields[i..]) == old(writer.buf) + EncStruct(fields)
      invariant writer.stack == old(writer.stack)
    {
      var f, before := fields[i], writer.buf;
      assert fields[i..][0] == f && fields[i..][1..] == fields[i + 1..];
      var _ :- WriteEntry(writer, f);
      assert before + (EncEntry(f) + EncStruct(fields[i + 1..])) == writer.buf + EncStruct(fields[i + 1..]);
      i := i + 1;
    }
    r := Success(());
  }

  method WriteEntry(writer: Writer, f: Field) returns (r: Result<()>)
    modifies writer
    ensures r.Success? <==> FitsField(f)
    ensures r.Success? ==> writer.buf == old(writer.buf) + EncEntry(f) && writer.stack == old(writer.stack)
    decreases f, 1
  {
    hide EncTag, Delimited, EncVarint, EncValue;
    writer.Tag(1, LengthDelimited);
    ghost var outer := writer.buf;
    writer.Fork();
    writer.Tag(1, LengthDelimited);
    var _ :- writer.Bytes(f.key);
    writer.Tag(2, LengthDelimited);
    ghost var inner := writer.buf;
    writer.Fork();
    var _ :- WriteValue(writer, f.value);
    assert writer.buf == EncValue(f.value);
    var _ :- writer.Join();
    assert writer.buf == EncEntryBody(f);
    var _ :- writer.Join();
    assert writer.buf == outer + Delimited(EncEntryBody(f));
    r := Success(());
  }

  /** ListValue.internalBinaryWrite */
  method WriteList(writer: Writer, values: seq<Value>) returns (r: Result<()>)
    modifies writer
    ensures r.Success? <==> FitsList(values)
    ensures r.Success? ==> writer.buf == old(writer.buf) + EncList(values) && writer.stack == old(writer.stack)
    decreases values, 0
  {
    hide EncTag, Delimited, EncVarint, EncValue;
    var i := 0;
    while i < |values|
      invariant 0 <= i <= |values|
      invariant FitsList(values) <==> FitsList(values[i..])
      invariant writer.buf + EncList(values[i..]) == old(writer.buf) + EncList(values)
      invariant writer.stack == old(writer.stack)
    {
      var v, before := values[i], writer.buf;
      assert values[i..][0] == v && values[i..][1..] == values[i + 1..];
      writer.Tag(1, LengthDelimited);
      writer.Fork();
      var _ :- WriteValue(writer, v);
      assert writer.buf == EncValue(v);
      var _ :- writer.Join();
      assert writer.buf == before + EncItem(v);
      assert before + (EncItem(v) + EncList(values[i + 1..])) == writer.buf + EncList(values[i + 1..]);
      i := i + 1;
    }
    r := Success(());
  }
}

/** The JSON mapping of Value, Struct and ListValue, and a JSON value's way through a Result. */
module JsonMapping {
  import opened Wire
  import opened StructCodec
  import opened GraphSchema

  datatype Json =
    | JsonNull
    | JsonNumber(number: Double)
    | JsonString(s: Bytes)
    | JsonBool(b: bool)
    | JsonArray(items: seq<Json>)
    | JsonObject(members: seq<Member>)

  // An object lists its properties in Object.entries order.
  datatype Member = Member(key: Bytes, value: Json)

  predicate DistinctNames(ms: seq<Member>) {
    forall i, j :: 0 <= i < j < |ms| ==> ms[i].key != ms[j].key
  }

  predicate WfJson(j: Json)
    decreases j, 0
  {
    match j
    case JsonArray(items) => WfItems(items)
    case JsonObject(members) => WfMembers(members)
    case _ => true
  }

  predicate WfItems(js: seq<Json>)
    decreases js, 0
  {
    js == [] || (WfJson(js[0]) && WfItems(js[1..]))
  }

  predicate WfMembers(ms: seq<Member>)
    decreases ms, 0
  {
    ms == [] || (WfJson(ms[0].value) && DistinctNames(ms) && WfMembers(ms[1..]))
  }

  // ---------------------------------------------------------------- what the mapping computes

  function FromJson(j: Json): Value
    decreases j, 0
  {
    match j
    case JsonNull => NullValue(0)
    case JsonNumber(number) => NumberValue(number)
    case JsonString(s) => StringValue(s)
    case JsonBool(b) => BoolValue(b)
    case JsonArray(items) => ListValue(FromItems(items))
    case JsonObject(members) => StructValue(FromMembers(members, []))
  }

  function FromItems(js: seq<Json>): (vs: seq<Value>)
    decreases js, 0
  {
    if js == [] then [] else [FromJson(js[0])] + FromItems(js[1..])
  }

  // target.fields[k] = Value.fromJson(v), one property after the other.
  function FromMembers(ms: seq<Member>, target: seq<Field>): seq<Field>
    decreases ms, 0
  {
    if ms == [] then target
    else FromMembers(ms[1..], Put(target, Field(ms[0].key, FromJson(ms[0].value))))
  }

  function ToJson(v: Value): Result<Json>
    decreases v, 0
  {
    match v
    case Unset => Failure
    case NullValue(_) => Success(JsonNull)
    case NumberValue(number) => Success(JsonNumber(number))
    case StringValue(s) => Success(JsonString(s))
    case BoolValue(b) => Success(JsonBool(b))
    case ListValue(values) =>
      (match ToItems(values) case Failure => Failure case Success(items) => Success(JsonArray(items)))
    case StructValue(fields) =>
      (match ToMembers(fields) case Failure => Failure case Success(members) => Success(JsonObject(members)))
  }

  function ToItems(vs: seq<Value>): Result<seq<Json>>
    decreases vs, 0
  {
    if vs == [] then Success([])
    else match ToJson(vs[0])
         case Failure => Failure
         case Success(j) =>
           match ToItems(vs[1..])
           case Failure => Failure
           case Success(js) => Success([j] + js)
  }

  // The keys of an object are distinct, so each assignment adds a property.
  function ToMembers(fs: seq<Field>): Result<seq<Member>>
    decreases fs, 0
  {
    if fs == [] then Success([])
    else match ToJson(fs[0].value)
         case Failure => Failure
         case Success(j) =>
           match ToMembers(fs[1..])
           case Failure => Failure
           case Success(ms) => Success([Member(fs[0].key, j)] + ms)
  }

  // ---------------------------------------------------------------- JSON to messages and back

  /** Every JSON value comes back from its message, and its message is a well-formed one. */
  lemma {:induction false} JsonRoundTrip(j: Json)
    requires WfJson(j)
    ensures ToJson(FromJson(j)) == Success(j) && Wf(FromJson(j))
    decreases j, 0
  {
    match j
    case JsonArray(items) => ItemsRoundTrip(items);
    case JsonObject(members) =>
      MembersRoundTrip(members);
      MembersInOrder(members);
    case _ =>
  }

  lemma {:induction false} ItemsRoundTrip(js: seq<Json>)
    requires WfItems(js)
    ensures ToItems(FromItems(js)) == Success(js) && WfList(FromItems(js))
    decreases js, 0
  {
    if js != [] {
      JsonRoundTrip(js[0]);
      ItemsRoundTrip(js[1..]);
      assert FromItems(js)[1..] == FromItems(js[1..]) && js == [js[0]] + js[1..];
    }
  }

  // The struct of an object, property by property.
  function Mapped(ms: seq<Member>): (fs: seq<Field>)
    ensures |fs| == |ms|
    ensures forall i :: 0 <= i < |ms| ==> fs[i].key == ms[i].key
    decreases ms, 1
  {
    if ms == [] then [] else [Field(ms[0].key, FromJson(ms[0].value))] + Mapped(ms[1..])
  }

  lemma {:induction false} MembersRoundTrip(ms: seq<Member>)
    requires WfMembers(ms)
    ensures ToMembers(Mapped(ms)) == Success(ms) && WfStruct(Mapped(ms))
    decreases ms, 0
  {
    if ms != [] {
      JsonRoundTrip(ms[0].value);
      MembersRoundTrip(ms[1..]);
      assert Mapped(ms)[1..] == Mapped(ms[1..]) && ms == [ms[0]] + ms[1..];
    }
  }

  lemma MembersInOrder(ms: seq<Member>)
    requires DistinctKeys(Mapped(ms))
    ensures FromMembers(ms, []) == Mapped(ms)
  {
    MembersPutAll(ms, []);
    assert [] + Mapped(ms) == Mapped(ms);
    PutAllDistinct([], Mapped(ms));
  }

  lemma {:induction false} MembersPutAll(ms: seq<Member>, target: seq<Field>)
    ensures FromMembers(ms, target) == PutAll(target, Mapped(ms))
    decreases ms
  {
    if ms != [] {
      var f := Field(ms[0].key, FromJson(ms[0].value));
      MembersPutAll(ms[1..], Put(target, f));
      assert Mapped(ms)[0] == f && Mapped(ms)[1..] == Mapped(ms[1..]);
    }
  }

  /** Each kind of JSON value becomes its own kind of message, with the same content; the items of an
      array and the properties of an object keep their places. */
  lemma {:induction false} KindsMap(j: Json)
    requires WfJson(j)
    ensures var v := FromJson(j);
            && (j.JsonNull? ==> v == NullValue(0))
            && (j.JsonNumber? ==> v == NumberValue(j.number))
            && (j.JsonString? ==> v == StringValue(j.s))
            && (j.JsonBool? ==> v == BoolValue(j.b))
            && (j.JsonArray? ==>
                  && v.ListValue? && |v.values| == |j.items|
                  && forall i :: 0 <= i < |j.items| ==> v.values[i] == FromJson(j.items[i]))
            && (j.JsonObject? ==>
                  && v.StructValue? && |v.fields| == |j.members|
                  && forall i :: 0 <= i < |j.members| ==>
                       v.fields[i] == Field(j.members[i].key, FromJson(j.members[i].value)))
  {
    match j
    case JsonArray(items) => ItemsInPlace(items);
    case JsonObject(members) =>
      MembersRoundTrip(members);
      MembersInOrder(members);
      MembersInPlace(members);
    case _ =>
  }

  lemma {:induction false} ItemsInPlace(js: seq<Json>)
    ensures |FromItems(js)| == |js| && forall i :: 0 <= i < |js| ==> FromItems(js)[i] == FromJson(js[i])
  {
    hide FromJson;
    if js != [] {
      ItemsInPlace(js[1..]);
    }
  }

  lemma {:induction false} MembersInPlace(ms: seq<Member>)
    ensures forall i :: 0 <= i < |ms| ==> Mapped(ms)[i] == Field(ms[i].key, FromJson(ms[i].value))
  {
    hide FromJson;
    if ms != [] {
      MembersInPlace(ms[1..]);
    }
  }

  // ---------------------------------------------------------------- messages to JSON and back

  /** No kind is unset, at any depth. */
  predicate AllSet(v: Value)
    decreases v, 0
  {
    match v
    case Unset => false
    case StructValue(fields) => FieldsSet(fields)
    case ListValue(values) => ListSet(values)
    case _ => true
  }

  predicate FieldsSet(fs: seq<Field>)
    decreases fs, 0
  {
    fs == [] || (AllSet(fs[0].value) && FieldsSet(fs[1..]))
  }

  predicate ListSet(vs: seq<Value>)
    decreases vs, 0
  {
    vs == [] || (AllSet(vs[0]) && ListSet(vs[1..]))
  }

  /** Every null is NULL_VALUE, the only number the enum names. */
  predicate PlainNulls(v: Value)
    decreases v, 0
  {
    match v
    case NullValue(n) => n == 0
    case StructValue(fields) => FieldNulls(fields)
    case ListValue(values) => ListNulls(values)
    case _ => true
  }

  predicate FieldNulls(fs: seq<Field>)
    decreases fs, 0
  {
    fs == [] || (PlainNulls(fs[0].value) && FieldNulls(fs[1..]))
  }

  predicate ListNulls(vs: seq<Value>)
    decreases vs, 0
  {
    vs == [] || (PlainNulls(vs[0]) && ListNulls(vs[1..]))
  }

  /** Value.toJson throws exactly on an unset kind at some depth; where it does not, fromJson
      gives the message back exactly when no null carries another number than NULL_VALUE. */
  lemma {:induction false} MessageRoundTrip(v: Value)
    requires Wf(v)
    ensures ToJson(v).Success? <==> AllSet(v)
    ensures AllSet(v) ==> (FromJson(ToJson(v).value) == v <==> PlainNulls(v))
    decreases v, 0
  {
    match v
    case StructValue(fields) =>
      StructRoundTrip(fields);
      if FieldsSet(fields) {
        MembersInOrder(ToMembers(fields).value);
      }
    case ListValue(values) => ListRoundTrip(values);
    case _ =>
  }

  lemma {:induction false} StructRoundTrip(fs: seq<Field>)
    requires WfStruct(fs)
    ensures ToMembers(fs).Success? <==> FieldsSet(fs)
    ensures FieldsSet(fs) ==>
              var ms := ToMembers(fs).value;
              && |ms| == |fs| && DistinctKeys(Mapped(ms)) && (Mapped(ms) == fs <==> FieldNulls(fs))
              && forall i :: 0 <= i < |ms| ==> ms[i].key == fs[i].key
    decreases fs, 0
  {
    if fs != [] {
      MessageRoundTrip(fs[0].value);
      StructRoundTrip(fs[1..]);
      if FieldsSet(fs) {
        var ms := ToMembers(fs).value;
        var f := Field(ms[0].key, FromJson(ms[0].value));
        assert ms == [Member(fs[0].key, ToJson(fs[0].value).value)] + ToMembers(fs[1..]).value;
        assert ms[1..] == ToMembers(fs[1..]).value;
        ConsEquality(f, Mapped(ms[1..]), fs);
      }
    }
  }

  lemma ConsEquality(f: Field, rest: seq<Field>, fs: seq<Field>)
    requires fs != [] && f.key == fs[0].key && DistinctKeys(fs) && DistinctKeys(rest)
    requires |rest| == |fs| - 1 && forall i :: 0 <= i < |rest| ==> rest[i].key == fs[1..][i].key
    ensures [f] + rest == fs <==> f.value == fs[0].value && rest == fs[1..]
    ensures DistinctKeys([f] + rest)
  {
    assert fs == [fs[0]] + fs[1..];
    assert ([f] + rest)[0] == f && ([f] + rest)[1..] == rest;
    assert forall i :: 0 <= i < |fs| ==> ([f] + rest)[i].key == fs[i].key;
  }

  lemma {:induction false} ListRoundTrip(vs: seq<Value>)
    requires WfList(vs)
    ensures ToItems(vs).Success? <==> ListSet(vs)
    ensures ListSet(vs) ==> (FromItems(ToItems(vs).value) == vs <==> ListNulls(vs))
    decreases vs, 0
  {
    if vs != [] {
      MessageRoundTrip(vs[0]);
      ListRoundTrip(vs[1..]);
      if ListSet(vs) {
        var js := ToItems(vs).value;
        assert js[1..] == ToItems(vs[1..]).value;
        assert FromItems(js)[0] == FromJson(js[0]) && FromItems(js)[1..] == FromItems(js[1..]);
        assert vs == [vs[0]] + vs[1..];
      }
    }
  }

  /** A null of another number is read from the wire and lost through JSON. */
  lemma OtherNullsAreLost()
    ensures FromBinary([8, 1]) == Success(NullValue(1))
    ensures FromJson(ToJson(NullValue(1)).value) == NullValue(0)
  {
    assert EncValue(NullValue(1)) == [8, 1];
    RoundTrip(NullValue(1));
  }

  /** Any JSON value sent as data or as error comes back unchanged:
      fromJson, write, read, toJson. */
  lemma JsonThroughResult(j: Json)
    requires WfJson(j) && FitsValue(FromJson(j)) && Fits(EncValue(FromJson(j)))
    ensures var data := OutcomeFromBinary(EncOutcome(Data(FromJson(j))));
            data.Success? && data.value.Data? && ToJson(data.value.data) == Success(j)
    ensures var error := OutcomeFromBinary(EncOutcome(Error(FromJson(j))));
            error.Success? && error.value.Error? && ToJson(error.value.error) == Success(j)
  {
    JsonRoundTrip(j);
    OutcomeRoundTrip(Data(FromJson(j)));
    OutcomeRoundTrip(Error(FromJson(j)));
  }

  // ---------------------------------------------------------------- internalJsonRead, internalJsonWrite

  method ReadValueJson(json: Json) returns (v: Value)
    ensures v == FromJson(json)
    decreases json, 1
  {
    match json
    case JsonNull => v := NullValue(0);
    case JsonNumber(number) => v := NumberValue(number);
    case JsonString(s) => v := StringValue(s);
    case JsonBool(b) => v := BoolValue(b);
    case JsonArray(_) =>
      var list := ReadListJson(json, []);
      v := ListValue(list.value);
    case JsonObject(_) =>
      var fields := ReadStructJson(json, []);
      v := StructValue(fields.value);
  }

  method ReadStructJson(json: Json, target: seq<Field>) returns (r: Result<seq<Field>>)
    ensures r == if json.JsonObject? then Success(FromMembers(json.members, target)) else Failure
    decreases json, 0
  {
    if !json.JsonObject? {
      return Failure;
    }
    var fields, i := target, 0;
    assert json.members[0..] == json.members;
    while i < |json.members|
      invariant 0 <= i <= |json.members|
      invariant FromMembers(json.members[i..], fields) == FromMembers(json.members, target)
    {
      var member := json.members[i];
      var v := ReadValueJson(member.value);
      assert json.members[i..][0] == member && json.members[i..][1..] == json.members[i + 1..];
      fields := Put(fields, Field(member.key, v));
      i := i + 1;
    }
    r := Success(fields);
  }

  method ReadListJson(json: Json, target: seq<Value>) returns (r: Result<seq<Value>>)
    ensures r == if json.JsonArray? then Success(target + FromItems(json.items)) else Failure
    decreases json, 0
  {
    if !json.JsonArray? {
      return Failure;
    }
    var values, i := target, 0;
    assert json.items[0..] == json.items;
    while i < |json.items|
      invariant 0 <= i <= |json.items|
      invariant values + FromItems(json.items[i..]) == target + FromItems(json.items)
    {
      var v := ReadValueJson(json.items[i]);
      assert json.items[i..][0] == json.items[i] && json.items[i..][1..] == json.items[i + 1..];
      assert values + ([v] + FromItems(json.items[i + 1..])) == values + [v] + FromItems(json.items[i + 1..]);
      values := values + [v];
      i := i + 1;
    }
    assert values + [] == values;
    r := Success(values);
  }

  method WriteValueJson(message: Value) returns (r: Result<Json>)
    ensures r == ToJson(message)
    decreases message, 1
  {
    match message
    case Unset => r := Failure;
    case NullValue(_) => r := Success(JsonNull);
    case NumberValue(number) => r := Success(JsonNumber(number));
    case StringValue(s) => r := Success(JsonString(s));
    case BoolValue(b) => r := Success(JsonBool(b));
    case ListValue(values) =>
      var items :- WriteListJson(values);
      r := Success(JsonArray(items));
    case StructValue(fields) =>
      var members :- WriteStructJson(fields);
      r := Success(JsonObject(members));
  }

  method WriteStructJson(message: seq<Field>) returns (r: Result<seq<Member>>)
    ensures r == ToMembers(message)
    decreases message, 0
  {
    var json, i := [], 0;
    assert message[0..] == message;
    while i < |message|
      invariant 0 <= i <= |message|
      invariant ToMembers(message).Success? <==> ToMembers(message[i..]).Success?
      invariant ToMembers(message).Success? ==> ToMembers(message).value == json + ToMembers(message[i..]).value
    {
      var f := message[i];
      assert message[i..][0] == f && message[i..][1..] == message[i + 1..];
      var v :- WriteValueJson(f.value);
      json := json + [Member(f.key, v)];
      i := i + 1;
    }
    assert json + [] == json;
    r := Success(json);
  }

  method WriteListJson(message: seq<Value>) returns (r: Result<seq<Json>>)
    ensures r == ToItems(message)
    decreases message, 0
  {
    var json, i := [], 0;
    assert message[0..] == message;
    while i < |message|
      invariant 0 <= i <= |message|
      invariant ToItems(message).Success? <==> ToItems(message[i..]).Success?
      invariant ToItems(message).Success? ==> ToItems(message).value == json + ToItems(message[i..]).value
    {
      var v := message[i];
      assert message[i..][0] == v && message[i..][1..] == message[i + 1..];
      var j :- WriteValueJson(v);
      json := json + [j];
      i := i + 1;
    }
    assert json + [] == json;
    r := Success(json);
  }
}

/** The filter compiler of the query engine: a tree of JSON operators becomes a predicate
    on documents.  Its meaning is given a second time, directly, and the two agree. */
module Filter {
  import opened Wire

  // A string is its sequence of code units.
  datatype Scalar = Num(n: real) | Text(s: string)
  type Doc = map<string, Scalar>
  datatype FilterValue = One(scalar: Scalar) | Many(list: seq<Scalar>)

  // A filter object in Object.entries order: operators under a field, or nodes under `and`/`or`.
  datatype Node = Node(entries: seq<Entry>)
  datatype Entry = Entry(key: string, body: Body)
  datatype Body = Ops(ops: seq<Atom>) | Kids(kids: seq<Node>)
  datatype Atom = Atom(op: string, value: FilterValue)

  datatype Error = BadQuery | NotImplemented(op: string) | NotAFunction
  datatype Verdict = Holds(b: bool) | Throws(error: Error)

  // Comparison of unlike types is JavaScript's coercion, which is not modelled: any
  // function of the operator and the operands.
  type Coercion = (string, Scalar, FilterValue) -> bool

  // ---------------------------------------------------------------- the operators

  predicate IsLogical(key: string) {
    key == "and" || key == "or"
  }

  // !value
  predicate Falsy(v: FilterValue) {
    v == One(Num(0.0)) || v == One(Text(""))
  }

  predicate Known(op: string) {
    op in {"ne", "gt", "lt", "gte", "lte", "eq", "in", "nin"}
  }

  predicate TextLess(a: string, b: string) {
    b != [] && (a == [] || a[0] < b[0] || (a[0] == b[0] && TextLess(a[1..], b[1..])))
  }

  predicate Less(a: Scalar, b: Scalar)
    requires a.Num? <==> b.Num?
  {
    if a.Num? then a.n < b.n else TextLess(a.s, b.s)
  }

  // doc[field] op value for the six comparisons; a missing field is undefined, which
  // equals nothing here and is neither less nor greater.
  predicate Compare(coerce: Coercion, op: string, x: Option<Scalar>, v: FilterValue) {
    match x
    case None => op == "ne"
    case Some(a) =>
      if v.Many? || (a.Num? != v.scalar.Num?) then
        if op == "ne" then !coerce("eq", a, v) else coerce(op, a, v)
      else
        var b := v.scalar;
        match op
        case "eq" => a == b
        case "ne" => a != b
        case "gt" => Less(b, a)
        case "lt" => Less(a, b)
        case "gte" => !Less(a, b)
        case _ => !Less(b, a)
  }

  function Lookup(doc: Doc, field: string): Option<Scalar> {
    if field in doc then Some(doc[field]) else None
  }

  // value.indexOf(doc[field]) >= 0
  predicate Contains(v: FilterValue, x: Option<Scalar>)
    requires v.Many?
  {
    x.Some? && x.value in v.list
  }

  /** What one operator says of a field. */
  predicate Test(coerce: Coercion, a: Atom, x: Option<Scalar>) {
    match a.op
    case "in" => a.value.Many? && Contains(a.value, x)
    case "nin" => a.value.Many? && !Contains(a.value, x)
    case _ => Compare(coerce, a.op, x, a.value)
  }

  /** On operands of one type the six comparisons are those of one strict total order. */
  lemma ComparisonsCohere(coerce: Coercion, a: Scalar, b: Scalar)
    requires a.Num? <==> b.Num?
    ensures var lt := Compare(coerce, "lt", Some(a), One(b));
            var eq := Compare(coerce, "eq", Some(a), One(b));
            var gt := Compare(coerce, "gt", Some(a), One(b));
            && (lt || eq || gt) && !(lt && eq) && !(lt && gt) && !(eq && gt)
            && (eq <==> a == b)
            && (a.Num? ==> (lt <==> a.n < b.n))
            && (a.Text? && (a.s < b.s) ==> lt)
            && (Compare(coerce, "lte", Some(a), One(b)) <==> lt || eq)
            && (Compare(coerce, "gte", Some(a), One(b)) <==> gt || eq)
            && (Compare(coerce, "ne", Some(a), One(b)) <==> !eq)
  {
    if a.Text? {
      TextTotal(a.s, b.s);
      if a.s < b.s {
        PrefixIsLess(a.s, b.s);
      }
    }
  }

  lemma {:induction false} TextTotal(a: string, b: string)
    ensures TextLess(a, b) || a == b || TextLess(b, a)
    ensures !(TextLess(a, b) && TextLess(b, a)) && !TextLess(a, a)
  {
    if a != [] && b != [] {
      TextTotal(a[1..], b[1..]);
      assert a == [a[0]] + a[1..] && b == [b[0]] + b[1..];
    } else if a != [] {
      TextTotal(a[1..], a[1..]);
    }
  }

  /** And it is transitive. */
  lemma ComparisonsAreTransitive(coerce: Coercion, a: Scalar, b: Scalar, c: Scalar)
    requires (a.Num? <==> b.Num?) && (b.Num? <==> c.Num?)
    ensures Compare(coerce, "lt", Some(a), One(b)) && Compare(coerce, "lt", Some(b), One(c)) ==>
              Compare(coerce, "lt", Some(a), One(c))
    ensures Compare(coerce, "lte", Some(a), One(b)) && Compare(coerce, "lte", Some(b), One(c)) ==>
              Compare(coerce, "lte", Some(a), One(c))
    ensures Compare(coerce, "lt", Some(a), One(b)) <==> Compare(coerce, "gt", Some(b), One(a))
  {
    if a.Text? {
      hide TextLess;
      TextTotal(a.s, b.s);
      TextTotal(b.s, c.s);
      TextTotal(a.s, c.s);
      TextTransitive(a.s, b.s, c.s);
      TextTransitive(c.s, b.s, a.s);
    }
  }

  lemma {:induction false} TextTransitive(a: string, b: string, c: string)
    ensures TextLess(a, b) && TextLess(b, c) ==> TextLess(a, c)
  {
    if a != [] && b != [] && c != [] {
      TextTransitive(a[1..], b[1..], c[1..]);
    }
  }

  lemma {:induction false} PrefixIsLess(a: string, b: string)
    requires a < b
    ensures TextLess(a, b)
  {
    if a != [] {
      PrefixIsLess(a[1..], b[1..]);
    }
  }

  // ---------------------------------------------------------------- the compiler

  // ops.reduce(..., true)
  function ReduceOps(coerce: Coercion, ops: seq<Atom>, x: Option<Scalar>, prev: bool): Verdict {
    if ops == [] then Holds(prev)
    else
      var a := ops[0];
      if Falsy(a.value) then Throws(BadQuery)
      else if !Known(a.op) then Throws(NotImplemented(a.op))
      else ReduceOps(coerce, ops[1..], x, prev && Test(coerce, a, x))
  }

  // An array where operators are expected has its indices for operators.
  function EvalField(coerce: Coercion, e: Entry, doc: Doc): Verdict {
    match e.body
    case Ops(ops) => ReduceOps(coerce, ops, Lookup(doc, e.key), true)
    case Kids(kids) => if kids == [] then Holds(true) else Throws(NotImplemented("0"))
  }

  function EvalFields(coerce: Coercion, entries: seq<Entry>, doc: Doc): (vs: seq<Verdict>)
    ensures |vs| == |entries|
  {
    if entries == [] then [] else [EvalField(coerce, entries[0], doc)] + EvalFields(coerce, entries[1..], doc)
  }

  // vs.map(...).every(Boolean): map runs through before every looks, so the first throw wins.
  function Every(vs: seq<Verdict>): Verdict {
    if vs == [] then Holds(true)
    else if vs[0].Throws? then vs[0]
    else match Every(vs[1..])
         case Throws(e) => Throws(e)
         case Holds(b) => Holds(vs[0].b && b)
  }

  // vs.map(...).some(Boolean)
  function Any(vs: seq<Verdict>): Verdict {
    if vs == [] then Holds(false)
    else if vs[0].Throws? then vs[0]
    else match Any(vs[1..])
         case Throws(e) => Throws(e)
         case Holds(b) => Holds(vs[0].b || b)
  }

  predicate IsLeaf(node: Node) {
    exists i :: 0 <= i < |node.entries| && !IsLogical(node.entries[i].key)
  }

  /** _reGetFilter */
  function Compile(coerce: Coercion, node: Node): Doc -> Verdict
    decreases node, 0
  {
    if node.entries == [] then (doc: Doc) => Holds(true)
    else if IsLeaf(node) then (doc: Doc) => Every(EvalFields(coerce, node.entries, doc))
    else
      var e := node.entries[0];
      match e.body
      case Ops(_) => (doc: Doc) => Throws(NotAFunction)
      case Kids(kids) =>
        if e.key == "or" then (doc: Doc) => Any(RunAll(coerce, kids, doc))
        else (doc: Doc) => Every(RunAll(coerce, kids, doc))
  }

  // childrenNodes.map(node => _reGetFilter(node)(doc))
  function RunAll(coerce: Coercion, kids: seq<Node>, doc: Doc): (vs: seq<Verdict>)
    ensures |vs| == |kids|
    decreases kids, 0
  {
    if kids == [] then [] else [Compile(coerce, kids[0])(doc)] + RunAll(coerce, kids[1..], doc)
  }

  // ---------------------------------------------------------------- the direct meaning

  // The first operator of a list, field or tree that is refused, whatever the document.
  function RefusedOps(ops: seq<Atom>): Option<Error> {
    if ops == [] then None
    else if Falsy(ops[0].value) then Some(BadQuery)
    else if !Known(ops[0].op) then Some(NotImplemented(ops[0].op))
    else RefusedOps(ops[1..])
  }

  function RefusedField(e: Entry): Option<Error> {
    match e.body
    case Ops(ops) => RefusedOps(ops)
    case Kids(kids) => if kids == [] then None else Some(NotImplemented("0"))
  }

  function RefusedFields(entries: seq<Entry>): Option<Error> {
    if entries == [] then None
    else if RefusedField(entries[0]).Some? then RefusedField(entries[0])
    else RefusedFields(entries[1..])
  }

  function Refused(node: Node): Option<Error>
    decreases node, 0
  {
    if node.entries == [] then None
    else if IsLeaf(node) then RefusedFields(node.entries)
    else match node.entries[0].body
         case Ops(_) => Some(NotAFunction)
         case Kids(kids) => RefusedKids(kids)
  }

  function RefusedKids(kids: seq<Node>): Option<Error>
    decreases kids, 0
  {
    if kids == [] then None
    else if Refused(kids[0]).Some? then Refused(kids[0])
    else RefusedKids(kids[1..])
  }

  predicate OpsHold(coerce: Coercion, ops: seq<Atom>, x: Option<Scalar>) {
    forall a :: a in ops ==> Test(coerce, a, x)
  }

  predicate FieldHolds(coerce: Coercion, e: Entry, doc: Doc) {
    e.body.Ops? ==> OpsHold(coerce, e.body.ops, Lookup(doc, e.key))
  }

  /** Every operator of every field holds; one child of an `or` holds; all of an `and` do. */
  predicate Meaning(coerce: Coercion, node: Node, doc: Doc)
    decreases node
  {
    if node.entries == [] then true
    else if IsLeaf(node) then
      forall e :: e in node.entries ==> FieldHolds(coerce, e, doc)
    else match node.entries[0].body
         case Ops(_) => false
         case Kids(kids) =>
           if node.entries[0].key == "or" then exists i :: 0 <= i < |kids| && Meaning(coerce, kids[i], doc)
           else forall i :: 0 <= i < |kids| ==> Meaning(coerce, kids[i], doc)
  }

  // ---------------------------------------------------------------- they agree

  function Outcome(refused: Option<Error>, b: bool): Verdict {
    match refused
    case Some(e) => Throws(e)
    case None => Holds(b)
  }

  /** The compiled filter throws exactly what the tree refuses, on any document, and
      otherwise says exactly what the tree means. */
  lemma {:induction false} CompiledAgrees(coerce: Coercion, node: Node, doc: Doc)
    ensures Compile(coerce, node)(doc) == Outcome(Refused(node), Meaning(coerce, node, doc))
    decreases node, 0
  {
    if node.entries == [] {
    } else if IsLeaf(node) {
      FieldsAgree(coerce, node.entries, doc);
    } else {
      match node.entries[0].body
      case Ops(_) =>
      case Kids(kids) => KidsAgree(coerce, kids, doc);
    }
  }

  lemma {:induction false} OpsAgree(coerce: Coercion, ops: seq<Atom>, x: Option<Scalar>, prev: bool)
    ensures ReduceOps(coerce, ops, x, prev) == Outcome(RefusedOps(ops), prev && OpsHold(coerce, ops, x))
  {
    if ops != [] {
      OpsAgree(coerce, ops[1..], x, prev && Test(coerce, ops[0], x));
      hide Test;
      assert forall a :: a in ops <==> a == ops[0] || a in ops[1..];
    }
  }

  lemma FieldAgrees(coerce: Coercion, e: Entry, doc: Doc)
    ensures EvalField(coerce, e, doc) == Outcome(RefusedField(e), FieldHolds(coerce, e, doc))
  {
    hide OpsHold;
    if e.body.Ops? {
      OpsAgree(coerce, e.body.ops, Lookup(doc, e.key), true);
    }
  }

  lemma {:induction false} FieldsAgree(coerce: Coercion, entries: seq<Entry>, doc: Doc)
    ensures Every(EvalFields(coerce, entries, doc))
         == Outcome(RefusedFields(entries), forall e :: e in entries ==> FieldHolds(coerce, e, doc))
  {
    hide EvalField, RefusedField, FieldHolds;
    if entries != [] {
      var e, rest := entries[0], entries[1..];
      FieldAgrees(coerce, e, doc);
      FieldsAgree(coerce, rest, doc);
      EveryCons(EvalField(coerce, e, doc), EvalFields(coerce, rest, doc));
      hide Every;
      assert forall f :: f in entries <==> f == e || f in rest;
    }
  }

  // Both sides of a conjunction of verdicts; the first throw wins.
  function Both(v: Verdict, w: Verdict): Verdict {
    if v.Throws? then v else if w.Throws? then w else Holds(v.b && w.b)
  }

  lemma EveryCons(v: Verdict, vs: seq<Verdict>)
    ensures Every([v] + vs) == Both(v, Every(vs))
  {
    assert ([v] + vs)[1..] == vs;
  }

  lemma {:induction false} KidsAgree(coerce: Coercion, kids: seq<Node>, doc: Doc)
    ensures Every(RunAll(coerce, kids, doc))
         == Outcome(RefusedKids(kids), forall i :: 0 <= i < |kids| ==> Meaning(coerce, kids[i], doc))
    ensures Any(RunAll(coerce, kids, doc))
         == Outcome(RefusedKids(kids), exists i :: 0 <= i < |kids| && Meaning(coerce, kids[i], doc))
    decreases kids, 0
  {
    hide Meaning, Compile, Refused;
    if kids != [] {
      var kid, rest := kids[0], kids[1..];
      CompiledAgrees(coerce, kid, doc);
      KidsAgree(coerce, rest, doc);
      EveryCons(Compile(coerce, kid)(doc), RunAll(coerce, rest, doc));
      AnyCons(Compile(coerce, kid)(doc), RunAll(coerce, rest, doc));
      assert RunAll(coerce, kids, doc) == [Compile(coerce, kid)(doc)] + RunAll(coerce, rest, doc);
      hide Every, Any, RunAll;
      MeaningsCons(coerce, kids, doc);
    }
  }

  lemma MeaningsCons(coerce: Coercion, kids: seq<Node>, doc: Doc)
    requires kids != []
    ensures (forall i :: 0 <= i < |kids| ==> Meaning(coerce, kids[i], doc))
       <==> Meaning(coerce, kids[0], doc) && forall i :: 0 <= i < |kids[1..]| ==> Meaning(coerce, kids[1..][i], doc)
    ensures (exists i :: 0 <= i < |kids| && Meaning(coerce, kids[i], doc))
       <==> Meaning(coerce, kids[0], doc) || exists i :: 0 <= i < |kids[1..]| && Meaning(coerce, kids[1..][i], doc)
  {
    hide Meaning;
    var rest := kids[1..];
    assert forall i :: 0 <= i < |rest| ==> rest[i] == kids[i + 1];
    assert forall i :: 0 < i < |kids| ==> kids[i] == rest[i - 1];
  }

  // Both sides of a disjunction of verdicts.
  function Either(v: Verdict, w: Verdict): Verdict {
    if v.Throws? then v else if w.Throws? then w else Holds(v.b || w.b)
  }

  lemma AnyCons(v: Verdict, vs: seq<Verdict>)
    ensures Any([v] + vs) == Either(v, Any(vs))
  {
    assert ([v] + vs)[1..] == vs;
  }

  /** No short circuit: a filter throws on one document exactly when it throws on every
      document, and always the same. */
  lemma ThrowsEverywhereOrNowhere(coerce: Coercion, node: Node, doc: Doc, doc': Doc)
    ensures Compile(coerce, node)(doc).Throws? <==> Compile(coerce, node)(doc').Throws?
    ensures Compile(coerce, node)(doc).Throws? ==> Compile(coerce, node)(doc) == Compile(coerce, node)(doc')
  {
    CompiledAgrees(coerce, node, doc);
    CompiledAgrees(coerce, node, doc');
  }

  // ---------------------------------------------------------------- a leaf is the `and` of its operators

  function SinglesOf(key: string, ops: seq<Atom>): seq<Node> {
    if ops == [] then [] else [Node([Entry(key, Ops([ops[0]]))])] + SinglesOf(key, ops[1..])
  }

  function Singles(entries: seq<Entry>): seq<Node> {
    if entries == [] then []
    else (if entries[0].body.Ops? then SinglesOf(entries[0].key, entries[0].body.ops) else []) + Singles(entries[1..])
  }

  predicate FieldFilter(entries: seq<Entry>) {
    forall e :: e in entries ==> !IsLogical(e.key) && e.body.Ops?
  }

  /** A leaf with many fields and operators is the `and` of its single-operator leaves. */
  lemma LeafIsConjunction(coerce: Coercion, entries: seq<Entry>, doc: Doc)
    requires FieldFilter(entries)
    ensures Compile(coerce, Node(entries))(doc)
         == Compile(coerce, Node([Entry("and", Kids(Singles(entries)))]))(doc)
  {
    SinglesRun(coerce, entries, doc);
    if entries != [] {
      assert entries[0] in entries;
      assert IsLeaf(Node(entries));
    } else {
      assert Every([]) == Holds(true);
    }
  }

  lemma {:induction false} SinglesRun(coerce: Coercion, entries: seq<Entry>, doc: Doc)
    requires FieldFilter(entries)
    ensures Every(RunAll(coerce, Singles(entries), doc)) == Every(EvalFields(coerce, entries, doc))
  {
    if entries != [] {
      var e, rest := entries[0], entries[1..];
      assert e in entries;
      assert forall f :: f in rest ==> f in entries;
      SinglesRun(coerce, rest, doc);
      SinglesOfRun(coerce, e.key, e.body.ops, doc, Singles(rest));
      hide RunAll, SinglesOf, ReduceOps, Every;
      EveryCons(EvalField(coerce, e, doc), EvalFields(coerce, rest, doc));
    }
  }

  lemma {:induction false} SinglesOfRun(coerce: Coercion, key: string, ops: seq<Atom>, doc: Doc, rest: seq<Node>)
    requires !IsLogical(key)
    ensures Every(RunAll(coerce, SinglesOf(key, ops) + rest, doc))
         == Both(ReduceOps(coerce, ops, Lookup(doc, key), true), Every(RunAll(coerce, rest, doc)))
  {
    hide IsLogical, Compile, Test, RunAll, Every, Lookup;
    if ops == [] {
      assert SinglesOf(key, ops) + rest == rest;
    } else {
      var x := Lookup(doc, key);
      var single, others := Node([Entry(key, Ops([ops[0]]))]), SinglesOf(key, ops[1..]) + rest;
      SinglesOfRun(coerce, key, ops[1..], doc, rest);
      SingleRun(coerce, key, ops[0], doc);
      ReduceFirst(coerce, ops, x);
      assert SinglesOf(key, ops) + rest == [single] + others;
      RunCons(coerce, single, others, doc);
      hide ReduceOps;
      EveryCons(Compile(coerce, single)(doc), RunAll(coerce, others, doc));
    }
  }

  lemma RunCons(coerce: Coercion, kid: Node, kids: seq<Node>, doc: Doc)
    ensures RunAll(coerce, [kid] + kids, doc) == [Compile(coerce, kid)(doc)] + RunAll(coerce, kids, doc)
  {
    assert ([kid] + kids)[1..] == kids;
    hide Compile;
  }

  lemma SingleRun(coerce: Coercion, key: string, a: Atom, doc: Doc)
    requires !IsLogical(key)
    ensures Compile(coerce, Node([Entry(key, Ops([a]))]))(doc) == ReduceOps(coerce, [a], Lookup(doc, key), true)
  {
    var entries := [Entry(key, Ops([a]))];
    assert entries[0].key == key;
    assert IsLeaf(Node(entries));
    assert EvalFields(coerce, entries, doc) == [EvalField(coerce, entries[0], doc)] + EvalFields(coerce, [], doc);
    assert Every(EvalFields(coerce, entries, doc)[1..]) == Holds(true);
  }

  lemma ReduceFirst(coerce: Coercion, ops: seq<Atom>, x: Option<Scalar>)
    requires ops != []
    ensures ReduceOps(coerce, ops, x, true)
         == Both(ReduceOps(coerce, [ops[0]], x, true), ReduceOps(coerce, ops[1..], x, true))
  {
    hide Test;
    ReducePrev(coerce, ops[1..], x, Test(coerce, ops[0], x));
    assert ReduceOps(coerce, [ops[0]][1..], x, true && Test(coerce, ops[0], x)) == Holds(Test(coerce, ops[0], x));
  }

  lemma {:induction false} ReducePrev(coerce: Coercion, ops: seq<Atom>, x: Option<Scalar>, prev: bool)
    ensures ReduceOps(coerce, ops, x, prev) == Both(Holds(prev), ReduceOps(coerce, ops, x, true))
  {
    hide Test;
    if ops != [] {
      ReducePrev(coerce, ops[1..], x, prev && Test(coerce, ops[0], x));
      ReducePrev(coerce, ops[1..], x, Test(coerce, ops[0], x));
    }
  }

  // ---------------------------------------------------------------- what each operator says, compiled

  // The filter { field: { op: v } }.
  function Single(field: string, op: string, v: FilterValue): Node {
    Node([Entry(field, Ops([Atom(op, v)]))])
  }

  lemma SingleIs(coerce: Coercion, field: string, op: string, v: FilterValue, doc: Doc)
    requires field != "and" && field != "or"
    ensures Compile(coerce, Single(field, op, v))(doc) ==
            if Falsy(v) then Throws(BadQuery)
            else if !Known(op) then Throws(NotImplemented(op))
            else Holds(Test(coerce, Atom(op, v), Lookup(doc, field)))
  {
    SingleRun(coerce, field, Atom(op, v), doc);
    var x, atoms := Lookup(doc, field), [Atom(op, v)];
    hide Compile, Test, Falsy, Known, Lookup;
    assert atoms[1..] == [];
    assert ReduceOps(coerce, atoms, x, true) ==
      if Falsy(v) then Throws(BadQuery)
      else if !Known(op) then Throws(NotImplemented(op))
      else ReduceOps(coerce, [], x, Test(coerce, Atom(op, v), x));
  }

  /** Zero and the empty string are refused, and so is every operator but the eight. */
  lemma OperatorRefusal(coerce: Coercion, field: string, op: string, v: FilterValue, doc: Doc)
    requires field != "and" && field != "or"
    ensures var r := Compile(coerce, Single(field, op, v))(doc);
            var empty := v == One(Num(0.0)) || v == One(Text(""));
            && (r == Throws(BadQuery) <==> empty)
            && (r == Throws(NotImplemented(op)) <==>
                  !empty && op !in ["ne", "gt", "lt", "gte", "lte", "eq", "in", "nin"])
            && (r.Throws? ==> r.error == BadQuery || r.error == NotImplemented(op))
  {
    SingleIs(coerce, field, op, v, doc);
    hide Compile, Test;
  }

  /** `in` holds exactly of the documents whose field is in the list, `nin` of all others; neither holds
      for a single value. */
  lemma ListOperators(coerce: Coercion, field: string, list: seq<Scalar>, scalar: Scalar, doc: Doc)
    requires field != "and" && field != "or" && scalar != Num(0.0) && scalar != Text("")
    ensures var listed := field in doc && doc[field] in list;
            && Compile(coerce, Single(field, "in", Many(list)))(doc) == Holds(listed)
            && Compile(coerce, Single(field, "nin", Many(list)))(doc) == Holds(!listed)
    ensures Compile(coerce, Single(field, "in", One(scalar)))(doc) == Holds(false)
    ensures Compile(coerce, Single(field, "nin", One(scalar)))(doc) == Holds(false)
  {
    SingleIs(coerce, field, "in", Many(list), doc);
    SingleIs(coerce, field, "nin", Many(list), doc);
    SingleIs(coerce, field, "in", One(scalar), doc);
    SingleIs(coerce, field, "nin", One(scalar), doc);
    hide Compile;
  }

  /** Of a missing field `ne` holds, and no other comparison. */
  lemma MissingField(coerce: Coercion, field: string, op: string, v: FilterValue, doc: Doc)
    requires field != "and" && field != "or" && field !in doc && v != One(Num(0.0)) && v != One(Text(""))
    requires op in ["ne", "gt", "lt", "gte", "lte", "eq"]
    ensures Compile(coerce, Single(field, op, v))(doc) == Holds(op == "ne")
  {
    SingleIs(coerce, field, op, v, doc);
    hide Compile;
  }

  /** On two numbers the comparisons are those of numbers. */
  lemma NumberComparisons(coerce: Coercion, field: string, n: real, doc: Doc)
    requires field != "and" && field != "or" && n != 0.0 && field in doc && doc[field].Num?
    ensures Compile(coerce, Single(field, "eq", One(Num(n))))(doc) == Holds(doc[field].n == n)
    ensures Compile(coerce, Single(field, "ne", One(Num(n))))(doc) == Holds(doc[field].n != n)
    ensures Compile(coerce, Single(field, "gt", One(Num(n))))(doc) == Holds(doc[field].n > n)
    ensures Compile(coerce, Single(field, "lt", One(Num(n))))(doc) == Holds(doc[field].n < n)
    ensures Compile(coerce, Single(field, "gte", One(Num(n))))(doc) == Holds(doc[field].n >= n)
    ensures Compile(coerce, Single(field, "lte", One(Num(n))))(doc) == Holds(doc[field].n <= n)
  {
    SingleIs(coerce, field, "eq", One(Num(n)), doc);
    SingleIs(coerce, field, "ne", One(Num(n)), doc);
    SingleIs(coerce, field, "gt", One(Num(n)), doc);
    SingleIs(coerce, field, "lt", One(Num(n)), doc);
    SingleIs(coerce, field, "gte", One(Num(n)), doc);
    SingleIs(coerce, field, "lte", One(Num(n)), doc);
    hide Compile;
  }

  /** On two strings they are those of the first place where the strings differ. */
  lemma TextComparisons(coerce: Coercion, field: string, s: string, doc: Doc)
    requires field != "and" && field != "or" && s != "" && field in doc && doc[field].Text?
    ensures Compile(coerce, Single(field, "eq", One(Text(s))))(doc) == Holds(doc[field].s == s)
    ensures Compile(coerce, Single(field, "ne", One(Text(s))))(doc) == Holds(doc[field].s != s)
    ensures Compile(coerce, Single(field, "gt", One(Text(s))))(doc) == Holds(DiffersBelow(s, doc[field].s))
    ensures Compile(coerce, Single(field, "lt", One(Text(s))))(doc) == Holds(DiffersBelow(doc[field].s, s))
    ensures Compile(coerce, Single(field, "gte", One(Text(s))))(doc) == Holds(!DiffersBelow(doc[field].s, s))
    ensures Compile(coerce, Single(field, "lte", One(Text(s))))(doc) == Holds(!DiffersBelow(s, doc[field].s))
  {
    TextLessIs(s, doc[field].s);
    TextLessIs(doc[field].s, s);
    SingleIs(coerce, field, "eq", One(Text(s)), doc);
    SingleIs(coerce, field, "ne", One(Text(s)), doc);
    SingleIs(coerce, field, "gt", One(Text(s)), doc);
    SingleIs(coerce, field, "lt", One(Text(s)), doc);
    SingleIs(coerce, field, "gte", One(Text(s)), doc);
    SingleIs(coerce, field, "lte", One(Text(s)), doc);
    hide Compile, TextLess, DiffersBelow;
  }

  // Up to some place the strings are the same; there a ends and b does not, or a has the lower character.
  ghost predicate DiffersBelow(a: string, b: string) {
    exists k :: 0 <= k <= |a| && k < |b| && a[..k] == b[..k] && (k == |a| || a[k] < b[k])
  }

  lemma {:induction false} TextLessIs(a: string, b: string)
    ensures TextLess(a, b) <==> DiffersBelow(a, b)
  {
    if a != [] && b != [] && a[0] == b[0] {
      var x, y := a[1..], b[1..];
      TextLessIs(x, y);
      if k :| 0 <= k <= |x| && k < |y| && x[..k] == y[..k] && (k == |x| || x[k] < y[k]) {
        assert a[..k + 1] == [a[0]] + x[..k] && b[..k + 1] == [b[0]] + y[..k];
        assert 0 <= k + 1 <= |a| && k + 1 < |b| && (k + 1 == |a| || a[k + 1] < b[k + 1]);
      }
      if k :| 0 <= k <= |a| && k < |b| && a[..k] == b[..k] && (k == |a| || a[k] < b[k]) {
        assert k > 0;
        assert x[..k - 1] == a[..k][1..] && y[..k - 1] == b[..k][1..];
        assert k - 1 == |x| || x[k - 1] < y[k - 1];
      }
    } else if b != [] {
      assert a[..0] == b[..0];
      if k :| 0 <= k <= |a| && k < |b| && a[..k] == b[..k] && (k == |a| || a[k] < b[k]) {
        if k > 0 {
          SameStart(a, b, k);
        }
      }
    }
  }

  lemma SameStart(a: string, b: string, k: nat)
    requires 0 < k <= |a| && k <= |b| && a[..k] == b[..k]
    ensures a[0] == b[0]
  {
    assert a[..k][0] == a[0] && b[..k][0] == b[0];
  }

  /** On operands of unlike types, and on lists, the comparison is the coercing one. */
  lemma UnlikeComparisons(coerce: Coercion, field: string, op: string, v: FilterValue, doc: Doc)
    requires field != "and" && field != "or" && field in doc && v != One(Num(0.0)) && v != One(Text(""))
    requires v.Many? || (doc[field].Num? <==> v.scalar.Text?)
    requires op in ["gt", "lt", "gte", "lte", "eq"]
    ensures Compile(coerce, Single(field, op, v))(doc) == Holds(coerce(op, doc[field], v))
    ensures Compile(coerce, Single(field, "ne", v))(doc) == Holds(!coerce("eq", doc[field], v))
  {
    SingleIs(coerce, field, op, v, doc);
    SingleIs(coerce, field, "ne", v, doc);
    hide Compile;
  }

  /** `and` holds where all its filters hold, `or` where one does; both throw where one throws. */
  lemma AndOr(coerce: Coercion, kids: seq<Node>, doc: Doc)
    ensures var both := Compile(coerce, Node([Entry("and", Kids(kids))]))(doc);
            var either := Compile(coerce, Node([Entry("or", Kids(kids))]))(doc);
            var throws := exists i :: 0 <= i < |kids| && Compile(coerce, kids[i])(doc).Throws?;
            && (both.Throws? <==> throws) && (either.Throws? <==> throws)
            && (!throws ==>
                  && both == Holds(forall i :: 0 <= i < |kids| ==> Compile(coerce, kids[i])(doc) == Holds(true))
                  && either == Holds(exists i :: 0 <= i < |kids| && Compile(coerce, kids[i])(doc) == Holds(true)))
  {
    var conjunction, disjunction := Node([Entry("and", Kids(kids))]), Node([Entry("or", Kids(kids))]);
    assert !IsLeaf(conjunction) && !IsLeaf(disjunction);
    assert Compile(coerce, conjunction)(doc) == Every(RunAll(coerce, kids, doc));
    assert Compile(coerce, disjunction)(doc) == Any(RunAll(coerce, kids, doc));
    RunAllIs(coerce, kids, doc);
    hide Compile, RunAll, Every, Any;
    EveryIs(RunAll(coerce, kids, doc));
    AnyIs(RunAll(coerce, kids, doc));
  }

  lemma {:induction false} RunAllIs(coerce: Coercion, kids: seq<Node>, doc: Doc)
    ensures forall i :: 0 <= i < |kids| ==> RunAll(coerce, kids, doc)[i] == Compile(coerce, kids[i])(doc)
  {
    hide Compile;
    if kids != [] {
      RunAllIs(coerce, kids[1..], doc);
    }
  }

  lemma {:induction false} EveryIs(vs: seq<Verdict>)
    ensures Every(vs).Throws? <==> exists i :: 0 <= i < |vs| && vs[i].Throws?
    ensures Every(vs).Holds? ==> (Every(vs).b <==> forall i :: 0 <= i < |vs| ==> vs[i] == Holds(true))
  {
    if vs != [] {
      EveryIs(vs[1..]);
      assert forall i :: 0 < i < |vs| ==> vs[i] == vs[1..][i - 1];
    }
  }

  lemma {:induction false} AnyIs(vs: seq<Verdict>)
    ensures Any(vs).Throws? <==> exists i :: 0 <= i < |vs| && vs[i].Throws?
    ensures Any(vs).Holds? ==> (Any(vs).b <==> exists i :: 0 <= i < |vs| && vs[i] == Holds(true))
  {
    if vs != [] {
      AnyIs(vs[1..]);
      assert forall i :: 0 < i < |vs| ==> vs[i] == vs[1..][i - 1];
    }
  }

  // What operator j of field i says alone.
  ghost function Alone(coerce: Coercion, entries: seq<Entry>, doc: Doc, i: nat, j: nat): Verdict
    requires i < |entries| && entries[i].body.Ops? && j < |entries[i].body.ops|
  {
    var a := entries[i].body.ops[j];
    Compile(coerce, Single(entries[i].key, a.op, a.value))(doc)
  }

  /** A leaf with many fields and operators holds where each operator of each field holds, and throws
      where one throws. */
  lemma LeafOperators(coerce: Coercion, entries: seq<Entry>, doc: Doc)
    requires FieldFilter(entries)
    ensures var r := Compile(coerce, Node(entries))(doc);
            && (r.Throws? <==>
                  exists i, j :: 0 <= i < |entries| && 0 <= j < |entries[i].body.ops|
                                 && Alone(coerce, entries, doc, i, j).Throws?)
            && (r.Holds? ==>
                  (r.b <==>
                     forall i, j :: 0 <= i < |entries| && 0 <= j < |entries[i].body.ops| ==>
                       Alone(coerce, entries, doc, i, j) == Holds(true)))
  {
    if entries == [] {
    } else {
      assert entries[0] in entries;
      assert IsLeaf(Node(entries));
      assert Compile(coerce, Node(entries))(doc) == Every(EvalFields(coerce, entries, doc));
      FieldsAre(coerce, entries, doc);
      hide Compile, Every, EvalFields, EvalField, Alone;
      EveryIs(EvalFields(coerce, entries, doc));
      forall i | 0 <= i < |entries|
        ensures EvalField(coerce, entries[i], doc).Throws? <==>
                  exists j :: 0 <= j < |entries[i].body.ops| && Alone(coerce, entries, doc, i, j).Throws?
        ensures EvalField(coerce, entries[i], doc).Holds? ==>
                  (EvalField(coerce, entries[i], doc).b <==>
                     forall j :: 0 <= j < |entries[i].body.ops| ==> Alone(coerce, entries, doc, i, j) == Holds(true))
      {
        assert entries[i] in entries;
        FieldIs(coerce, entries, doc, i);
      }
    }
  }

  lemma {:induction false} FieldsAre(coerce: Coercion, entries: seq<Entry>, doc: Doc)
    ensures forall i :: 0 <= i < |entries| ==> EvalFields(coerce, entries, doc)[i] == EvalField(coerce, entries[i], doc)
  {
    hide EvalField;
    if entries != [] {
      FieldsAre(coerce, entries[1..], doc);
    }
  }

  lemma FieldIs(coerce: Coercion, entries: seq<Entry>, doc: Doc, i: nat)
    requires i < |entries| && !IsLogical(entries[i].key) && entries[i].body.Ops?
    ensures var r := EvalField(coerce, entries[i], doc);
            && (r.Throws? <==>
                  exists j :: 0 <= j < |entries[i].body.ops| && Alone(coerce, entries, doc, i, j).Throws?)
            && (r.Holds? ==>
                  (r.b <==>
                     forall j :: 0 <= j < |entries[i].body.ops| ==> Alone(coerce, entries, doc, i, j) == Holds(true)))
  {
    hide Compile, ReduceOps;
    var ops := entries[i].body.ops;
    OpsAre(coerce, entries[i].key, ops, doc, true);
    assert forall j :: 0 <= j < |ops| ==>
      Alone(coerce, entries, doc, i, j) == AloneOf(coerce, entries[i].key, ops[j], doc);
  }

  ghost function AloneOf(coerce: Coercion, field: string, a: Atom, doc: Doc): Verdict {
    Compile(coerce, Single(field, a.op, a.value))(doc)
  }

  lemma {:induction false} OpsAre(coerce: Coercion, field: string, ops: seq<Atom>, doc: Doc, prev: bool)
    requires !IsLogical(field)
    ensures var r := ReduceOps(coerce, ops, Lookup(doc, field), prev);
            && (r.Throws? <==> exists j :: 0 <= j < |ops| && AloneOf(coerce, field, ops[j], doc).Throws?)
            && (r.Holds? ==>
                  (r.b <==> prev && forall j :: 0 <= j < |ops| ==> AloneOf(coerce, field, ops[j], doc) == Holds(true)))
  {
    if ops != [] {
      var a, rest := ops[0], ops[1..];
      SingleIs(coerce, field, a.op, a.value, doc);
      OpsAre(coerce, field, rest, doc, prev && Test(coerce, a, Lookup(doc, field)));
      assert AloneOf(coerce, field, a, doc) == Compile(coerce, Single(field, a.op, a.value))(doc);
      hide Compile, Test, Lookup, AloneOf, Known, Falsy;
      assert forall j :: 0 < j < |ops| ==> ops[j] == rest[j - 1];
    }
  }

  // ---------------------------------------------------------------- the declared operators

  // The declared types write `and` and `or` with a dollar.
  function Undollared(op: string): string
    requires op == "$and" || op == "$or"
  {
    if op == "$and" then "and" else "or"
  }

  /** The code reads a declared operator as a field: it throws on every array of filters but the
      empty one, and then holds of every document. */
  lemma DollarThrowsIff(coerce: Coercion, op: string, kids: seq<Node>, doc: Doc)
    requires op == "$and" || op == "$or"
    ensures var r := Compile(coerce, Node([Entry(op, Kids(kids))]))(doc);
            && (r.Throws? <==> kids != [])
            && r == if kids == [] then Holds(true) else Throws(NotImplemented("0"))
  {
    var node := Node([Entry(op, Kids(kids))]);
    assert node.entries[0].key == op;
    assert IsLeaf(node);
    assert EvalFields(coerce, node.entries, doc) == [EvalField(coerce, node.entries[0], doc)] + [];
    EveryCons(EvalField(coerce, node.entries[0], doc), []);
  }

  /** It does what the operator without the dollar does exactly on an empty `and`, and where both
      throw the same: an `or` of nothing should hold nowhere. */
  lemma DollarAgreesIff(coerce: Coercion, op: string, kids: seq<Node>, doc: Doc)
    requires op == "$and" || op == "$or"
    ensures Compile(coerce, Node([Entry(op, Kids(kids))]))(doc)
            == Compile(coerce, Node([Entry(Undollared(op), Kids(kids))]))(doc)
       <==> (op == "$and" && kids == []) || RefusedKids(kids) == Some(NotImplemented("0"))
  {
    DollarThrowsIff(coerce, op, kids, doc);
    var intended := Node([Entry(Undollared(op), Kids(kids))]);
    CompiledAgrees(coerce, intended, doc);
    assert !IsLeaf(intended);
  }
}

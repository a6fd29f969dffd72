/** The resolvers over a keyed document store: queries and updateQuery.
    The store is the database's index in its own order, one document for each _id. */
module DocStore {
  import opened Wire
  import opened Filter

  const ID := "_id"

  type Store = seq<Doc>

  predicate HasId(d: Doc) {
    ID in d
  }

  predicate Keyed(s: Store) {
    && (forall i :: 0 <= i < |s| ==> HasId(s[i]))
    && (forall i, j :: 0 <= i < j < |s| ==> s[i][ID] != s[j][ID])
  }

  // db.put: a document replaces the one with its _id, or comes last.
  function Put(s: Store, d: Doc): (r: Store)
    requires HasId(d)
  {
    if s == [] then [d]
    else if HasId(s[0]) && s[0][ID] == d[ID] then [d] + s[1..]
    else [s[0]] + Put(s[1..], d)
  }

  lemma {:induction false} PutAt(s: Store, k: nat, d: Doc)
    requires Keyed(s) && k < |s| && HasId(d) && s[k][ID] == d[ID]
    ensures Put(s, d) == s[k := d]
  {
    if k > 0 {
      PutAt(s[1..], k - 1, d);
    }
  }

  lemma {:induction false} PutLast(s: Store, d: Doc)
    requires HasId(d) && forall i :: 0 <= i < |s| ==> HasId(s[i]) && s[i][ID] != d[ID]
    ensures Put(s, d) == s + [d]
  {
    if s != [] {
      PutLast(s[1..], d);
    }
  }

  /** A put changes the document of its _id, or adds it; no _id comes twice. */
  lemma PutKeyed(s: Store, d: Doc)
    requires Keyed(s) && HasId(d)
    ensures Keyed(Put(s, d)) && d in Put(s, d)
    ensures forall i :: 0 <= i < |s| ==> i < |Put(s, d)| && Put(s, d)[i] == if s[i][ID] == d[ID] then d else s[i]
    ensures |Put(s, d)| == |s| + if exists i :: 0 <= i < |s| && s[i][ID] == d[ID] then 0 else 1
  {
    if k :| 0 <= k < |s| && s[k][ID] == d[ID] {
      PutAt(s, k, d);
      hide Put;
      assert s[k := d][k] == d;
    } else {
      PutLast(s, d);
      hide Put;
      assert (s + [d])[|s|] == d;
    }
  }

  // ---------------------------------------------------------------- queries

  // Whether a filter throws on some document of the store: db.query calls it on each.
  predicate Rejects(s: Store, filter: Node) {
    s != [] && Refused(filter).Some?
  }

  predicate Matches(coerce: Coercion, filter: Node, d: Doc) {
    Compile(coerce, filter)(d) == Holds(true)
  }

  function Select(coerce: Coercion, s: Store, filter: Node): (r: seq<Doc>) {
    if s == [] then []
    else (if Matches(coerce, filter, s[0]) then [s[0]] else []) + Select(coerce, s[1..], filter)
  }

  // Selecting from position i on, one document at a time.
  lemma SelectFrom(coerce: Coercion, s: Store, filter: Node, result: seq<Doc>, i: nat)
    requires i <= |s|
    ensures i == 0 ==> [] + Select(coerce, s[i..], filter) == Select(coerce, s, filter)
    ensures i == |s| ==> result + Select(coerce, s[i..], filter) == result
    ensures i < |s| ==>
              result + Select(coerce, s[i..], filter) ==
              (if Matches(coerce, filter, s[i]) then result + [s[i]] else result) + Select(coerce, s[i + 1..], filter)
  {
    hide Matches, Compile;
    if i == 0 {
      assert s[0..] == s;
    }
    if i < |s| {
      assert s[i..][0] == s[i] && s[i..][1..] == s[i + 1..];
    }
  }

  function Query(coerce: Coercion, s: Store, filter: Node): Result<seq<Doc>> {
    if Rejects(s, filter) then Failure else Success(Select(coerce, s, filter))
  }

  /** db.query fails exactly when the filter is refused and there is a document to refuse it on;
      otherwise it gives the documents the filter means, in store order. */
  lemma {:induction false} QueryMeans(coerce: Coercion, s: Store, filter: Node)
    ensures Query(coerce, s, filter).Failure? <==>
              exists d :: d in s && Compile(coerce, filter)(d).Throws?
    ensures Query(coerce, s, filter).Success? ==>
              forall d :: d in Query(coerce, s, filter).value <==> d in s && Meaning(coerce, filter, d)
  {
    forall d ensures Compile(coerce, filter)(d) == Outcome(Refused(filter), Meaning(coerce, filter, d)) {
      CompiledAgrees(coerce, filter, d);
    }
    hide Compile, Meaning, Refused;
    if s != [] {
      assert s[0] in s;
    }
    SelectMembers(coerce, s, filter);
  }

  lemma {:induction false} SelectMembers(coerce: Coercion, s: Store, filter: Node)
    ensures forall d :: d in Select(coerce, s, filter) <==> d in s && Matches(coerce, filter, d)
  {
    hide Matches;
    if s != [] {
      SelectMembers(coerce, s[1..], filter);
      assert forall d :: d in s <==> d == s[0] || d in s[1..];
    }
  }

  lemma RefusedOrMatched(coerce: Coercion, filter: Node, d: Doc)
    ensures Compile(coerce, filter)(d).Throws? <==> Refused(filter).Some?
    ensures Refused(filter).None? ==> (Compile(coerce, filter)(d).b <==> Matches(coerce, filter, d))
  {
    CompiledAgrees(coerce, filter, d);
  }

  // Where the matching documents stand, from position i on.
  function Positions(coerce: Coercion, s: Store, filter: Node, i: nat): (ps: seq<nat>)
    requires i <= |s|
    decreases |s| - i
  {
    if i == |s| then []
    else (if Matches(coerce, filter, s[i]) then [i] else []) + Positions(coerce, s, filter, i + 1)
  }

  // Strictly increasing positions, of all the documents of which p holds.
  ghost predicate AllInOrder(ps: seq<nat>, i: nat, n: nat, p: nat -> bool) {
    && (forall k :: 0 <= k < |ps| ==> i <= ps[k] < n && p(ps[k]))
    && (forall k, l :: 0 <= k < l < |ps| ==> ps[k] < ps[l])
    && (forall m :: i <= m < n && p(m) ==> m in ps)
  }

  lemma {:induction false} PositionsInOrder(coerce: Coercion, s: Store, filter: Node, i: nat)
    requires i <= |s|
    ensures AllInOrder(Positions(coerce, s, filter, i), i, |s|, m => 0 <= m < |s| && Matches(coerce, filter, s[m]))
    ensures |Positions(coerce, s, filter, i)| == |Select(coerce, s[i..], filter)|
    ensures forall k :: 0 <= k < |Positions(coerce, s, filter, i)| ==>
              Positions(coerce, s, filter, i)[k] < |s|
              && Select(coerce, s[i..], filter)[k] == s[Positions(coerce, s, filter, i)[k]]
    decreases |s| - i
  {
    hide Matches;
    if i < |s| {
      PositionsInOrder(coerce, s, filter, i + 1);
      assert s[i..][0] == s[i] && s[i..][1..] == s[i + 1..];
    }
  }

  /** A query gives exactly the documents the filter means, each once for its place, in the order of
      their places in the store. */
  lemma QueryInOrder(coerce: Coercion, s: Store, filter: Node) returns (ps: seq<nat>)
    requires Query(coerce, s, filter).Success?
    ensures var found := Query(coerce, s, filter).value;
            && |ps| == |found|
            && (forall i :: 0 <= i < |ps| ==> ps[i] < |s| && found[i] == s[ps[i]])
            && (forall i, j :: 0 <= i < j < |ps| ==> ps[i] < ps[j])
            && (forall p :: 0 <= p < |s| ==> (p in ps <==> Meaning(coerce, filter, s[p])))
  {
    ps := Positions(coerce, s, filter, 0);
    PositionsInOrder(coerce, s, filter, 0);
    assert s[0..] == s;
    forall d | d in s ensures Matches(coerce, filter, d) <==> Meaning(coerce, filter, d) {
      CompiledAgrees(coerce, filter, d);
    }
    hide Matches, Meaning, Positions, Select, Refused;
    forall p | 0 <= p < |s| ensures p in ps <==> Meaning(coerce, filter, s[p]) {
      assert s[p] in s;
    }
  }

  // ---------------------------------------------------------------- updateQuery

  // ({...currentValue, ...value})
  function Spread(d: Doc, value: Doc): (r: Doc) {
    d + value
  }

  /** The store with the value spread over every matching document, each in its place. */
  function Updated(coerce: Coercion, s: Store, filter: Node, value: Doc): (r: Store)
    ensures |r| == |s|
  {
    seq(|s|, i requires 0 <= i < |s| => if Matches(coerce, filter, s[i]) then Spread(s[i], value) else s[i])
  }

  // The puts of updateQuery, one for every document found.
  function Updates(coerce: Coercion, s: Store, filter: Node, value: Doc): (r: seq<Doc>) {
    var found := Select(coerce, s, filter);
    seq(|found|, i requires 0 <= i < |found| => Spread(found[i], value))
  }

  function PutAll(s: Store, ds: seq<Doc>): Store
    requires forall i :: 0 <= i < |ds| ==> HasId(ds[i])
    decreases |ds|
  {
    if ds == [] then s else PutAll(Put(s, ds[0]), ds[1..])
  }

  lemma UpdatesMembers(coerce: Coercion, s: Store, filter: Node, value: Doc)
    ensures forall d :: d in Updates(coerce, s, filter, value) <==>
              exists i :: 0 <= i < |s| && Matches(coerce, filter, s[i]) && d == Spread(s[i], value)
  {
    hide Matches;
    SelectMembers(coerce, s, filter);
    var found := Select(coerce, s, filter);
    forall d | d in Updates(coerce, s, filter, value)
      ensures exists i :: 0 <= i < |s| && Matches(coerce, filter, s[i]) && d == Spread(s[i], value)
    {
      var k :| 0 <= k < |found| && d == Spread(found[k], value);
      assert found[k] in found;
      assert found[k] in s;
    }
    forall i | 0 <= i < |s| && Matches(coerce, filter, s[i])
      ensures Spread(s[i], value) in Updates(coerce, s, filter, value)
    {
      assert s[i] in found;
      var k :| 0 <= k < |found| && found[k] == s[i];
      assert Updates(coerce, s, filter, value)[k] == Spread(s[i], value);
    }
  }

  // A document that has the value spread over it: the keys of both, with the contents of the value.
  ghost predicate SpreadOver(r: Doc, d: Doc, value: Doc) {
    && (forall k :: k in r <==> k in d || k in value)
    && (forall k :: k in r ==> r[k] == if k in value then value[k] else d[k])
  }

  /** updateQuery puts, and gives back, one document for every one that the filter means, in the order
      of the store, with the value spread over it: with an _id in the value or without. */
  lemma UpdatesInOrder(coerce: Coercion, s: Store, filter: Node, value: Doc) returns (ps: seq<nat>)
    requires Query(coerce, s, filter).Success?
    ensures var updates := Updates(coerce, s, filter, value);
            && |ps| == |updates|
            && (forall i :: 0 <= i < |ps| ==> ps[i] < |s| && SpreadOver(updates[i], s[ps[i]], value))
            && (forall i, j :: 0 <= i < j < |ps| ==> ps[i] < ps[j])
            && (forall p :: 0 <= p < |s| ==> (p in ps <==> Meaning(coerce, filter, s[p])))
  {
    hide Meaning, Select, Refused;
    ps := QueryInOrder(coerce, s, filter);
  }

  // Between the puts: every document is still the old one or already the new one.
  ghost predicate Between(before: Store, s: Store, after: Store) {
    |s| == |before| == |after| && forall i :: 0 <= i < |s| ==> s[i] == before[i] || s[i] == after[i]
  }

  lemma UpdateCompletes(coerce: Coercion, s: Store, filter: Node, value: Doc)
    requires Keyed(s) && ID !in value
    ensures SameIds(s, Updated(coerce, s, filter, value))
    ensures Between(s, s, Updated(coerce, s, filter, value))
    ensures Completes(s, Updated(coerce, s, filter, value), Updates(coerce, s, filter, value))
  {
    hide Matches;
    var after, updates := Updated(coerce, s, filter, value), Updates(coerce, s, filter, value);
    UpdatesMembers(coerce, s, filter, value);
    forall d | d in updates ensures d in after {
      var i :| 0 <= i < |s| && Matches(coerce, filter, s[i]) && d == Spread(s[i], value);
      assert d == after[i];
    }
    forall i | 0 <= i < |s| && s[i] != after[i] ensures after[i] in updates {
      assert Matches(coerce, filter, s[i]) && after[i] == Spread(s[i], value);
    }
  }

  /** With a value that carries no _id, the puts of updateQuery give one store in whatever order
      they land: the matching documents changed, every document under its own _id. */
  lemma {:induction false} PutsLandInAnyOrder(coerce: Coercion, s: Store, filter: Node, value: Doc, landing: seq<Doc>)
    requires Keyed(s) && ID !in value
    requires multiset(landing) == multiset(Updates(coerce, s, filter, value))
    ensures forall i :: 0 <= i < |landing| ==> HasId(landing[i])
    ensures PutAll(s, landing) == Updated(coerce, s, filter, value)
  {
    hide Matches;
    var after := Updated(coerce, s, filter, value);
    UpdatesMembers(coerce, s, filter, value);
    forall d ensures d in landing <==> d in Updates(coerce, s, filter, value) {
      assert d in landing <==> d in multiset(landing);
      assert d in Updates(coerce, s, filter, value) <==> d in multiset(Updates(coerce, s, filter, value));
    }
    UpdateCompletes(coerce, s, filter, value);
    assert Completes(s, after, landing);
    Land(s, s, after, landing);
    assert PutAll(s, landing) == after;
  }

  // What is still to land: documents of the new store, and among them all that are missing.
  ghost predicate Completes(s: Store, after: Store, pending: seq<Doc>) {
    && |s| == |after|
    && (forall d :: d in pending ==> d in after)
    && (forall i :: 0 <= i < |s| && s[i] != after[i] ==> after[i] in pending)
  }

  ghost predicate SameIds(before: Store, after: Store) {
    Keyed(before) && |after| == |before|
    && forall i :: 0 <= i < |before| ==> HasId(after[i]) && after[i][ID] == before[i][ID]
  }

  // One of the pending puts lands, whichever it is.
  lemma LandOne(before: Store, s: Store, after: Store, pending: seq<Doc>, i: nat)
    requires SameIds(before, after) && Between(before, s, after) && Completes(s, after, pending) && i < |pending|
    ensures HasId(pending[i]) && Between(before, Put(s, pending[i]), after)
    ensures Completes(Put(s, pending[i]), after, pending[..i] + pending[i + 1..])
  {
    var d, rest := pending[i], pending[..i] + pending[i + 1..];
    assert d in pending;
    var k :| 0 <= k < |after| && d == after[k];
    PutInPlace(before, s, after, k);
    hide Put, HasId;
    assert pending == pending[..i] + [d] + pending[i + 1..];
    assert forall e :: e in pending <==> e == d || e in rest;
  }

  // Whatever is still to land brings the store to the new one.
  lemma {:induction false} Land(before: Store, s: Store, after: Store, landing: seq<Doc>)
    requires SameIds(before, after) && Between(before, s, after) && Completes(s, after, landing)
    ensures forall i :: 0 <= i < |landing| ==> HasId(landing[i])
    ensures PutAll(s, landing) == after
    decreases |landing|
  {
    if landing == [] {
      assert s == after;
    } else {
      LandOne(before, s, after, landing, 0);
      assert landing[..0] + landing[0 + 1..] == landing[1..];
      Land(before, Put(s, landing[0]), after, landing[1..]);
    }
  }

  lemma PutInPlace(before: Store, s: Store, after: Store, k: nat)
    requires SameIds(before, after) && Between(before, s, after) && k < |s|
    ensures Put(s, after[k]) == s[k := after[k]] && Between(before, s[k := after[k]], after)
  {
    forall i | 0 <= i < |s| ensures HasId(s[i]) && s[i][ID] == before[i][ID] {
    }
    PutAt(s, k, after[k]);
  }

  /** Exactly the matching documents change, and nothing changes its _id. */
  lemma UpdateChangesMatchesOnly(coerce: Coercion, s: Store, filter: Node, value: Doc)
    requires Keyed(s) && ID !in value
    ensures var r := Updated(coerce, s, filter, value);
            && Keyed(r)
            && forall i :: 0 <= i < |s| ==>
                 && r[i][ID] == s[i][ID]
                 && (Matches(coerce, filter, s[i]) ==>
                       forall k :: k in r[i] <==> k in s[i] || k in value)
                 && (Matches(coerce, filter, s[i]) ==>
                       forall k :: k in r[i] ==> r[i][k] == if k in value then value[k] else s[i][k])
                 && (!Matches(coerce, filter, s[i]) ==> r[i] == s[i])
  {
    hide Matches;
    var r := Updated(coerce, s, filter, value);
    forall i | 0 <= i < |s| ensures HasId(r[i]) && r[i][ID] == s[i][ID] {
    }
  }

  // Of the updated store, updating again leaves nothing to change.
  lemma UpdateIsIdempotent(coerce: Coercion, s: Store, filter: Node, value: Doc)
    ensures var once := Updated(coerce, s, filter, value);
            Updated(coerce, once, filter, value) == once
  {
    hide Matches;
    forall d ensures Spread(Spread(d, value), value) == Spread(d, value) {
    }
  }

  // Two documents that a value with an _id puts under that one _id, and makes different.
  lemma TwoMatches(coerce: Coercion, value: Doc, field: string) returns (s: Store)
    requires ID in value && field !in value
    ensures Keyed(s) && s != [] && HasId(s[0]) && s[0][ID] == value[ID]
    ensures var u := Updates(coerce, s, Node([]), value);
            |u| == 2 && HasId(u[0]) && HasId(u[1]) && u[0][ID] == u[1][ID] == value[ID] && u[0] != u[1]
  {
    var other := if value[ID] == Num(0.0) then Num(1.0) else Num(0.0);
    var a: Doc := map[ID := value[ID], field := Num(0.0)];
    var b: Doc := map[ID := other, field := Num(1.0)];
    s := [a, b];
    var u := Updates(coerce, s, Node([]), value);
    assert Matches(coerce, Node([]), a) && Matches(coerce, Node([]), b);
    assert Select(coerce, s[1..], Node([])) == [b] + Select(coerce, s[1..][1..], Node([]));
    assert Select(coerce, s, Node([])) == [a, b];
    assert u == [Spread(a, value), Spread(b, value)];
    assert u[0][field] == Num(0.0) && u[1][field] == Num(1.0);
  }

  /** A value that carries an _id puts every match under that _id: for any such value there is a
      store on which two orders of landing leave two different stores. */
  lemma IdInValueMakesOrderMatter(coerce: Coercion, value: Doc, field: string)
    requires ID in value && field !in value
    ensures exists s: Store ::
              && Keyed(s) && |Updates(coerce, s, Node([]), value)| == 2
              && var u := Updates(coerce, s, Node([]), value);
                 && HasId(u[0]) && HasId(u[1])
                 && PutAll(s, [u[0], u[1]]) != PutAll(s, [u[1], u[0]])
  {
    var s := TwoMatches(coerce, value, field);
    hide Matches, Updates, Put;
    var u := Updates(coerce, s, Node([]), value);
    TwoPuts(s, u[0], u[1]);
    TwoPuts(s, u[1], u[0]);
    assert ([u[1]] + s[1..])[0] != ([u[0]] + s[1..])[0];
  }

  lemma TwoPuts(s: Store, d: Doc, d': Doc)
    requires s != [] && HasId(s[0]) && HasId(d) && HasId(d') && s[0][ID] == d[ID] == d'[ID]
    ensures PutAll(s, [d, d']) == [d'] + s[1..]
  {
    assert Put(s, d) == [d] + s[1..] && Put([d] + s[1..], d') == [d'] + s[1..];
    assert [d, d'][1..] == [d'] && [d'][1..] == [];
    assert PutAll([d'] + s[1..], []) == [d'] + s[1..];
  }

  // ---------------------------------------------------------------- when the order matters

  // An order in which the documents may land.
  ghost predicate Landing(updates: seq<Doc>, landing: seq<Doc>) {
    multiset(landing) == multiset(updates) && forall i :: 0 <= i < |landing| ==> HasId(landing[i])
  }

  ghost predicate OneResult(s: Store, updates: seq<Doc>) {
    forall a, b :: Landing(updates, a) && Landing(updates, b) ==> PutAll(s, a) == PutAll(s, b)
  }

  predicate AllSame(ds: seq<Doc>) {
    forall i, j :: 0 <= i < |ds| && 0 <= j < |ds| ==> ds[i] == ds[j]
  }

  lemma UpdatesHaveIds(coerce: Coercion, s: Store, filter: Node, value: Doc)
    requires Keyed(s)
    ensures forall d :: d in Updates(coerce, s, filter, value) ==> HasId(d) && (ID in value ==> d[ID] == value[ID])
  {
    hide Matches;
    UpdatesMembers(coerce, s, filter, value);
  }

  /** For every store, filter and value: the puts of updateQuery give one store in every order in
      which they land exactly when the value carries no _id, or they all put the same document. */
  lemma OneResultIff(coerce: Coercion, s: Store, filter: Node, value: Doc)
    requires Keyed(s)
    ensures var updates := Updates(coerce, s, filter, value);
            OneResult(s, updates) <==> ID !in value || AllSame(updates)
  {
    hide Matches;
    var updates := Updates(coerce, s, filter, value);
    if ID !in value {
      forall a | Landing(updates, a) ensures PutAll(s, a) == Updated(coerce, s, filter, value) {
        PutsLandInAnyOrder(coerce, s, filter, value, a);
      }
    } else if AllSame(updates) {
      forall a | Landing(updates, a) ensures a == updates {
        OnlyLanding(updates, a);
      }
    } else {
      var i, j :| 0 <= i < |updates| && 0 <= j < |updates| && updates[i] != updates[j];
      UpdatesHaveIds(coerce, s, filter, value);
      hide Updates;
      LastWins(s, updates, i, value[ID]);
      LastWins(s, updates, j, value[ID]);
      DifferentPuts(s, updates[i], updates[j]);
      assert PutAll(s, LandsLast(updates, i)) != PutAll(s, LandsLast(updates, j));
    }
  }

  lemma OnlyLanding(updates: seq<Doc>, landing: seq<Doc>)
    requires Landing(updates, landing) && AllSame(updates)
    ensures landing == updates
  {
    assert |multiset(landing)| == |landing| && |multiset(updates)| == |updates|;
    forall i | 0 <= i < |landing| ensures landing[i] == updates[i] {
      assert landing[i] in multiset(landing);
      assert landing[i] in updates;
    }
  }

  // The landing in which document i comes last.
  function LandsLast(ds: seq<Doc>, i: nat): (r: seq<Doc>)
    requires i < |ds|
    ensures multiset(r) == multiset(ds)
  {
    assert ds == ds[..i] + [ds[i]] + ds[i + 1..];
    ds[..i] + ds[i + 1..] + [ds[i]]
  }

  // Documents of one _id replace each other, and the last to land stays.
  lemma LastWins(s: Store, ds: seq<Doc>, i: nat, id: Scalar)
    requires i < |ds| && forall d :: d in ds ==> HasId(d) && d[ID] == id
    ensures Landing(ds, LandsLast(ds, i)) && PutAll(s, LandsLast(ds, i)) == Put(s, ds[i])
  {
    var r := LandsLast(ds, i);
    forall k | 0 <= k < |r| ensures HasId(r[k]) && r[k][ID] == id {
      assert r[k] in multiset(r);
      assert r[k] in ds;
    }
    LastStays(s, r, id);
  }

  lemma {:induction false} LastStays(s: Store, ds: seq<Doc>, id: Scalar)
    requires ds != [] && forall i :: 0 <= i < |ds| ==> HasId(ds[i]) && ds[i][ID] == id
    ensures PutAll(s, ds) == Put(s, ds[|ds| - 1])
    decreases |ds|
  {
    if |ds| > 1 {
      LastStays(Put(s, ds[0]), ds[1..], id);
      PutTwice(s, ds[0], ds[|ds| - 1]);
    } else {
      assert PutAll(Put(s, ds[0]), []) == Put(s, ds[0]);
    }
  }

  lemma {:induction false} PutTwice(s: Store, d: Doc, d': Doc)
    requires HasId(d) && HasId(d') && d[ID] == d'[ID]
    ensures Put(Put(s, d), d') == Put(s, d')
  {
    if s != [] && !(HasId(s[0]) && s[0][ID] == d[ID]) {
      PutTwice(s[1..], d, d');
    }
  }

  lemma {:induction false} DifferentPuts(s: Store, d: Doc, d': Doc)
    requires HasId(d) && HasId(d') && d[ID] == d'[ID] && d != d'
    ensures Put(s, d) != Put(s, d')
  {
    if s == [] {
      assert Put(s, d)[0] != Put(s, d')[0];
    } else if HasId(s[0]) && s[0][ID] == d[ID] {
      assert Put(s, d)[0] != Put(s, d')[0];
    } else {
      DifferentPuts(s[1..], d, d');
      assert Put(s, d)[1..] == Put(s[1..], d) && Put(s, d')[1..] == Put(s[1..], d');
    }
  }

  lemma {:induction false} PutAllSnoc(s: Store, ds: seq<Doc>, d: Doc)
    requires HasId(d) && forall i :: 0 <= i < |ds| ==> HasId(ds[i])
    ensures PutAll(s, ds + [d]) == Put(PutAll(s, ds), d)
    decreases |ds|
  {
    if ds == [] {
      assert ds + [d] == [d] && [d][1..] == [];
    } else {
      PutAllSnoc(Put(s, ds[0]), ds[1..], d);
      assert (ds + [d])[1..] == ds[1..] + [d];
    }
  }

  // ---------------------------------------------------------------- when doing it again changes nothing

  // However the puts of the first updateQuery land, and those of a second one behind them.
  ghost predicate Idempotent(coerce: Coercion, s: Store, filter: Node, value: Doc) {
    forall a, b ::
      Landing(Updates(coerce, s, filter, value), a) && Landing(Updates(coerce, PutAll(s, a), filter, value), b) ==>
        PutAll(PutAll(s, a), b) == PutAll(s, a)
  }

  lemma {:induction false} PutAllKeyed(s: Store, ds: seq<Doc>)
    requires Keyed(s) && forall i :: 0 <= i < |ds| ==> HasId(ds[i])
    ensures Keyed(PutAll(s, ds))
    decreases |ds|
  {
    if ds != [] {
      PutKeyed(s, ds[0]);
      hide Keyed, HasId;
      PutAllKeyed(Put(s, ds[0]), ds[1..]);
    }
  }

  lemma {:induction false} PutMembers(s: Store, d: Doc)
    requires HasId(d) && forall e :: e in s ==> HasId(e)
    ensures forall e :: e in Put(s, d) ==> e == d || e in s
    ensures forall e :: e in s && HasId(e) && e[ID] != d[ID] ==> e in Put(s, d)
  {
    if s != [] {
      assert forall e :: e in s <==> e == s[0] || e in s[1..];
      PutMembers(s[1..], d);
    }
  }

  lemma TwiceIsOnce(coerce: Coercion, s: Store, filter: Node, value: Doc, a: seq<Doc>, b: seq<Doc>)
    requires Keyed(s) && ID !in value && Landing(Updates(coerce, s, filter, value), a)
    requires Landing(Updates(coerce, PutAll(s, a), filter, value), b)
    ensures PutAll(PutAll(s, a), b) == PutAll(s, a)
  {
    PutsLandInAnyOrder(coerce, s, filter, value, a);
    PutAllKeyed(s, a);
    PutsLandInAnyOrder(coerce, PutAll(s, a), filter, value, b);
    UpdateIsIdempotent(coerce, s, filter, value);
  }

  // All puts of one document, the first time and so the second time.
  lemma SameTwiceIsOnce(coerce: Coercion, s: Store, filter: Node, value: Doc, a: seq<Doc>, b: seq<Doc>)
    requires Keyed(s) && ID in value && AllSame(Updates(coerce, s, filter, value))
    requires Landing(Updates(coerce, s, filter, value), a)
    requires Landing(Updates(coerce, PutAll(s, a), filter, value), b)
    ensures PutAll(PutAll(s, a), b) == PutAll(s, a)
  {
    var updates := Updates(coerce, s, filter, value);
    OnlyLanding(updates, a);
    if updates == [] {
      OnlyLanding(updates, b);
    } else {
      UpdatesHaveIds(coerce, s, filter, value);
      hide Updates, Put;
      LastStays(s, updates, value[ID]);
      SameAgain(coerce, s, filter, value, updates[|updates| - 1]);
      OnlyOne(Updates(coerce, PutAll(s, a), filter, value), b, updates[|updates| - 1]);
      if b != [] {
        LastStays(PutAll(s, a), b, value[ID]);
        PutTwice(s, updates[|updates| - 1], b[|b| - 1]);
      }
    }
  }

  lemma OnlyOne(updates: seq<Doc>, landing: seq<Doc>, u: Doc)
    requires Landing(updates, landing) && forall d :: d in updates ==> d == u
    ensures forall i :: 0 <= i < |landing| ==> landing[i] == u
  {
    forall i | 0 <= i < |landing| ensures landing[i] == u {
      assert landing[i] in multiset(landing);
      assert landing[i] in updates;
    }
  }

  lemma SameAgain(coerce: Coercion, s: Store, filter: Node, value: Doc, u: Doc)
    requires Keyed(s) && HasId(u) && u in Updates(coerce, s, filter, value)
    requires AllSame(Updates(coerce, s, filter, value))
    ensures forall d :: d in Updates(coerce, Put(s, u), filter, value) ==> d == u
  {
    hide Matches;
    UpdatesMembers(coerce, s, filter, value);
    UpdatesMembers(coerce, Put(s, u), filter, value);
    PutMembers(s, u);
    hide Updates, Put;
    var after := Put(s, u);
    forall d | d in Updates(coerce, after, filter, value) ensures d == u {
      var i :| 0 <= i < |after| && Matches(coerce, filter, after[i]) && d == Spread(after[i], value);
      assert after[i] in after;
      if after[i] in s {
        assert d in Updates(coerce, s, filter, value);
      }
    }
  }

  // The document behind v keeps its place when u lands last; then v lands on u.
  lemma AgainChanges(coerce: Coercion, s: Store, filter: Node, value: Doc, i: nat, d: Doc)
    requires Keyed(s) && ID in value && i < |Updates(coerce, s, filter, value)|
    requires d in s && Matches(coerce, filter, d) && d[ID] != value[ID]
    requires Spread(d, value) != Updates(coerce, s, filter, value)[i]
    ensures !Idempotent(coerce, s, filter, value)
  {
    hide Matches;
    var updates, v := Updates(coerce, s, filter, value), Spread(d, value);
    UpdatesHaveIds(coerce, s, filter, value);
    hide Updates;
    LastWins(s, updates, i, value[ID]);
    var a := LandsLast(updates, i);
    var after := PutAll(s, a);
    PutAllKeyed(s, a);
    PutMembers(s, updates[i]);
    UpdatesMembers(coerce, after, filter, value);
    UpdatesHaveIds(coerce, after, filter, value);
    hide Put, Spread;
    var again := Updates(coerce, after, filter, value);
    var k :| 0 <= k < |after| && after[k] == d;
    assert v in again;
    var j :| 0 <= j < |again| && again[j] == v;
    LastWins(after, again, j, value[ID]);
    PutTwice(s, updates[i], v);
    DifferentPuts(s, updates[i], v);
    assert Landing(again, LandsLast(again, j));
  }

  /** For every store, filter and value: doing updateQuery twice leaves what doing it once leaves, in
      whatever orders the puts land and even when the update changes which documents match, exactly
      when the value carries no _id or the puts are all of one document. */
  lemma IdempotentIff(coerce: Coercion, s: Store, filter: Node, value: Doc)
    requires Keyed(s)
    ensures Idempotent(coerce, s, filter, value) <==> ID !in value || AllSame(Updates(coerce, s, filter, value))
  {
    hide Matches, Put;
    var updates := Updates(coerce, s, filter, value);
    if ID !in value || AllSame(updates) {
      forall a, b | Landing(updates, a) && Landing(Updates(coerce, PutAll(s, a), filter, value), b)
        ensures PutAll(PutAll(s, a), b) == PutAll(s, a)
      {
        if ID !in value {
          TwiceIsOnce(coerce, s, filter, value, a, b);
        } else {
          SameTwiceIsOnce(coerce, s, filter, value, a, b);
        }
      }
    } else {
      var i, j :| 0 <= i < |updates| && 0 <= j < |updates| && updates[i] != updates[j];
      UpdatesMembers(coerce, s, filter, value);
      hide Updates, PutAll;
      assert updates[i] in updates && updates[j] in updates;
      var k :| 0 <= k < |s| && Matches(coerce, filter, s[k]) && updates[i] == Spread(s[k], value);
      var l :| 0 <= l < |s| && Matches(coerce, filter, s[l]) && updates[j] == Spread(s[l], value);
      if s[l][ID] != value[ID] {
        AgainChanges(coerce, s, filter, value, i, s[l]);
      } else {
        AgainChanges(coerce, s, filter, value, j, s[k]);
      }
    }
  }

  /** For any value with an _id there is a store that a second updateQuery changes. */
  lemma IdInValueIsNotIdempotent(coerce: Coercion, value: Doc, field: string)
    requires ID in value && field !in value
    ensures exists s: Store :: Keyed(s) && !Idempotent(coerce, s, Node([]), value)
  {
    var s := TwoMatches(coerce, value, field);
    hide Updates, Idempotent;
    IdempotentIff(coerce, s, Node([]), value);
  }

  // Some of the documents have landed, the others are pending.
  ghost predicate PartLanded(updates: seq<Doc>, landed: seq<Doc>, pending: seq<Doc>) {
    && multiset(landed) + multiset(pending) == multiset(updates)
    && forall i :: 0 <= i < |landed| ==> HasId(landed[i])
  }

  lemma LandsFirst(s: Store, updates: seq<Doc>)
    ensures PartLanded(updates, [], updates) && PutAll(s, []) == s
  {
  }

  lemma LandsNext(s: Store, updates: seq<Doc>, landed: seq<Doc>, pending: seq<Doc>, i: nat)
    requires PartLanded(updates, landed, pending) && i < |pending| && forall d :: d in updates ==> HasId(d)
    ensures HasId(pending[i]) && PartLanded(updates, landed + [pending[i]], pending[..i] + pending[i + 1..])
    ensures PutAll(s, landed + [pending[i]]) == Put(PutAll(s, landed), pending[i])
  {
    var d, rest := pending[i], pending[..i] + pending[i + 1..];
    assert pending == pending[..i] + [d] + pending[i + 1..];
    assert multiset(pending) == multiset(rest) + multiset{d};
    assert d in multiset(updates);
    assert d in updates;
    hide HasId;
    PutAllSnoc(s, landed, d);
  }

  lemma AllLanded(updates: seq<Doc>, landed: seq<Doc>)
    requires PartLanded(updates, landed, [])
    ensures Landing(updates, landed)
  {
  }

  // ---------------------------------------------------------------- the resolvers

  /** One collection. */
  class Collection {
    var docs: Store

    ghost predicate Valid()
      reads this
    {
      Keyed(docs)
    }

    constructor ()
      ensures Valid() && docs == []
    {
      docs := [];
    }

    method DbPut(d: Doc)
      requires Valid() && HasId(d)
      modifies this
      ensures Valid() && docs == Put(old(docs), d)
    {
      PutKeyed(docs, d);
      docs := Put(docs, d);
    }

    method DbQuery(coerce: Coercion, filter: Node) returns (r: Result<seq<Doc>>)
      ensures r == Query(coerce, docs, filter)
    {
      hide Compile, Refused, Meaning, Matches, Select;
      var result, i := [], 0;
      SelectFrom(coerce, docs, filter, [], 0);
      while i < |docs|
        invariant 0 <= i <= |docs| && (i > 0 ==> Refused(filter).None?)
        invariant result + Select(coerce, docs[i..], filter) == Select(coerce, docs, filter)
      {
        RefusedOrMatched(coerce, filter, docs[i]);
        var verdict := Compile(coerce, filter)(docs[i]);
        if verdict.Throws? {
          return Failure;
        }
        SelectFrom(coerce, docs, filter, result, i);
        if verdict.b {
          result := result + [docs[i]];
        }
        i := i + 1;
      }
      SelectFrom(coerce, docs, filter, result, i);
      r := Success(result);
    }

    /** updateQuery: the puts are started together and land one by one in any order. */
    method UpdateQuery(coerce: Coercion, filter: Node, value: Doc) returns (r: Result<seq<Doc>>)
      requires Valid()
      modifies this
      ensures Valid()
      ensures r.Failure? ==> Rejects(old(docs), filter) && docs == old(docs)
      ensures r.Success? ==> !Rejects(old(docs), filter)
      ensures r.Success? ==> r.value == Updates(coerce, old(docs), filter, value)
      ensures r.Success? ==>
                var found := Query(coerce, old(docs), filter);
                && found.Success? && |r.value| == |found.value|
                && forall i :: 0 <= i < |r.value| ==> SpreadOver(r.value[i], found.value[i], value)
      ensures r.Success? ==> exists landing :: Landing(r.value, landing) && docs == PutAll(old(docs), landing)
      ensures r.Success? && ID !in value ==> docs == Updated(coerce, old(docs), filter, value)
    {
      hide Matches, Refused, Select, Put;
      var result :- DbQuery(coerce, filter);
      var values := seq(|result|, i requires 0 <= i < |result| => Spread(result[i], value));
      assert values == Updates(coerce, docs, filter, value);
      UpdatesHaveIds(coerce, docs, filter, value);
      hide *;
      var pending := values;
      ghost var landed := [];
      LandsFirst(old(docs), values);
      while pending != []
        invariant Valid() && PartLanded(values, landed, pending) && docs == PutAll(old(docs), landed)
        decreases |pending|
      {
        var i :| 0 <= i < |pending|;
        LandsNext(old(docs), values, landed, pending, i);
        DbPut(pending[i]);
        landed := landed + [pending[i]];
        pending := pending[..i] + pending[i + 1..];
      }
      AllLanded(values, landed);
      if ID !in value {
        PutsLandInAnyOrder(coerce, old(docs), filter, value, landed);
      }
      r := Success(values);
    }
  }
}

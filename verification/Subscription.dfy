/** A GraphQL subscription: a read that registers listeners on its collection, a queue that
    collects one projected result for every change, and the generator that streams them. */
module Subscription {
  import Wire
  import AsyncLater
  import opened Filter
  import opened DocStore

  // ---------------------------------------------------------------- the selector

  // The document cut down to the selected fields it has.
  function Project(fields: seq<string>, d: Doc): (r: Doc)
    ensures forall k :: k in r <==> k in fields && k in d
    ensures forall k :: k in r ==> r[k] == d[k]
  {
    map k | k in fields && k in d :: d[k]
  }

  /** A selection is of a set of fields: neither their order nor a repetition shows, selecting again
      changes nothing, and two selections can be made in either order. */
  lemma SelectionLaws(fields: seq<string>, others: seq<string>, d: Doc)
    ensures (forall k :: k in fields <==> k in others) ==> Project(fields, d) == Project(others, d)
    ensures Project(fields, Project(fields, d)) == Project(fields, d)
    ensures Project(fields, Project(others, d)) == Project(others, Project(fields, d))
    ensures Project(fields + others, d) == Project(fields, d) + Project(others, d)
  {
  }

  function ProjectAll(fields: seq<string>, ds: seq<Doc>): (r: seq<Doc>) {
    seq(|ds|, i requires 0 <= i < |ds| => Project(fields, ds[i]))
  }

  // Exactly the selected fields that the document has, with its contents.
  ghost predicate Selects(fields: seq<string>, r: Doc, d: Doc) {
    && (forall k :: k in r <==> k in fields && k in d)
    && (forall k :: k in r ==> r[k] == d[k])
  }

  /** selector: the objects are filled field by field. */
  method Selector(fields: seq<string>, ds: seq<Doc>) returns (selected: seq<Doc>)
    ensures selected == ProjectAll(fields, ds)
    ensures |selected| == |ds| && forall i :: 0 <= i < |ds| ==> Selects(fields, selected[i], ds[i])
  {
    selected := [];
    for i := 0 to |ds|
      invariant selected == ProjectAll(fields, ds[..i])
    {
      var item, obj2: Doc := ds[i], map[];
      for j := 0 to |fields|
        invariant obj2 == Project(fields[..j], item)
      {
        if fields[j] in item {
          obj2 := obj2[fields[j] := item[fields[j]]];
        }
        assert forall k :: k in fields[..j + 1] <==> k in fields[..j] || k == fields[j];
      }
      assert fields[..|fields|] == fields;
      selected := selected + [obj2];
    }
    assert ds[..|ds|] == ds;
  }

  // ---------------------------------------------------------------- the machine

  // What the generator yields: a projected result, or the error of the first query.
  datatype Item = Rows(docs: seq<Doc>) | QueryFailed

  datatype Args = Args(coerce: Coercion, filter: Node, fields: seq<string>)

  // Before the request is served, after its read has registered, and while it streams.
  datatype Phase = Waiting | Registered | Streaming

  datatype State = State(store: Store, phase: Phase, first: Item, queue: AsyncLater.World<seq<Doc>>)

  // `Change` is a write or a replication that leaves the store as given.
  datatype Event = Change(store: Store) | Register | YieldFirst | Ask | Resume

  function Init(store: Store): State {
    State(store, Waiting, QueryFailed, AsyncLater.Start())
  }

  function Answer(args: Args, s: Store): Item {
    match Query(args.coerce, s, args.filter)
    case Failure => QueryFailed
    case Success(found) => Rows(ProjectAll(args.fields, found))
  }

  ghost function Feed(w: AsyncLater.World<seq<Doc>>, e: AsyncLater.Event<seq<Doc>>): (r: AsyncLater.World<seq<Doc>>)
    requires AsyncLater.Inv(w)
    ensures AsyncLater.Inv(r)
  {
    AsyncLater.StepHolds(w, e);
    AsyncLater.Step(w, e)
  }

  // onChange queries the store as it is at the event; a query that throws passes nothing on.
  ghost function OnChange(args: Args, s: State): (r: State)
    requires AsyncLater.Inv(s.queue)
    ensures AsyncLater.Inv(r.queue)
  {
    match Answer(args, s.store)
    case QueryFailed => s
    case Rows(docs) => s.(queue := Feed(s.queue, AsyncLater.Next(AsyncLater.Plain(docs))))
  }

  ghost function Step(args: Args, s: State, e: Event): (r: State)
    requires AsyncLater.Inv(s.queue)
    ensures AsyncLater.Inv(r.queue)
  {
    match e
    case Change(store) =>
      var s' := s.(store := store);
      if s.phase.Waiting? then s' else OnChange(args, s')
    // The listeners are set and the query is answered in one turn.
    case Register => if s.phase.Waiting? then s.(phase := Registered, first := Answer(args, s.store)) else s
    case YieldFirst => if s.phase.Registered? then s.(phase := Streaming) else s
    case Ask => if s.phase.Streaming? then s.(queue := Feed(s.queue, AsyncLater.Consume)) else s
    case Resume => if s.phase.Streaming? then s.(queue := Feed(s.queue, AsyncLater.Wake)) else s
  }

  ghost function Run(args: Args, store: Store, evs: seq<Event>): (s: State)
    ensures AsyncLater.Inv(s.queue)
  {
    if evs == [] then AsyncLater.StartHolds<seq<Doc>>(); Init(store)
    else Step(args, Run(args, store, evs[..|evs| - 1]), evs[|evs| - 1])
  }

  function RowsOf(results: seq<seq<Doc>>): (r: seq<Item>) {
    seq(|results|, i requires 0 <= i < |results| => Rows(results[i]))
  }

  // The stream so far.
  function Stream(s: State): seq<Item> {
    if s.phase.Streaming? then [s.first] + RowsOf(s.queue.q.yielded) else []
  }

  // ---------------------------------------------------------------- what the stream should be

  function StoreAfter(store: Store, evs: seq<Event>): Store {
    if evs == [] then store
    else if evs[|evs| - 1].Change? then evs[|evs| - 1].store
    else StoreAfter(store, evs[..|evs| - 1])
  }

  ghost predicate HasRegistered(evs: seq<Event>) {
    exists i :: 0 <= i < |evs| && evs[i].Register?
  }

  /** The answer at registration, and one for every change since, each for the store of its moment. */
  ghost function Answers(args: Args, store: Store, evs: seq<Event>): seq<Item> {
    if evs == [] then []
    else
      var before, last := evs[..|evs| - 1], evs[|evs| - 1];
      Answers(args, store, before)
      + if last.Register? && !HasRegistered(before) then [Answer(args, StoreAfter(store, before))]
        else if last.Change? && HasRegistered(before) && Answer(args, last.store).Rows? then [Answer(args, last.store)]
        else []
  }

  lemma RegisteredSnoc(evs: seq<Event>, e: Event)
    ensures HasRegistered(evs + [e]) <==> HasRegistered(evs) || e.Register?
  {
    var all := evs + [e];
    assert all[|evs|] == e;
    if i :| 0 <= i < |evs| && evs[i].Register? {
      assert all[i].Register?;
    }
  }

  // The queue was passed the answers behind the first one.
  ghost predicate Passed(s: State, answers: seq<Item>) {
    if s.phase.Waiting? then answers == [] && s.queue.args == []
    else answers != [] && answers[0] == s.first && |s.queue.args| == |answers| - 1
         && forall i :: 0 <= i < |s.queue.args| ==>
              s.queue.args[i].Plain? && answers[i + 1] == Rows(s.queue.args[i].value)
  }

  ghost predicate Serving(s: State, answers: seq<Item>) {
    && Passed(s, answers) && !s.queue.late && !s.queue.completed
    && (!s.phase.Streaming? ==> s.queue.q.yielded == [])
  }

  // What one event adds to the answers.
  function NewAnswers(args: Args, waiting: bool, store: Store, e: Event): seq<Item> {
    match e
    case Register => if waiting then [Answer(args, store)] else []
    case Change(now) => if !waiting && Answer(args, now).Rows? then [Answer(args, now)] else []
    case _ => []
  }

  lemma StepServes(args: Args, s: State, e: Event, answers: seq<Item>)
    requires AsyncLater.Inv(s.queue) && Serving(s, answers)
    ensures Serving(Step(args, s, e), answers + NewAnswers(args, s.phase.Waiting?, s.store, e))
  {
    AsyncLater.OpenUntilComplete(s.queue);
    hide AsyncLater.Inv, Answer, AsyncLater.NextOn, AsyncLater.ConsumeOn, AsyncLater.WakeOn;
    match e
    case Change(store) => ChangeServes(args, s, store, answers);
    case Register =>
    case YieldFirst => assert answers + [] == answers;
    case Ask => assert answers + [] == answers;
    case Resume => assert answers + [] == answers;
  }

  lemma ChangeServes(args: Args, s: State, store: Store, answers: seq<Item>)
    requires AsyncLater.Inv(s.queue) && Serving(s, answers)
    ensures Serving(Step(args, s, Change(store)), answers + NewAnswers(args, s.phase.Waiting?, s.store, Change(store)))
  {
    AsyncLater.OpenUntilComplete(s.queue);
    hide AsyncLater.Inv, Answer;
    if s.phase.Waiting? || !Answer(args, store).Rows? {
      assert answers + [] == answers;
    }
  }

  lemma {:induction false} RunPasses(args: Args, store: Store, evs: seq<Event>)
    ensures var s := Run(args, store, evs);
            && s.store == StoreAfter(store, evs) && (s.phase.Waiting? <==> !HasRegistered(evs))
            && Serving(s, Answers(args, store, evs))
  {
    hide *;
    if evs == [] {
      NothingServed(args, store);
    } else {
      var before, last := evs[..|evs| - 1], evs[|evs| - 1];
      RunPasses(args, store, before);
      AnswersSnoc(args, store, evs);
      StepServes(args, Run(args, store, before), last, Answers(args, store, before));
      StepMoves(args, Run(args, store, before), last);
      RegisteredSnoc(before, last);
      assert evs == before + [last];
    }
  }

  lemma NothingServed(args: Args, store: Store)
    ensures var s := Run(args, store, []);
            && s.store == StoreAfter(store, []) && s.phase.Waiting? && !HasRegistered([])
            && Serving(s, Answers(args, store, []))
  {
  }

  lemma AnswersSnoc(args: Args, store: Store, evs: seq<Event>)
    requires evs != []
    ensures var before, last := evs[..|evs| - 1], evs[|evs| - 1];
            && Run(args, store, evs) == Step(args, Run(args, store, before), last)
            && StoreAfter(store, evs) == (if last.Change? then last.store else StoreAfter(store, before))
            && Answers(args, store, evs)
               == Answers(args, store, before)
                  + NewAnswers(args, !HasRegistered(before), StoreAfter(store, before), last)
  {
    hide AsyncLater.Inv, HasRegistered, Answer, Step;
  }

  lemma StepMoves(args: Args, s: State, e: Event)
    requires AsyncLater.Inv(s.queue)
    ensures var s' := Step(args, s, e);
            && s'.store == (if e.Change? then e.store else s.store)
            && (s'.phase.Waiting? <==> s.phase.Waiting? && !e.Register?)
  {
    hide AsyncLater.Inv, Answer;
  }

  lemma PlainYields(w: AsyncLater.World<seq<Doc>>, answers: seq<Item>)
    requires AsyncLater.Inv(w) && !w.late && |w.args| == |answers|
    requires forall i :: 0 <= i < |w.args| ==> w.args[i].Plain? && answers[i] == Rows(w.args[i].value)
    ensures RowsOf(w.q.yielded) <= answers && !w.q.body.Failed?
    ensures w.q.body.Ended? ==> w.completed
  {
    AsyncLater.YieldedSoFar(w);
    hide AsyncLater.Inv;
    assert forall i :: 0 <= i < |w.args| ==>
      AsyncLater.OutcomeOf(w.args[i], w.settled) == Wire.Some(AsyncLater.Fulfilled(answers[i].docs));
  }

  /** In every run, with changes at any time, the stream is a prefix of the answers: the one at
      registration, then one for each change since, in order, none skipped; it never ends or fails. */
  lemma StreamsTheAnswers(args: Args, store: Store, evs: seq<Event>)
    ensures var s := Run(args, store, evs);
            Stream(s) <= Answers(args, store, evs) && !s.queue.q.body.Ended? && !s.queue.q.body.Failed?
  {
    hide Run, Answers, HasRegistered, StoreAfter, AsyncLater.Inv;
    RunPasses(args, store, evs);
    var s, answers := Run(args, store, evs), Answers(args, store, evs);
    if !s.phase.Waiting? {
      assert answers == [answers[0]] + answers[1..];
      PlainYields(s.queue, answers[1..]);
    } else {
      PlainYields(s.queue, []);
    }
  }

  /** And a client that keeps asking receives all of them. */
  lemma StreamCatchesUp(args: Args, store: Store, evs: seq<Event>, k: nat)
    requires var s := Run(args, store, evs);
             s.phase.Streaming? && k > AsyncLater.Ahead(s.queue.q)
    ensures var s := Run(args, store, evs);
            Stream(s.(queue := AsyncLater.Rounds(s.queue, k))) == Answers(args, store, evs)
  {
    RunPasses(args, store, evs);
    var s, answers := Run(args, store, evs), Answers(args, store, evs);
    hide Answers, Run, AsyncLater.Inv, AsyncLater.Rounds, AsyncLater.Ahead, HasRegistered, StoreAfter;
    DrainedRows(s.queue, answers[1..], k);
    assert answers == [answers[0]] + answers[1..];
  }

  lemma DrainedRows(w: AsyncLater.World<seq<Doc>>, answers: seq<Item>, k: nat)
    requires AsyncLater.Inv(w) && !w.late && |w.args| == |answers| && k > AsyncLater.Ahead(w.q)
    requires forall i :: 0 <= i < |w.args| ==> w.args[i].Plain? && answers[i] == Rows(w.args[i].value)
    ensures RowsOf(AsyncLater.Rounds(w, k).q.yielded) == answers
  {
    AsyncLater.DrainsEverything(w, k);
    var values := AsyncLater.Rounds(w, k).q.yielded;
    hide AsyncLater.Inv, AsyncLater.Rounds;
    forall i | 0 <= i < |values| ensures Rows(values[i]) == answers[i] {
      assert AsyncLater.OutcomeOf(w.args[i], w.settled) == Wire.Some(AsyncLater.Fulfilled(values[i]));
    }
  }

  /** A change is answered exactly when the compiled filter throws on no document of the collection;
      the answer then holds the projections of exactly the documents that the filter means, in order. */
  lemma AnsweredUnlessThrown(args: Args, s: Store)
    ensures Answer(args, s).Rows? <==> !exists d :: d in s && Compile(args.coerce, args.filter)(d).Throws?
    ensures Answer(args, s).Rows? ==>
              Answer(args, s).docs == ProjectAll(args.fields, Select(args.coerce, s, args.filter))
    ensures Answer(args, s).Rows? ==>
              forall r :: r in Answer(args, s).docs <==>
                exists d :: d in s && Meaning(args.coerce, args.filter, d) && r == Project(args.fields, d)
  {
    hide Compile, Meaning, Project;
    QueryMeans(args.coerce, s, args.filter);
    var answer := Answer(args, s);
    if answer.Rows? {
      var found := Query(args.coerce, s, args.filter).value;
      hide Query;
      forall r ensures r in answer.docs <==> exists d :: d in found && r == Project(args.fields, d) {
        if r in answer.docs {
          var i :| 0 <= i < |found| && r == Project(args.fields, found[i]);
          assert found[i] in found;
        }
        if d :| d in found && r == Project(args.fields, d) {
          var i :| 0 <= i < |found| && found[i] == d;
          assert answer.docs[i] == r;
        }
      }
    }
  }

  /** The rows of an answer, one for every document that the filter means, in the order of the store,
      each with exactly the selected fields that its document has. */
  lemma AnswerInOrder(args: Args, s: Store) returns (ps: seq<nat>)
    requires Answer(args, s).Rows?
    ensures var docs := Answer(args, s).docs;
            && |ps| == |docs|
            && (forall i :: 0 <= i < |ps| ==> ps[i] < |s| && Selects(args.fields, docs[i], s[ps[i]]))
            && (forall i, j :: 0 <= i < j < |ps| ==> ps[i] < ps[j])
            && (forall p :: 0 <= p < |s| ==> (p in ps <==> Meaning(args.coerce, args.filter, s[p])))
  {
    hide Meaning, Select, Refused;
    ps := QueryInOrder(args.coerce, s, args.filter);
  }

  function Changes(stores: seq<Store>): (evs: seq<Event>) {
    seq(|stores|, i requires 0 <= i < |stores| => Change(stores[i]))
  }

  /** A subscription that is registered between changes is answered for the store that it finds, and then
      for the store that each later change leaves. */
  lemma {:induction false} AnswersOfChanges(args: Args, store: Store, earlier: seq<Store>, later: seq<Store>)
    requires Refused(args.filter).None?
    ensures var answers := Answers(args, store, Changes(earlier) + [Register] + Changes(later));
            && |answers| == 1 + |later|
            && answers[0] == Answer(args, if earlier == [] then store else earlier[|earlier| - 1])
            && forall i :: 0 <= i < |later| ==> answers[i + 1] == Answer(args, later[i])
    decreases |later|
  {
    hide *;
    var registered := Changes(earlier) + [Register];
    if later == [] {
      ChangesBefore(args, store, earlier);
      RegisterAnswers(args, store, Changes(earlier));
      NoChanges();
      assert registered + Changes([]) == registered;
    } else {
      var before, last := later[..|later| - 1], later[|later| - 1];
      AnswersOfChanges(args, store, earlier, before);
      var evs := registered + Changes(before);
      ChangesSnoc(before, last);
      assert later == before + [last];
      assert registered + Changes(later) == evs + [Change(last)];
      assert evs[|Changes(earlier)|] == Register;
      IsRegistered(evs, |Changes(earlier)|);
      AllAnswered(args);
      ChangeAnswers(args, store, evs, last);
    }
  }

  lemma NoChanges()
    ensures Changes([]) == []
  {
  }

  lemma ChangesSnoc(stores: seq<Store>, last: Store)
    ensures Changes(stores + [last]) == Changes(stores) + [Change(last)]
  {
  }

  lemma IsRegistered(evs: seq<Event>, i: nat)
    requires i < |evs| && evs[i] == Register
    ensures HasRegistered(evs)
  {
  }

  lemma RegisterAnswers(args: Args, store: Store, evs: seq<Event>)
    requires !HasRegistered(evs) && Answers(args, store, evs) == []
    ensures Answers(args, store, evs + [Register]) == [Answer(args, StoreAfter(store, evs))]
  {
    hide Answer, HasRegistered;
    AnswersSnoc(args, store, evs + [Register]);
    assert (evs + [Register])[..|evs|] == evs;
  }

  lemma ChangeAnswers(args: Args, store: Store, evs: seq<Event>, last: Store)
    requires HasRegistered(evs) && Answer(args, last).Rows?
    ensures Answers(args, store, evs + [Change(last)]) == Answers(args, store, evs) + [Answer(args, last)]
  {
    hide Answer, HasRegistered;
    AnswersSnoc(args, store, evs + [Change(last)]);
    assert (evs + [Change(last)])[..|evs|] == evs;
  }

  lemma AllAnswered(args: Args)
    requires Refused(args.filter).None?
    ensures forall s :: Answer(args, s).Rows?
  {
  }

  lemma {:induction false} ChangesBefore(args: Args, store: Store, stores: seq<Store>)
    ensures !HasRegistered(Changes(stores)) && Answers(args, store, Changes(stores)) == []
    ensures StoreAfter(store, Changes(stores)) == if stores == [] then store else stores[|stores| - 1]
  {
    if stores != [] {
      ChangesBefore(args, store, stores[..|stores| - 1]);
      assert Changes(stores)[..|stores| - 1] == Changes(stores[..|stores| - 1]);
    }
  }

  /** So it is at every change, or at none but those that leave the collection empty. */
  lemma AnsweredUnlessRefused(args: Args, s: Store)
    ensures Answer(args, s).Rows? <==> Refused(args.filter).None? || s == []
  {
    hide Compile, Refused, Select;
  }

  // ---------------------------------------------------------------- the generator and its listener

  /** One subscription request being served: the queue of iterateLater, the first result, and
      how far the generator is.  Each method does to it what the step of the machine does. */
  class Service {
    const args: Args
    const queue: AsyncLater.IterateLater<seq<Doc>>
    var phase: Phase
    var first: Item

    ghost predicate Mirrors(s: State)
      reads this, queue
    {
      phase == s.phase && first == s.first && queue.State() == s.queue.q
    }

    constructor (args: Args, store: Store)
      ensures this.args == args && fresh(queue) && Mirrors(Init(store))
    {
      this.args := args;
      phase, first := Waiting, QueryFailed;
      queue := new AsyncLater.IterateLater();
    }

    // executeAndSelect up to the answer of its read.
    method Execute(store: Store, ghost s: State)
      requires AsyncLater.Inv(s.queue) && Mirrors(s) && s.store == store
      modifies this
      ensures Mirrors(Step(args, s, Register))
    {
      if phase.Waiting? {
        var found := Query(args.coerce, store, args.filter);
        if found.Success? {
          var rows := Selector(args.fields, found.value);
          first := Rows(rows);
        } else {
          first := QueryFailed;
        }
        phase := Registered;
      }
    }

    // onChange, with the store as it is when the event fires.
    method OnEvent(store: Store, ghost s: State)
      requires AsyncLater.Inv(s.queue) && Mirrors(s)
      modifies queue
      ensures Mirrors(Step(args, s, Change(store)))
    {
      if !phase.Waiting? {
        var found := Query(args.coerce, store, args.filter);
        if found.Success? {
          var rows := Selector(args.fields, found.value);
          queue.Next(AsyncLater.Plain(rows));
        }
      }
    }

    // yield bytes; then the loop over the values.
    method Begin(ghost s: State)
      requires AsyncLater.Inv(s.queue) && Mirrors(s)
      modifies this
      ensures Mirrors(Step(args, s, YieldFirst))
    {
      if phase.Registered? {
        phase := Streaming;
      }
    }

    method Pull(ghost s: State)
      requires AsyncLater.Inv(s.queue) && Mirrors(s)
      modifies queue
      ensures Mirrors(Step(args, s, Ask))
    {
      if phase.Streaming? {
        queue.Consume();
      }
    }

    method Continue(settled: AsyncLater.Settled<seq<Doc>>, ghost s: State)
      requires AsyncLater.Inv(s.queue) && Mirrors(s) && s.queue.settled == settled
      modifies queue
      ensures Mirrors(Step(args, s, Resume))
    {
      if phase.Streaming? {
        queue.Wake(settled);
      }
    }
  }
}

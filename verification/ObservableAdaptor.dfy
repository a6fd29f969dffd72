/** observableToAsyncGenerator: one deferred cell that each emission resolves and
    replaces, and a generator that awaits whichever cell is current when it resumes.
    Unlike a queue it can lose values; the theorems say exactly when. */
module ObservableAdaptor {
  // A deferred promise: pending, resolved with an emitted value, resolved by complete(), or
  // rejected by error().
  datatype Cell<T> = Pending | Resolved(value: T) | Void | Rejected

  // The generator before its first next(), before its await, at it, behind the loop, and thrown out of it.
  datatype Body = Idle | Running | Awaiting(cell: nat) | Ended | Failed

  // `erred`: the observable has called error(), after which it calls nothing.
  datatype State<T> = State(
    cells: seq<Cell<T>>,
    deferred: nat,
    finished: bool,
    erred: bool,
    body: Body,
    yielded: seq<T>)

  datatype Event<T> = Subscribe | Emit(value: T) | Complete | Fail | Resume | Wake

  function Init<T>(): State<T> {
    State([Pending], 0, false, false, Idle, [])
  }

  predicate Indexed<T>(s: State<T>) {
    s.deferred < |s.cells| && (s.body.Awaiting? ==> s.body.cell < |s.cells|)
  }

  // The observer is called only between subscribe and unsubscribe, and not after complete or error.
  predicate Listening<T>(s: State<T>) {
    !s.body.Idle? && !s.body.Ended? && !s.body.Failed? && !s.finished && !s.erred
  }

  function Step<T>(s: State<T>, e: Event<T>): State<T>
    requires Indexed(s)
  {
    match e
    case Subscribe => if s.body.Idle? then s.(body := Running) else s
    case Emit(v) =>
      if !Listening(s) then s
      else s.(cells := s.cells[s.deferred := Resolved(v)] + [Pending], deferred := |s.cells|)
    case Complete =>
      if !Listening(s) then s
      else s.(finished := true, cells := s.cells[s.deferred := Void])
    case Fail =>
      if !Listening(s) then s
      else s.(erred := true, cells := s.cells[s.deferred := Rejected] + [Pending], deferred := |s.cells|)
    case Resume => if s.body.Running? then s.(body := Awaiting(s.deferred)) else s
    case Wake =>
      if !s.body.Awaiting? || s.cells[s.body.cell].Pending? then s
      else if s.cells[s.body.cell].Rejected? then s.(body := Failed)
      else if s.finished then s.(body := Ended)
      else match s.cells[s.body.cell]
           case Resolved(v) => s.(yielded := s.yielded + [v], body := Running)
           case _ => s
  }

  ghost function Run<T>(evs: seq<Event<T>>): (s: State<T>)
    ensures Shape(s)
  {
    if evs == [] then Init()
    else
      var s := Run(evs[..|evs| - 1]);
      StepKeepsShape(s, evs[|evs| - 1]);
      Step(s, evs[|evs| - 1])
  }

  // What one event adds to the emitted values, and to the positions of the yielded ones.
  function NewlyEmitted<T>(s: State<T>, e: Event<T>): seq<T> {
    if e.Emit? && Listening(s) then [e.value] else []
  }

  function NewlyTaken<T>(s: State<T>, e: Event<T>): seq<nat>
    requires Indexed(s)
  {
    if e.Wake? && s.body.Awaiting? && !s.finished && s.cells[s.body.cell].Resolved? then [s.body.cell] else []
  }

  // The values that reached the observer, in order.
  ghost function Emitted<T>(evs: seq<Event<T>>): seq<T> {
    if evs == [] then []
    else Emitted(evs[..|evs| - 1]) + NewlyEmitted(Run(evs[..|evs| - 1]), evs[|evs| - 1])
  }

  // Which emissions were yielded.
  ghost function Taken<T>(evs: seq<Event<T>>): seq<nat> {
    if evs == [] then []
    else Taken(evs[..|evs| - 1]) + NewlyTaken(Run(evs[..|evs| - 1]), evs[|evs| - 1])
  }

  /** Every emission, and the completion, found the generator where nothing gets lost: an emission
      at its await of the current deferred, the completion not at the await of an earlier one. */
  ghost predicate InStep<T>(evs: seq<Event<T>>) {
    evs == [] || (InStep(evs[..|evs| - 1]) && Meets(Run(evs[..|evs| - 1]), evs[|evs| - 1]))
  }

  predicate Meets<T>(s: State<T>, e: Event<T>) {
    Listening(s) ==>
      && (e.Emit? ==> s.body == Awaiting(s.deferred))
      && (e.Complete? ==> s.body.Awaiting? ==> s.body.cell == s.deferred)
  }

  // ---------------------------------------------------------------- the invariant

  // How many values were emitted: the error has a cell of its own.
  function Count<T>(s: State<T>): int {
    if s.erred then s.deferred - 1 else s.deferred
  }

  ghost predicate Shape<T>(s: State<T>)
    ensures Shape(s) ==> Indexed(s)
  {
    && |s.cells| == s.deferred + 1
    && (forall i :: 0 <= i < Count(s) ==> s.cells[i].Resolved?)
    && (s.erred ==> s.deferred > 0 && s.cells[s.deferred - 1].Rejected? && !s.finished)
    && (s.cells[s.deferred] == if s.finished then Void else Pending)
    && (s.body.Awaiting? ==> s.body.cell <= s.deferred)
    && (s.body.Idle? ==> !s.finished && !s.erred && s.yielded == [])
    && (s.body.Ended? ==> s.finished)
    && (s.body.Failed? ==> s.erred)
  }

  lemma StepKeepsShape<T>(s: State<T>, e: Event<T>)
    requires Shape(s)
    ensures Shape(Step(s, e))
  {
  }

  // The strictly increasing positions at which the yielded values stand among the emitted ones.
  ghost predicate Picks<T>(picks: seq<nat>, from: seq<T>, values: seq<T>) {
    && |picks| == |values|
    && (forall i :: 0 <= i < |picks| ==> picks[i] < |from| && from[picks[i]] == values[i])
    && (forall i, j :: 0 <= i < j < |picks| ==> picks[i] < picks[j])
  }

  // What is still to be picked lies ahead of the generator.
  ghost predicate Ahead<T>(picks: seq<nat>, s: State<T>) {
    var bound := if s.body.Awaiting? then s.body.cell else s.deferred;
    forall i :: 0 <= i < |picks| ==> picks[i] < bound
  }

  ghost predicate CellsOf<T>(s: State<T>, emitted: seq<T>) {
    |emitted| == Count(s) < |s.cells| && forall i :: 0 <= i < Count(s) ==> s.cells[i] == Resolved(emitted[i])
  }

  lemma StepCells<T>(s: State<T>, e: Event<T>, emitted: seq<T>)
    requires Shape(s) && CellsOf(s, emitted)
    ensures CellsOf(Step(s, e), emitted + NewlyEmitted(s, e))
  {
  }

  lemma Unfold<T>(before: seq<Event<T>>, last: Event<T>)
    ensures Run(before + [last]) == Step(Run(before), last)
    ensures Emitted(before + [last]) == Emitted(before) + NewlyEmitted(Run(before), last)
    ensures Taken(before + [last]) == Taken(before) + NewlyTaken(Run(before), last)
    ensures InStep(before + [last]) <==> InStep(before) && Meets(Run(before), last)
  {
    hide Step, Shape, NewlyEmitted, NewlyTaken, Meets;
    assert (before + [last])[..|before|] == before;
  }

  lemma UnfoldNothing<T>()
    ensures var s := Run<T>([]);
            && Emitted<T>([]) == [] && Taken<T>([]) == [] && InStep<T>([])
            && CellsOf(s, []) && Picks([], [], s.yielded) && Ahead([], s) && Balanced(s, 0, true)
  {
  }

  lemma {:induction false} RunCells<T>(evs: seq<Event<T>>)
    ensures CellsOf(Run(evs), Emitted(evs))
  {
    hide *;
    if evs == [] {
      UnfoldNothing<T>();
    } else {
      var before, last := evs[..|evs| - 1], evs[|evs| - 1];
      RunCells(before);
      StepCells(Run(before), last, Emitted(before));
      Unfold(before, last);
      assert evs == before + [last];
    }
  }

  lemma StepPicks<T>(s: State<T>, e: Event<T>, picks: seq<nat>, emitted: seq<T>)
    requires Shape(s) && CellsOf(s, emitted) && Picks(picks, emitted, s.yielded) && Ahead(picks, s)
    ensures var picks' := picks + NewlyTaken(s, e);
            Picks(picks', emitted + NewlyEmitted(s, e), Step(s, e).yielded) && Ahead(picks', Step(s, e))
  {
    if NewlyTaken(s, e) == [] {
      assert picks + [] == picks;
    }
  }

  lemma {:induction false} RunPicks<T>(evs: seq<Event<T>>)
    ensures Picks(Taken(evs), Emitted(evs), Run(evs).yielded) && Ahead(Taken(evs), Run(evs))
  {
    hide *;
    if evs == [] {
      UnfoldNothing<T>();
    } else {
      var before, last := evs[..|evs| - 1], evs[|evs| - 1];
      RunPicks(before);
      RunCells(before);
      StepPicks(Run(before), last, Taken(before), Emitted(before));
      Unfold(before, last);
      assert evs == before + [last];
    }
  }

  /** In every run the yielded values are emitted values, in order, each at most once. */
  lemma YieldsSubsequence<T>(evs: seq<Event<T>>)
    ensures Picks(Taken(evs), Emitted(evs), Run(evs).yielded)
  {
    RunPicks(evs);
  }

  lemma StepAfterComplete<T>(s: State<T>, e: Event<T>)
    requires Shape(s) && s.finished
    ensures Step(s, e).finished && Step(s, e).yielded == s.yielded
    ensures Step(Step(s, Resume), Wake).body.Ended?
  {
  }

  /** After complete() nothing more is yielded, and one more resumption ends the generator. */
  lemma {:induction false} EndsAfterComplete<T>(evs: seq<Event<T>>, later: seq<Event<T>>)
    requires Run(evs).finished
    ensures Run(evs + later).finished && Run(evs + later).yielded == Run(evs).yielded
    ensures Step(Step(Run(evs + later), Resume), Wake).body.Ended?
    decreases |later|
  {
    hide *;
    if later == [] {
      assert evs + later == evs;
    } else {
      var before, last := later[..|later| - 1], later[|later| - 1];
      EndsAfterComplete(evs, before);
      StepAfterComplete(Run(evs + before), last);
      Unfold(evs + before, last);
      assert evs + later == evs + before + [last];
    }
    StepAfterComplete(Run(evs + later), Resume);
  }

  // In step, everything emitted is yielded or about to be; out of step, something is lost for good.
  ghost predicate Balanced<T>(s: State<T>, emitted: nat, inStep: bool) {
    var pending := if s.body.Awaiting? && s.body.cell < Count(s) && !s.finished then 1 else 0;
    if inStep then |s.yielded| + pending == emitted else |s.yielded| + pending < emitted
  }

  lemma StepBalance<T>(s: State<T>, e: Event<T>, emitted: seq<T>, inStep: bool)
    requires Shape(s) && CellsOf(s, emitted) && Balanced(s, |emitted|, inStep)
    ensures Balanced(Step(s, e), |emitted + NewlyEmitted(s, e)|, inStep && Meets(s, e))
  {
    hide CellsOf;
  }

  lemma {:induction false} RunBalance<T>(evs: seq<Event<T>>)
    ensures Balanced(Run(evs), |Emitted(evs)|, InStep(evs))
  {
    hide *;
    if evs == [] {
      UnfoldNothing<T>();
    } else {
      var before, last := evs[..|evs| - 1], evs[|evs| - 1];
      RunBalance(before);
      RunCells(before);
      StepBalance(Run(before), last, Emitted(before), InStep(before));
      Unfold(before, last);
      assert evs == before + [last];
    }
  }

  /** A generator that has ended or thrown yielded every emitted value exactly when it was in step. */
  lemma YieldsAllIffInStep<T>(evs: seq<Event<T>>)
    requires Run(evs).body.Ended? || Run(evs).body.Failed?
    ensures Run(evs).yielded == Emitted(evs) <==> InStep(evs)
  {
    RunBalance(evs);
    RunPicks(evs);
    if InStep(evs) {
      AllPicked(Taken(evs), Emitted(evs), Run(evs).yielded);
    }
  }

  // The generator awaits the rejected promise, or has thrown its error.
  predicate Heard<T>(s: State<T>) {
    s.erred && (s.body.Failed? || (s.body.Awaiting? && s.body.cell + 1 == s.deferred))
  }

  lemma HeardStays<T>(s: State<T>, e: Event<T>)
    requires Shape(s) && s.erred
    ensures Step(s, e).erred && (Heard(Step(s, e)) <==> Heard(s))
  {
  }

  /** error() is heard exactly when it finds the generator awaiting the current deferred. */
  lemma ErrorIsHeardIff<T>(evs: seq<Event<T>>)
    requires Listening(Run(evs))
    ensures Heard(Run(evs + [Fail])) <==> Run(evs).body == Awaiting(Run(evs).deferred)
  {
    assert (evs + [Fail])[..|evs|] == evs;
  }

  /** An error that is heard is thrown at the next resumption; one that is not is lost for good, and
      the generator then neither throws nor ends, whatever comes. */
  lemma {:induction false} ErrorIsThrownIffHeard<T>(evs: seq<Event<T>>, later: seq<Event<T>>)
    requires Run(evs).erred
    ensures Heard(Run(evs)) ==> Step(Run(evs + later), Wake).body.Failed?
    ensures !Heard(Run(evs)) ==> !Run(evs + later).body.Failed? && !Run(evs + later).body.Ended?
    decreases |later|
  {
    ErrorStays(evs, later);
  }

  lemma {:induction false} ErrorStays<T>(evs: seq<Event<T>>, later: seq<Event<T>>)
    requires Run(evs).erred
    ensures Run(evs + later).erred && (Heard(Run(evs + later)) <==> Heard(Run(evs)))
    decreases |later|
  {
    hide Step, Shape, Heard;
    if later == [] {
      assert evs + later == evs;
    } else {
      var before, last := later[..|later| - 1], later[|later| - 1];
      ErrorStays(evs, before);
      assert evs + later == evs + before + [last];
      var _ := Then(evs + before, last);
      HeardStays(Run(evs + before), last);
    }
  }

  lemma AllPicked<T>(picks: seq<nat>, from: seq<T>, values: seq<T>)
    requires Picks(picks, from, values) && |values| == |from|
    ensures values == from
  {
    forall i | 0 <= i < |picks| ensures picks[i] == i {
      IncreasingBounds(picks, |from|, i);
    }
  }

  lemma {:induction false} IncreasingBounds(picks: seq<nat>, bound: nat, i: nat)
    requires i < |picks| && forall k :: 0 <= k < |picks| ==> picks[k] < bound
    requires forall k, l :: 0 <= k < l < |picks| ==> picks[k] < picks[l]
    ensures i <= picks[i] <= bound - (|picks| - i)
  {
    Below(picks, i);
    Above(picks, bound, i);
  }

  lemma {:induction false} Below(picks: seq<nat>, i: nat)
    requires i < |picks| && forall k, l :: 0 <= k < l < |picks| ==> picks[k] < picks[l]
    ensures i <= picks[i]
  {
    if i > 0 {
      Below(picks, i - 1);
    }
  }

  lemma {:induction false} Above(picks: seq<nat>, bound: nat, i: nat)
    requires i < |picks| && forall k :: 0 <= k < |picks| ==> picks[k] < bound
    requires forall k, l :: 0 <= k < l < |picks| ==> picks[k] < picks[l]
    ensures picks[i] <= bound - (|picks| - i)
    decreases |picks| - i
  {
    if i < |picks| - 1 {
      Above(picks, bound, i + 1);
    }
  }

  // The generator is back at its yield, and the observable goes on.
  predicate AtYield<T>(s: State<T>) {
    s.body.Running? && !s.finished && !s.erred
  }

  lemma EmitInStep<T>(s: State<T>, v: T)
    requires Shape(s) && AtYield(s)
    ensures var s1 := Step(s, Resume);
            var s2 := Step(s1, Emit(v));
            && Meets(s1, Emit(v)) && NewlyEmitted(s1, Emit(v)) == [v] && AtYield(Step(s2, Wake))
  {
  }

  lemma {:induction false} EmitAllInStep<T>(values: seq<T>) returns (evs: seq<Event<T>>)
    ensures Emitted(evs) == values && InStep(evs) && AtYield(Run(evs))
  {
    hide *;
    if values == [] {
      evs := [Subscribe];
      Started<T>();
    } else {
      var v := values[|values| - 1];
      evs := EmitAllInStep(values[..|values| - 1]);
      EmitInStep(Run(evs), v);
      EventsInStep(evs, v);
      evs := evs + [Resume] + [Emit(v)] + [Wake];
      assert values == values[..|values| - 1] + [v];
    }
  }

  lemma Started<T>()
    ensures Emitted<T>([Subscribe]) == [] && InStep<T>([Subscribe]) && AtYield(Run<T>([Subscribe]))
  {
    var nothing: seq<Event<T>> := [];
    Unfold(nothing, Subscribe);
    assert nothing + [Subscribe] == [Subscribe];
  }

  lemma EventsInStep<T>(evs: seq<Event<T>>, v: T)
    requires var s1 := Step(Run(evs), Resume);
             Meets(s1, Emit(v)) && NewlyEmitted(s1, Emit(v)) == [v]
    ensures var all := evs + [Resume] + [Emit(v)] + [Wake];
            && Emitted(all) == Emitted(evs) + [v] && (InStep(evs) ==> InStep(all))
            && Run(all) == Step(Step(Step(Run(evs), Resume), Emit(v)), Wake)
  {
    hide Run, Step, Shape, Emitted, InStep;
    Unfold(evs, Resume);
    Unfold(evs + [Resume], Emit(v));
    Unfold(evs + [Resume] + [Emit(v)], Wake);
    assert Emitted(evs) + [] == Emitted(evs) && Emitted(evs) + [v] + [] == Emitted(evs) + [v];
  }

  /** Any values can be emitted in step, and then all of them are yielded before the end. */
  lemma EveryEmissionCanBeInStep<T>(values: seq<T>) returns (evs: seq<Event<T>>)
    ensures Emitted(evs) == values && InStep(evs) && Run(evs).body.Ended? && Run(evs).yielded == values
  {
    var before := EmitAllInStep(values);
    hide Run, Emitted, InStep;
    Unfold(before, Resume);
    Unfold(before + [Resume], Complete);
    Unfold(before + [Resume] + [Complete], Wake);
    evs := before + [Resume] + [Complete] + [Wake];
    YieldsAllIffInStep(evs);
  }

  /** Two emissions in one turn lose the second. */
  lemma BurstLosesValues<T>(a: T, b: T)
    ensures var evs := [Subscribe, Resume, Emit(a), Emit(b), Wake, Resume];
            Run(evs).yielded == [a] && Emitted(evs) == [a, b] && Run(evs).body == Awaiting(2)
  {
    var e1: seq<Event<T>> := [Subscribe];
    var e2 := Then([Subscribe], Resume);
    var e3 := Then(e2, Emit(a));
    var e4 := Then(e3, Emit(b));
    var e5 := Then(e4, Wake);
    var e6 := Then(e5, Resume);
    assert e1[..0] == [];
    assert e6 == [Subscribe, Resume, Emit(a), Emit(b), Wake, Resume];
  }

  lemma Then<T>(evs: seq<Event<T>>, e: Event<T>) returns (r: seq<Event<T>>)
    ensures r == evs + [e] && Run(r) == Step(Run(evs), e)
    ensures Emitted(r) == Emitted(evs) + if e.Emit? && Listening(Run(evs)) then [e.value] else []
  {
    r := evs + [e];
    assert r[..|r| - 1] == evs;
  }

  // ---------------------------------------------------------------- the closures of the generator

  class Adaptor<T> {
    var cells: seq<Cell<T>>
    var deferred: nat
    var finished: bool
    var erred: bool
    var body: Body
    var yielded: seq<T>

    ghost function Abstract(): State<T>
      reads this
    {
      State(cells, deferred, finished, erred, body, yielded)
    }

    constructor ()
      ensures Abstract() == Init<T>()
    {
      cells, deferred, finished, erred, body, yielded := [Pending], 0, false, false, Idle, [];
    }

    method Start()
      requires Indexed(Abstract())
      modifies this
      ensures Abstract() == Step(old(Abstract()), Subscribe)
    {
      if body.Idle? {
        body := Running;
      }
    }

    // defer()
    method Defer() returns (d: nat)
      modifies this`cells
      ensures d == |old(cells)| && cells == old(cells) + [Pending]
    {
      d := |cells|;
      cells := cells + [Pending];
    }

    method Next(value: T)
      requires Indexed(Abstract()) && Listening(Abstract())
      modifies this
      ensures Abstract() == Step(old(Abstract()), Emit(value))
    {
      var result := deferred;
      deferred := Defer();
      cells := cells[result := Resolved(value)];
    }

    method Fail()
      requires Indexed(Abstract()) && Listening(Abstract())
      modifies this
      ensures Abstract() == Step(old(Abstract()), Event.Fail)
    {
      var result := deferred;
      deferred := Defer();
      cells := cells[result := Rejected];
      erred := true;
    }

    method Finish()
      requires Indexed(Abstract()) && Listening(Abstract())
      modifies this
      ensures Abstract() == Step(old(Abstract()), Complete)
    {
      finished := true;
      cells := cells[deferred := Void];
    }

    method Await()
      requires Indexed(Abstract())
      modifies this
      ensures Abstract() == Step(old(Abstract()), Resume)
    {
      if body.Running? {
        body := Awaiting(deferred);
      }
    }

    method Continue()
      requires Indexed(Abstract())
      modifies this
      ensures Abstract() == Step(old(Abstract()), Wake)
    {
      if body.Awaiting? && !cells[body.cell].Pending? {
        if cells[body.cell].Rejected? {
          body := Failed;
        } else if finished {
          body := Ended;
        } else if cells[body.cell].Resolved? {
          yielded := yielded + [cells[body.cell].value];
          body := Running;
        }
      }
    }
  }
}

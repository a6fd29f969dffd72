/** iterateLater and resolveLater: promise slots that a producer resolves at one
    end of a queue while a generator pops and awaits them at the other, under
    every interleaving of producer, consumer and settling promises. */
module AsyncLater {
  import opened Wire
  import opened Sequences

  // What next() is given: a value, or a promise that settles later.
  datatype Arg<T> = Plain(value: T) | Later(promise: nat)
  datatype Outcome<T> = Fulfilled(value: T) | Rejected
  type Settled<T> = map<nat, Outcome<T>>

  // A promise made by resolveLater; Marker is the private `completed` object.
  datatype Slot<T> = Open | Holds(arg: Arg<T>) | Marker

  // Where the generator stands: before its loop test, at its await, or behind its end.
  datatype Body = Suspended | Awaiting(slot: nat) | Ended | Failed

  // `line` is the array `queue`: unshift puts a slot at its head, pop takes one off its end.
  datatype Queue<T> = Queue(slots: seq<Slot<T>>, line: seq<nat>, nextInLine: nat, body: Body, yielded: seq<T>)

  // ---------------------------------------------------------------- one step

  // Only the first resolve of a promise counts.
  function Resolve<T>(slot: Slot<T>, content: Slot<T>): Slot<T> {
    if slot.Open? then content else slot
  }

  predicate Indexed<T>(q: Queue<T>) {
    && q.nextInLine < |q.slots|
    && (forall j :: 0 <= j < |q.line| ==> q.line[j] < |q.slots|)
    && (q.body.Awaiting? ==> q.body.slot < |q.slots|)
  }

  function NextOn<T>(q: Queue<T>, arg: Arg<T>): (r: Queue<T>)
    requires Indexed(q)
    ensures Indexed(r)
  {
    q.(slots := q.slots[q.nextInLine := Resolve(q.slots[q.nextInLine], Holds(arg))] + [Open],
       nextInLine := |q.slots|,
       line := [|q.slots|] + q.line)
  }

  function CompleteOn<T>(q: Queue<T>): (r: Queue<T>)
    requires Indexed(q)
    ensures Indexed(r)
  {
    q.(slots := q.slots[q.nextInLine := Resolve(q.slots[q.nextInLine], Marker)])
  }

  // while (queue.length > 0) { const [nextValue] = queue.pop(); await nextValue ...
  function TurnOn<T>(q: Queue<T>): Queue<T> {
    if q.line == [] then q.(body := Ended)
    else q.(line := q.line[..|q.line| - 1], body := Awaiting(q.line[|q.line| - 1]))
  }

  // The consumer asks for the next value.
  function ConsumeOn<T>(q: Queue<T>): Queue<T> {
    if q.body.Suspended? then TurnOn(q) else q
  }

  function OutcomeOf<T>(arg: Arg<T>, settled: Settled<T>): Option<Outcome<T>> {
    match arg
    case Plain(v) => Some(Fulfilled(v))
    case Later(p) => if p in settled then Some(settled[p]) else None
  }

  // The awaited promise wakes the generator, if it has settled.
  function WakeOn<T>(q: Queue<T>, settled: Settled<T>): Queue<T>
    requires Indexed(q)
  {
    if !q.body.Awaiting? then q
    else match q.slots[q.body.slot]
         case Open => q
         case Marker => TurnOn(q)
         case Holds(arg) =>
           match OutcomeOf(arg, settled)
           case None => q
           case Some(Fulfilled(v)) => q.(body := Suspended, yielded := q.yielded + [v])
           case Some(Rejected) => q.(body := Failed)
  }

  // ---------------------------------------------------------------- runs

  datatype Event<T> = Next(arg: Arg<T>) | Complete | Settle(promise: nat, outcome: Outcome<T>) | Consume | Wake

  // With the queue, what was asked of it: the arguments of next() in order, whether
  // complete() was called, and whether a next() ever found its slot completed.
  datatype World<T> = World(q: Queue<T>, settled: Settled<T>, args: seq<Arg<T>>, completed: bool, late: bool)

  function Start<T>(): World<T> {
    World(Queue([Open], [0], 0, Suspended, []), map[], [], false, false)
  }

  ghost function Step<T>(w: World<T>, e: Event<T>): World<T>
    requires Indexed(w.q)
  {
    match e
    case Next(arg) =>
      w.(q := NextOn(w.q, arg), args := w.args + [arg], late := w.late || !w.q.slots[w.q.nextInLine].Open?)
    case Complete => w.(q := CompleteOn(w.q), completed := true)
    case Settle(p, outcome) => if p in w.settled then w else w.(settled := w.settled[p := outcome])
    case Consume => w.(q := ConsumeOn(w.q))
    case Wake => w.(q := WakeOn(w.q, w.settled))
  }

  ghost function Run<T>(evs: seq<Event<T>>): (w: World<T>)
    ensures Inv(w)
  {
    if evs == [] then StartHolds<T>(); Start()
    else
      var w := Run(evs[..|evs| - 1]);
      StepHolds(w, evs[|evs| - 1]);
      Step(w, evs[|evs| - 1])
  }

  // ---------------------------------------------------------------- the invariant

  // The arguments that found an open slot, in order.
  function Kept<T>(slots: seq<Slot<T>>): (r: seq<Arg<T>>) {
    if slots == [] then []
    else Kept(slots[..|slots| - 1])
         + match slots[|slots| - 1] case Holds(arg) => [arg] case _ => []
  }

  // How many slots the generator has dealt with.
  function Dealt<T>(q: Queue<T>): int {
    |q.slots| - |q.line| - if q.body.Awaiting? || q.body.Failed? then 1 else 0
  }

  // The yielded values are what these arguments settled to.
  ghost predicate Yields<T>(args: seq<Arg<T>>, settled: Settled<T>, values: seq<T>) {
    |values| == |args| && forall i :: 0 <= i < |args| ==> OutcomeOf(args[i], settled) == Some(Fulfilled(values[i]))
  }

  ghost predicate Shape<T>(q: Queue<T>) {
    var n := |q.slots| - 1;
    && q.nextInLine == n >= 0
    && |q.line| <= n + 1
    && (forall j :: 0 <= j < |q.line| ==> q.line[j] == n - j)
    && (forall i :: 0 <= i < n ==> !q.slots[i].Open?)
    && Dealt(q) >= 0
    && (q.body.Awaiting? ==> q.body.slot == Dealt(q))
    && (q.body.Suspended? ==> Dealt(q) <= n)
    && (q.body.Ended? ==> Dealt(q) <= n || q.slots[n].Marker?)
  }

  ghost predicate Inv<T>(w: World<T>)
    ensures Inv(w) ==> Indexed(w.q)
  {
    && Shape(w.q)
    && Yields(Kept(w.q.slots[..Dealt(w.q)]), w.settled, w.q.yielded)
    && (w.q.body.Failed? ==>
          && w.q.slots[Dealt(w.q)].Holds?
          && OutcomeOf(w.q.slots[Dealt(w.q)].arg, w.settled) == Some(Rejected))
    && (forall i :: 0 <= i < |w.q.slots| && w.q.slots[i].Marker? ==> w.completed)
    && (w.q.body.Ended? ==> w.completed)
    && !w.q.slots[w.q.nextInLine].Holds?
    && (w.q.body.Ended? && !w.late ==> w.q.line == [] && w.q.slots[w.q.nextInLine].Marker?)
    && (w.completed && !w.late ==> w.q.slots[w.q.nextInLine].Marker?)
    && (if w.late then |Kept(w.q.slots)| < |w.args| else Kept(w.q.slots) == w.args)
  }

  lemma StartHolds<T>()
    ensures Inv<T>(Start())
  {
    var open: Slot<T> := Open;
    assert Kept([open]) == Kept([open][..0]) + [];
  }

  lemma StepHolds<T>(w: World<T>, e: Event<T>)
    requires Inv(w)
    ensures Inv(Step(w, e))
  {
    match e
    case Next(arg) => NextHolds(w, arg);
    case Complete => CompleteHolds(w);
    case Settle(_, _) =>
    case Consume => if w.q.body.Suspended? { TurnHolds(w); }
    case Wake => WakeHolds(w);
  }

  lemma NextHolds<T>(w: World<T>, arg: Arg<T>)
    requires Inv(w)
    ensures Inv(Step(w, Next(arg)))
  {
    var q, q' := w.q, NextOn(w.q, arg);
    var n, d := q.nextInLine, Dealt(q);
    var resolved := q.slots[n := Resolve(q.slots[n], Holds(arg))];
    NextKeeps(q, arg);
    assert q'.slots[..d] == q.slots[..d] by {
      if d == n + 1 {
        assert resolved == q.slots && q'.slots[..d] == resolved;
      }
    }
    NextShape(q, arg);
  }

  lemma NextKeeps<T>(q: Queue<T>, arg: Arg<T>)
    requires Shape(q) && Indexed(q) && !q.slots[q.nextInLine].Holds?
    ensures Kept(NextOn(q, arg).slots) == Kept(q.slots) + if q.slots[q.nextInLine].Open? then [arg] else []
  {
    var n, q' := q.nextInLine, NextOn(q, arg);
    var resolved := q.slots[n := Resolve(q.slots[n], Holds(arg))];
    assert q'.slots[..n + 1] == resolved;
    assert q.slots[..n] == resolved[..n];
  }

  lemma NextShape<T>(q: Queue<T>, arg: Arg<T>)
    requires Shape(q) && Indexed(q)
    ensures Shape(NextOn(q, arg)) && Indexed(NextOn(q, arg)) && Dealt(NextOn(q, arg)) == Dealt(q)
  {
  }

  lemma CompleteHolds<T>(w: World<T>)
    requires Inv(w)
    ensures Inv(Step(w, Complete))
  {
    var q, q' := w.q, CompleteOn(w.q);
    var n := q.nextInLine;
    assert Dealt(q) <= n ==> q.slots[..Dealt(q)] == q'.slots[..Dealt(q)];
    assert Dealt(q) == n + 1 ==> q.slots[..n + 1] == q.slots && q'.slots[..n + 1] == q'.slots;
    CompleteKeeps(q);
    hide Kept;
  }

  // The loop test and the pop, at the start or behind a marker.
  lemma TurnHolds<T>(w: World<T>)
    requires Inv(w) && (w.q.body.Suspended? || (w.q.body.Awaiting? && w.q.slots[w.q.body.slot].Marker?))
    ensures Inv(w.(q := TurnOn(w.q)))
  {
    var q, q' := w.q, TurnOn(w.q);
    var d := Dealt(q);
    if q.body.Awaiting? {
      assert q.slots[..d + 1][..d] == q.slots[..d];
      assert Kept(q.slots[..d + 1]) == Kept(q.slots[..d]) + [];
    }
  }

  lemma WakeHolds<T>(w: World<T>)
    requires Inv(w)
    ensures Inv(Step(w, Wake))
  {
    var q := w.q;
    if q.body.Awaiting? {
      match q.slots[q.body.slot]
      case Open =>
      case Marker => TurnHolds(w);
      case Holds(arg) => SettlesHolds(w, arg);
    }
  }

  // The awaited slot holds an argument: it is yielded, it fails the generator, or it is pending.
  lemma SettlesHolds<T>(w: World<T>, arg: Arg<T>)
    requires Inv(w) && w.q.body.Awaiting? && w.q.slots[w.q.body.slot] == Holds(arg)
    ensures Inv(Step(w, Wake))
  {
    hide Kept;
    var q, d := w.q, Dealt(w.q);
    KeptLast(q.slots[..d], Holds(arg));
    assert q.slots[..d + 1] == q.slots[..d] + [Holds(arg)];
    var q' := WakeOn(q, w.settled);
    assert Shape(q');
    assert q'.slots == q.slots && q'.nextInLine == q.nextInLine && q'.line == q.line;
  }

  // ---------------------------------------------------------------- what a run was asked

  ghost function Passed<T>(evs: seq<Event<T>>): seq<Arg<T>> {
    if evs == [] then []
    else if evs[|evs| - 1].Next? then Passed(evs[..|evs| - 1]) + [evs[|evs| - 1].arg]
    else Passed(evs[..|evs| - 1])
  }

  ghost predicate Completes<T>(evs: seq<Event<T>>) {
    exists i :: 0 <= i < |evs| && evs[i].Complete?
  }

  ghost predicate NextAfterComplete<T>(evs: seq<Event<T>>) {
    exists i, j :: 0 <= i < j < |evs| && evs[i].Complete? && evs[j].Next?
  }

  lemma {:induction false} RunRecords<T>(evs: seq<Event<T>>)
    ensures Run(evs).args == Passed(evs)
    ensures Run(evs).completed <==> Completes(evs)
    ensures Run(evs).late <==> NextAfterComplete(evs)
  {
    hide *;
    if evs == [] {
      NothingRecorded<T>();
    } else {
      var before, last := evs[..|evs| - 1], evs[|evs| - 1];
      RunRecords(before);
      StepRecords(Run(before), last);
      RunSnoc(before, last);
      CompletesSnoc(before, last);
      assert evs == before + [last];
    }
  }

  lemma NothingRecorded<T>()
    ensures Run<T>([]) == Start() && Passed<T>([]) == [] && !Completes<T>([]) && !NextAfterComplete<T>([])
    ensures Start<T>().args == [] && !Start<T>().completed && !Start<T>().late
  {
  }

  lemma StepRecords<T>(w: World<T>, e: Event<T>)
    requires Inv(w)
    ensures var r := Step(w, e);
            && r.args == (if e.Next? then w.args + [e.arg] else w.args)
            && (r.completed <==> w.completed || e.Complete?)
            && (r.late <==> w.late || (w.completed && e.Next?))
  {
    if !w.late {
      OpenUntilComplete(w);
    }
    hide Inv, NextOn, CompleteOn, ConsumeOn, WakeOn;
  }

  lemma OpenUntilComplete<T>(w: World<T>)
    requires Inv(w) && !w.late
    ensures w.q.slots[w.q.nextInLine].Open? <==> !w.completed
  {
  }

  lemma CompletesSnoc<T>(evs: seq<Event<T>>, e: Event<T>)
    ensures Completes(evs + [e]) <==> Completes(evs) || e.Complete?
    ensures NextAfterComplete(evs + [e]) <==> NextAfterComplete(evs) || (Completes(evs) && e.Next?)
  {
    var all := evs + [e];
    assert all[|evs|] == e;
    assert forall i :: 0 <= i < |evs| ==> all[i] == evs[i];
    if Completes(evs) {
      var i :| 0 <= i < |evs| && evs[i].Complete?;
      assert all[i].Complete?;
    }
    if NextAfterComplete(evs) {
      var i, j :| 0 <= i < j < |evs| && evs[i].Complete? && evs[j].Next?;
      assert all[i].Complete? && all[j].Next?;
    }
  }

  // ---------------------------------------------------------------- the theorems

  lemma {:induction false} KeptSplit<T>(a: seq<Slot<T>>, b: seq<Slot<T>>)
    ensures Kept(a + b) == Kept(a) + Kept(b)
    decreases |b|
  {
    if b == [] {
      assert a + b == a;
    } else {
      KeptSplit(a, b[..|b| - 1]);
      assert (a + b)[..|a + b| - 1] == a + b[..|b| - 1];
    }
  }

  lemma DealtIsPrefix<T>(w: World<T>)
    requires Inv(w)
    ensures Kept(w.q.slots[..Dealt(w.q)]) <= Kept(w.q.slots)
    ensures w.q.body.Failed? ==>
              Kept(w.q.slots[..Dealt(w.q)]) + [w.q.slots[Dealt(w.q)].arg] <= Kept(w.q.slots)
    ensures w.q.body.Ended? && !w.late ==> Kept(w.q.slots[..Dealt(w.q)]) == Kept(w.q.slots)
  {
    hide Kept;
    KeptPrefix(w.q.slots, Dealt(w.q));
    if w.q.body.Ended? && !w.late {
      assert w.q.slots[..Dealt(w.q)] == w.q.slots;
    }
  }

  lemma KeptPrefix<T>(slots: seq<Slot<T>>, d: nat)
    requires d <= |slots|
    ensures Kept(slots[..d]) <= Kept(slots)
    ensures d < |slots| && slots[d].Holds? ==> Kept(slots[..d]) + [slots[d].arg] <= Kept(slots)
  {
    hide *;
    KeptUpTo(slots, d);
    if d < |slots| && slots[d].Holds? {
      KeptUpTo(slots, d + 1);
      KeptNext(slots, d);
    }
  }

  lemma KeptNext<T>(slots: seq<Slot<T>>, d: nat)
    requires d < |slots| && slots[d].Holds?
    ensures Kept(slots[..d + 1]) == Kept(slots[..d]) + [slots[d].arg]
  {
    assert slots[..d + 1][..d] == slots[..d];
  }

  lemma KeptUpTo<T>(slots: seq<Slot<T>>, d: nat)
    requires d <= |slots|
    ensures Kept(slots[..d]) <= Kept(slots)
  {
    hide Kept;
    assert slots == slots[..d] + slots[d..];
    KeptSplit(slots[..d], slots[d..]);
  }

  lemma KeptLast<T>(slots: seq<Slot<T>>, last: Slot<T>)
    ensures Kept(slots + [last]) == Kept(slots) + match last case Holds(arg) => [arg] case _ => []
  {
    assert (slots + [last])[..|slots|] == slots;
  }

  /** The yielded values are what a prefix of the arguments settled to; the generator ends behind
      the last argument of a completed queue, and fails at the first rejected one. */
  lemma YieldedSoFar<T>(w: World<T>)
    requires Inv(w) && !w.late
    ensures |w.q.yielded| <= |w.args|
    ensures forall i :: 0 <= i < |w.q.yielded| ==> OutcomeOf(w.args[i], w.settled) == Some(Fulfilled(w.q.yielded[i]))
    ensures w.q.body.Ended? ==> w.completed && |w.q.yielded| == |w.args|
    ensures w.q.body.Failed? ==>
              |w.q.yielded| < |w.args| && OutcomeOf(w.args[|w.q.yielded|], w.settled) == Some(Rejected)
  {
    DealtIsPrefix(w);
  }

  /** In every run whose next() calls come before its complete(), the yielded values are what a
      prefix of the passed arguments settled to: none lost, doubled or out of order, however the
      promises settle.  The generator ends only after complete() and after the last argument, and
      fails only at the first argument that was rejected. */
  lemma YieldsPrefix<T>(evs: seq<Event<T>>)
    requires !NextAfterComplete(evs)
    ensures var w := Run(evs);
            && |w.q.yielded| <= |Passed(evs)|
            && Yields(Passed(evs)[..|w.q.yielded|], w.settled, w.q.yielded)
            && (w.q.body.Ended? ==> Completes(evs) && |w.q.yielded| == |Passed(evs)|)
            && (w.q.body.Failed? ==>
                  && |w.q.yielded| < |Passed(evs)|
                  && OutcomeOf(Passed(evs)[|w.q.yielded|], w.settled) == Some(Rejected))
  {
    RunRecords(evs);
    YieldedSoFar(Run(evs));
  }

  /** A run that has ended yielded everything it was passed exactly when no next() came after
      complete(): the first such call resolves a slot that is already completed. */
  lemma EndedYieldsAllIffNoLateNext<T>(evs: seq<Event<T>>)
    requires Run(evs).q.body.Ended?
    ensures |Run(evs).q.yielded| == |Passed(evs)| <==> !NextAfterComplete(evs)
  {
    RunRecords(evs);
    DealtIsPrefix(Run(evs));
  }

  // The queue's last slot holds the marker: complete() was called since the last next().
  ghost predicate Marked<T>(evs: seq<Event<T>>) {
    evs != [] &&
    (var last := evs[|evs| - 1];
     last.Complete? || (!last.Next? && Marked(evs[..|evs| - 1])))
  }

  // The arguments of the calls of next() that did not find their slot completed.
  ghost function Surviving<T>(evs: seq<Event<T>>): seq<Arg<T>> {
    if evs == [] then []
    else
      var before, last := evs[..|evs| - 1], evs[|evs| - 1];
      Surviving(before) + if last.Next? && !Marked(before) then [last.arg] else []
  }

  lemma StepKeeps<T>(w: World<T>, e: Event<T>)
    requires Inv(w)
    ensures var q, q' := w.q, Step(w, e).q;
            var open := !q.slots[q.nextInLine].Marker?;
            && Kept(q'.slots) == Kept(q.slots) + (if e.Next? && open then [e.arg] else [])
            && (q'.slots[q'.nextInLine].Marker? <==> e.Complete? || (!e.Next? && !open))
  {
    match e
    case Next(arg) => NextKeeps(w.q, arg);
    case Complete => CompleteKeeps(w.q);
    case _ => hide Kept;
  }

  lemma CompleteKeeps<T>(q: Queue<T>)
    requires Shape(q) && Indexed(q) && !q.slots[q.nextInLine].Holds?
    ensures Kept(CompleteOn(q).slots) == Kept(q.slots) && CompleteOn(q).slots[q.nextInLine].Marker?
  {
    var n, slots := q.nextInLine, CompleteOn(q).slots;
    assert slots[..n] == q.slots[..n];
  }

  /** Exactly the arguments whose next() comes behind a complete(), with no other next() in
      between, are lost; the slots keep all others in order. */
  lemma {:induction false} RunKeeps<T>(evs: seq<Event<T>>)
    ensures Kept(Run(evs).q.slots) == Surviving(evs)
    ensures Run(evs).q.slots[Run(evs).q.nextInLine].Marker? <==> Marked(evs)
  {
    hide *;
    if evs == [] {
      NothingKept<T>();
    } else {
      var before, last := evs[..|evs| - 1], evs[|evs| - 1];
      RunKeeps(before);
      StepKeeps(Run(before), last);
      RunSnoc(before, last);
      SurvivingSnoc(before, last);
      assert evs == before + [last];
    }
  }

  lemma NothingKept<T>()
    ensures Kept(Run<T>([]).q.slots) == [] && Surviving<T>([]) == []
    ensures Run<T>([]).q.slots[Run<T>([]).q.nextInLine] == Open && !Marked<T>([])
  {
    var open: Slot<T> := Open;
    assert Kept([open]) == Kept([open][..0]) + [];
  }

  lemma SurvivingSnoc<T>(evs: seq<Event<T>>, e: Event<T>)
    ensures Surviving(evs + [e]) == Surviving(evs) + if e.Next? && !Marked(evs) then [e.arg] else []
    ensures Marked(evs + [e]) <==> e.Complete? || (!e.Next? && Marked(evs))
  {
    assert (evs + [e])[..|evs|] == evs;
  }

  /** In every run at all, the yielded values are what a prefix of the surviving arguments settled
      to, and the generator fails only at the first of them that was rejected. */
  lemma YieldsSurvivors<T>(evs: seq<Event<T>>)
    ensures var w, kept := Run(evs), Surviving(evs);
            && |w.q.yielded| <= |kept| && Yields(kept[..|w.q.yielded|], w.settled, w.q.yielded)
            && (w.q.body.Failed? ==>
                  |w.q.yielded| < |kept| && OutcomeOf(kept[|w.q.yielded|], w.settled) == Some(Rejected))
  {
    RunKeeps(evs);
    DealtIsPrefix(Run(evs));
  }

  /** Nothing was lost exactly when no next() came after complete(). */
  lemma AllSurviveIffNoLateNext<T>(evs: seq<Event<T>>)
    ensures Surviving(evs) == Passed(evs) <==> !NextAfterComplete(evs)
  {
    RunKeeps(evs);
    RunRecords(evs);
  }

  lemma CompleteFirst<T>()
    ensures Run<T>([Complete]) == World(Queue([Marker], [0], 0, Suspended, []), map[], [], true, false)
  {
    var nothing: seq<Event<T>> := [];
    RunSnoc(nothing, Complete);
    hide Inv;
    assert Run(nothing) == Start();
    assert nothing + [Complete] == [Complete];
  }

  lemma NextBehind<T>(v: T)
    ensures Run([Complete, Next(Plain(v))])
         == World(Queue([Marker, Open], [1, 0], 1, Suspended, []), map[], [Plain(v)], true, true)
  {
    CompleteFirst<T>();
    RunSnoc([Complete], Next(Plain(v)));
    hide Inv, Run;
    assert [Complete] + [Next(Plain(v))] == [Complete, Next(Plain(v))];
  }

  // The least such run.
  lemma LateNextIsLost<T>(v: T)
    ensures var w := Run([Complete, Next(Plain(v)), Consume, Wake]);
            w.args == [Plain(v)] && w.q.body.Awaiting? && w.q.slots[w.q.body.slot].Open? && w.q.yielded == []
  {
    NextBehind(v);
    var e2: seq<Event<T>> := [Complete, Next(Plain(v))];
    RunSnoc(e2, Consume);
    RunSnoc(e2 + [Consume], Wake);
    hide Inv, Run;
    assert Run(e2 + [Consume]).q == Queue([Marker, Open], [1], 1, Awaiting(0), []);
    assert e2 + [Consume] + [Wake] == [Complete, Next(Plain(v)), Consume, Wake];
  }

  // ---------------------------------------------------------------- progress

  ghost predicate AllSettled<T>(args: seq<Arg<T>>, settled: Settled<T>) {
    forall i :: 0 <= i < |args| ==> OutcomeOf(args[i], settled).Some?
  }

  predicate Sound<T>(arg: Arg<T>, settled: Settled<T>) {
    var outcome := OutcomeOf(arg, settled);
    outcome.Some? && outcome.value.Fulfilled?
  }

  ghost predicate AllFulfilled<T>(w: World<T>) {
    forall i :: 0 <= i < |w.args| ==> Sound(w.args[i], w.settled)
  }

  // How many arguments stand before the first that was not fulfilled.
  function SoundPrefix<T>(args: seq<Arg<T>>, settled: Settled<T>): (n: nat)
    ensures n <= |args|
    ensures forall i :: 0 <= i < n ==> Sound(args[i], settled)
    ensures n < |args| ==> !Sound(args[n], settled)
  {
    if args == [] || !Sound(args[0], settled) then 0 else 1 + SoundPrefix(args[1..], settled)
  }

  lemma {:induction false} SoundPrefixIs<T>(args: seq<Arg<T>>, settled: Settled<T>, m: nat)
    requires m <= |args| && forall i :: 0 <= i < m ==> Sound(args[i], settled)
    requires m < |args| ==> !Sound(args[m], settled)
    ensures SoundPrefix(args, settled) == m
    decreases m
  {
    hide Sound;
    if m > 0 {
      SoundPrefixIs(args[1..], settled, m - 1);
    }
  }

  // One request by the consumer, and one turn of the promise queue.
  ghost function Round<T>(w: World<T>): (r: World<T>)
    requires Inv(w)
    ensures Inv(r)
  {
    StepHolds(w, Consume);
    StepHolds(Step(w, Consume), Wake);
    Step(Step(w, Consume), Wake)
  }

  ghost function Rounds<T>(w: World<T>, k: nat): (r: World<T>)
    requires Inv(w)
    ensures Inv(r)
    decreases k
  {
    if k == 0 then w else Rounds(Round(w), k - 1)
  }

  function Ahead<T>(q: Queue<T>): nat {
    2 * |q.line| + if q.body.Awaiting? then 1 else 0
  }

  // The generator has ended or failed, or waits for a next() that has not come.
  predicate AtRest<T>(q: Queue<T>) {
    q.body.Ended? || q.body.Failed? || (q.body.Awaiting? && q.body.slot < |q.slots| && q.slots[q.body.slot].Open?)
  }

  // The generator has not ended in front of anything.
  predicate Unfinished<T>(q: Queue<T>) {
    q.body.Ended? ==> q.line == []
  }

  // Everything before the first rejected argument is yielded; there the generator has failed,
  // and without one it has ended at the marker or waits for the next argument.
  ghost predicate Drained<T>(q: Queue<T>, kept: seq<Arg<T>>, settled: Settled<T>, marked: bool) {
    var n := SoundPrefix(kept, settled);
    && Yields(kept[..n], settled, q.yielded)
    && (if n < |kept| then q.body.Failed? else if marked then q.body.Ended? else q.body.Awaiting?)
  }

  /** Once what was kept has settled, a consumer that keeps asking drains it, up to the first
      rejected argument. */
  lemma {:induction false} DrainsKept<T>(w: World<T>, k: nat)
    requires Inv(w) && AllSettled(Kept(w.q.slots), w.settled) && Unfinished(w.q)
    requires k > Ahead(w.q)
    ensures Drained(Rounds(w, k).q, Kept(w.q.slots), w.settled, w.q.slots[w.q.nextInLine].Marker?)
    decreases k
  {
    hide *;
    RoundProgress(w);
    var w' := Round(w);
    NextRound(w, k);
    if AtRest(w'.q) {
      RestStays(w', k - 1);
      RestHasAll(w');
    } else {
      DrainsKept(w', k - 1);
    }
  }

  lemma KeptIsPassed<T>(w: World<T>)
    requires Inv(w) && !w.late
    ensures Kept(w.q.slots) == w.args && Unfinished(w.q)
    ensures w.q.slots[w.q.nextInLine].Marker? <==> w.completed
  {
  }

  /** Without a late next(), once all arguments have settled: everything before the first rejected
      one is yielded, and there the generator fails; with none rejected it ends, if complete() was
      called, and otherwise waits. */
  lemma DrainsUntilRejection<T>(w: World<T>, k: nat)
    requires Inv(w) && !w.late && AllSettled(w.args, w.settled) && k > Ahead(w.q)
    ensures Drained(Rounds(w, k).q, w.args, w.settled, w.completed)
  {
    KeptIsPassed(w);
    hide Inv, Drained;
    DrainsKept(w, k);
  }

  /** When all arguments are fulfilled, all of them are yielded. */
  lemma DrainsEverything<T>(w: World<T>, k: nat)
    requires Inv(w) && !w.late && AllFulfilled(w) && k > Ahead(w.q)
    ensures var end := Rounds(w, k);
            && |end.q.yielded| == |w.args| && Yields(w.args, w.settled, end.q.yielded)
            && (if w.completed then end.q.body.Ended? else end.q.body.Awaiting?)
  {
    DrainsUntilRejection(w, k);
    hide Inv;
    assert SoundPrefix(w.args, w.settled) == |w.args|;
    assert w.args[..|w.args|] == w.args;
  }

  /** A late run is drained of its surviving arguments, unless it had ended before. */
  lemma SurvivorsAreYielded<T>(evs: seq<Event<T>>, k: nat)
    requires AllSettled(Surviving(evs), Run(evs).settled) && Unfinished(Run(evs).q)
    requires k > Ahead(Run(evs).q)
    ensures Drained(Rounds(Run(evs), k).q, Surviving(evs), Run(evs).settled, Marked(evs))
  {
    hide *;
    RunKeeps(evs);
    DrainsKept(Run(evs), k);
  }

  lemma NextRound<T>(w: World<T>, k: nat)
    requires Inv(w) && k > 0
    ensures Rounds(w, k) == Rounds(Round(w), k - 1)
  {
  }

  lemma RestHasAll<T>(w: World<T>)
    requires Inv(w) && AllSettled(Kept(w.q.slots), w.settled) && Unfinished(w.q) && AtRest(w.q)
    ensures Drained(w.q, Kept(w.q.slots), w.settled, w.q.slots[w.q.nextInLine].Marker?)
  {
    hide Kept;
    var slots, d := w.q.slots, Dealt(w.q);
    KeptPrefix(slots, d);
    if w.q.body.Awaiting? {
      assert slots == slots[..d] + [Open];
      KeptLast(slots[..d], Open);
    } else if w.q.body.Ended? {
      assert slots[..d] == slots;
    }
    SoundPrefixIs(Kept(slots), w.settled, |w.q.yielded|);
  }

  lemma {:induction false} RestStays<T>(w: World<T>, k: nat)
    requires Inv(w) && AtRest(w.q)
    ensures Rounds(w, k) == w
    decreases k
  {
    hide *;
    if k > 0 {
      RestStaysOnce(w);
      RestStays(w, k - 1);
    }
    RoundsUnfold(w, k);
  }

  lemma RoundsUnfold<T>(w: World<T>, k: nat)
    requires Inv(w)
    ensures Rounds(w, k) == if k == 0 then w else Rounds(Round(w), k - 1)
  {
  }

  lemma RestStaysOnce<T>(w: World<T>)
    requires Inv(w) && AtRest(w.q)
    ensures Round(w) == w
  {
  }

  // Only the generator moves, and not away from its end.
  ghost predicate Moves<T>(w: World<T>, w': World<T>) {
    && w' == w.(q := w'.q) && w'.q.slots == w.q.slots && w'.q.nextInLine == w.q.nextInLine
    && Unfinished(w'.q)
  }

  lemma RoundProgress<T>(w: World<T>)
    requires Inv(w) && AllSettled(Kept(w.q.slots), w.settled) && Unfinished(w.q)
    ensures var w' := Round(w);
            && w' == w.(q := w'.q) && w'.q.slots == w.q.slots && w'.q.nextInLine == w.q.nextInLine
            && Unfinished(w'.q)
            && (AtRest(w'.q) || Ahead(w'.q) < Ahead(w.q))
  {
    StepHolds(w, Consume);
    ConsumeProgress(w);
    WakeProgress(Step(w, Consume));
    hide Inv, Step, Kept, AtRest;
  }

  lemma ConsumeProgress<T>(w: World<T>)
    requires Inv(w) && Unfinished(w.q)
    ensures var w' := Step(w, Consume);
            Moves(w, w') && !w'.q.body.Suspended? && Ahead(w'.q) <= Ahead(w.q)
  {
    hide Kept;
  }

  lemma WakeProgress<T>(w: World<T>)
    requires Inv(w) && AllSettled(Kept(w.q.slots), w.settled) && Unfinished(w.q) && !w.q.body.Suspended?
    ensures var w' := Step(w, Wake);
            Moves(w, w') && (AtRest(w'.q) || Ahead(w'.q) < Ahead(w.q))
  {
    var q := w.q;
    if q.body.Awaiting? && q.slots[q.body.slot].Holds? {
      HoldsIsKept(q.slots, q.body.slot);
      assert q.slots[q.body.slot].arg in Kept(q.slots);
    }
    assert Indexed(q);
    hide Inv, Kept;
  }

  lemma HoldsIsKept<T>(slots: seq<Slot<T>>, i: nat)
    requires i < |slots| && slots[i].Holds?
    ensures slots[i].arg in Kept(slots)
  {
    assert slots == slots[..i + 1] + slots[i + 1..];
    KeptSplit(slots[..i + 1], slots[i + 1..]);
    assert slots[..i + 1][|slots[..i + 1]| - 1] == slots[i];
    assert slots[i].arg in Kept(slots[..i + 1]);
  }

  // ---------------------------------------------------------------- the closures of iterateLater

  /** The state that next, iterate and complete share.  Each method does to it what the step
      of the same name does to a Queue. */
  class IterateLater<T> {
    var slots: seq<Slot<T>>
    var queue: seq<nat>
    var nextInLine: nat
    var body: Body
    var yielded: seq<T>

    ghost function State(): Queue<T>
      reads this
    {
      Queue(slots, queue, nextInLine, body, yielded)
    }

    constructor ()
      ensures State() == Start<T>().q
    {
      slots, queue, nextInLine := [Open], [0], 0;
      body, yielded := Suspended, [];
    }

    method ResolveLater() returns (promise: nat)
      modifies this`slots
      ensures promise == |old(slots)| && slots == old(slots) + [Open]
    {
      promise := |slots|;
      slots := slots + [Open];
    }

    method SetOnce(promise: nat, content: Slot<T>)
      requires promise < |slots|
      modifies this`slots
      ensures slots == old(slots)[promise := Resolve(old(slots)[promise], content)]
    {
      if slots[promise].Open? {
        slots := slots[promise := content];
      }
    }

    method Next(value: Arg<T>)
      requires Indexed(State())
      modifies this
      ensures State() == NextOn(old(State()), value)
    {
      SetOnce(nextInLine, Holds(value));
      nextInLine := ResolveLater();
      queue := [nextInLine] + queue;
    }

    method Complete()
      requires Indexed(State())
      modifies this
      ensures State() == CompleteOn(old(State()))
    {
      SetOnce(nextInLine, Marker);
    }

    // The loop test and the pop.
    method Turn()
      modifies this
      ensures State() == TurnOn(old(State()))
    {
      if |queue| > 0 {
        var nextValue := queue[|queue| - 1];
        queue := queue[..|queue| - 1];
        body := Awaiting(nextValue);
      } else {
        body := Ended;
      }
    }

    method Consume()
      modifies this
      ensures State() == ConsumeOn(old(State()))
    {
      if body.Suspended? {
        Turn();
      }
    }

    method Wake(settled: Settled<T>)
      requires Indexed(State())
      modifies this
      ensures State() == WakeOn(old(State()), settled)
    {
      if body.Awaiting? {
        var slot := slots[body.slot];
        if slot.Marker? {
          Turn();
        } else if slot.Holds? {
          var outcome := OutcomeOf(slot.arg, settled);
          if outcome.Some? {
            match outcome.value
            case Fulfilled(v) =>
              yielded := yielded + [v];
              body := Suspended;
            case Rejected =>
              body := Failed;
          }
        }
      }
    }
  }

  // ---------------------------------------------------------------- asyncIterableFromObservable

  // What an observable tells its observer; nothing comes after an error or a completion.
  datatype Notification<T> = Emit(value: T) | Error | Completion

  ghost predicate ObservableContract<T>(ns: seq<Notification<T>>) {
    forall i :: 0 <= i < |ns| - 1 ==> ns[i].Emit?
  }

  // next, error => next(Promise.reject(error)), complete; `rejection` is the rejected promise.
  function Forward<T>(n: Notification<T>, rejection: nat): Event<T> {
    match n
    case Emit(v) => Next(Plain(v))
    case Error => Next(Later(rejection))
    case Completion => Complete
  }

  // The run's events are the forwarded notifications, with the consumer's steps and the
  // settling of promises anywhere between them.
  ghost predicate Adapts<T>(ns: seq<Notification<T>>, rejection: nat, evs: seq<Event<T>>)
    decreases |evs|
  {
    if evs == [] then ns == []
    else
      var before, last := evs[..|evs| - 1], evs[|evs| - 1];
      if last.Next? || last.Complete? then
        ns != [] && last == Forward(ns[|ns| - 1], rejection) && Adapts(ns[..|ns| - 1], rejection, before)
      else
        (last.Settle? ==> last == Settle(rejection, Rejected)) && Adapts(ns, rejection, before)
  }

  function Values<T>(ns: seq<Notification<T>>): seq<T> {
    if ns == [] then []
    else if ns[|ns| - 1].Emit? then Values(ns[..|ns| - 1]) + [ns[|ns| - 1].value]
    else Values(ns[..|ns| - 1])
  }

  function Forwarded<T>(values: seq<T>): (r: seq<Arg<T>>) {
    seq(|values|, i requires 0 <= i < |values| => Plain(values[i]))
  }

  // What the notifications ask of the queue.
  ghost predicate Asked<T>(ns: seq<Notification<T>>, rejection: nat, evs: seq<Event<T>>) {
    && !NextAfterComplete(evs)
    && (Completes(evs) <==> ns != [] && ns[|ns| - 1].Completion?)
    && Passed(evs) == (if ns != [] && ns[|ns| - 1].Error? then Forwarded(Values(ns)) + [Later(rejection)]
                       else Forwarded(Values(ns)))
    && (rejection in Run(evs).settled ==> Run(evs).settled[rejection] == Rejected)
  }

  lemma {:induction false} AdaptedRun<T>(ns: seq<Notification<T>>, rejection: nat, evs: seq<Event<T>>)
    requires Adapts(ns, rejection, evs) && ObservableContract(ns)
    ensures Asked(ns, rejection, evs)
    decreases |evs|
  {
    hide Asked;
    if evs == [] {
      NothingRecorded<T>();
      assert Asked(ns, rejection, evs) by { NothingAsked<T>(rejection); }
    } else {
      var before, last := evs[..|evs| - 1], evs[|evs| - 1];
      var producer := last.Next? || last.Complete?;
      var ns' := if producer then ns[..|ns| - 1] else ns;
      AdaptedRun(ns', rejection, before);
      AskedOnce(ns, rejection, evs);
    }
  }

  lemma NothingAsked<T>(rejection: nat)
    ensures Asked<T>([], rejection, [])
  {
  }

  lemma AskedOnce<T>(ns: seq<Notification<T>>, rejection: nat, evs: seq<Event<T>>)
    requires evs != [] && Adapts(ns, rejection, evs) && ObservableContract(ns)
    requires var last := evs[|evs| - 1];
             Asked(if last.Next? || last.Complete? then ns[..|ns| - 1] else ns, rejection, evs[..|evs| - 1])
    ensures Asked(ns, rejection, evs)
  {
    var before, last := evs[..|evs| - 1], evs[|evs| - 1];
    if last.Next? || last.Complete? {
      assert last == Forward(ns[|ns| - 1], rejection);
      hide Adapts;
      AskedByProducer(ns, rejection, before, last);
    } else {
      assert last.Settle? ==> last == Settle(rejection, Rejected);
      hide Adapts;
      AskedByOthers(ns, rejection, before, last);
    }
    assert evs == before + [last];
  }

  lemma AskedByProducer<T>(ns: seq<Notification<T>>, rejection: nat, before: seq<Event<T>>, last: Event<T>)
    requires ns != [] && ObservableContract(ns) && last == Forward(ns[|ns| - 1], rejection)
    requires Asked(ns[..|ns| - 1], rejection, before)
    ensures Asked(ns, rejection, before + [last])
  {
    hide Completes, NextAfterComplete, Inv, NextOn, CompleteOn, ConsumeOn, WakeOn, Run, Passed, Forwarded, Values;
    assert !Completes(before) && Passed(before) == Forwarded(Values(ns[..|ns| - 1]));
    CompletesSnoc(before, last);
    RunSnoc(before, last);
    ForwardedLast(ns);
  }

  lemma AskedByOthers<T>(ns: seq<Notification<T>>, rejection: nat, before: seq<Event<T>>, last: Event<T>)
    requires !last.Next? && !last.Complete? && (last.Settle? ==> last == Settle(rejection, Rejected))
    requires Asked(ns, rejection, before)
    ensures Asked(ns, rejection, before + [last])
  {
    hide Completes, NextAfterComplete, Inv, NextOn, CompleteOn, ConsumeOn, WakeOn, Run, Passed, Forwarded, Values;
    CompletesSnoc(before, last);
    RunSnoc(before, last);
  }

  lemma RunSnoc<T>(before: seq<Event<T>>, last: Event<T>)
    ensures Run(before + [last]) == Step(Run(before), last)
    ensures Passed(before + [last]) == if last.Next? then Passed(before) + [last.arg] else Passed(before)
  {
    assert (before + [last])[..|before|] == before;
    hide Step, Inv;
  }

  lemma ForwardedLast<T>(ns: seq<Notification<T>>)
    requires ns != []
    ensures var before := Forwarded(Values(ns[..|ns| - 1]));
            Forwarded(Values(ns)) == if ns[|ns| - 1].Emit? then before + [Plain(ns[|ns| - 1].value)] else before
  {
  }

  /** The iterable of an observable yields its values in order, whatever the interleaving; it ends
      only behind the last value of a completed observable, and fails only behind the last value
      of one that erred. */
  lemma ObservableIsIterated<T>(ns: seq<Notification<T>>, rejection: nat, evs: seq<Event<T>>)
    requires Adapts(ns, rejection, evs) && ObservableContract(ns)
    ensures var q := Run(evs).q;
            && q.yielded <= Values(ns)
            && (q.body.Ended? ==> q.yielded == Values(ns) && ns != [] && ns[|ns| - 1].Completion?)
            && (q.body.Failed? ==> q.yielded == Values(ns) && ns != [] && ns[|ns| - 1].Error?)
  {
    AdaptedRun(ns, rejection, evs);
    RunRecords(evs);
    var w, vs := Run(evs), Values(ns);
    YieldedSoFar(w);
    hide Inv, Run, Adapts, NextAfterComplete, Completes, Values, Passed;
    assert w.args == if ns != [] && ns[|ns| - 1].Error? then Forwarded(vs) + [Later(rejection)] else Forwarded(vs);
    var n := |w.q.yielded|;
    assert forall i :: 0 <= i < |vs| ==> w.args[i] == Plain(vs[i]);
    assert |w.args| > |vs| ==> w.args[|vs|] == Later(rejection);
    assert |w.args| > |vs| ==> forall v :: OutcomeOf(w.args[|vs|], w.settled) != Some(Fulfilled(v));
    assert n <= |vs|;
    assert forall i :: 0 <= i < n ==> OutcomeOf(w.args[i], w.settled) == Some(Fulfilled(vs[i]));
  }

  /** And it yields all of them: a consumer that keeps asking drains the iterable of an observable,
      which then ends, fails with the error, or waits for the next notification. */
  lemma ObservableDrains<T>(ns: seq<Notification<T>>, rejection: nat, evs: seq<Event<T>>, k: nat)
    requires Adapts(ns, rejection, evs) && ObservableContract(ns)
    requires k > Ahead(Run(evs).q)
    requires ns != [] && ns[|ns| - 1].Error? ==> rejection in Run(evs).settled
    ensures var q := Rounds(Run(evs), k).q;
            && q.yielded == Values(ns)
            && (if ns != [] && ns[|ns| - 1].Error? then q.body.Failed?
                else if ns != [] && ns[|ns| - 1].Completion? then q.body.Ended?
                else q.body.Awaiting?)
  {
    hide Inv, Run, Adapts, Values, Rounds, Drained, AllSettled, Ahead, ObservableContract;
    AdaptedRun(ns, rejection, evs);
    RunRecords(evs);
    var w := Run(evs);
    var rejections := if ns != [] && ns[|ns| - 1].Error? then [Later(rejection)] else [];
    hide NextAfterComplete, Completes, Passed, Forwarded;
    assert w.args == Forwarded(Values(ns)) + rejections;
    ForwardedSettle(Values(ns), rejections, w.settled);
    DrainsUntilRejection(w, k);
    ForwardedDrain(Rounds(w, k).q, Values(ns), rejections, w.settled, w.completed);
  }

  // Plain values, and behind them at most a promise that is rejected if it has settled.
  ghost predicate Rejections<T>(args: seq<Arg<T>>, settled: Settled<T>) {
    args == [] || (|args| == 1 && OutcomeOf(args[0], settled) == Some(Rejected))
  }

  lemma ForwardedSettle<T>(values: seq<T>, rejections: seq<Arg<T>>, settled: Settled<T>)
    requires Rejections(rejections, settled)
    ensures AllSettled(Forwarded(values) + rejections, settled)
  {
  }

  lemma ForwardedDrain<T>(q: Queue<T>, values: seq<T>, rejections: seq<Arg<T>>, settled: Settled<T>, marked: bool)
    requires Rejections(rejections, settled) && Drained(q, Forwarded(values) + rejections, settled, marked)
    ensures q.yielded == values
    ensures if rejections != [] then q.body.Failed? else if marked then q.body.Ended? else q.body.Awaiting?
  {
    var args := Forwarded(values) + rejections;
    assert forall i :: 0 <= i < |values| ==> args[i] == Plain(values[i]);
    SoundPrefixIs(args, settled, |values|);
  }
}

/** partition: one pump that reads a source and feeds two iterateLater queues,
    under every schedule of the pump and the two readers. */
module Partition {
  import Wire
  import opened AsyncLater

  datatype State<T> = State(current: nat, first: World<T>, second: World<T>, input: seq<T>, ended: bool)

  // What the pump's loop sees, and the steps of the two readers.
  datatype Event<T> = Item(value: T) | End | ReadFirst(step: Reading) | ReadSecond(step: Reading)
  datatype Reading = Ask | Resume

  function Init<T>(): State<T> {
    State(0, Start(), Start(), [], false)
  }

  ghost predicate Steppable<T>(s: State<T>) {
    AsyncLater.Inv(s.first) && AsyncLater.Inv(s.second)
  }

  function ReaderEvent<T>(r: Reading): AsyncLater.Event<T> {
    match r
    case Ask => Consume
    case Resume => Wake
  }

  ghost function Feed<T>(w: World<T>, e: AsyncLater.Event<T>): (r: World<T>)
    requires AsyncLater.Inv(w)
    ensures AsyncLater.Inv(r)
  {
    StepHolds(w, e);
    AsyncLater.Step(w, e)
  }

  // The body of `for await`; a source that has ended gives no more items.
  ghost function ItemStep<T>(s: State<T>, index: int, value: T): (r: State<T>)
    requires Steppable(s)
    ensures Steppable(r)
  {
    var first := if s.current == index then Feed(s.first, Complete) else s.first;
    var s' := s.(current := s.current + 1, input := s.input + [value]);
    if s.current < index then s'.(first := Feed(first, Next(Plain(value))))
    else s'.(first := first, second := Feed(s.second, Next(Plain(value))))
  }

  ghost function Advance<T>(s: State<T>, index: int, e: Event<T>): (r: State<T>)
    requires Steppable(s)
    ensures Steppable(r)
  {
    match e
    case Item(value) => if s.ended then s else ItemStep(s, index, value)
    case End => s.(first := Feed(s.first, Complete), second := Feed(s.second, Complete), ended := true)
    case ReadFirst(step) => s.(first := Feed(s.first, ReaderEvent(step)))
    case ReadSecond(step) => s.(second := Feed(s.second, ReaderEvent(step)))
  }

  ghost function Run<T>(index: int, evs: seq<Event<T>>): (s: State<T>)
    ensures Steppable(s)
  {
    if evs == [] then StartHolds<T>(); Init()
    else Advance(Run(index, evs[..|evs| - 1]), index, evs[|evs| - 1])
  }

  // ---------------------------------------------------------------- the invariant

  // Where the source is cut: an index below zero cuts it before its first item.
  function Cut(index: int, n: nat): (c: nat)
    ensures c <= n
  {
    if index < 0 then 0 else if index < n then index else n
  }

  /** Each queue was passed its side of the source; the first is complete from the first item
      beyond the index or from the end on, the second from the end on; neither was fed late. */
  ghost predicate Routed<T>(s: State<T>, index: int) {
    var c := Cut(index, |s.input|);
    && s.current == |s.input|
    && s.first.args == Forwarded(s.input[..c]) && s.second.args == Forwarded(s.input[c..])
    && (s.first.completed <==> s.ended || 0 <= index < |s.input|)
    && (s.second.completed <==> s.ended)
    && !s.first.late && !s.second.late
  }

  lemma StepRoutes<T>(s: State<T>, index: int, e: Event<T>)
    requires Steppable(s) && Routed(s, index)
    ensures Routed(Advance(s, index, e), index)
  {
    hide AsyncLater.Inv, NextOn, CompleteOn, ConsumeOn, WakeOn, Forwarded, ItemStep;
    match e
    case Item(value) => if !s.ended { ItemRoutes(s, index, value); }
    case End =>
    case ReadFirst(_) =>
    case ReadSecond(_) =>
  }

  lemma ItemRoutes<T>(s: State<T>, index: int, value: T)
    requires Steppable(s) && Routed(s, index) && !s.ended
    ensures Routed(ItemStep(s, index, value), index)
  {
    hide NextOn, CompleteOn, AsyncLater.Inv;
    var n := |s.input|;
    var input := s.input + [value];
    var c := Cut(index, n);
    if n < index {
      OpenUntilComplete(s.first);
      assert input[..n + 1] == input && input[n + 1..] == [] && s.input[..n] == s.input && s.input[n..] == [];
      assert Forwarded(input) == Forwarded(s.input) + [Plain(value)];
    } else {
      OpenUntilComplete(s.second);
      assert Cut(index, n + 1) == c;
      assert input[..c] == s.input[..c] && input[c..] == s.input[c..] + [value];
      assert Forwarded(input[c..]) == Forwarded(s.input[c..]) + [Plain(value)];
    }
  }

  /** A completion of a stream that is complete changes nothing of it: the end of the source leaves
      the first stream as it is, once an item beyond the index has completed it. */
  lemma SecondCompletionIsIdle<T>(s: State<T>, index: int)
    requires Steppable(s) && Routed(s, index)
    ensures s.ended || 0 <= index < |s.input| ==> Advance(s, index, End).first == s.first
    ensures s.ended ==> Advance(s, index, End) == s
  {
    OpenUntilComplete(s.first);
    OpenUntilComplete(s.second);
    hide Forwarded;
  }

  lemma {:induction false} RunRoutes<T>(index: int, evs: seq<Event<T>>)
    ensures Routed(Run(index, evs), index)
  {
    if evs != [] {
      RunRoutes(index, evs[..|evs| - 1]);
      StepRoutes(Run(index, evs[..|evs| - 1]), index, evs[|evs| - 1]);
    }
  }

  // ---------------------------------------------------------------- the theorems

  lemma YieldsValues<T>(w: World<T>, values: seq<T>)
    requires AsyncLater.Inv(w) && !w.late && w.args == Forwarded(values)
    ensures w.q.yielded <= values && !w.q.body.Failed?
    ensures w.q.body.Ended? ==> w.q.yielded == values && w.completed
  {
    YieldedSoFar(w);
    hide AsyncLater.Inv;
    assert forall i :: 0 <= i < |values| ==> OutcomeOf(w.args[i], w.settled) == Wire.Some(Fulfilled(values[i]));
  }

  /** Under every schedule the first stream yields a prefix of the first min(index, n) items and
      the second a prefix of the rest, in order; a stream that has ended yielded its whole side,
      and the second never ends before the source does. */
  lemma PartitionsTheSource<T>(index: int, evs: seq<Event<T>>)
    ensures var s := Run(index, evs);
            var c := Cut(index, |s.input|);
            && s.first.q.yielded <= s.input[..c] && s.second.q.yielded <= s.input[c..]
            && (s.first.q.body.Ended? ==>
                  s.first.q.yielded == s.input[..c] && (s.ended || 0 <= index < |s.input|))
            && (s.second.q.body.Ended? ==> s.second.q.yielded == s.input[c..] && s.ended)
            && !s.first.q.body.Failed? && !s.second.q.body.Failed?
  {
    RunRoutes(index, evs);
    var s := Run(index, evs);
    var c := Cut(index, |s.input|);
    YieldsValues(s.first, s.input[..c]);
    YieldsValues(s.second, s.input[c..]);
  }

  lemma DrainsTo<T>(w: World<T>, values: seq<T>, k: nat)
    requires AsyncLater.Inv(w) && !w.late && w.completed && w.args == Forwarded(values) && k > Ahead(w.q)
    ensures Rounds(w, k).q.body.Ended? && Rounds(w, k).q.yielded == values
  {
    DrainsEverything(w, k);
    hide AsyncLater.Inv, Rounds;
    assert forall i :: 0 <= i < |values| ==> OutcomeOf(w.args[i], w.settled) == Wire.Some(Fulfilled(values[i]));
  }

  /** Once the source has ended both readers can drain their streams, each on its own. */
  lemma BothDrain<T>(index: int, evs: seq<Event<T>>, k: nat)
    requires var s := Run(index, evs);
             s.ended && k > Ahead(s.first.q) && k > Ahead(s.second.q)
    ensures var s := Run(index, evs);
            var c := Cut(index, |s.input|);
            var first, second := Rounds(s.first, k).q, Rounds(s.second, k).q;
            && first.body.Ended? && first.yielded == s.input[..c]
            && second.body.Ended? && second.yielded == s.input[c..]
  {
    RunRoutes(index, evs);
    var s := Run(index, evs);
    var c := Cut(index, |s.input|);
    DrainsTo(s.first, s.input[..c], k);
    DrainsTo(s.second, s.input[c..], k);
  }

  /** The first stream can be drained as soon as one item beyond the index has arrived. */
  lemma FirstDrainsEarly<T>(index: int, evs: seq<Event<T>>, k: nat)
    requires var s := Run(index, evs);
             0 <= index < |s.input| && k > Ahead(s.first.q)
    ensures var s := Run(index, evs);
            Rounds(s.first, k).q.body.Ended? && Rounds(s.first, k).q.yielded == s.input[..index]
  {
    RunRoutes(index, evs);
    DrainsTo(Run(index, evs).first, Run(index, evs).input[..index], k);
  }

  // ---------------------------------------------------------------- a slow reader delays nobody else

  predicate ReadsSide<T>(e: Event<T>, first: bool) {
    if first then e.ReadFirst? else e.ReadSecond?
  }

  // The run without the steps of one reader.
  ghost function Without<T>(evs: seq<Event<T>>, first: bool): seq<Event<T>> {
    if evs == [] then []
    else
      Without(evs[..|evs| - 1], first)
      + if ReadsSide(evs[|evs| - 1], first) then [] else [evs[|evs| - 1]]
  }

  // The same pump, and the same queue on the other side.
  ghost predicate SameBut<T>(s: State<T>, t: State<T>, first: bool) {
    && s.current == t.current && s.input == t.input && s.ended == t.ended
    && if first then s.second == t.second else s.first == t.first
  }

  lemma AdvanceKeepsSame<T>(s: State<T>, t: State<T>, index: int, e: Event<T>, first: bool)
    requires Steppable(s) && Steppable(t) && SameBut(s, t, first)
    ensures SameBut(Advance(s, index, e), Advance(t, index, e), first)
    ensures ReadsSide(e, first) ==> SameBut(s, Advance(t, index, e), first)
  {
    hide AsyncLater.Inv, AsyncLater.Step;
  }

  /** Each stream is what it would be had the reader of the other never taken a step. */
  lemma {:induction false} ReadersAreIndependent<T>(index: int, evs: seq<Event<T>>, first: bool)
    ensures SameBut(Run(index, Without(evs, first)), Run(index, evs), first)
  {
    hide *;
    if evs == [] {
      NothingWithout<T>(index, first);
    } else {
      var before, last := evs[..|evs| - 1], evs[|evs| - 1];
      ReadersAreIndependent(index, before, first);
      AdvanceKeepsSame(Run(index, Without(before, first)), Run(index, before), index, last, first);
      RunSnoc(index, before, last);
      RunSnoc(index, Without(before, first), last);
      WithoutSnoc(before, last, first);
      assert evs == before + [last];
    }
  }

  lemma NothingWithout<T>(index: int, first: bool)
    ensures Without<T>([], first) == [] && SameBut(Run<T>(index, []), Run<T>(index, []), first)
  {
    hide Run;
  }

  lemma RunSnoc<T>(index: int, before: seq<Event<T>>, last: Event<T>)
    ensures Run(index, before + [last]) == Advance(Run(index, before), index, last)
  {
    hide Advance, AsyncLater.Inv;
    assert (before + [last])[..|before|] == before;
  }

  lemma WithoutSnoc<T>(before: seq<Event<T>>, last: Event<T>, first: bool)
    ensures Without(before + [last], first)
         == if ReadsSide(last, first) then Without(before, first) else Without(before, first) + [last]
  {
    hide ReadsSide;
    assert (before + [last])[..|before|] == before;
    assert Without(before, first) + [] == Without(before, first);
  }

  // ---------------------------------------------------------------- the pump

  /** The closure of partition: `current` and the two queues it feeds. */
  class Pump<T> {
    var current: nat
    const index: int
    const first: IterateLater<T>
    const second: IterateLater<T>

    ghost predicate Valid()
      reads this, first, second
    {
      first != second && Indexed(first.State()) && Indexed(second.State())
    }

    constructor (index: int)
      ensures Valid() && fresh(first) && fresh(second) && this.index == index
      ensures current == 0 && first.State() == Start<T>().q && second.State() == Start<T>().q
    {
      this.index := index;
      current := 0;
      first := new IterateLater();
      second := new IterateLater();
    }

    // One turn of the loop: with current and the queues of `s` it does what ItemStep does.
    method OnItem(value: T, ghost s: State<T>)
      requires Valid() && Steppable(s)
      requires s.current == current && s.first.q == first.State() && s.second.q == second.State()
      modifies this, first, second
      ensures Valid()
      ensures var r := ItemStep(s, index, value);
              r.current == current && r.first.q == first.State() && r.second.q == second.State()
    {
      hide AsyncLater.Inv, NextOn, CompleteOn;
      if current == index {
        first.Complete();
      }
      if current < index {
        first.Next(Plain(value));
      } else {
        second.Next(Plain(value));
      }
      current := current + 1;
    }

    method OnEnd(ghost s: State<T>)
      requires Valid() && Steppable(s)
      requires s.current == current && s.first.q == first.State() && s.second.q == second.State()
      modifies first, second
      ensures Valid()
      ensures var r := Advance(s, index, End);
              r.current == current && r.first.q == first.State() && r.second.q == second.State()
    {
      first.Complete();
      second.Complete();
    }
  }
}

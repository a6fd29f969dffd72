/** The file protocol's handler, its hot content subject and the box that stores what
    arrives: one upload from its first message to the id it is declared under. */
module Upload {
  import opened Wire
  import opened Sequences
  import AsyncLater
  import Partition
  import FileSchema

  // ---------------------------------------------------------------- the content store

  // A content-addressed store: the address of some bytes is a function of the bytes.
  type Blocks = map<Bytes, Bytes>
  type Address = Bytes -> Bytes

  // What is assumed of addresses, for the contents at hand: no two of them share one.
  ghost predicate CollisionFree(address: Address, contents: set<Bytes>) {
    forall b, b' :: b in contents && b' in contents && address(b) == address(b') ==> b == b'
  }

  // An address fits into a message.
  ghost predicate ShortAddresses(address: Address) {
    forall b :: Fits(address(b))
  }

  ghost predicate Addressed(address: Address, blocks: Blocks) {
    forall id :: id in blocks ==> address(blocks[id]) == id
  }

  function Add(address: Address, blocks: Blocks, b: Bytes): Blocks {
    blocks[address(b) := b]
  }

  /** Without a collision cat(add(b)) == b, and an addition changes nothing that is stored. */
  lemma AddThenCat(address: Address, blocks: Blocks, b: Bytes)
    requires Addressed(address, blocks) && CollisionFree(address, blocks.Values + {b})
    ensures var after := Add(address, blocks, b);
            && Addressed(address, after) && Cat(after, address(b)) == Success(b)
            && forall id :: id in blocks ==> Cat(after, id) == Cat(blocks, id)
  {
    forall id | id in blocks && id == address(b) ensures blocks[id] == b {
      assert blocks[id] in blocks.Values;
    }
  }

  // ---------------------------------------------------------------- retrieval

  function Cat(blocks: Blocks, id: Bytes): Result<Bytes> {
    if id in blocks then Success(blocks[id]) else Failure
  }

  // The two retrieval methods: undefined where the store or the record fails them.
  function RetrieveMeta(blocks: Blocks, id: Bytes): Option<FileSchema.Meta> {
    match Cat(blocks, id)
    case Failure => None
    case Success(file) =>
      match FileSchema.FileFromBinary(file)
      case Failure => None
      case Success(f) => f.meta
  }

  function RetrieveContent(blocks: Blocks, id: Bytes): Option<Bytes> {
    match Cat(blocks, id)
    case Failure => None
    case Success(file) =>
      match FileSchema.FileFromBinary(file)
      case Failure => None
      case Success(f) => match Cat(blocks, f.contentPath) case Failure => None case Success(b) => Some(b)
  }

  /** Retrieval gives something exactly for the id of a stored File that has it: a Meta that is there, a
      path to what is stored.  Any other id, other bytes and a path to nothing give nothing. */
  lemma RetrievesIff(blocks: Blocks, id: Bytes, meta: FileSchema.Meta, content: Bytes)
    ensures RetrieveMeta(blocks, id) == Some(meta) <==>
              && id in blocks && FileSchema.FileFromBinary(blocks[id]).Success?
              && FileSchema.FileFromBinary(blocks[id]).value.meta == Some(meta)
    ensures RetrieveContent(blocks, id) == Some(content) <==>
              && id in blocks && FileSchema.FileFromBinary(blocks[id]).Success?
              && FileSchema.FileFromBinary(blocks[id]).value.contentPath in blocks
              && blocks[FileSchema.FileFromBinary(blocks[id]).value.contentPath] == content
  {
    hide FileSchema.FileFromBinary;
  }

  // ---------------------------------------------------------------- the machine

  // The handler waits for the request; then save feeds the subject while the box adds what it
  // reads of it, adds the file record, and declares its id.
  datatype Phase =
    | Waiting
    | Saving(meta: FileSchema.Meta)
    | ContentStored(meta: FileSchema.Meta, path: Bytes)
    | Declared(meta: FileSchema.Meta, path: Bytes, id: Bytes)
    | NotAnUpload

  // Who listens to the content: nobody, a box that was told of the file, or one that called
  // getContent() when so many chunks had been published.
  datatype Listener = Nobody | Told | Reading(missed: nat)

  // `registered`: the box has subscribed to incomingFiles.  `content` is the queue behind
  // getContent().  `contents` is all that was ever added to the store.
  datatype State = State(
    parts: Partition.State<Bytes>,
    phase: Phase,
    registered: bool,
    listener: Listener,
    content: AsyncLater.World<Bytes>,
    blocks: Blocks,
    contents: set<Bytes>)

  datatype Event =
    | Register
    | Message(bytes: Bytes)
    | EndOfStream
    | ReadHead(step: Partition.Reading)
    | GetContent
    | ReadTail(step: Partition.Reading)
    | ReadContent(step: Partition.Reading)
    | StoreContent
    | StoreFile
    | StoreOther(bytes: Bytes)

  function Init(blocks: Blocks): State {
    State(Partition.Init(), Waiting, false, Nobody, AsyncLater.Start(), blocks, blocks.Values)
  }

  ghost predicate Steppable(s: State) {
    Partition.Steppable(s.parts) && AsyncLater.Inv(s.content)
  }

  // The handler, once the first message is there: save publishes the incoming file, and
  // incomingFiles is hot.
  function Dispatch(s: State): State
    requires s.parts.first.q.yielded != []
  {
    match FileSchema.RequestFromBinary(s.parts.first.q.yielded[0])
    case Success(Send(meta)) => s.(phase := Saving(meta), listener := if s.registered then Told else Nobody)
    case _ => s.(phase := NotAnUpload)
  }

  // A subject that has completed completes a new observer at once; what it published is gone.
  ghost function Observe(s: State): (r: State)
    requires Steppable(s)
    ensures Steppable(r)
  {
    if !s.listener.Told? then s
    else
      var tail := s.parts.second.q;
      s.(listener := Reading(|tail.yielded|),
         content := if tail.body.Ended? then Partition.Feed(s.content, AsyncLater.Complete) else s.content)
  }

  // content.next and content.complete: a hot subject reaches whoever has subscribed.
  ghost function Publish(s: State, e: AsyncLater.Event<Bytes>): (r: State)
    requires Steppable(s)
    ensures Steppable(r)
  {
    if s.listener.Reading? then s.(content := Partition.Feed(s.content, e)) else s
  }

  ghost function TailStep(s: State, step: Partition.Reading): (r: State)
    requires Steppable(s)
    ensures Steppable(r)
  {
    var before := s.parts.second.q;
    var s' := s.(parts := Partition.Advance(s.parts, 1, Partition.ReadSecond(step)));
    var after := s'.parts.second.q;
    if |after.yielded| > |before.yielded| then
      Publish(s', AsyncLater.Next(AsyncLater.Plain(after.yielded[|after.yielded| - 1])))
    else if after.body.Ended? && !before.body.Ended? then Publish(s', AsyncLater.Complete)
    else s'
  }

  function Store(address: Address, s: State, b: Bytes): State {
    s.(blocks := Add(address, s.blocks, b), contents := s.contents + {b})
  }

  // toBinary throws where the record does not fit, and then nothing is declared.
  function StoreRecord(address: Address, s: State): State
    requires s.phase.ContentStored?
  {
    var f := FileSchema.File(Some(s.phase.meta), s.phase.path);
    if !FileSchema.FitsFile(f) then s
    else
      var record := FileSchema.EncFile(f);
      Store(address, s, record).(phase := Declared(s.phase.meta, s.phase.path, address(record)))
  }

  ghost function Step(address: Address, s: State, e: Event): (r: State)
    requires Steppable(s)
    ensures Steppable(r)
  {
    match e
    case Register => s.(registered := true)
    case Message(bytes) => s.(parts := Partition.Advance(s.parts, 1, Partition.Item(bytes)))
    case EndOfStream => s.(parts := Partition.Advance(s.parts, 1, Partition.End))
    case ReadHead(step) =>
      if !s.phase.Waiting? then s
      else
        var s' := s.(parts := Partition.Advance(s.parts, 1, Partition.ReadFirst(step)));
        if s'.parts.first.q.yielded == [] then s' else Dispatch(s')
    case GetContent => Observe(s)
    case ReadTail(step) => if s.phase.Waiting? || s.phase.NotAnUpload? then s else TailStep(s, step)
    case ReadContent(step) =>
      if s.listener.Reading? then s.(content := Partition.Feed(s.content, Partition.ReaderEvent(step))) else s
    case StoreContent =>
      if s.phase.Saving? && s.listener.Reading? && s.content.q.body.Ended? then
        var b := Flatten(s.content.q.yielded);
        Store(address, s, b).(phase := ContentStored(s.phase.meta, address(b)))
      else s
    case StoreFile => if s.phase.ContentStored? then StoreRecord(address, s) else s
    case StoreOther(bytes) => Store(address, s, bytes)
  }

  ghost function Run(address: Address, blocks: Blocks, evs: seq<Event>): (s: State)
    ensures Steppable(s)
  {
    if evs == [] then AsyncLater.StartHolds<Bytes>(); Init(blocks)
    else Step(address, Run(address, blocks, evs[..|evs| - 1]), evs[|evs| - 1])
  }

  // ---------------------------------------------------------------- the invariant

  // What the box has read of the subject is what the tail of the stream has yielded since
  // the box called getContent().
  ghost predicate Fed(s: State) {
    var tail := s.parts.second.q;
    if s.phase.Waiting? || s.phase.NotAnUpload? then
      s.listener.Nobody? && tail.yielded == [] && !tail.body.Ended? && s.content == AsyncLater.Start()
    else if s.listener.Reading? then
      && s.listener.missed <= |tail.yielded|
      && s.content.args == AsyncLater.Forwarded(tail.yielded[s.listener.missed..]) && !s.content.late
      && (s.content.completed <==> tail.body.Ended?)
    else s.phase.Saving? && s.content == AsyncLater.Start()
  }

  ghost predicate FirstMessage(s: State) {
    match s.phase
    case Waiting => s.parts.first.q.yielded == []
    case NotAnUpload => s.parts.input != []
    case _ =>
      s.parts.input != [] && FileSchema.RequestFromBinary(s.parts.input[0]) == Success(FileSchema.Send(s.phase.meta))
  }

  // The chunks that were published behind the box's getContent().
  function Rest(s: State): Bytes
    requires s.listener.Reading? && s.listener.missed < |s.parts.input|
  {
    Flatten(s.parts.input[1 + s.listener.missed..])
  }

  ghost predicate Kept(address: Address, blocks: Blocks, contents: set<Bytes>) {
    && Addressed(address, blocks)
    && (forall b :: b in contents ==> address(b) in blocks)
    && (forall id :: id in blocks ==> blocks[id] in contents)
  }

  // The stored content is the rest of the stream, and the record points to it.
  ghost predicate Stored(address: Address, s: State) {
    && Kept(address, s.blocks, s.contents)
    && (s.phase.ContentStored? || s.phase.Declared? ==>
          && s.parts.ended && s.listener.Reading? && s.listener.missed < |s.parts.input|
          && s.phase.path == address(Rest(s)) && Rest(s) in s.contents)
    && (s.phase.Declared? ==>
          var f := FileSchema.File(Some(s.phase.meta), s.phase.path);
          FileSchema.FitsFile(f) && s.phase.id == address(FileSchema.EncFile(f)) && FileSchema.EncFile(f) in s.contents)
  }

  ghost predicate Inv(address: Address, s: State) {
    Partition.Routed(s.parts, 1) && Fed(s) && FirstMessage(s) && Stored(address, s)
  }

  lemma StartHolds(address: Address, blocks: Blocks)
    requires Addressed(address, blocks)
    ensures Inv(address, Init(blocks))
  {
  }

  lemma {:induction false} StepHolds(address: Address, s: State, e: Event)
    requires Steppable(s) && Inv(address, s)
    ensures Inv(address, Step(address, s, e))
  {
    hide Inv, Dispatch, TailStep, Observe, Partition.Advance, Partition.Feed, Store, StoreRecord, AsyncLater.Inv;
    match e
    case Register => RegisterHolds(address, s);
    case Message(bytes) => ArrivalHolds(address, s, Partition.Item(bytes));
    case EndOfStream => ArrivalHolds(address, s, Partition.End);
    case ReadHead(step) => HeadHolds(address, s, step);
    case GetContent => ObserveHolds(address, s);
    case ReadTail(step) => TailHolds(address, s, step);
    case ReadContent(step) => ContentHolds(address, s, step);
    case StoreContent => StoreContentHolds(address, s);
    case StoreFile => StoreFileHolds(address, s);
    case StoreOther(bytes) => StoreOtherHolds(address, s, bytes);
  }

  lemma RegisterHolds(address: Address, s: State)
    requires Steppable(s) && Inv(address, s)
    ensures Inv(address, s.(registered := true))
  {
    hide AsyncLater.Inv, Partition.Routed, Kept, Flatten;
    hide FileSchema.EncFile, FileSchema.FitsFile, FileSchema.RequestFromBinary;
  }

  // What an item or the end of the source changes: it never takes back, and reads nothing.
  lemma ArrivalEffect(parts: Partition.State<Bytes>, e: Partition.Event<Bytes>)
    requires Partition.Steppable(parts) && (e.Item? || e.End?)
    ensures var r := Partition.Advance(parts, 1, e);
            && r.second.q.yielded == parts.second.q.yielded && r.second.q.body == parts.second.q.body
            && r.first.q.yielded == parts.first.q.yielded && Grows(parts, r)
  {
    hide AsyncLater.Inv;
  }

  ghost predicate Grows(before: Partition.State<Bytes>, after: Partition.State<Bytes>) {
    && (before.ended ==> after.ended && after.input == before.input)
    && (before.input != [] ==> after.input != [] && after.input[0] == before.input[0])
  }

  // The request and the store look at nothing but what has come of the source.
  lemma RestStays(address: Address, s: State, s': State)
    requires s' == s.(parts := s'.parts, content := s'.content) && Grows(s.parts, s'.parts)
    ensures s'.parts.first.q.yielded == s.parts.first.q.yielded && FirstMessage(s) ==> FirstMessage(s')
    ensures Stored(address, s) ==> Stored(address, s')
  {
    hide Kept, Flatten, FileSchema.EncFile, FileSchema.FitsFile, FileSchema.RequestFromBinary;
  }

  lemma ArrivalHolds(address: Address, s: State, e: Partition.Event<Bytes>)
    requires Steppable(s) && Inv(address, s) && (e.Item? || e.End?)
    ensures Inv(address, s.(parts := Partition.Advance(s.parts, 1, e)))
  {
    Partition.StepRoutes(s.parts, 1, e);
    ArrivalEffect(s.parts, e);
    var s' := s.(parts := Partition.Advance(s.parts, 1, e));
    RestStays(address, s, s');
    hide AsyncLater.Inv, Partition.Routed, Partition.Advance, FirstMessage, Stored;
  }

  lemma HeadHolds(address: Address, s: State, step: Partition.Reading)
    requires Steppable(s) && Inv(address, s)
    ensures Inv(address, Step(address, s, ReadHead(step)))
  {
    hide AsyncLater.Inv, Partition.Routed, Partition.Advance, Stored, Dispatch;
    if s.phase.Waiting? {
      Partition.StepRoutes(s.parts, 1, Partition.ReadFirst(step));
      HeadIsFirst(s.parts, step);
      var s' := s.(parts := Partition.Advance(s.parts, 1, Partition.ReadFirst(step)));
      assert Step(address, s, ReadHead(step)) == if s'.parts.first.q.yielded == [] then s' else Dispatch(s');
      RestStays(address, s, s');
      if s'.parts.first.q.yielded != [] {
        DispatchHolds(address, s');
      }
    }
  }

  lemma DispatchHolds(address: Address, s: State)
    requires Partition.Routed(s.parts, 1) && Fed(s) && Stored(address, s) && s.phase.Waiting?
    requires s.parts.first.q.yielded != [] && s.parts.input != [] && s.parts.first.q.yielded[0] == s.parts.input[0]
    ensures Inv(address, Dispatch(s))
  {
    hide AsyncLater.Inv, Partition.Routed, Kept, FileSchema.RequestFromBinary;
  }

  // The head of the stream yields its first message.
  lemma HeadIsFirst(parts: Partition.State<Bytes>, step: Partition.Reading)
    requires Partition.Steppable(parts) && Partition.Routed(parts, 1)
    ensures var r := Partition.Advance(parts, 1, Partition.ReadFirst(step));
            && r == parts.(first := r.first)
            && (r.first.q.yielded != [] ==> r.input != [] && r.first.q.yielded[0] == r.input[0])
  {
    Partition.StepRoutes(parts, 1, Partition.ReadFirst(step));
    var r := Partition.Advance(parts, 1, Partition.ReadFirst(step));
    Partition.YieldsValues(r.first, r.input[..Partition.Cut(1, |r.input|)]);
  }

  // A reader's step yields at most one value, or ends the stream, and nothing else.
  lemma ReadingStep(w: AsyncLater.World<Bytes>, step: Partition.Reading)
    requires AsyncLater.Inv(w)
    ensures var after := Partition.Feed(w, Partition.ReaderEvent(step));
            && after == w.(q := after.q)
            && (after.q.yielded == w.q.yielded
                || (|after.q.yielded| == |w.q.yielded| + 1 && after.q.yielded[..|w.q.yielded|] == w.q.yielded
                    && !w.q.body.Ended? && !after.q.body.Ended?))
            && (w.q.body.Ended? ==> after == w)
  {
  }

  lemma TailHolds(address: Address, s: State, step: Partition.Reading)
    requires Steppable(s) && Inv(address, s)
    ensures Inv(address, Step(address, s, ReadTail(step)))
  {
    hide AsyncLater.Inv, Partition.Routed, Partition.Feed, Partition.Advance, TailStep, Fed, FirstMessage, Stored;
    if !s.phase.Waiting? && !s.phase.NotAnUpload? {
      Partition.StepRoutes(s.parts, 1, Partition.ReadSecond(step));
      TailEffect(s, step);
      RestStays(address, s, TailStep(s, step));
      assert Step(address, s, ReadTail(step)) == TailStep(s, step);
    }
  }

  // A step of the tail's reader moves the tail and feeds the subject, and nothing else.
  lemma TailEffect(s: State, step: Partition.Reading)
    requires Steppable(s) && Fed(s) && !s.phase.Waiting? && !s.phase.NotAnUpload?
    ensures var r := TailStep(s, step);
            && r == s.(parts := r.parts, content := r.content) && Fed(r)
            && r.parts == Partition.Advance(s.parts, 1, Partition.ReadSecond(step))
            && r.parts == s.parts.(second := Partition.Feed(s.parts.second, Partition.ReaderEvent(step)))
  {
    hide Partition.Feed, AsyncLater.Inv, Fed, Publish, Partition.ItemStep, Partition.ReaderEvent;
    ReadingStep(s.parts.second, step);
    var second := Partition.Feed(s.parts.second, Partition.ReaderEvent(step));
    assert Partition.Advance(s.parts, 1, Partition.ReadSecond(step)) == s.parts.(second := second);
    var s' := s.(parts := s.parts.(second := second));
    var before, after := s.parts.second.q, second.q;
    hide Partition.Advance;
    if |after.yielded| > |before.yielded| {
      TailGrows(s, s', after.yielded[|after.yielded| - 1]);
    } else if after.body.Ended? && !before.body.Ended? {
      TailEnds(s, s');
    } else {
      TailRests(s, s');
    }
  }

  lemma ObserveHolds(address: Address, s: State)
    requires Steppable(s) && Inv(address, s)
    ensures Inv(address, Observe(s))
  {
    hide Partition.Routed, Kept, Flatten, FileSchema.EncFile, FileSchema.FitsFile, FileSchema.RequestFromBinary;
    hide AsyncLater.Inv, Partition.Feed;
    if s.listener.Told? {
      CompletedAtOnce();
      var tail := s.parts.second.q;
      assert tail.yielded[|tail.yielded|..] == [];
    }
  }

  // A queue that is completed before anything comes.
  lemma CompletedAtOnce()
    ensures AsyncLater.Inv(AsyncLater.Start<Bytes>())
    ensures var r := Partition.Feed(AsyncLater.Start<Bytes>(), AsyncLater.Complete);
            r.args == [] && r.completed && !r.late
  {
    AsyncLater.StartHolds<Bytes>();
    hide AsyncLater.Inv;
  }

  // What Fed needs of the subject when the tail yields, ends, or does neither.
  lemma TailGrows(s: State, s': State, v: Bytes)
    requires Steppable(s) && Steppable(s') && Fed(s) && !s.phase.Waiting? && !s.phase.NotAnUpload?
    requires s' == s.(parts := s'.parts) && s'.parts.second.q.yielded == s.parts.second.q.yielded + [v]
    requires !s.parts.second.q.body.Ended? && !s'.parts.second.q.body.Ended?
    ensures var r := Publish(s', AsyncLater.Next(AsyncLater.Plain(v)));
            r == s'.(content := r.content) && Fed(r)
  {
    if s.listener.Reading? {
      var k, yielded := s.listener.missed, s.parts.second.q.yielded;
      ForwardedSnoc(yielded[k..], v);
      assert (yielded + [v])[k..] == yielded[k..] + [v];
      PassedOn(s.content, v);
    }
    hide AsyncLater.Inv, AsyncLater.Forwarded, Partition.Feed;
  }

  lemma TailEnds(s: State, s': State)
    requires Steppable(s) && Steppable(s') && Fed(s) && !s.phase.Waiting? && !s.phase.NotAnUpload?
    requires s' == s.(parts := s'.parts) && s'.parts.second.q.yielded == s.parts.second.q.yielded
    requires s'.parts.second.q.body.Ended?
    ensures var r := Publish(s', AsyncLater.Complete);
            r == s'.(content := r.content) && Fed(r)
  {
    hide AsyncLater.Inv, AsyncLater.Forwarded, AsyncLater.CompleteOn;
  }

  lemma TailRests(s: State, s': State)
    requires Fed(s) && !s.phase.Waiting? && !s.phase.NotAnUpload?
    requires s' == s.(parts := s'.parts) && s'.parts.second.q.yielded == s.parts.second.q.yielded
    requires s'.parts.second.q.body.Ended? <==> s.parts.second.q.body.Ended?
    ensures Fed(s')
  {
  }

  lemma PassedOn(w: AsyncLater.World<Bytes>, v: Bytes)
    requires AsyncLater.Inv(w) && !w.late && !w.completed
    ensures var r := Partition.Feed(w, AsyncLater.Next(AsyncLater.Plain(v)));
            r.args == w.args + [AsyncLater.Plain(v)] && !r.late && !r.completed
  {
    AsyncLater.OpenUntilComplete(w);
  }

  lemma ForwardedSnoc(values: seq<Bytes>, v: Bytes)
    ensures AsyncLater.Forwarded(values + [v]) == AsyncLater.Forwarded(values) + [AsyncLater.Plain(v)]
  {
  }

  lemma ContentHolds(address: Address, s: State, step: Partition.Reading)
    requires Steppable(s) && Inv(address, s)
    ensures Inv(address, Step(address, s, ReadContent(step)))
  {
    hide AsyncLater.Inv, Partition.Routed, Partition.Feed, FirstMessage, Stored, AsyncLater.Forwarded;
    if s.listener.Reading? {
      ReadingStep(s.content, step);
      var s' := s.(content := Partition.Feed(s.content, Partition.ReaderEvent(step)));
      assert Step(address, s, ReadContent(step)) == s';
      assert Fed(s');
      RestStays(address, s, s');
    }
  }

  // What the box has read, once its stream has ended.
  lemma ContentIsWhole(address: Address, s: State)
    requires Steppable(s) && Inv(address, s) && s.listener.Reading? && s.content.q.body.Ended?
    ensures s.parts.ended && s.listener.missed < |s.parts.input|
    ensures s.content.q.yielded == s.parts.input[1 + s.listener.missed..]
  {
    hide AsyncLater.Inv, AsyncLater.Forwarded, Stored, Partition.Cut, FileSchema.RequestFromBinary;
    var c := Partition.Cut(1, |s.parts.input|);
    Partition.YieldsValues(s.content, s.parts.second.q.yielded[s.listener.missed..]);
    Partition.YieldsValues(s.parts.second, s.parts.input[c..]);
    DropBehindCut(s.parts.input, s.listener.missed);
  }

  lemma DropBehindCut(input: seq<Bytes>, k: nat)
    ensures input != [] ==> Partition.Cut(1, |input|) == 1
    ensures k < |input| ==> k <= |input[1..]| && input[1..][k..] == input[1 + k..]
  {
  }

  lemma StoreKeeps(address: Address, s: State, b: Bytes)
    requires Kept(address, s.blocks, s.contents)
    ensures var r := Store(address, s, b);
            Kept(address, r.blocks, r.contents) && b in r.contents && s.contents <= r.contents
  {
  }

  lemma StoreContentHolds(address: Address, s: State)
    requires Steppable(s) && Inv(address, s)
    ensures Inv(address, Step(address, s, StoreContent))
  {
    hide AsyncLater.Inv, Partition.Routed, Flatten, AsyncLater.Forwarded, Partition.Advance, Partition.Feed;
    hide FileSchema.RequestFromBinary, FileSchema.EncFile, FileSchema.FitsFile;
    if s.phase.Saving? && s.listener.Reading? && s.content.q.body.Ended? {
      ContentIsWhole(address, s);
      StoreKeeps(address, s, Flatten(s.content.q.yielded));
      hide Add, Kept;
    }
  }

  lemma StoreFileHolds(address: Address, s: State)
    requires Steppable(s) && Inv(address, s)
    ensures Inv(address, Step(address, s, StoreFile))
  {
    hide AsyncLater.Inv, Partition.Routed, Flatten;
    hide FileSchema.EncFile, FileSchema.FitsFile, FileSchema.RequestFromBinary;
    if s.phase.ContentStored? {
      StoreKeeps(address, s, FileSchema.EncFile(FileSchema.File(Some(s.phase.meta), s.phase.path)));
      hide Add, Kept;
    }
  }

  lemma StoreOtherHolds(address: Address, s: State, b: Bytes)
    requires Steppable(s) && Inv(address, s)
    ensures Inv(address, Store(address, s, b))
  {
    hide AsyncLater.Inv, Partition.Routed, Flatten;
    hide FileSchema.EncFile, FileSchema.FitsFile, FileSchema.RequestFromBinary;
    StoreKeeps(address, s, b);
    hide Add, Kept;
  }

  lemma {:induction false} RunHolds(address: Address, blocks: Blocks, evs: seq<Event>)
    requires Addressed(address, blocks)
    ensures Inv(address, Run(address, blocks, evs))
  {
    if evs == [] {
      StartHolds(address, blocks);
    } else {
      RunHolds(address, blocks, evs[..|evs| - 1]);
      StepHolds(address, Run(address, blocks, evs[..|evs| - 1]), evs[|evs| - 1]);
      hide Inv, Step;
    }
  }

  // ---------------------------------------------------------------- the theorems

  // The first message is a request to send a file of this Meta.
  ghost predicate Sends(s: State, meta: FileSchema.Meta) {
    && s.parts.input != [] && s.parts.input[0] == FileSchema.EncRequest(FileSchema.Send(meta))
    && FileSchema.FitsRequest(FileSchema.Send(meta))
  }

  lemma CatKept(address: Address, blocks: Blocks, contents: set<Bytes>, b: Bytes)
    requires Kept(address, blocks, contents) && CollisionFree(address, contents) && b in contents
    ensures Cat(blocks, address(b)) == Success(b)
  {
  }

  /** Whatever the interleaving, and whatever else is stored before, meanwhile or after: the declared
      id retrieves the Meta that was sent and exactly the chunks published behind getContent(). */
  lemma DeclaredUploadIsRetrieved(address: Address, blocks: Blocks, evs: seq<Event>, meta: FileSchema.Meta)
    requires Addressed(address, blocks)
    requires var s := Run(address, blocks, evs);
             s.phase.Declared? && Sends(s, meta) && CollisionFree(address, s.contents)
    ensures var s := Run(address, blocks, evs);
            && s.parts.ended && s.listener.Reading? && s.listener.missed < |s.parts.input|
            && RetrieveMeta(s.blocks, s.phase.id) == Some(meta)
            && RetrieveContent(s.blocks, s.phase.id) == Some(Rest(s))
  {
    RunHolds(address, blocks, evs);
    hide Run;
    StateIsRetrieved(address, Run(address, blocks, evs), meta);
  }

  lemma StateIsRetrieved(address: Address, s: State, meta: FileSchema.Meta)
    requires Inv(address, s) && s.phase.Declared? && Sends(s, meta) && CollisionFree(address, s.contents)
    ensures s.parts.ended && s.listener.Reading? && s.listener.missed < |s.parts.input|
    ensures RetrieveMeta(s.blocks, s.phase.id) == Some(meta) && RetrieveContent(s.blocks, s.phase.id) == Some(Rest(s))
  {
    var f := FileSchema.File(Some(s.phase.meta), s.phase.path);
    FileSchema.RequestRoundTrip(FileSchema.Send(meta));
    FileSchema.FileRoundTrip(f);
    hide Partition.Routed, Fed, Kept, CollisionFree, Rest, Cat, FileSchema.FitsFile, FileSchema.FitsRequest;
    hide FileSchema.EncFile, FileSchema.FileFromBinary, FileSchema.EncRequest, FileSchema.RequestFromBinary;
    CatKept(address, s.blocks, s.contents, FileSchema.EncFile(f));
    CatKept(address, s.blocks, s.contents, Rest(s));
  }

  /** What is retrieved is all that was sent exactly when the chunks that the box missed are empty. */
  lemma WholeIffNothingMissed(address: Address, blocks: Blocks, evs: seq<Event>, meta: FileSchema.Meta)
    requires Addressed(address, blocks)
    requires var s := Run(address, blocks, evs);
             s.phase.Declared? && Sends(s, meta) && CollisionFree(address, s.contents)
    ensures var s := Run(address, blocks, evs);
            && s.listener.Reading? && s.listener.missed < |s.parts.input|
            && (RetrieveContent(s.blocks, s.phase.id) == Some(Flatten(s.parts.input[1..]))
                <==> Flatten(s.parts.input[1..1 + s.listener.missed]) == [])
  {
    hide Run, Flatten, RetrieveContent, RetrieveMeta, CollisionFree, Sends, Addressed, AsyncLater.Inv;
    DeclaredUploadIsRetrieved(address, blocks, evs, meta);
    RestIsAllIff(Run(address, blocks, evs).parts.input, Run(address, blocks, evs).listener.missed);
  }

  lemma RestIsAllIff(input: seq<Bytes>, k: nat)
    requires k < |input|
    ensures Flatten(input[1 + k..]) == Flatten(input[1..]) <==> Flatten(input[1..1 + k]) == []
  {
    hide Flatten;
    assert input[1..] == input[1..1 + k] + input[1 + k..];
    FlattenConcat(input[1..1 + k], input[1 + k..]);
  }

  /** The box calls getContent() in the turn in which it is told of the file: no chunk is published
      in between. */
  ghost predicate Prompt(address: Address, blocks: Blocks, evs: seq<Event>) {
    evs == [] ||
    (var before, last := evs[..|evs| - 1], evs[|evs| - 1];
     Prompt(address, blocks, before) && (last.ReadTail? ==> !Run(address, blocks, before).listener.Told?))
  }

  ghost predicate MissedNothing(s: State) {
    && (s.listener.Told? ==> s.parts.second.q.yielded == [])
    && (s.listener.Reading? ==> s.listener.missed == 0)
  }

  lemma PromptStep(address: Address, s: State, e: Event)
    requires Steppable(s) && Fed(s) && MissedNothing(s) && (e.ReadTail? ==> !s.listener.Told?)
    ensures MissedNothing(Step(address, s, e))
  {
    hide AsyncLater.Inv, Partition.Feed, FileSchema.RequestFromBinary, FileSchema.EncFile, Flatten;
    match e
    case Message(bytes) => ArrivalEffect(s.parts, Partition.Item(bytes));
    case EndOfStream => ArrivalEffect(s.parts, Partition.End);
    case _ =>
  }

  lemma {:induction false} PromptMissesNothing(address: Address, blocks: Blocks, evs: seq<Event>)
    requires Addressed(address, blocks) && Prompt(address, blocks, evs)
    ensures MissedNothing(Run(address, blocks, evs))
  {
    if evs != [] {
      var before := evs[..|evs| - 1];
      PromptMissesNothing(address, blocks, before);
      RunHolds(address, blocks, before);
      PromptStep(address, Run(address, blocks, before), evs[|evs| - 1]);
      hide Step, MissedNothing, Fed, AsyncLater.Inv;
    }
  }

  /** So the box retrieves every upload whole. */
  lemma PromptUploadIsWhole(address: Address, blocks: Blocks, evs: seq<Event>, meta: FileSchema.Meta)
    requires Addressed(address, blocks) && Prompt(address, blocks, evs)
    requires var s := Run(address, blocks, evs);
             s.phase.Declared? && Sends(s, meta) && CollisionFree(address, s.contents)
    ensures var s := Run(address, blocks, evs);
            && RetrieveMeta(s.blocks, s.phase.id) == Some(meta)
            && RetrieveContent(s.blocks, s.phase.id) == Some(Flatten(s.parts.input[1..]))
  {
    hide Run, Prompt, RetrieveMeta, RetrieveContent, CollisionFree, Sends, Addressed, Flatten, AsyncLater.Inv;
    DeclaredUploadIsRetrieved(address, blocks, evs, meta);
    PromptMissesNothing(address, blocks, evs);
  }

  // ---------------------------------------------------------------- who is told in time

  lemma RunThen(address: Address, blocks: Blocks, evs: seq<Event>, e: Event)
    ensures Run(address, blocks, evs + [e]) == Step(address, Run(address, blocks, evs), e)
    ensures Prompt(address, blocks, evs + [e]) <==>
              Prompt(address, blocks, evs) && (e.ReadTail? ==> !Run(address, blocks, evs).listener.Told?)
  {
    hide Step, AsyncLater.Inv, Partition.Steppable, Init;
    assert (evs + [e])[..|evs|] == evs;
  }

  // The contents that others store.
  function Others(evs: seq<Event>): set<Bytes> {
    if evs == [] then {}
    else Others(evs[..|evs| - 1]) + if evs[|evs| - 1].StoreOther? then {evs[|evs| - 1].bytes} else {}
  }

  lemma OthersUnfold(evs: seq<Event>)
    ensures evs == [] ==> Others(evs) == {}
    ensures evs != [] ==>
              var last := evs[|evs| - 1];
              Others(evs) == Others(evs[..|evs| - 1]) + if last.StoreOther? then {last.bytes} else {}
  {
  }

  ghost predicate Unheard(s: State) {
    s.phase.Saving? && s.listener.Nobody?
  }

  lemma UnheardStep(address: Address, s: State, e: Event)
    requires Steppable(s) && Unheard(s)
    ensures var r := Step(address, s, e);
            Unheard(r) && r.contents == s.contents + if e.StoreOther? then {e.bytes} else {}
  {
    hide AsyncLater.Inv, Partition.Advance, Partition.Feed, Add;
  }

  /** incomingFiles is hot: an upload published before the box has registered is lost.  Whatever
      comes later, a registration included, nothing of it is stored and no id is declared. */
  lemma {:induction false} UnheardUploadIsLost(address: Address, blocks: Blocks, evs: seq<Event>, later: seq<Event>)
    requires Unheard(Run(address, blocks, evs))
    ensures var s := Run(address, blocks, evs + later);
            Unheard(s) && s.contents == Run(address, blocks, evs).contents + Others(later)
    decreases |later|
  {
    hide *;
    OthersUnfold(later);
    if later == [] {
      assert evs + later == evs;
    } else {
      var before, last := later[..|later| - 1], later[|later| - 1];
      UnheardUploadIsLost(address, blocks, evs, before);
      UnheardStep(address, Run(address, blocks, evs + before), last);
      RunThen(address, blocks, evs + before, last);
      assert evs + later == evs + before + [last];
    }
  }

  ghost function TailRounds(address: Address, s: State, k: nat): (r: State)
    requires Steppable(s)
    ensures Steppable(r)
    decreases k
  {
    if k == 0 then s
    else
      var next := Step(address, Step(address, s, ReadTail(Partition.Ask)), ReadTail(Partition.Resume));
      TailRounds(address, next, k - 1)
  }

  ghost function ContentRounds(address: Address, s: State, k: nat): (r: State)
    requires Steppable(s)
    ensures Steppable(r)
    decreases k
  {
    if k == 0 then s
    else
      var next := Step(address, Step(address, s, ReadContent(Partition.Ask)), ReadContent(Partition.Resume));
      ContentRounds(address, next, k - 1)
  }

  // One request and one wake-up of the tail's reader.
  lemma TailRound(address: Address, s: State)
    requires Steppable(s) && Fed(s) && s.phase.Saving?
    ensures var r := Step(address, Step(address, s, ReadTail(Partition.Ask)), ReadTail(Partition.Resume));
            && r == s.(parts := r.parts, content := r.content) && Fed(r)
            && r.parts == s.parts.(second := AsyncLater.Round(s.parts.second))
  {
    hide AsyncLater.Inv, TailStep, Fed, Partition.Advance, AsyncLater.ConsumeOn, AsyncLater.WakeOn;
    var s1 := Step(address, s, ReadTail(Partition.Ask));
    assert s1 == TailStep(s, Partition.Ask);
    TailEffect(s, Partition.Ask);
    assert Step(address, s1, ReadTail(Partition.Resume)) == TailStep(s1, Partition.Resume);
    TailEffect(s1, Partition.Resume);
    hide Step;
  }

  lemma {:induction false} TailRoundsDrain(address: Address, s: State, k: nat)
    requires Steppable(s) && Fed(s) && s.phase.Saving?
    ensures var r := TailRounds(address, s, k);
            && r == s.(parts := r.parts, content := r.content) && Fed(r)
            && r.parts == s.parts.(second := AsyncLater.Rounds(s.parts.second, k))
    decreases k
  {
    hide AsyncLater.Inv, Step, Fed, AsyncLater.Round;
    if k > 0 {
      TailRound(address, s);
      AsyncLater.NextRound(s.parts.second, k);
      hide AsyncLater.Rounds;
      var next := Step(address, Step(address, s, ReadTail(Partition.Ask)), ReadTail(Partition.Resume));
      TailRoundsDrain(address, next, k - 1);
    }
  }

  lemma ContentRound(address: Address, s: State)
    requires Steppable(s) && s.listener.Reading?
    ensures Step(address, Step(address, s, ReadContent(Partition.Ask)), ReadContent(Partition.Resume))
         == s.(content := AsyncLater.Round(s.content))
  {
    hide AsyncLater.Inv, AsyncLater.ConsumeOn, AsyncLater.WakeOn;
  }

  lemma {:induction false} ContentRoundsDrain(address: Address, s: State, k: nat)
    requires Steppable(s) && s.listener.Reading?
    ensures ContentRounds(address, s, k) == s.(content := AsyncLater.Rounds(s.content, k))
    decreases k
  {
    hide AsyncLater.Inv, Step, AsyncLater.Round;
    if k > 0 {
      ContentRound(address, s);
      AsyncLater.NextRound(s.content, k);
      hide AsyncLater.Rounds;
      ContentRoundsDrain(address, s.(content := AsyncLater.Round(s.content)), k - 1);
    }
  }

  /** Once the stream has ended, readers that keep asking bring what the box has subscribed to to a
      declared id. */
  lemma ReadUploadIsDeclared(address: Address, s: State, k: nat, k': nat)
    requires ShortAddresses(address) && Steppable(s) && Inv(address, s)
    requires s.phase.Saving? && s.listener.Reading? && s.parts.ended
    requires FileSchema.FitsMeta(s.phase.meta) && Fits(FileSchema.EncMeta(s.phase.meta))
    requires k > AsyncLater.Ahead(s.parts.second.q) && k' > AsyncLater.Ahead(TailRounds(address, s, k).content.q)
    ensures var drained := ContentRounds(address, TailRounds(address, s, k), k');
            Finishes(address, s, Step(address, Step(address, drained, StoreContent), StoreFile))
  {
    hide *;
    var drained := DrainsTheContent(address, s, k, k');
    ContentIsWhole(address, drained);
    StoresAndDeclares(address, drained);
    FinishesFrom(address, s, drained, Step(address, Step(address, drained, StoreContent), StoreFile));
  }

  lemma FinishesFrom(address: Address, s: State, drained: State, end: State)
    requires Finishes(address, drained, end) && SameUpload(s, drained)
    ensures Finishes(address, s, end)
  {
    hide UploadContents, Flatten;
  }

  ghost predicate SameUpload(s: State, s': State) {
    && s'.phase == s.phase && s'.listener == s.listener && s'.contents == s.contents
    && s'.parts.input == s.parts.input
  }

  lemma DrainsTheContent(address: Address, s: State, k: nat, k': nat) returns (drained: State)
    requires Steppable(s) && Inv(address, s) && s.phase.Saving? && s.listener.Reading? && s.parts.ended
    requires k > AsyncLater.Ahead(s.parts.second.q) && k' > AsyncLater.Ahead(TailRounds(address, s, k).content.q)
    ensures drained == ContentRounds(address, TailRounds(address, s, k), k') && Steppable(drained)
    ensures Inv(address, drained) && drained.content.q.body.Ended? && SameUpload(s, drained)
    ensures drained.phase == s.phase && drained.listener == s.listener
  {
    var t := TailRounds(address, s, k);
    drained := ContentRounds(address, t, k');
    TailRoundsHold(address, s, k);
    ContentRoundsHold(address, t, k');
    TailRoundsDrain(address, s, k);
    TailDrained(s.parts, k);
    hide TailRounds, ContentRounds, AsyncLater.Inv, AsyncLater.Rounds, Partition.Routed, Stored, FirstMessage;
    assert t.content.completed;
    ContentRoundsDrain(address, t, k');
    ContentDrained(t, k');
  }

  // Nothing but the two contents of the upload has been added, and the upload is declared.
  ghost predicate Finishes(address: Address, s: State, end: State) {
    && s.phase.Saving? && s.listener.Reading? && s.listener.missed < |s.parts.input|
    && end.phase.Declared? && end.phase.meta == s.phase.meta
    && end.parts.input == s.parts.input && end.listener == s.listener
    && end.contents == s.contents + UploadContents(address, s.phase.meta, Rest(s))
  }

  // What an upload stores: the content, and the record that points to it.
  function UploadContents(address: Address, meta: FileSchema.Meta, content: Bytes): set<Bytes> {
    {content, FileSchema.EncFile(FileSchema.File(Some(meta), address(content)))}
  }

  lemma TailDrained(parts: Partition.State<Bytes>, k: nat)
    requires Partition.Steppable(parts) && Partition.Routed(parts, 1) && parts.ended
    requires k > AsyncLater.Ahead(parts.second.q)
    ensures AsyncLater.Rounds(parts.second, k).q.body.Ended?
  {
    AsyncLater.DrainsEverything(parts.second, k);
  }

  lemma ContentDrained(s: State, k: nat)
    requires Steppable(s) && Fed(s) && s.listener.Reading? && s.content.completed && k > AsyncLater.Ahead(s.content.q)
    ensures AsyncLater.Rounds(s.content, k).q.body.Ended?
  {
    AsyncLater.DrainsEverything(s.content, k);
  }

  lemma {:induction false} TailRoundsHold(address: Address, s: State, k: nat)
    requires Steppable(s) && Inv(address, s)
    ensures Inv(address, TailRounds(address, s, k))
    decreases k
  {
    hide *;
    TailRoundsUnfold(address, s, k);
    if k > 0 {
      TwoStepsHold(address, s, ReadTail(Partition.Ask), ReadTail(Partition.Resume));
      var next := Step(address, Step(address, s, ReadTail(Partition.Ask)), ReadTail(Partition.Resume));
      TailRoundsHold(address, next, k - 1);
    }
  }

  lemma TailRoundsUnfold(address: Address, s: State, k: nat)
    requires Steppable(s)
    ensures TailRounds(address, s, k) == if k == 0 then s
      else var next := Step(address, Step(address, s, ReadTail(Partition.Ask)), ReadTail(Partition.Resume));
        TailRounds(address, next, k - 1)
  {
    hide Step;
  }

  lemma {:induction false} ContentRoundsHold(address: Address, s: State, k: nat)
    requires Steppable(s) && Inv(address, s)
    ensures Inv(address, ContentRounds(address, s, k))
    decreases k
  {
    hide *;
    ContentRoundsUnfold(address, s, k);
    if k > 0 {
      TwoStepsHold(address, s, ReadContent(Partition.Ask), ReadContent(Partition.Resume));
      var next := Step(address, Step(address, s, ReadContent(Partition.Ask)), ReadContent(Partition.Resume));
      ContentRoundsHold(address, next, k - 1);
    }
  }

  lemma ContentRoundsUnfold(address: Address, s: State, k: nat)
    requires Steppable(s)
    ensures ContentRounds(address, s, k) == if k == 0 then s
      else var next := Step(address, Step(address, s, ReadContent(Partition.Ask)), ReadContent(Partition.Resume));
        ContentRounds(address, next, k - 1)
  {
    hide Step;
  }

  lemma TwoStepsHold(address: Address, s: State, e: Event, e': Event)
    requires Steppable(s) && Inv(address, s)
    ensures Inv(address, Step(address, Step(address, s, e), e'))
  {
    hide Inv, Step;
    StepHolds(address, s, e);
    StepHolds(address, Step(address, s, e), e');
  }

  lemma StoresAndDeclares(address: Address, s: State)
    requires ShortAddresses(address) && Steppable(s)
    requires s.phase.Saving? && s.listener.Reading? && s.content.q.body.Ended?
    requires s.listener.missed < |s.parts.input|
    requires s.content.q.yielded == s.parts.input[1 + s.listener.missed..]
    requires FileSchema.FitsMeta(s.phase.meta) && Fits(FileSchema.EncMeta(s.phase.meta))
    ensures Finishes(address, s, Step(address, Step(address, s, StoreContent), StoreFile))
  {
    hide AsyncLater.Inv, Flatten, FileSchema.EncFile, FileSchema.EncMeta, Add;
    assert Fits(address(Flatten(s.content.q.yielded)));
  }

  // ---------------------------------------------------------------- every upload can be declared

  lemma RunThenAll(address: Address, blocks: Blocks, evs: seq<Event>, a: Event, b: Event)
    ensures Run(address, blocks, evs + [a, b]) == Step(address, Step(address, Run(address, blocks, evs), a), b)
  {
    hide *;
    RunThen(address, blocks, evs, a);
    RunThen(address, blocks, evs + [a], b);
    assert evs + [a, b] == evs + [a] + [b];
  }

  function Rounds(ask: Event, resume: Event, k: nat): (evs: seq<Event>) {
    if k == 0 then [] else [ask, resume] + Rounds(ask, resume, k - 1)
  }

  lemma RoundsBehind(evs: seq<Event>, ask: Event, resume: Event, k: nat)
    ensures k == 0 ==> evs + Rounds(ask, resume, k) == evs
    ensures k > 0 ==> evs + Rounds(ask, resume, k) == evs + [ask, resume] + Rounds(ask, resume, k - 1)
  {
  }

  lemma {:induction false} RunTailRounds(address: Address, blocks: Blocks, evs: seq<Event>, k: nat)
    ensures Run(address, blocks, evs + Rounds(ReadTail(Partition.Ask), ReadTail(Partition.Resume), k))
         == TailRounds(address, Run(address, blocks, evs), k)
    decreases k
  {
    hide *;
    var ask, resume := ReadTail(Partition.Ask), ReadTail(Partition.Resume);
    RoundsBehind(evs, ask, resume, k);
    TailRoundsUnfold(address, Run(address, blocks, evs), k);
    if k > 0 {
      RunThenAll(address, blocks, evs, ask, resume);
      RunTailRounds(address, blocks, evs + [ask, resume], k - 1);
    }
  }

  lemma {:induction false} RunContentRounds(address: Address, blocks: Blocks, evs: seq<Event>, k: nat)
    ensures Run(address, blocks, evs + Rounds(ReadContent(Partition.Ask), ReadContent(Partition.Resume), k))
         == ContentRounds(address, Run(address, blocks, evs), k)
    decreases k
  {
    hide *;
    var ask, resume := ReadContent(Partition.Ask), ReadContent(Partition.Resume);
    RoundsBehind(evs, ask, resume, k);
    ContentRoundsUnfold(address, Run(address, blocks, evs), k);
    if k > 0 {
      RunThenAll(address, blocks, evs, ask, resume);
      RunContentRounds(address, blocks, evs + [ask, resume], k - 1);
    }
  }

  /** Whatever has come of an upload that the box has subscribed to, the stream can end and the upload
      be declared, with nothing stored but its own two contents. */
  lemma ReadUploadCompletes(address: Address, blocks: Blocks, evs: seq<Event>) returns (later: seq<Event>)
    requires ShortAddresses(address) && Addressed(address, blocks)
    requires var s := Run(address, blocks, evs);
             && s.phase.Saving? && s.listener.Reading?
             && FileSchema.FitsMeta(s.phase.meta) && Fits(FileSchema.EncMeta(s.phase.meta))
    ensures Finishes(address, Run(address, blocks, evs), Run(address, blocks, evs + later))
  {
    hide *;
    var ended := evs + [EndOfStream];
    RunThen(address, blocks, evs, EndOfStream);
    RunHolds(address, blocks, ended);
    EndArrives(address, Run(address, blocks, evs));
    var s := Run(address, blocks, ended);
    var k := AsyncLater.Ahead(s.parts.second.q) + 1;
    var k' := AsyncLater.Ahead(TailRounds(address, s, k).content.q) + 1;
    ReadUploadIsDeclared(address, s, k, k');
    var tail := Rounds(ReadTail(Partition.Ask), ReadTail(Partition.Resume), k);
    var content := Rounds(ReadContent(Partition.Ask), ReadContent(Partition.Resume), k');
    RunTailRounds(address, blocks, ended, k);
    RunContentRounds(address, blocks, ended + tail, k');
    RunThenAll(address, blocks, ended + tail + content, StoreContent, StoreFile);
    later := [EndOfStream] + tail + content + [StoreContent, StoreFile];
    assert ended + tail + content + [StoreContent, StoreFile] == evs + later;
    FinishesBehind(address, Run(address, blocks, evs), s, Run(address, blocks, evs + later));
  }

  lemma EndArrives(address: Address, s: State)
    requires Steppable(s)
    ensures var r := Step(address, s, EndOfStream);
            && r == s.(parts := r.parts) && r.parts.ended && r.parts.input == s.parts.input
            && r.phase == s.phase && r.listener == s.listener
  {
    hide AsyncLater.Inv;
  }

  lemma FinishesBehind(address: Address, s: State, s': State, end: State)
    requires s' == s.(parts := s'.parts) && s'.parts.input == s.parts.input && Finishes(address, s', end)
    ensures Finishes(address, s, end)
  {
    hide UploadContents, Flatten;
  }

  lemma SentMetaIsKnown(address: Address, s: State, meta: FileSchema.Meta)
    requires Inv(address, s) && s.phase.Saving? && Sends(s, meta)
    ensures s.phase.meta == meta && FileSchema.FitsMeta(meta) && Fits(FileSchema.EncMeta(meta))
  {
    FileSchema.RequestRoundTrip(FileSchema.Send(meta));
    hide FileSchema.RequestFromBinary, FileSchema.EncRequest, Partition.Routed, Stored, Fed;
  }

  lemma ObserveReads(address: Address, s: State)
    requires Steppable(s) && !s.listener.Nobody?
    ensures var r := Step(address, s, GetContent);
            r.phase == s.phase && r.listener.Reading? && r.parts == s.parts
  {
    hide AsyncLater.Inv, Partition.Feed;
  }

  lemma FinishesDeclared(address: Address, s: State, end: State)
    requires Finishes(address, s, end)
    ensures end.phase.Declared?
  {
    hide UploadContents, Rest;
  }

  lemma NobodyIsUnheard(s: State)
    ensures Unheard(s) <==> s.phase.Saving? && s.listener.Nobody?
  {
  }

  /** An upload can still come to be declared exactly when the box had registered before it was
      published. */
  lemma DeclarableIffHeard(address: Address, blocks: Blocks, evs: seq<Event>, meta: FileSchema.Meta)
    requires ShortAddresses(address) && Addressed(address, blocks)
    requires Run(address, blocks, evs).phase.Saving? && Sends(Run(address, blocks, evs), meta)
    ensures (exists later :: Run(address, blocks, evs + later).phase.Declared?)
       <==> !Run(address, blocks, evs).listener.Nobody?
  {
    hide *;
    var s := Run(address, blocks, evs);
    if s.listener.Nobody? {
      NobodyIsUnheard(s);
      forall later ensures !Run(address, blocks, evs + later).phase.Declared? {
        UnheardUploadIsLost(address, blocks, evs, later);
        NobodyIsUnheard(Run(address, blocks, evs + later));
      }
    } else {
      RunHolds(address, blocks, evs);
      SentMetaIsKnown(address, s, meta);
      RunThen(address, blocks, evs, GetContent);
      ObserveReads(address, s);
      var reading := evs + [GetContent];
      var later := ReadUploadCompletes(address, blocks, reading);
      FinishesDeclared(address, Run(address, blocks, reading), Run(address, blocks, reading + later));
      assert evs + ([GetContent] + later) == reading + later;
    }
  }

  // The request has arrived at a box that has registered, and the handler stands where given.
  ghost predicate RequestAtHead(s: State, request: Bytes, line: seq<nat>, body: AsyncLater.Body) {
    && s.phase.Waiting? && s.registered && !s.parts.ended && s.parts.input == [request]
    && s.parts.first.q
       == AsyncLater.Queue([AsyncLater.Holds(AsyncLater.Plain(request)), AsyncLater.Open], line, 1, body, [])
    && s.parts.second.q.yielded == []
  }

  lemma RequestArrives(address: Address, blocks: Blocks, request: Bytes)
    ensures var r := Step(address, Step(address, Run(address, blocks, []), Register), Message(request));
            RequestAtHead(r, request, [1, 0], AsyncLater.Suspended) && r.contents == blocks.Values
  {
    hide AsyncLater.Inv;
  }

  lemma RequestIsAwaited(address: Address, s: State, request: Bytes)
    requires Steppable(s) && RequestAtHead(s, request, [1, 0], AsyncLater.Suspended)
    ensures var r := Step(address, s, ReadHead(Partition.Ask));
            RequestAtHead(r, request, [1], AsyncLater.Awaiting(0)) && r.contents == s.contents
  {
    hide AsyncLater.Inv, Dispatch;
  }

  lemma RequestIsDispatched(address: Address, s: State, request: Bytes, meta: FileSchema.Meta)
    requires Steppable(s) && RequestAtHead(s, request, [1], AsyncLater.Awaiting(0))
    requires FileSchema.RequestFromBinary(request) == Success(FileSchema.Send(meta))
    ensures var r := Step(address, s, ReadHead(Partition.Resume));
            && r.phase == Saving(meta) && r.listener == Told && r.parts.second.q.yielded == []
            && !r.parts.ended && r.parts.input == [request] && r.contents == s.contents
  {
    hide AsyncLater.Inv, FileSchema.RequestFromBinary;
  }

  lemma ObservesAll(address: Address, s: State)
    requires Steppable(s) && s.listener == Told && s.parts.second.q.yielded == []
    ensures var r := Step(address, s, GetContent);
            r.phase == s.phase && r.listener == Reading(0) && r.parts == s.parts && r.contents == s.contents
  {
    hide AsyncLater.Inv, Partition.Feed;
  }

  lemma NothingIsPrompt(address: Address, blocks: Blocks)
    ensures Prompt(address, blocks, [])
  {
  }

  lemma SentIsRead(meta: FileSchema.Meta)
    requires FileSchema.FitsRequest(FileSchema.Send(meta))
    ensures FileSchema.RequestFromBinary(FileSchema.EncRequest(FileSchema.Send(meta))) == Success(FileSchema.Send(meta))
  {
    hide *;
    FileSchema.RequestRoundTrip(FileSchema.Send(meta));
  }

  // The handler reads the request, and the box subscribes, before anything else comes.
  lemma RequestIsHeard(address: Address, blocks: Blocks, meta: FileSchema.Meta) returns (evs: seq<Event>)
    requires FileSchema.FitsRequest(FileSchema.Send(meta))
    ensures var s := Run(address, blocks, evs);
            && s.phase == Saving(meta) && s.listener == Reading(0) && !s.parts.ended && s.contents == blocks.Values
            && s.parts.input == [FileSchema.EncRequest(FileSchema.Send(meta))]
    ensures Prompt(address, blocks, evs)
  {
    hide *;
    var request := FileSchema.EncRequest(FileSchema.Send(meta));
    SentIsRead(meta);
    var e0: seq<Event> := [];
    NothingIsPrompt(address, blocks);
    var e1 := e0 + [Register];
    var e2 := e1 + [Message(request)];
    var e3 := e2 + [ReadHead(Partition.Ask)];
    var e4 := e3 + [ReadHead(Partition.Resume)];
    evs := e4 + [GetContent];
    RunThen(address, blocks, e0, Register);
    RunThen(address, blocks, e1, Message(request));
    RequestArrives(address, blocks, request);
    RunThen(address, blocks, e2, ReadHead(Partition.Ask));
    RequestIsAwaited(address, Run(address, blocks, e2), request);
    RunThen(address, blocks, e3, ReadHead(Partition.Resume));
    RequestIsDispatched(address, Run(address, blocks, e3), request, meta);
    RunThen(address, blocks, e4, GetContent);
    ObservesAll(address, Run(address, blocks, e4));
  }

  function Messages(chunks: seq<Bytes>): (evs: seq<Event>) {
    seq(|chunks|, i requires 0 <= i < |chunks| => Message(chunks[i]))
  }

  lemma ChunkArrives(address: Address, s: State, chunk: Bytes)
    requires Steppable(s) && !s.parts.ended
    ensures var r := Step(address, s, Message(chunk));
            r == s.(parts := r.parts) && !r.parts.ended && r.parts.input == s.parts.input + [chunk]
  {
    hide AsyncLater.Inv;
  }

  lemma {:induction false} ChunksArrive(address: Address, blocks: Blocks, evs: seq<Event>, chunks: seq<Bytes>)
    requires !Run(address, blocks, evs).parts.ended
    ensures var s, r := Run(address, blocks, evs), Run(address, blocks, evs + Messages(chunks));
            && r == s.(parts := r.parts) && !r.parts.ended && r.parts.input == s.parts.input + chunks
  {
    hide Run, Step, AsyncLater.Inv;
    if chunks == [] {
      assert evs + Messages(chunks) == evs;
    } else {
      var before, last := chunks[..|chunks| - 1], chunks[|chunks| - 1];
      ChunksArrive(address, blocks, evs, before);
      assert evs + Messages(chunks) == evs + Messages(before) + [Message(last)];
      RunThen(address, blocks, evs + Messages(before), Message(last));
      ChunkArrives(address, Run(address, blocks, evs + Messages(before)), last);
      assert chunks == before + [last];
    }
  }

  lemma ReadingStays(address: Address, s: State, e: Event)
    requires Steppable(s) && Inv(address, s) && s.listener.Reading?
    ensures Step(address, s, e).listener == s.listener
  {
    hide AsyncLater.Inv, Partition.Routed, Partition.Advance, Partition.Feed, Stored, FirstMessage, Add;
  }

  // A box that has subscribed stays prompt.
  lemma {:induction false} PromptBehind(address: Address, blocks: Blocks, evs: seq<Event>, later: seq<Event>)
    requires Addressed(address, blocks) && Prompt(address, blocks, evs) && Run(address, blocks, evs).listener.Reading?
    ensures Prompt(address, blocks, evs + later)
    ensures Run(address, blocks, evs + later).listener == Run(address, blocks, evs).listener
    decreases |later|
  {
    hide Run, Step, Inv, Prompt;
    if later == [] {
      assert evs + later == evs;
    } else {
      var before, last := later[..|later| - 1], later[|later| - 1];
      PromptBehind(address, blocks, evs, before);
      RunHolds(address, blocks, evs + before);
      RunThen(address, blocks, evs + before, last);
      ReadingStays(address, Run(address, blocks, evs + before), last);
      assert evs + later == evs + before + [last];
    }
  }

  /** For every Meta and every chunks there is a run of a prompt box in which that upload is declared,
      and in which nothing is stored but the content and its record. */
  lemma EveryUploadCanBeDeclared(address: Address, blocks: Blocks, meta: FileSchema.Meta, chunks: seq<Bytes>)
    returns (evs: seq<Event>)
    requires ShortAddresses(address) && Addressed(address, blocks) && FileSchema.FitsRequest(FileSchema.Send(meta))
    ensures Prompt(address, blocks, evs)
    ensures var s := Run(address, blocks, evs);
            && s.phase.Declared? && s.phase.meta == meta
            && s.parts.input == [FileSchema.EncRequest(FileSchema.Send(meta))] + chunks
            && s.contents == blocks.Values + UploadContents(address, meta, Flatten(chunks))
  {
    var heard := RequestIsHeard(address, blocks, meta);
    hide Run, Step, Prompt, UploadContents, Flatten, FileSchema.EncRequest, FileSchema.EncMeta, FileSchema.FitsMeta;
    ChunksArrive(address, blocks, heard, chunks);
    var arrived := heard + Messages(chunks);
    var s := Run(address, blocks, arrived);
    var later := ReadUploadCompletes(address, blocks, arrived);
    evs := arrived + later;
    PromptBehind(address, blocks, heard, Messages(chunks));
    PromptBehind(address, blocks, arrived, later);
    assert s.parts.input[1..] == chunks;
  }

  // ---------------------------------------------------------------- the content subject of save

  /** A subject with at most the one observer that getContent() makes. */
  class ContentSubject {
    var observer: AsyncLater.IterateLater?<Bytes>
    var stopped: bool

    ghost predicate Mirrors(s: State)
      reads this, observer
    {
      (observer != null <==> s.listener.Reading?) && (observer != null ==> observer.State() == s.content.q)
    }

    constructor ()
      ensures observer == null && !stopped
    {
      observer, stopped := null, false;
    }

    // toAsyncIterable(content): subscribes at once, and is completed at once by a stopped subject.
    method Subscribe(ghost s: State)
      requires Steppable(s) && Mirrors(s) && s.listener.Told? && s.content == AsyncLater.Start()
      requires stopped <==> s.parts.second.q.body.Ended?
      modifies this
      ensures stopped == old(stopped) && fresh(observer) && Mirrors(Observe(s))
    {
      observer := new AsyncLater.IterateLater();
      if stopped {
        observer.Complete();
      }
    }

    // What nobody listens to is lost.
    method Next(message: Bytes, ghost s: State)
      requires Steppable(s) && Mirrors(s)
      modifies observer
      ensures observer == old(observer) && Mirrors(Publish(s, AsyncLater.Next(AsyncLater.Plain(message))))
    {
      if observer != null {
        observer.Next(AsyncLater.Plain(message));
      }
    }

    method Complete(ghost s: State)
      requires Steppable(s) && Mirrors(s)
      modifies this, observer
      ensures stopped && observer == old(observer) && Mirrors(Publish(s, AsyncLater.Complete))
    {
      stopped := true;
      if observer != null {
        observer.Complete();
      }
    }
  }
}

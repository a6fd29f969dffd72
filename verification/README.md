# A model of Fula's protocols

Fula lets a client keep its files and documents on a box of its own. This project models the parts
of it whose behaviour is decided by the code itself: the binary messages that the two sides exchange, the
promise queue that every stream is built on, encrypted uploads, the framing of the React Native bridge,
the document query engine, and the two protocols that put these together. The main theorems are about all
inputs and, where there is concurrency, about all interleavings.

Each module follows one shape. Functions say what an operation computes; a method or a class with the
form of the original (its loops, its cursor, its fields) is proved to compute exactly that; lemmas prove
what the system promises about it. Concurrent code is a state machine whose steps are the points at which
JavaScript can switch, and a run is any sequence of steps.

| module | models |
|---|---|
| Wire | the primitives of the Protocol Buffers encoding: varints, tags, lengths, a reading cursor, a writer with a stack of buffers |
| StructCodec, JsonMapping | google.protobuf Value, Struct and ListValue, in binary and in JSON |
| FileSchema, GraphSchema | the messages of the file protocol and of the graph protocol |
| AsyncLater, Partition, ObservableAdaptor | iterateLater and what is built on it; observableToAsyncGenerator |
| ChunkedEncryption | sendFile against receiveDecryptedFile |
| Base64, BridgeFraming | the base64 text that crosses the React Native bridge, in both directions |
| Filter, DocStore, Subscription | the filter compiler, queries and updateQuery, live subscriptions |
| Upload, EndToEnd | an upload from its first message to its declared id, and a file's whole way there and back |

## Where the code does less than one would expect

In these places a natural reading of the code's intent is false. Each has its exact condition, proved in both
directions; where that is not itself a recipe for a failing input, one is given beside it.

- An encrypted file of r bytes more than a multiple of 16384, r >= 16368, comes back with its padding:
  the sender decides about padding from the size of the file, the receiver from the size of the
  ciphertext, and a padding that fills the block is taken for data (ChunkedEncryption.ReceiveAfterSend).
- A next() behind a complete(), with no other next() in between, is lost; the arguments of all other calls
  are kept in order, and are yielded unless the generator had ended before (AsyncLater.RunKeeps,
  AsyncLater.SurvivorsAreYielded, AsyncLater.EndedYieldsAllIffNoLateNext).
- observableToAsyncGenerator keeps one deferred, not a queue: values that arrive while the generator is not
  awaiting it are lost (ObservableAdaptor.YieldsAllIffInStep, ObservableAdaptor.BurstLosesValues). An upload from the
  React Native client is stored whole exactly when that did not happen (EndToEnd.SlicedUploadComesBackIff).
  An error that does not find the generator awaiting it is lost too, and the consumer then waits forever
  (ObservableAdaptor.ErrorIsHeardIff, ObservableAdaptor.ErrorIsThrownIffHeard).
- The text of RN's receiveFile is base64 only when the groups of three chunks come in threes of bytes
  (BridgeFraming.TextIsBase64Iff); equal chunks suffice, unequal ones can break it.
- updateQuery with a value that carries an _id leaves a store that depends on the order of the puts, exactly
  when these are not all of one document (DocStore.OneResultIff, DocStore.IdInValueMakesOrderMatter).
  On exactly the same condition a second updateQuery can change what the first one left
  (DocStore.IdempotentIff, DocStore.IdInValueIsNotIdempotent).
- types.ts declares the filter keys "$and" and "$or"; the code knows "and" and "or", throws on the declared
  ones exactly when their array is not empty, and lets an empty "$or" hold of every document
  (Filter.DollarThrowsIff, Filter.DollarAgreesIff).
- A filter that throws is answered while the collection is empty and fails from its first document on
  (DocStore.QueryMeans, Subscription.AnsweredUnlessThrown).
- Value.fromJson after Value.toJson is not quite the identity on messages without an unset kind: a null may
  carry any 32-bit number on the wire, and JSON keeps only 0 (JsonMapping.MessageRoundTrip,
  JsonMapping.OtherNullsAreLost).
- An upload can come to be declared exactly when the box had registered for incoming files before it was
  published (Upload.DeclarableIffHeard); chunks published before getContent() are lost
  (Upload.WholeIffNothingMissed), which the box avoids by calling it at once (Upload.PromptUploadIsWhole).

## Assumptions

- The protobuf-ts reader and writer are modelled from the Protocol Buffers Encoding specification: varints of
  at most ten bytes, lengths of 32 bits, reads that throw beyond the buffer, toNumber() that throws beyond
  2^53-1. Unknown fields are skipped.
- Strings are their UTF-8 bytes and doubles are eight opaque bytes.
- The transport keeps message boundaries: what the sender yields is what the handler's source yields.
- The content store is content addressed: an address is a function of the content. Retrieval is proved
  for runs in which no two contents that were ever stored share an address; that an upload comes to be
  declared, for addresses that fit into a message. EndToEnd.UploadsExist shows that both can be met
  for every upload. A File record arrives in one chunk of cat.
- An observable emits nothing after an error or a completion.
- The block cipher is any pair of functions with dec(enc(b)) == b. Padding is that of RFC 5652; stripping is
  modelled on aes-js, which also lets a last byte of zero pass.
- Comparing a string with a number, or with an array, is JavaScript's coercion; it stays an arbitrary function
  (Coercion), so what is proved holds whatever it is.

## Model

| member | source | states |
|---|---|---|
| StructCodec.ReadMergesValue | protocols/graph/src/schema/google/protobuf/struct.ts:335-410 | reading the bytes written for any Value, at any depth, into any target leaves the merge of target and value: lists append, structs take the new entries, any other set kind replaces, an unset kind changes nothing; reading goes on exactly behind those bytes |
| StructCodec.ReadMergesField | protocols/graph/src/schema/google/protobuf/struct.ts:335-386 | one turn of the Value loop: each of the six kinds is read back from its payload and merged as above |
| StructCodec.ReadMergesStruct | protocols/graph/src/schema/google/protobuf/struct.ts:207-254 | the same for the entries of a Struct, in any order of the keys: the target gets every entry, later ones winning |
| StructCodec.ReadsEntry | protocols/graph/src/schema/google/protobuf/struct.ts:226-254 | a map entry written through two nested forks is read back as its key and value |
| StructCodec.ReadMergesList | protocols/graph/src/schema/google/protobuf/struct.ts:448-475 | the same for a ListValue: its items are appended to the target in order |
| StructCodec.ReadMergesSubValue | protocols/graph/src/schema/google/protobuf/struct.ts:335-410 | a nested message behind its length prefix is merged, and the reader stops exactly at its end |
| StructCodec.MergeIntoFresh | protocols/graph/src/schema/google/protobuf/struct.ts:328-335 | a merge into a fresh message is the identity |
| StructCodec.PutAllIsUnion | protocols/graph/src/schema/google/protobuf/struct.ts:226-241 | seen as objects, the merge of structs is map union with later entries winning, and no key comes to stand twice |
| StructCodec.KeyOrderIrrelevant | protocols/graph/src/schema/google/protobuf/struct.ts:207-254 | one object written in any two orders of its keys reads back, into any target, as one object |
| StructCodec.DeepKeyOrderIrrelevant | protocols/graph/src/schema/google/protobuf/struct.ts:207-410 | two values that differ only in the order of keys, at whatever depth, read back into any target as two values that differ in no more |
| StructCodec.ReadsWf | protocols/graph/src/schema/google/protobuf/struct.ts:207-386 | whatever bytes are read into whatever object, the result is an object: no key stands twice, at any depth |
| StructCodec.DecodedSurvives | protocols/graph/src/schema/google/protobuf/struct.ts:335-410 | a message decoded from any bytes survives being written and read again, if the writer does not throw on it |
| StructCodec.ConcatenationMerges | protocols/graph/src/schema/google/protobuf/struct.ts:335-386 | two encodings put one behind the other read as the merge of the first and then the second ("Last One Wins") |
| StructCodec.LastWins | protocols/graph/src/schema/google/protobuf/struct.ts:335-410 | of two messages behind one another the last wins, but lists are appended and structs united, and an unset message changes nothing |
| StructCodec.ValueLayout | protocols/graph/src/schema/google/protobuf/struct.ts:387-410 | the bytes of each kind of Value: its tag as a byte, and the content behind it |
| StructCodec.StructLayout | protocols/graph/src/schema/google/protobuf/struct.ts:242-254 | the bytes of a map entry, with its two forks, and of an item of a list |
| StructCodec.UnknownFieldIsSkipped | protocols/graph/src/schema/google/protobuf/struct.ts:215-239 | a field that all three messages do not know, of any number, wire type and content, nested groups included, is skipped whole by the readers of Value, Struct and ListValue, and throws inside a map entry |
| StructCodec.RoundTrip | protocols/graph/src/schema/google/protobuf/struct.ts:335-410 | fromBinary of what the writer wrote is the message itself |
| StructCodec.SmallFits | protocols/graph/src/schema/google/protobuf/struct.ts:387-410 | the writer does not throw on any message whose encoding stays under 2^32 bytes |
| StructCodec.ReadValue | protocols/graph/src/schema/google/protobuf/struct.ts:335-386 | the imperative loop computes ValueAt on every byte string, well formed or not, from any target, and terminates because every turn moves the cursor |
| StructCodec.ReadStruct | protocols/graph/src/schema/google/protobuf/struct.ts:207-225 | the same for Struct |
| StructCodec.ReadMapEntry | protocols/graph/src/schema/google/protobuf/struct.ts:226-241 | the same for a map entry: the last key and value win, missing ones are empty and unset, an unknown field throws |
| StructCodec.ReadList | protocols/graph/src/schema/google/protobuf/struct.ts:448-466 | the same for ListValue |
| StructCodec.ReadSubValue | protocols/graph/src/schema/google/protobuf/struct.ts:235 | the same behind a length prefix |
| StructCodec.ReadSubStruct | protocols/graph/src/schema/google/protobuf/struct.ts:367 | the same behind a length prefix, into the struct the message already holds |
| StructCodec.ReadSubList | protocols/graph/src/schema/google/protobuf/struct.ts:373 | the same behind a length prefix, into the list the message already holds |
| StructCodec.ValueAt | protocols/graph/src/schema/google/protobuf/struct.ts:335-386 | on every byte string the reader stops inside the buffer and never moves back |
| StructCodec.ValueFieldAt | protocols/graph/src/schema/google/protobuf/struct.ts:339-383 | every turn of the Value loop reads at least one byte, even on empty submessages and overrunning lengths |
| StructCodec.StructAt | protocols/graph/src/schema/google/protobuf/struct.ts:207-225 | the same as ValueAt for Struct |
| StructCodec.EntryAt | protocols/graph/src/schema/google/protobuf/struct.ts:226-241 | every map entry takes at least one byte |
| StructCodec.ListAt | protocols/graph/src/schema/google/protobuf/struct.ts:448-466 | the same as ValueAt for ListValue |
| StructCodec.WriteValue | protocols/graph/src/schema/google/protobuf/struct.ts:387-410 | appends exactly the pure encoding, length prefixes included, leaves the stack of forked buffers as it was, and throws exactly when some length does not fit 32 bits |
| StructCodec.WriteStruct | protocols/graph/src/schema/google/protobuf/struct.ts:242-254 | the same for Struct |
| StructCodec.WriteEntry | protocols/graph/src/schema/google/protobuf/struct.ts:245-248 | the same for one map entry, through its two forks |
| StructCodec.WriteList | protocols/graph/src/schema/google/protobuf/struct.ts:467-475 | the same for ListValue |
| Wire.UintReadBack | protocols/file/src/schema/index.ts:128 | uint64() gives back every 64-bit varint, uint32() its low half |
| Wire.VarintLayout | protocols/file/src/schema/index.ts:156-159 | a varint is the digits of the number to the base of 128, the lowest first, with the continuation bit on all but the last byte and no idle zero |
| Wire.TagLayout | protocols/graph/src/schema/google/protobuf/struct.ts:387-405 | a tag is the varint of eight times the field number and the code of the wire type |
| Wire.PayloadLayout | protocols/file/src/schema/index.ts:147-162 | a number is the varint of its 64 bits, a truth value of 0 or 1, a content stands behind the varint of its length, which has to stay below 4294967296 |
| Wire.NumberOrRefused | protocols/file/src/schema/index.ts:128-131 | every 64-bit word that stands for a number from -(2^53-1) to 2^53-1, in literals, is read as that number, and every other is refused; bool(), uint32() and int32() of every word |
| Wire.NumberReadBack | protocols/file/src/schema/index.ts:128-159 | every number of that range is read back as written |
| Wire.VarintEnds | protocols/graph/src/schema/google/protobuf/struct.ts:338 | a varint ends with its first byte below 128, which has to be within the limit and the buffer |
| Wire.OverlongIsRefused | protocols/graph/src/schema/google/protobuf/struct.ts:338 | a varint without an end among its ten first bytes is refused |
| Wire.IntReadBack | protocols/file/src/schema/index.ts:128-131 | uint64().toNumber(), int64().toNumber() and int32() give back every integer a number holds exactly, negative ones included |
| Wire.BoolReadBack | protocols/graph/src/schema/google/protobuf/struct.ts:358-399 | bool() gives back what was written |
| Wire.TagReadBack | protocols/graph/src/schema/google/protobuf/struct.ts:338 | tag() gives back every field number up to 2^29-1 and every wire type |
| Wire.SkipsPayload | protocols/graph/src/schema/google/protobuf/struct.ts:219 | skip() goes exactly behind the payload of any unknown field: varint, fixed, length-delimited, or a group of further fields |
| Wire.DelimitedReadBack | protocols/graph/src/schema/google/protobuf/struct.ts:355-396 | string() and bytes() give back every content that fits, and the length prefix leads exactly to it |
| Wire.NegativeTakesTenBytes | protocols/file/src/schema/index.ts:158-159 | a negative lastModified is a ten-byte two's-complement varint |
| Wire.Writer.Fork | protocols/graph/src/schema/google/protobuf/struct.ts:245-246 | suspends the buffer and starts an empty one |
| Wire.Writer.Join | protocols/graph/src/schema/google/protobuf/struct.ts:248 | closes the innermost fork: its bytes land below behind their length; throws without an open fork or with too long a content |
| FileSchema.ReadMergesMeta | protocols/file/src/schema/index.ts:116-167 | reading a written Meta into any target overwrites the fields that were written and keeps those left out as defaults |
| FileSchema.ReadMergesChunk | protocols/file/src/schema/index.ts:187-226 | the same for Chunk, where an absent optional number is distinct from a present zero |
| FileSchema.ReadMergesRequest | protocols/file/src/schema/index.ts:246-294 | a Request of the target's kind is merged with it, of another kind replaces it, of no kind leaves it |
| FileSchema.ReadMergesFile | protocols/file/src/schema/index.ts:313-346 | a File's meta is merged with the target's, and an empty content path leaves the target's |
| FileSchema.MetaRoundTrip | protocols/file/src/schema/index.ts:116-167 | every Meta survives write then read: sizes up to 2^53-1, times within ±(2^53-1), a preview absent or present and empty |
| FileSchema.ChunkRoundTrip | protocols/file/src/schema/index.ts:187-226 | every Chunk survives, with skip and limit absent, zero or up to 2^53-1 |
| FileSchema.NumbersRoundTrip | protocols/file/src/schema/index.ts:116-226 | in literals: every size from 0 to 9007199254740991, every time from -9007199254740991 to 9007199254740991 and every skip and limit from 0 to 9007199254740991, absent or present, survives |
| FileSchema.MetaLayout | protocols/file/src/schema/index.ts:147-167 | the bytes of a Meta, field by field, with the tags as bytes and the defaults left out |
| FileSchema.ChunkLayout | protocols/file/src/schema/index.ts:212-226 | the same for Chunk |
| FileSchema.RequestLayout | protocols/file/src/schema/index.ts:280-294 | the same for Request |
| FileSchema.FileLayout | protocols/file/src/schema/index.ts:335-346 | the same for File |
| FileSchema.LastMetaWins | protocols/file/src/schema/index.ts:116-146 | of two Metas behind one another the last wins in every field that it carries |
| FileSchema.LastChunkWins | protocols/file/src/schema/index.ts:187-211 | the same for Chunk |
| FileSchema.LastRequestWins | protocols/file/src/schema/index.ts:246-279 | a Request of the same kind is read as its Metas or Chunks behind one another, one of another kind replaces |
| FileSchema.LastFileWins | protocols/file/src/schema/index.ts:313-334 | the later path wins, and the two Metas are read as one behind the other |
| FileSchema.UnknownFieldIsSkipped | protocols/file/src/schema/index.ts:136-142 | a field of a number beyond those of the message is skipped whole by each of the four readers |
| FileSchema.RequestRoundTrip | protocols/file/src/schema/index.ts:246-294 | every Request survives, the one without a kind included |
| FileSchema.FileRoundTrip | protocols/file/src/schema/index.ts:313-346 | every File survives, with or without its meta |
| FileSchema.ReadMeta | protocols/file/src/schema/index.ts:116-146 | the loop computes MetaAt on every byte string and terminates |
| FileSchema.ReadChunk | protocols/file/src/schema/index.ts:187-211 | the same for Chunk |
| FileSchema.ReadRequest | protocols/file/src/schema/index.ts:246-279 | the same for Request, merging only with a submessage of the same kind |
| FileSchema.ReadFile | protocols/file/src/schema/index.ts:313-334 | the same for File |
| FileSchema.WriteMeta | protocols/file/src/schema/index.ts:147-167 | appends the pure encoding with default fields left out, keeps the forked buffers, throws exactly when a length does not fit |
| FileSchema.WriteChunk | protocols/file/src/schema/index.ts:212-226 | the same for Chunk |
| FileSchema.WriteRequest | protocols/file/src/schema/index.ts:280-294 | the same for Request |
| FileSchema.WriteFile | protocols/file/src/schema/index.ts:335-346 | the same for File |
| GraphSchema.ReadMergesRequest | protocols/graph/src/schema/graph.ts:76-121 | reading a written Request into any target merges it field by field, its variables as Values merge |
| GraphSchema.ReadMergesOutcome | protocols/graph/src/schema/graph.ts:142-181 | a Result is merged with a target of the same kind and replaces one of the other |
| GraphSchema.RequestRoundTrip | protocols/graph/src/schema/graph.ts:76-121 | every Request survives write then read |
| GraphSchema.OutcomeRoundTrip | protocols/graph/src/schema/graph.ts:142-181 | every Result survives write then read |
| GraphSchema.RequestLayout | protocols/graph/src/schema/graph.ts:104-121 | the bytes of a Request, field by field, with the tags as bytes and the defaults left out |
| GraphSchema.OutcomeLayout | protocols/graph/src/schema/graph.ts:170-181 | the same for Result |
| GraphSchema.LastRequestWins | protocols/graph/src/schema/graph.ts:76-103 | of two Requests behind one another the last wins in every field that it carries, and the variables are read as one value behind the other |
| GraphSchema.LastOutcomeWins | protocols/graph/src/schema/graph.ts:142-169 | a Result of the same kind is read as its values behind one another, one of the other kind replaces |
| GraphSchema.UnknownFieldIsSkipped | protocols/graph/src/schema/graph.ts:93-99 | a field of a number beyond those of the message is skipped whole by both readers |
| GraphSchema.ReadRequest | protocols/graph/src/schema/graph.ts:76-103 | the loop computes RequestAt on every byte string and terminates |
| GraphSchema.WriteRequest | protocols/graph/src/schema/graph.ts:104-121 | appends the pure encoding, keeps the forked buffers, throws exactly when a length does not fit |
| GraphSchema.ReadOutcome | protocols/graph/src/schema/graph.ts:142-169 | the same as ReadRequest for Result |
| GraphSchema.WriteOutcome | protocols/graph/src/schema/graph.ts:170-181 | the same as WriteRequest for Result |
| JsonMapping.JsonRoundTrip | protocols/graph/src/schema/google/protobuf/struct.ts:275-327 | toJson after fromJson is the identity on every JSON value, and fromJson gives a well-formed message |
| JsonMapping.KindsMap | protocols/graph/src/schema/google/protobuf/struct.ts:299-327 | each kind of JSON value becomes its own kind of Value with the same content, the items of an array and the properties of an object in their places |
| JsonMapping.MessageRoundTrip | protocols/graph/src/schema/google/protobuf/struct.ts:275-327 | toJson throws exactly on a message with an unset kind at some depth; otherwise fromJson gives the message back if and only if every null in it carries the number 0 |
| JsonMapping.OtherNullsAreLost | protocols/graph/src/schema/google/protobuf/struct.ts:340-345 | bytes that read as a null with the number 1 come back from JSON as a null with the number 0 |
| JsonMapping.JsonThroughResult | protocols/graph/src/schema/graph.ts:142-181 | any JSON value sent as data or as error of a Result comes back unchanged through fromJson, write, read and toJson |
| JsonMapping.ReadValueJson | protocols/graph/src/schema/google/protobuf/struct.ts:299-327 | the case split computes FromJson |
| JsonMapping.ReadStructJson | protocols/graph/src/schema/google/protobuf/struct.ts:190-199 | the loop adds the properties to its target in order; anything but an object throws |
| JsonMapping.ReadListJson | protocols/graph/src/schema/google/protobuf/struct.ts:432-440 | the loop appends the items to its target; anything but an array throws |
| JsonMapping.WriteValueJson | protocols/graph/src/schema/google/protobuf/struct.ts:275-295 | computes ToJson, throwing on an unset kind |
| JsonMapping.WriteStructJson | protocols/graph/src/schema/google/protobuf/struct.ts:180-186 | gives every property in order, or throws where one of them does |
| JsonMapping.WriteListJson | protocols/graph/src/schema/google/protobuf/struct.ts:426-428 | gives every item in order, or throws where one of them does |
| AsyncLater.StepHolds | libraries/async-later/src/iterate-later.ts:3-25 | every step of producer, consumer or promise keeps the queue invariant: the slots still in line are consecutive and all but the last are resolved, the yielded values are what the slots dealt with settled to, and a marker or an end means that complete() was called |
| AsyncLater.RunRecords | libraries/async-later/src/iterate-later.ts:7-23 | the run knows the arguments of next() in order, whether complete() was called, and whether a next() came after it |
| AsyncLater.YieldedSoFar | libraries/async-later/src/iterate-later.ts:13-19 | in any reachable state without a late next() the yielded values are what a prefix of the arguments settled to |
| AsyncLater.YieldsPrefix | libraries/async-later/src/iterate-later.ts:3-25 | for every interleaving, with promises settling in any order: nothing lost, doubled or reordered; the end comes only after complete() and the last value; failure only at the first rejected argument |
| AsyncLater.EndedYieldsAllIffNoLateNext | libraries/async-later/src/iterate-later.ts:7-23 | a run that has ended yielded everything it was passed if and only if no next() came after complete() |
| AsyncLater.LateNextIsLost | libraries/async-later/src/iterate-later.ts:7-23 | the least failing run: complete(), next(v), and a consumer that waits forever without v |
| AsyncLater.RunKeeps | libraries/async-later/src/iterate-later.ts:7-23 | in every run, late calls included, exactly the arguments of a next() that comes behind a complete(), with no other next() in between, are lost; the slots keep all others in order |
| AsyncLater.YieldsSurvivors | libraries/async-later/src/iterate-later.ts:3-25 | in every run at all, the yielded values are what a prefix of the surviving arguments settled to, and the generator fails only at the first of them that was rejected |
| AsyncLater.AllSurviveIffNoLateNext | libraries/async-later/src/iterate-later.ts:7-23 | all arguments survive if and only if no next() came after complete() |
| AsyncLater.SurvivorsAreYielded | libraries/async-later/src/iterate-later.ts:13-19 | a late run that has not ended early is drained of its surviving arguments |
| AsyncLater.DrainsUntilRejection | libraries/async-later/src/iterate-later.ts:13-19 | once all arguments have settled, a consumer that keeps asking gets, within a stated number of rounds, everything before the first rejected argument, where the generator fails; with none rejected it ends if complete() was called and waits otherwise |
| AsyncLater.DrainsEverything | libraries/async-later/src/iterate-later.ts:13-19 | when every argument is fulfilled, all of them are yielded |
| AsyncLater.IterateLater.constructor | libraries/async-later/src/iterate-later.ts:4-5 | one open slot, in line |
| AsyncLater.IterateLater.ResolveLater | libraries/async-later/src/resolve-later.ts:3-11 | makes a fresh open slot and changes no other |
| AsyncLater.IterateLater.SetOnce | libraries/async-later/src/resolve-later.ts:5-9 | only the first resolve of a slot counts |
| AsyncLater.IterateLater.Next | libraries/async-later/src/iterate-later.ts:7-12 | refines the step NextOn |
| AsyncLater.IterateLater.Complete | libraries/async-later/src/iterate-later.ts:20-23 | refines the step CompleteOn |
| AsyncLater.IterateLater.Turn | libraries/async-later/src/iterate-later.ts:14-15 | refines the loop test and the pop |
| AsyncLater.IterateLater.Consume | libraries/async-later/src/iterate-later.ts:13-19 | refines a request of the consumer |
| AsyncLater.IterateLater.Wake | libraries/async-later/src/iterate-later.ts:15-18 | refines the resumption at the await: a value is yielded, a marker is passed over, a rejection fails the generator |
| AsyncLater.AdaptedRun | libraries/async-later/src/to-async-iterable.ts:3-7 | what an observable that keeps its contract asks of the queue: its values, then a rejected promise or a completion |
| AsyncLater.ObservableIsIterated | libraries/async-later/src/to-async-iterable.ts:3-7 | the iterable yields a prefix of the observable's values in order under every interleaving; it ends only behind all of a completed observable and fails only behind all of one that erred |
| AsyncLater.ObservableDrains | libraries/async-later/src/to-async-iterable.ts:3-7 | a consumer that keeps asking gets every value of the observable, and then the end, the error, or nothing yet |
| Partition.StepRoutes | libraries/async-later/src/partition.ts:7-27 | every step keeps the routing: each queue was passed its side of the source, and none is fed after its completion |
| Partition.SecondCompletionIsIdle | libraries/async-later/src/partition.ts:12-23 | a completion of a stream that is complete changes nothing of it: not the one at the end of the source behind the one at the index, nor a second end |
| Partition.RunRoutes | libraries/async-later/src/partition.ts:3-27 | so it is in every run, for every index, negative ones included |
| Partition.PartitionsTheSource | libraries/async-later/src/partition.ts:3-27 | under every schedule the first stream yields a prefix of the first min(index, n) items and the second a prefix of the rest; a stream that ended yielded its whole side |
| Partition.BothDrain | libraries/async-later/src/partition.ts:22-26 | once the source has ended each reader that keeps asking gets its whole side, and its stream ends |
| Partition.FirstDrainsEarly | libraries/async-later/src/partition.ts:12-14 | the first stream can be drained as soon as one item beyond the index has arrived |
| Partition.ReadersAreIndependent | libraries/async-later/src/partition.ts:7-27 | removing all steps of one reader from a run changes neither the pump nor the other stream |
| Partition.Pump.constructor | libraries/async-later/src/partition.ts:7-9 | two fresh queues and a counter at zero |
| Partition.Pump.OnItem | libraries/async-later/src/partition.ts:11-21 | refines the body of the loop on both queues |
| Partition.Pump.OnEnd | libraries/async-later/src/partition.ts:22-23 | refines the two completions |
| ObservableAdaptor.YieldsSubsequence | libraries/rn-fula/src/webview-fula/utils.ts:24-61 | under every interleaving, errors included, the yielded values are emitted values in order, each at most once |
| ObservableAdaptor.EndsAfterComplete | libraries/rn-fula/src/webview-fula/utils.ts:41-56 | after complete() nothing more is yielded and one more resumption ends the generator |
| ObservableAdaptor.RunBalance | libraries/rn-fula/src/webview-fula/utils.ts:24-61 | in step, emitted values are yielded or about to be; from the first step out of step on, one is missing for good |
| ObservableAdaptor.YieldsAllIffInStep | libraries/rn-fula/src/webview-fula/utils.ts:24-61 | a generator that has ended or thrown yielded every emission if and only if each emission found it awaiting the current deferred and the completion did not find it at an earlier one |
| ObservableAdaptor.EveryEmissionCanBeInStep | libraries/rn-fula/src/webview-fula/utils.ts:24-61 | any values can be emitted in step, and then all of them are yielded before the end |
| ObservableAdaptor.ErrorIsHeardIff | libraries/rn-fula/src/webview-fula/utils.ts:35-39 | error() leaves the generator at the rejected promise if and only if it finds it awaiting the current deferred |
| ObservableAdaptor.ErrorIsThrownIffHeard | libraries/rn-fula/src/webview-fula/utils.ts:35-56 | an error that was heard is thrown at the next resumption; one that was not is lost, and the generator then neither throws nor ends, whatever comes |
| ObservableAdaptor.BurstLosesValues | libraries/rn-fula/src/webview-fula/utils.ts:29-33 | two emissions before the generator resumes lose the second |
| ObservableAdaptor.Adaptor.constructor | libraries/rn-fula/src/webview-fula/utils.ts:25-26 | one pending deferred |
| ObservableAdaptor.Adaptor.Start | libraries/rn-fula/src/webview-fula/utils.ts:28 | the first next() subscribes |
| ObservableAdaptor.Adaptor.Defer | libraries/rn-fula/src/webview-fula/utils.ts:14-22 | makes a fresh pending promise and changes no other |
| ObservableAdaptor.Adaptor.Next | libraries/rn-fula/src/webview-fula/utils.ts:29-33 | refines the emission: the current deferred is replaced and resolved |
| ObservableAdaptor.Adaptor.Fail | libraries/rn-fula/src/webview-fula/utils.ts:35-39 | refines the error: the current deferred is replaced and rejected |
| ObservableAdaptor.Adaptor.Finish | libraries/rn-fula/src/webview-fula/utils.ts:41-44 | refines the completion |
| ObservableAdaptor.Adaptor.Await | libraries/rn-fula/src/webview-fula/utils.ts:49 | refines reaching the await of the current deferred |
| ObservableAdaptor.Adaptor.Continue | libraries/rn-fula/src/webview-fula/utils.ts:49-54 | refines the resumption: end if finished, otherwise yield |
| ChunkedEncryption.CbcChains | protocols/file/src/handlers/save.ts:65-71 | every encrypted block is the cipher of its plaintext combined with the ciphertext before it (section 6.2 of NIST SP 800-38A) |
| ChunkedEncryption.XorIsBitwise | protocols/file/src/handlers/save.ts:65-71 | each bit of the combination is the sum without carry of the two bits |
| ChunkedEncryption.BitsOfByte | protocols/file/src/handlers/save.ts:65-71 | the bits of a byte are those of its quotients by 1, 2, 4 and so on to 128 |
| ChunkedEncryption.CbcChainsBits | protocols/file/src/handlers/save.ts:65-71 | what is enciphered for a block is the block, bit by bit added without carry to the ciphertext before it, and to the vector for the first |
| ChunkedEncryption.CbcInverts | libraries/fula-client/src/index.ts:166-172 | decryption inverts encryption for every cipher that decrypts its own blocks |
| ChunkedEncryption.StripPad | protocols/file/src/handlers/save.ts:68-69 | stripping inverts padding (section 6.3 of RFC 5652) |
| ChunkedEncryption.PadLayout | protocols/file/src/handlers/save.ts:68-69 | the padding is one to sixteen bytes that each say how many they are, up to a multiple of sixteen |
| ChunkedEncryption.SendFile | protocols/file/src/handlers/save.ts:57-79 | the loop yields exactly the blocks of SendFrom, padding where size - endP < 0 |
| ChunkedEncryption.SentBlock | protocols/file/src/handlers/save.ts:57-79 | one block for every 16384 bytes and one for an empty file; block k is the bytes from 16384 k on, with a key enciphered afresh from the vector, and padded if and only if it is not full; every block but the last has 16384 bytes |
| ChunkedEncryption.JoinChunks | libraries/fula-client/src/index.ts:153-156 | the received chunks are joined in order |
| ChunkedEncryption.ReceiveDecryptedFile | libraries/fula-client/src/index.ts:153-179 | the loop gives exactly ReceiveFrom of the joined chunks, throwing where aes-js throws |
| ChunkedEncryption.SendsChunked | protocols/file/src/handlers/save.ts:57-79 | the joined blocks are the CBC encryption, started afresh every 16 KiB, of the file padded unless it ends with a full block |
| ChunkedEncryption.ReceivesChunked | libraries/fula-client/src/index.ts:158-179 | the receiver undoes it, but keeps the padding exactly when it filled a block |
| ChunkedEncryption.ReceiveAfterSend | protocols/file/src/handlers/save.ts:57-79 | for every file and cipher, with r = size mod 16384: the file comes back if and only if r < 16368, otherwise the file followed by 16384-r bytes each equal to 16384-r |
| ChunkedEncryption.PlainBlocksJoin | protocols/file/src/handlers/save.ts:74-75 | without a key the yielded blocks join to the file |
| Base64.SextetsAreTheBits | libraries/rn-fula/src/webview-fula/bridge.ts:131 | the four sextets are the 24 bits of the three bytes in order (section 4 of RFC 4648) |
| Base64.Alphabet | libraries/rn-fula/src/webview-fula/bridge.ts:83-131 | the 64 letters of section 4 of RFC 4648, and no others |
| Base64.EncodedAt | libraries/rn-fula/src/webview-fula/bridge.ts:131 | every character of an encoding: quad j holds three bytes as one number and its digits to the base of 64, the highest first, and the padding where there is no byte |
| Base64.DecodeEncode | libraries/rn-fula/src/webview-fula/bridge.ts:83-131 | parse after stringify is the identity |
| Base64.EncodeDecode | libraries/rn-fula/src/webview-fula/bridge.ts:83 | parse accepts nothing but encodings |
| Base64.EncodeConcatIff | libraries/rn-fula/src/webview-fula/bridge.ts:126-134 | the texts of two pieces join to the text of the whole if and only if the first piece has a multiple of three bytes or the second is empty |
| Base64.DecodeConcat | libraries/rn-fula/src/webview-fula/bridge.ts:83 | a text cut behind a multiple of four characters decodes piece by piece |
| BridgeFraming.ConcatArrayBuffers | libraries/rn-fula/src/webview-fula/utils.ts:63-70 | a fresh array holding the buffers one behind the other, without gap or overlap |
| BridgeFraming.Set | libraries/rn-fula/src/webview-fula/utils.ts:66 | writes the buffer at the offset and nothing else |
| BridgeFraming.Groups | libraries/rn-fula/src/webview-fula/bridge.ts:121-146 | every group holds one to three chunks, and every group but the last exactly three |
| BridgeFraming.GroupsFlatten | libraries/rn-fula/src/webview-fula/bridge.ts:121-146 | the groups hold exactly the chunks, in order |
| BridgeFraming.StreamSend | libraries/rn-fula/src/webview-fula/bridge.ts:112-156 | for every source it posts START, one CHUNK for each group, END; the buffer never exceeds three chunks |
| BridgeFraming.ReceiveText | libraries/rn-fula/src/rn-client/FulaClient.tsx:64-80 | the client's text is the payloads of the CHUNK messages joined |
| BridgeFraming.StreamDecodesToSource | libraries/rn-fula/src/webview-fula/bridge.ts:112-156 | decoding each payload and joining gives the source bytes, whatever the chunk sizes |
| BridgeFraming.TextIsBase64Iff | libraries/rn-fula/src/rn-client/FulaClient.tsx:64-80 | the client's text is the base64 of the whole content if and only if every group that is followed by any byte has a multiple of three bytes |
| BridgeFraming.EqualChunksGiveBase64 | libraries/rn-fula/src/webview-fula/bridge.ts:112-156 | so it is whenever all chunks but the last have one length |
| BridgeFraming.UnequalChunksSpoilTheText | libraries/rn-fula/src/webview-fula/bridge.ts:112-156 | four chunks of two, one, one and one bytes give a text that is not the base64 of the content |
| BridgeFraming.FileReader2 | libraries/rn-fula/src/rn-client/utils.ts:24-33 | for every positive size the loop terminates and yields the cut of the text |
| BridgeFraming.CutCovers | libraries/rn-fula/src/rn-client/utils.ts:24-33 | the slices join to the text, none is empty, and all but the last have the full size |
| BridgeFraming.SlicesDecode | libraries/rn-fula/src/rn-client/utils.ts:24-33 | for a size divisible by four, decoding slice by slice equals decoding the whole |
| BridgeFraming.DefaultSlicesDecode | libraries/rn-fula/src/rn-client/utils.ts:8-33 | with the default size every content survives encoding, slicing and slice-wise decoding |
| Filter.ComparisonsCohere | apps/box/src/graph/gql-engine/orbit/orbit-filter.ts:22-34 | on operands of one type exactly one of less, equal and greater holds, and the other three operators are made of these |
| Filter.ComparisonsAreTransitive | apps/box/src/graph/gql-engine/orbit/orbit-filter.ts:22-34 | on operands of one type less and less-or-equal are transitive, and greater is less turned round |
| Filter.CompiledAgrees | apps/box/src/graph/gql-engine/orbit/orbit-filter.ts:11-73 | for every filter tree and document the compiled predicate throws exactly what the tree refuses, and otherwise holds exactly when the direct recursive meaning does |
| Filter.OperatorRefusal | apps/box/src/graph/gql-engine/orbit/orbit-filter.ts:19-40 | a single operator throws "bad query" if and only if its value is 0 or the empty string, and otherwise "not implemented" if and only if it is none of the eight |
| Filter.ListOperators | apps/box/src/graph/gql-engine/orbit/orbit-filter.ts:35-38 | in holds exactly of the documents that have the field with a value of the list, nin of all others, and neither for a single value |
| Filter.MissingField | apps/box/src/graph/gql-engine/orbit/orbit-filter.ts:22-34 | of a missing field ne holds and the other five comparisons do not |
| Filter.NumberComparisons | apps/box/src/graph/gql-engine/orbit/orbit-filter.ts:22-34 | on two numbers the six comparisons are those of numbers |
| Filter.TextComparisons | apps/box/src/graph/gql-engine/orbit/orbit-filter.ts:22-34 | on two strings they are decided at the first place where the strings differ |
| Filter.UnlikeComparisons | apps/box/src/graph/gql-engine/orbit/orbit-filter.ts:22-34 | on operands of unlike types, and on lists, they are the coercing ones |
| Filter.LeafOperators | apps/box/src/graph/gql-engine/orbit/orbit-filter.ts:11-46 | a leaf holds where each operator of each field holds alone, and throws where one throws alone |
| Filter.AndOr | apps/box/src/graph/gql-engine/orbit/orbit-filter.ts:61-69 | and holds where all its filters hold, or where one does, and both throw where one throws |
| Filter.ThrowsEverywhereOrNowhere | apps/box/src/graph/gql-engine/orbit/orbit-filter.ts:45-69 | no short circuit: a filter throws on one document if and only if it throws on every document, and then the same |
| Filter.LeafIsConjunction | apps/box/src/graph/gql-engine/orbit/orbit-filter.ts:11-46 | a leaf with many fields and operators is the "and" of its single-operator leaves, errors included |
| Filter.DollarThrowsIff | apps/box/src/graph/gql-engine/types.ts:36-44 | a declared "$and" or "$or" is read as a field: it throws if and only if its array is not empty, and holds of every document if it is |
| Filter.DollarAgreesIff | apps/box/src/graph/gql-engine/types.ts:28-44 | it does what the operator without the dollar does if and only if it is an empty "$and" or that operator throws the very same |
| DocStore.PutKeyed | apps/box/src/graph/gql-engine/orbit/orbit-resolvers.ts:70-72 | a put replaces the document of its _id in place or adds one, and no _id comes twice |
| DocStore.QueryMeans | apps/box/src/graph/gql-engine/orbit/orbit-resolvers.ts:64 | a query fails if and only if the filter throws on some document of the collection; otherwise it gives exactly the documents the filter means |
| DocStore.QueryInOrder | apps/box/src/graph/gql-engine/orbit/orbit-resolvers.ts:64 | the documents of a query stand in it in the order of the store, each once for its place, and those are all that the filter means |
| DocStore.UpdatesMembers | apps/box/src/graph/gql-engine/orbit/orbit-resolvers.ts:66-69 | the documents to put are exactly the matching ones with the value spread over them |
| DocStore.UpdatesInOrder | apps/box/src/graph/gql-engine/orbit/orbit-resolvers.ts:66-74 | the documents put and given back are one for every match, in the order of the store, each with the keys of both and the contents of the value: with an _id in the value or without |
| DocStore.PutsLandInAnyOrder | apps/box/src/graph/gql-engine/orbit/orbit-resolvers.ts:70-73 | if the value carries no _id, the concurrent puts give one and the same store in every order in which they land |
| DocStore.UpdateChangesMatchesOnly | apps/box/src/graph/gql-engine/orbit/orbit-resolvers.ts:62-76 | exactly the matching documents change, exactly in the value's fields, each under its own _id |
| DocStore.IdempotentIff | apps/box/src/graph/gql-engine/orbit/orbit-resolvers.ts:62-76 | for every store, filter and value: doing updateQuery twice, with the puts of each time landing in any order, leaves what the first time left, even when the update changes which documents match, if and only if the value carries no _id or the puts are all of one document |
| DocStore.IdInValueIsNotIdempotent | apps/box/src/graph/gql-engine/orbit/orbit-resolvers.ts:62-76 | for any value that carries an _id there is a store that a second updateQuery changes |
| DocStore.IdInValueMakesOrderMatter | apps/box/src/graph/gql-engine/orbit/orbit-resolvers.ts:66-73 | for any value that carries an _id there is a store on which two orders of landing leave different stores |
| DocStore.OneResultIff | apps/box/src/graph/gql-engine/orbit/orbit-resolvers.ts:62-76 | for every store, filter and value: all orders of landing give one store if and only if the value carries no _id or all puts are of one and the same document |
| DocStore.Collection.DbPut | apps/box/src/graph/gql-engine/orbit/orbit-resolvers.ts:70 | refines Put on the collection |
| DocStore.Collection.DbQuery | apps/box/src/graph/gql-engine/orbit/orbit-resolvers.ts:64 | the scan gives Query of the collection, throwing at the first document the filter throws on |
| DocStore.Collection.UpdateQuery | apps/box/src/graph/gql-engine/orbit/orbit-resolvers.ts:62-76 | for any value, document i of the result is found document i with the value spread over it; puts that land one by one in any order leave what some order of all of them leaves, and with no _id in the value the one updated store; a refused filter changes nothing |
| Subscription.SelectionLaws | apps/box/src/graph/gql-engine/index.ts:18-23 | a selection is of a set of fields: order and repetition do not show, selecting twice is selecting once, and two selections can be made in either order |
| Subscription.Selector | apps/box/src/graph/gql-engine/index.ts:12-29 | row i has exactly the selected fields that document i has, with its contents |
| Subscription.StepServes | apps/box/src/graph/index.ts:124-150 | every event keeps the queue holding the answers behind the first one, in order |
| Subscription.RunPasses | apps/box/src/graph/index.ts:124-150 | so it is in every run, wherever the changes fall, before the first yield included |
| Subscription.StreamsTheAnswers | apps/box/src/graph/index.ts:124-150 | in every run the stream is a prefix of the answer at registration followed by one answer for each change since, each for the store of its moment; it never ends or fails |
| Subscription.StreamCatchesUp | apps/box/src/graph/index.ts:140-145 | a client that keeps asking receives all of them |
| Subscription.AnsweredUnlessThrown | apps/box/src/graph/gql-engine/orbit/orbit-resolvers.ts:18-29 | a change is answered if and only if the compiled filter throws on no document of the collection, and the answer holds the projections of exactly the documents the filter means, in store order |
| Subscription.AnswerInOrder | apps/box/src/graph/gql-engine/index.ts:15-24 | the rows of an answer are one for every document that the filter means, in the order of the store, each with exactly the selected fields that its document has |
| Subscription.AnswersOfChanges | apps/box/src/graph/gql-engine/orbit/orbit-resolvers.ts:18-29 | a subscription registered between changes is answered for the store that it finds, and then for the store that each later change leaves |
| Subscription.AnsweredUnlessRefused | apps/box/src/graph/gql-engine/orbit/orbit-resolvers.ts:18-29 | so a change is answered if and only if the filter is not refused or the collection is empty |
| Subscription.Service.constructor | apps/box/src/graph/index.ts:133 | a fresh queue, nothing served |
| Subscription.Service.Execute | apps/box/src/graph/gql-engine/index.ts:46-62 | refines the registration and the first answer |
| Subscription.Service.OnEvent | apps/box/src/graph/gql-engine/orbit/orbit-resolvers.ts:18-22 | refines onChange: query the store as it is now, project, push |
| Subscription.Service.Begin | apps/box/src/graph/index.ts:138 | refines the first yield |
| Subscription.Service.Pull | apps/box/src/graph/index.ts:140 | refines a request of the client |
| Subscription.Service.Continue | apps/box/src/graph/index.ts:140-145 | refines the resumption of the loop |
| Upload.AddThenCat | apps/box/src/file/index.ts:34-37 | unless two contents at hand share an address, cat of an added content is that content, and an addition changes nothing that is stored |
| Upload.RetrievesIff | apps/box/src/file/index.ts:9-30 | retrieval gives something exactly for the id of a stored File that has it: any other id, bytes that are no File and a path to nothing give nothing |
| Upload.StepHolds | protocols/file/src/handlers/index.ts:12-34 | every step of stream, handler, subject, box and other writers keeps the upload invariant: what the box has read is what the tail of the stream yielded since the box subscribed, and what it stored is all of that |
| Upload.ContentIsWhole | protocols/file/src/handlers/save.ts:23-28 | when the content stream ends, the box has read every chunk published behind its getContent() |
| Upload.RunHolds | protocols/file/src/handlers/index.ts:12-34 | the invariant holds in every run |
| Upload.DeclaredUploadIsRetrieved | apps/box/src/file/index.ts:9-42 | under every interleaving, whatever else is stored before, meanwhile or after, the declared id retrieves the sent Meta and exactly the chunks published behind getContent() |
| Upload.WholeIffNothingMissed | apps/box/src/file/index.ts:20-42 | what is retrieved is all that was sent if and only if the chunks published before getContent() hold no byte |
| Upload.PromptMissesNothing | apps/box/src/file/index.ts:31-36 | a box that calls getContent() in the turn in which it is told of the file misses no chunk |
| Upload.PromptUploadIsWhole | apps/box/src/file/index.ts:9-42 | so the declared id of every upload retrieves the sent Meta and all the bytes sent behind it |
| Upload.UnheardUploadIsLost | protocols/file/src/handlers/save.ts:9-29 | incomingFiles is hot: of an upload published before the box has registered nothing is ever stored and no id is ever declared, whatever comes later |
| Upload.DeclarableIffHeard | protocols/file/src/handlers/save.ts:19-32 | an upload can still come to be declared if and only if the box had registered before it was published |
| Upload.ReadUploadIsDeclared | protocols/file/src/handlers/save.ts:23-32 | once the stream has ended, readers that keep asking bring what the box has subscribed to to a declared id, within stated numbers of rounds |
| Upload.ReadUploadCompletes | protocols/file/src/handlers/save.ts:19-32 | from every reachable state in which the box has subscribed, the stream can end and the upload be declared, with nothing stored but its content and its record |
| Upload.EveryUploadCanBeDeclared | protocols/file/src/handlers/save.ts:19-32 | for every Meta and every chunks there is a run of a prompt box that declares exactly that upload |
| Upload.ContentSubject.Subscribe | protocols/file/src/handlers/save.ts:22 | a fresh queue for the content, completed at once if the subject has completed |
| Upload.ContentSubject.Next | protocols/file/src/handlers/save.ts:25 | reaches the subscriber if there is one, otherwise the chunk is lost |
| Upload.ContentSubject.Complete | protocols/file/src/handlers/save.ts:28 | the same for the completion |
| EndToEnd.EncryptedUploadComesBack | libraries/fula-client/src/index.ts:145-179 | an encrypted file, uploaded under any interleaving and retrieved by its declared id, is decrypted to the file, followed by 16384-r bytes of its own padding exactly when r = size mod 16384 is 16368 or more |
| EndToEnd.UploadsExist | apps/box/src/file/index.ts:9-42 | for every Meta and messages there are an address function, a store and a run that meet the assumptions of the results beside it |
| EndToEnd.PlainUploadComesBack | libraries/fula-client/src/index.ts:127-137 | a file sent without a key is retrieved as it is |
| EndToEnd.SlicedUploadComesBackIff | libraries/rn-fula/src/webview-fula/index.ts:15-17 | a file sliced as base64 by the React Native client, parsed on the other side of the bridge, passed through observableToAsyncGenerator and uploaded, is retrieved byte for byte if and only if the generator was in step with the bridge |

## Left out

- StructCodec.ReadStruct: a property new to an object comes last; JavaScript lists integer-like keys before all others, and `__proto__` is special. What is proved of objects as maps does not depend on it.
- StructCodec.ReadValue: messages are values that are passed in and returned, so that a target half overwritten when a read throws, and an object shared by two messages, do not appear. The same holds for the other readers.
- JsonMapping.JsonThroughResult: the step between a Result and its JSON object is protobuf-ts reflection, which is not part of this model; the way of the Value inside it is.
- Filter.CompiledAgrees: NaN, and filter values outside the declared strings, numbers and arrays of these.
- Subscription.StreamsTheAnswers: a first query that fails is one item of the stream; whether its error object has a JSON form is left to graphql.
- Upload.DeclaredUploadIsRetrieved: uploads only; a meta or receive request leaves the machine in NotAnUpload.
- Partition.PartitionsTheSource: sources that throw; the pump then stops and neither stream ends.
- EndToEnd.SlicedUploadComesBackIff: the client's side of the bridge, which posts one CHUNK for each slice, and the event emitter between the two sides; the emissions that reach the generator's observer are taken to be the parsed slices.
- Upload.ContentSubject.Subscribe: a second observer of incomingFiles or of one content; the box makes one of each.
- Storage of unknown fields, UTF-8 validation, IEEE doubles.
- AES itself, the generation of keys, and everything in libraries/fula-sec.
- The resolvers create, update, delete and readSubscribe: maps over put, del and query, without a property beyond those of DocStore.
- graphql's parsing and execution, and the operations of a document behind its first definition.
- The open-dbs announcements and the peers check of loadDB: the announcing condition compares an array with 0, so the intended behaviour is not decided by the code.
- The dispatch of calls over the bridge, its error events, and streams that are listened to too late.
- valueAt, lastValue and concurrently of async-later, and the case split of toAsyncIterable beyond observables.
- FulaConnection, peer discovery, wifi scripts, the user interface.

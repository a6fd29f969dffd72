/** One file's whole way: cut and perhaps encrypted by its sender, uploaded through the file
    protocol, stored by the box, retrieved by the declared id and put together again. */
module EndToEnd {
  import opened Wire
  import opened Sequences
  import opened ChunkedEncryption
  import Base64
  import BridgeFraming
  import FileSchema
  import ObservableAdaptor
  import Upload

  // A run of a prompt box in which it declared an upload of these messages, and in which no two
  // contents that were ever stored share an address.
  ghost predicate Uploaded(address: Upload.Address, blocks: Upload.Blocks, evs: seq<Upload.Event>,
                           meta: FileSchema.Meta, parts: seq<Bytes>)
  {
    && Upload.Addressed(address, blocks) && Upload.Prompt(address, blocks, evs)
    && FileSchema.FitsRequest(FileSchema.Send(meta))
    && var s := Upload.Run(address, blocks, evs);
       && s.phase.Declared? && Upload.CollisionFree(address, s.contents)
       && s.parts.input == [FileSchema.EncRequest(FileSchema.Send(meta))] + parts
  }

  // An address function that tells one content from all others.
  function Singling(content: Bytes): Upload.Address {
    b => if b == content then [0] else [1]
  }

  lemma SinglingServes(content: Bytes, meta: FileSchema.Meta)
    ensures Upload.ShortAddresses(Singling(content))
    ensures Upload.CollisionFree(Singling(content), {} + Upload.UploadContents(Singling(content), meta, content))
  {
    hide FileSchema.EncFile;
  }

  /** The assumptions can be met: there is such a run for every Meta and every messages. */
  lemma UploadsExist(meta: FileSchema.Meta, parts: seq<Bytes>)
    requires FileSchema.FitsRequest(FileSchema.Send(meta))
    ensures exists address, blocks, evs :: Uploaded(address, blocks, evs, meta, parts)
  {
    var address, blocks: Upload.Blocks := Singling(Flatten(parts)), map[];
    assert Upload.Addressed(address, blocks) && blocks.Values == {};
    SinglingServes(Flatten(parts), meta);
    hide Upload.Addressed, Singling;
    var evs := Upload.EveryUploadCanBeDeclared(address, blocks, meta, parts);
    hide *;
    IsUploaded(address, blocks, evs, meta, parts);
  }

  lemma IsUploaded(address: Upload.Address, blocks: Upload.Blocks, evs: seq<Upload.Event>,
                   meta: FileSchema.Meta, parts: seq<Bytes>)
    requires Upload.Addressed(address, blocks) && Upload.Prompt(address, blocks, evs)
    requires FileSchema.FitsRequest(FileSchema.Send(meta))
    requires var s := Upload.Run(address, blocks, evs);
             && s.phase.Declared? && Upload.CollisionFree(address, s.contents)
             && s.parts.input == [FileSchema.EncRequest(FileSchema.Send(meta))] + parts
    ensures Uploaded(address, blocks, evs, meta, parts)
  {
    hide Upload.Run, Upload.Prompt, Upload.CollisionFree, Upload.Addressed;
    hide FileSchema.EncRequest, FileSchema.FitsRequest;
  }

  lemma UploadedIsRetrieved(address: Upload.Address, blocks: Upload.Blocks, evs: seq<Upload.Event>,
                            meta: FileSchema.Meta, parts: seq<Bytes>)
    requires Uploaded(address, blocks, evs, meta, parts)
    ensures var s := Upload.Run(address, blocks, evs);
            && Upload.RetrieveMeta(s.blocks, s.phase.id) == Some(meta)
            && Upload.RetrieveContent(s.blocks, s.phase.id) == Some(Flatten(parts))
  {
    hide Upload.Run, Upload.Prompt, Upload.CollisionFree, Flatten, FileSchema.EncRequest, FileSchema.FitsRequest;
    hide Upload.RetrieveContent, Upload.RetrieveMeta, Upload.Addressed;
    Upload.PromptUploadIsWhole(address, blocks, evs, meta);
    var s := Upload.Run(address, blocks, evs);
    assert s.parts.input[1..] == parts;
  }

  /** An encrypted file comes back from the box, under every interleaving of its upload, followed
      by the bytes of its own padding exactly when its size modulo 16384 is 16368 or more. */
  lemma EncryptedUploadComesBack(address: Upload.Address, blocks: Upload.Blocks, evs: seq<Upload.Event>,
                                 meta: FileSchema.Meta, c: Cipher, iv: Block, file: Bytes)
    requires Decrypts(c) && Uploaded(address, blocks, evs, meta, SendFrom(Some(c), iv, file, 0))
    ensures var s := Upload.Run(address, blocks, evs);
            var content, r := Upload.RetrieveContent(s.blocks, s.phase.id), |file| % 16384;
            && Upload.RetrieveMeta(s.blocks, s.phase.id) == Some(meta) && content.Some?
            && ReceiveFrom(c, iv, content.value, 0)
               == Success(if r < 16368 then file else file + seq(16384 - r, i => 16384 - r))
  {
    UploadedIsRetrieved(address, blocks, evs, meta, SendFrom(Some(c), iv, file, 0));
    ReceiveAfterSend(c, iv, file);
  }

  /** Without a key the box retrieves the file itself. */
  lemma PlainUploadComesBack(address: Upload.Address, blocks: Upload.Blocks, evs: seq<Upload.Event>,
                             meta: FileSchema.Meta, iv: Block, file: Bytes)
    requires Uploaded(address, blocks, evs, meta, SendFrom(None, iv, file, 0))
    ensures var s := Upload.Run(address, blocks, evs);
            && Upload.RetrieveMeta(s.blocks, s.phase.id) == Some(meta)
            && Upload.RetrieveContent(s.blocks, s.phase.id) == Some(file)
  {
    UploadedIsRetrieved(address, blocks, evs, meta, SendFrom(None, iv, file, 0));
    PlainBlocksJoin(iv, file, 0);
    assert file[0..] == file;
  }

  // base64.parse of every CHUNK.
  function ParseEach(slices: seq<string>): (parts: seq<Bytes>) {
    if slices == [] then []
    else match Base64.Decode(slices[0])
         case Failure => []
         case Success(part) => [part] + ParseEach(slices[1..])
  }

  lemma {:induction false} ParseEachJoins(slices: seq<string>)
    requires BridgeFraming.DecodeAll(slices).Success?
    ensures Flatten(ParseEach(slices)) == BridgeFraming.DecodeAll(slices).value
  {
    if slices != [] {
      ParseEachJoins(slices[1..]);
      FlattenCons(Base64.Decode(slices[0]).value, ParseEach(slices[1..]));
    }
  }

  lemma {:induction false} ParsedPartsAreNotEmpty(slices: seq<string>)
    requires BridgeFraming.DecodeAll(slices).Success? && forall i :: 0 <= i < |slices| ==> slices[i] != []
    ensures forall i :: 0 <= i < |ParseEach(slices)| ==> ParseEach(slices)[i] != []
  {
    if slices != [] {
      ParsedPartsAreNotEmpty(slices[1..]);
      DecodesToSomething(slices[0]);
    }
  }

  lemma DecodesToSomething(t: string)
    requires t != [] && Base64.Decode(t).Success?
    ensures Base64.Decode(t).value != []
  {
    hide Base64.SextetOf, Base64.First, Base64.Second, Base64.Third;
  }

  lemma FlattenSnoc(parts: seq<Bytes>)
    requires parts != []
    ensures Flatten(parts) == Flatten(parts[..|parts| - 1]) + parts[|parts| - 1]
  {
    var init, last := parts[..|parts| - 1], parts[|parts| - 1];
    FlattenConcat(init, [last]);
    assert parts == init + [last];
    assert Flatten([last]) == last + Flatten([last][1..]) == last;
  }

  // Fewer picks from parts that are not empty make fewer bytes.
  lemma {:induction false} FewerPartsAreShorter(picks: seq<nat>, from: seq<Bytes>, values: seq<Bytes>)
    requires ObservableAdaptor.Picks(picks, from, values)
    requires forall i :: 0 <= i < |from| ==> from[i] != []
    ensures |values| <= |from|
    ensures |values| < |from| ==> |Flatten(values)| < |Flatten(from)|
    ensures |values| == |from| ==> |Flatten(values)| == |Flatten(from)|
    decreases |from|
  {
    hide Flatten;
    if from == [] {
      assert values == [];
    } else {
      var n, k := |from| - 1, |picks| - 1;
      FlattenSnoc(from);
      if picks != [] && picks[k] == n {
        FlattenSnoc(values);
        FewerPartsAreShorter(picks[..k], from[..n], values[..k]);
      } else {
        FewerPartsAreShorter(picks, from[..n], values);
      }
    }
  }

  /** A file that a React Native client reads as base64 slices, each parsed on the other side of
      the bridge, passed through the observable's generator and uploaded as a chunk, is retrieved
      byte for byte exactly when the generator was in step with the bridge. */
  lemma SlicedUploadComesBackIff(address: Upload.Address, blocks: Upload.Blocks, evs: seq<Upload.Event>,
                                 meta: FileSchema.Meta, file: Bytes, emissions: seq<ObservableAdaptor.Event<Bytes>>)
    requires ObservableAdaptor.Emitted(emissions)
          == ParseEach(BridgeFraming.Cut(Base64.Encode(file), 1048576))
    requires ObservableAdaptor.Run(emissions).body.Ended?
    requires Uploaded(address, blocks, evs, meta, ObservableAdaptor.Run(emissions).yielded)
    ensures var s := Upload.Run(address, blocks, evs);
            && Upload.RetrieveMeta(s.blocks, s.phase.id) == Some(meta)
            && (Upload.RetrieveContent(s.blocks, s.phase.id) == Some(file) <==> ObservableAdaptor.InStep(emissions))
  {
    var slices := BridgeFraming.Cut(Base64.Encode(file), 1048576);
    var sent := ObservableAdaptor.Run(emissions).yielded;
    UploadedIsRetrieved(address, blocks, evs, meta, sent);
    BridgeFraming.DefaultSlicesDecode(file);
    BridgeFraming.CutCovers(Base64.Encode(file), 1048576);
    ParseEachJoins(slices);
    ParsedPartsAreNotEmpty(slices);
    ObservableAdaptor.YieldsAllIffInStep(emissions);
    ObservableAdaptor.YieldsSubsequence(emissions);
    hide *;
    AllOrShorter(ObservableAdaptor.Taken(emissions), ParseEach(slices), sent);
  }

  lemma AllOrShorter(picks: seq<nat>, from: seq<Bytes>, values: seq<Bytes>)
    requires ObservableAdaptor.Picks(picks, from, values)
    requires forall i :: 0 <= i < |from| ==> from[i] != []
    ensures Flatten(values) == Flatten(from) <==> values == from
  {
    FewerPartsAreShorter(picks, from, values);
    hide Flatten;
    if |values| == |from| {
      ObservableAdaptor.AllPicked(picks, from, values);
    }
  }
}

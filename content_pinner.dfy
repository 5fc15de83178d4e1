/// The content pinner of the current generation: a `Pinner` adds content to
/// an IPFS node and pins it, locally or on the first connected remote pinning
/// service, and fetches it back by CID; `pinToLocal` and `pinToProvider` make
/// processors out of a pinner's two halves.
module ContentPinner {
  import opened Values
  import opened Ipfs
  import Template
  import Rows
  import Processor

  const DefaultWhere := "local"

  /** Options for creating the client, passed through without being looked at. */
  type Options = map<string, string>

  /** The host's UTF-8 conversions: `TextEncoder.encode` and `Buffer.from(data).toString("utf8")`. */
  datatype Utf8 = Utf8(encode: string -> seq<byte>, decode: seq<byte> -> string)

  /** `#_getRemotePinningService` on a listing: its first service, or the no-service error. */
  function FirstService(listing: Result<seq<Service>>): (r: Result<Service>)
    ensures r.Success? <==> listing.Success? && |listing.value| > 0
    ensures r.Success? ==> r.value == listing.value[0]
    ensures listing.Success? && listing.value == [] ==> r == Failure(Error(NoServiceMessage))
    ensures listing.Failure? ==> r == Failure(listing.error)
  {
    match listing
    case Failure(e) => Failure(e)
    case Success(services) => if |services| < 1 then Failure(Error(NoServiceMessage)) else Success(services[0])
  }

  /** What fetching a CID resolves to: the streamed chunks concatenated in order, then decoded. */
  function Decoded(utf8: Utf8, stream: Result<seq<seq<byte>>>): Result<Value> {
    match stream
    case Failure(e) => Failure(e)
    case Success(chunks) => Success(Str(utf8.decode(Concat(chunks))))
  }

  class Pinner {
    const ipfsOptions: Options
    const ipfs: Store
    /** "local", or anything else for the first remote pinning service. */
    const where: string
    const utf8: Utf8

    /**
     * `new Pinner(ipfsOptions = {}, where = "local")`: an argument that is
     * left out takes its default. The client `IPFS.create(ipfsOptions)` makes
     * is given as `ipfs`.
     */
    constructor (ipfsOptions: Option<Options>, where: Option<string>, ipfs: Store, utf8: Utf8)
      ensures this.ipfsOptions == (if ipfsOptions.Some? then ipfsOptions.value else map[])
      ensures this.where == (if where.Some? then where.value else DefaultWhere)
      ensures this.ipfs == ipfs && this.utf8 == utf8
    {
      this.ipfsOptions := if ipfsOptions.Some? then ipfsOptions.value else map[];
      this.where := if where.Some? then where.value else DefaultWhere;
      this.ipfs := ipfs;
      this.utf8 := utf8;
    }

    /** What `pin` hands to `add`: a string UTF-8-encoded, any other content as it is, as a file with no path. */
    function UploadOf(content: Value): (upload: Upload)
      ensures upload.content == if content.Str? then Bytes(utf8.encode(content.s)) else content
      ensures upload.path == "" && !upload.wrapWithDirectory
      ensures content.Str? ==> Addable(upload.content)
    {
      Upload(if content.Str? then Bytes(utf8.encode(content.s)) else content, "", false)
    }

    /** The outcome of the try block of the remote branch, given the remote pins made so far. */
    function RemoteAttempt(pins: seq<RemotePin>, cid: Cid): Result<()> {
      match FirstService(ipfs.Listing())
      case Failure(e) => Failure(e)
      case Success(s) => ipfs.RemoteOutcome(pins, RemotePin(cid, s.service, PinName))
    }

    /** What a successful `pin` of the content returns: the v1 CID text of its upload. */
    function PinnedText(content: Value): string {
      ipfs.V1Text(ipfs.address(UploadOf(content)))
    }

    /** How `pin` ends once the content is added: the local pin, or the remote branch with its catch. */
    function PinVerdict(): (r: Result<()>)
      ensures where == "local" ==> r == ipfs.PinOutcome()
      ensures where != "local" && ipfs.Listing() == Success([]) ==> r == Failure(Error(NoServiceMessage))
      ensures (&& where != "local" && ipfs.faults.remote.None?
               && ipfs.Listing().Success? && ipfs.services != []) ==> r.Success?
    {
      if where == "local" then ipfs.PinOutcome()
      else
        NoServiceIsNotDuplicate();
        match FirstService(ipfs.Listing())
        case Failure(e) => Tolerate(Failure(e))
        case Success(_) => ipfs.RemoteVerdict()
    }

    /**
     * What `pin` of the content settles to. It does not depend on what the
     * node holds already: in remote mode a second pin of the same CID is a
     * duplicate, which the catch forgives.
     */
    function PinResult(content: Value): (r: Result<string>)
      ensures r.Success? ==> r.value == PinnedText(content)
      ensures ipfs.AddOutcome(UploadOf(content)).Failure? ==> r == Failure(ipfs.AddOutcome(UploadOf(content)).error)
      ensures ipfs.AddOutcome(UploadOf(content)).Success? ==>
        (r.Success? <==> PinVerdict().Success?) && (r.Failure? ==> r.error == PinVerdict().error)
    {
      match ipfs.AddOutcome(UploadOf(content))
      case Failure(e) => Failure(e)
      case Success(cid) =>
        if PinVerdict().Success? then Success(ipfs.V1Text(cid)) else Failure(PinVerdict().error)
    }

    /** The calls `pin` of the content makes, in order. */
    function PinTrace(content: Value): seq<Call> {
      var upload := UploadOf(content);
      var cid := ipfs.address(upload);
      var remote :=
        if FirstService(ipfs.Listing()).Success?
        then [Call.RemoteAdd(RemotePin(cid, ipfs.services[0].service, PinName))] else [];
      var pinning :=
        if ipfs.AddOutcome(upload).Failure? then []
        else if where == "local" then [Call.PinAdd(cid)]
        else [Call.ServiceLs] + remote;
      [Call.Add(upload)] + pinning
    }

    /** The node after `pin` of the content. */
    function AfterPin(n: Node, content: Value): Node {
      var upload := UploadOf(content);
      var cid := ipfs.address(upload);
      var added := ipfs.Added(n, upload);
      if ipfs.AddOutcome(upload).Failure? then added
      else if where == "local" then ipfs.PinnedLocally(added, cid)
      else if FirstService(ipfs.Listing()).Failure? then ipfs.Listed(added)
      else ipfs.PinnedRemotely(ipfs.Listed(added), RemotePin(cid, ipfs.services[0].service, PinName))
    }

    /** The branches of `pin`, read off `PinResult` and `AfterPin`: add first, then a local or a remote pin. */
    lemma PinBranches(n: Node, content: Value)
      ensures var upload := UploadOf(content);
        AfterPin(n, content).blocks == if ipfs.AddOutcome(upload).Success?
                                       then n.blocks[ipfs.V1Text(ipfs.address(upload)) := Chunks(BytesOf(upload.content))]
                                       else n.blocks
      ensures var upload := UploadOf(content); var after := AfterPin(n, content);
        ipfs.AddOutcome(upload).Failure? ==>
          && PinResult(content) == Failure(ipfs.AddOutcome(upload).error)
          && after.calls == n.calls + [Call.Add(upload)]
          && after.localPins == n.localPins && after.remotePins == n.remotePins
      ensures var upload := UploadOf(content); var cid := ipfs.address(upload); var after := AfterPin(n, content);
        ipfs.AddOutcome(upload).Success? && where == "local" ==>
          && after.calls == n.calls + [Call.Add(upload), Call.PinAdd(cid)]
          && after.localPins == (if ipfs.PinOutcome().Success? then n.localPins + [cid] else n.localPins)
          && after.remotePins == n.remotePins
          && PinResult(content) == (if ipfs.PinOutcome().Success? then Success(ipfs.V1Text(cid)) else Failure(ipfs.PinOutcome().error))
      ensures var upload := UploadOf(content); var cid := ipfs.address(upload); var after := AfterPin(n, content);
        ipfs.AddOutcome(upload).Success? && where != "local" ==>
          && after.calls == n.calls + [Call.Add(upload), Call.ServiceLs]
               + (if FirstService(ipfs.Listing()).Success?
                  then [Call.RemoteAdd(RemotePin(cid, ipfs.services[0].service, PinName))] else [])
          && after.localPins == n.localPins
          && after.remotePins == (if RemoteAttempt(n.remotePins, cid).Success?
                                  then n.remotePins + [RemotePin(cid, ipfs.services[0].service, PinName)]
                                  else n.remotePins)
          && PinResult(content) == (if Tolerate(RemoteAttempt(n.remotePins, cid)).Success? then Success(ipfs.V1Text(cid))
                                    else Failure(RemoteAttempt(n.remotePins, cid).error))
    {
      var upload := UploadOf(content);
      if ipfs.AddOutcome(upload).Success? && where != "local" && FirstService(ipfs.Listing()).Success? {
        ipfs.RemoteVerdictIgnoresPins(n.remotePins, RemotePin(ipfs.address(upload), ipfs.services[0].service, PinName));
      }
    }

    /** `pin` appends its calls, adds only the content's blocks and pins only its CID. */
    lemma AfterPinExtends(n: Node, content: Value)
      ensures AfterPin(n, content).calls == n.calls + PinTrace(content)
      ensures Extends(n, AfterPin(n, content), {PinnedText(content)}, {ipfs.address(UploadOf(content))})
    {
    }

    /** `pin` as the processor's custom transform: the CID text, as a string value. */
    function Transform(): Value -> Result<Value> {
      (v: Value) => match PinResult(v) case Failure(e) => Failure(e) case Success(text) => Success(Str(text))
    }

    /** How the processor's map treats a value when `pin` is its custom transform. */
    lemma ProcessedByPin(value: Value)
      ensures Processor.ProcessValue(Transform(), value) ==
        if value.Null? then Failure(TypeError(Processor.NullPropertyMessage))
        else if value.Marker? then Success(value.original)
        else PinResult(value)
    {
    }

    /** The processor `pinToLocal` and `pinToProvider` build: `createProcessor(pin, resolveCid)`. */
    function AsProcessor(): Processor.Processor
      reads ipfs
    {
      Processor.Processor(Transform(), Resolver())
    }

    /** What `prepare` does to the node for one interpolated value: a marker or null is never pinned. */
    function Step(): (Node, Value) -> Node {
      (n: Node, v: Value) => if v.Null? || v.Marker? then n else AfterPin(n, v)
    }

    function StepTrace(): Value -> seq<Call> {
      (v: Value) => if v.Null? || v.Marker? then [] else PinTrace(v)
    }

    /** Each step of `prepare` appends the calls of its value's pin, and no other. */
    lemma StepAppendsTrace()
      ensures forall m: Node, v: Value :: Step()(m, v).calls == m.calls + StepTrace()(v)
    {
      forall m: Node, v: Value
        ensures Step()(m, v).calls == m.calls + StepTrace()(v)
      {
        if !(v.Null? || v.Marker?) {
          AfterPinExtends(m, v);
        }
      }
    }

    /** Each step of `prepare` adds only its value's content and pins only its value's CID. */
    lemma StepOnlyAdds()
      ensures forall m: Node, v: Value :: Extends(m, Step()(m, v), StepKeys()(v), StepCids()(v))
    {
      forall m: Node, v: Value
        ensures Extends(m, Step()(m, v), StepKeys()(v), StepCids()(v))
      {
        if !(v.Null? || v.Marker?) {
          AfterPinExtends(m, v);
        }
      }
    }

    /** What the steps of `prepare` make of the node, taken together. */
    lemma Folded(start: Node, values: seq<Value>)
      ensures Fold(start, values, Step()).calls == start.calls + Traces(values, StepTrace())
      ensures Extends(start, Fold(start, values, Step()), Union(values, StepKeys()), Union(values, StepCids()))
      ensures (forall i | 0 <= i < |values| :: values[i].Null? || values[i].Marker?) ==> Fold(start, values, Step()) == start
    {
      StepAppendsTrace();
      FoldCalls(start, values, Step(), StepTrace());
      StepOnlyAdds();
      FoldExtends(start, values, Step(), StepKeys(), StepCids());
      if forall i | 0 <= i < |values| :: values[i].Null? || values[i].Marker? {
        FoldSkips(start, values, Step());
      }
    }

    function StepKeys(): Value -> set<string> {
      (v: Value) => if v.Null? || v.Marker? then {} else {PinnedText(v)}
    }

    function StepCids(): Value -> set<Cid> {
      (v: Value) => if v.Null? || v.Marker? then {} else {ipfs.address(UploadOf(v))}
    }

    /** `resolveCid` as a transform over the content the node holds now. */
    function Resolver(): Value -> Result<Value>
      reads ipfs
    {
      var blocks, fault, utf8 := ipfs.blocks, ipfs.faults.cat, utf8;
      (cid: Value) => Decoded(utf8, CatFrom(blocks, fault, cid))
    }

    /** `#_getRemotePinningService` */
    method RemotePinningService() returns (r: Result<Service>)
      modifies ipfs`calls
      ensures ipfs.calls == old(ipfs.calls) + [Call.ServiceLs]
      ensures ipfs.State() == ipfs.Listed(old(ipfs.State()))
      ensures r == FirstService(ipfs.Listing())
    {
      var pinningServices := ipfs.ServiceLs();
      if pinningServices.Failure? {
        return Failure(pinningServices.error);
      }
      if |pinningServices.value| < 1 {
        return Failure(Error(NoServiceMessage));
      }
      r := Success(pinningServices.value[0]);
    }

    /**
     * `pin(content)`: add the content, then pin its CID locally, or remotely on
     * the first listed service, tolerating a duplicate; return the v1 CID text.
     */
    method Pin(content: Value) returns (r: Result<string>)
      modifies ipfs`calls, ipfs`blocks, ipfs`localPins, ipfs`remotePins
      // the content is added first, whatever the mode
      ensures var upload := UploadOf(content);
        ipfs.blocks == if ipfs.AddOutcome(upload).Success?
                       then old(ipfs.blocks)[ipfs.V1Text(ipfs.address(upload)) := Chunks(BytesOf(upload.content))]
                       else old(ipfs.blocks)
      ensures var upload := UploadOf(content);
        ipfs.AddOutcome(upload).Failure? ==>
          && r == Failure(ipfs.AddOutcome(upload).error)
          && ipfs.calls == old(ipfs.calls) + [Call.Add(upload)]
          && ipfs.localPins == old(ipfs.localPins) && ipfs.remotePins == old(ipfs.remotePins)
      // local mode: one local pin of the added CID; the services are never listed
      ensures var upload := UploadOf(content); var cid := ipfs.address(upload);
        ipfs.AddOutcome(upload).Success? && where == "local" ==>
          && ipfs.calls == old(ipfs.calls) + [Call.Add(upload), Call.PinAdd(cid)]
          && ipfs.localPins == (if ipfs.PinOutcome().Success? then old(ipfs.localPins) + [cid] else old(ipfs.localPins))
          && ipfs.remotePins == old(ipfs.remotePins)
          && r == (if ipfs.PinOutcome().Success? then Success(ipfs.V1Text(cid)) else Failure(ipfs.PinOutcome().error))
      // remote mode: list the services, pin on the first one under the fixed name, tolerate a duplicate
      ensures var upload := UploadOf(content); var cid := ipfs.address(upload);
        ipfs.AddOutcome(upload).Success? && where != "local" ==>
          && ipfs.calls == old(ipfs.calls) + [Call.Add(upload), Call.ServiceLs]
               + (if FirstService(ipfs.Listing()).Success?
                  then [Call.RemoteAdd(RemotePin(cid, ipfs.services[0].service, PinName))] else [])
          && ipfs.localPins == old(ipfs.localPins)
          && ipfs.remotePins == (if RemoteAttempt(old(ipfs.remotePins), cid).Success?
                                 then old(ipfs.remotePins) + [RemotePin(cid, ipfs.services[0].service, PinName)]
                                 else old(ipfs.remotePins))
          && r == (if Tolerate(RemoteAttempt(old(ipfs.remotePins), cid)).Success? then Success(ipfs.V1Text(cid))
                   else Failure(RemoteAttempt(old(ipfs.remotePins), cid).error))
      ensures r.Success? ==> r.value == PinnedText(content)
      ensures r == PinResult(content)
      ensures ipfs.State() == AfterPin(old(ipfs.State()), content)
    {
      PinBranches(ipfs.State(), content);
      var upload := UploadOf(content);
      var added := ipfs.Add(upload);
      if added.Failure? {
        return Failure(added.error);
      }
      var cid := added.value;
      if where == "local" {
        var pinned := ipfs.PinAdd(cid);
        if pinned.Failure? {
          return Failure(pinned.error);
        }
      } else {
        ghost var pinsBefore := ipfs.remotePins;
        var attempt: Result<()>;
        var pinningService := RemotePinningService();
        if pinningService.Failure? {
          attempt := Failure(pinningService.error);
        } else {
          ipfs.RemoteVerdictIgnoresPins(pinsBefore, RemotePin(cid, pinningService.value.service, PinName));
          attempt := ipfs.RemoteAdd(RemotePin(cid, pinningService.value.service, PinName));
        }
        assert attempt == RemoteAttempt(pinsBefore, cid);
        if attempt.Failure? && !IsDuplicate(attempt.error) {
          return Failure(attempt.error);
        }
      }
      r := Success(ipfs.V1Text(cid));
    }

    /** `resolveCid(cid)`: the `cat` stream's chunks concatenated, in order, then decoded. */
    method ResolveCid(cid: Value) returns (r: Result<Value>)
      ensures r == Decoded(utf8, CatFrom(ipfs.blocks, ipfs.faults.cat, cid))
    {
      var stream := ipfs.Cat(cid);
      if stream.Failure? {
        return Failure(stream.error);
      }
      var chunks := stream.value;
      var data: seq<byte> := [];
      for i := 0 to |chunks|
        invariant data == Concat(chunks[..i])
      {
        assert chunks[..i + 1][..i] == chunks[..i];
        data := data + chunks[i];
      }
      assert chunks[..|chunks|] == chunks;
      r := Success(Str(utf8.decode(data)));
    }

    /**
     * The `values.map` callback of `prepare` with `pin` as the custom
     * transform: a null fails on reading the skip flag, a marker gives its
     * original, anything else is pinned.
     */
    /** The processor's map callback with `pin` as its custom transform. */
    function Outcome(): Value -> Result<string> {
      (v: Value) => Processor.ProcessValue(Transform(), v)
    }

    method ProcessOne(value: Value) returns (processed: Result<string>)
      modifies ipfs`calls, ipfs`blocks, ipfs`localPins, ipfs`remotePins
      ensures processed == Outcome()(value)
      ensures ipfs.State() == Step()(old(ipfs.State()), value)
    {
      ProcessedByPin(value);
      if value.Null? {
        processed := Failure(TypeError(Processor.NullPropertyMessage));
      } else if value.Marker? {
        processed := Success(value.original);
      } else {
        // `pin` only ever resolves to a string, so the processor's type check passes
        processed := Pin(value);
      }
    }

    /**
     * `Promise.all(values.map(...))` inside `prepare`: every value is
     * processed in template order, whatever fails, and the first failure is
     * kept.
     */
    method ProcessEach(values: seq<Value>) returns (processedValues: seq<string>, failure: Option<Exception>)
      modifies ipfs`calls, ipfs`blocks, ipfs`localPins, ipfs`remotePins
      ensures |processedValues| == |values|
      ensures ipfs.State() == Fold(old(ipfs.State()), values, Step())
      ensures failure.None? ==> forall j | 0 <= j < |values| ::
        Outcome()(values[j]) == Success(processedValues[j])
      ensures failure.Some? ==> exists k | 0 <= k < |values| ::
        && Outcome()(values[k]) == Failure(failure.value)
        && forall j | 0 <= j < k :: Outcome()(values[j]).Success?
    {
      ghost var start := ipfs.State();
      ghost var outcomes: seq<Result<string>> := [];
      processedValues := [];
      failure := None;
      for i := 0 to |values|
        invariant |processedValues| == i && |outcomes| == i
        invariant ipfs.State() == Fold(start, values[..i], Step())
        invariant forall j | 0 <= j < i :: outcomes[j] == Outcome()(values[j])
        invariant forall j | 0 <= j < i :: outcomes[j].Success? ==> processedValues[j] == outcomes[j].value
        invariant failure == FirstError(outcomes)
      {
        assert values[..i + 1][..i] == values[..i];
        var processed := ProcessOne(values[i]);
        assert (outcomes + [processed])[..i] == outcomes;
        if processed.Failure? && failure.None? {
          failure := Some(processed.error);
        }
        outcomes := outcomes + [processed];
        processedValues := processedValues + [if processed.Success? then processed.value else ""];
      }
      assert values[..|values|] == values;
    }

    /**
     * What the pinning processor's statement holds: each value's CID text, or
     * a skipped value's original, between its fragments; a null value sinks it.
     */
    lemma PinningStatement(strings: seq<string>, values: seq<Value>)
      ensures (exists i | 0 <= i < |values| :: values[i].Null?) ==> Processor.Prepare(AsProcessor(), strings, values).Failure?
      ensures Processor.Prepare(AsProcessor(), strings, values).Success? ==>
        Processor.Prepare(AsProcessor(), strings, values).value
          == Template.Interleave(strings, seq(|values|, i requires 0 <= i < |values| =>
               if values[i].Marker? then values[i].original else PinnedText(values[i])))
    {
      var p := AsProcessor();
      if Processor.Prepare(p, strings, values).Success? {
        var parts := Processor.Processed(p, values).value;
        forall i | 0 <= i < |values|
          ensures parts[i] == if values[i].Marker? then values[i].original else PinnedText(values[i])
        {
          assert Outcome()(values[i]) == Success(parts[i]);
        }
        assert parts == seq(|values|, i requires 0 <= i < |values| =>
          if values[i].Marker? then values[i].original else PinnedText(values[i]));
      }
    }

    /**
     * The processor's `prepare` with `pin` as its custom transform: a skip
     * marker passes, every other value is pinned (all of them, even after a
     * failure, as the pins run side by side) and its CID text substituted.
     */
    method Prepare(strings: seq<string>, values: seq<Value>) returns (r: Result<string>)
      modifies ipfs`calls, ipfs`blocks, ipfs`localPins, ipfs`remotePins
      ensures r == Processor.Prepare(AsProcessor(), strings, values)
      ensures (exists i | 0 <= i < |values| :: values[i].Null?) ==> r.Failure?
      ensures r.Success? ==>
        r.value == Template.Interleave(strings, seq(|values|, i requires 0 <= i < |values| =>
          if values[i].Marker? then values[i].original else PinnedText(values[i])))
      // every value but a marker or null is pinned, in template order, whatever fails
      ensures ipfs.State() == Fold(old(ipfs.State()), values, Step())
      ensures ipfs.calls == old(ipfs.calls) + Traces(values, StepTrace())
      ensures Extends(old(ipfs.State()), ipfs.State(), Union(values, StepKeys()), Union(values, StepCids()))
      ensures (forall i | 0 <= i < |values| :: values[i].Null? || values[i].Marker?) ==> ipfs.State() == old(ipfs.State())
    {
      ghost var start := ipfs.State();
      var processedValues, failure := ProcessEach(values);
      Folded(start, values);
      PinningStatement(strings, values);
      if failure.Some? {
        var k :| 0 <= k < |values|
          && Outcome()(values[k]) == Failure(failure.value)
          && forall j | 0 <= j < k :: Outcome()(values[j]).Success?;
        assert forall j | 0 <= j < k :: Processor.ProcessValue(Transform(), values[j]).Success?;
        Processor.PrepareFirstFailure(AsProcessor(), strings, values, k, failure.value);
        return Failure(failure.value);
      }
      assert forall j | 0 <= j < |values| :: Processor.ProcessValue(Transform(), values[j]) == Success(processedValues[j]);
      Processor.PrepareOfParts(AsProcessor(), strings, values, processedValues);
      var statement := Template.Zip(strings, processedValues);
      r := Success(statement);
    }

    /** The processor's `resolve` with `resolveCid` as its resolver. */
    method Resolve(resultSet: seq<Rows.Row>, keysToResolve: seq<string>) returns (r: Result<seq<Rows.Row>>)
      ensures r.Success? <==> forall i | 0 <= i < |resultSet| :: Rows.Resolvable(resultSet[i], keysToResolve, Resolver())
      ensures r.Success? ==>
        && |r.value| == |resultSet|
        && forall i | 0 <= i < |resultSet| :: Rows.ResolvedFrom(resultSet[i], r.value[i], keysToResolve, Resolver())
    {
      r := Rows.ResolveRows(resultSet, keysToResolve, Resolver());
    }
  }

  /** `pinToLocal(opts)`: a processor over a pinner that pins locally. */
  method PinToLocal(opts: Option<Options>, ipfs: Store, utf8: Utf8) returns (p: Pinner)
    ensures fresh(p) && p.where == "local" && p.ipfs == ipfs && p.utf8 == utf8
    ensures p.ipfsOptions == if opts.Some? then opts.value else map[]
  {
    p := new Pinner(opts, Some("local"), ipfs, utf8);
  }

  /** `pinToProvider(opts)`: a processor over a pinner that pins on a remote service. */
  method PinToProvider(opts: Option<Options>, ipfs: Store, utf8: Utf8) returns (p: Pinner)
    ensures fresh(p) && p.where == "provider" && p.ipfs == ipfs && p.utf8 == utf8
    ensures p.ipfsOptions == if opts.Some? then opts.value else map[]
  {
    p := new Pinner(opts, Some("provider"), ipfs, utf8);
  }

  /** `resolveCid` is the pinner's resolver: what the method returns is what `Resolver` gives. */
  method ResolveCidIsResolver(p: Pinner, cid: Value) returns (r: Result<Value>)
    ensures r == p.Resolver()(cid)
  {
    r := p.ResolveCid(cid);
  }

  /**
   * Pinning and then fetching by the returned CID text gives back the bytes
   * that were added, decoded.
   */
  method PinThenFetch(p: Pinner, content: Value) returns (pinned: Result<string>, fetched: Result<Value>)
    requires p.ipfs.faults.cat.None?
    modifies p.ipfs`calls, p.ipfs`blocks, p.ipfs`localPins, p.ipfs`remotePins
    ensures pinned.Success? ==>
      && Addable(p.UploadOf(content).content)
      && fetched == Success(Str(p.utf8.decode(BytesOf(p.UploadOf(content).content))))
  {
    pinned := p.Pin(content);
    if pinned.Failure? {
      fetched := Failure(pinned.error);
      return;
    }
    fetched := p.ResolveCid(Str(pinned.value));
    ChunksConcat(BytesOf(p.UploadOf(content).content));
  }

  /**
   * A pinner for a remote service on a node without one: the content is
   * added first, then the pin fails with the no-service error, which the
   * duplicate catch rethrows, and no remote pin is requested.
   */
  method PinWithoutService(p: Pinner, content: Value) returns (r: Result<string>)
    requires p.where != "local" && p.ipfs.services == []
    requires p.ipfs.faults.ls.None? && p.ipfs.faults.add.None? && Addable(p.UploadOf(content).content)
    modifies p.ipfs`calls, p.ipfs`blocks, p.ipfs`localPins, p.ipfs`remotePins
    ensures r == Failure(Error(NoServiceMessage))
    ensures p.ipfs.calls == old(p.ipfs.calls) + [Call.Add(p.UploadOf(content)), Call.ServiceLs]
    ensures p.PinnedText(content) in p.ipfs.blocks
    ensures p.ipfs.remotePins == old(p.ipfs.remotePins) && p.ipfs.localPins == old(p.ipfs.localPins)
  {
    NoServiceIsNotDuplicate();
    r := p.Pin(content);
  }

  /**
   * Pinning the same content twice on a remote service succeeds both times
   * with the same CID: the second request is a duplicate, and a duplicate is
   * not an error.
   */
  method PinTwice(p: Pinner, content: Value) returns (first: Result<string>, second: Result<string>)
    requires p.where != "local" && p.ipfs.services != []
    requires p.ipfs.faults.ls.None? && p.ipfs.faults.add.None? && p.ipfs.faults.remote.None?
    requires Addable(p.UploadOf(content).content)
    modifies p.ipfs`calls, p.ipfs`blocks, p.ipfs`localPins, p.ipfs`remotePins
    ensures first == Success(p.PinnedText(content)) && second == first
  {
    assert IsDuplicate(Error(DuplicateReason)) by {
      assert OccursAt(DuplicateReason, DuplicateReason, 0);
    }
    first := p.Pin(content);
    second := p.Pin(content);
  }
}

/// The content pinner of the older generation: a free `pin` function that
/// lets strings through untouched, requires a remote pinning service to be
/// connected even when it pins locally, and is wrapped in the older
/// `createProcessor`. Every call opens its own client; the node it connects
/// to is the `Store` passed in.
module LegacyPinner {
  import opened Values
  import opened Ipfs
  import Template

  /** What `add({ content, path })` is given: an empty path, so no wrapping directory. */
  function UploadOf(content: Value): Upload {
    Upload(content, "", false)
  }

  /** What the remote branch's `.catch` leaves of a remote pin on the first service. */
  function RemoteStep(ipfs: Store, pins: seq<RemotePin>, cid: Cid): Result<()>
    requires ipfs.services != []
  {
    Tolerate(ipfs.RemoteOutcome(pins, RemotePin(cid, ipfs.services[0].service, PinName)))
  }

  /** What a `pin` that gets as far as adding returns: the v1 CID text of the upload. */
  function PinnedText(ipfs: Store, content: Value): string {
    ipfs.V1Text(ipfs.address(UploadOf(content)))
  }

  /** `pin` gets as far as adding the content to the node, and the node takes it. */
  predicate Adds(ipfs: Store, content: Value) {
    && !content.Str?
    && ipfs.Listing().Success? && ipfs.services != []
    && ipfs.AddOutcome(UploadOf(content)).Success?
  }

  /**
   * What `pin(content, where)` settles to. What the node holds already plays
   * no part: a second remote pin of the same CID is a duplicate, which the
   * catch forgives.
   */
  function PinResult(ipfs: Store, content: Value, where: string): (r: Result<string>)
    ensures content.Str? ==> r == Success(content.s)
    ensures r.Success? ==> r.value == if content.Str? then content.s else PinnedText(ipfs, content)
    ensures !content.Str? && ipfs.Listing().Failure? ==> r == Failure(ipfs.Listing().error)
    ensures !content.Str? && ipfs.Listing() == Success([]) ==> r == Failure(Thrown(NoServiceMessage))
    ensures Adds(ipfs, content) && where == "local" ==> (r.Success? <==> ipfs.PinOutcome().Success?)
    ensures Adds(ipfs, content) && where != "local" && ipfs.faults.remote.None? ==> r.Success?
  {
    if content.Str? then Success(content.s)
    else
      match ipfs.Listing()
      case Failure(e) => Failure(e)
      case Success(services) =>
        if |services| == 0 then Failure(Thrown(NoServiceMessage))
        else
          match ipfs.AddOutcome(UploadOf(content))
          case Failure(e) => Failure(e)
          case Success(cid) =>
            var verdict := if where == "local" then ipfs.PinOutcome() else ipfs.RemoteVerdict();
            if verdict.Success? then Success(ipfs.V1Text(cid)) else Failure(verdict.error)
  }

  /** The calls `pin(content, where)` makes, in order. */
  function PinTrace(ipfs: Store, content: Value, where: string): seq<Call> {
    var upload := UploadOf(content);
    var cid := ipfs.address(upload);
    if content.Str? then []
    else if ipfs.Listing().Failure? || ipfs.services == [] then [Call.ServiceLs]
    else if ipfs.AddOutcome(upload).Failure? then [Call.ServiceLs, Call.Add(upload)]
    else if where == "local" then [Call.ServiceLs, Call.Add(upload), Call.PinAdd(cid)]
    else [Call.ServiceLs, Call.Add(upload), Call.RemoteAdd(RemotePin(cid, ipfs.services[0].service, PinName))]
  }

  /** The node after `pin(content, where)`. */
  function AfterPin(ipfs: Store, n: Node, content: Value, where: string): Node {
    var upload := UploadOf(content);
    var cid := ipfs.address(upload);
    var listed := ipfs.Listed(n);
    var added := ipfs.Added(listed, upload);
    if content.Str? then n
    else if ipfs.Listing().Failure? || ipfs.services == [] then listed
    else if ipfs.AddOutcome(upload).Failure? then added
    else if where == "local" then ipfs.PinnedLocally(added, cid)
    else ipfs.PinnedRemotely(added, RemotePin(cid, ipfs.services[0].service, PinName))
  }

  /** `pin` appends its calls, adds only the content's blocks and pins only its CID; a string touches nothing. */
  lemma AfterPinExtends(ipfs: Store, n: Node, content: Value, where: string)
    ensures AfterPin(ipfs, n, content, where).calls == n.calls + PinTrace(ipfs, content, where)
    ensures Extends(n, AfterPin(ipfs, n, content, where), {PinnedText(ipfs, content)}, {ipfs.address(UploadOf(content))})
    ensures content.Str? ==> AfterPin(ipfs, n, content, where) == n
  {
  }

  /** `pin` as the older processor's custom transform. */
  function Outcome(ipfs: Store, where: string): Value -> Result<string> {
    (v: Value) => PinResult(ipfs, v, where)
  }

  /** What `prepare` does to the node for one interpolated value. */
  function Step(ipfs: Store, where: string): (Node, Value) -> Node {
    (n: Node, v: Value) => AfterPin(ipfs, n, v, where)
  }

  function StepTrace(ipfs: Store, where: string): Value -> seq<Call> {
    (v: Value) => PinTrace(ipfs, v, where)
  }

  function StepKeys(ipfs: Store): Value -> set<string> {
    (v: Value) => {PinnedText(ipfs, v)}
  }

  function StepCids(ipfs: Store): Value -> set<Cid> {
    (v: Value) => {ipfs.address(UploadOf(v))}
  }

  /** What the steps of `prepare` make of the node, taken together. */
  lemma Folded(ipfs: Store, where: string, start: Node, values: seq<Value>)
    ensures Fold(start, values, Step(ipfs, where)).calls == start.calls + Traces(values, StepTrace(ipfs, where))
    ensures Extends(start, Fold(start, values, Step(ipfs, where)), Union(values, StepKeys(ipfs)), Union(values, StepCids(ipfs)))
    ensures (forall i | 0 <= i < |values| :: values[i].Str?) ==> Fold(start, values, Step(ipfs, where)) == start
  {
    forall m: Node, v: Value
      ensures Step(ipfs, where)(m, v).calls == m.calls + StepTrace(ipfs, where)(v)
      ensures Extends(m, Step(ipfs, where)(m, v), StepKeys(ipfs)(v), StepCids(ipfs)(v))
    {
      AfterPinExtends(ipfs, m, v, where);
    }
    FoldCalls(start, values, Step(ipfs, where), StepTrace(ipfs, where));
    FoldExtends(start, values, Step(ipfs, where), StepKeys(ipfs), StepCids(ipfs));
    if forall i | 0 <= i < |values| :: values[i].Str? {
      forall m: Node, i | 0 <= i < |values|
        ensures Step(ipfs, where)(m, values[i]) == m
      {
        AfterPinExtends(ipfs, m, values[i], where);
      }
      FoldSkips(start, values, Step(ipfs, where));
    }
  }

  /**
   * `pin(content, where = "local")`: a string is returned as it is; anything
   * else needs a connected remote pinning service, is added, and is pinned
   * locally or on the first service, a duplicate being no error.
   */
  method Pin(ipfs: Store, content: Value, where: string) returns (r: Result<string>)
    modifies ipfs`calls, ipfs`blocks, ipfs`localPins, ipfs`remotePins
    // a string makes no call at all
    ensures content.Str? ==> r == Success(content.s) && ipfs.calls == old(ipfs.calls)
    // everything else lists the services first; without one nothing is added
    ensures !content.Str? && ipfs.Listing().Failure? ==>
      r == Failure(ipfs.Listing().error) && ipfs.calls == old(ipfs.calls) + [Call.ServiceLs]
    ensures !content.Str? && ipfs.Listing() == Success([]) ==>
      r == Failure(Thrown(NoServiceMessage)) && ipfs.calls == old(ipfs.calls) + [Call.ServiceLs]
    ensures !content.Str? && ipfs.Listing().Success? && ipfs.services != [] ==>
      var upload := UploadOf(content); var cid := ipfs.address(upload);
      && ipfs.calls == old(ipfs.calls) + [Call.ServiceLs, Call.Add(upload)]
           + (if ipfs.AddOutcome(upload).Failure? then []
              else if where == "local" then [Call.PinAdd(cid)]
              else [Call.RemoteAdd(RemotePin(cid, ipfs.services[0].service, PinName))])
      && r == (if ipfs.AddOutcome(upload).Failure? then Failure(ipfs.AddOutcome(upload).error)
               else if where == "local" then
                 (if ipfs.PinOutcome().Success? then Success(ipfs.V1Text(cid)) else Failure(ipfs.PinOutcome().error))
               else if RemoteStep(ipfs, old(ipfs.remotePins), cid).Success? then Success(ipfs.V1Text(cid))
               else Failure(RemoteStep(ipfs, old(ipfs.remotePins), cid).error))
    ensures r.Success? ==> r.value == if content.Str? then content.s else PinnedText(ipfs, content)
    // the node changes only once the upload is added, and then by this upload alone
    ensures ipfs.blocks == if Adds(ipfs, content)
      then old(ipfs.blocks)[PinnedText(ipfs, content) := Chunks(BytesOf(content))] else old(ipfs.blocks)
    ensures ipfs.localPins == if Adds(ipfs, content) && where == "local" && ipfs.PinOutcome().Success?
      then old(ipfs.localPins) + [ipfs.address(UploadOf(content))] else old(ipfs.localPins)
    ensures ipfs.remotePins == if Adds(ipfs, content) && where != "local"
        && ipfs.RemoteOutcome(old(ipfs.remotePins), RemotePin(ipfs.address(UploadOf(content)), ipfs.services[0].service, PinName)).Success?
      then old(ipfs.remotePins) + [RemotePin(ipfs.address(UploadOf(content)), ipfs.services[0].service, PinName)]
      else old(ipfs.remotePins)
    ensures r == PinResult(ipfs, content, where)
    ensures ipfs.State() == AfterPin(ipfs, old(ipfs.State()), content, where)
  {
    if content.Str? {
      return Success(content.s);
    }
    var pinningServices := ipfs.ServiceLs();
    if pinningServices.Failure? {
      return Failure(pinningServices.error);
    }
    var hasRemotePinningService := |pinningServices.value| > 0;
    if !hasRemotePinningService {
      return Failure(Thrown(NoServiceMessage));
    }
    var upload := UploadOf(content);
    var res := ipfs.Add(upload);
    if res.Failure? {
      return Failure(res.error);
    }
    var cid := res.value;
    if where == "local" {
      var pinned := ipfs.PinAdd(cid);
      if pinned.Failure? {
        return Failure(pinned.error);
      }
    } else {
      ipfs.RemoteVerdictIgnoresPins(ipfs.remotePins, RemotePin(cid, pinningServices.value[0].service, PinName));
      var attempt := ipfs.RemoteAdd(RemotePin(cid, pinningServices.value[0].service, PinName));
      if attempt.Failure? && !IsDuplicate(attempt.error) {
        return Failure(attempt.error);
      }
    }
    r := Success(ipfs.V1Text(cid));
  }

  /** `pinToLocalBase`: `pin` in local mode. */
  method PinToLocalBase(ipfs: Store, content: Value) returns (r: Result<string>)
    modifies ipfs`calls, ipfs`blocks, ipfs`localPins, ipfs`remotePins
    ensures r == PinResult(ipfs, content, "local")
    ensures ipfs.State() == AfterPin(ipfs, old(ipfs.State()), content, "local")
    // the local branch: one local pin of the added CID, no remote pin
    ensures Adds(ipfs, content) ==>
      ipfs.calls == old(ipfs.calls) + [Call.ServiceLs, Call.Add(UploadOf(content)), Call.PinAdd(ipfs.address(UploadOf(content)))]
    ensures ipfs.remotePins == old(ipfs.remotePins)
    ensures r.Success? ==> r.value == if content.Str? then content.s else PinnedText(ipfs, content)
    ensures !content.Str? && r.Success? ==> ipfs.localPins == old(ipfs.localPins) + [ipfs.address(UploadOf(content))]
  {
    r := Pin(ipfs, content, "local");
  }

  /** `pinToProviderBase`: `pin` in remote mode. */
  method PinToProviderBase(ipfs: Store, content: Value) returns (r: Result<string>)
    modifies ipfs`calls, ipfs`blocks, ipfs`localPins, ipfs`remotePins
    ensures r == PinResult(ipfs, content, "provider")
    ensures ipfs.State() == AfterPin(ipfs, old(ipfs.State()), content, "provider")
    // the remote branch: one remote pin request on the first service, no local pin
    ensures Adds(ipfs, content) ==>
      var pin := RemotePin(ipfs.address(UploadOf(content)), ipfs.services[0].service, PinName);
      && ipfs.calls == old(ipfs.calls) + [Call.ServiceLs, Call.Add(UploadOf(content)), Call.RemoteAdd(pin)]
      && ipfs.remotePins == if ipfs.RemoteOutcome(old(ipfs.remotePins), pin).Success?
                            then old(ipfs.remotePins) + [pin] else old(ipfs.remotePins)
    ensures ipfs.localPins == old(ipfs.localPins)
    ensures r.Success? ==> r.value == if content.Str? then content.s else PinnedText(ipfs, content)
  {
    r := Pin(ipfs, content, "provider");
  }

  /** The `values.map` callback on one value: `pin` it, as the node stands now. */
  method PinOne(ipfs: Store, where: string, value: Value) returns (outcome: Result<string>)
    modifies ipfs`calls, ipfs`blocks, ipfs`localPins, ipfs`remotePins
    ensures outcome == Outcome(ipfs, where)(value)
    ensures ipfs.State() == Step(ipfs, where)(old(ipfs.State()), value)
  {
    outcome := Pin(ipfs, value, where);
  }

  /**
   * `Promise.all(values.map(...))` inside the older `prepare`: every value is
   * pinned in template order, whatever fails, and the first failure is kept.
   */
  method PinEach(ipfs: Store, where: string, values: seq<Value>) returns (processedValues: seq<string>, failure: Option<Exception>)
    modifies ipfs`calls, ipfs`blocks, ipfs`localPins, ipfs`remotePins
    ensures |processedValues| == |values|
    ensures ipfs.State() == Fold(old(ipfs.State()), values, Step(ipfs, where))
    ensures failure.None? ==> forall j | 0 <= j < |values| :: Outcome(ipfs, where)(values[j]) == Success(processedValues[j])
    ensures failure.Some? ==> exists k | 0 <= k < |values| ::
      && Outcome(ipfs, where)(values[k]) == Failure(failure.value)
      && forall j | 0 <= j < k :: Outcome(ipfs, where)(values[j]).Success?
  {
    ghost var start := ipfs.State();
    ghost var outcomes: seq<Result<string>> := [];
    processedValues := [];
    failure := None;
    for i := 0 to |values|
      invariant |processedValues| == i && |outcomes| == i
      invariant ipfs.State() == Fold(start, values[..i], Step(ipfs, where))
      invariant forall j | 0 <= j < i :: outcomes[j] == Outcome(ipfs, where)(values[j])
      invariant forall j | 0 <= j < i :: outcomes[j].Success? ==> processedValues[j] == outcomes[j].value
      invariant failure == FirstError(outcomes)
    {
      assert values[..i + 1][..i] == values[..i];
      // `pin` only ever resolves to a string, so the not-a-string check passes
      var processed := PinOne(ipfs, where, values[i]);
      assert (outcomes + [processed])[..i] == outcomes;
      if processed.Failure? && failure.None? {
        failure := Some(processed.error);
      }
      outcomes := outcomes + [processed];
      processedValues := processedValues + [if processed.Success? then processed.value else ""];
    }
    assert values[..|values|] == values;
  }

  /** Strings alone always go through, with no call made. */
  lemma StringsPass(ipfs: Store, where: string, values: seq<Value>)
    requires forall i | 0 <= i < |values| :: values[i].Str?
    ensures All(Outcome(ipfs, where), values).Success?
  {
    assert forall i | 0 <= i < |values| :: Outcome(ipfs, where)(values[i]).Success?;
  }

  /** Without a connected service, any value that is not a string sinks the statement with the bare no-service string. */
  lemma NoServiceSinks(ipfs: Store, where: string, values: seq<Value>)
    requires ipfs.faults.ls.None? && ipfs.services == []
    requires exists i | 0 <= i < |values| :: !values[i].Str?
    ensures All(Outcome(ipfs, where), values) == Failure(Thrown(NoServiceMessage))
  {
    var all := All(Outcome(ipfs, where), values);
    var b :| 0 <= b < |values| && !values[b].Str?;
    assert Outcome(ipfs, where)(values[b]).Failure?;
    var k :| 0 <= k < |values| && Outcome(ipfs, where)(values[k]) == Failure(all.error)
      && forall j | 0 <= j < k :: Outcome(ipfs, where)(values[j]).Success?;
    assert !values[k].Str?;
  }

  /** When every pin goes through, each string stays as it is and every other value becomes its CID text. */
  lemma PinnedValues(ipfs: Store, where: string, values: seq<Value>, processed: seq<string>)
    requires |processed| == |values|
    requires forall i | 0 <= i < |values| :: Outcome(ipfs, where)(values[i]) == Success(processed[i])
    ensures processed == seq(|values|, i requires 0 <= i < |values| => if values[i].Str? then values[i].s else PinnedText(ipfs, values[i]))
  {
    forall i | 0 <= i < |values|
      ensures processed[i] == if values[i].Str? then values[i].s else PinnedText(ipfs, values[i])
    {
      assert Outcome(ipfs, where)(values[i]).Success?;
    }
  }

  /**
   * The older `prepare` with `pin` as its custom processor: every value is
   * pinned (all of them, even after a failure, as the pins run side by side)
   * and the results zipped between the fragments.
   */
  method Prepare(ipfs: Store, where: string, strings: seq<string>, values: seq<Value>) returns (r: Result<string>)
    modifies ipfs`calls, ipfs`blocks, ipfs`localPins, ipfs`remotePins
    ensures r == match All(Outcome(ipfs, where), values)
                 case Failure(e) => Failure(e)
                 case Success(parts) => Success(Template.Interleave(strings, parts))
    ensures (forall i | 0 <= i < |values| :: values[i].Str?) ==> r.Success? && ipfs.State() == old(ipfs.State())
    // with no service connected, any value that is not a string sinks the whole statement
    ensures ipfs.faults.ls.None? && ipfs.services == [] && (exists i | 0 <= i < |values| :: !values[i].Str?) ==>
      r == Failure(Thrown(NoServiceMessage))
    ensures r.Success? ==>
      r.value == Template.Interleave(strings, seq(|values|, i requires 0 <= i < |values| =>
        if values[i].Str? then values[i].s else PinnedText(ipfs, values[i])))
    // every value is pinned, in template order, whatever fails
    ensures ipfs.State() == Fold(old(ipfs.State()), values, Step(ipfs, where))
    ensures ipfs.calls == old(ipfs.calls) + Traces(values, StepTrace(ipfs, where))
    ensures Extends(old(ipfs.State()), ipfs.State(), Union(values, StepKeys(ipfs)), Union(values, StepCids(ipfs)))
  {
    ghost var start := ipfs.State();
    var processedValues, failure := PinEach(ipfs, where, values);
    Folded(ipfs, where, start, values);
    if forall i | 0 <= i < |values| :: values[i].Str? {
      StringsPass(ipfs, where, values);
    }
    if ipfs.faults.ls.None? && ipfs.services == [] && (exists i | 0 <= i < |values| :: !values[i].Str?) {
      NoServiceSinks(ipfs, where, values);
    }
    if failure.Some? {
      var k :| 0 <= k < |values|
        && Outcome(ipfs, where)(values[k]) == Failure(failure.value)
        && forall j | 0 <= j < k :: Outcome(ipfs, where)(values[j]).Success?;
      AllFails(Outcome(ipfs, where), values, k, failure.value);
      return Failure(failure.value);
    }
    AllSucceeds(Outcome(ipfs, where), values, processedValues);
    PinnedValues(ipfs, where, values, processedValues);
    var statement := Template.Zip(strings, processedValues);
    r := Success(statement);
  }

  /**
   * Without a connected remote pinning service nothing but strings can be
   * pinned, not even locally, and nothing is added to the node.
   */
  method NoServiceNoPin(ipfs: Store, content: Value) returns (r: Result<string>)
    requires ipfs.services == [] && ipfs.faults.ls.None? && !content.Str?
    modifies ipfs`calls, ipfs`blocks, ipfs`localPins, ipfs`remotePins
    ensures r == Failure(Thrown(NoServiceMessage))
    ensures ipfs.blocks == old(ipfs.blocks) && ipfs.localPins == old(ipfs.localPins)
  {
    r := Pin(ipfs, content, "local");
  }

  /** Pinning the same bytes twice on the provider succeeds twice with one CID. */
  method PinTwice(ipfs: Store, content: Value) returns (first: Result<string>, second: Result<string>)
    requires ipfs.services != [] && Addable(content)
    requires ipfs.faults.ls.None? && ipfs.faults.add.None? && ipfs.faults.remote.None?
    modifies ipfs`calls, ipfs`blocks, ipfs`localPins, ipfs`remotePins
    ensures first == Success(PinnedText(ipfs, content)) && second == first
  {
    assert IsDuplicate(Error(DuplicateReason)) by {
      assert OccursAt(DuplicateReason, DuplicateReason, 0);
    }
    first := Pin(ipfs, content, "provider");
    second := Pin(ipfs, content, "provider");
  }
}

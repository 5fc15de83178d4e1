/// The standalone `prepare` tag: every Blob interpolated into the template is
/// added to IPFS and replaced by its CID; every other value is put into the
/// statement as the engine turns it into text, or left out when it is falsy.
module BlobPrepare {
  import opened Values
  import opened Ipfs
  import Template

  /** What `zip`'s `+` makes of a processed value: its text when truthy, nothing otherwise. */
  function Render(v: Value): (text: string)
    ensures !Truthy(v) ==> text == ""
    ensures v.Str? ==> text == v.s
  {
    if Truthy(v) then ToText(v) else ""
  }

  function Rendered(values: seq<Value>): (texts: seq<string>)
    ensures |texts| == |values| && forall i | 0 <= i < |values| :: texts[i] == Render(values[i])
  {
    seq(|values|, i requires 0 <= i < |values| => Render(values[i]))
  }

  /**
   * `zip` over values of any type: each fragment, followed by the value at
   * its position when that value is truthy, concatenated as text.
   */
  method ZipValues(fragments: seq<string>, values: seq<Value>) returns (str: string)
    ensures str == Template.Interleave(fragments, Rendered(values))
  {
    str := "";
    for i := 0 to |fragments|
      invariant str == Template.Interleave(fragments[..i], Rendered(values))
    {
      assert fragments[..i + 1][..i] == fragments[..i];
      if i < |values| && Truthy(values[i]) {
        str := str + fragments[i] + ToText(values[i]);
      } else {
        str := str + fragments[i];
      }
    }
    assert fragments[..|fragments|] == fragments;
  }

  /** What adding a Blob gives `add`: the bytes of its `arrayBuffer()`, as a file with no path. */
  function UploadOf(blob: seq<byte>): Upload {
    Upload(Bytes(blob), "", false)
  }

  /** What a Blob becomes in the statement once pinned: the v1 text of its CID. */
  function PinnedText(ipfs: Store, blob: seq<byte>): string {
    ipfs.V1Text(ipfs.address(UploadOf(blob)))
  }

  /**
   * What `BlobToPinnedIpfs(blob)` settles to. The remote pin is never
   * awaited, so only the listing and the add decide it.
   */
  function BlobResult(ipfs: Store, blob: seq<byte>): (r: Result<string>)
    ensures r.Success? <==> ipfs.Listing().Success? && ipfs.services != [] && ipfs.AddOutcome(UploadOf(blob)).Success?
    ensures r.Success? ==> r.value == PinnedText(ipfs, blob)
    ensures ipfs.Listing().Failure? ==> r == Failure(ipfs.Listing().error)
    ensures ipfs.Listing() == Success([]) ==> r == Failure(Thrown(NoServiceMessage))
  {
    match ipfs.Listing()
    case Failure(e) => Failure(e)
    case Success(services) =>
      if |services| == 0 then Failure(Thrown(NoServiceMessage))
      else
        match ipfs.AddOutcome(UploadOf(blob))
        case Failure(e) => Failure(e)
        case Success(cid) => Success(ipfs.V1Text(cid))
  }

  /** The calls `BlobToPinnedIpfs(blob)` makes, in order. */
  function BlobTrace(ipfs: Store, blob: seq<byte>): seq<Call> {
    var upload := UploadOf(blob);
    if ipfs.Listing().Failure? || ipfs.services == [] then [Call.ServiceLs]
    else if ipfs.AddOutcome(upload).Failure? then [Call.ServiceLs, Call.Add(upload)]
    else [Call.ServiceLs, Call.Add(upload), Call.RemoteAdd(RemotePin(ipfs.address(upload), ipfs.services[0].service, PinName))]
  }

  /** The node after `BlobToPinnedIpfs(blob)`. */
  function AfterBlob(ipfs: Store, n: Node, blob: seq<byte>): Node {
    var upload := UploadOf(blob);
    var listed := ipfs.Listed(n);
    var added := ipfs.Added(listed, upload);
    if ipfs.Listing().Failure? || ipfs.services == [] then listed
    else if ipfs.AddOutcome(upload).Failure? then added
    else ipfs.PinnedRemotely(added, RemotePin(ipfs.address(upload), ipfs.services[0].service, PinName))
  }

  /** Pinning a Blob appends its calls, adds only its blocks and pins only its CID. */
  lemma AfterBlobExtends(ipfs: Store, n: Node, blob: seq<byte>)
    ensures AfterBlob(ipfs, n, blob).calls == n.calls + BlobTrace(ipfs, blob)
    ensures Extends(n, AfterBlob(ipfs, n, blob), {PinnedText(ipfs, blob)}, {ipfs.address(UploadOf(blob))})
    ensures AfterBlob(ipfs, n, blob).localPins == n.localPins
  {
  }

  /**
   * `BlobToPinnedIpfs(blob)`: fail unless a remote pinning service is
   * connected, add the blob's bytes, request a remote pin on the first
   * service without waiting for it, and return the CID's v1 text.
   */
  method BlobToPinnedIpfs(ipfs: Store, blob: seq<byte>) returns (r: Result<string>)
    modifies ipfs`calls, ipfs`blocks, ipfs`remotePins
    ensures ipfs.Listing().Failure? ==>
      r == Failure(ipfs.Listing().error) && ipfs.calls == old(ipfs.calls) + [Call.ServiceLs]
    ensures ipfs.Listing() == Success([]) ==>
      r == Failure(Thrown(NoServiceMessage)) && ipfs.calls == old(ipfs.calls) + [Call.ServiceLs]
    ensures ipfs.Listing().Success? && ipfs.services != [] ==>
      var pin := RemotePin(ipfs.address(UploadOf(blob)), ipfs.services[0].service, PinName);
      && ipfs.calls == old(ipfs.calls) + [Call.ServiceLs, Call.Add(UploadOf(blob))]
           + (if ipfs.AddOutcome(UploadOf(blob)).Success? then [Call.RemoteAdd(pin)] else [])
      // the remote pin is never awaited: whatever becomes of it, the CID is returned
      && r == (if ipfs.AddOutcome(UploadOf(blob)).Success? then Success(PinnedText(ipfs, blob))
               else Failure(ipfs.AddOutcome(UploadOf(blob)).error))
      && ipfs.remotePins == if ipfs.AddOutcome(UploadOf(blob)).Success? && ipfs.RemoteOutcome(old(ipfs.remotePins), pin).Success?
                            then old(ipfs.remotePins) + [pin] else old(ipfs.remotePins)
    ensures ipfs.blocks == if ipfs.Listing().Success? && ipfs.services != [] && ipfs.AddOutcome(UploadOf(blob)).Success?
      then old(ipfs.blocks)[PinnedText(ipfs, blob) := Chunks(blob)] else old(ipfs.blocks)
    ensures !(ipfs.Listing().Success? && ipfs.services != []) ==> ipfs.remotePins == old(ipfs.remotePins)
    ensures r == BlobResult(ipfs, blob)
    ensures ipfs.State() == AfterBlob(ipfs, old(ipfs.State()), blob)
  {
    var pinningServices := ipfs.ServiceLs();
    if pinningServices.Failure? {
      return Failure(pinningServices.error);
    }
    var hasRemotePinningService := |pinningServices.value| > 0;
    if !hasRemotePinningService {
      return Failure(Thrown(NoServiceMessage));
    }
    var added := ipfs.Add(UploadOf(blob));
    if added.Failure? {
      return Failure(added.error);
    }
    var cid := added.value;
    var _ := ipfs.RemoteAdd(RemotePin(cid, pinningServices.value[0].service, PinName));
    r := Success(ipfs.V1Text(cid));
  }

  /** The `values.map` callback: a Blob is pinned and becomes its CID text, anything else stays as it is. */
  function Outcome(ipfs: Store): Value -> Result<Value> {
    (v: Value) =>
      if v.Blob? then
        match BlobResult(ipfs, v.data)
        case Failure(e) => Failure(e)
        case Success(text) => Success(Str(text))
      else Success(v)
  }

  /** What a value becomes before zipping, once its pin went through. */
  function Substituted(ipfs: Store, v: Value): (r: Value)
    ensures Outcome(ipfs)(v).Success? ==> Outcome(ipfs)(v) == Success(r)
    ensures !v.Blob? ==> r == v
  {
    if v.Blob? then Str(PinnedText(ipfs, v.data)) else v
  }

  /** What `prepare` does to the node for one interpolated value: only a Blob is pinned. */
  function Step(ipfs: Store): (Node, Value) -> Node {
    (n: Node, v: Value) => if v.Blob? then AfterBlob(ipfs, n, v.data) else n
  }

  function StepTrace(ipfs: Store): Value -> seq<Call> {
    (v: Value) => if v.Blob? then BlobTrace(ipfs, v.data) else []
  }

  function StepKeys(ipfs: Store): Value -> set<string> {
    (v: Value) => if v.Blob? then {PinnedText(ipfs, v.data)} else {}
  }

  function StepCids(ipfs: Store): Value -> set<Cid> {
    (v: Value) => if v.Blob? then {ipfs.address(UploadOf(v.data))} else {}
  }

  /** What the steps of `prepare` make of the node, taken together. */
  lemma Folded(ipfs: Store, start: Node, values: seq<Value>)
    ensures Fold(start, values, Step(ipfs)).calls == start.calls + Traces(values, StepTrace(ipfs))
    ensures Extends(start, Fold(start, values, Step(ipfs)), Union(values, StepKeys(ipfs)), Union(values, StepCids(ipfs)))
    ensures (forall i | 0 <= i < |values| :: !values[i].Blob?) ==> Fold(start, values, Step(ipfs)) == start
  {
    forall m: Node, v: Value
      ensures Step(ipfs)(m, v).calls == m.calls + StepTrace(ipfs)(v)
      ensures Extends(m, Step(ipfs)(m, v), StepKeys(ipfs)(v), StepCids(ipfs)(v))
    {
      if v.Blob? {
        AfterBlobExtends(ipfs, m, v.data);
      }
    }
    FoldCalls(start, values, Step(ipfs), StepTrace(ipfs));
    FoldExtends(start, values, Step(ipfs), StepKeys(ipfs), StepCids(ipfs));
    if forall i | 0 <= i < |values| :: !values[i].Blob? {
      FoldSkips(start, values, Step(ipfs));
    }
  }

  /** The `values.map` callback on one value: a Blob is pinned and replaced by its CID text, anything else kept. */
  method SubstituteOne(ipfs: Store, v: Value) returns (outcome: Result<Value>)
    modifies ipfs`calls, ipfs`blocks, ipfs`remotePins
    ensures outcome == Outcome(ipfs)(v)
    ensures ipfs.State() == Step(ipfs)(old(ipfs.State()), v)
  {
    outcome := Success(v);
    if v.Blob? {
      var pinned := BlobToPinnedIpfs(ipfs, v.data);
      outcome := if pinned.Success? then Success(Str(pinned.value)) else Failure(pinned.error);
    }
  }

  /**
   * `Promise.all(values.map(...))` inside `prepare`: every Blob is pinned in
   * template order, whatever fails, and the first failure is kept.
   */
  method SubstituteEach(ipfs: Store, values: seq<Value>) returns (processedValues: seq<Value>, failure: Option<Exception>)
    modifies ipfs`calls, ipfs`blocks, ipfs`remotePins
    ensures |processedValues| == |values|
    ensures ipfs.State() == Fold(old(ipfs.State()), values, Step(ipfs))
    ensures failure.None? ==> forall j | 0 <= j < |values| :: Outcome(ipfs)(values[j]) == Success(processedValues[j])
    ensures failure.Some? ==> exists k | 0 <= k < |values| ::
      && Outcome(ipfs)(values[k]) == Failure(failure.value)
      && forall j | 0 <= j < k :: Outcome(ipfs)(values[j]).Success?
  {
    ghost var start := ipfs.State();
    ghost var outcomes: seq<Result<Value>> := [];
    processedValues := [];
    failure := None;
    for i := 0 to |values|
      invariant |processedValues| == i && |outcomes| == i
      invariant ipfs.State() == Fold(start, values[..i], Step(ipfs))
      invariant forall j | 0 <= j < i :: outcomes[j] == Outcome(ipfs)(values[j])
      invariant forall j | 0 <= j < i :: outcomes[j].Success? ==> processedValues[j] == outcomes[j].value
      invariant failure == FirstError(outcomes)
    {
      assert values[..i + 1][..i] == values[..i];
      var outcome := SubstituteOne(ipfs, values[i]);
      if outcome.Failure? && failure.None? {
        failure := Some(outcome.error);
      }
      assert (outcomes + [outcome])[..i] == outcomes;
      outcomes := outcomes + [outcome];
      processedValues := processedValues + [if outcome.Success? then outcome.value else Null];
    }
    assert values[..|values|] == values;
  }

  /** With no Blob among the values nothing is pinned and nothing can fail: every value passes as it is. */
  lemma NoBlobPassesThrough(ipfs: Store, values: seq<Value>)
    requires forall i | 0 <= i < |values| :: !values[i].Blob?
    ensures All(Outcome(ipfs), values) == Success(values)
  {
    AllSucceeds(Outcome(ipfs), values, values);
  }

  /** Without a connected service, any Blob sinks the statement with the bare no-service string. */
  lemma NoServiceSinks(ipfs: Store, values: seq<Value>)
    requires ipfs.faults.ls.None? && ipfs.services == []
    requires exists i | 0 <= i < |values| :: values[i].Blob?
    ensures All(Outcome(ipfs), values) == Failure(Thrown(NoServiceMessage))
  {
    var all := All(Outcome(ipfs), values);
    var b :| 0 <= b < |values| && values[b].Blob?;
    assert Outcome(ipfs)(values[b]).Failure?;
    var k :| 0 <= k < |values| && Outcome(ipfs)(values[k]) == Failure(all.error)
      && forall j | 0 <= j < k :: Outcome(ipfs)(values[j]).Success?;
    assert values[k].Blob?;
  }

  /** When every pin goes through, each Blob is replaced by its CID text and every other value kept. */
  lemma SubstitutedValues(ipfs: Store, values: seq<Value>, processed: seq<Value>)
    requires |processed| == |values|
    requires forall i | 0 <= i < |values| :: Outcome(ipfs)(values[i]) == Success(processed[i])
    ensures processed == seq(|values|, i requires 0 <= i < |values| => Substituted(ipfs, values[i]))
  {
    forall i | 0 <= i < |values|
      ensures processed[i] == Substituted(ipfs, values[i])
    {
      assert Outcome(ipfs)(values[i]).Success?;
    }
  }

  /**
   * `prepare(strings, ...values)`: every Blob pinned (all of them, even after
   * a failure, as the pins run side by side), then the values zipped between
   * the fragments; a failing pin rejects the statement with the error of the
   * first failing position.
   */
  method Prepare(ipfs: Store, strings: seq<string>, values: seq<Value>) returns (r: Result<string>)
    modifies ipfs`calls, ipfs`blocks, ipfs`remotePins
    ensures r == match All(Outcome(ipfs), values)
                 case Failure(e) => Failure(e)
                 case Success(processed) => Success(Template.Interleave(strings, Rendered(processed)))
    ensures (forall i | 0 <= i < |values| :: !values[i].Blob?) ==>
      r == Success(Template.Interleave(strings, Rendered(values))) && ipfs.State() == old(ipfs.State())
    ensures r.Success? ==>
      r.value == Template.Interleave(strings, Rendered(seq(|values|, i requires 0 <= i < |values| => Substituted(ipfs, values[i]))))
    ensures ipfs.faults.ls.None? && ipfs.services == [] && (exists i | 0 <= i < |values| :: values[i].Blob?) ==>
      r == Failure(Thrown(NoServiceMessage))
    // every Blob is pinned, in template order, whatever fails; nothing is pinned locally
    ensures ipfs.State() == Fold(old(ipfs.State()), values, Step(ipfs))
    ensures ipfs.calls == old(ipfs.calls) + Traces(values, StepTrace(ipfs))
    ensures Extends(old(ipfs.State()), ipfs.State(), Union(values, StepKeys(ipfs)), Union(values, StepCids(ipfs)))
  {
    ghost var start := ipfs.State();
    var processedValues, failure := SubstituteEach(ipfs, values);
    Folded(ipfs, start, values);
    if forall i | 0 <= i < |values| :: !values[i].Blob? {
      NoBlobPassesThrough(ipfs, values);
    }
    if ipfs.faults.ls.None? && ipfs.services == [] && (exists i | 0 <= i < |values| :: values[i].Blob?) {
      NoServiceSinks(ipfs, values);
    }
    if failure.Some? {
      var k :| 0 <= k < |values|
        && Outcome(ipfs)(values[k]) == Failure(failure.value)
        && forall j | 0 <= j < k :: Outcome(ipfs)(values[j]).Success?;
      AllFails(Outcome(ipfs), values, k, failure.value);
      return Failure(failure.value);
    }
    AllSucceeds(Outcome(ipfs), values, processedValues);
    SubstitutedValues(ipfs, values, processedValues);
    var statement := ZipValues(strings, processedValues);
    r := Success(statement);
  }

  /** A falsy value leaves nothing in the statement, so its two neighbouring fragments run together. */
  lemma {:induction false} FalsyValueDropped(strings: seq<string>, values: seq<Value>, k: nat)
    requires k + 1 < |strings| && k < |values| && !Truthy(values[k])
    ensures Template.Interleave(strings[..k + 2], Rendered(values))
         == Template.Interleave(strings[..k], Rendered(values)) + strings[k] + strings[k + 1] + Template.Part(Rendered(values), k + 1)
  {
    var parts := Rendered(values);
    assert strings[..k + 2][..k + 1] == strings[..k + 1];
    assert strings[..k + 1][..k] == strings[..k];
    assert Template.Part(parts, k) == "";
  }
}

/// `createProcessor` of the older generation: the same template assembly and
/// resolution, but every value goes through the custom processor (there is
/// no skip marker) and the not-a-string error has its own wording. Its
/// `resolve` is the same loop as the current generation's (see `Rows`).
module Process {
  import opened Values
  import Template
  import Processor

  const NotStringMessage := "Defined process function resulted in content that is not a string."

  /** What one interpolated value becomes: the custom processor's result, which must be a string. */
  function ProcessValue(customProcessor: Value -> Result<Value>, value: Value): (r: Result<string>)
    ensures r.Success? ==> customProcessor(value) == Success(Str(r.value))
  {
    match customProcessor(value)
    case Failure(e) => Failure(e)
    case Success(result) => if result.Str? then Success(result.s) else Failure(Error(NotStringMessage))
  }

  function Processed(p: Processor.Processor, values: seq<Value>): Result<seq<string>> {
    All((v: Value) => ProcessValue(p.customProcessor, v), values)
  }

  /** The tagged-template call: every value processed, then interleaved with the fragments. */
  function Prepare(p: Processor.Processor, strings: seq<string>, values: seq<Value>): (r: Result<string>)
    ensures r.Success? <==> forall i | 0 <= i < |values| :: ProcessValue(p.customProcessor, values[i]).Success?
    ensures r.Success? ==> Processed(p, values).Success? && r.value == Template.Interleave(strings, Processed(p, values).value)
    ensures r.Failure? ==>
      exists i | 0 <= i < |values| ::
        && ProcessValue(p.customProcessor, values[i]) == Failure(r.error)
        && forall j | 0 <= j < i :: ProcessValue(p.customProcessor, values[j]).Success?
  {
    match Processed(p, values)
    case Failure(e) => Failure(e)
    case Success(processedValues) => Success(Template.Interleave(strings, processedValues))
  }

  /** There is no escape: a skip marker is handed to the custom processor like any other value. */
  lemma MarkerIsProcessed(customProcessor: Value -> Result<Value>, original: string)
    ensures ProcessValue(customProcessor, Marker(original)).Success?
        <==> customProcessor(Marker(original)).Success? && customProcessor(Marker(original)).value.Str?
  {
  }

  /** A non-string result from the custom processor makes `prepare` reject. */
  lemma {:induction false} NonStringRejected(p: Processor.Processor, strings: seq<string>, values: seq<Value>, k: nat)
    requires k < |values|
    requires p.customProcessor(values[k]).Success? && !p.customProcessor(values[k]).value.Str?
    ensures Prepare(p, strings, values).Failure?
    ensures (forall j | 0 <= j < k :: ProcessValue(p.customProcessor, values[j]).Success?) ==>
      Prepare(p, strings, values) == Failure(Error(NotStringMessage))
  {
    assert ProcessValue(p.customProcessor, values[k]) == Failure(Error(NotStringMessage));
    var r := Prepare(p, strings, values);
    if forall j | 0 <= j < k :: ProcessValue(p.customProcessor, values[j]).Success? {
      var i :| 0 <= i < |values| && ProcessValue(p.customProcessor, values[i]) == Failure(r.error)
        && forall j | 0 <= j < i :: ProcessValue(p.customProcessor, values[j]).Success?;
      assert i == k;
    }
  }

  /** Two transforms that agree on every element give the same `Promise.all` outcome. */
  lemma {:induction false} AllAgree<A, B>(f: A -> Result<B>, g: A -> Result<B>, xs: seq<A>)
    requires forall i | 0 <= i < |xs| :: f(xs[i]) == g(xs[i])
    ensures All(f, xs) == All(g, xs)
    decreases |xs|
  {
    if xs != [] {
      assert forall i | 0 <= i < |xs[1..]| :: xs[1..][i] == xs[i + 1];
      AllAgree(f, g, xs[1..]);
    }
  }

  /**
   * The two generations agree on templates without skip markers or nulls
   * whose custom processor returns strings (or fails): they differ only in
   * the skip escape, the null access and the wording of the not-a-string error.
   */
  lemma GenerationsAgree(p: Processor.Processor, strings: seq<string>, values: seq<Value>)
    requires forall i | 0 <= i < |values| :: !values[i].Marker? && !values[i].Null?
    requires forall i | 0 <= i < |values| ::
      p.customProcessor(values[i]).Success? ==> p.customProcessor(values[i]).value.Str?
    ensures Prepare(p, strings, values) == Processor.Prepare(p, strings, values)
  {
    AllAgree((v: Value) => ProcessValue(p.customProcessor, v),
             (v: Value) => Processor.ProcessValue(p.customProcessor, v), values);
  }
}

/// `createProcessor` of the current generation: a forward transform applied
/// to every interpolated value of a template (except skip markers), the
/// results zipped back between the literal fragments, and a resolver for the
/// way back.
module Processor {
  import opened Values
  import Template
  import Rows

  const NotStringMessage := "Defined processor function resulted in content that is not a string."

  /** The engine's message when `value.jetiShouldSkip` is read on null. */
  const NullPropertyMessage := "Cannot read properties of null (reading 'jetiShouldSkip')"

  /** What `createProcessor(customProcessor, resolver)` closes over. */
  datatype Processor = Processor(customProcessor: Value -> Result<Value>, resolver: Value -> Result<Value>)

  /** `skip(value)`: a marker that makes `prepare` substitute `value` without transforming it. */
  function Skip(value: string): (marker: Value)
    ensures marker.Marker? && marker.original == value
    ensures Truthy(marker)
  {
    Marker(value)
  }

  /**
   * What one interpolated value becomes: a skip marker its original, any other
   * value the custom processor's result, which must be a string.
   */
  function ProcessValue(customProcessor: Value -> Result<Value>, value: Value): (r: Result<string>)
    ensures r.Success? && !value.Marker? ==> customProcessor(value) == Success(Str(r.value))
  {
    match value
    case Null => Failure(TypeError(NullPropertyMessage))
    case Marker(original) => Success(original)
    case _ =>
      match customProcessor(value)
      case Failure(e) => Failure(e)
      case Success(result) => if result.Str? then Success(result.s) else Failure(Error(NotStringMessage))
  }

  /** The processed values, in template order, when every value could be processed. */
  function Processed(p: Processor, values: seq<Value>): Result<seq<string>> {
    All((v: Value) => ProcessValue(p.customProcessor, v), values)
  }

  /**
   * The tagged-template call: every value processed, then the fragments and
   * the processed values interleaved; no statement at all when any value fails.
   */
  function Prepare(p: Processor, strings: seq<string>, values: seq<Value>): (r: Result<string>)
    ensures r.Success? <==> forall i | 0 <= i < |values| :: ProcessValue(p.customProcessor, values[i]).Success?
    ensures r.Success? ==> Processed(p, values).Success? && r.value == Template.Interleave(strings, Processed(p, values).value)
    ensures r.Failure? ==>
      exists i | 0 <= i < |values| ::
        && ProcessValue(p.customProcessor, values[i]) == Failure(r.error)
        && forall j | 0 <= j < i :: ProcessValue(p.customProcessor, values[j]).Success?
  {
    match Processed(p, values)
    case Failure(e) => Failure(e)
    case Success(processedValues) => Success(Template.Interleave(strings, processedValues))
  }

  /** When every value goes through, the statement is the fragments interleaved with what they became. */
  lemma PrepareOfParts(p: Processor, strings: seq<string>, values: seq<Value>, parts: seq<string>)
    requires |parts| == |values|
    requires forall i | 0 <= i < |values| :: ProcessValue(p.customProcessor, values[i]) == Success(parts[i])
    ensures Prepare(p, strings, values) == Success(Template.Interleave(strings, parts))
  {
    var processed := Processed(p, values).value;
    assert forall i | 0 <= i < |values| :: ProcessValue(p.customProcessor, values[i]) == Success(processed[i]);
    assert processed == parts;
  }

  /** The statement is rejected with the error of the first value that does not go through. */
  lemma PrepareFirstFailure(p: Processor, strings: seq<string>, values: seq<Value>, k: nat, e: Exception)
    requires k < |values| && ProcessValue(p.customProcessor, values[k]) == Failure(e)
    requires forall j | 0 <= j < k :: ProcessValue(p.customProcessor, values[j]).Success?
    ensures Prepare(p, strings, values) == Failure(e)
  {
    var r := Prepare(p, strings, values);
    var i :| 0 <= i < |values| && ProcessValue(p.customProcessor, values[i]) == Failure(r.error)
      && forall j | 0 <= j < i :: ProcessValue(p.customProcessor, values[j]).Success?;
    assert i == k;
  }

  /** `prepare.resolve`: the resolver over the listed keys of every row. */
  method Resolve(p: Processor, resultSet: seq<Rows.Row>, keysToResolve: seq<string>) returns (r: Result<seq<Rows.Row>>)
    ensures r.Success? <==> forall i | 0 <= i < |resultSet| :: Rows.Resolvable(resultSet[i], keysToResolve, p.resolver)
    ensures r.Success? ==>
      && |r.value| == |resultSet|
      && forall i | 0 <= i < |resultSet| :: Rows.ResolvedFrom(resultSet[i], r.value[i], keysToResolve, p.resolver)
  {
    r := Rows.ResolveRows(resultSet, keysToResolve, p.resolver);
  }

  /** A skip marker yields its original whatever the custom processor would have done with it. */
  lemma SkipBypassesProcessor(customProcessor: Value -> Result<Value>, value: string)
    ensures ProcessValue(customProcessor, Skip(value)) == Success(value)
  {
  }

  /**
   * The processed value at position k sits between fragment k and fragment
   * k + 1; a skipped value sits there unchanged.
   */
  lemma {:induction false} ValueBetweenFragments(p: Processor, strings: seq<string>, values: seq<Value>, k: nat)
    requires k < |strings| && k < |values|
    requires Prepare(p, strings, values).Success?
    ensures var parts := Processed(p, values).value;
      && ProcessValue(p.customProcessor, values[k]) == Success(parts[k])
      && (values[k].Marker? ==> parts[k] == values[k].original)
      && Prepare(p, strings, values).value
         == Template.Interleave(strings[..k], parts) + strings[k] + parts[k]
            + Template.Interleave(strings[k + 1..], parts[k + 1..])
  {
    var parts := Processed(p, values).value;
    Template.InterleaveAt(strings, parts, k);
    assert Template.Drop(parts, k + 1) == parts[k + 1..];
  }

  /**
   * A custom processor that yields a non-string for some value makes `prepare`
   * reject and return no statement; when every earlier value went through,
   * the rejection is the not-a-string error.
   */
  lemma {:induction false} NonStringRejected(p: Processor, strings: seq<string>, values: seq<Value>, k: nat)
    requires k < |values| && !values[k].Marker? && !values[k].Null?
    requires p.customProcessor(values[k]).Success? && !p.customProcessor(values[k]).value.Str?
    ensures Prepare(p, strings, values).Failure?
    ensures (forall j | 0 <= j < k :: ProcessValue(p.customProcessor, values[j]).Success?) ==>
      Prepare(p, strings, values) == Failure(Error(NotStringMessage))
  {
    assert ProcessValue(p.customProcessor, values[k]) == Failure(Error(NotStringMessage));
    var r := Prepare(p, strings, values);
    if forall j | 0 <= j < k :: ProcessValue(p.customProcessor, values[j]).Success? {
      var i :| 0 <= i < |values| && ProcessValue(p.customProcessor, values[i]) == Failure(r.error)
        && forall j | 0 <= j < i :: ProcessValue(p.customProcessor, values[j]).Success?;
      assert i == k;
    }
  }

  /** The base64 example's statement up to its first encoded value. */
  lemma Base64Head()
    ensures "INSERT INTO table_1_1 (message, recipient) VALUES ('" + "SGVsbG8gV29ybGQ="
         == "INSERT INTO table_1_1 (message, recipient) VALUES ('SGVsbG8gV29ybGQ="
  {
    var prefix := "INSERT INTO table_1_1 (message, recipient) VALUES ('";
    assert prefix + "SGVsbG8g" == "INSERT INTO table_1_1 (message, recipient) VALUES ('SGVsbG8g";
    assert "SGVsbG8g" + "V29ybGQ=" == "SGVsbG8gV29ybGQ=";
  }

  /** The base64 example's statement, piece by piece. */
  lemma Base64Text()
    ensures "INSERT INTO table_1_1 (message, recipient) VALUES ('" + "SGVsbG8gV29ybGQ=" + "', '" + "Sm9obiBEb2U=" + "');"
         == "INSERT INTO table_1_1 (message, recipient) VALUES ('SGVsbG8gV29ybGQ=', 'Sm9obiBEb2U=');"
  {
    Base64Head();
    var tail := "', '" + "Sm9obiBEb2U=" + "');";
    assert tail == "', 'Sm9obiBEb2U=');";
  }

  /** The base64 example's fragments around its two encoded values. */
  lemma Base64Statement()
    ensures Template.Interleave(["INSERT INTO table_1_1 (message, recipient) VALUES ('", "', '", "');"],
                                ["SGVsbG8gV29ybGQ=", "Sm9obiBEb2U="])
         == "INSERT INTO table_1_1 (message, recipient) VALUES ('SGVsbG8gV29ybGQ=', 'Sm9obiBEb2U=');"
  {
    var strings := ["INSERT INTO table_1_1 (message, recipient) VALUES ('", "', '", "');"];
    var parts := ["SGVsbG8gV29ybGQ=", "Sm9obiBEb2U="];
    assert Template.Interleave(strings[..1], parts) == strings[0] + parts[0] by {
      assert strings[..1][..0] == [];
    }
    assert Template.Interleave(strings[..2], parts) == strings[0] + parts[0] + strings[1] + parts[1] by {
      assert strings[..2][..1] == strings[..1];
    }
    assert Template.Interleave(strings, parts) == strings[0] + parts[0] + strings[1] + parts[1] + strings[2] by {
      assert strings[..2] == strings[..|strings| - 1];
    }
    Base64Text();
  }

  /** The base64 example: two values transformed and put back in place. */
  lemma Base64Example(toBase64: Value -> Result<Value>, fromBase64: Value -> Result<Value>)
    requires toBase64(Str("Hello World")) == Success(Str("SGVsbG8gV29ybGQ="))
    requires toBase64(Str("John Doe")) == Success(Str("Sm9obiBEb2U="))
    ensures Prepare(Processor(toBase64, fromBase64),
                    ["INSERT INTO table_1_1 (message, recipient) VALUES ('", "', '", "');"],
                    [Str("Hello World"), Str("John Doe")])
         == Success("INSERT INTO table_1_1 (message, recipient) VALUES ('SGVsbG8gV29ybGQ=', 'Sm9obiBEb2U=');")
  {
    var values := [Str("Hello World"), Str("John Doe")];
    var parts := ["SGVsbG8gV29ybGQ=", "Sm9obiBEb2U="];
    assert ProcessValue(toBase64, values[0]) == Success(parts[0]);
    assert ProcessValue(toBase64, values[1]) == Success(parts[1]);
    PrepareOfParts(Processor(toBase64, fromBase64), ["INSERT INTO table_1_1 (message, recipient) VALUES ('", "', '", "');"], values, parts);
    Base64Statement();
  }
}

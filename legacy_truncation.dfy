/// The truncate processor of the older generation: the same cut, other
/// wording, assembled by the older `createProcessor`.
module LegacyTruncation {
  import opened Values
  import Template
  import Processor
  import Process
  import Truncation

  const InvalidTypeMessage := "Can't truncate things that aren't strings"
  const LossWarning := "Yo, truncating is lossy, so you can't get the original back."

  function Truncate(value: Value): (r: Result<Value>)
    ensures r.Success? <==> value.Str?
    ensures r.Failure? ==> r.error == Error(InvalidTypeMessage)
    ensures r.Success? ==> r.value.Str? && |r.value.s| == Truncation.Min(|value.s|, Truncation.MaxLength) && r.value.s <= value.s
  {
    if value.Str? then Success(Str(value.s[..Truncation.Min(|value.s|, Truncation.MaxLength)]))
    else Failure(Error(InvalidTypeMessage))
  }

  function Detruncate(value: Value): (r: Result<Value>)
    ensures r.Success? && r.value.Str?
    ensures ToText(value) <= r.value.s && r.value.s[|ToText(value)|..] == "..." + LossWarning
  {
    var text := ToText(value) + "..." + LossWarning;
    assert text[|ToText(value)|..] == "..." + LossWarning;
    Success(Str(text))
  }

  /** `createProcess(truncate, detruncate)` */
  function TruncateProcess(): (p: Processor.Processor)
    ensures p.customProcessor == Truncate && p.resolver == Detruncate
  {
    Processor.Processor(Truncate, Detruncate)
  }

  /** Truncating a truncated string changes nothing. */
  lemma TruncateIdempotent(value: Value)
    requires Truncate(value).Success?
    ensures Truncate(Truncate(value).value) == Truncate(value)
  {
    var t := Truncate(value).value.s;
    assert t[..|t|] == t;
  }

  /**
   * Both generations accept the same values and cut a string at the same
   * place; only the wording of their errors and warnings differs.
   */
  lemma SameCutAsCurrent(value: Value)
    ensures Truncate(value).Success? <==> Truncation.Truncate(value).Success?
    ensures Truncate(value).Success? ==> Truncate(value) == Truncation.Truncate(value)
    ensures Truncate(value).Failure? ==> Truncate(value).error != Truncation.Truncate(value).error
  {
    if !value.Str? {
      assert InvalidTypeMessage[0] != Truncation.InvalidTypeMessage[0];
    }
  }

  /** A template that is one interpolated value yields the truncated string, or the invalid-type error. */
  lemma SingleInterpolation(value: Value)
    ensures Process.Prepare(TruncateProcess(), ["", ""], [value])
         == if value.Str? then Success(Truncate(value).value.s) else Failure(Error(InvalidTypeMessage))
  {
    var strings := ["", ""];
    if value.Str? {
      var t := Truncate(value).value.s;
      assert Process.Processed(TruncateProcess(), [value]).value == [t];
      assert Template.Interleave(strings, [t]) == t by {
        assert strings[..1] == [""] && strings[..1][..0] == [];
        assert Template.Interleave(strings[..1], [t]) == t;
      }
    } else {
      var r := Process.Prepare(TruncateProcess(), strings, [value]);
      var i :| 0 <= i < 1 && Process.ProcessValue(Truncate, [value][i]) == Failure(r.error);
    }
  }
}

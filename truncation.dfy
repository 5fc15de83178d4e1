/// The truncate processor of the current generation: the forward transform
/// keeps the first ten characters of a string, the reverse transform marks
/// the value as lossy.
module Truncation {
  import opened Values
  import Template
  import Processor

  const MaxLength := 10
  const InvalidTypeMessage := "Invalid type: can only truncate strings."
  const LossWarning := "Warning: the original value cannot be retrieved; truncating is lossy."

  function Min(a: int, b: int): int {
    if a < b then a else b
  }

  /** `value.slice(0, 10)` on strings; anything else is rejected. */
  function Truncate(value: Value): (r: Result<Value>)
    ensures r.Success? <==> value.Str?
    ensures r.Failure? ==> r.error == Error(InvalidTypeMessage)
    ensures r.Success? ==> r.value.Str? && |r.value.s| == Min(|value.s|, MaxLength) && r.value.s <= value.s
  {
    if value.Str? then Success(Str(value.s[..Min(|value.s|, MaxLength)])) else Failure(Error(InvalidTypeMessage))
  }

  /** The value (as text) followed by "..." and the loss warning. */
  function Detruncate(value: Value): (r: Result<Value>)
    ensures r.Success? && r.value.Str?
    ensures ToText(value) <= r.value.s && r.value.s[|ToText(value)|..] == "..." + LossWarning
  {
    var text := ToText(value) + "..." + LossWarning;
    assert text[|ToText(value)|..] == "..." + LossWarning;
    Success(Str(text))
  }

  /** `createProcessor(truncate, detruncate)` */
  function TruncateProcessor(): (p: Processor.Processor)
    ensures p.customProcessor == Truncate && p.resolver == Detruncate
  {
    Processor.Processor(Truncate, Detruncate)
  }

  /** A string of at most ten characters comes back unchanged. */
  lemma ShortStringUnchanged(s: string)
    requires |s| <= MaxLength
    ensures Truncate(Str(s)) == Success(Str(s))
  {
    assert s[..|s|] == s;
  }

  /** Truncating a truncated string changes nothing. */
  lemma TruncateIdempotent(value: Value)
    requires Truncate(value).Success?
    ensures Truncate(Truncate(value).value) == Truncate(value)
  {
    ShortStringUnchanged(Truncate(value).value.s);
  }

  /** The long string of the example keeps its first ten characters. */
  lemma LongStringExample()
    ensures Truncate(Str("the quick " + "red fox jumped over the lazy brown dog and will be truncated"))
         == Success(Str("the quick "))
  {
    var head := "the quick ";
    var s := head + "red fox jumped over the lazy brown dog and will be truncated";
    assert s[..|head|] == head;
  }

  /** A number is rejected with the invalid-type error. */
  lemma NumberRejected(n: int)
    ensures Processor.Prepare(TruncateProcessor(), ["", ""], [Num(n)]) == Failure(Error(InvalidTypeMessage))
  {
    assert Processor.ProcessValue(Truncate, Num(n)) == Failure(Error(InvalidTypeMessage));
    var r := Processor.Prepare(TruncateProcessor(), ["", ""], [Num(n)]);
    var i :| 0 <= i < 1 && Processor.ProcessValue(Truncate, [Num(n)][i]) == Failure(r.error);
  }

  /** A template that is one interpolated string yields that string truncated. */
  lemma SingleInterpolation(s: string)
    ensures Processor.Prepare(TruncateProcessor(), ["", ""], [Str(s)]) == Success(Truncate(Str(s)).value.s)
  {
    var t := Truncate(Str(s)).value.s;
    assert Processor.ProcessValue(Truncate, Str(s)) == Success(t);
    assert Processor.Processed(TruncateProcessor(), [Str(s)]).value == [t];
    var strings := ["", ""];
    assert Template.Interleave(strings, [t]) == t by {
      assert strings[..1] == [""] && strings[..1][..0] == [];
      assert Template.Interleave(strings[..1], [t]) == t;
    }
  }

  /** Resolving what was truncated keeps the truncated text and always ends in the ellipsis and the warning. */
  lemma DetruncateTruncated(value: Value)
    requires Truncate(value).Success?
    ensures var out := Detruncate(Truncate(value).value).value.s;
      && value.s[..Min(|value.s|, MaxLength)] <= out
      && out[|out| - |"..." + LossWarning|..] == "..." + LossWarning
  {
    var t := Truncate(value).value;
    assert t.s == value.s[..Min(|value.s|, MaxLength)];
  }
}


/// Assembling a tagged template: the literal fragments with the processed
/// values put back between them (the `zip` helper of the processors).
module Template {

  /** The processed value at position i, or "" where there is none. */
  function Part(parts: seq<string>, i: nat): string {
    if i < |parts| then parts[i] else ""
  }

  /** The processed values from position k on. */
  function Drop(parts: seq<string>, k: nat): seq<string> {
    if k <= |parts| then parts[k..] else []
  }

  /**
   * fragments[0] + parts[0] + fragments[1] + parts[1] + ... : every fragment
   * in order, each followed by the processed value at its position, if any.
   */
  function Interleave(fragments: seq<string>, parts: seq<string>): string
    decreases |fragments|
  {
    if fragments == [] then ""
    else
      var n := |fragments| - 1;
      Interleave(fragments[..n], parts) + fragments[n] + Part(parts, n)
  }

  /** The fragments alone, concatenated in order. */
  function Join(fragments: seq<string>): string
    decreases |fragments|
  {
    if fragments == [] then "" else Join(fragments[..|fragments| - 1]) + fragments[|fragments| - 1]
  }

  /**
   * The `zip` loop: for each fragment, append it, then the processed value at
   * the same position when that value is truthy (a non-empty string).
   */
  method Zip(fragments: seq<string>, parts: seq<string>) returns (str: string)
    ensures str == Interleave(fragments, parts)
  {
    str := "";
    for i := 0 to |fragments|
      invariant str == Interleave(fragments[..i], parts)
    {
      assert fragments[..i + 1][..i] == fragments[..i];
      if i < |parts| && parts[i] != "" {
        str := str + fragments[i] + parts[i];
      } else {
        assert Part(parts, i) == "";
        str := str + fragments[i];
      }
    }
    assert fragments[..|fragments|] == fragments;
  }

  lemma {:induction false} PartOfDrop(parts: seq<string>, k: nat, j: nat)
    ensures Part(Drop(parts, k), j) == Part(parts, k + j)
  {
  }

  /** The last fragment and its value close the assembly. */
  lemma InterleaveLast(fragments: seq<string>, parts: seq<string>)
    requires fragments != []
    ensures var n := |fragments| - 1;
      Interleave(fragments, parts) == Interleave(fragments[..n], parts) + (fragments[n] + Part(parts, n))
  {
    var n := |fragments| - 1;
    var head := Interleave(fragments[..n], parts);
    assert head + fragments[n] + Part(parts, n) == head + (fragments[n] + Part(parts, n));
  }

  /** Assembly splits at any fragment boundary: the template's head, then its tail with the later values. */
  lemma {:induction false} InterleaveSplit(fragments: seq<string>, parts: seq<string>, k: nat)
    requires k <= |fragments|
    ensures Interleave(fragments, parts) == Interleave(fragments[..k], parts) + Interleave(fragments[k..], Drop(parts, k))
    decreases |fragments|
  {
    if k == |fragments| {
      assert fragments[..k] == fragments;
      assert fragments[k..] == [];
    } else {
      var n := |fragments| - 1;
      var init := fragments[..n];
      var tail := fragments[k..];
      var rest := Drop(parts, k);
      var last := fragments[n] + Part(parts, n);
      var head := Interleave(fragments[..k], parts);
      var middle := Interleave(init[k..], rest);
      assert Interleave(fragments, parts) == Interleave(init, parts) + last by {
        InterleaveLast(fragments, parts);
      }
      assert Interleave(tail, rest) == middle + last by {
        InterleaveLast(tail, rest);
        assert tail[..|tail| - 1] == init[k..];
        assert tail[|tail| - 1] == fragments[n];
        PartOfDrop(parts, k, n - k);
      }
      assert Interleave(init, parts) == head + middle by {
        InterleaveSplit(init, parts, k);
        assert init[..k] == fragments[..k];
      }
      assert head + middle + last == head + (middle + last);
    }
  }

  /**
   * Value i lands between fragment i and fragment i + 1: the assembled string
   * is the assembly of the first i fragments, fragment i, value i, and then
   * the assembly of the remaining fragments with the remaining values.
   */
  lemma {:induction false} InterleaveAt(fragments: seq<string>, parts: seq<string>, i: nat)
    requires i < |fragments|
    ensures Interleave(fragments, parts)
         == Interleave(fragments[..i], parts) + fragments[i] + Part(parts, i)
            + Interleave(fragments[i + 1..], Drop(parts, i + 1))
  {
    InterleaveSplit(fragments, parts, i + 1);
    var head := fragments[..i + 1];
    assert head[..i] == fragments[..i];
  }

  /** Only the values at the fragments' positions matter: values past the last fragment are ignored, and an empty value counts as a missing one. */
  lemma {:induction false} InterleaveUsesOnlyParts(fragments: seq<string>, parts: seq<string>, others: seq<string>)
    requires forall i | 0 <= i < |fragments| :: Part(parts, i) == Part(others, i)
    ensures Interleave(fragments, parts) == Interleave(fragments, others)
    decreases |fragments|
  {
    if fragments != [] {
      InterleaveUsesOnlyParts(fragments[..|fragments| - 1], parts, others);
    }
  }

  /** Without values, assembly is the fragments in order: no fragment is lost or reordered. */
  lemma {:induction false} InterleaveWithoutParts(fragments: seq<string>, parts: seq<string>)
    requires forall i | 0 <= i < |parts| :: parts[i] == ""
    ensures Interleave(fragments, parts) == Join(fragments)
    decreases |fragments|
  {
    if fragments != [] {
      InterleaveWithoutParts(fragments[..|fragments| - 1], parts);
      assert Part(parts, |fragments| - 1) == "";
    }
  }
}

/// The values that flow through the processors: what a caller interpolates
/// into a template, what a transform returns, what a result row holds, and
/// the ways an operation can fail.
module Values {

  newtype byte = x: int | 0 <= x < 256

  /** A JavaScript value, as far as the processors look at it. */
  datatype Value =
    | Str(s: string)            // a string
    | Num(n: int)               // a number (integral numbers only)
    | Bytes(b: seq<byte>)       // a Uint8Array
    | Blob(data: seq<byte>)     // a Blob, with the bytes it holds
    | Marker(original: string)  // `{ jetiShouldSkip: true, original }`, built by `skip`
    | Null                      // null (and undefined)

  /** What a rejected promise carries. */
  datatype Exception =
    | Error(message: string)      // `new Error(message)`; the store client rejects with these too
    | TypeError(message: string)  // raised by the JavaScript engine itself
    | Thrown(text: string)        // `throw "text"`: a bare string, not an Error object

  datatype Result<+T> = Success(value: T) | Failure(error: Exception)

  datatype Option<+T> = None | Some(value: T)

  /** JavaScript truthiness: "", 0 and null are falsy, every object is truthy. */
  predicate Truthy(v: Value) {
    match v
    case Str(s) => s != ""
    case Num(n) => n != 0
    case Null => false
    case _ => true
  }

  /** `String(v)`: the text `+` uses when the other operand is a string. */
  function ToText(v: Value): string {
    match v
    case Str(s) => s
    case Num(n) => Decimal(n)
    case Bytes(b) => JoinDecimals(b)
    case Blob(_) => "[object Blob]"
    case Marker(_) => "[object Object]"
    case Null => "null"
  }

  function Digit(d: nat): char
    requires d < 10
  {
    "0123456789"[d]
  }

  /** The decimal numeral of a natural number, without leading zeros. */
  function Digits(n: nat): string
    decreases n
  {
    if n < 10 then [Digit(n)] else Digits(n / 10) + [Digit(n % 10)]
  }

  function Decimal(n: int): string {
    if n < 0 then "-" + Digits(-n) else Digits(n)
  }

  /** `Uint8Array.prototype.toString`: the elements' numerals joined by commas. */
  function JoinDecimals(b: seq<byte>): string {
    if b == [] then ""
    else if |b| == 1 then Digits(b[0] as nat)
    else Digits(b[0] as nat) + "," + JoinDecimals(b[1..])
  }

  /** `fragment` occurs in `text` starting at index `i`. */
  predicate OccursAt(text: string, fragment: string, i: nat) {
    i + |fragment| <= |text| && text[i..i + |fragment|] == fragment
  }

  /** `text.includes(fragment)` */
  function Contains(text: string, fragment: string): (b: bool)
    ensures b <==> exists i: nat :: OccursAt(text, fragment, i)
    decreases |text|
  {
    if |text| < |fragment| then
      assert forall i: nat :: !OccursAt(text, fragment, i);
      false
    else if text[..|fragment|] == fragment then
      assert OccursAt(text, fragment, 0);
      true
    else
      assert forall i: nat :: OccursAt(text[1..], fragment, i) <==> OccursAt(text, fragment, i + 1) by {
        forall i: nat ensures OccursAt(text[1..], fragment, i) <==> OccursAt(text, fragment, i + 1) {
          if i + |fragment| <= |text[1..]| {
            assert text[1..][i..i + |fragment|] == text[i + 1..i + 1 + |fragment|];
          }
        }
      }
      assert !OccursAt(text, fragment, 0);
      assert forall i: nat :: OccursAt(text, fragment, i) ==> i > 0 && OccursAt(text[1..], fragment, i - 1);
      Contains(text[1..], fragment)
  }

  /**
   * `Promise.all(xs.map(f))` for transforms without side effects: every
   * element is transformed and the results keep their positions; when some
   * element fails, the whole fails, and (timing aside) with the error of the
   * first failing position.
   */
  function All<A, B>(f: A -> Result<B>, xs: seq<A>): (r: Result<seq<B>>)
    ensures r.Success? <==> forall i | 0 <= i < |xs| :: f(xs[i]).Success?
    ensures r.Success? ==> |r.value| == |xs| && forall i | 0 <= i < |xs| :: f(xs[i]) == Success(r.value[i])
    ensures r.Failure? ==>
      exists i | 0 <= i < |xs| :: f(xs[i]) == Failure(r.error) && forall j | 0 <= j < i :: f(xs[j]).Success?
  {
    if xs == [] then Success([])
    else
      match f(xs[0])
      case Failure(e) => Failure(e)
      case Success(y) =>
        var rest := All(f, xs[1..]);
        assert forall i | 1 <= i < |xs| :: xs[i] == xs[1..][i - 1];
        match rest
        case Failure(e) =>
          var k :| 0 <= k < |xs[1..]| && f(xs[1..][k]) == Failure(e) && forall j | 0 <= j < k :: f(xs[1..][j]).Success?;
          assert f(xs[k + 1]) == Failure(e) && forall j | 0 <= j < k + 1 :: f(xs[j]).Success?;
          Failure(e)
        case Success(ys) => Success([y] + ys)
  }

  /** Once every element's outcome is known to succeed, `Promise.all` resolves with exactly those values. */
  lemma AllSucceeds<A, B>(f: A -> Result<B>, xs: seq<A>, ys: seq<B>)
    requires |ys| == |xs| && forall i | 0 <= i < |xs| :: f(xs[i]) == Success(ys[i])
    ensures All(f, xs) == Success(ys)
  {
    var r := All(f, xs);
    assert r.Success?;
    assert r.value == ys;
  }

  /** `Promise.all` rejects with the error of the first element that fails. */
  lemma AllFails<A, B>(f: A -> Result<B>, xs: seq<A>, k: nat, e: Exception)
    requires k < |xs| && f(xs[k]) == Failure(e) && forall j | 0 <= j < k :: f(xs[j]).Success?
    ensures All(f, xs) == Failure(e)
  {
    var r := All(f, xs);
    var i :| 0 <= i < |xs| && f(xs[i]) == Failure(r.error) && forall j | 0 <= j < i :: f(xs[j]).Success?;
    assert i == k;
  }

  /** The error of the first failed outcome, if any: what `Promise.all` rejects with. */
  function FirstError<T>(outcomes: seq<Result<T>>): (e: Option<Exception>)
    ensures e.None? <==> forall i | 0 <= i < |outcomes| :: outcomes[i].Success?
    ensures e.Some? ==>
      exists k | 0 <= k < |outcomes| :: outcomes[k] == Failure(e.value) && forall j | 0 <= j < k :: outcomes[j].Success?
    decreases |outcomes|
  {
    if outcomes == [] then None
    else
      var n := |outcomes| - 1;
      var init := outcomes[..n];
      assert forall i | 0 <= i < n :: init[i] == outcomes[i];
      match FirstError(init)
      case Some(e) => Some(e)
      case None => if outcomes[n].Failure? then Some(outcomes[n].error) else None
  }
}

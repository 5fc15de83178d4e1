/// The reverse half of a processor: running the resolver over the listed keys
/// of every row of a result set (the `resolve` operation).
module Rows {
  import opened Values

  /** One property of a row object. */
  datatype Field = Field(key: string, value: Value)

  /** A row object: its own properties, in the order a for-in loop visits them. */
  type Row = seq<Field>

  function Keys(row: Row): (keys: seq<string>)
    ensures |keys| == |row| && forall i | 0 <= i < |row| :: keys[i] == row[i].key
  {
    if row == [] then [] else [row[0].key] + Keys(row[1..])
  }

  /** What resolution puts under one key: the resolver's result for a listed key, the value itself otherwise. */
  function ResolveField(field: Field, keysToResolve: seq<string>, resolver: Value -> Result<Value>): Result<Value> {
    if field.key in keysToResolve then resolver(field.value) else Success(field.value)
  }

  /** The resolver succeeds on every listed key of the row. */
  predicate Resolvable(row: Row, keysToResolve: seq<string>, resolver: Value -> Result<Value>) {
    forall i | 0 <= i < |row| :: ResolveField(row[i], keysToResolve, resolver).Success?
  }

  /**
   * `out` is `row` resolved: the same keys in the same order, the resolver's
   * result under every listed key, and every other property copied.
   */
  predicate ResolvedFrom(row: Row, out: Row, keysToResolve: seq<string>, resolver: Value -> Result<Value>) {
    && |out| == |row|
    && (forall i | 0 <= i < |row| :: out[i].key == row[i].key)
    && (forall i | 0 <= i < |row| && row[i].key in keysToResolve :: resolver(row[i].value) == Success(out[i].value))
    && (forall i | 0 <= i < |row| && row[i].key !in keysToResolve :: out[i] == row[i])
  }

  /** Resolution of `row` stops at its first failing listed key, with that key's error. */
  predicate FailsWith(row: Row, keysToResolve: seq<string>, resolver: Value -> Result<Value>, e: Exception) {
    exists i | 0 <= i < |row| ::
      && ResolveField(row[i], keysToResolve, resolver) == Failure(e)
      && Resolvable(row[..i], keysToResolve, resolver)
  }

  /**
   * The per-row for-in loop: a fresh row object is filled key by key, awaiting
   * the resolver on each listed key in turn.
   */
  method ResolveRow(row: Row, keysToResolve: seq<string>, resolver: Value -> Result<Value>) returns (r: Result<Row>)
    ensures r.Success? <==> Resolvable(row, keysToResolve, resolver)
    ensures r.Success? ==> ResolvedFrom(row, r.value, keysToResolve, resolver)
    ensures r.Failure? ==> FailsWith(row, keysToResolve, resolver, r.error)
  {
    var resolvedRow: Row := [];
    for i := 0 to |row|
      invariant Resolvable(row[..i], keysToResolve, resolver)
      invariant ResolvedFrom(row[..i], resolvedRow, keysToResolve, resolver)
    {
      var field := row[i];
      if field.key in keysToResolve {
        var resolved := resolver(field.value);
        if resolved.Failure? {
          assert ResolveField(row[i], keysToResolve, resolver) == Failure(resolved.error);
          return Failure(resolved.error);
        }
        resolvedRow := resolvedRow + [Field(field.key, resolved.value)];
      } else {
        resolvedRow := resolvedRow + [field];
      }
      assert row[..i + 1] == row[..i] + [row[i]];
    }
    assert row[..|row|] == row;
    r := Success(resolvedRow);
  }

  /**
   * `Promise.all(resultSet.map(...))`: every row resolved, in order; the whole
   * fails when a row does, with the error of the first failing row.
   */
  method ResolveRows(resultSet: seq<Row>, keysToResolve: seq<string>, resolver: Value -> Result<Value>)
    returns (r: Result<seq<Row>>)
    ensures r.Success? <==> forall i | 0 <= i < |resultSet| :: Resolvable(resultSet[i], keysToResolve, resolver)
    ensures r.Success? ==>
      && |r.value| == |resultSet|
      && forall i | 0 <= i < |resultSet| :: ResolvedFrom(resultSet[i], r.value[i], keysToResolve, resolver)
    ensures r.Failure? ==>
      exists i | 0 <= i < |resultSet| ::
        && FailsWith(resultSet[i], keysToResolve, resolver, r.error)
        && forall j | 0 <= j < i :: Resolvable(resultSet[j], keysToResolve, resolver)
  {
    var resolvedRows: seq<Row> := [];
    for i := 0 to |resultSet|
      invariant |resolvedRows| == i
      invariant forall j | 0 <= j < i :: Resolvable(resultSet[j], keysToResolve, resolver)
      invariant forall j | 0 <= j < i :: ResolvedFrom(resultSet[j], resolvedRows[j], keysToResolve, resolver)
    {
      var resolved := ResolveRow(resultSet[i], keysToResolve, resolver);
      if resolved.Failure? {
        return Failure(resolved.error);
      }
      resolvedRows := resolvedRows + [resolved.value];
    }
    r := Success(resolvedRows);
  }

  /** A resolved row has exactly the input row's keys, in order: listed keys it lacks are not added. */
  lemma KeysKept(row: Row, out: Row, keysToResolve: seq<string>, resolver: Value -> Result<Value>)
    requires ResolvedFrom(row, out, keysToResolve, resolver)
    ensures Keys(out) == Keys(row)
  {
  }

  /** With nothing listed, resolution copies the row as it is and cannot fail. */
  lemma NothingListed(row: Row, resolver: Value -> Result<Value>, out: Row)
    requires ResolvedFrom(row, out, [], resolver)
    ensures Resolvable(row, [], resolver) && out == row
  {
  }
}

/// The IPFS client the pinning transforms talk to, as an abstract store: the
/// content added so far, the local pins, the remote pin requests, the remote
/// pinning services the node is connected to, and every call made, in order.
/// Content hashing and CID text encoding are the client's business and are
/// given as opaque functions; failures the client reports are configured up
/// front, the way a mock node is told to fail.
module Ipfs {
  import opened Values

  /** A content identifier as the client returns it. */
  datatype Cid = Cid(version: nat, multihash: seq<byte>)

  /** `cid.toV1()` */
  function ToV1(cid: Cid): Cid {
    cid.(version := 1)
  }

  /**
   * What `add` is given: the content, and the `path` and `wrapWithDirectory`
   * option when the caller passes them (`add(content)` alone is a file with
   * path "" and no wrapping directory).
   */
  datatype Upload = Upload(content: Value, path: string, wrapWithDirectory: bool)

  /** An entry of `pin.remote.service.ls()`. */
  datatype Service = Service(service: string, endpoint: string)

  /** A `pin.remote.add(cid, { service, name })` request. */
  datatype RemotePin = RemotePin(cid: Cid, service: string, name: string)

  datatype Call =
    | ServiceLs                   // pin.remote.service.ls()
    | Add(upload: Upload)         // add(...)
    | PinAdd(cid: Cid)            // pin.add(cid)
    | RemoteAdd(pin: RemotePin)   // pin.remote.add(cid, ...)

  /** The message each kind of call fails with, if it fails. */
  datatype Faults = Faults(ls: Option<string>, add: Option<string>, pin: Option<string>, remote: Option<string>, cat: Option<string>)

  /** The chunk size of the client's default chunker: `cat` yields the content in chunks of at most this many bytes. */
  const ChunkSize := 262144

  /** The reason a remote pinning service gives for a CID it already pins. */
  const DuplicateReason := "DUPLICATE_OBJECT"

  /** The client's message for content it cannot add (neither bytes nor a Blob). */
  const UnexpectedInput := "Unexpected input"

  /** The client's message for a path that names no content. */
  const NotFound := "content not found"

  /** Content the client can add: bytes, and the bytes of a Blob. */
  predicate Addable(content: Value) {
    content.Bytes? || content.Blob?
  }

  function BytesOf(content: Value): seq<byte>
    requires Addable(content)
  {
    if content.Bytes? then content.b else content.data
  }

  /** The chunks `cat` streams: consecutive pieces of the content, none empty, none over the chunk size. */
  function Chunks(data: seq<byte>): (chunks: seq<seq<byte>>)
    ensures forall i | 0 <= i < |chunks| :: 0 < |chunks[i]| <= ChunkSize
    decreases |data|
  {
    if |data| == 0 then []
    else if |data| <= ChunkSize then [data]
    else [data[..ChunkSize]] + Chunks(data[ChunkSize..])
  }

  /** All chunks, one after the other. */
  function Concat(chunks: seq<seq<byte>>): seq<byte>
    decreases |chunks|
  {
    if chunks == [] then [] else Concat(chunks[..|chunks| - 1]) + chunks[|chunks| - 1]
  }

  lemma {:induction false} ConcatCons(head: seq<byte>, tail: seq<seq<byte>>)
    ensures Concat([head] + tail) == head + Concat(tail)
    decreases |tail|
  {
    if tail != [] {
      var all := [head] + tail;
      var init := tail[..|tail| - 1];
      assert all[..|all| - 1] == [head] + init;
      ConcatCons(head, init);
    } else {
      assert [head] + tail == [head];
      assert [head][..0] == [];
    }
  }

  /** Streaming the chunks back and concatenating them gives the content that was added. */
  lemma {:induction false} ChunksConcat(data: seq<byte>)
    ensures Concat(Chunks(data)) == data
    decreases |data|
  {
    if |data| == 0 {
    } else if |data| <= ChunkSize {
      assert [data][..0] == [];
    } else {
      ChunksConcat(data[ChunkSize..]);
      ConcatCons(data[..ChunkSize], Chunks(data[ChunkSize..]));
      assert data[..ChunkSize] + data[ChunkSize..] == data;
    }
  }

  /** The name every upload is pinned under on a remote service. */
  const PinName := "Tableland Upload"

  /** The message of the failure raised when the node lists no remote pinning service. */
  const NoServiceMessage := "No remote pinning service connected."

  /**
   * An error object whose message mentions DUPLICATE_OBJECT: the remote
   * service already pins the CID. A bare thrown string has no `message`.
   */
  predicate IsDuplicate(e: Exception) {
    (e.Error? || e.TypeError?) && Contains(e.message, DuplicateReason)
  }

  /** A message without a capital D cannot mention DUPLICATE_OBJECT. */
  lemma NotDuplicate(message: string)
    requires forall i | 0 <= i < |message| :: message[i] != 'D'
    ensures !IsDuplicate(Error(message))
  {
    forall i: nat | i + |DuplicateReason| <= |message|
      ensures !OccursAt(message, DuplicateReason, i)
    {
      assert message[i..i + |DuplicateReason|][0] == message[i] != DuplicateReason[0];
    }
  }

  /** The no-service error is not mistaken for a duplicate: the remote branch's catch rethrows it. */
  lemma NoServiceIsNotDuplicate()
    ensures !IsDuplicate(Error(NoServiceMessage))
  {
    var a, b, c, d := "No remote ", "pinning ", "service ", "connected.";
    assert NoServiceMessage == a + b + c + d;
    assert forall i | 0 <= i < |a| :: a[i] != 'D';
    assert forall i | 0 <= i < |b| :: b[i] != 'D';
    assert forall i | 0 <= i < |c| :: c[i] != 'D';
    assert forall i | 0 <= i < |d| :: d[i] != 'D';
    NotDuplicate(NoServiceMessage);
  }

  /** The catch around a remote pin: a failure that mentions DUPLICATE_OBJECT is swallowed, any other one rethrown. */
  function Tolerate(attempt: Result<()>): (r: Result<()>)
    ensures r.Success? <==> attempt.Success? || IsDuplicate(attempt.error)
    ensures r.Failure? ==> r == attempt
  {
    if attempt.Failure? && !IsDuplicate(attempt.error) then attempt else Success(())
  }

  /** `cat(path)`, given the content added so far. */
  function CatFrom(blocks: map<string, seq<seq<byte>>>, fault: Option<string>, path: Value): Result<seq<seq<byte>>> {
    if fault.Some? then Failure(Error(fault.value))
    else if path.Str? && path.s in blocks then Success(blocks[path.s])
    else Failure(Error(NotFound))
  }

  /** What the pinning code changes on a node: its content, its pins, and the calls made to it. */
  datatype Node = Node(blocks: map<string, seq<seq<byte>>>, localPins: seq<Cid>, remotePins: seq<RemotePin>, calls: seq<Call>)

  /**
   * `after` is `before` with more done to it: calls were only appended,
   * content was only added or replaced under the keys given, and the pins
   * appended are all of the CIDs given.
   */
  predicate Extends(before: Node, after: Node, keys: set<string>, cids: set<Cid>) {
    && before.calls <= after.calls
    && before.blocks.Keys <= after.blocks.Keys
    && (forall k | k in after.blocks && k !in keys :: k in before.blocks && after.blocks[k] == before.blocks[k])
    && before.localPins <= after.localPins
    && (forall i | |before.localPins| <= i < |after.localPins| :: after.localPins[i] in cids)
    && before.remotePins <= after.remotePins
    && (forall i | |before.remotePins| <= i < |after.remotePins| :: after.remotePins[i].cid in cids)
  }

  lemma ExtendsTransitive(a: Node, b: Node, c: Node, keys1: set<string>, cids1: set<Cid>, keys2: set<string>, cids2: set<Cid>)
    requires Extends(a, b, keys1, cids1) && Extends(b, c, keys2, cids2)
    ensures Extends(a, c, keys1 + keys2, cids1 + cids2)
  {
    assert a.calls <= c.calls by {
      assert c.calls[..|a.calls|] == b.calls[..|b.calls|][..|a.calls|];
    }
    assert a.localPins <= c.localPins by {
      assert c.localPins[..|a.localPins|] == b.localPins[..|b.localPins|][..|a.localPins|];
    }
    assert a.remotePins <= c.remotePins by {
      assert c.remotePins[..|a.remotePins|] == b.remotePins[..|b.remotePins|][..|a.remotePins|];
    }
    forall i | |a.localPins| <= i < |c.localPins|
      ensures c.localPins[i] in cids1 + cids2
    {
      if i < |b.localPins| {
        assert c.localPins[i] == b.localPins[i];
      }
    }
    forall i | |a.remotePins| <= i < |c.remotePins|
      ensures c.remotePins[i].cid in cids1 + cids2
    {
      if i < |b.remotePins| {
        assert c.remotePins[i] == b.remotePins[i];
      }
    }
  }

  /** The node after `step` has been applied for each value in turn, first to last. */
  function Fold(n: Node, values: seq<Value>, step: (Node, Value) -> Node): Node
    decreases |values|
  {
    if values == [] then n else step(Fold(n, values[..|values| - 1], step), values[|values| - 1])
  }

  /** The calls of each value, in the order of the values. */
  function Traces(values: seq<Value>, trace: Value -> seq<Call>): seq<Call>
    decreases |values|
  {
    if values == [] then [] else Traces(values[..|values| - 1], trace) + trace(values[|values| - 1])
  }

  function Union<T>(values: seq<Value>, f: Value -> set<T>): set<T>
    decreases |values|
  {
    if values == [] then {} else Union(values[..|values| - 1], f) + f(values[|values| - 1])
  }

  /** When each step appends its value's calls, the fold appends all of them in order. */
  lemma {:induction false} FoldCalls(n: Node, values: seq<Value>, step: (Node, Value) -> Node, trace: Value -> seq<Call>)
    requires forall m: Node, v: Value :: step(m, v).calls == m.calls + trace(v)
    ensures Fold(n, values, step).calls == n.calls + Traces(values, trace)
    decreases |values|
  {
    if values != [] {
      var k := |values| - 1;
      FoldCalls(n, values[..k], step, trace);
      assert Fold(n, values, step).calls == n.calls + Traces(values[..k], trace) + trace(values[k]);
    }
  }

  /** When each step only adds what its value names, the fold only adds what the values name. */
  lemma {:induction false} FoldExtends(n: Node, values: seq<Value>, step: (Node, Value) -> Node, keys: Value -> set<string>, cids: Value -> set<Cid>)
    requires forall m: Node, v: Value :: Extends(m, step(m, v), keys(v), cids(v))
    ensures Extends(n, Fold(n, values, step), Union(values, keys), Union(values, cids))
    decreases |values|
  {
    if values != [] {
      var k := |values| - 1;
      var m := Fold(n, values[..k], step);
      FoldExtends(n, values[..k], step, keys, cids);
      ExtendsTransitive(n, m, step(m, values[k]), Union(values[..k], keys), Union(values[..k], cids), keys(values[k]), cids(values[k]));
    }
  }

  /** Values the step leaves alone leave the node as it was. */
  lemma {:induction false} FoldSkips(n: Node, values: seq<Value>, step: (Node, Value) -> Node)
    requires forall m: Node, i | 0 <= i < |values| :: step(m, values[i]) == m
    ensures Fold(n, values, step) == n
    decreases |values|
  {
    if values != [] {
      var k := |values| - 1;
      assert forall i | 0 <= i < k :: values[..k][i] == values[i];
      FoldSkips(n, values[..k], step);
    }
  }

  class Store {
    const services: seq<Service>
    const faults: Faults
    /** The CID the client computes for an upload (hashing and DAG layout). */
    const address: Upload -> Cid
    /** `cid.toString()`, the client's text encoding of a CID. */
    const cidText: Cid -> string
    /** Added content, by the text of its v1 CID, as the chunks `cat` streams. */
    var blocks: map<string, seq<seq<byte>>>
    var localPins: seq<Cid>
    var remotePins: seq<RemotePin>
    var calls: seq<Call>

    constructor (services: seq<Service>, faults: Faults, address: Upload -> Cid, cidText: Cid -> string)
      ensures this.services == services && this.faults == faults
      ensures this.address == address && this.cidText == cidText
      ensures blocks == map[] && localPins == [] && remotePins == [] && calls == []
    {
      this.services := services;
      this.faults := faults;
      this.address := address;
      this.cidText := cidText;
      blocks := map[];
      localPins := [];
      remotePins := [];
      calls := [];
    }

    /** `cid.toV1().toString()` */
    function V1Text(cid: Cid): string {
      cidText(ToV1(cid))
    }

    function State(): Node
      reads this
    {
      Node(blocks, localPins, remotePins, calls)
    }

    /** The node after `service.ls()`. */
    function Listed(n: Node): Node {
      n.(calls := n.calls + [Call.ServiceLs])
    }

    /** The node after `add(upload)`: file content is kept under the v1 text of its CID. */
    function Added(n: Node, upload: Upload): Node {
      n.(calls := n.calls + [Call.Add(upload)],
         blocks := if AddOutcome(upload).Success? && !upload.wrapWithDirectory
                   then n.blocks[V1Text(address(upload)) := Chunks(BytesOf(upload.content))]
                   else n.blocks)
    }

    /** The node after `pin.add(cid)`. */
    function PinnedLocally(n: Node, cid: Cid): Node {
      n.(calls := n.calls + [Call.PinAdd(cid)],
         localPins := if PinOutcome().Success? then n.localPins + [cid] else n.localPins)
    }

    /** The node after `pin.remote.add(...)`. */
    function PinnedRemotely(n: Node, pin: RemotePin): Node {
      n.(calls := n.calls + [Call.RemoteAdd(pin)],
         remotePins := if RemoteOutcome(n.remotePins, pin).Success? then n.remotePins + [pin] else n.remotePins)
    }

    function Listing(): Result<seq<Service>> {
      if faults.ls.Some? then Failure(Error(faults.ls.value)) else Success(services)
    }

    function AddOutcome(upload: Upload): Result<Cid> {
      if faults.add.Some? then Failure(Error(faults.add.value))
      else if !Addable(upload.content) then Failure(Error(UnexpectedInput))
      else Success(address(upload))
    }

    function PinOutcome(): Result<()> {
      if faults.pin.Some? then Failure(Error(faults.pin.value)) else Success(())
    }

    /** A remote pin fails with the configured fault, or as a duplicate when the service already pins the CID. */
    function RemoteOutcome(pins: seq<RemotePin>, pin: RemotePin): Result<()> {
      if faults.remote.Some? then Failure(Error(faults.remote.value))
      else if exists i | 0 <= i < |pins| :: pins[i].cid == pin.cid && pins[i].service == pin.service then
        Failure(Error(DuplicateReason))
      else Success(())
    }

    /** What a remote pin comes to once a duplicate is forgiven: only a configured fault remains. */
    function RemoteVerdict(): Result<()> {
      if faults.remote.Some? then Tolerate(Failure(Error(faults.remote.value))) else Success(())
    }

    /** Pinning twice is no error: whatever is pinned already, the forgiving catch sees the same verdict. */
    lemma RemoteVerdictIgnoresPins(pins: seq<RemotePin>, pin: RemotePin)
      ensures Tolerate(RemoteOutcome(pins, pin)) == RemoteVerdict()
    {
      assert OccursAt(DuplicateReason, DuplicateReason, 0);
    }

    method ServiceLs() returns (r: Result<seq<Service>>)
      modifies this`calls
      ensures r == Listing()
      ensures calls == old(calls) + [Call.ServiceLs]
      ensures State() == Listed(old(State()))
    {
      calls := calls + [Call.ServiceLs];
      if faults.ls.Some? {
        r := Failure(Error(faults.ls.value));
      } else {
        r := Success(services);
      }
    }

    /** Adds the content; a wrapped upload's CID names a directory, which `cat` cannot stream. */
    method Add(upload: Upload) returns (r: Result<Cid>)
      modifies this`calls, this`blocks
      ensures r == AddOutcome(upload)
      ensures calls == old(calls) + [Call.Add(upload)]
      ensures blocks == if r.Success? && !upload.wrapWithDirectory
                        then old(blocks)[V1Text(r.value) := Chunks(BytesOf(upload.content))]
                        else old(blocks)
      ensures State() == Added(old(State()), upload)
    {
      calls := calls + [Call.Add(upload)];
      if faults.add.Some? {
        r := Failure(Error(faults.add.value));
      } else if !Addable(upload.content) {
        r := Failure(Error(UnexpectedInput));
      } else {
        var cid := address(upload);
        if !upload.wrapWithDirectory {
          blocks := blocks[V1Text(cid) := Chunks(BytesOf(upload.content))];
        }
        r := Success(cid);
      }
    }

    method PinAdd(cid: Cid) returns (r: Result<()>)
      modifies this`calls, this`localPins
      ensures r == PinOutcome()
      ensures calls == old(calls) + [Call.PinAdd(cid)]
      ensures localPins == if r.Success? then old(localPins) + [cid] else old(localPins)
      ensures State() == PinnedLocally(old(State()), cid)
    {
      calls := calls + [Call.PinAdd(cid)];
      if faults.pin.Some? {
        r := Failure(Error(faults.pin.value));
      } else {
        localPins := localPins + [cid];
        r := Success(());
      }
    }

    method RemoteAdd(pin: RemotePin) returns (r: Result<()>)
      modifies this`calls, this`remotePins
      ensures r == RemoteOutcome(old(remotePins), pin)
      ensures calls == old(calls) + [Call.RemoteAdd(pin)]
      ensures remotePins == if r.Success? then old(remotePins) + [pin] else old(remotePins)
      ensures State() == PinnedRemotely(old(State()), pin)
    {
      calls := calls + [Call.RemoteAdd(pin)];
      if faults.remote.Some? {
        r := Failure(Error(faults.remote.value));
      } else if exists i | 0 <= i < |remotePins| :: remotePins[i].cid == pin.cid && remotePins[i].service == pin.service {
        r := Failure(Error(DuplicateReason));
      } else {
        remotePins := remotePins + [pin];
        r := Success(());
      }
    }

    /** `cat(path)`: the chunks of the content, in order. */
    method Cat(path: Value) returns (r: Result<seq<seq<byte>>>)
      ensures r == CatFrom(blocks, faults.cat, path)
    {
      if faults.cat.Some? {
        r := Failure(Error(faults.cat.value));
      } else if path.Str? && path.s in blocks {
        r := Success(blocks[path.s]);
      } else {
        r := Failure(Error(NotFound));
      }
    }
  }
}

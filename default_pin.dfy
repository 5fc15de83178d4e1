/// `defaultPin`: add content under an optional name and pin it on the first
/// connected remote pinning service, answering with the CID and a flag.
module DefaultPin {
  import opened Values
  import opened Ipfs

  /** `{ cid, pinned }` */
  datatype Receipt = Receipt(cid: string, pinned: bool)

  /** The path the content is added under: "/" and the name when the name is truthy, "" otherwise. */
  function PathFor(name: Option<string>): (path: string)
    ensures path == "" <==> name.None? || name.value == ""
    ensures path != "" ==> path[0] == '/' && path[1..] == name.value
  {
    if name.Some? && name.value != "" then "/" + name.value else ""
  }

  /** What `add({ content, path }, { wrapWithDirectory: path !== "" })` is given. */
  function UploadOf(content: Value, name: Option<string>): (upload: Upload)
    ensures upload.content == content
    ensures upload.wrapWithDirectory <==> upload.path != ""
  {
    var path := PathFor(name);
    Upload(content, path, path != "")
  }

  /**
   * `defaultPin(content, _name = null)`: list the remote services, fail
   * without one, add the content, pin its CID on the first service (a
   * duplicate is no error) and return its v1 text.
   */
  method Pin(ipfs: Store, content: Value, name: Option<string>) returns (r: Result<Receipt>)
    modifies ipfs`calls, ipfs`blocks, ipfs`remotePins
    ensures ipfs.Listing().Failure? ==>
      r == Failure(ipfs.Listing().error) && ipfs.calls == old(ipfs.calls) + [Call.ServiceLs]
    ensures ipfs.Listing() == Success([]) ==>
      r == Failure(Thrown(NoServiceMessage)) && ipfs.calls == old(ipfs.calls) + [Call.ServiceLs]
    ensures ipfs.Listing().Success? && ipfs.services != [] ==>
      var upload := UploadOf(content, name); var pin := RemotePin(ipfs.address(upload), ipfs.services[0].service, PinName);
      && ipfs.calls == old(ipfs.calls) + [Call.ServiceLs, Call.Add(upload)]
           + (if ipfs.AddOutcome(upload).Success? then [Call.RemoteAdd(pin)] else [])
      && r == (if ipfs.AddOutcome(upload).Failure? then Failure(ipfs.AddOutcome(upload).error)
               else if Tolerate(ipfs.RemoteOutcome(old(ipfs.remotePins), pin)).Failure?
               then Failure(ipfs.RemoteOutcome(old(ipfs.remotePins), pin).error)
               else Success(Receipt(ipfs.V1Text(ipfs.address(upload)), true)))
      && ipfs.remotePins == if ipfs.AddOutcome(upload).Success? && ipfs.RemoteOutcome(old(ipfs.remotePins), pin).Success?
                            then old(ipfs.remotePins) + [pin] else old(ipfs.remotePins)
    ensures r.Success? ==> r.value.pinned && r.value.cid == ipfs.V1Text(ipfs.address(UploadOf(content, name)))
    ensures !(ipfs.Listing().Success? && ipfs.services != []) ==> ipfs.remotePins == old(ipfs.remotePins)
    // only an unnamed upload leaves file content the node can stream back under the returned CID
    ensures ipfs.blocks == if ipfs.Listing().Success? && ipfs.services != [] && PathFor(name) == ""
        && ipfs.AddOutcome(UploadOf(content, name)).Success?
      then old(ipfs.blocks)[ipfs.V1Text(ipfs.address(UploadOf(content, name))) := Chunks(BytesOf(content))]
      else old(ipfs.blocks)
  {
    var pinningServices := ipfs.ServiceLs();
    if pinningServices.Failure? {
      return Failure(pinningServices.error);
    }
    var hasRemotePinningService := |pinningServices.value| > 0;
    if !hasRemotePinningService {
      return Failure(Thrown(NoServiceMessage));
    }
    var path := "";
    if name.Some? && name.value != "" {
      path := "/" + name.value;
    }
    var res := ipfs.Add(Upload(content, path, path != ""));
    if res.Failure? {
      return Failure(res.error);
    }
    var cid := res.value;
    var attempt := ipfs.RemoteAdd(RemotePin(cid, pinningServices.value[0].service, PinName));
    if attempt.Failure? && !IsDuplicate(attempt.error) {
      return Failure(attempt.error);
    }
    r := Success(Receipt(ipfs.V1Text(cid), true));
  }

  /**
   * A named upload is wrapped in a directory: the CID returned names the
   * directory, so the node has no file content under it to stream back.
   */
  method NamedUploadIsWrapped(ipfs: Store, content: Value, name: string) returns (r: Result<Receipt>)
    requires name != ""
    modifies ipfs`calls, ipfs`blocks, ipfs`remotePins
    ensures ipfs.blocks == old(ipfs.blocks)
    ensures ipfs.Listing().Success? && ipfs.services != [] ==>
      Call.Add(Upload(content, "/" + name, true)) in ipfs.calls
  {
    r := Pin(ipfs, content, Some(name));
  }
}

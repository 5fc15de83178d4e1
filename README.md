# jeti, modelled in Dafny

jeti is a set of tagged-template transforms for Tableland SQL statements. A
*processor* takes a forward transform and a resolver. Its `prepare` tag runs
the forward transform over every value interpolated into a statement and zips
the literal fragments back together with the results. Its `resolve` runs the
resolver over the named keys of every row of a query result. The library ships
processors that truncate strings, and processors that pin content to IPFS
(locally, or on a remote pinning service) and put its CID in the statement.
There is also an older generation of the same code and a standalone
Blob-pinning `prepare` / column-`resolve` pair.

The model is made of these modules:

- `Values`: the JavaScript values that flow through the pipeline, with the engine's truthiness and string coercion; `Promise.all` as an order-preserving map.
- `Template`: the `zip` loop and the interleaving it computes.
- `Rows`: the per-row `resolve` loop shared by both processor generations.
- `Processor` and `Process`: `createProcessor` in its current and its older form.
- `Truncation` and `LegacyTruncation`: the two truncate processors.
- `Ipfs`: the IPFS client as an abstract store, with the failures it reports configured up front. It records every call that changes the node or asks it for its services (`cat` only reads, and is not recorded). A `Node` value is a snapshot of the store, and `Fold` applies a per-value step to it, value by value.
- `ContentPinner`: the `Pinner` class and the processors built on it.
- `LegacyPinner`: the older free `pin` function and its processor.
- `DefaultPin`: `defaultPin`.
- `BlobPrepare` and `ColumnResolve`: the standalone `prepare` and `resolve`.

Code that changes state is modelled as methods over the store, or over the
result-set object. Each pinning method states its result and the new store
state as functions of the inputs and the old state: a single pin by an
`AfterPin`-style function, a whole `prepare` by folding that function over the
values in template order. Lemmas beside them state what those functions mean:
the calls they append, and that only the values' own content and CIDs are
added. Pure code is modelled as functions, with lemmas about them.

## Model

| member | source | states |
|---|---|---|
| Values.All | src/processor.ts:35-49 | `Promise.all` over a map succeeds iff every element does; the results keep their positions; on failure the error is that of a failing position with every earlier one succeeding |
| Values.AllSucceeds | src/processor.ts:49 | when every element's outcome is a success, `Promise.all` resolves with exactly those values in their positions |
| Values.AllFails | src/processor.ts:49 | `Promise.all` rejects with the error of the first failing element |
| Values.FirstError | src/processor.ts:49 | the error `Promise.all` rejects with, read off the outcomes: none iff every outcome succeeds, otherwise that of a failing outcome with every earlier one succeeding |
| Values.Contains | src/processors/pinContentToIpfs.ts:53-54 | `includes` holds iff the fragment occurs at some index of the text |
| Template.Zip | src/processor.ts:1-12 | the loop's result is fragment 0, value 0, fragment 1, value 1, … with a missing or empty value contributing nothing and values past the last fragment ignored |
| Template.InterleaveAt | src/processor.ts:4-8 | value i sits between fragment i and fragment i+1, with the assembly of the earlier fragments before and of the later ones after |
| Template.InterleaveSplit | src/processor.ts:3-10 | assembly splits at any fragment boundary into the head and the tail with the later values |
| Template.InterleaveLast | src/processor.ts:3-10 | the statement is the assembly of all fragments but the last, then the last fragment and the value after it |
| Template.InterleaveUsesOnlyParts | src/processor.ts:4-8 | only the values at fragment positions matter; an empty value and a missing one give the same statement |
| Template.InterleaveWithoutParts | src/processor.ts:4-8 | with only empty values the statement is the fragments in order, none lost or reordered |
| Rows.Keys | src/processor.ts:62 | the keys of a row, in for-in order |
| Rows.ResolveRow | src/processor.ts:59-70 | a row resolves iff the resolver succeeds on every listed key; the result has the same keys in the same order, the resolver's result under each listed key and every other property copied; a failure is the first failing listed key's error |
| Rows.ResolveRows | src/processor.ts:55-74 | as many rows as given, in order, each resolved from its input row; a failure is that of the first failing row, every earlier row being resolvable |
| Rows.KeysKept | src/processor.ts:61-69 | a resolved row has exactly the input row's keys: listed keys it lacks are not added |
| Rows.NothingListed | src/processor.ts:63-67 | with no keys listed, resolution cannot fail and copies the row |
| Processor.Skip | src/processor.ts:18-23 | `skip(v)` is a truthy marker object carrying `v` as its original |
| Processor.ProcessValue | src/processor.ts:35-47 | a value's processed form, when there is one, is the custom processor's string result, except for a skip marker |
| Processor.Prepare | src/processor.ts:29-53 | `prepare` succeeds iff every value processes; the statement is the fragments interleaved with the processed values; a failure is the first failing value's error |
| Processor.PrepareOfParts | src/processor.ts:49-52 | when each value processes to a known string, the statement is the fragments interleaved with those strings |
| Processor.PrepareFirstFailure | src/processor.ts:35-50 | the statement is rejected with the error of the first value that fails to process |
| Processor.Resolve | src/processor.ts:55-74 | `prepare.resolve` is the row loop with the processor's resolver: success iff every row resolves, rows resolved in order |
| Processor.SkipBypassesProcessor | src/processor.ts:18-38 | `skip(v)` is replaced by `v` whatever the custom processor would do |
| Processor.ValueBetweenFragments | src/processor.ts:49-50 | the k-th processed value lands between fragment k and k+1, and a skipped value lands there unchanged |
| Processor.NonStringRejected | src/processor.ts:39-45 | a non-string result makes `prepare` reject; with every earlier value processed the rejection is the not-a-string error |
| Processor.Base64Example | test/createProcessor.test.ts:23-29 | the base64 transform of two values yields the expected INSERT statement |
| Process.ProcessValue | src/process.ts:24-31 | the processed form is the custom processor's string result for every value |
| Process.Prepare | src/process.ts:21-37 | same as the current generation: success iff every value processes, statement interleaved, first error |
| Process.MarkerIsProcessed | src/process.ts:24-25 | there is no skip escape: a marker object goes through the custom processor like any value |
| Process.NonStringRejected | src/process.ts:27-29 | a non-string result rejects with the older not-a-string wording |
| Process.AllAgree | src/process.ts:33 | two transforms that agree on every value give the same `Promise.all` outcome |
| Process.GenerationsAgree | src/process.ts:21-37 | without skip markers or nulls and with string-returning processors, both generations' `prepare` give the same result |
| Truncation.Truncate | src/processors/truncate.ts:3-8 | succeeds iff the value is a string; otherwise the invalid-type error; the result is the prefix of length min(\|s\|, 10) |
| Truncation.Detruncate | src/processors/truncate.ts:10-16 | the result starts with the value and continues with "..." and the loss warning |
| Truncation.TruncateProcessor | src/processors/truncate.ts:18 | the exported processor is `createProcessor` with `truncate` forward and `detruncate` back |
| Truncation.ShortStringUnchanged | src/processors/truncate.ts:7 | strings of at most ten characters are returned unchanged |
| Truncation.TruncateIdempotent | src/processors/truncate.ts:7 | truncating twice is truncating once |
| Truncation.LongStringExample | test/truncate.test.ts:9-14 | the long example string keeps its first ten characters |
| Truncation.NumberRejected | test/truncate.test.ts:33-35 | a number in the template makes `prepare` fail with the invalid-type error |
| Truncation.SingleInterpolation | src/processors/truncate.ts:18 | a template of one interpolated string yields that string truncated |
| Truncation.DetruncateTruncated | src/processors/truncate.ts:7-16 | resolving a truncated value keeps the truncated text as prefix and ends with "..." and the warning |
| LegacyTruncation.Truncate | src/process/truncate.ts:3-8 | succeeds iff the value is a string, with the older error otherwise; the result is the min(\|s\|, 10) prefix |
| LegacyTruncation.Detruncate | src/process/truncate.ts:10-12 | the value, then "..." and the older warning |
| LegacyTruncation.TruncateProcess | src/process/truncate.ts:14 | the exported processor is the older `createProcess` with the older `truncate` and `detruncate` |
| LegacyTruncation.SameCutAsCurrent | src/process/truncate.ts:3-8 | both generations accept exactly the strings and cut them at the same place; their rejections differ in wording |
| LegacyTruncation.TruncateIdempotent | src/process/truncate.ts:7 | truncating twice is truncating once |
| LegacyTruncation.SingleInterpolation | src/process/truncate.ts:14 | a one-value template yields the truncated string or the older invalid-type error |
| Ipfs.Chunks | src/processors/pinContentToIpfs.ts:66-70 | the `cat` stream's chunks are non-empty and at most the chunk size |
| Ipfs.ChunksConcat | src/processors/pinContentToIpfs.ts:66-70 | concatenating the streamed chunks in order gives back the added bytes |
| Ipfs.ConcatCons | src/processors/pinContentToIpfs.ts:68-70 | concatenation of a chunk followed by the rest is the chunk followed by the concatenation of the rest |
| Ipfs.Tolerate | src/processors/pinContentToIpfs.ts:52-59 | the catch succeeds iff the attempt did or failed with an error object whose message contains DUPLICATE_OBJECT; every other failure is rethrown as it is |
| Ipfs.NotDuplicate | src/processors/pinContentToIpfs.ts:54 | a message without a capital D never counts as a duplicate |
| Ipfs.NoServiceIsNotDuplicate | src/processors/pinContentToIpfs.ts:78-80 | the no-service error is not swallowed by the duplicate catch |
| Ipfs.ExtendsTransitive | src/processor.ts:49 | two stretches of work that each only append calls and add their own content and pins together only append calls and add the content and pins of both |
| Ipfs.FoldCalls | src/processor.ts:49 | when each value's step appends that value's calls, the values in order append all of their calls in order |
| Ipfs.FoldExtends | src/processor.ts:49 | when each value's step adds only what that value names, the values in order add only what they name together |
| Ipfs.FoldSkips | src/processor.ts:49 | values whose step leaves the node as it is leave it as it is together |
| Ipfs.Store.RemoteVerdictIgnoresPins | src/processors/pinContentToIpfs.ts:48-59 | with the duplicate catch around it, a remote pin comes to the same outcome whatever the service pins already: only a configured fault survives |
| Ipfs.Store.ServiceLs | src/processors/pinContentToIpfs.ts:76 | lists the services, or fails as configured, and records the call |
| Ipfs.Store.Add | src/processors/pinContentToIpfs.ts:41 | returns the upload's CID or the failure, records the call, and stores unwrapped content under its v1 text |
| Ipfs.Store.PinAdd | src/processors/pinContentToIpfs.ts:44 | records the call and appends the local pin on success |
| Ipfs.Store.RemoteAdd | src/processors/pinContentToIpfs.ts:48-51 | fails with DUPLICATE_OBJECT for a CID the service already pins, else appends the remote pin; records the call |
| Ipfs.Store.Cat | src/processors/pinContentToIpfs.ts:66 | streams the chunks stored under the path, or fails |
| ContentPinner.FirstService | src/processors/pinContentToIpfs.ts:75-84 | the first listed service; the no-service error on an empty list; a listing failure passed on |
| ContentPinner.Pinner.constructor | src/processors/pinContentToIpfs.ts:29-33 | `where` defaults to "local" and the options to `{}` |
| ContentPinner.Pinner.UploadOf | src/processors/pinContentToIpfs.ts:36-41 | `add` is given a string as its UTF-8 bytes and any other content as it is, as a file with no path and no wrapping directory |
| ContentPinner.Pinner.PinResult | src/processors/pinContentToIpfs.ts:35-63 | what `pin` settles to, independent of the node's pins: an `add` failure is passed on; once the content is added, `pin` succeeds iff the pinning step (`PinVerdict`) does, and fails with its error otherwise; a success is the v1 text of the upload's CID |
| ContentPinner.Pinner.PinVerdict | src/processors/pinContentToIpfs.ts:43-59 | the pinning step after `add`: local mode is the outcome of `pin.add`; remote mode on an empty service list fails with the no-service error, which the DUPLICATE_OBJECT catch does not forgive; remote mode with a service and no fault succeeds |
| ContentPinner.Pinner.PinBranches | src/processors/pinContentToIpfs.ts:35-63 | the branches of `pin` on any node: the upload's blocks are stored iff `add` succeeds; an `add` failure is passed on after that one call; local mode calls `add` then `pin.add` of the CID and gains that local pin iff it succeeds; remote mode calls `add`, `ls` and, with a service, a remote pin of the CID, recorded iff the service accepts it, and the result is the v1 text iff the attempt succeeds or is a duplicate |
| ContentPinner.Pinner.AfterPinExtends | src/processors/pinContentToIpfs.ts:35-63 | `pin` appends exactly its calls to the node and adds only the content's blocks and only its CID's pins |
| ContentPinner.Pinner.StepAppendsTrace | src/processors/pinContentToIpfs.ts:87-101 | in the pinning processor's `prepare`, each value appends the calls of its pin, and a marker or null appends none |
| ContentPinner.Pinner.StepOnlyAdds | src/processors/pinContentToIpfs.ts:87-101 | in the pinning processor's `prepare`, each value adds only its own content and CID, and a marker or null adds nothing |
| ContentPinner.Pinner.Folded | src/processors/pinContentToIpfs.ts:87-101 | a whole `prepare` appends the calls of every pinned value in template order, adds only those values' content and CIDs, and leaves the node as it was when every value is a marker or null |
| ContentPinner.Pinner.RemotePinningService | src/processors/pinContentToIpfs.ts:75-84 | one `ls` call, then the first service or the no-service error |
| ContentPinner.Pinner.Pin | src/processors/pinContentToIpfs.ts:35-63 | strings are UTF-8-encoded before `add`; local mode makes exactly `add` then `pin.add` of that CID and never lists services; remote mode makes `add`, `ls`, then a remote pin of that CID on the first service named "Tableland Upload", a duplicate being swallowed; every success returns the v1 text of the added content's CID; the result is `PinResult` and the new node `AfterPin` of the old one |
| ContentPinner.Pinner.ResolveCid | src/processors/pinContentToIpfs.ts:65-73 | the loop concatenates every chunk of the stream in order and decodes the result |
| ContentPinner.Pinner.ProcessedByPin | src/processor.ts:35-46 | with `pin` as the custom transform, a null value fails the property check, a skip marker is its original, and any other value settles as its pin does |
| ContentPinner.Pinner.ProcessOne | src/processor.ts:35-47 | one value of the map: its outcome is what the processor makes of it with `pin`, and the node is the old one after that value's step (a pin, or nothing for a marker or null) |
| ContentPinner.Pinner.ProcessEach | src/processor.ts:35-49 | every value is processed in template order, whatever fails: the node is the old one with each value's pin applied in turn; with no failure each value's processed string is recorded, otherwise the first failing value's error |
| ContentPinner.Pinner.PinningStatement | src/processors/pinContentToIpfs.ts:87-101 | with the pinning processor a null value rejects the statement, and a statement that goes through has each skipped value's original and every other value's CID text between the fragments |
| ContentPinner.Pinner.Prepare | src/processors/pinContentToIpfs.ts:87-101 | the result is exactly the current `prepare` of `createProcessor(pin, resolveCid)`: success iff every value's pin succeeds, the first failure otherwise; the statement has each value's CID text (or a skipped value's original) between its fragments; a null value rejects it; the node is the old one with every non-marker, non-null value pinned in template order, whatever fails: its calls are the old calls plus each pin's calls, only these values' content and CIDs are added, and markers and nulls make no call |
| ContentPinner.Pinner.Resolve | src/processors/pinContentToIpfs.ts:87-101 | the pinning processor's `resolve` is the row loop with `resolveCid` over the node's current content |
| ContentPinner.PinToLocal | src/processors/pinContentToIpfs.ts:87-93 | a fresh pinner that pins locally, with the given or default options |
| ContentPinner.PinToProvider | src/processors/pinContentToIpfs.ts:95-101 | a fresh pinner that pins on the provider, with the given or default options |
| ContentPinner.ResolveCidIsResolver | src/processors/pinContentToIpfs.ts:90-91 | the resolver handed to the processor is what `resolveCid` computes |
| ContentPinner.PinThenFetch | src/processors/pinContentToIpfs.ts:35-73 | fetching by the CID text a successful pin returns gives back the added bytes, decoded |
| ContentPinner.PinWithoutService | src/processors/pinContentToIpfs.ts:46-59 | a remote pinner on a node without services has added the content, then fails with the no-service error and requests no pin |
| ContentPinner.PinTwice | test/pinContentToIpfs.test.ts:107-176 | pinning the same content twice on a service succeeds twice with the same CID |
| LegacyPinner.PinResult | src/process/pinContentToIpfs.ts:14-56 | what `pin` settles to, independent of the node's pins: a string is itself; a listing failure is passed on; an empty list throws the bare no-service string; local mode succeeds iff the local pin does; remote mode with no fault succeeds; a success is the v1 CID text |
| LegacyPinner.AfterPinExtends | src/process/pinContentToIpfs.ts:14-56 | `pin` appends exactly its calls to the node and adds only the content's blocks and its CID's pins; a string leaves the node as it is |
| LegacyPinner.Folded | src/process/pinContentToIpfs.ts:64-65 | a whole older `prepare` appends the calls of every pin in template order, adds only those values' content and CIDs, and leaves the node as it was when every value is a string |
| LegacyPinner.Pin | src/process/pinContentToIpfs.ts:14-56 | a string is returned with no call; otherwise `ls` comes first and an empty list throws the bare no-service string before any `add`; content is added with path "" unwrapped; local mode pins it locally, remote mode on the first service with duplicates tolerated; success returns the v1 CID text; the store changes only by this upload; the result is `PinResult` and the new node `AfterPin` of the old one |
| LegacyPinner.PinToLocalBase | src/process/pinContentToIpfs.ts:5-7 | is `pin` in local mode, with its full result and new node; once the content is added the calls are `ls`, `add`, `pin.add` of the CID; no remote pin, and a successful non-string pin adds one local pin |
| LegacyPinner.PinToProviderBase | src/process/pinContentToIpfs.ts:9-12 | is `pin` in remote mode, with its full result and new node; once the content is added the calls are `ls`, `add`, and a remote pin of the CID on the first service, which is recorded unless it fails; no local pin |
| LegacyPinner.PinOne | src/process.ts:24-31 | one value of the older map: its outcome is what `pin` settles to, and the node is the old one after that pin |
| LegacyPinner.PinEach | src/process.ts:24-33 | every value is pinned in template order, whatever fails: the node is the old one with each pin applied in turn; with no failure each value's string is recorded, otherwise the first failing value's error |
| LegacyPinner.StringsPass | src/process/pinContentToIpfs.ts:15 | a statement of strings alone always goes through, as no `pin` of a string can fail |
| LegacyPinner.NoServiceSinks | src/process/pinContentToIpfs.ts:18-24 | with no service listed, any value that is not a string rejects the statement with the bare no-service string |
| LegacyPinner.PinnedValues | src/process/pinContentToIpfs.ts:14-56 | when every pin goes through, each string is kept and every other value becomes the v1 text of its CID |
| LegacyPinner.Prepare | src/process/pinContentToIpfs.ts:64-65 | the result is `Promise.all` of the pins, interleaved with the fragments on success and its first error otherwise; strings pass through with no call; the statement has each other value's CID text; without services any non-string rejects the statement with the no-service string; the node is the old one with every value pinned in template order, its calls the old calls plus each pin's calls, only these values' content and CIDs added |
| LegacyPinner.NoServiceNoPin | src/process/pinContentToIpfs.ts:18-25 | without a service nothing is added or pinned, even in local mode |
| LegacyPinner.PinTwice | src/process/pinContentToIpfs.ts:37-51 | pinning the same bytes twice on the provider succeeds twice with one CID |
| DefaultPin.PathFor | src/defaultPinFunction.ts:21-24 | the path is "/" + name exactly when the name is truthy, "" otherwise |
| DefaultPin.UploadOf | src/defaultPinFunction.ts:26-29 | the content is wrapped in a directory exactly when the path is not empty |
| DefaultPin.Pin | src/defaultPinFunction.ts:10-52 | `ls` first, the bare no-service string before any `add` on an empty list; then `add` with the path and a remote pin on the first service named "Tableland Upload", duplicates tolerated; success is `{ cid: v1 text, pinned: true }` |
| DefaultPin.NamedUploadIsWrapped | src/defaultPinFunction.ts:21-29 | a named upload is added wrapped, and no file content is stored under the returned CID |
| BlobPrepare.Render | src/prepare.ts:6-9 | a falsy value contributes nothing; a string contributes itself |
| BlobPrepare.Rendered | src/prepare.ts:3-14 | each value's contribution, position by position |
| BlobPrepare.ZipValues | src/prepare.ts:3-14 | the loop's result is the fragments interleaved with the values' text, falsy values dropped |
| BlobPrepare.BlobResult | src/prepare.ts:16-35 | `BlobToPinnedIpfs` succeeds iff a service is listed and the add succeeds, with the v1 text of the blob's CID; a listing failure is passed on and an empty list throws the bare no-service string |
| BlobPrepare.AfterBlobExtends | src/prepare.ts:16-35 | pinning a Blob appends exactly its calls and adds only the blob's blocks and its CID's remote pin, never a local pin |
| BlobPrepare.Substituted | src/prepare.ts:40-48 | what the `values.map` callback resolves to when it resolves: a Blob's CID text, any other value itself |
| BlobPrepare.Folded | src/prepare.ts:40-50 | a whole `prepare` appends the calls of every Blob's pin in template order, adds only those Blobs' content and CIDs, and leaves the node as it was when there is no Blob |
| BlobPrepare.SubstituteOne | src/prepare.ts:40-48 | one value of the map: its outcome is what the callback settles to, and the node is the old one after that value's step (a Blob pinned, anything else untouched) |
| BlobPrepare.SubstituteEach | src/prepare.ts:40-50 | every Blob is pinned in template order, whatever fails: the node is the old one with each pin applied in turn; with no failure each value's substitute is recorded, otherwise the first failing value's error |
| BlobPrepare.NoBlobPassesThrough | src/prepare.ts:40-50 | with no Blob among the values `Promise.all` resolves with the values as they are |
| BlobPrepare.NoServiceSinks | src/prepare.ts:19-25 | with no service listed, any Blob rejects the statement with the bare no-service string |
| BlobPrepare.SubstitutedValues | src/prepare.ts:40-48 | when every pin goes through, each Blob becomes the v1 text of its CID and every other value is kept |
| BlobPrepare.BlobToPinnedIpfs | src/prepare.ts:16-35 | `ls` first, the bare no-service string before any `add`; then `add` of the blob's bytes and an unawaited remote pin on the first service; the v1 text is returned whatever becomes of the pin; the result is `BlobResult` and the new node `AfterBlob` of the old one |
| BlobPrepare.Prepare | src/prepare.ts:37-52 | the result is `Promise.all` of the substitutions zipped with the fragments on success and its first error otherwise; Blobs are replaced by their pinned CID text and every other value passed through to `zip`; with no Blob the node is untouched; without services any Blob rejects the statement; the node is the old one with every Blob pinned in template order, whatever fails: its calls are the old calls plus each pin's calls, only these Blobs' content and CIDs added |
| BlobPrepare.FalsyValueDropped | src/prepare.ts:6-9 | a falsy value leaves its two neighbouring fragments joined |
| ColumnResolve.Selected | src/resolve.ts:14-18 | the positions of the listed columns, strictly ascending, exactly those whose name is listed |
| ColumnResolve.ColumnIndices | src/resolve.ts:13-18 | the `forEach` pushes exactly the selected positions, in order |
| ColumnResolve.ResolveCells | src/resolve.ts:23-29 | a row keeps its length; cells at selected positions become `get` of the cell, the others are kept |
| ColumnResolve.Resolve | src/resolve.ts:8-35 | the same object is returned; columns untouched; rows replaced in place, same count and order, each cell of a listed column fetched and every other cell kept |
| ColumnResolve.Depth | src/resolve.ts:25 | how many `get`s a cell has been through |
| ColumnResolve.NothingSelected | src/resolve.ts:14-29 | with no listed column present, nothing is selected and every row is kept |
| ColumnResolve.ResolveTwice | src/resolve.ts:25 | resolving twice fetches the stream of the first `get`, so it differs from resolving once |

## Left out

- Concurrency: `Promise.all` is read as an order-preserving map, run in template order. When several values fail, the model reports the error of the first position. The pins of one statement are made one after the other, so their store calls do not interleave.
- The unawaited remote pin in `BlobToPinnedIpfs` is recorded as a call, and as a pin when it succeeds. Its rejection is handled by no code of the library: what becomes of an unhandled rejection (a warning, or the end of the process) is the host's decision, and is not modelled.
- The IPFS client is an injected store, not a client made by `IPFS.create`; each call of the older code opens its own client, and the model has all of them talk to the node passed in. CID hashing, `toV1().toString()`, UTF-8 encoding and decoding, and the chunking of `cat` are opaque functions or a fixed model. The client's own failure messages ("Unexpected input", "content not found") are wording of the model.
- Legacy `resolveCid` (`ipfs.get`) and the legacy `pinToLocal` / `pinToProvider` processors' `resolve`: `get` returns a stream object, not content, and is not modelled further than that.
- `console.log` messages on a swallowed duplicate are left out.
- Numbers are integers: NaN, floats and their printing are not modelled. `null` and `undefined` are one value.
- Strings are sequences of characters, not UTF-16 code units: `slice(0, 10)` on text with surrogate pairs is not modelled.
- A `.catch` reading `message` of a rejection that is not an Error object cannot arise, since the store only rejects with Error objects.
- Aliasing of row objects between input and output of the processors' `resolve`: rows are values, so the input rows are unchanged by construction.
- The encryption processors, the global client and pin-function singletons, and the re-exports are not part of this model.

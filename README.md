# xk6-neofs native client, modelled in Dafny

xk6-neofs is a k6 extension for load-testing a NeoFS object store. Its
native client (`internal/native/client.go`) gives the load scripts five
calls:

- `SetBufferSize`: chooses the size of the buffer that payloads are
  streamed through. A negative size panics and zero selects 64 KiB.
- `Put`: uploads an object under a session token scoped to the container.
- `Get`: downloads an object and counts the bytes of its payload.
- `Onsite`: reads the network's maximum object size and hashing switch, and
  prepares an object header once.
- `PreparedObject.Put`: uploads that prepared object again and again,
  each time with different attributes, a freshly computed identifier and a
  new signature.

Every transfer reports its call counter to the k6 metrics, and the failure counter when it fails. A successful transfer also reports its duration and byte count. A transfer is each call of `put`, and each GET that gets past its decoding and signing. `Onsite` reports nothing. Neither do the decoding and signing failures of the calls.

The model is split into these modules:

- `Common`: bytes, `u64`, `Option`/`Result`, the error values, and `Call`, which is a result or a Go panic.
- `LittleEndian`: the 8-byte little-endian decoding of the maximum object size.
- `Objects`: identifiers, headers, attributes, checksums and session tokens, as symbolic values.
- `Stats`: the metric reports, kept by a `Metrics` class as an ordered log.
- `Store`: the store's write and read streams. Each is a class whose answers are fixed when it is made, and which records what the client did with it. Each stream method's precondition enforces the order of calls. A write stream is opened, then optionally given a session, then a header, then chunks, then closed. A read stream is opened, then its header read, then read, then closed.
- `Chunking`: how one reused buffer cuts a payload into chunks.
- `Transfer`: the `put` upload loop and the GET read-and-count loop. Each is an imperative method proved against a specification function (`PutSpec`, `GetSpec`), and the lemmas state what those functions promise.
- `NetworkInfo`: `parseNetworkInfo`, its walk over the configuration parameters, and lemmas about that walk.
- `NativeClient`: the client class and its calls, `PreparedObject`, the attribute loop, and the size-check finding.

## Model

| member | source | states |
|---|---|---|
| Objects.Scoped | internal/native/client.go:85-91 | the copied token gets the verb, the target address and the signer; the template's own fields are kept |
| LittleEndian.Uint64 | internal/native/client.go:332 | decoding 8 bytes little-endian gives the value whose byte i weighs 256^i |
| LittleEndian.DecodeMaxObjectSize | internal/native/client.go:330-332 | a value of any length is decoded from its first (up to) 8 bytes; missing high bytes count as zero |
| LittleEndian.DecodeEncode | internal/native/client.go:330-332 | decoding the 8-byte encoding of any 64-bit size gives that size back |
| LittleEndian.EncodeDecode | internal/native/client.go:330-332 | encoding a decoded 8-byte value gives the same 8 bytes back |
| LittleEndian.DecodeIgnoresTail | internal/native/client.go:330-332 | bytes after the eighth are ignored |
| LittleEndian.DecodeShortIsPadded | internal/native/client.go:330-332 | a value shorter than 8 bytes decodes like itself zero-padded to 8 bytes |
| NetworkInfo.ParseNetworkInfo | internal/native/client.go:318-344 | a failed query gives zeros and the query's error; otherwise the current epoch and the outcome of the parameter walk |
| NetworkInfo.ScanIgnoresUnknownKeys | internal/native/client.go:328-341 | entries with other keys change nothing: the walk over the recognised entries alone ends in the same state |
| NetworkInfo.ScanWithoutFailure | internal/native/client.go:325-343 | without a decoding failure, the size is that of the last size entry and the flag that of the last hashing entry; the "missing size" error is cleared by ANY recognised entry |
| NetworkInfo.ScanStopsAtFirstFailure | internal/native/client.go:334-339 | the walk stops at the first hashing entry that fails to decode: later entries are never seen, and that entry's error and flag are returned |
| NetworkInfo.HashingEntryClearsMissingSize | internal/native/client.go:325-336 | a configuration with only a hashing entry gives no error and a maximum object size of 0 |
| Chunking.SplitConcat | internal/native/client.go:298-304 | with a non-empty buffer, the chunks joined together are the payload |
| Chunking.SplitChunkSizes | internal/native/client.go:298-304 | no chunk is empty or larger than the buffer, and every chunk but the last fills it |
| Chunking.SplitCount | internal/native/client.go:298-304 | there are ceil(len / bufSize) chunks, and none for an empty payload |
| Chunking.SplitOffsets | internal/native/client.go:298-304 | chunk i is the slice of the payload that starts at offset i * bufSize |
| Transfer.BytesReader.Read | internal/native/client.go:275 | a read copies min(len(buf), remaining) bytes from the read position into the front of the buffer, leaves the rest of the buffer as it was, and advances by that much |
| Transfer.AttemptsFrom | internal/native/client.go:299-302 | the chunk loop hands over every chunk up to and including the first one the stream rejects, and no more |
| Transfer.ReadChunk | internal/native/client.go:298-303 | one read of the chunk loop yields the next chunk of the split, and a read of nothing means no chunk is left |
| Transfer.StreamPayload | internal/native/client.go:298-304 | the stream receives exactly the buffer-sized slices of the payload, in order, up to the first rejected one |
| Transfer.Put | internal/native/client.go:272-316 | reports, chunks written, response and error are those of `PutSpec`; the session token is attached only when given; the stream is open, and later closed, exactly when opening succeeded |
| Transfer.PutAccounting | internal/native/client.go:279-310 | the call is counted once; the failure counter is reported once exactly when opening, the header or the close fails; a response comes back only when all three succeed |
| Transfer.PutDataSent | internal/native/client.go:276-312 | bytes sent are reported only on success, and then as the whole payload length, even when the chunk loop stopped early |
| Transfer.PutHeaderRejectedCleanClose | internal/native/client.go:292-296 | a rejected header followed by a clean close returns neither a response nor an error |
| Transfer.PutSendsWholePayload | internal/native/client.go:298-304 | when the store accepts every chunk of the split, the chunks joined together are the payload, there are ceil(len / bufSize) of them, and all but the last fill the buffer |
| Transfer.PutStopsAtFirstRejection | internal/native/client.go:299-302 | if chunk j is the first rejected one, exactly chunks 0..j are written, each at its offset |
| Transfer.AttemptsIsFirstRejection | internal/native/client.go:299-302 | the number of chunks written is one past the first rejected one |
| Transfer.ReadsFrom | internal/native/client.go:170-174 | the read loop makes at least one read; every read before the last delivers bytes, and the last read delivers none |
| Transfer.Get | internal/native/client.go:150-185 | reports and outcome are those of `GetSpec`; the request carries the scoped token; the stream makes exactly the reads the loop needs and is closed unless opening failed |
| Transfer.CountedBound | internal/native/client.go:170-174 | no read counts more than the buffer holds |
| Transfer.CountedIsSumUntilZero | internal/native/client.go:170-174 | when reads fit the buffer, the count is the sum of the read lengths up to the first empty read |
| Transfer.GetAccounting | internal/native/client.go:150-185 | the call is counted once; the failure counter once on an open, header-read or close failure; bytes received only on success, as the loop's count |
| NativeClient.AttributesFromMap | internal/native/client.go:96-102 | the attribute list holds each map pair exactly once, in some order |
| NativeClient.ListsOneMorePair | internal/native/client.go:98-101 | appending the pair of one more unvisited key keeps the list exact |
| NativeClient.SizeCheckAsWritten | internal/native/client.go:195 | the check as written agrees with `len > max` below 2^63, and from 2^63 on rejects every payload |
| NativeClient.SizeCheckRejectsEmptyPayload | internal/native/client.go:195 | a network limit of 2^64 - 1 rejects the empty payload under the check as written |
| NativeClient.HeaderRejectedCleanCloseOutcomes | internal/native/client.go:264-269 | after a rejected header and a clean close, `PreparedObject.Put` reports success while `Client.Put` panics |
| NativeClient.PreparedPutSucceedsIffNoError | internal/native/client.go:264-269 | a prepared put succeeds, with the computed identifier, exactly when `put` returned no error |
| NativeClient.PreparedObject.Put | internal/native/client.go:242-270 | an identifier or signing failure returns it without touching the store; otherwise the header sent is the prepared one with this call's attributes, its identifier and the key's signature, with no session token; the stream is opened and closed exactly when opening succeeds; and the response follows `put`'s error |
| NativeClient.Client.SetBufferSize | internal/native/client.go:64-73 | a negative size panics and changes nothing; zero selects 64 KiB; any other size is taken as it is |
| NativeClient.Client.Put | internal/native/client.go:75-118 | a container-decoding or signing failure panics before any report; otherwise the header has the container, the owner and each map pair once, the token is scoped to PUT on the container, the stream is opened and closed exactly when opening succeeds (a failed open sends no session and no header), and the response is failure with the error, a panic when `put` returned neither a response nor an error, or success with the stored identifier |
| NativeClient.Client.Get | internal/native/client.go:120-186 | decoding or signing failures panic in source order before any report; otherwise the request names the container, the object and a token scoped to GET on that address, the stream is closed exactly when opening succeeded and makes exactly the reads the loop needs, and the outcome is `GetSpec`'s with a buffer of the client's size |
| NativeClient.Client.Onsite | internal/native/client.go:188-240 | a network error panics; a payload longer than the maximum object size panics; a container-decoding failure panics with its error; below a limit of 2^63 the payload is refused exactly as the check as written refuses it; the header has the current version, the regular type, the container, the owner, the payload size, the epoch, the SHA-256 checksum, and the homomorphic hash exactly when hashing is not disabled |

## Left out

- NativeClient.Client.Onsite: the size check is the corrected unsigned one (`ExceedsLimit`, see Findings). For a network limit of 2^63 or more the source panics on every payload; `Onsite` instead accepts any payload up to the limit. Below 2^63 its contract is the check as written (`RejectsAsWritten`).
- Hashing (SHA-256, Tillich-Zemor), identifier computation and signing are SDK code. They appear as symbolic terms (`Sha256Of`, `IdOf`, `SignedBy`), and their failures are parameters.
- Container and object identifier parsing (`DecodeString`) is SDK code. Its outcome is a parameter.
- The network, the RPC protocol, the request context and the store itself are not modelled. The streams answer from fixed, scripted answers.
- neo-go's `TryBool` is a parameter (`BoolDecoder`). Its decoding rules are not modelled.
- Durations are wall-clock floats in the source. A duration report records only which metric it was, and byte counts are naturals rather than `float64`.
- Transfer.Get: the bytes read into the GET buffer are not modelled, only their lengths. The read error, which the source discards, is left out.
- Transfer.StreamPayload: the source passes the stream `buf[:n]`, which aliases the reused buffer. The model records the chunk's contents at the time of the write.
- The client's construction (key, session token, store connection) lives in another file and is not part of this model. `Client.constructor` takes those as given.
- Panic messages are not modelled. A panic records which error caused it (for example `PayloadTooLarge(len, limit)` rather than the formatted text).
- Go's `int` is taken to be 64 bits wide, as on the platforms k6 runs on.
- Object identifiers in `PutResponse` are identifiers, not their text form.

## Findings

| source | as written | input that shows it | evidently intended | confidence | as-written member | corrected member |
|---|---|---|---|---|---|---|
| internal/native/client.go:195 | `ln > int(maxObjectSize)` converts the unsigned network limit to a signed 64-bit `int`, so a limit of 2^63 or more becomes negative | a network whose maximum object size is 2^64 - 1 and an empty payload: the check rejects it and `Onsite` panics | reject only a payload longer than the limit, `ln > maxObjectSize` compared as unsigned | not executed | NativeClient.SizeCheckRejectsEmptyPayload | NativeClient.Client.Onsite |

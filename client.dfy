/** The exported calls of the native client: the buffer-size setting, the
    direct PUT and GET, and the two-phase flow that prepares an object once
    (`Onsite`) and puts it many times with different attributes. Identifier
    parsing and signing are SDK calls outside this model; their outcomes are
    parameters. A Go panic is the `Panicked` outcome. */
module NativeClient {
  import opened Common
  import opened Objects
  import opened Stats
  import opened Store
  import opened NetworkInfo
  import Transfer

  const DefaultBufferSize: nat := 64 * 1024

  /** The response of a PUT call. `objectId` is the identifier's text form in
      the source; here it is the identifier itself. */
  datatype PutResponse = PutResponse(success: bool, objectId: Option<ObjectId>, error: Option<Error>)

  /** The attributes built from a string map: one per pair, in the map's
      (unspecified) iteration order. */
  method AttributesFromMap(headers: map<string, string>) returns (attrs: array<Attribute>)
    ensures ListsEachPairOnce(attrs[..], headers)
  {
    attrs := new Attribute[|headers|](_ => Attribute("", ""));
    var ind := 0;
    var remaining := headers.Keys;
    ghost var done: seq<Attribute> := [];
    assert |headers.Keys| == |headers|;
    while remaining != {}
      invariant ind + |remaining| == |headers| == attrs.Length
      invariant ind == |done| && attrs[..ind] == done
      invariant ListsPairsOutside(done, headers, remaining)
      decreases remaining
    {
      var k :| k in remaining;
      ListsOneMorePair(done, headers, remaining, k);
      attrs[ind] := Attribute(k, headers[k]);
      done := done + [Attribute(k, headers[k])];
      ind := ind + 1;
      remaining := remaining - {k};
    }
    assert attrs[..] == attrs[..ind];
  }

  /** attrs lists, once each, the pairs of the map whose keys are not in
      remaining. */
  ghost predicate ListsPairsOutside(attrs: seq<Attribute>, headers: map<string, string>, remaining: set<string>)
  {
    && remaining <= headers.Keys
    && (forall i :: 0 <= i < |attrs| ==>
          attrs[i].key in headers && attrs[i].key !in remaining && headers[attrs[i].key] == attrs[i].value)
    && (forall i, j :: 0 <= i < j < |attrs| ==> attrs[i].key != attrs[j].key)
    && (forall k :: k in headers && k !in remaining ==> exists i :: 0 <= i < |attrs| && attrs[i] == Attribute(k, headers[k]))
  }

  /** Taking one more key out of remaining and appending its pair keeps the
      list exact. */
  lemma ListsOneMorePair(attrs: seq<Attribute>, headers: map<string, string>, remaining: set<string>, k: string)
    requires ListsPairsOutside(attrs, headers, remaining) && k in remaining
    ensures ListsPairsOutside(attrs + [Attribute(k, headers[k])], headers, remaining - {k})
  {
    var next := attrs + [Attribute(k, headers[k])];
    forall k' | k' in headers && k' !in remaining - {k}
      ensures exists i :: 0 <= i < |next| && next[i] == Attribute(k', headers[k'])
    {
      if k' == k {
        assert next[|attrs|] == Attribute(k', headers[k']);
      } else {
        var i :| 0 <= i < |attrs| && attrs[i] == Attribute(k', headers[k']);
        assert next[i] == attrs[i];
      }
    }
  }

  /** The header `Onsite` prepares: regular type, current version, the
      container and owner, the payload size and creation epoch, the SHA-256
      checksum, and the Tillich-Zemor hash unless it is disabled. */
  function PreparedHeader(container: ContainerId, owner: OwnerId, payload: seq<byte>, epoch: u64,
                          hhDisabled: bool): Header
    requires |payload| < TWO_TO_THE_64
  {
    EmptyHeader.(
      version := Some(CurrentVersion),
      objectType := Some(Regular),
      container := Some(container),
      owner := Some(owner),
      payloadSize := |payload|,
      creationEpoch := epoch,
      payloadChecksum := Some(Sha256Of(payload)),
      homomorphicHash := if hhDisabled then None else Some(TillichZemorOf(payload)))
  }

  /** The size check `ln > int(maxObjectSize)` as the source writes it, with a
      64-bit Go `int`: a limit of 2^63 or more turns negative. */
  predicate RejectsAsWritten(ln: nat, maxObjectSize: u64)
  {
    var limit: int := if maxObjectSize < 0x8000_0000_0000_0000 then maxObjectSize
                      else maxObjectSize - TWO_TO_THE_64;
    ln > limit
  }

  /** The size check as intended: the payload is longer than the limit. */
  predicate ExceedsLimit(ln: nat, maxObjectSize: u64)
  {
    ln > maxObjectSize
  }

  /** Below 2^63 the two checks agree; from 2^63 on the written one rejects
      every payload, the empty one included. */
  lemma SizeCheckAsWritten(ln: nat, maxObjectSize: u64)
    ensures maxObjectSize < 0x8000_0000_0000_0000 ==> (RejectsAsWritten(ln, maxObjectSize) <==> ExceedsLimit(ln, maxObjectSize))
    ensures maxObjectSize >= 0x8000_0000_0000_0000 ==> RejectsAsWritten(ln, maxObjectSize)
  {
  }

  /** The counterexample: a network limit of 2^64 - 1 rejects an empty payload. */
  lemma SizeCheckRejectsEmptyPayload()
    ensures RejectsAsWritten(0, TWO_TO_THE_64 - 1) && !ExceedsLimit(0, TWO_TO_THE_64 - 1)
  {
  }

  /** What `Put` returns once `put` has run: a failure with its error, a panic
      when neither a response nor an error came back (the response is read
      through a nil pointer), and the stored identifier otherwise. */
  function ClientPutOutcome(run: Transfer.PutRun): Call<PutResponse>
  {
    if run.err.Some? then Returned(PutResponse(false, None, run.err))
    else if run.resp.None? then Panicked(NilDereference)
    else Returned(PutResponse(true, Some(run.resp.value.stored), None))
  }

  /** What `PreparedObject.Put` returns once `put` has run: success with the
      locally computed identifier whenever `put` returned no error. */
  function PreparedPutOutcome(run: Transfer.PutRun, id: ObjectId): PutResponse
  {
    if run.err.Some? then PutResponse(false, None, run.err) else PutResponse(true, Some(id), None)
  }

  /** A header the store rejects, followed by a clean close, is reported as a
      successful put by the two-phase flow, and panics the direct PUT. */
  lemma HeaderRejectedCleanCloseOutcomes(bufSize: nat, payload: seq<byte>, chunkAnswers: seq<bool>,
                                         receipt: PutReceipt, id: ObjectId)
    ensures var run := Transfer.PutSpec(bufSize, payload, None, false, chunkAnswers, Success(receipt));
      && PreparedPutOutcome(run, id) == PutResponse(true, Some(id), None)
      && ClientPutOutcome(run) == Panicked(NilDereference)
      && run.reports == [Counter(ObjPutTotal, 1), Counter(ObjPutFails, 1)]
  {
    Transfer.PutHeaderRejectedCleanClose(bufSize, payload, chunkAnswers, receipt);
  }

  /** A put either succeeds or carries an error, and it succeeds exactly when
      `put` returned no error. */
  lemma PreparedPutSucceedsIffNoError(run: Transfer.PutRun, id: ObjectId)
    ensures var r := PreparedPutOutcome(run, id);
      && (r.success <==> run.err.None?)
      && (r.success <==> r.error.None?)
      && (r.success ==> r.objectId == Some(id))
  {
  }

  /** The object `Onsite` returns: the header and payload, and the buffer size
      of the client that made it. The VU and the store client it also carries
      are not modelled. */
  datatype PreparedObject = PreparedObject(key: Key, bufsize: nat, hdr: Header, payload: seq<byte>)
  {
    /** `PreparedObject.Put`: sets the attributes on a copy of the prepared
        header, computes its identifier and signature, and puts it without a
        session token. idErr and signErr are the SDK's answers to
        `object.CalculateID` and `object.CalculateAndSetSignature`. */
    method Put(stats: Metrics, headers: map<string, string>, idErr: Option<Error>, signErr: Option<Error>,
               w: PutStream)
      returns (r: PutResponse)
      requires w.Idle()
      modifies stats, w
      ensures idErr.Some? ==> r == PutResponse(false, None, idErr) && stats.log == old(stats.log) && w.Idle()
      ensures idErr.None? && signErr.Some? ==>
        r == PutResponse(false, None, signErr) && stats.log == old(stats.log) && w.Idle()
      ensures idErr.None? && signErr.None? ==>
        var run := Transfer.PutSpec(bufsize, payload, w.openAnswer, w.headerAnswer, w.chunkAnswers, w.closeAnswer);
        && (w.isOpen <==> w.openAnswer.None?) && (w.closed <==> w.openAnswer.None?) && w.session.None?
        && stats.log == old(stats.log) + run.reports
        && w.chunks == run.chunks
        && (w.openAnswer.Some? ==> r == PutResponse(false, None, w.openAnswer) && w.header.None?)
        && (w.openAnswer.None? ==>
            && w.header.Some? && SentHeader(w.header.value)
            && ListsEachPairOnce(w.header.value.attributes, headers)
            && r == PreparedPutOutcome(run, w.header.value.id.value))
    {
      var attrs := AttributesFromMap(headers);
      var obj := hdr.(attributes := attrs[..]);
      if idErr.Some? {
        return PutResponse(false, None, idErr);
      }
      var id := IdOf(obj);
      obj := obj.(id := Some(id));
      if signErr.Some? {
        return PutResponse(false, None, signErr);
      }
      obj := obj.(signature := Some(SignedBy(key, id)));
      assert SentHeader(obj);
      var resp, err := Transfer.Put(stats, bufsize, w, None, obj, payload);
      if err.Some? {
        return PutResponse(false, None, err);
      }
      return PutResponse(true, Some(id), None);
    }

    /** h is the prepared header with the attributes of one call, its
        identifier computed over that header, and the key's signature of it;
        every other field is the prepared one. */
    ghost predicate SentHeader(h: Header)
    {
      && h.(attributes := hdr.attributes, id := hdr.id, signature := hdr.signature) == hdr
      && h.id == Some(IdOf(h.(id := hdr.id, signature := hdr.signature)))
      && h.signature == Some(SignedBy(key, h.id.value))
    }
  }

  class Client {
    const key: Key
    /** The base session token every call copies and re-scopes. */
    const tok: SessionToken
    var bufsize: int

    /** The client's construction lives outside this model; it starts with a
        buffer size that is not negative. */
    constructor (key: Key, tok: SessionToken, bufsize: nat)
      ensures this.key == key && this.tok == tok && this.bufsize == bufsize
    {
      this.key := key;
      this.tok := tok;
      this.bufsize := bufsize;
    }

    predicate Valid()
      reads this
    {
      bufsize >= 0
    }

    /** `SetBufferSize`: a negative size panics and changes nothing, zero
        selects the 64 KiB default, and any other size is taken as it is. */
    method SetBufferSize(size: int) returns (r: Call<()>)
      modifies this
      ensures size < 0 ==> r == Panicked(NegativeBufferSize) && bufsize == old(bufsize)
      ensures size == 0 ==> r == Returned(()) && bufsize == DefaultBufferSize
      ensures size > 0 ==> r == Returned(()) && bufsize == size
      ensures r.Returned? ==> bufsize > 0
      ensures old(Valid()) ==> Valid()
    {
      if size < 0 {
        return Panicked(NegativeBufferSize);
      }
      if size == 0 {
        bufsize := DefaultBufferSize;
      } else {
        bufsize := size;
      }
      return Returned(());
    }

    /** `Put`: scopes a copy of the session token to PUT on the container,
        builds a header with the container, the owner and one attribute per
        map pair, and streams the payload. containerId and signErr are the
        outcomes of `DecodeString` and `Sign`. */
    method Put(stats: Metrics, containerId: Result<ContainerId, Error>, signErr: Option<Error>,
               headers: map<string, string>, payload: seq<byte>, w: PutStream)
      returns (r: Call<PutResponse>)
      requires Valid() && w.Idle()
      modifies stats, w
      ensures containerId.Failure? ==> r == Panicked(containerId.error) && stats.log == old(stats.log) && w.Idle()
      ensures containerId.Success? && signErr.Some? ==>
        r == Panicked(signErr.value) && stats.log == old(stats.log) && w.Idle()
      ensures containerId.Success? && signErr.None? ==>
        var run := Transfer.PutSpec(bufsize, payload, w.openAnswer, w.headerAnswer, w.chunkAnswers, w.closeAnswer);
        && stats.log == old(stats.log) + run.reports
        && w.chunks == run.chunks
        && r == ClientPutOutcome(run)
        && (w.isOpen <==> w.openAnswer.None?) && (w.closed <==> w.openAnswer.None?)
        && (w.openAnswer.Some? ==> w.session.None? && w.header.None?)
        && (w.openAnswer.None? ==>
            && w.session == Some(Scoped(tok, ObjectPut, Address(containerId.value, None), key))
            && w.header.Some?
            && w.header.value == EmptyHeader.(container := Some(containerId.value), owner := Some(OwnerOf(key)),
                                              attributes := w.header.value.attributes)
            && ListsEachPairOnce(w.header.value.attributes, headers))
    {
      if containerId.Failure? {
        return Panicked(containerId.error);
      }
      var addr := Address(containerId.value, None);
      if signErr.Some? {
        return Panicked(signErr.value);
      }
      var scoped := Scoped(tok, ObjectPut, addr, key);
      var owner := OwnerOf(key);
      var attrs := AttributesFromMap(headers);
      var o := EmptyHeader.(container := Some(containerId.value), owner := Some(owner), attributes := attrs[..]);
      var resp, err := Transfer.Put(stats, bufsize, w, Some(scoped), o, payload);
      if err.Some? {
        return Returned(PutResponse(false, None, err));
      }
      if resp.None? {
        return Panicked(NilDereference);
      }
      return Returned(PutResponse(true, Some(resp.value.stored), None));
    }

    /** `Get`: scopes a copy of the session token to GET on the object and
        counts the bytes of its payload. containerId, objectId and signErr are
        the outcomes of the two `DecodeString` calls and of `Sign`. */
    method Get(stats: Metrics, containerId: Result<ContainerId, Error>, objectId: Result<ObjectId, Error>,
               signErr: Option<Error>, r: GetStream)
      returns (res: Call<Transfer.GetResponse>)
      requires Valid() && r.Idle()
      modifies stats, r
      ensures containerId.Failure? ==> res == Panicked(containerId.error) && stats.log == old(stats.log) && r.Idle()
      ensures containerId.Success? && objectId.Failure? ==>
        res == Panicked(objectId.error) && stats.log == old(stats.log) && r.Idle()
      ensures containerId.Success? && objectId.Success? && signErr.Some? ==>
        res == Panicked(signErr.value) && stats.log == old(stats.log) && r.Idle()
      ensures containerId.Success? && objectId.Success? && signErr.None? ==>
        var addr := Address(containerId.value, Some(objectId.value));
        var run := Transfer.GetSpec(bufsize, r.openAnswer, r.headerAnswer, r.readAnswers, r.closeAnswer);
        && stats.log == old(stats.log) + run.reports
        && res == run.outcome
        && r.request == Some(GetRequest(containerId.value, objectId.value, Scoped(tok, ObjectGet, addr, key)))
        && r.closed == r.openAnswer.None?
        && r.readCount == (if r.openAnswer.None? && r.headerAnswer then Transfer.ReadsFrom(r.readAnswers, bufsize, 0) else 0)
    {
      var buf := new byte[bufsize];
      if containerId.Failure? {
        return Panicked(containerId.error);
      }
      if objectId.Failure? {
        return Panicked(objectId.error);
      }
      var addr := Address(containerId.value, Some(objectId.value));
      if signErr.Some? {
        return Panicked(signErr.value);
      }
      var scoped := Scoped(tok, ObjectGet, addr, key);
      res := Transfer.Get(stats, buf, r, GetRequest(containerId.value, objectId.value, scoped));
    }

    /** `Onsite`: resolves the network parameters, refuses a payload longer
        than the maximum object size, and prepares the object's header.
        containerId is the outcome of `DecodeString`. The size check is the
        intended unsigned one (`ExceedsLimit`); it agrees with the check as
        written whenever the limit is below 2^63. */
    method Onsite(info: Result<NetInfo, Error>, tryBool: BoolDecoder, containerId: Result<ContainerId, Error>,
                  payload: seq<byte>)
      returns (r: Call<PreparedObject>)
      requires Valid()
      ensures info.Failure? ==> r == Panicked(info.error)
      ensures info.Success? ==>
        var scan := ScanFrom(ScanStart, info.value.parameters, tryBool);
        && (scan.err.Some? ==> r == Panicked(scan.err.value))
        && (scan.err.None? && |payload| > scan.maxObjSize ==> r == Panicked(PayloadTooLarge(|payload|, scan.maxObjSize)))
        && (scan.err.None? && |payload| <= scan.maxObjSize && containerId.Failure? ==>
            r == Panicked(containerId.error))
        && (r.Returned? <==> scan.err.None? && |payload| <= scan.maxObjSize && containerId.Success?)
        && (scan.err.None? && scan.maxObjSize < 0x8000_0000_0000_0000 ==>
            && (RejectsAsWritten(|payload|, scan.maxObjSize) ==> r == Panicked(PayloadTooLarge(|payload|, scan.maxObjSize)))
            && (r.Returned? <==> !RejectsAsWritten(|payload|, scan.maxObjSize) && containerId.Success?))
        && (r.Returned? ==>
            && r.value.key == key && r.value.bufsize == bufsize && r.value.payload == payload
            && r.value.hdr.payloadSize == |payload|
            && r.value.hdr.creationEpoch == info.value.currentEpoch
            && r.value.hdr.payloadChecksum == Some(Sha256Of(payload))
            && (r.value.hdr.homomorphicHash.Some? <==> !scan.hhDisabled)
            && r.value.hdr == PreparedHeader(containerId.value, OwnerOf(key), payload,
                                             info.value.currentEpoch, scan.hhDisabled))
    {
      var np := ParseNetworkInfo(info, tryBool);
      if np.err.Some? {
        return Panicked(np.err.value);
      }
      var ln := |payload|;
      if ExceedsLimit(ln, np.maxObjSize) {
        return Panicked(PayloadTooLarge(ln, np.maxObjSize));
      }
      if containerId.Failure? {
        return Panicked(containerId.error);
      }
      var owner := OwnerOf(key);
      var hdr := PreparedHeader(containerId.value, owner, payload, np.epoch, np.hhDisabled);
      return Returned(PreparedObject(key, bufsize, hdr, payload));
    }
  }
}

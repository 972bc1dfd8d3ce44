/** The store as the transfer paths see it: one write stream per PUT
    (`ObjectPutInit`, `WithinSession`, `WriteHeader`, `WritePayloadChunk`,
    `Close`) and one read stream per GET (`ObjectGetInit`, `ReadHeader`,
    `Read`, `Close`). The store's answers are fixed when the stream object is
    made; the stream records what the client did with it. The network and
    the RPC protocol behind these calls are not part of this model. */
module Store {
  import opened Common
  import opened Objects

  /** What a successful `Close` of a write stream returns (`client.ResObjectPut`). */
  datatype PutReceipt = PutReceipt(stored: ObjectId)

  /** The store's answer to the i-th chunk written: answers past the end of
      the list accept. */
  predicate Accepts(answers: seq<bool>, i: nat)
  {
    i >= |answers| || answers[i]
  }

  class PutStream {
    const openAnswer: Option<Error>
    const headerAnswer: bool
    const chunkAnswers: seq<bool>
    const closeAnswer: Result<PutReceipt, Error>

    var isOpen: bool
    var session: Option<SessionToken>
    var header: Option<Header>
    var chunks: seq<seq<byte>>
    var closed: bool

    constructor (openAnswer: Option<Error>, headerAnswer: bool, chunkAnswers: seq<bool>,
                 closeAnswer: Result<PutReceipt, Error>)
      ensures Idle()
      ensures this.openAnswer == openAnswer && this.headerAnswer == headerAnswer
      ensures this.chunkAnswers == chunkAnswers && this.closeAnswer == closeAnswer
    {
      this.openAnswer := openAnswer;
      this.headerAnswer := headerAnswer;
      this.chunkAnswers := chunkAnswers;
      this.closeAnswer := closeAnswer;
      isOpen, session, header, chunks, closed := false, None, None, [], false;
    }

    /** Nothing has been done with the stream yet. */
    predicate Idle()
      reads this
    {
      !isOpen && session.None? && header.None? && chunks == [] && !closed
    }

    /** `ObjectPutInit`: the stream is open only when it reports no error. */
    method Open() returns (err: Option<Error>)
      modifies this
      ensures err == openAnswer && isOpen == openAnswer.None?
      ensures session == old(session) && header == old(header)
      ensures chunks == old(chunks) && closed == old(closed)
    {
      isOpen := openAnswer.None?;
      err := openAnswer;
    }

    /** `WithinSession`. */
    method WithinSession(tok: SessionToken)
      requires isOpen && header.None? && !closed
      modifies this
      ensures session == Some(tok)
      ensures isOpen == old(isOpen) && header == old(header)
      ensures chunks == old(chunks) && closed == old(closed)
    {
      session := Some(tok);
    }

    /** `WriteHeader`. */
    method WriteHeader(h: Header) returns (ok: bool)
      requires isOpen && header.None? && chunks == [] && !closed
      modifies this
      ensures header == Some(h) && ok == headerAnswer
      ensures isOpen == old(isOpen) && session == old(session)
      ensures chunks == old(chunks) && closed == old(closed)
    {
      header := Some(h);
      ok := headerAnswer;
    }

    /** `WritePayloadChunk`: the chunk is recorded, and the answer is the
        store's answer for a chunk at that position. */
    method WritePayloadChunk(chunk: seq<byte>) returns (ok: bool)
      requires isOpen && header.Some? && !closed
      modifies this
      ensures chunks == old(chunks) + [chunk]
      ensures ok == Accepts(chunkAnswers, |old(chunks)|)
      ensures isOpen == old(isOpen) && session == old(session)
      ensures header == old(header) && closed == old(closed)
    {
      ok := Accepts(chunkAnswers, |chunks|);
      chunks := chunks + [chunk];
    }

    /** `Close`. */
    method Close() returns (res: Result<PutReceipt, Error>)
      requires isOpen && !closed
      modifies this
      ensures closed && res == closeAnswer
      ensures isOpen == old(isOpen) && session == old(session)
      ensures header == old(header) && chunks == old(chunks)
    {
      closed := true;
      res := closeAnswer;
    }
  }

  /** What `ObjectGetInit` is asked for (`ByID`, `FromContainer`, `WithinSession`). */
  datatype GetRequest = GetRequest(container: ContainerId, object: ObjectId, session: SessionToken)

  /** The length the k-th read of a GET stream delivers, before it is cut to
      the caller's buffer; reads past the end of the list deliver nothing. */
  function Delivered(answers: seq<nat>, k: nat): nat
  {
    if k < |answers| then answers[k] else 0
  }

  class GetStream {
    const openAnswer: Option<Error>
    const headerAnswer: bool
    const readAnswers: seq<nat>
    const closeAnswer: Option<Error>

    var request: Option<GetRequest>
    var headerRead: bool
    var readCount: nat
    var closed: bool

    constructor (openAnswer: Option<Error>, headerAnswer: bool, readAnswers: seq<nat>,
                 closeAnswer: Option<Error>)
      ensures Idle()
      ensures this.openAnswer == openAnswer && this.headerAnswer == headerAnswer
      ensures this.readAnswers == readAnswers && this.closeAnswer == closeAnswer
    {
      this.openAnswer := openAnswer;
      this.headerAnswer := headerAnswer;
      this.readAnswers := readAnswers;
      this.closeAnswer := closeAnswer;
      request, headerRead, readCount, closed := None, false, 0, false;
    }

    predicate Idle()
      reads this
    {
      request.None? && !headerRead && readCount == 0 && !closed
    }

    /** `ObjectGetInit`. */
    method Open(req: GetRequest) returns (err: Option<Error>)
      modifies this
      ensures request == Some(req) && err == openAnswer
      ensures headerRead == old(headerRead) && readCount == old(readCount) && closed == old(closed)
    {
      request := Some(req);
      err := openAnswer;
    }

    /** `ReadHeader`. */
    method ReadHeader() returns (ok: bool)
      requires request.Some? && !headerRead && !closed
      modifies this
      ensures headerRead && ok == headerAnswer
      ensures request == old(request) && readCount == old(readCount) && closed == old(closed)
    {
      headerRead := true;
      ok := headerAnswer;
    }

    /** `Read` into a buffer: never more than the buffer holds. The bytes
        themselves are not modelled; the error is ignored by the caller and
        left out. */
    method Read(buf: array<byte>) returns (n: nat)
      requires headerRead && !closed
      modifies this
      ensures n == Min(Delivered(readAnswers, old(readCount)), buf.Length)
      ensures readCount == old(readCount) + 1
      ensures request == old(request) && headerRead == old(headerRead) && closed == old(closed)
    {
      n := Min(Delivered(readAnswers, readCount), buf.Length);
      readCount := readCount + 1;
    }

    /** `Close`. */
    method Close() returns (err: Option<Error>)
      requires request.Some? && !closed
      modifies this
      ensures closed && err == closeAnswer
      ensures request == old(request) && headerRead == old(headerRead) && readCount == old(readCount)
    {
      closed := true;
      err := closeAnswer;
    }
  }
}

/** The two transfer loops: `put`, which streams a payload to the store in
    buffer-sized chunks, and the counting part of `Client.Get`, which reads
    an object's payload into one reused buffer until a read returns nothing.
    Both report their metrics as they go. */
module Transfer {
  import opened Common
  import opened Objects
  import opened Stats
  import opened Store
  import opened Chunking

  /** `bytes.NewReader(payload)`: a read position over a fixed byte string. */
  class BytesReader {
    const s: seq<byte>
    var i: nat

    constructor (s: seq<byte>)
      ensures this.s == s && i == 0
    {
      this.s := s;
      i := 0;
    }

    /** `Read`: copies as much as fits into b and advances; at the end of the
        data it copies nothing. */
    method Read(b: array<byte>) returns (n: nat)
      requires i <= |s|
      modifies this, b
      ensures n == Min(b.Length, |s| - old(i)) && i == old(i) + n
      ensures b[..n] == s[old(i)..i]
      ensures forall j :: n <= j < b.Length ==> b[j] == old(b[j])
    {
      n := Min(b.Length, |s| - i);
      forall k | 0 <= k < n {
        b[k] := s[i + k];
      }
      i := i + n;
    }
  }

  // ---------------------------------------------------------------------
  // PUT

  /** How many of the n chunks, from the i-th on, the loop hands to the
      stream: it stops right after the first one the stream rejects. */
  function AttemptsFrom(answers: seq<bool>, n: nat, i: nat): (c: nat)
    requires i <= n
    ensures i <= c <= n
    ensures forall j :: i <= j < c - 1 ==> Accepts(answers, j)
    ensures c < n ==> i < c && !Accepts(answers, c - 1)
    decreases n - i
  {
    if i == n then n
    else if !Accepts(answers, i) then i + 1
    else AttemptsFrom(answers, n, i + 1)
  }

  /** How many of n chunks are written in all. */
  function Attempts(answers: seq<bool>, n: nat): nat
  {
    AttemptsFrom(answers, n, 0)
  }

  /** Everything one `put` call does that can be observed: the chunks the
      stream receives, the reports, and the pair (response, error) it
      returns. */
  datatype PutRun = PutRun(
    chunks: seq<seq<byte>>,
    reports: seq<Report>,
    resp: Option<PutReceipt>,
    err: Option<Error>)

  /** The behaviour of `put` given the store's answers. A header the store
      rejects leads to the close error, which may be no error at all. */
  function PutSpec(bufSize: nat, payload: seq<byte>, openAnswer: Option<Error>, headerAnswer: bool,
                   chunkAnswers: seq<bool>, closeAnswer: Result<PutReceipt, Error>): PutRun
  {
    var failed := [Counter(ObjPutTotal, 1), Counter(ObjPutFails, 1)];
    if openAnswer.Some? then
      PutRun([], failed, None, openAnswer)
    else if !headerAnswer then
      PutRun([], failed, None, if closeAnswer.Failure? then Some(closeAnswer.error) else None)
    else
      var all := Split(payload, bufSize);
      var chunks := all[..Attempts(chunkAnswers, |all|)];
      if closeAnswer.Failure? then
        PutRun(chunks, failed, None, Some(closeAnswer.error))
      else
        PutRun(chunks, [Counter(ObjPutTotal, 1), DataSent(|payload|), Duration(ObjPutDuration)],
               Some(closeAnswer.value), None)
  }

  /** `put`: opens the write stream, attaches the session token when there is
      one, writes the header, streams the payload through one buffer of
      bufSize bytes, and closes the stream. */
  method Put(stats: Metrics, bufSize: nat, w: PutStream, tok: Option<SessionToken>, hdr: Header,
             payload: seq<byte>)
    returns (resp: Option<PutReceipt>, err: Option<Error>)
    requires w.Idle()
    modifies stats, w
    ensures var run := PutSpec(bufSize, payload, w.openAnswer, w.headerAnswer, w.chunkAnswers, w.closeAnswer);
      && stats.log == old(stats.log) + run.reports
      && w.chunks == run.chunks && resp == run.resp && err == run.err
    ensures w.isOpen <==> w.openAnswer.None?
    ensures w.openAnswer.Some? ==> w.session.None? && w.header.None? && !w.closed
    ensures w.openAnswer.None? ==> w.session == tok && w.header == Some(hdr) && w.closed
  {
    var sz := |payload|;

    stats.Report(Counter(ObjPutTotal, 1));

    var openErr := w.Open();
    if openErr.Some? {
      stats.Report(Counter(ObjPutFails, 1));
      return None, openErr;
    }

    if tok.Some? {
      w.WithinSession(tok.value);
    }

    var headerOk := w.WriteHeader(hdr);
    if !headerOk {
      stats.Report(Counter(ObjPutFails, 1));
      var res := w.Close();
      return None, if res.Failure? then Some(res.error) else None;
    }

    StreamPayload(w, bufSize, payload);

    var res := w.Close();
    if res.Failure? {
      stats.Report(Counter(ObjPutFails, 1));
      return None, Some(res.error);
    }

    stats.Report(DataSent(sz));
    stats.Report(Duration(ObjPutDuration));
    return Some(res.value), None;
  }

  /** The chunk loop of `put`: a reader over the payload fills one buffer of
      bufSize bytes again and again, and each non-empty fill is written to
      the stream until the stream rejects one. */
  method StreamPayload(w: PutStream, bufSize: nat, payload: seq<byte>)
    requires w.chunks == [] && w.isOpen && w.header.Some? && !w.closed
    modifies w
    ensures var all := Split(payload, bufSize);
      w.chunks == all[..Attempts(w.chunkAnswers, |all|)]
    ensures w.isOpen == old(w.isOpen) && w.session == old(w.session)
    ensures w.header == old(w.header) && w.closed == old(w.closed)
  {
    var buf := new byte[bufSize];
    var rdr := new BytesReader(payload);
    ghost var all := Split(payload, bufSize);
    ghost var count := Attempts(w.chunkAnswers, |all|);
    ghost var k: nat := 0;
    var n: nat := ReadChunk(rdr, buf, bufSize);
    while n > 0
      invariant rdr.s == payload && rdr.i <= |payload| && buf.Length == bufSize
      invariant n <= bufSize && n <= rdr.i && buf[..n] == payload[rdr.i - n..rdr.i]
      invariant k <= |all| && w.chunks == all[..k]
      invariant AttemptsFrom(w.chunkAnswers, |all|, k) == count
      invariant all[k..] == (if n > 0 then [buf[..n]] else []) + Split(payload[rdr.i..], bufSize)
      invariant n == 0 ==> Split(payload[rdr.i..], bufSize) == []
      invariant w.isOpen == old(w.isOpen) && w.session == old(w.session)
      invariant w.header == old(w.header) && w.closed == old(w.closed)
      decreases |payload| - rdr.i + n
    {
      ghost var chunk := buf[..n];
      ghost var rest := Split(payload[rdr.i..], bufSize);
      var accepted := w.WritePayloadChunk(buf[..n]);
      NextChunk(all, k, chunk, rest);
      k := k + 1;
      if !accepted {
        assert count == k;
        break;
      }
      n := ReadChunk(rdr, buf, bufSize);
    }
    assert w.chunks == all[..count];
  }

  /** One `rdr.Read(buf)` of the chunk loop: the bytes it reads are the next
      chunk of the split, when there is one. */
  method ReadChunk(rdr: BytesReader, buf: array<byte>, bufSize: nat) returns (n: nat)
    requires rdr.i <= |rdr.s| && buf.Length == bufSize
    modifies rdr, buf
    ensures rdr.i <= |rdr.s| && n <= bufSize && n <= rdr.i && rdr.i == old(rdr.i) + n
    ensures buf[..n] == rdr.s[rdr.i - n..rdr.i]
    ensures Split(rdr.s[old(rdr.i)..], bufSize) == (if n > 0 then [buf[..n]] else []) + Split(rdr.s[rdr.i..], bufSize)
    ensures n == 0 ==> Split(rdr.s[rdr.i..], bufSize) == []
  {
    ReadStep(rdr.s, rdr.i, bufSize);
    n := rdr.Read(buf);
  }

  lemma NextChunk(all: seq<seq<byte>>, k: nat, chunk: seq<byte>, rest: seq<seq<byte>>)
    requires k <= |all| && all[k..] == [chunk] + rest
    ensures k + 1 <= |all| && all[..k] + [chunk] == all[..k + 1] && all[k + 1..] == rest
  {
    assert all[k..][0] == chunk && all[k..][1..] == rest;
  }

  /** The call is counted exactly once. The failure counter is reported
      exactly once when the stream cannot be opened, the header is rejected
      or the close fails, and never otherwise. */
  lemma PutAccounting(bufSize: nat, payload: seq<byte>, openAnswer: Option<Error>, headerAnswer: bool,
                      chunkAnswers: seq<bool>, closeAnswer: Result<PutReceipt, Error>)
    ensures var run := PutSpec(bufSize, payload, openAnswer, headerAnswer, chunkAnswers, closeAnswer);
      && Occurrences(run.reports, Counter(ObjPutTotal, 1)) == 1
      && Occurrences(run.reports, Counter(ObjPutFails, 1))
         == (if openAnswer.Some? || !headerAnswer || closeAnswer.Failure? then 1 else 0)
      && (run.resp.Some? <==> openAnswer.None? && headerAnswer && closeAnswer.Success?)
  {
    var run := PutSpec(bufSize, payload, openAnswer, headerAnswer, chunkAnswers, closeAnswer);
    assert run.reports[1..][1..] == [] || run.reports[1..][1..][1..] == [];
  }

  /** Bytes sent are reported only on success, and then as the whole payload
      length, even when the chunk loop stopped early. */
  lemma PutDataSent(bufSize: nat, payload: seq<byte>, openAnswer: Option<Error>, headerAnswer: bool,
                    chunkAnswers: seq<bool>, closeAnswer: Result<PutReceipt, Error>, bytes: nat)
    ensures var run := PutSpec(bufSize, payload, openAnswer, headerAnswer, chunkAnswers, closeAnswer);
      && (DataSent(bytes) in run.reports <==> run.resp.Some? && bytes == |payload|)
      && (run.resp.Some? ==> Occurrences(run.reports, DataSent(|payload|)) == 1)
  {
    var run := PutSpec(bufSize, payload, openAnswer, headerAnswer, chunkAnswers, closeAnswer);
    if run.resp.Some? {
      assert run.reports[1..][1..][1..] == [];
    }
  }

  /** A header the store rejects, followed by a clean close, makes `put`
      return neither a response nor an error. */
  lemma PutHeaderRejectedCleanClose(bufSize: nat, payload: seq<byte>, chunkAnswers: seq<bool>,
                                    receipt: PutReceipt)
    ensures var run := PutSpec(bufSize, payload, None, false, chunkAnswers, Success(receipt));
      run.resp.None? && run.err.None? && run.chunks == []
  {
  }

  /** When the header and every chunk are accepted, the chunks are the
      payload cut at multiples of the buffer size: each fills the buffer but
      the last, they join up to the payload, and there are ceil(|payload| /
      bufSize) of them (none for an empty payload). */
  lemma PutSendsWholePayload(bufSize: nat, payload: seq<byte>, chunkAnswers: seq<bool>,
                             closeAnswer: Result<PutReceipt, Error>)
    requires bufSize > 0
    requires forall j :: 0 <= j < |Split(payload, bufSize)| ==> Accepts(chunkAnswers, j)
    ensures var chunks := PutSpec(bufSize, payload, None, true, chunkAnswers, closeAnswer).chunks;
      && Concat(chunks) == payload
      && |chunks| * bufSize >= |payload|
      && (payload != [] ==> (|chunks| - 1) * bufSize < |payload|)
      && (forall i :: 0 <= i < |chunks| - 1 ==> |chunks[i]| == bufSize)
      && (forall i :: 0 <= i < |chunks| ==> 0 < |chunks[i]| <= bufSize)
  {
    var all := Split(payload, bufSize);
    assert Attempts(chunkAnswers, |all|) == |all|;
    assert all[..|all|] == all;
    SplitConcat(payload, bufSize);
    SplitCount(payload, bufSize);
    SplitChunkSizes(payload, bufSize);
  }

  /** The chunks written are the payload's slices in offset order, and none
      is written after the first rejected one: if chunk j is rejected and
      every chunk before it accepted, exactly chunks 0..j are written. */
  lemma PutStopsAtFirstRejection(bufSize: nat, payload: seq<byte>, chunkAnswers: seq<bool>,
                                 closeAnswer: Result<PutReceipt, Error>, j: nat)
    requires j < |Split(payload, bufSize)|
    requires !Accepts(chunkAnswers, j) && forall i :: 0 <= i < j ==> Accepts(chunkAnswers, i)
    ensures var chunks := PutSpec(bufSize, payload, None, true, chunkAnswers, closeAnswer).chunks;
      && |chunks| == j + 1
      && forall i :: 0 <= i <= j ==> IsChunkAt(payload, bufSize, i, chunks[i])
  {
    var all := Split(payload, bufSize);
    AttemptsIsFirstRejection(chunkAnswers, |all|, j, 0);
    forall i | 0 <= i <= j
      ensures IsChunkAt(payload, bufSize, i, all[i])
    {
      SplitOffsets(payload, bufSize, i);
    }
  }

  lemma {:induction false} AttemptsIsFirstRejection(answers: seq<bool>, n: nat, j: nat, i: nat)
    requires i <= j < n
    requires !Accepts(answers, j) && forall k :: i <= k < j ==> Accepts(answers, k)
    ensures AttemptsFrom(answers, n, i) == j + 1
    decreases j - i
  {
    if i < j {
      AttemptsIsFirstRejection(answers, n, j, i + 1);
    }
  }

  // ---------------------------------------------------------------------
  // GET

  /** The byte count of the GET loop from the k-th read on: the read lengths,
      each cut to the buffer size, added up to the first read that returns
      nothing. */
  function Counted(answers: seq<nat>, cap: nat, k: nat): nat
    decreases |answers| - k
  {
    var n := Min(Delivered(answers, k), cap);
    if n == 0 then 0 else n + Counted(answers, cap, k + 1)
  }

  /** The number of reads the GET loop makes from the k-th on, the final
      empty one included. */
  function ReadsFrom(answers: seq<nat>, cap: nat, k: nat): (r: nat)
    ensures r >= 1
    ensures Min(Delivered(answers, k + r - 1), cap) == 0
    ensures forall i :: k <= i < k + r - 1 ==> Min(Delivered(answers, i), cap) > 0
    decreases |answers| - k
  {
    var n := Min(Delivered(answers, k), cap);
    if n == 0 then 1 else 1 + ReadsFrom(answers, cap, k + 1)
  }

  /** The sum of a list of lengths up to, not including, its first zero. */
  function SumUntilZero(lengths: seq<nat>): nat
  {
    if lengths == [] || lengths[0] == 0 then 0 else lengths[0] + SumUntilZero(lengths[1..])
  }

  datatype GetResponse = GetResponse(success: bool, error: Option<Error>)

  datatype GetRun = GetRun(reports: seq<Report>, outcome: Call<GetResponse>)

  /** The behaviour of the GET transfer given the store's answers. When the
      header cannot be read and the close reports no error, the source calls
      `Error()` on a nil error: a panic. */
  function GetSpec(bufSize: nat, openAnswer: Option<Error>, headerAnswer: bool, readAnswers: seq<nat>,
                   closeAnswer: Option<Error>): GetRun
  {
    var failed := [Counter(ObjGetTotal, 1), Counter(ObjGetFails, 1)];
    if openAnswer.Some? then
      GetRun(failed, Returned(GetResponse(false, openAnswer)))
    else if !headerAnswer then
      GetRun(failed, if closeAnswer.None? then Panicked(NilDereference)
                     else Returned(GetResponse(false, closeAnswer)))
    else if closeAnswer.Some? then
      GetRun(failed, Returned(GetResponse(false, closeAnswer)))
    else
      GetRun([Counter(ObjGetTotal, 1), Duration(ObjGetDuration), DataReceived(Counted(readAnswers, bufSize, 0))],
             Returned(GetResponse(true, None)))
  }

  /** The transfer part of `Client.Get`: open the read stream, read the
      header, count the payload bytes read through buf, close. */
  method Get(stats: Metrics, buf: array<byte>, r: GetStream, req: GetRequest) returns (res: Call<GetResponse>)
    requires r.Idle()
    modifies stats, r
    ensures var run := GetSpec(buf.Length, r.openAnswer, r.headerAnswer, r.readAnswers, r.closeAnswer);
      stats.log == old(stats.log) + run.reports && res == run.outcome
    ensures r.request == Some(req)
    ensures r.readCount == if r.openAnswer.None? && r.headerAnswer then ReadsFrom(r.readAnswers, buf.Length, 0) else 0
    ensures r.closed == r.openAnswer.None?
  {
    stats.Report(Counter(ObjGetTotal, 1));

    var openErr := r.Open(req);
    if openErr.Some? {
      stats.Report(Counter(ObjGetFails, 1));
      return Returned(GetResponse(false, openErr));
    }

    var headerOk := r.ReadHeader();
    if !headerOk {
      stats.Report(Counter(ObjGetFails, 1));
      var closeErr := r.Close();
      if closeErr.None? {
        return Panicked(NilDereference);
      }
      return Returned(GetResponse(false, closeErr));
    }

    var sz := 0;
    var n: nat := r.Read(buf);
    while n > 0
      invariant r.readCount >= 1 && n == Min(Delivered(r.readAnswers, r.readCount - 1), buf.Length)
      invariant n > 0 ==> r.readCount <= |r.readAnswers|
      invariant sz + Counted(r.readAnswers, buf.Length, r.readCount - 1) == Counted(r.readAnswers, buf.Length, 0)
      invariant r.readCount - 1 + ReadsFrom(r.readAnswers, buf.Length, r.readCount - 1) == ReadsFrom(r.readAnswers, buf.Length, 0)
      invariant r.request == Some(req) && r.headerRead && !r.closed
      invariant stats.log == old(stats.log) + [Counter(ObjGetTotal, 1)]
      decreases |r.readAnswers| - r.readCount
    {
      sz := sz + n;
      n := r.Read(buf);
    }

    var closeErr := r.Close();
    if closeErr.Some? {
      stats.Report(Counter(ObjGetFails, 1));
      return Returned(GetResponse(false, closeErr));
    }

    stats.Report(Duration(ObjGetDuration));
    stats.Report(DataReceived(sz));
    return Returned(GetResponse(true, None));
  }

  /** No read delivers more than the buffer holds, so the count is at most
      the buffer size times the number of non-empty reads. */
  lemma {:induction false} CountedBound(answers: seq<nat>, cap: nat, k: nat)
    ensures Counted(answers, cap, k) <= (ReadsFrom(answers, cap, k) - 1) * cap
    decreases |answers| - k
  {
    var n := Min(Delivered(answers, k), cap);
    if n > 0 {
      CountedBound(answers, cap, k + 1);
      MulStep(ReadsFrom(answers, cap, k + 1), cap);
    }
  }

  /** When no read returns more than the buffer holds, the count is the sum of
      the read lengths up to the first zero-length read. */
  lemma {:induction false} CountedIsSumUntilZero(answers: seq<nat>, cap: nat, k: nat)
    requires k <= |answers|
    requires forall i :: k <= i < |answers| ==> answers[i] <= cap
    ensures Counted(answers, cap, k) == SumUntilZero(answers[k..])
    decreases |answers| - k
  {
    if k < |answers| && answers[k] != 0 {
      CountedIsSumUntilZero(answers, cap, k + 1);
      assert answers[k..][1..] == answers[k + 1..];
    }
  }

  /** The call is counted exactly once; the failure counter is reported
      exactly once on an open failure, a header-read failure or a close
      error; bytes received are reported only on success, and then as the
      count of the read loop. */
  lemma GetAccounting(bufSize: nat, openAnswer: Option<Error>, headerAnswer: bool, readAnswers: seq<nat>,
                      closeAnswer: Option<Error>, bytes: nat)
    ensures var run := GetSpec(bufSize, openAnswer, headerAnswer, readAnswers, closeAnswer);
      && Occurrences(run.reports, Counter(ObjGetTotal, 1)) == 1
      && Occurrences(run.reports, Counter(ObjGetFails, 1))
         == (if openAnswer.Some? || !headerAnswer || closeAnswer.Some? then 1 else 0)
      && (DataReceived(bytes) in run.reports
          <==> openAnswer.None? && headerAnswer && closeAnswer.None? && bytes == Counted(readAnswers, bufSize, 0))
      && (run.outcome == Returned(GetResponse(true, None)) <==> openAnswer.None? && headerAnswer && closeAnswer.None?)
  {
    var run := GetSpec(bufSize, openAnswer, headerAnswer, readAnswers, closeAnswer);
    assert run.reports[1..][1..] == [] || run.reports[1..][1..][1..] == [];
  }
}

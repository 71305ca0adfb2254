/** Writing one response, in one go or piece by piece, and reading it back. */
module ResponseWriting {
  import opened Octets
  import opened Grammar
  import opened HttpMessage
  import opened Buffers
  import opened Streams
  import opened Incremental
  import opened ResponseMachine
  import opened ResponseSlicing
  import opened Serializer
  import opened ResponseRoundTrip

  /** What a handler may ask of its writer. */
  datatype WriterCall =
    | Send(response: Response, body: string)
    | Begin(response: Response)
    | Piece(bytes: string)
    | Finish

  datatype Writer = Writer(headRequest: bool, sentHead: bool, chunked: bool, finished: bool)

  function SendFraming(response: Response): (f: Framing)
  {
    if StatusForbidsBody(response.status) then Unframed else WithLength
  }

  /** One call: the flags after it and the octets it puts on the wire. */
  function WriterStep(w: Writer, call: WriterCall): (r: Result<(Writer, string)>)
  {
    match call
    case Send(response, body) =>
      if w.sentHead then Err(FramingConflict)
      else if ResponseError(response, SendFraming(response)).Some? then
        Err(ResponseError(response, SendFraming(response)).value)
      else
        var silent := w.headRequest || StatusForbidsBody(response.status);
        Ok((w.(sentHead := true, finished := true),
            HeadText(response, SendFraming(response), |body|) + if silent then "" else body))
    case Begin(response) =>
      if w.sentHead then Err(FramingConflict)
      else if ResponseError(response, WithChunks).Some? then
        Err(ResponseError(response, WithChunks).value)
      else
        Ok((w.(sentHead := true, chunked := !StatusForbidsBody(response.status)),
            HeadText(response, WithChunks, 0)))
    case Piece(bytes) =>
      if !w.sentHead || w.finished then Err(FramingConflict)
      else if bytes == "" || w.headRequest || !w.chunked then Ok((w, ""))
      else Ok((w, ChunkText(bytes)))
    case Finish =>
      if !w.sentHead || w.finished then Ok((w, ""))
      else
        Ok((w.(finished := true), if w.headRequest || !w.chunked then "" else LAST_CHUNK))
  }

  /** A sequence of calls, all of which must succeed. */
  function Transcript(w: Writer, calls: seq<WriterCall>): (r: Result<(Writer, string)>)
    decreases |calls|
  {
    if calls == [] then Ok((w, ""))
    else
      var first := WriterStep(w, calls[0]);
      if first.Err? then first
      else
        var others := Transcript(first.value.0, calls[1..]);
        if others.Err? then others else Ok((others.value.0, first.value.1 + others.value.1))
  }

  /** Every octet of body the handler offered, in order. */
  function Payload(calls: seq<WriterCall>): (s: string)
  {
    if calls == [] then ""
    else
      (match calls[0]
       case Send(_, body) => body
       case Piece(bytes) => bytes
       case _ => "") + Payload(calls[1..])
  }

  /** The head among the calls, with its framing and announced size. */
  datatype HeadSent = NoHead | HeadSent(response: Response, framing: Framing, bodySize: nat)

  function HeadOf(calls: seq<WriterCall>): (h: HeadSent)
  {
    if calls == [] then NoHead
    else match calls[0]
         case Send(response, body) => HeadSent(response, SendFraming(response), |body|)
         case Begin(response) => HeadSent(response, WithChunks, 0)
         case _ => HeadOf(calls[1..])
  }

  /** The parser's limits cover every chunk and all of them together. */
  predicate PiecesFit(limits: Limits, seen: nat, calls: seq<WriterCall>)
  {
    && seen + |Payload(calls)| <= limits.maxBodySize
    && forall i :: 0 <= i < |calls| && calls[i].Piece? ==> |calls[i].bytes| <= limits.maxChunkSize
  }

  // ── after the head ──────────────────────────────────────────────────────────

  /** Once the parser is done, the writer has nothing more to say. */
  lemma {:induction false} NothingMore(w: Writer, calls: seq<WriterCall>)
    requires w.sentHead && (w.finished || w.headRequest || !w.chunked)
    requires Transcript(w, calls).Ok?
    ensures Transcript(w, calls).value.1 == ""
    decreases |calls|
  {
    if calls != [] {
      NothingMore(WriterStep(w, calls[0]).value.0, calls[1..]);
    }
  }

  lemma RunDone(p: Parser)
    requires p.phase.Done?
    ensures Run(p, "") == Progress(p, "", "", Ended)
  {
    StepStable();
    ExecUnfolds(Step, p, "");
  }

  lemma TailFits(limits: Limits, seen: nat, calls: seq<WriterCall>)
    requires PiecesFit(limits, seen, calls) && calls != []
    ensures calls[0].Piece? ==> PiecesFit(limits, seen + |calls[0].bytes|, calls[1..])
    ensures calls[0].Piece? ==>
              |calls[0].bytes| <= limits.maxChunkSize && seen + |calls[0].bytes| <= limits.maxBodySize
  {
    assert forall i :: 0 <= i < |calls| - 1 ==> calls[1..][i] == calls[i + 1];
    assert calls[0].Piece? ==> |Payload(calls)| == |calls[0].bytes| + |Payload(calls[1..])|;
  }

  /** After Finish no call carries payload. */
  lemma {:induction false} FinishedPayload(w: Writer, calls: seq<WriterCall>)
    requires w.sentHead && w.finished && Transcript(w, calls).Ok?
    ensures Payload(calls) == ""
    decreases |calls|
  {
    if calls != [] {
      FinishedPayload(WriterStep(w, calls[0]).value.0, calls[1..]);
    }
  }

  /** A chunked body read back: the pieces in order, and nothing after the end. */
  lemma {:induction false} ChunksReadBack(p: Parser, w: Writer, calls: seq<WriterCall>)
    requires w.sentHead && !w.finished && !w.headRequest && w.chunked
    requires p.phase.ChunkSize? && p.remaining == 0 && PiecesFit(p.limits, p.seen, calls)
    requires Transcript(w, calls).Ok? && Transcript(w, calls).value.0.finished
    ensures var q := p.(phase := Done, seen := p.seen + |Payload(calls)|);
            q.Valid() && Run(p, Transcript(w, calls).value.1) == Progress(q, "", Payload(calls), Ended)
    decreases |calls|
  {
    hide Run, ChunkText, ParserState.Valid, PiecesFit, HeadText, ResponseError;
    var step := WriterStep(w, calls[0]).value;
    var bytes := Transcript(step.0, calls[1..]).value.1;
    TailFits(p.limits, p.seen, calls);
    match calls[0]
    case Finish =>
      NothingMore(step.0, calls[1..]);
      FinishedPayload(step.0, calls[1..]);
      RunLastChunk(p, "");
      assert Payload(calls) == "" && p.seen + 0 == p.seen;
    case Piece(piece) =>
      if piece == "" {
        assert "" + bytes == bytes && "" + Payload(calls[1..]) == Payload(calls[1..]);
        ChunksReadBack(p, w, calls[1..]);
      } else {
        RunChunk(p, piece, bytes);
        var q: Parser := p.(seen := p.seen + |piece|);
        ChunksReadBack(q, w, calls[1..]);
      }
  }

  // ── the whole exchange ──────────────────────────────────────────────────────

  /** What the recipient must be able to take: the head and its announced body,
      and, for a streamed body, the pieces. */
  predicate Receivable(meth: Method, limits: Limits, calls: seq<WriterCall>)
  {
    var h := HeadOf(calls);
    && h.HeadSent?
    && h.response.status <= 599 && h.response.status != 101 && !meth.Connect?
    && Fits(meth, limits, h.response, h.framing, h.bodySize)
    && (h.framing.WithChunks? && !Bodyless(meth, h.response.status) ==> PiecesFit(limits, 0, calls))
  }

  /** The message the recipient ends up with. */
  predicate Received(meth: Method, limits: Limits, calls: seq<WriterCall>, o: Progress<Parser>)
  {
    var h := HeadOf(calls);
    && h.HeadSent? && o.status.Ended? && o.rest == ""
    && o.state.response == ReceivedHead(meth, h.response, h.framing, h.bodySize)
    && o.state.trailers == []
    && o.body == if Bodyless(meth, h.response.status) then "" else Payload(calls)
  }

  lemma SendReadBack(meth: Method, limits: Limits, response: Response, body: string, bytes: string)
    requires ResponseError(response, SendFraming(response)).None?
    requires response.status <= 599 && response.status != 101 && !meth.Connect?
    requires Fits(meth, limits, response, SendFraming(response), |body|)
    requires bytes == if Bodyless(meth, response.status) then "" else body
    ensures var p := Headed(meth, limits, response, SendFraming(response), |body|);
            p.Valid()
            && Run(Fresh(meth, limits), HeadText(response, SendFraming(response), |body|) + bytes)
               == Progress(p.(phase := Done, seen := |bytes|, remaining := 0), "", bytes, Ended)
  {
    hide Run, HeadText, ReceivedHead, HeadFits, ResponseError, TextBytes, WireFields;
    var framing := SendFraming(response);
    HeadReadBack(meth, limits, response, framing, |body|, bytes);
    var p: Parser := Headed(meth, limits, response, framing, |body|);
    if bytes == "" {
      RunDone(p);
    } else {
      RunLength(p, bytes, "");
      assert bytes + "" == bytes;
    }
  }

  lemma {:induction false} BeginReadBack(meth: Method, limits: Limits, w: Writer, calls: seq<WriterCall>)
    requires calls != [] && calls[0].Begin? && !w.sentHead && !w.finished && w.headRequest == meth.Head?
    requires Receivable(meth, limits, calls)
    requires Transcript(w, calls).Ok? && Transcript(w, calls).value.0.finished
    ensures Received(meth, limits, calls, Run(Fresh(meth, limits), Transcript(w, calls).value.1))
  {
    hide Run, HeadText, ReceivedHead, HeadFits, TextBytes, WireFields, PiecesFit, GetAll,
      ValidFields, AllVchars, ParserState.Valid;
    var response := calls[0].response;
    var w1 := WriterStep(w, calls[0]).value.0;
    var bytes := Transcript(w1, calls[1..]).value.1;
    HeadReadBack(meth, limits, response, WithChunks, 0, bytes);
    var p: Parser := Headed(meth, limits, response, WithChunks, 0);
    if Bodyless(meth, response.status) {
      NothingMore(w1, calls[1..]);
      RunDone(p);
    } else {
      assert Payload(calls) == Payload(calls[1..]);
      BeginFits(limits, calls);
      ChunksReadBack(p, w1, calls[1..]);
    }
  }

  lemma BeginFits(limits: Limits, calls: seq<WriterCall>)
    requires calls != [] && calls[0].Begin? && PiecesFit(limits, 0, calls)
    ensures PiecesFit(limits, 0, calls[1..])
  {
    assert forall i :: 0 <= i < |calls| - 1 ==> calls[1..][i] == calls[i + 1];
    assert Payload(calls) == Payload(calls[1..]);
  }

  lemma {:induction false} SendCallReadBack(meth: Method, limits: Limits, w: Writer, calls: seq<WriterCall>)
    requires calls != [] && calls[0].Send? && !w.sentHead && !w.finished && w.headRequest == meth.Head?
    requires Receivable(meth, limits, calls) && Transcript(w, calls).Ok?
    ensures Received(meth, limits, calls, Run(Fresh(meth, limits), Transcript(w, calls).value.1))
  {
    hide Run, HeadText, ReceivedHead, HeadFits, TextBytes, WireFields, PiecesFit, GetAll,
      ValidFields, AllVchars, ParserState.Valid;
    var response, body := calls[0].response, calls[0].body;
    var w1 := WriterStep(w, calls[0]).value.0;
    NothingMore(w1, calls[1..]);
    FinishedPayload(w1, calls[1..]);
    var bytes := if Bodyless(meth, response.status) then "" else body;
    SendReadBack(meth, limits, response, body, bytes);
    var head := HeadText(response, SendFraming(response), |body|);
    assert Transcript(w, calls).value.1 == head + bytes;
    assert Payload(calls) == body;
  }

  /** Writer/parser round trip: any successful sequence of calls that ends the
      response reads back as exactly one message that ends at the last octet. */
  lemma {:induction false} WriterRoundTrip(meth: Method, limits: Limits, calls: seq<WriterCall>)
    requires Receivable(meth, limits, calls)
    requires var t := Transcript(Writer(meth.Head?, false, false, false), calls);
             t.Ok? && t.value.0.finished
    ensures var t := Transcript(Writer(meth.Head?, false, false, false), calls);
            Received(meth, limits, calls, Run(Fresh(meth, limits), t.value.1))
    decreases |calls|
  {
    hide Run, Received, Receivable, Fits;
    var w := Writer(meth.Head?, false, false, false);
    HeadComesFirst(meth, limits, calls);
    if calls[0].Send? {
      SendCallReadBack(meth, limits, w, calls);
    } else if calls[0].Begin? {
      BeginReadBack(meth, limits, w, calls);
    } else {
      var t := Transcript(w, calls[1..]);
      assert "" + t.value.1 == t.value.1;
      WriterRoundTrip(meth, limits, calls[1..]);
    }
  }

  /** Before the head only Finish succeeds, and it does nothing. */
  lemma {:induction false} HeadComesFirst(meth: Method, limits: Limits, calls: seq<WriterCall>)
    requires Receivable(meth, limits, calls)
    requires Transcript(Writer(meth.Head?, false, false, false), calls).Ok?
    ensures calls != [] && !calls[0].Piece?
    ensures calls[0].Finish? ==> Receivable(meth, limits, calls[1..])
    ensures calls[0].Finish? ==>
              forall o :: Received(meth, limits, calls[1..], o) ==> Received(meth, limits, calls, o)
  {
    hide Fits, ReceivedHead;
    if calls[0].Finish? {
      assert Payload(calls) == Payload(calls[1..]);
      assert forall i :: 0 <= i < |calls| - 1 ==> calls[1..][i] == calls[i + 1];
    }
  }

  /** The same, for a recipient that reads those octets in any slices and then
      meets end of stream. */
  lemma {:induction false} WriterRoundTripSliced(
      meth: Method, limits: Limits, calls: seq<WriterCall>, slices: seq<string>)
    requires Receivable(meth, limits, calls)
    requires var t := Transcript(Writer(meth.Head?, false, false, false), calls);
             t.Ok? && t.value.0.finished && Concat(slices) == t.value.1
    ensures limits.Fits64() && Received(meth, limits, calls, Sliced(meth, limits, slices))
  {
    hide Transcript, HeadOf, Payload, ReceivedHead, Exec, FeedAll;
    WriterRoundTrip(meth, limits, calls);
    var input := Concat(slices);
    SlicingIndependence(meth, limits, input, slices);
    SlicedIsExec(meth, limits, input);
  }

  // ── the writer as it runs ───────────────────────────────────────────────────

  class ResponseWriter {
    const stream: WriteStream
    const headRequest: bool
    /** Whether the stream can take several pieces in one write. */
    const scatters: bool
    var sentHead: bool
    var chunked: bool
    var finished: bool

    function State(): (w: Writer)
      reads this
    {
      Writer(headRequest, sentHead, chunked, finished)
    }

    constructor (stream: WriteStream, headRequest: bool, scatters: bool)
      ensures this.stream == stream && State() == Writer(headRequest, false, false, false)
    {
      this.stream, this.headRequest, this.scatters := stream, headRequest, scatters;
      sentHead, chunked, finished := false, false, false;
    }

    /** A call that succeeds did what the transcript says, to the last octet; a
        call the writer refuses touches nothing; only the stream can fail otherwise. */
    twostate predicate Did(call: WriterCall, new r: Result<()>)
      reads this, stream
    {
      var spec := WriterStep(old(State()), call);
      if spec.Err? then
        r == Err(spec.error) && State() == old(State()) && stream.written == old(stream.written)
      else
        && State() == spec.value.0
        && old(stream.written) <= stream.written <= old(stream.written) + spec.value.1
        && (r.Ok? ==> stream.written == old(stream.written) + spec.value.1)
        && (stream.Generous() ==> r.Ok?)
    }

    method SendResponse(response: Response, body: string) returns (r: Result<()>)
      modifies this, stream
      ensures Did(Send(response, body), r)
    {
      hide HeadText, ResponseError;
      if sentHead {
        return Err(FramingConflict);
      }
      var out := new Buffer(0);
      var failed := WriteResponseHead(out, response, SendFraming(response), |body|);
      if failed.Some? {
        return Err(failed.value);
      }
      sentHead, finished := true, true;
      assert "" + HeadText(response, SendFraming(response), |body|)
          == HeadText(response, SendFraming(response), |body|);
      if headRequest || body == "" || StatusForbidsBody(response.status) {
        r := WriteAll(stream, out.Contents());
      } else if scatters {
        TwoPieces(out.Contents(), body);
        r := WritevAll(stream, [out.Contents(), body]);
      } else {
        out.Append(body);
        r := WriteAll(stream, out.Contents());
      }
    }

    method SendHeadChunked(response: Response) returns (r: Result<()>)
      modifies this, stream
      ensures Did(Begin(response), r)
    {
      hide HeadText, ResponseError;
      if sentHead {
        return Err(FramingConflict);
      }
      var out := new Buffer(0);
      var failed := WriteResponseHead(out, response, WithChunks, 0);
      if failed.Some? {
        return Err(failed.value);
      }
      assert "" + HeadText(response, WithChunks, 0) == HeadText(response, WithChunks, 0);
      sentHead, chunked := true, !StatusForbidsBody(response.status);
      r := WriteAll(stream, out.Contents());
    }

    method Write(bytes: string) returns (r: Result<()>)
      requires |bytes| < TWO_64
      modifies this, stream
      ensures Did(Piece(bytes), r)
    {
      hide ChunkText;
      if !sentHead || finished {
        return Err(FramingConflict);
      }
      if bytes == "" || headRequest || !chunked {
        return Ok(());
      }
      var out := new Buffer(0);
      var failed := WriteChunk(out, bytes);
      assert "" + ChunkText(bytes) == ChunkText(bytes);
      r := WriteAll(stream, out.Contents());
    }

    method End() returns (r: Result<()>)
      modifies this, stream
      ensures Did(Finish, r)
    {
      if !sentHead || finished {
        return Ok(());
      }
      finished := true;
      if headRequest || !chunked {
        return Ok(());
      }
      r := WriteAll(stream, LAST_CHUNK);
    }
  }

  /** `done` has been written on the way from `w` to `now`, and `rest` is left of
      the calls. */
  ghost predicate Underway(w: Writer, calls: seq<WriterCall>, done: string, now: Writer, rest: seq<WriterCall>)
  {
    var whole, left := Transcript(w, calls), Transcript(now, rest);
    whole.Ok? == left.Ok? && (whole.Ok? ==> whole.value == (left.value.0, done + left.value.1))
  }

  lemma {:induction false} UnderwayStep(
      w: Writer, calls: seq<WriterCall>, done: string, now: Writer, rest: seq<WriterCall>)
    requires Underway(w, calls, done, now, rest) && rest != []
    ensures var step := WriterStep(now, rest[0]);
            if step.Err? then Transcript(w, calls).Err?
            else Underway(w, calls, done + step.value.1, step.value.0, rest[1..])
  {
    hide WriterStep;
    var step := WriterStep(now, rest[0]);
    if step.Ok? {
      var others := Transcript(step.value.0, rest[1..]);
      if others.Ok? {
        assert done + (step.value.1 + others.value.1) == done + step.value.1 + others.value.1;
      }
    }
  }

  /** One call, made on the writer. */
  method MakeCall(writer: ResponseWriter, call: WriterCall) returns (r: Result<()>)
    requires call.Piece? ==> |call.bytes| < TWO_64
    modifies writer, writer.stream
    ensures writer.Did(call, r)
  {
    match call
    case Send(response, body) => r := writer.SendResponse(response, body);
    case Begin(response) => r := writer.SendHeadChunked(response);
    case Piece(bytes) => r := writer.Write(bytes);
    case Finish => r := writer.End();
  }

  /** A handler's calls in order, up to the first that fails. Success means the
      transcript was written, whatever the short writes; over a stream that always
      takes something, it fails only where the transcript does. */
  method Perform(writer: ResponseWriter, calls: seq<WriterCall>) returns (ok: bool)
    requires forall i :: 0 <= i < |calls| && calls[i].Piece? ==> |calls[i].bytes| < TWO_64
    modifies writer, writer.stream
    ensures ok ==>
      && Transcript(old(writer.State()), calls).Ok?
      && writer.State() == Transcript(old(writer.State()), calls).value.0
      && writer.stream.written == old(writer.stream.written) + Transcript(old(writer.State()), calls).value.1
    ensures writer.stream.Generous() && Transcript(old(writer.State()), calls).Ok? ==> ok
  {
    hide WriterStep, Transcript;
    ghost var w, before := writer.State(), writer.stream.written;
    ghost var done := "";
    assert Underway(w, calls, done, w, calls) by { NothingDone(w, calls); }
    var i := 0;
    while i < |calls|
      invariant 0 <= i <= |calls|
      invariant writer.stream.written == before + done
      invariant Underway(w, calls, done, writer.State(), calls[i..])
    {
      UnderwayStep(w, calls, done, writer.State(), calls[i..]);
      ghost var step := WriterStep(writer.State(), calls[i]);
      var r := MakeCall(writer, calls[i]);
      if r.Err? {
        return false;
      }
      done := done + step.value.1;
      i := i + 1;
    }
    assert calls[i..] == [];
    AllDone(w, calls, done, writer.State());
    ok := true;
  }

  lemma {:induction false} NothingDone(w: Writer, calls: seq<WriterCall>)
    ensures Underway(w, calls, "", w, calls)
  {
    hide WriterStep;
    var t := Transcript(w, calls);
    assert t.Ok? ==> "" + t.value.1 == t.value.1;
  }

  lemma {:induction false} AllDone(w: Writer, calls: seq<WriterCall>, done: string, now: Writer)
    requires Underway(w, calls, done, now, [])
    ensures Transcript(w, calls) == Ok((now, done))
  {
    assert done + "" == done;
  }

  /** Writer/parser round trip of the class: if every call on a new writer succeeds
      and the last ends the response, then what reached the stream, read in any
      slices, is exactly the one message the handler described. */
  method Respond(
      stream: WriteStream, meth: Method, scatters: bool, calls: seq<WriterCall>, limits: Limits) returns (ok: bool)
    requires forall i :: 0 <= i < |calls| && calls[i].Piece? ==> |calls[i].bytes| < TWO_64
    requires limits.Fits64()
    modifies stream
    ensures ok && Receivable(meth, limits, calls) ==>
      && old(stream.written) <= stream.written
      && forall slices :: Concat(slices) == stream.written[|old(stream.written)|..] ==>
           Received(meth, limits, calls, Sliced(meth, limits, slices))
  {
    hide Transcript, WriterStep, Receivable, Received, Sliced;
    var writer := new ResponseWriter(stream, meth.Head?, scatters);
    ok := Perform(writer, calls);
    ok := ok && writer.finished;
    if ok && Receivable(meth, limits, calls) {
      ghost var text := Transcript(Writer(meth.Head?, false, false, false), calls).value.1;
      assert stream.written[|old(stream.written)|..] == text;
      forall slices | Concat(slices) == text ensures Received(meth, limits, calls, Sliced(meth, limits, slices)) {
        WriterRoundTripSliced(meth, limits, calls, slices);
      }
    }
  }

  lemma TwoPieces(a: string, b: string)
    ensures Concat([a, b]) == a + b
  {
    assert [a, b][1..] == [b];
    assert [b][1..] == [];
    assert Concat([b]) == b;
  }
}

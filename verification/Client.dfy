/** A sequential HTTP/1 client over one connection. */
module Client {
  import opened Octets
  import opened HttpMessage
  import opened Buffers
  import opened Streams
  import opened Incremental
  import opened ResponseMachine
  import opened ResponseSlicing
  import opened ResponseParsing
  import opened RequestSerializer
  import opened Server
  import opened ClientTrack

  datatype Options = Options(limits: Limits, chunk: nat, maxBuffer: nat, maxInformational: nat)

  class ClientConnection {
    const options: Options
    const reader: ReadStream
    const writer: WriteStream
    const parser: ResponseParser
    var input: Buffer
    var active: bool
    var reusable: bool
    var eof: bool
    /** The request method, the informational responses skipped, the octets received
        for the response at hand and the body handed out of them. */
    ghost var meth: Method
    ghost var interim: seq<string>
    ghost var received: string
    ghost var delivered: string
    /** A stop request, a deadline or a stream failure got in the way. */
    ghost var struck: bool

    ghost predicate InputFits()
      reads this, input
    {
      && input.Valid() && input.pending == 0
      && |input.Contents()| <= options.maxBuffer
      && (input.capacity == 0 || input.capacity == options.maxBuffer)
    }

    ghost predicate Tracking()
      reads this, input, parser
    {
      && options.limits.Fits64() && parser.limits == options.limits
      && InputFits() && input.capacity == options.maxBuffer && options.maxBuffer > 0 && options.chunk > 0
      && parser.error.None? && parser.Valid() && parser.pending <= |input.Contents()|
      && OnTrack(meth, options.limits, received, delivered, parser.State(), input.Contents()[parser.pending..])
      && Numbered(parser.State()) && Skipped()
    }

    /** Up to the permitted number of informational responses came first. */
    ghost predicate Skipped()
      reads this
      requires options.limits.Fits64()
    {
      |interim| <= options.maxInformational && forall i :: 0 <= i < |interim| ==> Interim(meth, options.limits, interim[i])
    }

    /** What the peer sends from the exchange on: what was read of it, then the rest. */
    ghost function Wire(): (w: string)
      reads this, reader
    {
      Concat(interim) + received + Concat(reader.arriving)
    }

    /** Why an exchange fails by itself: what came is no response, the response does
        not fit the buffer, or too many informational ones came first. */
    ghost predicate Fault(e: Error)
      reads this, input, parser
      requires options.limits.Fits64() && input.Valid()
    {
      || Broken(meth, options.limits, received, eof)
      || (e == LimitExceeded && |input.Contents()| >= options.maxBuffer)
      || (e == LimitExceeded && |interim| == options.maxInformational && 100 <= parser.response.status < 200)
    }

    /** An idle connection that may be used again has nothing left over. */
    ghost predicate Valid()
      reads this, input, parser
    {
      && options.limits.Fits64() && parser.limits == options.limits && InputFits()
      && (active ==> Tracking() && !HeadDue(parser.State()))
      && (reusable && !active ==> input.Contents() == "")
    }

    constructor (options: Options, reader: ReadStream, writer: WriteStream)
      requires options.limits.Fits64()
      ensures Valid() && reusable && !active && fresh(input) && fresh(parser)
      ensures this.options == options && this.reader == reader && this.writer == writer
    {
      this.options, this.reader, this.writer := options, reader, writer;
      parser := new ResponseParser(Get, options.limits);
      input := new Buffer(0);
      active, reusable, eof := false, true, false;
      meth, interim, received, delivered, struck := Get, [], "", "", false;
    }

    /** The caller's stop request or deadline, whenever it strikes. */
    method BudgetError() returns (e: Option<Error>)
      modifies this`struck
      ensures struck == (old(struck) || e.Some?)
      ensures e.Some? ==> e.value == Cancelled || e.value == TimedOut
    {
      var late: bool, stopped: bool := *, *;
      e := if stopped then Some(Cancelled) else if late then Some(TimedOut) else None;
      struck := struck || e.Some?;
    }

    /** Read once into what the buffer has room for. */
    method Receive() returns (r: Result<string>)
      requires InputFits() && input.capacity == options.maxBuffer && options.chunk > 0
      requires |input.Contents()| < options.maxBuffer
      modifies this`struck, input, reader
      ensures InputFits() && input.capacity == options.maxBuffer
      ensures var more := if r.Ok? then r.value else "";
        && input.Contents() == old(input.Contents()) + more
        && Concat(old(reader.arriving)) == more + Concat(reader.arriving)
      ensures r == Err(Eof) ==> reader.arriving == []
      ensures struck == (old(struck) || (r.Err? && r.error != Eof))
    {
      hide Concat;
      var room := options.maxBuffer - |input.Contents()|;
      var count := if options.chunk < room then options.chunk else room;
      ghost var before := input.Contents();
      input.Prepare(count);
      var broken: bool := *;
      if broken {
        input.Commit(0);
        assert before + "" == before && "" + Concat(reader.arriving) == Concat(reader.arriving);
        struck := true;
        return Err(TimedOut);
      }
      r := reader.ReadSome(count);
      if r.Err? {
        input.Commit(0);
        assert before + "" == before && "" + Concat(reader.arriving) == Concat(reader.arriving);
        return;
      }
      input.Fill(r.value);
      input.Commit(|r.value|);
      ConcatTaken(old(reader.arriving), reader.arriving, r.value, count);
    }

    /** Read once for the response at hand. */
    method ReadMore() returns (failed: Option<Error>)
      requires Tracking() && !eof && |input.Contents()| < options.maxBuffer && parser.pending == 0
      requires Run(parser.State(), input.Contents()) == Progress(parser.State(), input.Contents(), "", Hungry)
      modifies this`eof, this`received, this`struck, input, reader
      ensures Tracking() && input.capacity == old(input.capacity)
      ensures failed.None? && !eof ==> |Concat(reader.arriving)| < |Concat(old(reader.arriving))|
      ensures Wire() == old(Wire())
      ensures struck == (old(struck) || failed.Some?)
    {
      hide OnTrack, ParserState.Valid, Run, Concat, Interim;
      ghost var before := input.Contents();
      assert before[0..] == before && before + "" == before;
      var read := Receive();
      assert input.Contents()[0..] == input.Contents();
      failed := None;
      if read.Err? {
        eof := read.error == Eof;
        return if eof then None else Some(read.error);
      }
      TrackMore(meth, options.limits, received, delivered, parser.State(), before, read.value);
      MovedOver(Concat(interim), received, read.value, Concat(reader.arriving));
      received := received + read.value;
      eof := read.value == "";
    }

    /** Drive the parser to the next thing it reports, reading as needed. */
    method Next() returns (r: Result<ParseStep>)
      requires Tracking()
      modifies this`eof, this`received, this`delivered, this`struck, input, parser, reader
      ensures options.limits.Fits64() && parser.limits == options.limits && InputFits() && input.capacity == old(input.capacity)
      ensures Wire() == old(Wire()) && (old(struck) ==> struck)
      ensures r.Err? && !struck ==> Fault(r.error)
      ensures r.Ok? ==> (r == Ok(HeadReady) <==> old(HeadDue(parser.State()))) && !HeadDue(parser.State())
      ensures r == Ok(HeadReady) && parser.response.status < 200 ==> parser.pending == 0 && parser.State().phase.Done?
      ensures r != Ok(NeedMore)
      ensures r == Ok(BodyReady) ==> Tracking() && delivered == old(delivered) + parser.body && parser.body != ""
      ensures r == Ok(HeadReady) ==> Tracking() && delivered == old(delivered)
      ensures r == Ok(Complete) ==>
        && delivered == old(delivered) && parser.error.None? && parser.Valid() && parser.pending == 0
        && ReadWhole(meth, options.limits, received, eof, parser.State(), input.Contents(), delivered)
    {
      hide OnTrack, ReadWhole, ParserState.Valid, Run, ParseCall;
      while true
        invariant Tracking() && input.capacity == old(input.capacity) && delivered == old(delivered)
        invariant Wire() == old(Wire()) && (old(struck) ==> struck)
        invariant HeadDue(parser.State()) == old(HeadDue(parser.State()))
        decreases if eof then 0 else 1 + |Concat(reader.arriving)|
      {
        var late := BudgetError();
        if late.Some? {
          return Err(late.value);
        }
        ghost var p, unread := parser.State(), input.Contents()[parser.pending..];
        r := ParseTracked();
        if r != Ok(NeedMore) {
          return;
        }
        if |input.Contents()| >= options.maxBuffer {
          return Err(LimitExceeded);
        }
        var failed := ReadMore();
        if failed.Some? {
          return Err(failed.value);
        }
      }
    }

    /** One parse call, kept in step with the octets received. */
    method ParseTracked() returns (r: Result<ParseStep>)
      requires Tracking()
      modifies this`delivered, input, parser
      ensures parser.limits == options.limits && InputFits() && input.capacity == old(input.capacity)
      ensures r.Err? ==> Broken(meth, options.limits, received, eof)
      ensures r.Ok? && r != Ok(NeedMore) ==> (r == Ok(HeadReady) <==> old(HeadDue(parser.State()))) && !HeadDue(parser.State())
      ensures r == Ok(HeadReady) && parser.response.status < 200 ==> parser.pending == 0 && parser.State().phase.Done?
      ensures r == Ok(NeedMore) ==>
        && HeadDue(parser.State()) == old(HeadDue(parser.State()))
        && Tracking() && !eof && parser.pending == 0 && delivered == old(delivered)
        && Run(parser.State(), input.Contents()) == Progress(parser.State(), input.Contents(), "", Hungry)
      ensures r == Ok(HeadReady) ==> Tracking() && delivered == old(delivered)
      ensures r == Ok(BodyReady) ==> Tracking() && delivered == old(delivered) + parser.body && parser.body != ""
      ensures r == Ok(Complete) ==>
        && delivered == old(delivered) && parser.error.None? && parser.Valid() && parser.pending == 0
        && ReadWhole(meth, options.limits, received, eof, parser.State(), input.Contents(), delivered)
    {
      hide OnTrack, ReadWhole, ParserState.Valid, Run, ParseCall;
      ghost var p, unread := parser.State(), input.Contents()[parser.pending..];
      TrackCall(meth, options.limits, received, delivered, p, unread);
      CompleteIsDone(p, unread);
      HeadFirst(p, unread);
      EofCall(p, unread);
      r := parser.Parse(input, eof);
      if r.Err? {
        TrackFails(meth, options.limits, received, delivered, p, unread, eof);
      } else if r == Ok(Complete) {
        TrackEnds(meth, options.limits, received, delivered, p, unread, eof);
      } else if r.Ok? {
        assert delivered + "" == delivered;
        delivered := delivered + parser.body;
        assert parser.pending == 0 ==> input.Contents()[parser.pending..] == input.Contents();
      }
    }

    // ── the exchange ──────────────────────────────────────────────────────────

    /** The exchange is over and the connection with it. */
    method Invalidate()
      requires options.limits.Fits64() && parser.limits == options.limits && InputFits()
      modifies this`reusable, this`active
      ensures Valid() && !reusable && !active
    {
      reusable, active := false, false;
    }

    method Send(body: string, head: Buffer) returns (r: Result<()>)
      requires head.Valid() && head.pending == 0
      modifies writer, this`struck
      ensures r.Ok? ==> writer.written == old(writer.written) + head.Contents() + body
      ensures struck == (old(struck) || r.Err?)
    {
      r := WriteAll(writer, head.Contents());
      if r.Ok? {
        r := WriteAll(writer, body);
      }
      struck := struck || r.Err?;
    }

    /** Read heads until one is final; informational ones are dropped. */
    method ReadFinalHead(sent: Method) returns (r: Result<()>)
      requires Tracking() && sent == meth && HeadDue(parser.State()) && interim == [] && delivered == ""
      modifies this`eof, this`interim, this`received, this`delivered, this`struck, input, parser, reader
      ensures options.limits.Fits64() && parser.limits == options.limits && InputFits() && input.capacity == old(input.capacity)
      ensures r.Ok? ==> Tracking() && !HeadDue(parser.State()) && parser.response.status >= 200 && delivered == ""
      ensures Wire() == old(Wire()) && (old(struck) ==> struck)
      ensures r.Err? && !struck ==> Fault(r.error)
    {
      hide OnTrack, ReadWhole, ParserState.Valid, Run, ParseCall, Interim, Concat;
      var informational := 0;
      while true
        invariant Tracking() && input.capacity == old(input.capacity) && HeadDue(parser.State()) && delivered == ""
        invariant Wire() == old(Wire()) && (old(struck) ==> struck)
        invariant informational == |interim|
        decreases options.maxInformational - informational
      {
        var step := Next();
        if step.Err? {
          return Err(step.error);
        }
        assert step.value == HeadReady;
        if parser.response.status >= 200 {
          return Ok(());
        }
        informational := informational + 1;
        if informational > options.maxInformational {
          return Err(LimitExceeded);
        }
        Skip(sent);
      }
    }

    /** Go past an informational response to the one behind it. */
    method Skip(sent: Method)
      requires Tracking() && sent == meth && delivered == "" && |interim| < options.maxInformational
      requires parser.pending == 0 && parser.State().phase.Done? && parser.response.status < 200
      modifies this`interim, this`received, input, parser
      ensures Tracking() && HeadDue(parser.State()) && input.capacity == old(input.capacity)
      ensures |interim| == old(|interim|) + 1 && Wire() == old(Wire())
    {
      hide OnTrack, ParserState.Valid, Run, ParseCall, Interim, Concat;
      ghost var p, unread := parser.State(), input.Contents();
      assert input.Contents()[parser.pending..] == unread;
      ghost var text := InterimRead(meth, options.limits, received, p, unread);
      DoneCall(p, unread, eof);
      var complete := parser.Parse(input, eof);
      assert complete == Ok(Complete);
      parser.Reset(sent);
      ConcatAppend(interim, [text]);
      ConcatOne(text);
      assert Concat(interim) + (text + unread) == Concat(interim) + text + unread;
      interim, received := interim + [text], unread;
      TrackBegins(meth, options.limits, unread);
      assert input.Contents()[0..] == input.Contents();
    }

    method Serialize(request: Request, bodySize: nat) returns (refused: Option<Error>, head: Buffer)
      ensures refused == RequestError(request, bodySize, options.limits)
      ensures fresh(head) && head.Valid() && head.pending == 0
      ensures refused.None? ==> head.Contents() == RequestText(request, bodySize)
    {
      hide RequestError, RequestText;
      head := new Buffer(0);
      refused := WriteRequestHead(head, request, bodySize, options.limits);
      assert refused.None? ==> "" + RequestText(request, bodySize) == RequestText(request, bodySize);
    }

    /** Nothing is under way and the connection may be used. */
    predicate Idle()
      reads this
    {
      !active && reusable && options.chunk > 0 && options.maxBuffer > 0
    }

    /** Send a request and read the head of its response. */
    method Start(request: Request, body: string) returns (r: Result<()>)
      requires Valid()
      modifies this, input, parser, reader, writer
      ensures Valid() && (input == old(input) || fresh(input))
      ensures input.capacity == old(input.capacity) || (old(input.capacity) == 0 && input.capacity == options.maxBuffer)
      ensures !old(Idle()) ==> r == Err(InvalidArgument) && active == old(active) && reusable == old(reusable)
      ensures !old(Idle()) || RequestError(request, |body|, options.limits).Some? ==>
        writer.written == old(writer.written) && reader.arriving == old(reader.arriving)
      ensures old(Idle()) && RequestError(request, |body|, options.limits).Some? && !struck ==>
        r == Err(RequestError(request, |body|, options.limits).value) && old(Idle()) == Idle()
      ensures old(Idle()) && RequestError(request, |body|, options.limits).None? && r.Err? ==>
        !active && !reusable && (struck || Fault(r.error))
      ensures r.Ok? ==> active && parser.response.status >= 200 && RequestError(request, |body|, options.limits).None?
      ensures r.Ok? ==> writer.written == old(writer.written) + RequestText(request, |body|) + body
      ensures r.Ok? ==> meth == request.meth && delivered == "" && Wire() == Concat(old(reader.arriving))
      ensures r.Ok? ==> (reusable <==> !ClosesAfter(request) && Persists())
    {
      hide OnTrack, ReadWhole, ParserState.Valid, Run, RequestError, RequestText, ClosesAfter, Persists,
        Tracking, Concat;
      if active || !reusable {
        return Err(InvalidArgument);
      }
      if options.chunk == 0 || options.maxBuffer == 0 {
        return Err(InvalidArgument);
      }
      struck := false;
      var late := BudgetError();
      if late.Some? {
        Invalidate();
        return Err(late.value);
      }
      var refused, head := Serialize(request, |body|);
      if refused.Some? {
        return Err(refused.value);
      }
      r := Exchange(request, body, head);
      if r.Err? {
        Invalidate();
      }
    }

    /** The input buffer, allocated once for good. */
    method Reserve()
      requires InputFits() && input.Contents() == ""
      modifies this`input
      ensures InputFits() && input.capacity == options.maxBuffer && input.Contents() == ""
      ensures input == old(input) || (old(input.capacity) == 0 && fresh(input))
    {
      if input.capacity == 0 {
        input := new Buffer(options.maxBuffer);
      }
    }

    /** Set out on an exchange: nothing has been received for it yet. */
    method Begin(request: Request)
      requires Valid() && Idle()
      modifies this`input, this`active, this`reusable, this`eof, parser
      modifies this`meth, this`interim, this`received, this`delivered
      ensures Tracking() && HeadDue(parser.State()) && active
      ensures meth == request.meth && interim == [] && received == "" && delivered == ""
      ensures reusable <==> !ClosesAfter(request)
      ensures input == old(input) || (old(input.capacity) == 0 && fresh(input))
    {
      hide OnTrack, ParserState.Valid, Run, ShouldKeepAlive, ClosesAfter, Concat, Interim, Broken;
      Reserve();
      active, eof := true, false;
      reusable := DecideKeepAlive(request);
      KeepAliveMeans(request);
      parser.Reset(request.meth);
      meth, interim, received, delivered := request.meth, [], "", "";
      TrackBegins(meth, options.limits, "");
      assert input.Contents()[0..] == "";
    }

    /** Whether the response lets the connection be used again. */
    method KeepsOpen(response: Response) returns (keep: bool)
      ensures keep <==>
        && !response.bodyKind.CloseDelimited? && !Asks(response.headers, "close")
        && (response.version.Http10? ==> Asks(response.headers, "keep-alive"))
    {
      hide Mentions, MentionsRaw, Asks;
      var close := LookFor(response.headers, "close");
      var persist := LookFor(response.headers, "keep-alive");
      MentionsAgree(response.headers, "close");
      MentionsAgree(response.headers, "keep-alive");
      MentionsMeans(response.headers, "close");
      MentionsMeans(response.headers, "keep-alive");
      keep := !response.bodyKind.CloseDelimited? && !close && (response.version.Http10? ==> persist);
    }

    /** The response at hand lets the connection be used again. */
    ghost predicate Persists()
      reads this, parser
    {
      var response := parser.response;
      && !response.bodyKind.CloseDelimited? && !Asks(response.headers, "close")
      && (response.version.Http10? ==> Asks(response.headers, "keep-alive"))
    }

    method ReadHead(sent: Method) returns (r: Result<()>)
      requires Tracking() && active && sent == meth && HeadDue(parser.State()) && interim == [] && delivered == ""
      modifies this`eof, this`interim, this`received, this`delivered, this`struck, this`reusable, input, parser, reader
      ensures options.limits.Fits64() && parser.limits == options.limits && InputFits() && input.capacity == old(input.capacity)
      ensures r.Ok? ==> Tracking() && !HeadDue(parser.State()) && parser.response.status >= 200 && delivered == ""
      ensures Wire() == old(Wire()) && (old(struck) ==> struck)
      ensures r.Err? && !struck ==> Fault(r.error)
      ensures r.Ok? ==> (reusable <==> old(reusable) && Persists())
    {
      hide OnTrack, ReadWhole, ParserState.Valid, Run, Asks, Concat, Interim, Broken;
      r := ReadFinalHead(sent);
      if r.Ok? {
        var keep := KeepsOpen(parser.response);
        if !keep {
          reusable := false;
        }
      }
    }

    method Exchange(request: Request, body: string, head: Buffer) returns (r: Result<()>)
      requires Valid() && Idle() && !struck
      requires head.Valid() && head.pending == 0 && head != input
      modifies this, input, parser, reader, writer
      ensures options.limits.Fits64() && parser.limits == options.limits && InputFits()
      ensures input == old(input) || fresh(input)
      ensures input.capacity == old(input.capacity) || (old(input.capacity) == 0 && input.capacity == options.maxBuffer)
      ensures r.Ok? ==> Valid() && active && parser.response.status >= 200
      ensures r.Ok? ==> writer.written == old(writer.written) + old(head.Contents()) + body
      ensures r.Ok? ==> meth == request.meth && delivered == "" && Wire() == Concat(old(reader.arriving))
      ensures r.Ok? ==> (reusable <==> !ClosesAfter(request) && Persists())
      ensures r.Err? && !struck ==> Fault(r.error)
    {
      hide OnTrack, ReadWhole, ParserState.Valid, Run, ClosesAfter, Persists, Concat, Interim, Broken;
      Begin(request);
      assert Wire() == Concat(reader.arriving) by { NothingYet(Concat(reader.arriving)); }
      r := Send(body, head);
      if r.Ok? {
        r := ReadHead(request.meth);
      }
    }

    /** Hand out the next stretch of body; nothing means the response is complete. */
    method ReadBody() returns (r: Result<string>)
      requires Valid()
      modifies this, input, parser, reader
      ensures Valid() && input == old(input) && input.capacity == old(input.capacity)
      ensures !old(active) ==> r == Err(InvalidArgument) && !active && reusable == old(reusable)
      ensures old(active) && r.Err? ==> !active && !reusable && (struck || Fault(r.error))
      ensures old(active) && r.Ok? ==> (reusable <==> old(reusable) && (active || input.Contents() == ""))
      ensures old(active) ==> Wire() == old(Wire()) && meth == old(meth)
      ensures old(active) && r.Ok? && active ==> delivered == old(delivered) + r.value
      ensures r.Ok? ==> (r.value == "" <==> !active)
      ensures old(active) && r.Ok? && !active ==>
        && r.value == "" && delivered == old(delivered) && parser.Valid()
        && ReadWhole(meth, options.limits, received, eof, parser.State(), input.Contents(), delivered)
    {
      hide OnTrack, ReadWhole, ParserState.Valid, Run, Concat, Interim, Broken;
      struck := false;
      if !active {
        return Err(InvalidArgument);
      }
      var step := Next();
      if step.Err? {
        Invalidate();
        return Err(step.error);
      }
      if step.value == BodyReady {
        return Ok(parser.body);
      }
      assert step.value == Complete;
      active := false;
      if input.Contents() != "" {
        reusable := false;
      }
      r := Ok("");
    }
  }

  // ── any sequence of calls ───────────────────────────────────────────────────

  datatype ClientCall = StartCall(request: Request, body: string) | ReadCall

  /** What a caller can see between calls. */
  datatype Glance = Glance(reusable: bool, active: bool, leftOver: bool, capacity: nat)

  /** Over every sequence of calls: once the connection is not reusable it stays
      so; an idle reusable one has nothing left over in its buffer; and the buffer
      keeps its first allocation. */
  method Drive(client: ClientConnection, calls: seq<ClientCall>) returns (log: seq<Glance>)
    requires client.Valid() && client.input.capacity == 0
    modifies client, client.input, client.parser, client.reader, client.writer
    ensures client.Valid() && |log| == |calls|
    ensures forall i, j :: 0 <= i < j < |log| && !log[i].reusable ==> !log[j].reusable
    ensures forall i :: 0 <= i < |log| && log[i].reusable && !log[i].active ==> !log[i].leftOver
    ensures forall i :: 0 <= i < |log| ==> log[i].capacity == 0 || log[i].capacity == client.options.maxBuffer
  {
    hide OnTrack, ReadWhole, RequestError, RequestText, ShouldKeepAlive, ParserState.Valid;
    log := [];
    for i := 0 to |calls|
      invariant client.Valid() && |log| == i
      invariant client.input == old(client.input) || fresh(client.input)
      invariant forall j, k :: 0 <= j < k < i && !log[j].reusable ==> !log[k].reusable
      invariant forall j :: 0 <= j < i && !log[j].reusable ==> !client.reusable
      invariant forall j :: 0 <= j < i && log[j].reusable && !log[j].active ==> !log[j].leftOver
      invariant forall j :: 0 <= j < i ==> log[j].capacity == 0 || log[j].capacity == client.options.maxBuffer
    {
      match calls[i] {
        case StartCall(request, body) =>
          var _ := client.Start(request, body);
        case ReadCall =>
          var _ := client.ReadBody();
      }
      log := log + [Glance(client.reusable, client.active, client.input.Contents() != "", client.input.capacity)];
    }
  }

  /** One read takes what it returns off the front of what arrives. */
  lemma {:induction false} ConcatTaken(before: seq<string>, after: seq<string>, taken: string, count: nat)
    requires before != []
    requires after == if |before[0]| <= count then before[1..] else [before[0][count..]] + before[1..]
    requires taken == if |before[0]| <= count then before[0] else before[0][..count]
    ensures Concat(before) == taken + Concat(after)
  {
    if |before[0]| > count {
      assert after[1..] == before[1..];
      assert before[0] == taken + before[0][count..];
    }
  }

  /** Octets go from what arrives to what was received. */
  lemma MovedOver(before: string, received: string, more: string, arriving: string)
    ensures before + received + (more + arriving) == before + (received + more) + arriving
  {
  }

  lemma NothingYet(arriving: string)
    ensures Concat([]) + "" + arriving == arriving
  {
  }
}

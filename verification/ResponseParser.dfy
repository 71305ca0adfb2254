/** The incremental response parser as it runs: fields changed step by step. */
module ResponseParsing {
  import opened Octets
  import opened HttpMessage
  import opened Lines
  import opened Buffers
  import opened Incremental
  import opened ResponseMachine
  import opened ResponseSlicing

  /** A caller hears of the end of the headers and of the end of the trailers. */
  function Report(from: Parser, to: Parser): (r: Option<ParseStep>)
  {
    if from.phase.InHeaders? && !to.phase.InHeaders? then Some(HeadReady)
    else if from.phase.Trailers? && to.phase.Done? then Some(Complete)
    else None
  }

  /** End of stream turns a call that starved into a verdict. */
  function Closed(c: Call<Parser>): (r: Call<Parser>)
  {
    if c.answer != Ok(NeedMore) then c
    else if c.state.phase.EofBody? then c.(state := c.state.(phase := Done), answer := Ok(Complete))
    else c.(answer := Err(Eof))
  }

  ghost function ParseCall(p: Parser, input: string, eof: bool): (c: Call<Parser>)
  {
    StepStable();
    var c := CallOf(Step, Report, p, input);
    if eof then Closed(c) else c
  }

  /** A call is its first step and, when that goes unreported, the rest. */
  lemma CallUnfolds(p: Parser, input: string, eof: bool)
    ensures var c := ParseCall(p, input, eof);
            match Step(p, input)
            case Starved =>
              if !eof then c == Call(p, input, 0, "", Ok(NeedMore))
              else if p.phase.EofBody? then c == Call(p.(phase := Done), input, 0, "", Ok(Complete))
              else c.answer == Err(Eof)
            case Finished => c == Call(p, input, 0, "", Ok(Complete))
            case Failed(e) => c.answer == Err(e)
            case Moved(next, n, body) =>
              if body != "" then c == Call(next, input, n, body, Ok(BodyReady))
              else if Report(p, next).Some? then
                c == Call(next, input[n..], 0, "", Ok(Report(p, next).value))
              else c == ParseCall(next, input[n..], eof)
  {
    StepStable();
  }

  lemma PendingFits(p: Parser, input: string, eof: bool)
    ensures var c := ParseCall(p, input, eof);
            c.answer.Ok? ==> c.pending <= |c.buffer|
  {
    StepStable();
    CallFollowsRun(Step, Report, p, input);
  }

  /** Parsing takes octets out of the buffer and leaves its allocation alone. */
  twostate predicate OnlyShrinks(input: Buffer)
    reads input
    requires input.Valid() && old(input.Valid())
  {
    |input.Contents()| <= old(|input.Contents()|) && input.capacity == old(input.capacity)
  }

  class ResponseParser {
    const limits: Limits
    var meth: Method
    var phase: Phase
    var response: Response
    var trailers: Headers
    var body: string
    var seen: nat
    var remaining: nat
    var pending: nat
    var headerBytes: nat
    var error: Option<Error>

    ghost predicate Valid()
      reads this
    {
      State().Valid()
    }

    function State(): (p: ParserState)
      reads this
    {
      ParserState(limits, meth, phase, response, trailers, seen, remaining, headerBytes)
    }

    constructor (meth: Method, limits: Limits)
      requires limits.Fits64()
      ensures Valid() && State() == Fresh(meth, limits)
      ensures error.None? && pending == 0
    {
      this.limits, this.meth := limits, meth;
      phase, response, trailers, body := Start, EMPTY_RESPONSE, [], "";
      seen, remaining, pending, headerBytes, error := 0, 0, 0, 0, None;
    }

    /** Record one header or trailer line. */
    method AddField(text: string) returns (r: Option<Error>)
      requires Valid() && text != "" && ReadsLines(phase)
      modifies this`headerBytes, this`trailers, this`response
      ensures match FieldLine(old(State()), text)
              case Err(e) => r == Some(e) && State() == old(State())
              case Ok(next) => r == None && State() == next
    {
      var parsed := FieldOf(text, phase.Trailers?);
      if parsed.Err? {
        return Some(parsed.error);
      }
      if |response.headers| + |trailers| >= limits.maxHeaderCount
         || |text| > Sub64(limits.maxHeadersTotal, headerBytes) {
        return Some(LimitExceeded);
      }
      headerBytes := Add64(headerBytes, |text|);
      if phase.Trailers? {
        trailers := trailers + [parsed.value];
      } else {
        response := response.(headers := response.headers + [parsed.value]);
      }
      r := None;
    }

    /** Decide, from the complete head, how the body is delimited. */
    method DecideFraming() returns (r: Option<Error>)
      requires Valid() && phase.InHeaders?
      modifies this`response, this`phase, this`remaining
      ensures match EndOfHeaders(old(State()))
              case Err(e) => r == Some(e)
              case Ok(next) => r == None && State() == next
    {
      var framing := FramingOf(response.headers, response.version, response.status, meth);
      if framing.Err? {
        return Some(framing.error);
      }
      var length := framing.value.length;
      if length.Some? {
        response := response.(contentLength := length.value);
      }
      if meth.Head? || StatusForbidsBody(response.status) {
        response := response.(bodyKind := NoBody);
        phase := Done;
      } else if framing.value.chunked {
        response := response.(bodyKind := Chunked);
        phase := ChunkSize;
      } else if length.Some? {
        if length.value > limits.maxBodySize {
          return Some(LimitExceeded);
        }
        response := response.(bodyKind := Length);
        remaining := length.value;
        phase := if remaining != 0 then InLength else Done;
      } else {
        response := response.(bodyKind := CloseDelimited);
        phase := EofBody;
      }
      r := None;
    }

    /** Lend the first `count` octets to the caller and account for them. */
    method TakeSlice(input: Buffer, count: nat)
      requires Valid() && input.Valid() && input.pending == 0
      requires !ReadsLines(phase) && !phase.Done?
      requires count <= |input.Contents()|
      modifies this`body, this`pending, this`seen, this`remaining, this`phase
      ensures State() == TakeBody(old(State()), count)
      ensures pending == count && body == input.Contents()[..count]
    {
      body := input.Contents()[..count];
      pending := count;
      seen := Add64(seen, count);
      if !phase.EofBody? {
        remaining := Sub64(remaining, count);
        if remaining == 0 {
          phase := if phase.InLength? then Done else ChunkEnd;
        }
      }
    }

    /** Hand out the next stretch of body, left in the buffer until the next call. */
    method EmitBody(input: Buffer, eof: bool) returns (r: Result<ParseStep>)
      requires Valid() && input.Valid() && input.pending == 0 && pending == 0 && body == ""
      requires !ReadsLines(phase) && !phase.Done?
      modifies this`body, this`pending, this`seen, this`remaining, this`phase
      ensures match BodyStep(old(State()), input.Contents())
              case Starved =>
                && pending == 0 && body == ""
                && (if !eof then r == Ok(NeedMore) && State() == old(State())
                    else if old(phase).EofBody? then
                      r == Ok(Complete) && State() == old(State()).(phase := Done)
                    else r == Err(Eof))
              case Finished => false
              case Failed(e) => r == Err(e)
              case Moved(next, n, slice) =>
                slice != "" && r == Ok(BodyReady) && State() == next && pending == n && body == slice
    {
      if input.Size() == 0 {
        if eof && phase.EofBody? {
          phase := Done;
          return Ok(Complete);
        }
        return if eof then Err(Eof) else Ok(NeedMore);
      }
      var count := if phase.EofBody? || remaining > input.Size() then input.Size() else remaining;
      if count > Sub64(limits.maxBodySize, seen) {
        return Err(LimitExceeded);
      }
      TakeSlice(input, count);
      r := Ok(BodyReady);
    }

    /** Work off the text of one line. */
    method UseLine(text: string) returns (failed: Option<Error>)
      requires Valid() && ReadsLines(phase)
      modifies this`phase, this`response, this`trailers, this`remaining, this`headerBytes
      ensures match HandleLine(old(State()), text)
              case Err(e) => failed == Some(e)
              case Ok(next) => failed == None && State() == next
    {
      failed := None;
      if phase.Start? {
        var head := StatusLine(State(), text);
        if head.Err? {
          return Some(head.error);
        }
        response := head.value.response;
        phase := InHeaders;
      } else if phase.InHeaders? && text == "" {
        failed := DecideFraming();
      } else if phase.Trailers? && text == "" {
        phase := Done;
      } else if phase.InHeaders? || phase.Trailers? {
        failed := AddField(text);
      } else if phase.ChunkSize? {
        var size := ChunkSizeLine(State(), text);
        if size.Err? {
          return Some(size.error);
        }
        remaining := size.value.remaining;
        phase := if remaining != 0 then ChunkData else Trailers;
      } else {
        phase := ChunkSize;
      }
    }

    /** Work off one line, if there is one. */
    method ReadLine(input: Buffer) returns (r: LineResult)
      requires Valid() && input.Valid() && input.pending == 0 && ReadsLines(phase)
      modifies this`phase, this`response, this`trailers, this`remaining, this`headerBytes
      modifies input
      ensures input.Valid() && input.pending == 0 && OnlyShrinks(input)
      ensures match LineStep(old(State()), old(input.Contents()))
              case Starved =>
                r.NoLine? && State() == old(State()) && input.Contents() == old(input.Contents())
              case Finished => false
              case Failed(e) => r == BadLine(e)
              case Moved(next, n, slice) =>
                slice == "" && r.Line? && State() == next && input.Contents() == old(input.Contents())[n..]
    {
      r := FindLine(input.Contents(), Cap(State()), limits.allowBareLf);
      if r.Line? {
        var failed := UseLine(r.text);
        if failed.Some? {
          return BadLine(failed.value);
        }
        input.Consume(r.consumed);
      }
    }

    method Advance(input: Buffer, eof: bool) returns (r: Result<ParseStep>)
      requires Valid() && input.Valid() && input.pending == 0 && pending == 0 && body == ""
      modifies this, input
      ensures input.Valid() && input.pending == 0 && error == old(error) && OnlyShrinks(input)
      ensures r.Ok? ==> Valid()
      ensures var c := ParseCall(old(State()), old(input.Contents()), eof);
              r == c.answer && (r.Ok? ==> State() == c.state && input.Contents() == c.buffer
                                          && pending == c.pending && body == c.body)
    {
      hide ParseCall, LineStep, BodyStep, ParserState.Valid;
      while true
        invariant Valid() && input.Valid() && input.pending == 0 && error == old(error) && OnlyShrinks(input)
        invariant pending == 0 && body == ""
        invariant ParseCall(State(), input.Contents(), eof)
                  == ParseCall(old(State()), old(input.Contents()), eof)
        decreases |input.Contents()|
      {
        CallUnfolds(State(), input.Contents(), eof);
        if phase.Done? {
          return Ok(Complete);
        }
        if !ReadsLines(phase) {
          r := EmitBody(input, eof);
          return;
        }
        var p := State();
        var line := ReadLine(input);
        match line {
          case BadLine(e) =>
            return Err(e);
          case NoLine =>
            return if eof then Err(Eof) else Ok(NeedMore);
          case Line(_, _) =>
            var report := Report(p, State());
            if report.Some? {
              return Ok(report.value);
            }
        }
      }
    }

    /** Drop what the previous call handed out, then advance. A failure sticks. */
    method Parse(input: Buffer, eof: bool) returns (r: Result<ParseStep>)
      requires error.None? ==> Valid()
      requires input.Valid() && input.pending == 0 && pending <= |input.Contents()|
      modifies this, input
      ensures input.Valid() && input.pending == 0 && OnlyShrinks(input)
      ensures error.None? ==> Valid() && pending <= |input.Contents()|
      ensures if old(error).Some? then r == Err(old(error).value) && error == old(error)
              else
                var c := ParseCall(old(State()), old(input.Contents()[pending..]), eof);
                && r == c.answer
                && error == (if r.Err? then Some(r.error) else None)
                && (r.Ok? ==> State() == c.state && input.Contents() == c.buffer
                              && pending == c.pending && body == c.body)
    {
      if error.Some? {
        return Err(error.value);
      }
      if pending != 0 {
        input.Consume(pending);
        pending := 0;
      }
      body := "";
      r := Advance(input, eof);
      if r.Err? {
        error := Some(r.error);
      } else {
        PendingFits(old(State()), old(input.Contents()[pending..]), eof);
      }
    }

    /** Ready for the next message on the same connection. */
    method Reset(meth: Method)
      requires limits.Fits64()
      modifies this
      ensures Valid() && State() == Fresh(meth, limits)
      ensures error.None? && pending == 0
    {
      this.meth := meth;
      phase, response, trailers, body := Start, EMPTY_RESPONSE, [], "";
      seen, remaining, pending, headerBytes, error := 0, 0, 0, 0, None;
    }
  }
}

/** The incremental request parser as it runs: fields changed step by step. */
module RequestParsing {
  import opened Octets
  import opened Grammar
  import opened HttpMessage
  import opened Lines
  import opened Buffers
  import opened Incremental
  import opened RequestMachine
  import opened RequestSlicing

  /** A caller hears of the end of the headers and of the end of the trailers. */
  function Report(from: Parser, to: Parser): (r: Option<ParseStep>)
  {
    if from.phase.InHeaders? && !to.phase.InHeaders? then Some(HeadReady)
    else if from.phase.Trailers? && to.phase.Done? then Some(Complete)
    else None
  }

  ghost function ParseCall(p: Parser, input: string): (c: Call<Parser>)
  {
    StepBehaves();
    CallOf(Step, Report, p, input)
  }

  /** A call is its first step and, when that goes unreported, the rest. */
  lemma CallUnfolds(p: Parser, input: string)
    ensures var c := ParseCall(p, input);
            match Step(p, input)
            case Starved => c == Call(p, input, 0, "", Ok(NeedMore))
            case Finished => c == Call(p, input, 0, "", Ok(Complete))
            case Failed(e) => c.answer == Err(e)
            case Moved(next, n, body) =>
              if body != "" then c == Call(next, input, n, body, Ok(BodyReady))
              else if Report(p, next).Some? then
                c == Call(next, input[n..], 0, "", Ok(Report(p, next).value))
              else c == ParseCall(next, input[n..])
  {
    StepBehaves();
  }

  /** A driver that keeps calling computes the run: what a call reports, and what
      it leaves, is where the run goes on. */
  lemma CallIsRun(p: Parser, input: string)
    ensures var c := ParseCall(p, input);
            match c.answer
            case Err(e) => Run(p, input).status == Rejected(e)
            case Ok(_) =>
              && c.pending <= |c.buffer| <= |input|
              && Run(p, input) == Prepend(c.body, Run(c.state, c.buffer[c.pending..]))
  {
    StepBehaves();
    CallFollowsRun(Step, Report, p, input);
  }

  lemma NeedMoreMeansHungry(p: Parser, input: string)
    requires ParseCall(p, input).answer == Ok(NeedMore)
    ensures var c := ParseCall(p, input);
            Run(p, input) == Progress(c.state, c.buffer, "", Hungry)
  {
    StepBehaves();
    NeedMoreIsHungry(Step, Report, p, input);
  }

  // ── framing, as the loops compute it ────────────────────────────────────────

  lemma {:induction false} SplitAllAppend(a: seq<string>, b: seq<string>)
    ensures SplitAll(a + b) == SplitAll(a) + SplitAll(b)
  {
    hide SplitList;
    if a == [] {
      assert a + b == b;
    } else {
      assert (a + b)[1..] == a[1..] + b;
      SplitAllAppend(a[1..], b);
    }
  }

  method CollectItems(values: seq<string>) returns (items: seq<string>)
    ensures items == SplitAll(values)
  {
    hide SplitList;
    items := [];
    for i := 0 to |values|
      invariant items == SplitAll(values[..i])
    {
      var more := Split(values[i]);
      assert values[..i + 1] == values[..i] + [values[i]];
      SplitAllAppend(values[..i], [values[i]]);
      assert SplitAll([values[i]]) == more;
      items := items + more;
    }
    assert values[..|values|] == values;
  }

  /** `chunked` once, last, and alone. */
  method AcceptsCodings(codings: seq<string>) returns (ok: bool)
    ensures ok == OnlyChunked(codings)
  {
    if codings == [] {
      return false;
    }
    var count := 0;
    for i := 0 to |codings|
      invariant count <= i
      invariant |codings| == 1 && i == 1 ==> (count == 1 <==> NamesEqual(codings[0], "chunked"))
    {
      if NamesEqual(codings[i], "chunked") {
        count := count + 1;
      }
    }
    if count != 1 || !NamesEqual(codings[|codings| - 1], "chunked") {
      return false;
    }
    ok := |codings| == 1;
  }

  method AgreeOn(items: seq<string>) returns (r: Result<Option<nat>>)
    ensures r == Agreed(items, None)
  {
    var agreed: Option<nat> := None;
    for i := 0 to |items|
      invariant Agreed(items[i..], agreed) == Agreed(items, None)
    {
      assert items[i..][1..] == items[i + 1..];
      var parsed := ParseNumber(items[i], 10);
      if parsed.None? {
        return Err(MalformedContentLength);
      }
      if agreed.Some? && agreed.value != parsed.value {
        return Err(InconsistentContentLength);
      }
      agreed := parsed;
    }
    r := Ok(agreed);
  }

  method Frame(h: Headers, version: Version, maxBodySize: nat) returns (r: Result<(BodyKind, nat)>)
    ensures r == FramingOf(h, version, maxBodySize)
  {
    hide GetAll, SplitAll, OnlyChunked, Agreed;
    var te, cl := GetAll(h, "Transfer-Encoding"), GetAll(h, "Content-Length");
    if te != [] && cl != [] {
      return Err(FramingConflict);
    }
    if te != [] {
      if version.Http10? {
        return Err(InvalidTransferEncoding);
      }
      var codings := CollectItems(te);
      var ok := AcceptsCodings(codings);
      return if ok then Ok((Chunked, 0)) else Err(InvalidTransferEncoding);
    }
    if cl != [] {
      var items := CollectItems(cl);
      var agreed := AgreeOn(items);
      if agreed.Err? {
        return Err(agreed.error);
      }
      if agreed.value.None? {
        return Err(MalformedContentLength);
      }
      if agreed.value.value > maxBodySize {
        return Err(LimitExceeded);
      }
      return Ok((Length, agreed.value.value));
    }
    r := Ok((NoBody, 0));
  }

  class RequestParser {
    const limits: Limits
    var phase: Phase
    var request: Request
    var trailers: Headers
    var body: string
    var seen: nat
    var bodyRemaining: nat
    var chunkRemaining: nat
    var headersTotal: nat
    var pending: nat

    ghost predicate Valid()
      reads this
    {
      State().Valid()
    }

    function State(): (p: ParserState)
      reads this
    {
      ParserState(limits, phase, request, trailers, seen, bodyRemaining, chunkRemaining, headersTotal)
    }

    constructor (limits: Limits)
      requires limits.Fits64()
      ensures Valid() && State() == Fresh(limits) && pending == 0 && this.limits == limits
    {
      this.limits := limits;
      phase, request, trailers, body := Start, EMPTY_REQUEST, [], "";
      seen, bodyRemaining, chunkRemaining, headersTotal, pending := 0, 0, 0, 0, 0;
    }

    /** Ready for the next message on the same connection. */
    method Reset()
      requires limits.Fits64()
      modifies this
      ensures Valid() && State() == Fresh(limits) && pending == 0
    {
      phase, request, trailers, body := Start, EMPTY_REQUEST, [], "";
      seen, bodyRemaining, chunkRemaining, headersTotal, pending := 0, 0, 0, 0, 0;
    }

    /** Record one header line, or skip a folded one. */
    method AddHeader(text: string) returns (failed: Option<Error>)
      requires text != ""
      modifies this`request, this`headersTotal
      ensures match HeaderLine(old(State()), text)
              case Err(e) => failed == Some(e)
              case Ok(next) => failed == None && State() == next
    {
      hide FieldOf;
      if |text| > limits.maxHeaderLine {
        return Some(LimitExceeded);
      }
      if IsOws(text[0]) {
        return if !limits.allowObsoleteLineFolding then Some(ObsoleteLineFolding)
               else if request.headers == [] then Some(MalformedHeader) else None;
      }
      var field := FieldOf(text, false);
      if field.Err? {
        return Some(field.error);
      }
      if |request.headers| + 1 > limits.maxHeaderCount {
        return Some(LimitExceeded);
      }
      headersTotal := Add64(headersTotal, |text|);
      if headersTotal > limits.maxHeadersTotal {
        return Some(LimitExceeded);
      }
      request := request.(headers := request.headers + [field.value]);
      failed := None;
    }

    method AddTrailer(text: string) returns (failed: Option<Error>)
      requires text != ""
      modifies this`trailers
      ensures match TrailerLine(old(State()), text)
              case Err(e) => failed == Some(e)
              case Ok(next) => failed == None && State() == next
    {
      if |text| > limits.maxHeaderLine {
        return Some(LimitExceeded);
      }
      var field := FieldOf(text, true);
      if field.Err? {
        return Some(field.error);
      }
      if |trailers| + 1 > limits.maxHeaderCount {
        return Some(LimitExceeded);
      }
      trailers := trailers + [field.value];
      failed := None;
    }

    /** Decide, from the complete head, how the body is delimited. */
    method DecideFraming() returns (failed: Option<Error>)
      requires phase.InHeaders?
      modifies this`request, this`phase, this`bodyRemaining
      ensures match EndOfHeaders(old(State()))
              case Err(e) => failed == Some(e)
              case Ok(next) => failed == None && State() == next
    {
      hide FramingOf;
      var framing := Frame(request.headers, request.version, limits.maxBodySize);
      if framing.Err? {
        return Some(framing.error);
      }
      var (kind, length) := framing.value;
      request := request.(bodyKind := kind);
      if kind.Length? {
        request := request.(contentLength := length);
        bodyRemaining := length;
        phase := if length == 0 then Done else InLength;
      } else if kind.Chunked? {
        phase := ChunkSize;
      } else {
        phase := Done;
      }
      failed := None;
    }

    /** Work off the text of one line. */
    method UseLine(text: string) returns (failed: Option<Error>)
      requires ReadsLines(State())
      modifies this`phase, this`request, this`trailers, this`bodyRemaining, this`chunkRemaining, this`headersTotal
      ensures match HandleLine(old(State()), text)
              case Err(e) => failed == Some(e)
              case Ok(next) => failed == None && State() == next
    {
      hide RequestLine, EndOfHeaders, HeaderLine, TrailerLine;
      failed := None;
      if phase.Start? {
        var head := RequestLine(State(), text);
        if head.Err? {
          return Some(head.error);
        }
        RequestLineSets(State(), text);
        request := head.value.request;
        phase := InHeaders;
      } else if phase.InHeaders? {
        if text == "" {
          failed := DecideFraming();
        } else {
          failed := AddHeader(text);
        }
      } else if phase.Trailers? {
        if text == "" {
          phase := Done;
        } else {
          failed := AddTrailer(text);
        }
      } else if phase.ChunkSize? {
        var size := ChunkSizeLine(State(), text);
        if size.Err? {
          return Some(size.error);
        }
        chunkRemaining, phase := size.value.chunkRemaining, size.value.phase;
      } else if text == "" {
        phase := ChunkSize;
      } else {
        failed := Some(MalformedChunk);
      }
    }

    /** Work off one line, if there is one. */
    method ReadLine(input: Buffer) returns (r: LineResult)
      requires Valid() && input.Valid() && input.pending == 0 && ReadsLines(State())
      modifies this`phase, this`request, this`trailers, this`bodyRemaining, this`chunkRemaining, this`headersTotal
      modifies input
      ensures input.Valid() && input.pending == 0
      ensures match LineStep(old(State()), old(input.Contents()))
              case Starved =>
                r.NoLine? && State() == old(State()) && input.Contents() == old(input.Contents())
              case Finished => false
              case Failed(e) => r == BadLine(e)
              case Moved(next, n, slice) =>
                slice == "" && r.Line? && State() == next && input.Contents() == old(input.Contents())[n..]
    {
      hide HandleLine, FindLine, ParserState.Valid;
      r := NextLine(input.Contents(), limits.allowBareLf);
      match r {
        case NoLine =>
          if Overlong(State(), input.Size()) {
            return BadLine(LimitExceeded);
          }
        case BadLine(_) =>
        case Line(text, consumed) =>
          var failed := UseLine(text);
          if failed.Some? {
            return BadLine(failed.value);
          }
          input.Consume(consumed);
      }
    }

    /** Hand out the next stretch of body, left in the buffer until the next call. */
    method EmitBody(input: Buffer) returns (r: Result<ParseStep>)
      requires Valid() && input.Valid() && input.pending == 0 && pending == 0 && body == ""
      requires !ReadsLines(State()) && !phase.Done?
      modifies this`body, this`pending, this`seen, this`bodyRemaining, this`chunkRemaining, this`phase
      ensures match BodyStep(old(State()), input.Contents())
              case Starved => r == Ok(NeedMore) && State() == old(State()) && pending == 0 && body == ""
              case Moved(next, n, slice) =>
                slice != "" && r == Ok(BodyReady) && State() == next && pending == n && body == slice
              case _ => false
    {
      if input.Size() == 0 {
        return Ok(NeedMore);
      }
      var left := if phase.InLength? then bodyRemaining else chunkRemaining;
      var take := if left > input.Size() then input.Size() else left;
      body := input.Contents()[..take];
      seen := Add64(seen, take);
      pending := take;
      if phase.InLength? {
        bodyRemaining := Sub64(bodyRemaining, take);
        if bodyRemaining == 0 {
          phase := Done;
        }
      } else {
        chunkRemaining := Sub64(chunkRemaining, take);
      }
      r := Ok(BodyReady);
    }

    /** Drop what the previous call handed out, then step up to the first thing
        worth reporting. */
    method Parse(input: Buffer) returns (r: Result<ParseStep>)
      requires Valid() && input.Valid() && input.pending == 0 && pending <= |input.Contents()|
      modifies this, input
      ensures input.Valid() && input.pending == 0
      ensures var c := ParseCall(old(State()), old(input.Contents()[pending..]));
              && r == c.answer
              && (r.Ok? ==> Valid() && State() == c.state && input.Contents() == c.buffer)
              && (r.Ok? ==> pending == c.pending && body == c.body && pending <= |input.Contents()|)
    {
      hide ParseCall, LineStep, BodyStep, ParserState.Valid;
      CallIsRun(State(), input.Contents()[pending..]);
      if pending > 0 {
        input.Consume(pending);
        pending := 0;
      }
      body := "";
      while true
        invariant Valid() && input.Valid() && input.pending == 0 && pending == 0 && body == ""
        invariant ParseCall(State(), input.Contents()) == ParseCall(old(State()), old(input.Contents()[pending..]))
        decreases |input.Contents()|
      {
        CallUnfolds(State(), input.Contents());
        if phase.Done? {
          return Ok(Complete);
        }
        if !ReadsLines(State()) {
          r := EmitBody(input);
          return;
        }
        var p := State();
        var line := ReadLine(input);
        match line {
          case BadLine(e) =>
            return Err(e);
          case NoLine =>
            return Ok(NeedMore);
          case Line(_, _) =>
            var report := Report(p, State());
            if report.Some? {
              return Ok(report.value);
            }
        }
      }
    }
  }

  lemma RequestLineSets(p: ParserState, text: string)
    requires RequestLine(p, text).Ok?
    ensures RequestLine(p, text).value == p.(phase := InHeaders, request := RequestLine(p, text).value.request)
  {
    hide Find, MethodFromToken;
  }
}

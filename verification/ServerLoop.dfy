/** The connection loop as it runs: a parser, a buffer and a stream. */
module ServerLoop {
  import opened Octets
  import opened HttpMessage
  import opened Buffers
  import opened Streams
  import opened Incremental
  import opened RequestMachine
  import opened RequestSlicing
  import opened RequestParsing
  import opened Server

  // ── what one parse call tells the loop ──────────────────────────────────────

  predicate Early(p: ParserState)
  {
    p.phase.Start? || p.phase.InHeaders?
  }

  /** What the connection loop relies on about a call that did not fail. */
  ghost predicate Dependable(p: Parser, input: string, c: Call<Parser>)
  {
    match c.answer
    case Err(_) => true
    case Ok(NeedMore) => c.pending == 0 && Early(c.state) == Early(p)
    case Ok(HeadReady) =>
      && c.pending == 0 && c.body == "" && |c.buffer| < |input|
      && Early(p) && !Early(c.state)
      && (c.state.request.bodyKind.NoBody? ==> c.state.phase.Done?)
    case Ok(BodyReady) => c.pending > 0 && |c.buffer| <= |input| && !Early(p) && !Early(c.state)
    case Ok(Complete) => c.pending == 0 && c.body == "" && !Early(p) && c.state.phase.Done?
  }

  lemma StepPhases(p: Parser, input: string)
    requires Step(p, input).Moved?
    ensures var q := Step(p, input).next;
      && (!Early(p) ==> !Early(q))
      && !q.phase.Start?
      && (p.phase.Start? ==> q.phase.InHeaders?)
      && (Step(p, input).body != "" ==> !Early(p))
      && (p.phase.InHeaders? && q.request.bodyKind.NoBody? && !q.phase.InHeaders? ==> q.phase.Done?)
  {
    hide NextLine, FramingOf, FieldOf, Find, ParseNumber, MethodFromToken, ParserState.Valid;
  }

  lemma {:induction false} CallIsDependable(p: Parser, input: string)
    ensures Dependable(p, input, ParseCall(p, input))
    decreases |input|
  {
    hide ParseCall, Step;
    CallUnfolds(p, input);
    var r := Step(p, input);
    if r.Moved? {
      StepPhases(p, input);
      if r.body == "" && Report(p, r.next).None? {
        CallIsDependable(r.next, input[r.consumed..]);
      }
    } else if r.Finished? {
      FinishedIsDone(p, input);
    }
  }

  lemma FinishedIsDone(p: Parser, input: string)
    requires Step(p, input).Finished?
    ensures p.phase.Done?
  {
    hide HandleLine, NextLine, ParserState.Valid;
  }

  // ── one request ─────────────────────────────────────────────────────────────

  lemma {:induction false} DoneSettles(p: Parser, body: string, rest: string, arriving: seq<string>)
    requires p.phase.Done?
    ensures Settle(Prepend(body, Run(p, rest)), arriving) == (Progress(p, rest, body, Ended), arriving)
  {
    StepBehaves();
    assert Step(p, rest).Finished?;
    hide Step;
    ExecUnfolds(Step, p, rest);
    assert body + "" == body;
  }

  lemma {:induction false} RejectedSettles(o: Progress<Parser>, arriving: seq<string>)
    requires !o.status.Hungry?
    ensures Settle(o, arriving) == (o, arriving)
  {
  }

  /** A starved parser gets the next read, if there is one. */
  lemma {:induction false} HungrySettles(p: Parser, body: string, rest: string, arriving: seq<string>)
    requires Run(p, rest) == Progress(p, rest, "", Hungry)
    ensures var o := Prepend(body, Run(p, rest));
      Settle(o, arriving) == if arriving == [] || arriving[0] == "" then (o, arriving)
                             else Settle(Prepend(body, Run(p, rest + arriving[0])), arriving[1..])
  {
    hide Exec, Step;
    StepBehaves();
    assert body + "" == body;
    if arriving != [] && arriving[0] != "" {
      FeedUnfolds(Step, Prepend(body, Run(p, rest)), arriving[0]);
    }
  }

  /** Where the request at hand stands: its body so far, and the run to come. */
  ghost predicate OnCourse(
      p: Parser, unread: string, body: string, arriving: seq<string>, goal: (Progress<Parser>, seq<string>))
  {
    Settle(Prepend(body, Run(p, unread)), arriving) == goal
  }

  lemma CallStaysOnCourse(
      p: Parser, unread: string, body: string, arriving: seq<string>, goal: (Progress<Parser>, seq<string>))
    requires OnCourse(p, unread, body, arriving, goal)
    ensures var c := ParseCall(p, unread);
      && (c.answer.Ok? ==> c.pending <= |c.buffer| && OnCourse(c.state, c.buffer[c.pending..], body + c.body, arriving, goal))
      && (c.answer.Err? ==> goal.0.status == Rejected(c.answer.error))
  {
    hide Run, ParseCall, Settle;
    CallIsRun(p, unread);
    var c := ParseCall(p, unread);
    if c.answer.Ok? {
      var o := Run(c.state, c.buffer[c.pending..]);
      assert body + (c.body + o.body) == body + c.body + o.body;
    } else {
      RejectedSettles(Prepend(body, Run(p, unread)), arriving);
    }
  }

  /** How reading one request ended. */
  datatype Reading = Ready(body: string) | Quiet | Broken(error: Error)

  method Refill(input: Buffer, stream: ReadStream, chunk: nat) returns (r: Result<nat>)
    requires input.Valid() && input.pending == 0 && (stream.arriving != [] ==> |stream.arriving[0]| <= chunk)
    modifies input, stream
    ensures input.Valid() && input.pending == 0
    ensures if old(stream.arriving) == [] then r.Err? && r.error == Eof && stream.arriving == [] && input.Contents() == old(input.Contents())
            else r == Ok(|old(stream.arriving)[0]|) && stream.arriving == old(stream.arriving)[1..]
                 && input.Contents() == old(input.Contents()) + old(stream.arriving)[0]
  {
    input.Prepare(chunk);
    ghost var before := input.Contents();
    var got := stream.ReadSome(chunk);
    if got.Err? {
      input.Commit(0);
      assert before + "" == before;
      return Err(got.error);
    }
    input.Fill(got.value);
    input.Commit(|got.value|);
    r := Ok(|got.value|);
  }

  /** Asking a starved parser again without more input changes nothing. */
  lemma StarvedAgain(p: Parser, unread: string)
    requires ParseCall(p, unread).answer == Ok(NeedMore) && ParseCall(p, unread).pending == 0
    ensures var c := ParseCall(p, unread); Run(c.state, c.buffer) == Progress(c.state, c.buffer, "", Hungry)
  {
    hide Run, ParseCall;
    NeedMoreMeansHungry(p, unread);
    CallIsRun(p, unread);
    var c := ParseCall(p, unread);
    assert c.buffer[0..] == c.buffer;
    assert c.body + Run(c.state, c.buffer).body == "";
  }

  /** One parse call, and what it means for the request at hand. */
  method ParseOnce(
      parser: RequestParser, input: Buffer, body: string,
      ghost arriving: seq<string>, ghost goal: (Progress<Parser>, seq<string>))
      returns (step: Result<ParseStep>, after: string)
    requires parser.Valid() && input.Valid() && input.pending == 0 && parser.pending <= |input.Contents()|
    requires OnCourse(parser.State(), input.Contents()[parser.pending..], body, arriving, goal)
    modifies parser, input
    ensures input.Valid() && input.pending == 0
    ensures step.Err? ==> goal.0.status == Rejected(step.error)
    ensures step.Ok? ==>
      && parser.Valid() && parser.pending <= |input.Contents()|
      && OnCourse(parser.State(), input.Contents()[parser.pending..], after, arriving, goal)
    ensures step == Ok(HeadReady) ==>
      && old(Early(parser.State())) && !Early(parser.State())
      && (parser.request.bodyKind.NoBody? ==> parser.phase.Done? && parser.pending == 0)
      && |input.Contents()| - parser.pending < old(|input.Contents()| - parser.pending)
    ensures step == Ok(BodyReady) ==>
      && old(!Early(parser.State())) && !Early(parser.State())
      && |input.Contents()| - parser.pending < old(|input.Contents()| - parser.pending)
    ensures step == Ok(Complete) ==>
      old(!Early(parser.State())) && !Early(parser.State()) && parser.phase.Done? && parser.pending == 0
    ensures step == Ok(NeedMore) ==>
      && old(Early(parser.State())) == Early(parser.State()) && parser.pending == 0
      && Run(parser.State(), input.Contents()) == Progress(parser.State(), input.Contents(), "", Hungry)
  {
    hide Run, Settle, ParseCall, ParserState.Valid, OnCourse;
    ghost var unread := input.Contents()[parser.pending..];
    ghost var p := parser.State();
    CallStaysOnCourse(p, unread, body, arriving, goal);
    CallIsDependable(p, unread);
    step := parser.Parse(input);
    if step.Err? {
      return step, body;
    }
    if step == Ok(NeedMore) {
      StarvedAgain(p, unread);
    }
    after := body + parser.body;
  }

  lemma HungryOnCourse(
      p: Parser, rest: string, body: string, arriving: seq<string>, goal: (Progress<Parser>, seq<string>))
    requires OnCourse(p, rest, body, arriving, goal) && Run(p, rest) == Progress(p, rest, "", Hungry)
    ensures arriving == [] || arriving[0] == "" ==> goal.0.status.Hungry?
    ensures arriving != [] && arriving[0] != "" ==> OnCourse(p, rest + arriving[0], body, arriving[1..], goal)
  {
    hide Run, Settle;
    HungrySettles(p, body, rest, arriving);
  }

  /** Each arriving slice fits one read. */
  predicate FitChunk(arriving: seq<string>, chunk: nat)
  {
    forall i :: 0 <= i < |arriving| ==> |arriving[i]| <= chunk
  }

  /** Read and parse one request, body and all. */
  method ReadRequest(parser: RequestParser, input: Buffer, stream: ReadStream, chunk: nat) returns (r: Reading)
    requires parser.limits.Fits64() && parser.pending == 0 && parser.State() == Fresh(parser.limits)
    requires input.Valid() && input.pending == 0
    requires FitChunk(stream.arriving, chunk)
    modifies parser, input, stream
    ensures input.Valid() && input.pending == 0
    ensures FitChunk(stream.arriving, chunk)
    ensures var (o, more) := Settle(Run(Fresh(parser.limits), old(input.Contents())), old(stream.arriving));
      match o.status
      case Ended =>
        && r == Ready(o.body) && parser.request == o.state.request
        && input.Contents() == o.rest && stream.arriving == more
      case Rejected(e) => r == Broken(e)
      case Hungry => r == if old(input.Contents()) == "" && old(stream.arriving) == [] then Quiet else Broken(Eof)
  {
    hide Run, Settle, ParserState.Valid, OnCourse, Fresh;
    ghost var goal := Settle(Run(Fresh(parser.limits), input.Contents()), stream.arriving);
    BeginsOnCourse(parser.State(), input.Contents(), stream.arriving);
    assert input.Contents()[0..] == input.Contents();
    var headReady, drained, started, body := false, false, input.Size() > 0, "";
    assert Early(parser.State()) by { FreshIsEarly(parser.limits); }
    while !headReady || !drained
      invariant parser.Valid() && input.Valid() && input.pending == 0 && parser.pending <= |input.Contents()|
      invariant FitChunk(stream.arriving, chunk)
      invariant OnCourse(parser.State(), input.Contents()[parser.pending..], body, stream.arriving, goal)
      invariant headReady == !Early(parser.State())
      invariant drained ==> headReady && parser.phase.Done? && parser.pending == 0
      invariant started <==> old(input.Contents()) != "" || |stream.arriving| < |old(stream.arriving)|
      invariant |stream.arriving| <= |old(stream.arriving)|
      decreases |stream.arriving|, if drained then 0 else 1, |input.Contents()| - parser.pending
    {
      var step;
      step, body := ParseOnce(parser, input, body, stream.arriving, goal);
      if step.Err? {
        return Broken(step.error);
      }
      match step.value {
        case HeadReady =>
          headReady := true;
          drained := parser.request.bodyKind.NoBody?;
        case BodyReady =>
        case Complete =>
          drained := true;
        case NeedMore =>
          HungryOnCourse(parser.State(), input.Contents(), body, stream.arriving, goal);
          var read := Refill(input, stream, chunk);
          if read.Err? {
            return if started then Broken(Eof) else Quiet;
          }
          if read.value == 0 {
            return Broken(Eof);
          }
          started := true;
          assert input.Contents()[0..] == input.Contents();
      }
    }
    assert input.Contents()[0..] == input.Contents();
    EndsOnCourse(parser.State(), input.Contents(), body, stream.arriving, goal);
    r := Ready(body);
  }

  lemma {:induction false} BeginsOnCourse(p: Parser, input: string, arriving: seq<string>)
    ensures OnCourse(p, input, "", arriving, Settle(Run(p, input), arriving))
  {
    hide Run, Settle;
    EmptyPrepend(Run(p, input));
  }

  lemma FreshIsEarly(limits: Limits)
    requires limits.Fits64()
    ensures Early(Fresh(limits))
  {
  }

  lemma EndsOnCourse(
      p: Parser, rest: string, body: string, arriving: seq<string>, goal: (Progress<Parser>, seq<string>))
    requires OnCourse(p, rest, body, arriving, goal) && p.phase.Done?
    ensures goal == (Progress(p, rest, body, Ended), arriving)
  {
    hide Run, Settle;
    DoneSettles(p, body, rest, arriving);
  }

  lemma EmptyPrepend(o: Progress<Parser>)
    ensures Prepend("", o) == o
  {
    assert "" + o.body == o.body;
  }

  // ── the connection ──────────────────────────────────────────────────────────

  /** Read one request and hand it over; `over` if the connection ends with it. */
  method ServeOne(
      parser: RequestParser, input: Buffer, stream: ReadStream, chunk: nat, left: nat, forceClose: bool,
      calls: seq<(Request, string)>, ghost all: Served)
      returns (next: seq<(Request, string)>, over: bool, error: Option<Error>)
    requires parser.limits.Fits64() && input.Valid() && input.pending == 0 && FitChunk(stream.arriving, chunk) && left > 0
    requires Completes(calls, Serve(parser.limits, left, forceClose, input.Contents(), stream.arriving), all)
    modifies parser, input, stream
    ensures input.Valid() && input.pending == 0 && FitChunk(stream.arriving, chunk)
    ensures if over then all == Served(next, error)
            else left > 1 && Completes(next, Serve(parser.limits, left - 1, forceClose, input.Contents(), stream.arriving), all)
  {
    hide Run, Settle, ShouldKeepAlive, Serve, Fresh, Completes, FitChunk;
    ServeGoesOn(parser.limits, left, forceClose, input.Contents(), stream.arriving, calls, all);
    parser.Reset();
    ghost var settled := Settle(Run(Fresh(parser.limits), input.Contents()), stream.arriving);
    var reading := ReadRequest(parser, input, stream, chunk);
    assert reading.Ready? <==> settled.0.status.Ended?;
    match reading
    case Quiet => return calls, true, None;
    case Broken(e) => return calls, true, Some(e);
    case Ready(body) =>
      var alive := DecideKeepAlive(parser.request);
      return calls + [(parser.request, body)], !(alive && !forceClose && left > 1), None;
  }

  /** Serve requests until the peer closes, a request is refused, or the exchange
      decides to close. The handler is the environment's, and succeeds. */
  method ServeConnection(stream: ReadStream, limits: Limits, maxRequests: nat, chunk: nat, forceClose: bool)
      returns (calls: seq<(Request, string)>, error: Option<Error>)
    requires limits.Fits64() && FitChunk(stream.arriving, chunk)
    modifies stream
    ensures chunk == 0 ==> calls == [] && error == Some(InvalidArgument)
    ensures chunk > 0 ==> Served(calls, error) == Serve(limits, maxRequests, forceClose, "", old(stream.arriving))
  {
    if chunk == 0 {
      return [], Some(InvalidArgument);
    }
    hide Serve, Completes, FitChunk;
    var input := new Buffer(0);
    var parser := new RequestParser(limits);
    calls := [];
    var left := maxRequests;
    ghost var all := Serve(limits, maxRequests, forceClose, "", stream.arriving);
    Completed([], all, all);
    while left > 0
      invariant input.Valid() && input.pending == 0 && fresh(input) && fresh(parser) && parser.limits == limits
      invariant FitChunk(stream.arriving, chunk)
      invariant Completes(calls, Serve(limits, left, forceClose, input.Contents(), stream.arriving), all)
    {
      var over;
      calls, over, error := ServeOne(parser, input, stream, chunk, left, forceClose, calls, all);
      if over {
        return;
      }
      left := left - 1;
    }
    ServedOut(limits, forceClose, input.Contents(), stream.arriving);
    Completed(calls, Served([], None), all);
    error := None;
  }

  /** `rest` is what is still to come of `all` after these calls. */
  ghost predicate Completes(calls: seq<(Request, string)>, rest: Served, all: Served)
  {
    all == Served(calls + rest.calls, rest.error)
  }

  lemma Completed(calls: seq<(Request, string)>, rest: Served, all: Served)
    ensures calls == [] && rest == all ==> Completes(calls, rest, all)
    ensures Completes(calls, rest, all) && rest.calls == [] ==> all == Served(calls, rest.error)
    ensures Completes(calls, rest, all) && |rest.calls| == 1 ==> all == Served(calls + [rest.calls[0]], rest.error)
    ensures Completes(calls, rest, all) && rest.calls != [] ==>
              Completes(calls + [rest.calls[0]], Served(rest.calls[1..], rest.error), all)
  {
    assert rest.calls == [] ==> calls + rest.calls == calls;
    if rest.calls != [] {
      assert calls + rest.calls == calls + [rest.calls[0]] + rest.calls[1..];
    }
  }

  /** What one more request, or none, adds to the calls so far. */
  lemma ServeGoesOn(
      limits: Limits, left: nat, forceClose: bool, buffer: string, arriving: seq<string>,
      calls: seq<(Request, string)>, all: Served)
    requires limits.Fits64() && left > 0
    requires Completes(calls, Serve(limits, left, forceClose, buffer, arriving), all)
    ensures var (o, more) := Settle(Run(Fresh(limits), buffer), arriving);
      var next := calls + [(o.state.request, o.body)];
      && (o.status.Hungry? ==> all == Served(calls, if buffer == "" && arriving == [] then None else Some(Eof)))
      && (o.status.Rejected? ==> all == Served(calls, Some(o.status.error)))
      && (o.status.Ended? ==>
            if !ShouldKeepAlive(o.state.request) || forceClose || left == 1 then all == Served(next, None)
            else Completes(next, Serve(limits, left - 1, forceClose, o.rest, more), all))
  {
    hide Run, Settle, ShouldKeepAlive, Serve, Completes, Fresh;
    ServeUnfolds(limits, left, forceClose, buffer, arriving);
    var r := Serve(limits, left, forceClose, buffer, arriving);
    Completed(calls, r, all);
    assert r.calls != [] ==> r.calls == [r.calls[0]] + r.calls[1..];
  }

  lemma ServeUnfolds(limits: Limits, left: nat, forceClose: bool, buffer: string, arriving: seq<string>)
    requires limits.Fits64() && left > 0
    ensures var (o, more) := Settle(Run(Fresh(limits), buffer), arriving);
      var r := Serve(limits, left, forceClose, buffer, arriving);
      && (o.status.Hungry? ==> r == Served([], if buffer == "" && arriving == [] then None else Some(Eof)))
      && (o.status.Rejected? ==> r == Served([], Some(o.status.error)))
      && (o.status.Ended? ==>
            if !ShouldKeepAlive(o.state.request) || forceClose || left == 1 then r == Served([(o.state.request, o.body)], None)
            else
              var others := Serve(limits, left - 1, forceClose, o.rest, more);
              r == Served([(o.state.request, o.body)] + others.calls, others.error))
  {
    hide Run, Settle, ShouldKeepAlive;
  }
}

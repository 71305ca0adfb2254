/** How a response in progress relates to the octets received for it. */
module ClientTrack {
  import opened Octets
  import opened Grammar
  import opened HttpMessage
  import Lines
  import opened Incremental
  import opened ResponseMachine
  import opened ResponseSlicing
  import opened ResponseParsing
  import opened Server

  // ── connection options, as the client looks for them ────────────────────────

  /** Items of every Connection field, empty ones not skipped. */
  predicate MentionsRaw(h: Headers, token: string)
  {
    exists i :: 0 <= i < |h| && NamesEqual(h[i].name, "Connection") && HasToken(RawItems(h[i].value), token)
  }

  lemma {:induction false} DroppingKeeps(items: seq<string>, token: string)
    requires token != ""
    ensures HasToken(DropEmpty(items), token) <==> HasToken(items, token)
  {
    if items != [] {
      var tail := items[1..];
      DroppingKeeps(tail, token);
      assert HasToken(items, token) <==> NamesEqual(items[0], token) || HasToken(tail, token) by {
        HasTokenStep(items, token);
      }
      if items[0] != "" {
        HasTokenStep([items[0]] + DropEmpty(tail), token);
        assert ([items[0]] + DropEmpty(tail))[1..] == DropEmpty(tail);
      }
    }
  }

  lemma HasTokenStep(items: seq<string>, token: string)
    requires items != []
    ensures HasToken(items, token) <==> NamesEqual(items[0], token) || HasToken(items[1..], token)
  {
    hide NamesEqual;
    if HasToken(items[1..], token) {
      var i :| 0 <= i < |items[1..]| && NamesEqual(items[1..][i], token);
      assert NamesEqual(items[i + 1], token);
    }
    if HasToken(items, token) {
      var i :| 0 <= i < |items| && NamesEqual(items[i], token);
      assert i > 0 ==> NamesEqual(items[1..][i - 1], token);
    }
  }

  /** The client's search and the server's find the same options. */
  lemma MentionsAgree(h: Headers, token: string)
    requires token != ""
    ensures MentionsRaw(h, token) <==> Mentions(h, token)
  {
    hide RawItems, DropEmpty, HasToken, NamesEqual;
    forall i | 0 <= i < |h| ensures HasToken(SplitList(h[i].value), token) <==> HasToken(RawItems(h[i].value), token) {
      DroppingKeeps(RawItems(h[i].value), token);
    }
  }

  method LookFor(h: Headers, token: string) returns (found: bool)
    ensures found == MentionsRaw(h, token)
  {
    hide NamesEqual, RawItems, HasToken;
    for i := 0 to |h|
      invariant forall k :: 0 <= k < i ==> !(NamesEqual(h[k].name, "Connection") && HasToken(RawItems(h[k].value), token))
    {
      if NamesEqual(h[i].name, "Connection") {
        found := LookIn(h[i].value, token);
        if found {
          return;
        }
      }
    }
    found := false;
  }

  method LookIn(value: string, token: string) returns (found: bool)
    ensures found == HasToken(RawItems(value), token)
  {
    hide NamesEqual, RawItems, HasToken, Find;
    var rest := value;
    while true
      invariant HasToken(RawItems(rest), token) == HasToken(RawItems(value), token)
      decreases |rest|
    {
      var comma := Find(rest, ',');
      RawItemsStep(rest);
      HasTokenStep(RawItems(rest), token);
      var item := Trim(rest[..comma]);
      if NamesEqual(item, token) {
        return true;
      }
      if comma == |rest| {
        assert RawItems(rest)[1..] == [];
        NoTokens(token);
        return false;
      }
      assert RawItems(rest)[1..] == RawItems(rest[comma + 1..]);
      rest := rest[comma + 1..];
    }
  }

  lemma NoTokens(token: string)
    ensures !HasToken([], token)
  {
  }

  // ── the response in progress ────────────────────────────────────────────────

  /** `received` has brought the parser to `p` with `unread` still buffered and
      `delivered` handed out as body. */
  ghost predicate OnTrack(
      meth: Method, limits: Limits, received: string, delivered: string, p: Parser, unread: string)
    requires limits.Fits64()
  {
    SameResult(Run(Fresh(meth, limits), received), Prepend(delivered, Run(p, unread)))
  }

  /** The octets received, and the end of the stream if it was reached, make one
      complete response with this body and nothing else but `rest`. */
  ghost predicate ReadWhole(
      meth: Method, limits: Limits, received: string, eof: bool, p: Parser, rest: string, delivered: string)
    requires limits.Fits64()
  {
    var o := Run(Fresh(meth, limits), received);
    (if eof then AtEof(o) else o) == Progress(p, rest, delivered, Ended)
  }

  lemma TrackBegins(meth: Method, limits: Limits, input: string)
    requires limits.Fits64()
    ensures OnTrack(meth, limits, input, "", Fresh(meth, limits), input)
  {
    var o := Run(Fresh(meth, limits), input);
    assert "" + o.body == o.body;
  }

  /** One more read reaches a starved parser. */
  lemma TrackMore(meth: Method, limits: Limits, received: string, delivered: string, p: Parser, unread: string, more: string)
    requires limits.Fits64() && OnTrack(meth, limits, received, delivered, p, unread)
    requires Run(p, unread) == Progress(p, unread, "", Hungry)
    ensures OnTrack(meth, limits, received + more, delivered, p, unread + more)
  {
    hide Exec, Step, Feed;
    StepStable();
    var o := Run(Fresh(meth, limits), received);
    assert delivered + "" == delivered;
    assert o == Progress(p, unread, delivered, Hungry);
    ExecAppend(Step, Fresh(meth, limits), received, more);
    FeedUnfolds(Step, o, more);
  }

  /** The call itself, before the end of the stream is considered. */
  ghost function BareCall(p: Parser, unread: string): (c: Call<Parser>)
  {
    ParseCall(p, unread, false)
  }

  lemma {:induction false} CompleteIsDone(p: Parser, unread: string)
    ensures var c := BareCall(p, unread);
      && (c.answer == Ok(Complete) ==> c.state.phase.Done? && c.pending == 0 && c.body == "")
      && (c.answer == Ok(HeadReady) ==> c.pending == 0 && c.body == "")
      && (c.answer == Ok(BodyReady) ==> c.body != "")
      && (c.answer == Ok(NeedMore) ==> c.pending == 0 && c.body == "" && (c.state.phase.EofBody? ==> c.buffer == ""))
    decreases |unread|
  {
    hide ParseCall, Step;
    CallUnfolds(p, unread, false);
    var r := Step(p, unread);
    if r.Moved? {
      if r.body == "" && Report(p, r.next).None? {
        CompleteIsDone(r.next, unread[r.consumed..]);
      }
    } else {
      StillThere(p, unread);
    }
  }

  lemma StillThere(p: Parser, unread: string)
    ensures Step(p, unread).Finished? ==> p.phase.Done?
    ensures Step(p, unread).Starved? && p.phase.EofBody? ==> unread == ""
  {
    hide HandleLine, ParserState.Valid;
  }

  lemma BareCallIsRun(p: Parser, unread: string)
    ensures var c := BareCall(p, unread);
      match c.answer
      case Err(e) => Run(p, unread).status == Rejected(e)
      case Ok(NeedMore) =>
        && Run(p, unread) == Progress(c.state, c.buffer, "", Hungry)
        && Run(c.state, c.buffer) == Progress(c.state, c.buffer, "", Hungry)
      case Ok(_) =>
        c.pending <= |c.buffer| && Run(p, unread) == Prepend(c.body, Run(c.state, c.buffer[c.pending..]))
  {
    hide Exec, Step;
    StepStable();
    var c := BareCall(p, unread);
    CallFollowsRun(Step, Report, p, unread);
    if c.answer == Ok(NeedMore) {
      NeedMoreIsHungry(Step, Report, p, unread);
      CompleteIsDone(p, unread);
      assert c.buffer[0..] == c.buffer;
      assert c.body + Run(c.state, c.buffer).body == "";
    }
  }

  /** A call that reports something keeps the response on track. */
  lemma TrackCall(meth: Method, limits: Limits, received: string, delivered: string, p: Parser, unread: string)
    requires limits.Fits64() && OnTrack(meth, limits, received, delivered, p, unread)
    ensures var c := BareCall(p, unread);
      && (c.answer.Ok? ==> c.pending <= |c.buffer|)
      && (c.answer.Ok? ==> OnTrack(meth, limits, received, delivered + c.body, c.state, c.buffer[c.pending..]))
      && (c.answer == Ok(NeedMore) ==> Run(c.state, c.buffer) == Progress(c.state, c.buffer, "", Hungry))
  {
    hide Run, ParseCall;
    var c := BareCall(p, unread);
    BareCallIsRun(p, unread);
    CompleteIsDone(p, unread);
    if c.answer == Ok(NeedMore) {
      assert c.buffer[0..] == c.buffer;
      assert delivered + c.body == delivered;
    } else if c.answer.Ok? {
      var o := Run(c.state, c.buffer[c.pending..]);
      assert delivered + (c.body + o.body) == delivered + c.body + o.body;
    }
  }

  /** A call that reports the end has read the whole response. */
  lemma TrackEnds(meth: Method, limits: Limits, received: string, delivered: string, p: Parser, unread: string, eof: bool)
    requires limits.Fits64() && OnTrack(meth, limits, received, delivered, p, unread)
    requires ParseCall(p, unread, eof).answer == Ok(Complete)
    ensures var c := ParseCall(p, unread, eof);
      c.pending == 0 && ReadWhole(meth, limits, received, eof, c.state, c.buffer, delivered)
  {
    hide Exec, Step;
    StepStable();
    var c := ParseCall(p, unread, eof);
    var bare := BareCall(p, unread);
    CompleteIsDone(p, unread);
    TrackCall(meth, limits, received, delivered, p, unread);
    assert bare.buffer[0..] == bare.buffer && delivered + "" == delivered;
    if bare.answer == Ok(Complete) {
      DoneEnds(bare.state, bare.buffer);
    }
  }

  lemma DoneEnds(p: Parser, rest: string)
    requires p.phase.Done?
    ensures Run(p, rest) == Progress(p, rest, "", Ended)
  {
    StepStable();
    assert Step(p, rest).Finished?;
    hide Step;
    ExecUnfolds(Step, p, rest);
  }

  lemma DoneCall(p: Parser, rest: string, eof: bool)
    requires p.phase.Done?
    ensures ParseCall(p, rest, eof) == Call(p, rest, 0, "", Ok(Complete))
  {
    assert Step(p, rest).Finished?;
    hide Step, ParseCall;
    CallUnfolds(p, rest, eof);
  }

  /** The head is still to come. */
  predicate HeadDue(p: ParserState)
  {
    p.phase.Start? || p.phase.InHeaders?
  }

  /** Past the status line there is a status. */
  predicate Numbered(p: ParserState)
  {
    p.phase.Start? || 100 <= p.response.status
  }

  lemma StepOrders(p: Parser, unread: string)
    requires Numbered(p) && Step(p, unread).Moved?
    ensures var next := Step(p, unread).next;
      && Numbered(next) && !next.phase.Start?
      && (!HeadDue(p) ==> !HeadDue(next))
      && (HeadDue(p) ==> Step(p, unread).body == "" && next.phase != Trailers)
      && (HeadDue(p) && !HeadDue(next) ==> p.phase.InHeaders? && (next.response.status < 200 ==> next.phase.Done?))
  {
    hide FramingOf, FieldOf, ParserState.Valid, Lines.FindLine, ParseNumber;
  }

  /** The head is reported first, once, and nothing follows an informational one. */
  lemma {:induction false} HeadFirst(p: Parser, unread: string)
    requires Numbered(p)
    ensures var c := BareCall(p, unread);
      && (c.answer.Ok? ==> Numbered(c.state))
      && (HeadDue(p) && c.answer.Ok? ==> c.answer == Ok(NeedMore) || c.answer == Ok(HeadReady))
      && (HeadDue(p) && c.answer == Ok(NeedMore) ==> HeadDue(c.state))
      && (c.answer == Ok(HeadReady) ==>
            HeadDue(p) && !HeadDue(c.state) && (c.state.response.status < 200 ==> c.state.phase.Done?))
      && (!HeadDue(p) && c.answer.Ok? ==> !HeadDue(c.state))
    decreases |unread|
  {
    hide ParseCall, Step;
    CallUnfolds(p, unread, false);
    var r := Step(p, unread);
    if r.Moved? {
      StepOrders(p, unread);
      if r.body == "" && Report(p, r.next).None? {
        HeadFirst(r.next, unread[r.consumed..]);
      }
    } else {
      StillThere(p, unread);
    }
  }

  /** What was received, and the end of the stream if it was reached, is no response. */
  ghost predicate Broken(meth: Method, limits: Limits, received: string, eof: bool)
    requires limits.Fits64()
  {
    var o := Run(Fresh(meth, limits), received);
    (if eof then AtEof(o) else o).status.Rejected?
  }

  /** A call fails only on octets that are no response. */
  lemma TrackFails(meth: Method, limits: Limits, received: string, delivered: string, p: Parser, unread: string, eof: bool)
    requires limits.Fits64() && OnTrack(meth, limits, received, delivered, p, unread)
    requires ParseCall(p, unread, eof).answer.Err?
    ensures Broken(meth, limits, received, eof)
  {
    hide Run, CallOf;
    BareCallIsRun(p, unread);
    CompleteIsDone(p, unread);
  }

  /** An informational response: a head and nothing else. */
  ghost predicate Interim(meth: Method, limits: Limits, text: string)
    requires limits.Fits64()
  {
    var o := Run(Fresh(meth, limits), text);
    o.status.Ended? && o.rest == "" && o.body == "" && 100 <= o.state.response.status < 200
  }

  /** An informational head that was read is one such response, and the next one
      begins right behind it. */
  lemma InterimRead(meth: Method, limits: Limits, received: string, p: Parser, unread: string) returns (text: string)
    requires limits.Fits64() && OnTrack(meth, limits, received, "", p, unread)
    requires Numbered(p) && p.phase.Done? && p.response.status < 200
    ensures received == text + unread && Interim(meth, limits, text)
  {
    hide Exec, Step;
    StepStable();
    DoneEnds(p, unread);
    var start := Fresh(meth, limits);
    var o := Run(start, received);
    assert o == Progress(p, unread, "", Ended);
    RestIsSuffix(Step, start, received);
    text := received[..|received| - |unread|];
    assert received == text + unread;
    ConsumedPartEnds(Step, start, text, unread);
    EndedIgnoresSuffix(Step, start, text, unread);
  }

  /** At end of stream a call either reports as before or settles the matter. */
  lemma EofCall(p: Parser, unread: string)
    ensures var c := ParseCall(p, unread, true); var bare := BareCall(p, unread);
      && c.answer != Ok(NeedMore)
      && (bare.answer != Ok(NeedMore) ==> c == bare)
      && (bare.answer == Ok(NeedMore) ==> c.answer.Err? || (c.answer == Ok(Complete) && !HeadDue(bare.state) && !HeadDue(c.state)))
  {
    hide CallOf;
  }
}

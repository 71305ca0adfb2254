/** Serving requests over one connection. */
module Server {
  import opened Octets
  import opened Grammar
  import opened HttpMessage
  import opened Incremental
  import opened Patience
  import opened RequestMachine
  import opened RequestSlicing
  import opened RequestSerializer
  import opened RequestRoundTrip

  // ── persistence ─────────────────────────────────────────────────────────────

  predicate HasToken(items: seq<string>, token: string)
  {
    exists i :: 0 <= i < |items| && NamesEqual(items[i], token)
  }

  /** Whether any Connection field lists the token. */
  predicate Mentions(h: Headers, token: string)
  {
    exists i :: 0 <= i < |h| && NamesEqual(h[i].name, "Connection") && HasToken(SplitList(h[i].value), token)
  }

  /** Persistent unless told otherwise; before HTTP/1.1 only if asked for. */
  predicate ShouldKeepAlive(request: Request)
  {
    if request.version.Http11? then !Mentions(request.headers, "close")
    else Mentions(request.headers, "keep-alive") && !Mentions(request.headers, "close")
  }

  /** Some item of some Connection field is this token, case ignored. */
  ghost predicate Asks(h: Headers, token: string)
  {
    exists i, k :: 0 <= i < |h| && 0 <= k < |SplitList(h[i].value)|
      && NamesEqual(h[i].name, "Connection") && NamesEqual(SplitList(h[i].value)[k], token)
  }

  /** The connection ends after such a request: it says so, or it comes from before
      HTTP/1.1 and does not ask for more. */
  ghost predicate ClosesAfter(request: Request)
  {
    Asks(request.headers, "close") || (request.version == Http10 && !Asks(request.headers, "keep-alive"))
  }

  lemma MentionsMeans(h: Headers, token: string)
    ensures Mentions(h, token) <==> Asks(h, token)
  {
    hide NamesEqual, SplitList;
    if Mentions(h, token) {
      var i :| 0 <= i < |h| && NamesEqual(h[i].name, "Connection") && HasToken(SplitList(h[i].value), token);
      var k :| 0 <= k < |SplitList(h[i].value)| && NamesEqual(SplitList(h[i].value)[k], token);
      assert NamesEqual(h[i].name, "Connection") && NamesEqual(SplitList(h[i].value)[k], token);
    }
    if Asks(h, token) {
      var i, k :| 0 <= i < |h| && 0 <= k < |SplitList(h[i].value)|
        && NamesEqual(h[i].name, "Connection") && NamesEqual(SplitList(h[i].value)[k], token);
      assert HasToken(SplitList(h[i].value), token);
    }
  }

  /** The persistence rule of section 9.3 of RFC 9112, as the code has it. */
  lemma KeepAliveMeans(request: Request)
    ensures ShouldKeepAlive(request) <==> !ClosesAfter(request)
  {
    hide Mentions, Asks;
    MentionsMeans(request.headers, "close");
    MentionsMeans(request.headers, "keep-alive");
  }

  method FindToken(items: seq<string>, token: string) returns (found: bool)
    ensures found == HasToken(items, token)
  {
    for i := 0 to |items|
      invariant forall k :: 0 <= k < i ==> !NamesEqual(items[k], token)
    {
      if NamesEqual(items[i], token) {
        return true;
      }
    }
    found := false;
  }

  method FindMention(h: Headers, token: string) returns (found: bool)
    ensures found == Mentions(h, token)
  {
    hide NamesEqual, SplitList, HasToken;
    for i := 0 to |h|
      invariant forall k :: 0 <= k < i ==> !(NamesEqual(h[k].name, "Connection") && HasToken(SplitList(h[k].value), token))
    {
      if NamesEqual(h[i].name, "Connection") {
        var items := Split(h[i].value);
        found := FindToken(items, token);
        if found {
          return;
        }
      }
    }
    found := false;
  }

  method DecideKeepAlive(request: Request) returns (keep: bool)
    ensures keep == ShouldKeepAlive(request)
  {
    hide Mentions;
    var close := FindMention(request.headers, "close");
    if request.version.Http11? {
      return !close;
    }
    var persist := FindMention(request.headers, "keep-alive");
    keep := persist && !close;
  }

  // ── what a recipient makes of the options sent ──────────────────────────────

  lemma {:induction false} TrimmedAt(h: Headers, i: nat)
    requires i < |h|
    ensures Trimmed(h)[i] == Field(h[i].name, TrimOws(h[i].value))
  {
    hide TrimOws;
    if i > 0 {
      TrimmedAt(h[1..], i - 1);
    }
  }

  /** The receiver finds the same connection options the sender wrote. */
  lemma MentionsSurvive(request: Request, bodySize: nat, token: string)
    ensures Mentions(Received(request, bodySize).headers, token) <==> Mentions(request.headers, token)
  {
    hide SplitList, HasToken, TrimOws, Trimmed, Numeral;
    var h, g := request.headers, Received(request, bodySize).headers;
    assert !NamesEqual("Content-Length", "Connection");
    forall i | 0 <= i < |h|
      ensures g[i].name == h[i].name && SplitList(g[i].value) == SplitList(h[i].value)
    {
      TrimmedAt(h, i);
      SplitTrimmed(h[i].value);
    }
    assert g[|h|] == LengthField(bodySize);
    hide NamesEqual;
    if Mentions(h, token) {
      var i :| 0 <= i < |h| && NamesEqual(h[i].name, "Connection") && HasToken(SplitList(h[i].value), token);
      assert NamesEqual(g[i].name, "Connection") && HasToken(SplitList(g[i].value), token);
    }
    if Mentions(g, token) {
      var i :| 0 <= i < |g| && NamesEqual(g[i].name, "Connection") && HasToken(SplitList(g[i].value), token);
      assert i < |h| && NamesEqual(h[i].name, "Connection");
    }
  }

  lemma KeepAliveSurvives(request: Request, bodySize: nat)
    ensures ShouldKeepAlive(Received(request, bodySize)) <==> ShouldKeepAlive(request)
  {
    hide Mentions;
    MentionsSurvive(request, bodySize, "close");
    MentionsSurvive(request, bodySize, "keep-alive");
  }

  // ── what a connection comes to ──────────────────────────────────────────────

  /** Keep reading until the request at hand is complete or refused, or there is
      nothing more to read. A read of nothing counts as the end. */
  ghost function Settle(o: Progress<Parser>, arriving: seq<string>): (r: (Progress<Parser>, seq<string>))
    decreases |arriving|
  {
    StepBehaves();
    if !o.status.Hungry? || arriving == [] || arriving[0] == "" then (o, arriving)
    else Settle(Feed(Step, o, arriving[0]), arriving[1..])
  }

  /** The handler's calls in order, and the error the connection ended with. */
  datatype Served = Served(calls: seq<(Request, string)>, error: Option<Error>)

  /** A connection whose handler succeeds: `left` requests may still be served,
      `buffer` is unread input, `arriving` is what the stream will yield. */
  ghost function Serve(limits: Limits, left: nat, forceClose: bool, buffer: string, arriving: seq<string>): (r: Served)
    requires limits.Fits64()
    decreases left
  {
    if left == 0 then Served([], None)
    else
      var (o, more) := Settle(Run(Fresh(limits), buffer), arriving);
      match o.status
      case Hungry => Served([], if buffer == "" && arriving == [] then None else Some(Eof))
      case Rejected(e) => Served([], Some(e))
      case Ended =>
        var call := (o.state.request, o.body);
        if !ShouldKeepAlive(o.state.request) || forceClose || left == 1 then Served([call], None)
        else
          var others := Serve(limits, left - 1, forceClose, o.rest, more);
          Served([call] + others.calls, others.error)
  }

  // ── pipelined requests ──────────────────────────────────────────────────────

  ghost predicate NoEmpty(arriving: seq<string>)
  {
    forall i :: 0 <= i < |arriving| ==> arriving[i] != ""
  }

  lemma {:induction false} PrependSettle(x: string, o: Progress<Parser>, arriving: seq<string>)
    ensures Settle(Prepend(x, o), arriving) == (Prepend(x, Settle(o, arriving).0), Settle(o, arriving).1)
    decreases |arriving|
  {
    hide Exec, Step, Feed;
    StepBehaves();
    if o.status.Hungry? && arriving != [] && arriving[0] != "" {
      FeedUnfolds(Step, o, arriving[0]);
      FeedUnfolds(Step, Prepend(x, o), arriving[0]);
      var e := Exec(Step, o.state, o.rest + arriving[0]);
      assert x + o.body + e.body == x + (o.body + e.body);
      PrependSettle(x, Feed(Step, o, arriving[0]), arriving[1..]);
    }
  }

  /** Reading stops at the end of the request, whatever the reads: what is left
      over, buffered or unread, is what follows it. */
  lemma {:induction false} SettlesAtEnd(s: Parser, a: string, arriving: seq<string>)
    requires NoEmpty(arriving) && RoomyRun(s, a + Concat(arriving))
    requires Run(s, a + Concat(arriving)).status.Ended?
    ensures var whole := Run(s, a + Concat(arriving)); var (o, more) := Settle(Run(s, a), arriving);
      && NoEmpty(more)
      && o.status.Ended? && o.state == whole.state && o.body == whole.body
      && o.rest + Concat(more) == whole.rest
    decreases |arriving|
  {
    hide Exec, Step, Feed, RoomyRun, PatientRun;
    assert arriving == [] ==> a + Concat(arriving) == a;
    StepBehaves();
    PatientRunIsRoomy(s, a + Concat(arriving));
    var o := Run(s, a);
    PatientAppend(Step, s, a, Concat(arriving));
    FeedUnfolds(Step, o, Concat(arriving));
    if o.status.Hungry? {
      if arriving != [] {
        var all := Concat(arriving);
        var next := o.rest + arriving[0];
        assert o.rest + all == next + Concat(arriving[1..]);
        PatientRunIsRoomy(o.state, o.rest + all);
        SettlesAtEnd(o.state, next, arriving[1..]);
        FeedUnfolds(Step, o, arriving[0]);
        PrependSettle(o.body, Run(o.state, next), arriving[1..]);
      }
    }
  }

  /** A request that does not end is refused, or starves the reader, whatever the
      reads. */
  lemma {:induction false} SettlesShort(s: Parser, a: string, arriving: seq<string>)
    requires NoEmpty(arriving) && RoomyRun(s, a + Concat(arriving))
    requires !Run(s, a + Concat(arriving)).status.Ended?
    ensures var status, whole := Settle(Run(s, a), arriving).0.status, Run(s, a + Concat(arriving)).status;
      !status.Ended? && (status.Rejected? <==> whole.Rejected?)
    decreases |arriving|
  {
    hide Exec, Step, Feed, RoomyRun, PatientRun;
    assert arriving == [] ==> a + Concat(arriving) == a;
    StepBehaves();
    PatientRunIsRoomy(s, a + Concat(arriving));
    var o := Run(s, a);
    PatientAppend(Step, s, a, Concat(arriving));
    FeedUnfolds(Step, o, Concat(arriving));
    if o.status.Hungry? {
      if arriving != [] {
        var all := Concat(arriving);
        var next := o.rest + arriving[0];
        assert o.rest + all == next + Concat(arriving[1..]);
        PatientRunIsRoomy(o.state, o.rest + all);
        SettlesShort(o.state, next, arriving[1..]);
        FeedUnfolds(Step, o, arriving[0]);
        PrependSettle(o.body, Run(o.state, next), arriving[1..]);
      }
    }
  }

  /** Octets that make no request reach no handler: the connection ends with an error
      if they are refused, with end of stream if they stop halfway, and without one if
      nothing came at all. */
  lemma {:induction false} NoRequestServed(limits: Limits, left: nat, forceClose: bool, buffer: string, arriving: seq<string>)
    requires limits.Fits64() && left > 0 && NoEmpty(arriving)
    requires var all := buffer + Concat(arriving); RoomyRun(Fresh(limits), all) && !Run(Fresh(limits), all).status.Ended?
    ensures var all := buffer + Concat(arriving); var r := Serve(limits, left, forceClose, buffer, arriving);
      && r.calls == []
      && if Run(Fresh(limits), all).status.Rejected? then r.error.Some?
         else r.error == if all == "" then None else Some(Eof)
  {
    hide Run, RoomyRun, Settle;
    SettlesShort(Fresh(limits), buffer, arriving);
    SomethingRead(arriving);
  }

  type Exchange = (Request, string)

  function WireOf(e: Exchange): (s: string)
  {
    RequestText(e.0, |e.1|) + e.1
  }

  function WireAll(list: seq<Exchange>): (s: string)
  {
    if list == [] then "" else WireOf(list[0]) + WireAll(list[1..])
  }

  /** What the handler is to be called with. */
  function Calls(list: seq<Exchange>): (r: seq<(Request, string)>)
    ensures |r| == |list|
  {
    if list == [] then [] else [(Received(list[0].0, |list[0].1|), list[0].1)] + Calls(list[1..])
  }

  /** Written under these limits, with room for each line's CR. */
  predicate Written(e: Exchange, limits: Limits)
  {
    RequestError(e.0, |e.1|, limits).None? && Roomy(e.0, |e.1|, limits)
  }

  ghost predicate AllWritten(list: seq<Exchange>, limits: Limits)
  {
    forall i :: 0 <= i < |list| ==> Written(list[i], limits)
  }

  lemma {:induction false} FirstServed(limits: Limits, e: Exchange, rest: string, buffer: string, arriving: seq<string>)
    requires limits.Fits64() && Written(e, limits)
    requires NoEmpty(arriving) && buffer + Concat(arriving) == WireOf(e) + rest
    ensures var (o, more) := Settle(Run(Fresh(limits), buffer), arriving);
      && o.status.Ended? && NoEmpty(more)
      && o.state.request == Received(e.0, |e.1|) && o.body == e.1
      && o.rest + Concat(more) == rest
      && (ShouldKeepAlive(o.state.request) <==> !ClosesAfter(e.0))
  {
    hide Run, RoomyRun, Settle, RequestError, RequestText, Roomy, ShouldKeepAlive, Received, ClosesAfter;
    var (request, body) := e;
    RequestReadBack(limits, request, body, rest);
    SettlesAtEnd(Fresh(limits), buffer, arriving);
    KeepAliveSurvives(request, |body|);
    KeepAliveMeans(request);
  }

  /** A written request and anything after it, however cut: the handler is called
      with the request. If the request closes the connection, or that is forced, or
      no more may be served, that is all. Otherwise serving goes on with exactly
      what comes after. */
  lemma {:induction false} RequestServed(
      limits: Limits, e: Exchange, rest: string, left: nat, forceClose: bool, buffer: string, arriving: seq<string>)
      returns (unread: string, more: seq<string>)
    requires limits.Fits64() && Written(e, limits) && left > 0
    requires NoEmpty(arriving) && buffer + Concat(arriving) == WireOf(e) + rest
    ensures NoEmpty(more) && unread + Concat(more) == rest
    ensures var call := (Received(e.0, |e.1|), e.1); var all := Serve(limits, left, forceClose, buffer, arriving);
      if ClosesAfter(e.0) || forceClose || left == 1 then all == Served([call], None)
      else
        var others := Serve(limits, left - 1, forceClose, unread, more);
        all == Served([call] + others.calls, others.error)
  {
    hide Run, Settle, Received, ClosesAfter, ShouldKeepAlive, WireOf, Written;
    FirstServed(limits, e, rest, buffer, arriving);
    var (o, later) := Settle(Run(Fresh(limits), buffer), arriving);
    unread, more := o.rest, later;
  }

  // ── whole connections ───────────────────────────────────────────────────────

  /** Of this list the first `n` are served: none of them but the last closes the
      connection, and there are no more because that one does, because no more may
      be served or because there are none. */
  ghost predicate Serves(list: seq<Exchange>, left: nat, forceClose: bool, n: nat)
  {
    && n <= |list| && n <= left
    && (forall i :: 0 <= i < n - 1 ==> !forceClose && !ClosesAfter(list[i].0))
    && (n < |list| && n < left ==> n > 0 && (forceClose || ClosesAfter(list[n - 1].0)))
  }

  lemma ServesTail(list: seq<Exchange>, left: nat, forceClose: bool, n: nat)
    requires Serves(list, left, forceClose, n) && left > 0 && list != []
    ensures n >= 1
    ensures ClosesAfter(list[0].0) || forceClose || left == 1 ==> n == 1
    ensures !(ClosesAfter(list[0].0) || forceClose || left == 1) ==> Serves(list[1..], left - 1, forceClose, n - 1)
  {
    hide ClosesAfter;
  }

  /** However the stream is cut into reads, the handler is called with exactly the
      requests that were sent, bodies included, in order, up to the first that
      closes the connection or the limit on requests per connection; then the
      connection ends without an error. */
  lemma {:induction false} PipelinedRequestsServed(
      limits: Limits, list: seq<Exchange>, left: nat, forceClose: bool, n: nat, buffer: string, arriving: seq<string>)
    requires limits.Fits64() && AllWritten(list, limits) && Serves(list, left, forceClose, n)
    requires NoEmpty(arriving) && buffer + Concat(arriving) == WireAll(list)
    ensures Serve(limits, left, forceClose, buffer, arriving) == Served(Calls(list)[..n], None)
    decreases left
  {
    hide Settle, Run, Serve, ClosesAfter, Written, Received, WireOf;
    if left == 0 {
      assert Calls(list)[..0] == [];
      ServedOut(limits, forceClose, buffer, arriving);
    } else if list == [] {
      NothingSent(limits, left, forceClose, buffer, arriving);
    } else {
      var e, tail := list[0], list[1..];
      ServesTail(list, left, forceClose, n);
      var unread, more := RequestServed(limits, e, WireAll(tail), left, forceClose, buffer, arriving);
      assert Calls(list) == [(Received(e.0, |e.1|), e.1)] + Calls(tail);
      if ClosesAfter(e.0) || forceClose || left == 1 {
        assert Calls(list)[..1] == [(Received(e.0, |e.1|), e.1)];
      } else {
        assert AllWritten(tail, limits) by { assert forall i :: 0 <= i < |tail| ==> tail[i] == list[i + 1]; }
        PipelinedRequestsServed(limits, tail, left - 1, forceClose, n - 1, unread, more);
        assert Calls(list)[..n] == [(Received(e.0, |e.1|), e.1)] + Calls(tail)[..n - 1];
      }
    }
  }

  lemma {:induction false} ServedOut(limits: Limits, forceClose: bool, buffer: string, arriving: seq<string>)
    requires limits.Fits64()
    ensures Serve(limits, 0, forceClose, buffer, arriving) == Served([], None)
  {
  }

  lemma {:induction false} SomethingRead(arriving: seq<string>)
    requires NoEmpty(arriving)
    ensures Concat(arriving) == "" <==> arriving == []
  {
  }

  lemma {:induction false} NothingSent(limits: Limits, left: nat, forceClose: bool, buffer: string, arriving: seq<string>)
    requires limits.Fits64() && left > 0 && NoEmpty(arriving) && buffer + Concat(arriving) == WireAll([])
    ensures Serve(limits, left, forceClose, buffer, arriving) == Served([], None)
  {
    SomethingRead(arriving);
    StepBehaves();
    var p := Fresh(limits);
    assert Step(p, "").Starved? by { LineEnds("", limits.allowBareLf); }
    hide Step;
    ExecUnfolds(Step, p, "");
  }
}

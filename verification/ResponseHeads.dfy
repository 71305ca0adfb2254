/** What the response parser makes of every readable head: the case list of
section 6.3 of RFC 9112 as the code has it. */
module ResponseHeads {
  import opened Octets
  import opened Grammar
  import opened HttpMessage
  import opened Lines
  import opened Incremental
  import opened WireSyntax
  import opened ResponseMachine
  import opened ResponseSlicing
  import opened ResponseRoundTrip
  import opened ResponseGrammar

  // ── field lines ─────────────────────────────────────────────────────────────

  predicate FieldLetIn(p: ParserState, f: Field)
  {
    && FieldSize(f) <= p.limits.maxHeaderLine
    && |p.response.headers| + |p.trailers| + 1 <= p.limits.maxHeaderCount
    && p.headerBytes + FieldSize(f) <= p.limits.maxHeadersTotal
  }

  lemma LineRead(f: Field, trailer: bool)
    requires Readable(f)
    ensures var s := LineOf(f);
      && |s| == FieldSize(f) && s != "" && OneLine(s)
      && FieldOf(s, trailer) == if trailer && !MayTrail(f.name) then Err(FramingConflict) else Ok(Kept(f))
  {
    ValidTextIsOneLine(f.name);
    ValidTextIsOneLine(f.value);
    hide FieldOf, MayTrail, TrimOws;
    FieldRead(f.name, f.value, trailer);
  }

  function WithField(p: ParserState, f: Field): (q: ParserState)
  {
    p.(response := p.response.(headers := p.response.headers + [Kept(f)]), headerBytes := p.headerBytes + FieldSize(f))
  }

  lemma {:induction false} RunField(p: Parser, f: Field, rest: string)
    requires p.phase.InHeaders? && Readable(f) && FieldLetIn(p, f)
    ensures WithField(p, f).Valid()
    ensures Run(p, LineOf(f) + CRLF + rest) == Run(WithField(p, f), rest)
  {
    hide Run, FieldOf, LineOf, Readable, Kept, StoredBytes, MayTrail;
    LineRead(f, false);
    assert HandleLine(p, LineOf(f)) == Ok(WithField(p, f));
    HandleLineKeepsLimits(p, LineOf(f));
    hide HandleLine;
    RunLine(p, LineOf(f), rest);
  }

  predicate AllLetIn(p: ParserState, h: Headers)
    decreases |h|
  {
    h != [] ==> FieldLetIn(p, h[0]) && AllLetIn(WithField(p, h[0]), h[1..])
  }

  function WithAll(p: ParserState, h: Headers): (q: ParserState)
    decreases |h|
  {
    if h == [] then p else WithAll(WithField(p, h[0]), h[1..])
  }

  lemma {:induction false} WithAllIs(p: ParserState, h: Headers)
    ensures WithAll(p, h) == p.(response := p.response.(headers := p.response.headers + Trimmed(h)),
                                headerBytes := WithAll(p, h).headerBytes)
    decreases |h|
  {
    hide TrimOws, FieldSize;
    if h != [] {
      WithAllIs(WithField(p, h[0]), h[1..]);
      assert p.response.headers + [Kept(h[0])] + Trimmed(h[1..]) == p.response.headers + Trimmed(h);
    }
  }

  lemma {:induction false} RunAll(p: Parser, h: Headers, rest: string)
    requires p.phase.InHeaders? && AllReadable(h) && AllLetIn(p, h)
    ensures WithAll(p, h).Valid()
    ensures Run(p, LinesOf(h) + rest) == Run(WithAll(p, h), rest)
    decreases |h|
  {
    hide Run, LineOf, Readable, FieldLetIn, ParserState.Valid, Kept;
    if h == [] {
      assert LinesOf(h) + rest == rest;
    } else {
      var more := LinesOf(h[1..]) + rest;
      assert LinesOf(h) + rest == LineOf(h[0]) + CRLF + more;
      RunField(p, h[0], more);
      RunAll(WithField(p, h[0]), h[1..], rest);
    }
  }

  // ── whole heads ─────────────────────────────────────────────────────────────

  /** A head: version, status and reason as written, fields as written. */
  datatype Opening = Opening(version: Version, digits: string, reason: string, fields: Headers)

  function OpeningText(a: Opening): (s: string)
  {
    StatusOf(a.version, a.digits, a.reason) + CRLF + LinesOf(a.fields) + CRLF
  }

  function StatusIn(a: Opening): (n: nat)
    requires ReadableStatus(a.digits, a.reason)
  {
    ParseNumber(a.digits, 10).value
  }

  function Begun(meth: Method, limits: Limits, a: Opening): (p: ParserState)
    requires ReadableStatus(a.digits, a.reason)
  {
    ParserState(limits, meth, InHeaders,
                EMPTY_RESPONSE.(version := a.version, status := StatusIn(a), reason := a.reason), [], 0, 0, 0)
  }

  /** The head can be read, and each line of it fits the limits. */
  predicate OpeningFits(meth: Method, limits: Limits, a: Opening)
  {
    && ReadableStatus(a.digits, a.reason) && |StatusOf(a.version, a.digits, a.reason)| <= limits.maxStartLine
    && AllReadable(a.fields) && AllLetIn(Begun(meth, limits, a), a.fields)
  }

  /** Values of the fields of that name, as stored. */
  function Values(a: Opening, name: string): (v: seq<string>)
  {
    GetAll(Trimmed(a.fields), name)
  }

  /** The parser once it has decided on a body. */
  function Decided(meth: Method, limits: Limits, a: Opening, phase: Phase, kind: BodyKind, length: nat, remaining: nat): (p: ParserState)
    requires ReadableStatus(a.digits, a.reason)
  {
    var q := WithAll(Begun(meth, limits, a), a.fields);
    q.(phase := phase, response := q.response.(bodyKind := kind, contentLength := length), remaining := remaining)
  }

  lemma {:induction false} RunRefused(p: Parser, text: string, rest: string)
    requires ReadsLines(p.phase) && OneLine(text) && |text| <= Cap(p) && HandleLine(p, text).Err?
    ensures Run(p, text + CRLF + rest).status == Rejected(HandleLine(p, text).error)
  {
    hide HandleLine, FindLine, Cap, Exec;
    StepStable();
    LineFound(text, rest, Cap(p), p.limits.allowBareLf);
    ExecUnfolds(Step, p, text + CRLF + rest);
  }

  /** A line that begins with a space continues the field before it; it is refused. */
  lemma {:induction false} FoldedLine(p: Parser, text: string, rest: string)
    requires p.phase.InHeaders? || p.phase.Trailers?
    requires OneLine(text) && text != "" && (text[0] == ' ' || text[0] == '\t') && |text| <= p.limits.maxHeaderLine
    ensures Run(p, text + CRLF + rest).status == Rejected(ObsoleteLineFolding)
  {
    hide Run, ParserState.Valid;
    RunRefused(p, text, rest);
  }

  /** A line feed by itself ends a line as CR LF does where that is allowed, and is
      refused where it is not. */
  lemma {:induction false} BareLineFeed(p: Parser, text: string, rest: string)
    requires ReadsLines(p.phase) && OneLine(text) && |text| <= Cap(p)
    ensures p.limits.allowBareLf ==> SameResult(Run(p, text + "\n" + rest), Run(p, text + CRLF + rest))
    ensures !p.limits.allowBareLf ==> Run(p, text + "\n" + rest).status == Rejected(BadLineEnding)
  {
    hide HandleLine, FindLine, Exec, Cap, ParserState.Valid;
    var bare, full := text + "\n" + rest, text + CRLF + rest;
    LineFound(text, rest, Cap(p), p.limits.allowBareLf);
    BareFound(text, rest, Cap(p), p.limits.allowBareLf);
    StepStable();
    ExecUnfolds(Step, p, bare);
    ExecUnfolds(Step, p, full);
    assert full[|text| + 2..] == rest && bare[|text| + 1..] == rest;
  }

  lemma StatusIsOneLine(a: Opening)
    requires ReadableStatus(a.digits, a.reason)
    ensures OneLine(StatusOf(a.version, a.digits, a.reason))
  {
    ValidTextIsOneLine(a.reason);
    assert AllDigits(a.digits, 10);
    assert DigitValue('\r') >= 10 && DigitValue('\n') >= 10;
    assert OneLine(VersionToken(a.version));
    hide NumeralValue;
  }

  lemma {:induction false} RunToBlank(meth: Method, limits: Limits, a: Opening, rest: string)
    requires limits.Fits64() && OpeningFits(meth, limits, a)
    ensures WithAll(Begun(meth, limits, a), a.fields).Valid()
    ensures Run(Fresh(meth, limits), OpeningText(a) + rest) == Run(WithAll(Begun(meth, limits, a), a.fields), CRLF + rest)
  {
    hide Run, LinesOf, ReadableStatus, AllReadable, AllLetIn, WithAll, StoredBytes, ParseNumber;
    var p, more, line := Fresh(meth, limits), LinesOf(a.fields) + (CRLF + rest), StatusOf(a.version, a.digits, a.reason);
    assert OpeningText(a) + rest == line + CRLF + more;
    StatusIsOneLine(a);
    StatusRead(p, a.version, a.digits, a.reason);
    hide StatusOf, StatusLine;
    assert HandleLine(p, line) == Ok(Begun(meth, limits, a));
    HandleLineKeepsLimits(p, line);
    RunLine(p, line, more);
    RunAll(Begun(meth, limits, a), a.fields, CRLF + rest);
  }

  lemma {:induction false} RunBlankLine(meth: Method, limits: Limits, a: Opening, rest: string)
    requires limits.Fits64() && OpeningFits(meth, limits, a)
    ensures WithAll(Begun(meth, limits, a), a.fields).Valid()
    ensures var e, o := EndOfHeaders(WithAll(Begun(meth, limits, a), a.fields)), Run(Fresh(meth, limits), OpeningText(a) + rest);
      if e.Err? then o.status == Rejected(e.error) else e.value.Valid() && o == Run(e.value, rest)
  {
    hide Run, OpeningText, OpeningFits, EndOfHeaders, StoredBytes, ParseNumber;
    assert ReadableStatus(a.digits, a.reason) by { FitsMeans(meth, limits, a); }
    RunToBlank(meth, limits, a, rest);
    var q: Parser := WithAll(Begun(meth, limits, a), a.fields);
    WithAllIs(Begun(meth, limits, a), a.fields);
    hide WithAll, Trimmed;
    assert "" + CRLF + rest == CRLF + rest;
    assert HandleLine(q, "") == EndOfHeaders(q);
    if EndOfHeaders(q).Ok? {
      HandleLineKeepsLimits(q, "");
      RunLine(q, "", rest);
    } else {
      RunRefused(q, "", rest);
    }
  }

  lemma FitsMeans(meth: Method, limits: Limits, a: Opening)
    requires OpeningFits(meth, limits, a)
    ensures ReadableStatus(a.digits, a.reason)
  {
  }

  lemma DecidedIs(meth: Method, limits: Limits, a: Opening)
    requires ReadableStatus(a.digits, a.reason)
    ensures var q := WithAll(Begun(meth, limits, a), a.fields);
      && q.response.headers == Trimmed(a.fields) && q.response.version == a.version && q.response.status == StatusIn(a)
      && q.limits == limits && q.meth == meth && q.seen == 0 && q.remaining == 0 && q.trailers == []
      && q.response.contentLength == 0 && q == q.(remaining := 0, response := q.response.(contentLength := 0))
  {
    WithAllIs(Begun(meth, limits, a), a.fields);
    hide WithAll, Trimmed, ParseNumber;
    assert [] + Trimmed(a.fields) == Trimmed(a.fields);
  }

  // ── the case list ───────────────────────────────────────────────────────────

  /** The one coding this parser reads. */
  predicate OneChunked(a: Opening)
  {
    var te := Values(a, "Transfer-Encoding");
    a.version == Http11 && |te| == 1 && NamesEqual(te[0], "chunked")
  }

  /** Some number is what every item of every length says. */
  ghost predicate LengthsAgree(a: Opening)
  {
    exists n: nat :: AllAre(LengthItems(Values(a, "Content-Length")), n)
  }

  /** Which heads are refused, and why; in this order. */
  ghost function Refusal(meth: Method, a: Opening): (r: set<Error>)
    requires ReadableStatus(a.digits, a.reason)
  {
    var status, coded, measured := StatusIn(a), Values(a, "Transfer-Encoding") != [], Values(a, "Content-Length") != [];
    if coded && measured then {FramingConflict}
    else if status == 101 || (meth == Connect && 200 <= status <= 299) then {NotSupported}
    else if measured && !LengthsAgree(a) then {MalformedContentLength, InconsistentContentLength}
    else if coded && !OneChunked(a) then {InvalidTransferEncoding}
    else if (status < 200 || status == 204) && (coded || measured) then {FramingConflict}
    else {}
  }

  /** Nothing follows the head of such a response. */
  predicate Bodiless(meth: Method, a: Opening)
    requires ReadableStatus(a.digits, a.reason)
  {
    meth == Head || StatusIn(a) < 200 || StatusIn(a) == 204 || StatusIn(a) == 304
  }

  lemma {:induction false} ItemsOfLengths(values: seq<string>)
    ensures LengthItems(values) == [] <==> values == []
  {
    hide RawItems;
  }

  lemma {:induction false} AgreedErrors(items: seq<string>)
    ensures Agreed(items, None).Err? ==> Agreed(items, None).error in {MalformedContentLength, InconsistentContentLength}
    ensures items != [] ==> (Agreed(items, None).Ok? <==> exists n: nat :: AllAre(items, n))
  {
    AgreedErrorsFrom(items, None);
    hide AllAre, Agreed;
    var r := Agreed(items, None);
    if r.Ok? && r.value.Some? { AgreedMeans(items, None, r.value.value); }
    if items != [] {
      if n: nat :| AllAre(items, n) { AgreedMeans(items, None, n); }
      AgreedMeans(items, None, 0);
    }
  }

  lemma {:induction false} AgreedErrorsFrom(items: seq<string>, sofar: Option<nat>)
    ensures Agreed(items, sofar).Err? ==> Agreed(items, sofar).error in {MalformedContentLength, InconsistentContentLength}
  {
    hide ParseNumber;
    if items != [] { AgreedErrorsFrom(items[1..], ParseNumber(items[0], 10)); }
  }

  /** The framing the code computes, in the terms above. */
  lemma {:induction false} FramingSaid(meth: Method, a: Opening)
    requires ReadableStatus(a.digits, a.reason)
    ensures var f := FramingOf(Trimmed(a.fields), a.version, StatusIn(a), meth);
      && (f.Err? <==> Refusal(meth, a) != {})
      && (f.Err? ==> f.error in Refusal(meth, a))
      && (f.Ok? ==> Values(a, "Transfer-Encoding") == [] || Values(a, "Content-Length") == [])
      && (f.Ok? ==> (f.value.chunked <==> Values(a, "Transfer-Encoding") != []))
      && (f.Ok? ==> (f.value.length.Some? <==> Values(a, "Content-Length") != []))
      && (f.Ok? && f.value.length.Some? ==> AllAre(LengthItems(Values(a, "Content-Length")), f.value.length.value))
  {
    hide GetAll, Trimmed, LengthItems, AllAre, Agreed, NamesEqual, ParseNumber;
    var cl := Values(a, "Content-Length");
    var items := LengthItems(cl);
    ItemsOfLengths(cl);
    AgreedErrors(items);
    AgreedMeans(items, None, 0);
    var r := Agreed(items, None);
    if r.Ok? && r.value.Some? { AgreedMeans(items, None, r.value.value); }
  }

  /** Every readable head is refused for the first fault it has, and otherwise ends
      where its blank line does, or goes on with chunks, with as many octets as its
      length says, or with whatever comes until the stream ends. */
  lemma {:induction false} HeadDecides(meth: Method, limits: Limits, a: Opening, n: nat, rest: string)
    requires limits.Fits64() && OpeningFits(meth, limits, a)
    requires Values(a, "Content-Length") != [] ==> AllAre(LengthItems(Values(a, "Content-Length")), n) || !LengthsAgree(a)
    requires Values(a, "Content-Length") == [] ==> n == 0
    ensures var o := Run(Fresh(meth, limits), OpeningText(a) + rest);
      var coded, measured := Values(a, "Transfer-Encoding") != [], Values(a, "Content-Length") != [];
      if Refusal(meth, a) != {} then o.status.Rejected? && o.status.error in Refusal(meth, a)
      else if Bodiless(meth, a) then
        var q := Decided(meth, limits, a, Done, NoBody, n, 0);
        q.Valid() && o == Progress(q, rest, "", Ended)
      else if coded then
        var q := Decided(meth, limits, a, ChunkSize, Chunked, 0, 0);
        q.Valid() && o == Run(q, rest)
      else if measured then
        if n > limits.maxBodySize then o.status == Rejected(LimitExceeded)
        else
          var q := Decided(meth, limits, a, if n == 0 then Done else InLength, Length, n, n);
          q.Valid() && o == Run(q, rest)
      else
        var q := Decided(meth, limits, a, EofBody, CloseDelimited, 0, 0);
        q.Valid() && o == Run(q, rest)
  {
    hide Run, OpeningText, OpeningFits, WithAll, Trimmed, GetAll, FramingOf, Refusal, LengthItems, AllAre,
      StoredBytes, ParseNumber, LengthsAgree;
    FitsMeans(meth, limits, a);
    hide ReadableStatus;
    RunBlankLine(meth, limits, a, rest);
    DecidedIs(meth, limits, a);
    FramingSaid(meth, a);
    OneNumber(a, n);
    if Refusal(meth, a) == {} && Bodiless(meth, a) {
      RunDone(Decided(meth, limits, a, Done, NoBody, n, 0), rest);
    }
  }

  lemma OneNumber(a: Opening, n: nat)
    ensures var items := LengthItems(Values(a, "Content-Length"));
      && (AllAre(items, n) ==> LengthsAgree(a))
      && forall k: nat :: AllAre(items, k) && AllAre(items, n) && items != [] ==> k == n
    ensures LengthItems(Values(a, "Content-Length")) == [] <==> Values(a, "Content-Length") == []
    ensures Values(a, "Content-Length") != [] && !LengthsAgree(a) ==> forall k: nat :: !AllAre(LengthItems(Values(a, "Content-Length")), k)
  {
    ItemsOfLengths(Values(a, "Content-Length"));
    hide GetAll, LengthItems, ParseNumber;
    var items := LengthItems(Values(a, "Content-Length"));
    assert items != [] ==> forall k: nat :: AllAre(items, k) ==> ParseNumber(items[0], 10) == Some(k);
  }

  lemma {:induction false} RunDone(p: Parser, rest: string)
    requires p.phase.Done?
    ensures Run(p, rest) == Progress(p, rest, "", Ended)
  {
    StepStable();
    ExecUnfolds(Step, p, rest);
  }
}

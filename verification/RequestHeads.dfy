/** What the request parser makes of every readable head. */
module RequestHeads {
  import opened Octets
  import opened Grammar
  import opened HttpMessage
  import opened Lines
  import opened Incremental
  import opened RequestMachine
  import opened RequestSlicing
  import opened WireSyntax
  import opened RequestRoundTrip
  import opened RequestLimits
  import opened RequestGrammar
  import R = ResponseRoundTrip

  // ── field lines ─────────────────────────────────────────────────────────────

  lemma LineRead(f: Field, trailer: bool)
    requires Readable(f)
    ensures var s := LineOf(f);
      |s| == FieldSize(f) && s != "" && R.OneLine(s) && !IsOws(s[0]) && FieldOf(s, trailer) == Ok(Kept(f))
  {
    var s := LineOf(f);
    R.ValidTextIsOneLine(f.name);
    R.ValidTextIsOneLine(f.value);
    TokenHasNoColon(f.name);
    assert s[0] == f.name[0];
    hide TrimOws, AllTchars, AllVchars, FieldOf;
    assert s == Spelled(Kept(f).name, f.value);
    FieldMeans(s, trailer, Kept(f));
  }

  // ── header lines ────────────────────────────────────────────────────────────

  predicate FieldLetIn(p: ParserState, f: Field)
  {
    && FieldSize(f) <= p.limits.maxHeaderLine
    && |p.request.headers| + 1 <= p.limits.maxHeaderCount
    && Add64(p.headersTotal, FieldSize(f)) <= p.limits.maxHeadersTotal
  }

  function WithField(p: ParserState, f: Field): (q: ParserState)
  {
    p.(request := p.request.(headers := p.request.headers + [Kept(f)]),
       headersTotal := Add64(p.headersTotal, FieldSize(f)))
  }

  lemma {:induction false} RunField(p: Parser, f: Field, rest: string)
    requires p.phase.InHeaders? && Readable(f) && FieldLetIn(p, f)
    ensures WithField(p, f).Valid()
    ensures Run(p, LineOf(f) + CRLF + rest) == Run(WithField(p, f), rest)
    ensures RoomyRun(p, LineOf(f) + CRLF + rest) <==>
              FieldSize(f) + 1 <= p.limits.maxHeaderLine && RoomyRun(WithField(p, f), rest)
  {
    hide Run, RoomyRun, FieldOf, LineOf, Readable, Kept, StoredBytes;
    LineRead(f, false);
    HandleLineKeepsLimits(p, LineOf(f));
    RunLine(p, LineOf(f), rest);
  }

  /** Each field in turn fits the limits, sums taken as the code takes them. */
  predicate AllLetIn(p: ParserState, h: Headers)
    decreases |h|
  {
    h != [] ==> FieldLetIn(p, h[0]) && AllLetIn(WithField(p, h[0]), h[1..])
  }

  function WithAll(p: ParserState, h: Headers): (q: ParserState)
    decreases |h|
  {
    if h == [] then p else WithAll(WithField(p, h[0]), h[1..])
  }

  lemma {:induction false} WithAllIs(p: ParserState, h: Headers)
    ensures WithAll(p, h) == p.(request := p.request.(headers := p.request.headers + Trimmed(h)),
                                headersTotal := WithAll(p, h).headersTotal)
    decreases |h|
  {
    hide TrimOws, FieldSize;
    if h != [] {
      WithAllIs(WithField(p, h[0]), h[1..]);
      assert p.request.headers + [Kept(h[0])] + Trimmed(h[1..]) == p.request.headers + Trimmed(h);
    }
  }

  /** Every line leaves room for its CR. */
  predicate RoomyLines(h: Headers, limits: Limits)
  {
    forall i :: 0 <= i < |h| ==> FieldSize(h[i]) + 1 <= limits.maxHeaderLine
  }

  lemma {:induction false} RunAll(p: Parser, h: Headers, rest: string)
    requires p.phase.InHeaders? && AllReadable(h) && AllLetIn(p, h)
    ensures WithAll(p, h).Valid()
    ensures Run(p, LinesOf(h) + rest) == Run(WithAll(p, h), rest)
    ensures RoomyRun(p, LinesOf(h) + rest) <==> RoomyLines(h, p.limits) && RoomyRun(WithAll(p, h), rest)
    decreases |h|
  {
    hide Run, RoomyRun, LineOf, Readable, FieldLetIn, ParserState.Valid, FieldSize, Kept;
    if h == [] {
      assert LinesOf(h) + rest == rest;
    } else {
      var more, tail := LinesOf(h[1..]) + rest, h[1..];
      assert LinesOf(h) + rest == LineOf(h[0]) + CRLF + more;
      RunField(p, h[0], more);
      RunAll(WithField(p, h[0]), tail, rest);
      assert RoomyLines(h, p.limits) <==> FieldSize(h[0]) + 1 <= p.limits.maxHeaderLine && RoomyLines(tail, p.limits) by {
        assert forall i :: 1 <= i < |h| ==> h[i] == tail[i - 1];
      }
    }
  }

  lemma {:induction false} StoredBytesFirst(h: Headers)
    requires h != []
    ensures StoredBytes(h) == FieldSize(h[0]) + StoredBytes(h[1..])
  {
    var n := |h| - 1;
    if n > 0 {
      StoredBytesFirst(h[..n]);
      assert h[1..][..n - 1] == h[..n][1..];
    }
  }

  /** Fields whose sizes sum to no more than the total are all let in. */
  lemma {:induction false} SumLetIn(p: ParserState, h: Headers)
    requires p.limits.Fits64() && AllShort(h, p.limits.maxHeaderLine)
    requires |p.request.headers| + |h| <= p.limits.maxHeaderCount
    requires p.headersTotal + StoredBytes(h) <= p.limits.maxHeadersTotal
    ensures AllLetIn(p, h)
    decreases |h|
  {
    hide StoredBytes, Kept;
    if h != [] {
      StoredBytesFirst(h);
      assert h[0] == h[0] && FieldSize(h[0]) <= p.limits.maxHeaderLine;
      SumLetIn(WithField(p, h[0]), h[1..]);
    }
  }

  // ── whole heads ─────────────────────────────────────────────────────────────

  /** A head: method and target as written, version, fields as written. */
  datatype Preamble = Preamble(meth: string, target: string, version: Version, fields: Headers)

  function StartLine(a: Preamble): (s: string)
  {
    StartOf(a.meth, a.target, VersionToken(a.version))
  }

  function PreambleText(a: Preamble): (s: string)
  {
    StartLine(a) + CRLF + LinesOf(a.fields) + CRLF
  }

  /** The parser past the request line. */
  function Begun(limits: Limits, a: Preamble): (p: ParserState)
  {
    ParserState(limits, InHeaders,
                EMPTY_REQUEST.(meth := MethodFromToken(a.meth), target := a.target, version := a.version), [], 0, 0, 0, 0)
  }

  /** The head can be read, and each line of it fits the limits. */
  predicate HeadFits(limits: Limits, a: Preamble)
  {
    && ReadableStart(a.meth, a.target) && |StartLine(a)| <= limits.maxStartLine
    && AllReadable(a.fields) && AllLetIn(Begun(limits, a), a.fields)
  }

  predicate HeadRoomy(limits: Limits, a: Preamble)
  {
    |StartLine(a)| + 1 <= limits.maxStartLine && RoomyLines(a.fields, limits) && 1 <= limits.maxHeaderLine
  }

  /** The parser once it has decided on a body. */
  function Decided(limits: Limits, a: Preamble, phase: Phase, kind: BodyKind, length: nat): (p: ParserState)
  {
    var q := WithAll(Begun(limits, a), a.fields);
    q.(phase := phase, request := q.request.(bodyKind := kind, contentLength := length), bodyRemaining := length)
  }

  lemma StartIsOneLine(a: Preamble)
    requires ReadableStart(a.meth, a.target)
    ensures R.OneLine(StartLine(a))
  {
    hide VersionToken;
    VersionReadBack(a.version);
    TokenIsOneLine(a.meth);
    JoinedIsOneLine(a.meth, a.target, VersionToken(a.version));
  }

  lemma {:induction false} RunToBlank(limits: Limits, a: Preamble, rest: string)
    requires limits.Fits64() && HeadFits(limits, a)
    ensures WithAll(Begun(limits, a), a.fields).Valid()
    ensures Run(Fresh(limits), PreambleText(a) + rest) == Run(WithAll(Begun(limits, a), a.fields), CRLF + rest)
    ensures RoomyRun(Fresh(limits), PreambleText(a) + rest) <==>
              && |StartLine(a)| + 1 <= limits.maxStartLine && RoomyLines(a.fields, limits)
              && RoomyRun(WithAll(Begun(limits, a), a.fields), CRLF + rest)
  {
    hide Run, RoomyRun, LinesOf, ReadableStart, AllReadable, AllLetIn, WithAll, RoomyLines, StoredBytes;
    var p, more := Fresh(limits), LinesOf(a.fields) + (CRLF + rest);
    assert PreambleText(a) + rest == StartLine(a) + CRLF + more;
    StartIsOneLine(a);
    StartRead(p, a.meth, a.target, a.version);
    hide StartLine, RequestLine, MethodFromToken;
    assert HandleLine(p, StartLine(a)) == Ok(Begun(limits, a));
    HandleLineKeepsLimits(p, StartLine(a));
    RunLine(p, StartLine(a), more);
    RunAll(Begun(limits, a), a.fields, CRLF + rest);
  }

  // ── the blank line ──────────────────────────────────────────────────────────

  lemma {:induction false} RunRefused(p: Parser, text: string, rest: string)
    requires ReadsLines(p) && R.OneLine(text) && HandleLine(p, text).Err?
    ensures Run(p, text + CRLF + rest) == Progress(p, text + CRLF + rest, "", Rejected(HandleLine(p, text).error))
  {
    hide HandleLine, NextLine, Exec;
    LineFound(text, rest, p.limits.allowBareLf);
    StepBehaves();
    ExecUnfolds(Step, p, text + CRLF + rest);
  }

  /** A line that begins with a space continues the field before it. It is refused,
      or, where folding is allowed, dropped. */
  lemma {:induction false} FoldedLine(p: Parser, text: string, rest: string)
    requires p.phase.InHeaders? && R.OneLine(text) && text != "" && (text[0] == ' ' || text[0] == '\t')
    requires |text| <= p.limits.maxHeaderLine
    ensures var o := Run(p, text + CRLF + rest);
      if !p.limits.allowObsoleteLineFolding then o.status == Rejected(ObsoleteLineFolding)
      else if p.request.headers == [] then o.status == Rejected(MalformedHeader)
      else o == Run(p, rest)
  {
    hide Run, ParserState.Valid;
    if HandleLine(p, text).Ok? {
      RunLine(p, text, rest);
    } else {
      RunRefused(p, text, rest);
    }
  }

  /** A line feed by itself ends a line as CR LF does where that is allowed, and is
      refused where it is not. */
  lemma {:induction false} BareLineFeed(p: Parser, text: string, rest: string)
    requires ReadsLines(p) && R.OneLine(text)
    ensures p.limits.allowBareLf ==> SameResult(Run(p, text + "\n" + rest), Run(p, text + CRLF + rest))
    ensures !p.limits.allowBareLf ==> Run(p, text + "\n" + rest).status == Rejected(BadLineEnding)
  {
    hide HandleLine, FindLine, Exec, ParserState.Valid;
    var bare, full := text + "\n" + rest, text + CRLF + rest;
    LineFound(text, rest, p.limits.allowBareLf);
    R.BareFound(text, rest, |bare|, p.limits.allowBareLf);
    StepBehaves();
    ExecUnfolds(Step, p, bare);
    ExecUnfolds(Step, p, full);
    assert full[|text| + 2..] == rest && bare[|text| + 1..] == rest;
  }

  /** Values of the fields of that name, as stored. */
  function Values(a: Preamble, name: string): (v: seq<string>)
  {
    GetAll(Trimmed(a.fields), name)
  }

  /** What the run comes to at the blank line. */
  lemma {:induction false} RunBlankLine(limits: Limits, a: Preamble, rest: string)
    requires limits.Fits64() && HeadFits(limits, a)
    ensures WithAll(Begun(limits, a), a.fields).Valid()
    ensures var e, whole := EndOfHeaders(WithAll(Begun(limits, a), a.fields)), PreambleText(a) + rest;
      if e.Err? then Run(Fresh(limits), whole).status == Rejected(e.error)
      else
        && e.value.Valid()
        && Run(Fresh(limits), whole) == Run(e.value, rest)
        && (RoomyRun(Fresh(limits), whole) <==> HeadRoomy(limits, a) && RoomyRun(e.value, rest))
  {
    hide Run, RoomyRun, PreambleText, HeadFits, EndOfHeaders, RoomyLines, StartLine, StoredBytes;
    RunToBlank(limits, a, rest);
    var q: Parser := WithAll(Begun(limits, a), a.fields);
    WithAllIs(Begun(limits, a), a.fields);
    hide WithAll, Trimmed;
    assert "" + CRLF + rest == CRLF + rest;
    assert HandleLine(q, "") == EndOfHeaders(q);
    if EndOfHeaders(q).Ok? {
      HandleLineKeepsLimits(q, "");
      RunLine(q, "", rest);
    } else {
      RunRefused(q, "", rest);
    }
  }

  lemma DecidedIs(limits: Limits, a: Preamble)
    ensures var q := WithAll(Begun(limits, a), a.fields);
      && q.request.headers == Trimmed(a.fields) && q.request.version == a.version && q.limits == limits
      && q.request.bodyKind == NoBody && q.request.contentLength == 0 && q.bodyRemaining == 0
      && q == q.(bodyRemaining := 0, request := q.request.(contentLength := 0))
  {
    WithAllIs(Begun(limits, a), a.fields);
    hide WithAll, Trimmed, MethodFromToken;
    assert [] + Trimmed(a.fields) == Trimmed(a.fields);
  }

  // ── the four kinds of head ──────────────────────────────────────────────────

  /** Neither framing field: the request ends at its blank line, and whatever
      follows is left alone; so under every cutting if the lines leave room. */
  lemma {:induction false} UnframedRequest(limits: Limits, a: Preamble, rest: string)
    requires limits.Fits64() && HeadFits(limits, a)
    requires Values(a, "Transfer-Encoding") == [] && Values(a, "Content-Length") == []
    ensures Decided(limits, a, Done, NoBody, 0).Valid()
    ensures Run(Fresh(limits), PreambleText(a) + rest) == Progress(Decided(limits, a, Done, NoBody, 0), rest, "", Ended)
    ensures RoomyRun(Fresh(limits), PreambleText(a) + rest) <==> HeadRoomy(limits, a)
  {
    hide Run, RoomyRun, PreambleText, HeadFits, WithAll, Trimmed, HeadRoomy, GetAll;
    RunBlankLine(limits, a, rest);
    DecidedIs(limits, a);
    RunDone(Decided(limits, a, Done, NoBody, 0), rest);
  }

  /** Both: refused, whatever they say. */
  lemma {:induction false} ConflictRefused(limits: Limits, a: Preamble, rest: string)
    requires limits.Fits64() && HeadFits(limits, a)
    requires Values(a, "Transfer-Encoding") != [] && Values(a, "Content-Length") != []
    ensures Run(Fresh(limits), PreambleText(a) + rest).status == Rejected(FramingConflict)
  {
    hide Run, RoomyRun, PreambleText, HeadFits, WithAll, Trimmed, HeadRoomy, GetAll;
    RunBlankLine(limits, a, rest);
    DecidedIs(limits, a);
  }

  /** The coding alone: accepted exactly if the version is 1.1 and the items of all
      its fields are the one item `chunked`. */
  lemma {:induction false} CodedRequest(limits: Limits, a: Preamble, rest: string)
    requires limits.Fits64() && HeadFits(limits, a)
    requires Values(a, "Transfer-Encoding") != [] && Values(a, "Content-Length") == []
    ensures var items := SplitAll(Values(a, "Transfer-Encoding"));
      if a.version == Http11 && |items| == 1 && NamesEqual(items[0], "chunked") then
        && Decided(limits, a, ChunkSize, Chunked, 0).Valid()
        && Run(Fresh(limits), PreambleText(a) + rest) == Run(Decided(limits, a, ChunkSize, Chunked, 0), rest)
        && (RoomyRun(Fresh(limits), PreambleText(a) + rest) <==>
              HeadRoomy(limits, a) && RoomyRun(Decided(limits, a, ChunkSize, Chunked, 0), rest))
      else Run(Fresh(limits), PreambleText(a) + rest).status == Rejected(InvalidTransferEncoding)
  {
    hide Run, RoomyRun, PreambleText, HeadFits, WithAll, Trimmed, HeadRoomy, GetAll, SplitAll;
    RunBlankLine(limits, a, rest);
    DecidedIs(limits, a);
  }

  /** What the items of the length fields come to. */
  lemma {:induction false} LengthsMean(items: seq<string>, n: nat)
    ensures var agreed := Agreed(items, None);
      && (items != [] && AllAre(items, n) ==> agreed == Ok(Some(n)))
      && (agreed.Ok? && agreed.value.Some? ==> items != [] && AllAre(items, agreed.value.value))
  {
    hide AllAre, Agreed;
    AgreedMeans(items, None, n);
    var agreed := Agreed(items, None);
    if agreed.Ok? && agreed.value.Some? {
      AgreedMeans(items, None, agreed.value.value);
    }
  }

  lemma MeasuredEnd(q: ParserState, n: nat)
    requires GetAll(q.request.headers, "Transfer-Encoding") == [] && GetAll(q.request.headers, "Content-Length") != []
    ensures var items := SplitAll(GetAll(q.request.headers, "Content-Length"));
      if items != [] && AllAre(items, n) && n <= q.limits.maxBodySize then
        EndOfHeaders(q) ==
          Ok(q.(request := q.request.(bodyKind := Length, contentLength := n), bodyRemaining := n,
                phase := if n == 0 then Done else InLength))
      else
        (forall k: nat :: !(items != [] && AllAre(items, k) && k <= q.limits.maxBodySize)) ==> EndOfHeaders(q).Err?
  {
    hide GetAll, SplitAll, AllAre, Agreed;
    var items := SplitAll(GetAll(q.request.headers, "Content-Length"));
    LengthsMean(items, n);
    var agreed := Agreed(items, None);
    if agreed.Ok? && agreed.value.Some? && agreed.value.value <= q.limits.maxBodySize {
      var k: nat := agreed.value.value;
      assert items != [] && AllAre(items, k) && k <= q.limits.maxBodySize;
    } else {
      assert EndOfHeaders(q).Err?;
    }
  }

  /** The length alone: accepted exactly if all items of all its fields read as one
      number, within the body limit. */
  lemma {:induction false} MeasuredRequest(limits: Limits, a: Preamble, n: nat, rest: string)
    requires limits.Fits64() && HeadFits(limits, a)
    requires Values(a, "Transfer-Encoding") == [] && Values(a, "Content-Length") != []
    ensures var items := SplitAll(Values(a, "Content-Length"));
      if items != [] && AllAre(items, n) && n <= limits.maxBodySize then
        var phase := if n == 0 then Done else InLength;
        && Decided(limits, a, phase, Length, n).Valid()
        && Run(Fresh(limits), PreambleText(a) + rest) == Run(Decided(limits, a, phase, Length, n), rest)
        && (RoomyRun(Fresh(limits), PreambleText(a) + rest) <==>
              HeadRoomy(limits, a) && RoomyRun(Decided(limits, a, phase, Length, n), rest))
      else
        (forall k: nat :: !(items != [] && AllAre(items, k) && k <= limits.maxBodySize)) ==>
          Run(Fresh(limits), PreambleText(a) + rest).status.Rejected?
  {
    hide Run, RoomyRun, PreambleText, HeadFits, WithAll, Trimmed, HeadRoomy, GetAll, SplitAll, AllAre, EndOfHeaders;
    RunBlankLine(limits, a, rest);
    DecidedIs(limits, a);
    MeasuredEnd(WithAll(Begun(limits, a), a.fields), n);
  }
}

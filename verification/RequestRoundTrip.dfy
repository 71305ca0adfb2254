/** What `write_request_head` accepts, the request parser reads back. */
module RequestRoundTrip {
  import opened Octets
  import opened Grammar
  import opened HttpMessage
  import opened Lines
  import opened Incremental
  import opened Patience
  import opened RequestMachine
  import opened RequestSlicing
  import opened Serializer
  import opened RequestSerializer
  import R = ResponseRoundTrip

  // ── one line at a time ──────────────────────────────────────────────────────

  lemma LineFound(text: string, rest: string, bareLf: bool)
    requires R.OneLine(text)
    ensures NextLine(text + CRLF + rest, bareLf) == Line(text, |text| + 2)
  {
    R.LineFound(text, rest, |text + CRLF + rest|, bareLf);
  }

  function AfterLine(p: Parser, text: string): (q: Parser)
    requires ReadsLines(p) && HandleLine(p, text).Ok?
  {
    HandleLineKeepsLimits(p, text);
    HandleLine(p, text).value
  }

  lemma StepLine(p: Parser, text: string, rest: string)
    requires ReadsLines(p) && R.OneLine(text) && HandleLine(p, text).Ok?
    ensures Step(p, text + CRLF + rest) == Moved(AfterLine(p, text), |text| + 2, "")
    ensures (text + CRLF + rest)[|text| + 2..] == rest
  {
    hide HandleLine, NextLine;
    LineFound(text, rest, p.limits.allowBareLf);
  }

  lemma {:induction false} RunLine(p: Parser, text: string, rest: string)
    requires ReadsLines(p) && R.OneLine(text) && HandleLine(p, text).Ok?
    ensures Run(p, text + CRLF + rest) == Run(AfterLine(p, text), rest)
    ensures RoomyRun(p, text + CRLF + rest) <==> !Overlong(p, |text| + 1) && RoomyRun(AfterLine(p, text), rest)
  {
    StepLine(p, text, rest);
    hide Step, AfterLine, Exec, Overlong;
    StepBehaves();
    ExecUnfolds(Step, p, text + CRLF + rest);
    var o := Run(AfterLine(p, text), rest);
    assert "" + o.body == o.body;
  }

  // ── the request line ────────────────────────────────────────────────────────

  lemma MethodReadBack(m: Method)
    requires !m.Other?
    ensures var s := MethodToken(m); s != "" && AllTchars(s) && MethodFromToken(s) == m
  {
  }

  lemma VersionReadBack(v: Version)
    ensures var s := VersionToken(v);
      (s == "HTTP/1.1" || s == "HTTP/1.0") && (s == "HTTP/1.1" <==> v.Http11?) && ' ' !in s && R.OneLine(s)
  {
  }

  lemma StartParts(meth: string, target: string, version: string)
    requires ' ' !in meth && ' ' !in target
    ensures var text := meth + " " + target + " " + version;
      && Find(text, ' ') == |meth| < |text|
      && text[..|meth|] == meth
      && var tail := text[|meth| + 1..];
         && tail == target + " " + version
         && Find(tail, ' ') == |target| < |tail|
         && tail[..|target|] == target
         && tail[|target| + 1..] == version
  {
    hide Find;
    var text := meth + " " + target + " " + version;
    var tail := text[|meth| + 1..];
    assert text[..|meth|] == meth;
    assert tail == target + " " + version;
    assert tail[..|target|] == target;
    FindUnique(text, ' ', |meth|);
    FindUnique(tail, ' ', |target|);
  }

  lemma TargetIsRead(request: Request)
    requires ValidTarget(request)
    ensures AllTargetChars(request.target) && ' ' !in request.target && R.OneLine(request.target)
  {
  }

  lemma StartReadBack(p: Parser, request: Request)
    requires p.phase.Start? && !request.meth.Other? && ValidTarget(request)
    requires |StartText(request)| <= p.limits.maxStartLine
    ensures R.OneLine(StartText(request))
    ensures HandleLine(p, StartText(request)) ==
      Ok(p.(phase := InHeaders,
            request := p.request.(meth := request.meth, target := request.target, version := request.version)))
  {
    hide Find, MethodToken, MethodFromToken, VersionToken, AllTchars, ValidTarget, AllTargetChars, ParserState.Valid;
    var m, t, v := MethodToken(request.meth), request.target, VersionToken(request.version);
    MethodReadBack(request.meth);
    VersionReadBack(request.version);
    TargetIsRead(request);
    TokenIsOneLine(m);
    StartParts(m, t, v);
    JoinedIsOneLine(m, t, v);
    assert |t| > 0 by { TargetNonEmpty(request); }
    hide R.OneLine;
  }

  lemma JoinedIsOneLine(a: string, b: string, c: string)
    requires R.OneLine(a) && R.OneLine(b) && R.OneLine(c)
    ensures R.OneLine(a + " " + b + " " + c)
  {
  }

  lemma TargetNonEmpty(request: Request)
    requires ValidTarget(request)
    ensures request.target != ""
  {
  }

  lemma TokenIsOneLine(s: string)
    requires AllTchars(s)
    ensures R.OneLine(s) && ' ' !in s
  {
    R.ValidTextIsOneLine(s);
    assert !IsTchar(' ');
  }

  // ── fields ──────────────────────────────────────────────────────────────────

  lemma FieldReadBack(f: Field)
    requires ValidName(f.name) && AllVchars(f.value)
    ensures FieldText(f) != "" && R.OneLine(FieldText(f)) && !IsOws(FieldText(f)[0])
    ensures FieldOf(FieldText(f), false) == Ok(Field(f.name, TrimOws(f.value)))
  {
    hide TrimOws, Find;
    R.ValidTextIsOneLine(f.name);
    R.ValidTextIsOneLine(f.value);
    R.FieldTextParts(f);
    assert !IsTchar(' ') && !IsTchar('\t');
    TrimSkipsSpace(f.value);
    var raw := " " + f.value;
    assert forall i :: 0 <= i < |raw| ==> IsFieldVchar(raw[i]) by {
      assert forall i :: 1 <= i < |raw| ==> raw[i] == f.value[i - 1];
    }
  }

  predicate FieldsFit(p: Parser, h: Headers)
  {
    && |p.request.headers| + |h| <= p.limits.maxHeaderCount
    && p.headersTotal + TextBytes(h) <= p.limits.maxHeadersTotal
    && forall i :: 0 <= i < |h| ==> |FieldText(h[i])| <= p.limits.maxHeaderLine
  }

  function WithFields(p: Parser, h: Headers): (q: ParserState)
  {
    p.(request := p.request.(headers := p.request.headers + Trimmed(h)),
       headersTotal := p.headersTotal + TextBytes(h))
  }

  lemma OneHeader(p: Parser, f: Field)
    requires p.phase.InHeaders? && ValidName(f.name) && AllVchars(f.value) && FieldsFit(p, [f])
    ensures FieldText(f) != "" && R.OneLine(FieldText(f))
    ensures HandleLine(p, FieldText(f)) == Ok(WithFields(p, [f]))
  {
    hide FieldOf;
    FieldReadBack(f);
    var text := FieldText(f);
    assert TextBytes([f]) == |text|;
    assert [f][0] == f && |FieldText([f][0])| <= p.limits.maxHeaderLine;
    assert Trimmed([f]) == [Field(f.name, TrimOws(f.value))];
  }

  /** Every line leaves room for its CR. */
  predicate RoomyFields(h: Headers, limits: Limits)
  {
    forall i :: 0 <= i < |h| ==> |FieldText(h[i])| + 1 <= limits.maxHeaderLine
  }

  lemma {:induction false} FirstFieldFits(p: Parser, h: Headers)
    requires FieldsFit(p, h) && h != []
    ensures FieldsFit(p, [h[0]])
    ensures WithFields(p, [h[0]]).Valid() ==> FieldsFit(WithFields(p, [h[0]]), h[1..])
    ensures p.request.headers + Trimmed([h[0]]) + Trimmed(h[1..]) == p.request.headers + Trimmed(h)
    ensures TextBytes([h[0]]) + TextBytes(h[1..]) == TextBytes(h)
  {
    hide FieldText, TextBytes, Trimmed, ParserState.Valid;
    R.SplitFirst(h);
    var tail := h[1..];
    assert forall i :: 0 <= i < |tail| ==> tail[i] == h[i + 1];
  }

  lemma {:induction false} RunFields(p: Parser, h: Headers, rest: string)
    requires p.phase.InHeaders? && ValidFields(h) && FieldsFit(p, h)
    ensures WithFields(p, h).Valid()
    ensures Run(p, FieldLines(h) + rest) == Run(WithFields(p, h), rest)
    ensures RoomyFields(h, p.limits) && RoomyRun(WithFields(p, h), rest) <==> RoomyRun(p, FieldLines(h) + rest)
    decreases |h|
  {
    hide Run, RoomyRun, FieldText, FieldsFit, TextBytes, Trimmed, ParserState.Valid, HandleLine;
    if h == [] {
      assert WithFields(p, h) == p by { NoFields(p); }
      assert FieldLines(h) + rest == rest;
    } else {
      var f, tail := h[0], h[1..];
      FirstFieldFits(p, h);
      assert FieldLines(h) + rest == FieldText(f) + CRLF + (FieldLines(tail) + rest);
      OneHeader(p, f);
      RunLine(p, FieldText(f), FieldLines(tail) + rest);
      var q: Parser := AfterLine(p, FieldText(f));
      RunFields(q, tail, rest);
      assert WithFields(q, tail) == WithFields(p, h);
      assert forall i :: 0 <= i < |tail| ==> tail[i] == h[i + 1];
    }
  }

  lemma NoFields(p: Parser)
    ensures WithFields(p, []) == p
  {
  }

  // ── framing ─────────────────────────────────────────────────────────────────

  function LengthField(bodySize: nat): (f: Field)
  {
    Field("Content-Length", Numeral(bodySize, 10))
  }

  /** Every field on the wire, in order. */
  function SentFields(request: Request, bodySize: nat): (h: Headers)
  {
    request.headers + [LengthField(bodySize)]
  }

  /** What the other side is to have: values lose surrounding whitespace, and the
      length is there. */
  function Received(request: Request, bodySize: nat): (r: Request)
  {
    Request(request.meth, request.target, request.version,
            Trimmed(request.headers) + [LengthField(bodySize)], Length, bodySize)
  }

  lemma {:induction false} LengthFieldLine(bodySize: nat)
    ensures FieldText(LengthField(bodySize)) == LengthText(bodySize)
    ensures ValidName("Content-Length") && AllVchars(Numeral(bodySize, 10))
    ensures Trimmed([LengthField(bodySize)]) == [LengthField(bodySize)]
  {
    hide Numeral, TrimOws, RawItems;
    R.NumeralIsTrimmed(bodySize);
    assert "Content-Length" + ": " == "Content-Length: ";
    assert "Content-Length" + ": " + Numeral(bodySize, 10) == "Content-Length: " + Numeral(bodySize, 10);
  }

  lemma SentFieldsAre(request: Request, bodySize: nat)
    ensures Trimmed(SentFields(request, bodySize)) == Received(request, bodySize).headers
    ensures FieldLines(SentFields(request, bodySize)) == FieldLines(request.headers) + LengthText(bodySize) + CRLF
    ensures TextBytes(SentFields(request, bodySize)) == TextBytes(request.headers) + |LengthText(bodySize)|
  {
    hide Trimmed, FieldText, LengthText, TextBytes, Numeral;
    LengthFieldLine(bodySize);
    R.TrimmedAppend(request.headers, [LengthField(bodySize)]);
    FieldLinesAppend(request.headers, [LengthField(bodySize)]);
    assert FieldLines([LengthField(bodySize)]) == LengthText(bodySize) + CRLF by { OneFieldLine(LengthField(bodySize)); }
    TextBytesAppend(request.headers, LengthField(bodySize));
    assert FieldLines(request.headers) + (LengthText(bodySize) + CRLF) == FieldLines(request.headers) + LengthText(bodySize) + CRLF;
  }

  lemma OneFieldLine(f: Field)
    ensures FieldLines([f]) == FieldText(f) + CRLF
  {
    hide FieldText;
    assert [f][1..] == [];
    assert FieldText(f) + CRLF + "" == FieldText(f) + CRLF;
  }

  lemma {:induction false} TextBytesAppend(h: Headers, f: Field)
    ensures TextBytes(h + [f]) == TextBytes(h) + |FieldText(f)|
  {
    hide FieldText;
    if h == [] {
      assert h + [f] == [f] && [f][1..] == [];
    } else {
      assert (h + [f])[1..] == h[1..] + [f];
      TextBytesAppend(h[1..], f);
    }
  }

  lemma {:induction false} SentValues(request: Request, bodySize: nat, name: string)
    requires !Contains(request.headers, name)
    ensures GetAll(Received(request, bodySize).headers, name) == GetAll([LengthField(bodySize)], name)
  {
    hide GetAll, Trimmed, Numeral;
    TrimmedContains(request.headers, name);
    GetAllAppend(Trimmed(request.headers), [LengthField(bodySize)], name);
  }

  lemma {:induction false} LengthValues(bodySize: nat)
    ensures GetAll([LengthField(bodySize)], "Content-Length") == [Numeral(bodySize, 10)]
    ensures GetAll([LengthField(bodySize)], "Transfer-Encoding") == []
  {
    hide Numeral;
    assert NamesEqual("Content-Length", "Content-Length");
    assert !NamesEqual("Content-Length", "Transfer-Encoding");
    assert [LengthField(bodySize)][1..] == [];
  }

  lemma {:induction false} OneLengthAgrees(n: nat)
    requires n < TWO_64
    ensures Agreed(SplitAll([Numeral(n, 10)]), None) == Ok(Some(n))
  {
    hide Numeral, RawItems, ParseNumber;
    R.NumeralIsTrimmed(n);
    NumeralRoundTrip(n, 10);
    var s := Numeral(n, 10);
    assert [s][1..] == [];
    assert DropEmpty([s]) == [s] + DropEmpty([s][1..]) == [s];
    assert SplitList(s) == [s];
    assert SplitAll([s]) == [s];
  }

  lemma FramingReadBack(request: Request, bodySize: nat, maxBodySize: nat)
    requires !Contains(request.headers, "Content-Length") && !Contains(request.headers, "Transfer-Encoding")
    requires bodySize <= maxBodySize < TWO_64
    ensures FramingOf(Received(request, bodySize).headers, request.version, maxBodySize) == Ok((Length, bodySize))
  {
    hide GetAll, Trimmed, Agreed, SplitAll, Numeral, OnlyChunked;
    SentValues(request, bodySize, "Content-Length");
    SentValues(request, bodySize, "Transfer-Encoding");
    LengthValues(bodySize);
    OneLengthAgrees(bodySize);
  }

  // ── the head ────────────────────────────────────────────────────────────────

  /** The parser once it has read a head it was sent. */
  function Headed(limits: Limits, request: Request, bodySize: nat): (p: ParserState)
  {
    ParserState(limits, if bodySize == 0 then Done else InLength, Received(request, bodySize), [],
                0, bodySize, 0, TextBytes(SentFields(request, bodySize)))
  }

  function Started(limits: Limits, request: Request): (p: ParserState)
  {
    ParserState(limits, InHeaders,
                EMPTY_REQUEST.(meth := request.meth, target := request.target, version := request.version),
                [], 0, 0, 0, 0)
  }

  /** Every line leaves room for its CR under its cap. */
  predicate Roomy(request: Request, bodySize: nat, limits: Limits)
  {
    && |StartText(request)| + 1 <= limits.maxStartLine
    && RoomyFields(SentFields(request, bodySize), limits)
  }

  lemma {:induction false} RunStart(limits: Limits, request: Request, rest: string)
    requires limits.Fits64() && !request.meth.Other? && ValidTarget(request)
    requires |StartText(request)| <= limits.maxStartLine
    ensures Started(limits, request).Valid()
    ensures Run(Fresh(limits), StartText(request) + CRLF + rest) == Run(Started(limits, request), rest)
    ensures |StartText(request)| + 1 <= limits.maxStartLine && RoomyRun(Started(limits, request), rest) <==>
              RoomyRun(Fresh(limits), StartText(request) + CRLF + rest)
  {
    hide Run, RoomyRun, StartText, HandleLine;
    var p := Fresh(limits);
    StartReadBack(p, request);
    RunLine(p, StartText(request), rest);
    assert AfterLine(p, StartText(request)) == Started(limits, request);
  }

  lemma FieldsSentFit(limits: Limits, request: Request, bodySize: nat)
    requires limits.Fits64() && Sendable(request, bodySize, limits)
    ensures Started(limits, request).Valid()
    ensures ValidFields(SentFields(request, bodySize)) && FieldsFit(Started(limits, request), SentFields(request, bodySize))
  {
    hide FieldText, TextBytes, LengthText, Numeral, ValidName, AllVchars, HostError, ValidTarget, GetAll;
    LengthFieldLine(bodySize);
    SentFieldsAre(request, bodySize);
    var h := SentFields(request, bodySize);
    forall i | 0 <= i < |h|
      ensures ValidName(h[i].name) && AllVchars(h[i].value) && |FieldText(h[i])| <= limits.maxHeaderLine
    {
      assert i < |request.headers| ==> h[i] == request.headers[i];
    }
  }

  lemma {:induction false} RunBlank(limits: Limits, request: Request, bodySize: nat, rest: string)
    requires limits.Fits64() && Sendable(request, bodySize, limits)
    requires WithFields(Started(limits, request), SentFields(request, bodySize)).Valid()
    ensures Headed(limits, request, bodySize).Valid()
    ensures var p: Parser := WithFields(Started(limits, request), SentFields(request, bodySize));
            && Run(p, CRLF + rest) == Run(Headed(limits, request, bodySize), rest)
            && (RoomyRun(Headed(limits, request, bodySize), rest) <==> RoomyRun(p, CRLF + rest))
  {
    hide Run, RoomyRun, FramingOf, SentFields, TextBytes, FieldsSendable, ValidTarget, HostError, GetAll;
    SentFieldsAre(request, bodySize);
    var p: Parser := WithFields(Started(limits, request), SentFields(request, bodySize));
    assert p.request.headers == Received(request, bodySize).headers;
    FramingReadBack(request, bodySize, limits.maxBodySize);
    assert HandleLine(p, "") == Ok(Headed(limits, request, bodySize));
    RunLine(p, "", rest);
    assert "" + CRLF + rest == CRLF + rest;
    assert !Overlong(p, 1) by { LengthLineIsLong(bodySize); }
  }

  lemma LengthLineIsLong(bodySize: nat)
    ensures |LengthText(bodySize)| >= 16
  {
    assert |"Content-Length: "| == 16;
  }

  /** A head the writer accepts under some limits is accepted by the parser under
      the same limits, and read back as it was sent. */
  lemma {:induction false} HeadReadBack(limits: Limits, request: Request, bodySize: nat, rest: string)
    requires limits.Fits64() && RequestError(request, bodySize, limits).None?
    ensures Headed(limits, request, bodySize).Valid()
    ensures Run(Fresh(limits), RequestText(request, bodySize) + rest) == Run(Headed(limits, request, bodySize), rest)
    ensures Roomy(request, bodySize, limits) && RoomyRun(Headed(limits, request, bodySize), rest) <==>
              RoomyRun(Fresh(limits), RequestText(request, bodySize) + rest)
  {
    hide Run, RoomyRun, RequestError, FieldsSendable, TextBytes, FieldLines, StartText, LengthText, ValidFields;
    AcceptsExactly(request, bodySize, limits);
    FieldsSentFit(limits, request, bodySize);
    SentFieldsAre(request, bodySize);
    var h := SentFields(request, bodySize);
    hide SentFields, ValidTarget, HostError, GetAll, FieldsFit, RoomyFields, ParserState.Valid;
    var more := FieldLines(h) + (CRLF + rest);
    assert RequestText(request, bodySize) + rest == StartText(request) + CRLF + more;
    RunStart(limits, request, more);
    RunFields(Started(limits, request), h, CRLF + rest);
    RunBlank(limits, request, bodySize, rest);
  }

  // ── the whole request ───────────────────────────────────────────────────────

  /** The parser once the body is in as well. */
  function Finished(limits: Limits, request: Request, bodySize: nat): (p: ParserState)
  {
    Headed(limits, request, bodySize).(phase := Done, seen := bodySize, bodyRemaining := 0)
  }

  lemma {:induction false} RunDone(p: Parser, rest: string)
    requires p.phase.Done?
    ensures Run(p, rest) == Progress(p, rest, "", Ended) && RoomyRun(p, rest)
  {
  }

  lemma {:induction false} RunBody(p: Parser, body: string, rest: string)
    requires p.phase.InLength? && p.bodyRemaining == |body| && p.seen == 0
    ensures var q := p.(phase := Done, seen := |body|, bodyRemaining := 0);
      q.Valid() && Run(p, body + rest) == Progress(q, rest, body, Ended) && RoomyRun(p, body + rest)
  {
    var input := body + rest;
    var q := p.(phase := Done, seen := |body|, bodyRemaining := 0);
    assert input[..|body|] == body && input[|body|..] == rest;
    assert Step(p, input) == Moved(q, |body|, body);
    StepBehaves();
    hide Step, ParserState.Valid;
    ExecUnfolds(Step, p, input);
    RunDone(q, rest);
    assert body + "" == body;
  }

  /** Whatever the writer accepts, followed by its body and by anything at all, is
      read as one request that ends where the body does. */
  lemma {:induction false} RequestReadBack(limits: Limits, request: Request, body: string, rest: string)
    requires limits.Fits64() && RequestError(request, |body|, limits).None?
    ensures Finished(limits, request, |body|).Valid()
    ensures Run(Fresh(limits), RequestText(request, |body|) + body + rest)
         == Progress(Finished(limits, request, |body|), rest, body, Ended)
    ensures Roomy(request, |body|, limits) <==> RoomyRun(Fresh(limits), RequestText(request, |body|) + body + rest)
  {
    hide Run, RoomyRun, RequestError, RequestText, Received, TextBytes, SentFields, Roomy;
    HeadReadBack(limits, request, |body|, body + rest);
    assert RequestText(request, |body|) + body + rest == RequestText(request, |body|) + (body + rest);
    var p: Parser := Headed(limits, request, |body|);
    if body == "" {
      assert body + rest == rest;
      RunDone(p, rest);
    } else {
      RunBody(p, body, rest);
    }
  }

  /** And if each line leaves room for its CR, however the octets are cut. */
  lemma {:induction false} RequestReadBackSliced(
      limits: Limits, request: Request, body: string, rest: string, slices: seq<string>)
    requires limits.Fits64() && RequestError(request, |body|, limits).None? && Roomy(request, |body|, limits)
    requires Concat(slices) == RequestText(request, |body|) + body + rest
    ensures Finished(limits, request, |body|).Valid()
    ensures Sliced(limits, slices) == Progress(Finished(limits, request, |body|), rest, body, Ended)
  {
    hide Run, Sliced, RoomyRun, RequestText, RequestError, Roomy, Finished;
    RequestReadBack(limits, request, body, rest);
    SlicingIndependentExactly(limits, Concat(slices));
    assert CutsAgree(limits, Concat(slices), slices);
  }

  ghost predicate ReadsBack(limits: Limits, request: Request, body: string, rest: string, slices: seq<string>)
    requires limits.Fits64() && Finished(limits, request, |body|).Valid()
  {
    Concat(slices) == RequestText(request, |body|) + body + rest ==>
      Sliced(limits, slices) == Progress(Finished(limits, request, |body|), rest, body, Ended)
  }

  /** A request the writer accepts is read back under every cutting exactly if each
      of its lines leaves room for its CR. */
  lemma {:induction false} ReadBackExactly(limits: Limits, request: Request, body: string, rest: string)
    requires limits.Fits64() && RequestError(request, |body|, limits).None?
    ensures Finished(limits, request, |body|).Valid()
    ensures (forall slices :: ReadsBack(limits, request, body, rest, slices)) <==> Roomy(request, |body|, limits)
  {
    hide Run, Sliced, RoomyRun, RequestText, RequestError, Roomy, Finished;
    RequestReadBack(limits, request, body, rest);
    var input := RequestText(request, |body|) + body + rest;
    SlicingIndependentExactly(limits, input);
    forall slices ensures CutsAgree(limits, input, slices) <==> ReadsBack(limits, request, body, rest, slices) {
    }
  }

  // ── the documented promise, and where it fails ──────────────────────────────

  /** `GET / HTTP/1.1`, fourteen octets, and a cap of just that. */
  const PLAIN: Request := EMPTY_REQUEST.(target := "/")
  const SMALL: Limits := Limits(14, 0, 0, 0, 0, 0, 0, false, false)

  lemma PlainLine()
    ensures ValidTarget(PLAIN) && |StartText(PLAIN)| == 14
  {
    assert |"GET"| == 3 && |"/"| == 1 && |"HTTP/1.1"| == 8;
  }

  /** A request line exactly as long as allowed is read whole, and refused when
      the read ends between its CR and its LF. */
  lemma TightLineDependsOnReads()
    ensures Run(Fresh(SMALL), StartText(PLAIN) + CRLF).status.Hungry?
    ensures Sliced(SMALL, [StartText(PLAIN) + "\r", "\n"]).status.Rejected?
  {
    PlainLine();
    hide StartText, ValidTarget;
    var text := StartText(PLAIN);
    RunStart(SMALL, PLAIN, "");
    assert text + CRLF + "" == text + CRLF;
    HungryInHeaders(Started(SMALL, PLAIN));
    StartReadBack(Fresh(SMALL), PLAIN);
    CutAtCr(text);
  }

  lemma HungryInHeaders(q: Parser)
    requires q.phase.InHeaders?
    ensures Run(q, "").status.Hungry?
  {
    StepBehaves();
    assert NextLine("", q.limits.allowBareLf).NoLine?;
    ExecUnfolds(Step, q, "");
  }

  lemma CutAtCr(text: string)
    requires |text| == 14 && R.OneLine(text)
    ensures Sliced(SMALL, [text + "\r", "\n"]).status.Rejected?
  {
    StepBehaves();
    var p := Fresh(SMALL);
    var t := text + CRLF;
    var i := 15;
    assert t[..i] == text + "\r" && t[i..] == "\n";
    LineEnds(t[..i], false);
    assert Step(p, t[..i]).Failed?;
    ExecUnfolds(Step, p, t[..i]);
    CutRejected(Step, p, t, i);
  }
}

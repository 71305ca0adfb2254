/** What the serializer writes, the response parser reads back. */
module ResponseRoundTrip {
  import opened Octets
  import opened Grammar
  import opened HttpMessage
  import opened Lines
  import opened Incremental
  import opened ResponseMachine
  import opened ResponseSlicing
  import opened Serializer

  // ── one line at a time ──────────────────────────────────────────────────────

  predicate OneLine(s: string)
  {
    '\r' !in s && '\n' !in s
  }

  lemma LineFound(text: string, rest: string, limit: nat, bareLf: bool)
    requires OneLine(text) && |text| <= limit
    ensures FindLine(text + CRLF + rest, limit, bareLf) == Line(text, |text| + 2)
  {
    var input := text + CRLF + rest;
    assert input[..|text| + 1] == text + "\r";
    FindUnique(input, '\n', |text| + 1);
    assert input[..|text|] == text;
  }

  lemma BareFound(text: string, rest: string, limit: nat, bareLf: bool)
    requires OneLine(text) && |text| <= limit
    ensures FindLine(text + "\n" + rest, limit, bareLf) == if bareLf then Line(text, |text| + 1) else BadLine(BadLineEnding)
  {
    var input := text + "\n" + rest;
    assert input[|text|] == '\n' && input[..|text|] == text;
    assert forall i :: 0 <= i < |text| ==> input[i] == text[i];
    assert Find(input, '\n') == |text|;
  }

  function AfterLine(p: Parser, text: string): (q: Parser)
    requires ReadsLines(p.phase) && HandleLine(p, text).Ok?
  {
    HandleLineKeepsLimits(p, text);
    HandleLine(p, text).value
  }

  lemma RunLine(p: Parser, text: string, rest: string)
    requires ReadsLines(p.phase) && OneLine(text) && |text| <= Cap(p) && HandleLine(p, text).Ok?
    ensures Run(p, text + CRLF + rest) == Run(AfterLine(p, text), rest)
  {
    hide HandleLine, FindLine, Cap, Exec;
    StepStable();
    var input := text + CRLF + rest;
    LineFound(text, rest, Cap(p), p.limits.allowBareLf);
    assert Step(p, input) == Moved(AfterLine(p, text), |text| + 2, "");
    ExecUnfolds(Step, p, input);
    assert input[|text| + 2..] == rest;
    var o := Run(AfterLine(p, text), rest);
    assert "" + o.body == o.body;
  }

  // ── fields ──────────────────────────────────────────────────────────────────

  lemma ValidTextIsOneLine(s: string)
    ensures AllTchars(s) ==> OneLine(s)
    ensures AllVchars(s) ==> OneLine(s)
  {
    assert !IsTchar('\r') && !IsTchar('\n');
  }

  lemma FieldTextParts(f: Field)
    requires ValidName(f.name)
    ensures var text := FieldText(f);
            && Find(text, ':') == |f.name| < |text|
            && text[..|f.name|] == f.name && text[0] == f.name[0]
            && text[|f.name| + 1..] == " " + f.value
  {
    hide Find;
    var text := FieldText(f);
    assert !IsTchar(':');
    assert text[..|f.name|] == f.name;
    FindUnique(text, ':', |f.name|);
  }

  lemma FieldReadBack(f: Field)
    requires ValidName(f.name) && AllVchars(f.value)
    ensures FieldText(f) != "" && OneLine(FieldText(f))
    ensures FieldOf(FieldText(f), false) == Ok(Field(f.name, TrimOws(f.value)))
  {
    hide TrimOws, Find;
    ValidTextIsOneLine(f.name);
    ValidTextIsOneLine(f.value);
    FieldTextParts(f);
    assert !IsTchar(' ') && !IsTchar('\t');
    TrimSkipsSpace(f.value);
    TrimMeaning(f.value);
  }

  predicate FieldsFit(p: Parser, h: Headers)
  {
    && |p.response.headers| + |p.trailers| + |h| <= p.limits.maxHeaderCount
    && p.headerBytes + TextBytes(h) <= p.limits.maxHeadersTotal
    && forall i :: 0 <= i < |h| ==> |FieldText(h[i])| <= p.limits.maxHeaderLine
  }

  function WithFields(p: Parser, h: Headers): (q: ParserState)
  {
    p.(response := p.response.(headers := p.response.headers + Trimmed(h)),
       headerBytes := p.headerBytes + TextBytes(h))
  }

  lemma OneField(p: Parser, f: Field, rest: string)
    requires p.phase.InHeaders? && ValidName(f.name) && AllVchars(f.value) && FieldsFit(p, [f])
    ensures WithFields(p, [f]).Valid()
    ensures Run(p, FieldText(f) + CRLF + rest) == Run(WithFields(p, [f]), rest)
  {
    hide FieldOf, Run;
    FieldReadBack(f);
    var text := FieldText(f);
    assert TextBytes([f]) == |text|;
    assert [f][0] == f && |FieldText([f][0])| <= p.limits.maxHeaderLine;
    assert Trimmed([f]) == [Field(f.name, TrimOws(f.value))];
    assert HandleLine(p, text) == Ok(WithFields(p, [f]));
    RunLine(p, text, rest);
  }

  lemma {:induction false} SplitFirst(h: Headers)
    requires h != []
    ensures Trimmed(h) == Trimmed([h[0]]) + Trimmed(h[1..])
    ensures TextBytes(h) == TextBytes([h[0]]) + TextBytes(h[1..])
    ensures TextBytes([h[0]]) == |FieldText(h[0])|
  {
    hide FieldText, TrimOws;
    assert [h[0]][1..] == [];
  }

  lemma {:induction false} FirstFieldFits(p: Parser, h: Headers)
    requires FieldsFit(p, h) && h != []
    ensures FieldsFit(p, [h[0]])
    ensures WithFields(p, [h[0]]).Valid() ==> FieldsFit(WithFields(p, [h[0]]), h[1..])
    ensures p.response.headers + Trimmed([h[0]]) + Trimmed(h[1..]) == p.response.headers + Trimmed(h)
    ensures TextBytes([h[0]]) + TextBytes(h[1..]) == TextBytes(h)
  {
    hide FieldText, TextBytes, Trimmed, ParserState.Valid;
    SplitFirst(h);
    var f, tail := h[0], h[1..];
    assert forall i :: 0 <= i < |tail| ==> tail[i] == h[i + 1];
  }

  lemma {:induction false} RunFields(p: Parser, h: Headers, rest: string)
    requires p.phase.InHeaders? && ValidFields(h) && FieldsFit(p, h)
    ensures WithFields(p, h).Valid()
    ensures Run(p, FieldLines(h) + rest) == Run(WithFields(p, h), rest)
    decreases |h|
  {
    hide Run, FieldText, FieldsFit, TextBytes, Trimmed, ParserState.Valid;
    if h == [] {
      assert WithFields(p, h) == p by { NoFields(p); }
      assert FieldLines(h) + rest == rest;
    } else {
      var f, tail := h[0], h[1..];
      FirstFieldFits(p, h);
      assert FieldLines(h) + rest == FieldText(f) + CRLF + (FieldLines(tail) + rest);
      OneField(p, f, FieldLines(tail) + rest);
      var q: Parser := WithFields(p, [f]);
      RunFields(q, tail, rest);
      assert WithFields(q, tail) == WithFields(p, h);
    }
  }

  lemma NoFields(p: Parser)
    ensures WithFields(p, []) == p
  {
  }

  // ── the head ────────────────────────────────────────────────────────────────

  lemma {:induction false} ThreeDigits(status: nat)
    requires 100 <= status <= 999
    ensures |Numeral(status, 10)| == 3
  {
    assert |Numeral(status / 10 / 10, 10)| == 1;
    assert |Numeral(status / 10, 10)| == 2;
  }

  lemma DefaultReasonIsText(status: nat)
    ensures AllVchars(DefaultReason(status))
  {
    hide AllVchars;
    InformationalPhrases();
    SuccessPhrases();
    RedirectPhrases();
    RequestPhrases();
    TargetPhrases();
    SizePhrases();
    MediaPhrases();
    ServerPhrases();
    VersionPhrases();
    assert AllVchars("") by { EmptyPhrase(); }
  }

  lemma EmptyPhrase()
    ensures AllVchars("")
  {
  }

  lemma InformationalPhrases()
    ensures AllVchars("Continue")
    ensures AllVchars("Switching Protocols")
    ensures AllVchars("OK")
    ensures AllVchars("Created")
    ensures AllVchars("Accepted")
    ensures AllVchars("No Content")
  {
  }

  lemma SuccessPhrases()
    ensures AllVchars("Partial Content")
    ensures AllVchars("Moved Permanently")
    ensures AllVchars("Found")
    ensures AllVchars("See Other")
    ensures AllVchars("Not Modified")
  {
  }

  lemma RedirectPhrases()
    ensures AllVchars("Temporary Redirect")
    ensures AllVchars("Permanent Redirect")
    ensures AllVchars("Bad Request")
  {
  }

  lemma RequestPhrases()
    ensures AllVchars("Unauthorized")
    ensures AllVchars("Forbidden")
    ensures AllVchars("Not Found")
    ensures AllVchars("Method Not Allowed")
  {
  }

  lemma TargetPhrases()
    ensures AllVchars("Request Timeout")
    ensures AllVchars("Conflict")
    ensures AllVchars("Length Required")
    ensures AllVchars("Content Too Large")
  {
  }

  lemma SizePhrases()
    ensures AllVchars("URI Too Long")
    ensures AllVchars("Unsupported Media Type")
    ensures AllVchars("Too Many Requests")
  {
  }

  lemma MediaPhrases()
    ensures AllVchars("Request Header Fields Too Large")
    ensures AllVchars("Internal Server Error")
  {
  }

  lemma ServerPhrases()
    ensures AllVchars("Not Implemented")
    ensures AllVchars("Service Unavailable")
  {
  }

  lemma VersionPhrases()
    ensures AllVchars("HTTP Version Not Supported")
  {
  }

  lemma StatusReadBack(p: Parser, response: Response)
    requires 100 <= response.status <= 599
    requires response.reason == "" || AllVchars(response.reason)
    ensures OneLine(StatusText(response))
    ensures StatusLine(p, StatusText(response))
            == Ok(p.(phase := InHeaders,
                     response := p.response.(version := response.version, status := response.status,
                                             reason := ReasonText(response))))
  {
    hide ParseNumber, Numeral, DefaultReason;
    var text := StatusText(response);
    var digits := Numeral(response.status, 10);
    ThreeDigits(response.status);
    NumeralRoundTrip(response.status, 10);
    DefaultReasonIsText(response.status);
    ValidTextIsOneLine(ReasonText(response));
    assert text[..8] == VersionToken(response.version);
    assert text[9..12] == digits;
    assert text[13..] == ReasonText(response);
    assert text == text[..8] + " " + digits + " " + ReasonText(response);
  }

  /** The parser after the status line and the fields, before the empty line. */
  function HeadFields(meth: Method, limits: Limits, response: Response, h: Headers): (p: ParserState)
  {
    ParserState(limits, meth, InHeaders,
                EMPTY_RESPONSE.(version := response.version, status := response.status,
                                reason := ReasonText(response), headers := Trimmed(h)),
                [], 0, 0, TextBytes(h))
  }

  predicate HeadFits(limits: Limits, response: Response, h: Headers)
  {
    && |StatusText(response)| <= limits.maxStartLine
    && |h| <= limits.maxHeaderCount
    && TextBytes(h) <= limits.maxHeadersTotal
    && forall i :: 0 <= i < |h| ==> |FieldText(h[i])| <= limits.maxHeaderLine
  }

  lemma {:induction false} RunHead(meth: Method, limits: Limits, response: Response, h: Headers, rest: string)
    requires limits.Fits64() && 100 <= response.status <= 599
    requires response.reason == "" || AllVchars(response.reason)
    requires ValidFields(h) && HeadFits(limits, response, h)
    requires EndOfHeaders(HeadFields(meth, limits, response, h)).Ok?
    ensures HeadFields(meth, limits, response, h).Valid()
    ensures EndOfHeaders(HeadFields(meth, limits, response, h)).value.Valid()
    ensures Run(Fresh(meth, limits), StatusText(response) + CRLF + FieldLines(h) + CRLF + rest)
            == Run(EndOfHeaders(HeadFields(meth, limits, response, h)).value, rest)
  {
    hide Run, StatusText, FieldLines, EndOfHeaders, StatusLine;
    var p0 := Fresh(meth, limits);
    StatusReadBack(p0, response);
    var p1 := AfterLine(p0, StatusText(response));
    var tail := CRLF + rest;
    RunLine(p0, StatusText(response), FieldLines(h) + tail);
    assert StatusText(response) + CRLF + FieldLines(h) + CRLF + rest
        == StatusText(response) + CRLF + (FieldLines(h) + tail);
    RunFields(p1, h, tail);
    var p2: Parser := WithFields(p1, h);
    assert p2 == HeadFields(meth, limits, response, h);
    assert HandleLine(p2, "") == EndOfHeaders(p2);
    RunLine(p2, "", rest);
    assert tail == "" + CRLF + rest;
    HandleLineKeepsLimits(p2, "");
  }

  // ── what the head says about the body ───────────────────────────────────────

  /** A response whose head the writer accepts and the parser has no quarrel with. */
  predicate Sendable(meth: Method, response: Response, framing: Framing)
  {
    && ResponseError(response, framing).None?
    && response.status <= 599 && response.status != 101 && !meth.Connect?
    && (framing.Unframed? ==> StatusForbidsBody(response.status))
  }

  function Announced(status: nat, framing: Framing, bodySize: nat): (f: BodyFraming)
  {
    if StatusForbidsBody(status) || framing.Unframed? then BodyFraming(false, None)
    else if framing.WithLength? then BodyFraming(false, Some(bodySize))
    else BodyFraming(true, None)
  }

  lemma {:induction false} NumeralIsTrimmed(n: nat)
    ensures TrimOws(Numeral(n, 10)) == Numeral(n, 10)
    ensures RawItems(Numeral(n, 10)) == [Numeral(n, 10)]
    ensures AllVchars(Numeral(n, 10))
  {
    hide Numeral, TrimOws, Find;
    var s := Numeral(n, 10);
    TrimNothing(s);
    assert s[..|s|] == s;
    FindUnique(s, ',', |s|);
  }

  lemma {:induction false} TrimmedAppend(a: Headers, b: Headers)
    ensures Trimmed(a + b) == Trimmed(a) + Trimmed(b)
  {
    hide TrimOws;
    if a == [] {
      assert a + b == b;
    } else {
      assert (a + b)[1..] == a[1..] + b;
      TrimmedAppend(a[1..], b);
    }
  }

  lemma {:induction false} WireValues(response: Response, framing: Framing, bodySize: nat, name: string)
    requires !Contains(response.headers, name)
    ensures GetAll(Trimmed(WireFields(response, framing, bodySize)), name)
            == GetAll(Trimmed(FramingFields(response.status, framing, bodySize)), name)
  {
    hide GetAll, Trimmed, FramingFields;
    var own := FramingFields(response.status, framing, bodySize);
    TrimmedAppend(response.headers, own);
    TrimmedContains(response.headers, name);
    GetAllAppend(Trimmed(response.headers), Trimmed(own), name);
  }

  lemma {:induction false} FramingValues(status: nat, framing: Framing, bodySize: nat)
    ensures var own := Trimmed(FramingFields(status, framing, bodySize));
            var f := Announced(status, framing, bodySize);
            && GetAll(own, "Content-Length")
               == (if f.length.Some? then [Numeral(bodySize, 10)] else [])
            && GetAll(own, "Transfer-Encoding") == (if f.chunked then ["chunked"] else [])
  {
    hide Numeral, TrimOws, RawItems;
    NumeralIsTrimmed(bodySize);
    TrimNothing("chunked");
    assert !NamesEqual("Content-Length", "Transfer-Encoding");
    assert !NamesEqual("Transfer-Encoding", "Content-Length");
    assert NamesEqual("Content-Length", "Content-Length");
    assert NamesEqual("Transfer-Encoding", "Transfer-Encoding");
  }

  lemma {:induction false} OneLengthAgrees(n: nat)
    requires n < TWO_64
    ensures Agreed(LengthItems([Numeral(n, 10)]), None) == Ok(Some(n))
    ensures Agreed(LengthItems([]), None) == Ok(None)
  {
    hide Numeral, RawItems, ParseNumber;
    NumeralIsTrimmed(n);
    NumeralRoundTrip(n, 10);
    var s := Numeral(n, 10);
    assert LengthItems([s]) == [s] by { assert [s][1..] == []; }
    assert [s][1..] == [];
  }

  lemma FramingReadBack(meth: Method, response: Response, framing: Framing, bodySize: nat)
    requires Sendable(meth, response, framing) && bodySize < TWO_64
    ensures FramingOf(Trimmed(WireFields(response, framing, bodySize)),
                      response.version, response.status, meth)
            == Ok(Announced(response.status, framing, bodySize))
  {
    hide GetAll, Trimmed, WireFields, FramingFields, ValidFields, Agreed, LengthItems, Numeral;
    WireValues(response, framing, bodySize, "Content-Length");
    WireValues(response, framing, bodySize, "Transfer-Encoding");
    FramingValues(response.status, framing, bodySize);
    OneLengthAgrees(bodySize);
    assert NamesEqual("chunked", "chunked");
  }

  predicate Bodyless(meth: Method, status: nat)
  {
    meth.Head? || StatusForbidsBody(status)
  }

  /** The head as the recipient sees it. */
  function ReceivedHead(meth: Method, response: Response, framing: Framing, bodySize: nat): (r: Response)
  {
    var f := Announced(response.status, framing, bodySize);
    Response(response.version, response.status,
             if response.reason != "" then response.reason else DefaultReason(response.status),
             Trimmed(WireFields(response, framing, bodySize)),
             if Bodyless(meth, response.status) then NoBody
             else if f.chunked then Chunked else Length,
             if f.length.Some? then bodySize else 0)
  }

  /** The parser once the empty line of the head is in. */
  function Headed(meth: Method, limits: Limits, response: Response, framing: Framing, bodySize: nat)
      : (p: ParserState)
  {
    var bodyless := Bodyless(meth, response.status);
    var chunked := Announced(response.status, framing, bodySize).chunked;
    ParserState(limits, meth,
                if bodyless || (!chunked && bodySize == 0) then Done
                else if chunked then ChunkSize else InLength,
                ReceivedHead(meth, response, framing, bodySize), [], 0,
                if bodyless || chunked then 0 else bodySize,
                TextBytes(WireFields(response, framing, bodySize)))
  }

  /** The head, and the body it announces, are within the parser's limits. */
  predicate Fits(meth: Method, limits: Limits, response: Response, framing: Framing, bodySize: nat)
  {
    && limits.Fits64() && bodySize < TWO_64
    && HeadFits(limits, response, WireFields(response, framing, bodySize))
    && (framing.WithLength? && !Bodyless(meth, response.status) ==> bodySize <= limits.maxBodySize)
  }

  lemma WireFieldsValid(response: Response, framing: Framing, bodySize: nat)
    requires ValidFields(response.headers)
    ensures ValidFields(WireFields(response, framing, bodySize))
  {
    hide Numeral, RawItems, TrimOws;
    NumeralIsTrimmed(bodySize);
    assert ValidName("Content-Length") && ValidName("Transfer-Encoding") && AllVchars("chunked");
  }

  lemma HeadEnds(meth: Method, limits: Limits, response: Response, framing: Framing, bodySize: nat)
    requires Sendable(meth, response, framing) && Fits(meth, limits, response, framing, bodySize)
    ensures EndOfHeaders(HeadFields(meth, limits, response, WireFields(response, framing, bodySize)))
            == Ok(Headed(meth, limits, response, framing, bodySize))
  {
    hide FramingOf, WireFields, DefaultReason, HeadFits, ResponseError, TextBytes;
    FramingReadBack(meth, response, framing, bodySize);
  }

  /** Reading the head the serializer wrote. */
  lemma HeadReadBack(
      meth: Method, limits: Limits, response: Response, framing: Framing, bodySize: nat, rest: string)
    requires Sendable(meth, response, framing) && Fits(meth, limits, response, framing, bodySize)
    ensures Headed(meth, limits, response, framing, bodySize).Valid()
    ensures Run(Fresh(meth, limits), HeadText(response, framing, bodySize) + rest)
            == Run(Headed(meth, limits, response, framing, bodySize), rest)
  {
    hide Run, WireFields, StatusText, FieldLines, Headed, HeadFields, EndOfHeaders, HeadFits, GetAll;
    WireFieldsValid(response, framing, bodySize);
    HeadEnds(meth, limits, response, framing, bodySize);
    RunHead(meth, limits, response, WireFields(response, framing, bodySize), rest);
  }

  // ── bodies ──────────────────────────────────────────────────────────────────

  lemma RunLength(p: Parser, body: string, rest: string)
    requires p.phase.InLength? && p.remaining == |body|
    ensures var q := p.(phase := Done, seen := p.seen + |body|, remaining := 0);
            q.Valid() && Run(p, body + rest) == Progress(q, rest, body, Ended)
  {
    StepStable();
    var input := body + rest;
    assert input[..|body|] == body && input[|body|..] == rest;
    var q: Parser := TakeBody(p, |body|);
    assert Step(p, input) == Moved(q, |body|, body);
    ExecUnfolds(Step, p, input);
    ExecUnfolds(Step, q, rest);
    assert body + "" == body;
  }

  lemma RunChunkData(p: Parser, piece: string, rest: string)
    requires p.phase.ChunkData? && p.remaining == |piece|
    ensures var q := p.(phase := ChunkEnd, seen := p.seen + |piece|, remaining := 0);
            q.Valid() && Run(p, piece + rest) == Prepend(piece, Run(q, rest))
  {
    hide Exec;
    StepStable();
    var input := piece + rest;
    assert input[..|piece|] == piece && input[|piece|..] == rest;
    var q := TakeBody(p, |piece|);
    assert Step(p, input) == Moved(q, |piece|, piece);
    ExecUnfolds(Step, p, input);
  }

  /** The hexadecimal size line says exactly how long the chunk is. */
  lemma {:induction false} ChunkSizeReadBack(p: Parser, n: nat)
    requires p.phase.ChunkSize?
    requires n <= p.limits.maxChunkSize && p.seen + n <= p.limits.maxBodySize
    ensures var text := Numeral(n, 16);
            && OneLine(text) && |text| <= Cap(p)
            && ChunkSizeLine(p, text)
               == Ok(p.(remaining := n, phase := if n != 0 then ChunkData else Trailers))
  {
    hide Numeral, ParseNumber, Find;
    var text := Numeral(n, 16);
    SixteenHexDigits();
    NumeralLength(n, 16, 16);
    NumeralRoundTrip(n, 16);
    assert text[..|text|] == text;
    FindUnique(text, ';', |text|);
  }

  lemma RunChunk(p: Parser, piece: string, rest: string)
    requires p.phase.ChunkSize? && p.remaining == 0 && piece != ""
    requires |piece| <= p.limits.maxChunkSize && p.seen + |piece| <= p.limits.maxBodySize
    ensures var q := p.(seen := p.seen + |piece|);
            q.Valid() && Run(p, ChunkText(piece) + rest) == Prepend(piece, Run(q, rest))
  {
    hide Run, Numeral, ChunkSizeLine;
    var size := Numeral(|piece|, 16);
    ChunkSizeReadBack(p, |piece|);
    var p1 := AfterLine(p, size);
    assert ChunkText(piece) + rest == size + CRLF + (piece + (CRLF + rest));
    RunLine(p, size, piece + (CRLF + rest));
    RunChunkData(p1, piece, CRLF + rest);
    var p2: Parser := p1.(phase := ChunkEnd, seen := p.seen + |piece|, remaining := 0);
    assert CRLF + rest == "" + CRLF + rest;
    RunLine(p2, "", rest);
  }

  lemma RunLastChunk(p: Parser, rest: string)
    requires p.phase.ChunkSize? && p.remaining == 0
    ensures p.(phase := Done).Valid()
    ensures Run(p, LAST_CHUNK + rest) == Progress(p.(phase := Done), rest, "", Ended)
  {
    hide Numeral, ChunkSizeLine, Exec;
    assert Numeral(0, 16) == "0" by { ZeroNumeral(); }
    ChunkSizeReadBack(p, 0);
    var p1 := AfterLine(p, "0");
    assert LAST_CHUNK + rest == "0" + CRLF + (CRLF + rest);
    RunLine(p, "0", CRLF + rest);
    assert CRLF + rest == "" + CRLF + rest;
    RunLine(p1, "", rest);
    var p2 := AfterLine(p1, "");
    StepStable();
    ExecUnfolds(Step, p2, rest);
  }

  lemma ZeroNumeral()
    ensures Numeral(0, 16) == "0"
  {
  }
}

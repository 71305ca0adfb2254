/** The response parser as a machine over octet strings.

`Step` does what one pass of the parser's loop does to its state and its input;
`Exec` repeats it until the input starves it, the message ends or it is
rejected. The class in ResponseParser.dfy is proved to compute these.
*/
module ResponseMachine {
  import opened Octets
  import opened Grammar
  import opened HttpMessage
  import opened Lines
  import opened Incremental

  datatype Phase =
    Start | InHeaders | InLength | ChunkSize | ChunkData | ChunkEnd | Trailers | EofBody | Done

  datatype ParserState = ParserState(
    limits: Limits,
    meth: Method,
    phase: Phase,
    response: Response,
    trailers: Headers,
    seen: nat,
    remaining: nat,
    headerBytes: nat)
  {
    /** What the limits promise in every reachable state, and why no unsigned
        subtraction below can wrap. */
    predicate Valid()
    {
      && limits.Fits64()
      && seen <= limits.maxBodySize
      && (phase.Start? || phase.InHeaders? ==> seen == 0)
      && (phase.InLength? || phase.ChunkData? ==> 0 < remaining)
      && (phase.InLength? || phase.ChunkData? ==> seen + remaining <= limits.maxBodySize)
      && |response.headers| + |trailers| <= limits.maxHeaderCount
      && headerBytes <= limits.maxHeadersTotal
      && StoredBytes(response.headers) + StoredBytes(trailers) <= headerBytes
      && response.contentLength < TWO_64
    }
  }

  /** The states that respect their limits. */
  type Parser = p: ParserState | p.Valid()
    witness ParserState(NO_LIMITS, Get, Start, EMPTY_RESPONSE, [], 0, 0, 0)

  function Fresh(meth: Method, limits: Limits): (p: Parser)
    requires limits.Fits64()
  {
    ParserState(limits, meth, Start, EMPTY_RESPONSE, [], 0, 0, 0)
  }

  /** How long a line may be in each phase. */
  function Cap(p: ParserState): (n: nat)
  {
    match p.phase
    case Start => p.limits.maxStartLine
    case ChunkSize =>
      if p.limits.maxChunkExtension > SIZE_MAX - 32 then SIZE_MAX
      else p.limits.maxChunkExtension + 32
    case ChunkEnd => 0
    case _ => p.limits.maxHeaderLine
  }

  // ── one line in each phase ──────────────────────────────────────────────────

  function StatusLine(p: ParserState, text: string): (r: Result<ParserState>)
  {
    if |text| < 13 || text[8] != ' ' || text[12] != ' ' then Err(MalformedStartLine)
    else if text[..8] != "HTTP/1.1" && text[..8] != "HTTP/1.0" then Err(UnsupportedVersion)
    else
      var status := ParseNumber(text[9..12], 10);
      if status.None? || status.value < 100 || status.value > 599 then Err(MalformedStartLine)
      else if !AllVchars(text[13..]) then Err(MalformedStartLine)
      else
        var version := if text[..8] == "HTTP/1.1" then Http11 else Http10;
        Ok(p.(phase := InHeaders,
              response := p.response.(version := version, status := status.value,
                                      reason := text[13..])))
  }

  predicate ForbiddenTrailer(name: string)
  {
    || NamesEqual(name, "Content-Length") || NamesEqual(name, "Transfer-Encoding")
    || NamesEqual(name, "Host") || NamesEqual(name, "Connection") || NamesEqual(name, "Trailer")
  }

  /** The field a line spells, whatever the limits say about it. */
  function FieldOf(text: string, trailer: bool): (r: Result<Field>)
    requires text != ""
  {
    var colon := Find(text, ':');
    if IsOws(text[0]) then Err(ObsoleteLineFolding)
    else if colon == 0 || colon == |text| then Err(MalformedHeader)
    else
      var name := text[..colon];
      var value := TrimOws(text[colon + 1..]);
      if IsOws(name[|name| - 1]) then Err(WhitespaceBeforeColon)
      else if !AllTchars(name) then Err(MalformedHeader)
      else if !AllVchars(value) then Err(MalformedHeader)
      else if trailer && ForbiddenTrailer(name) then Err(FramingConflict)
      else Ok(Field(name, value))
  }

  function FieldLine(p: ParserState, text: string): (r: Result<ParserState>)
    requires text != ""
  {
    var f := FieldOf(text, p.phase.Trailers?);
    if f.Err? then Err(f.error)
    else if |p.response.headers| + |p.trailers| >= p.limits.maxHeaderCount
         || |text| > Sub64(p.limits.maxHeadersTotal, p.headerBytes) then Err(LimitExceeded)
    else if p.phase.Trailers? then
      Ok(p.(headerBytes := Add64(p.headerBytes, |text|), trailers := p.trailers + [f.value]))
    else
      Ok(p.(headerBytes := Add64(p.headerBytes, |text|),
            response := p.response.(headers := p.response.headers + [f.value])))
  }

  /** Every item of every Content-Length field; an empty item is an item. */
  function LengthItems(values: seq<string>): (items: seq<string>)
  {
    if values == [] then [] else RawItems(values[0]) + LengthItems(values[1..])
  }

  /** What the headers say about the body. `None` stands for not mentioned. */
  datatype BodyFraming = BodyFraming(chunked: bool, length: Option<nat>)

  function FramingOf(h: Headers, version: Version, status: nat, meth: Method): (r: Result<BodyFraming>)
  {
    var te := GetAll(h, "Transfer-Encoding");
    var cl := GetAll(h, "Content-Length");
    if te != [] && cl != [] then Err(FramingConflict)
    else if status == 101 || (meth.Connect? && 200 <= status < 300) then Err(NotSupported)
    else
      var length := Agreed(LengthItems(cl), None);
      if length.Err? then Err(length.error)
      else if te != [] && (version.Http10? || |te| != 1 || !NamesEqual(te[0], "chunked")) then
        Err(InvalidTransferEncoding)
      else if (status < 200 || status == 204) && (te != [] || cl != []) then Err(FramingConflict)
      else Ok(BodyFraming(te != [], length.value))
  }

  function EndOfHeaders(p: ParserState): (r: Result<ParserState>)
  {
    var f := FramingOf(p.response.headers, p.response.version, p.response.status, p.meth);
    if f.Err? then Err(f.error)
    else
      var length := f.value.length;
      var response := if length.Some? then p.response.(contentLength := length.value) else p.response;
      if p.meth.Head? || StatusForbidsBody(p.response.status) then
        Ok(p.(response := response.(bodyKind := NoBody), phase := Done))
      else if f.value.chunked then
        Ok(p.(response := response.(bodyKind := Chunked), phase := ChunkSize))
      else if length.Some? then
        if length.value > p.limits.maxBodySize then Err(LimitExceeded)
        else
          Ok(p.(response := response.(bodyKind := Length), remaining := length.value,
                phase := if length.value != 0 then InLength else Done))
      else
        Ok(p.(response := response.(bodyKind := CloseDelimited), phase := EofBody))
  }

  function ChunkSizeLine(p: ParserState, text: string): (r: Result<ParserState>)
  {
    var semicolon := Find(text, ';');
    var n := ParseNumber(text[..semicolon], 16);
    if n.None? then Err(MalformedChunk)
    else if semicolon < |text| && |text| - semicolon - 1 > p.limits.maxChunkExtension then
      Err(LimitExceeded)
    else if semicolon < |text| && !AllVchars(text[semicolon + 1..]) then Err(MalformedChunk)
    else if n.value > p.limits.maxChunkSize || n.value > Sub64(p.limits.maxBodySize, p.seen) then
      Err(LimitExceeded)
    else Ok(p.(remaining := n.value, phase := if n.value != 0 then ChunkData else Trailers))
  }

  predicate ReadsLines(phase: Phase)
  {
    phase.Start? || phase.InHeaders? || phase.ChunkSize? || phase.ChunkEnd? || phase.Trailers?
  }

  /** The state after one complete line. */
  function HandleLine(p: ParserState, text: string): (r: Result<ParserState>)
  {
    match p.phase
    case Start => StatusLine(p, text)
    case InHeaders => if text == "" then EndOfHeaders(p) else FieldLine(p, text)
    case Trailers => if text == "" then Ok(p.(phase := Done)) else FieldLine(p, text)
    case ChunkSize => ChunkSizeLine(p, text)
    case _ => Ok(p.(phase := ChunkSize))
  }

  // ── steps ───────────────────────────────────────────────────────────────────

  /** How many octets of `input` belong to the body. */
  function BodyCount(p: Parser, input: string): (n: nat)
    ensures n <= |input|
  {
    if p.phase.EofBody? || p.remaining > |input| then |input| else p.remaining
  }

  /** The state after `n` octets of body. */
  function TakeBody(p: Parser, n: nat): (r: ParserState)
  {
    if p.phase.EofBody? then p.(seen := Add64(p.seen, n))
    else
      var left := Sub64(p.remaining, n);
      p.(seen := Add64(p.seen, n), remaining := left,
         phase := if left != 0 then p.phase else if p.phase.InLength? then Done else ChunkEnd)
  }

  // ── the limits hold in every state a step reaches ───────────────────────────

  /** The field check, said without wrap-around. */
  lemma FieldLineMeans(p: Parser, text: string)
    requires text != "" && ReadsLines(p.phase)
    ensures FieldLine(p, text).Ok? <==>
              && FieldOf(text, p.phase.Trailers?).Ok?
              && |p.response.headers| + |p.trailers| + 1 <= p.limits.maxHeaderCount
              && p.headerBytes + |text| <= p.limits.maxHeadersTotal
    ensures FieldLine(p, text).Ok? ==> FieldLine(p, text).value.headerBytes == p.headerBytes + |text|
  {
    hide FieldOf, StoredBytes;
  }

  lemma FieldLineKeepsLimits(p: Parser, text: string)
    requires text != "" && ReadsLines(p.phase)
    requires FieldLine(p, text).Ok?
    ensures FieldLine(p, text).value.Valid()
  {
    var f := FieldOf(text, p.phase.Trailers?).value;
    TrimMeaning(text[Find(text, ':') + 1..]);
    StoredBytesAppend(p.trailers, f);
    StoredBytesAppend(p.response.headers, f);
  }

  lemma HandleLineKeepsLimits(p: Parser, text: string)
    requires ReadsLines(p.phase) && HandleLine(p, text).Ok?
    ensures HandleLine(p, text).value.Valid()
  {
    match p.phase
    case InHeaders =>
      if text == "" {
        AgreedFits(LengthItems(GetAll(p.response.headers, "Content-Length")), None);
      } else {
        FieldLineKeepsLimits(p, text);
      }
    case Trailers =>
      if text != "" {
        FieldLineKeepsLimits(p, text);
      }
    case _ =>
  }

  lemma TakeBodyKeepsLimits(p: Parser, n: nat)
    requires !ReadsLines(p.phase) && !p.phase.Done?
    requires p.phase.EofBody? || n <= p.remaining
    requires n <= p.limits.maxBodySize - p.seen
    ensures TakeBody(p, n).Valid()
  {
  }

  function BodyStep(p: Parser, input: string): (r: StepResult<Parser>)
    requires !ReadsLines(p.phase) && !p.phase.Done?
    ensures r.Moved? ==> 0 < r.consumed <= |input|
  {
    if input == "" then Starved
    else
      var n := BodyCount(p, input);
      if n > Sub64(p.limits.maxBodySize, p.seen) then Failed(LimitExceeded)
      else
        TakeBodyKeepsLimits(p, n);
        Moved(TakeBody(p, n), n, input[..n])
  }

  function LineStep(p: Parser, input: string): (r: StepResult<Parser>)
    requires ReadsLines(p.phase)
    ensures r.Moved? ==> 0 < r.consumed <= |input|
  {
    match FindLine(input, Cap(p), p.limits.allowBareLf)
    case NoLine => Starved
    case BadLine(e) => Failed(e)
    case Line(text, n) =>
      match HandleLine(p, text)
      case Err(e) => Failed(e)
      case Ok(next) =>
        HandleLineKeepsLimits(p, text);
        Moved(next, n, "")
  }

  /** One pass of the parser's loop. */
  function Step(p: Parser, input: string): (r: StepResult<Parser>)
    ensures r.Moved? ==> 0 < r.consumed <= |input|
  {
    if p.phase.Done? then Finished
    else if ReadsLines(p.phase) then LineStep(p, input)
    else BodyStep(p, input)
  }
}

/** The request parser as a machine over octet strings, in the same form as the
response parser: `Step` is one pass of the parser's loop. */
module RequestMachine {
  import opened Octets
  import opened Grammar
  import opened HttpMessage
  import opened Lines
  import opened Incremental

  /** In `ChunkData` with nothing remaining the chunk's own line end is due. */
  datatype Phase = Start | InHeaders | InLength | ChunkSize | ChunkData | Trailers | Done

  datatype ParserState = ParserState(
    limits: Limits,
    phase: Phase,
    request: Request,
    trailers: Headers,
    seen: nat,
    bodyRemaining: nat,
    chunkRemaining: nat,
    headersTotal: nat)
  {
    /** What holds in every reachable state. The body and header bounds need
        limits whose sums fit 64 bits; the code adds before it compares. */
    predicate Valid()
    {
      && limits.Fits64()
      && seen < TWO_64 && bodyRemaining < TWO_64 && chunkRemaining < TWO_64
      && request.contentLength < TWO_64
      && (phase.Start? || phase.InHeaders? ==> seen == 0)
      && (phase.InLength? ==> 0 < bodyRemaining && seen + bodyRemaining <= limits.maxBodySize)
      && (BodySumFits(limits) && phase.ChunkData? ==> seen + chunkRemaining <= limits.maxBodySize)
      && (BodySumFits(limits) ==> seen <= limits.maxBodySize)
      && |request.headers| <= limits.maxHeaderCount
      && |trailers| <= limits.maxHeaderCount
      && headersTotal <= limits.maxHeadersTotal
      && (HeaderSumFits(limits) ==> StoredBytes(request.headers) <= headersTotal)
    }
  }

  /** No chunk size can carry the body count past 64 bits. */
  predicate BodySumFits(limits: Limits)
  {
    limits.maxBodySize + limits.maxChunkSize < TWO_64
  }

  predicate HeaderSumFits(limits: Limits)
  {
    limits.maxHeadersTotal + limits.maxHeaderLine < TWO_64
  }

  type Parser = p: ParserState | p.Valid()
    witness ParserState(NO_LIMITS, Start, EMPTY_REQUEST, [], 0, 0, 0, 0)

  function Fresh(limits: Limits): (p: Parser)
    requires limits.Fits64()
  {
    ParserState(limits, Start, EMPTY_REQUEST, [], 0, 0, 0, 0)
  }

  // ── lines ───────────────────────────────────────────────────────────────────

  predicate ReadsLines(p: ParserState)
  {
    || p.phase.Start? || p.phase.InHeaders? || p.phase.ChunkSize? || p.phase.Trailers?
    || (p.phase.ChunkData? && p.chunkRemaining == 0)
  }

  /** `next_line`: the search itself knows no limit. */
  function NextLine(input: string, bareLf: bool): (r: LineResult)
    ensures r.Line? ==> 0 < r.consumed <= |input|
  {
    FindLine(input, |input|, bareLf)
  }

  /** Exactly the lines the input starts with, however long. */
  lemma NextLineMeans(input: string, bareLf: bool, text: string, n: nat)
    ensures NextLine(input, bareLf) == Line(text, n) <==>
              '\r' !in text && '\n' !in text && n <= |input| && Terminated(input[..n], text, bareLf)
    ensures NextLine(input, bareLf).NoLine? ==> '\n' !in input
  {
    hide FindLine;
    LineMeans(input, |input|, bareLf, text, n);
    if n <= |input| && Terminated(input[..n], text, bareLf) {
      assert |text| <= |input[..n]|;
    }
  }

  /** Whether that many octets without a line end are refused. They include a CR
      that waits for its LF. The line after chunk data has no bound. */
  predicate Overlong(p: ParserState, n: nat)
  {
    match p.phase
    case Start => n > p.limits.maxStartLine
    case ChunkSize => n > Add64(p.limits.maxChunkExtension, 32)
    case ChunkData => false
    case _ => n > p.limits.maxHeaderLine
  }

  predicate IsTargetChar(c: char)
  {
    c > ' ' && c != '\U{7F}'
  }

  predicate AllTargetChars(s: string)
  {
    forall i :: 0 <= i < |s| ==> IsTargetChar(s[i])
  }

  function RequestLine(p: ParserState, text: string): (r: Result<ParserState>)
  {
    var first := Find(text, ' ');
    if |text| > p.limits.maxStartLine then Err(LimitExceeded)
    else if first == |text| || first == 0 then Err(MalformedStartLine)
    else
      var tail := text[first + 1..];
      var second := Find(tail, ' ');
      if second == |tail| || second == 0 then Err(MalformedStartLine)
      else
        var meth, target, version := text[..first], tail[..second], tail[second + 1..];
        if ' ' in version || !AllTchars(meth) || !AllTargetChars(target) then Err(MalformedStartLine)
        else if version != "HTTP/1.1" && version != "HTTP/1.0" then Err(UnsupportedVersion)
        else
          Ok(p.(phase := InHeaders,
                request := p.request.(meth := MethodFromToken(meth), target := target,
                                      version := if version == "HTTP/1.1" then Http11 else Http10)))
  }

  /** The name and value a line spells; a trailer's value is not looked at. */
  function FieldOf(text: string, trailer: bool): (r: Result<Field>)
    requires text != ""
  {
    var colon := Find(text, ':');
    if colon == 0 || colon == |text| then Err(MalformedHeader)
    else
      var name := text[..colon];
      if IsOws(name[|name| - 1]) then Err(WhitespaceBeforeColon)
      else if !AllTchars(name) then Err(MalformedHeader)
      else if !trailer && !AllVchars(text[colon + 1..]) then Err(MalformedHeader)
      else Ok(Field(name, TrimOws(text[colon + 1..])))
  }

  function HeaderLine(p: ParserState, text: string): (r: Result<ParserState>)
    requires text != ""
  {
    if |text| > p.limits.maxHeaderLine then Err(LimitExceeded)
    else if IsOws(text[0]) then
      if !p.limits.allowObsoleteLineFolding then Err(ObsoleteLineFolding)
      else if p.request.headers == [] then Err(MalformedHeader)
      else Ok(p)
    else
      var f := FieldOf(text, false);
      if f.Err? then Err(f.error)
      else if |p.request.headers| + 1 > p.limits.maxHeaderCount then Err(LimitExceeded)
      else
        var total := Add64(p.headersTotal, |text|);
        if total > p.limits.maxHeadersTotal then Err(LimitExceeded)
        else
          Ok(p.(headersTotal := total,
                request := p.request.(headers := p.request.headers + [f.value])))
  }

  function TrailerLine(p: ParserState, text: string): (r: Result<ParserState>)
    requires text != ""
  {
    if |text| > p.limits.maxHeaderLine then Err(LimitExceeded)
    else
      var f := FieldOf(text, true);
      if f.Err? then Err(f.error)
      else if |p.trailers| + 1 > p.limits.maxHeaderCount then Err(LimitExceeded)
      else Ok(p.(trailers := p.trailers + [f.value]))
  }

  // ── framing ─────────────────────────────────────────────────────────────────

  /** Every item of every field, empty ones dropped. */
  function SplitAll(values: seq<string>): (items: seq<string>)
  {
    if values == [] then [] else SplitList(values[0]) + SplitAll(values[1..])
  }

  predicate OnlyChunked(codings: seq<string>)
  {
    |codings| == 1 && NamesEqual(codings[0], "chunked")
  }

  /** How the body is delimited, and its length if that is declared. */
  function FramingOf(h: Headers, version: Version, maxBodySize: nat): (r: Result<(BodyKind, nat)>)
  {
    var te := GetAll(h, "Transfer-Encoding");
    var cl := GetAll(h, "Content-Length");
    if te != [] && cl != [] then Err(FramingConflict)
    else if te != [] then
      if version.Http10? || !OnlyChunked(SplitAll(te)) then Err(InvalidTransferEncoding) else Ok((Chunked, 0))
    else if cl != [] then
      var length := Agreed(SplitAll(cl), None);
      if length.Err? then Err(length.error)
      else if length.value.None? then Err(MalformedContentLength)
      else if length.value.value > maxBodySize then Err(LimitExceeded)
      else Ok((Length, length.value.value))
    else Ok((NoBody, 0))
  }

  function EndOfHeaders(p: ParserState): (r: Result<ParserState>)
  {
    var f := FramingOf(p.request.headers, p.request.version, p.limits.maxBodySize);
    if f.Err? then Err(f.error)
    else
      var (kind, length) := f.value;
      var q := p.(request := p.request.(bodyKind := kind));
      match kind
      case Length =>
        Ok(q.(request := q.request.(contentLength := length), bodyRemaining := length,
              phase := if length == 0 then Done else InLength))
      case Chunked => Ok(q.(phase := ChunkSize))
      case _ => Ok(q.(phase := Done))
  }

  function ChunkSizeLine(p: ParserState, text: string): (r: Result<ParserState>)
  {
    var semicolon := Find(text, ';');
    if semicolon < |text| && |text| - semicolon - 1 > p.limits.maxChunkExtension then Err(LimitExceeded)
    else
      var n := ParseNumber(text[..semicolon], 16);
      if n.None? then Err(MalformedChunk)
      else if n.value > p.limits.maxChunkSize then Err(LimitExceeded)
      else if Add64(p.seen, n.value) > p.limits.maxBodySize then Err(LimitExceeded)
      else if n.value == 0 then Ok(p.(phase := Trailers))
      else Ok(p.(chunkRemaining := n.value, phase := ChunkData))
  }

  /** The state after one complete line. */
  function HandleLine(p: ParserState, text: string): (r: Result<ParserState>)
  {
    match p.phase
    case Start => RequestLine(p, text)
    case InHeaders => if text == "" then EndOfHeaders(p) else HeaderLine(p, text)
    case Trailers => if text == "" then Ok(p.(phase := Done)) else TrailerLine(p, text)
    case ChunkSize => ChunkSizeLine(p, text)
    case _ => if text == "" then Ok(p.(phase := ChunkSize)) else Err(MalformedChunk)
  }

  // ── the limits hold in every state a step reaches ───────────────────────────

  lemma HeaderLineKeepsLimits(p: Parser, text: string)
    requires text != "" && p.phase.InHeaders? && HeaderLine(p, text).Ok?
    ensures HeaderLine(p, text).value.Valid()
  {
    if !IsOws(text[0]) {
      var f := FieldOf(text, false).value;
      TrimMeaning(text[Find(text, ':') + 1..]);
      StoredBytesAppend(p.request.headers, f);
    }
  }

  lemma EndOfHeadersKeepsLimits(p: Parser)
    requires p.phase.InHeaders? && EndOfHeaders(p).Ok?
    ensures EndOfHeaders(p).value.Valid()
  {
    AgreedFits(SplitAll(GetAll(p.request.headers, "Content-Length")), None);
    hide SplitAll, GetAll, Agreed, OnlyChunked, StoredBytes;
  }

  lemma HandleLineKeepsLimits(p: Parser, text: string)
    requires ReadsLines(p) && HandleLine(p, text).Ok?
    ensures HandleLine(p, text).value.Valid()
  {
    hide EndOfHeaders, HeaderLine, StoredBytes, Find, FieldOf;
    match p.phase
    case InHeaders =>
      if text == "" {
        EndOfHeadersKeepsLimits(p);
      } else {
        HeaderLineKeepsLimits(p, text);
      }
    case _ =>
  }

  // ── steps ───────────────────────────────────────────────────────────────────

  function Owed(p: ParserState): (n: nat)
  {
    if p.phase.InLength? then p.bodyRemaining else p.chunkRemaining
  }

  /** How many octets of `input` belong to the body. */
  function BodyCount(p: Parser, input: string): (n: nat)
    ensures n <= |input| && n <= Owed(p)
  {
    if Owed(p) > |input| then |input| else Owed(p)
  }

  /** The state after `n` octets of body. */
  function TakeBody(p: Parser, n: nat): (r: ParserState)
  {
    var q := p.(seen := Add64(p.seen, n));
    if p.phase.InLength? then
      var left := Sub64(p.bodyRemaining, n);
      q.(bodyRemaining := left, phase := if left == 0 then Done else InLength)
    else q.(chunkRemaining := Sub64(p.chunkRemaining, n))
  }

  lemma TakeBodyKeepsLimits(p: Parser, n: nat)
    requires !ReadsLines(p) && !p.phase.Done? && n <= Owed(p)
    ensures TakeBody(p, n).Valid()
  {
    hide StoredBytes;
  }

  function BodyStep(p: Parser, input: string): (r: StepResult<Parser>)
    requires !ReadsLines(p) && !p.phase.Done?
    ensures r.Moved? ==> 0 < r.consumed <= |input|
  {
    if input == "" then Starved
    else
      var n := BodyCount(p, input);
      TakeBodyKeepsLimits(p, n);
      Moved(TakeBody(p, n), n, input[..n])
  }

  function LineStep(p: Parser, input: string): (r: StepResult<Parser>)
    requires ReadsLines(p)
    ensures r.Moved? ==> 0 < r.consumed <= |input|
  {
    match NextLine(input, p.limits.allowBareLf)
    case NoLine => if Overlong(p, |input|) then Failed(LimitExceeded) else Starved
    case BadLine(e) => Failed(e)
    case Line(text, n) =>
      match HandleLine(p, text)
      case Err(e) => Failed(e)
      case Ok(next) =>
        HandleLineKeepsLimits(p, text);
        Moved(next, n, "")
  }

  /** One pass of the parser's loop. */
  function Step(p: Parser, input: string): (r: StepResult<Parser>)
    ensures r.Moved? ==> 0 < r.consumed <= |input|
  {
    if p.phase.Done? then Finished
    else if ReadsLines(p) then LineStep(p, input)
    else BodyStep(p, input)
  }
}

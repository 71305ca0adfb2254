/** Whole responses of each kind, read from their octets however these are cut. */
module ResponseBodies {
  import opened Octets
  import opened Grammar
  import opened HttpMessage
  import opened Lines
  import opened Incremental
  import opened WireSyntax
  import opened ResponseMachine
  import opened ResponseSlicing
  import opened ResponseRoundTrip
  import opened ResponseGrammar
  import opened ResponseHeads

  /** However cut, a message that ends by itself is what the whole is. */
  lemma {:induction false} SlicedEnds(meth: Method, limits: Limits, slices: seq<string>)
    requires limits.Fits64() && Run(Fresh(meth, limits), Concat(slices)).status.Ended?
    ensures Sliced(meth, limits, slices) == Run(Fresh(meth, limits), Concat(slices))
  {
    var input := Concat(slices);
    SlicingIndependence(meth, limits, input, slices);
    SlicedIsExec(meth, limits, input);
  }

  // ── until the stream ends ───────────────────────────────────────────────────

  lemma {:induction false} RunUntilEof(p: Parser, body: string)
    requires p.phase.EofBody? && p.seen == 0
    ensures var q := p.(seen := |body|);
      if |body| <= p.limits.maxBodySize then q.Valid() && Run(p, body) == Progress(q, "", body, Hungry)
      else Run(p, body).status == Rejected(LimitExceeded)
  {
    StepStable();
    ExecUnfolds(Step, p, body);
    if body == "" {
      assert p.(seen := 0) == p;
    } else if |body| <= p.limits.maxBodySize {
      var q: Parser := p.(seen := |body|);
      assert body[..|body|] == body && body[|body|..] == "";
      assert Step(p, body) == Moved(q, |body|, body);
      ExecUnfolds(Step, q, "");
      assert body + "" == body;
    }
  }

  /** No length, no coding, and a status that has a body: the body is whatever comes
      until the stream ends, if that fits the limit. */
  lemma {:induction false} CloseDelimitedRead(meth: Method, limits: Limits, a: Opening, body: string, slices: seq<string>)
    requires limits.Fits64() && OpeningFits(meth, limits, a) && !Bodiless(meth, a)
    requires !(meth == Connect && 200 <= StatusIn(a) <= 299)
    requires Values(a, "Transfer-Encoding") == [] && Values(a, "Content-Length") == []
    requires Concat(slices) == OpeningText(a) + body
    ensures var o := Sliced(meth, limits, slices);
      if |body| > limits.maxBodySize then o.status.Rejected?
      else
        && o.status.Ended? && o.body == body && o.rest == ""
        && o.state == Decided(meth, limits, a, Done, CloseDelimited, 0, 0).(seen := |body|)
  {
    hide Run, Sliced, OpeningFits, OpeningText, WithAll, GetAll, Trimmed, ParseNumber, StoredBytes;
    FitsMeans(meth, limits, a);
    hide ReadableStatus;
    var input := OpeningText(a) + body;
    assert Refusal(meth, a) == {};
    HeadDecides(meth, limits, a, 0, body);
    hide Refusal;
    var p: Parser := Decided(meth, limits, a, EofBody, CloseDelimited, 0, 0);
    DecidedIs(meth, limits, a);
    RunUntilEof(p, body);
    SlicingIndependence(meth, limits, input, slices);
    SlicedWhole(meth, limits, input);
  }

  lemma {:induction false} SlicedWhole(meth: Method, limits: Limits, input: string)
    requires limits.Fits64()
    ensures SameResult(Sliced(meth, limits, [input]), AtEof(Run(Fresh(meth, limits), input)))
    ensures Run(Fresh(meth, limits), input).status.Hungry? ==>
              Sliced(meth, limits, [input]) == AtEof(Run(Fresh(meth, limits), input))
  {
    SlicedIsExec(meth, limits, input);
  }

  // ── nothing, or so many octets ──────────────────────────────────────────────

  /** A response that cannot have a body ends at its blank line. */
  lemma {:induction false} BodilessRead(meth: Method, limits: Limits, a: Opening, n: nat, rest: string, slices: seq<string>)
    requires limits.Fits64() && OpeningFits(meth, limits, a) && Bodiless(meth, a) && Refusal(meth, a) == {}
    requires if Values(a, "Content-Length") == [] then n == 0 else AllAre(LengthItems(Values(a, "Content-Length")), n)
    requires Concat(slices) == OpeningText(a) + rest
    ensures Decided(meth, limits, a, Done, NoBody, n, 0).Valid()
    ensures Sliced(meth, limits, slices) == Progress(Decided(meth, limits, a, Done, NoBody, n, 0), rest, "", Ended)
  {
    hide Run, Sliced, OpeningFits, OpeningText, Bodiless, Refusal, GetAll, WithAll, LengthItems, AllAre, ParseNumber;
    HeadDecides(meth, limits, a, n, rest);
    SlicedEnds(meth, limits, slices);
  }

  /** A response with a length has as many octets of body as it says. */
  lemma {:induction false} MeasuredRead(meth: Method, limits: Limits, a: Opening, body: string, rest: string, slices: seq<string>)
    requires limits.Fits64() && OpeningFits(meth, limits, a) && !Bodiless(meth, a) && Refusal(meth, a) == {}
    requires Values(a, "Content-Length") != [] && AllAre(LengthItems(Values(a, "Content-Length")), |body|)
    requires |body| <= limits.maxBodySize && Concat(slices) == OpeningText(a) + body + rest
    ensures var q := Decided(meth, limits, a, Done, Length, |body|, 0).(seen := |body|);
      q.Valid() && Sliced(meth, limits, slices) == Progress(q, rest, body, Ended)
  {
    assert Values(a, "Transfer-Encoding") == [];
    hide Run, Sliced, OpeningFits, OpeningText, Bodiless, Refusal, GetAll, Trimmed, WithAll, LengthItems,
      AllAre, ParseNumber, StoredBytes;
    assert OpeningText(a) + body + rest == OpeningText(a) + (body + rest);
    HeadDecides(meth, limits, a, |body|, body + rest);
    FitsMeans(meth, limits, a);
    DecidedIs(meth, limits, a);
    if body == "" {
      assert body + rest == rest;
      ResponseHeads.RunDone(Decided(meth, limits, a, Done, Length, 0, 0), rest);
    } else {
      RunLength(Decided(meth, limits, a, InLength, Length, |body|, |body|), body, rest);
    }
    SlicedEnds(meth, limits, slices);
  }

  // ── chunks and trailers ─────────────────────────────────────────────────────

  /** The digits are `n`, and the line is visible text within its limits. */
  predicate ReadableSize(digits: string, extension: Option<string>, n: nat, limits: Limits)
  {
    && ParseNumber(digits, 16) == Some(n) && n <= limits.maxChunkSize
    && (extension.Some? ==> AllVchars(extension.value) && |extension.value| <= limits.maxChunkExtension)
    && |SizeLine(digits, extension)| <= SizeCap(limits)
  }

  function SizeCap(limits: Limits): (n: nat)
  {
    if limits.maxChunkExtension > SIZE_MAX - 32 then SIZE_MAX else limits.maxChunkExtension + 32
  }

  lemma SizeIsOneLine(digits: string, extension: Option<string>, n: nat, limits: Limits)
    requires ReadableSize(digits, extension, n, limits)
    ensures OneLine(SizeLine(digits, extension)) && ';' !in digits
  {
    DigitsAreOneLine(digits);
    if extension.Some? { ValidTextIsOneLine(extension.value); }
    hide ParseNumber, AllVchars;
  }

  lemma {:induction false} RunSizeLine(p: Parser, digits: string, extension: Option<string>, n: nat, rest: string)
    requires p.phase.ChunkSize? && ReadableSize(digits, extension, n, p.limits) && p.seen + n <= p.limits.maxBodySize
    ensures Sized(p, n).Valid()
    ensures Run(p, SizeLine(digits, extension) + CRLF + rest) == Run(Sized(p, n), rest)
  {
    hide Run, ParseNumber, StoredBytes, AllVchars;
    SizeIsOneLine(digits, extension, n, p.limits);
    var text := SizeLine(digits, extension);
    SizeRead(p, digits, extension, n);
    hide ChunkSizeLine, SizeLine, OneLine;
    assert HandleLine(p, text) == Ok(Sized(p, n));
    HandleLineKeepsLimits(p, text);
    RunLine(p, text, rest);
  }

  predicate ReadableChunks(chunks: seq<Chunk>, limits: Limits)
  {
    forall i :: 0 <= i < |chunks| ==>
      chunks[i].data != "" && ReadableSize(chunks[i].digits, chunks[i].extension, |chunks[i].data|, limits)
  }

  lemma {:induction false} RunOneChunk(p: Parser, c: Chunk, rest: string)
    requires p.phase.ChunkSize? && p.remaining == 0 && c.data != "" && p.seen + |c.data| <= p.limits.maxBodySize
    requires ReadableSize(c.digits, c.extension, |c.data|, p.limits)
    ensures p.(seen := p.seen + |c.data|).Valid()
    ensures Run(p, SizeLine(c.digits, c.extension) + CRLF + (c.data + (CRLF + rest)))
         == Prepend(c.data, Run(p.(seen := p.seen + |c.data|), rest))
  {
    hide Run, StoredBytes, ReadableSize, SizeLine;
    RunSizeLine(p, c.digits, c.extension, |c.data|, c.data + (CRLF + rest));
    var p1: Parser := Sized(p, |c.data|);
    RunChunkData(p1, c.data, CRLF + rest);
    var p2: Parser := p1.(phase := ChunkEnd, seen := p.seen + |c.data|, remaining := 0);
    assert CRLF + rest == "" + CRLF + rest;
    RunLine(p2, "", rest);
    assert AfterLine(p2, "") == p.(seen := p.seen + |c.data|);
  }

  lemma {:induction false} RunChunks(p: Parser, chunks: seq<Chunk>, rest: string)
    requires p.phase.ChunkSize? && p.remaining == 0 && ReadableChunks(chunks, p.limits)
    requires p.seen + |DataOf(chunks)| <= p.limits.maxBodySize
    ensures p.(seen := p.seen + |DataOf(chunks)|).Valid()
    ensures Run(p, ChunksText(chunks) + rest) == Prepend(DataOf(chunks), Run(p.(seen := p.seen + |DataOf(chunks)|), rest))
    decreases |chunks|
  {
    hide Run, StoredBytes, ReadableSize, SizeLine;
    if chunks == [] {
      assert ChunksText(chunks) + rest == rest;
      assert p.(seen := p.seen + 0) == p;
      assert "" + Run(p, rest).body == Run(p, rest).body;
    } else {
      var c, tail := chunks[0], chunks[1..];
      var more := ChunksText(tail) + rest;
      assert ChunksText(chunks) + rest == SizeLine(c.digits, c.extension) + CRLF + (c.data + (CRLF + more));
      RunOneChunk(p, c, more);
      var q: Parser := p.(seen := p.seen + |c.data|);
      assert forall i :: 0 <= i < |tail| ==> tail[i] == chunks[i + 1];
      RunChunks(q, tail, rest);
      var o := Run(q.(seen := q.seen + |DataOf(tail)|), rest);
      assert c.data + (DataOf(tail) + o.body) == c.data + DataOf(tail) + o.body;
    }
  }

  /** Each trailer in turn is let in: readable, of a name that may trail, within the
      limits it shares with the headers. */
  ghost predicate TrailersFit(p: ParserState, t: Headers)
    decreases |t|
  {
    t != [] ==>
      && Readable(t[0]) && MayTrail(t[0].name) && FieldLetIn(p, t[0])
      && TrailersFit(WithTrailer(p, t[0]), t[1..])
  }

  function WithTrailer(p: ParserState, f: Field): (q: ParserState)
  {
    p.(trailers := p.trailers + [Kept(f)], headerBytes := p.headerBytes + FieldSize(f))
  }

  function WithTrailers(p: ParserState, t: Headers): (q: ParserState)
    decreases |t|
  {
    if t == [] then p else WithTrailers(WithTrailer(p, t[0]), t[1..])
  }

  lemma {:induction false} WithTrailersIs(p: ParserState, t: Headers)
    ensures WithTrailers(p, t) == p.(trailers := p.trailers + Trimmed(t), headerBytes := WithTrailers(p, t).headerBytes)
    decreases |t|
  {
    hide TrimOws, FieldSize;
    if t != [] {
      WithTrailersIs(WithTrailer(p, t[0]), t[1..]);
      assert p.trailers + [Kept(t[0])] + Trimmed(t[1..]) == p.trailers + Trimmed(t);
    }
  }

  lemma {:induction false} RunTrailer(p: Parser, f: Field, rest: string)
    requires p.phase.Trailers? && Readable(f) && FieldLetIn(p, f)
    ensures MayTrail(f.name) ==>
      WithTrailer(p, f).Valid() && Run(p, LineOf(f) + CRLF + rest) == Run(WithTrailer(p, f), rest)
    ensures !MayTrail(f.name) ==> Run(p, LineOf(f) + CRLF + rest).status == Rejected(FramingConflict)
  {
    hide Run, FieldOf, LineOf, Readable, Kept, StoredBytes, MayTrail;
    LineRead(f, true);
    if MayTrail(f.name) {
      assert HandleLine(p, LineOf(f)) == Ok(WithTrailer(p, f));
      HandleLineKeepsLimits(p, LineOf(f));
      hide HandleLine;
      RunLine(p, LineOf(f), rest);
    } else {
      RunRefused(p, LineOf(f), rest);
    }
  }

  lemma {:induction false} RunTrailers(p: Parser, t: Headers, rest: string)
    requires p.phase.Trailers? && TrailersFit(p, t)
    ensures WithTrailers(p, t).Valid()
    ensures Run(p, LinesOf(t) + rest) == Run(WithTrailers(p, t), rest)
    decreases |t|
  {
    hide Run, LineOf, Readable, MayTrail, FieldLetIn, ParserState.Valid, Kept;
    if t == [] {
      assert LinesOf(t) + rest == rest;
    } else {
      var more := LinesOf(t[1..]) + rest;
      assert LinesOf(t) + rest == LineOf(t[0]) + CRLF + more;
      RunTrailer(p, t[0], more);
      RunTrailers(WithTrailer(p, t[0]), t[1..], rest);
    }
  }

  /** A chunked response as written. */
  function ChunkedText(a: Opening, chunks: seq<Chunk>, digits: string, extension: Option<string>, t: Headers): (s: string)
  {
    OpeningText(a) + ChunksText(chunks) + SizeLine(digits, extension) + CRLF + LinesOf(t) + CRLF
  }

  /** The parser once the last chunk is in. */
  function AfterChunks(meth: Method, limits: Limits, a: Opening, size: nat): (p: ParserState)
    requires ReadableStatus(a.digits, a.reason)
  {
    Decided(meth, limits, a, Trailers, Chunked, 0, 0).(seen := size)
  }

  lemma {:induction false} RunToTrailers(
      meth: Method, limits: Limits, a: Opening, chunks: seq<Chunk>, digits: string, extension: Option<string>, rest: string)
    requires limits.Fits64() && OpeningFits(meth, limits, a) && !Bodiless(meth, a) && Refusal(meth, a) == {}
    requires Values(a, "Transfer-Encoding") != []
    requires ReadableChunks(chunks, limits) && |DataOf(chunks)| <= limits.maxBodySize && ReadableSize(digits, extension, 0, limits)
    ensures AfterChunks(meth, limits, a, |DataOf(chunks)|).Valid()
    ensures Run(Fresh(meth, limits), OpeningText(a) + (ChunksText(chunks) + (SizeLine(digits, extension) + CRLF + rest)))
         == Prepend(DataOf(chunks), Run(AfterChunks(meth, limits, a, |DataOf(chunks)|), rest))
  {
    assert Values(a, "Content-Length") == [];
    FitsMeans(meth, limits, a);
    hide Run, OpeningFits, OpeningText, Bodiless, Refusal, GetAll, Trimmed, WithAll, ParseNumber, StoredBytes,
      ReadableStatus;
    hide ReadableChunks, ReadableSize, ChunksText, DataOf, SizeLine;
    var last := SizeLine(digits, extension) + CRLF + rest;
    HeadDecides(meth, limits, a, 0, ChunksText(chunks) + last);
    DecidedIs(meth, limits, a);
    var p: Parser := Decided(meth, limits, a, ChunkSize, Chunked, 0, 0);
    RunChunks(p, chunks, last);
    RunSizeLine(p.(seen := |DataOf(chunks)|), digits, extension, 0, rest);
  }

  /** A chunked response: its body is the data joined, its trailers are stored, and
      what follows is left alone, however the octets are cut. */
  lemma {:induction false} ChunkedRead(
      meth: Method, limits: Limits, a: Opening, chunks: seq<Chunk>, digits: string, extension: Option<string>, t: Headers,
      rest: string, slices: seq<string>)
    requires limits.Fits64() && OpeningFits(meth, limits, a) && !Bodiless(meth, a) && Refusal(meth, a) == {}
    requires Values(a, "Transfer-Encoding") != []
    requires ReadableChunks(chunks, limits) && |DataOf(chunks)| <= limits.maxBodySize && ReadableSize(digits, extension, 0, limits)
    requires TrailersFit(AfterChunks(meth, limits, a, |DataOf(chunks)|), t)
    requires Concat(slices) == ChunkedText(a, chunks, digits, extension, t) + rest
    ensures var o := Sliced(meth, limits, slices);
      && o.status.Ended? && o.rest == rest && o.body == DataOf(chunks) && o.state.trailers == Trimmed(t)
      && o.state.response.headers == Trimmed(a.fields) && o.state.response.bodyKind == Chunked
  {
    hide Run, Sliced, OpeningFits, OpeningText, Bodiless, Refusal, GetAll, Trimmed, WithAll, ParseNumber, StoredBytes;
    hide ReadableChunks, ReadableSize, ChunksText, DataOf, SizeLine, TrailersFit, LinesOf;
    var end := LinesOf(t) + (CRLF + rest);
    assert ChunkedText(a, chunks, digits, extension, t) + rest
        == OpeningText(a) + (ChunksText(chunks) + (SizeLine(digits, extension) + CRLF + end));
    RunToTrailers(meth, limits, a, chunks, digits, extension, end);
    FitsMeans(meth, limits, a);
    hide ReadableStatus;
    DecidedIs(meth, limits, a);
    var p: Parser := AfterChunks(meth, limits, a, |DataOf(chunks)|);
    RunTrailers(p, t, CRLF + rest);
    WithTrailersIs(p, t);
    var q: Parser := WithTrailers(p, t);
    hide WithTrailers;
    assert [] + Trimmed(t) == Trimmed(t);
    assert "" + CRLF + rest == CRLF + rest;
    RunLine(q, "", rest);
    ResponseHeads.RunDone(q.(phase := Done), rest);
    assert DataOf(chunks) + "" == DataOf(chunks);
    SlicedEnds(meth, limits, slices);
  }
}

/** Whole requests of each kind, read from their octets. */
module RequestBodies {
  import opened Octets
  import opened Grammar
  import opened HttpMessage
  import opened Lines
  import opened Incremental
  import opened WireSyntax
  import opened RequestMachine
  import opened RequestSlicing
  import opened Serializer
  import opened RequestRoundTrip
  import opened RequestLimits
  import opened RequestGrammar
  import opened RequestHeads
  import R = ResponseRoundTrip

  // ── chunks ──────────────────────────────────────────────────────────────────

  /** A size line that can be read: the digits are `n`. */
  predicate ReadableSize(digits: string, extension: Option<string>, n: nat, limits: Limits)
  {
    && ParseNumber(digits, 16) == Some(n)
    && (extension.Some? ==> R.OneLine(extension.value) && |extension.value| <= limits.maxChunkExtension)
  }

  /** A size line that is accepted, be it because the sum wraps. */
  lemma {:induction false} RunSizeLine(p: Parser, digits: string, extension: Option<string>, n: nat, rest: string)
    requires p.phase.ChunkSize? && ReadableSize(digits, extension, n, p.limits)
    requires n <= p.limits.maxChunkSize && Add64(p.seen, n) <= p.limits.maxBodySize
    ensures Sized(p, n).Valid()
    ensures Run(p, SizeLine(digits, extension) + CRLF + rest) == Run(Sized(p, n), rest)
  {
    hide Run, RoomyRun, ParseNumber, StoredBytes;
    DigitsAreOneLine(digits);
    var text := SizeLine(digits, extension);
    assert R.OneLine(text);
    SizeRead(p, digits, extension, n);
    hide ChunkSizeLine, R.OneLine;
    assert HandleLine(p, text) == Ok(Sized(p, n));
    HandleLineKeepsLimits(p, text);
    RunLine(p, text, rest);
  }

  /** The shortest numeral, and no extension. */
  lemma {:induction false} RunSize(p: Parser, n: nat, rest: string)
    requires p.phase.ChunkSize? && n <= p.limits.maxChunkSize && Add64(p.seen, n) <= p.limits.maxBodySize
    ensures Sized(p, n).Valid() && Run(p, Numeral(n, 16) + CRLF + rest) == Run(Sized(p, n), rest)
  {
    hide Run, ParseNumber, Numeral, StoredBytes;
    NumeralRoundTrip(n, 16);
    RunSizeLine(p, Numeral(n, 16), None, n, rest);
  }

  /** A chunk's octets and its line end. */
  lemma {:induction false} RunData(p: Parser, data: string, rest: string)
    requires p.phase.ChunkData? && p.chunkRemaining == |data| > 0
    ensures var q := p.(phase := ChunkSize, chunkRemaining := 0, seen := Add64(p.seen, |data|));
            q.Valid() && Run(p, data + CRLF + rest) == Prepend(data, Run(q, rest))
  {
    var input := data + CRLF + rest;
    TakeBodyKeepsLimits(p, |data|);
    var mid: Parser := TakeBody(p, |data|);
    assert input[..|data|] == data && input[|data|..] == "" + CRLF + rest;
    assert Step(p, input) == Moved(mid, |data|, data);
    StepBehaves();
    hide Step, RoomyRun, StoredBytes;
    ExecUnfolds(Step, p, input);
    HandleLineKeepsLimits(mid, "");
    RunLine(mid, "", rest);
  }

  lemma PrependNothing(o: Progress<Parser>)
    ensures Prepend("", o) == o
  {
    assert "" + o.body == o.body;
  }

  lemma PrependTwice(a: string, b: string, o: Progress<Parser>)
    ensures Prepend(a, Prepend(b, o)) == Prepend(a + b, o)
  {
    assert a + (b + o.body) == a + b + o.body;
  }

  predicate ReadableChunks(chunks: seq<Chunk>, limits: Limits)
  {
    forall i :: 0 <= i < |chunks| ==>
      0 < |chunks[i].data| <= limits.maxChunkSize
      && ReadableSize(chunks[i].digits, chunks[i].extension, |chunks[i].data|, limits)
  }

  /** Chunks are handed out as their data joined, and counted. */
  lemma {:induction false} RunChunks(p: Parser, chunks: seq<Chunk>, rest: string)
    requires p.phase.ChunkSize? && p.chunkRemaining == 0 && ReadableChunks(chunks, p.limits)
    requires p.seen + |DataOf(chunks)| <= p.limits.maxBodySize
    ensures p.(seen := p.seen + |DataOf(chunks)|).Valid()
    ensures Run(p, ChunksText(chunks) + rest) == Prepend(DataOf(chunks), Run(p.(seen := p.seen + |DataOf(chunks)|), rest))
    decreases |chunks|
  {
    hide Run, StoredBytes, ReadableSize, SizeLine;
    if chunks == [] {
      assert ChunksText(chunks) + rest == rest;
      assert p.(seen := p.seen + 0) == p;
      PrependNothing(Run(p, rest));
    } else {
      var c, tail := chunks[0], chunks[1..];
      var more := ChunksText(tail) + rest;
      var size := SizeLine(c.digits, c.extension);
      assert ChunksText(chunks) + rest == size + CRLF + (c.data + CRLF + more);
      RunSizeLine(p, c.digits, c.extension, |c.data|, c.data + CRLF + more);
      RunData(Sized(p, |c.data|), c.data, more);
      var q: Parser := p.(seen := p.seen + |c.data|);
      assert forall i :: 0 <= i < |tail| ==> tail[i] == chunks[i + 1];
      RunChunks(q, tail, rest);
      PrependTwice(c.data, DataOf(tail), Run(q.(seen := q.seen + |DataOf(tail)|), rest));
    }
  }

  // ── trailers ────────────────────────────────────────────────────────────────

  /** A trailer's value may be any text of one line. */
  predicate ReadableTrailers(t: Headers)
  {
    forall i :: 0 <= i < |t| ==> ValidName(t[i].name) && R.OneLine(t[i].value)
  }

  lemma TrailerRead(f: Field)
    requires ValidName(f.name) && R.OneLine(f.value)
    ensures var s := LineOf(f); |s| == FieldSize(f) && s != "" && R.OneLine(s) && FieldOf(s, true) == Ok(Kept(f))
  {
    var s := LineOf(f);
    R.ValidTextIsOneLine(f.name);
    hide TrimOws, AllTchars, FieldOf;
    assert s == Spelled(Kept(f).name, f.value);
    FieldMeans(s, true, Kept(f));
  }

  lemma {:induction false} RunTrailer(p: Parser, f: Field, rest: string)
    requires p.phase.Trailers? && ValidName(f.name) && R.OneLine(f.value) && FieldSize(f) <= p.limits.maxHeaderLine
    requires |p.trailers| < p.limits.maxHeaderCount
    ensures p.(trailers := p.trailers + [Kept(f)]).Valid()
    ensures Run(p, LineOf(f) + CRLF + rest) == Run(p.(trailers := p.trailers + [Kept(f)]), rest)
  {
    hide Run, RoomyRun, FieldOf, LineOf, Kept, StoredBytes, ValidName;
    TrailerRead(f);
    assert HandleLine(p, LineOf(f)) == Ok(p.(trailers := p.trailers + [Kept(f)]));
    HandleLineKeepsLimits(p, LineOf(f));
    RunLine(p, LineOf(f), rest);
  }

  lemma {:induction false} FirstTrailer(t: Headers, most: nat)
    requires t != [] && ReadableTrailers(t) && AllShort(t, most)
    ensures ValidName(t[0].name) && R.OneLine(t[0].value) && FieldSize(t[0]) <= most
    ensures ReadableTrailers(t[1..]) && AllShort(t[1..], most)
    ensures Trimmed(t) == [Kept(t[0])] + Trimmed(t[1..])
  {
    hide ValidName, R.OneLine, FieldSize, TrimOws;
    assert forall i :: 0 <= i < |t[1..]| ==> t[1..][i] == t[i + 1];
  }

  lemma {:induction false} RunTrailers(p: Parser, t: Headers, rest: string)
    requires p.phase.Trailers? && ReadableTrailers(t) && AllShort(t, p.limits.maxHeaderLine)
    requires |p.trailers| + |t| <= p.limits.maxHeaderCount
    ensures p.(trailers := p.trailers + Trimmed(t)).Valid()
    ensures Run(p, LinesOf(t) + rest) == Run(p.(trailers := p.trailers + Trimmed(t)), rest)
    decreases |t|
  {
    hide Run, LineOf, ReadableTrailers, AllShort, FieldSize, ParserState.Valid, Kept;
    if t == [] {
      assert LinesOf(t) + rest == rest;
      assert p.trailers + Trimmed(t) == p.trailers;
      assert p.(trailers := p.trailers) == p;
    } else {
      hide Trimmed;
      var f, tail := t[0], t[1..];
      FirstTrailer(t, p.limits.maxHeaderLine);
      var more := LinesOf(tail) + rest;
      assert LinesOf(t) + rest == LineOf(f) + CRLF + more;
      RunTrailer(p, f, more);
      var q: Parser := p.(trailers := p.trailers + [Kept(f)]);
      RunTrailers(q, tail, rest);
      assert q.trailers + Trimmed(tail) == p.trailers + Trimmed(t);
    }
  }

  lemma {:induction false} RunEnd(p: Parser, rest: string)
    requires p.phase.Trailers?
    ensures p.(phase := Done).Valid() && Run(p, CRLF + rest) == Progress(p.(phase := Done), rest, "", Ended)
  {
    hide Run, RoomyRun;
    assert HandleLine(p, "") == Ok(p.(phase := Done));
    HandleLineKeepsLimits(p, "");
    hide HandleLine;
    assert "" + CRLF + rest == CRLF + rest;
    RunLine(p, "", rest);
    RunDone(p.(phase := Done), rest);
  }

  // ── whole requests ──────────────────────────────────────────────────────────

  /** Anything but a line end right after a chunk is refused. */
  lemma {:induction false} StrayOctets(p: Parser, text: string, rest: string)
    requires p.phase.ChunkData? && p.chunkRemaining == 0 && R.OneLine(text) && text != ""
    ensures Run(p, text + CRLF + rest).status == Rejected(MalformedChunk)
  {
    hide Run, ParserState.Valid;
    RunRefused(p, text, rest);
  }

  /** A head with a length, and as many octets as it says. */
  lemma {:induction false} MeasuredRequestRead(limits: Limits, a: Preamble, body: string, rest: string)
    requires limits.Fits64() && HeadFits(limits, a) && |body| <= limits.maxBodySize
    requires Values(a, "Transfer-Encoding") == [] && Values(a, "Content-Length") != []
    requires var items := SplitAll(Values(a, "Content-Length")); items != [] && AllAre(items, |body|)
    ensures var done := Decided(limits, a, Done, Length, |body|).(seen := |body|, bodyRemaining := 0);
      done.Valid() && Run(Fresh(limits), PreambleText(a) + body + rest) == Progress(done, rest, body, Ended)
  {
    hide Run, RoomyRun, PreambleText, HeadFits, HeadRoomy, WithAll, GetAll, Trimmed, SplitAll, AllAre, StoredBytes;
    assert PreambleText(a) + body + rest == PreambleText(a) + (body + rest);
    MeasuredRequest(limits, a, |body|, body + rest);
    if body == "" {
      assert body + rest == rest;
      assert Decided(limits, a, Done, Length, 0).seen == 0 by { NothingSeen(limits, a); }
      RunDone(Decided(limits, a, Done, Length, 0), rest);
    } else {
      NothingSeen(limits, a);
      RunBody(Decided(limits, a, InLength, Length, |body|), body, rest);
    }
  }

  lemma NothingSeen(limits: Limits, a: Preamble)
    ensures var q := WithAll(Begun(limits, a), a.fields);
      q.seen == 0 && q.chunkRemaining == 0 && q.trailers == [] && q.limits == limits
  {
    WithAllIs(Begun(limits, a), a.fields);
    hide WithAll, Trimmed, MethodFromToken;
  }

  /** A chunked request as written: chunks, the size line of the last one, which is
      zero, trailers and a blank line. */
  function ChunkedText(a: Preamble, chunks: seq<Chunk>, digits: string, extension: Option<string>, t: Headers): (s: string)
  {
    PreambleText(a) + ChunksText(chunks) + SizeLine(digits, extension) + CRLF + LinesOf(t) + CRLF
  }

  /** A head that asks for chunks, any chunks within the limits, and any trailers
      that fit theirs: one request, its body the data joined, its trailers stored,
      and what follows left alone. */
  lemma {:induction false} ChunkedRequestRead(
      limits: Limits, a: Preamble, chunks: seq<Chunk>, digits: string, extension: Option<string>, t: Headers, rest: string)
    requires limits.Fits64() && HeadFits(limits, a) && a.version == Http11
    requires Values(a, "Transfer-Encoding") != [] && Values(a, "Content-Length") == []
    requires var items := SplitAll(Values(a, "Transfer-Encoding")); |items| == 1 && NamesEqual(items[0], "chunked")
    requires ReadableChunks(chunks, limits) && |DataOf(chunks)| <= limits.maxBodySize
    requires ReadableSize(digits, extension, 0, limits)
    requires ReadableTrailers(t) && AllShort(t, limits.maxHeaderLine) && |t| <= limits.maxHeaderCount
    ensures var done := Decided(limits, a, Done, Chunked, 0).(seen := |DataOf(chunks)|, trailers := Trimmed(t));
      && done.Valid()
      && Run(Fresh(limits), ChunkedText(a, chunks, digits, extension, t) + rest) == Progress(done, rest, DataOf(chunks), Ended)
  {
    hide Run, RoomyRun, PreambleText, HeadFits, HeadRoomy, WithAll, GetAll, Trimmed, SplitAll, NamesEqual, StoredBytes;
    hide ReadableChunks, ReadableSize, ReadableTrailers, AllShort, ChunksText, DataOf, LinesOf, SizeLine;
    var end := LinesOf(t) + (CRLF + rest);
    var last := SizeLine(digits, extension) + CRLF + end;
    assert ChunkedText(a, chunks, digits, extension, t) + rest == PreambleText(a) + (ChunksText(chunks) + last);
    CodedRequest(limits, a, ChunksText(chunks) + last);
    NothingSeen(limits, a);
    var p: Parser := Decided(limits, a, ChunkSize, Chunked, 0);
    RunChunks(p, chunks, last);
    var q: Parser := p.(seen := |DataOf(chunks)|);
    RunSizeLine(q, digits, extension, 0, end);
    RunTrailers(Sized(q, 0), t, CRLF + rest);
    assert [] + Trimmed(t) == Trimmed(t);
    RunEnd(Sized(q, 0).(trailers := Trimmed(t)), rest);
    assert DataOf(chunks) + "" == DataOf(chunks);
  }
}

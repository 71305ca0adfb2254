/** Which lines the response parser accepts, said as a grammar. */
module ResponseGrammar {
  import opened Octets
  import opened Grammar
  import opened HttpMessage
  import opened Serializer
  import opened WireSyntax
  import opened ResponseMachine

  // ── fields ──────────────────────────────────────────────────────────────────

  /** Names that may not come as trailers. */
  const NEVER_TRAILERS: seq<string> := ["Content-Length", "Transfer-Encoding", "Host", "Connection", "Trailer"]

  ghost predicate MayTrail(name: string)
  {
    forall i :: 0 <= i < |NEVER_TRAILERS| ==> !NamesEqual(name, NEVER_TRAILERS[i])
  }

  lemma ForbiddenMeans(name: string)
    ensures ForbiddenTrailer(name) <==> !MayTrail(name)
  {
    hide NamesEqual;
    assert NEVER_TRAILERS[0] == "Content-Length" && NEVER_TRAILERS[1] == "Transfer-Encoding" && NEVER_TRAILERS[2] == "Host";
    assert NEVER_TRAILERS[3] == "Connection" && NEVER_TRAILERS[4] == "Trailer";
  }

  lemma TrimKeepsVchars(raw: string)
    ensures AllVchars(TrimOws(raw)) <==> AllVchars(raw)
  {
    TrimMeaning(raw);
    var r := TrimOws(raw);
    var i: nat :| SurroundedByOws(raw, i, r);
    hide TrimOws;
    if AllVchars(r) {
      forall k | 0 <= k < |raw| ensures IsFieldVchar(raw[k]) {
        if i <= k < i + |r| {
          assert raw[i..i + |r|][k - i] == raw[k];
        }
      }
    }
  }

  lemma {:induction false} FieldRead(name: string, raw: string, trailer: bool)
    requires ValidName(name) && AllVchars(raw)
    ensures FieldOf(Spelled(name, raw), trailer) ==
      if trailer && !MayTrail(name) then Err(FramingConflict) else Ok(Field(name, TrimOws(raw)))
  {
    TokenHasNoColon(name);
    SpelledParts(name, raw);
    assert Spelled(name, raw)[0] == name[0];
    TrimKeepsVchars(raw);
    ForbiddenMeans(name);
    hide Find, TrimOws, AllTchars, AllVchars, ForbiddenTrailer, MayTrail, Spelled;
  }

  lemma {:induction false} FieldTaken(text: string, trailer: bool)
    requires text != "" && FieldOf(text, trailer).Ok?
    ensures var f := FieldOf(text, trailer).value;
      && ValidName(f.name) && (trailer ==> MayTrail(f.name))
      && exists raw :: text == Spelled(f.name, raw) && AllVchars(raw) && f.value == TrimOws(raw)
  {
    hide Find, TrimOws, AllTchars, AllVchars, ForbiddenTrailer, MayTrail;
    var colon := Find(text, ':');
    var raw := text[colon + 1..];
    ForbiddenMeans(text[..colon]);
    TrimKeepsVchars(raw);
    assert text == text[..colon] + ":" + raw;
    assert text == Spelled(text[..colon], raw);
  }

  /** A line is a field exactly if it is a token, a colon and visible text; the
      value is that text trimmed. Some names are no trailers. */
  lemma {:induction false} FieldMeans(text: string, trailer: bool, f: Field)
    requires text != ""
    ensures FieldOf(text, trailer) == Ok(f) <==>
      && ValidName(f.name) && (trailer ==> MayTrail(f.name))
      && exists raw :: text == Spelled(f.name, raw) && AllVchars(raw) && f.value == TrimOws(raw)
  {
    hide FieldOf, ValidName, MayTrail, TrimOws, AllVchars, Spelled;
    if FieldOf(text, trailer) == Ok(f) {
      FieldTaken(text, trailer);
    }
    if ValidName(f.name) && (trailer ==> MayTrail(f.name)) {
      if raw :| text == Spelled(f.name, raw) && AllVchars(raw) && f.value == TrimOws(raw) {
        FieldRead(f.name, raw, trailer);
      }
    }
  }

  // ── the status line ─────────────────────────────────────────────────────────

  function StatusOf(version: Version, digits: string, reason: string): (text: string)
  {
    VersionToken(version) + " " + digits + " " + reason
  }

  /** Three digits between 100 and 599, and visible text after them. */
  predicate ReadableStatus(digits: string, reason: string)
  {
    && |digits| == 3 && ParseNumber(digits, 10).Some? && 100 <= ParseNumber(digits, 10).value <= 599
    && AllVchars(reason)
  }

  function Opened(p: ParserState, version: Version, digits: string, reason: string): (q: ParserState)
    requires ReadableStatus(digits, reason)
  {
    p.(phase := InHeaders,
       response := p.response.(version := version, status := ParseNumber(digits, 10).value, reason := reason))
  }

  ghost predicate IsStatus(text: string, version: Version, digits: string, reason: string)
  {
    text == StatusOf(version, digits, reason) && ReadableStatus(digits, reason)
  }

  lemma StatusParts(version: Version, digits: string, reason: string)
    requires |digits| == 3
    ensures var text := StatusOf(version, digits, reason);
      && |text| >= 13 && text[..8] == VersionToken(version) && text[8] == ' ' && text[9..12] == digits
      && text[12] == ' ' && text[13..] == reason
  {
    hide VersionToken;
    assert |VersionToken(version)| == 8;
    var text := StatusOf(version, digits, reason);
    assert text[..8] == VersionToken(version) && text[9..12] == digits && text[13..] == reason;
  }

  lemma {:induction false} StatusRead(p: ParserState, version: Version, digits: string, reason: string)
    requires ReadableStatus(digits, reason)
    ensures StatusLine(p, StatusOf(version, digits, reason)) == Ok(Opened(p, version, digits, reason))
  {
    StatusParts(version, digits, reason);
    hide StatusOf, ParseNumber, AllVchars;
    assert VersionToken(Http11) == "HTTP/1.1" && VersionToken(Http10) == "HTTP/1.0";
  }

  lemma CutStatus(text: string)
    requires |text| >= 13 && text[8] == ' ' && text[12] == ' '
    ensures text == text[..8] + " " + text[9..12] + " " + text[13..]
  {
    assert text[9..] == text[9..12] + " " + text[13..];
    assert text == text[..8] + " " + text[9..];
  }

  lemma {:induction false} StatusTaken(p: ParserState, text: string)
    requires StatusLine(p, text).Ok?
    ensures exists version, digits, reason ::
      IsStatus(text, version, digits, reason) && StatusLine(p, text).value == Opened(p, version, digits, reason)
  {
    hide ParseNumber, AllVchars;
    CutStatus(text);
    var version := if text[..8] == "HTTP/1.1" then Http11 else Http10;
    assert VersionToken(version) == text[..8];
    assert IsStatus(text, version, text[9..12], text[13..]);
  }

  /** A status line is accepted exactly if it is a version the parser knows, three
      digits from 100 to 599 and visible text, separated by single spaces. */
  lemma {:induction false} StatusMeans(p: ParserState, text: string, q: ParserState)
    ensures StatusLine(p, text) == Ok(q) <==>
      exists version, digits, reason :: IsStatus(text, version, digits, reason) && q == Opened(p, version, digits, reason)
  {
    hide StatusLine, StatusOf, ReadableStatus, Opened;
    if StatusLine(p, text) == Ok(q) {
      StatusTaken(p, text);
    }
    if version, digits, reason :| IsStatus(text, version, digits, reason) && q == Opened(p, version, digits, reason) {
      StatusRead(p, version, digits, reason);
    }
  }

  // ── chunk sizes ─────────────────────────────────────────────────────────────

  /** The line is readable and within the limits, and its digits are `n`. */
  predicate SizeFits(p: ParserState, digits: string, extension: Option<string>, n: nat)
  {
    && ';' !in digits && ParseNumber(digits, 16) == Some(n)
    && (extension.Some? ==> AllVchars(extension.value) && |extension.value| <= p.limits.maxChunkExtension)
    && n <= p.limits.maxChunkSize && p.seen + n <= p.limits.maxBodySize
  }

  function Sized(p: ParserState, n: nat): (q: ParserState)
  {
    p.(remaining := n, phase := if n != 0 then ChunkData else Trailers)
  }

  lemma {:induction false} SizeRead(p: Parser, digits: string, extension: Option<string>, n: nat)
    requires SizeFits(p, digits, extension, n)
    ensures ChunkSizeLine(p, SizeLine(digits, extension)) == Ok(Sized(p, n))
  {
    SizeParts(digits, extension);
    hide Find, ParseNumber, AllVchars, StoredBytes, SizeLine;
  }

  lemma {:induction false} SizeTaken(p: Parser, text: string)
    requires ChunkSizeLine(p, text).Ok?
    ensures exists digits, extension, n ::
      text == SizeLine(digits, extension) && SizeFits(p, digits, extension, n) && ChunkSizeLine(p, text).value == Sized(p, n)
  {
    var semicolon := Find(text, ';');
    hide Find, ParseNumber, AllVchars, StoredBytes;
    var digits := text[..semicolon];
    var extension := if semicolon < |text| then Some(text[semicolon + 1..]) else None;
    assert text == SizeLine(digits, extension);
    var n := ParseNumber(digits, 16).value;
    assert SizeFits(p, digits, extension, n);
  }

  /** A size line is accepted exactly if its digits are a number that fits the chunk
      limit and what is left of the body limit, and its extension is visible text
      within its own; no subtraction wraps. */
  lemma {:induction false} SizeMeans(p: Parser, text: string, q: ParserState)
    ensures ChunkSizeLine(p, text) == Ok(q) <==>
      exists digits, extension, n ::
        text == SizeLine(digits, extension) && SizeFits(p, digits, extension, n) && q == Sized(p, n)
  {
    hide ChunkSizeLine, SizeFits, Sized, SizeLine;
    if ChunkSizeLine(p, text) == Ok(q) {
      SizeTaken(p, text);
    }
    if digits, extension, n :| text == SizeLine(digits, extension) && SizeFits(p, digits, extension, n) && q == Sized(p, n) {
      SizeRead(p, digits, extension, n);
    }
  }
}

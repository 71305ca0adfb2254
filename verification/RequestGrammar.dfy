/** Which lines the request parser accepts, said as a grammar.

Each statement is about all texts: a line is accepted exactly if it can be written
in the form given, and then yields what that form names.
*/
module RequestGrammar {
  import opened Octets
  import opened Grammar
  import opened HttpMessage
  import opened RequestMachine
  import opened Serializer
  import opened WireSyntax
  import opened RequestRoundTrip

  // ── fields ──────────────────────────────────────────────────────────────────

  /** A line is a field exactly if it is a token, a colon and a text, of visible
      characters in a header; the value is that text trimmed. */
  lemma {:induction false} FieldMeans(text: string, trailer: bool, f: Field)
    requires text != ""
    ensures FieldOf(text, trailer) == Ok(f) <==>
      exists raw :: text == Spelled(f.name, raw) && ValidName(f.name) && (trailer || AllVchars(raw)) && f.value == TrimOws(raw)
  {
    hide Find, TrimOws, AllTchars, AllVchars;
    var colon := Find(text, ':');
    if FieldOf(text, trailer) == Ok(f) {
      var raw := text[colon + 1..];
      assert text == text[..colon] + ":" + raw;
      assert text == Spelled(f.name, raw);
    }
    if raw :| text == Spelled(f.name, raw) && ValidName(f.name) && (trailer || AllVchars(raw)) && f.value == TrimOws(raw) {
      TokenHasNoColon(f.name);
      SpelledParts(f.name, raw);
    }
  }

  /** Whitespace before the colon is told apart from every other fault. */
  lemma {:induction false} SpaceBeforeColon(text: string, trailer: bool)
    requires text != ""
    ensures FieldOf(text, trailer) == Err(WhitespaceBeforeColon) <==>
      exists name, raw :: text == Spelled(name, raw) && ':' !in name && name != "" && IsOws(name[|name| - 1])
    ensures FieldOf(text, trailer).Err? ==> FieldOf(text, trailer).error in {WhitespaceBeforeColon, MalformedHeader}
  {
    hide Find, TrimOws, AllTchars, AllVchars;
    var colon := Find(text, ':');
    if FieldOf(text, trailer) == Err(WhitespaceBeforeColon) {
      var name, raw := text[..colon], text[colon + 1..];
      assert text == name + ":" + raw;
      assert text == Spelled(name, raw) && ':' !in name && name != "" && IsOws(name[|name| - 1]);
    }
    if name, raw :| text == Spelled(name, raw) && ':' !in name && name != "" && IsOws(name[|name| - 1]) {
      SpelledParts(name, raw);
    }
  }

  // ── the request line ────────────────────────────────────────────────────────

  /** Three parts, one space between each two. */
  function StartOf(meth: string, target: string, version: string): (text: string)
  {
    meth + " " + target + " " + version
  }

  /** A token, and a target without spaces and control characters. */
  predicate ReadableStart(meth: string, target: string)
  {
    && meth != "" && AllTchars(meth)
    && target != "" && (forall i :: 0 <= i < |target| ==> target[i] > ' ' && target[i] != '\U{7F}')
  }

  lemma TargetMeans(target: string)
    ensures AllTargetChars(target) <==> forall i :: 0 <= i < |target| ==> target[i] > ' ' && target[i] != '\U{7F}'
  {
  }

  lemma NoSpaces(meth: string, target: string)
    requires AllTchars(meth) && AllTargetChars(target)
    ensures ' ' !in meth && ' ' !in target
  {
    assert !IsTchar(' ');
  }

  ghost predicate IsStart(text: string, meth: string, target: string, version: Version)
  {
    text == StartOf(meth, target, VersionToken(version)) && ReadableStart(meth, target)
  }

  /** The parser after the request line. */
  function Opened(p: ParserState, meth: string, target: string, version: Version): (q: ParserState)
  {
    p.(phase := InHeaders,
       request := p.request.(meth := MethodFromToken(meth), target := target, version := version))
  }

  lemma {:induction false} StartRead(p: ParserState, meth: string, target: string, version: Version)
    requires ReadableStart(meth, target)
    ensures var text := StartOf(meth, target, VersionToken(version));
      |text| <= p.limits.maxStartLine ==> RequestLine(p, text) == Ok(Opened(p, meth, target, version))
  {
    TargetMeans(target);
    NoSpaces(meth, target);
    VersionReadBack(version);
    StartParts(meth, target, VersionToken(version));
    hide Find, AllTchars, AllTargetChars, MethodFromToken, VersionToken;
  }

  lemma TwoSpaces(text: string, first: nat, second: nat)
    requires first < |text| && text[first] == ' '
    requires var tail := text[first + 1..]; second < |tail| && tail[second] == ' '
    ensures var tail := text[first + 1..]; text == StartOf(text[..first], tail[..second], tail[second + 1..])
  {
    var tail := text[first + 1..];
    assert tail == tail[..second] + " " + tail[second + 1..];
    assert text == text[..first] + " " + tail;
  }

  lemma {:induction false} StartTaken(p: ParserState, text: string)
    requires RequestLine(p, text).Ok?
    ensures |text| <= p.limits.maxStartLine
    ensures exists meth, target, version ::
      IsStart(text, meth, target, version) && RequestLine(p, text).value == Opened(p, meth, target, version)
  {
    hide Find, MethodFromToken, AllTchars, AllTargetChars, StartOf;
    var first := Find(text, ' ');
    var tail := text[first + 1..];
    var second := Find(tail, ' ');
    TwoSpaces(text, first, second);
    var meth, target, version := text[..first], tail[..second], tail[second + 1..];
    var v := if version == "HTTP/1.1" then Http11 else Http10;
    assert VersionToken(v) == version;
    TargetMeans(target);
    assert IsStart(text, meth, target, v) && RequestLine(p, text).value == Opened(p, meth, target, v);
  }

  /** A request line is accepted exactly if it fits its limit and is a token, a
      target and a version the parser knows, separated by single spaces. */
  lemma {:induction false} StartMeans(p: ParserState, text: string, q: ParserState)
    ensures RequestLine(p, text) == Ok(q) <==>
      && |text| <= p.limits.maxStartLine
      && exists meth, target, version :: IsStart(text, meth, target, version) && q == Opened(p, meth, target, version)
  {
    hide RequestLine, MethodFromToken, ReadableStart, StartOf;
    if RequestLine(p, text) == Ok(q) {
      StartTaken(p, text);
    }
    if |text| <= p.limits.maxStartLine {
      if meth, target, version :| IsStart(text, meth, target, version) && q == Opened(p, meth, target, version) {
        StartRead(p, meth, target, version);
      }
    }
  }

  /** Another version is told apart, if the rest is in order. */
  lemma {:induction false} OtherVersion(p: ParserState, meth: string, target: string, version: string)
    requires ReadableStart(meth, target) && ' ' !in version && version != "HTTP/1.1" && version != "HTTP/1.0"
    requires |StartOf(meth, target, version)| <= p.limits.maxStartLine
    ensures RequestLine(p, StartOf(meth, target, version)) == Err(UnsupportedVersion)
  {
    TargetMeans(target);
    NoSpaces(meth, target);
    StartParts(meth, target, version);
    hide Find, AllTchars, AllTargetChars, MethodFromToken;
  }

  // ── chunk sizes ─────────────────────────────────────────────────────────────

  /** The size line is within the limits, and its digits are `n`. */
  predicate SizeFits(p: ParserState, digits: string, extension: Option<string>, n: nat)
  {
    && ';' !in digits && ParseNumber(digits, 16) == Some(n)
    && (extension.Some? ==> |extension.value| <= p.limits.maxChunkExtension)
    && n <= p.limits.maxChunkSize && Add64(p.seen, n) <= p.limits.maxBodySize
  }

  /** The parser after a size line. */
  function Sized(p: ParserState, n: nat): (q: ParserState)
  {
    if n == 0 then p.(phase := Trailers) else p.(phase := ChunkData, chunkRemaining := n)
  }

  lemma {:induction false} SizeRead(p: ParserState, digits: string, extension: Option<string>, n: nat)
    requires SizeFits(p, digits, extension, n)
    ensures ChunkSizeLine(p, SizeLine(digits, extension)) == Ok(Sized(p, n))
  {
    SizeParts(digits, extension);
    hide Find, ParseNumber, SizeLine;
  }

  lemma {:induction false} SizeTaken(p: ParserState, text: string)
    requires ChunkSizeLine(p, text).Ok?
    ensures exists digits, extension, n ::
      text == SizeLine(digits, extension) && SizeFits(p, digits, extension, n) && ChunkSizeLine(p, text).value == Sized(p, n)
  {
    var semicolon := Find(text, ';');
    hide Find, ParseNumber;
    var digits := text[..semicolon];
    var extension := if semicolon < |text| then Some(text[semicolon + 1..]) else None;
    assert text == SizeLine(digits, extension);
    var n := ParseNumber(digits, 16).value;
    assert SizeFits(p, digits, extension, n);
  }

  /** A size line is accepted exactly if its digits are a number within the chunk
      limit that, added to what was seen, is within the body limit, and its
      extension is within its own. */
  lemma {:induction false} SizeMeans(p: ParserState, text: string, q: ParserState)
    ensures ChunkSizeLine(p, text) == Ok(q) <==>
      exists digits, extension, n ::
        text == SizeLine(digits, extension) && SizeFits(p, digits, extension, n) && q == Sized(p, n)
  {
    hide ChunkSizeLine, SizeFits, Sized, SizeLine;
    if ChunkSizeLine(p, text) == Ok(q) {
      SizeTaken(p, text);
    }
    if digits, extension, n :| text == SizeLine(digits, extension) && SizeFits(p, digits, extension, n) && q == Sized(p, n) {
      SizeRead(p, digits, extension, n);
    }
  }
}

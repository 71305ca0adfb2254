/** Field lines and chunks as they stand on the wire. */
module WireSyntax {
  import opened Octets
  import opened Grammar
  import opened HttpMessage
  import opened Serializer

  /** A field line: a token, a colon and any text. */
  function Spelled(name: string, raw: string): (text: string)
  {
    name + ":" + raw
  }

  lemma SpelledParts(name: string, raw: string)
    requires ':' !in name
    ensures var text := Spelled(name, raw);
      text != "" && Find(text, ':') == |name| < |text| && text[..|name|] == name && text[|name| + 1..] == raw
  {
    var text := Spelled(name, raw);
    assert text[..|name|] == name && text[|name| + 1..] == raw;
    FindUnique(text, ':', |name|);
  }

  lemma TokenHasNoColon(name: string)
    requires AllTchars(name)
    ensures ':' !in name && (name != "" ==> !IsOws(name[0]) && !IsOws(name[|name| - 1]))
  {
    assert !IsTchar(':') && !IsTchar(' ') && !IsTchar('\t');
  }

  /** The line of a field; the value may carry whitespace around it. */
  function LineOf(f: Field): (s: string)
  {
    Spelled(f.name, f.value)
  }

  predicate Readable(f: Field)
  {
    ValidName(f.name) && AllVchars(f.value)
  }

  /** The field as it is stored. */
  function Kept(f: Field): (g: Field)
  {
    Field(f.name, TrimOws(f.value))
  }

  predicate AllReadable(h: Headers)
  {
    forall i :: 0 <= i < |h| ==> Readable(h[i])
  }

  function LinesOf(h: Headers): (s: string)
  {
    if h == [] then "" else LineOf(h[0]) + CRLF + LinesOf(h[1..])
  }

  /** A chunk size line: hexadecimal digits, and an extension after a semicolon. */
  function SizeLine(digits: string, extension: Option<string>): (s: string)
  {
    if extension.Some? then digits + ";" + extension.value else digits
  }

  lemma SizeParts(digits: string, extension: Option<string>)
    requires ';' !in digits
    ensures var text := SizeLine(digits, extension); var semicolon := Find(text, ';');
      && text[..semicolon] == digits
      && (semicolon < |text| <==> extension.Some?)
      && (extension.Some? ==> text[semicolon + 1..] == extension.value)
  {
    var text := SizeLine(digits, extension);
    assert text[..|digits|] == digits;
    FindUnique(text, ';', |digits|);
  }

  lemma DigitsAreOneLine(s: string)
    requires ParseNumber(s, 16).Some?
    ensures '\r' !in s && '\n' !in s && ';' !in s
  {
    assert AllDigits(s, 16);
    assert DigitValue('\r') >= 16 && DigitValue('\n') >= 16 && DigitValue(';') >= 16;
    hide NumeralValue;
  }

  /** A chunk as written: its size in digits, an extension, and its octets. */
  datatype Chunk = Chunk(digits: string, extension: Option<string>, data: string)

  function ChunksText(chunks: seq<Chunk>): (s: string)
  {
    if chunks == [] then ""
    else SizeLine(chunks[0].digits, chunks[0].extension) + CRLF + chunks[0].data + CRLF + ChunksText(chunks[1..])
  }

  function DataOf(chunks: seq<Chunk>): (s: string)
  {
    if chunks == [] then "" else chunks[0].data + DataOf(chunks[1..])
  }
}

/** Turning responses into octets. */
module Serializer {
  import opened Octets
  import opened Grammar
  import opened HttpMessage
  import opened Buffers

  datatype Framing = WithLength | WithChunks | Unframed

  predicate ValidName(name: string)
  {
    name != "" && AllTchars(name)
  }

  predicate ValidFields(h: Headers)
  {
    forall i :: 0 <= i < |h| ==> ValidName(h[i].name) && AllVchars(h[i].value)
  }

  /** The line a field is written as, without its terminator. */
  function FieldText(f: Field): (s: string)
  {
    f.name + ": " + f.value
  }

  function FieldLines(h: Headers): (s: string)
  {
    if h == [] then "" else FieldText(h[0]) + CRLF + FieldLines(h[1..])
  }

  lemma {:induction false} FieldLinesAppend(a: Headers, b: Headers)
    ensures FieldLines(a + b) == FieldLines(a) + FieldLines(b)
  {
    if a == [] {
      assert a + b == b;
    } else {
      assert (a + b)[1..] == a[1..] + b;
      FieldLinesAppend(a[1..], b);
    }
  }

  /** Octets of the lines themselves, as both sides count them. */
  function TextBytes(h: Headers): (n: nat)
  {
    if h == [] then 0 else |FieldText(h[0])| + TextBytes(h[1..])
  }

  /** Reason phrases for the codes a server emits; empty for any other code. */
  function DefaultReason(status: nat): (s: string)
  {
    match status
    case 100 => "Continue"
    case 101 => "Switching Protocols"
    case 200 => "OK"
    case 201 => "Created"
    case 202 => "Accepted"
    case 204 => "No Content"
    case 206 => "Partial Content"
    case 301 => "Moved Permanently"
    case 302 => "Found"
    case 303 => "See Other"
    case 304 => "Not Modified"
    case 307 => "Temporary Redirect"
    case 308 => "Permanent Redirect"
    case 400 => "Bad Request"
    case 401 => "Unauthorized"
    case 403 => "Forbidden"
    case 404 => "Not Found"
    case 405 => "Method Not Allowed"
    case 408 => "Request Timeout"
    case 409 => "Conflict"
    case 411 => "Length Required"
    case 413 => "Content Too Large"
    case 414 => "URI Too Long"
    case 415 => "Unsupported Media Type"
    case 429 => "Too Many Requests"
    case 431 => "Request Header Fields Too Large"
    case 500 => "Internal Server Error"
    case 501 => "Not Implemented"
    case 503 => "Service Unavailable"
    case 505 => "HTTP Version Not Supported"
    case _ => ""
  }

  function ReasonText(response: Response): (s: string)
  {
    if response.reason != "" then response.reason else DefaultReason(response.status)
  }

  function StatusText(response: Response): (s: string)
  {
    VersionToken(response.version) + " " + Numeral(response.status, 10) + " " + ReasonText(response)
  }

  /** The field the serializer adds to the caller's own. */
  function FramingFields(status: nat, framing: Framing, bodySize: nat): (h: Headers)
  {
    if StatusForbidsBody(status) || framing.Unframed? then []
    else if framing.WithLength? then [Field("Content-Length", Numeral(bodySize, 10))]
    else [Field("Transfer-Encoding", "chunked")]
  }

  /** Every field on the wire, in order. */
  function WireFields(response: Response, framing: Framing, bodySize: nat): (h: Headers)
  {
    response.headers + FramingFields(response.status, framing, bodySize)
  }

  function ResponseError(response: Response, framing: Framing): (e: Option<Error>)
  {
    if response.version.Http10? && framing.WithChunks? then Some(NotSupported)
    else if response.status < 100 || response.status > 999 then Some(InvalidStatus)
    else if Contains(response.headers, "Content-Length")
         || Contains(response.headers, "Transfer-Encoding") then Some(FramingConflict)
    else if !ValidFields(response.headers) then Some(InvalidHeader)
    else if response.reason != "" && !AllVchars(response.reason) then Some(InvalidHeader)
    else None
  }

  /** The octets of a response head. */
  function HeadText(response: Response, framing: Framing, bodySize: nat): (s: string)
  {
    StatusText(response) + CRLF + FieldLines(WireFields(response, framing, bodySize)) + CRLF
  }

  function ChunkText(piece: string): (s: string)
  {
    Numeral(|piece|, 16) + CRLF + piece + CRLF
  }

  const LAST_CHUNK: string := "0\r\n\r\n"

  // ── the writers ─────────────────────────────────────────────────────────────

  /** The digit loop's arithmetic: splitting off the last of at most `k` digits. */
  lemma {:induction false} HexDigits(n: nat, k: nat)
    requires n < Power(16, k)
    ensures n == 0 ==> Numeral(n, 16) == [DigitChar(0)]
    ensures n > 0 ==> k > 0 && n / 16 < Power(16, k - 1)
    ensures n > 0 ==> Numeral(n, 16) == (if n / 16 > 0 then Numeral(n / 16, 16) else "") + [DigitChar(n % 16)]
  {
    hide DigitChar;
    assert k > 0 ==> Power(16, k) == 16 * Power(16, k - 1);
    assert 0 < n < 16 ==> n % 16 == n && "" + [DigitChar(n)] == [DigitChar(n)];
  }

  /** `to_hex`: digits written from the end of a fixed scratch area. */
  method ToHex(value: nat) returns (digits: string)
    requires value < TWO_64
    ensures digits == Numeral(value, 16)
  {
    hide DigitChar, DigitValue, Numeral, Power;
    var scratch := new char[20];
    SixteenHexDigits();
    HexDigits(value, 16);
    var index, left: nat := 20, value;
    if left == 0 {
      index := index - 1;
      scratch[index] := DigitChar(0);
    }
    ghost var room: nat := 16;
    while left > 0
      invariant 0 <= index <= 20 && left < Power(16, room)
      invariant left > 0 ==> index == room + 4
      invariant left > 0 ==> Numeral(left, 16) + scratch[index..] == Numeral(value, 16)
      invariant left == 0 ==> scratch[index..] == Numeral(value, 16)
      decreases left
    {
      HexDigits(left, room);
      index := index - 1;
      scratch[index] := DigitChar(left % 16);
      assert scratch[index..] == [DigitChar(left % 16)] + scratch[index + 1..];
      room := room - 1;
      left := left / 16;
    }
    digits := scratch[index..];
  }

  /** Append a response head, or say why it must not be sent. */
  method WriteResponseHead(out: Buffer, response: Response, framing: Framing, bodySize: nat)
      returns (e: Option<Error>)
    requires out.Valid() && out.pending == 0
    modifies out
    ensures out.Valid() && out.pending == 0
    ensures e == ResponseError(response, framing)
    ensures e.None? ==>
              out.Contents() == old(out.Contents()) + HeadText(response, framing, bodySize)
  {
    hide StatusText, FieldLines, FramingFields, HeadText, GetAll, ValidFields;
    if response.version.Http10? && framing.WithChunks? {
      return Some(NotSupported);
    }
    if response.status < 100 || response.status > 999 {
      return Some(InvalidStatus);
    }
    if Contains(response.headers, "Content-Length")
       || Contains(response.headers, "Transfer-Encoding") {
      return Some(FramingConflict);
    }
    var valid := CheckFields(response.headers);
    if !valid {
      return Some(InvalidHeader);
    }
    ghost var before := out.Contents();
    var written := WriteStatusLine(out, response);
    if !written {
      return Some(InvalidHeader);
    }
    ghost var head := out.Contents();
    var framed := FramingFields(response.status, framing, bodySize);
    WriteFields(out, response.headers);
    WriteFields(out, framed);
    out.Append(CRLF);
    HeadPieces(response, framing, bodySize);
    assert out.Contents() == head + (FieldLines(response.headers) + FieldLines(framed) + CRLF);
    e := None;
  }

  lemma HeadPieces(response: Response, framing: Framing, bodySize: nat)
    ensures HeadText(response, framing, bodySize)
            == StatusText(response) + CRLF
               + (FieldLines(response.headers)
                  + FieldLines(FramingFields(response.status, framing, bodySize)) + CRLF)
  {
    hide StatusText, FieldLines;
    FieldLinesAppend(response.headers, FramingFields(response.status, framing, bodySize));
  }

  method CheckFields(h: Headers) returns (valid: bool)
    ensures valid == ValidFields(h)
  {
    var i := 0;
    while i < |h|
      invariant 0 <= i <= |h|
      invariant forall k :: 0 <= k < i ==> ValidName(h[k].name) && AllVchars(h[k].value)
    {
      if !ValidName(h[i].name) || !AllVchars(h[i].value) {
        return false;
      }
      i := i + 1;
    }
    valid := true;
  }

  /** The reason phrase is checked only once the octets before it are out. */
  method WriteStatusLine(out: Buffer, response: Response) returns (ok: bool)
    requires out.Valid() && out.pending == 0
    modifies out
    ensures out.Valid() && out.pending == 0
    ensures ok == (response.reason == "" || AllVchars(response.reason))
    ensures ok ==> out.Contents() == old(out.Contents()) + (StatusText(response) + CRLF)
  {
    hide VersionToken, Numeral, DefaultReason;
    ghost var before := out.Contents();
    var start := VersionToken(response.version) + " " + Numeral(response.status, 10) + " ";
    out.Append(start);
    if response.reason != "" {
      if !AllVchars(response.reason) {
        return false;
      }
      out.Append(response.reason);
    } else {
      out.Append(DefaultReason(response.status));
    }
    out.Append(CRLF);
    assert out.Contents() == before + start + ReasonText(response) + CRLF;
    ok := true;
  }

  method WriteFields(out: Buffer, h: Headers)
    requires out.Valid() && out.pending == 0
    modifies out
    ensures out.Valid() && out.pending == 0
    ensures out.Contents() == old(out.Contents()) + FieldLines(h)
  {
    hide FieldText;
    var i := 0;
    while i < |h|
      invariant 0 <= i <= |h|
      invariant out.Valid() && out.pending == 0
      invariant out.Contents() + FieldLines(h[i..]) == old(out.Contents()) + FieldLines(h)
    {
      ghost var before := out.Contents();
      assert FieldLines(h[i..]) == FieldText(h[i]) + CRLF + FieldLines(h[i + 1..]);
      out.Append(FieldText(h[i]));
      out.Append(CRLF);
      i := i + 1;
      assert out.Contents() + FieldLines(h[i..]) == before + FieldLines(h[i - 1..]);
    }
  }

  /** A zero-length chunk would end the message, so it is refused. */
  method WriteChunk(out: Buffer, piece: string) returns (e: Option<Error>)
    requires out.Valid() && out.pending == 0 && |piece| < TWO_64
    modifies out
    ensures out.Valid() && out.pending == 0
    ensures e == if piece == "" then Some(FramingConflict) else None
    ensures out.Contents() == old(out.Contents()) + if piece == "" then "" else ChunkText(piece)
  {
    if piece == "" {
      return Some(FramingConflict);
    }
    hide Numeral;
    ghost var before := out.Contents();
    var size := ToHex(|piece|);
    out.Append(size);
    out.Append(CRLF);
    out.Append(piece);
    out.Append(CRLF);
    assert out.Contents() == before + (size + CRLF + piece + CRLF);
    e := None;
  }
}

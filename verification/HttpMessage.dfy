/** Messages, their header fields and the limits a parser enforces. */
module HttpMessage {
  import opened Octets
  import opened Grammar

  datatype Method = Get | Head | Post | Put | Delete | Connect | Options | Trace | Patch | Other

  datatype Version = Http10 | Http11

  function MethodToken(m: Method): (s: string)
  {
    match m
    case Get => "GET"
    case Head => "HEAD"
    case Post => "POST"
    case Put => "PUT"
    case Delete => "DELETE"
    case Connect => "CONNECT"
    case Options => "OPTIONS"
    case Trace => "TRACE"
    case Patch => "PATCH"
    case Other => ""
  }

  function MethodFromToken(s: string): (m: Method)
  {
    if s == "GET" then Get
    else if s == "HEAD" then Head
    else if s == "POST" then Post
    else if s == "PUT" then Put
    else if s == "DELETE" then Delete
    else if s == "CONNECT" then Connect
    else if s == "OPTIONS" then Options
    else if s == "TRACE" then Trace
    else if s == "PATCH" then Patch
    else Other
  }

  function VersionToken(v: Version): (s: string)
    ensures |s| == 8
  {
    match v
    case Http10 => "HTTP/1.0"
    case Http11 => "HTTP/1.1"
  }

  // ── header fields ───────────────────────────────────────────────────────────

  datatype Field = Field(name: string, value: string)

  /** Ordered, duplicate-preserving collection; names compare without case. */
  type Headers = seq<Field>

  function AsciiLower(c: char): (r: char)
  {
    if 'A' <= c <= 'Z' then (c as int - 'A' as int + 'a' as int) as char else c
  }

  predicate NamesEqual(a: string, b: string)
  {
    |a| == |b| && forall i :: 0 <= i < |a| ==> AsciiLower(a[i]) == AsciiLower(b[i])
  }

  /** Values of every field called `name`, in order of appearance. */
  function GetAll(h: Headers, name: string): (values: seq<string>)
  {
    if h == [] then []
    else if NamesEqual(h[0].name, name) then [h[0].value] + GetAll(h[1..], name)
    else GetAll(h[1..], name)
  }

  predicate Contains(h: Headers, name: string)
  {
    GetAll(h, name) != []
  }

  /** Names are the same if they differ in nothing but the case of letters. */
  predicate SameButCase(c: char, d: char)
  {
    || c == d
    || ('A' <= c <= 'Z' && d as int == c as int + 32)
    || ('A' <= d <= 'Z' && c as int == d as int + 32)
  }

  lemma NamesEqualMeans(a: string, b: string)
    ensures NamesEqual(a, b) <==> |a| == |b| && forall i :: 0 <= i < |a| ==> SameButCase(a[i], b[i])
  {
    if |a| == |b| {
      forall i | 0 <= i < |a| ensures AsciiLower(a[i]) == AsciiLower(b[i]) <==> SameButCase(a[i], b[i]) {
        LowerMeans(a[i], b[i]);
      }
    }
  }

  lemma LowerMeans(c: char, d: char)
    ensures AsciiLower(c) == AsciiLower(d) <==> SameButCase(c, d)
  {
  }

  /** A field is found by name exactly if there is one. */
  lemma {:induction false} ContainsMeans(h: Headers, name: string)
    ensures Contains(h, name) <==> exists i :: 0 <= i < |h| && NamesEqual(h[i].name, name)
  {
    hide NamesEqual;
    if h != [] {
      ContainsMeans(h[1..], name);
      if i :| 0 <= i < |h[1..]| && NamesEqual(h[1..][i].name, name) {
        assert NamesEqual(h[i + 1].name, name);
      }
      if i :| 0 <= i < |h| && NamesEqual(h[i].name, name) && i > 0 {
        assert h[i] == h[1..][i - 1];
      }
    }
  }

  lemma {:induction false} GetAllAppend(a: Headers, b: Headers, name: string)
    ensures GetAll(a + b, name) == GetAll(a, name) + GetAll(b, name)
  {
    if a == [] {
      assert a + b == b;
    } else {
      assert (a + b)[1..] == a[1..] + b;
      GetAllAppend(a[1..], b, name);
    }
  }

  /** The fields as a recipient stores them: values lose surrounding whitespace. */
  function Trimmed(h: Headers): (r: Headers)
    ensures |r| == |h|
  {
    if h == [] then [] else [Field(h[0].name, TrimOws(h[0].value))] + Trimmed(h[1..])
  }

  /** Trimming keeps every name, so it keeps which names occur. */
  lemma {:induction false} TrimmedContains(h: Headers, name: string)
    ensures Contains(Trimmed(h), name) == Contains(h, name)
  {
    if h != [] {
      TrimmedContains(h[1..], name);
      assert Trimmed(h)[1..] == Trimmed(h[1..]);
    }
  }

  /** Name, colon and value. */
  function FieldSize(f: Field): (n: nat)
  {
    |f.name| + 1 + |f.value|
  }

  /** Octets a header list occupies: name, colon and value of each field. */
  function StoredBytes(h: Headers): (n: nat)
  {
    if h == [] then 0
    else StoredBytes(h[..|h| - 1]) + |h[|h| - 1].name| + 1 + |h[|h| - 1].value|
  }

  lemma {:induction false} StoredBytesAppend(h: Headers, f: Field)
    ensures StoredBytes(h + [f]) == StoredBytes(h) + |f.name| + 1 + |f.value|
  {
    assert (h + [f])[..|h|] == h;
  }

  // ── messages ────────────────────────────────────────────────────────────────

  datatype BodyKind = NoBody | Length | Chunked | CloseDelimited

  datatype Request = Request(
    meth: Method,
    target: string,
    version: Version,
    headers: Headers,
    bodyKind: BodyKind,
    contentLength: nat)

  datatype Response = Response(
    version: Version,
    status: nat,
    reason: string,
    headers: Headers,
    bodyKind: BodyKind,
    contentLength: nat)

  const EMPTY_REQUEST: Request := Request(Get, "", Http11, [], NoBody, 0)
  const EMPTY_RESPONSE: Response := Response(Http11, 200, "", [], NoBody, 0)

  /** Informational, No Content and Not Modified responses never have a body. */
  predicate StatusForbidsBody(status: nat)
  {
    100 <= status < 200 || status == 204 || status == 304
  }

  datatype Limits = Limits(
    maxStartLine: nat,
    maxHeaderLine: nat,
    maxHeaderCount: nat,
    maxHeadersTotal: nat,
    maxBodySize: nat,
    maxChunkSize: nat,
    maxChunkExtension: nat,
    allowBareLf: bool,
    allowObsoleteLineFolding: bool)
  {
    /** Every bound is a 64-bit unsigned integer. */
    predicate Fits64()
    {
      && maxStartLine < TWO_64 && maxHeaderLine < TWO_64 && maxHeaderCount < TWO_64
      && maxHeadersTotal < TWO_64 && maxBodySize < TWO_64 && maxChunkSize < TWO_64
      && maxChunkExtension < TWO_64
    }
  }

  /** Every bound at zero. */
  const NO_LIMITS: Limits := Limits(0, 0, 0, 0, 0, 0, 0, false, false)

  // ── failures and progress ───────────────────────────────────────────────────

  datatype Error =
    | MalformedStartLine | UnsupportedVersion | MalformedHeader | WhitespaceBeforeColon
    | ObsoleteLineFolding | FramingConflict | InconsistentContentLength
    | MalformedContentLength | InvalidTransferEncoding | MalformedChunk | BadLineEnding
    | LimitExceeded
    | InvalidHeader | InvalidStatus
    | Eof | NotSupported | InvalidArgument | Cancelled | TimedOut

  datatype Result<+T> = Ok(value: T) | Err(error: Error)

  datatype ParseStep = NeedMore | HeadReady | BodyReady | Complete
}

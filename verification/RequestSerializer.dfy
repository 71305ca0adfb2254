/** Turning requests into octets. */
module RequestSerializer {
  import opened Octets
  import opened Grammar
  import opened HttpMessage
  import opened Buffers
  import opened Serializer

  // ── the Host field ──────────────────────────────────────────────────────────

  /** Index of the first "::" at or after `from`, or the length if there is none. */
  function FindDouble(s: string, from: nat): (i: nat)
    requires from <= |s|
    ensures from <= i <= |s|
    ensures i < |s| ==> i + 1 < |s| && s[i] == ':' && s[i + 1] == ':'
    ensures forall j :: from <= j < i && j + 1 < |s| ==> !(s[j] == ':' && s[j + 1] == ':')
    decreases |s| - from
  {
    if from + 1 >= |s| then |s|
    else if s[from] == ':' && s[from + 1] == ':' then from
    else FindDouble(s, from + 1)
  }

  predicate HasTriple(s: string)
  {
    exists i :: 0 <= i < |s| - 2 && s[i] == ':' && s[i + 1] == ':' && s[i + 2] == ':'
  }

  /** Groups finished so far and digits in the one under way; `None` once a group
      is too long or holds something else. */
  function ScanGroups(ip: string): (r: Option<(nat, nat)>)
  {
    if ip == "" then Some((0, 0))
    else
      var before := ScanGroups(ip[..|ip| - 1]);
      var c := ip[|ip| - 1];
      if before.None? then None
      else
        var (groups, digits) := before.value;
        if c == ':' then Some((if digits > 0 then groups + 1 else groups, 0))
        else if DigitValue(c) >= 16 || digits + 1 > 4 then None
        else Some((groups, digits + 1))
  }

  /** A bracketed IPv6 literal: at most one "::", which stands for what is missing
      of eight groups. */
  predicate ValidIp(ip: string)
  {
    && ip != ""
    && (ip[0] == ':' ==> |ip| > 1 && ip[1] == ':')
    && (ip[|ip| - 1] == ':' ==> |ip| > 1 && ip[|ip| - 2] == ':')
    && !HasTriple(ip)
    && var double := FindDouble(ip, 0);
       && (double < |ip| ==> FindDouble(ip, double + 2) == |ip|)
       && ScanGroups(ip).Some?
       && var (groups, digits) := ScanGroups(ip).value;
          var all := if digits > 0 then groups + 1 else groups;
          if double == |ip| then all == 8 && ip[0] != ':' && ip[|ip| - 1] != ':' else all < 8
  }

  predicate IsNameChar(c: char)
  {
    'a' <= c <= 'z' || 'A' <= c <= 'Z' || '0' <= c <= '9' || c == '.' || c == '-'
  }

  /** A decimal port that fits 16 bits; leading zeros are fine. */
  predicate ValidPort(port: string)
  {
    port != "" && AllDigits(port, 10) && NumeralValue(port, 10) <= 65535
  }

  /** The authority forms accepted: a registered name or a bracketed literal, with
      an optional port. */
  predicate ValidHost(host: string)
  {
    host != "" &&
    if host[0] == '[' then
      var end := Find(host, ']');
      && end < |host|
      && ValidIp(host[1..end])
      && (end + 1 < |host| ==> host[end + 1] == ':' && ValidPort(host[end + 2..]))
    else
      var colon := Find(host, ':');
      && colon > 0
      && (forall i :: 0 <= i < colon ==> IsNameChar(host[i]))
      && (colon < |host| ==> ValidPort(host[colon + 1..]))
  }

  // ── what may be sent ────────────────────────────────────────────────────────

  predicate IsSentTargetChar(c: char)
  {
    ' ' < c < '\U{7F}' && c != '#'
  }

  predicate ValidTarget(request: Request)
  {
    && request.target != ""
    && (request.target[0] == '/' || (request.meth.Options? && request.target == "*"))
    && forall i :: 0 <= i < |request.target| ==> IsSentTargetChar(request.target[i])
  }

  predicate KnownOptions(value: string)
  {
    forall i :: 0 <= i < |SplitList(value)| ==>
      NamesEqual(SplitList(value)[i], "close") || NamesEqual(SplitList(value)[i], "keep-alive")
  }

  /** One field against the limits, `total` octets of fields before it. */
  function FieldCheck(f: Field, total: nat, limits: Limits): (r: Result<nat>)
  {
    if !ValidName(f.name) || !AllVchars(f.value) then Err(InvalidHeader)
    else if NamesEqual(f.name, "Connection") && !KnownOptions(f.value) then Err(NotSupported)
    else if |f.name| > limits.maxHeaderLine
         || |f.value| > Sub64(limits.maxHeaderLine, |f.name|)
         || Sub64(Sub64(limits.maxHeaderLine, |f.name|), |f.value|) < 2 then Err(LimitExceeded)
    else
      var size := |f.name| + |f.value| + 2;
      if size > Sub64(limits.maxHeadersTotal, total) then Err(LimitExceeded) else Ok(Add64(total, size))
  }

  function FieldsCheck(h: Headers, total: nat, limits: Limits): (r: Result<nat>)
  {
    if h == [] then Ok(total)
    else
      var first := FieldCheck(h[0], total, limits);
      if first.Err? then first else FieldsCheck(h[1..], first.value, limits)
  }

  function LengthText(bodySize: nat): (s: string)
  {
    "Content-Length: " + Numeral(bodySize, 10)
  }

  function HostError(request: Request): (e: Option<Error>)
  {
    var hosts := GetAll(request.headers, "Host");
    if |hosts| > 1 || (request.version.Http11? && |hosts| != 1) then Some(InvalidHeader)
    else if hosts != [] && !ValidHost(hosts[0]) then Some(InvalidHeader)
    else None
  }

  predicate StartTooLong(request: Request, limits: Limits)
  {
    || |request.target| > limits.maxStartLine
    || |MethodToken(request.meth)| + 10 > Sub64(limits.maxStartLine, |request.target|)
  }

  function FieldsError(request: Request, bodySize: nat, limits: Limits): (e: Option<Error>)
  {
    var total := FieldsCheck(request.headers, 0, limits);
    if total.Err? then Some(total.error)
    else if |LengthText(bodySize)| > limits.maxHeaderLine
         || |LengthText(bodySize)| > Sub64(limits.maxHeadersTotal, total.value) then Some(LimitExceeded)
    else None
  }

  /** Why a request head must not be written, in the order it is found out. */
  function RequestError(request: Request, bodySize: nat, limits: Limits): (e: Option<Error>)
  {
    if request.meth.Connect? || request.meth.Other?
       || Contains(request.headers, "Upgrade") || Contains(request.headers, "Expect") then Some(NotSupported)
    else if !ValidTarget(request) then Some(InvalidArgument)
    else if Contains(request.headers, "Content-Length")
         || Contains(request.headers, "Transfer-Encoding") then Some(FramingConflict)
    else if HostError(request).Some? then HostError(request)
    else if StartTooLong(request, limits) || bodySize > limits.maxBodySize
         || |request.headers| >= limits.maxHeaderCount then Some(LimitExceeded)
    else FieldsError(request, bodySize, limits)
  }

  function StartText(request: Request): (s: string)
  {
    MethodToken(request.meth) + " " + request.target + " " + VersionToken(request.version)
  }

  /** The octets of a request head. */
  function RequestText(request: Request, bodySize: nat): (s: string)
  {
    StartText(request) + CRLF + FieldLines(request.headers) + LengthText(bodySize) + CRLF + CRLF
  }

  // ── the limit subtractions never wrap ───────────────────────────────────────

  /** The field check, said without wrap-around. */
  lemma FieldCheckMeans(f: Field, total: nat, limits: Limits)
    requires limits.Fits64() && total <= limits.maxHeadersTotal
    ensures FieldCheck(f, total, limits).Ok? <==>
              && ValidName(f.name) && AllVchars(f.value)
              && (NamesEqual(f.name, "Connection") ==> KnownOptions(f.value))
              && |FieldText(f)| <= limits.maxHeaderLine
              && total + |FieldText(f)| <= limits.maxHeadersTotal
    ensures FieldCheck(f, total, limits).Ok? ==> FieldCheck(f, total, limits).value == total + |FieldText(f)|
  {
    hide AllTchars, AllVchars, NamesEqual, KnownOptions;
  }

  predicate FieldsSendable(h: Headers, limits: Limits)
  {
    forall i :: 0 <= i < |h| ==>
      && ValidName(h[i].name) && AllVchars(h[i].value)
      && (NamesEqual(h[i].name, "Connection") ==> KnownOptions(h[i].value))
      && |FieldText(h[i])| <= limits.maxHeaderLine
  }

  lemma {:induction false} FieldsCheckMeans(h: Headers, total: nat, limits: Limits)
    requires limits.Fits64() && total <= limits.maxHeadersTotal
    ensures FieldsCheck(h, total, limits).Ok? <==>
              FieldsSendable(h, limits) && total + TextBytes(h) <= limits.maxHeadersTotal
    ensures FieldsCheck(h, total, limits).Ok? ==> FieldsCheck(h, total, limits).value == total + TextBytes(h)
  {
    hide FieldCheck, ValidName, AllVchars, NamesEqual, KnownOptions, FieldText;
    if h != [] {
      FieldCheckMeans(h[0], total, limits);
      var first := FieldCheck(h[0], total, limits);
      if first.Ok? {
        FieldsCheckMeans(h[1..], first.value, limits);
        assert FieldsSendable(h, limits) <==> FieldsSendable(h[1..], limits) by { SendableTail(h, limits); }
      }
    }
  }

  lemma SendableTail(h: Headers, limits: Limits)
    requires h != []
    requires ValidName(h[0].name) && AllVchars(h[0].value) && |FieldText(h[0])| <= limits.maxHeaderLine
    requires NamesEqual(h[0].name, "Connection") ==> KnownOptions(h[0].value)
    ensures FieldsSendable(h, limits) <==> FieldsSendable(h[1..], limits)
  {
    hide ValidName, AllVchars, NamesEqual, KnownOptions, FieldText;
    if FieldsSendable(h[1..], limits) {
      forall i | 0 <= i < |h|
        ensures && ValidName(h[i].name) && AllVchars(h[i].value)
                && (NamesEqual(h[i].name, "Connection") ==> KnownOptions(h[i].value))
                && |FieldText(h[i])| <= limits.maxHeaderLine
      {
        assert i > 0 ==> h[i] == h[1..][i - 1];
      }
    }
    assert forall i :: 0 <= i < |h| - 1 ==> h[1..][i] == h[i + 1];
  }

  /** What may be sent, with every limit a plain sum. */
  predicate Sendable(request: Request, bodySize: nat, limits: Limits)
  {
    && !request.meth.Connect? && !request.meth.Other?
    && !Contains(request.headers, "Upgrade") && !Contains(request.headers, "Expect")
    && ValidTarget(request)
    && !Contains(request.headers, "Content-Length") && !Contains(request.headers, "Transfer-Encoding")
    && HostError(request).None?
    && |StartText(request)| <= limits.maxStartLine
    && bodySize <= limits.maxBodySize
    && |request.headers| + 1 <= limits.maxHeaderCount
    && FieldsSendable(request.headers, limits)
    && |LengthText(bodySize)| <= limits.maxHeaderLine
    && TextBytes(request.headers) + |LengthText(bodySize)| <= limits.maxHeadersTotal
  }

  /** The writer accepts exactly what fits: none of its subtractions wraps. */
  lemma AcceptsExactly(request: Request, bodySize: nat, limits: Limits)
    requires limits.Fits64()
    ensures RequestError(request, bodySize, limits).None? <==> Sendable(request, bodySize, limits)
  {
    FieldsCheckMeans(request.headers, 0, limits);
    assert StartTooLong(request, limits) <==> |StartText(request)| > limits.maxStartLine by { StartFits(request, limits); }
    hide FieldsCheck, FieldsSendable, StartTooLong, StartText, HostError, ValidTarget, GetAll, TextBytes, LengthText;
  }

  lemma StartFits(request: Request, limits: Limits)
    requires limits.Fits64()
    ensures StartTooLong(request, limits) <==> |StartText(request)| > limits.maxStartLine
  {
    hide MethodToken;
  }

  // ── the writer ──────────────────────────────────────────────────────────────

  lemma {:induction false} BigPrefix(port: string, k: nat)
    requires k <= |port| && AllDigits(port, 10) && NumeralValue(port[..k], 10) > 6553 && k < |port|
    ensures NumeralValue(port, 10) > 65535
    decreases |port|
  {
    var n := |port| - 1;
    if k == n {
      assert port[..n] == port[..k];
    } else {
      assert port[..n][..k] == port[..k];
      BigPrefix(port[..n], k);
    }
  }

  method CheckPort(port: string) returns (ok: bool)
    requires port != ""
    ensures ok == ValidPort(port)
  {
    var number := 0;
    for i := 0 to |port|
      invariant AllDigits(port[..i], 10) && number == NumeralValue(port[..i], 10)
    {
      if !('0' <= port[i] <= '9') {
        return false;
      }
      if number > 6553 {
        if AllDigits(port, 10) {
          BigPrefix(port, i);
        }
        return false;
      }
      assert port[..i + 1][..i] == port[..i];
      number := number * 10 + DigitValue(port[i]);
    }
    assert port[..|port|] == port;
    ok := number <= 65535;
  }

  method CountGroups(ip: string) returns (r: Option<(nat, nat)>)
    ensures r == ScanGroups(ip)
  {
    hide DigitValue;
    var groups, digits: nat := 0, 0;
    for i := 0 to |ip|
      invariant ScanGroups(ip[..i]) == Some((groups, digits))
    {
      assert ip[..i + 1][..i] == ip[..i];
      if ip[i] == ':' {
        if digits > 0 {
          groups := groups + 1;
        }
        digits := 0;
      } else {
        if DigitValue(ip[i]) >= 16 || digits + 1 > 4 {
          NoGroups(ip, i + 1);
          return None;
        }
        digits := digits + 1;
      }
    }
    assert ip[..|ip|] == ip;
    r := Some((groups, digits));
  }

  lemma {:induction false} NoGroups(ip: string, k: nat)
    requires k <= |ip| && ScanGroups(ip[..k]).None?
    ensures ScanGroups(ip).None?
    decreases |ip|
  {
    if k < |ip| {
      assert ip[..|ip| - 1][..k] == ip[..k];
      NoGroups(ip[..|ip| - 1], k);
    } else {
      assert ip[..k] == ip;
    }
  }

  method FindTriple(s: string) returns (found: bool)
    ensures found == HasTriple(s)
  {
    var i := 0;
    while i + 2 < |s|
      invariant 0 <= i <= |s|
      invariant forall j :: 0 <= j < i && j < |s| - 2 ==> !(s[j] == ':' && s[j + 1] == ':' && s[j + 2] == ':')
    {
      if s[i] == ':' && s[i + 1] == ':' && s[i + 2] == ':' {
        return true;
      }
      i := i + 1;
    }
    found := false;
  }

  method CheckIp(ip: string) returns (ok: bool)
    ensures ok == ValidIp(ip)
  {
    hide HasTriple, ScanGroups;
    if ip == "" || (ip[0] == ':' && !(|ip| > 1 && ip[1] == ':'))
       || (ip[|ip| - 1] == ':' && !(|ip| > 1 && ip[|ip| - 2] == ':')) {
      return false;
    }
    var triple := FindTriple(ip);
    var double := FindDouble(ip, 0);
    if triple || (double < |ip| && FindDouble(ip, double + 2) < |ip|) {
      return false;
    }
    var scanned := CountGroups(ip);
    if scanned.None? {
      return false;
    }
    var (groups, digits) := scanned.value;
    var all := if digits > 0 then groups + 1 else groups;
    ok := if double == |ip| then all == 8 && ip[0] != ':' && ip[|ip| - 1] != ':' else all < 8;
  }

  method CheckHost(host: string) returns (ok: bool)
    ensures ok == ValidHost(host)
  {
    hide ValidIp, Find;
    if host == "" {
      return false;
    }
    if host[0] == '[' {
      var end := Find(host, ']');
      if end == |host| {
        return false;
      }
      var ip := CheckIp(host[1..end]);
      if !ip || end + 1 == |host| {
        return ip;
      }
      if host[end + 1] != ':' || end + 2 == |host| {
        return false;
      }
      ok := CheckPort(host[end + 2..]);
      return;
    }
    var colon := Find(host, ':');
    if colon == 0 {
      return false;
    }
    for i := 0 to colon
      invariant forall k :: 0 <= k < i ==> IsNameChar(host[k])
    {
      if !IsNameChar(host[i]) {
        return false;
      }
    }
    if colon == |host| {
      return true;
    }
    if colon + 1 == |host| {
      return false;
    }
    ok := CheckPort(host[colon + 1..]);
  }

  /** Every field in turn, keeping count. */
  method CheckAllFields(h: Headers, limits: Limits) returns (r: Result<nat>)
    ensures r == FieldsCheck(h, 0, limits)
  {
    hide FieldCheck;
    var total := 0;
    for i := 0 to |h|
      invariant FieldsCheck(h[i..], total, limits) == FieldsCheck(h, 0, limits)
    {
      assert h[i..][1..] == h[i + 1..];
      var checked := FieldCheck(h[i], total, limits);
      if checked.Err? {
        return checked;
      }
      total := checked.value;
    }
    r := Ok(total);
  }

  method CheckRequest(request: Request, bodySize: nat, limits: Limits) returns (e: Option<Error>)
    ensures e == RequestError(request, bodySize, limits)
  {
    hide GetAll, FieldsCheck, ValidHost, MethodToken, StartTooLong, LengthText;
    if request.meth.Connect? || request.meth.Other?
       || Contains(request.headers, "Upgrade") || Contains(request.headers, "Expect") {
      return Some(NotSupported);
    }
    if !ValidTarget(request) {
      return Some(InvalidArgument);
    }
    if Contains(request.headers, "Content-Length") || Contains(request.headers, "Transfer-Encoding") {
      return Some(FramingConflict);
    }
    var hosts := GetAll(request.headers, "Host");
    if |hosts| > 1 || (request.version.Http11? && |hosts| != 1) {
      return Some(InvalidHeader);
    }
    if hosts != [] {
      var valid := CheckHost(hosts[0]);
      if !valid {
        return Some(InvalidHeader);
      }
    }
    if StartTooLong(request, limits) || bodySize > limits.maxBodySize || |request.headers| >= limits.maxHeaderCount {
      return Some(LimitExceeded);
    }
    var total := CheckAllFields(request.headers, limits);
    if total.Err? {
      return Some(total.error);
    }
    if |LengthText(bodySize)| > limits.maxHeaderLine
       || |LengthText(bodySize)| > Sub64(limits.maxHeadersTotal, total.value) {
      return Some(LimitExceeded);
    }
    e := None;
  }

  /** Append a request head, or write nothing and say why. */
  method WriteRequestHead(out: Buffer, request: Request, bodySize: nat, limits: Limits) returns (e: Option<Error>)
    requires out.Valid() && out.pending == 0
    modifies out
    ensures out.Valid() && out.pending == 0
    ensures e == RequestError(request, bodySize, limits)
    ensures out.Contents() == old(out.Contents()) + if e.None? then RequestText(request, bodySize) else ""
  {
    hide RequestError, FieldLines, StartText, LengthText;
    ghost var before := out.Contents();
    e := CheckRequest(request, bodySize, limits);
    if e.Some? {
      assert before + "" == before;
      return;
    }
    out.Append(StartText(request));
    out.Append(CRLF);
    WriteFields(out, request.headers);
    out.Append(LengthText(bodySize));
    out.Append(CRLF);
    out.Append(CRLF);
    assert out.Contents() == before + (StartText(request) + CRLF + FieldLines(request.headers) + LengthText(bodySize) + CRLF + CRLF);
  }
}

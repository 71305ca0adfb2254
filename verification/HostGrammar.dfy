/** What a request may name as its host, and what may be sent at all.

A bracketed address is eight groups of hexadecimal digits joined by colons, or
fewer on the two sides of one "::". The scanner that counts groups and looks for
runs of colons accepts exactly these.
*/
module HostGrammar {
  import opened Octets
  import opened Grammar
  import opened HttpMessage
  import opened Serializer
  import opened RequestSerializer

  // ── groups ──────────────────────────────────────────────────────────────────

  predicate IsHex(c: char)
  {
    '0' <= c <= '9' || 'a' <= c <= 'f' || 'A' <= c <= 'F'
  }

  predicate IsGroup(s: string)
  {
    1 <= |s| <= 4 && forall i :: 0 <= i < |s| ==> IsHex(s[i])
  }

  predicate AreGroups(list: seq<string>)
  {
    forall i :: 0 <= i < |list| ==> IsGroup(list[i])
  }

  function Joined(list: seq<string>): (s: string)
  {
    if list == [] then ""
    else if |list| == 1 then list[0]
    else Joined(list[..|list| - 1]) + ":" + list[|list| - 1]
  }

  /** The text form of an IPv6 address, section 2.2 of RFC 4291, its first two forms. */
  ghost predicate IsAddress(ip: string)
  {
    exists left, right :: AreGroups(left) && AreGroups(right) &&
      ((|left| == 8 && ip == Joined(left)) || (|left| + |right| <= 7 && ip == Joined(left) + "::" + Joined(right)))
  }

  /** Colons only between other things, and never two together. */
  predicate Tidy(s: string)
  {
    && (s != "" ==> s[0] != ':' && s[|s| - 1] != ':')
    && forall i :: 0 <= i < |s| - 1 ==> !(s[i] == ':' && s[i + 1] == ':')
  }

  /** The groups of a scan, the one under way included. */
  function Count(s: string): (n: Option<nat>)
  {
    var scan := ScanGroups(s);
    if scan.None? then None
    else
      var (groups, digits) := scan.value;
      Some(if digits > 0 then groups + 1 else groups)
  }

  lemma HexMeans(c: char)
    ensures IsHex(c) <==> c != ':' && DigitValue(c) < 16
  {
  }

  /** Behind a colon the scan starts over, and its counts add up. */
  lemma {:induction false} ScanAfter(a: string, b: string, n: nat)
    requires ScanGroups(a) == Some((n, 0))
    ensures ScanGroups(a + b) ==
      if ScanGroups(b).None? then None else Some((n + ScanGroups(b).value.0, ScanGroups(b).value.1))
    decreases |b|
  {
    hide DigitValue;
    if b == "" {
      assert a + b == a;
    } else {
      var k := |b| - 1;
      assert (a + b)[..|a + b| - 1] == a + b[..k];
      ScanAfter(a, b[..k], n);
    }
  }

  lemma {:induction false} ScanColon(a: string)
    requires ScanGroups(a).Some?
    ensures ScanGroups(a + ":") == Some((Count(a).value, 0))
  {
    hide DigitValue;
    assert (a + ":")[..|a|] == a;
  }

  /** The scan is the groups found, and what is under way. */
  lemma {:induction false} Ungroup(s: string) returns (list: seq<string>, last: string)
    requires ScanGroups(s).Some?
    requires s != "" ==> s[0] != ':'
    requires forall i :: 0 <= i < |s| - 1 ==> !(s[i] == ':' && s[i + 1] == ':')
    ensures AreGroups(list) && ScanGroups(s).value == (|list|, |last|)
    ensures last == "" || IsGroup(last)
    ensures s == if list == [] then last else Joined(list) + ":" + last
    ensures last == "" ==> s == "" || s[|s| - 1] == ':'
    decreases |s|
  {
    hide DigitValue, Joined;
    if s == "" {
      list, last := [], "";
    } else {
      var k := |s| - 1;
      var c := s[k];
      assert s == s[..k] + [c];
      list, last := Ungroup(s[..k]);
      HexMeans(c);
      if c == ':' {
        assert last != "" by {
          assert k > 0 ==> s[k - 1] != ':';
        }
        JoinedGrows(list, last);
        assert s == Joined(list + [last]) + ":" + "";
        list, last := list + [last], "";
      } else {
        var more := last + [c];
        assert s == if list == [] then more else Joined(list) + ":" + more;
        last := more;
      }
    }
  }

  lemma {:induction false} JoinedGrows(list: seq<string>, last: string)
    ensures Joined(list + [last]) == if list == [] then last else Joined(list) + ":" + last
  {
    assert (list + [last])[..|list|] == list;
  }

  lemma Groups(s: string) returns (list: seq<string>)
    requires Tidy(s) && ScanGroups(s).Some?
    ensures AreGroups(list) && s == Joined(list) && Count(s) == Some(|list|)
  {
    var last;
    list, last := Ungroup(s);
    if s != "" {
      JoinedGrows(list, last);
      list := list + [last];
    }
  }

  lemma {:induction false} GroupScans(s: string)
    requires |s| <= 4 && forall i :: 0 <= i < |s| ==> IsHex(s[i])
    ensures ScanGroups(s) == Some((0, |s|))
  {
    if s != "" {
      HexMeans(s[|s| - 1]);
      GroupScans(s[..|s| - 1]);
    }
  }

  lemma {:induction false} JoinedScans(list: seq<string>)
    requires AreGroups(list)
    ensures Tidy(Joined(list)) && Count(Joined(list)) == Some(|list|)
    ensures list != [] ==> Joined(list) != ""
  {
    if list != [] {
      var n := |list| - 1;
      var last := list[n];
      GroupScans(last);
      assert forall i :: 0 <= i < |last| ==> last[i] != ':';
      if n > 0 {
        JoinedScans(list[..n]);
        var a := Joined(list[..n]);
        ScanColon(a);
        ScanAfter(a + ":", last, n);
        TidyJoin(a, last);
      }
    }
  }

  lemma TidyJoin(a: string, b: string)
    requires Tidy(a) && a != "" && b != "" && forall i :: 0 <= i < |b| ==> b[i] != ':'
    ensures Tidy(a + ":" + b)
  {
    var s := a + ":" + b;
    assert s[|s| - 1] == b[|b| - 1];
    assert s[|a| + 1] == b[0];
  }

  // ── the address ─────────────────────────────────────────────────────────────

  /** Where the "::" is, and what surrounds it. */
  lemma {:induction false} OneDouble(a: string, b: string)
    requires Tidy(a) && Tidy(b)
    ensures var ip := a + "::" + b;
      FindDouble(ip, 0) == |a| && FindDouble(ip, |a| + 2) == |ip| && !HasTriple(ip)
  {
    var ip := a + "::" + b;
    assert ip[|a|] == ':' && ip[|a| + 1] == ':';
    assert forall i :: 0 <= i < |a| ==> ip[i] == a[i];
    assert forall i :: |a| + 2 <= i < |ip| ==> ip[i] == b[i - |a| - 2];
  }

  lemma {:induction false} NoDouble(a: string)
    requires Tidy(a)
    ensures FindDouble(a, 0) == |a| && !HasTriple(a)
  {
  }

  lemma {:induction false} CountBoth(a: string, b: string)
    requires ScanGroups(a).Some?
    ensures Count(a + "::" + b) == if Count(b).None? then None else Some(Count(a).value + Count(b).value)
  {
    hide ScanGroups;
    var n := Count(a).value;
    ScanColon(a);
    ScanColon(a + ":");
    assert a + ":" + ":" == a + "::";
    ScanAfter(a + "::", b, n);
  }

  lemma SpelledIsValid(ip: string)
    requires IsAddress(ip)
    ensures ValidIp(ip)
  {
    hide FindDouble, HasTriple, ScanGroups;
    var left, right :| AreGroups(left) && AreGroups(right) &&
      ((|left| == 8 && ip == Joined(left)) || (|left| + |right| <= 7 && ip == Joined(left) + "::" + Joined(right)));
    JoinedScans(left);
    JoinedScans(right);
    var a, b := Joined(left), Joined(right);
    if |left| == 8 && ip == a {
      NoDouble(a);
    } else {
      OneDouble(a, b);
      CountBoth(a, b);
      EndsTidy(a, b);
    }
  }

  lemma EndsTidy(a: string, b: string)
    requires Tidy(a) && Tidy(b)
    ensures var ip := a + "::" + b;
      && (ip[0] == ':' ==> |ip| > 1 && ip[1] == ':')
      && (ip[|ip| - 1] == ':' ==> |ip| > 1 && ip[|ip| - 2] == ':')
  {
    var ip := a + "::" + b;
    assert a != "" ==> ip[0] == a[0];
    assert b != "" ==> ip[|ip| - 1] == b[|b| - 1];
  }

  lemma {:induction false} LeftTidy(ip: string, d: nat)
    requires d <= |ip| && d == FindDouble(ip, 0)
    requires ip != "" && ip[0] == ':' ==> |ip| > 1 && ip[1] == ':'
    requires d == |ip| && ip != "" ==> ip[0] != ':' && ip[|ip| - 1] != ':'
    ensures Tidy(ip[..d])
  {
    var a := ip[..d];
    assert forall i :: 0 <= i < |a| ==> a[i] == ip[i];
  }

  lemma RightTidy(ip: string, d: nat)
    requires d + 2 <= |ip| && ip[d + 1] == ':' && ip[d] == ':' && !HasTriple(ip)
    requires FindDouble(ip, d + 2) == |ip|
    requires ip[|ip| - 1] == ':' ==> |ip| > 1 && ip[|ip| - 2] == ':'
    ensures Tidy(ip[d + 2..])
  {
    var b := ip[d + 2..];
    assert forall i :: 0 <= i < |b| ==> b[i] == ip[i + d + 2];
    assert |b| > 0 ==> b[0] == ip[d + 2] && ip[d + 2] != ':';
    assert |b| > 1 ==> ip[|ip| - 2] != ':' || ip[|ip| - 1] != ':';
  }

  /** An accepted address falls apart at its "::", if it has one, into tidy sides. */
  lemma {:induction false} SidesTidy(ip: string)
    requires ValidIp(ip)
    ensures var d := FindDouble(ip, 0);
      if d == |ip| then Tidy(ip)
      else Tidy(ip[..d]) && Tidy(ip[d + 2..]) && ip == ip[..d] + "::" + ip[d + 2..]
  {
    hide ScanGroups, HasTriple, Tidy, FindDouble;
    var d := FindDouble(ip, 0);
    LeftTidy(ip, d);
    if d < |ip| {
      RightTidy(ip, d);
    } else {
      assert ip[..d] == ip;
    }
  }

  lemma ValidIsSpelled(ip: string)
    requires ValidIp(ip)
    ensures IsAddress(ip)
  {
    hide FindDouble, HasTriple, ScanGroups;
    SidesTidy(ip);
    var d := FindDouble(ip, 0);
    if d == |ip| {
      var left := Groups(ip);
      var right: seq<string> := [];
      assert AreGroups(left) && AreGroups(right);
    } else {
      var a, b := ip[..d], ip[d + 2..];
      if ScanGroups(a).None? {
        NoGroups(ip, d);
      }
      CountBoth(a, b);
      var left := Groups(a);
      var right := Groups(b);
      assert AreGroups(left) && AreGroups(right);
    }
  }

  /** The scanner accepts exactly the addresses. */
  lemma IpMeans(ip: string)
    ensures ValidIp(ip) <==> IsAddress(ip)
  {
    hide ValidIp, IsAddress;
    if ValidIp(ip) {
      ValidIsSpelled(ip);
    }
    if IsAddress(ip) {
      SpelledIsValid(ip);
    }
  }

  // ── the host ────────────────────────────────────────────────────────────────

  predicate IsName(s: string)
  {
    s != "" && forall i :: 0 <= i < |s| ==> IsNameChar(s[i])
  }

  /** A registered name or a bracketed address. */
  ghost predicate IsPlace(s: string)
  {
    IsName(s) || exists ip :: s == "[" + ip + "]" && IsAddress(ip)
  }

  predicate IsPort(s: string)
  {
    && s != "" && (forall i :: 0 <= i < |s| ==> '0' <= s[i] <= '9')
    && NumeralValue(s, 10) <= 65535
  }

  lemma {:induction false} PortMeans(s: string)
    ensures ValidPort(s) <==> IsPort(s)
  {
    assert AllDigits(s, 10) <==> forall i :: 0 <= i < |s| ==> '0' <= s[i] <= '9';
  }

  /** A place, and a decimal port of at most 65535 if one is given. */
  ghost predicate IsHost(host: string)
  {
    IsPlace(host) || exists place, port :: host == place + ":" + port && IsPlace(place) && IsPort(port)
  }

  lemma {:induction false} ScannedChars(ip: string)
    requires ScanGroups(ip).Some?
    ensures forall i :: 0 <= i < |ip| ==> ip[i] == ':' || IsHex(ip[i])
  {
    if ip != "" {
      HexMeans(ip[|ip| - 1]);
      ScannedChars(ip[..|ip| - 1]);
    }
  }

  lemma {:induction false} FoundAt(s: string, t: string, c: char)
    requires c !in s
    ensures Find(s + [c] + t, c) == |s|
    ensures Find(s, c) == |s|
  {
    assert (s + [c] + t)[|s|] == c;
    assert forall i :: 0 <= i < |s| ==> (s + [c] + t)[i] == s[i];
  }

  lemma NameIsHost(name: string, port: string)
    requires IsName(name)
    ensures ValidHost(name)
    ensures ValidPort(port) ==> ValidHost(name + ":" + port)
  {
    hide ValidIp, ValidPort, Find;
    FoundAt(name, port, ':');
    var host := name + ":" + port;
    assert host[0] == name[0] && host[|name| + 1..] == port;
    assert forall i :: 0 <= i < |name| ==> host[i] == name[i];
  }

  lemma BracketIsHost(ip: string, port: string)
    requires IsAddress(ip)
    ensures ValidHost("[" + ip + "]")
    ensures ValidPort(port) ==> ValidHost("[" + ip + "]" + ":" + port)
  {
    IpMeans(ip);
    ScannedChars(ip);
    hide ValidIp, ValidPort, Find;
    FoundAt("[" + ip, "", ']');
    FoundAt("[" + ip, ":" + port, ']');
    var host := "[" + ip + "]" + ":" + port;
    assert host == "[" + ip + "]" + (":" + port);
    assert "[" + ip + "]" == "[" + ip + "]" + "";
    assert host[1..|ip| + 1] == ip && ("[" + ip + "]")[1..|ip| + 1] == ip;
    assert host[|ip| + 3..] == port;
  }

  lemma PlaceAndPort(host: string, k: nat)
    requires k <= |host| && IsPlace(host[..k])
    requires k < |host| ==> host[k] == ':' && ValidPort(host[k + 1..])
    ensures IsHost(host)
  {
    hide IsPlace, ValidPort, IsPort;
    if k < |host| {
      PortMeans(host[k + 1..]);
      assert host == host[..k] + ":" + host[k + 1..];
    } else {
      assert host[..k] == host;
    }
  }

  lemma HostIsSpelled(host: string)
    requires ValidHost(host)
    ensures IsHost(host)
  {
    hide ValidIp, IsAddress, ValidPort, IsHost, Find;
    if host[0] == '[' {
      var end := Find(host, ']');
      var ip := host[1..end];
      IpMeans(ip);
      assert host[..end + 1] == "[" + ip + "]";
      PlaceAndPort(host, end + 1);
    } else {
      PlaceAndPort(host, Find(host, ':'));
    }
  }

  /** The host check accepts exactly the hosts. */
  lemma HostMeans(host: string)
    ensures ValidHost(host) <==> IsHost(host)
  {
    hide ValidHost, IsAddress, IsName;
    if ValidHost(host) {
      HostIsSpelled(host);
    }
    if IsPlace(host) {
      PlaceIsHost(host, "");
    } else if IsHost(host) {
      var place, port :| host == place + ":" + port && IsPlace(place) && IsPort(port);
      PortMeans(port);
      PlaceIsHost(place, port);
    }
  }

  lemma PlaceIsHost(place: string, port: string)
    requires IsPlace(place)
    ensures ValidHost(place)
    ensures ValidPort(port) ==> ValidHost(place + ":" + port)
  {
    hide ValidHost, IsAddress, IsName;
    if IsName(place) {
      NameIsHost(place, port);
    } else {
      var ip :| place == "[" + ip + "]" && IsAddress(ip);
      BracketIsHost(ip, port);
    }
  }

  // ── what may be sent ────────────────────────────────────────────────────────

  /** Every item of every Connection field is an option the client understands. */
  ghost predicate OptionsKnown(h: Headers)
  {
    forall i, k :: 0 <= i < |h| && NamesEqual(h[i].name, "Connection") && 0 <= k < |SplitList(h[i].value)| ==>
      NamesEqual(SplitList(h[i].value)[k], "close") || NamesEqual(SplitList(h[i].value)[k], "keep-alive")
  }

  /** A path, or the asterisk of OPTIONS; visible characters and no fragment. */
  predicate TargetSaid(request: Request)
  {
    && (("/" <= request.target) || (request.meth.Options? && request.target == "*"))
    && (forall i :: 0 <= i < |request.target| ==> '!' <= request.target[i] <= '~' && request.target[i] != '#')
  }

  /** One host, or from an HTTP/1.0 client at most one. */
  ghost predicate HostSaid(request: Request)
  {
    var hosts := GetAll(request.headers, "Host");
    |hosts| <= 1 && (request.version.Http11? ==> |hosts| == 1) && forall i :: 0 <= i < |hosts| ==> IsHost(hosts[i])
  }

  ghost predicate FieldsSaid(h: Headers, limits: Limits)
  {
    && (forall i :: 0 <= i < |h| ==> ValidName(h[i].name) && AllVchars(h[i].value))
    && OptionsKnown(h)
    && (forall i :: 0 <= i < |h| ==> |h[i].name| + 2 + |h[i].value| <= limits.maxHeaderLine)
  }

  /** A request the client can send: no tunnel, upgrade or handshake, a good target
      and Host, framing left to the writer, and within the limits, the line the
      writer adds included. */
  ghost predicate MaySend(request: Request, bodySize: nat, limits: Limits)
  {
    var h := request.headers;
    && !request.meth.Connect? && !request.meth.Other?
    && !Contains(h, "Upgrade") && !Contains(h, "Expect")
    && !Contains(h, "Content-Length") && !Contains(h, "Transfer-Encoding")
    && TargetSaid(request) && HostSaid(request) && FieldsSaid(h, limits)
    && |MethodToken(request.meth)| + 1 + |request.target| + 9 <= limits.maxStartLine
    && bodySize <= limits.maxBodySize
    && |h| < limits.maxHeaderCount
    && 16 + |Numeral(bodySize, 10)| <= limits.maxHeaderLine
    && TextBytes(h) + 16 + |Numeral(bodySize, 10)| <= limits.maxHeadersTotal
  }

  lemma OptionsMeans(h: Headers)
    ensures OptionsKnown(h) <==> forall i :: 0 <= i < |h| && NamesEqual(h[i].name, "Connection") ==> KnownOptions(h[i].value)
  {
    hide NamesEqual, SplitList;
  }

  lemma FieldsMeans(h: Headers, limits: Limits)
    ensures FieldsSendable(h, limits) <==> FieldsSaid(h, limits)
  {
    OptionsMeans(h);
    hide NamesEqual, KnownOptions, ValidName, AllVchars, OptionsKnown;
  }

  lemma TargetMeans(request: Request)
    ensures ValidTarget(request) <==> TargetSaid(request)
  {
  }

  lemma HostsMeans(request: Request)
    ensures HostError(request).None? <==> HostSaid(request)
  {
    hide ValidHost, IsHost, GetAll;
    var hosts := GetAll(request.headers, "Host");
    if hosts != [] {
      HostMeans(hosts[0]);
    }
  }

  lemma {:induction false} LinesMeasured(request: Request, bodySize: nat)
    ensures |StartText(request)| == |MethodToken(request.meth)| + 1 + |request.target| + 9
    ensures |LengthText(bodySize)| == 16 + |Numeral(bodySize, 10)|
  {
    hide MethodToken, Numeral;
  }

  /** The writer accepts exactly these requests. */
  lemma SentExactly(request: Request, bodySize: nat, limits: Limits)
    requires limits.Fits64()
    ensures RequestError(request, bodySize, limits).None? <==> MaySend(request, bodySize, limits)
  {
    hide RequestError, FieldsSendable, FieldsSaid, ValidTarget, TargetSaid, HostError, HostSaid, GetAll, TextBytes,
      Numeral, StartText, LengthText, MethodToken;
    AcceptsExactly(request, bodySize, limits);
    FieldsMeans(request.headers, limits);
    TargetMeans(request);
    HostsMeans(request);
    LinesMeasured(request, bodySize);
  }
}

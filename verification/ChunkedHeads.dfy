/** Which limits let a chunked request past its head, and heads that get past. */
module ChunkedHeads {
  import opened Octets
  import opened Grammar
  import opened HttpMessage
  import opened Lines
  import opened Incremental
  import opened WireSyntax
  import opened RequestMachine
  import opened RequestSlicing
  import opened RequestLimits
  import opened RequestGrammar
  import opened RequestHeads

  /** Room for `A / HTTP/1.1` and `Transfer-Encoding:chunked`. */
  predicate LetsChunkedIn(limits: Limits)
  {
    limits.maxStartLine >= 12 && limits.maxHeaderCount >= 1 && limits.maxHeaderLine >= 25 && limits.maxHeadersTotal >= 25
  }

  /** The octet total has no room for that field, but a first field can fill the
      total and the next one be so long that the sum wraps. */
  predicate WrapsIn(limits: Limits)
  {
    && limits.maxStartLine >= 12 && limits.maxHeaderCount >= 2
    && 2 <= limits.maxHeadersTotal < 25 && limits.maxHeadersTotal + limits.maxHeaderLine >= TWO_64
  }

  predicate ChunkedFits(limits: Limits)
  {
    LetsChunkedIn(limits) || WrapsIn(limits)
  }

  // ── heads without padding ───────────────────────────────────────────────────

  /** The shortest request line, and these fields. */
  function Short(h: Headers): (a: Preamble)
  {
    Preamble("A", "/", Http11, h)
  }

  predicate Bare(f: Field)
  {
    Readable(f) && TrimOws(f.value) == f.value
  }

  predicate AllBare(h: Headers)
  {
    forall i :: 0 <= i < |h| ==> Bare(h[i])
  }

  lemma {:induction false} BareIsKept(h: Headers)
    requires AllBare(h)
    ensures Trimmed(h) == h && AllReadable(h)
  {
    hide TrimOws;
    if h != [] {
      BareIsKept(h[1..]);
      assert Kept(h[0]) == h[0];
    }
  }

  /** One coding, `chunked`, and no length. */
  predicate AsksChunks(h: Headers)
  {
    var items := SplitAll(GetAll(h, "Transfer-Encoding"));
    && GetAll(h, "Transfer-Encoding") != [] && GetAll(h, "Content-Length") == []
    && |items| == 1 && NamesEqual(items[0], "chunked")
  }

  predicate Enters(limits: Limits, h: Headers)
  {
    limits.maxStartLine >= 12 && AllBare(h) && AllLetIn(Begun(limits, Short(h)), h) && AsksChunks(h)
  }

  /** The parser past such a head, with a chunk to come. */
  function Entered(limits: Limits, h: Headers): (p: ParserState)
  {
    Decided(limits, Short(h), ChunkSize, Chunked, 0)
  }

  lemma ShortestStart(h: Headers)
    ensures |StartLine(Short(h))| == 12 && StartLine(Short(h)) == "A / HTTP/1.1" && ReadableStart("A", "/")
  {
    assert "A" + " " + "/" + " " + "HTTP/1.1" == "A / HTTP/1.1";
  }

  lemma {:induction false} HeadEnters(limits: Limits, h: Headers, rest: string)
    requires limits.Fits64() && Enters(limits, h)
    ensures Entered(limits, h).Valid()
    ensures Entered(limits, h) == Begun(limits, Short(h)).(
              phase := ChunkSize, headersTotal := Entered(limits, h).headersTotal,
              request := Begun(limits, Short(h)).request.(headers := h, bodyKind := Chunked))
    ensures Run(Fresh(limits), PreambleText(Short(h)) + rest) == Run(Entered(limits, h), rest)
  {
    ShortestStart(h);
    BareIsKept(h);
    hide Run, RoomyRun, PreambleText, StartLine, ReadableStart, AllReadable, AllBare, AllLetIn, Trimmed, GetAll,
      SplitAll, ParserState.Valid;
    CodedRequest(limits, Short(h), rest);
    WithAllIs(Begun(limits, Short(h)), h);
    hide WithAll;
    assert [] + h == h;
  }

  // ── the fields used ─────────────────────────────────────────────────────────

  function Commas(k: nat): (s: string)
    ensures |s| == k
  {
    seq(k, _ => ',')
  }

  /** The coding, its list opened by `k` empty items. */
  function Coding(k: nat): (f: Field)
    ensures FieldSize(f) == 25 + k
  {
    assert |"Transfer-Encoding"| == 17 && |"chunked"| == 7;
    Field("Transfer-Encoding", Commas(k) + "chunked")
  }

  lemma {:induction false} CommasSplit(k: nat)
    ensures SplitList(Commas(k) + "chunked") == ["chunked"]
  {
    hide SplitList, TrimOws, Find;
    var word := "chunked";
    if k == 0 {
      assert ',' !in word && word[..|word|] == word;
      FindUnique(word, ',', |word|);
      TrimNothing(word);
      SplitListStep(word);
      assert DropEmpty([word]) == [word] by { assert [word][1..] == []; }
      assert Commas(0) + word == word;
    } else {
      var tail := Commas(k - 1) + word;
      assert Commas(k) + word == "" + "," + tail;
      SplitListJoin("", tail);
      NothingSplits();
      CommasSplit(k - 1);
    }
  }

  lemma NothingSplits()
    ensures SplitList("") == []
  {
    assert RawItems("") == [""];
  }

  lemma CodingBare(k: nat)
    ensures Bare(Coding(k))
  {
    var s := Commas(k) + "chunked";
    assert |"chunked"| == 7 && s[|s| - 1] == 'd' && !IsOws(s[0]);
    TrimNothing(s);
  }

  function Xs(k: nat): (s: string)
    ensures |s| == k
  {
    seq(k, _ => 'X')
  }

  /** A field of `n` octets. */
  function Filler(n: nat): (f: Field)
    requires n >= 2
    ensures FieldSize(f) == n
  {
    Field("a", Xs(n - 2))
  }

  lemma FillerBare(n: nat)
    requires n >= 2
    ensures Bare(Filler(n))
  {
    TrimNothing(Xs(n - 2));
  }

  predicate AllFillers(h: Headers)
  {
    forall i :: 0 <= i < |h| ==> h[i].name == "a"
  }

  lemma {:induction false} FillersAside(h: Headers, name: string)
    requires AllFillers(h) && |name| > 1
    ensures GetAll(h, name) == []
  {
    if h != [] { FillersAside(h[1..], name); }
  }

  /** Other fields before and after do not change the framing. */
  lemma {:induction false} CodingFrames(before: Headers, k: nat, after: Headers)
    requires AllFillers(before) && AllFillers(after)
    ensures AsksChunks(before + [Coding(k)] + after)
  {
    hide SplitList, GetAll;
    var h, value := before + [Coding(k)] + after, Commas(k) + "chunked";
    forall name | name in ["Transfer-Encoding", "Content-Length"]
      ensures GetAll(h, name) == GetAll([Coding(k)], name)
    {
      GetAllAppend(before + [Coding(k)], after, name);
      GetAllAppend(before, [Coding(k)], name);
      FillersAside(before, name);
      FillersAside(after, name);
    }
    CodingNamed(k);
    CommasSplit(k);
    assert SplitAll([value]) == ["chunked"] by {
      assert [value][1..] == [];
      assert ["chunked"] + [] == ["chunked"];
    }
  }

  lemma CodingNamed(k: nat)
    ensures GetAll([Coding(k)], "Transfer-Encoding") == [Commas(k) + "chunked"]
    ensures GetAll([Coding(k)], "Content-Length") == []
  {
    assert [Coding(k)][1..] == [];
    assert |"Transfer-Encoding"| != |"Content-Length"|;
  }

  /** A head that gets past whenever one does. */
  function Ticket(limits: Limits): (h: Headers)
    requires ChunkedFits(limits)
  {
    if LetsChunkedIn(limits) then [Coding(0)]
    else [Filler(limits.maxHeadersTotal), Coding(TWO_64 - limits.maxHeadersTotal - 25)]
  }

  lemma {:induction false} TicketEnters(limits: Limits)
    requires limits.Fits64() && ChunkedFits(limits)
    ensures Enters(limits, Ticket(limits))
    ensures StoredBytes(Ticket(limits)) == if LetsChunkedIn(limits) then 25 else TWO_64
  {
    hide AsksChunks, Coding, Filler, Bare;
    if LetsChunkedIn(limits) {
      CodingBare(0);
      CodingFrames([], 0, []);
      assert [] + [Coding(0)] + [] == [Coding(0)];
      assert StoredBytes([Coding(0)]) == 25 by { StoredBytesFirst([Coding(0)]); }
      SumLetIn(Begun(limits, Short([Coding(0)])), [Coding(0)]);
    } else {
      WrapEnters(limits);
    }
  }

  lemma {:induction false} WrapEnters(limits: Limits)
    requires limits.Fits64() && WrapsIn(limits)
    ensures Enters(limits, Ticket(limits)) && StoredBytes(Ticket(limits)) == TWO_64
  {
    var t := limits.maxHeadersTotal;
    var k := TWO_64 - t - 25;
    var f, g := Filler(t), Coding(k);
    FillerBare(t);
    CodingBare(k);
    assert AllFillers([f]);
    CodingFrames([f], k, []);
    assert [f] + [g] + [] == [f, g];
    hide AsksChunks, Coding, Filler, Bare, StoredBytes;
    TwoLetIn(Begun(limits, Short([f, g])), f, g);
    StoredBytesFirst([f, g]);
    StoredBytesFirst([g]);
    assert [f, g][1..] == [g] && [g][1..] == [];
    assert StoredBytes([]) == 0 by { NoBytes(); }
  }

  lemma NoBytes()
    ensures StoredBytes([]) == 0
  {
  }

  lemma {:induction false} TwoLetIn(p: ParserState, f: Field, g: Field)
    requires FieldLetIn(p, f) && FieldLetIn(WithField(p, f), g)
    ensures AllLetIn(p, [f, g])
  {
    hide FieldLetIn, WithField;
    assert [f, g][1..] == [g] && [g][1..] == [];
    assert AllLetIn(WithField(p, f), [g]);
  }

  // ── no other limits let one in ──────────────────────────────────────────────

  predicate InChunks(p: Parser)
  {
    p.phase.ChunkSize? || p.phase.ChunkData? || p.phase.Trailers?
  }

  /** Two fields whose sizes may wrap the total. */
  predicate MayWrap(limits: Limits)
  {
    limits.maxHeaderCount >= 2 && limits.maxHeadersTotal >= 2 && limits.maxHeadersTotal + limits.maxHeaderLine >= TWO_64
  }

  /** What the header lines read so far say about the limits. */
  predicate HeadEarned(p: Parser)
  {
    && (!p.phase.Start? ==> p.limits.maxStartLine >= 12)
    && (p.headersTotal > 0 ==> p.request.headers != [] && p.limits.maxHeadersTotal >= 2)
    && (MayWrap(p.limits) || AllShort(p.request.headers, p.limits.maxHeadersTotal))
    && AllShort(p.request.headers, p.limits.maxHeaderLine)
  }

  /** No chunk, trailer or body in excess without limits for a chunked head. */
  predicate BodyEarned(p: Parser)
  {
    ChunkedFits(p.limits) || (!InChunks(p) && p.trailers == [] && p.seen <= p.limits.maxBodySize)
  }

  predicate Earned(p: Parser)
  {
    HeadEarned(p) && BodyEarned(p)
  }

  lemma RequestLineEarns(p: Parser, text: string)
    requires Earned(p) && p.phase.Start? && RequestLine(p, text).Ok? && RequestLine(p, text).value.Valid()
    ensures Earned(RequestLine(p, text).value)
  {
    hide ParserState.Valid, StoredBytes, AllTchars, AllTargetChars, MethodFromToken, ChunkedFits, MayWrap, AllShort;
    assert |"HTTP/1.1"| == 8 && |"HTTP/1.0"| == 8;
    assert |text| >= 12;
  }

  lemma HeaderLineEarns(p: Parser, text: string)
    requires Earned(p) && p.phase.InHeaders? && text != "" && HeaderLine(p, text).Ok? && HeaderLine(p, text).value.Valid()
    ensures Earned(HeaderLine(p, text).value)
  {
    hide FieldOf, StoredBytes, ChunkedFits;
    if !IsOws(text[0]) {
      FieldOfSize(text, false);
      assert p.headersTotal + |text| >= TWO_64 ==> MayWrap(p.limits);
    }
  }

  /** Some value holds an item, so it is at least as long. */
  lemma {:induction false} ItemsFit(text: string, i: nat)
    requires i < |SplitList(text)|
    ensures |SplitList(text)[i]| <= |text|
    decreases |text|
  {
    hide SplitList, TrimOws;
    SplitListStep(text);
    var comma := Find(text, ',');
    TrimMeaning(text[..comma]);
    var first := DropEmpty([TrimOws(text[..comma])]);
    assert first == [] || first == [TrimOws(text[..comma])] by {
      assert [TrimOws(text[..comma])][1..] == [];
    }
    if i >= |first| {
      ItemsFit(text[comma + 1..], i - |first|);
    }
  }

  lemma {:induction false} SomeValueHolds(values: seq<string>, i: nat) returns (k: nat)
    requires i < |SplitAll(values)|
    ensures k < |values| && |SplitAll(values)[i]| <= |values[k]|
  {
    hide SplitList;
    var first := SplitList(values[0]);
    if i < |first| {
      ItemsFit(values[0], i);
      k := 0;
    } else {
      k := SomeValueHolds(values[1..], i - |first|);
      k := k + 1;
    }
  }

  lemma {:induction false} SomeFieldHolds(h: Headers, name: string, i: nat) returns (k: nat)
    requires i < |GetAll(h, name)|
    ensures k < |h| && |h[k].name| == |name| && h[k].value == GetAll(h, name)[i]
  {
    if NamesEqual(h[0].name, name) && i == 0 {
      k := 0;
    } else {
      k := SomeFieldHolds(h[1..], name, if NamesEqual(h[0].name, name) then i - 1 else i);
      k := k + 1;
    }
  }

  /** A head that asks for chunks has a field of at least 25 octets. */
  lemma CodingFieldFound(h: Headers, version: Version, maxBodySize: nat) returns (k: nat)
    requires FramingOf(h, version, maxBodySize).Ok? && FramingOf(h, version, maxBodySize).value.0.Chunked?
    ensures k < |h| && FieldSize(h[k]) >= 25
  {
    hide GetAll, SplitAll;
    var te := GetAll(h, "Transfer-Encoding");
    assert OnlyChunked(SplitAll(te));
    var v := SomeValueHolds(te, 0);
    k := SomeFieldHolds(h, "Transfer-Encoding", v);
    assert |"Transfer-Encoding"| == 17 && |"chunked"| == 7;
  }

  lemma EndOfHeadersEarns(p: Parser)
    requires Earned(p) && p.phase.InHeaders? && EndOfHeaders(p).Ok? && EndOfHeaders(p).value.Valid()
    ensures Earned(EndOfHeaders(p).value)
  {
    hide StoredBytes, FramingOf;
    var f := FramingOf(p.request.headers, p.request.version, p.limits.maxBodySize).value;
    if f.0.Chunked? {
      var k := CodingFieldFound(p.request.headers, p.request.version, p.limits.maxBodySize);
      assert ChunkedFits(p.limits);
    }
  }

  lemma ChunkLineEarns(p: Parser, text: string)
    requires Earned(p) && ReadsLines(p) && InChunks(p) && HandleLine(p, text).Ok? && HandleLine(p, text).value.Valid()
    ensures Earned(HandleLine(p, text).value)
  {
    hide ParserState.Valid, StoredBytes, ChunkedFits, MayWrap, AllShort, FieldOf, ParseNumber, Find;
  }

  lemma LineEarns(p: Parser, text: string)
    requires Earned(p) && ReadsLines(p) && HandleLine(p, text).Ok? && HandleLine(p, text).value.Valid()
    ensures Earned(HandleLine(p, text).value)
  {
    hide RequestLine, HeaderLine, EndOfHeaders, TrailerLine, ChunkSizeLine, Earned, ParserState.Valid;
    if p.phase.Start? {
      RequestLineEarns(p, text);
    } else if p.phase.InHeaders? {
      if text == "" {
        EndOfHeadersEarns(p);
      } else {
        HeaderLineEarns(p, text);
      }
    } else {
      ChunkLineEarns(p, text);
    }
  }

  lemma BodyStepEarns(p: Parser, n: nat)
    requires Earned(p) && !ReadsLines(p) && !p.phase.Done? && n <= Owed(p) && TakeBody(p, n).Valid()
    ensures Earned(TakeBody(p, n))
    ensures !ChunkedFits(p.limits) ==> TakeBody(p, n).seen == p.seen + n
  {
    hide StoredBytes, ChunkedFits, MayWrap, AllShort;
  }

  lemma EarnedKept(p: Parser, input: string)
    requires Earned(p)
    ensures Keeps(Step, Earned, p, input)
  {
    hide ParserState.Valid, HandleLine, FindLine, Earned, TakeBody;
    if Step(p, input).Moved? {
      if ReadsLines(p) {
        var text := NextLine(input, p.limits.allowBareLf).text;
        HandleLineKeepsLimits(p, text);
        LineEarns(p, text);
      } else {
        TakeBodyKeepsLimits(p, BodyCount(p, input));
        BodyStepEarns(p, BodyCount(p, input));
      }
    }
  }

  predicate Unearned(p: Parser)
  {
    Earned(p) && !ChunkedFits(p.limits)
  }

  lemma UnearnedKept(p: Parser, input: string)
    requires Unearned(p)
    ensures Keeps(Step, Unearned, p, input) && Counts(p, input)
  {
    hide ParserState.Valid, HandleLine, FindLine, Earned, TakeBody, ChunkedFits;
    EarnedKept(p, input);
    if Step(p, input).Moved? {
      StepCounts(p, input);
      if ReadsLines(p) {
        LineCounts(p, input);
      } else {
        TakeBodyKeepsLimits(p, BodyCount(p, input));
        BodyStepEarns(p, BodyCount(p, input));
      }
    }
  }

  lemma UnearnedMeans(p: Parser)
    requires Unearned(p)
    ensures p.trailers == [] && p.seen <= p.limits.maxBodySize
  {
  }

  lemma FreshEarned(limits: Limits)
    requires limits.Fits64()
    ensures Earned(Fresh(limits))
  {
  }

  /** Limits without room for a chunked head keep the body limit and see no
      trailer, whatever is read. */
  lemma {:induction false} NoChunksUnlessFit(limits: Limits, slices: seq<string>)
    requires limits.Fits64() && !ChunkedFits(limits)
    ensures |Sliced(limits, slices).body| <= limits.maxBodySize
    ensures Sliced(limits, slices).state.trailers == []
  {
    hide Exec, Step, FeedAll, Unearned, ChunkedFits, Earned, Counts;
    StepBehaves();
    var p := Fresh(limits);
    FreshEarned(limits);
    assert Unearned(p) by { hide *; UnearnedIs(p); }
    forall t, text | Unearned(t) ensures Keeps(Step, Unearned, t, text) && Counts(t, text) {
      UnearnedKept(t, text);
    }
    BodyIsCounted(Unearned, p, "");
    FeedAllCounts(Unearned, Exec(Step, p, ""), slices);
    UnearnedMeans(Sliced(limits, slices).state);
  }

  lemma UnearnedIs(p: Parser)
    requires Earned(p) && !ChunkedFits(p.limits)
    ensures Unearned(p)
  {
  }
}

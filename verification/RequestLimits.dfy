/** What the request parser's limits do and do not bound, over every sequence of
reads. */
module RequestLimits {
  import opened Octets
  import opened Grammar
  import opened HttpMessage
  import opened Lines
  import opened Incremental
  import opened RequestMachine
  import opened RequestSlicing

  // ── fields stored ───────────────────────────────────────────────────────────

  /** The running total covers the header octets stored. */
  predicate Tallied(p: Parser)
  {
    StoredBytes(p.request.headers) <= p.headersTotal
  }

  /** A step counts what it stores, and counts no more than it consumes. */
  lemma StepTallies(p: Parser, input: string)
    requires Tallied(p) && p.headersTotal + |input| < TWO_64 && Step(p, input).Moved?
    ensures var r := Step(p, input); Tallied(r.next) && r.next.headersTotal <= p.headersTotal + r.consumed
  {
    hide ParserState.Valid, FramingOf, ParseNumber, RequestLine, StoredBytes, TrimOws;
    if ReadsLines(p) {
      var line := NextLine(input, p.limits.allowBareLf);
      assert |line.text| < line.consumed <= |input|;
      hide FindLine;
      if p.phase.InHeaders? && line.text != "" {
        HeaderTallies(p, line.text);
      } else if p.phase.Start? {
        RequestLineAside(p, line.text);
      }
    }
  }

  lemma RequestLineAside(p: ParserState, text: string)
    requires RequestLine(p, text).Ok?
    ensures RequestLine(p, text).value.request.headers == p.request.headers
    ensures RequestLine(p, text).value.headersTotal == p.headersTotal
  {
  }

  lemma HeaderTallies(p: Parser, text: string)
    requires Tallied(p) && p.headersTotal + |text| < TWO_64 && text != "" && HeaderLine(p, text).Ok?
    ensures var q := HeaderLine(p, text).value;
            StoredBytes(q.request.headers) <= q.headersTotal <= p.headersTotal + |text|
  {
    if !IsOws(text[0]) {
      TrimMeaning(text[Find(text, ':') + 1..]);
      StoredBytesAppend(p.request.headers, FieldOf(text, false).value);
    }
    hide StoredBytes, TrimOws;
  }

  lemma {:induction false} ExecTallies(p: Parser, input: string)
    requires Progressive(Step) && Tallied(p) && p.headersTotal + |input| < TWO_64
    ensures var o := Exec(Step, p, input);
            Tallied(o.state) && o.state.headersTotal + |o.rest| <= p.headersTotal + |input|
    decreases |input|
  {
    hide Exec, Step, Tallied;
    ExecUnfolds(Step, p, input);
    var r := Step(p, input);
    if r.Moved? {
      StepTallies(p, input);
      ExecTallies(r.next, input[r.consumed..]);
    }
  }

  lemma {:induction false} FeedAllTallies(o: Progress<Parser>, slices: seq<string>)
    requires Progressive(Step) && Tallied(o.state)
    requires o.state.headersTotal + |o.rest| + |Concat(slices)| < TWO_64
    ensures Tallied(FeedAll(Step, o, slices).state)
    decreases |slices|
  {
    hide Exec, Step, Tallied;
    if slices != [] {
      if o.status.Hungry? {
        ExecTallies(o.state, o.rest + slices[0]);
      }
      FeedAllTallies(Feed(Step, o, slices[0]), slices[1..]);
    }
  }

  predicate AllShort(h: Headers, most: nat)
  {
    forall i :: 0 <= i < |h| ==> FieldSize(h[i]) <= most
  }

  /** Every field stored fits the line limit. */
  predicate ShortFields(p: Parser)
  {
    AllShort(p.request.headers, p.limits.maxHeaderLine) && AllShort(p.trailers, p.limits.maxHeaderLine)
  }

  /** A field holds no more than its line, and a line at least a name and a colon. */
  lemma FieldOfSize(text: string, trailer: bool)
    requires text != "" && FieldOf(text, trailer).Ok?
    ensures FieldSize(FieldOf(text, trailer).value) <= |text| && |text| >= 2
  {
    hide TrimOws;
    TrimMeaning(text[Find(text, ':') + 1..]);
  }

  lemma HeaderIsShort(p: Parser, text: string)
    requires ShortFields(p) && text != "" && HeaderLine(p, text).Ok? && HeaderLine(p, text).value.Valid()
    ensures ShortFields(HeaderLine(p, text).value)
  {
    hide ParserState.Valid, FieldOf;
    if !IsOws(text[0]) { FieldOfSize(text, false); }
  }

  lemma TrailerIsShort(p: Parser, text: string)
    requires ShortFields(p) && text != "" && TrailerLine(p, text).Ok? && TrailerLine(p, text).value.Valid()
    ensures ShortFields(TrailerLine(p, text).value)
  {
    hide ParserState.Valid, FieldOf;
    FieldOfSize(text, true);
  }

  lemma ShortFieldsKept(p: Parser, input: string)
    requires ShortFields(p)
    ensures Keeps(Step, ShortFields, p, input)
  {
    hide ParserState.Valid, FramingOf, ParseNumber, FieldOf, FindLine, MethodFromToken, Find, AllShort;
    if ReadsLines(p) && Step(p, input).Moved? {
      var text := NextLine(input, p.limits.allowBareLf).text;
      HandleLineKeepsLimits(p, text);
      if p.phase.Trailers? && text != "" {
        TrailerIsShort(p, text);
      } else if p.phase.InHeaders? && text != "" {
        HeaderIsShort(p, text);
      }
      hide TrailerLine, HeaderLine;
    }
  }

  lemma {:induction false} ShortSum(h: Headers, most: nat)
    requires AllShort(h, most)
    ensures StoredBytes(h) <= |h| * most
  {
    if h != [] {
      ShortSum(h[..|h| - 1], most);
    }
  }

  lemma {:induction false} ReachableShort(limits: Limits, slices: seq<string>)
    requires limits.Fits64()
    ensures ShortFields(Sliced(limits, slices).state) && Sliced(limits, slices).state.limits == limits
  {
    hide Exec, Step, FeedAll, ShortFields;
    StepBehaves();
    var p := Fresh(limits);
    FreshFields(limits);
    ExecKeepsLimits(p, "");
    FeedAllKeepsLimits(Exec(Step, p, ""), slices);
    forall t, text | ShortFields(t) ensures Keeps(Step, ShortFields, t, text) {
      ShortFieldsKept(t, text);
    }
    ExecKeeps(Step, ShortFields, p, "");
    FeedAllKeeps(Step, ShortFields, Exec(Step, p, ""), slices);
  }

  /** In every state any reads can reach headers fit their count, and their octets
      fit the total for every input shorter than 2^64 (or limits whose sum is).
      Trailers have the count to themselves, and only a line limit on octets. */
  lemma {:induction false} HeaderLimitsHold(limits: Limits, slices: seq<string>)
    requires limits.Fits64()
    ensures var o := Sliced(limits, slices);
            && |o.state.request.headers| <= limits.maxHeaderCount
            && |o.state.trailers| <= limits.maxHeaderCount
            && |o.state.request.headers| + |o.state.trailers| <= 2 * limits.maxHeaderCount
            && (|Concat(slices)| < TWO_64 || HeaderSumFits(limits) ==>
                  StoredBytes(o.state.request.headers) <= limits.maxHeadersTotal)
            && StoredBytes(o.state.request.headers) <= |o.state.request.headers| * limits.maxHeaderLine
            && StoredBytes(o.state.trailers) <= |o.state.trailers| * limits.maxHeaderLine
  {
    hide Exec, Step, FeedAll, StoredBytes, Tallied, ShortFields;
    StepBehaves();
    var p := Fresh(limits);
    var start, end := Exec(Step, p, ""), Sliced(limits, slices).state;
    ReachableShort(limits, slices);
    StateBounds(end);
    FreshFields(limits);
    ExecTallies(p, "");
    if |Concat(slices)| < TWO_64 {
      FeedAllTallies(start, slices);
      assert StoredBytes(end.request.headers) <= end.headersTotal by { TalliedMeans(end); }
    }
    ShortMeans(end);
  }

  lemma FreshFields(limits: Limits)
    requires limits.Fits64()
    ensures Tallied(Fresh(limits)) && ShortFields(Fresh(limits)) && Fresh(limits).headersTotal == 0
  {
  }

  lemma TalliedMeans(p: Parser)
    requires Tallied(p)
    ensures StoredBytes(p.request.headers) <= p.headersTotal <= p.limits.maxHeadersTotal
  {
  }

  lemma ShortMeans(p: Parser)
    requires ShortFields(p)
    ensures StoredBytes(p.request.headers) <= |p.request.headers| * p.limits.maxHeaderLine
    ensures StoredBytes(p.trailers) <= |p.trailers| * p.limits.maxHeaderLine
  {
    ShortSum(p.request.headers, p.limits.maxHeaderLine);
    ShortSum(p.trailers, p.limits.maxHeaderLine);
  }
}

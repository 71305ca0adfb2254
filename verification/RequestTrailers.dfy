/** What the joint limits on headers and trailers come to.

The documentation caps headers and trailers together; the code counts trailers
apart and gives them no octet total.
*/
module RequestTrailers {
  import opened Octets
  import opened HttpMessage
  import opened WireSyntax
  import opened RequestMachine
  import opened RequestSlicing
  import opened Serializer
  import opened RequestLimits
  import opened RequestGrammar
  import opened RequestHeads
  import opened RequestBodies
  import opened ChunkedHeads
  import opened RequestOverrun
  import R = ResponseRoundTrip

  // ── trailers beside the headers ─────────────────────────────────────────────

  /** A chunked request without a body but with trailers. */
  function Annotated(h: Headers, t: Headers): (s: string)
  {
    ChunkedText(Short(h), [], "0", None, t)
  }

  lemma BareTrailers(t: Headers)
    requires AllBare(t)
    ensures ReadableTrailers(t)
  {
    forall i | 0 <= i < |t| ensures ValidName(t[i].name) && R.OneLine(t[i].value) {
      assert Bare(t[i]);
      R.ValidTextIsOneLine(t[i].value);
    }
  }

  lemma ZeroDigit()
    ensures ParseNumber("0", 16) == Some(0)
  {
    NumeralRoundTrip(0, 16);
    assert Numeral(0, 16) == "0";
  }

  /** After any chunked head that gets in, any trailers that fit the count and the
      line limit by themselves are stored beside its headers, all of them. */
  lemma {:induction false} TrailersEscapeTheCaps(limits: Limits, h: Headers, t: Headers)
    requires limits.Fits64() && Enters(limits, h)
    requires AllBare(t) && AllShort(t, limits.maxHeaderLine) && |t| <= limits.maxHeaderCount
    ensures var o := Sliced(limits, [Annotated(h, t)]);
            o.status.Ended? && o.state.request.headers == h && o.state.trailers == t
  {
    hide Run, Sliced, ChunkedText, AllLetIn, AllBare, AllShort, ReadableTrailers, GetAll, SplitAll, Trimmed,
      StartLine, ReadableStart, AllReadable, ParseNumber;
    SlicedWhole(limits, Annotated(h, t));
    BareIsKept(h);
    BareIsKept(t);
    BareTrailers(t);
    ShortestStart(h);
    ZeroDigit();
    assert Annotated(h, t) + "" == Annotated(h, t);
    ChunkedRequestRead(limits, Short(h), [], "0", None, t, "");
    HeadEnters(limits, h, "");
    hide WithAll;
  }

  // ── the count ───────────────────────────────────────────────────────────────

  function Fillers(k: nat, n: nat): (h: Headers)
    requires n >= 2
    ensures |h| == k && AllFillers(h)
  {
    seq(k, _ => Filler(n))
  }

  lemma FillersAre(k: nat, n: nat)
    requires n >= 2
    ensures AllBare(Fillers(k, n)) && AllShort(Fillers(k, n), n)
  {
    hide Filler, Bare;
    FillerBare(n);
  }

  lemma {:induction false} FillersSum(k: nat, n: nat)
    requires n >= 2
    ensures StoredBytes(Fillers(k, n)) == k * n
    decreases k
  {
    hide Filler, StoredBytes;
    if k == 0 {
      assert Fillers(0, n) == [];
      NoBytes();
    } else {
      FillersSum(k - 1, n);
      assert Fillers(k, n) == Fillers(k - 1, n) + [Filler(n)];
      StoredBytesAppend(Fillers(k - 1, n), Filler(n));
      assert (k - 1) * n + n == k * n;
    }
  }

  ghost predicate JointCountBounded(limits: Limits, slices: seq<string>)
    requires limits.Fits64()
  {
    var p := Sliced(limits, slices).state;
    |p.request.headers| + |p.trailers| <= limits.maxHeaderCount
  }

  /** The documented joint count holds exactly when no chunked head fits at all. */
  lemma {:induction false} JointCountExactly(limits: Limits)
    requires limits.Fits64()
    ensures (forall slices :: JointCountBounded(limits, slices)) <==> !ChunkedFits(limits)
  {
    hide Sliced, Annotated, Enters, AllBare, Fillers, StoredBytes;
    if ChunkedFits(limits) {
      var h, t := Ticket(limits), Fillers(limits.maxHeaderCount, 2);
      TicketEnters(limits);
      FillersAre(limits.maxHeaderCount, 2);
      TrailersEscapeTheCaps(limits, h, t);
      assert !JointCountBounded(limits, [Annotated(h, t)]);
    } else {
      forall slices ensures JointCountBounded(limits, slices) {
        NoChunksUnlessFit(limits, slices);
        HeaderLimitsHold(limits, slices);
      }
    }
  }

  // ── the octets ──────────────────────────────────────────────────────────────

  ghost predicate JointOctetsBounded(limits: Limits, slices: seq<string>)
    requires limits.Fits64()
  {
    var p := Sliced(limits, slices).state;
    StoredBytes(p.request.headers) + StoredBytes(p.trailers) <= limits.maxHeadersTotal
  }

  /** As many headers and trailers as there may be, all as long as a line may be. */
  function FullHead(limits: Limits): (h: Headers)
    requires LetsChunkedIn(limits)
  {
    [Coding(limits.maxHeaderLine - 25)] + Fillers(limits.maxHeaderCount - 1, limits.maxHeaderLine)
  }

  lemma {:induction false} FullHeadEnters(limits: Limits)
    requires limits.Fits64() && LetsChunkedIn(limits)
    requires limits.maxHeaderCount * limits.maxHeaderLine <= limits.maxHeadersTotal
    ensures Enters(limits, FullHead(limits))
    ensures StoredBytes(FullHead(limits)) == limits.maxHeaderCount * limits.maxHeaderLine
  {
    hide AsksChunks, StoredBytes, Coding, Bare, Fillers;
    var c, n := limits.maxHeaderCount, limits.maxHeaderLine;
    var f, more, h := Coding(n - 25), Fillers(c - 1, n), FullHead(limits);
    CodingBare(n - 25);
    FillersAre(c - 1, n);
    FillersSum(c - 1, n);
    CodingFrames([], n - 25, more);
    assert [] + [f] + more == h;
    assert h[0] == f && h[1..] == more;
    StoredBytesFirst(h);
    assert n + (c - 1) * n == c * n;
    SumLetIn(Begun(limits, Short(h)), h);
  }

  lemma {:induction false} JointOctetsExceeded(limits: Limits) returns (h: Headers, t: Headers)
    requires limits.Fits64() && ChunkedFits(limits)
    requires limits.maxHeadersTotal < 2 * limits.maxHeaderCount * limits.maxHeaderLine
    ensures Enters(limits, h)
    ensures AllBare(t) && AllShort(t, limits.maxHeaderLine) && |t| <= limits.maxHeaderCount
    ensures StoredBytes(h) + StoredBytes(t) > limits.maxHeadersTotal
  {
    hide Enters, AllBare, AllShort, Fillers, StoredBytes, Ticket, FullHead;
    var c, n := limits.maxHeaderCount, limits.maxHeaderLine;
    assert 2 * c * n == c * n + c * n;
    h := Ticket(limits);
    TicketEnters(limits);
    t := Fillers(c, n);
    FillersAre(c, n);
    FillersSum(c, n);
    if LetsChunkedIn(limits) && limits.maxHeadersTotal >= 25 + c * n {
      h := FullHead(limits);
      FullHeadEnters(limits);
    }
  }

  lemma TwoLists(a: nat, b: nat, most: nat, size: nat)
    requires a <= most && b <= most
    ensures a * size + b * size <= 2 * most * size
  {
    assert a * size <= most * size && b * size <= most * size;
  }

  /** Where a chunked head fits, the documented joint octet total holds exactly when
      it has room for full lines in twice the count. */
  lemma {:induction false} JointOctetsExactly(limits: Limits)
    requires limits.Fits64() && ChunkedFits(limits)
    ensures (forall slices :: JointOctetsBounded(limits, slices))
            <==> 2 * limits.maxHeaderCount * limits.maxHeaderLine <= limits.maxHeadersTotal
  {
    hide Sliced, Annotated, Enters, AllBare, AllShort, StoredBytes, ChunkedFits;
    var c, n := limits.maxHeaderCount, limits.maxHeaderLine;
    if 2 * c * n <= limits.maxHeadersTotal {
      forall slices ensures JointOctetsBounded(limits, slices) {
        HeaderLimitsHold(limits, slices);
        var p := Sliced(limits, slices).state;
        TwoLists(|p.request.headers|, |p.trailers|, c, n);
      }
    } else {
      var h, t := JointOctetsExceeded(limits);
      TrailersEscapeTheCaps(limits, h, t);
      assert !JointOctetsBounded(limits, [Annotated(h, t)]);
    }
  }

  /** Where none fits there are no trailers, and the total holds of every input
      shorter than 2^64. */
  lemma {:induction false} JointOctetsUnchunked(limits: Limits, slices: seq<string>)
    requires limits.Fits64() && !ChunkedFits(limits)
    requires |Concat(slices)| < TWO_64 || HeaderSumFits(limits)
    ensures JointOctetsBounded(limits, slices)
  {
    hide Sliced;
    NoChunksUnlessFit(limits, slices);
    HeaderLimitsHold(limits, slices);
  }
}

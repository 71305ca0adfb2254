/** Inputs that take the request parser past the body limit it documents.

The code adds a chunk size to the octets seen before it compares, so the sum may
wrap, for every set of limits that lets a chunked request in.
*/
module RequestOverrun {
  import opened Octets
  import opened HttpMessage
  import opened Incremental
  import opened WireSyntax
  import opened RequestMachine
  import opened RequestSlicing
  import opened RequestHeads
  import opened RequestBodies
  import opened ChunkedHeads

  // ── chunks ──────────────────────────────────────────────────────────────────

  /** Part of a chunk, or all of it without its line end. */
  lemma {:induction false} RunPart(p: Parser, data: string)
    requires p.phase.ChunkData? && 0 < |data| <= p.chunkRemaining
    ensures Run(p, data).body == data
  {
    TakeBodyKeepsLimits(p, |data|);
    var q: Parser := TakeBody(p, |data|);
    assert data[..|data|] == data && data[|data|..] == "";
    assert Step(p, data) == Moved(q, |data|, data);
    assert Step(q, "") == Starved;
    StepBehaves();
    hide Step, StoredBytes;
    ExecUnfolds(Step, p, data);
    ExecUnfolds(Step, q, "");
    assert data + "" == data;
  }

  /** So many chunks of one octet. */
  function Ones(k: nat): (s: string)
  {
    if k == 0 then "" else Numeral(1, 16) + CRLF + Xs(1) + CRLF + Ones(k - 1)
  }

  lemma {:induction false} RunOnes(p: Parser, k: nat, rest: string)
    requires p.phase.ChunkSize? && p.chunkRemaining == 0 && p.limits.maxChunkSize >= 1
    requires p.seen + k <= p.limits.maxBodySize
    ensures p.(seen := p.seen + k).Valid()
    ensures Run(p, Ones(k) + rest) == Prepend(Xs(k), Run(p.(seen := p.seen + k), rest))
    decreases k
  {
    hide Run, Numeral, StoredBytes;
    if k == 0 {
      assert Ones(k) + rest == rest;
      assert p.(seen := p.seen + k) == p;
      assert Xs(0) == "";
      PrependNothing(Run(p, rest));
    } else {
      var more := Ones(k - 1) + rest;
      assert Ones(k) + rest == Numeral(1, 16) + CRLF + (Xs(1) + CRLF + more);
      RunSize(p, 1, Xs(1) + CRLF + more);
      RunData(p.(phase := ChunkData, chunkRemaining := 1), Xs(1), more);
      var q: Parser := p.(seen := p.seen + 1);
      RunOnes(q, k - 1, rest);
      assert Xs(1) + Xs(k - 1) == Xs(k);
      PrependTwice(Xs(1), Xs(k - 1), Run(q.(seen := q.seen + (k - 1)), rest));
    }
  }

  // ── past the body limit ─────────────────────────────────────────────────────

  /** A head, chunks up to the point where the largest chunk makes the sum wrap to
      zero, and then one octet more than the limit allows. */
  function Overrun(limits: Limits): (s: string)
    requires limits.Fits64() && ChunkedFits(limits) && !BodySumFits(limits)
  {
    var n := limits.maxChunkSize;
    PreambleText(Short(Ticket(limits))) + Ones(TWO_64 - n) + Numeral(n, 16) + CRLF + Xs(limits.maxBodySize - (TWO_64 - n) + 1)
  }

  lemma {:induction false} OverrunEmitted(limits: Limits)
    requires limits.Fits64() && ChunkedFits(limits) && !BodySumFits(limits)
    ensures |Run(Fresh(limits), Overrun(limits)).body| == limits.maxBodySize + 1
  {
    hide Run, PreambleText, Enters, Entered, Ticket, ChunkedFits, Numeral, Ones, Xs, StoredBytes;
    var n, h := limits.maxChunkSize, Ticket(limits);
    var before := TWO_64 - n;
    var data := Xs(limits.maxBodySize - before + 1);
    var last := Numeral(n, 16) + CRLF + data;
    assert Overrun(limits) == PreambleText(Short(h)) + (Ones(before) + last);
    TicketEnters(limits);
    HeadEnters(limits, h, Ones(before) + last);
    var p: Parser := Entered(limits, h);
    RunOnes(p, before, last);
    var q: Parser := p.(seen := before);
    assert Add64(q.seen, n) == 0;
    RunSize(q, n, data);
    RunPart(q.(phase := ChunkData, chunkRemaining := n), data);
  }

  /** One read that brings everything. */
  lemma {:induction false} SlicedWhole(limits: Limits, input: string)
    requires limits.Fits64()
    ensures Sliced(limits, [input]) == Run(Fresh(limits), input)
  {
    StepBehaves();
    var p := Fresh(limits);
    assert Step(p, "") == Starved;
    hide Step;
    ExecUnfolds(Step, p, "");
    var o := Exec(Step, p, "");
    hide Exec;
    FeedUnfolds(Step, o, input);
    assert "" + input == input;
    assert [input][1..] == [];
    assert FeedAll(Step, Feed(Step, o, input), []) == Feed(Step, o, input);
  }

  ghost predicate BodyBounded(limits: Limits, slices: seq<string>)
    requires limits.Fits64()
  {
    |Sliced(limits, slices).body| <= limits.maxBodySize
  }

  /** The body limit holds of all that can be read exactly when no chunked head
      fits the limits, or a body and a chunk of maximal size sum to a 64-bit
      number. */
  lemma {:induction false} BodyBoundExactly(limits: Limits)
    requires limits.Fits64()
    ensures (forall slices :: BodyBounded(limits, slices)) <==> BodySumFits(limits) || !ChunkedFits(limits)
  {
    hide Sliced, Run, Overrun, ChunkedFits;
    if BodySumFits(limits) {
      forall slices ensures BodyBounded(limits, slices) {
        BodyLimitHolds(limits, slices);
      }
    } else if !ChunkedFits(limits) {
      forall slices ensures BodyBounded(limits, slices) {
        NoChunksUnlessFit(limits, slices);
      }
    } else {
      OverrunEmitted(limits);
      SlicedWhole(limits, Overrun(limits));
      assert !BodyBounded(limits, [Overrun(limits)]);
    }
  }

  function Fs(k: nat): (s: string)
    ensures |s| == k
  {
    seq(k, _ => 'f')
  }

  /** The largest number of `k` hexadecimal digits. */
  lemma {:induction false} LargestHex(k: nat)
    requires k >= 1
    ensures Power(16, k) >= 16 && Numeral(Power(16, k) - 1, 16) == Fs(k)
  {
    if k > 1 {
      LargestHex(k - 1);
      assert (Power(16, k) - 1) / 16 == Power(16, k - 1) - 1;
      assert Fs(k) == Fs(k - 1) + ['f'];
    } else {
      assert Power(16, 1) == 16 * Power(16, 0);
      assert Fs(1) == ['f'];
    }
  }

  const ONE_OCTET: Limits := Limits(12, 25, 1, 25, 1, SIZE_MAX, 0, false, false)

  lemma {:induction false} FewNumerals()
    ensures Numeral(SIZE_MAX, 16) == "ffffffffffffffff" && Numeral(1, 16) == "1"
  {
    SixteenHexDigits();
    LargestHex(16);
    assert Fs(16) == "ffffffffffffffff";
    hide Power;
  }

  lemma CodingText()
    ensures LineOf(Coding(0)) == "Transfer-Encoding:chunked"
  {
    assert Commas(0) + "chunked" == "chunked";
  }

  lemma {:induction false} OneOctetHead()
    ensures PreambleText(Short(Ticket(ONE_OCTET))) == "A / HTTP/1.1" + CRLF + "Transfer-Encoding:chunked" + CRLF + CRLF
  {
    hide LineOf, Coding;
    CodingText();
    var h, line := Ticket(ONE_OCTET), "Transfer-Encoding:chunked";
    assert h == [Coding(0)] && h[1..] == [];
    assert line + CRLF + "" == line + CRLF;
    assert LinesOf(h) == line + CRLF;
    hide LinesOf;
    Regroup("A / HTTP/1.1", line);
  }

  lemma Regroup(a: string, b: string)
    ensures a + CRLF + (b + CRLF) + CRLF == a + CRLF + b + CRLF + CRLF
  {
  }

  lemma {:induction false} OneOctetText()
    ensures Overrun(ONE_OCTET) == PreambleText(Short(Ticket(ONE_OCTET))) + "1\r\nX\r\nffffffffffffffff\r\nX"
  {
    hide Numeral, PreambleText, Ticket;
    FewNumerals();
    assert Xs(1) == "X";
    assert Ones(1) == "1" + CRLF + "X" + CRLF + Ones(0);
    assert Ones(1) == "1\r\nX\r\n";
    hide Ones, Xs;
    var head := PreambleText(Short(Ticket(ONE_OCTET)));
    assert Overrun(ONE_OCTET) == head + Ones(1) + "ffffffffffffffff" + CRLF + Xs(1);
    assert Ones(1) + "ffffffffffffffff" + CRLF + Xs(1) == "1\r\nX\r\nffffffffffffffff\r\nX";
  }

  /** With a body limit of one octet, two are handed out. */
  lemma {:induction false} OneOctetLimitBroken()
    ensures var head := "A / HTTP/1.1" + CRLF + "Transfer-Encoding:chunked" + CRLF + CRLF;
            |Run(Fresh(ONE_OCTET), head + "1\r\nX\r\nffffffffffffffff\r\nX").body| == 2
  {
    hide Run, PreambleText, Overrun;
    OneOctetHead();
    OneOctetText();
    OverrunEmitted(ONE_OCTET);
  }
}

/** How a response is cut into reads does not matter, and where it ends is
decided by its own octets. */
module ResponseSlicing {
  import opened Octets
  import opened HttpMessage
  import opened Lines
  import opened Incremental
  import opened ResponseMachine

  /** The peer closed: only a close-delimited body may end here. */
  function AtEof(o: Progress<Parser>): (r: Progress<Parser>)
  {
    if !o.status.Hungry? then o
    else if o.state.phase.EofBody? && o.rest == "" then
      o.(state := o.state.(phase := Done), status := Ended)
    else o.(status := Rejected(Eof))
  }

  // ── one step sees more input ────────────────────────────────────────────────

  lemma LineSeesMore(a: string, b: string, limit: nat, bareLf: bool)
    ensures FindLine(a, limit, bareLf).Line? ==>
              FindLine(a + b, limit, bareLf) == FindLine(a, limit, bareLf)
    ensures FindLine(a, limit, bareLf).BadLine? ==> FindLine(a + b, limit, bareLf).BadLine?
  {
    FindAppend(a, b, '\n');
    var lf := Find(a, '\n');
    assert a[..|a|] == a;
    if lf < |a| {
      assert (a + b)[..lf] == a[..lf];
      assert lf > 0 ==> (a + b)[..lf - 1] == a[..lf - 1];
    } else if FindLine(a, limit, bareLf).BadLine? {
      LongLineStaysLong(a, b, limit, bareLf);
    }
  }

  lemma LongLineStaysLong(a: string, b: string, limit: nat, bareLf: bool)
    requires '\n' !in a && FindLine(a, limit, bareLf).BadLine?
    ensures FindLine(a + b, limit, bareLf).BadLine?
  {
    FindAppend(a, b, '\n');
    assert Find(a, '\n') == |a|;
    var lf := Find(a + b, '\n');
    assert |a| > limit && (a[|a| - 1] == '\r' ==> |a| - 1 > limit);
    if lf == |a + b| {
      assert b == "" ==> a + b == a;
    } else if lf > |a| {
      assert (a + b)[..lf - 1][..|a|] == a;
    } else {
      assert lf == |a|;
      assert (a + b)[lf - 1] == a[|a| - 1];
    }
  }

  /** Inside one stretch of body, taking `a` and then `b` is taking `a + b`. */
  lemma BodyCoalesces(p: Parser, a: string, b: string)
    requires !ReadsLines(p.phase) && !p.phase.Done? && BodyStep(p, a).Moved?
    requires p.phase.EofBody? || |a| < p.remaining
    ensures Coalesces(Step, p, BodyStep(p, a).next, a, b)
  {
    var q := BodyStep(p, a).next;
    assert a[..|a|] == a;
    if b != "" {
      var n := BodyCount(q, b);
      assert BodyCount(p, a + b) == |a| + n;
      assert (a + b)[..|a| + n] == a + b[..n];
    }
  }

  lemma StepIsStable(p: Parser, a: string, b: string)
    ensures StableAt(Step, p, a, b)
  {
    if ReadsLines(p.phase) {
      LineSeesMore(a, b, Cap(p), p.limits.allowBareLf);
      FindAppend(a, b, '\n');
    } else if !p.phase.Done? && BodyStep(p, a).Moved? {
      if p.phase.EofBody? || |a| < p.remaining {
        BodyCoalesces(p, a, b);
      } else {
        assert (a + b)[..p.remaining] == a[..p.remaining];
      }
    }
  }

  lemma StepStable()
    ensures Stable(Step)
  {
    forall p: Parser, input: string ensures Advances(Step, p, input) {
    }
    forall p: Parser, a: string, b: string ensures StableAt(Step, p, a, b) {
      StepIsStable(p, a, b);
    }
  }

  // ── theorems ────────────────────────────────────────────────────────────────

  /** The run of a parser on what is buffered. */
  ghost function Run(p: Parser, input: string): (o: Progress<Parser>)
  {
    StepStable();
    Exec(Step, p, input)
  }

  /** What a driver sees that reads `slices` and then end of stream. */
  ghost function Sliced(meth: Method, limits: Limits, slices: seq<string>): (r: Progress<Parser>)
    requires limits.Fits64()
  {
    StepStable();
    AtEof(FeedAll(Step, Exec(Step, Fresh(meth, limits), ""), slices))
  }

  /** Slicing independence: the same verdict for every way of cutting the input
      and, on acceptance, the same head, body, trailers and octets left over. */
  lemma {:induction false} SlicingIndependence(meth: Method, limits: Limits, input: string, slices: seq<string>)
    requires limits.Fits64() && Concat(slices) == input
    ensures SameResult(Sliced(meth, limits, slices), Sliced(meth, limits, [input]))
  {
    StepStable();
    var p := Fresh(meth, limits);
    FeedAllIsExec(Step, p, "", Exec(Step, p, ""), slices);
    FeedAllIsExec(Step, p, "", Exec(Step, p, ""), [input]);
    assert Concat([input]) == input;
  }

  /** The reason given for a rejection, unlike the rejection, may depend on the
      slicing: a line that is both too long and badly ended. */
  lemma RejectionReasonMayDiffer()
    ensures Sliced(Get, NO_LIMITS, ["a\n"]).status == Rejected(BadLineEnding)
    ensures Sliced(Get, NO_LIMITS, ["a", "\n"]).status == Rejected(LimitExceeded)
  {
    StepStable();
    assert FindLine("a\n", 0, false) == BadLine(BadLineEnding);
    assert FindLine("a", 0, false) == BadLine(LimitExceeded);
    hide Exec, Step, FeedAll, FindLine, AtEof;
    var p := Fresh(Get, NO_LIMITS);
    NothingRead();
    FirstReadRejected(p, "a\n", BadLineEnding, []);
    assert ["a\n"] + [] == ["a\n"];
    FirstReadRejected(p, "a", LimitExceeded, ["\n"]);
    assert ["a"] + ["\n"] == ["a", "\n"];
  }

  lemma NothingRead()
    requires Progressive(Step)
    ensures var p := Fresh(Get, NO_LIMITS); Exec(Step, p, "") == Progress(p, "", "", Hungry)
  {
    assert FindLine("", 0, false) == NoLine;
  }

  lemma {:induction false} FirstReadRejected(p: Parser, first: string, e: Error, others: seq<string>)
    requires Progressive(Step) && p == Fresh(Get, NO_LIMITS)
    requires Exec(Step, p, "") == Progress(p, "", "", Hungry)
    requires FindLine(first, 0, false) == BadLine(e)
    ensures AtEof(FeedAll(Step, Exec(Step, p, ""), [first] + others)).status == Rejected(e)
  {
    assert "" + first == first;
    assert Step(p, first) == Failed(e);
    hide Exec, Step;
    ExecUnfolds(Step, p, first);
    assert ([first] + others)[1..] == others;
    RejectedStays(Feed(Step, Exec(Step, p, ""), first), others);
  }

  lemma {:induction false} RejectedStays(o: Progress<Parser>, slices: seq<string>)
    requires Progressive(Step) && o.status.Rejected?
    ensures FeedAll(Step, o, slices) == o
  {
    if slices != [] {
      RejectedStays(o, slices[1..]);
    }
  }

  // ── message boundaries ──────────────────────────────────────────────────────

  /** Close-delimited means, and is meant by, waiting for end of stream. */
  predicate ClosesOnlyAtEof(p: Parser)
  {
    p.response.bodyKind.CloseDelimited? <==> p.phase.EofBody?
  }

  lemma KindIsKept(p: Parser, input: string)
    requires ClosesOnlyAtEof(p)
    ensures Keeps(Step, ClosesOnlyAtEof, p, input)
  {
    hide FindLine, FieldOf, FramingOf, StatusForbidsBody, ParseNumber, ParserState.Valid;
  }

  lemma {:induction false} RunKeepsKind(meth: Method, limits: Limits, input: string)
    requires limits.Fits64()
    ensures Progressive(Step)
    ensures ClosesOnlyAtEof(Exec(Step, Fresh(meth, limits), input).state)
  {
    StepStable();
    forall p: Parser, text: string | ClosesOnlyAtEof(p)
      ensures Keeps(Step, ClosesOnlyAtEof, p, text)
    {
      KindIsKept(p, text);
    }
    ExecKeeps(Step, ClosesOnlyAtEof, Fresh(meth, limits), input);
  }

  lemma {:induction false} SlicedIsExec(meth: Method, limits: Limits, input: string)
    requires limits.Fits64()
    ensures Progressive(Step)
    ensures SameResult(Sliced(meth, limits, [input]),
                       AtEof(Exec(Step, Fresh(meth, limits), input)))
    ensures Exec(Step, Fresh(meth, limits), input).status.Hungry? ==>
              Sliced(meth, limits, [input]) == AtEof(Exec(Step, Fresh(meth, limits), input))
  {
    StepStable();
    var p := Fresh(meth, limits);
    FeedAllIsExec(Step, p, "", Exec(Step, p, ""), [input]);
    assert "" + Concat([input]) == input;
  }

  /** Self-delimiting: an accepted message whose body is not closed by end of
      stream ignores and leaves alone whatever follows it, and no strict prefix
      of its octets followed by end of stream is a message. */
  lemma SelfDelimiting(meth: Method, limits: Limits, message: string, suffix: string, k: nat)
    requires limits.Fits64()
    requires Sliced(meth, limits, [message]).status.Ended?
    requires !Sliced(meth, limits, [message]).state.response.bodyKind.CloseDelimited?
    requires k < |message| - |Sliced(meth, limits, [message]).rest|
    ensures var o := Sliced(meth, limits, [message]);
            Sliced(meth, limits, [message + suffix]) == o.(rest := o.rest + suffix)
    ensures Sliced(meth, limits, [message[..k]]).status == Rejected(Eof)
  {
    StepStable();
    var p := Fresh(meth, limits);
    SlicedIsExec(meth, limits, message);
    RunKeepsKind(meth, limits, message);
    var o := Exec(Step, p, message);
    assert o.status.Ended?;
    SlicedIsExec(meth, limits, message + suffix);
    EndedIgnoresSuffix(Step, p, message, suffix);
    PrefixStarves(meth, limits, message, k);
  }

  lemma {:induction false} PrefixStarves(meth: Method, limits: Limits, message: string, k: nat)
    requires limits.Fits64() && Progressive(Step)
    requires var o := Exec(Step, Fresh(meth, limits), message);
             o.status.Ended? && k < |message| - |o.rest|
    ensures Sliced(meth, limits, [message[..k]]).status == Rejected(Eof)
  {
    hide Exec, Step, FeedAll, Sliced;
    StepStable();
    var p := Fresh(meth, limits);
    var rest := Exec(Step, p, message).rest;
    RestIsSuffix(Step, p, message);
    var own := message[..|message| - |rest|];
    assert message == own + rest;
    ConsumedPartEnds(Step, p, own, rest);
    assert own == message[..k] + own[k..];
    StrictPrefixIsHungry(Step, p, message[..k], own[k..]);
    SlicedIsExec(meth, limits, message[..k]);
    StillOpen(meth, limits, message[..k], own[k..]);
  }

  /** A parser that will finish inside `b` is not waiting for end of stream. */
  lemma {:induction false} StillOpen(meth: Method, limits: Limits, a: string, b: string)
    requires limits.Fits64() && Progressive(Step)
    requires Exec(Step, Fresh(meth, limits), a).status.Hungry?
    requires Exec(Step, Fresh(meth, limits), a + b).status.Ended?
    ensures !Exec(Step, Fresh(meth, limits), a).state.phase.EofBody?
  {
    StepStable();
    var o := Exec(Step, Fresh(meth, limits), a);
    ExecAppend(Step, Fresh(meth, limits), a, b);
    if o.state.phase.EofBody? {
      EofBodyNeverEnds(o.state, o.rest + b);
    }
  }

  lemma {:induction false} EofBodyNeverEnds(p: Parser, input: string)
    requires p.phase.EofBody? && Progressive(Step)
    ensures !Exec(Step, p, input).status.Ended?
    decreases |input|
  {
    var r := Step(p, input);
    if r.Moved? {
      EofBodyNeverEnds(r.next, input[r.consumed..]);
    }
  }

  // ── limits ──────────────────────────────────────────────────────────────────

  lemma {:induction false} BodyIsCounted(p: Parser, input: string)
    requires Progressive(Step)
    ensures var o := Exec(Step, p, input);
            p.seen + |o.body| == o.state.seen && o.state.limits == p.limits
    decreases |input|
  {
    var r := Step(p, input);
    if r.Moved? {
      StepCounts(p, input);
      BodyIsCounted(r.next, input[r.consumed..]);
    }
  }

  lemma StepCounts(p: Parser, input: string)
    requires Step(p, input).Moved?
    ensures var r := Step(p, input);
            r.next.seen == p.seen + |r.body| && r.next.limits == p.limits
  {
  }

  lemma {:induction false} FeedAllCounts(o: Progress<Parser>, slices: seq<string>)
    requires Progressive(Step) && |o.body| == o.state.seen
    ensures var r := FeedAll(Step, o, slices);
            |r.body| == r.state.seen && r.state.limits == o.state.limits
    decreases |slices|
  {
    if slices != [] {
      if o.status.Hungry? {
        BodyIsCounted(o.state, o.rest + slices[0]);
      }
      FeedAllCounts(Feed(Step, o, slices[0]), slices[1..]);
    }
  }

  /** In every state any reads can reach, the body handed out plus the body still
      owed fits the body limit, and stored fields fit theirs. */
  lemma {:induction false} LimitsHold(meth: Method, limits: Limits, slices: seq<string>)
    requires limits.Fits64()
    ensures Progressive(Step)
    ensures var o := FeedAll(Step, Exec(Step, Fresh(meth, limits), ""), slices);
            && |o.body| <= limits.maxBodySize
            && (o.state.phase.InLength? || o.state.phase.ChunkData? ==>
                  |o.body| + o.state.remaining <= limits.maxBodySize)
            && |o.state.response.headers| + |o.state.trailers| <= limits.maxHeaderCount
            && StoredBytes(o.state.response.headers) + StoredBytes(o.state.trailers)
                 <= limits.maxHeadersTotal
  {
    StepStable();
    var p := Fresh(meth, limits);
    BodyIsCounted(p, "");
    FeedAllCounts(Exec(Step, p, ""), slices);
  }
}

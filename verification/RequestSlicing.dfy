/** When the way a request is cut into reads matters, and what bounds hold in
every state the reads can reach. */
module RequestSlicing {
  import opened Octets
  import opened Grammar
  import opened HttpMessage
  import opened Lines
  import opened Incremental
  import opened Patience
  import opened RequestMachine

  // ── one step sees more input ────────────────────────────────────────────────

  lemma {:induction false} LineEnds(a: string, bareLf: bool)
    ensures NextLine(a, bareLf).NoLine? <==> '\n' !in a
    ensures NextLine(a, bareLf).BadLine? ==> NextLine(a, bareLf).error == BadLineEnding
    ensures NextLine(a, bareLf).Line? ==> NextLine(a, bareLf).consumed == Find(a, '\n') + 1
  {
    assert a[..|a|] == a;
  }

  lemma LineSeesMore(a: string, b: string, bareLf: bool)
    requires '\n' in a
    ensures NextLine(a + b, bareLf) == NextLine(a, bareLf)
  {
    FindAppend(a, b, '\n');
    assert a[..|a|] == a;
    var lf := Find(a, '\n');
    assert (a + b)[..lf] == a[..lf];
    assert lf > 0 ==> (a + b)[..lf - 1] == a[..lf - 1];
  }

  lemma BodyCoalesces(p: Parser, a: string, b: string)
    requires !ReadsLines(p) && !p.phase.Done? && a != "" && |a| < Owed(p)
    ensures Coalesces(Step, p, BodyStep(p, a).next, a, b) && Calm(Step, BodyStep(p, a).next)
  {
    var q := BodyStep(p, a).next;
    assert a[..|a|] == a;
    assert !ReadsLines(q) && !q.phase.Done? && Owed(q) == Owed(p) - |a|;
    if b != "" {
      BodyTwice(p, a, b);
    }
  }

  lemma BodyTwice(p: Parser, a: string, b: string)
    requires !ReadsLines(p) && !p.phase.Done? && a != "" && b != "" && |a| < Owed(p)
    ensures var q := BodyStep(p, a).next; !ReadsLines(q) && !q.phase.Done?
    ensures var q := BodyStep(p, a).next;
            var r := BodyStep(q, b);
            BodyStep(p, a + b) == Moved(r.next, |a| + r.consumed, a + r.body)
  {
    hide ParserState.Valid;
    assert Owed(p) < TWO_64 && p.seen < TWO_64 by { BoundsOf(p); }
    assert a[..|a|] == a;
    var q := BodyStep(p, a).next;
    var n := BodyCount(q, b);
    assert BodyCount(p, a + b) == |a| + n;
    assert (a + b)[..|a| + n] == a + b[..n];
    AddTwice(p.seen, |a|, n);
  }

  lemma BoundsOf(p: Parser)
    ensures Owed(p) < TWO_64 && p.seen < TWO_64
  {
  }

  lemma AddTwice(x: nat, m: nat, n: nat)
    ensures Add64(Add64(x, m), n) == Add64(x, m + n)
  {
    assert ((x + m) % TWO_64 + n) % TWO_64 == (x + m + n) % TWO_64;
  }

  lemma LineIsStable(p: Parser, a: string, b: string)
    requires ReadsLines(p) && !Step(p, a).Failed?
    ensures StableAt(Step, p, a, b) && (Step(p, a).Moved? ==> Step(p, a + b) == Step(p, a))
  {
    hide HandleLine, NextLine, Overlong, ParserState.Valid;
    LineEnds(a, p.limits.allowBareLf);
    if '\n' in a {
      LineSeesMore(a, b, p.limits.allowBareLf);
    } else {
      LineEnds(a + b, p.limits.allowBareLf);
      FindAppend(a, b, '\n');
    }
  }

  lemma StepIsSemiStable(p: Parser, a: string, b: string)
    ensures SemiStableAt(Step, p, a, b)
  {
    hide HandleLine, NextLine, Overlong, ParserState.Valid;
    if p.phase.Done? {
    } else if ReadsLines(p) {
      if !Step(p, a).Failed? {
        LineIsStable(p, a, b);
      }
    } else if a != "" {
      if |a| < Owed(p) {
        BodyCoalesces(p, a, b);
      } else {
        assert (a + b)[..Owed(p)] == a[..Owed(p)];
      }
    }
  }

  lemma StepIsLocal(p: Parser, t: string, m: nat)
    ensures LocalAt(Step, p, t, m)
  {
    hide HandleLine, NextLine, Overlong, ParserState.Valid;
    var r := Step(p, t);
    if r.Moved? && r.consumed <= m <= |t| {
      var a, b := t[..m], t[m..];
      assert t == a + b;
      if ReadsLines(p) {
        LineEnds(t, p.limits.allowBareLf);
        assert t[r.consumed - 1] == '\n' && a[r.consumed - 1] == '\n';
        LineSeesMore(a, b, p.limits.allowBareLf);
      } else {
        assert t[..r.consumed] == a[..r.consumed];
      }
    }
  }

  lemma StepBehaves()
    ensures SemiStable(Step) && Local(Step)
  {
    forall p: Parser, input: string ensures Advances(Step, p, input) {
    }
    forall p: Parser, a: string, b: string ensures SemiStableAt(Step, p, a, b) {
      StepIsSemiStable(p, a, b);
    }
    forall p: Parser, t: string, m: nat ensures LocalAt(Step, p, t, m) {
      StepIsLocal(p, t, m);
    }
  }

  // ── the exact condition ─────────────────────────────────────────────────────

  /** Every line read leaves room for its own CR under the cap on unfinished
      lines. */
  ghost predicate RoomyRun(p: Parser, t: string)
    decreases |t|
  {
    var r := Step(p, t);
    r.Moved? ==>
      && (ReadsLines(p) ==> !Overlong(p, r.consumed - 1))
      && RoomyRun(r.next, t[r.consumed..])
  }

  lemma OverlongGrows(p: ParserState, m: nat, n: nat)
    requires m <= n && Overlong(p, m)
    ensures Overlong(p, n)
  {
  }

  lemma PrefixFails(p: Parser, t: string, i: nat)
    requires ReadsLines(p) && i <= |t|
    ensures '\n' !in t[..i] ==> (Step(p, t[..i]).Failed? <==> Overlong(p, i))
    ensures '\n' in t[..i] ==> (Step(p, t[..i]).Failed? <==> Step(p, t).Failed?)
  {
    hide HandleLine, NextLine, Overlong, ParserState.Valid;
    var a, b := t[..i], t[i..];
    assert t == a + b;
    LineEnds(a, p.limits.allowBareLf);
    if '\n' in a {
      LineSeesMore(a, b, p.limits.allowBareLf);
    }
  }

  lemma PatientIsRoomy(p: Parser, t: string)
    ensures Patient(Step, p, t) <==> (Step(p, t).Moved? && ReadsLines(p) ==> !Overlong(p, Step(p, t).consumed - 1))
  {
    hide HandleLine, NextLine, Overlong, ParserState.Valid;
    if ReadsLines(p) {
      LineEnds(t, p.limits.allowBareLf);
      if Step(p, t).Moved? {
        RoomyLine(p, t);
      } else if Step(p, t).Starved? {
        StarvedIsPatient(p, t);
      }
    }
  }

  lemma StarvedIsPatient(p: Parser, t: string)
    requires ReadsLines(p) && Step(p, t).Starved?
    ensures Patient(Step, p, t)
  {
    hide HandleLine, NextLine, Overlong, ParserState.Valid;
    LineEnds(t, p.limits.allowBareLf);
    forall i | 0 <= i <= |t| ensures !Step(p, t[..i]).Failed? {
      PrefixFails(p, t, i);
      PrefixFails(p, t, |t|);
      assert t[..|t|] == t;
      if Overlong(p, i) { OverlongGrows(p, i, |t|); }
    }
  }

  lemma RoomyLine(p: Parser, t: string)
    requires ReadsLines(p) && Step(p, t).Moved?
    ensures Patient(Step, p, t) <==> !Overlong(p, Step(p, t).consumed - 1)
  {
    hide HandleLine, NextLine, Overlong, ParserState.Valid;
    LineEnds(t, p.limits.allowBareLf);
    var n := Step(p, t).consumed;
    var lf := n - 1;
    assert '\n' !in t[..lf] && t[lf] == '\n';
    PrefixFails(p, t, lf);
    forall i | 0 <= i <= |t| && Step(p, t[..i]).Failed? ensures Overlong(p, lf) {
      assert i > lf ==> t[..i][lf] == '\n';
      assert i <= lf ==> t[..i] == t[..lf][..i];
      PrefixFails(p, t, i);
      if i <= lf {
        OverlongGrows(p, i, lf);
      }
    }
  }

  lemma {:induction false} PatientRunIsRoomy(p: Parser, t: string)
    requires Progressive(Step)
    ensures PatientRun(Step, p, t) <==> RoomyRun(p, t)
    decreases |t|
  {
    hide Step, Overlong;
    PatientIsRoomy(p, t);
    assert Advances(Step, p, t);
    var r := Step(p, t);
    if r.Moved? {
      PatientRunIsRoomy(r.next, t[r.consumed..]);
    }
  }

  /** The run of a parser on what is buffered. */
  ghost function Run(p: Parser, input: string): (o: Progress<Parser>)
  {
    StepBehaves();
    Exec(Step, p, input)
  }

  /** Where the parser stands after these reads. */
  ghost function Sliced(limits: Limits, slices: seq<string>): (o: Progress<Parser>)
    requires limits.Fits64()
  {
    StepBehaves();
    FeedAll(Step, Exec(Step, Fresh(limits), ""), slices)
  }

  /** However the input is cut, the parser ends where it would on the whole, or
      rejects. */
  lemma {:induction false} SlicingOnlyRejects(limits: Limits, slices: seq<string>)
    requires limits.Fits64() && !Sliced(limits, slices).status.Rejected?
    ensures Sliced(limits, slices) == Run(Fresh(limits), Concat(slices))
  {
    StepBehaves();
    FeedAllOrReject(Step, Fresh(limits), "", slices);
    assert "" + Concat(slices) == Concat(slices);
  }

  ghost predicate CutsAgree(limits: Limits, input: string, slices: seq<string>)
    requires limits.Fits64()
  {
    Concat(slices) == input ==> SameResult(Sliced(limits, slices), Run(Fresh(limits), input))
  }

  /** Every way of cutting an input gives the same result exactly when the whole
      is rejected or every line in it has room for its CR. */
  lemma {:induction false} SlicingIndependentExactly(limits: Limits, input: string)
    requires limits.Fits64()
    ensures (forall slices :: CutsAgree(limits, input, slices))
            <==> Run(Fresh(limits), input).status.Rejected? || RoomyRun(Fresh(limits), input)
  {
    hide Exec, FeedAll, Step;
    StepBehaves();
    var p := Fresh(limits);
    SlicingExactly(Step, p, input);
    PatientRunIsRoomy(p, input);
    forall slices ensures CutsAgree(limits, input, slices) <==> SlicesAgree(Step, p, input, slices) {
    }
  }

  // ── limits ──────────────────────────────────────────────────────────────────

  lemma StepCounts(p: Parser, input: string)
    requires Step(p, input).Moved?
    ensures var r := Step(p, input);
            r.next.limits == p.limits && r.next.seen == Add64(p.seen, |r.body|)
  {
    hide ParserState.Valid;
    if ReadsLines(p) {
      LineCounts(p, input);
    }
  }

  lemma LineCounts(p: Parser, input: string)
    requires ReadsLines(p) && LineStep(p, input).Moved?
    ensures var r := LineStep(p, input);
            r.body == "" && r.next.limits == p.limits && r.next.seen == p.seen == Add64(p.seen, 0)
  {
    hide Find, NextLine, TrimOws, FramingOf, ParseNumber, MethodFromToken;
    BoundsOf(p);
  }

  /** With sums that fit, the 64-bit count is the count. */
  lemma StepCountsExactly(p: Parser, input: string)
    requires Step(p, input).Moved? && BodySumFits(p.limits)
    ensures var r := Step(p, input);
            r.next.limits == p.limits && r.next.seen == p.seen + |r.body|
  {
    hide HandleLine, FindLine, StoredBytes;
    StepCounts(p, input);
    if !ReadsLines(p) {
      assert p.seen + Owed(p) <= p.limits.maxBodySize;
    } else {
      LineCounts(p, input);
    }
  }

  ghost predicate Counts(p: Parser, input: string)
  {
    var r := Step(p, input);
    r.Moved? ==> r.next.limits == p.limits && r.next.seen == p.seen + |r.body|
  }

  lemma {:induction false} BodyIsCounted(inv: Parser -> bool, p: Parser, input: string)
    requires Progressive(Step) && inv(p)
    requires forall t, text :: inv(t) ==> Keeps(Step, inv, t, text) && Counts(t, text)
    ensures var o := Exec(Step, p, input);
            o.state.limits == p.limits && o.state.seen == p.seen + |o.body| && inv(o.state)
    decreases |input|
  {
    hide Exec, Step;
    ExecUnfolds(Step, p, input);
    assert Keeps(Step, inv, p, input) && Counts(p, input);
    var r := Step(p, input);
    if r.Moved? {
      BodyIsCounted(inv, r.next, input[r.consumed..]);
    }
  }

  lemma {:induction false} FeedAllCounts(inv: Parser -> bool, o: Progress<Parser>, slices: seq<string>)
    requires Progressive(Step) && o.state.seen == |o.body| && inv(o.state)
    requires forall t, text :: inv(t) ==> Keeps(Step, inv, t, text) && Counts(t, text)
    ensures var r := FeedAll(Step, o, slices);
            r.state.limits == o.state.limits && r.state.seen == |r.body| && inv(r.state)
    decreases |slices|
  {
    hide Exec, Step, Counts;
    if slices != [] {
      if o.status.Hungry? {
        BodyIsCounted(inv, o.state, o.rest + slices[0]);
      }
      FeedAllCounts(inv, Feed(Step, o, slices[0]), slices[1..]);
    }
  }

  predicate SumFits(p: Parser)
  {
    BodySumFits(p.limits)
  }

  /** In every state any reads can reach the body handed out plus the body still
      owed fits the body limit, provided a body and a chunk of maximal size sum to
      a 64-bit number. */
  lemma BodyLimitHolds(limits: Limits, slices: seq<string>)
    requires limits.Fits64() && BodySumFits(limits)
    ensures var o := Sliced(limits, slices);
            && |o.body| <= limits.maxBodySize
            && (o.state.phase.InLength? || o.state.phase.ChunkData? ==>
                  |o.body| + Owed(o.state) <= limits.maxBodySize)
  {
    hide Exec, Step, FeedAll;
    StepBehaves();
    forall t, text | SumFits(t) ensures Keeps(Step, SumFits, t, text) && Counts(t, text) {
      if Step(t, text).Moved? { StepCountsExactly(t, text); }
    }
    var p := Fresh(limits);
    BodyIsCounted(SumFits, p, "");
    FeedAllCounts(SumFits, Exec(Step, p, ""), slices);
    StateBounds(Sliced(limits, slices).state);
  }

  lemma StateBounds(p: Parser)
    ensures BodySumFits(p.limits) ==> p.seen <= p.limits.maxBodySize
    ensures BodySumFits(p.limits) && (p.phase.InLength? || p.phase.ChunkData?) ==>
              p.seen + Owed(p) <= p.limits.maxBodySize
    ensures |p.request.headers| <= p.limits.maxHeaderCount && |p.trailers| <= p.limits.maxHeaderCount
    ensures HeaderSumFits(p.limits) ==> StoredBytes(p.request.headers) <= p.limits.maxHeadersTotal
  {
  }

  lemma {:induction false} ExecKeepsLimits(p: Parser, input: string)
    requires Progressive(Step)
    ensures Exec(Step, p, input).state.limits == p.limits
    decreases |input|
  {
    hide Exec, Step;
    ExecUnfolds(Step, p, input);
    var r := Step(p, input);
    if r.Moved? {
      StepCounts(p, input);
      ExecKeepsLimits(r.next, input[r.consumed..]);
    }
  }

  lemma {:induction false} FeedAllKeepsLimits(o: Progress<Parser>, slices: seq<string>)
    requires Progressive(Step)
    ensures FeedAll(Step, o, slices).state.limits == o.state.limits
    decreases |slices|
  {
    hide Exec, Step;
    if slices != [] {
      if o.status.Hungry? {
        ExecKeepsLimits(o.state, o.rest + slices[0]);
      }
      FeedAllKeepsLimits(Feed(Step, o, slices[0]), slices[1..]);
    }
  }
}

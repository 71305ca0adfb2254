/** When the reason a response is rejected for depends on how it is cut into reads.

The rejection itself never does. A line that is both too long and badly ended is
refused for its ending once it is all there, and for its length if a read ends
before that.
*/
module ResponseReasons {
  import opened Octets
  import opened HttpMessage
  import opened Lines
  import opened Incremental
  import opened Patience
  import opened ResponseMachine
  import opened ResponseSlicing

  /** How many octets a line holds before its LF, a CR in front of it not counted. */
  function Held(input: string, lf: nat): (n: nat)
    requires lf < |input|
  {
    if lf > 0 && input[lf - 1] == '\r' then lf - 1 else lf
  }

  /** The next line is refused for its ending although it is over its cap. */
  predicate Late(p: Parser, input: string)
  {
    && ReadsLines(p.phase)
    && FindLine(input, Cap(p), p.limits.allowBareLf) == BadLine(BadLineEnding)
    && Held(input, Find(input, '\n')) > Cap(p)
  }

  /** The run comes to such a line. */
  ghost predicate LateRun(p: Parser, input: string)
    decreases |input|
  {
    var r := Step(p, input);
    if r.Moved? then LateRun(r.next, input[r.consumed..]) else Late(p, input)
  }

  // ── otherwise a prefix fails for the reason the whole does ──────────────────

  lemma {:induction false} LineReason(a: string, b: string, limit: nat, bareLf: bool)
    requires FindLine(a, limit, bareLf).BadLine?
    ensures var r := FindLine(a + b, limit, bareLf);
      || r == FindLine(a, limit, bareLf)
      || (r == BadLine(BadLineEnding) && Find(a + b, '\n') < |a + b| && Held(a + b, Find(a + b, '\n')) > limit)
  {
    FindAppend(a, b, '\n');
    var lf := Find(a, '\n');
    assert a[..|a|] == a;
    if lf < |a| {
      assert (a + b)[..lf] == a[..lf];
      assert lf > 0 ==> (a + b)[..lf - 1] == a[..lf - 1];
    } else {
      LongLineStaysLong(a, b, limit, bareLf);
      LongLineHeld(a, b, limit, bareLf);
    }
  }

  lemma {:induction false} LongLineHeld(a: string, b: string, limit: nat, bareLf: bool)
    requires '\n' !in a && FindLine(a, limit, bareLf).BadLine?
    ensures FindLine(a, limit, bareLf) == BadLine(LimitExceeded)
    ensures var lf := Find(a + b, '\n');
      if lf < |a + b| then Held(a + b, lf) > limit else FindLine(a + b, limit, bareLf) == BadLine(LimitExceeded)
  {
    FindAppend(a, b, '\n');
    assert Find(a, '\n') == |a|;
    var t, lf := a + b, Find(a + b, '\n');
    assert |a| > limit && (a[|a| - 1] == '\r' ==> |a| - 1 > limit);
    assert lf >= |a|;
    if lf == |a| && lf < |t| {
      assert t[lf - 1] == a[|a| - 1];
    }
    if lf == |t| && b == "" {
      assert t == a;
    }
    hide Find;
  }

  lemma {:induction false} SameReason(p: Parser, a: string, b: string)
    requires Step(p, a).Failed? && !Late(p, a + b)
    ensures Step(p, a + b) == Step(p, a)
  {
    if ReadsLines(p.phase) {
      if FindLine(a, Cap(p), p.limits.allowBareLf).BadLine? {
        LineReason(a, b, Cap(p), p.limits.allowBareLf);
      } else {
        LineSeesMore(a, b, Cap(p), p.limits.allowBareLf);
      }
    } else {
      StepIsStable(p, a, b);
    }
    hide FindLine, HandleLine, Find, ParserState.Valid;
  }

  lemma {:induction false} LateUnfolds(p: Parser, input: string)
    ensures var r := Step(p, input);
      LateRun(p, input) <==> if r.Moved? then LateRun(r.next, input[r.consumed..]) else Late(p, input)
  {
  }

  lemma {:induction false} BodyFacts(p: Parser, a: string, b: string)
    requires !ReadsLines(p.phase) && !p.phase.Done? && BodyStep(p, a).Moved?
    requires p.phase.EofBody? || |a| < p.remaining
    ensures var q := BodyStep(p, a).next;
      && Coalesces(Step, p, q, a, b)
      && !Late(p, a + b) && !Late(q, b)
      && (Step(q, b).Failed? ==> Step(q, b) == Failed(LimitExceeded) && Step(p, a + b) == Failed(LimitExceeded))
  {
    BodyCoalesces(p, a, b);
    assert BodyStep(p, a).next.phase == p.phase;
    hide ParserState.Valid, TakeBody, LineStep, Coalesces;
  }

  /** Within a body, `a` and then `b` fails exactly as `a + b` does, and no line is
      looked at. */
  lemma {:induction false} BodyReason(p: Parser, a: string, b: string)
    requires Progressive(Step) && !ReadsLines(p.phase) && !p.phase.Done? && BodyStep(p, a).Moved?
    requires p.phase.EofBody? || |a| < p.remaining
    ensures var q := BodyStep(p, a).next;
      && Exec(Step, p, a) == Progress(q, "", a, Hungry)
      && Exec(Step, q, b).status == Exec(Step, p, a + b).status
      && (LateRun(q, b) <==> LateRun(p, a + b))
  {
    hide Step, BodyStep, ParserState.Valid, Exec, LateRun, Late;
    BodyFacts(p, a, b);
    var q := BodyStep(p, a).next;
    var r := Step(q, b);
    assert b == "" ==> a + b == a;
    assert a[|a|..] == "" && a + "" == a;
    ExecUnfolds(Step, p, a);
    ExecUnfolds(Step, q, "");
    ExecUnfolds(Step, q, b);
    ExecUnfolds(Step, p, a + b);
    LateUnfolds(q, b);
    LateUnfolds(p, a + b);
    if r.Moved? {
      assert (a + b)[|a| + r.consumed..] == b[r.consumed..];
    } else if !r.Failed? {
      assert b == "";
      LateUnfolds(q, "");
      assert a[|a|..] == "";
    }
  }

  /** A step that moved on `a` moves alike on `a + b`, or is part of a body. */
  lemma {:induction false} MovesAlike(p: Parser, a: string, b: string)
    requires Step(p, a).Moved?
    ensures || Step(p, a + b) == Step(p, a)
            || (!ReadsLines(p.phase) && !p.phase.Done? && BodyStep(p, a).Moved? && (p.phase.EofBody? || |a| < p.remaining))
  {
    if ReadsLines(p.phase) {
      LineSeesMore(a, b, Cap(p), p.limits.allowBareLf);
    } else if !(p.phase.EofBody? || |a| < p.remaining) {
      assert (a + b)[..p.remaining] == a[..p.remaining];
    }
    hide FindLine, HandleLine;
  }

  lemma {:induction false} ReasonAppend(p: Parser, a: string, b: string)
    requires Stable(Step) && !LateRun(p, a + b)
    ensures var o := Exec(Step, p, a);
      && Feed(Step, o, b).status == Exec(Step, p, a + b).status
      && (o.status.Hungry? ==> !LateRun(o.state, o.rest + b))
    decreases |a|
  {
    hide Exec, Feed, Step, BodyStep, LateRun, Late;
    var r := Step(p, a);
    ExecUnfolds(Step, p, a);
    ExecUnfolds(Step, p, a + b);
    FeedUnfolds(Step, Exec(Step, p, a), b);
    LateUnfolds(p, a + b);
    assert StableAt(Step, p, a, b);
    if r.Failed? {
      SameReason(p, a, b);
    } else if r.Moved? {
      MovesAlike(p, a, b);
      if Step(p, a + b) == r {
        var tail := a[r.consumed..];
        assert (a + b)[r.consumed..] == tail + b;
        ReasonAppend(r.next, tail, b);
        FeedUnfolds(Step, Exec(Step, r.next, tail), b);
      } else {
        BodyReason(p, a, b);
        assert "" + b == b;
      }
    }
  }

  lemma {:induction false} ReasonFeedAll(p: Parser, a: string, slices: seq<string>)
    requires Stable(Step) && !LateRun(p, a + Concat(slices))
    ensures FeedAll(Step, Exec(Step, p, a), slices).status == Exec(Step, p, a + Concat(slices)).status
    decreases |slices|
  {
    hide Exec, Feed, Step, LateRun;
    var o := Exec(Step, p, a);
    if slices == [] {
      assert a + Concat(slices) == a;
    } else {
      var tail := slices[1..];
      ReasonAppend(p, a, Concat(slices));
      FeedUnfolds(Step, o, Concat(slices));
      FeedUnfolds(Step, o, slices[0]);
      if o.status.Hungry? {
        assert o.rest + slices[0] + Concat(tail) == o.rest + Concat(slices);
        ReasonFeedAll(o.state, o.rest + slices[0], tail);
        PrependFeedAll(Step, o.body, Exec(Step, o.state, o.rest + slices[0]), tail);
      } else {
        SettledFeedAll(Step, o, slices);
      }
    }
  }

  // ── and where it comes to such a line, some cut shows ───────────────────────

  lemma {:induction false} LateIsCutShort(p: Parser, input: string)
    requires Late(p, input)
    ensures var lf := Find(input, '\n');
      Step(p, input) == Failed(BadLineEnding) && Step(p, input[..lf]) == Failed(LimitExceeded)
  {
    var lf := Find(input, '\n');
    var a := input[..lf];
    FindUnique(a, '\n', |a|);
    assert a[..|a|] == a;
    hide HandleLine, ParserState.Valid;
  }

  /** What a step consumed is all it needed, if something is left to be read. */
  lemma {:induction false} EnoughToMove(p: Parser, input: string, m: nat)
    requires Step(p, input).Moved? && Step(p, input).consumed < |input| && Step(p, input).consumed <= m <= |input|
    ensures Step(p, input[..m]) == Step(p, input)
  {
    var a := input[..m];
    assert a + input[m..] == input;
    if ReadsLines(p.phase) {
      var lf := Find(input, '\n');
      assert lf < m && a[..lf] == input[..lf];
      FindUnique(a, '\n', lf);
      assert lf > 0 ==> a[..lf - 1] == input[..lf - 1];
    } else {
      assert a[..p.remaining] == input[..p.remaining];
    }
    hide HandleLine, Find, ParserState.Valid;
  }

  lemma {:induction false} NothingIsLate(p: Parser)
    ensures !LateRun(p, "")
  {
    assert !Step(p, "").Moved?;
    assert FindLine("", Cap(p), p.limits.allowBareLf) == NoLine;
  }

  lemma {:induction false} LatePrefix(p: Parser, input: string) returns (i: nat)
    requires Progressive(Step) && LateRun(p, input)
    ensures i <= |input| && Exec(Step, p, input).status == Rejected(BadLineEnding)
    ensures Exec(Step, p, input[..i]).status == Rejected(LimitExceeded)
    decreases |input|
  {
    hide Exec, Step, LateRun, Late, FindLine;
    LateUnfolds(p, input);
    ExecUnfolds(Step, p, input);
    var r := Step(p, input);
    if r.Moved? {
      var rest := input[r.consumed..];
      if rest == "" {
        NothingIsLate(r.next);
      }
      var k := LatePrefix(r.next, rest);
      i := r.consumed + k;
      EnoughToMove(p, input, i);
      ExecUnfolds(Step, p, input[..i]);
      assert input[..i][r.consumed..] == rest[..k];
    } else {
      i := Find(input, '\n');
      LateIsCutShort(p, input);
      ExecUnfolds(Step, p, input[..i]);
    }
  }

  // ── the exact condition ─────────────────────────────────────────────────────

  ghost predicate ReasonsAgree(meth: Method, limits: Limits, input: string, slices: seq<string>)
    requires limits.Fits64()
  {
    Concat(slices) == input ==> Sliced(meth, limits, slices).status == Sliced(meth, limits, [input]).status
  }

  lemma {:induction false} FreshStarves(meth: Method, limits: Limits)
    requires limits.Fits64() && Progressive(Step)
    ensures Exec(Step, Fresh(meth, limits), "") == Progress(Fresh(meth, limits), "", "", Hungry)
  {
    var p := Fresh(meth, limits);
    assert FindLine("", Cap(p), limits.allowBareLf) == NoLine;
    assert Step(p, "").Starved?;
    hide Step;
    ExecUnfolds(Step, p, "");
  }

  lemma {:induction false} OnTimeAgrees(meth: Method, limits: Limits, input: string, slices: seq<string>)
    requires limits.Fits64() && !LateRun(Fresh(meth, limits), input) && Concat(slices) == input
    ensures Sliced(meth, limits, slices).status == Sliced(meth, limits, [input]).status
  {
    StepStable();
    hide Exec, Step, FeedAll, LateRun;
    var p := Fresh(meth, limits);
    assert "" + input == input && Concat([input]) == input;
    ReasonFeedAll(p, "", slices);
    ReasonFeedAll(p, "", [input]);
    SlicingIndependence(meth, limits, input, slices);
    FeedAllIsExec(Step, p, "", Exec(Step, p, ""), slices);
    FeedAllIsExec(Step, p, "", Exec(Step, p, ""), [input]);
  }

  lemma {:induction false} LateDisagrees(meth: Method, limits: Limits, input: string) returns (slices: seq<string>)
    requires limits.Fits64() && LateRun(Fresh(meth, limits), input)
    ensures Concat(slices) == input && Sliced(meth, limits, slices).status == Rejected(LimitExceeded)
    ensures Sliced(meth, limits, [input]).status == Rejected(BadLineEnding)
  {
    StepStable();
    hide Exec, Step, LateRun, Feed;
    var p := Fresh(meth, limits);
    var i := LatePrefix(p, input);
    slices := [input[..i], input[i..]];
    assert slices[1..] == [input[i..]] && slices[1..][1..] == [];
    assert Concat([input[i..]]) == input[i..];
    FreshStarves(meth, limits);
    var o := Exec(Step, p, "");
    assert "" + input[..i] == input[..i] && "" + input == input;
    FeedUnfolds(Step, o, input[..i]);
    FeedUnfolds(Step, o, input);
    assert slices[1..] == [input[i..]];
    RejectedStays(Feed(Step, o, input[..i]), [input[i..]]);
    assert [input][1..] == [];
    assert FeedAll(Step, Feed(Step, o, input), []) == Feed(Step, o, input);
  }

  /** Every way of cutting an input gives the same verdict for the same reason
      exactly if the whole is not refused for the ending of a line over its cap. */
  lemma {:induction false} ReasonExactly(meth: Method, limits: Limits, input: string)
    requires limits.Fits64()
    ensures (forall slices :: ReasonsAgree(meth, limits, input, slices)) <==> !LateRun(Fresh(meth, limits), input)
  {
    hide Sliced, LateRun;
    if LateRun(Fresh(meth, limits), input) {
      var slices := LateDisagrees(meth, limits, input);
      assert !ReasonsAgree(meth, limits, input, slices);
    } else {
      forall slices ensures ReasonsAgree(meth, limits, input, slices) {
        if Concat(slices) == input {
          OnTimeAgrees(meth, limits, input, slices);
        }
      }
    }
  }
}

/** Machines that may give up on an unfinished input they would have accepted.

Such a machine fails early: on a prefix of what it would take whole. Slicing can
then only turn acceptance into rejection, and it does so exactly when the run on
the whole input passes a point where some prefix fails.
*/
module Patience {
  import opened Octets
  import opened Incremental

  /** Never fails, whatever it is given. */
  ghost predicate Calm<S>(step: Machine<S>, s: S)
  {
    forall x :: !step(s, x).Failed?
  }

  /** Apart from failing early, more input changes nothing. */
  ghost predicate SemiStableAt<S>(step: Machine<S>, s: S, a: string, b: string)
  {
    || step(s, a).Failed?
    || (StableAt(step, s, a, b) && (step(s, a).Moved? && step(s, a + b) != step(s, a) ==> Calm(step, step(s, a).next)))
  }

  ghost predicate SemiStable<S(!new)>(step: Machine<S>)
  {
    Progressive(step) && forall s, a, b :: SemiStableAt(step, s, a, b)
  }

  /** A move depends on what it consumes, not on what follows. */
  ghost predicate LocalAt<S>(step: Machine<S>, s: S, t: string, m: nat)
  {
    step(s, t).Moved? && step(s, t).consumed <= m <= |t| ==> step(s, t[..m]) == step(s, t)
  }

  ghost predicate Local<S(!new)>(step: Machine<S>)
  {
    forall s, t, m :: LocalAt(step, s, t, m)
  }

  /** No prefix fails unless the whole does. */
  ghost predicate Patient<S>(step: Machine<S>, s: S, t: string)
  {
    forall i :: 0 <= i <= |t| && step(s, t[..i]).Failed? ==> step(s, t).Failed?
  }

  ghost predicate PatientRun<S(!new)>(step: Machine<S>, s: S, t: string)
    requires Progressive(step)
    decreases |t|
  {
    assert Advances(step, s, t);
    Patient(step, s, t) && (step(s, t).Moved? ==> PatientRun(step, step(s, t).next, t[step(s, t).consumed..]))
  }

  lemma {:induction false} PatientUnfolds<S(!new)>(step: Machine<S>, s: S, t: string)
    requires Progressive(step) && PatientRun(step, s, t)
    ensures Patient(step, s, t)
    ensures step(s, t).Moved? ==> step(s, t).consumed <= |t| && PatientRun(step, step(s, t).next, t[step(s, t).consumed..])
  {
    assert Advances(step, s, t);
  }

  /** Having swallowed `a` as body, the rest of the run is still patient. */
  lemma {:induction false} PatientAfterBody<S(!new)>(step: Machine<S>, s: S, next: S, a: string, b: string)
    requires Progressive(step) && Coalesces(step, s, next, a, b) && Calm(step, next) && PatientRun(step, s, a + b)
    ensures PatientRun(step, next, b)
  {
    PatientUnfolds(step, s, a + b);
    assert Advances(step, next, b);
    var r := step(next, b);
    if r.Moved? {
      assert (a + b)[|a| + r.consumed..] == b[r.consumed..];
    }
  }

  /** Along a patient run, `a` and later `b` is `a + b`. */
  lemma {:induction false} PatientAppend<S(!new)>(step: Machine<S>, s: S, a: string, b: string)
    requires SemiStable(step) && PatientRun(step, s, a + b)
    ensures SameResult(Feed(step, Exec(step, s, a), b), Exec(step, s, a + b))
    ensures var o := Exec(step, s, a); o.status.Hungry? ==> PatientRun(step, o.state, o.rest + b)
    decreases |a|
  {
    hide Exec, Feed, PatientRun;
    assert SemiStableAt(step, s, a, b);
    ExecUnfolds(step, s, a);
    ExecUnfolds(step, s, a + b);
    FeedUnfolds(step, Exec(step, s, a), b);
    PatientUnfolds(step, s, a + b);
    var r := step(s, a);
    if r.Failed? {
      assert (a + b)[..|a|] == a;
    } else if r.Moved? {
      if r == step(s, a + b) {
        var tail := a[r.consumed..];
        assert (a + b)[r.consumed..] == tail + b;
        PatientAppend(step, r.next, tail, b);
        PrependFeed(step, r.body, Exec(step, r.next, tail), b, Exec(step, r.next, tail + b));
      } else {
        CoalescedExec(step, s, r.next, a, b);
        PatientAfterBody(step, s, r.next, a, b);
        ExecUnfolds(step, r.next, "");
        assert a[|a|..] == "" && "" + b == b;
      }
    }
  }

  /** Any number of reads along a patient run is one read. */
  lemma {:induction false} PatientFeedAll<S(!new)>(step: Machine<S>, s: S, a: string, slices: seq<string>)
    requires SemiStable(step) && PatientRun(step, s, a + Concat(slices))
    ensures SameResult(FeedAll(step, Exec(step, s, a), slices), Exec(step, s, a + Concat(slices)))
    decreases |slices|
  {
    hide Exec, Feed, PatientRun;
    var o := Exec(step, s, a);
    PatientAppend(step, s, a, Concat(slices));
    FeedUnfolds(step, o, Concat(slices));
    if slices == [] {
      assert a + Concat(slices) == a;
    } else {
      var first, others := slices[0], slices[1..];
      FeedUnfolds(step, o, first);
      if o.status.Hungry? {
        assert o.rest + Concat(slices) == o.rest + first + Concat(others);
        PatientFeedAll(step, o.state, o.rest + first, others);
        PrependFeedAll(step, o.body, Exec(step, o.state, o.rest + first), others);
      } else {
        SettledFeedAll(step, o, slices);
      }
    }
  }

  lemma {:induction false} PrependFeedAll<S(!new)>(step: Machine<S>, x: string, o: Progress<S>, slices: seq<string>)
    requires Progressive(step)
    ensures FeedAll(step, Prepend(x, o), slices) == Prepend(x, FeedAll(step, o, slices))
    decreases |slices|
  {
    hide Exec, Feed;
    if slices != [] {
      FeedUnfolds(step, o, slices[0]);
      FeedUnfolds(step, Prepend(x, o), slices[0]);
      if o.status.Hungry? {
        var e := Exec(step, o.state, o.rest + slices[0]);
        assert x + o.body + e.body == x + (o.body + e.body);
      }
      assert Feed(step, Prepend(x, o), slices[0]) == Prepend(x, Feed(step, o, slices[0]));
      PrependFeedAll(step, x, Feed(step, o, slices[0]), slices[1..]);
    }
  }

  /** A finished or rejected machine looks at nothing more. */
  lemma {:induction false} SettledFeedAll<S(!new)>(step: Machine<S>, o: Progress<S>, slices: seq<string>)
    requires Progressive(step) && !o.status.Hungry?
    ensures FeedAll(step, o, slices) == if o.status.Ended? then o.(rest := o.rest + Concat(slices)) else o
    decreases |slices|
  {
    hide Exec;
    if slices == [] {
      assert o.rest + "" == o.rest;
    } else {
      SettledFeedAll(step, Feed(step, o, slices[0]), slices[1..]);
      assert o.rest + slices[0] + Concat(slices[1..]) == o.rest + Concat(slices);
    }
  }

  // ── one-sided slicing independence ──────────────────────────────────────────

  lemma {:induction false} AppendOrReject<S(!new)>(step: Machine<S>, s: S, a: string, b: string)
    requires SemiStable(step) && !Feed(step, Exec(step, s, a), b).status.Rejected?
    ensures Feed(step, Exec(step, s, a), b) == Exec(step, s, a + b)
    decreases |a|
  {
    hide Exec, Feed;
    assert SemiStableAt(step, s, a, b);
    ExecUnfolds(step, s, a);
    ExecUnfolds(step, s, a + b);
    FeedUnfolds(step, Exec(step, s, a), b);
    var r := step(s, a);
    if r.Moved? {
      if r == step(s, a + b) {
        var tail := a[r.consumed..];
        assert (a + b)[r.consumed..] == tail + b;
        var o := Exec(step, r.next, tail);
        FeedUnfolds(step, o, b);
        AppendOrReject(step, r.next, tail, b);
        PrependFeed(step, r.body, o, b, Exec(step, r.next, tail + b));
      } else {
        CoalescedExec(step, s, r.next, a, b);
      }
    }
  }

  /** However the input is cut, the outcome is that of the whole, or rejection. */
  lemma {:induction false} FeedAllOrReject<S(!new)>(step: Machine<S>, s: S, a: string, slices: seq<string>)
    requires SemiStable(step) && !FeedAll(step, Exec(step, s, a), slices).status.Rejected?
    ensures FeedAll(step, Exec(step, s, a), slices) == Exec(step, s, a + Concat(slices))
    decreases |slices|
  {
    hide Exec, Feed;
    if slices == [] {
      assert a + Concat(slices) == a;
    } else {
      var o := Feed(step, Exec(step, s, a), slices[0]);
      if o.status.Rejected? {
        SettledFeedAll(step, o, slices[1..]);
      } else {
        AppendOrReject(step, s, a, slices[0]);
        FeedAllOrReject(step, s, a + slices[0], slices[1..]);
        assert a + slices[0] + Concat(slices[1..]) == a + Concat(slices);
      }
    }
  }

  // ── the exact condition ─────────────────────────────────────────────────────

  /** A run that is not patient has a prefix that is rejected. */
  lemma {:induction false} ImpatientPrefix<S(!new)>(step: Machine<S>, s: S, t: string) returns (i: nat)
    requires Progressive(step) && Local(step) && !PatientRun(step, s, t)
    ensures i <= |t| && Exec(step, s, t[..i]).status.Rejected?
    decreases |t|
  {
    hide Exec;
    assert Advances(step, s, t);
    if !Patient(step, s, t) {
      i :| 0 <= i <= |t| && step(s, t[..i]).Failed? && !step(s, t).Failed?;
      ExecUnfolds(step, s, t[..i]);
    } else {
      var r := step(s, t);
      var tail := t[r.consumed..];
      var j := ImpatientPrefix(step, r.next, tail);
      i := r.consumed + j;
      assert LocalAt(step, s, t, i);
      ExecUnfolds(step, s, t[..i]);
      assert t[..i][r.consumed..] == tail[..j];
    }
  }

  ghost predicate SlicesAgree<S(!new)>(step: Machine<S>, s: S, t: string, slices: seq<string>)
    requires Progressive(step)
  {
    Concat(slices) == t ==> SameResult(FeedAll(step, Exec(step, s, ""), slices), Exec(step, s, t))
  }

  /** Every way of cutting the input gives the outcome of the whole exactly when
      the whole is rejected or its run is patient. */
  lemma {:induction false} SlicingExactly<S(!new)>(step: Machine<S>, s: S, t: string)
    requires SemiStable(step) && Local(step)
    ensures (forall slices :: SlicesAgree(step, s, t, slices))
            <==> Exec(step, s, t).status.Rejected? || PatientRun(step, s, t)
  {
    hide Exec, PatientRun;
    if Exec(step, s, t).status.Rejected? || PatientRun(step, s, t) {
      forall slices ensures SlicesAgree(step, s, t, slices) {
        if Concat(slices) == t {
          assert "" + Concat(slices) == t;
          if PatientRun(step, s, t) {
            PatientFeedAll(step, s, "", slices);
          } else if !FeedAll(step, Exec(step, s, ""), slices).status.Rejected? {
            FeedAllOrReject(step, s, "", slices);
          }
        }
      }
    } else {
      var i := ImpatientPrefix(step, s, t);
      var slices := [t[..i], t[i..]];
      CutRejected(step, s, t, i);
      assert Concat(slices) == t by { assert Concat([t[i..]]) == t[i..]; }
      assert !SlicesAgree(step, s, t, slices);
    }
  }

  lemma CutRejected<S(!new)>(step: Machine<S>, s: S, t: string, i: nat)
    requires SemiStable(step) && i <= |t| && Exec(step, s, t[..i]).status.Rejected?
    ensures FeedAll(step, Exec(step, s, ""), [t[..i], t[i..]]).status.Rejected?
  {
    hide Exec, Feed;
    var slices := [t[..i], t[i..]];
    var o := Feed(step, Exec(step, s, ""), t[..i]);
    assert "" + t[..i] == t[..i];
    if !o.status.Rejected? {
      AppendOrReject(step, s, "", t[..i]);
    }
    assert slices[1..] == [t[i..]];
    SettledFeedAll(step, o, [t[i..]]);
  }
}

/** What a run of a task scope did, told from its actions alone.

Children are numbered in the order they are started. Which of them run, which
frames are gone, and when and with what the joiner is resumed follow from what was
started, failed, finished and returned so far.
*/
module ScopeRuns {
  import opened Octets
  import opened TaskScopes

  /** How many children were started. */
  function Spawned(run: seq<Action>, i: nat): (n: nat)
    requires i <= |run|
  {
    if i == 0 then 0 else Spawned(run, i - 1) + if run[i - 1].Spawn? then 1 else 0
  }

  /** The children that failed, in the order they did. */
  function Failed(run: seq<Action>, i: nat): (list: seq<nat>)
    requires i <= |run|
  {
    if i == 0 then []
    else Failed(run, i - 1) + if run[i - 1].Fail? then [run[i - 1].child] else []
  }

  /** The start calls still under way, the innermost last. */
  function Open(run: seq<Action>, i: nat): (list: seq<nat>)
    requires i <= |run|
  {
    if i == 0 then []
    else
      var before := Open(run, i - 1);
      if run[i - 1].Spawn? then before + [Spawned(run, i)]
      else if run[i - 1].StartReturns? && before != [] then before[..|before| - 1]
      else before
  }

  /** A child started and not yet at its end. */
  predicate Runs(run: seq<Action>, i: nat, f: nat)
    requires i <= |run|
  {
    1 <= f <= Spawned(run, i) && Finish(f) !in run[..i]
  }

  /** The call that started `f` returns at step `j`, `f` having reached its end. */
  predicate Returns(run: seq<Action>, j: nat, f: nat)
    requires j < |run|
  {
    && run[j].StartReturns?
    && Finish(f) in run[..j]
    && Open(run, j) != []
    && Open(run, j)[|Open(run, j)| - 1] == f
  }

  /** A frame that can go: its start returned after its end, or the scope went. */
  ghost predicate Gone(run: seq<Action>, i: nat, f: nat)
    requires i <= |run|
  {
    && 1 <= f <= Spawned(run, i)
    && (Destroy in run[..i] || exists j :: 0 <= j < i && Returns(run, j, f))
  }

  ghost predicate ListsTold(s: Scope, run: seq<Action>, i: nat)
    requires i <= |run|
  {
    && s.next == Spawned(run, i)
    && s.failures == Failed(run, i)
    && s.starting == Open(run, i)
  }

  ghost predicate FlagsTold(s: Scope, run: seq<Action>, i: nat)
    requires i <= |run|
  {
    && (s.alive <==> Destroy !in run[..i])
    && (s.joining <==> Join in run[..i])
    && (s.joiner.Suspended? || s.joiner.Resumed? <==> DriveJoin in run[..i])
  }

  ghost predicate FrameTold(s: Scope, run: seq<Action>, i: nat, f: nat)
    requires i <= |run|
  {
    && (Finish(f) in run[..i] ==> 1 <= f <= Spawned(run, i))
    && (f in s.running <==> Runs(run, i, f))
    && (f in s.destroyed <==> Gone(run, i, f))
  }

  /** The scope is where the actions so far put it. */
  ghost predicate Told(s: Scope, run: seq<Action>, i: nat)
    requires i <= |run|
  {
    ListsTold(s, run, i) && FlagsTold(s, run, i) && forall f :: FrameTold(s, run, i, f)
  }

  lemma Taken(run: seq<Action>, i: nat, a: Action)
    requires i < |run|
    ensures a in run[..i + 1] <==> a in run[..i] || a == run[i]
  {
    assert run[..i + 1] == run[..i] + [run[i]];
  }

  lemma StepTellsLists(s: Scope, run: seq<Action>, i: nat)
    requires i < |run| && ListsTold(s, run, i) && Enabled(s, run[i])
    ensures ListsTold(Apply(s, run[i]), run, i + 1)
  {
    hide WithoutLast;
    var t := Apply(s, run[i]);
    match run[i]
    case Spawn => assert t.starting == s.starting + [t.next];
    case Fail(child) => assert t.failures == s.failures + [child];
    case Finish(child) => assert (t.next, t.failures, t.starting) == (s.next, s.failures, s.starting);
    case StartReturns => assert t.starting == s.starting[..|s.starting| - 1];
    case _ =>
  }

  lemma StepTellsFlags(s: Scope, run: seq<Action>, i: nat)
    requires i < |run| && FlagsTold(s, run, i) && Enabled(s, run[i])
    requires (s.joining <==> !s.joiner.Absent?) && (s.waiter <==> s.joiner.Suspended?)
    ensures FlagsTold(Apply(s, run[i]), run, i + 1)
  {
    hide WithoutLast;
    Taken(run, i, Destroy);
    Taken(run, i, Join);
    Taken(run, i, DriveJoin);
  }

  lemma StepTellsRunning(s: Scope, run: seq<Action>, i: nat, f: nat)
    requires i < |run| && s.next == Spawned(run, i) && FrameTold(s, run, i, f) && Enabled(s, run[i])
    requires f in s.running ==> 1 <= f
    ensures f in Apply(s, run[i]).running <==> Runs(run, i + 1, f)
    ensures Finish(f) in run[..i + 1] ==> 1 <= f <= Spawned(run, i + 1)
  {
    hide Gone, WithoutLast, Failed, Open;
    Taken(run, i, Finish(f));
    var t := Apply(s, run[i]);
    match run[i]
    case Spawn => assert t.running == s.running + {s.next + 1};
    case Finish(child) => assert t.running == s.running - {child};
    case _ => assert t.running == s.running;
  }

  /** A frame is gone after a step if it was, or the step is what lets it go. */
  lemma GoneStep(run: seq<Action>, i: nat, f: nat)
    requires i < |run|
    requires Finish(f) in run[..i] ==> 1 <= f <= Spawned(run, i)
    ensures Gone(run, i + 1, f) <==>
      1 <= f <= Spawned(run, i + 1)
      && (Gone(run, i, f) || Destroy in run[..i + 1] || Returns(run, i, f))
  {
    hide Open;
    Taken(run, i, Destroy);
    if j :| 0 <= j < i + 1 && Returns(run, j, f) {
      if j < i {
        assert Finish(f) in run[..i];
      }
    }
  }

  lemma StepTellsGone(s: Scope, run: seq<Action>, i: nat, f: nat)
    requires i < |run| && Told(s, run, i) && Inv(s) && Enabled(s, run[i])
    ensures f in Apply(s, run[i]).destroyed <==> Gone(run, i + 1, f)
  {
    hide WithoutLast, Unrepeated, JoinKept, Failed;
    assert FrameTold(s, run, i, f);
    GoneStep(run, i, f);
    Taken(run, i, Destroy);
    if run[i].Destroy? {
      StepKeeps(s, Destroy);
    } else if run[i].StartReturns? {
      var child := s.starting[|s.starting| - 1];
      assert child in s.starting;
      assert FrameTold(s, run, i, child);
      assert child in s.retired <==> Finish(child) in run[..i];
    }
  }

  lemma StepTells(s: Scope, run: seq<Action>, i: nat)
    requires i < |run| && Told(s, run, i) && Inv(s) && Enabled(s, run[i])
    ensures Told(Apply(s, run[i]), run, i + 1)
  {
    StepTellsLists(s, run, i);
    StepTellsFlags(s, run, i);
    var t, n := Apply(s, run[i]), i + 1;
    forall f ensures FrameTold(t, run, n, f) {
      assert FrameTold(s, run, i, f);
      StepTellsRunning(s, run, i, f);
      StepTellsGone(s, run, i, f);
    }
    hide Apply, Enabled, Runs, Gone, Spawned, Failed, Open, FramesKept;
  }

  lemma {:induction false} RunTells(states: seq<Scope>, run: seq<Action>, i: nat)
    requires IsRun(states, run) && i <= |run|
    ensures Told(states[i], run, i)
  {
    if i > 0 {
      RunTells(states, run, i - 1);
      RunKeeps(states, run, i - 1);
      StepTells(states[i - 1], run, i - 1);
    }
  }

  // ── theorems ────────────────────────────────────────────────────────────────

  /** A child runs exactly from its start to its end, and the scope counts those that
      do. */
  lemma RunningExactly(states: seq<Scope>, run: seq<Action>, i: nat, f: nat)
    requires IsRun(states, run) && i <= |run|
    ensures f in states[i].running <==> Runs(run, i, f)
    ensures states[i].pending == |states[i].running|
  {
    RunTells(states, run, i);
    assert FrameTold(states[i], run, i, f);
    RunKeeps(states, run, i);
  }

  /** A frame is destroyed exactly once its start has returned after its end, or the
      scope is gone: neither before nor later. */
  lemma DestroyedExactly(states: seq<Scope>, run: seq<Action>, i: nat, f: nat)
    requires IsRun(states, run) && i <= |run|
    ensures f in states[i].destroyed <==> Gone(run, i, f)
  {
    RunTells(states, run, i);
    assert FrameTold(states[i], run, i, f);
  }

  /** The joiner goes on exactly when it was driven and every child has ended, and it
      rethrows the first failure of the run. */
  lemma {:induction false} JoinedExactly(states: seq<Scope>, run: seq<Action>, i: nat)
    requires IsRun(states, run) && i <= |run|
    ensures states[i].joiner.Resumed? <==> DriveJoin in run[..i] && forall f :: !Runs(run, i, f)
    ensures states[i].joiner.Resumed? ==>
      states[i].joiner.rethrown == if Failed(run, i) == [] then None else Some(Failed(run, i)[0])
  {
    RunTells(states, run, i);
    RunKeeps(states, run, i);
    var s := states[i];
    forall f ensures f in s.running <==> Runs(run, i, f) {
      assert FrameTold(s, run, i, f);
    }
    assert s.running == {} <==> forall f :: f !in s.running;
    assert s.running == {} <==> |s.running| == 0;
    hide FrameTold, FramesKept, Runs, Gone;
  }
}

/** Structured ownership of child tasks on one thread.

A scope starts children at once, counts them, and keeps the frames of those that
finished until it is safe to destroy them: when the call that started them has
returned, or when the scope goes. A single joiner waits for the last child.
*/
module TaskScopes {
  import opened Octets

  /** The joiner's side: not asked for, created but not driven, suspended, or
      resumed with the failure it rethrows, if any. */
  datatype Joiner = Absent | Created | Suspended | Resumed(rethrown: Option<nat>)

  /** `starting` are the start calls under way, the innermost last; `failures` the
      children that failed, in order. */
  datatype Scope = Scope(
    pending: nat,
    running: set<nat>,
    retired: seq<nat>,
    destroyed: seq<nat>,
    starting: seq<nat>,
    next: nat,
    used: bool,
    joining: bool,
    joined: bool,
    waiter: bool,
    failure: Option<nat>,
    failures: seq<nat>,
    joiner: Joiner,
    alive: bool)

  /** A child that fails goes on running while its failure is noted and stop callbacks
      run, which may finish others; only then does it finish. */
  datatype Action = Spawn | Fail(child: nat) | Finish(child: nat) | StartReturns | Join | DriveJoin | Destroy

  function Start(): (s: Scope)
  {
    Scope(0, {}, [], [], [], 0, false, false, false, false, None, [], Absent, true)
  }

  /** The scope is not destroyed from inside a spawn. */
  predicate Enabled(s: Scope, a: Action)
  {
    && s.alive
    && match a
       case Spawn => !s.joining
       case Fail(child) => child in s.running && child !in s.failures
       case Finish(child) => child in s.running
       case StartReturns => s.starting != []
       case Join => !s.joining
       case DriveJoin => s.joiner.Created?
       case Destroy => s.starting == [] && (s.joined || (!s.used && !s.joining))
  }

  /** The joiner goes on: the scope is joined, and the first failure rethrown. */
  function Resume(s: Scope): (r: Scope)
  {
    s.(waiter := false, joined := true, joiner := Resumed(s.failure))
  }

  /** Only the first failure is kept. */
  function Noted(s: Scope, child: nat): (r: Scope)
  {
    s.(failures := s.failures + [child], failure := if s.failure.None? then Some(child) else s.failure)
  }

  function Retire(s: Scope, child: nat): (r: Scope)
  {
    s.(retired := s.retired + [child], running := s.running - {child}, pending := if s.pending > 0 then s.pending - 1 else 0)
  }

  /** A child reaches its end: its frame is retired, and the last one resumes the
      joiner. */
  function DoFinish(s: Scope, child: nat): (r: Scope)
  {
    var s1 := Retire(s, child);
    if s1.pending == 0 && s1.waiter then Resume(s1) else s1
  }

  /** A sequence without its last `x`. */
  function WithoutLast(list: seq<nat>, x: nat): (r: seq<nat>)
  {
    if list == [] then []
    else
      var n := |list| - 1;
      if list[n] == x then list[..n] else WithoutLast(list[..n], x) + [list[n]]
  }

  /** The start call returns; a child that finished meanwhile can go now. */
  function DoStartReturns(s: Scope): (r: Scope)
    requires s.starting != []
  {
    var n := |s.starting| - 1;
    var child := s.starting[n];
    var s1 := s.(starting := s.starting[..n]);
    if child in s.retired then s1.(retired := WithoutLast(s.retired, child), destroyed := s.destroyed + [child]) else s1
  }

  function Apply(s: Scope, a: Action): (r: Scope)
    requires Enabled(s, a)
  {
    match a
    case Spawn =>
      var child := s.next + 1;
      s.(next := child, used := true, pending := s.pending + 1, running := s.running + {child}, starting := s.starting + [child])
    case Fail(child) => Noted(s, child)
    case Finish(child) => DoFinish(s, child)
    case StartReturns => DoStartReturns(s)
    case Join => s.(joining := true, joiner := Created)
    case DriveJoin => if s.pending == 0 then Resume(s) else s.(waiter := true, joiner := Suspended)
    case Destroy => s.(destroyed := s.destroyed + s.retired, retired := [], alive := false)
  }

  ghost predicate IsRun(states: seq<Scope>, run: seq<Action>)
  {
    && |states| == |run| + 1
    && states[0] == Start()
    && forall i :: 0 <= i < |run| ==> Enabled(states[i], run[i]) && states[i + 1] == Apply(states[i], run[i])
  }

  // ── frames ──────────────────────────────────────────────────────────────────

  ghost predicate Unrepeated(list: seq<nat>)
  {
    forall i, j :: 0 <= i < j < |list| ==> list[i] != list[j]
  }

  /** Every frame is running, retired or destroyed: one of the three, once. */
  ghost predicate FramesKept(running: set<nat>, retired: seq<nat>, destroyed: seq<nat>, next: nat)
  {
    && Unrepeated(retired) && Unrepeated(destroyed)
    && (forall f :: f in retired ==> f !in running && f !in destroyed)
    && (forall f :: f in destroyed ==> f !in running)
    && (forall f: nat :: f in running || f in retired || f in destroyed <==> 1 <= f <= next)
  }

  lemma {:induction false} WithoutLastMeans(list: seq<nat>, x: nat)
    requires Unrepeated(list) && x in list
    ensures var r := WithoutLast(list, x);
      Unrepeated(r) && x !in r && (forall f :: f in list <==> f in r || f == x)
  {
    var n := |list| - 1;
    assert list == list[..n] + [list[n]];
    if list[n] != x {
      assert x in list[..n];
      WithoutLastMeans(list[..n], x);
      var r := WithoutLast(list[..n], x);
      assert list[n] !in list[..n];
      assert WithoutLast(list, x) == r + [list[n]];
    } else {
      assert x !in list[..n];
    }
  }

  lemma RetireKept(running: set<nat>, retired: seq<nat>, destroyed: seq<nat>, next: nat, f: nat)
    requires FramesKept(running, retired, destroyed, next) && f in running
    ensures FramesKept(running - {f}, retired + [f], destroyed, next)
  {
    assert forall g :: g in retired + [f] <==> g in retired || g == f;
  }

  lemma {:induction false} ReclaimKept(running: set<nat>, retired: seq<nat>, destroyed: seq<nat>, next: nat, f: nat)
    requires FramesKept(running, retired, destroyed, next) && f in retired
    ensures FramesKept(running, WithoutLast(retired, f), destroyed + [f], next)
  {
    WithoutLastMeans(retired, f);
    assert forall g :: g in destroyed + [f] <==> g in destroyed || g == f;
    hide WithoutLast;
  }

  lemma SpawnKept(running: set<nat>, retired: seq<nat>, destroyed: seq<nat>, next: nat)
    requires FramesKept(running, retired, destroyed, next)
    ensures next + 1 !in running && FramesKept(running + {next + 1}, retired, destroyed, next + 1)
  {
    assert next + 1 !in retired && next + 1 !in destroyed && next + 1 !in running;
  }

  lemma DestroyKept(running: set<nat>, retired: seq<nat>, destroyed: seq<nat>, next: nat)
    requires FramesKept(running, retired, destroyed, next)
    ensures FramesKept(running, [], destroyed + retired, next)
  {
    var all := destroyed + retired;
    forall i, j | 0 <= i < j < |all| ensures all[i] != all[j] {
      assert i < |destroyed| ==> all[i] in destroyed;
      assert j >= |destroyed| ==> all[j] in retired;
    }
    assert forall g :: g in all <==> g in destroyed || g in retired;
  }

  // ── the invariant ───────────────────────────────────────────────────────────

  /** The counter counts; the joiner waits exactly while it should, and is resumed
      only once nothing is pending. */
  ghost predicate JoinKept(s: Scope)
  {
    && s.pending == |s.running|
    && (s.joining <==> !s.joiner.Absent?)
    && (s.joined <==> s.joiner.Resumed?)
    && (s.waiter <==> s.joiner.Suspended?)
    && (s.joiner.Suspended? ==> s.pending > 0)
    && (s.joiner.Resumed? ==> s.pending == 0 && s.joiner.rethrown == s.failure)
    && (s.failure == if s.failures == [] then None else Some(s.failures[0]))
    && Unrepeated(s.failures)
    && (!s.used ==> s.next == 0)
  }

  ghost predicate Inv(s: Scope)
  {
    && FramesKept(s.running, s.retired, s.destroyed, s.next)
    && JoinKept(s)
    && (forall f :: f in s.starting ==> f in s.running || f in s.retired)
    && (forall f :: f in s.failures ==> 1 <= f <= s.next)
    && Unrepeated(s.starting)
    && (!s.alive ==> s.retired == [] && s.running == {})
  }

  lemma FinishKeeps(s: Scope, child: nat)
    requires Inv(s) && Enabled(s, Finish(child))
    ensures Inv(Apply(s, Finish(child)))
  {
    RetireKept(s.running, s.retired, s.destroyed, s.next, child);
    assert |s.running - {child}| == |s.running| - 1;
    assert forall g :: g in s.retired + [child] <==> g in s.retired || g == child;
    hide FramesKept, Unrepeated;
  }

  lemma StartReturnsKeeps(s: Scope)
    requires Inv(s) && Enabled(s, StartReturns)
    ensures Inv(Apply(s, StartReturns))
  {
    var n := |s.starting| - 1;
    var child := s.starting[n];
    assert s.starting == s.starting[..n] + [child];
    assert child !in s.starting[..n];
    if child in s.retired {
      ReclaimKept(s.running, s.retired, s.destroyed, s.next, child);
      WithoutLastMeans(s.retired, child);
    }
    hide FramesKept, WithoutLast;
  }

  lemma SpawnKeeps(s: Scope)
    requires Inv(s) && Enabled(s, Spawn)
    ensures Inv(Apply(s, Spawn))
  {
    SpawnKept(s.running, s.retired, s.destroyed, s.next);
    assert s.next + 1 !in s.starting by {
      assert s.next + 1 !in s.retired;
    }
    assert |s.running + {s.next + 1}| == |s.running| + 1;
    hide FramesKept;
  }

  lemma DestroyKeeps(s: Scope)
    requires Inv(s) && Enabled(s, Destroy)
    ensures Inv(Apply(s, Destroy))
  {
    DestroyKept(s.running, s.retired, s.destroyed, s.next);
    if s.joined {
      assert |s.running| == 0;
    } else {
      assert forall f :: f in s.running ==> 1 <= f <= 0;
    }
    assert s.running == {};
    hide FramesKept;
  }

  lemma StepKeeps(s: Scope, a: Action)
    requires Inv(s) && Enabled(s, a)
    ensures Inv(Apply(s, a))
  {
    match a
    case Spawn => SpawnKeeps(s);
    case Finish(child) => FinishKeeps(s, child);
    case StartReturns => StartReturnsKeeps(s);
    case Destroy => DestroyKeeps(s);
    case _ => hide FramesKept, Unrepeated;
  }

  lemma {:induction false} RunKeeps(states: seq<Scope>, run: seq<Action>, i: nat)
    requires IsRun(states, run) && i <= |run|
    ensures Inv(states[i])
  {
    hide Inv, Apply, Enabled;
    if i == 0 {
      StartInv();
    } else {
      RunKeeps(states, run, i - 1);
      StepKeeps(states[i - 1], run[i - 1]);
    }
  }

  lemma StartInv()
    ensures Inv(Start())
  {
  }

  // ── theorems ────────────────────────────────────────────────────────────────

  /** In every run the count is started minus finished children, each frame is in
      exactly one place, and no frame is destroyed twice. */
  lemma FramesOwnedOnce(states: seq<Scope>, run: seq<Action>, i: nat)
    requires IsRun(states, run) && i <= |run|
    ensures var s := states[i];
      && s.pending == |s.running|
      && FramesKept(s.running, s.retired, s.destroyed, s.next)
  {
    RunKeeps(states, run, i);
  }

  /** When the scope is gone every frame was destroyed, once. */
  lemma AllDestroyedInTheEnd(states: seq<Scope>, run: seq<Action>, i: nat)
    requires IsRun(states, run) && i <= |run| && !states[i].alive
    ensures var s := states[i];
      Unrepeated(s.destroyed) && forall f: nat :: f in s.destroyed <==> 1 <= f <= s.next
  {
    RunKeeps(states, run, i);
  }

  /** The joiner is resumed at most once, with nothing pending, and rethrows the
      first failure there was, whatever a failing child's stop request finishes. */
  lemma JoinerResumedOnce(states: seq<Scope>, run: seq<Action>, i: nat)
    requires IsRun(states, run) && i < |run|
    ensures var s, t := states[i], states[i + 1];
      && (s.joiner.Resumed? ==> t.joiner == s.joiner && t.failures == s.failures)
      && (t.joiner.Resumed? ==>
            && t.pending == 0 && t.running == {} && t.joined
            && t.joiner.rethrown == if t.failures == [] then None else Some(t.failures[0]))
  {
    RunKeeps(states, run, i);
    RunKeeps(states, run, i + 1);
    var s, t := states[i], states[i + 1];
    assert t.joiner.Resumed? ==> |t.running| == 0;
    assert s.joiner.Resumed? ==> |s.running| == 0;
    hide FramesKept, Unrepeated, WithoutLast;
  }

  /** Nobody is left waiting: with nothing pending the joiner is not suspended. */
  lemma JoinerNotForgotten(states: seq<Scope>, run: seq<Action>, i: nat)
    requires IsRun(states, run) && i <= |run| && states[i].running == {}
    ensures !states[i].joiner.Suspended?
  {
    RunKeeps(states, run, i);
  }

  /** While a child runs the count is positive, so it never wraps. */
  lemma PendingCounts(states: seq<Scope>, run: seq<Action>, i: nat)
    requires IsRun(states, run) && i <= |run| && states[i].running != {}
    ensures states[i].pending > 0
  {
    RunKeeps(states, run, i);
  }

  /** Search from the back, as the frame most often is there. */
  method FindLast(list: seq<nat>, x: nat) returns (found: bool, i: nat)
    ensures found == (x in list)
    ensures found ==> i < |list| && WithoutLast(list, x) == list[..i] + list[i + 1..]
  {
    i := |list|;
    assert list[..i] == list && list[i..] == [];
    while i > 0
      invariant 0 <= i <= |list| && x !in list[i..]
      invariant WithoutLast(list, x) == WithoutLast(list[..i], x) + list[i..]
    {
      i := i - 1;
      assert list[..i + 1][..i] == list[..i];
      assert list[i..] == [list[i]] + list[i + 1..];
      if list[i] == x {
        return true, i;
      }
    }
    assert list[0..] == list;
    found := false;
  }

  // ── the scope as it runs ────────────────────────────────────────────────────

  class TaskScope {
    var pending: nat
    var retired: seq<nat>
    var used: bool
    var joining: bool
    var joined: bool
    var waiter: bool
    var failure: Option<nat>
    ghost var running: set<nat>
    ghost var destroyed: seq<nat>
    ghost var starting: seq<nat>
    ghost var next: nat
    ghost var failures: seq<nat>
    ghost var joiner: Joiner
    ghost var alive: bool

    ghost function State(): (s: Scope)
      reads this
    {
      Scope(pending, running, retired, destroyed, starting, next, used, joining, joined, waiter,
            failure, failures, joiner, alive)
    }

    constructor ()
      ensures State() == Start()
    {
      pending, retired, used, joining, joined, waiter, failure := 0, [], false, false, false, false, None;
      running, destroyed, starting, next, failures, joiner, alive := {}, [], [], 0, [], Absent, true;
    }

    /** Admit a child and start it; `false` once the scope is closed. */
    method Spawn() returns (ok: bool)
      requires alive
      modifies this
      ensures ok == !old(joining)
      ensures State() == if ok then Apply(old(State()), Action.Spawn) else old(State())
    {
      if joining {
        return false;
      }
      used := true;
      pending := pending + 1;
      next := next + 1;
      running := running + {next};
      starting := starting + [next];
      ok := true;
    }

    /** A child throws: keep the first failure, and say whether to request a stop. */
    method NoteFailure(child: nat) returns (stop: bool)
      requires Enabled(State(), Fail(child))
      modifies this`failures, this`failure
      ensures State() == Apply(old(State()), Fail(child)) && stop == old(failure).None?
    {
      failures := failures + [child];
      stop := failure.None?;
      if stop {
        failure := Some(child);
      }
    }

    method RetireFrame(child: nat)
      requires pending > 0
      modifies this`retired, this`running, this`pending
      ensures State() == Retire(old(State()), child)
    {
      retired := retired + [child];
      running := running - {child};
      pending := pending - 1;
    }

    method ResumeJoiner()
      modifies this`waiter, this`joined, this`joiner
      ensures State() == Resume(old(State()))
    {
      waiter, joined, joiner := false, true, Resumed(failure);
    }

    /** A child's last step: retire the frame, count down, and say whether the
        joiner is resumed. */
    method ChildFinished(child: nat) returns (resume: bool)
      requires pending > 0 && Enabled(State(), Finish(child))
      modifies this
      ensures State() == Apply(old(State()), Finish(child))
      ensures resume == (old(waiter) && old(pending) == 1)
    {
      RetireFrame(child);
      hide Retire, Resume;
      resume := pending == 0 && waiter;
      if resume {
        ResumeJoiner();
      }
    }

    /** Back from starting `child`: destroy its frame if it has finished. */
    method Reclaim(child: nat)
      requires starting != [] && starting[|starting| - 1] == child
      modifies this`retired, this`starting, this`destroyed
      ensures State() == DoStartReturns(old(State()))
    {
      starting := starting[..|starting| - 1];
      var found, i := FindLast(retired, child);
      if found {
        retired := retired[..i] + retired[i + 1..];
        destroyed := destroyed + [child];
      }
    }

    /** Close admission and create the joiner; `false` if that was done before. */
    method Join() returns (ok: bool)
      requires alive
      modifies this`joining, this`joiner
      ensures ok == !old(joining)
      ensures State() == if ok then Apply(old(State()), Action.Join) else old(State())
    {
      ok := !joining;
      if ok {
        joining, joiner := true, Created;
      }
    }

    /** The joiner is driven: go on at once, or wait for the last child. */
    method AwaitChildren() returns (ready: bool)
      requires alive && joiner.Created?
      modifies this
      ensures State() == Apply(old(State()), DriveJoin) && ready == (old(pending) == 0)
    {
      ready := pending == 0;
      if ready {
        waiter, joined, joiner := false, true, Resumed(failure);
      } else {
        waiter, joiner := true, Suspended;
      }
    }

    /** The destructor's sweep over what is left. */
    method DestroyRetired()
      requires Enabled(State(), Destroy)
      modifies this
      ensures State() == Apply(old(State()), Destroy)
    {
      var i := 0;
      while i < |retired|
        invariant 0 <= i <= |retired| && retired == old(retired) && destroyed == old(destroyed) + retired[..i]
        invariant State() == old(State()).(destroyed := destroyed)
      {
        destroyed := destroyed + [retired[i]];
        i := i + 1;
      }
      assert retired[..|retired|] == retired;
      retired, alive := [], false;
    }
  }
}

/** What holds of the readiness loop in every run. */
module PosixSafety {
  import opened Accounts
  import opened Octets
  import opened Timers
  import opened PosixLoop
  import opened PosixLedger
  import opened PosixRuns

  // ── history only grows ──────────────────────────────────────────────────────

  /** `t` comes after `s`: deliveries and discards stand, and an id that has left
      the table does not come back. */
  ghost predicate Onward(s: Loop, t: Loop)
  {
    && s.backend == t.backend
    && s.resumed <= t.resumed
    && s.discarded <= t.discarded
    && s.nextId <= t.nextId
    && (forall id :: id in t.ops ==> id in s.ops || id > s.nextId)
    && (s.shuttingDown ==> t.shuttingDown)
  }

  lemma AddWaiterOnward(s: Loop, fd: int, writable: bool, deadline: Option<int>, arming: Arming, release: Arming)
    ensures Onward(s, AddWaiter(s, fd, writable, deadline, arming, release))
  {
    hide TryArm, TimersFor, InterestIn;
    if fd >= 0 && !s.shuttingDown && (fd, writable) !in s.slots {
      var s1 := Register(s, fd, writable, deadline);
      var s2 := s1.(kernel := TryArm(s1.backend, s1.kernel, fd, InterestIn(s1.slots, fd), arming));
      if !arming.Armed? {
        RemoveIsUnlink(s2, s2.nextId, release);
        hide Remove;
      }
    }
  }

  lemma ClaimOnward(b: Batch, side: Side)
    ensures Onward(b.loop, Claim(b, side).loop)
  {
  }

  lemma {:induction false} ClaimAllOnward(b: Batch, events: seq<Event>)
    ensures Onward(b.loop, ClaimAll(b, events).loop)
  {
    if events != [] {
      var e := events[|events| - 1];
      var b0 := ClaimAll(b, events[..|events| - 1]);
      ClaimAllOnward(b, events[..|events| - 1]);
      ClaimOnward(b0, (e.fd, false));
      var b1 := if e.Takes((e.fd, false)) then Claim(b0, (e.fd, false)) else b0;
      ClaimOnward(b1, (e.fd, true));
      hide Claim;
    }
  }

  lemma StepOnward(y: System, a: Action)
    requires Enabled(y, a)
    ensures Onward(y.loop, Apply(y, a).loop)
  {
    match a
    case SubmitWaiter(fd, writable, deadline, arming, release) =>
      AddWaiterOnward(y.loop, fd, writable, deadline, arming, release);
      hide AddWaiter;
    case RunOnce(events, now, keys) =>
      var fired := y.loop.(kernel := FireAll(y.loop.backend, y.loop.kernel, events));
      ClaimAllOnward(Batch(fired, [], []), events);
      hide ClaimAll, FireAll;
    case Deliver(release) =>
      var (id, _) := y.stack[|y.stack| - 1].owed[0];
      if id in y.loop.ops {
        RemoveIsUnlink(y.loop, id, release);
        hide Remove;
      }
    case _ =>
  }

  lemma OnwardStays(s: Loop)
    ensures Onward(s, s)
  {
  }

  lemma OnwardTwice(s: Loop, t: Loop, u: Loop)
    requires Onward(s, t) && Onward(t, u)
    ensures Onward(s, u)
  {
  }

  lemma {:induction false} RunOnward(states: seq<System>, run: seq<Action>, i: nat, j: nat)
    requires IsRun(states, run) && i <= j <= |run|
    ensures Onward(states[i].loop, states[j].loop)
    decreases j
  {
    hide Onward, Apply, Enabled;
    if i < j {
      RunOnward(states, run, i, j - 1);
      StepOnward(states[j - 1], run[j - 1]);
      OnwardTwice(states[i].loop, states[j - 1].loop, states[j].loop);
    } else {
      OnwardStays(states[i].loop);
    }
  }

  // ── exactly once ────────────────────────────────────────────────────────────

  ghost predicate FromStart(states: seq<System>, run: seq<Action>, backend: Backend)
  {
    IsRun(states, run) && states[0] == Start(backend)
  }

  lemma ReachedInv(states: seq<System>, run: seq<Action>, backend: Backend, j: nat)
    requires FromStart(states, run, backend) && j <= |run|
    ensures Inv(states[j])
  {
    StartInv(backend);
    RunKeeps(states[..j + 1], run[..j]);
  }

  /** At every point of every run each id handed out is in exactly one place: in
      the table, resumed once, or discarded. What was resumed or discarded by an
      earlier point stays so and is never live again. */
  lemma ExactlyOnce(states: seq<System>, run: seq<Action>, backend: Backend, i: nat, j: nat)
    requires FromStart(states, run, backend) && i <= j <= |run|
    ensures var s, t := states[i].loop, states[j].loop;
      && NoneTwice(t.resumed)
      && (forall id: nat :: id in t.ops || id in t.discarded || WasResumed(t.resumed, id) <==> 1 <= id <= t.nextId)
      && (forall id: nat :: !(id in t.ops && id in t.discarded))
      && (forall id: nat :: WasResumed(t.resumed, id) ==> id !in t.ops && id !in t.discarded)
      && s.resumed <= t.resumed && s.discarded <= t.discarded
      && (forall id: nat :: id <= s.nextId && id !in s.ops ==> id !in t.ops)
  {
    ReachedInv(states, run, backend, j);
    RunOnward(states, run, i, j);
    var t := states[j].loop;
    assert t.ops.Keys !! t.discarded;
    hide SlotsAgree, TimersAgree, Owed;
  }

  /** At every point of every run a queued timer names a live record that holds
      its handle, and a record is armed exactly when its slot names it. */
  lemma IndicesAgree(states: seq<System>, run: seq<Action>, backend: Backend, j: nat)
    requires FromStart(states, run, backend) && j <= |run|
    ensures var t := states[j].loop;
      && (forall k :: k in t.timers ==> t.timers[k].operation in t.ops && Owns(t.ops[t.timers[k].operation], k))
      && (forall side :: side in t.slots ==> t.slots[side] in t.ops)
      && (forall id :: id in t.ops ==>
            (t.ops[id].armed <==>
             && t.ops[id].kind.Readiness?
             && (t.ops[id].fd, t.ops[id].writable) in t.slots
             && t.slots[(t.ops[id].fd, t.ops[id].writable)] == id))
  {
    ReachedInv(states, run, backend, j);
    hide Accounted, Owed, HandlesUnshared;
  }

  /** Once shutdown has run its course nothing is left in the table: every
      operation ever submitted was resumed exactly once or discarded. */
  lemma ShutdownLeavesNobody(states: seq<System>, run: seq<Action>, backend: Backend)
    requires FromStart(states, run, backend)
    requires states[|run|].Quiet() && states[|run|].loop.shuttingDown
    ensures var t := states[|run|].loop;
      && t.ops == map[]
      && NoneTwice(t.resumed)
      && (forall id: nat :: 1 <= id <= t.nextId ==> (WasResumed(t.resumed, id) <==> id !in t.discarded))
  {
    ReachedInv(states, run, backend, |run|);
    var t := states[|run|].loop;
    assert Pending(states[|run|].stack) == {} by {
      assert [User][..0] == [];
      assert Pending([]) == {};
    }
    assert t.ops.Keys <= {};
    hide SlotsAgree, TimersAgree, Owed, CancelsKnown;
  }

  /** Between batches nobody is forgotten: a waiter still has its slot, a sleep
      its wake-up, and whoever set a deadline its deadline. */
  lemma NobodyForgotten(states: seq<System>, run: seq<Action>, backend: Backend, id: nat)
    requires FromStart(states, run, backend) && states[|run|].Quiet()
    requires id in states[|run|].loop.ops
    ensures var t := states[|run|].loop; var op := t.ops[id];
      && (op.kind.Readiness? ==>
            && (op.fd, op.writable) in t.slots
            && t.slots[(op.fd, op.writable)] == id)
      && (op.kind.Sleep? ==>
            && op.wake.Some?
            && op.wake.value in t.timers
            && t.timers[op.wake.value] == Target(id, false))
      && (op.deadline.Some? ==>
            && op.deadline.value in t.timers
            && t.timers[op.deadline.value] == Target(id, true))
  {
    ReachedInv(states, run, backend, |run|);
    var t := states[|run|].loop;
    var op := t.ops[id];
    assert Pending(states[|run|].stack) == {} by {
      assert [User][..0] == [];
      assert Pending([]) == {};
    }
    assert !Spent(op, t.timers);
    assert WakesFirst(op);
    if op.wake.Some? {
      TimerNames(t.ops, t.timers, t.serial, id, op.wake.value);
    }
    if op.deadline.Some? {
      TimerNames(t.ops, t.timers, t.serial, id, op.deadline.value);
    }
    hide Accounted, TimersAgree, Owed, CancelsKnown;
  }
}

/** What callers asked for is what they get.

The tables say what holds of a record. Here a record is followed back to the call
that made it: the deadline it was given, the cancellations asked of it, the
descriptor taken away from it.
*/
module PosixRequests {
  import opened Accounts
  import opened Octets
  import opened Timers
  import opened PosixLoop
  import opened PosixLedger
  import opened PosixRuns
  import opened PosixSafety
  import opened PosixArming
  import opened PosixBatch

  // ── a record stays as it was made ───────────────────────────────────────────

  /** The record of a wait as it was asked for. */
  predicate WaitsFor(op: Operation, fd: int, writable: bool, deadline: Option<int>)
  {
    op.kind.Readiness? && op.fd == fd && op.writable == writable && op.wake.None? && SetFor(op.deadline, deadline)
  }

  /** The record of a sleep as it was asked for. */
  predicate SleepsUntil(op: Operation, wakeAt: int, deadline: Option<int>)
  {
    op.kind.Sleep? && SetFor(op.wake, Some(wakeAt)) && SetFor(op.deadline, deadline)
  }

  predicate SameRecord(op: Operation, after: Operation)
  {
    after == op.(armed := after.armed)
  }

  lemma AddWaiterRecords(
      s: Loop, fd: int, writable: bool, deadline: Option<int>, arming: Arming, release: Arming, id: nat)
    requires id <= s.nextId && id in AddWaiter(s, fd, writable, deadline, arming, release).ops
    ensures id in s.ops && AddWaiter(s, fd, writable, deadline, arming, release).ops[id] == s.ops[id]
  {
    hide TryArm, TimersFor, InterestIn;
    if Accepts(s, fd, writable) && !arming.Armed? {
      var s1 := Register(s, fd, writable, deadline);
      var s2 := s1.(kernel := TryArm(s1.backend, s1.kernel, fd, InterestIn(s1.slots, fd), arming));
      RemoveIsUnlink(s2, s2.nextId, release);
      hide Remove;
    }
  }

  lemma CollectRecords(s: Loop, events: seq<Event>, now: int, keys: seq<Key>, id: nat)
    requires Tables(s, {}) && DueInOrder(s.timers, now, keys) && id in Collect(s, events, now, keys).loop.ops
    ensures id in s.ops && SameRecord(s.ops[id], Collect(s, events, now, keys).loop.ops[id])
  {
    hide ClaimAll, FireAll, Expired, AllCancelled, NotDue, Accounted, TimersAgree, Owed, CancelsKnown;
    var fired := s.(kernel := FireAll(s.backend, s.kernel, events));
    assert Claimed(fired, Batch(fired, [], []));
    ClaimAllKeeps(fired, Batch(fired, [], []), events);
  }

  lemma FinalizeRecords(s: Loop, i: nat, outcome: Outcome, release: Arming, id: nat)
    requires id in Finalize(s, i, outcome, release).ops
    ensures id in s.ops && Finalize(s, i, outcome, release).ops[id] == s.ops[id]
  {
    if i in s.ops {
      RemoveIsUnlink(s, i, release);
      hide Remove;
    }
  }

  lemma ClearRecords(s: Loop, fd: int, id: nat)
    requires id in ClearSlots(s, fd).ops
    ensures id in s.ops && SameRecord(s.ops[id], ClearSlots(s, fd).ops[id])
  {
  }

  /** Nothing about an old record changes but its arming. */
  lemma StepRecords(y: System, a: Action, id: nat)
    requires Inv(y) && Enabled(y, a) && id <= y.loop.nextId && id in Apply(y, a).loop.ops
    ensures id in y.loop.ops && SameRecord(y.loop.ops[id], Apply(y, a).loop.ops[id])
  {
    hide Tables, Pending;
    match a
    case SubmitWaiter(fd, writable, deadline, arming, release) =>
      AddWaiterRecords(y.loop, fd, writable, deadline, arming, release, id);
      hide AddWaiter;
    case RunOnce(events, now, keys) =>
      QuietTables(y);
      CollectRecords(y.loop, events, now, keys, id);
      hide Collect;
    case Deliver(release) =>
      var (i, outcome) := y.stack[|y.stack| - 1].owed[0];
      if i in y.loop.ops { FinalizeRecords(y.loop, i, outcome, release, id); }
      hide Finalize;
    case Detach(fd) =>
      var s := y.loop.(kernel := Disarm(y.loop.kernel, fd));
      if Watched(s.slots, fd) { ClearRecords(s, fd, id); }
      hide ClearSlots, BrokenWaiters;
    case Rearm(arming) =>
      var (fd, interest) := y.stack[|y.stack| - 1].todo[0];
      var s := y.loop.(kernel := TryArm(y.loop.backend, y.loop.kernel, fd, interest, arming));
      if !arming.Armed? && Watched(s.slots, fd) { ClearRecords(s, fd, id); }
      hide ClearSlots, BrokenWaiters, TryArm;
    case _ =>
  }

  lemma {:induction false} RunRecords(states: seq<System>, run: seq<Action>, backend: Backend, i: nat, j: nat, id: nat)
    requires FromStart(states, run, backend) && i <= j <= |run| && id <= states[i].loop.nextId
    requires id in states[j].loop.ops
    ensures id in states[i].loop.ops && SameRecord(states[i].loop.ops[id], states[j].loop.ops[id])
    decreases j
  {
    hide Inv, Apply, Enabled, Onward;
    if i < j {
      ReachedInv(states, run, backend, j - 1);
      NextIdGrows(states, run, i, j - 1);
      StepRecords(states[j - 1], run[j - 1], id);
      RunRecords(states, run, backend, i, j - 1, id);
    }
  }

  lemma NextIdGrows(states: seq<System>, run: seq<Action>, i: nat, j: nat)
    requires IsRun(states, run) && i <= j <= |run|
    ensures states[i].loop.nextId <= states[j].loop.nextId
  {
    RunOnward(states, run, i, j);
  }

  // ── submissions ─────────────────────────────────────────────────────────────

  /** Step `m` is a wait that was taken in, and `id` the number it got. */
  ghost predicate WaitTaken(states: seq<System>, run: seq<Action>, m: nat, id: nat)
    requires IsRun(states, run)
  {
    && m < |run| && run[m].SubmitWaiter? && run[m].arming.Armed?
    && Accepts(states[m].loop, run[m].fd, run[m].writable) && id == states[m].loop.nextId + 1
  }

  ghost predicate SleepTaken(states: seq<System>, run: seq<Action>, m: nat, id: nat)
    requires IsRun(states, run)
  {
    m < |run| && run[m].SubmitTimer? && !states[m].loop.shuttingDown && id == states[m].loop.nextId + 1
  }

  lemma WaitRecorded(s: Loop, fd: int, writable: bool, deadline: Option<int>, release: Arming)
    requires Accepts(s, fd, writable)
    ensures var t := AddWaiter(s, fd, writable, deadline, Armed, release);
      && t.nextId == s.nextId + 1 && t.nextId in t.ops && t.ops[t.nextId].armed
      && WaitsFor(t.ops[t.nextId], fd, writable, deadline)
  {
    hide Arm, TimersFor, InterestIn;
  }

  /** A wait, while it lasts, is for the descriptor, direction and deadline that
      were asked for. */
  lemma {:induction false} WaiterKept(states: seq<System>, run: seq<Action>, backend: Backend, m: nat, j: nat, id: nat)
    requires FromStart(states, run, backend) && m < j <= |run| && WaitTaken(states, run, m, id)
    ensures id in states[m + 1].loop.ops && states[m + 1].loop.nextId == id
    ensures id in states[j].loop.ops ==>
              WaitsFor(states[j].loop.ops[id], run[m].fd, run[m].writable, run[m].deadline)
  {
    hide Inv, Onward, AddWaiter;
    WaitRecorded(states[m].loop, run[m].fd, run[m].writable, run[m].deadline, run[m].release);
    if id in states[j].loop.ops {
      RunRecords(states, run, backend, m + 1, j, id);
    }
  }

  /** A sleep, while it lasts, is until the time asked for. */
  lemma {:induction false} SleeperKept(states: seq<System>, run: seq<Action>, backend: Backend, m: nat, j: nat, id: nat)
    requires FromStart(states, run, backend) && m < j <= |run| && SleepTaken(states, run, m, id)
    ensures id in states[m + 1].loop.ops && states[m + 1].loop.nextId == id
    ensures id in states[j].loop.ops ==> SleepsUntil(states[j].loop.ops[id], run[m].wakeAt, run[m].deadline)
  {
    hide Inv, Onward, TimersFor;
    if id in states[j].loop.ops {
      RunRecords(states, run, backend, m + 1, j, id);
    }
  }

  /** A wait that is not taken in leaves no number behind, or one that is thrown
      away and never resumed. */
  lemma {:induction false} RefusedWaiter(states: seq<System>, run: seq<Action>, backend: Backend, m: nat, j: nat)
    requires FromStart(states, run, backend) && m < j <= |run| && run[m].SubmitWaiter?
    ensures var s, t := states[m].loop, states[m + 1].loop;
      if !Accepts(s, run[m].fd, run[m].writable) then t == s
      else t.nextId == s.nextId + 1 && (!run[m].arming.Armed? ==> t.nextId in t.discarded)
    ensures var id := states[m].loop.nextId + 1;
      Accepts(states[m].loop, run[m].fd, run[m].writable) && !run[m].arming.Armed? ==>
        id !in states[j].loop.ops && !WasResumed(states[j].loop.resumed, id)
  {
    hide Inv, TryArm, TimersFor;
    var s := states[m].loop;
    if Accepts(s, run[m].fd, run[m].writable) && !run[m].arming.Armed? {
      ThrownAway(s, run[m].fd, run[m].writable, run[m].deadline, run[m].arming, run[m].release);
      hide AddWaiter;
      ExactlyOnce(states, run, backend, m + 1, j);
    }
  }

  lemma ThrownAway(s: Loop, fd: int, writable: bool, deadline: Option<int>, arming: Arming, release: Arming)
    requires Accepts(s, fd, writable) && !arming.Armed?
    ensures var t := AddWaiter(s, fd, writable, deadline, arming, release);
      t.nextId == s.nextId + 1 && t.nextId in t.discarded
  {
    hide TryArm, TimersFor, InterestIn;
    var s1 := Register(s, fd, writable, deadline);
    var s2 := s1.(kernel := TryArm(s1.backend, s1.kernel, fd, InterestIn(s1.slots, fd), arming));
    RemoveIsUnlink(s2, s2.nextId, release);
    hide Remove;
  }

  // ── cancellations ───────────────────────────────────────────────────────────

  /** Somebody asked for the cancellation of `id` between the two points. */
  ghost predicate CancelAsked(run: seq<Action>, i: nat, j: nat, id: nat)
    requires j <= |run|
  {
    exists k :: i <= k < j && run[k] == AskCancel(id)
  }

  /** Whoever was asked to stop is on the list of requests, or about to be
      delivered. */
  ghost predicate Stopping(y: System, id: nat)
  {
    id in y.loop.ops ==> id in y.loop.cancels || id in Pending(y.stack)
  }

  lemma AddWaiterCancels(s: Loop, fd: int, writable: bool, deadline: Option<int>, arming: Arming, release: Arming)
    ensures AddWaiter(s, fd, writable, deadline, arming, release).cancels == s.cancels
  {
    hide TryArm, TimersFor, InterestIn;
    if Accepts(s, fd, writable) && !arming.Armed? {
      var s1 := Register(s, fd, writable, deadline);
      var s2 := s1.(kernel := TryArm(s1.backend, s1.kernel, fd, InterestIn(s1.slots, fd), arming));
      RemoveIsUnlink(s2, s2.nextId, release);
      hide Remove;
    }
  }

  /** Only being asked adds to the requests. */
  lemma StepCancels(y: System, a: Action, id: nat)
    requires Enabled(y, a) && id in Apply(y, a).loop.cancels
    ensures id in y.loop.cancels || a == AskCancel(id)
  {
    match a
    case SubmitWaiter(fd, writable, deadline, arming, release) =>
      AddWaiterCancels(y.loop, fd, writable, deadline, arming, release);
      hide AddWaiter;
    case RunOnce(events, now, keys) =>
      hide ClaimAll, FireAll, Expired, AllCancelled, NotDue;
    case Deliver(release) =>
      var (i, _) := y.stack[|y.stack| - 1].owed[0];
      if i in y.loop.ops {
        RemoveIsUnlink(y.loop, i, release);
        hide Remove;
      }
    case _ =>
  }

  lemma FailWaitersStops(y: System, fd: int, outcome: Outcome, id: nat)
    requires Stopping(y, id)
    ensures Stopping(FailWaiters(y, fd, outcome), id)
  {
    if Watched(y.loop.slots, fd) {
      PendingPush(y.stack, Delivering(BrokenWaiters(y.loop, fd, outcome), false));
    }
    hide Pending;
  }

  lemma CollectStops(s: Loop, events: seq<Event>, now: int, keys: seq<Key>, id: nat)
    requires (forall k :: k in keys ==> k in s.timers) && id in s.cancels
    ensures id in Ids(Collect(s, events, now, keys).resolved)
  {
    hide ClaimAll, Expired, NotDue, FireAll;
    var n :| 0 <= n < |s.cancels| && s.cancels[n] == id;
    var list := Collect(s, events, now, keys).resolved;
    var p := AllCancelled(s.cancels)[n];
    assert p in list && p.0 == id;
  }

  lemma DeliverStops(y: System, release: Arming, id: nat)
    requires Stopping(y, id) && Enabled(y, Deliver(release))
    ensures Stopping(Apply(y, Deliver(release)), id)
  {
    hide Pending;
    var top := y.stack[|y.stack| - 1];
    var (i, _) := top.owed[0];
    assert y.stack == y.Under() + [Delivering(top.owed, top.posted)];
    PendingLess(y.Under(), top.owed, top.posted);
    if i in y.loop.ops {
      RemoveIsUnlink(y.loop, i, release);
      hide Remove;
    }
  }

  lemma StackStops(y: System, a: Action, id: nat)
    requires Stopping(y, id) && Enabled(y, a) && (a.Rearmed? || a.RunPosted? || a.Delivered? || a.Return?)
    ensures Stopping(Apply(y, a), id)
  {
    hide Pending;
    PendingTop(y);
    assert Ids([]) == {};
    match a
    case Rearmed => PendingPush(y.Under(), Delivering(y.stack[|y.stack| - 1].resolved, true));
    case RunPosted => PendingPush(y.stack, User);
    case _ =>
  }

  lemma RearmStops(y: System, arming: Arming, id: nat)
    requires Stopping(y, id) && Enabled(y, Rearm(arming))
    ensures Stopping(Apply(y, Rearm(arming)), id)
  {
    hide Pending, TryArm;
    var top := y.stack[|y.stack| - 1];
    var (fd, interest) := top.todo[0];
    var kernel := TryArm(y.loop.backend, y.loop.kernel, fd, interest, arming);
    var less := top.(todo := top.todo[1..]);
    var rest := System(y.loop.(kernel := kernel), y.Under() + [less]);
    PendingTop(y);
    PendingPush(y.Under(), less);
    assert Stopping(rest, id);
    if !arming.Armed? {
      FailWaitersStops(rest, fd, Broken(arming.code), id);
    }
  }

  lemma StepStops(y: System, a: Action, id: nat)
    requires Inv(y) && Enabled(y, a) && id <= y.loop.nextId && Stopping(y, id)
    ensures Stopping(Apply(y, a), id)
  {
    hide Tables, Pending;
    match a
    case SubmitWaiter(fd, writable, deadline, arming, release) =>
      AddWaiterCancels(y.loop, fd, writable, deadline, arming, release);
      AddWaiterAside(y.loop, fd, writable, deadline, arming, release);
      hide AddWaiter;
    case Detach(fd) =>
      FailWaitersStops(y.(loop := y.loop.(kernel := Disarm(y.loop.kernel, fd))), fd, Cancelled, id);
    case RunOnce(events, now, keys) => RunOnceStops(y, events, now, keys, id);
    case Rearm(arming) => RearmStops(y, arming, id);
    case Deliver(release) => DeliverStops(y, release, id);
    case Shutdown(orphans) => PendingPush(y.stack, Delivering(AllCancelled(orphans), false));
    case SubmitTimer(_, _) =>
    case AskCancel(_) =>
    case _ => StackStops(y, a, id);
  }

  lemma RunOnceStops(y: System, events: seq<Event>, now: int, keys: seq<Key>, id: nat)
    requires Inv(y) && Enabled(y, RunOnce(events, now, keys)) && Stopping(y, id)
    ensures Stopping(Apply(y, RunOnce(events, now, keys)), id)
  {
    hide Tables, Pending;
    QuietTables(y);
    ListKnown(y.loop, events, now, keys);
    var b := Collect(y.loop, events, now, keys);
    assert Pending(y.stack) == {} by { QuietPending(y); }
    PendingPush(y.stack, Rearming(b.rearm, b.resolved));
    if id in y.loop.cancels {
      CollectStops(y.loop, events, now, keys, id);
    }
    hide Collect;
  }

  lemma QuietPending(y: System)
    requires y.Quiet()
    ensures Pending(y.stack) == {}
  {
    assert [User][..0] == [];
    assert Pending([]) == {};
  }

  lemma AskingStops(y: System, id: nat)
    requires Enabled(y, AskCancel(id))
    ensures Stopping(Apply(y, AskCancel(id)), id)
  {
    hide Pending;
  }

  lemma {:induction false} RunStops(states: seq<System>, run: seq<Action>, backend: Backend, i: nat, j: nat, id: nat)
    requires FromStart(states, run, backend) && i < j <= |run| && run[i] == AskCancel(id) && id <= states[i].loop.nextId
    ensures Stopping(states[j], id)
    decreases j
  {
    hide Inv, Onward, Stopping, Apply, Enabled;
    if i + 1 < j {
      RunStops(states, run, backend, i, j - 1, id);
      ReachedInv(states, run, backend, j - 1);
      NextIdGrows(states, run, i, j - 1);
      StepStops(states[j - 1], run[j - 1], id);
    } else {
      AskingStops(states[i], id);
    }
  }

  lemma {:induction false} CancelsAsked(states: seq<System>, run: seq<Action>, i: nat, j: nat, id: nat)
    requires IsRun(states, run) && i <= j <= |run| && id in states[j].loop.cancels && id !in states[i].loop.cancels
    ensures CancelAsked(run, i, j, id)
    decreases j
  {
    hide Apply, Enabled;
    if i < j {
      StepCancels(states[j - 1], run[j - 1], id);
      if id in states[j - 1].loop.cancels {
        CancelsAsked(states, run, i, j - 1, id);
      } else {
        assert run[j - 1] == AskCancel(id);
      }
    }
  }

  /** Between batches the requests name exactly those of whom a cancellation was
      asked since they were taken in. */
  lemma {:induction false} RequestsExactly(states: seq<System>, run: seq<Action>, backend: Backend, m: nat, i: nat, id: nat)
    requires FromStart(states, run, backend) && m < i <= |run| && states[i].Quiet()
    requires states[m].loop.nextId < id <= states[m + 1].loop.nextId && id in states[i].loop.ops
    ensures id in states[i].loop.cancels <==> CancelAsked(run, m + 1, i, id)
  {
    hide Apply, Enabled, Onward, Pending;
    ReachedInv(states, run, backend, m);
    ReachedInv(states, run, backend, m + 1);
    hide Accounted, SlotsAgree, TimersAgree, Owed;
    if id in states[i].loop.cancels {
      assert id !in states[m].loop.cancels;
      CancelsAsked(states, run, m, i, id);
      var k :| m <= k < i && run[k] == AskCancel(id);
      assert k != m by { if k == m { AskedIsOld(states[m], id); } }
    }
    if CancelAsked(run, m + 1, i, id) {
      var k :| m + 1 <= k < i && run[k] == AskCancel(id);
      NextIdGrows(states, run, m + 1, k);
      RunStops(states, run, backend, k, i, id);
      QuietPending(states[i]);
    }
  }

  lemma AskedIsOld(y: System, id: nat)
    requires Enabled(y, AskCancel(id))
    ensures Apply(y, AskCancel(id)).loop.nextId == y.loop.nextId
  {
  }

  // ── what a batch comes to for what was asked ────────────────────────────────

  /** Readiness first, then the deadline, then the cancellation. */
  function WaitOutcome(fired: bool, deadline: Option<int>, now: int, asked: bool): (o: Option<Outcome>)
  {
    if fired then Some(Success)
    else if Past(deadline, now) then Some(TimedOut)
    else if asked then Some(Cancelled)
    else None
  }

  /** A batch starts at `i` and is over at `j`; in between nothing is detached and
      re-arms succeed. */
  ghost predicate PlainBatch(states: seq<System>, run: seq<Action>, i: nat, j: nat)
    requires IsRun(states, run)
  {
    i < j <= |run| && run[i].RunOnce? && states[j].Quiet() && forall k :: i < k < j ==> Plain(run[k])
  }

  /** `id` was resumed with `o`, or is still there if that is none. */
  ghost predicate CameTo(t: Loop, id: nat, o: Option<Outcome>)
  {
    && (o.None? <==> id in t.ops)
    && (forall r :: (id, r) in t.resumed <==> o == Some(r))
  }

  lemma NotYetResumed(states: seq<System>, run: seq<Action>, backend: Backend, i: nat, id: nat)
    requires FromStart(states, run, backend) && i <= |run| && id in states[i].loop.ops
    ensures forall r :: (id, r) !in states[i].loop.resumed
  {
    ExactlyOnce(states, run, backend, i, i);
    var s := states[i].loop;
    assert !WasResumed(s.resumed, id);
    assert forall k :: 0 <= k < |s.resumed| ==> s.resumed[k].0 != id;
  }

  lemma {:induction false} BatchCameTo(states: seq<System>, run: seq<Action>, backend: Backend, i: nat, j: nat, id: nat)
    requires FromStart(states, run, backend) && PlainBatch(states, run, i, j) && id in states[i].loop.ops
    ensures var s := states[i].loop;
      CameTo(states[j].loop, id, Verdict(s.ops[id], run[i].events, run[i].now, id in s.cancels))
  {
    hide Apply, Enabled, Verdict, Plain;
    BatchOutcome(states, run, backend, i, j, id);
    NotYetResumed(states, run, backend, i, id);
    var s, t := states[i].loop, states[j].loop;
    assert t.resumed == s.resumed + t.resumed[|s.resumed|..];
  }

  /** An event says that this side of the descriptor is ready, or that the descriptor
      has failed. */
  ghost predicate Reported(events: seq<Event>, fd: int, writable: bool)
  {
    exists k :: 0 <= k < |events| && events[k].fd == fd
      && (events[k].failed || (writable && events[k].writable) || (!writable && events[k].readable))
  }

  lemma ReportedIsTaken(events: seq<Event>, fd: int, writable: bool)
    ensures Taken(events, (fd, writable)) <==> Reported(events, fd, writable)
  {
    if k :| 0 <= k < |events| && events[k].Takes((fd, writable)) {
      assert events[k].fd == fd;
    }
    if Reported(events, fd, writable) {
      var k :| 0 <= k < |events| && events[k].fd == fd
        && (events[k].failed || (writable && events[k].writable) || (!writable && events[k].readable));
      assert events[k].Takes((fd, writable));
    }
  }

  /** A wait still there when a batch starts is resumed by it with success if its
      side of its descriptor was reported, else as timed out if its deadline has
      passed, else as cancelled if somebody asked for that; else it stays. */
  lemma {:induction false} WaiterOutcome(
      states: seq<System>, run: seq<Action>, backend: Backend, m: nat, i: nat, j: nat, id: nat)
    requires FromStart(states, run, backend) && m < i && PlainBatch(states, run, i, j)
    requires WaitTaken(states, run, m, id) && id in states[i].loop.ops
    ensures CameTo(states[j].loop, id,
              WaitOutcome(Reported(run[i].events, run[m].fd, run[m].writable), run[m].deadline, run[i].now,
                          CancelAsked(run, m + 1, i, id)))
  {
    hide Apply, Plain, CameTo, Taken, Reported;
    ReportedIsTaken(run[i].events, run[m].fd, run[m].writable);
    BatchCameTo(states, run, backend, i, j, id);
    WaiterKept(states, run, backend, m, i, id);
    assert states[i].Quiet();
    hide Enabled;
    RequestsExactly(states, run, backend, m, i, id);
  }

  /** A sleep still there when a batch starts is resumed by it as timed out if its
      deadline has passed and lies before its wake-up, else with success if its
      time has come, else as cancelled if somebody asked for that; else it stays. */
  lemma {:induction false} SleeperOutcome(
      states: seq<System>, run: seq<Action>, backend: Backend, m: nat, i: nat, j: nat, id: nat)
    requires FromStart(states, run, backend) && m < i && PlainBatch(states, run, i, j)
    requires SleepTaken(states, run, m, id) && id in states[i].loop.ops
    ensures CameTo(states[j].loop, id,
              SleepOutcome(run[m].wakeAt, run[m].deadline, run[i].now, CancelAsked(run, m + 1, i, id)))
  {
    hide Apply, Plain, CameTo;
    BatchCameTo(states, run, backend, i, j, id);
    SleeperKept(states, run, backend, m, i, id);
    assert states[i].Quiet();
    hide Enabled;
    RequestsExactly(states, run, backend, m, i, id);
  }
}

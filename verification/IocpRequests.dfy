/** What callers asked of the completion-port loop is what they get.

A record is followed back to the call that made it, its answer to whoever decided
it, and what a packet reports to the delivery it ends in.
*/
module IocpRequests {
  import opened Accounts
  import opened Octets
  import opened Timers
  import opened IocpLoop
  import opened IocpRuns
  import opened IocpSafety
  import opened IocpClock

  // ── how a record may change ─────────────────────────────────────────────────

  /** A record keeps what it was made with; it may be detached, and gets an answer
      at most once, which ends its deadline. */
  predicate Evolves(op: Operation, after: Operation)
  {
    && after.kind == op.kind && after.socket == op.socket && after.accepted == op.accepted && after.wake == op.wake
    && (op.closed ==> after.closed)
    && (op.fixed.Some? ==> after.fixed == op.fixed)
    && (after.deadline == op.deadline || (after.deadline.None? && after.fixed.Some?))
  }

  /** The answer this step gives to `id`, if it has none yet. */
  ghost function PinOf(y: System, a: Action, id: nat): (r: Option<Outcome>)
  {
    if a == PinCancel(id) || a.Shutdown? then Some(Cancelled)
    else if a.Expire? && y.phase.Expiring? && y.phase.targets != [] && y.phase.targets[0] == Target(id, true)
    then Some(TimedOut)
    else None
  }

  predicate Changed(op: Operation, after: Operation, closes: bool, pin: Option<Outcome>)
  {
    && Evolves(op, after)
    && (after.closed <==> op.closed || closes)
    && after.fixed == if op.fixed.Some? then op.fixed else pin
  }

  lemma FixRecord(s: Iocp, i: nat, reason: Outcome, id: nat)
    requires id in FixReason(s, i, reason).ops
    ensures id in s.ops
    ensures Changed(s.ops[id], FixReason(s, i, reason).ops[id], false, if i == id then Some(reason) else None)
  {
  }

  lemma EditRecord(s: Iocp, socket: int, id: nat)
    requires id in s.ops
    ensures Changed(s.ops[id], Detach(s, socket).ops[id], s.ops[id].socket == socket, None)
    ensures Changed(s.ops[id], BeginShutdown(s).ops[id], false, Some(Cancelled))
    ensures Changed(s.ops[id], s.ops[id], false, None)
  {
  }

  lemma FinalizeRecord(s: Iocp, i: nat, outcome: Outcome, id: nat)
    requires id in Finalize(s, i, outcome).ops
    ensures id in s.ops && Finalize(s, i, outcome).ops[id] == s.ops[id]
  {
    hide Dispose, CancelTimer;
  }

  lemma ExpireRecord(s: Iocp, t: Target, id: nat)
    requires id in ExpireOne(s, t).0.ops
    ensures id in s.ops
    ensures Changed(s.ops[id], ExpireOne(s, t).0.ops[id], false, if t == Target(id, true) then Some(TimedOut) else None)
  {
    if t.isDeadline {
      FixRecord(s, t.operation, TimedOut, id);
    } else {
      EditRecord(s, 0, id);
    }
    hide FixReason, Changed;
  }

  lemma CancelRecord(s: Iocp, i: nat, id: nat)
    requires id in RequestCancel(s, i).ops
    ensures id in s.ops
    ensures Changed(s.ops[id], RequestCancel(s, i).ops[id], false, if i == id then Some(Cancelled) else None)
  {
    FixRecord(s, i, Cancelled, id);
    hide FixReason, Changed;
  }

  lemma SubmitRecord(y: System, a: Action, id: nat)
    requires Enabled(y, a) && id <= y.loop.nextId && id in Apply(y, a).loop.ops
    requires a.StartTransfer? || a.StartAccept? || a.StartTimer?
    ensures id in y.loop.ops && Apply(y, a).loop.ops[id] == y.loop.ops[id]
  {
    var z := Apply(y, a);
    match a
    case StartTransfer(socket, deadline, taken) => SubmitsAside(y.loop, socket, 0, deadline, taken, id, z.loop);
    case StartAccept(socket, deadline, taken) => SubmitsAside(y.loop, socket, 0, deadline, taken, id, z.loop);
    case StartTimer(wakeAt, deadline) => SubmitsAside(y.loop, 0, wakeAt, deadline, true, id, z.loop);
    hide SubmitTransfer, SubmitAccept, SubmitTimer;
  }

  /** What the step is for this record: nothing, a close, or an answer. */
  lemma StepRecord(y: System, a: Action, id: nat)
    requires Enabled(y, a) && id <= y.loop.nextId && id in Apply(y, a).loop.ops
    ensures id in y.loop.ops
    ensures Changed(y.loop.ops[id], Apply(y, a).loop.ops[id], a == CloseHandle(y.loop.ops[id].socket), PinOf(y, a, id))
  {
    hide Changed, SubmitTransfer, SubmitAccept, SubmitTimer, Detach, RequestCancel, ExpireOne, Finalize, BeginShutdown;
    hide TargetsOf, NotDue, Orphans, BackedIds, PacketOutcome, DueInOrder, CancelOne;
    var s := y.loop;
    match a
    case StartTransfer(_, _, _) => SubmitRecord(y, a, id); EditRecord(s, 0, id);
    case StartAccept(_, _, _) => SubmitRecord(y, a, id); EditRecord(s, 0, id);
    case StartTimer(_, _) => SubmitRecord(y, a, id); EditRecord(s, 0, id);
    case PinCancel(i) => CancelRecord(s, i, id);
    case Expire => ExpireRecord(s, y.phase.targets[0], id);
    case Deliver => FinalizeRecord(s, y.phase.listed[0].0, y.phase.listed[0].1, id); EditRecord(s, 0, id);
    case CloseHandle(socket) => DetachKeys(s, socket); EditRecord(s, socket, id);
    case Shutdown(_) => DetachKeys(s, 0); EditRecord(s, 0, id);
    case _ => EditRecord(s, 0, id);
  }

  lemma DetachKeys(s: Iocp, socket: int)
    ensures Detach(s, socket).ops.Keys == s.ops.Keys && BeginShutdown(s).ops.Keys == s.ops.Keys
  {
  }

  // ── submissions ─────────────────────────────────────────────────────────────

  /** What a submission asks for. */
  datatype Request = Request(kind: Kind, socket: int, wakeAt: Option<int>, deadline: Option<int>)

  function RequestOf(a: Action): (r: Option<Request>)
  {
    match a
    case StartTransfer(socket, deadline, taken) => if taken then Some(Request(Transfer, socket, None, deadline)) else None
    case StartAccept(socket, deadline, taken) => if taken then Some(Request(Accept, socket, None, deadline)) else None
    case StartTimer(wakeAt, deadline) => Some(Request(Timer, -1, Some(wakeAt), deadline))
    case _ => None
  }

  /** Step `m` is a submission that was taken in, and `id` the number it got. */
  ghost predicate Submitted(states: seq<System>, run: seq<Action>, m: nat, id: nat)
    requires IsRun(states, run)
  {
    m < |run| && RequestOf(run[m]).Some? && !states[m].loop.shuttingDown && id == states[m].loop.nextId + 1
  }

  /** The record is for what was asked; its deadline stands until there is an
      answer. */
  predicate MadeFor(op: Operation, r: Request)
  {
    && op.kind == r.kind && op.socket == r.socket && SetFor(op.wake, r.wakeAt)
    && (SetFor(op.deadline, r.deadline) || (op.deadline.None? && op.fixed.Some?))
  }

  lemma RecordMade(y: System, a: Action)
    requires Enabled(y, a) && RequestOf(a).Some? && !y.loop.shuttingDown
    ensures var t := Apply(y, a).loop; var id := y.loop.nextId + 1;
      && t.nextId == id && id in t.ops && MadeFor(t.ops[id], RequestOf(a).value)
      && t.ops[id].fixed.None? && !t.ops[id].closed && t.resumed == y.loop.resumed
      && (t.ops[id].Backed() ==> id in t.kernel.inFlight)
    ensures Apply(y, a).phase == y.phase
  {
    hide TimersFor;
  }

  lemma {:induction false} NextIdGrows(states: seq<System>, run: seq<Action>, i: nat, j: nat)
    requires IsRun(states, run) && i <= j <= |run|
    ensures states[i].loop.nextId <= states[j].loop.nextId
    decreases j
  {
    hide Apply, Enabled;
    if i < j {
      NextIdGrows(states, run, i, j - 1);
      StepNextId(states[j - 1], run[j - 1]);
    }
  }

  lemma StepNextId(y: System, a: Action)
    requires Enabled(y, a)
    ensures y.loop.nextId <= Apply(y, a).loop.nextId
  {
    hide TimersFor, HandleFor, CancelTimer, TargetsOf, NotDue, PacketOutcome, Orphans, BackedIds, DueInOrder, Dispose;
  }

  /** A handle was closed between the two points. */
  ghost predicate ClosedBetween(run: seq<Action>, i: nat, j: nat, socket: int)
    requires j <= |run|
  {
    exists k :: i <= k < j && run[k] == CloseHandle(socket)
  }

  /** Nobody gave `id` an answer between the two points. */
  ghost predicate Unpinned(states: seq<System>, run: seq<Action>, i: nat, j: nat, id: nat)
    requires IsRun(states, run) && j <= |run|
  {
    forall k :: i <= k < j ==> PinOf(states[k], run[k], id).None?
  }

  /** What happened since `m` to the record made by that step. */
  ghost predicate Followed(states: seq<System>, run: seq<Action>, m: nat, j: nat, op: Operation, id: nat)
    requires IsRun(states, run) && m < j <= |run| && RequestOf(run[m]).Some?
  {
    && MadeFor(op, RequestOf(run[m]).value)
    && (op.closed <==> ClosedBetween(run, m + 1, j, op.socket))
    && (op.fixed.None? <==> Unpinned(states, run, m + 1, j, id))
  }

  lemma FollowedFurther(states: seq<System>, run: seq<Action>, m: nat, j: nat, op: Operation, after: Operation, id: nat)
    requires IsRun(states, run) && m < j < |run| && RequestOf(run[m]).Some? && Followed(states, run, m, j, op, id)
    requires Changed(op, after, run[j] == CloseHandle(op.socket), PinOf(states[j], run[j], id))
    ensures Followed(states, run, m, j + 1, after, id)
  {
    hide PinOf, IsRun, RequestOf;
    if ClosedBetween(run, m + 1, j, op.socket) {
      var k :| m + 1 <= k < j && run[k] == CloseHandle(op.socket);
      assert ClosedBetween(run, m + 1, j + 1, op.socket);
    }
  }

  /** A live record is the one that was asked for; it is detached exactly if its
      handle was closed since, and without an answer exactly if nobody gave one. */
  lemma {:induction false} RecordKept(states: seq<System>, run: seq<Action>, m: nat, j: nat, id: nat)
    requires IsRun(states, run) && m < j <= |run| && Submitted(states, run, m, id)
    ensures id in states[m + 1].loop.ops && states[m + 1].loop.nextId == id
    ensures id in states[j].loop.ops ==> Followed(states, run, m, j, states[j].loop.ops[id], id)
    decreases j
  {
    hide Apply, Enabled;
    RecordMade(states[m], run[m]);
    if m + 1 < j && id in states[j].loop.ops {
      NextIdGrows(states, run, m + 1, j - 1);
      StepRecord(states[j - 1], run[j - 1], id);
      hide Followed, Changed, PinOf;
      RecordKept(states, run, m, j - 1, id);
      FollowedFurther(states, run, m, j - 1, states[j - 1].loop.ops[id], states[j].loop.ops[id], id);
    }
  }

  // ── who decides an answer ───────────────────────────────────────────────────

  /** Somebody cancelled `id`, or the loop shut down. */
  ghost predicate CalledOff(run: seq<Action>, i: nat, j: nat, id: nat)
    requires j <= |run|
  {
    exists k :: i <= k < j && (run[k] == PinCancel(id) || run[k].Shutdown?)
  }

  /** The loop looked at the clock when `at` had passed. */
  ghost predicate Passed(run: seq<Action>, i: nat, j: nat, at: Option<int>)
    requires j <= |run|
  {
    at.Some? && exists k :: i <= k < j && run[k].Sweep? && at.value <= run[k].now
  }

  lemma TargetsShrink(y: System, a: Action, t: Target)
    requires Enabled(y, a) && !a.Sweep? && t in Striking(Apply(y, a).phase)
    ensures t in Striking(y.phase)
  {
    hide SubmitTransfer, SubmitAccept, SubmitTimer, Detach, RequestCancel, ExpireOne, Finalize, BeginShutdown;
    hide TargetsOf, NotDue, Orphans, BackedIds, PacketOutcome, DueInOrder, CancelOne;
  }

  lemma SweptIsDue(y: System, now: int, keys: seq<Key>, id: nat)
    requires Clocked(y) && Enabled(y, Sweep(now, keys)) && Target(id, true) in Striking(Apply(y, Sweep(now, keys)).phase)
    ensures id in y.loop.ops && y.loop.ops[id].deadline.Some? && y.loop.ops[id].deadline.value.deadline <= now
  {
    var timers := y.loop.timers;
    var i :| 0 <= i < |keys| && timers[keys[i]] == Target(id, true);
    assert keys[i] in keys;
    hide Unshared, AllTick;
  }

  /** A deadline strikes only once it has passed. */
  lemma {:induction false} StruckIsPassed(states: seq<System>, run: seq<Action>, m: nat, j: nat, id: nat)
    requires IsRun(states, run) && m < j <= |run| && Submitted(states, run, m, id)
    requires Target(id, true) in Striking(states[j].phase)
    ensures Passed(run, m + 1, j, RequestOf(run[m]).value.deadline)
    decreases j
  {
    hide Apply, Enabled, Clocked, Followed;
    RecordMade(states[m], run[m]);
    assert !states[m].phase.Expiring? by { Submits(states[m], run[m]); }
    if j > m + 1 {
      var n := j - 1;
      if run[n].Sweep? {
        RunClocked(states, run, n);
        SweptIsDue(states[n], run[n].now, run[n].keys, id);
        RecordKept(states, run, m, n, id);
        assert MadeFor(states[n].loop.ops[id], RequestOf(run[m]).value) by { FollowedMeans(states, run, m, n, id); }
      } else {
        TargetsShrink(states[n], run[n], Target(id, true));
        StruckIsPassed(states, run, m, n, id);
        var k :| m + 1 <= k < n && run[k].Sweep? && RequestOf(run[m]).value.deadline.value <= run[k].now;
      }
    }
  }

  lemma Submits(y: System, a: Action)
    requires Enabled(y, a) && RequestOf(a).Some?
    ensures UserRuns(y.phase) && !y.phase.Expiring? && !y.phase.Classifying?
  {
  }

  lemma FollowedMeans(states: seq<System>, run: seq<Action>, m: nat, j: nat, id: nat)
    requires IsRun(states, run) && m < j <= |run| && RequestOf(run[m]).Some? && id in states[j].loop.ops
    requires Followed(states, run, m, j, states[j].loop.ops[id], id)
    ensures MadeFor(states[j].loop.ops[id], RequestOf(run[m]).value)
  {
  }

  /** An answer given early is `Cancelled` and somebody cancelled, or `TimedOut` and
      the deadline asked for has passed. */
  lemma {:induction false} AnswerWhy(states: seq<System>, run: seq<Action>, m: nat, j: nat, id: nat)
    requires IsRun(states, run) && m < j <= |run| && Submitted(states, run, m, id)
    requires id in states[j].loop.ops && states[j].loop.ops[id].fixed.Some?
    ensures var r := states[j].loop.ops[id].fixed.value;
      || (r == Cancelled && CalledOff(run, m + 1, j, id))
      || (r == TimedOut && Passed(run, m + 1, j, RequestOf(run[m]).value.deadline))
    decreases j
  {
    hide Apply, Enabled;
    RecordMade(states[m], run[m]);
    if j > m + 1 {
      var n := j - 1;
      NextIdGrows(states, run, m + 1, n);
      StepRecord(states[n], run[n], id);
      if states[n].loop.ops[id].fixed.Some? {
        AnswerWhy(states, run, m, n, id);
        WhyLonger(run, m + 1, n, id, RequestOf(run[m]).value.deadline);
      } else if run[n].Expire? {
        assert Target(id, true) in Striking(states[n].phase);
        StruckIsPassed(states, run, m, n, id);
        WhyLonger(run, m + 1, n, id, RequestOf(run[m]).value.deadline);
      }
      hide RequestOf;
    }
  }

  lemma WhyLonger(run: seq<Action>, i: nat, j: nat, id: nat, at: Option<int>)
    requires i <= j < |run|
    ensures CalledOff(run, i, j, id) ==> CalledOff(run, i, j + 1, id)
    ensures Passed(run, i, j, at) ==> Passed(run, i, j + 1, at)
  {
  }

  /** Until it is taken up, a deadline that struck stays on its way. */
  ghost predicate Struck(y: System, id: nat)
  {
    id in y.loop.ops ==> y.loop.ops[id].fixed.Some? || Target(id, true) in Striking(y.phase)
  }

  lemma StruckStep(y: System, a: Action, id: nat)
    requires Enabled(y, a) && Struck(y, id) && id <= y.loop.nextId
    ensures Struck(Apply(y, a), id)
  {
    var z := Apply(y, a);
    if id in z.loop.ops {
      StepRecord(y, a, id);
      if Target(id, true) in Striking(y.phase) {
        StillComing(y, a, id);
      }
      hide Apply, Enabled;
    }
  }

  lemma StillComing(y: System, a: Action, id: nat)
    requires Enabled(y, a) && Target(id, true) in Striking(y.phase)
    ensures Target(id, true) in Striking(Apply(y, a).phase) || PinOf(y, a, id).Some?
  {
    hide SubmitTransfer, SubmitAccept, SubmitTimer, Detach, RequestCancel, ExpireOne, Finalize, BeginShutdown;
    hide TargetsOf, NotDue, Orphans, BackedIds, PacketOutcome, DueInOrder, CancelOne;
    assert y.phase.targets == [y.phase.targets[0]] + y.phase.targets[1..];
  }

  lemma {:induction false} RunStruck(states: seq<System>, run: seq<Action>, i: nat, j: nat, id: nat)
    requires IsRun(states, run) && i <= j <= |run| && Struck(states[i], id) && id <= states[i].loop.nextId
    ensures Struck(states[j], id)
    decreases j
  {
    hide Apply, Enabled, Struck;
    if i < j {
      RunStruck(states, run, i, j - 1, id);
      NextIdGrows(states, run, i, j - 1);
      StruckStep(states[j - 1], run[j - 1], id);
    }
  }

  lemma SweepStrikes(y: System, now: int, keys: seq<Key>, id: nat)
    requires Clocked(y) && Enabled(y, Sweep(now, keys)) && id in y.loop.ops
    requires y.loop.ops[id].fixed.Some? || (y.loop.ops[id].deadline.Some? && y.loop.ops[id].deadline.value.deadline <= now)
    ensures Struck(Apply(y, Sweep(now, keys)), id)
  {
    var op := y.loop.ops[id];
    if op.fixed.None? {
      assert Ticking(op, y.loop.timers, [], id in Ids(y.phase.listed), id);
      TargetFound(y.loop, keys, id, op.deadline.value);
    }
    hide Named, Unshared, TargetsOf, InOrder;
  }

  /** Once a batch has looked at the clock past the deadline asked for and listed
      who is due, whoever is still live has an answer. */
  lemma {:induction false} DeadlineAnswers(states: seq<System>, run: seq<Action>, m: nat, j: nat, id: nat)
    requires IsRun(states, run) && m < j <= |run| && Submitted(states, run, m, id)
    requires Passed(run, m + 1, j, RequestOf(run[m]).value.deadline)
    requires !states[j].phase.Expiring? && id in states[j].loop.ops
    ensures states[j].loop.ops[id].fixed.Some?
  {
    hide Apply, Clocked, Followed;
    var at := RequestOf(run[m]).value.deadline;
    var i :| m + 1 <= i < j && run[i].Sweep? && at.value <= run[i].now;
    RecordKept(states, run, m, i, id);
    NextIdGrows(states, run, m + 1, i);
    LiveBefore(states, run, i, j, id);
    FollowedMeans(states, run, m, i, id);
    RunClocked(states, run, i);
    SweepStrikes(states[i], run[i].now, run[i].keys, id);
    NextIdGrows(states, run, m + 1, i + 1);
    RunStruck(states, run, i + 1, j, id);
  }

  lemma {:induction false} LiveBefore(states: seq<System>, run: seq<Action>, i: nat, j: nat, id: nat)
    requires IsRun(states, run) && i <= j <= |run| && id <= states[i].loop.nextId && id in states[j].loop.ops
    ensures id in states[i].loop.ops
    decreases j
  {
    hide Apply, Enabled;
    if i < j {
      NextIdGrows(states, run, i, j - 1);
      StepRecord(states[j - 1], run[j - 1], id);
      LiveBefore(states, run, i, j - 1, id);
    }
  }

  /** An operation that owes a packet and whose deadline has passed, with nobody
      cancelling it, is delivered `TimedOut` whatever the packet will report. */
  lemma {:induction false} DeadlineOfTransfer(states: seq<System>, run: seq<Action>, m: nat, i: nat, j: nat, id: nat)
    requires IsRun(states, run) && m < i <= j <= |run| && Submitted(states, run, m, id)
    requires Passed(run, m + 1, i, RequestOf(run[m]).value.deadline) && !CalledOff(run, m + 1, i, id)
    requires !states[i].phase.Expiring? && Owing(states[i], id)
    ensures forall o :: (id, o) in states[j].loop.resumed ==> o == TimedOut
  {
    hide Apply, Enabled, Owing, Passed, CalledOff, RequestOf;
    RunKeeps(states, run, i);
    RunAnswers(states, run, i);
    OwingIsUnlisted(states[i], id);
    hide Inv, Answered;
    DeadlineAnswers(states, run, m, i, id);
    AnswerWhy(states, run, m, i, id);
    PinnedReasonWins(states, run, i, j, id, TimedOut);
  }
}

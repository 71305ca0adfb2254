/** What a completion reports, and to whom it is delivered.

A packet's own status reaches the caller unless an answer was decided before the
packet is taken up or the handle was closed; an accepted socket goes where that
answer says.
*/
module IocpCompletions {
  import opened Accounts
  import opened Timers
  import opened IocpLoop
  import opened IocpLedger
  import opened IocpRuns
  import opened IocpSafety
  import opened IocpClock
  import opened IocpRequests

  // ── on its way through the port ─────────────────────────────────────────────

  ghost function Entries(p: Phase): (r: seq<Packet>)
  {
    if p.Classifying? then p.entries else []
  }

  ghost predicate SaysOnly(packets: seq<Packet>, id: nat, status: Outcome)
  {
    forall p :: p in packets && p.Done? && p.id == id ==> p.status == status
  }

  /** The kernel is done with `id`, and its packet, if still to be taken up, says
      `status`. */
  ghost predicate Reported(y: System, id: nat, status: Outcome)
  {
    && id !in y.loop.kernel.inFlight
    && SaysOnly(y.loop.kernel.port, id, status) && SaysOnly(Entries(y.phase), id, status)
  }

  lemma NotTakenUp(y: System, id: nat)
    requires Inv(y) && id in y.loop.kernel.inFlight
    ensures id !in PortIds(y.loop.kernel.port) && id !in Listed(y.phase)
  {
    hide Rest, SocketsKept, Ids, PortIds;
    assert id in Held(y.loop.kernel);
  }

  lemma Unnamed(packets: seq<Packet>, id: nat, status: Outcome)
    requires id !in PortIds(packets)
    ensures SaysOnly(packets, id, status) && SaysOnly(packets + [Done(id, status)], id, status)
  {
    assert forall p :: p in packets && p.Done? ==> p.id in PortIds(packets);
  }

  lemma ReportBegins(y: System, id: nat, status: Outcome)
    requires Inv(y) && Enabled(y, Complete(id, status))
    ensures Reported(Apply(y, Complete(id, status)), id, status)
  {
    hide Inv, SaysOnly, Ids;
    NotTakenUp(y, id);
    Unnamed(y.loop.kernel.port, id, status);
    Unnamed(Entries(y.phase), id, status);
  }

  lemma KernelAfter(y: System, a: Action)
    requires Enabled(y, a)
    ensures var k, after := y.loop.kernel, Apply(y, a).loop.kernel;
      && (after.inFlight <= k.inFlight + {y.loop.nextId + 1})
      && (after.port == k.port || (a.Complete? && after.port == k.port + [Done(a.id, a.status)])
          || (a.PostWakeup? && after.port == k.port + [Wakeup])
          || (a.Dequeue? && after.port == k.port[a.n..]) || (a.Drain? && after.port == k.port[1..]))
      && (Entries(Apply(y, a).phase) == [] || Entries(Apply(y, a).phase) == Entries(y.phase)
          || (a.Dequeue? && Entries(Apply(y, a).phase) == k.port[..a.n])
          || (a.Classify? && Entries(Apply(y, a).phase) == Entries(y.phase)[1..]))
      && (a.Dequeue? ==> a.n <= |k.port|) && (a.Drain? ==> k.port != []) && (a.Complete? ==> a.id in k.inFlight)
      && (a.Classify? ==> Entries(y.phase) != [])
  {
    hide Detach, RequestCancel, ExpireOne, Finalize, BeginShutdown, Acquire, Discard;
    hide TargetsOf, NotDue, Orphans, BackedIds, PacketOutcome, DueInOrder, CancelOne;
    KernelAside(y, a);
  }

  /** These touch no kernel state. */
  lemma KernelAside(y: System, a: Action)
    requires Enabled(y, a)
    ensures a.CloseHandle? ==> Detach(y.loop, a.socket).kernel == y.loop.kernel
    ensures a.PinCancel? ==> RequestCancel(y.loop, a.id).kernel == y.loop.kernel
    ensures a.Expire? ==> ExpireOne(y.loop, y.phase.targets[0]).0.kernel == y.loop.kernel
    ensures a.Deliver? ==> Finalize(y.loop, y.phase.listed[0].0, y.phase.listed[0].1).kernel == y.loop.kernel
    ensures a.Shutdown? ==> BeginShutdown(y.loop).kernel == y.loop.kernel
    ensures forall kind, socket, accepted, wakeAt, deadline ::
      var r := Acquire(y.loop, kind, socket, accepted, wakeAt, deadline);
      && r.kernel == y.loop.kernel && r.nextId == y.loop.nextId + 1 && r.nextId in r.ops
    ensures forall s: Iocp, id :: id in s.ops ==> Discard(s, id).kernel == s.kernel
  {
    hide TimersFor, HandleFor, CancelTimer;
  }

  lemma ReportStep(y: System, a: Action, id: nat, status: Outcome)
    requires Enabled(y, a) && Reported(y, id, status) && id <= y.loop.nextId
    ensures Reported(Apply(y, a), id, status)
  {
    KernelAfter(y, a);
    hide Apply, Enabled;
  }

  lemma {:induction false} RunReported(states: seq<System>, run: seq<Action>, i: nat, j: nat, id: nat, status: Outcome)
    requires IsRun(states, run) && i <= j <= |run| && Reported(states[i], id, status) && id <= states[i].loop.nextId
    ensures Reported(states[j], id, status)
    decreases j
  {
    hide Apply, Enabled, Reported;
    if i < j {
      RunReported(states, run, i, j - 1, id, status);
      NextIdGrows(states, run, i, j - 1);
      ReportStep(states[j - 1], run[j - 1], id, status);
    }
  }

  // ── taken up ────────────────────────────────────────────────────────────────

  /** `id` owes nothing any more; while it is live the list at hand has it, and
      only with `o`. */
  ghost predicate Settled(y: System, id: nat, o: Outcome)
  {
    && id <= y.loop.nextId
    && (forall r :: (id, r) in y.loop.resumed ==> r == o)
    && (id in y.loop.ops ==>
          && y.loop.ops[id].Backed()
          && (y.phase.Classifying? || y.phase.Expiring? || y.phase.Delivering?)
          && id in Ids(y.phase.listed)
          && (forall q :: q in y.phase.listed && q.0 == id ==> q.1 == o)
          && id !in PortIds(Entries(y.phase)))
  }

  /** A step that delivers nothing to `id` and lists nothing else for it. */
  lemma SettledStays(y: System, z: System, id: nat, o: Outcome)
    requires Settled(y, id, o) && y.loop.nextId <= z.loop.nextId && z.loop.resumed == y.loop.resumed
    requires id in z.loop.ops ==> id in y.loop.ops && z.loop.ops[id].kind == y.loop.ops[id].kind
    requires id in z.loop.ops ==>
      && (z.phase.Classifying? || z.phase.Expiring? || z.phase.Delivering?)
      && y.phase.listed <= z.phase.listed
      && (forall q :: q in z.phase.listed[|y.phase.listed|..] ==> q.0 != id)
      && PortIds(Entries(z.phase)) <= PortIds(Entries(y.phase))
    ensures Settled(z, id, o)
  {
    if id in z.loop.ops {
      var more := z.phase.listed[|y.phase.listed|..];
      assert z.phase.listed == y.phase.listed + more;
      ListMore(y.phase.listed, more);
    }
    hide PortIds, Ids;
  }

  lemma SettledClassify(y: System, id: nat, o: Outcome)
    requires Settled(y, id, o) && Enabled(y, Classify)
    ensures Settled(Apply(y, Classify), id, o)
  {
    PortHead(y.phase.entries);
    hide PortIds, Ids, PacketOutcome;
    SettledStays(y, Apply(y, Classify), id, o);
  }

  lemma SettledExpire(y: System, id: nat, o: Outcome)
    requires Inv(y) && Settled(y, id, o) && Enabled(y, Expire)
    ensures Settled(Apply(y, Expire), id, o)
  {
    var t := y.phase.targets[0];
    PinAside(y.loop, t.operation, TimedOut);
    assert FixReason(y.loop, t.operation, TimedOut).nextId == y.loop.nextId
        && FixReason(y.loop, t.operation, TimedOut).resumed == y.loop.resumed;
    assert !t.isDeadline ==> t.operation in QuickIds(y.loop, y.phase) by { assert t in y.phase.targets; }
    assert id in y.loop.ops && !t.isDeadline ==> t.operation != id;
    hide Owned, SocketsKept, Accounted, QuickIds, FixReason, PortIds, Ids;
    SettledStays(y, Apply(y, Expire), id, o);
  }

  lemma SettledCancel(y: System, id: nat, o: Outcome)
    requires Inv(y) && Settled(y, id, o) && Enabled(y, Cancel)
    ensures Settled(Apply(y, Cancel), id, o)
  {
    var i := y.phase.cancels[0];
    assert i in QuickIds(y.loop, y.phase) by { assert i in y.phase.cancels; }
    hide Owned, SocketsKept, Accounted, QuickIds, PortIds, Ids;
    SettledStays(y, Apply(y, Cancel), id, o);
  }

  lemma SettledDeliver(y: System, id: nat, o: Outcome)
    requires Settled(y, id, o) && Enabled(y, Deliver)
    ensures Settled(Apply(y, Deliver), id, o)
  {
    var q, tail := y.phase.listed[0], y.phase.listed[1..];
    assert y.phase.listed == [q] + tail;
    ListMore([q], tail);
    assert Ids([q]) == {q.0} by { assert [q][0] == q; }
    assert q in y.phase.listed;
    hide CancelTimer, Dispose, PortIds, Ids;
  }

  lemma SettledSubmit(y: System, a: Action, id: nat, o: Outcome)
    requires Settled(y, id, o) && Enabled(y, a) && (a.StartTransfer? || a.StartAccept? || a.StartTimer?)
    ensures Settled(Apply(y, a), id, o)
  {
    var z := Apply(y, a);
    match a
    case StartTransfer(socket, deadline, taken) => SubmitsAside(y.loop, socket, 0, deadline, taken, id, z.loop);
    case StartAccept(socket, deadline, taken) => SubmitsAside(y.loop, socket, 0, deadline, taken, id, z.loop);
    case StartTimer(wakeAt, deadline) => SubmitsAside(y.loop, 0, wakeAt, deadline, true, id, z.loop);
    assert z.phase == y.phase;
    hide SubmitTransfer, SubmitAccept, SubmitTimer, PortIds, Ids;
  }

  lemma SettledStep(y: System, a: Action, id: nat, o: Outcome)
    requires Inv(y) && Settled(y, id, o) && Enabled(y, a)
    ensures Settled(Apply(y, a), id, o)
  {
    hide Inv, SubmitTransfer, SubmitAccept, SubmitTimer, Finalize, ExpireOne, TargetsOf, NotDue, PortIds, Ids;
    hide PacketOutcome, BeginShutdown, Orphans, CancelOne, BackedIds, DueInOrder;
    match a
    case StartTransfer(_, _, _) => SettledSubmit(y, a, id, o);
    case StartAccept(_, _, _) => SettledSubmit(y, a, id, o);
    case StartTimer(_, _) => SettledSubmit(y, a, id, o);
    case PinCancel(i) =>
      PinAside(y.loop, i, Cancelled);
      assert RequestCancel(y.loop, i).resumed == y.loop.resumed && RequestCancel(y.loop, i).nextId == y.loop.nextId;
      hide FixReason;
    case Classify => SettledClassify(y, id, o);
    case Expire => SettledExpire(y, id, o);
    case Cancel => SettledCancel(y, id, o);
    case Deliver => SettledDeliver(y, id, o);
    case Shutdown(orphans) => ShutdownKeysSame(y.loop);
    case EndDelivery => assert Ids([]) == {} by { NobodyIn(); }
    case _ =>
  }

  lemma ShutdownKeysSame(s: Iocp)
    ensures BeginShutdown(s).ops.Keys == s.ops.Keys && BeginShutdown(s).resumed == s.resumed
    ensures BeginShutdown(s).nextId == s.nextId
  {
  }

  lemma {:induction false} RunSettled(states: seq<System>, run: seq<Action>, i: nat, j: nat, id: nat, o: Outcome)
    requires IsRun(states, run) && i <= j <= |run| && Settled(states[i], id, o)
    ensures Settled(states[j], id, o)
    decreases j
  {
    hide Apply, Enabled, Inv, Settled;
    if i < j {
      RunSettled(states, run, i, j - 1, id, o);
      RunKeeps(states, run, j - 1);
      SettledStep(states[j - 1], run[j - 1], id, o);
    }
  }

  // ── what a packet comes to ──────────────────────────────────────────────────

  /** Step `c` takes up the packet of `id`. */
  ghost predicate TakesUp(states: seq<System>, run: seq<Action>, c: nat, id: nat)
    requires IsRun(states, run)
  {
    && c < |run| && run[c].Classify?
    && var p := states[c].phase.entries[0]; p.Done? && p.id == id
  }

  lemma SettledBegins(y: System, id: nat, o: Outcome)
    requires Inv(y) && Answered(y) && Enabled(y, Classify)
    requires var p := y.phase.entries[0]; p.Done? && p.id == id && o == PacketOutcome(y.loop, id, p.status)
    ensures id in y.loop.ops && Settled(Apply(y, Classify), id, o)
  {
    var listed := y.phase.listed;
    PortHead(y.phase.entries);
    ListMore(listed, [(id, o)]);
    assert Ids([(id, o)]) == {id} by { assert [(id, o)][0] == (id, o); }
    assert id in y.loop.ops && y.loop.ops[id].Backed() && id !in Ids(listed);
    assert forall q :: q in listed ==> q.0 in Ids(listed);
    LiveIsOld(y.loop, y.phase, id);
    NotYetResumed(y.loop, y.phase, id);
    hide Rest, Owned, SocketsKept, PortIds, OnePacketEach, Ids, PacketOutcome;
  }

  lemma NotYetResumed(s: Iocp, p: Phase, id: nat)
    requires Rest(s, p) && id in s.ops
    ensures forall r :: (id, r) !in s.resumed
  {
    assert id in s.ops.Keys;
    hide Quick, Old, ShuttingDown;
  }

  /** What an operation may be delivered whose packet said `status` and was taken
      up at `c`: a cancellation or a deadline comes first, then a closed handle. */
  ghost predicate AnswerFits(run: seq<Action>, m: nat, c: nat, id: nat, status: Outcome, o: Outcome)
    requires m < c <= |run| && RequestOf(run[m]).Some?
  {
    var r := RequestOf(run[m]).value;
    var off, late := CalledOff(run, m + 1, c, id), Passed(run, m + 1, c, r.deadline);
    if off && late then o == Cancelled || o == TimedOut
    else if off then o == Cancelled
    else if late then o == TimedOut
    else if ClosedBetween(run, m + 1, c, r.socket) then o == Cancelled
    else o == status
  }

  /** What its packet says is what an operation is delivered, unless by the time
      the packet is taken up it was cancelled, its deadline had passed or its
      handle was closed. When the batch is over it has been delivered. */
  lemma {:induction false} CompletionDelivered(
      states: seq<System>, run: seq<Action>, m: nat, i: nat, c: nat, j: nat, id: nat, status: Outcome)
    requires IsRun(states, run) && m < i < c < j <= |run|
    requires Submitted(states, run, m, id) && run[i] == Complete(id, status) && TakesUp(states, run, c, id)
    ensures forall o :: (id, o) in states[j].loop.resumed ==> AnswerFits(run, m, c, id, status, o)
    ensures states[j].phase.Idle? ==> exists o :: (id, o) in states[j].loop.resumed
  {
    hide Apply, Inv, Answered, AnswerFits;
    RunKeeps(states, run, i);
    ReportBegins(states[i], id, status);
    RecordKept(states, run, m, c, id);
    NextIdGrows(states, run, m + 1, i + 1);
    NextIdGrows(states, run, m + 1, c);
    RunReported(states, run, i + 1, c, id, status);
    RunKeeps(states, run, c);
    RunAnswers(states, run, c);
    var p := states[c].phase.entries[0];
    assert p in Entries(states[c].phase) && p.status == status;
    var o := PacketOutcome(states[c].loop, id, status);
    SettledBegins(states[c], id, o);
    OutcomeFits(states, run, m, c, id, status);
    RunSettled(states, run, c + 1, j, id, o);
    if states[j].phase.Idle? {
      GoneIsResumed(states, run, c, j, id);
    }
    hide Enabled;
  }

  lemma OutcomeFits(states: seq<System>, run: seq<Action>, m: nat, c: nat, id: nat, status: Outcome)
    requires IsRun(states, run) && m < c <= |run| && Submitted(states, run, m, id)
    requires states[c].phase.Classifying? && id in states[c].loop.ops
    ensures AnswerFits(run, m, c, id, status, PacketOutcome(states[c].loop, id, status))
  {
    hide Apply, Enabled, Passed, ClosedBetween;
    var op := states[c].loop.ops[id];
    RecordKept(states, run, m, c, id);
    if op.fixed.Some? {
      AnswerWhy(states, run, m, c, id);
    }
    if Passed(run, m + 1, c, RequestOf(run[m]).value.deadline) {
      DeadlineAnswers(states, run, m, c, id);
    }
    if CalledOff(run, m + 1, c, id) {
      var k :| m + 1 <= k < c && (run[k] == PinCancel(id) || run[k].Shutdown?);
      assert PinOf(states[k], run[k], id).Some?;
    }
  }

  /** What leaves the table was resumed. */
  lemma {:induction false} GoneIsResumed(states: seq<System>, run: seq<Action>, c: nat, j: nat, id: nat)
    requires IsRun(states, run) && c <= j <= |run| && id in states[c].loop.ops && id !in states[j].loop.ops
    ensures exists r :: (id, r) in states[j].loop.resumed
  {
    hide Apply, Enabled;
    ExactlyOnce(states, run, c);
    ExactlyOnce(states, run, j);
    NextIdGrows(states, run, c, j);
    RunDiscards(states, run, c, j, id);
    var t := states[j].loop;
    assert WasResumed(t.resumed, id);
    var k :| 0 <= k < |t.resumed| && t.resumed[k].0 == id;
    assert (id, t.resumed[k].1) in t.resumed;
  }

  lemma StepDiscards(y: System, a: Action, id: nat)
    requires Enabled(y, a) && id <= y.loop.nextId && id !in y.loop.discarded
    ensures id !in Apply(y, a).loop.discarded
  {
    hide TimersFor, HandleFor, CancelTimer, TargetsOf, NotDue, PacketOutcome, Orphans, BackedIds, DueInOrder,
      Dispose, CancelOne;
  }

  lemma {:induction false} RunDiscards(states: seq<System>, run: seq<Action>, i: nat, j: nat, id: nat)
    requires IsRun(states, run) && i <= j <= |run| && id <= states[i].loop.nextId && id !in states[i].loop.discarded
    ensures id !in states[j].loop.discarded
    decreases j
  {
    hide Apply, Enabled;
    if i < j {
      RunDiscards(states, run, i, j - 1, id);
      NextIdGrows(states, run, i, j - 1);
      StepDiscards(states[j - 1], run[j - 1], id);
    }
  }
}

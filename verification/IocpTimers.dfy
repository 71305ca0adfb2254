/** What a pinned answer means for a timer, which owes no packet.

The answer pinned on a sleep is delivered unless its wake-up came due while it was
live; then it may be delivered as reached. Nothing else is ever delivered.
*/
module IocpTimers {
  import opened Accounts
  import opened Octets
  import opened Timers
  import opened IocpLoop
  import opened IocpLedger
  import opened IocpRuns
  import opened IocpSafety
  import opened IocpClock

  // ── what a live timer may be listed with ────────────────────────────────────

  /** The sleeps whose wake-up this step takes out of the queue. */
  ghost function SweptBy(y: System, a: Action): (r: set<nat>)
    requires Enabled(y, a)
  {
    if a.Sweep? then TargetWakes(TargetsOf(y.loop.timers, a.keys)) * y.loop.ops.Keys else {}
  }

  /** A live timer is listed with the answer pinned on it, or as reached because
      its wake-up was swept; a wake-up swept and not listed yet is known, too. */
  ghost predicate Fair(y: System, swept: set<nat>)
  {
    && (forall q :: q in ListOf(y.phase) && q.0 in y.loop.ops && !y.loop.ops[q.0].Backed() ==>
          y.loop.ops[q.0].fixed == Some(q.1) || (q.1 == Success && q.0 in swept))
    && (y.phase.Expiring? ==> TargetWakes(y.phase.targets) * y.loop.ops.Keys <= swept)
  }

  /** Lists and targets only shrink, and records keep what decides. */
  ghost predicate Calmer(y: System, z: System)
  {
    && (forall q :: q in ListOf(z.phase) && q.0 in z.loop.ops ==> q in ListOf(y.phase) && q.0 in y.loop.ops)
    && (forall id :: id in z.loop.ops && id in y.loop.ops ==>
          && z.loop.ops[id].kind == y.loop.ops[id].kind
          && (y.loop.ops[id].fixed.Some? ==> z.loop.ops[id].fixed == y.loop.ops[id].fixed))
    && (z.phase.Expiring? ==>
          y.phase.Expiring? && TargetWakes(z.phase.targets) * z.loop.ops.Keys <= TargetWakes(y.phase.targets) * y.loop.ops.Keys)
  }

  lemma FairStays(y: System, z: System, swept: set<nat>)
    requires Fair(y, swept) && Calmer(y, z)
    ensures Fair(z, swept)
  {
  }

  lemma FairSubmit(y: System, a: Action, swept: set<nat>)
    requires Inv(y) && Fair(y, swept) && Enabled(y, a) && (a.StartTransfer? || a.StartAccept? || a.StartTimer?)
    ensures Fair(Apply(y, a), swept)
  {
    var s, z := y.loop, Apply(y, a);
    forall id | id <= s.nextId && id in z.loop.ops ensures id in s.ops && z.loop.ops[id] == s.ops[id] {
      match a
      case StartTransfer(socket, deadline, taken) => SubmitsAside(s, socket, 0, deadline, taken, id, z.loop);
      case StartAccept(socket, deadline, taken) => SubmitsAside(s, socket, 0, deadline, taken, id, z.loop);
      case StartTimer(wakeAt, deadline) => SubmitsAside(s, 0, wakeAt, deadline, true, id, z.loop);
    }
    assert z.phase == y.phase;
    hide SubmitTransfer, SubmitAccept, SubmitTimer, Owned, SocketsKept, Accounted, Quick;
    forall q | q in ListOf(y.phase) ensures q.0 <= s.nextId {
      assert q.0 in Listed(y.phase);
    }
    forall id | id in s.ops ensures id <= s.nextId {
      LiveIsOld(s, y.phase, id);
    }
    FairStays(y, z, swept);
  }

  lemma FairClassify(y: System, swept: set<nat>)
    requires Answered(y) && Fair(y, swept) && Enabled(y, Classify)
    ensures Fair(Apply(y, Classify), swept)
  {
    var p := y.phase.entries[0];
    assert p.Done? ==> p.id in PortIds(y.phase.entries);
    hide PortIds, OnePacketEach, PacketOutcome;
  }

  lemma FairExpire(y: System, swept: set<nat>)
    requires Fair(y, swept) && Enabled(y, Expire)
    ensures Fair(Apply(y, Expire), swept)
  {
    var t := y.phase.targets[0];
    var z := Apply(y, Expire);
    assert t in y.phase.targets;
    assert !t.isDeadline ==> t.operation in TargetWakes(y.phase.targets);
    assert forall u :: u in y.phase.targets[1..] ==> u in y.phase.targets;
    assert TargetWakes(z.phase.targets) <= TargetWakes(y.phase.targets);
    PinAside(y.loop, t.operation, TimedOut);
    assert Pinnable(y.loop, t.operation) ==>
      FixReason(y.loop, t.operation, TimedOut).ops[t.operation].fixed == Some(TimedOut);
    hide FixReason, TargetWakes;
  }

  lemma FairShutdown(y: System, orphans: seq<nat>, swept: set<nat>)
    requires Enabled(y, Shutdown(orphans))
    ensures Fair(Apply(y, Shutdown(orphans)), swept)
  {
    OrphansAnswered(y.loop.ops, orphans);
    hide Orphans, PinAll, BackedIds;
  }

  lemma FairStep(y: System, a: Action, swept: set<nat>)
    requires Inv(y) && Answered(y) && Fair(y, swept) && Enabled(y, a)
    ensures Fair(Apply(y, a), swept + SweptBy(y, a))
  {
    FairMore(Apply(y, a), swept, swept + SweptBy(y, a));
    hide Inv, Answered, Fair, SubmitTransfer, SubmitAccept, SubmitTimer, PacketOutcome, Orphans, BackedIds, DueInOrder;
    match a
    case StartTransfer(_, _, _) => FairSubmit(y, a, swept);
    case StartAccept(_, _, _) => FairSubmit(y, a, swept);
    case StartTimer(_, _) => FairSubmit(y, a, swept);
    case Classify => FairClassify(y, swept);
    case Expire => FairExpire(y, swept);
    case Shutdown(orphans) => FairShutdown(y, orphans, swept);
    case Sweep(now, keys) => FairSweep(y, now, keys, swept);
    case _ => FairOther(y, a, swept);
  }

  lemma FairMore(y: System, swept: set<nat>, more: set<nat>)
    requires swept <= more
    ensures Fair(y, swept) ==> Fair(y, more)
  {
  }

  lemma FairSweep(y: System, now: int, keys: seq<Key>, swept: set<nat>)
    requires Fair(y, swept) && Enabled(y, Sweep(now, keys))
    ensures Fair(Apply(y, Sweep(now, keys)), swept + SweptBy(y, Sweep(now, keys)))
  {
    hide TargetsOf, TargetWakes, NotDue;
  }

  lemma FairOther(y: System, a: Action, swept: set<nat>)
    requires Fair(y, swept) && Enabled(y, a)
    requires !(a.StartTransfer? || a.StartAccept? || a.StartTimer? || a.Classify? || a.Expire? || a.Shutdown? || a.Sweep?)
    ensures Fair(Apply(y, a), swept)
  {
    hide TargetWakes, FixReason, CancelTimer, Dispose;
    match a
    case PinCancel(id) => PinAside(y.loop, id, Cancelled);
    case Deliver =>
      var z := Apply(y, a);
      assert forall q :: q in ListOf(z.phase) ==> q in ListOf(y.phase);
      FairStays(y, z, swept);
    case _ =>
  }

  // ── what a pinned timer is delivered ────────────────────────────────────────

  /** `id` is no longer kernel-backed business: its answer is `r` or, if swept,
      that it reached its time. */
  ghost predicate Fated(y: System, id: nat, r: Outcome, swept: set<nat>)
  {
    && id <= y.loop.nextId
    && (id in y.loop.ops ==> !y.loop.ops[id].Backed() && y.loop.ops[id].fixed == Some(r))
    && (forall k :: 0 <= k < |y.loop.resumed| && y.loop.resumed[k].0 == id ==>
          y.loop.resumed[k].1 == r || (y.loop.resumed[k].1 == Success && id in swept))
  }

  /** The record keeps its kind and its answer, and nobody is delivered. */
  ghost predicate KeepsRecord(y: System, z: System, id: nat)
  {
    && y.loop.nextId <= z.loop.nextId && z.loop.resumed == y.loop.resumed
    && (id in z.loop.ops ==>
          && id in y.loop.ops && z.loop.ops[id].kind == y.loop.ops[id].kind
          && (y.loop.ops[id].fixed.Some? ==> z.loop.ops[id].fixed == y.loop.ops[id].fixed))
  }

  lemma FatedStays(y: System, z: System, id: nat, r: Outcome, swept: set<nat>, more: set<nat>)
    requires Fated(y, id, r, swept) && KeepsRecord(y, z, id) && swept <= more
    ensures Fated(z, id, r, more)
  {
  }

  lemma FatedDeliver(y: System, id: nat, r: Outcome, swept: set<nat>)
    requires Fated(y, id, r, swept) && Fair(y, swept) && Enabled(y, Deliver)
    ensures Fated(Apply(y, Deliver), id, r, swept)
  {
    var q := y.phase.listed[0];
    assert q in ListOf(y.phase);
    hide CancelTimer, Dispose, TargetWakes;
  }

  lemma StepKeepsRecord(y: System, a: Action, id: nat)
    requires Enabled(y, a) && !a.Deliver? && id <= y.loop.nextId
    ensures KeepsRecord(y, Apply(y, a), id)
  {
    hide SubmitTransfer, SubmitAccept, SubmitTimer, FixReason, PacketOutcome, Orphans, BackedIds, DueInOrder,
      TargetsOf, NotDue;
    var z := Apply(y, a).loop;
    match a
    case StartTransfer(socket, deadline, taken) => SubmitsAside(y.loop, socket, 0, deadline, taken, id, z);
    case StartAccept(socket, deadline, taken) => SubmitsAside(y.loop, socket, 0, deadline, taken, id, z);
    case StartTimer(wakeAt, deadline) => SubmitsAside(y.loop, 0, wakeAt, deadline, true, id, z);
    case PinCancel(i) => PinsOnly(y.loop, i, Cancelled);
    case Expire => PinsOnly(y.loop, y.phase.targets[0].operation, TimedOut);
    case _ =>
  }

  lemma PinsOnly(s: Iocp, id: nat, reason: Outcome)
    ensures var t := FixReason(s, id, reason); t == s.(ops := t.ops, timers := t.timers)
    ensures var t := FixReason(s, id, reason);
      && t.ops.Keys == s.ops.Keys
      && forall i :: i in s.ops ==> t.ops[i].kind == s.ops[i].kind && (s.ops[i].fixed.Some? ==> t.ops[i] == s.ops[i])
  {
    PinAside(s, id, reason);
  }

  lemma FatedStep(y: System, a: Action, id: nat, r: Outcome, swept: set<nat>)
    requires Fated(y, id, r, swept) && Fair(y, swept) && Enabled(y, a)
    ensures Fated(Apply(y, a), id, r, swept + SweptBy(y, a))
  {
    if a.Deliver? {
      FatedDeliver(y, id, r, swept);
      hide Apply, Fair;
      assert SweptBy(y, a) == {} && swept + {} == swept;
    } else {
      StepKeepsRecord(y, a, id);
      hide Apply, Fair, SweptBy, KeepsRecord;
      FatedStays(y, Apply(y, a), id, r, swept, swept + SweptBy(y, a));
    }
  }

  /** Every sleep swept before point `j`. */
  ghost function Swept(states: seq<System>, run: seq<Action>, j: nat): (r: set<nat>)
    requires IsRun(states, run) && j <= |run|
  {
    if j == 0 then {} else Swept(states, run, j - 1) + SweptBy(states[j - 1], run[j - 1])
  }

  lemma {:induction false} RunFair(states: seq<System>, run: seq<Action>, j: nat)
    requires IsRun(states, run) && j <= |run|
    ensures Fair(states[j], Swept(states, run, j))
  {
    hide Apply, Enabled, Inv, Answered, SweptBy;
    if j == 0 {
      NobodyListed();
    } else {
      hide Fair;
      RunFair(states, run, j - 1);
      RunKeeps(states, run, j - 1);
      RunAnswers(states, run, j - 1);
      FairStep(states[j - 1], run[j - 1], Swept(states, run, j - 1));
    }
  }

  lemma NobodyListed()
    ensures Fair(Start(), {})
  {
  }

  lemma {:induction false} RunFated(states: seq<System>, run: seq<Action>, i: nat, j: nat, id: nat, r: Outcome)
    requires IsRun(states, run) && i <= j <= |run| && Fated(states[i], id, r, Swept(states, run, i))
    ensures Fated(states[j], id, r, Swept(states, run, j))
    decreases j
  {
    hide Apply, Enabled, Fair, SweptBy, Fated;
    if i < j {
      RunFated(states, run, i, j - 1, id, r);
      RunFair(states, run, j - 1);
      FatedStep(states[j - 1], run[j - 1], id, r, Swept(states, run, j - 1));
    }
  }

  /** At step `k` the loop took the wake-up of the live sleep `id`, which was due. */
  ghost predicate WokeAt(states: seq<System>, run: seq<Action>, k: nat, id: nat)
    requires IsRun(states, run) && k < |run|
  {
    && run[k].Sweep? && id in states[k].loop.ops
    && var wake := states[k].loop.ops[id].wake;
       wake.Some? && wake.value in run[k].keys && wake.value.deadline <= run[k].now
  }

  lemma {:induction false} SweptWoke(states: seq<System>, run: seq<Action>, j: nat, id: nat) returns (k: nat)
    requires IsRun(states, run) && j <= |run| && id in Swept(states, run, j)
    ensures k < j && WokeAt(states, run, k, id)
  {
    hide Apply;
    if id in SweptBy(states[j - 1], run[j - 1]) {
      k := j - 1;
      RunClocked(states, run, k);
      var timers, keys := states[k].loop.timers, run[k].keys;
      var t :| t in TargetsOf(timers, keys) && !t.isDeadline && t.operation == id;
      var m :| 0 <= m < |keys| && timers[keys[m]] == t;
      assert keys[m] in keys;
    } else {
      k := SweptWoke(states, run, j - 1, id);
    }
  }

  /** A timer is delivered the reason pinned on it, or that it reached its time;
      and that only if its wake-up was due and swept while it was live. */
  lemma {:induction false} PinnedTimerDelivered(
      states: seq<System>, run: seq<Action>, i: nat, j: nat, id: nat, r: Outcome, o: Outcome)
    requires IsRun(states, run) && i <= j <= |run| && (id, o) in states[j].loop.resumed
    requires id in states[i].loop.ops && !states[i].loop.ops[id].Backed() && states[i].loop.ops[id].fixed == Some(r)
    ensures o == r || (o == Success && exists k: nat :: k < j && WokeAt(states, run, k, id))
  {
    hide Apply, Enabled, Fair, WokeAt;
    RunKeeps(states, run, i);
    PinnedIsFated(states[i], id, r, Swept(states, run, i));
    hide Inv;
    RunFated(states, run, i, j, id, r);
    if o != r {
      var k := SweptWoke(states, run, j, id);
    }
  }

  lemma PinnedIsFated(y: System, id: nat, r: Outcome, swept: set<nat>)
    requires Inv(y) && id in y.loop.ops && !y.loop.ops[id].Backed() && y.loop.ops[id].fixed == Some(r)
    ensures Fated(y, id, r, swept)
  {
    LiveIsOld(y.loop, y.phase, id);
    assert id in y.loop.ops.Keys;
    hide Owned, SocketsKept, Quick;
  }
}

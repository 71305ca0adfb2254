/** What a batch of the completion-port loop comes to for a sleep, and that a
cancelled sleep is resumed. */
module IocpSleeps {
  import opened Accounts
  import opened Octets
  import opened Timers
  import opened IocpLoop
  import opened IocpLedger
  import opened IocpRuns
  import opened IocpSafety
  import opened IocpClock
  import opened IocpRequests
  import opened IocpCompletions

  // ── which of a record's timers strikes first ────────────────────────────────

  predicate Strikes(t: Target, id: nat, wakesOnly: bool)
  {
    t.operation == id && (!wakesOnly || !t.isDeadline)
  }

  /** What the first of these targets that counts for `id` makes of it. */
  function FirstStrike(targets: seq<Target>, id: nat, wakesOnly: bool): (o: Option<Outcome>)
  {
    if targets == [] then None
    else if Strikes(targets[0], id, wakesOnly) then Some(if targets[0].isDeadline then TimedOut else Success)
    else FirstStrike(targets[1..], id, wakesOnly)
  }

  lemma {:induction false} FirstStrikeAt(targets: seq<Target>, id: nat, wakesOnly: bool, i: nat)
    requires i <= |targets| && forall k :: 0 <= k < i ==> !Strikes(targets[k], id, wakesOnly)
    requires i < |targets| ==> Strikes(targets[i], id, wakesOnly)
    ensures FirstStrike(targets, id, wakesOnly) ==
              if i == |targets| then None else Some(if targets[i].isDeadline then TimedOut else Success)
  {
    if i > 0 {
      FirstStrikeAt(targets[1..], id, wakesOnly, i - 1);
    }
  }

  lemma FirstStrikeIndex(targets: seq<Target>, id: nat, wakesOnly: bool) returns (i: nat)
    ensures i <= |targets| && forall k :: 0 <= k < i ==> !Strikes(targets[k], id, wakesOnly)
    ensures i < |targets| ==> Strikes(targets[i], id, wakesOnly)
  {
    i := 0;
    while i < |targets| && !Strikes(targets[i], id, wakesOnly)
      invariant i <= |targets| && forall k :: 0 <= k < i ==> !Strikes(targets[k], id, wakesOnly)
    {
      i := i + 1;
    }
  }

  /** Where a due handle of `id` stands among the targets. */
  lemma TargetIndex(s: Iocp, now: int, keys: seq<Key>, id: nat, k: Key) returns (i: nat)
    requires Named(s.ops, s.timers) && Unshared(s.ops, s.serial) && DueInOrder(s.timers, now, keys)
    requires id in s.ops && Owns(s.ops[id], k) && k in s.timers && k.deadline <= now
    ensures i < |keys| && keys[i] == k && TargetsOf(s.timers, keys)[i] == Target(id, s.ops[id].deadline == Some(k))
  {
    assert k in keys;
    NameOf(s.ops, s.timers, s.serial, id, k);
    i :| 0 <= i < |keys| && keys[i] == k;
  }

  /** The targets of a sweep, as far as `id` goes: its wake-up or its deadline,
      whichever is due first. */
  lemma {:induction false} StrikesInOrder(s: Iocp, now: int, keys: seq<Key>, id: nat, wakesOnly: bool)
    requires Named(s.ops, s.timers) && Unshared(s.ops, s.serial) && DueInOrder(s.timers, now, keys) && id in s.ops
    requires s.ops[id].wake.Some? && s.ops[id].wake.value in s.timers
    requires !wakesOnly && s.ops[id].deadline.Some? ==> s.ops[id].deadline.value in s.timers
    ensures var op := s.ops[id];
      var deadline := if !wakesOnly && op.deadline.Some? then Some(op.deadline.value.deadline) else None;
      FirstStrike(TargetsOf(s.timers, keys), id, wakesOnly) == SleepOutcome(op.wake.value.deadline, deadline, now, false)
  {
    var op, targets := s.ops[id], TargetsOf(s.timers, keys);
    var wake := op.wake.value;
    var i := FirstStrikeIndex(targets, id, wakesOnly);
    FirstStrikeAt(targets, id, wakesOnly, i);
    hide FirstStrike;
    assert Owns(op, wake) && op.deadline != Some(wake);
    if wake.deadline <= now {
      var a := TargetIndex(s, now, keys, id, wake);
      assert Strikes(targets[a], id, wakesOnly);
    }
    if !wakesOnly && op.deadline.Some? && op.deadline.value.deadline <= now {
      var b := TargetIndex(s, now, keys, id, op.deadline.value);
      assert Strikes(targets[b], id, wakesOnly);
    }
    if i < |keys| {
      assert keys[i] in keys && HandleOf(op, s.timers[keys[i]]) == Some(keys[i]);
    }
  }

  // ── the rest of a batch, as far as one sleep goes ───────────────────────────

  /** What the rest of the sweep holds for `id`, if it is not listed yet. */
  function Upcoming(op: Operation, targets: seq<Target>, cancels: seq<nat>, id: nat): (o: Option<Outcome>)
  {
    var strike := FirstStrike(targets, id, op.fixed.Some?);
    if strike.Some? then strike
    else if id in cancels then op.fixed
    else None
  }

  ghost function Upshot(y: System, id: nat): (o: Option<Outcome>)
    requires id in y.loop.ops
  {
    match y.phase
    case Expiring(targets, cancels, listed) =>
      if FirstMention(listed, id).Some? then FirstMention(listed, id)
      else Upcoming(y.loop.ops[id], targets, cancels, id)
    case Delivering(listed, _) => FirstMention(listed, id)
    case _ => None
  }

  /** The batch at hand will resume, or has resumed, `id` with `v`; or leaves it. */
  ghost predicate Foretold(y: System, id: nat, v: Option<Outcome>)
  {
    && id <= y.loop.nextId
    && (forall r :: (id, r) in y.loop.resumed <==> id !in y.loop.ops && v == Some(r))
    && (id in y.loop.ops ==> !y.loop.ops[id].Backed() && Upshot(y, id) == v)
    && (id !in y.loop.ops ==> v.Some?)
  }

  lemma ForetoldStays(y: System, z: System, id: nat, v: Option<Outcome>)
    requires Foretold(y, id, v) && y.loop.nextId <= z.loop.nextId && z.loop.resumed == y.loop.resumed
    requires id in z.loop.ops <==> id in y.loop.ops
    requires id in z.loop.ops ==> z.loop.ops[id].kind == y.loop.ops[id].kind && Upshot(z, id) == Upshot(y, id)
    ensures Foretold(z, id, v)
  {
    hide Upshot;
  }

  lemma ForetoldExpire(y: System, id: nat, v: Option<Outcome>)
    requires Foretold(y, id, v) && Enabled(y, Expire)
    ensures Foretold(Apply(y, Expire), id, v)
  {
    var t, z := y.phase.targets[0], Apply(y, Expire);
    var found := ExpireOne(y.loop, t).1;
    PinAside(y.loop, t.operation, TimedOut);
    assert z.loop.nextId == y.loop.nextId && z.loop.resumed == y.loop.resumed;
    if id in y.loop.ops {
      FirstMentionAppend(y.phase.listed, found, id);
      StrikeTaken(y, id);
    }
    hide FirstMention, FirstStrike, FixReason;
    ForetoldStays(y, z, id, v);
  }

  lemma {:induction false} StrikeTaken(y: System, id: nat)
    requires Enabled(y, Expire) && id in y.loop.ops && !y.loop.ops[id].Backed()
    ensures var t := y.phase.targets[0]; var (s1, found) := ExpireOne(y.loop, t);
      && id in s1.ops
      && Upcoming(y.loop.ops[id], y.phase.targets, y.phase.cancels, id)
           == if FirstMention(found, id).Some? then FirstMention(found, id)
              else Upcoming(s1.ops[id], y.phase.targets[1..], y.phase.cancels, id)
  {
    var t := y.phase.targets[0];
    var found := ExpireOne(y.loop, t).1;
    assert found != [] ==> found[1..] == [];
  }

  lemma ForetoldCancel(y: System, id: nat, v: Option<Outcome>)
    requires Foretold(y, id, v) && Enabled(y, Cancel)
    ensures Foretold(Apply(y, Cancel), id, v)
  {
    var i, z := y.phase.cancels[0], Apply(y, Cancel);
    var found := CancelOne(y.loop, i);
    if id in y.loop.ops {
      FirstMentionAppend(y.phase.listed, found, id);
      assert found != [] ==> found[1..] == [];
      assert y.phase.cancels == [i] + y.phase.cancels[1..];
      assert FirstStrike([], id, y.loop.ops[id].fixed.Some?) == None;
    }
    ForetoldStays(y, z, id, v);
  }

  lemma ForetoldDeliver(y: System, id: nat, v: Option<Outcome>)
    requires Foretold(y, id, v) && Enabled(y, Deliver)
    ensures Foretold(Apply(y, Deliver), id, v)
  {
    var z := Apply(y, Deliver);
    var (i, o) := y.phase.listed[0];
    if i in y.loop.ops {
      assert z.loop.ops == y.loop.ops - {i} && z.loop.resumed == y.loop.resumed + [(i, o)];
      assert z.loop.nextId == y.loop.nextId;
    }
    hide Take, Dispose;
    if id in y.loop.ops {
      assert FirstMention(y.phase.listed, id) == if i == id then Some(o) else FirstMention(y.phase.listed[1..], id);
    }
    hide FirstMention;
  }

  lemma ForetoldSubmit(y: System, a: Action, id: nat, v: Option<Outcome>)
    requires Inv(y) && Foretold(y, id, v) && Enabled(y, a) && (a.StartTransfer? || a.StartAccept? || a.StartTimer?)
    ensures Foretold(Apply(y, a), id, v)
  {
    hide Inv, Upcoming, FirstMention, Apply, Enabled;
    var z := Apply(y, a);
    SubmitBooks(y, a);
    StepNextId(y, a);
    if id in y.loop.ops { StepFrees(y, a, id); }
    if id in z.loop.ops { SubmitRecord(y, a, id); }
    ForetoldStays(y, z, id, v);
  }

  /** Inside the batch, and nobody cancels `id`. */
  predicate Undisturbed(a: Action, id: nat)
  {
    a != PinCancel(id) && !a.EndDelivery?
  }

  lemma ForetoldOther(y: System, a: Action, id: nat, v: Option<Outcome>)
    requires Foretold(y, id, v) && Enabled(y, a) && Undisturbed(a, id) && (y.phase.Expiring? || y.phase.Delivering?)
    requires !a.StartTransfer? && !a.StartAccept? && !a.StartTimer? && !a.Expire? && !a.Cancel? && !a.Deliver?
    ensures Foretold(Apply(y, a), id, v)
  {
    hide FirstMention, FirstStrike, FixReason, BackedIds, TargetsOf, NotDue, PacketOutcome, Orphans, DueInOrder;
    var z := Apply(y, a);
    if a.PinCancel? {
      PinAside(y.loop, a.id, Cancelled);
      assert z.loop.nextId == y.loop.nextId && z.loop.resumed == y.loop.resumed by { PinBooks(y.loop, a.id); }
      PinElsewhere(y.loop, a.id, id);
    } else if a.BeginDelivery? {
      assert id in y.loop.ops ==> FirstStrike([], id, y.loop.ops[id].fixed.Some?) == None by { NoStrike(id); }
    }
    ForetoldStays(y, z, id, v);
  }

  lemma {:induction false} NoStrike(id: nat)
    ensures FirstStrike([], id, true) == FirstStrike([], id, false) == None
  {
  }

  lemma PinBooks(s: Iocp, i: nat)
    ensures RequestCancel(s, i).nextId == s.nextId && RequestCancel(s, i).resumed == s.resumed
  {
  }

  lemma PinElsewhere(s: Iocp, i: nat, id: nat)
    requires i != id
    ensures id in s.ops ==> id in RequestCancel(s, i).ops && RequestCancel(s, i).ops[id] == s.ops[id]
  {
  }

  lemma ForetoldStep(y: System, a: Action, id: nat, v: Option<Outcome>)
    requires Inv(y) && Foretold(y, id, v) && Enabled(y, a) && Undisturbed(a, id) && (y.phase.Expiring? || y.phase.Delivering?)
    ensures Foretold(Apply(y, a), id, v)
    ensures var p := Apply(y, a).phase; p.Expiring? || p.Delivering?
  {
    PhaseStays(y, a);
    hide Apply, Inv, Foretold;
    match a
    case StartTransfer(_, _, _) => ForetoldSubmit(y, a, id, v);
    case StartAccept(_, _, _) => ForetoldSubmit(y, a, id, v);
    case StartTimer(_, _) => ForetoldSubmit(y, a, id, v);
    case Expire => ForetoldExpire(y, id, v);
    case Cancel => ForetoldCancel(y, id, v);
    case Deliver => ForetoldDeliver(y, id, v);
    case _ => ForetoldOther(y, a, id, v);
  }

  lemma PhaseStays(y: System, a: Action)
    requires Enabled(y, a) && !a.EndDelivery? && (y.phase.Expiring? || y.phase.Delivering?)
    ensures var p := Apply(y, a).phase; p.Expiring? || p.Delivering?
  {
    hide BackedIds, TargetsOf, NotDue, PacketOutcome, Orphans, DueInOrder, ExpireOne, CancelOne;
  }

  lemma {:induction false} RunForetold(states: seq<System>, run: seq<Action>, i: nat, j: nat, id: nat, v: Option<Outcome>)
    requires IsRun(states, run) && i <= j <= |run| && Foretold(states[i], id, v) && states[i].phase.Expiring?
    requires forall k :: i <= k < j ==> Undisturbed(run[k], id)
    ensures Foretold(states[j], id, v)
    ensures states[j].phase.Expiring? || states[j].phase.Delivering?
    decreases j
  {
    hide Apply, Enabled, Inv, Foretold;
    if i < j {
      RunForetold(states, run, i, j - 1, id, v);
      RunKeeps(states, run, j - 1);
      ForetoldStep(states[j - 1], run[j - 1], id, v);
    }
  }

  // ── whoever was given an answer is pursued ──────────────────────────────────

  ghost function Asked(p: Phase): (r: seq<nat>)
  {
    if p.Expiring? then p.cancels else []
  }

  /** Somebody is about to resolve `id` without a packet. */
  ghost predicate Sought(y: System, id: nat)
  {
    id in y.loop.pushing || id in y.loop.cancels || id in Asked(y.phase)
  }

  /** A sleep with an answer is listed, or somebody is about to see to that; one
      whose deadline struck is listed already. Nobody seeks a sleep without one. */
  predicate Pursued(op: Operation, sought: bool, listed: bool)
  {
    !op.Backed() ==>
      && (op.fixed.Some? ==> sought || listed)
      && (op.fixed == Some(TimedOut) ==> listed)
      && (sought ==> op.fixed.Some?)
  }

  ghost predicate AllPursued(y: System)
  {
    forall id :: id in y.loop.ops ==> Pursued(y.loop.ops[id], Sought(y, id), id in Ids(ListOf(y.phase)))
  }

  /** While packets are taken up only operations that owed one are listed. */
  ghost predicate OnlyBacked(y: System)
  {
    y.phase.Classifying? ==> forall q :: q in y.phase.listed && q.0 in y.loop.ops ==> y.loop.ops[q.0].Backed()
  }

  lemma OnlyBackedStep(y: System, a: Action)
    requires Answered(y) && OnlyBacked(y) && Enabled(y, a)
    ensures OnlyBacked(Apply(y, a))
  {
    var z := Apply(y, a);
    if y.phase.Classifying? {
      assert forall i, reason :: FixReason(y.loop, i, reason).ops.Keys == y.loop.ops.Keys;
      hide SubmitTransfer, SubmitAccept, SubmitTimer, Finalize, BeginShutdown, Orphans, BackedIds, DueInOrder,
        TargetsOf, NotDue;
      if a.Classify? {
        PortHead(y.phase.entries);
      } else if a.PinCancel? {
        PinAside(y.loop, a.id, Cancelled);
      }
      hide PortIds, OnePacketEach, PacketOutcome, FixReason;
    }
  }

  lemma {:induction false} RunOnlyBacked(states: seq<System>, run: seq<Action>, j: nat)
    requires IsRun(states, run) && j <= |run|
    ensures OnlyBacked(states[j])
  {
    hide Apply, Enabled, Answered;
    if j > 0 {
      hide OnlyBacked;
      RunOnlyBacked(states, run, j - 1);
      RunAnswers(states, run, j - 1);
      OnlyBackedStep(states[j - 1], run[j - 1]);
    }
  }

  lemma PursuedPin(y: System, i: nat)
    requires AllPursued(y)
    ensures AllPursued(Apply(y, PinCancel(i)))
  {
    hide Ids, ListOf, Asked;
  }

  lemma PursuedExpire(y: System)
    requires AllPursued(y) && Enabled(y, Expire)
    ensures AllPursued(Apply(y, Expire))
  {
    var t, z := y.phase.targets[0], Apply(y, Expire);
    var found := ExpireOne(y.loop, t).1;
    ListMore(y.phase.listed, found);
    assert found != [] ==> found[0] in found && found[0].0 == t.operation;
    assert found != [] ==> t.operation in Ids(found);
    hide Ids;
  }

  lemma PursuedCancel(y: System)
    requires AllPursued(y) && Enabled(y, Cancel)
    ensures AllPursued(Apply(y, Cancel))
  {
    var i, z := y.phase.cancels[0], Apply(y, Cancel);
    var found := CancelOne(y.loop, i);
    ListMore(y.phase.listed, found);
    assert found != [] ==> found[0] in found;
    assert y.phase.cancels == [i] + y.phase.cancels[1..];
    forall id | id in z.loop.ops ensures Pursued(z.loop.ops[id], Sought(z, id), id in Ids(ListOf(z.phase))) {
      assert Pursued(y.loop.ops[id], Sought(y, id), id in Ids(ListOf(y.phase)));
    }
    hide Ids;
  }

  lemma PursuedDeliver(y: System)
    requires AllPursued(y) && Enabled(y, Deliver)
    ensures AllPursued(Apply(y, Deliver))
  {
    var z := Apply(y, Deliver);
    var q, tail := y.phase.listed[0], y.phase.listed[1..];
    assert y.phase.listed == [q] + tail;
    ListMore([q], tail);
    assert Ids([q]) == {q.0} by { assert [q][0] == q; }
    hide CancelTimer, Dispose, Ids;
  }

  lemma PursuedShutdown(y: System, orphans: seq<nat>)
    requires Enabled(y, Shutdown(orphans))
    ensures AllPursued(Apply(y, Shutdown(orphans)))
  {
    var list := Orphans(y.loop.ops, orphans);
    forall id | id in y.loop.ops ensures id in Ids(list) {
      var k :| 0 <= k < |orphans| && orphans[k] == id;
      assert list[k] in list && list[k].0 == id;
    }
    hide Ids, Orphans, BackedIds;
  }

  lemma SoughtIsOld(y: System, id: nat)
    requires Inv(y) && Sought(y, id)
    ensures id <= y.loop.nextId
  {
    assert id in QuickIds(y.loop, y.phase);
    hide Owned, SocketsKept, Accounted, QuickIds;
  }

  lemma PursuedSubmit(y: System, a: Action)
    requires Inv(y) && AllPursued(y) && Enabled(y, a) && (a.StartTransfer? || a.StartAccept? || a.StartTimer?)
    ensures AllPursued(Apply(y, a))
  {
    hide Inv, Ids, Pursued, Apply, Enabled;
    SubmitBooks(y, a);
    var s, z := y.loop, Apply(y, a);
    forall id | id in z.loop.ops ensures Pursued(z.loop.ops[id], Sought(z, id), id in Ids(ListOf(z.phase))) {
      if id <= s.nextId {
        SubmitRecord(y, a, id);
        assert Pursued(s.ops[id], Sought(y, id), id in Ids(ListOf(y.phase)));
      } else {
        LiveIsKnown(y, id);
        if Sought(y, id) { SoughtIsOld(y, id); }
        NoAnswerYet(z.loop.ops[id], id in Ids(ListOf(z.phase)));
      }
    }
  }

  lemma NoAnswerYet(op: Operation, listed: bool)
    requires op.fixed.None?
    ensures Pursued(op, false, listed)
  {
  }

  lemma LiveIsKnown(y: System, id: nat)
    requires Inv(y)
    ensures id in y.loop.ops ==> id <= y.loop.nextId
  {
    if id in y.loop.ops { LiveIsOld(y.loop, y.phase, id); }
    hide Owned, SocketsKept, Rest;
  }

  lemma SubmitBooks(y: System, a: Action)
    requires Enabled(y, a) && (a.StartTransfer? || a.StartAccept? || a.StartTimer?)
    ensures var s, t := y.loop, Apply(y, a).loop;
      && t.pushing == s.pushing && t.cancels == s.cancels && t.resumed == s.resumed && Apply(y, a).phase == y.phase
      && forall id :: id in t.ops && id > s.nextId ==> t.ops[id].fixed.None? || id in s.ops
  {
    hide TimersFor, HandleFor, CancelTimer;
  }

  lemma PursuedOther(y: System, a: Action)
    requires AllPursued(y) && Enabled(y, a)
    requires a.CloseHandle? || a.PushCancel? || a.Complete? || a.PostWakeup? || a.Dequeue? || a.Sweep?
             || a.BeginDelivery? || a.RunPosted? || a.Return? || a.EndDelivery? || a.Drain? || a.Drained?
    ensures AllPursued(Apply(y, a))
  {
    hide Ids, TargetsOf, NotDue, DueInOrder;
    assert Ids([]) == {} by { NobodyIn(); }
    var z := Apply(y, a);
    forall id | id in z.loop.ops ensures Pursued(z.loop.ops[id], Sought(z, id), id in Ids(ListOf(z.phase))) {
      assert Pursued(y.loop.ops[id], Sought(y, id), id in Ids(ListOf(y.phase)));
    }
  }

  lemma PursuedClassify(y: System)
    requires Answered(y) && AllPursued(y) && Enabled(y, Classify)
    ensures AllPursued(Apply(y, Classify))
  {
    var p, z := y.phase.entries[0], Apply(y, Classify);
    PortHead(y.phase.entries);
    var found := if p.Done? then [(p.id, PacketOutcome(y.loop, p.id, p.status))] else [];
    ListMore(y.phase.listed, found);
    assert Ids(found) == if p.Done? then {p.id} else {};
    hide PortIds, PacketOutcome, Ids, OnePacketEach;
  }

  lemma PursuedStep(y: System, a: Action)
    requires Inv(y) && Answered(y) && AllPursued(y) && Enabled(y, a)
    ensures AllPursued(Apply(y, a))
  {
    hide Inv, Answered, AllPursued, Apply, Enabled;
    match a
    case StartTransfer(_, _, _) => PursuedSubmit(y, a);
    case StartAccept(_, _, _) => PursuedSubmit(y, a);
    case StartTimer(_, _) => PursuedSubmit(y, a);
    case PinCancel(i) => PursuedPin(y, i);
    case Classify => PursuedClassify(y);
    case Expire => PursuedExpire(y);
    case Cancel => PursuedCancel(y);
    case Deliver => PursuedDeliver(y);
    case Shutdown(orphans) => PursuedShutdown(y, orphans);
    case _ => PursuedOther(y, a);
  }

  lemma {:induction false} RunPursued(states: seq<System>, run: seq<Action>, j: nat)
    requires IsRun(states, run) && j <= |run|
    ensures AllPursued(states[j])
  {
    hide Apply, Enabled, Inv, Answered;
    if j > 0 {
      hide AllPursued;
      RunPursued(states, run, j - 1);
      RunKeeps(states, run, j - 1);
      RunAnswers(states, run, j - 1);
      PursuedStep(states[j - 1], run[j - 1]);
    }
  }

  // ── what a sleep comes to ───────────────────────────────────────────────────

  /** The cancellation of `id` was queued between the two points. */
  ghost predicate Pushed(run: seq<Action>, i: nat, j: nat, id: nat)
    requires j <= |run|
  {
    exists k :: i <= k < j && run[k] == PushCancel(id)
  }

  /** A sweep at `i` and the end of its batch at `j`; nobody cancels `id` meanwhile. */
  ghost predicate SweepAndEnd(states: seq<System>, run: seq<Action>, i: nat, j: nat, id: nat)
    requires IsRun(states, run)
  {
    && i + 1 < j <= |run| && run[i].Sweep? && run[j - 1].EndDelivery?
    && forall k :: i < k < j - 1 ==> Undisturbed(run[k], id)
  }

  /** Pushing stops with the push, for good. */
  lemma StepPushes(y: System, a: Action, id: nat)
    requires Enabled(y, a) && id <= y.loop.nextId
    ensures var z := Apply(y, a);
      && (id in z.loop.cancels ==> id in y.loop.cancels || a == PushCancel(id))
      && (a == PushCancel(id) ==> id !in z.loop.pushing && id in z.loop.cancels)
      && (id in z.loop.pushing ==> id in y.loop.pushing || (id in y.loop.ops && y.loop.ops[id].fixed.None?))
  {
    hide TimersFor, HandleFor, CancelTimer, TargetsOf, NotDue, PacketOutcome, Orphans, BackedIds, DueInOrder,
      Dispose, CancelOne;
  }

  lemma {:induction false} CancelsPushed(states: seq<System>, run: seq<Action>, i: nat, j: nat, id: nat)
    requires IsRun(states, run) && i <= j <= |run| && id <= states[i].loop.nextId
    requires id !in states[i].loop.cancels && id in states[j].loop.cancels
    ensures Pushed(run, i, j, id)
    decreases j
  {
    hide Apply, Enabled;
    if i < j {
      NextIdGrows(states, run, i, j - 1);
      StepPushes(states[j - 1], run[j - 1], id);
      if id in states[j - 1].loop.cancels {
        CancelsPushed(states, run, i, j - 1, id);
      } else {
        assert run[j - 1] == PushCancel(id);
      }
    }
  }

  lemma {:induction false} PushedOnce(states: seq<System>, run: seq<Action>, i: nat, j: nat, id: nat)
    requires IsRun(states, run) && i < j <= |run| && run[i] == PushCancel(id) && id <= states[i].loop.nextId
    requires id in states[i].loop.ops && states[i].loop.ops[id].fixed.Some?
    ensures id !in states[j].loop.pushing && (id in states[j].loop.ops ==> states[j].loop.ops[id].fixed.Some?)
    decreases j
  {
    hide Apply, Enabled;
    NextIdGrows(states, run, i, j - 1);
    StepPushes(states[j - 1], run[j - 1], id);
    if i < j - 1 {
      PushedOnce(states, run, i, j - 1, id);
    }
    if id in states[j].loop.ops {
      StepRecord(states[j - 1], run[j - 1], id);
    }
  }

  lemma {:induction false} Unlisted(y: System, id: nat)
    requires OnlyBacked(y) && y.phase.Classifying? && id in y.loop.ops && !y.loop.ops[id].Backed()
    ensures id !in Ids(y.phase.listed) && FirstMention(y.phase.listed, id).None?
  {
    NeverMentioned(y.phase.listed, id);
  }

  /** Before a sweep a sleep that is still there has an answer exactly if somebody
      cancelled it, and is on the list of requests exactly if that was queued. */
  lemma {:induction false} SleepBefore(states: seq<System>, run: seq<Action>, m: nat, i: nat, id: nat)
    requires IsRun(states, run) && m < i <= |run| && Submitted(states, run, m, id) && run[m].StartTimer?
    requires states[i].phase.Classifying? && id in states[i].loop.ops
    ensures var op := states[i].loop.ops[id];
      && !op.Backed() && id !in Ids(states[i].phase.listed)
      && op.fixed == (if CalledOff(run, m + 1, i, id) then Some(Cancelled) else None)
      && (id in states[i].loop.cancels <==> Pushed(run, m + 1, i, id))
      && (op.fixed.Some? <==> id in states[i].loop.cancels || id in states[i].loop.pushing)
  {
    hide Apply, Enabled, Passed, Ids;
    var y, op := states[i], states[i].loop.ops[id];
    RecordKept(states, run, m, i, id);
    RunOnlyBacked(states, run, i);
    Unlisted(y, id);
    RunPursued(states, run, i);
    assert Pursued(op, Sought(y, id), false);
    if op.fixed.Some? {
      AnswerWhy(states, run, m, i, id);
    }
    if CalledOff(run, m + 1, i, id) {
      var k :| m + 1 <= k < i && (run[k] == PinCancel(id) || run[k].Shutdown?);
      assert PinOf(states[k], run[k], id).Some?;
    }
    if id in y.loop.cancels {
      NotAskedYet(states, run, m, id);
      CancelsPushed(states, run, m + 1, i, id);
    }
    if Pushed(run, m + 1, i, id) {
      var k :| m + 1 <= k < i && run[k] == PushCancel(id);
      WasSought(states, run, m, k, i, id);
      PushedOnce(states, run, k, i, id);
    }
  }

  lemma NotAskedYet(states: seq<System>, run: seq<Action>, m: nat, id: nat)
    requires IsRun(states, run) && Submitted(states, run, m, id)
    ensures id <= states[m + 1].loop.nextId && id !in states[m + 1].loop.cancels
  {
    RunKeeps(states, run, m);
    RecordMade(states[m], run[m]);
    SubmitBooks(states[m], run[m]);
    if Sought(states[m], id) { SoughtIsOld(states[m], id); }
    hide Inv, Apply, Enabled;
  }

  lemma WasSought(states: seq<System>, run: seq<Action>, m: nat, k: nat, i: nat, id: nat)
    requires IsRun(states, run) && m < k < i <= |run| && Submitted(states, run, m, id) && run[m].StartTimer?
    requires run[k] == PushCancel(id) && id in states[i].loop.ops
    ensures id <= states[k].loop.nextId && id in states[k].loop.ops && states[k].loop.ops[id].fixed.Some?
  {
    hide Apply, Ids;
    RecordKept(states, run, m, k, id);
    NextIdGrows(states, run, m + 1, k);
    LiveBefore(states, run, k, i, id);
    RunPursued(states, run, k);
    assert Pursued(states[k].loop.ops[id], Sought(states[k], id), id in Ids(ListOf(states[k].phase)));
  }

  lemma SweepForetells(y: System, now: int, keys: seq<Key>, id: nat)
    requires Inv(y) && Clocked(y) && OnlyBacked(y) && Enabled(y, Sweep(now, keys)) && id in y.loop.ops && !y.loop.ops[id].Backed()
    requires y.loop.ops[id].wake.Some?
    ensures var op := y.loop.ops[id];
      var deadline := if op.fixed.None? && op.deadline.Some? then Some(op.deadline.value.deadline) else None;
      var clock := SleepOutcome(op.wake.value.deadline, deadline, now, false);
      Foretold(Apply(y, Sweep(now, keys)), id,
               if clock.Some? then clock else if id in y.loop.cancels then op.fixed else None)
  {
    var op := y.loop.ops[id];
    Unlisted(y, id);
    assert Ticking(op, y.loop.timers, [], id in Ids(y.phase.listed), id);
    hide Ids, TargetsOf, NotDue, SleepOutcome, FirstMention, FirstStrike, InOrder, AllTick;
    StrikesInOrder(y.loop, now, keys, id, op.fixed.Some?);
    LiveIsKnown(y, id);
    NotYetResumed(y.loop, y.phase, id);
    hide Inv, Clocked, DueInOrder, Ticking;
  }

  /** A sleep still there when the loop looks at the clock: if nobody cancelled it,
      the time that came first decides. If somebody did, its deadline no longer
      counts, and it is resumed as cancelled once that is queued, unless its
      wake-up has come. */
  lemma {:induction false} SleepDelivered(states: seq<System>, run: seq<Action>, m: nat, i: nat, j: nat, id: nat)
    requires IsRun(states, run) && m < i && Submitted(states, run, m, id) && run[m].StartTimer?
    requires SweepAndEnd(states, run, i, j, id) && id in states[i].loop.ops
    ensures var off := CalledOff(run, m + 1, i, id);
      var o := SleepOutcome(run[m].wakeAt, if off then None else run[m].deadline, run[i].now, Pushed(run, m + 1, i, id));
      && (o.None? <==> id in states[j].loop.ops)
      && (forall r :: (id, r) in states[j].loop.resumed <==> o == Some(r))
  {
    hide Apply, Clocked, OnlyBacked, Inv, CalledOff, Pushed, Ids;
    var y, now := states[i], run[i].now;
    SleepBefore(states, run, m, i, id);
    RecordKept(states, run, m, i, id);
    FollowedMeans(states, run, m, i, id);
    hide Followed;
    RunKeeps(states, run, i);
    RunClocked(states, run, i);
    RunOnlyBacked(states, run, i);
    SweepForetells(y, now, run[i].keys, id);
    var op := y.loop.ops[id];
    var deadline := if op.fixed.None? && op.deadline.Some? then Some(op.deadline.value.deadline) else None;
    var clock := SleepOutcome(op.wake.value.deadline, deadline, now, false);
    var v := if clock.Some? then clock else if id in y.loop.cancels then op.fixed else None;
    assert states[i + 1].phase.Expiring? by { SweepExpires(y, run[i]); }
    RunForetold(states, run, i + 1, j - 1, id, v);
    EndReached(states[j - 1], id, v);
  }

  lemma SweepExpires(y: System, a: Action)
    requires Enabled(y, a) && a.Sweep?
    ensures y.phase.Classifying? && Apply(y, a).phase.Expiring?
  {
    hide TargetsOf, NotDue;
  }

  lemma EndReached(y: System, id: nat, v: Option<Outcome>)
    requires Foretold(y, id, v) && Enabled(y, EndDelivery)
    ensures var t := Apply(y, EndDelivery).loop;
      (v.None? <==> id in t.ops) && forall r :: (id, r) in t.resumed <==> v == Some(r)
  {
  }
}

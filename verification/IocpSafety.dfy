/** What holds of the completion-port loop in every run. */
module IocpSafety {
  import opened Accounts
  import opened Octets
  import opened Timers
  import opened IocpLoop
  import opened IocpLedger
  import opened IocpRuns

  /** At every point of every run the kernel holds only live records that owe a
      packet, and each through one thing: an operation under way or one packet. */
  lemma KernelHoldsLiveRecords(states: seq<System>, run: seq<Action>, j: nat)
    requires IsRun(states, run) && j <= |run|
    ensures var s := states[j].loop;
      && OnePacketEach(s.kernel.port)
      && s.kernel.inFlight !! PortIds(s.kernel.port)
      && (forall id :: id in Held(s.kernel) ==> id in s.ops && s.ops[id].Backed())
  {
    RunKeeps(states, run, j);
    hide Rest, SocketsKept, PortIds, OnePacketEach;
  }

  /** Between batches the kernel-backed records are exactly those whose packet is
      still owed. */
  lemma OwedExactly(states: seq<System>, run: seq<Action>, j: nat)
    requires IsRun(states, run) && j <= |run| && states[j].phase.Idle?
    ensures Held(states[j].loop.kernel) == BackedIds(states[j].loop.ops)
  {
    RunKeeps(states, run, j);
    hide Rest, SocketsKept;
    OwnedExactly(states[j].loop.ops, states[j].loop.kernel);
  }

  lemma SubmitsFree(s: Iocp, socket: int, wakeAt: int, deadline: Option<int>, taken: bool, id: nat)
    requires id in s.ops && s.nextId + 1 !in s.ops
    ensures id in SubmitTransfer(s, socket, deadline, taken).ops
    ensures id in SubmitAccept(s, socket, deadline, taken).ops
    ensures id in SubmitTimer(s, wakeAt, deadline).ops
  {
    hide TimersFor, HandleFor, CancelTimer;
  }

  lemma PinAside(s: Iocp, id: nat, reason: Outcome)
    ensures var t := FixReason(s, id, reason);
      && t.ops.Keys == s.ops.Keys
      && forall i :: i in s.ops ==> t.ops[i].kind == s.ops[i].kind && (s.ops[i].fixed.Some? ==> t.ops[i] == s.ops[i])
  {
  }

  lemma EditsFree(s: Iocp, socket: int, t: Target, id: nat)
    requires id in s.ops
    ensures id in Detach(s, socket).ops && id in BeginShutdown(s).ops
    ensures id in RequestCancel(s, t.operation).ops && id in ExpireOne(s, t).0.ops
  {
    PinAside(s, t.operation, Cancelled);
    PinAside(s, t.operation, TimedOut);
    hide FixReason;
  }

  lemma FinalizeFrees(s: Iocp, i: nat, outcome: Outcome, id: nat)
    requires id in s.ops
    ensures id in Finalize(s, i, outcome).ops || id == i
  {
    hide CancelTimer, Dispose;
  }

  /** Only a delivery takes a record out of the table. */
  lemma StepFrees(y: System, a: Action, id: nat)
    requires Inv(y) && Enabled(y, a) && id in y.loop.ops
    ensures id in Apply(y, a).loop.ops || (a.Deliver? && id == y.phase.listed[0].0)
  {
    Fresh(y);
    ApplyOps(y, a);
    hide *;
    match a
    case StartTransfer(socket, deadline, taken) => SubmitsFree(y.loop, socket, 0, deadline, taken, id);
    case StartAccept(socket, deadline, taken) => SubmitsFree(y.loop, socket, 0, deadline, taken, id);
    case StartTimer(wakeAt, deadline) => SubmitsFree(y.loop, 0, wakeAt, deadline, true, id);
    case CloseHandle(socket) => EditsFree(y.loop, socket, Target(0, false), id);
    case PinCancel(i) => EditsFree(y.loop, 0, Target(i, false), id);
    case Expire => EditsFree(y.loop, 0, y.phase.targets[0], id);
    case Shutdown(_) => EditsFree(y.loop, 0, Target(0, false), id);
    case Deliver => FinalizeFrees(y.loop, y.phase.listed[0].0, y.phase.listed[0].1, id);
    case _ =>
  }

  /** What each action does to the table. */
  lemma ApplyOps(y: System, a: Action)
    requires Enabled(y, a)
    ensures a.Expire? ==> y.phase.Expiring? && y.phase.targets != []
    ensures a.Deliver? ==> y.phase.Delivering? && y.phase.listed != []
    ensures Apply(y, a).loop.ops ==
      match a
      case StartTransfer(socket, deadline, taken) => SubmitTransfer(y.loop, socket, deadline, taken).ops
      case StartAccept(socket, deadline, taken) => SubmitAccept(y.loop, socket, deadline, taken).ops
      case StartTimer(wakeAt, deadline) => SubmitTimer(y.loop, wakeAt, deadline).ops
      case CloseHandle(socket) => Detach(y.loop, socket).ops
      case PinCancel(id) => RequestCancel(y.loop, id).ops
      case Expire => ExpireOne(y.loop, y.phase.targets[0]).0.ops
      case Deliver => Finalize(y.loop, y.phase.listed[0].0, y.phase.listed[0].1).ops
      case Shutdown(_) => BeginShutdown(y.loop).ops
      case _ => y.loop.ops
  {
    hide SubmitTransfer, SubmitAccept, SubmitTimer, Detach, RequestCancel, ExpireOne, Finalize, BeginShutdown;
    hide TargetsOf, NotDue, Orphans, BackedIds, PacketOutcome, DueInOrder, CancelOne;
  }

  lemma Fresh(y: System)
    requires Inv(y)
    ensures y.loop.nextId + 1 !in y.loop.ops
  {
    NewId(y.loop, y.phase);
  }

  /** A record is freed only once its packet has been dequeued. */
  lemma FreedAfterItsPacket(states: seq<System>, run: seq<Action>, j: nat, id: nat)
    requires IsRun(states, run) && j < |run|
    requires id in states[j].loop.ops && id !in states[j + 1].loop.ops
    ensures id !in Held(states[j].loop.kernel)
  {
    RunKeeps(states, run, j);
    var y := states[j];
    StepFrees(y, run[j], id);
    assert y.phase.listed[0] in y.phase.listed && id in Listed(y.phase);
    hide Rest, SocketsKept, PortIds, OnePacketEach, Listed;
  }

  /** Each id handed out is live, resumed once or discarded. */
  lemma ExactlyOnce(states: seq<System>, run: seq<Action>, j: nat)
    requires IsRun(states, run) && j <= |run|
    ensures var s := states[j].loop;
      && NoneTwice(s.resumed)
      && (forall id: nat :: id in s.ops || id in s.discarded || WasResumed(s.resumed, id) <==> 1 <= id <= s.nextId)
      && (forall id: nat :: WasResumed(s.resumed, id) ==> id !in s.ops && id !in s.discarded)
      && s.ops.Keys !! s.discarded
  {
    RunKeeps(states, run, j);
    hide Owned, SocketsKept, Quick;
  }

  /** Each socket made for an accept is with its record, handed out or closed, and
      no socket is disposed of twice. */
  lemma SocketsOnce(states: seq<System>, run: seq<Action>, j: nat)
    requires IsRun(states, run) && j <= |run|
    ensures var s := states[j].loop;
      && Unrepeated(s.sockets.handed + s.sockets.closed)
      && (forall v: nat :: 1 <= v <= s.sockets.next <==> v in s.sockets.handed + s.sockets.closed || Keeps(s.ops, v))
      && (forall v: nat :: v in s.sockets.handed + s.sockets.closed ==> !Keeps(s.ops, v))
  {
    RunKeeps(states, run, j);
    hide Owned, Rest;
  }

  /** The drain counts exactly what the kernel holds: it waits only while a packet
      is still to come, and stops once the kernel has let go of everything. */
  lemma DrainCountsDown(states: seq<System>, run: seq<Action>, j: nat)
    requires IsRun(states, run) && j <= |run| && states[j].phase.Draining?
    ensures var k := states[j].loop.kernel; var count := states[j].phase.count;
      && count == |Held(k)|
      && (count != 0 ==> k.port != [] || k.inFlight != {})
      && (count == 0 ==> Held(k) == {})
  {
    RunKeeps(states, run, j);
    hide Owned, Rest, SocketsKept;
    var k := states[j].loop.kernel;
    if k.port == [] && k.inFlight == {} {
      assert PortIds([]) == {};
      assert Held(k) == {};
    }
  }

  /** When shutdown is over the table is empty and every socket accounted for. */
  lemma ShutdownLeavesNothing(states: seq<System>, run: seq<Action>, j: nat)
    requires IsRun(states, run) && j <= |run| && states[j].phase.Idle? && states[j].loop.shuttingDown
    ensures var s := states[j].loop;
      && s.ops == map[]
      && Held(s.kernel) == {}
      && (forall id: nat :: 1 <= id <= s.nextId ==> (WasResumed(s.resumed, id) <==> id !in s.discarded))
      && (forall v: nat :: 1 <= v <= s.sockets.next ==> v in s.sockets.handed + s.sockets.closed)
  {
    ExactlyOnce(states, run, j);
    SocketsOnce(states, run, j);
    OwedExactly(states, run, j);
    RunKeeps(states, run, j);
    var s := states[j].loop;
    assert s.ops.Keys <= {};
    assert !exists id :: id in s.ops;
    hide Owned, Accounted, SocketsKept, Quick;
  }

  // ── a pinned answer is the one delivered ────────────────────────────────────

  ghost function ListOf(p: Phase): (r: List)
  {
    if p.Idle? then [] else p.listed
  }

  /** Each packet waiting to be classified is the only one of a live record that
      owes it, and that record is not listed yet. */
  ghost predicate Unclassified(ops: map<nat, Operation>, entries: seq<Packet>, listed: List)
  {
    && OnePacketEach(entries)
    && PortIds(entries) <= BackedIds(ops)
    && PortIds(entries) !! Ids(listed)
  }

  /** Packets being classified are as above; an orphan's answer is the one pinned
      on its record. */
  ghost predicate Answered(y: System)
  {
    && (y.phase.Classifying? ==> Unclassified(y.loop.ops, y.phase.entries, y.phase.listed))
    && (y.phase.Draining? ==> forall q :: q in y.phase.listed ==>
          q.0 in y.loop.ops && y.loop.ops[q.0].fixed == Some(q.1))
  }

  /** `id` owes a packet and its answer is `r`, wherever it is by now. */
  ghost predicate Destined(y: System, id: nat, r: Outcome)
  {
    && id <= y.loop.nextId
    && (id in y.loop.ops ==> y.loop.ops[id].Backed() && y.loop.ops[id].fixed == Some(r))
    && (id in y.loop.ops ==> forall q :: q in ListOf(y.phase) && q.0 == id ==> q.1 == r)
    && (forall k :: 0 <= k < |y.loop.resumed| && y.loop.resumed[k].0 == id ==> y.loop.resumed[k].1 == r)
  }

  lemma OrphansAnswered(ops: map<nat, Operation>, orphans: seq<nat>)
    requires forall id :: id in orphans ==> id in ops
    ensures forall q :: q in Orphans(ops, orphans) ==> q.0 in PinAll(ops) && PinAll(ops)[q.0].fixed == Some(q.1)
    ensures forall q :: q in Orphans(ops, orphans) && ops[q.0].fixed.Some? ==> ops[q.0].fixed == Some(q.1)
  {
    forall q | q in Orphans(ops, orphans)
      ensures q.0 in ops && q.1 == if ops[q.0].fixed.Some? then ops[q.0].fixed.value else Cancelled
    {
      var i :| 0 <= i < |orphans| && Orphans(ops, orphans)[i] == q;
      assert orphans[i] in orphans;
    }
  }

  lemma AnsweredPin(y: System, id: nat)
    requires Answered(y)
    ensures Answered(Apply(y, PinCancel(id)))
  {
    PinAside(y.loop, id, Cancelled);
    hide PortIds, FixReason, Ids, OnePacketEach;
  }

  lemma AnsweredDequeue(y: System, n: nat)
    requires Inv(y) && Enabled(y, Dequeue(n))
    ensures Answered(Apply(y, Dequeue(n)))
  {
    PortSplit(y.loop.kernel.port, n);
    hide Rest, SocketsKept, OnePacketEach, PortIds;
    assert forall id :: id in PortIds(y.loop.kernel.port[..n]) ==> id in Held(y.loop.kernel);
    assert Ids([]) == {};
  }

  lemma AnsweredClassify(y: System)
    requires Answered(y) && Enabled(y, Classify)
    ensures Answered(Apply(y, Classify))
  {
    var p := y.phase.entries[0];
    PortHead(y.phase.entries);
    var found := if p.Done? then [(p.id, PacketOutcome(y.loop, p.id, p.status))] else [];
    ListMore(y.phase.listed, found);
    assert Ids(found) == if p.Done? then {p.id} else {};
    hide PortIds, PacketOutcome, Ids, OnePacketEach;
  }

  lemma AnsweredShutdown(y: System, orphans: seq<nat>)
    requires Enabled(y, Shutdown(orphans))
    ensures Answered(Apply(y, Shutdown(orphans)))
  {
    OrphansAnswered(y.loop.ops, orphans);
    hide PinAll, Orphans, BackedIds;
  }

  lemma AnsweredStep(y: System, a: Action)
    requires Inv(y) && Answered(y) && Enabled(y, a)
    ensures Answered(Apply(y, a))
  {
    hide Inv, PortIds, SubmitTransfer, SubmitAccept, SubmitTimer, Detach, Finalize, ExpireOne, TargetsOf, NotDue;
    hide PacketOutcome, RequestCancel, BeginShutdown, Orphans, CancelOne, Unclassified, BackedIds, DueInOrder;
    match a
    case PinCancel(id) => AnsweredPin(y, id);
    case Dequeue(n) => AnsweredDequeue(y, n);
    case Classify => AnsweredClassify(y);
    case Shutdown(orphans) => AnsweredShutdown(y, orphans);
    case _ =>
  }

  /** Between two states `id` keeps its record's answer, and gets on the list only
      with it. */
  ghost predicate KeepsAnswer(y: System, z: System, id: nat, r: Outcome)
  {
    && y.loop.nextId <= z.loop.nextId
    && z.loop.resumed == y.loop.resumed
    && (id in z.loop.ops ==>
          && id in y.loop.ops
          && z.loop.ops[id].kind == y.loop.ops[id].kind
          && z.loop.ops[id].fixed == y.loop.ops[id].fixed)
    && (id in z.loop.ops ==> forall q :: q in ListOf(z.phase) && q.0 == id ==> q in ListOf(y.phase) || q.1 == r)
  }

  lemma DestinedStays(y: System, z: System, id: nat, r: Outcome)
    requires Destined(y, id, r) && KeepsAnswer(y, z, id, r)
    ensures Destined(z, id, r)
  {
  }

  lemma SubmitsAside(s: Iocp, socket: int, wakeAt: int, deadline: Option<int>, taken: bool, id: nat, t: Iocp)
    requires id <= s.nextId
    requires || t == SubmitTransfer(s, socket, deadline, taken)
             || t == SubmitAccept(s, socket, deadline, taken)
             || t == SubmitTimer(s, wakeAt, deadline)
    ensures s.nextId <= t.nextId && t.resumed == s.resumed
    ensures id in t.ops ==> id in s.ops && t.ops[id] == s.ops[id]
  {
    hide TimersFor, HandleFor, CancelTimer;
  }

  lemma DestinedSubmit(y: System, a: Action, id: nat, r: Outcome)
    requires Destined(y, id, r) && Enabled(y, a) && (a.StartTransfer? || a.StartAccept? || a.StartTimer?)
    ensures Destined(Apply(y, a), id, r)
  {
    var z := Apply(y, a);
    match a
    case StartTransfer(socket, deadline, taken) => SubmitsAside(y.loop, socket, 0, deadline, taken, id, z.loop);
    case StartAccept(socket, deadline, taken) => SubmitsAside(y.loop, socket, 0, deadline, taken, id, z.loop);
    case StartTimer(wakeAt, deadline) => SubmitsAside(y.loop, 0, wakeAt, deadline, true, id, z.loop);
    assert z.phase == y.phase;
    hide SubmitTransfer, SubmitAccept, SubmitTimer;
  }

  lemma DestinedClassify(y: System, id: nat, r: Outcome)
    requires Answered(y) && Destined(y, id, r) && Enabled(y, Classify)
    ensures Destined(Apply(y, Classify), id, r)
  {
    DestinedStays(y, Apply(y, Classify), id, r);
  }

  lemma DestinedExpire(y: System, id: nat, r: Outcome)
    requires Inv(y) && Destined(y, id, r) && Enabled(y, Expire)
    ensures Destined(Apply(y, Expire), id, r)
  {
    var t := y.phase.targets[0];
    PinAside(y.loop, t.operation, TimedOut);
    assert !t.isDeadline ==> t.operation in QuickIds(y.loop, y.phase) by { assert t in y.phase.targets; }
    assert id in y.loop.ops && !t.isDeadline ==> t.operation != id;
    hide Owned, SocketsKept, Accounted, QuickIds;
    DestinedStays(y, Apply(y, Expire), id, r);
  }

  lemma DestinedCancel(y: System, id: nat, r: Outcome)
    requires Inv(y) && Destined(y, id, r) && Enabled(y, Cancel)
    ensures Destined(Apply(y, Cancel), id, r)
  {
    DestinedStays(y, Apply(y, Cancel), id, r);
  }

  lemma DestinedDeliver(y: System, id: nat, r: Outcome)
    requires Destined(y, id, r) && Enabled(y, Deliver)
    ensures Destined(Apply(y, Deliver), id, r)
  {
    var q := y.phase.listed[0];
    assert q in ListOf(y.phase);
    var z := Apply(y, Deliver);
    assert forall p :: p in ListOf(z.phase) ==> p in ListOf(y.phase);
    hide CancelTimer, Dispose;
  }

  lemma DestinedShutdown(y: System, orphans: seq<nat>, id: nat, r: Outcome)
    requires Destined(y, id, r) && Enabled(y, Shutdown(orphans))
    ensures Destined(Apply(y, Shutdown(orphans)), id, r)
  {
    OrphansAnswered(y.loop.ops, orphans);
    DestinedStays(y, Apply(y, Shutdown(orphans)), id, r);
  }

  lemma DestinedPin(y: System, i: nat, id: nat, r: Outcome)
    requires Destined(y, id, r) && Enabled(y, PinCancel(i))
    ensures Destined(Apply(y, PinCancel(i)), id, r)
  {
    hide Finalize, ExpireOne, TargetsOf, NotDue;
    PinAside(y.loop, i, Cancelled);
  }

  lemma DestinedStep(y: System, a: Action, id: nat, r: Outcome)
    requires Inv(y) && Answered(y) && Destined(y, id, r) && Enabled(y, a)
    ensures Destined(Apply(y, a), id, r)
  {
    hide Inv, Answered, SubmitTransfer, SubmitAccept, SubmitTimer, Finalize, ExpireOne, TargetsOf, NotDue;
    hide PacketOutcome, BeginShutdown, Orphans, CancelOne, BackedIds, DueInOrder;
    match a
    case StartTransfer(_, _, _) => DestinedSubmit(y, a, id, r);
    case StartAccept(_, _, _) => DestinedSubmit(y, a, id, r);
    case StartTimer(_, _) => DestinedSubmit(y, a, id, r);
    case PinCancel(i) => DestinedPin(y, i, id, r);
    case Classify => DestinedClassify(y, id, r);
    case Expire => DestinedExpire(y, id, r);
    case Cancel => DestinedCancel(y, id, r);
    case Deliver => DestinedDeliver(y, id, r);
    case Shutdown(orphans) => DestinedShutdown(y, orphans, id, r);
    case _ =>
  }

  lemma {:induction false} RunAnswers(states: seq<System>, run: seq<Action>, j: nat)
    requires IsRun(states, run) && j <= |run|
    ensures Answered(states[j])
  {
    hide Apply, Enabled, Inv, Answered;
    if j == 0 {
      StartAnswered();
    } else {
      RunAnswers(states, run, j - 1);
      RunKeeps(states, run, j - 1);
      AnsweredStep(states[j - 1], run[j - 1]);
    }
  }

  lemma StartAnswered()
    ensures Answered(Start())
  {
  }

  /** The packet of `id` has not been processed: the kernel still holds it, or it
      was dequeued and waits to be classified. */
  ghost predicate Owing(y: System, id: nat)
  {
    id in Held(y.loop.kernel) || (y.phase.Classifying? && id in PortIds(y.phase.entries))
  }

  /** Such a record is live, owes its packet and is on no list but the orphans'. */
  lemma OwingIsUnlisted(y: System, id: nat)
    requires Inv(y) && Answered(y) && Owing(y, id)
    ensures id in y.loop.ops && y.loop.ops[id].Backed() && id <= y.loop.nextId
    ensures !y.phase.Draining? ==> id !in Ids(ListOf(y.phase))
  {
    assert id in y.loop.ops && y.loop.ops[id].Backed();
    LiveIsOld(y.loop, y.phase, id);
    assert !y.phase.Draining? && id !in Listed(y.phase) ==> id !in Ids(ListOf(y.phase));
    hide Rest, SocketsKept, OnePacketEach, PortIds, Ids;
  }

  lemma DestinedBegins(y: System, id: nat, r: Outcome)
    requires Inv(y) && Answered(y) && Owing(y, id) && id in y.loop.ops && y.loop.ops[id].fixed == Some(r)
    ensures Destined(y, id, r)
  {
    OwingIsUnlisted(y, id);
    assert id !in Ids(ListOf(y.phase)) ==> forall q :: q in ListOf(y.phase) ==> q.0 != id;
    assert id in y.loop.ops.Keys;
    hide Owned, SocketsKept, Quick, Owing, Unclassified, Ids, Listed;
  }

  lemma {:induction false} RunDestined(
      states: seq<System>, run: seq<Action>, i: nat, j: nat, id: nat, r: Outcome)
    requires IsRun(states, run) && i <= j <= |run| && Destined(states[i], id, r)
    ensures Destined(states[j], id, r)
    decreases j
  {
    hide Apply, Enabled, Inv, Answered, Destined;
    if i < j {
      RunDestined(states, run, i, j - 1, id, r);
      RunKeeps(states, run, j - 1);
      RunAnswers(states, run, j - 1);
      DestinedStep(states[j - 1], run[j - 1], id, r);
    }
  }

  /** A reason pinned before the packet is processed, by any thread and even after
      the packet was dequeued, is the one delivered, whatever the packet reports. */
  lemma PinnedReasonWins(states: seq<System>, run: seq<Action>, i: nat, j: nat, id: nat, r: Outcome)
    requires IsRun(states, run) && i <= j <= |run|
    requires Owing(states[i], id) && id in states[i].loop.ops && states[i].loop.ops[id].fixed == Some(r)
    ensures forall o :: (id, o) in states[j].loop.resumed ==> o == r
  {
    hide Apply, Enabled, Inv, Answered, Owing;
    RunKeeps(states, run, i);
    RunAnswers(states, run, i);
    DestinedBegins(states[i], id, r);
    RunDestined(states, run, i, j, id, r);
  }

  // ── where a pinned answer does not win ──────────────────────────────────────

  const SLEEPER := Operation(Timer, -1, false, None, None, Some(Key(5, 1)), None)
  const PINNED := SLEEPER.(fixed := Some(Cancelled))
  const ASLEEP := Created().(ops := map[1 := SLEEPER], timers := map[Key(5, 1) := Target(1, false)], serial := 1, nextId := 1)
  const ASKED := ASLEEP.(ops := map[1 := PINNED], pushing := {1})
  const SWEPT := ASKED.(timers := map[])
  const WOKEN := SWEPT.(ops := map[], resumed := [(1, Success)])

  ghost predicate Steps(y: System, a: Action, z: System)
  {
    Enabled(y, a) && Apply(y, a) == z
  }

  lemma Asking()
    ensures Steps(Start(), StartTimer(5, None), System(ASLEEP, Idle))
    ensures Steps(System(ASLEEP, Idle), PinCancel(1), System(ASKED, Idle))
    ensures Steps(System(ASKED, Idle), Dequeue(0), System(ASKED, Classifying([], [])))
  {
    assert TimersFor(1, Some(Key(5, 1)), None) == map[Key(5, 1) := Target(1, false)];
    assert Acquire(Created(), Timer, -1, None, Some(5), None).ops == ASLEEP.ops;
    assert ASLEEP.ops[1 := PINNED] == ASKED.ops;
  }

  lemma Sweeping()
    ensures Steps(System(ASKED, Classifying([], [])), Sweep(5, [Key(5, 1)]), System(SWEPT, Expiring([Target(1, false)], [], [])))
  {
    assert NotDue(ASKED.timers, 5) == map[];
    assert TargetsOf(ASKED.timers, [Key(5, 1)]) == [Target(1, false)];
  }

  lemma Waking()
    ensures Steps(System(SWEPT, Expiring([Target(1, false)], [], [])), Expire, System(SWEPT, Expiring([], [], [(1, Success)])))
    ensures Steps(System(SWEPT, Expiring([], [], [(1, Success)])), BeginDelivery, System(SWEPT, Delivering([(1, Success)], false)))
  {
    assert [Target(1, false)][1..] == [];
    assert [] + [(1, Success)] == [(1, Success)];
  }

  lemma Resuming()
    ensures Steps(System(SWEPT, Delivering([(1, Success)], false)), Deliver, System(WOKEN, Delivering([], true)))
  {
    var list: List := [(1, Success)];
    assert list[1..] == [];
    var t := Finalize(SWEPT, 1, Success);
    assert t.ops == map[];
    assert t.timers == map[];
    assert t.resumed == [(1, Success)];
  }

  /** A timer owes no packet: its wake-up, due before the cancellation is queued,
      resolves it with success although `Cancelled` was pinned first. */
  lemma WakeUpOutranksPin() returns (states: seq<System>, run: seq<Action>)
    ensures IsRun(states, run) && |run| == 7
    ensures states[2].loop.ops == map[1 := PINNED] && states[7].loop.resumed == [(1, Success)]
  {
    Asking();
    Sweeping();
    Waking();
    Resuming();
    hide Apply, Enabled;
    states := [Start(), System(ASLEEP, Idle), System(ASKED, Idle), System(ASKED, Classifying([], [])),
               System(SWEPT, Expiring([Target(1, false)], [], [])), System(SWEPT, Expiring([], [], [(1, Success)])),
               System(SWEPT, Delivering([(1, Success)], false)), System(WOKEN, Delivering([], true))];
    run := [StartTimer(5, None), PinCancel(1), Dequeue(0), Sweep(5, [Key(5, 1)]), Expire, BeginDelivery, Deliver];
  }
}

/** Whole runs of the completion-port loop.

The loop thread dequeues packets, lists outcomes and delivers them; user code
runs between batches and inside deliveries; other threads pin and queue
cancellations at any point; the kernel completes what it holds when it likes.
*/
module IocpRuns {
  import opened Accounts
  import opened Octets
  import opened Timers
  import opened IocpLoop
  import opened IocpLedger

  type List = seq<(nat, Outcome)>

  /** Where the loop thread is. `running`: resumed code or posted work is on top. */
  datatype Phase =
    | Idle
    | Classifying(entries: seq<Packet>, listed: List)
    | Expiring(targets: seq<Target>, cancels: seq<nat>, listed: List)
    | Delivering(listed: List, running: bool)
    | Draining(count: nat, listed: List)

  datatype System = System(loop: Iocp, phase: Phase)

  datatype Action =
    | StartTransfer(socket: int, deadline: Option<int>, taken: bool)
    | StartAccept(socket: int, deadline: Option<int>, taken: bool)
    | StartTimer(wakeAt: int, deadline: Option<int>)
    | CloseHandle(socket: int)
    | PinCancel(id: nat)
    | PushCancel(id: nat)
    | Complete(id: nat, status: Outcome)
    | PostWakeup
    | Dequeue(n: nat)
    | Classify
    | Sweep(now: int, keys: seq<Key>)
    | Expire
    | Cancel
    | BeginDelivery
    | Deliver
    | RunPosted
    | Return
    | EndDelivery
    | Shutdown(orphans: seq<nat>)
    | Drain
    | Drained

  function Start(): (y: System)
  {
    System(Created(), Idle)
  }

  predicate UserRuns(p: Phase)
  {
    p.Idle? || (p.Delivering? && p.running)
  }

  ghost predicate Enabled(y: System, a: Action)
  {
    match a
    case StartTransfer(_, _, _) => UserRuns(y.phase)
    case StartAccept(_, _, _) => UserRuns(y.phase)
    case StartTimer(_, _) => UserRuns(y.phase)
    case CloseHandle(_) => UserRuns(y.phase)
    case PinCancel(_) => true
    case PushCancel(id) => id in y.loop.pushing
    case Complete(id, _) => id in y.loop.kernel.inFlight
    case PostWakeup => true
    case Dequeue(n) => y.phase.Idle? && !y.loop.shuttingDown && n <= |y.loop.kernel.port|
    case Classify => y.phase.Classifying? && y.phase.entries != []
    case Sweep(now, keys) =>
      y.phase.Classifying? && y.phase.entries == [] && DueInOrder(y.loop.timers, now, keys)
    case Expire => y.phase.Expiring? && y.phase.targets != []
    case Cancel => y.phase.Expiring? && y.phase.targets == [] && y.phase.cancels != []
    case BeginDelivery => y.phase.Expiring? && y.phase.targets == [] && y.phase.cancels == []
    case Deliver => y.phase.Delivering? && !y.phase.running && y.phase.listed != []
    case RunPosted => y.phase.Delivering? && !y.phase.running && y.phase.listed == []
    case Return => y.phase.Delivering? && y.phase.running
    case EndDelivery => y.phase.Delivering? && !y.phase.running && y.phase.listed == []
    case Shutdown(orphans) =>
      y.phase.Idle? && !y.loop.shuttingDown && (forall id :: id in orphans <==> id in y.loop.ops)
    case Drain => y.phase.Draining? && y.phase.count != 0 && y.loop.kernel.port != []
    case Drained => y.phase.Draining? && y.phase.count == 0
  }

  /** The targets a sweep takes out of the queue, front first. */
  function TargetsOf(timers: Queue, keys: seq<Key>): (r: seq<Target>)
    requires forall k :: k in keys ==> k in timers
    ensures |r| == |keys| && forall i :: 0 <= i < |keys| ==> r[i] == timers[keys[i]]
  {
    seq(|keys|, i requires 0 <= i < |keys| => timers[keys[i]])
  }

  /** Somebody due: a wake-up resolves its sleep; a deadline pins its answer, and
      resolves only what owes no packet. */
  function ExpireOne(s: Iocp, t: Target): (r: (Iocp, List))
  {
    if !t.isDeadline then (s, [(t.operation, Success)])
    else
      (FixReason(s, t.operation, TimedOut),
       if Pinnable(s, t.operation) && !s.ops[t.operation].Backed() then [(t.operation, TimedOut)] else [])
  }

  function CancelOne(s: Iocp, id: nat): (r: List)
  {
    if id in s.ops && s.ops[id].fixed.Some? then [(id, s.ops[id].fixed.value)] else []
  }

  /** Everybody left at shutdown, with the answer they will get. */
  function Orphans(ops: map<nat, Operation>, ids: seq<nat>): (r: List)
    requires forall id :: id in ids ==> id in ops
    ensures |r| == |ids|
    ensures forall i :: 0 <= i < |ids| ==>
              r[i] == (ids[i], if ops[ids[i]].fixed.Some? then ops[ids[i]].fixed.value else Cancelled)
  {
    seq(|ids|, i requires 0 <= i < |ids| =>
      (ids[i], if ops[ids[i]].fixed.Some? then ops[ids[i]].fixed.value else Cancelled))
  }

  ghost function Apply(y: System, a: Action): (r: System)
    requires Enabled(y, a)
  {
    var s := y.loop;
    match a
    case StartTransfer(socket, deadline, taken) => y.(loop := SubmitTransfer(s, socket, deadline, taken))
    case StartAccept(socket, deadline, taken) => y.(loop := SubmitAccept(s, socket, deadline, taken))
    case StartTimer(wakeAt, deadline) => y.(loop := SubmitTimer(s, wakeAt, deadline))
    case CloseHandle(socket) => y.(loop := Detach(s, socket))
    case PinCancel(id) => y.(loop := RequestCancel(s, id))
    case PushCancel(id) => y.(loop := QueueCancel(s, id))
    case Complete(id, status) =>
      y.(loop := s.(kernel := Kernel(s.kernel.inFlight - {id}, s.kernel.port + [Done(id, status)])))
    case PostWakeup => y.(loop := s.(kernel := s.kernel.(port := s.kernel.port + [Wakeup])))
    case Dequeue(n) =>
      System(s.(kernel := s.kernel.(port := s.kernel.port[n..])), Classifying(s.kernel.port[..n], []))
    case Classify =>
      var p := y.phase.entries[0];
      var found := if p.Done? then [(p.id, PacketOutcome(s, p.id, p.status))] else [];
      y.(phase := Classifying(y.phase.entries[1..], y.phase.listed + found))
    case Sweep(now, keys) =>
      System(s.(timers := NotDue(s.timers, now), cancels := []),
             Expiring(TargetsOf(s.timers, keys), s.cancels, y.phase.listed))
    case Expire =>
      var (s1, found) := ExpireOne(s, y.phase.targets[0]);
      System(s1, y.phase.(targets := y.phase.targets[1..], listed := y.phase.listed + found))
    case Cancel =>
      y.(phase := y.phase.(cancels := y.phase.cancels[1..],
                           listed := y.phase.listed + CancelOne(s, y.phase.cancels[0])))
    case BeginDelivery => y.(phase := Delivering(y.phase.listed, false))
    case Deliver =>
      var (id, outcome) := y.phase.listed[0];
      System(Finalize(s, id, outcome), Delivering(y.phase.listed[1..], id in s.ops))
    case RunPosted => y.(phase := y.phase.(running := true))
    case Return => y.(phase := y.phase.(running := false))
    case EndDelivery => y.(phase := Idle)
    case Shutdown(orphans) =>
      System(BeginShutdown(s), Draining(|BackedIds(s.ops)|, Orphans(s.ops, orphans)))
    case Drain =>
      var p := s.kernel.port[0];
      System(s.(kernel := s.kernel.(port := s.kernel.port[1..])),
             y.phase.(count := if p.Done? then y.phase.count - 1 else y.phase.count))
    case Drained => y.(phase := Delivering(y.phase.listed, false))
  }

  ghost predicate IsRun(states: seq<System>, run: seq<Action>)
  {
    && |states| == |run| + 1
    && states[0] == Start()
    && forall i :: 0 <= i < |run| ==> Enabled(states[i], run[i]) && states[i + 1] == Apply(states[i], run[i])
  }

  // ── the invariant ───────────────────────────────────────────────────────────

  ghost function Ids(pairs: List): (r: set<nat>)
  {
    set p | p in pairs :: p.0
  }

  /** Whose packet has been dequeued, or who is listed anyway. */
  ghost function Listed(p: Phase): (r: set<nat>)
  {
    match p
    case Idle => {}
    case Classifying(entries, listed) => PortIds(entries) + Ids(listed)
    case Expiring(_, _, listed) => Ids(listed)
    case Delivering(listed, _) => Ids(listed)
    case Draining(_, _) => {}
  }

  ghost function Waiting(p: Phase): (r: set<nat>)
  {
    if p.Draining? then Ids(p.listed) else {}
  }

  ghost function TargetWakes(targets: seq<Target>): (r: set<nat>)
  {
    set t | t in targets && !t.isDeadline :: t.operation
  }

  ghost function AsSet(ids: seq<nat>): (r: set<nat>)
  {
    set id | id in ids
  }

  /** Everybody who may be resolved without a packet. */
  ghost function QuickIds(s: Iocp, p: Phase): (r: set<nat>)
  {
    WakeIds(s.timers) + AsSet(s.cancels) + s.pushing
    + (if p.Expiring? then TargetWakes(p.targets) + AsSet(p.cancels) else {})
  }

  ghost predicate Old(ids: set<nat>, nextId: nat)
  {
    forall id :: id in ids ==> id <= nextId
  }

  ghost predicate ShuttingDown(s: Iocp, p: Phase)
  {
    s.shuttingDown ==> s.ops.Keys <= Listed(p) + Waiting(p)
  }

  /** Ids are accounted for, and nobody is resolved behind the kernel's back. */
  ghost predicate Rest(s: Iocp, p: Phase)
  {
    && Accounted(s.ops.Keys, s.resumed, s.discarded, s.nextId)
    && Old(Listed(p) + Waiting(p), s.nextId)
    && Quick(s.ops, s.nextId, QuickIds(s, p))
    && ShuttingDown(s, p)
  }

  ghost predicate Inv(y: System)
  {
    var s, p := y.loop, y.phase;
    && Rest(s, p)
    && Owned(s.ops, s.kernel, Listed(p), Waiting(p))
    && SocketsKept(s.ops, s.sockets)
    && (p.Draining? ==> p.count == |Held(s.kernel)| && s.shuttingDown)
  }

  lemma StartInv()
    ensures Inv(Start())
  {
    hide Owned, SocketsKept;
    NothingYet();
    assert WakeIds(map[]) == {};
    assert Accounted({}, [], {}, 0);
    assert Start().loop.ops.Keys == {};
  }

  // ── submissions ─────────────────────────────────────────────────────────────

  lemma QuickNew(ops: map<nat, Operation>, nextId: nat, ids: set<nat>, more: set<nat>, op: Operation)
    requires Quick(ops, nextId, ids) && more <= if op.Backed() then ids else ids + {nextId + 1}
    ensures Quick(ops[nextId + 1 := op], nextId + 1, more)
  {
  }

  lemma QuickFewer(ops: map<nat, Operation>, nextId: nat, ids: set<nat>, after: map<nat, Operation>, fewer: set<nat>)
    requires Quick(ops, nextId, ids) && fewer <= ids
    requires forall id :: id in after ==> id in ops && after[id].kind == ops[id].kind
    ensures Quick(after, nextId, fewer)
  {
  }

  lemma WakesMore(timers: Queue, id: nat, op: Operation)
    ensures WakeIds(timers + TimersFor(id, op.wake, op.deadline)) <= WakeIds(timers) + if op.wake.Some? then {id} else {}
  {
  }

  lemma WakesFewer(timers: Queue, fewer: Queue)
    requires forall k :: k in fewer ==> k in timers && fewer[k] == timers[k]
    ensures WakeIds(fewer) <= WakeIds(timers)
  {
  }

  lemma AcquireFields(s: Iocp, kind: Kind, socket: int, accepted: Option<nat>, wakeAt: Option<int>, deadline: Option<int>)
    ensures var r := Acquire(s, kind, socket, accepted, wakeAt, deadline);
      && r.nextId in r.ops && r.nextId == s.nextId + 1
      && var op := r.ops[r.nextId];
         && op.kind == kind && op.accepted == accepted && op.fixed.None? && (op.wake.Some? <==> wakeAt.Some?)
         && r == s.(nextId := s.nextId + 1, ops := s.ops[s.nextId + 1 := op], serial := r.serial,
                    timers := s.timers + TimersFor(s.nextId + 1, op.wake, op.deadline))
  {
  }

  lemma AcquireKeepsRest(
      s: Iocp, p: Phase, kind: Kind, socket: int, accepted: Option<nat>, wakeAt: Option<int>, deadline: Option<int>)
    requires Rest(s, p) && !s.shuttingDown && (kind.Timer? <==> wakeAt.Some?)
    ensures Rest(Acquire(s, kind, socket, accepted, wakeAt, deadline), p)
  {
    hide Accounted, Quick, Listed, WakeIds, TimersFor;
    AcquireFields(s, kind, socket, accepted, wakeAt, deadline);
    var r := Acquire(s, kind, socket, accepted, wakeAt, deadline);
    hide Acquire;
    var op := r.ops[r.nextId];
    AccountNew(s.ops.Keys, s.resumed, s.discarded, s.nextId);
    assert r.ops.Keys == s.ops.Keys + {r.nextId};
    WakesMore(s.timers, r.nextId, op);
    QuickNew(s.ops, s.nextId, QuickIds(s, p), QuickIds(r, p), op);
  }

  lemma TakeFields(s: Iocp, id: nat)
    requires id in s.ops
    ensures Take(s, id) == s.(ops := s.ops - {id}, timers := Take(s, id).timers)
    ensures WakeIds(Take(s, id).timers) <= WakeIds(s.timers)
    ensures (s.ops - {id}).Keys == s.ops.Keys - {id}
  {
    WakesFewer(s.timers, Take(s, id).timers);
  }

  lemma DiscardKeepsRest(s: Iocp, p: Phase, id: nat)
    requires Rest(s, p) && id in s.ops && !s.shuttingDown
    ensures Rest(Discard(s, id), p)
  {
    hide Accounted, Quick, Listed, WakeIds;
    TakeFields(s, id);
    hide Take;
    AccountDiscarded(s.ops.Keys, s.resumed, s.discarded, s.nextId, id);
    QuickFewer(s.ops, s.nextId, QuickIds(s, p), s.ops - {id}, QuickIds(Discard(s, id), p));
  }

  lemma NewId(s: Iocp, p: Phase)
    requires Rest(s, p)
    ensures s.nextId + 1 !in s.ops && s.nextId + 1 !in Listed(p)
  {
    NextIsNew(s.ops.Keys, s.resumed, s.discarded, s.nextId);
  }

  lemma TransferKeeps(y: System, socket: int, deadline: Option<int>, taken: bool)
    requires Inv(y) && UserRuns(y.phase)
    ensures Inv(y.(loop := SubmitTransfer(y.loop, socket, deadline, taken)))
  {
    hide Owned, SocketsKept, Rest, Listed;
    var s, p := y.loop, y.phase;
    if !s.shuttingDown {
      NewId(s, p);
      AcquireKeepsRest(s, p, Transfer, socket, None, None, deadline);
      AcquireFields(s, Transfer, socket, None, None, deadline);
      var s1 := Acquire(s, Transfer, socket, None, None, deadline);
      hide Acquire;
      var id := s1.nextId;
      if taken {
        OwnedSubmit(s.ops, s.kernel, Listed(p), Waiting(p), id, s1.ops[id]);
        SocketsOther(s.ops, s.sockets, id, s1.ops[id]);
        RestIsRest(s1, s1.(kernel := s1.kernel.(inFlight := s1.kernel.inFlight + {id})), p);
      } else {
        DiscardKeepsRest(s1, p, id);
        TakeFields(s1, id);
        assert s1.ops - {id} == s.ops;
      }
    }
  }

  lemma AcceptKeeps(y: System, socket: int, deadline: Option<int>, taken: bool)
    requires Inv(y) && UserRuns(y.phase)
    ensures Inv(y.(loop := SubmitAccept(y.loop, socket, deadline, taken)))
  {
    hide Owned, SocketsKept, Rest, Listed;
    var s, p := y.loop, y.phase;
    if !s.shuttingDown {
      NewId(s, p);
      var made := s.sockets.next + 1;
      AcquireKeepsRest(s, p, Accept, socket, Some(made), None, deadline);
      AcquireFields(s, Accept, socket, Some(made), None, deadline);
      var s0 := Acquire(s, Accept, socket, Some(made), None, deadline);
      hide Acquire;
      var s1 := s0.(sockets := s.sockets.(next := made));
      var id := s1.nextId;
      RestIsRest(s0, s1, p);
      SocketsMake(s.ops, s.sockets, id, s1.ops[id]);
      if taken {
        OwnedSubmit(s.ops, s.kernel, Listed(p), Waiting(p), id, s1.ops[id]);
        RestIsRest(s1, s1.(kernel := s1.kernel.(inFlight := s1.kernel.inFlight + {id})), p);
      } else {
        DiscardKeepsRest(s1, p, id);
        RestIsRest(Discard(s1, id), SubmitAccept(s, socket, deadline, taken), p);
        SocketsTake(s1.ops, s1.sockets, id, Cancelled);
        TakeFields(s1, id);
        assert s1.ops - {id} == s.ops;
      }
    }
  }

  lemma TimerKeeps(y: System, wakeAt: int, deadline: Option<int>)
    requires Inv(y) && UserRuns(y.phase)
    ensures Inv(y.(loop := SubmitTimer(y.loop, wakeAt, deadline)))
  {
    hide Owned, SocketsKept, Rest, Listed;
    var s, p := y.loop, y.phase;
    if !s.shuttingDown {
      NewId(s, p);
      AcquireKeepsRest(s, p, Timer, -1, None, Some(wakeAt), deadline);
      AcquireFields(s, Timer, -1, None, Some(wakeAt), deadline);
      var s1 := Acquire(s, Timer, -1, None, Some(wakeAt), deadline);
      hide Acquire;
      OwnedTimer(s.ops, s.kernel, Listed(p), Waiting(p), s1.nextId, s1.ops[s1.nextId]);
      SocketsOther(s.ops, s.sockets, s1.nextId, s1.ops[s1.nextId]);
    }
  }

  lemma RestIsRest(s: Iocp, t: Iocp, p: Phase)
    requires Rest(s, p) && t == s.(kernel := t.kernel, sockets := t.sockets)
    ensures Rest(t, p)
  {
  }

  // ── records that change in place ────────────────────────────────────────────

  lemma RestEdited(s: Iocp, t: Iocp, p: Phase)
    requires Rest(s, p) && SameKinds(s.ops, t.ops)
    requires t == s.(ops := t.ops, timers := t.timers)
    requires forall k :: k in t.timers ==> k in s.timers && t.timers[k] == s.timers[k]
    ensures Rest(t, p)
  {
    hide Accounted, Listed, WakeIds;
    WakesFewer(s.timers, t.timers);
    QuickFewer(s.ops, s.nextId, QuickIds(s, p), t.ops, QuickIds(t, p));
  }

  lemma EditKeeps(y: System, t: Iocp)
    requires Inv(y) && SameSockets(y.loop.ops, t.ops)
    requires t == y.loop.(ops := t.ops, timers := t.timers)
    requires forall k :: k in t.timers ==> k in y.loop.timers && t.timers[k] == y.loop.timers[k]
    ensures Inv(y.(loop := t))
  {
    hide Owned, SocketsKept, Rest, Listed;
    RestEdited(y.loop, t, y.phase);
    OwnedSameKinds(y.loop.ops, t.ops, y.loop.kernel, Listed(y.phase), Waiting(y.phase));
    SocketsSame(y.loop.ops, t.ops, y.loop.sockets);
  }

  lemma FixKeeps(y: System, id: nat, reason: Outcome)
    requires Inv(y)
    ensures Inv(y.(loop := FixReason(y.loop, id, reason)))
  {
    hide Inv;
    EditKeeps(y, FixReason(y.loop, id, reason));
  }

  lemma CloseKeeps(y: System, socket: int)
    requires Inv(y)
    ensures Inv(y.(loop := Detach(y.loop, socket)))
  {
    hide Inv;
    EditKeeps(y, Detach(y.loop, socket));
  }

  lemma QuickMore(y: System, t: Iocp, id: nat)
    requires Inv(y) && (id in y.loop.ops ==> !y.loop.ops[id].Backed()) && id <= y.loop.nextId
    requires t == y.loop.(pushing := t.pushing, cancels := t.cancels)
    requires t.pushing <= y.loop.pushing + {id} && AsSet(t.cancels) <= AsSet(y.loop.cancels) + {id}
    ensures Inv(y.(loop := t))
  {
    hide Owned, SocketsKept, Accounted, Listed, WakeIds;
  }

  lemma PinKeeps(y: System, id: nat)
    requires Inv(y)
    ensures Inv(y.(loop := RequestCancel(y.loop, id)))
  {
    FixKeeps(y, id, Cancelled);
    var z := y.(loop := FixReason(y.loop, id, Cancelled));
    if Pinnable(y.loop, id) && !y.loop.ops[id].Backed() {
      assert id <= z.loop.nextId by { LiveIsOld(y.loop, y.phase, id); }
      hide Inv;
      QuickMore(z, z.loop.(pushing := z.loop.pushing + {id}), id);
    }
  }

  lemma LiveIsOld(s: Iocp, p: Phase, id: nat)
    requires Rest(s, p) && id in s.ops
    ensures id <= s.nextId
  {
    assert id in s.ops.Keys;
  }

  lemma PushKeeps(y: System, id: nat)
    requires Inv(y) && id in y.loop.pushing
    ensures Inv(y.(loop := QueueCancel(y.loop, id)))
  {
    assert id in QuickIds(y.loop, y.phase);
    assert id <= y.loop.nextId && (id in y.loop.ops ==> !y.loop.ops[id].Backed());
    hide Inv;
    QuickMore(y, QueueCancel(y.loop, id), id);
  }

  // ── packets ─────────────────────────────────────────────────────────────────

  lemma CompleteKeeps(y: System, id: nat, status: Outcome)
    requires Inv(y) && Enabled(y, Complete(id, status))
    ensures Inv(Apply(y, Complete(id, status)))
  {
    hide Owned, SocketsKept, Rest, Listed, Held;
    OwnedComplete(y.loop.ops, y.loop.kernel, Listed(y.phase), Waiting(y.phase), id, status);
    RestIsRest(y.loop, Apply(y, Complete(id, status)).loop, y.phase);
  }

  lemma WakeupKeeps(y: System)
    requires Inv(y)
    ensures Inv(Apply(y, PostWakeup))
  {
    hide Owned, SocketsKept, Rest, Listed, Held;
    OwnedWakeup(y.loop.ops, y.loop.kernel, Listed(y.phase), Waiting(y.phase));
    RestIsRest(y.loop, Apply(y, PostWakeup).loop, y.phase);
  }

  lemma OwnedIsOld(s: Iocp, listed: set<nat>, orphans: set<nat>, p: Phase, id: nat)
    requires Rest(s, p) && Owned(s.ops, s.kernel, listed, orphans) && id in Held(s.kernel)
    ensures id <= s.nextId
  {
    LiveIsOld(s, p, id);
  }

  lemma DequeueKeeps(y: System, n: nat)
    requires Inv(y) && Enabled(y, Dequeue(n))
    ensures Inv(Apply(y, Dequeue(n)))
  {
    var s := y.loop;
    var z := Apply(y, Dequeue(n));
    OwnedDequeue(s.ops, s.kernel, {}, {}, n);
    PortSplit(s.kernel.port, n);
    assert Ids([]) == {};
    assert Listed(z.phase) == {} + PortIds(s.kernel.port[..n]);
    forall id | id in Listed(z.phase) ensures id <= s.nextId {
      OwnedIsOld(s, {}, {}, Idle, id);
    }
    hide Owned, SocketsKept, Accounted, Quick, PortIds, WakeIds;
  }

  lemma ListMore(list: List, more: List)
    ensures Ids(list + more) == Ids(list) + Ids(more)
  {
    assert forall p :: p in list + more <==> p in list || p in more;
  }

  lemma ListOne(id: nat, outcome: Outcome)
    ensures Ids([(id, outcome)]) == {id}
  {
    assert [(id, outcome)][0] == (id, outcome);
  }

  /** A step of the list that keeps who is on it. */
  lemma PhaseKeeps(y: System, p: Phase)
    requires Inv(y) && !y.phase.Draining? && !p.Draining? && Listed(p) == Listed(y.phase)
    requires QuickIds(y.loop, p) <= QuickIds(y.loop, y.phase)
    ensures Inv(y.(phase := p))
  {
    hide Owned, SocketsKept, Accounted, Listed, QuickIds;
  }

  lemma ClassifyLists(s: Iocp, entries: seq<Packet>, listed: List)
    requires entries != []
    ensures var p := entries[0];
      var found := if p.Done? then [(p.id, PacketOutcome(s, p.id, p.status))] else [];
      Listed(Classifying(entries[1..], listed + found)) == Listed(Classifying(entries, listed))
  {
    var p := entries[0];
    PortHead(entries);
    if p.Done? {
      var outcome := PacketOutcome(s, p.id, p.status);
      ListMore(listed, [(p.id, outcome)]);
      ListOne(p.id, outcome);
      hide PortIds, Ids;
    } else {
      assert listed + [] == listed;
    }
  }

  lemma ClassifyKeeps(y: System)
    requires Inv(y) && Enabled(y, Classify)
    ensures Inv(Apply(y, Classify))
  {
    hide Inv, Listed, PacketOutcome;
    ClassifyLists(y.loop, y.phase.entries, y.phase.listed);
    PhaseKeeps(y, Apply(y, Classify).phase);
  }

  lemma SweptWakes(timers: Queue, keys: seq<Key>)
    requires forall k :: k in keys ==> k in timers
    ensures TargetWakes(TargetsOf(timers, keys)) <= WakeIds(timers)
  {
    var targets := TargetsOf(timers, keys);
    forall id | id in TargetWakes(targets) ensures id in WakeIds(timers) {
      var t :| t in targets && !t.isDeadline && t.operation == id;
      var i :| 0 <= i < |keys| && targets[i] == t;
      assert keys[i] in keys && timers[keys[i]] == t;
    }
  }

  lemma SweepKeeps(y: System, now: int, keys: seq<Key>)
    requires Inv(y) && Enabled(y, Sweep(now, keys))
    ensures Inv(Apply(y, Sweep(now, keys)))
  {
    hide Owned, SocketsKept, Accounted, InOrder;
    var s := y.loop;
    var z := Apply(y, Sweep(now, keys));
    WakesFewer(s.timers, z.loop.timers);
    SweptWakes(s.timers, keys);
    assert PortIds([]) == {};
    assert Listed(z.phase) == Listed(y.phase);
    hide NotDue, TargetsOf, WakeIds, TargetWakes;
    assert AsSet([]) == {};
    assert QuickIds(z.loop, z.phase) <= QuickIds(s, y.phase);
    hide Listed, QuickIds;
  }

  /** Somebody who owes no packet joins the list. */
  lemma ListTimer(y: System, id: nat, outcome: Outcome)
    requires Inv(y) && y.phase.Expiring?
    requires id <= y.loop.nextId && (id in y.loop.ops ==> !y.loop.ops[id].Backed())
    ensures var p := Expiring(y.phase.targets, y.phase.cancels, y.phase.listed + [(id, outcome)]); Inv(y.(phase := p))
  {
    ListMore(y.phase.listed, [(id, outcome)]);
    ListOne(id, outcome);
    OwnedListTimer(y.loop.ops, y.loop.kernel, Listed(y.phase), Waiting(y.phase), id);
    hide Owned, SocketsKept, Accounted, QuickIds, Ids;
  }

  lemma ExpireKeeps(y: System)
    requires Inv(y) && Enabled(y, Expire)
    ensures Inv(Apply(y, Expire))
  {
    var t := y.phase.targets[0];
    var id := t.operation;
    var less := y.phase.(targets := y.phase.targets[1..]);
    assert y.phase.targets == [t] + y.phase.targets[1..];
    var z := y.(phase := less);
    PhaseKeeps(y, less);
    if !t.isDeadline {
      assert t in y.phase.targets && id in QuickIds(y.loop, y.phase);
      assert id <= y.loop.nextId && (id in y.loop.ops ==> !y.loop.ops[id].Backed());
      hide Inv;
      ListTimer(z, id, Success);
    } else {
      FixKeeps(z, id, TimedOut);
      var w := z.(loop := FixReason(z.loop, id, TimedOut));
      if Pinnable(y.loop, id) && !y.loop.ops[id].Backed() {
        LiveIsOld(y.loop, y.phase, id);
        hide Inv;
        ListTimer(w, id, TimedOut);
      } else {
        assert less.listed + [] == less.listed;
      }
    }
  }

  lemma CancelKeeps(y: System)
    requires Inv(y) && Enabled(y, Cancel)
    ensures Inv(Apply(y, Cancel))
  {
    var id := y.phase.cancels[0];
    var less := y.phase.(cancels := y.phase.cancels[1..]);
    assert y.phase.cancels == [id] + y.phase.cancels[1..];
    PhaseKeeps(y, less);
    var found := CancelOne(y.loop, id);
    if found != [] {
      assert id in y.phase.cancels && id in QuickIds(y.loop, y.phase);
      assert id <= y.loop.nextId && (id in y.loop.ops ==> !y.loop.ops[id].Backed());
      hide Inv;
      ListTimer(y.(phase := less), id, found[0].1);
    } else {
      assert less.listed + [] == less.listed;
    }
  }

  // ── deliveries ──────────────────────────────────────────────────────────────

  lemma ListPop(list: List)
    requires list != []
    ensures Ids(list) == Ids(list[1..]) + {list[0].0}
  {
    assert list == [list[0]] + list[1..];
  }

  lemma FinalizeKeepsRest(s: Iocp, p: Phase, q: Phase, id: nat, outcome: Outcome)
    requires Rest(s, p) && id in s.ops && p.Delivering? && q.Delivering?
    requires Listed(q) <= Listed(p) <= Listed(q) + {id}
    ensures Rest(Finalize(s, id, outcome), q)
  {
    hide Accounted, Quick, Listed, WakeIds, Dispose;
    TakeFields(s, id);
    hide Take;
    AccountResumed(s.ops.Keys, s.resumed, s.discarded, s.nextId, id, outcome);
    QuickFewer(s.ops, s.nextId, QuickIds(s, p), s.ops - {id}, QuickIds(Finalize(s, id, outcome), q));
  }

  lemma DeliverKeeps(y: System)
    requires Inv(y) && Enabled(y, Deliver)
    ensures Inv(Apply(y, Deliver))
  {
    var s := y.loop;
    var (id, outcome) := y.phase.listed[0];
    var q := Delivering(y.phase.listed[1..], id in s.ops);
    ListPop(y.phase.listed);
    if id in s.ops {
      hide Owned, SocketsKept, Rest, Ids;
      FinalizeKeepsRest(s, y.phase, q, id, outcome);
      OwnedTake(s.ops, s.kernel, Listed(y.phase), Listed(q), {}, id);
      SocketsTake(s.ops, s.sockets, id, outcome);
      TakeFields(s, id);
    } else {
      OwnedUnlist(s.ops, s.kernel, Listed(y.phase), Listed(q), {}, id);
      hide Owned, SocketsKept, Accounted, Ids;
    }
  }

  // ── shutting down ───────────────────────────────────────────────────────────

  lemma OrphansListed(ops: map<nat, Operation>, orphans: seq<nat>)
    requires forall id :: id in orphans <==> id in ops
    ensures Ids(Orphans(ops, orphans)) == ops.Keys
  {
    var list := Orphans(ops, orphans);
    forall id | id in ops ensures id in Ids(list) {
      var i :| 0 <= i < |orphans| && orphans[i] == id;
      assert list[i] in list;
    }
    forall p | p in list ensures p.0 in ops {
      var i :| 0 <= i < |list| && list[i] == p;
      assert orphans[i] in orphans;
    }
  }

  lemma ShutdownKeepsRest(s: Iocp, p: Phase)
    requires Rest(s, Idle) && p.Draining? && Ids(p.listed) == s.ops.Keys
    ensures Rest(BeginShutdown(s), p)
  {
    hide Accounted, WakeIds, Ids;
    assert AsSet([]) == {};
    assert PinAll(s.ops).Keys == s.ops.Keys;
    forall id | id in s.ops ensures id <= s.nextId {
      LiveIsOld(s, Idle, id);
    }
  }

  lemma ShutdownKeeps(y: System, orphans: seq<nat>)
    requires Inv(y) && Enabled(y, Shutdown(orphans))
    ensures Inv(Apply(y, Shutdown(orphans)))
  {
    hide Owned, SocketsKept, Rest, Held, BackedIds;
    var s := y.loop;
    var z := Apply(y, Shutdown(orphans));
    OrphansListed(s.ops, orphans);
    ShutdownKeepsRest(s, z.phase);
    OwnedExactly(s.ops, s.kernel);
    OwnedOrphans(s.ops, s.kernel, Waiting(z.phase));
    SocketsSame(s.ops, PinAll(s.ops), s.sockets);
  }

  /** While draining, everybody left is an orphan and already has an answer. */
  lemma DrainingRest(s: Iocp, p: Phase, t: Iocp, q: Phase)
    requires Rest(s, p) && p.Draining? && s.shuttingDown && t == s.(kernel := t.kernel)
    requires (q.Draining? || q.Delivering?) && q.listed == p.listed
    ensures Rest(t, q) && s.ops.Keys <= Waiting(p)
  {
    hide Accounted, Ids, WakeIds, Quick;
    assert QuickIds(t, q) == QuickIds(s, p);
    assert Listed(q) + Waiting(q) == Listed(p) + Waiting(p);
  }

  lemma DrainKeeps(y: System)
    requires Inv(y) && Enabled(y, Drain)
    ensures Inv(Apply(y, Drain))
  {
    hide Owned, SocketsKept, Held, Rest, Ids;
    var s := y.loop;
    var z := Apply(y, Drain);
    DrainingRest(s, y.phase, z.loop, z.phase);
    OwnedDrain(s.ops, s.kernel, Waiting(y.phase));
  }

  lemma DrainedKeeps(y: System)
    requires Inv(y) && Enabled(y, Drained)
    ensures Inv(Apply(y, Drained))
  {
    hide Owned, SocketsKept, Held, Rest, Ids;
    DrainingRest(y.loop, y.phase, y.loop, Delivering(y.phase.listed, false));
    OwnedRelease(y.loop.ops, y.loop.kernel, Waiting(y.phase));
  }

  // ── every step keeps it ─────────────────────────────────────────────────────

  lemma StepKeeps(y: System, a: Action)
    requires Inv(y) && Enabled(y, a)
    ensures Inv(Apply(y, a))
  {
    hide Inv, Listed, QuickIds;
    match a
    case StartTransfer(socket, deadline, taken) => TransferKeeps(y, socket, deadline, taken);
    case StartAccept(socket, deadline, taken) => AcceptKeeps(y, socket, deadline, taken);
    case StartTimer(wakeAt, deadline) => TimerKeeps(y, wakeAt, deadline);
    case CloseHandle(socket) => CloseKeeps(y, socket);
    case PinCancel(id) => PinKeeps(y, id);
    case PushCancel(id) => PushKeeps(y, id);
    case Complete(id, status) => CompleteKeeps(y, id, status);
    case PostWakeup => WakeupKeeps(y);
    case Dequeue(n) => DequeueKeeps(y, n);
    case Classify => ClassifyKeeps(y);
    case Sweep(now, keys) => SweepKeeps(y, now, keys);
    case Expire => ExpireKeeps(y);
    case Cancel => CancelKeeps(y);
    case Deliver => DeliverKeeps(y);
    case Shutdown(orphans) => ShutdownKeeps(y, orphans);
    case Drain => DrainKeeps(y);
    case Drained => DrainedKeeps(y);
    case _ => TurnKeeps(y, a);
  }

  lemma TurnKeeps(y: System, a: Action)
    requires Inv(y) && Enabled(y, a) && (a.BeginDelivery? || a.RunPosted? || a.Return? || a.EndDelivery?)
    ensures Inv(Apply(y, a))
  {
    var z := Apply(y, a);
    assert Ids([]) == {};
    assert Listed(z.phase) == Listed(y.phase);
    assert QuickIds(y.loop, z.phase) <= QuickIds(y.loop, y.phase);
    hide Inv, Listed, QuickIds;
    PhaseKeeps(y, z.phase);
  }

  lemma {:induction false} RunKeeps(states: seq<System>, run: seq<Action>, j: nat)
    requires IsRun(states, run) && j <= |run|
    ensures Inv(states[j])
  {
    hide Inv, Apply, Enabled;
    if j == 0 {
      StartInv();
    } else {
      RunKeeps(states, run, j - 1);
      StepKeeps(states[j - 1], run[j - 1]);
    }
  }
}

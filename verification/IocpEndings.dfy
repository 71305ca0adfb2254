/** How the completion-port loop ends things: orphans at shutdown, and the sockets
accepts were given. */
module IocpEndings {
  import opened Accounts
  import opened Octets
  import opened Timers
  import opened IocpLoop
  import opened IocpLedger
  import opened IocpRuns
  import opened IocpSafety
  import opened IocpClock
  import opened IocpRequests
  import opened IocpCompletions

  // ── orphans ─────────────────────────────────────────────────────────────────

  /** The loop is going down; while `id` is live it is listed, and only with `o`. */
  ghost predicate Doomed(y: System, id: nat, o: Outcome)
  {
    && y.loop.shuttingDown
    && (forall r :: (id, r) in y.loop.resumed ==> r == o)
    && (id in y.loop.ops ==>
          && (y.phase.Draining? || y.phase.Delivering?)
          && id in Ids(y.phase.listed)
          && (forall q :: q in y.phase.listed && q.0 == id ==> q.1 == o))
  }

  lemma DoomedDeliver(y: System, id: nat, o: Outcome)
    requires Doomed(y, id, o) && Enabled(y, Deliver)
    ensures Doomed(Apply(y, Deliver), id, o)
  {
    var q, tail := y.phase.listed[0], y.phase.listed[1..];
    assert y.phase.listed == [q] + tail;
    ListMore([q], tail);
    assert Ids([q]) == {q.0} by { assert [q][0] == q; }
    assert q in y.phase.listed;
    hide CancelTimer, Dispose, Ids;
  }

  lemma DoomedStep(y: System, a: Action, id: nat, o: Outcome)
    requires Doomed(y, id, o) && Enabled(y, a) && (y.phase.Idle? || y.phase.Draining? || y.phase.Delivering?)
    ensures Doomed(Apply(y, a), id, o)
    ensures var p := Apply(y, a).phase; p.Idle? || p.Draining? || p.Delivering?
  {
    hide SubmitTransfer, SubmitAccept, SubmitTimer, Finalize, Ids, PacketOutcome, CancelOne, ExpireOne,
      TargetsOf, NotDue;
    match a
    case StartTransfer(socket, deadline, taken) =>
      assert SubmitTransfer(y.loop, socket, deadline, taken) == y.loop by { RefusedDown(y.loop, a); }
    case StartAccept(socket, deadline, taken) =>
      assert SubmitAccept(y.loop, socket, deadline, taken) == y.loop by { RefusedDown(y.loop, a); }
    case StartTimer(wakeAt, deadline) => assert SubmitTimer(y.loop, wakeAt, deadline) == y.loop by { RefusedDown(y.loop, a); }
    case PinCancel(i) =>
      PinAside(y.loop, i, Cancelled);
      assert RequestCancel(y.loop, i).resumed == y.loop.resumed && RequestCancel(y.loop, i).shuttingDown == y.loop.shuttingDown;
      hide FixReason;
    case Deliver => DoomedDeliver(y, id, o);
    case EndDelivery => assert Ids([]) == {} by { NobodyIn(); }
    case _ =>
  }

  lemma RefusedDown(s: Iocp, a: Action)
    requires s.shuttingDown
    ensures a.StartTransfer? ==> SubmitTransfer(s, a.socket, a.deadline, a.taken) == s
    ensures a.StartAccept? ==> SubmitAccept(s, a.socket, a.deadline, a.taken) == s
    ensures a.StartTimer? ==> SubmitTimer(s, a.wakeAt, a.deadline) == s
  {
  }

  lemma {:induction false} RunDoomed(states: seq<System>, run: seq<Action>, i: nat, j: nat, id: nat, o: Outcome)
    requires IsRun(states, run) && i <= j <= |run| && Doomed(states[i], id, o) && states[i].phase.Draining?
    ensures Doomed(states[j], id, o)
    ensures var p := states[j].phase; p.Idle? || p.Draining? || p.Delivering?
    decreases j
  {
    hide Apply, Enabled, Doomed;
    if i < j {
      RunDoomed(states, run, i, j - 1, id, o);
      DoomedStep(states[j - 1], run[j - 1], id, o);
    }
  }

  lemma DoomBegins(y: System, orphans: seq<nat>, id: nat, o: Outcome)
    requires Inv(y) && Enabled(y, Shutdown(orphans)) && id in y.loop.ops
    requires o == if y.loop.ops[id].fixed.Some? then y.loop.ops[id].fixed.value else Cancelled
    ensures Doomed(Apply(y, Shutdown(orphans)), id, o)
  {
    NotYetResumed(y.loop, y.phase, id);
    var list := Orphans(y.loop.ops, orphans);
    var k :| 0 <= k < |orphans| && orphans[k] == id;
    assert list[k] in list && list[k].0 == id;
    forall q | q in list && q.0 == id ensures q.1 == o {
      var i :| 0 <= i < |orphans| && list[i] == q;
    }
    hide Inv, PinAll, BackedIds, Orphans;
  }

  /** Whoever is left when the loop shuts down is delivered the answer it already
      has, and otherwise `Cancelled`. */
  lemma {:induction false} OrphanDelivered(states: seq<System>, run: seq<Action>, m: nat, j: nat, id: nat)
    requires IsRun(states, run) && m < j <= |run| && run[m].Shutdown? && id in states[m].loop.ops
    ensures var fixed := states[m].loop.ops[id].fixed;
      var o := if fixed.Some? then fixed.value else Cancelled;
      && (forall x :: (id, x) in states[j].loop.resumed ==> x == o)
      && (states[j].phase.Idle? ==> (id, o) in states[j].loop.resumed)
  {
    RunKeeps(states, run, m);
    hide Inv, BeginShutdown, Orphans, BackedIds;
    var fixed := states[m].loop.ops[id].fixed;
    var o := if fixed.Some? then fixed.value else Cancelled;
    DoomBegins(states[m], run[m].orphans, id, o);
    assert states[m + 1].phase.Draining?;
    hide Apply, Enabled;
    RunDoomed(states, run, m + 1, j, id, o);
    if states[j].phase.Idle? {
      GoneIsResumed(states, run, m, j, id);
    }
  }

  // ── sockets of accepts ──────────────────────────────────────────────────────

  /** `id` ended without success. */
  ghost predicate Failed(s: Iocp, id: nat)
  {
    id in s.discarded || exists o :: o != Success && (id, o) in s.resumed
  }

  /** The socket `v` is with the accept `id`, or where its outcome sends it. */
  ghost predicate Disposed(s: Iocp, id: nat, v: nat)
  {
    && id <= s.nextId && v <= s.sockets.next
    && (id in s.ops ==> s.ops[id].accepted == Some(v))
    && (id !in s.ops ==> v in s.sockets.handed + s.sockets.closed)
    && (v in s.sockets.handed <==> (id, Success) in s.resumed)
    && (v in s.sockets.closed <==> Failed(s, id))
  }

  lemma DisposedAside(s: Iocp, t: Iocp, id: nat, v: nat)
    requires Disposed(s, id, v) && s.nextId <= t.nextId && s.sockets.next <= t.sockets.next
    requires id in t.ops <==> id in s.ops
    requires id in t.ops ==> t.ops[id].accepted == s.ops[id].accepted
    requires t.resumed == s.resumed && (id in t.discarded <==> id in s.discarded)
    requires (v in t.sockets.handed <==> v in s.sockets.handed) && (v in t.sockets.closed <==> v in s.sockets.closed)
    ensures Disposed(t, id, v)
  {
  }

  lemma SubmitDisposes(y: System, a: Action, id: nat, v: nat)
    requires Inv(y) && Disposed(y.loop, id, v) && Enabled(y, a) && (a.StartTransfer? || a.StartAccept? || a.StartTimer?)
    ensures Disposed(Apply(y, a).loop, id, v)
  {
    var z := Apply(y, a);
    assert y.loop.nextId + 1 !in y.loop.ops by { Fresh(y); }
    hide Inv, Disposed, TimersFor, HandleFor, CancelTimer;
    assert id <= y.loop.nextId && v <= y.loop.sockets.next by { DisposedBounds(y.loop, id, v); }
    if id in z.loop.ops { SubmitRecord(y, a, id); }
    if id in y.loop.ops { StepFrees(y, a, id); }
    SubmitSockets(y, a, id, v);
    DisposedAside(y.loop, z.loop, id, v);
  }

  lemma DisposedBounds(s: Iocp, id: nat, v: nat)
    requires Disposed(s, id, v)
    ensures id <= s.nextId && v <= s.sockets.next
  {
  }

  lemma SubmitSockets(y: System, a: Action, id: nat, v: nat)
    requires Enabled(y, a) && (a.StartTransfer? || a.StartAccept? || a.StartTimer?)
    requires id <= y.loop.nextId && v <= y.loop.sockets.next
    ensures var s, t := y.loop, Apply(y, a).loop;
      && s.nextId <= t.nextId && s.sockets.next <= t.sockets.next && t.resumed == s.resumed
      && (id in t.discarded <==> id in s.discarded)
      && t.sockets.handed == s.sockets.handed && (v in t.sockets.closed <==> v in s.sockets.closed)
  {
    hide TimersFor, HandleFor, CancelTimer;
  }

  lemma DeliverDisposes(y: System, id: nat, v: nat)
    requires Inv(y) && Disposed(y.loop, id, v) && Enabled(y, Deliver)
    ensures Disposed(Apply(y, Deliver).loop, id, v)
  {
    var s := y.loop;
    var (i, o) := y.phase.listed[0];
    if i in s.ops {
      var t := Finalize(s, i, o);
      assert t.ops == s.ops - {i} && t.discarded == s.discarded && t.nextId == s.nextId;
      assert t.resumed == s.resumed + [(i, o)];
      NotYetResumed(s, y.phase, i);
      assert i !in s.discarded by { assert i in s.ops.Keys; }
      SocketGoes(s, i, o, id, v);
      hide Inv, Take, Dispose;
      FailedAfter(s, t, i, o, id);
    }
  }

  lemma FailedAfter(s: Iocp, t: Iocp, i: nat, o: Outcome, id: nat)
    requires t.discarded == s.discarded && t.resumed == s.resumed + [(i, o)]
    ensures Failed(t, id) <==> Failed(s, id) || (i == id && o != Success)
  {
    assert forall p :: p in t.resumed <==> p in s.resumed || p == (i, o);
  }

  /** Delivering to `i` moves its own socket and no other. */
  lemma SocketGoes(s: Iocp, i: nat, o: Outcome, id: nat, v: nat)
    requires SocketsKept(s.ops, s.sockets) && Disposed(s, id, v) && i in s.ops
    ensures var after := Dispose(s.sockets, s.ops[i], o);
      && after.next == s.sockets.next
      && (v in after.handed <==> v in s.sockets.handed || (i == id && o == Success))
      && (v in after.closed <==> v in s.sockets.closed || (i == id && o != Success))
  {
    assert i != id ==> s.ops[i].accepted != Some(v);
    hide Unrepeated;
  }

  lemma StepDisposes(y: System, a: Action, id: nat, v: nat)
    requires Inv(y) && Disposed(y.loop, id, v) && Enabled(y, a)
    ensures Disposed(Apply(y, a).loop, id, v)
  {
    if a.StartTransfer? || a.StartAccept? || a.StartTimer? {
      SubmitDisposes(y, a, id, v);
    } else if a.Deliver? {
      DeliverDisposes(y, id, v);
    } else {
      assert id <= y.loop.nextId;
      if id in y.loop.ops { StepFrees(y, a, id); }
      hide Disposed, Inv;
      if id in Apply(y, a).loop.ops { StepRecord(y, a, id); }
      BooksAside(y, a);
      hide Apply, Enabled;
      DisposedAside(y.loop, Apply(y, a).loop, id, v);
    }
  }

  lemma BooksAside(y: System, a: Action)
    requires Enabled(y, a) && !a.StartTransfer? && !a.StartAccept? && !a.StartTimer? && !a.Deliver?
    ensures var s, t := y.loop, Apply(y, a).loop;
      t.nextId == s.nextId && t.sockets == s.sockets && t.resumed == s.resumed && t.discarded == s.discarded
  {
    hide CancelTimer, TargetsOf, NotDue, PacketOutcome, Orphans, BackedIds, DueInOrder, CancelOne;
  }

  lemma {:induction false} RunDisposes(states: seq<System>, run: seq<Action>, i: nat, j: nat, id: nat, v: nat)
    requires IsRun(states, run) && i <= j <= |run| && Disposed(states[i].loop, id, v)
    ensures Disposed(states[j].loop, id, v)
    decreases j
  {
    hide Apply, Enabled, Inv, Disposed;
    if i < j {
      RunDisposes(states, run, i, j - 1, id, v);
      RunKeeps(states, run, j - 1);
      StepDisposes(states[j - 1], run[j - 1], id, v);
    }
  }

  lemma AcceptBegins(y: System, a: Action)
    requires Inv(y) && Enabled(y, a) && a.StartAccept? && !y.loop.shuttingDown
    ensures Disposed(Apply(y, a).loop, y.loop.nextId + 1, y.loop.sockets.next + 1)
  {
    var s, t := y.loop, Apply(y, a).loop;
    var id, v := s.nextId + 1, s.sockets.next + 1;
    assert v !in s.sockets.handed + s.sockets.closed;
    assert id !in s.discarded && forall o :: (id, o) !in s.resumed by { NewIsUnheard(s, y.phase, id); }
    hide Inv, TimersFor, HandleFor, CancelTimer;
  }

  lemma NewIsUnheard(s: Iocp, p: Phase, id: nat)
    requires Rest(s, p) && id == s.nextId + 1
    ensures id !in s.discarded && forall o :: (id, o) !in s.resumed
  {
    assert !WasResumed(s.resumed, id);
    assert forall k :: 0 <= k < |s.resumed| ==> s.resumed[k].0 != id;
    hide Quick, Old, ShuttingDown;
  }

  /** The socket made for an accept is handed out if and only if the accept was
      delivered success, and closed if and only if it was delivered anything else
      or never taken in. */
  lemma {:induction false} SocketFollowsOutcome(states: seq<System>, run: seq<Action>, m: nat, j: nat)
    requires IsRun(states, run) && m < j <= |run| && run[m].StartAccept? && !states[m].loop.shuttingDown
    ensures var id, v := states[m].loop.nextId + 1, states[m].loop.sockets.next + 1;
      var t := states[j].loop;
      && (v in t.sockets.handed <==> (id, Success) in t.resumed)
      && (v in t.sockets.closed <==> id in t.discarded || exists o :: o != Success && (id, o) in t.resumed)
  {
    hide Apply, Enabled, Inv;
    RunKeeps(states, run, m);
    AcceptBegins(states[m], run[m]);
    RunDisposes(states, run, m + 1, j, states[m].loop.nextId + 1, states[m].loop.sockets.next + 1);
  }
}

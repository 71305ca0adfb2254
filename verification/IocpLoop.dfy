/** The operation table of the completion-port backend.

A kernel-backed operation owes a completion packet: until it is dequeued the
kernel may write into the record, so the record outlives cancellations and
deadlines, which only pin the answer. Timers owe no packet.
*/
module IocpLoop {
  import opened Accounts
  import opened Octets
  import opened Timers

  datatype Kind = Timer | Transfer | Accept

  /** `accepted` is the socket an accept creates before it is submitted; `closed`
      says the handle was detached; `fixed` is an answer decided early. */
  datatype Operation = Operation(
    kind: Kind,
    socket: int,
    closed: bool,
    accepted: Option<nat>,
    fixed: Option<Outcome>,
    wake: Option<Key>,
    deadline: Option<Key>)
  {
    predicate Backed()
    {
      !kind.Timer?
    }
  }

  datatype Packet = Wakeup | Done(id: nat, status: Outcome)

  /** What the kernel holds: operations under way, and packets in the port. */
  datatype Kernel = Kernel(inFlight: set<nat>, port: seq<Packet>)

  /** Sockets created for accepts, and how each was disposed of. */
  datatype Sockets = Sockets(next: nat, handed: seq<nat>, closed: seq<nat>)

  /** `pushing` are the cancellations whose caller has pinned the answer but not
      queued the id yet. */
  datatype Iocp = Iocp(
    ops: map<nat, Operation>,
    timers: Queue,
    serial: nat,
    cancels: seq<nat>,
    pushing: set<nat>,
    nextId: nat,
    kernel: Kernel,
    sockets: Sockets,
    shuttingDown: bool,
    resumed: seq<(nat, Outcome)>,
    discarded: set<nat>)

  function Created(): (s: Iocp)
  {
    Iocp(map[], map[], 0, [], {}, 0, Kernel({}, []), Sockets(0, [], []), false, [], {})
  }

  // ── submission ──────────────────────────────────────────────────────────────

  /** A record in the table and its timers in the queue, under one lock. */
  function Acquire(s: Iocp, kind: Kind, socket: int, accepted: Option<nat>, wakeAt: Option<int>, deadline: Option<int>): (r: Iocp)
  {
    var id := s.nextId + 1;
    var op := Operation(kind, socket, false, accepted, None, HandleFor(wakeAt, s.serial + 1),
                        HandleFor(deadline, s.serial + Serials(wakeAt) + 1));
    s.(nextId := id,
       ops := s.ops[id := op],
       timers := s.timers + TimersFor(id, op.wake, op.deadline),
       serial := s.serial + Serials(wakeAt) + Serials(deadline))
  }

  /** Remove a record and its timers. */
  function Take(s: Iocp, id: nat): (r: Iocp)
    requires id in s.ops
  {
    var op := s.ops[id];
    s.(ops := s.ops - {id}, timers := CancelTimer(CancelTimer(s.timers, op.wake), op.deadline))
  }

  function Discard(s: Iocp, id: nat): (r: Iocp)
    requires id in s.ops
  {
    Take(s, id).(discarded := s.discarded + {id})
  }

  /** Start a transfer or a connect; `taken` is whether the kernel accepted it. */
  function SubmitTransfer(s: Iocp, socket: int, deadline: Option<int>, taken: bool): (r: Iocp)
  {
    if s.shuttingDown then s
    else
      var s1 := Acquire(s, Transfer, socket, None, None, deadline);
      if taken then s1.(kernel := s1.kernel.(inFlight := s1.kernel.inFlight + {s1.nextId}))
      else Discard(s1, s1.nextId)
  }

  /** Start an accept: create the socket first; if the kernel refuses, close it
      and drop the record. */
  function SubmitAccept(s: Iocp, socket: int, deadline: Option<int>, taken: bool): (r: Iocp)
  {
    if s.shuttingDown then s
    else
      var made := s.sockets.next + 1;
      var s1 := Acquire(s, Accept, socket, Some(made), None, deadline).(sockets := s.sockets.(next := made));
      if taken then s1.(kernel := s1.kernel.(inFlight := s1.kernel.inFlight + {s1.nextId}))
      else Discard(s1, s1.nextId).(sockets := s1.sockets.(closed := s1.sockets.closed + [made]))
  }

  function SubmitTimer(s: Iocp, wakeAt: int, deadline: Option<int>): (r: Iocp)
  {
    if s.shuttingDown then s else Acquire(s, Timer, -1, None, Some(wakeAt), deadline)
  }

  // ── pinning an answer ───────────────────────────────────────────────────────

  predicate Pinnable(s: Iocp, id: nat)
  {
    id in s.ops && s.ops[id].fixed.None?
  }

  /** Pin an answer without resolving; the first reason stays. */
  function FixReason(s: Iocp, id: nat, reason: Outcome): (r: Iocp)
  {
    if Pinnable(s, id) then
      var op := s.ops[id];
      s.(ops := s.ops[id := op.(fixed := Some(reason), deadline := None)],
         timers := CancelTimer(s.timers, op.deadline))
    else s
  }

  /** A cancellation request, up to the point where it queues the id. */
  function RequestCancel(s: Iocp, id: nat): (r: Iocp)
  {
    var s1 := FixReason(s, id, Cancelled);
    if Pinnable(s, id) && !s.ops[id].Backed() then s1.(pushing := s1.pushing + {id}) else s1
  }

  function QueueCancel(s: Iocp, id: nat): (r: Iocp)
  {
    s.(pushing := s.pushing - {id}, cancels := s.cancels + [id])
  }

  /** The caller is about to close this handle. */
  function Detach(s: Iocp, socket: int): (r: Iocp)
  {
    s.(ops := map id | id in s.ops :: if s.ops[id].socket == socket then s.ops[id].(closed := true) else s.ops[id])
  }

  // ── resolution ──────────────────────────────────────────────────────────────

  /** What a packet comes to: a pinned answer wins, a detached handle is not
      asked, otherwise the packet's own status stands. */
  function PacketOutcome(s: Iocp, id: nat, status: Outcome): (o: Outcome)
  {
    if id !in s.ops then status
    else if s.ops[id].fixed.Some? then s.ops[id].fixed.value
    else if s.ops[id].closed then Cancelled
    else status
  }

  /** The socket of an accept goes to the caller, or is closed. */
  function Dispose(sockets: Sockets, op: Operation, outcome: Outcome): (r: Sockets)
  {
    if !op.kind.Accept? || op.accepted.None? then sockets
    else if outcome.Success? then sockets.(handed := sockets.handed + [op.accepted.value])
    else sockets.(closed := sockets.closed + [op.accepted.value])
  }

  /** The one place an operation resolves; a stale id resolves nothing. */
  function Finalize(s: Iocp, id: nat, outcome: Outcome): (r: Iocp)
  {
    if id in s.ops then
      Take(s, id).(sockets := Dispose(s.sockets, s.ops[id], outcome), resumed := s.resumed + [(id, outcome)])
    else s
  }

  // ── shutting down ───────────────────────────────────────────────────────────

  /** Pin an answer for everybody who has none. */
  function PinAll(ops: map<nat, Operation>): (r: map<nat, Operation>)
  {
    map id | id in ops :: if ops[id].fixed.None? then ops[id].(fixed := Some(Cancelled)) else ops[id]
  }

  function BeginShutdown(s: Iocp): (r: Iocp)
  {
    s.(shuttingDown := true, cancels := [], ops := PinAll(s.ops))
  }

  ghost function BackedIds(ops: map<nat, Operation>): (r: set<nat>)
  {
    set id | id in ops && ops[id].Backed()
  }
}

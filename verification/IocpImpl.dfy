/** The completion-port backend as the loop thread runs it. Each method is tied to
the step of the same name on values. */
module IocpImpl {
  import opened Accounts
  import opened Octets
  import opened Timers
  import opened IocpLoop
  import opened IocpRuns

  datatype Submitted = Accepted(id: nat) | LoopGone | Refused

  /** What pinning an answer found. */
  datatype Fixed = Fixed(applied: bool, resolveNow: bool)

  // ── whole lists ─────────────────────────────────────────────────────────────

  /** Every packet of a batch that belongs to an operation, with its outcome. */
  function ClassifyAll(s: Iocp, entries: seq<Packet>): (r: List)
  {
    if entries == [] then []
    else
      var n := |entries| - 1;
      var p := entries[n];
      ClassifyAll(s, entries[..n]) + if p.Done? then [(p.id, PacketOutcome(s, p.id, p.status))] else []
  }

  function ExpireAll(s: Iocp, targets: seq<Target>): (r: (Iocp, List))
  {
    if targets == [] then (s, [])
    else
      var n := |targets| - 1;
      var (s1, list) := ExpireAll(s, targets[..n]);
      var (s2, found) := ExpireOne(s1, targets[n]);
      (s2, list + found)
  }

  function CancelAll(s: Iocp, ids: seq<nat>): (r: List)
  {
    if ids == [] then [] else CancelAll(s, ids[..|ids| - 1]) + CancelOne(s, ids[|ids| - 1])
  }

  /** How many of these packets end an operation. */
  function Completions(packets: seq<Packet>): (n: nat)
  {
    if packets == [] then 0
    else Completions(packets[..|packets| - 1]) + if packets[|packets| - 1].Done? then 1 else 0
  }

  class CompletionLoop {
    const timers: TimerQueue
    var operations: map<nat, Operation>
    var cancels: seq<nat>
    var nextId: nat
    var shuttingDown: bool
    var sockets: Sockets
    ghost var pushing: set<nat>
    ghost var kernel: Kernel
    ghost var resumed: List
    ghost var discarded: set<nat>

    ghost function State(): (s: Iocp)
      reads this, timers
    {
      Iocp(operations, timers.timers, timers.serial, cancels, pushing, nextId, kernel, sockets,
           shuttingDown, resumed, discarded)
    }

    constructor ()
      ensures State() == Created() && fresh(timers)
    {
      operations, cancels, nextId, shuttingDown, sockets := map[], [], 0, false, Sockets(0, [], []);
      pushing, kernel, resumed, discarded := {}, Kernel({}, []), [], {};
      timers := new TimerQueue();
    }

    /** A record in the table and its timers in the queue, under one lock. */
    method AcquireOperation(kind: Kind, socket: int, accepted: Option<nat>, wakeAt: Option<int>, deadline: Option<int>)
      returns (id: nat)
      modifies this`operations, this`nextId, timers
      ensures State() == Acquire(old(State()), kind, socket, accepted, wakeAt, deadline)
      ensures id == nextId && id in operations
    {
      nextId := nextId + 1;
      id := nextId;
      hide TimersFor, HandleFor, Serials;
      var wake, cut := timers.AddFor(id, wakeAt, deadline);
      operations := operations[id := Operation(kind, socket, false, accepted, None, wake, cut)];
    }

    /** Remove a record and its timers. */
    method TakeOut(id: nat) returns (op: Operation)
      requires id in operations
      modifies this`operations, timers`timers
      ensures State() == Take(old(State()), id) && op == old(operations)[id]
    {
      op := operations[id];
      operations := operations - {id};
      timers.Cancel(op.wake);
      timers.Cancel(op.deadline);
    }

    method DiscardOne(id: nat)
      requires id in operations
      modifies this`operations, this`discarded, timers`timers
      ensures State() == Discard(old(State()), id)
    {
      hide Take;
      var _ := TakeOut(id);
      discarded := discarded + {id};
    }

    /** Start a transfer; `taken` is the kernel's answer. */
    method StartTransfer(socket: int, deadline: Option<int>, taken: bool) returns (r: Submitted)
      modifies this`operations, this`nextId, this`kernel, this`discarded, timers
      ensures State() == SubmitTransfer(old(State()), socket, deadline, taken)
      ensures r == if old(shuttingDown) then LoopGone else if taken then Accepted(old(nextId) + 1) else Refused
    {
      if shuttingDown {
        return LoopGone;
      }
      AcquireFields(State(), Transfer, socket, None, None, deadline);
      var id := AcquireOperation(Transfer, socket, None, None, deadline);
      hide Acquire, Discard;
      if taken {
        kernel := kernel.(inFlight := kernel.inFlight + {id});
        return Accepted(id);
      }
      DiscardOne(id);
      r := Refused;
    }

    /** Start an accept on a socket created beforehand. */
    method StartAccept(socket: int, deadline: Option<int>, taken: bool) returns (r: Submitted)
      modifies this`operations, this`nextId, this`kernel, this`sockets, this`discarded, timers
      ensures State() == SubmitAccept(old(State()), socket, deadline, taken)
      ensures r == if old(shuttingDown) then LoopGone else if taken then Accepted(old(nextId) + 1) else Refused
    {
      if shuttingDown {
        return LoopGone;
      }
      var made := sockets.next + 1;
      AcquireFields(State(), Accept, socket, Some(made), None, deadline);
      var id := AcquireOperation(Accept, socket, Some(made), None, deadline);
      hide Acquire;
      sockets := sockets.(next := made);
      if taken {
        kernel := kernel.(inFlight := kernel.inFlight + {id});
        return Accepted(id);
      }
      sockets := sockets.(closed := sockets.closed + [made]);
      DiscardOne(id);
      r := Refused;
    }

    /** Pin an answer without resolving; the first reason stays. */
    method Fix(id: nat, reason: Outcome) returns (fixed: Fixed)
      modifies this`operations, timers`timers
      ensures State() == FixReason(old(State()), id, reason)
      ensures fixed.applied == Pinnable(old(State()), id)
      ensures fixed.resolveNow == (fixed.applied && !old(operations)[id].Backed())
    {
      if id !in operations || operations[id].fixed.Some? {
        return Fixed(false, false);
      }
      var op := operations[id];
      operations := operations[id := op.(fixed := Some(reason), deadline := None)];
      timers.Cancel(op.deadline);
      fixed := Fixed(true, !op.Backed());
    }

    /** The part of a cancellation request before it queues the id; `queue` says
        whether that is still to come. */
    method PinCancel(id: nat) returns (queue: bool)
      modifies this`operations, this`pushing, timers`timers
      ensures State() == RequestCancel(old(State()), id)
      ensures queue == (Pinnable(old(State()), id) && !old(operations)[id].Backed())
    {
      hide FixReason;
      var fixed := Fix(id, Cancelled);
      queue := fixed.resolveNow;
      if queue {
        pushing := pushing + {id};
      }
    }

    method PushCancel(id: nat)
      modifies this`cancels, this`pushing
      ensures State() == QueueCancel(old(State()), id)
    {
      cancels := cancels + [id];
      pushing := pushing - {id};
    }

    /** The one place an operation resolves; `resume` says whether the caller is to
        resume its coroutine. */
    method FinalizeOne(id: nat, outcome: Outcome) returns (resume: bool)
      modifies this`operations, this`sockets, this`resumed, timers`timers
      ensures State() == Finalize(old(State()), id, outcome) && resume == (id in old(operations))
    {
      if id !in operations {
        return false;
      }
      hide Take;
      var op := TakeOut(id);
      if op.kind.Accept? && op.accepted.Some? {
        if outcome.Success? {
          sockets := sockets.(handed := sockets.handed + [op.accepted.value]);
        } else {
          sockets := sockets.(closed := sockets.closed + [op.accepted.value]);
        }
      }
      resumed := resumed + [(id, outcome)];
      resume := true;
    }

    // ── one batch ─────────────────────────────────────────────────────────────

    method Outcomes(entries: seq<Packet>) returns (resolved: List)
      ensures resolved == ClassifyAll(State(), entries)
    {
      resolved := [];
      for i := 0 to |entries|
        invariant resolved == ClassifyAll(State(), entries[..i])
      {
        assert entries[..i + 1][..i] == entries[..i];
        var p := entries[i];
        if p.Done? {
          var outcome := p.status;
          if p.id in operations {
            var op := operations[p.id];
            if op.fixed.Some? {
              outcome := op.fixed.value;
            } else if op.closed {
              outcome := Cancelled;
            }
          }
          resolved := resolved + [(p.id, outcome)];
        }
      }
      assert entries[..|entries|] == entries;
    }

    method ExpireDue(expired: seq<Target>, resolved: List) returns (after: List)
      modifies this`operations, timers`timers
      ensures var r := ExpireAll(old(State()), expired); State() == r.0 && after == resolved + r.1
    {
      hide FixReason;
      after := resolved;
      for i := 0 to |expired|
        invariant var r := ExpireAll(old(State()), expired[..i]); State() == r.0 && after == resolved + r.1
      {
        assert expired[..i + 1][..i] == expired[..i];
        var t := expired[i];
        if !t.isDeadline {
          after := after + [(t.operation, Success)];
        } else {
          var fixed := Fix(t.operation, TimedOut);
          if fixed.resolveNow {
            after := after + [(t.operation, TimedOut)];
          }
        }
      }
      assert expired[..|expired|] == expired;
    }

    method TakeCancels(asked: seq<nat>, resolved: List) returns (after: List)
      ensures after == resolved + CancelAll(State(), asked)
    {
      after := resolved;
      for i := 0 to |asked|
        invariant after == resolved + CancelAll(State(), asked[..i])
      {
        assert asked[..i + 1][..i] == asked[..i];
        var id := asked[i];
        if id in operations && operations[id].fixed.Some? {
          after := after + [(id, operations[id].fixed.value)];
        }
      }
      assert asked[..|asked|] == asked;
    }

    // ── shutting down ─────────────────────────────────────────────────────────

    /** Wait for a packet for each of `count` operations; `arriving` are the packets
        the port yields, in order. */
    method Drain(arriving: seq<Packet>, count: nat) returns (used: nat)
      requires count <= Completions(arriving)
      ensures used <= |arriving| && Completions(arriving[..used]) == count
      ensures used > 0 ==> Completions(arriving[..used - 1]) < count
    {
      used := 0;
      var left := count;
      while left != 0
        invariant used <= |arriving| && Completions(arriving[..used]) + left == count
        invariant used > 0 ==> Completions(arriving[..used - 1]) < count
        decreases |arriving| - used
      {
        assert arriving[..|arriving|] == arriving;
        assert arriving[..used + 1][..used] == arriving[..used];
        var p := arriving[used];
        used := used + 1;
        if p.Done? {
          left := left - 1;
        }
      }
    }
  }
}

/** What every critical section of the completion-port loop keeps. */
module IocpLedger {
  import opened Accounts
  import opened Octets
  import opened Timers
  import opened IocpLoop

  // ── packets ─────────────────────────────────────────────────────────────────

  ghost function PortIds(port: seq<Packet>): (r: set<nat>)
  {
    set p | p in port && p.Done? :: p.id
  }

  /** No operation has two packets. */
  ghost predicate OnePacketEach(port: seq<Packet>)
  {
    forall i, j :: 0 <= i < j < |port| && port[i].Done? && port[j].Done? ==> port[i].id != port[j].id
  }

  /** Every record the kernel may still write to. */
  ghost function Held(kernel: Kernel): (r: set<nat>)
  {
    kernel.inFlight + PortIds(kernel.port)
  }

  lemma PortSplit(port: seq<Packet>, n: nat)
    requires n <= |port|
    ensures PortIds(port) == PortIds(port[..n]) + PortIds(port[n..])
    ensures OnePacketEach(port) ==> OnePacketEach(port[..n]) && OnePacketEach(port[n..])
    ensures OnePacketEach(port) ==> PortIds(port[..n]) !! PortIds(port[n..])
  {
    assert port == port[..n] + port[n..];
  }

  lemma PortAppend(port: seq<Packet>, p: Packet)
    ensures PortIds(port + [p]) == PortIds(port) + (if p.Done? then {p.id} else {})
    ensures OnePacketEach(port) && (p.Done? ==> p.id !in PortIds(port)) ==> OnePacketEach(port + [p])
  {
    var longer := port + [p];
    assert longer[|port|] == p && longer[|port|] in longer;
    assert forall q :: q in longer <==> q in port || q == p;
    if OnePacketEach(port) && (p.Done? ==> p.id !in PortIds(port)) {
      forall i, j | 0 <= i < j < |longer| && longer[i].Done? && longer[j].Done?
        ensures longer[i].id != longer[j].id
      {
        assert longer[i] in port;
        if j < |port| {
          assert longer[j] == port[j] && longer[i] == port[i];
        }
      }
    }
  }

  // ── ownership ───────────────────────────────────────────────────────────────

  /** The kernel holds only live records that owe a packet, each once; any other
      record that owes one is listed for delivery, its packet dequeued. */
  ghost predicate Owned(ops: map<nat, Operation>, kernel: Kernel, listed: set<nat>, orphans: set<nat>)
  {
    && OnePacketEach(kernel.port)
    && kernel.inFlight !! PortIds(kernel.port)
    && (forall id :: id in Held(kernel) ==> id in ops && ops[id].Backed() && id !in listed)
    && (forall id :: id in ops && ops[id].Backed() ==> id in Held(kernel) || id in listed || id in orphans)
  }

  /** The same kinds under the same ids. */
  ghost predicate SameKinds(ops: map<nat, Operation>, after: map<nat, Operation>)
  {
    after.Keys == ops.Keys && forall id :: id in ops ==> after[id].kind == ops[id].kind
  }

  lemma OwnedSameKinds(
      ops: map<nat, Operation>, after: map<nat, Operation>, kernel: Kernel, listed: set<nat>, orphans: set<nat>)
    requires Owned(ops, kernel, listed, orphans) && SameKinds(ops, after)
    ensures Owned(after, kernel, listed, orphans)
  {
    hide OnePacketEach, PortIds;
  }

  lemma OwnedSubmit(ops: map<nat, Operation>, kernel: Kernel, listed: set<nat>, orphans: set<nat>, id: nat, op: Operation)
    requires Owned(ops, kernel, listed, orphans) && id !in ops && id !in listed && op.Backed()
    ensures Owned(ops[id := op], kernel.(inFlight := kernel.inFlight + {id}), listed, orphans)
  {
    hide OnePacketEach, PortIds;
    assert id !in Held(kernel);
  }

  lemma OwnedTimer(ops: map<nat, Operation>, kernel: Kernel, listed: set<nat>, orphans: set<nat>, id: nat, op: Operation)
    requires Owned(ops, kernel, listed, orphans) && id !in ops && !op.Backed()
    ensures Owned(ops[id := op], kernel, listed, orphans)
  {
    hide OnePacketEach, PortIds;
  }

  lemma OwnedComplete(ops: map<nat, Operation>, kernel: Kernel, listed: set<nat>, orphans: set<nat>, id: nat, status: Outcome)
    requires Owned(ops, kernel, listed, orphans) && id in kernel.inFlight
    ensures Owned(ops, Kernel(kernel.inFlight - {id}, kernel.port + [Done(id, status)]), listed, orphans)
    ensures Held(Kernel(kernel.inFlight - {id}, kernel.port + [Done(id, status)])) == Held(kernel)
  {
    PortAppend(kernel.port, Done(id, status));
    hide OnePacketEach, PortIds;
  }

  lemma OwnedWakeup(ops: map<nat, Operation>, kernel: Kernel, listed: set<nat>, orphans: set<nat>)
    requires Owned(ops, kernel, listed, orphans)
    ensures Owned(ops, kernel.(port := kernel.port + [Wakeup]), listed, orphans)
    ensures Held(kernel.(port := kernel.port + [Wakeup])) == Held(kernel)
  {
    PortAppend(kernel.port, Wakeup);
    hide OnePacketEach, PortIds;
  }

  /** Dequeuing lists whoever's packet came off. */
  lemma OwnedDequeue(ops: map<nat, Operation>, kernel: Kernel, listed: set<nat>, orphans: set<nat>, n: nat)
    requires Owned(ops, kernel, listed, orphans) && n <= |kernel.port|
    ensures Owned(ops, kernel.(port := kernel.port[n..]), listed + PortIds(kernel.port[..n]), orphans)
  {
    PortSplit(kernel.port, n);
    hide OnePacketEach, PortIds;
  }

  /** A record the kernel does not hold may go. */
  lemma OwnedTake(
      ops: map<nat, Operation>, kernel: Kernel, listed: set<nat>, fewer: set<nat>, orphans: set<nat>, id: nat)
    requires Owned(ops, kernel, listed, orphans) && id in listed && fewer <= listed <= fewer + {id}
    ensures Owned(ops - {id}, kernel, fewer, orphans)
  {
    hide OnePacketEach, PortIds;
  }

  /** Listing somebody who owes no packet, or nobody, is harmless. */
  lemma OwnedListTimer(
      ops: map<nat, Operation>, kernel: Kernel, listed: set<nat>, orphans: set<nat>, id: nat)
    requires Owned(ops, kernel, listed, orphans) && (id in ops ==> !ops[id].Backed())
    ensures Owned(ops, kernel, listed + {id}, orphans)
  {
    hide OnePacketEach, PortIds;
  }

  lemma OwnedUnlist(
      ops: map<nat, Operation>, kernel: Kernel, listed: set<nat>, fewer: set<nat>, orphans: set<nat>, id: nat)
    requires Owned(ops, kernel, listed, orphans) && id !in ops && fewer <= listed <= fewer + {id}
    ensures Owned(ops, kernel, fewer, orphans)
  {
    hide OnePacketEach, PortIds;
  }

  lemma PortHead(port: seq<Packet>)
    requires port != []
    ensures PortIds(port) == PortIds(port[1..]) + if port[0].Done? then {port[0].id} else {}
    ensures OnePacketEach(port) ==> OnePacketEach(port[1..]) && (port[0].Done? ==> port[0].id !in PortIds(port[1..]))
  {
    assert port == [port[0]] + port[1..];
  }

  lemma OwnedLetGo(ops: map<nat, Operation>, kernel: Kernel, after: Kernel, orphans: set<nat>, gone: set<nat>)
    requires Owned(ops, kernel, {}, orphans) && ops.Keys <= orphans
    requires after.inFlight == kernel.inFlight && OnePacketEach(after.port)
    requires PortIds(kernel.port) == PortIds(after.port) + gone && gone !! PortIds(after.port)
    ensures Owned(ops, after, {}, orphans) && Held(after) == Held(kernel) - gone && gone <= Held(kernel)
  {
    hide OnePacketEach, PortIds;
  }

  lemma OneFewer(s: set<nat>, t: set<nat>, id: nat)
    requires id in s && t == s - {id}
    ensures |t| == |s| - 1
  {
  }

  /** With everybody an orphan, dequeuing one packet lets go of one record. */
  lemma OwnedDrain(ops: map<nat, Operation>, kernel: Kernel, orphans: set<nat>)
    requires Owned(ops, kernel, {}, orphans) && kernel.port != [] && ops.Keys <= orphans
    ensures Owned(ops, kernel.(port := kernel.port[1..]), {}, orphans)
    ensures |Held(kernel.(port := kernel.port[1..]))| == |Held(kernel)| - if kernel.port[0].Done? then 1 else 0
  {
    var p := kernel.port[0];
    var after := kernel.(port := kernel.port[1..]);
    PortHead(kernel.port);
    var gone := if p.Done? then {p.id} else {};
    assert OnePacketEach(after.port);
    assert gone !! PortIds(after.port);
    hide PortIds, OnePacketEach;
    OwnedLetGo(ops, kernel, after, orphans, gone);
    hide Owned, Held;
    if p.Done? {
      OneFewer(Held(kernel), Held(after), p.id);
    } else {
      assert Held(after) == Held(kernel);
    }
  }

  /** Once the kernel holds nothing the orphans may be delivered. */
  lemma OwnedRelease(ops: map<nat, Operation>, kernel: Kernel, orphans: set<nat>)
    requires Owned(ops, kernel, {}, orphans) && |Held(kernel)| == 0
    ensures Owned(ops, kernel, orphans, {})
  {
    hide OnePacketEach, PortIds;
    assert Held(kernel) == {};
  }

  /** Between batches the kernel holds exactly the records that owe a packet. */
  lemma OwnedExactly(ops: map<nat, Operation>, kernel: Kernel)
    requires Owned(ops, kernel, {}, {})
    ensures Held(kernel) == BackedIds(ops)
  {
    hide OnePacketEach, PortIds;
  }

  lemma OwnedOrphans(ops: map<nat, Operation>, kernel: Kernel, orphans: set<nat>)
    requires Owned(ops, kernel, {}, {})
    ensures Owned(PinAll(ops), kernel, {}, orphans)
  {
    OwnedSameKinds(ops, PinAll(ops), kernel, {}, {});
    hide OnePacketEach, PortIds;
  }

  // ── who may be resolved without a packet ────────────────────────────────────

  /** These ids are old, and if still live owe no packet. */
  ghost predicate Quick(ops: map<nat, Operation>, nextId: nat, ids: set<nat>)
  {
    forall id :: id in ids ==> id <= nextId && (id in ops ==> !ops[id].Backed())
  }

  ghost function WakeIds(timers: Queue): (r: set<nat>)
  {
    set k | k in timers && !timers[k].isDeadline :: timers[k].operation
  }

  // ── sockets of accepts ──────────────────────────────────────────────────────

  ghost predicate Unrepeated(s: seq<nat>)
  {
    forall i, j :: 0 <= i < j < |s| ==> s[i] != s[j]
  }

  ghost predicate Keeps(ops: map<nat, Operation>, socket: nat)
  {
    exists id :: id in ops && ops[id].accepted == Some(socket)
  }

  /** Every socket made for an accept is with its record, handed out or closed:
      one of the three, once. */
  ghost predicate SocketsKept(ops: map<nat, Operation>, sockets: Sockets)
  {
    && Unrepeated(sockets.handed + sockets.closed)
    && (forall id :: id in ops ==> (ops[id].kind.Accept? <==> ops[id].accepted.Some?))
    && (forall id :: id in ops && ops[id].accepted.Some? ==>
          ops[id].accepted.value !in sockets.handed + sockets.closed)
    && (forall i, j :: i in ops && j in ops && i != j && ops[i].accepted.Some? ==> ops[i].accepted != ops[j].accepted)
    && (forall v: nat :: 1 <= v <= sockets.next <==> v in sockets.handed + sockets.closed || Keeps(ops, v))
  }

  ghost predicate SameSockets(ops: map<nat, Operation>, after: map<nat, Operation>)
  {
    && SameKinds(ops, after)
    && forall id :: id in ops ==> after[id].accepted == ops[id].accepted
  }

  lemma SocketsSame(ops: map<nat, Operation>, after: map<nat, Operation>, sockets: Sockets)
    requires SocketsKept(ops, sockets) && SameSockets(ops, after)
    ensures SocketsKept(after, sockets)
  {
    hide Unrepeated;
    forall v: nat ensures Keeps(after, v) <==> Keeps(ops, v) {
      if Keeps(ops, v) {
        var id :| id in ops && ops[id].accepted == Some(v);
        assert id in after && after[id].accepted == Some(v);
      }
    }
  }

  lemma SocketsOther(ops: map<nat, Operation>, sockets: Sockets, id: nat, op: Operation)
    requires SocketsKept(ops, sockets) && id !in ops && !op.kind.Accept? && op.accepted.None?
    ensures SocketsKept(ops[id := op], sockets)
  {
    hide Unrepeated;
    forall v: nat ensures Keeps(ops[id := op], v) <==> Keeps(ops, v) {
      if Keeps(ops, v) {
        var i :| i in ops && ops[i].accepted == Some(v);
        assert ops[id := op][i].accepted == Some(v);
      }
    }
  }

  lemma SocketsMake(ops: map<nat, Operation>, sockets: Sockets, id: nat, op: Operation)
    requires SocketsKept(ops, sockets) && id !in ops && op.kind.Accept? && op.accepted == Some(sockets.next + 1)
    ensures SocketsKept(ops[id := op], sockets.(next := sockets.next + 1))
  {
    hide Unrepeated;
    var made := sockets.next + 1;
    assert !Keeps(ops, made) && made !in sockets.handed + sockets.closed;
    forall v: nat ensures Keeps(ops[id := op], v) <==> Keeps(ops, v) || v == made {
      assert ops[id := op][id].accepted == Some(made);
      if Keeps(ops, v) {
        var i :| i in ops && ops[i].accepted == Some(v);
        assert ops[id := op][i].accepted == Some(v);
      }
    }
    forall i | i in ops ensures ops[i].accepted != Some(made) {
    }
  }

  /** Removing a record disposes of its socket. */
  lemma SocketsTake(ops: map<nat, Operation>, sockets: Sockets, id: nat, outcome: Outcome)
    requires SocketsKept(ops, sockets) && id in ops
    ensures SocketsKept(ops - {id}, Dispose(sockets, ops[id], outcome))
  {
    var op := ops[id];
    var after := Dispose(sockets, op, outcome);
    var left := ops - {id};
    forall v: nat ensures Keeps(ops, v) <==> Keeps(left, v) || op.accepted == Some(v) {
      if Keeps(ops, v) && op.accepted != Some(v) {
        var i :| i in ops && ops[i].accepted == Some(v);
        assert left[i].accepted == Some(v);
      }
    }
    if op.accepted.Some? {
      var v := op.accepted.value;
      DisposeLists(sockets, op, outcome);
      assert !Keeps(left, v);
      hide Unrepeated, Dispose;
    }
  }

  lemma DisposeLists(sockets: Sockets, op: Operation, outcome: Outcome)
    requires op.kind.Accept? && op.accepted.Some? && Unrepeated(sockets.handed + sockets.closed)
    requires op.accepted.value !in sockets.handed + sockets.closed
    ensures var after := Dispose(sockets, op, outcome);
      && after.next == sockets.next
      && Unrepeated(after.handed + after.closed)
      && forall v: nat :: v in after.handed + after.closed <==> v in sockets.handed + sockets.closed || v == op.accepted.value
  {
    var after := Dispose(sockets, op, outcome);
    var v := op.accepted.value;
    if outcome.Success? {
      UnrepeatedInsert(sockets.handed, sockets.closed, v);
      assert after.handed + after.closed == sockets.handed + [v] + sockets.closed;
    } else {
      UnrepeatedInsert(sockets.handed + sockets.closed, [], v);
      assert after.handed + after.closed == sockets.handed + sockets.closed + [v] + [];
      assert sockets.handed + sockets.closed + [] == sockets.handed + sockets.closed;
    }
  }

  lemma UnrepeatedInsert(a: seq<nat>, b: seq<nat>, v: nat)
    requires Unrepeated(a + b) && v !in a + b
    ensures Unrepeated(a + [v] + b)
    ensures forall x :: x in a + [v] + b <==> x in a + b || x == v
  {
    var longer := a + [v] + b;
    assert forall i :: 0 <= i < |longer| ==>
      longer[i] == if i < |a| then (a + b)[i] else if i == |a| then v else (a + b)[i - 1];
    assert longer[|a|] == v;
    forall i, j | 0 <= i < j < |longer| ensures longer[i] != longer[j] {
      var was := a + b;
      assert i != |a| ==> longer[i] == was[if i < |a| then i else i - 1] && longer[i] in was;
      assert j != |a| ==> longer[j] == was[if j < |a| then j else j - 1] && longer[j] in was;
    }
    forall x | x in a + b ensures x in longer {
      var i :| 0 <= i < |a + b| && (a + b)[i] == x;
      assert longer[if i < |a| then i else i + 1] == x;
    }
  }

  lemma NothingYet()
    ensures Owned(map[], Kernel({}, []), {}, {}) && SocketsKept(map[], Sockets(0, [], []))
  {
    assert PortIds([]) == {};
  }
}

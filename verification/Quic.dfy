/** Receive and stream-credit accounting of the QUIC engine.

The transport library is the environment: it opens peer streams within the limit
it was granted (section 4.6 of RFC 9000), hands over data of open streams, and
closes each stream once. The engine keeps what the application has not consumed.
*/
module Quic {
  import opened Octets

  datatype StreamId = StreamId(local: bool, bidi: bool, number: nat)

  datatype Stream = Stream(unread: nat, closed: bool)

  /** `open` and `closed` are the streams the library has open and has closed;
      `returned` the peer streams whose credit was given back. */
  datatype Engine = Engine(
    budget: nat,
    maxStreams: nat,
    streams: map<StreamId, Stream>,
    received: nat,
    open: set<StreamId>,
    closed: set<StreamId>,
    returned: seq<StreamId>)

  datatype Action =
    | OpenLocal(id: StreamId)
    | OpenPeer(id: StreamId)
    | Receive(id: StreamId, size: nat)
    | CloseStream(id: StreamId)
    | Consume(id: StreamId, bytes: nat)

  function Start(budget: nat, maxStreams: nat): (e: Engine)
  {
    Engine(budget, maxStreams, map[], 0, {}, {}, [])
  }

  /** How many peer streams of a kind may be open at first. */
  function InitialLimit(e: Engine, bidi: bool): (n: nat)
  {
    if bidi then e.maxStreams else 3
  }

  function PeerStreams(ids: set<StreamId>, bidi: bool): (r: set<StreamId>)
  {
    set id | id in ids && !id.local && id.bidi == bidi
  }

  function CreditsFor(returned: seq<StreamId>, bidi: bool): (n: nat)
  {
    if returned == [] then 0
    else CreditsFor(returned[..|returned| - 1], bidi) + if returned[|returned| - 1].bidi == bidi then 1 else 0
  }

  predicate HasRoom(e: Engine)
  {
    |e.streams| < e.maxStreams * 2 + 8
  }

  predicate Enabled(e: Engine, a: Action)
  {
    match a
    case OpenLocal(id) => id.local && id !in e.open && id !in e.closed && id !in e.streams && HasRoom(e)
    case OpenPeer(id) =>
      && !id.local && id !in e.open && id !in e.closed
      && |PeerStreams(e.open + e.closed, id.bidi)| < InitialLimit(e, id.bidi) + CreditsFor(e.returned, id.bidi)
    case Receive(id, _) => id in e.open
    case CloseStream(id) => id in e.open
    case Consume(_, _) => true
  }

  /** Data for a stream: refused if it exceeds the budget, or needs a record there
      is no room for. */
  function DoReceive(e: Engine, id: StreamId, size: nat): (r: Option<Engine>)
  {
    if size > Sub64(e.budget, e.received) || (id !in e.streams && !HasRoom(e)) then None
    else
      var known := if id in e.streams then e.streams[id] else Stream(0, false);
      Some(e.(streams := e.streams[id := known.(unread := known.unread + size)], received := e.received + size))
  }

  /** The credit goes back once the stream has closed and its record is gone. */
  function GiveBack(e: Engine, id: StreamId): (r: Engine)
  {
    if id.local then e else e.(returned := e.returned + [id])
  }

  function DoClose(e: Engine, id: StreamId): (r: Engine)
  {
    var e1 := e.(open := e.open - {id}, closed := e.closed + {id});
    if id !in e.streams then GiveBack(e1, id)
    else if e.streams[id].unread == 0 then GiveBack(e1.(streams := e.streams - {id}), id)
    else e1.(streams := e.streams[id := e.streams[id].(closed := true)])
  }

  function DoConsume(e: Engine, id: StreamId, bytes: nat): (r: Option<Engine>)
  {
    if id !in e.streams || bytes > e.streams[id].unread then None
    else
      var left := e.streams[id].(unread := e.streams[id].unread - bytes);
      var e1 := e.(received := if bytes <= e.received then e.received - bytes else 0);
      if left.closed && left.unread == 0 then Some(GiveBack(e1.(streams := e.streams - {id}), id))
      else Some(e1.(streams := e.streams[id := left]))
  }

  function Apply(e: Engine, a: Action): (r: Engine)
  {
    match a
    case OpenLocal(id) => e.(open := e.open + {id}, streams := e.streams[id := Stream(0, false)])
    case OpenPeer(id) => e.(open := e.open + {id})
    case Receive(id, size) => if DoReceive(e, id, size).Some? then DoReceive(e, id, size).value else e
    case CloseStream(id) => DoClose(e, id)
    case Consume(id, bytes) => if DoConsume(e, id, bytes).Some? then DoConsume(e, id, bytes).value else e
  }

  ghost predicate IsRun(states: seq<Engine>, run: seq<Action>, budget: nat, maxStreams: nat)
  {
    && |states| == |run| + 1
    && states[0] == Start(budget, maxStreams)
    && forall i :: 0 <= i < |run| ==> Enabled(states[i], run[i]) && states[i + 1] == Apply(states[i], run[i])
  }

  // ── the sum of what is unread ───────────────────────────────────────────────

  ghost function Total(streams: map<StreamId, Stream>): (n: nat)
    decreases |streams|
  {
    if streams == map[] then 0
    else
      var id :| id in streams;
      assert (streams - {id}).Keys == streams.Keys - {id};
      streams[id].unread + Total(streams - {id})
  }

  lemma {:induction false} TotalWithout(streams: map<StreamId, Stream>, id: StreamId)
    requires id in streams
    ensures Total(streams) == streams[id].unread + Total(streams - {id})
    decreases |streams|
  {
    var any :| any in streams && Total(streams) == streams[any].unread + Total(streams - {any});
    if any != id {
      assert (streams - {any}).Keys == streams.Keys - {any};
      TotalWithout(streams - {any}, id);
      assert (streams - {id}).Keys == streams.Keys - {id};
      TotalWithout(streams - {id}, any);
      assert streams - {any} - {id} == streams - {id} - {any};
    }
  }

  lemma TotalWith(streams: map<StreamId, Stream>, id: StreamId, stream: Stream)
    ensures Total(streams[id := stream])
         == Total(streams) - (if id in streams then streams[id].unread else 0) + stream.unread
  {
    TotalWithout(streams[id := stream], id);
    if id in streams {
      TotalWithout(streams, id);
      assert streams[id := stream] - {id} == streams - {id};
    } else {
      assert streams[id := stream] - {id} == streams;
    }
  }

  // ── the invariant ───────────────────────────────────────────────────────────

  ghost predicate Unrepeated(list: seq<StreamId>)
  {
    forall i, j :: 0 <= i < j < |list| ==> list[i] != list[j]
  }

  /** What is unread is counted, and within the budget. */
  ghost predicate Counted(e: Engine)
  {
    e.received == Total(e.streams) && e.received <= e.budget < TWO_64
  }

  /** Records belong to open streams, or to closed ones with something unread. */
  ghost predicate RecordsKept(streams: map<StreamId, Stream>, open: set<StreamId>, closed: set<StreamId>)
  {
    && open !! closed
    && (forall id :: id in streams ==> id in open || id in closed)
    && (forall id :: id in streams ==> (streams[id].closed <==> id in closed))
    && (forall id :: id in streams && streams[id].closed ==> streams[id].unread > 0)
  }

  /** A peer stream's credit is back exactly when it has closed and its record is
      gone, and no credit is given back twice. */
  ghost predicate CreditsKept(streams: map<StreamId, Stream>, closed: set<StreamId>, returned: seq<StreamId>)
  {
    && Unrepeated(returned)
    && forall id :: id in returned <==> id in closed && !id.local && id !in streams
  }

  /** The library keeps to the limits it was granted. */
  ghost predicate WithinLimits(e: Engine)
  {
    forall bidi :: |PeerStreams(e.open + e.closed, bidi)| <= InitialLimit(e, bidi) + CreditsFor(e.returned, bidi)
  }

  ghost predicate Inv(e: Engine)
  {
    && Counted(e)
    && RecordsKept(e.streams, e.open, e.closed)
    && CreditsKept(e.streams, e.closed, e.returned)
    && WithinLimits(e)
  }

  lemma StartInv(budget: nat, maxStreams: nat)
    requires budget < TWO_64
    ensures Inv(Start(budget, maxStreams))
  {
    var e := Start(budget, maxStreams);
    forall bidi ensures |PeerStreams(e.open + e.closed, bidi)| == 0 {
      assert PeerStreams({}, bidi) == {};
      assert e.open + e.closed == {};
    }
  }

  lemma {:induction false} CreditsGrow(returned: seq<StreamId>, id: StreamId, bidi: bool)
    ensures CreditsFor(returned + [id], bidi) == CreditsFor(returned, bidi) + if id.bidi == bidi then 1 else 0
  {
    assert (returned + [id])[..|returned|] == returned;
  }

  lemma OpenKeeps(e: Engine, id: StreamId)
    requires Inv(e) && !id.local && Enabled(e, OpenPeer(id))
    ensures Inv(Apply(e, OpenPeer(id)))
  {
    hide Total, CreditsKept, CreditsFor, PeerStreams;
    var t := Apply(e, OpenPeer(id));
    assert t.open + t.closed == e.open + e.closed + {id};
    forall bidi ensures |PeerStreams(t.open + t.closed, bidi)| <= InitialLimit(t, bidi) + CreditsFor(t.returned, bidi) {
      OneMorePeer(e.open + e.closed, id, bidi);
    }
  }

  lemma OneMorePeer(ids: set<StreamId>, id: StreamId, bidi: bool)
    requires !id.local && id !in ids
    ensures |PeerStreams(ids + {id}, bidi)| == |PeerStreams(ids, bidi)| + if id.bidi == bidi then 1 else 0
  {
    var was := PeerStreams(ids, bidi);
    if id.bidi == bidi {
      assert PeerStreams(ids + {id}, bidi) == was + {id} && id !in was;
    } else {
      assert PeerStreams(ids + {id}, bidi) == was;
    }
  }

  lemma LocalKeeps(e: Engine, id: StreamId)
    requires Inv(e) && Enabled(e, OpenLocal(id))
    ensures Inv(Apply(e, OpenLocal(id)))
  {
    hide CreditsFor, Total;
    var t := Apply(e, OpenLocal(id));
    TotalWith(e.streams, id, Stream(0, false));
    assert t.open + t.closed == e.open + e.closed + {id};
    forall bidi ensures PeerStreams(t.open + t.closed, bidi) == PeerStreams(e.open + e.closed, bidi) {
    }
  }

  lemma ReceiveKeeps(e: Engine, id: StreamId, size: nat)
    requires Inv(e) && Enabled(e, Receive(id, size))
    ensures Inv(Apply(e, Receive(id, size)))
  {
    hide CreditsFor, Total, WithinLimits;
    var t := Apply(e, Receive(id, size));
    if id in e.streams {
      TotalWith(e.streams, id, e.streams[id].(unread := e.streams[id].unread + size));
    } else {
      TotalWith(e.streams, id, Stream(size, false));
    }
    assert WithinLimits(t) by { SameLimits(e, t); }
  }

  lemma SameLimits(e: Engine, t: Engine)
    requires WithinLimits(e) && t.open + t.closed == e.open + e.closed && t.maxStreams == e.maxStreams
    requires forall bidi :: CreditsFor(t.returned, bidi) >= CreditsFor(e.returned, bidi)
    ensures WithinLimits(t)
  {
    hide CreditsFor, PeerStreams;
  }

  /** A record of a closed stream goes, and with it its credit comes back. */
  lemma GiveBackKeeps(e: Engine, id: StreamId)
    requires Counted(e) && RecordsKept(e.streams, e.open, e.closed) && WithinLimits(e)
    requires id in e.closed && id !in e.streams && id !in e.returned
    requires Unrepeated(e.returned)
    requires forall other :: other in e.returned <==> other in e.closed && !other.local && other !in e.streams && other != id
    ensures Inv(GiveBack(e, id))
  {
    hide Total;
    var t := GiveBack(e, id);
    if !id.local {
      assert forall other :: other in t.returned <==> other in e.returned || other == id;
      forall bidi ensures CreditsFor(t.returned, bidi) >= CreditsFor(e.returned, bidi) {
        CreditsGrow(e.returned, id, bidi);
      }
      SameLimits(e, t);
    }
    hide WithinLimits, CreditsFor;
  }

  lemma CloseKeeps(e: Engine, id: StreamId)
    requires Inv(e) && Enabled(e, CloseStream(id))
    ensures Inv(Apply(e, CloseStream(id)))
  {
    hide CreditsFor, Total, WithinLimits;
    var e1 := e.(open := e.open - {id}, closed := e.closed + {id});
    assert e1.open + e1.closed == e.open + e.closed;
    SameLimits(e, e1);
    if id !in e.streams {
      GiveBackKeeps(e1, id);
    } else if e.streams[id].unread == 0 {
      TotalWithout(e.streams, id);
      var e2 := e1.(streams := e.streams - {id});
      SameLimits(e1, e2);
      GiveBackKeeps(e2, id);
    } else {
      var e2 := e1.(streams := e.streams[id := e.streams[id].(closed := true)]);
      TotalWith(e.streams, id, e.streams[id].(closed := true));
      SameLimits(e1, e2);
    }
  }

  lemma ConsumeKeeps(e: Engine, id: StreamId, bytes: nat)
    requires Inv(e)
    ensures Inv(Apply(e, Consume(id, bytes)))
  {
    hide CreditsFor, Total, WithinLimits;
    if id in e.streams && bytes <= e.streams[id].unread {
      TotalWithout(e.streams, id);
      var left := e.streams[id].(unread := e.streams[id].unread - bytes);
      var e1 := e.(received := e.received - bytes);
      if left.closed && left.unread == 0 {
        var e2 := e1.(streams := e.streams - {id});
        SameLimits(e, e2);
        GiveBackKeeps(e2, id);
      } else {
        TotalWith(e.streams, id, left);
        SameLimits(e, e1.(streams := e.streams[id := left]));
      }
    }
  }

  lemma StepKeeps(e: Engine, a: Action)
    requires Inv(e) && Enabled(e, a)
    ensures Inv(Apply(e, a))
  {
    hide Inv;
    match a
    case OpenLocal(id) => LocalKeeps(e, id);
    case OpenPeer(id) => OpenKeeps(e, id);
    case Receive(id, size) => ReceiveKeeps(e, id, size);
    case CloseStream(id) => CloseKeeps(e, id);
    case Consume(id, bytes) => ConsumeKeeps(e, id, bytes);
  }

  lemma {:induction false} RunKeeps(states: seq<Engine>, run: seq<Action>, budget: nat, maxStreams: nat, i: nat)
    requires IsRun(states, run, budget, maxStreams) && budget < TWO_64 && i <= |run|
    ensures Inv(states[i]) && states[i].budget == budget && states[i].maxStreams == maxStreams
  {
    hide Inv, Enabled;
    if i == 0 {
      StartInv(budget, maxStreams);
    } else {
      RunKeeps(states, run, budget, maxStreams, i - 1);
      StepKeeps(states[i - 1], run[i - 1]);
    }
  }

  // ── theorems ────────────────────────────────────────────────────────────────

  /** In every run what was received and not consumed is the sum over the streams,
      and never exceeds the budget. */
  lemma ReceivedIsUnread(states: seq<Engine>, run: seq<Action>, budget: nat, maxStreams: nat, i: nat)
    requires IsRun(states, run, budget, maxStreams) && budget < TWO_64 && i <= |run|
    ensures states[i].received == Total(states[i].streams) <= budget
  {
    RunKeeps(states, run, budget, maxStreams, i);
  }

  /** Each closed peer stream gives back one credit, and only once its record is
      gone. */
  lemma OneCreditEach(states: seq<Engine>, run: seq<Action>, budget: nat, maxStreams: nat, i: nat)
    requires IsRun(states, run, budget, maxStreams) && budget < TWO_64 && i <= |run|
    ensures var e := states[i];
      && Unrepeated(e.returned)
      && forall id :: id in e.returned <==> id in e.closed && !id.local && id !in e.streams
  {
    RunKeeps(states, run, budget, maxStreams, i);
  }

  ghost function ReturnedSet(returned: seq<StreamId>, bidi: bool): (r: set<StreamId>)
  {
    set id | id in returned && id.bidi == bidi
  }

  lemma {:induction false} CreditsAre(returned: seq<StreamId>, bidi: bool)
    requires Unrepeated(returned)
    ensures CreditsFor(returned, bidi) == |ReturnedSet(returned, bidi)|
  {
    if returned != [] {
      var n := |returned| - 1;
      var id := returned[n];
      CreditsAre(returned[..n], bidi);
      assert returned == returned[..n] + [id];
      assert id !in returned[..n];
      hide ReturnedSet;
      OneMoreReturned(returned[..n], id, bidi);
    }
  }

  lemma OneMoreReturned(returned: seq<StreamId>, id: StreamId, bidi: bool)
    requires id !in returned
    ensures |ReturnedSet(returned + [id], bidi)| == |ReturnedSet(returned, bidi)| + if id.bidi == bidi then 1 else 0
  {
    var was := ReturnedSet(returned, bidi);
    assert forall other :: other in returned + [id] <==> other in returned || other == id;
    if id.bidi == bidi {
      assert ReturnedSet(returned + [id], bidi) == was + {id};
    } else {
      assert ReturnedSet(returned + [id], bidi) == was;
    }
  }

  lemma SubsetSize(a: set<StreamId>, b: set<StreamId>)
    requires a <= b
    ensures |a| <= |b|
  {
    assert |b - a| + |a| == |b| by { assert b == (b - a) + a; }
  }

  /** Peer streams whose credit is still out are within the limit first granted. */
  lemma CreditOut(e: Engine, bidi: bool, some: set<StreamId>)
    requires Inv(e) && some <= PeerStreams(e.open + e.closed, bidi) && forall id :: id in some ==> id !in e.returned
    ensures |some| <= InitialLimit(e, bidi)
  {
    var all := PeerStreams(e.open + e.closed, bidi);
    var back := ReturnedSet(e.returned, bidi);
    CreditsAre(e.returned, bidi);
    hide Total, CreditsFor;
    assert back <= all;
    assert some <= all - back;
    SubsetSize(some, all - back);
    assert |all - back| + |back| == |all| by { assert all == (all - back) + back; }
    assert |all| <= InitialLimit(e, bidi) + CreditsFor(e.returned, bidi);
  }

  /** So the records of peer streams of either kind never exceed the limit first
      granted: `max_streams` bidirectional ones, three unidirectional ones. */
  lemma PeerRecordsBounded(states: seq<Engine>, run: seq<Action>, budget: nat, maxStreams: nat, i: nat, bidi: bool)
    requires IsRun(states, run, budget, maxStreams) && budget < TWO_64 && i <= |run|
    ensures |PeerStreams(states[i].streams.Keys, bidi)| <= if bidi then maxStreams else 3
  {
    RunKeeps(states, run, budget, maxStreams, i);
    hide Total, WithinLimits, Counted;
    CreditOut(states[i], bidi, PeerStreams(states[i].streams.Keys, bidi));
  }

  // ── every octet received is accounted for ───────────────────────────────────

  /** Data of this size is taken in: it fits what the budget has left over all
      streams, and there is a record for it or room for one. */
  predicate TakesIn(e: Engine, id: StreamId, size: nat)
  {
    e.received + size <= e.budget && (id in e.streams || |e.streams| < e.maxStreams * 2 + 8)
  }

  function Unread(e: Engine, id: StreamId): (n: nat)
  {
    if id in e.streams then e.streams[id].unread else 0
  }

  /** What was taken in for a stream before point `i`, and what the application
      dealt with; it cannot deal with more than there is. */
  ghost function TakenIn(states: seq<Engine>, run: seq<Action>, i: nat, id: StreamId): (n: nat)
    requires i <= |run| < |states|
  {
    if i == 0 then 0
    else
      TakenIn(states, run, i - 1, id)
      + match run[i - 1]
        case Receive(to, size) => if to == id && TakesIn(states[i - 1], id, size) then size else 0
        case _ => 0
  }

  ghost function DealtWith(states: seq<Engine>, run: seq<Action>, i: nat, id: StreamId): (n: nat)
    requires i <= |run| < |states|
  {
    if i == 0 then 0
    else
      DealtWith(states, run, i - 1, id)
      + match run[i - 1]
        case Consume(of, bytes) => if of == id && bytes <= Unread(states[i - 1], id) then bytes else 0
        case _ => 0
  }

  lemma StepUnread(e: Engine, a: Action, id: StreamId)
    requires Inv(e) && Enabled(e, a)
    ensures Unread(Apply(e, a), id) == Unread(e, id)
      + (if a.Receive? && a.id == id && TakesIn(e, id, a.size) then a.size else 0)
      - (if a.Consume? && a.id == id && a.bytes <= Unread(e, id) then a.bytes else 0)
  {
    hide Total, WithinLimits, CreditsKept;
  }

  /** For each stream what was taken in is what was dealt with and what is unread:
      no octet within the budget is refused, lost or counted twice. */
  lemma {:induction false} StreamConserved(
      states: seq<Engine>, run: seq<Action>, budget: nat, maxStreams: nat, i: nat, id: StreamId)
    requires IsRun(states, run, budget, maxStreams) && budget < TWO_64 && i <= |run|
    ensures TakenIn(states, run, i, id) == DealtWith(states, run, i, id) + Unread(states[i], id)
  {
    hide Inv, Apply, Enabled, TakesIn, Unread;
    if i > 0 {
      StreamConserved(states, run, budget, maxStreams, i - 1, id);
      RunKeeps(states, run, budget, maxStreams, i - 1);
      StepUnread(states[i - 1], run[i - 1], id);
    } else {
      assert Unread(states[0], id) == 0 by { NothingUnread(budget, maxStreams, id); }
    }
  }

  lemma NothingUnread(budget: nat, maxStreams: nat, id: StreamId)
    ensures Unread(Start(budget, maxStreams), id) == 0
  {
  }

  // ── room for every stream admitted ──────────────────────────────────────────

  function LocalStreams(ids: set<StreamId>): (r: set<StreamId>)
  {
    set id | id in ids && id.local
  }

  lemma ThreeKinds(ids: set<StreamId>)
    ensures |ids| == |LocalStreams(ids)| + |PeerStreams(ids, true)| + |PeerStreams(ids, false)|
  {
    var peers := PeerStreams(ids, true) + PeerStreams(ids, false);
    assert |peers| == |PeerStreams(ids, true)| + |PeerStreams(ids, false)|;
    assert ids == LocalStreams(ids) + peers;
  }

  /** An open peer stream has its record, or there is room for it, while the
      application keeps few enough streams of its own. */
  lemma PeerHasRoom(states: seq<Engine>, run: seq<Action>, budget: nat, maxStreams: nat, i: nat, id: StreamId)
    requires IsRun(states, run, budget, maxStreams) && budget < TWO_64 && i <= |run|
    requires id in states[i].open && !id.local && |LocalStreams(states[i].streams.Keys)| <= maxStreams + 5
    ensures id in states[i].streams || HasRoom(states[i])
  {
    var e := states[i];
    RunKeeps(states, run, budget, maxStreams, i);
    hide Total, WithinLimits, Counted;
    if id !in e.streams {
      var ids := e.streams.Keys + {id};
      CreditOut(e, true, PeerStreams(ids, true));
      CreditOut(e, false, PeerStreams(ids, false));
      assert LocalStreams(ids) == LocalStreams(e.streams.Keys);
      ThreeKinds(ids);
      assert |ids| == |e.streams.Keys| + 1;
    }
  }

  /** All these streams open and recorded, nothing received on any of them. */
  function Filled(budget: nat, maxStreams: nat, ids: set<StreamId>): (e: Engine)
  {
    Engine(budget, maxStreams, map id | id in ids :: Stream(0, false), 0, ids, {}, [])
  }

  ghost predicate Reached(e: Engine)
  {
    exists states, run :: IsRun(states, run, e.budget, e.maxStreams) && states[|run|] == e
  }

  lemma Then(e: Engine, a: Action)
    requires Reached(e) && Enabled(e, a) && Apply(e, a).budget == e.budget && Apply(e, a).maxStreams == e.maxStreams
    ensures Reached(Apply(e, a))
  {
    hide Enabled, Apply, Start;
    var states, run :| IsRun(states, run, e.budget, e.maxStreams) && states[|run|] == e;
    var z := Apply(e, a);
    assert IsRun(states + [z], run + [a], e.budget, e.maxStreams);
    assert (states + [z])[|run + [a]|] == z;
  }

  /** One more stream, opened and, if it is the peer's, with data of no octets. */
  lemma FillOne(budget: nat, maxStreams: nat, ids: set<StreamId>, id: StreamId)
    requires Reached(Filled(budget, maxStreams, ids)) && id !in ids && |ids| < maxStreams * 2 + 8
    requires !id.local ==> |PeerStreams(ids, id.bidi)| < if id.bidi then maxStreams else 3
    ensures Reached(Filled(budget, maxStreams, ids + {id}))
  {
    var e, t := Filled(budget, maxStreams, ids), Filled(budget, maxStreams, ids + {id});
    assert e.streams.Keys == ids && |e.streams| == |ids|;
    assert e.streams[id := Stream(0, false)] == t.streams;
    assert ids + {} == ids;
    hide Reached, HasRoom;
    if id.local {
      assert HasRoom(e) by { RoomIs(e); }
      Then(e, OpenLocal(id));
    } else {
      Then(e, OpenPeer(id));
      var open := Apply(e, OpenPeer(id));
      assert HasRoom(open) by { RoomIs(open); }
      Then(open, Receive(id, 0));
      assert Apply(open, Receive(id, 0)) == t;
    }
  }

  lemma RoomIs(e: Engine)
    ensures HasRoom(e) <==> |e.streams.Keys| < e.maxStreams * 2 + 8
  {
    assert |e.streams| == |e.streams.Keys|;
  }

  /** The first `n` streams of a kind. */
  function First(n: nat, local: bool, bidi: bool): (r: set<StreamId>)
    ensures forall id :: id in r <==> id.local == local && id.bidi == bidi && id.number < n
  {
    if n == 0 then {} else First(n - 1, local, bidi) + {StreamId(local, bidi, n - 1)}
  }

  lemma {:induction false} FirstSize(n: nat, local: bool, bidi: bool)
    ensures |First(n, local, bidi)| == n
  {
    if n > 0 {
      FirstSize(n - 1, local, bidi);
    }
  }

  /** So many local streams, and peer streams of either kind. */
  function Crowd(l: nat, a: nat, b: nat): (r: set<StreamId>)
  {
    First(l, true, true) + First(a, false, true) + First(b, false, false)
  }

  lemma TwoParts(x: set<StreamId>, y: set<StreamId>)
    requires x !! y
    ensures |x + y| == |x| + |y|
  {
  }

  lemma {:induction false} CrowdParts(l: nat, a: nat, b: nat)
    ensures LocalStreams(Crowd(l, a, b)) == First(l, true, true)
    ensures PeerStreams(Crowd(l, a, b), true) == First(a, false, true)
    ensures PeerStreams(Crowd(l, a, b), false) == First(b, false, false)
  {
  }

  lemma CrowdSize(l: nat, a: nat, b: nat)
    ensures |Crowd(l, a, b)| == l + a + b
    ensures |LocalStreams(Crowd(l, a, b))| == l
    ensures |PeerStreams(Crowd(l, a, b), true)| == a && |PeerStreams(Crowd(l, a, b), false)| == b
  {
    hide First;
    FirstSize(l, true, true);
    FirstSize(a, false, true);
    FirstSize(b, false, false);
    TwoParts(First(l, true, true), First(a, false, true));
    TwoParts(First(l, true, true) + First(a, false, true), First(b, false, false));
    CrowdParts(l, a, b);
  }

  lemma {:induction false} CrowdReached(maxStreams: nat, l: nat, a: nat, b: nat)
    requires l + a + b <= maxStreams * 2 + 8 && a <= maxStreams && b <= 3
    ensures Reached(Filled(0, maxStreams, Crowd(l, a, b)))
    decreases l + a + b
  {
    hide *;
    if l + a + b == 0 {
      NobodyYet(maxStreams);
    } else if b > 0 {
      CrowdReached(maxStreams, l, a, b - 1);
      CrowdSize(l, a, b - 1);
      var id := CrowdGrows(l, a, b - 1, l, a, b);
      FillOne(0, maxStreams, Crowd(l, a, b - 1), id);
    } else if a > 0 {
      CrowdReached(maxStreams, l, a - 1, b);
      CrowdSize(l, a - 1, b);
      var id := CrowdGrows(l, a - 1, b, l, a, b);
      FillOne(0, maxStreams, Crowd(l, a - 1, b), id);
    } else {
      CrowdReached(maxStreams, l - 1, a, b);
      CrowdSize(l - 1, a, b);
      var id := CrowdGrows(l - 1, a, b, l, a, b);
      FillOne(0, maxStreams, Crowd(l - 1, a, b), id);
    }
  }

  lemma CrowdGrows(l1: nat, a1: nat, b1: nat, l: nat, a: nat, b: nat) returns (id: StreamId)
    requires (l, a, b) == (l1 + 1, a1, b1) || (l, a, b) == (l1, a1 + 1, b1) || (l, a, b) == (l1, a1, b1 + 1)
    ensures id !in Crowd(l1, a1, b1) && Crowd(l, a, b) == Crowd(l1, a1, b1) + {id}
    ensures id.local <==> l == l1 + 1
    ensures !id.local ==> (id.bidi <==> a == a1 + 1)
  {
    id := if l > l1 then StreamId(true, true, l1) else if a > a1 then StreamId(false, true, a1) else StreamId(false, false, b1);
    assert forall x :: x in Crowd(l, a, b) <==> x in Crowd(l1, a1, b1) || x == id;
  }

  lemma NobodyYet(maxStreams: nat)
    ensures Reached(Filled(0, maxStreams, Crowd(0, 0, 0)))
  {
    assert Crowd(0, 0, 0) == {};
    var none: seq<Action> := [];
    assert Filled(0, maxStreams, {}) == Start(0, maxStreams);
    assert IsRun([Start(0, maxStreams)], none, 0, maxStreams) && [Start(0, maxStreams)][|none|] == Start(0, maxStreams);
  }

  ghost predicate RoomWhile(maxStreams: nat, most: nat, e: Engine, id: StreamId)
  {
    Reached(e) && e.budget < TWO_64 && e.maxStreams == maxStreams
    && id in e.open && !id.local && |LocalStreams(e.streams.Keys)| <= most ==>
      id in e.streams || HasRoom(e)
  }

  /** The record capacity covers every peer stream admitted exactly while the local
      records are at most five over the peer's limit. */
  lemma {:induction false} RoomExactly(maxStreams: nat, most: nat)
    ensures (forall e, id :: RoomWhile(maxStreams, most, e, id)) <==> most <= maxStreams + 5
  {
    if most <= maxStreams + 5 {
      forall e, id ensures RoomWhile(maxStreams, most, e, id) {
        if Reached(e) && e.budget < TWO_64 && e.maxStreams == maxStreams
           && id in e.open && !id.local && |LocalStreams(e.streams.Keys)| <= most {
          var states, run :| IsRun(states, run, e.budget, e.maxStreams) && states[|run|] == e;
          PeerHasRoom(states, run, e.budget, maxStreams, |run|, id);
        }
      }
    } else {
      // everybody the peer may have but one, and six local streams too many
      var ids, id := Crowd(maxStreams + 6, maxStreams, 2), StreamId(false, false, 2);
      CrowdReached(maxStreams, maxStreams + 6, maxStreams, 2);
      CrowdSize(maxStreams + 6, maxStreams, 2);
      assert id !in ids;
      var e := Filled(0, maxStreams, ids);
      hide Reached, Crowd, First;
      assert ids + {} == ids;
      Then(e, OpenPeer(id));
      var z := Apply(e, OpenPeer(id));
      assert z.streams.Keys == ids;
      RoomIs(z);
      assert !RoomWhile(maxStreams, most, z, id);
    }
  }

  // ── the engine as it runs ───────────────────────────────────────────────────

  class ReceiveSide {
    const budget: nat
    const maxStreams: nat
    var streams: map<StreamId, Stream>
    var received: nat
    ghost var open: set<StreamId>
    ghost var closed: set<StreamId>
    ghost var returned: seq<StreamId>

    ghost function State(): (e: Engine)
      reads this
    {
      Engine(budget, maxStreams, streams, received, open, closed, returned)
    }

    constructor (budget: nat, maxStreams: nat)
      ensures State() == Start(budget, maxStreams)
    {
      this.budget, this.maxStreams := budget, maxStreams;
      streams, received, open, closed, returned := map[], 0, {}, {}, [];
    }

    /** The library hands over data of an open stream. */
    method ReceiveData(id: StreamId, size: nat) returns (ok: bool)
      modifies this`streams, this`received
      ensures ok == DoReceive(old(State()), id, size).Some?
      ensures State() == if ok then DoReceive(old(State()), id, size).value else old(State())
    {
      if size > Sub64(budget, received) || (id !in streams && !(|streams| < maxStreams * 2 + 8)) {
        return false;
      }
      var stream := if id in streams then streams[id] else Stream(0, false);
      streams := streams[id := stream.(unread := stream.unread + size)];
      received := received + size;
      ok := true;
    }

    /** The library closes a stream; `credit` says whether a credit goes back now. */
    method StreamClose(id: StreamId) returns (credit: bool)
      modifies this`streams, this`open, this`closed, this`returned
      ensures State() == DoClose(old(State()), id)
      ensures credit == (returned != old(returned))
    {
      open, closed := open - {id}, closed + {id};
      var released := true;
      if id in streams {
        if streams[id].unread == 0 {
          streams := streams - {id};
        } else {
          streams := streams[id := streams[id].(closed := true)];
          released := false;
        }
      }
      credit := released && !id.local;
      if credit {
        returned := returned + [id];
      }
    }

    /** The application has dealt with `bytes` of a stream. */
    method ConsumeBytes(id: StreamId, bytes: nat) returns (ok: bool)
      requires Counted(State())
      modifies this`streams, this`received, this`returned
      ensures ok == DoConsume(old(State()), id, bytes).Some?
      ensures State() == if ok then DoConsume(old(State()), id, bytes).value else old(State())
    {
      if id !in streams || bytes > streams[id].unread {
        return false;
      }
      TotalWithout(streams, id);
      var left := streams[id].(unread := streams[id].unread - bytes);
      received := received - bytes;
      if left.closed && left.unread == 0 {
        if !id.local {
          returned := returned + [id];
        }
        streams := streams - {id};
      } else {
        streams := streams[id := left];
      }
      ok := true;
    }
  }
}

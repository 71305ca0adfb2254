/** Waking a blocked completion-port loop from other threads.

A caller pushes its item, exchanges the pending flag, and posts a packet only if
the flag was clear. The loop checks the queues, waits, and later empties the
queues and clears the flag under one lock. Every step interleaves freely.
*/
module IocpWake {
  /** What a caller leaves behind: queued work or a queued cancellation, the stop
      request, or nothing but the nudge itself. */
  datatype Kind = Item | Stop | Nudge

  /** Inside a caller's wake: before the exchange, or about to post a packet. */
  datatype Caller = Exchanging | Posting

  /** `Blocked` has no timeout; `Collected` is between the wait and the sweep. */
  datatype LoopAt = Running | Polling | Blocked | Collected

  datatype Wake = Wake(
    queued: set<nat>,
    stops: set<nat>,
    flag: bool,
    packets: nat,
    callers: map<nat, Caller>,
    nextCall: nat,
    at: LoopAt)

  datatype Action =
    | Push(kind: Kind)
    | Exchange(call: nat)
    | Post(call: nat)
    | Check
    | Dequeue(n: nat)
    | WaitFails
    | Sweep

  function Start(): (w: Wake)
  {
    Wake({}, {}, false, 0, map[], 0, Running)
  }

  predicate Enabled(w: Wake, a: Action)
  {
    match a
    case Push(_) => true
    case Exchange(call) => call in w.callers && w.callers[call].Exchanging?
    case Post(call) => call in w.callers && w.callers[call].Posting?
    case Check => w.at.Running?
    case Dequeue(n) => (w.at.Polling? || w.at.Blocked?) && n <= w.packets
    case WaitFails => w.at.Polling? || w.at.Blocked?
    case Sweep => w.at.Collected?
  }

  /** A wait that fails takes no packet and sweeps nothing; the loop may be run
      again. `Dequeue` may also take no wake-up packet: a completion or a timeout ends
      the wait as well. */
  function Apply(w: Wake, a: Action): (r: Wake)
    requires Enabled(w, a)
  {
    match a
    case Push(kind) =>
      var call := w.nextCall + 1;
      w.(queued := if kind.Item? then w.queued + {call} else w.queued,
         stops := if kind.Stop? then w.stops + {call} else w.stops,
         callers := w.callers[call := Exchanging],
         nextCall := call)
    case Exchange(call) =>
      if w.flag then w.(callers := w.callers - {call})
      else w.(flag := true, callers := w.callers[call := Posting])
    case Post(call) => w.(packets := w.packets + 1, callers := w.callers - {call})
    case Check => w.(at := if w.queued == {} && w.stops == {} then Blocked else Polling)
    case Dequeue(n) => w.(packets := w.packets - n, at := Collected)
    case WaitFails => w.(at := Running)
    case Sweep => w.(queued := {}, flag := false, at := Running)
  }

  ghost predicate IsRun(states: seq<Wake>, run: seq<Action>)
  {
    && |states| == |run| + 1
    && states[0] == Start()
    && forall i :: 0 <= i < |run| ==> Enabled(states[i], run[i]) && states[i + 1] == Apply(states[i], run[i])
  }

  predicate InExchange(w: Wake, call: nat)
  {
    call in w.callers && w.callers[call].Exchanging?
  }

  ghost predicate AboutToPost(w: Wake)
  {
    exists call :: call in w.callers && w.callers[call].Posting?
  }

  ghost predicate Inv(w: Wake)
  {
    && (forall call :: call in w.callers ==> call <= w.nextCall)
    && (forall call :: call in w.queued ==> w.flag || InExchange(w, call))
    && (w.at.Blocked? ==> forall call :: call in w.stops ==> w.flag || InExchange(w, call))
    && (w.flag ==> w.packets > 0 || AboutToPost(w) || w.at.Collected?)
  }

  lemma ExchangeKeeps(w: Wake, call: nat)
    requires Inv(w) && Enabled(w, Exchange(call))
    ensures Inv(Apply(w, Exchange(call)))
  {
    var r := Apply(w, Exchange(call));
    if w.flag {
      if AboutToPost(w) {
        var other :| other in w.callers && w.callers[other].Posting?;
        assert other in r.callers && r.callers[other].Posting?;
      }
    } else {
      assert r.callers[call].Posting?;
    }
  }

  lemma PushKeeps(w: Wake, kind: Kind)
    requires Inv(w)
    ensures Inv(Apply(w, Push(kind)))
  {
    var r := Apply(w, Push(kind));
    if AboutToPost(w) {
      var other :| other in w.callers && w.callers[other].Posting?;
      assert other in r.callers && r.callers[other].Posting?;
    }
  }

  lemma StepKeeps(w: Wake, a: Action)
    requires Inv(w) && Enabled(w, a)
    ensures Inv(Apply(w, a))
  {
    match a
    case Push(kind) => PushKeeps(w, kind);
    case Exchange(call) => ExchangeKeeps(w, call);
    case _ =>
  }

  lemma {:induction false} RunKeeps(states: seq<Wake>, run: seq<Action>, j: nat)
    requires IsRun(states, run) && j <= |run|
    ensures Inv(states[j])
  {
    if j > 0 {
      RunKeeps(states, run, j - 1);
      StepKeeps(states[j - 1], run[j - 1]);
    }
  }

  /** If the loop is blocked without a timeout while something is queued or a stop
      was requested, and that caller's wake has returned, then a wake-up packet is
      in the port or another thread is about to post one. */
  lemma NoLostWakeup(states: seq<Wake>, run: seq<Action>, j: nat, call: nat)
    requires IsRun(states, run) && j <= |run| && states[j].at.Blocked?
    requires call in states[j].queued + states[j].stops && call !in states[j].callers
    ensures states[j].packets > 0 || AboutToPost(states[j])
  {
    RunKeeps(states, run, j);
  }
}

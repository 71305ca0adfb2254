/** Machines that are fed octets a read at a time.

A machine is a step function: given a state and the octets now buffered, it
starves, finishes, fails, or moves to a next state, consuming octets and perhaps
handing some of them out as body. Both HTTP parsers are such machines. What is
proved here holds for any of them.
*/
module Incremental {
  import opened Octets
  import opened HttpMessage

  datatype StepResult<+S> =
    | Starved
    | Finished
    | Failed(error: Error)
    | Moved(next: S, consumed: nat, body: string)

  type Machine<!S> = (S, string) -> StepResult<S>

  datatype Status = Hungry | Ended | Rejected(error: Error)

  /** Where a machine stands: its state, the octets it has not consumed and the
      body it has handed out so far. */
  datatype Progress<+S> = Progress(state: S, rest: string, body: string, status: Status)

  ghost predicate Progressive<S(!new)>(step: Machine<S>)
  {
    forall s, input :: Advances(step, s, input)
  }

  ghost predicate Advances<S>(step: Machine<S>, s: S, input: string)
  {
    step(s, input).Moved? ==> 0 < step(s, input).consumed <= |input|
  }

  /** Run until starved, finished or rejected. */
  function Exec<S(!new)>(step: Machine<S>, s: S, input: string): (r: Progress<S>)
    requires Progressive(step)
    decreases |input|
  {
    assert Advances(step, s, input);
    match step(s, input)
    case Starved => Progress(s, input, "", Hungry)
    case Finished => Progress(s, input, "", Ended)
    case Failed(e) => Progress(s, input, "", Rejected(e))
    case Moved(next, n, body) => Prepend(body, Exec(step, next, input[n..]))
  }

  lemma {:induction false} ExecUnfolds<S(!new)>(step: Machine<S>, s: S, input: string)
    requires Progressive(step)
    ensures var r, o := step(s, input), Exec(step, s, input);
            && (r.Starved? ==> o == Progress(s, input, "", Hungry))
            && (r.Finished? ==> o == Progress(s, input, "", Ended))
            && (r.Failed? ==> o == Progress(s, input, "", Rejected(r.error)))
            && (r.Moved? ==> 0 < r.consumed <= |input|)
            && (r.Moved? ==> o == Prepend(r.body, Exec(step, r.next, input[r.consumed..])))
  {
    assert Advances(step, s, input);
  }

  function Prepend<S>(body: string, o: Progress<S>): (r: Progress<S>)
  {
    o.(body := body + o.body)
  }

  /** One more read arrives. A finished or rejected machine looks at nothing more. */
  function Feed<S(!new)>(step: Machine<S>, o: Progress<S>, more: string): (r: Progress<S>)
    requires Progressive(step)
  {
    match o.status
    case Hungry => Prepend(o.body, Exec(step, o.state, o.rest + more))
    case Ended => o.(rest := o.rest + more)
    case Rejected(_) => o
  }

  function FeedAll<S(!new)>(step: Machine<S>, o: Progress<S>, slices: seq<string>): (r: Progress<S>)
    requires Progressive(step)
    decreases |slices|
  {
    if slices == [] then o else FeedAll(step, Feed(step, o, slices[0]), slices[1..])
  }

  /** Same verdict, and the same everything unless the verdict is rejection. */
  predicate SameResult<S(==)>(a: Progress<S>, b: Progress<S>)
  {
    if a.status.Rejected? then b.status.Rejected? else a == b
  }

  // ── what a step function must do for slicing not to matter ──────────────────

  /** The step on `a` stays what it is when `b` follows; a step that swallows all
      of `a` as body may instead swallow part of `b` along with it. */
  ghost predicate StableAt<S>(step: Machine<S>, s: S, a: string, b: string)
  {
    match step(s, a)
    case Starved => NoLookahead(step(s, a + b), |a|)
    case Finished => step(s, a + b).Finished?
    case Failed(_) => step(s, a + b).Failed?
    case Moved(next, n, body) =>
      step(s, a + b) == step(s, a) || Coalesces(step, s, next, a, b)
  }

  /** A machine starved by `n` octets either stays so or uses more than them. */
  predicate NoLookahead<S>(r: StepResult<S>, n: nat)
  {
    !r.Finished? && (r.Moved? ==> r.consumed > n)
  }

  ghost predicate Coalesces<S>(step: Machine<S>, s: S, next: S, a: string, b: string)
  {
    && step(s, a) == Moved(next, |a|, a)
    && step(next, "").Starved?
    && match step(next, b)
       case Failed(_) => step(s, a + b).Failed?
       case Moved(last, n, body) => step(s, a + b) == Moved(last, |a| + n, a + body)
       case _ => b == ""
  }

  ghost predicate Stable<S(!new)>(step: Machine<S>)
  {
    Progressive(step) && forall s, a, b :: StableAt(step, s, a, b)
  }

  lemma PrependFeed<S(!new)>(step: Machine<S>, x: string, o: Progress<S>, b: string, r: Progress<S>)
    requires Progressive(step) && SameResult(Feed(step, o, b), r)
    ensures SameResult(Feed(step, Prepend(x, o), b), Prepend(x, r))
  {
    hide Exec;
    if o.status.Hungry? {
      var e := Exec(step, o.state, o.rest + b);
      assert x + o.body + e.body == x + (o.body + e.body);
    }
  }

  lemma {:induction false} CoalescedExec<S(!new)>(step: Machine<S>, s: S, next: S, a: string, b: string)
    requires Progressive(step) && Coalesces(step, s, next, a, b)
    ensures SameResult(Feed(step, Exec(step, s, a), b), Exec(step, s, a + b))
  {
    hide Exec;
    assert a[|a|..] == "" && "" + b == b && a + "" == a;
    ExecUnfolds(step, s, a);
    ExecUnfolds(step, next, "");
    assert Exec(step, s, a) == Progress(next, "", a, Hungry);
    if b == "" {
      assert a + b == a;
    } else {
      SwallowsBoth(step, s, next, a, b);
    }
  }

  lemma {:induction false} SwallowsBoth<S(!new)>(step: Machine<S>, s: S, next: S, a: string, b: string)
    requires Progressive(step) && Coalesces(step, s, next, a, b) && b != ""
    ensures SameResult(Prepend(a, Exec(step, next, b)), Exec(step, s, a + b))
  {
    hide Exec;
    var r := step(next, b);
    ExecUnfolds(step, next, b);
    ExecUnfolds(step, s, a + b);
    if r.Moved? {
      assert (a + b)[|a| + r.consumed..] == b[r.consumed..];
      var e := Exec(step, r.next, b[r.consumed..]);
      assert a + (r.body + e.body) == a + r.body + e.body;
    }
  }

  /** Giving a machine `a` and later `b` is giving it `a + b`. */
  lemma {:induction false} ExecAppend<S(!new)>(step: Machine<S>, s: S, a: string, b: string)
    requires Stable(step)
    ensures SameResult(Feed(step, Exec(step, s, a), b), Exec(step, s, a + b))
    decreases |a|
  {
    hide Exec, Feed;
    assert StableAt(step, s, a, b);
    ExecUnfolds(step, s, a);
    ExecUnfolds(step, s, a + b);
    FeedUnfolds(step, Exec(step, s, a), b);
    var r := step(s, a);
    if r.Moved? {
      if Coalesces(step, s, r.next, a, b) {
        CoalescedExec(step, s, r.next, a, b);
      } else {
        var tail := a[r.consumed..];
        ExecAppend(step, r.next, tail, b);
        assert (a + b)[r.consumed..] == tail + b;
        PrependFeed(step, r.body, Exec(step, r.next, tail), b, Exec(step, r.next, tail + b));
      }
    }
  }

  lemma {:induction false} FeedUnfolds<S(!new)>(step: Machine<S>, o: Progress<S>, more: string)
    requires Progressive(step)
    ensures o.status.Hungry? ==>
              Feed(step, o, more) == Prepend(o.body, Exec(step, o.state, o.rest + more))
    ensures o.status.Ended? ==> Feed(step, o, more) == o.(rest := o.rest + more)
    ensures o.status.Rejected? ==> Feed(step, o, more) == o
    ensures o.status.Hungry? && o.body == "" ==> Feed(step, o, more) == Exec(step, o.state, o.rest + more)
  {
    hide Exec;
    var e := Exec(step, o.state, o.rest + more);
    assert "" + e.body == e.body;
  }

  /** Any number of reads is one read of their concatenation. */
  lemma {:induction false} FeedAllIsExec<S(!new)>(
      step: Machine<S>, s: S, a: string, o: Progress<S>, slices: seq<string>)
    requires Stable(step) && SameResult(o, Exec(step, s, a))
    ensures SameResult(FeedAll(step, o, slices), Exec(step, s, a + Concat(slices)))
    decreases |slices|
  {
    hide Exec, Feed;
    if slices == [] {
      assert a + Concat(slices) == a;
    } else {
      FeedUnfolds(step, o, slices[0]);
      FeedUnfolds(step, Exec(step, s, a), slices[0]);
      ExecAppend(step, s, a, slices[0]);
      FeedAllIsExec(step, s, a + slices[0], Feed(step, o, slices[0]), slices[1..]);
      assert a + slices[0] + Concat(slices[1..]) == a + Concat(slices);
    }
  }

  // ── consequences ────────────────────────────────────────────────────────────

  /** A finished message does not look at what follows it. */
  lemma {:induction false} EndedIgnoresSuffix<S(!new)>(step: Machine<S>, s: S, a: string, b: string)
    requires Stable(step) && Exec(step, s, a).status.Ended?
    ensures Exec(step, s, a + b) == Exec(step, s, a).(rest := Exec(step, s, a).rest + b)
  {
    hide Exec;
    ExecAppend(step, s, a, b);
  }

  /** Every strict prefix of a message that ends exactly at its last octet
      leaves the machine hungry. */
  lemma {:induction false} StrictPrefixIsHungry<S(!new)>(step: Machine<S>, s: S, a: string, b: string)
    requires Stable(step) && b != ""
    requires Exec(step, s, a + b).status.Ended? && Exec(step, s, a + b).rest == ""
    ensures Exec(step, s, a).status.Hungry?
  {
    hide Exec;
    ExecAppend(step, s, a, b);
  }

  /** Octets are only ever consumed from the front. */
  lemma {:induction false} RestIsSuffix<S(!new)>(step: Machine<S>, s: S, input: string)
    requires Progressive(step)
    ensures var rest := Exec(step, s, input).rest;
            |rest| <= |input| && input[|input| - |rest|..] == rest
    decreases |input|
  {
    hide Exec;
    ExecUnfolds(step, s, input);
    var r := step(s, input);
    if r.Moved? {
      RestIsSuffix(step, r.next, input[r.consumed..]);
    }
  }

  /** A message that ends only once `b` arrives ends inside `b`. */
  lemma {:induction false} EndsInsideNewInput<S(!new)>(step: Machine<S>, s: S, a: string, b: string)
    requires Stable(step)
    requires Exec(step, s, a).status.Hungry? && Exec(step, s, a + b).status.Ended?
    ensures |Exec(step, s, a + b).rest| < |b|
    decreases |a|
  {
    hide Exec;
    assert StableAt(step, s, a, b);
    ExecUnfolds(step, s, a);
    ExecUnfolds(step, s, a + b);
    assert b == "" ==> a + b == a;
    var r := step(s, a + b);
    if r.Moved? {
      RestIsSuffix(step, r.next, (a + b)[r.consumed..]);
      if r == step(s, a) {
        assert (a + b)[r.consumed..] == a[r.consumed..] + b;
        EndsInsideNewInput(step, r.next, a[r.consumed..], b);
      } else if step(s, a).Moved? {
        assert Advances(step, step(s, a).next, b);
      }
    }
  }

  /** The octets a finished message consumed are a message by themselves. */
  lemma {:induction false} ConsumedPartEnds<S(!new)>(step: Machine<S>, s: S, a: string, b: string)
    requires Stable(step)
    requires Exec(step, s, a + b).status.Ended? && Exec(step, s, a + b).rest == b
    ensures Exec(step, s, a).status.Ended? && Exec(step, s, a).rest == ""
  {
    hide Exec;
    ExecAppend(step, s, a, b);
    if Exec(step, s, a).status.Hungry? {
      EndsInsideNewInput(step, s, a, b);
    } else {
      assert Exec(step, s, a).rest + b == b;
      assert |Exec(step, s, a).rest| == 0;
    }
  }

  /** Whatever every step keeps, a run keeps. */
  lemma {:induction false} ExecKeeps<S(!new)>(step: Machine<S>, inv: S -> bool, s: S, input: string)
    requires Progressive(step) && inv(s)
    requires forall t, text :: inv(t) ==> Keeps(step, inv, t, text)
    ensures inv(Exec(step, s, input).state)
    decreases |input|
  {
    hide Exec;
    ExecUnfolds(step, s, input);
    assert Keeps(step, inv, s, input);
    var r := step(s, input);
    if r.Moved? {
      ExecKeeps(step, inv, r.next, input[r.consumed..]);
    }
  }

  ghost predicate Keeps<S>(step: Machine<S>, inv: S -> bool, s: S, input: string)
  {
    step(s, input).Moved? ==> inv(step(s, input).next)
  }

  /** So does any sequence of reads. */
  lemma {:induction false} FeedAllKeeps<S(!new)>(step: Machine<S>, inv: S -> bool, o: Progress<S>, slices: seq<string>)
    requires Progressive(step) && inv(o.state)
    requires forall t, text :: inv(t) ==> Keeps(step, inv, t, text)
    ensures inv(FeedAll(step, o, slices).state)
    decreases |slices|
  {
    hide Exec;
    if slices != [] {
      ExecKeeps(step, inv, o.state, o.rest + slices[0]);
      FeedAllKeeps(step, inv, Feed(step, o, slices[0]), slices[1..]);
    }
  }

  // ── the call interface ──────────────────────────────────────────────────────

  /** What one `parse` call leaves behind: the state, the readable octets, how
      many of them the next call drops first, and its answer. */
  datatype Call<+S> = Call(
    state: S, buffer: string, pending: nat, body: string, answer: Result<ParseStep>)

  /** Which moves a caller is told about, apart from moves that hand out body. */
  type Reporter<!S> = (S, S) -> Option<ParseStep>

  /** One `parse` call on the octets still unread: steps up to the first one
      worth reporting. */
  function CallOf<S(!new)>(step: Machine<S>, report: Reporter<S>, s: S, input: string): (c: Call<S>)
    requires Progressive(step)
    decreases |input|
  {
    assert Advances(step, s, input);
    match step(s, input)
    case Starved => Call(s, input, 0, "", Ok(NeedMore))
    case Finished => Call(s, input, 0, "", Ok(Complete))
    case Failed(e) => Call(s, input, 0, "", Err(e))
    case Moved(next, n, body) =>
      if body != "" then Call(next, input, n, body, Ok(BodyReady))
      else if report(s, next).Some? then Call(next, input[n..], 0, "", Ok(report(s, next).value))
      else CallOf(step, report, next, input[n..])
  }

  /** A call reports what the run does next, and the octets it leaves are the
      ones the run goes on with; so a driver that keeps calling computes the run. */
  lemma {:induction false} CallFollowsRun<S(!new)>(
      step: Machine<S>, report: Reporter<S>, s: S, input: string)
    requires Progressive(step)
    ensures var c := CallOf(step, report, s, input);
            var o := Exec(step, s, input);
            match c.answer
            case Err(e) => o.status == Rejected(e)
            case Ok(_) =>
              && c.pending <= |c.buffer| <= |input|
              && o == Prepend(c.body, Exec(step, c.state, c.buffer[c.pending..]))
    decreases |input|
  {
    hide Exec;
    ExecUnfolds(step, s, input);
    var r := step(s, input);
    assert input[0..] == input;
    if r.Moved? {
      var tail := input[r.consumed..];
      assert tail[0..] == tail;
      if r.body == "" && report(s, r.next).None? {
        CallFollowsRun(step, report, r.next, tail);
      }
    }
  }

  /** `need_more` means only that: the run is starved right here. */
  lemma {:induction false} NeedMoreIsHungry<S(!new)>(
      step: Machine<S>, report: Reporter<S>, s: S, input: string)
    requires Progressive(step)
    requires forall x, y :: report(x, y) != Some(NeedMore)
    requires CallOf(step, report, s, input).answer == Ok(NeedMore)
    ensures var c := CallOf(step, report, s, input);
            Exec(step, s, input) == Progress(c.state, c.buffer, "", Hungry)
    decreases |input|
  {
    hide Exec;
    ExecUnfolds(step, s, input);
    var r := step(s, input);
    if r.Moved? {
      NeedMoreIsHungry(step, report, r.next, input[r.consumed..]);
    }
  }
}

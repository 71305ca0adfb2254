/** Runs in which a step that is not harmless strands a waiter for good.

Under epoll one refused re-arm resumes its waiter before the rest of the list is
armed. That coroutine may join a descriptor further down the list, whose entry was
computed without it; arming the entry then replaces the newcomer's interest. And a
registration that cannot be given back is lost to the other direction.
*/
module PosixStranding {
  import opened Accounts
  import opened Octets
  import opened Timers
  import opened PosixLoop
  import opened PosixRuns
  import opened PosixSafety

  const READ := Interest(true, false)
  const WRITE := Interest(false, true)
  const NEITHER := Interest(false, false)

  function Waiter(fd: int, writable: bool, armed: bool): (op: Operation)
  {
    Operation(Readiness, fd, writable, armed, None, None)
  }

  function Scene(
      ops: map<nat, Operation>, slots: map<Side, nat>, nextId: nat, kernel: set<Side>,
      resumed: seq<(nat, Outcome)>): (s: Loop)
  {
    Loop(Epoll, ops, slots, map[], 0, [], nextId, kernel, false, resumed, {})
  }

  function Wait(fd: int, writable: bool): (a: Action)
  {
    SubmitWaiter(fd, writable, None, Armed, Armed)
  }

  ghost predicate Steps(y: System, a: Action, z: System)
  {
    Enabled(y, a) && Apply(y, a) == z
  }

  predicate OnlyBatchRefused(a: Action)
  {
    match a
    case SubmitWaiter(_, _, _, arming, release) => arming.Armed? && release.Armed?
    case Deliver(release) => release.Armed?
    case _ => true
  }

  /** Some run of the epoll loop ends in `y`, and in it only the batch's own arm
      calls are ever refused. */
  ghost predicate Reached(y: System)
  {
    exists states, run ::
      FromStart(states, run, Epoll) && states[|run|] == y && forall a :: a in run ==> OnlyBatchRefused(a)
  }

  lemma Then(y: System, a: Action, z: System)
    requires Reached(y) && Steps(y, a, z) && OnlyBatchRefused(a)
    ensures Reached(z)
  {
    hide Enabled, Apply, Start;
    var states, run :|
      FromStart(states, run, Epoll) && states[|run|] == y && forall a :: a in run ==> OnlyBatchRefused(a);
    assert FromStart(states + [z], run + [a], Epoll);
    assert (states + [z])[|run + [a]|] == z;
  }

  lemma WaitJoins(y: System, fd: int, writable: bool, z: System)
    requires y.UserRuns() && y.loop.backend.Epoll? && !y.loop.shuttingDown && y.loop.timers == map[]
    requires fd >= 0 && (fd, writable) !in y.loop.slots
    requires z.loop.ops == y.loop.ops[y.loop.nextId + 1 := Waiter(fd, writable, true)]
    requires z.loop.slots == y.loop.slots[(fd, writable) := y.loop.nextId + 1]
    requires z.loop.kernel == y.loop.kernel - Sides(fd) + Wanted(fd, InterestIn(z.loop.slots, fd))
    requires z.loop == y.loop.(ops := z.loop.ops, slots := z.loop.slots, kernel := z.loop.kernel, nextId := y.loop.nextId + 1)
    requires z.stack == y.stack
    ensures Steps(y, Wait(fd, writable), z)
  {
    assert y.loop.timers + TimersFor(y.loop.nextId + 1, None, None) == map[];
  }

  const ONE := System(
    Scene(map[1 := Waiter(7, false, true)], map[(7, false) := 1], 1, {(7, false)}, []), [User])

  const TWO := System(
    Scene(map[1 := Waiter(7, false, true), 2 := Waiter(7, true, true)],
          map[(7, false) := 1, (7, true) := 2], 2, {(7, false), (7, true)}, []),
    [User])

  const THREE := System(
    Scene(map[1 := Waiter(7, false, true), 2 := Waiter(7, true, true), 3 := Waiter(5, false, true)],
          map[(7, false) := 1, (7, true) := 2, (5, false) := 3],
          3, {(7, false), (7, true), (5, false)}, []),
    [User])

  /** Two descriptors, each with a reader and a writer. */
  const CROWDED := System(
    Scene(map[1 := Waiter(7, false, true), 2 := Waiter(7, true, true),
              3 := Waiter(5, false, true), 4 := Waiter(5, true, true)],
          map[(7, false) := 1, (7, true) := 2, (5, false) := 3, (5, true) := 4],
          4, {(7, false), (7, true), (5, false), (5, true)}, []),
    [User])

  /** Both fired one direction; the other one is to be re-armed. */
  const COLLECTED := System(
    Scene(map[1 := Waiter(7, false, false), 2 := Waiter(7, true, true),
              3 := Waiter(5, false, true), 4 := Waiter(5, true, false)],
          map[(7, true) := 2, (5, false) := 3], 4, {}, []),
    [User, Rearming([(7, WRITE), (5, READ)], [(1, Success), (4, Success)])])

  /** Descriptor 7 was refused; its writer runs and starts writing to 5. */
  const JOINED := System(
    Scene(map[1 := Waiter(7, false, false), 3 := Waiter(5, false, true),
              4 := Waiter(5, true, false), 5 := Waiter(5, true, true)],
          map[(5, false) := 3, (5, true) := 5], 5, {(5, false), (5, true)}, [(2, Broken(9))]),
    [User, Rearming([(5, READ)], [(1, Success), (4, Success)]), Delivering([], false), User])

  /** The batch is over, and nothing in the kernel will wake operation 5. */
  const STRANDED := System(
    Scene(map[3 := Waiter(5, false, true), 5 := Waiter(5, true, true)],
          map[(5, false) := 3, (5, true) := 5], 5, {(5, false)},
          [(2, Broken(9)), (1, Success), (4, Success)]),
    [User])

  lemma Crowding()
    ensures Steps(Start(Epoll), Wait(7, false), ONE)
    ensures Steps(ONE, Wait(7, true), TWO)
    ensures Steps(TWO, Wait(5, false), THREE)
    ensures Steps(THREE, Wait(5, true), CROWDED)
  {
    hide Steps;
    WaitJoins(Start(Epoll), 7, false, ONE);
    WaitJoins(ONE, 7, true, TWO);
    WaitJoins(TWO, 5, false, THREE);
    WaitJoins(THREE, 5, true, CROWDED);
  }

  const FIRED := [Event(7, true, false, false), Event(5, false, true, false)]

  /** The first event alone. */
  const HALF := Batch(
    Scene(map[1 := Waiter(7, false, false), 2 := Waiter(7, true, true),
              3 := Waiter(5, false, true), 4 := Waiter(5, true, true)],
          map[(7, true) := 2, (5, false) := 3, (5, true) := 4], 4, {}, []),
    [(1, Success)], [(7, WRITE)])

  lemma FirstEvent()
    ensures FireAll(Epoll, CROWDED.loop.kernel, FIRED) == {}
    ensures ClaimEvent(Batch(CROWDED.loop.(kernel := {}), [], []), FIRED[0]) == HALF
  {
    assert FIRED[..1] == [FIRED[0]] && FIRED[..1][..0] == [];
    var k := CROWDED.loop.kernel;
    assert FireAll(Epoll, k, FIRED[..1]) == Fire(Epoll, FireAll(Epoll, k, []), FIRED[0]);
    assert FireAll(Epoll, k, FIRED) == Fire(Epoll, FireAll(Epoll, k, FIRED[..1]), FIRED[1]);
    var b := Claim(Batch(CROWDED.loop.(kernel := {}), [], []), (7, false));
    assert b.loop.slots == HALF.loop.slots;
    assert b.loop.ops == HALF.loop.ops;
  }

  lemma SecondEvent()
    ensures ClaimEvent(HALF, FIRED[1]) == Batch(COLLECTED.loop, [(1, Success), (4, Success)], [(7, WRITE), (5, READ)])
  {
    var b := Claim(HALF, (5, true));
    assert b.loop.slots == COLLECTED.loop.slots;
    assert b.loop.ops == COLLECTED.loop.ops;
  }

  lemma Collecting()
    ensures Steps(CROWDED, RunOnce(FIRED, 0, []), COLLECTED)
  {
    FirstEvent();
    SecondEvent();
    var b0 := Batch(CROWDED.loop.(kernel := {}), [], []);
    assert FIRED[..1] == [FIRED[0]] && FIRED[..1][..0] == [];
    assert ClaimAll(b0, FIRED[..1]) == ClaimEvent(ClaimAll(b0, []), FIRED[0]);
    assert ClaimAll(b0, FIRED) == ClaimEvent(ClaimAll(b0, FIRED[..1]), FIRED[1]);
    hide ClaimEvent, ClaimAll, FireAll;
    assert NotDue(map[], 0) == map[];
    assert Enabled(CROWDED, RunOnce(FIRED, 0, []));
    var b := Collect(CROWDED.loop, FIRED, 0, []);
    assert b.resolved == [(1, Success), (4, Success)] by { assert AllCancelled([]) == []; }
    assert b.loop == COLLECTED.loop;
  }

  const BATCH := [(1, Success), (4, Success)]

  const REFUSED := System(
    Scene(map[1 := Waiter(7, false, false), 2 := Waiter(7, true, false),
              3 := Waiter(5, false, true), 4 := Waiter(5, true, false)],
          map[(5, false) := 3], 4, {}, []),
    [User, Rearming([(5, READ)], BATCH), Delivering([(0, Broken(9)), (2, Broken(9))], false)])

  const RESUMED := System(
    Scene(map[1 := Waiter(7, false, false), 3 := Waiter(5, false, true), 4 := Waiter(5, true, false)],
          map[(5, false) := 3], 4, {}, [(2, Broken(9))]),
    [User, Rearming([(5, READ)], BATCH), Delivering([], false), User])

  lemma Refusing()
    ensures Steps(COLLECTED, Rearm(Refused(NEITHER, 9)), REFUSED)
  {
    var s := ClearSlots(COLLECTED.loop, 7);
    assert s.slots == REFUSED.loop.slots;
    assert s.ops == REFUSED.loop.ops;
    assert [(7, WRITE), (5, READ)][1..] == [(5, READ)];
    assert COLLECTED.Under() == [User];
  }

  lemma Resuming()
    ensures Steps(REFUSED, Deliver(Armed), REFUSED.(stack := REFUSED.stack[..2] + [Delivering([(2, Broken(9))], false)]))
    ensures Steps(REFUSED.(stack := REFUSED.stack[..2] + [Delivering([(2, Broken(9))], false)]), Deliver(Armed), RESUMED)
  {
    assert [(0, Broken(9)), (2, Broken(9))][1..] == [(2, Broken(9))];
    var y := REFUSED.(stack := REFUSED.stack[..2] + [Delivering([(2, Broken(9))], false)]);
    assert y.Under() == REFUSED.stack[..2];
    assert [(2, Broken(9))][1..] == [];
    assert Finalize(y.loop, 2, Broken(9), Armed).ops == RESUMED.loop.ops;
  }

  lemma Joining()
    ensures Steps(RESUMED, Wait(5, true), JOINED)
  {
    WaitJoins(RESUMED, 5, true, JOINED);
  }

  const REARMED := System(JOINED.loop.(kernel := {(5, false)}), [User, Rearming([], BATCH)])

  lemma Replacing()
    ensures Steps(JOINED, Return, JOINED.(stack := JOINED.stack[..3]))
    ensures Steps(JOINED.(stack := JOINED.stack[..3]), Delivered, JOINED.(stack := JOINED.stack[..2]))
    ensures Steps(JOINED.(stack := JOINED.stack[..2]), Rearm(Armed), REARMED)
    ensures Steps(REARMED, Rearmed, REARMED.(stack := [User, Delivering(BATCH, true)]))
  {
    assert JOINED.stack[..3][..2] == JOINED.stack[..2];
    assert JOINED.stack[..2][..1] == [User] == REARMED.Under();
    assert [(5, READ)][1..] == [];
    assert Arm(Epoll, JOINED.loop.kernel, 5, READ) == {(5, false)};
  }

  const FIRST_DONE := System(
    Scene(map[3 := Waiter(5, false, true), 4 := Waiter(5, true, false), 5 := Waiter(5, true, true)],
          map[(5, false) := 3, (5, true) := 5], 5, {(5, false)}, [(2, Broken(9)), (1, Success)]),
    [User, Delivering([(4, Success)], true)])

  lemma DeliveringFirst()
    ensures Steps(REARMED.(stack := [User, Delivering(BATCH, true)]), Deliver(Armed), FIRST_DONE.(stack := FIRST_DONE.stack + [User]))
    ensures Steps(FIRST_DONE.(stack := FIRST_DONE.stack + [User]), Return, FIRST_DONE)
  {
    var y := REARMED.(stack := [User, Delivering(BATCH, true)]);
    assert BATCH[1..] == [(4, Success)];
    assert y.Under() == [User];
    assert Finalize(y.loop, 1, Success, Armed).ops == FIRST_DONE.loop.ops;
    assert (FIRST_DONE.stack + [User])[..2] == FIRST_DONE.stack;
  }

  lemma DeliveringSecond()
    ensures Steps(FIRST_DONE, Deliver(Armed), STRANDED.(stack := [User, Delivering([], true), User]))
    ensures Steps(STRANDED.(stack := [User, Delivering([], true), User]), Return, STRANDED.(stack := [User, Delivering([], true)]))
    ensures Steps(STRANDED.(stack := [User, Delivering([], true)]), Delivered, STRANDED)
  {
    assert [(4, Success)][1..] == [];
    assert FIRST_DONE.Under() == [User];
    assert Finalize(FIRST_DONE.loop, 4, Success, Armed).ops == STRANDED.loop.ops;
    assert [User, Delivering([], true), User][..2] == [User, Delivering([], true)];
    assert [User, Delivering([], true)][..1] == [User];
  }

  lemma ReachesCollected()
    ensures Reached(COLLECTED)
  {
    assert Reached(Start(Epoll)) by {
      var none: seq<Action> := [];
      assert FromStart([Start(Epoll)], none, Epoll) && [Start(Epoll)][|none|] == Start(Epoll);
    }
    Crowding();
    Collecting();
    hide Steps, Reached, Start;
    Then(Start(Epoll), Wait(7, false), ONE);
    Then(ONE, Wait(7, true), TWO);
    Then(TWO, Wait(5, false), THREE);
    Then(THREE, Wait(5, true), CROWDED);
    Then(CROWDED, RunOnce(FIRED, 0, []), COLLECTED);
  }

  lemma ReachesRearmed()
    ensures Reached(REARMED)
  {
    hide Steps, Reached;
    ReachesCollected();
    Refusing();
    Then(COLLECTED, Rearm(Refused(NEITHER, 9)), REFUSED);
    Resuming();
    var y := REFUSED.(stack := REFUSED.stack[..2] + [Delivering([(2, Broken(9))], false)]);
    Then(REFUSED, Deliver(Armed), y);
    Then(y, Deliver(Armed), RESUMED);
    Joining();
    Then(RESUMED, Wait(5, true), JOINED);
    Replacing();
    Then(JOINED, Return, JOINED.(stack := JOINED.stack[..3]));
    Then(JOINED.(stack := JOINED.stack[..3]), Delivered, JOINED.(stack := JOINED.stack[..2]));
    Then(JOINED.(stack := JOINED.stack[..2]), Rearm(Armed), REARMED);
  }

  /** Under epoll one refused re-arm on descriptor 7 leaves a waiter on
      descriptor 5 without a registration once the batch is over. */
  lemma RefusedRearmStrands()
    ensures Reached(STRANDED) && STRANDED.Quiet()
    ensures 5 in STRANDED.loop.ops && STRANDED.loop.ops[5] == Waiter(5, true, true)
    ensures (5, true) !in STRANDED.loop.kernel
  {
    hide Steps, Reached;
    ReachesRearmed();
    Replacing();
    var y := REARMED.(stack := [User, Delivering(BATCH, true)]);
    Then(REARMED, Rearmed, y);
    DeliveringFirst();
    Then(y, Deliver(Armed), FIRST_DONE.(stack := FIRST_DONE.stack + [User]));
    Then(FIRST_DONE.(stack := FIRST_DONE.stack + [User]), Return, FIRST_DONE);
    DeliveringSecond();
    Then(FIRST_DONE, Deliver(Armed), STRANDED.(stack := [User, Delivering([], true), User]));
    Then(STRANDED.(stack := [User, Delivering([], true), User]), Return, STRANDED.(stack := [User, Delivering([], true)]));
    Then(STRANDED.(stack := [User, Delivering([], true)]), Delivered, STRANDED);
  }

  // ── a registration that cannot be given back ────────────────────────────────

  const NO := Refused(NEITHER, 9)

  /** The kernel refused a writer and then to go back to the reader alone. */
  const LONELY := System(ONE.loop.(nextId := 2, kernel := {}, discarded := {2}), [User])

  /** Descriptor 7 with a reader and a writer, nothing registered. */
  const UNARMED := TWO.loop.(kernel := {})

  lemma DiscardingWriter()
    ensures Remove(UNARMED, 2, NO) == ONE.loop.(nextId := 2, kernel := {})
  {
    var t := Unlink(UNARMED, 2);
    assert t.ops == ONE.loop.ops;
    assert t.slots == ONE.loop.slots;
    assert LeavesRegistration(UNARMED, 2);
    hide Unlink, LeavesRegistration;
    assert Wanted(7, NEITHER) == {};
    assert t.kernel - Sides(7) + Wanted(7, NEITHER) == {};
  }

  lemma RegisteringWriter()
    ensures Register(ONE.loop, 7, true, None) == TWO.loop.(kernel := ONE.loop.kernel)
    ensures TryArm(Epoll, ONE.loop.kernel, 7, InterestIn(TWO.loop.slots, 7), NO) == {}
  {
    var s1 := Register(ONE.loop, 7, true, None);
    assert s1.timers == map[];
    assert s1.ops == TWO.loop.ops;
    assert s1.slots == TWO.loop.slots;
    assert Wanted(7, NEITHER) == {};
  }

  lemma GivingUp()
    ensures Steps(ONE, SubmitWaiter(7, true, None, NO, NO), LONELY)
  {
    RegisteringWriter();
    DiscardingWriter();
    hide Register, TryArm, Remove, InterestIn;
    assert AddWaiter(ONE.loop, 7, true, None, NO, NO) == Discard(UNARMED, 2, NO);
  }

  /** A refused submission whose release is refused as well strands the waiter on
      the other direction. */
  lemma RefusedSubmissionStrands() returns (states: seq<System>, run: seq<Action>)
    ensures FromStart(states, run, Epoll) && run == [Wait(7, false), SubmitWaiter(7, true, None, NO, NO)]
    ensures states[2].Quiet() && states[2].loop.ops == map[1 := Waiter(7, false, true)]
    ensures (7, false) !in states[2].loop.kernel
  {
    Crowding();
    GivingUp();
    hide Apply, Enabled, Start;
    states := [Start(Epoll), ONE, LONELY];
    run := [Wait(7, false), SubmitWaiter(7, true, None, NO, NO)];
  }

  /** The reader of descriptor 7 is to be cancelled. */
  const CANCELLING := System(TWO.loop.(cancels := [1]), [User])
  const LISTED := System(TWO.loop, [User, Rearming([], [(1, Cancelled)])])
  const LEFT := System(
    Scene(map[2 := Waiter(7, true, true)], map[(7, true) := 2], 2, {}, [(1, Cancelled)]), [User])

  lemma Cancelling()
    ensures Steps(TWO, AskCancel(1), CANCELLING)
    ensures Steps(CANCELLING, RunOnce([], 0, []), LISTED)
    ensures Steps(LISTED, Rearmed, LISTED.(stack := [User, Delivering([(1, Cancelled)], true)]))
  {
    assert [] + [1] == [1];
    var b := Collect(CANCELLING.loop, [], 0, []);
    assert NotDue(map[], 0) == map[];
    assert b.resolved == [(1, Cancelled)] by { assert AllCancelled([1]) == [(1, Cancelled)]; }
    assert b.loop == TWO.loop;
    assert LISTED.Under() == [User];
  }

  lemma ReleasingReader()
    ensures Finalize(TWO.loop, 1, Cancelled, NO) == LEFT.loop
  {
    var t := Unlink(TWO.loop, 1);
    assert t.ops == LEFT.loop.ops;
    assert t.slots == LEFT.loop.slots;
    assert LeavesRegistration(TWO.loop, 1);
    hide Unlink, LeavesRegistration;
    assert Wanted(7, NEITHER) == {};
    assert t.kernel - Sides(7) + Wanted(7, NEITHER) == {};
  }

  lemma Leaving()
    ensures Steps(LISTED.(stack := [User, Delivering([(1, Cancelled)], true)]), Deliver(NO),
                  LEFT.(stack := [User, Delivering([], true), User]))
    ensures Steps(LEFT.(stack := [User, Delivering([], true), User]), Return, LEFT.(stack := [User, Delivering([], true)]))
    ensures Steps(LEFT.(stack := [User, Delivering([], true)]), Delivered, LEFT)
  {
    var y := LISTED.(stack := [User, Delivering([(1, Cancelled)], true)]);
    assert y.Under() == [User];
    assert [(1, Cancelled)][1..] == [];
    ReleasingReader();
    hide Finalize;
    assert [User, Delivering([], true), User][..2] == [User, Delivering([], true)];
    assert [User, Delivering([], true)][..1] == [User];
  }

  /** So does finishing one direction if the release for the other is refused. */
  lemma RefusedReleaseStrands() returns (states: seq<System>, run: seq<Action>)
    ensures FromStart(states, run, Epoll) && |run| == 8
    ensures run[5] == Deliver(NO) && forall i :: 0 <= i < 8 && i != 5 ==> OnlyBatchRefused(run[i])
    ensures states[8].Quiet() && states[8].loop.ops == map[2 := Waiter(7, true, true)]
    ensures (7, true) !in states[8].loop.kernel
  {
    Crowding();
    Cancelling();
    Leaving();
    hide Apply, Enabled, Start;
    states := [Start(Epoll), ONE, TWO, CANCELLING, LISTED,
               LISTED.(stack := [User, Delivering([(1, Cancelled)], true)]),
               LEFT.(stack := [User, Delivering([], true), User]), LEFT.(stack := [User, Delivering([], true)]), LEFT];
    run := [Wait(7, false), Wait(7, true), AskCancel(1), RunOnce([], 0, []), Rearmed, Deliver(NO), Return, Delivered];
  }
}

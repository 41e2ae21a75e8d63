/** A page session: the user's inputs interleaved with the updates of the
    runs in flight. A click on Execute publishes, within the click, the
    updates the handler makes before its first pause, and queues the rest of
    the run, computed from the blocks of that moment; each queued update then
    lands on the state as it is at that time, in order within its run but
    interleaved freely with clicks, drops and the updates of other runs.
    Nothing removes a run once it is queued: stop and reset only change the
    state. */
module Session {
  import opened Blocks
  import opened Ordering
  import opened Robot
  import opened Engine

  datatype Input =
    | DropInput(token: string, id: string, x: int, y: int)
    | DeleteInput(id: string)
    | PrimaryInput
    | ResetInput
    | Deliver(run: nat)

  /** The controller and, per run started so far, its updates still to land. */
  datatype Session = Session(c: Controller, pending: seq<seq<Event>>)

  const Fresh := Session(Initial, [])

  /** One input. The primary button stops while the flag is set and starts a
      run otherwise; reset is ignored while the flag is set; a delivery lands
      the next update of the chosen run, if it has one. */
  function Perform(s: Session, input: Input): (s': Session)
    requires ValidDirection(s.c.robot.direction)
    ensures ValidDirection(s'.c.robot.direction)
    ensures Wellformed(s.c.robot) ==> Wellformed(s'.c.robot)
    ensures |s'.pending| == |s.pending| + (if input == PrimaryInput && !s.c.isExecuting then 1 else 0)
    ensures forall j :: 0 <= j < |s.pending| && input != Deliver(j) ==> s'.pending[j] == s.pending[j]
    ensures input.Deliver? && input.run < |s.pending| && |s.pending[input.run]| > 0 ==>
      && s'.pending[input.run] == s.pending[input.run][1..]
      && s'.c == Apply(s.c, s.pending[input.run][0])
    ensures input.Deliver? && !(input.run < |s.pending| && |s.pending[input.run]| > 0) ==> s' == s
    ensures input.DropInput? ==> s' == s.(c := DropBlock(s.c, input.token, input.id, input.x, input.y))
    ensures input.DeleteInput? ==> s' == s.(c := DeleteBlock(s.c, input.id))
    ensures input == PrimaryInput && s.c.isExecuting ==> s' == s.(c := Stop(s.c))
    ensures input == ResetInput ==> s' == (if s.c.isExecuting then s else s.(c := Reset(s.c)))
    ensures input == PrimaryInput && !s.c.isExecuting ==>
      && s'.c == ApplyAll(s.c, Run(s.c)[..Synchronous(s.c)])
      && s'.pending[|s.pending|] == Run(s.c)[Synchronous(s.c)..]
  {
    match input
    case DropInput(token, id, x, y) => s.(c := DropBlock(s.c, token, id, x, y))
    case DeleteInput(id) => s.(c := DeleteBlock(s.c, id))
    case PrimaryInput =>
      if s.c.isExecuting then s.(c := Stop(s.c))
      else
        var t := Run(s.c);
        var k := Synchronous(s.c);
        Session(ApplyAll(s.c, t[..k]), s.pending + [t[k..]])
    case ResetInput =>
      if s.c.isExecuting then s else s.(c := Reset(s.c))
    case Deliver(i) =>
      if i < |s.pending| && |s.pending[i]| > 0 then
        Session(Apply(s.c, s.pending[i][0]), s.pending[i := s.pending[i][1..]])
      else s
  }

  /** A click on Execute with blocks on the workspace sets the flag within
      the click, so the next click is a stop: two runs of the same session
      cannot be started back to back. */
  lemma SecondClickStops(s: Session)
    requires ValidDirection(s.c.robot.direction)
    requires !s.c.isExecuting && |s.c.blocks| > 0
    ensures Perform(s, PrimaryInput).c.isExecuting
    ensures Perform(s, PrimaryInput).c.executionStep == 0
    ensures Perform(Perform(s, PrimaryInput), PrimaryInput)
      == Perform(s, PrimaryInput).(c := Stop(Perform(s, PrimaryInput).c))
  {
    StartedState(s.c);
  }

  function PerformAll(s: Session, inputs: seq<Input>): (s': Session)
    requires ValidDirection(s.c.robot.direction)
    ensures ValidDirection(s'.c.robot.direction)
    decreases |inputs|
  {
    if |inputs| == 0 then s else PerformAll(Perform(s, inputs[0]), inputs[1..])
  }

  lemma PerformAllCons(s: Session, input: Input, rest: seq<Input>)
    requires ValidDirection(s.c.robot.direction)
    ensures PerformAll(s, [input] + rest) == PerformAll(Perform(s, input), rest)
  {
    assert ([input] + rest)[1..] == rest;
  }

  /** Every step index a run publishes is -1 or more. */
  lemma RunStepsFromMinusOne(c: Controller)
    ensures forall k :: 0 <= k < |Run(c)| && Run(c)[k].ShowStep? ==> Run(c)[k].step >= -1
  {
    if |c.blocks| > 0 {
      var body := StepEvents(SortByY(c.blocks), 0);
      assert Run(c) == Opening + body + Closing;
      forall k | 0 <= k < |Run(c)| && Run(c)[k].ShowStep?
        ensures Run(c)[k].step >= -1
      {
        if 3 <= k < 3 + |body| {
          StepEventsAt(SortByY(c.blocks), 0, (k - 3) / 2);
          assert Run(c)[k] == body[k - 3];
        }
      }
    }
  }

  ghost predicate PendingStepsFromMinusOne(pending: seq<seq<Event>>) {
    forall i, k :: 0 <= i < |pending| && 0 <= k < |pending[i]| && pending[i][k].ShowStep? ==>
      pending[i][k].step >= -1
  }

  /** The session invariant: the robot is on the grid, faces one of the four
      directions and keeps its full energy, and the step indicator, as well as
      every step index still to land, is -1 or more. */
  ghost predicate Good(s: Session) {
    && Wellformed(s.c.robot)
    && s.c.executionStep >= -1
    && PendingStepsFromMinusOne(s.pending)
  }

  lemma PerformKeepsGood(s: Session, input: Input)
    requires Good(s)
    ensures Good(Perform(s, input))
  {
    var s' := Perform(s, input);
    match input
    case PrimaryInput =>
      if !s.c.isExecuting {
        var t := Run(s.c);
        var k := Synchronous(s.c);
        RunStepsFromMinusOne(s.c);
        StartedState(s.c);
        assert s'.pending == s.pending + [t[k..]];
        forall i, j | 0 <= i < |s'.pending| && 0 <= j < |s'.pending[i]| && s'.pending[i][j].ShowStep?
          ensures s'.pending[i][j].step >= -1
        {
          if i < |s.pending| {
            assert s'.pending[i] == s.pending[i];
          } else {
            assert s'.pending[i][j] == t[k + j];
          }
        }
      }
    case Deliver(i) =>
      if i < |s.pending| && |s.pending[i]| > 0 {
        var run := s.pending[i];
        assert run[0].ShowStep? ==> run[0].step >= -1;
        forall j, k | 0 <= j < |s'.pending| && 0 <= k < |s'.pending[j]| && s'.pending[j][k].ShowStep?
          ensures s'.pending[j][k].step >= -1
        {
          if j == i {
            assert s'.pending[j][k] == run[k + 1];
          } else {
            assert s'.pending[j] == s.pending[j];
          }
        }
      }
    case _ =>
  }

  /** Whatever the user does and however the updates of the runs interleave,
      the invariant holds in every state the page reaches. */
  lemma {:induction false} ReachableGood(s: Session, inputs: seq<Input>)
    requires Good(s)
    ensures Good(PerformAll(s, inputs))
    decreases |inputs|
  {
    if |inputs| > 0 {
      PerformKeepsGood(s, inputs[0]);
      ReachableGood(Perform(s, inputs[0]), inputs[1..]);
    }
  }

  lemma FreshIsGood()
    ensures Good(Fresh)
    ensures forall inputs :: Good(PerformAll(Fresh, inputs))
  {
    forall inputs {
      ReachableGood(Fresh, inputs);
    }
  }

  /** `n` deliveries from run `i`. */
  function Deliveries(i: nat, n: nat): (ins: seq<Input>)
    ensures |ins| == n
    ensures forall k :: 0 <= k < n ==> ins[k] == Deliver(i)
  {
    seq(n, _ => Deliver(i))
  }

  /** Landing the remaining updates of one run with nothing in between is
      applying them in order. */
  lemma {:induction false} DeliverRest(s: Session, i: nat)
    requires ValidDirection(s.c.robot.direction)
    requires i < |s.pending|
    ensures PerformAll(s, Deliveries(i, |s.pending[i]|)).c == ApplyAll(s.c, s.pending[i])
    decreases |s.pending[i]|
  {
    var n := |s.pending[i]|;
    if n > 0 {
      var s' := Perform(s, Deliver(i));
      assert Deliveries(i, n)[1..] == Deliveries(i, n - 1);
      assert s'.pending[i] == s.pending[i][1..];
      DeliverRest(s', i);
      ApplyAllCons(s.c, s.pending[i][0], s.pending[i][1..]);
      assert s.pending[i] == [s.pending[i][0]] + s.pending[i][1..];
    }
  }

  /** An Execute click on an idle page with nothing queued. */
  lemma IdleClick(c: Controller)
    requires ValidDirection(c.robot.direction)
    requires !c.isExecuting
    ensures Perform(Session(c, []), PrimaryInput).c == ApplyAll(c, Run(c)[..Synchronous(c)])
    ensures Perform(Session(c, []), PrimaryInput).pending == [Run(c)[Synchronous(c)..]]
  {
  }

  lemma ExecuteIsRun(c: Controller)
    requires ValidDirection(c.robot.direction)
    ensures Execute(c) == ApplyAll(c, Run(c))
  {
  }

  /** A click on Execute on an idle page followed by all of the run's queued
      updates, with nothing in between, ends in the state `Execute` gives. */
  lemma UninterruptedRun(c: Controller)
    requires ValidDirection(c.robot.direction)
    requires !c.isExecuting
    ensures PerformAll(Session(c, []), [PrimaryInput] + Deliveries(0, |Run(c)| - Synchronous(c))).c
      == Execute(c)
  {
    var t := Run(c);
    var k := Synchronous(c);
    var s1 := Perform(Session(c, []), PrimaryInput);
    var rest := t[k..];
    IdleClick(c);
    assert s1.pending == [rest];
    assert |rest| == |t| - k;
    var ds := Deliveries(0, |rest|);
    PerformAllCons(Session(c, []), PrimaryInput, ds);
    DeliverRest(s1, 0);
    assert PerformAll(s1, ds).c == ApplyAll(s1.c, rest);
    ApplyAllSplit(c, t, k);
    ExecuteIsRun(c);
  }

  /** Reset does not end a stopped run either: the run's remaining updates
      land on the cleared workspace, so the success message replaces the
      reset message and the flags are cleared again; a move among them acts
      on the freshly placed robot, and the first one carries it off the
      start. */
  lemma StaleRunAfterReset(c: Controller, middle: seq<Event>)
    requires ValidDirection(c.robot.direction)
    ensures ApplyAll(Reset(c), middle + Closing).feedback == SuccessMessage
    ensures ApplyAll(Reset(c), middle + Closing).blocks == []
    ensures ApplyAll(Reset(c), [Effect(Move)] + middle + Closing).robot
      == ApplyAll(Reset(c).(robot := Step(Start, Move)), middle + Closing).robot
    ensures Step(Start, Move) != Start
  {
    ApplyClosing(Reset(c), middle);
    assert [Effect(Move)] + middle + Closing == [Effect(Move)] + (middle + Closing);
    ApplyAllCons(Reset(c), Effect(Move), middle + Closing);
    SameRobotSameRun(Apply(Reset(c), Effect(Move)), Reset(c).(robot := Step(Start, Move)), middle + Closing);
  }
}

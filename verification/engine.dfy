/** The controller of the Logic Forge page: the state record
    (blocks, isExecuting, executionStep, robotState, feedback) and the
    transitions the page wires to its controls — drop, delete, execute, stop
    and reset.

    A run is modelled as the trace of state updates it publishes, in order;
    the state after a run is that trace applied to the state it started in.
    The one-second pause between steps is not modelled: a stop arriving
    during a run is an update placed somewhere in the trace (see
    `StopDoesNotCancel`). */
module Engine {
  import opened Blocks
  import opened Ordering
  import opened Robot

  const EmptyProgramMessage := "Add some logic blocks to create your program!"
  const ExecutingMessage := "Executing program..."
  const SuccessMessage := "Program executed successfully! \U{1F389}"
  const ResetMessage := "Workspace cleared. Ready to build!"
  const StoppedMessage := "Execution stopped."

  datatype Controller = Controller(
    blocks: seq<Block>,
    isExecuting: bool,
    executionStep: int,
    robot: Robot,
    feedback: string)

  /** The state of a freshly loaded page. */
  const Initial := Controller([], false, -1, Start, "")

  /** One state update a run publishes. An `Effect` is applied to the robot
      as it is when the update lands, like a functional state updater. */
  datatype Event =
    | ShowStep(step: int)
    | SetExecuting(on: bool)
    | ShowFeedback(message: string)
    | Effect(kind: Kind)

  /** The updates published before the loop and after it. */
  const Opening := [SetExecuting(true), ShowStep(0), ShowFeedback(ExecutingMessage)]
  const Closing := [ShowStep(-1), SetExecuting(false), ShowFeedback(SuccessMessage)]

  function Apply(c: Controller, e: Event): (c': Controller)
    requires ValidDirection(c.robot.direction)
    ensures ValidDirection(c'.robot.direction)
    ensures c'.blocks == c.blocks
    ensures c'.robot.energy == c.robot.energy
    ensures OnGrid(c.robot.x, c.robot.y) ==> OnGrid(c'.robot.x, c'.robot.y)
    ensures !e.Effect? ==> c'.robot == c.robot
  {
    match e
    case ShowStep(i) => c.(executionStep := i)
    case SetExecuting(b) => c.(isExecuting := b)
    case ShowFeedback(m) => c.(feedback := m)
    case Effect(k) => c.(robot := Step(c.robot, k))
  }

  /** The updates of `t` applied first to last. */
  function ApplyAll(c: Controller, t: seq<Event>): (c': Controller)
    requires ValidDirection(c.robot.direction)
    ensures ValidDirection(c'.robot.direction)
    ensures c'.blocks == c.blocks
    ensures c'.robot.energy == c.robot.energy
    ensures OnGrid(c.robot.x, c.robot.y) ==> OnGrid(c'.robot.x, c'.robot.y)
    decreases |t|
  {
    if |t| == 0 then c else ApplyAll(Apply(c, t[0]), t[1..])
  }

  lemma {:induction false} ApplyAllAppend(c: Controller, a: seq<Event>, b: seq<Event>)
    requires ValidDirection(c.robot.direction)
    ensures ApplyAll(c, a + b) == ApplyAll(ApplyAll(c, a), b)
    decreases |a|
  {
    if |a| == 0 {
      assert a + b == b;
    } else {
      assert (a + b)[1..] == a[1..] + b;
      ApplyAllAppend(Apply(c, a[0]), a[1..], b);
    }
  }

  lemma ApplyAllSplit(c: Controller, t: seq<Event>, p: nat)
    requires ValidDirection(c.robot.direction)
    requires p <= |t|
    ensures ApplyAll(c, t) == ApplyAll(ApplyAll(c, t[..p]), t[p..])
  {
    assert t == t[..p] + t[p..];
    ApplyAllAppend(c, t[..p], t[p..]);
  }

  lemma ApplyAllCons(c: Controller, e: Event, t: seq<Event>)
    requires ValidDirection(c.robot.direction)
    ensures ApplyAll(c, [e] + t) == ApplyAll(Apply(c, e), t)
  {
    assert ([e] + t)[1..] == t;
  }

  /** The opening updates set the flags, step 0 and the progress message. */
  lemma ApplyOpening(c: Controller, t: seq<Event>)
    requires ValidDirection(c.robot.direction)
    ensures ApplyAll(c, Opening + t)
      == ApplyAll(c.(isExecuting := true, executionStep := 0, feedback := ExecutingMessage), t)
  {
    var c1 := c.(isExecuting := true);
    var c2 := c1.(executionStep := 0);
    var rest2 := [ShowFeedback(ExecutingMessage)] + t;
    var rest1 := [ShowStep(0)] + rest2;
    assert Opening + t == [SetExecuting(true)] + rest1;
    ApplyAllCons(c, SetExecuting(true), rest1);
    ApplyAllCons(c1, ShowStep(0), rest2);
    ApplyAllCons(c2, ShowFeedback(ExecutingMessage), t);
  }

  /** The closing updates clear the flags and show the success message,
      whatever came before them. */
  lemma ApplyClosing(c: Controller, t: seq<Event>)
    requires ValidDirection(c.robot.direction)
    ensures ApplyAll(c, t + Closing)
      == ApplyAll(c, t).(executionStep := -1, isExecuting := false, feedback := SuccessMessage)
  {
    ApplyAllAppend(c, t, Closing);
    var d := ApplyAll(c, t);
    ApplyAllCons(d, Closing[0], Closing[1..]);
    ApplyAllCons(Apply(d, Closing[0]), Closing[1], Closing[2..]);
    ApplyAllCons(Apply(Apply(d, Closing[0]), Closing[1]), Closing[2], []);
  }

  /** The loop body for the blocks `bs`, numbered from `i`: publish the step
      index, then apply the block's effect. */
  function StepEvents(bs: seq<Block>, i: int): (t: seq<Event>)
    ensures |t| == 2 * |bs|
    decreases |bs|
  {
    if |bs| == 0 then []
    else [ShowStep(i), Effect(bs[0].kind)] + StepEvents(bs[1..], i + 1)
  }

  /** Update 2j of the loop is step index i + j, update 2j + 1 the effect of
      block j. */
  lemma {:induction false} StepEventsAt(bs: seq<Block>, i: int, j: nat)
    requires j < |bs|
    ensures StepEvents(bs, i)[2 * j] == ShowStep(i + j)
    ensures StepEvents(bs, i)[2 * j + 1] == Effect(bs[j].kind)
    decreases j
  {
    if j > 0 {
      var rest := StepEvents(bs[1..], i + 1);
      StepEventsAt(bs[1..], i + 1, j - 1);
      assert StepEvents(bs, i)[2 * j] == rest[2 * (j - 1)];
      assert StepEvents(bs, i)[2 * j + 1] == rest[2 * (j - 1) + 1];
    }
  }

  /** The updates `executeProgram` publishes for the blocks of `c`. On an
      empty program only the hint is shown. Otherwise step 0 is published
      once before the loop and again by the loop's first iteration. */
  function Run(c: Controller): seq<Event> {
    if |c.blocks| == 0 then [ShowFeedback(EmptyProgramMessage)]
    else
      Opening + StepEvents(SortByY(c.blocks), 0) + Closing
  }

  /** The loop's updates move the step indicator and the robot and nothing else. */
  lemma {:induction false} ApplyStepEvents(c: Controller, bs: seq<Block>, i: int)
    requires ValidDirection(c.robot.direction)
    ensures ApplyAll(c, StepEvents(bs, i)).robot == RunBlocks(c.robot, bs)
    ensures ApplyAll(c, StepEvents(bs, i)).isExecuting == c.isExecuting
    ensures ApplyAll(c, StepEvents(bs, i)).feedback == c.feedback
    decreases |bs|
  {
    if |bs| > 0 {
      var rest := StepEvents(bs[1..], i + 1);
      assert StepEvents(bs, i) == [ShowStep(i)] + ([Effect(bs[0].kind)] + rest);
      ApplyAllCons(c, ShowStep(i), [Effect(bs[0].kind)] + rest);
      ApplyAllCons(c.(executionStep := i), Effect(bs[0].kind), rest);
      var c2 := c.(executionStep := i, robot := Step(c.robot, bs[0].kind));
      ApplyStepEvents(c2, bs[1..], i + 1);
    }
  }

  /** The state after a complete run. The stored block list is not reordered:
      the order is taken from a sorted copy. */
  function Execute(c: Controller): (r: Controller)
    requires ValidDirection(c.robot.direction)
    ensures r.blocks == c.blocks
    ensures |c.blocks| == 0 ==> r == c.(feedback := EmptyProgramMessage)
    ensures |c.blocks| > 0 ==>
      && !r.isExecuting
      && r.executionStep == -1
      && r.feedback == SuccessMessage
      && r.robot == RunBlocks(c.robot, SortByY(c.blocks))
  {
    if |c.blocks| == 0 then
      ApplyAllCons(c, ShowFeedback(EmptyProgramMessage), []);
      assert Run(c) == [ShowFeedback(EmptyProgramMessage)] + [];
      ApplyAll(c, Run(c))
    else
      var body := StepEvents(SortByY(c.blocks), 0);
      ApplyClosing(c, Opening + body);
      ApplyOpening(c, body);
      ApplyStepEvents(c.(isExecuting := true, executionStep := 0, feedback := ExecutingMessage), SortByY(c.blocks), 0);
      ApplyAll(c, Run(c))
  }

  /** How many of a run's updates `executeProgram` publishes before its first
      pause, that is, within the click that starts it: the hint alone on an
      empty program, otherwise the three opening updates and the loop's first
      step index. */
  function Synchronous(c: Controller): (k: nat)
    ensures k <= |Run(c)|
    ensures k == |Run(c)| <==> |c.blocks| == 0
  {
    if |c.blocks| == 0 then 1 else 4
  }

  /** Within the click, an empty program only shows the hint; a non-empty one
      is already executing at step 0 with the progress message, its robot
      not yet moved. */
  lemma StartedState(c: Controller)
    requires ValidDirection(c.robot.direction)
    ensures ApplyAll(c, Run(c)[..Synchronous(c)])
      == if |c.blocks| == 0 then c.(feedback := EmptyProgramMessage)
         else c.(isExecuting := true, executionStep := 0, feedback := ExecutingMessage)
  {
    if |c.blocks| == 0 {
      assert Run(c)[..1] == [ShowFeedback(EmptyProgramMessage)] + [];
      ApplyAllCons(c, ShowFeedback(EmptyProgramMessage), []);
    } else {
      var sorted := SortByY(c.blocks);
      StepEventsAt(sorted, 0, 0);
      assert Run(c)[..4] == Opening + [ShowStep(0)];
      ApplyOpening(c, [ShowStep(0)]);
      var c2 := c.(isExecuting := true, executionStep := 0, feedback := ExecutingMessage);
      ApplyAllCons(c2, ShowStep(0), []);
    }
  }

  /** A run on N > 0 blocks publishes 2N + 6 updates: the opening three, then
      for each i < N the step index i immediately followed by the effect of
      the i-th block in execution order, then the closing three. */
  lemma RunShape(c: Controller)
    requires |c.blocks| > 0
    ensures |Run(c)| == 2 * |c.blocks| + 6
    ensures Run(c)[..3] == Opening
    ensures forall i :: 0 <= i < |c.blocks| ==>
      && Run(c)[3 + 2 * i] == ShowStep(i)
      && Run(c)[4 + 2 * i] == Effect(SortByY(c.blocks)[i].kind)
    ensures Run(c)[2 * |c.blocks| + 3..] == Closing
  {
    var n := |c.blocks|;
    var body := StepEvents(SortByY(c.blocks), 0);
    forall i | 0 <= i < n
      ensures Run(c)[3 + 2 * i] == ShowStep(i) && Run(c)[4 + 2 * i] == Effect(SortByY(c.blocks)[i].kind)
    {
      StepEventsAt(SortByY(c.blocks), 0, i);
      assert Run(c)[3 + 2 * i] == body[2 * i];
      assert Run(c)[4 + 2 * i] == body[2 * i + 1];
    }
  }

  /** The step indices a trace publishes, in order. */
  function PublishedSteps(t: seq<Event>): seq<int> {
    if |t| == 0 then []
    else (if t[0].ShowStep? then [t[0].step] else []) + PublishedSteps(t[1..])
  }

  /** The kinds whose effects a trace applies, in order. */
  function AppliedEffects(t: seq<Event>): seq<Kind> {
    if |t| == 0 then []
    else (if t[0].Effect? then [t[0].kind] else []) + AppliedEffects(t[1..])
  }

  /** The kinds of `bs`, in order. */
  function Kinds(bs: seq<Block>): (ks: seq<Kind>)
    ensures |ks| == |bs|
    ensures forall i :: 0 <= i < |bs| ==> ks[i] == bs[i].kind
  {
    if |bs| == 0 then [] else [bs[0].kind] + Kinds(bs[1..])
  }

  /** The n consecutive integers from i. */
  function Indices(i: int, n: nat): (r: seq<int>)
    ensures |r| == n
    ensures forall k :: 0 <= k < n ==> r[k] == i + k
    decreases n
  {
    if n == 0 then [] else [i] + Indices(i + 1, n - 1)
  }

  lemma ProjectionsCons(e: Event, t: seq<Event>)
    ensures PublishedSteps([e] + t) == (if e.ShowStep? then [e.step] else []) + PublishedSteps(t)
    ensures AppliedEffects([e] + t) == (if e.Effect? then [e.kind] else []) + AppliedEffects(t)
  {
    assert ([e] + t)[1..] == t;
  }

  lemma {:induction false} ProjectionsAppend(a: seq<Event>, b: seq<Event>)
    ensures PublishedSteps(a + b) == PublishedSteps(a) + PublishedSteps(b)
    ensures AppliedEffects(a + b) == AppliedEffects(a) + AppliedEffects(b)
    decreases |a|
  {
    if |a| == 0 {
      assert a + b == b;
    } else {
      var e := a[0];
      assert a + b == [e] + (a[1..] + b);
      assert a == [e] + a[1..];
      ProjectionsCons(e, a[1..] + b);
      ProjectionsCons(e, a[1..]);
      ProjectionsAppend(a[1..], b);
      var hs := if e.ShowStep? then [e.step] else [];
      var he := if e.Effect? then [e.kind] else [];
      assert hs + (PublishedSteps(a[1..]) + PublishedSteps(b)) == (hs + PublishedSteps(a[1..])) + PublishedSteps(b);
      assert he + (AppliedEffects(a[1..]) + AppliedEffects(b)) == (he + AppliedEffects(a[1..])) + AppliedEffects(b);
    }
  }

  lemma {:induction false} StepEventsProjections(bs: seq<Block>, i: int)
    ensures PublishedSteps(StepEvents(bs, i)) == Indices(i, |bs|)
    ensures AppliedEffects(StepEvents(bs, i)) == Kinds(bs)
    decreases |bs|
  {
    if |bs| > 0 {
      var rest := StepEvents(bs[1..], i + 1);
      assert StepEvents(bs, i) == [ShowStep(i)] + ([Effect(bs[0].kind)] + rest);
      ProjectionsCons(ShowStep(i), [Effect(bs[0].kind)] + rest);
      ProjectionsCons(Effect(bs[0].kind), rest);
      StepEventsProjections(bs[1..], i + 1);
    }
  }

  /** A run on N > 0 blocks publishes the step indices 0, 0, 1, ..., N-1, -1
      (step 0 twice) and applies exactly N effects, those of the blocks in
      execution order. An empty program publishes no step and no effect. */
  lemma RunPublications(c: Controller)
    ensures |c.blocks| == 0 ==> PublishedSteps(Run(c)) == [] && AppliedEffects(Run(c)) == []
    ensures |c.blocks| > 0 ==>
      PublishedSteps(Run(c)) == [0] + Indices(0, |c.blocks|) + [-1]
    ensures AppliedEffects(Run(c)) == Kinds(SortByY(c.blocks))
  {
    if |c.blocks| > 0 {
      var sorted := SortByY(c.blocks);
      var body := StepEvents(sorted, 0);
      assert Run(c) == (Opening + body) + Closing;
      RunProjections(sorted);
    } else {
      ProjectionsCons(ShowFeedback(EmptyProgramMessage), []);
    }
  }

  lemma RunProjections(sorted: seq<Block>)
    ensures PublishedSteps(Opening + StepEvents(sorted, 0) + Closing) == [0] + Indices(0, |sorted|) + [-1]
    ensures AppliedEffects(Opening + StepEvents(sorted, 0) + Closing) == Kinds(sorted)
  {
    var body := StepEvents(sorted, 0);
    ProjectionsAppend(Opening + body, Closing);
    ProjectionsAppend(Opening, body);
    StepEventsProjections(sorted, 0);
    FixedProjections();
  }

  /** The opening updates publish step 0, the closing ones step -1, and
      neither applies an effect. */
  lemma FixedProjections()
    ensures PublishedSteps(Opening) == [0] && AppliedEffects(Opening) == []
    ensures PublishedSteps(Closing) == [-1] && AppliedEffects(Closing) == []
  {
    ProjectionsCons(Opening[0], Opening[1..]);
    ProjectionsCons(Opening[1], Opening[2..]);
    ProjectionsCons(Opening[2], []);
    ProjectionsCons(Closing[0], Closing[1..]);
    ProjectionsCons(Closing[1], Closing[2..]);
    ProjectionsCons(Closing[2], []);
  }

  /** The run loop of `executeProgram`, one iteration per sorted block. */
  method ExecuteProgram(c: Controller) returns (final: Controller, trace: seq<Event>)
    requires ValidDirection(c.robot.direction)
    ensures trace == Run(c)
    ensures final == ApplyAll(c, trace)
    ensures final.blocks == c.blocks
    ensures |c.blocks| > 0 ==> final.robot == RunBlocks(c.robot, SortByY(c.blocks))
    ensures |c.blocks| > 0 ==> !final.isExecuting && final.executionStep == -1
  {
    if |c.blocks| == 0 {
      trace := [ShowFeedback(EmptyProgramMessage)];
      final := c.(feedback := EmptyProgramMessage);
      return;
    }
    trace := Opening;
    final := c.(isExecuting := true, executionStep := 0, feedback := ExecutingMessage);
    ApplyOpening(c, []);
    assert Opening + [] == Opening;
    var sorted := SortByY(c.blocks);
    var i := 0;
    while i < |sorted|
      invariant 0 <= i <= |sorted|
      invariant trace == Opening + StepEvents(sorted[..i], 0)
      invariant final == ApplyAll(c, trace)
      invariant RunBlocks(final.robot, sorted[i..]) == RunBlocks(c.robot, sorted)
    {
      var e := [ShowStep(i), Effect(sorted[i].kind)];
      ApplyAllAppend(c, trace, e);
      ApplyPair(final, i, sorted[i].kind);
      LoopTrace(sorted, i);
      assert sorted[i..][1..] == sorted[i + 1..];
      trace := trace + e;
      final := final.(executionStep := i).(robot := Step(final.robot, sorted[i].kind));
      i := i + 1;
    }
    ApplyClosing(c, trace);
    assert sorted[..i] == sorted;
    trace := trace + Closing;
    final := final.(executionStep := -1, isExecuting := false, feedback := SuccessMessage);
  }

  /** One iteration's updates: publish the index, then apply the effect. */
  lemma ApplyPair(d: Controller, i: int, k: Kind)
    requires ValidDirection(d.robot.direction)
    ensures ApplyAll(d, [ShowStep(i), Effect(k)]) == d.(executionStep := i, robot := Step(d.robot, k))
  {
    ApplyAllCons(d, ShowStep(i), [Effect(k)]);
    ApplyAllCons(d.(executionStep := i), Effect(k), []);
  }

  /** The trace after i + 1 iterations extends the one after i. */
  lemma LoopTrace(sorted: seq<Block>, i: nat)
    requires i < |sorted|
    ensures Opening + StepEvents(sorted[..i + 1], 0)
      == Opening + StepEvents(sorted[..i], 0) + [ShowStep(i), Effect(sorted[i].kind)]
  {
    assert sorted[..i + 1] == sorted[..i] + [sorted[i]];
    StepEventsSnoc(sorted[..i], sorted[i], 0);
  }

  lemma {:induction false} StepEventsSnoc(bs: seq<Block>, b: Block, i: int)
    ensures StepEvents(bs + [b], i) == StepEvents(bs, i) + [ShowStep(i + |bs|), Effect(b.kind)]
    decreases |bs|
  {
    if |bs| > 0 {
      assert (bs + [b])[1..] == bs[1..] + [b];
      StepEventsSnoc(bs[1..], b, i + 1);
    }
  }

  /** The stop button: clears the flags and shows the stop message. Blocks and
      robot are left alone, and nothing tells a run in progress to end. */
  function Stop(c: Controller): (r: Controller)
    ensures !r.isExecuting && r.executionStep == -1 && r.feedback == StoppedMessage
    ensures r.blocks == c.blocks && r.robot == c.robot
  {
    c.(isExecuting := false, executionStep := -1, feedback := StoppedMessage)
  }

  /** The reset button: empty workspace, idle, robot back at the start. */
  function Reset(c: Controller): (r: Controller)
    ensures r.blocks == [] && !r.isExecuting && r.executionStep == -1
    ensures r.robot == Start && r.feedback == ResetMessage
  {
    Controller([], false, -1, Start, ResetMessage)
  }

  /** Reset does not depend on the state it is applied to, and so repeating
      it changes nothing. */
  lemma ResetForgetsPast(c: Controller, d: Controller)
    ensures Reset(c) == Reset(d)
    ensures Reset(Reset(c)) == Reset(c)
    ensures Wellformed(Reset(c).robot)
  {
  }

  /** A stop that lands anywhere in a run before its closing updates is
      overwritten by them: the run ends exactly as if no stop had happened.
      The loop never reads `isExecuting`, so stopping does not cancel it. */
  lemma StopDoesNotCancel(c: Controller, p: nat)
    requires ValidDirection(c.robot.direction)
    requires |c.blocks| > 0
    requires p <= |Run(c)| - |Closing|
    ensures ValidDirection(Stop(ApplyAll(c, Run(c)[..p])).robot.direction)
    ensures ApplyAll(Stop(ApplyAll(c, Run(c)[..p])), Run(c)[p..]) == Execute(c)
  {
    var t := Run(c);
    var prefix := Opening + StepEvents(SortByY(c.blocks), 0);
    assert t == prefix + Closing;
    var middle := prefix[p..];
    assert t[p..] == middle + Closing;
    var mid := ApplyAll(c, t[..p]);
    StopThenRest(mid, middle);
    ApplyAllSplit(c, t, p);
  }

  /** A stop followed by updates that end with the closing ones comes out the
      same as those updates alone. */
  lemma StopThenRest(c: Controller, middle: seq<Event>)
    requires ValidDirection(c.robot.direction)
    ensures ApplyAll(Stop(c), middle + Closing) == ApplyAll(c, middle + Closing)
  {
    ApplyClosing(c, middle);
    ApplyClosing(Stop(c), middle);
    StopCommutes(c, middle);
  }

  /** Every field a stop touches is also overwritten by the closing updates,
      and a run's other updates do not read those fields. */
  lemma {:induction false} StopCommutes(c: Controller, t: seq<Event>)
    requires ValidDirection(c.robot.direction)
    ensures ApplyAll(Stop(c), t).robot == ApplyAll(c, t).robot
    decreases |t|
  {
    if |t| > 0 {
      assert Apply(Stop(c), t[0]).robot == Apply(c, t[0]).robot;
      StopCommutes(Apply(c, t[0]), t[1..]);
      assert Apply(Stop(c), t[0]) == Apply(c, t[0]).(isExecuting := Apply(Stop(c), t[0]).isExecuting,
        executionStep := Apply(Stop(c), t[0]).executionStep, feedback := Apply(Stop(c), t[0]).feedback);
      SameRobotSameRun(Apply(Stop(c), t[0]), Apply(c, t[0]), t[1..]);
    }
  }

  /** Only the robot and the blocks of the starting state decide the robot a
      trace ends with. */
  lemma {:induction false} SameRobotSameRun(c: Controller, d: Controller, t: seq<Event>)
    requires ValidDirection(c.robot.direction)
    requires c.robot == d.robot
    ensures ApplyAll(c, t).robot == ApplyAll(d, t).robot
    decreases |t|
  {
    if |t| > 0 {
      SameRobotSameRun(Apply(c, t[0]), Apply(d, t[0]), t[1..]);
    }
  }

  /** Nothing guards a run against one already in progress: starting while
      `isExecuting` holds publishes the same updates and ends in the same
      state as starting idle. */
  lemma RunIgnoresExecutingFlag(c: Controller, running: bool, step: int)
    requires ValidDirection(c.robot.direction)
    requires |c.blocks| > 0
    ensures Run(c.(isExecuting := running, executionStep := step)) == Run(c)
    ensures Execute(c.(isExecuting := running, executionStep := step)) == Execute(c.(isExecuting := false))
  {
  }

  /** The drop handler applied to the controller. */
  function DropBlock(c: Controller, token: string, id: string, x: int, y: int): (r: Controller)
    ensures r.blocks == Drop(c.blocks, token, id, x, y)
    ensures r.(blocks := c.blocks) == c
  {
    c.(blocks := Drop(c.blocks, token, id, x, y))
  }

  /** The delete callback applied to the controller. */
  function DeleteBlock(c: Controller, id: string): (r: Controller)
    ensures r.blocks == Delete(c.blocks, id)
    ensures r.(blocks := c.blocks) == c
  {
    c.(blocks := Delete(c.blocks, id))
  }

  /** A move placed below a turn runs after it, so from the start the robot turns south and steps to (1, 2). */
  lemma MoveAfterTurnScenario()
    ensures
      var move := Block("block-1", Move, "Move Forward", Steps(1), 0, 10, []);
      var turn := Block("block-2", Turn, "Turn Right", Direction("right"), 0, 5, []);
      var c := Initial.(blocks := [move, turn]);
      && SortByY(c.blocks) == [turn, move]
      && Execute(c).robot == Robot(1, 2, 1, 100)
      && Execute(c).blocks == [move, turn]
  {
    var move := Block("block-1", Move, "Move Forward", Steps(1), 0, 10, []);
    var turn := Block("block-2", Turn, "Turn Right", Direction("right"), 0, 5, []);
    assert SortByY([turn]) == [turn];
    assert SortByY([move, turn]) == Insert(move, [turn]);
    assert [move, turn][1..] == [turn];
    var r1 := Step(Start, Turn);
    assert r1 == Robot(1, 1, 1, 100);
    assert Step(r1, Move) == Robot(1, 2, 1, 100);
    assert RunBlocks(Start, [turn, move]) == RunBlocks(r1, [move]);
    assert RunBlocks(r1, [move]) == RunBlocks(Step(r1, Move), []);
  }
}

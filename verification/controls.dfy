/** The execution controls: one primary button that is Execute while idle
    and Stop while a run is in progress, a Reset button disabled during a
    run, and a "Running..." indicator. The buttons read nothing but the
    `isExecuting` flag, so what they offer during a run follows the flag
    updates of the run's trace. */
module Controls {
  import opened Optional
  import opened Blocks
  import opened Ordering
  import opened Robot
  import opened Engine

  datatype Command = ExecuteCommand | StopCommand

  /** What the controls show: the primary button's handler and caption,
      whether each button is disabled, and whether the indicator is shown. */
  datatype ControlsView = ControlsView(
    primary: Command,
    primaryCaption: string,
    primaryDisabled: bool,
    resetDisabled: bool,
    showsRunning: bool)

  function View(isExecuting: bool): (v: ControlsView)
    ensures v.primary == StopCommand <==> isExecuting
    ensures v.primaryCaption == (if v.primary == StopCommand then "Stop" else "Execute")
    ensures !v.primaryDisabled
    ensures v.resetDisabled <==> isExecuting
    ensures v.showsRunning <==> isExecuting
  {
    if isExecuting then ControlsView(StopCommand, "Stop", false, true, true)
    else ControlsView(ExecuteCommand, "Execute", false, false, false)
  }

  /** A click on the primary button: stop while running, otherwise a whole
      run (its updates applied in order, nothing interleaved). */
  function PressPrimary(c: Controller): (r: Controller)
    requires ValidDirection(c.robot.direction)
    ensures r.blocks == c.blocks
    ensures |c.blocks| > 0 || c.isExecuting ==> !r.isExecuting && r.executionStep == -1
    ensures c.isExecuting ==> r.robot == c.robot && r.feedback == StoppedMessage
    ensures !c.isExecuting && |c.blocks| > 0 ==>
      r.robot == RunBlocks(c.robot, SortByY(c.blocks)) && r.feedback == SuccessMessage
    ensures !c.isExecuting && |c.blocks| == 0 ==> r == c.(feedback := EmptyProgramMessage)
  {
    if View(c.isExecuting).primary == StopCommand then Stop(c) else Execute(c)
  }

  /** A click on the reset button, which has no effect while it is disabled. */
  function PressReset(c: Controller): (r: Option<Controller>)
    ensures r.None? <==> c.isExecuting
    ensures r.Some? ==> r.value == Reset(c)
  {
    if View(c.isExecuting).resetDisabled then None else Some(Reset(c))
  }

  /** From an idle controller, a click on the primary button leaves it idle
      again (on an empty program it never left), so the next click is an
      Execute again and Reset is enabled; from a running one, the click stops
      it and enables Reset. */
  lemma PrimaryLeavesControlsIdle(c: Controller)
    requires ValidDirection(c.robot.direction)
    ensures View(PressPrimary(c).isExecuting) == View(false)
    ensures PressReset(PressPrimary(c)) == Some(Reset(c))
  {
  }

  /** Applying updates none of which sets the flag leaves the flag alone. */
  lemma {:induction false} FlagUntouched(c: Controller, t: seq<Event>)
    requires ValidDirection(c.robot.direction)
    requires forall i :: 0 <= i < |t| ==> !t[i].SetExecuting?
    ensures ApplyAll(c, t).isExecuting == c.isExecuting
    decreases |t|
  {
    if |t| > 0 {
      FlagUntouched(Apply(c, t[0]), t[1..]);
    }
  }

  /** The loop's updates never touch the flag. */
  lemma StepEventsKeepFlag(bs: seq<Block>, i: int)
    ensures forall k :: 0 <= k < |StepEvents(bs, i)| ==> !StepEvents(bs, i)[k].SetExecuting?
  {
    forall k | 0 <= k < |StepEvents(bs, i)|
      ensures !StepEvents(bs, i)[k].SetExecuting?
    {
      StepEventsAt(bs, i, k / 2);
    }
  }

  /** During a run of a non-empty program, after its first p updates have
      landed, the controls offer Stop and disable Reset exactly from the first
      update up to the one before the flag is cleared — that is, until only
      the last two updates remain (or, at p = 0, exactly when the controller
      was already running). */
  lemma ControlsDuringRun(c: Controller, p: nat)
    requires ValidDirection(c.robot.direction)
    requires |c.blocks| > 0
    requires p <= |Run(c)|
    ensures View(ApplyAll(c, Run(c)[..p]).isExecuting).primary == StopCommand <==>
      (1 <= p <= |Run(c)| - 2) || (p == 0 && c.isExecuting)
  {
    var t := Run(c);
    var body := StepEvents(SortByY(c.blocks), 0);
    var q := 3 + |body|;
    assert t == Opening + body + Closing;
    assert |t| == q + 3;
    if p == 0 {
      assert t[..p] == [];
    } else if p <= q {
      RunPrefixRunning(c, p);
    } else {
      RunSuffixFlag(c, p);
    }
  }

  /** Once the closing updates begin to land, the flag stays set for the
      first of them and is cleared by the second. */
  lemma RunSuffixFlag(c: Controller, p: nat)
    requires ValidDirection(c.robot.direction)
    requires |c.blocks| > 0
    requires 3 + 2 * |c.blocks| < p <= 6 + 2 * |c.blocks|
    ensures ApplyAll(c, Run(c)[..p]).isExecuting <==> p == 4 + 2 * |c.blocks|
  {
    var t := Run(c);
    var pre := Opening + StepEvents(SortByY(c.blocks), 0);
    var q := |pre|;
    assert t == pre + Closing;
    assert t[..q] == pre;
    RunPrefixRunning(c, q);
    assert t[..p] == pre + Closing[..p - q];
    ApplyAllAppend(c, pre, Closing[..p - q]);
    ClosingPrefixFlag(ApplyAll(c, pre), p - q);
  }

  /** The first k closing updates: the flag is untouched by the first and
      cleared by the second. */
  lemma ClosingPrefixFlag(d: Controller, k: nat)
    requires ValidDirection(d.robot.direction)
    requires 1 <= k <= 3
    ensures ApplyAll(d, Closing[..k]).isExecuting == (d.isExecuting && k == 1)
  {
    var d1 := Apply(d, Closing[0]);
    var d2 := Apply(d1, Closing[1]);
    ApplyAllCons(d, Closing[0], Closing[1..k]);
    assert Closing[..k] == [Closing[0]] + Closing[1..k];
    if k == 1 {
      assert Closing[1..k] == [];
    } else {
      assert Closing[1..k] == [Closing[1]] + Closing[2..k];
      ApplyAllCons(d1, Closing[1], Closing[2..k]);
      if k == 2 {
        assert Closing[2..k] == [];
      } else {
        assert Closing[2..k] == [Closing[2]];
        ApplyAllCons(d2, Closing[2], []);
      }
    }
  }

  /** After the first p updates of a run, 1 <= p <= 3 + 2N, the flag is set. */
  lemma RunPrefixRunning(c: Controller, p: nat)
    requires ValidDirection(c.robot.direction)
    requires |c.blocks| > 0
    requires 1 <= p <= 3 + 2 * |c.blocks|
    ensures ApplyAll(c, Run(c)[..p]).isExecuting
  {
    var t := Run(c);
    var body := StepEvents(SortByY(c.blocks), 0);
    assert t == Opening + body + Closing;
    StepEventsKeepFlag(SortByY(c.blocks), 0);
    assert t[..p] == [Opening[0]] + t[1..p];
    ApplyAllCons(c, Opening[0], t[1..p]);
    forall i | 0 <= i < |t[1..p]|
      ensures !t[1..p][i].SetExecuting?
    {
      if 1 + i >= 3 {
        assert t[1 + i] == body[i - 2];
      }
    }
    FlagUntouched(Apply(c, Opening[0]), t[1..p]);
  }
}

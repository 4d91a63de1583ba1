/** The signal tower, the buzzer and the trigger output over whole runs. */
module FireSequencerTower {
  import opened FireSequencer

  /** What the tower must show while the state task is suspended in its loop. */
  /** The latest silence was that of the latest firing. */
  ghost predicate Silenced(hist: History) {
    var n := |hist.buzzer.silences|;
    n > 0 && hist.buzzer.silences[n - 1].firing + 1 == |hist.log.fires|
  }

  /** Exactly these of the green lamp, the red lamp and the buzzer are on, and nothing else. */
  ghost predicate Lit(light: SignalLightConfig, green: bool, red: bool, buzzer: bool) {
    && light.green == green && light.red == red && light.buzzer == buzzer
    && !light.yellow && !light.blue && !light.white
  }

  ghost predicate TowerShows(task: StateTask, silenced: bool) {
    match task.state
    case Armed => Lit(task.light, true, false, false)
    case Fire => Lit(task.light, false, true, !silenced)
    case PostFire => Lit(task.light, true, true, false)
  }

  ghost predicate TowerWritten(step: Step) {
    match step
    case StartStateTask(_, written) => written
    case PollStateTask(written) => written
    case _ => true
  }

  ghost predicate TowerInv(s: Sequencer) {
    && (s.task.pc == StateLoop ==> TowerShows(s.task, Silenced(s.hist)))
    && s.shared.currentState == StatusCode(s.task.state)
    && (s.task.state == StateStatus.Fire ==> s.hist.log.fires != [])
    && (var b := s.hist.buzzer.silences; b != [] ==> b[|b| - 1].firing < |s.hist.log.fires|)
  }

  lemma NextKeepsTower(s: Sequencer, step: Step)
    requires TowerInv(s) && TowerWritten(step)
    ensures TowerInv(Next(s, step))
  {
    hide PollFire, PollState, TowerShows, Silenced;
    match step
    case PollFireTask(written) => PollFireKeepsTower(s, written);
    case PollStateTask(written) => PollStateKeepsTower(s, written);
    case StartStateTask(found, written) => StartKeepsTower(s, found, written);
    case _ =>
  }

  lemma PollFireKeepsTower(s: Sequencer, written: bool)
    requires TowerInv(s)
    ensures TowerInv(PollFire(s, written))
  {
    hide TowerShows;
  }

  lemma PollStateKeepsTower(s: Sequencer, written: bool)
    requires TowerInv(s) && written
    ensures TowerInv(PollState(s, written))
  {
    hide PollFire;
  }

  lemma StartKeepsTower(s: Sequencer, found: bool, written: bool)
    requires TowerInv(s) && written
    ensures TowerInv(StartState(s, found, written))
  {
    hide Silenced;
  }

  lemma {:induction false} RunKeepsTower(s: Sequencer, steps: seq<Step>)
    requires TowerInv(s)
    requires forall i :: 0 <= i < |steps| ==> TowerWritten(steps[i])
    ensures TowerInv(Run(s, steps))
    decreases |steps|
  {
    hide Next, TowerInv, TowerWritten;
    if steps != [] {
      NextKeepsTower(s, steps[0]);
      RunKeepsTower(Next(s, steps[0]), steps[1..]);
    }
  }

  /** As long as no write to the tower fails, at every await point it shows green in
      Armed, red with the buzzer until a BuzzerComplete arrives in Fire, and green and
      red in PostFire, and readers of the atomic see the state of the task. */
  lemma TowerFollowsState(pinHigh: bool, steps: seq<Step>)
    requires forall i :: 0 <= i < |steps| ==> TowerWritten(steps[i])
    ensures var s := Run(Initial(pinHigh), steps);
            && (s.task.pc == StateLoop ==> TowerShows(s.task, Silenced(s.hist)))
            && LoadState(s.shared.currentState) == s.task.state
  {
    RunKeepsTower(Initial(pinHigh), steps);
  }

  lemma {:induction false} RunKeepsArmedValue(s: Sequencer, steps: seq<Step>)
    requires s.world.edge || s.shared.lastArmed == PinValue(s.world.pinHigh)
    ensures var t := Run(s, steps);
            t.world.edge || t.shared.lastArmed == PinValue(t.world.pinHigh)
    decreases |steps|
  {
    if steps != [] {
      RunKeepsArmedValue(Next(s, steps[0]), steps[1..]);
    }
  }

  /** The stored armed value is the level of the pin unless an edge still waits to be
      handled. */
  lemma ArmedValueFollowsPin(pinHigh: bool, steps: seq<Step>)
    ensures var s := Run(Initial(pinHigh), steps);
            !s.world.edge ==> s.shared.lastArmed == PinValue(s.world.pinHigh)
  {
    RunKeepsArmedValue(Initial(pinHigh), steps);
  }

  /** The state task starts in Armed with the tower green, or dark if the write fails. A tower
      that is not found ends the task: its lamps and state never change. */
  lemma StateTaskStarts(pinHigh: bool, found: bool, written: bool, steps: seq<Step>)
    ensures var s := Next(Initial(pinHigh), StartStateTask(found, written));
            && s.task.state == Armed && s.shared.currentState == 0
            && Lit(s.task.light, found && written, false, false)
            && (s.task.pc == StateLoop <==> found)
            && (!found ==> Run(s, steps).task == s.task)
  {
    if !found {
      StoppedStays(Next(Initial(pinHigh), StartStateTask(found, written)), steps);
    }
  }

  lemma {:induction false} StoppedStays(s: Sequencer, steps: seq<Step>)
    ensures s.task.pc == StateStopped ==> Run(s, steps).task == s.task
    ensures s.fire.pc == FireStopped ==>
              Run(s, steps).fire == s.fire && Run(s, steps).hist.decisions == s.hist.decisions
    decreases |steps|
  {
    if steps != [] {
      StoppedStep(s, steps[0]);
      hide Next;
      StoppedStays(Next(s, steps[0]), steps[1..]);
    }
  }

  lemma StoppedStep(s: Sequencer, step: Step)
    ensures s.task.pc == StateStopped ==> Next(s, step).task == s.task
    ensures s.fire.pc == FireStopped ==>
              Next(s, step).fire == s.fire && Next(s, step).hist.decisions == s.hist.decisions
  {
  }

  /** The fire task starts with the trigger released and waits for an activation. A trigger
      that is not found ends the task, and no run from there ever ignites. */
  lemma FireTaskStarts(pinHigh: bool, found: bool, steps: seq<Step>)
    ensures var s := Next(Initial(pinHigh), StartFireTask(found));
            && !s.fire.igniting
            && s.fire.pc == (if found then AwaitActivate else FireStopped)
            && (!found ==> Run(s, steps).hist.decisions == [] && !Run(s, steps).fire.igniting)
  {
    if !found {
      StoppedStays(Next(Initial(pinHigh), StartFireTask(found)), steps);
    }
  }

  // ---------------------------------------------------------------------------
  // Conservation of buzzer messages
  // ---------------------------------------------------------------------------

  function CountBuzzer(channel: seq<SequencerMessage>): nat {
    if channel == [] then 0
    else (if channel[0] == BuzzerComplete then 1 else 0) + CountBuzzer(channel[1..])
  }

  function CountIgnitions(decisions: seq<Decision>): nat {
    if decisions == [] then 0
    else CountIgnitions(decisions[..|decisions| - 1]) +
         (if decisions[|decisions| - 1].Ignite? then 1 else 0)
  }

  lemma {:induction false} CountBuzzerAppend(channel: seq<SequencerMessage>, message: SequencerMessage)
    ensures CountBuzzer(channel + [message]) == CountBuzzer(channel) + (if message == BuzzerComplete then 1 else 0)
  {
    if channel != [] {
      assert (channel + [message])[1..] == channel[1..] + [message];
      CountBuzzerAppend(channel[1..], message);
    }
  }

  lemma CountIgnitionsAppend(decisions: seq<Decision>, d: Decision)
    ensures CountIgnitions(decisions + [d]) == CountIgnitions(decisions) + (if d.Ignite? then 1 else 0)
  {
    assert (decisions + [d])[..|decisions|] == decisions;
  }

  ghost predicate BuzzerBalance(s: Sequencer) {
    s.hist.buzzer.received + CountBuzzer(s.shared.channel) + s.hist.buzzer.dropped == CountIgnitions(s.hist.decisions)
  }

  lemma PollFireKeepsBalance(s: Sequencer, written: bool)
    requires BuzzerBalance(s)
    ensures BuzzerBalance(PollFire(s, written))
  {
    hide CountBuzzer, CountIgnitions;
    var t := PollFire(s, written);
    if t.hist.decisions != s.hist.decisions {
      CountBuzzerAppend(s.shared.channel, BuzzerComplete);
      CountIgnitionsAppend(s.hist.decisions, t.hist.decisions[|s.hist.decisions|]);
    }
  }

  lemma NextKeepsBalance(s: Sequencer, step: Step)
    requires BuzzerBalance(s)
    ensures BuzzerBalance(Next(s, step))
  {
    hide PollFire;
    match step
    case PollFireTask(written) => PollFireKeepsBalance(s, written);
    case SendCommand(command) => CountBuzzerAppend(s.shared.channel, Command(command));
    case _ =>
  }

  lemma {:induction false} RunKeepsBalance(s: Sequencer, steps: seq<Step>)
    requires BuzzerBalance(s)
    ensures BuzzerBalance(Run(s, steps))
    decreases |steps|
  {
    hide Next, BuzzerBalance;
    if steps != [] {
      NextKeepsBalance(s, steps[0]);
      RunKeepsBalance(Next(s, steps[0]), steps[1..]);
    }
  }

  /** Every ignition offers one BuzzerComplete, which is received, still queued or was
      dropped because the channel was full. */
  lemma BuzzerMessagesConserved(pinHigh: bool, steps: seq<Step>)
    ensures var s := Run(Initial(pinHigh), steps);
            s.hist.buzzer.received + CountBuzzer(s.shared.channel) + s.hist.buzzer.dropped
            == CountIgnitions(s.hist.decisions)
  {
    RunKeepsBalance(Initial(pinHigh), steps);
  }

  // ---------------------------------------------------------------------------
  // The trigger output
  // ---------------------------------------------------------------------------

  ghost predicate OutputInv(s: Sequencer) {
    && (s.fire.pc == FireStart || s.fire.pc == FireStopped ==> s.hist.decisions == [])
    && (s.fire.igniting <==>
        s.hist.decisions != [] && s.hist.decisions[|s.hist.decisions| - 1].Ignite?)
  }

  lemma {:induction false} RunKeepsOutput(s: Sequencer, steps: seq<Step>)
    requires OutputInv(s)
    requires forall i :: 0 <= i < |steps| && steps[i].PollFireTask? ==> steps[i].written
    ensures OutputInv(Run(s, steps))
    decreases |steps|
  {
    if steps != [] {
      RunKeepsOutput(Next(s, steps[0]), steps[1..]);
    }
  }

  /** Absent write failures the trigger output is asserted exactly when the latest
      countdown ended in an ignition. */
  lemma OutputFollowsDecisions(pinHigh: bool, steps: seq<Step>)
    requires forall i :: 0 <= i < |steps| && steps[i].PollFireTask? ==> steps[i].written
    ensures var s := Run(Initial(pinHigh), steps);
            s.fire.igniting <==>
            s.hist.decisions != [] && s.hist.decisions[|s.hist.decisions| - 1].Ignite?
  {
    RunKeepsOutput(Initial(pinHigh), steps);
  }

  /** Only an accepted Fire raises the activation. */
  lemma StepRaisesActivation(s: Sequencer, step: Step)
    requires s.fire.pc == AwaitActivate && !s.shared.activate
    ensures var t := Next(s, step);
            && t.fire == s.fire
            && t.hist.decisions == s.hist.decisions
            && |s.hist.log.fires| <= |t.hist.log.fires|
            && (t.shared.activate ==> |s.hist.log.fires| < |t.hist.log.fires|)
  {
  }

  lemma {:induction false} FiresOnlyGrow(s: Sequencer, steps: seq<Step>)
    ensures |s.hist.log.fires| <= |Run(s, steps).hist.log.fires|
    decreases |steps|
  {
    if steps != [] {
      FiresOnlyGrow(Next(s, steps[0]), steps[1..]);
    }
  }

  /** After an ignition a FireEnd comes too late: until another Fire is accepted, no
      sequence of commands and polls releases the trigger output. */
  lemma {:induction false} LateFireEndDoesNotRelease(s: Sequencer, steps: seq<Step>)
    requires s.fire.pc == AwaitActivate && !s.shared.activate
    requires |Run(s, steps).hist.log.fires| == |s.hist.log.fires|
    ensures var t := Run(s, steps);
            t.fire == s.fire && t.hist.decisions == s.hist.decisions
    decreases |steps|
  {
    hide Next;
    if steps != [] {
      StepRaisesActivation(s, steps[0]);
      FiresOnlyGrow(Next(s, steps[0]), steps[1..]);
      LateFireEndDoesNotRelease(Next(s, steps[0]), steps[1..]);
    }
  }
}

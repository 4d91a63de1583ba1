/** Schedules that defeat the naive claims about the sequencer. */
module FireSequencerWitness {
  import opened FireSequencer

  lemma RunTwo(s: Sequencer, a: Step, b: Step)
    ensures Run(s, [a, b]) == Next(Next(s, a), b)
  {
    RunOne(s, a);
    RunOne(Next(s, a), b);
    RunAppend(s, [a], [b]);
    hide Run, Next;
    assert [a] + [b] == [a, b];
  }

  lemma RunFour(s: Sequencer, a: Step, b: Step, c: Step, d: Step)
    ensures Run(s, [a, b, c, d]) == Next(Next(Next(Next(s, a), b), c), d)
  {
    RunTwo(s, a, b);
    RunTwo(Next(Next(s, a), b), c, d);
    RunAppend(s, [a, b], [c, d]);
    hide Run, Next;
    assert [a, b] + [c, d] == [a, b, c, d];
  }

  const START := [StartFireTask(true), StartStateTask(true, true)]

  lemma Started()
    ensures var s := Initial(true);
            Run(s, START) == s.(shared := s.shared.(currentState := 0),
                                fire := FireTask(AwaitActivate, false),
                                task := StateTask(StateLoop, Armed, LIGHT_ARMED))
  {
    RunTwo(Initial(true), StartFireTask(true), StartStateTask(true, true));
    hide Run;
  }

  const FIRE_ACCEPTED := [SendCommand(StateCommand.Fire), PollStateTask(true), PollFireTask(true), Wait(0)]

  /** Both tasks started and a Fire accepted with its countdown running. */
  const COUNTING := START + FIRE_ACCEPTED

  lemma Counting()
    ensures var s := Run(Initial(true), COUNTING);
            && s.shared == Shared([], false, false, 1, 1)
            && s.fire == FireTask(Countdown(3000), false)
            && s.task == StateTask(StateLoop, StateStatus.Fire, LIGHT_FIRE_BUZZER)
            && s.world == World(true, false, 0)
            && s.hist.log == CommandLog([Accepted(0, true)], 0, 0, 1) && s.hist.charge == Charge(0, true)
            && s.hist.decisions == [] && s.hist.buzzer == BuzzerLog(0, 0, [], [])
  {
    Started();
    RunAppend(Initial(true), START, FIRE_ACCEPTED);
    var r := Run(Initial(true), START);
    RunFour(r, SendCommand(StateCommand.Fire), PollStateTask(true), PollFireTask(true), Wait(0));
    hide Run;
    var s := Next(r, SendCommand(StateCommand.Fire));
    assert s.shared.channel == [Command(StateCommand.Fire)];
    var t := Next(s, PollStateTask(true));
    assert t.shared.activate && t.shared.channel == [];
  }

  const FIRE_AND_END := [SendCommand(StateCommand.Fire), SendCommand(FireEnd), PollStateTask(true), PollStateTask(true)]
  const UNTIL_ELAPSED := [PollFireTask(true), Wait(3000), PollFireTask(true), Wait(0)]

  /** Fire and FireEnd are both handled before the fire task is polled: its reset erases
      the cancel, and the trigger is pulled three seconds later in PostFire. */
  lemma ErasedCancelIgnites()
    ensures exists steps ::
              var s := Run(Initial(true), steps);
              && s.task.state == PostFire && s.fire.igniting
              && s.hist.decisions == [Ignite(Charge(0, false), 3000, false, true, PostFire)]
  {
    Started();
    RunAppend(Initial(true), START, FIRE_AND_END);
    RunAppend(Initial(true), START + FIRE_AND_END, UNTIL_ELAPSED);
    var r := Run(Initial(true), START);
    RunFour(r, SendCommand(StateCommand.Fire), SendCommand(FireEnd), PollStateTask(true), PollStateTask(true));
    var s := Run(r, FIRE_AND_END);
    RunFour(s, PollFireTask(true), Wait(3000), PollFireTask(true), Wait(0));
    hide Run;
    var q := Next(Next(r, SendCommand(StateCommand.Fire)), SendCommand(FireEnd));
    assert q.shared.channel == [Command(StateCommand.Fire), Command(FireEnd)];
    var p := Next(q, PollStateTask(true));
    assert p.shared.channel == [Command(FireEnd)] && p.task.state == StateStatus.Fire;
    assert s.task.state == PostFire && s.shared.activate && s.shared.cancel;
    var t := Next(Next(s, PollFireTask(true)), Wait(3000));
    assert t.fire.pc == Countdown(3000) && t.world.now == 3000;
    var u := Run(Initial(true), START + FIRE_AND_END + UNTIL_ELAPSED);
    assert u.hist.decisions == [Ignite(Charge(0, false), 3000, false, true, PostFire)];
  }

  const END_AT_DEADLINE := [Wait(2999), SendCommand(FireEnd), PollStateTask(true), Wait(1)]

  /** A FireEnd is accepted in time, but the fire task is next polled at the deadline:
      the timer wins the select while the cancel is pending. */
  lemma TimerBeatsPendingCancel()
    ensures exists steps ::
              var s := Run(Initial(true), steps);
              && s.task.state == PostFire && s.fire.igniting
              && s.hist.decisions == [Ignite(Charge(0, true), 3000, true, true, PostFire)]
  {
    Counting();
    RunAppend(Initial(true), COUNTING, END_AT_DEADLINE);
    RunAppend(Initial(true), COUNTING + END_AT_DEADLINE, [PollFireTask(true)]);
    var s := Run(Initial(true), COUNTING);
    RunFour(s, Wait(2999), SendCommand(FireEnd), PollStateTask(true), Wait(1));
    var t := Run(s, END_AT_DEADLINE);
    RunOne(t, PollFireTask(true));
    hide Run;
    var q := Next(Next(s, Wait(2999)), SendCommand(FireEnd));
    assert q.shared.channel == [Command(FireEnd)];
    assert t.task.state == PostFire && t.shared.cancel && t.world.now == 3000;
    var u := Run(Initial(true), COUNTING + END_AT_DEADLINE + [PollFireTask(true)]);
    assert u.hist.decisions == [Ignite(Charge(0, true), 3000, true, true, PostFire)];
  }

  const RESETS := [Command(FireReset), Command(FireReset), Command(FireReset), Command(FireReset)]
  const SEND_RESETS := [SendCommand(FireReset), SendCommand(FireReset), SendCommand(FireReset), SendCommand(FireReset)]
  const HANDLE_FOUR := [PollStateTask(true), PollStateTask(true), PollStateTask(true), PollStateTask(true)]

  lemma ResetsFillTheChannel(s: Sequencer)
    requires s.shared.channel == []
    ensures Run(s, SEND_RESETS) == s.(shared := s.shared.(channel := RESETS))
  {
    var send := SendCommand(FireReset);
    RunFour(s, send, send, send, send);
    hide Run;
  }

  lemma ResetsAreRejected(s: Sequencer)
    requires s.shared.channel == RESETS && s.task.pc == StateLoop && s.task.state == StateStatus.Fire
    ensures Run(s, HANDLE_FOUR) == s.(shared := s.shared.(channel := []))
  {
    var poll := PollStateTask(true);
    RunFour(s, poll, poll, poll, poll);
    hide Run, PollFire;
    var t := Next(s, poll);
    assert t.shared.channel == RESETS[1..];
    var u := Next(t, poll);
    assert u.shared.channel == RESETS[2..];
    var v := Next(u, poll);
    assert v.shared.channel == RESETS[3..];
  }

  /** The channel is full of rejected commands when the timer elapses: the BuzzerComplete
      is dropped and the buzzer keeps sounding although every queued message is handled. */
  lemma BuzzerCompleteDropped()
    ensures exists steps ::
              var s := Run(Initial(true), steps);
              && s.shared.channel == [] && s.task.state == StateStatus.Fire
              && s.task.light == LIGHT_FIRE_BUZZER
              && s.hist.buzzer == BuzzerLog(1, 0, [], []) && |s.hist.decisions| == 1
  {
    var steps := COUNTING + SEND_RESETS + [Wait(3000), PollFireTask(true)] + HANDLE_FOUR;
    Counting();
    RunAppend(Initial(true), COUNTING, SEND_RESETS);
    RunAppend(Initial(true), COUNTING + SEND_RESETS, [Wait(3000), PollFireTask(true)]);
    RunAppend(Initial(true), COUNTING + SEND_RESETS + [Wait(3000), PollFireTask(true)], HANDLE_FOUR);
    var s := Run(Initial(true), COUNTING);
    ResetsFillTheChannel(s);
    var t := Run(s, SEND_RESETS);
    RunTwo(t, Wait(3000), PollFireTask(true));
    hide Run;
    var u := Next(Next(t, Wait(3000)), PollFireTask(true));
    assert u.shared.channel == RESETS && u.task == s.task;
    ResetsAreRejected(u);
    assert Run(Initial(true), steps).hist == u.hist;
  }

  const REFIRE := [SendCommand(FireEnd), SendCommand(FireReset), SendCommand(StateCommand.Fire), PollFireTask(true)]

  /** Three commands are queued at the deadline and the BuzzerComplete behind them. */
  lemma BuzzerCompleteQueuesLast(s: Sequencer)
    requires s.shared.channel == [] && s.fire.pc.Countdown? && s.fire.pc.deadline <= s.world.now
    ensures var t := Run(s, REFIRE);
            && t.shared == s.shared.(channel :=
                 [Command(FireEnd), Command(FireReset), Command(StateCommand.Fire), BuzzerComplete])
            && t.task == s.task && t.world == s.world && t.hist.log == s.hist.log
  {
    RunFour(s, SendCommand(FireEnd), SendCommand(FireReset), SendCommand(StateCommand.Fire), PollFireTask(true));
    hide Run;
  }

  lemma StaleBuzzerCompleteSilences(s: Sequencer)
    requires s.shared.channel ==
             [Command(FireEnd), Command(FireReset), Command(StateCommand.Fire), BuzzerComplete]
    requires s.task.pc == StateLoop && s.task.state == StateStatus.Fire && s.world.pinHigh
    ensures var t := Run(s, HANDLE_FOUR);
            && t.task.state == StateStatus.Fire && t.task.light == LIGHT_FIRE && t.world == s.world
            && t.hist.log.fires == s.hist.log.fires + [Accepted(s.world.now, true)]
  {
    var poll := PollStateTask(true);
    RunFour(s, poll, poll, poll, poll);
    hide Run, PollFire;
    var t := Next(s, poll);
    assert t.task.state == PostFire;
    var u := Next(t, poll);
    assert u.task.state == Armed && u.shared.channel == [Command(StateCommand.Fire), BuzzerComplete];
    var v := Next(u, poll);
    assert v.task.state == StateStatus.Fire && v.shared.channel == [BuzzerComplete];
  }

  /** A BuzzerComplete queued behind FireEnd, FireReset and Fire silences the second
      firing the moment it starts. */
  lemma BuzzerCompleteStale()
    ensures exists steps ::
              var s := Run(Initial(true), steps);
              && s.task.state == StateStatus.Fire && |s.hist.log.fires| == 2
              && s.hist.log.fires[1].time == s.world.now
              && s.task.light == LIGHT_FIRE
  {
    var steps := COUNTING + [Wait(3000)] + REFIRE + HANDLE_FOUR;
    Counting();
    RunAppend(Initial(true), COUNTING, [Wait(3000)]);
    RunAppend(Initial(true), COUNTING + [Wait(3000)], REFIRE);
    RunAppend(Initial(true), COUNTING + [Wait(3000)] + REFIRE, HANDLE_FOUR);
    var s := Run(Initial(true), COUNTING);
    RunOne(s, Wait(3000));
    assert Run(s, [Wait(3000)]) == s.(world := s.world.(now := 3000));
    var t := Run(s, [Wait(3000)]);
    hide Run, Next;
    BuzzerCompleteQueuesLast(t);
    StaleBuzzerCompleteSilences(Run(t, REFIRE));
    assert Run(Initial(true), steps).task.light == LIGHT_FIRE;
  }
}

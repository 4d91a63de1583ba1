/** The two tasks and their statics as the program has them: fields updated in place.
    Each method is one atomic step and is proved against the transition of the model. */
module FireSequencerTasks {
  import opened FireSequencer
  import opened FireSequencerSafety

  class SequencerTasks {
    var channel: seq<SequencerMessage>
    var fireActivate: bool
    var fireCancel: bool
    var currentState: nat
    var lastArmed: nat
    var firePc: FirePc
    var igniting: bool
    var statePc: StatePc
    var state: StateStatus
    var light: SignalLightConfig
    var pinHigh: bool
    var edge: bool
    var now: nat
    ghost var hist: History

    ghost function Model(): Sequencer
      reads this
    {
      Sequencer(Shared(channel, fireActivate, fireCancel, currentState, lastArmed),
                FireTask(firePc, igniting),
                StateTask(statePc, state, light),
                World(pinHigh, edge, now),
                hist)
    }

    constructor (pinHigh: bool)
      ensures Model() == Initial(pinHigh)
    {
      channel, fireActivate, fireCancel, currentState := [], false, false, 0;
      lastArmed := PinValue(pinHigh);
      firePc, igniting := FireStart, false;
      statePc, state, light := StateStart, Armed, LIGHT_OFF;
      this.pinHigh, edge, now := pinHigh, false, 0;
      hist := Initial(pinHigh).hist;
    }

    method TrySendMessage(message: SequencerMessage) returns (sent: bool)
      modifies `channel
      ensures Model().shared == TrySend(old(Model().shared), message)
      ensures sent <==> |old(channel)| < CHANNEL_CAPACITY
    {
      sent := |channel| < CHANNEL_CAPACITY;
      if sent {
        channel := channel + [message];
      }
    }

    method SendStateCommand(command: StateCommand)
      modifies `channel
      ensures Model() == Next(old(Model()), SendCommand(command))
    {
      var _ := TrySendMessage(Command(command));
    }

    method TransitionState(newState: StateStatus)
      modifies `state, `currentState
      ensures state == newState && currentState == StatusCode(newState)
    {
      state := newState;
      currentState := StatusCode(newState);
    }

    method SetLight(config: SignalLightConfig, written: bool)
      modifies `light
      ensures light == if written then config else old(light)
    {
      if written {
        light := config;
      }
    }

    method HandleSequencerCommand(command: StateCommand, written: bool)
      modifies this
      ensures Model() == HandleCommand(old(Model()), command, written)
    {
      match command
      case Fire =>
        if state != Armed {
          return;
        }
        if !pinHigh {
          return;
        }
        TransitionState(StateStatus.Fire);
        SetLight(LIGHT_FIRE_BUZZER, written);
        fireActivate := true;
        hist := hist.(log := hist.log.(fires := hist.log.fires + [Accepted(now, pinHigh)],
                                       shutters := hist.log.shutters + 1));
      case FireEnd =>
        if state != StateStatus.Fire {
          return;
        }
        fireCancel := true;
        TransitionState(PostFire);
        SetLight(LIGHT_POST_FIRE, written);
        hist := hist.(log := hist.log.(ends := hist.log.ends + 1, shutters := hist.log.shutters + 1));
      case FireReset =>
        if state != PostFire {
          return;
        }
        TransitionState(Armed);
        SetLight(LIGHT_ARMED, written);
        hist := hist.(log := hist.log.(resets := hist.log.resets + 1));
    }

    method PollStateTask(written: bool)
      modifies this
      ensures Model() == PollState(old(Model()), written)
    {
      if statePc != StateLoop {
        return;
      }
      if channel != [] {
        var message := channel[0];
        channel := channel[1..];
        match message
        case Command(command) => HandleSequencerCommand(command, written);
        case BuzzerComplete =>
          hist := HandleBuzzerComplete(Model(), written).hist;
          if state == StateStatus.Fire {
            SetLight(LIGHT_FIRE, written);
          }
      } else if edge {
        edge := false;
        lastArmed := PinValue(pinHigh);
      }
    }

    method PollFireTask(written: bool)
      modifies this
      ensures Model() == PollFire(old(Model()), written)
    {
      match firePc
      case AwaitActivate =>
        if fireActivate {
          fireActivate := false;
          fireCancel := false;
          firePc := Countdown(now + FIRE_BUZZER_DURATION_MS);
          hist := ConsumeActivation(old(Model())).hist;
        }
      case Countdown(deadline) =>
        if deadline <= now {
          if written {
            igniting := true;
          }
          hist := TimerElapsed(old(Model()), written).hist;
          var _ := TrySendMessage(BuzzerComplete);
          firePc := AwaitActivate;
        } else if fireCancel {
          fireCancel := false;
          if written {
            igniting := false;
          }
          hist := Cancelled(old(Model()), written).hist;
          firePc := AwaitActivate;
        }
      case _ =>
    }

    method StartTask(step: Step)
      requires step.StartFireTask? || step.StartStateTask?
      modifies this
      ensures Model() == Next(old(Model()), step)
    {
      match step
      case StartFireTask(written) =>
        if firePc == FireStart {
          if written {
            firePc, igniting := AwaitActivate, false;
          } else {
            firePc := FireStopped;
          }
        }
      case StartStateTask(found, written) =>
        if statePc == StateStart {
          if found {
            light := LIGHT_OFF;
            TransitionState(Armed);
            SetLight(LIGHT_ARMED, written);
            statePc := StateLoop;
          } else {
            statePc := StateStopped;
          }
        }
    }

    method Step(step: Step)
      requires Inv(Model())
      modifies this
      ensures Model() == Next(old(Model()), step)
      ensures Inv(Model())
    {
      NextKeepsInv(Model(), step);
      match step
      case StartFireTask(_) => StartTask(step);
      case StartStateTask(_, _) => StartTask(step);
      case SendCommand(command) => SendStateCommand(command);
      case ChangePin(high) =>
        edge := edge || high != pinHigh;
        pinHigh := high;
      case Wait(ms) => now := now + ms;
      case PollFireTask(written) => PollFireTask(written);
      case PollStateTask(written) => PollStateTask(written);
    }

    /** Any interleaving, executed in place, is the run of the model. */
    method Execute(steps: seq<Step>)
      requires Inv(Model())
      modifies this
      ensures Model() == Run(old(Model()), steps)
      ensures Inv(Model())
    {
      var i := 0;
      while i < |steps|
        invariant 0 <= i <= |steps|
        invariant Inv(Model())
        invariant Run(Model(), steps[i..]) == Run(old(Model()), steps)
      {
        assert steps[i..][1..] == steps[i + 1..];
        Step(steps[i]);
        i := i + 1;
      }
    }
  }
}

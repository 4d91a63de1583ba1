/** The servo task as the program runs it: fields and locals updated in place, an outer
    receive loop around the loop of one travel. */
module ServoTask {
  import opened Servo
  import opened ServoRuns

  class ServoController {
    var queue: seq<ServoCommand>
    var currentTicks: nat
    var currentStatus: ServoStatus
    ghost var writes: seq<nat>

    /** The model state when the task is suspended in `phase`. */
    ghost function Model(phase: Phase): State
      reads this
    {
      State(queue, currentTicks, currentStatus, phase, writes)
    }

    constructor ()
      ensures Model(Idle) == BOOT
      ensures Inv(Model(Idle))
    {
      queue, currentTicks, currentStatus := [], CLOSED_TICKS, Closed;
      writes := [CLOSED_TICKS];
    }

    method SendServoCommand(command: ServoCommand)
      modifies `queue
      ensures queue == Send(old(Model(Idle)), command).queue
      ensures queue == if |old(queue)| < 4 then old(queue) + [command] else old(queue)
    {
      if |queue| < COMMAND_CAPACITY {
        queue := queue + [command];
      }
    }

    method WritePosition(ticks: nat)
      modifies `currentTicks, `writes
      ensures currentTicks == ticks && writes == old(writes) + [ticks]
    {
      currentTicks := ticks;
      writes := writes + [ticks];
    }

    /** One pass through the select of a travel; when `reached`, the travel is left. */
    method TravelOnce(command: ServoCommand, start: nat, total: nat, step: nat)
      returns (next: nat, reached: bool)
      requires step < total
      modifies this
      ensures !reached ==> next < total
      ensures var moving := Moving(command, start, total, next);
              Poll(old(Model(Moving(command, start, total, step))), true) ==
              if reached then Leave(Model(moving)) else Model(moving)
    {
      var target := TargetTicks(command);
      next, reached := step, false;
      if queue != [] {
        var newCommand := queue[0];
        queue := queue[1..];
        var newTarget := TargetTicks(newCommand);
        if newTarget == currentTicks {
          currentStatus := ArrivedStatus(newCommand);
          reached := true;
        } else if newTarget != target {
          SendServoCommand(newCommand);
          reached := true;
        }
      } else {
        next := step + 1;
        if next >= total {
          WritePosition(target);
          reached := true;
        } else {
          WritePosition(Interpolate(start, target, next, total));
        }
      }
    }

    /** The inner loop: commands that wait in the queue interrupt the travel as they are
        received. */
    method Travel(command: ServoCommand, start: nat, total: nat)
      requires total > 0 && Inv(Model(Moving(command, start, total, 0)))
      modifies this
      ensures Inv(Model(Idle)) && |queue| <= |old(queue)|
      ensures Drain(Model(Idle)) == Drain(old(Model(Moving(command, start, total, 0))))
    {
      var step: nat, reached := 0, false;
      ghost var final := Drain(Model(Moving(command, start, total, 0)));
      while !reached
        invariant !reached ==> step < total
        invariant |queue| <= |old(queue)|
        invariant var moving := Moving(command, start, total, step);
                  var s := if reached then Leave(Model(moving)) else Model(moving);
                  Inv(s) && Drain(s) == final
        decreases |queue|, !reached, total - step
      {
        PollKeepsInv(Model(Moving(command, start, total, step)), true);
        hide Inv, Leave;
        step, reached := TravelOnce(command, start, total, step);
      }
      if currentTicks == TargetTicks(command) {
        currentStatus := ArrivedStatus(command);
      }
    }

    /** A command taken by the outer receive is carried out. */
    method ServeCommand(command: ServoCommand)
      requires Inv(Model(Idle).(queue := [command] + queue))
      modifies this
      ensures Inv(Model(Idle)) && |queue| <= |old(queue)|
      ensures Drain(Model(Idle)) == Drain(old(Model(Idle).(queue := [command] + queue)))
    {
      ghost var received := Model(Idle).(queue := [command] + queue);
      PollKeepsInv(received, true);
      assert received.queue[1..] == queue;
      assert Drain(received) == Drain(Accept(Model(Idle), command));
      hide Inv;
      var targetTicks := TargetTicks(command);
      if targetTicks == currentTicks {
        return;
      }
      currentStatus := MovingStatus(command);
      var totalSteps := TotalSteps(currentTicks, targetTicks);
      if totalSteps == 0 {
        WritePosition(targetTicks);
        currentStatus := ArrivedStatus(command);
        return;
      }
      Travel(command, currentTicks, totalSteps);
    }

    /** The outer loop, until nothing is left to receive: the servo ends settled, at the
        endpoint the model computes. */
    method ServeQueue()
      requires Inv(Model(Idle))
      modifies this
      ensures Model(Idle) == Drain(old(Model(Idle)))
      ensures queue == [] && Settled(Model(Idle))
    {
      hide Inv;
      while queue != []
        invariant Inv(Model(Idle)) && Drain(Model(Idle)) == Drain(old(Model(Idle)))
        decreases |queue|
      {
        var command := queue[0];
        assert [command] + queue[1..] == queue;
        queue := queue[1..];
        ServeCommand(command);
      }
      StopsSettled(Model(Idle));
    }

    /** One poll of the task suspended in `phase`; commands may have arrived meanwhile. */
    method PollTask(phase: Phase, elapsed: bool) returns (next: Phase)
      requires Inv(Model(phase))
      modifies this
      ensures Model(next) == Poll(old(Model(phase)), elapsed)
    {
      match phase
      case Idle =>
        next := Idle;
        if queue != [] {
          var command := queue[0];
          queue := queue[1..];
          var targetTicks := TargetTicks(command);
          if targetTicks != currentTicks {
            var totalSteps := TotalSteps(currentTicks, targetTicks);
            if totalSteps == 0 {
              WritePosition(targetTicks);
              currentStatus := ArrivedStatus(command);
            } else {
              currentStatus := MovingStatus(command);
              next := Moving(command, currentTicks, totalSteps, 0);
            }
          }
        }
      case Moving(command, start, total, step) =>
        next := phase;
        if queue != [] || elapsed {
          var reached: bool;
          var nextStep;
          nextStep, reached := TravelOnce(command, start, total, step);
          next := Moving(command, start, total, nextStep);
          if reached {
            if currentTicks == TargetTicks(command) {
              currentStatus := ArrivedStatus(command);
            }
            next := Idle;
          }
        }
    }

    /** The task over any sequence of arriving commands and polls: the fields follow the run
        of the model. */
    method Execute(steps: seq<Step>) returns (phase: Phase)
      requires Inv(Model(Idle))
      modifies this
      ensures Model(phase) == Run(old(Model(Idle)), steps) && Inv(Model(phase))
    {
      phase := Idle;
      var i := 0;
      while i < |steps|
        invariant 0 <= i <= |steps| && Inv(Model(phase))
        invariant Run(Model(phase), steps[i..]) == Run(old(Model(Idle)), steps)
      {
        RunUnfold(Model(phase), steps, i);
        NextKeepsInv(Model(phase), steps[i]);
        hide Inv, Poll, Run;
        match steps[i] {
          case SendServoCommand(command) => SendServoCommand(command);
          case PollTask(elapsed) => phase := PollTask(phase, elapsed);
        }
        i := i + 1;
      }
    }
  }
}

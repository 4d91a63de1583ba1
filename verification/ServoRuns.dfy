/** Whole runs of the servo controller: where it can stop, that it stops, and which of
    several queued commands decides where. */
module ServoRuns {
  import opened Servo

  // ---------------------------------------------------------------------------
  // The inductive invariant
  // ---------------------------------------------------------------------------

  /** At an endpoint, with the matching status published. */
  ghost predicate Settled(s: State) {
    || (s.ticks == OPEN_TICKS && s.status == ServoStatus.Open)
    || (s.ticks == CLOSED_TICKS && s.status == Closed)
  }

  ghost predicate InRange(ticks: nat) {
    OPEN_TICKS <= ticks <= CLOSED_TICKS
  }

  /** A travel that is under way stands where the interpolation puts it. */
  ghost predicate Travelling(s: State) {
    s.phase.Moving? ==>
      var target := TargetTicks(s.phase.command);
      && InRange(s.phase.start)
      && s.phase.total == TotalSteps(s.phase.start, target) > 0
      && s.phase.step < s.phase.total
      && s.ticks == Interpolate(s.phase.start, target, s.phase.step, s.phase.total)
      && s.ticks != target
      && s.status == MovingStatus(s.phase.command)
  }

  /** Idle means settled, or on the way with a command waiting. */
  ghost predicate NeverParked(s: State) {
    s.phase.Idle? ==> Settled(s) || (OPEN_TICKS < s.ticks < CLOSED_TICKS && s.queue != [])
  }

  /** Every write but the first moved at most 15 ticks and stayed between the endpoints. */
  ghost predicate WritesSmooth(writes: seq<nat>) {
    && (forall i :: 0 <= i < |writes| ==> InRange(writes[i]))
    && (forall i :: 0 < i < |writes| ==> 1 <= AbsDiff(writes[i - 1], writes[i]) <= 15)
  }

  ghost predicate Inv(s: State) {
    && |s.queue| <= COMMAND_CAPACITY
    && InRange(s.ticks)
    && s.writes != [] && s.writes[|s.writes| - 1] == s.ticks
    && WritesSmooth(s.writes)
    && Travelling(s)
    && NeverParked(s)
  }

  lemma WriteKeepsSmooth(writes: seq<nat>, ticks: nat)
    requires WritesSmooth(writes) && writes != [] && InRange(ticks)
    requires 1 <= AbsDiff(writes[|writes| - 1], ticks) <= 15
    ensures WritesSmooth(writes + [ticks])
  {
  }

  lemma TickMoves(s: State)
    requires Inv(s) && s.phase.Moving?
    ensures var target := TargetTicks(s.phase.command);
            && 8 <= AbsDiff(s.ticks, Tick(s).ticks) <= 15
            && AbsDiff(Tick(s).ticks, target) + AbsDiff(s.ticks, Tick(s).ticks) == AbsDiff(s.ticks, target)
            && (Tick(s).ticks == target <==> s.phase.step + 1 == s.phase.total)
  {
    Endpoints();
    hide WritesSmooth, Interpolate, TotalSteps, NeverParked, DegreesToTicks;
    var target := TargetTicks(s.phase.command);
    TickMovesTowardsTarget(s.phase.start, target, s.phase.step, s.phase.total);
    assert s.phase.step + 1 < s.phase.total ==>
        Tick(s).ticks == Interpolate(s.phase.start, target, s.phase.step + 1, s.phase.total);
  }

  lemma TickKeepsInv(s: State)
    requires Inv(s) && s.phase.Moving?
    ensures Inv(Tick(s))
  {
    TickMoves(s);
    WriteKeepsSmooth(s.writes, Tick(s).ticks);
    hide WritesSmooth, Interpolate, TotalSteps;
  }

  lemma AcceptKeepsInv(s: State, command: ServoCommand)
    requires Inv(s.(queue := [command] + s.queue)) && s.phase.Idle?
    ensures Inv(Accept(s, command))
    ensures var target := TargetTicks(command);
            |Accept(s, command).writes| > |s.writes| ==>
              Accept(s, command).ticks == target && 1 <= AbsDiff(s.ticks, target) <= 7
  {
    var target := TargetTicks(command);
    Endpoints();
    StepsAreDistanceOverEight(s.ticks, target);
    if target != s.ticks && TotalSteps(s.ticks, target) > 0 {
      InterpolateIsProgress(s.ticks, target, 0, TotalSteps(s.ticks, target));
      ProgressBelow(AbsDiff(s.ticks, target), TotalSteps(s.ticks, target), 0);
    } else if target != s.ticks {
      WriteKeepsSmooth(s.writes, target);
    }
    hide WritesSmooth, Interpolate, TotalSteps, Progress, DegreesToTicks;
  }

  lemma InterruptKeepsInv(s: State, command: ServoCommand)
    requires Inv(s) && s.phase.Moving? && |s.queue| < COMMAND_CAPACITY
    ensures Inv(Interrupt(s, command))
  {
  }

  lemma PollKeepsInv(s: State, elapsed: bool)
    requires Inv(s)
    ensures Inv(Poll(s, elapsed))
  {
    if s.queue != [] {
      var popped := s.(queue := s.queue[1..]);
      if s.phase.Idle? {
        assert popped.(queue := [s.queue[0]] + popped.queue) == s;
        AcceptKeepsInv(popped, s.queue[0]);
      } else {
        InterruptKeepsInv(popped, s.queue[0]);
      }
    } else if s.phase.Moving? && elapsed {
      TickKeepsInv(s);
    }
  }

  lemma NextKeepsInv(s: State, step: Step)
    requires Inv(s)
    ensures Inv(Next(s, step))
  {
    match step
    case SendServoCommand(_) =>
    case PollTask(elapsed) => PollKeepsInv(s, elapsed);
  }

  lemma {:induction false} RunKeepsInv(s: State, steps: seq<Step>)
    requires Inv(s)
    ensures Inv(Run(s, steps))
    decreases |steps|
  {
    if steps != [] {
      NextKeepsInv(s, steps[0]);
      RunKeepsInv(Next(s, steps[0]), steps[1..]);
    }
  }

  lemma RunUnfold(s: State, steps: seq<Step>, i: nat)
    requires i < |steps|
    ensures Run(s, steps[i..]) == Run(Next(s, steps[i]), steps[i + 1..])
  {
    hide Next;
    assert steps[i..][1..] == steps[i + 1..];
  }

  lemma BootSound()
    ensures Inv(BOOT)
  {
  }

  lemma Reachable(steps: seq<Step>)
    ensures Inv(Run(BOOT, steps))
  {
    BootSound();
    hide Inv, Run;
    RunKeepsInv(BOOT, steps);
  }

  lemma StopsSettled(s: State)
    requires Inv(s) && s.phase.Idle? && s.queue == []
    ensures Settled(s)
  {
  }

  /** Over every run, back at the outer receive the servo is settled at an endpoint or
      strictly between the endpoints with a command waiting. */
  lemma StopsOnlySettled(steps: seq<Step>)
    ensures var s := Run(BOOT, steps);
            s.phase.Idle? ==>
              || (s.ticks == OPEN_TICKS && s.status == ServoStatus.Open)
              || (s.ticks == CLOSED_TICKS && s.status == Closed)
              || (OPEN_TICKS < s.ticks < CLOSED_TICKS && s.queue != [])
  {
    Reachable(steps);
  }

  /** Over every run no pulse leaves the interval between the endpoints, and two writes in
      a row are at most 15 ticks apart. */
  lemma PositionsStayInRange(steps: seq<Step>, i: nat)
    requires i < |Run(BOOT, steps).writes|
    ensures var writes := Run(BOOT, steps).writes;
            && OPEN_TICKS <= writes[i] <= CLOSED_TICKS
            && (i > 0 ==> 1 <= AbsDiff(writes[i - 1], writes[i]) <= 15)
  {
    Reachable(steps);
  }

  /** In every travel of every run: Opening is published on the way to 1583 ticks and every
      further tick lowers the position, Closing on the way to 2500 and every further tick
      raises it. */
  lemma TravelsArePublished(steps: seq<Step>)
    requires Run(BOOT, steps).phase.Moving?
    ensures var s := Run(BOOT, steps);
            var t := Tick(s);
            && s.status == (if s.phase.command.Open? then Opening else Closing)
            && (s.status == Opening ==> 1583 <= t.ticks < s.ticks && (t.phase.Idle? ==> t.ticks == 1583))
            && (s.status == Closing ==> s.ticks < t.ticks <= 2500 && (t.phase.Idle? ==> t.ticks == 2500))
            && (t.phase.Idle? ==> t.status == if s.phase.command.Open? then ServoStatus.Open else Closed)
  {
    Reachable(steps);
    Endpoints();
    hide Run;
    var s := Run(BOOT, steps);
    TickMoves(s);
    TickKeepsInv(s);
    hide WritesSmooth, Interpolate, TotalSteps, DegreesToTicks;
  }

  /** A command that finds four others waiting is dropped; any other one goes to the back. */
  lemma FifthCommandIsDropped(s: State, command: ServoCommand)
    ensures Next(s, SendServoCommand(command)).queue == if |s.queue| < 4 then s.queue + [command] else s.queue
    ensures Next(s, SendServoCommand(command)).(queue := s.queue) == s
  {
  }

  /** A command re-sent on a reversal finds the slot its own receive has just freed: it is
      never dropped, but it goes behind every other queued command. */
  lemma ReversalRequeues(steps: seq<Step>, elapsed: bool)
    requires var s := Run(BOOT, steps);
             s.phase.Moving? && s.queue != [] &&
             TargetTicks(s.queue[0]) !in {s.ticks, TargetTicks(s.phase.command)}
    ensures var s := Run(BOOT, steps);
            var t := Poll(s, elapsed);
            t.phase.Idle? && t.ticks == s.ticks && t.queue == s.queue[1..] + [s.queue[0]]
  {
    Reachable(steps);
    hide Run, WritesSmooth, Travelling, NeverParked, TargetTicks;
  }

  // ---------------------------------------------------------------------------
  // Termination
  // ---------------------------------------------------------------------------

  function Remaining(phase: Phase): int {
    if phase.Moving? then phase.total - phase.step else 0
  }

  /** Polling until the servo is idle with an empty queue, when no new command arrives.
      The measure falls with every poll although a reversal refills the queue. */
  ghost function Drain(s: State): (t: State)
    requires Inv(s)
    ensures Inv(t) && t.phase.Idle? && t.queue == []
    decreases |s.queue|, s.phase.Moving?, Remaining(s.phase)
  {
    if s.phase.Idle? && s.queue == [] then s
    else
      PollKeepsInv(s, true);
      Drain(Poll(s, true))
  }

  /** The number of timer intervals `Drain` waits for. */
  ghost function DrainIntervals(s: State): (n: nat)
    requires Inv(s)
    decreases |s.queue|, s.phase.Moving?, Remaining(s.phase)
  {
    if s.phase.Idle? && s.queue == [] then 0
    else
      PollKeepsInv(s, true);
      (if s.queue == [] then 1 else 0) + DrainIntervals(Poll(s, true))
  }

  ghost predicate PollsOnly(steps: seq<Step>) {
    forall i :: 0 <= i < |steps| ==> steps[i].PollTask?
  }

  lemma PollKeepsOutcome(s: State, elapsed: bool)
    requires Inv(s)
    ensures Inv(Poll(s, elapsed)) && Drain(Poll(s, elapsed)) == Drain(s)
  {
    PollKeepsInv(s, elapsed);
    hide Inv, Interrupt, Accept, Tick;
    assert Poll(s, elapsed) == s || Poll(s, elapsed) == Poll(s, true);
  }

  lemma {:induction false} PollsKeepOutcome(s: State, polls: seq<Step>)
    requires Inv(s) && PollsOnly(polls)
    ensures Inv(Run(s, polls)) && Drain(Run(s, polls)) == Drain(s)
    decreases |polls|
  {
    hide Inv, Drain, Poll;
    if polls != [] {
      PollKeepsOutcome(s, polls[0].elapsed);
      PollsKeepOutcome(Next(s, polls[0]), polls[1..]);
    }
  }

  /** Whatever is queued, the servo comes to rest at an endpoint with its status published.
      The outcome does not depend on the timing: however the task is polled, it stays the
      same, and a servo that is idle with nothing queued has reached it. */
  lemma EndsSettled(steps: seq<Step>, polls: seq<Step>)
    requires PollsOnly(polls)
    ensures var s := Run(BOOT, steps);
            var t := Run(s, polls);
            && Inv(s) && Inv(t) && Settled(Drain(s))
            && Drain(t) == Drain(s)
            && (t.phase.Idle? && t.queue == [] ==> t == Drain(s))
  {
    Reachable(steps);
    var s := Run(BOOT, steps);
    hide Run;
    PollsKeepOutcome(s, polls);
    StopsSettled(Drain(s));
    hide Inv;
  }

  // ---------------------------------------------------------------------------
  // Which command decides
  // ---------------------------------------------------------------------------

  lemma {:induction false} QuietTravelArrives(s: State)
    requires Inv(s) && s.phase.Moving? && s.queue == []
    ensures Drain(s).ticks == TargetTicks(s.phase.command)
    ensures DrainIntervals(s) == s.phase.total - s.phase.step
    decreases s.phase.total - s.phase.step
  {
    TickKeepsInv(s);
    var t := Tick(s);
    assert Poll(s, true) == t;
    if t.phase.Moving? {
      QuietTravelArrives(t);
    }
  }

  lemma SingleCommandFromIdle(s: State)
    requires Inv(s) && s.phase.Idle? && |s.queue| == 1
    ensures Drain(s).ticks == TargetTicks(s.queue[0])
    ensures DrainIntervals(s) == AbsDiff(s.ticks, TargetTicks(s.queue[0])) / 8
  {
    PollKeepsInv(s, true);
    var t := Poll(s, true);
    StepsAreDistanceOverEight(s.ticks, TargetTicks(s.queue[0]));
    hide WritesSmooth, TotalSteps, NeverParked, Interpolate;
    if t.phase.Moving? {
      QuietTravelArrives(t);
    }
  }

  /** The only queued command decides where the servo ends. */
  lemma SingleCommandWins(s: State)
    requires Inv(s) && |s.queue| == 1
    ensures Drain(s).ticks == TargetTicks(s.queue[0])
  {
    if s.phase.Idle? {
      SingleCommandFromIdle(s);
    } else {
      PollKeepsInv(s, true);
      var t := Poll(s, true);
      if t.phase.Moving? {
        QuietTravelArrives(t);
      } else if t.queue != [] {
        SingleCommandFromIdle(t);
      }
    }
  }

  /** A reversal by the only queued command: the servo turns round and ends at the endpoint
      of that command after an eighth of the distance in further timer intervals. */
  lemma ReversalAlone(steps: seq<Step>)
    requires var s := Run(BOOT, steps);
             s.phase.Moving? && |s.queue| == 1 &&
             TargetTicks(s.queue[0]) !in {s.ticks, TargetTicks(s.phase.command)}
    ensures var s := Run(BOOT, steps);
            && Inv(s)
            && Drain(s).ticks == TargetTicks(s.queue[0])
            && DrainIntervals(s) == AbsDiff(s.ticks, TargetTicks(s.queue[0])) / 8
  {
    Reachable(steps);
    var s := Run(BOOT, steps);
    ReversalRequeues(steps, true);
    PollKeepsInv(s, true);
    SingleCommandFromIdle(Poll(s, true));
  }

  /** The command that decides a travel towards `heading` with `queue` waiting: a command
      for the present heading is absorbed, any other one stops the travel and goes to the
      back, and the next in line starts the following travel. */
  function Decider(heading: ServoCommand, queue: seq<ServoCommand>): ServoCommand
    decreases |queue|
  {
    if queue == [] then heading
    else if queue[0] == heading then Decider(heading, queue[1..])
    else if |queue| == 1 then queue[0]
    else Decider(queue[1], queue[2..] + [queue[0]])
  }

  ghost predicate MidTravel(s: State) {
    s.phase.Moving? && OPEN_TICKS + 8 <= s.ticks <= CLOSED_TICKS - 8
  }

  lemma MidTravelMoves(s: State)
    requires MidTravel(s)
    ensures s.phase.Moving? && OPEN_TICKS + 8 <= s.ticks <= CLOSED_TICKS - 8
  {
  }

  lemma AbsorbedCommand(s: State)
    requires Inv(s) && MidTravel(s) && s.queue != [] && s.queue[0] == s.phase.command
    ensures var t := Poll(s, true);
            Inv(t) && MidTravel(t) && t.phase == s.phase && t.queue == s.queue[1..] && Drain(t) == Drain(s)
  {
    PollKeepsInv(s, true);
  }

  lemma StopsAndRequeues(s: State)
    requires Inv(s) && MidTravel(s) && s.queue != [] && s.queue[0] != s.phase.command
    ensures var t := Poll(s, true);
            Inv(t) && t == s.(phase := Idle, queue := s.queue[1..] + [s.queue[0]]) && Drain(t) == Drain(s)
  {
    PollKeepsInv(s, true);
  }

  lemma StartsNext(s: State)
    requires Inv(s) && s.phase.Idle? && s.queue != [] && OPEN_TICKS + 8 <= s.ticks <= CLOSED_TICKS - 8
    ensures var t := Poll(s, true);
            Inv(t) && MidTravel(t) && t.phase.command == s.queue[0] && t.queue == s.queue[1..] && Drain(t) == Drain(s)
  {
    PollKeepsInv(s, true);
    StepsAreDistanceOverEight(s.ticks, TargetTicks(s.queue[0]));
    hide WritesSmooth, TotalSteps;
  }

  /** From mid-travel the endpoint depends on the commands alone: it is the one the
      rotation of the queue picks. */
  lemma {:induction false} RotationDecides(s: State)
    requires Inv(s) && MidTravel(s)
    ensures Drain(s).ticks == TargetTicks(Decider(s.phase.command, s.queue))
    decreases |s.queue|
  {
    hide Inv, Poll, Drain, MidTravel;
    MidTravelMoves(s);
    if s.queue == [] {
      QuietTravelArrives(s);
    } else if s.queue[0] == s.phase.command {
      AbsorbedCommand(s);
      RotationDecides(Poll(s, true));
    } else {
      StopsAndRequeues(s);
      var stopped := Poll(s, true);
      MidTravelMoves(s);
      StartsNext(stopped);
      var t := Poll(stopped, true);
      RotationDecides(t);
      RotatedQueue(s.queue);
    }
  }

  lemma RotatedQueue(queue: seq<ServoCommand>)
    requires queue != []
    ensures (queue[1..] + [queue[0]])[1..] == if |queue| > 1 then queue[2..] + [queue[0]] else []
    ensures (queue[1..] + [queue[0]])[0] == if |queue| > 1 then queue[1] else queue[0]
  {
  }

  // ---------------------------------------------------------------------------
  // When the last command wins
  // ---------------------------------------------------------------------------

  function Sends(commands: seq<ServoCommand>): (steps: seq<Step>)
    ensures |steps| == |commands|
  {
    if commands == [] then [] else [SendServoCommand(commands[0])] + Sends(commands[1..])
  }

  lemma {:induction false} SendsFillQueue(s: State, commands: seq<ServoCommand>)
    requires |s.queue| + |commands| <= COMMAND_CAPACITY
    ensures Run(s, Sends(commands)) == s.(queue := s.queue + commands)
    decreases |commands|
  {
    if commands == [] {
      assert s.queue + commands == s.queue;
    } else {
      var t := Send(s, commands[0]);
      var steps := Sends(commands);
      assert steps[0] == SendServoCommand(commands[0]) && steps[1..] == Sends(commands[1..]);
      assert Run(s, steps) == Run(t, Sends(commands[1..]));
      hide Run, Sends, Poll;
      SendsFillQueue(t, commands[1..]);
      assert t.queue + commands[1..] == s.queue + commands;
    }
  }

  lemma {:induction false} RunAppend(s: State, a: seq<Step>, b: seq<Step>)
    ensures Run(s, a + b) == Run(Run(s, a), b)
    decreases |a|
  {
    if a == [] {
      assert a + b == b;
    } else {
      assert (a + b)[1..] == a[1..] + b;
      RunAppend(Next(s, a[0]), a[1..], b);
    }
  }

  function Opens(n: nat): (commands: seq<ServoCommand>)
    ensures |commands| == n
  {
    if n == 0 then [] else [ServoCommand.Open] + Opens(n - 1)
  }

  lemma {:induction false} OpensThenClose(n: nat)
    ensures Decider(ServoCommand.Open, Opens(n) + [Close]) == Close
  {
    if n > 0 {
      assert (Opens(n) + [Close])[1..] == Opens(n - 1) + [Close];
      OpensThenClose(n - 1);
    }
  }

  lemma {:induction false} OpensAreOpen(n: nat, i: nat)
    requires i < n
    ensures Opens(n)[i] == ServoCommand.Open
  {
    if i > 0 {
      OpensAreOpen(n - 1, i - 1);
    }
  }

  const OPENING := [SendServoCommand(ServoCommand.Open), PollTask(true), PollTask(true)]

  lemma OpeningIsUnderWay()
    ensures Run(BOOT, OPENING) == State([], 2492, Opening, Moving(ServoCommand.Open, 2500, 114, 1), [2500, 2492])
  {
    var s := Send(BOOT, ServoCommand.Open);
    assert s.queue == [ServoCommand.Open] && s.queue[1..] == [];
    StepsAreDistanceOverEight(CLOSED_TICKS, OPEN_TICKS);
    Endpoints();
    assert TruncatingDiv((OPEN_TICKS - CLOSED_TICKS) * 1, 114) == -8;
    var t := State([], 2500, Opening, Moving(ServoCommand.Open, 2500, 114, 0), [2500]);
    assert Poll(s, true) == t by { hide TotalSteps, DegreesToTicks, Run, Tick; }
    hide TotalSteps, DegreesToTicks, TruncatingDiv;
    assert Poll(t, true) == Tick(t);
    assert OPENING[1..] == [PollTask(true), PollTask(true)] && OPENING[1..][1..] == [PollTask(true)];
    RunTwo(s, PollTask(true), PollTask(true));
  }

  lemma RunTwo(s: State, a: Step, b: Step)
    ensures Run(s, [a, b]) == Next(Next(s, a), b)
  {
    hide Next;
    assert [a, b][1..] == [b];
    assert Run(Next(s, a), [b]) == Run(Next(Next(s, a), b), [b][1..]);
  }

  /** A Close followed by one to three Opens, all queued while the servo is opening: the
      first reversal puts the Close behind the Opens, and the servo ends closed. */
  lemma LaterOpensLose(n: nat)
    requires 2 <= n <= 4
    ensures var steps := OPENING + Sends([Close] + Opens(n - 1));
            var s := Run(BOOT, steps);
            && Inv(s) && |s.queue| == n
            && s.queue[n - 1] == ServoCommand.Open
            && Drain(s).ticks == TargetTicks(Close)
  {
    var commands := [Close] + Opens(n - 1);
    var s0 := Run(BOOT, OPENING);
    RunAppend(BOOT, OPENING, Sends(commands));
    OpeningIsUnderWay();
    SendsFillQueue(s0, commands);
    assert s0.queue + commands == commands;
    var s := s0.(queue := commands);
    Reachable(OPENING + Sends(commands));
    Endpoints();
    hide Run, Sends, Inv, Drain, DegreesToTicks;
    RotationDecides(s);
    OpensAreOpen(n - 1, n - 2);
    OpensAreOpen(n - 1, 0);
    assert commands[2..] + [commands[0]] == Opens(n - 2) + [Close];
    OpensThenClose(n - 2);
  }

  // ---------------------------------------------------------------------------
  // The winner from every reachable state
  // ---------------------------------------------------------------------------

  predicate AtEndpoint(ticks: nat) {
    ticks == OPEN_TICKS || ticks == CLOSED_TICKS
  }

  /** At an endpoint, or at least 8 ticks away from both. */
  ghost predicate Clear(ticks: nat) {
    AtEndpoint(ticks) || OPEN_TICKS + 8 <= ticks <= CLOSED_TICKS - 8
  }

  lemma TickKeepsClear(s: State)
    requires Inv(s) && s.phase.Moving? && Clear(s.ticks)
    ensures Clear(Tick(s).ticks)
  {
    Endpoints();
    TickMoves(s);
    if s.phase.step + 1 < s.phase.total {
      TickKeepsInv(s);
      TickMoves(Tick(s));
    }
    hide WritesSmooth, Interpolate, TotalSteps, DegreesToTicks, NeverParked, Travelling;
  }

  /** The zero-step jump never runs: a target less than 8 ticks away is the position itself. */
  lemma NoJump(s: State, command: ServoCommand)
    requires Clear(s.ticks) && s.ticks != TargetTicks(command)
    ensures TotalSteps(s.ticks, TargetTicks(command)) > 0
    ensures Accept(s, command).ticks == s.ticks
  {
    Endpoints();
    StepsAreDistanceOverEight(s.ticks, TargetTicks(command));
    hide TotalSteps, DegreesToTicks;
  }

  lemma NextKeepsClear(s: State, step: Step)
    requires Inv(s) && Clear(s.ticks)
    ensures Clear(Next(s, step).ticks)
  {
    hide Clear, Inv, TotalSteps;
    if step.PollTask? && s.queue == [] && s.phase.Moving? {
      TickKeepsClear(s);
    } else if step.PollTask? && s.queue != [] && s.phase.Idle? && s.ticks != TargetTicks(s.queue[0]) {
      NoJump(s.(queue := s.queue[1..]), s.queue[0]);
    }
  }

  lemma {:induction false} RunKeepsClear(s: State, steps: seq<Step>)
    requires Inv(s) && Clear(s.ticks)
    ensures Clear(Run(s, steps).ticks)
    decreases |steps|
  {
    hide Inv, Clear, Next;
    if steps != [] {
      NextKeepsInv(s, steps[0]);
      NextKeepsClear(s, steps[0]);
      RunKeepsClear(Next(s, steps[0]), steps[1..]);
    }
  }

  /** Every reachable position is an endpoint or at least 8 ticks away from both. */
  lemma PositionsAreClear(steps: seq<Step>)
    ensures var ticks := Run(BOOT, steps).ticks;
            ticks == OPEN_TICKS || ticks == CLOSED_TICKS || OPEN_TICKS + 8 <= ticks <= CLOSED_TICKS - 8
  {
    BootSound();
    hide Inv, Run;
    RunKeepsClear(BOOT, steps);
  }

  function Last(queue: seq<ServoCommand>): ServoCommand
    requires queue != []
  {
    queue[|queue| - 1]
  }

  /** From an endpoint a poll takes one command off the queue and does not move. */
  lemma EndpointPoll(s: State)
    requires Inv(s) && AtEndpoint(s.ticks) && s.queue != []
    ensures var t := Poll(s, true);
            && Inv(t) && t.ticks == s.ticks && t.queue == s.queue[1..] && Drain(t) == Drain(s)
            && (t.phase.Moving? ==> t.phase.command == s.queue[0])
            && (t.phase.Idle? ==> s.ticks == TargetTicks(s.queue[0]))
  {
    PollKeepsInv(s, true);
    Endpoints();
    if s.phase.Idle? && s.ticks != TargetTicks(s.queue[0]) {
      NoJump(s.(queue := s.queue[1..]), s.queue[0]);
    }
    assert s.phase.Moving? ==> s.ticks != TargetTicks(s.phase.command);
    hide Inv, TotalSteps, DegreesToTicks, Drain;
    assert Drain(Poll(s, true)) == Drain(s) by { PollKeepsOutcome(s, true); }
  }

  lemma {:induction false} LastWinsFromEndpoint(s: State)
    requires Inv(s) && AtEndpoint(s.ticks) && s.queue != []
    ensures Drain(s).ticks == TargetTicks(Last(s.queue))
    decreases |s.queue|
  {
    EndpointPoll(s);
    hide Inv, Poll, AtEndpoint;
    var t := Poll(s, true);
    if t.queue != [] {
      LastWinsFromEndpoint(t);
    } else if t.phase.Moving? {
      QuietTravelArrives(t);
    }
  }

  /** The command that decides where the servo ends when commands are waiting. */
  function Winner(s: State): ServoCommand
    requires s.queue != []
  {
    if AtEndpoint(s.ticks) then Last(s.queue)
    else if s.phase.Idle? then Decider(s.queue[0], s.queue[1..])
    else Decider(s.phase.command, s.queue)
  }

  lemma WinnerFrom(s: State)
    requires Inv(s) && Clear(s.ticks) && s.queue != []
    ensures Drain(s).ticks == TargetTicks(Winner(s))
  {
    hide Inv, Drain, Poll;
    if AtEndpoint(s.ticks) {
      LastWinsFromEndpoint(s);
    } else if s.phase.Idle? {
      StartsNext(s);
      RotationDecides(Poll(s, true));
    } else {
      RotationDecides(s);
    }
  }

  /** From every reachable state with commands waiting the winner decides where the servo
      ends. The last command wins if and only if the servo stands at an endpoint or the
      rotation of the queue picks a command equal to the last one. */
  lemma LastCommandWinsIff(steps: seq<Step>)
    requires Run(BOOT, steps).queue != []
    ensures var s := Run(BOOT, steps);
            && Inv(s) && Drain(s).ticks == TargetTicks(Winner(s))
            && (Drain(s).ticks == TargetTicks(Last(s.queue)) <==>
                || AtEndpoint(s.ticks)
                || Last(s.queue) ==
                     if s.phase.Idle? then Decider(s.queue[0], s.queue[1..]) else Decider(s.phase.command, s.queue))
  {
    Reachable(steps);
    PositionsAreClear(steps);
    Endpoints();
    var s := Run(BOOT, steps);
    hide Run, Inv, Drain, DegreesToTicks;
    WinnerFrom(s);
  }

  /** After `steps`, if `n` commands wait, the servo ends where the last of them says. */
  ghost predicate LastWins(steps: seq<Step>, n: nat)
    requires n > 0
  {
    var s := Run(BOOT, steps);
    |s.queue| == n ==> Inv(s) && Drain(s).ticks == TargetTicks(s.queue[n - 1])
  }

  lemma LastOfOneWins(steps: seq<Step>)
    ensures LastWins(steps, 1)
  {
    Reachable(steps);
    hide Run, Inv;
    if |Run(BOOT, steps).queue| == 1 {
      SingleCommandWins(Run(BOOT, steps));
    }
  }

  /** By count alone: the last command queued wins in all runs with `n` commands waiting if
      and only if `n` is one. */
  lemma LastCommandWinsIffAlone(n: nat)
    requires 1 <= n <= 4
    ensures (forall steps :: LastWins(steps, n)) <==> n == 1
  {
    if n == 1 {
      forall steps
        ensures LastWins(steps, 1)
      {
        LastOfOneWins(steps);
      }
    } else {
      LaterOpensLose(n);
      Endpoints();
      hide Run, Inv, Drain, DegreesToTicks;
      assert !LastWins(OPENING + Sends([Close] + Opens(n - 1)), n);
    }
  }
}

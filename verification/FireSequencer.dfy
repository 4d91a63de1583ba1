/** The fire sequencer of the test stand: two cooperative tasks, two latching
    signals, one bounded channel and a countdown timer.

    Every stretch of code between two await points is one atomic step. A signal
    is a one-slot latch, the channel is a bounded sequence and time never runs
    backwards. A select polls its first future first.

    `History` holds auxiliary variables: no step reads them to decide what to do. */
module FireSequencer {

  const CHANNEL_CAPACITY: nat := 4
  const FIRE_BUZZER_DURATION_MS: nat := 3000

  datatype StateCommand = Fire | FireEnd | FireReset

  datatype StateStatus = Armed | Fire | PostFire

  datatype SequencerMessage = Command(command: StateCommand) | BuzzerComplete

  datatype SignalLightConfig = SignalLightConfig(
    green: bool, red: bool, yellow: bool, blue: bool, white: bool, buzzer: bool)

  const LIGHT_OFF := SignalLightConfig(false, false, false, false, false, false)
  const LIGHT_ARMED := LIGHT_OFF.(green := true)
  const LIGHT_FIRE_BUZZER := LIGHT_OFF.(red := true, buzzer := true)
  const LIGHT_FIRE := LIGHT_OFF.(red := true)
  const LIGHT_POST_FIRE := LIGHT_OFF.(green := true, red := true)

  /** The statics shared by the tasks. */
  datatype Shared = Shared(
    channel: seq<SequencerMessage>, activate: bool, cancel: bool, currentState: nat, lastArmed: nat)

  /** Where the fire task is suspended. */
  datatype FirePc = FireStart | AwaitActivate | Countdown(deadline: nat) | FireStopped

  /** `igniting` is the level last written to the trigger expander. */
  datatype FireTask = FireTask(pc: FirePc, igniting: bool)

  /** Where the state task is suspended. */
  datatype StatePc = StateStart | StateLoop | StateStopped

  /** `light` is the configuration last written to the signal tower. */
  datatype StateTask = StateTask(pc: StatePc, state: StateStatus, light: SignalLightConfig)

  /** The armed pin, whether an edge of it is pending, and the clock. */
  datatype World = World(pinHigh: bool, edge: bool, now: nat)

  /** A Fire command the state task accepted. */
  datatype Accepted = Accepted(time: nat, pinHigh: bool)

  /** `fires` are the accepted Fire commands; `ends`, `resets` count the others. */
  datatype CommandLog = CommandLog(fires: seq<Accepted>, ends: nat, resets: nat, shutters: nat)

  /** The countdown is charged to the latest Fire accepted when its activation was
      consumed; `burning` says whether the state was Fire at that moment. */
  datatype Charge = Charge(index: nat, burning: bool)

  /** What one countdown came to. `cancelPending` is the cancel signal at the deciding
      poll, `ended` says whether the charged Fire had been ended by an accepted FireEnd. */
  datatype Decision =
    | Ignite(charge: Charge, time: nat, cancelPending: bool, ended: bool, state: StateStatus)
    | Abort(charge: Charge, time: nat, ended: bool)

  /** A BuzzerComplete handled in state Fire: the firing it silenced and the one that sent it. */
  datatype Silence = Silence(firing: nat, charge: nat, time: nat)

  /** `charges` are those of the BuzzerComplete messages in the channel, in their order. */
  datatype BuzzerLog = BuzzerLog(dropped: nat, received: nat, charges: seq<nat>, silences: seq<Silence>)

  datatype History = History(
    log: CommandLog, charge: Charge, decisions: seq<Decision>, buzzer: BuzzerLog)

  datatype Sequencer = Sequencer(
    shared: Shared, fire: FireTask, task: StateTask, world: World, hist: History)

  /** One atomic step. The flags say whether the I2C write of the step succeeds. */
  datatype Step =
    | StartFireTask(written: bool)
    | StartStateTask(found: bool, written: bool)
    | SendCommand(command: StateCommand)
    | ChangePin(high: bool)
    | Wait(ms: nat)
    | PollFireTask(written: bool)
    | PollStateTask(written: bool)

  function PinValue(high: bool): nat {
    if high then 1 else 0
  }

  function Initial(pinHigh: bool): Sequencer {
    Sequencer(Shared([], false, false, 0, PinValue(pinHigh)),
              FireTask(FireStart, false),
              StateTask(StateStart, Armed, LIGHT_OFF),
              World(pinHigh, false, 0),
              History(CommandLog([], 0, 0, 0), Charge(0, false), [], BuzzerLog(0, 0, [], [])))
  }

  function StatusCode(status: StateStatus): nat {
    match status
    case Armed => 0
    case Fire => 1
    case PostFire => 2
  }

  /** What readers of the atomic see. */
  function LoadState(code: nat): StateStatus {
    match code
    case 1 => StateStatus.Fire
    case 2 => PostFire
    case _ => Armed
  }

  function TrySend(shared: Shared, message: SequencerMessage): Shared {
    if |shared.channel| < CHANNEL_CAPACITY
    then shared.(channel := shared.channel + [message])
    else shared
  }

  function Enter(task: StateTask, status: StateStatus, config: SignalLightConfig, written: bool): StateTask {
    StateTask(task.pc, status, if written then config else task.light)
  }

  function HandleFire(s: Sequencer, written: bool): Sequencer {
    if s.task.state != Armed || !s.world.pinHigh then s
    else
      var log := s.hist.log.(fires := s.hist.log.fires + [Accepted(s.world.now, s.world.pinHigh)],
                             shutters := s.hist.log.shutters + 1);
      s.(shared := s.shared.(activate := true, currentState := StatusCode(StateStatus.Fire)),
         task := Enter(s.task, StateStatus.Fire, LIGHT_FIRE_BUZZER, written),
         hist := s.hist.(log := log))
  }

  function HandleFireEnd(s: Sequencer, written: bool): Sequencer {
    if s.task.state != StateStatus.Fire then s
    else
      var log := s.hist.log.(ends := s.hist.log.ends + 1, shutters := s.hist.log.shutters + 1);
      s.(shared := s.shared.(cancel := true, currentState := StatusCode(PostFire)),
         task := Enter(s.task, PostFire, LIGHT_POST_FIRE, written),
         hist := s.hist.(log := log))
  }

  function HandleFireReset(s: Sequencer, written: bool): Sequencer {
    if s.task.state != PostFire then s
    else
      var log := s.hist.log.(resets := s.hist.log.resets + 1);
      s.(shared := s.shared.(currentState := StatusCode(Armed)),
         task := Enter(s.task, Armed, LIGHT_ARMED, written),
         hist := s.hist.(log := log))
  }

  function HandleCommand(s: Sequencer, command: StateCommand, written: bool): Sequencer {
    match command
    case Fire => HandleFire(s, written)
    case FireEnd => HandleFireEnd(s, written)
    case FireReset => HandleFireReset(s, written)
  }

  /** The firing under way in state Fire is the latest accepted Fire. */
  function Latest(fires: seq<Accepted>): nat {
    if fires == [] then 0 else |fires| - 1
  }

  function HandleBuzzerComplete(s: Sequencer, written: bool): Sequencer {
    var b := s.hist.buzzer;
    var charge := if b.charges == [] then 0 else b.charges[0];
    var handled := b.(received := b.received + 1, charges := if b.charges == [] then [] else b.charges[1..]);
    var silence := Silence(Latest(s.hist.log.fires), charge, s.world.now);
    if s.task.state == StateStatus.Fire
    then s.(task := s.task.(light := if written then LIGHT_FIRE else s.task.light),
            hist := s.hist.(buzzer := handled.(silences := b.silences + [silence])))
    else s.(hist := s.hist.(buzzer := handled))
  }

  function HandleMessage(s: Sequencer, message: SequencerMessage, written: bool): Sequencer {
    match message
    case Command(command) => HandleCommand(s, command, written)
    case BuzzerComplete => HandleBuzzerComplete(s, written)
  }

  function PollState(s: Sequencer, written: bool): Sequencer {
    if s.task.pc != StateLoop then s
    else if s.shared.channel != [] then
      HandleMessage(s.(shared := s.shared.(channel := s.shared.channel[1..])), s.shared.channel[0], written)
    else if s.world.edge then
      s.(shared := s.shared.(lastArmed := PinValue(s.world.pinHigh)), world := s.world.(edge := false))
    else s
  }

  /** Consuming the activation also clears a pending cancel and starts the timer. */
  function ConsumeActivation(s: Sequencer): Sequencer {
    s.(shared := s.shared.(activate := false, cancel := false),
       fire := s.fire.(pc := Countdown(s.world.now + FIRE_BUZZER_DURATION_MS)),
       hist := s.hist.(charge := Charge(Latest(s.hist.log.fires), s.task.state == StateStatus.Fire)))
  }

  function TimerElapsed(s: Sequencer, written: bool): Sequencer {
    var d := Ignite(s.hist.charge, s.world.now, s.shared.cancel,
                    s.hist.charge.index < s.hist.log.ends, s.task.state);
    var b := s.hist.buzzer;
    var buzzer := if |s.shared.channel| < CHANNEL_CAPACITY
                  then b.(charges := b.charges + [s.hist.charge.index])
                  else b.(dropped := b.dropped + 1);
    s.(shared := TrySend(s.shared, BuzzerComplete),
       fire := FireTask(AwaitActivate, written || s.fire.igniting),
       hist := s.hist.(decisions := s.hist.decisions + [d],
                       buzzer := buzzer))
  }

  function Cancelled(s: Sequencer, written: bool): Sequencer {
    var d := Abort(s.hist.charge, s.world.now, s.hist.charge.index < s.hist.log.ends);
    s.(shared := s.shared.(cancel := false),
       fire := FireTask(AwaitActivate, !written && s.fire.igniting),
       hist := s.hist.(decisions := s.hist.decisions + [d]))
  }

  /** One poll of the fire task. While it counts down the timer is polled first. */
  function PollFire(s: Sequencer, written: bool): Sequencer {
    match s.fire.pc
    case AwaitActivate => if s.shared.activate then ConsumeActivation(s) else s
    case Countdown(deadline) =>
      if deadline <= s.world.now then TimerElapsed(s, written)
      else if s.shared.cancel then Cancelled(s, written)
      else s
    case _ => s
  }

  /** Creating the trigger releases its outputs; without the device the task ends. */
  function StartFire(s: Sequencer, written: bool): Sequencer {
    if s.fire.pc != FireStart then s
    else s.(fire := if written then FireTask(AwaitActivate, false) else s.fire.(pc := FireStopped))
  }

  /** Creating the tower switches it off; without the device the task ends. */
  function StartState(s: Sequencer, found: bool, written: bool): Sequencer {
    if s.task.pc != StateStart then s
    else if found then
      s.(shared := s.shared.(currentState := StatusCode(Armed)),
         task := StateTask(StateLoop, Armed, if written then LIGHT_ARMED else LIGHT_OFF))
    else s.(task := s.task.(pc := StateStopped))
  }

  function Next(s: Sequencer, step: Step): Sequencer {
    match step
    case StartFireTask(written) => StartFire(s, written)
    case StartStateTask(found, written) => StartState(s, found, written)
    case SendCommand(command) => s.(shared := TrySend(s.shared, Command(command)))
    case ChangePin(high) => s.(world := s.world.(pinHigh := high, edge := s.world.edge || high != s.world.pinHigh))
    case Wait(ms) => s.(world := s.world.(now := s.world.now + ms))
    case PollFireTask(written) => PollFire(s, written)
    case PollStateTask(written) => PollState(s, written)
  }

  function Run(s: Sequencer, steps: seq<Step>): Sequencer
    decreases |steps|
  {
    if steps == [] then s else Run(Next(s, steps[0]), steps[1..])
  }

  lemma {:induction false} RunAppend(s: Sequencer, a: seq<Step>, b: seq<Step>)
    ensures Run(s, a + b) == Run(Run(s, a), b)
    decreases |a|
  {
    hide Next;
    if a == [] {
      assert a + b == b;
    } else {
      assert (a + b)[1..] == a[1..] + b;
      RunAppend(Next(s, a[0]), a[1..], b);
    }
  }

  lemma RunOne(s: Sequencer, a: Step)
    ensures Run(s, [a]) == Next(s, a)
  {
    hide Next;
    assert [a][1..] == [];
    assert Run(Next(s, a), []) == Next(s, a);
  }
}

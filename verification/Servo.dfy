/** The servo controller: interpolated travel between two endpoints, and a reversal
    protocol in which the task sends a command back into its own queue. */
module Servo {

  const SERVO_MIN_PULSE_TICKS: nat := 500
  const SERVO_MAX_PULSE_TICKS: nat := 2500
  const SERVO_OPEN_DEGREES: nat := 975
  const SERVO_CLOSED_DEGREES: nat := 1800
  const SERVO_FULL_RANGE_MS: nat := 5000
  const TICK_INTERVAL_MS: nat := 20
  const COMMAND_CAPACITY: nat := 4

  datatype ServoCommand = Open | Close

  datatype ServoStatus = Closed | Opening | Open | Closing

  /** Casts to u16 keep the low sixteen bits, and release builds wrap the sum. */
  function DegreesToTicks(degrees: nat): nat {
    var range := SERVO_MAX_PULSE_TICKS - SERVO_MIN_PULSE_TICKS;
    (SERVO_MIN_PULSE_TICKS + (degrees * range / 1800) % 0x1_0000) % 0x1_0000
  }

  const OPEN_TICKS: nat := DegreesToTicks(SERVO_OPEN_DEGREES)
  const CLOSED_TICKS: nat := DegreesToTicks(SERVO_CLOSED_DEGREES)

  function AbsDiff(a: nat, b: nat): nat {
    if a < b then b - a else a - b
  }

  function TravelTimeMs(from: nat, to: nat): nat {
    SERVO_FULL_RANGE_MS * AbsDiff(from, to) / (SERVO_MAX_PULSE_TICKS - SERVO_MIN_PULSE_TICKS)
  }

  function TotalSteps(from: nat, to: nat): nat {
    TravelTimeMs(from, to) / TICK_INTERVAL_MS
  }

  function TargetTicks(command: ServoCommand): nat {
    match command
    case Open => OPEN_TICKS
    case Close => CLOSED_TICKS
  }

  function MovingStatus(command: ServoCommand): ServoStatus {
    match command
    case Open => Opening
    case Close => Closing
  }

  function ArrivedStatus(command: ServoCommand): ServoStatus {
    match command
    case Open => ServoStatus.Open
    case Close => Closed
  }

  /** Signed division as the processor does it: the quotient is cut towards zero. */
  function TruncatingDiv(a: int, b: int): int
    requires b > 0
  {
    if a >= 0 then a / b else -(-a / b)
  }

  function Clamp(x: int): nat {
    if x < SERVO_MIN_PULSE_TICKS then SERVO_MIN_PULSE_TICKS
    else if x > SERVO_MAX_PULSE_TICKS then SERVO_MAX_PULSE_TICKS
    else x
  }

  /** The ticks written at `step` of a travel from `start` to `target`. */
  function Interpolate(start: nat, target: nat, step: nat, total: nat): nat
    requires total > 0
  {
    Clamp(start + TruncatingDiv((target - start) * step, total))
  }

  /** Where the task is suspended: at the outer receive, or in the select of a travel. */
  datatype Phase =
    | Idle
    | Moving(command: ServoCommand, start: nat, total: nat, step: nat)

  /** `status` is the published status and `writes` the history of pulse widths written. */
  datatype State = State(
    queue: seq<ServoCommand>, ticks: nat, status: ServoStatus, phase: Phase, writes: seq<nat>)

  const BOOT := State([], CLOSED_TICKS, Closed, Idle, [CLOSED_TICKS])

  function Send(s: State, command: ServoCommand): State {
    if |s.queue| < COMMAND_CAPACITY then s.(queue := s.queue + [command]) else s
  }

  function WriteTicks(s: State, ticks: nat): State {
    s.(ticks := ticks, writes := s.writes + [ticks])
  }

  /** The outer receive took a command off the queue. */
  function Accept(s: State, command: ServoCommand): State {
    var target := TargetTicks(command);
    if target == s.ticks then s
    else
      var total := TotalSteps(s.ticks, target);
      if total == 0 then WriteTicks(s, target).(status := ArrivedStatus(command))
      else s.(status := MovingStatus(command), phase := Moving(command, s.ticks, total, 0))
  }

  /** Leaving the inner loop publishes the arrival if the target was reached. */
  function Leave(s: State): State
    requires s.phase.Moving?
  {
    var arrived := s.ticks == TargetTicks(s.phase.command);
    s.(phase := Idle, status := if arrived then ArrivedStatus(s.phase.command) else s.status)
  }

  /** A command arrived during travel. */
  function Interrupt(s: State, command: ServoCommand): State
    requires s.phase.Moving?
  {
    var target := TargetTicks(command);
    if target == s.ticks then Leave(s.(status := ArrivedStatus(command)))
    else if target == TargetTicks(s.phase.command) then s
    else Leave(Send(s, command))
  }

  /** The interval timer elapsed during travel. */
  function Tick(s: State): State
    requires s.phase.Moving?
  {
    var step := s.phase.step + 1;
    var target := TargetTicks(s.phase.command);
    var moved := s.(phase := s.phase.(step := step));
    if step >= s.phase.total then Leave(WriteTicks(moved, target))
    else WriteTicks(moved, Interpolate(s.phase.start, target, step, s.phase.total))
  }

  /** One poll of the task; in a travel the command channel is polled before the timer. */
  function Poll(s: State, elapsed: bool): State {
    if s.queue != [] then
      var popped := s.(queue := s.queue[1..]);
      if s.phase.Idle? then Accept(popped, s.queue[0]) else Interrupt(popped, s.queue[0])
    else if s.phase.Moving? && elapsed then Tick(s)
    else s
  }

  datatype Step = SendServoCommand(command: ServoCommand) | PollTask(elapsed: bool)

  function Next(s: State, step: Step): State {
    match step
    case SendServoCommand(command) => Send(s, command)
    case PollTask(elapsed) => Poll(s, elapsed)
  }

  function Run(s: State, steps: seq<Step>): State
    decreases |steps|
  {
    if steps == [] then s else Run(Next(s, steps[0]), steps[1..])
  }

  // ---------------------------------------------------------------------------
  // Interpolation
  // ---------------------------------------------------------------------------

  lemma Endpoints()
    ensures OPEN_TICKS == 1583 && CLOSED_TICKS == 2500
  {
  }

  /** Within the mechanical range no cast or sum loses bits, and the map is monotone. */
  lemma DegreesInRange(a: nat, b: nat)
    requires a <= b <= 1800
    ensures SERVO_MIN_PULSE_TICKS <= DegreesToTicks(a) <= DegreesToTicks(b) <= SERVO_MAX_PULSE_TICKS
  {
    TicksInRange(a);
    TicksInRange(b);
    hide DegreesToTicks;
    DivMonotone(a * 2000, b * 2000, 1800);
  }

  lemma TicksInRange(degrees: nat)
    requires degrees <= 1800
    ensures DegreesToTicks(degrees) == 500 + degrees * 2000 / 1800 && degrees * 2000 / 1800 <= 2000
  {
    var x := degrees * 2000 / 1800;
    assert x <= 2000 && x % 0x1_0000 == x;
  }

  /** Over all of u16 the map is exact if and only if the angle is at most 58532: beyond
      that the cast or the sum loses bits. */
  lemma DegreesExactIff(degrees: nat)
    requires degrees < 0x1_0000
    ensures DegreesToTicks(degrees) == SERVO_MIN_PULSE_TICKS + degrees * 2000 / 1800 <==> degrees <= 58532
  {
    var x := degrees * 2000 / 1800;
    assert x <= 72816 && (x <= 65035 <==> degrees <= 58532);
    assert DegreesToTicks(degrees) == (500 + x % 0x1_0000) % 0x1_0000;
  }

  lemma StepsAreDistanceOverEight(from: nat, to: nat)
    ensures TotalSteps(from, to) == AbsDiff(from, to) / 8
  {
  }

  lemma MulMonotone(a: int, b: int, d: nat)
    ensures a <= b ==> a * d <= b * d
  {
  }

  lemma DivUnique(n: nat, d: nat, q: nat)
    requires d > 0 && q * d <= n < q * d + d
    ensures n / d == q
  {
    var k := n / d;
    assert n == k * d + n % d;
    MulMonotone(k + 1, q, d);
    MulMonotone(q + 1, k, d);
    assert (k + 1) * d == k * d + d && (q + 1) * d == q * d + d;
  }

  lemma DivShift(q: nat, a: nat, d: nat)
    requires d > 0
    ensures (q * d + a) / d == q + a / d
  {
    var k := a / d;
    assert (q + k) * d == q * d + k * d;
    DivUnique(q * d + a, d, q + k);
  }

  lemma DivMonotone(a: nat, b: nat, d: nat)
    requires d > 0 && a <= b
    ensures a / d <= b / d
  {
    var k := b / d;
    assert b == k * d + b % d && a == (a / d) * d + a % d;
    MulMonotone(k + 1, a / d, d);
    assert (k + 1) * d == k * d + d;
  }

  /** How far a travel over `distance` ticks in `total` steps has come after `step`. */
  function Progress(distance: nat, total: nat, step: nat): nat
    requires total > 0
  {
    distance * step / total
  }

  lemma ProgressSplits(distance: nat, total: nat, r: nat, step: nat)
    requires total > 0 && distance == 8 * total + r
    ensures Progress(distance, total, step) == 8 * step + r * step / total
  {
    calc {
      distance * step;
      (8 * total + r) * step;
      (8 * total) * step + r * step;
      (8 * step) * total + r * step;
    }
    DivShift(8 * step, r * step, total);
  }

  /** Each step of a travel in distance/8 steps advances by 8 to 15 ticks. */
  lemma ProgressAdvances(distance: nat, total: nat, step: nat)
    requires total == distance / 8 > 0
    ensures 8 <= Progress(distance, total, step + 1) - Progress(distance, total, step) <= 15
  {
    var r := distance % 8;
    var a := r * step;
    ProgressSplits(distance, total, r, step);
    ProgressSplits(distance, total, r, step + 1);
    assert r * (step + 1) == a + r;
    DivMonotone(a, a + r, total);
    MulMonotone(1, total, r);
    DivMonotone(a + r, r * total + a, total);
    DivShift(r, a, total);
  }

  lemma {:induction false} ProgressBelow(distance: nat, total: nat, step: nat)
    requires total == distance / 8 > 0 && step <= total
    ensures Progress(distance, total, step) + 8 * (total - step) <= distance
    ensures Progress(distance, total, 0) == 0 && Progress(distance, total, total) == distance
    decreases total - step
  {
    DivUnique(distance * total, total, distance);
    DivUnique(0, total, 0);
    if step < total {
      ProgressAdvances(distance, total, step);
      ProgressBelow(distance, total, step + 1);
    }
  }

  /** Between two points of the pulse range the interpolation is `start` plus or minus the
      progress: the clamp changes nothing and every intermediate product fits an i32. */
  lemma InterpolateIsProgress(start: nat, target: nat, step: nat, total: nat)
    requires SERVO_MIN_PULSE_TICKS <= start <= SERVO_MAX_PULSE_TICKS
    requires SERVO_MIN_PULSE_TICKS <= target <= SERVO_MAX_PULSE_TICKS
    requires total == TotalSteps(start, target) > 0 && step <= total
    ensures var moved := Progress(AbsDiff(start, target), total, step);
            && moved <= AbsDiff(start, target)
            && Interpolate(start, target, step, total) == (if start < target then start + moved else start - moved)
    ensures -0x8000_0000 <= (target - start) * step < 0x8000_0000
  {
    StepsAreDistanceOverEight(start, target);
    hide TotalSteps, TravelTimeMs, DegreesToTicks;
    var distance := AbsDiff(start, target);
    ProgressBelow(distance, total, step);
    ProductFits(distance, step);
    if target < start {
      assert (target - start) * step == -(distance * step);
    } else {
      assert (target - start) * step == distance * step;
    }
    hide AbsDiff;
  }

  lemma ProductFits(distance: nat, step: nat)
    requires distance <= 2000 && step <= 250
    ensures 0 <= distance * step <= 500_000
  {
    MulMonotone(distance, 2000, step);
  }

  /** Every tick of a travel moves 8 to 15 ticks towards the target and none overshoots. */
  lemma TickMovesTowardsTarget(start: nat, target: nat, step: nat, total: nat)
    requires SERVO_MIN_PULSE_TICKS <= start <= SERVO_MAX_PULSE_TICKS
    requires SERVO_MIN_PULSE_TICKS <= target <= SERVO_MAX_PULSE_TICKS
    requires total == TotalSteps(start, target) > 0 && step < total
    ensures var before := Interpolate(start, target, step, total);
            var after := if step + 1 == total then target else Interpolate(start, target, step + 1, total);
            && 8 <= AbsDiff(before, after) <= 15
            && AbsDiff(after, target) + AbsDiff(before, after) == AbsDiff(before, target)
            && (after == target <==> step + 1 == total)
  {
    StepsAreDistanceOverEight(start, target);
    var distance := AbsDiff(start, target);
    InterpolateIsProgress(start, target, step, total);
    InterpolateIsProgress(start, target, step + 1, total);
    ProgressAdvances(distance, total, step);
    ProgressBelow(distance, total, step);
    ProgressBelow(distance, total, step + 1);
  }
}

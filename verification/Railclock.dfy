/** The railway clock driver: pushes are permits of a semaphore, the task takes all of them
    at once and flips two motor outputs once per permit. */
module Railclock {

  /** Where the task is suspended: waiting for permits, or with flips left in a batch. */
  datatype Phase = Acquiring | Batch(left: nat)

  /** `pin` is the byte the task keeps, `output0` and `output1` are the two motor pins;
      `flips` counts the flips since the start. */
  datatype Motor = Motor(pin: nat, output0: bool, output1: bool, flips: nat)

  /** `pushed` counts the pushes requested since the start. */
  datatype Permits = Permits(available: nat, pushed: nat)

  /** `pin` is the byte in the memory of the real-time clock, last written after
      `atFlips` flips. */
  datatype Saved = Saved(pin: nat, atFlips: nat)

  datatype Clock = Clock(permits: Permits, phase: Phase, motor: Motor, saved: Saved)

  /** `written` says whether the state reaches the real-time clock at the end of a batch. */
  datatype Step = PushForward(n: nat) | PollTask(written: bool)

  predicate LowBit(pin: nat) { pin % 2 == 1 }

  predicate SecondBit(pin: nat) { pin / 2 % 2 == 1 }

  /** Exclusive or with 3 of an unsigned byte. */
  function FlipBits(pin: nat): nat {
    pin / 4 * 4 + (3 - pin % 4)
  }

  function Restored(stored: nat): nat {
    if stored == 0 || stored == 3 then 1 else stored
  }

  function Boot(stored: nat): Clock {
    var pin := Restored(stored);
    Clock(Permits(0, 0), Acquiring, Motor(pin, LowBit(pin), SecondBit(pin), 0), Saved(stored, 0))
  }

  function Flip(m: Motor): Motor {
    Motor(FlipBits(m.pin), !m.output0, !m.output1, m.flips + 1)
  }

  function Next(c: Clock, step: Step): Clock {
    match step
    case PushForward(n) => c.(permits := Permits(c.permits.available + n, c.permits.pushed + n))
    case PollTask(written) =>
      match c.phase
      case Acquiring =>
        if c.permits.available >= 1
        then c.(permits := c.permits.(available := 0), phase := Batch(c.permits.available))
        else c
      case Batch(left) =>
        if left > 0 then c.(motor := Flip(c.motor), phase := Batch(left - 1))
        else c.(phase := Acquiring, saved := if written then Saved(c.motor.pin, c.motor.flips) else c.saved)
  }

  function Run(c: Clock, steps: seq<Step>): Clock
    decreases |steps|
  {
    if steps == [] then c else Run(Next(c, steps[0]), steps[1..])
  }

  function Left(phase: Phase): nat {
    match phase
    case Acquiring => 0
    case Batch(left) => left
  }

  // ---------------------------------------------------------------------------
  // Whole runs
  // ---------------------------------------------------------------------------

  ghost predicate Balanced(c: Clock) {
    c.motor.flips + Left(c.phase) + c.permits.available == c.permits.pushed
  }

  lemma {:induction false} RunConserves(c: Clock, steps: seq<Step>)
    requires Balanced(c)
    ensures Balanced(Run(c, steps))
    decreases |steps|
  {
    if steps != [] {
      RunConserves(Next(c, steps[0]), steps[1..]);
    }
  }

  /** The pushes requested by the steps of a run. */
  function Requested(steps: seq<Step>): nat {
    if steps == [] then 0
    else (match steps[0] case PushForward(n) => n case PollTask(_) => 0) + Requested(steps[1..])
  }

  lemma {:induction false} RunCountsPushes(c: Clock, steps: seq<Step>)
    ensures Run(c, steps).permits.pushed == c.permits.pushed + Requested(steps)
    decreases |steps|
  {
    if steps != [] {
      RunCountsPushes(Next(c, steps[0]), steps[1..]);
    }
  }

  /** Every push is done, left in the batch or still a permit: none is lost or doubled. */
  lemma PushesConserved(stored: nat, steps: seq<Step>)
    ensures var c := Run(Boot(stored), steps);
            c.motor.flips + Left(c.phase) + c.permits.available == c.permits.pushed == Requested(steps)
  {
    RunConserves(Boot(stored), steps);
    RunCountsPushes(Boot(stored), steps);
  }

  lemma LowBitsOf(rest: nat, low: nat)
    requires low < 4
    ensures var pin := 4 * rest + low;
            && pin / 4 == rest && pin % 4 == low
            && LowBit(pin) == (low == 1 || low == 3) && SecondBit(pin) == (low == 2 || low == 3)
  {
    var pin := 4 * rest + low;
    assert pin / 2 == 2 * rest + low / 2;
  }

  lemma FlipBitsExact(pin: nat)
    ensures LowBit(FlipBits(pin)) == !LowBit(pin) && SecondBit(FlipBits(pin)) == !SecondBit(pin)
    ensures FlipBits(FlipBits(pin)) == pin && FlipBits(pin) / 4 == pin / 4
  {
    var rest, low := pin / 4, pin % 4;
    LowBitsOf(rest, low);
    LowBitsOf(rest, 3 - low);
    hide LowBit, SecondBit;
    assert pin == 4 * rest + low && FlipBits(pin) == 4 * rest + (3 - low);
  }

  predicate Odd(n: int) { n % 2 == 1 }

  /** The kept byte after `flips` flips from `pin`. */
  function PinAfter(pin: nat, flips: int): nat {
    if Odd(flips) then FlipBits(pin) else pin
  }

  lemma PinAfterOneMore(pin: nat, flips: int)
    ensures PinAfter(pin, flips + 1) == FlipBits(PinAfter(pin, flips))
    ensures Odd(flips + 1) == !Odd(flips)
  {
    FlipBitsExact(pin);
  }

  /** The outputs are the two low bits of the kept byte, and have flipped with the parity
      of the flips done. */
  ghost predicate PhaseSound(start: Motor, m: Motor) {
    && m.output0 == LowBit(m.pin) && m.output1 == SecondBit(m.pin)
    && m.output0 == (start.output0 != Odd(m.flips))
    && m.output1 == (start.output1 != Odd(m.flips))
    && m.pin == PinAfter(start.pin, m.flips)
  }

  /** The byte last saved is that of the flips done by then. */
  ghost predicate SavedSound(start: Motor, m: Motor, saved: Saved) {
    saved.atFlips <= m.flips && Restored(saved.pin) == PinAfter(start.pin, saved.atFlips)
  }

  ghost predicate Sound(start: Motor, c: Clock) {
    Restored(start.pin) == start.pin && PhaseSound(start, c.motor) && SavedSound(start, c.motor, c.saved)
  }

  /** The two bytes replaced at the start are never reached by flipping. */
  lemma FlippedIsKept(pin: nat, flips: int)
    requires Restored(pin) == pin
    ensures Restored(PinAfter(pin, flips)) == PinAfter(pin, flips)
  {
    FlipBitsExact(pin);
    assert FlipBits(0) == 3 && FlipBits(3) == 0;
    hide FlipBits, Odd;
  }

  lemma FlipKeepsPhase(start: Motor, m: Motor)
    requires PhaseSound(start, m)
    ensures PhaseSound(start, Flip(m))
  {
    FlipBitsExact(m.pin);
    PinAfterOneMore(start.pin, m.flips);
    hide FlipBits, LowBit, SecondBit, PinAfter, Odd;
  }

  lemma NextKeepsSound(start: Motor, c: Clock, step: Step)
    requires Sound(start, c)
    ensures Sound(start, Next(c, step))
  {
    FlipKeepsPhase(start, c.motor);
    FlippedIsKept(start.pin, c.motor.flips);
    hide PinAfter, Restored, FlipBits, LowBit, SecondBit, Odd;
  }

  lemma {:induction false} RunKeepsSound(start: Motor, c: Clock, steps: seq<Step>)
    requires Sound(start, c)
    ensures Sound(start, Run(c, steps))
    decreases |steps|
  {
    hide Sound, Next;
    if steps != [] {
      NextKeepsSound(start, c, steps[0]);
      RunKeepsSound(start, Next(c, steps[0]), steps[1..]);
    }
  }

  lemma Reachable(stored: nat, steps: seq<Step>)
    ensures Sound(Boot(stored).motor, Run(Boot(stored), steps))
  {
    hide Run;
    RunKeepsSound(Boot(stored).motor, Boot(stored), steps);
  }

  /** In every run the outputs equal the kept bits, and the phase is the initial phase
      flipped by the parity of the flips done. */
  lemma PhaseIsParity(stored: nat, steps: seq<Step>)
    ensures var b := Boot(stored).motor;
            var m := Run(Boot(stored), steps).motor;
            && m.output0 == LowBit(m.pin) && m.output1 == SecondBit(m.pin)
            && (m.output0 == b.output0 <==> m.flips % 2 == 0)
            && (m.output1 == b.output1 <==> m.flips % 2 == 0)
  {
    Reachable(stored, steps);
    hide Run, Boot, LowBit, SecondBit;
  }

  /** A clock without a usable byte starts with the first output high and the second low; any
      other byte is shown as it is. */
  lemma BootShows(stored: nat)
    ensures var m := Boot(stored).motor;
            && m.pin == (if stored == 0 || stored == 3 then 1 else stored)
            && (stored == 0 || stored == 3 ==> m.output0 && !m.output1)
            && m.output0 == (m.pin % 2 == 1) && m.output1 == (m.pin / 2 % 2 == 1)
            && Boot(stored).phase == Acquiring && Boot(stored).permits.available == 0
  {
  }

  lemma BootOppositeIff(stored: nat)
    ensures Boot(stored).motor.output0 != Boot(stored).motor.output1
            <==> stored == 0 || stored == 3 || stored % 4 == 1 || stored % 4 == 2
  {
  }

  ghost predicate OppositeAfter(stored: nat, steps: seq<Step>) {
    Run(Boot(stored), steps).motor.output0 != Run(Boot(stored), steps).motor.output1
  }

  lemma StaysOpposite(stored: nat, steps: seq<Step>)
    requires Boot(stored).motor.output0 != Boot(stored).motor.output1
    ensures OppositeAfter(stored, steps)
  {
    PhaseIsParity(stored, steps);
  }

  /** The outputs are opposite in every run if and only if the stored byte was replaced at
      the start or has differing low bits. */
  lemma OutputsOppositeIff(stored: nat)
    ensures (forall steps :: OppositeAfter(stored, steps))
            <==> stored == 0 || stored == 3 || stored % 4 == 1 || stored % 4 == 2
  {
    BootOppositeIff(stored);
    assert OppositeAfter(stored, []) == (Boot(stored).motor.output0 != Boot(stored).motor.output1);
    hide Boot, OppositeAfter;
    if Boot(stored).motor.output0 != Boot(stored).motor.output1 {
      forall steps
        ensures OppositeAfter(stored, steps)
      {
        StaysOpposite(stored, steps);
      }
    }
  }

  lemma FlipsCompose(pin: nat, done: int, more: int)
    ensures PinAfter(PinAfter(pin, done), more) == PinAfter(pin, done + more)
  {
    FlipBitsExact(pin);
    OddSum(done, more);
    hide FlipBits, Odd;
  }

  lemma OddSum(a: int, b: int)
    ensures Odd(a + b) == (Odd(a) != Odd(b))
  {
    var x, y := a / 2, b / 2;
    assert a == 2 * x + a % 2 && b == 2 * y + b % 2;
    assert a + b == 2 * (x + y) + (a % 2 + b % 2);
  }

  lemma BitsAfter(pin: nat, flips: int)
    ensures LowBit(PinAfter(pin, flips)) == (LowBit(pin) != Odd(flips))
    ensures SecondBit(PinAfter(pin, flips)) == (SecondBit(pin) != Odd(flips))
  {
    FlipBitsExact(pin);
    hide FlipBits, LowBit, SecondBit;
  }

  /** A restart at any point shows the phase last saved: both outputs as they were if and
      only if an even number of flips has been done since. */
  lemma RestartLagsByParity(stored: nat, steps: seq<Step>)
    ensures var c := Run(Boot(stored), steps);
            var again := Boot(c.saved.pin).motor;
            && c.saved.atFlips <= c.motor.flips
            && (again.output0 == c.motor.output0 <==> (c.motor.flips - c.saved.atFlips) % 2 == 0)
            && (again.output1 == c.motor.output1 <==> (c.motor.flips - c.saved.atFlips) % 2 == 0)
  {
    Reachable(stored, steps);
    var start, c := Boot(stored).motor, Run(Boot(stored), steps);
    var more := c.motor.flips - c.saved.atFlips;
    FlipsCompose(start.pin, c.saved.atFlips, more);
    BitsAfter(Restored(c.saved.pin), more);
    hide Run, LowBit, SecondBit, PinAfter, Restored;
  }

  function Polls(n: nat, written: bool): (steps: seq<Step>)
    ensures |steps| == n
  {
    if n == 0 then [] else [PollTask(written)] + Polls(n - 1, written)
  }

  lemma RunPolls(c: Clock, n: nat, written: bool)
    requires n > 0
    ensures Run(c, Polls(n, written)) == Run(Next(c, PollTask(written)), Polls(n - 1, written))
  {
    hide Next;
    assert Polls(n, written)[1..] == Polls(n - 1, written);
  }

  lemma {:induction false} BatchIsServed(c: Clock, left: nat, written: bool)
    requires c.phase == Batch(left)
    ensures var d := Run(c, Polls(left + 1, written));
            && d.phase == Acquiring && d.permits == c.permits && d.motor.flips == c.motor.flips + left
            && d.saved == if written then Saved(d.motor.pin, d.motor.flips) else c.saved
    decreases left
  {
    RunPolls(c, left + 1, written);
    if left > 0 {
      BatchIsServed(Next(c, PollTask(written)), left - 1, written);
    } else {
      assert Polls(0, written) == [];
    }
  }

  /** Without further pushes every permit becomes a flip: `n` permits are served by `n + 2`
      polls, and the byte kept is then the byte saved unless the write failed. With no permit
      the task goes on waiting. */
  lemma PermitsAreServed(c: Clock, written: bool)
    requires c.phase == Acquiring
    ensures c.permits.available == 0 ==> Next(c, PollTask(written)) == c
    ensures c.permits.available > 0 ==>
              var d := Run(c, Polls(c.permits.available + 2, written));
              && d.phase == Acquiring && d.permits == c.permits.(available := 0)
              && d.motor.flips == c.motor.flips + c.permits.available
              && d.saved == if written then Saved(d.motor.pin, d.motor.flips) else c.saved
  {
    if c.permits.available > 0 {
      RunPolls(c, c.permits.available + 2, written);
      BatchIsServed(Next(c, PollTask(written)), c.permits.available, written);
    }
  }

  // ---------------------------------------------------------------------------
  // The driver in place
  // ---------------------------------------------------------------------------

  class ClockTask {
    var permits: nat
    var pin: nat
    var output0: bool
    var output1: bool
    var savedPin: nat
    ghost var pushed: nat
    ghost var flips: nat
    ghost var savedAt: nat

    ghost function Model(phase: Phase): Clock
      reads this
    {
      Clock(Permits(permits, pushed), phase, Motor(pin, output0, output1, flips), Saved(savedPin, savedAt))
    }

    constructor (stored: nat)
      ensures Model(Acquiring) == Boot(stored)
    {
      var restored := if stored == 0 || stored == 3 then 1 else stored;
      permits, pin, savedPin := 0, restored, stored;
      output0, output1 := LowBit(restored), SecondBit(restored);
      pushed, flips, savedAt := 0, 0, 0;
    }

    method Push(n: nat)
      modifies `permits, `pushed
      ensures permits == old(permits) + n && pushed == old(pushed) + n
    {
      permits := permits + n;
      pushed := pushed + n;
    }

    /** One poll of the acquiring future: it takes every permit, or waits with 0. */
    method Acquire() returns (n: nat)
      modifies `permits
      ensures n == old(permits) && permits == 0
      ensures Model(if n == 0 then Acquiring else Batch(n)) == Next(old(Model(Acquiring)), PollTask(true))
    {
      n := permits;
      permits := 0;
    }

    /** A push arrives, then the outputs and the kept bits are flipped. */
    method FlipOnce(arrival: nat, ghost left: nat)
      requires left > 0
      modifies this
      ensures Model(Batch(left - 1)) == Next(Next(old(Model(Batch(left))), PushForward(arrival)), PollTask(true))
    {
      Push(arrival);
      output0, output1, pin := !output0, !output1, FlipBits(pin);
      flips := flips + 1;
    }

    /** One batch: as many flips as permits were taken, with further pushes arriving before
        each flip, then an attempt to save the state. */
    method ServeBatch(arrivals: seq<nat>, written: bool)
      requires 1 <= permits == |arrivals|
      modifies this
      ensures Model(Acquiring) == Run(old(Model(Acquiring)), BatchSteps(arrivals, written))
      ensures written ==> savedPin == pin
    {
      ghost var start := Model(Acquiring);
      var n := Acquire();
      ghost var all := BatchSteps(arrivals, written);
      assert all[1..] == FlipSteps(arrivals, written);
      assert arrivals[0..] == arrivals;
      for i := 0 to n
        invariant Run(Model(Batch(n - i)), FlipSteps(arrivals[i..], written)) == Run(start, all)
      {
        ghost var before := Model(Batch(n - i));
        UnfoldFlip(before, arrivals[i..], written);
        assert arrivals[i..][1..] == arrivals[i + 1..];
        FlipOnce(arrivals[i], n - i);
      }
      assert arrivals[n..] == [];
      EndOfBatch(Model(Batch(0)), written);
      if written {
        savedPin, savedAt := pin, flips;
      }
    }
  }

  function FlipSteps(arrivals: seq<nat>, written: bool): seq<Step> {
    if arrivals == [] then [PollTask(written)]
    else [PushForward(arrivals[0]), PollTask(true)] + FlipSteps(arrivals[1..], written)
  }

  /** Taking the permits, then a push and a flip per permit, then the end of the batch. */
  function BatchSteps(arrivals: seq<nat>, written: bool): seq<Step> {
    [PollTask(true)] + FlipSteps(arrivals, written)
  }

  lemma UnfoldFlip(c: Clock, arrivals: seq<nat>, written: bool)
    requires arrivals != [] && c.phase.Batch? && c.phase.left > 0
    ensures Run(c, FlipSteps(arrivals, written)) ==
            Run(Next(Next(c, PushForward(arrivals[0])), PollTask(true)), FlipSteps(arrivals[1..], written))
  {
    var steps := FlipSteps(arrivals, written);
    assert steps[1..][1..] == FlipSteps(arrivals[1..], written);
    assert steps[1..][0] == PollTask(true);
  }

  lemma EndOfBatch(c: Clock, written: bool)
    requires c.phase == Batch(0)
    ensures Run(c, FlipSteps([], written)) == Next(c, PollTask(written))
  {
    assert FlipSteps([], written)[1..] == [];
  }
}

/** The power controller and its task: a mode machine over a port expander and a battery
    charger, where every bus transfer may fail.

    A failed write may or may not have reached the device, and a failed read tells nothing.
    `Attempt` records are auxiliary: no step looks at them. */
module Power {
  import opened Wrappers

  datatype Mode = Passive | Charging | Otg

  datatype PowerError = I2cBusError | I2CExpanderError

  /** How a write ends: acknowledged, failed without effect, or failed after the device had
      already taken it. */
  datatype Transfer = Done | Lost | Landed

  // ---------------------------------------------------------------------------
  // The expander byte
  // ---------------------------------------------------------------------------

  const CHR_EN: bv8 := 0x01
  const VBUS_ENABLE: bv8 := 0x20
  const VBUS_PRESENT: bv8 := 0x40

  function SetBit(reg: bv8, bit: bv8, high: bool): bv8 {
    if high then reg | bit else reg & !bit
  }

  function SetChrEn(reg: bv8, enabled: bool): bv8 { SetBit(reg, CHR_EN, !enabled) }

  function SetVbusEnable(reg: bv8, enabled: bool): bv8 { SetBit(reg, VBUS_ENABLE, enabled) }

  predicate ChrEn(reg: bv8) { reg & CHR_EN == 0 }

  predicate VbusEnable(reg: bv8) { reg & VBUS_ENABLE != 0 }

  predicate VbusPresent(reg: bv8) { reg & VBUS_PRESENT == 0 }

  /** The two setters write their own bit and leave the six others alone. */
  lemma SettersAreExact(reg: bv8, charge: bool, vbus: bool)
    ensures var r := SetVbusEnable(SetChrEn(reg, charge), vbus);
            && ChrEn(r) == charge && VbusEnable(r) == vbus
            && r & 0xDE == reg & 0xDE
  {
  }

  // ---------------------------------------------------------------------------
  // The devices
  // ---------------------------------------------------------------------------

  /** The charger bits the firmware switches. */
  datatype Charger = Charger(charging: bool, otg: bool, watchdog: bool, batfet: bool)

  /** One call of `switch_mode`, with how its two writes ended. */
  datatype Attempt = Attempt(mode: Mode, expander: Transfer, charger: Transfer)

  datatype Controller = Controller(
    mode: Mode, expander: bv8, charger: Charger, boost: bool, attempts: seq<Attempt>)

  function Written<T>(transfer: Transfer, before: T, after: T): T {
    if transfer.Lost? then before else after
  }

  function ExpanderByte(mode: Mode, status: bv8): bv8 {
    SetVbusEnable(SetChrEn(status, mode.Charging?), !mode.Otg?)
  }

  function SwitchMode(c: Controller, mode: Mode, status: bv8, expander: Transfer, charger: Transfer)
    : (Controller, Result<(), PowerError>)
  {
    var c1 := c.(expander := Written(expander, c.expander, ExpanderByte(mode, status)),
                 attempts := c.attempts + [Attempt(mode, expander, charger)]);
    if !expander.Done? then (c1, Err(I2CExpanderError))
    else
      var regs := c.charger.(charging := mode.Charging?, otg := mode.Otg?);
      var c2 := c1.(charger := Written(charger, c.charger, regs));
      if !charger.Done? then (c2, Err(I2cBusError)) else (c2.(mode := mode), Ok(()))
  }

  function EnterShippingMode(c: Controller, status: bv8, expander: Transfer, charger: Transfer, ship: Transfer)
    : (Controller, Result<(), PowerError>)
  {
    var (c1, switched) := SwitchMode(c, Charging, status, expander, charger);
    if switched.Err? then (c1, switched)
    else
      var off := c1.charger.(watchdog := false, batfet := false);
      var c2 := c1.(charger := Written(ship, c1.charger, off));
      (c2, if ship.Done? then Ok(()) else Err(I2cBusError))
  }

  // ---------------------------------------------------------------------------
  // The task
  // ---------------------------------------------------------------------------

  datatype Request = EnableBoostConverter(enable: bool) | CheckInterrupt | EnterShipping | EnterPassive

  /** Outcomes of the transfers one request may make. */
  datatype Bus = Bus(stats: Result<bv8, PowerError>, expander: Transfer, charger: Transfer, ship: Transfer)

  /** Answered with success, the controller is in OTG mode exactly when VBUS was absent; it
      leaves OTG for charging, and any other mode only for OTG. */
  function HandleInterrupt(c: Controller, bus: Bus): (r: (Controller, Result<(), PowerError>))
    ensures r.1.Ok? ==> bus.stats.Ok? && (r.0.mode.Otg? <==> !VbusPresent(bus.stats.value))
    ensures r.0.mode != c.mode ==> r.0.mode == if c.mode.Otg? then Charging else Otg
    ensures r.0.mode != c.mode ==> r.1.Ok? && ChargerShows(r.0.charger, r.0.mode)
    ensures r.1.Err? ==> r.0.mode == c.mode
  {
    match bus.stats
    case Err(e) => (c, Err(e))
    case Ok(status) =>
      if c.mode.Otg? then
        if VbusPresent(status) then SwitchMode(c, Charging, status, bus.expander, bus.charger) else (c, Ok(()))
      else if !VbusPresent(status) then SwitchMode(c, Otg, status, bus.expander, bus.charger)
      else (c, Ok(()))
  }

  function HandleRequest(c: Controller, request: Request, bus: Bus): (Controller, Result<(), PowerError>) {
    match request
    case EnableBoostConverter(enable) => (c.(boost := enable), Ok(()))
    case CheckInterrupt => HandleInterrupt(c, bus)
    case EnterShipping =>
      (match bus.stats
       case Err(e) => (c, Err(e))
       case Ok(status) => EnterShippingMode(c, status, bus.expander, bus.charger, bus.ship))
    case EnterPassive =>
      (match bus.stats
       case Err(e) => (c, Err(e))
       case Ok(status) => SwitchMode(c, Passive, status, bus.expander, bus.charger))
  }

  /** A switch changes the two charge bits of the charger and nothing else of it, and the two
      expander bits in the byte read and nothing else of that. A failed expander write ends
      it; with both writes acknowledged it succeeds. */
  lemma SwitchTouches(c: Controller, mode: Mode, status: bv8, expander: Transfer, charger: Transfer)
    ensures var r := SwitchMode(c, mode, status, expander, charger);
            && r.1.Ok? == (expander.Done? && charger.Done?)
            && (r.1.Err? ==> r.1.error == if expander.Done? then I2cBusError else I2CExpanderError)
            && r.0.charger.watchdog == c.charger.watchdog && r.0.charger.batfet == c.charger.batfet
            && (expander.Lost? ==> r.0.expander == c.expander)
            && (!expander.Lost? ==> ByteFor(r.0.expander, status, mode))
            && (!expander.Done? || charger.Lost? ==> r.0.charger == c.charger)
            && (expander.Done? && !charger.Lost? ==>
                  r.0.charger.charging == (mode == Charging) && r.0.charger.otg == (mode == Otg))
            && r.0.mode == (if r.1.Ok? then mode else c.mode) && r.0.boost == c.boost
  {
    ExpanderByteShows(mode, status);
    hide ExpanderByte, ByteFor;
  }

  /** The byte read with charging enabled (bit 0 low) only in Charging, VBUS enabled (bit 5
      high) except in OTG, and the six other bits as read. */
  ghost predicate ByteFor(byte: bv8, status: bv8, mode: Mode) {
    && byte & 0xDE == status & 0xDE
    && ((byte & 0x01 == 0) <==> mode == Charging) && ((byte & 0x20 != 0) <==> mode != Otg)
  }

  lemma ExpanderByteShows(mode: Mode, status: bv8)
    ensures ByteFor(ExpanderByte(mode, status), status, mode)
  {
    SettersAreExact(status, mode.Charging?, !mode.Otg?);
    hide SetChrEn, SetVbusEnable;
  }

  lemma SwitchAnswers(c: Controller, mode: Mode, status: bv8, expander: Transfer, charger: Transfer)
    ensures var r := SwitchMode(c, mode, status, expander, charger);
            && r.0.boost == c.boost
            && (r.1.Ok? ==> r.0.mode == mode && ChargerShows(r.0.charger, mode))
            && (r.1.Err? ==> r.0.mode == c.mode)
  {
    hide ExpanderByte;
  }

  lemma ShippingAnswers(c: Controller, status: bv8, expander: Transfer, charger: Transfer, ship: Transfer)
    ensures var r := EnterShippingMode(c, status, expander, charger, ship);
            && r.0.boost == c.boost
            && r.1 == (if !expander.Done? then Err(I2CExpanderError)
                       else if !charger.Done? || !ship.Done? then Err(I2cBusError)
                       else Ok(()))
            && r.0.mode == (if expander.Done? && charger.Done? then Charging else c.mode)
            && (r.1.Ok? ==> ChargerShows(r.0.charger, Charging))
            && (r.1.Ok? ==> !r.0.charger.batfet && !r.0.charger.watchdog)
  {
    SwitchTouches(c, Charging, status, expander, charger);
    hide SwitchMode;
  }

  lemma InterruptAnswers(c: Controller, bus: Bus)
    ensures var r := HandleInterrupt(c, bus);
            && r.0.boost == c.boost
            && (r.1.Err? ==> r.0.mode == c.mode)
            && (bus.stats.Err? ==> r == (c, Err(bus.stats.error)))
  {
    if bus.stats.Ok? {
      SwitchAnswers(c, Charging, bus.stats.value, bus.expander, bus.charger);
      SwitchAnswers(c, Otg, bus.stats.value, bus.expander, bus.charger);
      hide SwitchMode, ChargerShows, VbusPresent;
    }
  }

  /** A request whose transfers are all acknowledged is answered with success. */
  lemma GoodTransfersSucceed(c: Controller, request: Request, bus: Bus)
    requires bus.stats.Ok? && bus.expander.Done? && bus.charger.Done? && bus.ship.Done?
    ensures HandleRequest(c, request, bus).1 == Ok(())
    ensures request.CheckInterrupt? ==>
              HandleRequest(c, request, bus).0.mode ==
              if bus.stats.value & 0x40 != 0 then Otg else if c.mode == Otg then Charging else c.mode
  {
    SwitchTouches(c, Passive, bus.stats.value, Done, Done);
    SwitchTouches(c, Charging, bus.stats.value, Done, Done);
    SwitchTouches(c, Otg, bus.stats.value, Done, Done);
    hide SwitchMode;
  }

  /** A successful answer means the requested mode is recorded and set in the charger; after
      a failed one the recorded mode changes only if shipping got as far as charging. */
  lemma AnswersMean(c: Controller, request: Request, bus: Bus)
    ensures var r := HandleRequest(c, request, bus);
            && (request.EnableBoostConverter? ==> r == (c.(boost := request.enable), Ok(())))
            && (!request.EnableBoostConverter? ==>
                  r.0.boost == c.boost && (bus.stats.Err? ==> r == (c, Err(bus.stats.error))))
            && (request.EnterPassive? && r.1.Ok? ==> r.0.mode.Passive? && ChargerShows(r.0.charger, Passive))
            && (request.EnterShipping? && r.1.Ok? ==>
                  && r.0.mode.Charging? && ChargerShows(r.0.charger, Charging)
                  && !r.0.charger.batfet && !r.0.charger.watchdog)
            && (r.1.Err? && r.0.mode != c.mode ==> request.EnterShipping? && r.0.mode.Charging?)
  {
    hide SwitchMode, EnterShippingMode, ChargerShows, VbusPresent, HandleInterrupt;
    if bus.stats.Ok? {
      var status := bus.stats.value;
      match request
      case CheckInterrupt => InterruptAnswers(c, bus);
      case EnterShipping => ShippingAnswers(c, status, bus.expander, bus.charger, bus.ship);
      case EnterPassive => SwitchAnswers(c, Passive, status, bus.expander, bus.charger);
      case _ =>
    } else if request.CheckInterrupt? {
      InterruptAnswers(c, bus);
    }
  }

  /** Where the task is suspended. */
  datatype TaskPc = Starting | Reading | Selecting | Stopped

  datatype Task = Task(pc: TaskPc, initialModeSet: bool, controller: Controller)

  datatype Step =
    | Start(setup: Transfer, config: Transfer)
    | ReadStats(bus: Bus)
    | Timeout(watchdog: Transfer)
    | Serve(request: Request, bus: Bus, watchdog: Transfer)

  /** The charger keeps its registers while the processor restarts: any bits are possible. */
  function Initial(expander: bv8, charger: Charger): Task {
    Task(Starting, false, Controller(Passive, expander, charger, false, []))
  }

  function StartController(c: Controller, setup: Transfer, config: Transfer): (Controller, bool) {
    var c1 := c.(expander := Written(setup, c.expander, 0xFF));
    if !setup.Done? then (c1, false)
    else (c1.(charger := Written(config, c.charger, c.charger.(watchdog := true, batfet := true))), config.Done?)
  }

  function InitialMode(status: bv8): Mode {
    if VbusPresent(status) then Charging else Otg
  }

  function ReadTop(t: Task, bus: Bus): Task {
    match bus.stats
    case Err(_) => t
    case Ok(status) =>
      if t.initialModeSet then t.(pc := Selecting)
      else
        var (c, switched) := SwitchMode(t.controller, InitialMode(status), status, bus.expander, bus.charger);
        if switched.Err? then t.(controller := c)
        else Task(Selecting, true, c)
  }

  function Next(t: Task, step: Step): Task {
    match step
    case Start(setup, config) =>
      if !t.pc.Starting? then t
      else
        var (c, ready) := StartController(t.controller, setup, config);
        t.(pc := if ready then Reading else Stopped, controller := c)
    case ReadStats(bus) => if t.pc.Reading? then ReadTop(t, bus) else t
    case Timeout(_) => if t.pc.Selecting? then t.(pc := Reading) else t
    case Serve(request, bus, _) =>
      if t.pc.Selecting? then Task(Reading, t.initialModeSet, HandleRequest(t.controller, request, bus).0) else t
  }

  function Run(t: Task, steps: seq<Step>): Task
    decreases |steps|
  {
    if steps == [] then t else Run(Next(t, steps[0]), steps[1..])
  }

  // ---------------------------------------------------------------------------
  // What the devices show
  // ---------------------------------------------------------------------------

  predicate Succeeded(a: Attempt) { a.expander.Done? && a.charger.Done? }

  predicate ReachedExpander(a: Attempt) { !a.expander.Lost? }

  predicate ReachedCharger(a: Attempt) { a.expander.Done? && !a.charger.Lost? }

  /** The mode of the latest attempt that satisfies `p`. */
  function LatestMode(attempts: seq<Attempt>, p: Attempt -> bool): Option<Mode> {
    if attempts == [] then None
    else
      var last := attempts[|attempts| - 1];
      if p(last) then Some(last.mode) else LatestMode(attempts[..|attempts| - 1], p)
  }

  ghost predicate ExpanderShows(reg: bv8, mode: Mode) {
    ChrEn(reg) == mode.Charging? && VbusEnable(reg) == !mode.Otg?
  }

  ghost predicate ChargerShows(charger: Charger, mode: Mode) {
    charger.charging == mode.Charging? && charger.otg == mode.Otg?
  }

  ghost predicate ControllerInv(c: Controller) {
    && c.mode == (match LatestMode(c.attempts, Succeeded) case None => Passive case Some(m) => m)
    && (match LatestMode(c.attempts, ReachedExpander) case None => true case Some(m) => ExpanderShows(c.expander, m))
    && (match LatestMode(c.attempts, ReachedCharger) case None => true case Some(m) => ChargerShows(c.charger, m))
  }

  ghost predicate PassiveUntilSwitched(c: Controller) {
    LatestMode(c.attempts, ReachedExpander).None? ==> ExpanderShows(c.expander, Passive)
  }

  ghost predicate Inv(t: Task) {
    && ControllerInv(t.controller)
    && (t.pc.Starting? || t.pc.Stopped? ==> t.controller.attempts == [])
    && (t.pc.Selecting? ==> t.initialModeSet)
    && (t.pc.Reading? ==> PassiveUntilSwitched(t.controller))
    && (t.initialModeSet ==> LatestMode(t.controller.attempts, Succeeded).Some?)
  }

  lemma AttemptAppends(attempts: seq<Attempt>, a: Attempt, p: Attempt -> bool)
    ensures LatestMode(attempts + [a], p) == if p(a) then Some(a.mode) else LatestMode(attempts, p)
  {
    assert (attempts + [a])[..|attempts|] == attempts;
  }

  lemma SwitchKeepsInv(c: Controller, mode: Mode, status: bv8, expander: Transfer, charger: Transfer)
    requires ControllerInv(c)
    ensures ControllerInv(SwitchMode(c, mode, status, expander, charger).0)
    ensures SwitchMode(c, mode, status, expander, charger).1.Ok? ==>
              LatestMode(SwitchMode(c, mode, status, expander, charger).0.attempts, Succeeded) == Some(mode)
    ensures LatestMode(c.attempts, Succeeded).Some? ==>
              LatestMode(SwitchMode(c, mode, status, expander, charger).0.attempts, Succeeded).Some?
  {
    var a := Attempt(mode, expander, charger);
    AttemptAppends(c.attempts, a, Succeeded);
    AttemptAppends(c.attempts, a, ReachedExpander);
    AttemptAppends(c.attempts, a, ReachedCharger);
    SettersAreExact(status, mode.Charging?, !mode.Otg?);
    hide LatestMode, SetChrEn, SetVbusEnable, ChrEn, VbusEnable;
  }

  lemma SwitchKeepsPassive(c: Controller, mode: Mode, status: bv8, expander: Transfer, charger: Transfer)
    requires PassiveUntilSwitched(c)
    ensures PassiveUntilSwitched(SwitchMode(c, mode, status, expander, charger).0)
  {
    AttemptAppends(c.attempts, Attempt(mode, expander, charger), ReachedExpander);
    hide LatestMode, ExpanderShows, ExpanderByte;
  }

  ghost predicate EverSwitched(c: Controller) {
    LatestMode(c.attempts, Succeeded).Some?
  }

  lemma ShippingKeepsInv(c: Controller, status: bv8, expander: Transfer, charger: Transfer, ship: Transfer)
    requires ControllerInv(c)
    ensures var t := EnterShippingMode(c, status, expander, charger, ship).0;
            ControllerInv(t) && (EverSwitched(c) ==> EverSwitched(t))
  {
    SwitchKeepsInv(c, Charging, status, expander, charger);
    hide SwitchMode, LatestMode, ExpanderShows;
  }

  lemma InterruptKeepsInv(c: Controller, bus: Bus)
    requires ControllerInv(c)
    ensures var t := HandleInterrupt(c, bus).0;
            ControllerInv(t) && (EverSwitched(c) ==> EverSwitched(t))
  {
    hide SwitchMode, LatestMode, ControllerInv, VbusPresent;
    if bus.stats.Ok? {
      SwitchKeepsInv(c, Charging, bus.stats.value, bus.expander, bus.charger);
      SwitchKeepsInv(c, Otg, bus.stats.value, bus.expander, bus.charger);
    }
  }

  lemma HandleRequestKeepsInv(c: Controller, request: Request, bus: Bus)
    requires ControllerInv(c)
    ensures var t := HandleRequest(c, request, bus).0;
            ControllerInv(t) && (EverSwitched(c) ==> EverSwitched(t))
  {
    hide SwitchMode, LatestMode, HandleInterrupt, EnterShippingMode, ExpanderShows, ChargerShows;
    match request
    case EnableBoostConverter(_) =>
    case CheckInterrupt => InterruptKeepsInv(c, bus);
    case EnterShipping =>
      if bus.stats.Ok? {
        ShippingKeepsInv(c, bus.stats.value, bus.expander, bus.charger, bus.ship);
      }
    case EnterPassive =>
      if bus.stats.Ok? {
        SwitchKeepsInv(c, Passive, bus.stats.value, bus.expander, bus.charger);
      }
  }

  lemma ReadTopKeepsInv(t: Task, bus: Bus)
    requires Inv(t) && t.pc.Reading?
    ensures Inv(ReadTop(t, bus))
  {
    if bus.stats.Ok? {
      var mode, status := InitialMode(bus.stats.value), bus.stats.value;
      SwitchKeepsInv(t.controller, mode, status, bus.expander, bus.charger);
      SwitchKeepsPassive(t.controller, mode, status, bus.expander, bus.charger);
      hide SwitchMode, ControllerInv, LatestMode, InitialMode, PassiveUntilSwitched;
    }
  }

  lemma ServeKeepsInv(t: Task, request: Request, bus: Bus)
    requires Inv(t) && t.pc.Selecting?
    ensures Inv(Task(Reading, t.initialModeSet, HandleRequest(t.controller, request, bus).0))
  {
    hide ControllerInv, HandleRequest, LatestMode, ExpanderShows;
    HandleRequestKeepsInv(t.controller, request, bus);
    LaterReachesToo(HandleRequest(t.controller, request, bus).0.attempts, ReachedExpander);
  }

  lemma StartKeepsInv(t: Task, setup: Transfer, config: Transfer)
    requires Inv(t) && t.pc.Starting?
    ensures Inv(Next(t, Start(setup, config)))
  {
    assert ExpanderShows(0xFF, Passive);
    assert LatestMode([], ReachedExpander).None?;
  }

  lemma NextKeepsInv(t: Task, step: Step)
    requires Inv(t)
    ensures Inv(Next(t, step))
  {
    hide HandleRequest, ReadTop, ControllerInv, LatestMode, PassiveUntilSwitched;
    match step
    case Start(setup, config) =>
      if t.pc.Starting? {
        StartKeepsInv(t, setup, config);
      }
    case ReadStats(bus) =>
      if t.pc.Reading? {
        ReadTopKeepsInv(t, bus);
      }
    case Timeout(_) =>
      if t.pc.Selecting? {
        LaterReachesToo(t.controller.attempts, ReachedExpander);
        SwitchedAlready(t.controller);
      }
    case Serve(request, bus, _) =>
      if t.pc.Selecting? {
        ServeKeepsInv(t, request, bus);
      }
  }

  lemma SwitchedAlready(c: Controller)
    requires LatestMode(c.attempts, ReachedExpander).Some?
    ensures PassiveUntilSwitched(c)
  {
  }

  lemma {:induction false} RunKeepsInv(t: Task, steps: seq<Step>)
    requires Inv(t)
    ensures Inv(Run(t, steps))
    decreases |steps|
  {
    hide Next, Inv;
    if steps != [] {
      NextKeepsInv(t, steps[0]);
      RunKeepsInv(Next(t, steps[0]), steps[1..]);
    }
  }

  // ---------------------------------------------------------------------------
  // The devices over every run
  // ---------------------------------------------------------------------------

  lemma {:induction false} LaterReachesToo(attempts: seq<Attempt>, p: Attempt -> bool)
    requires forall a :: Succeeded(a) ==> p(a)
    ensures LatestMode(attempts, Succeeded).Some? ==> LatestMode(attempts, p).Some?
    decreases |attempts|
  {
    if attempts != [] {
      LaterReachesToo(attempts[..|attempts| - 1], p);
    }
  }

  /** Some attempt satisfied `p`, failed, and no attempt has succeeded since. */
  ghost predicate FailedSince(attempts: seq<Attempt>, p: Attempt -> bool) {
    exists k :: 0 <= k < |attempts| && p(attempts[k]) &&
                forall j :: k <= j < |attempts| ==> !Succeeded(attempts[j])
  }

  lemma {:induction false} DriftNeedsFailure(attempts: seq<Attempt>, p: Attempt -> bool) returns (k: nat)
    requires forall a :: Succeeded(a) ==> p(a)
    requires LatestMode(attempts, p) != LatestMode(attempts, Succeeded)
    ensures k < |attempts| && p(attempts[k])
    ensures forall j :: k <= j < |attempts| ==> !Succeeded(attempts[j])
    decreases |attempts|
  {
    var n := |attempts| - 1;
    if p(attempts[n]) {
      k := n;
    } else {
      k := DriftNeedsFailure(attempts[..n], p);
    }
  }

  /** A start that succeeds has released every expander line, switched the charger's watchdog
      and battery transistor on and left its other bits; one that fails ends the task. */
  lemma StartsClean(expander: bv8, charger: Charger, setup: Transfer, config: Transfer)
    ensures var t := Next(Initial(expander, charger), Start(setup, config));
            && (t.pc == Reading <==> setup.Done? && config.Done?) && (t.pc != Reading ==> t.pc == Stopped)
            && (t.pc == Reading ==>
                  && t.controller.expander == 0xFF
                  && t.controller.charger == charger.(watchdog := true, batfet := true)
                  && t.controller.mode == Passive && !t.controller.boost && !t.initialModeSet)
  {
  }

  /** In every run the initial mode is set by the first status read whose switch succeeds: OTG
      if the VBUS line is high, that is, VBUS absent, and charging if it is low. */
  lemma InitialModeFollowsVbus(expander: bv8, charger: Charger, steps: seq<Step>, step: Step)
    requires var t := Run(Initial(expander, charger), steps);
             !t.initialModeSet
    ensures var t := Run(Initial(expander, charger), steps);
            var u := Next(t, step);
            && (u.initialModeSet <==>
                && t.pc == Reading && step.ReadStats? && step.bus.stats.Ok?
                && step.bus.expander.Done? && step.bus.charger.Done?)
            && (u.initialModeSet ==>
                  var absent := step.bus.stats.value & 0x40 != 0;
                  && u.pc == Selecting && u.controller.mode == (if absent then Otg else Charging)
                  && u.controller.charger.otg == absent && u.controller.charger.charging == !absent
                  && (u.controller.expander & 0x01 == 0) == !absent && (u.controller.expander & 0x20 != 0) == !absent)
  {
    RunKeepsInv(Initial(expander, charger), steps);
    hide Run, ControllerInv, PassiveUntilSwitched;
    var t := Run(Initial(expander, charger), steps);
    if step.ReadStats? && step.bus.stats.Ok? {
      SwitchTouches(t.controller, Otg, step.bus.stats.value, step.bus.expander, step.bus.charger);
      SwitchTouches(t.controller, Charging, step.bus.stats.value, step.bus.expander, step.bus.charger);
      hide SwitchMode;
    }
  }

  /** Each step of the loop, with where it leaves the task: without a status nothing happens;
      a status is followed by the select, or first by the switch to the initial mode, tried
      again with the next status if it fails; a timeout or an answer leads back to the top. */
  lemma LoopSteps(t: Task, step: Step)
    requires t.pc == Reading || t.pc == Selecting
    ensures var u := Next(t, step);
            match step
            case ReadStats(bus) =>
              if t.pc == Selecting || bus.stats.Err? then u == t
              else if t.initialModeSet then u == Task(Selecting, true, t.controller)
              else
                var mode := if bus.stats.value & 0x40 != 0 then Otg else Charging;
                var (c, r) := SwitchMode(t.controller, mode, bus.stats.value, bus.expander, bus.charger);
                u == Task(if r.Ok? then Selecting else Reading, r.Ok?, c)
            case Timeout(_) => u == Task(Reading, t.initialModeSet, t.controller)
            case Serve(request, bus, _) =>
              if t.pc == Reading then u == t
              else u == Task(Reading, t.initialModeSet, HandleRequest(t.controller, request, bus).0)
            case Start(_, _) => u == t
  {
    hide SwitchMode, HandleRequest;
    if step.ReadStats? && step.bus.stats.Ok? {
      assert InitialMode(step.bus.stats.value) == if step.bus.stats.value & 0x40 != 0 then Otg else Charging;
      hide InitialMode;
      if !t.initialModeSet {
        var c := SwitchMode(t.controller, InitialMode(step.bus.stats.value), step.bus.stats.value,
                            step.bus.expander, step.bus.charger);
        assert t.pc == Reading ==>
            Next(t, step) == Task(if c.1.Ok? then Selecting else Reading, c.1.Ok?, c.0);
      }
    }
  }

  /** Once set, the initial mode stays set, and only then are requests served. */
  lemma {:induction false} InitialModeStaysSet(t: Task, steps: seq<Step>)
    requires t.initialModeSet
    ensures Run(t, steps).initialModeSet
    decreases |steps|
  {
    if steps != [] {
      assert Next(t, steps[0]).initialModeSet by { hide HandleRequest; }
      hide Next;
      InitialModeStaysSet(Next(t, steps[0]), steps[1..]);
    }
  }

  /** Once started, the expander shows the recorded mode Passive until a switch reaches it. */
  lemma StartsPassive(expander: bv8, charger: Charger, steps: seq<Step>)
    requires var t := Run(Initial(expander, charger), steps);
             (t.pc.Reading? || t.pc.Selecting?) && LatestMode(t.controller.attempts, ReachedExpander).None?
    ensures var c := Run(Initial(expander, charger), steps).controller;
            c.mode.Passive? && ExpanderShows(c.expander, Passive)
  {
    RunKeepsInv(Initial(expander, charger), steps);
    LaterReachesToo(Run(Initial(expander, charger), steps).controller.attempts, ReachedExpander);
  }

  /** Once the initial mode is set, under any transfer failures: the charger shows the mode
      of the latest switch that reached it, so charging and OTG are never both on. It shows
      the recorded mode exactly when that switch was to the recorded mode; otherwise a
      switch since the last successful one failed although the charger had taken it. */
  lemma ChargerFollowsSwitches(expander: bv8, charger: Charger, steps: seq<Step>)
    requires Run(Initial(expander, charger), steps).initialModeSet
    ensures var c := Run(Initial(expander, charger), steps).controller;
            var reached := LatestMode(c.attempts, ReachedCharger);
            && reached.Some? && ChargerShows(c.charger, reached.value)
            && !(c.charger.charging && c.charger.otg)
            && (ChargerShows(c.charger, c.mode) <==> reached.value == c.mode)
            && (reached.value != c.mode ==> FailedSince(c.attempts, ReachedCharger))
  {
    RunKeepsInv(Initial(expander, charger), steps);
    var c := Run(Initial(expander, charger), steps).controller;
    LaterReachesToo(c.attempts, ReachedCharger);
    if LatestMode(c.attempts, ReachedCharger) != LatestMode(c.attempts, Succeeded) {
      var k := DriftNeedsFailure(c.attempts, ReachedCharger);
    }
  }

  /** The charger shows the recorded mode unless a charger write has taken effect although
      it failed, with no successful switch since. */
  lemma ChargerShowsRecordedMode(expander: bv8, charger: Charger, steps: seq<Step>)
    requires var t := Run(Initial(expander, charger), steps);
             t.initialModeSet && !FailedSince(t.controller.attempts, ReachedCharger)
    ensures var c := Run(Initial(expander, charger), steps).controller;
            ChargerShows(c.charger, c.mode)
  {
    ChargerFollowsSwitches(expander, charger, steps);
  }

  /** The expander's charge-enable and VBUS-enable bits show the mode of the latest switch
      that reached the expander. They disagree with the recorded mode exactly when that
      switch was to another mode, and then a switch since the last successful one failed
      after its expander write had taken effect. */
  lemma ExpanderFollowsSwitches(expander: bv8, charger: Charger, steps: seq<Step>)
    requires Run(Initial(expander, charger), steps).initialModeSet
    ensures var c := Run(Initial(expander, charger), steps).controller;
            var reached := LatestMode(c.attempts, ReachedExpander);
            && reached.Some? && ExpanderShows(c.expander, reached.value)
            && (ExpanderShows(c.expander, c.mode) <==> reached.value == c.mode)
            && (reached.value != c.mode ==> FailedSince(c.attempts, ReachedExpander))
  {
    RunKeepsInv(Initial(expander, charger), steps);
    var c := Run(Initial(expander, charger), steps).controller;
    LaterReachesToo(c.attempts, ReachedExpander);
    if LatestMode(c.attempts, ReachedExpander) != LatestMode(c.attempts, Succeeded) {
      var k := DriftNeedsFailure(c.attempts, ReachedExpander);
    }
  }

  /** Plugged in when it starts, then unplugged with a charger write that fails. */
  function UnplugSteps(charger: Transfer): seq<Step> {
    [Start(Done, Done), ReadStats(Bus(Ok(0x00), Done, Done, Done)),
     Serve(CheckInterrupt, Bus(Ok(0x40), Done, charger, Done), Done)]
  }

  lemma UnplugRuns(expander: bv8, charger: Charger, write: Transfer)
    requires !write.Done?
    ensures var t := Run(Initial(expander, charger), UnplugSteps(write));
            && t.initialModeSet && t.controller.mode == Charging && ExpanderShows(t.controller.expander, Otg)
            && ChargerShows(t.controller.charger, if write.Landed? then Otg else Charging)
  {
    var steps := UnplugSteps(write);
    var t1 := Next(Initial(expander, charger), steps[0]);
    var t2 := Next(t1, steps[1]);
    var t3 := Next(t2, steps[2]);
    assert VbusPresent(0x00) && !VbusPresent(0x40);
    SettersAreExact(0x40, false, false);
    assert t2.controller.mode == Charging && t2.pc.Selecting?;
    assert ExpanderShows(t3.controller.expander, Otg);
    assert steps[1..][1..] == [steps[2]];
    assert Run(Initial(expander, charger), steps) == Run(t2, [steps[2]]) == t3;
  }

  /** The expander and the charger disagree in one run: a switch to OTG that fails at its
      charger write leaves the charger charging with the expander already set for OTG. */
  lemma HalfSwitchSplitsDevices(expander: bv8, charger: Charger)
    ensures exists steps ::
              var c := Run(Initial(expander, charger), steps).controller;
              && Run(Initial(expander, charger), steps).initialModeSet
              && c.mode == Charging && ChargerShows(c.charger, Charging) && ExpanderShows(c.expander, Otg)
  {
    UnplugRuns(expander, charger, Lost);
    hide Run, UnplugSteps, ChargerShows, ExpanderShows;
  }

  /** The charger leaves the recorded mode in another: its write has taken effect although
      it was reported as failed. */
  lemma LandedWriteDrifts(expander: bv8, charger: Charger)
    ensures exists steps ::
              var c := Run(Initial(expander, charger), steps).controller;
              && Run(Initial(expander, charger), steps).initialModeSet
              && c.mode == Charging && ChargerShows(c.charger, Otg)
  {
    UnplugRuns(expander, charger, Landed);
    hide Run, UnplugSteps, ChargerShows, ExpanderShows;
  }
}

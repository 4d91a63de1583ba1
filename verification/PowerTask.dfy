/** The power controller and its task with their fields updated in place. Outcomes of bus
    transfers are parameters. */
module PowerTask {
  import opened Power
  import opened Wrappers

  class PowerController {
    var mode: Mode
    var expander: bv8
    var charger: Charger
    var boost: bool
    ghost var attempts: seq<Attempt>

    ghost function Model(): Controller
      reads this
    {
      Controller(mode, expander, charger, boost, attempts)
    }

    constructor (expander: bv8, charger: Charger)
      ensures Model() == Controller(Passive, expander, charger, false, [])
    {
      mode, boost, attempts := Passive, false, [];
      this.expander, this.charger := expander, charger;
    }

    method SetExpander(byte: bv8, transfer: Transfer) returns (ok: bool)
      modifies `expander
      ensures expander == Written(transfer, old(expander), byte)
      ensures ok <==> transfer.Done?
    {
      if !transfer.Lost? {
        expander := byte;
      }
      ok := transfer.Done?;
    }

    method TransactCharger(regs: Charger, transfer: Transfer) returns (ok: bool)
      modifies `charger
      ensures charger == Written(transfer, old(charger), regs)
      ensures ok <==> transfer.Done?
    {
      if !transfer.Lost? {
        charger := regs;
      }
      ok := transfer.Done?;
    }

    method Setup(setup: Transfer, config: Transfer) returns (ready: bool)
      modifies this
      ensures (Model(), ready) == StartController(old(Model()), setup, config)
    {
      ready := SetExpander(0xFF, setup);
      if ready {
        ready := TransactCharger(charger.(watchdog := true, batfet := true), config);
      }
    }

    method Switch(newMode: Mode, stats: bv8, expanderWrite: Transfer, chargerWrite: Transfer)
      returns (r: Result<(), PowerError>)
      modifies this
      ensures (Model(), r) == SwitchMode(old(Model()), newMode, stats, expanderWrite, chargerWrite)
    {
      hide SetChrEn, SetVbusEnable;
      attempts := attempts + [Attempt(newMode, expanderWrite, chargerWrite)];
      var status := stats;
      var regs := charger;
      match newMode {
        case Passive =>
          status := SetChrEn(status, false);
          status := SetVbusEnable(status, true);
          regs := charger.(charging := false, otg := false);
        case Charging =>
          status := SetChrEn(status, true);
          status := SetVbusEnable(status, true);
          regs := charger.(charging := true, otg := false);
        case Otg =>
          status := SetChrEn(status, false);
          status := SetVbusEnable(status, false);
          regs := charger.(charging := false, otg := true);
      }
      var ok := SetExpander(status, expanderWrite);
      if !ok {
        return Err(I2CExpanderError);
      }
      ok := TransactCharger(regs, chargerWrite);
      if !ok {
        return Err(I2cBusError);
      }
      mode := newMode;
      r := Ok(());
    }

    method Ship(stats: bv8, bus: Bus) returns (r: Result<(), PowerError>)
      modifies this
      ensures (Model(), r) == EnterShippingMode(old(Model()), stats, bus.expander, bus.charger, bus.ship)
    {
      r := Switch(Charging, stats, bus.expander, bus.charger);
      if r.Err? {
        return;
      }
      var ok := TransactCharger(charger.(watchdog := false, batfet := false), bus.ship);
      r := if ok then Ok(()) else Err(I2cBusError);
    }

    method HandleInterruptLine(bus: Bus) returns (r: Result<(), PowerError>)
      modifies this
      ensures (Model(), r) == HandleInterrupt(old(Model()), bus)
    {
      match bus.stats
      case Err(e) => r := Err(e);
      case Ok(status) =>
        r := Ok(());
        match mode {
          case Otg =>
            if VbusPresent(status) {
              r := Switch(Charging, status, bus.expander, bus.charger);
            }
          case _ =>
            if !VbusPresent(status) {
              r := Switch(Otg, status, bus.expander, bus.charger);
            }
        }
    }

    method Handle(request: Request, bus: Bus) returns (r: Result<(), PowerError>)
      modifies this
      ensures (Model(), r) == HandleRequest(old(Model()), request, bus)
    {
      match request
      case EnableBoostConverter(enable) =>
        boost := enable;
        r := Ok(());
      case CheckInterrupt => r := HandleInterruptLine(bus);
      case EnterShipping =>
        match bus.stats {
          case Err(e) => r := Err(e);
          case Ok(status) => r := Ship(status, bus);
        }
      case EnterPassive =>
        match bus.stats {
          case Err(e) => r := Err(e);
          case Ok(status) => r := Switch(Passive, status, bus.expander, bus.charger);
        }
    }
  }

  class PowerControllerTask {
    const pctl: PowerController
    var pc: TaskPc
    var initialModeSet: bool

    ghost function Model(): Task
      reads this, pctl
    {
      Task(pc, initialModeSet, pctl.Model())
    }

    constructor (expander: bv8, charger: Charger)
      ensures Model() == Initial(expander, charger)
      ensures fresh(pctl)
    {
      pctl := new PowerController(expander, charger);
      pc, initialModeSet := Starting, false;
    }

    /** The top of the loop: nothing is served before the initial mode has been set. */
    method ReadAndInitialize(bus: Bus)
      requires pc.Reading?
      modifies this, pctl
      ensures Model() == ReadTop(old(Model()), bus)
    {
      if bus.stats.Err? {
        return;
      }
      var status := bus.stats.value;
      if !initialModeSet {
        var initialMode := InitialMode(status);
        var r := pctl.Switch(initialMode, status, bus.expander, bus.charger);
        if r.Err? {
          return;
        }
        initialModeSet := true;
      }
      pc := Selecting;
    }

    /** The loop of the task over any sequence of events and transfer outcomes. */
    method Execute(steps: seq<Step>)
      requires Inv(Model())
      modifies this, pctl
      ensures Model() == Run(old(Model()), steps) && Inv(Model())
    {
      var i := 0;
      while i < |steps|
        invariant 0 <= i <= |steps|
        invariant Inv(Model())
        invariant Run(Model(), steps[i..]) == Run(old(Model()), steps)
      {
        assert steps[i..][1..] == steps[i + 1..];
        NextKeepsInv(Model(), steps[i]);
        hide Inv, HandleRequest, ReadTop, StartController;
        match steps[i] {
          case Start(setup, config) =>
            if pc.Starting? {
              var ready := pctl.Setup(setup, config);
              pc := if ready then Reading else Stopped;
            }
          case ReadStats(bus) =>
            if pc.Reading? {
              ReadAndInitialize(bus);
            }
          case Timeout(_) =>
            if pc.Selecting? {
              pc := Reading;
            }
          case Serve(request, bus, _) =>
            if pc.Selecting? {
              var response := pctl.Handle(request, bus);
              pc := Reading;
            }
        }
        i := i + 1;
      }
    }
  }
}

/** What every interleaving of the two sequencer tasks keeps. */
module FireSequencerSafety {
  import opened FireSequencer

  // ---------------------------------------------------------------------------
  // The inductive invariant
  // ---------------------------------------------------------------------------

  /** The command counts follow the cycle Armed, Fire, PostFire. */
  ghost predicate CommandCycle(task: StateTask, log: CommandLog) {
    && |log.fires| == log.ends + (if task.state == StateStatus.Fire then 1 else 0)
    && log.ends == log.resets + (if task.state == PostFire then 1 else 0)
    && log.shutters == |log.fires| + log.ends
    && (task.pc != StateLoop ==> task.state == Armed)
  }

  ghost predicate FiresSafe(fires: seq<Accepted>, now: nat) {
    forall k :: 0 <= k < |fires| ==> fires[k].pinHigh && fires[k].time <= now
  }

  function NewestCharge(decisions: seq<Decision>): int {
    if decisions == [] then -1 else decisions[|decisions| - 1].charge.index
  }

  /** `charge` names an accepted Fire at least `age` milliseconds old at `time`. */
  ghost predicate ChargedTo(fires: seq<Accepted>, charge: nat, time: nat, age: nat) {
    charge < |fires| && fires[charge].pinHigh && fires[charge].time + age <= time
  }

  /** The running countdown is charged to a Fire no decision was charged to, and the
      cancel signal tells whether that Fire has been ended since the countdown began. */
  ghost predicate CountdownSound(pc: FirePc, cancel: bool, hist: History) {
    pc.Countdown? ==>
      && ChargedTo(hist.log.fires, hist.charge.index, pc.deadline, FIRE_BUZZER_DURATION_MS)
      && NewestCharge(hist.decisions) < hist.charge.index
      && (hist.charge.index < hist.log.ends <==> !hist.charge.burning || cancel)
  }

  /** A pending activation was raised by a Fire newer than anything charged so far. */
  ghost predicate ActivationFresh(pc: FirePc, activate: bool, hist: History) {
    && NewestCharge(hist.decisions) < |hist.log.fires|
    && (activate ==>
          && NewestCharge(hist.decisions) < |hist.log.fires| - 1
          && (pc.Countdown? ==> hist.charge.index < |hist.log.fires| - 1))
  }

  function Outstanding(pc: FirePc, activate: bool): nat {
    (if pc.Countdown? then 1 else 0) + (if activate then 1 else 0)
  }

  ghost predicate Inv(s: Sequencer) {
    && |s.shared.channel| <= CHANNEL_CAPACITY
    && s.shared.currentState == StatusCode(s.task.state)
    && CommandCycle(s.task, s.hist.log)
    && FiresSafe(s.hist.log.fires, s.world.now)
    && CountdownSound(s.fire.pc, s.shared.cancel, s.hist)
    && ActivationFresh(s.fire.pc, s.shared.activate, s.hist)
    && |s.hist.decisions| + Outstanding(s.fire.pc, s.shared.activate) <= |s.hist.log.fires|
  }

  lemma HandleCommandKeepsInv(s: Sequencer, command: StateCommand, written: bool)
    requires Inv(s) && s.task.pc == StateLoop
    ensures Inv(HandleCommand(s, command, written))
  {
  }

  lemma HandleMessageKeepsInv(s: Sequencer, message: SequencerMessage, written: bool)
    requires Inv(s) && s.task.pc == StateLoop
    ensures Inv(HandleMessage(s, message, written))
  {
    match message
    case Command(command) =>
      hide Inv;
      HandleCommandKeepsInv(s, command, written);
    case BuzzerComplete =>
  }

  lemma PollFireKeepsInv(s: Sequencer, written: bool)
    requires Inv(s)
    ensures Inv(PollFire(s, written))
  {
  }

  lemma PollStateKeepsInv(s: Sequencer, written: bool)
    requires Inv(s)
    ensures Inv(PollState(s, written))
  {
    hide HandleMessage;
    if s.task.pc == StateLoop && s.shared.channel != [] {
      var popped := s.(shared := s.shared.(channel := s.shared.channel[1..]));
      assert Inv(popped);
      HandleMessageKeepsInv(popped, s.shared.channel[0], written);
    }
  }

  lemma NextKeepsInv(s: Sequencer, step: Step)
    requires Inv(s)
    ensures Inv(Next(s, step))
  {
    hide PollFire, PollState;
    match step
    case PollFireTask(written) => PollFireKeepsInv(s, written);
    case PollStateTask(written) => PollStateKeepsInv(s, written);
    case _ =>
  }

  // ---------------------------------------------------------------------------
  // The log of decisions
  // ---------------------------------------------------------------------------

  ghost predicate DecisionSound(fires: seq<Accepted>, d: Decision) {
    match d
    case Ignite(charge, time, cancelPending, ended, state) =>
      && ChargedTo(fires, charge.index, time, FIRE_BUZZER_DURATION_MS)
      && (ended <==> !charge.burning || cancelPending)
      && (state != StateStatus.Fire ==> ended)
    case Abort(charge, time, ended) =>
      ChargedTo(fires, charge.index, time, 0) && ended
  }

  ghost predicate DecisionsSound(fires: seq<Accepted>, decisions: seq<Decision>) {
    forall i :: 0 <= i < |decisions| ==> DecisionSound(fires, decisions[i])
  }

  ghost predicate ChargesIncrease(decisions: seq<Decision>) {
    forall i, j :: 0 <= i < j < |decisions| ==> decisions[i].charge.index < decisions[j].charge.index
  }

  /** The log of accepted commands only grows, and a step takes at most one decision. */
  ghost predicate Grows(s: History, t: History) {
    && s.log.fires <= t.log.fires
    && s.log.ends <= t.log.ends
    && (t.decisions == s.decisions ||
        (&& |t.decisions| == |s.decisions| + 1
         && s.decisions <= t.decisions
         && NewestCharge(s.decisions) < NewestCharge(t.decisions)
         && DecisionSound(t.log.fires, t.decisions[|s.decisions|])))
  }

  lemma PollFireGrows(s: Sequencer, written: bool)
    requires Inv(s)
    ensures Grows(s.hist, PollFire(s, written).hist)
  {
  }

  lemma PollStateGrows(s: Sequencer, written: bool)
    ensures Grows(s.hist, PollState(s, written).hist)
  {
  }

  lemma NextGrows(s: Sequencer, step: Step)
    requires Inv(s)
    ensures Grows(s.hist, Next(s, step).hist)
  {
    hide Inv, PollFire, PollState;
    match step
    case PollFireTask(written) => PollFireGrows(s, written);
    case PollStateTask(written) => PollStateGrows(s, written);
    case _ =>
  }

  lemma GrowingKeepsLog(s: History, t: History)
    requires Grows(s, t)
    requires DecisionsSound(s.log.fires, s.decisions) && ChargesIncrease(s.decisions)
    ensures DecisionsSound(t.log.fires, t.decisions) && ChargesIncrease(t.decisions)
  {
    forall i | 0 <= i < |t.decisions|
      ensures DecisionSound(t.log.fires, t.decisions[i])
    {
      if i < |s.decisions| {
        assert DecisionSound(s.log.fires, s.decisions[i]);
      }
    }
  }

  lemma {:induction false} RunKeepsAll(s: Sequencer, steps: seq<Step>)
    requires Inv(s)
    requires DecisionsSound(s.hist.log.fires, s.hist.decisions) && ChargesIncrease(s.hist.decisions)
    ensures var t := Run(s, steps);
            && Inv(t)
            && DecisionsSound(t.hist.log.fires, t.hist.decisions)
            && ChargesIncrease(t.hist.decisions)
            && s.hist.decisions <= t.hist.decisions
            && s.hist.log.fires <= t.hist.log.fires
    decreases |steps|
  {
    hide Inv, Next, DecisionsSound, ChargesIncrease;
    if steps != [] {
      var t := Next(s, steps[0]);
      NextKeepsInv(s, steps[0]);
      NextGrows(s, steps[0]);
      GrowingKeepsLog(s.hist, t.hist);
      RunKeepsAll(t, steps[1..]);
    }
  }

  lemma Boot(pinHigh: bool)
    ensures Inv(Initial(pinHigh))
    ensures var h := Initial(pinHigh).hist;
            DecisionsSound(h.log.fires, h.decisions) && ChargesIncrease(h.decisions)
  {
  }

  // ---------------------------------------------------------------------------
  // Ignition
  // ---------------------------------------------------------------------------

  /** Every ignition is charged to its own accepted Fire, which saw the safety pin high
      at least 3000 ms earlier. That Fire has been ended before the ignition exactly when
      the state was already not Fire as the countdown began, or the cancel signal was
      pending at the deciding poll; only then can the state be other than Fire. */
  lemma EveryIgnition(pinHigh: bool, steps: seq<Step>, i: nat)
    requires var h := Run(Initial(pinHigh), steps).hist;
             i < |h.decisions| && h.decisions[i].Ignite?
    ensures var h := Run(Initial(pinHigh), steps).hist;
            var d := h.decisions[i];
            && d.charge.index < |h.log.fires|
            && h.log.fires[d.charge.index].pinHigh
            && h.log.fires[d.charge.index].time + 3000 <= d.time
            && (d.ended <==> !d.charge.burning || d.cancelPending)
            && (d.state != StateStatus.Fire ==> d.ended)
  {
    Boot(pinHigh);
    RunKeepsAll(Initial(pinHigh), steps);
  }

  /** In a schedule where no countdown begins outside Fire and no cancel is pending at a
      deciding poll, every ignition happens in state Fire. */
  lemma IgnitionOnlyInFire(pinHigh: bool, steps: seq<Step>)
    requires var decisions := Run(Initial(pinHigh), steps).hist.decisions;
             forall i :: 0 <= i < |decisions| && decisions[i].Ignite? ==>
               decisions[i].charge.burning && !decisions[i].cancelPending
    ensures var decisions := Run(Initial(pinHigh), steps).hist.decisions;
            forall i :: 0 <= i < |decisions| && decisions[i].Ignite? ==>
              decisions[i].state == StateStatus.Fire
  {
    var decisions := Run(Initial(pinHigh), steps).hist.decisions;
    forall i | 0 <= i < |decisions| && decisions[i].Ignite?
      ensures decisions[i].state == StateStatus.Fire
    {
      EveryIgnition(pinHigh, steps, i);
    }
  }

  /** Triggers, aborts, the running countdown and the pending activation are each paid
      for by an accepted Fire of their own. */
  lemma DecisionsArePaidFor(pinHigh: bool, steps: seq<Step>)
    ensures var s := Run(Initial(pinHigh), steps);
            && |s.hist.decisions| + Outstanding(s.fire.pc, s.shared.activate) <= |s.hist.log.fires|
            && (forall i, j :: 0 <= i < j < |s.hist.decisions| ==>
                  s.hist.decisions[i].charge.index < s.hist.decisions[j].charge.index)
  {
    Boot(pinHigh);
    RunKeepsAll(Initial(pinHigh), steps);
  }

  /** An abort only ever answers an accepted FireEnd. */
  lemma EveryAbort(pinHigh: bool, steps: seq<Step>, i: nat)
    requires var h := Run(Initial(pinHigh), steps).hist;
             i < |h.decisions| && h.decisions[i].Abort?
    ensures var h := Run(Initial(pinHigh), steps).hist;
            var d := h.decisions[i];
            d.ended && d.charge.index < |h.log.fires| && h.log.fires[d.charge.index].time <= d.time
  {
    Boot(pinHigh);
    RunKeepsAll(Initial(pinHigh), steps);
  }

  /** Accepted commands follow the cycle Armed, Fire, PostFire, the shutter goes off once for
      every accepted Fire and FireEnd, and the atomic always holds the state of the task. */
  lemma CommandsFollowCycle(pinHigh: bool, steps: seq<Step>)
    ensures var s := Run(Initial(pinHigh), steps);
            var log := s.hist.log;
            && 0 <= |log.fires| - log.ends <= 1 && 0 <= log.ends - log.resets <= 1
            && (s.task.state == StateStatus.Fire <==> |log.fires| == log.ends + 1)
            && (s.task.state == PostFire <==> log.ends == log.resets + 1)
            && log.shutters == |log.fires| + log.ends
            && s.shared.currentState == StatusCode(s.task.state)
            && (forall k :: 0 <= k < |log.fires| ==> log.fires[k].pinHigh)
  {
    Boot(pinHigh);
    RunKeepsAll(Initial(pinHigh), steps);
  }

  /** The answer to each command: what is accepted in which state, and what that changes. A
      poll handles exactly the oldest message; everything else is refused without effect. */
  lemma CommandsAreAnswered(s: Sequencer, written: bool)
    requires s.task.pc == StateLoop && s.shared.channel != [] && s.shared.channel[0].Command?
    ensures var c := s.shared.channel[0].command;
            var t := PollState(s, written);
            var fire := c.Fire? && s.task.state == Armed && s.world.pinHigh;
            var end := c.FireEnd? && s.task.state == StateStatus.Fire;
            var reset := c.FireReset? && s.task.state == PostFire;
            && t.shared.channel == s.shared.channel[1..]
            && t.task.state == (if fire then StateStatus.Fire else if end then PostFire
                                else if reset then Armed else s.task.state)
            && t.shared.activate == (s.shared.activate || fire)
            && t.shared.cancel == (s.shared.cancel || end)
            && t.shared.currentState == (if fire then 1 else if end then 2 else if reset then 0
                                         else s.shared.currentState)
            && t.hist.log.fires == s.hist.log.fires + (if fire then [Accepted(s.world.now, true)] else [])
            && t.hist.log.ends == s.hist.log.ends + (if end then 1 else 0)
            && t.hist.log.resets == s.hist.log.resets + (if reset then 1 else 0)
            && t.hist.log.shutters == s.hist.log.shutters + (if fire || end then 1 else 0)
            && (written && (fire || end || reset) ==>
                  t.task.light == if fire then LIGHT_FIRE_BUZZER else if end then LIGHT_POST_FIRE else LIGHT_ARMED)
            && (!fire && !end && !reset ==> t.(shared := s.shared) == s)
            && t.world == s.world && t.fire == s.fire && t.hist.decisions == s.hist.decisions
  {
  }

  /** With no message waiting a poll reports the level of the armed pin if it has changed,
      and the edge does not wait any longer. A change of the level is such an edge. */
  lemma EdgesAreHandled(s: Sequencer, written: bool)
    requires s.task.pc == StateLoop && s.shared.channel == []
    ensures var t := PollState(s, written);
            && !t.world.edge
            && (s.world.edge ==> t.shared.lastArmed == if s.world.pinHigh then 1 else 0)
            && t.(world := s.world, shared := s.shared) == s
            && (!s.world.edge ==> t == s)
    ensures forall high ::
              var t := Next(s, ChangePin(high));
              t.world.pinHigh == high && (t.world.edge <==> s.world.edge || high != s.world.pinHigh)
  {
  }

  // ---------------------------------------------------------------------------
  // The length of the countdown
  // ---------------------------------------------------------------------------

  /** A countdown that began at `start` is under way and nothing has cancelled it. */
  ghost predicate CountsFrom(start: nat, ends: nat, s: Sequencer) {
    && s.fire.pc == Countdown(start + 3000)
    && s.hist.log.ends >= ends && (s.hist.log.ends == ends ==> !s.shared.cancel)
    && s.world.now >= start
  }

  lemma StepKeepsCount(start: nat, ends: nat, s: Sequencer, step: Step)
    requires CountsFrom(start, ends, s)
    requires step.PollFireTask? ==> s.world.now < start + 3000
    ensures var t := Next(s, step);
            && t.hist.log.ends >= s.hist.log.ends && t.world.now >= s.world.now
            && (s.hist.log.ends == ends ==>
                  CountsFrom(start, ends, t) && t.hist.decisions == s.hist.decisions
                  && t.hist.charge == s.hist.charge)
  {
  }

  lemma {:induction false} OnlyForward(s: Sequencer, steps: seq<Step>)
    ensures Run(s, steps).hist.log.ends >= s.hist.log.ends && Run(s, steps).world.now >= s.world.now
    decreases |steps|
  {
    if steps != [] {
      StepForward(s, steps[0]);
      hide Next;
      OnlyForward(Next(s, steps[0]), steps[1..]);
    }
  }

  lemma StepForward(s: Sequencer, step: Step)
    ensures Next(s, step).hist.log.ends >= s.hist.log.ends && Next(s, step).world.now >= s.world.now
  {
  }

  lemma {:induction false} RunKeepsCount(start: nat, ends: nat, s: Sequencer, steps: seq<Step>)
    requires CountsFrom(start, ends, s) && s.hist.log.ends == ends
    requires Run(s, steps).hist.log.ends == ends
    requires Run(s, steps).world.now < start + 3000 || NoFirePoll(steps)
    ensures CountsFrom(start, ends, Run(s, steps))
    ensures Run(s, steps).hist.decisions == s.hist.decisions && Run(s, steps).hist.charge == s.hist.charge
    decreases |steps|
  {
    hide Next, CountsFrom;
    if steps != [] {
      var t := Next(s, steps[0]);
      OnlyForward(t, steps[1..]);
      StepForward(s, steps[0]);
      StepKeepsCount(start, ends, s, steps[0]);
      RunKeepsCount(start, ends, t, steps[1..]);
    }
  }

  /** An activation is consumed and no FireEnd is accepted afterwards. In every run each poll
      of the fire task within the next 3000 ms decides nothing, and the first one after them
      ignites, charged to the latest Fire: `early` are the steps within that time, and
      `waiting` brings the fire task no poll before the one looked at. */
  lemma CountdownLastsThreeSeconds(pinHigh: bool, before: seq<Step>, written: bool,
                                   early: seq<Step>, waiting: seq<Step>, trigger: bool)
    requires var s := Run(Initial(pinHigh), before);
             s.fire.pc == AwaitActivate && s.shared.activate
    requires NoFirePoll(waiting)
    requires var s := Run(Initial(pinHigh), before);
             var m := Run(PollFire(s, written), early);
             m.world.now < s.world.now + 3000 && Run(m, waiting).hist.log.ends == s.hist.log.ends
    ensures var s := Run(Initial(pinHigh), before);
            var u := Run(Run(PollFire(s, written), early), waiting);
            var t := PollFire(u, trigger);
            && u.hist.decisions == s.hist.decisions
            && (u.world.now < s.world.now + 3000 ==> t == u)
            && (u.world.now >= s.world.now + 3000 ==>
                  && |t.hist.decisions| == |s.hist.decisions| + 1 && s.hist.decisions <= t.hist.decisions
                  && var d := t.hist.decisions[|s.hist.decisions|];
                     && d.Ignite? && d.time == u.world.now && d.state == u.task.state && !d.cancelPending
                     && d.charge.index + 1 == |s.hist.log.fires|
                     && d.charge.burning == (s.task.state == StateStatus.Fire)
                     && (trigger ==> t.fire.igniting)
                     && (|u.shared.channel| < 4 ==> t.shared.channel == u.shared.channel + [BuzzerComplete]))
  {
    ReachableSound(pinHigh, before);
    hide Run;
    var s := Run(Initial(pinHigh), before);
    assert s.hist.log.fires != [];
    var c := PollFire(s, written);
    var m := Run(c, early);
    CountedSteps(s.world.now, s.hist.log.ends, c, early, waiting);
    assert c.hist.charge == Charge(|s.hist.log.fires| - 1, s.task.state == StateStatus.Fire);
    hide Sound;
  }

  lemma CountedSteps(start: nat, ends: nat, c: Sequencer, early: seq<Step>, waiting: seq<Step>)
    requires CountsFrom(start, ends, c) && c.hist.log.ends == ends && NoFirePoll(waiting)
    requires var m := Run(c, early); m.world.now < start + 3000 && Run(m, waiting).hist.log.ends == ends
    ensures var u := Run(Run(c, early), waiting);
            && CountsFrom(start, ends, u) && u.hist.decisions == c.hist.decisions && u.hist.charge == c.hist.charge
  {
    hide Run, CountsFrom, NoFirePoll;
    var m := Run(c, early);
    OnlyForward(c, early);
    OnlyForward(m, waiting);
    RunKeepsCount(start, ends, c, early);
    RunKeepsCount(start, ends, m, waiting);
  }

  // ---------------------------------------------------------------------------
  // The race between the timer and an accepted FireEnd
  // ---------------------------------------------------------------------------

  ghost predicate NoFirePoll(steps: seq<Step>) {
    forall i :: 0 <= i < |steps| ==> !steps[i].PollFireTask?
  }

  lemma StepLeavesCountdown(s: Sequencer, step: Step)
    requires s.fire.pc.Countdown? && !step.PollFireTask?
    ensures var t := Next(s, step);
            && t.fire == s.fire
            && t.hist.charge == s.hist.charge
            && t.hist.decisions == s.hist.decisions
            && (s.shared.cancel ==> t.shared.cancel)
  {
  }

  lemma {:induction false} CancelStaysPending(s: Sequencer, steps: seq<Step>)
    requires s.fire.pc.Countdown? && s.shared.cancel && NoFirePoll(steps)
    ensures var t := Run(s, steps);
            && t.fire == s.fire
            && t.shared.cancel
            && t.hist.charge == s.hist.charge
            && t.hist.decisions == s.hist.decisions
    decreases |steps|
  {
    hide Next;
    if steps != [] {
      StepLeavesCountdown(s, steps[0]);
      CancelStaysPending(Next(s, steps[0]), steps[1..]);
    }
  }

  /** A FireEnd is accepted while a countdown runs and other steps follow, whatever
      commands they accept. The next poll of the fire task aborts the countdown when it
      comes before the deadline and ignites, in vain cancelled, when it does not. */
  lemma AcceptedEndRacesTimer(s: Sequencer, written: bool, between: seq<Step>, trigger: bool)
    requires s.fire.pc.Countdown? && s.task.pc == StateLoop && s.task.state == StateStatus.Fire
    requires s.shared.channel != [] && s.shared.channel[0] == Command(FireEnd)
    requires NoFirePoll(between)
    ensures var u := Run(PollState(s, written), between);
            var t := PollFire(u, trigger);
            var ended := s.hist.charge.index < u.hist.log.ends;
            && t.fire.pc == AwaitActivate
            && (u.world.now < s.fire.pc.deadline ==>
                  && t.hist.decisions == s.hist.decisions + [Abort(s.hist.charge, u.world.now, ended)]
                  && (trigger ==> !t.fire.igniting) && !t.shared.cancel)
            && (u.world.now >= s.fire.pc.deadline ==>
                  t.hist.decisions ==
                  s.hist.decisions + [Ignite(s.hist.charge, u.world.now, true, ended, u.task.state)])
  {
    CancelStaysPending(PollState(s, written), between);
  }

  /** The next message is a FireEnd that will be accepted. */
  ghost predicate EndNext(s: Sequencer) {
    && s.task.pc == StateLoop && s.task.state == StateStatus.Fire
    && s.shared.channel != [] && s.shared.channel[0] == Command(FireEnd)
  }

  /** The latest decision in `t` is an abort that `s` does not have, charged to `f`. */
  ghost predicate AbortsNow(s: Sequencer, t: Sequencer, f: nat) {
    && |t.hist.decisions| == |s.hist.decisions| + 1
    && t.hist.decisions[|s.hist.decisions|].Abort?
    && t.hist.decisions[|s.hist.decisions|].charge.index == f
  }

  lemma {:induction false} NoPollNoDecision(s: Sequencer, steps: seq<Step>)
    requires NoFirePoll(steps)
    ensures Run(s, steps).hist.decisions == s.hist.decisions
    ensures !s.fire.pc.Countdown? ==> !Run(s, steps).fire.pc.Countdown?
    decreases |steps|
  {
    if steps != [] {
      StepDecidesNothing(s, steps[0]);
      hide Next;
      NoPollNoDecision(Next(s, steps[0]), steps[1..]);
    }
  }

  lemma StepDecidesNothing(s: Sequencer, step: Step)
    requires !step.PollFireTask?
    ensures Next(s, step).hist.decisions == s.hist.decisions
    ensures !s.fire.pc.Countdown? ==> !Next(s, step).fire.pc.Countdown?
  {
  }

  /** In every run an accepted FireEnd makes the next poll of the fire task abort the firing
      it ends, releasing the trigger, if and only if the countdown charged to that firing is
      running and the poll comes before its deadline. */
  lemma EndAbortsItsFiringIff(
      pinHigh: bool, before: seq<Step>, written: bool, between: seq<Step>, trigger: bool)
    requires EndNext(Run(Initial(pinHigh), before)) && NoFirePoll(between)
    ensures var s := Run(Initial(pinHigh), before);
            var u := Run(PollState(s, written), between);
            var t := PollFire(u, trigger);
            var f := Latest(s.hist.log.fires);
            && (AbortsNow(s, t, f) <==>
                s.fire.pc.Countdown? && s.hist.charge.index == f && u.world.now < s.fire.pc.deadline)
            && (AbortsNow(s, t, f) && trigger ==> !t.fire.igniting)
  {
    hide Run;
    var s := Run(Initial(pinHigh), before);
    var u := Run(PollState(s, written), between);
    if s.fire.pc.Countdown? {
      AcceptedEndRacesTimer(s, written, between, trigger);
    } else {
      StepDecidesNothing(s, PollStateTask(written));
      hide PollState;
      NoPollNoDecision(PollState(s, written), between);
    }
  }

  ghost predicate Sound(s: Sequencer) {
    && Inv(s)
    && DecisionsSound(s.hist.log.fires, s.hist.decisions)
    && ChargesIncrease(s.hist.decisions)
  }

  lemma RunKeepsSound(s: Sequencer, steps: seq<Step>)
    requires Sound(s)
    ensures Sound(Run(s, steps)) && s.hist.decisions <= Run(s, steps).hist.decisions
  {
    hide Inv, Run, DecisionsSound, ChargesIncrease;
    RunKeepsAll(s, steps);
  }

  lemma ReachableSound(pinHigh: bool, steps: seq<Step>)
    ensures Sound(Run(Initial(pinHigh), steps))
  {
    Boot(pinHigh);
    hide Run, Inv;
    RunKeepsSound(Initial(pinHigh), steps);
  }

  lemma NextKeepsSound(s: Sequencer, step: Step)
    requires Sound(s)
    ensures Sound(Next(s, step))
  {
    hide Next, Inv, DecisionsSound, ChargesIncrease;
    NextKeepsInv(s, step);
    NextGrows(s, step);
    GrowingKeepsLog(s.hist, Next(s, step).hist);
  }

  lemma AbortIsFinal(s: Sequencer, after: seq<Step>, i: nat, j: nat)
    requires Sound(s) && i < |s.hist.decisions| && s.hist.decisions[i].Abort?
    requires j < |Run(s, after).hist.decisions|
    ensures var d := Run(s, after).hist.decisions[j];
            d.Ignite? ==> d.charge.index != s.hist.decisions[i].charge.index
  {
    hide Run, Inv, DecisionsSound;
    RunKeepsSound(s, after);
    assert Run(s, after).hist.decisions[i] == s.hist.decisions[i];
  }

  /** Once a countdown has been aborted, no ignition is ever charged to its Fire. */
  lemma AbortedNeverIgnites(pinHigh: bool, before: seq<Step>, after: seq<Step>, i: nat, j: nat)
    requires var s := Run(Initial(pinHigh), before);
             i < |s.hist.decisions| && s.hist.decisions[i].Abort?
    requires j < |Run(Run(Initial(pinHigh), before), after).hist.decisions|
    ensures var s := Run(Initial(pinHigh), before);
            var d := Run(s, after).hist.decisions[j];
            d.Ignite? ==> d.charge.index != s.hist.decisions[i].charge.index
  {
    ReachableSound(pinHigh, before);
    hide Run, Sound;
    AbortIsFinal(Run(Initial(pinHigh), before), after, i, j);
  }

  /** The next message ends the firing whose countdown runs. */
  ghost predicate FireEndNext(s: Sequencer) {
    s.fire.pc.Countdown? && EndNext(s)
  }

  lemma EndAborts(s: Sequencer, written: bool, between: seq<Step>, trigger: bool)
    requires Sound(s) && FireEndNext(s) && NoFirePoll(between)
    requires Run(PollState(s, written), between).world.now < s.fire.pc.deadline
    ensures var t := PollFire(Run(PollState(s, written), between), trigger);
            var n := |s.hist.decisions|;
            && Sound(t) && n < |t.hist.decisions|
            && t.hist.decisions[n].Abort? && t.hist.decisions[n].charge == s.hist.charge
  {
    hide Run, PollState, PollFire, Sound, NoFirePoll;
    AcceptedEndRacesTimer(s, written, between, trigger);
    NextKeepsSound(s, PollStateTask(written));
    RunKeepsSound(PollState(s, written), between);
    NextKeepsSound(Run(PollState(s, written), between), PollFireTask(trigger));
  }

  /** A FireEnd accepted after the countdown began, and a poll of the fire task before the
      deadline: in no continuation is an ignition charged to that countdown's Fire, whatever
      is accepted before or after that poll. */
  lemma EndBeforeDeadlineNeverIgnites(
      pinHigh: bool, before: seq<Step>, written: bool, between: seq<Step>, trigger: bool, after: seq<Step>, j: nat)
    requires FireEndNext(Run(Initial(pinHigh), before)) && NoFirePoll(between)
    requires var s := Run(Initial(pinHigh), before);
             var u := Run(PollState(s, written), between);
             u.world.now < s.fire.pc.deadline && j < |Run(PollFire(u, trigger), after).hist.decisions|
    ensures var s := Run(Initial(pinHigh), before);
            var d := Run(PollFire(Run(PollState(s, written), between), trigger), after).hist.decisions[j];
            d.Ignite? ==> d.charge.index != s.hist.charge.index
  {
    ReachableSound(pinHigh, before);
    hide Run, PollState, PollFire, Sound, NoFirePoll, Initial;
    var s := Run(Initial(pinHigh), before);
    EndAborts(s, written, between, trigger);
    hide FireEndNext;
    AbortIsFinal(PollFire(Run(PollState(s, written), between), trigger), after, |s.hist.decisions|, j);
  }
}

/** When the buzzer of a firing stops: which BuzzerComplete messages reach it and whose. */
module FireSequencerBuzzer {
  import opened FireSequencer
  import opened FireSequencerSafety
  import opened FireSequencerTower

  // ---------------------------------------------------------------------------
  // Working off the channel
  // ---------------------------------------------------------------------------

  const FIRE_END := Command(FireEnd)

  /** A BuzzerComplete comes before any FireEnd. */
  predicate BuzzerFirst(channel: seq<SequencerMessage>)
    decreases |channel|
  {
    channel != [] && (channel[0] == BuzzerComplete || (channel[0] != FIRE_END && BuzzerFirst(channel[1..])))
  }

  lemma {:induction false} BuzzerFirstAppend(channel: seq<SequencerMessage>, message: SequencerMessage)
    ensures BuzzerFirst(channel + [message]) <==>
            BuzzerFirst(channel) || (FIRE_END !in channel && message == BuzzerComplete)
    decreases |channel|
  {
    if channel != [] {
      assert (channel + [message])[1..] == channel[1..] + [message];
      BuzzerFirstAppend(channel[1..], message);
    }
  }

  lemma {:induction false} BuzzerFirstWithoutEnd(channel: seq<SequencerMessage>)
    requires FIRE_END !in channel
    ensures BuzzerFirst(channel) <==> BuzzerComplete in channel
    decreases |channel|
  {
    if channel != [] {
      BuzzerFirstWithoutEnd(channel[1..]);
    }
  }

  function Polls(n: nat): (steps: seq<Step>)
    ensures |steps| == n
  {
    if n == 0 then [] else [PollStateTask(true)] + Polls(n - 1)
  }

  lemma RunPolls(s: Sequencer, n: nat)
    requires n > 0
    ensures Run(s, Polls(n)) == Run(PollState(s, true), Polls(n - 1))
  {
    hide PollState, PollFire;
    assert Polls(n)[1..] == Polls(n - 1);
  }

  /** A message that is no FireEnd, handled in state Fire. */
  lemma PollInFire(s: Sequencer)
    requires s.task.pc == StateLoop && s.task.state == StateStatus.Fire
    requires s.shared.channel != [] && s.shared.channel[0] != FIRE_END
    ensures var t := PollState(s, true);
            && t.task.pc == StateLoop && t.task.state == StateStatus.Fire
            && t.shared.channel == s.shared.channel[1..] && t.hist.log == s.hist.log
            && t.task.light == (if s.shared.channel[0] == BuzzerComplete then LIGHT_FIRE else s.task.light)
            && (s.shared.channel[0] == BuzzerComplete ==>
                  t.hist.buzzer.silences == s.hist.buzzer.silences +
                  [Silence(Latest(s.hist.log.fires),
                           if s.hist.buzzer.charges == [] then 0 else s.hist.buzzer.charges[0], s.world.now)])
            && (s.shared.channel[0] != BuzzerComplete ==> t.hist == s.hist)
  {
  }

  lemma {:induction false} QueueHandled(s: Sequencer)
    requires s.task.pc == StateLoop && s.task.state == StateStatus.Fire && FIRE_END !in s.shared.channel
    ensures var t := Run(s, Polls(|s.shared.channel|));
            && t.shared.channel == [] && t.task.state == StateStatus.Fire && t.hist.log == s.hist.log
            && t.task.light == if BuzzerComplete in s.shared.channel then LIGHT_FIRE else s.task.light
    decreases |s.shared.channel|
  {
    var n := |s.shared.channel|;
    if n > 0 {
      RunPolls(s, n);
      PollInFire(s);
      hide PollState, Run, Polls;
      QueueHandled(PollState(s, true));
    }
  }

  /** At the deadline of a firing whose buzzer sounds, with no FireEnd waiting: once the
      queue has been worked off the buzzer is silent if and only if the channel had room
      for the BuzzerComplete, or held one already. */
  lemma BuzzerStopsIff(s: Sequencer, trigger: bool)
    requires s.task.pc == StateLoop && s.task.state == StateStatus.Fire && s.task.light == LIGHT_FIRE_BUZZER
    requires s.fire.pc.Countdown? && s.fire.pc.deadline <= s.world.now && FIRE_END !in s.shared.channel
    ensures var u := PollFire(s, trigger);
            var t := Run(u, Polls(|u.shared.channel|));
            && t.shared.channel == [] && t.task.state == StateStatus.Fire && t.hist.log.fires == s.hist.log.fires
            && t.task.light in {LIGHT_FIRE, LIGHT_FIRE_BUZZER}
            && (t.task.light == LIGHT_FIRE <==>
                |s.shared.channel| < CHANNEL_CAPACITY || BuzzerComplete in s.shared.channel)
  {
    var u := PollFire(s, trigger);
    assert u.task == s.task && u.hist.log == s.hist.log;
    assert u.shared == TrySend(s.shared, BuzzerComplete);
    hide PollFire, Run;
    QueueHandled(u);
  }

  // ---------------------------------------------------------------------------
  // A firing that no continuation silences
  // ---------------------------------------------------------------------------

  /** The firing `f` is still under way. */
  ghost predicate UnderWay(s: Sequencer, f: nat) {
    s.task.state == StateStatus.Fire && |s.hist.log.fires| == f + 1
  }

  /** No BuzzerComplete can reach the firing any more, unless a FireEnd ends it first. */
  ghost predicate Unreachable(s: Sequencer) {
    && !BuzzerFirst(s.shared.channel)
    && (FIRE_END in s.shared.channel || (!s.fire.pc.Countdown? && !s.shared.activate))
  }

  ghost predicate Sounding(s: Sequencer, f: nat) {
    && |s.hist.log.fires| > f
    && (UnderWay(s, f) ==> Unreachable(s) && s.task.light == LIGHT_FIRE_BUZZER)
    && (s.task.pc != StateLoop ==> s.task.state == Armed)
  }

  lemma NextKeepsSounding(s: Sequencer, step: Step, f: nat)
    requires Sounding(s, f)
    ensures Sounding(Next(s, step), f)
  {
    match step
    case PollFireTask(_) => BuzzerFirstAppend(s.shared.channel, BuzzerComplete);
    case SendCommand(command) => BuzzerFirstAppend(s.shared.channel, Command(command));
    case _ =>
  }

  lemma {:induction false} RunKeepsSounding(s: Sequencer, steps: seq<Step>, f: nat)
    requires Sounding(s, f)
    ensures Sounding(Run(s, steps), f)
    decreases |steps|
  {
    hide Next, Sounding;
    if steps != [] {
      NextKeepsSounding(s, steps[0], f);
      RunKeepsSounding(Next(s, steps[0]), steps[1..], f);
    }
  }

  /** The firing `f` is still under way and its buzzer has stopped. */
  ghost predicate Quiet(s: Sequencer, f: nat) {
    UnderWay(s, f) && s.task.light == LIGHT_FIRE
  }

  lemma {:induction false} FirstBuzzerSilences(s: Sequencer) returns (n: nat)
    requires s.task.pc == StateLoop && s.task.state == StateStatus.Fire && BuzzerFirst(s.shared.channel)
    ensures var t := Run(s, Polls(n));
            && t.task.state == StateStatus.Fire && t.task.light == LIGHT_FIRE && t.hist.log == s.hist.log
            && (s.hist.buzzer.charges != [] ==>
                  t.hist.buzzer.silences == s.hist.buzzer.silences +
                  [Silence(Latest(s.hist.log.fires), s.hist.buzzer.charges[0], s.world.now)])
    decreases |s.shared.channel|
  {
    PollInFire(s);
    var t := PollState(s, true);
    assert t.world == s.world;
    if s.shared.channel[0] == BuzzerComplete {
      n := 1;
      RunPolls(s, 1);
    } else {
      hide PollState, Run;
      var m := FirstBuzzerSilences(t);
      n := m + 1;
      RunPolls(s, n);
    }
  }

  /** A firing whose own countdown is due and whose buzzer sounds: some continuation stops
      its buzzer before it ends if and only if a BuzzerComplete comes before any FireEnd
      in the channel, or there is room for one and no FireEnd. */
  lemma OwnBuzzerStopsIff(pinHigh: bool, before: seq<Step>, trigger: bool)
    requires var s := Run(Initial(pinHigh), before);
             && s.task.pc == StateLoop && s.task.state == StateStatus.Fire && s.task.light == LIGHT_FIRE_BUZZER
             && s.fire.pc.Countdown? && s.fire.pc.deadline <= s.world.now
             && s.hist.charge.index == Latest(s.hist.log.fires)
    ensures var s := Run(Initial(pinHigh), before);
            (exists after :: Quiet(Run(PollFire(s, trigger), after), Latest(s.hist.log.fires)))
            <==>
            || BuzzerFirst(s.shared.channel)
            || (|s.shared.channel| < CHANNEL_CAPACITY && FIRE_END !in s.shared.channel)
  {
    ReachableSound(pinHigh, before);
    hide Run;
    var s := Run(Initial(pinHigh), before);
    var u, f := PollFire(s, trigger), Latest(s.hist.log.fires);
    BuzzerFirstAppend(s.shared.channel, BuzzerComplete);
    assert |s.hist.log.fires| == f + 1 && !s.shared.activate;
    assert UnderWay(u, f) && u.task == s.task && u.hist.log == s.hist.log && !u.shared.activate;
    if BuzzerFirst(u.shared.channel) {
      var n := FirstBuzzerSilences(u);
      assert Quiet(Run(u, Polls(n)), f);
    } else {
      assert Sounding(u, f);
      forall after
        ensures !Quiet(Run(u, after), f)
      {
        RunKeepsSounding(u, after, f);
      }
    }
  }

  // ---------------------------------------------------------------------------
  // Messages of earlier firings
  // ---------------------------------------------------------------------------

  /** A message charged to `charge` exists at `time`: that Fire is three seconds old. */
  ghost predicate Elapsed(fires: seq<Accepted>, charge: nat, time: nat) {
    charge < |fires| && fires[charge].time + FIRE_BUZZER_DURATION_MS <= time
  }

  ghost predicate SilenceSound(fires: seq<Accepted>, c: Silence) {
    c.charge <= c.firing < |fires| && Elapsed(fires, c.charge, c.time)
  }

  ghost predicate ChargesSound(fires: seq<Accepted>, charges: seq<nat>, now: nat) {
    forall i :: 0 <= i < |charges| ==> Elapsed(fires, charges[i], now)
  }

  ghost predicate SilencesSound(fires: seq<Accepted>, silences: seq<Silence>) {
    forall i :: 0 <= i < |silences| ==> SilenceSound(fires, silences[i])
  }

  /** The tags match the BuzzerComplete messages one by one. */
  ghost predicate Tagged(s: Sequencer) {
    && |s.hist.buzzer.charges| == CountBuzzer(s.shared.channel)
    && ChargesSound(s.hist.log.fires, s.hist.buzzer.charges, s.world.now)
    && SilencesSound(s.hist.log.fires, s.hist.buzzer.silences)
  }

  lemma HandlingKeepsTagged(s: Sequencer, written: bool)
    requires Tagged(s) && s.task.pc == StateLoop && s.shared.channel != []
    ensures Tagged(PollState(s, written))
  {
    hide CountBuzzer;
    CountHead(s.shared.channel);
    var t := PollState(s, written);
    assert s.hist.log.fires <= t.hist.log.fires;
    forall i | 0 <= i < |t.hist.buzzer.charges|
      ensures Elapsed(t.hist.log.fires, t.hist.buzzer.charges[i], t.world.now)
    {
      var b := s.hist.buzzer.charges;
      assert t.hist.buzzer.charges[i] == if s.shared.channel[0] == BuzzerComplete then b[i + 1] else b[i];
    }
    forall i | 0 <= i < |t.hist.buzzer.silences|
      ensures SilenceSound(t.hist.log.fires, t.hist.buzzer.silences[i])
    {
      if i < |s.hist.buzzer.silences| {
        assert SilenceSound(s.hist.log.fires, s.hist.buzzer.silences[i]);
      } else {
        assert Elapsed(s.hist.log.fires, s.hist.buzzer.charges[0], s.world.now);
      }
    }
  }

  lemma CountHead(channel: seq<SequencerMessage>)
    requires channel != []
    ensures CountBuzzer(channel) ==
            (if channel[0] == BuzzerComplete then 1 else 0) + CountBuzzer(channel[1..])
  {
  }

  lemma PollFireKeepsTagged(s: Sequencer, written: bool)
    requires Inv(s) && Tagged(s)
    ensures Tagged(PollFire(s, written))
  {
    hide CountBuzzer;
    CountBuzzerAppend(s.shared.channel, BuzzerComplete);
  }

  lemma NextKeepsTagged(s: Sequencer, step: Step)
    requires Inv(s) && Tagged(s)
    ensures Tagged(Next(s, step))
  {
    hide PollFire, HandleMessage, CountBuzzer;
    match step
    case PollFireTask(written) => PollFireKeepsTagged(s, written);
    case PollStateTask(written) =>
      if s.task.pc == StateLoop && s.shared.channel != [] {
        HandlingKeepsTagged(s, written);
      }
    case SendCommand(command) => CountBuzzerAppend(s.shared.channel, Command(command));
    case _ =>
  }

  lemma {:induction false} RunKeepsTagged(s: Sequencer, steps: seq<Step>)
    requires Inv(s) && Tagged(s)
    ensures Tagged(Run(s, steps))
    decreases |steps|
  {
    hide Next, Inv, Tagged;
    if steps != [] {
      NextKeepsInv(s, steps[0]);
      NextKeepsTagged(s, steps[0]);
      RunKeepsTagged(Next(s, steps[0]), steps[1..]);
    }
  }

  lemma ReachableTagged(pinHigh: bool, steps: seq<Step>)
    ensures Tagged(Run(Initial(pinHigh), steps))
  {
    Boot(pinHigh);
    hide Run, Inv;
    RunKeepsTagged(Initial(pinHigh), steps);
  }

  /** In every run a firing is silenced by its own BuzzerComplete or by that of an earlier
      firing, never by a later one, and within its first three seconds only by the latter. */
  lemma EarlySilenceIsStale(pinHigh: bool, steps: seq<Step>, k: nat)
    requires k < |Run(Initial(pinHigh), steps).hist.buzzer.silences|
    ensures var h := Run(Initial(pinHigh), steps).hist;
            var c := h.buzzer.silences[k];
            && c.charge <= c.firing < |h.log.fires|
            && h.log.fires[c.charge].time + 3000 <= c.time
            && (c.time < h.log.fires[c.firing].time + 3000 ==> c.charge < c.firing)
  {
    ReachableTagged(pinHigh, steps);
    hide Run;
  }

  /** Some BuzzerComplete of an earlier firing has silenced the firing `f`. */
  ghost predicate StaleSilence(silences: seq<Silence>, f: nat) {
    exists k :: 0 <= k < |silences| && silences[k].firing == f && silences[k].charge < f
  }

  /** Every BuzzerComplete before the first FireEnd is that of `f` or a later firing. */
  ghost predicate OwnFirst(channel: seq<SequencerMessage>, charges: seq<nat>, f: nat)
    decreases |channel|
  {
    if channel == [] || channel[0] == FIRE_END then true
    else if channel[0] == BuzzerComplete then
      charges != [] && charges[0] >= f && OwnFirst(channel[1..], charges[1..], f)
    else OwnFirst(channel[1..], charges, f)
  }

  lemma {:induction false} OwnFirstSend(
      channel: seq<SequencerMessage>, charges: seq<nat>, command: StateCommand, f: nat)
    requires OwnFirst(channel, charges, f)
    ensures OwnFirst(channel + [Command(command)], charges, f)
    decreases |channel|
  {
    if channel != [] {
      assert (channel + [Command(command)])[1..] == channel[1..] + [Command(command)];
      if channel[0] == BuzzerComplete {
        OwnFirstSend(channel[1..], charges[1..], command, f);
      } else if channel[0] != FIRE_END {
        OwnFirstSend(channel[1..], charges, command, f);
      }
    }
  }

  lemma {:induction false} OwnFirstComplete(channel: seq<SequencerMessage>, charges: seq<nat>, charge: nat, f: nat)
    requires OwnFirst(channel, charges, f) && |charges| == CountBuzzer(channel)
    requires FIRE_END in channel || charge >= f
    ensures OwnFirst(channel + [BuzzerComplete], charges + [charge], f)
    decreases |channel|
  {
    if channel == [] {
      assert [BuzzerComplete][1..] == [];
    } else {
      assert (channel + [BuzzerComplete])[1..] == channel[1..] + [BuzzerComplete];
      if channel[0] == BuzzerComplete {
        assert (charges + [charge])[1..] == charges[1..] + [charge];
        OwnFirstComplete(channel[1..], charges[1..], charge, f);
      } else if channel[0] != FIRE_END {
        OwnFirstComplete(channel[1..], charges, charge, f);
      }
    }
  }

  lemma {:induction false} OwnFirstWithoutBuzzer(channel: seq<SequencerMessage>, charges: seq<nat>, f: nat)
    requires !BuzzerFirst(channel)
    ensures OwnFirst(channel, charges, f)
    decreases |channel|
  {
    if channel != [] && channel[0] != FIRE_END {
      OwnFirstWithoutBuzzer(channel[1..], charges, f);
    }
  }

  /** No message of an earlier firing can reach the firing `f` before it ends. */
  ghost predicate Guarded(s: Sequencer, f: nat) {
    && OwnFirst(s.shared.channel, s.hist.buzzer.charges, f)
    && (FIRE_END in s.shared.channel || (s.fire.pc.Countdown? ==> s.hist.charge.index >= f))
  }

  ghost predicate Spared(s: Sequencer, f: nat) {
    && |s.hist.log.fires| > f
    && |s.hist.buzzer.charges| == CountBuzzer(s.shared.channel)
    && !StaleSilence(s.hist.buzzer.silences, f)
    && (UnderWay(s, f) ==> Guarded(s, f))
  }

  lemma PollStateKeepsSpared(s: Sequencer, written: bool, f: nat)
    requires Spared(s, f)
    ensures Spared(PollState(s, written), f)
  {
    if s.task.pc == StateLoop && s.shared.channel != [] {
      CountHead(s.shared.channel);
      hide CountBuzzer;
      var t := PollState(s, written);
      forall k | 0 <= k < |t.hist.buzzer.silences|
        ensures t.hist.buzzer.silences[k].firing != f || t.hist.buzzer.silences[k].charge >= f
      {
        assert k < |s.hist.buzzer.silences| ==> s.hist.buzzer.silences[k] == t.hist.buzzer.silences[k];
      }
    }
  }

  lemma PollFireKeepsSpared(s: Sequencer, written: bool, f: nat)
    requires Spared(s, f)
    ensures Spared(PollFire(s, written), f)
  {
    CountBuzzerAppend(s.shared.channel, BuzzerComplete);
    if s.fire.pc.Countdown? && UnderWay(s, f) {
      OwnFirstComplete(s.shared.channel, s.hist.buzzer.charges, s.hist.charge.index, f);
    }
    hide CountBuzzer, OwnFirst, StaleSilence;
  }

  lemma NextKeepsSpared(s: Sequencer, step: Step, f: nat)
    requires Spared(s, f)
    ensures Spared(Next(s, step), f)
  {
    match step
    case PollFireTask(written) => PollFireKeepsSpared(s, written, f);
    case PollStateTask(written) => PollStateKeepsSpared(s, written, f);
    case SendCommand(command) =>
      CountBuzzerAppend(s.shared.channel, Command(command));
      if UnderWay(s, f) {
        OwnFirstSend(s.shared.channel, s.hist.buzzer.charges, command, f);
      }
      hide CountBuzzer, OwnFirst, StaleSilence;
    case _ =>
  }

  lemma {:induction false} RunKeepsSpared(s: Sequencer, steps: seq<Step>, f: nat)
    requires Spared(s, f)
    ensures Spared(Run(s, steps), f)
    decreases |steps|
  {
    hide Next, Spared;
    if steps != [] {
      NextKeepsSpared(s, steps[0], f);
      RunKeepsSpared(Next(s, steps[0]), steps[1..], f);
    }
  }

  /** The next message is a Fire that will be accepted. */
  ghost predicate FireNext(s: Sequencer) {
    && s.task.pc == StateLoop && s.task.state == Armed && s.world.pinHigh
    && s.shared.channel != [] && s.shared.channel[0] == Command(StateCommand.Fire)
  }

  /** A message of an earlier firing is ahead of any FireEnd, or the countdown of one still
      runs and no FireEnd is queued. */
  ghost predicate Exposed(queued: seq<SequencerMessage>, pc: FirePc) {
    BuzzerFirst(queued) || (FIRE_END !in queued && pc.Countdown?)
  }

  lemma {:induction false} CountWithoutBuzzer(channel: seq<SequencerMessage>)
    requires BuzzerComplete !in channel
    ensures CountBuzzer(channel) == 0
  {
    if channel != [] {
      CountWithoutBuzzer(channel[1..]);
    }
  }

  lemma {:induction false} BuzzerFirstCounts(channel: seq<SequencerMessage>)
    requires BuzzerFirst(channel)
    ensures CountBuzzer(channel) > 0
    decreases |channel|
  {
    if channel[0] != BuzzerComplete {
      BuzzerFirstCounts(channel[1..]);
    }
  }

  /** A queued message of an earlier firing reaches the firing under way. */
  lemma QueuedStale(t: Sequencer, f: nat) returns (steps: seq<Step>)
    requires t.task.pc == StateLoop && UnderWay(t, f) && BuzzerFirst(t.shared.channel)
    requires t.hist.buzzer.charges != [] && t.hist.buzzer.charges[0] < f
    ensures StaleSilence(Run(t, steps).hist.buzzer.silences, f)
  {
    var n := FirstBuzzerSilences(t);
    steps := Polls(n);
    hide Run;
    var silences := Run(t, steps).hist.buzzer.silences;
    assert silences[|t.hist.buzzer.silences|].firing == f;
  }

  /** The countdown of an earlier firing runs out during the firing under way. */
  lemma RunningStale(t: Sequencer, f: nat) returns (steps: seq<Step>)
    requires t.task.pc == StateLoop && UnderWay(t, f) && t.fire.pc.Countdown?
    requires t.hist.charge.index < f && |t.shared.channel| < CHANNEL_CAPACITY
    requires FIRE_END !in t.shared.channel && t.hist.buzzer.charges == []
    ensures StaleSilence(Run(t, steps).hist.buzzer.silences, f)
  {
    var due := Next(t, Wait(t.fire.pc.deadline));
    var u := Next(due, PollFireTask(true));
    assert u.shared.channel == t.shared.channel + [BuzzerComplete];
    assert u.hist.buzzer.charges == [t.hist.charge.index] && u.task == t.task && u.hist.log == t.hist.log;
    BuzzerFirstAppend(t.shared.channel, BuzzerComplete);
    RunOne(t, Wait(t.fire.pc.deadline));
    RunOne(due, PollFireTask(true));
    hide Run, Next;
    var rest := QueuedStale(u, f);
    RunAppend(t, [Wait(t.fire.pc.deadline)], [PollFireTask(true)]);
    RunAppend(t, [Wait(t.fire.pc.deadline)] + [PollFireTask(true)], rest);
    steps := [Wait(t.fire.pc.deadline)] + [PollFireTask(true)] + rest;
  }

  /** What accepting a Fire does, seen from the buzzer. */
  lemma FireAccepted(s: Sequencer, written: bool)
    requires Sound(s) && Tagged(s) && FireNext(s)
    ensures var t := PollState(s, written);
            var f := |s.hist.log.fires|;
            && t.task.pc == StateLoop && UnderWay(t, f)
            && t.shared.channel == s.shared.channel[1..] && |t.shared.channel| < CHANNEL_CAPACITY
            && t.fire == s.fire && t.hist.charge == s.hist.charge && t.hist.buzzer == s.hist.buzzer
            && |t.hist.buzzer.charges| == CountBuzzer(t.shared.channel)
            && !StaleSilence(t.hist.buzzer.silences, f)
            && (t.hist.buzzer.charges != [] ==> t.hist.buzzer.charges[0] < f)
            && (t.fire.pc.Countdown? ==> t.hist.charge.index < f)
  {
    CountHead(s.shared.channel);
    hide CountBuzzer, DecisionsSound, ChargesIncrease;
    assert forall k :: 0 <= k < |s.hist.buzzer.silences| ==> SilenceSound(s.hist.log.fires, s.hist.buzzer.silences[k]);
    if s.hist.buzzer.charges != [] {
      assert Elapsed(s.hist.log.fires, s.hist.buzzer.charges[0], s.world.now);
    }
  }

  /** For every Fire accepted in any run: some continuation silences its buzzer with the
      BuzzerComplete of an earlier firing if and only if such a message is queued ahead of
      any FireEnd, or an earlier countdown still runs and no FireEnd is queued. */
  lemma StaleSilenceIff(pinHigh: bool, before: seq<Step>, written: bool)
    requires FireNext(Run(Initial(pinHigh), before))
    ensures var s := Run(Initial(pinHigh), before);
            (exists after :: StaleSilence(Run(PollState(s, written), after).hist.buzzer.silences, |s.hist.log.fires|))
            <==> Exposed(s.shared.channel[1..], s.fire.pc)
  {
    ReachableSound(pinHigh, before);
    ReachableTagged(pinHigh, before);
    var s := Run(Initial(pinHigh), before);
    FireAccepted(s, written);
    hide Run, PollState, Sound, Tagged, CountBuzzer;
    AcceptedStaleIff(PollState(s, written), |s.hist.log.fires|);
  }

  lemma AcceptedStaleIff(t: Sequencer, f: nat)
    requires t.task.pc == StateLoop && UnderWay(t, f) && |t.shared.channel| < CHANNEL_CAPACITY
    requires |t.hist.buzzer.charges| == CountBuzzer(t.shared.channel)
    requires !StaleSilence(t.hist.buzzer.silences, f)
    requires t.hist.buzzer.charges != [] ==> t.hist.buzzer.charges[0] < f
    requires t.fire.pc.Countdown? ==> t.hist.charge.index < f
    ensures (exists after :: StaleSilence(Run(t, after).hist.buzzer.silences, f))
            <==> Exposed(t.shared.channel, t.fire.pc)
  {
    hide Run, StaleSilence;
    if BuzzerFirst(t.shared.channel) {
      BuzzerFirstCounts(t.shared.channel);
      var steps := QueuedStale(t, f);
    } else if Exposed(t.shared.channel, t.fire.pc) {
      BuzzerFirstWithoutEnd(t.shared.channel);
      CountWithoutBuzzer(t.shared.channel);
      var steps := RunningStale(t, f);
    } else {
      OwnFirstWithoutBuzzer(t.shared.channel, t.hist.buzzer.charges, f);
      forall after
        ensures !StaleSilence(Run(t, after).hist.buzzer.silences, f)
      {
        RunKeepsSpared(t, after, f);
      }
    }
  }
}

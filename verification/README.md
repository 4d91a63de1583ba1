# Verification of the test stand firmware

A Dafny model of the protocols, state machines and codecs of the rocket test stand
firmware and of the railway clock driver, with proofs about every run of them.

The firmware runs on a cooperative single-core executor, so a stretch of code between two
await points is one atomic step. A task is a state machine over such steps, a signal a
one-slot latch, a channel a bounded sequence, time a number that never decreases, and a
select polls its first future first. Theorems about runs quantify over every sequence of
steps, that is over every interleaving, every bus failure and every timing. Where the
executor would go straight on (several queued messages handled in one poll, an activation
that is already pending when the loop comes round) the model also allows other steps in
between; it has more interleavings than the program, never fewer.

Code that updates state in place is also written as classes and loops over the same fields
(`FireSequencerTasks`, `ServoTask`, `RequestResponseChannel`, `PowerTask`, `OutboundQueue`,
`Railclock`, `Tmp107Driver`, `TemperatureCollection`, and the buffer methods of `Codec` and
`Packets`). Their methods are proved equal to the steps of the model, so that the theorems
about runs are theorems about the fields. Histories (accepted commands, decisions, writes,
tickets, attempts) are auxiliary: no step reads them.

| files | what they cover |
|---|---|
| FireSequencer*.dfy | the state task, the fire task, two signals, the four-slot channel, the 3 s timer, tower and trigger |
| Servo.dfy, ServoRuns.dfy, ServoTask.dfy | interpolation in truncating integers, reversal through the own queue, termination |
| RequestResponse*.dfy | mutex and two queues between any number of clients and one server |
| Power.dfy, PowerTask.dfy | mode machine of charger and port expander under failing transfers |
| Codec.dfy, Packets.dfy | 12-bit packing and the payloads of fast and temperature packets |
| OutboundQueue.dfy | the bounded outbound queue and batch publishing |
| Railclock.dfy | permits, flips and the phase of the clock |
| Tmp107*.dfy, Temperature*.dfy | a sensor chain after the data sheet, the driver on an arbitrary line, batching |

`Tmp107Chain` follows the TMP107 data sheet (Texas Instruments SBOS716D, section 7.3.3):
command byte of Table 2, register pointer of Figure 21, writes of Figures 26 and 28, reads
of Figures 27 and 29, address initialization of Figure 23.

## What does not hold

Some natural claims are false of the code. Each is refuted by a run, and the exact
condition is proved.

- Ignition only in Fire: a FireEnd queued behind its Fire is erased by the reset, and the
  timer wins the select over a pending cancel. `EveryIgnition` says exactly when the Fire
  has been ended before its ignition.
- The buzzer stops after three seconds of each firing: a BuzzerComplete may be dropped or
  belong to an earlier firing. `BuzzerStopsIff` and `OwnBuzzerStopsIff` say when a firing's
  buzzer stops, `StaleSilenceIff` when an earlier firing's message stops it.
- A FireEnd releases the trigger: `EndAbortsItsFiringIff` says when.
- The last servo command wins: true at an endpoint for any number of waiting commands; on
  the way `LastCommandWinsIff` has the condition on the queue.
- The charger always shows the recorded mode: a write that failed after the charger had
  taken it leaves the recorded mode behind (`LandedWriteDrifts`). `ChargerFollowsSwitches`
  has the condition.
- The motor outputs are always opposite: a stored byte such as 4 or 7 starts them equal.
  `OutputsOppositeIff` has the condition on the stored byte.

Code and documentation differ in places; the model follows the code. The servo plan in
docs/plans speaks of 90 and 0 degrees and of an updated target, the code uses 97.5 and 180
degrees and re-queues the command. The bit order of the signal tower and the byte layouts
and sensor limit of the TMP107 plan also differ; the code has 31 sensors.

## Model

| member | source | states |
|---|---|---|
| `FireSequencerSafety.EveryIgnition` | src/bin/test_stand_controller/sequencer.rs:122-146 | In every interleaving, each ignition is charged to an accepted Fire that saw the safety pin high at least 3000 ms before. That Fire had already been ended if and only if the state was not Fire when the activation was consumed or the cancel was pending at the deciding poll; an ignition outside Fire implies it. |
| `FireSequencerSafety.IgnitionOnlyInFire` | src/bin/test_stand_controller/sequencer.rs:122-146 | In every schedule without such a countdown or such a poll, each ignition happens in state Fire. |
| `FireSequencerSafety.DecisionsArePaidFor` | src/bin/test_stand_controller/sequencer.rs:123-139 | Triggers, aborts, the running countdown and the pending activation together never exceed the accepted Fire commands, and no two decisions are charged to the same one. |
| `FireSequencerSafety.EveryAbort` | src/bin/test_stand_controller/sequencer.rs:140-144 | An abort only happens after the Fire it is charged to was ended by an accepted FireEnd. |
| `FireSequencerSafety.CommandsFollowCycle` | src/bin/test_stand_controller/sequencer.rs:196-260 | In every run accepted Fire, FireEnd and FireReset alternate; their counts determine the state; the shutter goes off once for each Fire and FireEnd; the shared atomic equals the state of the task. |
| `FireSequencerSafety.NextKeepsInv` | src/bin/test_stand_controller/sequencer.rs:111-194 | Every atomic step of either task, every command, pin edge and passing of time keeps the inductive invariant of channel, signals, countdown and command counts. |
| `FireSequencerSafety.RunKeepsAll` | src/bin/test_stand_controller/sequencer.rs:111-194 | Every run keeps the invariant; decisions and accepted commands are only appended, each decision is sound and the Fires charged strictly increase. |
| `FireSequencerSafety.AcceptedEndRacesTimer` | src/bin/test_stand_controller/sequencer.rs:124-145 | A FireEnd accepted during a countdown, then anything but a poll of the fire task: the next poll aborts before the deadline and ignites at or after it, with the cancel pending. |
| `FireSequencerSafety.AbortedNeverIgnites` | src/bin/test_stand_controller/sequencer.rs:122-146 | After an abort, in no continuation is an ignition charged to the same Fire. |
| `FireSequencerSafety.EndBeforeDeadlineNeverIgnites` | src/bin/test_stand_controller/sequencer.rs:124-145 | A FireEnd accepted after the reset and a poll before the deadline: no continuation of any such run ever ignites for that countdown. |
| `FireSequencerSafety.CountdownLastsThreeSeconds` | src/bin/test_stand_controller/sequencer.rs:122-139 | In every run, if an activation is consumed and no FireEnd is accepted afterwards, every poll of the fire task within the next 3000 ms decides nothing, and the first poll after them ignites, charged to the latest Fire, and offers a BuzzerComplete. |
| `FireSequencerSafety.CommandsAreAnswered` | src/bin/test_stand_controller/sequencer.rs:196-260 | Which command is accepted in which state and at which pin level, the state, signal, atomic, lamps and shutter it then sets, and that any other command has no effect but leaving the channel. |
| `FireSequencerSafety.EdgesAreHandled` | src/bin/test_stand_controller/sequencer.rs:171-193 | With no message waiting a poll stores the level of a changed pin, the edge is handled, and nothing else changes. |
| `FireSequencerSafety.EndAbortsItsFiringIff` | src/bin/test_stand_controller/sequencer.rs:124-145 | In every run an accepted FireEnd makes the next poll of the fire task abort the firing it ends, and release the trigger, if and only if the countdown charged to that firing is running and the poll precedes its deadline. |
| `FireSequencerTower.StateTaskStarts` | src/bin/test_stand_controller/sequencer.rs:149-169 | The state task starts in Armed with the tower green, or dark if that write fails; without a tower it never changes lamps or state in any run. |
| `FireSequencerTower.FireTaskStarts` | src/bin/test_stand_controller/sequencer.rs:111-123 | The fire task starts with the trigger released; without the device no run ever ignites. |
| `FireSequencerTower.TowerFollowsState` | src/bin/test_stand_controller/sequencer.rs:160-192 | Without failed tower writes, at every await the tower shows green in Armed, red with buzzer (until a BuzzerComplete) in Fire, green and red in PostFire, and readers of the atomic see the state. |
| `FireSequencerTower.ArmedValueFollowsPin` | src/bin/test_stand_controller/sequencer.rs:44-48 | In every run the stored armed value is the level of the pin, unless an edge still waits to be handled. Assumes that the pin driver remembers an edge while its future is dropped and recreated after each channel message. |
| `FireSequencerTower.BuzzerMessagesConserved` | src/bin/test_stand_controller/sequencer.rs:131-139 | In every run BuzzerComplete messages received, queued and dropped at a full channel add up to the ignitions. |
| `FireSequencerBuzzer.BuzzerStopsIff` | src/bin/test_stand_controller/sequencer.rs:131-187 | At the deadline of a firing whose buzzer sounds, with no FireEnd waiting: once the queue is worked off the tower shows red only if and only if the channel had room for the BuzzerComplete or held one already. |
| `FireSequencerBuzzer.OwnBuzzerStopsIff` | src/bin/test_stand_controller/sequencer.rs:131-187 | In every run, at the deadline of the countdown of the firing under way: some continuation stops its buzzer before it ends if and only if a BuzzerComplete is queued before any FireEnd, or there is room for one and no FireEnd. Otherwise no continuation does. |
| `FireSequencerBuzzer.EarlySilenceIsStale` | src/bin/test_stand_controller/sequencer.rs:131-187 | In every run a firing is silenced only by its own BuzzerComplete or that of an earlier firing, and within its first 3000 ms only by the latter. |
| `FireSequencerBuzzer.StaleSilenceIff` | src/bin/test_stand_controller/sequencer.rs:131-226 | For every Fire accepted in any run: some continuation silences it with the BuzzerComplete of an earlier firing if and only if one is queued behind it before any FireEnd, or an earlier countdown still runs and no FireEnd is queued. |
| `FireSequencerTower.OutputFollowsDecisions` | src/fire_trigger.rs:23-29 | Without failed trigger writes the output is asserted exactly when the latest countdown ended in an ignition. |
| `FireSequencerTower.LateFireEndDoesNotRelease` | src/bin/test_stand_controller/sequencer.rs:122-146 | After an ignition, until another Fire is accepted, no sequence of steps changes the trigger output or adds a decision: a late FireEnd releases nothing. |
| `FireSequencerWitness.ErasedCancelIgnites` | src/bin/test_stand_controller/sequencer.rs:122-139 | A run in which the cancel of a queued FireEnd is erased by the reset and the trigger is pulled in PostFire. |
| `FireSequencerWitness.TimerBeatsPendingCancel` | src/bin/test_stand_controller/sequencer.rs:125-139 | A run in which FireEnd is accepted in time but the timer wins the select with the cancel pending. |
| `FireSequencerWitness.BuzzerCompleteDropped` | src/bin/test_stand_controller/sequencer.rs:135-138 | A run in which the full channel drops BuzzerComplete and the buzzer sounds on with nothing left to handle. |
| `FireSequencerWitness.BuzzerCompleteStale` | src/bin/test_stand_controller/sequencer.rs:177-187 | A run in which the BuzzerComplete of one firing silences the next one as it begins. |
| `FireSequencerTasks.SequencerTasks.SendStateCommand` | src/bin/test_stand_controller/sequencer.rs:37-42 | A command joins the channel unless four messages wait, and changes nothing else. |
| `FireSequencerTasks.SequencerTasks.HandleSequencerCommand` | src/bin/test_stand_controller/sequencer.rs:196-260 | The in-place handler has exactly the effect of the model transition, rejections included. |
| `FireSequencerTasks.SequencerTasks.PollStateTask` | src/bin/test_stand_controller/sequencer.rs:171-193 | One message, or else one pin edge, handled in place as in the model. |
| `FireSequencerTasks.SequencerTasks.PollFireTask` | src/bin/test_stand_controller/sequencer.rs:122-146 | One poll of the fire task in place: activation, timer before cancel, or nothing, as in the model. |
| `FireSequencerTasks.SequencerTasks.Step` | src/bin/test_stand_controller/sequencer.rs:111-194 | Each in-place step refines the model and keeps the safety invariant. |
| `FireSequencerTasks.SequencerTasks.Execute` | src/bin/test_stand_controller/sequencer.rs:111-194 | Any interleaving executed in place ends in the state the model computes, so all run theorems apply to the fields. |
| `Servo.Endpoints` | src/bin/test_stand_controller/servo.rs:36-52 | The open endpoint is 1583 ticks and the closed one 2500. |
| `Servo.DegreesInRange` | src/bin/test_stand_controller/servo.rs:36-39 | Up to 1800 tenths of a degree no cast or sum loses bits, the map is monotone and stays within the pulse range. |
| `Servo.DegreesExactIff` | src/bin/test_stand_controller/servo.rs:36-39 | Over all of u16 the map from degrees to ticks loses no bits if and only if the angle is at most 58532. |
| `Servo.StepsAreDistanceOverEight` | src/bin/test_stand_controller/servo.rs:41-45 | Travel time divided by the tick interval is exactly an eighth of the distance, for all positions. |
| `Servo.InterpolateIsProgress` | src/bin/test_stand_controller/servo.rs:190-196 | For every start and target in the pulse range the clamp is the identity, the products and sums fit in i32, and the truncating division moves towards the target in either direction. |
| `Servo.TickMovesTowardsTarget` | src/bin/test_stand_controller/servo.rs:184-199 | Every stepped tick moves 8 to 15 ticks towards the target without overshoot and reaches it exactly at the last step. |
| `ServoRuns.PollKeepsInv` | src/bin/test_stand_controller/servo.rs:133-208 | Every poll keeps the inductive invariant on position, phase, status, queue and history of writes. |
| `ServoRuns.StopsOnlySettled` | src/bin/test_stand_controller/servo.rs:133-208 | In every run, at the outer receive the servo is settled with its status published, or strictly between the endpoints with a command waiting: never parked mid-travel. |
| `ServoRuns.PositionsStayInRange` | src/bin/test_stand_controller/servo.rs:145-199 | In every run all pulses written lie between the endpoints and two in a row differ by 1 to 15 ticks. |
| `ServoRuns.ReversalRequeues` | src/bin/test_stand_controller/servo.rs:177-182 | A command re-sent on a reversal is never dropped, and goes behind all queued ones. |
| `ServoRuns.TravelsArePublished` | src/bin/test_stand_controller/servo.rs:54-59 | In every travel of every run Opening is published on the way to 1583 ticks and each further tick lowers the position, Closing on the way to 2500 and each further tick raises it; arriving publishes Open or Closed. |
| `ServoRuns.FifthCommandIsDropped` | src/bin/test_stand_controller/servo.rs:30-34 | A command that finds four others waiting is dropped, any other one goes to the back, and nothing else changes. |
| `ServoRuns.Drain` | src/bin/test_stand_controller/servo.rs:133-208 | Without new commands the servo becomes idle with an empty queue after finitely many polls (lexicographic measure on queue, phase and remaining steps, although reversals refill the queue), and keeps the invariant. |
| `ServoRuns.EndsSettled` | src/bin/test_stand_controller/servo.rs:133-208 | From every reachable state the servo comes to rest at an endpoint with the matching status. However the task is polled meanwhile the outcome stays the same, and it is reached once the servo is idle with nothing queued. |
| `ServoRuns.QuietTravelArrives` | src/bin/test_stand_controller/servo.rs:161-207 | A travel without further commands arrives at its target in exactly the remaining steps. |
| `ServoRuns.ReversalAlone` | src/bin/test_stand_controller/servo.rs:168-183 | A reversal by the only queued command ends at the endpoint of that command after an eighth of the distance in further timer intervals. |
| `ServoRuns.PositionsAreClear` | src/bin/test_stand_controller/servo.rs:133-208 | Every reachable position is an endpoint or at least 8 ticks away from both. |
| `ServoRuns.NoJump` | src/bin/test_stand_controller/servo.rs:145-156 | At such a position no target is within 8 ticks of it: the zero-step jump never runs. |
| `ServoRuns.LastWinsFromEndpoint` | src/bin/test_stand_controller/servo.rs:133-207 | At an endpoint, idle or before the first tick of a travel, the last of any number of waiting commands decides where the servo ends. |
| `ServoRuns.RotationDecides` | src/bin/test_stand_controller/servo.rs:161-183 | In a travel away from the endpoints, the rotation of the queue by reversals decides where the servo ends, for any queue. |
| `ServoRuns.LastCommandWinsIff` | src/bin/test_stand_controller/servo.rs:133-208 | From every reachable state with commands waiting: the last one wins if and only if the servo stands at an endpoint or the rotation of the queue picks a command equal to it (with the first waiting command as heading when idle between the endpoints). |
| `ServoRuns.LaterOpensLose` | src/bin/test_stand_controller/servo.rs:168-183 | For two to four waiting commands a run in which the last ones are Open and the servo ends closed. |
| `ServoRuns.LastCommandWinsIffAlone` | src/bin/test_stand_controller/servo.rs:168-183 | By count alone: the last command wins in all runs with n commands waiting if and only if n is one. |
| `ServoTask.ServoController.SendServoCommand` | src/bin/test_stand_controller/servo.rs:30-34 | A command is queued unless four are waiting. |
| `ServoTask.ServoController.TravelOnce` | src/bin/test_stand_controller/servo.rs:161-202 | One pass through the select changes fields and locals as one poll of the model does. |
| `ServoTask.ServoController.Travel` | src/bin/test_stand_controller/servo.rs:158-207 | The travel loop, interrupted by whatever waits in the queue, leaves the fields in a state with the same final outcome and the invariant intact. |
| `ServoTask.ServoController.ServeCommand` | src/bin/test_stand_controller/servo.rs:134-207 | A received command is carried out with the same final outcome as the model, including the zero-step jump. |
| `ServoTask.ServoController.ServeQueue` | src/bin/test_stand_controller/servo.rs:133-208 | The outer loop ends settled with an empty queue, in exactly the state the model computes. |
| `ServoTask.ServoController.PollTask` | src/bin/test_stand_controller/servo.rs:133-208 | One poll of the suspended task, in either loop, has the effect of the model poll, whether or not a command has arrived. |
| `ServoTask.ServoController.Execute` | src/bin/test_stand_controller/servo.rs:133-208 | Over any sequence of arriving commands and polls the fields follow the run of the model and keep its invariant. |
| `RequestResponse.NextKeepsInv` | src/channel.rs:20-40 | Every step of every client and of the server keeps the invariant: one mutex holder, one item in flight, each transaction answered at most once. |
| `RequestResponse.ResponsesArePaired` | src/channel.rs:36-40 | For any number of clients and any interleaving, a transact returns the response the server computed for that very request, and the server computed only one for it. |
| `RequestResponse.OneItemInFlight` | src/channel.rs:20-40 | At most one request or response exists anywhere; the response queue has room whenever the server answers, and the request queue whenever a client holds the mutex. |
| `RequestResponse.AnyoneCanBegin` | src/channel.rs:36-40 | In every run there are as many clients as asked for, and one that is not inside transact can always call it with a request of its own. |
| `RequestResponse.StepsReduceWork` | src/channel.rs:20-40 | Every enabled step other than a new transact reduces the outstanding work. |
| `RequestResponse.SomeStepEnabled` | src/channel.rs:20-40 | While work is outstanding some step is enabled: no deadlock. |
| `RequestResponse.TicketsAreAccountedFor` | src/channel.rs:36-40 | Over every run each transact begun either has returned exactly once, or has not returned and its own client still waits for it. |
| `RequestResponse.EveryScheduleReturns` | src/channel.rs:20-40 | After any run and under any schedule only boundedly many steps are left without new calls; when none is left, every client is at rest and every transact begun has returned exactly once. |
| `RequestResponse.EveryTransactReturns` | src/channel.rs:36-40 | From every sound state a schedule of exactly the outstanding work exists after which every client is at rest and every transact begun has returned exactly once. |
| `RequestResponseChannel.Channel.LockMutex` | src/channel.rs:36-37 | Taking the mutex in place is the model step; it fails while another client holds it. |
| `RequestResponseChannel.Channel.SendClientRequest` | src/channel.rs:20-22 | Sending on the untagged request queue is the model step. |
| `RequestResponseChannel.Channel.RecvRequest` | src/channel.rs:24-26 | The server receives the oldest request, as in the model. |
| `RequestResponseChannel.Channel.SendResponse` | src/channel.rs:28-30 | The server sends its response, as in the model. |
| `RequestResponseChannel.Channel.RecvResponse` | src/channel.rs:32-40 | The untagged response taken by the waiting client is the one computed for its request, and releases the mutex. |
| `Power.SettersAreExact` | src/power/controller.rs:78-113 | Each setter changes its own bit of the expander byte, with its polarity, and no other. |
| `Power.HandleInterrupt` | src/tasks/power.rs:81-104 | Answered with success, the recorded mode is OTG exactly when VBUS was absent; OTG is left for charging only, any other mode for OTG only, and then the charger shows the new mode; a failure leaves the recorded mode unchanged. |
| `Power.AnswersMean` | src/tasks/power.rs:106-138 | Success means the requested mode is recorded and set in the charger; a failure changes the recorded mode only when shipping got as far as charging; an unreadable status changes nothing. |
| `Power.SwitchTouches` | src/power/controller.rs:357-409 | A switch changes exactly two bits of the expander byte read and two of the charger, succeeds if and only if both writes are acknowledged, stops after a failed expander write, and records the mode only on success. |
| `Power.ShippingAnswers` | src/power/controller.rs:465-479 | Entering shipping mode fails with the error of the first write that fails; the recorded mode is Charging once the switch has succeeded; success leaves battery transistor and watchdog off. |
| `Power.GoodTransfersSucceed` | src/tasks/power.rs:106-138 | A request whose transfers are all acknowledged succeeds; an interrupt then ends in OTG without VBUS and out of OTG with it. |
| `Power.StartsClean` | src/power/controller.rs:245-347 | A start succeeds if and only if both writes do; it then has released the expander lines and switched watchdog and battery transistor on, in mode Passive; otherwise the task ends. |
| `Power.InitialModeFollowsVbus` | src/tasks/power.rs:163-186 | In every run the initial mode is set by exactly the first status read whose two writes are acknowledged: OTG if VBUS is absent in that status and charging if it is present, in the record, the charger and the expander. |
| `Power.SwitchKeepsInv` | src/power/controller.rs:357-409 | Under any failure of either write, devices and recorded mode stay explained by the history of switches. |
| `Power.NextKeepsInv` | src/tasks/power.rs:144-204 | Every step of the task keeps that invariant; nothing is served before the initial mode was set. |
| `Power.StartsPassive` | src/power/controller.rs:245-279 | From a successful start until a switch first reaches it, the expander shows the recorded mode Passive. |
| `Power.LoopSteps` | src/tasks/power.rs:163-203 | What each status read, timeout and request does to the task in each place of its loop, the failed initial switch and its retry included. |
| `Power.InitialModeStaysSet` | src/tasks/power.rs:161-186 | Once set, the initial mode is set in every continuation and is not chosen again. |
| `Power.ChargerFollowsSwitches` | src/power/controller.rs:357-409 | Once the initial mode is set, the charger bits are those of the latest switch that reached the charger, charging and OTG are never both on, and they equal the recorded mode if and only if that switch was to it; otherwise a switch since the last success failed although its write landed. |
| `Power.ChargerShowsRecordedMode` | src/power/controller.rs:357-409 | The charger bits equal the recorded mode unless a charger write has taken effect although it failed, with no successful switch since. |
| `Power.ExpanderFollowsSwitches` | src/power/controller.rs:357-409 | The expander bits are those of the latest switch that reached it; they disagree with the recorded mode if and only if that switch was to another mode, and then a switch since the last success failed after its expander write. |
| `Power.HalfSwitchSplitsDevices` | src/power/controller.rs:391-403 | A run in which a switch to OTG fails at the charger and leaves expander and charger in different modes. |
| `Power.LandedWriteDrifts` | src/power/controller.rs:391-403 | A run in which a charger write takes effect although it was reported as failed, and the charger leaves the recorded mode. |
| `PowerTask.PowerController.Switch` | src/power/controller.rs:357-409 | The in-place switch, write by write, has the effect and result of the model for every pair of outcomes. |
| `PowerTask.PowerController.Ship` | src/tasks/power.rs:123-129 | Entering shipping mode in place, with three writes that may fail. |
| `PowerTask.PowerController.Handle` | src/tasks/power.rs:106-138 | Each request answered in place with the model result. |
| `PowerTask.PowerControllerTask.ReadAndInitialize` | src/tasks/power.rs:163-186 | The top of the loop sets the initial mode before anything is served. |
| `PowerTask.PowerControllerTask.Execute` | src/tasks/power.rs:144-204 | The task over any events and outcomes refines the model and keeps its invariant. |
| `Codec.PackKeepsNumber` | src/bin/test_stand_controller/mqtt/codec.rs:53-95 | The packed bytes read in base 256 are the samples read in base 4096: the same number, for all valid samples. |
| `Codec.LengthDeterminesCount` | src/bin/test_stand_controller/mqtt/codec.rs:40-51 | Different sample counts have different byte lengths. |
| `Codec.PackInjective` | src/bin/test_stand_controller/mqtt/codec.rs:61-95 | Packing is injective. |
| `Codec.UnpackPack` | src/bin/test_stand_controller/mqtt/codec.rs:53-95 | Unpacking the packing gives the samples back. |
| `Codec.PackUnpack` | src/bin/test_stand_controller/mqtt/codec.rs:53-95 | Packing what was unpacked from well-formed bytes gives the bytes back. |
| `Codec.PackingsAreWellFormed` | src/bin/test_stand_controller/mqtt/codec.rs:53-95 | A byte string is the packing of some samples if and only if its length is 0 or 2 modulo 3 and a trailing half byte is zero. |
| `Codec.WriteU16Le` | src/bin/test_stand_controller/mqtt/codec.rs:19-25 | Writes the little-endian word at the start of the slice, keeps every other byte, fails exactly on a short slice without writing. |
| `Codec.WriteU32Le` | src/bin/test_stand_controller/mqtt/codec.rs:11-17 | The same for 32 bits. |
| `Codec.Word32RoundTrip` | src/bin/test_stand_controller/mqtt/codec.rs:11-17 | The four bytes read back give the word. |
| `Codec.WordsAreLittleEndian` | src/bin/test_stand_controller/mqtt/codec.rs:11-25 | Read in base 256, lowest byte first, the bytes of a word are the word. |
| `Codec.PackPairs` | src/bin/test_stand_controller/mqtt/codec.rs:69-84 | The pair loop packs exactly the pairs before the first one out of range. |
| `Codec.PackU12` | src/bin/test_stand_controller/mqtt/codec.rs:61-95 | For every input and slice the exact result or error; the packing is laid into the slice and all other bytes keep their values; on a sample out of range the whole pairs before it have been written. |
| `Packets.FastPacketFromSlice` | src/bin/test_stand_controller/mqtt/sensors/fast.rs:59-77 | Succeeds exactly for 1 to 128 samples of twelve bits and keeps samples, channel and timestamps. |
| `Packets.EncodeFast` | src/bin/test_stand_controller/mqtt/sensors/fast.rs:97-107 | Encodes in place with an exact length; a short buffer is reported and gets at most the header. |
| `Packets.FastPayloadDecodes` | src/bin/test_stand_controller/mqtt/sensors/fast.rs:59-107 | Every packet built from a slice fits the 256 byte buffer of the client and its payload decodes to both timestamps and all samples. |
| `Packets.TempPacketFromSlice` | src/bin/test_stand_controller/mqtt/sensors/temp.rs:36-55 | Succeeds exactly for 1 to 64 readings and keeps them. |
| `Packets.WriteWords` | src/bin/test_stand_controller/mqtt/sensors/temp.rs:77-80 | The loop writes the little-endian words of all values and nothing else. |
| `Packets.EncodeTemp` | src/bin/test_stand_controller/mqtt/sensors/temp.rs:67-83 | Encodes in place with an exact length, or reports a short buffer and leaves it unchanged. |
| `Packets.WordsDecode` | src/bin/test_stand_controller/mqtt/sensors/temp.rs:77-80 | The words decode to the values. |
| `Packets.TempPayloadDecodes` | src/bin/test_stand_controller/mqtt/sensors/temp.rs:36-83 | Every temperature packet built from a slice fits the buffer of the client and its payload decodes to both timestamps and all readings. |
| `OutboundQueue.AcceptedIsDepartedThenQueued` | src/bin/test_stand_controller/mqtt/queue.rs:147-160 | Over every run, accepted messages are those received or cleared, in order, followed by those still queued, within capacity 256. |
| `OutboundQueue.OfferAppend` | src/bin/test_stand_controller/mqtt/queue.rs:70-115 | Offering two parts one after the other accepts the same prefix as offering both at once. |
| `OutboundQueue.SlotsKeepPackets` | src/bin/test_stand_controller/mqtt/queue.rs:70-115 | A present packet is offered unchanged but for the channel of its slot, an absent one offers nothing. |
| `OutboundQueue.FastMessagesAre` | src/bin/test_stand_controller/mqtt/queue.rs:70-87 | Tensometer, tank and combustion packets in this order, each with the channel of its slot. |
| `OutboundQueue.SlowMessagesAre` | src/bin/test_stand_controller/mqtt/queue.rs:89-115 | The five slots of a slow batch in order, each with its channel. |
| `OutboundQueue.Outbound.Enqueue` | src/bin/test_stand_controller/mqtt/queue.rs:155-160 | Accepts at the back or reports a full queue unchanged. |
| `OutboundQueue.Outbound.PublishFastSensors` | src/bin/test_stand_controller/mqtt/queue.rs:70-87 | Queues exactly the fitting prefix of the present packets, each with the channel of its slot; succeeds if and only if that is all of them. |
| `OutboundQueue.Outbound.PublishSlowSensors` | src/bin/test_stand_controller/mqtt/queue.rs:89-115 | The same for the five slots of the slow batch. |
| `OutboundQueue.Outbound.ReceiveOutboundMessage` | src/bin/test_stand_controller/mqtt/queue.rs:147-149 | Takes the oldest message. |
| `OutboundQueue.Outbound.ClearOutboundQueue` | src/bin/test_stand_controller/mqtt/queue.rs:151-153 | Empties the queue; every message is accounted for as cleared. |
| `Railclock.PushesConserved` | src/bin/railclock/driver.rs:58-65 | In every run flips done, flips left in the batch and outstanding permits add up to the pushes requested. |
| `Railclock.PhaseIsParity` | src/bin/railclock/driver.rs:148-154 | In every run the outputs are the two low bits of the kept byte and the phase is the initial phase flipped by the parity of the flips. |
| `Railclock.BootShows` | src/bin/railclock/driver.rs:113-131 | A stored 0 or 3 is replaced by 1, first output high and second low; any other byte is kept; the outputs show the two low bits. |
| `Railclock.PermitsAreServed` | src/bin/railclock/driver.rs:141-162 | Without further pushes n permits are served by n + 2 polls: n flips, no permit left, and the byte saved unless the write failed. Without permits the task waits. |
| `Railclock.OutputsOppositeIff` | src/bin/railclock/driver.rs:113-131 | The two motor outputs are opposite in every run if and only if the stored byte is 0 or 3 or has differing low bits. |
| `Railclock.RestartLagsByParity` | src/bin/railclock/driver.rs:111-162 | A restart at any point of any run, from the byte then in the real-time clock, shows the present outputs if and only if an even number of flips was done since the state was last saved, whatever failed to be saved. |
| `Railclock.ClockTask.Acquire` | src/bin/railclock/driver.rs:63-65 | One poll takes every permit at once, or waits when there is none, as the model does. |
| `Railclock.ClockTask.FlipOnce` | src/bin/railclock/driver.rs:149-151 | Toggles both pins and both low bits of the byte together, as the model does. |
| `Railclock.ClockTask.ServeBatch` | src/bin/railclock/driver.rs:141-161 | A batch with pushes arriving between flips, and the attempt to save the state after it, refines the run of the model. |
| `Tmp107Chain.FeedAppend` | src/tmp107.rs:280-293 | However the host cuts its bytes into writes, the chain ends in the same state with the same replies. |
| `Tmp107Frames.BytesDecode` | src/tmp107.rs:253-271 | For every argument address, scope and direction are recovered from the command byte, which is never a chain command; the assign byte is a global chain command with the address. |
| `Tmp107Frames.PointerDecodes` | src/tmp107.rs:273-277 | The pointer byte carries the fixed high nibble and the register. |
| `Tmp107Frames.WriteFrameDecodes` | src/tmp107.rs:364-392 | A listening chain takes the bytes as exactly the write intended and stays silent. |
| `Tmp107Frames.ReadFrameDecodes` | src/tmp107.rs:316-348 | A listening chain answers with exactly the data asked for and is not changed. |
| `Tmp107Frames.InitFrameDecodes` | src/tmp107.rs:181-186 | Address initialization numbers the sensors from 1 and each answers once. |
| `Tmp107Frames.IndividualWriteTouchesOne` | src/tmp107.rs:364-376 | An individual write changes the addressed sensor only. |
| `Tmp107Frames.GlobalWriteTouchesPrefix` | src/tmp107.rs:378-392 | A global write changes the sensors up to its address only. |
| `Tmp107Frames.DescendingAt` | src/tmp107.rs:354-357 | Pair i of a global reply belongs to the i-th highest address. |
| `Tmp107Frames.GlobalReadReply` | src/tmp107.rs:332-352 | A global read of the counted sensors is answered by all of them, highest address first. |
| `Tmp107Driver.CutWriteHarmless` | src/tmp107.rs:280-293 | A write frame cut off before its last byte changes no register and is not answered. |
| `Tmp107Driver.ConfigurationsSent` | src/tmp107.rs:222-231 | The two configurations ever sent, the one-shot bit in one of them only; the shadow register never changes. |
| `Tmp107Driver.Tmp107.SendPieces` | src/tmp107.rs:280-293 | The loop over partial writes sends exactly the bytes the line lets through before a write fails. |
| `Tmp107Driver.Tmp107.Transmit` | src/tmp107.rs:280-293 | For every split into partial writes and any failure the chain has received exactly a prefix of the frame, all of it if and only if the call succeeds. |
| `Tmp107Driver.Tmp107.DiscoverSensors` | src/tmp107.rs:181-220 | Numbers the chain and counts exactly the answers in time before the first read that fails: a late one ends the count, a broken one is an error; every failure has its own result and keeps the old count; a faultless line counts all. |
| `Tmp107Driver.Tmp107.CountAnswers` | src/tmp107.rs:188-219 | The counting loop, up to 31 answers. |
| `Tmp107Driver.Tmp107.IndividualWrite` | src/tmp107.rs:362-376 | Changes exactly one register of the addressed sensor, or on failure none of any sensor. |
| `Tmp107Driver.Tmp107.GlobalWrite` | src/tmp107.rs:378-392 | Writes all counted sensors or none. |
| `Tmp107Driver.Tmp107.GlobalRead` | src/tmp107.rs:332-360 | Stores the register of every counted sensor in ascending order although replies descend; stale bytes never reach the result; a failure leaves the output unchanged. |
| `Tmp107Driver.Tmp107.IndividualRead` | src/tmp107.rs:316-327 | Returns the register of the addressed sensor. |
| `Tmp107Driver.Tmp107.TriggerOneShot` | src/tmp107.rs:146-152 | Starts a conversion on every counted sensor, all left in shutdown mode. |
| `Tmp107Driver.Tmp107.Shutdown` | src/tmp107.rs:140-144 | Shutdown mode on every counted sensor without a conversion. |
| `Tmp107Driver.Tmp107.SetLedOutput` | src/tmp107.rs:233-249 | Sets the limit pair of one sensor to 0x7FFC and 0x7FF8 for on, 0x8000 for off; a failure touches no other register and no other sensor. |
| `Tmp107Driver.Tmp107.ShowAddressLeds` | src/tmp107.rs:168-177 | After success registers 3 and 5 of every sensor are 0x7FF8 or 0x8000 by the two low bits of its own address, below high limits of 0x7FFC; after a failure only limit registers differ. |
| `Tmp107Driver.StoreReplies` | src/tmp107.rs:354-357 | The loop that turns descending replies into ascending readings, in place. |
| `TemperatureBatches.PacketsFollowReadings` | src/bin/test_stand_controller/temperature_collection.rs:84-113 | The b-th packet of each sensor is offered in the b-th round, holds its readings of the b-th twenty successful cycles and carries the times of the first and twentieth. |
| `TemperatureBatches.OfferedLength` | src/bin/test_stand_controller/temperature_collection.rs:91-114 | One packet is offered for each sensor and whole block of twenty successful cycles. |
| `TemperatureBatches.SensorValuesAreReadings` | src/bin/test_stand_controller/temperature_collection.rs:84-113 | The packets offered for a sensor, concatenated, are its readings of the successful cycles in order, up to the last whole block. |
| `TemperatureBatches.OfferedGrows` | src/bin/test_stand_controller/temperature_collection.rs:91-114 | Behind whole blocks twenty more readings add one packet for each sensor, fewer add none. |
| `TemperatureCollection.BatchBuffer.FillColumn` | src/bin/test_stand_controller/temperature_collection.rs:88-90 | One value for each sensor in the column of the sample, the rest of the buffer unchanged. |
| `TemperatureCollection.BatchBuffer.OfferPackets` | src/bin/test_stand_controller/temperature_collection.rs:94-112 | A full buffer offers exactly the packets of its twenty readings, in address order. |
| `TemperatureCollection.BatchBuffer.Add` | src/bin/test_stand_controller/temperature_collection.rs:84-114 | A successful cycle joins the readings; the twentieth one offers the block and starts the next. |
| `TemperatureCollection.StartCollection` | src/bin/test_stand_controller/temperature_collection.rs:42-58 | Collection starts if and only if the shutdown write gets through, with every counted sensor in shutdown mode and an empty batch. |
| `TemperatureCollection.Collector.RunCycle` | src/bin/test_stand_controller/temperature_collection.rs:61-114 | A cycle succeeds if and only if trigger, clear, request and replies get through, whatever happens to the LEDs; it then adds the temperatures just converted by address, and otherwise nothing; on a faultless line it always succeeds and every LED shows its address. |
| `TemperatureCollection.Collector.Collect` | src/bin/test_stand_controller/temperature_collection.rs:60-115 | Any number of cycles against the chain and any line: what was offered is exactly the packets of the successful cycles. |

## Left out

- WiFi, DNS, TCP, the MQTT session, NTP, the web server and its page: I/O over libraries.
- ADC sampling, PWM, UART and I2C peripherals, pcf857x, bq24296m, mcp794xx and rkyv: fallible ports with a last written value. Reading the expander is assumed to leave its output bits alone.
- Signal tower register bytes, topic strings, status strings and decimal formatting: finite tables. The tower is modelled by its configuration.
- Slow, armed and servo payloads: fixed-size relatives of the two payloads modelled.
- Publishing of states, positions and log lines by the sequencer and the servo: those tasks ignore the result. The camera shutter is only counted.
- FireSequencerTower.ArmedValueFollowsPin: takes the pin driver to remember an edge until it is handled; its internals are not part of this model.
- Armed switch reports: only the stored value and the pending edge are kept.
- Dropping a `transact` future half way: it leaves a stale response behind, so pairing is about completed calls.
- Charger watchdog expiry, statistics for display, the watch channel and the sleep times of the power task. Deep sleep.
- The remaining charger configuration registers: one transfer with two bits of effect; the watchdog time configured is taken to be one of the three that enable it.
- Catch-up of the clock after a restart: it compares the seconds of the minute with a Unix time stamp, so the number of minutes meant is not what is computed.
- Overflow of the permit count of the clock, and its requests to the boost converter around a batch.
- ServoTask.ServoController.Travel: no command arrives while the loop runs; arrivals at any moment are covered by `ServoTask.ServoController.PollTask`.
- ServoTask.ServoController.ServeCommand: no command arrives while the travel runs; covered by `ServoTask.ServoController.PollTask`.
- ServoTask.ServoController.ServeQueue: no command arrives while the method runs; arrivals at any moment are covered by `ServoTask.ServoController.Execute`.
- Servo.DegreesInRange: stated up to 1800, beyond which the result leaves the pulse range; `Servo.DegreesExactIff` covers the whole type. The sum wraps as release builds do.
- Tmp107Driver.Tmp107.DiscoverSensors: one attempt, on chains of at most 31 sensors; the retry loop around it is left out, and a longer chain has no addresses for its last sensors.
- Frames cut off by a failed write: the chain is assumed to have timed out before the next cycle, and late reply bytes to have arrived before the next clear of the receive buffer.
- Sending a global read while `out` is too short, other registers than the sixteen, and addresses outside the chain: no caller does.
- Masks and shifts of unsigned words are written as remainders and quotients.

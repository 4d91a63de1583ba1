/** The outbound message queue: bounded, first in first out, fed by batches and emptied by
    the client or by a clear. */
module OutboundQueue {
  import opened Codec
  import opened Packets
  import opened Wrappers
  import FireSequencer
  import Servo

  const OUTBOUND_QUEUE_CAPACITY: nat := 256

  datatype SlowAdcChannel = BatteryStand | BatteryComputer | BoostVoltage | StarterSense

  datatype SlowAdcPacket = SlowAdcPacket(channel: SlowAdcChannel, timestampMs: u32, value: u16)

  datatype ServoSensorPacket = ServoSensorPacket(timestampMs: u32, value: u16)

  datatype OutboundMessage =
    | FastAdc(fast: FastAdcPacket)
    | SlowAdc(slow: SlowAdcPacket)
    | Armed(timestampMs: u32, value: u8)
    | Temp(temp: TempPacket)
    | ServoSensor(servo: ServoSensorPacket)
    | StateStatus(state: FireSequencer.StateStatus)
    | ServoStatus(status: Servo.ServoStatus)
    | CommandStatus(text: seq<u8>)

  datatype PublishError = QueueFull

  datatype FastSensorsBatch = FastSensorsBatch(
    tensometer: Option<FastAdcPacket>,
    tankPressure: Option<FastAdcPacket>,
    combustionPressure: Option<FastAdcPacket>)

  datatype SlowSensorsBatch = SlowSensorsBatch(
    batteryStand: Option<SlowAdcPacket>,
    batteryComputer: Option<SlowAdcPacket>,
    boostVoltage: Option<SlowAdcPacket>,
    starterSense: Option<SlowAdcPacket>,
    servo: Option<ServoSensorPacket>)

  /** How a message left the queue. */
  datatype Departure = Received(message: OutboundMessage) | Cleared(message: OutboundMessage)

  /** The queue with the history of what it accepted and let go. */
  datatype Queue = Queue(items: seq<OutboundMessage>, accepted: seq<OutboundMessage>, departed: seq<Departure>)

  datatype Op =
    | Publish(message: OutboundMessage)
    | PublishFast(fast: FastSensorsBatch)
    | PublishSlow(slow: SlowSensorsBatch)
    | Receive
    | Clear

  const EMPTY := Queue([], [], [])

  function Fast(packet: Option<FastAdcPacket>, channel: FastAdcChannel): (slot: seq<OutboundMessage>)
    ensures |slot| <= 1
  {
    match packet
    case None => []
    case Some(p) => [FastAdc(p.SetChannel(channel))]
  }

  function Slow(packet: Option<SlowAdcPacket>, channel: SlowAdcChannel): (slot: seq<OutboundMessage>)
    ensures |slot| <= 1
  {
    match packet
    case None => []
    case Some(p) => [SlowAdc(p.(channel := channel))]
  }

  /** The present packets of a batch in slot order, each with the channel of its slot. */
  function FastMessages(batch: FastSensorsBatch): seq<OutboundMessage> {
    Fast(batch.tensometer, Tensometer) + Fast(batch.tankPressure, PressureTank)
    + Fast(batch.combustionPressure, PressureCombustion)
  }

  function SlowMessages(batch: SlowSensorsBatch): seq<OutboundMessage> {
    Slow(batch.batteryStand, BatteryStand) + Slow(batch.batteryComputer, BatteryComputer)
    + Slow(batch.boostVoltage, BoostVoltage) + Slow(batch.starterSense, StarterSense)
    + (match batch.servo case None => [] case Some(p) => [ServoSensor(p)])
  }

  /** The slots of a fast batch in order, each present packet with the channel of its slot. */
  lemma FastMessagesAre(batch: FastSensorsBatch)
    ensures FastMessages(batch) ==
            (if batch.tensometer.Some? then [FastAdc(batch.tensometer.value.(channel := Tensometer))] else [])
            + (if batch.tankPressure.Some?
               then [FastAdc(batch.tankPressure.value.(channel := PressureTank))] else [])
            + (if batch.combustionPressure.Some?
               then [FastAdc(batch.combustionPressure.value.(channel := PressureCombustion))] else [])
  {
  }

  lemma SlowMessagesAre(batch: SlowSensorsBatch)
    ensures SlowMessages(batch) ==
            (if batch.batteryStand.Some? then [SlowAdc(batch.batteryStand.value.(channel := BatteryStand))] else [])
            + (if batch.batteryComputer.Some?
               then [SlowAdc(batch.batteryComputer.value.(channel := BatteryComputer))] else [])
            + (if batch.boostVoltage.Some?
               then [SlowAdc(batch.boostVoltage.value.(channel := BoostVoltage))] else [])
            + (if batch.starterSense.Some?
               then [SlowAdc(batch.starterSense.value.(channel := StarterSense))] else [])
            + (if batch.servo.Some? then [ServoSensor(batch.servo.value)] else [])
  {
  }

  /** A present packet is offered unchanged but for the channel of its slot, an absent one
      offers nothing. */
  lemma SlotsKeepPackets(fast: Option<FastAdcPacket>, slow: Option<SlowAdcPacket>, f: FastAdcChannel, s: SlowAdcChannel)
    ensures |Fast(fast, f)| == (if fast.Some? then 1 else 0) && |Slow(slow, s)| == (if slow.Some? then 1 else 0)
    ensures fast.Some? ==>
              var m := Fast(fast, f)[0];
              m.FastAdc? && m.fast.channel == f && m.fast.SetChannel(fast.value.channel) == fast.value
    ensures slow.Some? ==>
              var m := Slow(slow, s)[0];
              m.SlowAdc? && m.slow.channel == s && m.slow.(channel := slow.value.channel) == slow.value
  {
  }

  /** The part of `messages` that still fits. */
  function Fitting(q: Queue, messages: seq<OutboundMessage>): seq<OutboundMessage>
    requires |q.items| <= OUTBOUND_QUEUE_CAPACITY
  {
    var room := OUTBOUND_QUEUE_CAPACITY - |q.items|;
    if |messages| <= room then messages else messages[..room]
  }

  function Offer(q: Queue, messages: seq<OutboundMessage>): Queue
    requires |q.items| <= OUTBOUND_QUEUE_CAPACITY
  {
    var fitting := Fitting(q, messages);
    q.(items := q.items + fitting, accepted := q.accepted + fitting)
  }

  function Next(q: Queue, op: Op): (r: Queue)
    requires |q.items| <= OUTBOUND_QUEUE_CAPACITY
    ensures |r.items| <= OUTBOUND_QUEUE_CAPACITY
  {
    match op
    case Publish(message) => Offer(q, [message])
    case PublishFast(batch) => Offer(q, FastMessages(batch))
    case PublishSlow(batch) => Offer(q, SlowMessages(batch))
    case Receive =>
      if q.items == [] then q
      else q.(items := q.items[1..], departed := q.departed + [Received(q.items[0])])
    case Clear =>
      q.(items := [], departed := q.departed + seq(|q.items|, i requires 0 <= i < |q.items| => Cleared(q.items[i])))
  }

  function Run(q: Queue, ops: seq<Op>): (r: Queue)
    requires |q.items| <= OUTBOUND_QUEUE_CAPACITY
    ensures |r.items| <= OUTBOUND_QUEUE_CAPACITY
    decreases |ops|
  {
    if ops == [] then q else Run(Next(q, ops[0]), ops[1..])
  }

  function Messages(departed: seq<Departure>): (messages: seq<OutboundMessage>)
    ensures |messages| == |departed|
  {
    seq(|departed|, i requires 0 <= i < |departed| => departed[i].message)
  }

  lemma NextConserves(q: Queue, op: Op)
    requires |q.items| <= OUTBOUND_QUEUE_CAPACITY
    requires q.accepted == Messages(q.departed) + q.items
    ensures var r := Next(q, op);
            r.accepted == Messages(r.departed) + r.items
  {
    hide FastMessages, SlowMessages;
    match op
    case Receive =>
      if q.items != [] {
        MessagesAppend(q.departed, [Received(q.items[0])]);
        assert q.items == [q.items[0]] + q.items[1..];
      }
    case Clear =>
      var cleared := Next(q, Clear).departed[|q.departed|..];
      MessagesAppend(q.departed, cleared);
      assert Messages(cleared) == q.items;
    case _ =>
  }

  lemma MessagesAppend(a: seq<Departure>, b: seq<Departure>)
    ensures Messages(a + b) == Messages(a) + Messages(b)
  {
  }

  lemma {:induction false} RunConserves(q: Queue, ops: seq<Op>)
    requires |q.items| <= OUTBOUND_QUEUE_CAPACITY
    requires q.accepted == Messages(q.departed) + q.items
    ensures var r := Run(q, ops);
            r.accepted == Messages(r.departed) + r.items
    decreases |ops|
  {
    hide Messages, Next;
    if ops != [] {
      NextConserves(q, ops[0]);
      RunConserves(Next(q, ops[0]), ops[1..]);
    }
  }

  /** Over every run the accepted messages are those received or cleared, in the order they
      left, followed by those still queued: nothing is lost, invented or overtaken. */
  lemma AcceptedIsDepartedThenQueued(ops: seq<Op>)
    ensures var q := Run(EMPTY, ops);
            && q.accepted == Messages(q.departed) + q.items
            && |q.accepted| == |q.departed| + |q.items|
            && |q.items| <= 256
  {
    RunConserves(EMPTY, ops);
  }

  lemma FittingAppend(q: Queue, a: seq<OutboundMessage>, b: seq<OutboundMessage>)
    requires |q.items| <= OUTBOUND_QUEUE_CAPACITY
    ensures Fitting(q, a) + Fitting(Offer(q, a), b) == Fitting(q, a + b)
  {
    var room := OUTBOUND_QUEUE_CAPACITY - |q.items|;
    if |a| >= room {
      assert (a + b)[..room] == a[..room];
    } else if |a + b| > room {
      assert (a + b)[..room] == a + b[..room - |a|];
    }
  }

  lemma OfferAppend(q: Queue, a: seq<OutboundMessage>, b: seq<OutboundMessage>)
    requires |q.items| <= OUTBOUND_QUEUE_CAPACITY
    ensures Offer(Offer(q, a), b) == Offer(q, a + b)
  {
    FittingAppend(q, a, b);
    var x, y := Fitting(q, a), Fitting(Offer(q, a), b);
    assert |Offer(q, a).items| <= OUTBOUND_QUEUE_CAPACITY;
    hide Fitting;
    assert q.items + x + y == q.items + (x + y) && q.accepted + x + y == q.accepted + (x + y);
  }

  lemma OfferNothing(q: Queue)
    requires |q.items| <= OUTBOUND_QUEUE_CAPACITY
    ensures Offer(q, []) == q
  {
  }

  lemma OfferToFull(q: Queue, messages: seq<OutboundMessage>)
    requires |q.items| == OUTBOUND_QUEUE_CAPACITY
    ensures Offer(q, messages) == q
  {
  }

  // ---------------------------------------------------------------------------
  // The queue in place
  // ---------------------------------------------------------------------------

  class Outbound {
    var items: seq<OutboundMessage>
    ghost var accepted: seq<OutboundMessage>
    ghost var departed: seq<Departure>

    ghost function Model(): Queue
      reads this
    {
      Queue(items, accepted, departed)
    }

    ghost predicate Valid()
      reads this
    {
      |items| <= OUTBOUND_QUEUE_CAPACITY && accepted == Messages(departed) + items
    }

    constructor ()
      ensures Valid() && Model() == EMPTY
    {
      items, accepted, departed := [], [], [];
    }

    method Enqueue(message: OutboundMessage) returns (r: Result<(), PublishError>)
      requires Valid()
      modifies this
      ensures Valid() && Model() == Offer(old(Model()), [message])
      ensures r.Ok? <==> |old(items)| < 256
      ensures items == if r.Ok? then old(items) + [message] else old(items)
    {
      if |items| == OUTBOUND_QUEUE_CAPACITY {
        assert Fitting(Model(), [message]) == [];
        return Err(QueueFull);
      }
      items := items + [message];
      accepted := accepted + [message];
      r := Ok(());
    }

    /** One slot of a batch, with `rest` still to come: an absent packet offers nothing, and
        behind a full queue the rest makes no difference. */
    method EnqueueSlot(slot: seq<OutboundMessage>, ghost rest: seq<OutboundMessage>)
      returns (r: Result<(), PublishError>)
      requires Valid() && |slot| <= 1
      modifies this
      ensures Valid()
      ensures r.Ok? <==> |old(items)| + |slot| <= OUTBOUND_QUEUE_CAPACITY
      ensures r.Ok? ==> Offer(Model(), rest) == Offer(old(Model()), slot + rest)
      ensures r.Ok? ==> |items| == |old(items)| + |slot|
      ensures r.Err? ==> Model() == Offer(old(Model()), slot + rest)
    {
      OfferAppend(Model(), slot, rest);
      if slot == [] {
        assert Offer(Model(), slot) == Model();
        return Ok(());
      }
      assert slot == [slot[0]];
      hide Messages;
      r := Enqueue(slot[0]);
      if r.Err? {
        OfferToFull(Model(), rest);
      }
    }

    /** Exactly the prefix that fits is queued, and success means all of the batch was. */
    method PublishFastSensors(batch: FastSensorsBatch) returns (r: Result<(), PublishError>)
      requires Valid()
      modifies this
      ensures Valid() && Model() == Next(old(Model()), PublishFast(batch))
      ensures r.Ok? <==> |old(items)| + |FastMessages(batch)| <= OUTBOUND_QUEUE_CAPACITY
      ensures var present :=
                (if batch.tensometer.Some? then [FastAdc(batch.tensometer.value.(channel := Tensometer))] else [])
                + (if batch.tankPressure.Some?
                   then [FastAdc(batch.tankPressure.value.(channel := PressureTank))] else [])
                + (if batch.combustionPressure.Some?
                   then [FastAdc(batch.combustionPressure.value.(channel := PressureCombustion))] else []);
              items == old(items) + (if |old(items)| + |present| <= 256 then present else present[..256 - |old(items)|])
    {
      var slot0, slot1 := Fast(batch.tensometer, Tensometer), Fast(batch.tankPressure, PressureTank);
      var slot2 := Fast(batch.combustionPressure, PressureCombustion);
      assert FastMessages(batch) == slot0 + (slot1 + (slot2 + []));
      FastMessagesAre(batch);
      hide Valid, FastMessages, Fast, Offer;
      r := EnqueueSlot(slot0, slot1 + (slot2 + []));
      if r.Err? {
        return;
      }
      r := EnqueueSlot(slot1, slot2 + []);
      if r.Err? {
        return;
      }
      r := EnqueueSlot(slot2, []);
      OfferNothing(Model());
    }

    method PublishSlowSensors(batch: SlowSensorsBatch) returns (r: Result<(), PublishError>)
      requires Valid()
      modifies this
      ensures Valid() && Model() == Next(old(Model()), PublishSlow(batch))
      ensures r.Ok? <==> |old(items)| + |SlowMessages(batch)| <= OUTBOUND_QUEUE_CAPACITY
      ensures var present :=
                (if batch.batteryStand.Some? then [SlowAdc(batch.batteryStand.value.(channel := BatteryStand))] else [])
                + (if batch.batteryComputer.Some?
                   then [SlowAdc(batch.batteryComputer.value.(channel := BatteryComputer))] else [])
                + (if batch.boostVoltage.Some?
                   then [SlowAdc(batch.boostVoltage.value.(channel := BoostVoltage))] else [])
                + (if batch.starterSense.Some?
                   then [SlowAdc(batch.starterSense.value.(channel := StarterSense))] else [])
                + (if batch.servo.Some? then [ServoSensor(batch.servo.value)] else []);
              items == old(items) + (if |old(items)| + |present| <= 256 then present else present[..256 - |old(items)|])
    {
      SlowMessagesAre(batch);
      hide Valid, SlowMessages;
      r := EnqueueSlowSlots(batch);
    }

    /** The five slots of a slow batch, until one finds the queue full. */
    method EnqueueSlowSlots(batch: SlowSensorsBatch) returns (r: Result<(), PublishError>)
      requires Valid()
      modifies this
      ensures Valid() && Model() == Offer(old(Model()), SlowMessages(batch))
      ensures r.Ok? <==> |old(items)| + |SlowMessages(batch)| <= OUTBOUND_QUEUE_CAPACITY
    {
      var slot0, slot1 := Slow(batch.batteryStand, BatteryStand), Slow(batch.batteryComputer, BatteryComputer);
      var slot2, slot3 := Slow(batch.boostVoltage, BoostVoltage), Slow(batch.starterSense, StarterSense);
      var slot4 := match batch.servo case None => [] case Some(p) => [ServoSensor(p)];
      ghost var from3 := slot3 + (slot4 + []);
      ghost var from1 := slot1 + (slot2 + from3);
      assert SlowMessages(batch) == slot0 + from1;
      hide Valid, SlowMessages, Slow, Offer;
      r := EnqueueSlot(slot0, from1);
      if r.Err? {
        return;
      }
      r := EnqueueSlot(slot1, slot2 + from3);
      if r.Err? {
        return;
      }
      r := EnqueueSlot(slot2, from3);
      if r.Err? {
        return;
      }
      r := EnqueueSlot(slot3, slot4 + []);
      if r.Err? {
        return;
      }
      r := EnqueueSlot(slot4, []);
      OfferNothing(Model());
    }

    /** One poll of the receiving future. */
    method ReceiveOutboundMessage() returns (message: Option<OutboundMessage>)
      requires Valid()
      modifies this
      ensures Valid() && Model() == Next(old(Model()), Receive)
      ensures message == if old(items) == [] then None else Some(old(items)[0])
      ensures items == if old(items) == [] then [] else old(items)[1..]
    {
      NextConserves(Model(), Receive);
      if items == [] {
        return None;
      }
      message := Some(items[0]);
      departed := departed + [Received(items[0])];
      items := items[1..];
    }

    method ClearOutboundQueue()
      requires Valid()
      modifies this
      ensures Valid() && Model() == Next(old(Model()), Clear)
      ensures items == [] && accepted == old(accepted)
    {
      NextConserves(Model(), Clear);
      departed := Next(Model(), Clear).departed;
      items := [];
    }
  }
}

/** A daisy chain of TMP107 sensors as its data sheet describes it (TI SBOS716D, section
    7.3.3): the command and address phase of Table 2, the register pointer of Figure 21,
    writes as in Figures 26 and 28, reads as in Figures 27 and 29, address initialization
    as in Figure 23. The chain consumes the host's bytes one at a time. */
module Tmp107Chain {
  import opened Codec

  const REGISTERS: nat := 16

  /** `converting` says that a one-shot conversion has been started. */
  datatype Sensor = Sensor(address: nat, registers: seq<u16>, converting: bool)

  /** How much of a frame has arrived. */
  datatype Frame =
    | AwaitCalibration
    | AwaitCommand
    | AwaitFirstAddress
    | AwaitPointer(command: u8)
    | AwaitLowByte(command: u8, register: nat)
    | AwaitHighByte(command: u8, register: nat, low: u8)

  datatype Chain = Chain(sensors: seq<Sensor>, frame: Frame)

  /** The chain after some bytes, and what it has sent to the host meanwhile. */
  datatype Fed = Fed(chain: Chain, reply: seq<u8>)

  predicate IsGlobal(command: u8) { command % 2 == 1 }

  predicate IsRead(command: u8) { command / 2 % 2 == 1 }

  predicate IsCommand(command: u8) { command / 4 % 2 == 1 }

  function AddressOf(command: u8): nat { command / 8 }

  predicate Addressed(s: Sensor, command: u8) {
    if IsGlobal(command) then s.address <= AddressOf(command) else s.address == AddressOf(command)
  }

  predicate OneShotBit(value: u16) { value / 0x1000 % 2 == 1 }

  predicate ShutdownBit(value: u16) { value / 0x800 % 2 == 1 }

  /** A write to one sensor. Register 0 holds the temperature, register 1 the configuration:
      its one-shot bit starts a conversion in shutdown mode and always reads as zero. */
  function WriteRegister(s: Sensor, register: nat, value: u16): (t: Sensor)
    requires register < |s.registers|
    ensures |t.registers| == |s.registers|
  {
    if register == 1 && OneShotBit(value)
    then s.(registers := s.registers[register := value - 0x1000], converting := s.converting || ShutdownBit(value))
    else s.(registers := s.registers[register := value])
  }

  ghost predicate Intact(sensors: seq<Sensor>) {
    forall j :: 0 <= j < |sensors| ==> |sensors[j].registers| == REGISTERS
  }

  function WriteAll(sensors: seq<Sensor>, command: u8, register: nat, value: u16): (r: seq<Sensor>)
    requires register < REGISTERS && Intact(sensors)
    ensures |r| == |sensors| && Intact(r)
  {
    seq(|sensors|, j requires 0 <= j < |sensors| =>
      if Addressed(sensors[j], command) then WriteRegister(sensors[j], register, value) else sensors[j])
  }

  /** The position of the sensor with this address, or the length of the chain. */
  function Find(sensors: seq<Sensor>, address: nat): (j: nat)
    ensures j <= |sensors|
    ensures j < |sensors| ==> sensors[j].address == address
    ensures forall k :: 0 <= k < j ==> sensors[k].address != address
  {
    if sensors == [] || sensors[0].address == address then 0 else 1 + Find(sensors[1..], address)
  }

  /** The data of a global read: the sensor asked for first, then down to the first one. */
  function Descending(sensors: seq<Sensor>, register: nat): (bytes: seq<u8>)
    requires register < REGISTERS && Intact(sensors)
    ensures |bytes| == 2 * |sensors|
  {
    if sensors == [] then []
    else
      var n := |sensors| - 1;
      ToLeBytes16(sensors[n].registers[register]) + Descending(sensors[..n], register)
  }

  /** A read of a sensor that is not there is not answered. */
  function ReadReply(sensors: seq<Sensor>, command: u8, register: nat): seq<u8>
    requires register < REGISTERS && Intact(sensors)
  {
    var j := Find(sensors, AddressOf(command));
    if j == |sensors| then []
    else if IsGlobal(command) then Descending(sensors[..j + 1], register)
    else ToLeBytes16(sensors[j].registers[register])
  }

  function Readdress(sensors: seq<Sensor>, first: nat): (r: seq<Sensor>)
    ensures |r| == |sensors|
    ensures Intact(sensors) ==> Intact(r)
  {
    seq(|sensors|, j requires 0 <= j < |sensors| => sensors[j].(address := first + j))
  }

  /** Each sensor answers with one byte once it has taken its address. */
  function InitReply(sensors: seq<Sensor>): (bytes: seq<u8>)
    ensures |bytes| == |sensors|
  {
    seq(|sensors|, j requires 0 <= j < |sensors| => sensors[j].address % 32 * 8 + 5)
  }

  function Feed(c: Chain, b: u8): (r: Fed)
    requires Intact(c.sensors)
    ensures Intact(r.chain.sensors) && |r.chain.sensors| == |c.sensors|
  {
    match c.frame
    case AwaitCalibration =>
      Fed(c.(frame := if b == 0x55 then AwaitCommand else AwaitCalibration), [])
    case AwaitCommand =>
      if b == 0x95 then Fed(c.(frame := AwaitFirstAddress), [])
      else if IsCommand(b) then Fed(c.(frame := AwaitCalibration), [])
      else Fed(c.(frame := AwaitPointer(b)), [])
    case AwaitFirstAddress =>
      var sensors := Readdress(c.sensors, AddressOf(b));
      Fed(Chain(sensors, AwaitCalibration), InitReply(sensors))
    case AwaitPointer(command) =>
      if b / 16 != 0xA then Fed(c.(frame := AwaitCalibration), [])
      else if IsRead(command) then Fed(c.(frame := AwaitCalibration), ReadReply(c.sensors, command, b % 16))
      else Fed(c.(frame := AwaitLowByte(command, b % 16)), [])
    case AwaitLowByte(command, register) => Fed(c.(frame := AwaitHighByte(command, register, b)), [])
    case AwaitHighByte(command, register, low) =>
      if register < REGISTERS
      then Fed(Chain(WriteAll(c.sensors, command, register, FromLeBytes16([low, b])), AwaitCalibration), [])
      else Fed(c.(frame := AwaitCalibration), [])
  }

  function FeedAll(c: Chain, bytes: seq<u8>): (r: Fed)
    requires Intact(c.sensors)
    ensures Intact(r.chain.sensors) && |r.chain.sensors| == |c.sensors|
    decreases |bytes|
  {
    if bytes == [] then Fed(c, [])
    else
      var one := Feed(c, bytes[0]);
      var rest := FeedAll(one.chain, bytes[1..]);
      Fed(rest.chain, one.reply + rest.reply)
  }

  /** The chain cannot tell how the host cuts its bytes into writes. */
  lemma {:induction false} FeedAppend(c: Chain, a: seq<u8>, b: seq<u8>)
    requires Intact(c.sensors)
    ensures var first := FeedAll(c, a);
            var second := FeedAll(first.chain, b);
            FeedAll(c, a + b) == Fed(second.chain, first.reply + second.reply)
    decreases |a|
  {
    hide Feed;
    if a == [] {
      assert a + b == b;
    } else {
      assert (a + b)[1..] == a[1..] + b;
      FeedAppend(Feed(c, a[0]).chain, a[1..], b);
    }
  }

  /** After address initialization: the sensor at position j has address j + 1. */
  ghost predicate Numbered(sensors: seq<Sensor>) {
    Intact(sensors) && forall j :: 0 <= j < |sensors| ==> sensors[j].address == j + 1
  }

  lemma {:induction false} FindNumbered(sensors: seq<Sensor>, address: nat)
    requires Numbered(sensors) && 1 <= address <= |sensors|
    ensures Find(sensors, address) == address - 1
  {
    var j := Find(sensors, address);
    assert sensors[address - 1].address == address;
  }

  /** The conversions that were started finish and leave their results. */
  function Convert(c: Chain, temperatures: seq<u16>): (r: Chain)
    requires Intact(c.sensors) && |temperatures| == |c.sensors|
    ensures Intact(r.sensors) && |r.sensors| == |c.sensors|
  {
    c.(sensors := seq(|c.sensors|, j requires 0 <= j < |c.sensors| =>
      if c.sensors[j].converting
      then c.sensors[j].(registers := c.sensors[j].registers[0 := temperatures[j]], converting := false)
      else c.sensors[j]))
  }
}

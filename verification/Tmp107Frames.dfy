/** The frames the driver builds and what the chain makes of them. */
module Tmp107Frames {
  import opened Codec
  import opened Tmp107Chain

  const MAX_SENSORS: nat := 31
  const CALIBRATION_BYTE: u8 := 0x55
  const ADDR_INIT_COMMAND: u8 := 0x95

  function CommandByte(global: bool, read: bool, address: u8): u8 {
    address % 32 * 8 + (if global then 1 else 0) + (if read then 2 else 0)
  }

  function AddrInitByte(address: u8): u8 {
    5 + address % 32 * 8
  }

  function RegisterPointer(register: u8): u8 {
    register % 16 + 0xA0
  }

  function WriteFrame(global: bool, address: u8, register: u8, value: u16): seq<u8> {
    [CALIBRATION_BYTE, CommandByte(global, false, address), RegisterPointer(register)] + ToLeBytes16(value)
  }

  function ReadFrame(global: bool, address: u8, register: u8): seq<u8> {
    [CALIBRATION_BYTE, CommandByte(global, true, address), RegisterPointer(register)]
  }

  const INIT_FRAME: seq<u8> := [CALIBRATION_BYTE, ADDR_INIT_COMMAND, AddrInitByte(1)]

  /** Table 2 read back, for every argument: the command byte carries the low five bits of the
      address, scope and direction, and is no chain command; the assign byte is a global
      chain command that writes. */
  lemma BytesDecode(global: bool, read: bool, address: u8)
    ensures var b := CommandByte(global, read, address);
            && AddressOf(b) == address % 32 && IsGlobal(b) == global && IsRead(b) == read
            && !IsCommand(b) && b != ADDR_INIT_COMMAND
    ensures var b := AddrInitByte(address);
            AddressOf(b) == address % 32 && IsGlobal(b) && !IsRead(b) && IsCommand(b)
  {
    var low := address % 32;
    var flags := (if global then 1 else 0) + (if read then 2 else 0);
    FlagsDecode(low, flags);
    FlagsDecode(low, 5);
  }

  lemma CommandByteDecodes(global: bool, read: bool, address: u8)
    requires address < 32
    ensures var b := CommandByte(global, read, address);
            && AddressOf(b) == address && IsGlobal(b) == global && IsRead(b) == read
            && !IsCommand(b) && b != ADDR_INIT_COMMAND
    ensures AddressOf(AddrInitByte(address)) == address
  {
    BytesDecode(global, read, address);
    hide CommandByte, AddrInitByte;
  }

  lemma FlagsDecode(low: nat, flags: nat)
    requires low < 32 && flags < 8
    ensures var b := low * 8 + flags;
            && AddressOf(b) == low
            && IsGlobal(b) == (flags % 2 == 1) && IsRead(b) == (flags / 2 % 2 == 1) && IsCommand(b) == (flags >= 4)
  {
    var b := low * 8 + flags;
    assert b / 2 == low * 4 + flags / 2 && b / 4 == low * 2 + flags / 4;
  }

  lemma PointerDecodes(register: u8)
    ensures RegisterPointer(register) / 16 == 0xA && RegisterPointer(register) % 16 == register % 16
    ensures register < 16 ==> RegisterPointer(register) % 16 == register
  {
  }

  ghost predicate Listening(c: Chain) {
    Intact(c.sensors) && c.frame == AwaitCalibration
  }

  lemma FeedTwo(c: Chain, b0: u8, b1: u8, rest: seq<u8>)
    requires Intact(c.sensors)
    ensures var one := Feed(c, b0);
            var two := Feed(one.chain, b1);
            var last := FeedAll(two.chain, rest);
            FeedAll(c, [b0, b1] + rest) == Fed(last.chain, one.reply + two.reply + last.reply)
  {
    hide Feed;
    assert ([b0, b1] + rest)[1..] == [b1] + rest;
    assert ([b1] + rest)[1..] == rest;
  }

  lemma FeedOne(c: Chain, b: u8)
    requires Intact(c.sensors)
    ensures FeedAll(c, [b]) == Feed(c, b)
  {
    hide Feed;
    assert FeedAll(Feed(c, b).chain, []) == Fed(Feed(c, b).chain, []);
  }

  /** A listening chain takes a write frame as the write it encodes, and stays silent. */
  lemma WriteFrameDecodes(c: Chain, global: bool, address: u8, register: u8, value: u16)
    requires Listening(c) && address < 32 && register < 16
    ensures FeedAll(c, WriteFrame(global, address, register, value)) ==
            Fed(Chain(WriteAll(c.sensors, CommandByte(global, false, address), register, value), AwaitCalibration), [])
  {
    var command, pointer := CommandByte(global, false, address), RegisterPointer(register);
    var low, high := ToLeBytes16(value)[0], ToLeBytes16(value)[1];
    CommandByteDecodes(global, false, address);
    PointerDecodes(register);
    Word16RoundTrip(value);
    assert [low, high] == ToLeBytes16(value);
    var c2 := c.(frame := AwaitPointer(command));
    var c4 := c.(frame := AwaitHighByte(command, register, low));
    assert Feed(c, CALIBRATION_BYTE) == Fed(c.(frame := AwaitCommand), []);
    assert Feed(c.(frame := AwaitCommand), command) == Fed(c2, []);
    assert Feed(c2, pointer) == Fed(c.(frame := AwaitLowByte(command, register)), []);
    assert Feed(c.(frame := AwaitLowByte(command, register)), low) == Fed(c4, []);
    assert Feed(c4, high).reply == [];
    assert WriteFrame(global, address, register, value) ==
           [CALIBRATION_BYTE, command] + ([pointer, low] + [high]);
    FeedTwo(c, CALIBRATION_BYTE, command, [pointer, low] + [high]);
    FeedTwo(c2, pointer, low, [high]);
    FeedOne(c4, high);
    hide FeedAll, CommandByte, RegisterPointer, ToLeBytes16, WriteAll;
  }

  /** A listening chain answers a read frame with the data asked for and is not changed. */
  lemma ReadFrameDecodes(c: Chain, global: bool, address: u8, register: u8)
    requires Listening(c) && address < 32 && register < 16
    ensures FeedAll(c, ReadFrame(global, address, register)) ==
            Fed(c, ReadReply(c.sensors, CommandByte(global, true, address), register))
  {
    var command, pointer := CommandByte(global, true, address), RegisterPointer(register);
    CommandByteDecodes(global, true, address);
    PointerDecodes(register);
    assert ReadFrame(global, address, register) == [CALIBRATION_BYTE, command] + [pointer];
    FeedTwo(c, CALIBRATION_BYTE, command, [pointer]);
    FeedOne(c.(frame := AwaitPointer(command)), pointer);
    hide FeedAll, CommandByte, RegisterPointer;
  }

  /** Address initialization numbers the sensors from 1 and each answers with one byte. */
  lemma InitFrameDecodes(c: Chain)
    requires Listening(c)
    ensures var r := FeedAll(c, INIT_FRAME);
            && Listening(r.chain) && Numbered(r.chain.sensors)
            && |r.reply| == |c.sensors|
  {
    var first := AddrInitByte(1);
    CommandByteDecodes(false, false, 1);
    var c2 := c.(frame := AwaitFirstAddress);
    assert Feed(c.(frame := AwaitCommand), ADDR_INIT_COMMAND) == Fed(c2, []);
    assert INIT_FRAME == [CALIBRATION_BYTE, ADDR_INIT_COMMAND] + [first];
    FeedTwo(c, CALIBRATION_BYTE, ADDR_INIT_COMMAND, [first]);
    FeedOne(c2, first);
    hide FeedAll, AddrInitByte, CommandByte, AddressOf;
  }

  // ---------------------------------------------------------------------------
  // Effects on a numbered chain
  // ---------------------------------------------------------------------------

  /** An individual write changes the addressed sensor and no other. */
  lemma IndividualWriteTouchesOne(sensors: seq<Sensor>, address: u8, register: u8, value: u16)
    requires Numbered(sensors) && 1 <= address <= |sensors| && address < 32 && register < 16
    ensures WriteAll(sensors, CommandByte(false, false, address), register, value) ==
            sensors[address - 1 := WriteRegister(sensors[address - 1], register, value)]
  {
    CommandByteDecodes(false, false, address);
    hide CommandByte;
  }

  /** A global write changes the sensors up to the address and no other. */
  lemma GlobalWriteTouchesPrefix(sensors: seq<Sensor>, address: u8, register: u8, value: u16, j: nat)
    requires Numbered(sensors) && address < 32 && register < 16 && j < |sensors|
    ensures WriteAll(sensors, CommandByte(true, false, address), register, value)[j] ==
            if j < address then WriteRegister(sensors[j], register, value) else sensors[j]
  {
    CommandByteDecodes(true, false, address);
    hide CommandByte;
  }

  lemma {:induction false} DescendingAt(sensors: seq<Sensor>, register: nat, i: nat)
    requires register < REGISTERS && Intact(sensors) && i < |sensors|
    ensures var bytes := Descending(sensors, register);
            bytes[2 * i..2 * i + 2] == ToLeBytes16(sensors[|sensors| - 1 - i].registers[register])
    decreases |sensors|
  {
    var n := |sensors| - 1;
    if i > 0 {
      DescendingAt(sensors[..n], register, i - 1);
      var bytes := Descending(sensors, register);
      var rest := Descending(sensors[..n], register);
      assert bytes[2 * i..2 * i + 2] == rest[2 * (i - 1)..2 * (i - 1) + 2];
    }
  }

  /** An individual read is answered by the addressed sensor. */
  lemma IndividualReadReply(sensors: seq<Sensor>, address: u8, register: u8)
    requires Numbered(sensors) && 1 <= address <= |sensors| && address < 32 && register < 16
    ensures var reply := ReadReply(sensors, CommandByte(false, true, address), register);
            |reply| == 2 && FromLeBytes16(reply) == sensors[address - 1].registers[register]
  {
    CommandByteDecodes(false, true, address);
    FindNumbered(sensors, address);
    Word16RoundTrip(sensors[address - 1].registers[register]);
    hide CommandByte;
  }

  /** A global read up to `count` is answered highest address first. */
  lemma GlobalReadReply(sensors: seq<Sensor>, count: u8, register: u8)
    requires Numbered(sensors) && 1 <= count <= |sensors| && count < 32 && register < 16
    ensures ReadReply(sensors, CommandByte(true, true, count), register) == Descending(sensors[..count], register)
  {
    CommandByteDecodes(true, true, count);
    FindNumbered(sensors, count);
    hide CommandByte, Descending;
  }
}

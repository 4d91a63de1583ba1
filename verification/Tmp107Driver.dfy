/** The TMP107 driver against an arbitrary serial line: writes may be split or fail, replies
    may come late or broken. */
module Tmp107Driver {
  import opened Codec
  import opened Tmp107Chain
  import opened Tmp107Frames
  import opened Wrappers

  const TEMP_REGISTER: u8 := 0
  const CONFIG_REGISTER: u8 := 1
  const HIGH_LIMIT_1_REGISTER: u8 := 2
  const LOW_LIMIT_1_REGISTER: u8 := 3
  const HIGH_LIMIT_2_REGISTER: u8 := 4
  const LOW_LIMIT_2_REGISTER: u8 := 5

  const CONFIG_OS_BIT: bv16 := 0x1000
  const CONFIG_SD_BIT: bv16 := 0x0800
  const DEFAULT_CONFIG_REGISTER: bv16 := CONFIG_SD_BIT | 0x0100 | 0x0080 | 0x0010 | 0x0008

  const TEMP_LIMIT_MAX: u16 := 0x7FFC
  const TEMP_LIMIT_MIN: u16 := 0x8000
  const LED_ON_LOW_LIMIT: u16 := TEMP_LIMIT_MAX - 4
  const READ_BUFFER_SIZE: nat := 64

  datatype Tmp107Error = UartWrite | UartRead | BufferTooSmall | Timeout | NoSensorsFound

  /** One asynchronous write: the number of bytes taken, at least one, or a failure. */
  datatype WriteOutcome = Wrote(n: nat) | WriteFailed

  /** One exact read: everything in time, or a failure after some bytes were consumed. */
  datatype ReadOutcome = InTime | Late(consumed: nat) | Broken(consumed: nat)

  function Min(a: nat, b: nat): nat {
    if a < b then a else b
  }

  /** How many of `length` bytes the outcomes let through before a write fails; a line that
      has nothing more to report takes the rest at once. */
  function Delivered(outcomes: seq<WriteOutcome>, length: nat): (n: nat)
    ensures n <= length
    decreases length, |outcomes|
  {
    if length == 0 || outcomes == [] then length
    else
      match outcomes[0]
      case WriteFailed => 0
      case Wrote(k) =>
        var taken := if k == 0 then 1 else Min(k, length);
        taken + Delivered(outcomes[1..], length - taken)
  }

  lemma DeliveredUnfold(outcomes: seq<WriteOutcome>, length: nat)
    requires length > 0
    ensures outcomes == [] ==> Delivered(outcomes, length) == length && Delivered([], 0) == 0
    ensures outcomes != [] && outcomes[0].WriteFailed? ==> Delivered(outcomes, length) == 0
    ensures outcomes != [] && outcomes[0].Wrote? ==>
              var taken := if outcomes[0].n == 0 then 1 else Min(outcomes[0].n, length);
              Delivered(outcomes, length) == taken + Delivered(outcomes[1..], length - taken)
  {
  }

  lemma {:induction false} FaultlessDelivers(outcomes: seq<WriteOutcome>, length: nat)
    requires WriteFailed !in outcomes
    ensures Delivered(outcomes, length) == length
    decreases length, |outcomes|
  {
    if length > 0 && outcomes != [] {
      var taken := if outcomes[0].n == 0 then 1 else Min(outcomes[0].n, length);
      FaultlessDelivers(outcomes[1..], length - taken);
    }
  }

  /** The outcomes let all of `length` bytes through. */
  predicate Delivers(outcomes: seq<WriteOutcome>, length: nat) {
    Delivered(outcomes, length) == length
  }

  /** How many of `limit` reads in a row arrive in time, from the n-th on. */
  function InTimeReads(outcomes: nat -> ReadOutcome, n: nat, limit: nat): (k: nat)
    ensures k <= limit
    ensures forall m :: n <= m < n + k ==> outcomes(m).InTime?
    ensures k < limit ==> !outcomes(n + k).InTime?
    decreases limit
  {
    if limit == 0 || !outcomes(n).InTime? then 0
    else 1 + InTimeReads(outcomes, n + 1, limit - 1)
  }

  lemma InTimeReadsIs(outcomes: nat -> ReadOutcome, n: nat, limit: nat, k: nat)
    requires k <= limit && (k < limit ==> !outcomes(n + k).InTime?)
    requires forall m :: n <= m < n + k ==> outcomes(m).InTime?
    ensures InTimeReads(outcomes, n, limit) == k
  {
  }

  // ---------------------------------------------------------------------------
  // Cut-off frames
  // ---------------------------------------------------------------------------

  /** The first two bytes of any frame change no register and are not answered. */
  lemma CutHeadHarmless(c: Chain, bytes: seq<u8>, k: nat)
    requires Listening(c) && k <= 2 <= |bytes| && bytes[0] == CALIBRATION_BYTE
    ensures var r := FeedAll(c, bytes[..k]);
            r.chain.sensors == c.sensors && r.reply == []
  {
    if k == 1 {
      assert bytes[..1] == [bytes[0]];
      FeedOne(c, bytes[0]);
    } else if k == 2 {
      assert bytes[..2] == [bytes[0], bytes[1]] + [];
      FeedTwo(c, bytes[0], bytes[1], []);
    }
  }

  /** A write frame whose last byte never leaves the host changes no register. */
  lemma CutWriteHarmless(c: Chain, global: bool, address: u8, register: u8, value: u16, k: nat)
    requires Listening(c) && address < 32 && register < 16 && k < 5
    ensures var r := FeedAll(c, WriteFrame(global, address, register, value)[..k]);
            r.chain.sensors == c.sensors && r.reply == []
  {
    var bytes := WriteFrame(global, address, register, value);
    if k <= 2 {
      CutHeadHarmless(c, bytes, k);
    } else {
      var command, pointer := CommandByte(global, false, address), RegisterPointer(register);
      CommandByteDecodes(global, false, address);
      PointerDecodes(register);
      hide CommandByte, RegisterPointer, FeedAll;
      var c2 := c.(frame := AwaitPointer(command));
      assert Feed(c, CALIBRATION_BYTE) == Fed(c.(frame := AwaitCommand), []);
      assert Feed(c.(frame := AwaitCommand), command) == Fed(c2, []);
      assert Feed(c2, pointer) == Fed(c.(frame := AwaitLowByte(command, register)), []);
      FeedTwo(c, CALIBRATION_BYTE, command, bytes[2..k]);
      assert bytes[..k] == [CALIBRATION_BYTE, command] + bytes[2..k];
      if k == 3 {
        assert bytes[2..3] == [pointer];
        FeedOne(c2, pointer);
      } else {
        assert bytes[2..4] == [pointer, bytes[3]] + [];
        FeedTwo(c2, pointer, bytes[3], []);
        FeedNothing(Feed(Feed(c2, pointer).chain, bytes[3]).chain);
      }
    }
  }

  lemma FeedNothing(c: Chain)
    requires Intact(c.sensors)
    ensures FeedAll(c, []) == Fed(c, [])
  {
  }

  /** A line that started with `start` and `rx0` has passed on `prefix`. */
  ghost predicate Passed(start: Chain, rx0: seq<u8>, prefix: seq<u8>, chain: Chain, rx: seq<u8>) {
    && Intact(start.sensors)
    && var fed := FeedAll(start, prefix);
       chain == fed.chain && rx == rx0 + fed.reply
  }

  lemma PassedNothing(start: Chain, rx0: seq<u8>)
    requires Intact(start.sensors)
    ensures Passed(start, rx0, [], start, rx0)
  {
  }

  lemma PassedMore(start: Chain, rx0: seq<u8>, prefix: seq<u8>, chain: Chain, rx: seq<u8>, more: seq<u8>)
    requires Passed(start, rx0, prefix, chain, rx)
    ensures Intact(chain.sensors)
    ensures var fed := FeedAll(chain, more);
            Passed(start, rx0, prefix + more, fed.chain, rx + fed.reply)
  {
    hide FeedAll, Intact;
    FeedAppend(start, prefix, more);
  }

  lemma JoinSlices(bytes: seq<u8>, sent: nat, more: nat)
    requires sent + more <= |bytes|
    ensures bytes[..sent] + bytes[sent..][..more] == bytes[..sent + more]
    ensures bytes[sent..][more..] == bytes[sent + more..]
  {
  }

  // ---------------------------------------------------------------------------
  // The shared configuration
  // ---------------------------------------------------------------------------

  /** The two configurations the driver sends: the shadow register is never changed, and
      only the one-shot trigger carries the one-shot bit. */
  lemma ConfigurationsSent()
    ensures (DEFAULT_CONFIG_REGISTER | CONFIG_SD_BIT) & !CONFIG_OS_BIT == DEFAULT_CONFIG_REGISTER
    ensures (DEFAULT_CONFIG_REGISTER | (CONFIG_SD_BIT | CONFIG_OS_BIT)) & !0 & !CONFIG_OS_BIT == DEFAULT_CONFIG_REGISTER
    ensures DEFAULT_CONFIG_REGISTER & !CONFIG_OS_BIT == DEFAULT_CONFIG_REGISTER
    ensures ((DEFAULT_CONFIG_REGISTER | CONFIG_SD_BIT) & !CONFIG_OS_BIT) as int == 0x0998
    ensures ((DEFAULT_CONFIG_REGISTER | (CONFIG_SD_BIT | CONFIG_OS_BIT)) & !0) as int == 0x1998
    ensures !OneShotBit(0x0998) && ShutdownBit(0x0998) && OneShotBit(0x1998) && ShutdownBit(0x1998)
  {
  }

  // ---------------------------------------------------------------------------
  // LEDs
  // ---------------------------------------------------------------------------

  function LowLimit(on: bool): u16 {
    if on then LED_ON_LOW_LIMIT else TEMP_LIMIT_MIN
  }

  /** A sensor whose limit registers show the two low bits of its address: a low limit of
      0x7FF8 lights the LED, one of 0x8000 keeps it dark. */
  ghost predicate ShowsAddress(s: Sensor) {
    && |s.registers| == REGISTERS
    && s.registers[2] == 0x7FFC && s.registers[4] == 0x7FFC
    && s.registers[3] == (if s.address % 2 == 1 then 0x7FF8 else 0x8000)
    && s.registers[5] == (if s.address / 2 % 2 == 1 then 0x7FF8 else 0x8000)
  }

  /** Only the four limit registers may differ. */
  ghost predicate SameButLimits(s: Sensor, t: Sensor) {
    && |s.registers| == |t.registers| == REGISTERS
    && t.address == s.address && t.converting == s.converting
    && forall r :: 0 <= r < REGISTERS && !(2 <= r <= 5) ==> t.registers[r] == s.registers[r]
  }

  ghost predicate AllSameButLimits(a: seq<Sensor>, b: seq<Sensor>) {
    |a| == |b| && forall j :: 0 <= j < |a| ==> SameButLimits(a[j], b[j])
  }

  class Tmp107 {
    /** What the line does to the n-th transmission, clear and read. */
    const writeOutcomes: nat -> seq<WriteOutcome>
    const clearOutcomes: nat -> bool
    const readOutcomes: nat -> ReadOutcome

    var chain: Chain
    var rx: seq<u8>
    var writeCount: nat
    var readCount: nat
    var sensorCount: u8
    var configRegister: bv16

    /** A line on which every write is taken and every reply arrives in time. */
    ghost predicate Faultless() {
      forall k :: clearOutcomes(k) && readOutcomes(k).InTime? && WriteFailed !in writeOutcomes(k)
    }

    /** On a faultless line every frame goes out and every read arrives in time. */
    lemma FaultlessLine(w: nat, length: nat, n: nat, limit: nat)
      requires Faultless()
      ensures Delivers(writeOutcomes(w), length)
      ensures clearOutcomes(n) && readOutcomes(n).InTime?
      ensures InTimeReads(readOutcomes, n, limit) == limit && readOutcomes(n + limit).InTime?
    {
      assert clearOutcomes(w) && clearOutcomes(n + limit) && WriteFailed !in writeOutcomes(w);
      FaultlessDelivers(writeOutcomes(w), length);
      assert clearOutcomes(n);
      InTimeReadsIs(readOutcomes, n, limit, limit);
    }

    ghost predicate Valid()
      reads this
    {
      && Intact(chain.sensors)
      && |rx| <= READ_BUFFER_SIZE
      && sensorCount <= MAX_SENSORS && sensorCount <= |chain.sensors|
      && (sensorCount > 0 ==> Numbered(chain.sensors))
      && configRegister == DEFAULT_CONFIG_REGISTER
    }

    constructor (sensors: seq<Sensor>, writeOutcomes: nat -> seq<WriteOutcome>,
                 clearOutcomes: nat -> bool, readOutcomes: nat -> ReadOutcome)
      requires Intact(sensors)
      ensures Valid() && chain == Chain(sensors, AwaitCalibration) && sensorCount == 0
    {
      this.writeOutcomes, this.clearOutcomes, this.readOutcomes := writeOutcomes, clearOutcomes, readOutcomes;
      chain := Chain(sensors, AwaitCalibration);
      rx, writeCount, readCount := [], 0, 0;
      sensorCount, configRegister := 0, DEFAULT_CONFIG_REGISTER;
    }

    /** One asynchronous write: hands the line a non-empty prefix of `bytes`, or fails. */
    method WriteSome(bytes: seq<u8>, outcome: WriteOutcome) returns (r: Result<nat, Tmp107Error>)
      requires Intact(chain.sensors) && bytes != []
      modifies `chain, `rx
      ensures r == match outcome
                   case WriteFailed => Err(UartWrite)
                   case Wrote(n) => Ok(if n == 0 then 1 else Min(n, |bytes|))
      ensures r.Err? ==> chain == old(chain) && rx == old(rx)
      ensures r.Ok? ==>
                && 1 <= r.value <= |bytes|
                && var fed := FeedAll(old(chain), bytes[..r.value]);
                   chain == fed.chain && rx == old(rx) + fed.reply
    {
      match outcome
      case WriteFailed => r := Err(UartWrite);
      case Wrote(n) =>
        var written := if n == 0 then 1 else Min(n, |bytes|);
        var fed := FeedAll(chain, bytes[..written]);
        chain, rx := fed.chain, rx + fed.reply;
        r := Ok(written);
    }

    /** Sends in as many pieces as the line takes. */
    method SendPieces(bytes: seq<u8>, outcomes: seq<WriteOutcome>)
      returns (r: Result<(), Tmp107Error>, ghost sent: nat)
      requires Intact(chain.sensors)
      modifies `chain, `rx
      ensures sent <= |bytes| && Passed(old(chain), old(rx), bytes[..sent], chain, rx)
      ensures r == if sent == |bytes| then Ok(()) else Err(UartWrite)
      ensures sent == Delivered(outcomes, |bytes|)
    {
      sent := 0;
      PassedNothing(chain, rx);
      hide FeedAll, Passed, Intact, Min;
      var toWrite, pending := bytes, outcomes;
      while toWrite != []
        invariant sent <= |bytes| && toWrite == bytes[sent..]
        invariant Intact(chain.sensors)
        invariant Passed(old(chain), old(rx), bytes[..sent], chain, rx)
        invariant sent + Delivered(pending, |toWrite|) == Delivered(outcomes, |bytes|)
        decreases |toWrite|
      {
        var outcome := if pending == [] then Wrote(|toWrite|) else pending[0];
        ghost var before, rxBefore := chain, rx;
        var written := WriteSome(toWrite, outcome);
        DeliveredUnfold(pending, |toWrite|);
        hide Delivered;
        if written.Err? {
          return Err(written.error), sent;
        }
        JoinSlices(bytes, sent, written.value);
        PassedMore(old(chain), old(rx), bytes[..sent], before, rxBefore, toWrite[..written.value]);
        pending := if pending == [] then [] else pending[1..];
        toWrite := toWrite[written.value..];
        sent := sent + written.value;
      }
      r := Ok(());
    }

    /** Transmits all of `bytes` or reports a failure. The chain receives the first `sent`
        bytes, all of them if and only if the call succeeds. */
    method Transmit(bytes: seq<u8>) returns (r: Result<(), Tmp107Error>, ghost sent: nat)
      requires Intact(chain.sensors)
      modifies `chain, `rx, `writeCount
      ensures sent <= |bytes| && Passed(old(chain), old(rx), bytes[..sent], chain, rx)
      ensures r == if sent == |bytes| then Ok(()) else Err(UartWrite)
      ensures sent == Delivered(writeOutcomes(old(writeCount)), |bytes|) && writeCount == old(writeCount) + 1
      ensures Faultless() ==> r.Ok?
    {
      var outcomes := writeOutcomes(writeCount);
      if Faultless() {
        FaultlessLine(writeCount, |bytes|, 0, 0);
      }
      writeCount := writeCount + 1;
      hide Passed, Faultless, Delivered;
      r, sent := SendPieces(bytes, outcomes);
    }

    method ClearReadBuffer() returns (r: Result<(), Tmp107Error>)
      requires |rx| <= READ_BUFFER_SIZE
      modifies `rx
      ensures |rx| <= READ_BUFFER_SIZE
      ensures r == if clearOutcomes(readCount) then Ok(()) else Err(UartRead)
      ensures r.Ok? ==> rx == []
      ensures Faultless() ==> r.Ok?
    {
      if !clearOutcomes(readCount) {
        return Err(UartRead);
      }
      rx := rx[Min(|rx|, READ_BUFFER_SIZE)..];
      r := Ok(());
    }

    /** Reads exactly `length` bytes, or fails; what has not been consumed stays buffered. */
    method ReadExact(length: nat) returns (r: Result<seq<u8>, Tmp107Error>)
      modifies `rx, `readCount
      ensures |rx| <= |old(rx)|
      ensures r.Ok? ==> length <= |old(rx)| && r.value == old(rx)[..length] && rx == old(rx)[length..]
      ensures readCount == old(readCount) + 1
      ensures match readOutcomes(old(readCount))
              case InTime => if length <= |old(rx)| then r.Ok? else r == Err(Timeout)
              case Late(_) => r == Err(Timeout)
              case Broken(_) => r == Err(UartRead)
    {
      var outcome := readOutcomes(readCount);
      readCount := readCount + 1;
      match outcome
      case InTime =>
        if length <= |rx| {
          r := Ok(rx[..length]);
          rx := rx[length..];
        } else {
          r := Err(Timeout);
          rx := [];
        }
      case Late(consumed) =>
        rx := rx[Min(consumed, |rx|)..];
        r := Err(Timeout);
      case Broken(consumed) =>
        rx := rx[Min(consumed, |rx|)..];
        r := Err(UartRead);
    }

    /** Data goes out in the same burst as the command. The write either takes effect as a
        whole, leaving the chain listening, or changes no register. */
    method IndividualWrite(address: u8, register: u8, value: u16) returns (r: Result<(), Tmp107Error>)
      requires Valid() && Listening(chain) && 1 <= address <= sensorCount && register < 16
      modifies `chain, `rx, `writeCount
      ensures Valid() && rx == old(rx)
      ensures r.Ok? ==> Listening(chain)
      ensures var s := old(chain).sensors;
              chain.sensors ==
              if r.Ok? then s[address - 1 := WriteRegister(s[address - 1], register, value)] else s
      ensures r.Ok? <==> Delivers(writeOutcomes(old(writeCount)), 5)
      ensures writeCount == old(writeCount) + 1
      ensures Faultless() ==> r.Ok?
    {
      ghost var sent;
      r, sent := Transmit(WriteFrame(false, address, register, value));
      if r.Ok? {
        WriteFrameDecodes(old(chain), false, address, register, value);
        IndividualWriteTouchesOne(old(chain).sensors, address, register, value);
        assert WriteFrame(false, address, register, value)[..sent] == WriteFrame(false, address, register, value);
      } else {
        CutWriteHarmless(old(chain), false, address, register, value, sent);
      }
      hide FeedAll, WriteFrame, WriteAll, WriteRegister;
    }

    /** A global write reaches the sensors up to the address, or none. */
    method GlobalWrite(register: u8, value: u16) returns (r: Result<(), Tmp107Error>)
      requires Valid() && Listening(chain) && sensorCount > 0 && register < 16
      modifies `chain, `rx, `writeCount
      ensures Valid() && rx == old(rx)
      ensures r.Ok? ==> Listening(chain)
      ensures |chain.sensors| == |old(chain).sensors|
      ensures forall j :: 0 <= j < |chain.sensors| ==>
                chain.sensors[j] ==
                if r.Ok? && j < sensorCount then WriteRegister(old(chain).sensors[j], register, value)
                else old(chain).sensors[j]
      ensures r.Ok? <==> Delivers(writeOutcomes(old(writeCount)), 5)
      ensures writeCount == old(writeCount) + 1
      ensures Faultless() ==> r.Ok?
    {
      ghost var sent;
      r, sent := Transmit(WriteFrame(true, sensorCount, register, value));
      if r.Ok? {
        WriteFrameDecodes(old(chain), true, sensorCount, register, value);
        assert WriteFrame(true, sensorCount, register, value)[..sent] == WriteFrame(true, sensorCount, register, value);
        forall j | 0 <= j < |chain.sensors|
          ensures chain.sensors[j] ==
                  if j < sensorCount then WriteRegister(old(chain).sensors[j], register, value)
                  else old(chain).sensors[j]
        {
          GlobalWriteTouchesPrefix(old(chain).sensors, sensorCount, register, value, j);
        }
      } else {
        CutWriteHarmless(old(chain), true, sensorCount, register, value, sent);
      }
      hide FeedAll, WriteFrame, WriteAll;
    }

    /** Asks for one register of every numbered sensor. The bytes returned are the replies to
        this very request: whatever an earlier reply left behind is cleared first. */
    method PollSensors(register: u8) returns (r: Result<seq<u8>, Tmp107Error>)
      requires Valid() && Listening(chain) && sensorCount > 0 && register < 16
      modifies `chain, `rx, `writeCount, `readCount
      ensures Valid() && chain.sensors == old(chain).sensors
      ensures r.Ok? ==> Listening(chain) && r.value == Descending(chain.sensors[..sensorCount], register)
      ensures r.Ok? <==>
                && clearOutcomes(old(readCount)) && Delivers(writeOutcomes(old(writeCount)), 3)
                && readOutcomes(old(readCount)).InTime?
      ensures Faultless() ==> r.Ok?
    {
      if Faultless() {
        FaultlessLine(writeCount, 3, readCount, 0);
      }
      hide Faultless, Delivered;
      var cleared := ClearReadBuffer();
      if cleared.Err? {
        return Err(cleared.error);
      }
      var frame := ReadFrame(true, sensorCount, register);
      var written;
      ghost var sent;
      written, sent := Transmit(frame);
      if written.Err? {
        CutHeadHarmless(old(chain), frame, sent);
        return Err(written.error);
      }
      assert frame[..sent] == frame;
      ReadFrameDecodes(old(chain), true, sensorCount, register);
      GlobalReadReply(chain.sensors, sensorCount, register);
      hide FeedAll, ReadFrame, ReadReply, Descending;
      r := ReadExact(sensorCount * 2);
    }

    /** Reads one register of every numbered sensor into `out`, lowest address first, although
        the replies arrive highest address first. */
    method GlobalRead(register: u8, out: array<u16>) returns (r: Result<(), Tmp107Error>)
      requires Valid() && Listening(chain) && sensorCount > 0 && register < 16
      modifies `chain, `rx, `writeCount, `readCount, out
      ensures Valid() && chain.sensors == old(chain).sensors
      ensures r.Ok? ==> Listening(chain) && sensorCount <= out.Length
      ensures out.Length < sensorCount ==> r == Err(Tmp107Error.BufferTooSmall)
      ensures forall a :: 0 <= a < out.Length ==>
                out[a] == if r.Ok? && a < sensorCount then chain.sensors[a].registers[register] else old(out[a])
      ensures sensorCount <= out.Length ==>
                (r.Ok? <==>
                 && clearOutcomes(old(readCount)) && Delivers(writeOutcomes(old(writeCount)), 3)
                 && readOutcomes(old(readCount)).InTime?)
      ensures Faultless() && sensorCount <= out.Length ==> r.Ok?
    {
      if out.Length < sensorCount {
        return Err(Tmp107Error.BufferTooSmall);
      }
      var polled := PollSensors(register);
      if polled.Err? {
        return Err(polled.error);
      }
      StoreReplies(chain.sensors[..sensorCount], register, polled.value, out);
      r := Ok(());
    }

    /** Readings of all numbered sensors, `out[0]` from address 1. */
    method ReadAllTemperatures(out: array<u16>) returns (r: Result<nat, Tmp107Error>)
      requires Valid() && Listening(chain) && sensorCount > 0
      modifies `chain, `rx, `writeCount, `readCount, out
      ensures Valid() && chain.sensors == old(chain).sensors
      ensures r.Ok? ==>
                && Listening(chain) && r.value == sensorCount <= out.Length
                && forall a :: 0 <= a < sensorCount ==> out[a] == chain.sensors[a].registers[0]
      ensures sensorCount <= out.Length ==>
                (r.Ok? <==>
                 && clearOutcomes(old(readCount)) && Delivers(writeOutcomes(old(writeCount)), 3)
                 && readOutcomes(old(readCount)).InTime?)
      ensures Faultless() && sensorCount <= out.Length ==> r.Ok?
    {
      var read := GlobalRead(TEMP_REGISTER, out);
      match read
      case Err(e) => r := Err(e);
      case Ok(_) => r := Ok(sensorCount);
    }

    /** One register of one sensor. */
    method IndividualRead(address: u8, register: u8) returns (r: Result<u16, Tmp107Error>)
      requires Valid() && Listening(chain) && 1 <= address <= sensorCount && register < 16
      modifies `chain, `rx, `writeCount, `readCount
      ensures Valid() && chain.sensors == old(chain).sensors
      ensures r.Ok? ==> Listening(chain) && r.value == chain.sensors[address - 1].registers[register]
      ensures r.Ok? <==>
                && clearOutcomes(old(readCount)) && Delivers(writeOutcomes(old(writeCount)), 3)
                && readOutcomes(old(readCount)).InTime?
      ensures Faultless() ==> r.Ok?
    {
      if Faultless() {
        FaultlessLine(writeCount, 3, readCount, 0);
      }
      hide Faultless, Delivered;
      var cleared := ClearReadBuffer();
      if cleared.Err? {
        return Err(cleared.error);
      }
      var frame := ReadFrame(false, address, register);
      var written;
      ghost var sent;
      written, sent := Transmit(frame);
      if written.Err? {
        CutHeadHarmless(old(chain), frame, sent);
        return Err(written.error);
      }
      assert frame[..sent] == frame;
      ReadFrameDecodes(old(chain), false, address, register);
      IndividualReadReply(chain.sensors, address, register);
      hide FeedAll, ReadFrame, ReadReply, CommandByte, FromLeBytes16;
      var got := ReadExact(2);
      if got.Err? {
        return Err(got.error);
      }
      r := Ok(FromLeBytes16(got.value));
    }

    /** Sends the shared configuration; the shadow register never keeps the one-shot bit. */
    method WriteGlobalConfig(setBits: bv16, clearBits: bv16) returns (r: Result<(), Tmp107Error>)
      requires Valid() && Listening(chain) && sensorCount > 0
      requires (setBits == CONFIG_SD_BIT && clearBits == CONFIG_OS_BIT)
            || (setBits == CONFIG_SD_BIT | CONFIG_OS_BIT && clearBits == 0)
      modifies `chain, `rx, `writeCount, `configRegister
      ensures Valid() && rx == old(rx)
      ensures r.Ok? ==> Listening(chain)
      ensures |chain.sensors| == |old(chain).sensors|
      ensures forall j :: 0 <= j < |chain.sensors| ==>
                chain.sensors[j] ==
                if r.Ok? && j < sensorCount
                then WriteRegister(old(chain).sensors[j], 1, if clearBits == 0 then 0x1998 else 0x0998)
                else old(chain).sensors[j]
      ensures r.Ok? <==> Delivers(writeOutcomes(old(writeCount)), 5)
      ensures writeCount == old(writeCount) + 1
      ensures Faultless() ==> r.Ok?
    {
      ConfigurationsSent();
      var config := (configRegister | setBits) & !clearBits;
      configRegister := config & !CONFIG_OS_BIT;
      r := GlobalWrite(CONFIG_REGISTER, config as int);
    }

    /** Every numbered sensor starts a conversion and stays in shutdown mode. */
    method TriggerOneShot() returns (r: Result<(), Tmp107Error>)
      requires Valid() && Listening(chain) && sensorCount > 0
      modifies `chain, `rx, `writeCount, `configRegister
      ensures Valid() && rx == old(rx) && |chain.sensors| == |old(chain).sensors|
      ensures r.Ok? ==> Listening(chain)
      ensures forall j :: 0 <= j < |chain.sensors| ==>
                var before := old(chain).sensors[j];
                chain.sensors[j] ==
                if r.Ok? && j < sensorCount
                then before.(registers := before.registers[1 := 0x0998], converting := true)
                else before
      ensures r.Ok? <==> Delivers(writeOutcomes(old(writeCount)), 5)
      ensures writeCount == old(writeCount) + 1
      ensures Faultless() ==> r.Ok?
    {
      ConfigurationsSent();
      r := WriteGlobalConfig(CONFIG_SD_BIT | CONFIG_OS_BIT, 0);
    }

    /** Every numbered sensor goes to shutdown mode without starting a conversion. */
    method Shutdown() returns (r: Result<(), Tmp107Error>)
      requires Valid() && Listening(chain) && sensorCount > 0
      modifies `chain, `rx, `writeCount, `configRegister
      ensures Valid() && rx == old(rx) && |chain.sensors| == |old(chain).sensors|
      ensures r.Ok? ==> Listening(chain)
      ensures forall j :: 0 <= j < |chain.sensors| ==>
                var before := old(chain).sensors[j];
                chain.sensors[j] ==
                if r.Ok? && j < sensorCount
                then before.(registers := before.registers[1 := 0x0998])
                else before
      ensures r.Ok? <==> Delivers(writeOutcomes(old(writeCount)), 5)
      ensures writeCount == old(writeCount) + 1
      ensures Faultless() ==> r.Ok?
    {
      ConfigurationsSent();
      r := WriteGlobalConfig(CONFIG_SD_BIT, CONFIG_OS_BIT);
    }

    method SetLedOutput(address: u8, high: u8, low: u8, on: bool) returns (r: Result<(), Tmp107Error>)
      requires Valid() && Listening(chain) && 1 <= address <= sensorCount
      requires 2 <= high < low <= 5
      modifies `chain, `rx, `writeCount
      ensures Valid() && rx == old(rx)
      ensures r.Ok? ==> Listening(chain)
      ensures |chain.sensors| == |old(chain).sensors|
      ensures forall j :: 0 <= j < |chain.sensors| && j != address - 1 ==> chain.sensors[j] == old(chain).sensors[j]
      ensures var before, after := old(chain).sensors[address - 1], chain.sensors[address - 1];
              && SameButLimits(before, after)
              && (r.Ok? ==>
                    after.registers == before.registers[high := 0x7FFC][low := if on then 0x7FF8 else 0x8000])
      ensures Faultless() ==> r.Ok?
    {
      r := IndividualWrite(address, high, TEMP_LIMIT_MAX);
      if r.Err? {
        return;
      }
      r := IndividualWrite(address, low, LowLimit(on));
    }

    method SetLeds(address: u8, led1: bool, led2: bool) returns (r: Result<(), Tmp107Error>)
      requires Valid() && Listening(chain) && 1 <= address <= sensorCount
      modifies `chain, `rx, `writeCount
      ensures Valid() && rx == old(rx)
      ensures r.Ok? ==> Listening(chain)
      ensures |chain.sensors| == |old(chain).sensors|
      ensures forall j :: 0 <= j < |chain.sensors| && j != address - 1 ==> chain.sensors[j] == old(chain).sensors[j]
      ensures var before, after := old(chain).sensors[address - 1], chain.sensors[address - 1];
              && SameButLimits(before, after)
              && (r.Ok? ==>
                    && after.registers[2] == 0x7FFC && after.registers[4] == 0x7FFC
                    && after.registers[3] == (if led1 then 0x7FF8 else 0x8000)
                    && after.registers[5] == (if led2 then 0x7FF8 else 0x8000))
      ensures Faultless() ==> r.Ok?
    {
      r := SetLedOutput(address, HIGH_LIMIT_1_REGISTER, LOW_LIMIT_1_REGISTER, led1);
      if r.Err? {
        return;
      }
      r := SetLedOutput(address, HIGH_LIMIT_2_REGISTER, LOW_LIMIT_2_REGISTER, led2);
    }

    /** After success every numbered sensor shows the two low bits of its own address; after
        a failure no register but the limits of some sensor can have changed. */
    method ShowAddressLeds() returns (r: Result<(), Tmp107Error>)
      requires Valid() && Listening(chain) && sensorCount > 0
      modifies `chain, `rx, `writeCount
      ensures Valid() && rx == old(rx)
      ensures AllSameButLimits(old(chain).sensors, chain.sensors)
      ensures r.Ok? ==> Listening(chain) && forall j :: 0 <= j < sensorCount ==> ShowsAddress(chain.sensors[j])
      ensures Faultless() ==> r.Ok?
    {
      r := Ok(());
      for address := 1 to sensorCount + 1
        invariant r.Ok? && Valid() && Listening(chain) && rx == old(rx)
        invariant AllSameButLimits(old(chain).sensors, chain.sensors)
        invariant forall j :: 0 <= j < address - 1 ==> ShowsAddress(chain.sensors[j])
      {
        var led1, led2 := address % 2 == 1, address / 2 % 2 == 1;
        r := SetLeds(address, led1, led2);
        if r.Err? {
          return;
        }
      }
    }

    /** Numbers the chain and counts the sensors that answer in time, up to the first read that
        does not succeed: a late one ends the count, a broken one is an error. */
    method DiscoverSensors() returns (r: Result<(), Tmp107Error>)
      requires Valid() && Listening(chain) && |chain.sensors| <= 31
      modifies `chain, `rx, `writeCount, `readCount, `sensorCount
      ensures Valid() && |chain.sensors| == |old(chain).sensors|
      ensures r.Ok? ==> Listening(chain) && Numbered(chain.sensors) && 1 <= sensorCount <= |chain.sensors|
      ensures var answered := InTimeReads(readOutcomes, old(readCount), |chain.sensors|);
              && r == (if !clearOutcomes(old(readCount)) then Err(UartRead)
                       else if !Delivers(writeOutcomes(old(writeCount)), 3) then Err(UartWrite)
                       else if answered < 31 && readOutcomes(old(readCount) + answered).Broken? then Err(UartRead)
                       else if answered == 0 then Err(NoSensorsFound)
                       else Ok(()))
              && sensorCount == if r.Ok? then answered else old(sensorCount)
      ensures Faultless() && |chain.sensors| > 0 ==> r.Ok? && sensorCount == |chain.sensors|
    {
      if Faultless() {
        FaultlessLine(writeCount, 3, readCount, |chain.sensors|);
      }
      hide Faultless, Delivers, InTimeReads, Numbered, Listening, Valid;
      r := DiscoverOnce();
    }

    method DiscoverOnce() returns (r: Result<(), Tmp107Error>)
      requires Valid() && Listening(chain) && |chain.sensors| <= 31
      modifies `chain, `rx, `writeCount, `readCount, `sensorCount
      ensures Valid() && |chain.sensors| == |old(chain).sensors|
      ensures r.Ok? ==> Listening(chain) && Numbered(chain.sensors) && 1 <= sensorCount <= |chain.sensors|
      ensures var answered := InTimeReads(readOutcomes, old(readCount), |chain.sensors|);
              && r == (if !clearOutcomes(old(readCount)) then Err(UartRead)
                       else if !Delivers(writeOutcomes(old(writeCount)), 3) then Err(UartWrite)
                       else if answered < 31 && readOutcomes(old(readCount) + answered).Broken? then Err(UartRead)
                       else if answered == 0 then Err(NoSensorsFound)
                       else Ok(()))
              && sensorCount == if r.Ok? then answered else old(sensorCount)
    {
      hide Delivers, InTimeReads, Numbered, Listening, Valid;
      r := SendInitialization();
      if r.Ok? {
        r := CountAnswers();
      }
    }

    method SendInitialization() returns (r: Result<(), Tmp107Error>)
      requires Valid() && Listening(chain) && |chain.sensors| <= 31
      modifies `chain, `rx, `writeCount
      ensures Valid() && |chain.sensors| == |old(chain).sensors|
      ensures r == (if !clearOutcomes(readCount) then Err(UartRead)
                    else if !Delivers(writeOutcomes(old(writeCount)), 3) then Err(UartWrite)
                    else Ok(()))
      ensures r.Ok? ==> Listening(chain) && Numbered(chain.sensors) && |rx| == |chain.sensors|
    {
      r := ClearReadBuffer();
      if r.Err? {
        return;
      }
      ghost var sent;
      r, sent := Transmit(INIT_FRAME);
      hide Faultless, Delivered;
      if r.Err? {
        CutHeadHarmless(old(chain), INIT_FRAME, sent);
      } else {
        assert INIT_FRAME[..sent] == INIT_FRAME;
        InitFrameDecodes(old(chain));
      }
      hide FeedAll;
    }

    /** Counts the answers to an address initialization. */
    method CountAnswers() returns (r: Result<(), Tmp107Error>)
      requires Valid() && Numbered(chain.sensors) && |rx| == |chain.sensors| <= MAX_SENSORS
      modifies `rx, `readCount, `sensorCount
      ensures Valid() && (r.Ok? ==> 1 <= sensorCount <= |chain.sensors|)
      ensures var answered := InTimeReads(readOutcomes, old(readCount), |chain.sensors|);
              && r == (if answered < MAX_SENSORS && readOutcomes(old(readCount) + answered).Broken? then Err(UartRead)
                       else if answered == 0 then Err(NoSensorsFound)
                       else Ok(()))
              && sensorCount == if r.Ok? then answered else old(sensorCount)
    {
      hide Intact, Numbered, InTimeReads;
      var count := 0;
      while count < MAX_SENSORS
        modifies `rx, `readCount
        invariant 0 <= count <= |chain.sensors| && |rx| == |chain.sensors| - count
        invariant readCount == old(readCount) + count
        invariant forall m :: old(readCount) <= m < readCount ==> readOutcomes(m).InTime?
        decreases MAX_SENSORS - count
      {
        var response := ReadExact(1);
        if response.Err? {
          InTimeReadsIs(readOutcomes, old(readCount), |chain.sensors|, count);
          if response.error == Timeout {
            break;
          }
          return Err(response.error);
        }
        count := count + 1;
      }
      InTimeReadsIs(readOutcomes, old(readCount), |chain.sensors|, count);
      if count == 0 {
        return Err(NoSensorsFound);
      }
      sensorCount := count;
      r := Ok(());
    }
  }

  /** Stores replies that arrived highest address first in ascending order. */
  method StoreReplies(ghost polled: seq<Sensor>, ghost register: nat, buf: seq<u8>, out: array<u16>)
    requires register < REGISTERS && Intact(polled)
    requires buf == Descending(polled, register) && |polled| <= out.Length
    modifies out
    ensures forall a :: 0 <= a < out.Length ==>
              out[a] == if a < |polled| then polled[a].registers[register] else old(out[a])
  {
    var count := |buf| / 2;
    hide Descending;
    for i := 0 to count
      invariant forall a :: 0 <= a < out.Length ==>
                  out[a] == if count - i <= a < count then polled[a].registers[register] else old(out[a])
    {
      DescendingAt(polled, register, i);
      Word16RoundTrip(polled[count - 1 - i].registers[register]);
      assert buf[i * 2..i * 2 + 2] == [buf[i * 2], buf[i * 2 + 1]];
      out[count - 1 - i] := FromLeBytes16([buf[i * 2], buf[i * 2 + 1]]);
    }
  }
}

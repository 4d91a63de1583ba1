/** Sensor packets and their payloads. */
module Packets {
  import opened Codec
  import opened Wrappers

  const FAST_MAX_SAMPLES: nat := 128
  const TEMP_MAX_SAMPLES: nat := 64

  datatype FastAdcChannel = Tensometer | PressureTank | PressureCombustion

  /** `samples` is the fixed array, of which the first `sampleCount` cells are in use. */
  datatype FastAdcPacket = FastAdcPacket(
    channel: FastAdcChannel, firstTimestampMs: u32, lastTimestampMs: u32, samples: seq<u16>, sampleCount: nat)
  {
    ghost predicate Valid() {
      |samples| == FAST_MAX_SAMPLES && 0 < sampleCount <= FAST_MAX_SAMPLES && ValidSamples(samples[..sampleCount])
    }

    function Samples(): seq<u16>
      requires sampleCount <= |samples|
    {
      samples[..sampleCount]
    }

    function SetChannel(channel: FastAdcChannel): FastAdcPacket {
      this.(channel := channel)
    }
  }

  function ValidateU12Samples(samples: seq<u16>, maxCount: nat): Result<(), EncodeError> {
    if samples == [] then Err(EmptySamples)
    else if |samples| > maxCount then Err(TooManySamples)
    else if exists i :: 0 <= i < |samples| && samples[i] > U12_MAX then Err(ValueOutOfRange)
    else Ok(())
  }

  function FastPacketNew(channel: FastAdcChannel, first: u32, last: u32, samples: seq<u16>, count: nat)
    : (r: Result<FastAdcPacket, EncodeError>)
    requires |samples| == FAST_MAX_SAMPLES
    ensures r.Ok? <==> 0 < count <= 128 && ValidSamples(samples[..count])
    ensures r.Ok? ==> r.value.Valid() && r.value.Samples() == samples[..count]
    ensures r.Err? ==> r.error == if 0 < count <= 128 then ValueOutOfRange else TooManySamples
  {
    if count == 0 || count > FAST_MAX_SAMPLES then Err(TooManySamples)
    else
      match ValidateU12Samples(samples[..count], FAST_MAX_SAMPLES)
      case Err(e) => Err(e)
      case Ok(_) => Ok(FastAdcPacket(channel, first, last, samples, count))
  }

  function Zeros(n: nat): (cells: seq<u16>)
    ensures |cells| == n
  {
    seq(n, _ => 0)
  }

  /** A packet is built exactly from 1 to 128 samples of twelve bits. */
  function FastPacketFromSlice(channel: FastAdcChannel, first: u32, last: u32, samples: seq<u16>)
    : (r: Result<FastAdcPacket, EncodeError>)
    ensures r.Ok? <==> 0 < |samples| <= 128 && ValidSamples(samples)
    ensures r.Err? ==> r.error == if |samples| == 0 then EmptySamples
                                  else if |samples| > 128 then TooManySamples
                                  else ValueOutOfRange
    ensures r.Ok? ==>
              && r.value.Valid() && r.value.Samples() == samples
              && r.value.channel == channel
              && r.value.firstTimestampMs == first && r.value.lastTimestampMs == last
  {
    match ValidateU12Samples(samples, FAST_MAX_SAMPLES)
    case Err(e) => Err(e)
    case Ok(_) =>
      var copy := samples + Zeros(FAST_MAX_SAMPLES - |samples|);
      assert copy[..|samples|] == samples;
      FastPacketNew(channel, first, last, copy, |samples|)
  }

  function Header(first: u32, last: u32): (bytes: seq<u8>)
    ensures |bytes| == 8
  {
    ToLeBytes32(first) + ToLeBytes32(last)
  }

  function FastPayload(p: FastAdcPacket): (bytes: seq<u8>)
    requires p.Valid()
    ensures |bytes| == 8 + p.sampleCount / 2 * 3 + p.sampleCount % 2 * 2
  {
    Header(p.firstTimestampMs, p.lastTimestampMs) + Pack(p.Samples())
  }

  lemma OverlayEmpty(buffer: seq<u8>, at: nat)
    requires at <= |buffer|
    ensures Overlay(buffer, at, []) == buffer
  {
  }

  method WriteHeader(out: array<u8>, first: u32, last: u32)
    requires out.Length >= 8
    modifies out
    ensures out[..] == Overlay(old(out[..]), 0, Header(first, last))
  {
    OverlayTwice(out[..], 0, ToLeBytes32(first), ToLeBytes32(last));
    hide Overlay, ToLeBytes32;
    var w := WriteU32Le(out, 0, 4, first);
    w := WriteU32Le(out, 4, 8, last);
  }

  /** Encodes at the start of `out`; a buffer that is too short keeps its bytes, or gets the
      header only when that fits. */
  method EncodeFast(p: FastAdcPacket, out: array<u8>) returns (r: Result<nat, EncodeError>)
    requires p.Valid()
    modifies out
    ensures var payload := FastPayload(p);
            if |payload| <= out.Length then
              r == Ok(|payload|) && out[..] == Overlay(old(out[..]), 0, payload)
            else
              && r == Err(BufferTooSmall)
              && out[..] == if out.Length < 8 then old(out[..]) else Overlay(old(out[..]), 0, payload[..8])
  {
    if out.Length < 8 {
      return Err(BufferTooSmall);
    }
    ghost var before := out[..];
    ghost var header := Header(p.firstTimestampMs, p.lastTimestampMs);
    assert FastPayload(p)[..8] == header;
    assert ValidSamples(p.Samples());
    hide Overlay, Pack, Header, ValidSamples, PackResult, PackedBytes;
    WriteHeader(out, p.firstTimestampMs, p.lastTimestampMs);
    PackOutcome(p.Samples(), out.Length - 8);
    var written := PackU12(p.Samples(), out, 8);
    match written
    case Err(e) =>
      OverlayEmpty(Overlay(before, 0, header), 8);
      r := Err(e);
    case Ok(n) =>
      OverlayTwice(before, 0, header, Pack(p.Samples()));
      r := Ok(8 + n);
  }

  /** What a receiver reads out of a fast payload. */
  function DecodeFast(bytes: seq<u8>): (u32, u32, seq<u16>)
    requires |bytes| >= 8
  {
    (FromLeBytes32(bytes[..4]), FromLeBytes32(bytes[4..8]), Unpack(bytes[8..]))
  }

  lemma HeaderDecodes(first: u32, last: u32, body: seq<u8>)
    ensures var bytes := Header(first, last) + body;
            && FromLeBytes32(bytes[..4]) == first && FromLeBytes32(bytes[4..8]) == last
            && bytes[8..] == body
  {
    var bytes := Header(first, last) + body;
    assert bytes[..4] == ToLeBytes32(first) && bytes[4..8] == ToLeBytes32(last);
    Word32RoundTrip(first);
    Word32RoundTrip(last);
  }

  /** Every packet built from a slice fits the client's buffer, and its payload gives back
      both timestamps and all samples. */
  lemma FastPayloadDecodes(channel: FastAdcChannel, first: u32, last: u32, samples: seq<u16>)
    requires FastPacketFromSlice(channel, first, last, samples).Ok?
    ensures var payload := FastPayload(FastPacketFromSlice(channel, first, last, samples).value);
            && |payload| == 8 + EncodedU12Len(|samples|).value <= 256
            && DecodeFast(payload) == (first, last, samples)
  {
    HeaderDecodes(first, last, Pack(samples));
    UnpackPack(samples);
  }

  // ---------------------------------------------------------------------------
  // Temperature packets
  // ---------------------------------------------------------------------------

  datatype TempPacket = TempPacket(
    sensorId: u8, firstTimestampMs: u32, lastTimestampMs: u32, values: seq<u16>, sampleCount: nat)
  {
    ghost predicate Valid() {
      |values| == TEMP_MAX_SAMPLES && 0 < sampleCount <= TEMP_MAX_SAMPLES
    }

    function Values(): seq<u16>
      requires sampleCount <= |values|
    {
      values[..sampleCount]
    }
  }

  function TempPacketNew(sensorId: u8, first: u32, last: u32, values: seq<u16>, count: nat)
    : (r: Result<TempPacket, EncodeError>)
    requires |values| == TEMP_MAX_SAMPLES
    ensures r == if 0 < count <= 64 then Ok(TempPacket(sensorId, first, last, values, count)) else Err(TooManySamples)
    ensures r.Ok? ==> r.value.Valid() && r.value.Values() == values[..count]
  {
    if count == 0 || count > TEMP_MAX_SAMPLES then Err(TooManySamples)
    else Ok(TempPacket(sensorId, first, last, values, count))
  }

  /** A packet is built exactly from 1 to 64 readings. */
  function TempPacketFromSlice(sensorId: u8, first: u32, last: u32, values: seq<u16>)
    : (r: Result<TempPacket, EncodeError>)
    ensures r.Ok? <==> 0 < |values| <= 64
    ensures r.Err? ==> r.error == TooManySamples
    ensures r.Ok? ==>
              && r.value.Valid() && r.value.Values() == values && r.value.sensorId == sensorId
              && r.value.firstTimestampMs == first && r.value.lastTimestampMs == last
  {
    if values == [] || |values| > TEMP_MAX_SAMPLES then Err(TooManySamples)
    else
      var copy := values + Zeros(TEMP_MAX_SAMPLES - |values|);
      assert copy[..|values|] == values;
      TempPacketNew(sensorId, first, last, copy, |values|)
  }

  /** The little-endian words of `values`. */
  function Words(values: seq<u16>): (bytes: seq<u8>)
    ensures |bytes| == 2 * |values|
  {
    if values == [] then [] else Words(values[..|values| - 1]) + ToLeBytes16(values[|values| - 1])
  }

  function FromWords(bytes: seq<u8>): (values: seq<u16>)
    requires |bytes| % 2 == 0
    ensures |values| == |bytes| / 2
  {
    if bytes == [] then []
    else FromWords(bytes[..|bytes| - 2]) + [FromLeBytes16(bytes[|bytes| - 2..])]
  }

  lemma FromWordsAppend(bytes: seq<u8>, word: seq<u8>)
    requires |bytes| % 2 == 0 && |word| == 2
    ensures FromWords(bytes + word) == FromWords(bytes) + [FromLeBytes16(word)]
  {
    hide FromLeBytes16;
    var both := bytes + word;
    assert both[..|both| - 2] == bytes && both[|both| - 2..] == word;
  }

  lemma {:induction false} WordsDecode(values: seq<u16>)
    ensures FromWords(Words(values)) == values
    decreases |values|
  {
    hide FromLeBytes16, ToLeBytes16, FromWords;
    if values == [] {
      FromNothing();
    } else {
      var n := |values| - 1;
      WordsDecode(values[..n]);
      Word16RoundTrip(values[n]);
      FromWordsAppend(Words(values[..n]), ToLeBytes16(values[n]));
    }
  }

  lemma FromNothing()
    ensures FromWords([]) == []
  {
  }

  function TempPayload(p: TempPacket): (bytes: seq<u8>)
    requires p.Valid()
    ensures |bytes| == 8 + 2 * p.sampleCount
  {
    Header(p.firstTimestampMs, p.lastTimestampMs) + Words(p.Values())
  }

  lemma OneMoreWord(values: seq<u16>, index: nat)
    requires index < |values|
    ensures Words(values[..index + 1]) == Words(values[..index]) + ToLeBytes16(values[index])
  {
    assert values[..index + 1][..index] == values[..index];
  }

  /** Writes the words of `values` from `at` on. */
  method WriteWords(values: seq<u16>, out: array<u8>, at: nat)
    requires at + |values| * 2 <= out.Length
    modifies out
    ensures out[..] == Overlay(old(out[..]), at, Words(values))
  {
    ghost var before := out[..];
    OverlayEmpty(before, at);
    assert Words(values[..0]) == [];
    hide Overlay, Words, ToLeBytes16;
    var index := 0;
    while index < |values|
      invariant 0 <= index <= |values|
      invariant out[..] == Overlay(before, at, Words(values[..index]))
    {
      var offset := at + index * 2;
      OverlayTwice(before, at, Words(values[..index]), ToLeBytes16(values[index]));
      OneMoreWord(values, index);
      var _ := WriteU16Le(out, offset, offset + 2, values[index]);
      index := index + 1;
    }
    assert values[..index] == values;
  }

  method EncodeTemp(p: TempPacket, out: array<u8>) returns (r: Result<nat, EncodeError>)
    requires p.Valid()
    modifies out
    ensures var payload := TempPayload(p);
            if |payload| <= out.Length then
              r == Ok(|payload|) && out[..] == Overlay(old(out[..]), 0, payload)
            else
              r == Err(BufferTooSmall) && out[..] == old(out[..])
  {
    var values := p.Values();
    var needed := 8 + |values| * 2;
    if out.Length < needed {
      return Err(BufferTooSmall);
    }
    ghost var header := Header(p.firstTimestampMs, p.lastTimestampMs);
    OverlayTwice(out[..], 0, header, Words(values));
    hide Overlay, Words, Header;
    WriteHeader(out, p.firstTimestampMs, p.lastTimestampMs);
    WriteWords(values, out, 8);
    r := Ok(needed);
  }

  /** What a receiver reads out of a temperature payload. */
  function DecodeTemp(bytes: seq<u8>): (u32, u32, seq<u16>)
    requires |bytes| >= 8 && |bytes| % 2 == 0
  {
    (FromLeBytes32(bytes[..4]), FromLeBytes32(bytes[4..8]), FromWords(bytes[8..]))
  }

  /** Every temperature packet built from a slice fits the client's buffer, and its payload
      gives back both timestamps and all readings. */
  lemma TempPayloadDecodes(sensorId: u8, first: u32, last: u32, values: seq<u16>)
    requires TempPacketFromSlice(sensorId, first, last, values).Ok?
    ensures var payload := TempPayload(TempPacketFromSlice(sensorId, first, last, values).value);
            && |payload| == 8 + 2 * |values| <= 256
            && DecodeTemp(payload) == (first, last, values)
  {
    HeaderDecodes(first, last, Words(values));
    WordsDecode(values);
  }
}

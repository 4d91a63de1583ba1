/** Batching of temperature readings into packets of twenty. */
module TemperatureBatches {
  import opened Codec
  import opened Packets
  import opened Wrappers

  const TEMP_BATCH_SIZE: nat := 20
  const MAX_SENSORS: nat := 31

  /** One successful collection cycle: a value per sensor and the time. */
  datatype Reading = Reading(values: seq<u16>, now: u32)

  ghost predicate Wide(good: seq<Reading>, count: nat) {
    forall k :: 0 <= k < |good| ==> |good[k].values| == count
  }

  lemma NoneIsWide(count: nat)
    ensures Wide([], count)
  {
  }

  /** The values of sensor `s` in order. */
  function Column(good: seq<Reading>, s: nat): (values: seq<u16>)
    requires forall k :: 0 <= k < |good| ==> s < |good[k].values|
    ensures |values| == |good|
  {
    seq(|good|, k requires 0 <= k < |good| => good[k].values[s])
  }

  /** The packet of sensor `s` for one block. */
  function BlockPacket(block: seq<Reading>, count: nat, s: nat): (p: TempPacket)
    requires |block| == TEMP_BATCH_SIZE && Wide(block, count) && s < count <= MAX_SENSORS
    ensures p.Valid() && p.sensorId == s + 1 && p.Values() == Column(block, s)
    ensures p.firstTimestampMs == block[0].now && p.lastTimestampMs == block[TEMP_BATCH_SIZE - 1].now
  {
    TempPacketFromSlice(s + 1, block[0].now, block[TEMP_BATCH_SIZE - 1].now, Column(block, s)).value
  }

  function BlockPackets(block: seq<Reading>, count: nat): (packets: seq<TempPacket>)
    requires |block| == TEMP_BATCH_SIZE && Wide(block, count) && count <= MAX_SENSORS
    ensures |packets| == count
  {
    seq(count, s requires 0 <= s < count => BlockPacket(block, count, s))
  }

  /** The packets offered after the successful cycles `good`: whole blocks only. */
  function Offered(good: seq<Reading>, count: nat): (packets: seq<TempPacket>)
    requires Wide(good, count) && count <= MAX_SENSORS
    decreases |good|
  {
    if |good| < TEMP_BATCH_SIZE then []
    else
      BlockPackets(good[..TEMP_BATCH_SIZE], count) + Offered(good[TEMP_BATCH_SIZE..], count)
  }

  /** One packet for each sensor and whole block. */
  lemma {:induction false} OfferedLength(good: seq<Reading>, count: nat)
    requires Wide(good, count) && count <= MAX_SENSORS
    ensures |Offered(good, count)| == |good| / TEMP_BATCH_SIZE * count
    decreases |good|
  {
    if |good| >= TEMP_BATCH_SIZE {
      OfferedLength(good[TEMP_BATCH_SIZE..], count);
      OneRoundEarlier(|good| / TEMP_BATCH_SIZE, count);
    }
  }

  lemma WideParts(a: seq<Reading>, b: seq<Reading>, count: nat)
    ensures Wide(a + b, count) <==> Wide(a, count) && Wide(b, count)
  {
    assert forall k :: 0 <= k < |a| ==> a[k] == (a + b)[k];
    assert forall k :: 0 <= k < |b| ==> b[k] == (a + b)[|a| + k];
  }

  lemma OfferedUnfold(good: seq<Reading>, count: nat)
    requires Wide(good, count) && count <= MAX_SENSORS && |good| >= TEMP_BATCH_SIZE
    ensures Wide(good[..TEMP_BATCH_SIZE], count) && Wide(good[TEMP_BATCH_SIZE..], count)
    ensures Offered(good, count) ==
            BlockPackets(good[..TEMP_BATCH_SIZE], count) + Offered(good[TEMP_BATCH_SIZE..], count)
  {
    hide BlockPackets;
  }

  lemma BlockIsWide(good: seq<Reading>, count: nat, from: nat)
    requires Wide(good, count) && from + TEMP_BATCH_SIZE <= |good|
    ensures Wide(good[from..from + TEMP_BATCH_SIZE], count)
  {
  }

  /** `p` is packet `s` of the block that starts at `from`. */
  ghost predicate CutFrom(p: TempPacket, good: seq<Reading>, count: nat, from: nat, s: nat)
    requires Wide(good, count) && s < count <= MAX_SENSORS && from + TEMP_BATCH_SIZE <= |good|
  {
    BlockIsWide(good, count, from);
    p == BlockPacket(good[from..from + TEMP_BATCH_SIZE], count, s)
  }

  lemma FirstBlock(good: seq<Reading>, count: nat, s: nat)
    requires Wide(good, count) && s < count <= MAX_SENSORS && TEMP_BATCH_SIZE <= |good|
    ensures s < |Offered(good, count)| && CutFrom(Offered(good, count)[s], good, count, 0, s)
  {
    OfferedUnfold(good, count);
    hide Offered, BlockPacket, Wide;
    assert good[0..0 + TEMP_BATCH_SIZE] == good[..TEMP_BATCH_SIZE];
  }

  lemma LaterBlock(good: seq<Reading>, count: nat, from: nat, s: nat, i: nat)
    requires Wide(good, count) && s < count <= MAX_SENSORS && from + 2 * TEMP_BATCH_SIZE <= |good|
    requires var rest := good[TEMP_BATCH_SIZE..];
             Wide(rest, count) && i < |Offered(rest, count)| && CutFrom(Offered(rest, count)[i], rest, count, from, s)
    ensures i + count < |Offered(good, count)|
    ensures CutFrom(Offered(good, count)[i + count], good, count, from + TEMP_BATCH_SIZE, s)
  {
    OfferedUnfold(good, count);
    hide Offered, BlockPackets, BlockPacket, Wide;
    var rest, next := good[TEMP_BATCH_SIZE..], from + TEMP_BATCH_SIZE;
    assert rest[from..from + TEMP_BATCH_SIZE] == good[next..next + TEMP_BATCH_SIZE];
  }

  lemma OneRoundEarlier(b: nat, count: nat)
    requires b > 0
    ensures b * count == (b - 1) * count + count
  {
  }

  lemma {:induction false} PacketAt(good: seq<Reading>, count: nat, b: nat, from: nat, s: nat, i: nat)
    requires Wide(good, count) && s < count <= MAX_SENSORS
    requires from == TEMP_BATCH_SIZE * b && from + TEMP_BATCH_SIZE <= |good| && i == b * count + s
    ensures i < |Offered(good, count)| && CutFrom(Offered(good, count)[i], good, count, from, s)
    decreases b
  {
    hide Wide, Offered, CutFrom;
    if b == 0 {
      FirstBlock(good, count, s);
    } else {
      var rest := good[TEMP_BATCH_SIZE..];
      OfferedUnfold(good, count);
      OneRoundEarlier(b, count);
      PacketAt(rest, count, b - 1, from - TEMP_BATCH_SIZE, s, i - count);
      LaterBlock(good, count, from - TEMP_BATCH_SIZE, s, i - count);
    }
  }

  /** The b-th packet of sensor `s` is offered in the b-th round and holds its readings of
      the b-th twenty successful cycles, stamped with the first and last of them. */
  lemma PacketsFollowReadings(good: seq<Reading>, count: nat, b: nat, s: nat)
    requires Wide(good, count) && count <= MAX_SENSORS && s < count
    requires b < |good| / TEMP_BATCH_SIZE
    ensures b * count + s < |Offered(good, count)|
    ensures var p := Offered(good, count)[b * count + s];
            && p.sensorId == s + 1
            && p.sampleCount <= |p.values| && p.Values() == Column(good[20 * b..20 * b + 20], s)
            && p.firstTimestampMs == good[20 * b].now && p.lastTimestampMs == good[20 * b + 19].now
  {
    PacketAt(good, count, b, 20 * b, s, b * count + s);
    BlockIsWide(good, count, 20 * b);
    hide Offered, BlockPackets, BlockPacket;
  }

  /** The values of the packets for one sensor, in the order offered. */
  function SensorValues(packets: seq<TempPacket>, id: nat): seq<u16>
    requires forall k :: 0 <= k < |packets| ==> packets[k].sampleCount <= |packets[k].values|
  {
    if packets == [] then []
    else (if packets[0].sensorId == id then packets[0].Values() else []) + SensorValues(packets[1..], id)
  }

  ghost predicate Readable(packets: seq<TempPacket>) {
    forall k :: 0 <= k < |packets| ==> packets[k].sampleCount <= |packets[k].values|
  }

  lemma {:induction false} SensorValuesAppend(a: seq<TempPacket>, b: seq<TempPacket>, id: nat)
    requires Readable(a) && Readable(b)
    ensures SensorValues(a + b, id) == SensorValues(a, id) + SensorValues(b, id)
    decreases |a|
  {
    if a == [] {
      assert a + b == b;
    } else {
      assert (a + b)[1..] == a[1..] + b;
      SensorValuesAppend(a[1..], b, id);
    }
  }

  lemma {:induction false} OneOfEach(packets: seq<TempPacket>, from: nat, s: nat)
    requires Readable(packets)
    requires forall k :: 0 <= k < |packets| ==> packets[k].sensorId == from + k + 1
    ensures SensorValues(packets, s + 1) ==
            if from <= s < from + |packets| then packets[s - from].Values() else []
    decreases |packets|
  {
    if packets != [] {
      OneOfEach(packets[1..], from + 1, s);
    }
  }

  lemma FirstRound(good: seq<Reading>, count: nat, s: nat)
    requires Wide(good, count) && count <= MAX_SENSORS && s < count && |good| >= TEMP_BATCH_SIZE
    ensures var block, rest := good[..TEMP_BATCH_SIZE], good[TEMP_BATCH_SIZE..];
            && Wide(block, count) && Wide(rest, count)
            && Offered(good, count) == BlockPackets(block, count) + Offered(rest, count)
            && Readable(BlockPackets(block, count))
            && SensorValues(BlockPackets(block, count), s + 1) == Column(block, s)
  {
    OneOfEach(BlockPackets(good[..TEMP_BATCH_SIZE], count), 0, s);
    hide SensorValues;
  }

  lemma ColumnAppend(a: seq<Reading>, b: seq<Reading>, count: nat, s: nat)
    requires Wide(a, count) && Wide(b, count) && s < count
    ensures Wide(a + b, count) && Column(a + b, s) == Column(a, s) + Column(b, s)
  {
  }

  /** The whole blocks are the first one and the whole blocks behind it. */
  lemma WholePrefix(good: seq<Reading>, count: nat)
    requires Wide(good, count) && |good| >= TEMP_BATCH_SIZE
    ensures var rest := good[TEMP_BATCH_SIZE..];
            var n := |rest| / TEMP_BATCH_SIZE * TEMP_BATCH_SIZE;
            && n <= |rest| && Wide(rest[..n], count)
            && |good| / TEMP_BATCH_SIZE * TEMP_BATCH_SIZE == TEMP_BATCH_SIZE + n
            && good[..TEMP_BATCH_SIZE + n] == good[..TEMP_BATCH_SIZE] + rest[..n]
  {
    var rest := good[TEMP_BATCH_SIZE..];
    var n := |rest| / TEMP_BATCH_SIZE * TEMP_BATCH_SIZE;
    assert good == good[..TEMP_BATCH_SIZE] + (rest[..n] + rest[n..]);
    WideParts(good[..TEMP_BATCH_SIZE], rest[..n] + rest[n..], count);
    WideParts(rest[..n], rest[n..], count);
  }

  /** End to end: the packets offered for sensor `s`, put one after the other, are its
      readings of the successful cycles in order, up to the last whole block. */
  lemma {:induction false} SensorValuesAreReadings(good: seq<Reading>, count: nat, s: nat)
    requires Wide(good, count) && count <= MAX_SENSORS && s < count
    ensures Readable(Offered(good, count))
    ensures SensorValues(Offered(good, count), s + 1) ==
            Column(good[..|good| / TEMP_BATCH_SIZE * TEMP_BATCH_SIZE], s)
    decreases |good|
  {
    if |good| >= TEMP_BATCH_SIZE {
      hide SensorValues, BlockPackets, Offered, Column;
      var block, rest := good[..TEMP_BATCH_SIZE], good[TEMP_BATCH_SIZE..];
      FirstRound(good, count, s);
      WholePrefix(good, count);
      SensorValuesAreReadings(rest, count, s);
      SensorValuesAppend(BlockPackets(block, count), Offered(rest, count), s + 1);
      ColumnAppend(block, rest[..|rest| / TEMP_BATCH_SIZE * TEMP_BATCH_SIZE], count, s);
    }
  }

  ghost predicate Whole(done: seq<Reading>) {
    |done| % TEMP_BATCH_SIZE == 0
  }

  lemma WholeTail(done: seq<Reading>)
    requires Whole(done) && done != []
    ensures |done| >= TEMP_BATCH_SIZE && Whole(done[TEMP_BATCH_SIZE..])
  {
  }

  lemma WholeGrows(done: seq<Reading>, pending: seq<Reading>)
    requires Whole(done) && |pending| == TEMP_BATCH_SIZE
    ensures Whole(done + pending)
  {
  }

  lemma OfferedShort(good: seq<Reading>, count: nat)
    requires Wide(good, count) && count <= MAX_SENSORS && |good| < TEMP_BATCH_SIZE
    ensures Offered(good, count) == []
  {
  }

  /** Behind whole blocks, a further block adds its packets and a part of one adds nothing. */
  lemma {:induction false} OfferedGrows(done: seq<Reading>, pending: seq<Reading>, count: nat)
    requires Wide(done, count) && Wide(pending, count) && count <= MAX_SENSORS
    requires Whole(done) && |pending| <= TEMP_BATCH_SIZE
    ensures Wide(done + pending, count)
    ensures |pending| == TEMP_BATCH_SIZE ==>
              Whole(done + pending) &&
              Offered(done + pending, count) == Offered(done, count) + BlockPackets(pending, count)
    ensures |pending| < TEMP_BATCH_SIZE ==> Offered(done + pending, count) == Offered(done, count)
    decreases |done|
  {
    WideParts(done, pending, count);
    hide Wide, Offered, BlockPackets;
    if done == [] {
      assert done + pending == pending;
      OfferedShort(done, count);
      if |pending| == TEMP_BATCH_SIZE {
        OfferedUnfold(pending, count);
        OfferedShort(pending[TEMP_BATCH_SIZE..], count);
        assert pending[..TEMP_BATCH_SIZE] == pending;
      } else {
        OfferedShort(pending, count);
      }
    } else {
      WholeTail(done);
      var rest := done[TEMP_BATCH_SIZE..];
      OfferedUnfold(done, count);
      OfferedUnfold(done + pending, count);
      OfferedGrows(rest, pending, count);
      assert (done + pending)[TEMP_BATCH_SIZE..] == rest + pending;
      assert (done + pending)[..TEMP_BATCH_SIZE] == done[..TEMP_BATCH_SIZE];
      if |pending| == TEMP_BATCH_SIZE {
        WholeGrows(done, pending);
      }
    }
  }
}

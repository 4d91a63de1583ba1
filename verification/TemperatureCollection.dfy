/** The temperature collection task: trigger, wait, read, show addresses, batch, offer. */
module TemperatureCollection {
  import opened Codec
  import opened Packets
  import opened TemperatureBatches
  import opened Wrappers
  import Tmp107Chain
  import Tmp107Driver
  import Tmp107Frames

  /** The batch buffer filled in place, a row per sensor. */
  class BatchBuffer {
    const count: nat
    const batch: array2<u16>
    var sampleIndex: nat
    var firstTimestampMs: u32
    var offered: seq<TempPacket>
    ghost var done: seq<Reading>
    ghost var pending: seq<Reading>

    /** The successful readings so far: whole batches and the one being filled. */
    ghost function Good(): seq<Reading>
      reads this
    {
      done + pending
    }

    /** The buffer holds the pending readings. */
    ghost predicate Holds()
      reads this, batch
    {
      && count <= MAX_SENSORS
      && batch.Length0 == 31 && batch.Length1 == 20
      && sampleIndex == |pending| <= TEMP_BATCH_SIZE && Wide(pending, count)
      && (sampleIndex > 0 ==> firstTimestampMs == pending[0].now)
      && (forall s, j :: 0 <= s < count && 0 <= j < sampleIndex ==> batch[s, j] == pending[j].values[s])
    }

    ghost predicate Valid()
      reads this, batch
    {
      && Holds() && sampleIndex < TEMP_BATCH_SIZE
      && Wide(done, count) && Whole(done)
      && offered == Offered(done, count)
    }

    constructor (count: nat)
      requires count <= MAX_SENSORS
      ensures Valid() && fresh(batch) && Good() == [] && this.count == count
    {
      this.count := count;
      batch := new u16[MAX_SENSORS, TEMP_BATCH_SIZE];
      sampleIndex, firstTimestampMs := 0, 0;
      offered, done, pending := [], [], [];
    }

    /** Copies one value per sensor into the column of the present sample. */
    method FillColumn(readings: array<u16>)
      requires count <= readings.Length && count <= batch.Length0 && sampleIndex < batch.Length1
      modifies batch
      ensures forall s, j :: 0 <= s < batch.Length0 && 0 <= j < batch.Length1 ==>
                batch[s, j] == if s < count && j == sampleIndex then readings[s] else old(batch[s, j])
    {
      for sensor := 0 to count
        invariant forall s, j :: 0 <= s < batch.Length0 && 0 <= j < batch.Length1 ==>
                    batch[s, j] == if s < sensor && j == sampleIndex then readings[s] else old(batch[s, j])
      {
        batch[sensor, sampleIndex] := readings[sensor];
      }
    }

    /** Builds and offers the packet of every sensor from a full buffer. */
    method OfferPackets(now: u32)
      requires Holds() && sampleIndex == TEMP_BATCH_SIZE && now == pending[sampleIndex - 1].now
      modifies `offered
      ensures offered == old(offered) + BlockPackets(pending, count)
    {
      var sensor := 0;
      while sensor < count
        invariant 0 <= sensor <= count
        invariant offered == old(offered) + BlockPackets(pending, count)[..sensor]
      {
        var samples := seq(TEMP_BATCH_SIZE, j requires 0 <= j < TEMP_BATCH_SIZE reads this, batch => batch[sensor, j]);
        assert samples == Column(pending, sensor);
        var packet := TempPacketFromSlice(sensor + 1, firstTimestampMs, now, samples);
        assert BlockPackets(pending, count)[..sensor + 1] ==
               BlockPackets(pending, count)[..sensor] + [BlockPacket(pending, count, sensor)];
        if packet.Ok? {
          offered := offered + [packet.value];
        }
        sensor := sensor + 1;
      }
      assert BlockPackets(pending, count)[..count] == BlockPackets(pending, count);
    }

    method RecordSample(readings: array<u16>, now: u32)
      requires Holds() && sampleIndex < TEMP_BATCH_SIZE && count <= readings.Length
      modifies `sampleIndex, `firstTimestampMs, `pending, batch
      ensures Holds() && pending == old(pending) + [Reading(readings[..count], now)]
    {
      if sampleIndex == 0 {
        firstTimestampMs := now;
      }
      FillColumn(readings);
      sampleIndex := sampleIndex + 1;
      pending := pending + [Reading(readings[..count], now)];
    }

    /** A successful cycle joins the batch; the twentieth one offers it. */
    method Add(readings: array<u16>, now: u32)
      requires Valid() && count <= readings.Length
      modifies this, batch
      ensures Valid()
      ensures Good() == old(Good()) + [Reading(readings[..count], now)]
      ensures old(sampleIndex) + 1 < TEMP_BATCH_SIZE ==> sampleIndex == old(sampleIndex) + 1 && offered == old(offered)
      ensures old(sampleIndex) + 1 == TEMP_BATCH_SIZE ==> sampleIndex == 0
    {
      hide Offered, BlockPackets, Wide, Whole;
      RecordSample(readings, now);
      if sampleIndex >= TEMP_BATCH_SIZE {
        OfferPackets(now);
        OfferedGrows(done, pending, count);
        done, pending := done + pending, [];
        sampleIndex := 0;
        assert Wide(pending, count) by { NoneIsWide(count); }
      }
    }
  }

  // ---------------------------------------------------------------------------
  // The task
  // ---------------------------------------------------------------------------

  /** What the world contributes to one cycle: the temperatures converted and the time. */
  datatype Cycle = Cycle(temperatures: seq<u16>, now: u32)

  /** The readings of the cycles that succeeded, restricted to the sensors discovered. */
  ghost function GoodReadings(cycles: seq<Cycle>, ok: seq<bool>, count: nat): (good: seq<Reading>)
    requires |ok| == |cycles|
    requires forall k :: 0 <= k < |cycles| ==> count <= |cycles[k].temperatures|
    ensures Wide(good, count)
  {
    if cycles == [] then []
    else
      var n := |cycles| - 1;
      GoodReadings(cycles[..n], ok[..n], count) +
      (if ok[n] then [Reading(cycles[n].temperatures[..count], cycles[n].now)] else [])
  }

  /** The start of the task on a driver that has discovered its sensors: they are put into
      shutdown mode, and without that the task ends. */
  method StartCollection(driver: Tmp107Driver.Tmp107) returns (collector: Collector?)
    requires driver.Valid() && driver.sensorCount > 0 && Tmp107Frames.Listening(driver.chain)
    modifies driver
    ensures collector == null <==> !Tmp107Driver.Delivers(driver.writeOutcomes(old(driver.writeCount)), 5)
    ensures collector != null ==>
              && fresh(collector) && collector.driver == driver && collector.Valid() && collector.buffer.Good() == []
              && collector.buffer.count == old(driver.sensorCount)
              && forall j :: 0 <= j < driver.sensorCount ==> driver.chain.sensors[j].registers[1] == 0x0998
  {
    var stopped := driver.Shutdown();
    if stopped.Err? {
      return null;
    }
    collector := new Collector(driver);
  }

  class Collector {
    const driver: Tmp107Driver.Tmp107
    const buffer: BatchBuffer
    const readBuf: array<u16>

    ghost predicate Valid()
      reads this, driver, buffer, buffer.batch
    {
      && driver.Valid() && buffer.Valid()
      && 0 < driver.sensorCount == buffer.count
      && readBuf.Length == MAX_SENSORS
      && readBuf != buffer.batch as object
    }

    constructor (driver: Tmp107Driver.Tmp107)
      requires driver.Valid() && driver.sensorCount > 0
      ensures Valid() && this.driver == driver && fresh(buffer) && fresh(buffer.batch) && fresh(readBuf)
      ensures buffer.Good() == []
    {
      this.driver := driver;
      buffer := new BatchBuffer(driver.sensorCount);
      readBuf := new u16[MAX_SENSORS];
    }

    /** The line lets a cycle through: the trigger goes out, the buffer clears, the request goes
        out and the replies arrive in time. What happens to the LEDs makes no difference. */
    predicate CycleSucceeds()
      reads this, driver
    {
      && Tmp107Driver.Delivers(driver.writeOutcomes(driver.writeCount), 5)
      && driver.clearOutcomes(driver.readCount)
      && Tmp107Driver.Delivers(driver.writeOutcomes(driver.writeCount + 1), 3)
      && driver.readOutcomes(driver.readCount).InTime?
    }

    /** One cycle. A frame cut off in an earlier cycle has timed out on the chain by now. A
        cycle that succeeds adds the temperatures just converted, ordered by address; one that
        fails adds nothing. */
    method RunCycle(cycle: Cycle) returns (ok: bool)
      requires Valid() && |cycle.temperatures| == |driver.chain.sensors|
      modifies driver, buffer, buffer.batch, readBuf
      ensures Valid() && driver.sensorCount == old(driver.sensorCount)
      ensures |driver.chain.sensors| == |old(driver.chain).sensors|
      ensures ok <==> old(CycleSucceeds())
      ensures driver.Faultless() ==> ok
      ensures driver.Faultless() ==>
                forall j :: 0 <= j < driver.sensorCount ==> Tmp107Driver.ShowsAddress(driver.chain.sensors[j])
      ensures buffer.Good() == old(buffer.Good()) +
                             (if ok then [Reading(cycle.temperatures[..buffer.count], cycle.now)] else [])
    {
      driver.chain := driver.chain.(frame := Tmp107Chain.AwaitCalibration);
      var triggered := driver.TriggerOneShot();
      if triggered.Err? {
        return false;
      }
      driver.chain := Tmp107Chain.Convert(driver.chain, cycle.temperatures);
      var read := driver.ReadAllTemperatures(readBuf);
      if read.Err? {
        return false;
      }
      assert readBuf[..buffer.count] == cycle.temperatures[..buffer.count];
      var _ := driver.ShowAddressLeds();
      buffer.Add(readBuf, cycle.now);
      ok := true;
    }

    /** Any number of cycles: what has been offered is exactly the packets of the successful
        cycles. */
    method Collect(cycles: seq<Cycle>) returns (ghost ok: seq<bool>)
      requires Valid() && buffer.Good() == []
      requires forall k :: 0 <= k < |cycles| ==> |cycles[k].temperatures| == |driver.chain.sensors|
      modifies driver, buffer, buffer.batch, readBuf
      ensures Valid() && |ok| == |cycles|
      ensures buffer.count <= |driver.chain.sensors| == |old(driver.chain).sensors|
      ensures driver.Faultless() ==> forall k :: 0 <= k < |ok| ==> ok[k]
      ensures buffer.offered == Offered(GoodReadings(cycles, ok, buffer.count), buffer.count)
    {
      ok := [];
      var i := 0;
      while i < |cycles|
        invariant 0 <= i <= |cycles| && |ok| == i
        invariant Valid() && |driver.chain.sensors| == |old(driver.chain).sensors|
        invariant driver.Faultless() ==> forall k :: 0 <= k < |ok| ==> ok[k]
        invariant buffer.Good() == GoodReadings(cycles[..i], ok, buffer.count)
      {
        var good := RunCycle(cycles[i]);
        ok := ok + [good];
        assert cycles[..i + 1][..i] == cycles[..i] && ok[..i] + [good] == ok;
        i := i + 1;
      }
      assert cycles[..i] == cycles;
      OfferedGrows(buffer.done, buffer.pending, buffer.count);
    }
  }
}

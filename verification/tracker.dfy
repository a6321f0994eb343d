/**
 The network performance tracker: three keyed stores filled during a
 simulation run.

 - end-to-end delays per (source, destination) address pair: a running
   total, a packet count and the append-only list of samples (milliseconds);
 - a packet-drop counter per (source, destination) address pair;
 - the list of queue-length samples per device id.

 Every `Track*` operation is a pure update of one key of one store. The
 simulation connects two trace sinks to the tracker: `PacketDropTracer` to the
 error model's "Drop" trace and `QueueSizeTracer` to each router queue's
 "PacketsInQueue" trace. No hook calls `TrackEndToEndDelay`, so in the
 scenario's run the delay store stays empty.
 */
module Tracker {
  import opened Samples

  /** An IPv4 address is a 32-bit value. */
  type Address = a: int | 0 <= a < 0x1_0000_0000

  /** Devices whose queues are traced are named by strings ("Router0", ...). */
  type DeviceId = string

  /** Key of the per-flow stores: the pair of source and destination addresses. */
  datatype AddressPair = AddressPair(source: Address, destination: Address)

  /** Delay accumulator of one address pair; delays are whole milliseconds. */
  datatype DelayRecord = DelayRecord(totalDelay: int, packetCount: int, delays: seq<int>)

  /** The record a pair starts from when it is first seen. */
  const ZeroRecord := DelayRecord(0, 0, [])

  datatype PerformanceTracker = PerformanceTracker(
    endToEndDelays: map<AddressPair, DelayRecord>,
    packetDrops: map<AddressPair, int>,
    queueSizes: map<DeviceId, seq<Uint32>>)

  /** The tracker as it is constructed before the run: every store empty. */
  const Empty := PerformanceTracker(map[], map[], map[])

  /** The IPv4 header fields the drop tracer reads from a dropped packet. */
  datatype Ipv4Header = Ipv4Header(source: Address, destination: Address)

  /** A record is consistent when its count and total agree with its samples. */
  ghost predicate ConsistentRecord(r: DelayRecord)
  {
    r.packetCount == |r.delays| && r.totalDelay == Sum(r.delays)
  }

  /**
   The invariant every tracker reachable from `Empty` keeps: delay records
   are consistent, a drop counter exists only once a drop was counted, and a
   device has a queue list only once a sample was pushed onto it.
   */
  ghost predicate Valid(t: PerformanceTracker)
  {
    && (forall k :: k in t.endToEndDelays ==> ConsistentRecord(t.endToEndDelays[k]))
    && (forall k :: k in t.packetDrops ==> t.packetDrops[k] >= 1)
    && (forall d :: d in t.queueSizes ==> |t.queueSizes[d]| > 0)
  }

  /** The record of a pair, or the zero record the map's `operator[]` would insert. */
  function DelayOf(t: PerformanceTracker, k: AddressPair): DelayRecord
  {
    if k in t.endToEndDelays then t.endToEndDelays[k] else ZeroRecord
  }

  /** The drop count of a pair, 0 when the pair was never seen. */
  function DropsOf(t: PerformanceTracker, k: AddressPair): int
  {
    if k in t.packetDrops then t.packetDrops[k] else 0
  }

  /** The queue samples of a device, empty when the device was never seen. */
  function QueueOf(t: PerformanceTracker, d: DeviceId): seq<Uint32>
  {
    if d in t.queueSizes then t.queueSizes[d] else []
  }

  /**
   Records one delivered packet's delay for the pair (source, destination).
   */
  function TrackEndToEndDelay(t: PerformanceTracker, source: Address, destination: Address, delayMs: int)
    : (t': PerformanceTracker)
    ensures var k := AddressPair(source, destination);
      && k in t'.endToEndDelays
      && t'.endToEndDelays[k].packetCount == DelayOf(t, k).packetCount + 1
      && t'.endToEndDelays[k].delays == DelayOf(t, k).delays + [delayMs]
      && t'.endToEndDelays[k].totalDelay == DelayOf(t, k).totalDelay + delayMs
    ensures forall k :: k != AddressPair(source, destination) ==> DelayOf(t', k) == DelayOf(t, k)
    ensures t'.endToEndDelays.Keys == t.endToEndDelays.Keys + {AddressPair(source, destination)}
    ensures t'.packetDrops == t.packetDrops && t'.queueSizes == t.queueSizes
  {
    var k := AddressPair(source, destination);
    var r := DelayOf(t, k);
    t.(endToEndDelays := t.endToEndDelays[k := DelayRecord(r.totalDelay + delayMs, r.packetCount + 1, r.delays + [delayMs])])
  }

  /** Counts one dropped packet against the pair (source, destination). */
  function TrackPacketDrop(t: PerformanceTracker, source: Address, destination: Address): (t': PerformanceTracker)
    ensures var k := AddressPair(source, destination);
      k in t'.packetDrops && t'.packetDrops[k] == DropsOf(t, k) + 1
    ensures forall k :: k != AddressPair(source, destination) ==> DropsOf(t', k) == DropsOf(t, k)
    ensures t'.packetDrops.Keys == t.packetDrops.Keys + {AddressPair(source, destination)}
    ensures t'.endToEndDelays == t.endToEndDelays && t'.queueSizes == t.queueSizes
  {
    var k := AddressPair(source, destination);
    t.(packetDrops := t.packetDrops[k := DropsOf(t, k) + 1])
  }

  /** Appends one queue-length sample to the device's list. */
  function TrackQueueSize(t: PerformanceTracker, deviceId: DeviceId, size: Uint32): (t': PerformanceTracker)
    ensures deviceId in t'.queueSizes && t'.queueSizes[deviceId] == QueueOf(t, deviceId) + [size]
    ensures forall d :: d != deviceId ==> QueueOf(t', d) == QueueOf(t, d)
    ensures t'.queueSizes.Keys == t.queueSizes.Keys + {deviceId}
    ensures t'.endToEndDelays == t.endToEndDelays && t'.packetDrops == t.packetDrops
  {
    t.(queueSizes := t.queueSizes[deviceId := QueueOf(t, deviceId) + [size]])
  }

  /**
   The "PacketsInQueue" trace sink: of the old and new queue lengths only the
   new one is recorded.
   */
  function QueueSizeTracer(t: PerformanceTracker, deviceId: DeviceId, oldSize: Uint32, newSize: Uint32)
    : (t': PerformanceTracker)
    ensures t'.queueSizes == t.queueSizes[deviceId := QueueOf(t, deviceId) + [newSize]]
    ensures t'.endToEndDelays == t.endToEndDelays && t'.packetDrops == t.packetDrops
  {
    TrackQueueSize(t, deviceId, newSize)
  }

  /** The error-model "Drop" trace sink: the drop is charged to the header's addresses. */
  function PacketDropTracer(t: PerformanceTracker, header: Ipv4Header): (t': PerformanceTracker)
    ensures var k := AddressPair(header.source, header.destination);
      DropsOf(t', k) == DropsOf(t, k) + 1
    ensures forall k :: k != AddressPair(header.source, header.destination) ==> DropsOf(t', k) == DropsOf(t, k)
    ensures t'.endToEndDelays == t.endToEndDelays && t'.queueSizes == t.queueSizes
  {
    TrackPacketDrop(t, header.source, header.destination)
  }

  /** The empty tracker satisfies the invariant. */
  lemma EmptyValid()
    ensures Valid(Empty)
  {
  }

  lemma TrackEndToEndDelayPreservesValid(t: PerformanceTracker, source: Address, destination: Address, delayMs: int)
    requires Valid(t)
    ensures Valid(TrackEndToEndDelay(t, source, destination, delayMs))
  {
    var k := AddressPair(source, destination);
    SumAppend(DelayOf(t, k).delays, delayMs);
  }

  /** A pair seen for the first time holds exactly the one sample afterwards. */
  lemma FirstDelayStartsFromZero(t: PerformanceTracker, source: Address, destination: Address, delayMs: int)
    requires AddressPair(source, destination) !in t.endToEndDelays
    ensures TrackEndToEndDelay(t, source, destination, delayMs).endToEndDelays[AddressPair(source, destination)]
      == DelayRecord(delayMs, 1, [delayMs])
  {
  }

  /**
   Trace events delivered to the tracker during a run, in event order.
   `Dropped` and `QueueChanged` are the two traces the simulation connects;
   `Delivered` stands for a delivery hook that would call
   `TrackEndToEndDelay`, which the simulation never connects.
   */
  datatype Event =
    | Delivered(source: Address, destination: Address, delayMs: int)
    | Dropped(header: Ipv4Header)
    | QueueChanged(deviceId: DeviceId, oldSize: Uint32, newSize: Uint32)

  /**
   Applies one trace event: a drop goes through `PacketDropTracer`, a queue
   change through `QueueSizeTracer`, a delivery to `TrackEndToEndDelay`. Each
   event touches only its own store.
   */
  function Apply(t: PerformanceTracker, e: Event): (t': PerformanceTracker)
    ensures !e.Delivered? ==> t'.endToEndDelays == t.endToEndDelays
    ensures !e.Dropped? ==> t'.packetDrops == t.packetDrops
    ensures !e.QueueChanged? ==> t'.queueSizes == t.queueSizes
    ensures e.Dropped? ==>
      var k := AddressPair(e.header.source, e.header.destination); DropsOf(t', k) == DropsOf(t, k) + 1
    ensures e.QueueChanged? ==> t'.queueSizes == t.queueSizes[e.deviceId := QueueOf(t, e.deviceId) + [e.newSize]]
  {
    match e
    case Delivered(s, d, x) => TrackEndToEndDelay(t, s, d, x)
    case Dropped(h) => PacketDropTracer(t, h)
    case QueueChanged(id, o, n) => QueueSizeTracer(t, id, o, n)
  }

  /**
   Applies a whole run's events in order. Keys are never removed from any
   store, and a run without deliveries (such as the scenario's, which
   connects no delivery hook) leaves the delay store as it was.
   */
  function Replay(t: PerformanceTracker, events: seq<Event>): (t': PerformanceTracker)
    ensures t.endToEndDelays.Keys <= t'.endToEndDelays.Keys
    ensures t.packetDrops.Keys <= t'.packetDrops.Keys
    ensures t.queueSizes.Keys <= t'.queueSizes.Keys
    ensures (forall i :: 0 <= i < |events| ==> !events[i].Delivered?) ==> t'.endToEndDelays == t.endToEndDelays
    decreases |events|
  {
    if |events| == 0 then t else Replay(Apply(t, events[0]), events[1..])
  }

  lemma ApplyPreservesValid(t: PerformanceTracker, e: Event)
    requires Valid(t)
    ensures Valid(Apply(t, e))
  {
    match e
    case Delivered(s, d, x) => TrackEndToEndDelayPreservesValid(t, s, d, x);
    case Dropped(h) =>
    case QueueChanged(id, o, n) =>
  }

  /** Every tracker reachable from a valid one (in particular from `Empty`) is valid. */
  lemma {:induction false} ReplayPreservesValid(t: PerformanceTracker, events: seq<Event>)
    requires Valid(t)
    ensures Valid(Replay(t, events))
    decreases |events|
  {
    if |events| > 0 {
      ApplyPreservesValid(t, events[0]);
      ReplayPreservesValid(Apply(t, events[0]), events[1..]);
    }
  }

  /** Drop counters never decrease and keys are never removed. */
  lemma {:induction false} ReplayDropsMonotonic(t: PerformanceTracker, events: seq<Event>, k: AddressPair)
    ensures DropsOf(Replay(t, events), k) >= DropsOf(t, k)
    ensures k in t.packetDrops ==> k in Replay(t, events).packetDrops
    decreases |events|
  {
    if |events| > 0 {
      ReplayDropsMonotonic(Apply(t, events[0]), events[1..], k);
    }
  }

  /** The delay samples the events deliver for pair `k`, in event order. */
  function DeliveredDelays(events: seq<Event>, k: AddressPair): seq<int>
    decreases |events|
  {
    if |events| == 0 then []
    else
      var e := events[0];
      (if e.Delivered? && AddressPair(e.source, e.destination) == k then [e.delayMs] else [])
      + DeliveredDelays(events[1..], k)
  }

  /** The number of drop events whose header names pair `k`. */
  function DropCount(events: seq<Event>, k: AddressPair): nat
    decreases |events|
  {
    if |events| == 0 then 0
    else
      var e := events[0];
      (if e.Dropped? && AddressPair(e.header.source, e.header.destination) == k then 1 else 0)
      + DropCount(events[1..], k)
  }

  /** The new queue lengths the events report for device `d`, in event order. */
  function QueueSamples(events: seq<Event>, d: DeviceId): seq<Uint32>
    decreases |events|
  {
    if |events| == 0 then []
    else
      var e := events[0];
      (if e.QueueChanged? && e.deviceId == d then [e.newSize] else [])
      + QueueSamples(events[1..], d)
  }

  /**
   Replaying events extends each pair's delay list by exactly the delays
   delivered for that pair, in order; the count and total follow the list.
   */
  lemma {:induction false} ReplayDelays(t: PerformanceTracker, events: seq<Event>, k: AddressPair)
    ensures DelayOf(Replay(t, events), k).delays == DelayOf(t, k).delays + DeliveredDelays(events, k)
    ensures DelayOf(Replay(t, events), k).packetCount == DelayOf(t, k).packetCount + |DeliveredDelays(events, k)|
    ensures DelayOf(Replay(t, events), k).totalDelay == DelayOf(t, k).totalDelay + Sum(DeliveredDelays(events, k))
    decreases |events|
  {
    if |events| > 0 {
      var t1 := Apply(t, events[0]);
      var rest := DeliveredDelays(events[1..], k);
      ReplayDelays(t1, events[1..], k);
      if events[0].Delivered? && AddressPair(events[0].source, events[0].destination) == k {
        var x := events[0].delayMs;
        assert DeliveredDelays(events, k) == [x] + rest;
        assert DelayOf(t1, k).delays + rest == DelayOf(t, k).delays + ([x] + rest);
        SumConcat([x], rest);
      } else {
        assert DeliveredDelays(events, k) == rest;
      }
    }
  }

  /** Replaying events adds to each pair's counter exactly its number of drop events. */
  lemma {:induction false} ReplayDrops(t: PerformanceTracker, events: seq<Event>, k: AddressPair)
    ensures DropsOf(Replay(t, events), k) == DropsOf(t, k) + DropCount(events, k)
    decreases |events|
  {
    if |events| > 0 {
      ReplayDrops(Apply(t, events[0]), events[1..], k);
    }
  }

  /** Replaying events extends each device's list by exactly its new queue lengths. */
  lemma {:induction false} ReplayQueues(t: PerformanceTracker, events: seq<Event>, d: DeviceId)
    ensures QueueOf(Replay(t, events), d) == QueueOf(t, d) + QueueSamples(events, d)
    decreases |events|
  {
    if |events| > 0 {
      ReplayQueues(Apply(t, events[0]), events[1..], d);
      var rest := QueueSamples(events[1..], d);
      if events[0].QueueChanged? && events[0].deviceId == d {
        assert QueueSamples(events, d) == [events[0].newSize] + rest;
        assert QueueOf(t, d) + [events[0].newSize] + rest == QueueOf(t, d) + ([events[0].newSize] + rest);
      } else {
        assert QueueSamples(events, d) == rest;
      }
    }
  }
}

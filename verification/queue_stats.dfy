/**
 The queue-statistics part of the final report: for every traced device, in
 the tracker map's key order, the sum, average and maximum of its recorded
 queue lengths (raw values, before any presentation scaling).
 */
module QueueStats {
  import opened Samples
  import opened Tracker
  import opened StringOrder

  /**
   The average of a device's samples. The source divides the sum by the
   number of samples without a guard, so an empty list would give the
   floating-point 0/0, which is `NotANumber` here.
   */
  datatype Average = NotANumber | Mean(value: real)

  /** One device's line of the report. */
  datatype QueueStat = QueueStat(device: DeviceId, sum: int, average: Average, maxSize: Uint32)

  /** `st` holds the sum, the average and the running maximum of `samples`. */
  ghost predicate Summarises(st: QueueStat, samples: seq<Uint32>)
  {
    && st.sum == Sum(samples)
    && IsRunningMax(samples, st.maxSize)
    && (st.average.NotANumber? <==> |samples| == 0)
    && (st.average.Mean? ==> st.average.value * (|samples| as real) == st.sum as real)
  }

  /** `std::max` on unsigned values: the first argument unless it is smaller. */
  function StdMax(a: Uint32, b: Uint32): (r: Uint32)
    ensures r >= a && r >= b && (r == a || r == b)
  {
    if a < b then b else a
  }

  /**
   The inner loop of the report: one pass accumulating the sum and a running
   maximum seeded with 0, then the division by the number of samples.
   */
  method ReduceQueue(samples: seq<Uint32>) returns (sum: int, average: Average, maxSize: Uint32)
    ensures sum == Sum(samples)
    ensures IsRunningMax(samples, maxSize)
    ensures average.NotANumber? <==> |samples| == 0
    ensures average.Mean? ==> average.value * (|samples| as real) == sum as real
  {
    sum := 0;
    maxSize := 0;
    var i := 0;
    while i < |samples|
      invariant 0 <= i <= |samples|
      invariant sum == Sum(samples[..i])
      invariant IsRunningMax(samples[..i], maxSize)
    {
      assert samples[..i + 1] == samples[..i] + [samples[i]];
      SumAppend(samples[..i], samples[i]);
      var previous := maxSize;
      sum := sum + samples[i];
      maxSize := StdMax(maxSize, samples[i]);
      if maxSize == samples[i] {
        assert samples[..i + 1][i] == maxSize;
      } else {
        assert i > 0;
        var w :| 0 <= w < i && samples[..i][w] == previous;
        assert samples[..i + 1][w] == maxSize;
      }
      i := i + 1;
    }
    assert samples[..i] == samples;
    if |samples| == 0 {
      average := NotANumber;
    } else {
      average := Mean(sum as real / |samples| as real);
    }
  }

  /** Every entry has its device in the map, and its numbers describe that device's samples. */
  ghost predicate Describes(rows: seq<QueueStat>, queues: map<DeviceId, seq<Uint32>>)
  {
    forall i :: 0 <= i < |rows| ==> rows[i].device in queues && Summarises(rows[i], queues[rows[i].device])
  }

  /** The report's devices are in ascending key order, each once. */
  ghost predicate InKeyOrder(rows: seq<QueueStat>)
  {
    forall i, j :: 0 <= i < j < |rows| ==> Less(rows[i].device, rows[j].device)
  }

  /**
   The queue-statistics report: one line per device of the tracker, in the
   order `std::map` iterates its keys. For a valid tracker no line has an
   undefined average, so the unguarded division is never by zero.
   */
  method QueueReport(t: PerformanceTracker) returns (rows: seq<QueueStat>)
    ensures |rows| == |t.queueSizes|
    ensures InKeyOrder(rows)
    ensures forall d :: d in t.queueSizes <==> exists i :: 0 <= i < |rows| && rows[i].device == d
    ensures Describes(rows, t.queueSizes)
    ensures Valid(t) ==> forall i :: 0 <= i < |rows| ==> rows[i].average.Mean?
  {
    var keys := SortedKeys(t.queueSizes);
    rows := [];
    var i := 0;
    while i < |keys|
      invariant 0 <= i <= |keys|
      invariant |rows| == i
      invariant forall j :: 0 <= j < i ==> rows[j].device == keys[j]
      invariant Describes(rows, t.queueSizes)
    {
      var samples := t.queueSizes[keys[i]];
      var sum, average, maxSize := ReduceQueue(samples);
      var line := QueueStat(keys[i], sum, average, maxSize);
      assert Summarises(line, samples);
      rows := rows + [line];
      i := i + 1;
    }
    forall d | d in t.queueSizes
      ensures exists j :: 0 <= j < |rows| && rows[j].device == d
    {
      var j :| 0 <= j < |keys| && keys[j] == d;
      assert rows[j].device == d;
    }
    ValidLinesDefined(t, rows);
  }

  /** Lines describing a valid tracker's lists, which are never empty, all have a defined average. */
  lemma ValidLinesDefined(t: PerformanceTracker, rows: seq<QueueStat>)
    requires Describes(rows, t.queueSizes)
    ensures Valid(t) ==> forall i :: 0 <= i < |rows| ==> rows[i].average.Mean?
  {
    if Valid(t) {
      forall i | 0 <= i < |rows|
        ensures rows[i].average.Mean?
      {
        assert |t.queueSizes[rows[i].device]| > 0;
      }
    }
  }

  /** The running maximum of a sample list is determined by the list. */
  lemma RunningMaxUnique(s: seq<int>, m1: int, m2: int)
    requires IsRunningMax(s, m1) && IsRunningMax(s, m2)
    ensures m1 == m2
  {
  }

  /** The devices of a report, in report order. */
  function DevicesOf(rows: seq<QueueStat>): (ds: seq<DeviceId>)
    ensures |ds| == |rows| && forall i :: 0 <= i < |rows| ==> ds[i] == rows[i].device
  {
    seq(|rows|, i requires 0 <= i < |rows| => rows[i].device)
  }

  /** Two lines for the same device that both summarise its samples are equal. */
  lemma LineUnique(x: QueueStat, y: QueueStat, s: seq<Uint32>)
    requires x.device == y.device
    requires Summarises(x, s) && Summarises(y, s)
    ensures x == y
  {
    RunningMaxUnique(s, x.maxSize, y.maxSize);
    if |s| > 0 {
      assert x.average.value == y.average.value;
    }
  }

  /** A report that lists exactly the map's devices in key order lists them as `SortedKeys` does. */
  lemma DevicesAscending(queues: map<DeviceId, seq<Uint32>>, rows: seq<QueueStat>)
    requires InKeyOrder(rows)
    requires forall d :: d in queues <==> exists i :: 0 <= i < |rows| && rows[i].device == d
    ensures StrictlyAscending(DevicesOf(rows))
    ensures forall d :: d in queues <==> d in DevicesOf(rows)
  {
    var ds := DevicesOf(rows);
    forall d
      ensures d in queues <==> d in ds
    {
      if d in queues {
        var i :| 0 <= i < |rows| && rows[i].device == d;
        assert ds[i] == d;
      }
      if d in ds {
        var i :| 0 <= i < |ds| && ds[i] == d;
        assert rows[i].device == d;
      }
    }
  }

  /**
   The report is a function of the recorded samples: any two lists of lines
   meeting the contract of `QueueReport` for the same queues are equal.
   */
  lemma ReportUnique(queues: map<DeviceId, seq<Uint32>>, a: seq<QueueStat>, b: seq<QueueStat>)
    requires |a| == |queues| && |b| == |queues|
    requires InKeyOrder(a) && InKeyOrder(b)
    requires forall d :: d in queues <==> exists i :: 0 <= i < |a| && a[i].device == d
    requires forall d :: d in queues <==> exists i :: 0 <= i < |b| && b[i].device == d
    requires Describes(a, queues) && Describes(b, queues)
    ensures a == b
  {
    DevicesAscending(queues, a);
    DevicesAscending(queues, b);
    AscendingUnique(DevicesOf(a), DevicesOf(b));
    forall i | 0 <= i < |a|
      ensures a[i] == b[i]
    {
      assert DevicesOf(a)[i] == DevicesOf(b)[i];
      LineUnique(a[i], b[i], queues[a[i].device]);
    }
  }
}

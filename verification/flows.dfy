/**
 Flow derivation: every non-zero off-diagonal cell (i, j) of the 5x5 traffic
 matrix becomes one UDP flow from end device i to end device j, on its own
 port, sending the cell's packet count at a fixed interval over the run.
 */
module Flows {
  import opened Samples

  /** Number of end devices (and of routers) in the ring. */
  const Devices := 5

  type Uint16 = n: int | 0 <= n < 0x1_0000

  /** The scenario's traffic matrix: packets sent from end device i to end device j. */
  const TrafficMatrix: seq<seq<nat>> := [
    [0, 40, 50, 204, 44],
    [33, 0, 40, 50, 34],
    [29, 78, 0, 100, 54],
    [120, 19, 144, 0, 67],
    [34, 88, 91, 54, 0]
  ]

  /** The run parameters the flows are built from. */
  datatype Config = Config(basePort: Uint16, simulationTime: Uint32, packetSizeBits: Uint32)

  /** The scenario's parameters: base port 9, a 60 s run, 2048-bit packets. */
  const Scenario := Config(9, 60, 2048)

  /** A matrix of the shape the loops walk over. */
  ghost predicate IsSquare(m: seq<seq<nat>>)
  {
    |m| == Devices && forall i :: 0 <= i < Devices ==> |m[i]| == Devices
  }

  /**
   One UDP client/server pair. The server runs on `destination` from 0 s to
   `stop`; the client runs on `source` from `clientStart` to `stop` and sends
   at most `maxPackets` packets of `payloadBytes` bytes, one per `interval`
   seconds, to the server's `port`.
   */
  datatype Flow = Flow(
    source: nat,
    destination: nat,
    port: Uint16,
    maxPackets: nat,
    interval: real,
    payloadBytes: nat,
    serverStart: real,
    clientStart: real,
    stop: real)

  /** Whether the loop creates a flow for cell (i, j). */
  predicate Selected(m: seq<seq<nat>>, i: nat, j: nat)
    requires IsSquare(m) && i < Devices && j < Devices
  {
    i != j && m[i][j] != 0
  }

  /**
   The port of pair (i, j): the sum is computed in 32 bits and stored into a
   16-bit variable, so it is taken modulo 2^16.
   */
  function PortOf(basePort: Uint16, i: nat, j: nat): (p: Uint16)
    requires i < Devices && j < Devices
    ensures basePort + Devices * (Devices - 1) + (Devices - 1) < 0x1_0000 ==> p == basePort + Devices * i + j
  {
    (basePort + i * Devices + j) % 0x1_0000
  }

  /** The flow created for a selected cell. */
  function MakeFlow(m: seq<seq<nat>>, cfg: Config, i: nat, j: nat): (f: Flow)
    requires IsSquare(m) && i < Devices && j < Devices && m[i][j] != 0
    ensures f.source == i && f.destination == j && f.maxPackets == m[i][j]
    ensures f.interval * (f.maxPackets as real) == cfg.simulationTime as real
    ensures f.interval > 0.0 <==> cfg.simulationTime > 0
  {
    Flow(i, j, PortOf(cfg.basePort, i, j), m[i][j],
         cfg.simulationTime as real / m[i][j] as real,
         cfg.packetSizeBits / 8,
         0.0, 1.0, cfg.simulationTime as real)
  }

  /** Position of a flow's cell in the loops' (row, column) order. */
  function CellIndex(f: Flow): nat
  {
    f.source * Devices + f.destination
  }

  /** A flow that is exactly what `MakeFlow` builds for a selected cell. */
  ghost predicate Derived(m: seq<seq<nat>>, cfg: Config, f: Flow)
    requires IsSquare(m)
  {
    && f.source < Devices && f.destination < Devices
    && Selected(m, f.source, f.destination)
    && f == MakeFlow(m, cfg, f.source, f.destination)
  }

  /** The inner loop: flows for cells (i, j), (i, j + 1), ..., (i, 4). */
  function RowFlows(m: seq<seq<nat>>, cfg: Config, i: nat, j: nat): (r: seq<Flow>)
    requires IsSquare(m) && i < Devices && j <= Devices
    ensures forall k :: 0 <= k < |r| ==> Derived(m, cfg, r[k]) && r[k].source == i && j <= r[k].destination
    ensures forall k, l :: 0 <= k < l < |r| ==> r[k].destination < r[l].destination
    ensures forall c :: j <= c < Devices && Selected(m, i, c) ==> MakeFlow(m, cfg, i, c) in r
    decreases Devices - j
  {
    if j == Devices then []
    else if Selected(m, i, j) then [MakeFlow(m, cfg, i, j)] + RowFlows(m, cfg, i, j + 1)
    else RowFlows(m, cfg, i, j + 1)
  }

  /** The outer loop from row i on. */
  function RowsFrom(m: seq<seq<nat>>, cfg: Config, i: nat): (r: seq<Flow>)
    requires IsSquare(m) && i <= Devices
    ensures forall k :: 0 <= k < |r| ==> Derived(m, cfg, r[k]) && i <= r[k].source
    ensures forall k, l :: 0 <= k < l < |r| ==> CellIndex(r[k]) < CellIndex(r[l])
    ensures forall a, c :: i <= a < Devices && 0 <= c < Devices && Selected(m, a, c) ==> MakeFlow(m, cfg, a, c) in r
    decreases Devices - i
  {
    if i == Devices then []
    else
      var row := RowFlows(m, cfg, i, 0);
      var rest := RowsFrom(m, cfg, i + 1);
      assert forall k, l :: 0 <= k < |row| && 0 <= l < |rest| ==> CellIndex(row[k]) < CellIndex(rest[l]);
      row + rest
  }

  /**
   The flows the set-up loops create, in creation order: every flow comes from
   a selected cell, every selected cell gives a flow, and cells are visited row
   by row.
   */
  function DeriveFlows(m: seq<seq<nat>>, cfg: Config): (r: seq<Flow>)
    requires IsSquare(m)
    ensures forall k :: 0 <= k < |r| ==> Derived(m, cfg, r[k])
    ensures forall k, l :: 0 <= k < l < |r| ==> CellIndex(r[k]) < CellIndex(r[l])
    ensures forall a, c :: 0 <= a < Devices && 0 <= c < Devices && Selected(m, a, c) ==> MakeFlow(m, cfg, a, c) in r
  {
    RowsFrom(m, cfg, 0)
  }

  /** A flow is created for (i, j) if and only if i != j and the cell is non-zero. */
  lemma FlowCreatedIff(m: seq<seq<nat>>, cfg: Config, i: nat, j: nat)
    requires IsSquare(m) && i < Devices && j < Devices
    ensures (exists k :: 0 <= k < |DeriveFlows(m, cfg)| && DeriveFlows(m, cfg)[k].source == i && DeriveFlows(m, cfg)[k].destination == j)
        <==> (i != j && m[i][j] != 0)
  {
    var r := DeriveFlows(m, cfg);
    if i != j && m[i][j] != 0 {
      var f := MakeFlow(m, cfg, i, j);
      assert Selected(m, i, j);
      var k :| 0 <= k < |r| && r[k] == f;
    }
  }

  /** No two flows are created for the same (source, destination) pair. */
  lemma OneFlowPerPair(m: seq<seq<nat>>, cfg: Config, k: nat, l: nat)
    requires IsSquare(m)
    requires k < l < |DeriveFlows(m, cfg)|
    ensures DeriveFlows(m, cfg)[k].source != DeriveFlows(m, cfg)[l].source
         || DeriveFlows(m, cfg)[k].destination != DeriveFlows(m, cfg)[l].destination
  {
  }

  /** Distinct cells get distinct ports, whatever the base port. */
  lemma PortOfInjective(basePort: Uint16, i: nat, j: nat, a: nat, c: nat)
    requires i < Devices && j < Devices && a < Devices && c < Devices
    requires (i, j) != (a, c)
    ensures PortOf(basePort, i, j) != PortOf(basePort, a, c)
  {
    var x, y := i * Devices + j, a * Devices + c;
    assert x != y;
    var q1, q2 := (basePort + x) / 0x1_0000, (basePort + y) / 0x1_0000;
    assert 0 <= q1 <= 1 && 0 <= q2 <= 1;
    if q1 == q2 {
      assert PortOf(basePort, i, j) - PortOf(basePort, a, c) == x - y;
    } else {
      assert PortOf(basePort, i, j) - PortOf(basePort, a, c) == x - y + (q2 - q1) * 0x1_0000;
    }
  }

  /** The ports of the created flows are pairwise distinct. */
  lemma PortsDistinct(m: seq<seq<nat>>, cfg: Config)
    requires IsSquare(m)
    ensures forall k, l :: 0 <= k < l < |DeriveFlows(m, cfg)| ==> DeriveFlows(m, cfg)[k].port != DeriveFlows(m, cfg)[l].port
  {
    var r := DeriveFlows(m, cfg);
    forall k, l | 0 <= k < l < |r|
      ensures r[k].port != r[l].port
    {
      assert CellIndex(r[k]) < CellIndex(r[l]);
      PortOfInjective(cfg.basePort, r[k].source, r[k].destination, r[l].source, r[l].destination);
    }
  }

  /** Without 16-bit wrap-around every port lies in [basePort, basePort + 24]. */
  lemma PortsInRange(m: seq<seq<nat>>, cfg: Config)
    requires IsSquare(m)
    requires cfg.basePort + Devices * Devices - 1 < 0x1_0000
    ensures forall f :: f in DeriveFlows(m, cfg) ==> cfg.basePort <= f.port <= cfg.basePort + Devices * Devices - 1
  {
  }

  /** Every created flow sends its cell's count, and interval times count is the run time. */
  lemma FlowSchedule(m: seq<seq<nat>>, cfg: Config, f: Flow)
    requires IsSquare(m) && f in DeriveFlows(m, cfg)
    ensures f.source < Devices && f.destination < Devices && f.source != f.destination
    ensures f.maxPackets == m[f.source][f.destination] && f.maxPackets > 0
    ensures f.interval * (f.maxPackets as real) == cfg.simulationTime as real
    ensures f.payloadBytes == cfg.packetSizeBits / 8
    ensures f.serverStart == 0.0 && f.clientStart == 1.0 && f.stop == cfg.simulationTime as real
  {
    var r := DeriveFlows(m, cfg);
    var k :| 0 <= k < |r| && r[k] == f;
    assert Derived(m, cfg, f);
    DerivedSchedule(m, cfg, f);
  }

  /**
   Interval times count for one derived flow, proved on its own so that the
   real arithmetic does not meet the quantified contract of `DeriveFlows`.
   */
  lemma DerivedSchedule(m: seq<seq<nat>>, cfg: Config, f: Flow)
    requires IsSquare(m) && Derived(m, cfg, f)
    ensures f.interval * (f.maxPackets as real) == cfg.simulationTime as real
  {
    var g := MakeFlow(m, cfg, f.source, f.destination);
    assert f == g;
  }

  /** With every off-diagonal cell non-zero, the inner loop from column j creates one flow per column but i. */
  lemma {:induction false} RowFlowsCount(m: seq<seq<nat>>, cfg: Config, i: nat, j: nat)
    requires IsSquare(m) && i < Devices && j <= Devices
    requires forall a, c :: 0 <= a < Devices && 0 <= c < Devices && a != c ==> m[a][c] != 0
    ensures |RowFlows(m, cfg, i, j)| == (Devices - j) - (if j <= i then 1 else 0)
    decreases Devices - j
  {
    if j < Devices {
      RowFlowsCount(m, cfg, i, j + 1);
    }
  }

  lemma {:induction false} RowsFromCount(m: seq<seq<nat>>, cfg: Config, i: nat)
    requires IsSquare(m) && i <= Devices
    requires forall a, c :: 0 <= a < Devices && 0 <= c < Devices && a != c ==> m[a][c] != 0
    ensures |RowsFrom(m, cfg, i)| == (Devices - i) * (Devices - 1)
    decreases Devices - i
  {
    if i < Devices {
      RowFlowsCount(m, cfg, i, 0);
      RowsFromCount(m, cfg, i + 1);
    }
  }

  /** The scenario's matrix is 5x5 with every off-diagonal cell non-zero. */
  lemma ScenarioMatrixShape()
    ensures IsSquare(TrafficMatrix)
    ensures forall a, c :: 0 <= a < Devices && 0 <= c < Devices && a != c ==> TrafficMatrix[a][c] != 0
  {
    var m := TrafficMatrix;
    assert m[0] == [0, 40, 50, 204, 44];
    assert m[1] == [33, 0, 40, 50, 34];
    assert m[2] == [29, 78, 0, 100, 54];
    assert m[3] == [120, 19, 144, 0, 67];
    assert m[4] == [34, 88, 91, 54, 0];
  }

  /** The scenario's matrix therefore yields 20 flows, one per off-diagonal cell. */
  lemma ScenarioHasTwentyFlows()
    ensures IsSquare(TrafficMatrix)
    ensures |DeriveFlows(TrafficMatrix, Scenario)| == 20
  {
    ScenarioMatrixShape();
    RowsFromCount(TrafficMatrix, Scenario, 0);
  }

  /** The flow from device 0 to device 1: 40 packets, one every 1.5 s, to port 10. */
  lemma ScenarioFlowZeroToOne()
    ensures IsSquare(TrafficMatrix)
    ensures Flow(0, 1, 10, 40, 1.5, 256, 0.0, 1.0, 60.0) in DeriveFlows(TrafficMatrix, Scenario)
  {
    ScenarioMatrixShape();
    assert TrafficMatrix[0][1] == 40;
    assert MakeFlow(TrafficMatrix, Scenario, 0, 1) == Flow(0, 1, 10, 40, 1.5, 256, 0.0, 1.0, 60.0);
    assert Selected(TrafficMatrix, 0, 1);
  }
}

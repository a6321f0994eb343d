# Network performance tracker and flow set-up, in Dafny

A model of the measurement and traffic-generation core of an ns-3 ring
network simulation (five routers in a ring, one end device per router):

- the **performance tracker** (`Tracker`): three keyed stores. For each
  (source, destination) address pair it keeps a delay record and a drop
  counter. The delay record holds a running total, a packet count and an
  append-only list of millisecond samples. For each device id it keeps a
  list of queue-length samples. The simulation connects two trace sinks to
  the tracker: `PacketDropTracer` to the error model's "Drop" trace and
  `QueueSizeTracer` to each router queue's "PacketsInQueue" trace. The
  model also replays a run's trace events in order;
- the **queue-statistics report** (`QueueStats`): per device the sum, average
  and maximum of its queue-length samples, in the order `std::map` iterates
  its `std::string` keys (`StringOrder`);
- the **flow set-up** (`Flows`): the 5x5 traffic matrix turned into one UDP
  client/server flow per non-zero off-diagonal cell, with its port, packet
  count, send interval and start/stop times.

`Samples` holds the sum and running-maximum definitions the other modules
share. Everything is pure: tracker operations are functions from a tracker
value to a new tracker value, and flow set-up is a function from the matrix
and run parameters to the sequence of flows in creation order.

Facts about the code that the model keeps:

- the report lists devices in ascending `std::string` key order, the order
  in which the `std::map` iterates them;
- the average is an unguarded division by the sample count; the model keeps
  that division and proves that a tracker reachable from the empty one never
  holds an empty list, so the division is never by zero;
- delay statistics and drop counts are not reported, because that printing
  is commented out;
- delay samples are not checked to be non-negative;
- nothing calls `TrackEndToEndDelay`, so in the scenario's run the delay
  store stays empty.

## Model

| member | source | states |
|---|---|---|
| Tracker.TrackEndToEndDelay | Simulation_final_animated.cc:43-48 | the pair's count rises by one, the delay is appended at the end of its list and added to its total; the pair is present afterwards; every other pair's record and the drop and queue stores are unchanged |
| Tracker.TrackPacketDrop | Simulation_final_animated.cc:50-53 | the pair's counter becomes its old value (0 for a new pair) plus one; no other counter and no other store changes |
| Tracker.TrackQueueSize | Simulation_final_animated.cc:55-57 | the sample is appended at the end of the device's list (created empty if new); other devices' lists and the other stores are unchanged |
| Tracker.QueueSizeTracer | Simulation_final_animated.cc:131-133 | the queue trace sink appends exactly the new length to the device's list and changes nothing else; the resulting tracker does not depend on the old length |
| Tracker.PacketDropTracer | Simulation_final_animated.cc:134-142 | a drop is charged to the pair named by the dropped packet's IPv4 header source and destination, and to no other pair |
| Tracker.TrackEndToEndDelayPreservesValid | Simulation_final_animated.cc:31-48 | recording a delay keeps every record's count equal to its number of samples and its total equal to their sum |
| Tracker.FirstDelayStartsFromZero | Simulation_final_animated.cc:36-47 | a pair seen for the first time starts from the zero record, so afterwards it holds exactly that one sample |
| Tracker.Apply | Simulation_final_animated.cc:186 | a drop event raises the counter of the header's pair by one and a queue event appends its new length to its device's list, each through the sink bound to that trace; every event leaves the other stores unchanged |
| Tracker.Replay | Simulation_final_animated.cc:213-214 | replaying a run's events in order never removes a key from any store, and a run with no delivery events leaves the delay store unchanged |
| Tracker.ReplayPreservesValid | Simulation_final_animated.cc:43-57 | after any sequence of trace events every delay record is consistent, every drop counter is at least 1 and every device's queue list is non-empty |
| Tracker.ReplayDelays | Simulation_final_animated.cc:43-48 | a pair's delay list grows by exactly the delays delivered for it, in event order; its count and total grow by their number and sum |
| Tracker.ReplayDrops | Simulation_final_animated.cc:50-53 | a pair's drop counter grows by exactly the number of drop events whose header names that pair |
| Tracker.ReplayDropsMonotonic | Simulation_final_animated.cc:50-53 | drop counters never decrease and a counted pair is never removed |
| Tracker.ReplayQueues | Simulation_final_animated.cc:55-57 | a device's queue list grows by exactly the new lengths its queue-change events report, in event order |
| StringOrder.SortedKeys | Simulation_final_animated.cc:41 | the device ids in `std::map` iteration order: every key exactly once, strictly ascending in `std::string` order |
| StringOrder.AscendingUnique | Simulation_final_animated.cc:91 | that iteration order is unique: two strictly ascending key sequences with the same keys are equal |
| QueueStats.StdMax | Simulation_final_animated.cc:96 | `std::max` returns one of its arguments and it is at least both |
| QueueStats.ReduceQueue | Simulation_final_animated.cc:92-98 | the sum is the sum of the samples; the maximum bounds every sample and is one of them, or 0 for no samples; the average is undefined exactly when there are no samples and otherwise times the sample count equals the sum |
| QueueStats.QueueReport | Simulation_final_animated.cc:89-98 | one line per device, devices in ascending key order, each line summarising that device's samples; for a valid tracker no average is undefined, so the division is never by zero |
| QueueStats.ReportUnique | Simulation_final_animated.cc:89-98 | the report is determined by the recorded samples: any two line lists meeting the report's contract are equal |
| Flows.PortOf | Simulation_final_animated.cc:249 | the port is base + 5i + j taken modulo 2^16, which is base + 5i + j whenever base + 24 fits in 16 bits |
| Flows.MakeFlow | Simulation_final_animated.cc:249-265 | the flow for cell (i, j) goes from device i to device j, sends the cell's count of packets, and interval times count equals the run time |
| Flows.RowFlows | Simulation_final_animated.cc:246-247 | the inner loop creates a flow for every selected column from j on, only for those, in ascending column order |
| Flows.RowsFrom | Simulation_final_animated.cc:245-267 | the outer loop from row i creates a flow for every selected cell in rows i..4, only for those, in row-major order |
| Flows.DeriveFlows | Simulation_final_animated.cc:245-267 | every created flow comes from a cell with i != j and a non-zero count, every such cell gives a flow, in row-major order |
| Flows.FlowCreatedIff | Simulation_final_animated.cc:245-247 | a flow from i to j exists if and only if i != j and matrix[i][j] != 0 |
| Flows.OneFlowPerPair | Simulation_final_animated.cc:245-247 | no two created flows share a (source, destination) pair |
| Flows.PortOfInjective | Simulation_final_animated.cc:249 | distinct cells get distinct ports, even with 16-bit wrap-around |
| Flows.PortsDistinct | Simulation_final_animated.cc:249-258 | the created flows' ports are pairwise distinct |
| Flows.PortsInRange | Simulation_final_animated.cc:249 | when base + 24 fits in 16 bits every port lies in [base, base + 24] |
| Flows.FlowSchedule | Simulation_final_animated.cc:252-265 | each created flow has distinct end devices, sends the cell's positive count, interval times count equals the run time, payload is packet bits / 8, the server starts at 0 s, the client at 1 s, both stop at the run time |
| Flows.ScenarioMatrixShape | Simulation_final_animated.cc:20-26 | the scenario's matrix is 5x5 with every off-diagonal cell non-zero |
| Flows.ScenarioHasTwentyFlows | Simulation_final_animated.cc:20-26 | the scenario's matrix yields exactly 20 flows |
| Flows.ScenarioFlowZeroToOne | Simulation_final_animated.cc:245-261 | in the scenario, device 0 sends 40 packets to device 1 on port 10, one every 1.5 s |

## Left out

- The network simulator itself: node, link and queue creation, link rates and delays, IP address assignment, global routing, mobility, and running the event loop (Simulation_final_animated.cc:158-242, 313-320). It is configuration of a foreign library; the model sees only the trace events it delivers (`Tracker.Event`).
- The receive error model and its Bernoulli loss draw: randomness inside the simulator. The model sees only the resulting drop events.
- Which events the simulator delivers and when: the packet count of a flow is not related to its delivered and dropped packets, because that depends on the simulator's run.
- The NetAnim animation, node descriptions and positions, and the ASCII packet trace (Simulation_final_animated.cc:269-311).
- The printing in the report, including the per-position output multipliers on the average and the maximum (Simulation_final_animated.cc:99-125): presentation scaling with no stated meaning. The model reports the raw sum, average and maximum. The code prints a line only for the first five devices (`ctr` 0 to 4), while `QueueReport` returns a line for every device.
- No delivery hook is installed: `TrackEndToEndDelay` has no caller in the program, and `Tracker.Event.Delivered` stands for a hook the program never connects. The delay store and its properties are modelled as the class defines them.
- The delay mean/variance and drop-count printing, which is commented out in the code.
- Simulation_first.cc: simulator set-up and a formatting wrapper over flow-monitor statistics, with no logic of its own.
- The conversion of an ns-3 `Time` to whole milliseconds: the delay enters the model as an integer number of milliseconds.
- Tracker.TrackEndToEndDelay: the total is a `double` and the count a C++ `int`; the model uses unbounded integers, so rounding of very large totals and count overflow after 2^31 packets are not modelled.
- Tracker.TrackPacketDrop: the counter is a C++ `int`; overflow after 2^31 drops is not modelled.
- QueueStats.ReduceQueue: the sum and average are accumulated in `double`; the model computes them exactly (integer sum, rational average), so floating-point rounding is not modelled.
- StringOrder.SortedKeys: characters are compared by code point, while `std::string` compares them as `unsigned char`; the two agree on the ASCII device ids used ("Router0" to "Router4").
- Flows.DeriveFlows: matrix cells are natural numbers (the scenario's matrix has no negative cell), so the conversion of a negative count to an unsigned attribute is not modelled; the interval is an exact rational instead of a `double`.

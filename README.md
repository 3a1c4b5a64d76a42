# Mobile data collector: spiral path, retrying exchanges, collection cycle

This project models the mission script of a drone that collects data from a
field of sensor nodes over a serial radio link. The script is
`htmlProj/arducopterweb/DroneControlServer/Scripts/Tests/MDCn_p3e1.py`.

It models the script in four parts:

- **The square-spiral path.** `generate_square_spiral_path` places point n
  in closed form from `ceil(sqrt(n + 1))`.
  - Module `Geometry` gives the integer offsets of the spiral.
  - It proves the closed form equal to a clockwise walk that takes one unit
    step at a time.
  - It proves that the path is a bijection between the first `(2 layers + 1)^2`
    indices and the grid square of radius `layers`.
  - Module `Waypoints` holds the two loops that fill the path and the linear
    rescale `scale_waypoints_by_factor`, over reals.
- **The request packets.** Module `Packets` holds the field assignments of
  `send_request_for_data_packet` and `send_scenario_packet`, the script's
  constants and its configuration.
- **The retrying exchanges.** `set_scenario` and `collect_data_from_node`
  share one polling loop.
  - A request is resent when more than the retry interval has passed, up to
    an attempt budget.
  - The first packet of the right type from the right node ends the exchange.
  - Module `Retry` specifies that loop as a function of the passes it sees.
    Each pass is one clock reading and one non-blocking read.
  - Module `Exchanges` writes both exchanges as the `while` loops they are,
    and proves them equal to that specification.
- **The collection cycle.** The script's module-level variables become the
  fields of class `Mission.CollectionCycle`. These are the cycle's start and
  end times, each node's latencies and awake duration, and the
  `go_to_next_waypoint` flag.
  - `run_collection_cycle` has three parts: the negotiation pass, the nested
    waypoint and node loops guarded by the flag, and the switch-off pass.
  - `finalise_collection_cycle` computes the duration, the reliability and the
    mean latencies. Module `Metrics` defines these figures.
  - The main menu finalises only while the flag is still up.

The clock and the radio are inputs.

- An exchange reads a `Trace`: the clock reading before its loop, then one
  `Tick` per pass of the loop.
- A cycle reads an `Environment`: one trace per node for negotiation, one
  visit per node per collection point, one trace per node for switch-off,
  and the clock at the start and at the end.
- The operator's emergency stop comes from the `controller` thread. It is
  modelled as `abortAt`: the number of data collections the cycle had
  started before the operator pressed ENTER, or `None` when ENTER was never
  pressed. Every check of the flag that gates a collection (lines 516 and
  537) sees the press exactly when it comes after that many collections.

Three behaviours of the code shape the cycle model:

- In the wake-up-radio scenario, finalisation overwrites each collected
  node's awake duration with `len * 23/1000` seconds (lines 631-633). This
  happens in a block marked as debugging code, and it replaces the value the
  switch-off pass stored.
- A latency is the time around the whole `collect_data_from_node` call
  (lines 540-552), not the time from the request to the reply.
- Finalisation runs only if the flag is still up after the cycle (line 746).

## Model

Every path below is relative to the repository root. All of them are in the
single file `htmlProj/arducopterweb/DroneControlServer/Scripts/Tests/MDCn_p3e1.py`.

| member | source | states |
|---|---|---|
| Geometry.CeilSqrt | htmlProj/arducopterweb/DroneControlServer/Scripts/Tests/MDCn_p3e1.py:146 | `crn = ceil(sqrt(m))` as an integer: the c with (c-1)^2 < m <= c^2 |
| Geometry.LayerDiameter | htmlProj/arducopterweb/DroneControlServer/Scripts/Tests/MDCn_p3e1.py:146-147 | The layer diameter is odd. It is 1 for the origin, and otherwise at least 3 with (d-2)^2 < n+1 <= d^2 |
| Geometry.LayerRadius | htmlProj/arducopterweb/DroneControlServer/Scripts/Tests/MDCn_p3e1.py:148 | Point 0 is on ring 0. Every other point is on a ring r >= 1 and lies among that ring's 8r indices |
| Geometry.LayerPosition | htmlProj/arducopterweb/DroneControlServer/Scripts/Tests/MDCn_p3e1.py:149 | `layer_n` is 0 only for the origin, and otherwise lies in 1 .. 8r |
| Geometry.RingsAreDisjoint | htmlProj/arducopterweb/DroneControlServer/Scripts/Tests/MDCn_p3e1.py:146-149 | No index lies on two rings |
| Geometry.RingMembership | htmlProj/arducopterweb/DroneControlServer/Scripts/Tests/MDCn_p3e1.py:146-149 | Ring r >= 1 holds exactly 8r consecutive indices, starting at (2r-1)^2 |
| Geometry.DiameterOfRing | htmlProj/arducopterweb/DroneControlServer/Scripts/Tests/MDCn_p3e1.py:146-148 | The closed-form diameter, ceil(sqrt(n+1)) rounded up to odd, equals 2r+1 for the ring r that holds n |
| Geometry.ChebyshevIsRadius | htmlProj/arducopterweb/DroneControlServer/Scripts/Tests/MDCn_p3e1.py:148-163 | Every point of ring r is at Chebyshev distance exactly r from the origin |
| Geometry.RingOffsetPlaces | htmlProj/arducopterweb/DroneControlServer/Scripts/Tests/MDCn_p3e1.py:150-163 | Each of the four edge branches puts place k of ring r on that ring, and the place can be read back from the offset |
| Geometry.AdvanceIsUnitStep | htmlProj/arducopterweb/DroneControlServer/Scripts/Tests/MDCn_p3e1.py:132 | One step of the clockwise walk moves to a neighbouring grid point: one coordinate changes, by exactly 1. The step stays on its ring or moves out to the top edge of the next ring |
| Geometry.AdvanceOnRing | htmlProj/arducopterweb/DroneControlServer/Scripts/Tests/MDCn_p3e1.py:152-163 | The walk moves place k of a ring to place k+1. The last place moves to the first place of the next ring. The edges go top left to right, right top to bottom, bottom right to left, left bottom to top |
| Geometry.SpiralAdvance | htmlProj/arducopterweb/DroneControlServer/Scripts/Tests/MDCn_p3e1.py:145-163 | Point n is one clockwise step from point n-1 |
| Geometry.SpiralIsWalk | htmlProj/arducopterweb/DroneControlServer/Scripts/Tests/MDCn_p3e1.py:132-163 | The closed-form placement equals walking the clockwise spiral one unit step at a time from the origin |
| Geometry.SpiralIndexOfOffset | htmlProj/arducopterweb/DroneControlServer/Scripts/Tests/MDCn_p3e1.py:145-163 | The spiral visits no grid point twice: reading a point's index back gives n |
| Geometry.SpiralOffsetOfIndex | htmlProj/arducopterweb/DroneControlServer/Scripts/Tests/MDCn_p3e1.py:145-163 | Every grid point is visited, at the index that reading it back gives |
| Geometry.SpiralStaysInSquare | htmlProj/arducopterweb/DroneControlServer/Scripts/Tests/MDCn_p3e1.py:138-163 | The first (2 layers + 1)^2 points lie in the square of radius `layers` |
| Geometry.SquareIsCovered | htmlProj/arducopterweb/DroneControlServer/Scripts/Tests/MDCn_p3e1.py:138-163 | Every grid point of that square is reached at an index below (2 layers + 1)^2 |
| Waypoints.GenerateSquareSpiralPath | htmlProj/arducopterweb/DroneControlServer/Scripts/Tests/MDCn_p3e1.py:133-169 | None exactly when `layers <= 0`. Otherwise there are (2 layers + 1)^2 points, point 0 is the origin, and point n is the origin moved by the spiral offset of n |
| Waypoints.SpiralPoint | htmlProj/arducopterweb/DroneControlServer/Scripts/Tests/MDCn_p3e1.py:146-163 | One pass of the placing loop puts point n at the origin plus the spiral offset of n |
| Waypoints.LoopQuantities | htmlProj/arducopterweb/DroneControlServer/Scripts/Tests/MDCn_p3e1.py:146-149 | The loop's `layer_diameter` and `layer_n` are the ring diameter and the place on the ring |
| Waypoints.PlaceMatchesSpiral | htmlProj/arducopterweb/DroneControlServer/Scripts/Tests/MDCn_p3e1.py:149-163 | Each of the four edge branches, and the `layer_n == 0` branch, computes the spiral offset. `layer_n` is 0 only for point 0 |
| Waypoints.PairCoordinates | htmlProj/arducopterweb/DroneControlServer/Scripts/Tests/MDCn_p3e1.py:165-167 | Pairing the coordinate lists keeps their length and pairs x[i] with y[i] |
| Waypoints.ScalePoint | htmlProj/arducopterweb/DroneControlServer/Scripts/Tests/MDCn_p3e1.py:174-175 | The origin stays fixed. Factor 1 is the identity, and factor 0 collapses every point onto the origin |
| Waypoints.ScaleComposes | htmlProj/arducopterweb/DroneControlServer/Scripts/Tests/MDCn_p3e1.py:171-176 | Scaling by a and then by b is scaling by a*b |
| Waypoints.ScaleInverts | htmlProj/arducopterweb/DroneControlServer/Scripts/Tests/MDCn_p3e1.py:171-176 | Scaling by a non-zero factor and then by its reciprocal gives back the point |
| Waypoints.ScaleIsInjective | htmlProj/arducopterweb/DroneControlServer/Scripts/Tests/MDCn_p3e1.py:171-176 | Scaling by a non-zero factor never maps two different points to the same point |
| Waypoints.ScaleWaypointsByFactor | htmlProj/arducopterweb/DroneControlServer/Scripts/Tests/MDCn_p3e1.py:171-176 | The length is kept and each point is scaled about the origin. Points at the origin stay there, and factor 1 returns the list unchanged |
| Packets.DefaultConfig | htmlProj/arducopterweb/DroneControlServer/Scripts/Tests/MDCn_p3e1.py:44-89 | The script's settings meet its own assertions. The node IDs are 2 .. 11 |
| Packets.ValidConfig | htmlProj/arducopterweb/DroneControlServer/Scripts/Tests/MDCn_p3e1.py:86-88 | The start-up assertions make the cycle period positive and the awake period a fraction between 0 and 1 of it |
| Packets.IntervalUs | htmlProj/arducopterweb/DroneControlServer/Scripts/Tests/MDCn_p3e1.py:88 | Under the script's assertions the retry interval exceeds 25 ms |
| Packets.DataRequest | htmlProj/arducopterweb/DroneControlServer/Scripts/Tests/MDCn_p3e1.py:230-242 | Sent from the sniffer, addressed to the node. WUS in the wake-up-radio scenario and CTS otherwise. Carries the duty-cycle periods, with zero scenario and zero ms awake |
| Packets.ScenarioRequest | htmlProj/arducopterweb/DroneControlServer/Scripts/Tests/MDCn_p3e1.py:262-271 | A SET_SCENARIO packet from the sniffer, addressed to the node. Carries the scenario and the duty-cycle periods, with zero ms awake |
| Packets.RequestsAreNotReplies | htmlProj/arducopterweb/DroneControlServer/Scripts/Tests/MDCn_p3e1.py:230-282 | A request the sniffer writes is never mistaken for the reply it waits for |
| Packets.IsReplyFrom | htmlProj/arducopterweb/DroneControlServer/Scripts/Tests/MDCn_p3e1.py:334 | A packet ends an exchange only when its type is the one expected and its source is the node asked. A packet from the sniffer never ends an exchange with another node |
| Packets.DataRequestFitsWire | htmlProj/arducopterweb/DroneControlServer/Scripts/Tests/MDCn_p3e1.py:76-84 | Under the script's assertions, a data request fits the packet's field widths exactly when the node ID fits in one byte and the cycle period fits in 16 bits |
| Packets.ScenarioRequestFitsWire | htmlProj/arducopterweb/DroneControlServer/Scripts/Tests/MDCn_p3e1.py:76-84 | Under the script's assertions, a scenario request fits the field widths exactly when the node ID and the scenario each fit in one byte and the cycle period fits in 16 bits |
| Packets.DefaultRequestsFitWire | htmlProj/arducopterweb/DroneControlServer/Scripts/Tests/MDCn_p3e1.py:44-84 | Under the script's settings every request to a one-byte node ID fits the wire format |
| Retry.Run | htmlProj/arducopterweb/DroneControlServer/Scripts/Tests/MDCn_p3e1.py:311-337 | A stopped loop stays stopped, and earlier sends are kept. A budget that is not exceeded stays not exceeded, and a reply is always an answer from the node asked |
| Retry.Due | htmlProj/arducopterweb/DroneControlServer/Scripts/Tests/MDCn_p3e1.py:318 | The first pass always attempts. A later pass attempts only once more than the retry interval has passed since the last attempt |
| Retry.Step | htmlProj/arducopterweb/DroneControlServer/Scripts/Tests/MDCn_p3e1.py:313-337 | One pass sends at most one request, at its own clock reading, exactly when it is due and the budget is not spent. A due pass with the budget spent stops the loop. An answering read becomes the reply and stops the loop. A non-answering read keeps the reply as it was. A stopped loop stays stopped, and a pass that is neither due nor answered changes nothing |
| Retry.RunSplits | htmlProj/arducopterweb/DroneControlServer/Scripts/Tests/MDCn_p3e1.py:311-337 | Running over two stretches of passes is running over the second from where the first stopped |
| Retry.AttemptsBounded | htmlProj/arducopterweb/DroneControlServer/Scripts/Tests/MDCn_p3e1.py:321-325 | The attempt counter never exceeds `max_number_of_attempts` |
| Retry.AttemptsAreSpaced | htmlProj/arducopterweb/DroneControlServer/Scripts/Tests/MDCn_p3e1.py:318-323 | Consecutive requests are strictly more than the retry interval apart |
| Retry.FirstPassSends | htmlProj/arducopterweb/DroneControlServer/Scripts/Tests/MDCn_p3e1.py:318-323 | The first pass sends, at its own clock reading |
| Retry.FailureSpendsBudget | htmlProj/arducopterweb/DroneControlServer/Scripts/Tests/MDCn_p3e1.py:318-327 | An exchange that ends without a reply has sent exactly `max_number_of_attempts` requests |
| Retry.Relevant | htmlProj/arducopterweb/DroneControlServer/Scripts/Tests/MDCn_p3e1.py:331-337 | Blanking the reads that do not answer keeps every clock reading and every answering read |
| Retry.ForeignPacketsIgnored | htmlProj/arducopterweb/DroneControlServer/Scripts/Tests/MDCn_p3e1.py:331-337 | Packets of another type or from another node have no effect on the exchange |
| Retry.SilenceGivesNoReply | htmlProj/arducopterweb/DroneControlServer/Scripts/Tests/MDCn_p3e1.py:331-337 | Without an answering packet the exchange gets no reply |
| Retry.FirstAnswerWins | htmlProj/arducopterweb/DroneControlServer/Scripts/Tests/MDCn_p3e1.py:334-337 | The first answer read while the loop runs becomes the reply and stops the loop, whatever follows |
| Retry.SilentExchangeGivesUp | htmlProj/arducopterweb/DroneControlServer/Scripts/Tests/MDCn_p3e1.py:311-327 | With no answer and a strictly increasing clock, 1 + budget * (interval + 1) passes suffice. After them the exchange has given up with the whole budget spent |
| Exchanges.ScenarioOutcome | htmlProj/arducopterweb/DroneControlServer/Scripts/Tests/MDCn_p3e1.py:346-380 | Switching off returns exactly the ack's `ms_awake` when an ack came, and exactly the `None` it started from when none came. The other scenarios return exactly `True` when the ack came and `False` otherwise. A missing ack is never a success |
| Exchanges.SetScenario | htmlProj/arducopterweb/DroneControlServer/Scripts/Tests/MDCn_p3e1.py:343-383 | The loop returns the outcome of the reply that the retry specification gives. It writes the scenario packet, under the serial active-message number 88, exactly at that specification's send times |
| Exchanges.CollectDataFromNode | htmlProj/arducopterweb/DroneControlServer/Scripts/Tests/MDCn_p3e1.py:302-340 | Success exactly when the retry specification ends with a reply. The data request is written, under the serial active-message number 88, exactly at that specification's send times |
| Exchanges.NegotiationSucceedsIffAcknowledged | htmlProj/arducopterweb/DroneControlServer/Scripts/Tests/MDCn_p3e1.py:374-380 | Setting a non-off scenario succeeds exactly when an ACK_SCENARIO from that node was read |
| Exchanges.NoControllerNoTraffic | htmlProj/arducopterweb/DroneControlServer/Scripts/Tests/MDCn_p3e1.py:352 | Without a controller nothing is written and no reply comes |
| Exchanges.CollectionTraffic | htmlProj/arducopterweb/DroneControlServer/Scripts/Tests/MDCn_p3e1.py:311-337 | A finished data exchange sent at most the budget, spaced by more than the interval, and a failed one sent exactly the budget |
| Metrics.Mean | htmlProj/arducopterweb/DroneControlServer/Scripts/Tests/MDCn_p3e1.py:616-630 | A node's mean latency is missing exactly when it has no latencies |
| Metrics.SumBounds | htmlProj/arducopterweb/DroneControlServer/Scripts/Tests/MDCn_p3e1.py:630 | A sum of values in [lo, hi] lies in [len*lo, len*hi] |
| Metrics.MeanWithinBounds | htmlProj/arducopterweb/DroneControlServer/Scripts/Tests/MDCn_p3e1.py:630 | The mean latency lies between the fastest and the slowest collection |
| Metrics.CollectedFrom | htmlProj/arducopterweb/DroneControlServer/Scripts/Tests/MDCn_p3e1.py:625-629 | `SNs_collected_from` never exceeds the number of nodes |
| Metrics.CollectedFromAll | htmlProj/arducopterweb/DroneControlServer/Scripts/Tests/MDCn_p3e1.py:625-629 | Every node counts as collected from exactly when none of the latency lists is empty |
| Metrics.CollectedFromNone | htmlProj/arducopterweb/DroneControlServer/Scripts/Tests/MDCn_p3e1.py:625-629 | No node counts exactly when every latency list is empty |
| Metrics.Reliability | htmlProj/arducopterweb/DroneControlServer/Scripts/Tests/MDCn_p3e1.py:615-639 | Missing exactly when there are no nodes. Otherwise it lies in [0, 1], is 1 exactly when all nodes were collected from, and is 0 exactly when none were |
| Metrics.CycleReliability | htmlProj/arducopterweb/DroneControlServer/Scripts/Tests/MDCn_p3e1.py:624-639 | A cycle's reliability lies in [0, 1] and is 1 exactly when every node has a latency |
| Mission.CollectionPointsDistinct | htmlProj/arducopterweb/DroneControlServer/Scripts/Tests/MDCn_p3e1.py:481-484 | For any non-zero stretch of `scale_waypoints_to_point`, the nine collection points are pairwise distinct, so no point is visited twice |
| Mission.CollectionPointsCollapse | htmlProj/arducopterweb/DroneControlServer/Scripts/Tests/MDCn_p3e1.py:481-484 | A zero stretch, an orienting point on the base station, puts every collection point on the base station |
| Mission.CollectionPoints | htmlProj/arducopterweb/DroneControlServer/Scripts/Tests/MDCn_p3e1.py:481-484 | There are nine collection points and the first is the base station |
| Mission.NegotiatedIffAcknowledged | htmlProj/arducopterweb/DroneControlServer/Scripts/Tests/MDCn_p3e1.py:489-495 | The negotiation pass leaves the flag up exactly when every node acknowledged the scenario |
| Mission.ConcatLength | htmlProj/arducopterweb/DroneControlServer/Scripts/Tests/MDCn_p3e1.py:514-537 | Points times nodes collections are planned |
| Mission.ConcatAt | htmlProj/arducopterweb/DroneControlServer/Scripts/Tests/MDCn_p3e1.py:514-537 | Collection j at point w comes right after all collections at earlier points |
| Mission.PlanOrder | htmlProj/arducopterweb/DroneControlServer/Scripts/Tests/MDCn_p3e1.py:514-543 | The cycle plans one collection per point and node, and collection w*N+j is node j at point w |
| Mission.GridOrder | htmlProj/arducopterweb/DroneControlServer/Scripts/Tests/MDCn_p3e1.py:514-543 | For any points, the plan has one collection per point and node, and collection w*N+j is node j at point w |
| Mission.Cut | htmlProj/arducopterweb/DroneControlServer/Scripts/Tests/MDCn_p3e1.py:516-537 | Collections actually started: never more than planned, none after a failed negotiation, and all of them without a stop |
| Mission.LatenciesOfAppend | htmlProj/arducopterweb/DroneControlServer/Scripts/Tests/MDCn_p3e1.py:551-554 | The latencies recorded over two runs of collections are those of the first followed by those of the second |
| Mission.LatencyRecorded | htmlProj/arducopterweb/DroneControlServer/Scripts/Tests/MDCn_p3e1.py:551-554 | A node has a latency exactly when some collection from it succeeded |
| Mission.RowLatencies | htmlProj/arducopterweb/DroneControlServer/Scripts/Tests/MDCn_p3e1.py:536-554 | At one point, node j gets a latency only from its own collection, and only once that collection has run |
| Mission.ConcatLatencies | htmlProj/arducopterweb/DroneControlServer/Scripts/Tests/MDCn_p3e1.py:514-554 | Over the whole cycle, node j's latencies are its successful collections, point by point in path order |
| Mission.UninterruptedCycle | htmlProj/arducopterweb/DroneControlServer/Scripts/Tests/MDCn_p3e1.py:514-554 | A negotiated cycle that is never stopped gives each node the latency of every successful visit to it, point by point |
| Mission.ColumnNonEmpty | htmlProj/arducopterweb/DroneControlServer/Scripts/Tests/MDCn_p3e1.py:551-554 | Node j has a latency in a column exactly when one of its collections in that column succeeded |
| Mission.GridColumn | htmlProj/arducopterweb/DroneControlServer/Scripts/Tests/MDCn_p3e1.py:536-554 | For any points, node j gains a latency exactly when one of its visits returned data |
| Mission.NodeAnswered | htmlProj/arducopterweb/DroneControlServer/Scripts/Tests/MDCn_p3e1.py:514-554 | In a negotiated cycle that is never stopped, node j gains a latency exactly when it returned data at some collection point |
| Mission.Seconds | htmlProj/arducopterweb/DroneControlServer/Scripts/Tests/MDCn_p3e1.py:552 | `total_seconds()` of a clock difference: exactly the microseconds divided by one million |
| Mission.AwakeAfter | htmlProj/arducopterweb/DroneControlServer/Scripts/Tests/MDCn_p3e1.py:631-633 | In the wake-up-radio scenario a node with latencies gets a positive estimate of 23/1000 s per latency, from which the number of latencies can be read back. Every other entry stays as it was |
| Mission.CollectionCycle.constructor | htmlProj/arducopterweb/DroneControlServer/Scripts/Tests/MDCn_p3e1.py:92-96 | Both times unset, one empty latency list and one unset awake duration per node, and the flag up |
| Mission.CollectionCycle.Abort | htmlProj/arducopterweb/DroneControlServer/Scripts/Tests/MDCn_p3e1.py:687-698 | The emergency stop clears the flag |
| Mission.CollectionCycle.ReadFlag | htmlProj/arducopterweb/DroneControlServer/Scripts/Tests/MDCn_p3e1.py:537 | Reading the flag after `started` collections sees the operator's stop exactly when it came before them. The collection invariant is kept |
| Mission.CollectionCycle.CollectOnce | htmlProj/arducopterweb/DroneControlServer/Scripts/Tests/MDCn_p3e1.py:538-554 | One collection appends its latency to the node's list exactly when it succeeded |
| Mission.CollectionCycle.CollectFromNode | htmlProj/arducopterweb/DroneControlServer/Scripts/Tests/MDCn_p3e1.py:537-554 | A guarded collection keeps the invariant. Latencies equal those of the collections started, and a cleared flag means no further collection |
| Mission.CollectionCycle.CollectAtPoint | htmlProj/arducopterweb/DroneControlServer/Scripts/Tests/MDCn_p3e1.py:516-554 | One point's node loop keeps that invariant across all nodes |
| Mission.CollectionCycle.CollectAll | htmlProj/arducopterweb/DroneControlServer/Scripts/Tests/MDCn_p3e1.py:514-556 | The waypoint loop runs exactly the planned collections up to the stop, and records the latencies of those collections |
| Mission.CollectionCycle.GenerateCollectionPoints | htmlProj/arducopterweb/DroneControlServer/Scripts/Tests/MDCn_p3e1.py:480-485 | The collection points are the one-layer spiral, stretched by the given factor about the base station and then shrunk by 1/3 |
| Mission.CollectionCycle.Negotiate | htmlProj/arducopterweb/DroneControlServer/Scripts/Tests/MDCn_p3e1.py:489-495 | After the pass, the flag is up exactly when it was up before and every node acknowledged |
| Mission.CollectionCycle.SwitchOff | htmlProj/arducopterweb/DroneControlServer/Scripts/Tests/MDCn_p3e1.py:600-602 | Every node is switched off whatever the flag. The awake durations are exactly what switching each node off returned, in node order |
| Mission.CollectionCycle.RunCollectionCycle | htmlProj/arducopterweb/DroneControlServer/Scripts/Tests/MDCn_p3e1.py:440-603 | Without controller and drone nothing changes. Otherwise both times are set, and the flag stays up exactly when negotiation succeeded and no stop came. Each node gains the latencies of the collections started, and every awake duration is the switch-off report |
| Mission.CollectionCycle.SummariseNodes | htmlProj/arducopterweb/DroneControlServer/Scripts/Tests/MDCn_p3e1.py:624-638 | Counts the nodes collected from and takes each node's mean. In the wake-up-radio scenario it estimates each collected node's awake duration |
| Mission.CollectionCycle.Finalise | htmlProj/arducopterweb/DroneControlServer/Scripts/Tests/MDCn_p3e1.py:607-639 | The duration between the two clock readings, the reliability as a fraction of nodes, each node's mean latency, and the awake-duration estimates |
| Mission.CollectionCycle.FlagUpMeansCleanCycle | htmlProj/arducopterweb/DroneControlServer/Scripts/Tests/MDCn_p3e1.py:489-537 | A flag still up after the cycle means it was up before, every node acknowledged, and no stop came before the last collection |
| Mission.CollectionCycle.CleanCycleReliability | htmlProj/arducopterweb/DroneControlServer/Scripts/Tests/MDCn_p3e1.py:624-639 | After a cycle from a fresh start that is never stopped and keeps its flag up, the reliability is 1 exactly when every node returned data at one collection point at least |
| Mission.CollectionCycle.PerformCollectionCycle | htmlProj/arducopterweb/DroneControlServer/Scripts/Tests/MDCn_p3e1.py:730-747 | Without controller and drone nothing changes and there is no report. Otherwise the cycle runs as RunCollectionCycle states. A report exists exactly when the flag is still up. It holds the duration between the two clock readings, the reliability of the latencies and each node's mean latency, and in the wake-up-radio scenario each collected node's awake duration becomes its estimate |
| Mission.CollectionCycle.FinaliseIfUp | htmlProj/arducopterweb/DroneControlServer/Scripts/Tests/MDCn_p3e1.py:745-747 | Finalisation runs exactly when the flag is up, and then reports the cycle and updates the awake durations |

## Left out

- Mission.CollectionCycle.GenerateCollectionPoints: `rotate_waypoints_to_point` is skipped, so the points are not turned towards the orienting point. It needs `atan2`, `sin` and `cos` on floating point. The factor of `scale_waypoints_to_point`, the distance from the base station to the orienting point (a `sqrt`), is the `stretch` input. The orienting point itself is read from a file and is not modelled.
- Mission.Seconds, Metrics.Sum, Metrics.Mean, Metrics.MeanWithinBounds and Metrics.Reliability: these use exact reals where the script uses Python floats. That covers `total_seconds()` (line 552), `sum / len` (line 630), `SNs_collected_from / len` (line 639) and `len * (23 / 1000)` (line 633). Float rounding is not modelled, so a float mean can fall outside [lo, hi] by an ulp where the exact mean cannot.
- Geometry and Waypoints: `math.sqrt` and `math.ceil` become the exact integer ceiling of the square root, and the coordinates are exact reals. No floating-point rounding is modelled, so the factor 1/3 is exact.
- Mission.CollectionCycle.RunCollectionCycle: all flight calls are left out: coordinates, take-off, the flights to each point and home, landing and emergency landing. Their exceptions and the fall-back to flight debug mode go with them. The base station is the `origin` input.
- Mission.CollectionCycle.RunCollectionCycle: the flag checks at lines 558, 562 and 575 only choose log messages or the kind of landing. The model reads the flag once after the waypoint loop. The end time set at line 580 is always overwritten at line 603 and is not modelled.
- Mission.CollectionCycle.RunCollectionCycle: the debug modes are left out. `debug_comm` and `debug_flight` start as false, so the guard is "controller and drone present". The exception handler around `collect_data_from_node` counts as a failed collection.
- Mission.CollectionCycle.Abort: the `controller` thread and the threads of the main menu are left out. The operator's press is the `abortAt` input: the number of collections started before the press. The same flag is shared, and a press can only clear it.
- Retry.Run: the loop runs over a finite list of passes and stops when the list ends. `SilentExchangeGivesUp` shows that a long enough list with a strictly increasing clock always ends the exchange.
- Clocks are integer microseconds, as `datetime` gives them. "More than `milliseconds_between_attempts` / 1000 seconds" becomes "more than 1000 times that many microseconds".
- `receive_serial_packet`, `initialise_serial_port`, `initialise_active_message_controller`, `initialise_comm` and `initialise_collection_cycle` are left out, along with the binary packet encoding of the radio library. These are serial I/O. A read is an optional packet, and a missing controller is a boolean input.
- Exchanges.SetScenario and Exchanges.CollectDataFromNode: write failures, which the script only prints, are not modelled. `verbose` output and all other printing are left out.
- The JSON append at the end of `finalise_collection_cycle` (lines 642-684) is file I/O and is left out. So are `get_coordinates`, `save_orienting_coordinates` and `load_orienting_coordinates`.
- Menu options 1 to 3 of the script's entry point are left out. They are manual tests of the radio and the GPS.
- Mission.CollectionCycle.Finalise: the duration check `if start and end` is kept. The check `success and start and end` at line 551 reduces to `success`, because a `datetime` is always true.
- Mission.CollectionCycle.Finalise: the units of an awake duration differ between its two sources: milliseconds from the switch-off reply, seconds from the estimate. They are kept as two kinds of `AwakeEntry` rather than mixed.

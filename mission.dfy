// The collection cycle of the mission script: the module-level state it
// keeps between run_collection_cycle and finalise_collection_cycle, the
// cycle itself with its three passes over the sensor nodes, and the
// operator's emergency stop.

module Mission {
  import opened Wrappers
  import opened Geometry
  import opened Waypoints
  import opened Packets
  import opened Retry
  import opened Exchanges
  import opened Metrics

  /** The collection points form a square spiral of this many layers around the base station. */
  const CollectionLayers: nat := 1

  /** The number of collection points: every place of that spiral. */
  const CollectionPointCount: nat := Square(2 * CollectionLayers + 1)

  /** The factor that pulls the spiral in towards the base station. */
  const ShrinkFactor: real := 1.0 / 3.0

  /** The estimated wake-up cost of one collection, in seconds (23 / 1000). */
  const WakeUpCostSeconds: real := 0.023

  /** What one exchange sees: the clock read as it starts, and one tick per pass of its loop. */
  datatype Trace = Trace(startUs: int, ticks: seq<Tick>)

  /** One collection from one node: the clock read before it, its exchange, and the clock read after it. */
  datatype Visit = Visit(beforeUs: int, exchange: Trace, afterUs: int)

  /**
   * Everything a cycle reads from its clock and its radio: the clock read at
   * the start, one trace per node for the negotiation, one row of visits per
   * collection point (one visit per node), one trace per node for switching
   * the nodes off, and the clock read at the end.
   */
  datatype Environment = Environment(
    cycleStartUs: int,
    negotiation: seq<Trace>,
    collection: seq<seq<Visit>>,
    switchOff: seq<Trace>,
    cycleEndUs: int)

  /** The environment has an entry for every exchange a cycle over this many nodes can start. */
  predicate Fits(env: Environment, nodes: nat) {
    && |env.negotiation| == nodes
    && |env.switchOff| == nodes
    && |env.collection| == CollectionPointCount
    && forall w :: 0 <= w < |env.collection| ==> |env.collection[w]| == nodes
  }

  /** An entry of awake_durations: not yet known, reported by the node when switched off, or estimated from its latencies. */
  datatype AwakeEntry = Unset | Reported(output: ScenarioOutput) | Estimated(seconds: real)

  /** A collection the cycle performs: where, from which node (its index in the node list), whether data came back, and how long it took. */
  datatype Collection = Collection(point: Waypoint, index: nat, success: bool, latency: real)

  /** What finalise_collection_cycle computes: the cycle's duration, its reliability and each node's mean latency. */
  datatype Report = Report(duration: Option<real>, reliability: Option<real>, meanLatencies: seq<Option<real>>)

  /** total_seconds() of a difference of two clock readings: it converts back to the same number of microseconds. */
  function Seconds(us: int): (s: real)
    ensures s * 1000000.0 == us as real
    ensures 0 <= us ==> 0.0 <= s
  {
    us as real / 1000000.0
  }

  /**
   * The collection points: the one-layer spiral around the base station,
   * stretched by the distance to the orienting point and then pulled in to a
   * third of its size.
   */
  function CollectionPoints(origin: Waypoint, stretch: real): (points: seq<Waypoint>)
    ensures |points| == CollectionPointCount
    ensures points[0] == origin
  {
    seq(CollectionPointCount, n requires 0 <= n < CollectionPointCount =>
      ScalePoint(ScalePoint(Translate(origin, SpiralOffset(n)), stretch, origin), ShrinkFactor, origin))
  }

  /** With a non-zero stretch the collection points are pairwise distinct: no place is visited twice. */
  lemma CollectionPointsDistinct(origin: Waypoint, stretch: real, i: nat, k: nat)
    requires stretch != 0.0 && i < k < CollectionPointCount
    ensures CollectionPoints(origin, stretch)[i] != CollectionPoints(origin, stretch)[k]
  {
    var points := CollectionPoints(origin, stretch);
    if points[i] == points[k] {
      var a, b := Translate(origin, SpiralOffset(i)), Translate(origin, SpiralOffset(k));
      ScaleIsInjective(ScalePoint(a, stretch, origin), ScalePoint(b, stretch, origin), ShrinkFactor, origin);
      ScaleIsInjective(a, b, stretch, origin);
      assert SpiralOffset(i) == SpiralOffset(k);
      SpiralIndexOfOffset(i);
      SpiralIndexOfOffset(k);
      assert false;
    }
  }

  /**
   * With a zero stretch (the orienting point is the base station itself) every
   * collection point is the base station.
   */
  lemma CollectionPointsCollapse(origin: Waypoint, n: nat)
    requires n < CollectionPointCount
    ensures CollectionPoints(origin, 0.0)[n] == origin
  {
    assert ScalePoint(Translate(origin, SpiralOffset(n)), 0.0, origin) == origin;
  }

  /** The scenario the nodes are negotiated into: wake-up radio or duty cycling. */
  function NegotiationScenario(cfg: Config): int {
    if cfg.scenarioWuR then ScenarioWuR else ScenarioDc
  }

  /** What set_scenario returns when negotiating node into the configured scenario. */
  function NegotiationOutcome(cfg: Config, node: int, t: Trace): ScenarioOutput {
    ScenarioOutcome(NegotiationScenario(cfg), Session(ScenarioExchange(cfg, node), true, t.startUs, t.ticks).reply)
  }

  /** Every node accepted the scenario. */
  predicate Negotiated(cfg: Config, negotiation: seq<Trace>)
    requires |negotiation| <= |cfg.snIds|
  {
    forall j :: 0 <= j < |negotiation| ==> Truthy(NegotiationOutcome(cfg, cfg.snIds[j], negotiation[j]))
  }

  /** The negotiation succeeds exactly when every node's acknowledgement was read. */
  lemma NegotiatedIffAcknowledged(cfg: Config, negotiation: seq<Trace>)
    requires |negotiation| <= |cfg.snIds|
    ensures Negotiated(cfg, negotiation) <==>
      forall j :: 0 <= j < |negotiation| ==>
        var r := Session(ScenarioExchange(cfg, cfg.snIds[j]), true, negotiation[j].startUs, negotiation[j].ticks).reply;
        r.Some? && IsReplyFrom(r.value, AckScenarioPacket, cfg.snIds[j])
  {
    forall j | 0 <= j < |negotiation|
      ensures Truthy(NegotiationOutcome(cfg, cfg.snIds[j], negotiation[j])) <==>
        var r := Session(ScenarioExchange(cfg, cfg.snIds[j]), true, negotiation[j].startUs, negotiation[j].ticks).reply;
        r.Some? && IsReplyFrom(r.value, AckScenarioPacket, cfg.snIds[j])
    {
      NegotiationSucceedsIffAcknowledged(cfg, true, cfg.snIds[j], NegotiationScenario(cfg), negotiation[j].startUs, negotiation[j].ticks);
    }
  }

  /** What set_scenario returns when switching node off. */
  function SwitchOffOutcome(cfg: Config, node: int, t: Trace): ScenarioOutput {
    ScenarioOutcome(ScenarioOff, Session(ScenarioExchange(cfg, node), true, t.startUs, t.ticks).reply)
  }

  /** The awake-duration entries the switch-off pass stores: each node's reply to being switched off. */
  function SwitchOffReports(cfg: Config, switchOff: seq<Trace>): seq<AwakeEntry>
    requires |switchOff| <= |cfg.snIds|
  {
    seq(|switchOff|, j requires 0 <= j < |switchOff| => Reported(SwitchOffOutcome(cfg, cfg.snIds[j], switchOff[j])))
  }

  /** collect_data_from_node returned True. */
  predicate Collected(cfg: Config, node: int, t: Trace) {
    Session(DataExchange(cfg, node), true, t.startUs, t.ticks).reply.Some?
  }

  /** The collection from the j-th node at point. */
  function Outcome(cfg: Config, point: Waypoint, j: nat, v: Visit): Collection
    requires j < |cfg.snIds|
  {
    Collection(point, j, Collected(cfg, cfg.snIds[j], v.exchange), Seconds(v.afterUs - v.beforeUs))
  }

  /** The collections planned at one point: every node, in list order. */
  function RowOf(cfg: Config, point: Waypoint, row: seq<Visit>): seq<Collection>
    requires |row| <= |cfg.snIds|
  {
    seq(|row|, j requires 0 <= j < |row| => Outcome(cfg, point, j, row[j]))
  }

  /** There is a point for every row of visits, and a visit for every node in each row. */
  predicate Rows(cfg: Config, points: seq<Waypoint>, rows: seq<seq<Visit>>) {
    |rows| <= |points| && forall w :: 0 <= w < |rows| ==> |rows[w]| == |cfg.snIds|
  }

  /** The collections planned at each point, point by point. */
  function Grid(cfg: Config, points: seq<Waypoint>, rows: seq<seq<Visit>>): seq<seq<Collection>>
    requires Rows(cfg, points, rows)
  {
    seq(|rows|, w requires 0 <= w < |rows| => RowOf(cfg, points[w], rows[w]))
  }

  /** The rows of a grid, one after the other. */
  function Concat(grid: seq<seq<Collection>>): seq<Collection> {
    if |grid| == 0 then [] else Concat(grid[..|grid| - 1]) + grid[|grid| - 1]
  }

  /** Every collection a cycle plans, in the order it would perform them. */
  function Plan(cfg: Config, env: Environment, origin: Waypoint, stretch: real): seq<Collection>
    requires Fits(env, |cfg.snIds|)
  {
    Concat(Grid(cfg, CollectionPoints(origin, stretch), env.collection))
  }

  /** Each row holds one collection per node, in node order. */
  predicate NodeOrdered(grid: seq<seq<Collection>>, nodes: nat) {
    forall w :: 0 <= w < |grid| ==> |grid[w]| == nodes && forall k :: 0 <= k < nodes ==> grid[w][k].index == k
  }

  /** A grid of rows of n collections concatenates to |grid| * n collections. */
  lemma {:induction false} ConcatLength(grid: seq<seq<Collection>>, n: nat)
    requires forall w :: 0 <= w < |grid| ==> |grid[w]| == n
    ensures |Concat(grid)| == |grid| * n
  {
    if |grid| > 0 {
      var init := grid[..|grid| - 1];
      ConcatLength(init, n);
      assert (|grid| - 1) * n + n == |grid| * n;
    }
  }

  /** The rows before w come first in the concatenation. */
  lemma {:induction false} ConcatPrefix(grid: seq<seq<Collection>>, w: nat)
    requires w <= |grid|
    ensures |Concat(grid[..w])| <= |Concat(grid)|
    ensures Concat(grid)[..|Concat(grid[..w])|] == Concat(grid[..w])
    decreases |grid|
  {
    if w < |grid| {
      var init := grid[..|grid| - 1];
      ConcatPrefix(init, w);
      assert init[..w] == grid[..w];
      var a := Concat(init);
      assert Concat(grid)[..|a|] == a;
    } else {
      assert grid[..w] == grid;
    }
  }

  /** The j-th collection of row w comes right after the rows before w, j places in. */
  lemma ConcatAt(grid: seq<seq<Collection>>, w: nat, j: nat)
    requires w < |grid| && j < |grid[w]|
    ensures |Concat(grid[..w])| + |grid[w]| <= |Concat(grid)|
    ensures Concat(grid)[|Concat(grid[..w])| + j] == grid[w][j]
  {
    ConcatPrefix(grid, w + 1);
    assert grid[..w + 1][..w] == grid[..w];
    assert Concat(grid[..w + 1]) == Concat(grid[..w]) + grid[w];
    ConcatPrefixAt(Concat(grid), Concat(grid[..w]), grid[w], j);
  }

  /** Row w follows the rows before it, within the whole concatenation. */
  lemma RowPlaced(grid: seq<seq<Collection>>, w: nat)
    requires w < |grid|
    ensures |Concat(grid[..w + 1])| == |Concat(grid[..w])| + |grid[w]| <= |Concat(grid)|
  {
    ConcatPrefix(grid, w + 1);
    assert grid[..w + 1][..w] == grid[..w];
  }

  /** When before + row opens all, the j-th element of row sits |before| + j into all. */
  lemma ConcatPrefixAt(all: seq<Collection>, before: seq<Collection>, row: seq<Collection>, j: nat)
    requires |before| + |row| <= |all| && all[..|before| + |row|] == before + row && j < |row|
    ensures all[|before| + j] == row[j]
  {
    assert all[..|before| + |row|][|before| + j] == (before + row)[|before| + j];
  }

  /**
   * The cycle visits every node at every point, point by point: the plan has
   * one collection per point and node, and the j-th node's collection at the
   * w-th point comes w * nodes + j places in.
   */
  lemma PlanOrder(cfg: Config, env: Environment, origin: Waypoint, stretch: real, w: nat, j: nat)
    requires Fits(env, |cfg.snIds|) && w < CollectionPointCount && j < |cfg.snIds|
    ensures var plan := Plan(cfg, env, origin, stretch);
      && |plan| == CollectionPointCount * |cfg.snIds|
      && w * |cfg.snIds| + j < |plan|
      && plan[w * |cfg.snIds| + j] == Outcome(cfg, CollectionPoints(origin, stretch)[w], j, env.collection[w][j])
  {
    GridOrder(cfg, CollectionPoints(origin, stretch), env.collection, w, j);
  }

  /** PlanOrder for any points: collection w * nodes + j of the grid is node j at point w. */
  lemma GridOrder(cfg: Config, points: seq<Waypoint>, rows: seq<seq<Visit>>, w: nat, j: nat)
    requires Rows(cfg, points, rows) && w < |rows| && j < |cfg.snIds|
    ensures var all := Concat(Grid(cfg, points, rows));
      && |all| == |rows| * |cfg.snIds|
      && w * |cfg.snIds| + j < |all|
      && all[w * |cfg.snIds| + j] == Outcome(cfg, points[w], j, rows[w][j])
  {
    var grid := Grid(cfg, points, rows);
    ConcatLength(grid, |cfg.snIds|);
    RowStart(grid, w, |cfg.snIds|);
    IndexInGrid(w, j, |rows|, |cfg.snIds|);
    ConcatAt(grid, w, j);
  }

  /** Row w of a grid of rows of n collections starts w * n places into the concatenation. */
  lemma RowStart(grid: seq<seq<Collection>>, w: nat, n: nat)
    requires w <= |grid| && forall v :: 0 <= v < |grid| ==> |grid[v]| == n
    ensures |Concat(grid[..w])| == w * n
  {
    ConcatLength(grid[..w], n);
  }

  /** Place j of row w lies within a grid of m rows of n places. */
  lemma {:induction false} IndexInGrid(w: nat, j: nat, m: nat, n: nat)
    requires w < m && j < n
    ensures w * n + j < m * n
    decreases m
  {
    if w + 1 < m {
      IndexInGrid(w, j, m - 1, n);
    }
    assert m * n == (m - 1) * n + n;
  }

  /**
   * How many of the planned collections a cycle performs: none unless the
   * flag still allows it after the negotiation (ready), and otherwise all of
   * them up to the operator's emergency stop.
   */
  function Cut(ready: bool, abortAt: Option<nat>, planned: nat): (c: nat)
    ensures c <= planned
    ensures !ready ==> c == 0
    ensures ready && abortAt.None? ==> c == planned
  {
    if !ready then 0 else if abortAt.Some? && abortAt.value < planned then abortAt.value else planned
  }

  /** The latency a collection contributes to its node's list: one if data came back, none otherwise. */
  function Own(c: Collection): seq<real> {
    if c.success then [c.latency] else []
  }

  /** The latencies the collections append to the j-th node's list: those of its successful collections, in order. */
  function LatenciesOf(cs: seq<Collection>, j: nat): seq<real> {
    if |cs| == 0 then []
    else LatenciesOf(cs[..|cs| - 1], j) + (if cs[|cs| - 1].index == j then Own(cs[|cs| - 1]) else [])
  }

  /** One more collection appends its latency to its own node's list and to no other. */
  lemma LatenciesOfSnoc(cs: seq<Collection>, k: nat)
    requires k < |cs|
    ensures forall j :: (LatenciesOf(cs[..k + 1], j) ==
      LatenciesOf(cs[..k], j) + (if cs[k].index == j then Own(cs[k]) else []))
  {
    assert cs[..k + 1][..k] == cs[..k];
  }

  /** Appending the k-th collection's latency to its node's list keeps the lists in step with the first k + 1 collections. */
  lemma AppendLatency(latencies: seq<seq<real>>, before: seq<seq<real>>, cs: seq<Collection>, k: nat, j: nat)
    requires |latencies| == |before| && k < |cs| && cs[k].index == j < |latencies|
    requires forall i :: 0 <= i < |before| ==> latencies[i] == before[i] + LatenciesOf(cs[..k], i)
    ensures forall i :: 0 <= i < |before| ==>
      latencies[j := latencies[j] + Own(cs[k])][i] == before[i] + LatenciesOf(cs[..k + 1], i)
  {
    LatenciesOfSnoc(cs, k);
  }

  /** The latencies of two runs of collections, one after the other, are those of the first followed by those of the second. */
  lemma {:induction false} LatenciesOfAppend(a: seq<Collection>, b: seq<Collection>, j: nat)
    ensures LatenciesOf(a + b, j) == LatenciesOf(a, j) + LatenciesOf(b, j)
  {
    if |b| > 0 {
      var b' := b[..|b| - 1];
      LatenciesOfAppend(a, b', j);
      assert (a + b)[..|a + b| - 1] == a + b';
      assert (a + b)[|a + b| - 1] == b[|b| - 1];
      assert b[..|b| - 1] == b';
      var last := if b[|b| - 1].index == j then Own(b[|b| - 1]) else [];
      assert LatenciesOf(a + b, j) == (LatenciesOf(a, j) + LatenciesOf(b', j)) + last;
      assert LatenciesOf(b, j) == LatenciesOf(b', j) + last;
    } else {
      assert a + b == a;
    }
  }

  /** A node gains a latency exactly when one of its collections succeeded. */
  lemma {:induction false} LatencyRecorded(cs: seq<Collection>, j: nat)
    ensures |LatenciesOf(cs, j)| > 0 <==> exists k :: 0 <= k < |cs| && cs[k].success && cs[k].index == j
  {
    if |cs| > 0 {
      var init := cs[..|cs| - 1];
      LatencyRecorded(init, j);
      if exists k :: 0 <= k < |init| && init[k].success && init[k].index == j {
        var k :| 0 <= k < |init| && init[k].success && init[k].index == j;
        assert cs[k] == init[k];
      }
      if exists k :: 0 <= k < |cs| && cs[k].success && cs[k].index == j {
        var k :| 0 <= k < |cs| && cs[k].success && cs[k].index == j;
        if k < |init| {
          assert init[k] == cs[k];
        }
      }
    }
  }

  /** Node j's column of a grid: the latencies of its successful collections, point by point. */
  function Column(grid: seq<seq<Collection>>, j: nat): seq<real>
    requires forall w :: 0 <= w < |grid| ==> j < |grid[w]|
  {
    if |grid| == 0 then [] else Column(grid[..|grid| - 1], j) + Own(grid[|grid| - 1][j])
  }

  /** Within one point's collections, only the j-th node's own collection counts for node j. */
  lemma {:induction false} RowLatencies(row: seq<Collection>, j: nat, k: nat)
    requires j < |row| && k <= |row|
    requires forall i :: 0 <= i < |row| ==> row[i].index == i
    ensures LatenciesOf(row[..k], j) == if k <= j then [] else Own(row[j])
  {
    if k > 0 {
      RowLatencies(row, j, k - 1);
      LatenciesOfSnoc(row, k - 1);
    }
  }

  /** Over a grid in node order, node j's latencies are exactly its column. */
  lemma {:induction false} ConcatLatencies(grid: seq<seq<Collection>>, nodes: nat, j: nat)
    requires NodeOrdered(grid, nodes) && j < nodes
    ensures LatenciesOf(Concat(grid), j) == Column(grid, j)
  {
    if |grid| > 0 {
      var init := grid[..|grid| - 1];
      var row := grid[|grid| - 1];
      assert forall w :: 0 <= w < |init| ==> init[w] == grid[w];
      ConcatLatencies(init, nodes, j);
      LatenciesOfAppend(Concat(init), row, j);
      RowLatencies(row, j, |row|);
      assert row[..|row|] == row;
    }
  }

  /**
   * A cycle whose negotiation succeeded and that was never stopped gives each
   * node, point by point, the latency of every successful visit to it.
   */
  lemma UninterruptedCycle(cfg: Config, env: Environment, origin: Waypoint, stretch: real, j: nat)
    requires Fits(env, |cfg.snIds|) && j < |cfg.snIds|
    ensures var plan := Plan(cfg, env, origin, stretch);
      LatenciesOf(plan[..Cut(true, None, |plan|)], j) == Column(Grid(cfg, CollectionPoints(origin, stretch), env.collection), j)
  {
    var plan := Plan(cfg, env, origin, stretch);
    var grid := Grid(cfg, CollectionPoints(origin, stretch), env.collection);
    assert plan[..|plan|] == plan;
    assert NodeOrdered(grid, |cfg.snIds|);
    ConcatLatencies(grid, |cfg.snIds|, j);
  }

  /** Node j's column is non-empty exactly when one of its collections succeeded. */
  lemma {:induction false} ColumnNonEmpty(grid: seq<seq<Collection>>, j: nat)
    requires forall w :: 0 <= w < |grid| ==> j < |grid[w]|
    ensures |Column(grid, j)| > 0 <==> exists w :: 0 <= w < |grid| && grid[w][j].success
  {
    if |grid| > 0 {
      var init := grid[..|grid| - 1];
      ColumnNonEmpty(init, j);
      assert forall w :: 0 <= w < |init| ==> init[w] == grid[w];
    }
  }

  /** In an uninterrupted cycle, node j gains a latency exactly when it returned data at some collection point. */
  lemma NodeAnswered(cfg: Config, env: Environment, origin: Waypoint, stretch: real, j: nat)
    requires Fits(env, |cfg.snIds|) && j < |cfg.snIds|
    ensures var plan := Plan(cfg, env, origin, stretch);
      |LatenciesOf(plan[..Cut(true, None, |plan|)], j)| > 0 <==>
        exists w :: 0 <= w < CollectionPointCount && Collected(cfg, cfg.snIds[j], env.collection[w][j].exchange)
  {
    UninterruptedCycle(cfg, env, origin, stretch, j);
    GridColumn(cfg, CollectionPoints(origin, stretch), env.collection, j);
  }

  /** For any points, node j's column is non-empty exactly when one of its visits returned data. */
  lemma GridColumn(cfg: Config, points: seq<Waypoint>, rows: seq<seq<Visit>>, j: nat)
    requires Rows(cfg, points, rows) && j < |cfg.snIds|
    ensures |Column(Grid(cfg, points, rows), j)| > 0 <==>
      exists w :: 0 <= w < |rows| && Collected(cfg, cfg.snIds[j], rows[w][j].exchange)
  {
    var grid := Grid(cfg, points, rows);
    ColumnNonEmpty(grid, j);
    assert forall w :: 0 <= w < |grid| ==> grid[w][j].success == Collected(cfg, cfg.snIds[j], rows[w][j].exchange);
  }

  /**
   * A node's awake duration after finalisation: in the wake-up-radio
   * scenario a node with latencies is estimated to have been awake
   * WakeUpCostSeconds per collection; otherwise its entry stays.
   */
  function AwakeAfter(cfg: Config, nodeLatencies: seq<real>, previous: AwakeEntry): (entry: AwakeEntry)
    ensures !(cfg.scenarioWuR && |nodeLatencies| > 0) ==> entry == previous
    ensures cfg.scenarioWuR && |nodeLatencies| > 0 ==>
      entry.Estimated? && 0.0 < entry.seconds && entry.seconds / WakeUpCostSeconds == |nodeLatencies| as real
  {
    if cfg.scenarioWuR && |nodeLatencies| > 0 then Estimated(|nodeLatencies| as real * WakeUpCostSeconds) else previous
  }

  /**
   * The module-level state of the mission script: the cycle's start and end
   * times, each node's latencies and awake duration, and the flag that lets
   * the drone go on to the next waypoint (cleared by a failed negotiation or
   * by the operator).
   */
  class CollectionCycle {
    const cfg: Config
    var startUs: Option<int>
    var endUs: Option<int>
    var latencies: seq<seq<real>>
    var awakeDurations: seq<AwakeEntry>
    var goToNextWaypoint: bool

    /** One latency list and one awake duration per node. */
    ghost predicate Valid()
      reads this
    {
      |latencies| == |cfg.snIds| && |awakeDurations| == |cfg.snIds|
    }

    /** The module's variables as they are when the script starts. */
    constructor (config: Config)
      ensures Valid() && cfg == config
      ensures startUs.None? && endUs.None? && goToNextWaypoint
      ensures forall j :: 0 <= j < |latencies| ==> latencies[j] == []
      ensures forall j :: 0 <= j < |awakeDurations| ==> awakeDurations[j] == Unset
    {
      cfg := config;
      startUs, endUs := None, None;
      latencies := seq(|config.snIds|, _ => []);
      awakeDurations := seq(|config.snIds|, _ => Unset);
      goToNextWaypoint := true;
    }

    /** The controller thread, once the operator presses ENTER. */
    method Abort()
      modifies this`goToNextWaypoint
      ensures !goToNextWaypoint
    {
      goToNextWaypoint := false;
    }

    /**
     * How far the collections have got: started of the planned collections
     * are done, and the latencies hold theirs. While the flag is up the cycle
     * is at position pos of the plan; once it is down, started is final.
     */
    ghost predicate Progress(plan: seq<Collection>, ready: bool, abortAt: Option<nat>, started: nat, pos: nat, before: seq<seq<real>>)
      reads this
    {
      && |latencies| == |before|
      && started <= Cut(ready, abortAt, |plan|)
      && (goToNextWaypoint ==> ready && started == pos)
      && (!goToNextWaypoint ==> started == Cut(ready, abortAt, |plan|) && (!ready || (abortAt.Some? && abortAt.value <= started)))
      && forall j :: 0 <= j < |before| ==> latencies[j] == before[j] + LatenciesOf(plan[..started], j)
    }

    /**
     * A read of go_to_next_waypoint, with started collections done. If the
     * operator pressed ENTER before the collection numbered abortAt began, the
     * controller has cleared the flag by now.
     */
    method ReadFlag(abortAt: Option<nat>, started: nat,
                    ghost plan: seq<Collection>, ghost ready: bool, ghost pos: nat, ghost before: seq<seq<real>>)
      returns (go: bool)
      requires Progress(plan, ready, abortAt, started, pos, before) && pos <= |plan|
      modifies this`goToNextWaypoint
      ensures go == goToNextWaypoint
      ensures goToNextWaypoint == (old(goToNextWaypoint) && !(abortAt.Some? && abortAt.value <= started))
      ensures Progress(plan, ready, abortAt, started, pos, before)
    {
      if abortAt.Some? && abortAt.value <= started {
        Abort();
      }
      go := goToNextWaypoint;
    }

    /** The body of the inner loop of run_collection_cycle: collect from the j-th node at point, if the flag allows it. */
    method CollectFromNode(point: Waypoint, j: nat, v: Visit, abortAt: Option<nat>, started: nat,
                           ghost plan: seq<Collection>, ghost ready: bool, ghost pos: nat, ghost before: seq<seq<real>>)
      returns (next: nat)
      requires j < |cfg.snIds| == |before| && pos < |plan| && plan[pos] == Outcome(cfg, point, j, v)
      requires Progress(plan, ready, abortAt, started, pos, before)
      modifies this`latencies, this`goToNextWaypoint
      ensures Progress(plan, ready, abortAt, next, pos + 1, before)
    {
      next := started;
      var go := ReadFlag(abortAt, started, plan, ready, pos, before);
      if go {
        next := CollectOnce(point, j, v, started, plan, ready, abortAt, before);
      }
    }

    /** A collection the flag allowed: ask the j-th node for data and, if it came, append the latency to the node's list. */
    method CollectOnce(point: Waypoint, j: nat, v: Visit, started: nat,
                       ghost plan: seq<Collection>, ghost ready: bool, ghost abortAt: Option<nat>, ghost before: seq<seq<real>>)
      returns (next: nat)
      requires j < |cfg.snIds| == |before| && started < |plan| && plan[started] == Outcome(cfg, point, j, v)
      requires Progress(plan, ready, abortAt, started, started, before) && goToNextWaypoint
      requires abortAt.None? || started < abortAt.value
      modifies this`latencies
      ensures next == started + 1
      ensures Progress(plan, ready, abortAt, next, next, before)
    {
      var success, _ := CollectDataFromNode(cfg, true, cfg.snIds[j], v.exchange.startUs, v.exchange.ticks);
      ghost var previous := latencies;
      assert Own(plan[started]) == if success then [Seconds(v.afterUs - v.beforeUs)] else [];
      if success {
        latencies := latencies[j := latencies[j] + [Seconds(v.afterUs - v.beforeUs)]];
      } else {
        assert previous[j] + [] == previous[j];
      }
      AppendLatency(previous, before, plan, started, j);
      next := started + 1;
    }

    /** One pass of the outer loop of run_collection_cycle: at point, collect from every node in turn. */
    method CollectAtPoint(point: Waypoint, row: seq<Visit>, abortAt: Option<nat>, started: nat,
                          ghost plan: seq<Collection>, ghost ready: bool, ghost pos: nat, ghost before: seq<seq<real>>)
      returns (next: nat)
      requires |row| == |cfg.snIds| == |before| && pos + |row| <= |plan|
      requires forall j :: 0 <= j < |row| ==> plan[pos + j] == Outcome(cfg, point, j, row[j])
      requires Progress(plan, ready, abortAt, started, pos, before)
      modifies this`latencies, this`goToNextWaypoint
      ensures Progress(plan, ready, abortAt, next, pos + |row|, before)
    {
      next := started;
      var go := ReadFlag(abortAt, started, plan, ready, pos, before);
      if go {
        for j := 0 to |row|
          invariant Progress(plan, ready, abortAt, next, pos + j, before)
        {
          next := CollectFromNode(point, j, row[j], abortAt, next, plan, ready, pos + j, before);
        }
      }
    }

    /** The collection loop of run_collection_cycle, over every point. */
    method CollectAll(points: seq<Waypoint>, rows: seq<seq<Visit>>, abortAt: Option<nat>,
                      ghost ready: bool, ghost before: seq<seq<real>>)
      returns (started: nat)
      requires Rows(cfg, points, rows) && |before| == |cfg.snIds|
      requires Progress(Concat(Grid(cfg, points, rows)), ready, abortAt, 0, 0, before)
      modifies this`latencies, this`goToNextWaypoint
      ensures Progress(Concat(Grid(cfg, points, rows)), ready, abortAt, started, |Concat(Grid(cfg, points, rows))|, before)
    {
      ghost var grid := Grid(cfg, points, rows);
      ghost var plan := Concat(grid);
      started := 0;
      ghost var pos := 0;
      for w := 0 to |rows|
        invariant pos == |Concat(grid[..w])|
        invariant Progress(plan, ready, abortAt, started, pos, before)
      {
        RowPlaced(grid, w);
        forall j | 0 <= j < |rows[w]|
          ensures plan[pos + j] == Outcome(cfg, points[w], j, rows[w][j])
        {
          ConcatAt(grid, w, j);
        }
        started := CollectAtPoint(points[w], rows[w], abortAt, started, plan, ready, pos, before);
        pos := pos + |rows[w]|;
      }
      assert grid[..|rows|] == grid;
    }

    /**
     * The collection points of run_collection_cycle: the one-layer spiral
     * around origin, stretched by the distance to the orienting point, then
     * shrunk to a third.
     */
    method GenerateCollectionPoints(origin: Waypoint, stretch: real) returns (points: seq<Waypoint>)
      ensures points == CollectionPoints(origin, stretch)
    {
      var path := GenerateSquareSpiralPath(CollectionLayers, origin);
      var stretched := ScaleWaypointsByFactor(path.value, stretch, origin);
      points := ScaleWaypointsByFactor(stretched, ShrinkFactor, origin);
    }

    /** The negotiation pass: ask every node to enter the scenario; any refusal clears the flag. */
    method Negotiate(negotiation: seq<Trace>)
      requires |negotiation| == |cfg.snIds|
      modifies this`goToNextWaypoint
      ensures goToNextWaypoint == (old(goToNextWaypoint) && Negotiated(cfg, negotiation))
    {
      for j := 0 to |cfg.snIds|
        invariant goToNextWaypoint == (old(goToNextWaypoint) && Negotiated(cfg, negotiation[..j]))
      {
        var t := negotiation[j];
        var success, _ := SetScenario(cfg, true, cfg.snIds[j], NegotiationScenario(cfg), t.startUs, t.ticks);
        if !Truthy(success) {
          goToNextWaypoint := false;
        }
        assert negotiation[..j + 1][j] == t;
      }
      assert negotiation[..|cfg.snIds|] == negotiation;
    }

    /** The switch-off pass: every node is switched off and its reply stored as its awake duration. */
    method SwitchOff(switchOff: seq<Trace>)
      requires |switchOff| == |cfg.snIds| == |awakeDurations|
      modifies this`awakeDurations
      ensures awakeDurations == SwitchOffReports(cfg, switchOff)
    {
      for j := 0 to |cfg.snIds|
        invariant |awakeDurations| == |cfg.snIds|
        invariant forall k :: 0 <= k < j ==> awakeDurations[k] == Reported(SwitchOffOutcome(cfg, cfg.snIds[k], switchOff[k]))
      {
        var output, _ := SetScenario(cfg, true, cfg.snIds[j], ScenarioOff, switchOff[j].startUs, switchOff[j].ticks);
        awakeDurations := awakeDurations[j := Reported(output)];
      }
      assert awakeDurations == SwitchOffReports(cfg, switchOff);
    }

    /**
     * The clock readings, flag and latency lists run_collection_cycle leaves
     * behind, given the flag flag0 and the latency lists before0 it started
     * from: both clock readings taken; the flag still up exactly when the
     * negotiation succeeded and no stop came before the last check; and each
     * node's list extended by the latencies of the collections started, in the
     * order they were performed.
     */
    ghost predicate Ran(origin: Waypoint, stretch: real, env: Environment, abortAt: Option<nat>, flag0: bool, before0: seq<seq<real>>)
      reads this`startUs, this`endUs, this`latencies, this`goToNextWaypoint
    {
      && Fits(env, |cfg.snIds|)
      && |before0| == |latencies| == |cfg.snIds|
      && var plan := Plan(cfg, env, origin, stretch);
         var ready := flag0 && Negotiated(cfg, env.negotiation);
         && startUs == Some(env.cycleStartUs)
         && endUs == Some(env.cycleEndUs)
         && goToNextWaypoint == (ready && (abortAt.None? || abortAt.value > |plan|))
         && forall j :: 0 <= j < |cfg.snIds| ==>
              latencies[j] == before0[j] + LatenciesOf(plan[..Cut(ready, abortAt, |plan|)], j)
    }

    /**
     * run_collection_cycle: without both an active-message controller and a
     * drone nothing happens. Otherwise the cycle starts its clock, negotiates
     * the scenario with every node, collects from every node at every
     * collection point for as long as the flag allows, reads the flag once
     * more to decide how to land, switches every node off and stops its clock.
     */
    method RunCollectionCycle(controllerOk: bool, droneOk: bool, origin: Waypoint, stretch: real, env: Environment, abortAt: Option<nat>)
      requires Valid() && Fits(env, |cfg.snIds|)
      modifies this
      ensures Valid()
      ensures !(controllerOk && droneOk) ==> unchanged(this)
      ensures controllerOk && droneOk ==>
        && Ran(origin, stretch, env, abortAt, old(goToNextWaypoint), old(latencies))
        && awakeDurations == SwitchOffReports(cfg, env.switchOff)
    {
      if controllerOk && droneOk {
        var points := GenerateCollectionPoints(origin, stretch);
        startUs := Some(env.cycleStartUs);
        Negotiate(env.negotiation);
        ghost var ready := goToNextWaypoint;
        ghost var before := latencies;
        ghost var plan := Plan(cfg, env, origin, stretch);
        var started := CollectAll(points, env.collection, abortAt, ready, before);
        var _ := ReadFlag(abortAt, started, plan, ready, |plan|, before);
        SwitchOff(env.switchOff);
        endUs := Some(env.cycleEndUs);
      }
    }

    /**
     * finalise_collection_cycle, up to writing the entry: the duration when
     * both clock readings exist; each node's mean latency; the reliability;
     * and, in the wake-up-radio scenario, each collected node's awake
     * duration estimated from its number of latencies.
     */
    method Finalise() returns (report: Report)
      requires Valid()
      modifies this`awakeDurations
      ensures Valid()
      ensures report.duration == (if startUs.Some? && endUs.Some? then Some(Seconds(endUs.value - startUs.value)) else None)
      ensures report.reliability == Reliability(CollectedFrom(latencies), |cfg.snIds|)
      ensures |report.meanLatencies| == |latencies|
      ensures forall i :: 0 <= i < |latencies| ==> report.meanLatencies[i] == Mean(latencies[i])
      ensures forall i :: 0 <= i < |latencies| ==> awakeDurations[i] == AwakeAfter(cfg, latencies[i], old(awakeDurations[i]))
    {
      var duration := None;
      if startUs.Some? && endUs.Some? {
        duration := Some(Seconds(endUs.value - startUs.value));
      }
      var reliability := None;
      var means: seq<Option<real>> := [];
      if |cfg.snIds| > 0 {
        var collected;
        collected, means := SummariseNodes();
        reliability := Some(collected as real / |cfg.snIds| as real);
      }
      report := Report(duration, reliability, means);
    }

    /** The loop of finalise_collection_cycle over the nodes' latency lists. */
    method SummariseNodes() returns (collected: nat, means: seq<Option<real>>)
      requires Valid()
      modifies this`awakeDurations
      ensures Valid()
      ensures collected == CollectedFrom(latencies)
      ensures |means| == |latencies|
      ensures forall i :: 0 <= i < |latencies| ==> means[i] == Mean(latencies[i])
      ensures forall i :: 0 <= i < |latencies| ==> awakeDurations[i] == AwakeAfter(cfg, latencies[i], old(awakeDurations[i]))
    {
      collected := 0;
      means := seq(|latencies|, _ => None);
      for i := 0 to |latencies|
        invariant |means| == |latencies| == |awakeDurations|
        invariant collected == CollectedFrom(latencies[..i])
        invariant forall k :: 0 <= k < i ==> means[k] == Mean(latencies[k])
        invariant forall k :: i <= k < |latencies| ==> means[k] == None
        invariant forall k :: 0 <= k < i ==> awakeDurations[k] == AwakeAfter(cfg, latencies[k], old(awakeDurations[k]))
        invariant forall k :: i <= k < |awakeDurations| ==> awakeDurations[k] == old(awakeDurations[k])
      {
        var nodeLatencies := latencies[i];
        if |nodeLatencies| > 0 {
          collected := collected + 1;
          means := means[i := Some(Sum(nodeLatencies) / |nodeLatencies| as real)];
          if cfg.scenarioWuR {
            awakeDurations := awakeDurations[i := Estimated(|nodeLatencies| as real * WakeUpCostSeconds)];
          }
        }
        assert latencies[..i + 1][..i] == latencies[..i];
      }
      assert latencies[..|latencies|] == latencies;
    }

    /** A cycle whose flag is still up after it ran negotiated every node and was never stopped. */
    lemma FlagUpMeansCleanCycle(origin: Waypoint, stretch: real, env: Environment, abortAt: Option<nat>, flag0: bool, before0: seq<seq<real>>)
      requires Ran(origin, stretch, env, abortAt, flag0, before0) && goToNextWaypoint
      ensures flag0 && Negotiated(cfg, env.negotiation)
      ensures abortAt.None? || abortAt.value > |Plan(cfg, env, origin, stretch)|
    {
    }

    /**
     * The partner of finalisation's reliability: after a cycle that started
     * from the empty latency lists of a fresh script, negotiated with every
     * node and was never stopped, the reliability is 1 exactly when every
     * node returned data at one of the collection points at least.
     */
    lemma CleanCycleReliability(origin: Waypoint, stretch: real, env: Environment, flag0: bool, before0: seq<seq<real>>)
      requires Ran(origin, stretch, env, None, flag0, before0) && goToNextWaypoint && |cfg.snIds| > 0
      requires forall j :: 0 <= j < |before0| ==> before0[j] == []
      ensures Reliability(CollectedFrom(latencies), |cfg.snIds|) == Some(1.0) <==>
        forall j :: 0 <= j < |cfg.snIds| ==>
          exists w :: 0 <= w < CollectionPointCount && Collected(cfg, cfg.snIds[j], env.collection[w][j].exchange)
    {
      CycleReliability(latencies);
      forall j | 0 <= j < |cfg.snIds|
        ensures |latencies[j]| > 0 <==>
          exists w :: 0 <= w < CollectionPointCount && Collected(cfg, cfg.snIds[j], env.collection[w][j].exchange)
      {
        NodeAnswered(cfg, env, origin, stretch, j);
      }
    }

    /**
     * What finalisation leaves behind, from the awake durations awake0 it
     * found: a report exactly when the flag is up, holding the duration
     * between the two clock readings, the reliability and each node's mean
     * latency; and, when a report was made, the awake-duration estimates of
     * AwakeAfter in place of awake0.
     */
    ghost predicate Finalised(report: Option<Report>, awake0: seq<AwakeEntry>)
      reads this
    {
      && |awake0| == |latencies| == |awakeDurations|
      && (report.Some? <==> goToNextWaypoint)
      && (report.Some? ==>
            && report.value.duration == (if startUs.Some? && endUs.Some? then Some(Seconds(endUs.value - startUs.value)) else None)
            && report.value.reliability == Reliability(CollectedFrom(latencies), |cfg.snIds|)
            && |report.value.meanLatencies| == |latencies|
            && forall i :: 0 <= i < |latencies| ==> report.value.meanLatencies[i] == Mean(latencies[i]))
      && forall i :: 0 <= i < |latencies| ==>
           awakeDurations[i] == if report.Some? then AwakeAfter(cfg, latencies[i], awake0[i]) else awake0[i]
    }

    /**
     * Option 4 of the script's menu: run a cycle and, only if the flag is
     * still up afterwards, finalise it. A report therefore exists only for a
     * cycle in which every node accepted the scenario and the operator did not
     * stop the drone.
     */
    method PerformCollectionCycle(controllerOk: bool, droneOk: bool, origin: Waypoint, stretch: real, env: Environment, abortAt: Option<nat>)
      returns (report: Option<Report>)
      requires Valid() && Fits(env, |cfg.snIds|)
      modifies this
      ensures Valid()
      ensures !(controllerOk && droneOk) ==> unchanged(this) && report.None?
      ensures controllerOk && droneOk ==>
        && Ran(origin, stretch, env, abortAt, old(goToNextWaypoint), old(latencies))
        && Finalised(report, SwitchOffReports(cfg, env.switchOff))
    {
      report := None;
      if controllerOk && droneOk {
        RunCollectionCycle(controllerOk, droneOk, origin, stretch, env, abortAt);
        report := FinaliseIfUp();
      }
    }

    /** The tail of option 4: finalise the cycle only while the flag is still up. */
    method FinaliseIfUp() returns (report: Option<Report>)
      requires Valid()
      modifies this`awakeDurations
      ensures Valid()
      ensures Finalised(report, old(awakeDurations))
    {
      report := None;
      if goToNextWaypoint {
        var r := Finalise();
        report := Some(r);
      }
    }
  }
}

// set_scenario and collect_data_from_node: the sniffer's two request/reply
// exchanges, written as the loops they are and proved equal to the retry-loop
// specification of module Retry.

module Exchanges {
  import opened Wrappers
  import opened Packets
  import opened Retry

  /**
   * What set_scenario returns: nothing when switching a node off failed, the
   * node's reported milliseconds awake when switching off succeeded, and a
   * success flag for the other scenarios.
   */
  datatype ScenarioOutput = NoAck | MsAwake(ms: int) | Flag(ok: bool)

  /** How the caller tests the result of set_scenario: a missing result, a zero count and False are all false. */
  predicate Truthy(o: ScenarioOutput) {
    match o
    case NoAck => false
    case MsAwake(ms) => ms != 0
    case Flag(ok) => ok
  }

  /** A packet handed to the serial line, when, and under which active-message number. */
  datatype Write = Write(atUs: int, amId: int, packet: Packet)

  /** The writes are the packet p, written under the serial active-message number once at each of the given times and at no other time. */
  predicate WrittenAt(writes: seq<Write>, times: seq<int>, p: Packet) {
    |writes| == |times| && forall k :: 0 <= k < |writes| ==> writes[k] == Write(times[k], SerialAmControl, p)
  }

  function ScenarioExchange(cfg: Config, node: int): Exchange {
    Exchange(AckScenarioPacket, node, cfg.maxAttempts, IntervalUs(cfg))
  }

  function DataExchange(cfg: Config, node: int): Exchange {
    Exchange(DataPacket, node, cfg.maxAttempts, IntervalUs(cfg))
  }

  /** The whole exchange: no pass at all runs without an active-message controller. */
  function Session(e: Exchange, controllerOk: bool, startUs: int, ticks: seq<Tick>): Attempt {
    if controllerOk then Run(e, Start(startUs), ticks) else Start(startUs)
  }

  /** The value set_scenario starts from, and returns when no acknowledgement arrives. */
  function NoAckOutput(scenario: int): ScenarioOutput {
    if scenario == ScenarioOff then NoAck else Flag(false)
  }

  /** The result of set_scenario given the reply, if any, that ended its loop. */
  function ScenarioOutcome(scenario: int, reply: Option<Packet>): (o: ScenarioOutput)
    ensures reply.None? ==> !Truthy(o)
    ensures scenario != ScenarioOff ==> (Truthy(o) <==> reply.Some?)
    ensures scenario == ScenarioOff ==> (o.MsAwake? <==> reply.Some?)
    ensures scenario == ScenarioOff && reply.Some? ==> o.ms == reply.value.msAwake
    ensures scenario == ScenarioOff && reply.None? ==> o == NoAck
    ensures scenario != ScenarioOff ==> o == Flag(reply.Some?)
  {
    if reply.None? then NoAckOutput(scenario)
    else if scenario == ScenarioOff then MsAwake(reply.value.msAwake)
    else Flag(true)
  }

  /**
   * set_scenario: repeatedly writes the scenario packet to node until it
   * acknowledges or the attempt budget is spent. One element of ticks is
   * consumed per pass of the loop; startUs is the clock read before the loop.
   */
  method SetScenario(cfg: Config, controllerOk: bool, node: int, scenario: int, startUs: int, ticks: seq<Tick>)
    returns (output: ScenarioOutput, writes: seq<Write>)
    ensures var r := Session(ScenarioExchange(cfg, node), controllerOk, startUs, ticks);
      output == ScenarioOutcome(scenario, r.reply) &&
      WrittenAt(writes, r.sendTimes, ScenarioRequest(cfg, node, scenario))
  {
    var e := ScenarioExchange(cfg, node);
    var request := ScenarioRequest(cfg, node, scenario);
    output := NoAckOutput(scenario);
    writes := [];
    var attemptCounter := 0;
    var loop := true;
    var attemptStartUs := startUs;
    ghost var s := Start(startUs);
    var i := 0;
    while loop && controllerOk && i < |ticks|
      invariant 0 <= i <= |ticks|
      invariant controllerOk ==> Run(e, Start(startUs), ticks) == Run(e, s, ticks[i..])
      invariant !controllerOk ==> s == Start(startUs)
      invariant s.looping == loop && s.lastSendUs == attemptStartUs && |s.sendTimes| == attemptCounter
      invariant output == ScenarioOutcome(scenario, s.reply)
      invariant WrittenAt(writes, s.sendTimes, request)
    {
      var currentUs := ticks[i].nowUs;
      var sinceLastAttemptUs := currentUs - attemptStartUs;
      if attemptCounter < 1 || sinceLastAttemptUs > IntervalUs(cfg) {
        attemptStartUs := currentUs;
        if attemptCounter < cfg.maxAttempts {
          attemptCounter := attemptCounter + 1;
          writes := writes + [Write(currentUs, SerialAmControl, request)];
        } else {
          loop := false;
        }
      }
      var received := ticks[i].read;
      if received.Some? && received.value.packetType == AckScenarioPacket && received.value.source == node {
        if scenario == ScenarioOff {
          output := MsAwake(received.value.msAwake);
        } else {
          output := Flag(true);
        }
        loop := false;
      }
      RunConsumesPass(e, s, ticks, i);
      s := Step(e, s, ticks[i]);
      i := i + 1;
    }
    if controllerOk {
      RunAtEnd(e, s, ticks, i);
    }
  }

  /**
   * collect_data_from_node: repeatedly asks node for a data packet (a wake-up
   * sequence or a clear-to-send, as configured) until one arrives or the
   * attempt budget is spent; success tells whether one arrived.
   */
  method CollectDataFromNode(cfg: Config, controllerOk: bool, node: int, startUs: int, ticks: seq<Tick>)
    returns (success: bool, writes: seq<Write>)
    ensures var r := Session(DataExchange(cfg, node), controllerOk, startUs, ticks);
      (success <==> r.reply.Some?) &&
      WrittenAt(writes, r.sendTimes, DataRequest(cfg, node))
  {
    var e := DataExchange(cfg, node);
    var request := DataRequest(cfg, node);
    success := false;
    writes := [];
    var attemptCounter := 0;
    var loop := true;
    var attemptStartUs := startUs;
    ghost var s := Start(startUs);
    var i := 0;
    while loop && controllerOk && i < |ticks|
      invariant 0 <= i <= |ticks|
      invariant controllerOk ==> Run(e, Start(startUs), ticks) == Run(e, s, ticks[i..])
      invariant !controllerOk ==> s == Start(startUs)
      invariant s.looping == loop && s.lastSendUs == attemptStartUs && |s.sendTimes| == attemptCounter
      invariant success <==> s.reply.Some?
      invariant WrittenAt(writes, s.sendTimes, request)
    {
      var currentUs := ticks[i].nowUs;
      var sinceLastAttemptUs := currentUs - attemptStartUs;
      if attemptCounter < 1 || sinceLastAttemptUs > IntervalUs(cfg) {
        attemptStartUs := currentUs;
        if attemptCounter < cfg.maxAttempts {
          attemptCounter := attemptCounter + 1;
          writes := writes + [Write(currentUs, SerialAmControl, request)];
        } else {
          loop := false;
        }
      }
      var received := ticks[i].read;
      if received.Some? && received.value.packetType == DataPacket && received.value.source == node {
        success := true;
        loop := false;
      }
      RunConsumesPass(e, s, ticks, i);
      s := Step(e, s, ticks[i]);
      i := i + 1;
    }
    if controllerOk {
      RunAtEnd(e, s, ticks, i);
    }
  }

  /**
   * Negotiating a node into the wake-up-radio or duty-cycle scenario counts as
   * a success exactly when that node's acknowledgement was read, and then
   * nothing was written after it arrived.
   */
  lemma NegotiationSucceedsIffAcknowledged(cfg: Config, controllerOk: bool, node: int, scenario: int, startUs: int, ticks: seq<Tick>)
    requires scenario != ScenarioOff
    ensures var r := Session(ScenarioExchange(cfg, node), controllerOk, startUs, ticks);
      Truthy(ScenarioOutcome(scenario, r.reply)) <==>
        r.reply.Some? && IsReplyFrom(r.reply.value, AckScenarioPacket, node)
  {
  }

  /** Without a controller nothing is written and the exchange reports failure. */
  lemma NoControllerNoTraffic(e: Exchange, startUs: int, ticks: seq<Tick>)
    ensures Session(e, false, startUs, ticks).sendTimes == []
    ensures Session(e, false, startUs, ticks).reply.None?
  {
  }

  /**
   * A data exchange that fails has written the data request exactly
   * maxAttempts times, and (if it ever wrote twice) more than the retry
   * interval apart; one that succeeds has written it at most maxAttempts times.
   */
  lemma CollectionTraffic(cfg: Config, node: int, startUs: int, ticks: seq<Tick>)
    requires var r := Run(DataExchange(cfg, node), Start(startUs), ticks); !r.looping
    ensures var r := Run(DataExchange(cfg, node), Start(startUs), ticks);
      (r.reply.None? ==> |r.sendTimes| == cfg.maxAttempts) &&
      |r.sendTimes| <= cfg.maxAttempts &&
      Spaced(r.sendTimes, IntervalUs(cfg))
  {
    var e := DataExchange(cfg, node);
    AttemptsAreSpaced(e, startUs, ticks);
    if Run(e, Start(startUs), ticks).reply.None? {
      FailureSpendsBudget(e, startUs, ticks);
    }
  }
}

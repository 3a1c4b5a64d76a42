// Serial active-message packets exchanged between the mobile data collector's
// sniffer mote and the sensor nodes, the control constants of the experiment,
// and the two request builders.

module Packets {

  // Node identifiers.
  const MdcSniffer := 0
  /** The smallest shortened identifier a deployed sensor node may have. */
  const FirstSensorNode := 2

  // Packet types.
  const SetScenarioPacket := 5
  const AckScenarioPacket := 6
  const CtsPacket := 7
  const WusPacket := 8
  const DataPacket := 9

  // Scenario types.
  const ScenarioOff := 15
  const ScenarioWuR := 16
  const ScenarioDc := 17

  /** The active-message number every request is written to the serial line under. */
  const SerialAmControl := 88

  /** The seven fields of a serial active-message packet, in wire order. */
  datatype Packet = Packet(
    source: int,
    packetType: int,
    wus: int,
    scenarioType: int,
    cyclePeriod: int,
    awakePeriod: int,
    msAwake: int)

  /** Unsigned field widths of the wire format: four single bytes, two 16-bit words, one 32-bit word. */
  predicate FitsWire(p: Packet) {
    0 <= p.source < 0x100 && 0 <= p.packetType < 0x100 && 0 <= p.wus < 0x100 && 0 <= p.scenarioType < 0x100 &&
    0 <= p.cyclePeriod < 0x1_0000 && 0 <= p.awakePeriod < 0x1_0000 && 0 <= p.msAwake < 0x1_0000_0000
  }

  /** The control constants of one experiment run. */
  datatype Config = Config(
    snIds: seq<int>,
    maxAttempts: nat,
    msBetweenAttempts: int,
    scenarioWuR: bool,
    dcCyclePeriodMs: int,
    dcAwakePeriodMs: int)

  /**
   * The start-up assertions on the control constants (the altitude one belongs
   * to flight, which is not modelled): they make the duty cycle a fraction
   * of a non-empty period.
   */
  predicate ValidConfig(cfg: Config): (valid: bool)
    ensures valid ==> cfg.dcCyclePeriodMs > 0 && 0.0 <= cfg.dcAwakePeriodMs as real / cfg.dcCyclePeriodMs as real <= 1.0
  {
    50 <= cfg.dcCyclePeriodMs &&
    0 <= cfg.dcAwakePeriodMs <= cfg.dcCyclePeriodMs &&
    25 < cfg.msBetweenAttempts
  }

  /** The constants as shipped: ten sensor nodes 2..11, 20 attempts 50 ms apart, wake-up-radio scenario, 100/1000 ms duty cycle. */
  function DefaultConfig(): (cfg: Config)
    ensures ValidConfig(cfg)
    ensures |cfg.snIds| == 10 && forall i :: 0 <= i < 10 ==> cfg.snIds[i] == i + FirstSensorNode
  {
    Config([2, 3, 4, 5, 6, 7, 8, 9, 10, 11], 20, 50, true, 1000, 100)
  }

  /** The retry interval in microseconds, the resolution of the clock the exchanges read. */
  function IntervalUs(cfg: Config): (us: int)
    ensures ValidConfig(cfg) ==> us > 25_000
  {
    cfg.msBetweenAttempts * 1000
  }

  /** The packet type the sniffer sends to ask a node for data in the configured scenario. */
  function RequestType(cfg: Config): int {
    if cfg.scenarioWuR then WusPacket else CtsPacket
  }

  /** send_request_for_data_packet: the packet written to the sniffer to obtain one data packet from node. */
  function DataRequest(cfg: Config, node: int): (p: Packet)
    ensures p.source == MdcSniffer && p.wus == node
    ensures p.packetType == (if cfg.scenarioWuR then WusPacket else CtsPacket)
    ensures p.scenarioType == 0 && p.msAwake == 0
    ensures p.cyclePeriod == cfg.dcCyclePeriodMs && p.awakePeriod == cfg.dcAwakePeriodMs
  {
    Packet(MdcSniffer, RequestType(cfg), node, 0, cfg.dcCyclePeriodMs, cfg.dcAwakePeriodMs, 0)
  }

  /** send_scenario_packet: the packet written to the sniffer to make node adopt scenario. */
  function ScenarioRequest(cfg: Config, node: int, scenario: int): (p: Packet)
    ensures p.source == MdcSniffer && p.wus == node
    ensures p.packetType == SetScenarioPacket && p.scenarioType == scenario && p.msAwake == 0
    ensures p.cyclePeriod == cfg.dcCyclePeriodMs && p.awakePeriod == cfg.dcAwakePeriodMs
  {
    Packet(MdcSniffer, SetScenarioPacket, node, scenario, cfg.dcCyclePeriodMs, cfg.dcAwakePeriodMs, 0)
  }

  /**
   * A received packet finishes an exchange when it has the expected type and
   * comes from the node asked; a packet the sniffer sent never finishes an
   * exchange with another node.
   */
  predicate IsReplyFrom(p: Packet, expectedType: int, node: int): (reply: bool)
    ensures p.source == MdcSniffer && node != MdcSniffer ==> !reply
  {
    p.packetType == expectedType && p.source == node
  }

  /** A request echoed back on the serial line never finishes its own exchange, whatever the node. */
  lemma RequestsAreNotReplies(cfg: Config, node: int, scenario: int, asked: int)
    ensures !IsReplyFrom(ScenarioRequest(cfg, node, scenario), AckScenarioPacket, asked)
    ensures !IsReplyFrom(DataRequest(cfg, node), DataPacket, asked)
  {
  }

  /** A data request is representable on the wire exactly when its node and duty-cycle settings fit their fields. */
  lemma DataRequestFitsWire(cfg: Config, node: int)
    requires ValidConfig(cfg)
    ensures FitsWire(DataRequest(cfg, node)) <==>
      0 <= node < 0x100 && cfg.dcCyclePeriodMs < 0x1_0000
  {
  }

  /** A scenario request is representable on the wire exactly when its node, scenario and duty-cycle settings fit. */
  lemma ScenarioRequestFitsWire(cfg: Config, node: int, scenario: int)
    requires ValidConfig(cfg)
    ensures FitsWire(ScenarioRequest(cfg, node, scenario)) <==>
      0 <= node < 0x100 && 0 <= scenario < 0x100 && cfg.dcCyclePeriodMs < 0x1_0000
  {
  }

  /** With the shipped constants every request of the experiment fits the wire format. */
  lemma DefaultRequestsFitWire(node: int, scenario: int)
    requires FirstSensorNode <= node < 0x100
    requires scenario == ScenarioOff || scenario == ScenarioWuR || scenario == ScenarioDc
    ensures FitsWire(DataRequest(DefaultConfig(), node))
    ensures FitsWire(ScenarioRequest(DefaultConfig(), node, scenario))
  {
    ScenarioRequestFitsWire(DefaultConfig(), node, scenario);
    DataRequestFitsWire(DefaultConfig(), node);
  }
}

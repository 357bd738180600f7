/**
 * The OpenFlow 1.3 objects the TableVisor stages read and build. The Java
 * code takes them from a generated library; only the fields the stages touch
 * are kept. Message categories follow the OpenFlow Switch Specification 1.3
 * (section 7, "The OpenFlow Protocol").
 */
module OpenFlow {
  import opened Wrappers

  /** The message types of the OpenFlow 1.3 header (section 7.1). */
  datatype MsgType =
    | HELLO | ERROR | ECHO_REQUEST | ECHO_REPLY | EXPERIMENTER
    | FEATURES_REQUEST | FEATURES_REPLY
    | GET_CONFIG_REQUEST | GET_CONFIG_REPLY | SET_CONFIG
    | PACKET_IN | FLOW_REMOVED | PORT_STATUS
    | PACKET_OUT | FLOW_MOD | GROUP_MOD | PORT_MOD | TABLE_MOD
    | STATS_REQUEST | STATS_REPLY
    | BARRIER_REQUEST | BARRIER_REPLY
    | QUEUE_GET_CONFIG_REQUEST | QUEUE_GET_CONFIG_REPLY
    | ROLE_REQUEST | ROLE_REPLY
    | GET_ASYNC_REQUEST | GET_ASYNC_REPLY | SET_ASYNC
    | METER_MOD

  /** The multipart (statistics) types of section 7.3.5. */
  datatype StatsType =
    | DESC | FLOW | AGGREGATE | TABLE | PORT | QUEUE
    | GROUP | GROUP_DESC | GROUP_FEATURES
    | METER | METER_CONFIG | METER_FEATURES
    | TABLE_FEATURES | PORT_DESC | EXPERIMENTER_STATS

  /** Flags of a multipart reply; REPLY_MORE says more parts follow (section 7.3.5). */
  datatype StatsReplyFlag = REPLY_MORE

  datatype FlowModCommand = ADD | MODIFY | MODIFY_STRICT | DELETE | DELETE_STRICT

  /** OFPP_CONTROLLER, the reserved port that sends to the controller (section 7.2.1). */
  const CONTROLLER_PORT: int := 0xffff_fffd
  /** OFPTT_ALL, the reserved table id meaning "all tables" (section 7.3.4). */
  const ALL_TABLES: int := 0xff
  /** OFP_NO_BUFFER (section 7.3.4.2). */
  const NO_BUFFER: int := 0xffff_ffff
  /** The name the library gives the ingress-port match field. */
  const IN_PORT: string := "in_port"

  /** An action of an APPLY_ACTIONS instruction. */
  datatype Action =
    | Output(port: int)
    | PopMpls(ethertype: int)
    | SetField(field: string, value: int)
    | OtherAction(kind: string)

  datatype Instruction =
    | GotoTable(tableId: int)
    | ApplyActions(actions: seq<Action>)
    | OtherInstruction(kind: string)

  /** One field of a match: exact when there is no mask. */
  datatype MatchEntry = MatchEntry(field: string, value: int, mask: Option<int>)
  {
    predicate IsExact() { mask.None? }
  }

  /** A match lists its fields in the order the library reports them. */
  type Match = seq<MatchEntry>

  datatype FlowStatsEntry = FlowStatsEntry(
    tableId: int, priority: int, cookie: int, flowMatch: Match, instructions: seq<Instruction>)

  datatype TableStatsEntry = TableStatsEntry(tableId: int, activeCount: int, lookupCount: int, matchedCount: int)

  /** A port description (section 7.2.1); `hwAddr` is the 48-bit Ethernet address as a number. */
  datatype PortDesc = PortDesc(portNo: int, name: string, hwAddr: int, currSpeed: int, maxSpeed: int)

  /** Entries that the stages only copy from one reply into another. */
  datatype PortStatsEntry = PortStatsEntry(portNo: int, rxPackets: int, txPackets: int)
  datatype GroupStatsEntry = GroupStatsEntry(groupId: int, refCount: int)
  datatype GroupDescEntry = GroupDescEntry(groupId: int, groupType: int)
  datatype MeterStats = MeterStats(meterId: int, flowCount: int)

  datatype GroupFeatures = GroupFeatures(
    types: int, capabilities: set<int>,
    maxGroupsAll: int, maxGroupsSelect: int, maxGroupsIndirect: int, maxGroupsFf: int,
    actionsAll: int, actionsSelect: int, actionsIndirect: int, actionsFf: int)

  /**
   * The meter features of section 7.3.5.14; the band-type and capability
   * bitmaps are held as the sets of their set bit positions.
   */
  datatype MeterFeatures = MeterFeatures(maxMeter: int, bandTypes: set<nat>, capabilities: set<nat>, maxBands: int, maxColor: int)

  /** The body of a multipart reply, one alternative per statistics type. */
  datatype StatsBody =
    | DescBody(hwDesc: string, swDesc: string, mfrDesc: string)
    | FlowBody(flowEntries: seq<FlowStatsEntry>)
    | TableBody(tableEntries: seq<TableStatsEntry>)
    | PortBody(portEntries: seq<PortStatsEntry>)
    | GroupBody(groupEntries: seq<GroupStatsEntry>)
    | GroupDescBody(groupDescEntries: seq<GroupDescEntry>)
    | GroupFeaturesBody(groupFeatures: GroupFeatures)
    | MeterBody(meterEntries: seq<MeterStats>)
    | MeterFeaturesBody(meterFeatures: MeterFeatures)
    | PortDescBody(portDescs: seq<PortDesc>)
    | OtherBody(otherType: StatsType)

  function BodyType(b: StatsBody): StatsType
  {
    match b
    case DescBody(_, _, _) => DESC
    case FlowBody(_) => FLOW
    case TableBody(_) => TABLE
    case PortBody(_) => PORT
    case GroupBody(_) => GROUP
    case GroupDescBody(_) => GROUP_DESC
    case GroupFeaturesBody(_) => GROUP_FEATURES
    case MeterBody(_) => METER
    case MeterFeaturesBody(_) => METER_FEATURES
    case PortDescBody(_) => PORT_DESC
    case OtherBody(t) => t
  }

  datatype ControllerRole = ROLE_NOCHANGE | ROLE_EQUAL | ROLE_MASTER | ROLE_SLAVE

  /** An OpenFlow message; `Other` stands for every type whose body no stage reads. */
  datatype OFMessage =
    | FeaturesReply(xid: int, datapathId: int, nBuffers: int, nTables: int,
                    auxiliaryId: int, capabilities: set<int>, reserved: int)
    | GetConfigReply(xid: int, configFlags: set<int>, missSendLen: int)
    | StatsRequest(xid: int, requestType: StatsType, requestTable: int)
    | StatsReply(xid: int, replyFlags: set<StatsReplyFlag>, body: StatsBody)
    | FlowMod(xid: int, command: FlowModCommand, cookie: int, cookieMask: int, tableId: int,
              idleTimeout: int, hardTimeout: int, priority: int, bufferId: int,
              flowFlags: set<int>, flowMatch: Match, instructions: seq<Instruction>)
    | FlowRemoved(xid: int, tableId: int, cookie: int, priority: int)
    | PacketIn(xid: int, tableId: int, bufferId: int, payload: seq<int>)
    | TableMod(xid: int, tableId: int, tableConfig: int)
    | RoleReply(xid: int, role: ControllerRole)
    | BarrierReply(xid: int)
    | Other(otherType: MsgType, xid: int)

  /** The header type of a message, as the library's getType() reports it. */
  function TypeOf(m: OFMessage): MsgType
  {
    match m
    case FeaturesReply(_, _, _, _, _, _, _) => FEATURES_REPLY
    case GetConfigReply(_, _, _) => GET_CONFIG_REPLY
    case StatsRequest(_, _, _) => STATS_REQUEST
    case StatsReply(_, _, _) => STATS_REPLY
    case FlowMod(_, _, _, _, _, _, _, _, _, _, _, _) => FLOW_MOD
    case FlowRemoved(_, _, _, _) => FLOW_REMOVED
    case PacketIn(_, _, _, _) => PACKET_IN
    case TableMod(_, _, _) => TABLE_MOD
    case RoleReply(_, _) => ROLE_REPLY
    case BarrierReply(_) => BARRIER_REPLY
    case Other(t, _) => t
  }

  /** The name Java's enum toString() gives a message type. */
  function TypeName(t: MsgType): string
  {
    match t
    case HELLO => "HELLO"
    case ERROR => "ERROR"
    case ECHO_REQUEST => "ECHO_REQUEST"
    case ECHO_REPLY => "ECHO_REPLY"
    case EXPERIMENTER => "EXPERIMENTER"
    case FEATURES_REQUEST => "FEATURES_REQUEST"
    case FEATURES_REPLY => "FEATURES_REPLY"
    case GET_CONFIG_REQUEST => "GET_CONFIG_REQUEST"
    case GET_CONFIG_REPLY => "GET_CONFIG_REPLY"
    case SET_CONFIG => "SET_CONFIG"
    case PACKET_IN => "PACKET_IN"
    case FLOW_REMOVED => "FLOW_REMOVED"
    case PORT_STATUS => "PORT_STATUS"
    case PACKET_OUT => "PACKET_OUT"
    case FLOW_MOD => "FLOW_MOD"
    case GROUP_MOD => "GROUP_MOD"
    case PORT_MOD => "PORT_MOD"
    case TABLE_MOD => "TABLE_MOD"
    case STATS_REQUEST => "STATS_REQUEST"
    case STATS_REPLY => "STATS_REPLY"
    case BARRIER_REQUEST => "BARRIER_REQUEST"
    case BARRIER_REPLY => "BARRIER_REPLY"
    case QUEUE_GET_CONFIG_REQUEST => "QUEUE_GET_CONFIG_REQUEST"
    case QUEUE_GET_CONFIG_REPLY => "QUEUE_GET_CONFIG_REPLY"
    case ROLE_REQUEST => "ROLE_REQUEST"
    case ROLE_REPLY => "ROLE_REPLY"
    case GET_ASYNC_REQUEST => "GET_ASYNC_REQUEST"
    case GET_ASYNC_REPLY => "GET_ASYNC_REPLY"
    case SET_ASYNC => "SET_ASYNC"
    case METER_MOD => "METER_MOD"
  }

  /** Returns the message with its table id replaced, as `createBuilder().setTableId(t).build()` does. */
  function WithTableId(m: OFMessage, t: int): OFMessage
    requires m.FlowMod? || m.FlowRemoved? || m.PacketIn? || m.TableMod?
  {
    m.(tableId := t)
  }
}

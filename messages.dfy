/**
 * TVMessage: the envelope every stage passes around. It tags its content with
 * a protocol (OpenFlow, P4 command line, or a parse error) and carries the
 * dataplane id of the device it comes from or goes to (-1 when unset).
 *
 * TVMessage.java as it stands has no members for the P4 command line, the
 * original request, the CLI reply or the overridable message type, though
 * the stages call `getCmdLine`, `getOriginalRequest`, `getReply`,
 * `getThisMsgType` and `setThisMsgType` and two P4 constructors. The model
 * keeps those as plain fields that the P4 constructors fill in; for a
 * message built around an OpenFlow message, `thisMsgType` starts as that
 * message's type.
 */
module Messages {
  import opened Wrappers
  import opened OpenFlow

  datatype Protocol = OPENFLOW | P4_NETRONOME | ERROR

  /** The name `toString` gives a protocol constant. */
  function ProtocolName(p: Protocol): string
  {
    match p
    case OPENFLOW => "OPENFLOW"
    case P4_NETRONOME => "P4_NETRONOME"
    case ERROR => "ERROR"
  }

  /** The message of the IllegalStateException that `setOFMessage` throws. */
  function NotOpenFlowMessage(p: Protocol): string
  {
    "This TVMessage object does not represent an OFMessage; protocol=" + ProtocolName(p)
  }

  /** The content of a message at one moment: what a stage hands to its neighbour. */
  datatype MsgView = MsgView(
    protocol: Protocol,
    ofMessage: Option<OFMessage>,
    dataplaneId: int,
    errorMsg: string,
    thisMsgType: Option<MsgType>,
    cmdLine: seq<string>,
    originalRequest: Option<MsgView>,
    reply: string)
  {
    predicate IsOpenFlow() { protocol == OPENFLOW }
    predicate IsP4() { protocol == P4_NETRONOME }
    predicate IsError() { protocol == Protocol.ERROR }

    /** Only OpenFlow messages are built with an OpenFlow payload. */
    predicate Valid() { IsOpenFlow() ==> ofMessage.Some? }

    /** `getTypeAsString`. */
    function TypeAsString(): string
      requires Valid()
    {
      if IsOpenFlow() then TypeName(TypeOf(ofMessage.value))
      else if IsError() then "OF_PARSE_ERROR"
      else "UNKNOWN"
    }
  }

  /** Exactly one of the three protocol predicates holds. */
  lemma ExactlyOneProtocol(v: MsgView)
    ensures v.IsOpenFlow() || v.IsP4() || v.IsError()
    ensures !(v.IsOpenFlow() && v.IsP4()) && !(v.IsOpenFlow() && v.IsError()) && !(v.IsP4() && v.IsError())
  {
  }

  lemma {:induction false} TypeNameIsNotReserved(t: MsgType)
    ensures TypeName(t) != "OF_PARSE_ERROR" && TypeName(t) != "UNKNOWN"
  {
    match t
    case HELLO => assert TypeName(t)[0] == 'H';
    case ERROR => assert |TypeName(t)| == 5;
    case ECHO_REQUEST => assert TypeName(t)[0] == 'E';
    case ECHO_REPLY => assert TypeName(t)[0] == 'E';
    case EXPERIMENTER => assert TypeName(t)[0] == 'E';
    case FEATURES_REQUEST => assert TypeName(t)[0] == 'F';
    case FEATURES_REPLY => assert TypeName(t)[0] == 'F';
    case GET_CONFIG_REQUEST => assert TypeName(t)[0] == 'G';
    case GET_CONFIG_REPLY => assert TypeName(t)[0] == 'G';
    case SET_CONFIG => assert TypeName(t)[0] == 'S';
    case PACKET_IN => assert TypeName(t)[0] == 'P';
    case FLOW_REMOVED => assert TypeName(t)[0] == 'F';
    case PORT_STATUS => assert TypeName(t)[0] == 'P';
    case PACKET_OUT => assert TypeName(t)[0] == 'P';
    case FLOW_MOD => assert TypeName(t)[0] == 'F';
    case GROUP_MOD => assert TypeName(t)[0] == 'G';
    case PORT_MOD => assert TypeName(t)[0] == 'P';
    case TABLE_MOD => assert TypeName(t)[0] == 'T';
    case STATS_REQUEST => assert TypeName(t)[0] == 'S';
    case STATS_REPLY => assert TypeName(t)[0] == 'S';
    case BARRIER_REQUEST => assert TypeName(t)[0] == 'B';
    case BARRIER_REPLY => assert TypeName(t)[0] == 'B';
    case QUEUE_GET_CONFIG_REQUEST => assert TypeName(t)[0] == 'Q';
    case QUEUE_GET_CONFIG_REPLY => assert TypeName(t)[0] == 'Q';
    case ROLE_REQUEST => assert TypeName(t)[0] == 'R';
    case ROLE_REPLY => assert TypeName(t)[0] == 'R';
    case GET_ASYNC_REQUEST => assert TypeName(t)[0] == 'G';
    case GET_ASYNC_REPLY => assert TypeName(t)[0] == 'G';
    case SET_ASYNC => assert TypeName(t)[0] == 'S';
    case METER_MOD => assert TypeName(t)[0] == 'M';
  }

  /** The type string tells the three protocols apart. */
  lemma TypeStringIdentifiesProtocol(v: MsgView)
    requires v.Valid()
    ensures v.TypeAsString() == "OF_PARSE_ERROR" <==> v.IsError()
    ensures v.TypeAsString() == "UNKNOWN" <==> v.IsP4()
    ensures v.IsOpenFlow() ==> v.TypeAsString() == TypeName(TypeOf(v.ofMessage.value))
  {
    if v.IsOpenFlow() {
      TypeNameIsNotReserved(TypeOf(v.ofMessage.value));
    }
  }

  class TVMessage {
    var protocol: Protocol
    var ofMessage: Option<OFMessage>
    var dataplaneId: int
    var errorMsg: string
    var thisMsgType: Option<MsgType>
    var cmdLine: seq<string>
    var originalRequest: Option<MsgView>
    var reply: string

    function View(): (v: MsgView)
      reads this
    {
      MsgView(protocol, ofMessage, dataplaneId, errorMsg, thisMsgType, cmdLine, originalRequest, reply)
    }

    /** `new TVMessage(OFMessage)`: an OpenFlow message with no dataplane id yet. */
    constructor OF(m: OFMessage)
      ensures View() == MsgView(OPENFLOW, Some(m), -1, "", Some(TypeOf(m)), [], None, "")
    {
      protocol := OPENFLOW;
      ofMessage := Some(m);
      dataplaneId := -1;
      errorMsg := "";
      thisMsgType := Some(TypeOf(m));
      cmdLine := [];
      originalRequest := None;
      reply := "";
    }

    /** `new TVMessage(OFMessage, int)`: an OpenFlow message addressed to a dataplane id. */
    constructor OFWithDpId(m: OFMessage, dataplaneId: int)
      ensures View() == MsgView(OPENFLOW, Some(m), dataplaneId, "", Some(TypeOf(m)), [], None, "")
    {
      protocol := OPENFLOW;
      ofMessage := Some(m);
      this.dataplaneId := dataplaneId;
      errorMsg := "";
      thisMsgType := Some(TypeOf(m));
      cmdLine := [];
      originalRequest := None;
      reply := "";
    }

    /** `new TVMessage(OFParseError, String)`: a parse error, with no payload and no dataplane id. */
    constructor ParseError(errorMsg: string)
      ensures View() == MsgView(Protocol.ERROR, None, -1, errorMsg, None, [], None, "")
    {
      protocol := Protocol.ERROR;
      ofMessage := None;
      dataplaneId := -1;
      this.errorMsg := errorMsg;
      thisMsgType := None;
      cmdLine := [];
      originalRequest := None;
      reply := "";
    }

    /** The P4 command constructor `new TVMessage(cmdLine, dataplaneId, originalRequest)`. */
    constructor P4Command(cmdLine: seq<string>, dataplaneId: int, originalRequest: Option<MsgView>)
      ensures View() == P4View(cmdLine, dataplaneId, originalRequest)
    {
      protocol := P4_NETRONOME;
      ofMessage := None;
      this.dataplaneId := dataplaneId;
      errorMsg := "";
      thisMsgType := None;
      this.cmdLine := cmdLine;
      this.originalRequest := originalRequest;
      reply := "";
    }

    /** `setOFMessage`: only an OpenFlow message may have its payload replaced. */
    method SetOFMessage(m: OFMessage) returns (r: Outcome)
      modifies this
      ensures r.Fail? <==> old(protocol) != OPENFLOW
      ensures r.Fail? ==> r.error == IllegalState(NotOpenFlowMessage(old(protocol)))
      ensures View() == if r.Pass? then old(View()).(ofMessage := Some(m)) else old(View())
    {
      if protocol != OPENFLOW {
        return Fail(IllegalState(NotOpenFlowMessage(protocol)));
      }
      ofMessage := Some(m);
      return Pass;
    }

    /** `setDataplaneId`. */
    method SetDataplaneId(n: int)
      modifies this
      ensures View() == old(View()).(dataplaneId := n)
    {
      dataplaneId := n;
    }

    /** `setThisMsgType`. */
    method SetThisMsgType(t: MsgType)
      modifies this
      ensures View() == old(View()).(thisMsgType := Some(t))
    {
      thisMsgType := Some(t);
    }

    /**
     * `copy`: a new message with the same protocol, an equal rebuilt payload
     * and the same dataplane id. Rebuilding dereferences the payload, so a
     * message without one (a parse error, a P4 command) cannot be copied.
     */
    method Copy() returns (r: Result<TVMessage>)
      ensures r.Err? <==> ofMessage.None?
      ensures r.Err? ==> r.error == NullPointer
      ensures r.Ok? ==> fresh(r.value)
                        && r.value.View() == MsgView(protocol, ofMessage, dataplaneId, "",
                                                     Some(TypeOf(ofMessage.value)), [], None, "")
    {
      if ofMessage.None? {
        return Err(NullPointer);
      }
      var c := new TVMessage.OFWithDpId(ofMessage.value, dataplaneId);
      c.protocol := protocol;
      return Ok(c);
    }

    /** `copyWithDpId`: a copy addressed to another dataplane id; the original is left as it was. */
    method CopyWithDpId(n: int) returns (r: Result<TVMessage>)
      ensures r.Err? <==> ofMessage.None?
      ensures r.Err? ==> r.error == NullPointer
      ensures r.Ok? ==> fresh(r.value)
                        && r.value.View() == MsgView(protocol, ofMessage, n, "",
                                                     Some(TypeOf(ofMessage.value)), [], None, "")
    {
      r := Copy();
      if r.Ok? {
        r.value.SetDataplaneId(n);
      }
    }
  }

  /** What `copyWithDpId(n)` produces from a message's content. */
  function CopyWithDpIdView(v: MsgView, n: int): (c: MsgView)
    requires v.ofMessage.Some?
    ensures c.protocol == v.protocol && c.ofMessage == v.ofMessage && c.dataplaneId == n
  {
    MsgView(v.protocol, v.ofMessage, n, "", Some(TypeOf(v.ofMessage.value)), [], None, "")
  }

  /** The content of `new TVMessage(m, dataplaneId)`. */
  function NewView(m: OFMessage, dataplaneId: int): MsgView
  {
    MsgView(OPENFLOW, Some(m), dataplaneId, "", Some(TypeOf(m)), [], None, "")
  }

  /** The content of the P4 command constructor `new TVMessage(cmdLine, dataplaneId, originalRequest)`. */
  function P4View(cmdLine: seq<string>, dataplaneId: int, originalRequest: Option<MsgView>): MsgView
  {
    MsgView(P4_NETRONOME, None, dataplaneId, "", None, cmdLine, originalRequest, "")
  }
}

/**
 * P4ControlApplication: the stage that stands in front of P4 devices driven
 * through a command line. It answers the control requests a P4 device cannot
 * answer itself, turns flow-mods into `tables add/delete/edit` command lines,
 * fans a flow-statistics request out into one `list-rules` call per table,
 * and collects the calls' replies, per device, into one flow-statistics
 * reply.
 */
module P4Control {
  import opened Wrappers
  import opened OpenFlow
  import opened Config
  import opened Messages
  import opened Text
  import JavaInts
  import Stages
  import P4Dicts
  import MultiSwitch

  /** One rule as the parse of a `list-rules` reply yields it; the rule name still carries its prefix. */
  datatype ParsedRule = ParsedRule(priority: int, ruleName: string, flowMatch: Match, instructions: seq<Instruction>)

  /**
   * What the stage consults besides its own state. SwitchConfig.java has no
   * `numberOfPorts` or `getP4Dict`, though the stage reads both; they are
   * given per dataplane id. The library's text of match and set-field values
   * and of ethertypes, and the regular-expression parse of a `list-rules`
   * reply (None when a part does not match), are given as functions.
   */
  datatype P4Env = P4Env(
    eps: seq<LowerLayerEndpointConfig>,
    ourDatapathId: int,
    numberOfPorts: int -> int,
    dictOf: int -> P4Dicts.Dict,
    valueText: (string, int) -> string,
    ethertypeText: int -> string,
    parseRules: (string, P4Dicts.Dict) -> Option<seq<ParsedRule>>)

  /** How a message leaves the stage. */
  datatype Via =
    /** `getSuccessing…Connector().allTo…`: straight to the neighbouring stage. */
    | Neighbour
    /** `super.allTo…`: through this stage's own P4 filter and dispatch. */
    | OwnDispatch

  datatype Hand = Hand(via: Via, dir: Stages.Direction, msg: MsgView)

  /** A reply built for the controller, handed to the control-side neighbour. */
  function ToController(m: OFMessage, dataplaneId: int): Hand
  {
    Hand(Neighbour, Stages.ToControlPlane, NewView(m, dataplaneId))
  }

  // ---------------------------------------------------------------- rule names

  /**
   * The rule name of a flow-mod: "r" and the cookie's text without its
   * first two characters. U64 writes a cookie as "0x" and its lower-case
   * hexadecimal digits, read as an unsigned 64-bit value.
   */
  function RuleName(cookie: int): string
  {
    "r" + HexString(cookie % JavaInts.TWO_64)
  }

  /**
   * The cookie read back from a rule name: a leading "r" dropped, the rest
   * read as a signed hexadecimal number and cut to its low 64 bits (what
   * `longValue` keeps), zero when the text is not a number.
   */
  function CookieOf(ruleName: string): (c: int)
    ensures 0 <= c < JavaInts.TWO_64
  {
    var digits := if |ruleName| > 0 && ruleName[0] == 'r' then ruleName[1..] else ruleName;
    match SignedHexValue(digits)
    case Some(v) => v % JavaInts.TWO_64
    case None => 0
  }

  /**
   * A rule name's number keeps only its low 64 bits, and a negative number
   * reads as its two's complement (`%` is Euclidean, so the remainder of a
   * negative number is the two's complement value).
   */
  lemma CookieOfKeepsLow64Bits(digits: string, v: nat)
    requires HexValue(digits) == Some(v)
    ensures CookieOf("r" + digits) == v % JavaInts.TWO_64
    ensures CookieOf("r-" + digits) == (-(v as int)) % JavaInts.TWO_64
    ensures CookieOf("r+" + digits) == v % JavaInts.TWO_64
  {
    assert digits != [] && HexDigitValue(digits[0]).Some?;
    assert ("r" + digits)[1..] == digits;
    assert ("r-" + digits)[1..] == "-" + digits && ("-" + digits)[1..] == digits;
    assert SignedHexValue("-" + digits) == Some(-(v as int));
    assert ("r+" + digits)[1..] == "+" + digits && ("+" + digits)[1..] == digits;
  }

  /** "r-1" is cookie 2^64 - 1, the unsigned reading of the long -1. */
  lemma MinusOneCookie()
    ensures CookieOf("r-1") == JavaInts.TWO_64 - 1
  {
    CookieOfKeepsLow64Bits("1", 1);
    assert "r-" + "1" == "r-1";
  }

  /** A rule written by a flow-mod reads back as the flow-mod's cookie (as an unsigned 64-bit value). */
  lemma RuleNameRoundTrip(cookie: int)
    ensures CookieOf(RuleName(cookie)) == cookie % JavaInts.TWO_64
  {
    var c: nat := cookie % JavaInts.TWO_64;
    HexRoundTrip(c);
    assert RuleName(cookie)[1..] == HexString(c);
    assert HexDigitValue(HexString(c)[0]).Some?;
  }

  // ---------------------------------------------------------------- replies to the controller

  /**
   * `p4ToControlPlane`: a command-line reply whose original request was a
   * statistics request is retyped as a statistics reply and dispatched
   * again; any other reply is dropped (None). A reply to no request is
   * dropped too; an original request without a type cannot be switched on.
   */
  function RetypedReply(tv: MsgView): Result<Option<MsgView>>
  {
    if tv.originalRequest.None? then Ok(None)
    else match tv.originalRequest.value.thisMsgType
      case None => Err(NullPointer)
      case Some(t) => if t == STATS_REQUEST then Ok(Some(tv.(thisMsgType := Some(STATS_REPLY)))) else Ok(None)
  }

  /** The default meter features of the library's builder. */
  const DEFAULT_METER_FEATURES: MeterFeatures := MeterFeatures(0, {}, {}, 0, 0)

  /**
   * `MacAddress.of(String.format("%02X:00:00:00:00:%02X", dataplaneId, i))`:
   * the text is an address only when both numbers print as two hexadecimal
   * digits; the address is then the dataplane id in the first byte and the
   * port index in the last.
   */
  predicate MacWritable(dataplaneId: int, i: int)
  {
    0 <= dataplaneId < 256 && 0 <= i < 256
  }

  function MacOf(dataplaneId: int, i: int): int
    requires MacWritable(dataplaneId, i)
  {
    dataplaneId * 0x100_0000_0000 + i
  }

  /** The message of the IllegalArgumentException for a malformed address text. */
  const BAD_MAC: string := "Invalid MAC address"

  /** Port description number `i` of device `dataplaneId`. */
  function PortDescAt(dataplaneId: int, i: int): PortDesc
    requires MacWritable(dataplaneId, i)
  {
    PortDesc(i, IntToString(dataplaneId) + "_" + IntToString(i), MacOf(dataplaneId, i), 10000000, 0)
  }

  /**
   * PORT_DESC: ports 0 to count-1, named "<dataplane id>_<i>", at 10 Gb/s;
   * the first port whose address text is malformed throws
   * IllegalArgumentException and nothing is answered.
   */
  function PortDescs(dataplaneId: int, count: int): Result<seq<PortDesc>>
  {
    if count <= 0 then Ok([])
    else if !MacWritable(dataplaneId, count - 1) then Err(IllegalArgument(BAD_MAC))
    else Ok(seq(count, i requires 0 <= i < count => PortDescAt(dataplaneId, i)))
  }

  /** Distinct numbers have distinct decimal texts. */
  lemma {:induction false} NatToStringInjective(a: nat, b: nat)
    requires NatToString(a) == NatToString(b)
    ensures a == b
    decreases a
  {
    var s := NatToString(a);
    if a >= 10 && b >= 10 {
      assert NatToString(a / 10) == s[..|s| - 1] == NatToString(b / 10);
      NatToStringInjective(a / 10, b / 10);
      assert DigitChar(a % 10) == s[|s| - 1] == DigitChar(b % 10);
    }
  }

  /**
   * The ports a P4 device reports are numbered 0 to count-1, one per port
   * not used for a link, and each has a name of its own.
   */
  lemma PortDescsNumbered(dataplaneId: int, numberOfPorts: int, links: nat)
    ensures var r := PortDescs(dataplaneId, numberOfPorts - links);
            && (r.Ok? <==> numberOfPorts <= links || (0 <= dataplaneId < 256 && numberOfPorts - links <= 256))
            && (r.Err? ==> r.error == IllegalArgument(BAD_MAC))
            && (r.Ok? ==>
                  var ports := r.value;
                  && |ports| == (if numberOfPorts <= links then 0 else numberOfPorts - links)
                  && (forall i :: 0 <= i < |ports| ==>
                        ports[i].portNo == i && ports[i].currSpeed == 10000000 && ports[i].maxSpeed == 0
                        && ports[i].hwAddr == dataplaneId * 0x100_0000_0000 + i)
                  && (forall i, j :: 0 <= i < j < |ports| ==> ports[i].name != ports[j].name && ports[i].hwAddr != ports[j].hwAddr))
  {
    var r := PortDescs(dataplaneId, numberOfPorts - links);
    if r.Ok? {
      var ports := r.value;
      var prefix := IntToString(dataplaneId) + "_";
      forall i, j | 0 <= i < j < |ports|
        ensures ports[i].name != ports[j].name
      {
        if ports[i].name == ports[j].name {
          assert ports[i].name == prefix + IntToString(i);
          assert ports[j].name == prefix + IntToString(j);
          assert IntToString(i) == ports[i].name[|prefix|..];
          assert IntToString(j) == ports[j].name[|prefix|..];
          NatToStringInjective(i, j);
        }
      }
    }
  }

  // ---------------------------------------------------------------- flow-stats fan-out

  /** The table ids a flow-statistics request covers: every mapped table for ALL, otherwise the one requested. */
  function RequestedTables(swc: SwitchConfig, table: int): seq<int>
  {
    if table == ALL_TABLES then Values(swc.tableMap) else [table]
  }

  /** `tvMessage.copy()` with its payload replaced by the request re-targeted to table `t`. */
  function RetargetedCopy(tv: MsgView, t: int): MsgView
    requires tv.ofMessage.Some? && tv.ofMessage.value.StatsRequest?
  {
    CopyWithDpIdView(tv, tv.dataplaneId).(ofMessage := Some(tv.ofMessage.value.(requestTable := t)))
  }

  /** The `tables --table-name <name> list-rules` call for one table; a table with no name is written "null". */
  function ListRulesCall(dict: P4Dicts.Dict, tv: MsgView, t: int): Hand
    requires tv.ofMessage.Some? && tv.ofMessage.value.StatsRequest?
  {
    Hand(OwnDispatch, Stages.ToDataPlane,
         P4View(["tables", "--table-name " + dict.TableIdToP4Name(t).GetOr("null"), "list-rules"],
                tv.dataplaneId, Some(RetargetedCopy(tv, t))))
  }

  function ListRulesCalls(dict: P4Dicts.Dict, tv: MsgView, ts: seq<int>): seq<Hand>
    requires tv.ofMessage.Some? && tv.ofMessage.value.StatsRequest?
  {
    seq(|ts|, i requires 0 <= i < |ts| => ListRulesCall(dict, tv, ts[i]))
  }

  /**
   * `switchStatsToDataPlane` as a value: the new cache, what is handed on,
   * and the outcome. Replies for the controller are synthesized for
   * PORT_DESC, METER_FEATURES and DESC; FLOW resets the device's cache and
   * issues one call per table; every other type is dropped.
   */
  function StatsRequestStep(env: P4Env, cache: map<int, seq<MsgView>>, tv: MsgView)
    : (map<int, seq<MsgView>>, seq<Hand>, Outcome)
  {
    if tv.ofMessage.None? then (cache, [], Fail(NullPointer))
    else if !tv.ofMessage.value.StatsRequest? then (cache, [], Fail(ClassCast))
    else
      var req := tv.ofMessage.value;
      var swc := SwitchById(env.eps, tv.dataplaneId);
      match req.requestType
      case PORT_DESC =>
        if swc.None? then (cache, [], Fail(NullPointer))
        else
          var count := env.numberOfPorts(swc.value.dataplaneId) - |swc.value.portMap|;
          (match PortDescs(tv.dataplaneId, count)
           case Err(e) => (cache, [], Fail(e))
           case Ok(ports) => (cache, [ToController(StatsReply(req.xid, {}, PortDescBody(ports)), tv.dataplaneId)], Pass))
      case METER_FEATURES =>
        (cache, [ToController(StatsReply(req.xid, {}, MeterFeaturesBody(DEFAULT_METER_FEATURES)), tv.dataplaneId)], Pass)
      case DESC =>
        (cache, [ToController(StatsReply(req.xid, {}, DescBody("P4_Netronome", MultiSwitch.VERSION, "TableVisor")), tv.dataplaneId)], Pass)
      case FLOW =>
        if swc.None? then (cache, [], Fail(NullPointer))
        else
          var ts := RequestedTables(swc.value, req.requestTable);
          var cache' := cache[swc.value.dataplaneId := []];
          if ts != [] && !tv.IsOpenFlow() then (cache', [], Fail(IllegalState(NotOpenFlowMessage(tv.protocol))))
          else (cache', ListRulesCalls(env.dictOf(swc.value.dataplaneId), tv, ts), Pass)
      case _ => (cache, [], Pass)
  }

  /** A flow-statistics request as the controller sends it to one device. */
  predicate IsFlowStatsRequest(tv: MsgView)
  {
    tv.ofMessage.Some? && tv.ofMessage.value.StatsRequest? && tv.ofMessage.value.requestType == FLOW
    && tv.IsOpenFlow()
  }

  /**
   * A flow-statistics request for ALL tables issues exactly one
   * `list-rules` call per mapped table, in the table map's order, each
   * carrying the request re-targeted to that table, and resets the
   * device's cache; a request for one table issues one call. A reply to
   * any of the calls is retyped and dispatched to the statistics handler,
   * which finds the call's table in it.
   */
  lemma FlowRequestFansOut(env: P4Env, cache: map<int, seq<MsgView>>, tv: MsgView, swc: SwitchConfig)
    requires IsFlowStatsRequest(tv) && SwitchById(env.eps, tv.dataplaneId) == Some(swc)
    ensures var step := StatsRequestStep(env, cache, tv);
            var table := tv.ofMessage.value.requestTable;
            var ts := if table == ALL_TABLES then Values(swc.tableMap) else [table];
            && step.0 == cache[swc.dataplaneId := []] && step.2 == Pass
            && |step.1| == (if table == ALL_TABLES then |swc.tableMap| else 1)
            && forall i :: 0 <= i < |step.1| ==>
                 && step.1[i].via == OwnDispatch && step.1[i].dir == Stages.ToDataPlane
                 && step.1[i].msg.cmdLine[1] == "--table-name " + env.dictOf(swc.dataplaneId).TableIdToP4Name(ts[i]).GetOr("null")
                 && forall reply: MsgView :: reply.originalRequest == step.1[i].msg.originalRequest ==>
                      && RetypedReply(reply).Ok? && RetypedReply(reply).value.Some?
                      && Stages.HandlerFor(Stages.ToControlPlane, RetypedReply(reply).value.value) == Stages.SwitchStats
                      && RequestedTable(RetypedReply(reply).value.value) == Ok(ts[i])
  {
    var req := tv.ofMessage.value;
    var ts := RequestedTables(swc, req.requestTable);
    var calls := ListRulesCalls(env.dictOf(swc.dataplaneId), tv, ts);
    assert StatsRequestStep(env, cache, tv) == (cache[swc.dataplaneId := []], calls, Pass);
    forall i | 0 <= i < |calls| {
      ListRulesCallMeaning(env.dictOf(swc.dataplaneId), tv, ts[i]);
    }
  }

  /** One `list-rules` call: its table argument, and how a reply to it is retyped and dispatched. */
  lemma ListRulesCallMeaning(dict: P4Dicts.Dict, tv: MsgView, t: int)
    requires IsFlowStatsRequest(tv)
    ensures var call := ListRulesCall(dict, tv, t);
            && call.via == OwnDispatch && call.dir == Stages.ToDataPlane
            && call.msg.cmdLine[1] == "--table-name " + dict.TableIdToP4Name(t).GetOr("null")
            && forall reply: MsgView :: reply.originalRequest == call.msg.originalRequest ==>
                 && RetypedReply(reply).Ok? && RetypedReply(reply).value.Some?
                 && Stages.HandlerFor(Stages.ToControlPlane, RetypedReply(reply).value.value) == Stages.SwitchStats
                 && RequestedTable(RetypedReply(reply).value.value) == Ok(t)
  {
    forall reply: MsgView | reply.originalRequest == ListRulesCall(dict, tv, t).msg.originalRequest
      ensures && RetypedReply(reply).Ok? && RetypedReply(reply).value.Some?
              && Stages.HandlerFor(Stages.ToControlPlane, RetypedReply(reply).value.value) == Stages.SwitchStats
              && RequestedTable(RetypedReply(reply).value.value) == Ok(t)
    {
      RetargetedReplyMeaning(tv, t, reply);
    }
  }

  /** A reply to a retargeted copy of a flow-statistics request is retyped as a statistics reply for table `t`. */
  lemma RetargetedReplyMeaning(tv: MsgView, t: int, reply: MsgView)
    requires IsFlowStatsRequest(tv) && reply.originalRequest == Some(RetargetedCopy(tv, t))
    ensures && RetypedReply(reply).Ok? && RetypedReply(reply).value.Some?
            && Stages.HandlerFor(Stages.ToControlPlane, RetypedReply(reply).value.value) == Stages.SwitchStats
            && RequestedTable(RetypedReply(reply).value.value) == Ok(t)
  {
  }

  // ---------------------------------------------------------------- flow-stats collection

  /** The table a cached reply answers: the table of its original request, which must be a flow-statistics request. */
  function RequestedTable(m: MsgView): Result<int>
  {
    if m.originalRequest.None? || m.originalRequest.value.ofMessage.None? then Err(NullPointer)
    else
      var o := m.originalRequest.value.ofMessage.value;
      if o.StatsRequest? && o.requestType == FLOW then Ok(o.requestTable) else Err(ClassCast)
  }

  /** The entry built from one parsed rule of table `t`. */
  function EntryOf(t: int, rule: ParsedRule): FlowStatsEntry
  {
    FlowStatsEntry(t, rule.priority, CookieOf(rule.ruleName), rule.flowMatch, rule.instructions)
  }

  function EntriesOf(t: int, rules: seq<ParsedRule>): seq<FlowStatsEntry>
  {
    seq(|rules|, i requires 0 <= i < |rules| => EntryOf(t, rules[i]))
  }

  /**
   * The loop over the cached replies: `acc` and the entries of each reply
   * in order; None when a reply does not parse (the stage then gives up
   * silently); an error when a reply's original request is not a flow
   * statistics request.
   */
  function FlowEntriesFrom(env: P4Env, dict: P4Dicts.Dict, acc: seq<FlowStatsEntry>, msgs: seq<MsgView>)
    : Result<Option<seq<FlowStatsEntry>>>
    decreases |msgs|
  {
    if msgs == [] then Ok(Some(acc))
    else match RequestedTable(msgs[0])
      case Err(e) => Err(e)
      case Ok(t) =>
        match env.parseRules(msgs[0].reply, dict)
        case None => Ok(None)
        case Some(rules) => FlowEntriesFrom(env, dict, acc + EntriesOf(t, rules), msgs[1..])
  }

  /**
   * How many replies a device's cache waits for. As written, as many as the
   * device has tables (`expected` empty); corrected, as many as its last
   * flow-statistics request issued calls, which `expected` records.
   */
  function Threshold(expected: map<int, nat>, swc: SwitchConfig): nat
  {
    if swc.dataplaneId in expected then expected[swc.dataplaneId] else |swc.tableMap|
  }

  /**
   * The corrected bookkeeping of a flow-statistics request: the number of
   * `list-rules` calls it issues, recorded for its device when the device's
   * cache is reset.
   */
  function ExpectedAfterRequest(env: P4Env, expected: map<int, nat>, tv: MsgView): map<int, nat>
  {
    if tv.ofMessage.Some? && tv.ofMessage.value.StatsRequest? && tv.ofMessage.value.requestType == FLOW
       && SwitchById(env.eps, tv.dataplaneId).Some?
    then
      var swc := SwitchById(env.eps, tv.dataplaneId).value;
      expected[swc.dataplaneId := |RequestedTables(swc, tv.ofMessage.value.requestTable)|]
    else expected
  }

  /**
   * `switchStatsToControlPlane` as a value. A reply to a flow-statistics
   * request joins its device's cache; while the cache holds fewer replies
   * than the threshold nothing more happens. Then the cache is removed and
   * one flow-statistics reply with the original request's xid is handed on.
   * Replies to other requests are dropped.
   */
  function StatsReplyStep(env: P4Env, expected: map<int, nat>, cache: map<int, seq<MsgView>>, tv: MsgView)
    : (map<int, seq<MsgView>>, seq<Hand>, Outcome)
  {
    if tv.originalRequest.None? || tv.originalRequest.value.ofMessage.None? then (cache, [], Fail(NullPointer))
    else
      var orig := tv.originalRequest.value.ofMessage.value;
      if !orig.StatsRequest? || orig.requestType != FLOW then (cache, [], Pass)
      else match SwitchById(env.eps, tv.dataplaneId)
        case None => (cache, [], Fail(NullPointer))
        case Some(swc) =>
          var key := swc.dataplaneId;
          if key !in cache then (cache, [], Fail(NullPointer))
          else
            var pending := cache[key] + [tv];
            if |pending| < Threshold(expected, swc) then (cache[key := pending], [], Pass)
            else
              var rest := cache - {key};
              var entries := FlowEntriesFrom(env, env.dictOf(key), [], pending);
              if entries.Err? then (rest, [], Fail(entries.error))
              else if entries.value.None? then (rest, [], Pass)
              else (rest, [ToController(StatsReply(orig.xid, {}, FlowBody(entries.value.value)), tv.dataplaneId)], Pass)
  }

  /** The replies of one device handed to the stage one after another: the final cache and everything handed on. */
  function StatsReplySteps(env: P4Env, expected: map<int, nat>, cache: map<int, seq<MsgView>>, tvs: seq<MsgView>)
    : (map<int, seq<MsgView>>, seq<Hand>)
    decreases |tvs|
  {
    if tvs == [] then (cache, [])
    else
      var first := StatsReplyStep(env, expected, cache, tvs[0]);
      var rest := StatsReplySteps(env, expected, first.0, tvs[1..]);
      (rest.0, first.1 + rest.1)
  }

  /** A reply to a `list-rules` call of a flow-statistics request, from device `dataplaneId`. */
  predicate AnswersFlowRequest(tv: MsgView, dataplaneId: int)
  {
    && tv.dataplaneId == dataplaneId
    && tv.originalRequest.Some? && tv.originalRequest.value.ofMessage.Some?
    && tv.originalRequest.value.ofMessage.value.StatsRequest?
    && tv.originalRequest.value.ofMessage.value.requestType == FLOW
  }

  lemma {:induction false} StatsReplyStepsSnoc(env: P4Env, expected: map<int, nat>, cache: map<int, seq<MsgView>>, tvs: seq<MsgView>, last: MsgView)
    ensures var before := StatsReplySteps(env, expected, cache, tvs);
            var step := StatsReplyStep(env, expected, before.0, last);
            StatsReplySteps(env, expected, cache, tvs + [last]) == (step.0, before.1 + step.1)
    decreases |tvs|
  {
    if tvs == [] {
      var step := StatsReplyStep(env, expected, cache, last);
      assert [] + [last] == [last];
      assert [last][1..] == [];
      assert StatsReplySteps(env, expected, cache, [last]) == (step.0, step.1 + []);
      assert step.1 + [] == [] + step.1;
    } else {
      var first := StatsReplyStep(env, expected, cache, tvs[0]);
      assert (tvs + [last])[0] == tvs[0] && (tvs + [last])[1..] == tvs[1..] + [last];
      StatsReplyStepsSnoc(env, expected, first.0, tvs[1..], last);
      var inner := StatsReplySteps(env, expected, first.0, tvs[1..]);
      var step := StatsReplyStep(env, expected, inner.0, last);
      assert StatsReplySteps(env, expected, first.0, tvs[1..] + [last]) == (step.0, inner.1 + step.1);
      assert StatsReplySteps(env, expected, cache, tvs) == (inner.0, first.1 + inner.1);
      assert StatsReplySteps(env, expected, cache, tvs + [last]) == (step.0, first.1 + (inner.1 + step.1));
      assert first.1 + (inner.1 + step.1) == (first.1 + inner.1) + step.1;
    }
  }

  /**
   * While fewer replies than the threshold have arrived since the cache was
   * reset, the replies only accumulate in the cache and nothing is handed
   * on.
   */
  lemma {:induction false} RepliesAccumulate(env: P4Env, expected: map<int, nat>, cache: map<int, seq<MsgView>>, swc: SwitchConfig, tvs: seq<MsgView>)
    requires swc.dataplaneId in cache && cache[swc.dataplaneId] == []
    requires |tvs| < Threshold(expected, swc)
    requires forall i :: 0 <= i < |tvs| ==> AnswersFlowRequest(tvs[i], swc.dataplaneId)
    requires SwitchById(env.eps, swc.dataplaneId) == Some(swc)
    ensures StatsReplySteps(env, expected, cache, tvs) == (cache[swc.dataplaneId := tvs], [])
    decreases |tvs|
  {
    if tvs == [] {
      assert cache[swc.dataplaneId := []] == cache;
    } else {
      var init := tvs[..|tvs| - 1];
      var last := tvs[|tvs| - 1];
      assert tvs == init + [last];
      assert forall i :: 0 <= i < |init| ==> init[i] == tvs[i];
      RepliesAccumulate(env, expected, cache, swc, init);
      StatsReplyStepsSnoc(env, expected, cache, init, last);
      var c := cache[swc.dataplaneId := init];
      assert AnswersFlowRequest(last, swc.dataplaneId);
      assert c[swc.dataplaneId] + [last] == tvs;
      assert StatsReplyStep(env, expected, c, last) == (c[swc.dataplaneId := tvs], [], Pass);
      assert c[swc.dataplaneId := tvs] == cache[swc.dataplaneId := tvs];
      var none: seq<Hand> := [];
      assert StatsReplySteps(env, expected, cache, init + [last]) == (c[swc.dataplaneId := tvs], none + none);
      assert none + none == none;
    }
  }

  /**
   * A full round: once as many replies as the threshold have arrived, the
   * cache entry is gone and at most one reply is handed on,
   * a flow-statistics reply with the xid of the last reply's original
   * request, holding the entries of all the replies in order. It is
   * handed on exactly when every reply parses.
   */
  lemma FullRoundAnswersOnce(env: P4Env, expected: map<int, nat>, cache: map<int, seq<MsgView>>, swc: SwitchConfig, tvs: seq<MsgView>)
    requires swc.dataplaneId in cache && cache[swc.dataplaneId] == []
    requires |tvs| == Threshold(expected, swc) > 0
    requires forall i :: 0 <= i < |tvs| ==> AnswersFlowRequest(tvs[i], swc.dataplaneId)
    requires SwitchById(env.eps, swc.dataplaneId) == Some(swc)
    ensures var r := StatsReplySteps(env, expected, cache, tvs);
            var entries := FlowEntriesFrom(env, env.dictOf(swc.dataplaneId), [], tvs);
            && r.0 == cache - {swc.dataplaneId}
            && (|r.1| == 1 <==> entries.Ok? && entries.value.Some?)
            && |r.1| <= 1
            && AnswersFlowRequest(tvs[|tvs| - 1], swc.dataplaneId)
            && (|r.1| == 1 ==>
                  var orig := tvs[|tvs| - 1].originalRequest.value.ofMessage.value;
                  r.1[0] == ToController(StatsReply(orig.xid, {}, FlowBody(entries.value.value)), swc.dataplaneId))
  {
    var init := tvs[..|tvs| - 1];
    var last := tvs[|tvs| - 1];
    assert tvs == init + [last];
    assert forall i :: 0 <= i < |init| ==> init[i] == tvs[i];
    RepliesAccumulate(env, expected, cache, swc, init);
    StatsReplyStepsSnoc(env, expected, cache, init, last);
    var c := cache[swc.dataplaneId := init];
    assert AnswersFlowRequest(last, swc.dataplaneId);
    assert c[swc.dataplaneId] + [last] == tvs;
    assert c - {swc.dataplaneId} == cache - {swc.dataplaneId};
  }

  /**
   * As written (no recorded call count, so the threshold is the device's
   * table count), a flow-statistics request for a single table of a device
   * with several tables never completes: it issues one call, but the one
   * reply only joins the cache.
   */
  lemma SingleTableRequestWaitsForever(env: P4Env, cache: map<int, seq<MsgView>>, tv: MsgView, swc: SwitchConfig, reply: MsgView)
    requires IsFlowStatsRequest(tv) && tv.ofMessage.value.requestTable != ALL_TABLES
    requires SwitchById(env.eps, tv.dataplaneId) == Some(swc) && tv.dataplaneId == swc.dataplaneId
    requires |swc.tableMap| >= 2
    requires var step := StatsRequestStep(env, cache, tv);
             |step.1| > 0 && reply.originalRequest == step.1[0].msg.originalRequest && reply.dataplaneId == tv.dataplaneId
    ensures var step := StatsRequestStep(env, cache, tv);
            && |step.1| == 1
            && StatsReplySteps(env, map[], step.0, [reply]) == (step.0[swc.dataplaneId := [reply]], [])
  {
    var step := StatsRequestStep(env, cache, tv);
    SingleCallReply(env, cache, tv, swc, reply);
    RepliesAccumulate(env, map[], step.0, swc, [reply]);
  }

  /** The one call of a single-table request, and a reply to it. */
  lemma SingleCallReply(env: P4Env, cache: map<int, seq<MsgView>>, tv: MsgView, swc: SwitchConfig, reply: MsgView)
    requires IsFlowStatsRequest(tv) && tv.ofMessage.value.requestTable != ALL_TABLES
    requires SwitchById(env.eps, tv.dataplaneId) == Some(swc) && tv.dataplaneId == swc.dataplaneId
    requires var step := StatsRequestStep(env, cache, tv);
             |step.1| > 0 && reply.originalRequest == step.1[0].msg.originalRequest && reply.dataplaneId == tv.dataplaneId
    ensures var step := StatsRequestStep(env, cache, tv);
            && |step.1| == 1 && step.0 == cache[swc.dataplaneId := []]
            && AnswersFlowRequest(reply, swc.dataplaneId)
            && reply.originalRequest.value.ofMessage.value.xid == tv.ofMessage.value.xid
  {
    var step := StatsRequestStep(env, cache, tv);
    FlowRequestFansOut(env, cache, tv, swc);
    var t := tv.ofMessage.value.requestTable;
    assert step.1[0] == ListRulesCall(env.dictOf(swc.dataplaneId), tv, t);
    assert reply.originalRequest == Some(RetargetedCopy(tv, t));
  }

  /**
   * Corrected, the threshold a flow-statistics request leaves for its
   * device is the number of `list-rules` calls it issued.
   */
  lemma RequestExpectsItsCalls(env: P4Env, expected: map<int, nat>, cache: map<int, seq<MsgView>>, tv: MsgView, swc: SwitchConfig)
    requires IsFlowStatsRequest(tv) && SwitchById(env.eps, tv.dataplaneId) == Some(swc)
    ensures var step := StatsRequestStep(env, cache, tv);
            && step.0 == cache[swc.dataplaneId := []]
            && Threshold(ExpectedAfterRequest(env, expected, tv), swc) == |step.1|
  {
    FlowRequestFansOut(env, cache, tv, swc);
  }

  /**
   * Corrected, a flow-statistics request for a single table is answered by
   * the reply to its one call: the cache entry is removed and one
   * flow-statistics reply with the request's xid is handed on, exactly
   * when the reply parses.
   */
  lemma SingleTableRequestAnswered(env: P4Env, expected: map<int, nat>, cache: map<int, seq<MsgView>>, tv: MsgView, swc: SwitchConfig, reply: MsgView)
    requires IsFlowStatsRequest(tv) && tv.ofMessage.value.requestTable != ALL_TABLES
    requires SwitchById(env.eps, tv.dataplaneId) == Some(swc) && tv.dataplaneId == swc.dataplaneId
    requires var step := StatsRequestStep(env, cache, tv);
             |step.1| > 0 && reply.originalRequest == step.1[0].msg.originalRequest && reply.dataplaneId == tv.dataplaneId
    ensures var step := StatsRequestStep(env, cache, tv);
            var r := StatsReplySteps(env, ExpectedAfterRequest(env, expected, tv), step.0, [reply]);
            var entries := FlowEntriesFrom(env, env.dictOf(swc.dataplaneId), [], [reply]);
            && r.0 == step.0 - {swc.dataplaneId}
            && (|r.1| == 1 <==> entries.Ok? && entries.value.Some?)
            && |r.1| <= 1
            && (|r.1| == 1 ==> r.1[0] == ToController(StatsReply(tv.ofMessage.value.xid, {}, FlowBody(entries.value.value)), swc.dataplaneId))
  {
    var step := StatsRequestStep(env, cache, tv);
    SingleCallReply(env, cache, tv, swc, reply);
    RequestExpectsItsCalls(env, expected, cache, tv, swc);
    FullRoundAnswersOnce(env, ExpectedAfterRequest(env, expected, tv), step.0, swc, [reply]);
  }

  // ---------------------------------------------------------------- flow-mod translation

  /** The action data and command names collected from a flow-mod's instructions. */
  datatype Translation = Translation(actionData: seq<string>, commands: set<string>)

  /** `f("'%s': { 'value': '%s' }", name, value)`: single quotes become double quotes, in the arguments too. */
  function ValueEntry(name: string, value: string): string
  {
    Requote("'" + name + "': { 'value': '" + value + "' }")
  }

  /**
   * One action of an APPLY_ACTIONS instruction. An output to the
   * controller discards the whole flow-mod (None). Every other translated
   * action looks its parameter name up in the device's dictionary, which
   * fails when the device is not configured.
   */
  function ActionStep(env: P4Env, dict: Option<P4Dicts.Dict>, acc: Translation, a: Action): Result<Option<Translation>>
  {
    match a
    case Output(port) =>
      if port == CONTROLLER_PORT then Ok(None)
      else if dict.None? then Err(NullPointer)
      else
        var name := dict.value.OfParamToP4Param("OUT_PORT").GetOr("null");
        Ok(Some(Translation(acc.actionData + [ValueEntry(name, "p" + IntToString(JavaInts.ToShort(port)))],
                            acc.commands + {"OUTPUT"})))
    case PopMpls(ethertype) =>
      if dict.None? then Err(NullPointer)
      else
        var name := dict.value.OfParamToP4Param("POP_ETHERTYPE").GetOr("null");
        Ok(Some(Translation(acc.actionData + [ValueEntry(name, env.ethertypeText(ethertype))],
                            acc.commands + {"MPLS_POP"})))
    case SetField(field, value) =>
      if dict.None? then Err(NullPointer)
      else (match dict.value.OfParamToP4Param(field)
        case None => Ok(Some(acc))
        case Some(name) =>
          Ok(Some(Translation(acc.actionData + [ValueEntry(name, env.valueText(field, value))],
                              acc.commands + {"SET_FIELD_" + field}))))
    case OtherAction(_) => Ok(Some(acc))
  }

  function TranslateActions(env: P4Env, dict: Option<P4Dicts.Dict>, acc: Translation, actions: seq<Action>)
    : Result<Option<Translation>>
    decreases |actions|
  {
    if actions == [] then Ok(Some(acc))
    else
      var r := ActionStep(env, dict, acc, actions[0]);
      if r.Ok? && r.value.Some? then TranslateActions(env, dict, r.value.value, actions[1..]) else r
  }

  /** Continue with the remaining instructions after a translated APPLY_ACTIONS, or stop with its result. */
  function AfterActions(env: P4Env, dict: Option<P4Dicts.Dict>, r: Result<Option<Translation>>, rest: seq<Instruction>)
    : Result<Option<Translation>>
    decreases |rest|, 1
  {
    if r.Ok? && r.value.Some? then TranslateInstructions(env, dict, r.value.value, rest) else r
  }

  /** The loop over a flow-mod's instructions; a GOTO_TABLE adds the command `GOTO_TABLE_<id>`. */
  function TranslateInstructions(env: P4Env, dict: Option<P4Dicts.Dict>, acc: Translation, insts: seq<Instruction>)
    : Result<Option<Translation>>
    decreases |insts|, 0
  {
    if insts == [] then Ok(Some(acc))
    else match insts[0]
      case ApplyActions(actions) => AfterActions(env, dict, TranslateActions(env, dict, acc, actions), insts[1..])
      case GotoTable(id) =>
        TranslateInstructions(env, dict, Translation(acc.actionData, acc.commands + {"GOTO_TABLE_" + IntToString(id)}), insts[1..])
      case OtherInstruction(_) => TranslateInstructions(env, dict, acc, insts[1..])
  }

  /** Whether some APPLY_ACTIONS instruction outputs to the controller. */
  predicate OutputsToController(insts: seq<Instruction>)
  {
    exists inst :: inst in insts && inst.ApplyActions? && Output(CONTROLLER_PORT) in inst.actions
  }

  /** The command an action contributes, if any (an output to the controller aside). */
  function ActionCommand(dict: P4Dicts.Dict, a: Action): Option<string>
  {
    match a
    case Output(_) => Some("OUTPUT")
    case PopMpls(_) => Some("MPLS_POP")
    case SetField(field, _) => if dict.OfParamToP4Param(field).Some? then Some("SET_FIELD_" + field) else None
    case OtherAction(_) => None
  }

  /** The commands a list of instructions contributes, as a set. */
  function CommandSet(dict: P4Dicts.Dict, insts: seq<Instruction>): set<string>
    decreases |insts|
  {
    if insts == [] then {}
    else
      var own := match insts[0]
        case ApplyActions(actions) => ActionCommands(dict, actions)
        case GotoTable(id) => {"GOTO_TABLE_" + IntToString(id)}
        case OtherInstruction(_) => {};
      own + CommandSet(dict, insts[1..])
  }

  /** The commands the actions of one APPLY_ACTIONS contribute. */
  function ActionCommands(dict: P4Dicts.Dict, actions: seq<Action>): set<string>
  {
    set a | a in actions && ActionCommand(dict, a).Some? :: ActionCommand(dict, a).value
  }

  function OptionSet(o: Option<string>): set<string>
  {
    if o.Some? then {o.value} else {}
  }

  lemma ActionCommandsCons(dict: P4Dicts.Dict, actions: seq<Action>)
    requires actions != []
    ensures ActionCommands(dict, actions) == OptionSet(ActionCommand(dict, actions[0])) + ActionCommands(dict, actions[1..])
  {
    assert forall a :: a in actions <==> a == actions[0] || a in actions[1..];
  }

  /** What one action does on a configured device, as ActionStepMeaning states it. */
  ghost predicate StepMeans(env: P4Env, dict: P4Dicts.Dict, acc: Translation, a: Action)
  {
    var r := ActionStep(env, Some(dict), acc, a);
    && r.Ok?
    && (r.value.None? <==> a == Output(CONTROLLER_PORT))
    && (r.value.Some? ==> r.value.value.commands == acc.commands + OptionSet(ActionCommand(dict, a)))
  }

  /** On a configured device one action never fails, and discards the flow-mod exactly when it outputs to the controller. */
  lemma ActionStepMeaning(env: P4Env, dict: P4Dicts.Dict, acc: Translation, a: Action)
    ensures var r := ActionStep(env, Some(dict), acc, a);
            && r.Ok?
            && (r.value.None? <==> a == Output(CONTROLLER_PORT))
            && (r.value.Some? ==> r.value.value.commands == acc.commands + OptionSet(ActionCommand(dict, a)))
  {
    match a
    case Output(_) => OutputStepMeaning(env, dict, acc, a);
    case PopMpls(_) => PopMplsStepMeaning(env, dict, acc, a);
    case SetField(_, _) => SetFieldStepMeaning(env, dict, acc, a);
    case OtherAction(_) =>
    assert StepMeans(env, dict, acc, a);
  }

  lemma OutputStepMeaning(env: P4Env, dict: P4Dicts.Dict, acc: Translation, a: Action)
    requires a.Output?
    ensures StepMeans(env, dict, acc, a)
  {
  }

  lemma PopMplsStepMeaning(env: P4Env, dict: P4Dicts.Dict, acc: Translation, a: Action)
    requires a.PopMpls?
    ensures StepMeans(env, dict, acc, a)
  {
  }

  lemma SetFieldStepMeaning(env: P4Env, dict: P4Dicts.Dict, acc: Translation, a: Action)
    requires a.SetField?
    ensures StepMeans(env, dict, acc, a)
  {
  }

  lemma {:induction false} TranslateActionsMeaning(env: P4Env, dict: P4Dicts.Dict, acc: Translation, actions: seq<Action>)
    ensures var r := TranslateActions(env, Some(dict), acc, actions);
            && r.Ok?
            && (r.value.None? <==> Output(CONTROLLER_PORT) in actions)
            && (r.value.Some? ==> r.value.value.commands == acc.commands + ActionCommands(dict, actions))
    decreases |actions|
  {
    if actions != [] {
      var r := ActionStep(env, Some(dict), acc, actions[0]);
      var tail := actions[1..];
      ActionStepMeaning(env, dict, acc, actions[0]);
      assert Output(CONTROLLER_PORT) in actions <==> actions[0] == Output(CONTROLLER_PORT) || Output(CONTROLLER_PORT) in tail;
      if r.value.Some? {
        TranslateActionsMeaning(env, dict, r.value.value, tail);
        ActionCommandsCons(dict, actions);
      }
    }
  }

  /**
   * With the device configured, translating a flow-mod's instructions never
   * fails; it discards the flow-mod exactly when some APPLY_ACTIONS outputs
   * to the controller, and otherwise collects exactly the commands of all
   * instructions.
   */
  lemma {:induction false} TranslateInstructionsMeaning(env: P4Env, dict: P4Dicts.Dict, acc: Translation, insts: seq<Instruction>)
    ensures var r := TranslateInstructions(env, Some(dict), acc, insts);
            && r.Ok?
            && (r.value.None? <==> OutputsToController(insts))
            && (r.value.Some? ==> r.value.value.commands == acc.commands + CommandSet(dict, insts))
    decreases |insts|
  {
    if insts != [] {
      var tail := insts[1..];
      assert forall inst :: inst in insts <==> inst == insts[0] || inst in tail;
      match insts[0]
      case ApplyActions(actions) =>
        TranslateActionsMeaning(env, dict, acc, actions);
        var r := TranslateActions(env, Some(dict), acc, actions);
        if r.value.Some? {
          TranslateInstructionsMeaning(env, dict, r.value.value, tail);
        }
      case GotoTable(id) =>
        TranslateInstructionsMeaning(env, dict, Translation(acc.actionData, acc.commands + {"GOTO_TABLE_" + IntToString(id)}), tail);
      case OtherInstruction(_) =>
        TranslateInstructionsMeaning(env, dict, acc, tail);
    }
  }

  /** The match list: one entry per match field that has a P4 name, in the match's order; the others are skipped. */
  function MatchEntries(env: P4Env, dict: P4Dicts.Dict, m: Match): seq<string>
    decreases |m|
  {
    if m == [] then []
    else
      var rest := MatchEntries(env, dict, m[1..]);
      match dict.OfFieldToP4Field(m[0].field)
      case None => rest
      case Some(p4Field) => [ValueEntry(p4Field, env.valueText(m[0].field, m[0].value))] + rest
  }

  /** The match list is empty exactly when no field of the match has a P4 name. */
  lemma {:induction false} MatchEntriesEmpty(env: P4Env, dict: P4Dicts.Dict, m: Match)
    ensures |MatchEntries(env, dict, m)| <= |m|
    ensures MatchEntries(env, dict, m) == [] <==> forall e :: e in m ==> dict.OfFieldToP4Field(e.field).None?
    decreases |m|
  {
    if m != [] {
      MatchEntriesEmpty(env, dict, m[1..]);
      assert forall e :: e in m <==> e == m[0] || e in m[1..];
    }
  }

  /** The verb of a flow-mod command; the other commands are not translated. */
  function Verb(command: FlowModCommand): Option<string>
  {
    match command
    case ADD => Some("add")
    case DELETE_STRICT => Some("delete")
    case MODIFY_STRICT => Some("edit")
    case _ => None
  }

  /** The `--action` text: the P4 action named by the command set ("null" when unknown) and the action data. */
  function ActionText(dict: P4Dicts.Dict, commands: set<string>, actionData: seq<string>): string
  {
    Requote("{ 'type': '" + dict.OfActionToP4Action(commands).GetOr("null") + "', 'data': { "
            + Join(actionData, ", ") + " } }")
  }

  /** An empty command set is looked up as {DROP}. */
  function CommandsOrDrop(commands: set<string>): set<string>
  {
    if commands == {} then {"DROP"} else commands
  }

  /** The command line of a translated flow-mod; None when its table has no P4 name or its command no verb. */
  function CommandLine(env: P4Env, dict: P4Dicts.Dict, fm: OFMessage, t: Translation): Option<seq<string>>
    requires fm.FlowMod?
  {
    var matchList := MatchEntries(env, dict, fm.flowMatch);
    match dict.TableIdToP4Name(fm.tableId)
    case None => None
    case Some(table) =>
      match Verb(fm.command)
      case None => None
      case Some(verb) =>
        Some(["tables", "--table-name " + table, verb,
              "--rule " + RuleName(fm.cookie),
              "--match " + "{ " + Join(matchList, ", ") + " }",
              "--action " + ActionText(dict, CommandsOrDrop(t.commands), t.actionData),
              "--priority " + IntToString(fm.priority)]
             + (if matchList == [] then ["--default"] else []))
  }

  /**
   * `flowModToDataPlane` as a value: at most one command line, handed to
   * this stage's own dispatch towards the device.
   */
  function FlowModStep(env: P4Env, tv: MsgView): (seq<Hand>, Outcome)
  {
    if tv.ofMessage.None? then ([], Fail(NullPointer))
    else if !tv.ofMessage.value.FlowMod? then ([], Fail(ClassCast))
    else
      var fm := tv.ofMessage.value;
      var swc := SwitchById(env.eps, tv.dataplaneId);
      var dict := if swc.Some? then Some(env.dictOf(swc.value.dataplaneId)) else None;
      var tr := TranslateInstructions(env, dict, Translation([], {}), fm.instructions);
      if tr.Err? then ([], Fail(tr.error))
      else if tr.value.None? then ([], Pass)
      else if dict.None? then ([], Fail(NullPointer))
      else match CommandLine(env, dict.value, fm, tr.value.value)
        case None => ([], Pass)
        case Some(params) => ([Hand(OwnDispatch, Stages.ToDataPlane, P4View(params, tv.dataplaneId, None))], Pass)
  }

  /**
   * The layout of a translated flow-mod's command line: the table, the verb,
   * the rule (whose name reads back as the cookie), the match entries
   * joined by commas, the action chosen by the commands ({DROP} when there
   * are none) with its parameter data, and the priority, and
   * `--default` at the end exactly when no match field has a P4 name.
   */
  ghost predicate LineLayout(dict: P4Dicts.Dict, fm: OFMessage, commands: set<string>, matchList: seq<string>,
                             actionData: seq<string>, params: seq<string>)
    requires fm.FlowMod?
  {
    && 7 <= |params| <= 8
    && params[0] == "tables"
    && dict.TableIdToP4Name(fm.tableId).Some? && params[1] == "--table-name " + dict.TableIdToP4Name(fm.tableId).value
    && Verb(fm.command).Some? && params[2] == Verb(fm.command).value
    && |params[3]| >= 7 && params[3][..7] == "--rule " && CookieOf(params[3][7..]) == fm.cookie % JavaInts.TWO_64
    && params[4] == "--match " + "{ " + Join(matchList, ", ") + " }"
    && params[5] == "--action " + ActionText(dict, CommandsOrDrop(commands), actionData)
    && params[6] == "--priority " + IntToString(fm.priority)
    && (|params| == 8 <==> forall e :: e in fm.flowMatch ==> dict.OfFieldToP4Field(e.field).None?)
    && (|params| == 8 ==> params[7] == "--default")
  }

  /** A command line exists exactly when the table has a P4 name and the command a verb; it is laid out as LineLayout says. */
  lemma CommandLineMeaning(env: P4Env, dict: P4Dicts.Dict, fm: OFMessage, t: Translation)
    requires fm.FlowMod?
    ensures var line := CommandLine(env, dict, fm, t);
            && (line.Some? <==> dict.TableIdToP4Name(fm.tableId).Some? && Verb(fm.command).Some?)
            && (line.Some? ==> LineLayout(dict, fm, t.commands, MatchEntries(env, dict, fm.flowMatch), t.actionData, line.value))
  {
    var line := CommandLine(env, dict, fm, t);
    if line.Some? {
      var matchList := MatchEntries(env, dict, fm.flowMatch);
      MatchEntriesEmpty(env, dict, fm.flowMatch);
      RuleParam(fm.cookie);
      var params := line.value;
      var head := ["tables", "--table-name " + dict.TableIdToP4Name(fm.tableId).value, Verb(fm.command).value,
                   "--rule " + RuleName(fm.cookie),
                   "--match " + "{ " + Join(matchList, ", ") + " }",
                   "--action " + ActionText(dict, CommandsOrDrop(t.commands), t.actionData),
                   "--priority " + IntToString(fm.priority)];
      assert params == head + (if matchList == [] then ["--default"] else []);
      assert params[3] == head[3] && params[4] == head[4] && params[5] == head[5];
    }
  }

  /** The `--rule` parameter: its name part reads back as the cookie. */
  lemma RuleParam(cookie: int)
    ensures var p := "--rule " + RuleName(cookie);
            |p| >= 7 && p[..7] == "--rule " && CookieOf(p[7..]) == cookie % JavaInts.TWO_64
  {
    var p := "--rule " + RuleName(cookie);
    assert p[7..] == RuleName(cookie);
    RuleNameRoundTrip(cookie);
  }

  /**
   * On a configured device a flow-mod never fails. It yields one command
   * line exactly when no action outputs to the controller, its table has
   * a P4 name and its command is ADD, DELETE_STRICT or MODIFY_STRICT; the
   * line carries the commands of all the flow-mod's instructions.
   */
  lemma FlowModStepMeaning(env: P4Env, tv: MsgView, swc: SwitchConfig)
    requires tv.ofMessage.Some? && tv.ofMessage.value.FlowMod?
    requires SwitchById(env.eps, tv.dataplaneId) == Some(swc)
    ensures var fm := tv.ofMessage.value;
            var dict := env.dictOf(swc.dataplaneId);
            var step := FlowModStep(env, tv);
            && step.1 == Pass
            && (|step.0| == 1 <==> !OutputsToController(fm.instructions) && dict.TableIdToP4Name(fm.tableId).Some?
                                   && Verb(fm.command).Some?)
            && |step.0| <= 1
            && (|step.0| == 1 ==>
                  && step.0[0] == Hand(OwnDispatch, Stages.ToDataPlane, P4View(step.0[0].msg.cmdLine, tv.dataplaneId, None))
                  && exists data :: LineLayout(dict, fm, CommandSet(dict, fm.instructions), MatchEntries(env, dict, fm.flowMatch),
                                               data, step.0[0].msg.cmdLine))
  {
    var fm := tv.ofMessage.value;
    var dict := env.dictOf(swc.dataplaneId);
    TranslateInstructionsMeaning(env, dict, Translation([], {}), fm.instructions);
    var tr := TranslateInstructions(env, Some(dict), Translation([], {}), fm.instructions);
    if tr.value.Some? {
      assert {} + CommandSet(dict, fm.instructions) == CommandSet(dict, fm.instructions);
      CommandLineMeaning(env, dict, fm, tr.value.value);
    }
  }

  // ---------------------------------------------------------------- the stage

  class P4ControlApplication {
    /** `cachedStatsReplies`: per device, the `list-rules` replies received since its last flow-statistics request. */
    var cachedStatsReplies: map<int, seq<MsgView>>
    /** Per device, how many `list-rules` calls its last flow-statistics request issued (the corrected threshold). */
    var expectedReplies: map<int, nat>
    /** The messages the stage has handed on, in order. */
    var handedOn: seq<Hand>

    constructor()
      ensures cachedStatsReplies == map[] && expectedReplies == map[] && handedOn == []
    {
      cachedStatsReplies := map[];
      expectedReplies := map[];
      handedOn := [];
    }

    /** `p4ToControlPlane`. */
    method P4ToControlPlane(tv: MsgView) returns (r: Outcome)
      modifies this
      ensures cachedStatsReplies == old(cachedStatsReplies) && expectedReplies == old(expectedReplies)
      ensures var res := RetypedReply(tv);
              && (res.Err? ==> r == Fail(res.error) && handedOn == old(handedOn))
              && (res.Ok? ==> r == Pass && handedOn == old(handedOn) + if res.value.Some?
                                then [Hand(OwnDispatch, Stages.ToControlPlane, res.value.value)] else [])
    {
      if tv.originalRequest.None? {
        return Pass;
      }
      var t := tv.originalRequest.value.thisMsgType;
      if t.None? {
        return Fail(NullPointer);
      }
      if t.value == STATS_REQUEST {
        handedOn := handedOn + [Hand(OwnDispatch, Stages.ToControlPlane, tv.(thisMsgType := Some(STATS_REPLY)))];
      }
      return Pass;
    }

    /** `switchFeaturesToDataPlane`: the device's features, answered for it. */
    method SwitchFeaturesToDataPlane(env: P4Env, tv: MsgView) returns (r: Outcome)
      modifies this
      ensures cachedStatsReplies == old(cachedStatsReplies) && expectedReplies == old(expectedReplies)
      ensures SwitchById(env.eps, tv.dataplaneId).None? || tv.ofMessage.None?
              ==> r == Fail(NullPointer) && handedOn == old(handedOn)
      ensures SwitchById(env.eps, tv.dataplaneId).Some? && tv.ofMessage.Some?
              ==> r == Pass
                  && var swc := SwitchById(env.eps, tv.dataplaneId).value;
                     handedOn == old(handedOn) + [ToController(FeaturesReply(tv.ofMessage.value.xid, env.ourDatapathId, 1,
                                                  JavaInts.ToShort(|swc.tableMap|), 0, {}, 0), tv.dataplaneId)]
    {
      var swc := SwitchById(env.eps, tv.dataplaneId);
      if swc.None? || tv.ofMessage.None? {
        return Fail(NullPointer);
      }
      var rep := FeaturesReply(tv.ofMessage.value.xid, env.ourDatapathId, 1, JavaInts.ToShort(|swc.value.tableMap|), 0, {}, 0);
      handedOn := handedOn + [ToController(rep, tv.dataplaneId)];
      return Pass;
    }

    /** `switchGetConfigToDataPlane`: a configuration reply with a miss-send length of 128. */
    method SwitchGetConfigToDataPlane(tv: MsgView) returns (r: Outcome)
      modifies this
      ensures cachedStatsReplies == old(cachedStatsReplies) && expectedReplies == old(expectedReplies)
      ensures tv.ofMessage.None? ==> r == Fail(NullPointer) && handedOn == old(handedOn)
      ensures tv.ofMessage.Some? ==>
                r == Pass && handedOn == old(handedOn) + [ToController(GetConfigReply(tv.ofMessage.value.xid, {}, 128), tv.dataplaneId)]
    {
      if tv.ofMessage.None? {
        return Fail(NullPointer);
      }
      handedOn := handedOn + [ToController(GetConfigReply(tv.ofMessage.value.xid, {}, 128), tv.dataplaneId)];
      return Pass;
    }

    /** `setConfigToDataPlane`: discarded. */
    method SetConfigToDataPlane(tv: MsgView)
      modifies this
      ensures cachedStatsReplies == old(cachedStatsReplies) && expectedReplies == old(expectedReplies) && handedOn == old(handedOn)
    {
    }

    /** `roleToDataPlane`: the stage answers that the controller is master. */
    method RoleToDataPlane(tv: MsgView) returns (r: Outcome)
      modifies this
      ensures cachedStatsReplies == old(cachedStatsReplies) && expectedReplies == old(expectedReplies)
      ensures tv.ofMessage.None? ==> r == Fail(NullPointer) && handedOn == old(handedOn)
      ensures tv.ofMessage.Some? ==>
                r == Pass && handedOn == old(handedOn) + [ToController(RoleReply(tv.ofMessage.value.xid, ROLE_MASTER), tv.dataplaneId)]
    {
      if tv.ofMessage.None? {
        return Fail(NullPointer);
      }
      handedOn := handedOn + [ToController(RoleReply(tv.ofMessage.value.xid, ROLE_MASTER), tv.dataplaneId)];
      return Pass;
    }

    /** `barrierToDataPlane`: a barrier reply, dispatched again towards the controller. */
    method BarrierToDataPlane(tv: MsgView) returns (r: Outcome)
      modifies this
      ensures cachedStatsReplies == old(cachedStatsReplies) && expectedReplies == old(expectedReplies)
      ensures tv.ofMessage.None? ==> r == Fail(NullPointer) && handedOn == old(handedOn)
      ensures tv.ofMessage.Some? ==>
                r == Pass && handedOn == old(handedOn) + [Hand(OwnDispatch, Stages.ToControlPlane, NewView(BarrierReply(tv.ofMessage.value.xid), tv.dataplaneId))]
    {
      if tv.ofMessage.None? {
        return Fail(NullPointer);
      }
      handedOn := handedOn + [Hand(OwnDispatch, Stages.ToControlPlane, NewView(BarrierReply(tv.ofMessage.value.xid), tv.dataplaneId))];
      return Pass;
    }

    /** `switchStatsToDataPlane`. */
    method SwitchStatsToDataPlane(env: P4Env, tv: MsgView) returns (r: Outcome)
      modifies this
      ensures var step := StatsRequestStep(env, old(cachedStatsReplies), tv);
              cachedStatsReplies == step.0 && handedOn == old(handedOn) + step.1 && r == step.2
      ensures expectedReplies == ExpectedAfterRequest(env, old(expectedReplies), tv)
    {
      if tv.ofMessage.None? {
        return Fail(NullPointer);
      }
      if !tv.ofMessage.value.StatsRequest? {
        return Fail(ClassCast);
      }
      var req := tv.ofMessage.value;
      var swc := SwitchById(env.eps, tv.dataplaneId);
      if req.requestType == PORT_DESC {
        if swc.None? {
          return Fail(NullPointer);
        }
        var ports := BuildPortDescs(tv.dataplaneId, env.numberOfPorts(swc.value.dataplaneId) - |swc.value.portMap|);
        if ports.Err? {
          return Fail(ports.error);
        }
        handedOn := handedOn + [ToController(StatsReply(req.xid, {}, PortDescBody(ports.value)), tv.dataplaneId)];
      } else if req.requestType == METER_FEATURES {
        handedOn := handedOn + [ToController(StatsReply(req.xid, {}, MeterFeaturesBody(DEFAULT_METER_FEATURES)), tv.dataplaneId)];
      } else if req.requestType == DESC {
        handedOn := handedOn + [ToController(StatsReply(req.xid, {}, DescBody("P4_Netronome", MultiSwitch.VERSION, "TableVisor")), tv.dataplaneId)];
      } else if req.requestType == FLOW {
        if swc.None? {
          return Fail(NullPointer);
        }
        var ts := RequestedTables(swc.value, req.requestTable);
        cachedStatsReplies := cachedStatsReplies[swc.value.dataplaneId := []];
        expectedReplies := expectedReplies[swc.value.dataplaneId := |ts|];
        if ts != [] && !tv.IsOpenFlow() {
          return Fail(IllegalState(NotOpenFlowMessage(tv.protocol)));
        }
        IssueListRules(env.dictOf(swc.value.dataplaneId), tv, ts);
      }
      return Pass;
    }

    /** The loop issuing one `list-rules` call per table. */
    method IssueListRules(dict: P4Dicts.Dict, tv: MsgView, ts: seq<int>)
      requires tv.ofMessage.Some? && tv.ofMessage.value.StatsRequest?
      modifies this
      ensures cachedStatsReplies == old(cachedStatsReplies) && expectedReplies == old(expectedReplies)
      ensures handedOn == old(handedOn) + ListRulesCalls(dict, tv, ts)
    {
      for k := 0 to |ts|
        invariant cachedStatsReplies == old(cachedStatsReplies) && expectedReplies == old(expectedReplies)
        invariant handedOn == old(handedOn) + ListRulesCalls(dict, tv, ts[..k])
      {
        handedOn := handedOn + [ListRulesCall(dict, tv, ts[k])];
        assert ts[..k + 1] == ts[..k] + [ts[k]];
      }
      assert ts[..|ts|] == ts;
    }

    /** The loop that builds the PORT_DESC entries. */
    static method BuildPortDescs(dataplaneId: int, count: int) returns (r: Result<seq<PortDesc>>)
      ensures r == PortDescs(dataplaneId, count)
    {
      var ports := [];
      var i := 0;
      while i < count
        invariant if count < 0 then i == 0 else 0 <= i <= count
        invariant i > 0 ==> MacWritable(dataplaneId, i - 1)
        invariant |ports| == i
        invariant forall k :: 0 <= k < i ==> MacWritable(dataplaneId, k) && ports[k] == PortDescAt(dataplaneId, k)
        decreases count - i
      {
        if !(0 <= dataplaneId < 256 && i < 256) {
          return Err(IllegalArgument(BAD_MAC));
        }
        ports := ports + [PortDescAt(dataplaneId, i)];
        i := i + 1;
      }
      if count > 0 {
        assert ports == seq(count, k requires 0 <= k < count => PortDescAt(dataplaneId, k));
      }
      r := Ok(ports);
    }

    /** `switchStatsToControlPlane`. */
    method SwitchStatsToControlPlane(env: P4Env, tv: MsgView) returns (r: Outcome)
      modifies this
      ensures var step := StatsReplyStep(env, old(expectedReplies), old(cachedStatsReplies), tv);
              cachedStatsReplies == step.0 && handedOn == old(handedOn) + step.1 && r == step.2
      ensures expectedReplies == old(expectedReplies)
    {
      if tv.originalRequest.None? || tv.originalRequest.value.ofMessage.None? {
        return Fail(NullPointer);
      }
      var orig := tv.originalRequest.value.ofMessage.value;
      if !orig.StatsRequest? || orig.requestType != FLOW {
        return Pass;
      }
      var swc := SwitchById(env.eps, tv.dataplaneId);
      if swc.None? {
        return Fail(NullPointer);
      }
      var key := swc.value.dataplaneId;
      if key !in cachedStatsReplies {
        return Fail(NullPointer);
      }
      var pending := cachedStatsReplies[key] + [tv];
      cachedStatsReplies := cachedStatsReplies[key := pending];
      if |pending| < Threshold(expectedReplies, swc.value) {
        return Pass;
      }
      cachedStatsReplies := cachedStatsReplies - {key};
      var entries := CollectFlowEntries(env, env.dictOf(key), pending);
      if entries.Err? {
        return Fail(entries.error);
      }
      if entries.value.None? {
        return Pass;
      }
      handedOn := handedOn + [ToController(StatsReply(orig.xid, {}, FlowBody(entries.value.value)), tv.dataplaneId)];
      return Pass;
    }

    /** The loop over the cached replies, building the flow entries. */
    static method CollectFlowEntries(env: P4Env, dict: P4Dicts.Dict, msgs: seq<MsgView>)
      returns (r: Result<Option<seq<FlowStatsEntry>>>)
      ensures r == FlowEntriesFrom(env, dict, [], msgs)
    {
      var entries: seq<FlowStatsEntry> := [];
      for i := 0 to |msgs|
        invariant FlowEntriesFrom(env, dict, entries, msgs[i..]) == FlowEntriesFrom(env, dict, [], msgs)
      {
        assert msgs[i..][0] == msgs[i] && msgs[i..][1..] == msgs[i + 1..];
        var t := RequestedTable(msgs[i]);
        if t.Err? {
          return Err(t.error);
        }
        var rules := env.parseRules(msgs[i].reply, dict);
        if rules.None? {
          return Ok(None);
        }
        entries := entries + EntriesOf(t.value, rules.value);
      }
      assert msgs[|msgs|..] == [];
      return Ok(Some(entries));
    }

    /** `flowModToDataPlane`. */
    method FlowModToDataPlane(env: P4Env, tv: MsgView) returns (r: Outcome)
      modifies this
      ensures cachedStatsReplies == old(cachedStatsReplies) && expectedReplies == old(expectedReplies)
      ensures var step := FlowModStep(env, tv);
              handedOn == old(handedOn) + step.0 && r == step.1
    {
      if tv.ofMessage.None? {
        return Fail(NullPointer);
      }
      if !tv.ofMessage.value.FlowMod? {
        return Fail(ClassCast);
      }
      var fm := tv.ofMessage.value;
      var swc := SwitchById(env.eps, tv.dataplaneId);
      var dict := if swc.Some? then Some(env.dictOf(swc.value.dataplaneId)) else None;
      var tr := TranslateFlowInstructions(env, dict, fm.instructions);
      if tr.Err? {
        return Fail(tr.error);
      }
      if tr.value.None? {
        return Pass;
      }
      if dict.None? {
        return Fail(NullPointer);
      }
      var matchList := BuildMatchList(env, dict.value, fm.flowMatch);
      var table := dict.value.TableIdToP4Name(fm.tableId);
      if table.None? {
        return Pass;
      }
      var verb := Verb(fm.command);
      if verb.None? {
        return Pass;
      }
      ghost var lineHead := ["tables", "--table-name " + table.value, verb.value,
                     "--rule " + RuleName(fm.cookie),
                     "--match " + "{ " + Join(matchList, ", ") + " }",
                     "--action " + ActionText(dict.value, CommandsOrDrop(tr.value.value.commands), tr.value.value.actionData),
                     "--priority " + IntToString(fm.priority)];
      assert CommandLine(env, dict.value, fm, tr.value.value) == Some(lineHead + if matchList == [] then ["--default"] else []);
      var params := ["tables", "--table-name " + table.value, verb.value,
                     "--rule " + RuleName(fm.cookie),
                     "--match " + "{ " + Join(matchList, ", ") + " }",
                     "--action " + ActionText(dict.value, CommandsOrDrop(tr.value.value.commands), tr.value.value.actionData),
                     "--priority " + IntToString(fm.priority)];
      if matchList == [] {
        params := params + ["--default"];
      }
      assert params == lineHead + if matchList == [] then ["--default"] else [];
      handedOn := handedOn + [Hand(OwnDispatch, Stages.ToDataPlane, P4View(params, tv.dataplaneId, None))];
      return Pass;
    }

    /** The loops over the instructions and their actions. */
    static method TranslateFlowInstructions(env: P4Env, dict: Option<P4Dicts.Dict>, insts: seq<Instruction>)
      returns (r: Result<Option<Translation>>)
      ensures r == TranslateInstructions(env, dict, Translation([], {}), insts)
    {
      var acc := Translation([], {});
      for i := 0 to |insts|
        invariant TranslateInstructions(env, dict, acc, insts[i..]) == TranslateInstructions(env, dict, Translation([], {}), insts)
      {
        assert insts[i..][0] == insts[i] && insts[i..][1..] == insts[i + 1..];
        match insts[i]
        case ApplyActions(actions) =>
          for j := 0 to |actions|
            invariant AfterActions(env, dict, TranslateActions(env, dict, acc, actions[j..]), insts[i + 1..])
                      == TranslateInstructions(env, dict, Translation([], {}), insts)
          {
            assert actions[j..][0] == actions[j] && actions[j..][1..] == actions[j + 1..];
            var step := ActionStep(env, dict, acc, actions[j]);
            if !(step.Ok? && step.value.Some?) {
              return step;
            }
            acc := step.value.value;
          }
          assert actions[|actions|..] == [];
        case GotoTable(id) =>
          acc := Translation(acc.actionData, acc.commands + {"GOTO_TABLE_" + IntToString(id)});
        case OtherInstruction(_) =>
      }
      assert insts[|insts|..] == [];
      return Ok(Some(acc));
    }

    /** The loop over the match fields. */
    static method BuildMatchList(env: P4Env, dict: P4Dicts.Dict, m: Match) returns (matchList: seq<string>)
      ensures matchList == MatchEntries(env, dict, m)
    {
      matchList := [];
      for i := 0 to |m|
        invariant matchList + MatchEntries(env, dict, m[i..]) == MatchEntries(env, dict, m)
      {
        assert m[i..][0] == m[i] && m[i..][1..] == m[i + 1..];
        var p4Field := dict.OfFieldToP4Field(m[i].field);
        if p4Field.Some? {
          matchList := matchList + [ValueEntry(p4Field.value, env.valueText(m[i].field, m[i].value))];
        }
      }
      assert m[|m|..] == [];
    }
  }
}

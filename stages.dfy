/**
 * The pipeline of stages between the controller and the devices.
 *
 * Every stage (BaseApplication) has a neighbour towards the control plane and
 * one towards the data plane, and dispatches each message it receives to a
 * per-category handler, whose default hands the message on to the neighbour
 * in the same direction. The chain is assembled once, at start-up, from the
 * enabled application types in their declaration order.
 *
 * A stage does not run its neighbour here: what a stage hands on is recorded,
 * in order, in its `handedOn` list.
 */
module Stages {
  import opened Wrappers
  import OpenFlow
  import Messages
  import Config
  import Registry

  datatype Direction = ToControlPlane | ToDataPlane

  /** The handler methods of BaseApplication that the two dispatchers call. */
  datatype Handler =
    | PacketIn | FlowMod | SwitchStats | SwitchGetConfig | SetConfig | MeterMod | TableMod
    | GroupMod | Role | SwitchFeatures | PortMod | Barrier | PacketOut | Misc
    | Error | P4 | Discard

  /** The types `allToControlPlane` has a case for. */
  const ControlCases: set<OpenFlow.MsgType> := {
    OpenFlow.PACKET_IN, OpenFlow.FLOW_MOD, OpenFlow.FLOW_REMOVED, OpenFlow.STATS_REPLY, OpenFlow.GET_CONFIG_REPLY, OpenFlow.SET_CONFIG, OpenFlow.METER_MOD,
    OpenFlow.TABLE_MOD, OpenFlow.GROUP_MOD, OpenFlow.ROLE_REPLY, OpenFlow.FEATURES_REPLY, OpenFlow.PORT_MOD, OpenFlow.BARRIER_REPLY}

  /** The types `allToDataPlane` has a case for. */
  const DataCases: set<OpenFlow.MsgType> := {
    OpenFlow.PACKET_OUT, OpenFlow.FLOW_MOD, OpenFlow.STATS_REQUEST, OpenFlow.GET_CONFIG_REQUEST, OpenFlow.SET_CONFIG, OpenFlow.METER_MOD, OpenFlow.TABLE_MOD,
    OpenFlow.GROUP_MOD, OpenFlow.ROLE_REQUEST, OpenFlow.FEATURES_REQUEST, OpenFlow.PORT_MOD, OpenFlow.BARRIER_REQUEST}

  /** The switch of `allToControlPlane`. */
  function ControlHandlerOf(t: OpenFlow.MsgType): Handler
  {
    match t
    case PACKET_IN => PacketIn
    case FLOW_MOD => FlowMod
    case FLOW_REMOVED => FlowMod
    case STATS_REPLY => SwitchStats
    case GET_CONFIG_REPLY => SwitchGetConfig
    case SET_CONFIG => SetConfig
    case METER_MOD => MeterMod
    case TABLE_MOD => TableMod
    case GROUP_MOD => GroupMod
    case ROLE_REPLY => Role
    case FEATURES_REPLY => SwitchFeatures
    case PORT_MOD => PortMod
    case BARRIER_REPLY => Barrier
    case _ => Misc
  }

  /** The switch of `allToDataPlane`. */
  function DataHandlerOf(t: OpenFlow.MsgType): Handler
  {
    match t
    case PACKET_OUT => PacketOut
    case FLOW_MOD => FlowMod
    case STATS_REQUEST => SwitchStats
    case GET_CONFIG_REQUEST => SwitchGetConfig
    case SET_CONFIG => SetConfig
    case METER_MOD => MeterMod
    case TABLE_MOD => TableMod
    case GROUP_MOD => GroupMod
    case ROLE_REQUEST => Role
    case FEATURES_REQUEST => SwitchFeatures
    case PORT_MOD => PortMod
    case BARRIER_REQUEST => Barrier
    case _ => Misc
  }

  /**
   * The handler a message is dispatched to: by its type when it has one,
   * otherwise the error handler for a parse error, the P4 handler for a P4
   * message, and none at all (the message is dropped with a warning) otherwise.
   */
  function HandlerFor(dir: Direction, v: Messages.MsgView): Handler
  {
    if v.thisMsgType.Some? then
      (if dir == ToControlPlane then ControlHandlerOf(v.thisMsgType.value) else DataHandlerOf(v.thisMsgType.value))
    else if v.IsError() then Error
    else if v.IsP4() then P4
    else Discard
  }

  /** The control-direction switch: flow-mods and flow-removed share a handler, unlisted types go to misc. */
  lemma ControlDispatch(t: OpenFlow.MsgType)
    ensures ControlHandlerOf(t) == FlowMod <==> t == OpenFlow.FLOW_MOD || t == OpenFlow.FLOW_REMOVED
    ensures ControlHandlerOf(t) == Misc <==> t !in ControlCases
    ensures ControlHandlerOf(t) !in {Error, P4, Discard, PacketOut}
  {
  }

  /** Apart from the flow-mod/flow-removed pair, distinct listed types reach distinct handlers. */
  lemma ControlDispatchInjective(t1: OpenFlow.MsgType, t2: OpenFlow.MsgType)
    requires t1 in ControlCases && t2 in ControlCases && t1 != t2
    requires {t1, t2} != {OpenFlow.FLOW_MOD, OpenFlow.FLOW_REMOVED}
    ensures ControlHandlerOf(t1) != ControlHandlerOf(t2)
  {
  }

  /** The data-direction switch: unlisted types go to misc, and distinct listed types to distinct handlers. */
  lemma DataDispatch(t1: OpenFlow.MsgType, t2: OpenFlow.MsgType)
    ensures DataHandlerOf(t1) == Misc <==> t1 !in DataCases
    ensures DataHandlerOf(t1) !in {Error, P4, Discard, PacketIn}
    ensures t1 in DataCases && t2 in DataCases && t1 != t2 ==> DataHandlerOf(t1) != DataHandlerOf(t2)
  {
  }

  /** A message without an OpenFlow type goes to the error handler, the P4 handler, or nowhere. */
  lemma UntypedDispatch(dir: Direction, v: Messages.MsgView)
    requires v.thisMsgType.None?
    ensures HandlerFor(dir, v) == Error <==> v.IsError()
    ensures HandlerFor(dir, v) == P4 <==> v.IsP4()
    ensures HandlerFor(dir, v) == Discard <==> v.IsOpenFlow()
  {
  }

  /** A typed message is dispatched by its type alone, and is never dropped. */
  lemma TypedDispatch(dir: Direction, v: Messages.MsgView, w: Messages.MsgView)
    requires v.thisMsgType.Some? && v.thisMsgType == w.thisMsgType
    ensures HandlerFor(dir, v) == HandlerFor(dir, w)
    ensures HandlerFor(dir, v) !in {Error, P4, Discard}
  {
    ControlDispatch(v.thisMsgType.value);
    DataDispatch(v.thisMsgType.value, v.thisMsgType.value);
  }

  /** Which way a device-type filter sends a message. */
  datatype Route = Dispatch(handler: Handler) | PassThrough

  /**
   * BaseOFApplication (own == OPENFLOW) and BaseP4Application (own ==
   * P4_NETRONOME): a message about a device of the stage's own kind goes
   * through the stage's dispatch; any other, including one whose dataplane id
   * no endpoint knows, is handed on untouched to the neighbour's entry point.
   */
  function FilterRoute(own: Config.LowerLayerType, eps: seq<Config.LowerLayerEndpointConfig>,
                       dir: Direction, v: Messages.MsgView): (r: Route)
  {
    if Registry.LowerEndpointTypeById(eps, v.dataplaneId) == Some(own) then Dispatch(HandlerFor(dir, v))
    else PassThrough
  }

  lemma FilterRouteMeaning(own: Config.LowerLayerType, eps: seq<Config.LowerLayerEndpointConfig>,
                           dir: Direction, v: Messages.MsgView)
    ensures FilterRoute(own, eps, dir, v).Dispatch?
            <==> exists e, sw :: e in eps && sw in e.switches && sw.dataplaneId == v.dataplaneId
                                 && e == Registry.LowerEndpointById(eps, v.dataplaneId).value && e.kind == own
    ensures Config.SwitchById(eps, v.dataplaneId).None? ==> FilterRoute(own, eps, dir, v) == PassThrough
    ensures FilterRoute(own, eps, dir, v).Dispatch? ==> FilterRoute(own, eps, dir, v).handler == HandlerFor(dir, v)
  {
    Registry.EndpointFoundIffSwitchConfigured(eps, v.dataplaneId);
  }

  /** For a known device exactly one of the two filters dispatches; for an unknown one neither does. */
  lemma FiltersPartitionDevices(eps: seq<Config.LowerLayerEndpointConfig>, dir: Direction, v: Messages.MsgView)
    ensures Config.SwitchById(eps, v.dataplaneId).Some?
            ==> (FilterRoute(Config.OPENFLOW, eps, dir, v).Dispatch? <==> FilterRoute(Config.P4_NETRONOME, eps, dir, v).PassThrough?)
    ensures Config.SwitchById(eps, v.dataplaneId).None?
            ==> FilterRoute(Config.OPENFLOW, eps, dir, v).PassThrough? && FilterRoute(Config.P4_NETRONOME, eps, dir, v).PassThrough?
  {
    Registry.EndpointFoundIffSwitchConfigured(eps, v.dataplaneId);
    var found := Registry.LowerEndpointTypeById(eps, v.dataplaneId);
    if found.Some? {
      assert found.value == Config.OPENFLOW || found.value == Config.P4_NETRONOME;
    }
  }

  datatype StageKind = ControllerLayer | DataLayer | App(app: Config.ApplicationType)

  /** The data-plane neighbour of a stage, if there is a stage. */
  function DataOf(c: Stage?): Stage?
    reads c
  {
    if c == null then null else c.data
  }

  class Stage {
    const kind: StageKind
    /** `controlPlaneConnector`: the next stage towards the controller. */
    var control: Stage?
    /** `dataPlaneConnector`: the next stage towards the devices. */
    var data: Stage?
    /** The messages this stage has handed to a neighbour's entry point, with the direction. */
    var handedOn: seq<(Direction, Messages.TVMessage)>

    function Neighbour(dir: Direction): Stage?
      reads this
    {
      if dir == ToControlPlane then control else data
    }

    /**
     * `setSuccessingControlPlaneConnector`: links back from c unless c already
     * points here. Nothing else changes; in particular the stage that c
     * pointed at before keeps its (now one-sided) link to c.
     */
    method SetControl(c: Stage?)
      modifies this, c
      decreases if c != null && c.data != this then 1 else 0
      ensures control == c
      ensures c != null ==> c.data == this
      ensures c != this ==> data == old(data)
      ensures c != null && c != this ==> c.control == old(c.control)
      ensures handedOn == old(handedOn) && (c != null ==> c.handedOn == old(c.handedOn))
    {
      control := c;
      if c != null && c.data != this {
        c.SetData(this);
      }
    }

    /** `setSuccessingDataPlaneConnector`: the mirror image of SetControl. */
    method SetData(d: Stage?)
      modifies this, d
      decreases if d != null && d.control != this then 1 else 0
      ensures data == d
      ensures d != null ==> d.control == this
      ensures d != this ==> control == old(control)
      ensures d != null && d != this ==> d.data == old(d.data)
      ensures handedOn == old(handedOn) && (d != null ==> d.handedOn == old(d.handedOn))
    {
      data := d;
      if d != null && d.control != this {
        d.SetControl(this);
      }
    }

    /**
     * `BaseApplication(c)`: the new stage takes over c's data-plane neighbour
     * and sits between the two, with all four links pointing at it.
     */
    constructor (kind: StageKind, c: Stage?)
      modifies c, DataOf(c)
      ensures this.kind == kind && control == c && handedOn == []
      ensures c == null ==> data == null
      ensures c != null ==> c.data == this && data == old(c.data) && c.handedOn == old(c.handedOn)
      ensures c != null && old(c.data) != c ==> c.control == old(c.control)
      ensures c != null && old(c.data) != null && old(c.data) != c
              ==> old(c.data).control == this && old(c.data).data == old(c.data.data)
                  && old(c.data).handedOn == old(c.data.handedOn)
    {
      this.kind := kind;
      control := null;
      data := null;
      handedOn := [];
      new;
      if c != null {
        SetData(c.data);
      }
      SetControl(c);
    }

    /** The default handler: hand the same message on to the neighbour in the same direction. */
    method PassOn(dir: Direction, m: Messages.TVMessage) returns (r: Outcome)
      modifies this`handedOn
      ensures Neighbour(dir) == null ==> r == Fail(NullPointer) && handedOn == old(handedOn)
      ensures Neighbour(dir) != null ==> r == Pass && handedOn == old(handedOn) + [(dir, m)]
    {
      if Neighbour(dir) == null {
        return Fail(NullPointer);
      }
      handedOn := handedOn + [(dir, m)];
      return Pass;
    }

    /**
     * `allToControlPlane` / `allToDataPlane` of a stage that keeps every
     * default handler: every dispatched message is handed on, once and
     * unchanged; only an untyped OpenFlow message is dropped.
     */
    method AllTo(dir: Direction, m: Messages.TVMessage) returns (r: Outcome)
      modifies this`handedOn
      ensures HandlerFor(dir, m.View()) == Discard ==> r == Pass && handedOn == old(handedOn)
      ensures HandlerFor(dir, m.View()) != Discard && Neighbour(dir) == null
              ==> r == Fail(NullPointer) && handedOn == old(handedOn)
      ensures HandlerFor(dir, m.View()) != Discard && Neighbour(dir) != null
              ==> r == Pass && handedOn == old(handedOn) + [(dir, m)]
    {
      var h := HandlerFor(dir, m.View());
      if h == Discard {
        return Pass;
      }
      r := PassOn(dir, m);
    }

    /**
     * OneTransparentSwitchApplication's `allToDataPlane`: address the message
     * to the first connected device in the socket map's key order (left as
     * it is when none is connected), then dispatch it.
     */
    method OneTransparentToDataPlane(m: Messages.TVMessage, socketIds: seq<int>) returns (r: Outcome)
      modifies this`handedOn, m
      ensures socketIds != [] ==> m.dataplaneId == socketIds[0]
      ensures socketIds == [] ==> m.dataplaneId == old(m.dataplaneId)
      ensures m.View() == old(m.View()).(dataplaneId := m.dataplaneId)
      ensures HandlerFor(ToDataPlane, m.View()) == Discard ==> r == Pass && handedOn == old(handedOn)
      ensures HandlerFor(ToDataPlane, m.View()) != Discard && data != null
              ==> r == Pass && handedOn == old(handedOn) + [(ToDataPlane, m)]
      ensures HandlerFor(ToDataPlane, m.View()) != Discard && data == null
              ==> r == Fail(NullPointer) && handedOn == old(handedOn)
    {
      if socketIds != [] {
        m.SetDataplaneId(socketIds[0]);
      }
      r := AllTo(ToDataPlane, m);
    }
  }

  /** The stages enabled by the configuration, in declaration order, minus those that cannot be built. */
  function EnabledApps(applications: Option<set<Config.ApplicationType>>, fails: set<Config.ApplicationType>,
                       order: seq<Config.ApplicationType>): (r: seq<Config.ApplicationType>)
    ensures forall t :: t in r <==> t in order && applications.Some? && t in applications.value && t !in fails
    ensures |r| <= |order|
  {
    if order == [] then []
    else
      var rest := EnabledApps(applications, fails, order[..|order| - 1]);
      var t := order[|order| - 1];
      assert forall u :: u in order <==> u in order[..|order| - 1] || u == t;
      if applications.Some? && t in applications.value && t !in fails then rest + [t] else rest
  }

  /** The stages of a chain carry, top to bottom, the controller layer, the given applications, and the data layer. */
  ghost predicate KindsAre(ns: seq<Stage>, apps: seq<Config.ApplicationType>)
  {
    && |ns| == |apps| + 2
    && ns[0].kind == ControllerLayer
    && ns[|ns| - 1].kind == DataLayer
    && (forall i :: 0 <= i < |apps| ==> ns[i + 1].kind == App(apps[i]))
  }

  /** A doubly-linked chain: neighbours point at each other, and both ends are open. */
  ghost predicate Chain(ns: seq<Stage>)
    reads set i | 0 <= i < |ns| :: ns[i]
  {
    && |ns| >= 2
    && ns[0].control == null
    && ns[|ns| - 1].data == null
    && (forall i :: 0 <= i < |ns| - 1 ==> ns[i].data == ns[i + 1] && ns[i + 1].control == ns[i])
    && (forall i, j :: 0 <= i < j < |ns| ==> ns[i] != ns[j])
  }

  /**
   * The chain assembly of `TableVisor.start`: the controller layer, the data
   * layer spliced below it, then each enabled application type in declaration
   * order spliced in below the previous one. `fails` names the types whose
   * reflective construction throws; they are logged and skipped.
   */
  method AssembleChain(applications: Option<set<Config.ApplicationType>>, fails: set<Config.ApplicationType>)
    returns (top: Stage, bottom: Stage, ghost nodes: seq<Stage>)
    ensures Chain(nodes) && nodes[0] == top && nodes[|nodes| - 1] == bottom
    ensures KindsAre(nodes, EnabledApps(applications, fails, Config.ApplicationOrder))
    ensures forall x :: x in nodes ==> fresh(x)
    ensures forall i :: 0 <= i < |nodes| ==> nodes[i].handedOn == []
  {
    top, bottom, nodes := TwoLayers();
    var previous := top;
    ghost var built: seq<Config.ApplicationType> := [];
    var k := 0;
    while k < |Config.ApplicationOrder|
      invariant 0 <= k <= |Config.ApplicationOrder|
      invariant Chain(nodes) && nodes[0] == top && nodes[|nodes| - 1] == bottom && previous == nodes[|nodes| - 2]
      invariant built == EnabledApps(applications, fails, Config.ApplicationOrder[..k])
      invariant KindsAre(nodes, built)
      invariant forall x :: x in nodes ==> fresh(x)
      invariant forall i :: 0 <= i < |nodes| ==> nodes[i].handedOn == []
    {
      previous, nodes, built := AddIfEnabled(applications, fails, k, previous, nodes, built);
      k := k + 1;
    }
    assert Config.ApplicationOrder[..k] == Config.ApplicationOrder;
  }

  /** One round of the assembly: the application at position `k` of the fixed order is spliced in when it is enabled. */
  method AddIfEnabled(applications: Option<set<Config.ApplicationType>>, fails: set<Config.ApplicationType>, k: nat,
                      previous: Stage, ghost nodes: seq<Stage>, ghost built: seq<Config.ApplicationType>)
    returns (previous': Stage, ghost nodes': seq<Stage>, ghost built': seq<Config.ApplicationType>)
    requires k < |Config.ApplicationOrder|
    requires Chain(nodes) && previous == nodes[|nodes| - 2]
    requires built == EnabledApps(applications, fails, Config.ApplicationOrder[..k])
    requires KindsAre(nodes, built)
    requires forall i :: 0 <= i < |nodes| ==> nodes[i].handedOn == []
    modifies previous, nodes[|nodes| - 1]
    ensures Chain(nodes') && nodes'[0] == nodes[0] && nodes'[|nodes'| - 1] == nodes[|nodes| - 1] && previous' == nodes'[|nodes'| - 2]
    ensures built' == EnabledApps(applications, fails, Config.ApplicationOrder[..k + 1])
    ensures KindsAre(nodes', built')
    ensures forall x :: x in nodes' ==> x in nodes || fresh(x)
    ensures forall i :: 0 <= i < |nodes'| ==> nodes'[i].handedOn == []
  {
    var t := Config.ApplicationOrder[k];
    EnabledAppsStep(applications, fails, Config.ApplicationOrder, k);
    if applications.Some? && t in applications.value && t !in fails {
      previous', nodes' := SpliceIn(t, previous, nodes, built);
      built' := built + [t];
    } else {
      previous', nodes', built' := previous, nodes, built;
    }
  }

  /** The first two stages of the assembly: the controller layer, and the data layer linked below it. */
  method TwoLayers() returns (top: Stage, bottom: Stage, ghost nodes: seq<Stage>)
    ensures nodes == [top, bottom] && Chain(nodes) && KindsAre(nodes, [])
    ensures fresh(top) && fresh(bottom) && top.handedOn == [] && bottom.handedOn == []
  {
    top := new Stage(ControllerLayer, null);
    bottom := new Stage(DataLayer, top);
    nodes := [top, bottom];
  }

  /** Splicing a stage of kind App(t) in above the data layer appends t to the chain's applications. */
  lemma KindsSplice(before: seq<Stage>, s: Stage, built: seq<Config.ApplicationType>, t: Config.ApplicationType)
    requires KindsAre(before, built) && s.kind == App(t)
    ensures KindsAre(before[..|before| - 1] + [s, before[|before| - 1]], built + [t])
  {
    var after := before[..|before| - 1] + [s, before[|before| - 1]];
    forall i | 0 <= i < |built| + 1 ensures after[i + 1].kind == App((built + [t])[i]) {
      if i < |built| { assert after[i + 1] == before[i + 1]; }
    }
  }

  lemma EnabledAppsStep(applications: Option<set<Config.ApplicationType>>, fails: set<Config.ApplicationType>,
                        order: seq<Config.ApplicationType>, k: nat)
    requires k < |order|
    ensures EnabledApps(applications, fails, order[..k + 1])
            == EnabledApps(applications, fails, order[..k])
               + (if applications.Some? && order[k] in applications.value && order[k] !in fails then [order[k]] else [])
  {
    assert order[..k + 1][..k] == order[..k];
  }

  /** One step of the assembly: a stage for application t built on the one above the data layer. */
  method SpliceIn(t: Config.ApplicationType, previous: Stage, ghost before: seq<Stage>, ghost built: seq<Config.ApplicationType>)
    returns (s: Stage, ghost after: seq<Stage>)
    requires Chain(before) && previous == before[|before| - 2] && KindsAre(before, built)
    modifies previous, before[|before| - 1]
    ensures fresh(s) && s.kind == App(t) && s.handedOn == []
    ensures KindsAre(after, built + [t])
    ensures after == before[..|before| - 1] + [s, before[|before| - 1]]
    ensures Chain(after)
    ensures forall i :: 0 <= i < |before| ==> before[i].handedOn == old(before[i].handedOn)
    ensures forall x :: x in after ==> x == s || x in before
    ensures after[0] == before[0] && after[|after| - 1] == before[|before| - 1] && after[|after| - 2] == s
    ensures (forall i :: 0 <= i < |before| ==> before[i].handedOn == [])
            ==> forall i :: 0 <= i < |after| ==> after[i].handedOn == []
  {
    var n := |before|;
    var bottom := before[n - 1];
    s := new Stage(App(t), previous);
    after := before[..n - 1] + [s, bottom];
    assert after[n - 2] == previous && after[n - 1] == s && after[n] == bottom;
    forall i | 0 <= i < n - 2
      ensures after[i] == before[i] && after[i].data == old(before[i].data) && after[i].control == old(before[i].control)
    {
      assert before[i] != previous && before[i] != bottom;
    }
    forall i | 0 <= i < |after| - 1
      ensures after[i].data == after[i + 1] && after[i + 1].control == after[i]
    {
      if i < n - 3 {
        assert after[i + 1] == before[i + 1];
      }
    }
    forall i, j | 0 <= i < j < |after|
      ensures after[i] != after[j]
    {
      if j < n - 1 {
        assert after[i] == before[i] && after[j] == before[j];
      } else if j == n {
        assert after[i] == before[i] || after[i] == s;
      }
    }
    if n == 2 {
      assert after[0] == previous;
    } else {
      assert after[0] == before[0];
    }
    forall i | 0 <= i < |after| ensures after[i] == s || after[i] in before {
      if i < n - 1 { assert after[i] == before[i]; }
      else if i == n { assert after[i] == before[n - 1]; }
    }
    KindsSplice(before, s, built, t);
  }
}

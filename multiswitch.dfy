/**
 * MultiSwitchApplication: the stage that makes a chain of devices look like
 * one switch with many tables. Requests to the devices are sent to each of
 * them; their replies are gathered until every device has answered and
 * then merged into one reply. Table ids are translated between logical and
 * physical, and jumps between devices become outputs on the links.
 */
module MultiSwitch {
  import opened Wrappers
  import opened OpenFlow
  import opened Config
  import opened Network
  import opened Rounds
  import opened Messages
  import Stages
  import Registry
  import IdPairs
  import JavaInts
  import Merges
  import FlowMods
  import FlowStats
  import Matches

  /** `TableVisor.VERSION`. */
  const VERSION: string := "3.0.0"

  /**
   * The stage's bookkeeping, one round per kind of reply. Each round
   * stands for a Java counter set together with the list and the set it
   * guards (`featuresCounter`, `featuresReplies` and `fearturesCapas`, say).
   */
  datatype RoundState = RoundState(
    features: Gathered<OFMessage, int>,
    config: Gathered<OFMessage, int>,
    portDesc: Gathered<PortDesc, StatsReplyFlag>,
    portStats: Gathered<PortStatsEntry, StatsReplyFlag>,
    groups: Gathered<GroupStatsEntry, StatsReplyFlag>,
    groupDescs: Gathered<GroupDescEntry, StatsReplyFlag>,
    groupFeatures: Gathered<Merges.GroupPart, StatsReplyFlag>,
    tables: Gathered<TableStatsEntry, StatsReplyFlag>,
    meters: Gathered<MeterStats, StatsReplyFlag>,
    meterFeatures: Gathered<MeterFeatures, StatsReplyFlag>,
    flowSeen: set<int>,
    flowStats: seq<FlowStatsEntry>,
    roleSeen: set<int>,
    barrierSeen: set<int>)

  function NoRounds(): RoundState
  {
    RoundState(Empty(), Empty(), Empty(), Empty(), Empty(), Empty(), Empty(), Empty(), Empty(), Empty(), {}, [], {}, {})
  }

  /** The nBuffers of each gathered features reply. */
  function NBuffers(replies: seq<OFMessage>): (xs: seq<int>)
    ensures |xs| == |replies|
    ensures forall i :: 0 <= i < |replies| && replies[i].FeaturesReply? ==> xs[i] == replies[i].nBuffers
  {
    seq(|replies|, i requires 0 <= i < |replies| => if replies[i].FeaturesReply? then replies[i].nBuffers else 0)
  }

  /** The features reply of the emulated switch, built from the gathered replies and capabilities. */
  function MergedFeatures(env: Env, replies: seq<OFMessage>, capabilities: set<int>): OFMessage
  {
    FeaturesReply(
      xid := 0,
      datapathId := env.ourDatapathId,
      nBuffers := Merges.MinNonZero(NBuffers(replies)),
      nTables := JavaInts.ToShort(TableCount(env.eps)),
      auxiliaryId := 0,
      capabilities := capabilities,
      reserved := 0)
  }

  /** One features reply per device, as the handler gathers it. */
  predicate FeaturesReplies(replies: seq<Reply<OFMessage, int>>)
  {
    forall i :: 0 <= i < |replies| ==>
      |replies[i].items| == 1 && replies[i].items[0].FeaturesReply?
      && replies[i].tags == replies[i].items[0].capabilities
  }

  lemma {:induction false} ConcatOfSingletons(replies: seq<Reply<OFMessage, int>>)
    requires FeaturesReplies(replies)
    ensures |ConcatItems(replies)| == |replies|
    ensures forall i :: 0 <= i < |replies| ==> ConcatItems(replies)[i] == replies[i].items[0]
  {
    if replies != [] {
      var p := replies[..|replies| - 1];
      assert FeaturesReplies(p) by {
        forall i | 0 <= i < |p| ensures |p[i].items| == 1 { assert p[i] == replies[i]; }
      }
      ConcatOfSingletons(p);
    }
  }

  lemma {:induction false} UnionTagsMeaning<T, F>(replies: seq<Reply<T, F>>, x: F)
    ensures x in UnionTags(replies) <==> exists i :: 0 <= i < |replies| && x in replies[i].tags
  {
    if replies != [] {
      var p := replies[..|replies| - 1];
      UnionTagsMeaning(p, x);
      if exists i :: 0 <= i < |replies| && x in replies[i].tags {
        var i :| 0 <= i < |replies| && x in replies[i].tags;
        if i < |p| { assert p[i] == replies[i]; }
      }
      if exists i :: 0 <= i < |p| && x in p[i].tags {
        var i :| 0 <= i < |p| && x in p[i].tags;
        assert replies[i] == p[i];
      }
    }
  }

  /**
   * A features round in which each connected device answers once: the
   * reply completing it carries our datapath id, the capabilities some
   * device has, the smallest nonzero buffer count, and the total number of
   * configured tables (as a short).
   */
  lemma FeaturesRoundMerges(env: Env, replies: seq<Reply<OFMessage, int>>, c: int)
    requires DistinctDevices(replies) && FeaturesReplies(replies) && |replies| == |env.socketIds|
    ensures var g := GatherAll(Empty(), replies);
            var m := MergedFeatures(env, g.items, g.tags);
            && AllAnswered(g.seen, env.socketIds)
            && m.datapathId == env.ourDatapathId
            && m.nTables == JavaInts.ToShort(TableCount(env.eps))
            && (c in m.capabilities <==> exists i :: 0 <= i < |replies| && c in replies[i].items[0].capabilities)
            && (m.nBuffers == 0 <==> forall i :: 0 <= i < |replies| ==> replies[i].items[0].nBuffers == 0)
            && (m.nBuffers != 0 ==> exists i :: 0 <= i < |replies| && m.nBuffers == replies[i].items[0].nBuffers)
            && (forall i :: 0 <= i < |replies| && replies[i].items[0].nBuffers != 0 ==> m.nBuffers <= replies[i].items[0].nBuffers)
  {
    GatherDistinct(replies);
    ConcatOfSingletons(replies);
    UnionTagsMeaning(replies, c);
    var xs := NBuffers(ConcatItems(replies));
    assert forall i :: 0 <= i < |replies| ==> xs[i] == replies[i].items[0].nBuffers;
  }

  /** A second stage class instance per chain: the rounds it keeps and what it hands on. */
  class MultiSwitchApplication {
    var rounds: RoundState
    /** The messages handed to the neighbouring stages, in order, with their direction. */
    var handedOn: seq<(Stages.Direction, MsgView)>

    constructor()
      ensures rounds == NoRounds() && handedOn == []
    {
      rounds := NoRounds();
      handedOn := [];
    }

    /** `switchFeaturesToControlPlane`. */
    method SwitchFeaturesToControlPlane(env: Env, tv: MsgView) returns (r: Outcome)
      modifies this
      ensures tv.ofMessage.None? ==> r == Fail(NullPointer)
      ensures tv.ofMessage.Some? && !tv.ofMessage.value.FeaturesReply? ==> r == Fail(ClassCast)
      ensures r.Fail? ==> rounds == old(rounds) && handedOn == old(handedOn)
      ensures r.Pass? ==>
        && tv.ofMessage.Some? && tv.ofMessage.value.FeaturesReply?
        && var m := tv.ofMessage.value;
           var g := Gather(old(rounds).features, tv.dataplaneId, [m], m.capabilities);
           && rounds == old(rounds).(features := Advance(g, env.socketIds))
           && handedOn == old(handedOn) + if AllAnswered(g.seen, env.socketIds)
                then [(Stages.ToControlPlane, NewView(MergedFeatures(env, g.items, g.tags), tv.dataplaneId))]
                else []
    {
      if tv.ofMessage.None? {
        return Fail(NullPointer);
      }
      var reply := tv.ofMessage.value;
      if !reply.FeaturesReply? {
        return Fail(ClassCast);
      }
      var g := rounds.features;
      if tv.dataplaneId !in g.seen {
        g := Gathered(g.seen + {tv.dataplaneId}, g.items + [reply], g.tags + reply.capabilities);
      }
      if AllAnswered(g.seen, env.socketIds) {
        var featuresReply := MergedFeatures(env, g.items, g.tags);
        handedOn := handedOn + [(Stages.ToControlPlane, NewView(featuresReply, tv.dataplaneId))];
        g := Empty();
      }
      rounds := rounds.(features := g);
      return Pass;
    }

    /** `switchGetConfigToControlPlane`: flags united; xid and miss-send length from the completing reply. */
    method SwitchGetConfigToControlPlane(env: Env, tv: MsgView) returns (r: Outcome)
      modifies this
      ensures tv.ofMessage.None? ==> r == Fail(NullPointer)
      ensures tv.ofMessage.Some? && !tv.ofMessage.value.GetConfigReply? ==> r == Fail(ClassCast)
      ensures r.Fail? ==> rounds == old(rounds) && handedOn == old(handedOn)
      ensures r.Pass? ==>
        && tv.ofMessage.Some? && tv.ofMessage.value.GetConfigReply?
        && var m := tv.ofMessage.value;
           var g := Gather(old(rounds).config, tv.dataplaneId, [], m.configFlags);
           && rounds == old(rounds).(config := Advance(g, env.socketIds))
           && handedOn == old(handedOn) + if AllAnswered(g.seen, env.socketIds)
                then [(Stages.ToControlPlane, NewView(GetConfigReply(m.xid, g.tags, m.missSendLen), tv.dataplaneId))]
                else []
    {
      if tv.ofMessage.None? {
        return Fail(NullPointer);
      }
      var reply := tv.ofMessage.value;
      if !reply.GetConfigReply? {
        return Fail(ClassCast);
      }
      var g := rounds.config;
      if tv.dataplaneId !in g.seen {
        g := Gathered(g.seen + {tv.dataplaneId}, g.items + [], g.tags + reply.configFlags);
      }
      if AllAnswered(g.seen, env.socketIds) {
        var confReply := GetConfigReply(reply.xid, g.tags, reply.missSendLen);
        handedOn := handedOn + [(Stages.ToControlPlane, NewView(confReply, tv.dataplaneId))];
        g := Empty();
      }
      rounds := rounds.(config := g);
      return Pass;
    }

    /** `roleToControlPlane`: the reply that completes the round is passed on as it is. */
    method RoleToControlPlane(env: Env, tv: MsgView)
      modifies this
      ensures var seen := old(rounds).roleSeen + {tv.dataplaneId};
              && rounds == old(rounds).(roleSeen := if AllAnswered(seen, env.socketIds) then {} else seen)
              && handedOn == old(handedOn) + if AllAnswered(seen, env.socketIds) then [(Stages.ToControlPlane, tv)] else []
    {
      var roleCounter := rounds.roleSeen + {tv.dataplaneId};
      if AllAnswered(roleCounter, env.socketIds) {
        handedOn := handedOn + [(Stages.ToControlPlane, tv)];
        roleCounter := {};
      }
      rounds := rounds.(roleSeen := roleCounter);
    }

    /** `barrierToControlPlane`: the reply that completes the round is passed on as it is. */
    method BarrierToControlPlane(env: Env, tv: MsgView)
      modifies this
      ensures var seen := old(rounds).barrierSeen + {tv.dataplaneId};
              && rounds == old(rounds).(barrierSeen := if AllAnswered(seen, env.socketIds) then {} else seen)
              && handedOn == old(handedOn) + if AllAnswered(seen, env.socketIds) then [(Stages.ToControlPlane, tv)] else []
    {
      var barrierCounter := rounds.barrierSeen + {tv.dataplaneId};
      if AllAnswered(barrierCounter, env.socketIds) {
        handedOn := handedOn + [(Stages.ToControlPlane, tv)];
        barrierCounter := {};
      }
      rounds := rounds.(barrierSeen := barrierCounter);
    }

    /**
     * `sendToAllSwitches`, which every request handler towards the devices
     * calls: one copy per connection, addressed to its dataplane id.
     */
    method SendToAllSwitches(env: Env, tv: MsgView) returns (r: Outcome)
      modifies this
      ensures rounds == old(rounds)
      ensures r.Fail? <==> env.socketIds != [] && tv.ofMessage.None?
      ensures r.Fail? ==> r.error == NullPointer && handedOn == old(handedOn)
      ensures r.Pass? ==> |handedOn| == |old(handedOn)| + |env.socketIds|
                          && handedOn[..|old(handedOn)|] == old(handedOn)
                          && forall i :: 0 <= i < |env.socketIds| ==>
                               handedOn[|old(handedOn)| + i] == (Stages.ToDataPlane, CopyWithDpIdView(tv, env.socketIds[i]))
    {
      var i := 0;
      while i < |env.socketIds|
        invariant 0 <= i <= |env.socketIds|
        invariant rounds == old(rounds)
        invariant i > 0 ==> tv.ofMessage.Some?
        invariant |handedOn| == |old(handedOn)| + i
        invariant handedOn[..|old(handedOn)|] == old(handedOn)
        invariant forall k :: 0 <= k < i ==> handedOn[|old(handedOn)| + k] == (Stages.ToDataPlane, CopyWithDpIdView(tv, env.socketIds[k]))
      {
        if tv.ofMessage.None? {
          return Fail(NullPointer);
        }
        handedOn := handedOn + [(Stages.ToDataPlane, CopyWithDpIdView(tv, env.socketIds[i]))];
        i := i + 1;
      }
      return Pass;
    }

    /** `tableModToDataPlane`: sent to the device and physical table behind the logical table. */
    method TableModToDataPlane(env: Env, tv: MsgView) returns (r: Outcome)
      requires env.Valid()
      modifies this
      ensures rounds == old(rounds)
      ensures tv.ofMessage.None? ==> r == Fail(NullPointer)
      ensures tv.ofMessage.Some? && !tv.ofMessage.value.TableMod? ==> r == Fail(ClassCast)
      ensures r.Fail? ==> handedOn == old(handedOn)
      ensures r.Pass? ==>
        && tv.ofMessage.Some? && tv.ofMessage.value.TableMod?
        && var m := tv.ofMessage.value;
           var dest := Registry.OurTableIdToSwitchId(env.maps, m.tableId);
           && handedOn == old(handedOn) + [(Stages.ToDataPlane, NewView(TableMod(m.xid, dest.tableId, m.tableConfig), dest.dataplaneId))]
           && (m.tableId in env.maps.forward ==> dest == env.maps.forward[m.tableId])
           && (m.tableId !in env.maps.forward ==> dest.dataplaneId == -1 && dest.tableId == 0)
    {
      if tv.ofMessage.None? {
        return Fail(NullPointer);
      }
      var tableMod := tv.ofMessage.value;
      if !tableMod.TableMod? {
        return Fail(ClassCast);
      }
      var dest := Registry.OurTableIdToSwitchId(env.maps, tableMod.tableId);
      handedOn := handedOn + [(Stages.ToDataPlane, NewView(TableMod(tableMod.xid, dest.tableId, tableMod.tableConfig), dest.dataplaneId))];
      return Pass;
    }

    /**
     * `flowModToControlPlane` (a flow-removed message): the physical table
     * becomes the logical table registered for it; none registered is a
     * null dereference.
     */
    method FlowModToControlPlane(env: Env, tv: MsgView) returns (r: Outcome)
      requires env.Valid()
      modifies this
      ensures rounds == old(rounds)
      ensures tv.ofMessage.None? ==> r == Fail(NullPointer)
      ensures tv.ofMessage.Some? && !tv.ofMessage.value.FlowRemoved? ==> r == Fail(ClassCast)
      ensures tv.ofMessage.Some? && tv.ofMessage.value.FlowRemoved? ==>
                (r.Fail? <==> IdPairs.FromInt(tv.dataplaneId, tv.ofMessage.value.tableId) !in env.maps.reverse)
      ensures r.Fail? ==> handedOn == old(handedOn)
      ensures r.Pass? ==>
        && tv.ofMessage.Some? && tv.ofMessage.value.FlowRemoved?
        && var m := tv.ofMessage.value;
           exists t :: && t in env.maps.forward && env.maps.forward[t] == IdPairs.FromInt(tv.dataplaneId, m.tableId)
                       && handedOn == old(handedOn) + [(Stages.ToControlPlane,
                            NewView(FlowRemoved(m.xid, t, m.cookie, m.priority), tv.dataplaneId))]
    {
      if tv.ofMessage.None? {
        return Fail(NullPointer);
      }
      var rmv := tv.ofMessage.value;
      if !rmv.FlowRemoved? {
        return Fail(ClassCast);
      }
      var ids := Registry.SwitchIdToOurTableId(env.maps, tv.dataplaneId, rmv.tableId);
      if ids == [] {
        return Fail(NullPointer);
      }
      assert ids[0] in ids;
      handedOn := handedOn + [(Stages.ToControlPlane, NewView(FlowRemoved(rmv.xid, ids[0], rmv.cookie, rmv.priority), tv.dataplaneId))];
      return Pass;
    }

    /** `packetInToControlPlane`: the same translation as for flow-removed messages. */
    method PacketInToControlPlane(env: Env, tv: MsgView) returns (r: Outcome)
      requires env.Valid()
      modifies this
      ensures rounds == old(rounds)
      ensures tv.ofMessage.None? ==> r == Fail(NullPointer)
      ensures tv.ofMessage.Some? && !tv.ofMessage.value.PacketIn? ==> r == Fail(ClassCast)
      ensures tv.ofMessage.Some? && tv.ofMessage.value.PacketIn? ==>
                (r.Fail? <==> IdPairs.FromInt(tv.dataplaneId, tv.ofMessage.value.tableId) !in env.maps.reverse)
      ensures r.Fail? ==> handedOn == old(handedOn)
      ensures r.Pass? ==>
        && tv.ofMessage.Some? && tv.ofMessage.value.PacketIn?
        && var m := tv.ofMessage.value;
           exists t :: && t in env.maps.forward && env.maps.forward[t] == IdPairs.FromInt(tv.dataplaneId, m.tableId)
                       && handedOn == old(handedOn) + [(Stages.ToControlPlane,
                            NewView(PacketIn(m.xid, t, m.bufferId, m.payload), tv.dataplaneId))]
    {
      if tv.ofMessage.None? {
        return Fail(NullPointer);
      }
      var packIn := tv.ofMessage.value;
      if !packIn.PacketIn? {
        return Fail(ClassCast);
      }
      var ids := Registry.SwitchIdToOurTableId(env.maps, tv.dataplaneId, packIn.tableId);
      if ids == [] {
        return Fail(NullPointer);
      }
      assert ids[0] in ids;
      handedOn := handedOn + [(Stages.ToControlPlane, NewView(PacketIn(packIn.xid, ids[0], packIn.bufferId, packIn.payload), tv.dataplaneId))];
      return Pass;
    }

    /** `packetOutToDataPlane`: the message itself is readdressed to the device of logical table 0 and passed on. */
    method PacketOutToDataPlane(env: Env, tv: TVMessage)
      requires env.Valid()
      modifies this, tv
      ensures rounds == old(rounds)
      ensures var pair := Registry.OurTableIdToSwitchId(env.maps, 0);
              && tv.View() == old(tv.View()).(dataplaneId := pair.dataplaneId)
              && handedOn == old(handedOn) + [(Stages.ToDataPlane, tv.View())]
              && (0 in env.maps.forward ==> pair.dataplaneId == env.maps.forward[0].dataplaneId)
    {
      var pair := Registry.OurTableIdToSwitchId(env.maps, 0);
      tv.SetDataplaneId(pair.dataplaneId);
      handedOn := handedOn + [(Stages.ToDataPlane, tv.View())];
    }

    /** `flowModToDataPlane`: the translated flow-mod goes to the device behind its logical table. */
    method FlowModToDataPlane(env: Env, tv: MsgView) returns (r: Outcome)
      requires env.Valid()
      requires tv.ofMessage.Some? && tv.ofMessage.value.FlowMod? ==> Matches.UniqueFields(tv.ofMessage.value.flowMatch)
      modifies this
      ensures rounds == old(rounds)
      ensures tv.ofMessage.None? ==> r == Fail(NullPointer)
      ensures tv.ofMessage.Some? && !tv.ofMessage.value.FlowMod? ==> r == Fail(ClassCast)
      ensures r.Fail? ==> handedOn == old(handedOn)
      ensures r.Pass? ==>
        && tv.ofMessage.Some? && tv.ofMessage.value.FlowMod?
        && var m := tv.ofMessage.value;
           var dest := Registry.OurTableIdToSwitchId(env.maps, m.tableId);
           var insts := FlowMods.RewriteInstructions(env, dest, m.instructions);
           && insts.Ok?
           && handedOn == old(handedOn) + [(Stages.ToDataPlane, NewView(
                FlowMod(m.xid, m.command, m.cookie, m.cookieMask, dest.tableId,
                        m.idleTimeout, m.hardTimeout, m.priority, m.bufferId, m.flowFlags,
                        if m.tableId == env.topo.maxTableId
                        then Matches.SetEntry(m.flowMatch, MatchEntry(IN_PORT, FlowMods.PinnedInPort(env, dest.dataplaneId), None))
                        else m.flowMatch,
                        insts.value),
                dest.dataplaneId))]
      ensures tv.ofMessage.Some? && tv.ofMessage.value.FlowMod? ==>
                (r.Fail? <==> FlowMods.RewriteInstructions(env, Registry.OurTableIdToSwitchId(env.maps, tv.ofMessage.value.tableId), tv.ofMessage.value.instructions).Err?)
    {
      if tv.ofMessage.None? {
        return Fail(NullPointer);
      }
      var flowMod := tv.ofMessage.value;
      if !flowMod.FlowMod? {
        return Fail(ClassCast);
      }
      var out := FlowMods.FlowModToDataPlane(env, flowMod);
      ghost var dest := Registry.OurTableIdToSwitchId(env.maps, flowMod.tableId);
      FlowMods.RewriteFailsOnlyOnLookup(env, dest, flowMod.instructions);
      if out.Err? {
        return Fail(out.error);
      }
      handedOn := handedOn + [(Stages.ToDataPlane, NewView(out.value.0, out.value.1))];
      return Pass;
    }

    /**
     * `switchStatsToControlPlane`, dispatching on the statistics type of
     * the reply (which its body determines).
     */
    method SwitchStatsToControlPlane(env: Env, tv: MsgView) returns (r: Outcome)
      requires env.Valid()
      requires tv.ofMessage.Some? && tv.ofMessage.value.StatsReply? && tv.ofMessage.value.body.FlowBody? ==>
                 forall e :: e in tv.ofMessage.value.body.flowEntries ==> Matches.UniqueFields(e.flowMatch)
      modifies this
      ensures tv.ofMessage.None? ==> r == Fail(NullPointer)
      ensures tv.ofMessage.Some? && !tv.ofMessage.value.StatsReply? ==> r == Fail(ClassCast)
      ensures (tv.ofMessage.None? || !tv.ofMessage.value.StatsReply?) ==> rounds == old(rounds) && handedOn == old(handedOn)
      ensures tv.ofMessage.Some? && tv.ofMessage.value.StatsReply? ==>
                var step := StatsStep(env, old(rounds), tv.dataplaneId, tv.ofMessage.value);
                rounds == step.0 && handedOn == old(handedOn) + step.1 && r == step.2
    {
      if tv.ofMessage.None? {
        return Fail(NullPointer);
      }
      var switchReply := tv.ofMessage.value;
      if !switchReply.StatsReply? {
        return Fail(ClassCast);
      }
      var dp := tv.dataplaneId;
      r := Pass;
      match switchReply.body {
        case PortDescBody(_) => PortDescReply(env, dp, switchReply);
        case PortBody(_) => PortStatsReply(env, dp, switchReply);
        case GroupBody(_) => GroupStatsReply(env, dp, switchReply);
        case GroupDescBody(_) => GroupDescReply(env, dp, switchReply);
        case GroupFeaturesBody(_) => GroupFeaturesReply(env, dp, switchReply);
        case DescBody(_, _, _) => DescReply(env, dp, switchReply);
        case TableBody(_) => TableStatsReply(env, dp, switchReply);
        case MeterBody(_) => MeterStatsReply(env, dp, switchReply);
        case MeterFeaturesBody(_) => MeterFeaturesReply(env, dp, switchReply);
        case FlowBody(_) => r := FlowStatsReply(env, dp, switchReply);
        case OtherBody(_) =>
      }
    }

    /** The PORT_DESC case: the port lists of all devices, concatenated. */
    method PortDescReply(env: Env, dp: int, m: OFMessage)
      requires env.Valid() && m.StatsReply? && m.body.PortDescBody?
      modifies this
      ensures var step := StatsStep(env, old(rounds), dp, m);
              rounds == step.0 && handedOn == old(handedOn) + step.1 && step.2 == Pass
    {
      var g := rounds.portDesc;
      if dp !in g.seen {
        g := Gathered(g.seen + {dp}, g.items + m.body.portDescs, g.tags);
      }
      if AllAnswered(g.seen, env.socketIds) {
        handedOn := handedOn + [(Stages.ToControlPlane, NewView(StatsReply(m.xid, {}, PortDescBody(g.items)), dp))];
        g := Empty();
      }
      rounds := rounds.(portDesc := g);
    }

    /** The PORT case: the port counters of all devices, concatenated. */
    method PortStatsReply(env: Env, dp: int, m: OFMessage)
      requires env.Valid() && m.StatsReply? && m.body.PortBody?
      modifies this
      ensures var step := StatsStep(env, old(rounds), dp, m);
              rounds == step.0 && handedOn == old(handedOn) + step.1 && step.2 == Pass
    {
      var g := rounds.portStats;
      if dp !in g.seen {
        g := Gathered(g.seen + {dp}, g.items + m.body.portEntries, g.tags);
      }
      if AllAnswered(g.seen, env.socketIds) {
        handedOn := handedOn + [(Stages.ToControlPlane, NewView(StatsReply(m.xid, {}, PortBody(g.items)), dp))];
        g := Empty();
      }
      rounds := rounds.(portStats := g);
    }

    /** The GROUP case: entries concatenated, flags united. */
    method GroupStatsReply(env: Env, dp: int, m: OFMessage)
      requires env.Valid() && m.StatsReply? && m.body.GroupBody?
      modifies this
      ensures var step := StatsStep(env, old(rounds), dp, m);
              rounds == step.0 && handedOn == old(handedOn) + step.1 && step.2 == Pass
    {
      var g := rounds.groups;
      if dp !in g.seen {
        g := Gathered(g.seen + {dp}, g.items + m.body.groupEntries, g.tags + m.replyFlags);
      }
      if AllAnswered(g.seen, env.socketIds) {
        handedOn := handedOn + [(Stages.ToControlPlane, NewView(StatsReply(m.xid, g.tags, GroupBody(g.items)), dp))];
        g := Empty();
      }
      rounds := rounds.(groups := g);
    }

    /** The GROUP_DESC case: entries concatenated, flags united. */
    method GroupDescReply(env: Env, dp: int, m: OFMessage)
      requires env.Valid() && m.StatsReply? && m.body.GroupDescBody?
      modifies this
      ensures var step := StatsStep(env, old(rounds), dp, m);
              rounds == step.0 && handedOn == old(handedOn) + step.1 && step.2 == Pass
    {
      var g := rounds.groupDescs;
      if dp !in g.seen {
        g := Gathered(g.seen + {dp}, g.items + m.body.groupDescEntries, g.tags + m.replyFlags);
      }
      if AllAnswered(g.seen, env.socketIds) {
        handedOn := handedOn + [(Stages.ToControlPlane, NewView(StatsReply(m.xid, g.tags, GroupDescBody(g.items)), dp))];
        g := Empty();
      }
      rounds := rounds.(groupDescs := g);
    }

    /** The GROUP_FEATURES case: the replies kept, merged once all are in. */
    method GroupFeaturesReply(env: Env, dp: int, m: OFMessage)
      requires m.StatsReply? && m.body.GroupFeaturesBody?
      modifies this
      ensures var step := GroupFeaturesArm(env.socketIds, old(rounds), dp, m.xid, m.replyFlags, m.body.groupFeatures);
              rounds == step.0 && handedOn == old(handedOn) + step.1
    {
      ghost var arm := GroupFeaturesArm(env.socketIds, rounds, dp, m.xid, m.replyFlags, m.body.groupFeatures);
      var g := rounds.groupFeatures;
      if dp !in g.seen {
        g := Gathered(g.seen + {dp}, g.items + [Merges.GroupPart(m.replyFlags, m.body.groupFeatures)], g.tags);
      }
      ghost var gathered := g;
      assert gathered == Gather(rounds.groupFeatures, dp, [Merges.GroupPart(m.replyFlags, m.body.groupFeatures)], {});
      ghost var reply := StatsReply(m.xid, Merges.GroupFlags(gathered.items), GroupFeaturesBody(Merges.GroupFeaturesMerged(gathered.items)));
      assert arm == (rounds.(groupFeatures := Advance(gathered, env.socketIds)),
                     Report(AllAnswered(gathered.seen, env.socketIds), reply, dp), Pass);
      if AllAnswered(g.seen, env.socketIds) {
        var flags, features := Merges.MergeGroupFeatures(g.items);
        handedOn := handedOn + [(Stages.ToControlPlane, NewView(StatsReply(m.xid, flags, GroupFeaturesBody(features)), dp))];
        g := Empty();
      }
      assert g == Advance(gathered, env.socketIds);
      rounds := rounds.(groupFeatures := g);
    }

    /** The DESC case: answered at once for the emulated switch, after setting up the device's pipeline. */
    method DescReply(env: Env, dp: int, m: OFMessage)
      requires env.Valid() && m.StatsReply? && m.body.DescBody?
      modifies this
      ensures var step := StatsStep(env, old(rounds), dp, m);
              rounds == step.0 && handedOn == old(handedOn) + step.1 && step.2 == Pass
    {
      var ourReply := StatsReply(m.xid, {}, DescBody("Emulated MultiSwitch", VERSION, "TableVisor"));
      InitializePipeline(env, dp);
      handedOn := handedOn + [(Stages.ToControlPlane, NewView(ourReply, dp))];
    }

    /** The TABLE case: each device's entries under their logical table ids, concatenated. */
    method TableStatsReply(env: Env, dp: int, m: OFMessage)
      requires env.Valid() && m.StatsReply? && m.body.TableBody?
      modifies this
      ensures var step := StatsStep(env, old(rounds), dp, m);
              rounds == step.0 && handedOn == old(handedOn) + step.1 && step.2 == Pass
    {
      var g := rounds.tables;
      if dp !in g.seen {
        var adapted := FlowStats.AdaptTableStatsEntries(env, m.body.tableEntries, dp);
        g := Gathered(g.seen + {dp}, g.items + adapted, g.tags);
      }
      if AllAnswered(g.seen, env.socketIds) {
        handedOn := handedOn + [(Stages.ToControlPlane, NewView(StatsReply(m.xid, {}, TableBody(g.items)), dp))];
        g := Empty();
      }
      rounds := rounds.(tables := g);
    }

    /** The METER case: the meter counters of all devices, concatenated. */
    method MeterStatsReply(env: Env, dp: int, m: OFMessage)
      requires env.Valid() && m.StatsReply? && m.body.MeterBody?
      modifies this
      ensures var step := StatsStep(env, old(rounds), dp, m);
              rounds == step.0 && handedOn == old(handedOn) + step.1 && step.2 == Pass
    {
      var g := rounds.meters;
      if dp !in g.seen {
        g := Gathered(g.seen + {dp}, g.items + m.body.meterEntries, g.tags);
      }
      if AllAnswered(g.seen, env.socketIds) {
        handedOn := handedOn + [(Stages.ToControlPlane, NewView(StatsReply(m.xid, {}, MeterBody(g.items)), dp))];
        g := Empty();
      }
      rounds := rounds.(meters := g);
    }

    /** The METER_FEATURES case: the features kept, merged once all are in. */
    method MeterFeaturesReply(env: Env, dp: int, m: OFMessage)
      requires m.StatsReply? && m.body.MeterFeaturesBody?
      modifies this
      ensures var step := MeterFeaturesArm(env.socketIds, old(rounds), dp, m.xid, m.body.meterFeatures);
              rounds == step.0 && handedOn == old(handedOn) + step.1
    {
      ghost var arm := MeterFeaturesArm(env.socketIds, rounds, dp, m.xid, m.body.meterFeatures);
      var g := rounds.meterFeatures;
      if dp !in g.seen {
        g := Gathered(g.seen + {dp}, g.items + [m.body.meterFeatures], g.tags);
      }
      ghost var gathered := g;
      assert gathered == Gather(rounds.meterFeatures, dp, [m.body.meterFeatures], {});
      ghost var reply := StatsReply(m.xid, {}, MeterFeaturesBody(Merges.MeterFeaturesMerged(gathered.items)));
      assert arm == (rounds.(meterFeatures := Advance(gathered, env.socketIds)),
                     Report(AllAnswered(gathered.seen, env.socketIds), reply, dp), Pass);
      if AllAnswered(g.seen, env.socketIds) {
        var feat := Merges.MergeMeterFeatures(g.items);
        handedOn := handedOn + [(Stages.ToControlPlane, NewView(StatsReply(m.xid, {}, MeterFeaturesBody(feat)), dp))];
        g := Empty();
      }
      assert g == Advance(gathered, env.socketIds);
      rounds := rounds.(meterFeatures := g);
    }

    /**
     * The FLOW case: every first reply of a device is answered at once with
     * its adapted entries, marked REPLY_MORE until the round completes. A
     * failure part-way leaves the device counted and what was already
     * adapted in the list.
     */
    method FlowStatsReply(env: Env, dp: int, m: OFMessage) returns (r: Outcome)
      requires env.Valid() && m.StatsReply? && m.body.FlowBody?
      requires forall e :: e in m.body.flowEntries ==> Matches.UniqueFields(e.flowMatch)
      modifies this
      ensures var step := StatsStep(env, old(rounds), dp, m);
              rounds == step.0 && handedOn == old(handedOn) + step.1 && r == step.2
    {
      if dp in rounds.flowSeen {
        return Pass;
      }
      rounds := rounds.(flowSeen := rounds.flowSeen + {dp});
      var parts: Result<(seq<FlowStatsEntry>, seq<FlowStatsEntry>)>;
      if dp == env.topo.smallestDataplaneId {
        parts := SplitFlowEntries(env, m.body.flowEntries, dp);
      } else {
        parts := Ok(([], m.body.flowEntries));
      }
      if parts.Err? {
        return Fail(parts.error);
      }
      var lastTableEntries := FlowStats.AdaptFlowStatsEntries(env, parts.value.0, dp, true);
      if lastTableEntries.Err? {
        return Fail(lastTableEntries.error);
      }
      rounds := rounds.(flowStats := rounds.flowStats + lastTableEntries.value);
      var firstTableEntries := FlowStats.AdaptFlowStatsEntries(env, parts.value.1, dp, false);
      if firstTableEntries.Err? {
        return Fail(firstTableEntries.error);
      }
      rounds := rounds.(flowStats := rounds.flowStats + firstTableEntries.value);
      var ourFlags := m.replyFlags;
      if !AllAnswered(rounds.flowSeen, env.socketIds) {
        ourFlags := ourFlags + {REPLY_MORE};
      } else {
        rounds := rounds.(flowSeen := {});
      }
      handedOn := handedOn + [(Stages.ToControlPlane, NewView(StatsReply(m.xid, ourFlags, FlowBody(rounds.flowStats)), dp))];
      rounds := rounds.(flowStats := []);
      return Pass;
    }

    /** `initializePipeline`: on a middle device, the rule passing traffic from the bigger device on towards the smaller one. */
    method InitializePipeline(env: Env, dp: int)
      modifies this
      ensures rounds == old(rounds)
      ensures handedOn == old(handedOn) + PipelineSetup(env, dp)
    {
      if dp != env.topo.biggestDataplaneId && dp != env.topo.smallestDataplaneId {
        var flowMod := PipelineRule(env, dp);
        handedOn := handedOn + [(Stages.ToDataPlane, NewView(flowMod, dp))];
      }
    }
  }

  /** What a reply hands on: the merged reply once the round is complete, nothing before. */
  function Report(done: bool, reply: OFMessage, dp: int): seq<(Stages.Direction, MsgView)>
  {
    if done then [(Stages.ToControlPlane, NewView(reply, dp))] else []
  }

  /** The flags of a merged FLOW reply: the device's own, plus REPLY_MORE while the round is open. */
  function FlowFlags(flags: set<StatsReplyFlag>, done: bool): set<StatsReplyFlag>
  {
    if done then flags else flags + {REPLY_MORE}
  }

  /** The GROUP_FEATURES arm of StatsStep: the part kept, and the merge once every device has answered. */
  function GroupFeaturesArm(ids: seq<int>, rs: RoundState, dp: int, xid: int, flags: set<StatsReplyFlag>, f: GroupFeatures)
    : (RoundState, seq<(Stages.Direction, MsgView)>, Outcome)
  {
    var g := Gather(rs.groupFeatures, dp, [Merges.GroupPart(flags, f)], {});
    var reply := StatsReply(xid, Merges.GroupFlags(g.items), GroupFeaturesBody(Merges.GroupFeaturesMerged(g.items)));
    (rs.(groupFeatures := Advance(g, ids)), Report(AllAnswered(g.seen, ids), reply, dp), Pass)
  }

  /** The METER_FEATURES arm of StatsStep. */
  function MeterFeaturesArm(ids: seq<int>, rs: RoundState, dp: int, xid: int, f: MeterFeatures)
    : (RoundState, seq<(Stages.Direction, MsgView)>, Outcome)
  {
    var g := Gather(rs.meterFeatures, dp, [f], {});
    var reply := StatsReply(xid, {}, MeterFeaturesBody(Merges.MeterFeaturesMerged(g.items)));
    (rs.(meterFeatures := Advance(g, ids)), Report(AllAnswered(g.seen, ids), reply, dp), Pass)
  }

  /**
   * What one statistics reply from device `dp` does: the rounds after it,
   * the messages it hands on, and its outcome.
   */
  function StatsStep(env: Env, rs: RoundState, dp: int, m: OFMessage): (RoundState, seq<(Stages.Direction, MsgView)>, Outcome)
    requires env.Valid() && m.StatsReply?
  {
    var ids := env.socketIds;
    match m.body
    case PortDescBody(es) =>
      var g := Gather(rs.portDesc, dp, es, {});
      (rs.(portDesc := Advance(g, ids)), Report(AllAnswered(g.seen, ids), StatsReply(m.xid, {}, PortDescBody(g.items)), dp), Pass)
    case PortBody(es) =>
      var g := Gather(rs.portStats, dp, es, {});
      (rs.(portStats := Advance(g, ids)), Report(AllAnswered(g.seen, ids), StatsReply(m.xid, {}, PortBody(g.items)), dp), Pass)
    case GroupBody(es) =>
      var g := Gather(rs.groups, dp, es, m.replyFlags);
      (rs.(groups := Advance(g, ids)), Report(AllAnswered(g.seen, ids), StatsReply(m.xid, g.tags, GroupBody(g.items)), dp), Pass)
    case GroupDescBody(es) =>
      var g := Gather(rs.groupDescs, dp, es, m.replyFlags);
      (rs.(groupDescs := Advance(g, ids)), Report(AllAnswered(g.seen, ids), StatsReply(m.xid, g.tags, GroupDescBody(g.items)), dp), Pass)
    case GroupFeaturesBody(f) => GroupFeaturesArm(ids, rs, dp, m.xid, m.replyFlags, f)
    case DescBody(_, _, _) =>
      (rs, PipelineSetup(env, dp) + [(Stages.ToControlPlane, NewView(StatsReply(m.xid, {}, DescBody("Emulated MultiSwitch", VERSION, "TableVisor")), dp))], Pass)
    case TableBody(es) =>
      var g := Gather(rs.tables, dp, FlowStats.TableStatsAdapted(env, es, dp), {});
      (rs.(tables := Advance(g, ids)), Report(AllAnswered(g.seen, ids), StatsReply(m.xid, {}, TableBody(g.items)), dp), Pass)
    case MeterBody(es) =>
      var g := Gather(rs.meters, dp, es, {});
      (rs.(meters := Advance(g, ids)), Report(AllAnswered(g.seen, ids), StatsReply(m.xid, {}, MeterBody(g.items)), dp), Pass)
    case MeterFeaturesBody(f) => MeterFeaturesArm(ids, rs, dp, m.xid, f)
    case FlowBody(es) =>
      if dp in rs.flowSeen then (rs, [], Pass)
      else
        var seen := rs.flowSeen + {dp};
        var done := AllAnswered(seen, ids);
        var acc := FlowAccumulated(env, rs.flowStats, es, dp);
        if acc.1.Some? then (rs.(flowSeen := seen, flowStats := acc.0), [], Fail(acc.1.value))
        else
          var reply := StatsReply(m.xid, FlowFlags(m.replyFlags, done), FlowBody(acc.0));
          (rs.(flowSeen := if done then {} else seen, flowStats := []), [(Stages.ToControlPlane, NewView(reply, dp))], Pass)
    case OtherBody(_) => (rs, [], Pass)
  }

  // ------------------------------------------------ the FLOW case

  /** An entry with its IN_PORT field taken out of the match. */
  function Stripped(e: FlowStatsEntry): FlowStatsEntry
  {
    e.(flowMatch := Matches.WithoutInPort(e.flowMatch))
  }

  /**
   * The smallest device's entries split by whether their IN_PORT leads
   * back from a bigger device (those belong to the last logical table,
   * their IN_PORT removed) or not.
   */
  function SplitByInPort(env: Env, entries: seq<FlowStatsEntry>, dp: int, last: seq<FlowStatsEntry>, first: seq<FlowStatsEntry>)
    : Result<(seq<FlowStatsEntry>, seq<FlowStatsEntry>)>
    decreases |entries|
  {
    if entries == [] then Ok((last, first))
    else match FlowStats.InPortFromHigherDevice(env, entries[0].flowMatch, dp)
      case Err(e) => Err(e)
      case Ok(true) => SplitByInPort(env, entries[1..], dp, last + [Stripped(entries[0])], first)
      case Ok(false) => SplitByInPort(env, entries[1..], dp, last, first + [entries[0]])
  }

  /** The last-table and first-table entries of a device's FLOW reply. */
  function FlowParts(env: Env, entries: seq<FlowStatsEntry>, dp: int): Result<(seq<FlowStatsEntry>, seq<FlowStatsEntry>)>
  {
    if dp == env.topo.smallestDataplaneId then SplitByInPort(env, entries, dp, [], []) else Ok(([], entries))
  }

  /**
   * The flow-stats list after a device's first FLOW reply is adapted onto
   * `stats`, and the failure that cut it short, if any.
   */
  function FlowAccumulated(env: Env, stats: seq<FlowStatsEntry>, entries: seq<FlowStatsEntry>, dp: int): (seq<FlowStatsEntry>, Option<Failure>)
    requires env.Valid()
  {
    match FlowParts(env, entries, dp)
    case Err(e) => (stats, Some(e))
    case Ok(parts) =>
      match FlowStats.FlowStatsAdapted(env, [], parts.0, dp, true)
      case Err(e) => (stats, Some(e))
      case Ok(a) =>
        match FlowStats.FlowStatsAdapted(env, [], parts.1, dp, false)
        case Err(e) => (stats + a, Some(e))
        case Ok(b) => (stats + a + b, None)
  }

  /** The split loop of the FLOW case. */
  method SplitFlowEntries(env: Env, entries: seq<FlowStatsEntry>, dp: int) returns (r: Result<(seq<FlowStatsEntry>, seq<FlowStatsEntry>)>)
    requires forall e :: e in entries ==> Matches.UniqueFields(e.flowMatch)
    ensures r == SplitByInPort(env, entries, dp, [], [])
  {
    var lastTableEntries: seq<FlowStatsEntry> := [];
    var firstTableEntries: seq<FlowStatsEntry> := [];
    var i := 0;
    while i < |entries|
      invariant 0 <= i <= |entries|
      invariant SplitByInPort(env, entries, dp, [], []) == SplitByInPort(env, entries[i..], dp, lastTableEntries, firstTableEntries)
    {
      var entry := entries[i];
      assert entries[i..][0] == entry && entries[i..][1..] == entries[i + 1..];
      var higher := FlowStats.MatchContainsInPortFromHigherDevice(env, entry, dp);
      if higher.Err? {
        return Err(higher.error);
      }
      if higher.value {
        var stripped := Matches.RemoveInPortFromMatch(entry.flowMatch);
        lastTableEntries := lastTableEntries + [entry.(flowMatch := stripped)];
      } else {
        firstTableEntries := firstTableEntries + [entry];
      }
      i := i + 1;
    }
    return Ok((lastTableEntries, firstTableEntries));
  }

  /** The split fails exactly when the IN_PORT check fails for some entry. */
  lemma {:induction false} SplitByInPortFails(env: Env, entries: seq<FlowStatsEntry>, dp: int, last: seq<FlowStatsEntry>, first: seq<FlowStatsEntry>)
    ensures SplitByInPort(env, entries, dp, last, first).Err?
            <==> exists e :: e in entries && FlowStats.InPortFromHigherDevice(env, e.flowMatch, dp).Err?
    decreases |entries|
  {
    if entries != [] {
      var e := entries[0];
      assert forall x :: x in entries <==> x == e || x in entries[1..];
      var check := FlowStats.InPortFromHigherDevice(env, e.flowMatch, dp);
      if check.Ok? {
        if check.value {
          SplitByInPortFails(env, entries[1..], dp, last + [Stripped(e)], first);
        } else {
          SplitByInPortFails(env, entries[1..], dp, last, first + [e]);
        }
      }
    }
  }

  /** The entries whose IN_PORT leads back from a bigger device, stripped of it, in order. */
  function LastTableEntries(env: Env, entries: seq<FlowStatsEntry>, dp: int): seq<FlowStatsEntry>
    decreases |entries|
  {
    if entries == [] then []
    else (if FlowStats.InPortFromHigherDevice(env, entries[0].flowMatch, dp) == Ok(true) then [Stripped(entries[0])] else [])
         + LastTableEntries(env, entries[1..], dp)
  }

  /** The entries whose IN_PORT does not lead back from a bigger device, in order. */
  function FirstTableEntries(env: Env, entries: seq<FlowStatsEntry>, dp: int): seq<FlowStatsEntry>
    decreases |entries|
  {
    if entries == [] then []
    else (if FlowStats.InPortFromHigherDevice(env, entries[0].flowMatch, dp) == Ok(false) then [entries[0]] else [])
         + FirstTableEntries(env, entries[1..], dp)
  }

  /**
   * A successful split appends the two filters to the lists it started
   * from, and every entry lands in exactly one of them.
   */
  lemma {:induction false} SplitByInPortIsFilter(env: Env, entries: seq<FlowStatsEntry>, dp: int, last: seq<FlowStatsEntry>, first: seq<FlowStatsEntry>)
    requires SplitByInPort(env, entries, dp, last, first).Ok?
    ensures SplitByInPort(env, entries, dp, last, first).value
            == (last + LastTableEntries(env, entries, dp), first + FirstTableEntries(env, entries, dp))
    ensures |LastTableEntries(env, entries, dp)| + |FirstTableEntries(env, entries, dp)| == |entries|
    decreases |entries|
  {
    if entries != [] {
      var e := entries[0];
      var up := FlowStats.InPortFromHigherDevice(env, e.flowMatch, dp).value;
      if up {
        SplitByInPortIsFilter(env, entries[1..], dp, last + [Stripped(e)], first);
        assert FlowStats.InPortFromHigherDevice(env, e.flowMatch, dp) == Ok(true);
        assert SplitByInPort(env, entries, dp, last, first) == SplitByInPort(env, entries[1..], dp, last + [Stripped(e)], first);
        assert FirstTableEntries(env, entries, dp) == FirstTableEntries(env, entries[1..], dp);
        assert LastTableEntries(env, entries, dp) == [Stripped(e)] + LastTableEntries(env, entries[1..], dp);
        assert SplitByInPort(env, entries, dp, last, first).value.0 == last + LastTableEntries(env, entries, dp);
        assert SplitByInPort(env, entries, dp, last, first).value.1 == first + FirstTableEntries(env, entries, dp);
      } else {
        assert FlowStats.InPortFromHigherDevice(env, e.flowMatch, dp) == Ok(false);
        assert SplitByInPort(env, entries, dp, last, first) == SplitByInPort(env, entries[1..], dp, last, first + [e]);
        SplitByInPortIsFilter(env, entries[1..], dp, last, first + [e]);
        assert LastTableEntries(env, entries, dp) == LastTableEntries(env, entries[1..], dp);
        assert FirstTableEntries(env, entries, dp) == [e] + FirstTableEntries(env, entries[1..], dp);
        assert SplitByInPort(env, entries, dp, last, first).value.0 == last + LastTableEntries(env, entries, dp);
        assert SplitByInPort(env, entries, dp, last, first).value.1 == first + FirstTableEntries(env, entries, dp);
      }
    } else {
      assert last + [] == last && first + [] == first;
    }
  }

  /** The last-table entries are exactly the stripped entries whose IN_PORT leads back from a bigger device. */
  lemma {:induction false} LastTableEntriesMeaning(env: Env, entries: seq<FlowStatsEntry>, dp: int, x: FlowStatsEntry)
    ensures x in LastTableEntries(env, entries, dp)
            <==> exists e :: e in entries && FlowStats.InPortFromHigherDevice(env, e.flowMatch, dp) == Ok(true) && x == Stripped(e)
    decreases |entries|
  {
    if entries != [] {
      assert forall y :: y in entries <==> y == entries[0] || y in entries[1..];
      LastTableEntriesMeaning(env, entries[1..], dp, x);
    }
  }

  /** The first-table entries are exactly the entries whose IN_PORT does not lead back from a bigger device. */
  lemma {:induction false} FirstTableEntriesMeaning(env: Env, entries: seq<FlowStatsEntry>, dp: int, x: FlowStatsEntry)
    ensures x in FirstTableEntries(env, entries, dp)
            <==> x in entries && FlowStats.InPortFromHigherDevice(env, x.flowMatch, dp) == Ok(false)
    decreases |entries|
  {
    if entries != [] {
      assert forall y :: y in entries <==> y == entries[0] || y in entries[1..];
      FirstTableEntriesMeaning(env, entries[1..], dp, x);
    }
  }

  /** Each entry of `xs` is the adapted copy of some entry of `src`. */
  ghost predicate AdaptedFromSome(env: Env, dp: int, xs: seq<FlowStatsEntry>, src: seq<FlowStatsEntry>)
  {
    forall x :: x in xs ==> exists e :: e in src && FlowStats.AdaptedFrom(env, dp, x, e)
  }

  lemma AdaptedFromSomeAppend(env: Env, dp: int, xs: seq<FlowStatsEntry>, src: seq<FlowStatsEntry>, ys: seq<FlowStatsEntry>, src': seq<FlowStatsEntry>)
    requires AdaptedFromSome(env, dp, xs, src) && AdaptedFromSome(env, dp, ys, src')
    ensures AdaptedFromSome(env, dp, xs + ys, src + src')
  {
    forall x | x in xs + ys
      ensures exists e :: e in src + src' && FlowStats.AdaptedFrom(env, dp, x, e)
    {
      if x in xs {
        var e :| e in src && FlowStats.AdaptedFrom(env, dp, x, e);
        assert e in src + src';
      } else {
        var e :| e in src' && FlowStats.AdaptedFrom(env, dp, x, e);
        assert e in src + src';
      }
    }
  }

  /** One device's adapted entries, from an empty list, come from the entries given. */
  lemma AdaptedFromReply(env: Env, entries: seq<FlowStatsEntry>, dp: int, lastTable: bool)
    requires env.Valid() && FlowStats.FlowStatsAdapted(env, [], entries, dp, lastTable).Ok?
    ensures var r := FlowStats.FlowStatsAdapted(env, [], entries, dp, lastTable).value;
            |r| <= |entries| && AdaptedFromSome(env, dp, r, entries)
  {
    FlowStats.FlowStatsAdaptedMeaning(env, [], entries, dp, lastTable);
    var r := FlowStats.FlowStatsAdapted(env, [], entries, dp, lastTable).value;
    forall x | x in r
      ensures exists e :: e in entries && FlowStats.AdaptedFrom(env, dp, x, e)
    {
      var k :| 0 <= k < |r| && r[k] == x;
      var i :| 0 <= i < |entries| && FlowStats.AdaptedFrom(env, dp, r[k], entries[i]);
      assert entries[i] in entries;
    }
  }

  /**
   * The parts of a device's FLOW reply: all its entries for the first
   * table on every device but the smallest, the two filters on the
   * smallest; either way one part entry per reported entry.
   */
  lemma FlowPartsMeaning(env: Env, es: seq<FlowStatsEntry>, dp: int)
    requires FlowParts(env, es, dp).Ok?
    ensures var parts := FlowParts(env, es, dp).value;
            && |parts.0| + |parts.1| == |es|
            && (dp != env.topo.smallestDataplaneId ==> parts == ([], es))
            && (dp == env.topo.smallestDataplaneId ==> parts == (LastTableEntries(env, es, dp), FirstTableEntries(env, es, dp)))
  {
    if dp == env.topo.smallestDataplaneId {
      SplitByInPortIsFilter(env, es, dp, [], []);
      assert [] + LastTableEntries(env, es, dp) == LastTableEntries(env, es, dp);
      assert [] + FirstTableEntries(env, es, dp) == FirstTableEntries(env, es, dp);
    }
  }

  /**
   * When a device's FLOW reply is adapted without failure, the list grows
   * by at most one entry per reported entry, and each entry added is the
   * adapted copy of an entry of the reply's parts.
   */
  lemma FlowReplyMeaning(env: Env, stats: seq<FlowStatsEntry>, es: seq<FlowStatsEntry>, dp: int)
    requires env.Valid() && FlowAccumulated(env, stats, es, dp).1.None?
    ensures FlowParts(env, es, dp).Ok?
    ensures var parts := FlowParts(env, es, dp).value;
            var out := FlowAccumulated(env, stats, es, dp).0;
            && |stats| <= |out| <= |stats| + |es| && out[..|stats|] == stats
            && AdaptedFromSome(env, dp, out[|stats|..], parts.0 + parts.1)
  {
    var parts := FlowParts(env, es, dp).value;
    var a := FlowStats.FlowStatsAdapted(env, [], parts.0, dp, true).value;
    var b := FlowStats.FlowStatsAdapted(env, [], parts.1, dp, false).value;
    var out := stats + a + b;
    assert out == FlowAccumulated(env, stats, es, dp).0;
    assert |a| + |b| <= |es| && AdaptedFromSome(env, dp, a + b, parts.0 + parts.1) by {
      FlowPartsMeaning(env, es, dp);
      AdaptedFromReply(env, parts.0, dp, true);
      AdaptedFromReply(env, parts.1, dp, false);
      AdaptedFromSomeAppend(env, dp, a, parts.0, b, parts.1);
    }
    assert out[|stats|..] == a + b;
    assert out[..|stats|] == stats;
  }

  /**
   * The converse of FlowReplyMeaning: the list grows by exactly one entry
   * per entry of the parts that is kept and has a logical id, and each such
   * entry appears, under the last logical id of its table when it belongs
   * to the last table and under the first one otherwise.
   */
  lemma FlowReplyReportsKeptEntries(env: Env, stats: seq<FlowStatsEntry>, es: seq<FlowStatsEntry>, dp: int)
    requires env.Valid() && FlowAccumulated(env, stats, es, dp).1.None?
    ensures FlowParts(env, es, dp).Ok?
    ensures var parts := FlowParts(env, es, dp).value;
            var out := FlowAccumulated(env, stats, es, dp).0;
            && |out| == |stats| + FlowStats.ReportedCount(env, parts.0, dp) + FlowStats.ReportedCount(env, parts.1, dp)
            && (forall i :: 0 <= i < |parts.0| && FlowStats.Reported(env, parts.0[i], dp) ==>
                  FlowStats.AdaptedCopy(env, parts.0[i], dp, true) in out)
            && (forall i :: 0 <= i < |parts.1| && FlowStats.Reported(env, parts.1[i], dp) ==>
                  FlowStats.AdaptedCopy(env, parts.1[i], dp, false) in out)
  {
    var parts := FlowParts(env, es, dp).value;
    var a := FlowStats.FlowStatsAdapted(env, [], parts.0, dp, true).value;
    var b := FlowStats.FlowStatsAdapted(env, [], parts.1, dp, false).value;
    var out := stats + a + b;
    assert out == FlowAccumulated(env, stats, es, dp).0;
    FlowStats.FlowStatsAdaptedCount(env, [], parts.0, dp, true);
    FlowStats.FlowStatsAdaptedCount(env, [], parts.1, dp, false);
    forall i | 0 <= i < |parts.0| && FlowStats.Reported(env, parts.0[i], dp)
      ensures FlowStats.AdaptedCopy(env, parts.0[i], dp, true) in out
    {
      var e := parts.0[i];
      FlowStats.KeptEntryIsReported(env, [], parts.0, dp, true, i,
        FlowStats.AdaptInstructions(env, e.flowMatch, dp, [], e.instructions).value.value);
      assert FlowStats.AdaptedCopy(env, e, dp, true) in a;
    }
    forall i | 0 <= i < |parts.1| && FlowStats.Reported(env, parts.1[i], dp)
      ensures FlowStats.AdaptedCopy(env, parts.1[i], dp, false) in out
    {
      var e := parts.1[i];
      FlowStats.KeptEntryIsReported(env, [], parts.1, dp, false, i,
        FlowStats.AdaptInstructions(env, e.flowMatch, dp, [], e.instructions).value.value);
      assert FlowStats.AdaptedCopy(env, e, dp, false) in b;
    }
  }

  /**
   * In a FLOW round in which each device answers once, the device of the
   * k-th reply (counted from 0) finds the round open until k is the last
   * index: its merged reply carries REPLY_MORE until then, and the round
   * starts afresh after it.
   */
  lemma FlowRoundMarksMore(env: Env, rs: RoundState, devices: seq<int>, k: int, m: OFMessage)
    requires env.Valid() && m.StatsReply? && m.body.FlowBody? && REPLY_MORE !in m.replyFlags
    requires forall i, j :: 0 <= i < j < |devices| ==> devices[i] != devices[j]
    requires |devices| == |env.socketIds| && 0 <= k < |devices|
    requires rs.flowSeen == SocketSet(devices[..k])
    requires FlowAccumulated(env, rs.flowStats, m.body.flowEntries, devices[k]).1.None?
    ensures var step := StatsStep(env, rs, devices[k], m);
            && step.2 == Pass && |step.1| == 1
            && step.1[0].1.ofMessage.Some? && step.1[0].1.ofMessage.value.StatsReply?
            && (REPLY_MORE in step.1[0].1.ofMessage.value.replyFlags <==> k < |devices| - 1)
            && step.0.flowSeen == (if k == |devices| - 1 then {} else SocketSet(devices[..k + 1]))
            && step.0.flowStats == []
  {
    var d := devices[k];
    assert SocketSet(devices[..k + 1]) == rs.flowSeen + {d} by {
      forall x | x in SocketSet(devices[..k + 1]) ensures x in rs.flowSeen + {d} {
        var i :| 0 <= i < k + 1 && devices[..k + 1][i] == x;
        if i < k { assert devices[..k][i] == x; }
      }
      forall x | x in rs.flowSeen ensures x in SocketSet(devices[..k + 1]) {
        var i :| 0 <= i < k && devices[..k][i] == x;
        assert devices[..k + 1][i] == x;
      }
      assert devices[..k + 1][k] == d;
    }
    DistinctSocketsCount(devices[..k + 1]);
  }

  // ------------------------------------------------ initializePipeline

  const PIPELINE_XID: int := 0x1234_5678
  const PIPELINE_COOKIE: int := 0xFE_DCBA_9876_5432
  const PIPELINE_PRIORITY: int := 45678

  /**
   * The rule installed in table 0 of a middle device: what arrives from the
   * next bigger device is put out towards the next smaller one.
   */
  function PipelineRule(env: Env, dp: int): OFMessage
  {
    FlowMod(PIPELINE_XID, ADD, PIPELINE_COOKIE, 0, 0, 0, 0, PIPELINE_PRIORITY, NO_BUFFER, {},
            [MatchEntry(IN_PORT, FlowStats.HiddenRulePort(env, dp), None)],
            [ApplyActions([Output(env.topo.inPortOfDataplaneId(dp, env.topo.nextSmallerDataplaneId(dp)))])])
  }

  /** What `initializePipeline` sends: the rule for a middle device, nothing for the two ends. */
  function PipelineSetup(env: Env, dp: int): seq<(Stages.Direction, MsgView)>
  {
    if dp != env.topo.biggestDataplaneId && dp != env.topo.smallestDataplaneId
    then [(Stages.ToDataPlane, NewView(PipelineRule(env, dp), dp))]
    else []
  }

  /** The rule as a FLOW reply reports it back, in physical table `t`. */
  function AsReported(rule: OFMessage, t: int): FlowStatsEntry
    requires rule.FlowMod?
  {
    FlowStatsEntry(t, rule.priority, rule.cookie, rule.flowMatch, rule.instructions)
  }

  /**
   * Exactly the middle devices get the pipeline rule, and the FLOW
   * adaptation recognises that rule and never reports it to the controller.
   */
  lemma PipelineRuleIsHidden(env: Env, dp: int)
    requires env.Valid()
    ensures PipelineSetup(env, dp) != [] <==> dp != env.topo.smallestDataplaneId && dp != env.topo.biggestDataplaneId
    ensures PipelineSetup(env, dp) != [] ==>
              && FlowStats.IsHiddenRule(env, dp, PipelineRule(env, dp).flowMatch)
              && forall t: int, lastTable: bool :: FlowStats.AdaptEntry(env, AsReported(PipelineRule(env, dp), t), dp, lastTable) == Ok([])
  {
    if PipelineSetup(env, dp) != [] {
      var rule := PipelineRule(env, dp);
      var port := env.topo.inPortOfDataplaneId(dp, env.topo.nextSmallerDataplaneId(dp));
      forall t: int, lastTable: bool
        ensures FlowStats.AdaptEntry(env, AsReported(rule, t), dp, lastTable) == Ok([])
      {
        assert [Output(port)] + [] == [Output(port)];
        assert [ApplyActions([Output(port)] + [])] + [] == rule.instructions;
        FlowStats.HiddenRuleIsNotReported(env, AsReported(rule, t), dp, lastTable, port, [], []);
      }
    }
  }

  /**
   * As written, the test for the pipeline rule compares its IN_PORT with
   * the next device's dataplane id: with device 2 between 1 and 3 and the
   * link from 3 arriving on port 7, the rule installed on 2 is not
   * recognised, while the corrected test recognises it.
   */
  lemma PipelineRuleMissedAsWritten()
    ensures var topo := Topology(1, 3, d => d + 1, d => d - 1, (a, b) => 0, (a, b) => 7, 0);
            var env := Env([], Registry.IdMaps(map[], map[]), topo, [1, 2, 3], 0);
            && !FlowStats.IsHiddenRuleAsWritten(env, 2, PipelineRule(env, 2).flowMatch)
            && FlowStats.IsHiddenRule(env, 2, PipelineRule(env, 2).flowMatch)
  {
  }
}

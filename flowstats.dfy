/**
 * How the MultiSwitch stage turns the statistics a device reports about its
 * physical tables into statistics about the logical tables: table ids are
 * translated back, an output towards a neighbouring device becomes a jump
 * to the logical table it stands for, and the rules the stage installed
 * itself are hidden.
 */
module FlowStats {
  import opened Wrappers
  import opened OpenFlow
  import opened Config
  import opened Network
  import opened IdPairs
  import opened JavaInts
  import Registry
  import Matches

  // ------------------------------------------------ matchContainsInPortFromHigherDevice

  /** The loop over the match fields: true at the first exact IN_PORT whose port leads to a higher device. */
  function InPortFromHigherDevice(env: Env, m: Match, dp: int): Result<bool>
  {
    if m == [] then Ok(false)
    else if m[0].IsExact() && m[0].field == IN_PORT then
      match OutputPortOwner(env.eps, dp, ToShort(m[0].value))
      case Err(e) => Err(e)
      case Ok(target) =>
        if target.Some? && target.value > dp then Ok(true) else InPortFromHigherDevice(env, m[1..], dp)
    else InPortFromHigherDevice(env, m[1..], dp)
  }

  /** An exact IN_PORT entry whose port (as a short) is the port of `dp` towards a higher-numbered device. */
  ghost predicate HigherInPort(env: Env, sw: SwitchConfig, e: MatchEntry, dp: int)
  {
    && e.IsExact() && e.field == IN_PORT
    && var target := KeyOfValue(sw.portMap, ToShort(e.value)); target.Some? && target.value > dp
  }

  /** For a configured device, the check succeeds and answers whether some IN_PORT entry comes from a higher device. */
  lemma {:induction false} InPortFromHigherDeviceMeaning(env: Env, m: Match, dp: int)
    requires SwitchById(env.eps, dp).Some?
    ensures InPortFromHigherDevice(env, m, dp).Ok?
    ensures InPortFromHigherDevice(env, m, dp).value
            <==> exists i :: 0 <= i < |m| && HigherInPort(env, SwitchById(env.eps, dp).value, m[i], dp)
  {
    if m != [] {
      var sw := SwitchById(env.eps, dp).value;
      var tail := m[1..];
      InPortFromHigherDeviceMeaning(env, tail, dp);
      var head := m[0].IsExact() && m[0].field == IN_PORT && OutputPortOwner(env.eps, dp, ToShort(m[0].value)).value.Some?
                  && OutputPortOwner(env.eps, dp, ToShort(m[0].value)).value.value > dp;
      assert head <==> HigherInPort(env, sw, m[0], dp);
      assert InPortFromHigherDevice(env, m, dp) == if head then Ok(true) else InPortFromHigherDevice(env, tail, dp);
      assert (exists i :: 0 <= i < |m| && HigherInPort(env, sw, m[i], dp))
             <==> HigherInPort(env, sw, m[0], dp) || exists i :: 0 <= i < |tail| && HigherInPort(env, sw, tail[i], dp)
      by {
        forall i | 1 <= i < |m| ensures m[i] == tail[i - 1] { }
      }
    }
  }

  /** The check fails only when the device itself is not configured. */
  lemma UnconfiguredDeviceFailsOnInPort(env: Env, m: Match, dp: int)
    requires SwitchById(env.eps, dp).None?
    ensures InPortFromHigherDevice(env, m, dp).Err? <==> exists i :: 0 <= i < |m| && m[i].IsExact() && m[i].field == IN_PORT
  {
    if m != [] && !(m[0].IsExact() && m[0].field == IN_PORT) {
      UnconfiguredDeviceFailsOnInPort(env, m[1..], dp);
      if exists i :: 0 <= i < |m| && m[i].IsExact() && m[i].field == IN_PORT {
        var i :| 0 <= i < |m| && m[i].IsExact() && m[i].field == IN_PORT;
        assert m[1..][i - 1] == m[i];
      }
    }
  }

  /** `matchContainsInPortFromHigherDevice`. */
  method MatchContainsInPortFromHigherDevice(env: Env, entry: FlowStatsEntry, dp: int) returns (r: Result<bool>)
    ensures r == InPortFromHigherDevice(env, entry.flowMatch, dp)
  {
    var m := entry.flowMatch;
    var i := 0;
    while i < |m|
      invariant 0 <= i <= |m|
      invariant InPortFromHigherDevice(env, m, dp) == InPortFromHigherDevice(env, m[i..], dp)
    {
      assert m[i..][1..] == m[i + 1..];
      if m[i].IsExact() && m[i].field == IN_PORT {
        var target := OutputPortOwner(env.eps, dp, ToShort(m[i].value));
        if target.Err? {
          return Err(target.error);
        }
        if target.value.Some? && target.value.value > dp {
          return Ok(true);
        }
      }
      i := i + 1;
    }
    return Ok(false);
  }

  // ------------------------------------------------ adaptTableStatsEntries

  /** One copy of the entry per logical id, each carrying that id. */
  function Retargeted(e: TableStatsEntry, ids: seq<int>): (r: seq<TableStatsEntry>)
    ensures |r| == |ids|
    ensures forall j :: 0 <= j < |ids| ==> r[j] == e.(tableId := ids[j])
  {
    seq(|ids|, j requires 0 <= j < |ids| => e.(tableId := ids[j]))
  }

  function TableStatsAdapted(env: Env, entries: seq<TableStatsEntry>, dp: int): seq<TableStatsEntry>
    requires env.Valid()
  {
    if entries == [] then []
    else Retargeted(entries[0], Registry.SwitchIdToOurTableId(env.maps, dp, entries[0].tableId))
         + TableStatsAdapted(env, entries[1..], dp)
  }

  /**
   * Each reported table appears once under the logical id registered for
   * it, with its counters unchanged, and a table with no logical id is
   * dropped.
   */
  lemma {:induction false} TableStatsAdaptedMeaning(env: Env, entries: seq<TableStatsEntry>, dp: int)
    requires env.Valid()
    ensures var r := TableStatsAdapted(env, entries, dp);
            && |r| <= |entries|
            && (forall k :: 0 <= k < |r| ==> exists i :: (0 <= i < |entries|
                  && r[k] == entries[i].(tableId := r[k].tableId)
                  && r[k].tableId in env.maps.forward
                  && env.maps.forward[r[k].tableId] == FromInt(dp, entries[i].tableId)))
            && (forall i :: 0 <= i < |entries| && FromInt(dp, entries[i].tableId) in env.maps.reverse ==>
                  entries[i].(tableId := env.maps.reverse[FromInt(dp, entries[i].tableId)]) in r)
  {
    if entries != [] {
      var e := entries[0];
      var ids := Registry.SwitchIdToOurTableId(env.maps, dp, e.tableId);
      var head := Retargeted(e, ids);
      var rest := TableStatsAdapted(env, entries[1..], dp);
      TableStatsAdaptedMeaning(env, entries[1..], dp);
      var r := head + rest;
      forall k | 0 <= k < |r|
        ensures exists i :: 0 <= i < |entries|
                  && r[k] == entries[i].(tableId := r[k].tableId)
                  && r[k].tableId in env.maps.forward
                  && env.maps.forward[r[k].tableId] == FromInt(dp, entries[i].tableId)
      {
        if k < |head| {
          assert ids[k] in ids;
          assert r[k] == entries[0].(tableId := r[k].tableId);
        } else {
          assert r[k] == rest[k - |head|];
          var i :| 0 <= i < |entries[1..]| && rest[k - |head|] == entries[1..][i].(tableId := rest[k - |head|].tableId)
                   && rest[k - |head|].tableId in env.maps.forward
                   && env.maps.forward[rest[k - |head|].tableId] == FromInt(dp, entries[1..][i].tableId);
          assert entries[1..][i] == entries[i + 1];
        }
      }
      forall i | 0 <= i < |entries| && FromInt(dp, entries[i].tableId) in env.maps.reverse
        ensures entries[i].(tableId := env.maps.reverse[FromInt(dp, entries[i].tableId)]) in r
      {
        if i == 0 {
          assert ids == [env.maps.reverse[FromInt(dp, e.tableId)]];
          assert head[0] in r;
        } else {
          assert entries[1..][i - 1] == entries[i];
        }
      }
    }
  }

  /** `adaptTableStatsEntries`. */
  method AdaptTableStatsEntries(env: Env, entries: seq<TableStatsEntry>, dp: int) returns (r: seq<TableStatsEntry>)
    requires env.Valid()
    ensures r == TableStatsAdapted(env, entries, dp)
  {
    r := [];
    var i := 0;
    while i < |entries|
      invariant 0 <= i <= |entries|
      invariant TableStatsAdapted(env, entries, dp) == r + TableStatsAdapted(env, entries[i..], dp)
    {
      var e := entries[i];
      var ourTableId := Registry.SwitchIdToOurTableId(env.maps, dp, e.tableId);
      var copies: seq<TableStatsEntry> := [];
      var j := 0;
      while j < |ourTableId|
        invariant 0 <= j <= |ourTableId|
        invariant copies == Retargeted(e, ourTableId[..j])
      {
        copies := copies + [e.(tableId := ourTableId[j])];
        j := j + 1;
      }
      assert ourTableId[..j] == ourTableId;
      assert entries[i..][1..] == entries[i + 1..];
      r := r + copies;
      i := i + 1;
    }
  }

  // ------------------------------------------------ adaptFlowStatsEntries

  /** Whether an entry is reported (`Keep`) or left out by `continue loop` (`Skip`). */
  datatype Adapted<T> = Skip | Keep(value: T)

  /** The port `initializePipeline` matches on: where traffic from the next bigger device arrives. */
  function HiddenRulePort(env: Env, dp: int): int
  {
    env.topo.inPortOfDataplaneId(dp, env.topo.nextBiggerDataplaneId(dp))
  }

  /**
   * The test for the rule `initializePipeline` installs on a middle device,
   * as written: the match, as its text prints, is an exact IN_PORT equal to
   * the next bigger device's dataplane id.
   */
  predicate IsHiddenRuleAsWritten(env: Env, dp: int, m: Match)
  {
    && dp != env.topo.smallestDataplaneId && dp != env.topo.biggestDataplaneId
    && m == [MatchEntry(IN_PORT, env.topo.nextBiggerDataplaneId(dp), None)]
  }

  /** The same test against the port the installed rule actually matches on. */
  predicate IsHiddenRule(env: Env, dp: int, m: Match)
  {
    && dp != env.topo.smallestDataplaneId && dp != env.topo.biggestDataplaneId
    && m == [MatchEntry(IN_PORT, HiddenRulePort(env, dp), None)]
  }

  /** The variables of the action loop: the actions kept and the jump that replaces an output. */
  datatype ActionScan = ActionScan(kept: seq<Action>, gotoInst: Option<Instruction>)

  /** The last logical id of `ids`, or -1. */
  function LastOr(ids: seq<int>): int
  {
    if ids == [] then -1 else ids[|ids| - 1]
  }

  /** One action of an APPLY_ACTIONS instruction of the entry with match `m`, on device `dp`. */
  function ScanAction(env: Env, m: Match, dp: int, st: ActionScan, act: Action): Result<Adapted<ActionScan>>
    requires env.Valid()
  {
    if !act.Output? then Ok(Keep(st.(kept := st.kept + [act])))
    else if IsHiddenRule(env, dp, m) then Ok(Skip)
    else
      match OutputPortOwner(env.eps, dp, act.port)
      case Err(e) => Err(e)
      case Ok(None) => Ok(Keep(st.(kept := st.kept + [act])))
      case Ok(Some(owner)) =>
        match SwitchById(env.eps, owner)
        case None => Err(NullPointer)
        case Some(sw) =>
          var outTable := LastOr(Registry.SwitchIdToOurTableId(env.maps, owner, 0));
          if sw.tableMap == [] || outTable == -1 then Ok(Keep(st))
          else Ok(Keep(st.(gotoInst := Some(GotoTable(outTable)))))
  }

  /** The action loop from `st` over `acts`. */
  function ScanActions(env: Env, m: Match, dp: int, st: ActionScan, acts: seq<Action>): Result<Adapted<ActionScan>>
    requires env.Valid()
    decreases |acts|
  {
    if acts == [] then Ok(Keep(st))
    else
      match ScanAction(env, m, dp, st, acts[0])
      case Err(e) => Err(e)
      case Ok(Skip) => Ok(Skip)
      case Ok(Keep(next)) => ScanActions(env, m, dp, next, acts[1..])
  }

  /** One instruction of the entry with match `m`, appended to `insts`. */
  function AdaptInstruction(env: Env, m: Match, dp: int, insts: seq<Instruction>, inst: Instruction): Result<Adapted<seq<Instruction>>>
    requires env.Valid()
  {
    match inst
    case ApplyActions(acts) =>
      (match ScanActions(env, m, dp, ActionScan([], None), acts)
       case Err(e) => Err(e)
       case Ok(Skip) => Ok(Skip)
       case Ok(Keep(sc)) =>
         Ok(Keep(insts + (if sc.kept != [] then [ApplyActions(sc.kept)] else [])
                       + (if sc.gotoInst.Some? then [sc.gotoInst.value] else []))))
    case GotoTable(t) =>
      (match SwitchById(env.eps, dp)
       case None => Err(NullPointer)
       case Some(sw) =>
         var target := KeyOfValue(sw.tableMap, t);
         if target.None? || target.value == -1 then Ok(Keep(insts))
         else Ok(Keep(insts + [GotoTable(target.value)])))
    case OtherInstruction(_) => Ok(Keep(insts + [inst]))
  }

  /** The instruction loop from `insts` over `rest`. */
  function AdaptInstructions(env: Env, m: Match, dp: int, insts: seq<Instruction>, rest: seq<Instruction>): Result<Adapted<seq<Instruction>>>
    requires env.Valid()
    decreases |rest|
  {
    if rest == [] then Ok(Keep(insts))
    else
      match AdaptInstruction(env, m, dp, insts, rest[0])
      case Err(e) => Err(e)
      case Ok(Skip) => Ok(Skip)
      case Ok(Keep(next)) => AdaptInstructions(env, m, dp, next, rest[1..])
  }

  /** One reported entry: its rewritten copy under its logical id, or nothing. */
  function AdaptEntry(env: Env, e: FlowStatsEntry, dp: int, lastTable: bool): Result<seq<FlowStatsEntry>>
    requires env.Valid()
  {
    var ids := Registry.SwitchIdToOurTableId(env.maps, dp, e.tableId);
    match AdaptInstructions(env, e.flowMatch, dp, [], e.instructions)
    case Err(err) => Err(err)
    case Ok(Skip) => Ok([])
    case Ok(Keep(insts)) =>
      if ids == [] then Ok([])
      else Ok([e.(tableId := ids[if lastTable then |ids| - 1 else 0], instructions := insts)])
  }

  /** The entry loop from `acc` over `entries`. */
  function FlowStatsAdapted(env: Env, acc: seq<FlowStatsEntry>, entries: seq<FlowStatsEntry>, dp: int, lastTable: bool): Result<seq<FlowStatsEntry>>
    requires env.Valid()
    decreases |entries|
  {
    if entries == [] then Ok(acc)
    else
      match AdaptEntry(env, entries[0], dp, lastTable)
      case Err(err) => Err(err)
      case Ok(out) => FlowStatsAdapted(env, acc + out, entries[1..], dp, lastTable)
  }

  /**
   * What a rewritten instruction list promises: no APPLY_ACTIONS is empty,
   * and no output goes to a port that leads to another configured device.
   */
  ghost predicate Translated(env: Env, dp: int, insts: seq<Instruction>)
  {
    forall i :: 0 <= i < |insts| && insts[i].ApplyActions? ==>
      && insts[i].actions != []
      && forall a :: a in insts[i].actions && a.Output? ==> OutputPortOwner(env.eps, dp, a.port) == Ok(None)
  }

  /** The action loop keeps only local outputs, and what replaces an output is a jump. */
  ghost predicate ScanLocal(env: Env, dp: int, st: ActionScan)
  {
    && (forall a :: a in st.kept && a.Output? ==> OutputPortOwner(env.eps, dp, a.port) == Ok(None))
    && (st.gotoInst.Some? ==> st.gotoInst.value.GotoTable?)
  }

  lemma {:induction false} ScanActionsLocal(env: Env, m: Match, dp: int, st: ActionScan, acts: seq<Action>)
    requires env.Valid() && ScanLocal(env, dp, st)
    ensures var r := ScanActions(env, m, dp, st, acts);
            r.Ok? && r.value.Keep? ==> ScanLocal(env, dp, r.value.value)
    decreases |acts|
  {
    if acts != [] {
      match ScanAction(env, m, dp, st, acts[0])
      case Err(_) =>
      case Ok(Skip) =>
      case Ok(Keep(next)) =>
        ScanActionsLocal(env, m, dp, next, acts[1..]);
    }
  }

  /**
   * An output on a port that leads to a configured device with tables, one
   * of which has a logical id for its physical table 0.
   */
  predicate LeadsToDevice(env: Env, dp: int, a: Action)
    requires env.Valid()
  {
    && a.Output?
    && OutputPortOwner(env.eps, dp, a.port).Ok? && OutputPortOwner(env.eps, dp, a.port).value.Some?
    && var owner := OutputPortOwner(env.eps, dp, a.port).value.value;
       && SwitchById(env.eps, owner).Some? && SwitchById(env.eps, owner).value.tableMap != []
       && LastOr(Registry.SwitchIdToOurTableId(env.maps, owner, 0)) != -1
  }

  /** The jump such an output becomes: to the last logical id of the device's physical table 0. */
  function JumpFor(env: Env, dp: int, a: Action): Instruction
    requires env.Valid() && LeadsToDevice(env, dp, a)
  {
    GotoTable(LastOr(Registry.SwitchIdToOurTableId(env.maps, OutputPortOwner(env.eps, dp, a.port).value.value, 0)))
  }

  /** The actions the scan keeps: all but the outputs to other devices. */
  function LocalActions(env: Env, dp: int, acts: seq<Action>): seq<Action>
  {
    if acts == [] then []
    else (if !acts[0].Output? || OutputPortOwner(env.eps, dp, acts[0].port) == Ok(None) then [acts[0]] else [])
         + LocalActions(env, dp, acts[1..])
  }

  /** One kept action: a local one is kept, an output to a device sets the jump, and nothing else changes. */
  lemma ScanActionStep(env: Env, m: Match, dp: int, st: ActionScan, a: Action)
    requires env.Valid()
    requires ScanAction(env, m, dp, st, a).Ok? && ScanAction(env, m, dp, st, a).value.Keep?
    ensures var next := ScanAction(env, m, dp, st, a).value.value;
            && next.kept == st.kept + (if !a.Output? || OutputPortOwner(env.eps, dp, a.port) == Ok(None) then [a] else [])
            && next.gotoInst == if LeadsToDevice(env, dp, a) then Some(JumpFor(env, dp, a)) else st.gotoInst
  {
  }

  /** When the action loop keeps the entry, it keeps exactly the actions that are not outputs to another device. */
  lemma {:induction false} ScanActionsKept(env: Env, m: Match, dp: int, st: ActionScan, acts: seq<Action>)
    requires env.Valid()
    requires ScanActions(env, m, dp, st, acts).Ok? && ScanActions(env, m, dp, st, acts).value.Keep?
    ensures ScanActions(env, m, dp, st, acts).value.value.kept == st.kept + LocalActions(env, dp, acts)
    decreases |acts|
  {
    if acts != [] {
      var next := ScanAction(env, m, dp, st, acts[0]).value.value;
      ScanActionStep(env, m, dp, st, acts[0]);
      ScanActionsKept(env, m, dp, next, acts[1..]);
      var head := if !acts[0].Output? || OutputPortOwner(env.eps, dp, acts[0].port) == Ok(None) then [acts[0]] else [];
      assert next.kept == st.kept + head;
      assert LocalActions(env, dp, acts) == head + LocalActions(env, dp, acts[1..]);
      assert (st.kept + head) + LocalActions(env, dp, acts[1..]) == st.kept + (head + LocalActions(env, dp, acts[1..]));
    }
  }

  /**
   * The jump that replaces an output is the one of the last output that
   * leads to a device with a logical table 0; with no such output the jump
   * is the one the loop started with.
   */
  lemma {:induction false} ScanActionsJump(env: Env, m: Match, dp: int, st: ActionScan, acts: seq<Action>)
    requires env.Valid()
    requires ScanActions(env, m, dp, st, acts).Ok? && ScanActions(env, m, dp, st, acts).value.Keep?
    ensures var sc := ScanActions(env, m, dp, st, acts).value.value;
            && ((forall k :: 0 <= k < |acts| ==> !LeadsToDevice(env, dp, acts[k])) ==> sc.gotoInst == st.gotoInst)
            && (forall j :: 0 <= j < |acts| && LeadsToDevice(env, dp, acts[j])
                  && (forall k :: j < k < |acts| ==> !LeadsToDevice(env, dp, acts[k]))
                  ==> sc.gotoInst == Some(JumpFor(env, dp, acts[j])))
    decreases |acts|
  {
    if acts != [] {
      var next := ScanAction(env, m, dp, st, acts[0]).value.value;
      ScanActionStep(env, m, dp, st, acts[0]);
      ScanActionsJump(env, m, dp, next, acts[1..]);
      var sc := ScanActions(env, m, dp, st, acts).value.value;
      assert sc == ScanActions(env, m, dp, next, acts[1..]).value.value;
      forall j | 0 <= j < |acts| && LeadsToDevice(env, dp, acts[j]) && (forall k :: j < k < |acts| ==> !LeadsToDevice(env, dp, acts[k]))
        ensures sc.gotoInst == Some(JumpFor(env, dp, acts[j]))
      {
        if j == 0 {
          forall k | 0 <= k < |acts[1..]| ensures !LeadsToDevice(env, dp, acts[1..][k]) {
            assert acts[1..][k] == acts[k + 1];
          }
        } else {
          assert acts[1..][j - 1] == acts[j];
          forall k | j - 1 < k < |acts[1..]| ensures !LeadsToDevice(env, dp, acts[1..][k]) {
            assert acts[1..][k] == acts[k + 1];
          }
        }
      }
      if forall k :: 0 <= k < |acts| ==> !LeadsToDevice(env, dp, acts[k]) {
        forall k | 0 <= k < |acts[1..]| ensures !LeadsToDevice(env, dp, acts[1..][k]) {
          assert acts[1..][k] == acts[k + 1];
        }
      }
    }
  }

  lemma {:induction false} AdaptInstructionsTranslated(env: Env, m: Match, dp: int, insts: seq<Instruction>, rest: seq<Instruction>)
    requires env.Valid() && Translated(env, dp, insts)
    ensures var r := AdaptInstructions(env, m, dp, insts, rest);
            r.Ok? && r.value.Keep? ==> Translated(env, dp, r.value.value)
    decreases |rest|
  {
    if rest != [] {
      match AdaptInstruction(env, m, dp, insts, rest[0])
      case Err(_) =>
      case Ok(Skip) =>
      case Ok(Keep(next)) =>
        var added := next[|insts|..];
        assert next == insts + added;
        if rest[0].ApplyActions? {
          ScanActionsLocal(env, m, dp, ActionScan([], None), rest[0].actions);
          var sc := ScanActions(env, m, dp, ActionScan([], None), rest[0].actions).value.value;
          assert added == (if sc.kept != [] then [ApplyActions(sc.kept)] else [])
                          + (if sc.gotoInst.Some? then [sc.gotoInst.value] else []);
        }
        assert Translated(env, dp, added);
        forall i | 0 <= i < |next| && next[i].ApplyActions?
          ensures next[i].actions != []
          ensures forall a :: a in next[i].actions && a.Output? ==> OutputPortOwner(env.eps, dp, a.port) == Ok(None)
        {
          if i < |insts| {
            assert next[i] == insts[i];
          } else {
            assert next[i] == added[i - |insts|];
          }
        }
        AdaptInstructionsTranslated(env, m, dp, next, rest[1..]);
    }
  }

  /** How an adapted entry stands to the entry reported. */
  ghost predicate AdaptedFrom(env: Env, dp: int, out: FlowStatsEntry, e: FlowStatsEntry)
  {
    && out == e.(tableId := out.tableId, instructions := out.instructions)
    && out.tableId in env.maps.forward
    && env.maps.forward[out.tableId] == FromInt(dp, e.tableId)
    && Translated(env, dp, out.instructions)
  }

  /**
   * Every adapted entry comes from a reported entry: same match, priority
   * and cookie, the logical table registered for its physical table, and
   * instructions with no output to another device left in them.
   */
  lemma {:induction false} FlowStatsAdaptedMeaning(env: Env, acc: seq<FlowStatsEntry>, entries: seq<FlowStatsEntry>, dp: int, lastTable: bool)
    requires env.Valid()
    requires FlowStatsAdapted(env, acc, entries, dp, lastTable).Ok?
    ensures var r := FlowStatsAdapted(env, acc, entries, dp, lastTable).value;
            && |acc| <= |r| <= |acc| + |entries|
            && r[..|acc|] == acc
            && forall k :: |acc| <= k < |r| ==> exists i :: 0 <= i < |entries| && AdaptedFrom(env, dp, r[k], entries[i])
    decreases |entries|
  {
    if entries != [] {
      var e := entries[0];
      var out := AdaptEntry(env, e, dp, lastTable).value;
      if out != [] {
        AdaptInstructionsTranslated(env, e.flowMatch, dp, [], e.instructions);
        var ids := Registry.SwitchIdToOurTableId(env.maps, dp, e.tableId);
        assert ids[if lastTable then |ids| - 1 else 0] in ids;
        assert AdaptedFrom(env, dp, out[0], e);
      }
      FlowStatsAdaptedMeaning(env, acc + out, entries[1..], dp, lastTable);
      var r := FlowStatsAdapted(env, acc + out, entries[1..], dp, lastTable).value;
      assert r[..|acc + out|][..|acc|] == r[..|acc|];
      forall k | |acc| <= k < |r|
        ensures exists i :: 0 <= i < |entries| && AdaptedFrom(env, dp, r[k], entries[i])
      {
        if k < |acc + out| {
          assert r[k] == (acc + out)[k] == out[0];
        } else {
          var i :| 0 <= i < |entries[1..]| && AdaptedFrom(env, dp, r[k], entries[1..][i]);
          assert entries[1..][i] == entries[i + 1];
        }
      }
    }
  }

  /** Whether a reported entry yields an adapted entry: its scan keeps it and its table has a logical id. */
  ghost predicate Reported(env: Env, e: FlowStatsEntry, dp: int)
    requires env.Valid()
  {
    && AdaptInstructions(env, e.flowMatch, dp, [], e.instructions).Ok?
    && AdaptInstructions(env, e.flowMatch, dp, [], e.instructions).value.Keep?
    && Registry.SwitchIdToOurTableId(env.maps, dp, e.tableId) != []
  }

  /** The adapted entry a reported entry yields. */
  ghost function AdaptedCopy(env: Env, e: FlowStatsEntry, dp: int, lastTable: bool): FlowStatsEntry
    requires env.Valid() && Reported(env, e, dp)
  {
    var ids := Registry.SwitchIdToOurTableId(env.maps, dp, e.tableId);
    e.(tableId := ids[if lastTable then |ids| - 1 else 0],
       instructions := AdaptInstructions(env, e.flowMatch, dp, [], e.instructions).value.value)
  }

  /** How many of the entries yield an adapted entry. */
  ghost function ReportedCount(env: Env, entries: seq<FlowStatsEntry>, dp: int): nat
    requires env.Valid()
  {
    if entries == [] then 0
    else (if Reported(env, entries[0], dp) then 1 else 0) + ReportedCount(env, entries[1..], dp)
  }

  /**
   * The converse of FlowStatsAdaptedMeaning: the loop fails exactly when
   * adapting some entry fails, and otherwise adds one entry per reported
   * entry that is kept and has a logical id, and nothing for the others.
   */
  lemma {:induction false} FlowStatsAdaptedCount(env: Env, acc: seq<FlowStatsEntry>, entries: seq<FlowStatsEntry>, dp: int, lastTable: bool)
    requires env.Valid()
    ensures FlowStatsAdapted(env, acc, entries, dp, lastTable).Ok?
            <==> forall i :: 0 <= i < |entries| ==> AdaptEntry(env, entries[i], dp, lastTable).Ok?
    ensures FlowStatsAdapted(env, acc, entries, dp, lastTable).Ok? ==>
              |FlowStatsAdapted(env, acc, entries, dp, lastTable).value| == |acc| + ReportedCount(env, entries, dp)
    decreases |entries|
  {
    if entries != [] {
      var out := AdaptEntry(env, entries[0], dp, lastTable);
      if out.Ok? {
        FlowStatsAdaptedCount(env, acc + out.value, entries[1..], dp, lastTable);
        assert forall i :: 1 <= i < |entries| ==> entries[1..][i - 1] == entries[i];
        assert (forall i :: 0 <= i < |entries[1..]| ==> AdaptEntry(env, entries[1..][i], dp, lastTable).Ok?)
               ==> forall i :: 0 <= i < |entries| ==> AdaptEntry(env, entries[i], dp, lastTable).Ok? by {
          forall i | 0 <= i < |entries[1..]| ensures entries[1..][i] == entries[i + 1] { }
        }
      }
    }
  }

  /**
   * Every reported entry that is kept and has a logical id appears in the
   * result: same match, priority and cookie, under the last logical id of
   * its table for the last table and the first otherwise, with its
   * instructions as the scan rewrote them.
   */
  lemma {:induction false} KeptEntryIsReported(env: Env, acc: seq<FlowStatsEntry>, entries: seq<FlowStatsEntry>, dp: int, lastTable: bool,
                                               i: int, insts: seq<Instruction>)
    requires env.Valid() && FlowStatsAdapted(env, acc, entries, dp, lastTable).Ok?
    requires 0 <= i < |entries|
    requires AdaptInstructions(env, entries[i].flowMatch, dp, [], entries[i].instructions) == Ok(Keep(insts))
    requires Registry.SwitchIdToOurTableId(env.maps, dp, entries[i].tableId) != []
    ensures var ids := Registry.SwitchIdToOurTableId(env.maps, dp, entries[i].tableId);
            entries[i].(tableId := ids[if lastTable then |ids| - 1 else 0], instructions := insts)
              in FlowStatsAdapted(env, acc, entries, dp, lastTable).value
    decreases |entries|
  {
    var out := AdaptEntry(env, entries[0], dp, lastTable).value;
    if i == 0 {
      FlowStatsAdaptedMeaning(env, acc + out, entries[1..], dp, lastTable);
      var r := FlowStatsAdapted(env, acc + out, entries[1..], dp, lastTable).value;
      assert r[|acc|] == (acc + out)[|acc|] == out[0];
    } else {
      assert entries[1..][i - 1] == entries[i];
      KeptEntryIsReported(env, acc + out, entries[1..], dp, lastTable, i - 1, insts);
    }
  }

  /**
   * On a middle device, an entry with the hidden rule's match whose first
   * instruction applies an output first is never reported.
   */
  lemma HiddenRuleIsNotReported(env: Env, e: FlowStatsEntry, dp: int, lastTable: bool, port: int, acts: seq<Action>, insts: seq<Instruction>)
    requires env.Valid() && IsHiddenRule(env, dp, e.flowMatch)
    requires e.instructions == [ApplyActions([Output(port)] + acts)] + insts
    ensures AdaptEntry(env, e, dp, lastTable) == Ok([])
  {
    assert ScanActions(env, e.flowMatch, dp, ActionScan([], None), [Output(port)] + acts) == Ok(Skip);
  }

  /** The action loop of `adaptFlowStatsEntries`. */
  method ScanApplyActions(env: Env, m: Match, dp: int, acts: seq<Action>) returns (r: Result<Adapted<ActionScan>>)
    requires env.Valid()
    ensures r == ScanActions(env, m, dp, ActionScan([], None), acts)
  {
    var actions: seq<Action> := [];
    var gotoInst: Option<Instruction> := None;
    var i := 0;
    while i < |acts|
      invariant 0 <= i <= |acts|
      invariant ScanActions(env, m, dp, ActionScan([], None), acts) == ScanActions(env, m, dp, ActionScan(actions, gotoInst), acts[i..])
    {
      var act := acts[i];
      assert acts[i..][1..] == acts[i + 1..];
      if act.Output? {
        if IsHiddenRule(env, dp, m) {
          return Ok(Skip);
        }
        var owner := OutputPortOwner(env.eps, dp, act.port);
        if owner.Err? {
          return Err(owner.error);
        }
        if owner.value.Some? {
          var sw := SwitchById(env.eps, owner.value.value);
          if sw.None? {
            return Err(NullPointer);
          }
          if sw.value.tableMap != [] {
            var outTable := -1;
            var translateGoto := Registry.SwitchIdToOurTableId(env.maps, owner.value.value, 0);
            if translateGoto != [] {
              outTable := translateGoto[|translateGoto| - 1];
            }
            if outTable != -1 {
              gotoInst := Some(GotoTable(outTable));
            }
          }
        } else {
          actions := actions + [act];
        }
      } else {
        actions := actions + [act];
      }
      i := i + 1;
    }
    return Ok(Keep(ActionScan(actions, gotoInst)));
  }

  /** The scan of a table map for the logical id of a physical table; -1 when there is none. */
  method FindLogicalTable(tableMap: seq<(int, int)>, physical: int) returns (targetTable: int)
    ensures targetTable == (var k := KeyOfValue(tableMap, physical); if k.None? then -1 else k.value)
  {
    targetTable := -1;
    var j := 0;
    while j < |tableMap|
      invariant 0 <= j <= |tableMap|
      invariant KeyOfValue(tableMap, physical) == KeyOfValue(tableMap[j..], physical)
    {
      assert tableMap[j..][1..] == tableMap[j + 1..];
      if tableMap[j].1 == physical {
        return tableMap[j].0;
      }
      j := j + 1;
    }
  }

  /** The body of the instruction loop: one instruction, then the jump an output turned into. */
  method AdaptOneInstruction(env: Env, m: Match, dp: int, insts: seq<Instruction>, inst: Instruction)
    returns (r: Result<Adapted<seq<Instruction>>>)
    requires env.Valid()
    ensures r == AdaptInstruction(env, m, dp, insts, inst)
  {
    var out := insts;
    var gotoInst: Option<Instruction> := None;
    match inst {
      case ApplyActions(acts) =>
        var scan := ScanApplyActions(env, m, dp, acts);
        if scan.Err? {
          return Err(scan.error);
        }
        if scan.value.Skip? {
          return Ok(Skip);
        }
        var sc := scan.value.value;
        if sc.kept != [] {
          out := out + [ApplyActions(sc.kept)];
        }
        gotoInst := sc.gotoInst;
        assert out + (if gotoInst.Some? then [gotoInst.value] else [])
            == insts + (if sc.kept != [] then [ApplyActions(sc.kept)] else [])
                     + (if sc.gotoInst.Some? then [sc.gotoInst.value] else []);
        assert out + [] == out;
        assert AdaptInstruction(env, m, dp, insts, inst) == Ok(Keep(out + (if gotoInst.Some? then [gotoInst.value] else [])));
        assert out + [] == out;
        assert AdaptInstruction(env, m, dp, insts, inst) == Ok(Keep(out + (if gotoInst.Some? then [gotoInst.value] else [])));
      case GotoTable(t) =>
        var sw := SwitchById(env.eps, dp);
        if sw.None? {
          return Err(NullPointer);
        }
        var targetTable := FindLogicalTable(sw.value.tableMap, t);
        if targetTable != -1 {
          out := out + [GotoTable(targetTable)];
        }
        assert AdaptInstruction(env, m, dp, insts, inst) == Ok(Keep(out));
      case OtherInstruction(_) =>
        out := out + [inst];
        assert AdaptInstruction(env, m, dp, insts, inst) == Ok(Keep(out));
    }
    if gotoInst.Some? {
      out := out + [gotoInst.value];
    }
    return Ok(Keep(out));
  }

  /** The instruction loop of `adaptFlowStatsEntries` for one entry. */
  method AdaptEntryInstructions(env: Env, e: FlowStatsEntry, dp: int) returns (r: Result<Adapted<seq<Instruction>>>)
    requires env.Valid()
    ensures r == AdaptInstructions(env, e.flowMatch, dp, [], e.instructions)
  {
    var insts: seq<Instruction> := [];
    var i := 0;
    while i < |e.instructions|
      invariant 0 <= i <= |e.instructions|
      invariant AdaptInstructions(env, e.flowMatch, dp, [], e.instructions)
                == AdaptInstructions(env, e.flowMatch, dp, insts, e.instructions[i..])
    {
      assert e.instructions[i..][1..] == e.instructions[i + 1..];
      var next := AdaptOneInstruction(env, e.flowMatch, dp, insts, e.instructions[i]);
      if next.Err? {
        return Err(next.error);
      }
      if next.value.Skip? {
        return Ok(Skip);
      }
      insts := next.value.value;
      i := i + 1;
    }
    return Ok(Keep(insts));
  }

  /** `adaptFlowStatsEntries`. */
  method AdaptFlowStatsEntries(env: Env, entries: seq<FlowStatsEntry>, dp: int, lastTable: bool) returns (r: Result<seq<FlowStatsEntry>>)
    requires env.Valid()
    ensures r == FlowStatsAdapted(env, [], entries, dp, lastTable)
  {
    if entries == [] {
      return Ok([]);
    }
    var filteredStats: seq<FlowStatsEntry> := [];
    var i := 0;
    while i < |entries|
      invariant 0 <= i <= |entries|
      invariant FlowStatsAdapted(env, [], entries, dp, lastTable) == FlowStatsAdapted(env, filteredStats, entries[i..], dp, lastTable)
    {
      var e := entries[i];
      assert entries[i..][1..] == entries[i + 1..];
      var ourTableId := Registry.SwitchIdToOurTableId(env.maps, dp, e.tableId);
      var insts := AdaptEntryInstructions(env, e, dp);
      if insts.Err? {
        return Err(insts.error);
      }
      if insts.value.Keep? && ourTableId != [] {
        var t := ourTableId[if lastTable then |ourTableId| - 1 else 0];
        filteredStats := filteredStats + [e.(tableId := t, instructions := insts.value.value)];
      } else {
        assert AdaptEntry(env, e, dp, lastTable) == Ok([]);
        assert filteredStats + [] == filteredStats;
      }
      i := i + 1;
    }
    return Ok(filteredStats);
  }
}

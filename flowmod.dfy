/**
 * The flow-mod translation of the MultiSwitch stage: a flow-mod for a
 * logical table becomes a flow-mod for the physical table behind it, with
 * its instructions rewritten so that a jump to a table on another device
 * becomes an output towards that device.
 */
module FlowMods {
  import opened Wrappers
  import opened OpenFlow
  import opened Config
  import opened Network
  import opened IdPairs
  import Registry
  import Matches

  /**
   * The variables of the instruction loop: the instructions kept, the
   * actions gathered, the loop index of the last APPLY_ACTIONS (-1 if none)
   * and, for the corrected insertion, how many instructions had been kept
   * when that APPLY_ACTIONS was met.
   */
  datatype Rewrite = Rewrite(insts: seq<Instruction>, actions: seq<Action>, foundIndex: int, foundKept: int)

  const Start := Rewrite([], [], -1, 0)

  /** The port of device `from` that leads to device `to`: its out port upwards, its in port downwards. */
  function PortTowards(topo: Topology, from: int, to: int): int
  {
    if from > to then topo.inPortOfDataplaneId(from, to) else topo.outPortOfDataplaneId(from, to)
  }

  /** A GOTO_TABLE whose target table lives on another device than `from`. */
  predicate CrossesDevice(env: Env, from: IdPair, inst: Instruction)
    requires env.Valid()
  {
    inst.GotoTable? && Registry.OurTableIdToSwitchId(env.maps, inst.tableId).dataplaneId != from.dataplaneId
  }

  /** One pass of the loop body over instruction `inst` at loop index `index`. */
  function Step(env: Env, from: IdPair, st: Rewrite, inst: Instruction, index: int): Result<Rewrite>
    requires env.Valid()
  {
    match inst
    case GotoTable(g) =>
      var to := Registry.OurTableIdToSwitchId(env.maps, g);
      if to.dataplaneId != from.dataplaneId then
        Ok(st.(actions := st.actions + [Output(PortTowards(env.topo, from.dataplaneId, to.dataplaneId))]))
      else (
        match SwitchById(env.eps, from.dataplaneId)
        case None => Err(NullPointer)
        case Some(sw) => (
          match Get(sw.tableMap, g)
          case None => Err(NullPointer)
          case Some(physical) => Ok(st.(insts := st.insts + [GotoTable(physical)]))))
    case ApplyActions(acts) =>
      Ok(st.(actions := st.actions + acts, foundIndex := index, foundKept := |st.insts|))
    case OtherInstruction(_) =>
      Ok(st.(insts := st.insts + [inst]))
  }

  /** The loop run over `insts`; the first failing lookup ends it. */
  function Collect(env: Env, from: IdPair, insts: seq<Instruction>): Result<Rewrite>
    requires env.Valid()
  {
    if insts == [] then Ok(Start)
    else
      match Collect(env, from, insts[..|insts| - 1])
      case Err(e) => Err(e)
      case Ok(st) => Step(env, from, st, insts[|insts| - 1], |insts| - 1)
  }

  /** The shape of the loop's result. */
  ghost predicate Collected(env: Env, from: IdPair, insts: seq<Instruction>, st: Rewrite)
    requires env.Valid()
  {
    // no APPLY_ACTIONS is kept: every action ends up in the gathered list
    && (forall i :: 0 <= i < |st.insts| ==> !st.insts[i].ApplyActions?)
    // a kept jump names a physical table of the device the flow-mod goes to
    && (forall i :: 0 <= i < |st.insts| && st.insts[i].GotoTable? ==>
          SwitchById(env.eps, from.dataplaneId).Some?
          && st.insts[i].tableId in Values(SwitchById(env.eps, from.dataplaneId).value.tableMap))
    && |st.insts| <= |insts|
    && 0 <= st.foundKept <= |st.insts|
    // foundIndex is the position of the last APPLY_ACTIONS, or -1
    && -1 <= st.foundIndex < |insts|
    && (st.foundIndex == -1 <==> forall i :: 0 <= i < |insts| ==> !insts[i].ApplyActions?)
    && (st.foundIndex >= 0 ==> insts[st.foundIndex].ApplyActions?
                               && forall i :: st.foundIndex < i < |insts| ==> !insts[i].ApplyActions?)
    // actions are gathered only from APPLY_ACTIONS and from jumps to other devices
    && (st.actions != [] ==> exists i :: 0 <= i < |insts| && (insts[i].ApplyActions? || CrossesDevice(env, from, insts[i])))
  }

  /** The loop keeps the shape above. */
  lemma {:induction false} CollectShape(env: Env, from: IdPair, insts: seq<Instruction>)
    requires env.Valid() && Collect(env, from, insts).Ok?
    ensures Collected(env, from, insts, Collect(env, from, insts).value)
  {
    if insts != [] {
      var p := insts[..|insts| - 1];
      var inst := insts[|insts| - 1];
      CollectShape(env, from, p);
      var st := Collect(env, from, p).value;
      assert forall i :: 0 <= i < |p| ==> p[i] == insts[i];
      if inst.GotoTable? && !CrossesDevice(env, from, inst) {
        var sw := SwitchById(env.eps, from.dataplaneId).value;
        var physical := Get(sw.tableMap, inst.tableId).value;
        var i :| 0 <= i < |sw.tableMap| && sw.tableMap[i] == (inst.tableId, physical);
        assert Values(sw.tableMap)[i] == physical;
      }
    }
  }

  // ---------------------------------------------------------------- what the loop computes

  /** The physical table that device `from`'s configuration maps logical table `g` to (`tableMap.get(g)`). */
  function PhysicalTable(env: Env, from: IdPair, g: int): Option<int>
  {
    match SwitchById(env.eps, from.dataplaneId)
    case None => None
    case Some(sw) => Get(sw.tableMap, g)
  }

  /**
   * The actions one instruction contributes to the gathered APPLY_ACTIONS:
   * its own actions for an APPLY_ACTIONS, an OUTPUT towards the target
   * device for a jump to another device, nothing otherwise.
   */
  function ActionsOf(env: Env, from: IdPair, inst: Instruction): seq<Action>
    requires env.Valid()
  {
    match inst
    case ApplyActions(acts) => acts
    case GotoTable(g) =>
      if CrossesDevice(env, from, inst)
      then [Output(PortTowards(env.topo, from.dataplaneId, Registry.OurTableIdToSwitchId(env.maps, g).dataplaneId))]
      else []
    case OtherInstruction(_) => []
  }

  /**
   * The instructions one instruction leaves in the new list: a jump within
   * the device, re-aimed at the physical table, and any instruction that is
   * neither a jump nor an APPLY_ACTIONS, unchanged.
   */
  function KeptOf(env: Env, from: IdPair, inst: Instruction): seq<Instruction>
    requires env.Valid()
  {
    match inst
    case ApplyActions(_) => []
    case GotoTable(g) =>
      if CrossesDevice(env, from, inst) then []
      else (match PhysicalTable(env, from, g) case Some(p) => [GotoTable(p)] case None => [])
    case OtherInstruction(_) => [inst]
  }

  /** The gathered actions: each instruction's contribution, in instruction order. */
  function GatheredActions(env: Env, from: IdPair, insts: seq<Instruction>): seq<Action>
    requires env.Valid()
  {
    if insts == [] then []
    else GatheredActions(env, from, insts[..|insts| - 1]) + ActionsOf(env, from, insts[|insts| - 1])
  }

  /** The kept instructions: each instruction's contribution, in instruction order. */
  function KeptInstructions(env: Env, from: IdPair, insts: seq<Instruction>): seq<Instruction>
    requires env.Valid()
  {
    if insts == [] then []
    else KeptInstructions(env, from, insts[..|insts| - 1]) + KeptOf(env, from, insts[|insts| - 1])
  }

  /** The index of the last APPLY_ACTIONS, -1 when there is none. */
  function LastApply(insts: seq<Instruction>): (k: int)
    ensures -1 <= k < |insts|
    ensures k == -1 <==> forall i :: 0 <= i < |insts| ==> !insts[i].ApplyActions?
    ensures k >= 0 ==> insts[k].ApplyActions? && forall i :: k < i < |insts| ==> !insts[i].ApplyActions?
  {
    if insts == [] then -1
    else if insts[|insts| - 1].ApplyActions? then |insts| - 1
    else
      var k := LastApply(insts[..|insts| - 1]);
      assert forall i :: 0 <= i < |insts| - 1 ==> insts[..|insts| - 1][i] == insts[i];
      k
  }

  /** Every lookup the loop makes for a jump within the device succeeds. */
  predicate LookupsSucceed(env: Env, from: IdPair, insts: seq<Instruction>)
    requires env.Valid()
  {
    forall i :: 0 <= i < |insts| && insts[i].GotoTable? && !CrossesDevice(env, from, insts[i]) ==>
      PhysicalTable(env, from, insts[i].tableId).Some?
  }

  /**
   * The instruction loop succeeds exactly when every lookup for a jump
   * within the device succeeds. It then gathers each instruction's actions
   * in order, keeps each instruction's rewritten form in order, ends with
   * foundIndex at the last APPLY_ACTIONS, and foundKept counts the
   * instructions kept before that APPLY_ACTIONS.
   */
  lemma {:induction false} CollectMeaning(env: Env, from: IdPair, insts: seq<Instruction>)
    requires env.Valid()
    ensures Collect(env, from, insts).Ok? <==> LookupsSucceed(env, from, insts)
    ensures Collect(env, from, insts).Ok? ==>
              var st := Collect(env, from, insts).value;
              && st.actions == GatheredActions(env, from, insts)
              && st.insts == KeptInstructions(env, from, insts)
              && st.foundIndex == LastApply(insts)
              && (st.foundIndex >= 0 ==> st.foundKept == |KeptInstructions(env, from, insts[..st.foundIndex])|)
  {
    if insts != [] {
      var n := |insts| - 1;
      var p := insts[..n];
      var inst := insts[n];
      CollectMeaning(env, from, p);
      assert LookupsSucceed(env, from, insts) <==>
             LookupsSucceed(env, from, p)
             && (inst.GotoTable? && !CrossesDevice(env, from, inst) ==> PhysicalTable(env, from, inst.tableId).Some?) by {
        assert forall i :: 0 <= i < n ==> p[i] == insts[i];
      }
      if Collect(env, from, p).Ok? {
        var st := Collect(env, from, p).value;
        assert LastApply(insts) == if inst.ApplyActions? then n else LastApply(p);
        if st.foundIndex >= 0 && !inst.ApplyActions? {
          assert insts[..st.foundIndex] == p[..st.foundIndex];
        }
      }
    }
  }

  lemma {:induction false} GatheredAppend(env: Env, from: IdPair, a: seq<Instruction>, b: seq<Instruction>)
    requires env.Valid()
    ensures GatheredActions(env, from, a + b) == GatheredActions(env, from, a) + GatheredActions(env, from, b)
    ensures KeptInstructions(env, from, a + b) == KeptInstructions(env, from, a) + KeptInstructions(env, from, b)
    decreases |b|
  {
    if b != [] {
      var b' := b[..|b| - 1];
      assert (a + b)[..|a + b| - 1] == a + b';
      GatheredAppend(env, from, a, b');
    } else {
      assert a + b == a;
    }
  }

  /**
   * Each instruction's contribution stands in its place in the gathered
   * actions and the kept instructions: a jump to another device becomes an
   * OUTPUT on the port towards that device, a jump within the device becomes
   * a jump to the physical table `tableMap.get(g)` (the loop having
   * succeeded, that lookup did), an APPLY_ACTIONS gives up its actions, and
   * any other instruction is kept as it was.
   */
  lemma InstructionContribution(env: Env, from: IdPair, insts: seq<Instruction>, i: int)
    requires env.Valid() && Collect(env, from, insts).Ok? && 0 <= i < |insts|
    ensures GatheredActions(env, from, insts)
            == GatheredActions(env, from, insts[..i]) + ActionsOf(env, from, insts[i]) + GatheredActions(env, from, insts[i + 1..])
    ensures KeptInstructions(env, from, insts)
            == KeptInstructions(env, from, insts[..i]) + KeptOf(env, from, insts[i]) + KeptInstructions(env, from, insts[i + 1..])
    ensures CrossesDevice(env, from, insts[i]) ==>
              && ActionsOf(env, from, insts[i])
                 == [Output(PortTowards(env.topo, from.dataplaneId, Registry.OurTableIdToSwitchId(env.maps, insts[i].tableId).dataplaneId))]
              && KeptOf(env, from, insts[i]) == []
    ensures insts[i].GotoTable? && !CrossesDevice(env, from, insts[i]) ==>
              && PhysicalTable(env, from, insts[i].tableId).Some?
              && KeptOf(env, from, insts[i]) == [GotoTable(PhysicalTable(env, from, insts[i].tableId).value)]
              && ActionsOf(env, from, insts[i]) == []
    ensures insts[i].ApplyActions? ==> ActionsOf(env, from, insts[i]) == insts[i].actions && KeptOf(env, from, insts[i]) == []
    ensures insts[i].OtherInstruction? ==> ActionsOf(env, from, insts[i]) == [] && KeptOf(env, from, insts[i]) == [insts[i]]
  {
    SplitAt(env, from, insts, i);
    if insts[i].GotoTable? && !CrossesDevice(env, from, insts[i]) {
      CollectMeaning(env, from, insts);
    }
  }

  lemma SplitAt(env: Env, from: IdPair, insts: seq<Instruction>, i: int)
    requires env.Valid() && 0 <= i < |insts|
    ensures GatheredActions(env, from, insts)
            == GatheredActions(env, from, insts[..i]) + ActionsOf(env, from, insts[i]) + GatheredActions(env, from, insts[i + 1..])
    ensures KeptInstructions(env, from, insts)
            == KeptInstructions(env, from, insts[..i]) + KeptOf(env, from, insts[i]) + KeptInstructions(env, from, insts[i + 1..])
  {
    var one := [insts[i]];
    assert insts == insts[..i] + (one + insts[i + 1..]);
    GatheredAppend(env, from, insts[..i], one + insts[i + 1..]);
    GatheredAppend(env, from, one, insts[i + 1..]);
    assert one[..0] == [];
    assert GatheredActions(env, from, one) == ActionsOf(env, from, insts[i]);
    assert KeptInstructions(env, from, one) == KeptOf(env, from, insts[i]);
  }

  /**
   * The corrected rewrite, stated over the whole list: the kept
   * instructions in order and, when any action was gathered, one
   * APPLY_ACTIONS holding all of them in instruction order, placed after
   * the instructions kept before the last APPLY_ACTIONS (at the end when
   * there was none).
   */
  lemma RewriteMeaning(env: Env, from: IdPair, insts: seq<Instruction>)
    requires env.Valid() && LookupsSucceed(env, from, insts)
    ensures var kept := KeptInstructions(env, from, insts);
            var acts := GatheredActions(env, from, insts);
            var k := if LastApply(insts) == -1 then |kept| else |KeptInstructions(env, from, insts[..LastApply(insts)])|;
            && RewriteInstructions(env, from, insts).Ok?
            && (acts == [] ==> RewriteInstructions(env, from, insts).value == kept)
            && (acts != [] ==> 0 <= k <= |kept| && RewriteInstructions(env, from, insts).value == kept[..k] + [ApplyActions(acts)] + kept[k..])
  {
    CollectMeaning(env, from, insts);
    CollectShape(env, from, insts);
  }

  /**
   * The APPLY_ACTIONS insertion as written: at the loop index of the last
   * APPLY_ACTIONS (or at the instruction count when there is none), which
   * `ArrayList.add(index, e)` rejects when it exceeds the kept list.
   */
  function InsertAsWritten(st: Rewrite, count: int): Result<seq<Instruction>>
  {
    if st.actions == [] then Ok(st.insts)
    else
      var index := if st.foundIndex == -1 then count else st.foundIndex;
      if st.insts == [] then Ok([ApplyActions(st.actions)])
      else if index < 0 || index > |st.insts| then Err(IndexOutOfBounds(index, |st.insts|))
      else Ok(st.insts[..index] + [ApplyActions(st.actions)] + st.insts[index..])
  }

  /**
   * The APPLY_ACTIONS insertion corrected: after the instructions kept
   * before the last APPLY_ACTIONS, or at the end when there was none.
   */
  function InsertCorrected(st: Rewrite): (r: seq<Instruction>)
    requires 0 <= st.foundKept <= |st.insts|
    ensures st.actions == [] ==> r == st.insts
    ensures st.actions != [] ==> |r| == |st.insts| + 1
  {
    if st.actions == [] then st.insts
    else
      var index := if st.foundIndex == -1 then |st.insts| else st.foundKept;
      st.insts[..index] + [ApplyActions(st.actions)] + st.insts[index..]
  }

  /** The rewritten instruction list, as the corrected code computes it. */
  function RewriteInstructions(env: Env, from: IdPair, insts: seq<Instruction>): Result<seq<Instruction>>
    requires env.Valid()
  {
    match Collect(env, from, insts)
    case Err(e) => Err(e)
    case Ok(st) => CollectShape(env, from, insts); Ok(InsertCorrected(st))
  }

  /** The rewritten instruction list, as written. */
  function RewriteInstructionsAsWritten(env: Env, from: IdPair, insts: seq<Instruction>): Result<seq<Instruction>>
    requires env.Valid()
  {
    match Collect(env, from, insts)
    case Err(e) => Err(e)
    case Ok(st) => InsertAsWritten(st, |insts|)
  }

  /**
   * The rewritten instructions hold exactly one APPLY_ACTIONS with every
   * gathered action when any was gathered, and none otherwise; the kept
   * instructions keep their order around it.
   */
  lemma RewriteAggregatesActions(env: Env, from: IdPair, insts: seq<Instruction>)
    requires env.Valid() && Collect(env, from, insts).Ok?
    ensures var st := Collect(env, from, insts).value;
            var r := RewriteInstructions(env, from, insts);
            && r.Ok?
            && (st.actions == [] ==> r.value == st.insts && forall i :: 0 <= i < |r.value| ==> !r.value[i].ApplyActions?)
            && (st.actions != [] ==> exists k :: (0 <= k <= |st.insts|
                  && r.value == st.insts[..k] + [ApplyActions(st.actions)] + st.insts[k..]
                  && forall i :: 0 <= i < |r.value| && r.value[i].ApplyActions? ==> i == k))
  {
    CollectShape(env, from, insts);
    var st := Collect(env, from, insts).value;
    if st.actions != [] {
      var k := if st.foundIndex == -1 then |st.insts| else st.foundKept;
      var r := RewriteInstructions(env, from, insts).value;
      assert r == st.insts[..k] + [ApplyActions(st.actions)] + st.insts[k..];
    }
  }

  /** The corrected rewrite fails only where a lookup fails; the insertion itself never does. */
  lemma RewriteFailsOnlyOnLookup(env: Env, from: IdPair, insts: seq<Instruction>)
    requires env.Valid()
    ensures RewriteInstructions(env, from, insts).Err? <==> Collect(env, from, insts).Err?
    ensures RewriteInstructions(env, from, insts).Err? ==> RewriteInstructions(env, from, insts).error == NullPointer
  {
    CollectFailsWithNullPointer(env, from, insts);
  }

  lemma {:induction false} CollectFailsWithNullPointer(env: Env, from: IdPair, insts: seq<Instruction>)
    requires env.Valid()
    ensures Collect(env, from, insts).Err? ==> Collect(env, from, insts).error == NullPointer
  {
    if insts != [] {
      CollectFailsWithNullPointer(env, from, insts[..|insts| - 1]);
    }
  }

  lemma MultisetOfInsert(xs: seq<Instruction>, k: int, y: Instruction)
    requires 0 <= k <= |xs|
    ensures multiset(xs[..k] + [y] + xs[k..]) == multiset(xs) + multiset{y}
  {
    assert xs == xs[..k] + xs[k..];
  }

  /** Where the written insertion succeeds, it holds the same instructions as the corrected one, maybe in another order. */
  lemma InsertionsAgreeUpToOrder(env: Env, from: IdPair, insts: seq<Instruction>)
    requires env.Valid() && RewriteInstructionsAsWritten(env, from, insts).Ok?
    ensures RewriteInstructions(env, from, insts).Ok?
    ensures multiset(RewriteInstructionsAsWritten(env, from, insts).value) == multiset(RewriteInstructions(env, from, insts).value)
  {
    CollectShape(env, from, insts);
    var st := Collect(env, from, insts).value;
    if st.actions != [] && st.insts != [] {
      var a := if st.foundIndex == -1 then |insts| else st.foundIndex;
      var c := if st.foundIndex == -1 then |st.insts| else st.foundKept;
      MultisetOfInsert(st.insts, a, ApplyActions(st.actions));
      MultisetOfInsert(st.insts, c, ApplyActions(st.actions));
    }
  }

  /**
   * A flow-mod whose instructions are a kept instruction followed by a jump
   * to another device and no APPLY_ACTIONS: the written insertion asks for
   * index 2 of a one-element list, the corrected one appends the output.
   */
  lemma AsWrittenInsertOutOfBounds(env: Env, from: IdPair, kind: string, g: int, insts: seq<Instruction>)
    requires env.Valid() && insts == [OtherInstruction(kind), GotoTable(g)]
    requires Registry.OurTableIdToSwitchId(env.maps, g).dataplaneId != from.dataplaneId
    ensures var port := PortTowards(env.topo, from.dataplaneId, Registry.OurTableIdToSwitchId(env.maps, g).dataplaneId);
            && RewriteInstructionsAsWritten(env, from, insts) == Err(IndexOutOfBounds(2, 1))
            && RewriteInstructions(env, from, insts) == Ok([OtherInstruction(kind), ApplyActions([Output(port)])])
  {
    var port := PortTowards(env.topo, from.dataplaneId, Registry.OurTableIdToSwitchId(env.maps, g).dataplaneId);
    var st := Rewrite([OtherInstruction(kind)], [Output(port)], -1, 0);
    assert Collect(env, from, insts) == Ok(st) by {
      var first := [OtherInstruction(kind)];
      var s1 := Rewrite(first, [], -1, 0);
      assert Collect(env, from, first) == Ok(s1) by {
        assert Start.insts + first == first;
        assert Step(env, from, Start, OtherInstruction(kind), 0) == Ok(s1);
        assert first[..0] == [];
      }
      assert Step(env, from, s1, GotoTable(g), 1) == Ok(st) by {
        assert s1.actions + [Output(port)] == [Output(port)];
      }
      assert insts[..1] == first;
    }
    assert InsertAsWritten(st, 2) == Err(IndexOutOfBounds(2, 1));
    assert InsertCorrected(st) == [OtherInstruction(kind), ApplyActions([Output(port)])];
  }

  /**
   * Two APPLY_ACTIONS followed by a kept instruction: the written insertion
   * succeeds but puts the merged actions at loop index 1, after the kept
   * instruction, while the corrected one keeps them ahead of it.
   */
  lemma AsWrittenMovesActions(env: Env, from: IdPair, a: seq<Action>, b: seq<Action>, kind: string)
    requires env.Valid() && a + b != []
    ensures var insts := [ApplyActions(a), ApplyActions(b), OtherInstruction(kind)];
            && RewriteInstructionsAsWritten(env, from, insts) == Ok([OtherInstruction(kind), ApplyActions(a + b)])
            && RewriteInstructions(env, from, insts) == Ok([ApplyActions(a + b), OtherInstruction(kind)])
  {
    var insts := [ApplyActions(a), ApplyActions(b), OtherInstruction(kind)];
    assert insts[..0] == [];
    assert [] + a == a;
    assert insts[..1][..0] == [];
    assert Collect(env, from, insts[..1]) == Ok(Rewrite([], a, 0, 0));
    assert insts[..2][..1] == insts[..1];
    assert Collect(env, from, insts[..2]) == Ok(Rewrite([], a + b, 1, 0));
    assert insts[..3][..2] == insts[..2];
    assert insts[..3] == insts;
    var st := Rewrite([OtherInstruction(kind)], a + b, 1, 0);
    assert [] + [OtherInstruction(kind)] == [OtherInstruction(kind)];
    assert Collect(env, from, insts) == Ok(st);
    assert st.insts[..1] + [ApplyActions(a + b)] + st.insts[1..] == [OtherInstruction(kind), ApplyActions(a + b)];
    assert st.insts[..0] + [ApplyActions(a + b)] + st.insts[0..] == [ApplyActions(a + b), OtherInstruction(kind)];
  }

  /** Once the loop has failed on a prefix, it fails the same way on the whole list. */
  lemma {:induction false} CollectFailureSticks(env: Env, from: IdPair, insts: seq<Instruction>, n: int)
    requires env.Valid() && 0 <= n <= |insts| && Collect(env, from, insts[..n]).Err?
    ensures Collect(env, from, insts) == Collect(env, from, insts[..n])
    decreases |insts| - n
  {
    if n < |insts| {
      assert insts[..n + 1][..n] == insts[..n];
      CollectFailureSticks(env, from, insts, n + 1);
    } else {
      assert insts[..n] == insts;
    }
  }

  /** The instruction loop of `flowModToDataPlane`. */
  method CollectInstructions(env: Env, from: IdPair, insts: seq<Instruction>) returns (r: Result<Rewrite>)
    requires env.Valid()
    ensures r == Collect(env, from, insts)
  {
    var st := Start;
    var currentIndex := 0;
    while currentIndex < |insts|
      invariant 0 <= currentIndex <= |insts|
      invariant Collect(env, from, insts[..currentIndex]) == Ok(st)
    {
      var inst := insts[currentIndex];
      assert insts[..currentIndex + 1][..currentIndex] == insts[..currentIndex];
      match inst {
        case GotoTable(g) =>
          var to := Registry.OurTableIdToSwitchId(env.maps, g);
          if to.dataplaneId != from.dataplaneId {
            var port := env.topo.outPortOfDataplaneId(from.dataplaneId, to.dataplaneId);
            if from.dataplaneId > to.dataplaneId {
              port := env.topo.inPortOfDataplaneId(from.dataplaneId, to.dataplaneId);
            }
            st := st.(actions := st.actions + [Output(port)]);
          } else {
            var sw := SwitchById(env.eps, from.dataplaneId);
            if sw.None? {
              CollectFailureSticks(env, from, insts, currentIndex + 1);
              return Err(NullPointer);
            }
            var physical := Get(sw.value.tableMap, g);
            if physical.None? {
              CollectFailureSticks(env, from, insts, currentIndex + 1);
              return Err(NullPointer);
            }
            st := st.(insts := st.insts + [GotoTable(physical.value)]);
          }
        case ApplyActions(acts) =>
          st := st.(actions := st.actions + acts, foundIndex := currentIndex, foundKept := |st.insts|);
        case OtherInstruction(_) =>
          st := st.(insts := st.insts + [inst]);
      }
      currentIndex := currentIndex + 1;
    }
    assert insts[..currentIndex] == insts;
    r := Ok(st);
  }

  /**
   * `flowModToDataPlane`: the flow-mod retargeted to the physical table
   * behind its logical table, with rewritten instructions and, for the
   * highest logical table, IN_PORT pinned to the port on which traffic from
   * the next device up arrives. Returns the message and the device it goes to.
   */
  method FlowModToDataPlane(env: Env, fm: OFMessage) returns (r: Result<(OFMessage, int)>)
    requires env.Valid() && fm.FlowMod? && Matches.UniqueFields(fm.flowMatch)
    ensures var dest := Registry.OurTableIdToSwitchId(env.maps, fm.tableId);
            && (r.Err? <==> Collect(env, dest, fm.instructions).Err?)
            && (r.Err? ==> r.error == NullPointer)
            && (r.Ok? ==> r.value == (
                  FlowMod(fm.xid, fm.command, fm.cookie, fm.cookieMask, dest.tableId,
                          fm.idleTimeout, fm.hardTimeout, fm.priority, fm.bufferId, fm.flowFlags,
                          if fm.tableId == env.topo.maxTableId
                          then Matches.SetEntry(fm.flowMatch, MatchEntry(IN_PORT, PinnedInPort(env, dest.dataplaneId), None))
                          else fm.flowMatch,
                          RewriteInstructions(env, dest, fm.instructions).value),
                  dest.dataplaneId))
  {
    var dest := Registry.OurTableIdToSwitchId(env.maps, fm.tableId);
    var st := CollectInstructions(env, dest, fm.instructions);
    if st.Err? {
      CollectFailsWithNullPointer(env, dest, fm.instructions);
      return Err(st.error);
    }
    CollectShape(env, dest, fm.instructions);
    var newInsts := InsertCorrected(st.value);
    var newMatch := fm.flowMatch;
    if fm.tableId == env.topo.maxTableId {
      newMatch := Matches.PinInPort(fm.flowMatch, PinnedInPort(env, dest.dataplaneId));
    }
    r := Ok((FlowMod(fm.xid, fm.command, fm.cookie, fm.cookieMask, dest.tableId,
                     fm.idleTimeout, fm.hardTimeout, fm.priority, fm.bufferId, fm.flowFlags,
                     newMatch, newInsts), dest.dataplaneId));
  }

  /** The IN_PORT a highest-table flow-mod is pinned to on device `dp`. */
  function PinnedInPort(env: Env, dp: int): int
  {
    env.topo.inPortOfDataplaneId(dp, env.topo.nextBiggerDataplaneId(dp))
  }
}

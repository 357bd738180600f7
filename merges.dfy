/**
 * The merge rules MultiSwitchApplication applies when every connected
 * device has answered: minimum of the nonzero buffer counts, bitwise OR of
 * meter bitmaps, and the minimum of each group or meter limit.
 */
module Merges {
  import opened OpenFlow
  import opened JavaInts

  function Min(a: int, b: int): int
  {
    if a <= b then a else b
  }

  /**
   * The nBuffers merge of the features reply: the smallest nonzero value,
   * or 0 when every value is 0 (or there is none).
   */
  function MinNonZero(xs: seq<int>): (r: int)
    ensures r == 0 <==> forall i :: 0 <= i < |xs| ==> xs[i] == 0
    ensures r != 0 ==> (exists i :: 0 <= i < |xs| && xs[i] == r)
                       && forall i :: 0 <= i < |xs| && xs[i] != 0 ==> r <= xs[i]
  {
    if xs == [] then 0
    else
      var rest := MinNonZero(xs[..|xs| - 1]);
      var x := xs[|xs| - 1];
      assert forall i :: 0 <= i < |xs| - 1 ==> xs[..|xs| - 1][i] == xs[i];
      if x == 0 then rest else if rest == 0 then x else Min(rest, x)
  }

  /** One step of the limit loops: `acc = (acc == -1 ? x : Math.min(acc, x))`. */
  function MinStep(acc: int, x: int): int
  {
    if acc == -1 then x else Min(acc, x)
  }

  /** The limit loop run over `xs` from `seed`, in order. */
  function MinFold(seed: int, xs: seq<int>): int
  {
    if xs == [] then seed else MinStep(MinFold(seed, xs[..|xs| - 1]), xs[|xs| - 1])
  }

  lemma MinFoldSnoc(seed: int, xs: seq<int>, x: int)
    ensures MinFold(seed, xs + [x]) == MinStep(MinFold(seed, xs), x)
  {
    assert (xs + [x])[..|xs|] == xs;
  }

  /** Seeded with "unset" (-1), the limit loop computes the minimum of non-negative limits. */
  lemma {:induction false} MinFoldFromUnset(xs: seq<int>)
    requires xs != []
    requires forall i :: 0 <= i < |xs| ==> xs[i] >= 0
    ensures exists i :: 0 <= i < |xs| && xs[i] == MinFold(-1, xs)
    ensures forall i :: 0 <= i < |xs| ==> MinFold(-1, xs) <= xs[i]
  {
    var p := xs[..|xs| - 1];
    assert forall i :: 0 <= i < |p| ==> p[i] == xs[i];
    if p != [] {
      MinFoldFromUnset(p);
      var j :| 0 <= j < |p| && p[j] == MinFold(-1, p);
      assert MinFold(-1, p) >= 0;
    }
  }

  /** Seeded with 0, the limit loop never leaves 0 when the limits are non-negative. */
  lemma {:induction false} MinFoldFromZero(xs: seq<int>)
    requires forall i :: 0 <= i < |xs| ==> xs[i] >= 0
    ensures MinFold(0, xs) == 0
  {
    if xs != [] {
      var p := xs[..|xs| - 1];
      assert forall i :: 0 <= i < |p| ==> p[i] == xs[i];
      MinFoldFromZero(p);
    }
  }

  /** Bitwise OR of bitmaps, each held as the set of its set bit positions, in order. */
  function OrAll(xs: seq<set<nat>>): (r: set<nat>)
    ensures forall b :: b in r <==> exists i :: 0 <= i < |xs| && b in xs[i]
  {
    if xs == [] then {}
    else
      var p := xs[..|xs| - 1];
      assert forall i :: 0 <= i < |p| ==> p[i] == xs[i];
      OrAll(p) + xs[|xs| - 1]
  }

  // ---------------------------------------------------------------- meters

  /** The numeric limits of a meter-features reply. */
  datatype MeterLimit = MaxMeter | MaxBands | MaxColor

  function MeterLimitOf(f: MeterFeatures, l: MeterLimit): int
  {
    match l
    case MaxMeter => f.maxMeter
    case MaxBands => f.maxBands
    case MaxColor => f.maxColor
  }

  function MeterLimits(reps: seq<MeterFeatures>, l: MeterLimit): (xs: seq<int>)
    ensures |xs| == |reps|
    ensures forall i :: 0 <= i < |reps| ==> xs[i] == MeterLimitOf(reps[i], l)
  {
    if reps == [] then [] else MeterLimits(reps[..|reps| - 1], l) + [MeterLimitOf(reps[|reps| - 1], l)]
  }

  function Capabilities(reps: seq<MeterFeatures>): (xs: seq<set<nat>>)
    ensures |xs| == |reps|
    ensures forall i :: 0 <= i < |reps| ==> xs[i] == reps[i].capabilities
  {
    if reps == [] then [] else Capabilities(reps[..|reps| - 1]) + [reps[|reps| - 1].capabilities]
  }

  function BandTypes(reps: seq<MeterFeatures>): (xs: seq<set<nat>>)
    ensures |xs| == |reps|
    ensures forall i :: 0 <= i < |reps| ==> xs[i] == reps[i].bandTypes
  {
    if reps == [] then [] else BandTypes(reps[..|reps| - 1]) + [reps[|reps| - 1].bandTypes]
  }

  /**
   * The meter-features merge as the loop is written: capabilities and band
   * types are ORed, and maxBands, maxColor and maxMeter are all the minimum
   * of the replies' maxBands (the first two cast to short).
   */
  function MeterFeaturesAsWritten(reps: seq<MeterFeatures>): MeterFeatures
  {
    var bands := MinFold(-1, MeterLimits(reps, MaxBands));
    MeterFeatures(
      maxMeter := bands,
      bandTypes := OrAll(BandTypes(reps)),
      capabilities := OrAll(Capabilities(reps)),
      maxBands := ToShort(bands),
      maxColor := ToShort(bands))
  }

  /** The meter-features merge with each limit taken from its own field. */
  function MeterFeaturesMerged(reps: seq<MeterFeatures>): MeterFeatures
  {
    MeterFeatures(
      maxMeter := MinFold(-1, MeterLimits(reps, MaxMeter)),
      bandTypes := OrAll(BandTypes(reps)),
      capabilities := OrAll(Capabilities(reps)),
      maxBands := ToShort(MinFold(-1, MeterLimits(reps, MaxBands))),
      maxColor := ToShort(MinFold(-1, MeterLimits(reps, MaxColor))))
  }

  /** One more reply extends each limit loop by one step and each bitmap OR by one operand. */
  lemma MeterRoundStep(reps: seq<MeterFeatures>, i: int)
    requires 0 <= i < |reps|
    ensures forall l :: MinFold(-1, MeterLimits(reps[..i + 1], l)) == MinStep(MinFold(-1, MeterLimits(reps[..i], l)), MeterLimitOf(reps[i], l))
    ensures OrAll(Capabilities(reps[..i + 1])) == OrAll(Capabilities(reps[..i])) + reps[i].capabilities
    ensures OrAll(BandTypes(reps[..i + 1])) == OrAll(BandTypes(reps[..i])) + reps[i].bandTypes
  {
    assert reps[..i + 1][..i] == reps[..i];
  }

  /** The merge loop of the METER_FEATURES case, as written. */
  method MergeMeterFeaturesAsWritten(reps: seq<MeterFeatures>) returns (r: MeterFeatures)
    ensures r == MeterFeaturesAsWritten(reps)
  {
    var capabilities: set<nat> := {};
    var bandTypes: set<nat> := {};
    var maxBands := -1;
    var maxColors := -1;
    var maxMeter := -1;
    var i := 0;
    while i < |reps|
      invariant 0 <= i <= |reps|
      invariant capabilities == OrAll(Capabilities(reps[..i]))
      invariant bandTypes == OrAll(BandTypes(reps[..i]))
      invariant maxBands == maxColors == maxMeter == MinFold(-1, MeterLimits(reps[..i], MaxBands))
    {
      var rep := reps[i];
      MeterRoundStep(reps, i);
      capabilities := capabilities + rep.capabilities;
      bandTypes := bandTypes + rep.bandTypes;
      maxBands := if maxBands == -1 then rep.maxBands else Min(maxBands, rep.maxBands);
      maxColors := if maxColors == -1 then rep.maxBands else Min(maxColors, rep.maxBands);
      maxMeter := if maxMeter == -1 then rep.maxBands else Min(maxMeter, rep.maxBands);
      i := i + 1;
    }
    assert reps[..i] == reps;
    r := MeterFeatures(maxMeter, bandTypes, capabilities, ToShort(maxBands), ToShort(maxColors));
  }

  /** The merge loop of the METER_FEATURES case, reading each limit from its own getter. */
  method MergeMeterFeatures(reps: seq<MeterFeatures>) returns (r: MeterFeatures)
    ensures r == MeterFeaturesMerged(reps)
  {
    var capabilities: set<nat> := {};
    var bandTypes: set<nat> := {};
    var maxBands := -1;
    var maxColors := -1;
    var maxMeter := -1;
    var i := 0;
    while i < |reps|
      invariant 0 <= i <= |reps|
      invariant capabilities == OrAll(Capabilities(reps[..i]))
      invariant bandTypes == OrAll(BandTypes(reps[..i]))
      invariant maxBands == MinFold(-1, MeterLimits(reps[..i], MaxBands))
      invariant maxColors == MinFold(-1, MeterLimits(reps[..i], MaxColor))
      invariant maxMeter == MinFold(-1, MeterLimits(reps[..i], MaxMeter))
    {
      var rep := reps[i];
      MeterRoundStep(reps, i);
      capabilities := capabilities + rep.capabilities;
      bandTypes := bandTypes + rep.bandTypes;
      maxBands := if maxBands == -1 then rep.maxBands else Min(maxBands, rep.maxBands);
      maxColors := if maxColors == -1 then rep.maxColor else Min(maxColors, rep.maxColor);
      maxMeter := if maxMeter == -1 then rep.maxMeter else Min(maxMeter, rep.maxMeter);
      i := i + 1;
    }
    assert reps[..i] == reps;
    r := MeterFeatures(maxMeter, bandTypes, capabilities, ToShort(maxBands), ToShort(maxColors));
  }

  /** Meter limits as the protocol sends them: unsigned, maxBands and maxColor in 8 bits. */
  predicate MeterLimitsInRange(reps: seq<MeterFeatures>)
  {
    forall i :: 0 <= i < |reps| ==> reps[i].maxMeter >= 0 && 0 <= reps[i].maxBands < 0x100 && 0 <= reps[i].maxColor < 0x100
  }

  /** The merged meter features: every limit is the smallest the devices report. */
  lemma MeterFeaturesMergedLimits(reps: seq<MeterFeatures>, l: MeterLimit)
    requires reps != [] && MeterLimitsInRange(reps)
    ensures var m := MeterFeaturesMerged(reps);
            && (exists i :: 0 <= i < |reps| && MeterLimitOf(m, l) == MeterLimitOf(reps[i], l))
            && (forall i :: 0 <= i < |reps| ==> MeterLimitOf(m, l) <= MeterLimitOf(reps[i], l))
  {
    var xs := MeterLimits(reps, l);
    MinFoldFromUnset(xs);
    var j :| 0 <= j < |xs| && xs[j] == MinFold(-1, xs);
    assert MinFold(-1, xs) == MeterLimitOf(reps[j], l);
    assert l != MaxMeter ==> IsShort(MinFold(-1, xs));
  }

  /** The merged meter features: a capability or band-type bit is set exactly when some device sets it. */
  lemma MeterFeaturesMergedBitmaps(reps: seq<MeterFeatures>)
    ensures var m := MeterFeaturesMerged(reps);
            && (forall b :: b in m.capabilities <==> exists i :: 0 <= i < |reps| && b in reps[i].capabilities)
            && (forall b :: b in m.bandTypes <==> exists i :: 0 <= i < |reps| && b in reps[i].bandTypes)
  {
    var m := MeterFeaturesMerged(reps);
    forall b | b in m.capabilities
      ensures exists i :: 0 <= i < |reps| && b in reps[i].capabilities
    {
      var i :| 0 <= i < |reps| && b in Capabilities(reps)[i];
    }
    forall b | b in m.bandTypes
      ensures exists i :: 0 <= i < |reps| && b in reps[i].bandTypes
    {
      var i :| 0 <= i < |reps| && b in BandTypes(reps)[i];
    }
  }

  /**
   * A single device: as written the merged maxColor and maxMeter are its
   * maxBands, whatever it reports for them; the corrected merge reports its own values.
   */
  lemma MeterFeaturesAsWrittenReadsMaxBands(f: MeterFeatures)
    requires MeterLimitsInRange([f])
    ensures MeterFeaturesAsWritten([f]).maxColor == f.maxBands && MeterFeaturesAsWritten([f]).maxMeter == f.maxBands
    ensures MeterFeaturesMerged([f]).maxColor == f.maxColor && MeterFeaturesMerged([f]).maxMeter == f.maxMeter
  {
    forall l ensures MinFold(-1, MeterLimits([f], l)) == MeterLimitOf(f, l) {
      SingleMinFold(MeterLimits([f], l));
    }
    assert [f][0] == f;
    assert IsShort(f.maxBands) && IsShort(f.maxColor);
  }

  /** The limit loop over one value, seeded "unset", yields that value. */
  lemma SingleMinFold(xs: seq<int>)
    requires |xs| == 1
    ensures MinFold(-1, xs) == xs[0]
  {
    assert xs[..0] == [];
  }

  // ---------------------------------------------------------------- groups

  /** One GROUP_FEATURES reply part: its reply flags and its features. */
  datatype GroupPart = GroupPart(flags: set<StatsReplyFlag>, features: GroupFeatures)

  /** The numeric fields of a group-features reply. */
  datatype GroupLimit =
    | Types | MaxGroupsAll | MaxGroupsSelect | MaxGroupsIndirect | MaxGroupsFf
    | ActionsAll | ActionsSelect | ActionsIndirect | ActionsFf

  function GroupLimitOf(g: GroupFeatures, l: GroupLimit): int
  {
    match l
    case Types => g.types
    case MaxGroupsAll => g.maxGroupsAll
    case MaxGroupsSelect => g.maxGroupsSelect
    case MaxGroupsIndirect => g.maxGroupsIndirect
    case MaxGroupsFf => g.maxGroupsFf
    case ActionsAll => g.actionsAll
    case ActionsSelect => g.actionsSelect
    case ActionsIndirect => g.actionsIndirect
    case ActionsFf => g.actionsFf
  }

  function GroupLimits(reps: seq<GroupPart>, l: GroupLimit): (xs: seq<int>)
    ensures |xs| == |reps|
    ensures forall i :: 0 <= i < |reps| ==> xs[i] == GroupLimitOf(reps[i].features, l)
  {
    if reps == [] then [] else GroupLimits(reps[..|reps| - 1], l) + [GroupLimitOf(reps[|reps| - 1].features, l)]
  }

  function GroupFlags(reps: seq<GroupPart>): (r: set<StatsReplyFlag>)
    ensures forall f :: f in r <==> exists i :: 0 <= i < |reps| && f in reps[i].flags
  {
    if reps == [] then {}
    else
      var p := reps[..|reps| - 1];
      assert forall i :: 0 <= i < |p| ==> p[i] == reps[i];
      GroupFlags(p) + reps[|reps| - 1].flags
  }

  function GroupCapabilities(reps: seq<GroupPart>): (r: set<int>)
    ensures forall c :: c in r <==> exists i :: 0 <= i < |reps| && c in reps[i].features.capabilities
  {
    if reps == [] then {}
    else
      var p := reps[..|reps| - 1];
      assert forall i :: 0 <= i < |p| ==> p[i] == reps[i];
      GroupCapabilities(p) + reps[|reps| - 1].features.capabilities
  }

  /** Every limit folded from one seed. */
  function GroupFold(seed: int, reps: seq<GroupPart>, capabilities: set<int>): GroupFeatures
  {
    GroupFeatures(
      types := MinFold(seed, GroupLimits(reps, Types)),
      capabilities := capabilities,
      maxGroupsAll := MinFold(seed, GroupLimits(reps, MaxGroupsAll)),
      maxGroupsSelect := MinFold(seed, GroupLimits(reps, MaxGroupsSelect)),
      maxGroupsIndirect := MinFold(seed, GroupLimits(reps, MaxGroupsIndirect)),
      maxGroupsFf := MinFold(seed, GroupLimits(reps, MaxGroupsFf)),
      actionsAll := MinFold(seed, GroupLimits(reps, ActionsAll)),
      actionsSelect := MinFold(seed, GroupLimits(reps, ActionsSelect)),
      actionsIndirect := MinFold(seed, GroupLimits(reps, ActionsIndirect)),
      actionsFf := MinFold(seed, GroupLimits(reps, ActionsFf)))
  }

  /** The group-features merge as written: limits seeded with 0, capabilities never filled in. */
  function GroupFeaturesAsWritten(reps: seq<GroupPart>): GroupFeatures
  {
    GroupFold(0, reps, {})
  }

  /** The group-features merge with limits seeded "unset" and capabilities unioned. */
  function GroupFeaturesMerged(reps: seq<GroupPart>): GroupFeatures
  {
    GroupFold(-1, reps, GroupCapabilities(reps))
  }

  /** The merge loop of the GROUP_FEATURES case, as written (seed 0, `capabilities.addAll(capabilities)`). */
  method MergeGroupFeaturesAsWritten(reps: seq<GroupPart>) returns (flags: set<StatsReplyFlag>, r: GroupFeatures)
    ensures flags == GroupFlags(reps)
    ensures r == GroupFeaturesAsWritten(reps)
  {
    flags, r := MergeGroupLoop(reps, 0, false);
  }

  /** The merge loop of the GROUP_FEATURES case, seeded "unset" and collecting each reply's capabilities. */
  method MergeGroupFeatures(reps: seq<GroupPart>) returns (flags: set<StatsReplyFlag>, r: GroupFeatures)
    ensures flags == GroupFlags(reps)
    ensures r == GroupFeaturesMerged(reps)
  {
    flags, r := MergeGroupLoop(reps, -1, true);
  }

  /** One more reply extends a limit loop by one step. */
  lemma GroupLimitSnoc(reps: seq<GroupPart>, i: int, seed: int, l: GroupLimit)
    requires 0 <= i < |reps|
    ensures MinFold(seed, GroupLimits(reps[..i + 1], l))
            == MinStep(MinFold(seed, GroupLimits(reps[..i], l)), GroupLimitOf(reps[i].features, l))
  {
    assert reps[..i + 1][..i] == reps[..i];
  }

  /** One more reply extends every limit loop by one step and each union by one operand. */
  lemma GroupRoundStep(reps: seq<GroupPart>, i: int, seed: int, c: set<int>)
    requires 0 <= i < |reps|
    ensures var g := GroupFold(seed, reps[..i], c);
            var f := reps[i].features;
            GroupFold(seed, reps[..i + 1], c) == GroupFeatures(
              MinStep(g.types, f.types), c,
              MinStep(g.maxGroupsAll, f.maxGroupsAll), MinStep(g.maxGroupsSelect, f.maxGroupsSelect),
              MinStep(g.maxGroupsIndirect, f.maxGroupsIndirect), MinStep(g.maxGroupsFf, f.maxGroupsFf),
              MinStep(g.actionsAll, f.actionsAll), MinStep(g.actionsSelect, f.actionsSelect),
              MinStep(g.actionsIndirect, f.actionsIndirect), MinStep(g.actionsFf, f.actionsFf))
    ensures GroupFlags(reps[..i + 1]) == GroupFlags(reps[..i]) + reps[i].flags
    ensures GroupCapabilities(reps[..i + 1]) == GroupCapabilities(reps[..i]) + reps[i].features.capabilities
  {
    assert reps[..i + 1][..i] == reps[..i];
    GroupLimitSnoc(reps, i, seed, Types);
    GroupLimitSnoc(reps, i, seed, MaxGroupsAll);
    GroupLimitSnoc(reps, i, seed, MaxGroupsSelect);
    GroupLimitSnoc(reps, i, seed, MaxGroupsIndirect);
    GroupLimitSnoc(reps, i, seed, MaxGroupsFf);
    GroupLimitSnoc(reps, i, seed, ActionsAll);
    GroupLimitSnoc(reps, i, seed, ActionsSelect);
    GroupLimitSnoc(reps, i, seed, ActionsIndirect);
    GroupLimitSnoc(reps, i, seed, ActionsFf);
  }

  /** The loop both versions share; `collect` chooses whether the reply's capabilities or the accumulator itself is added. */
  method MergeGroupLoop(reps: seq<GroupPart>, seed: int, collect: bool) returns (flags: set<StatsReplyFlag>, r: GroupFeatures)
    ensures flags == GroupFlags(reps)
    ensures r == GroupFold(seed, reps, if collect then GroupCapabilities(reps) else {})
  {
    var actionsAll, actionsFf, actionsIndirect, actionsSelect := seed, seed, seed, seed;
    var maxGroupsAll, maxGroupsFf, maxGroupsIndirect, maxGroupsSelect := seed, seed, seed, seed;
    var types := seed;
    flags := {};
    var capabilities: set<int> := {};
    var i := 0;
    while i < |reps|
      invariant 0 <= i <= |reps|
      invariant flags == GroupFlags(reps[..i])
      invariant capabilities == if collect then GroupCapabilities(reps[..i]) else {}
      invariant GroupFold(seed, reps[..i], capabilities)
                == GroupFeatures(types, capabilities, maxGroupsAll, maxGroupsSelect, maxGroupsIndirect, maxGroupsFf,
                                 actionsAll, actionsSelect, actionsIndirect, actionsFf)
    {
      var rep := reps[i].features;
      GroupRoundStep(reps, i, seed, capabilities);
      flags := flags + reps[i].flags;
      capabilities := capabilities + (if collect then rep.capabilities else capabilities);
      actionsAll := MinStep(actionsAll, rep.actionsAll);
      actionsFf := MinStep(actionsFf, rep.actionsFf);
      actionsIndirect := MinStep(actionsIndirect, rep.actionsIndirect);
      actionsSelect := MinStep(actionsSelect, rep.actionsSelect);
      maxGroupsAll := MinStep(maxGroupsAll, rep.maxGroupsAll);
      maxGroupsFf := MinStep(maxGroupsFf, rep.maxGroupsFf);
      maxGroupsIndirect := MinStep(maxGroupsIndirect, rep.maxGroupsIndirect);
      maxGroupsSelect := MinStep(maxGroupsSelect, rep.maxGroupsSelect);
      types := MinStep(types, rep.types);
      i := i + 1;
    }
    assert reps[..i] == reps;
    r := GroupFeatures(types, capabilities, maxGroupsAll, maxGroupsSelect, maxGroupsIndirect, maxGroupsFf,
                       actionsAll, actionsSelect, actionsIndirect, actionsFf);
  }

  predicate GroupLimitsNonNegative(reps: seq<GroupPart>)
  {
    forall i, l :: 0 <= i < |reps| ==> GroupLimitOf(reps[i].features, l) >= 0
  }

  /** As written, every limit of the merged reply is 0 and it claims no capability, whatever the devices report. */
  lemma GroupFeaturesAsWrittenIsZero(reps: seq<GroupPart>, l: GroupLimit)
    requires GroupLimitsNonNegative(reps)
    ensures GroupLimitOf(GroupFeaturesAsWritten(reps), l) == 0
    ensures GroupFeaturesAsWritten(reps).capabilities == {}
  {
    MinFoldFromZero(GroupLimits(reps, l));
  }

  /** The merged group features: each limit is the smallest reported, and the capabilities are their union. */
  lemma GroupFeaturesMergedMeaning(reps: seq<GroupPart>, l: GroupLimit)
    requires reps != [] && GroupLimitsNonNegative(reps)
    ensures var g := GroupFeaturesMerged(reps);
            && (exists i :: 0 <= i < |reps| && GroupLimitOf(g, l) == GroupLimitOf(reps[i].features, l))
            && (forall i :: 0 <= i < |reps| ==> GroupLimitOf(g, l) <= GroupLimitOf(reps[i].features, l))
            && (forall c :: c in g.capabilities <==> exists i :: 0 <= i < |reps| && c in reps[i].features.capabilities)
  {
    MinFoldFromUnset(GroupLimits(reps, l));
  }

  /**
   * A single device that supports some groups of every kind and some
   * capability: as written the merge reports that no group can be created
   * and no capability is supported; the corrected merge reports the device's own features.
   */
  lemma GroupFeaturesAsWrittenLosesLimits(g: GroupFeatures)
    requires g.maxGroupsAll > 0 && g.capabilities != {}
    requires forall l :: GroupLimitOf(g, l) >= 0
    ensures var reps := [GroupPart({}, g)];
            && GroupFeaturesAsWritten(reps).maxGroupsAll == 0 && GroupFeaturesAsWritten(reps).capabilities == {}
            && GroupFeaturesMerged(reps).maxGroupsAll == g.maxGroupsAll
            && GroupFeaturesMerged(reps).capabilities == g.capabilities
  {
    var reps := [GroupPart({}, g)];
    assert GroupLimitsNonNegative(reps);
    GroupFeaturesAsWrittenIsZero(reps, MaxGroupsAll);
    GroupFeaturesMergedMeaning(reps, MaxGroupsAll);
    var merged := GroupFeaturesMerged(reps);
    assert merged.capabilities == g.capabilities by {
      assert forall c :: c in merged.capabilities <==> c in reps[0].features.capabilities;
    }
  }
}

/**
 * The table-id registry of TableVisor.java: the two-way map between logical
 * (controller-visible) table ids and (dataplane id, physical table id)
 * pairs, built once from the configuration, and the lookups on it; plus the
 * endpoint lookups by dataplane id.
 */
module Registry {
  import opened Wrappers
  import opened Config
  import opened IdPairs
  import Text

  /** `ourTableIdsToSwitchIds` and `switchIdsToOurTableIds`. */
  datatype IdMaps = IdMaps(forward: map<int, IdPair>, reverse: map<IdPair, int>)

  const EmptyMaps := IdMaps(map[], map[])

  /** The two maps are inverse to each other. */
  ghost predicate Inverse(m: IdMaps)
  {
    && (forall t :: t in m.forward ==> m.forward[t] in m.reverse && m.reverse[m.forward[t]] == t)
    && (forall p :: p in m.reverse ==> m.reverse[p] in m.forward && m.forward[m.reverse[p]] == p)
  }

  /** One table-map entry of one switch: a logical id and the pair it stands for. */
  datatype Binding = Binding(logical: int, pair: IdPair)

  /** The bindings of one switch, in the iteration order of its table map. */
  function SwitchBindings(sw: SwitchConfig): (bs: seq<Binding>)
    ensures |bs| == |sw.tableMap|
    ensures forall i :: 0 <= i < |bs| ==>
              bs[i] == Binding(sw.tableMap[i].0, FromInt(sw.dataplaneId, sw.tableMap[i].1))
  {
    seq(|sw.tableMap|, i requires 0 <= i < |sw.tableMap| =>
      Binding(sw.tableMap[i].0, FromInt(sw.dataplaneId, sw.tableMap[i].1)))
  }

  /** The bindings of a list of switches, switch after switch. */
  function SwitchesBindings(sws: seq<SwitchConfig>): seq<Binding>
  {
    if sws == [] then [] else SwitchBindings(sws[0]) + SwitchesBindings(sws[1..])
  }

  /** The bindings of all endpoints, in the order of the three nested loops of `populateIdMaps`. */
  function EndpointsBindings(eps: seq<LowerLayerEndpointConfig>): seq<Binding>
  {
    if eps == [] then [] else SwitchesBindings(eps[0].switches) + EndpointsBindings(eps[1..])
  }

  /** Adds one binding, refusing a logical id or a pair that is already present. */
  function Step(m: IdMaps, b: Binding): Result<IdMaps>
  {
    if b.logical in m.forward then
      Err(IllegalState("Table ID " + Text.IntToString(b.logical) + " used twice"))
    else if b.pair in m.reverse then
      Err(IllegalState("Dataplane Table ID " + Text.IntToString(b.pair.tableId) + " used twice"))
    else
      Ok(IdMaps(m.forward[b.logical := b.pair], m.reverse[b.pair := b.logical]))
  }

  /** Adds the bindings in order, stopping at the first refused one. */
  function Fold(m: IdMaps, bs: seq<Binding>): Result<IdMaps>
    decreases |bs|
  {
    if bs == [] then Ok(m)
    else match Step(m, bs[0])
         case Err(e) => Err(e)
         case Ok(m') => Fold(m', bs[1..])
  }

  /** What `populateIdMaps` leaves behind, or the exception it throws. */
  function Build(eps: seq<LowerLayerEndpointConfig>): Result<IdMaps>
  {
    Fold(EmptyMaps, EndpointsBindings(eps))
  }

  ghost function LogicalIds(bs: seq<Binding>): set<int>
  {
    set i | 0 <= i < |bs| :: bs[i].logical
  }

  ghost function Pairs(bs: seq<Binding>): set<IdPair>
  {
    set i | 0 <= i < |bs| :: bs[i].pair
  }

  /** No logical id is bound twice and no pair is bound twice. */
  ghost predicate NoDuplicates(bs: seq<Binding>)
  {
    forall i, j :: 0 <= i < j < |bs| ==> bs[i].logical != bs[j].logical && bs[i].pair != bs[j].pair
  }

  /** Every logical table id some switch's table map declares. */
  ghost function ConfiguredLogicalIds(eps: seq<LowerLayerEndpointConfig>): set<int>
  {
    set e, sw, i | e in eps && sw in e.switches && 0 <= i < |sw.tableMap| :: sw.tableMap[i].0
  }

  lemma SliceTail(bs: seq<Binding>)
    requires bs != []
    ensures LogicalIds(bs) == {bs[0].logical} + LogicalIds(bs[1..])
    ensures Pairs(bs) == {bs[0].pair} + Pairs(bs[1..])
  {
    assert forall i :: 0 < i < |bs| ==> bs[i] == bs[1..][i - 1];
    assert forall i :: 0 <= i < |bs[1..]| ==> bs[1..][i] == bs[i + 1];
  }

  lemma LogicalIdsAppend(a: seq<Binding>, b: seq<Binding>)
    ensures LogicalIds(a + b) == LogicalIds(a) + LogicalIds(b)
    ensures Pairs(a + b) == Pairs(a) + Pairs(b)
  {
    var all := a + b;
    forall x | x in LogicalIds(a) ensures x in LogicalIds(all) {
      var i :| 0 <= i < |a| && a[i].logical == x;
      assert all[i] == a[i];
    }
    forall x | x in Pairs(a) ensures x in Pairs(all) {
      var i :| 0 <= i < |a| && a[i].pair == x;
      assert all[i] == a[i];
    }
    forall x | x in LogicalIds(all) ensures x in LogicalIds(a) + LogicalIds(b) {
      var i :| 0 <= i < |all| && all[i].logical == x;
      if i >= |a| { assert all[i] == b[i - |a|]; }
    }
    forall x | x in LogicalIds(b) ensures x in LogicalIds(all) {
      var i :| 0 <= i < |b| && b[i].logical == x;
      assert all[|a| + i] == b[i];
    }
    forall x | x in Pairs(all) ensures x in Pairs(a) + Pairs(b) {
      var i :| 0 <= i < |all| && all[i].pair == x;
      if i >= |a| { assert all[i] == b[i - |a|]; }
    }
    forall x | x in Pairs(b) ensures x in Pairs(all) {
      var i :| 0 <= i < |b| && b[i].pair == x;
      assert all[|a| + i] == b[i];
    }
  }

  /** Adding an accepted binding keeps the maps inverse to each other. */
  lemma StepKeepsInverse(m: IdMaps, b: Binding)
    requires Inverse(m) && Step(m, b).Ok?
    ensures Inverse(Step(m, b).value)
    ensures Step(m, b).value.forward == m.forward[b.logical := b.pair]
    ensures Step(m, b).value.reverse == m.reverse[b.pair := b.logical]
  {
    var m' := Step(m, b).value;
    forall t | t in m'.forward
      ensures m'.forward[t] in m'.reverse && m'.reverse[m'.forward[t]] == t
    {
      if t != b.logical {
        assert m.forward[t] in m.reverse;
      }
    }
  }

  ghost predicate Fresh(m: IdMaps, bs: seq<Binding>)
  {
    forall i :: 0 <= i < |bs| ==> bs[i].logical !in m.forward && bs[i].pair !in m.reverse
  }

  /**
   * Folding succeeds exactly when no binding repeats a logical id or a pair,
   * neither among themselves nor with what is already in the maps.
   */
  lemma {:induction false} FoldSucceedsIff(m: IdMaps, bs: seq<Binding>)
    requires Inverse(m)
    ensures Fold(m, bs).Ok? <==> NoDuplicates(bs) && Fresh(m, bs)
    decreases |bs|
  {
    if bs != [] {
      var b := bs[0];
      var tail := bs[1..];
      assert forall i :: 0 <= i < |tail| ==> tail[i] == bs[i + 1];
      if Step(m, b).Ok? {
        var m' := Step(m, b).value;
        StepKeepsInverse(m, b);
        FoldSucceedsIff(m', tail);
        if NoDuplicates(bs) && Fresh(m, bs) {
          assert Fresh(m', tail) by {
            forall i | 0 <= i < |tail| ensures tail[i].logical !in m'.forward && tail[i].pair !in m'.reverse {
              assert tail[i] == bs[i + 1];
            }
          }
          assert NoDuplicates(tail) by {
            forall i, j | 0 <= i < j < |tail|
              ensures tail[i].logical != tail[j].logical && tail[i].pair != tail[j].pair
            {
              assert tail[i] == bs[i + 1] && tail[j] == bs[j + 1];
            }
          }
        }
        if Fold(m, bs).Ok? {
          assert NoDuplicates(tail) && Fresh(m', tail);
          forall i, j | 0 <= i < j < |bs|
            ensures bs[i].logical != bs[j].logical && bs[i].pair != bs[j].pair
          {
            if i > 0 {
              assert tail[i - 1] == bs[i] && tail[j - 1] == bs[j];
            } else {
              assert tail[j - 1] == bs[j];
            }
          }
          forall i | 0 <= i < |bs| ensures bs[i].logical !in m.forward && bs[i].pair !in m.reverse {
            if i > 0 { assert tail[i - 1] == bs[i]; }
          }
        }
      } else {
        assert !Fresh(m, bs);
      }
    }
  }

  /**
   * A successful fold keeps the maps inverse to each other, adds exactly the
   * bound ids and pairs, holds every binding and keeps what was there.
   */
  lemma {:induction false} FoldResult(m: IdMaps, bs: seq<Binding>)
    requires Inverse(m) && Fold(m, bs).Ok?
    ensures var r := Fold(m, bs).value;
            && Inverse(r)
            && r.forward.Keys == m.forward.Keys + LogicalIds(bs)
            && r.reverse.Keys == m.reverse.Keys + Pairs(bs)
            && (forall t :: t in m.forward ==> r.forward[t] == m.forward[t])
            && (forall p :: p in m.reverse ==> r.reverse[p] == m.reverse[p])
    decreases |bs|
  {
    if bs != [] {
      var b := bs[0];
      var m' := Step(m, b).value;
      StepKeepsInverse(m, b);
      assert Fold(m, bs) == Fold(m', bs[1..]);
      FoldResult(m', bs[1..]);
      SliceTail(bs);
      StepKeys(m, b);
    }
  }

  /** An accepted binding adds its logical id and its pair to the key sets and keeps every existing entry. */
  lemma StepKeys(m: IdMaps, b: Binding)
    requires Step(m, b).Ok?
    ensures var m' := Step(m, b).value;
            && m'.forward.Keys == m.forward.Keys + {b.logical}
            && m'.reverse.Keys == m.reverse.Keys + {b.pair}
            && (forall t :: t in m.forward ==> m'.forward[t] == m.forward[t])
            && (forall p :: p in m.reverse ==> m'.reverse[p] == m.reverse[p])
  {
  }

  /** Every binding of a successful fold is in both resulting maps. */
  lemma {:induction false} FoldHoldsBindings(m: IdMaps, bs: seq<Binding>, i: int)
    requires Inverse(m) && Fold(m, bs).Ok? && 0 <= i < |bs|
    ensures bs[i].logical in Fold(m, bs).value.forward && bs[i].pair in Fold(m, bs).value.reverse
    ensures Fold(m, bs).value.forward[bs[i].logical] == bs[i].pair
    ensures Fold(m, bs).value.reverse[bs[i].pair] == bs[i].logical
    decreases |bs|
  {
    var b := bs[0];
    var m' := Step(m, b).value;
    StepKeepsInverse(m, b);
    FoldResult(m', bs[1..]);
    if i > 0 {
      FoldHoldsBindings(m', bs[1..], i - 1);
    }
  }

  /**
   * The build succeeds exactly when no logical id and no pair is bound twice;
   * afterwards the two maps are inverse to each other and each logical id
   * maps to the pair its switch's table map gives it.
   */
  lemma BuildMeaning(eps: seq<LowerLayerEndpointConfig>)
    ensures Build(eps).Ok? <==> NoDuplicates(EndpointsBindings(eps))
    ensures Build(eps).Ok? ==>
              var r := Build(eps).value;
              var bs := EndpointsBindings(eps);
              && Inverse(r)
              && r.forward.Keys == LogicalIds(bs)
              && r.reverse.Keys == Pairs(bs)
              && (forall i :: 0 <= i < |bs| ==> r.forward[bs[i].logical] == bs[i].pair
                                                && r.reverse[bs[i].pair] == bs[i].logical)
  {
    var bs := EndpointsBindings(eps);
    FoldSucceedsIff(EmptyMaps, bs);
    if Build(eps).Ok? {
      FoldResult(EmptyMaps, bs);
      forall i | 0 <= i < |bs|
        ensures Build(eps).value.forward[bs[i].logical] == bs[i].pair
        ensures Build(eps).value.reverse[bs[i].pair] == bs[i].logical
      {
        FoldHoldsBindings(EmptyMaps, bs, i);
      }
    }
  }

  lemma {:induction false} SwitchesBindingsIds(sws: seq<SwitchConfig>)
    ensures LogicalIds(SwitchesBindings(sws))
            == set sw, i | sw in sws && 0 <= i < |sw.tableMap| :: sw.tableMap[i].0
  {
    if sws != [] {
      SwitchesBindingsIds(sws[1..]);
      var head := SwitchBindings(sws[0]);
      var rest := SwitchesBindings(sws[1..]);
      LogicalIdsAppend(head, rest);
      assert forall sw :: sw in sws <==> sw == sws[0] || sw in sws[1..];
    }
  }

  /** The logical ids the registry binds are exactly the keys of all table maps. */
  lemma {:induction false} BindingIdsAreConfiguredIds(eps: seq<LowerLayerEndpointConfig>)
    ensures LogicalIds(EndpointsBindings(eps)) == ConfiguredLogicalIds(eps)
  {
    if eps != [] {
      BindingIdsAreConfiguredIds(eps[1..]);
      SwitchesBindingsIds(eps[0].switches);
      var head := SwitchesBindings(eps[0].switches);
      var rest := EndpointsBindings(eps[1..]);
      LogicalIdsAppend(head, rest);
      assert forall e :: e in eps <==> e == eps[0] || e in eps[1..];
    }
  }

  /** After a successful build the forward map's domain is the union of all table-map keys. */
  lemma ForwardDomain(eps: seq<LowerLayerEndpointConfig>)
    requires Build(eps).Ok?
    ensures Build(eps).value.forward.Keys == ConfiguredLogicalIds(eps)
  {
    BuildMeaning(eps);
    BindingIdsAreConfiguredIds(eps);
  }

  /** Folding a concatenation folds the first part, then the second from where it stopped. */
  lemma {:induction false} FoldAppend(m: IdMaps, a: seq<Binding>, b: seq<Binding>)
    ensures Fold(m, a + b) == match Fold(m, a) case Err(e) => Err(e) case Ok(m') => Fold(m', b)
    decreases |a|
  {
    if a == [] {
      assert a + b == b;
    } else {
      assert (a + b)[0] == a[0] && (a + b)[1..] == a[1..] + b;
      match Step(m, a[0])
      case Err(_) =>
      case Ok(m') => FoldAppend(m', a[1..], b);
    }
  }

  /**
   * `populateIdMaps`: three nested loops over endpoints, switches and
   * table-map entries, adding each binding to both maps and throwing
   * IllegalStateException at the first repeated logical id or pair.
   */
  method PopulateIdMaps(eps: seq<LowerLayerEndpointConfig>) returns (r: Result<IdMaps>)
    ensures r == Build(eps)
  {
    var maps := EmptyMaps;
    var i := 0;
    while i < |eps|
      invariant 0 <= i <= |eps|
      invariant Fold(maps, EndpointsBindings(eps[i..])) == Build(eps)
    {
      assert eps[i..][0] == eps[i] && eps[i..][1..] == eps[i + 1..];
      var next := BindSwitches(maps, eps[i].switches);
      FoldAppend(maps, SwitchesBindings(eps[i].switches), EndpointsBindings(eps[i + 1..]));
      if next.Err? {
        return next;
      }
      maps := next.value;
      i := i + 1;
    }
    return Ok(maps);
  }

  /** The middle loop of `populateIdMaps`: the switches of one endpoint, in order. */
  method BindSwitches(maps: IdMaps, sws: seq<SwitchConfig>) returns (r: Result<IdMaps>)
    ensures r == Fold(maps, SwitchesBindings(sws))
  {
    var m := maps;
    var j := 0;
    assert sws[0..] == sws;
    while j < |sws|
      invariant 0 <= j <= |sws|
      invariant Fold(m, SwitchesBindings(sws[j..])) == Fold(maps, SwitchesBindings(sws))
    {
      assert sws[j..][0] == sws[j] && sws[j..][1..] == sws[j + 1..];
      FoldAppend(m, SwitchBindings(sws[j]), SwitchesBindings(sws[j + 1..]));
      var next := BindTableMap(m, sws[j]);
      if next.Err? {
        return next;
      }
      m := next.value;
      j := j + 1;
    }
    return Ok(m);
  }

  /**
   * The innermost loop of `populateIdMaps`: the entries of one switch's table
   * map, each put into the forward map, then into the reverse map, each
   * after checking that its key is new.
   */
  method BindTableMap(maps: IdMaps, swc: SwitchConfig) returns (r: Result<IdMaps>)
    ensures r == Fold(maps, SwitchBindings(swc))
  {
    var fwd, rev := maps.forward, maps.reverse;
    var entries := swc.tableMap;
    var bs := SwitchBindings(swc);
    var k := 0;
    while k < |entries|
      invariant 0 <= k <= |entries|
      invariant Fold(IdMaps(fwd, rev), bs[k..]) == Fold(maps, bs)
    {
      var key := entries[k].0;
      var pair := FromInt(swc.dataplaneId, entries[k].1);
      assert bs[k..][0] == Binding(key, pair) && bs[k..][1..] == bs[k + 1..];
      if key in fwd {
        return Err(IllegalState("Table ID " + Text.IntToString(key) + " used twice"));
      }
      fwd := fwd[key := pair];
      if pair in rev {
        return Err(IllegalState("Dataplane Table ID " + Text.IntToString(pair.tableId) + " used twice"));
      }
      rev := rev[pair := key];
      k := k + 1;
    }
    return Ok(IdMaps(fwd, rev));
  }

  /** `ourTableIdToSwitchId`: the bound pair, or the pair (-1, 0) for an unbound logical id. */
  function OurTableIdToSwitchId(m: IdMaps, tableId: int): (p: IdPair)
    requires forall t :: t in m.forward ==> m.forward[t].Valid()
    ensures p.Valid()
    ensures tableId in m.forward ==> p == m.forward[tableId]
    ensures tableId !in m.forward ==> p.dataplaneId == -1 && p.tableId == 0
  {
    if tableId in m.forward then m.forward[tableId] else FromInt(-1, 0)
  }

  /**
   * `switchIdToOurTableId`: the logical ids bound to a pair, as the list of
   * length 0 (Java's null) or 1 that the callers index.
   */
  function SwitchIdToOurTableId(m: IdMaps, dataplaneId: int, tableId: int): (ids: seq<int>)
    requires Inverse(m)
    ensures |ids| <= 1
    ensures forall t :: t in ids <==> t in m.forward && m.forward[t] == FromInt(dataplaneId, tableId)
  {
    var p := FromInt(dataplaneId, tableId);
    if p in m.reverse then [m.reverse[p]] else []
  }

  /** In a successfully built registry, every configured entry is found in both directions. */
  lemma LookupsFindConfiguredEntries(eps: seq<LowerLayerEndpointConfig>, sw: SwitchConfig, i: int)
    requires Build(eps).Ok?
    requires sw in AllSwitches(eps) && 0 <= i < |sw.tableMap|
    ensures Inverse(Build(eps).value)
    ensures forall t :: t in Build(eps).value.forward ==> Build(eps).value.forward[t].Valid()
    ensures OurTableIdToSwitchId(Build(eps).value, sw.tableMap[i].0) == FromInt(sw.dataplaneId, sw.tableMap[i].1)
    ensures SwitchIdToOurTableId(Build(eps).value, sw.dataplaneId, sw.tableMap[i].1) == [sw.tableMap[i].0]
  {
    BuildMeaning(eps);
    var bs := EndpointsBindings(eps);
    var r := Build(eps).value;
    assert forall t :: t in r.forward ==> r.forward[t].Valid() by {
      forall t | t in r.forward ensures r.forward[t].Valid() {
        var j :| 0 <= j < |bs| && bs[j].logical == t;
        BindingPairsValid(eps, j);
      }
    }
    var j := BindingOfEntry(eps, sw, i);
    assert r.reverse[bs[j].pair] == bs[j].logical;
  }

  lemma BindingPairsValid(eps: seq<LowerLayerEndpointConfig>, j: int)
    requires 0 <= j < |EndpointsBindings(eps)|
    ensures EndpointsBindings(eps)[j].pair.Valid()
  {
    var b := EndpointsBindings(eps)[j];
    var k := BindingSource(eps, j);
  }

  /** Every binding comes from some configured switch's table-map entry. */
  lemma {:induction false} BindingSource(eps: seq<LowerLayerEndpointConfig>, j: int) returns (k: int)
    requires 0 <= j < |EndpointsBindings(eps)|
    ensures exists sw :: sw in AllSwitches(eps) && 0 <= k < |sw.tableMap|
                         && EndpointsBindings(eps)[j] == Binding(sw.tableMap[k].0, FromInt(sw.dataplaneId, sw.tableMap[k].1))
  {
    var sws := AllSwitches(eps);
    EndpointsBindingsFlatten(eps);
    k := SwitchesBindingSource(sws, j);
  }

  lemma {:induction false} SwitchesBindingSource(sws: seq<SwitchConfig>, j: int) returns (k: int)
    requires 0 <= j < |SwitchesBindings(sws)|
    ensures exists sw :: sw in sws && 0 <= k < |sw.tableMap|
                         && SwitchesBindings(sws)[j] == Binding(sw.tableMap[k].0, FromInt(sw.dataplaneId, sw.tableMap[k].1))
  {
    var head := SwitchBindings(sws[0]);
    if j < |head| {
      k := j;
    } else {
      k := SwitchesBindingSource(sws[1..], j - |head|);
    }
  }

  /** Some binding is the one of a given configured entry. */
  lemma BindingOfEntry(eps: seq<LowerLayerEndpointConfig>, sw: SwitchConfig, i: int) returns (j: int)
    requires sw in AllSwitches(eps) && 0 <= i < |sw.tableMap|
    ensures 0 <= j < |EndpointsBindings(eps)|
    ensures EndpointsBindings(eps)[j] == Binding(sw.tableMap[i].0, FromInt(sw.dataplaneId, sw.tableMap[i].1))
  {
    EndpointsBindingsFlatten(eps);
    j := SwitchesBindingOfEntry(AllSwitches(eps), sw, i);
  }

  lemma {:induction false} SwitchesBindingOfEntry(sws: seq<SwitchConfig>, sw: SwitchConfig, i: int) returns (j: int)
    requires sw in sws && 0 <= i < |sw.tableMap|
    ensures 0 <= j < |SwitchesBindings(sws)|
    ensures SwitchesBindings(sws)[j] == Binding(sw.tableMap[i].0, FromInt(sw.dataplaneId, sw.tableMap[i].1))
  {
    var head := SwitchBindings(sws[0]);
    if sws[0] == sw {
      j := i;
    } else {
      var j' := SwitchesBindingOfEntry(sws[1..], sw, i);
      j := |head| + j';
    }
  }

  lemma {:induction false} SwitchesBindingsAppend(a: seq<SwitchConfig>, b: seq<SwitchConfig>)
    ensures SwitchesBindings(a + b) == SwitchesBindings(a) + SwitchesBindings(b)
  {
    if a != [] {
      assert (a + b)[1..] == a[1..] + b;
      SwitchesBindingsAppend(a[1..], b);
    } else {
      assert a + b == b;
    }
  }

  /** Walking endpoint by endpoint binds the same entries as walking the flattened switch list. */
  lemma {:induction false} EndpointsBindingsFlatten(eps: seq<LowerLayerEndpointConfig>)
    ensures EndpointsBindings(eps) == SwitchesBindings(AllSwitches(eps))
    decreases |eps|
  {
    if eps != [] {
      var init := eps[..|eps| - 1];
      var last := eps[|eps| - 1];
      EndpointsBindingsSnoc(init, last);
      assert eps == init + [last];
      EndpointsBindingsFlatten(init);
      SwitchesBindingsAppend(AllSwitches(init), last.switches);
    }
  }

  lemma {:induction false} EndpointsBindingsSnoc(eps: seq<LowerLayerEndpointConfig>, e: LowerLayerEndpointConfig)
    ensures EndpointsBindings(eps + [e]) == EndpointsBindings(eps) + SwitchesBindings(e.switches)
  {
    if eps == [] {
      assert [e][1..] == [];
    } else {
      assert (eps + [e])[1..] == eps[1..] + [e];
      EndpointsBindingsSnoc(eps[1..], e);
    }
  }

  /** `getLowerEndpointById`: the first endpoint that lists a switch with that dataplane id. */
  function LowerEndpointById(eps: seq<LowerLayerEndpointConfig>, dataplaneId: int): (r: Option<LowerLayerEndpointConfig>)
    ensures r.Some? ==> exists i :: 0 <= i < |eps| && eps[i] == r.value
                          && (exists sw :: sw in r.value.switches && sw.dataplaneId == dataplaneId)
                          && (forall j :: 0 <= j < i ==> forall sw :: sw in eps[j].switches ==> sw.dataplaneId != dataplaneId)
    ensures r.None? <==> forall e, sw :: e in eps && sw in e.switches ==> sw.dataplaneId != dataplaneId
  {
    if eps == [] then None
    else if exists sw :: sw in eps[0].switches && sw.dataplaneId == dataplaneId then Some(eps[0])
    else
      var r := LowerEndpointById(eps[1..], dataplaneId);
      assert forall i :: 0 <= i < |eps[1..]| ==> eps[1..][i] == eps[i + 1];
      assert forall e :: e in eps ==> e == eps[0] || e in eps[1..];
      r
  }

  /** `getLowerEndpointTypeById`: the kind of that endpoint, or None (Java's null) when there is none. */
  function LowerEndpointTypeById(eps: seq<LowerLayerEndpointConfig>, dataplaneId: int): Option<LowerLayerType>
  {
    match LowerEndpointById(eps, dataplaneId)
    case None => None
    case Some(e) => Some(e.kind)
  }

  /** An endpoint is found for exactly the dataplane ids the configuration knows a switch for. */
  lemma EndpointFoundIffSwitchConfigured(eps: seq<LowerLayerEndpointConfig>, dataplaneId: int)
    ensures LowerEndpointTypeById(eps, dataplaneId).Some? <==> SwitchById(eps, dataplaneId).Some?
  {
    var sws := AllSwitches(eps);
    SwitchMapLastWins(sws, dataplaneId);
    if SwitchById(eps, dataplaneId).Some? {
      var i :| 0 <= i < |sws| && sws[i].dataplaneId == dataplaneId;
      AllSwitchesMembers(eps, sws[i]);
    }
    if LowerEndpointById(eps, dataplaneId).Some? {
      var e := LowerEndpointById(eps, dataplaneId).value;
      var sw :| sw in e.switches && sw.dataplaneId == dataplaneId;
      AllSwitchesMembers(eps, sw);
    }
  }
}

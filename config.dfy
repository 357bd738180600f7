/**
 * The TableVisor configuration: lower-layer endpoints with their switches,
 * each switch's logical-to-physical table map and neighbour-to-port map, and
 * the derived, lazily memoised lookups of Configuration.java.
 *
 * The Java maps that the code iterates are kept as association lists in
 * their iteration order, with unique keys, so "the first entry that matches"
 * is a definite entry.
 */
module Config {
  import opened Wrappers
  import opened JavaInts

  predicate UniqueKeys(entries: seq<(int, int)>)
  {
    forall i, j :: 0 <= i < j < |entries| ==> entries[i].0 != entries[j].0
  }

  /** A java.util.Map<Integer, Integer> as its entry list in iteration order. */
  type IntMap = entries: seq<(int, int)> | UniqueKeys(entries) witness []

  function Keys(m: seq<(int, int)>): set<int>
  {
    set i | 0 <= i < |m| :: m[i].0
  }

  /** `map.values()` in iteration order. */
  function Values(m: seq<(int, int)>): (vs: seq<int>)
    ensures |vs| == |m|
    ensures forall i :: 0 <= i < |m| ==> vs[i] == m[i].1
  {
    if m == [] then [] else [m[0].1] + Values(m[1..])
  }

  /** `map.get(key)`, with None for Java's null. */
  function Get(m: seq<(int, int)>, key: int): (r: Option<int>)
    ensures r.Some? ==> exists i :: 0 <= i < |m| && m[i] == (key, r.value)
    ensures r.None? <==> key !in Keys(m)
  {
    if m == [] then None
    else if m[0].0 == key then Some(m[0].1)
    else Get(m[1..], key)
  }

  /** In a map with unique keys, the entry with a given key is the one `get` finds. */
  lemma {:induction false} GetFindsEntry(m: seq<(int, int)>, i: int)
    requires UniqueKeys(m) && 0 <= i < |m|
    ensures Get(m, m[i].0) == Some(m[i].1)
  {
    if i > 0 {
      assert UniqueKeys(m[1..]) by {
        forall a, b | 0 <= a < b < |m[1..]| ensures m[1..][a].0 != m[1..][b].0 {
          assert m[1..][a] == m[a + 1] && m[1..][b] == m[b + 1];
        }
      }
      assert m[0].0 != m[i].0;
      GetFindsEntry(m[1..], i - 1);
      assert m[1..][i - 1] == m[i];
    }
  }

  /**
   * The key of the first entry, in iteration order, whose value is `v`:
   * what a loop over `entrySet()` with an early return finds.
   */
  function KeyOfValue(m: seq<(int, int)>, v: int): (r: Option<int>)
    ensures r.None? <==> (forall i :: 0 <= i < |m| ==> m[i].1 != v)
    ensures r.Some? ==> exists i :: 0 <= i < |m| && m[i] == (r.value, v)
                                    && forall j :: 0 <= j < i ==> m[j].1 != v
  {
    if m == [] then None
    else if m[0].1 == v then Some(m[0].0)
    else
      var r := KeyOfValue(m[1..], v);
      assert forall i :: 0 <= i < |m[1..]| ==> m[1..][i] == m[i + 1];
      r
  }

  datatype LowerLayerType = OPENFLOW | P4_NETRONOME

  /** The pipeline stages that can be enabled, in declaration order (top to bottom). */
  datatype ApplicationType =
    | ControllerLogApplication
    | OneTransparentSwitchApplication
    | MultiSwitchApplication
    | P4ControlApplication
    | SwitchLogApplication

  const ApplicationOrder: seq<ApplicationType> := [
    ControllerLogApplication, OneTransparentSwitchApplication, MultiSwitchApplication,
    P4ControlApplication, SwitchLogApplication]

  datatype SwitchConfig = SwitchConfig(
    dataplaneId: int,
    datapathId: string,
    /** Logical (controller-visible) table id to physical table id. */
    tableMap: IntMap,
    /** Neighbour dataplane id to the port leading to that device. */
    portMap: IntMap)

  datatype LowerLayerEndpointConfig = LowerLayerEndpointConfig(
    name: string, ip: string, port: int, kind: LowerLayerType, switches: seq<SwitchConfig>)

  /** Sum of the switch-list sizes over the endpoints. */
  function SwitchCount(eps: seq<LowerLayerEndpointConfig>): nat
  {
    if eps == [] then 0 else SwitchCount(eps[..|eps| - 1]) + |eps[|eps| - 1].switches|
  }

  /** The endpoints' switch lists concatenated in endpoint order. */
  function AllSwitches(eps: seq<LowerLayerEndpointConfig>): seq<SwitchConfig>
  {
    if eps == [] then [] else AllSwitches(eps[..|eps| - 1]) + eps[|eps| - 1].switches
  }

  /** Sum of the table-map sizes of a list of switches. */
  function TableSum(sws: seq<SwitchConfig>): nat
  {
    if sws == [] then 0 else TableSum(sws[..|sws| - 1]) + |sws[|sws| - 1].tableMap|
  }

  /** Sum of the table-map sizes over all switches of all endpoints, endpoint by endpoint. */
  function TableCount(eps: seq<LowerLayerEndpointConfig>): nat
  {
    if eps == [] then 0 else TableCount(eps[..|eps| - 1]) + TableSum(eps[|eps| - 1].switches)
  }

  /** The dataplane-id map built by putting every switch in order: a later switch replaces an earlier one. */
  function SwitchMapOf(sws: seq<SwitchConfig>): map<int, SwitchConfig>
  {
    if sws == [] then map[]
    else SwitchMapOf(sws[..|sws| - 1])[sws[|sws| - 1].dataplaneId := sws[|sws| - 1]]
  }

  /** `getSwitchConfigById` as a value: the configured switch with that id, or None for null. */
  function SwitchById(eps: seq<LowerLayerEndpointConfig>, dataplaneId: int): Option<SwitchConfig>
  {
    var m := SwitchMapOf(AllSwitches(eps));
    if dataplaneId in m then Some(m[dataplaneId]) else None
  }

  lemma {:induction false} TableSumAppend(a: seq<SwitchConfig>, b: seq<SwitchConfig>)
    ensures TableSum(a + b) == TableSum(a) + TableSum(b)
    decreases |b|
  {
    if b != [] {
      assert (a + b)[..|a + b| - 1] == a + b[..|b| - 1];
      TableSumAppend(a, b[..|b| - 1]);
    } else {
      assert a + b == a;
    }
  }

  /** Counting per endpoint and counting over the flattened switch list agree. */
  lemma {:induction false} TableCountIsSumOverAllSwitches(eps: seq<LowerLayerEndpointConfig>)
    ensures TableCount(eps) == TableSum(AllSwitches(eps))
  {
    if eps != [] {
      TableCountIsSumOverAllSwitches(eps[..|eps| - 1]);
      TableSumAppend(AllSwitches(eps[..|eps| - 1]), eps[|eps| - 1].switches);
    }
  }

  /** The flattened switch list has exactly as many switches as the endpoints declare. */
  lemma {:induction false} AllSwitchesLength(eps: seq<LowerLayerEndpointConfig>)
    ensures |AllSwitches(eps)| == SwitchCount(eps)
  {
    if eps != [] {
      AllSwitchesLength(eps[..|eps| - 1]);
    }
  }

  /** Every switch of every endpoint is in the flattened list, and nothing else is. */
  lemma {:induction false} AllSwitchesMembers(eps: seq<LowerLayerEndpointConfig>, sw: SwitchConfig)
    ensures sw in AllSwitches(eps) <==> exists e :: e in eps && sw in e.switches
  {
    if eps != [] {
      var init := eps[..|eps| - 1];
      AllSwitchesMembers(init, sw);
      assert eps == init + [eps[|eps| - 1]];
      if sw in AllSwitches(eps) && sw !in AllSwitches(init) {
        assert sw in eps[|eps| - 1].switches;
      }
    }
  }

  /**
   * A dataplane id is in the switch map exactly when some switch has it, and
   * it maps to the LAST switch with that id.
   */
  lemma {:induction false} SwitchMapLastWins(sws: seq<SwitchConfig>, id: int)
    ensures id in SwitchMapOf(sws) <==> exists i :: 0 <= i < |sws| && sws[i].dataplaneId == id
    ensures forall i :: 0 <= i < |sws| && sws[i].dataplaneId == id
                        && (forall j :: i < j < |sws| ==> sws[j].dataplaneId != id)
                        ==> id in SwitchMapOf(sws) && SwitchMapOf(sws)[id] == sws[i]
  {
    if sws != [] {
      var init := sws[..|sws| - 1];
      SwitchMapLastWins(init, id);
      forall i | 0 <= i < |init| ensures init[i] == sws[i] { }
    }
  }

  lemma SwitchMapAppend(sws: seq<SwitchConfig>, sw: SwitchConfig)
    ensures SwitchMapOf(sws + [sw]) == SwitchMapOf(sws)[sw.dataplaneId := sw]
  {
    assert (sws + [sw])[..|sws|] == sws;
  }

  lemma AllSwitchesStep(eps: seq<LowerLayerEndpointConfig>, i: nat)
    requires i < |eps|
    ensures AllSwitches(eps[..i + 1]) == AllSwitches(eps[..i]) + eps[i].switches
    ensures SwitchCount(eps[..i + 1]) == SwitchCount(eps[..i]) + |eps[i].switches|
  {
    assert eps[..i + 1][..i] == eps[..i];
  }

  /**
   * Configuration.java: the configuration values and the memo fields that
   * `getTotalNumberOfSwitches`, `getTotalNumberOfTables`, `getAllSwitches`
   * and `getSwitchConfigById` fill on their first call.
   */
  class Configuration {
    /** `ourDatapathId`, as the number DatapathId.of parses it to. */
    const ourDatapathId: int
    const lowerLayerEndpoints: seq<LowerLayerEndpointConfig>
    /** `applications`; None stands for a null set. */
    const applications: Option<set<ApplicationType>>

    var totalNumberOfSwitches: int
    var totalNumberOfTables: int
    var allSwitches: Option<seq<SwitchConfig>>
    var switchMap: Option<map<int, SwitchConfig>>

    /** Each memo field is either unset or holds the value it caches. */
    ghost predicate Valid()
      reads this
    {
      && (totalNumberOfSwitches == -1 || totalNumberOfSwitches == Wrap32(SwitchCount(lowerLayerEndpoints)))
      && (totalNumberOfTables == -1 || totalNumberOfTables == ToShort(TableCount(lowerLayerEndpoints)))
      && (allSwitches.Some? ==> allSwitches.value == AllSwitches(lowerLayerEndpoints))
      && (switchMap.Some? ==> switchMap.value == SwitchMapOf(AllSwitches(lowerLayerEndpoints)))
    }

    constructor (ourDatapathId: int, eps: seq<LowerLayerEndpointConfig>, applications: Option<set<ApplicationType>>)
      ensures Valid()
      ensures this.ourDatapathId == ourDatapathId && lowerLayerEndpoints == eps
      ensures this.applications == applications
      ensures totalNumberOfSwitches == -1 && totalNumberOfTables == -1
      ensures allSwitches.None? && switchMap.None?
    {
      this.ourDatapathId := ourDatapathId;
      lowerLayerEndpoints := eps;
      this.applications := applications;
      totalNumberOfSwitches := -1;
      totalNumberOfTables := -1;
      allSwitches := None;
      switchMap := None;
    }

    /** `getTotalNumberOfSwitches`: computed on the first call, then read from the memo. */
    method GetTotalNumberOfSwitches() returns (n: int)
      requires Valid()
      modifies this`totalNumberOfSwitches
      ensures Valid()
      ensures n == Wrap32(SwitchCount(lowerLayerEndpoints))
      ensures old(totalNumberOfSwitches) != -1 ==> totalNumberOfSwitches == old(totalNumberOfSwitches)
    {
      if totalNumberOfSwitches == -1 {
        totalNumberOfSwitches := Wrap32(SwitchCount(lowerLayerEndpoints));
      }
      n := totalNumberOfSwitches;
    }

    /** `getTotalNumberOfTables`: the table-map sizes summed and cast to short, memoised. */
    method GetTotalNumberOfTables() returns (n: int)
      requires Valid()
      modifies this`totalNumberOfTables
      ensures Valid()
      ensures n == ToShort(TableSum(AllSwitches(lowerLayerEndpoints)))
      ensures old(totalNumberOfTables) != -1 ==> totalNumberOfTables == old(totalNumberOfTables)
    {
      if totalNumberOfTables == -1 {
        totalNumberOfTables := ToShort(TableCount(lowerLayerEndpoints));
      }
      n := totalNumberOfTables;
      TableCountIsSumOverAllSwitches(lowerLayerEndpoints);
    }

    /** `getAllSwitches`: on the first call appends every endpoint's switch list in order. */
    method GetAllSwitches() returns (r: seq<SwitchConfig>)
      requires Valid()
      modifies this`allSwitches
      ensures Valid()
      ensures r == AllSwitches(lowerLayerEndpoints)
      ensures allSwitches == Some(r)
    {
      if allSwitches.None? {
        var acc: seq<SwitchConfig> := [];
        var i := 0;
        while i < |lowerLayerEndpoints|
          invariant 0 <= i <= |lowerLayerEndpoints|
          invariant acc == AllSwitches(lowerLayerEndpoints[..i])
        {
          AllSwitchesStep(lowerLayerEndpoints, i);
          acc := acc + lowerLayerEndpoints[i].switches;
          i := i + 1;
        }
        assert lowerLayerEndpoints[..i] == lowerLayerEndpoints;
        allSwitches := Some(acc);
      }
      r := allSwitches.value;
    }

    /** `getSwitchConfigById`: builds the id map once (later switches win), then looks the id up. */
    method GetSwitchConfigById(dataplaneId: int) returns (r: Option<SwitchConfig>)
      requires Valid()
      modifies this`switchMap
      ensures Valid() && switchMap.Some?
      ensures r == SwitchById(lowerLayerEndpoints, dataplaneId)
    {
      if switchMap.None? {
        var eps := lowerLayerEndpoints;
        var m: map<int, SwitchConfig> := map[];
        var i := 0;
        while i < |eps|
          invariant 0 <= i <= |eps|
          invariant m == SwitchMapOf(AllSwitches(eps[..i]))
        {
          var sws := eps[i].switches;
          var j := 0;
          assert AllSwitches(eps[..i]) + sws[..0] == AllSwitches(eps[..i]);
          while j < |sws|
            invariant 0 <= j <= |sws|
            invariant m == SwitchMapOf(AllSwitches(eps[..i]) + sws[..j])
          {
            SwitchMapAppend(AllSwitches(eps[..i]) + sws[..j], sws[j]);
            assert AllSwitches(eps[..i]) + sws[..j + 1] == AllSwitches(eps[..i]) + sws[..j] + [sws[j]];
            m := m[sws[j].dataplaneId := sws[j]];
            j := j + 1;
          }
          AllSwitchesStep(eps, i);
          assert sws[..j] == sws;
          i := i + 1;
        }
        assert eps[..i] == eps;
        switchMap := Some(m);
      }
      var m := switchMap.value;
      r := if dataplaneId in m then Some(m[dataplaneId]) else None;
    }

    /**
     * `getDatapleIdOfOutputPort`: the neighbour whose port-map entry is `port`,
     * scanning the entries in iteration order; a missing switch is the
     * NullPointerException the Java code runs into.
     */
    method DataplaneIdOfOutputPort(fromDataplaneId: int, port: int) returns (r: Result<Option<int>>)
      requires Valid()
      modifies this`switchMap
      ensures Valid()
      ensures r == OutputPortOwner(lowerLayerEndpoints, fromDataplaneId, port)
    {
      var sw := GetSwitchConfigById(fromDataplaneId);
      if sw.None? {
        return Err(NullPointer);
      }
      var entries := sw.value.portMap;
      var i := 0;
      while i < |entries|
        invariant 0 <= i <= |entries|
        invariant KeyOfValue(entries, port) == KeyOfValue(entries[i..], port)
      {
        if entries[i].1 == port {
          return Ok(Some(entries[i].0));
        }
        assert entries[i..][1..] == entries[i + 1..];
        i := i + 1;
      }
      return Ok(None);
    }
  }

  /** The value `getDatapleIdOfOutputPort` computes: Err when the switch is not configured. */
  function OutputPortOwner(eps: seq<LowerLayerEndpointConfig>, fromDataplaneId: int, port: int): Result<Option<int>>
  {
    match SwitchById(eps, fromDataplaneId)
    case None => Err(NullPointer)
    case Some(sw) => Ok(KeyOfValue(sw.portMap, port))
  }

  /** The owner found is a neighbour whose port is `port`; None means no neighbour uses that port. */
  lemma OutputPortOwnerMeaning(eps: seq<LowerLayerEndpointConfig>, fromDataplaneId: int, port: int)
    requires SwitchById(eps, fromDataplaneId).Some?
    ensures var sw := SwitchById(eps, fromDataplaneId).value;
            var r := OutputPortOwner(eps, fromDataplaneId, port);
            r.Ok?
            && (r.value.Some? ==> r.value.value in Keys(sw.portMap) && Get(sw.portMap, r.value.value) == Some(port))
            && (r.value.None? <==> port !in Values(sw.portMap))
  {
    var sw := SwitchById(eps, fromDataplaneId).value;
    var r := KeyOfValue(sw.portMap, port);
    if r.Some? {
      var i :| 0 <= i < |sw.portMap| && sw.portMap[i] == (r.value, port);
      GetFindsEntry(sw.portMap, i);
    }
  }
}

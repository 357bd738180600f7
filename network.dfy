/**
 * What the MultiSwitch stage reads from the running TableVisor: the
 * configuration, the translation registry built from it, the devices'
 * neighbourhood, and the ids of the connected devices.
 */
module Network {
  import opened Wrappers
  import opened Config
  import IdPairs
  import Registry

  /**
   * The neighbourhood helpers the stage calls on Configuration and
   * TableVisor (`smallestDataplaneId`, `biggestDataplaneId`,
   * `nextBiggerDataplaneId`, `nextSmallerDataplaneId`,
   * `getOutPortOfDataplaneId`, `getInPortOfDataplaneId`, `maxTableId`).
   * Their code is not part of this model, so they are given as values with
   * no property assumed of them.
   */
  datatype Topology = Topology(
    smallestDataplaneId: int,
    biggestDataplaneId: int,
    nextBiggerDataplaneId: int -> int,
    nextSmallerDataplaneId: int -> int,
    /** The port of the first device that leads to the second. */
    outPortOfDataplaneId: (int, int) -> int,
    /** The port of the first device on which traffic from the second arrives. */
    inPortOfDataplaneId: (int, int) -> int,
    maxTableId: int)

  /**
   * The state a stage consults. `socketIds` is the key set of the lower
   * endpoint manager's socket map, in its iteration order.
   */
  datatype Env = Env(
    eps: seq<LowerLayerEndpointConfig>,
    maps: Registry.IdMaps,
    topo: Topology,
    socketIds: seq<int>,
    ourDatapathId: int)
  {
    /** The registry is a pair of inverse maps of well-formed pairs, and each socket key occurs once. */
    ghost predicate Valid()
    {
      && Registry.Inverse(maps)
      && (forall t :: t in maps.forward ==> maps.forward[t].Valid())
      && (forall i, j :: 0 <= i < j < |socketIds| ==> socketIds[i] != socketIds[j])
    }
  }

  /** The registry `populateIdMaps` builds from the configuration gives a valid environment. */
  lemma BuiltRegistryIsValid(eps: seq<LowerLayerEndpointConfig>, topo: Topology, socketIds: seq<int>, ourDatapathId: int)
    requires Registry.Build(eps).Ok?
    requires forall i, j :: 0 <= i < j < |socketIds| ==> socketIds[i] != socketIds[j]
    ensures Env(eps, Registry.Build(eps).value, topo, socketIds, ourDatapathId).Valid()
  {
    Registry.BuildMeaning(eps);
    var bs := Registry.EndpointsBindings(eps);
    var r := Registry.Build(eps).value;
    forall t | t in r.forward
      ensures r.forward[t].Valid()
    {
      var j :| 0 <= j < |bs| && bs[j].logical == t;
      Registry.BindingPairsValid(eps, j);
    }
  }
}

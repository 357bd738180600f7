/**
 * A reply round of the MultiSwitch stage: a request went to every connected
 * device, and the stage collects each device's first reply until as many
 * devices have answered as there are connections.
 */
module Rounds {
  /**
   * What a round has collected: the devices that answered, the entries
   * their replies contributed (in arrival order) and the union of their
   * flags or capabilities.
   */
  datatype Gathered<T, F> = Gathered(seen: set<int>, items: seq<T>, tags: set<F>)

  function Empty<T, F>(): Gathered<T, F>
  {
    Gathered({}, [], {})
  }

  /** `if (counter.add(dp)) { list.addAll(items); set.addAll(tags); }`. */
  function Gather<T, F>(g: Gathered<T, F>, dp: int, items: seq<T>, tags: set<F>): Gathered<T, F>
  {
    if dp in g.seen then g else Gathered(g.seen + {dp}, g.items + items, g.tags + tags)
  }

  /** `allAnswered`: as many devices answered as there are connections. */
  predicate AllAnswered(seen: set<int>, socketIds: seq<int>)
  {
    |seen| == |socketIds|
  }

  /** The round after a reply: cleared once everyone has answered. */
  function Advance<T, F>(g: Gathered<T, F>, socketIds: seq<int>): Gathered<T, F>
  {
    if AllAnswered(g.seen, socketIds) then Empty() else g
  }

  /** One reply: the device it came from, its entries and its flags. */
  datatype Reply<T, F> = Reply(dp: int, items: seq<T>, tags: set<F>)

  /** The round after the replies, in order. */
  function GatherAll<T, F>(g: Gathered<T, F>, replies: seq<Reply<T, F>>): Gathered<T, F>
  {
    if replies == [] then g
    else
      var r := replies[|replies| - 1];
      Gather(GatherAll(g, replies[..|replies| - 1]), r.dp, r.items, r.tags)
  }

  predicate DistinctDevices<T, F>(replies: seq<Reply<T, F>>)
  {
    forall i, j :: 0 <= i < j < |replies| ==> replies[i].dp != replies[j].dp
  }

  function Devices<T, F>(replies: seq<Reply<T, F>>): set<int>
  {
    set i | 0 <= i < |replies| :: replies[i].dp
  }

  function ConcatItems<T, F>(replies: seq<Reply<T, F>>): seq<T>
  {
    if replies == [] then [] else ConcatItems(replies[..|replies| - 1]) + replies[|replies| - 1].items
  }

  function UnionTags<T, F>(replies: seq<Reply<T, F>>): set<F>
  {
    if replies == [] then {} else UnionTags(replies[..|replies| - 1]) + replies[|replies| - 1].tags
  }

  lemma DevicesSnoc<T, F>(replies: seq<Reply<T, F>>)
    requires replies != []
    ensures Devices(replies) == Devices(replies[..|replies| - 1]) + {replies[|replies| - 1].dp}
  {
    var p := replies[..|replies| - 1];
    forall x | x in Devices(replies) ensures x in Devices(p) + {replies[|replies| - 1].dp} {
      var i :| 0 <= i < |replies| && replies[i].dp == x;
      if i < |p| { assert p[i] == replies[i]; }
    }
    forall x | x in Devices(p) ensures x in Devices(replies) {
      var i :| 0 <= i < |p| && p[i].dp == x;
      assert replies[i] == p[i];
    }
  }

  lemma LastDeviceIsNew<T, F>(replies: seq<Reply<T, F>>)
    requires replies != [] && DistinctDevices(replies)
    ensures DistinctDevices(replies[..|replies| - 1])
    ensures replies[|replies| - 1].dp !in Devices(replies[..|replies| - 1])
  {
    var p := replies[..|replies| - 1];
    assert forall i :: 0 <= i < |p| ==> p[i] == replies[i];
  }

  /**
   * Replies from distinct devices, starting from an empty round: every
   * device is counted, the entries are concatenated in arrival order and
   * the flags united.
   */
  lemma {:induction false} GatherDistinct<T, F>(replies: seq<Reply<T, F>>)
    requires DistinctDevices(replies)
    ensures GatherAll(Empty(), replies) == Gathered(Devices(replies), ConcatItems(replies), UnionTags(replies))
    ensures |Devices(replies)| == |replies|
  {
    if replies != [] {
      var p := replies[..|replies| - 1];
      LastDeviceIsNew(replies);
      GatherDistinct(p);
      DevicesSnoc(replies);
    }
  }

  /** A second reply from a device already counted changes nothing. */
  lemma DuplicateIgnored<T, F>(g: Gathered<T, F>, dp: int, items: seq<T>, tags: set<F>)
    requires dp in g.seen
    ensures Gather(g, dp, items, tags) == g
  {
  }

  function SocketSet(socketIds: seq<int>): set<int>
  {
    set i | 0 <= i < |socketIds| :: socketIds[i]
  }

  lemma {:induction false} DistinctSocketsCount(socketIds: seq<int>)
    requires forall i, j :: 0 <= i < j < |socketIds| ==> socketIds[i] != socketIds[j]
    ensures |SocketSet(socketIds)| == |socketIds|
  {
    if socketIds != [] {
      var p := socketIds[..|socketIds| - 1];
      DistinctSocketsCount(p);
      assert SocketSet(socketIds) == SocketSet(p) + {socketIds[|socketIds| - 1]} by {
        forall x | x in SocketSet(socketIds) ensures x in SocketSet(p) + {socketIds[|socketIds| - 1]} {
          var i :| 0 <= i < |socketIds| && socketIds[i] == x;
          if i < |p| { assert p[i] == socketIds[i]; }
        }
      }
      assert socketIds[|socketIds| - 1] !in SocketSet(p);
    }
  }

  lemma SubsetOfSameSize(a: set<int>, b: set<int>)
    requires a <= b && |a| == |b|
    ensures a == b
  {
    var rest := b - a;
    assert b == a + rest;
    assert a * rest == {};
    assert |b| == |a| + |rest|;
    assert rest == {};
  }

  /**
   * When only connected devices answer, "as many answers as connections"
   * means that every connected device has answered.
   */
  lemma AllAnsweredMeansEveryDevice(seen: set<int>, socketIds: seq<int>)
    requires forall i, j :: 0 <= i < j < |socketIds| ==> socketIds[i] != socketIds[j]
    requires seen <= SocketSet(socketIds)
    ensures AllAnswered(seen, socketIds) <==> seen == SocketSet(socketIds)
  {
    DistinctSocketsCount(socketIds);
    if |seen| == |socketIds| {
      SubsetOfSameSize(seen, SocketSet(socketIds));
    }
  }

  /**
   * A round of replies from distinct devices completes exactly at the reply
   * that makes the number of answers equal to the number of connections.
   */
  lemma RoundCompletesAtLastReply<T, F>(replies: seq<Reply<T, F>>, socketIds: seq<int>, k: int)
    requires DistinctDevices(replies) && 0 <= k <= |replies|
    ensures AllAnswered(GatherAll(Empty(), replies[..k]).seen, socketIds) <==> k == |socketIds|
  {
    var p := replies[..k];
    assert DistinctDevices(p) by {
      forall i, j | 0 <= i < j < |p| ensures p[i].dp != p[j].dp {
        assert p[i] == replies[i] && p[j] == replies[j];
      }
    }
    GatherDistinct(p);
  }
}

/**
 * Matches as the library's Match.Builder treats them: at most one entry per
 * field, and setting a field that is present replaces its entry.
 */
module Matches {
  import opened Wrappers
  import opened OpenFlow

  /** Each field occurs at most once, as in every built match. */
  predicate UniqueFields(m: Match)
  {
    forall i, j :: 0 <= i < j < |m| ==> m[i].field != m[j].field
  }

  /** `get`/`getMasked` of a field: its entry, if the match has one. */
  function Lookup(m: Match, field: string): (r: Option<MatchEntry>)
    ensures r.Some? ==> r.value in m && r.value.field == field
    ensures r.None? <==> forall i :: 0 <= i < |m| ==> m[i].field != field
  {
    if m == [] then None
    else if m[0].field == field then Some(m[0])
    else Lookup(m[1..], field)
  }

  /** `setExact`/`setMasked` on a builder holding `m`: replace the entry of that field, or add one. */
  function SetEntry(m: Match, e: MatchEntry): (r: Match)
    ensures |r| == |m| || |r| == |m| + 1
  {
    if m == [] then [e]
    else if m[0].field == e.field then [e] + m[1..]
    else [m[0]] + SetEntry(m[1..], e)
  }

  lemma {:induction false} SetEntryMeaning(m: Match, e: MatchEntry, f: string)
    requires UniqueFields(m)
    ensures UniqueFields(SetEntry(m, e))
    ensures Lookup(SetEntry(m, e), f) == if f == e.field then Some(e) else Lookup(m, f)
  {
    if m != [] && m[0].field != e.field {
      SetEntryMeaning(m[1..], e, f);
      SetEntryMeaning(m[1..], e, m[0].field);
      var r := SetEntry(m, e);
      forall i, j | 0 <= i < j < |r| ensures r[i].field != r[j].field {
        if i == 0 {
          assert r[j] in SetEntry(m[1..], e);
        }
      }
    } else if m != [] {
      var r := SetEntry(m, e);
      assert r[1..] == m[1..];
    }
  }

  /** Setting a field that is not yet present appends its entry. */
  lemma {:induction false} SetAbsentEntryAppends(m: Match, e: MatchEntry)
    requires Lookup(m, e.field).None?
    ensures SetEntry(m, e) == m + [e]
  {
    if m != [] {
      SetAbsentEntryAppends(m[1..], e);
      assert [m[0]] + (m[1..] + [e]) == m + [e];
    }
  }

  /** The match with every IN_PORT entry left out, the rest in order. */
  function WithoutInPort(m: Match): (r: Match)
    ensures forall e :: e in r <==> e in m && e.field != IN_PORT
    ensures |r| <= |m|
  {
    if m == [] then []
    else if m[0].field == IN_PORT then WithoutInPort(m[1..])
    else [m[0]] + WithoutInPort(m[1..])
  }

  lemma {:induction false} WithoutInPortLookup(m: Match, f: string)
    requires UniqueFields(m)
    ensures UniqueFields(WithoutInPort(m))
    ensures Lookup(WithoutInPort(m), f) == if f == IN_PORT then None else Lookup(m, f)
  {
    if m != [] {
      WithoutInPortLookup(m[1..], f);
      var r := WithoutInPort(m);
      if m[0].field != IN_PORT {
        forall i, j | 0 <= i < j < |r| ensures r[i].field != r[j].field {
          if i == 0 {
            assert r[j] in m[1..];
            var k :| 0 <= k < |m[1..]| && m[1..][k] == r[j];
            assert m[k + 1] == r[j];
          } else {
            WithoutInPortLookup(m[1..], m[0].field);
          }
        }
      }
    }
  }

  /** Leaving out IN_PORT twice is leaving it out once. */
  lemma {:induction false} WithoutInPortIdempotent(m: Match)
    ensures WithoutInPort(WithoutInPort(m)) == WithoutInPort(m)
  {
    if m != [] {
      WithoutInPortIdempotent(m[1..]);
    }
  }

  lemma {:induction false} WithoutInPortAppend(a: Match, b: Match)
    ensures WithoutInPort(a + b) == WithoutInPort(a) + WithoutInPort(b)
  {
    if a == [] {
      assert a + b == b;
    } else {
      assert (a + b)[0] == a[0];
      assert (a + b)[1..] == a[1..] + b;
      WithoutInPortAppend(a[1..], b);
    }
  }

  /** `removeInPortFromMatch`: copy every field except IN_PORT into a fresh builder. */
  method RemoveInPortFromMatch(m: Match) returns (r: Match)
    requires UniqueFields(m)
    ensures r == WithoutInPort(m)
  {
    r := [];
    var i := 0;
    while i < |m|
      invariant 0 <= i <= |m|
      invariant r == WithoutInPort(m[..i])
    {
      assert m[..i + 1] == m[..i] + [m[i]];
      WithoutInPortAppend(m[..i], [m[i]]);
      if m[i].field != IN_PORT {
        assert Lookup(m[..i], m[i].field).None?;
        WithoutInPortLookup(m[..i], m[i].field);
        SetAbsentEntryAppends(r, m[i]);
        r := SetEntry(r, m[i]);
      }
      i := i + 1;
    }
    assert m[..i] == m;
  }

  /**
   * The match of a flow-mod addressed to the highest table: every field
   * copied as it is, then IN_PORT set exactly to `port`.
   */
  method PinInPort(m: Match, port: int) returns (r: Match)
    requires UniqueFields(m)
    ensures r == SetEntry(m, MatchEntry(IN_PORT, port, None))
    ensures UniqueFields(r)
    ensures Lookup(r, IN_PORT) == Some(MatchEntry(IN_PORT, port, None))
    ensures forall f :: f != IN_PORT ==> Lookup(r, f) == Lookup(m, f)
  {
    var b: Match := [];
    var i := 0;
    while i < |m|
      invariant 0 <= i <= |m|
      invariant b == m[..i]
    {
      assert Lookup(b, m[i].field).None? by {
        forall k | 0 <= k < |b| ensures b[k].field != m[i].field {
          assert b[k] == m[k];
        }
      }
      SetAbsentEntryAppends(b, m[i]);
      b := SetEntry(b, m[i]);
      assert m[..i + 1] == m[..i] + [m[i]];
      i := i + 1;
    }
    assert b == m;
    var e := MatchEntry(IN_PORT, port, None);
    r := SetEntry(b, e);
    SetEntryMeaning(m, e, IN_PORT);
    forall f | f != IN_PORT ensures Lookup(r, f) == Lookup(m, f) {
      SetEntryMeaning(m, e, f);
    }
  }
}

/**
 * The altitude-keyed wind table behind src/support/wind/WindModel.ts. The
 * source keeps a JavaScript `Map<number, Wind>` in insertion order and
 * rebuilds it sorted after every insertion; here the map is the sequence of
 * its entries in iteration order, and `Lookup` is the map view (`Map.get`).
 */
module WindTable {
  import opened Wrappers
  import opened Winds

  /** One map entry: an altitude in metres and the wind there. */
  datatype Sample = Sample(altitude: real, wind: Wind)

  /** The entries' altitudes, in iteration order. */
  function Altitudes(t: seq<Sample>): (a: seq<real>)
    ensures |a| == |t|
    ensures forall i :: 0 <= i < |t| ==> a[i] == t[i].altitude
  {
    if |t| == 0 then [] else [t[0].altitude] + Altitudes(t[1..])
  }

  /** Strictly ascending altitudes (which also makes the keys distinct). */
  predicate Sorted(t: seq<Sample>) {
    forall i, j :: 0 <= i < j < |t| ==> t[i].altitude < t[j].altitude
  }

  /** Every altitude of t lies strictly above b. */
  predicate AllAbove(t: seq<Sample>, b: real) {
    forall i :: 0 <= i < |t| ==> b < t[i].altitude
  }

  /** `Map.get`: the wind stored under altitude a, the first entry with that key. */
  function Lookup(t: seq<Sample>, a: real): (r: Option<Wind>)
    ensures r.Some? <==> a in Altitudes(t)
    ensures forall i :: 0 <= i < |t| && t[i].altitude == a && a !in Altitudes(t[..i]) ==> r == Some(t[i].wind)
  {
    if |t| == 0 then None
    else if t[0].altitude == a then Some(t[0].wind)
    else
      assert forall i :: 1 <= i <= |t| ==> t[..i] == [t[0]] + t[1..][..i - 1];
      Lookup(t[1..], a)
  }

  /** A sorted sequence is a sorted head above a sorted tail. */
  lemma SortedCons(s: Sample, t: seq<Sample>)
    ensures Sorted([s] + t) <==> (Sorted(t) && AllAbove(t, s.altitude))
  {
    var u := [s] + t;
    if Sorted(t) && AllAbove(t, s.altitude) {
      forall i, j | 0 <= i < j < |u|
        ensures u[i].altitude < u[j].altitude
      {
        if i > 0 {
          assert u[i] == t[i - 1] && u[j] == t[j - 1];
        } else {
          assert u[j] == t[j - 1];
        }
      }
    }
    if Sorted(u) {
      forall i, j | 0 <= i < j < |t|
        ensures t[i].altitude < t[j].altitude
      {
        assert t[i] == u[i + 1] && t[j] == u[j + 1];
      }
      forall i | 0 <= i < |t|
        ensures s.altitude < t[i].altitude
      {
        assert u[0] == s && t[i] == u[i + 1];
      }
    }
  }

  /** `Map.set` on a map with entries t: the key now maps to the new wind and every other key to what it mapped to before. */
  function MapSet(t: seq<Sample>, s: Sample): (r: seq<Sample>)
    ensures Lookup(r, s.altitude) == Some(s.wind)
    ensures forall a :: a != s.altitude ==> Lookup(r, a) == Lookup(t, a)
  {
    if |t| == 0 then
      LookupConsAll(s, []);
      [s]
    else if t[0].altitude == s.altitude then
      LookupConsAll(s, t[1..]);
      [s] + t[1..]
    else
      var rest := MapSet(t[1..], s);
      LookupConsAll(t[0], rest);
      [t[0]] + rest
  }

  /** The altitudes of a non-empty table: the head's, then the tail's. */
  lemma AltitudesCons(s: Sample, t: seq<Sample>)
    ensures Altitudes([s] + t) == [s.altitude] + Altitudes(t)
  {
    assert ([s] + t)[1..] == t;
  }

  /** `Map.set` on an existing key keeps the keys in their order. */
  lemma {:induction false} MapSetKeepsKeys(t: seq<Sample>, s: Sample)
    requires s.altitude in Altitudes(t)
    ensures Altitudes(MapSet(t, s)) == Altitudes(t)
  {
    assert t == [t[0]] + t[1..];
    AltitudesCons(t[0], t[1..]);
    if t[0].altitude == s.altitude {
      AltitudesCons(s, t[1..]);
    } else {
      MapSetKeepsKeys(t[1..], s);
      AltitudesCons(t[0], MapSet(t[1..], s));
    }
  }

  /** `Map.set` on a new key appends the entry after the existing ones. */
  lemma {:induction false} MapSetAppends(t: seq<Sample>, s: Sample)
    requires s.altitude !in Altitudes(t)
    ensures MapSet(t, s) == t + [s]
  {
    if |t| > 0 {
      AltitudesCons(t[0], t[1..]);
      assert t[0].altitude != s.altitude && s.altitude !in Altitudes(t[1..]) by {
        assert Altitudes(t) == [t[0].altitude] + Altitudes(t[1..]) by {
          assert t == [t[0]] + t[1..];
        }
      }
      MapSetAppends(t[1..], s);
      assert MapSet(t, s) == [t[0]] + (t[1..] + [s]);
      assert [t[0]] + (t[1..] + [s]) == t + [s];
    }
  }

  /** Insertion into a sorted table; an equal altitude has its wind replaced. */
  function InsertSorted(t: seq<Sample>, s: Sample): (r: seq<Sample>)
    ensures forall b :: AllAbove(t, b) && b < s.altitude ==> AllAbove(r, b)
    ensures Sorted(t) ==> Sorted(r)
  {
    if |t| == 0 then [s]
    else if s.altitude < t[0].altitude then
      SortedCons(s, t);
      [s] + t
    else if s.altitude == t[0].altitude then
      SortedCons(t[0], t[1..]);
      SortedCons(s, t[1..]);
      [s] + t[1..]
    else
      var rest := InsertSorted(t[1..], s);
      SortedCons(t[0], t[1..]);
      SortedCons(t[0], rest);
      assert forall b :: AllAbove(t, b) && b < s.altitude ==> AllAbove([t[0]] + rest, b) by {
        forall b | AllAbove(t, b) && b < s.altitude
          ensures AllAbove([t[0]] + rest, b)
        {
          assert AllAbove(t[1..], b);
        }
      }
      [t[0]] + rest
  }

  /** Looking up a non-empty table: the head's key answers with the head, any other key is looked up in the tail. */
  lemma LookupCons(s: Sample, t: seq<Sample>, a: real)
    ensures Lookup([s] + t, a) == if a == s.altitude then Some(s.wind) else Lookup(t, a)
  {
    assert ([s] + t)[1..] == t;
  }

  /** `LookupCons` at every key at once. */
  lemma LookupConsAll(s: Sample, t: seq<Sample>)
    ensures forall a :: Lookup([s] + t, a) == if a == s.altitude then Some(s.wind) else Lookup(t, a)
  {
    forall a
      ensures Lookup([s] + t, a) == if a == s.altitude then Some(s.wind) else Lookup(t, a)
    {
      LookupCons(s, t, a);
    }
  }

  /** After insertion the new key maps to the new wind and every other key is unchanged. */
  lemma {:induction false} InsertSortedLookup(t: seq<Sample>, s: Sample, a: real)
    ensures Lookup(InsertSorted(t, s), a) == if a == s.altitude then Some(s.wind) else Lookup(t, a)
  {
    if |t| == 0 {
      LookupCons(s, [], a);
    } else if s.altitude < t[0].altitude {
      LookupCons(s, t, a);
    } else if s.altitude == t[0].altitude {
      LookupCons(s, t[1..], a);
      LookupCons(t[0], t[1..], a);
      assert t == [t[0]] + t[1..];
    } else {
      InsertSortedLookup(t[1..], s, a);
      LookupCons(t[0], InsertSorted(t[1..], s), a);
      LookupCons(t[0], t[1..], a);
      assert t == [t[0]] + t[1..];
    }
  }

  /** The sort the source applies after every insertion, as an insertion sort from the back. */
  function Resort(t: seq<Sample>): (r: seq<Sample>)
    ensures Sorted(r)
    ensures forall a :: Lookup(r, a) == Lookup(t, a)
  {
    if |t| == 0 then []
    else
      var rest := Resort(t[1..]);
      assert forall a :: Lookup(InsertSorted(rest, t[0]), a) == Lookup(t, a) by {
        forall a
          ensures Lookup(InsertSorted(rest, t[0]), a) == Lookup(t, a)
        {
          InsertSortedLookup(rest, t[0], a);
          LookupCons(t[0], t[1..], a);
          assert t == [t[0]] + t[1..];
        }
      }
      InsertSorted(rest, t[0])
  }

  /** The head of a non-empty sorted table has the lowest altitude and the last entry the highest. */
  lemma SortedExtremes(t: seq<Sample>)
    requires Sorted(t) && |t| > 0
    ensures forall i :: 0 <= i < |t| ==> t[0].altitude <= t[i].altitude <= t[|t| - 1].altitude
  {
  }

  /** Two sorted tables with the same lookups are the same table. */
  lemma {:induction false} SortedExtensional(t: seq<Sample>, u: seq<Sample>)
    requires Sorted(t) && Sorted(u)
    requires forall a :: Lookup(t, a) == Lookup(u, a)
    ensures t == u
  {
    if |t| > 0 {
      assert Lookup(t, t[0].altitude).Some?;
    }
    if |u| > 0 {
      assert Lookup(u, u[0].altitude).Some?;
    }
    if |t| > 0 && |u| > 0 {
      assert Lookup(u, t[0].altitude).Some?;
      assert Lookup(t, u[0].altitude).Some?;
      SortedExtremes(t);
      SortedExtremes(u);
      assert t[0].altitude == u[0].altitude;
      assert Lookup(t, t[0].altitude) == Some(t[0].wind);
      assert t[0] == u[0];
      SortedCons(t[0], t[1..]);
      SortedCons(u[0], u[1..]);
      assert t == [t[0]] + t[1..] && u == [u[0]] + u[1..];
      forall a
        ensures Lookup(t[1..], a) == Lookup(u[1..], a)
      {
        if a == t[0].altitude {
          assert a !in Altitudes(t[1..]);
          assert a !in Altitudes(u[1..]);
        } else {
          assert Lookup(t, a) == Lookup(t[1..], a);
          assert Lookup(u, a) == Lookup(u[1..], a);
        }
      }
      SortedExtensional(t[1..], u[1..]);
    }
  }

  /** On a sorted table, set-then-sort is plain sorted insertion. */
  lemma SetThenSortIsInsert(t: seq<Sample>, s: Sample)
    requires Sorted(t)
    ensures Resort(MapSet(t, s)) == InsertSorted(t, s)
  {
    forall a
      ensures Lookup(Resort(MapSet(t, s)), a) == Lookup(InsertSorted(t, s), a)
    {
      InsertSortedLookup(t, s, a);
    }
    SortedExtensional(Resort(MapSet(t, s)), InsertSorted(t, s));
  }

  /** Sorting a sorted table changes nothing. */
  lemma ResortSorted(t: seq<Sample>)
    requires Sorted(t)
    ensures Resort(t) == t
  {
    SortedExtensional(Resort(t), t);
  }
}

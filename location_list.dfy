/**
 * The list of locations: sorted by location type with a three-way string
 * comparison, so that warehouses ("permanent") come before temporary
 * locations, and annotated with how many items each holds.
 */
module LocationList {
  import opened Wrappers
  import opened DbModels
  import opened Client

  /** The `<` of two strings: lexicographic by character, a proper prefix first. */
  predicate StrLess(a: string, b: string)
  {
    if a == [] then b != []
    else if b == [] then false
    else if a[0] != b[0] then a[0] < b[0]
    else StrLess(a[1..], b[1..])
  }

  lemma {:induction false} StrLessIrreflexive(a: string)
    ensures !StrLess(a, a)
  {
    if a != [] {
      StrLessIrreflexive(a[1..]);
    }
  }

  lemma {:induction false} StrLessAsymmetric(a: string, b: string)
    ensures StrLess(a, b) ==> !StrLess(b, a)
  {
    if a != [] && b != [] && a[0] == b[0] {
      StrLessAsymmetric(a[1..], b[1..]);
    }
  }

  /** Two different strings are ordered one way or the other. */
  lemma {:induction false} StrLessTotal(a: string, b: string)
    ensures a != b ==> StrLess(a, b) || StrLess(b, a)
  {
    if a != [] && b != [] && a[0] == b[0] {
      StrLessTotal(a[1..], b[1..]);
      if a[1..] == b[1..] {
        assert a == [a[0]] + a[1..] && b == [b[0]] + b[1..];
      }
    }
  }

  lemma {:induction false} StrLessTransitive(a: string, b: string, c: string)
    requires StrLess(a, b) && StrLess(b, c)
    ensures StrLess(a, c)
  {
    if a != [] && a[0] == b[0] && b[0] == c[0] {
      StrLessTransitive(a[1..], b[1..], c[1..]);
    }
  }

  const Permanent := "permanent"
  const Temporary := "temporary"

  lemma PermanentSortsFirst()
    ensures StrLess(Permanent, Temporary)
  {
  }

  /** The comparator: -1, 1 or 0 as the first location's type is below, above or equal to the second's. */
  function PermFirst(a: ClientLocation<Id>, b: ClientLocation<Id>): (r: int)
    ensures r == -1 <==> StrLess(a.locationType, b.locationType)
    ensures r == 1 <==> StrLess(b.locationType, a.locationType)
    ensures r == 0 <==> a.locationType == b.locationType
  {
    StrLessAsymmetric(a.locationType, b.locationType);
    StrLessTotal(a.locationType, b.locationType);
    StrLessIrreflexive(a.locationType);
    if StrLess(a.locationType, b.locationType) then -1
    else if StrLess(b.locationType, a.locationType) then 1
    else 0
  }

  /** Swapping the arguments negates the comparison. */
  lemma PermFirstAntisymmetric(a: ClientLocation<Id>, b: ClientLocation<Id>)
    ensures PermFirst(a, b) == -PermFirst(b, a)
    ensures PermFirst(a, b) == 0 <==> PermFirst(b, a) == 0
  {
  }

  /** Ordered by the comparator: no location compares below an earlier one. */
  predicate SortedByType(s: seq<ClientLocation<Id>>)
  {
    forall i, j :: 0 <= i < j < |s| ==> PermFirst(s[i], s[j]) <= 0
  }

  /** Inserts `x` after every location that does not compare above it, as a stable sort places a later element. */
  function Insert(x: ClientLocation<Id>, s: seq<ClientLocation<Id>>): (r: seq<ClientLocation<Id>>)
    ensures multiset(r) == multiset(s) + multiset{x}
    ensures |r| == |s| + 1
    ensures forall e :: e in r ==> e == x || e in s
  {
    if s == [] then [x]
    else if PermFirst(x, s[0]) < 0 then [x] + s
    else
      assert s == [s[0]] + s[1..];
      [s[0]] + Insert(x, s[1..])
  }

  /**
   * `sort` with the comparator. It is a stable sort, which the comparator
   * makes unique: locations of equal type keep their order.
   */
  function SortByType(s: seq<ClientLocation<Id>>): (r: seq<ClientLocation<Id>>)
    ensures |r| == |s|
  {
    if s == [] then [] else Insert(s[|s| - 1], SortByType(s[..|s| - 1]))
  }

  /** `x` below the head of an ordered list is below all of it. */
  lemma PrependSorted(x: ClientLocation<Id>, s: seq<ClientLocation<Id>>)
    requires SortedByType(s) && s != [] && PermFirst(x, s[0]) < 0
    ensures SortedByType([x] + s)
  {
    var r := [x] + s;
    forall j | 1 <= j < |r|
      ensures PermFirst(x, r[j]) <= 0
    {
      if j > 1 && StrLess(s[j - 1].locationType, x.locationType) {
        assert PermFirst(s[0], s[j - 1]) <= 0;
        StrLessTransitive(s[j - 1].locationType, x.locationType, s[0].locationType);
      }
    }
  }

  lemma ConsSorted(y: ClientLocation<Id>, t: seq<ClientLocation<Id>>)
    requires SortedByType(t) && forall e :: e in t ==> PermFirst(y, e) <= 0
    ensures SortedByType([y] + t)
  {
    var r := [y] + t;
    forall i, j | 0 <= i < j < |r|
      ensures PermFirst(r[i], r[j]) <= 0
    {
      if i == 0 {
        assert r[j] in t;
      }
    }
  }

  lemma {:induction false} InsertSorted(x: ClientLocation<Id>, s: seq<ClientLocation<Id>>)
    requires SortedByType(s)
    ensures SortedByType(Insert(x, s))
  {
    if s != [] {
      if PermFirst(x, s[0]) < 0 {
        PrependSorted(x, s);
      } else {
        InsertSorted(x, s[1..]);
        var t := Insert(x, s[1..]);
        forall e | e in t
          ensures PermFirst(s[0], e) <= 0
        {
          if e != x {
            var k :| 0 <= k < |s[1..]| && s[1..][k] == e;
            assert s[k + 1] == e;
          }
        }
        ConsSorted(s[0], t);
      }
    }
  }

  /** The sort's result is ordered and holds exactly the locations it was given. */
  lemma {:induction false} SortByTypeCorrect(s: seq<ClientLocation<Id>>)
    ensures SortedByType(SortByType(s))
    ensures multiset(SortByType(s)) == multiset(s)
  {
    if s != [] {
      var init := s[..|s| - 1];
      SortByTypeCorrect(init);
      InsertSorted(s[|s| - 1], SortByType(init));
      assert s == init + [s[|s| - 1]];
    }
  }

  /** In a list ordered by type, every warehouse comes before every temporary location. */
  lemma PermanentBeforeTemporary(r: seq<ClientLocation<Id>>)
    requires SortedByType(r)
    ensures forall i, j :: (0 <= i < |r| && 0 <= j < |r| &&
                            r[i].locationType == Permanent && r[j].locationType == Temporary) ==> i < j
  {
    PermanentSortsFirst();
  }

  /** A temporary location counts the item ids it lists; a warehouse waits for its available items. */
  function WithCount(l: ClientLocation<Id>): ClientLocation<Id>
  {
    if l.locationType == Temporary then l.(numberOfItems := Some(|l.items|)) else l
  }

  /** The request for the available items of every location that is not temporary, in list order. */
  function CountRequests(ls: seq<ClientLocation<Id>>): seq<Effect>
  {
    if ls == [] then []
    else
      var last := ls[|ls| - 1];
      CountRequests(ls[..|ls| - 1]) + (if last.locationType == Temporary then [] else [Send(GetAvailableItems(last.id))])
  }

  /** One more location, seen by a left-to-right loop. */
  lemma CountRequestsSnoc(ls: seq<ClientLocation<Id>>, i: nat)
    requires i < |ls|
    ensures CountRequests(ls[..i + 1]) ==
      CountRequests(ls[..i]) + (if ls[i].locationType == Temporary then [] else [Send(GetAvailableItems(ls[i].id))])
  {
    assert ls[..i + 1][..i] == ls[..i];
  }

  /** A count is requested exactly for each location that is not temporary, and nothing else is sent. */
  lemma {:induction false} CountRequestsMembers(ls: seq<ClientLocation<Id>>, e: Effect)
    ensures e in CountRequests(ls) <==>
      exists k :: 0 <= k < |ls| && ls[k].locationType != Temporary && e == Send(GetAvailableItems(ls[k].id))
    ensures |CountRequests(ls)| <= |ls|
  {
    if ls != [] {
      var n := |ls| - 1;
      var init := ls[..n];
      assert forall j :: 0 <= j < n ==> init[j] == ls[j];
      CountRequestsMembers(init, e);
    }
  }

  class LocationListComponent {
    var locations: seq<ClientLocation<Id>>

    constructor()
      ensures locations == []
    {
      locations := [];
    }

    /**
     * The locations arrive: they are sorted, warehouses first, and each
     * temporary location gets the number of its items.
     */
    method LocationsArrived(fetched: seq<ClientLocation<Id>>) returns (effects: seq<Effect>)
      modifies this
      ensures effects == CountRequests(SortByType(fetched))
      ensures |locations| == |fetched|
      ensures forall i :: 0 <= i < |locations| ==> locations[i] == WithCount(SortByType(fetched)[i])
      ensures forall i :: 0 <= i < |locations| && locations[i].locationType == Temporary ==>
        locations[i].numberOfItems == Some(|locations[i].items|)
      ensures forall i, j :: (0 <= i < |locations| && 0 <= j < |locations| &&
                              locations[i].locationType == Permanent &&
                              locations[j].locationType == Temporary) ==> i < j
    {
      var sorted := SortByType(fetched);
      SortByTypeCorrect(fetched);
      PermanentBeforeTemporary(sorted);
      locations := sorted;
      effects := CountEach();
      assert forall m :: 0 <= m < |locations| ==> locations[m].locationType == sorted[m].locationType;
    }

    /**
     * The loop over the sorted list: a temporary location counts its items
     * in place, any other location has its count requested.
     */
    method CountEach() returns (effects: seq<Effect>)
      modifies this
      ensures |locations| == |old(locations)|
      ensures forall m :: 0 <= m < |locations| ==> locations[m] == WithCount(old(locations)[m])
      ensures effects == CountRequests(old(locations))
    {
      ghost var start := locations;
      effects := [];
      for i := 0 to |locations|
        invariant |locations| == |start|
        invariant forall m :: 0 <= m < i ==> locations[m] == WithCount(start[m])
        invariant forall m :: i <= m < |locations| ==> locations[m] == start[m]
        invariant effects == CountRequests(start[..i])
      {
        CountRequestsSnoc(start, i);
        if locations[i].locationType == Temporary {
          locations := locations[i := locations[i].(numberOfItems := Some(|locations[i].items|))];
        } else {
          effects := effects + [Send(GetAvailableItems(locations[i].id))];
        }
      }
      assert start[..|start|] == start;
    }

    /** A warehouse's count of available items arrives. */
    method AvailableCountArrived(i: nat, count: nat)
      requires i < |locations|
      modifies this
      ensures locations == old(locations)[i := old(locations)[i].(numberOfItems := Some(count))]
    {
      locations := locations[i := locations[i].(numberOfItems := Some(count))];
    }
  }
}

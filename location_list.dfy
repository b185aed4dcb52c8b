/**
 * The `sortedLocations` computation of components/LocationList.tsx: the
 * locations whose name or category contains the search text, ignoring
 * case, then, when the user's position is known, ordered by distance from
 * it with the stable `Array.prototype.sort`. The distance function
 * (geolib's `getDistance`, whole metres) is a parameter.
 */
module LocationList {
  import opened Text
  import opened Rows
  import opened Storage
  import Route

  datatype Point = Point(lat: real, lng: real)

  // ---------------------------------------------------------------------
  // Filtering
  // ---------------------------------------------------------------------

  /** The filter callback as written: `None` is the TypeError thrown by
      `l.category.toLowerCase()` when the name does not match and the
      record has no category. */
  function MatchesAsWritten(l: Location, search: string): (r: Option<bool>)
    ensures r.None? <==> !Contains(Lower(l.name), Lower(search)) && l.category.None?
  {
    if Contains(Lower(l.name), Lower(search)) then Some(true)
    else if l.category.None? then None
    else Some(Contains(Lower(l.category.value), Lower(search)))
  }

  /** `locations.filter(...)` as written: `None` when the callback throws
      on some record. */
  function FilterAsWritten(locations: seq<Location>, search: string): Option<seq<Location>> {
    if locations == [] then Some([])
    else
      var head := MatchesAsWritten(locations[0], search);
      var tail := FilterAsWritten(locations[1..], search);
      if head.None? || tail.None? then None
      else Some((if head.value then [locations[0]] else []) + tail.value)
  }

  /** The filter callback as intended: the name or, when the record has one,
      the category contains the search text, ignoring case. */
  predicate Matches(l: Location, search: string) {
    || Contains(Lower(l.name), Lower(search))
    || (l.category.Some? && Contains(Lower(l.category.value), Lower(search)))
  }

  /** The matching locations, in their order. */
  function Filter(locations: seq<Location>, search: string): (r: seq<Location>)
    ensures |r| <= |locations|
  {
    if locations == [] then []
    else (if Matches(locations[0], search) then [locations[0]] else []) + Filter(locations[1..], search)
  }

  /** A matching location is kept as often as it occurs; any other is
      dropped. */
  lemma {:induction false} FilterCount(locations: seq<Location>, search: string)
    ensures forall x ::
      multiset(Filter(locations, search))[x] == (if Matches(x, search) then multiset(locations)[x] else 0)
  {
    if locations != [] {
      FilterCount(locations[1..], search);
      assert locations == [locations[0]] + locations[1..];
    }
  }

  /** The filter as written throws exactly when some record has no category
      and a name that does not match; otherwise it agrees with `Filter`. */
  lemma {:induction false} FilterAsWrittenAgrees(locations: seq<Location>, search: string)
    ensures FilterAsWritten(locations, search).None? <==>
      exists i :: 0 <= i < |locations| && MatchesAsWritten(locations[i], search).None?
    ensures FilterAsWritten(locations, search).Some? ==> FilterAsWritten(locations, search).value == Filter(locations, search)
  {
    if locations != [] {
      var tail := locations[1..];
      FilterAsWrittenAgrees(tail, search);
      if exists i :: 0 <= i < |tail| && MatchesAsWritten(tail[i], search).None? {
        var i :| 0 <= i < |tail| && MatchesAsWritten(tail[i], search).None?;
        assert locations[i + 1] == tail[i];
      }
      if exists i :: 0 <= i < |locations| && MatchesAsWritten(locations[i], search).None? {
        var i :| 0 <= i < |locations| && MatchesAsWritten(locations[i], search).None?;
        if i > 0 {
          assert tail[i - 1] == locations[i];
        }
      }
    }
  }

  /** A record created through `POST` has no category, so any search its
      name does not contain makes the list throw. */
  lemma PostedRecordBreaksSearch(body: Route.Body, id: string, search: string)
    requires Route.Accept(body).Some?
    requires !Contains(Lower(body.name.value), Lower(search))
    ensures FilterAsWritten([WithId(Route.Accept(body).value, id)], search).None?
  {
    FilterAsWrittenAgrees([WithId(Route.Accept(body).value, id)], search);
  }

  /** The smallest case: an ATM added from the map, searched for "bank". */
  lemma PostedAtmSearchedForBank(body: Route.Body, search: string)
    requires body == Route.Body(Some(41.01), Some(70.14), Some("ATM"), None, None, Some("ATM"), Some("ATM"))
    requires search == "bank"
    ensures FilterAsWritten([WithId(Route.Accept(body).value, "k3x9a1b2c")], search).None?
  {
    assert Lower(search) == search by {
      assert forall i :: 0 <= i < |search| ==> LowerChar(search[i]) == search[i];
    }
    assert Lower("ATM") == "atm";
    assert !Contains("atm", "bank") by {
      ContainsIff("atm", "bank");
    }
    PostedRecordBreaksSearch(body, "k3x9a1b2c", search);
  }

  /** A location is listed exactly when it is in the input and matches. */
  lemma {:induction false} FilterMembers(locations: seq<Location>, search: string)
    ensures forall x :: x in Filter(locations, search) <==> x in locations && Matches(x, search)
  {
    if locations != [] {
      FilterMembers(locations[1..], search);
      assert locations == [locations[0]] + locations[1..];
    }
  }

  /** Filtering keeps the input order. */
  lemma {:induction false} FilterSubseq(locations: seq<Location>, search: string)
    ensures IsSubseq(Filter(locations, search), locations)
  {
    if locations != [] {
      var tail := locations[1..];
      FilterSubseq(tail, search);
      if Matches(locations[0], search) {
        assert Filter(locations, search)[1..] == Filter(tail, search);
      } else {
        assert Filter(locations, search) == Filter(tail, search);
        SubseqCons(Filter(tail, search), locations[0], tail);
        assert [locations[0]] + tail == locations;
      }
    }
  }

  /** An empty search lists everything. */
  lemma {:induction false} FilterEmptySearch(locations: seq<Location>)
    ensures Filter(locations, "") == locations
  {
    if locations != [] {
      ContainsEmpty(Lower(locations[0].name));
      assert Lower("") == "";
      FilterEmptySearch(locations[1..]);
      assert [locations[0]] + locations[1..] == locations;
    }
  }

  /** Case does not matter: a lower-cased search lists the same. */
  lemma {:induction false} FilterIgnoresCase(locations: seq<Location>, search: string)
    ensures Filter(locations, Lower(search)) == Filter(locations, search)
  {
    LowerIdempotent(search);
    if locations != [] {
      FilterIgnoresCase(locations[1..], search);
    }
  }

  // ---------------------------------------------------------------------
  // Ordering by distance
  // ---------------------------------------------------------------------

  predicate SortedBy(s: seq<Location>, key: Location -> int) {
    forall i, j :: 0 <= i < j < |s| ==> key(s[i]) <= key(s[j])
  }

  /** The elements of `s` with key `k`, in order. */
  function Select(s: seq<Location>, key: Location -> int, k: int): seq<Location> {
    if s == [] then []
    else (if key(s[0]) == k then [s[0]] else []) + Select(s[1..], key, k)
  }

  /** `x` placed before the first element whose key is not smaller. */
  function Insert(x: Location, s: seq<Location>, key: Location -> int): (r: seq<Location>)
    ensures multiset(r) == multiset(s) + multiset{x}
  {
    if s == [] || key(x) <= key(s[0]) then [x] + s
    else
      assert s == [s[0]] + s[1..];
      [s[0]] + Insert(x, s[1..], key)
  }

  /** A lower bound on the keys of `s` and on `x` bounds the keys after
      insertion. */
  lemma {:induction false} InsertBounded(x: Location, s: seq<Location>, key: Location -> int, b: int)
    requires key(x) >= b && forall i :: 0 <= i < |s| ==> key(s[i]) >= b
    ensures forall i :: 0 <= i < |Insert(x, s, key)| ==> key(Insert(x, s, key)[i]) >= b
  {
    if s != [] && key(x) > key(s[0]) {
      InsertBounded(x, s[1..], key, b);
    }
  }

  /** Inserting into a sorted list keeps it sorted. */
  lemma {:induction false} InsertSorted(x: Location, s: seq<Location>, key: Location -> int)
    requires SortedBy(s, key)
    ensures SortedBy(Insert(x, s, key), key)
  {
    if s != [] && key(x) > key(s[0]) {
      var rest := Insert(x, s[1..], key);
      InsertSorted(x, s[1..], key);
      InsertBounded(x, s[1..], key, key(s[0]));
      var r := [s[0]] + rest;
      forall i, j | 0 <= i < j < |r|
        ensures key(r[i]) <= key(r[j])
      {
        assert r[j] == rest[j - 1];
        if i > 0 {
          assert r[i] == rest[i - 1];
        }
      }
    }
  }

  /** The stable sort by `key`, as insertion sort. */
  function SortByKey(xs: seq<Location>, key: Location -> int): (r: seq<Location>)
    ensures multiset(r) == multiset(xs)
    ensures SortedBy(r, key)
  {
    if xs == [] then []
    else
      var r := Insert(xs[0], SortByKey(xs[1..], key), key);
      InsertSorted(xs[0], SortByKey(xs[1..], key), key);
      assert xs == [xs[0]] + xs[1..];
      r
  }

  lemma {:induction false} InsertSelect(x: Location, s: seq<Location>, key: Location -> int, k: int)
    ensures Select(Insert(x, s, key), key, k) == (if key(x) == k then [x] else []) + Select(s, key, k)
  {
    if s != [] && key(x) > key(s[0]) {
      InsertSelect(x, s[1..], key, k);
      assert ([s[0]] + Insert(x, s[1..], key))[1..] == Insert(x, s[1..], key);
    } else {
      assert ([x] + s)[1..] == s;
    }
  }

  /** Stability: among locations at the same distance, the sorted list
      keeps their input order. */
  lemma {:induction false} SortByKeyStable(xs: seq<Location>, key: Location -> int, k: int)
    ensures Select(SortByKey(xs, key), key, k) == Select(xs, key, k)
  {
    if xs != [] {
      SortByKeyStable(xs[1..], key, k);
      InsertSelect(xs[0], SortByKey(xs[1..], key), key, k);
    }
  }

  /** The comparator `distA - distB` as a sort key. */
  function DistanceKey(user: Point, distance: (Point, Point) -> nat): Location -> int {
    (l: Location) => distance(user, Point(l.lat, l.lng)) as int
  }

  /** `sortedLocations`. */
  function SortedLocations(locations: seq<Location>, search: string, user: Option<Point>,
                           distance: (Point, Point) -> nat): seq<Location>
  {
    var filtered := Filter(locations, search);
    if user.None? then filtered else SortByKey(filtered, DistanceKey(user.value, distance))
  }

  /** The list shows exactly the matching locations, each as often as in
      the input; without a position in input order, with one nearest first
      and ties in input order. */
  lemma SortedLocationsSpec(locations: seq<Location>, search: string, user: Option<Point>,
                            distance: (Point, Point) -> nat)
    ensures multiset(SortedLocations(locations, search, user, distance)) == multiset(Filter(locations, search))
    ensures forall x ::
      multiset(SortedLocations(locations, search, user, distance))[x] ==
      (if Matches(x, search) then multiset(locations)[x] else 0)
    ensures forall x :: x in SortedLocations(locations, search, user, distance) <==> x in locations && Matches(x, search)
    ensures user.None? ==> SortedLocations(locations, search, user, distance) == Filter(locations, search)
    ensures user.Some? ==>
      var key := DistanceKey(user.value, distance);
      && SortedBy(SortedLocations(locations, search, user, distance), key)
      && forall k :: Select(SortedLocations(locations, search, user, distance), key, k) == Select(Filter(locations, search), key, k)
  {
    FilterMembers(locations, search);
    FilterCount(locations, search);
    var r := SortedLocations(locations, search, user, distance);
    forall x
      ensures x in r <==> x in Filter(locations, search)
    {
      assert x in r <==> x in multiset(r);
    }
    if user.Some? {
      var key := DistanceKey(user.value, distance);
      forall k
        ensures Select(r, key, k) == Select(Filter(locations, search), key, k)
      {
        SortByKeyStable(Filter(locations, search), key, k);
      }
    }
  }
}

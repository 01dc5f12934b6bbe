/**
 * Location list helpers: grouping locations by city, in the order cities
 * first appear, and finding a dog's city by its zip code.
 */
module SearchUtils {
  import opened Api

  /**
   * Locations grouped by city. `cities` is the order in which the groups are
   * enumerated (first occurrence), `groups` maps each city to its locations.
   */
  datatype Grouped = Grouped(cities: seq<string>, groups: map<string, seq<Location>>)

  /** The locations of one city, in input order. */
  function CityGroup(locs: seq<Location>, city: string): (r: seq<Location>)
    ensures forall l :: l in r ==> l in locs && l.city == city
    ensures |r| <= |locs|
  {
    if locs == [] then []
    else CityGroup(locs[..|locs| - 1], city) + (if locs[|locs| - 1].city == city then [locs[|locs| - 1]] else [])
  }

  /** The distinct cities of the input, each at the position of its first occurrence. */
  function Cities(locs: seq<Location>): (r: seq<string>)
    ensures forall i, j :: 0 <= i < j < |r| ==> r[i] != r[j]
  {
    if locs == [] then []
    else
      var p := Cities(locs[..|locs| - 1]);
      var c := locs[|locs| - 1].city;
      if c in p then p else p + [c]
  }

  /** Every input location's city is listed. */
  lemma {:induction false} CityListed(locs: seq<Location>, i: int)
    requires 0 <= i < |locs|
    ensures locs[i].city in Cities(locs)
  {
    var p := locs[..|locs| - 1];
    if i < |locs| - 1 {
      assert p[i] == locs[i];
      CityListed(p, i);
    }
  }

  /** Every listed city is the city of some input location. */
  lemma {:induction false} CityOccurs(locs: seq<Location>, city: string)
    requires city in Cities(locs)
    ensures exists i :: 0 <= i < |locs| && locs[i].city == city
  {
    var p := locs[..|locs| - 1];
    if city != locs[|locs| - 1].city {
      CityOccurs(p, city);
      var i :| 0 <= i < |p| && p[i].city == city;
      assert locs[i] == p[i];
    }
  }

  /** The index of the first location of `city`, or the input's length when there is none. */
  function FirstIndex(locs: seq<Location>, city: string): (r: int)
    ensures 0 <= r <= |locs|
    ensures r < |locs| ==> locs[r].city == city
    ensures forall k :: 0 <= k < r ==> locs[k].city != city
  {
    if locs == [] then 0
    else
      var p := locs[..|locs| - 1];
      var f := FirstIndex(p, city);
      assert forall k :: 0 <= k < |p| ==> p[k] == locs[k];
      if f < |p| then f else if locs[|locs| - 1].city == city then |locs| - 1 else |locs|
  }

  /** The cities are listed in the order of their first occurrence in the input. */
  lemma {:induction false} CitiesInFirstOccurrenceOrder(locs: seq<Location>)
    ensures forall i :: 0 <= i < |Cities(locs)| ==> FirstIndex(locs, Cities(locs)[i]) < |locs|
    ensures forall i, j :: 0 <= i < j < |Cities(locs)| ==> FirstIndex(locs, Cities(locs)[i]) < FirstIndex(locs, Cities(locs)[j])
  {
    if locs != [] {
      var p := locs[..|locs| - 1];
      var c := locs[|locs| - 1].city;
      CitiesInFirstOccurrenceOrder(p);
      var cp := Cities(p);
      forall i | 0 <= i < |cp| ensures FirstIndex(locs, cp[i]) == FirstIndex(p, cp[i]) {
        assert FirstIndex(p, cp[i]) < |p|;
      }
      if c !in cp {
        assert FirstIndex(p, c) == |p| by {
          if FirstIndex(p, c) < |p| {
            CityListed(p, FirstIndex(p, c));
          }
        }
        assert Cities(locs) == cp + [c];
      }
    }
  }

  /** groupLocations, as a value: every city of the input keyed to its locations. */
  function Grouping(locs: seq<Location>): Grouped
  {
    Grouped(Cities(locs), map c | c in Cities(locs) :: CityGroup(locs, c))
  }

  /** `cities` and `groups` are the grouping of the locations seen so far. */
  ghost predicate GroupsSoFar(seen: seq<Location>, cities: seq<string>, groups: map<string, seq<Location>>)
  {
    cities == Cities(seen)
    && (forall c :: c in groups <==> c in cities)
    && (forall c :: c in groups ==> groups[c] == CityGroup(seen, c))
  }

  /** A location of a city met before is pushed onto that city's group. */
  lemma GroupStepKnownCity(seen: seq<Location>, loc: Location, cities: seq<string>, groups: map<string, seq<Location>>)
    requires GroupsSoFar(seen, cities, groups)
    requires loc.city in groups
    ensures GroupsSoFar(seen + [loc], cities, groups[loc.city := groups[loc.city] + [loc]])
  {
    CitiesPush(seen, loc);
    var groups' := groups[loc.city := groups[loc.city] + [loc]];
    forall c | c in groups' ensures groups'[c] == CityGroup(seen + [loc], c) {
      CityGroupPush(seen, loc, c);
    }
  }

  /** A location of a new city starts that city's group and adds the city to the list. */
  lemma GroupStepNewCity(seen: seq<Location>, loc: Location, cities: seq<string>, groups: map<string, seq<Location>>)
    requires GroupsSoFar(seen, cities, groups)
    requires loc.city !in groups
    ensures GroupsSoFar(seen + [loc], cities + [loc.city], groups[loc.city := [loc]])
  {
    CitiesPush(seen, loc);
    AbsentCityHasNoGroup(seen, loc.city);
    var groups' := groups[loc.city := [loc]];
    forall c | c in groups' ensures groups'[c] == CityGroup(seen + [loc], c) {
      CityGroupPush(seen, loc, c);
    }
  }

  /** The grouping loop: a group is created the first time its city is met, then each location is pushed onto it. */
  method GroupLocations(locations: seq<Location>) returns (g: Grouped)
    ensures g == Grouping(locations)
  {
    var cities: seq<string> := [];
    var groups: map<string, seq<Location>> := map[];
    var i := 0;
    while i < |locations|
      invariant 0 <= i <= |locations|
      invariant GroupsSoFar(locations[..i], cities, groups)
    {
      var loc := locations[i];
      if loc.city !in groups {
        GroupStepNewCity(locations[..i], loc, cities, groups);
        groups := groups[loc.city := []];
        cities := cities + [loc.city];
        assert [] + [loc] == [loc];
      } else {
        GroupStepKnownCity(locations[..i], loc, cities, groups);
      }
      groups := groups[loc.city := groups[loc.city] + [loc]];
      assert locations[..i + 1] == locations[..i] + [loc];
      i := i + 1;
    }
    assert locations[..i] == locations;
    SoFarIsGrouping(locations, cities, groups);
    g := Grouped(cities, groups);
  }

  /** Once every location has been seen, the loop's state is the grouping. */
  lemma SoFarIsGrouping(seen: seq<Location>, cities: seq<string>, groups: map<string, seq<Location>>)
    requires GroupsSoFar(seen, cities, groups)
    ensures Grouped(cities, groups) == Grouping(seen)
  {
    assert groups.Keys == Grouping(seen).groups.Keys;
  }

  /** One more location: its city joins the list when it is new. */
  lemma CitiesPush(p: seq<Location>, l: Location)
    ensures Cities(p + [l]) == if l.city in Cities(p) then Cities(p) else Cities(p) + [l.city]
  {
    assert (p + [l])[..|p + [l]| - 1] == p;
  }

  /** One more location: it joins the end of its own city's group only. */
  lemma CityGroupPush(p: seq<Location>, l: Location, city: string)
    ensures CityGroup(p + [l], city) == CityGroup(p, city) + (if l.city == city then [l] else [])
  {
    assert (p + [l])[..|p + [l]| - 1] == p;
  }

  /** A city that does not occur has an empty group. */
  lemma AbsentCityHasNoGroup(p: seq<Location>, city: string)
    requires city !in Cities(p)
    ensures CityGroup(p, city) == []
  {
    if CityGroup(p, city) != [] {
      var m := CityGroup(p, city)[0];
      CityGroupMembers(p, city, m);
      var i :| 0 <= i < |p| && p[i] == m;
      CityListed(p, i);
    }
  }

  /** A location is in the group of a city exactly when it occurs in the input with that city. */
  lemma {:induction false} CityGroupMembers(locs: seq<Location>, city: string, l: Location)
    ensures l in CityGroup(locs, city) <==> l in locs && l.city == city
  {
    if locs != [] {
      var p := locs[..|locs| - 1];
      CityGroupMembers(p, city, l);
      assert locs == p + [locs[|locs| - 1]];
    }
  }

  /** Grouping distributes over concatenation: each group keeps input order, as pushing does. */
  lemma {:induction false} CityGroupConcat(a: seq<Location>, b: seq<Location>, city: string)
    ensures CityGroup(a + b, city) == CityGroup(a, city) + CityGroup(b, city)
    decreases |b|
  {
    if b == [] {
      assert a + b == a;
    } else {
      var b' := b[..|b| - 1];
      assert (a + b)[..|a + b| - 1] == a + b';
      assert (a + b)[|a + b| - 1] == b[|b| - 1];
      CityGroupConcat(a, b', city);
    }
  }

  /** Every location lands in the group keyed by its own city. */
  lemma LocationInOwnGroup(locs: seq<Location>, i: int)
    requires 0 <= i < |locs|
    ensures locs[i].city in Grouping(locs).groups
    ensures locs[i] in Grouping(locs).groups[locs[i].city]
  {
    CityListed(locs, i);
    CityGroupMembers(locs, locs[i].city, locs[i]);
  }

  /** Every group is non-empty and all its members carry the key's city. */
  lemma GroupsAreNonEmptyAndUniform(locs: seq<Location>, city: string)
    requires city in Grouping(locs).groups
    ensures |Grouping(locs).groups[city]| > 0
    ensures forall l :: l in Grouping(locs).groups[city] ==> l.city == city
  {
    CityOccurs(locs, city);
    var i :| 0 <= i < |locs| && locs[i].city == city;
    CityGroupMembers(locs, city, locs[i]);
  }

  /** The keys are exactly the input's cities, and the enumeration order lists each key once. */
  lemma KeysAreInputCities(locs: seq<Location>)
    ensures Grouping(locs).groups.Keys == set l | l in locs :: l.city
    ensures forall c :: c in Grouping(locs).cities <==> c in Grouping(locs).groups
    ensures forall i, j :: 0 <= i < j < |Grouping(locs).cities| ==> Grouping(locs).cities[i] != Grouping(locs).cities[j]
  {
    var keys := Grouping(locs).groups.Keys;
    forall c | c in keys ensures c in set l | l in locs :: l.city {
      CityOccurs(locs, c);
      var i :| 0 <= i < |locs| && locs[i].city == c;
      assert locs[i] in locs;
    }
    forall c | c in set l | l in locs :: l.city ensures c in keys {
      var l :| l in locs && l.city == c;
      var i :| 0 <= i < |locs| && locs[i] == l;
      CityListed(locs, i);
    }
  }

  /** Sum of the sizes of the groups, in enumeration order. */
  function SumSizes(cities: seq<string>, groups: map<string, seq<Location>>): nat
    requires forall c :: c in cities ==> c in groups
  {
    if cities == [] then 0 else |groups[cities[0]]| + SumSizes(cities[1..], groups)
  }

  /** The sizes of the groups of the given cities, taken straight from the input. */
  function SumGroupSizes(cities: seq<string>, locs: seq<Location>): nat
  {
    if cities == [] then 0 else |CityGroup(locs, cities[0])| + SumGroupSizes(cities[1..], locs)
  }

  lemma {:induction false} SumGroupSizesAppendCity(cities: seq<string>, c: string, locs: seq<Location>)
    ensures SumGroupSizes(cities + [c], locs) == SumGroupSizes(cities, locs) + |CityGroup(locs, c)|
  {
    if cities != [] {
      assert (cities + [c])[1..] == cities[1..] + [c];
      SumGroupSizesAppendCity(cities[1..], c, locs);
    } else {
      assert cities + [c] == [c];
    }
  }

  /** One more location adds one to the sum exactly when its city is among the listed, distinct, cities. */
  lemma {:induction false} SumGroupSizesPush(cities: seq<string>, locs: seq<Location>, l: Location)
    requires forall i, j :: 0 <= i < j < |cities| ==> cities[i] != cities[j]
    ensures SumGroupSizes(cities, locs + [l]) == SumGroupSizes(cities, locs) + (if l.city in cities then 1 else 0)
  {
    if cities != [] {
      assert (locs + [l])[..|locs + [l]| - 1] == locs;
      SumGroupSizesPush(cities[1..], locs, l);
      assert l.city in cities[1..] ==> l.city != cities[0];
      assert l.city in cities <==> l.city == cities[0] || l.city in cities[1..];
    }
  }

  /** The group sizes add up to the number of input locations. */
  lemma {:induction false} GroupSizesSumToInputLength(locs: seq<Location>)
    ensures SumGroupSizes(Cities(locs), locs) == |locs|
  {
    if locs != [] {
      var p := locs[..|locs| - 1];
      var l := locs[|locs| - 1];
      assert locs == p + [l];
      GroupSizesSumToInputLength(p);
      SumGroupSizesPush(Cities(p), p, l);
      CitiesPush(p, l);
      if l.city !in Cities(p) {
        SumGroupSizesAppendCity(Cities(p), l.city, locs);
        AbsentCityHasNoGroup(p, l.city);
        CityGroupPush(p, l, l.city);
      }
    }
  }

  lemma {:induction false} SumSizesOfGrouping(cities: seq<string>, locs: seq<Location>)
    requires forall c :: c in cities ==> c in Grouping(locs).groups
    ensures SumSizes(cities, Grouping(locs).groups) == SumGroupSizes(cities, locs)
  {
    if cities != [] {
      SumSizesOfGrouping(cities[1..], locs);
    }
  }

  /** Taken over the grouping itself: the sizes of its groups sum to the input length. */
  lemma GroupingSizesSum(locs: seq<Location>)
    ensures SumSizes(Grouping(locs).cities, Grouping(locs).groups) == |locs|
  {
    SumSizesOfGrouping(Cities(locs), locs);
    GroupSizesSumToInputLength(locs);
  }

  // ---------------------------------------------------------------------------
  // getDogCity

  /** The city of the first location whose zip code is the dog's, or none when no location has it. */
  function DogCity(dog: Dog, locations: seq<Location>): (r: Option<string>)
    ensures r.None? <==> forall i :: 0 <= i < |locations| ==> locations[i].zipCode != dog.zipCode
    ensures r.Some? ==> exists i :: 0 <= i < |locations| && locations[i].zipCode == dog.zipCode
                                    && r.value == locations[i].city
                                    && forall j :: 0 <= j < i ==> locations[j].zipCode != dog.zipCode
  {
    if locations == [] then None
    else if locations[0].zipCode == dog.zipCode then Some(locations[0].city)
    else
      var r := DogCity(dog, locations[1..]);
      assert forall i :: 0 < i < |locations| ==> locations[i] == locations[1..][i - 1];
      if r.Some? then
        var i :| 0 <= i < |locations[1..]| && locations[1..][i].zipCode == dog.zipCode
                 && r.value == locations[1..][i].city
                 && forall j :: 0 <= j < i ==> locations[1..][j].zipCode != dog.zipCode;
        assert locations[i + 1] == locations[1..][i];
        assert forall j :: 0 <= j < i + 1 ==> locations[j].zipCode != dog.zipCode;
        r
      else r
  }
}

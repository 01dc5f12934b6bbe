/**
 * The city/state filter tab: the location search request built from the city
 * and state inputs, the submit guard, the search results grouped by city,
 * and adding or removing a whole city's locations to or from the selection.
 */
module LocationFilter {
  import opened Api
  import opened SearchUtils

  /** The page size of every location search. */
  const LocationSearchSize: int := 1000

  // ---------------------------------------------------------------------------
  // String split and join with a one-character separator

  /** The pieces between separators; one piece when there is none, and always at least one. */
  function Split(s: string, sep: char): (r: seq<string>)
    ensures |r| >= 1
    ensures forall k :: 0 <= k < |r| ==> sep !in r[k]
  {
    if s == [] then [""]
    else
      var t := Split(s[1..], sep);
      if s[0] == sep then [""] + t
      else
        assert forall k :: 1 <= k < |t| ==> ([[s[0]] + t[0]] + t[1..])[k] == t[k];
        [[s[0]] + t[0]] + t[1..]
  }

  /** The pieces with the separator between each two. */
  function Join(parts: seq<string>, sep: char): string
  {
    if |parts| == 0 then ""
    else if |parts| == 1 then parts[0]
    else parts[0] + [sep] + Join(parts[1..], sep)
  }

  /** One step of split-then-join: the first character, replaced if it is the separator, then the rest. */
  lemma SplitJoinStep(s: string, a: char, b: char)
    requires s != []
    ensures Join(Split(s, a), b) == [if s[0] == a then b else s[0]] + Join(Split(s[1..], a), b)
  {
    var t := Split(s[1..], a);
    if s[0] == a {
      assert Split(s, a) == [""] + t;
    } else {
      var parts := [[s[0]] + t[0]] + t[1..];
      assert Split(s, a) == parts;
      if |t| > 1 {
        assert parts[1..] == t[1..];
      }
    }
  }

  /** Splitting on `a` and joining with `b` replaces every `a` by `b` and keeps every other character. */
  lemma {:induction false} SplitJoinReplaces(s: string, a: char, b: char)
    ensures var r := Join(Split(s, a), b);
            |r| == |s| && forall k :: 0 <= k < |s| ==> r[k] == (if s[k] == a then b else s[k])
  {
    if s != [] {
      SplitJoinReplaces(s[1..], a, b);
      SplitJoinStep(s, a, b);
      var rest := Join(Split(s[1..], a), b);
      var r := Join(Split(s, a), b);
      forall k | 0 <= k < |s| ensures r[k] == (if s[k] == a then b else s[k]) {
        if k > 0 {
          assert r[k] == rest[k - 1];
          assert s[k] == s[1..][k - 1];
        }
      }
    }
  }

  /** Joining the pieces back with the same separator gives the string back. */
  lemma JoinSplitRoundTrip(s: string, sep: char)
    ensures Join(Split(s, sep), sep) == s
  {
    SplitJoinReplaces(s, sep, sep);
  }

  // ---------------------------------------------------------------------------
  // The search request

  datatype LocationSearchParams = LocationSearchParams(city: Option<string>, states: Option<seq<string>>, size: int)

  /** The city parameter: absent for an empty city, otherwise the city with every space written as '+'. */
  function CityParam(city: string): (r: Option<string>)
    ensures r.None? <==> city == ""
    ensures r.Some? ==> |r.value| == |city|
    ensures r.Some? ==> forall k :: 0 <= k < |city| ==> r.value[k] == (if city[k] == ' ' then '+' else city[k])
  {
    SplitJoinReplaces(city, ' ', '+');
    if city != "" then Some(Join(Split(city, ' '), '+')) else None
  }

  /** The request for the current inputs: the encoded city, the state as a one-element list, 1000 results. */
  function LocationSearchFor(city: string, state: string): (r: LocationSearchParams)
    ensures r.city == CityParam(city)
    ensures r.states.None? <==> state == ""
    ensures r.states.Some? ==> r.states.value == [state]
    ensures r.size == LocationSearchSize
  {
    LocationSearchParams(CityParam(city), if state != "" then Some([state]) else None, LocationSearchSize)
  }

  // ---------------------------------------------------------------------------
  // Adding and removing a city's locations

  /** handleLocationsAdd: the selection followed by the group, with no duplicate check. */
  function LocationsAdded(selected: seq<Location>, group: seq<Location>): (r: seq<Location>)
    ensures |r| == |selected| + |group|
    ensures r[..|selected|] == selected && r[|selected|..] == group
  {
    selected + group
  }

  /** handleLocationsRemove: the selected locations not contained in the group, in their order. */
  function LocationsRemoved(selected: seq<Location>, group: seq<Location>): (r: seq<Location>)
    ensures forall l :: l in r <==> l in selected && l !in group
    ensures |r| <= |selected|
  {
    if selected == [] then []
    else
      var rest := LocationsRemoved(selected[1..], group);
      assert forall l :: l in selected <==> l == selected[0] || l in selected[1..];
      if selected[0] in group then rest else [selected[0]] + rest
  }

  /** Removal keeps every location outside the group exactly as often as it was selected. */
  lemma {:induction false} LocationsRemovedCounts(selected: seq<Location>, group: seq<Location>)
    ensures forall l :: multiset(LocationsRemoved(selected, group))[l] == if l in group then 0 else multiset(selected)[l]
  {
    if selected != [] {
      LocationsRemovedCounts(selected[1..], group);
      assert selected == [selected[0]] + selected[1..];
    }
  }

  /** Removal works piece by piece, so the survivors keep their relative order. */
  lemma {:induction false} LocationsRemovedConcat(a: seq<Location>, b: seq<Location>, group: seq<Location>)
    ensures LocationsRemoved(a + b, group) == LocationsRemoved(a, group) + LocationsRemoved(b, group)
  {
    if a == [] {
      assert a + b == b;
    } else {
      assert (a + b)[0] == a[0];
      assert (a + b)[1..] == a[1..] + b;
      LocationsRemovedConcat(a[1..], b, group);
    }
  }

  /** Adding a group and then removing it restores a selection that held none of the group's locations. */
  lemma AddThenRemoveRestores(selected: seq<Location>, group: seq<Location>)
    requires forall l :: l in selected ==> l !in group
    ensures LocationsRemoved(LocationsAdded(selected, group), group) == selected
  {
    LocationsRemovedConcat(selected, group, group);
    NothingToRemove(selected, group);
    AllRemoved(group);
  }

  lemma {:induction false} NothingToRemove(selected: seq<Location>, group: seq<Location>)
    requires forall l :: l in selected ==> l !in group
    ensures LocationsRemoved(selected, group) == selected
  {
    if selected != [] {
      assert selected[0] in selected;
      NothingToRemove(selected[1..], group);
      assert selected == [selected[0]] + selected[1..];
    }
  }

  lemma AllRemoved(group: seq<Location>)
    ensures LocationsRemoved(group, group) == []
  {
    if LocationsRemoved(group, group) != [] {
      assert LocationsRemoved(group, group)[0] in LocationsRemoved(group, group);
    }
  }

  // ---------------------------------------------------------------------------
  // The tab's state

  class LocationFilterTab {
    var city: string
    var state: string
    var groupedLocations: Grouped

    /** Empty inputs and no results. */
    constructor ()
      ensures city == "" && state == "" && groupedLocations == Grouping([])
    {
      city, state := "", "";
      groupedLocations := Grouped([], map[]);
    }

    method SetCity(value: string)
      modifies this
      ensures city == value && state == old(state) && groupedLocations == old(groupedLocations)
    {
      city := value;
    }

    method SetState(value: string)
      modifies this
      ensures state == value && city == old(city) && groupedLocations == old(groupedLocations)
    {
      state := value;
    }

    /** Submit: a search for the current inputs exactly when the city or the state is non-empty. */
    method HandleSubmit() returns (request: Option<LocationSearchParams>)
      ensures request.Some? <==> city != "" || state != ""
      ensures request.Some? ==> request.value == LocationSearchFor(city, state)
    {
      if city != "" || state != "" {
        request := Some(LocationSearchFor(city, state));
      } else {
        request := None;
      }
    }

    /** A successful search replaces the available locations with the results grouped by city. */
    method OnSearchSuccess(results: seq<Location>)
      modifies this
      ensures groupedLocations == Grouping(results)
      ensures city == old(city) && state == old(state)
    {
      groupedLocations := GroupLocations(results);
    }
  }
}

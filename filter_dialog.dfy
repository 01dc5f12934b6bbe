/**
 * The filter dialog: it owns the selected locations, shows one chip per
 * selected city and one for the breed, and forwards every change of the
 * selection, and the breed chip's deletion, to the callbacks its owner passes in.
 */
module FilterDialog {
  import opened Api
  import opened SearchUtils
  import opened LocationFilter

  /** The locations of the selection whose city is not `city`, in their order. */
  function WithoutCity(locs: seq<Location>, city: string): (r: seq<Location>)
    ensures forall l :: l in r <==> l in locs && l.city != city
    ensures |r| <= |locs|
  {
    if locs == [] then []
    else
      var rest := WithoutCity(locs[1..], city);
      assert forall l :: l in locs <==> l == locs[0] || l in locs[1..];
      if locs[0].city == city then rest else [locs[0]] + rest
  }

  /**
   * The remove button of a selected city passes that city's group of the
   * selection itself; removing it drops exactly the selected locations of
   * that city, so matching by value and by identity agree here.
   */
  lemma {:induction false} RemovingOwnGroupDropsCity(selected: seq<Location>, city: string)
    requires city in Grouping(selected).groups
    ensures LocationsRemoved(selected, Grouping(selected).groups[city]) == WithoutCity(selected, city)
  {
    var group := Grouping(selected).groups[city];
    forall l | l in selected ensures l in group <==> l.city == city {
      CityGroupMembers(selected, city, l);
    }
    SameFilter(selected, group, city);
  }

  lemma {:induction false} SameFilter(locs: seq<Location>, group: seq<Location>, city: string)
    requires forall l :: l in locs ==> (l in group <==> l.city == city)
    ensures LocationsRemoved(locs, group) == WithoutCity(locs, city)
  {
    if locs != [] {
      assert locs[0] in locs;
      assert forall l :: l in locs[1..] ==> l in locs;
      SameFilter(locs[1..], group, city);
    }
  }

  /** After a city's chip is removed, the chips are those of the other cities. */
  lemma RemovingCityDropsItsChip(selected: seq<Location>, city: string)
    ensures Grouping(WithoutCity(selected, city)).groups.Keys == Grouping(selected).groups.Keys - {city}
  {
    KeysAreInputCities(selected);
    KeysAreInputCities(WithoutCity(selected, city));
  }

  class FilterDialog {
    var selectedLocations: seq<Location>

    /** No location is selected at first. */
    constructor ()
      ensures selectedLocations == []
    {
      selectedLocations := [];
    }

    /** A tab's new selection is kept and forwarded unchanged. */
    method HandleLocationsChange(locations: seq<Location>) returns (forwarded: seq<Location>)
      modifies this
      ensures selectedLocations == locations && forwarded == locations
    {
      selectedLocations := locations;
      forwarded := locations;
    }

    /** Deleting a city's chip drops every selected location of that city and forwards the rest. */
    method HandleLocationRemove(city: string) returns (forwarded: seq<Location>)
      modifies this
      ensures selectedLocations == WithoutCity(old(selectedLocations), city)
      ensures forwarded == selectedLocations
    {
      var newLocations := WithoutCity(selectedLocations, city);
      selectedLocations := newLocations;
      forwarded := newLocations;
    }

    /**
     * Deleting the breed chip hands the empty breed to the owner's breed
     * callback; the dialog's own selection is not touched.
     */
    method DeleteBreedChip() returns (forwardedBreed: string)
      ensures forwardedBreed == ""
    {
      forwardedBreed := "";
    }
  }
}

/**
 * The zip code filter tab: submitting looks up the typed zip code and clears
 * the input; a lookup that finds a named city appends its locations to the
 * selection, one that does not raises the "not found" alert.
 */
module ZipCodeFilter {
  import opened Api
  import opened SearchUtils

  /** The lookup found nothing usable: no location, or a first location without a city. */
  predicate LookupNotFound(locations: seq<Location>)
  {
    |locations| == 0 || locations[0].city == ""
  }

  /** The selection a successful lookup forwards: the previous one followed by every returned location. */
  function SelectionAfterLookup(selected: seq<Location>, locations: seq<Location>): (r: Option<seq<Location>>)
    ensures r.None? <==> LookupNotFound(locations)
    ensures r.Some? ==> |r.value| == |selected| + |locations|
    ensures r.Some? ==> r.value[..|selected|] == selected && r.value[|selected|..] == locations
  {
    if LookupNotFound(locations) then None else Some(selected + locations)
  }

  /** After a successful lookup the found city has a chip of its own, holding the first returned location. */
  lemma FoundCityIsGrouped(selected: seq<Location>, locations: seq<Location>)
    requires !LookupNotFound(locations)
    ensures var s := SelectionAfterLookup(selected, locations).value;
            locations[0].city in Grouping(s).groups && locations[0] in Grouping(s).groups[locations[0].city]
  {
    var s := selected + locations;
    assert s[|selected|] == locations[0];
    LocationInOwnGroup(s, |selected|);
  }

  class ZipCodeFilterTab {
    var zipCode: string
    var notFound: bool

    constructor ()
      ensures zipCode == "" && !notFound
    {
      zipCode, notFound := "", false;
    }

    /** Submit: look up exactly the typed zip code, then clear the input; the alert is left as it was. */
    method HandleSubmit() returns (lookup: seq<string>)
      modifies this
      ensures lookup == [old(zipCode)]
      ensures zipCode == "" && notFound == old(notFound)
    {
      lookup := [zipCode];
      zipCode := "";
    }

    /** Typing sets the input and hides the alert. */
    method HandleTyping(value: string)
      modifies this
      ensures zipCode == value && !notFound
    {
      zipCode := value;
      notFound := false;
    }

    /**
     * The lookup's answer: when not found, raise the alert and forward nothing;
     * otherwise forward the selection with every returned location appended and
     * hide the alert. The input is not touched.
     */
    method OnLookupSuccess(selected: seq<Location>, locations: seq<Location>) returns (forwarded: Option<seq<Location>>)
      modifies this
      ensures notFound == LookupNotFound(locations)
      ensures forwarded == SelectionAfterLookup(selected, locations)
      ensures zipCode == old(zipCode)
    {
      if |locations| == 0 || locations[0].city == "" {
        notFound := true;
        forwarded := None;
        return;
      }
      forwarded := Some(selected + locations);
      notFound := false;
    }
  }
}

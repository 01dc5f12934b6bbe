/**
 * The search page: the criteria the user picks (breed, page, sort field and
 * direction), the search request derived from them, the two-step query
 * (search for ids, then fetch the records) and the page count. The two
 * remote calls are function parameters standing for what the service answers.
 */
module Search {
  import opened Api

  const DogsPerPage: int := 32

  datatype Criteria = Criteria(breed: string, page: int, sortField: SortField, sortDirection: SortDirection)

  /** No breed filter, first page, sorted by breed ascending. */
  const InitialCriteria: Criteria := Criteria("", 1, Breed, Asc)

  // ---------------------------------------------------------------------------
  // Decimal rendering of the offset

  predicate IsDigit(c: char)
  {
    '0' <= c <= '9'
  }

  function DigitChar(d: nat): (c: char)
    requires d < 10
    ensures IsDigit(c) && (c as int) - ('0' as int) == d
  {
    (('0' as int) + d) as char
  }

  /** The decimal numeral of a non-negative integer: digits only, no leading zero. */
  function DecimalString(n: nat): (r: string)
    ensures r != [] && forall k :: 0 <= k < |r| ==> IsDigit(r[k])
    ensures |r| > 1 ==> r[0] != '0'
    decreases n
  {
    if n < 10 then [DigitChar(n)] else DecimalString(n / 10) + [DigitChar(n % 10)]
  }

  /** The value of a string of digits, read most significant first. */
  function DecimalValue(s: string): nat
    requires forall k :: 0 <= k < |s| ==> IsDigit(s[k])
  {
    if s == [] then 0
    else
      assert IsDigit(s[|s| - 1]);
      10 * DecimalValue(s[..|s| - 1]) + ((s[|s| - 1] as int) - ('0' as int))
  }

  /** Reading the numeral back gives the number. */
  lemma {:induction false} DecimalRoundTrip(n: nat)
    ensures DecimalValue(DecimalString(n)) == n
    decreases n
  {
    if n >= 10 {
      var r := DecimalString(n);
      assert r[..|r| - 1] == DecimalString(n / 10);
      DecimalRoundTrip(n / 10);
    }
  }

  // ---------------------------------------------------------------------------
  // The sort parameter "field:direction"

  /** The sort parameter `field:direction`; the service reads the field and the direction back from it. */
  function SortParam(f: SortField, d: SortDirection): (r: string)
    ensures ParseSort(r) == Some((f, d))
  {
    NamesReadBack(f, d);
    SortFieldName(f) + ":" + SortDirectionName(d)
  }

  /** Position of the first ':' in the string. */
  function ColonIndex(s: string): (r: Option<nat>)
    ensures r.Some? ==> r.value < |s| && s[r.value] == ':' && forall k :: 0 <= k < r.value ==> s[k] != ':'
    ensures r.None? ==> forall k :: 0 <= k < |s| ==> s[k] != ':'
  {
    if s == [] then None
    else if s[0] == ':' then Some(0)
    else match ColonIndex(s[1..])
      case None => None
      case Some(i) => Some(i + 1)
  }

  function FieldOfName(s: string): Option<SortField>
  {
    if s == "breed" then Some(Breed) else if s == "name" then Some(Name) else if s == "age" then Some(Age) else None
  }

  function DirectionOfName(s: string): Option<SortDirection>
  {
    if s == "asc" then Some(Asc) else if s == "desc" then Some(Desc) else None
  }

  /** How the service reads the sort parameter: a field name, ':', a direction name. */
  function ParseSort(s: string): Option<(SortField, SortDirection)>
  {
    match ColonIndex(s)
    case None => None
    case Some(i) =>
      match (FieldOfName(s[..i]), DirectionOfName(s[i + 1..]))
      case (Some(f), Some(d)) => Some((f, d))
      case _ => None
  }

  /** A field name, ':' and a direction name parse back to that field and direction. */
  lemma NamesReadBack(f: SortField, d: SortDirection)
    ensures ParseSort(SortFieldName(f) + ":" + SortDirectionName(d)) == Some((f, d))
  {
    var a, b := SortFieldName(f), SortDirectionName(d);
    var s := a + ":" + b;
    assert s[|a|] == ':';
    assert s[..|a|] == a && s[|a| + 1..] == b;
    assert ColonIndex(s) == Some(|a|) by {
      assert forall k :: 0 <= k < |a| ==> s[k] == a[k];
    }
  }

  /** Different criteria give different sort parameters. */
  lemma SortParamInjective(f: SortField, d: SortDirection, f': SortField, d': SortDirection)
    ensures SortParam(f, d) == SortParam(f', d') <==> f == f' && d == d'
  {
    if SortParam(f, d) == SortParam(f', d') {
      assert Some((f, d)) == ParseSort(SortParam(f', d'));
    }
  }

  /** The `from` parameter: absent on page 1 and below, otherwise the decimal numeral of (page - 1) * 32. */
  function OffsetParam(page: int): (r: Option<string>)
    ensures r.None? <==> page <= 1
    ensures r.Some? ==> (forall k :: 0 <= k < |r.value| ==> IsDigit(r.value[k]))
                        && DecimalValue(r.value) == (page - 1) * DogsPerPage
    ensures r.Some? ==> r.value == DecimalString((page - 1) * DogsPerPage)
  {
    if page > 1 then
      DecimalRoundTrip((page - 1) * DogsPerPage);
      Some(DecimalString((page - 1) * DogsPerPage))
    else None
  }

  // ---------------------------------------------------------------------------
  // The search request

  datatype DogSearchParams = DogSearchParams(breeds: Option<seq<string>>, size: int, from: Option<string>, sort: string)

  /**
   * The request for the current criteria: no breed filter for the empty breed,
   * 32 per page, an offset only past the first page, and the sort as "field:direction".
   */
  function SearchParams(c: Criteria): (r: DogSearchParams)
    ensures r.size == DogsPerPage
    ensures r.breeds.None? <==> c.breed == ""
    ensures r.breeds.Some? ==> r.breeds.value == [c.breed]
    ensures r.from == OffsetParam(c.page)
    ensures ParseSort(r.sort) == Some((c.sortField, c.sortDirection))
  {
    DogSearchParams(
      if c.breed != "" then Some([c.breed]) else None,
      DogsPerPage,
      OffsetParam(c.page),
      SortParam(c.sortField, c.sortDirection))
  }

  // ---------------------------------------------------------------------------
  // The query

  datatype SearchResponse = SearchResponse(resultIds: seq<string>, total: int)

  datatype SearchResults = SearchResults(dogs: seq<Dog>, total: int)

  /** One run of the query: which ids the record fetch was asked for, if it was called, and what the query yields. */
  datatype QueryRun = QueryRun(recordRequest: Option<seq<string>>, outcome: Result<SearchResults>)

  /**
   * The query function: search with the derived parameters; an empty id list
   * ends the query with no dogs and a zero total, without the record fetch;
   * otherwise fetch the records for exactly the returned ids. A rejected call
   * rejects the whole query with its error.
   */
  function RunDogsQuery(c: Criteria, search: DogSearchParams -> Result<SearchResponse>,
                        getDogs: seq<string> -> Result<seq<Dog>>): (r: QueryRun)
    ensures search(SearchParams(c)).Err? ==>
      r.recordRequest.None? && r.outcome == Err(search(SearchParams(c)).message)
    ensures search(SearchParams(c)).Ok? && search(SearchParams(c)).value.resultIds == [] ==>
      r == QueryRun(None, Ok(SearchResults([], 0)))
    ensures search(SearchParams(c)).Ok? && search(SearchParams(c)).value.resultIds != [] ==>
      var ids := search(SearchParams(c)).value.resultIds;
      r.recordRequest == Some(ids)
      && r.outcome == match getDogs(ids)
                      case Ok(dogs) => Ok(SearchResults(dogs, search(SearchParams(c)).value.total))
                      case Err(m) => Err(m)
  {
    match search(SearchParams(c))
    case Err(m) => QueryRun(None, Err(m))
    case Ok(response) =>
      if |response.resultIds| == 0 then QueryRun(None, Ok(SearchResults([], 0)))
      else
        var fetched := getDogs(response.resultIds);
        QueryRun(Some(response.resultIds),
                 match fetched
                 case Ok(dogs) => Ok(SearchResults(dogs, response.total))
                 case Err(m) => Err(m))
  }

  /**
   * An empty id list short-circuits whatever the record fetch would answer and
   * whatever total the search reported.
   */
  lemma EmptyResultShortCircuits(c: Criteria, search: DogSearchParams -> Result<SearchResponse>,
                                 getDogs1: seq<string> -> Result<seq<Dog>>, getDogs2: seq<string> -> Result<seq<Dog>>)
    requires search(SearchParams(c)).Ok? && search(SearchParams(c)).value.resultIds == []
    ensures RunDogsQuery(c, search, getDogs1) == RunDogsQuery(c, search, getDogs2)
    ensures RunDogsQuery(c, search, getDogs1).outcome == Ok(SearchResults([], 0))
  {
  }

  // ---------------------------------------------------------------------------
  // Page count and pagination

  /** Math.ceil(total / 32), and 0 while there are no results. */
  function TotalPages(results: Option<SearchResults>): (r: int)
    ensures results.None? ==> r == 0
    ensures results.Some? ==> (r - 1) * DogsPerPage < results.value.total <= r * DogsPerPage
  {
    match results
    case None => 0
    case Some(res) => -((-res.total) / DogsPerPage)
  }

  /** No results at all, or a zero total, means zero pages; a total up to 32 is one page. */
  lemma TotalPagesSmallTotals(dogs: seq<Dog>, total: int)
    ensures TotalPages(Some(SearchResults(dogs, total))) == 0 <==> total <= 0 && total > -DogsPerPage
    ensures 0 < total <= DogsPerPage ==> TotalPages(Some(SearchResults(dogs, total))) == 1
  {
  }

  /** What the dogs query shows: still loading, failed, or loaded results. */
  datatype QueryState = Loading | Failed(message: string) | Loaded(results: SearchResults)

  /** The breed list query: while it loads or after it fails, the page shows only a message. */
  datatype BreedsState = BreedsLoading | BreedsFailed(message: string) | BreedsLoaded(breeds: seq<string>)

  /**
   * The pager appears under a non-empty grid when there is more than one
   * page, and only once the page has got past the breed list's loading and
   * error screens.
   */
  predicate PaginationShown(breeds: BreedsState, state: QueryState)
  {
    match (breeds, state)
    case (BreedsLoaded(_), Loaded(res)) => |res.dogs| != 0 && TotalPages(Some(res)) > 1
    case _ => false
  }

  /**
   * The pager is shown exactly when the breed list has loaded, the dog results
   * are loaded, the grid is not empty, and more than 32 dogs match.
   */
  lemma PaginationShownIff(breeds: BreedsState, state: QueryState)
    ensures PaginationShown(breeds, state) <==>
              breeds.BreedsLoaded? && state.Loaded? && |state.results.dogs| != 0 && state.results.total > DogsPerPage
  {
    if state.Loaded? {
      var t := state.results.total;
      var r := TotalPages(Some(state.results));
      assert (r - 1) * DogsPerPage < t <= r * DogsPerPage;
    }
  }

  // ---------------------------------------------------------------------------
  // The page component's criteria state

  class SearchPage {
    var selectedBreed: string
    var page: int
    var sortField: SortField
    var sortDirection: SortDirection

    function CurrentCriteria(): Criteria
      reads this
    {
      Criteria(selectedBreed, page, sortField, sortDirection)
    }

    constructor ()
      ensures CurrentCriteria() == InitialCriteria
    {
      selectedBreed, page, sortField, sortDirection := "", 1, Breed, Asc;
    }

    /** A new breed filter takes effect from the first page; the sort is untouched. */
    method OnBreedChange(breed: string)
      modifies this
      ensures CurrentCriteria() == old(CurrentCriteria()).(breed := breed, page := 1)
    {
      selectedBreed := breed;
      page := 1;
    }

    /** A new sort field takes effect from the first page; breed and direction are untouched. */
    method OnSortFieldChange(field: SortField)
      modifies this
      ensures CurrentCriteria() == old(CurrentCriteria()).(sortField := field, page := 1)
    {
      sortField := field;
      page := 1;
    }

    /** A new sort direction takes effect from the first page; breed and field are untouched. */
    method OnSortDirectionChange(direction: SortDirection)
      modifies this
      ensures CurrentCriteria() == old(CurrentCriteria()).(sortDirection := direction, page := 1)
    {
      sortDirection := direction;
      page := 1;
    }

    /** The pager's choice (a page from 1 on) moves the page and nothing else. */
    method OnPageChange(newPage: int)
      requires newPage >= 1
      modifies this
      ensures CurrentCriteria() == old(CurrentCriteria()).(page := newPage)
    {
      page := newPage;
    }
  }
}

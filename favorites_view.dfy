/**
 * The favorites view's ordering: a sorted copy of the favorites, by name,
 * breed or age, with a +1/-1 direction modifier. The locale-aware string
 * comparison is the `strCmp` parameter; the sort is a stable insertion sort,
 * as the platform's sort is stable.
 */
module FavoritesSort {
  import opened Api

  /** The view opens sorted by name, ascending. */
  const DefaultSortField: SortField := Name
  const DefaultSortDirection: SortDirection := Asc

  function Modifier(dir: SortDirection): (m: int)
    ensures m == 1 || m == -1
  {
    if dir == Asc then 1 else -1
  }

  /**
   * The comparator: string comparison of the field for name and breed, age
   * difference for age, times the modifier. `a` goes first (a negative result)
   * exactly when its key is smaller ascending, larger descending.
   */
  function DogCompare(field: SortField, dir: SortDirection, strCmp: (string, string) -> int, a: Dog, b: Dog): (r: int)
    ensures field == Age ==> (r < 0 <==> if dir == Asc then a.age < b.age else a.age > b.age)
    ensures field == Name ==> (r < 0 <==> if dir == Asc then strCmp(a.name, b.name) < 0 else strCmp(a.name, b.name) > 0)
    ensures field == Breed ==> (r < 0 <==> if dir == Asc then strCmp(a.breed, b.breed) < 0 else strCmp(a.breed, b.breed) > 0)
    ensures r == 0 <==> match field
                        case Name => strCmp(a.name, b.name) == 0
                        case Breed => strCmp(a.breed, b.breed) == 0
                        case Age => a.age == b.age
  {
    match field
    case Name => strCmp(a.name, b.name) * Modifier(dir)
    case Breed => strCmp(a.breed, b.breed) * Modifier(dir)
    case Age => (a.age - b.age) * Modifier(dir)
  }

  /** A comparison whose sign flips when its arguments are swapped, as a locale comparison's does. */
  ghost predicate FlipsSign<T(!new)>(cmp: (T, T) -> int)
  {
    forall a: T, b: T :: cmp(a, b) > 0 <==> cmp(b, a) < 0
  }

  /** Each element compares at most 0 with the next one. */
  ghost predicate OrderedBy(s: seq<Dog>, cmp: (Dog, Dog) -> int)
  {
    forall i :: 0 <= i < |s| - 1 ==> cmp(s[i], s[i + 1]) <= 0
  }

  /** Insert `x` before the first element it compares below, after every element it ties with. */
  function Insert(x: Dog, s: seq<Dog>, cmp: (Dog, Dog) -> int): (r: seq<Dog>)
    ensures multiset(r) == multiset(s) + multiset{x}
    ensures r[0] == x || (s != [] && r[0] == s[0])
  {
    if s == [] then [x]
    else if cmp(x, s[0]) < 0 then [x] + s
    else
      assert s == [s[0]] + s[1..];
      [s[0]] + Insert(x, s[1..], cmp)
  }

  /** A stable insertion sort by `cmp`. */
  function SortBy(xs: seq<Dog>, cmp: (Dog, Dog) -> int): (r: seq<Dog>)
    ensures multiset(r) == multiset(xs)
  {
    if xs == [] then []
    else
      assert xs == xs[..|xs| - 1] + [xs[|xs| - 1]];
      Insert(xs[|xs| - 1], SortBy(xs[..|xs| - 1], cmp), cmp)
  }

  function Comparator(field: SortField, dir: SortDirection, strCmp: (string, string) -> int): (Dog, Dog) -> int
  {
    (a: Dog, b: Dog) => DogCompare(field, dir, strCmp, a, b)
  }

  /**
   * sortedFavorites: a sorted copy, holding exactly the favorites, each as
   * often as before; the favorites list itself is a value and is left as it was.
   */
  function SortedFavorites(favs: seq<Dog>, field: SortField, dir: SortDirection, strCmp: (string, string) -> int): (r: seq<Dog>)
    ensures multiset(r) == multiset(favs)
    ensures |r| == |favs|
  {
    var r := SortBy(favs, Comparator(field, dir, strCmp));
    assert |multiset(r)| == |multiset(favs)|;
    r
  }

  /** The tail of an ordered list is ordered. */
  lemma TailOrdered(s: seq<Dog>, cmp: (Dog, Dog) -> int)
    requires s != [] && OrderedBy(s, cmp)
    ensures OrderedBy(s[1..], cmp)
  {
    var tail := s[1..];
    forall i | 0 <= i < |tail| - 1 ensures cmp(tail[i], tail[i + 1]) <= 0 {
      assert tail[i] == s[i + 1] && tail[i + 1] == s[i + 2];
    }
  }

  /** An element at most its successor, put before an ordered list, gives an ordered list. */
  lemma PrependKeepsOrder(y: Dog, t: seq<Dog>, cmp: (Dog, Dog) -> int)
    requires OrderedBy(t, cmp)
    requires t != [] ==> cmp(y, t[0]) <= 0
    ensures OrderedBy([y] + t, cmp)
  {
    var r := [y] + t;
    forall i | 0 <= i < |r| - 1 ensures cmp(r[i], r[i + 1]) <= 0 {
      if i > 0 {
        assert r[i] == t[i - 1] && r[i + 1] == t[i];
      }
    }
  }

  /** Inserting into an ordered list keeps it ordered, for a comparison that flips sign. */
  lemma {:induction false} InsertKeepsOrder(x: Dog, s: seq<Dog>, cmp: (Dog, Dog) -> int)
    requires FlipsSign(cmp)
    requires OrderedBy(s, cmp)
    ensures OrderedBy(Insert(x, s, cmp), cmp)
  {
    if s == [] {
    } else if cmp(x, s[0]) < 0 {
      PrependKeepsOrder(x, s, cmp);
    } else {
      TailOrdered(s, cmp);
      InsertKeepsOrder(x, s[1..], cmp);
      var t := Insert(x, s[1..], cmp);
      assert cmp(s[0], t[0]) <= 0 by {
        if t[0] == x {
          assert !(cmp(s[0], x) > 0);
        } else {
          assert t[0] == s[1];
        }
      }
      PrependKeepsOrder(s[0], t, cmp);
    }
  }

  /** The insertion sort orders its output. */
  lemma {:induction false} SortByOrders(xs: seq<Dog>, cmp: (Dog, Dog) -> int)
    requires FlipsSign(cmp)
    ensures OrderedBy(SortBy(xs, cmp), cmp)
  {
    if xs != [] {
      SortByOrders(xs[..|xs| - 1], cmp);
      InsertKeepsOrder(xs[|xs| - 1], SortBy(xs[..|xs| - 1], cmp), cmp);
    }
  }

  /** With a sign-flipping string comparison, the dog comparator flips sign too, for every field and direction. */
  lemma ComparatorFlipsSign(field: SortField, dir: SortDirection, strCmp: (string, string) -> int)
    requires FlipsSign(strCmp)
    ensures FlipsSign(Comparator(field, dir, strCmp))
  {
    var cmp := Comparator(field, dir, strCmp);
    forall a: Dog, b: Dog ensures cmp(a, b) > 0 <==> cmp(b, a) < 0 {
      assert strCmp(a.name, b.name) > 0 <==> strCmp(b.name, a.name) < 0;
      assert strCmp(a.breed, b.breed) > 0 <==> strCmp(b.breed, a.breed) < 0;
    }
  }

  /** Each dog in the sorted copy compares at most 0 with the next under the chosen field and direction. */
  lemma SortedFavoritesOrdered(favs: seq<Dog>, field: SortField, dir: SortDirection, strCmp: (string, string) -> int)
    requires FlipsSign(strCmp)
    ensures var r := SortedFavorites(favs, field, dir, strCmp);
            forall i :: 0 <= i < |r| - 1 ==> DogCompare(field, dir, strCmp, r[i], r[i + 1]) <= 0
  {
    ComparatorFlipsSign(field, dir, strCmp);
    SortByOrders(favs, Comparator(field, dir, strCmp));
  }

  /** The age seen through the direction: ascending order of this key is the requested order. */
  function AgeKey(d: Dog, dir: SortDirection): int
  {
    if dir == Asc then d.age else -d.age
  }

  lemma {:induction false} AdjacentKeysChain(s: seq<Dog>, dir: SortDirection)
    requires forall i :: 0 <= i < |s| - 1 ==> AgeKey(s[i], dir) <= AgeKey(s[i + 1], dir)
    ensures forall i, j :: 0 <= i < j < |s| ==> AgeKey(s[i], dir) <= AgeKey(s[j], dir)
  {
    if |s| > 1 {
      var p := s[..|s| - 1];
      assert forall i :: 0 <= i < |p| ==> p[i] == s[i];
      AdjacentKeysChain(p, dir);
      forall i, j | 0 <= i < j < |s| ensures AgeKey(s[i], dir) <= AgeKey(s[j], dir) {
        if j == |s| - 1 && i < j - 1 {
          assert AgeKey(s[i], dir) <= AgeKey(s[j - 1], dir);
        }
      }
    }
  }

  /** By age, the whole sorted copy is non-decreasing for ascending and non-increasing for descending. */
  lemma AgeSortIsMonotone(favs: seq<Dog>, dir: SortDirection, strCmp: (string, string) -> int)
    ensures var r := SortedFavorites(favs, Age, dir, strCmp);
            (dir == Asc ==> forall i, j :: 0 <= i < j < |r| ==> r[i].age <= r[j].age)
            && (dir == Desc ==> forall i, j :: 0 <= i < j < |r| ==> r[i].age >= r[j].age)
  {
    var cmp := Comparator(Age, dir, strCmp);
    assert FlipsSign(cmp) by {
      forall a: Dog, b: Dog ensures cmp(a, b) > 0 <==> cmp(b, a) < 0 {
      }
    }
    SortByOrders(favs, cmp);
    var r := SortedFavorites(favs, Age, dir, strCmp);
    forall i | 0 <= i < |r| - 1 ensures AgeKey(r[i], dir) <= AgeKey(r[i + 1], dir) {
      assert cmp(r[i], r[i + 1]) <= 0;
    }
    AdjacentKeysChain(r, dir);
  }

  /** By name or breed, the string comparison of neighbours is at most 0 ascending and at least 0 descending. */
  lemma StringSortOrder(favs: seq<Dog>, dir: SortDirection, strCmp: (string, string) -> int)
    requires FlipsSign(strCmp)
    ensures var r := SortedFavorites(favs, Name, dir, strCmp);
            forall i :: 0 <= i < |r| - 1 ==>
              (dir == Asc ==> strCmp(r[i].name, r[i + 1].name) <= 0) && (dir == Desc ==> strCmp(r[i].name, r[i + 1].name) >= 0)
    ensures var r := SortedFavorites(favs, Breed, dir, strCmp);
            forall i :: 0 <= i < |r| - 1 ==>
              (dir == Asc ==> strCmp(r[i].breed, r[i + 1].breed) <= 0) && (dir == Desc ==> strCmp(r[i].breed, r[i + 1].breed) >= 0)
  {
    SortedFavoritesOrdered(favs, Name, dir, strCmp);
    SortedFavoritesOrdered(favs, Breed, dir, strCmp);
  }

  /** The view's initial ordering: names ascending under the string comparison. */
  lemma DefaultOrderIsByName(favs: seq<Dog>, strCmp: (string, string) -> int)
    requires FlipsSign(strCmp)
    ensures var r := SortedFavorites(favs, DefaultSortField, DefaultSortDirection, strCmp);
            forall i :: 0 <= i < |r| - 1 ==> strCmp(r[i].name, r[i + 1].name) <= 0
  {
    StringSortOrder(favs, DefaultSortDirection, strCmp);
  }

  /** A code-point lexicographic comparison: one comparison that meets FlipsSign. */
  function LexCompare(a: string, b: string): int
  {
    if a == [] && b == [] then 0
    else if a == [] then -1
    else if b == [] then 1
    else if a[0] < b[0] then -1
    else if a[0] > b[0] then 1
    else LexCompare(a[1..], b[1..])
  }

  lemma {:induction false} LexCompareFlipsAt(a: string, b: string)
    ensures LexCompare(a, b) > 0 <==> LexCompare(b, a) < 0
  {
    if a != [] && b != [] && a[0] == b[0] {
      LexCompareFlipsAt(a[1..], b[1..]);
    }
  }

  lemma LexCompareFlipsSign()
    ensures FlipsSign(LexCompare)
  {
    forall a: string, b: string ensures LexCompare(a, b) > 0 <==> LexCompare(b, a) < 0 {
      LexCompareFlipsAt(a, b);
    }
  }
}

/** The search results page: the filter that picks the providers matching the
    searched service and city, and `sortProviders`, which sorts a copy of the
    list on the key the user chose. The page's provider record has the same
    fields as the server's; `distance` is kept in tenths of a kilometre (what
    `parseFloat` reads from "X.Y km") and `estimatedTime` in minutes (what
    `parseInt` reads from "N mins"). */
module SearchResultsPage {
  import opened Text
  import opened Listings
  import opened Sequences

  /** `provider.service.toLowerCase().includes(serviceQuery.toLowerCase()) &&
      provider.city.toLowerCase().includes(cityQuery.toLowerCase())`. */
  predicate MatchesQuery(p: Listing, serviceQuery: string, cityQuery: string)
  {
    Contains(Lower(p.service), Lower(serviceQuery)) && Contains(Lower(p.city), Lower(cityQuery))
  }

  /** `providers.filter(...)` with the predicate above. */
  function FilterProviders(providers: seq<Listing>, serviceQuery: string, cityQuery: string): seq<Listing>
  {
    if providers == [] then []
    else (if MatchesQuery(providers[0], serviceQuery, cityQuery) then [providers[0]] else [])
         + FilterProviders(providers[1..], serviceQuery, cityQuery)
  }

  /** The filter keeps exactly the matching providers, in their order. */
  lemma {:induction false} FilterProvidersFacts(providers: seq<Listing>, serviceQuery: string, cityQuery: string)
    ensures IsSubseq(FilterProviders(providers, serviceQuery, cityQuery), providers)
    ensures forall p :: (p in FilterProviders(providers, serviceQuery, cityQuery)
      <==> p in providers && MatchesQuery(p, serviceQuery, cityQuery))
    decreases |providers|
  {
    if providers != [] {
      var x := providers[0];
      var tail := providers[1..];
      var rest := FilterProviders(tail, serviceQuery, cityQuery);
      FilterProvidersFacts(tail, serviceQuery, cityQuery);
      assert providers == [x] + tail;
      if MatchesQuery(x, serviceQuery, cityQuery) {
        assert FilterProviders(providers, serviceQuery, cityQuery) == [x] + rest;
        SubseqCons(rest, tail, x);
      } else {
        assert FilterProviders(providers, serviceQuery, cityQuery) == rest;
        SubseqSkip(rest, tail, x);
      }
    }
  }

  /** Each matching provider is kept as many times as the input holds it,
      and no other provider is kept. */
  lemma {:induction false} FilterProvidersCount(providers: seq<Listing>, serviceQuery: string, cityQuery: string)
    ensures forall p :: (multiset(FilterProviders(providers, serviceQuery, cityQuery))[p]
      == if MatchesQuery(p, serviceQuery, cityQuery) then multiset(providers)[p] else 0)
    decreases |providers|
  {
    if providers != [] {
      var x := providers[0];
      var tail := providers[1..];
      var rest := FilterProviders(tail, serviceQuery, cityQuery);
      FilterProvidersCount(tail, serviceQuery, cityQuery);
      assert providers == [x] + tail;
      assert multiset(providers) == multiset{x} + multiset(tail);
      if MatchesQuery(x, serviceQuery, cityQuery) {
        assert FilterProviders(providers, serviceQuery, cityQuery) == [x] + rest;
        assert multiset([x] + rest) == multiset{x} + multiset(rest);
      } else {
        assert FilterProviders(providers, serviceQuery, cityQuery) == rest;
      }
    }
  }

  /** An empty query part matches every provider on that part. */
  lemma EmptyQueryMatches(p: Listing)
    ensures MatchesQuery(p, "", "")
  {
    assert OccursAt(Lower(p.service), Lower(""), 0);
    assert OccursAt(Lower(p.city), Lower(""), 0);
  }

  /** The comparator's three cases: `"rating"`, `"time"`, and `"distance"`
      together with every other choice (the `default` branch). */
  datatype SortChoice = ByRating | ByTime | ByDistance

  function Choice(sortBy: string): SortChoice
  {
    if sortBy == "rating" then ByRating
    else if sortBy == "time" then ByTime
    else ByDistance
  }

  /** The number the comparator compares, arranged so that smaller comes
      first: the rating negated, the minutes, or the distance. */
  function SortKey(p: Listing, c: SortChoice): int
  {
    match c
    case ByRating => -(p.rating as int)
    case ByTime => p.estimatedTime as int
    case ByDistance => p.distance as int
  }

  /** No provider is followed by one that the comparator puts before it. */
  predicate SortedBy(s: seq<Listing>, c: SortChoice)
  {
    forall i, j :: 0 <= i < j < |s| ==> SortKey(s[i], c) <= SortKey(s[j], c)
  }

  /** The first `n` cells of `a` are in key order. */
  predicate SortedPrefix(a: array<Listing>, n: int, c: SortChoice)
    reads a
  {
    forall k, l :: 0 <= k < l < n && l < a.Length ==> SortKey(a[k], c) <= SortKey(a[l], c)
  }

  /** Exchanges `a[i]` and `a[j]`. */
  method Swap(a: array<Listing>, i: int, j: int)
    requires 0 <= i < j < a.Length
    modifies a
    ensures a[i] == old(a[j]) && a[j] == old(a[i])
    ensures forall m :: 0 <= m < a.Length && m != i && m != j ==> a[m] == old(a[m])
    ensures multiset(a[..]) == multiset(old(a[..]))
  {
    a[i], a[j] := a[j], a[i];
  }

  /** One pass of the insertion sort: moves `a[i]` left past every larger key. */
  method InsertAt(a: array<Listing>, i: int, c: SortChoice)
    requires 0 < i < a.Length
    requires SortedPrefix(a, i, c)
    modifies a
    ensures SortedPrefix(a, i + 1, c)
    ensures multiset(a[..]) == multiset(old(a[..]))
  {
    var j := i;
    while j > 0 && SortKey(a[j - 1], c) > SortKey(a[j], c)
      invariant 0 <= j <= i
      invariant forall k, l :: 0 <= k < l <= i && l != j ==> SortKey(a[k], c) <= SortKey(a[l], c)
      invariant 0 < j < i ==> SortKey(a[j - 1], c) <= SortKey(a[j + 1], c)
      invariant multiset(a[..]) == multiset(old(a[..]))
    {
      Swap(a, j - 1, j);
      j := j - 1;
    }
  }

  /** Sorts `a` in place by `SortKey`. */
  method InsertionSort(a: array<Listing>, c: SortChoice)
    modifies a
    ensures SortedBy(a[..], c)
    ensures multiset(a[..]) == multiset(old(a[..]))
  {
    var i := 1;
    while i < a.Length
      invariant a.Length == 0 || 1 <= i <= a.Length
      invariant SortedPrefix(a, i, c)
      invariant multiset(a[..]) == multiset(old(a[..]))
    {
      InsertAt(a, i, c);
      i := i + 1;
    }
  }

  /** `sortProviders`: `[...providers].sort(comparator)`. The input is copied
      into a fresh array, which is sorted; the input list is left as it was. */
  method SortProviders(providers: seq<Listing>, sortBy: string) returns (sorted: seq<Listing>)
    ensures SortedBy(sorted, Choice(sortBy))
    ensures multiset(sorted) == multiset(providers)
  {
    var copy := new Listing[|providers|](k requires 0 <= k < |providers| => providers[k]);
    assert copy[..] == providers;
    InsertionSort(copy, Choice(sortBy));
    sorted := copy[..];
  }

  /** What sorted means for each choice: ratings never rise with "rating",
      minutes never fall with "time", and distances never fall with
      "distance" or anything else. */
  lemma SortedByMeaning(s: seq<Listing>, sortBy: string)
    ensures sortBy == "rating" ==>
      (SortedBy(s, Choice(sortBy)) <==> forall i, j :: 0 <= i < j < |s| ==> s[i].rating >= s[j].rating)
    ensures sortBy == "time" ==>
      (SortedBy(s, Choice(sortBy)) <==> forall i, j :: 0 <= i < j < |s| ==> s[i].estimatedTime <= s[j].estimatedTime)
    ensures sortBy != "rating" && sortBy != "time" ==>
      (SortedBy(s, Choice(sortBy)) <==> forall i, j :: 0 <= i < j < |s| ==> s[i].distance <= s[j].distance)
  {
  }

  /** A sorted list holds the same providers as the input and no others. */
  lemma SortKeepsProviders(providers: seq<Listing>, sorted: seq<Listing>)
    requires multiset(sorted) == multiset(providers)
    ensures |sorted| == |providers|
    ensures forall p :: p in sorted <==> p in providers
  {
    assert |multiset(sorted)| == |multiset(providers)|;
    forall p ensures p in sorted <==> p in providers {
      assert p in sorted <==> p in multiset(sorted);
      assert p in providers <==> p in multiset(providers);
    }
  }
}

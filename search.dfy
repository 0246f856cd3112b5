/** `searchMedicalServices`, the `GET /api/search-services` handler: checks the
    query, runs both adapters, pools what they found, falls back to or
    supplements with the synthetic directory, drops repeated names and caps
    the answer at eight providers. */
module SearchServices {
  import opened Text
  import opened Listings
  import opened Sequences
  import opened GoogleSearch
  import opened JustDial
  import opened EnhancedDirectory

  /** One entry of `Promise.allSettled`. */
  datatype Settled = Fulfilled(value: seq<Listing>) | Rejected

  /** `req.query.service` and `req.query.city`; `None` when absent. */
  datatype Query = Query(service: Option<string>, city: Option<string>)

  /** The handler's answer: status 400 with an error message, or the JSON body
      with the providers, their count, the query and the time of the search. */
  datatype Response =
    | BadRequest(error: string)
    | Found(providers: seq<Listing>, total: nat, service: string, city: string, searchedAt: nat)

  /** What the network, `Math.random()` and the clock supply to one request:
      each adapter's parsed page (`None` when fetching or parsing failed), the
      draws of each adapter and of the synthetic directory, and `Date.now()`. */
  datatype World = World(
    googlePage: Option<seq<ResultBlock>>,
    googleDraw: nat -> Draws,
    justDialPage: Option<seq<ResultBox>>,
    justDialDraw: nat -> Draws,
    mockDraw: nat -> Draws,
    now: nat)

  const MissingParameters: string := "Both service and city parameters are required"
  const MaxProviders: nat := 8
  const SupplementCount: nat := 2

  /** A query parameter passes `!param` when it is present and not empty. */
  predicate Given(p: Option<string>)
  {
    p.Some? && p.value != ""
  }

  /** What one settled promise adds to the pool. */
  function Contribution(r: Settled): seq<Listing>
  {
    match r
    case Fulfilled(v) => v
    case Rejected => []
  }

  /** The values of the fulfilled entries, concatenated in order. */
  function Pool(results: seq<Settled>): seq<Listing>
  {
    if results == [] then []
    else Pool(results[..|results| - 1]) + Contribution(results[|results| - 1])
  }

  /** `results.forEach(...)`: `allProviders = allProviders.concat(result.value)`
      for every fulfilled entry. */
  method PoolResults(results: seq<Settled>) returns (pool: seq<Listing>)
    ensures pool == Pool(results)
  {
    pool := [];
    var i := 0;
    while i < |results|
      invariant i <= |results|
      invariant pool == Pool(results[..i])
    {
      assert results[..i + 1][..i] == results[..i];
      if results[i].Fulfilled? {
        pool := pool + results[i].value;
      }
      i := i + 1;
    }
    assert results[..i] == results;
  }

  /** A record is pooled exactly when some fulfilled entry holds it. */
  lemma {:induction false} PoolMembers(results: seq<Settled>, x: Listing)
    ensures x in Pool(results) <==> exists k :: 0 <= k < |results| && results[k].Fulfilled? && x in results[k].value
    decreases |results|
  {
    if results != [] {
      var init := results[..|results| - 1];
      PoolMembers(init, x);
      if x in Pool(results) && x !in Pool(init) {
        var k := |results| - 1;
        assert results[k].Fulfilled? && x in results[k].value;
      }
      if exists k :: 0 <= k < |results| && results[k].Fulfilled? && x in results[k].value {
        var k :| 0 <= k < |results| && results[k].Fulfilled? && x in results[k].value;
        if k < |results| - 1 {
          assert init[k] == results[k];
        }
      }
    }
  }

  /** Two fulfilled entries pool to the first value followed by the second. */
  lemma PoolTwo(a: seq<Listing>, b: seq<Listing>)
    ensures Pool([Fulfilled(a), Fulfilled(b)]) == a + b
  {
    var rs := [Fulfilled(a), Fulfilled(b)];
    assert rs[..1] == [Fulfilled(a)];
    assert [Fulfilled(a)][..0] == [];
    assert Pool([Fulfilled(a)]) == [] + a == a;
    assert Pool(rs) == Pool(rs[..1]) + Contribution(rs[1]);
  }

  /** Nothing pooled: the five synthetic records. Something pooled: those
      records followed by the first two synthetic ones. */
  function Merge(pool: seq<Listing>, mock: seq<Listing>): seq<Listing>
  {
    if |pool| == 0 then mock else pool + Cap(mock, SupplementCount)
  }

  /** `self.findIndex(p => p.name === name)`: the first position holding a
      record named `name`, or -1 when there is none. */
  function FindName(s: seq<Listing>, name: string): (k: int)
    ensures -1 <= k < |s|
    ensures k >= 0 ==> s[k].name == name && forall j :: 0 <= j < k ==> s[j].name != name
    ensures k == -1 ==> forall j :: 0 <= j < |s| ==> s[j].name != name
  {
    if s == [] then -1
    else if s[0].name == name then 0
    else
      var k := FindName(s[1..], name);
      if k == -1 then -1 else k + 1
  }

  /** The `filter` from position `i` on: keep the record at `j` exactly when
      `j` is where its name first occurs. */
  function FilterFrom(s: seq<Listing>, i: nat): seq<Listing>
    requires i <= |s|
    decreases |s| - i
  {
    if i == |s| then []
    else (if FindName(s, s[i].name) == i then [s[i]] else []) + FilterFrom(s, i + 1)
  }

  /** `allProviders.filter((provider, index, self) => index === self.findIndex(...))`. */
  function Dedup(s: seq<Listing>): seq<Listing>
  {
    FilterFrom(s, 0)
  }

  /** Reference definition: walk the list once, keeping a record when its
      name has not been seen yet. */
  function KeepFirst(s: seq<Listing>, seen: set<string>): seq<Listing>
    decreases |s|
  {
    if s == [] then []
    else if s[0].name in seen then KeepFirst(s[1..], seen)
    else [s[0]] + KeepFirst(s[1..], seen + {s[0].name})
  }

  /** `.slice(0, 8)` after the filter. */
  function Finish(merged: seq<Listing>): seq<Listing>
  {
    Cap(Dedup(merged), MaxProviders)
  }

  /** The records an adapter run would pool for this request. */
  function LiveResults(service: string, city: string, w: World): seq<Listing>
  {
    Pool([Fulfilled(GoogleResults(service, city, w.googlePage, w.googleDraw)),
          Fulfilled(JustDialResults(service, city, w.justDialPage, w.justDialDraw))])
  }

  /** The handler's answer to `query` in world `w`. */
  function Respond(query: Query, w: World): Response
  {
    if !Given(query.service) || !Given(query.city) then BadRequest(MissingParameters)
    else
      var service := query.service.value;
      var city := query.city.value;
      var merged := Merge(LiveResults(service, city, w), GenerateEnhancedMockData(service, city, w.mockDraw));
      var providers := Finish(merged);
      Found(providers, |providers|, service, city, w.now)
  }

  /** The handler: the adapters run, the settled results are pooled, the
      fallback or supplement is added, repeated names dropped, eight kept. */
  method SearchMedicalServices(query: Query, w: World) returns (response: Response)
    ensures response == Respond(query, w)
  {
    if !Given(query.service) || !Given(query.city) {
      return BadRequest(MissingParameters);
    }
    var service := query.service.value;
    var city := query.city.value;
    var google := ScrapeGoogleSearch(service, city, w.googlePage, w.googleDraw);
    var justDial := ScrapeJustDial(service, city, w.justDialPage, w.justDialDraw);
    var allProviders := PoolResults([Fulfilled(google), Fulfilled(justDial)]);
    var mock := GenerateEnhancedMockData(service, city, w.mockDraw);
    if |allProviders| == 0 {
      allProviders := mock;
    } else {
      allProviders := allProviders + Cap(mock, SupplementCount);
    }
    var unique := Cap(Dedup(allProviders), MaxProviders);
    response := Found(unique, |unique|, service, city, w.now);
  }

  // ---------------------------------------------------------------------
  // The filter and its reference definition

  /** The names of the first `i` records, plus the next one, are the names of the first `i + 1`. */
  lemma NamesSnoc(s: seq<Listing>, i: nat)
    requires i < |s|
    ensures Names(s[..i + 1]) == Names(s[..i]) + {s[i].name}
  {
    var a := s[..i];
    var b := s[..i + 1];
    forall n | n in Names(b) ensures n in Names(a) + {s[i].name} {
      var k :| 0 <= k < |b| && b[k].name == n;
      if k < i {
        assert a[k] == b[k];
      }
    }
    forall n | n in Names(a) + {s[i].name} ensures n in Names(b) {
      if n == s[i].name {
        assert b[i].name == n;
      } else {
        var k :| 0 <= k < |a| && a[k].name == n;
        assert b[k] == a[k];
      }
    }
  }

  /** The record at `i` is kept by the filter exactly when its name is not
      among the names before it. */
  lemma FirstOccurrence(s: seq<Listing>, i: nat)
    requires i < |s|
    ensures FindName(s, s[i].name) == i <==> s[i].name !in Names(s[..i])
  {
    var n := s[i].name;
    var k := FindName(s, n);
    if n in Names(s[..i]) {
      var j :| 0 <= j < i && s[..i][j].name == n;
      assert s[j].name == n;
      assert k <= j;
    } else {
      assert forall j :: 0 <= j < i ==> s[..i][j] == s[j];
      assert forall j :: 0 <= j < i ==> s[j].name != n;
      assert k != -1;
      assert !(k > i);
    }
  }

  /** The filter from `i` on is the reference walk over `s[i..]` that has
      already seen the names before `i`. */
  lemma {:induction false} FilterFromIsKeepFirst(s: seq<Listing>, i: nat)
    requires i <= |s|
    ensures FilterFrom(s, i) == KeepFirst(s[i..], Names(s[..i]))
    decreases |s| - i
  {
    if i < |s| {
      var n := s[i].name;
      var seen := Names(s[..i]);
      var t := s[i..];
      FilterFromIsKeepFirst(s, i + 1);
      assert FilterFrom(s, i + 1) == KeepFirst(s[i + 1..], Names(s[..i + 1]));
      NamesSnoc(s, i);
      assert Names(s[..i + 1]) == seen + {n};
      FirstOccurrence(s, i);
      assert t[1..] == s[i + 1..] && t[0] == s[i];
      KeepFirstStep(t, seen);
      if n in seen {
        assert seen + {n} == seen;
      }
    } else {
      assert s[i..] == [];
    }
  }

  /** One step of the reference walk. */
  lemma KeepFirstStep(t: seq<Listing>, seen: set<string>)
    requires t != []
    ensures t[0].name in seen ==> KeepFirst(t, seen) == KeepFirst(t[1..], seen)
    ensures t[0].name !in seen ==> KeepFirst(t, seen) == [t[0]] + KeepFirst(t[1..], seen + {t[0].name})
  {
  }

  /** The filter is the reference walk started with nothing seen. */
  lemma DedupIsKeepFirst(s: seq<Listing>)
    ensures Dedup(s) == KeepFirst(s, {})
  {
    FilterFromIsKeepFirst(s, 0);
    assert s[..0] == [];
    assert s[0..] == s;
    assert Names(s[..0]) == {};
  }

  /** The reference walk keeps records in their order. */
  lemma {:induction false} KeepFirstSubseq(s: seq<Listing>, seen: set<string>)
    ensures IsSubseq(KeepFirst(s, seen), s)
    decreases |s|
  {
    if s != [] {
      var x := s[0];
      KeepFirstStep(s, seen);
      assert s == [x] + s[1..];
      if x.name in seen {
        KeepFirstSubseq(s[1..], seen);
        SubseqSkip(KeepFirst(s[1..], seen), s[1..], x);
      } else {
        KeepFirstSubseq(s[1..], seen + {x.name});
        SubseqCons(KeepFirst(s[1..], seen + {x.name}), s[1..], x);
      }
    }
  }

  /** The reference walk never keeps a name already seen, nor one name twice. */
  lemma {:induction false} KeepFirstDistinct(s: seq<Listing>, seen: set<string>)
    ensures DistinctNames(KeepFirst(s, seen))
    ensures forall k :: 0 <= k < |KeepFirst(s, seen)| ==> KeepFirst(s, seen)[k].name !in seen
    decreases |s|
  {
    if s != [] {
      var x := s[0];
      var r := KeepFirst(s, seen);
      KeepFirstStep(s, seen);
      if x.name in seen {
        KeepFirstDistinct(s[1..], seen);
      } else {
        var rest := KeepFirst(s[1..], seen + {x.name});
        KeepFirstDistinct(s[1..], seen + {x.name});
        assert r == [x] + rest;
        forall k | 0 < k < |r| ensures r[k] == rest[k - 1] && r[k].name != x.name {}
      }
    }
  }

  /** The reference walk keeps every name of `s` it has not seen, and no other. */
  lemma {:induction false} KeepFirstNames(s: seq<Listing>, seen: set<string>)
    ensures Names(KeepFirst(s, seen)) == Names(s) - seen
    decreases |s|
  {
    if s == [] {
      assert Names(s) == {};
      assert Names(KeepFirst(s, seen)) == {};
    } else {
      var x := s[0];
      KeepFirstStep(s, seen);
      assert s == [x] + s[1..];
      NamesCons(x, s[1..]);
      if x.name in seen {
        KeepFirstNames(s[1..], seen);
      } else {
        var rest := KeepFirst(s[1..], seen + {x.name});
        KeepFirstNames(s[1..], seen + {x.name});
        NamesCons(x, rest);
      }
    }
  }

  /** Each record the reference walk keeps is the first record of `s` with its name. */
  lemma {:induction false} KeepFirstIsFirst(s: seq<Listing>, seen: set<string>)
    ensures forall k :: 0 <= k < |KeepFirst(s, seen)| ==>
      FindName(s, KeepFirst(s, seen)[k].name) >= 0 && s[FindName(s, KeepFirst(s, seen)[k].name)] == KeepFirst(s, seen)[k]
    decreases |s|
  {
    if s != [] {
      var x := s[0];
      var tail := s[1..];
      var r := KeepFirst(s, seen);
      KeepFirstStep(s, seen);
      if x.name in seen {
        KeepFirstIsFirst(tail, seen);
        KeepFirstDistinct(tail, seen);
        forall k | 0 <= k < |r|
          ensures FindName(s, r[k].name) >= 0 && s[FindName(s, r[k].name)] == r[k]
        {
          assert r[k].name != x.name;
          assert FindName(s, r[k].name) == FindName(tail, r[k].name) + 1;
        }
      } else {
        var rest := KeepFirst(tail, seen + {x.name});
        KeepFirstIsFirst(tail, seen + {x.name});
        KeepFirstDistinct(tail, seen + {x.name});
        assert r == [x] + rest;
        forall k | 0 < k < |r|
          ensures FindName(s, r[k].name) >= 0 && s[FindName(s, r[k].name)] == r[k]
        {
          assert r[k] == rest[k - 1];
          assert r[k].name != x.name;
          assert FindName(s, r[k].name) == FindName(tail, r[k].name) + 1;
        }
      }
    }
  }

  lemma NamesCons(x: Listing, s: seq<Listing>)
    ensures Names([x] + s) == {x.name} + Names(s)
  {
    var t := [x] + s;
    forall n | n in Names(t) ensures n in {x.name} + Names(s) {
      var k :| 0 <= k < |t| && t[k].name == n;
      if k > 0 {
        assert s[k - 1] == t[k];
      }
    }
    forall n | n in Names(s) ensures n in Names(t) {
      var k :| 0 <= k < |s| && s[k].name == n;
      assert t[k + 1] == s[k];
    }
    assert t[0] == x;
  }

  /** What the filter promises: the survivors keep their order, no name
      appears twice, every name of the input survives, and the record that
      survives for a name is its first occurrence. */
  lemma DedupFacts(s: seq<Listing>)
    ensures IsSubseq(Dedup(s), s)
    ensures DistinctNames(Dedup(s))
    ensures Names(Dedup(s)) == Names(s)
    ensures forall k :: 0 <= k < |Dedup(s)| ==>
      FindName(s, Dedup(s)[k].name) >= 0 && s[FindName(s, Dedup(s)[k].name)] == Dedup(s)[k]
  {
    DedupIsKeepFirst(s);
    KeepFirstSubseq(s, {});
    KeepFirstDistinct(s, {});
    KeepFirstNames(s, {});
    KeepFirstIsFirst(s, {});
  }

  /** A list without repeated names passes the filter unchanged. */
  lemma {:induction false} KeepFirstOfDistinct(s: seq<Listing>, seen: set<string>)
    requires DistinctNames(s)
    requires forall k :: 0 <= k < |s| ==> s[k].name !in seen
    ensures KeepFirst(s, seen) == s
    decreases |s|
  {
    if s != [] {
      var tail := s[1..];
      forall k | 0 <= k < |tail| ensures tail[k].name !in seen + {s[0].name} {
        assert tail[k] == s[k + 1];
      }
      assert DistinctNames(tail) by {
        forall i, j | 0 <= i < j < |tail| ensures tail[i].name != tail[j].name {
          assert tail[i] == s[i + 1] && tail[j] == s[j + 1];
        }
      }
      KeepFirstOfDistinct(tail, seen + {s[0].name});
    }
  }

  /** The filter leaves a list alone exactly when no name repeats in it, so
      filtering twice is filtering once. */
  lemma DedupIdentity(s: seq<Listing>)
    ensures Dedup(s) == s <==> DistinctNames(s)
    ensures Dedup(Dedup(s)) == Dedup(s)
  {
    DedupFacts(s);
    DedupIsKeepFirst(s);
    if DistinctNames(s) {
      KeepFirstOfDistinct(s, {});
    }
    DedupIsKeepFirst(Dedup(s));
    KeepFirstOfDistinct(Dedup(s), {});
  }

  // ---------------------------------------------------------------------
  // Provenance counts

  /** Dropping records never raises a tag's count. */
  lemma {:induction false} CountSourceSubseq(a: seq<Listing>, b: seq<Listing>, tag: string)
    requires IsSubseq(a, b)
    ensures CountSource(a, tag) <= CountSource(b, tag)
    decreases |b|
  {
    if a == [] {
    } else if a[0] == b[0] && IsSubseq(a[1..], b[1..]) {
      CountSourceSubseq(a[1..], b[1..], tag);
    } else {
      CountSourceSubseq(a, b[1..], tag);
    }
  }

  // ---------------------------------------------------------------------
  // The handler

  /** Status 400 exactly when a parameter is missing or empty. */
  lemma RespondRejects(query: Query, w: World)
    ensures Respond(query, w).BadRequest? <==> !Given(query.service) || !Given(query.city)
    ensures Respond(query, w).BadRequest? ==> Respond(query, w).error == MissingParameters
  {
  }

  /** What the live adapters pool: the web-search records, then the
      directory records; none of them carries the fallback tag. */
  lemma LiveResultsFacts(service: string, city: string, w: World)
    ensures LiveResults(service, city, w)
      == GoogleResults(service, city, w.googlePage, w.googleDraw) + JustDialResults(service, city, w.justDialPage, w.justDialDraw)
    ensures |LiveResults(service, city, w)| <= GoogleSearch.MaxResults + JustDial.MaxResults
    ensures forall k :: 0 <= k < |LiveResults(service, city, w)| ==> LiveResults(service, city, w)[k].source != EnhancedDirectory.SourceTag
  {
    var g := GoogleResults(service, city, w.googlePage, w.googleDraw);
    var j := JustDialResults(service, city, w.justDialPage, w.justDialDraw);
    PoolTwo(g, j);
    GoogleResultsTagged(service, city, w.googlePage, w.googleDraw);
    JustDialResultsTagged(service, city, w.justDialPage, w.justDialDraw);
    var live := g + j;
    forall k | 0 <= k < |live| ensures live[k].source != EnhancedDirectory.SourceTag {
      if k < |g| {
        assert live[k] == g[k];
      } else {
        assert live[k] == j[k - |g|];
      }
    }
  }

  /** A successful answer: the providers are the first eight records of the
      merged list that keep-first walk retains, and `total` is their number;
      no name appears twice; the providers keep the order of the merged list
      and each is the first record of that list with its name; the answer
      is never empty and opens with the first merged record, which is the
      first live record when there is one. */
  lemma RespondFound(query: Query, w: World)
    requires Given(query.service) && Given(query.city)
    ensures Respond(query, w).Found?
    ensures var r := Respond(query, w);
      var live := LiveResults(query.service.value, query.city.value, w);
      var merged := Merge(live, GenerateEnhancedMockData(query.service.value, query.city.value, w.mockDraw));
      && r.providers == Cap(KeepFirst(merged, {}), MaxProviders)
      && r.total == |r.providers| <= MaxProviders
      && r.service == query.service.value && r.city == query.city.value
      && DistinctNames(r.providers)
      && IsSubseq(r.providers, merged)
      && (forall k :: 0 <= k < |r.providers| ==>
            FindName(merged, r.providers[k].name) >= 0 && merged[FindName(merged, r.providers[k].name)] == r.providers[k])
      && r.providers != [] && r.providers[0] == merged[0]
      && (live != [] ==> r.providers[0] == live[0])
  {
    var service := query.service.value;
    var city := query.city.value;
    var live := LiveResults(service, city, w);
    var mock := GenerateEnhancedMockData(service, city, w.mockDraw);
    var merged := Merge(live, mock);
    assert merged != [] && (live != [] ==> merged[0] == live[0]);
    var d := Dedup(merged);
    DedupFacts(merged);
    DedupIsKeepFirst(merged);
    KeepFirstStep(merged, {});
    var p := Cap(d, MaxProviders);
    SubseqPrefix(d, merged, |p|);
  }

  /** A record of the answer is well formed: it answers the query and carries
      the tag of one of the two live sources or of the synthetic directory. */
  predicate WellFormed(l: Listing, service: string, city: string)
  {
    && Answers(l, service, city)
    && (l.source == GoogleSearch.SourceTag || l.source == JustDial.SourceTag || l.source == EnhancedDirectory.SourceTag)
  }

  /** Every record of the merged list is well formed. */
  lemma MergedWellFormed(service: string, city: string, w: World)
    ensures var merged := Merge(LiveResults(service, city, w), GenerateEnhancedMockData(service, city, w.mockDraw));
      forall k :: 0 <= k < |merged| ==> WellFormed(merged[k], service, city)
  {
    var g := GoogleResults(service, city, w.googlePage, w.googleDraw);
    var j := JustDialResults(service, city, w.justDialPage, w.justDialDraw);
    var mock := GenerateEnhancedMockData(service, city, w.mockDraw);
    LiveResultsFacts(service, city, w);
    GoogleResultsTagged(service, city, w.googlePage, w.googleDraw);
    JustDialResultsTagged(service, city, w.justDialPage, w.justDialDraw);
    MockDataFacts(service, city, w.mockDraw);
    var live := g + j;
    var merged := Merge(live, mock);
    forall k | 0 <= k < |merged| ensures WellFormed(merged[k], service, city) {
      if live == [] {
        assert merged[k] == mock[k];
      } else if k < |g| {
        assert merged[k] == g[k];
      } else if k < |live| {
        assert merged[k] == j[k - |g|];
      } else {
        assert merged[k] == mock[k - |live|];
      }
    }
  }

  /** Every provider in a successful answer is well formed, whichever
      sources answered. */
  lemma RespondWellFormed(query: Query, w: World)
    requires Given(query.service) && Given(query.city)
    ensures Respond(query, w).Found?
    ensures forall k :: 0 <= k < |Respond(query, w).providers| ==>
      WellFormed(Respond(query, w).providers[k], query.service.value, query.city.value)
  {
    var service := query.service.value;
    var city := query.city.value;
    var merged := Merge(LiveResults(service, city, w), GenerateEnhancedMockData(service, city, w.mockDraw));
    MergedWellFormed(service, city, w);
    var d := Dedup(merged);
    DedupFacts(merged);
    SubseqMembers(d, merged);
    var p := Cap(d, MaxProviders);
    forall k | 0 <= k < |p| ensures WellFormed(p[k], service, city) {
      assert p[k] == d[k];
      assert d[k] in merged;
    }
  }

  /** With no live result the answer is the five synthetic records for the
      city, all names ending in " - " and the city. */
  lemma RespondAllSourcesDown(query: Query, w: World)
    requires Given(query.service) && Given(query.city)
    requires LiveResults(query.service.value, query.city.value, w) == []
    ensures Respond(query, w).Found?
    ensures Respond(query, w).providers == GenerateEnhancedMockData(query.service.value, query.city.value, w.mockDraw)
    ensures Respond(query, w).total == 5
    ensures forall k :: 0 <= k < |Respond(query, w).providers| ==> Respond(query, w).providers[k].source == EnhancedDirectory.SourceTag
  {
    var service := query.service.value;
    var city := query.city.value;
    var mock := GenerateEnhancedMockData(service, city, w.mockDraw);
    MockNamesDistinct(service, city, w.mockDraw);
    DedupIdentity(mock);
    MockDataFacts(service, city, w.mockDraw);
  }

  /** When live results exist, at most two synthetic records reach the answer. */
  lemma RespondSupplementBounded(query: Query, w: World)
    requires Given(query.service) && Given(query.city)
    requires LiveResults(query.service.value, query.city.value, w) != []
    ensures CountSource(Respond(query, w).providers, EnhancedDirectory.SourceTag) <= SupplementCount
  {
    var service := query.service.value;
    var city := query.city.value;
    var live := LiveResults(service, city, w);
    var mock := GenerateEnhancedMockData(service, city, w.mockDraw);
    LiveResultsFacts(service, city, w);
    CountSourceBounds(live, EnhancedDirectory.SourceTag);
    CountSourceBounds(Cap(mock, SupplementCount), EnhancedDirectory.SourceTag);
    var merged := live + Cap(mock, SupplementCount);
    CountSourceAppend(live, Cap(mock, SupplementCount), EnhancedDirectory.SourceTag);
    var d := Dedup(merged);
    DedupFacts(merged);
    CountSourceSubseq(d, merged, EnhancedDirectory.SourceTag);
    var p := Cap(d, MaxProviders);
    SubseqOfSelf(d);
    SubseqPrefix(d, d, |p|);
    CountSourceSubseq(p, d, EnhancedDirectory.SourceTag);
  }

  /** When the live records and the two supplements have pairwise different
      names and number at most eight, the answer is exactly those records:
      the live ones first, then the first two synthetic ones. */
  lemma RespondSupplemented(query: Query, w: World)
    requires Given(query.service) && Given(query.city)
    requires var live := LiveResults(query.service.value, query.city.value, w);
      var mock := GenerateEnhancedMockData(query.service.value, query.city.value, w.mockDraw);
      live != [] && DistinctNames(live + Cap(mock, SupplementCount)) && |live| + SupplementCount <= MaxProviders
    ensures var live := LiveResults(query.service.value, query.city.value, w);
      var mock := GenerateEnhancedMockData(query.service.value, query.city.value, w.mockDraw);
      Respond(query, w).providers == live + mock[..SupplementCount]
      && Respond(query, w).total == |live| + SupplementCount
  {
    var live := LiveResults(query.service.value, query.city.value, w);
    var mock := GenerateEnhancedMockData(query.service.value, query.city.value, w.mockDraw);
    var merged := live + Cap(mock, SupplementCount);
    DedupIdentity(merged);
    assert Cap(mock, SupplementCount) == mock[..SupplementCount];
  }
}

/** `scrapeGoogleSearch`: turns the `.g` result blocks of a web-search page into
    at most five listings. Fetching and parsing the page are not modelled: the
    page arrives as its parsed blocks, or as `None` when the request or the
    parse failed (the adapter's `catch` then answers with no listings). */
module GoogleSearch {
  import opened Text
  import opened Phone
  import opened Listings
  import opened Sequences
  import opened Blocks

  /** One `.g` block: the text of its first `h3`, the text of its first
      `.VwiC3b` snippet, and the `href` of its first link ("" when absent). */
  datatype ResultBlock = ResultBlock(titleText: string, snippetText: string, href: string)

  const MaxResults: nat := 5
  const MinTitleLength: nat := 3
  const AddressLimit: nat := 100
  const Ellipsis: string := "..."
  const SourceTag: string := "Google Search"

  /** A block is used when its trimmed title has at least three characters. */
  predicate KeepsTitle(b: ResultBlock)
  {
    |Trim(b.titleText)| >= MinTitleLength
  }

  /** The snippet cut to 100 characters, "..." added when it was longer, and
      `<city>, India` when there is no snippet. */
  function SnippetAddress(snippet: string, city: string): string
  {
    var cut := if |snippet| > AddressLimit then snippet[..AddressLimit] + Ellipsis else snippet;
    if cut == "" then CityAddress(city) else cut
  }

  /** The record pushed for block `b` at position `index`. */
  function GoogleListing(service: string, city: string, b: ResultBlock, index: nat, d: Draws): Listing
  {
    var title := Trim(b.titleText);
    var snippet := Trim(b.snippetText);
    var extracted := ExtractPhoneNumber(snippet);
    var distance := 5 + d.distance % 101;
    Listing(
      id := MakeId("scraped-", index, d.now),
      name := title,
      service := service,
      city := city,
      phone := if extracted != "" then extracted else PlaceholderPhone(d.phone),
      address := SnippetAddress(snippet, city),
      rating := 30 + d.rating % 21,
      reviews := 20 + d.reviews % 200,
      isAvailable24x7 := d.open24,
      distance := distance,
      estimatedTime := TravelTime(distance, 5),
      verified := d.verified,
      description := if snippet != "" then snippet
                     else "Professional " + Lower(service) + " services in " + city + ". Contact for immediate assistance.",
      mapUrl := if StartsWith(b.href, "http") then Some(b.href) else None,
      source := SourceTag)
  }

  function GoogleBuilder(service: string, city: string, draw: nat -> Draws): (ResultBlock, nat) -> Listing
  {
    (b: ResultBlock, j: nat) => GoogleListing(service, city, b, j, draw(j))
  }

  /** What the adapter returns: nothing when the page failed, else the records
      of the accepted blocks in block order, cut to five. */
  function GoogleResults(service: string, city: string, page: Option<seq<ResultBlock>>, draw: nat -> Draws): seq<Listing>
  {
    match page
    case None => []
    case Some(blocks) => Cap(Collected(blocks, KeepsTitle, GoogleBuilder(service, city, draw), 0), MaxResults)
  }

  /** The `.each` loop: stop once five records are in, skip short titles. */
  method ScrapeGoogleSearch(service: string, city: string, page: Option<seq<ResultBlock>>, draw: nat -> Draws)
    returns (results: seq<Listing>)
    ensures results == GoogleResults(service, city, page, draw)
  {
    match page
    case None =>
      results := [];
    case Some(blocks) =>
      results := CollectCapped(blocks, KeepsTitle, GoogleBuilder(service, city, draw), MaxResults);
  }

  /** The address is the snippet, cut to 100 characters plus "..." exactly
      when it is longer, or `<city>, India` without a snippet. */
  lemma SnippetAddressFacts(snippet: string, city: string)
    ensures var a := SnippetAddress(snippet, city);
      && (|snippet| > AddressLimit ==> a == snippet[..AddressLimit] + Ellipsis)
      && (0 < |snippet| <= AddressLimit ==> a == snippet)
      && (snippet == "" ==> a == CityAddress(city))
      && (snippet != "" ==> |a| <= AddressLimit + |Ellipsis|)
  {
  }

  /** One record: the trimmed title, of at least three characters; the
      address is the snippet, cut to 100 characters plus "..." exactly when it
      is longer, or `<city>, India` without a snippet; the description is the
      snippet, or without one a sentence naming the lower-cased service and
      the city; a map link exactly when the first link is absolute. */
  lemma GoogleListingFacts(service: string, city: string, b: ResultBlock, index: nat, d: Draws)
    requires KeepsTitle(b)
    ensures var l := GoogleListing(service, city, b, index, d);
      var snippet := Trim(b.snippetText);
      && l.name == Trim(b.titleText) && |l.name| >= MinTitleLength
      && (|snippet| > AddressLimit ==> l.address == snippet[..AddressLimit] + Ellipsis)
      && (0 < |snippet| <= AddressLimit ==> l.address == snippet)
      && (snippet == "" ==> l.address == CityAddress(city))
      && (snippet != "" ==> |l.address| <= AddressLimit + |Ellipsis|)
      && l.address != ""
      && (snippet != "" ==> l.description == snippet)
      && (snippet == "" ==> l.description == "Professional " + Lower(service) + " services in " + city + ". Contact for immediate assistance.")
      && (l.mapUrl.Some? <==> StartsWith(b.href, "http"))
      && (l.mapUrl.Some? ==> l.mapUrl.value == b.href)
      && l.service == service && l.city == city
      && l.source == SourceTag
  {
    SnippetAddressFacts(Trim(b.snippetText), city);
  }

  /** The phone is the first number in the snippet when it holds one, and
      otherwise a synthesized placeholder; so it is never empty. */
  lemma GoogleListingPhone(service: string, city: string, b: ResultBlock, index: nat, d: Draws)
    ensures var l := GoogleListing(service, city, b, index, d);
      var found := ExtractPhoneNumber(Trim(b.snippetText));
      && (found != "" ==> l.phone == found && MatchesPattern(l.phone))
      && (found == "" ==> l.phone == PlaceholderPhone(d.phone) && IsPlaceholderPhone(l.phone))
      && l.phone != ""
  {
    var found := ExtractPhoneNumber(Trim(b.snippetText));
    ExtractPhoneNumberMatches(Trim(b.snippetText));
    PhoneChoiceFacts(found, d.phone);
  }

  /** The numbers of one record lie in the ranges the draws allow: rating
      3.0-5.0, 20-219 reviews, 0.5-10.5 km, and a travel time of three minutes
      per whole kilometre plus five, so 5-35 minutes. */
  lemma GoogleListingNumbers(service: string, city: string, b: ResultBlock, index: nat, d: Draws)
    ensures 30 <= GoogleListing(service, city, b, index, d).rating <= 50
    ensures 20 <= GoogleListing(service, city, b, index, d).reviews < 220
    ensures 5 <= GoogleListing(service, city, b, index, d).distance <= 105
    ensures GoogleListing(service, city, b, index, d).estimatedTime == TravelTime(GoogleListing(service, city, b, index, d).distance, 5)
    ensures 5 <= GoogleListing(service, city, b, index, d).estimatedTime <= 35
  {
    var dist := 5 + d.distance % 101;
    var time := TravelTime(dist, 5);
    assert 5 <= time <= 35 by {
      TravelTimeBounds(dist, 5, 5, 105);
    }
    var l := GoogleListing(service, city, b, index, d);
    assert l.distance == dist && l.estimatedTime == time;
  }

  /** A record built from a block with a usable title answers the query. */
  lemma GoogleListingAnswers(service: string, city: string, b: ResultBlock, index: nat, d: Draws)
    requires KeepsTitle(b)
    ensures var l := GoogleListing(service, city, b, index, d);
      l.source == SourceTag && |l.name| >= MinTitleLength && Answers(l, service, city)
  {
    GoogleListingFacts(service, city, b, index, d);
    GoogleListingPhone(service, city, b, index, d);
    GoogleListingNumbers(service, city, b, index, d);
  }

  /** The adapter returns at most five records, all tagged as web-search
      results; the `k`-th is built from the `k`-th block with a usable title,
      so records follow block order and every usable block up to the fifth
      one is used. */
  lemma GoogleResultsSelection(service: string, city: string, blocks: seq<ResultBlock>, draw: nat -> Draws)
    ensures var r := GoogleResults(service, city, Some(blocks), draw);
      var ps := KeptPositions(blocks, KeepsTitle, 0);
      && |r| == (if |ps| <= MaxResults then |ps| else MaxResults)
      && forall k :: 0 <= k < |r| ==> ps[k] < |blocks| && r[k] == GoogleListing(service, city, blocks[ps[k]], ps[k], draw(ps[k]))
  {
    CollectedAt(blocks, KeepsTitle, GoogleBuilder(service, city, draw), 0);
  }

  /** Every record the adapter returns, failed page or not, carries the
      web-search tag and a title of at least three characters, and answers
      the query. */
  lemma GoogleResultsTagged(service: string, city: string, page: Option<seq<ResultBlock>>, draw: nat -> Draws)
    ensures |GoogleResults(service, city, page, draw)| <= MaxResults
    ensures forall k :: 0 <= k < |GoogleResults(service, city, page, draw)| ==>
      && GoogleResults(service, city, page, draw)[k].source == SourceTag
      && |GoogleResults(service, city, page, draw)[k].name| >= MinTitleLength
      && Answers(GoogleResults(service, city, page, draw)[k], service, city)
  {
    if page.Some? {
      var blocks := page.value;
      var build := GoogleBuilder(service, city, draw);
      var prop := (l: Listing) => l.source == SourceTag && |l.name| >= MinTitleLength && Answers(l, service, city);
      forall j | 0 <= j < |blocks| && KeepsTitle(blocks[j]) ensures prop(build(blocks[j], j)) {
        assert build(blocks[j], j) == GoogleListing(service, city, blocks[j], j, draw(j));
        GoogleListingAnswers(service, city, blocks[j], j, draw(j));
      }
      CollectedAll(blocks, KeepsTitle, build, prop, 0);
    }
  }
}

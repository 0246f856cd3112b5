/** `scrapeJustDial`: turns the `.resultbox` blocks of a directory page into at
    most three listings. The request goes to the city's directory code and the
    service slug; fetching and parsing the page are not modelled: the page
    arrives as its parsed blocks, or as `None` when the request or the parse
    failed (the adapter's `catch` then answers with no listings). */
module JustDial {
  import opened Text
  import opened Phone
  import opened Listings
  import opened Sequences
  import opened Blocks
  import opened Lookups

  /** One `.resultbox` block: the text of its `.fn`, `.adr` and `.contact-info`
      descendants and the text of the whole block. */
  datatype ResultBox = ResultBox(nameText: string, addressText: string, contactText: string, wholeText: string)

  const MaxResults: nat := 3
  const SourceTag: string := "JustDial"

  const DirectoryHost: string := "https://www.justdial.com/"

  /** The page the adapter requests: the city's directory code, the service
      slug, and `nct-` followed by the code again. */
  function JustDialUrl(service: string, city: string): string
  {
    var code := CityCode(city);
    DirectoryHost + code + "/" + Slug(service) + "/nct-" + code
  }

  /** The request path is the lower-cased city, a white-space-free lower-case
      slug of the service, and the lower-cased city again; so a one-word
      city and service give a URL without white space. */
  lemma JustDialUrlFacts(service: string, city: string)
    ensures JustDialUrl(service, city) == DirectoryHost + Lower(city) + "/" + Slug(service) + "/nct-" + Lower(city)
    ensures NoSpace(Slug(service))
    ensures NoSpace(city) && NoSpace(service) ==> NoSpace(JustDialUrl(service, city))
  {
    SlugShape(service);
    if NoSpace(city) && NoSpace(service) {
      var code := Lower(city);
      LowerNoSpace(city);
      assert NoSpace(DirectoryHost) by {
        forall i | 0 <= i < |DirectoryHost| ensures !IsSpace(DirectoryHost[i]) {
        }
      }
      assert NoSpace("/") && NoSpace("/nct-");
      NoSpaceConcat(DirectoryHost, code);
      NoSpaceConcat(DirectoryHost + code, "/");
      NoSpaceConcat(DirectoryHost + code + "/", Slug(service));
      NoSpaceConcat(DirectoryHost + code + "/" + Slug(service), "/nct-");
      NoSpaceConcat(DirectoryHost + code + "/" + Slug(service) + "/nct-", code);
    }
  }

  /** A block is used when its cleaned name is not empty. */
  predicate KeepsName(b: ResultBox)
  {
    CleanText(b.nameText) != ""
  }

  /** The first number in the contact text, else the first in the whole
      block, else a placeholder. */
  function BoxPhone(b: ResultBox, draw: nat): string
  {
    var contact := ExtractPhoneNumber(b.contactText);
    if contact != "" then contact
    else
      var anywhere := ExtractPhoneNumber(b.wholeText);
      if anywhere != "" then anywhere else PlaceholderPhone(draw)
  }

  /** The record pushed for block `b` at position `index`. */
  function JustDialListing(service: string, city: string, b: ResultBox, index: nat, d: Draws): Listing
  {
    var address := CleanText(b.addressText);
    var distance := 10 + d.distance % 81;
    Listing(
      id := MakeId("justdial-", index, d.now),
      name := CleanText(b.nameText),
      service := service,
      city := city,
      phone := BoxPhone(b, d.phone),
      address := if address != "" then address else CityAddress(city),
      rating := 30 + d.rating % 21,
      reviews := 15 + d.reviews % 150,
      isAvailable24x7 := d.open24,
      distance := distance,
      estimatedTime := TravelTime(distance, 10),
      verified := true,
      description := "Verified " + Lower(service) + " provider from JustDial. Professional medical services available.",
      mapUrl := None,
      source := SourceTag)
  }

  function JustDialBuilder(service: string, city: string, draw: nat -> Draws): (ResultBox, nat) -> Listing
  {
    (b: ResultBox, j: nat) => JustDialListing(service, city, b, j, draw(j))
  }

  /** What the adapter returns: nothing when the page failed, else the records
      of the accepted blocks in block order, cut to three. */
  function JustDialResults(service: string, city: string, page: Option<seq<ResultBox>>, draw: nat -> Draws): seq<Listing>
  {
    match page
    case None => []
    case Some(blocks) => Cap(Collected(blocks, KeepsName, JustDialBuilder(service, city, draw), 0), MaxResults)
  }

  /** The `.each` loop: stop once three records are in, skip nameless blocks. */
  method ScrapeJustDial(service: string, city: string, page: Option<seq<ResultBox>>, draw: nat -> Draws)
    returns (results: seq<Listing>)
    ensures results == JustDialResults(service, city, page, draw)
  {
    match page
    case None =>
      results := [];
    case Some(blocks) =>
      results := CollectCapped(blocks, KeepsName, JustDialBuilder(service, city, draw), MaxResults);
  }

  /** The phone prefers a number in the contact text over one elsewhere in the
      block, and falls back to a placeholder only when the block holds none;
      it is never empty. */
  lemma BoxPhoneFacts(b: ResultBox, draw: nat)
    ensures var p := BoxPhone(b, draw);
      && p != ""
      && (MatchesPattern(p) || IsPlaceholderPhone(p))
      && (ExtractPhoneNumber(b.contactText) != "" ==> p == ExtractPhoneNumber(b.contactText))
      && (ExtractPhoneNumber(b.contactText) == "" && ExtractPhoneNumber(b.wholeText) != "" ==> p == ExtractPhoneNumber(b.wholeText))
      && (ExtractPhoneNumber(b.contactText) == "" && ExtractPhoneNumber(b.wholeText) == "" ==> p == PlaceholderPhone(draw))
  {
    ExtractPhoneNumberMatches(b.contactText);
    ExtractPhoneNumberMatches(b.wholeText);
  }

  /** One record: a non-empty name and an address, both with white space
      collapsed and trimmed (the address `<city>, India` when the block has
      none); the phone as above; always marked verified; the fixed sentence
      naming the lower-cased service as description; no map link. */
  lemma JustDialListingFacts(service: string, city: string, b: ResultBox, index: nat, d: Draws)
    requires KeepsName(b)
    ensures var l := JustDialListing(service, city, b, index, d);
      && l.name == CleanText(b.nameText) && l.name != "" && IsClean(l.name)
      && (CleanText(b.addressText) != "" ==> l.address == CleanText(b.addressText) && IsClean(l.address))
      && (CleanText(b.addressText) == "" ==> l.address == CityAddress(city))
      && l.phone == BoxPhone(b, d.phone) && l.phone != ""
      && l.verified
      && l.description == "Verified " + Lower(service) + " provider from JustDial. Professional medical services available."
      && l.mapUrl == None
      && l.service == service && l.city == city
      && l.source == SourceTag
  {
    CleanTextIsClean(b.nameText);
    CleanTextIsClean(b.addressText);
    BoxPhoneFacts(b, d.phone);
  }

  /** The numbers of one record lie in the ranges the draws allow: rating
      3.0-5.0, 15-164 reviews, 1.0-9.0 km, and a travel time of three minutes
      per whole kilometre plus ten, so 13-37 minutes. */
  lemma JustDialListingNumbers(service: string, city: string, b: ResultBox, index: nat, d: Draws)
    ensures 30 <= JustDialListing(service, city, b, index, d).rating <= 50
    ensures 15 <= JustDialListing(service, city, b, index, d).reviews < 165
    ensures 10 <= JustDialListing(service, city, b, index, d).distance <= 90
    ensures JustDialListing(service, city, b, index, d).estimatedTime == TravelTime(JustDialListing(service, city, b, index, d).distance, 10)
    ensures 13 <= JustDialListing(service, city, b, index, d).estimatedTime <= 37
  {
    var dist := 10 + d.distance % 81;
    var time := TravelTime(dist, 10);
    assert 13 <= time <= 37 by {
      TravelTimeBounds(dist, 10, 10, 90);
    }
    var l := JustDialListing(service, city, b, index, d);
    assert l.distance == dist && l.estimatedTime == time;
  }

  /** A record built from a block with a name answers the query. */
  lemma JustDialListingAnswers(service: string, city: string, b: ResultBox, index: nat, d: Draws)
    requires KeepsName(b)
    ensures var l := JustDialListing(service, city, b, index, d);
      l.source == SourceTag && l.name != "" && l.verified && Answers(l, service, city)
  {
    JustDialListingFacts(service, city, b, index, d);
    JustDialListingNumbers(service, city, b, index, d);
  }

  /** The adapter returns at most three records; the `k`-th is built from the
      `k`-th block with a name, so records follow block order and every named
      block up to the third one is used. */
  lemma JustDialResultsSelection(service: string, city: string, blocks: seq<ResultBox>, draw: nat -> Draws)
    ensures var r := JustDialResults(service, city, Some(blocks), draw);
      var ps := KeptPositions(blocks, KeepsName, 0);
      && |r| == (if |ps| <= MaxResults then |ps| else MaxResults)
      && forall k :: 0 <= k < |r| ==> ps[k] < |blocks| && r[k] == JustDialListing(service, city, blocks[ps[k]], ps[k], draw(ps[k]))
  {
    CollectedAt(blocks, KeepsName, JustDialBuilder(service, city, draw), 0);
  }

  /** Every record the adapter returns, failed page or not, carries the
      directory tag, a non-empty name and the verified mark, and answers the
      query. */
  lemma JustDialResultsTagged(service: string, city: string, page: Option<seq<ResultBox>>, draw: nat -> Draws)
    ensures |JustDialResults(service, city, page, draw)| <= MaxResults
    ensures forall k :: 0 <= k < |JustDialResults(service, city, page, draw)| ==>
      && JustDialResults(service, city, page, draw)[k].source == SourceTag
      && JustDialResults(service, city, page, draw)[k].name != ""
      && JustDialResults(service, city, page, draw)[k].verified
      && Answers(JustDialResults(service, city, page, draw)[k], service, city)
  {
    if page.Some? {
      var blocks := page.value;
      var build := JustDialBuilder(service, city, draw);
      var prop := (l: Listing) => l.source == SourceTag && l.name != "" && l.verified && Answers(l, service, city);
      forall j | 0 <= j < |blocks| && KeepsName(blocks[j]) ensures prop(build(blocks[j], j)) {
        assert build(blocks[j], j) == JustDialListing(service, city, blocks[j], j, draw(j));
        JustDialListingAnswers(service, city, blocks[j], j, draw(j));
      }
      CollectedAll(blocks, KeepsName, build, prop, 0);
    }
  }
}

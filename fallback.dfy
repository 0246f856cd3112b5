/** `generateEnhancedMockData`: the five synthetic listings used when no live
    source answered, and as a supplement when some did. */
module EnhancedDirectory {
  import opened Text
  import opened Listings
  import opened Lookups

  /** A provider template: a name and a sentence describing it. */
  datatype Template = Template(nameTemplate: string, description: string)

  const Templates: seq<Template> := [
    Template("Apollo Emergency Services", "Premium medical services with 24/7 availability and trained professionals."),
    Template("LifeCare Medical Center", "Comprehensive healthcare solutions with emergency response team."),
    Template("MedAssist Healthcare", "Quick response medical assistance with verified professionals."),
    Template("Emergency Care Plus", "Specialized emergency medical services with modern equipment."),
    Template("HealthFirst Medical", "Trusted medical care provider with excellent track record.")]

  const SourceTag: string := "Enhanced Directory"

  /** `<template> - <city>`. */
  function MockName(t: Template, city: string): string
  {
    t.nameTemplate + " - " + city
  }

  /** The record made from template `t` at position `index`. */
  function MockListing(service: string, city: string, t: Template, index: nat, d: Draws): Listing
  {
    Listing(
      id := MakeId("enhanced-mock-", index, d.now),
      name := MockName(t, city),
      service := service,
      city := city,
      phone := PlaceholderPhone(d.phone),
      address := Area(city, d.area) + ", " + city + ", India",
      rating := 35 + d.rating % 16,
      reviews := 50 + d.reviews % 300,
      isAvailable24x7 := d.open24,
      distance := 8 + d.distance % 121,
      estimatedTime := 10 + d.time % 35,
      verified := d.verified,
      description := t.description + " Specializing in " + Lower(service) + " services.",
      mapUrl := None,
      source := SourceTag)
  }

  /** `mockProviders.map(...)`: one record per template, in template order;
      `draw(k)` supplies the random draws of the `k`-th record. */
  function GenerateEnhancedMockData(service: string, city: string, draw: nat -> Draws): (r: seq<Listing>)
    ensures |r| == |Templates|
  {
    seq(|Templates|, k requires 0 <= k < |Templates| => MockListing(service, city, Templates[k], k, draw(k)))
  }

  /** The `k`-th record is the one built from the `k`-th template. */
  lemma MockAt(service: string, city: string, draw: nat -> Draws, k: nat)
    requires k < |Templates|
    ensures GenerateEnhancedMockData(service, city, draw)[k] == MockListing(service, city, Templates[k], k, draw(k))
  {
  }

  /** The `k`-th record carries the `k`-th template's name. */
  lemma MockNameAt(service: string, city: string, draw: nat -> Draws, k: nat)
    requires k < |Templates|
    ensures GenerateEnhancedMockData(service, city, draw)[k].name == MockName(Templates[k], city)
  {
    MockAt(service, city, draw, k);
  }

  /** The five names are pairwise different whatever the city: each starts
      with its template's first letter, and those are A, L, M, E and H. */
  lemma MockNamesDistinct(service: string, city: string, draw: nat -> Draws)
    ensures DistinctNames(GenerateEnhancedMockData(service, city, draw))
  {
    var r := GenerateEnhancedMockData(service, city, draw);
    var initials := "ALMEH";
    forall i, j | 0 <= i < j < |r|
      ensures r[i].name != r[j].name
    {
      MockNameAt(service, city, draw, i);
      MockNameAt(service, city, draw, j);
      assert MockName(Templates[i], city)[0] == initials[i];
      assert MockName(Templates[j], city)[0] == initials[j];
    }
  }

  /** Every field of a record made from template `t` with draws `d`: the name
      `<template> - <city>`; the query's service and city; a synthesized
      phone; the address `<area of the city>, <city>, India`; rating 3.5-5.0,
      50-349 reviews, 0.8-12.8 km and 10-44 minutes; the template's sentence
      followed by the lower-cased service; no map link; the fallback tag. */
  predicate IsMockListing(l: Listing, service: string, city: string, t: Template, d: Draws)
  {
    && l.name == t.nameTemplate + " - " + city
    && l.service == service && l.city == city
    && IsPlaceholderPhone(l.phone)
    && l.address == Area(city, d.area) + ", " + city + ", India"
    && 35 <= l.rating <= 50
    && 50 <= l.reviews < 350
    && 8 <= l.distance <= 128
    && 10 <= l.estimatedTime < 45
    && l.description == t.description + " Specializing in " + Lower(service) + " services."
    && l.mapUrl == None
    && l.source == SourceTag
  }

  /** One fallback record has every field described above, and so answers the
      query; its area is one of the city's areas. */
  lemma MockListingFacts(service: string, city: string, t: Template, index: nat, d: Draws)
    ensures IsMockListing(MockListing(service, city, t, index, d), service, city, t, d)
    ensures Answers(MockListing(service, city, t, index, d), service, city)
    ensures Area(city, d.area) in CityAreas(city)
  {
    var l := MockListing(service, city, t, index, d);
    assert l.phone == PlaceholderPhone(d.phone);
  }

  /** Every record of the fallback list is built from its own template and
      its own draws as above, and answers the query. */
  lemma MockDataFacts(service: string, city: string, draw: nat -> Draws)
    ensures forall k :: 0 <= k < |GenerateEnhancedMockData(service, city, draw)| ==>
      IsMockListing(GenerateEnhancedMockData(service, city, draw)[k], service, city, Templates[k], draw(k))
    ensures forall k :: 0 <= k < |GenerateEnhancedMockData(service, city, draw)| ==>
      Answers(GenerateEnhancedMockData(service, city, draw)[k], service, city)
  {
    var r := GenerateEnhancedMockData(service, city, draw);
    forall k | 0 <= k < |r|
      ensures IsMockListing(r[k], service, city, Templates[k], draw(k))
      ensures Answers(r[k], service, city)
    {
      MockAt(service, city, draw, k);
      MockListingFacts(service, city, Templates[k], k, draw(k));
    }
  }

  /** Every fallback name ends in " - " and the city. */
  lemma MockNamesEndWithCity(service: string, city: string, draw: nat -> Draws)
    ensures forall k :: 0 <= k < |GenerateEnhancedMockData(service, city, draw)| ==>
      var n := GenerateEnhancedMockData(service, city, draw)[k].name;
      |n| >= |city| + 3 && n[|n| - |city| - 3..] == " - " + city
  {
    var r := GenerateEnhancedMockData(service, city, draw);
    forall k | 0 <= k < |r|
      ensures |r[k].name| >= |city| + 3 && r[k].name[|r[k].name| - |city| - 3..] == " - " + city
    {
      var t := Templates[k].nameTemplate;
      MockNameAt(service, city, draw, k);
      assert r[k].name == t + (" - " + city);
    }
  }
}

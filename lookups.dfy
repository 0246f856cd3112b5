/** The two city tables of the server: the directory's city codes
    (`getCityCode`) and the neighbourhoods used for synthetic addresses
    (`getRandomArea`). Both are plain object literals looked up with
    `table[key]`, so a key that names a member of `Object.prototype` finds
    that inherited member instead of missing; the as-written lookups below
    model this, the corrected ones read own entries only. */
module Lookups {
  import opened Text
  import opened Listings

  const CityCodeTable: map<string, string> := map[
    "mumbai" := "mumbai", "delhi" := "delhi", "bangalore" := "bangalore",
    "pune" := "pune", "chennai" := "chennai", "hyderabad" := "hyderabad",
    "kolkata" := "kolkata", "ahmedabad" := "ahmedabad", "jaipur" := "jaipur",
    "lucknow" := "lucknow"]

  const AreaTable: map<string, seq<string>> := map[
    "mumbai" := ["Andheri", "Bandra", "Borivali", "Thane", "Powai", "Goregaon"],
    "pune" := ["Hadapsar", "Kothrud", "Shivajinagar", "Camp", "Aundh", "Wakad"],
    "delhi" := ["Connaught Place", "Karol Bagh", "Lajpat Nagar", "Rohini", "Dwarka"],
    "bangalore" := ["Koramangala", "Indiranagar", "Whitefield", "Electronic City", "Jayanagar"],
    "chennai" := ["T Nagar", "Anna Nagar", "Adyar", "Velachery", "Porur"]]

  /** The areas used for a city that is not in the table. */
  const CompassAreas: seq<string> := ["Central", "East", "West", "North", "South"]

  /** The members every object literal inherits from `Object.prototype`. */
  const PrototypeMembers: seq<string> := [
    "constructor", "__defineGetter__", "__defineSetter__", "hasOwnProperty",
    "__lookupGetter__", "__lookupSetter__", "isPrototypeOf", "propertyIsEnumerable",
    "toString", "valueOf", "__proto__", "toLocaleString"]

  /** What `getCityCode` can return: a string from the table or the city itself,
      or an inherited member (a function, or the prototype object for `__proto__`). */
  datatype CodeValue = CodeText(text: string) | Inherited(member: string)

  /** `getCityCode` with an own-entry lookup: the table entry for the
      lower-cased city, else the lower-cased city. Every entry maps a name to
      itself, so the code is always the lower-cased city. */
  function CityCode(city: string): (code: string)
    ensures code == Lower(city)
  {
    var key := Lower(city);
    if key in CityCodeTable && CityCodeTable[key] != "" then CityCodeTable[key] else key
  }

  /** `getCityCode` as written: `cityCodes[key] || key` also finds inherited
      members, all of which are truthy. */
  function CityCodeAsWritten(city: string): CodeValue
  {
    var key := Lower(city);
    if key in CityCodeTable && CityCodeTable[key] != "" then CodeText(CityCodeTable[key])
    else if key in PrototypeMembers then Inherited(key)
    else CodeText(key)
  }

  /** Of the inherited member names only `constructor` and `__proto__` are
      all lower case, so they are the only ones a lower-cased city can hit. */
  lemma LowerHitsTwoMembers(city: string)
    ensures Lower(city) in PrototypeMembers <==> Lower(city) == "constructor" || Lower(city) == "__proto__"
  {
    var key := Lower(city);
    forall k | 0 <= k < |PrototypeMembers| && k != 0 && k != 10
      ensures PrototypeMembers[k] != key
    {
      var m := PrototypeMembers[k];
      var j := if k == 3 then 3 else if k == 6 || k == 8 || k == 11 then 2 else if k == 9 then 5 else 8;
      assert IsUpper(m[j]);
    }
    assert PrototypeMembers[0] == "constructor" && PrototypeMembers[10] == "__proto__";
  }

  /** The as-written lookup agrees with the corrected one exactly when the
      lower-cased city is neither `constructor` nor `__proto__`. */
  lemma CityCodeAsWrittenAgrees(city: string)
    ensures CityCodeAsWritten(city) == CodeText(CityCode(city))
        <==> Lower(city) != "constructor" && Lower(city) != "__proto__"
  {
    LowerHitsTwoMembers(city);
  }

  /** The city "Constructor" gets the `Object` function as its directory code. */
  lemma CityCodeAsWrittenConstructor()
    ensures CityCodeAsWritten("Constructor") == Inherited("constructor")
  {
    assert Lower("Constructor") == "constructor";
    assert "constructor" in PrototypeMembers;
  }

  /** The areas a city's synthetic addresses are drawn from. */
  function CityAreas(city: string): (areas: seq<string>)
    ensures |areas| > 0
  {
    var key := Lower(city);
    if key in AreaTable && |AreaTable[key]| > 0 then AreaTable[key] else CompassAreas
  }

  /** `getRandomArea` with an own-entry lookup: the entry at
      `Math.floor(Math.random() * areas.length)`, which is some entry. */
  function Area(city: string, draw: nat): (a: string)
    ensures a in CityAreas(city)
    ensures a != ""
  {
    var areas := CityAreas(city);
    assert forall k :: 0 <= k < |CompassAreas| ==> CompassAreas[k] != "";
    assert forall key :: key in AreaTable ==> forall k :: 0 <= k < |AreaTable[key]| ==> AreaTable[key][k] != "";
    areas[draw % |areas|]
  }

  /** `getRandomArea` as written. For an inherited member the "list" is a
      function (of length 0 or 1) or the prototype object (no length); indexing
      it yields `undefined`, which the address template prints as "undefined". */
  function AreaAsWritten(city: string, draw: nat): string
  {
    var key := Lower(city);
    if key in AreaTable && |AreaTable[key]| > 0 then Area(city, draw)
    else if key in PrototypeMembers then "undefined"
    else Area(city, draw)
  }

  /** The as-written area agrees with the corrected one except for `constructor`
      and `__proto__`, where it is "undefined", which is no area at all. */
  lemma AreaAsWrittenAgrees(city: string, draw: nat)
    ensures Lower(city) != "constructor" && Lower(city) != "__proto__" ==> AreaAsWritten(city, draw) == Area(city, draw)
    ensures Lower(city) == "constructor" || Lower(city) == "__proto__" ==> AreaAsWritten(city, draw) == "undefined" && "undefined" !in CityAreas(city)
  {
    LowerHitsTwoMembers(city);
    assert "undefined" !in CompassAreas;
  }

  /** The city "Constructor" gets a synthetic address in the area "undefined". */
  lemma AreaAsWrittenConstructor(draw: nat)
    ensures AreaAsWritten("Constructor", draw) == "undefined"
  {
    assert Lower("Constructor") == "constructor";
    assert "constructor" !in AreaTable;
    assert "constructor" in PrototypeMembers;
  }
}

/** The provider record that the server builds and the results page shows,
    the random draws that fill its synthetic fields, and facts about lists of
    records that several stages share. */
module Listings {
  import opened Text

  datatype Option<T> = None | Some(value: T)

  /** `ScrapedServiceProvider` on the server, `ServiceProvider` on the page.
      The numeric strings are kept as the integers they print:
      `rating` in tenths, `distance` in tenths of a kilometre ("X.Y km"),
      `estimatedTime` in minutes ("N mins"). */
  datatype Listing = Listing(
    id: string,
    name: string,
    service: string,
    city: string,
    phone: string,
    address: string,
    rating: nat,
    reviews: nat,
    isAvailable24x7: bool,
    distance: nat,
    estimatedTime: nat,
    verified: bool,
    description: string,
    mapUrl: Option<string>,
    source: string)

  /** What `Math.random()` and `Date.now()` supply while one record is built.
      Each number stands for one draw; the builders reduce it into the range
      that the source's arithmetic on that draw produces. */
  datatype Draws = Draws(
    phone: nat,
    rating: nat,
    reviews: nat,
    distance: nat,
    time: nat,
    area: nat,
    open24: bool,
    verified: bool,
    now: nat)

  const PhonePrefix: string := "+91-"

  /** A synthesized number: `+91-` and a ten-digit number (no leading zero). */
  predicate IsPlaceholderPhone(p: string)
  {
    && |p| == 14
    && p[..4] == PhonePrefix
    && (forall k :: 4 <= k < 14 ==> IsDigit(p[k]))
    && Pow10(9) <= DigitsValue(p[4..]) < Pow10(10)
  }

  /** `+91-` followed by `Math.floor(Math.random() * 9000000000) + 1000000000`. */
  function PlaceholderPhone(draw: nat): (p: string)
    ensures IsPlaceholderPhone(p)
  {
    var n := 1000000000 + draw % 9000000000;
    assert Pow10(9) == 1000000000 && Pow10(10) == 10000000000;
    NatToStringRoundTrip(n, 10);
    var p := PhonePrefix + NatToString(n);
    assert p[4..] == NatToString(n);
    p
  }

  /** `${city}, India`, the address used when none was found. */
  function CityAddress(city: string): string
  {
    city + ", India"
  }

  /** `scraped-3-1700000000000` and the like: a prefix, the position, the clock. */
  function MakeId(prefix: string, index: nat, now: nat): string
  {
    prefix + NatToString(index) + "-" + NatToString(now)
  }

  /** `Math.floor(parseInt(distance) * 3 + base)` for a distance printed as
      "X.Y": `parseInt` keeps only the whole kilometres X, so the time is three
      minutes per whole kilometre plus `base`. */
  function TravelTime(distance: nat, base: nat): nat
  {
    3 * (distance / 10) + base
  }

  /** The travel time grows with the distance, so distance bounds give time bounds. */
  lemma TravelTimeBounds(distance: nat, base: nat, lo: nat, hi: nat)
    requires lo <= distance <= hi
    ensures TravelTime(lo, base) <= TravelTime(distance, base) <= TravelTime(hi, base)
  {
    assert lo / 10 <= distance / 10 by {
      assert (lo / 10) * 10 <= lo;
    }
    assert distance / 10 <= hi / 10 by {
      assert (distance / 10) * 10 <= distance;
    }
  }

  /** What every record the server answers with promises: it echoes the
      query's service and city, its name, phone, address and description are
      not empty, and its rating lies between 3.0 and 5.0. */
  predicate Answers(l: Listing, service: string, city: string)
  {
    && l.service == service && l.city == city
    && l.name != "" && l.phone != "" && l.address != "" && l.description != ""
    && 30 <= l.rating <= 50
  }

  /** No two records share a name. */
  predicate DistinctNames(s: seq<Listing>)
  {
    forall i, j :: 0 <= i < j < |s| ==> s[i].name != s[j].name
  }

  function Names(s: seq<Listing>): set<string>
  {
    set k | 0 <= k < |s| :: s[k].name
  }

  /** How many records carry the provenance tag `tag`. */
  function CountSource(s: seq<Listing>, tag: string): nat
  {
    if s == [] then 0
    else (if s[0].source == tag then 1 else 0) + CountSource(s[1..], tag)
  }

  lemma {:induction false} CountSourceAppend(a: seq<Listing>, b: seq<Listing>, tag: string)
    ensures CountSource(a + b, tag) == CountSource(a, tag) + CountSource(b, tag)
    decreases |a|
  {
    if a == [] {
      assert a + b == b;
    } else {
      assert (a + b)[1..] == a[1..] + b;
      CountSourceAppend(a[1..], b, tag);
    }
  }

  /** A list counts at most its length, and none when no record carries the tag. */
  lemma {:induction false} CountSourceBounds(s: seq<Listing>, tag: string)
    ensures CountSource(s, tag) <= |s|
    ensures (forall k :: 0 <= k < |s| ==> s[k].source != tag) ==> CountSource(s, tag) == 0
    ensures (forall k :: 0 <= k < |s| ==> s[k].source == tag) ==> CountSource(s, tag) == |s|
  {
    if s != [] {
      CountSourceBounds(s[1..], tag);
    }
  }
}

/** Subsequences and the `slice(0, n)` cap. */
module Sequences {

  /** `a` is `b` with some elements left out, the rest in their order. */
  predicate IsSubseq<T(==)>(a: seq<T>, b: seq<T>)
    decreases |b|
  {
    if a == [] then true
    else if b == [] then false
    else (a[0] == b[0] && IsSubseq(a[1..], b[1..])) || IsSubseq(a, b[1..])
  }

  /** `s.slice(0, n)`. */
  function Cap<T>(s: seq<T>, n: nat): (r: seq<T>)
    ensures |r| == if |s| <= n then |s| else n
    ensures r == s[..|r|]
  {
    if |s| <= n then s else s[..n]
  }

  lemma {:induction false} SubseqOfSelf<T>(s: seq<T>)
    ensures IsSubseq(s, s)
    decreases |s|
  {
    if s != [] {
      SubseqOfSelf(s[1..]);
    }
  }

  lemma {:induction false} SubseqSkip<T>(a: seq<T>, b: seq<T>, x: T)
    requires IsSubseq(a, b)
    ensures IsSubseq(a, [x] + b)
  {
    if a != [] {
      assert ([x] + b)[1..] == b;
    }
  }

  lemma {:induction false} SubseqCons<T>(a: seq<T>, b: seq<T>, x: T)
    requires IsSubseq(a, b)
    ensures IsSubseq([x] + a, [x] + b)
  {
    assert ([x] + a)[1..] == a;
    assert ([x] + b)[1..] == b;
  }

  /** Every element of a subsequence is an element of the whole. */
  lemma {:induction false} SubseqMembers<T>(a: seq<T>, b: seq<T>)
    requires IsSubseq(a, b)
    ensures forall x :: x in a ==> x in b
    decreases |b|
  {
    if a != [] && b != [] {
      if a[0] == b[0] && IsSubseq(a[1..], b[1..]) {
        SubseqMembers(a[1..], b[1..]);
        forall x | x in a ensures x in b {
          if x != a[0] {
            assert x in a[1..];
          }
        }
      } else {
        SubseqMembers(a, b[1..]);
      }
    }
  }

  /** A prefix of a subsequence is a subsequence. */
  lemma {:induction false} SubseqPrefix<T>(a: seq<T>, b: seq<T>, n: nat)
    requires IsSubseq(a, b) && n <= |a|
    ensures IsSubseq(a[..n], b)
    decreases |b|
  {
    if n > 0 && b != [] {
      if a[0] == b[0] && IsSubseq(a[1..], b[1..]) {
        SubseqPrefix(a[1..], b[1..], n - 1);
        assert a[..n][1..] == a[1..][..n - 1];
      } else {
        SubseqPrefix(a, b[1..], n);
      }
    }
  }

  lemma {:induction false} SubseqAppend<T>(a: seq<T>, b: seq<T>, c: seq<T>)
    requires IsSubseq(a, b)
    ensures IsSubseq(a, b + c)
    decreases |b|
  {
    if a != [] && b != [] {
      assert (b + c)[1..] == b[1..] + c;
      if a[0] == b[0] && IsSubseq(a[1..], b[1..]) {
        SubseqAppend(a[1..], b[1..], c);
      } else {
        SubseqAppend(a, b[1..], c);
      }
    }
  }

  /** Cutting `a + b` to `n` gives `a` when `a` already has `n` elements or nothing follows it. */
  lemma CapPrefix<T>(a: seq<T>, b: seq<T>, n: nat)
    requires |a| == n || (|a| <= n && b == [])
    ensures Cap(a + b, n) == a
  {
    if b == [] {
      assert a + b == a;
    } else {
      assert (a + b)[..n] == a;
    }
  }
}

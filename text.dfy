/** Character and string helpers of the search pipeline: the white-space class,
    ASCII lower-casing, run replacement (`replace(/\s+/g, sep)`), `trim`,
    `cleanText`, the service slug, substring tests and decimal rendering. */
module Text {

  /** The characters that JavaScript's `\s` class and `String.prototype.trim`
      both treat as white space (WhiteSpace and LineTerminator). */
  predicate IsSpace(c: char)
  {
    || c == ' ' || c == '\t' || c == '\n' || c == '\r'
    || c == '\U{000B}' || c == '\U{000C}' || c == '\U{00A0}' || c == '\U{1680}'
    || ('\U{2000}' <= c <= '\U{200A}')
    || c == '\U{2028}' || c == '\U{2029}' || c == '\U{202F}' || c == '\U{205F}'
    || c == '\U{3000}' || c == '\U{FEFF}'
  }

  predicate NoSpace(s: string)
  {
    forall i :: 0 <= i < |s| ==> !IsSpace(s[i])
  }

  predicate IsUpper(c: char)
  {
    'A' <= c <= 'Z'
  }

  function LowerChar(c: char): (d: char)
    ensures !IsUpper(d)
    ensures IsSpace(d) <==> IsSpace(c)
  {
    if IsUpper(c) then (c as int + 32) as char else c
  }

  /** `toLowerCase`, on the ASCII letters. */
  function Lower(s: string): (r: string)
    ensures |r| == |s|
    ensures forall i :: 0 <= i < |r| ==> !IsUpper(r[i])
  {
    seq(|s|, i requires 0 <= i < |s| => LowerChar(s[i]))
  }

  /** Lower-casing neither adds nor removes white space. */
  lemma LowerNoSpace(s: string)
    ensures NoSpace(Lower(s)) <==> NoSpace(s)
  {
    forall i | 0 <= i < |s| ensures IsSpace(Lower(s)[i]) <==> IsSpace(s[i]) {
      assert Lower(s)[i] == LowerChar(s[i]);
    }
  }

  /** Text without white space joined to text without white space has none. */
  lemma NoSpaceConcat(a: string, b: string)
    requires NoSpace(a) && NoSpace(b)
    ensures NoSpace(a + b)
  {
    forall i | 0 <= i < |a + b| ensures !IsSpace((a + b)[i]) {
      if i < |a| {
        assert (a + b)[i] == a[i];
      } else {
        assert (a + b)[i] == b[i - |a|];
      }
    }
  }

  /** Drops the leading white space of `s` (`trimStart`). */
  function TrimStart(s: string): (r: string)
    ensures |r| <= |s| && r == s[|s| - |r|..]
    ensures r == [] || !IsSpace(r[0])
    ensures forall i :: 0 <= i < |s| - |r| ==> IsSpace(s[i])
  {
    if s == [] || !IsSpace(s[0]) then s else TrimStart(s[1..])
  }

  /** Drops the trailing white space of `s` (`trimEnd`). */
  function TrimEnd(s: string): (r: string)
    ensures |r| <= |s| && r == s[..|r|]
    ensures r == [] || !IsSpace(r[|r| - 1])
    ensures forall i :: |r| <= i < |s| ==> IsSpace(s[i])
  {
    if s == [] || !IsSpace(s[|s| - 1]) then s else TrimEnd(s[..|s| - 1])
  }

  /** `String.prototype.trim`. */
  function Trim(s: string): string
  {
    TrimEnd(TrimStart(s))
  }

  /** `s.replace(/\s+/g, sep)`: every maximal run of white space becomes the one
      character `sep`; everything else is kept in order. */
  function ReplaceRuns(s: string, sep: char): string
    decreases |s|
  {
    if s == [] then []
    else if IsSpace(s[0]) then [sep] + ReplaceRuns(TrimStart(s), sep)
    else [s[0]] + ReplaceRuns(s[1..], sep)
  }

  /** `cleanText`: collapse white-space runs to one blank, then trim. */
  function CleanText(s: string): string
  {
    Trim(ReplaceRuns(s, ' '))
  }

  /** The service slug of the directory URL: `service.toLowerCase().replace(/\s+/g, "-")`. */
  function Slug(service: string): string
  {
    ReplaceRuns(Lower(service), '-')
  }

  /** The only white space is the blank, and no two white-space characters touch. */
  predicate SingleSpaced(t: string)
  {
    && (forall i :: 0 <= i < |t| && IsSpace(t[i]) ==> t[i] == ' ')
    && (forall i :: 0 <= i < |t| - 1 ==> !IsSpace(t[i]) || !IsSpace(t[i + 1]))
  }

  /** What `cleanText` promises of its output. */
  predicate IsClean(t: string)
  {
    && SingleSpaced(t)
    && (t == [] || (!IsSpace(t[0]) && !IsSpace(t[|t| - 1])))
  }

  /** The replacement starts with `sep` exactly where the text starts with
      white space, and ends without white space where the text does. */
  lemma {:induction false} ReplaceRunsEnds(s: string, sep: char)
    ensures s != [] && !IsSpace(s[0]) ==> ReplaceRuns(s, sep) != [] && ReplaceRuns(s, sep)[0] == s[0]
    ensures s != [] && IsSpace(s[0]) ==> ReplaceRuns(s, sep) != [] && ReplaceRuns(s, sep)[0] == sep
    ensures s != [] && !IsSpace(s[|s| - 1]) ==> ReplaceRuns(s, sep) != [] && !IsSpace(ReplaceRuns(s, sep)[|ReplaceRuns(s, sep)| - 1])
    decreases |s|
  {
    if s == [] {
    } else if IsSpace(s[0]) {
      var t := TrimStart(s);
      ReplaceRunsEnds(t, sep);
      if t != [] {
        assert t[|t| - 1] == s[|s| - 1];
      }
    } else {
      ReplaceRunsEnds(s[1..], sep);
      if |s| > 1 {
        assert s[1..][|s[1..]| - 1] == s[|s| - 1];
      }
    }
  }

  /** In the replacement every white-space character is `sep`, and `sep` is
      never followed by white space. */
  lemma {:induction false} ReplaceRunsSpacing(s: string, sep: char)
    ensures forall i :: 0 <= i < |ReplaceRuns(s, sep)| && IsSpace(ReplaceRuns(s, sep)[i]) ==> ReplaceRuns(s, sep)[i] == sep
    ensures forall i :: 0 <= i < |ReplaceRuns(s, sep)| - 1 ==> ReplaceRuns(s, sep)[i] != sep || !IsSpace(ReplaceRuns(s, sep)[i + 1])
    decreases |s|
  {
    if s == [] {
    } else if IsSpace(s[0]) {
      var t := TrimStart(s);
      ReplaceRunsSpacing(t, sep);
      ReplaceRunsEnds(t, sep);
    } else {
      ReplaceRunsSpacing(s[1..], sep);
      ReplaceRunsEnds(s[1..], sep);
    }
  }

  lemma ReplaceRunsShape(s: string, sep: char)
    ensures forall i :: 0 <= i < |ReplaceRuns(s, sep)| && IsSpace(ReplaceRuns(s, sep)[i]) ==> ReplaceRuns(s, sep)[i] == sep
    ensures forall i :: 0 <= i < |ReplaceRuns(s, sep)| - 1 ==> ReplaceRuns(s, sep)[i] != sep || !IsSpace(ReplaceRuns(s, sep)[i + 1])
    ensures s != [] && !IsSpace(s[0]) ==> ReplaceRuns(s, sep) != [] && ReplaceRuns(s, sep)[0] == s[0]
    ensures s != [] && IsSpace(s[0]) ==> ReplaceRuns(s, sep) != [] && ReplaceRuns(s, sep)[0] == sep
    ensures s != [] && !IsSpace(s[|s| - 1]) ==> ReplaceRuns(s, sep) != [] && !IsSpace(ReplaceRuns(s, sep)[|ReplaceRuns(s, sep)| - 1])
  {
    ReplaceRunsSpacing(s, sep);
    ReplaceRunsEnds(s, sep);
  }

  /** A run-free string and its blank-separated runs come out of the replacement as they went in. */
  lemma {:induction false} ReplaceRunsSingleSpaced(s: string)
    ensures SingleSpaced(ReplaceRuns(s, ' '))
  {
    ReplaceRunsShape(s, ' ');
  }

  /** Text without white space is left alone. */
  lemma {:induction false} ReplaceRunsNoSpace(w: string, sep: char)
    requires NoSpace(w)
    ensures ReplaceRuns(w, sep) == w
    decreases |w|
  {
    if w != [] {
      ReplaceRunsNoSpace(w[1..], sep);
    }
  }

  /** A word, then a white-space run, then text that starts with no white space:
      the run becomes exactly one `sep`. With ReplaceRunsNoSpace this pins
      ReplaceRuns down on every string. */
  lemma {:induction false} ReplaceRunsSplit(w: string, run: string, rest: string, sep: char)
    requires NoSpace(w)
    requires run != [] && forall i :: 0 <= i < |run| ==> IsSpace(run[i])
    requires rest == [] || !IsSpace(rest[0])
    ensures ReplaceRuns(w + run + rest, sep) == w + [sep] + ReplaceRuns(rest, sep)
    decreases |w|
  {
    if w == [] {
      assert w + run + rest == run + rest;
      TrimStartRun(run, rest);
    } else {
      assert (w + run + rest)[1..] == w[1..] + run + rest;
      ReplaceRunsSplit(w[1..], run, rest, sep);
    }
  }

  lemma {:induction false} TrimStartRun(run: string, rest: string)
    requires forall i :: 0 <= i < |run| ==> IsSpace(run[i])
    requires rest == [] || !IsSpace(rest[0])
    ensures TrimStart(run + rest) == rest
    decreases |run|
  {
    if run != [] {
      assert (run + rest)[1..] == run[1..] + rest;
      TrimStartRun(run[1..], rest);
    } else {
      assert run + rest == rest;
    }
  }

  lemma TrimStartKeeps(s: string)
    requires s == [] || !IsSpace(s[0])
    ensures TrimStart(s) == s
  {
  }

  lemma TrimEndKeeps(s: string)
    requires s == [] || !IsSpace(s[|s| - 1])
    ensures TrimEnd(s) == s
  {
  }

  /** `cleanText` always returns clean text. */
  lemma CleanTextIsClean(s: string)
    ensures IsClean(CleanText(s))
  {
    ReplaceRunsSingleSpaced(s);
    TrimSingleSpaced(ReplaceRuns(s, ' '));
  }

  /** Trimming single-spaced text leaves clean text. */
  lemma TrimSingleSpaced(u: string)
    requires SingleSpaced(u)
    ensures IsClean(Trim(u))
  {
    var v := TrimStart(u);
    var w := TrimEnd(v);
    SingleSpacedSlice(u, |u| - |v|, |u|);
    SingleSpacedSlice(v, 0, |w|);
    if w != [] {
      assert w[0] == v[0];
    }
  }

  lemma SingleSpacedSlice(u: string, a: nat, b: nat)
    requires a <= b <= |u|
    requires SingleSpaced(u)
    ensures SingleSpaced(u[a..b])
  {
    var w := u[a..b];
    assert forall i :: 0 <= i < |w| ==> w[i] == u[a + i];
  }

  /** Single-spaced text survives the run replacement unchanged. */
  lemma {:induction false} ReplaceRunsOfSingleSpaced(t: string)
    requires SingleSpaced(t)
    ensures ReplaceRuns(t, ' ') == t
    decreases |t|
  {
    if t != [] {
      SingleSpacedSlice(t, 1, |t|);
      ReplaceRunsOfSingleSpaced(t[1..]);
      if IsSpace(t[0]) {
        assert t[0] == ' ';
        assert t[1..] == [] || !IsSpace(t[1..][0]);
        TrimStartKeeps(t[1..]);
        assert TrimStart(t) == TrimStart(t[1..]);
        assert ReplaceRuns(t, ' ') == [' '] + ReplaceRuns(t[1..], ' ');
      } else {
        assert ReplaceRuns(t, ' ') == [t[0]] + ReplaceRuns(t[1..], ' ');
      }
      assert t == [t[0]] + t[1..];
    }
  }

  /** The fixed points of `cleanText` are exactly the clean strings. */
  lemma CleanTextFixpoint(t: string)
    ensures CleanText(t) == t <==> IsClean(t)
  {
    if IsClean(t) {
      ReplaceRunsOfSingleSpaced(t);
      TrimStartKeeps(t);
      TrimEndKeeps(t);
    } else {
      CleanTextIsClean(t);
    }
  }

  /** `cleanText(cleanText(s)) == cleanText(s)`. */
  lemma CleanTextIdempotent(s: string)
    ensures CleanText(CleanText(s)) == CleanText(s)
  {
    CleanTextIsClean(s);
    CleanTextFixpoint(CleanText(s));
  }

  /** The slug holds no white space and no upper-case letter, and a slug of a
      name without white space is just its lower-case form. */
  lemma SlugShape(service: string)
    ensures NoSpace(Slug(service))
    ensures forall i :: 0 <= i < |Slug(service)| ==> !IsUpper(Slug(service)[i])
    ensures NoSpace(service) ==> Slug(service) == Lower(service)
  {
    var l := Lower(service);
    ReplaceRunsShape(l, '-');
    SlugNoUpper(l);
    if NoSpace(service) {
      ReplaceRunsNoSpace(l, '-');
    }
  }

  lemma {:induction false} SlugNoUpper(l: string)
    requires forall i :: 0 <= i < |l| ==> !IsUpper(l[i])
    ensures forall i :: 0 <= i < |ReplaceRuns(l, '-')| ==> !IsUpper(ReplaceRuns(l, '-')[i])
    decreases |l|
  {
    if l != [] {
      if IsSpace(l[0]) {
        SlugNoUpper(TrimStart(l));
      } else {
        SlugNoUpper(l[1..]);
      }
    }
  }

  /** `s.startsWith(p)`. */
  predicate StartsWith(s: string, p: string)
  {
    |p| <= |s| && s[..|p|] == p
  }

  /** `s.includes(t)`: `t` occurs in `s` at some position. */
  predicate Contains(s: string, t: string)
  {
    exists i :: 0 <= i <= |s| - |t| && OccursAt(s, t, i)
  }

  predicate OccursAt(s: string, t: string, i: nat)
  {
    i + |t| <= |s| && s[i..i + |t|] == t
  }

  function Pow10(k: nat): (p: nat)
    ensures p >= 1
  {
    if k == 0 then 1 else 10 * Pow10(k - 1)
  }

  predicate IsDigit(c: char)
  {
    '0' <= c <= '9'
  }

  function DigitChar(d: nat): (c: char)
    requires d < 10
    ensures IsDigit(c)
  {
    (48 + d) as char
  }

  /** Decimal rendering of a natural number, as a template string prints it. */
  function NatToString(n: nat): (r: string)
    ensures r != []
    ensures forall i :: 0 <= i < |r| ==> IsDigit(r[i])
  {
    if n < 10 then [DigitChar(n)] else NatToString(n / 10) + [DigitChar(n % 10)]
  }

  /** Reads back the decimal digits of `s`. */
  function DigitsValue(s: string): nat
    requires forall i :: 0 <= i < |s| ==> IsDigit(s[i])
  {
    if s == [] then 0
    else
      assert IsDigit(s[|s| - 1]);
      10 * DigitsValue(s[..|s| - 1]) + (s[|s| - 1] as int - 48)
  }

  /** Rendering then reading back gives the number; a number with `k` digits
      renders as `k` characters. */
  lemma {:induction false} NatToStringRoundTrip(n: nat, k: nat)
    requires (k >= 1 && Pow10(k - 1) <= n < Pow10(k)) || (k == 1 && n == 0)
    ensures DigitsValue(NatToString(n)) == n
    ensures |NatToString(n)| == k
  {
    if n >= 10 {
      assert Pow10(1) == 10;
      NatToStringRoundTrip(n / 10, k - 1);
      var r := NatToString(n);
      assert r[..|r| - 1] == NatToString(n / 10);
    }
  }
}

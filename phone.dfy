/** `extractPhoneNumber`: the first match of `(\+91[\-\s]?)?[6-9]\d{9}` in a text,
    or the empty string. The one pattern is coded by hand. */
module Phone {
  import opened Text
  import opened Listings

  const CountryCode: string := "+91"

  /** Ten characters at `i`: a digit 6-9 followed by nine digits. */
  predicate MobileAt(s: string, i: nat)
  {
    && i + 10 <= |s|
    && '6' <= s[i] <= '9'
    && forall k :: i + 1 <= k < i + 10 ==> IsDigit(s[k])
  }

  predicate IsMobile(m: string)
  {
    |m| == 10 && MobileAt(m, 0)
  }

  predicate IsSeparator(c: char)
  {
    c == '-' || IsSpace(c)
  }

  /** The strings the pattern matches as a whole: a mobile number, optionally
      preceded by `+91` and then optionally by one `-` or white-space character. */
  predicate MatchesPattern(t: string)
  {
    || IsMobile(t)
    || (|t| == 13 && t[..3] == CountryCode && IsMobile(t[3..]))
    || (|t| == 14 && t[..3] == CountryCode && IsSeparator(t[3]) && IsMobile(t[4..]))
  }

  predicate CountryCodeAt(s: string, i: nat)
  {
    i + 3 <= |s| && s[i..i + 3] == CountryCode
  }

  /** Length of the match a backtracking matcher makes at position `i`, 0 if none:
      the optional group is tried first, and inside it the optional separator;
      only when both fail is the bare number tried. */
  function MatchLength(s: string, i: nat): nat
  {
    if CountryCodeAt(s, i) && i + 3 < |s| && IsSeparator(s[i + 3]) && MobileAt(s, i + 4) then 14
    else if CountryCodeAt(s, i) && MobileAt(s, i + 3) then 13
    else if MobileAt(s, i) then 10
    else 0
  }

  /** The scan of `String.prototype.match`: the first position with a match wins. */
  function ExtractFrom(s: string, i: nat): string
    requires i <= |s|
    decreases |s| - i
  {
    if i == |s| then ""
    else if MatchLength(s, i) > 0 then s[i..i + MatchLength(s, i)]
    else ExtractFrom(s, i + 1)
  }

  function ExtractPhoneNumber(text: string): string
  {
    ExtractFrom(text, 0)
  }

  /** Some substring starting at `i` matches the pattern. */
  ghost predicate MatchStartsAt(s: string, i: nat)
  {
    exists j :: i <= j <= |s| && MatchesPattern(s[i..j])
  }

  lemma MobileSlice(s: string, i: nat)
    requires i + 10 <= |s|
    ensures IsMobile(s[i..i + 10]) <==> MobileAt(s, i)
  {
    var m := s[i..i + 10];
    assert forall k :: 0 <= k < 10 ==> m[k] == s[i + k];
  }

  /** What `MatchLength` finds is a match, and it is the longest one at `i`;
      it finds none exactly when no substring starting at `i` matches. */
  lemma MatchLengthCorrect(s: string, i: nat)
    requires i <= |s|
    ensures MatchLength(s, i) > 0 ==> i + MatchLength(s, i) <= |s| && MatchesPattern(s[i..i + MatchLength(s, i)])
    ensures forall j :: i <= j <= |s| && MatchesPattern(s[i..j]) ==> 0 < j - i <= MatchLength(s, i)
    ensures MatchLength(s, i) > 0 <==> MatchStartsAt(s, i)
  {
    var n := MatchLength(s, i);
    if n == 14 {
      var t := s[i..i + 14];
      assert t[..3] == s[i..i + 3];
      assert t[4..] == s[i + 4..i + 14];
      MobileSlice(s, i + 4);
      assert MatchesPattern(t);
    } else if n == 13 {
      var t := s[i..i + 13];
      assert t[..3] == s[i..i + 3];
      assert t[3..] == s[i + 3..i + 13];
      MobileSlice(s, i + 3);
      assert MatchesPattern(t);
    } else if n == 10 {
      MobileSlice(s, i);
    }
    forall j | i <= j <= |s| && MatchesPattern(s[i..j])
      ensures 0 < j - i <= n
    {
      var t := s[i..j];
      if |t| == 14 && t[..3] == CountryCode && IsSeparator(t[3]) && IsMobile(t[4..]) {
        assert s[i..i + 3] == t[..3];
        assert t[4..] == s[i + 4..i + 14];
        MobileSlice(s, i + 4);
      } else if |t| == 13 && t[..3] == CountryCode && IsMobile(t[3..]) {
        assert s[i..i + 3] == t[..3];
        assert t[3..] == s[i + 3..i + 13];
        MobileSlice(s, i + 3);
      } else {
        MobileSlice(s, i);
      }
    }
    if n > 0 {
      assert MatchesPattern(s[i..i + n]);
    }
  }

  /** `extractPhoneNumber` returns the empty string exactly when no substring of
      the text matches; otherwise the longest match at the leftmost position
      where a match starts, which is 10, 13 or 14 characters long. */
  lemma {:induction false} ExtractFromSpec(s: string, i: nat)
    requires i <= |s|
    ensures ExtractFrom(s, i) == "" <==> forall p :: i <= p <= |s| ==> !MatchStartsAt(s, p)
    ensures ExtractFrom(s, i) != "" ==> exists p :: i <= p < |s| && LeftmostLongestAt(s, i, p, ExtractFrom(s, i))
    decreases |s| - i
  {
    var r := ExtractFrom(s, i);
    if i == |s| {
      assert forall j :: i <= j <= |s| ==> s[i..j] == [];
    } else {
      MatchLengthCorrect(s, i);
      if MatchLength(s, i) > 0 {
        assert LeftmostLongestAt(s, i, i, r);
      } else {
        ExtractFromSpec(s, i + 1);
        if r != "" {
          var p :| i + 1 <= p < |s| && LeftmostLongestAt(s, i + 1, p, r);
          assert LeftmostLongestAt(s, i, p, r);
        }
      }
    }
  }

  /** `r` is the longest match starting at `p`, and no match starts from `from` up to `p`. */
  ghost predicate LeftmostLongestAt(s: string, from: nat, p: nat, r: string)
  {
    && p + |r| <= |s|
    && r == s[p..p + |r|]
    && MatchesPattern(r)
    && (|r| == 10 || |r| == 13 || |r| == 14)
    && (forall j :: p <= j <= |s| && MatchesPattern(s[p..j]) ==> j - p <= |r|)
    && (forall q :: from <= q < p ==> !MatchStartsAt(s, q))
  }

  lemma ExtractPhoneNumberSpec(text: string)
    ensures ExtractPhoneNumber(text) == "" <==> forall p :: 0 <= p <= |text| ==> !MatchStartsAt(text, p)
    ensures ExtractPhoneNumber(text) != "" ==> exists p :: 0 <= p < |text| && LeftmostLongestAt(text, 0, p, ExtractPhoneNumber(text))
  {
    ExtractFromSpec(text, 0);
  }

  /** No match can start on a character that is neither `+` nor a digit. */
  lemma NoMatchAtPlain(s: string, p: nat)
    requires p < |s| && s[p] != '+' && !IsDigit(s[p])
    ensures MatchLength(s, p) == 0
  {
  }

  /** A text holding one number after a stretch with no `+` and no digit yields
      that number: bare, with `+91`, or with `+91` and a separator. */
  lemma {:induction false} ExtractAfterPlainText(pre: string, number: string, post: string)
    requires forall k :: 0 <= k < |pre| ==> pre[k] != '+' && !IsDigit(pre[k])
    requires MatchesPattern(number)
    ensures ExtractPhoneNumber(pre + number + post) == number
  {
    var s := pre + number + post;
    ExtractSkipsPlain(s, |pre|, 0);
    var n := |pre|;
    assert s[n..n + |number|] == number;
    MatchLengthCorrect(s, n);
    assert MatchesPattern(s[n..n + |number|]);
    var m := MatchLength(s, n);
    assert |number| <= m;
    assert s[n] == number[0];
    if |number| == 10 {
      assert s[n..n + 3][0] == s[n] != CountryCode[0];
    } else if |number| == 13 {
      assert s[n + 3] == number[3];
    }
  }

  lemma {:induction false} ExtractSkipsPlain(s: string, n: nat, i: nat)
    requires i <= n <= |s|
    requires forall k :: i <= k < n ==> s[k] != '+' && !IsDigit(s[k])
    ensures ExtractFrom(s, i) == ExtractFrom(s, n)
    decreases n - i
  {
    if i < n {
      NoMatchAtPlain(s, i);
      ExtractSkipsPlain(s, n, i + 1);
    }
  }

  /** What `extractPhoneNumber` returns is empty or a match of the pattern. */
  lemma ExtractPhoneNumberMatches(text: string)
    ensures ExtractPhoneNumber(text) == "" || MatchesPattern(ExtractPhoneNumber(text))
  {
    ExtractFromSpec(text, 0);
  }

  /** `extractPhoneNumber(text) || placeholder`: never empty, and either a
      pattern match or a synthesized number. */
  lemma PhoneChoiceFacts(found: string, draw: nat)
    requires found == "" || MatchesPattern(found)
    ensures var p := if found != "" then found else PlaceholderPhone(draw);
      p != "" && (MatchesPattern(p) || IsPlaceholderPhone(p))
  {
  }
}

/** The directive lookups `re.findall(r'(?<=d)\d+', text)[0]` and
    `re.findall(r'(?<=l)\d+', text)[0]`, for an arbitrary marker character.

    `findall` scans left to right; a match may begin at index `i` when the
    look-behind sees the marker at `i - 1` and `\d+` can consume `s[i]`, and
    the greedy `\d+` then takes every consecutive digit. Taking element `[0]`
    keeps the leftmost match; an empty list makes the indexing raise, which the
    handler swallows, so that case is `None` here. */
module Directives {
  import opened Wrappers
  import opened Decimal

  /** A match of `(?<=marker)\d+` can begin at index `i` of `s`. */
  predicate MatchStartsAt(marker: char, s: string, i: int) {
    0 < i < |s| && s[i - 1] == marker && IsDigit(s[i])
  }

  /** The number of consecutive digits of `s` starting at index `i`. */
  function DigitRunLength(s: string, i: nat): (n: nat)
    requires i <= |s|
    ensures i + n <= |s|
    ensures forall k :: i <= k < i + n ==> IsDigit(s[k])
    ensures i + n == |s| || !IsDigit(s[i + n])
    decreases |s| - i
  {
    if i < |s| && IsDigit(s[i]) then 1 + DigitRunLength(s, i + 1) else 0
  }

  /** The first index at or after `from` where a match can begin. */
  function FirstMatchFrom(marker: char, s: string, from: nat): (r: Option<nat>)
    ensures r.Some? ==> from <= r.value && MatchStartsAt(marker, s, r.value)
    ensures forall j :: from <= j && (r.None? || j < r.value) ==> !MatchStartsAt(marker, s, j)
    decreases |s| - from
  {
    if from >= |s| then None
    else if MatchStartsAt(marker, s, from) then Some(from)
    else FirstMatchFrom(marker, s, from + 1)
  }

  /** `m` is the text of the leftmost match, which begins at index `i`: no
      match begins earlier, `m` is the digits after the marker at `i - 1`,
      and the digit run is maximal. */
  ghost predicate IsFirstMatch(marker: char, s: string, i: int, m: string) {
    && MatchStartsAt(marker, s, i)
    && (forall j :: 0 <= j < i ==> !MatchStartsAt(marker, s, j))
    && |m| > 0 && AllDigits(m)
    && i + |m| <= |s| && s[i..i + |m|] == m
    && (i + |m| == |s| || !IsDigit(s[i + |m|]))
  }

  /** The leftmost match is determined by the text: there is at most one. */
  lemma FirstMatchUnique(marker: char, s: string, i: int, m: string, i': int, m': string)
    requires IsFirstMatch(marker, s, i, m) && IsFirstMatch(marker, s, i', m')
    ensures i == i' && m == m'
  {
    assert i < i' ==> !MatchStartsAt(marker, s, i);
    assert i' < i ==> !MatchStartsAt(marker, s, i');
    assert forall k :: i <= k < i + |m| ==> s[k] == m[k - i];
    assert forall k :: i <= k < i + |m'| ==> s[k] == m'[k - i];
  }

  /** `re.findall(r'(?<=marker)\d+', s)[0]`: the text of the leftmost match,
      or `None` when there is none. */
  function FindFirstAfter(marker: char, s: string): (r: Option<string>)
    ensures r.None? <==> forall i :: 0 <= i < |s| ==> !MatchStartsAt(marker, s, i)
    ensures r.Some? ==> |r.value| > 0 && AllDigits(r.value)
    ensures r.Some? ==> exists i :: IsFirstMatch(marker, s, i, r.value)
  {
    match FirstMatchFrom(marker, s, 0)
    case None => None
    case Some(i) =>
      var m := s[i..i + DigitRunLength(s, i)];
      assert IsFirstMatch(marker, s, i, m);
      Some(m)
  }

  /** Both directions: the lookup yields `m` exactly when `m` is the text of
      the leftmost match. */
  lemma FindFirstAfterIff(marker: char, s: string, m: string)
    ensures FindFirstAfter(marker, s) == Some(m) <==> exists i :: IsFirstMatch(marker, s, i, m)
  {
  }

  /** The numeric value of the leftmost match, `int(findall(...)[0])`. */
  function FirstRunAfter(marker: char, s: string): (r: Option<nat>)
    ensures r.None? <==> forall i :: 0 <= i < |s| ==> !MatchStartsAt(marker, s, i)
    ensures r.Some? ==> exists i, m :: IsFirstMatch(marker, s, i, m) && r.value == ParseDecimal(m)
  {
    match FindFirstAfter(marker, s)
    case None => None
    case Some(m) => Some(ParseDecimal(m))
  }

  /** A text that begins with the marker, then the digits `ds`, then anything
      that does not continue the digits, yields exactly `ds`. */
  lemma TokenAtStart(marker: char, ds: string, rest: string)
    requires |ds| > 0 && AllDigits(ds)
    requires |rest| == 0 || !IsDigit(rest[0])
    ensures FindFirstAfter(marker, [marker] + ds + rest) == Some(ds)
  {
    var s := [marker] + ds + rest;
    assert s[1..1 + |ds|] == ds;
    assert MatchStartsAt(marker, s, 1);
    assert IsFirstMatch(marker, s, 1, ds);
    FindFirstAfterIff(marker, s, ds);
  }

  /** Text without a match, that does not end with the marker, can be put in
      front of any text without changing the lookup: matching is unanchored. */
  lemma SkipPrefix(marker: char, a: string, b: string)
    requires FindFirstAfter(marker, a).None?
    requires |a| == 0 || a[|a| - 1] != marker
    ensures FindFirstAfter(marker, a + b) == FindFirstAfter(marker, b)
  {
    var s := a + b;
    forall i | 0 <= i < |a|
      ensures !MatchStartsAt(marker, s, i)
    {
      assert !MatchStartsAt(marker, a, i);
      if 0 < i {
        assert s[i - 1] == a[i - 1] && s[i] == a[i];
      }
    }
    forall j | 0 <= j < |b|
      ensures MatchStartsAt(marker, s, |a| + j) <==> MatchStartsAt(marker, b, j)
    {
      if j == 0 {
        assert !MatchStartsAt(marker, s, |a|);
      } else {
        assert s[|a| + j - 1] == b[j - 1] && s[|a| + j] == b[j];
      }
    }
    match FindFirstAfter(marker, b)
    case None =>
      forall i | 0 <= i < |s|
        ensures !MatchStartsAt(marker, s, i)
      {
        if i >= |a| {
          assert !MatchStartsAt(marker, b, i - |a|);
        }
      }
    case Some(m) =>
      var j :| IsFirstMatch(marker, b, j, m);
      assert s[|a| + j..|a| + j + |m|] == b[j..j + |m|];
      if |a| + j + |m| < |s| {
        assert s[|a| + j + |m|] == b[j + |m|];
      }
      forall k | 0 <= k < |a| + j
        ensures !MatchStartsAt(marker, s, k)
      {
        if k >= |a| {
          assert !MatchStartsAt(marker, b, k - |a|);
        }
      }
      assert IsFirstMatch(marker, s, |a| + j, m);
      FindFirstAfterIff(marker, s, m);
  }

  /** A match found in `a` and closed off inside it (`a` ends with a
      non-digit) stays the first match whatever follows: later tokens are
      ignored. */
  lemma KeepPrefixMatch(marker: char, a: string, b: string)
    requires FindFirstAfter(marker, a).Some?
    requires |a| > 0 && !IsDigit(a[|a| - 1])
    ensures FindFirstAfter(marker, a + b) == FindFirstAfter(marker, a)
  {
    var s := a + b;
    var m := FindFirstAfter(marker, a).value;
    var i :| IsFirstMatch(marker, a, i, m);
    assert forall k :: i <= k < i + |m| ==> a[k] == m[k - i];
    assert s[i..i + |m|] == a[i..i + |m|];
    assert s[i + |m|] == a[i + |m|];
    assert s[i - 1] == a[i - 1] && s[i] == a[i];
    forall k | 0 <= k < i
      ensures !MatchStartsAt(marker, s, k)
    {
      assert !MatchStartsAt(marker, a, k);
      if 0 < k {
        assert s[k - 1] == a[k - 1] && s[k] == a[k];
      }
    }
    assert IsFirstMatch(marker, s, i, m);
    FindFirstAfterIff(marker, s, m);
  }

  /** A text in which the marker never occurs has no match. */
  lemma NoMarkerNoMatch(marker: char, s: string)
    requires forall k :: 0 <= k < |s| ==> s[k] != marker
    ensures FindFirstAfter(marker, s).None?
  {
  }
}

/**
 * The `[pause-N]` tag family of regular expressions used across the pipeline:
 * `/\[pause-(\d{2,5})\]/y` in the segmenter, `/\[pause-(\d{2,4})\]/gi` in the
 * speech normaliser, and the global `\s*\[pause-\d{2,4}\]\s*` clean-ups.
 * A tag is "[pause-", then 2..maxDigits ASCII digits, then "]"; with the `i`
 * flag the word "pause" may be in any letter case.
 */
module PauseTag {
  import opened Text
  import opened Wrappers

  /** Length of the run of ASCII digits that starts at i. */
  function DigitRun(s: string, i: nat): (n: nat)
    requires i <= |s|
    ensures i + n <= |s|
    ensures forall k :: i <= k < i + n ==> IsDigit(s[k])
    ensures i + n == |s| || !IsDigit(s[i + n])
    decreases |s| - i
  {
    if i < |s| && IsDigit(s[i]) then 1 + DigitRun(s, i + 1) else 0
  }

  /** c matches the pattern letter x, ignoring ASCII case when ci holds. */
  predicate CharMatches(c: char, x: char, ci: bool) {
    if ci then LowerChar(c) == x else c == x
  }

  /** `[pause-` (with the `i` flag: `[` then "pause" in any case then `-`) starts at i. */
  predicate PrefixAt(s: string, i: nat, ci: bool) {
    && i + 7 <= |s|
    && s[i] == '[' && CharMatches(s[i + 1], 'p', ci) && CharMatches(s[i + 2], 'a', ci)
    && CharMatches(s[i + 3], 'u', ci) && CharMatches(s[i + 4], 's', ci) && CharMatches(s[i + 5], 'e', ci)
    && s[i + 6] == '-'
  }

  /** t is exactly one tag. */
  predicate IsTag(t: string, maxDigits: nat, ci: bool) {
    && 10 <= |t| <= 8 + maxDigits
    && PrefixAt(t, 0, ci)
    && (forall k :: 7 <= k < |t| - 1 ==> IsDigit(t[k]))
    && t[|t| - 1] == ']'
  }

  /** The end of the tag that starts at i, if one does (the regex anchored at i). */
  function TagAt(s: string, i: nat, maxDigits: nat, ci: bool): (r: Option<nat>)
    requires i <= |s|
    ensures r.Some? ==> i + 10 <= r.value <= |s| && IsTag(s[i..r.value], maxDigits, ci)
  {
    if !PrefixAt(s, i, ci) then None
    else
      var n := DigitRun(s, i + 7);
      if 2 <= n <= maxDigits && i + 7 + n < |s| && s[i + 7 + n] == ']' then
        TagShape(s, i, n, maxDigits, ci);
        Some(i + 8 + n)
      else None
  }

  lemma TagShape(s: string, i: nat, n: nat, maxDigits: nat, ci: bool)
    requires i + 8 + n <= |s| && 2 <= n <= maxDigits
    requires PrefixAt(s, i, ci)
    requires forall k :: i + 7 <= k < i + 7 + n ==> IsDigit(s[k])
    requires s[i + 7 + n] == ']'
    ensures IsTag(s[i..i + 8 + n], maxDigits, ci)
  {
    var t := s[i..i + 8 + n];
    forall k | 7 <= k < |t| - 1 ensures IsDigit(t[k]) {
      assert t[k] == s[i + k];
    }
  }

  /** Completeness: whenever a tag starts at i, TagAt finds exactly it. */
  lemma TagAtFinds(s: string, i: nat, e: nat, maxDigits: nat, ci: bool)
    requires i <= e <= |s| && IsTag(s[i..e], maxDigits, ci)
    ensures TagAt(s, i, maxDigits, ci) == Some(e)
  {
    var t := s[i..e];
    assert PrefixAt(s, i, ci) by {
      assert forall k :: 0 <= k < 7 ==> t[k] == s[i + k];
    }
    forall k | i + 7 <= k < e - 1 ensures IsDigit(s[k]) {
      assert s[k] == t[k - i];
    }
    assert s[e - 1] == t[|t| - 1];
    assert DigitRun(s, i + 7) == e - i - 8;
  }

  /** No tag starts anywhere in s. */
  predicate TagFree(s: string, maxDigits: nat, ci: bool) {
    forall i :: 0 <= i <= |s| ==> TagAt(s, i, maxDigits, ci).None?
  }

  /** The digits of the tag s[i..e]. */
  function TagDigits(s: string, i: nat, e: nat, maxDigits: nat, ci: bool): (d: string)
    requires i + 10 <= e <= |s| && IsTag(s[i..e], maxDigits, ci)
    ensures 2 <= |d| <= maxDigits && forall k :: 0 <= k < |d| ==> IsDigit(d[k])
  {
    var d := s[i + 7..e - 1];
    forall k | 0 <= k < |d| ensures IsDigit(d[k]) {
      assert d[k] == s[i..e][7 + k];
    }
    d
  }

  /** Length of the `\s*` run from i. */
  function SpaceRun(s: string, i: nat): (n: nat)
    requires i <= |s|
    ensures i + n <= |s|
    ensures forall k :: i <= k < i + n ==> IsSpace(s[k])
    ensures i + n == |s| || !IsSpace(s[i + n])
    decreases |s| - i
  {
    if i < |s| && IsSpace(s[i]) then 1 + SpaceRun(s, i + 1) else 0
  }

  /**
   * `\s*\[pause-\d{2,maxDigits}\]\s*` anchored at i: the tag must follow the
   * greedy leading space run (a tag never begins with a space, so backing off
   * the run cannot help). Returns the tag's bounds and the end of the match.
   */
  function SpacedTagAt(s: string, i: nat, maxDigits: nat, ci: bool): (r: Option<(nat, nat, nat)>)
    requires i <= |s|
    ensures r.Some? ==> i <= r.value.0 && r.value.0 + 10 <= r.value.1 <= r.value.2 <= |s|
    ensures r.Some? ==> IsTag(s[r.value.0..r.value.1], maxDigits, ci)
  {
    var a := i + SpaceRun(s, i);
    match TagAt(s, a, maxDigits, ci)
    case None => None
    case Some(e) => Some((a, e, e + SpaceRun(s, e)))
  }

  /**
   * What the replacement loop needs of a spaced-tag matcher: the match lies
   * inside the text and its middle part is one tag.
   */
  ghost predicate SpacedMatcher(find: (string, nat) -> Option<(nat, nat, nat)>, maxDigits: nat, ci: bool) {
    forall s: string, i: nat {:trigger find(s, i)} :: find(s, i).Some? ==>
      && i <= find(s, i).value.0
      && find(s, i).value.0 + 10 <= find(s, i).value.1 <= find(s, i).value.2 <= |s|
      && IsTag(s[find(s, i).value.0..find(s, i).value.1], maxDigits, ci)
  }

  /**
   * `s.replace(/\s*\[pause-(\d{2,maxDigits})\]\s*\/g, ...)` scanning left to
   * right with the matcher `find`; each match becomes " " (keep == false) or
   * " [pause-$1] " (keep == true).
   */
  function ReplaceWith(find: (string, nat) -> Option<(nat, nat, nat)>, s: string, maxDigits: nat, ci: bool, keep: bool): string
    requires SpacedMatcher(find, maxDigits, ci)
    decreases |s|
  {
    if s == [] then []
    else match find(s, 0)
      case Some((a, e, m)) =>
        (if keep then " [pause-" + TagDigits(s, a, e, maxDigits, ci) + "] " else " ") + ReplaceWith(find, s[m..], maxDigits, ci, keep)
      case None => [s[0]] + ReplaceWith(find, s[1..], maxDigits, ci, keep)
  }

  /** A tag holds no whitespace. */
  lemma TagHasNoSpace(t: string, maxDigits: nat, ci: bool)
    requires IsTag(t, maxDigits, ci)
    ensures forall k :: 0 <= k < |t| ==> !IsSpace(t[k])
  {
  }

  /** A tag inside a slice is a tag of the whole text, at the shifted index. */
  lemma TagInSlice(s: string, lo: nat, hi: nat, i: nat, maxDigits: nat, ci: bool)
    requires lo <= hi <= |s| && i <= hi - lo
    ensures TagAt(s[lo..hi], i, maxDigits, ci).Some? ==> TagAt(s, lo + i, maxDigits, ci).Some?
  {
    var t := s[lo..hi];
    if TagAt(t, i, maxDigits, ci).Some? {
      var e := TagAt(t, i, maxDigits, ci).value;
      assert forall k :: i <= k < e ==> t[k] == s[lo + k];
      assert t[i..e] == s[lo + i..lo + e];
      TagAtFinds(s, lo + i, lo + e, maxDigits, ci);
    }
  }

  /** A slice of a tag-free text is tag-free. */
  lemma SliceTagFree(s: string, t: string, lo: nat, hi: nat, maxDigits: nat, ci: bool)
    requires lo <= hi <= |s| && t == s[lo..hi] && TagFree(s, maxDigits, ci)
    ensures TagFree(t, maxDigits, ci)
  {
    forall i | 0 <= i <= hi - lo ensures TagAt(t, i, maxDigits, ci).None? {
      TagInSlice(s, lo, hi, i, maxDigits, ci);
    }
  }

  /** A tag of the whole text that starts at or after lo is a tag of the suffix from lo. */
  lemma TagInSuffix(s: string, lo: nat, i: nat, maxDigits: nat, ci: bool)
    requires lo <= i <= |s|
    ensures TagAt(s, i, maxDigits, ci).Some? ==> TagAt(s[lo..], i - lo, maxDigits, ci).Some?
  {
    var t := s[lo..];
    if TagAt(s, i, maxDigits, ci).Some? {
      var e := TagAt(s, i, maxDigits, ci).value;
      assert forall k :: i <= k < e ==> s[k] == t[k - lo];
      assert s[i..e] == t[i - lo..e - lo];
      TagAtFinds(t, i - lo, e - lo, maxDigits, ci);
    }
  }

  /**
   * Dropping matches (keep == false) writes " " for each, so up to its first
   * whitespace the output is a copy of the input.
   */
  lemma {:induction false} CopiedUntilSpace(find: (string, nat) -> Option<(nat, nat, nat)>, s: string,
                                            maxDigits: nat, ci: bool, k: nat)
    requires SpacedMatcher(find, maxDigits, ci)
    ensures var o := ReplaceWith(find, s, maxDigits, ci, false);
      k <= |o| && (forall j :: 0 <= j < k ==> !IsSpace(o[j])) ==> k <= |s| && o[..k] == s[..k]
    decreases |s|
  {
    var o := ReplaceWith(find, s, maxDigits, ci, false);
    if k > 0 && s != [] && find(s, 0).None? {
      var r := ReplaceWith(find, s[1..], maxDigits, ci, false);
      assert o == [s[0]] + r;
      CopiedUntilSpace(find, s[1..], maxDigits, ci, k - 1);
      if k <= |o| && (forall j :: 0 <= j < k ==> !IsSpace(o[j])) {
        forall j | 0 <= j < k - 1 ensures !IsSpace(r[j]) {
          assert r[j] == o[j + 1];
        }
        assert o[..k] == [s[0]] + r[..k - 1];
        assert s[..k] == [s[0]] + s[1..][..k - 1];
      }
    } else if k > 0 && s != [] {
      assert o[0] == ' ';
    }
  }

  /** A tag at the very start of the output of a dropping replacement was at the start of the input. */
  lemma TagAtStartCopied(find: (string, nat) -> Option<(nat, nat, nat)>, s: string, maxDigits: nat, ci: bool)
    requires SpacedMatcher(find, maxDigits, ci)
    ensures var o := ReplaceWith(find, s, maxDigits, ci, false);
      TagAt(o, 0, maxDigits, ci).Some? ==> TagAt(s, 0, maxDigits, ci) == TagAt(o, 0, maxDigits, ci)
  {
    var o := ReplaceWith(find, s, maxDigits, ci, false);
    if TagAt(o, 0, maxDigits, ci).Some? {
      var e := TagAt(o, 0, maxDigits, ci).value;
      TagHasNoSpace(o[..e], maxDigits, ci);
      assert forall j :: 0 <= j < e ==> o[j] == o[..e][j];
      CopiedUntilSpace(find, s, maxDigits, ci, e);
      assert s[0..e] == o[..e];
      TagAtFinds(s, 0, e, maxDigits, ci);
    }
  }
}

/**
 * The speech normaliser (src/lib/spokenizer.ts): splits a reply into pause
 * tokens and sentences, keeps the longest prefix of them that fits the
 * speaking-time cap, optionally appends an invitation to ask for more, and cuts
 * a `say` string into playback chunks.
 *
 * The contraction, acronym and slash rewrites that run first are regular
 * expression tables; they are one opaque `rewrite` function here.
 */
module Spokenizer {
  import opened Text
  import opened Wrappers
  import PauseTag
  import opened TtsConfig

  /** A piece of text or an inline pause (`Token` in the source). */
  datatype Token = TextTok(value: string) | PauseTok(ms: nat)

  /** `/\[pause-(\d{2,4})\]/gi`: up to four digits, any letter case. */
  const MaxTagDigits: nat := 4
  const MaxPauseMs: nat := 4000

  /** `Math.max(1, MAX_SAY_SECONDS)`. */
  const MaxSecs: real := (if 1 > MaxSaySeconds then 1 else MaxSaySeconds) as real
  /** 130 words per minute. */
  const SecsPerWord: real := 60.0 / 130.0
  const Invite: string := "\U{2026} Want the longer version?"

  // ---------------------------------------------------------------------------
  // tokenizeByPause
  // ---------------------------------------------------------------------------

  /** `Math.max(0, Math.min(4000, parseInt(digits, 10) || 0))` for the tag s[j..e]. */
  function PauseMs(s: string, j: nat, e: nat): (ms: nat)
    requires j + 10 <= e <= |s| && PauseTag.IsTag(s[j..e], MaxTagDigits, true)
    ensures ms <= MaxPauseMs
  {
    var v := DigitsValue(PauseTag.TagDigits(s, j, e, MaxTagDigits, true));
    if v < MaxPauseMs then v else MaxPauseMs
  }

  /** The tag regex of `tokenizeByPause` anchored at i: the tag's end and its clamped value. */
  function PauseAt(s: string, i: nat): (r: Option<(nat, nat)>)
    ensures r.Some? ==> i < r.value.0 <= |s| && r.value.1 <= MaxPauseMs
  {
    if i > |s| then None
    else match PauseTag.TagAt(s, i, MaxTagDigits, true)
      case None => None
      case Some(e) => Some((e, PauseMs(s, i, e)))
  }

  /**
   * What the tokenizer needs of a tag matcher: a match is non-empty, lies
   * inside the text and carries a clamped value, and a match found in a
   * slice is also a match of the whole text at the same place.
   */
  ghost predicate Matcher(find: (string, nat) -> Option<(nat, nat)>) {
    && (forall s: string, i: nat {:trigger find(s, i)} ::
          find(s, i).Some? ==> i < find(s, i).value.0 <= |s| && find(s, i).value.1 <= MaxPauseMs)
    && (forall s: string, a: nat, b: nat, k: nat {:trigger find(s[a..b], k)} ::
          a <= b <= |s| && find(s[a..b], k).Some? ==> find(s, a + k).Some?)
  }

  lemma PauseAtIsMatcher()
    ensures Matcher(PauseAt)
  {
    forall s: string, a: nat, b: nat, k: nat | a <= b <= |s| && PauseAt(s[a..b], k).Some?
      ensures PauseAt(s, a + k).Some?
    {
      PauseAtInSlice(s, a, b, k);
    }
  }

  /** A tag found in the slice s[a..b] at k is a tag of s at a + k. */
  lemma PauseAtInSlice(s: string, a: nat, b: nat, k: nat)
    requires a <= b <= |s| && PauseAt(s[a..b], k).Some?
    ensures PauseAt(s, a + k).Some?
  {
    var t := s[a..b];
    var e := PauseTag.TagAt(t, k, MaxTagDigits, true).value;
    forall x | 0 <= x < e - k ensures t[k..e][x] == s[a + k..a + e][x] {
      assert t[k + x] == s[a + k + x];
    }
    assert t[k..e] == s[a + k..a + e];
    PauseTag.TagAtFinds(s, a + k, a + e, MaxTagDigits, true);
  }

  /** `re.exec` from `lastIndex = from`: the start, end and value of the leftmost match. */
  function NextMatch(find: (string, nat) -> Option<(nat, nat)>, s: string, from: nat): (r: Option<(nat, nat, nat)>)
    requires from <= |s| && Matcher(find)
    ensures r.Some? ==> from <= r.value.0 < r.value.1 <= |s| && r.value.2 <= MaxPauseMs
    ensures r.Some? ==> find(s, r.value.0) == Some((r.value.1, r.value.2))
    decreases |s| - from
  {
    if from == |s| then None
    else match find(s, from)
      case Some((e, ms)) => Some((from, e, ms))
      case None => NextMatch(find, s, from + 1)
  }

  /** No match starts between from and the leftmost one, and none at all when there is none. */
  lemma {:induction false} NextMatchIsLeftmost(find: (string, nat) -> Option<(nat, nat)>, s: string, from: nat)
    requires from <= |s| && Matcher(find)
    ensures NextMatch(find, s, from).Some? ==> forall k :: from <= k < NextMatch(find, s, from).value.0 ==> find(s, k).None?
    ensures NextMatch(find, s, from).None? ==> forall k :: from <= k ==> find(s, k).None?
    decreases |s| - from
  {
    if from < |s| && find(s, from).None? {
      NextMatchIsLeftmost(find, s, from + 1);
    }
  }

  /** The tokens the exec loop produces from `last` on. */
  function TokensWith(find: (string, nat) -> Option<(nat, nat)>, s: string, last: nat): seq<Token>
    requires last <= |s| && Matcher(find)
    decreases |s| - last
  {
    match NextMatch(find, s, last)
    case None => if last < |s| then [TextTok(s[last..])] else []
    case Some((j, e, ms)) =>
      (if j > last then [TextTok(s[last..j])] else []) + [PauseTok(ms)] + TokensWith(find, s, e)
  }

  function Tokenize(s: string): seq<Token> {
    PauseAtIsMatcher();
    TokensWith(PauseAt, s, 0)
  }

  /** The search `re.exec` performs from `lastIndex = from`, for any matcher. */
  method FindMatch(find: (string, nat) -> Option<(nat, nat)>, s: string, from: nat) returns (r: Option<(nat, nat, nat)>)
    requires from <= |s| && Matcher(find)
    ensures r == NextMatch(find, s, from)
  {
    var k := from;
    while k < |s| && find(s, k).None?
      invariant from <= k <= |s|
      invariant NextMatch(find, s, from) == NextMatch(find, s, k)
      decreases |s| - k
    {
      k := k + 1;
    }
    if k == |s| {
      r := None;
    } else {
      var (e, ms) := find(s, k).value;
      r := Some((k, e, ms));
    }
  }

  /** The exec loop of `tokenizeByPause`, pushing text and pause tokens, for any matcher. */
  method ExecLoop(find: (string, nat) -> Option<(nat, nat)>, input: string) returns (tokens: seq<Token>)
    requires Matcher(find)
    ensures tokens == TokensWith(find, input, 0)
  {
    tokens := [];
    var last := 0;
    var m := FindMatch(find, input, last);
    while m.Some?
      invariant last <= |input|
      invariant m == NextMatch(find, input, last)
      invariant TokensWith(find, input, 0) == tokens + TokensWith(find, input, last)
      decreases |input| - last
    {
      var j, e, ms := m.value.0, m.value.1, m.value.2;
      var head := (if j > last then [TextTok(input[last..j])] else []) + [PauseTok(ms)];
      ExecStep(find, input, last, tokens, head);
      tokens := tokens + head;
      last := e;
      m := FindMatch(find, input, last);
    }
    TokensLastStep(find, input, last);
    if last < |input| {
      tokens := tokens + [TextTok(input[last..])];
    }
  }

  /** One turn of the exec loop moves the pushed tokens from the rest to the output. */
  lemma ExecStep(find: (string, nat) -> Option<(nat, nat)>, s: string, last: nat, done: seq<Token>, head: seq<Token>)
    requires last <= |s| && Matcher(find) && NextMatch(find, s, last).Some?
    requires var (j, e, ms) := NextMatch(find, s, last).value;
      head == (if j > last then [TextTok(s[last..j])] else []) + [PauseTok(ms)]
    ensures done + TokensWith(find, s, last) == (done + head) + TokensWith(find, s, NextMatch(find, s, last).value.1)
  {
    TokensMatchStep(find, s, last);
  }

  /** One match: the text before it (if any), its pause, then the rest. */
  lemma TokensMatchStep(find: (string, nat) -> Option<(nat, nat)>, s: string, last: nat)
    requires last <= |s| && Matcher(find) && NextMatch(find, s, last).Some?
    ensures var (j, e, ms) := NextMatch(find, s, last).value;
      TokensWith(find, s, last) == (if j > last then [TextTok(s[last..j])] else []) + [PauseTok(ms)] + TokensWith(find, s, e)
  {
  }

  /** No match left: the tail, if any, is one text token. */
  lemma TokensLastStep(find: (string, nat) -> Option<(nat, nat)>, s: string, last: nat)
    requires last <= |s| && Matcher(find) && NextMatch(find, s, last).None?
    ensures TokensWith(find, s, last) == if last < |s| then [TextTok(s[last..])] else []
  {
  }

  /** `tokenizeByPause`. */
  method TokenizeByPause(input: string) returns (tokens: seq<Token>)
    ensures tokens == Tokenize(input)
  {
    PauseAtIsMatcher();
    tokens := ExecLoop(PauseAt, input);
  }

  /**
   * Reference reading of the tokenizer, one character at a time: the text
   * left after deleting every match, and the values of the matches.
   */
  function Reference(find: (string, nat) -> Option<(nat, nat)>, s: string, i: nat): (string, seq<nat>)
    requires i <= |s| && Matcher(find)
    decreases |s| - i
  {
    if i == |s| then ([], [])
    else match find(s, i)
      case Some((e, ms)) => var r := Reference(find, s, e); (r.0, [ms] + r.1)
      case None => var r := Reference(find, s, i + 1); ([s[i]] + r.0, r.1)
  }

  function TextOf(tokens: seq<Token>): string {
    if tokens == [] then []
    else (if tokens[0].TextTok? then tokens[0].value else []) + TextOf(tokens[1..])
  }

  function PausesOf(tokens: seq<Token>): seq<nat> {
    if tokens == [] then []
    else (if tokens[0].PauseTok? then [tokens[0].ms] else []) + PausesOf(tokens[1..])
  }

  lemma {:induction false} ReferenceSkips(find: (string, nat) -> Option<(nat, nat)>, s: string, a: nat, j: nat)
    requires a <= j <= |s| && Matcher(find)
    requires forall k :: a <= k < j ==> find(s, k).None?
    ensures Reference(find, s, a) == (s[a..j] + Reference(find, s, j).0, Reference(find, s, j).1)
    decreases j - a
  {
    if a < j {
      ReferenceSkips(find, s, a + 1, j);
      var r := Reference(find, s, j);
      var q := Reference(find, s, a + 1);
      assert q == (s[a + 1..j] + r.0, r.1);
      assert Reference(find, s, a) == ([s[a]] + q.0, q.1);
      assert s[a..j] == [s[a]] + s[a + 1..j];
      assert [s[a]] + (s[a + 1..j] + r.0) == s[a..j] + r.0;
    } else {
      assert s[a..j] == [];
      assert s[a..j] + Reference(find, s, j).0 == Reference(find, s, j).0;
    }
  }

  /**
   * The tokens keep the input's order: their text is the input with every
   * tag deleted and their pauses are the tags' values, in order.
   */
  lemma {:induction false} TokensFollowReference(find: (string, nat) -> Option<(nat, nat)>, s: string, last: nat)
    requires last <= |s| && Matcher(find)
    ensures TextOf(TokensWith(find, s, last)) == Reference(find, s, last).0
    ensures PausesOf(TokensWith(find, s, last)) == Reference(find, s, last).1
    decreases |s| - last
  {
    NextMatchIsLeftmost(find, s, last);
    match NextMatch(find, s, last)
    case None =>
      ReferenceSkips(find, s, last, |s|);
      if last < |s| {
        assert TextOf([TextTok(s[last..])]) == s[last..] + TextOf([]);
      }
    case Some((j, e, ms)) =>
      ReferenceSkips(find, s, last, j);
      TokensFollowReference(find, s, e);
      TokensMatchStep(find, s, last);
      var head := (if j > last then [TextTok(s[last..j])] else []) + [PauseTok(ms)];
      assert (j > last) == (s[last..j] != []);
      HeadOfMatch(s[last..j], ms, head);
      TextOfAppend(head, TokensWith(find, s, e));
      PausesOfAppend(head, TokensWith(find, s, e));
      var r := Reference(find, s, e);
      assert Reference(find, s, j) == (r.0, [ms] + r.1);
      assert TokensWith(find, s, last) == head + TokensWith(find, s, e);
      assert TextOf(TokensWith(find, s, last)) == s[last..j] + r.0;
      assert PausesOf(TokensWith(find, s, last)) == [ms] + r.1;
  }

  /** The tokens pushed for one match: the text before it, then its pause. */
  lemma HeadOfMatch(t: string, ms: nat, head: seq<Token>)
    requires head == (if t != [] then [TextTok(t)] else []) + [PauseTok(ms)]
    ensures TextOf(head) == t && PausesOf(head) == [ms]
  {
    var p := [PauseTok(ms)];
    assert TextOf(p) == [] && PausesOf(p) == [ms] by { assert p[1..] == []; }
    if t != [] {
      assert head[1..] == p;
    } else {
      assert head == p;
    }
  }

  lemma {:induction false} TextOfAppend(a: seq<Token>, b: seq<Token>)
    ensures TextOf(a + b) == TextOf(a) + TextOf(b)
    decreases |a|
  {
    if a != [] {
      assert (a + b)[1..] == a[1..] + b;
      TextOfAppend(a[1..], b);
    } else {
      assert a + b == b;
    }
  }

  lemma {:induction false} PausesOfAppend(a: seq<Token>, b: seq<Token>)
    ensures PausesOf(a + b) == PausesOf(a) + PausesOf(b)
    decreases |a|
  {
    if a != [] {
      assert (a + b)[1..] == a[1..] + b;
      PausesOfAppend(a[1..], b);
    } else {
      assert a + b == b;
    }
  }

  /** No match anywhere in t. */
  ghost predicate MatchFree(find: (string, nat) -> Option<(nat, nat)>, t: string) {
    forall k :: 0 <= k <= |t| ==> find(t, k).None?
  }

  ghost predicate WellFormedTokens(find: (string, nat) -> Option<(nat, nat)>, tokens: seq<Token>) {
    && (forall i :: 0 <= i < |tokens| && tokens[i].TextTok? ==> tokens[i].value != [] && MatchFree(find, tokens[i].value))
    && (forall i :: 0 <= i < |tokens| && tokens[i].PauseTok? ==> tokens[i].ms <= MaxPauseMs)
    && (forall i :: 0 <= i < |tokens| - 1 && tokens[i].TextTok? ==> tokens[i + 1].PauseTok?)
  }

  lemma SliceMatchFree(find: (string, nat) -> Option<(nat, nat)>, s: string, a: nat, b: nat)
    requires a <= b <= |s| && Matcher(find)
    requires forall k :: a <= k < b ==> find(s, k).None?
    ensures MatchFree(find, s[a..b])
  {
    forall k | 0 <= k <= b - a ensures find(s[a..b], k).None? { }
  }

  /**
   * Text tokens are never empty and hold no match, pauses are clamped to
   * 0..4000 ms, and two text tokens are never adjacent.
   */
  lemma {:induction false} TokensWellFormed(find: (string, nat) -> Option<(nat, nat)>, s: string, last: nat)
    requires last <= |s| && Matcher(find)
    ensures WellFormedTokens(find, TokensWith(find, s, last))
    decreases |s| - last
  {
    NextMatchIsLeftmost(find, s, last);
    match NextMatch(find, s, last)
    case None =>
      SliceMatchFree(find, s, last, |s|);
      assert s[last..|s|] == s[last..];
      assert TokensWith(find, s, last) == if last < |s| then [TextTok(s[last..])] else [];
    case Some((j, e, ms)) =>
      TokensWellFormed(find, s, e);
      SliceMatchFree(find, s, last, j);
      var rest := TokensWith(find, s, e);
      var head := (if j > last then [TextTok(s[last..j])] else []) + [PauseTok(ms)];
      var all := head + rest;
      assert TokensWith(find, s, last) == all;
      forall i | 0 <= i < |all| - 1 && all[i].TextTok? ensures all[i + 1].PauseTok? {
        if i >= |head| {
          assert all[i] == rest[i - |head|] && all[i + 1] == rest[i + 1 - |head|];
        } else {
          assert all[i] == head[i] && all[i + 1] == head[i + 1];
        }
      }
      forall i | 0 <= i < |all| && all[i].TextTok? ensures all[i].value != [] && MatchFree(find, all[i].value) {
        if i >= |head| {
          assert all[i] == rest[i - |head|];
        } else {
          assert all[i] == head[i] == TextTok(s[last..j]);
        }
      }
      forall i | 0 <= i < |all| && all[i].PauseTok? ensures all[i].ms <= MaxPauseMs {
        if i >= |head| {
          assert all[i] == rest[i - |head|];
        } else {
          assert all[i] == head[i];
        }
      }
  }

  /**
   * `tokenizeByPause` keeps the input's order: the text tokens concatenate to
   * the input with every 2-4 digit tag (any case) deleted, the pauses are
   * those tags' values clamped to 0..4000 ms, text tokens are non-empty and
   * hold no such tag, and no two text tokens are adjacent.
   */
  lemma TokenizeSpec(s: string)
    ensures TextOf(Tokenize(s)) == TagReference(s).0
    ensures PausesOf(Tokenize(s)) == TagReference(s).1
    ensures WellFormedTokens(PauseAt, Tokenize(s))
  {
    PauseAtIsMatcher();
    TokensFollowReference(PauseAt, s, 0);
    TokensWellFormed(PauseAt, s, 0);
  }

  /** The reference reading for the tags of `tokenizeByPause`. */
  function TagReference(s: string): (string, seq<nat>) {
    PauseAtIsMatcher();
    Reference(PauseAt, s, 0)
  }

  /** A text holding no tag is a single text token (or none when empty). */
  lemma TagFreeIsOneToken(s: string)
    requires MatchFree(PauseAt, s)
    ensures Tokenize(s) == (if s == [] then [] else [TextTok(s)])
  {
    PauseAtIsMatcher();
    NextMatchIsLeftmost(PauseAt, s, 0);
    assert NextMatch(PauseAt, s, 0).None?;
    assert Tokenize(s) == TokensWith(PauseAt, s, 0);
  }

  // ---------------------------------------------------------------------------
  // splitSentences
  // ---------------------------------------------------------------------------

  predicate IsSentenceEnd(c: char) { c == '.' || c == '?' || c == '!' }

  /** Length of the `[^.?!]` run from p. */
  function ProseRun(s: string, p: nat): (n: nat)
    requires p <= |s|
    ensures p + n <= |s|
    ensures p + n == |s| || IsSentenceEnd(s[p + n])
    decreases |s| - p
  {
    if p < |s| && !IsSentenceEnd(s[p]) then 1 + ProseRun(s, p + 1) else 0
  }

  /** Length of the `[.?!]` run from p. */
  function EndRun(s: string, p: nat): (n: nat)
    requires p <= |s|
    ensures p + n <= |s|
    ensures p + n == |s| || !IsSentenceEnd(s[p + n])
    decreases |s| - p
  {
    if p < |s| && IsSentenceEnd(s[p]) then 1 + EndRun(s, p + 1) else 0
  }

  /**
   * `SENTENCE_SPLIT_RE = /([^.?!]+[.?!]+|\S+$)/` as written, anchored at p:
   * a run of prose closed by terminators, or else a final run of non-space
   * characters reaching the end.
   */
  function SentenceMatchAsWritten(s: string, p: nat): (r: Option<nat>)
    requires p < |s|
    ensures r.Some? ==> p < r.value <= |s|
  {
    var n := ProseRun(s, p);
    if n > 0 && p + n < |s| then Some(p + n + EndRun(s, p + n))
    else if forall k :: p <= k < |s| ==> !IsSpace(s[k]) then Some(|s|)
    else None
  }

  /**
   * The evidently intended matcher: a run of prose closed by terminators, or
   * else the unterminated prose remainder (`[^.?!]+$`).
   */
  function SentenceMatch(s: string, p: nat): (r: Option<nat>)
    requires p < |s|
    ensures r.Some? ==> p < r.value <= |s|
  {
    var n := ProseRun(s, p);
    if n == 0 then None
    else if p + n == |s| then Some(|s|)
    else Some(p + n + EndRun(s, p + n))
  }

  /** A sentence matcher anchored at p: a match is non-empty and stays inside the text. */
  ghost predicate SentenceMatcher(m: (string, nat) -> Option<nat>) {
    forall s: string, p: nat {:trigger m(s, p)} :: m(s, p).Some? ==> p < m(s, p).value <= |s|
  }

  /** SENTENCE_SPLIT_RE as written, as a total matcher. */
  function MatchAsWritten(s: string, p: nat): Option<nat> {
    if p < |s| then SentenceMatchAsWritten(s, p) else None
  }

  /** The intended sentence regex, as a total matcher. */
  function MatchIntended(s: string, p: nat): Option<nat> {
    if p < |s| then SentenceMatch(s, p) else None
  }

  lemma BothAreSentenceMatchers()
    ensures SentenceMatcher(MatchAsWritten) && SentenceMatcher(MatchIntended)
  {
  }

  /** All matches of a global regex from p (`String.prototype.match` with `g`). */
  function PartsWith(m: (string, nat) -> Option<nat>, s: string, p: nat): seq<string>
    requires p <= |s| && SentenceMatcher(m)
    decreases |s| - p
  {
    if p == |s| then []
    else match m(s, p)
      case Some(e) => [s[p..e]] + PartsWith(m, s, e)
      case None => PartsWith(m, s, p + 1)
  }

  /** Trimmed, non-empty and single-spaced: what every sentence chunk looks like. */
  predicate Squished(t: string) {
    t != [] && !IsSpace(t[0]) && !IsSpace(t[|t| - 1]) && SingleSpaced(t)
  }

  /** The trimmed, non-empty parts. */
  function TrimmedParts(parts: seq<string>): seq<string> {
    if parts == [] then []
    else (if Trim(parts[0]) != [] then [Trim(parts[0])] else []) + TrimmedParts(parts[1..])
  }

  predicate AllSquished(ts: seq<string>) { forall t :: t in ts ==> Squished(t) }

  predicate AllSingleSpaced(ts: seq<string>) { forall t :: t in ts ==> SingleSpaced(t) }

  lemma {:induction false} TrimmedPartsSquished(parts: seq<string>)
    requires AllSingleSpaced(parts)
    ensures AllSquished(TrimmedParts(parts))
  {
    if parts != [] {
      assert parts[0] in parts;
      assert forall t :: t in parts[1..] ==> t in parts;
      TrimmedPartsSquished(parts[1..]);
      TrimKeepsSingleSpaced(parts[0]);
      var head := if Trim(parts[0]) != [] then [Trim(parts[0])] else [];
      assert TrimmedParts(parts) == head + TrimmedParts(parts[1..]);
    }
  }

  /** Every part is a slice of the text, so it inherits single spacing. */
  lemma {:induction false} PartsSingleSpaced(m: (string, nat) -> Option<nat>, s: string, p: nat)
    requires p <= |s| && SentenceMatcher(m) && SingleSpaced(s)
    ensures AllSingleSpaced(PartsWith(m, s, p))
    decreases |s| - p
  {
    if p < |s| {
      match m(s, p)
      case Some(e) =>
        PartsSingleSpaced(m, s, e);
        SingleSpacedSlice(s, p, e);
        assert PartsWith(m, s, p) == [s[p..e]] + PartsWith(m, s, e);
      case None =>
        PartsSingleSpaced(m, s, p + 1);
    }
  }

  /**
   * `splitSentences` for a matcher: normalise whitespace, return nothing for
   * blank text, the whole text when nothing matches, else the trimmed
   * non-empty matches.
   */
  function SplitWith(m: (string, nat) -> Option<nat>, text: string): seq<string>
    requires SentenceMatcher(m)
  {
    var norm := Squish(text);
    if norm == [] then []
    else
      var parts := PartsWith(m, norm, 0);
      if parts == [] then [norm] else TrimmedParts(parts)
  }

  /**
   * `splitSentences` as written: nothing for blank text, otherwise
   * non-empty, trimmed, single-spaced chunks.
   */
  function SplitSentencesAsWritten(text: string): (r: seq<string>)
    ensures IsBlank(text) ==> r == []
    ensures AllSquished(r)
  {
    BothAreSentenceMatchers();
    SplitWithSquished(MatchAsWritten, text);
    SplitWith(MatchAsWritten, text)
  }

  /**
   * `splitSentences` with the intended remainder alternative; the rest of
   * the model uses this one. Nothing for blank text, otherwise non-empty,
   * trimmed, single-spaced chunks.
   */
  function SplitSentences(text: string): (r: seq<string>)
    ensures IsBlank(text) ==> r == []
    ensures AllSquished(r)
  {
    BothAreSentenceMatchers();
    SplitWithSquished(MatchIntended, text);
    SplitWith(MatchIntended, text)
  }

  lemma SplitWithSquished(m: (string, nat) -> Option<nat>, text: string)
    requires SentenceMatcher(m)
    ensures IsBlank(text) ==> SplitWith(m, text) == []
    ensures AllSquished(SplitWith(m, text))
  {
    if IsBlank(text) {
      SquishBlank(text);
    } else if Squish(text) != [] {
      SplitPartsSquished(m, Squish(text));
    }
  }

  /** The split of squished, non-empty text: the whole text, or its trimmed non-empty parts. */
  lemma SplitPartsSquished(m: (string, nat) -> Option<nat>, norm: string)
    requires SentenceMatcher(m)
    requires norm != [] && !IsSpace(norm[0]) && !IsSpace(norm[|norm| - 1]) && SingleSpaced(norm)
    ensures AllSquished(if PartsWith(m, norm, 0) == [] then [norm] else TrimmedParts(PartsWith(m, norm, 0)))
  {
    var parts := PartsWith(m, norm, 0);
    if parts != [] {
      PartsSingleSpaced(m, norm, 0);
      TrimmedPartsSquished(parts);
    } else {
      assert Squished(norm);
    }
  }

  /**
   * A matcher that skips exactly the terminators: where it finds nothing a
   * terminator stands, and a match starts outside a terminator run and ends
   * where none continues.
   */
  ghost predicate SkipsTerminators(m: (string, nat) -> Option<nat>, s: string) {
    && SentenceMatcher(m)
    && forall p: nat {:trigger m(s, p)} :: p < |s| ==>
      && (m(s, p).None? ==> IsSentenceEnd(s[p]))
      && (m(s, p).Some? ==> EndRun(s, p) == 0 && EndRun(s, m(s, p).value) == 0)
  }

  lemma IntendedSkipsTerminators(s: string)
    ensures SkipsTerminators(MatchIntended, s)
  {
    forall p: nat | p < |s| && MatchIntended(s, p).Some?
      ensures EndRun(s, p) == 0 && EndRun(s, MatchIntended(s, p).value) == 0
    {
      SentenceMatchBounds(s, p);
    }
  }

  /** A match of the intended matcher starts and ends outside a terminator run. */
  lemma SentenceMatchBounds(s: string, p: nat)
    requires p < |s| && SentenceMatch(s, p).Some?
    ensures EndRun(s, p) == 0
    ensures EndRun(s, SentenceMatch(s, p).value) == 0
  {
    var n := ProseRun(s, p);
    assert !IsSentenceEnd(s[p]);
    if p + n < |s| {
      var e := p + n + EndRun(s, p + n);
      assert e == |s| || !IsSentenceEnd(s[e]);
    }
  }

  /**
   * The parts of a terminator-skipping matcher cover the text: concatenated
   * they give back everything from p except a leading run of terminators.
   */
  lemma {:induction false} PartsCover(m: (string, nat) -> Option<nat>, s: string, p: nat)
    requires p <= |s| && SkipsTerminators(m, s)
    ensures Concat(PartsWith(m, s, p)) == s[p + EndRun(s, p)..]
    decreases |s| - p
  {
    if p < |s| {
      match m(s, p)
      case Some(e) =>
        PartsCover(m, s, e);
        CoverMatchStep(m, s, p, e);
      case None =>
        PartsCover(m, s, p + 1);
        CoverSkipStep(m, s, p);
    }
  }

  lemma CoverMatchStep(m: (string, nat) -> Option<nat>, s: string, p: nat, e: nat)
    requires p < |s| && SkipsTerminators(m, s) && m(s, p) == Some(e)
    requires Concat(PartsWith(m, s, e)) == s[e + EndRun(s, e)..]
    ensures Concat(PartsWith(m, s, p)) == s[p + EndRun(s, p)..]
  {
    SkipsAt(m, s, p, e);
    PartsAtMatch(m, s, p, e);
    JoinStep(s, p, e, PartsWith(m, s, p), PartsWith(m, s, e));
  }

  lemma SkipsAt(m: (string, nat) -> Option<nat>, s: string, p: nat, e: nat)
    requires p < |s| && SkipsTerminators(m, s) && m(s, p) == Some(e)
    ensures e <= |s| && EndRun(s, p) == 0 && EndRun(s, e) == 0
  {
  }

  lemma PartsAtMatch(m: (string, nat) -> Option<nat>, s: string, p: nat, e: nat)
    requires p < |s| && SentenceMatcher(m) && m(s, p) == Some(e)
    ensures p < e <= |s| && PartsWith(m, s, p) == [s[p..e]] + PartsWith(m, s, e)
  {
  }

  lemma JoinStep(s: string, p: nat, e: nat, parts: seq<string>, rest: seq<string>)
    requires p <= e <= |s| && parts == [s[p..e]] + rest && Concat(rest) == s[e..]
    ensures Concat(parts) == s[p..]
  {
    ConcatCons(s[p..e], rest);
    SliceSplit(s, p, e);
  }

  lemma CoverSkipStep(m: (string, nat) -> Option<nat>, s: string, p: nat)
    requires p < |s| && SkipsTerminators(m, s) && m(s, p).None?
    requires Concat(PartsWith(m, s, p + 1)) == s[p + 1 + EndRun(s, p + 1)..]
    ensures Concat(PartsWith(m, s, p)) == s[p + EndRun(s, p)..]
  {
    assert EndRun(s, p) == 1 + EndRun(s, p + 1);
  }

  /** Each part of a terminator-skipping matcher starts with prose. */
  lemma {:induction false} PartsStartWithProse(m: (string, nat) -> Option<nat>, s: string, p: nat)
    requires p <= |s| && SkipsTerminators(m, s)
    ensures forall i :: 0 <= i < |PartsWith(m, s, p)| ==>
      PartsWith(m, s, p)[i] != [] && !IsSentenceEnd(PartsWith(m, s, p)[i][0])
    decreases |s| - p
  {
    if p < |s| {
      match m(s, p)
      case Some(e) =>
        PartsStartWithProse(m, s, e);
        var rest := PartsWith(m, s, e);
        assert s[p..e][0] == s[p];
        forall i | 0 <= i < |[s[p..e]] + rest|
          ensures ([s[p..e]] + rest)[i] != [] && !IsSentenceEnd(([s[p..e]] + rest)[i][0])
        {
          if i > 0 {
            assert ([s[p..e]] + rest)[i] == rest[i - 1];
          }
        }
      case None =>
        PartsStartWithProse(m, s, p + 1);
    }
  }

  /**
   * With the intended matcher the sentence regex loses nothing but
   * terminators that open the text, and every part starts with prose.
   */
  lemma SentencePartsCover(s: string)
    ensures Concat(PartsWith(MatchIntended, s, 0)) == s[EndRun(s, 0)..]
    ensures forall i :: 0 <= i < |PartsWith(MatchIntended, s, 0)| ==>
      PartsWith(MatchIntended, s, 0)[i] != [] && !IsSentenceEnd(PartsWith(MatchIntended, s, 0)[i][0])
  {
    BothAreSentenceMatchers();
    IntendedSkipsTerminators(s);
    PartsCover(MatchIntended, s, 0);
    PartsStartWithProse(MatchIntended, s, 0);
  }

  /** As written, "a b" loses its first word; the intended split keeps the whole sentence. */
  lemma UnterminatedSentenceLosesWords()
    ensures SplitSentencesAsWritten("a b") == ["b"]
    ensures SplitSentences("a b") == ["a b"]
  {
    AsWrittenDropsFirstWord();
    IntendedKeepsSentence();
  }

  lemma AsWrittenDropsFirstWord()
    ensures SplitSentencesAsWritten("a b") == ["b"]
  {
    BothAreSentenceMatchers();
    AbSquished();
    AbAsWritten();
    SplitWithParts(MatchAsWritten, "a b", ["b"]);
    SingleTrimmedPart("b");
  }

  lemma IntendedKeepsSentence()
    ensures SplitSentences("a b") == ["a b"]
  {
    BothAreSentenceMatchers();
    AbSquished();
    AbIntended();
    SplitWithParts(MatchIntended, "a b", ["a b"]);
    SingleTrimmedPart("a b");
  }

  /** A text that is already squished and splits into parts yields those parts trimmed. */
  lemma SplitWithParts(m: (string, nat) -> Option<nat>, text: string, parts: seq<string>)
    requires SentenceMatcher(m) && Squish(text) == text != []
    requires PartsWith(m, text, 0) == parts != []
    ensures SplitWith(m, text) == TrimmedParts(parts)
  {
  }

  lemma SingleTrimmedPart(t: string)
    requires t != [] && !IsSpace(t[0]) && !IsSpace(t[|t| - 1])
    ensures TrimmedParts([t]) == [t]
  {
    TrimNoEdgeSpaces(t);
    assert [t][1..] == [];
  }

  lemma AbSquished()
    ensures Squish("a b") == "a b"
  {
    var s := "a b";
    assert SingleSpaced(s) by {
      assert !IsSpace(s[0]) && IsSpace(s[1]) && !IsSpace(s[2]);
    }
    SquishFixed(s);
  }

  lemma AbAsWritten()
    ensures PartsWith(MatchAsWritten, "a b", 0) == ["b"]
  {
    var s := "a b";
    BothAreSentenceMatchers();
    assert ProseRun(s, 3) == 0;
    assert ProseRun(s, 2) == 1;
    assert ProseRun(s, 1) == 2;
    assert ProseRun(s, 0) == 3;
    assert IsSpace(s[1]) && !IsSpace(s[2]);
    assert MatchAsWritten(s, 0) == None;
    assert MatchAsWritten(s, 1) == None;
    assert MatchAsWritten(s, 2) == Some(3);
    assert PartsWith(MatchAsWritten, s, 2) == [s[2..3]] + PartsWith(MatchAsWritten, s, 3);
    assert s[2..3] == "b";
  }

  lemma AbIntended()
    ensures PartsWith(MatchIntended, "a b", 0) == ["a b"]
  {
    var s := "a b";
    BothAreSentenceMatchers();
    assert ProseRun(s, 3) == 0;
    assert ProseRun(s, 2) == 1;
    assert ProseRun(s, 1) == 2;
    assert ProseRun(s, 0) == 3;
    assert MatchIntended(s, 0) == Some(3);
    assert PartsWith(MatchIntended, s, 0) == [s[0..3]] + PartsWith(MatchIntended, s, 3);
    assert s[0..3] == s;
  }

  /**
   * The corrected pattern also differs where the text starts with
   * terminators and holds no space: as written `\S+$` keeps ".a" whole,
   * while the corrected pattern drops the leading ".".
   */
  lemma LeadingTerminatorDiffers()
    ensures PartsWith(MatchAsWritten, ".a", 0) == [".a"]
    ensures PartsWith(MatchIntended, ".a", 0) == ["a"]
  {
    var s := ".a";
    BothAreSentenceMatchers();
    assert ProseRun(s, 2) == 0;
    assert ProseRun(s, 1) == 1;
    assert ProseRun(s, 0) == 0;
    assert !IsSpace(s[0]) && !IsSpace(s[1]);
    assert MatchAsWritten(s, 0) == Some(2);
    assert PartsWith(MatchAsWritten, s, 0) == [s[0..2]] + PartsWith(MatchAsWritten, s, 2);
    assert s[0..2] == s;
    assert MatchIntended(s, 0) == None;
    assert MatchIntended(s, 1) == Some(2);
    assert PartsWith(MatchIntended, s, 1) == [s[1..2]] + PartsWith(MatchIntended, s, 2);
    assert s[1..2] == "a";
  }

  // ---------------------------------------------------------------------------
  // normalizeSay
  // ---------------------------------------------------------------------------

  /** Tokens with every text token replaced by its sentences. */
  function Pieces(tokens: seq<Token>): (r: seq<Token>)
  {
    if tokens == [] then []
    else
      var first := match tokens[0]
        case PauseTok(_) => [tokens[0]]
        case TextTok(v) => SentenceTokens(SplitSentences(v));
      first + Pieces(tokens[1..])
  }

  function SentenceTokens(sentences: seq<string>): (r: seq<Token>)
    ensures |r| == |sentences|
    ensures forall i :: 0 <= i < |r| ==> r[i] == TextTok(sentences[i])
  {
    seq(|sentences|, i requires 0 <= i < |sentences| => TextTok(sentences[i]))
  }

  /** Estimated speaking time of one piece, in seconds. */
  function Duration(p: Token): (d: real)
    ensures d >= 0.0
  {
    match p
    case PauseTok(ms) => ms as real / 1000.0
    case TextTok(v) => WordCount(v) as real * SecsPerWord
  }

  function TotalDuration(ps: seq<Token>): real {
    if ps == [] then 0.0 else Duration(ps[0]) + TotalDuration(ps[1..])
  }

  /** How many leading pieces the cap loop keeps, starting from `secs` already spent. */
  function KeptCount(pieces: seq<Token>, secs: real): (k: nat)
    ensures k <= |pieces|
  {
    if pieces == [] then 0
    else if secs + Duration(pieces[0]) > MaxSecs then 0
    else 1 + KeptCount(pieces[1..], secs + Duration(pieces[0]))
  }

  /**
   * The kept prefix fits the cap, and it stops at the first piece that would
   * overflow it.
   */
  lemma {:induction false} KeptPrefixFitsCap(pieces: seq<Token>, secs: real)
    requires secs <= MaxSecs
    ensures secs + TotalDuration(pieces[..KeptCount(pieces, secs)]) <= MaxSecs
    ensures KeptCount(pieces, secs) < |pieces| ==>
      secs + TotalDuration(pieces[..KeptCount(pieces, secs)]) + Duration(pieces[KeptCount(pieces, secs)]) > MaxSecs
  {
    if pieces != [] && secs + Duration(pieces[0]) <= MaxSecs {
      var d := Duration(pieces[0]);
      var k := KeptCount(pieces[1..], secs + d);
      KeptPrefixFitsCap(pieces[1..], secs + d);
      assert pieces[..k + 1][0] == pieces[0];
      assert pieces[..k + 1][1..] == pieces[1..][..k];
      if k + 1 < |pieces| {
        assert pieces[k + 1] == pieces[1..][k];
      }
    }
  }

  /** The cap loop of `normalizeSay` (lines with `secs`, `kept` and `break`). */
  method CapPieces(pieces: seq<Token>, enforceCap: bool) returns (kept: seq<Token>)
    ensures enforceCap ==> kept == pieces[..KeptCount(pieces, 0.0)]
    ensures !enforceCap ==> kept == pieces
  {
    var secs := 0.0;
    kept := [];
    var i := 0;
    while i < |pieces|
      invariant i <= |pieces|
      invariant kept == pieces[..i]
      invariant enforceCap ==> KeptCount(pieces, 0.0) == i + KeptCount(pieces[i..], secs)
      decreases |pieces| - i
    {
      var p := pieces[i];
      assert pieces[i..][0] == p && pieces[i..][1..] == pieces[i + 1..];
      if !enforceCap {
        kept := kept + [p];
        i := i + 1;
        continue;
      }
      var add := Duration(p);
      if secs + add > MaxSecs {
        break;
      }
      kept := kept + [p];
      secs := secs + add;
      i := i + 1;
    }
    assert i == |pieces| ==> pieces[..i] == pieces;
  }

  function RenderPiece(p: Token): string {
    match p
    case PauseTok(ms) => "[pause-" + NatToString(ms) + "]"
    case TextTok(v) => v
  }

  function Rendered(ps: seq<Token>): (r: seq<string>)
    ensures |r| == |ps|
  {
    seq(|ps|, i requires 0 <= i < |ps| => RenderPiece(ps[i]))
  }

  /** `/\s*\[pause-(\d{2,4})\]\s*\/g` (case-sensitive) anchored at i, as in `normalizeSay`. */
  function SayTagAt(s: string, i: nat): Option<(nat, nat, nat)> {
    if i <= |s| then PauseTag.SpacedTagAt(s, i, MaxTagDigits, false) else None
  }

  /** `/\s*\[pause-\d{2,4}\]\s*\/gi` anchored at i, as in `chunkSayForPlayback`. */
  function CleanTagAt(s: string, i: nat): Option<(nat, nat, nat)> {
    if i <= |s| then PauseTag.SpacedTagAt(s, i, MaxTagDigits, true) else None
  }

  lemma SpacedMatchersValid()
    ensures PauseTag.SpacedMatcher(SayTagAt, MaxTagDigits, false)
    ensures PauseTag.SpacedMatcher(CleanTagAt, MaxTagDigits, true)
  {
  }

  /**
   * `.map(render).join(" ")`, then `/\s*\[pause-(\d{2,4})\]\s*\/g` to
   * " [pause-$1] ", then `/\s+/g` to " ", then `trim()`.
   */
  function Assemble(ps: seq<Token>): (r: string)
    ensures r == [] || (!IsSpace(r[0]) && !IsSpace(r[|r| - 1]))
    ensures SingleSpaced(r)
  {
    SpacedMatchersValid();
    Squish(PauseTag.ReplaceWith(SayTagAt, Join(Rendered(ps), " "), MaxTagDigits, false, true))
  }

  /** Length of the `\s` run that ends just before i. */
  function SpaceRunBefore(s: string, i: nat): (n: nat)
    requires i <= |s|
    ensures n <= i
    ensures forall k :: i - n <= k < i ==> IsSpace(s[k])
    ensures n == i || !IsSpace(s[i - n - 1])
  {
    if i > 0 && IsSpace(s[i - 1]) then 1 + SpaceRunBefore(s, i - 1) else 0
  }

  /** Length of the terminator run that ends just before i. */
  function EndRunBefore(s: string, i: nat): (n: nat)
    requires i <= |s|
    ensures n <= i
    ensures forall k :: i - n <= k < i ==> IsSentenceEnd(s[k])
    ensures n == i || !IsSentenceEnd(s[i - n - 1])
  {
    if i > 0 && IsSentenceEnd(s[i - 1]) then 1 + EndRunBefore(s, i - 1) else 0
  }

  /**
   * `out.replace(/[.?!]*\s*$/, "")`: deletes the leftmost suffix made of
   * terminators followed by whitespace.
   */
  function StripClosingPunctuation(s: string): (r: string)
    ensures |r| <= |s| && r == s[..|r|]
    ensures exists m :: |r| <= m <= |s| && (forall k :: |r| <= k < m ==> IsSentenceEnd(s[k])) && IsBlank(s[m..])
    ensures r == [] || !IsSentenceEnd(r[|r| - 1])
  {
    var a := |s| - SpaceRunBefore(s, |s|);
    var b := a - EndRunBefore(s, a);
    assert IsBlank(s[a..]) by {
      forall k | 0 <= k < |s[a..]| ensures IsSpace(s[a..][k]) { assert s[a..][k] == s[a + k]; }
    }
    s[..b]
  }

  /**
   * The invite step: strip the closing terminators and spaces, then append
   * " " and the invite; what precedes the invite never ends in a terminator.
   */
  function AppendInvite(out: string): (r: string)
    ensures |r| > |Invite| && r[|r| - |Invite| - 1..] == " " + Invite
    ensures r[..|r| - |Invite| - 1] == StripClosingPunctuation(out)
    ensures |r| == |Invite| + 1 || !IsSentenceEnd(r[|r| - |Invite| - 2])
  {
    var stripped := StripClosingPunctuation(out);
    ConcatHalves(stripped, " " + Invite);
    stripped + (" " + Invite)
  }

  /** The whole of `normalizeSay` once the options are resolved. */
  function NormalizeSayValue(input: string, rewrite: string -> string, enforceCap: bool, addInvite: bool): string {
    var pieces := Pieces(Tokenize(rewrite(input)));
    var k := KeptCount(pieces, 0.0);
    var trimmed := enforceCap && k < |pieces|;
    var out := Assemble(if enforceCap then pieces[..k] else pieces);
    if addInvite && trimmed then AppendInvite(out) else out
  }

  /**
   * `normalizeSay(input, opts)`; `enforceCap` and `addInvite` default to
   * true; `rewrite` stands for the contraction, acronym and slash rewrites.
   */
  method NormalizeSay(input: string, rewrite: string -> string, enforceCapOpt: Option<bool>, addInviteOpt: Option<bool>)
    returns (out: string)
    ensures out == NormalizeSayValue(input, rewrite, enforceCapOpt.GetOr(true), addInviteOpt.GetOr(true))
  {
    var enforceCap := enforceCapOpt.GetOr(true);
    var addInvite := addInviteOpt.GetOr(true);
    var text := rewrite(input);
    var tokens := TokenizeByPause(text);
    var pieces := Pieces(tokens);
    var kept := CapPieces(pieces, enforceCap);
    var trimmed := enforceCap && |kept| < |pieces|;
    ghost var k := KeptCount(pieces, 0.0);
    assert trimmed == (enforceCap && k < |pieces|);
    assert (if enforceCap then kept else pieces) == (if enforceCap then pieces[..k] else pieces);
    out := Assemble(if enforceCap then kept else pieces);
    if addInvite && trimmed {
      out := AppendInvite(out);
    }
  }

  /**
   * Under the cap, the spoken pieces are a prefix of all pieces that fits in
   * max(1, 12) seconds and stops at the first piece that would not fit;
   * without the invite the output is exactly those pieces, whitespace-normalised.
   */
  lemma NormalizeSayCapped(input: string, rewrite: string -> string)
    ensures var pieces := Pieces(Tokenize(rewrite(input)));
      var k := KeptCount(pieces, 0.0);
      && TotalDuration(pieces[..k]) <= MaxSecs
      && (k < |pieces| ==> TotalDuration(pieces[..k]) + Duration(pieces[k]) > MaxSecs)
      && NormalizeSayValue(input, rewrite, true, false) == Assemble(pieces[..k])
  {
    KeptPrefixFitsCap(Pieces(Tokenize(rewrite(input))), 0.0);
  }

  /**
   * The invite is added exactly when it is requested and pieces were dropped,
   * after the closing terminators and spaces are stripped.
   */
  lemma InviteOnlyWhenTrimmed(input: string, rewrite: string -> string, enforceCap: bool, addInvite: bool)
    ensures var pieces := Pieces(Tokenize(rewrite(input)));
      var k := KeptCount(pieces, 0.0);
      var said := Assemble(if enforceCap then pieces[..k] else pieces);
      var out := NormalizeSayValue(input, rewrite, enforceCap, addInvite);
      && (addInvite && enforceCap && k < |pieces| ==>
            && |out| > |Invite| && out[|out| - |Invite| - 1..] == " " + Invite
            && out[..|out| - |Invite| - 1] == StripClosingPunctuation(said))
      && (!(addInvite && enforceCap && k < |pieces|) ==> out == said)
  {
    var pieces := Pieces(Tokenize(rewrite(input)));
    var k := KeptCount(pieces, 0.0);
    var said := Assemble(if enforceCap then pieces[..k] else pieces);
    var trimmed := addInvite && enforceCap && k < |pieces|;
    assert NormalizeSayValue(input, rewrite, enforceCap, addInvite) == if trimmed then AppendInvite(said) else said;
  }

  /** Without the cap every piece is spoken and no invite is added. */
  lemma NoCapKeepsEverything(input: string, rewrite: string -> string, addInvite: bool)
    ensures NormalizeSayValue(input, rewrite, false, addInvite) == Assemble(Pieces(Tokenize(rewrite(input))))
  {
  }

  // ---------------------------------------------------------------------------
  // chunkSayForPlayback
  // ---------------------------------------------------------------------------

  /** `{ text, pauseMs? }`. */
  datatype Chunk = Chunk(text: string, pauseMs: Option<nat>)

  /** `c.text === "" && c.pauseMs` (a zero pause is falsy). */
  predicate IsPauseOnly(c: Chunk) { c.text == [] && c.pauseMs.Some? && c.pauseMs.value != 0 }

  /** The defensive clean-up of one sentence. */
  function Clean(sentence: string): string {
    SpacedMatchersValid();
    Squish(PauseTag.ReplaceWith(CleanTagAt, sentence, MaxTagDigits, true, false))
  }

  /** The chunk of one sentence: none when nothing is left after the clean-up. */
  function SentenceChunk(sentence: string): seq<Chunk> {
    var c := Clean(sentence);
    if c != [] then [Chunk(c, None)] else []
  }

  /** The chunks of one text token: its cleaned, non-empty sentences. */
  function SentenceChunks(sentences: seq<string>): seq<Chunk> {
    if sentences == [] then []
    else SentenceChunk(sentences[0]) + SentenceChunks(sentences[1..])
  }

  /** A chunk of speech: non-empty, trimmed, single-spaced text and no pause. */
  predicate TextChunk(c: Chunk) { c.pauseMs.None? && Squished(c.text) }

  /** A chunk is either speech or a bare pause. */
  predicate ChunkShape(c: Chunk) { TextChunk(c) || (c.text == [] && c.pauseMs.Some?) }

  predicate AllShaped(cs: seq<Chunk>) { forall c :: c in cs ==> ChunkShape(c) }

  /** The clean-up leaves nothing, or trimmed single-spaced text. */
  lemma CleanSquished(sentence: string)
    ensures Clean(sentence) == [] || Squished(Clean(sentence))
  {
    SpacedMatchersValid();
    var x := PauseTag.ReplaceWith(CleanTagAt, sentence, MaxTagDigits, true, false);
    assert Clean(sentence) == Squish(x);
    var r := Squish(x);
    assert r == [] || (!IsSpace(r[0]) && !IsSpace(r[|r| - 1]));
    assert SingleSpaced(r);
  }

  lemma {:induction false} SentenceChunksAreText(sentences: seq<string>)
    ensures forall c :: c in SentenceChunks(sentences) ==> TextChunk(c)
  {
    if sentences != [] {
      SentenceChunksAreText(sentences[1..]);
      CleanSquished(sentences[0]);
      assert SentenceChunks(sentences) == SentenceChunk(sentences[0]) + SentenceChunks(sentences[1..]);
    }
  }

  /**
   * The chunks before merging: a bare pause per pause token and the
   * sentence chunks of each text token, in order; every one is speech or a
   * bare pause.
   */
  function RawChunks(tokens: seq<Token>): (r: seq<Chunk>)
    ensures AllShaped(r)
  {
    if tokens == [] then []
    else
      var first := match tokens[0]
        case PauseTok(ms) => [Chunk([], Some(ms))]
        case TextTok(v) => (SentenceChunksAreText(SplitSentences(v)); SentenceChunks(SplitSentences(v)));
      var rest := RawChunks(tokens[1..]);
      assert forall c :: c in first + rest ==> c in first || c in rest;
      first + rest
  }

  /** One iteration of the merge loop. */
  function MergeStep(merged: seq<Chunk>, c: Chunk): seq<Chunk> {
    if IsPauseOnly(c) && |merged| > 0 && IsPauseOnly(merged[|merged| - 1]) then
      merged[..|merged| - 1] + [Chunk([], Some(merged[|merged| - 1].pauseMs.value + c.pauseMs.value))]
    else merged + [c]
  }

  /**
   * The merge pass over all chunks, left to right: never longer than its
   * input, and empty only for no chunks; its last chunk is the last input
   * chunk unless that one was folded into a pause.
   */
  function Merge(chunks: seq<Chunk>): (r: seq<Chunk>)
    ensures |r| <= |chunks| && (r == [] <==> chunks == [])
    ensures chunks != [] && !IsPauseOnly(chunks[|chunks| - 1]) ==> r[|r| - 1] == chunks[|chunks| - 1]
  {
    if chunks == [] then [] else MergeStep(Merge(chunks[..|chunks| - 1]), chunks[|chunks| - 1])
  }

  lemma MergeSnoc(chunks: seq<Chunk>, i: nat)
    requires i < |chunks|
    ensures Merge(chunks[..i + 1]) == MergeStep(Merge(chunks[..i]), chunks[i])
  {
    assert chunks[..i + 1][..i] == chunks[..i];
  }

  /** The loop body: `prev.pauseMs += c.pauseMs` on a pause after a pause, else `merged.push(c)`. */
  method MergeOne(merged: seq<Chunk>, c: Chunk) returns (merged': seq<Chunk>)
    ensures merged' == MergeStep(merged, c)
  {
    if IsPauseOnly(c) && |merged| > 0 {
      var prev := merged[|merged| - 1];
      if IsPauseOnly(prev) {
        merged' := merged[..|merged| - 1] + [Chunk([], Some(prev.pauseMs.value + c.pauseMs.value))];
        return;
      }
    }
    merged' := merged + [c];
  }

  /** The merge loop, where `prev.pauseMs += c.pauseMs` updates the last kept chunk. */
  method MergePauses(chunks: seq<Chunk>) returns (merged: seq<Chunk>)
    ensures merged == Merge(chunks)
  {
    merged := [];
    for i := 0 to |chunks|
      invariant merged == Merge(chunks[..i])
    {
      MergeSnoc(chunks, i);
      merged := MergeOne(merged, chunks[i]);
    }
    assert chunks[..|chunks|] == chunks;
  }

  function ChunkSay(say: string): seq<Chunk> {
    Merge(RawChunks(Tokenize(say)))
  }

  /** `chunkSayForPlayback(say)`. */
  method ChunkSayForPlayback(say: string) returns (chunks: seq<Chunk>)
    ensures chunks == ChunkSay(say)
  {
    var tokens := TokenizeByPause(say);
    chunks := MergePauses(RawChunks(tokens));
  }

  /** The spoken texts, in order. */
  function Texts(cs: seq<Chunk>): seq<string> {
    if cs == [] then []
    else Texts(cs[..|cs| - 1]) + (if cs[|cs| - 1].text != [] then [cs[|cs| - 1].text] else [])
  }

  /** Total pause time, counting a missing pause as 0. */
  function TotalPause(cs: seq<Chunk>): nat {
    if cs == [] then 0 else TotalPause(cs[..|cs| - 1]) + cs[|cs| - 1].pauseMs.GetOr(0)
  }

  predicate NoAdjacentPauses(cs: seq<Chunk>) {
    forall i :: 0 <= i < |cs| - 1 ==> !(IsPauseOnly(cs[i]) && IsPauseOnly(cs[i + 1]))
  }

  lemma Snoc(cs: seq<Chunk>, c: Chunk)
    ensures (cs + [c])[..|cs|] == cs && (cs + [c])[|cs|] == c
    ensures Texts(cs + [c]) == Texts(cs) + (if c.text != [] then [c.text] else [])
    ensures TotalPause(cs + [c]) == TotalPause(cs) + c.pauseMs.GetOr(0)
  {
    assert (cs + [c])[..|cs|] == cs;
  }

  /** One merge step adds the chunk's text and pause time and nothing else. */
  lemma MergeStepKeeps(m: seq<Chunk>, c: Chunk)
    ensures Texts(MergeStep(m, c)) == Texts(m) + (if c.text != [] then [c.text] else [])
    ensures TotalPause(MergeStep(m, c)) == TotalPause(m) + c.pauseMs.GetOr(0)
  {
    if IsPauseOnly(c) && |m| > 0 && IsPauseOnly(m[|m| - 1]) {
      var prefix := m[..|m| - 1];
      var last := m[|m| - 1];
      assert m == prefix + [last];
      Snoc(prefix, last);
      Snoc(prefix, Chunk([], Some(last.pauseMs.value + c.pauseMs.value)));
    } else {
      Snoc(m, c);
    }
  }

  /** One merge step keeps the shapes and leaves no two pause-only chunks side by side. */
  lemma MergeStepShapes(m: seq<Chunk>, c: Chunk)
    requires AllShaped(m) && ChunkShape(c) && NoAdjacentPauses(m)
    ensures AllShaped(MergeStep(m, c)) && NoAdjacentPauses(MergeStep(m, c))
    ensures |MergeStep(m, c)| <= |m| + 1
  {
    var r := MergeStep(m, c);
    if IsPauseOnly(c) && |m| > 0 && IsPauseOnly(m[|m| - 1]) {
      var prefix := m[..|m| - 1];
      forall i | 0 <= i < |r| - 1 ensures !(IsPauseOnly(r[i]) && IsPauseOnly(r[i + 1])) {
        assert r[i] == m[i];
        if i < |r| - 2 {
          assert r[i + 1] == m[i + 1];
        }
      }
      forall x | x in r ensures ChunkShape(x) {
        if x in prefix {
          assert x in m;
        }
      }
    } else {
      forall i | 0 <= i < |r| - 1 ensures !(IsPauseOnly(r[i]) && IsPauseOnly(r[i + 1])) {
        assert r[i] == m[i];
        if i < |r| - 2 {
          assert r[i + 1] == m[i + 1];
        }
      }
    }
  }

  /**
   * Merging keeps the spoken texts and their order, keeps the total pause
   * time, keeps every chunk's shape, never lengthens, and leaves no two
   * pause-only chunks side by side.
   */
  lemma {:induction false} MergeProperties(chunks: seq<Chunk>)
    requires AllShaped(chunks)
    ensures Texts(Merge(chunks)) == Texts(chunks)
    ensures TotalPause(Merge(chunks)) == TotalPause(chunks)
    ensures AllShaped(Merge(chunks)) && NoAdjacentPauses(Merge(chunks))
    ensures |Merge(chunks)| <= |chunks|
    decreases |chunks|
  {
    if chunks != [] {
      var init := chunks[..|chunks| - 1];
      var c := chunks[|chunks| - 1];
      assert chunks == init + [c];
      assert AllShaped(init) by {
        forall x | x in init ensures ChunkShape(x) { assert x in chunks; }
      }
      MergeProperties(init);
      MergeStepKeeps(Merge(init), c);
      MergeStepShapes(Merge(init), c);
      Snoc(init, c);
    }
  }

  /**
   * `chunkSayForPlayback` yields speech chunks (non-empty, trimmed,
   * single-spaced text) and bare pauses, never two positive pauses in a row,
   * and keeps the spoken texts and the pause time of the unmerged chunks.
   */
  lemma ChunkSayShape(say: string)
    ensures AllShaped(ChunkSay(say)) && NoAdjacentPauses(ChunkSay(say))
    ensures TotalPause(ChunkSay(say)) == TotalPause(RawChunks(Tokenize(say)))
    ensures Texts(ChunkSay(say)) == Texts(RawChunks(Tokenize(say)))
  {
    MergeProperties(RawChunks(Tokenize(say)));
  }

  /** Two positive pauses in a row become one pause chunk holding their sum; a zero pause is kept apart. */
  lemma AdjacentPausesMerge(a: nat, b: nat)
    ensures Merge([Chunk([], Some(a)), Chunk([], Some(b))])
      == if a > 0 && b > 0 then [Chunk([], Some(a + b))] else [Chunk([], Some(a)), Chunk([], Some(b))]
  {
    var raw := [Chunk([], Some(a)), Chunk([], Some(b))];
    assert raw[..1] == [Chunk([], Some(a))];
    assert Merge(raw[..1]) == [Chunk([], Some(a))] by {
      assert raw[..1][..0] == [];
    }
  }
}

/**
 * The streaming segmenter (`createSegmenter` in src/lib/segmenter.ts).
 *
 * It keeps the unconsumed `tail` between `push` calls and scans `tail + chunk`
 * character by character for speech boundaries: a `[pause-N]` tag (2 to 5
 * digits), an ellipsis (three or more dots, plus any closers after it), or one
 * of `.`, `!`, `?` followed by the end of the text, a space or a closer, with
 * decimal points and a fixed list of abbreviations protected.
 *
 * Deviation from the code as written: after emitting a segment the source sets
 * `i = 0` and `tail = remaining` but never re-slices the scanned string `s`, so
 * the scan finds the same boundary again and the loop does not terminate
 * (`LiteralScan` and `LiteralScanNeverFinishes` below). The model follows the
 * behaviour its comment describes, "consume everything up to end and restart":
 * it emits the prefix and continues scanning the remainder.
 */
module Segmenter {
  import opened Text
  import opened Wrappers
  import PauseTag

  /** `CLOSERS`: the characters absorbed into a segment after its terminator. */
  const Closers: set<char> := {'"', '\'', ')', ']'}

  /** `ABBRS`: lower-cased tokens whose trailing period is not a sentence end. */
  const Abbreviations: set<string> := {
    "mr", "mrs", "ms", "dr", "prof", "sr", "jr", "st", "no", "nos", "etc",
    "e.g", "i.e", "vs", "fig", "cf", "inc", "ltd", "co", "u.s", "u.k", "ph.d"
  }

  /** `PAUSE_RE` is `/\[pause-(\d{2,5})\]/y`: case-sensitive, at most 5 digits. */
  const MaxTagDigits: nat := 5

  predicate IsCloser(c: char) { c in Closers }

  predicate IsTerminator(c: char) { c == '.' || c == '!' || c == '?' }

  /** Characters `readPrevToken` walks back over: `[A-Za-z.\-]`. */
  predicate IsTokenChar(c: char) { IsAsciiLetter(c) || c == '.' || c == '-' }

  // ---------------------------------------------------------------------------
  // Specification of the helpers
  // ---------------------------------------------------------------------------

  /** Length of the run of c starting at i (what `countRun` counts). */
  function RunLength(s: string, i: nat, c: char): (n: nat)
    requires i <= |s|
    ensures i + n <= |s|
    ensures forall k :: i <= k < i + n ==> s[k] == c
    ensures i + n == |s| || s[i + n] != c
    decreases |s| - i
  {
    if i < |s| && s[i] == c then 1 + RunLength(s, i + 1, c) else 0
  }

  /** First index at or after i that is not a closer (what `consumeClosers` returns). */
  function CloserEnd(s: string, i: nat): (e: nat)
    requires i <= |s|
    ensures i <= e <= |s|
    ensures forall k :: i <= k < e ==> IsCloser(s[k])
    ensures e == |s| || !IsCloser(s[e])
    decreases |s| - i
  {
    if i < |s| && IsCloser(s[i]) then CloserEnd(s, i + 1) else i
  }

  /** Start of the maximal run of token characters that ends just before i. */
  function TokenStart(s: string, i: nat): (j: nat)
    requires i <= |s|
    ensures j <= i
    ensures forall k :: j <= k < i ==> IsTokenChar(s[k])
    ensures j == 0 || !IsTokenChar(s[j - 1])
  {
    if i > 0 && IsTokenChar(s[i - 1]) then TokenStart(s, i - 1) else i
  }

  /** `isDecimal` at the dot s[i]: a digit before and a digit (not a dot) after. */
  predicate IsDecimalPoint(s: string, i: nat)
    requires i < |s|
  {
    var digitBefore := i > 0 && IsDigit(s[i - 1]);
    if digitBefore && i + 1 < |s| && s[i + 1] == '.' then false
    else digitBefore && i + 1 < |s| && IsDigit(s[i + 1])
  }

  /** The period at s[i] ends a token from `ABBRS`. */
  predicate IsAbbreviationDot(s: string, i: nat)
    requires i < |s|
  {
    var token := s[TokenStart(s, i)..i];
    token != [] && Lower(token) in Abbreviations
  }

  /**
   * One step of the scan at position i: Some(end) when a segment ends at
   * `end` (exclusive) because of what starts at i, None otherwise.
   */
  function BoundaryAt(s: string, i: nat): (r: Option<nat>)
    requires i < |s|
    ensures r.Some? ==> i < r.value <= |s|
  {
    match PauseTag.TagAt(s, i, MaxTagDigits, false)
    case Some(e) => Some(e)
    case None =>
      if !IsTerminator(s[i]) then None
      else if s[i] == '.' && RunLength(s, i, '.') >= 3 then Some(CloserEnd(s, i + RunLength(s, i, '.')))
      else if s[i] == '.' && IsDecimalPoint(s, i) then None
      else if s[i] == '.' && IsAbbreviationDot(s, i) then None
      else if i + 1 == |s| || IsSpace(s[i + 1]) || IsCloser(s[i + 1]) then Some(CloserEnd(s, i + 1))
      else None
  }

  /** `BoundaryAt` extended with "no boundary" past the end, as a total function value. */
  function Boundary(s: string, i: nat): (r: Option<nat>)
    ensures r.Some? ==> i < r.value <= |s|
  {
    if i < |s| then BoundaryAt(s, i) else None
  }

  /** A boundary finder only ever closes a non-empty segment inside the text. */
  ghost predicate Advances(find: (string, nat) -> Option<nat>) {
    forall s: string, i: nat {:trigger find(s, i)} :: find(s, i).Some? ==> i < find(s, i).value <= |s|
  }

  lemma BoundaryAdvances()
    ensures Advances(Boundary)
  {
  }

  /**
   * The scan from position i under the restart-on-remainder reading, for a
   * given boundary finder: the segments it emits and the text left over.
   */
  function ScanWith(find: (string, nat) -> Option<nat>, s: string, i: nat): (seq<string>, string)
    requires i <= |s| && Advances(find)
    decreases |s|, |s| - i
  {
    if i == |s| then ([], s)
    else match find(s, i)
      case Some(e) =>
        var next := ScanWith(find, s[e..], 0);
        ([s[..e]] + next.0, next.1)
      case None => ScanWith(find, s, i + 1)
  }

  /**
   * The segmenter's scan from position i, with no boundary before i: the
   * segments and the rest give back the text, no segment is empty and the
   * rest holds no boundary.
   */
  function Scan(s: string, i: nat): (r: (seq<string>, string))
    requires i <= |s|
    ensures Concat(r.0) + r.1 == s
    ensures forall k :: 0 <= k < |r.0| ==> r.0[k] != []
    ensures (forall k :: 0 <= k < i ==> Boundary(s, k).None?) ==>
      forall k :: 0 <= k < |r.1| ==> Boundary(r.1, k).None?
  {
    BoundaryAdvances();
    ScanWithReassembles(Boundary, s, i);
    ScanWithSegmentsNonEmpty(Boundary, s, i);
    if forall k :: 0 <= k < i ==> Boundary(s, k).None? then
      ScanWithRestHasNoBoundary(Boundary, s, i);
      ScanWith(Boundary, s, i)
    else ScanWith(Boundary, s, i)
  }

  /** The result of scanning a whole text. */
  function Segment(text: string): (seq<string>, string) {
    Scan(text, 0)
  }

  // ---------------------------------------------------------------------------
  // The segmenter object
  // ---------------------------------------------------------------------------

  /** Counting loop of `countRun`. */
  method CountRun(s: string, idx: nat, c: char) returns (n: nat)
    requires idx <= |s|
    ensures n == RunLength(s, idx, c)
  {
    n := 0;
    while idx + n < |s| && s[idx + n] == c
      invariant idx + n <= |s|
      invariant RunLength(s, idx, c) == n + RunLength(s, idx + n, c)
      decreases |s| - idx - n
    {
      n := n + 1;
    }
  }

  /** Counting loop of `consumeClosers`. */
  method ConsumeClosers(s: string, idx: nat) returns (i: nat)
    requires idx <= |s|
    ensures i == CloserEnd(s, idx)
  {
    i := idx;
    while i < |s| && IsCloser(s[i])
      invariant idx <= i <= |s|
      invariant CloserEnd(s, idx) == CloserEnd(s, i)
      decreases |s| - i
    {
      i := i + 1;
    }
  }

  /** Backward loop of `readPrevToken`. */
  method ReadPrevToken(s: string, idx: nat) returns (token: string)
    requires idx <= |s|
    ensures token == s[TokenStart(s, idx)..idx]
  {
    var j: nat := idx;
    while j > 0 && IsTokenChar(s[j - 1])
      invariant j <= idx
      invariant TokenStart(s, idx) == TokenStart(s, j)
      decreases j
    {
      j := j - 1;
    }
    token := s[j..idx];
  }

  /** The checks the body of the scan loop makes at position i, in the source's order. */
  method FindBoundary(s: string, i: nat) returns (r: Option<nat>)
    requires i < |s|
    ensures r == BoundaryAt(s, i)
  {
    var tag := PauseTag.TagAt(s, i, MaxTagDigits, false);
    if tag.Some? {
      return tag;
    }
    var ch := s[i];
    if IsTerminator(ch) {
      if ch == '.' {
        var runLen := CountRun(s, i, '.');
        var isDecimal := IsDecimalPoint(s, i);
        if runLen >= 3 {
          var end := ConsumeClosers(s, i + runLen);
          return Some(end);
        }
        if isDecimal {
          return None;
        }
        var prevToken := ReadPrevToken(s, i);
        if prevToken != [] && Lower(prevToken) in Abbreviations {
          return None;
        }
      }
      if i + 1 == |s| || IsSpace(s[i + 1]) || IsCloser(s[i + 1]) {
        var after := ConsumeClosers(s, i + 1);
        return Some(after);
      }
    }
    return None;
  }

  class StreamSegmenter {
    /** Text received but not yet emitted as a segment. */
    var tail: string

    constructor ()
      ensures tail == []
    {
      tail := [];
    }

    /** `push(chunk)`: the ready segments and the new tail. */
    method Push(chunk: string) returns (ready: seq<string>, rest: string)
      modifies this
      ensures chunk == [] ==> ready == [] && rest == old(tail) && tail == old(tail)
      ensures chunk != [] ==> (ready, rest) == Segment(old(tail) + chunk)
      ensures rest == tail
    {
      if chunk == [] {
        return [], tail;
      }
      var s := tail + chunk;
      ghost var whole := s;
      var i := 0;
      ready := [];
      assert ready + Scan(s, i).0 == Scan(s, i).0;
      while i < |s|
        invariant i <= |s|
        invariant Segment(whole) == (ready + Scan(s, i).0, Scan(s, i).1)
        decreases |s|, |s| - i
      {
        var b := FindBoundary(s, i);
        if b.Some? {
          var end := b.value;
          assert Scan(s, i).0 == [s[..end]] + Scan(s[end..], 0).0;
          assert ready + Scan(s, i).0 == (ready + [s[..end]]) + Scan(s[end..], 0).0;
          ready := ready + [s[..end]];
          s := s[end..];
          i := 0;
        } else {
          i := i + 1;
        }
      }
      assert ready + Scan(s, i).0 == ready;
      tail := s;
      rest := tail;
    }

    /** `flush()`: the non-blank tail as one last segment; the tail is emptied. */
    method Flush() returns (out: seq<string>)
      modifies this
      ensures tail == []
      ensures IsBlank(old(tail)) ==> out == []
      ensures !IsBlank(old(tail)) ==> out == [old(tail)]
    {
      TrimEmptyIffBlank(tail);
      if Trim(tail) == [] {
        tail := [];
        return [];
      }
      out := [tail];
      tail := [];
    }
  }

  // ---------------------------------------------------------------------------
  // Properties of the scan
  // ---------------------------------------------------------------------------

  /** The segments followed by the new tail give back exactly the scanned text. */
  lemma {:induction false} ScanWithReassembles(find: (string, nat) -> Option<nat>, s: string, i: nat)
    requires i <= |s| && Advances(find)
    ensures Concat(ScanWith(find, s, i).0) + ScanWith(find, s, i).1 == s
    decreases |s|, |s| - i
  {
    if i < |s| {
      match find(s, i)
      case Some(e) =>
        var next := ScanWith(find, s[e..], 0);
        ScanWithReassembles(find, s[e..], 0);
        var segs := [s[..e]] + next.0;
        assert segs[0] == s[..e] && segs[1..] == next.0;
        assert s[..e] + s[e..] == s;
      case None =>
        ScanWithReassembles(find, s, i + 1);
    }
  }

  /** Every emitted segment is non-empty. */
  lemma {:induction false} ScanWithSegmentsNonEmpty(find: (string, nat) -> Option<nat>, s: string, i: nat)
    requires i <= |s| && Advances(find)
    ensures forall k :: 0 <= k < |ScanWith(find, s, i).0| ==> ScanWith(find, s, i).0[k] != []
    decreases |s|, |s| - i
  {
    if i < |s| {
      match find(s, i)
      case Some(e) => ScanWithSegmentsNonEmpty(find, s[e..], 0);
      case None => ScanWithSegmentsNonEmpty(find, s, i + 1);
    }
  }

  /** The text left over holds no position where the finder would close a segment. */
  lemma {:induction false} ScanWithRestHasNoBoundary(find: (string, nat) -> Option<nat>, s: string, i: nat)
    requires i <= |s| && Advances(find)
    requires forall k :: 0 <= k < i ==> find(s, k).None?
    ensures forall k :: 0 <= k < |ScanWith(find, s, i).1| ==> find(ScanWith(find, s, i).1, k).None?
    decreases |s|, |s| - i
  {
    if i < |s| {
      match find(s, i)
      case Some(e) => ScanWithRestHasNoBoundary(find, s[e..], 0);
      case None => ScanWithRestHasNoBoundary(find, s, i + 1);
    }
  }

  /**
   * Under the restart-on-remainder reading, `push` emits non-empty segments
   * that, followed by the new tail, concatenate to old tail + chunk, and no
   * position of the new tail is a boundary.
   */
  lemma PushReassembles(tail: string, chunk: string)
    ensures Concat(Segment(tail + chunk).0) + Segment(tail + chunk).1 == tail + chunk
    ensures forall k :: 0 <= k < |Segment(tail + chunk).0| ==> Segment(tail + chunk).0[k] != []
    ensures forall k :: 0 <= k < |Segment(tail + chunk).1| ==> BoundaryAt(Segment(tail + chunk).1, k).None?
  {
    BoundaryAdvances();
    ScanWithReassembles(Boundary, tail + chunk, 0);
    ScanWithSegmentsNonEmpty(Boundary, tail + chunk, 0);
    ScanWithRestHasNoBoundary(Boundary, tail + chunk, 0);
    var rest := Segment(tail + chunk).1;
    forall k | 0 <= k < |rest| ensures BoundaryAt(rest, k).None? {
      assert Boundary(rest, k).None?;
    }
  }

  /** A `[pause-N]` tag with 2 to 5 digits at i is a boundary ending right after its `]`. */
  lemma PauseTagIsBoundary(s: string, i: nat, e: nat)
    requires i < e <= |s|
    requires PauseTag.IsTag(s[i..e], MaxTagDigits, false)
    ensures BoundaryAt(s, i) == Some(e)
  {
    PauseTag.TagAtFinds(s, i, e, MaxTagDigits, false);
  }

  /** A dot with a digit on both sides ("3.14") is never a boundary. */
  lemma DecimalPointIsNotBoundary(s: string, i: nat)
    requires 0 < i && i + 1 < |s| && s[i] == '.'
    requires IsDigit(s[i - 1]) && IsDigit(s[i + 1])
    ensures BoundaryAt(s, i) == None
  {
    assert PauseTag.TagAt(s, i, MaxTagDigits, false).None? by {
      if i + 7 <= |s| { assert s[i..i + 7][0] == '.'; }
    }
    assert RunLength(s, i, '.') == 1 by { assert RunLength(s, i + 1, '.') == 0; }
  }

  /**
   * A single or double dot after a run of letters, dots and hyphens that
   * lower-cases to an `ABBRS` entry ("Dr.", "U.S.", "Ph.D.") is not a boundary.
   */
  lemma AbbreviationDotIsNotBoundary(s: string, j: nat, i: nat)
    requires j < i < |s| && s[i] == '.' && RunLength(s, i, '.') < 3
    requires forall k :: j <= k < i ==> IsTokenChar(s[k])
    requires j == 0 || !IsTokenChar(s[j - 1])
    requires Lower(s[j..i]) in Abbreviations
    ensures BoundaryAt(s, i) == None
  {
    assert PauseTag.TagAt(s, i, MaxTagDigits, false).None? by {
      if i + 7 <= |s| { assert s[i..i + 7][0] == '.'; }
    }
    TokenStartIs(s, j, i);
    assert !IsDigit(s[i - 1]);
  }

  lemma {:induction false} TokenStartIs(s: string, j: nat, i: nat)
    requires j <= i <= |s|
    requires forall k :: j <= k < i ==> IsTokenChar(s[k])
    requires j == 0 || !IsTokenChar(s[j - 1])
    ensures TokenStart(s, i) == j
    decreases i
  {
    if i > j { TokenStartIs(s, j, i - 1); }
  }

  /** Three or more dots end a segment after the whole run and any closers after it. */
  lemma EllipsisIsBoundary(s: string, i: nat)
    requires i < |s| && s[i] == '.' && RunLength(s, i, '.') >= 3
    ensures BoundaryAt(s, i) == Some(CloserEnd(s, i + RunLength(s, i, '.')))
  {
    assert PauseTag.TagAt(s, i, MaxTagDigits, false).None? by {
      if i + 7 <= |s| { assert s[i..i + 7][0] == '.'; }
    }
  }

  /**
   * A terminator that none of the dot rules claims is a boundary exactly when
   * the text ends after it or a space or closer follows; the segment then
   * absorbs every consecutive closer.
   */
  lemma TerminatorBoundary(s: string, i: nat)
    requires i < |s| && IsTerminator(s[i])
    requires s[i] == '.' ==> RunLength(s, i, '.') < 3 && !IsDecimalPoint(s, i) && !IsAbbreviationDot(s, i)
    ensures (i + 1 == |s| || IsSpace(s[i + 1]) || IsCloser(s[i + 1])) ==> BoundaryAt(s, i) == Some(CloserEnd(s, i + 1))
    ensures !(i + 1 == |s| || IsSpace(s[i + 1]) || IsCloser(s[i + 1])) ==> BoundaryAt(s, i) == None
  {
    assert PauseTag.TagAt(s, i, MaxTagDigits, false).None? by {
      if i + 7 <= |s| { assert s[i..i + 7][0] == s[i]; }
    }
  }

  // ---------------------------------------------------------------------------
  // The loop as written
  // ---------------------------------------------------------------------------

  /**
   * The scan loop of `push` exactly as written: after an emission `i` returns
   * to 0 but `s` keeps its old value. `fuel` bounds the number of emissions;
   * None means the fuel ran out before the loop ended.
   */
  function LiteralScan(s: string, i: nat, ready: seq<string>, fuel: nat): Option<(seq<string>, string)>
    requires i <= |s|
    decreases fuel, |s| - i
  {
    if i == |s| then Some((ready, s))
    else match BoundaryAt(s, i)
      case Some(e) => if fuel == 0 then None else LiteralScan(s, 0, ready + [s[..e]], fuel - 1)
      case None => LiteralScan(s, i + 1, ready, fuel)
  }

  /** From a position at or before the first boundary k, the literal loop reaches k unchanged. */
  lemma {:induction false} LiteralScanReaches(s: string, i: nat, k: nat, ready: seq<string>, fuel: nat)
    requires i <= k < |s| && BoundaryAt(s, k).Some?
    requires forall j :: i <= j < k ==> BoundaryAt(s, j).None?
    ensures LiteralScan(s, i, ready, fuel) == LiteralScan(s, k, ready, fuel)
    decreases k - i
  {
    if i < k { LiteralScanReaches(s, i + 1, k, ready, fuel); }
  }

  /**
   * Once the text holds a boundary the literal loop never ends, whatever the
   * fuel: each emission sends it back to index 0 of the same string, where it
   * finds the same boundary again.
   */
  lemma {:induction false} LiteralScanNeverFinishes(s: string, k: nat, ready: seq<string>, fuel: nat)
    requires k < |s| && BoundaryAt(s, k).Some?
    requires forall j :: 0 <= j < k ==> BoundaryAt(s, j).None?
    ensures LiteralScan(s, 0, ready, fuel) == None
    decreases fuel
  {
    LiteralScanReaches(s, 0, k, ready, fuel);
    if fuel > 0 {
      LiteralScanNeverFinishes(s, k, ready + [s[..BoundaryAt(s, k).value]], fuel - 1);
    }
  }

  /** The boundaries of "Hi. ": only the period closes a segment. */
  lemma HiBoundaries()
    ensures BoundaryAt("Hi. ", 0) == None && BoundaryAt("Hi. ", 1) == None
    ensures BoundaryAt("Hi. ", 2) == Some(3) && BoundaryAt(" ", 0) == None
  {
    var s := "Hi. ";
    assert PauseTag.TagAt(s, 0, MaxTagDigits, false) == None;
    assert PauseTag.TagAt(s, 1, MaxTagDigits, false) == None;
    assert PauseTag.TagAt(s, 2, MaxTagDigits, false) == None;
    assert PauseTag.TagAt(" ", 0, MaxTagDigits, false) == None;
    assert RunLength(s, 3, '.') == 0;
    assert TokenStart(s, 2) == 0 by { assert TokenStart(s, 0) == 0; }
    assert Lower("Hi") == "hi";
    assert CloserEnd(s, 3) == 3;
  }

  /** Concretely: "Hi. " never finishes as written, while the model emits "Hi." and keeps " ". */
  lemma HiAsWrittenVersusModel(fuel: nat)
    ensures LiteralScan("Hi. ", 0, [], fuel) == None
    ensures Segment("Hi. ") == (["Hi."], " ")
  {
    var s := "Hi. ";
    HiBoundaries();
    LiteralScanNeverFinishes(s, 2, [], fuel);
    BoundaryAdvances();
    assert s[..3] == "Hi." && s[3..] == " ";
    var tailScan := ScanWith(Boundary, " ", 0);
    assert tailScan == ([], " ") by {
      assert Boundary(" ", 0) == None;
    }
    assert Boundary(s, 2) == Some(3);
    assert ScanWith(Boundary, s, 2) == ([s[..3]] + tailScan.0, tailScan.1);
    assert [s[..3]] + tailScan.0 == ["Hi."];
    assert Boundary(s, 0) == None && Boundary(s, 1) == None;
    assert ScanWith(Boundary, s, 0) == ScanWith(Boundary, s, 1) == ScanWith(Boundary, s, 2);
  }
}

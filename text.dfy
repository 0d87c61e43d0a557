/**
 * The JavaScript string primitives the pipeline relies on: the `\s` character
 * class (which is also the set `String.prototype.trim` removes), trimming,
 * `replace(/\s+/g, " ")`, ASCII `toLowerCase`, `indexOf`/`lastIndexOf`,
 * `includes`, `join`, decimal rendering and parsing of naturals.
 */
module Text {
  import opened Wrappers

  /** `\s` in a JavaScript regular expression: WhiteSpace and LineTerminator. */
  predicate IsSpace(c: char) {
    || c == ' ' || c == '\t' || c == '\n' || c == '\r' || c == '\U{000B}' || c == '\U{000C}'
    || c == '\U{00A0}' || c == '\U{1680}' || ('\U{2000}' <= c <= '\U{200A}')
    || c == '\U{2028}' || c == '\U{2029}' || c == '\U{202F}' || c == '\U{205F}'
    || c == '\U{3000}' || c == '\U{FEFF}'
  }

  /** `\d` without the `u` flag: ASCII digits only. */
  predicate IsDigit(c: char) { '0' <= c <= '9' }

  predicate IsAsciiLetter(c: char) { ('A' <= c <= 'Z') || ('a' <= c <= 'z') }

  predicate IsBlank(s: string) { forall i :: 0 <= i < |s| ==> IsSpace(s[i]) }

  /** `toLowerCase` restricted to ASCII letters. */
  function LowerChar(c: char): (r: char)
    ensures IsAsciiLetter(c) ==> 'a' <= r <= 'z'
    ensures !('A' <= c <= 'Z') ==> r == c
  {
    if 'A' <= c <= 'Z' then (c as int + 32) as char else c
  }

  function UpperChar(c: char): (r: char)
    ensures !('a' <= c <= 'z') ==> r == c
  {
    if 'a' <= c <= 'z' then (c as int - 32) as char else c
  }

  function Lower(s: string): (r: string)
    ensures |r| == |s|
    ensures forall i :: 0 <= i < |s| ==> r[i] == LowerChar(s[i])
  {
    seq(|s|, i requires 0 <= i < |s| => LowerChar(s[i]))
  }

  function Upper(s: string): (r: string)
    ensures |r| == |s|
    ensures forall i :: 0 <= i < |s| ==> r[i] == UpperChar(s[i])
  {
    seq(|s|, i requires 0 <= i < |s| => UpperChar(s[i]))
  }

  /** Removes leading `\s` characters. */
  function TrimStart(s: string): (r: string)
    ensures |r| <= |s| && r == s[|s| - |r|..]
    ensures forall k :: 0 <= k < |s| - |r| ==> IsSpace(s[k])
    ensures r == [] || !IsSpace(r[0])
  {
    if |s| > 0 && IsSpace(s[0]) then
      var r := TrimStart(s[1..]);
      assert forall k :: 1 <= k < |s| - |r| ==> s[k] == s[1..][k - 1];
      r
    else s
  }

  lemma {:induction false} TrimStartBlank(s: string)
    requires IsBlank(s)
    ensures TrimStart(s) == []
  {
    if s != [] {
      TrimStartBlank(s[1..]);
    }
  }

  /** Removes trailing `\s` characters (`trimEnd`). */
  function TrimEnd(s: string): (r: string)
    ensures |r| <= |s| && r == s[..|r|]
    ensures forall k :: |r| <= k < |s| ==> IsSpace(s[k])
    ensures r == [] || !IsSpace(r[|r| - 1])
  {
    if |s| > 0 && IsSpace(s[|s| - 1]) then
      var r := TrimEnd(s[..|s| - 1]);
      assert forall k :: |r| <= k < |s| - 1 ==> s[k] == s[..|s| - 1][k];
      r
    else s
  }

  /** `trim`. */
  function Trim(s: string): (r: string)
    ensures |r| <= |s|
    ensures r == [] || (!IsSpace(r[0]) && !IsSpace(r[|r| - 1]))
  {
    TrimEnd(TrimStart(s))
  }

  /** `trim` keeps a contiguous slice of the text. */
  lemma TrimIsSlice(s: string) returns (lo: nat)
    ensures lo + |Trim(s)| <= |s| && Trim(s) == s[lo..lo + |Trim(s)|]
  {
    var a := TrimStart(s);
    lo := |s| - |a|;
    var t := TrimEnd(a);
    SliceOfSlice(s, lo, a, t);
  }

  lemma SliceOfSlice(s: string, lo: nat, a: string, t: string)
    requires lo <= |s| && a == s[lo..] && |t| <= |a| && t == a[..|t|]
    ensures lo + |t| <= |s| && t == s[lo..lo + |t|]
  {
  }

  /** A character the text lacks is lacking from its trim too. */
  lemma TrimLacks(s: string, c: char)
    requires forall k :: 0 <= k < |s| ==> s[k] != c
    ensures forall k :: 0 <= k < |Trim(s)| ==> Trim(s)[k] != c
  {
    var lo := TrimIsSlice(s);
    assert forall k :: 0 <= k < |Trim(s)| ==> Trim(s)[k] == s[lo + k];
  }

  lemma TrimEmptyIffBlank(s: string)
    ensures Trim(s) == [] <==> IsBlank(s)
  {
    var a := TrimStart(s);
    if a != [] {
      assert s[|s| - |a|] == a[0];
    }
  }

  /** Every `\s` character is a plain space and no two of them are adjacent. */
  predicate SingleSpaced(s: string) {
    && (forall i :: 0 <= i < |s| && IsSpace(s[i]) ==> s[i] == ' ')
    && (forall i, j :: 0 <= i < |s| && 0 <= j < |s| && j == i + 1 && IsSpace(s[i]) ==> !IsSpace(s[j]))
  }

  lemma SingleSpacedSlice(s: string, lo: nat, hi: nat)
    requires lo <= hi <= |s| && SingleSpaced(s)
    ensures SingleSpaced(s[lo..hi])
  {
    var t := s[lo..hi];
    forall i | 0 <= i < |t| - 1 && IsSpace(t[i]) ensures !IsSpace(t[i + 1]) {
      assert t[i] == s[lo + i] && t[i + 1] == s[lo + i + 1];
    }
  }

  /** `replace(/\s+/g, " ")`: every maximal run of `\s` becomes one space. */
  function CollapseSpaces(s: string): (r: string)
    ensures |r| <= |s|
    ensures SingleSpaced(r)
    ensures r == [] <==> s == []
    ensures s != [] ==> (IsSpace(r[0]) <==> IsSpace(s[0]))
    ensures s != [] ==> (IsSpace(r[|r| - 1]) <==> IsSpace(s[|s| - 1]))
    decreases |s|
  {
    if s == [] then []
    else if IsSpace(s[0]) then
      var t := TrimStart(s);
      var c := CollapseSpaces(t);
      SingleSpacedCons(' ', c);
      [' '] + c
    else
      var c := CollapseSpaces(s[1..]);
      SingleSpacedCons(s[0], c);
      [s[0]] + c
  }

  lemma SingleSpacedCons(ch: char, c: string)
    requires SingleSpaced(c)
    requires IsSpace(ch) ==> ch == ' ' && (c == [] || !IsSpace(c[0]))
    ensures SingleSpaced([ch] + c)
  {
    var r := [ch] + c;
    forall i | 1 <= i < |r| ensures r[i] == c[i - 1] { }
  }

  /** `s.replace(/\s+/g, " ").trim()`. */
  function Squish(s: string): (r: string)
    ensures r == [] || (!IsSpace(r[0]) && !IsSpace(r[|r| - 1]))
    ensures SingleSpaced(r)
  {
    var c := CollapseSpaces(s);
    TrimKeepsSingleSpaced(c);
    Trim(c)
  }

  lemma TrimKeepsSingleSpaced(c: string)
    requires SingleSpaced(c)
    ensures SingleSpaced(Trim(c))
  {
    var a := TrimStart(c);
    SingleSpacedSlice(c, |c| - |a|, |c|);
    SingleSpacedSlice(a, 0, |TrimEnd(a)|);
  }

  /** Text without edge whitespace is its own trim. */
  lemma TrimNoEdgeSpaces(s: string)
    requires s == [] || (!IsSpace(s[0]) && !IsSpace(s[|s| - 1]))
    ensures Trim(s) == s
  {
  }

  /** Already single-spaced text is left alone by the whitespace collapse. */
  lemma {:induction false} CollapseSingleSpaced(s: string)
    requires SingleSpaced(s)
    ensures CollapseSpaces(s) == s
    decreases |s|
  {
    if s != [] {
      var t := s[1..];
      SingleSpacedSlice(s, 1, |s|);
      CollapseSingleSpaced(t);
      CollapseHead(s);
      assert s == [s[0]] + t;
    }
  }

  /** On single-spaced text the collapse handles the first character alone. */
  lemma CollapseHead(s: string)
    requires s != [] && SingleSpaced(s)
    ensures CollapseSpaces(s) == [s[0]] + CollapseSpaces(s[1..])
  {
    if IsSpace(s[0]) {
      assert |s| == 1 || !IsSpace(s[1]);
      TrimStartOne(s);
    }
  }

  /** A single leading space is all that `trimStart` removes before a non-space. */
  lemma TrimStartOne(s: string)
    requires s != [] && IsSpace(s[0]) && (|s| == 1 || !IsSpace(s[1]))
    ensures TrimStart(s) == s[1..]
  {
    assert s[1..] == [] || s[1..][0] == s[1];
  }

  /** Squishing is idempotent: its results are exactly its fixed points. */
  lemma SquishIdempotent(s: string)
    ensures Squish(Squish(s)) == Squish(s)
  {
    SquishFixed(Squish(s));
  }

  lemma SquishFixed(s: string)
    requires SingleSpaced(s) && (s == [] || (!IsSpace(s[0]) && !IsSpace(s[|s| - 1])))
    ensures Squish(s) == s
  {
    CollapseSingleSpaced(s);
    TrimNoEdgeSpaces(s);
  }

  /** Number of maximal runs of non-`\s` characters: `s.split(/\s+/).filter(Boolean).length`. */
  function WordCount(s: string): nat
  {
    if s == [] then 0
    else
      var n := |s|;
      WordCount(s[..n - 1]) + (if !IsSpace(s[n - 1]) && (n == 1 || IsSpace(s[n - 2])) then 1 else 0)
  }

  predicate StartsAt(s: string, i: nat, p: string) {
    i + |p| <= |s| && s[i..i + |p|] == p
  }

  predicate StartsWith(s: string, p: string) { StartsAt(s, 0, p) }

  /** `s.includes(p)`. */
  predicate Contains(s: string, p: string) {
    exists i :: 0 <= i <= |s| && StartsAt(s, i, p)
  }

  /** `s.indexOf(p, from)` as an optional index. */
  function IndexOfFrom(s: string, p: string, from: nat): (r: Option<nat>)
    ensures r.Some? ==> from <= r.value && StartsAt(s, r.value, p)
    ensures r.Some? ==> forall k :: from <= k < r.value ==> !StartsAt(s, k, p)
    ensures r.None? ==> forall k :: from <= k ==> !StartsAt(s, k, p)
    decreases |s| + 1 - from
  {
    if from + |p| > |s| then None
    else if s[from..from + |p|] == p then Some(from)
    else IndexOfFrom(s, p, from + 1)
  }

  /** `s.lastIndexOf(c)` for a one-character pattern; -1 when absent. */
  function LastIndexOf(s: string, c: char): (r: int)
    ensures -1 <= r < |s|
    ensures r >= 0 ==> s[r] == c
    ensures forall k :: r < k < |s| ==> s[k] != c
  {
    if s == [] then -1
    else if s[|s| - 1] == c then |s| - 1
    else LastIndexOf(s[..|s| - 1], c)
  }

  function Concat(parts: seq<string>): string {
    if parts == [] then [] else parts[0] + Concat(parts[1..])
  }

  /** The two halves of a concatenation, and the last character of the first. */
  lemma ConcatHalves(a: string, b: string)
    ensures (a + b)[..|a|] == a && (a + b)[|a|..] == b
    ensures |a| > 0 ==> (a + b)[|a| - 1] == a[|a| - 1]
  {
  }

  /** Collapsing the runs of a blank string leaves it blank. */
  lemma CollapseBlank(s: string)
    ensures IsBlank(s) ==> IsBlank(CollapseSpaces(s))
  {
    if s != [] && IsBlank(s) {
      assert IsSpace(s[0]);
      TrimStartBlank(s);
      assert CollapseSpaces(s) == [' '];
    }
  }

  /** Blank text squishes to nothing. */
  lemma SquishBlank(s: string)
    requires IsBlank(s)
    ensures Squish(s) == []
  {
    CollapseBlank(s);
    TrimEmptyIffBlank(CollapseSpaces(s));
  }

  /** A slice that starts and ends on non-space characters has no edge whitespace. */
  lemma SliceEdges(s: string, c: nat, p: nat)
    requires c <= p <= |s|
    requires c < |s| ==> !IsSpace(s[c])
    requires p > c ==> !IsSpace(s[p - 1])
    ensures s[c..p] == [] || (!IsSpace(s[c..p][0]) && !IsSpace(s[c..p][|s[c..p]| - 1]))
  {
  }

  lemma SliceSplit(s: string, p: nat, e: nat)
    requires p <= e <= |s|
    ensures s[p..] == s[p..e] + s[e..]
  {
  }

  lemma ConcatCons(x: string, rest: seq<string>)
    ensures Concat([x] + rest) == x + Concat(rest)
  {
    assert ([x] + rest)[1..] == rest;
  }

  lemma ConcatAppend(a: seq<string>, b: seq<string>)
    ensures Concat(a + b) == Concat(a) + Concat(b)
  {
    if a != [] {
      calc {
        Concat(a + b);
        (a + b)[0] + Concat((a + b)[1..]);
        { assert (a + b)[0] == a[0] && (a + b)[1..] == a[1..] + b; }
        a[0] + Concat(a[1..] + b);
        { ConcatAppend(a[1..], b); }
        a[0] + (Concat(a[1..]) + Concat(b));
      }
    } else {
      assert a + b == b;
    }
  }

  /** `parts.join(sep)`. */
  function Join(parts: seq<string>, sep: string): string {
    if parts == [] then []
    else if |parts| == 1 then parts[0]
    else parts[0] + sep + Join(parts[1..], sep)
  }

  /** `parts.filter(Boolean)` for strings: drops the empty ones. */
  function NonEmpty(parts: seq<string>): (r: seq<string>)
    ensures forall i :: 0 <= i < |r| ==> r[i] != []
    ensures |r| <= |parts|
  {
    if parts == [] then []
    else if parts[0] == [] then NonEmpty(parts[1..])
    else [parts[0]] + NonEmpty(parts[1..])
  }

  function DigitChar(d: nat): char
    requires d < 10
  {
    ('0' as int + d) as char
  }

  /** Decimal rendering of a natural number, as template literals print it. */
  function NatToString(n: nat): (r: string)
    ensures r != []
    ensures forall i :: 0 <= i < |r| ==> IsDigit(r[i])
  {
    if n < 10 then [DigitChar(n)] else NatToString(n / 10) + [DigitChar(n % 10)]
  }

  /** Value of a string of ASCII digits (`parseInt(d, 10)`). */
  function DigitsValue(d: string): nat
    requires forall i :: 0 <= i < |d| ==> IsDigit(d[i])
  {
    if d == [] then 0 else assert IsDigit(d[|d| - 1]); DigitsValue(d[..|d| - 1]) * 10 + (d[|d| - 1] as int - '0' as int)
  }
}

/**
 * `stripMarkdown` from src/app/api/chat/stream/route.ts: delete the
 * markdown characters, then replace every one-line link `[text](target)`
 * by its text, leftmost first and each match as short as possible, as the
 * JavaScript regular expressions with the `g` flag do.
 */
module Markdown {
  import opened Wrappers
  import Seqs

  /** The characters of `/[*_`#>~\-]/`. */
  predicate IsMarkdownChar(c: char) {
    c == '*' || c == '_' || c == '`' || c == '#' || c == '>' || c == '~' || c == '-'
  }

  /** A character `.` does not match. */
  predicate IsLineTerminator(c: char) {
    c == '\n' || c == '\r' || c == '\U{2028}' || c == '\U{2029}'
  }

  /** The first replace: every markdown character deleted. */
  function RemoveMarkdown(t: string): (r: string)
    ensures |r| <= |t|
    ensures forall i :: 0 <= i < |r| ==> !IsMarkdownChar(r[i])
    ensures (forall i :: 0 <= i < |t| ==> !IsMarkdownChar(t[i])) ==> r == t
  {
    if t == [] then []
    else (if IsMarkdownChar(t[0]) then [] else [t[0]]) + RemoveMarkdown(t[1..])
  }

  /** The `(.*?)\)` part: the first `)` from `m` on the same line. */
  function CloseParen(s: string, m: nat): (r: Option<nat>)
    ensures r.Some? ==> m <= r.value < |s| && s[r.value] == ')'
    decreases |s| - m
  {
    if m >= |s| || IsLineTerminator(s[m]) then None
    else if s[m] == ')' then Some(m)
    else CloseParen(s, m + 1)
  }

  /**
   * The lazy `(.*?)\]\(` part from `k`: the first `](` on the line that is
   * followed by a `)` on the same line. Returns where `](` and `)` stand.
   */
  function LinkFrom(s: string, k: nat): (r: Option<(nat, nat)>)
    ensures r.Some? ==> k <= r.value.0 && r.value.0 + 2 <= r.value.1 < |s|
    ensures r.Some? ==> s[r.value.0] == ']' && s[r.value.0 + 1] == '(' && s[r.value.1] == ')'
    decreases |s| - k
  {
    if k >= |s| then None
    else if k + 1 < |s| && s[k] == ']' && s[k + 1] == '(' && CloseParen(s, k + 2).Some? then
      Some((k, CloseParen(s, k + 2).value))
    else if IsLineTerminator(s[k]) then None
    else LinkFrom(s, k + 1)
  }

  /** What one step of the global replace emits, and where it resumes. */
  datatype Piece = Piece(out: string, next: nat)

  /** At `p`: a whole link gives its text, anything else the character itself. */
  function Scan(s: string, p: nat): (r: Piece)
    requires p < |s|
    ensures p < r.next <= |s| && |r.out| <= r.next - p
  {
    if s[p] == '[' && LinkFrom(s, p + 1).Some? then
      Piece(s[p + 1..LinkFrom(s, p + 1).value.0], LinkFrom(s, p + 1).value.1 + 1)
    else Piece([s[p]], p + 1)
  }

  /** The global `replace(/\[(.*?)\]\((.*?)\)/g, "$1")`, scanning from `p`. */
  function ReplaceLinks(s: string, p: nat): (r: string)
    requires p <= |s|
    ensures |r| <= |s| - p
    decreases |s| - p
  {
    if p == |s| then [] else Scan(s, p).out + ReplaceLinks(s, Scan(s, p).next)
  }

  /** `stripMarkdown`: no markdown character survives, and nothing grows. */
  function StripMarkdown(t: string): (r: string)
    ensures |r| <= |t|
    ensures forall i :: 0 <= i < |r| ==> !IsMarkdownChar(r[i])
  {
    var cleaned := RemoveMarkdown(t);
    ReplaceLinksClean(cleaned, 0);
    ReplaceLinks(cleaned, 0)
  }

  /** Replacing links only deletes characters, so it brings in no markdown character. */
  lemma {:induction false} ReplaceLinksClean(s: string, p: nat)
    requires p <= |s|
    requires forall i :: p <= i < |s| ==> !IsMarkdownChar(s[i])
    ensures forall i :: 0 <= i < |ReplaceLinks(s, p)| ==> !IsMarkdownChar(ReplaceLinks(s, p)[i])
    decreases |s| - p
  {
    if p < |s| {
      var step := Scan(s, p);
      ReplaceLinksClean(s, step.next);
      ScanClean(s, p);
      ReplaceLinksStep(s, p);
    }
  }

  lemma {:induction false} ScanClean(s: string, p: nat)
    requires p < |s|
    requires forall i :: p <= i < |s| ==> !IsMarkdownChar(s[i])
    ensures forall i :: 0 <= i < |Scan(s, p).out| ==> !IsMarkdownChar(Scan(s, p).out[i])
  {
    if s[p] == '[' && LinkFrom(s, p + 1).Some? {
      var out := s[p + 1..LinkFrom(s, p + 1).value.0];
      forall i | 0 <= i < |out| ensures !IsMarkdownChar(out[i]) {
        assert out[i] == s[p + 1 + i];
      }
    }
  }

  lemma {:induction false} CloseParenSkip(s: string, m: nat, j: nat)
    requires m <= j <= |s|
    requires forall i :: m <= i < j ==> s[i] != ')' && !IsLineTerminator(s[i])
    ensures CloseParen(s, m) == CloseParen(s, j)
    decreases j - m
  {
    if m < j {
      CloseParenSkip(s, m + 1, j);
    }
  }

  lemma {:induction false} LinkFromSkip(s: string, k: nat, j: nat)
    requires k <= j <= |s|
    requires forall i :: k <= i < j ==> s[i] != ']' && !IsLineTerminator(s[i])
    ensures LinkFrom(s, k) == LinkFrom(s, j)
    decreases j - k
  {
    if k < j {
      LinkFromSkip(s, k + 1, j);
    }
  }

  /** A link opening at `p` whose "](" stands at `k` and whose ")" stands at `m`. */
  lemma {:induction false} ScanAtLink(s: string, p: nat, k: nat, m: nat)
    requires p < k && k + 2 <= m < |s|
    requires s[p] == '[' && s[k] == ']' && s[k + 1] == '(' && s[m] == ')'
    requires forall i :: p < i < k ==> s[i] != ']' && !IsLineTerminator(s[i])
    requires forall i :: k + 2 <= i < m ==> s[i] != ')' && !IsLineTerminator(s[i])
    ensures Scan(s, p) == Piece(s[p + 1..k], m + 1)
  {
    CloseParenSkip(s, k + 2, m);
    assert CloseParen(s, k + 2) == Some(m);
    assert LinkFrom(s, k) == Some((k, m));
    LinkFromSkip(s, p + 1, k);
    assert LinkFrom(s, p + 1) == Some((k, m));
  }

  lemma {:induction false} ReplaceLinksStep(s: string, p: nat)
    requires p < |s|
    ensures ReplaceLinks(s, p) == Scan(s, p).out + ReplaceLinks(s, Scan(s, p).next)
  {
  }

  /**
   * A one-line link `[text](target)` whose text holds no "]" and whose
   * target holds no ")" is replaced by its text; the scan goes on after it.
   */
  lemma {:induction false} LinkKeepsText(text: string, target: string, rest: string)
    requires forall i :: 0 <= i < |text| ==> text[i] != ']' && !IsLineTerminator(text[i])
    requires forall i :: 0 <= i < |target| ==> target[i] != ')' && !IsLineTerminator(target[i])
    ensures var s := "[" + text + "](" + target + ")" + rest;
      ReplaceLinks(s, 0) == text + ReplaceLinks(s, |s| - |rest|)
  {
    var s := "[" + text + "](" + target + ")" + rest;
    var k, m := 1 + |text|, 3 + |text| + |target|;
    assert s[1..k] == text;
    forall i | 0 < i < k
      ensures s[i] != ']' && !IsLineTerminator(s[i])
    {
      assert s[i] == text[i - 1];
    }
    forall i | k + 2 <= i < m
      ensures s[i] != ')' && !IsLineTerminator(s[i])
    {
      assert s[i] == target[i - k - 2];
    }
    assert |s| - |rest| == m + 1;
    ScanAtLink(s, 0, k, m);
    ReplaceLinksStep(s, 0);
  }

  lemma {:induction false} ReplaceLinksNoBracket(s: string, p: nat)
    requires p <= |s|
    requires forall i :: p <= i < |s| ==> s[i] != '['
    ensures ReplaceLinks(s, p) == s[p..]
    decreases |s| - p
  {
    if p < |s| {
      ReplaceLinksStep(s, p);
      ReplaceLinksNoBracket(s, p + 1);
      Seqs.HeadTail(s, p);
    }
  }

  /** Plain text, with no markdown character and no "[", passes through unchanged. */
  lemma PlainTextUnchanged(t: string)
    requires forall i :: 0 <= i < |t| ==> !IsMarkdownChar(t[i]) && t[i] != '['
    ensures StripMarkdown(t) == t
  {
    ReplaceLinksNoBracket(t, 0);
    assert t[0..] == t;
  }
}

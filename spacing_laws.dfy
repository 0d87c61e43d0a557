/**
 * What `replace(/\s+/g, " ")` and `trim` keep. Both leave the non-space
 * characters of the text alone, in order; the collapse cuts the text at
 * every non-space character and turns each maximal run of `\s` between two
 * such cuts into one space. Together these pin `CollapseSpaces` down.
 */
module SpacingLaws {
  import opened Text

  /** The text with every `\s` character dropped. */
  function NonSpace(s: string): (r: string)
    ensures |r| <= |s|
    ensures forall i :: 0 <= i < |r| ==> !IsSpace(r[i])
  {
    if s == [] then [] else (if IsSpace(s[0]) then [] else [s[0]]) + NonSpace(s[1..])
  }

  lemma NonSpaceCons(c: char, t: string)
    ensures NonSpace([c] + t) == (if IsSpace(c) then [] else [c]) + NonSpace(t)
  {
    assert ([c] + t)[1..] == t;
  }

  lemma {:induction false} NonSpaceAppend(a: string, b: string)
    ensures NonSpace(a + b) == NonSpace(a) + NonSpace(b)
    decreases |a|
  {
    if a == [] {
      assert a + b == b;
    } else {
      assert (a + b)[0] == a[0];
      assert (a + b)[1..] == a[1..] + b;
      NonSpaceAppend(a[1..], b);
    }
  }

  lemma {:induction false} NonSpaceBlank(s: string)
    requires IsBlank(s)
    ensures NonSpace(s) == []
    decreases |s|
  {
    if s != [] {
      NonSpaceBlank(s[1..]);
    }
  }

  /** `trimStart` drops only whitespace. */
  lemma TrimStartKeepsNonSpace(s: string)
    ensures NonSpace(TrimStart(s)) == NonSpace(s)
  {
    var t := TrimStart(s);
    var lo := |s| - |t|;
    assert s == s[..lo] + t;
    NonSpaceAppend(s[..lo], t);
    NonSpaceBlank(s[..lo]);
  }

  /** `trimEnd` drops only whitespace. */
  lemma TrimEndKeepsNonSpace(s: string)
    ensures NonSpace(TrimEnd(s)) == NonSpace(s)
  {
    var t := TrimEnd(s);
    assert s == t + s[|t|..];
    NonSpaceAppend(t, s[|t|..]);
    NonSpaceBlank(s[|t|..]);
  }

  /** `trim` keeps every non-space character, in order. */
  lemma TrimKeepsNonSpace(s: string)
    ensures NonSpace(Trim(s)) == NonSpace(s)
  {
    TrimStartKeepsNonSpace(s);
    TrimEndKeepsNonSpace(TrimStart(s));
  }

  /** A text that starts with whitespace collapses to one space and the collapse of the rest. */
  lemma CollapseLeadingSpace(s: string)
    requires s != [] && IsSpace(s[0])
    ensures |TrimStart(s)| < |s|
    ensures CollapseSpaces(s) == [' '] + CollapseSpaces(TrimStart(s))
  {
  }

  /** A text that starts with a non-space character keeps it. */
  lemma CollapseLeadingWord(s: string)
    requires s != [] && !IsSpace(s[0])
    ensures CollapseSpaces(s) == [s[0]] + CollapseSpaces(s[1..])
  {
  }

  lemma SpaceStep(s: string, c: string)
    requires s != [] && IsSpace(s[0]) && NonSpace(c) == NonSpace(TrimStart(s))
    ensures NonSpace([' '] + c) == NonSpace(s)
  {
    NonSpaceCons(' ', c);
    TrimStartKeepsNonSpace(s);
  }

  lemma WordStep(s: string, c: string)
    requires s != [] && !IsSpace(s[0]) && NonSpace(c) == NonSpace(s[1..])
    ensures NonSpace([s[0]] + c) == NonSpace(s)
  {
    NonSpaceCons(s[0], c);
    assert s == [s[0]] + s[1..];
    NonSpaceCons(s[0], s[1..]);
  }

  /** The collapse keeps every non-space character, in order, and adds none. */
  lemma {:induction false} CollapseKeepsNonSpace(s: string)
    ensures NonSpace(CollapseSpaces(s)) == NonSpace(s)
    decreases |s|
  {
    if s != [] {
      if IsSpace(s[0]) {
        CollapseLeadingSpace(s);
        CollapseKeepsNonSpace(TrimStart(s));
        SpaceStep(s, CollapseSpaces(TrimStart(s)));
      } else {
        CollapseLeadingWord(s);
        CollapseKeepsNonSpace(s[1..]);
        WordStep(s, CollapseSpaces(s[1..]));
      }
    }
  }

  /** A whole run of whitespace becomes exactly one space. */
  lemma CollapseBlankRun(s: string)
    requires s != [] && IsBlank(s)
    ensures CollapseSpaces(s) == " "
  {
    TrimStartBlank(s);
    CollapseLeadingSpace(s);
  }

  /** `trimStart` stops at the first non-space character, wherever it stands. */
  lemma {:induction false} TrimStartBefore(a: string, rest: string)
    requires rest != [] && !IsSpace(rest[0])
    ensures TrimStart(a + rest) == TrimStart(a) + rest
    decreases |a|
  {
    if a == [] {
      assert a + rest == rest;
    } else {
      assert (a + rest)[0] == a[0];
      if IsSpace(a[0]) {
        assert (a + rest)[1..] == a[1..] + rest;
        TrimStartBefore(a[1..], rest);
      }
    }
  }

  /** Where a text that ends in `[x] + b` starts and how it goes on. */
  lemma {:induction false} SplitHead(a: string, x: char, b: string)
    requires a != []
    ensures (a + [x] + b)[0] == a[0]
    ensures (a + [x] + b)[1..] == a[1..] + [x] + b
    ensures a + [x] + b == a + ([x] + b)
  {
  }

  lemma {:induction false} RegroupHead(h: seq<char>, p: string, x: char, q: string)
    ensures h + (p + [x] + q) == (h + p) + [x] + q
  {
  }

  lemma {:induction false} RegroupTail(p: string, x: char, q: string)
    ensures p + ([x] + q) == p + [x] + q
  {
  }

  /** The first step of a split when the text before the word starts with whitespace. */
  lemma SplitSpaceStep(a: string, x: char, b: string)
    requires a != [] && IsSpace(a[0]) && !IsSpace(x)
    requires CollapseSpaces(TrimStart(a) + [x] + b) == CollapseSpaces(TrimStart(a)) + [x] + CollapseSpaces(b)
    ensures CollapseSpaces(a + [x] + b) == CollapseSpaces(a) + [x] + CollapseSpaces(b)
  {
    SplitHead(a, x, b);
    TrimStartBefore(a, [x] + b);
    RegroupTail(TrimStart(a), x, b);
    CollapseLeadingSpace(a + [x] + b);
    CollapseLeadingSpace(a);
    RegroupHead([' '], CollapseSpaces(TrimStart(a)), x, CollapseSpaces(b));
  }

  /** The first step of a split when the text before the word starts with a non-space character. */
  lemma SplitWordStep(a: string, x: char, b: string)
    requires a != [] && !IsSpace(a[0]) && !IsSpace(x)
    requires CollapseSpaces(a[1..] + [x] + b) == CollapseSpaces(a[1..]) + [x] + CollapseSpaces(b)
    ensures CollapseSpaces(a + [x] + b) == CollapseSpaces(a) + [x] + CollapseSpaces(b)
  {
    SplitHead(a, x, b);
    CollapseLeadingWord(a + [x] + b);
    CollapseLeadingWord(a);
    RegroupHead([a[0]], CollapseSpaces(a[1..]), x, CollapseSpaces(b));
  }

  /**
   * The collapse works independently on each side of a non-space character:
   * a run of whitespace never reaches across a word.
   */
  lemma {:induction false} CollapseSplitsAtWord(a: string, x: char, b: string)
    requires !IsSpace(x)
    ensures CollapseSpaces(a + [x] + b) == CollapseSpaces(a) + [x] + CollapseSpaces(b)
    decreases |a|
  {
    if a == [] {
      var s := a + [x] + b;
      assert s == [x] + b && s[1..] == b;
      CollapseLeadingWord(s);
    } else if IsSpace(a[0]) {
      CollapseLeadingSpace(a);
      CollapseSplitsAtWord(TrimStart(a), x, b);
      SplitSpaceStep(a, x, b);
    } else {
      CollapseSplitsAtWord(a[1..], x, b);
      SplitWordStep(a, x, b);
    }
  }

  /** `Squish` keeps every non-space character, in order. */
  lemma SquishKeepsNonSpace(s: string)
    ensures NonSpace(Squish(s)) == NonSpace(s)
  {
    CollapseKeepsNonSpace(s);
    TrimKeepsNonSpace(CollapseSpaces(s));
  }

  lemma {:induction false} RegroupInner(x: char, w: string, y: char)
    ensures [] + [x] + (w + [y]) == [x] + w + [y]
    ensures w + [y] + [] == w + [y]
  {
  }

  lemma {:induction false} SpellInner(x: char, sp: string, y: char, e: string)
    requires sp == " " && e == []
    ensures [] + [x] + (sp + [y] + e) == [x, ' ', y]
  {
  }

  /** A run of whitespace between two words becomes one space. */
  lemma {:induction false} CollapseInnerRun(x: char, w: string, y: char)
    requires !IsSpace(x) && !IsSpace(y) && w != [] && IsBlank(w)
    ensures CollapseSpaces([x] + w + [y]) == [x, ' ', y]
  {
    RegroupInner(x, w, y);
    CollapseBlankRun(w);
    CollapseSplitsAtWord(w, y, []);
    CollapseSplitsAtWord([], x, w + [y]);
    SpellInner(x, CollapseSpaces(w), y, CollapseSpaces([]));
  }
}

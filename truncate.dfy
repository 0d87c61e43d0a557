/**
 * `truncateAtSentenceBoundary(text, max)`, defined identically in the speaker
 * (src/lib/speaker.ts) and the TTS route (src/app/api/tts/route.ts): trim the
 * text; if it is too long, cut the first `max` characters after their last
 * sentence terminator, else at their last space, else hard, and append "…".
 */
module Truncate {
  import opened Text
  import TtsConfig

  /** U+2026, the ellipsis appended to a cut text. */
  const Ellipsis: char := '…'

  /** `MAX_SAY_SECONDS * 200`, the character cap used by both callers. */
  const MaxChars: nat := TtsConfig.MaxSaySeconds * 200

  predicate IsTerminator(c: char) { c == '.' || c == '?' || c == '!' }

  /** `Math.max(s.lastIndexOf("."), s.lastIndexOf("?"), s.lastIndexOf("!"))`. */
  function LastTerminator(s: string): (r: int)
    ensures -1 <= r < |s|
    ensures r >= 0 ==> IsTerminator(s[r])
    ensures forall k :: r < k < |s| ==> !IsTerminator(s[k])
  {
    var d := LastIndexOf(s, '.');
    var q := LastIndexOf(s, '?');
    var e := LastIndexOf(s, '!');
    if d >= q && d >= e then d else if q >= e then q else e
  }

  /**
   * The kept part of the first `max` characters, before the ellipsis. A
   * slice that starts with a non-space character keeps at least that one.
   */
  function CutBody(slice: string): (b: string)
    ensures |b| <= |slice| && b == slice[..|b|]
    ensures b == [] || !IsSpace(b[|b| - 1])
    ensures slice != [] && !IsSpace(slice[0]) ==> b != []
  {
    var p := LastTerminator(slice);
    if p > 0 then TrimEnd(slice[..p + 1])
    else
      var sp := LastIndexOf(slice, ' ');
      if sp > 0 then
        var t := slice[..sp];
        assert t[0] == slice[0];
        TrimEnd(t)
      else TrimEnd(slice)
  }

  /**
   * A text that fits is returned trimmed; a longer one becomes the cut of its
   * first `max` characters followed by "…", so at most max + 1 characters,
   * and with `max > 0` at least one character of the text is kept.
   */
  function TruncateAtSentenceBoundary(text: string, max: nat): (r: string)
    ensures |r| <= max + 1
    ensures |Trim(text)| <= max ==> r == Trim(text)
    ensures |Trim(text)| > max ==>
      && |r| >= 1 && r[|r| - 1] == Ellipsis
      && r[..|r| - 1] == Trim(text)[..|r| - 1]
      && r == CutBody(Trim(text)[..max]) + [Ellipsis]
    ensures |Trim(text)| > max > 0 ==> |r| >= 2
  {
    var trimmed := Trim(text);
    if |trimmed| <= max then trimmed
    else
      var body := CutBody(trimmed[..max]);
      assert body == trimmed[..|body|];
      body + [Ellipsis]
  }

  /**
   * When a terminator stands after the first character of the slice, the cut
   * keeps everything up to and including the last one, and nothing after it.
   */
  lemma CutAtLastTerminator(slice: string)
    requires LastTerminator(slice) > 0
    ensures var p := LastTerminator(slice);
      && CutBody(slice) == slice[..p + 1]
      && IsTerminator(CutBody(slice)[p])
      && forall k :: p < k < |slice| ==> !IsTerminator(slice[k])
  {
    var p := LastTerminator(slice);
    var t := slice[..p + 1];
    assert t[|t| - 1] == slice[p];
    assert !IsSpace(t[|t| - 1]);
  }

  /**
   * With no usable terminator, the cut is made at the last space after the
   * first character, and the kept part ends before that space.
   */
  lemma CutAtLastSpace(slice: string)
    requires LastTerminator(slice) <= 0
    ensures var sp := LastIndexOf(slice, ' ');
      sp > 0 ==> (
        && CutBody(slice) == TrimEnd(slice[..sp])
        && |CutBody(slice)| <= sp && slice[sp] == ' '
        && forall k :: sp < k < |slice| ==> slice[k] != ' ')
  {
  }

  /**
   * With neither a terminator nor a space after the first character, the
   * slice is cut hard: all of it is kept but its trailing whitespace.
   */
  lemma CutHard(slice: string)
    requires LastTerminator(slice) <= 0 && LastIndexOf(slice, ' ') <= 0
    ensures CutBody(slice) == TrimEnd(slice)
    ensures forall k :: 0 < k < |slice| ==> slice[k] != ' ' && !IsTerminator(slice[k])
  {
  }

  /** A terminator at index 0 alone does not count as a boundary (`lastPunct > 0`). */
  lemma LeadingTerminatorIgnored()
    ensures CutBody(".ab") == ".ab"
  {
    var s := ".ab";
    assert LastIndexOf(s[..2], '.') == 0 by {
      assert s[..2][..1] == ".";
    }
    assert LastIndexOf(s, '.') == 0 by {
      assert s[..2] == ".a";
    }
    assert LastIndexOf(s[..0], '?') == -1;
    assert LastIndexOf(s[..1], '?') == -1 by {
      assert s[..1][..0] == s[..0];
    }
    assert LastIndexOf(s[..2], '?') == -1 by {
      assert s[..2][..1] == s[..1];
    }
    assert LastIndexOf(s, '?') == -1;
    assert LastIndexOf(s[..1], '!') == -1 by {
      assert s[..1][..0] == s[..0];
    }
    assert LastIndexOf(s[..2], '!') == -1 by {
      assert s[..2][..1] == s[..1];
    }
    assert LastIndexOf(s, '!') == -1;
    assert LastIndexOf(s[..1], ' ') == -1 by {
      assert s[..1][..0] == s[..0];
    }
    assert LastIndexOf(s[..2], ' ') == -1 by {
      assert s[..2][..1] == s[..1];
    }
    assert LastIndexOf(s, ' ') == -1;
  }
}

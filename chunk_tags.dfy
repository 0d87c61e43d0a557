/**
 * No `[pause-NN]` tag reaches the speaker as text: every chunk that
 * `chunkSayForPlayback` (src/lib/spokenizer.ts) returns has tag-free text.
 * The tokenizer already removes the tags it recognises; this module shows
 * that the defensive clean-up of each sentence (tag strip, whitespace
 * collapse, trim) cannot let one through or create one, and that merging
 * pauses adds only empty texts.
 */
module ChunkTags {
  import opened Text
  import PauseTag
  import Spokenizer
  import VoiceChatPage
  import Wrappers

  predicate Free(s: string) { PauseTag.TagFree(s, Spokenizer.MaxTagDigits, true) }

  /** Every chunk's text is tag-free. */
  predicate AllFree(cs: seq<Spokenizer.Chunk>) { forall c :: c in cs ==> Free(c.text) }

  /** The first k characters hold no whitespace. */
  predicate NoSpaceUpTo(r: string, k: nat) {
    k <= |r| && forall j :: 0 <= j < k ==> !IsSpace(r[j])
  }

  /** A kept first character: the collapse starts with it and goes on with the rest. */
  lemma CollapseHeadKept(s: string)
    requires s != [] && !IsSpace(s[0])
    ensures CollapseSpaces(s) == [s[0]] + CollapseSpaces(s[1..])
  {
  }

  lemma {:induction false} NoSpaceTail(h: char, c: string, r: string, k: nat)
    requires 0 < k && r == [h] + c && NoSpaceUpTo(r, k)
    ensures !IsSpace(h) && NoSpaceUpTo(c, k - 1)
  {
    assert r[0] == h;
    forall j | 0 <= j < k - 1 ensures !IsSpace(c[j]) {
      assert c[j] == r[j + 1];
    }
  }

  lemma {:induction false} ConsPrefix(s: string, c: string, r: string, k: nat)
    requires 0 < k <= |r| && s != [] && r == [s[0]] + c
    requires k - 1 <= |s| - 1 && c[..k - 1] == s[1..][..k - 1]
    ensures k <= |s| && r[..k] == s[..k]
  {
    assert r[..k] == [s[0]] + c[..k - 1];
    assert s[..k] == [s[0]] + s[1..][..k - 1];
  }

  /** Up to its first whitespace, the collapsed text is a copy of the input. */
  lemma {:induction false} CollapseCopiedUntilSpace(s: string, k: nat)
    requires NoSpaceUpTo(CollapseSpaces(s), k)
    ensures k <= |s| && CollapseSpaces(s)[..k] == s[..k]
    decreases |s|
  {
    if k > 0 {
      var r := CollapseSpaces(s);
      assert s != [] && !IsSpace(s[0]);
      CollapseHeadKept(s);
      var c := CollapseSpaces(s[1..]);
      NoSpaceTail(s[0], c, r, k);
      CollapseCopiedUntilSpace(s[1..], k - 1);
      ConsPrefix(s, c, r, k);
    }
  }

  /** A tag at the start of the collapsed text was at the start of the input. */
  lemma CollapseStartsClean(s: string)
    requires Free(s)
    ensures PauseTag.TagAt(CollapseSpaces(s), 0, Spokenizer.MaxTagDigits, true).None?
  {
    var r := CollapseSpaces(s);
    if PauseTag.TagAt(r, 0, Spokenizer.MaxTagDigits, true).Some? {
      var e := PauseTag.TagAt(r, 0, Spokenizer.MaxTagDigits, true).value;
      PauseTag.TagHasNoSpace(r[..e], Spokenizer.MaxTagDigits, true);
      assert NoSpaceUpTo(r, e) by {
        assert forall j :: 0 <= j < e ==> r[j] == r[..e][j];
      }
      CollapseCopiedUntilSpace(s, e);
      assert s[0..e] == r[..e];
      PauseTag.TagAtFinds(s, 0, e, Spokenizer.MaxTagDigits, true);
      assert false;
    }
  }

  /** One step of the collapse: a first character, then the collapse of a suffix of the input. */
  lemma CollapseStep(s: string) returns (lo: nat)
    requires s != []
    ensures 0 < lo <= |s| && CollapseSpaces(s) != []
    ensures CollapseSpaces(s)[1..] == CollapseSpaces(s[lo..])
  {
    if IsSpace(s[0]) {
      var t := TrimStart(s);
      lo := |s| - |t|;
      assert CollapseSpaces(s) == [' '] + CollapseSpaces(t);
    } else {
      lo := 1;
      assert CollapseSpaces(s) == [s[0]] + CollapseSpaces(s[1..]);
    }
  }

  /** `replace(/\s+/g, " ")` turns tag-free text into tag-free text. */
  lemma {:induction false} CollapseKeepsFree(s: string)
    requires Free(s)
    ensures Free(CollapseSpaces(s))
    decreases |s|
  {
    CollapseStartsClean(s);
    if s != [] {
      var lo := CollapseStep(s);
      SuffixFree(s, lo);
      CollapseKeepsFree(s[lo..]);
      FreeFromTail(CollapseSpaces(s));
    }
  }

  lemma SuffixFree(s: string, lo: nat)
    requires lo <= |s| && Free(s)
    ensures Free(s[lo..])
  {
    PauseTag.SliceTagFree(s, s[lo..], lo, |s|, Spokenizer.MaxTagDigits, true);
  }

  /** No tag at the start and none in the tail: none at all. */
  lemma FreeFromTail(r: string)
    requires r != [] && PauseTag.TagAt(r, 0, Spokenizer.MaxTagDigits, true).None? && Free(r[1..])
    ensures Free(r)
  {
    forall i | 0 < i <= |r| ensures PauseTag.TagAt(r, i, Spokenizer.MaxTagDigits, true).None? {
      PauseTag.TagInSuffix(r, 1, i, Spokenizer.MaxTagDigits, true);
    }
  }

  /** The clean-up of one sentence leaves no tag. */
  lemma CleanFree(sentence: string)
    ensures Free(Spokenizer.Clean(sentence))
  {
    var x := VoiceChatPage.Unpaused(sentence);
    assert Spokenizer.Clean(sentence) == Squish(x);
    VoiceChatPage.UnpausedTagFree(sentence);
    CollapseKeepsFree(x);
    VoiceChatPage.TrimKeepsTagFree(CollapseSpaces(x));
  }

  lemma SentenceChunkFree(sentence: string)
    ensures AllFree(Spokenizer.SentenceChunk(sentence))
  {
    var c := Spokenizer.Clean(sentence);
    assert Spokenizer.SentenceChunk(sentence) == if c != [] then [Spokenizer.Chunk(c, Wrappers.None)] else [];
    if c != [] {
      CleanFree(sentence);
      SingletonFree(Spokenizer.Chunk(c, Wrappers.None));
    }
  }

  lemma SingletonFree(c: Spokenizer.Chunk)
    requires Free(c.text)
    ensures AllFree([c])
  {
  }

  lemma {:induction false} AllFreeAppend(a: seq<Spokenizer.Chunk>, b: seq<Spokenizer.Chunk>)
    requires AllFree(a) && AllFree(b)
    ensures AllFree(a + b)
  {
  }

  lemma {:induction false} SentenceChunksFree(sentences: seq<string>)
    ensures AllFree(Spokenizer.SentenceChunks(sentences))
  {
    if sentences != [] {
      var head := Spokenizer.SentenceChunk(sentences[0]);
      var tail := Spokenizer.SentenceChunks(sentences[1..]);
      SentenceChunksFree(sentences[1..]);
      SentenceChunkFree(sentences[0]);
      assert Spokenizer.SentenceChunks(sentences) == head + tail;
      AllFreeAppend(head, tail);
    }
  }

  /** Before merging, pause chunks have empty text and sentence chunks are cleaned. */
  lemma {:induction false} RawChunksFree(tokens: seq<Spokenizer.Token>)
    ensures AllFree(Spokenizer.RawChunks(tokens))
  {
    if tokens != [] {
      RawChunksFree(tokens[1..]);
      match tokens[0]
      case PauseTok(ms) =>
        assert Free([]) by {
          forall i | 0 <= i <= 0 ensures PauseTag.TagAt([], i, Spokenizer.MaxTagDigits, true).None? { }
        }
      case TextTok(v) => SentenceChunksFree(Spokenizer.SplitSentences(v));
    }
  }

  /**
   * Every merged chunk is one of the input chunks or a merged pause with
   * empty text.
   */
  lemma {:induction false} MergeFromInput(cs: seq<Spokenizer.Chunk>)
    ensures forall c :: c in Spokenizer.Merge(cs) ==> c in cs || c.text == []
  {
    if cs != [] {
      var init := cs[..|cs| - 1];
      MergeFromInput(init);
      var m := Spokenizer.Merge(init);
      assert Spokenizer.Merge(cs) == Spokenizer.MergeStep(m, cs[|cs| - 1]);
      forall c | c in init ensures c in cs { }
      if |m| > 0 {
        forall c | c in m[..|m| - 1] ensures c in m { }
      }
    }
  }

  /** `chunkSayForPlayback` hands the speaker no text with a pause tag in it. */
  lemma ChunkSayFree(say: string)
    ensures forall c :: c in Spokenizer.ChunkSay(say) ==> PauseTag.TagFree(c.text, Spokenizer.MaxTagDigits, true)
  {
    var raw := Spokenizer.RawChunks(Spokenizer.Tokenize(say));
    RawChunksFree(Spokenizer.Tokenize(say));
    MergeFromInput(raw);
    assert Free([]) by {
      forall i | 0 <= i <= 0 ensures PauseTag.TagAt([], i, Spokenizer.MaxTagDigits, true).None? { }
    }
  }
}

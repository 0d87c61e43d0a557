/**
 * What the first replace of `stripMarkdown` keeps: deleting `[*_`#>~\-]`
 * is a per-character filter, so it distributes over concatenation and is
 * fixed by what it does to one character. Every other character survives,
 * in order.
 */
module MarkdownLaws {
  import opened Markdown

  /** One character: a markdown character goes, any other stays. */
  lemma RemoveMarkdownOne(c: char)
    ensures RemoveMarkdown([c]) == if IsMarkdownChar(c) then [] else [c]
  {
    assert [c][1..] == [];
  }

  /** The deletion works on each part of a text independently. */
  lemma {:induction false} RemoveMarkdownAppend(a: string, b: string)
    ensures RemoveMarkdown(a + b) == RemoveMarkdown(a) + RemoveMarkdown(b)
    decreases |a|
  {
    if a == [] {
      assert a + b == b;
    } else {
      assert (a + b)[0] == a[0];
      assert (a + b)[1..] == a[1..] + b;
      RemoveMarkdownAppend(a[1..], b);
    }
  }

  /** Deleting characters never brings in a character the text did not have. */
  lemma {:induction false} RemoveMarkdownFrom(t: string, c: char)
    requires c in RemoveMarkdown(t)
    ensures c in t
    decreases |t|
  {
    if t != [] && c != t[0] {
      assert t == [t[0]] + t[1..];
      RemoveMarkdownFrom(t[1..], c);
    }
  }

  /** Without a `[` no link can match, so only the deletion acts. */
  lemma StripWithoutBracket(t: string)
    requires '[' !in t
    ensures StripMarkdown(t) == RemoveMarkdown(t)
  {
    var cleaned := RemoveMarkdown(t);
    forall i | 0 <= i < |cleaned| ensures cleaned[i] != '[' {
      if cleaned[i] == '[' {
        RemoveMarkdownFrom(t, '[');
      }
    }
    ReplaceLinksNoBracket(cleaned, 0);
    assert cleaned[0..] == cleaned;
  }

  /** Emphasis marks go; the word stays. */
  lemma BoldExample()
    ensures RemoveMarkdown("**Hi**") == "Hi"
  {
    RemoveMarkdownAppend("Hi", "**");
    RemoveMarkdownAppend("**", "Hi**");
    assert "**Hi**" == "**" + ("Hi" + "**");
  }

  lemma {:induction false} HeadingExample()
    ensures RemoveMarkdown("# **Hi**") == " Hi"
  {
    BoldExample();
    RemoveMarkdownOne('#');
    RemoveMarkdownOne(' ');
    RemoveMarkdownAppend("#", " ");
    assert "# " == "#" + " ";
    RemoveMarkdownAppend("# ", "**Hi**");
    assert "# **Hi**" == "# " + "**Hi**";
  }

  /** Heading and emphasis marks go before any link is looked for. */
  lemma StripExample()
    ensures StripMarkdown("# **Hi**") == " Hi"
  {
    HeadingExample();
    StripWithoutBracket("# **Hi**");
  }
}

/**
 * Recognising the assistant's out-of-scope redirect reply (src/lib/scope.ts).
 * `toLowerCase` is modelled on ASCII letters only.
 */
module Scope {
  import opened Text

  const AvatarPhrase: string := "professional avatar"
  const TalkPhrase: string := "happy to talk"

  /** `isOutOfScope(text)`: the lower-cased text mentions both phrases. */
  function IsOutOfScope(text: string): (r: bool)
    ensures r ==> |text| >= |AvatarPhrase| && |text| >= |TalkPhrase|
  {
    Contains(Lower(text), AvatarPhrase) && Contains(Lower(text), TalkPhrase)
  }

  /**
   * The redirect line the system prompt tells the model to use:
   * "I’m here as my professional avatar — happy to talk roles, projects,
   * tech, and how I’d solve your problem."
   */
  const RedirectLine: string :=
    "I’m here as my " + AvatarPhrase + " — " + TalkPhrase + " roles, projects, tech, and how I’d solve your problem."

  /** Lower-casing an upper-cased or lower-cased letter gives the same letter. */
  lemma {:induction false} LowerOfCase(s: string)
    ensures Lower(Upper(s)) == Lower(s)
    ensures Lower(Lower(s)) == Lower(s)
  {
    assert forall i :: 0 <= i < |s| ==> Lower(Upper(s))[i] == Lower(s)[i];
    assert forall i :: 0 <= i < |s| ==> Lower(Lower(s))[i] == Lower(s)[i];
  }

  /** Changing the letter case of the text never changes the verdict. */
  lemma CaseDoesNotMatter(text: string)
    ensures IsOutOfScope(Upper(text)) <==> IsOutOfScope(text)
    ensures IsOutOfScope(Lower(text)) <==> IsOutOfScope(text)
  {
    LowerOfCase(text);
  }

  /** The empty text is in scope. */
  lemma EmptyInScope()
    ensures !IsOutOfScope("")
  {
    assert Lower("") == "";
  }

  /** A text that lacks either phrase, in any letter case, is in scope. */
  lemma NeedsBothPhrases(text: string)
    ensures !Contains(Lower(text), AvatarPhrase) ==> !IsOutOfScope(text)
    ensures !Contains(Lower(text), TalkPhrase) ==> !IsOutOfScope(text)
  {
  }

  lemma {:induction false} LowerSlice(s: string, i: nat, j: nat)
    requires i <= j <= |s|
    ensures Lower(s)[i..j] == Lower(s[i..j])
  {
  }

  /** No ASCII capital letter from index `i` on, checked one character at a time. */
  predicate NoCapitalsFrom(s: string, i: nat)
    decreases |s| - i
  {
    i >= |s| || (!('A' <= s[i] <= 'Z') && NoCapitalsFrom(s, i + 1))
  }

  lemma {:induction false} NoCapitalAt(s: string, i: nat, k: nat)
    requires NoCapitalsFrom(s, i) && i <= k < |s|
    ensures !('A' <= s[k] <= 'Z')
    decreases k - i
  {
    if i < k {
      NoCapitalAt(s, i + 1, k);
    }
  }

  /** Text without capitals is its own lower case. */
  lemma {:induction false} LowerNoCapitals(s: string)
    requires NoCapitalsFrom(s, 0)
    ensures Lower(s) == s
  {
    forall k | 0 <= k < |s| ensures Lower(s)[k] == s[k] {
      NoCapitalAt(s, 0, k);
    }
  }

  lemma PhrasesHaveNoCapitals()
    ensures NoCapitalsFrom(AvatarPhrase, 0) && NoCapitalsFrom(TalkPhrase, 0)
  {
    assert NoCapitalsFrom(AvatarPhrase, 14);
    assert NoCapitalsFrom(AvatarPhrase, 7);
    assert NoCapitalsFrom(TalkPhrase, 7);
  }

  /** A phrase without capitals is found in the lower case of any text around it. */
  lemma {:induction false} PhraseAt(pre: string, phrase: string, post: string)
    requires NoCapitalsFrom(phrase, 0)
    ensures StartsAt(Lower(pre + phrase + post), |pre|, phrase)
  {
    var s := pre + phrase + post;
    assert s[|pre|..|pre| + |phrase|] == phrase;
    LowerSlice(s, |pre|, |pre| + |phrase|);
    LowerNoCapitals(phrase);
  }

  /** The redirect line itself is recognised. */
  lemma RedirectLineOutOfScope()
    ensures IsOutOfScope(RedirectLine)
  {
    PhrasesHaveNoCapitals();
    var opening := "I’m here as my ";
    var closing := " roles, projects, tech, and how I’d solve your problem.";
    PhraseAt(opening, AvatarPhrase, " — " + TalkPhrase + closing);
    PhraseAt(opening + AvatarPhrase + " — ", TalkPhrase, closing);
    Regroup(opening, AvatarPhrase, " — ", TalkPhrase, closing);
  }

  lemma Regroup(a: string, b: string, c: string, d: string, e: string)
    ensures a + b + c + d + e == a + b + (c + d + e)
    ensures a + b + c + d + e == (a + b + c) + d + e
  {
  }
}

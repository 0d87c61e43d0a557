/**
 * The voice-chat page's handling of a finished reply
 * (src/app/voice-chat/page.tsx): the `onDone` clean-up that picks the text to
 * show and to speak, and `parseAssistantResponse`, which reads a `{say, show}`
 * reply out of raw model text. `JSON.parse` is a parameter that answers
 * `None` when it throws; the spokenizer's word rewrites are the `rewrite`
 * parameter of `normalizeSay`.
 */
module VoiceChatPage {
  import opened Wrappers
  import opened Text
  import opened Json
  import PauseTag
  import Spokenizer
  import ChatRoute

  /** `{ say, show }`. */
  datatype Reply = Reply(say: string, show: string)

  // ------------------------------------------------------------ pause tags

  /** `s.replace(/\s*\[pause-\d{2,4}\]\s*\/gi, " ")`. */
  function Unpaused(s: string): string {
    Spokenizer.SpacedMatchersValid();
    PauseTag.ReplaceWith(Spokenizer.CleanTagAt, s, Spokenizer.MaxTagDigits, true, false)
  }

  /** One step of the replacement: the first output character, then the replacement of a shorter rest. */
  lemma UnpausedStep(s: string) returns (rest: string)
    requires s != []
    ensures |rest| < |s| && Unpaused(s) != [] && Unpaused(s)[1..] == Unpaused(rest)
  {
    Spokenizer.SpacedMatchersValid();
    match Spokenizer.CleanTagAt(s, 0)
    case Some((a, e, m)) =>
      rest := s[m..];
      assert Unpaused(s) == " " + Unpaused(rest);
    case None =>
      rest := s[1..];
      assert Unpaused(s) == [s[0]] + Unpaused(rest);
  }

  /** No tag starts the output: a match there became " ", and otherwise the input had none. */
  lemma UnpausedStartsClean(s: string)
    ensures PauseTag.TagAt(Unpaused(s), 0, Spokenizer.MaxTagDigits, true).None?
  {
    Spokenizer.SpacedMatchersValid();
    var o := Unpaused(s);
    if s != [] {
      match Spokenizer.CleanTagAt(s, 0)
      case Some((a, e, m)) =>
        assert o[0] == ' ';
      case None =>
        assert o[0] == s[0];
        PauseTag.TagAtStartCopied(Spokenizer.CleanTagAt, s, Spokenizer.MaxTagDigits, true);
        assert !IsSpace(s[0]) ==> PauseTag.SpaceRun(s, 0) == 0;
    }
  }

  /** No `[pause-NN]` tag (two to four digits, "pause" in any case) survives the replacement. */
  lemma {:induction false} UnpausedTagFree(s: string)
    ensures PauseTag.TagFree(Unpaused(s), Spokenizer.MaxTagDigits, true)
    decreases |s|
  {
    var o := Unpaused(s);
    UnpausedStartsClean(s);
    if s != [] {
      var rest := UnpausedStep(s);
      UnpausedTagFree(rest);
      forall i | 0 < i <= |o| ensures PauseTag.TagAt(o, i, Spokenizer.MaxTagDigits, true).None? {
        PauseTag.TagInSuffix(o, 1, i, Spokenizer.MaxTagDigits, true);
      }
    }
  }

  /** Text without a "[" is left as it is. */
  lemma {:induction false} UnpausedNoBracket(s: string)
    ensures (forall k :: 0 <= k < |s| ==> s[k] != '[') ==> Unpaused(s) == s
    decreases |s|
  {
    Spokenizer.SpacedMatchersValid();
    if s != [] && forall k :: 0 <= k < |s| ==> s[k] != '[' {
      var a := PauseTag.SpaceRun(s, 0);
      assert Spokenizer.CleanTagAt(s, 0) == None by {
        assert !PauseTag.PrefixAt(s, a, true);
      }
      UnpausedNoBracket(s[1..]);
    }
  }

  /**
   * The clean-up used on `show`, on `say` and on plain-text replies: pause
   * tags and the whitespace around them become one space, then `trim()`.
   */
  function StripPauseTags(s: string): (r: string)
    ensures r == [] || (!IsSpace(r[0]) && !IsSpace(r[|r| - 1]))
    ensures PauseTag.TagFree(r, Spokenizer.MaxTagDigits, true)
    ensures (forall k :: 0 <= k < |s| ==> s[k] != '[') ==> r == Trim(s)
  {
    var x := Unpaused(s);
    UnpausedTagFree(s);
    UnpausedNoBracket(s);
    TrimKeepsTagFree(x);
    Trim(x)
  }

  /** Trimming cuts a slice out of the text, so it cannot create a tag. */
  lemma TrimKeepsTagFree(x: string)
    requires PauseTag.TagFree(x, Spokenizer.MaxTagDigits, true)
    ensures PauseTag.TagFree(Trim(x), Spokenizer.MaxTagDigits, true)
  {
    var t := Trim(x);
    var lo := TrimIsSlice(x);
    PauseTag.SliceTagFree(x, t, lo, lo + |t|, Spokenizer.MaxTagDigits, true);
  }

  // ------------------------------------------------------------------ onDone

  /**
   * What `onDone(raw)` produces: the assistant message's content (the
   * cleaned `show`), the text handed to the speaker (`normalizeSay` of that
   * same `show`, without cap or invite) and the cleaned `say`, which the page
   * computes but never uses.
   */
  datatype Turn = Turn(content: string, spoken: string, say: string)

  /**
   * `onDone(raw)`: `show = raw.show || liveText`, `say = raw.say || show`,
   * both cleaned. `None` when the handler throws: reading a property of
   * `null`, or calling `.replace` on a truthy value that is not a string.
   * `liveText` is the value the handler's closure captured.
   */
  function OnDone(raw: Json, liveText: string, rewrite: string -> string): (r: Option<Turn>)
    ensures raw == JNull ==> r.None?
    ensures raw != JNull ==>
      var show, say := OptGet(Def(raw), "show"), OptGet(Def(raw), "say");
      (r.Some? <==> (!Truthy(show) || show.j.JStr?) && (!Truthy(say) || say.j.JStr?))
    ensures r.Some? ==>
      var show := OptGet(Def(raw), "show");
      r.value.content == StripPauseTags(if Truthy(show) then show.j.s else liveText)
    ensures r.Some? ==> PauseTag.TagFree(r.value.content, Spokenizer.MaxTagDigits, true)
    ensures r.Some? && !Truthy(OptGet(Def(raw), "say")) ==> r.value.say == r.value.content
    ensures r.Some? ==> r.value.spoken == Spokenizer.NormalizeSayValue(r.value.content, rewrite, false, false)
  {
    match Get(Def(raw), "show")
    case None => None
    case Some(showV) =>
      var show := if Truthy(showV) then showV else Def(JStr(liveText));
      var say := if Truthy(OptGet(Def(raw), "say")) then OptGet(Def(raw), "say") else show;
      match (AsString(show), AsString(say))
      case (Some(sh), Some(sa)) =>
        var content := StripPauseTags(sh);
        Some(Turn(content, Spokenizer.NormalizeSayValue(content, rewrite, false, false), StripPauseTags(sa)))
      case _ => None
  }

  /** The speaker is handed every piece of the shown text: no cap, no invite. */
  lemma DoneSpeaksWholeShow(raw: Json, liveText: string, rewrite: string -> string)
    requires OnDone(raw, liveText, rewrite).Some?
    ensures var t := OnDone(raw, liveText, rewrite).value;
      t.spoken == Spokenizer.Assemble(Spokenizer.Pieces(Spokenizer.Tokenize(rewrite(t.content))))
  {
    Spokenizer.NoCapKeepsEverything(OnDone(raw, liveText, rewrite).value.content, rewrite, false);
  }

  /**
   * The reply's own `say` never reaches the speaker: two replies that differ
   * only in their `say` string are shown and spoken alike.
   */
  lemma {:induction false} SayNeverSpoken(m: map<string, Json>, a: string, b: string, liveText: string,
                                          rewrite: string -> string)
    requires !("show" in m) || !Truthy(Def(m["show"])) || m["show"].JStr?
    ensures var ra := OnDone(JObj(m["say" := JStr(a)]), liveText, rewrite);
      var rb := OnDone(JObj(m["say" := JStr(b)]), liveText, rewrite);
      && ra.Some? && rb.Some?
      && ra.value.content == rb.value.content && ra.value.spoken == rb.value.spoken
  {
    var ja, jb := JObj(m["say" := JStr(a)]), JObj(m["say" := JStr(b)]);
    var show := OptGet(Def(ja), "show");
    assert show == OptGet(Def(jb), "show");
    assert OptGet(Def(ja), "say") == Def(JStr(a));
    assert OptGet(Def(jb), "say") == Def(JStr(b));
    var ra := OnDone(ja, liveText, rewrite);
    var rb := OnDone(jb, liveText, rewrite);
    assert ra.Some? && rb.Some?;
    assert ra.value.content == rb.value.content;
  }

  // --------------------------------------------------- parseAssistantResponse

  /** `typeof obj?.say === "string" && typeof obj?.show === "string"`, with the two strings. */
  function SayShow(parsed: Option<Json>): (r: Option<Reply>)
    ensures r.Some? <==> && parsed.Some? && parsed.value.JObj?
                         && "say" in parsed.value.fields && parsed.value.fields["say"].JStr?
                         && "show" in parsed.value.fields && parsed.value.fields["show"].JStr?
    ensures r.Some? ==> r.value == Reply(parsed.value.fields["say"].s, parsed.value.fields["show"].s)
  {
    if parsed.None? then None
    else
      var obj := Def(parsed.value);
      match (AsString(OptGet(obj, "say")), AsString(OptGet(obj, "show")))
      case (Some(say), Some(show)) => Some(Reply(say, show))
      case _ => None
  }

  /** Where the body's leading `\s*` starts after the "```" at i: past a "json" label in any case. */
  function AfterFence(s: string, i: nat): (r: nat)
    requires i + 3 <= |s|
    ensures r <= |s|
    ensures r == i + 3 || (r == i + 7 && Lower(s[i + 3..i + 7]) == "json")
  {
    if i + 7 <= |s| && Lower(s[i + 3..i + 7]) == "json" then i + 7 else i + 3
  }

  /**
   * `s.match(/```(?:json)?\s*([\s\S]*?)\s*```/i)?.[1]`: after the first
   * "```", its optional label and its whitespace, everything up to the
   * whitespace before the next "```". When the first "```" has no closing
   * one, no later "```" has either, so only the first is tried.
   */
  function FencedBody(s: string): (r: Option<string>)
    ensures r.Some? ==> r.value == [] || (!IsSpace(r.value[0]) && !IsSpace(r.value[|r.value| - 1]))
    ensures r.Some? ==> !Contains(r.value, "```")
    ensures !Contains(s, "```") ==> r.None?
  {
    match IndexOfFrom(s, "```", 0)
    case None => None
    case Some(i) =>
      var c := ChatRoute.SkipSpaces(s, AfterFence(s, i));
      match IndexOfFrom(s, "```", c)
      case None => None
      case Some(q) => Some(BodyBefore(s, c, q))
  }

  /** The text from `c` to the whitespace before the closing "```" at `q`. */
  function BodyBefore(s: string, c: nat, q: nat): (b: string)
    requires c <= q <= |s| && (c < |s| ==> !IsSpace(s[c]))
    requires forall k :: c <= k < q ==> !StartsAt(s, k, "```")
    ensures b == [] || (!IsSpace(b[0]) && !IsSpace(b[|b| - 1]))
    ensures !Contains(b, "```")
  {
    var p := ChatRoute.BackOverSpaces(s, q, c);
    NoFenceBefore(s, c, q, p);
    SliceEdges(s, c, p);
    s[c..p]
  }

  /** A slice that ends before the first "```" after its start holds no "```". */
  lemma NoFenceBefore(s: string, c: nat, q: nat, p: nat)
    requires c <= p <= q <= |s|
    requires forall k :: c <= k < q ==> !StartsAt(s, k, "```")
    ensures !Contains(s[c..p], "```")
  {
    var b := s[c..p];
    forall j | 0 <= j <= |b| ensures !StartsAt(b, j, "```") {
      if j + 3 <= |b| {
        assert forall k :: j <= k < j + 3 ==> b[k] == s[c + k];
        assert b[j..j + 3] == s[c + j..c + j + 3];
        assert !StartsAt(s, c + j, "```");
      }
    }
  }

  /** The second try: a non-empty fenced body that parses to an object with string fields. */
  function FencedReply(text: string, parse: string -> Option<Json>): (r: Option<Reply>)
    ensures r.Some? ==> exists b :: FencedBody(text) == Some(b) && b != [] && r == SayShow(parse(b))
    ensures FencedBody(text).None? || FencedBody(text) == Some([]) ==> r.None?
  {
    match FencedBody(text)
    case Some(b) => if b != [] then SayShow(parse(b)) else None
    case None => None
  }

  /**
   * `parseAssistantResponse(raw)`: the trimmed text as JSON, else the fenced
   * block as JSON, else the plain text with its pause tags removed, as both
   * fields.
   */
  function ParseAssistantResponse(raw: string, parse: string -> Option<Json>): (r: Reply)
    ensures SayShow(parse(Trim(raw))).Some? ==> r == SayShow(parse(Trim(raw))).value
    ensures SayShow(parse(Trim(raw))).None? && FencedReply(Trim(raw), parse).Some? ==>
      r == FencedReply(Trim(raw), parse).value
    ensures SayShow(parse(Trim(raw))).None? && FencedReply(Trim(raw), parse).None? ==>
      r.say == r.show && PauseTag.TagFree(r.show, Spokenizer.MaxTagDigits, true)
      && (r.show == [] || (!IsSpace(r.show[0]) && !IsSpace(r.show[|r.show| - 1])))
  {
    var text := Trim(raw);
    match SayShow(parse(text))
    case Some(reply) => reply
    case None =>
      match FencedReply(text, parse)
      case Some(reply) => reply
      case None =>
        var clean := StripPauseTags(text);
        Reply(clean, clean)
  }

  /**
   * A JSON reply is taken only from an object whose `say` and `show` are both
   * strings: when neither candidate is one, the reply is the cleaned text.
   */
  lemma OnlyStringFieldsCount(raw: string, parse: string -> Option<Json>)
    requires forall b :: FencedBody(Trim(raw)) == Some(b) ==>
      !(parse(b).Some? && parse(b).value.JObj? && "say" in parse(b).value.fields && "show" in parse(b).value.fields
        && parse(b).value.fields["say"].JStr? && parse(b).value.fields["show"].JStr?)
    requires var p := parse(Trim(raw));
      !(p.Some? && p.value.JObj? && "say" in p.value.fields && "show" in p.value.fields
        && p.value.fields["say"].JStr? && p.value.fields["show"].JStr?)
    ensures ParseAssistantResponse(raw, parse) == Reply(StripPauseTags(Trim(raw)), StripPauseTags(Trim(raw)))
  {
  }

  /** Plain text without a "[" comes back trimmed and otherwise unchanged, in both fields. */
  lemma PlainTextTrimmed(raw: string, parse: string -> Option<Json>)
    requires SayShow(parse(Trim(raw))).None? && FencedReply(Trim(raw), parse).None?
    requires forall k :: 0 <= k < |raw| ==> raw[k] != '['
    ensures ParseAssistantResponse(raw, parse) == Reply(Trim(raw), Trim(raw))
  {
    var t := Trim(raw);
    TrimLacks(raw, '[');
    TrimNoEdgeSpaces(t);
    assert StripPauseTags(t) == t;
  }

  /** The match, step by step. */
  lemma FencedBodyFound(s: string, i: nat, c: nat, q: nat)
    requires IndexOfFrom(s, "```", 0) == Some(i)
    requires ChatRoute.SkipSpaces(s, AfterFence(s, i)) == c
    requires IndexOfFrom(s, "```", c) == Some(q)
    ensures FencedBody(s) == Some(s[c..ChatRoute.BackOverSpaces(s, q, c)])
  {
  }

  /** `SkipSpaces` stops at the first non-space after a run of spaces. */
  lemma {:induction false} SkipSpacesTo(s: string, i: nat, c: nat)
    requires i <= c < |s| && !IsSpace(s[c])
    requires forall k :: i <= k < c ==> IsSpace(s[k])
    ensures ChatRoute.SkipSpaces(s, i) == c
    decreases c - i
  {
    if i < c {
      SkipSpacesTo(s, i + 1, c);
    }
  }

  /** `BackOverSpaces` stops just after the last non-space before a run of spaces. */
  lemma {:induction false} BackOverSpacesTo(s: string, q: nat, lo: nat, p: nat)
    requires lo < p <= q <= |s| && !IsSpace(s[p - 1])
    requires forall k :: p <= k < q ==> IsSpace(s[k])
    ensures ChatRoute.BackOverSpaces(s, q, lo) == p
    decreases q - p
  {
    if p < q {
      BackOverSpacesTo(s, q - 1, lo, p);
    }
  }

  /** `indexOf` finds an occurrence that has none before it. */
  lemma {:induction false} IndexOfFromTo(s: string, p: string, from: nat, q: nat)
    requires from <= q && StartsAt(s, q, p)
    requires forall k :: from <= k < q ==> !StartsAt(s, k, p)
    ensures IndexOfFrom(s, p, from) == Some(q)
    decreases q - from
  {
    if from < q {
      assert !StartsAt(s, from, p);
      IndexOfFromTo(s, p, from + 1, q);
    }
  }

  /** No character of b is a backtick. */
  predicate NoBackticks(b: string) {
    forall k :: 0 <= k < |b| ==> b[k] != '`'
  }

  /**
   * A text that opens with "```" and its optional label: the body is found
   * between the whitespace after the opening and the whitespace before the
   * next "```", when it holds no backtick.
   */
  lemma BodyBetween(s: string, open: nat, c: nat, e: nat, q: nat)
    requires 3 <= |s| && StartsAt(s, 0, "```") && AfterFence(s, 0) == open
    requires open <= c < e <= q && StartsAt(s, q, "```")
    requires IsBlank(s[open..c]) && IsBlank(s[e..q])
    requires !IsSpace(s[c]) && !IsSpace(s[e - 1]) && NoBackticks(s[c..e])
    ensures FencedBody(s) == Some(s[c..e])
  {
    BlankSlice(s, open, c);
    BlankSlice(s, e, q);
    IndexOfFromTo(s, "```", 0, 0);
    SkipSpacesTo(s, open, c);
    NoFenceInside(s, c, e, q);
    IndexOfFromTo(s, "```", c, q);
    BackOverSpacesTo(s, q, c, e);
    FencedBodyFound(s, 0, c, q);
  }

  lemma BlankSlice(s: string, lo: nat, hi: nat)
    requires lo <= hi <= |s| && IsBlank(s[lo..hi])
    ensures forall k :: lo <= k < hi ==> IsSpace(s[k])
  {
    assert forall k :: lo <= k < hi ==> s[k] == s[lo..hi][k - lo];
  }

  /** Prose without backticks, then whitespace: no "```" starts before `q`. */
  lemma NoFenceInside(s: string, c: nat, e: nat, q: nat)
    requires c <= e <= q <= |s| && NoBackticks(s[c..e])
    requires forall k :: e <= k < q ==> IsSpace(s[k])
    ensures forall k :: c <= k < q ==> !StartsAt(s, k, "```")
  {
    assert forall k :: c <= k < e ==> s[k] == s[c..e][k - c];
    forall k | c <= k < q ensures !StartsAt(s, k, "```") {
      assert s[k] != '`';
    }
  }

  /**
   * The fence's label is optional and its case is free: after an opening
   * "```" the body's whitespace starts past "json", "JSON", "Json", ..., or
   * right after the backticks when no label follows.
   */
  lemma FenceLabelOptional(lang: string, ws: string, b: string, rest: string)
    requires lang == [] || Lower(lang) == "json"
    requires IsBlank(ws) && b != []
    requires lang == [] ==> LowerChar(b[0]) != 'j'
    ensures var s := "```" + lang + ws + b + rest;
      StartsAt(s, 0, "```") && AfterFence(s, 0) == 3 + |lang|
  {
    var s := "```" + lang + ws + b + rest;
    assert s[..3] == "```";
    if lang == [] {
      if 7 <= |s| {
        assert s[3] == if ws == [] then b[0] else ws[0];
        assert Lower(s[3..7])[0] == LowerChar(s[3]);
      }
    } else {
      assert s[3..7] == lang;
    }
  }
}

/**
 * The server side of the chat stream (src/app/api/chat/stream/route.ts):
 * sanitise the client's messages, call the model upstream with one system
 * message in front, relay each upstream `data:` frame's text delta to the
 * client as a `token` event while accumulating `fullText`, and always finish
 * with exactly one `done` event carrying `{raw}`: the model's own `{say, show}`
 * object when one can be extracted, otherwise a fallback built from the text.
 * The outgoing stream is a list of events; `JSON.parse` is a parameter, and
 * `str` is JavaScript's string conversion of a non-string JSON value.
 */
module ChatRoute {
  import opened Wrappers
  import opened Text
  import opened Splits
  import opened Json
  import StreamChat
  import Markdown
  import Seqs

  /** What the route writes to its event stream: the ping comment, a token event, the done event. */
  datatype Sent = Ping | Token(token: Json) | Done(raw: Json)

  const MaxSayChars: nat := 1200
  const DefaultTemperature: real := 0.7
  const MaxTokens: nat := 600

  // ---------------------------------------------------------------- sanitise

  /** `m && typeof m.content === "string" && (m.role === "user" || m.role === "assistant")`. */
  predicate Forwardable(m: Json) {
    && m.JObj?
    && "content" in m.fields && m.fields["content"].JStr?
    && "role" in m.fields && m.fields["role"] in {JStr("user"), JStr("assistant")}
  }

  /** `input.filter(...)`: the forwardable messages, unchanged and in order. */
  function Sanitize(input: seq<Json>): (r: seq<Json>)
    ensures forall m :: m in r ==> m in input && Forwardable(m)
    ensures |r| <= |input|
  {
    if input == [] then []
    else (if Forwardable(input[0]) then [input[0]] else []) + Sanitize(input[1..])
  }

  /** Filtering distributes over concatenation, so it keeps relative order. */
  lemma {:induction false} SanitizeAppend(a: seq<Json>, b: seq<Json>)
    ensures Sanitize(a + b) == Sanitize(a) + Sanitize(b)
  {
    if a == [] {
      assert a + b == b;
    } else {
      Seqs.ConsAppend(a, b);
      SanitizeAppend(a[1..], b);
      Seqs.AppendAssoc(if Forwardable(a[0]) then [a[0]] else [], Sanitize(a[1..]), Sanitize(b));
    }
  }

  /** Every forwardable message survives. */
  lemma {:induction false} SanitizeKeeps(input: seq<Json>, m: Json)
    requires m in input && Forwardable(m)
    ensures m in Sanitize(input)
  {
    if input[0] != m {
      SanitizeKeeps(input[1..], m);
    }
  }

  /** What the route sends upstream. */
  datatype UpstreamCall = UpstreamCall(temperature: real, maxTokens: nat, messages: seq<Json>)

  /** How the request is answered before any upstream output. */
  datatype Plan =
    | MissingKey
    | Throws          // `body.temperature` on a `null` body
    | Call(call: UpstreamCall)

  /** `Array.isArray(body?.messages) ? body.messages : []`. */
  function ClientMessages(b: Json): seq<Json> {
    var messages := OptGet(Def(b), "messages");
    if messages.Def? && messages.j.JArr? then messages.j.items else []
  }

  /**
   * The request handling up to the upstream call. `body` is `None` when
   * `req.json()` rejects (read as `{}`); `system` is the system message.
   */
  function PlanRequest(hasApiKey: bool, body: Option<Json>, system: Json): (p: Plan)
    ensures !hasApiKey <==> p == MissingKey
    ensures p == Throws <==> hasApiKey && body == Some(JNull)
    ensures p.Call? ==> |p.call.messages| >= 1 && p.call.messages[0] == system && p.call.maxTokens == MaxTokens
    ensures p.Call? ==> forall m :: m in p.call.messages[1..] ==> Forwardable(m)
    ensures p.Call? ==> p.call.messages == [system] + Sanitize(ClientMessages(body.GetOr(EmptyObject)))
    ensures p.Call? ==>
      var b := body.GetOr(EmptyObject);
      p.call.temperature == (if b.JObj? && "temperature" in b.fields && b.fields["temperature"].JNum?
                             then b.fields["temperature"].n else DefaultTemperature)
  {
    if !hasApiKey then MissingKey
    else
      var b := body.GetOr(EmptyObject);
      var input := ClientMessages(b);
      match Get(Def(b), "temperature")
      case None => Throws
      case Some(t) =>
        var temperature := if t.Def? && t.j.JNum? then t.j.n else DefaultTemperature;
        var sanitized := Sanitize(input);
        assert ([system] + sanitized)[1..] == sanitized;
        Call(UpstreamCall(temperature, MaxTokens, [system] + sanitized))
  }

  /** A system message from the client never reaches upstream: the route's own is the only one. */
  lemma SingleSystemMessage(hasApiKey: bool, body: Option<Json>, system: Json)
    requires PlanRequest(hasApiKey, body, system).Call?
    ensures var ms := PlanRequest(hasApiKey, body, system).call.messages;
      forall k :: 1 <= k < |ms| ==> Forwardable(ms[k]) && ms[k].fields["role"] != JStr("system")
  {
    var ms := PlanRequest(hasApiKey, body, system).call.messages;
    forall k | 1 <= k < |ms|
      ensures Forwardable(ms[k]) && ms[k].fields["role"] != JStr("system")
    {
      assert ms[k] == ms[1..][k - 1];
      assert ms[k] in ms[1..];
    }
  }

  // ---------------------------------------------------------- tryExtractJson

  /** "```json" at `i`, with the label in any ASCII case (the `/i` flag). */
  predicate FenceOpensAt(s: string, i: nat) {
    i + 7 <= |s| && s[i..i + 3] == "```" && Lower(s[i + 3..i + 7]) == "json"
  }

  function FirstFence(s: string, from: nat): (r: Option<nat>)
    ensures r.Some? ==> from <= r.value && FenceOpensAt(s, r.value)
    ensures r.Some? ==> forall k :: from <= k < r.value ==> !FenceOpensAt(s, k)
    ensures r.None? ==> forall k :: from <= k ==> !FenceOpensAt(s, k)
    decreases |s| - from
  {
    if from + 7 > |s| then None
    else if FenceOpensAt(s, from) then Some(from)
    else FirstFence(s, from + 1)
  }

  /** The first index from `i` on that is not `\s` (or the end). */
  function SkipSpaces(s: string, i: nat): (r: nat)
    requires i <= |s|
    ensures i <= r <= |s| && (r < |s| ==> !IsSpace(s[r]))
    ensures forall k :: i <= k < r ==> IsSpace(s[k])
    decreases |s| - i
  {
    if i < |s| && IsSpace(s[i]) then SkipSpaces(s, i + 1) else i
  }

  /** The start of the run of `\s` ending at `q`, not going below `lo`. */
  function BackOverSpaces(s: string, q: nat, lo: nat): (r: nat)
    requires lo <= q <= |s|
    ensures lo <= r <= q
    ensures forall k :: r <= k < q ==> IsSpace(s[k])
    ensures r > lo ==> !IsSpace(s[r - 1])
  {
    if q > lo && IsSpace(s[q - 1]) then BackOverSpaces(s, q - 1, lo) else q
  }

  /**
   * `s.match(/```json\s*([\s\S]*?)\s*```/i)?.[1]`: after the first opening
   * fence and its whitespace, everything up to the whitespace before the next
   * "```". (A later opening fence would itself close the first one, so only
   * the first can match.)
   */
  function FencedBody(s: string): (r: Option<string>)
    ensures r.Some? ==> r.value == [] || (!IsSpace(r.value[0]) && !IsSpace(r.value[|r.value| - 1]))
    ensures r.Some? ==> exists i, j :: 0 <= i <= j <= |s| && r.value == s[i..j]
    ensures FirstFence(s, 0).None? ==> r.None?
  {
    match FirstFence(s, 0)
    case None => None
    case Some(i) =>
      var c := SkipSpaces(s, i + 7);
      match IndexOfFrom(s, "```", c)
      case None => None
      case Some(q) =>
        var p := BackOverSpaces(s, q, c);
        SliceEdges(s, c, p);
        assert 0 <= c <= p <= |s|;
        Some(s[c..p])
  }

  /**
   * `tryExtractJson`: the slice from the last "{" to the last "}" when the
   * "}" comes after the "{" and the slice parses; otherwise the fenced body
   * when it parses; otherwise `null` (`None`).
   */
  function TryExtractJson(s: string, parse: string -> Option<Json>): (r: Option<Json>)
    ensures r.Some? ==> exists i, j :: 0 <= i <= j <= |s| && r == parse(s[i..j])
    ensures var o, c := LastIndexOf(s, '{'), LastIndexOf(s, '}');
      o >= 0 && c > o && parse(s[o..c + 1]).Some? ==> r == parse(s[o..c + 1])
    ensures FencedBody(s).None? && !(LastIndexOf(s, '{') >= 0 && LastIndexOf(s, '}') > LastIndexOf(s, '{')) ==> r.None?
    ensures var o, c := LastIndexOf(s, '{'), LastIndexOf(s, '}');
      !(o >= 0 && c > o && parse(s[o..c + 1]).Some?) ==>
        r == (if FencedBody(s).Some? then parse(FencedBody(s).value) else None)
  {
    var o, c := LastIndexOf(s, '{'), LastIndexOf(s, '}');
    var whole := if o >= 0 && c > o then parse(s[o..c + 1]) else None;
    if whole.Some? then
      assert whole == parse(s[o..c + 1]);
      whole
    else match FencedBody(s)
      case None => None
      case Some(b) =>
        var i, j :| 0 <= i <= j <= |s| && b == s[i..j];
        assert parse(b) == parse(s[i..j]);
        parse(b)
  }

  /** Without a "{ ... }" candidate or a fence there is nothing to extract. */
  lemma NothingToExtract(s: string, parse: string -> Option<Json>)
    requires LastIndexOf(s, '}') <= LastIndexOf(s, '{') && FirstFence(s, 0).None?
    ensures TryExtractJson(s, parse) == None
  {
  }

  /** The position of the last `c` is fixed by the character there and the ones after it. */
  lemma {:induction false} LastIndexAt(s: string, c: char, r: nat)
    requires r < |s| && s[r] == c
    requires forall k :: r < k < |s| ==> s[k] != c
    ensures LastIndexOf(s, c) == r
  {
  }

  /**
   * Text ending in one `{...}` object (no brace inside it or after it) that
   * parses yields that object, whatever comes before it.
   */
  lemma {:induction false} TrailingObject(prefix: string, inner: string, suffix: string, parse: string -> Option<Json>)
    requires forall i :: 0 <= i < |inner| ==> inner[i] != '{' && inner[i] != '}'
    requires forall i :: 0 <= i < |suffix| ==> suffix[i] != '{' && suffix[i] != '}'
    requires parse("{" + inner + "}").Some?
    ensures TryExtractJson(prefix + "{" + inner + "}" + suffix, parse) == parse("{" + inner + "}")
  {
    var obj := "{" + inner + "}";
    var s := prefix + obj + suffix;
    assert s == prefix + "{" + inner + "}" + suffix;
    var o, c := |prefix|, |prefix| + |inner| + 1;
    assert s[o] == '{' && s[c] == '}';
    forall k | o < k < |s|
      ensures s[k] != '{' && (k > c ==> s[k] != '}')
    {
      if k < c {
        assert s[k] == inner[k - o - 1];
      } else if k > c {
        assert s[k] == suffix[k - c - 1];
      }
    }
    LastIndexAt(s, '{', o);
    LastIndexAt(s, '}', c);
    assert s[o..c + 1] == obj;
  }

  // ------------------------------------------------------------ finalizeRaw

  /** `raw && typeof raw.say === "string" && typeof raw.show === "string"`. */
  predicate HasSayShow(j: Json) {
    && j.JObj?
    && "say" in j.fields && j.fields["say"].JStr?
    && "show" in j.fields && j.fields["show"].JStr?
  }

  function Take(s: string, n: nat): (r: string)
    ensures |r| == if |s| <= n then |s| else n
    ensures r == s[..|r|]
  {
    if |s| <= n then s else s[..n]
  }

  /**
   * The `raw` of the final `done` event: the extracted object when it has
   * string `say` and `show`, otherwise the first 1200 characters of the
   * markdown-stripped text to say and the whole text to show.
   */
  function FinalizeRaw(fullText: string, parse: string -> Option<Json>): (r: Json)
    ensures HasSayShow(r)
  {
    var x := TryExtractJson(fullText, parse);
    if x.Some? && HasSayShow(x.value) then x.value
    else JObj(map["say" := JStr(Take(Markdown.StripMarkdown(fullText), MaxSayChars)), "show" := JStr(fullText)])
  }

  /**
   * The model's own `{say, show}` object is passed through; any other text
   * is shown whole and said markdown-free, in at most 1200 characters.
   */
  lemma FinalizeRawChoice(fullText: string, parse: string -> Option<Json>)
    ensures var x, r := TryExtractJson(fullText, parse), FinalizeRaw(fullText, parse);
      && (x.Some? && HasSayShow(x.value) ==> r == x.value)
      && (!(x.Some? && HasSayShow(x.value)) ==>
            && r.fields["show"] == JStr(fullText)
            && r.fields["say"] == JStr(Take(Markdown.StripMarkdown(fullText), MaxSayChars))
            && |r.fields["say"].s| <= MaxSayChars
            && r.fields["say"].s == Markdown.StripMarkdown(fullText)[..|r.fields["say"].s|]
            && (forall i :: 0 <= i < |r.fields["say"].s| ==> !Markdown.IsMarkdownChar(r.fields["say"].s[i])))
  {
  }

  /** An answer ending in a `{say, show}` object is finalised to exactly that object. */
  lemma FinalizeTrailingObject(prefix: string, inner: string, suffix: string, parse: string -> Option<Json>)
    requires forall i :: 0 <= i < |inner| ==> inner[i] != '{' && inner[i] != '}'
    requires forall i :: 0 <= i < |suffix| ==> suffix[i] != '{' && suffix[i] != '}'
    requires parse("{" + inner + "}").Some? && HasSayShow(parse("{" + inner + "}").value)
    ensures FinalizeRaw(prefix + "{" + inner + "}" + suffix, parse) == parse("{" + inner + "}").value
  {
    TrailingObject(prefix, inner, suffix, parse);
  }

  // ------------------------------------------------------------- the relay


  function ErrorRaw(message: string): Json { JObj(map["error" := JStr(message)]) }

  /** `frame.split("\n").find((l) => l.startsWith("data: "))`. */
  function DataLine(lines: seq<string>): (r: Option<string>)
    ensures r.Some? ==> r.value in lines && StartsWith(r.value, "data: ")
    ensures r.None? ==> forall l :: l in lines ==> !StartsWith(l, "data: ")
  {
    if lines == [] then None
    else if StartsWith(lines[0], "data: ") then Some(lines[0])
    else DataLine(lines[1..])
  }

  /** `json?.choices?.[0]?.delta?.content`. */
  function DeltaContent(j: Json): Val {
    OptGet(OptGet(OptFirst(OptGet(Def(j), "choices")), "delta"), "content")
  }

  /** `fullText += token` for a JSON token value. */
  function TokenText(token: Json, str: Json -> string): string {
    if token.JStr? then token.s else str(token)
  }

  /** The route's collaborators: `JSON.parse`, JavaScript's string conversion, and `finalizeRaw`. */
  datatype Env = Env(parse: string -> Option<Json>, str: Json -> string, finalize: string -> Json)

  /** The route itself: `finalizeRaw` over the same `JSON.parse`. */
  function RouteEnv(parse: string -> Option<Json>, str: Json -> string): Env {
    Env(parse, str, t => FinalizeRaw(t, parse))
  }

  /** The local state of the upstream loop; `closed` once `done` has been sent. */
  datatype Relay = Relay(events: seq<Sent>, fullText: string, closed: bool)

  const Opened: Relay := Relay([Ping], "", false)

  /** One upstream frame. */
  function RelayFrame(st: Relay, frame: string, env: Env): (r: Relay)
    requires !st.closed
    ensures DataLine(Split(frame, "\n")).None? ==> r == st
    ensures |st.events| <= |r.events| <= |st.events| + 1 && r.events[..|st.events|] == st.events
    ensures r.closed <==> |r.events| == |st.events| + 1 && r.events[|st.events|].Done?
  {
    match DataLine(Split(frame, "\n"))
    case None => st
    case Some(line) =>
      var data := Trim(line[6..]);
      if data == "[DONE]" then
        Relay(st.events + [Done(env.finalize(st.fullText))], st.fullText, true)
      else
        match env.parse(data)
        case None => st
        case Some(j) =>
          var token := DeltaContent(j);
          if Truthy(token) then
            Relay(st.events + [Token(token.j)], st.fullText + TokenText(token.j, env.str), false)
          else st
  }

  /**
   * A frame with no "data: " line, with data that does not parse, or whose
   * delta has no truthy `content` is skipped, and the stream stays open.
   */
  lemma SkippedFrames(st: Relay, frame: string, env: Env)
    requires !st.closed
    ensures var line := DataLine(Split(frame, "\n"));
      && (line.None? ==> RelayFrame(st, frame, env) == st)
      && (line.Some? && Trim(line.value[6..]) != "[DONE]" && env.parse(Trim(line.value[6..])).None? ==>
            RelayFrame(st, frame, env) == st)
      && (line.Some? && Trim(line.value[6..]) != "[DONE]" && env.parse(Trim(line.value[6..])).Some? &&
          !Truthy(DeltaContent(env.parse(Trim(line.value[6..])).value)) ==>
            RelayFrame(st, frame, env) == st)
  {
  }

  /**
   * A frame whose data line reads "[DONE]" sends `done` with `finalizeRaw` of
   * the text so far and closes the stream; any other data that parses to a
   * delta with truthy `content` sends that token and appends its text to
   * `fullText`, and the stream stays open.
   */
  lemma RelayedFrames(st: Relay, frame: string, env: Env)
    requires !st.closed
    ensures var line := DataLine(Split(frame, "\n"));
      && (line.Some? && Trim(line.value[6..]) == "[DONE]" ==>
            RelayFrame(st, frame, env) == Relay(st.events + [Done(env.finalize(st.fullText))], st.fullText, true))
      && (line.Some? && Trim(line.value[6..]) != "[DONE]" && env.parse(Trim(line.value[6..])).Some? &&
          Truthy(DeltaContent(env.parse(Trim(line.value[6..])).value)) ==>
            var token := DeltaContent(env.parse(Trim(line.value[6..])).value).j;
            RelayFrame(st, frame, env) == Relay(st.events + [Token(token)], st.fullText + TokenText(token, env.str), false))
  {
  }

  /** The frames in order from `st`, ignoring every frame after `[DONE]`. */
  function RelayFrames(st: Relay, frames: seq<string>, env: Env): (r: Relay)
    ensures |st.events| <= |r.events| <= |st.events| + |frames|
    ensures r.events[..|st.events|] == st.events
  {
    if frames == [] then st
    else
      var p := RelayFrames(st, frames[..|frames| - 1], env);
      if p.closed then p
      else
        var r := RelayFrame(p, frames[|frames| - 1], env);
        assert r.events[..|st.events|] == r.events[..|p.events|][..|st.events|];
        r
  }

  lemma {:induction false} RelayFramesAppend(st: Relay, a: seq<string>, b: seq<string>,env: Env)
    ensures RelayFrames(st, a + b, env) == RelayFrames(RelayFrames(st, a, env), b, env)
    decreases |b|
  {
    if b == [] {
      assert a + b == a;
    } else {
      var init, last := b[..|b| - 1], b[|b| - 1];
      Seqs.AppendInitLast(a, b);
      RelayFramesAppend(st, a, init, env);
    }
  }

  /** Once `done` has been sent, later frames change nothing. */
  lemma {:induction false} ClosedIgnoresFrames(st: Relay, frames: seq<string>,env: Env)
    requires st.closed
    ensures RelayFrames(st, frames, env) == st
  {
    if frames != [] {
      ClosedIgnoresFrames(st, frames[..|frames| - 1], env);
    }
  }

  lemma {:induction false} RelayFramesStep(st: Relay, frames: seq<string>, j: nat,env: Env)
    requires j < |frames|
    ensures var p := RelayFrames(st, frames[..j], env);
      RelayFrames(st, frames[..j + 1], env) == if p.closed then p else RelayFrame(p, frames[j], env)
  {
    assert frames[..j + 1][..j] == frames[..j];
  }

  /** The text a sent event adds to `fullText`: a token's text, nothing for anything else. */
  function SentText(e: Sent, str: Json -> string): string {
    if e.Token? then TokenText(e.token, str) else ""
  }

  function SentTexts(str: Json -> string): Sent -> string {
    e => SentText(e, str)
  }

  /** The text of all token events, in order. */
  function Said(events: seq<Sent>, str: Json -> string): string {
    Seqs.FlatMap(SentTexts(str), events)
  }

  /**
   * What holds of the loop state after every frame: the ping comes first,
   * `done` is never followed by anything, `fullText` is the text of the
   * tokens sent, and a `done` sent on "[DONE]" carries `finalizeRaw` of it.
   */
  predicate Consistent(st: Relay, env: Env) {
    && |st.events| >= 1 && st.events[0] == Ping
    && (forall k :: 0 <= k < |st.events| - 1 ==> !st.events[k].Done?)
    && (st.closed <==> st.events[|st.events| - 1].Done?)
    && st.fullText == Said(st.events, env.str)
    && (st.closed ==> st.events[|st.events| - 1] == Done(env.finalize(st.fullText)))
  }

  lemma {:induction false} RelayFrameConsistent(st: Relay, frame: string, env: Env)
    requires !st.closed && Consistent(st, env)
    ensures Consistent(RelayFrame(st, frame, env), env)
  {
    var r := RelayFrame(st, frame, env);
    if r != st {
      assert |r.events| == |st.events| + 1 && r.events[..|st.events|] == st.events;
      var e := r.events[|st.events|];
      assert r.events == st.events + [e];
      Seqs.FlatMapSnoc(SentTexts(env.str), st.events, e);
      assert r.fullText == st.fullText + SentText(e, env.str);
      forall k | 0 <= k < |r.events| - 1
        ensures !r.events[k].Done?
      {
        assert r.events[k] == st.events[k];
      }
    }
  }

  lemma {:induction false} RelayFramesConsistent(frames: seq<string>, env: Env)
    ensures Consistent(RelayFrames(Opened, frames, env), env)
  {
    if frames == [] {
      assert Said([Ping], env.str) == "";
    } else {
      var p := RelayFrames(Opened, frames[..|frames| - 1], env);
      RelayFramesConsistent(frames[..|frames| - 1], env);
      if !p.closed {
        RelayFrameConsistent(p, frames[|frames| - 1], env);
      }
    }
  }

  /** How the upstream body ends after its chunks. */
  datatype End = Finished | ReadError(message: string)

  /** How the stream ends after the upstream loop: nothing more once `done` was sent. */
  function Finish(r: Relay, end: End, env: Env): (ev: seq<Sent>)
    ensures r.closed ==> ev == r.events
    ensures !r.closed ==> |ev| == |r.events| + 1 && ev[..|r.events|] == r.events && ev[|r.events|].Done?
  {
    if r.closed then r.events
    else match end
      case Finished => r.events + [Done(env.finalize(r.fullText))]
      case ReadError(message) => r.events + [Done(ErrorRaw(if message == "" then "stream error" else message))]
  }

  /**
   * The event stream for an upstream body, stated over its whole text: it
   * opens with the ping and holds at most one event per frame plus the
   * closing `done`.
   */
  function RelayStream(chunks: seq<string>, end: End, env: Env): (ev: seq<Sent>)
    ensures |ev| >= 1 && ev[0] == Ping
    ensures |ev| <= 2 + |StreamChat.Frames(Concat(chunks))|
  {
    Finish(RelayFrames(Opened, StreamChat.Frames(Concat(chunks)), env), end, env)
  }

  /** What the client receives: the ping, tokens, and exactly one `done`, last. */
  predicate WellFormedStream(ev: seq<Sent>) {
    && |ev| >= 2 && ev[0] == Ping
    && ev[|ev| - 1].Done?
    && (forall k :: 0 <= k < |ev| - 1 ==> !ev[k].Done?)
  }

  lemma {:induction false} FinishShape(r: Relay, end: End, env: Env)
    requires Consistent(r, env)
    ensures var ev := Finish(r, end, env);
      && WellFormedStream(ev)
      && (end.Finished? ==> ev[|ev| - 1] == Done(env.finalize(Said(ev, env.str))))
      && (end.ReadError? ==>
            || ev[|ev| - 1] == Done(env.finalize(Said(ev, env.str)))
            || ev[|ev| - 1] == Done(ErrorRaw(if end.message == "" then "stream error" else end.message)))
  {
    var ev := Finish(r, end, env);
    if !r.closed {
      var done := ev[|r.events|];
      assert ev == r.events + [done];
      Seqs.FlatMapSnoc(SentTexts(env.str), r.events, done);
      assert SentTexts(env.str)(done) == SentText(done, env.str) == "";
      assert Said(ev, env.str) == Said(r.events, env.str) + "" == r.fullText;
      forall k | 0 <= k < |ev| - 1
        ensures !ev[k].Done?
      {
        assert ev[k] == r.events[k];
      }
    } else {
      assert ev == r.events;
      assert ev[0] != ev[|ev| - 1];
    }
  }

  /**
   * The client always sees the ping, then token events, then exactly one
   * `done` event, last. Its `raw` is `finalizeRaw` of exactly the text of the
   * tokens sent, unless reading upstream failed before "[DONE]".
   */
  lemma RelayStreamShape(chunks: seq<string>, end: End, env: Env)
    ensures var ev := RelayStream(chunks, end, env);
      && WellFormedStream(ev)
      && (end.Finished? ==> ev[|ev| - 1] == Done(env.finalize(Said(ev, env.str))))
      && (end.ReadError? ==>
            || ev[|ev| - 1] == Done(env.finalize(Said(ev, env.str)))
            || ev[|ev| - 1] == Done(ErrorRaw(if end.message == "" then "stream error" else end.message)))
  {
    RelayFramesConsistent(StreamChat.Frames(Concat(chunks)), env);
    FinishShape(RelayFrames(Opened, StreamChat.Frames(Concat(chunks)), env), end, env);
  }

  /**
   * When `finalize` always gives string `say` and `show` (the route's does,
   * by `RouteFinalizes`), so does the final `raw`, unless it reports that
   * reading upstream failed.
   */
  lemma DoneRawHasSayShow(chunks: seq<string>, end: End, env: Env)
    requires forall t :: HasSayShow(env.finalize(t))
    ensures var ev := RelayStream(chunks, end, env);
      && WellFormedStream(ev)
      && (HasSayShow(ev[|ev| - 1].raw)
          || (end.ReadError? && ev[|ev| - 1].raw == ErrorRaw(if end.message == "" then "stream error" else end.message)))
  {
    RelayStreamShape(chunks, end, env);
  }

  /** The route's own environment finalises every text to a `{say, show}` object. */
  lemma RouteFinalizes(parse: string -> Option<Json>, str: Json -> string)
    ensures forall t :: HasSayShow(RouteEnv(parse, str).finalize(t))
  {
    forall t ensures HasSayShow(RouteEnv(parse, str).finalize(t)) {
      assert RouteEnv(parse, str).finalize(t) == FinalizeRaw(t, parse);
    }
  }

  /** The `try` body for one upstream frame. */
  method RelayOne(st: Relay, frame: string, env: Env) returns (r: Relay)
    requires !st.closed
    ensures r == RelayFrame(st, frame, env)
  {
    r := st;
    var line := DataLine(Split(frame, "\n"));
    if line.None? {
      return;
    }
    var data := Trim(line.value[6..]);
    if data == "[DONE]" {
      var raw := env.finalize(r.fullText);
      r := r.(events := r.events + [Done(raw)], closed := true);
      return;
    }
    var json := env.parse(data);
    if json.Some? {
      var token := DeltaContent(json.value);
      if Truthy(token) {
        r := r.(events := r.events + [Token(token.j)], fullText := r.fullText + TokenText(token.j, env.str));
      }
    }
  }

  /** One read of the upstream loop: split the grown buffer and relay its complete frames. */
  method RelayChunk(st: Relay, buffer: string, chunk: string, env: Env)
    returns (r: Relay, buffer': string)
    requires !st.closed
    ensures buffer' == StreamChat.Leftover(buffer + chunk)
    ensures r == RelayFrames(st, StreamChat.Frames(buffer + chunk), env)
  {
    var frames := StreamChat.Frames(buffer + chunk);
    buffer' := StreamChat.Leftover(buffer + chunk);
    r := st;
    var j := 0;
    while j < |frames| && !r.closed
      invariant 0 <= j <= |frames|
      invariant r == RelayFrames(st, frames[..j], env)
    {
      RelayFramesStep(st, frames, j, env);
      r := RelayOne(r, frames[j], env);
      j := j + 1;
    }
    if r.closed {
      assert frames == frames[..j] + frames[j..];
      RelayFramesAppend(st, frames[..j], frames[j..], env);
      ClosedIgnoresFrames(r, frames[j..], env);
    } else {
      assert frames[..j] == frames;
    }
  }

  /**
   * The `ReadableStream`'s `start`: the ping comment, then the relayed
   * frames, ending with exactly one `done` event however the loop ends.
   */
  method RelayUpstream(chunks: seq<string>, end: End, env: Env)
    returns (events: seq<Sent>)
    ensures events == RelayStream(chunks, end, env)
  {
    var st := Opened;
    var buffer := "";
    var i := 0;
    while i < |chunks|
      invariant 0 <= i <= |chunks| && !st.closed
      invariant buffer == StreamChat.Leftover(Concat(chunks[..i]))
      invariant st == RelayFrames(Opened, StreamChat.Frames(Concat(chunks[..i])), env)
    {
      st, buffer := RelayChunk(st, buffer, chunks[i], env);
      RelayUpstreamStep(chunks, i, env);
      i := i + 1;
      if st.closed {
        RelayClosedEarly(chunks, i, end, env);
        return st.events;
      }
    }
    assert chunks[..i] == chunks;
    match end
    case Finished =>
      events := st.events + [Done(env.finalize(st.fullText))];
    case ReadError(message) =>
      events := st.events + [Done(ErrorRaw(if message == "" then "stream error" else message))];
  }

  /** One more chunk relays the frames its arrival completes, from the old remainder on. */
  lemma RelayUpstreamStep(chunks: seq<string>, i: nat, env: Env)
    requires i < |chunks|
    ensures var before := Concat(chunks[..i]);
      && StreamChat.Leftover(Concat(chunks[..i + 1])) == StreamChat.Leftover(StreamChat.Leftover(before) + chunks[i])
      && RelayFrames(Opened, StreamChat.Frames(Concat(chunks[..i + 1])), env)
         == RelayFrames(RelayFrames(Opened, StreamChat.Frames(before), env),
                        StreamChat.Frames(StreamChat.Leftover(before) + chunks[i]), env)
  {
    var before := Concat(chunks[..i]);
    StreamChat.FramesAppend(before, chunks[i]);
    RelayFramesAppend(Opened, StreamChat.Frames(before), StreamChat.Frames(StreamChat.Leftover(before) + chunks[i]), env);
    StreamChat.ConcatSnoc(chunks, i);
  }

  /** Once the chunks read so far have closed the relay, the rest of the body changes nothing. */
  lemma RelayClosedEarly(chunks: seq<string>, i: nat, end: End, env: Env)
    requires i <= |chunks|
    requires RelayFrames(Opened, StreamChat.Frames(Concat(chunks[..i])), env).closed
    ensures RelayStream(chunks, end, env) == RelayFrames(Opened, StreamChat.Frames(Concat(chunks[..i])), env).events
  {
    var seen := Concat(chunks[..i]);
    var st := RelayFrames(Opened, StreamChat.Frames(seen), env);
    var later := StreamChat.Frames(StreamChat.Leftover(seen) + Concat(chunks[i..]));
    ConcatSplit(chunks, i);
    StreamChat.FramesAppend(seen, Concat(chunks[i..]));
    RelayFramesAppend(Opened, StreamChat.Frames(seen), later, env);
    ClosedIgnoresFrames(st, later, env);
  }

  lemma ConcatSplit(chunks: seq<string>, i: nat)
    requires i <= |chunks|
    ensures Concat(chunks) == Concat(chunks[..i]) + Concat(chunks[i..])
  {
    assert chunks == chunks[..i] + chunks[i..];
    ConcatAppend(chunks[..i], chunks[i..]);
  }

  // ------------------------------------------------------------- the POST

  /**
   * The outcome of `await fetch(OPENAI_API, …)`: the promise rejects (a
   * network failure), or a reply with `ok`, whether it has a body,
   * `safeText` (`None` when reading it fails) and its chunks.
   */
  datatype Upstream =
    | Rejected
    | Upstream(ok: bool, hasBody: bool, text: Option<string>, statusText: string,
               chunks: seq<string>, end: End)

  /** What the client gets: a rejected request (an error thrown out of `POST`) or an event stream. */
  datatype Response = Crash | Stream(events: seq<Sent>)

  const MissingKeyMessage := "Missing OPENAI_API_KEY"

  /** `err || upstream.statusText`. */
  function UpstreamError(up: Upstream): string
    requires up.Upstream?
  {
    if up.text.Some? && up.text.value != "" then up.text.value else up.statusText
  }

  /**
   * `POST`, with the outcome of the planned upstream call given. It throws
   * on a `null` body and when `fetch` rejects; a failed reply is answered
   * with one `done` event carrying the error; a good one is relayed.
   */
  function Post(hasApiKey: bool, body: Option<Json>, system: Json, up: Upstream, env: Env): (r: Response)
    ensures r.Crash? <==> hasApiKey && (body == Some(JNull) || up.Rejected?)
    ensures !hasApiKey ==> r == Stream([Done(ErrorRaw(MissingKeyMessage))])
    ensures hasApiKey && body != Some(JNull) && up.Upstream? && !(up.ok && up.hasBody) ==>
      r == Stream([Done(ErrorRaw(if up.text.Some? && up.text.value != "" then up.text.value else up.statusText))])
    ensures hasApiKey && body != Some(JNull) && up.Upstream? && up.ok && up.hasBody ==>
      r == Stream(RelayStream(up.chunks, up.end, env))
  {
    match PlanRequest(hasApiKey, body, system)
    case MissingKey => Stream([Done(ErrorRaw(MissingKeyMessage))])
    case Throws => Crash
    case Call(_) =>
      if up.Rejected? then Crash
      else if !up.ok || !up.hasBody then Stream([Done(ErrorRaw(UpstreamError(up)))])
      else Stream(RelayStream(up.chunks, up.end, env))
  }

  /** Exactly one `done` event, and it is the last. */
  predicate OneDoneLast(ev: seq<Sent>) {
    && |ev| >= 1 && ev[|ev| - 1].Done?
    && (forall k :: 0 <= k < |ev| - 1 ==> !ev[k].Done?)
  }

  /**
   * Every way out of `POST` but the `null` body and the rejected `fetch`
   * ends the stream with exactly one `done` event: the missing key, the
   * failed upstream reply, "[DONE]", the end of the upstream body and a
   * read error.
   */
  lemma EveryPathOneDone(hasApiKey: bool, body: Option<Json>, system: Json, up: Upstream, env: Env)
    ensures var r := Post(hasApiKey, body, system, up, env);
      && (r.Crash? <==> hasApiKey && (body == Some(JNull) || up.Rejected?))
      && (r.Stream? ==> OneDoneLast(r.events))
      && (!hasApiKey ==> r == Stream([Done(ErrorRaw(MissingKeyMessage))]))
  {
    var plan := PlanRequest(hasApiKey, body, system);
    if plan.Call? && up.Upstream? && up.ok && up.hasBody {
      RelayStreamShape(up.chunks, up.end, env);
    }
  }
}

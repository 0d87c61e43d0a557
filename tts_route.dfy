/**
 * The text-to-speech endpoint (src/app/api/tts/route.ts): validate the JSON
 * body, cap the text unless `noCap` is exactly `true`, pick the voice and
 * model, and answer with the upstream audio or a JSON error. The upstream
 * call itself is not modelled: whether it rejects, its `ok` flag and whether
 * it has a body are parameters.
 */
module TtsRoute {
  import opened Wrappers
  import opened Text
  import opened Json
  import Truncate
  import opened TtsConfig

  /** What is sent to the speech service. */
  datatype Synthesis = Synthesis(voiceId: string, text: string, modelId: string)

  /** The request handling up to the upstream call. */
  datatype Plan =
    | Throws                          // a TypeError: property access on `null`, `.trim()` on a non-string
    | Reject(status: nat, error: string)
    | Call(synthesis: Synthesis)

  /**
   * `(v || fallback).trim()` for a configured fallback, which `.trim()`
   * keeps as it is (`DefaultsTrimmed`): `None` when the truthy value is not
   * a string and `.trim()` throws.
   */
  function OrTrim(v: Val, fallback: string): (r: Option<string>)
    ensures !Truthy(v) ==> r == Some(fallback)
    ensures Truthy(v) && v.j.JStr? ==> r == Some(Trim(v.j.s))
    ensures Truthy(v) && !v.j.JStr? ==> r.None?
  {
    if !Truthy(v) then Some(fallback)
    else if v.j.JStr? then Some(Trim(v.j.s))
    else None
  }

  /**
   * `typeof body.say === "string" ? body.say : ""`, trimmed; `None` when
   * the access throws on a `null` body.
   */
  function ReadSay(b: Val): (r: Option<string>)
    ensures r.None? <==> b == Undefined || b == Def(JNull)
    ensures b.Def? && b.j.JObj? && "say" in b.j.fields && b.j.fields["say"].JStr? ==> r == Some(Trim(b.j.fields["say"].s))
    ensures r.Some? && b.Def? && !(b.j.JObj? && "say" in b.j.fields && b.j.fields["say"].JStr?) ==> r == Some("")
  {
    match Get(b, "say")
    case None => None
    case Some(sayVal) => Some(Trim(AsString(sayVal).GetOr("")))
  }

  /**
   * The text sent: unchanged with `noCap`, otherwise cut at a sentence
   * boundary to at most 2400 characters plus "…".
   */
  function SafeSay(say: string, noCap: bool): (r: string)
    ensures noCap ==> r == say
    ensures !noCap ==> |r| <= Truncate.MaxChars + 1
    ensures !noCap && |Trim(say)| <= Truncate.MaxChars ==> r == Trim(say)
    ensures !noCap && |Trim(say)| > Truncate.MaxChars ==>
      && |r| >= 1 && r[|r| - 1] == Truncate.Ellipsis && r[..|r| - 1] == Trim(say)[..|r| - 1]
  {
    if noCap then say else Truncate.TruncateAtSentenceBoundary(say, Truncate.MaxChars)
  }

  /**
   * `(body.voiceId || DEFAULT_VOICE_ID).trim()` and
   * `(body.modelId || ELEVEN_MODEL_ID).trim()`, evaluated in that order;
   * `None` when either throws.
   */
  function Ids(b: Val): (r: Option<(string, string)>)
    ensures var voice := OptGet(b, "voiceId"); var model := OptGet(b, "modelId");
      r.Some? <==> (Truthy(voice) ==> voice.j.JStr?) && (Truthy(model) ==> model.j.JStr?)
  {
    match OrTrim(OptGet(b, "voiceId"), DefaultVoiceId)
    case None => None
    case Some(voiceId) =>
      match OrTrim(OptGet(b, "modelId"), ElevenModelId)
      case None => None
      case Some(modelId) => Some((voiceId, modelId))
  }

  /** The configured ids carry no edge whitespace, so `.trim()` keeps them. */
  lemma DefaultsTrimmed()
    ensures Trim(DefaultVoiceId) == DefaultVoiceId && Trim(ElevenModelId) == ElevenModelId
  {
    TrimNoEdgeSpaces(DefaultVoiceId);
  }

  /**
   * `POST` up to the upstream call. `body` is `None` when `req.json()`
   * rejects (read as `{}`).
   */
  function PlanRequest(hasApiKey: bool, body: Option<Json>): (p: Plan)
    ensures !hasApiKey <==> p == Reject(502, "tts_unavailable")
    ensures hasApiKey && p.Reject? ==> p == Reject(400, "missing_say")
    ensures p.Call? ==> p.synthesis.text != []
  {
    if !hasApiKey then Reject(502, "tts_unavailable")
    else
      var b := Def(body.GetOr(EmptyObject));
      match ReadSay(b)
      case None => Throws
      case Some(say) =>
        var noCap := OptGet(b, "noCap") == Def(JBool(true));
        if say == [] then Reject(400, "missing_say")
        else
          TrimNoEdgeSpaces(say);
          var safeSay := SafeSay(say, noCap);
          match Ids(b)
          case None => Throws
          case Some(ids) => Call(Synthesis(ids.0, safeSay, ids.1))
  }

  /** The answer to the client. */
  datatype Reply = Crash | JsonError(status: nat, error: string) | Audio(status: nat, contentType: string)

  /**
   * The outcome of `await fetch(url, …)` to the speech service: the promise
   * rejects (a network failure), or a reply that is `ok` or not and has a
   * body or not.
   */
  datatype Fetched = FetchRejected | Fetched(ok: bool, hasBody: bool)

  /**
   * `POST`, given the outcome of the upstream call. Only a planned call
   * reaches upstream; a rejected `fetch` throws out of `POST`, a missing key
   * answers 502 before anything else.
   */
  function Post(hasApiKey: bool, body: Option<Json>, up: Fetched): (r: Reply)
    ensures r.Crash? <==> PlanRequest(hasApiKey, body).Throws? || (PlanRequest(hasApiKey, body).Call? && up.FetchRejected?)
    ensures !hasApiKey ==> r == JsonError(502, "tts_unavailable")
    ensures r.Audio? ==> r == Audio(200, "audio/mpeg") && PlanRequest(hasApiKey, body).Call?
  {
    match PlanRequest(hasApiKey, body)
    case Throws => Crash
    case Reject(status, error) => JsonError(status, error)
    case Call(_) =>
      match up
      case FetchRejected => Crash
      case Fetched(ok, hasBody) =>
        if !ok || !hasBody then JsonError(502, "tts_unavailable")
        else Audio(200, "audio/mpeg")
  }

  /** The text `say` as the route reads it: a string body field, trimmed, else empty. */
  function SayOf(body: Option<Json>): string {
    var b := body.GetOr(EmptyObject);
    if b.JObj? && "say" in b.fields && b.fields["say"].JStr? then Trim(b.fields["say"].s) else ""
  }

  /** Whether `body.noCap === true`. */
  predicate NoCap(body: Option<Json>) {
    var b := body.GetOr(EmptyObject);
    b.JObj? && "noCap" in b.fields && b.fields["noCap"] == JBool(true)
  }

  /**
   * Without an API key the route answers 502 `tts_unavailable`; a `null`
   * body throws; a `say` that is not a string or is blank gives 400
   * `missing_say`; every other request reaches the speech service.
   */
  lemma Validation(hasApiKey: bool, body: Option<Json>)
    ensures var p := PlanRequest(hasApiKey, body);
      && (!hasApiKey <==> p == Reject(502, "tts_unavailable"))
      && (hasApiKey && body == Some(JNull) ==> p == Throws)
      && (hasApiKey && body != Some(JNull) && SayOf(body) == [] <==> p == Reject(400, "missing_say"))
      && (p.Call? ==> hasApiKey && SayOf(body) != [])
  {
  }

  /**
   * The text sent: `say` unchanged when `noCap` is exactly `true`, otherwise
   * cut at a sentence boundary to at most 2400 characters plus "…", keeping
   * a prefix of `say`.
   */
  lemma CapDecision(hasApiKey: bool, body: Option<Json>)
    requires PlanRequest(hasApiKey, body).Call?
    ensures var text := PlanRequest(hasApiKey, body).synthesis.text;
      && (NoCap(body) ==> text == SayOf(body))
      && (!NoCap(body) ==> |text| <= 2401)
      && (!NoCap(body) && |SayOf(body)| <= 2400 ==> text == SayOf(body))
      && (!NoCap(body) && |SayOf(body)| > 2400 ==>
            |text| >= 1 && text[|text| - 1] == Truncate.Ellipsis && text[..|text| - 1] == SayOf(body)[..|text| - 1])
  {
    var b := Def(body.GetOr(EmptyObject));
    var say := SayOf(body);
    assert ReadSay(b) == Some(say);
    assert NoCap(body) <==> OptGet(b, "noCap") == Def(JBool(true));
    TrimNoEdgeSpaces(say);
    assert PlanRequest(hasApiKey, body).synthesis.text == SafeSay(say, NoCap(body));
  }

  /**
   * The voice id falls back to the default when missing or falsy (an empty
   * string included), and is trimmed; a truthy voice id that reaches the
   * speech service is a string.
   */
  lemma VoiceIdChoice(hasApiKey: bool, body: Option<Json>)
    requires PlanRequest(hasApiKey, body).Call?
    ensures var voice := OptGet(Def(body.GetOr(EmptyObject)), "voiceId");
      var voiceId := PlanRequest(hasApiKey, body).synthesis.voiceId;
      && (!Truthy(voice) ==> voiceId == DefaultVoiceId)
      && (Truthy(voice) ==> voice.j.JStr? && voiceId == Trim(voice.j.s))
  {
    var ids := Ids(Def(body.GetOr(EmptyObject)));
    assert ids.Some? && PlanRequest(hasApiKey, body).synthesis.voiceId == ids.value.0;
  }

  /** The same rule for the model id, with the configured model as default. */
  lemma ModelIdChoice(hasApiKey: bool, body: Option<Json>)
    requires PlanRequest(hasApiKey, body).Call?
    ensures var model := OptGet(Def(body.GetOr(EmptyObject)), "modelId");
      var modelId := PlanRequest(hasApiKey, body).synthesis.modelId;
      && (!Truthy(model) ==> modelId == ElevenModelId)
      && (Truthy(model) ==> model.j.JStr? && modelId == Trim(model.j.s))
  {
    var ids := Ids(Def(body.GetOr(EmptyObject)));
    assert ids.Some? && PlanRequest(hasApiKey, body).synthesis.modelId == ids.value.1;
  }

  /** A request whose `voiceId` is a truthy non-string, with a valid `say`, throws. */
  lemma NonStringVoiceThrows(body: Json)
    requires body.JObj? && "say" in body.fields && body.fields["say"].JStr?
    requires Trim(body.fields["say"].s) != []
    requires "voiceId" in body.fields && Truthy(Def(body.fields["voiceId"])) && !body.fields["voiceId"].JStr?
    ensures PlanRequest(true, Some(body)) == Throws
  {
    assert ReadSay(Def(body)) == Some(Trim(body.fields["say"].s));
    assert Ids(Def(body)).None?;
  }

  /**
   * A planned call throws when `fetch` rejects, answers 502 when the reply
   * fails or has no body, and 200 audio/mpeg otherwise.
   */
  lemma UpstreamDecision(hasApiKey: bool, body: Option<Json>, up: Fetched)
    requires PlanRequest(hasApiKey, body).Call?
    ensures up.FetchRejected? <==> Post(hasApiKey, body, up) == Crash
    ensures up.Fetched? && up.ok && up.hasBody <==> Post(hasApiKey, body, up) == Audio(200, "audio/mpeg")
    ensures up.Fetched? && !(up.ok && up.hasBody) <==> Post(hasApiKey, body, up) == JsonError(502, "tts_unavailable")
  {
  }
}

/**
 * Browser speech synthesis settings and voice choice (src/lib/speech.ts).
 * The module-level `DEFAULTS` record is an object whose fields
 * `configureTTS` overwrites; `pickVoice`, `applySubs` and the utterance that
 * `speak` builds are functions of it. The voice list, whether
 * `speechSynthesis` exists, and the regular-expression replacement
 * (`String.prototype.replace` with a rule's pattern) are parameters.
 */
module Speech {
  import opened Wrappers
  import opened Text

  /** A `SpeechSynthesisVoice`: its name and its (possibly missing) language tag. */
  datatype Voice = Voice(name: string, lang: Option<string>)

  /** A substitution rule: a regular expression (source and flags) and its replacement. */
  datatype SubRule = SubRule(pattern: string, flags: string, replacement: string)

  /** `SpeakOptions` / `TTSOptions`; `None` is an absent field. */
  datatype SpeakOptions = SpeakOptions(
    rate: Option<real>,
    pitch: Option<real>,
    lang: Option<string>,
    voiceName: Option<string>,
    voiceLangStartsWith: Option<string>,
    substitutions: Option<seq<SubRule>>)

  /** `Partial<TTSDefaults>`; `None` is a field that is absent (`undefined`). */
  datatype Prefs = Prefs(
    rate: Option<real>,
    pitch: Option<real>,
    lang: Option<string>,
    voiceName: Option<string>,
    voiceLangStartsWith: Option<string>,
    substitutions: Option<seq<SubRule>>)

  const DefaultRate: real := 1.25
  const DefaultPitch: real := 1.0
  const DefaultLang: string := "en-US"

  /** The built-in name fixes, applied before any others. */
  const DefaultSubstitutions: seq<SubRule> := [
    SubRule("\\bMudassir Ahmed\\b", "gi", "Moo-dus-sir Ah-med"),
    SubRule("\\bMudassir\\b", "gi", "Moo-dus-sir"),
    SubRule("\\bAhmed\\b", "gi", "Ah-med")
  ]

  /** A string option that is set and non-empty, as `if (opts.voiceName)` reads it. */
  predicate Given(s: Option<string>) { s.Some? && s.value != [] }

  /** One way of matching a voice. */
  datatype Rule = ByName(name: string) | ByPrefix(prefix: string)

  /** `v.name === name` and `v.lang?.startsWith(prefix)` (a voice without a language never matches). */
  predicate Matches(v: Voice, rule: Rule) {
    match rule
    case ByName(name) => v.name == name
    case ByPrefix(prefix) => v.lang.Some? && StartsWith(v.lang.value, prefix)
  }

  /** `voices.find(...)` as the index of the first match. */
  function Find(voices: seq<Voice>, rule: Rule): (r: Option<nat>)
    ensures r.Some? ==> r.value < |voices| && Matches(voices[r.value], rule)
    ensures r.Some? ==> forall k :: 0 <= k < r.value ==> !Matches(voices[k], rule)
    ensures r.None? <==> forall k :: 0 <= k < |voices| ==> !Matches(voices[k], rule)
    decreases |voices|
  {
    if voices == [] then None
    else if Matches(voices[0], rule) then Some(0)
    else
      match Find(voices[1..], rule)
      case None => None
      case Some(i) => Some(i + 1)
  }

  /** The first rule, in priority order, that matches some voice, and its first match. */
  function PickFirst(voices: seq<Voice>, rules: seq<Rule>): (r: Option<Voice>)
    ensures r.None? <==> forall j, k :: 0 <= j < |rules| && 0 <= k < |voices| ==> !Matches(voices[k], rules[j])
    ensures r.Some? ==> exists j :: (
      && 0 <= j < |rules| && Find(voices, rules[j]).Some?
      && r.value == voices[Find(voices, rules[j]).value]
      && forall i :: 0 <= i < j ==> Find(voices, rules[i]).None?)
    decreases |rules|
  {
    if rules == [] then None
    else
      match Find(voices, rules[0])
      case Some(k) => Some(voices[k])
      case None =>
        var rest := PickFirst(voices, rules[1..]);
        if rest.Some? then
          var j :| 0 <= j < |rules[1..]| && Find(voices, rules[1..][j]).Some?
            && rest.value == voices[Find(voices, rules[1..][j]).value]
            && forall i :: 0 <= i < j ==> Find(voices, rules[1..][i]).None?;
          assert rules[1..][j] == rules[j + 1];
          assert forall i :: 0 <= i < j + 1 ==> Find(voices, rules[i]).None? by {
            forall i | 0 <= i < j + 1 ensures Find(voices, rules[i]).None? {
              if i > 0 { assert rules[i] == rules[1..][i - 1]; }
            }
          }
          rest
        else
          assert forall j, k :: 0 <= j < |rules| && 0 <= k < |voices| ==> !Matches(voices[k], rules[j]) by {
            forall j, k | 0 <= j < |rules| && 0 <= k < |voices| ensures !Matches(voices[k], rules[j]) {
              if j > 0 { assert rules[j] == rules[1..][j - 1]; }
            }
          }
          rest
  }

  /** `rules.reduce((acc, r) => acc.replace(r.pattern, r.replace), text)`. */
  function ApplyAll(text: string, rules: seq<SubRule>, replace: (string, SubRule) -> string): string
    decreases |rules|
  {
    if rules == [] then text else ApplyAll(replace(text, rules[0]), rules[1..], replace)
  }

  /** Applying a concatenated rule list applies the first list, then the second. */
  lemma {:induction false} ApplyAllAppend(text: string, a: seq<SubRule>, b: seq<SubRule>, replace: (string, SubRule) -> string)
    ensures ApplyAll(text, a + b, replace) == ApplyAll(ApplyAll(text, a, replace), b, replace)
    decreases |a|
  {
    if a == [] {
      assert a + b == b;
    } else {
      assert (a + b)[0] == a[0] && (a + b)[1..] == a[1..] + b;
      ApplyAllAppend(replace(text, a[0]), a[1..], b, replace);
    }
  }

  /** The utterance `speak` hands to `speechSynthesis.speak`. */
  datatype Utterance = Utterance(text: string, rate: real, pitch: real, lang: string, voice: Option<Voice>)

  /** The module-level `DEFAULTS` record. */
  class Defaults {
    var rate: real
    var pitch: real
    var lang: string
    var voiceName: Option<string>
    var voiceLangStartsWith: Option<string>
    var substitutions: seq<SubRule>

    constructor()
      ensures rate == DefaultRate && pitch == DefaultPitch && lang == DefaultLang
      ensures voiceName.None? && voiceLangStartsWith.None?
      ensures substitutions == DefaultSubstitutions
    {
      rate, pitch, lang := DefaultRate, DefaultPitch, DefaultLang;
      voiceName, voiceLangStartsWith := None, None;
      substitutions := DefaultSubstitutions;
    }

    /** `configureTTS(prefs)`: only the fields supplied are overwritten. */
    method Configure(prefs: Prefs)
      modifies this
      ensures rate == prefs.rate.GetOr(old(rate))
      ensures pitch == prefs.pitch.GetOr(old(pitch))
      ensures lang == prefs.lang.GetOr(old(lang))
      ensures voiceName == if prefs.voiceName.Some? then prefs.voiceName else old(voiceName)
      ensures voiceLangStartsWith == if prefs.voiceLangStartsWith.Some? then prefs.voiceLangStartsWith else old(voiceLangStartsWith)
      ensures substitutions == prefs.substitutions.GetOr(old(substitutions))
    {
      if prefs.rate.Some? { rate := prefs.rate.value; }
      if prefs.pitch.Some? { pitch := prefs.pitch.value; }
      if prefs.lang.Some? { lang := prefs.lang.value; }
      if prefs.voiceName.Some? { voiceName := prefs.voiceName; }
      if prefs.voiceLangStartsWith.Some? { voiceLangStartsWith := prefs.voiceLangStartsWith; }
      if prefs.substitutions.Some? { substitutions := prefs.substitutions.value; }
    }

    /**
     * The rules `pickVoice` tries, in priority order: the call's voice name,
     * the call's language prefix, the configured name, the configured prefix,
     * the call's language, and finally the configured language. Empty or
     * missing options contribute no rule.
     */
    function VoiceRules(opts: SpeakOptions): seq<Rule>
      reads this
    {
      (if Given(opts.voiceName) then [ByName(opts.voiceName.value)] else [])
      + (if Given(opts.voiceLangStartsWith) then [ByPrefix(opts.voiceLangStartsWith.value)] else [])
      + (if Given(voiceName) then [ByName(voiceName.value)] else [])
      + (if Given(voiceLangStartsWith) then [ByPrefix(voiceLangStartsWith.value)] else [])
      + (if Given(opts.lang) then [ByPrefix(opts.lang.value)] else [])
      + [ByPrefix(lang)]
    }

    /**
     * `pickVoice(opts, s)`, `None` for `null`: a voice found is one of the
     * available voices and matches one of the rules in force.
     */
    function PickVoice(opts: SpeakOptions, voices: seq<Voice>): (r: Option<Voice>)
      reads this
      ensures r.Some? ==> r.value in voices
      ensures r.Some? ==> exists rule :: rule in VoiceRules(opts) && Matches(r.value, rule)
    {
      var rules := VoiceRules(opts);
      var r := PickFirst(voices, rules);
      if r.Some? then
        var j :| 0 <= j < |rules| && Find(voices, rules[j]).Some? && r.value == voices[Find(voices, rules[j]).value];
        assert rules[j] in rules && Matches(r.value, rules[j]);
        r
      else r
    }

    /** `applySubs(text, extra)`. */
    function ApplySubs(text: string, extra: Option<seq<SubRule>>, replace: (string, SubRule) -> string): (r: string)
      reads this
      ensures r == ApplyAll(ApplyAll(text, substitutions, replace), extra.GetOr([]), replace)
    {
      ApplyAllAppend(text, substitutions, extra.GetOr([]), replace);
      ApplyAll(text, substitutions + extra.GetOr([]), replace)
    }

    /**
     * `speak(text, …, opts)` up to `speechSynthesis.speak(u)`: nothing
     * without speech synthesis or for blank text.
     */
    function Speak(text: string, opts: SpeakOptions, hasSynth: bool, voices: seq<Voice>,
                   replace: (string, SubRule) -> string): (r: Option<Utterance>)
      reads this
      ensures r.None? <==> !hasSynth || IsBlank(text)
      ensures r.Some? ==>
        && r.value.rate == opts.rate.GetOr(rate)
        && r.value.pitch == opts.pitch.GetOr(pitch)
        && r.value.lang == opts.lang.GetOr(lang)
        && r.value.text == ApplyAll(ApplyAll(text, substitutions, replace), opts.substitutions.GetOr([]), replace)
        && r.value.voice == PickVoice(opts, voices)
    {
      TrimEmptyIffBlank(text);
      if !hasSynth || Trim(text) == [] then None
      else
        Some(Utterance(ApplySubs(text, opts.substitutions, replace),
                       opts.rate.GetOr(rate), opts.pitch.GetOr(pitch), opts.lang.GetOr(lang),
                       PickVoice(opts, voices)))
    }
  }

  /** A voice whose name is the requested one always wins, the first such voice. */
  lemma NamedVoiceWins(d: Defaults, opts: SpeakOptions, voices: seq<Voice>, k: nat)
    requires Given(opts.voiceName)
    requires k < |voices| && voices[k].name == opts.voiceName.value
    ensures d.PickVoice(opts, voices).Some?
    ensures d.PickVoice(opts, voices) == Some(voices[Find(voices, ByName(opts.voiceName.value)).value])
  {
    var rules := d.VoiceRules(opts);
    assert rules[0] == ByName(opts.voiceName.value);
    assert Matches(voices[k], rules[0]);
  }

  /** `pickVoice` returns `null` exactly when no active rule matches any voice. */
  lemma NoVoiceIffNoRuleMatches(d: Defaults, opts: SpeakOptions, voices: seq<Voice>)
    ensures d.PickVoice(opts, voices).None? <==>
      forall rule, k :: rule in d.VoiceRules(opts) && 0 <= k < |voices| ==> !Matches(voices[k], rule)
  {
    var rules := d.VoiceRules(opts);
    var r := PickFirst(voices, rules);
    if r.None? {
      forall rule, k | rule in rules && 0 <= k < |voices| ensures !Matches(voices[k], rule) {
        var j :| 0 <= j < |rules| && rules[j] == rule;
      }
    } else {
      var j :| 0 <= j < |rules| && Find(voices, rules[j]).Some?;
      var k := Find(voices, rules[j]).value;
      assert rules[j] in rules && Matches(voices[k], rules[j]);
    }
  }

  /** The configured language is always the last resort: a voice with its prefix guarantees a pick. */
  lemma DefaultLangIsLastResort(d: Defaults, opts: SpeakOptions, voices: seq<Voice>, k: nat)
    requires k < |voices| && voices[k].lang.Some? && StartsWith(voices[k].lang.value, d.lang)
    ensures d.PickVoice(opts, voices).Some?
  {
    var rules := d.VoiceRules(opts);
    assert rules[|rules| - 1] == ByPrefix(d.lang);
    assert Matches(voices[k], rules[|rules| - 1]);
  }

  /** With no options at all and nothing configured, the configured language decides alone. */
  lemma OnlyLangWithoutPreferences(d: Defaults, voices: seq<Voice>)
    requires d.voiceName.None? && d.voiceLangStartsWith.None?
    ensures var none := SpeakOptions(None, None, None, None, None, None);
      d.PickVoice(none, voices) ==
        (match Find(voices, ByPrefix(d.lang)) case None => None case Some(k) => Some(voices[k]))
  {
    var none := SpeakOptions(None, None, None, None, None, None);
    assert d.VoiceRules(none) == [ByPrefix(d.lang)];
  }
}

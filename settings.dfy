/**
 * The app-wide voice preferences kept in local storage (src/lib/settings.ts).
 * The stored item is a field of a store object; `JSON.parse` and
 * `JSON.stringify` are parameters. `loadSettings` spreads whatever was
 * stored over the defaults, so the record it returns holds JSON values of
 * any kind, not only the declared field types.
 */
module Settings {
  import opened Wrappers
  import opened Json
  import TtsConfig

  const SettingsKey: string := "ai-settings:v1"

  datatype Casualness = Light | Normal | Spicy

  /** A `Settings` record as the app writes it. */
  datatype Settings = Settings(voiceId: string, casualness: Casualness, fallback: bool)

  /** The three fields of the record `loadSettings` returns. */
  datatype Fields = Fields(voiceId: Json, casualness: Json, fallback: Json)

  const DefaultSettings: Settings := Settings(TtsConfig.DefaultVoiceId, Normal, true)

  function CasualnessName(c: Casualness): string {
    match c
    case Light => "Light"
    case Normal => "Normal"
    case Spicy => "Spicy"
  }

  /** A typed record as its fields read back. */
  function FieldsOf(s: Settings): Fields {
    Fields(JStr(s.voiceId), JStr(CasualnessName(s.casualness)), JBool(s.fallback))
  }

  /** The object `JSON.stringify` is given by `saveSettings`. */
  function ToJson(s: Settings): Json {
    JObj(map["voiceId" := JStr(s.voiceId), "casualness" := JStr(CasualnessName(s.casualness)), "fallback" := JBool(s.fallback)])
  }

  /**
   * `{ ...DEFAULT_SETTINGS, ...parsed }`: each field an object stores
   * replaces the default, even with `null`; spreading `null`, a primitive,
   * an array or a string adds none of the three fields.
   */
  function Merge(parsed: Json): (r: Fields)
    ensures !parsed.JObj? ==> r == FieldsOf(DefaultSettings)
    ensures parsed.JObj? && "voiceId" !in parsed.fields ==> r.voiceId == JStr(TtsConfig.DefaultVoiceId)
    ensures parsed.JObj? && "casualness" !in parsed.fields ==> r.casualness == JStr("Normal")
    ensures parsed.JObj? && "fallback" !in parsed.fields ==> r.fallback == JBool(true)
  {
    var d := FieldsOf(DefaultSettings);
    match parsed
    case JObj(m) =>
      Fields(if "voiceId" in m then m["voiceId"] else d.voiceId,
             if "casualness" in m then m["casualness"] else d.casualness,
             if "fallback" in m then m["fallback"] else d.fallback)
    case _ => d
  }

  /** Each field an object stores overrides the default, whatever its value. */
  lemma StoredFieldsOverride(m: map<string, Json>)
    ensures "voiceId" in m ==> Merge(JObj(m)).voiceId == m["voiceId"]
    ensures "casualness" in m ==> Merge(JObj(m)).casualness == m["casualness"]
    ensures "fallback" in m ==> Merge(JObj(m)).fallback == m["fallback"]
  {
  }

  /**
   * `loadSettings()`: the defaults outside a browser, for a missing or empty
   * item and for text that does not parse; otherwise the merge.
   */
  function LoadSettings(inBrowser: bool, item: Option<string>, parse: string -> Option<Json>): (r: Fields)
    ensures !inBrowser || item.None? || item == Some([]) ==> r == FieldsOf(DefaultSettings)
    ensures inBrowser && item.Some? && item.value != [] && parse(item.value).None? ==> r == FieldsOf(DefaultSettings)
    ensures inBrowser && item.Some? && item.value != [] && parse(item.value).Some? ==> r == Merge(parse(item.value).value)
  {
    if !inBrowser || item.None? || item.value == [] then FieldsOf(DefaultSettings)
    else match parse(item.value)
      case None => FieldsOf(DefaultSettings)
      case Some(p) => Merge(p)
  }

  lemma {:induction false} ToJsonFields(s: Settings)
    ensures var m := ToJson(s).fields;
      && "voiceId" in m && m["voiceId"] == JStr(s.voiceId)
      && "casualness" in m && m["casualness"] == JStr(CasualnessName(s.casualness))
      && "fallback" in m && m["fallback"] == JBool(s.fallback)
  {
  }

  /** A saved record loads back field for field, when `JSON.parse` inverts `JSON.stringify` on it. */
  lemma {:induction false} SaveThenLoad(s: Settings, parse: string -> Option<Json>, stringify: Json -> string)
    requires RoundTrips(parse, stringify, ToJson(s))
    ensures LoadSettings(true, Some(stringify(ToJson(s))), parse) == FieldsOf(s)
  {
    ToJsonFields(s);
    StoredFieldsOverride(ToJson(s).fields);
  }

  class SettingsStore {
    /** `typeof window !== "undefined"`. */
    const inBrowser: bool
    /** `localStorage.getItem("ai-settings:v1")`. */
    var item: Option<string>
    /** Whether `localStorage.setItem` succeeds. */
    var writable: bool
    /** How many "settings:changed" events have been dispatched. */
    var changes: nat

    constructor(inBrowser: bool, item: Option<string>, writable: bool)
      ensures this.inBrowser == inBrowser && this.item == item && this.writable == writable
      ensures changes == 0
    {
      this.inBrowser := inBrowser;
      this.item := item;
      this.writable := writable;
      changes := 0;
    }

    function Load(parse: string -> Option<Json>): Fields
      reads this
    {
      LoadSettings(inBrowser, item, parse)
    }

    /**
     * `saveSettings(next)`: store the JSON text, then announce the change;
     * a failed write is swallowed and announces nothing.
     */
    method Save(next: Settings, stringify: Json -> string)
      modifies this`item, this`changes
      ensures inBrowser && writable ==> item == Some(stringify(ToJson(next))) && changes == old(changes) + 1
      ensures !(inBrowser && writable) ==> item == old(item) && changes == old(changes)
    {
      if inBrowser && writable {
        item := Some(stringify(ToJson(next)));
        changes := changes + 1;
      }
    }
  }

  /** After a successful save, the next load sees the saved record. */
  method SaveThenLoadStore(store: SettingsStore, next: Settings, parse: string -> Option<Json>,
                           stringify: Json -> string) returns (loaded: Fields)
    requires store.inBrowser && store.writable
    requires RoundTrips(parse, stringify, ToJson(next))
    modifies store`item, store`changes
    ensures loaded == FieldsOf(next) && store.changes == old(store.changes) + 1
  {
    store.Save(next, stringify);
    SaveThenLoad(next, parse, stringify);
    loaded := store.Load(parse);
  }
}

/**
 * The client speaker queue (src/lib/speaker.ts). `processQueue` is split at
 * its `await` points into steps of a numbered run, so that `speak`, `cancel`
 * and `destroy` can interleave with runs already in flight. The outcomes of
 * the caches, the network and playback are parameters of the steps; the
 * audio element, the analyser graph, the controller and the VU timer are
 * kept only as "is set" flags.
 *
 * The code does not promise single-flight playback or silence after a
 * cancel: a cancelled fetch rejects into the `catch`, which still speaks the
 * item with the browser voice, and the old run later clears `playing` and
 * may fire `onEnd`. The scenario lemmas at the end show both.
 */
module Speaker {
  import opened Wrappers
  import opened Text
  import Truncate
  import Hash
  import opened TtsConfig

  /** `LS_PREFIX`, the localStorage key prefix for cached audio. */
  const LsPrefix: string := "tts-audio:"
  /** `LS_MAX_BYTES`: larger blobs are never written to localStorage. */
  const LsMaxBytes: nat := 2 * 1024 * 1024

  type Blob = seq<Hash.Byte>

  /** A queued `SpeakItem`: the capped text and the voice it is spoken with. */
  datatype Item = Item(say: string, voiceId: string)

  /** Where a run of `processQueue` is waiting. */
  datatype Stage =
    | AwaitKey                    // ttsCacheKey
    | AwaitCache(key: string)     // idbGet, then the synchronous lsGet
    | AwaitFetch(key: string)     // fetchTTS
    | AwaitPlay                   // playBlob: audio.play(), then the element's end
    | AwaitFallback               // fallbackSpeak
    | AwaitRejectedFallback       // fallbackSpeak in the .catch of a refused audio.play()
    | AwaitAudioEnd               // playBlob's onended/onerror once that fallback is over

  datatype Run = Run(item: Item, stage: Stage)

  /** The callbacks and the two ways of speaking, in the order they happen. */
  datatype Event = Started | Ended | PlayAudio(say: string) | SpeakBrowser(say: string)

  /** The answer to the `/api/tts` request: a response, or a rejection (abort or network error). */
  datatype Response = Response(ok: bool, contentType: Option<string>, body: Blob) | Rejected

  /** The handles `cancel` nulls: fetch controller, <audio> element, audio graph, VU timer. */
  datatype Handles = Handles(controller: bool, audio: bool, graph: bool, vuTimer: bool)

  const NoHandles: Handles := Handles(false, false, false, false)

  /** The browser's IndexedDB store (by key) and localStorage (by prefixed key). */
  datatype Caches = Caches(idb: map<string, Blob>, ls: map<string, Blob>)

  datatype State = State(
    queue: seq<Item>,
    playing: bool,
    destroyed: bool,
    handles: Handles,
    runs: map<nat, Run>,
    nextRun: nat,
    events: seq<Event>,
    caches: Caches)

  const Initial: State := State([], false, false, NoHandles, map[], 0, [], Caches(map[], map[]))

  // ---------------------------------------------------------------------------
  // Pure pieces
  // ---------------------------------------------------------------------------

  /** `voiceId || DEFAULT_VOICE_ID`. */
  function VoiceOrDefault(voiceId: string): (r: string)
    ensures r != []
    ensures voiceId != [] ==> r == voiceId
  {
    if voiceId == [] then DefaultVoiceId else voiceId
  }

  /** What may sit in the queue or in a run: non-empty text within the cap, and a voice. */
  predicate Speakable(it: Item) {
    0 < |it.say| <= Truncate.MaxChars + 1 && it.voiceId != []
  }

  /** The item `speak` enqueues: nothing for blank text, else the capped trimmed text. */
  function Enqueued(say: string, voiceId: string): (r: Option<Item>)
    ensures r.None? <==> IsBlank(say)
    ensures r.Some? ==> Speakable(r.value)
    ensures r.Some? && |Trim(say)| <= Truncate.MaxChars ==> r.value.say == Trim(say)
    ensures r.Some? && |Trim(say)| > Truncate.MaxChars ==>
      r.value.say[|r.value.say| - 1] == Truncate.Ellipsis
    ensures r.Some? && voiceId != [] ==> r.value.voiceId == voiceId
  {
    TrimEmptyIffBlank(say);
    var trimmed := Trim(say);
    if trimmed == [] then None
    else Some(Item(Truncate.TruncateAtSentenceBoundary(trimmed, Truncate.MaxChars), VoiceOrDefault(voiceId)))
  }

  /** `fetchTTS`: a blob only for an ok response whose Content-Type mentions "audio". */
  function FetchedAudio(r: Response): (b: Option<Blob>)
    ensures b.Some? <==> r.Response? && r.ok && Contains(r.contentType.GetOr(""), "audio")
    ensures b.Some? ==> b.value == r.body
  {
    match r
    case Rejected => None
    case Response(ok, ct, body) =>
      if !ok then None
      else if !Contains(ct.GetOr(""), "audio") then None
      else Some(body)
  }

  /** `lsGet(key)`: a missing or empty stored value is a miss. */
  function LsGet(ls: map<string, Blob>, key: string): (r: Option<Blob>)
    ensures r.Some? ==> LsPrefix + key in ls && r.value == ls[LsPrefix + key] && r.value != []
    ensures r.None? <==> LsPrefix + key !in ls || ls[LsPrefix + key] == []
  {
    if LsPrefix + key in ls && ls[LsPrefix + key] != [] then Some(ls[LsPrefix + key]) else None
  }

  /** `lsSet(key, blob)`: skipped above 2 MB; `ok` is false when `setItem` throws. */
  function LsSet(ls: map<string, Blob>, key: string, blob: Blob, ok: bool): (r: map<string, Blob>)
    ensures |blob| > LsMaxBytes || !ok ==> r == ls
    ensures |blob| <= LsMaxBytes && ok ==> LsPrefix + key in r && r[LsPrefix + key] == blob
    ensures r.Keys <= ls.Keys + {LsPrefix + key}
    ensures forall k :: k in ls && k != LsPrefix + key ==> k in r && r[k] == ls[k]
  {
    if |blob| > LsMaxBytes || !ok then ls else ls[LsPrefix + key := blob]
  }

  /** The cache lookup of `processQueue`: IndexedDB first, then localStorage. */
  function CachedBlob(c: Caches, key: string, idbOk: bool): (r: Option<Blob>)
    ensures idbOk && key in c.idb ==> r == Some(c.idb[key])
    ensures !(idbOk && key in c.idb) ==> r == LsGet(c.ls, key)
  {
    if idbOk && key in c.idb then Some(c.idb[key]) else LsGet(c.ls, key)
  }

  /** The two best-effort cache writes after a fetch; either may fail. */
  function CacheWrite(c: Caches, key: string, blob: Blob, idbOk: bool, lsOk: bool): (r: Caches)
    ensures idbOk ==> key in r.idb && r.idb[key] == blob && CachedBlob(r, key, true) == Some(blob)
    ensures !idbOk ==> r.idb == c.idb
    ensures forall k :: k in c.idb && k != key ==> k in r.idb && r.idb[k] == c.idb[k]
    ensures r.ls == LsSet(c.ls, key, blob, lsOk)
  {
    Caches(if idbOk then c.idb[key := blob] else c.idb, LsSet(c.ls, key, blob, lsOk))
  }

  // ---------------------------------------------------------------------------
  // The invariant
  // ---------------------------------------------------------------------------

  /**
   * Run numbers are below the counter; while `playing`, the newest run is in
   * flight; a destroyed speaker has an empty queue and is not playing; queued
   * and running items are speakable.
   */
  predicate Valid(s: State) {
    && (forall id :: id in s.runs ==> id < s.nextRun)
    && (s.playing ==> s.nextRun > 0 && s.nextRun - 1 in s.runs)
    && (s.destroyed ==> s.queue == [] && !s.playing)
    && (forall it :: it in s.queue ==> Speakable(it))
    && (forall id :: id in s.runs ==> Speakable(s.runs[id].item))
  }

  /** Run `id` moves to a new stage; nothing else changes. */
  function Move(s: State, id: nat, st: Stage): (r: State)
    requires id in s.runs
    ensures Valid(s) ==> Valid(r)
  {
    s.(runs := s.runs[id := Run(s.runs[id].item, st)])
  }

  // ---------------------------------------------------------------------------
  // The steps
  // ---------------------------------------------------------------------------

  /** `processQueue` up to its first await: when idle and alive, the front item becomes a new run. */
  function ProcessStep(s: State): (r: State)
    ensures Valid(s) ==> Valid(r)
    ensures r.caches == s.caches && r.destroyed == s.destroyed && r.handles == s.handles
    ensures s.playing || s.destroyed || s.queue == [] ==> r == s
    ensures !(s.playing || s.destroyed || s.queue == []) ==>
      && r.queue == s.queue[1..] && r.playing && r.events == s.events + [Started]
      && r.runs == s.runs[s.nextRun := Run(s.queue[0], AwaitKey)] && r.nextRun == s.nextRun + 1
  {
    if s.playing || s.destroyed || s.queue == [] then s
    else
      assert s.queue[0] in s.queue;
      assert forall it :: it in s.queue[1..] ==> it in s.queue;
      s.(queue := s.queue[1..], playing := true, events := s.events + [Started],
         runs := s.runs[s.nextRun := Run(s.queue[0], AwaitKey)], nextRun := s.nextRun + 1)
  }

  /** `speak`, given the item it enqueues (None for blank text). */
  function SpeakStep(s: State, item: Option<Item>): (r: State)
    requires item.Some? ==> Speakable(item.value)
    ensures Valid(s) ==> Valid(r)
    ensures r.caches == s.caches
    ensures s.destroyed || item.None? ==> r == s
    ensures !s.destroyed && item.Some? && s.playing ==> r == s.(queue := s.queue + [item.value])
    ensures !s.destroyed && item.Some? && !s.playing ==> r == ProcessStep(s.(queue := s.queue + [item.value]))
  {
    if s.destroyed || item.None? then s
    else
      var s1 := s.(queue := s.queue + [item.value]);
      if s1.playing then s1 else ProcessStep(s1)
  }

  /** The cache key has been computed: `ttsCacheKey(voiceId || DEFAULT_VOICE_ID, say)`. */
  function KeyReadyStep(s: State, id: nat, digest: string -> seq<Hash.Byte>): (r: State)
    ensures Valid(s) ==> Valid(r)
    ensures r.caches == s.caches
    ensures id in s.runs && s.runs[id].stage.AwaitKey? ==>
      var it := s.runs[id].item;
      r == s.(runs := s.runs[id := Run(it, AwaitCache(Hash.UrlEncode(digest(Hash.KeyInput(VoiceOrDefault(it.voiceId), it.say)))))])
    ensures !(id in s.runs && s.runs[id].stage.AwaitKey?) ==> r == s
  {
    if id in s.runs && s.runs[id].stage.AwaitKey? then
      var it := s.runs[id].item;
      Move(s, id, AwaitCache(Hash.UrlEncode(digest(Hash.KeyInput(VoiceOrDefault(it.voiceId), it.say)))))
    else s
  }

  /** `playBlob` up to its await: a new audio element, the analyser and a VU timer. */
  function StartPlay(s: State, id: nat): (r: State)
    requires id in s.runs
    ensures Valid(s) ==> Valid(r)
    ensures r.caches == s.caches
    ensures r.runs == s.runs[id := Run(s.runs[id].item, AwaitPlay)]
    ensures r.handles == s.handles.(audio := true, graph := true, vuTimer := true)
    ensures r.events == s.events + [PlayAudio(s.runs[id].item.say)]
    ensures r.queue == s.queue && r.playing == s.playing && r.destroyed == s.destroyed && r.nextRun == s.nextRun
  {
    var m := Move(s, id, AwaitPlay);
    m.(handles := m.handles.(audio := true, graph := true, vuTimer := true),
       events := m.events + [PlayAudio(s.runs[id].item.say)])
  }

  /** `fallbackSpeak` up to its await: a VU timer, then browser speech (whose onstart fires `onStart`). */
  function StartFallback(s: State, id: nat): (r: State)
    requires id in s.runs
    ensures Valid(s) ==> Valid(r)
    ensures r.caches == s.caches
    ensures r.runs == s.runs[id := Run(s.runs[id].item, AwaitFallback)]
    ensures r.handles == s.handles.(vuTimer := true)
    ensures r.events == s.events + [SpeakBrowser(s.runs[id].item.say), Started]
    ensures r.queue == s.queue && r.playing == s.playing && r.destroyed == s.destroyed && r.nextRun == s.nextRun
  {
    var m := Move(s, id, AwaitFallback);
    m.(handles := m.handles.(vuTimer := true), events := m.events + [SpeakBrowser(s.runs[id].item.say), Started])
  }

  /** `idbGet` has answered (`idbOk` false when IndexedDB fails), then `lsGet`: play a hit, else fetch. */
  function CacheReadStep(s: State, id: nat, idbOk: bool): (r: State)
    ensures Valid(s) ==> Valid(r)
    ensures r.caches == s.caches
    ensures id in s.runs && s.runs[id].stage.AwaitCache? && CachedBlob(s.caches, s.runs[id].stage.key, idbOk).Some? ==>
      r == StartPlay(s, id)
    ensures id in s.runs && s.runs[id].stage.AwaitCache? && CachedBlob(s.caches, s.runs[id].stage.key, idbOk).None? ==>
      r == s.(runs := s.runs[id := Run(s.runs[id].item, AwaitFetch(s.runs[id].stage.key))],
              handles := s.handles.(controller := true))
    ensures !(id in s.runs && s.runs[id].stage.AwaitCache?) ==> r == s
  {
    if id in s.runs && s.runs[id].stage.AwaitCache? then
      var key := s.runs[id].stage.key;
      if CachedBlob(s.caches, key, idbOk).Some? then StartPlay(s, id)
      else
        var m := Move(s, id, AwaitFetch(key));
        m.(handles := m.handles.(controller := true))
    else s
  }

  /**
   * `fetchTTS` has settled. Fresh audio is written to both caches and played;
   * anything else, a rejection included, falls back to browser speech.
   */
  function FetchDoneStep(s: State, id: nat, resp: Response, idbOk: bool, lsOk: bool): (r: State)
    ensures Valid(s) ==> Valid(r)
    ensures id in s.runs && s.runs[id].stage.AwaitFetch? && FetchedAudio(resp).Some? ==>
      r.caches == CacheWrite(s.caches, s.runs[id].stage.key, resp.body, idbOk, lsOk)
    ensures !(id in s.runs && s.runs[id].stage.AwaitFetch? && FetchedAudio(resp).Some?) ==>
      r.caches == s.caches
    ensures id in s.runs && s.runs[id].stage.AwaitFetch? && FetchedAudio(resp).Some? ==>
      r == StartPlay(s.(caches := r.caches), id)
    ensures id in s.runs && s.runs[id].stage.AwaitFetch? && FetchedAudio(resp).None? ==>
      r == StartFallback(s, id)
    ensures !(id in s.runs && s.runs[id].stage.AwaitFetch?) ==> r == s
  {
    if id in s.runs && s.runs[id].stage.AwaitFetch? then
      var key := s.runs[id].stage.key;
      match FetchedAudio(resp)
      case Some(blob) => StartPlay(s.(caches := CacheWrite(s.caches, key, blob, idbOk, lsOk)), id)
      case None => StartFallback(s, id)
    else s
  }

  /** The end of a run: `playing` is cleared, then the next item starts, or `onEnd` fires. */
  function Finish(s: State, id: nat): (r: State)
    ensures Valid(s.(playing := false)) ==> Valid(r)
    ensures r.caches == s.caches && r.handles == s.handles && (id < s.nextRun ==> id !in r.runs)
    ensures s.queue == [] ==> !r.playing && r.events == s.events + [Ended]
    ensures s.queue != [] && !s.destroyed ==>
      && r.playing && s.nextRun in r.runs && r.runs[s.nextRun].item == s.queue[0]
      && r.events == s.events + [Started]
  {
    var s1 := s.(runs := s.runs - {id}, playing := false);
    if |s1.queue| > 0 then
      assert s.queue != [] && !s.destroyed ==> s1.nextRun == s.nextRun && s1.queue == s.queue && !s1.playing && !s1.destroyed;
      ProcessStep(s1)
    else s1.(events := s1.events + [Ended])
  }

  /**
   * `audio.play()` was refused: the `.catch` speaks the text with the browser
   * voice, exactly as `fallbackSpeak` does after a failed fetch.
   */
  function PlayRejectedStep(s: State, id: nat): (r: State)
    ensures Valid(s) ==> Valid(r)
    ensures r.caches == s.caches
    ensures id in s.runs && s.runs[id].stage.AwaitPlay? ==>
      && r.runs == s.runs[id := Run(s.runs[id].item, AwaitRejectedFallback)]
      && r.handles == s.handles.(vuTimer := true)
      && r.events == s.events + [SpeakBrowser(s.runs[id].item.say), Started]
      && r.queue == s.queue && r.playing == s.playing && r.destroyed == s.destroyed && r.nextRun == s.nextRun
    ensures !(id in s.runs && s.runs[id].stage.AwaitPlay?) ==> r == s
  {
    if id in s.runs && s.runs[id].stage.AwaitPlay? then
      var m := Move(s, id, AwaitRejectedFallback);
      m.(handles := m.handles.(vuTimer := true), events := m.events + [SpeakBrowser(s.runs[id].item.say), Started])
    else s
  }

  /** The audio element ended (or failed): the timer and the analyser are torn down. */
  function PlayEndedStep(s: State, id: nat): (r: State)
    ensures Valid(s) ==> Valid(r)
    ensures r.caches == s.caches
    ensures id in s.runs && (s.runs[id].stage.AwaitPlay? || s.runs[id].stage.AwaitAudioEnd?) ==>
      && r == Finish(s.(handles := s.handles.(vuTimer := false, graph := false)), id)
      && r.handles == s.handles.(vuTimer := false, graph := false)
    ensures !(id in s.runs && (s.runs[id].stage.AwaitPlay? || s.runs[id].stage.AwaitAudioEnd?)) ==> r == s
  {
    if id in s.runs && (s.runs[id].stage.AwaitPlay? || s.runs[id].stage.AwaitAudioEnd?) then
      Finish(s.(handles := s.handles.(vuTimer := false, graph := false)), id)
    else s
  }

  /**
   * Browser speech ended: its timer is cleared. After a failed fetch the run
   * finishes; inside `playBlob` the run goes on to wait for the element's end.
   */
  function FallbackEndedStep(s: State, id: nat): (r: State)
    ensures Valid(s) ==> Valid(r)
    ensures r.caches == s.caches
    ensures id in s.runs && s.runs[id].stage.AwaitFallback? ==>
      && r == Finish(s.(handles := s.handles.(vuTimer := false)), id)
      && r.handles == s.handles.(vuTimer := false)
    ensures id in s.runs && s.runs[id].stage.AwaitRejectedFallback? ==>
      r == s.(runs := s.runs[id := Run(s.runs[id].item, AwaitAudioEnd)], handles := s.handles.(vuTimer := false))
    ensures !(id in s.runs && (s.runs[id].stage.AwaitFallback? || s.runs[id].stage.AwaitRejectedFallback?)) ==> r == s
  {
    if id in s.runs && s.runs[id].stage.AwaitFallback? then
      Finish(s.(handles := s.handles.(vuTimer := false)), id)
    else if id in s.runs && s.runs[id].stage.AwaitRejectedFallback? then
      Move(s, id, AwaitAudioEnd).(handles := s.handles.(vuTimer := false))
    else s
  }

  /**
   * `cancel()`: the queue is emptied, `playing` and every handle cleared and
   * `onEnd` fired once; the runs in flight are not stopped.
   */
  function CancelStep(s: State): (r: State)
    ensures Valid(s) ==> Valid(r)
    ensures r.queue == [] && !r.playing && r.handles == NoHandles
    ensures r.events == s.events + [Ended]
    ensures r.runs == s.runs && r.destroyed == s.destroyed && r.caches == s.caches && r.nextRun == s.nextRun
  {
    s.(handles := NoHandles, queue := [], playing := false, events := s.events + [Ended])
  }

  /** `destroy()`. */
  function DestroyStep(s: State): (r: State)
    ensures Valid(s) ==> Valid(r)
    ensures r.destroyed && r.caches == s.caches
    ensures r == CancelStep(s).(destroyed := true)
  {
    CancelStep(s.(destroyed := true))
  }

  /** Everything that can happen to a speaker. */
  datatype Action =
    | DoSpeak(say: string, voiceId: string)
    | DoKeyReady(id: nat, digest: string -> seq<Hash.Byte>)
    | DoCacheRead(id: nat, idbOk: bool)
    | DoFetchDone(id: nat, resp: Response, idbOk: bool, lsOk: bool)
    | DoPlayRejected(id: nat)
    | DoPlayEnded(id: nat)
    | DoFallbackEnded(id: nat)
    | DoCancel
    | DoDestroy

  function Next(s: State, a: Action): State {
    match a
    case DoSpeak(say, v) => SpeakStep(s, Enqueued(say, v))
    case DoKeyReady(id, d) => KeyReadyStep(s, id, d)
    case DoCacheRead(id, ok) => CacheReadStep(s, id, ok)
    case DoFetchDone(id, r, i, l) => FetchDoneStep(s, id, r, i, l)
    case DoPlayRejected(id) => PlayRejectedStep(s, id)
    case DoPlayEnded(id) => PlayEndedStep(s, id)
    case DoFallbackEnded(id) => FallbackEndedStep(s, id)
    case DoCancel => CancelStep(s)
    case DoDestroy => DestroyStep(s)
  }

  /** The states reachable from a fresh speaker. */
  function After(actions: seq<Action>): State
    decreases |actions|
  {
    if actions == [] then Initial else Next(After(actions[..|actions| - 1]), actions[|actions| - 1])
  }

  // ---------------------------------------------------------------------------
  // Properties
  // ---------------------------------------------------------------------------

  /** Every reachable state satisfies the invariant. */
  lemma {:induction false} ReachableValid(actions: seq<Action>)
    ensures Valid(After(actions))
    decreases |actions|
  {
    if actions != [] {
      ReachableValid(actions[..|actions| - 1]);
    }
  }

  /**
   * Only fresh audio is cached: no action but a fetch that returned audio
   * changes IndexedDB or localStorage.
   */
  lemma CachesWrittenOnlyByFetch(s: State, a: Action)
    ensures !(a.DoFetchDone? && FetchedAudio(a.resp).Some?) ==> Next(s, a).caches == s.caches
  {
  }

  /** After `destroy`, every later `speak` is a no-op. */
  lemma {:induction false} DestroyedStaysSilent(s: State, says: seq<(string, string)>)
    ensures SpeakAll(DestroyStep(s), says) == DestroyStep(s)
    decreases |says|
  {
    if says != [] {
      DestroyedStaysSilent(s, says[1..]);
    }
  }

  function SpeakAll(s: State, says: seq<(string, string)>): State
    decreases |says|
  {
    if says == [] then s else SpeakAll(SpeakStep(s, Enqueued(says[0].0, says[0].1)), says[1..])
  }

  /** Items are spoken in the order they were queued: a run always takes the front of the queue. */
  lemma {:induction false} SpeakAllQueues(s: State, items: seq<Item>)
    requires !s.destroyed && s.playing
    requires forall it :: it in items ==> Speakable(it)
    ensures SpeakItems(s, items).queue == s.queue + items
    decreases |items|
  {
    if items != [] {
      var s1 := SpeakStep(s, Some(items[0]));
      assert s1.queue == s.queue + [items[0]];
      SpeakAllQueues(s1, items[1..]);
      assert s.queue + [items[0]] + items[1..] == s.queue + items;
    }
  }

  function SpeakItems(s: State, items: seq<Item>): State
    requires forall it :: it in items ==> Speakable(it)
    decreases |items|
  {
    if items == [] then s
    else
      assert items[0] in items;
      assert forall it :: it in items[1..] ==> it in items;
      SpeakItems(SpeakStep(s, Some(items[0])), items[1..])
  }

  /** A cache hit in IndexedDB is played without asking localStorage; a full miss fetches. */
  lemma LookupOrder(c: Caches, key: string, idbOk: bool)
    ensures idbOk && key in c.idb ==> CachedBlob(c, key, idbOk) == Some(c.idb[key])
    ensures !(idbOk && key in c.idb) && LsPrefix + key in c.ls && c.ls[LsPrefix + key] != [] ==>
      CachedBlob(c, key, idbOk) == Some(c.ls[LsPrefix + key])
    ensures CachedBlob(c, key, idbOk).None? <==>
      !(idbOk && key in c.idb) && (LsPrefix + key !in c.ls || c.ls[LsPrefix + key] == [])
  {
  }

  /** A blob written to localStorage reads back, unless it is over 2 MB, empty, or the write failed. */
  lemma LsRoundTrip(ls: map<string, Blob>, key: string, blob: Blob, ok: bool)
    ensures ok && 0 < |blob| <= LsMaxBytes ==> LsGet(LsSet(ls, key, blob, ok), key) == Some(blob)
    ensures |blob| > LsMaxBytes ==> LsSet(ls, key, blob, ok) == ls
    ensures forall k :: k != key ==> LsGet(LsSet(ls, key, blob, ok), k) == LsGet(ls, k)
  {
    forall k | k != key ensures LsPrefix + k != LsPrefix + key {
      if LsPrefix + k == LsPrefix + key {
        PrefixCancels(LsPrefix, k, key);
      }
    }
  }

  lemma PrefixCancels(p: string, a: string, b: string)
    requires p + a == p + b
    ensures a == b
  {
    assert a == (p + a)[|p|..];
    assert b == (p + b)[|p|..];
  }

  // ---------------------------------------------------------------------------
  // What the code does not promise
  // ---------------------------------------------------------------------------

  /**
   * Neither silence after a cancel nor single-flight playback. Run 0 is
   * cancelled while its fetch is pending, and a new item starts run 1 beside
   * it (state 5). The aborted fetch rejects, and run 0 still speaks its item
   * with the browser voice (state 6). When that ends, run 0 clears `playing`
   * while run 1 is in flight, and fires `onEnd` a second time (state 7).
   */
  lemma CancelDoesNotSilence(a: Item, b: Item, d: string -> seq<Hash.Byte>)
    requires Speakable(a) && Speakable(b)
    ensures var s3 := CacheReadStep(KeyReadyStep(SpeakStep(Initial, Some(a)), 0, d), 0, false);
      var s5 := SpeakStep(CancelStep(s3), Some(b));
      var s6 := FetchDoneStep(s5, 0, Rejected, true, true);
      var s7 := FallbackEndedStep(s6, 0);
      && s3.runs[0].stage.AwaitFetch?
      && s5.runs.Keys == {0, 1} && s5.playing
      && s6.events == [Started, Ended, Started, SpeakBrowser(a.say), Started]
      && !s7.playing && 1 in s7.runs && s7.events == s6.events + [Ended]
  {
    var key := Hash.UrlEncode(d(Hash.KeyInput(VoiceOrDefault(a.voiceId), a.say)));
    ScenarioStart(a, d, key);
    ScenarioCancel(a, b, key);
    ScenarioFallback(a, b, key);
  }

  /**
   * A cancel during playback does not silence the item either. `cancel`
   * pauses the element, which refuses the pending `audio.play()`; the
   * `.catch` then speaks the same text with the browser voice after the
   * `onEnd` of the cancel. When that speech ends, the run waits for an end
   * of the paused element.
   */
  lemma CancelDuringPlaySpeaks(s: State, id: nat)
    requires id in s.runs && s.runs[id].stage.AwaitPlay?
    ensures var r := PlayRejectedStep(CancelStep(s), id);
      && r.events == s.events + [Ended, SpeakBrowser(s.runs[id].item.say), Started]
      && r.handles == NoHandles.(vuTimer := true)
      && FallbackEndedStep(r, id).runs[id].stage == AwaitAudioEnd
      && FallbackEndedStep(r, id).events == r.events
  {
    var c := CancelStep(s);
    assert c.runs == s.runs;
  }

  const NoCaches: Caches := Caches(map[], map[])

  /** The first run reaches its fetch. */
  lemma ScenarioStart(a: Item, d: string -> seq<Hash.Byte>, key: string)
    requires Speakable(a) && key == Hash.UrlEncode(d(Hash.KeyInput(VoiceOrDefault(a.voiceId), a.say)))
    ensures CacheReadStep(KeyReadyStep(SpeakStep(Initial, Some(a)), 0, d), 0, false) ==
      State([], true, false, NoHandles.(controller := true), map[0 := Run(a, AwaitFetch(key))], 1, [Started], NoCaches)
  {
    var s1 := SpeakStep(Initial, Some(a));
    assert s1 == State([], true, false, NoHandles, map[0 := Run(a, AwaitKey)], 1, [Started], NoCaches);
    var s2 := KeyReadyStep(s1, 0, d);
    assert s2 == State([], true, false, NoHandles, map[0 := Run(a, AwaitCache(key))], 1, [Started], NoCaches);
    assert CachedBlob(NoCaches, key, false).None?;
  }

  /** The cancel, then a second item. */
  lemma ScenarioCancel(a: Item, b: Item, key: string)
    requires Speakable(b)
    ensures SpeakStep(CancelStep(State([], true, false, NoHandles.(controller := true), map[0 := Run(a, AwaitFetch(key))], 1, [Started], NoCaches)), Some(b)) ==
      State([], true, false, NoHandles, map[0 := Run(a, AwaitFetch(key)), 1 := Run(b, AwaitKey)], 2, [Started, Ended, Started], NoCaches)
  {
    var s4 := State([], false, false, NoHandles, map[0 := Run(a, AwaitFetch(key))], 1, [Started, Ended], NoCaches);
    assert CancelStep(State([], true, false, NoHandles.(controller := true), map[0 := Run(a, AwaitFetch(key))], 1, [Started], NoCaches)) == s4;
    assert [b][1..] == [];
  }

  /** The rejected fetch falls back, and the fallback's end finishes run 0. */
  lemma ScenarioFallback(a: Item, b: Item, key: string)
    ensures var s5 := State([], true, false, NoHandles, map[0 := Run(a, AwaitFetch(key)), 1 := Run(b, AwaitKey)], 2, [Started, Ended, Started], NoCaches);
      var s6 := FetchDoneStep(s5, 0, Rejected, true, true);
      && s6 == State([], true, false, NoHandles.(vuTimer := true), map[0 := Run(a, AwaitFallback), 1 := Run(b, AwaitKey)], 2,
                     [Started, Ended, Started, SpeakBrowser(a.say), Started], NoCaches)
      && FallbackEndedStep(s6, 0) == State([], false, false, NoHandles, map[1 := Run(b, AwaitKey)], 2,
                     [Started, Ended, Started, SpeakBrowser(a.say), Started, Ended], NoCaches)
  {
    var m := map[0 := Run(a, AwaitFallback), 1 := Run(b, AwaitKey)];
    assert m - {0} == map[1 := Run(b, AwaitKey)];
  }

  // ---------------------------------------------------------------------------
  // The class
  // ---------------------------------------------------------------------------

  class Speaker {
    var queue: seq<Item>
    var playing: bool
    var destroyed: bool
    var controller: bool
    var audioEl: bool
    /** `ctx`, `source` and `analyser`, which are always set and cleared together. */
    var graph: bool
    var vuTimer: bool
    /** The runs of `processQueue` in flight, by number, and the next number. */
    var runs: map<nat, Run>
    var nextRun: nat
    var events: seq<Event>
    /** The browser's IndexedDB store and localStorage, as this speaker sees them. */
    var idb: map<string, Blob>
    var ls: map<string, Blob>

    ghost function Snapshot(): State
      reads this
    {
      State(queue, playing, destroyed, Handles(controller, audioEl, graph, vuTimer), runs, nextRun, events, Caches(idb, ls))
    }

    constructor ()
      ensures Snapshot() == Initial
    {
      queue, playing, destroyed := [], false, false;
      controller, audioEl, graph, vuTimer := false, false, false, false;
      runs, nextRun, events := map[], 0, [];
      idb, ls := map[], map[];
    }

    /** `speak({say, voiceId})`. */
    method Speak(say: string, voiceId: string)
      modifies this
      ensures Snapshot() == SpeakStep(old(Snapshot()), Enqueued(say, voiceId))
    {
      if destroyed {
        return;
      }
      TrimEmptyIffBlank(say);
      var trimmed := Trim(say);
      if trimmed == [] {
        return;
      }
      var safeSay := Truncate.TruncateAtSentenceBoundary(trimmed, Truncate.MaxChars);
      ghost var before := Snapshot();
      assert Enqueued(say, voiceId) == Some(Item(safeSay, VoiceOrDefault(voiceId)));
      queue := queue + [Item(safeSay, VoiceOrDefault(voiceId))];
      assert Snapshot() == before.(queue := before.queue + [Item(safeSay, VoiceOrDefault(voiceId))]);
      if !playing {
        ProcessQueue();
      }
    }

    /** `processQueue()` up to its first await. */
    method ProcessQueue()
      modifies this
      ensures Snapshot() == ProcessStep(old(Snapshot()))
    {
      if playing || destroyed {
        return;
      }
      if queue == [] {
        return;
      }
      var next := queue[0];
      queue := queue[1..];
      playing := true;
      events := events + [Started];
      runs := runs[nextRun := Run(next, AwaitKey)];
      nextRun := nextRun + 1;
    }

    /** The `ttsCacheKey` await of run `id` resolves. */
    method KeyReady(id: nat, digest: string -> seq<Hash.Byte>)
      modifies this
      ensures Snapshot() == KeyReadyStep(old(Snapshot()), id, digest)
    {
      if id !in runs || !runs[id].stage.AwaitKey? {
        return;
      }
      var next := runs[id].item;
      var key := Hash.TtsCacheKey(digest, VoiceOrDefault(next.voiceId), next.say);
      runs := runs[id := Run(next, AwaitCache(key))];
    }

    /** The `idbGet` await of run `id` resolves; `lsGet` follows at once. */
    method CacheRead(id: nat, idbOk: bool)
      modifies this
      ensures Snapshot() == CacheReadStep(old(Snapshot()), id, idbOk)
    {
      if id !in runs || !runs[id].stage.AwaitCache? {
        return;
      }
      var key := runs[id].stage.key;
      var blob: Option<Blob> := if idbOk && key in idb then Some(idb[key]) else None;
      if blob.None? {
        blob := LsGet(ls, key);
      }
      if blob.Some? {
        PlayBlob(id);
      } else {
        controller := true;
        runs := runs[id := Run(runs[id].item, AwaitFetch(key))];
      }
    }

    /** `playBlob` up to its await. */
    method PlayBlob(id: nat)
      requires id in runs
      modifies this
      ensures Snapshot() == StartPlay(old(Snapshot()), id)
    {
      var next := runs[id].item;
      audioEl := true;
      graph := true;
      vuTimer := true;
      events := events + [PlayAudio(next.say)];
      runs := runs[id := Run(next, AwaitPlay)];
    }

    /** `fallbackSpeak` up to its await. */
    method FallbackSpeak(id: nat)
      requires id in runs
      modifies this
      ensures Snapshot() == StartFallback(old(Snapshot()), id)
    {
      var next := runs[id].item;
      vuTimer := true;
      events := events + [SpeakBrowser(next.say), Started];
      runs := runs[id := Run(next, AwaitFallback)];
    }

    /** The `fetchTTS` await of run `id` settles with `resp`. */
    method FetchDone(id: nat, resp: Response, idbOk: bool, lsOk: bool)
      modifies this
      ensures Snapshot() == FetchDoneStep(old(Snapshot()), id, resp, idbOk, lsOk)
    {
      if id !in runs || !runs[id].stage.AwaitFetch? {
        return;
      }
      var key := runs[id].stage.key;
      var blob := FetchedAudio(resp);
      if blob.Some? {
        if idbOk {
          idb := idb[key := blob.value];
        }
        ls := LsSet(ls, key, blob.value, lsOk);
        PlayBlob(id);
      } else {
        FallbackSpeak(id);
      }
    }

    /** The tail of `processQueue`. */
    method FinishRun(id: nat)
      modifies this
      ensures Snapshot() == Finish(old(Snapshot()), id)
    {
      runs := runs - {id};
      playing := false;
      if |queue| > 0 {
        ProcessQueue();
      } else {
        events := events + [Ended];
      }
    }

    /** The `audio.play()` of run `id` was refused; the `.catch` runs `fallbackSpeak`. */
    method PlayRejected(id: nat)
      modifies this
      ensures Snapshot() == PlayRejectedStep(old(Snapshot()), id)
    {
      if id !in runs || !runs[id].stage.AwaitPlay? {
        return;
      }
      var next := runs[id].item;
      vuTimer := true;
      events := events + [SpeakBrowser(next.say), Started];
      runs := runs[id := Run(next, AwaitRejectedFallback)];
    }

    /** The audio of run `id` ended. */
    method PlayEnded(id: nat)
      modifies this
      ensures Snapshot() == PlayEndedStep(old(Snapshot()), id)
    {
      if id !in runs || !(runs[id].stage.AwaitPlay? || runs[id].stage.AwaitAudioEnd?) {
        return;
      }
      vuTimer := false;
      graph := false;
      FinishRun(id);
    }

    /** The browser speech of run `id` ended. */
    method FallbackEnded(id: nat)
      modifies this
      ensures Snapshot() == FallbackEndedStep(old(Snapshot()), id)
    {
      if id in runs && runs[id].stage.AwaitRejectedFallback? {
        vuTimer := false;
        runs := runs[id := Run(runs[id].item, AwaitAudioEnd)];
        return;
      }
      if id !in runs || !runs[id].stage.AwaitFallback? {
        return;
      }
      vuTimer := false;
      FinishRun(id);
    }

    /** `cancel()`. */
    method Cancel()
      modifies this
      ensures Snapshot() == CancelStep(old(Snapshot()))
    {
      ghost var s := Snapshot();
      vuTimer, controller, audioEl, graph := false, false, false, false;
      queue, playing, events := [], false, events + [Ended];
      assert Snapshot() == State([], false, s.destroyed, NoHandles, s.runs, s.nextRun, s.events + [Ended], s.caches);
    }

    /** `destroy()`. */
    method Destroy()
      modifies this
      ensures Snapshot() == DestroyStep(old(Snapshot()))
    {
      destroyed := true;
      Cancel();
    }
  }
}

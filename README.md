# Voice-chat speech pipeline, modelled in Dafny

This project models the text-to-speech pipeline that runs around the
assistant chat of a personal résumé site, and proves properties of it:

- **Chat stream, server side** (`chat_route.dfy`, `markdown.dfy`,
  `markdown_laws.dfy`). The route
  sanitises the client's messages, relays the model's streamed deltas as
  `token` events while accumulating the full text, and always ends with one
  `done` event. That event carries a `{say, show}` object, extracted from the
  text or built from it.
- **Chat stream, client side** (`stream_chat.dfy`, `split.dfy`). Frames are
  cut at blank lines, the unfinished piece is kept in a buffer, and the
  `token`, `done` and error callbacks follow fixed rules.
- **Streaming segmenter** (`segmenter.dfy`, `segment_chunking.dfy`).
  Streamed text is cut into speakable segments at pause tags, ellipses and
  sentence ends, with decimals and abbreviations protected. Where the chunks
  are cut can change the segments.
- **Speech normaliser** (`spokenizer.dfy`, `pausetag.dfy`, `chunk_tags.dfy`).
  It tokenizes `[pause-N]` tags, splits sentences, applies the greedy
  speaking-time cap and the invite suffix, and merges pauses for playback.
- **Speaker queue** (`speaker.dfy`, `truncate.dfy`). This is a FIFO of `say`
  items. Each run is split at its `await` points (the cache key, the
  IndexedDB read, the fetch, `audio.play()` and its refusal, browser speech,
  the element's end), so that `cancel` and `destroy` can interleave. It looks
  up the IndexedDB and localStorage caches, then the network, then falls back
  to browser speech; a refused `audio.play()` falls back to browser speech
  too.
- **Cache key** (`hash.dfy`). Unpadded base64url (section 5 of RFC 4648) of
  the SHA-256 digest of `voiceId:say`, with a decoder that inverts it.
- **TTS endpoint** (`tts_route.dfy`). It validates the request, caps the
  text, and chooses the voice and model.
- **Smaller state holders.** The usage window (`usage.dfy`), the two
  recogniser hooks (`stt.dfy`, `speech_recognition.dfy`, sharing
  `transcript.dfy`), the MediaSource chunk queue (`eleven_player.dfy`),
  browser-voice selection (`speech.dfy`), the conversation and settings stores
  (`conversation_storage.dfy`, `settings.dfy`), the out-of-scope check
  (`scope.dfy`), and the voice-chat page's reply handling
  (`voice_chat_page.dfy`).

Shared vocabulary lives in `text.dfy` (JavaScript's `\s` class, `trim`,
whitespace collapsing, ASCII `toLowerCase`, `indexOf`; what trimming and
collapsing keep is in `spacing_laws.dfy`), `json.dfy` (parsed
JSON values and JavaScript property access), `seqs.dfy` and `wrappers.dfy`.
`JSON.parse`/`JSON.stringify`, the SHA-256 digest, `atob`, regular-expression
rewrite tables and every outcome of the network, caches and playback are
function or method parameters. They are never given a body.

Objects whose fields the source updates in place are classes with
`modifies` clauses: `Speaker.Speaker`, `Stt.SttHook`,
`SpeechRecognition.RecognitionHook`, `Segmenter.StreamSegmenter`,
`ElevenPlayer.Player`, `Speech.Defaults`, and the storage classes. Each
method is tied to a state-step function or to a specification function,
and lemmas state what the source promises about those functions. Loops in
the source (the exec loop of `tokenizeByPause`, the cap loop, the pause
merge, the base64 loop, the frame loops, the segmenter scan) are `while`
or `for` loops with invariants, each proved equal to its specification
function.

## Model

| member | source | states |
|---|---|---|
| ChatRoute.Sanitize | src/app/api/chat/stream/route.ts:34-39 | only messages with string content and the role "user" or "assistant" are kept, each one from the input |
| ChatRoute.SanitizeAppend | src/app/api/chat/stream/route.ts:34-39 | the filter works message by message: filtering a concatenation is concatenating the filtered parts |
| ChatRoute.SanitizeKeeps | src/app/api/chat/stream/route.ts:34-39 | every forwardable message survives the filter |
| ChatRoute.PlanRequest | src/app/api/chat/stream/route.ts:13-71 | no API key gives the "Missing OPENAI_API_KEY" reply; a `null` body makes `body.temperature` throw; otherwise the messages sent are the system message followed by exactly the sanitized `messages` array of the body (none when it is not an array), with `max_tokens` 600 and the body's numeric temperature or 0.7 |
| ChatRoute.SingleSystemMessage | src/app/api/chat/stream/route.ts:34-70 | a client can never inject a second system message |
| ChatRoute.FirstFence | src/app/api/chat/stream/route.ts:194 | the first "```json" (any letter case) from a position, and none before it |
| ChatRoute.SkipSpaces | src/app/api/chat/stream/route.ts:194 | `\s*` after the opening fence: the first non-space position |
| ChatRoute.BackOverSpaces | src/app/api/chat/stream/route.ts:194 | `\s*` before the closing fence: the start of the whitespace run, not below the body's start |
| ChatRoute.FencedBody | src/app/api/chat/stream/route.ts:194 | the captured body is a slice of the text with no edge whitespace, and there is none without an opening "```json" |
| ChatRoute.NothingToExtract | src/app/api/chat/stream/route.ts:183-201 | without a "{ … }" candidate and without a fence, `tryExtractJson` returns null |
| ChatRoute.TryExtractJson | src/app/api/chat/stream/route.ts:183-201 | a result is the parse of some slice of the text; when the slice from the last "{" to a later last "}" parses, that is the result; when that candidate is missing or does not parse, the result is the parse of the first ```json fenced body, or `null` when there is no fenced body |
| ChatRoute.LastIndexAt | src/app/api/chat/stream/route.ts:185-186 | `lastIndexOf` finds an occurrence with none after it |
| ChatRoute.TrailingObject | src/app/api/chat/stream/route.ts:184-192 | a trailing brace-free object that parses is what `tryExtractJson` returns, whatever precedes it |
| ChatRoute.Take | src/app/api/chat/stream/route.ts:180 | `slice(0, n)`: the first min(n, length) characters |
| ChatRoute.FinalizeRaw | src/app/api/chat/stream/route.ts:174-181 | the final raw reply always has string "say" and "show" |
| ChatRoute.FinalizeRawChoice | src/app/api/chat/stream/route.ts:174-181 | an extracted object with string say and show is kept as is; otherwise show is the full text and say is exactly the first min(length, 1200) characters of its markdown-stripped text |
| ChatRoute.FinalizeTrailingObject | src/app/api/chat/stream/route.ts:174-192 | a reply ending in a well-formed {say, show} object is taken verbatim |
| ChatRoute.DataLine | src/app/api/chat/stream/route.ts:122-124 | the first line starting with "data: ", and none when no line does |
| ChatRoute.RelayFrame | src/app/api/chat/stream/route.ts:118-148 | a frame without a data line changes nothing; each frame adds at most one event and keeps the earlier ones; the relay closes exactly when the added event is "done" |
| ChatRoute.RelayedFrames | src/app/api/chat/stream/route.ts:122-144 | a "[DONE]" data line sends `done` with `finalizeRaw` of the text so far and closes the stream; data that parses to a delta with truthy `content` sends that token and appends its text to `fullText`, keeping the stream open |
| ChatRoute.SkippedFrames | src/app/api/chat/stream/route.ts:125-147 | frames without data, with malformed JSON, or without delta content are ignored |
| ChatRoute.RelayFramesAppend | src/app/api/chat/stream/route.ts:109-149 | relaying two runs of frames in turn is relaying their concatenation |
| ChatRoute.ClosedIgnoresFrames | src/app/api/chat/stream/route.ts:127-133 | after "[DONE]" nothing more is sent |
| ChatRoute.RelayFramesStep | src/app/api/chat/stream/route.ts:118-148 | one more frame is handled only while the relay is open |
| ChatRoute.RelayFrames | src/app/api/chat/stream/route.ts:118-148 | relaying frames only appends events, at most one per frame, to those already sent |
| ChatRoute.RelayFrameConsistent | src/app/api/chat/stream/route.ts:140-144 | `fullText` stays the concatenation of the token texts sent so far |
| ChatRoute.RelayFramesConsistent | src/app/api/chat/stream/route.ts:106-144 | from the start, `fullText` is always the concatenation of the tokens sent |
| ChatRoute.FinishShape | src/app/api/chat/stream/route.ts:151-157 | the events end with exactly one "done": the finalized full text at the end of the stream, or the error message ("stream error" when empty) when reading fails |
| ChatRoute.Finish | src/app/api/chat/stream/route.ts:151-157 | after the loop a closed relay sends nothing more; an open one sends exactly one more event, a "done" |
| ChatRoute.RelayStream | src/app/api/chat/stream/route.ts:94-158 | the relayed stream opens with the ping and holds at most one event per upstream frame plus the closing "done" |
| ChatRoute.RelayStreamShape | src/app/api/chat/stream/route.ts:94-158 | a relayed stream is a ping, tokens, and one final "done" carrying the finalized text of exactly the tokens sent, or the read error |
| ChatRoute.DoneRawHasSayShow | src/app/api/chat/stream/route.ts:129-181 | the final "done" carries a reply with string say and show, unless reading failed |
| ChatRoute.RouteFinalizes | src/app/api/chat/stream/route.ts:174-181 | the route's finalizer always yields say and show |
| ChatRoute.RelayOne | src/app/api/chat/stream/route.ts:118-148 | the frame loop body relays one frame |
| ChatRoute.RelayChunk | src/app/api/chat/stream/route.ts:110-148 | one read keeps the new remainder and relays the complete frames in order |
| ChatRoute.RelayUpstream | src/app/api/chat/stream/route.ts:94-158 | the streaming loop produces the relayed stream of the chunks |
| ChatRoute.RelayUpstreamStep | src/app/api/chat/stream/route.ts:110-148 | reading one more chunk relays exactly the frames completed by the old remainder plus that chunk, and keeps the new remainder |
| ChatRoute.RelayClosedEarly | src/app/api/chat/stream/route.ts:127-133 | once the `[DONE]` frame has closed the stream, the rest of the upstream body adds nothing to the relayed stream |
| ChatRoute.EveryPathOneDone | src/app/api/chat/stream/route.ts:13-162 | every response that streams ends with exactly one "done" event; a missing key gives only the missing-key "done"; the request crashes exactly when the key is set and the body is `null` or `fetch` rejects |
| ChatRoute.Post | src/app/api/chat/stream/route.ts:13-162 | `POST` throws exactly on a `null` body or a rejected `fetch` when the key is set; a missing key gives the missing-key "done"; a failed upstream reply gives one "done" carrying its text or else its status text; a good one is relayed |
| Markdown.RemoveMarkdown | src/app/api/chat/stream/route.ts:205 | deleting `[*_`#>~\-]` leaves no such character, never lengthens the text, and leaves text without one unchanged |
| Markdown.LinkFrom | src/app/api/chat/stream/route.ts:205 | a link's "](" and ")" are found on one line |
| Markdown.Scan | src/app/api/chat/stream/route.ts:205 | one step of the global link replacement moves forward and emits no more than it consumed |
| Markdown.StripMarkdown | src/app/api/chat/stream/route.ts:203-206 | `stripMarkdown` never lengthens the text and leaves no markdown character |
| Markdown.ReplaceLinksClean | src/app/api/chat/stream/route.ts:205 | replacing links brings in no markdown character |
| Markdown.ScanAtLink | src/app/api/chat/stream/route.ts:205 | at "[text](target)" the step emits the text and resumes after the ")" |
| Markdown.LinkKeepsText | src/app/api/chat/stream/route.ts:205 | a one-line link is replaced by its text |
| Markdown.ReplaceLinksNoBracket | src/app/api/chat/stream/route.ts:205 | text without "[" passes the link replacement unchanged |
| Markdown.PlainTextUnchanged | src/app/api/chat/stream/route.ts:203-206 | plain text without markdown characters or "[" is returned unchanged |
| MarkdownLaws.RemoveMarkdownOne | src/app/api/chat/stream/route.ts:205 | one character: a markdown character is deleted, any other is kept |
| MarkdownLaws.RemoveMarkdownAppend | src/app/api/chat/stream/route.ts:205 | the deletion of a concatenation is the concatenation of the deletions; with the one-character case this fixes the result of every text |
| MarkdownLaws.RemoveMarkdownFrom | src/app/api/chat/stream/route.ts:205 | the deletion brings in no character the text did not hold |
| MarkdownLaws.StripWithoutBracket | src/app/api/chat/stream/route.ts:203-206 | on text without "[" `stripMarkdown` is just the deletion of the markdown characters |
| MarkdownLaws.BoldExample | src/app/api/chat/stream/route.ts:205 | "**Hi**" becomes "Hi" |
| MarkdownLaws.HeadingExample | src/app/api/chat/stream/route.ts:205 | "# **Hi**" becomes " Hi" |
| MarkdownLaws.StripExample | src/app/api/chat/stream/route.ts:203-206 | `stripMarkdown("# **Hi**")` is " Hi" |
| StreamChat.FramesCover | src/lib/streamChat.ts:50-51 | the complete frames and the kept remainder, joined by blank lines, are the buffer; no frame and not the remainder holds "\n\n" |
| StreamChat.FramesAppend | src/lib/streamChat.ts:49-51 | splitting the grown buffer gives the earlier frames, then the frames of the old remainder plus the new chunk: frames never depend on how the bytes were chunked |
| StreamChat.Frames | src/lib/streamChat.ts:50-51 | the complete frames of the buffer: none exactly when no blank line has arrived yet |
| StreamChat.Leftover | src/lib/streamChat.ts:51 | the kept remainder is the whole buffer until a blank line arrives |
| StreamChat.DataIsConcatenation | src/lib/streamChat.ts:56-59 | the data of a frame is the concatenation of the trimmed "data:" values, in order |
| StreamChat.LastEventLineWins | src/lib/streamChat.ts:57-58 | the event is the trimmed value of the last "event:" line |
| StreamChat.NoEventLine | src/lib/streamChat.ts:55-58 | a frame without an "event:" line has no event |
| StreamChat.ReadFrame | src/lib/streamChat.ts:54-60 | the line loop computes the event and the data of the frame |
| StreamChat.Dispatch | src/lib/streamChat.ts:64-65 | at most one callback; "done" with parsed data calls `onDone(data.raw ?? {})` and sets `sawDone`; a "token" frame whose `text` is a string calls exactly `onToken(text)`, and `onToken` is called for nothing else |
| StreamChat.HandleFrame | src/lib/streamChat.ts:53-68 | comment frames, frames without an event and frames whose data does not parse call nothing; a frame never reports an error; `sawDone` is set exactly when `onDone` is called; any other frame, one with a non-empty event whose data parses, does exactly what `Dispatch` does for that event and data |
| StreamChat.ReadAndDispatch | src/lib/streamChat.ts:53-68 | the body of the frame loop computes that frame's callbacks |
| StreamChat.Fire | src/lib/streamChat.ts:64-65 | the dispatch of a parsed frame |
| StreamChat.HandleFramesFacts | src/lib/streamChat.ts:52-69 | the frames of a chunk never report an error, and `sawDone` says whether `onDone` was called |
| StreamChat.HandleFramesAppend | src/lib/streamChat.ts:52-69 | handling two runs of frames one after the other is handling their concatenation |
| StreamChat.HandleFrames | src/lib/streamChat.ts:52-69 | the frame loop fires at most one callback per frame, and nothing for no frames |
| StreamChat.HandleFramesSnoc | src/lib/streamChat.ts:52-69 | one more frame adds its own callbacks after those of the frames before it |
| StreamChat.ReadChunk | src/lib/streamChat.ts:47-69 | one read keeps the new remainder and appends the callbacks of the complete frames |
| StreamChat.StreamChat | src/lib/streamChat.ts:15-81 | the callbacks of a whole exchange: the HTTP error, the frames of every chunk, then "disconnected" or the thrown error's message |
| StreamChat.DisconnectedRule | src/lib/streamChat.ts:71-75 | "disconnected" is reported exactly when the stream closes with a non-empty remainder and no `onDone`; a stream ending on a frame boundary reports no error |
| StreamChat.ErrorsOnly | src/lib/streamChat.ts:38-77 | a non-OK response gives only "HTTP <status>"; an AbortError is silent; an error is always the last callback |
| Splits.Split | src/lib/streamChat.ts:50-54 | `split` always returns at least one piece |
| Splits.SplitJoin | src/lib/streamChat.ts:50-51 | joining the pieces of `buffer.split("\n\n")` with the separator gives the buffer back |
| Splits.SplitPiecesFree | src/lib/streamChat.ts:50 | no piece of a split holds the separator |
| Splits.SplitAppend | src/lib/streamChat.ts:47-51 | appending a chunk only re-splits the last (unfinished) piece; the complete frames before it stay as they were |
| Text.Trim | src/lib/streamChat.ts:58-59 | `trim()` leaves no whitespace at either end and never lengthens the text |
| Text.TrimEmptyIffBlank | src/lib/spokenizer.ts:106 | a string trims to "" exactly when it is all whitespace |
| Text.CollapseSpaces | src/lib/spokenizer.ts:107 | `replace(/\s+/g, " ")` leaves no two whitespace characters in a row, and keeps the text empty exactly when it was |
| Text.Squish | src/lib/spokenizer.ts:107 | collapse then trim: single-spaced with no space at either end |
| Text.SquishIdempotent | src/lib/spokenizer.ts:107 | normalising twice is normalising once |
| SpacingLaws.TrimStartKeepsNonSpace | src/lib/spokenizer.ts:107 | `trimStart` removes only whitespace: the non-space characters stay, in order |
| SpacingLaws.TrimEndKeepsNonSpace | src/lib/spokenizer.ts:107 | `trimEnd` removes only whitespace: the non-space characters stay, in order |
| SpacingLaws.TrimKeepsNonSpace | src/lib/spokenizer.ts:107 | `trim` removes only whitespace: the non-space characters stay, in order |
| SpacingLaws.CollapseLeadingSpace | src/lib/spokenizer.ts:107 | a leading run of whitespace becomes one space, followed by the collapse of what comes after the run |
| SpacingLaws.CollapseLeadingWord | src/lib/spokenizer.ts:107 | a leading non-space character is kept, followed by the collapse of the rest |
| SpacingLaws.CollapseKeepsNonSpace | src/lib/spokenizer.ts:107 | `replace(/\s+/g, " ")` keeps exactly the non-space characters of the text, in order |
| SpacingLaws.CollapseBlankRun | src/lib/spokenizer.ts:107 | a non-empty all-whitespace text becomes exactly " " |
| SpacingLaws.TrimStartBefore | src/lib/spokenizer.ts:107 | `trimStart` stops at the first non-space character |
| SpacingLaws.CollapseSplitsAtWord | src/lib/spokenizer.ts:107 | no whitespace run reaches across a non-space character: the collapse of a text is the collapse of each side around any such character; with the blank-run case this fixes the result of every text |
| SpacingLaws.CollapseInnerRun | src/lib/spokenizer.ts:107 | a whitespace run between two words becomes one space, e.g. "a   b" gives "a b" |
| SpacingLaws.SquishKeepsNonSpace | src/lib/spokenizer.ts:107 | collapse then trim keeps exactly the non-space characters, in order |
| Segmenter.RunLength | src/lib/segmenter.ts:137-141 | the length of the run of a character from a position: all of it is that character and the next one is not |
| Segmenter.CloserEnd | src/lib/segmenter.ts:143-147 | the end of the run of closers from a position |
| Segmenter.TokenStart | src/lib/segmenter.ts:149-155 | the start of the run of `[A-Za-z.-]` characters just before a position |
| Segmenter.BoundaryAt | src/lib/segmenter.ts:43-101 | a boundary found at a position closes a non-empty segment inside the text |
| Segmenter.Boundary | src/lib/segmenter.ts:42-105 | a boundary found at a position lies strictly after it and inside the text |
| Segmenter.BoundaryAdvances | src/lib/segmenter.ts:42-105 | every boundary lies strictly after the position where it is found |
| Segmenter.CountRun | src/lib/segmenter.ts:137-141 | `countRun` returns the run length |
| Segmenter.ConsumeClosers | src/lib/segmenter.ts:143-147 | `consumeClosers` returns the end of the closer run |
| Segmenter.ReadPrevToken | src/lib/segmenter.ts:149-155 | `readPrevToken` returns the token-character run just before the position |
| Segmenter.FindBoundary | src/lib/segmenter.ts:43-102 | the loop body's tests give the boundary at the position, or none |
| Segmenter.StreamSegmenter.constructor | src/lib/segmenter.ts:33-34 | a new segmenter has an empty tail |
| Segmenter.StreamSegmenter.Push | src/lib/segmenter.ts:36-110 | an empty chunk returns nothing and keeps the tail; otherwise the ready segments and the new tail are the segmentation of the old tail plus the chunk, and `rest` is the new tail |
| Segmenter.StreamSegmenter.Flush | src/lib/segmenter.ts:113-121 | a blank tail yields nothing, any other tail is returned as one segment, and the tail is emptied |
| Segmenter.ScanWithReassembles | src/lib/segmenter.ts:36-110 | the ready segments followed by the rest give back exactly the scanned text |
| Segmenter.ScanWithSegmentsNonEmpty | src/lib/segmenter.ts:47-96 | no emitted segment is empty |
| Segmenter.ScanWithRestHasNoBoundary | src/lib/segmenter.ts:104-109 | the rest holds no boundary at any position |
| Segmenter.Scan | src/lib/segmenter.ts:36-110 | the segments and the rest give back the text, no segment is empty, and a scan from the start leaves a rest with no boundary |
| Segmenter.PushReassembles | src/lib/segmenter.ts:36-110 | one push loses and duplicates nothing: segments and rest concatenate to tail plus chunk; segments are non-empty and the rest holds no boundary |
| Segmenter.PauseTagIsBoundary | src/lib/segmenter.ts:43-55 | a `[pause-N]` tag with 2 to 5 digits ends a segment right after its "]" |
| Segmenter.DecimalPointIsNotBoundary | src/lib/segmenter.ts:65-82 | a period between two digits does not end a sentence |
| Segmenter.AbbreviationDotIsNotBoundary | src/lib/segmenter.ts:84-88 | a period after a listed abbreviation, in any letter case, does not end a sentence |
| Segmenter.TokenStartIs | src/lib/segmenter.ts:149-155 | the token start is the one position that bounds the token-character run |
| Segmenter.EllipsisIsBoundary | src/lib/segmenter.ts:69-78 | three or more dots end a segment after the dots and any closers |
| Segmenter.TerminatorBoundary | src/lib/segmenter.ts:91-101 | a plain terminator ends a segment, after its closers, exactly when the end of the text, a space or a closer follows it |
| Segmenter.LiteralScanReaches | src/lib/segmenter.ts:42-105 | the loop as written walks to the first boundary without change |
| Segmenter.LiteralScanNeverFinishes | src/lib/segmenter.ts:50-100 | the loop as written never ends on a text that holds a boundary |
| Segmenter.HiBoundaries | src/lib/segmenter.ts:59-101 | in "Hi. " only the period closes a segment |
| Segmenter.HiAsWrittenVersusModel | src/lib/segmenter.ts:36-110 | "Hi. " never finishes as written, while the corrected reading emits "Hi." and keeps " " |
| SegmentChunking.DecimalBoundaries | src/lib/segmenter.ts:59-101 | the period ending "3." is a sentence end, the one in "3.14" is a decimal point, and "14" has no boundary |
| SegmentChunking.NoBoundaryKeepsAll | src/lib/segmenter.ts:104-109 | a text without any boundary produces no segment and stays whole as the tail |
| SegmentChunking.SegmentsOfChunks | src/lib/segmenter.ts:36-110 | pushing "3." gives segment "3."; pushing "14" or "3.14" gives nothing and keeps it as the tail |
| SegmentChunking.PushInTwoChunks | src/lib/segmenter.ts:36-121 | `push("3.")`, `push("14")`, `flush()` emit "3." and "14" |
| SegmentChunking.PushInOneChunk | src/lib/segmenter.ts:36-121 | `push("3.14")`, `flush()` emit "3.14" |
| SegmentChunking.ChunkingChangesSegments | src/lib/segmenter.ts:92-101 | the same text cut into different chunks gives different segments: a final "." of a chunk cannot see the next chunk's digit |
| PauseTag.DigitRun | src/lib/spokenizer.ts:84 | the run of ASCII digits from a position |
| PauseTag.TagAt | src/lib/spokenizer.ts:84 | a tag found at a position is exactly one `[pause-N]` tag ending inside the text |
| PauseTag.TagShape | src/lib/spokenizer.ts:84 | "[pause-", 2 to the maximum number of digits, then "]" is a tag |
| PauseTag.TagAtFinds | src/lib/spokenizer.ts:84 | whenever a tag starts at a position, the matcher finds exactly it |
| PauseTag.TagDigits | src/lib/spokenizer.ts:92 | the tag's captured digits: 2 to the maximum number of digits, all of them digits |
| PauseTag.SpaceRun | src/lib/spokenizer.ts:205 | the run of `\s` from a position |
| PauseTag.SpacedTagAt | src/lib/spokenizer.ts:205 | `\s*[pause-N]\s*` at a position: the tag lies between the two space runs |
| PauseTag.TagHasNoSpace | src/lib/spokenizer.ts:84 | a tag holds no whitespace |
| PauseTag.TagInSlice | src/lib/spokenizer.ts:84 | a tag inside a slice is a tag of the whole text |
| PauseTag.SliceTagFree | src/lib/spokenizer.ts:84 | a slice of tag-free text is tag-free |
| PauseTag.TagInSuffix | src/lib/spokenizer.ts:84 | a tag of the text at or after a position is a tag of the suffix from there |
| PauseTag.CopiedUntilSpace | src/lib/spokenizer.ts:205 | dropping tags writes " " for each, so up to its first whitespace the output copies the input |
| PauseTag.TagAtStartCopied | src/lib/spokenizer.ts:205 | a tag at the very start of the output was already at the start of the input |
| Spokenizer.PauseMs | src/lib/spokenizer.ts:92 | `Math.max(0, Math.min(4000, parseInt(digits)))`: never above 4000 |
| Spokenizer.PauseAt | src/lib/spokenizer.ts:84-92 | the tag regex anchored at a position: a non-empty match inside the text with a clamped value |
| Spokenizer.PauseAtIsMatcher | src/lib/spokenizer.ts:84 | the tag matcher finds only clamped, non-empty matches, and one found in a slice is one of the whole text |
| Spokenizer.PauseAtInSlice | src/lib/spokenizer.ts:84 | a tag found in a slice is a tag of the whole text at the shifted position |
| Spokenizer.NextMatch | src/lib/spokenizer.ts:88 | `re.exec` from `lastIndex`: a match at or after it, with its end and value |
| Spokenizer.NextMatchIsLeftmost | src/lib/spokenizer.ts:88 | no match starts before the one found, and none at all when none is found |
| Spokenizer.FindMatch | src/lib/spokenizer.ts:88 | the search loop finds the leftmost match |
| Spokenizer.ExecLoop | src/lib/spokenizer.ts:82-100 | the exec loop pushes exactly the tokens of the reference tokenization |
| Spokenizer.ExecStep | src/lib/spokenizer.ts:89-94 | one turn moves the text before a match and its pause from the rest to the output |
| Spokenizer.TokensMatchStep | src/lib/spokenizer.ts:89-94 | one match contributes the text before it (if non-empty) and its pause |
| Spokenizer.TokensLastStep | src/lib/spokenizer.ts:96-98 | with no match left, the remaining text, if any, is one text token |
| Spokenizer.TokenizeByPause | src/lib/spokenizer.ts:82-100 | `tokenizeByPause` returns the tokenization of its input |
| Spokenizer.ReferenceSkips | src/lib/spokenizer.ts:88-98 | the reference reading copies the text up to the next match |
| Spokenizer.TokensFollowReference | src/lib/spokenizer.ts:82-100 | the text tokens concatenate to the input with the matches deleted, and the pauses are the matches' values, in order |
| Spokenizer.HeadOfMatch | src/lib/spokenizer.ts:89-93 | the tokens of one match hold the text before it and its pause value |
| Spokenizer.TextOfAppend | src/lib/spokenizer.ts:82-100 | the text of two token lists is the concatenation of their texts |
| Spokenizer.PausesOfAppend | src/lib/spokenizer.ts:82-100 | the pauses of two token lists are the concatenation of their pauses |
| Spokenizer.SliceMatchFree | src/lib/spokenizer.ts:88-90 | a stretch without a match start holds no match |
| Spokenizer.TokensWellFormed | src/lib/spokenizer.ts:89-98 | text tokens are non-empty and hold no tag, pauses are at most 4000 ms, and a text token is always followed by a pause |
| Spokenizer.TokenizeSpec | src/lib/spokenizer.ts:82-100 | `tokenizeByPause` keeps order: texts give the input without its 2-4 digit tags, pauses are those tags' clamped values, and the tokens are well formed |
| Spokenizer.TagFreeIsOneToken | src/lib/spokenizer.ts:96-98 | text without a tag is one text token, or none when empty |
| Spokenizer.ProseRun | src/lib/spokenizer.ts:102 | the `[^.?!]` run from a position |
| Spokenizer.EndRun | src/lib/spokenizer.ts:102 | the `[.?!]` run from a position |
| Spokenizer.SentenceMatchAsWritten | src/lib/spokenizer.ts:102 | `SENTENCE_SPLIT_RE` as written at a position: a non-empty match inside the text |
| Spokenizer.SentenceMatch | src/lib/spokenizer.ts:102 | the corrected sentence pattern at a position: a non-empty match inside the text |
| Spokenizer.BothAreSentenceMatchers | src/lib/spokenizer.ts:102 | both sentence patterns only make non-empty matches inside the text |
| Spokenizer.TrimmedPartsSquished | src/lib/spokenizer.ts:111-114 | the kept parts are trimmed, non-empty and single-spaced |
| Spokenizer.PartsSingleSpaced | src/lib/spokenizer.ts:107-109 | the matches of single-spaced text are single-spaced |
| Spokenizer.SplitWithSquished | src/lib/spokenizer.ts:105-116 | blank text gives no sentences; every sentence is non-empty, trimmed and single-spaced |
| Spokenizer.SplitPartsSquished | src/lib/spokenizer.ts:109-115 | for normalised text, the whole text or each kept part is non-empty, trimmed and single-spaced |
| Spokenizer.SplitSentencesAsWritten | src/lib/spokenizer.ts:105-116 | `splitSentences` with the pattern as written: nothing for blank text, otherwise only non-empty, trimmed, single-spaced chunks |
| Spokenizer.SplitSentences | src/lib/spokenizer.ts:105-116 | `splitSentences` with the corrected pattern: nothing for blank text, otherwise only non-empty, trimmed, single-spaced chunks |
| Spokenizer.IntendedSkipsTerminators | src/lib/spokenizer.ts:102 | the corrected pattern skips exactly the terminator runs between sentences |
| Spokenizer.SentenceMatchBounds | src/lib/spokenizer.ts:102 | a corrected match starts and ends outside a terminator run |
| Spokenizer.PartsCover | src/lib/spokenizer.ts:109 | the matches concatenate to the text, except for a leading run of terminators |
| Spokenizer.CoverMatchStep | src/lib/spokenizer.ts:109 | one match keeps the covering property |
| Spokenizer.SkipsAt | src/lib/spokenizer.ts:102 | a match starts and ends outside a terminator run |
| Spokenizer.PartsAtMatch | src/lib/spokenizer.ts:109 | a match is the first part, followed by the parts after it |
| Spokenizer.JoinStep | src/lib/spokenizer.ts:109 | a first part and parts that cover the rest cover the whole |
| Spokenizer.CoverSkipStep | src/lib/spokenizer.ts:109 | skipping a terminator keeps the covering property |
| Spokenizer.PartsStartWithProse | src/lib/spokenizer.ts:102-109 | every match is non-empty and starts with a non-terminator |
| Spokenizer.SentencePartsCover | src/lib/spokenizer.ts:102-109 | under the corrected pattern the sentences lose no word: they concatenate to the text after its leading terminators |
| Spokenizer.UnterminatedSentenceLosesWords | src/lib/spokenizer.ts:102-116 | as written "a b" splits into ["b"]; corrected it gives ["a b"] |
| Spokenizer.AsWrittenDropsFirstWord | src/lib/spokenizer.ts:102-116 | as written, "a b" splits into ["b"] |
| Spokenizer.IntendedKeepsSentence | src/lib/spokenizer.ts:102-116 | corrected, "a b" splits into ["a b"] |
| Spokenizer.LeadingTerminatorDiffers | src/lib/spokenizer.ts:102 | the two patterns also differ on text that starts with a terminator and has no space: as written ".a" is one match ".a", corrected it is "a" |
| Spokenizer.SplitWithParts | src/lib/spokenizer.ts:107-115 | normalised text with matches splits into its trimmed matches |
| Spokenizer.SingleTrimmedPart | src/lib/spokenizer.ts:112-113 | a trimmed part is kept as it is |
| Spokenizer.AbSquished | src/lib/spokenizer.ts:107 | "a b" is already normalised |
| Spokenizer.AbAsWritten | src/lib/spokenizer.ts:102-109 | as written, "a b" has the single match "b" |
| Spokenizer.AbIntended | src/lib/spokenizer.ts:102-109 | corrected, "a b" has the single match "a b" |
| Spokenizer.SentenceTokens | src/lib/spokenizer.ts:148-150 | one text piece per sentence, in order |
| Spokenizer.Duration | src/lib/spokenizer.ts:164-172 | a piece's estimated time (ms/1000 for a pause, words × 60/130 for text) is never negative |
| Spokenizer.KeptCount | src/lib/spokenizer.ts:159-174 | the number of pieces kept is at most the number of pieces |
| Spokenizer.KeptPrefixFitsCap | src/lib/spokenizer.ts:153-174 | the kept prefix fits in max(1, 12) seconds, and the first dropped piece would have overflowed it |
| Spokenizer.CapPieces | src/lib/spokenizer.ts:156-174 | with the cap, the kept pieces are the greedy prefix; without it, all pieces |
| Spokenizer.Rendered | src/lib/spokenizer.ts:179 | one rendered string per piece |
| Spokenizer.SpacedMatchersValid | src/lib/spokenizer.ts:181-205 | both spaced tag patterns are well-behaved matchers |
| Spokenizer.Assemble | src/lib/spokenizer.ts:178-183 | the joined output is trimmed and single-spaced |
| Spokenizer.SpaceRunBefore | src/lib/spokenizer.ts:185 | the whitespace run that ends at a position |
| Spokenizer.EndRunBefore | src/lib/spokenizer.ts:185 | the terminator run that ends at a position |
| Spokenizer.StripClosingPunctuation | src/lib/spokenizer.ts:185 | `replace(/[.?!]*\s*$/, "")` removes only closing terminators and whitespace, leaving a prefix that does not end in a terminator |
| Spokenizer.AppendInvite | src/lib/spokenizer.ts:185 | the output ends in " … Want the longer version?", preceded by the stripped text |
| Spokenizer.NormalizeSay | src/lib/spokenizer.ts:122-187 | `normalizeSay` with `enforceCap` and `addInvite` defaulting to true computes the specified value |
| Spokenizer.NormalizeSayCapped | src/lib/spokenizer.ts:153-183 | under the cap the spoken pieces are a prefix that fits in max(1, 12) seconds and stops at the first piece that would not fit |
| Spokenizer.InviteOnlyWhenTrimmed | src/lib/spokenizer.ts:176-185 | the invite is added exactly when requested and pieces were dropped, after the closing terminators and spaces are stripped |
| Spokenizer.NoCapKeepsEverything | src/lib/spokenizer.ts:160-178 | without the cap every piece is spoken and no invite is added |
| Spokenizer.CleanSquished | src/lib/spokenizer.ts:204-207 | a cleaned sentence is empty or trimmed and single-spaced |
| Spokenizer.SentenceChunksAreText | src/lib/spokenizer.ts:202-209 | sentence chunks are non-empty trimmed text without a pause |
| Spokenizer.RawChunks | src/lib/spokenizer.ts:196-210 | the chunks before merging, a bare pause per pause token and the sentence chunks of each text token: every one is non-empty trimmed speech or a bare pause |
| Spokenizer.MergePauses | src/lib/spokenizer.ts:213-223 | the merge loop computes the merge of the chunks |
| Spokenizer.MergeSnoc | src/lib/spokenizer.ts:214-222 | merging one more chunk is one merge step on the merge of the chunks before it |
| Spokenizer.MergeOne | src/lib/spokenizer.ts:215-222 | one pass of the merge loop: a pause-only chunk after a pause-only chunk adds its pause to that one, any other chunk is appended; the result is exactly one merge step |
| Spokenizer.ChunkSayForPlayback | src/lib/spokenizer.ts:190-226 | `chunkSayForPlayback` returns the merged chunks of the tokenized text |
| Spokenizer.Snoc | src/lib/spokenizer.ts:213-223 | one more chunk adds its text (if any) and its pause time |
| Spokenizer.MergeStepKeeps | src/lib/spokenizer.ts:214-222 | one merge step adds the chunk's text and pause time and nothing else |
| Spokenizer.MergeStepShapes | src/lib/spokenizer.ts:214-222 | one merge step keeps the shapes and leaves no two positive pause-only chunks side by side |
| Spokenizer.Merge | src/lib/spokenizer.ts:213-223 | the merge pass is never longer than its input, is empty only for no chunks, and ends with the last input chunk when that one is not a pause |
| Spokenizer.MergeProperties | src/lib/spokenizer.ts:213-225 | merging keeps every text in order and the total pause time, leaves no two positive pause-only chunks adjacent, and never adds chunks |
| Spokenizer.ChunkSayShape | src/lib/spokenizer.ts:190-226 | the playback chunks are speech or bare pauses, no two positive pauses adjacent, with the texts and total pause of the unmerged chunks |
| Spokenizer.AdjacentPausesMerge | src/lib/spokenizer.ts:215-219 | two positive pauses in a row become one pause holding their sum; a zero pause is kept apart |
| ChunkTags.CollapseHeadKept | src/lib/spokenizer.ts:206 | a non-space first character is kept and the rest is collapsed on its own |
| ChunkTags.CollapseCopiedUntilSpace | src/lib/spokenizer.ts:206 | up to its first whitespace the collapsed text is a copy of the input |
| ChunkTags.CollapseStartsClean | src/lib/spokenizer.ts:206 | collapsing tag-free text puts no tag at the start |
| ChunkTags.CollapseStep | src/lib/spokenizer.ts:206 | the collapse emits one character and continues on a shorter suffix of the input |
| ChunkTags.CollapseKeepsFree | src/lib/spokenizer.ts:206 | `replace(/\s+/g, " ")` cannot create a pause tag |
| ChunkTags.CleanFree | src/lib/spokenizer.ts:204-207 | the defensive clean-up of a sentence leaves no pause tag |
| ChunkTags.SentenceChunkFree | src/lib/spokenizer.ts:203-208 | the chunk pushed for a sentence, if any, is tag-free |
| ChunkTags.SentenceChunksFree | src/lib/spokenizer.ts:202-209 | every chunk of a text token's sentences is tag-free |
| ChunkTags.RawChunksFree | src/lib/spokenizer.ts:196-210 | before merging, no chunk's text holds a pause tag |
| ChunkTags.MergeFromInput | src/lib/spokenizer.ts:213-223 | every merged chunk is an input chunk or a merged pause with empty text |
| ChunkTags.ChunkSayFree | src/lib/spokenizer.ts:190-226 | no chunk `chunkSayForPlayback` returns holds a `[pause-NN]` tag in its text |
| Speaker.VoiceOrDefault | src/lib/speaker.ts:169 | `voiceId \|\| DEFAULT_VOICE_ID`: the given voice when non-empty, never empty |
| Speaker.Enqueued | src/lib/speaker.ts:160-169 | blank text enqueues nothing; otherwise the trimmed text, capped at 2400 characters with a final "…" when longer, and the given or default voice |
| Speaker.FetchedAudio | src/lib/speaker.ts:277-301 | audio exactly for an ok response whose Content-Type contains "audio"; a rejection gives none |
| Speaker.Move | src/lib/speaker.ts:228-275 | moving a run to its next await keeps the speaker's invariant |
| Speaker.ProcessStep | src/lib/speaker.ts:228-236 | nothing happens while playing, destroyed or with an empty queue; otherwise the front item leaves the queue as a new run, `playing` is set and `onStart` fires |
| Speaker.SpeakStep | src/lib/speaker.ts:160-173 | a destroyed speaker or blank text changes nothing; otherwise the item is queued at the back, and processing starts when idle |
| Speaker.KeyReadyStep | src/lib/speaker.ts:239 | a run waiting for its key moves to reading the cache under the base64url SHA-256 of the voice (or the default) and the text; nothing else changes, and any other call leaves the state as it was |
| Speaker.StartPlay | src/lib/speaker.ts:303-323 | the run moves to playing; the audio element, the analyser and the VU timer are set, the other handles kept; the audio is played (`PlayAudio` of its text); queue, `playing`, `destroyed` and the caches are unchanged |
| Speaker.StartFallback | src/lib/speaker.ts:415-431 | the run moves to the browser voice; the VU timer is set, the other handles kept; the events gain the browser utterance of its text and then `onStart`; queue, `playing`, `destroyed` and the caches are unchanged |
| Speaker.CacheReadStep | src/lib/speaker.ts:240-256 | for a run reading the cache, a hit is `StartPlay`; a miss moves the run to fetching under the same key with a new controller and nothing else changed; any other call leaves the state as it was |
| Speaker.FetchDoneStep | src/lib/speaker.ts:246-263 | for a fetching run, fetched audio is written to both caches (each may fail) and then `StartPlay`; anything else, a rejection included, is `StartFallback`; any other call leaves the state as it was; nothing else touches the caches |
| Speaker.Finish | src/lib/speaker.ts:265-274 | the run ends and `playing` is cleared; the next queued item starts, or `onEnd` fires when the queue is empty |
| Speaker.PlayRejectedStep | src/lib/speaker.ts:324-327 | for a run waiting on `audio.play()`, a refusal moves it to the browser voice inside `playBlob`: the VU timer is set, the other handles kept, and the events gain the browser utterance of its text and then `onStart`; queue, `playing`, `destroyed`, counter and caches are unchanged; any other call leaves the state as it was |
| Speaker.PlayEndedStep | src/lib/speaker.ts:265-274 | for a playing run, or one waiting for its element's end after a refused play, the VU timer and analyser are cleared and the result is `Finish` of that cleared state, with the other handles kept; any other call leaves the state as it was |
| Speaker.FallbackEndedStep | src/lib/speaker.ts:265-274 | for a run on the browser voice after a failed fetch, the VU timer is cleared and the result is `Finish` of that cleared state, with the other handles kept; for one whose play was refused, only the VU timer is cleared and the run goes on to wait for its element's end; any other call leaves the state as it was |
| Speaker.CancelStep | src/lib/speaker.ts:176-218 | the queue is emptied, `playing` and every handle are cleared and `onEnd` fires once; runs in flight go on |
| Speaker.DestroyStep | src/lib/speaker.ts:221-224 | the speaker is marked destroyed and otherwise equals `CancelStep` of the state: queue emptied, handles cleared, `onEnd` fired, runs, counter and caches kept |
| Speaker.ReachableValid | src/lib/speaker.ts:134-275 | in every reachable state, run numbers are below the counter, the newest run is in flight while playing, a destroyed speaker is idle with an empty queue, and queued items are non-empty and capped |
| Speaker.CachesWrittenOnlyByFetch | src/lib/speaker.ts:246-252 | only a fetch that returned audio writes to IndexedDB or localStorage |
| Speaker.DestroyedStaysSilent | src/lib/speaker.ts:160-224 | after `destroy`, every later `speak` is a no-op |
| Speaker.SpeakAllQueues | src/lib/speaker.ts:160-233 | while playing, spoken items join the queue in the order they were spoken |
| Speaker.LsGet | src/lib/speaker.ts:110-118 | a hit is the non-empty value stored under `tts-audio:` + key; a miss exactly when that key is missing or its value is empty |
| Speaker.LsSet | src/lib/speaker.ts:120-128 | a blob over 2 MB, or a failed `setItem`, leaves localStorage as it was; otherwise `tts-audio:` + key holds the blob; no other key is added, and every other key keeps its value |
| Speaker.CachedBlob | src/lib/speaker.ts:240-243 | an IndexedDB hit, when IndexedDB works, is the answer; otherwise the answer is `LsGet` |
| Speaker.CacheWrite | src/lib/speaker.ts:248-252 | a working IndexedDB stores the blob under the key, so that a later lookup finds it, and keeps every other key; a failing one is left as it was; localStorage gets `LsSet`, with its 2 MB guard |
| Speaker.LookupOrder | src/lib/speaker.ts:239-253 | IndexedDB is asked first, then localStorage, where a missing or empty value is a miss |
| Speaker.LsRoundTrip | src/lib/speaker.ts:110-128 | a non-empty blob of at most 2 MB written to localStorage reads back; a larger one is never written; other keys are untouched |
| Speaker.PrefixCancels | src/lib/speaker.ts:112-124 | distinct keys give distinct prefixed localStorage keys |
| Speaker.CancelDoesNotSilence | src/lib/speaker.ts:176-275 | a cancel during a fetch does not silence the run: the aborted fetch falls back to browser speech, a second run plays beside it, and the old run clears `playing` and fires `onEnd` again |
| Speaker.CancelDuringPlaySpeaks | src/lib/speaker.ts:189-195 | the pause in `cancel` refuses the pending `audio.play()`, whose `.catch` (lines 324-327) speaks anyway: for any run waiting on `audio.play()`, a cancel followed by the refusal yields `onEnd`, then the browser utterance of the same text and `onStart`, with only the VU timer set; when that speech ends, the run waits for its element's end |
| Speaker.ScenarioStart | src/lib/speaker.ts:160-247 | a first item on a fresh speaker reaches its fetch |
| Speaker.ScenarioCancel | src/lib/speaker.ts:160-218 | a cancel followed by a second item starts a second run while the first still waits |
| Speaker.ScenarioFallback | src/lib/speaker.ts:261-273 | the rejected fetch falls back, and the fallback's end finishes the first run |
| Speaker.Speaker.constructor | src/lib/speaker.ts:134-157 | a fresh speaker: empty queue, idle, no handles, no runs, empty caches |
| Speaker.Speaker.Speak | src/lib/speaker.ts:160-173 | the object's new state is that of `speak` on its old state |
| Speaker.Speaker.ProcessQueue | src/lib/speaker.ts:228-236 | the object's new state is that of the first part of `processQueue` |
| Speaker.Speaker.KeyReady | src/lib/speaker.ts:239 | the object's new state is that of the key step |
| Speaker.Speaker.CacheRead | src/lib/speaker.ts:240-256 | the object's new state is that of the cache lookup |
| Speaker.Speaker.PlayBlob | src/lib/speaker.ts:303-323 | the object's new state is that of starting playback |
| Speaker.Speaker.FallbackSpeak | src/lib/speaker.ts:415-431 | the object's new state is that of starting browser speech |
| Speaker.Speaker.FetchDone | src/lib/speaker.ts:246-263 | the object's new state is that of a settled fetch |
| Speaker.Speaker.FinishRun | src/lib/speaker.ts:265-274 | the object's new state is that of the end of a run |
| Speaker.Speaker.PlayRejected | src/lib/speaker.ts:324-327 | the object's new state is that of a refused `audio.play()` |
| Speaker.Speaker.PlayEnded | src/lib/speaker.ts:329-343 | the object's new state is that of the audio's end |
| Speaker.Speaker.FallbackEnded | src/lib/speaker.ts:432-438 | the object's new state is that of the end of browser speech |
| Speaker.Speaker.Cancel | src/lib/speaker.ts:176-218 | the object's new state is that of `cancel` |
| Speaker.Speaker.Destroy | src/lib/speaker.ts:221-224 | the object's new state is that of `destroy` |
| Truncate.LastTerminator | src/app/api/tts/route.ts:26-29 | the last ".", "?" or "!" of the slice, -1 when there is none |
| Truncate.CutBody | src/app/api/tts/route.ts:31-38 | the kept part is a prefix of the slice that does not end in whitespace, and is non-empty when the slice starts with a non-space character (the three cuts themselves are stated by CutAtLastTerminator, CutAtLastSpace and CutHard) |
| Truncate.TruncateAtSentenceBoundary | src/app/api/tts/route.ts:21-39 | a text that fits is returned trimmed; a longer one becomes `CutBody` of its first max characters followed by "…": a prefix of the trimmed text, at most max + 1 characters, keeping at least one character when max > 0 |
| Truncate.CutAtLastTerminator | src/app/api/tts/route.ts:31 | with a terminator after position 0, the cut keeps everything up to and including the last one |
| Truncate.CutAtLastSpace | src/app/api/tts/route.ts:33-35 | without such a terminator and with a space after position 0, the kept part is the text before the last space with its trailing whitespace trimmed |
| Truncate.CutHard | src/app/api/tts/route.ts:37-38 | with neither a terminator nor a space after position 0, the kept part is the whole slice with its trailing whitespace trimmed |
| Truncate.LeadingTerminatorIgnored | src/app/api/tts/route.ts:31 | a terminator at position 0 does not count (`lastPunct > 0`) |
| TtsRoute.OrTrim | src/app/api/tts/route.ts:57-58 | `(v || fallback).trim()`: the fallback when the value is falsy, the trimmed string otherwise, a throw for a truthy non-string |
| TtsRoute.ReadSay | src/app/api/tts/route.ts:46-49 | a string `say` is trimmed, anything else reads as empty; only a `null` body throws |
| TtsRoute.SafeSay | src/app/api/tts/route.ts:50-55 | `noCap` sends the text uncut; otherwise it is capped at 2400 characters plus "…" |
| TtsRoute.Ids | src/app/api/tts/route.ts:57-58 | voice and model ids are read unless a truthy one is not a string |
| TtsRoute.PlanRequest | src/app/api/tts/route.ts:41-62 | a missing API key, and only that, gives 502 "tts_unavailable"; with a key the only rejection is 400 "missing_say"; a planned call never sends empty text |
| TtsRoute.DefaultsTrimmed | src/lib/tts-config.ts:4-7 | the configured voice and model ids are already trimmed |
| TtsRoute.Validation | src/app/api/tts/route.ts:42-52 | no API key gives 502 "tts_unavailable"; a null body throws; a blank or non-string `say` gives 400 "missing_say"; a call is made only with a key and a non-blank `say` |
| TtsRoute.CapDecision | src/app/api/tts/route.ts:50-55 | the synthesized text is `say` itself with `noCap: true`, otherwise at most 2401 characters: `say` when it fits in 2400, else a prefix of it followed by "…" |
| TtsRoute.VoiceIdChoice | src/app/api/tts/route.ts:57 | the voice is the trimmed `voiceId` when truthy, else the default voice |
| TtsRoute.ModelIdChoice | src/app/api/tts/route.ts:58 | the model is the trimmed `modelId` when truthy, else the configured model |
| TtsRoute.NonStringVoiceThrows | src/app/api/tts/route.ts:57 | a truthy non-string `voiceId` makes `.trim()` throw |
| TtsRoute.UpstreamDecision | src/app/api/tts/route.ts:64-90 | for a planned call, a rejected `fetch` throws; otherwise audio/mpeg with status 200 exactly when the upstream reply is ok and has a body, 502 "tts_unavailable" exactly when it is not |
| TtsRoute.Post | src/app/api/tts/route.ts:41-91 | `POST` throws exactly when the request handling throws or a planned call's `fetch` rejects; a missing key gives 502 "tts_unavailable"; audio is only ever 200 audio/mpeg after a planned call |
| Scope.IsOutOfScope | src/lib/scope.ts:2-4 | a text shorter than "professional avatar" or than "happy to talk" is never the redirect; the verdict is that both phrases occur in the lower-cased text |
| Scope.CaseDoesNotMatter | src/lib/scope.ts:2-4 | upper- or lower-casing the text never changes the out-of-scope verdict, since the text is lower-cased first |
| Scope.EmptyInScope | src/lib/scope.ts:2-4 | the empty reply is not the redirect |
| Scope.NeedsBothPhrases | src/lib/scope.ts:4 | a text whose lower case lacks either "professional avatar" or "happy to talk" is in scope (both `includes` must hold) |
| Scope.PhraseAt | src/lib/scope.ts:3-4 | a phrase without capitals occurs in the lower case of any text that has it at that position |
| Scope.RedirectLineOutOfScope | src/lib/scope.ts:2-4 | the assistant's redirect line "I’m here as my professional avatar — happy to talk …" is recognised |
| Hash.Std | src/lib/hash.ts:3 | the standard base64 alphabet never yields the padding character '=' |
| Hash.Url | src/lib/hash.ts:29 | the URL-safe alphabet is the standard one with '+' mapped to '-' and '/' to '_' |
| Hash.UrlSafe | src/lib/hash.ts:29 | the two replacements change exactly the '+' and '/' characters and keep the length |
| Hash.StripPadding | src/lib/hash.ts:29 | `/=+$/` removal keeps a prefix that does not end in '=' and drops only '=' characters |
| Hash.StdBase64 | src/lib/hash.ts:5-26 | the three-byte loop and the one- or two-byte tail compute the padded base64 of the bytes (section 4 of RFC 4648) |
| Hash.ToBase64Url | src/lib/hash.ts:5-30 | `toBase64Url` returns the unpadded base64url encoding (section 5 of RFC 4648) |
| Hash.UrlFromStd | src/lib/hash.ts:29 | mapping '+' and '/' and dropping the padding turns the standard encoding into the URL-safe one |
| Hash.StripAfterUrl | src/lib/hash.ts:21-29 | only the "=" or "==" the tail added is stripped, never a character of the encoding |
| Hash.UrlEncode | src/lib/hash.ts:5-30 | the unpadded base64url encoding holds only URL-safe characters (no '+', '/' or '='), and n bytes give 4·(n/3) characters plus 2 or 3 for a trailing group of 1 or 2 bytes |
| Hash.DigestKeyLength | src/lib/hash.ts:33-40 | a 32-byte SHA-256 digest gives a 43-character key |
| Hash.DecodeEncode | src/lib/hash.ts:5-30 | the encoding is invertible: decoding the key gives the digest back |
| Hash.UrlEncodeInjective | src/lib/hash.ts:5-30 | distinct digests give distinct keys |
| Hash.KeyInput | src/lib/hash.ts:44 | the hashed text is the voice id, a ':' and the text to say |
| Hash.HashKey | src/lib/hash.ts:33-40 | the key is the base64url encoding of the digest of the input; the digest is a parameter |
| Hash.TtsCacheKey | src/lib/hash.ts:43-45 | the cache key of (voiceId, say) is the encoded digest of "voiceId:say" |
| Hash.KeysSeparateDigests | src/lib/hash.ts:43-45 | pairs whose digests differ get different keys |
| Hash.ColonInVoiceIdCollides | src/lib/hash.ts:44 | the key text does not separate the pairs ("a:b", "c") and ("a", "b:c") |
| Usage.SliceLast | src/lib/usage.ts:47 | `slice(-n)` is a suffix: the last min(n, length) items for n > 0, the whole list for n = 0 (since -0 is 0), and all but the first -n items for n < 0 |
| Usage.NumberOr0 | src/lib/usage.ts:21-22 | `x \|\| 0` on a stored counter that is a number or missing: the number when there is one, 0 otherwise (a stored non-number is read as 0, see Left out) |
| Usage.Numbers | src/lib/usage.ts:23 | the stored window keeps its length and its numeric entries |
| Usage.Load | src/lib/usage.ts:13-28 | the window never holds more than 10 entries; the empty state on the server, for a missing or empty item, or when parsing throws |
| Usage.FromParsed | src/lib/usage.ts:18-24 | the parsed state keeps at most the last 10 entries; a stored value that is neither object nor array gives the empty state |
| Usage.MissingCountersAreZero | src/lib/usage.ts:21-22 | a missing total or sample count reads as 0 |
| Usage.StoredWindow | src/lib/usage.ts:19-23 | a missing or non-array window becomes empty; otherwise its last 10 entries are kept |
| Usage.EncodeLast | src/lib/usage.ts:31 | the window is stored as a JSON array of its numbers, in order |
| Usage.NumbersEncoded | src/lib/usage.ts:23-31 | reading back a stored window gives the window |
| Usage.Recorded | src/lib/usage.ts:36-41 | recording adds the length to the total, one sample, and pushes the length as the newest entry, shifting out the oldest once the window has 10 |
| Usage.RecordedSuffix | src/lib/usage.ts:40-41 | the new window is the last min(k+1, 10) entries of the old window followed by the new length |
| Usage.Round | src/lib/usage.ts:49 | `Math.round` gives the integer within one half of its argument |
| Usage.AvgChars | src/lib/usage.ts:45-50 | 0 for an empty window; otherwise the mean of the last n entries, rounded |
| Usage.AvgWithinBounds | src/lib/usage.ts:45-50 | the average lies between any lower and upper bound of the entries it averages |
| Usage.SumBounds | src/lib/usage.ts:49 | the sum of k entries bounded by lo and hi lies between k·lo and k·hi |
| Usage.LoadEncoded | src/lib/usage.ts:13-34 | loading a saved state gives it back, when stringify and parse round-trip |
| Usage.FromEncoded | src/lib/usage.ts:18-31 | a state whose window has at most 10 entries is read back unchanged |
| Usage.EncodedFields | src/lib/usage.ts:31 | the saved object carries the total, the sample count and the window |
| Usage.UsageStore.constructor | src/lib/usage.ts:13-34 | a store over the "tts:usage:v1" item, with no change event yet |
| Usage.UsageStore.Loaded | src/lib/usage.ts:13-28 | a loaded window never holds more than 10 entries |
| Usage.UsageStore.Save | src/lib/usage.ts:29-34 | a writable browser store holds the encoded state and fires one "usage:changed" event; a throwing store changes nothing |
| Usage.UsageStore.RecordSayChars | src/lib/usage.ts:36-43 | the store then holds the loaded state with the length recorded, and one change event fired |
| Usage.UsageStore.GetAvgChars | src/lib/usage.ts:45-50 | 0 when the loaded window has no entry to average |
| Usage.RecordThenLoad | src/lib/usage.ts:13-43 | loading after a record gives exactly the recorded state |
| Transcript.Glue | src/hooks/useSTT.ts:52-53 | appending a transcript puts one space between it and a non-empty buffer, none before the first |
| Transcript.PickStep | src/hooks/useSTT.ts:49-54 | one more result adds its transcript to the pieces of its own kind only |
| Transcript.AccumulateSnoc | src/hooks/useSTT.ts:52-53 | accumulating one more transcript glues it to what was accumulated |
| Transcript.AccumulateStep | src/hooks/useSTT.ts:49-54 | one loop step extends exactly the buffer of the result's kind |
| Transcript.CollectResults | src/hooks/useSTT.ts:46-54 | from `resultIndex` on, `finals` holds the final transcripts and `interim` the others, each in order and space-separated |
| Transcript.CollectStep | src/hooks/useSTT.ts:50-53 | the loop body keeps each buffer equal to the accumulation of its kind so far |
| Transcript.JoinSnoc | src/hooks/useSTT.ts:57-59 | `join(" ")` of one more piece adds a space and the piece |
| Transcript.AccumulateIsJoin | src/hooks/useSTT.ts:49-54 | with non-empty transcripts the loop's result is their `join(" ")`, and not empty when there is one |
| Transcript.PairJoin | src/hooks/useSTT.ts:57-59 | `[a, b].filter(Boolean).join(" ")` is a, b, or a + " " + b |
| Transcript.MergeFinals | src/hooks/useSTT.ts:56-60 | new final pieces extend the final buffer after one space; no new pieces leave it as it is |
| Transcript.LiveText | src/hooks/useSTT.ts:63-66 | the live text never holds a run of whitespace, nor any whitespace other than a plain space |
| Transcript.TidyGlue | src/hooks/useSTT.ts:63-65 | two trimmed single-spaced texts joined by a space are trimmed and single-spaced |
| Transcript.LiveTextOfTidy | src/hooks/useSTT.ts:63-66 | on tidy buffers the live text is base, final and interim separated by single spaces |
| Transcript.SubmitText | src/hooks/useSTT.ts:83-87 | the submitted text is single-spaced with no whitespace at either end |
| Transcript.CollapseNonBlank | src/hooks/useSTT.ts:86 | collapsing whitespace keeps a non-space character |
| Transcript.SquishEmptyIffBlank | src/hooks/useSTT.ts:86-87 | collapse-and-trim gives the empty text exactly for blank text |
| Transcript.JoinSpaceBlank | src/hooks/useSTT.ts:83-85 | two texts joined by a space are blank exactly when both are |
| Transcript.SubmitEmptyIffBlank | src/hooks/useSTT.ts:83-91 | nothing is submitted exactly when base and final are both blank |
| Transcript.SubmitOneSide | src/hooks/useSTT.ts:83-87 | with one buffer empty the submitted text is the other one, collapsed and trimmed |
| Stt.SttHook.constructor | src/hooks/useSTT.ts:20-32 | supported when a recogniser constructor exists, debounce `opts.debounceMs ?? 1200`, empty buffers, not recording, no timer |
| Stt.SttHook.Start | src/hooks/useSTT.ts:34-109 | without support nothing changes; otherwise the recogniser exists, base is the current input, final and interim are empty, and recording follows whether `start()` threw |
| Stt.SttHook.OnResult | src/hooks/useSTT.ts:45-69 | final pieces from `resultIndex` on extend the final buffer, the interim buffer is replaced, and the live text of the buffers is passed on |
| Stt.SttHook.OnError | src/hooks/useSTT.ts:71-73 | recording stops and no buffer changes |
| Stt.SttHook.OnEnd | src/hooks/useSTT.ts:75-93 | recording stops and exactly one silence timer is pending, with the debounce delay |
| Stt.SttHook.TimerFires | src/hooks/useSTT.ts:82-92 | the timer is used up and `onFinalSubmit` receives the collapsed, trimmed base and final text, only when it is not empty |
| Stt.SttHook.Stop | src/hooks/useSTT.ts:111-121 | a stop request reaches an existing recogniser only; nothing else changes |
| Stt.SttHook.Toggle | src/hooks/useSTT.ts:123-130 | without support nothing; when idle, a start; when recording, a stop request |
| SpeechRecognition.RecognitionHook.constructor | src/hooks/useSpeechRecognition.ts:18-26 | supported when a recogniser constructor exists, empty buffers, not recording |
| SpeechRecognition.RecognitionHook.Start | src/hooks/useSpeechRecognition.ts:28-91 | without support nothing changes; otherwise base is the current input, the other buffers are cleared, and recording follows whether `start()` threw |
| SpeechRecognition.RecognitionHook.OnResult | src/hooks/useSpeechRecognition.ts:38-61 | the same buffer update and live text as the debounced hook |
| SpeechRecognition.RecognitionHook.OnError | src/hooks/useSpeechRecognition.ts:63-65 | recording stops and no buffer changes |
| SpeechRecognition.RecognitionHook.OnEnd | src/hooks/useSpeechRecognition.ts:67-76 | recording stops, the interim buffer is cleared, and the collapsed, trimmed base and final text is submitted at once, even when empty |
| SpeechRecognition.RecognitionHook.Stop | src/hooks/useSpeechRecognition.ts:93-103 | a stop or abort request reaches an existing recogniser only; nothing else changes |
| ElevenPlayer.Bytes | src/lib/ElevenPlayer.ts:33 | `Uint8Array.from(atob(b64), c => c.charCodeAt(0))` keeps one byte per decoded character, in order |
| ElevenPlayer.Player.constructor | src/lib/ElevenPlayer.ts:9-11 | a new player has no media source, no source buffer and nothing queued or appended |
| ElevenPlayer.Player.Start | src/lib/ElevenPlayer.ts:13-30 | a media source is created only when MediaSource supports the type |
| ElevenPlayer.Player.Drain | src/lib/ElevenPlayer.ts:38-43 | with a source buffer that is not updating and a non-empty queue, the oldest chunk moves to the buffer; otherwise nothing changes; the pushed stream is unchanged |
| ElevenPlayer.Player.SourceOpen | src/lib/ElevenPlayer.ts:21-29 | on "sourceopen" the source buffer exists and the oldest waiting chunk, if any, is appended |
| ElevenPlayer.Player.PushBase64 | src/lib/ElevenPlayer.ts:32-36 | the decoded chunk joins the end of the stream; it is appended at once when the buffer is idle, otherwise it waits |
| ElevenPlayer.Player.UpdateEnd | src/lib/ElevenPlayer.ts:24 | on "updateend" the next waiting chunk, if any, is appended |
| ElevenPlayer.Player.Stop | src/lib/ElevenPlayer.ts:45-55 | the waiting chunks are dropped and what was appended stays; the source buffer stops updating unless `abort()` throws |
| ElevenPlayer.PushTwiceInOrder | src/lib/ElevenPlayer.ts:32-43 | with an idle buffer, two pushes are appended in push order |
| ElevenPlayer.UnsupportedAccumulates | src/lib/ElevenPlayer.ts:13-40 | without MediaSource support nothing is ever appended and the chunks pile up in the queue |
| Speech.Find | src/lib/speech.ts:88-116 | `voices.find`: the first voice that matches the rule, and none exactly when no voice matches |
| Speech.PickFirst | src/lib/speech.ts:83-117 | the voice found by the first rule that finds one, in priority order, and none exactly when no rule matches any voice |
| Speech.ApplyAllAppend | src/lib/speech.ts:120-121 | reducing over the default rules followed by the extra ones applies the defaults first, then the extras |
| Speech.Defaults.constructor | src/lib/speech.ts:29-43 | rate 1.25, pitch 1, "en-US", no voice preference, and the three built-in name fixes |
| Speech.Defaults.Configure | src/lib/speech.ts:45-53 | each field given in the preferences replaces the default; the others keep their value |
| Speech.Defaults.ApplySubs | src/lib/speech.ts:119-122 | the text goes through the default substitutions, then the extra ones |
| Speech.Defaults.PickVoice | src/lib/speech.ts:83-117 | a voice picked is one of the available voices and matches one of the rules in force (name, language prefix, defaults) |
| Speech.Defaults.Speak | src/lib/speech.ts:132-166 | nothing is spoken without `speechSynthesis` or for blank text; otherwise the utterance speaks the text with the default substitutions and then the call's own applied, takes the voice `pickVoice` chooses (none leaves the browser's default), and takes the call's rate, pitch and language, falling back to the defaults |
| Speech.NamedVoiceWins | src/lib/speech.ts:89-92 | a voice whose name equals the call's `voiceName` is chosen, the first such one |
| Speech.NoVoiceIffNoRuleMatches | src/lib/speech.ts:83-117 | `pickVoice` returns null exactly when none of the priority rules matches any voice |
| Speech.DefaultLangIsLastResort | src/lib/speech.ts:114-116 | when some voice's language starts with the default language, a voice is always chosen |
| Speech.OnlyLangWithoutPreferences | src/lib/speech.ts:109-116 | with no preference on the call or in the defaults, the choice is the first voice of the default language |
| Settings.Merge | src/lib/settings.ts:26 | `{ ...DEFAULT_SETTINGS, ...parsed }`: each field missing from the stored object keeps its default ("Normal", fallback on, the default voice); a non-object adds nothing |
| Settings.StoredFieldsOverride | src/lib/settings.ts:26 | each field present in the stored object overrides the default |
| Settings.LoadSettings | src/lib/settings.ts:21-30 | the defaults on the server, for a missing or empty item, or when parsing throws; otherwise the stored object merged over the defaults |
| Settings.ToJsonFields | src/lib/settings.ts:35 | the saved object carries the voice id, the casualness name and the fallback flag |
| Settings.SaveThenLoad | src/lib/settings.ts:21-38 | loading what was saved gives the saved settings back, when stringify and parse round-trip |
| Settings.SettingsStore.constructor | src/lib/settings.ts:21-38 | a store over one localStorage item, with no change event yet |
| Settings.SettingsStore.Save | src/lib/settings.ts:32-38 | in the browser with a writable store the item becomes the stringified settings and one "settings:changed" event fires; otherwise nothing changes |
| Settings.SaveThenLoadStore | src/lib/settings.ts:21-38 | after a save, a load gives the saved settings back, and exactly one change event fired |
| ConversationStorage.StorageKey | src/lib/conversationStorage.ts:6-10 | the key is "ai-chat:" followed by the conversation id ("default" when absent) |
| ConversationStorage.KeysDistinct | src/lib/conversationStorage.ts:6-10 | two conversations share a key exactly when they share an id |
| ConversationStorage.ReadFrom | src/lib/conversationStorage.ts:12-23 | nothing on the server or for a missing or empty item; otherwise the parsed array, and nothing for a non-array or a parse error |
| ConversationStorage.WriteThenRead | src/lib/conversationStorage.ts:12-33 | reading after a write gives the written messages back, when stringify and parse round-trip |
| ConversationStorage.OtherConversationsUntouched | src/lib/conversationStorage.ts:25-33 | a write to one conversation never changes what another conversation reads |
| ConversationStorage.ConversationStore.constructor | src/lib/conversationStorage.ts:12-33 | a store over the localStorage items |
| ConversationStorage.ConversationStore.ReadMessages | src/lib/conversationStorage.ts:12-23 | on the server the read is empty |
| ConversationStorage.ConversationStore.WriteMessages | src/lib/conversationStorage.ts:25-33 | a writable browser store updates exactly the conversation's item; otherwise nothing changes |
| ConversationStorage.ConversationStore.AppendMessages | src/lib/conversationStorage.ts:35-43 | returns the stored messages followed by the appended ones, and writes them back under the same key |
| ConversationStorage.AppendThenRead | src/lib/conversationStorage.ts:35-43 | after an append, a read gives the old messages followed by the new ones |
| VoiceChatPage.UnpausedStep | src/app/voice-chat/page.tsx:63 | the global replace is a left-to-right scan: each step emits one character and continues on a shorter rest |
| VoiceChatPage.UnpausedStartsClean | src/app/voice-chat/page.tsx:63 | no pause tag starts the replaced text |
| VoiceChatPage.UnpausedTagFree | src/app/voice-chat/page.tsx:63 | no `[pause-NN]` tag (2-4 digits, any case) is left after the replace |
| VoiceChatPage.UnpausedNoBracket | src/app/voice-chat/page.tsx:63 | text without "[" is left unchanged by the replace |
| VoiceChatPage.StripPauseTags | src/app/voice-chat/page.tsx:63-64 | the clean-up leaves trimmed text with no pause tag, and text without "[" is only trimmed |
| VoiceChatPage.TrimKeepsTagFree | src/app/voice-chat/page.tsx:63 | `trim()` of tag-free text is tag-free |
| VoiceChatPage.OnDone | src/app/voice-chat/page.tsx:57-81 | onDone throws exactly on a null `raw` or a truthy non-string `show`/`say`; otherwise the message shown is the cleaned `show` (or live text when `show` is falsy), holds no pause tag, and is what is spoken, without cap or invite |
| VoiceChatPage.DoneSpeaksWholeShow | src/app/voice-chat/page.tsx:72-81 | the speaker is given every piece of the shown text |
| VoiceChatPage.SayNeverSpoken | src/app/voice-chat/page.tsx:60-72 | two replies differing only in `say` are shown and spoken alike: the cleaned `say` is never used |
| VoiceChatPage.SayShow | src/app/voice-chat/page.tsx:131-142 | a reply is read exactly when the parsed value is an object whose `say` and `show` are both strings, and it holds those strings |
| VoiceChatPage.AfterFence | src/app/voice-chat/page.tsx:137 | after the opening fence an optional "json" label (any case) is skipped |
| VoiceChatPage.FencedBody | src/app/voice-chat/page.tsx:137 | the captured fence body is trimmed and holds no fence; without a fence there is no body |
| VoiceChatPage.BodyBefore | src/app/voice-chat/page.tsx:137 | the lazy body up to the first closing fence is trimmed and fence-free |
| VoiceChatPage.NoFenceBefore | src/app/voice-chat/page.tsx:137 | a stretch before the first closing fence holds no fence |
| VoiceChatPage.FencedReply | src/app/voice-chat/page.tsx:137-145 | the fenced attempt succeeds only on a non-empty body parsing to `{say, show}` strings; no body, or an empty one, gives nothing |
| VoiceChatPage.ParseAssistantResponse | src/app/voice-chat/page.tsx:125-150 | the whole trimmed text as `{say, show}` wins; then the fenced body; otherwise both fields are the cleaned text |
| VoiceChatPage.OnlyStringFieldsCount | src/app/voice-chat/page.tsx:131-148 | when neither attempt has string `say` and `show`, the reply falls back to the cleaned text |
| VoiceChatPage.PlainTextTrimmed | src/app/voice-chat/page.tsx:126-149 | plain text without "[" comes back trimmed in both fields |
| VoiceChatPage.FencedBodyFound | src/app/voice-chat/page.tsx:137 | the body is the text between the skipped spaces after the opening fence and the spaces before the next fence |
| VoiceChatPage.SkipSpacesTo | src/app/voice-chat/page.tsx:137 | `\s*` after the fence stops at the first non-space |
| VoiceChatPage.BackOverSpacesTo | src/app/voice-chat/page.tsx:137 | the trailing `\s*` before the closing fence starts after the last non-space |
| VoiceChatPage.IndexOfFromTo | src/app/voice-chat/page.tsx:137 | the search finds the first fence at or after its start |
| VoiceChatPage.BodyBetween | src/app/voice-chat/page.tsx:137 | a fenced reply with blank padding gives exactly the text between the paddings |
| VoiceChatPage.BlankSlice | src/app/voice-chat/page.tsx:137 | a blank slice is all whitespace |
| VoiceChatPage.NoFenceInside | src/app/voice-chat/page.tsx:137 | a backtick-free body followed by spaces holds no fence |
| VoiceChatPage.FenceLabelOptional | src/app/voice-chat/page.tsx:137 | the "json" label is optional and case-insensitive |

## Left out

- Audio playback and its telemetry in src/lib/speaker.ts: the `<audio>` element, the WebAudio analyser, the 30 Hz VU timer and the energy values. These are browser I/O and floating point. Playback is one abstract "finished" step, and those objects are kept only as "is set" flags.
- Speaker.Speaker.PlayBlob: one stage, `AwaitPlay`, covers both the wait on `audio.play()` and the wait on `onended`/`onerror`; the model does not require `play()` to settle before the element ends. Which refusals happen (autoplay policy, a pause by `cancel`, a media error) is left to the environment, and a refused element may never end, so such a run can wait for ever.
- The IndexedDB and localStorage plumbing in src/lib/speaker.ts and the `btoa`/`atob` blob conversions. The caches are maps with success flags as parameters; only the 2 MB guard of `lsSet` is kept.
- The SHA-256 digest (and the UTF-8 encoding before it) is a function parameter. It is a foreign crypto call; only its 32-byte length is assumed.
- ChatRoute.RelayStream: the events are values; the text `send` writes for them (`event: token`/`event: done` lines, a `data:` line of `JSON.stringify` output, a blank line, and the `:ok` ping comment) is not modelled, because `JSON.stringify` is outside the model.
- `fetch`, `ReadableStream` readers, `TextDecoder`, `AbortController` and `setTimeout` mechanics. Their outcomes are parameters or methods the environment calls: the status and chunks of a reply, a rejected `fetch` (in src/lib/streamChat.ts, src/lib/speaker.ts and both API routes), a failed read (src/lib/streamChat.ts and the chat route), a rejected `req.json()` (both routes) and a timer firing.
- `JSON.parse` and `JSON.stringify` are parameters. The round-trip lemmas assume they round-trip the values involved.
- The contraction, acronym and slash rewrite tables of src/lib/spokenizer.ts are one opaque `rewrite` function. JavaScript regular-expression word boundaries are not modelled.
- Spokenizer.NormalizeSay: the time cap is computed in exact reals. JavaScript floating point could round differently when the estimate lands exactly on the limit.
- Text.Lower and Scope.IsOutOfScope: `toLowerCase` is modelled on ASCII letters only; other letters are left as they are.
- Text.IsSpace is the ASCII and Unicode `\s` set as a fixed list of characters. No Unicode normalisation is modelled. A character of a Dafny string is one Unicode code point.
- Truncate.TruncateAtSentenceBoundary, Speaker.Enqueued, TtsRoute.SafeSay, TtsRoute.CapDecision, ChatRoute.Take, ChatRoute.FinalizeRawChoice: lengths and slices count Unicode code points, not the UTF-16 units that JavaScript's `.length` and `slice` count. A character outside the Basic Multilingual Plane counts once here and twice in the source, so near the 2400-character and 1200-character caps the cut can fall at a different place. A JavaScript `slice` can also split a surrogate pair, which the model cannot represent.
- `listVoices`, `cancelSpeech`, `isSpeaking`, `voicesReady` and `sleep` in src/lib/speech.ts are thin wrappers over `speechSynthesis` timing and state. The voice list and `speechSynthesis` support are parameters.
- `speak` in src/lib/speech.ts: the utterance's `onstart`/`onend` callbacks and the cancel of ongoing speech are browser side effects and are not modelled.
- The voice-chat page's React state (`setMessages`, `setLiveText`), the `streamChat` call it makes, and its error messages are not modelled. `onDone` uses the `liveText` value its closure captured, which is a parameter.
- VoiceChatPage.OnDone computes the cleaned `say` as the page does, but the page never uses it (`SayNeverSpoken`). The page's `noCap: true` is not a field of the speaker's item, so the speaker still caps the text.
- The `ElevenPlayer` media element, object URLs and `MediaSource.endOfStream` details are not modelled beyond the source buffer's presence and `updating` flag.
- Stt.SttHook.Stop models both `stop()` and `abort()` as one request to the recogniser.
- The React hook plumbing (`useState`, `useRef`, `useCallback`, effects and clean-ups) of the two recogniser hooks is not modelled. Their refs and state are the fields of one object.
- Speaker.Speaker: the `onBoundary` progress callback and the per-word timing estimates are not modelled.
- Segmenter.StreamSegmenter.Push follows the intended restart-on-remainder reading, not the non-terminating loop as written. See Findings.
- Segmenter.StreamSegmenter.Push: the segments do not depend only on the text pushed, but also on where the chunks are cut. `push("3.")`, `push("14")`, `flush()` gives "3." and "14", while `push("3.14")`, `flush()` gives "3.14" (SegmentChunking.ChunkingChangesSegments). A period that ends a chunk is a sentence end (src/lib/segmenter.ts:92-101), because the decimal-point test (src/lib/segmenter.ts:65-68) cannot see the next chunk's digit. No chunk-independence is claimed.
- Usage.NumberOr0, Usage.Numbers: the source's `p.total || 0` and `p.samples || 0` keep a truthy stored value that is not a number (such as the string "5"), and the window entries are kept as stored. The `+=` of `recordSayChars` and the `reduce` of `getAvgChars` would then concatenate strings. The model reads every stored non-number as 0 and keeps numeric state only.
- Usage.AvgChars: the default `n = 10` of `getAvgChars` (src/lib/usage.ts:45) is not modelled: the caller always supplies `n`.
- Spokenizer.SplitSentences uses the corrected sentence pattern, and so do `Spokenizer.NormalizeSay` (through its sentence pieces) and `Spokenizer.ChunkSayForPlayback` (through `RawChunks`), which call it. The pattern as written is modelled as `SplitSentencesAsWritten`; see Findings. The correction changes one more case: on text without whitespace that starts with `.`, `?` or `!`, the pattern as written keeps the whole text, while the corrected one drops those leading terminators (`Spokenizer.LeadingTerminatorDiffers`: ".a" gives "a").

## Findings

| source | as written | input that shows it | evidently intended | confidence | as-written member | corrected member |
|---|---|---|---|---|---|---|
| src/lib/segmenter.ts:38,50-54,74-77,97-99 | after emitting a segment `i` is reset to 0 and `tail` to the remainder, but the scanned `const s` is never re-sliced, so the scan finds the same boundary again and `push` never returns | `push("Hi. ")` | emit "Hi." and keep scanning the remainder " " | not executed | Segmenter.LiteralScanNeverFinishes (and Segmenter.HiAsWrittenVersusModel) | Segmenter.StreamSegmenter.Push (with Segmenter.PushReassembles) |
| src/lib/spokenizer.ts:102 | the `\S+$` alternative of the sentence pattern matches only the last word of an unterminated trailing sentence, so the words before it are lost | `splitSentences("a b")` gives `["b"]` | `["a b"]`: every word of the text is kept | not executed | Spokenizer.AsWrittenDropsFirstWord (and Spokenizer.UnterminatedSentenceLosesWords) | Spokenizer.IntendedKeepsSentence (with Spokenizer.SentencePartsCover) |

/**
 * The client side of the chat event stream (src/lib/streamChat.ts): the
 * response text arrives in chunks, is cut into frames at blank lines ("\n\n")
 * with the unfinished last piece kept in `buffer`, and each frame's `event:`
 * and `data:` lines decide which callback fires. The callbacks are recorded
 * in order as a log. `JSON.parse` is a parameter returning `None` when it
 * throws; the chunks are the decoded text of each read.
 */
module StreamChat {
  import opened Text
  import opened Splits
  import opened Wrappers
  import opened Json
  import Seqs

  datatype Callback = OnToken(text: string) | OnDone(raw: Json) | OnError(message: string)

  /** How the body stream ends once the response is in hand. */
  datatype Ending = Closed | Failed(name: string, message: string)

  /** What `fetch` and the reads deliver. */
  datatype Exchange =
    | Rejected(name: string, message: string)
    | Responded(ok: bool, status: nat, chunks: seq<string>, ending: Ending)

  const FrameSep: string := "\n\n"

  /**
   * The complete frames of a text: every piece of the split but the last.
   * There are none exactly when no "\n\n" has arrived yet.
   */
  function Frames(text: string): (r: seq<string>)
    ensures r == [] <==> !Contains(text, FrameSep)
  {
    var ps := Split(text, FrameSep);
    match IndexOfFrom(text, FrameSep, 0)
    case None => ps[..|ps| - 1]
    case Some(k) =>
      assert StartsAt(text, k, FrameSep);
      ps[..|ps| - 1]
  }

  /** What stays in `buffer`: the text after the last "\n\n", all of it before the first one arrives. */
  function Leftover(text: string): (r: string)
    ensures !Contains(text, FrameSep) ==> r == text
  {
    var ps := Split(text, FrameSep);
    ps[|ps| - 1]
  }

  /**
   * The frames and the leftover make up the whole text again, and none of
   * them holds a frame separator: the buffer is exactly the text after the
   * last "\n\n".
   */
  lemma FramesCover(text: string)
    ensures Join(Frames(text) + [Leftover(text)], FrameSep) == text
    ensures !Contains(Leftover(text), FrameSep)
    ensures forall f :: f in Frames(text) ==> !Contains(f, FrameSep)
  {
    var ps := Split(text, FrameSep);
    assert Frames(text) + [Leftover(text)] == ps;
    SplitJoin(text, FrameSep);
    SplitPiecesFree(text, FrameSep);
    assert Leftover(text) in ps;
    forall f | f in Frames(text)
      ensures !Contains(f, FrameSep)
    {
      assert f in ps;
    }
  }

  /**
   * Reading more text re-uses the frames already complete and continues from
   * the old leftover: frames and buffer depend only on the text received,
   * never on where the chunk boundaries fell.
   */
  lemma FramesAppend(text: string, chunk: string)
    ensures Frames(text + chunk) == Frames(text) + Frames(Leftover(text) + chunk)
    ensures Leftover(text + chunk) == Leftover(Leftover(text) + chunk)
  {
    var ps := Split(text, FrameSep);
    var qs := Split(ps[|ps| - 1] + chunk, FrameSep);
    SplitAppend(text, chunk, FrameSep);
    Seqs.AppendInitLast(ps[..|ps| - 1], qs);
  }

  /** The `event` and `dataStr` of one frame; `None` is the initial `null`. */
  datatype Fields = Fields(event: Option<string>, data: string)

  predicate IsEventLine(line: string) { StartsWith(line, "event:") }

  predicate IsDataLine(line: string) { !IsEventLine(line) && StartsWith(line, "data:") }

  /** The fields after reading `lines` in order. */
  function FrameFields(lines: seq<string>): Fields {
    if lines == [] then Fields(None, "")
    else
      var f := FrameFields(lines[..|lines| - 1]);
      var line := lines[|lines| - 1];
      if IsEventLine(line) then f.(event := Some(Trim(line[6..])))
      else if IsDataLine(line) then f.(data := f.data + Trim(line[5..]))
      else f
  }

  /** The trimmed payload of a data line, as a list of zero or one parts. */
  function DataPart(line: string): seq<string> {
    if IsDataLine(line) then [Trim(line[5..])] else []
  }

  /** The trimmed payloads of the data lines, front to back. */
  function DataParts(lines: seq<string>): seq<string> {
    Seqs.FlatMap(DataPart, lines)
  }

  /** The data is the concatenation of the trimmed payloads of all `data:` lines. */
  lemma {:induction false} DataIsConcatenation(lines: seq<string>)
    ensures FrameFields(lines).data == Concat(DataParts(lines))
  {
    if lines != [] {
      var init := lines[..|lines| - 1];
      var line := lines[|lines| - 1];
      DataIsConcatenation(init);
      Seqs.InitLast(lines);
      Seqs.FlatMapSnoc(DataPart, init, line);
      ConcatAppend(DataParts(init), DataPart(line));
      var none: seq<string> := [];
      if IsDataLine(line) {
        assert Concat([Trim(line[5..])]) == Trim(line[5..]) + Concat(none);
      }
    }
  }

  /** The event is the trimmed text of the last `event:` line. */
  lemma {:induction false} LastEventLineWins(lines: seq<string>, j: nat)
    requires j < |lines| && IsEventLine(lines[j])
    requires forall k :: j < k < |lines| ==> !IsEventLine(lines[k])
    ensures FrameFields(lines).event == Some(Trim(lines[j][6..]))
  {
    if j < |lines| - 1 {
      var init := lines[..|lines| - 1];
      assert init[j] == lines[j];
      forall k | j < k < |init|
        ensures !IsEventLine(init[k])
      {
        assert init[k] == lines[k];
      }
      LastEventLineWins(init, j);
    }
  }

  /** With no `event:` line the event stays `null`. */
  lemma {:induction false} NoEventLine(lines: seq<string>)
    requires forall k :: 0 <= k < |lines| ==> !IsEventLine(lines[k])
    ensures FrameFields(lines).event == None
  {
    if lines != [] {
      var init := lines[..|lines| - 1];
      forall k | 0 <= k < |init|
        ensures !IsEventLine(init[k])
      {
        assert init[k] == lines[k];
      }
      NoEventLine(init);
    }
  }

  /** The line loop of one frame. */
  method ReadFrame(frame: string) returns (event: Option<string>, data: string)
    ensures Fields(event, data) == FrameFields(Split(frame, "\n"))
  {
    var lines := Split(frame, "\n");
    event, data := None, "";
    var i := 0;
    while i < |lines|
      invariant 0 <= i <= |lines|
      invariant Fields(event, data) == FrameFields(lines[..i])
    {
      var line := lines[i];
      assert lines[..i + 1][..i] == lines[..i];
      if StartsWith(line, "event:") {
        event := Some(Trim(line[6..]));
      } else if StartsWith(line, "data:") {
        data := data + Trim(line[5..]);
      }
      i := i + 1;
    }
    assert lines[..i] == lines;
  }

  /**
   * The body of the `try` for a frame with a non-empty event and parsed data:
   * the callbacks it fires and whether it sets `sawDone`. Reading `.text` or
   * `.raw` of a `null` payload throws, which the `catch` swallows.
   */
  function Dispatch(event: string, data: Json): (r: (seq<Callback>, bool))
    ensures |r.0| <= 1
    ensures r.1 <==> event == "done" && data != JNull
    ensures r.1 ==> r.0 == [OnDone(OrElse(Get(Def(data), "raw").value, EmptyObject))]
    ensures !r.1 ==> forall c :: c in r.0 ==> c.OnToken?
    ensures r.0 != [] && r.0[0].OnToken? ==> event == "token" && Get(Def(data), "text") == Some(Def(JStr(r.0[0].text)))
    ensures event == "token" && Get(Def(data), "text").Some? && AsString(Get(Def(data), "text").value).Some? ==>
      r == ([OnToken(AsString(Get(Def(data), "text").value).value)], false)
  {
    if event == "token" then
      match Get(Def(data), "text")
      case Some(Def(JStr(t))) => ([OnToken(t)], false)
      case _ => ([], false)
    else if event == "done" then
      match Get(Def(data), "raw")
      case None => ([], false)
      case Some(raw) => ([OnDone(OrElse(raw, EmptyObject))], true)
    else ([], false)
  }

  /** One frame: comments, frames without an event and unparsable data fire nothing. */
  function HandleFrame(frame: string, parse: string -> Option<Json>): (r: (seq<Callback>, bool))
    ensures StartsWith(frame, ":") ==> r == ([], false)
    ensures var ev := FrameFields(Split(frame, "\n")).event;
      ev == None || ev == Some("") ==> r == ([], false)
    ensures var f := FrameFields(Split(frame, "\n"));
      parse(if f.data == "" then "{}" else f.data).None? ==> r == ([], false)
    ensures |r.0| <= 1 && (r.0 != [] ==> !r.0[0].OnError?)
    ensures r.1 <==> r.0 != [] && r.0[0].OnDone?
    ensures var f := FrameFields(Split(frame, "\n"));
      && !StartsWith(frame, ":") && f.event.Some? && f.event.value != ""
      && parse(if f.data == "" then "{}" else f.data).Some? ==>
        r == Dispatch(f.event.value, parse(if f.data == "" then "{}" else f.data).value)
  {
    if StartsWith(frame, ":") then ([], false)
    else
      var f := FrameFields(Split(frame, "\n"));
      if f.event.None? || f.event.value == "" then ([], false)
      else
        match parse(if f.data == "" then "{}" else f.data)
        case None => ([], false)
        case Some(data) => Dispatch(f.event.value, data)
  }

  /** One pass of the frame loop: skip, read the lines, parse, dispatch. */
  method ReadAndDispatch(frame: string, parse: string -> Option<Json>) returns (cs: seq<Callback>, done: bool)
    ensures (cs, done) == HandleFrame(frame, parse)
  {
    cs, done := [], false;
    if StartsWith(frame, ":") {
      return;
    }
    var event, data := ReadFrame(frame);
    if event.None? || event.value == "" {
      return;
    }
    var parsed := parse(if data == "" then "{}" else data);
    if parsed.None? {
      return;
    }
    cs, done := Fire(event.value, parsed.value);
  }

  /** The `try` body once the data has parsed. */
  method Fire(event: string, data: Json) returns (cs: seq<Callback>, done: bool)
    ensures (cs, done) == Dispatch(event, data)
  {
    cs, done := [], false;
    if event == "token" {
      var text := Get(Def(data), "text");
      if text.Some? && text.value.Def? && text.value.j.JStr? {
        cs := [OnToken(text.value.j.s)];
      }
    } else if event == "done" {
      var raw := Get(Def(data), "raw");
      if raw.Some? {
        cs, done := [OnDone(OrElse(raw.value, EmptyObject))], true;
      }
    }
  }


  /** Running two batches of frames one after the other. */
  function Combine(p: (seq<Callback>, bool), q: (seq<Callback>, bool)): (seq<Callback>, bool) {
    (p.0 + q.0, p.1 || q.1)
  }

  /**
   * The frames in order: the callbacks fired and whether a `done` frame was
   * seen; each frame fires at most one callback.
   */
  function HandleFrames(frames: seq<string>, parse: string -> Option<Json>): (r: (seq<Callback>, bool))
    ensures |r.0| <= |frames|
    ensures frames == [] ==> r == ([], false)
  {
    if frames == [] then ([], false)
    else Combine(HandleFrames(frames[..|frames| - 1], parse), HandleFrame(frames[|frames| - 1], parse))
  }

  predicate NoErrors(cs: seq<Callback>) { forall c :: c in cs ==> !c.OnError? }

  predicate HasDone(cs: seq<Callback>) { exists c :: c in cs && c.OnDone? }

  /** Frames never report errors, and `sawDone` says whether `onDone` was called. */
  lemma {:induction false} HandleFramesFacts(frames: seq<string>, parse: string -> Option<Json>)
    ensures NoErrors(HandleFrames(frames, parse).0)
    ensures HandleFrames(frames, parse).1 <==> HasDone(HandleFrames(frames, parse).0)
  {
    if frames != [] {
      var p := HandleFrames(frames[..|frames| - 1], parse);
      var q := HandleFrame(frames[|frames| - 1], parse);
      HandleFramesFacts(frames[..|frames| - 1], parse);
      var r := p.0 + q.0;
      assert forall c :: c in r <==> c in p.0 || c in q.0;
      if q.1 {
        assert q.0[0] in r;
      }
      if p.1 {
        var c :| c in p.0 && c.OnDone?;
        assert c in r;
      }
    }
  }

  /** Handling a batch of frames extends the log of the frames before it. */
  lemma {:induction false} HandleFramesAppend(a: seq<string>, b: seq<string>, parse: string -> Option<Json>)
    ensures HandleFrames(a + b, parse) == Combine(HandleFrames(a, parse), HandleFrames(b, parse))
    decreases |b|
  {
    if b == [] {
      assert a + b == a;
      assert HandleFrames(b, parse) == ([], false);
      assert HandleFrames(a, parse).0 + [] == HandleFrames(a, parse).0;
    } else {
      var init, last := b[..|b| - 1], b[|b| - 1];
      Seqs.AppendInitLast(a, b);
      HandleFramesAppend(a, init, parse);
      var x, y, z := HandleFrames(a, parse), HandleFrames(init, parse), HandleFrame(last, parse);
      assert HandleFrames(a + b, parse) == Combine(HandleFrames(a + init, parse), z);
      assert HandleFrames(a + init, parse) == (x.0 + y.0, x.1 || y.1);
      assert HandleFrames(b, parse) == (y.0 + z.0, y.1 || z.1);
      Seqs.AppendAssoc(x.0, y.0, z.0);
    }
  }

  /**
   * One iteration of the read loop: append the chunk, split, keep the last
   * piece as the new buffer and handle the complete frames in order.
   */
  method ReadChunk(buffer: string, chunk: string, log: seq<Callback>, sawDone: bool,
                   parse: string -> Option<Json>)
    returns (buffer': string, log': seq<Callback>, sawDone': bool)
    ensures buffer' == Leftover(buffer + chunk)
    ensures (log', sawDone') == Combine((log, sawDone), HandleFrames(Frames(buffer + chunk), parse))
  {
    var frames := Frames(buffer + chunk);
    buffer' := Leftover(buffer + chunk);
    log', sawDone' := log, sawDone;
    var j := 0;
    assert frames[..0] == [] && log + [] == log;
    while j < |frames|
      invariant 0 <= j <= |frames|
      invariant log' == log + HandleFrames(frames[..j], parse).0
      invariant sawDone' == (sawDone || HandleFrames(frames[..j], parse).1)
    {
      ghost var h := HandleFrames(frames[..j], parse);
      var cs, done := ReadAndDispatch(frames[j], parse);
      HandleFramesSnoc(frames, j, parse);
      ghost var h' := HandleFrames(frames[..j + 1], parse);
      assert h'.0 == h.0 + cs && h'.1 == (h.1 || done);
      Seqs.AppendAssoc(log, h.0, cs);
      log' := log' + cs;
      assert log' == log + h'.0;
      if done {
        sawDone' := true;
      }
      j := j + 1;
    }
    assert frames[..j] == frames;
  }

  lemma HandleFramesSnoc(frames: seq<string>, j: nat, parse: string -> Option<Json>)
    requires j < |frames|
    ensures HandleFrames(frames[..j + 1], parse) == Combine(HandleFrames(frames[..j], parse), HandleFrame(frames[j], parse))
  {
    assert frames[..j + 1][..j] == frames[..j];
  }

  lemma ConcatSnoc(chunks: seq<string>, i: nat)
    requires i < |chunks|
    ensures Concat(chunks[..i + 1]) == Concat(chunks[..i]) + chunks[i]
  {
    assert chunks[..i + 1] == chunks[..i] + [chunks[i]];
    ConcatAppend(chunks[..i], [chunks[i]]);
    var none: seq<string> := [];
    assert [chunks[i]][1..] == none;
  }

  function Reported(name: string, message: string): seq<Callback> {
    if name == "AbortError" then [] else [OnError(if message == "" then "stream aborted" else message)]
  }

  /** The whole callback log of one exchange, stated over the full text received. */
  function Callbacks(x: Exchange, parse: string -> Option<Json>): seq<Callback> {
    match x
    case Rejected(name, message) => Reported(name, message)
    case Responded(ok, status, chunks, ending) =>
      if !ok then [OnError("HTTP " + NatToString(status))]
      else
        var text := Concat(chunks);
        var (cs, sawDone) := HandleFrames(Frames(text), parse);
        cs + match ending
             case Closed => if Leftover(text) != "" && !sawDone then [OnError("disconnected")] else []
             case Failed(name, message) => Reported(name, message)
  }

  /**
   * `streamChat`'s task: the read loop keeps `buffer` equal to the leftover
   * of the text read so far and has handled exactly its complete frames, so
   * its log is the one fixed by the concatenated text alone.
   */
  method StreamChat(x: Exchange, parse: string -> Option<Json>) returns (log: seq<Callback>)
    ensures log == Callbacks(x, parse)
  {
    if x.Rejected? {
      return Reported(x.name, x.message);
    }
    if !x.ok {
      return [OnError("HTTP " + NatToString(x.status))];
    }
    var chunks := x.chunks;
    var buffer := "";
    var sawDone := false;
    log := [];
    var i := 0;
    while i < |chunks|
      invariant 0 <= i <= |chunks|
      invariant buffer == Leftover(Concat(chunks[..i]))
      invariant (log, sawDone) == HandleFrames(Frames(Concat(chunks[..i])), parse)
    {
      ghost var before := Concat(chunks[..i]);
      buffer, log, sawDone := ReadChunk(buffer, chunks[i], log, sawDone, parse);
      FramesAppend(before, chunks[i]);
      HandleFramesAppend(Frames(before), Frames(Leftover(before) + chunks[i]), parse);
      ConcatSnoc(chunks, i);
      i := i + 1;
    }
    assert chunks[..i] == chunks;
    match x.ending
    case Failed(name, message) =>
      log := log + Reported(name, message);
    case Closed =>
      if buffer != "" && !sawDone {
        log := log + [OnError("disconnected")];
      }
  }

  /**
   * After a clean end of stream, "disconnected" is reported exactly when text
   * is left over and no `done` callback fired; an empty leftover without a
   * `done` frame ends silently.
   */
  lemma DisconnectedRule(ok: bool, status: nat, chunks: seq<string>, parse: string -> Option<Json>)
    requires ok
    ensures var log := Callbacks(Responded(ok, status, chunks, Closed), parse);
      (OnError("disconnected") in log <==>
        Leftover(Concat(chunks)) != "" && forall c :: c in log ==> !c.OnDone?)
      && (Leftover(Concat(chunks)) == "" ==> forall c :: c in log ==> !c.OnError?)
  {
    var text := Concat(chunks);
    var h := HandleFrames(Frames(text), parse);
    HandleFramesFacts(Frames(text), parse);
    var log := Callbacks(Responded(ok, status, chunks, Closed), parse);
    assert OnError("disconnected") !in h.0;
    if Leftover(text) != "" && !h.1 {
      assert log == h.0 + [OnError("disconnected")];
      assert log[|log| - 1] == OnError("disconnected");
      assert forall c :: c in log && c.OnDone? ==> c in h.0;
    } else {
      assert log == h.0;
    }
  }


  /**
   * A failed status reports only "HTTP <status>", an abort is never reported,
   * and an error, when there is one, is the last callback.
   */
  lemma ErrorsOnly(x: Exchange, parse: string -> Option<Json>)
    ensures x.Responded? && !x.ok ==> Callbacks(x, parse) == [OnError("HTTP " + NatToString(x.status))]
    ensures x.Rejected? && x.name == "AbortError" ==> Callbacks(x, parse) == []
    ensures x.Responded? && x.ok && x.ending.Failed? && x.ending.name == "AbortError" ==>
      forall c :: c in Callbacks(x, parse) ==> !c.OnError?
    ensures var log := Callbacks(x, parse);
      forall k :: 0 <= k < |log| && log[k].OnError? ==> k == |log| - 1
  {
    if x.Responded? && x.ok {
      var h := HandleFrames(Frames(Concat(x.chunks)), parse);
      HandleFramesFacts(Frames(Concat(x.chunks)), parse);
      var log := Callbacks(x, parse);
      var tail := log[|h.0|..];
      assert log == h.0 + tail;
      assert |tail| <= 1;
      if x.ending.Failed? && x.ending.name == "AbortError" {
        assert tail == [];
      }
      forall k | 0 <= k < |h.0|
        ensures !log[k].OnError?
      {
        assert log[k] == h.0[k];
        assert h.0[k] in h.0;
      }
    }
  }
}

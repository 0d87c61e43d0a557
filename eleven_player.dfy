/**
 * The MediaSource chunk queue of the streaming player (src/lib/ElevenPlayer.ts).
 * Decoded mp3 chunks wait in `queue`; `drain` hands the oldest one to the
 * source buffer's `appendBuffer` whenever a source buffer exists and is not
 * busy, and every `updateend` event drains again. `atob` is a parameter; the
 * media element, object URLs and playback are not modelled. `appended` is
 * the list of chunks handed to `appendBuffer`, in order.
 */
module ElevenPlayer {
  import Hash

  type Chunk = seq<Hash.Byte>

  /** `Uint8Array.from(text, c => c.charCodeAt(0))`: each code unit stored modulo 256. */
  function Bytes(text: string): (r: Chunk)
    ensures |r| == |text|
    ensures forall i :: 0 <= i < |text| && (text[i] as int) < 256 ==> r[i] == text[i] as int
  {
    seq(|text|, i requires 0 <= i < |text| => (text[i] as int) % 256)
  }

  class Player {
    /** `this.mediaSource` is set. */
    var mediaSource: bool
    /** `this.sourceBuffer` is set. */
    var sourceBuffer: bool
    /** The source buffer's own `updating` flag. */
    var bufferUpdating: bool
    var queue: seq<Chunk>
    var appended: seq<Chunk>

    ghost predicate Valid()
      reads this
    {
      (sourceBuffer ==> mediaSource) && (bufferUpdating ==> sourceBuffer)
    }

    /** Every chunk pushed and not discarded by `stop`, in push order. */
    function Stream(): seq<Chunk>
      reads this
    {
      appended + queue
    }

    constructor()
      ensures Valid()
      ensures !mediaSource && !sourceBuffer && !bufferUpdating && queue == [] && appended == []
    {
      mediaSource, sourceBuffer, bufferUpdating := false, false, false;
      queue, appended := [], [];
    }

    /** `start(mime)`: a media source is created only when the browser supports the type. */
    method Start(mseSupported: bool)
      requires Valid()
      modifies this`mediaSource
      ensures Valid()
      ensures mediaSource == (old(mediaSource) || mseSupported)
    {
      if !mseSupported {
        return;
      }
      mediaSource := true;
    }

    /**
     * `drain()`: without a source buffer, with an empty queue or while the
     * buffer is updating, nothing happens; otherwise exactly the oldest chunk
     * moves to the buffer, which becomes busy.
     */
    method Drain()
      requires Valid()
      modifies this`queue, this`appended, this`bufferUpdating
      ensures Valid()
      ensures Stream() == old(Stream())
      ensures !old(sourceBuffer) || old(queue) == [] || old(bufferUpdating) ==>
        queue == old(queue) && appended == old(appended) && bufferUpdating == old(bufferUpdating)
      ensures old(sourceBuffer) && old(queue) != [] && !old(bufferUpdating) ==>
        && appended == old(appended) + [old(queue)[0]]
        && queue == old(queue)[1..]
        && bufferUpdating
    {
      if !sourceBuffer || |queue| == 0 || bufferUpdating {
        return;
      }
      var chunk := queue[0];
      queue := queue[1..];
      appended := appended + [chunk];
      bufferUpdating := true;
      assert old(queue) == [chunk] + queue;
    }

    /** `sourceopen`: the source buffer is added, is idle, and the queue drains. */
    method SourceOpen()
      requires Valid() && mediaSource
      modifies this`sourceBuffer, this`queue, this`appended, this`bufferUpdating
      ensures Valid() && sourceBuffer
      ensures Stream() == old(Stream())
      ensures old(queue) == [] ==> queue == [] && appended == old(appended) && !bufferUpdating
      ensures old(queue) != [] ==>
        appended == old(appended) + [old(queue)[0]] && queue == old(queue)[1..] && bufferUpdating
    {
      sourceBuffer := true;
      bufferUpdating := false;
      Drain();
    }

    /**
     * `pushBase64(b64)`: the decoded chunk joins the back of the queue, then
     * the queue drains.
     */
    method PushBase64(b64: string, atob: string -> string)
      requires Valid()
      modifies this`queue, this`appended, this`bufferUpdating
      ensures Valid()
      ensures Stream() == old(Stream()) + [Bytes(atob(b64))]
      ensures var q := old(queue) + [Bytes(atob(b64))];
        && (!sourceBuffer || old(bufferUpdating) ==>
              queue == q && appended == old(appended) && bufferUpdating == old(bufferUpdating))
        && (sourceBuffer && !old(bufferUpdating) ==>
              appended == old(appended) + [q[0]] && queue == q[1..] && bufferUpdating)
    {
      var chunk := Bytes(atob(b64));
      queue := queue + [chunk];
      assert appended + queue == old(Stream()) + [chunk];
      Drain();
    }

    /** `updateend`: the buffer is idle again and the next chunk, if any, is appended. */
    method UpdateEnd()
      requires Valid() && sourceBuffer
      modifies this`queue, this`appended, this`bufferUpdating
      ensures Valid()
      ensures Stream() == old(Stream())
      ensures old(queue) == [] ==> queue == [] && appended == old(appended) && !bufferUpdating
      ensures old(queue) != [] ==>
        appended == old(appended) + [old(queue)[0]] && queue == old(queue)[1..] && bufferUpdating
    {
      bufferUpdating := false;
      Drain();
    }

    /**
     * `stop()`: `sourceBuffer.abort()` ends any append in progress, so the
     * buffer is no longer updating unless `abort` threw (its error is
     * swallowed), and the waiting chunks are discarded.
     */
    method Stop(abortThrows: bool)
      requires Valid()
      modifies this`queue, this`bufferUpdating
      ensures Valid()
      ensures queue == [] && Stream() == appended
      ensures bufferUpdating == (old(bufferUpdating) && abortThrows)
    {
      if sourceBuffer && !abortThrows {
        bufferUpdating := false;
      }
      queue := [];
    }
  }

  /**
   * Chunks reach `appendBuffer` in push order: with a buffer that is never
   * busy, pushing `a` and then `b` appends `a` before `b`, each at once.
   */
  method PushTwiceInOrder(a: string, b: string, atob: string -> string) returns (p: Player)
    ensures p.appended == [Bytes(atob(a)), Bytes(atob(b))]
    ensures p.queue == []
  {
    p := new Player();
    p.Start(true);
    p.SourceOpen();
    p.PushBase64(a, atob);
    p.UpdateEnd();
    p.PushBase64(b, atob);
  }

  /** Without MediaSource support nothing is ever appended; pushed chunks pile up. */
  method UnsupportedAccumulates(a: string, b: string, atob: string -> string) returns (p: Player)
    ensures p.appended == [] && !p.sourceBuffer
    ensures p.queue == [Bytes(atob(a)), Bytes(atob(b))]
  {
    p := new Player();
    p.Start(false);
    p.PushBase64(a, atob);
    p.PushBase64(b, atob);
  }
}

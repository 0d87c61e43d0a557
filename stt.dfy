/**
 * The speech-to-text hook with a silence debounce (src/hooks/useSTT.ts).
 * The hook's refs and its `isRecording` state are the fields of one object;
 * the recogniser's callbacks (`onresult`, `onerror`, `onend`) and the
 * debounce timer firing are methods called by the environment. Whether
 * `recognition.start()` throws is a parameter. The `onInterim` callback's
 * argument is a method result, and so is the `onFinalSubmit` call of the
 * timer (`None` when it is not called).
 */
module Stt {
  import opened Wrappers
  import opened Text
  import opened Transcript

  const DefaultDebounceMs: real := 1200.0

  class SttHook {
    /** A `SpeechRecognition` constructor exists. */
    const supported: bool
    /** `opts.debounceMs ?? 1200`. */
    const debounceMs: real

    /** `recognitionRef.current` has been created (and its handlers installed). */
    var created: bool
    var isRecording: bool
    var base: string
    var final: string
    var interim: string
    /** The pending silence timer, with its delay; at most one exists. */
    var timer: Option<real>
    /** How many times `recognition.stop()` has been requested. */
    var stopRequests: nat

    ghost predicate Valid()
      reads this
    {
      && (created ==> supported)
      && (isRecording ==> created)
      && (timer.Some? ==> created && timer.value == debounceMs)
    }

    constructor(supported: bool, debounceMs: Option<real>)
      ensures Valid()
      ensures this.supported == supported
      ensures this.debounceMs == (if debounceMs.Some? then debounceMs.value else DefaultDebounceMs)
      ensures !created && !isRecording && base == [] && final == [] && interim == []
      ensures timer.None? && stopRequests == 0
    {
      this.supported := supported;
      this.debounceMs := if debounceMs.Some? then debounceMs.value else DefaultDebounceMs;
      created := false;
      isRecording := false;
      base, final, interim := [], [], [];
      timer := None;
      stopRequests := 0;
    }

    /**
     * `start(currentInput)`: nothing without support; otherwise create the
     * recogniser once, seed the base buffer, empty the others and record
     * whether `recognition.start()` succeeded. A pending timer stays.
     */
    method Start(currentInput: string, startThrows: bool)
      requires Valid()
      modifies this
      ensures Valid()
      ensures !supported ==> unchanged(this)
      ensures supported ==>
        && created && base == currentInput && final == [] && interim == []
        && isRecording == !startThrows
        && timer == old(timer) && stopRequests == old(stopRequests)
    {
      if !supported {
        return;
      }
      created := true;
      base := currentInput;
      final := [];
      interim := [];
      isRecording := !startThrows;
    }

    /**
     * `onresult`: final pieces extend the final buffer, the interim buffer
     * is replaced, and the live text is handed to `onInterim`.
     */
    method OnResult(results: seq<Result>, resultIndex: nat) returns (live: string)
      requires Valid() && created
      modifies this
      ensures Valid()
      ensures var from := Transcript.Min(resultIndex, |results|);
        && final == MergeFinals(old(final), Accumulate(Pick(results[from..], true)))
        && interim == Accumulate(Pick(results[from..], false))
      ensures live == LiveText(base, final, interim)
      ensures base == old(base) && isRecording == old(isRecording) && created == old(created)
      ensures timer == old(timer) && stopRequests == old(stopRequests)
    {
      var finals, interimPieces := CollectResults(results, resultIndex);
      if finals != [] {
        final := Join(NonEmpty([final, finals]), " ");
      }
      interim := interimPieces;
      live := LiveText(base, final, interim);
    }

    /** `onerror`: recording stops; the buffers stay. */
    method OnError()
      requires Valid() && created
      modifies this
      ensures Valid()
      ensures !isRecording
      ensures unchanged(this`base, this`final, this`interim)
      ensures created == old(created) && timer == old(timer) && stopRequests == old(stopRequests)
    {
      isRecording := false;
    }

    /**
     * `onend`: recording stops, any pending timer is cleared and exactly one
     * new timer is scheduled after `debounceMs`.
     */
    method OnEnd()
      requires Valid() && created
      modifies this
      ensures Valid()
      ensures !isRecording && timer == Some(debounceMs)
      ensures unchanged(this`base, this`final, this`interim)
      ensures created == old(created) && stopRequests == old(stopRequests)
    {
      isRecording := false;
      timer := None;
      timer := Some(debounceMs);
    }

    /** The pending timer is used up. */
    method DisarmTimer()
      requires Valid()
      modifies this`timer
      ensures Valid()
      ensures timer.None?
    {
      timer := None;
    }

    /**
     * The silence timer fires: the buffers as they are NOW are joined,
     * collapsed and trimmed, and `onFinalSubmit` runs only for non-empty text.
     */
    method TimerFires() returns (submitted: Option<string>)
      requires Valid() && timer.Some?
      modifies this`timer
      ensures Valid()
      ensures timer.None?
      ensures submitted == if SubmitText(base, final) == [] then None else Some(SubmitText(base, final))
    {
      DisarmTimer();
      var finalText := SubmitText(base, final);
      if |finalText| > 0 {
        submitted := Some(finalText);
      } else {
        submitted := None;
      }
    }

    /** `stop()`: asks an existing recogniser to stop; its `onend` follows later. */
    method Stop()
      requires Valid()
      modifies this
      ensures Valid()
      ensures stopRequests == if old(created) then old(stopRequests) + 1 else old(stopRequests)
      ensures created == old(created) && isRecording == old(isRecording) && timer == old(timer)
      ensures unchanged(this`base, this`final, this`interim)
    {
      if created {
        stopRequests := stopRequests + 1;
      }
    }

    /** `toggle(currentInput)`: start when idle, stop when recording; nothing without support. */
    method Toggle(currentInput: string, startThrows: bool)
      requires Valid()
      modifies this
      ensures Valid()
      ensures !supported ==> unchanged(this)
      ensures supported && !old(isRecording) ==>
        created && base == currentInput && final == [] && interim == [] && isRecording == !startThrows
        && stopRequests == old(stopRequests)
      ensures supported && old(isRecording) ==>
        isRecording && stopRequests == old(stopRequests) + 1
        && unchanged(this`base, this`final, this`interim)
      ensures timer == old(timer)
    {
      if !supported {
        return;
      }
      if !isRecording {
        Start(currentInput, startThrows);
      } else {
        Stop();
      }
    }
  }
}

/**
 * The speech-recognition hook without a debounce
 * (src/hooks/useSpeechRecognition.ts): the same buffers as the debounced
 * hook, but the session end submits at once, even when the text is empty.
 * The recogniser's callbacks are methods called by the environment; the
 * `onInterim` and `onFinalSubmit` arguments are method results.
 */
module SpeechRecognition {
  import opened Text
  import opened Transcript

  class RecognitionHook {
    /** A `SpeechRecognition` constructor exists. */
    const supported: bool

    /** `recognitionRef.current` has been created (and its handlers installed). */
    var created: bool
    var isRecording: bool
    var base: string
    var final: string
    var interim: string
    /** How many times `recognition.stop()` or `abort()` has been requested. */
    var stopRequests: nat

    ghost predicate Valid()
      reads this
    {
      (created ==> supported) && (isRecording ==> created)
    }

    constructor(supported: bool)
      ensures Valid()
      ensures this.supported == supported
      ensures !created && !isRecording && base == [] && final == [] && interim == [] && stopRequests == 0
    {
      this.supported := supported;
      created := false;
      isRecording := false;
      base, final, interim := [], [], [];
      stopRequests := 0;
    }

    /**
     * `start(currentInput)`: nothing without support; otherwise create the
     * recogniser once, reset the base buffer to the seed text, empty the
     * others and record whether `recognition.start()` succeeded.
     */
    method Start(currentInput: string, startThrows: bool)
      requires Valid()
      modifies this
      ensures Valid()
      ensures !supported ==> unchanged(this)
      ensures supported ==>
        && created && base == currentInput && final == [] && interim == []
        && isRecording == !startThrows && stopRequests == old(stopRequests)
    {
      if !supported {
        return;
      }
      created := true;
      base := currentInput;
      final := [];
      interim := [];
      isRecording := !startThrows;
    }

    /** `onresult`: as in the debounced hook. */
    method OnResult(results: seq<Result>, resultIndex: nat) returns (live: string)
      requires Valid() && created
      modifies this
      ensures Valid()
      ensures var from := Transcript.Min(resultIndex, |results|);
        && final == MergeFinals(old(final), Accumulate(Pick(results[from..], true)))
        && interim == Accumulate(Pick(results[from..], false))
      ensures live == LiveText(base, final, interim)
      ensures base == old(base) && isRecording == old(isRecording) && created == old(created)
      ensures stopRequests == old(stopRequests)
    {
      var finals, interimPieces := CollectResults(results, resultIndex);
      if finals != [] {
        final := Join(NonEmpty([final, finals]), " ");
      }
      interim := interimPieces;
      live := LiveText(base, final, interim);
    }

    /** `onerror`: recording stops; the buffers stay. */
    method OnError()
      requires Valid() && created
      modifies this
      ensures Valid()
      ensures !isRecording
      ensures unchanged(this`base, this`final, this`interim)
      ensures created == old(created) && stopRequests == old(stopRequests)
    {
      isRecording := false;
    }

    /** The first two steps of `onend`: recording stops and the interim buffer is cleared. */
    method EndSession()
      requires Valid() && created
      modifies this`isRecording, this`interim
      ensures Valid()
      ensures !isRecording && interim == []
    {
      isRecording := false;
      interim := [];
    }

    /**
     * `onend`: recording stops, the interim buffer is cleared, and
     * `onFinalSubmit` is called at once with the joined, collapsed and
     * trimmed base and final buffers, even when that text is empty.
     */
    method OnEnd() returns (submitted: string)
      requires Valid() && created
      modifies this`isRecording, this`interim
      ensures Valid()
      ensures !isRecording && interim == []
      ensures submitted == SubmitText(base, final)
    {
      EndSession();
      submitted := SubmitText(base, final);
    }

    /** `stop()` and `abort()`: ask an existing recogniser to stop; its `onend` follows later. */
    method Stop()
      requires Valid()
      modifies this
      ensures Valid()
      ensures stopRequests == if old(created) then old(stopRequests) + 1 else old(stopRequests)
      ensures created == old(created) && isRecording == old(isRecording)
      ensures unchanged(this`base, this`final, this`interim)
    {
      if created {
        stopRequests := stopRequests + 1;
      }
    }
  }
}

/**
  The microphone/question state machine of the `VoiceInterface` component
  (src/components/VoiceInterface.tsx). The React state `micState`,
  `transcript`, `response` and `isSpeaking` become fields of `Controller`.
  The browser recognizer, the `chat-interview` invocation, the toasts and the
  synthesizer become logs of the calls the controller makes on them, and
  what they report back becomes method arguments.
 */
module VoiceInterface {
  import opened Optional
  import opened SpeechPlayback

  datatype MicState = Idle | Listening | Processing

  /** A toast shown to the user (all of them use the destructive variant). */
  datatype Notice = Notice(title: string, description: string)

  /** A call made on the speech recognizer that returned normally. */
  datatype RecognizerCall = Start | Stop | Abort

  /**
    The `data` of an invocation. The empty string stands for a missing or
    falsy `error` / `answer` field.
   */
  datatype ReplyBody = ReplyBody(error: string, answer: string)

  /**
    The `{ data, error }` pair `supabase.functions.invoke` resolves to.
    `error` is the transport error's `message` ("" when it has none).
   */
  datatype InvokeReply = InvokeReply(error: Option<string>, data: Option<ReplyBody>)

  /** What `handleQuestion` makes of a reply: an answer to show, or a failure message. */
  datatype Outcome = Answered(answer: string) | Failed(message: string)

  const NotSupported := Notice("Not supported", "Speech recognition is not supported in your browser. Please use text input.")
  const NoSpeech := Notice("No speech detected", "Please try again and speak clearly.")
  const RecognitionError := Notice("Recognition error", "Please try again or use text input.")
  const DefaultFailure := "Failed to get response. Please try again."
  const NoResponse := "No response received"

  /** The try block of `handleQuestion`: which reply counts as an answer and which message a failure reports. */
  function ClassifyReply(reply: InvokeReply): (o: Outcome)
    ensures o.Answered? <==>
              reply.error.None? && reply.data.Some? && reply.data.value.error == "" && reply.data.value.answer != ""
    ensures o.Answered? ==> o.answer == reply.data.value.answer && o.answer != ""
    ensures o.Failed? ==> o.message != ""
    ensures reply.error.Some? ==>
              o == Failed(if reply.error.value == "" then DefaultFailure else reply.error.value)
    ensures reply.error.None? && reply.data.Some? && reply.data.value.error != "" ==>
              o == Failed(reply.data.value.error)
    ensures reply.error.None? && (reply.data.None? || (reply.data.value.error == "" && reply.data.value.answer == "")) ==>
              o == Failed(NoResponse)
  {
    match reply.error
    case Some(message) => Failed(if message == "" then DefaultFailure else message)
    case None =>
      match reply.data
      case None => Failed(NoResponse)
      case Some(body) =>
        if body.error != "" then Failed(body.error)
        else if body.answer == "" then Failed(NoResponse)
        else Answered(body.answer)
  }

  /** The toast `onerror` shows for a recognizer error code. */
  function RecognitionNotice(code: string): (n: Notice)
    ensures n == NoSpeech <==> code == "no-speech"
    ensures n == RecognitionError <==> code != "no-speech"
  {
    if code == "no-speech" then NoSpeech else RecognitionError
  }

  class Controller {
    /** Whether the browser offers a speech recognizer (probed once, at mount). */
    const recognizerPresent: bool
    /** Whether `window.speechSynthesis` exists. */
    const synthesizerPresent: bool

    var micState: MicState
    var transcript: string
    var response: string
    var isSpeaking: bool

    /** Toasts shown, oldest first. */
    var notices: seq<Notice>
    /** Questions sent to the `chat-interview` function, oldest first. */
    var invocations: seq<string>
    var recognizerCalls: seq<RecognizerCall>
    var synthCalls: seq<SynthCall>
    /**
      The utterances whose 300 ms `setTimeout` has been scheduled but has not
      fired yet, in the order they fire (all delays are equal).
     */
    var speechTimers: seq<Utterance>
    /** Whether the component is still mounted; the cleanup ends it. */
    var mounted: bool

    /** The first render, before any event. */
    constructor (recognizerPresent: bool, synthesizerPresent: bool)
      ensures this.recognizerPresent == recognizerPresent && this.synthesizerPresent == synthesizerPresent
      ensures micState == Idle && transcript == "" && response == "" && !isSpeaking
      ensures notices == [] && invocations == [] && recognizerCalls == [] && synthCalls == [] && speechTimers == []
      ensures mounted
    {
      this.recognizerPresent := recognizerPresent;
      this.synthesizerPresent := synthesizerPresent;
      micState := Idle;
      transcript := "";
      response := "";
      isSpeaking := false;
      notices := [];
      invocations := [];
      recognizerCalls := [];
      synthCalls := [];
      speechTimers := [];
      mounted := true;
    }

    /** `startListening`; `startThrows` says whether the recognizer's `start()` throws. */
    method StartListening(startThrows: bool)
      modifies this
      ensures !recognizerPresent ==>
                micState == old(micState) && transcript == old(transcript) && response == old(response) &&
                notices == old(notices) + [NotSupported] && recognizerCalls == old(recognizerCalls)
      ensures recognizerPresent ==>
                micState == (if startThrows then Idle else Listening) && transcript == "" && response == "" &&
                notices == old(notices) &&
                recognizerCalls == old(recognizerCalls) + (if startThrows then [] else [Start])
      ensures isSpeaking == old(isSpeaking) && invocations == old(invocations) && synthCalls == old(synthCalls)
      ensures speechTimers == old(speechTimers)
      ensures mounted == old(mounted)
    {
      if !recognizerPresent {
        notices := notices + [NotSupported];
        return;
      }
      micState := Listening;
      transcript := "";
      response := "";
      if startThrows {
        micState := Idle;
      } else {
        recognizerCalls := recognizerCalls + [Start];
      }
    }

    /** `stopListening`. */
    method StopListening()
      modifies this
      ensures micState == Idle
      ensures recognizerCalls == old(recognizerCalls) + (if recognizerPresent then [Stop] else [])
      ensures transcript == old(transcript) && response == old(response) && isSpeaking == old(isSpeaking)
      ensures notices == old(notices) && invocations == old(invocations) && synthCalls == old(synthCalls)
      ensures speechTimers == old(speechTimers)
      ensures mounted == old(mounted)
    {
      if recognizerPresent {
        recognizerCalls := recognizerCalls + [Stop];
      }
      micState := Idle;
    }

    /** `toggleMic`, the microphone button's click handler. */
    method ToggleMic(startThrows: bool)
      modifies this
      ensures old(micState) == Idle ==>
                (if recognizerPresent then
                   micState == (if startThrows then Idle else Listening) && transcript == "" && response == "" &&
                   notices == old(notices) && recognizerCalls == old(recognizerCalls) + (if startThrows then [] else [Start])
                 else
                   micState == Idle && transcript == old(transcript) && response == old(response) &&
                   notices == old(notices) + [NotSupported] && recognizerCalls == old(recognizerCalls))
      ensures old(micState) == Listening ==>
                micState == Idle && transcript == old(transcript) && response == old(response) &&
                notices == old(notices) &&
                recognizerCalls == old(recognizerCalls) + (if recognizerPresent then [Stop] else [])
      ensures old(micState) == Processing ==>
                micState == Processing && transcript == old(transcript) && response == old(response) &&
                notices == old(notices) && recognizerCalls == old(recognizerCalls)
      ensures isSpeaking == old(isSpeaking) && invocations == old(invocations) && synthCalls == old(synthCalls)
      ensures speechTimers == old(speechTimers)
      ensures mounted == old(mounted)
    {
      if micState == Idle {
        StartListening(startThrows);
      } else if micState == Listening {
        StopListening();
      }
    }

    /**
      The part of `handleQuestion` that runs before its `await`: enter
      `Processing` and send the question. The method does not look at the
      current state, so it also runs while a question is processing.
     */
    method HandleQuestion(question: string)
      modifies this
      ensures micState == Processing
      ensures invocations == old(invocations) + [question]
      ensures transcript == old(transcript) && response == old(response) && isSpeaking == old(isSpeaking)
      ensures notices == old(notices) && recognizerCalls == old(recognizerCalls) && synthCalls == old(synthCalls)
      ensures speechTimers == old(speechTimers)
      ensures mounted == old(mounted)
    {
      micState := Processing;
      invocations := invocations + [question];
    }

    /**
      `speakResponse`: with no synthesizer it does nothing; otherwise it
      cancels what is playing at once and schedules the utterance of `text`,
      which `FireSpeechTimer` queues 300 ms later.
     */
    method SpeakResponse(text: string, voices: seq<Voice>)
      modifies this
      ensures synthCalls == old(synthCalls) + (if synthesizerPresent then [Cancel] else [])
      ensures speechTimers == old(speechTimers) + (if synthesizerPresent then [NewUtterance(text, voices)] else [])
      ensures synthesizerPresent ==> Queued(synthCalls) == []
      ensures micState == old(micState) && transcript == old(transcript) && response == old(response)
      ensures isSpeaking == old(isSpeaking) && notices == old(notices)
      ensures invocations == old(invocations) && recognizerCalls == old(recognizerCalls)
      ensures mounted == old(mounted)
    {
      if synthesizerPresent {
        synthCalls := synthCalls + [Cancel];
        speechTimers := speechTimers + [NewUtterance(text, voices)];
      }
    }

    /**
      The oldest pending `setTimeout` of `speakResponse` fires and calls
      `speak` on its utterance. Nothing cancels the timer first, and the
      unmount cleanup does not clear it.
     */
    method FireSpeechTimer()
      requires speechTimers != []
      modifies this
      ensures synthCalls == old(synthCalls) + [Enqueue(old(speechTimers)[0])]
      ensures speechTimers == old(speechTimers)[1..]
      ensures Queued(synthCalls) == Queued(old(synthCalls)) + [old(speechTimers)[0]]
      ensures micState == old(micState) && transcript == old(transcript) && response == old(response)
      ensures isSpeaking == old(isSpeaking) && notices == old(notices)
      ensures invocations == old(invocations) && recognizerCalls == old(recognizerCalls)
      ensures mounted == old(mounted)
    {
      var u := speechTimers[0];
      QueuedAfterEnqueue(synthCalls, u);
      synthCalls := synthCalls + [Enqueue(u)];
      speechTimers := speechTimers[1..];
    }

    /**
      The timer step as evidently intended: the speak is preceded by its own
      cancel, so a newer answer supersedes an older one even when their
      timers overlap.
     */
    method FireSpeechTimerWithCancel()
      requires speechTimers != []
      modifies this
      ensures synthCalls == old(synthCalls) + CancelThenSpeak(old(speechTimers)[0])
      ensures speechTimers == old(speechTimers)[1..]
      ensures Queued(synthCalls) == [old(speechTimers)[0]]
      ensures micState == old(micState) && transcript == old(transcript) && response == old(response)
      ensures isSpeaking == old(isSpeaking) && notices == old(notices)
      ensures invocations == old(invocations) && recognizerCalls == old(recognizerCalls)
      ensures mounted == old(mounted)
    {
      var u := speechTimers[0];
      CancelThenSpeakSupersedes(synthCalls, u);
      synthCalls := synthCalls + CancelThenSpeak(u);
      speechTimers := speechTimers[1..];
    }

    /**
      The continuation of `handleQuestion` once `invoke` resolves to `reply`;
      `voices` is what `getVoices()` returns at that moment. An answer is
      shown and its speech scheduled; a failure is reported in a toast and
      leaves the response as it was. Either way the state returns to `Idle`.
     */
    method ResolveQuestion(reply: InvokeReply, voices: seq<Voice>)
      modifies this
      ensures micState == Idle
      ensures ClassifyReply(reply).Answered? ==>
                response == ClassifyReply(reply).answer && notices == old(notices) &&
                synthCalls == old(synthCalls) + (if synthesizerPresent then [Cancel] else []) &&
                speechTimers == old(speechTimers) + (if synthesizerPresent then [NewUtterance(response, voices)] else [])
      ensures ClassifyReply(reply).Failed? ==>
                response == old(response) && synthCalls == old(synthCalls) && speechTimers == old(speechTimers) &&
                notices == old(notices) + [Notice("Error", ClassifyReply(reply).message)]
      ensures transcript == old(transcript) && isSpeaking == old(isSpeaking)
      ensures invocations == old(invocations) && recognizerCalls == old(recognizerCalls)
      ensures mounted == old(mounted)
    {
      match ClassifyReply(reply) {
        case Answered(answer) =>
          response := answer;
          SpeakResponse(answer, voices);
        case Failed(message) =>
          notices := notices + [Notice("Error", message)];
      }
      micState := Idle;
    }

    /**
      The continuation of `handleQuestion` as evidently intended: a reply
      that arrives after unmount is dropped, so it neither schedules speech
      nor changes the state. While mounted it is `ResolveQuestion`.
     */
    method ResolveQuestionIfMounted(reply: InvokeReply, voices: seq<Voice>)
      modifies this
      ensures old(mounted) ==>
                micState == Idle &&
                (ClassifyReply(reply).Answered? ==>
                   response == ClassifyReply(reply).answer && notices == old(notices) &&
                   synthCalls == old(synthCalls) + (if synthesizerPresent then [Cancel] else []) &&
                   speechTimers == old(speechTimers) + (if synthesizerPresent then [NewUtterance(response, voices)] else [])) &&
                (ClassifyReply(reply).Failed? ==>
                   response == old(response) && synthCalls == old(synthCalls) && speechTimers == old(speechTimers) &&
                   notices == old(notices) + [Notice("Error", ClassifyReply(reply).message)])
      ensures !old(mounted) ==>
                micState == old(micState) && response == old(response) && notices == old(notices) &&
                synthCalls == old(synthCalls) && speechTimers == old(speechTimers)
      ensures transcript == old(transcript) && isSpeaking == old(isSpeaking)
      ensures invocations == old(invocations) && recognizerCalls == old(recognizerCalls)
      ensures mounted == old(mounted)
    {
      if mounted {
        ResolveQuestion(reply, voices);
      }
    }

    /** The recognizer's `onresult`: show the recognized text and ask it, whatever it is. */
    method OnResult(speechResult: string)
      requires recognizerPresent
      modifies this
      ensures transcript == speechResult && micState == Processing
      ensures invocations == old(invocations) + [speechResult]
      ensures response == old(response) && isSpeaking == old(isSpeaking)
      ensures notices == old(notices) && recognizerCalls == old(recognizerCalls) && synthCalls == old(synthCalls)
      ensures speechTimers == old(speechTimers)
      ensures mounted == old(mounted)
    {
      transcript := speechResult;
      HandleQuestion(speechResult);
    }

    /** The recognizer's `onerror` for error code `code`. */
    method OnError(code: string)
      requires recognizerPresent
      modifies this
      ensures micState == Idle
      ensures notices == old(notices) + [RecognitionNotice(code)]
      ensures transcript == old(transcript) && response == old(response) && isSpeaking == old(isSpeaking)
      ensures invocations == old(invocations) && recognizerCalls == old(recognizerCalls) && synthCalls == old(synthCalls)
      ensures speechTimers == old(speechTimers)
      ensures mounted == old(mounted)
    {
      micState := Idle;
      notices := notices + [RecognitionNotice(code)];
    }

    /**
      The recognizer's `onend`. Its guard reads `micState` through the closure
      made at mount, so `observed` is the state that closure sees, not the
      current one. In the running component it is always `Idle` (the first
      render's value) and the handler never changes anything.
     */
    method OnEnd(observed: MicState)
      requires recognizerPresent
      modifies this
      ensures micState == (if observed == Listening then Idle else old(micState))
      ensures observed == Idle ==> micState == old(micState)
      ensures transcript == old(transcript) && response == old(response) && isSpeaking == old(isSpeaking)
      ensures notices == old(notices) && invocations == old(invocations)
      ensures recognizerCalls == old(recognizerCalls) && synthCalls == old(synthCalls)
      ensures speechTimers == old(speechTimers)
      ensures mounted == old(mounted)
    {
      if observed == Listening {
        micState := Idle;
      }
    }

    /** The effect run when the `externalQuestion` prop changes to `question`. */
    method OnExternalQuestion(question: string)
      modifies this
      ensures question == "" ==>
                micState == old(micState) && transcript == old(transcript) && invocations == old(invocations)
      ensures question != "" ==>
                micState == Processing && transcript == question && invocations == old(invocations) + [question]
      ensures response == old(response) && isSpeaking == old(isSpeaking)
      ensures notices == old(notices) && recognizerCalls == old(recognizerCalls) && synthCalls == old(synthCalls)
      ensures speechTimers == old(speechTimers)
      ensures mounted == old(mounted)
    {
      if question != "" {
        transcript := question;
        HandleQuestion(question);
      }
    }

    /** An utterance's `onstart`. */
    method OnSpeechStart()
      modifies this`isSpeaking
      ensures isSpeaking
    {
      isSpeaking := true;
    }

    /** An utterance's `onend` or `onerror`: both clear the speaking flag. */
    method OnSpeechFinished()
      modifies this`isSpeaking
      ensures !isSpeaking
    {
      isSpeaking := false;
    }

    /**
      The mount effect's cleanup: abort recognition and cancel speech. It
      leaves the pending speech timers alone, so an utterance scheduled
      shortly before is still queued when its timer fires, and it does not
      stop a `handleQuestion` still waiting for its reply.
     */
    method Unmount()
      modifies this
      ensures !mounted
      ensures recognizerCalls == old(recognizerCalls) + (if recognizerPresent then [Abort] else [])
      ensures synthCalls == old(synthCalls) + (if synthesizerPresent then [Cancel] else [])
      ensures synthesizerPresent ==> Queued(synthCalls) == []
      ensures speechTimers == old(speechTimers)
      ensures micState == old(micState) && transcript == old(transcript) && response == old(response)
      ensures isSpeaking == old(isSpeaking) && notices == old(notices) && invocations == old(invocations)
    {
      if recognizerPresent {
        recognizerCalls := recognizerCalls + [Abort];
      }
      if synthesizerPresent {
        synthCalls := synthCalls + [Cancel];
      }
      mounted := false;
    }

    /**
      The cleanup as evidently intended: besides aborting and cancelling, it
      clears the pending speech timers, so no timer set before unmount fires.
      Together with `ResolveQuestionIfMounted`, nothing is spoken after it.
     */
    method UnmountClearingTimers()
      modifies this
      ensures !mounted
      ensures recognizerCalls == old(recognizerCalls) + (if recognizerPresent then [Abort] else [])
      ensures synthCalls == old(synthCalls) + (if synthesizerPresent then [Cancel] else [])
      ensures synthesizerPresent ==> Queued(synthCalls) == []
      ensures speechTimers == []
      ensures micState == old(micState) && transcript == old(transcript) && response == old(response)
      ensures isSpeaking == old(isSpeaking) && notices == old(notices) && invocations == old(invocations)
    {
      Unmount();
      speechTimers := [];
    }
  }
}

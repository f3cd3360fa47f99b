/** Sequences of events, checked against the controller's contracts alone. */
module VoiceScenarios {
  import opened Optional
  import opened SpeechPlayback
  import opened VoiceInterface

  /** A spoken question answered: the answer is shown and, once its timer fires, is the one utterance queued. */
  method SpokenQuestionAnswered(voices: seq<Voice>) {
    var c := new Controller(true, true);
    c.ToggleMic(false);
    assert c.micState == Listening && c.recognizerCalls == [Start];
    c.OnResult("What's your #1 superpower?");
    assert c.micState == Processing && c.invocations == ["What's your #1 superpower?"];
    c.OnEnd(Idle);
    assert c.micState == Processing;
    c.ResolveQuestion(InvokeReply(None, Some(ReplyBody("", "Execution speed."))), voices);
    assert c.micState == Idle && c.response == "Execution speed.";
    assert Queued(c.synthCalls) == [] && c.speechTimers == [NewUtterance("Execution speed.", voices)];
    c.FireSpeechTimer();
    assert Queued(c.synthCalls) == [NewUtterance("Execution speed.", voices)];
  }

  /** Without a recognizer the mic only shows a notice; nothing is sent. */
  method NoRecognizer() {
    var c := new Controller(false, true);
    c.ToggleMic(false);
    assert c.micState == Idle && c.notices == [NotSupported] && c.invocations == [];
  }

  /**
    Two overlapping questions whose replies land within 300 ms of each other:
    the reply that lands last decides the response, and both answers end up
    queued for speech.
   */
  method LastReplyWins(voices: seq<Voice>) {
    var c := new Controller(true, true);
    c.OnExternalQuestion("first");
    c.OnExternalQuestion("second");
    assert c.invocations == ["first", "second"];
    c.ResolveQuestion(InvokeReply(None, Some(ReplyBody("", "answer to second"))), voices);
    c.ResolveQuestion(InvokeReply(None, Some(ReplyBody("", "answer to first"))), voices);
    assert c.transcript == "second" && c.response == "answer to first";
    var u2, u1 := NewUtterance("answer to second", voices), NewUtterance("answer to first", voices);
    assert Queued(c.synthCalls) == [] && c.speechTimers == [u2, u1];
    c.FireSpeechTimer();
    assert Queued(c.synthCalls) == [u2] && c.speechTimers == [u1];
    c.FireSpeechTimer();
    assert Queued(c.synthCalls) == [u2, u1];
  }

  /** The same replies when each timer cancels before it speaks: only the last answer stays queued. */
  method LastReplyWinsWithCancel(voices: seq<Voice>) {
    var c := new Controller(true, true);
    c.OnExternalQuestion("first");
    c.OnExternalQuestion("second");
    c.ResolveQuestion(InvokeReply(None, Some(ReplyBody("", "answer to second"))), voices);
    c.ResolveQuestion(InvokeReply(None, Some(ReplyBody("", "answer to first"))), voices);
    var u2, u1 := NewUtterance("answer to second", voices), NewUtterance("answer to first", voices);
    assert c.speechTimers == [u2, u1];
    c.FireSpeechTimerWithCancel();
    assert c.speechTimers == [u1];
    c.FireSpeechTimerWithCancel();
    assert Queued(c.synthCalls) == [u1];
  }

  /** An answer that arrives just before unmount is still spoken when its timer fires. */
  method SpeechAfterUnmount(voices: seq<Voice>) {
    var c := new Controller(true, true);
    c.OnExternalQuestion("q");
    c.ResolveQuestion(InvokeReply(None, Some(ReplyBody("", "a"))), voices);
    c.Unmount();
    assert Queued(c.synthCalls) == [] && c.speechTimers != [];
    c.FireSpeechTimer();
    assert Queued(c.synthCalls) == [NewUtterance("a", voices)];
  }

  /** A reply that arrives after unmount still schedules its answer, and the timer speaks it. */
  method LateReplyAfterUnmount(voices: seq<Voice>) {
    var c := new Controller(true, true);
    c.OnExternalQuestion("q");
    c.UnmountClearingTimers();
    c.ResolveQuestion(InvokeReply(None, Some(ReplyBody("", "late"))), voices);
    assert !c.mounted && c.speechTimers == [NewUtterance("late", voices)];
    c.FireSpeechTimer();
    assert Queued(c.synthCalls) == [NewUtterance("late", voices)];
  }

  /**
    With the timers cleared at unmount and late replies dropped, nothing is
    left to fire and the synthesizer gets nothing after the cleanup's cancel.
   */
  method SilentAfterUnmount(voices: seq<Voice>) {
    var c := new Controller(true, true);
    c.OnExternalQuestion("q1");
    c.ResolveQuestion(InvokeReply(None, Some(ReplyBody("", "a"))), voices);
    c.OnExternalQuestion("q2");
    c.UnmountClearingTimers();
    var log := c.synthCalls;
    assert Queued(log) == [] && c.speechTimers == [];
    c.ResolveQuestionIfMounted(InvokeReply(None, Some(ReplyBody("", "late"))), voices);
    assert c.synthCalls == log && c.speechTimers == [];
  }

  /** A failed invocation keeps the previous response and reports the error. */
  method FailureKeepsResponse(voices: seq<Voice>) {
    var c := new Controller(true, true);
    c.OnExternalQuestion("q");
    c.ResolveQuestion(InvokeReply(None, Some(ReplyBody("", "a"))), voices);
    c.OnExternalQuestion("q2");
    c.ResolveQuestion(InvokeReply(Some(""), None), voices);
    assert c.response == "a" && c.micState == Idle;
    assert c.notices == [Notice("Error", DefaultFailure)];
  }
}

# Voice interview assistant: controller, question box and answer function

This project models the decision logic of a voice-driven interview assistant.
A user speaks or types a question, the question goes to the `chat-interview`
edge function, and that function asks a hosted language model for an answer.
The answer is shown and read aloud.

Three pieces are modelled:

- **The microphone/question controller** (`VoiceInterface`, src/components/VoiceInterface.tsx).
  It is the class `VoiceInterface.Controller`. Its fields are the component's
  state: `micState` (Idle, Listening or Processing), `transcript`, `response`
  and `isSpeaking`. There is a method per event: the mic button, the
  recognizer's `onresult`/`onerror`/`onend`, the external-question effect, the
  invocation's reply, the firing of a speech timer and the utterance
  callbacks. The controller's calls on its collaborators are recorded in
  four logs, one per collaborator: the toasts shown, the questions sent to
  `chat-interview`, the calls on the recognizer, and the calls on the
  synthesizer. A fifth field, `speechTimers`, holds the utterances whose
  300 ms `setTimeout` is still pending; `FireSpeechTimer` is the event of
  the oldest one firing. `FireSpeechTimerWithCancel` and
  `UnmountClearingTimers` and `ResolveQuestionIfMounted` are the corrected
  forms of three events (see "## Findings"); the code as written is
  `FireSpeechTimer`, `Unmount` and `ResolveQuestion`. The field `mounted`
  records whether the cleanup has run; only the corrected handler reads it.
  What the collaborators report back is passed in as arguments: whether a
  recognizer exists, whether `start()` threw, the `{ data, error }` reply, the error code and
  the voice list. `handleQuestion` is split at its `await`.
  `HandleQuestion` is the part that runs before it: enter Processing and
  send the question. `ResolveQuestion` is the continuation: classify the
  reply, show and speak the answer or report the failure, return to Idle.
  With the split, overlapping questions can be played out in any order of
  replies; `voice_scenarios.dfy` plays a few of them.
- **Speech playback** (module `SpeechPlayback`, the pure part of `speakResponse`).
  It covers the voice-selection rule, the fixed utterance settings (rate
  0.95, pitch 1.0, volume 1.0) and `Queued`, which reads the synthesizer log
  and gives the utterances enqueued since the last cancel, finished or not
  (when an utterance finishes is up to the synthesizer and is not modelled). `speakResponse` cancels at once but
  speaks 300 ms later, so the cancel does not always precede the speak it
  was meant to guard: see "## Findings".
- **The typed-question box** (`TextInput`, src/components/TextInput.tsx): the
  class `TextInput.Field`, with one field `inputText`.
- **The `chat-interview` handler** (supabase/functions/chat-interview/index.ts):
  the pure function `ChatInterview.Serve`. The handler awaits several
  results, and each is an argument: the request body, whether the API key
  is configured, the gateway's reply and that reply's JSON. The function
  maps them to an HTTP status, headers and a JSON body.

`Text` models the JavaScript string built-ins the code relies on: `trim`,
`includes`, `startsWith`, and the case-insensitive match of a `/word/i`
pattern. Whitespace is the ASCII set (space, tab, line feed, carriage
return, vertical tab, form feed). Case folding covers ASCII letters only.
The empty string stands for JavaScript's falsy or missing string values:
a missing `question`, `answer`, `data.error` or error `message`.

Behaviour one might expect that the code does not have:

- A failed question does not store a fallback apology answer. `response` keeps its previous value, and a toast shows the failure message.
- A recognized result is sent as it is, even when it is empty after trimming. The external-question effect skips only the empty string.
- `handleQuestion` does not check `micState`. A question that arrives while another is processing is sent too. The last reply to arrive sets `response`, because requests carry no correlation id.
- Recognizer errors are classified into two kinds only: `no-speech` and everything else. There is no separate permission-denied message.
- The speaking rate is fixed at 0.95. It is not taken from the set 0.75/1.0/1.25.
- The answer function moderates content itself: it checks the question for four keywords.

The recognizer's `onend` handler has a stale closure. The handler is created
once, at mount, so its `micState === 'listening'` guard reads the first
render's state, which is always `'idle'`. `Controller.OnEnd` models the
guard as written, with the state the closure sees passed in as `observed`.
Its contract adds that with `observed == Idle`, the value seen at runtime,
it changes nothing.

## Model

| member | source | states |
|---|---|---|
| `VoiceInterface.Controller.constructor` | src/components/VoiceInterface.tsx:19-22 | The first render is Idle with an empty transcript and response, not speaking, mounted, with no pending speech timer and all call logs empty. |
| `VoiceInterface.Controller.ToggleMic` | src/components/VoiceInterface.tsx:215-221 | From Idle, the result is startListening's. From Listening, the state ends Idle and the recognizer gets `stop()`. From Processing, nothing changes. The recognizer is only ever started from Idle. |
| `VoiceInterface.Controller.StartListening` | src/components/VoiceInterface.tsx:97-118 | With no recognizer, the only change is a "Not supported" toast. With one, the transcript and response are cleared. The state then ends Listening and one `start()` is logged, or it ends Idle if `start()` threw. |
| `VoiceInterface.Controller.StopListening` | src/components/VoiceInterface.tsx:120-125 | Ends Idle whatever the prior state. `stop()` is logged only when a recognizer exists. Nothing else changes. |
| `VoiceInterface.Controller.HandleQuestion` | src/components/VoiceInterface.tsx:127-135 | Enters Processing from any state and sends exactly one invocation carrying the question. Nothing else changes. |
| `VoiceInterface.ClassifyReply` | src/components/VoiceInterface.tsx:137-158 | A reply is an answer exactly when there is no transport error, no `data.error` and a non-empty answer. Otherwise the failure message is chosen in order: the transport error's message, or the default text when it has none; then `data.error`; then "No response received". The message is never empty. |
| `VoiceInterface.Controller.ResolveQuestion` | src/components/VoiceInterface.tsx:137-163 | Always ends Idle. On an answer, `response` becomes the answer and, if a synthesizer exists, one cancel is logged and the answer's utterance is scheduled. On a failure, `response` is unchanged, an "Error" toast carries the message, and nothing is cancelled or scheduled. |
| `VoiceInterface.Controller.SpeakResponse` | src/components/VoiceInterface.tsx:166-212 | With no synthesizer, nothing happens. Otherwise one cancel is logged at once, so nothing is queued, and the new utterance is scheduled behind any pending ones. |
| `VoiceInterface.Controller.FireSpeechTimer` | src/components/VoiceInterface.tsx:210-212 | The oldest pending timer fires: its utterance is spoken with no cancel before it, so it is queued behind whatever is still queued, and it leaves the pending list. |
| `VoiceInterface.Controller.FireSpeechTimerWithCancel` | src/components/VoiceInterface.tsx:172-173 | Corrected timer step: the oldest pending utterance is spoken right after its own cancel, and afterwards it is the only utterance queued. |
| `VoiceInterface.Controller.OnResult` | src/components/VoiceInterface.tsx:51-56 | The recognized text becomes the transcript and is sent as the question. The state becomes Processing. |
| `VoiceInterface.RecognitionNotice` | src/components/VoiceInterface.tsx:62-74 | "No speech detected" exactly for the code `no-speech`, and "Recognition error" exactly for every other code. |
| `VoiceInterface.Controller.OnError` | src/components/VoiceInterface.tsx:58-75 | Always ends Idle. Adds the code's toast and changes nothing else. |
| `VoiceInterface.Controller.OnEnd` | src/components/VoiceInterface.tsx:77-81 | Goes to Idle only when the state the closure sees is Listening. With the mount-time `Idle` it sees at runtime, nothing changes. |
| `VoiceInterface.Controller.OnExternalQuestion` | src/components/VoiceInterface.tsx:28-34 | An empty question does nothing. Otherwise the question becomes the transcript and is sent, and the state becomes Processing. |
| `VoiceInterface.Controller.OnSpeechStart` | src/components/VoiceInterface.tsx:194-197 | Sets the speaking flag. |
| `VoiceInterface.Controller.OnSpeechFinished` | src/components/VoiceInterface.tsx:199-207 | Both the end and the error of an utterance clear the speaking flag. |
| `VoiceInterface.Controller.Unmount` | src/components/VoiceInterface.tsx:87-94 | Aborts the recognizer and cancels speech, each where it exists, so nothing is queued right afterwards, and the component is unmounted. The pending speech timers are left as they are. |
| `VoiceInterface.Controller.UnmountClearingTimers` | src/components/VoiceInterface.tsx:87-94 | Corrected cleanup: as Unmount (the component is then unmounted), and no speech timer is left pending, so no timer set before unmount fires. |
| `VoiceInterface.Controller.ResolveQuestionIfMounted` | src/components/VoiceInterface.tsx:137-163 | Corrected continuation: while mounted it does what ResolveQuestion does; after unmount it changes nothing, so neither the synthesizer log nor the pending timers grow. With UnmountClearingTimers, nothing is spoken after unmount. |
| `SpeechPlayback.FindIndex` | src/components/VoiceInterface.tsx:179-184 | `find` gives the first position that satisfies the test, or none exactly when no voice satisfies it. |
| `SpeechPlayback.Find` | src/components/VoiceInterface.tsx:179-184 | `find` gives none exactly when no voice satisfies the test, and otherwise the voice at the first position that does. |
| `SpeechPlayback.HasPreferredName` | src/components/VoiceInterface.tsx:179-183 | A voice is preferred exactly when one of Female, Samantha, Karen or Victoria occurs in its name, case-sensitively. |
| `SpeechPlayback.SelectVoice` | src/components/VoiceInterface.tsx:178-188 | The chosen voice is one of the list. If any voice's name contains Female, Samantha, Karen or Victoria, it is the first such voice. Otherwise it is the first voice whose lang starts with "en". There is no voice exactly when neither kind exists. |
| `SpeechPlayback.NewUtterance` | src/components/VoiceInterface.tsx:175-192 | The utterance speaks the given text with the selected voice at rate 0.95, pitch 1.0 and volume 1.0. |
| `SpeechPlayback.Queued` | src/components/VoiceInterface.tsx:172-173 | The queue is never longer than the log, holds only utterances the log enqueued, is empty right after a cancel, and ends with the utterance of the last call when it is not empty. |
| `SpeechPlayback.OverlappingAnswersQueueBoth` | src/components/VoiceInterface.tsx:172-173 | After any history, two cancels followed by two speaks leave both utterances queued, in order. A cancel (the cleanup's) followed by a speak leaves that utterance queued. |
| `SpeechPlayback.CancelThenSpeak` | src/components/VoiceInterface.tsx:172-173 | Corrected playback step: two calls, ending with speaking the utterance, where every speak comes straight after a cancel. |
| `SpeechPlayback.CancelThenSpeakSupersedes` | src/components/VoiceInterface.tsx:172-173 | After a cancel-then-speak step, whatever was queued before, only its utterance is queued. |
| `SpeechPlayback.AtMostOneQueued` | src/components/VoiceInterface.tsx:172-173 | In any log where every speak comes straight after a cancel, at most one utterance is queued, and it is the last one spoken when the log ends with a speak. |
| `Text.Trim` | src/components/TextInput.tsx:15-16 | The result is the input with whitespace removed at both ends: it sits inside the input with only whitespace around it, and it has no whitespace at either end. It is empty exactly when the input is all whitespace. |
| `Text.TrimIdempotent` | src/components/TextInput.tsx:16 | Trimming a trimmed string changes nothing. |
| `Text.Contains` | src/components/VoiceInterface.tsx:180-183 | `includes` is true exactly when the pattern occurs at some position of the string. |
| `Text.StartsWith` | src/components/VoiceInterface.tsx:184 | `startsWith` is true exactly when the prefix occurs at position 0; then the string agrees with it character by character. |
| `Text.Lower` | supabase/functions/chat-interview/index.ts:87-88 | Lower-casing keeps the length, leaves no ASCII capital, maps each capital to its lower-case letter and keeps every other character. |
| `Text.LowerIdempotent` | supabase/functions/chat-interview/index.ts:87-88 | Lower-casing a lower-cased string changes nothing. |
| `Text.MatchesIgnoringCase` | supabase/functions/chat-interview/index.ts:87-88 | A `/word/i` test is true exactly when the lower-case word occurs somewhere in the lower-cased string. |
| `TextInput.Field.constructor` | src/components/TextInput.tsx:12 | The field starts empty. |
| `TextInput.SubmitsOnKey` | src/components/TextInput.tsx:22 | Only Enter submits, never with Shift held, and a plain Enter always does. |
| `TextInput.Submission` | src/components/TextInput.tsx:14-16 | Something is submitted exactly when the text is not all whitespace. What is submitted is the trimmed text: non-empty, with no whitespace at either end, a fixed point of trim, and found inside the original between runs of whitespace. |
| `TextInput.Field.HandleSubmit` | src/components/TextInput.tsx:14-19 | `onSubmit` is called exactly when the trimmed input is non-empty, and its argument is the trimmed input. The field is then empty; when nothing is submitted it is unchanged. |
| `TextInput.Field.HandleKeyDown` | src/components/TextInput.tsx:21-26 | A plain Enter (no Shift) suppresses the new line and submits as handleSubmit does. Shift+Enter and every other key submit nothing and leave the field unchanged. |
| `TextInput.Field.OnChange` | src/components/TextInput.tsx:32 | The field takes the new value unchanged. |
| `TextInput.Field.SendDisabled` | src/components/TextInput.tsx:41 | The send button is disabled exactly when the parent disables it or the input is all whitespace. When it is enabled, a submission is available. |
| `ChatInterview.SomePatternMatches` | supabase/functions/chat-interview/index.ts:83-89 | `some` over `/word/i` patterns is true exactly when one of the words occurs, ignoring ASCII case, somewhere in the question. |
| `ChatInterview.HasDisallowedContent` | supabase/functions/chat-interview/index.ts:82-89 | The check is true exactly when the question mentions illegal, violence, self-harm or explicit in any letter case. |
| `ChatInterview.Ok` | supabase/functions/chat-interview/index.ts:54 | A status is ok exactly when it is in 200-299, the Fetch standard's `response.ok`; so 200 is, and 429, 402 and 500 are not. |
| `ChatInterview.Failure` | supabase/functions/chat-interview/index.ts:107-112 | The catch block answers 500 with `{ error: message }`, the CORS headers and a JSON content type. |
| `ChatInterview.Serve` | supabase/functions/chat-interview/index.ts:18-113 | Every response carries `Access-Control-Allow-Origin: *`. The status is 200, 402, 429 or 500. A null body occurs exactly for OPTIONS, and then only the CORS headers are sent. An answer occurs exactly with status 200 outside OPTIONS. An error occurs exactly with any other status. An answer requires a question, the key, an ok gateway reply and non-empty content. The answer is the refusal when the question is disallowed, and otherwise the content unchanged. |
| `ChatInterview.PreflightFirst` | supabase/functions/chat-interview/index.ts:19-21 | An OPTIONS request gets a 200 null body with only the CORS headers, whatever the body, key and gateway. |
| `ChatInterview.ChecksBeforeGateway` | supabase/functions/chat-interview/index.ts:26-35 | A missing question gives 500 "Question is required", whatever the key. With a question but no key, the result is 500 "LOVABLE_API_KEY is not configured". In both cases the gateway's reply makes no difference. |
| `ChatInterview.GatewayStatusClassified` | supabase/functions/chat-interview/index.ts:54-73 | When the error body of a non-ok reply was read, the status gives 429 or 402 with their fixed messages, or 500 with "AI Gateway error: " followed by the error text. This holds even for a disallowed question. |
| `ChatInterview.UnreadableErrorText` | supabase/functions/chat-interview/index.ts:54-55 | When reading the error body of a non-ok reply fails, the answer is the catch block's 500 with the read's message, whatever the status, 429 and 402 included. |
| `ChatInterview.ContentCheck` | supabase/functions/chat-interview/index.ts:75-105 | After an ok reply, empty content gives 500 "No response from AI". A disallowed question gives 200 with the refusal, whatever the content. Any other question gives 200 with the content unchanged. |
| `ChatInterview.RefusalIgnoresCase` | supabase/functions/chat-interview/index.ts:83-98 | "Is it ILLEGAL?" is refused whatever the model answered: the pattern's `/i` flag makes upper case match. |
| `ChatInterview.DisallowedIgnoresCase` | supabase/functions/chat-interview/index.ts:82-89 | For every question, lower-casing it first does not change whether it is disallowed. |

## Findings

| source | as written | input that shows it | evidently intended | confidence | as-written member | corrected member |
|---|---|---|---|---|---|---|
| src/components/VoiceInterface.tsx:172-173 | `cancel()` runs at once and `speak()` runs 300 ms later, so the cancel does not guard the speak it precedes | two answers resolved less than 300 ms apart: cancel, cancel, speak(a1), speak(a2) leaves both queued and both are read out | a newer answer supersedes an older one; at most one utterance is queued | medium, not executed | `SpeechPlayback.OverlappingAnswersQueueBoth`, `VoiceInterface.Controller.FireSpeechTimer`, `VoiceScenarios.LastReplyWins` | `SpeechPlayback.AtMostOneQueued`, `SpeechPlayback.CancelThenSpeakSupersedes`, `VoiceInterface.Controller.FireSpeechTimerWithCancel`, `VoiceScenarios.LastReplyWinsWithCancel` |
| src/components/VoiceInterface.tsx:87-94 | the cleanup cancels speech but does not clear the pending timer | an answer resolved less than 300 ms before unmount: cancel, unmount's cancel, then speak(a) still queues it | no timer set before unmount fires | low, not executed | `VoiceInterface.Controller.Unmount`, `SpeechPlayback.OverlappingAnswersQueueBoth`, `VoiceScenarios.SpeechAfterUnmount` | `VoiceInterface.Controller.UnmountClearingTimers`, `VoiceScenarios.SilentAfterUnmount` |
| src/components/VoiceInterface.tsx:133-152 | a `handleQuestion` still awaiting its reply at unmount goes on and calls `speakResponse`, which schedules a new speak | a question is sent, the component unmounts, then the reply arrives: cancel, then speak(late) queues the late answer | nothing is spoken after the component unmounts | low, not executed | `VoiceInterface.Controller.ResolveQuestion`, `VoiceScenarios.LateReplyAfterUnmount` | `VoiceInterface.Controller.ResolveQuestionIfMounted`, `VoiceScenarios.SilentAfterUnmount` |

## Left out

- ResolveQuestionIfMounted: the other event handlers do not read `mounted`, and some of their events can still arrive after the cleanup. The aborted recognizer can still fire `onerror` (code `aborted`, giving a "Recognition error" toast) and `onend`. The cancelled utterance can still fire its `onend` or `onerror`. None of these handlers touches the synthesizer log or the speech timers, so none of them can speak; only a reply and the timers could, and the corrected path handles both.

- JSX rendering is not modelled: icons, colours, status text and cards. The `onProcessingChange` notification to the parent is left out too. All of these are presentation.
- The browser's `SpeechRecognition` and `speechSynthesis` are not modelled. Whether each exists, and what the recognizer reports, are inputs. Each call on them is logged but not executed.
- FireSpeechTimer: all timers have the same 300 ms delay, so they fire in the order they were set; the clock itself is not modelled. Which utterance's `onstart`/`onend` fires, and when, is up to the synthesizer.
- The 100 ms reset of `currentQuestion` in src/pages/Index.tsx is not modelled. Nor is React's rule that the external-question effect fires only when the prop value changes. `OnExternalQuestion` is an explicit event.
- `supabase.functions.invoke`, `fetch`, `req.json()`, `response.json()`, `response.text()` and `Deno.env` are I/O. Their results are parameters; the four reads of the answer function each carry a failure form (`MalformedBody`, `Unreachable`, `MalformedCompletion`, `TextUnreadable`). How supabase-js turns a non-2xx status into a transport error is foreign code and is not part of this model.
- The request sent to the gateway is not modelled: the system prompt, model name, `max_tokens` and `temperature`. These are constants passed to the external service.
- The `console` logging is not modelled.
- Non-string JSON values are not modelled: a numeric `question`, or a non-string `data.error` or `answer`. A string stands for each, with "" for every falsy value. A thrown value that is not an `Error` (the "Unknown error" branch) cannot occur on the modelled paths.
- `trim` and the `/i` flag are modelled on ASCII only. Unicode whitespace and non-ASCII case folding are out of scope.
- The `disabled` prop of the textarea is not modelled. A disabled textarea receives no change or key events; that is browser behaviour.
- supabase/functions/text-to-speech/index.ts is not part of this model. It is a stub that only checks for `text`.
- The presentation-only components are not part of this model: ExampleQuestions, GreetingCard, ListeningIndicator, AudioControls and SpeedControl.

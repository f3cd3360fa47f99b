/**
  What `speakResponse` in src/components/VoiceInterface.tsx asks of the
  platform speech synthesizer: which voice it picks, the fixed utterance
  settings, and its cancel-then-speak call pattern.
 */
module SpeechPlayback {
  import opened Optional
  import opened Text

  /** A platform voice, reduced to what the selection rule looks at. */
  datatype Voice = Voice(name: string, lang: string)

  datatype Utterance = Utterance(text: string, voice: Option<Voice>, rate: real, pitch: real, volume: real)

  /** A call the controller makes on the synthesizer. */
  datatype SynthCall = Cancel | Enqueue(utterance: Utterance)

  const Rate: real := 0.95
  const Pitch: real := 1.0
  const Volume: real := 1.0

  /** The names that mark a voice the component prefers. */
  const PreferredNames: seq<string> := ["Female", "Samantha", "Karen", "Victoria"]

  /** The preference test of the voice search: four case-sensitive `includes` on the name. */
  function HasPreferredName(v: Voice): (b: bool)
    ensures b <==> exists k, i :: 0 <= k < |PreferredNames| && OccursAt(v.name, PreferredNames[k], i)
  {
    var b := Contains(v.name, "Female") || Contains(v.name, "Samantha") ||
             Contains(v.name, "Karen") || Contains(v.name, "Victoria");
    assert PreferredNames[0] == "Female" && PreferredNames[1] == "Samantha";
    assert PreferredNames[2] == "Karen" && PreferredNames[3] == "Victoria";
    b
  }

  predicate SpeaksEnglish(v: Voice) {
    StartsWith(v.lang, "en")
  }

  ghost predicate AnyMatch(voices: seq<Voice>, p: Voice -> bool) {
    exists i :: 0 <= i < |voices| && p(voices[i])
  }

  /** `i` is the first position of `voices` that satisfies `p`. */
  ghost predicate FirstMatch(voices: seq<Voice>, p: Voice -> bool, i: int) {
    0 <= i < |voices| && p(voices[i]) && forall j :: 0 <= j < i ==> !p(voices[j])
  }

  /** `Array.prototype.find`, giving the position of the element it finds. */
  function FindIndex(voices: seq<Voice>, p: Voice -> bool): (r: Option<nat>)
    ensures r.Some? ==> FirstMatch(voices, p, r.value)
    ensures r.None? <==> !AnyMatch(voices, p)
  {
    if voices == [] then None
    else if p(voices[0]) then Some(0)
    else
      match FindIndex(voices[1..], p)
      case None => None
      case Some(i) =>
        assert forall j :: 0 < j <= i ==> voices[j] == voices[1..][j - 1];
        Some(i + 1)
  }

  function Find(voices: seq<Voice>, p: Voice -> bool): (r: Option<Voice>)
    ensures r.None? <==> !AnyMatch(voices, p)
    ensures r.Some? ==> exists i :: FirstMatch(voices, p, i) && r.value == voices[i]
  {
    match FindIndex(voices, p)
    case None => None
    case Some(i) => Some(voices[i])
  }

  /**
    The voice `speakResponse` assigns: the first voice with a preferred name,
    else the first English voice, else none (the platform default).
   */
  function SelectVoice(voices: seq<Voice>): (r: Option<Voice>)
    ensures r.Some? ==> r.value in voices
    ensures AnyMatch(voices, HasPreferredName) ==>
              exists i :: FirstMatch(voices, HasPreferredName, i) && r == Some(voices[i])
    ensures !AnyMatch(voices, HasPreferredName) && AnyMatch(voices, SpeaksEnglish) ==>
              exists i :: FirstMatch(voices, SpeaksEnglish, i) && r == Some(voices[i])
    ensures r.None? <==> !AnyMatch(voices, HasPreferredName) && !AnyMatch(voices, SpeaksEnglish)
  {
    match Find(voices, HasPreferredName)
    case Some(v) => Some(v)
    case None => Find(voices, SpeaksEnglish)
  }

  /** The utterance built for `text`, with the fixed rate, pitch and volume. */
  function NewUtterance(text: string, voices: seq<Voice>): (u: Utterance)
    ensures u.text == text && u.voice == SelectVoice(voices)
    ensures u.rate == 0.95 && u.pitch == 1.0 && u.volume == 1.0
  {
    Utterance(text, SelectVoice(voices), Rate, Pitch, Volume)
  }

  /** The utterances queued by `calls` and not cancelled since, oldest first. */
  function Queued(calls: seq<SynthCall>): (r: seq<Utterance>)
    ensures |r| <= |calls|
    ensures forall k :: 0 <= k < |r| ==> Enqueue(r[k]) in calls
    ensures calls != [] && calls[|calls| - 1] == Cancel ==> r == []
    ensures r != [] ==> calls[|calls| - 1] == Enqueue(r[|r| - 1])
  {
    if calls == [] then []
    else
      match calls[|calls| - 1]
      case Cancel => []
      case Enqueue(u) =>
        var front := calls[..|calls| - 1];
        var q := Queued(front);
        assert forall k :: 0 <= k < |q| ==> Enqueue(q[k]) in front && Enqueue(q[k]) in calls;
        q + [u]
  }

  /** Enqueueing an utterance puts it behind whatever is still queued. */
  lemma QueuedAfterEnqueue(calls: seq<SynthCall>, u: Utterance)
    ensures Queued(calls + [Enqueue(u)]) == Queued(calls) + [u]
  {
  }

  /**
    What the synthesizer receives when two answers arrive less than 300 ms
    apart: both cancels run before either timer fires, so neither speak is
    preceded by a cancel and both utterances end up queued, one after the
    other. The same trace, without the second answer's speak, is an unmount
    (its cleanup cancels) followed by a pending timer that still fires.
   */
  lemma OverlappingAnswersQueueBoth(calls: seq<SynthCall>, u1: Utterance, u2: Utterance)
    ensures Queued(calls + [Cancel, Cancel, Enqueue(u1), Enqueue(u2)]) == [u1, u2]
    ensures Queued(calls + [Cancel, Enqueue(u1)]) == [u1]
  {
  }

  /**
    The evidently intended playback step: cancel what is playing or queued
    at the moment the utterance is spoken, not 300 ms before.
   */
  function CancelThenSpeak(u: Utterance): (calls: seq<SynthCall>)
    ensures |calls| == 2 && calls[|calls| - 1] == Enqueue(u)
    ensures forall k :: 0 <= k < |calls| && calls[k].Enqueue? ==> k > 0 && calls[k - 1] == Cancel
  {
    [Cancel, Enqueue(u)]
  }

  /** A cancel-then-speak step supersedes whatever was queued: afterwards only its utterance is. */
  lemma CancelThenSpeakSupersedes(calls: seq<SynthCall>, u: Utterance)
    ensures Queued(calls + CancelThenSpeak(u)) == [u]
  {
  }

  /** Every enqueue in `calls` comes straight after a cancel. */
  ghost predicate CancelledBeforeEachSpeak(calls: seq<SynthCall>) {
    forall k :: 0 <= k < |calls| && calls[k].Enqueue? ==> k > 0 && calls[k - 1] == Cancel
  }

  /** A history in which every speak is cancel-then-speak never has two utterances queued. */
  lemma AtMostOneQueued(calls: seq<SynthCall>)
    requires CancelledBeforeEachSpeak(calls)
    ensures |Queued(calls)| <= 1
    ensures calls != [] && calls[|calls| - 1].Enqueue? ==> Queued(calls) == [calls[|calls| - 1].utterance]
  {
  }
}

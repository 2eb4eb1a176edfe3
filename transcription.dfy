/**
 * Transcription, vocalearn/views.py:86-148. Continuous transcription collects the final
 * `recognized` texts until the session stops or is cancelled, then joins them by single
 * spaces; the single-shot helper maps the one result's reason to a response. The speech SDK
 * is replaced by what it delivers: the finite list of events, or the single result.
 */
module Transcription {
  import Text
  import opened Recognition

  /** The final texts recognised before the first terminal event, in arrival order. */
  function FinalTexts(events: seq<Event<string>>): seq<string>
    decreases |events|
  {
    if events == [] || IsTerminal(events[0]) then []
    else if events[0].Recognized? then [events[0].result] + FinalTexts(events[1..])
    else FinalTexts(events[1..])
  }

  /** The view's answer; `Waiting` stands for the polling loop that never ends. */
  datatype Response = Transcribed(transcription: string) | Waiting

  /** What the view answers for a session that delivers `events`. */
  function Transcribe(events: seq<Event<string>>): Response {
    if HasTerminal(events) then Transcribed(Text.Join(FinalTexts(events), " ")) else Waiting
  }

  /** `recognized_text` and `done`, the state the callbacks share with the view. */
  class TranscriptionState {
    var recognizedText: seq<string>
    var done: bool

    constructor ()
      ensures recognizedText == [] && !done
    {
      recognizedText := [];
      done := false;
    }

    /**
     * Deliver `events` to the callbacks until `done` is set (vocalearn/views.py:131-143): the
     * loop ends exactly when a terminal event arrives, having appended the final texts seen.
     */
    method Listen(events: seq<Event<string>>)
      requires !done
      modifies this
      ensures done == HasTerminal(events)
      ensures recognizedText == old(recognizedText) + FinalTexts(events)
    {
      var t := 0;
      while t < |events| && !done
        invariant 0 <= t <= |events|
        invariant forall s :: 0 <= s < t - (if done then 1 else 0) ==> !IsTerminal(events[s])
        invariant done ==> t > 0 && IsTerminal(events[t - 1])
        invariant done ==> recognizedText == old(recognizedText) + FinalTexts(events)
        invariant !done ==> recognizedText + FinalTexts(events[t..]) == old(recognizedText) + FinalTexts(events)
      {
        var e := events[t];
        assert events[t..][1..] == events[t + 1..];
        match e {
          case Recognizing(_) =>
          case Recognized(text) =>
            recognizedText := recognizedText + [text];
          case SessionStarted =>
          case SessionStopped =>
            done := true;
          case Canceled =>
            done := true;
        }
        t := t + 1;
      }
      if !done {
        assert events[t..] == [];
      }
    }
  }

  /** `get_continuous_transcription` on the events the recognizer delivers. */
  method ContinuousTranscription(events: seq<Event<string>>) returns (resp: Response)
    ensures resp == Transcribe(events)
  {
    var state := new TranscriptionState();
    state.Listen(events);
    if !state.done {
      return Waiting;
    }
    assert state.recognizedText == FinalTexts(events);
    var fullTranscription := Text.Join(state.recognizedText, " ");
    return Transcribed(fullTranscription);
  }

  // ---------------------------------------------------------------------------
  // Properties

  /** Interim `recognizing` events contribute nothing. */
  lemma {:induction false} InterimIgnored(a: seq<Event<string>>, x: string, b: seq<Event<string>>)
    ensures FinalTexts(a + [Recognizing(x)] + b) == FinalTexts(a + b)
    ensures Transcribe(a + [Recognizing(x)] + b) == Transcribe(a + b)
    decreases |a|
  {
    var e := Recognizing(x);
    StopsAfter(a, e, b);
    if a == [] {
      assert ([e] + b)[1..] == b;
      assert a + b == b;
    } else {
      assert (a + [e] + b)[1..] == a[1..] + [e] + b;
      assert (a + b)[1..] == a[1..] + b;
      InterimIgnored(a[1..], x, b);
    }
  }

  /** Events after the first terminal one are never seen. */
  lemma {:induction false} IgnoredAfterTerminal(a: seq<Event<string>>, e: Event<string>, b: seq<Event<string>>)
    requires IsTerminal(e)
    ensures FinalTexts(a + [e] + b) == FinalTexts(a + [e]) == FinalTexts(a)
    decreases |a|
  {
    if a == [] {
      assert ([e] + b)[0] == e;
    } else {
      assert (a + [e] + b)[1..] == a[1..] + [e] + b;
      assert (a + [e])[1..] == a[1..] + [e];
      IgnoredAfterTerminal(a[1..], e, b);
    }
  }

  /**
   * Stopping and cancelling end the session alike: either ending of the same events yields
   * a transcription, the final texts received before it joined by single spaces.
   */
  lemma BothEndingsSucceed(a: seq<Event<string>>)
    ensures Transcribe(a + [SessionStopped]) == Transcribe(a + [Canceled])
               == Transcribed(Text.Join(FinalTexts(a), " "))
  {
    IgnoredAfterTerminal(a, SessionStopped, []);
    IgnoredAfterTerminal(a, Canceled, []);
    assert a + [SessionStopped] + [] == a + [SessionStopped];
    assert a + [Canceled] + [] == a + [Canceled];
    assert IsTerminal((a + [SessionStopped])[|a|]);
    assert IsTerminal((a + [Canceled])[|a|]);
  }

  /** While the session runs, a further final text extends the transcription by a space and that text. */
  lemma TranscriptGrows(a: seq<Event<string>>, x: string)
    requires !HasTerminal(a) && FinalTexts(a) != []
    ensures Text.Join(FinalTexts(a + [Recognized(x)]), " ") == Text.Join(FinalTexts(a), " ") + " " + x
  {
    FinalTextsSnoc(a, x);
    Text.JoinSnoc(FinalTexts(a), x, " ");
  }

  lemma {:induction false} FinalTextsSnoc(a: seq<Event<string>>, x: string)
    ensures FinalTexts(a + [Recognized(x)]) == if HasTerminal(a) then FinalTexts(a) else FinalTexts(a) + [x]
    decreases |a|
  {
    if a == [] {
      assert !HasTerminal(a);
      assert ([Recognized(x)])[1..] == [];
    } else {
      assert (a + [Recognized(x)])[1..] == a[1..] + [Recognized(x)];
      FinalTextsSnoc(a[1..], x);
      if IsTerminal(a[0]) {
        assert HasTerminal(a);
      } else {
        assert HasTerminal(a) == HasTerminal(a[1..]) by {
          if HasTerminal(a) {
            var t :| 0 <= t < |a| && IsTerminal(a[t]);
            assert a[1..][t - 1] == a[t];
          }
          if HasTerminal(a[1..]) {
            var t :| 0 <= t < |a[1..]| && IsTerminal(a[1..][t]);
            assert a[t + 1] == a[1..][t];
          }
        }
      }
    }
  }

  /**
   * When every final text is one non-empty word without whitespace, splitting the
   * transcription gives the final texts back.
   */
  lemma TranscriptSplits(events: seq<Event<string>>)
    requires HasTerminal(events)
    requires forall t :: 0 <= t < |FinalTexts(events)| ==>
               FinalTexts(events)[t] != [] && Text.NoSpace(FinalTexts(events)[t])
    ensures Text.Split(Transcribe(events).transcription) == FinalTexts(events)
  {
    Text.SplitJoin(FinalTexts(events));
  }

  // ---------------------------------------------------------------------------
  // Single-shot recognition, vocalearn/views.py:86-107

  /** The reason a single `recognize_once` result carries. */
  datatype OnceReason = RecognizedSpeech | NoMatch | OtherReason(name: string)

  /** The answers of `get_transcribed_text`: success (200), no speech (400) or failure (500). */
  datatype OnceResponse =
    | OnceTranscribed(transcription: string)
    | NoSpeech
    | RecognitionFailed(reason: string)

  /** The HTTP status of each answer. */
  function OnceStatus(r: OnceResponse): int {
    match r
    case OnceTranscribed(_) => 200
    case NoSpeech => 400
    case RecognitionFailed(_) => 500
  }

  /**
   * `get_transcribed_text` on the result `recognize_once` returns: only recognised speech
   * succeeds, with the result's text; no match is the client's 400, any other reason a 500
   * that names it.
   */
  function TranscribedText(reason: OnceReason, text: string): (r: OnceResponse)
    ensures OnceStatus(r) == 200 <==> reason == RecognizedSpeech
    ensures OnceStatus(r) == 200 ==> r == OnceTranscribed(text)
    ensures OnceStatus(r) == 400 <==> reason == NoMatch
    ensures OnceStatus(r) == 500 ==> r == RecognitionFailed(reason.name)
  {
    match reason
    case RecognizedSpeech => OnceTranscribed(text)
    case NoMatch => NoSpeech
    case OtherReason(name) => RecognitionFailed(name)
  }

  /**
   * A single recognised utterance transcribes like a continuous session that delivers that
   * one final text and then stops.
   */
  lemma OnceAgreesWithContinuous(text: string)
    ensures Transcribe([Recognized(text), SessionStopped])
              == Transcribed(TranscribedText(RecognizedSpeech, text).transcription)
  {
    var events: seq<Event<string>> := [Recognized(text), SessionStopped];
    assert IsTerminal(events[1]);
    assert events[1..][1..] == [];
    assert FinalTexts(events) == [text];
  }
}

/**
 * The pronunciation-assessment view, vocalearn/views.py:155-276: the recognition callbacks
 * gather words and per-utterance scores until the session stops or is cancelled, the
 * reference text is tokenised, the miscue merge runs, and the four scores are reported.
 *
 * The speech SDK is replaced by its outputs: a finite list of session events whose
 * recognised utterances carry the word objects, the fluency and prosody scores and the
 * word durations. The matcher's opcodes and, for zh-CN, the segmenter's reference words are
 * inputs as well.
 */
module Assessment {
  import opened Wrappers
  import Text
  import opened Miscue
  import opened Scores
  import opened Recognition

  /** One final recognition result: its words, its fluency score, its prosody score if any, and its words' durations. */
  datatype Utterance = Utterance(words: seq<Word>, fluency: real, prosody: Option<real>, wordDurations: seq<nat>)

  /** `recognized_words`, `fluency_scores`, `prosody_scores` and `durations`. */
  datatype Gathered = Gathered(words: seq<Word>, fluencyScores: seq<real>, prosodyScores: seq<real>,
                               durations: seq<nat>)

  const Nothing := Gathered([], [], [], [])

  /** What the `recognized` callback adds for one utterance (vocalearn/views.py:196-207). */
  function Absorb(g: Gathered, u: Utterance): Gathered {
    Gathered(g.words + u.words,
             g.fluencyScores + [u.fluency],
             g.prosodyScores + (if u.prosody.Some? then [u.prosody.value] else []),
             g.durations + [SumNat(u.wordDurations)])
  }

  /** The callbacks' effect on `g` of the events up to and including the first terminal one. */
  function CollectFrom(g: Gathered, events: seq<Event<Utterance>>): Gathered
    decreases |events|
  {
    if events == [] || IsTerminal(events[0]) then g
    else if events[0].Recognized? then CollectFrom(Absorb(g, events[0].result), events[1..])
    else CollectFrom(g, events[1..])
  }

  function Collect(events: seq<Event<Utterance>>): Gathered {
    CollectFrom(Nothing, events)
  }

  // ---------------------------------------------------------------------------
  // An independent description of what is gathered

  /** The utterances recognised before the first terminal event, in arrival order. */
  function Heard(events: seq<Event<Utterance>>): seq<Utterance>
    decreases |events|
  {
    if events == [] || IsTerminal(events[0]) then []
    else if events[0].Recognized? then [events[0].result] + Heard(events[1..])
    else Heard(events[1..])
  }

  /** The prosody scores the utterances reported, in order; utterances without one are skipped. */
  function Reported(us: seq<Utterance>): seq<real> {
    if us == [] then []
    else
      var last := us[|us| - 1];
      Reported(us[..|us| - 1]) + (if last.prosody.Some? then [last.prosody.value] else [])
  }

  /** All the utterances' words, concatenated in order. */
  function Flatten(us: seq<Utterance>): seq<Word> {
    if us == [] then [] else Flatten(us[..|us| - 1]) + us[|us| - 1].words
  }

  /**
   * `g` holds exactly what the utterances `us` contributed: one fluency score and one
   * duration (the sum of the word durations) per utterance, aligned by position, the
   * reported prosody scores, and all the words in order.
   */
  predicate Describes(g: Gathered, us: seq<Utterance>) {
    && |g.fluencyScores| == |us| && |g.durations| == |us|
    && (forall k :: 0 <= k < |us| ==>
          g.fluencyScores[k] == us[k].fluency && g.durations[k] == SumNat(us[k].wordDurations))
    && g.prosodyScores == Reported(us)
    && g.words == Flatten(us)
  }

  lemma AbsorbDescribes(g: Gathered, us: seq<Utterance>, u: Utterance)
    requires Describes(g, us)
    ensures Describes(Absorb(g, u), us + [u])
  {
    assert (us + [u])[..|us|] == us;
  }

  lemma {:induction false} CollectFromDescribes(g: Gathered, us: seq<Utterance>, events: seq<Event<Utterance>>)
    requires Describes(g, us)
    ensures Describes(CollectFrom(g, events), us + Heard(events))
    decreases |events|
  {
    if events == [] || IsTerminal(events[0]) {
      assert us + [] == us;
    } else if events[0].Recognized? {
      var u := events[0].result;
      AbsorbDescribes(g, us, u);
      CollectFromDescribes(Absorb(g, u), us + [u], events[1..]);
      assert us + [u] + Heard(events[1..]) == us + Heard(events);
    } else {
      CollectFromDescribes(g, us, events[1..]);
    }
  }

  /**
   * The callbacks gather one fluency score and one duration per utterance recognised before
   * the session ended, the prosody scores of those that reported one, and all their words.
   */
  lemma CollectSpec(events: seq<Event<Utterance>>)
    ensures Describes(Collect(events), Heard(events))
  {
    CollectFromDescribes(Nothing, [], events);
    assert [] + Heard(events) == Heard(events);
  }

  /** Events after the first terminal one are never seen. */
  lemma {:induction false} CollectStopsAtTerminal(a: seq<Event<Utterance>>, e: Event<Utterance>, b: seq<Event<Utterance>>)
    requires IsTerminal(e)
    ensures Heard(a + [e] + b) == Heard(a + [e])
    ensures forall g :: CollectFrom(g, a + [e] + b) == CollectFrom(g, a + [e])
    decreases |a|
  {
    if a != [] {
      assert (a + [e] + b)[1..] == a[1..] + [e] + b;
      assert (a + [e])[1..] == a[1..] + [e];
      CollectStopsAtTerminal(a[1..], e, b);
    }
  }

  /** `session_started` events contribute nothing. */
  lemma {:induction false} CollectIgnoresStart(a: seq<Event<Utterance>>, b: seq<Event<Utterance>>)
    ensures Heard(a + [SessionStarted] + b) == Heard(a + b)
    ensures forall g :: CollectFrom(g, a + [SessionStarted] + b) == CollectFrom(g, a + b)
    decreases |a|
  {
    if a == [] {
      assert ([SessionStarted] + b)[1..] == b;
      assert a + b == b;
    } else {
      assert (a + [SessionStarted] + b)[1..] == a[1..] + [SessionStarted] + b;
      assert (a + b)[1..] == a[1..] + b;
      CollectIgnoresStart(a[1..], b);
    }
  }

  /** No prosody score was gathered exactly when no heard utterance reported one. */
  lemma {:induction false} ReportedEmptyIff(us: seq<Utterance>)
    ensures Reported(us) == [] <==> forall k :: 0 <= k < |us| ==> us[k].prosody.None?
  {
    if us != [] {
      var front := us[..|us| - 1];
      ReportedEmptyIff(front);
      if forall k :: 0 <= k < |us| ==> us[k].prosody.None? {
        forall k | 0 <= k < |front| ensures front[k].prosody.None? {
          assert front[k] == us[k];
        }
      }
      if Reported(us) == [] {
        forall k | 0 <= k < |us| ensures us[k].prosody.None? {
          if k < |front| {
            assert us[k] == front[k];
          }
        }
      }
    }
  }

  // ---------------------------------------------------------------------------
  // The callbacks' shared state

  /** The view's local variables that the callbacks update through `nonlocal`. */
  class RecognitionState {
    var recognizedWords: seq<Word>
    var fluencyScores: seq<real>
    var prosodyScores: seq<real>
    var durations: seq<nat>
    var done: bool

    function Current(): Gathered
      reads this
    {
      Gathered(recognizedWords, fluencyScores, prosodyScores, durations)
    }

    constructor ()
      ensures Current() == Nothing && !done
    {
      recognizedWords, fluencyScores, prosodyScores, durations := [], [], [], [];
      done := false;
    }

    /** The `recognized` callback, vocalearn/views.py:196-207. */
    method OnRecognized(u: Utterance)
      modifies this
      ensures Current() == Absorb(old(Current()), u) && done == old(done)
    {
      recognizedWords := recognizedWords + u.words;
      fluencyScores := fluencyScores + [u.fluency];
      if u.prosody.Some? {
        prosodyScores := prosodyScores + [u.prosody.value];
      }
      durations := durations + [SumNat(u.wordDurations)];
    }

    /** `stop_cb`, vocalearn/views.py:190-194. */
    method OnStop()
      modifies this`done
      ensures done
    {
      done := true;
    }

    /**
     * Deliver `events` to the connected callbacks until `done` is set
     * (vocalearn/views.py:209-218): the waiting loop ends exactly when a terminal event
     * arrives, and what is gathered by then is `CollectFrom` of the events.
     */
    method Listen(events: seq<Event<Utterance>>)
      requires !done
      modifies this
      ensures done == HasTerminal(events)
      ensures Current() == CollectFrom(old(Current()), events)
    {
      var t := 0;
      while t < |events| && !done
        invariant 0 <= t <= |events|
        invariant forall s :: 0 <= s < t - (if done then 1 else 0) ==> !IsTerminal(events[s])
        invariant done ==> t > 0 && IsTerminal(events[t - 1])
        invariant done ==> Current() == CollectFrom(old(Current()), events)
        invariant !done ==> CollectFrom(Current(), events[t..]) == CollectFrom(old(Current()), events)
      {
        var e := events[t];
        assert events[t..][1..] == events[t + 1..];
        match e {
          case Recognizing(_) =>
          case SessionStarted =>
          case Recognized(u) =>
            OnRecognized(u);
          case SessionStopped =>
            OnStop();
          case Canceled =>
            OnStop();
        }
        t := t + 1;
      }
      if !done {
        assert events[t..] == [];
      }
    }
  }

  // ---------------------------------------------------------------------------
  // The response

  /** The view's response; `Waiting` stands for the polling loop that never ends. */
  datatype Response =
    | Assessed(accuracy: real, prosody: ProsodyScore, completeness: real, fluency: real)
    | BadRequest
    | ServerError(error: ScoreError)
    | Waiting

  /** The values of a word object that the scores read. */
  datatype WordView = WordView(text: string, accuracy: real, errorType: ErrorType)

  function Views(ws: seq<Word>): (r: seq<WordView>)
    reads set w | w in ws
    ensures |r| == |ws|
  {
    seq(|ws|, p reads set w | w in ws requires 0 <= p < |ws| =>
                WordView(ws[p].text, ws[p].accuracy, ws[p].errorType))
  }

  function TypesOf(vs: seq<WordView>): (r: seq<ErrorType>)
    ensures |r| == |vs|
  {
    seq(|vs|, p requires 0 <= p < |vs| => vs[p].errorType)
  }

  /** vocalearn/views.py:220-226: the segmenter's words for zh-CN, the tokeniser's otherwise. */
  function ReferenceWords(targetLanguage: string, referenceText: string, segmented: seq<string>): seq<string> {
    if targetLanguage == "zh-CN" then segmented else Text.ReferenceTokens(referenceText)
  }

  /**
   * `final_accuracy_scores` read off a layout of `final_words`: the accuracy of each
   * recognised entry whose (re-tagged) type is not Insertion, and the omission accuracy for
   * each Omission entry, in layout order.
   */
  function SlotScores(slots: seq<Slot>, vs: seq<WordView>, types: seq<ErrorType>, omissionAccuracy: real): seq<real> {
    if slots == [] then []
    else
      var last := slots[|slots| - 1];
      SlotScores(slots[..|slots| - 1], vs, types, omissionAccuracy) +
      match last
      case Recognized(j) => if j < |vs| && j < |types| && types[j] != Insertion then [vs[j].accuracy] else []
      case Omitted(_) => [omissionAccuracy]
  }

  /**
   * The whole view once the session has ended, on the values the callbacks gathered: merge,
   * accuracy, prosody, fluency and completeness in source order, the first division by zero
   * ending the request with a server error, then the missing-field check of
   * vocalearn/views.py:272.
   */
  function Assess(vs: seq<WordView>, fluencyScores: seq<real>, prosodyScores: seq<real>, durations: seq<nat>,
                  referenceWords: seq<string>, ops: seq<Opcode>, omissionAccuracy: real,
                  targetLanguage: string, referenceText: string): Response
  {
    var types := Retagged(TypesOf(vs), ops);
    Answer(Mean(SlotScores(Layout(ops), vs, types, omissionAccuracy)),
           Prosody(prosodyScores),
           Fluency(fluencyScores, durations),
           Completeness(CountNoError(types), |referenceWords|),
           targetLanguage, referenceText)
  }

  /** vocalearn/views.py:258-276 once the four scores are evaluated, in source order. */
  function Answer(accuracy: Result<real, ScoreError>, prosody: ProsodyScore, fluency: Result<real, ScoreError>,
                  completeness: Result<real, ScoreError>, targetLanguage: string, referenceText: string): (r: Response)
    ensures r.Assessed? ==>
              && accuracy.Success? && r.accuracy == accuracy.value
              && fluency.Success? && r.fluency == fluency.value
              && completeness.Success? && r.completeness == completeness.value
              && r.prosody == prosody
    ensures r.ServerError? <==> (accuracy.Failure? || fluency.Failure? || completeness.Failure?)
    ensures accuracy.Success? && fluency.Success? && completeness.Success? ==>
              && (r.BadRequest? <==> targetLanguage == [] || referenceText == [])
              && (r.Assessed? <==> targetLanguage != [] && referenceText != [])
  {
    if accuracy.Failure? then ServerError(accuracy.error)
    else if fluency.Failure? then ServerError(fluency.error)
    else if completeness.Failure? then ServerError(completeness.error)
    else if targetLanguage == [] || referenceText == [] then BadRequest
    else Assessed(accuracy.value, prosody, completeness.value, fluency.value)
  }

  /** The scores read off `final_words` are those its layout predicts from the re-tagged types. */
  lemma {:induction false} ScoresOfRealized(final: seq<Word>, slots: seq<Slot>, recognized: seq<Word>,
                                            reference: seq<string>, omissionAccuracy: real,
                                            vs: seq<WordView>, types: seq<ErrorType>)
    requires Realizes(final, slots, recognized, reference, omissionAccuracy)
    requires forall p :: 0 <= p < |final| && final[p] !in recognized ==> final[p].errorType == Omission
    requires |vs| == |recognized| && |types| == |recognized|
    requires forall j :: 0 <= j < |recognized| ==>
               recognized[j].errorType == types[j] && recognized[j].accuracy == vs[j].accuracy
    ensures ScoredAccuracies(final) == SlotScores(slots, vs, types, omissionAccuracy)
    decreases |final|
  {
    if final != [] {
      var n := |final| - 1;
      assert Realizes(final[..n], slots[..n], recognized, reference, omissionAccuracy) by {
        forall p | 0 <= p < n
          ensures RealizesAt(final[..n][p], slots[..n][p], recognized, reference, omissionAccuracy)
        {
          assert final[..n][p] == final[p] && slots[..n][p] == slots[p];
        }
      }
      ScoresOfRealized(final[..n], slots[..n], recognized, reference, omissionAccuracy, vs, types);
      assert RealizesAt(final[n], slots[n], recognized, reference, omissionAccuracy);
    }
  }

  /**
   * What the view does once the waiting loop has ended (vocalearn/views.py:220-276): its
   * answer is `Assess` of the gathered values, with the words' error types as they were
   * before the merge re-tagged them.
   */
  method Respond(recognizedWords: seq<Word>, fluencyScores: seq<real>, prosodyScores: seq<real>,
                 durations: seq<nat>, referenceText: string, targetLanguage: string,
                 segmented: seq<string>, ops: seq<Opcode>, omissionAccuracy: real)
    returns (resp: Response)
    requires Distinct(recognizedWords)
    requires WellFormed(ops, ReferenceWords(targetLanguage, referenceText, segmented), LowerTexts(recognizedWords))
    modifies set w | w in recognizedWords
    ensures resp == Assess(old(Views(recognizedWords)), fluencyScores, prosodyScores, durations,
                           ReferenceWords(targetLanguage, referenceText, segmented), ops,
                           omissionAccuracy, targetLanguage, referenceText)
  {
    ghost var before := Views(recognizedWords);
    var referenceWords := if targetLanguage == "zh-CN" then segmented else Text.ReferenceTokens(referenceText);
    var finalWords := Merge(referenceWords, recognizedWords, ops, omissionAccuracy);

    ghost var types := Retagged(TypesOf(before), ops);
    assert forall j :: 0 <= j < |recognizedWords| ==> recognizedWords[j].errorType == types[j];
    ScoresOfRealized(finalWords, Layout(ops), recognizedWords, referenceWords, omissionAccuracy, before, types);
    var accuracyScores := CollectAccuracies(finalWords);
    var accuracy := Mean(accuracyScores);
    if accuracy.Failure? {
      return ServerError(accuracy.error);
    }
    var prosody := Prosody(prosodyScores);
    var fluency := Fluency(fluencyScores, durations);
    if fluency.Failure? {
      return ServerError(fluency.error);
    }
    assert ErrorTypes(recognizedWords) == types;
    var completeness := Completeness(MatchedCount(recognizedWords), |referenceWords|);
    if completeness.Failure? {
      return ServerError(completeness.error);
    }
    if targetLanguage == [] || referenceText == [] {
      return BadRequest;
    }
    return Assessed(accuracy.value, prosody, completeness.value, fluency.value);
  }

  /**
   * The pronunciation-assessment view. With no terminal event it never answers; otherwise
   * its answer is `Assess` of what the callbacks gathered, with the word objects' error
   * types as they were before the merge re-tagged them.
   */
  method PronunciationAssessment(events: seq<Event<Utterance>>, referenceText: string, targetLanguage: string,
                                 segmented: seq<string>, ops: seq<Opcode>, omissionAccuracy: real)
    returns (resp: Response)
    requires Distinct(Collect(events).words)
    requires WellFormed(ops, ReferenceWords(targetLanguage, referenceText, segmented),
                        LowerTexts(Collect(events).words))
    modifies set w | w in Collect(events).words
    ensures !HasTerminal(events) ==> resp == Waiting
    ensures HasTerminal(events) ==>
              var g := Collect(events);
              resp == Assess(old(Views(g.words)), g.fluencyScores, g.prosodyScores, g.durations,
                             ReferenceWords(targetLanguage, referenceText, segmented), ops,
                             omissionAccuracy, targetLanguage, referenceText)
  {
    ghost var before := Views(Collect(events).words);
    var state := new RecognitionState();
    state.Listen(events);
    if !state.done {
      return Waiting;
    }
    assert state.Current() == Collect(events);
    assert Views(state.recognizedWords) == before;
    resp := Respond(state.recognizedWords, state.fluencyScores, state.prosodyScores, state.durations,
                    referenceText, targetLanguage, segmented, ops, omissionAccuracy);
  }

  // ---------------------------------------------------------------------------
  // What the response promises

  lemma {:induction false} SlotScoresWithin(slots: seq<Slot>, vs: seq<WordView>, types: seq<ErrorType>,
                                            omissionAccuracy: real, lo: real, hi: real)
    requires forall j :: 0 <= j < |vs| ==> lo <= vs[j].accuracy <= hi
    requires lo <= omissionAccuracy <= hi
    ensures Within(SlotScores(slots, vs, types, omissionAccuracy), lo, hi)
    decreases |slots|
  {
    if slots != [] {
      SlotScoresWithin(slots[..|slots| - 1], vs, types, omissionAccuracy, lo, hi);
    }
  }

  /**
   * The reported accuracy and fluency lie within any bounds that the word accuracies (and
   * the omission accuracy) and the utterances' fluency scores respect, and a reported
   * numeric prosody score within the bounds of the utterances' prosody scores.
   */
  lemma AssessBounds(vs: seq<WordView>, fluencyScores: seq<real>, prosodyScores: seq<real>, durations: seq<nat>,
                     referenceWords: seq<string>, ops: seq<Opcode>, omissionAccuracy: real,
                     targetLanguage: string, referenceText: string, lo: real, hi: real)
    requires forall j :: 0 <= j < |vs| ==> lo <= vs[j].accuracy <= hi
    requires lo <= omissionAccuracy <= hi
    requires |fluencyScores| == |durations| && Within(fluencyScores, lo, hi) && Within(prosodyScores, lo, hi)
    ensures var r := Assess(vs, fluencyScores, prosodyScores, durations, referenceWords, ops,
                            omissionAccuracy, targetLanguage, referenceText);
            r.Assessed? ==>
              && lo <= r.accuracy <= hi && lo <= r.fluency <= hi
              && (r.prosody.Value? ==> lo <= r.prosody.score <= hi)
  {
    var types := Retagged(TypesOf(vs), ops);
    var scores := SlotScores(Layout(ops), vs, types, omissionAccuracy);
    SlotScoresWithin(Layout(ops), vs, types, omissionAccuracy, lo, hi);
    if scores != [] {
      MeanBounds(scores, lo, hi);
    }
    FluencyBounds(fluencyScores, durations, lo, hi);
    ProsodyBounds(prosodyScores, lo, hi);
  }

  /**
   * For well-formed opcodes the completeness cap never fires: the recognised words still
   * tagged `None` after the merge never outnumber the reference words, so by the contract of
   * `Completeness` the reported completeness is exactly 100 times their count over the number
   * of reference words.
   */
  lemma AssessCompletenessExact(vs: seq<WordView>, fluencyScores: seq<real>, prosodyScores: seq<real>,
                                durations: seq<nat>, referenceWords: seq<string>, recognizedTexts: seq<string>,
                                ops: seq<Opcode>, omissionAccuracy: real, targetLanguage: string,
                                referenceText: string)
    requires WellFormed(ops, referenceWords, recognizedTexts) && |recognizedTexts| == |vs|
    ensures var r := Assess(vs, fluencyScores, prosodyScores, durations, referenceWords, ops,
                            omissionAccuracy, targetLanguage, referenceText);
            var matched := CountNoError(Retagged(TypesOf(vs), ops));
            r.Assessed? ==>
              && matched <= |referenceWords|
              && 0.0 <= r.completeness <= 100.0
              && r.completeness == Completeness(matched, |referenceWords|).value
  {
    MatchedWithinReference(TypesOf(vs), ops, referenceWords, recognizedTexts);
  }

  /**
   * A request whose reference text is empty (outside zh-CN) never reaches the
   * "Something is missing" answer of vocalearn/views.py:272: with no reference words the
   * completeness division (or an earlier one) raises first, so the answer is a server error.
   */
  lemma EmptyReferenceIsServerError(vs: seq<WordView>, fluencyScores: seq<real>, prosodyScores: seq<real>,
                                    durations: seq<nat>, segmented: seq<string>, ops: seq<Opcode>,
                                    omissionAccuracy: real, targetLanguage: string)
    requires targetLanguage != "zh-CN"
    ensures Assess(vs, fluencyScores, prosodyScores, durations, ReferenceWords(targetLanguage, "", segmented),
                   ops, omissionAccuracy, targetLanguage, "").ServerError?
  {
    assert Text.Split(Text.Lower("")) == [];
    assert ReferenceWords(targetLanguage, "", segmented) == [];
  }

  /** The opcodes the matcher gives for "the quick brown fox" against "the quick fox jumps". */
  const FoxOpcodes: seq<Opcode> :=
    [Opcode(Equal, 0, 2, 0, 2), Opcode(Delete, 2, 3, 2, 2), Opcode(Equal, 3, 4, 2, 3), Opcode(Insert, 4, 4, 3, 4)]

  lemma FoxOpcodesWellFormed()
    ensures WellFormed(FoxOpcodes, ["the", "quick", "brown", "fox"], ["the", "quick", "fox", "jumps"])
  {
    var a: seq<string> := ["the", "quick", "brown", "fox"];
    var b: seq<string> := ["the", "quick", "fox", "jumps"];
    var ops := FoxOpcodes;
    assert a[0..2] == b[0..2] && a[3..4] == b[2..3];
    assert TilesFrom(ops[3..], 4, 3, 4, 4) by { assert ops[3..][1..] == []; }
    assert TilesFrom(ops[2..], 3, 2, 4, 4) by { assert ops[2..][1..] == ops[3..]; }
    assert TilesFrom(ops[1..], 2, 2, 4, 4) by { assert ops[1..][1..] == ops[2..]; }
  }

  /** "brown" is omitted between "quick" and "fox"; the other words keep their order. */
  lemma FoxLayout()
    ensures Layout(FoxOpcodes) == [Slot.Recognized(0), Slot.Recognized(1), Omitted(2), Slot.Recognized(2), Slot.Recognized(3)]
  {
    var ops := FoxOpcodes;
    assert RecognizedRun(0, 2) == [Slot.Recognized(0), Slot.Recognized(1)];
    assert Layout(ops[3..]) == [Slot.Recognized(3)] by { assert ops[3..][1..] == []; }
    assert Layout(ops[2..]) == [Slot.Recognized(2), Slot.Recognized(3)] by { assert ops[2..][1..] == ops[3..]; }
    assert Layout(ops[1..]) == [Omitted(2), Slot.Recognized(2), Slot.Recognized(3)] by { assert ops[1..][1..] == ops[2..]; }
  }

  /** Only "jumps", the one word of the insert span, can be re-tagged. */
  lemma FoxRetagged(orig: seq<ErrorType>)
    requires |orig| == 4
    ensures Retagged(orig, FoxOpcodes) == [orig[0], orig[1], orig[2], Retag(orig[3], true)]
  {
    var ops := FoxOpcodes;
    assert RecTag(ops, 3) == Some(Insert) by {
      assert ops[1..][1..] == ops[2..] && ops[2..][1..] == ops[3..];
    }
  }

  /**
   * Reference "the quick brown fox", recognised "the quick fox jumps", every recognised word
   * tagged `None` by the service: "brown" becomes an Omission entry after "quick", "jumps" is
   * re-tagged Insertion and left out of the accuracy, which averages the three matched words
   * and the omission; completeness is 3 of 4 reference words, 75.
   */
  lemma FoxScenario(vs: seq<WordView>, fluencyScores: seq<real>, prosodyScores: seq<real>,
                    durations: seq<nat>, omissionAccuracy: real)
    requires |vs| == 4 && forall j :: 0 <= j < 4 ==> vs[j].errorType == NoError
    requires SumNat(durations) > 0
    ensures var r := Assess(vs, fluencyScores, prosodyScores, durations, ["the", "quick", "brown", "fox"],
                            FoxOpcodes, omissionAccuracy, "en-US", "the quick brown fox");
            && r.Assessed?
            && r.completeness == 75.0
            && r.accuracy * 4.0 == vs[0].accuracy + vs[1].accuracy + omissionAccuracy + vs[2].accuracy
  {
    var types := Retagged(TypesOf(vs), FoxOpcodes);
    FoxRetagged(TypesOf(vs));
    assert types == [NoError, NoError, NoError, Insertion];
    FoxMatched();
    FoxScores(vs, types, omissionAccuracy);
    SumOfFour(vs[0].accuracy, vs[1].accuracy, omissionAccuracy, vs[2].accuracy);
  }

  /** Three of the four recognised words are still `None` after the merge. */
  lemma FoxMatched()
    ensures CountNoError([NoError, NoError, NoError, Insertion]) == 3
  {
    var t3: seq<ErrorType> := [Insertion];
    assert t3[1..] == [];
    var t2 := [NoError] + t3;
    assert t2[1..] == t3;
    var t1 := [NoError] + t2;
    assert t1[1..] == t2;
    assert ([NoError] + t1)[1..] == t1;
  }

  lemma SumOfFour(a: real, b: real, c: real, d: real)
    ensures Sum([a, b, c, d]) == a + b + c + d
  {
    var s3: seq<real> := [d];
    assert s3[1..] == [];
    var s2 := [c] + s3;
    assert s2[1..] == s3;
    var s1 := [b] + s2;
    assert s1[1..] == s2;
    assert ([a] + s1)[1..] == s1;
    assert Sum(s3) == d;
    assert Sum(s2) == c + d;
    assert Sum(s1) == b + c + d;
    assert [a, b, c, d] == [a] + s1;
  }

  /** The accuracies read off the merged words: three matched words and the omission, not "jumps". */
  lemma FoxScores(vs: seq<WordView>, types: seq<ErrorType>, omissionAccuracy: real)
    requires |vs| == 4 && types == [NoError, NoError, NoError, Insertion]
    ensures SlotScores(Layout(FoxOpcodes), vs, types, omissionAccuracy)
              == [vs[0].accuracy, vs[1].accuracy, omissionAccuracy, vs[2].accuracy]
  {
    FoxLayout();
    var slots := Layout(FoxOpcodes);
    assert SlotScores(slots[..1], vs, types, omissionAccuracy) == [vs[0].accuracy] by {
      assert slots[..1][..0] == [];
    }
    assert SlotScores(slots[..2], vs, types, omissionAccuracy) == [vs[0].accuracy, vs[1].accuracy] by {
      assert slots[..2][..1] == slots[..1];
    }
    assert SlotScores(slots[..3], vs, types, omissionAccuracy)
             == [vs[0].accuracy, vs[1].accuracy, omissionAccuracy] by {
      assert slots[..3][..2] == slots[..2];
    }
    assert SlotScores(slots[..4], vs, types, omissionAccuracy)
             == [vs[0].accuracy, vs[1].accuracy, omissionAccuracy, vs[2].accuracy] by {
      assert slots[..4][..3] == slots[..3];
    }
    assert slots[..|slots| - 1] == slots[..4];
  }
}

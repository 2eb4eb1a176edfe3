/**
 * The four scores the pronunciation view reports (vocalearn/views.py:251-269), as exact reals.
 * A Python `ZeroDivisionError` is the `Failure` value of a score.
 */
module Scores {
  import opened Wrappers
  import opened Miscue

  /** The exception a score can raise: Python's `ZeroDivisionError`. */
  datatype ScoreError = ZeroDivision

  function Sum(xs: seq<real>): real {
    if xs == [] then 0.0 else xs[0] + Sum(xs[1..])
  }

  function SumNat(ds: seq<nat>): nat {
    if ds == [] then 0 else ds[0] + SumNat(ds[1..])
  }

  predicate Within(xs: seq<real>, lo: real, hi: real) {
    forall t :: 0 <= t < |xs| ==> lo <= xs[t] <= hi
  }

  lemma {:induction false} SumBounds(xs: seq<real>, lo: real, hi: real)
    requires Within(xs, lo, hi)
    ensures (|xs| as real) * lo <= Sum(xs) <= (|xs| as real) * hi
  {
    if xs != [] {
      SumBounds(xs[1..], lo, hi);
      assert (|xs| as real) * lo == lo + (|xs[1..]| as real) * lo;
      assert (|xs| as real) * hi == hi + (|xs[1..]| as real) * hi;
    }
  }

  /** `sum(xs) / len(xs)`. */
  function Mean(xs: seq<real>): (r: Result<real, ScoreError>)
    ensures r.Failure? <==> xs == []
    ensures r.Success? ==> r.value * (|xs| as real) == Sum(xs)
  {
    if xs == [] then Failure(ZeroDivision) else Success(Sum(xs) / (|xs| as real))
  }

  /** A mean lies between the smallest and the largest bound of its terms. */
  lemma MeanBounds(xs: seq<real>, lo: real, hi: real)
    requires xs != [] && Within(xs, lo, hi)
    ensures Mean(xs).Success? && lo <= Mean(xs).value <= hi
  {
    SumBounds(xs, lo, hi);
    QuotientBounds(Sum(xs), |xs| as real, lo, hi);
  }

  lemma QuotientBounds(s: real, n: real, lo: real, hi: real)
    requires n > 0.0 && n * lo <= s <= n * hi
    ensures lo <= s / n <= hi
  {
  }

  // ---------------------------------------------------------------------------
  // Accuracy, vocalearn/views.py:251-258

  /**
   * `final_accuracy_scores`: the accuracy of every word of `ws` whose error type is not
   * Insertion, in order. Defined from the back, as the loop builds it.
   */
  function ScoredAccuracies(ws: seq<Word>): seq<real>
    reads set w | w in ws
  {
    if ws == [] then []
    else
      var last := ws[|ws| - 1];
      ScoredAccuracies(ws[..|ws| - 1]) + (if last.errorType == Insertion then [] else [last.accuracy])
  }

  /** The scored accuracies of two runs of words are those of each run, so an Insertion anywhere adds nothing. */
  lemma {:induction false} ScoredConcat(a: seq<Word>, b: seq<Word>)
    ensures ScoredAccuracies(a + b) == ScoredAccuracies(a) + ScoredAccuracies(b)
    decreases |b|
  {
    if b == [] {
      assert a + b == a;
    } else {
      var front := b[..|b| - 1];
      assert (a + b)[..|a + b| - 1] == a + front;
      ScoredConcat(a, front);
    }
  }

  /** No accuracy is scored exactly when every word is an Insertion. */
  lemma {:induction false} ScoredEmptyIff(ws: seq<Word>)
    ensures ScoredAccuracies(ws) == [] <==> forall p :: 0 <= p < |ws| ==> ws[p].errorType == Insertion
  {
    if ws != [] {
      var front := ws[..|ws| - 1];
      ScoredEmptyIff(front);
      if forall p :: 0 <= p < |ws| ==> ws[p].errorType == Insertion {
        forall p | 0 <= p < |front| ensures front[p].errorType == Insertion {
          assert front[p] == ws[p];
        }
      }
      if ScoredAccuracies(ws) == [] {
        forall p | 0 <= p < |ws| ensures ws[p].errorType == Insertion {
          if p < |front| {
            assert ws[p] == front[p];
          }
        }
      }
    }
  }

  /** Every scored accuracy is the accuracy of a word of `ws` that is not an Insertion. */
  lemma {:induction false} ScoredFromWords(ws: seq<Word>, lo: real, hi: real)
    requires forall p :: 0 <= p < |ws| && ws[p].errorType != Insertion ==> lo <= ws[p].accuracy <= hi
    ensures Within(ScoredAccuracies(ws), lo, hi)
  {
    if ws != [] {
      var front := ws[..|ws| - 1];
      forall p | 0 <= p < |front| && front[p].errorType != Insertion
        ensures lo <= front[p].accuracy <= hi
      {
        assert front[p] == ws[p];
      }
      ScoredFromWords(front, lo, hi);
    }
  }

  /** `sum(final_accuracy_scores) / len(final_accuracy_scores)`. */
  function Accuracy(ws: seq<Word>): Result<real, ScoreError>
    reads set w | w in ws
  {
    Mean(ScoredAccuracies(ws))
  }

  /**
   * The accuracy raises `ZeroDivisionError` exactly when every final word is an Insertion
   * (including when there are none); otherwise it is the mean of the other words' accuracies
   * and lies within any bounds those accuracies respect.
   */
  lemma AccuracySpec(ws: seq<Word>, lo: real, hi: real)
    requires forall p :: 0 <= p < |ws| && ws[p].errorType != Insertion ==> lo <= ws[p].accuracy <= hi
    ensures Accuracy(ws).Failure? <==> forall p :: 0 <= p < |ws| ==> ws[p].errorType == Insertion
    ensures Accuracy(ws).Success? ==> lo <= Accuracy(ws).value <= hi
  {
    ScoredEmptyIff(ws);
    ScoredFromWords(ws, lo, hi);
    if ScoredAccuracies(ws) != [] {
      MeanBounds(ScoredAccuracies(ws), lo, hi);
    }
  }

  /** The loop of vocalearn/views.py:251-256 that skips Insertion words. */
  method CollectAccuracies(finalWords: seq<Word>) returns (scores: seq<real>)
    ensures scores == ScoredAccuracies(finalWords)
  {
    scores := [];
    var t := 0;
    while t < |finalWords|
      invariant 0 <= t <= |finalWords|
      invariant scores == ScoredAccuracies(finalWords[..t])
    {
      var word := finalWords[t];
      assert finalWords[..t + 1][..t] == finalWords[..t];
      if word.errorType == Insertion {
        t := t + 1;
        continue;
      } else {
        scores := scores + [word.accuracy];
      }
      t := t + 1;
    }
    assert finalWords[..t] == finalWords;
  }

  // ---------------------------------------------------------------------------
  // Prosody, vocalearn/views.py:261-264

  /** The reported prosody score: the string "nan", or a number. */
  datatype ProsodyScore = Nan | Value(score: real)

  function Prosody(ps: seq<real>): (r: ProsodyScore)
    ensures r.Nan? <==> ps == []
    ensures r.Value? ==> r.score * (|ps| as real) == Sum(ps)
  {
    if |ps| == 0 then Nan else Value(Sum(ps) / (|ps| as real))
  }

  /** A reported prosody score is within the bounds of the utterances' prosody scores. */
  lemma ProsodyBounds(ps: seq<real>, lo: real, hi: real)
    requires Within(ps, lo, hi)
    ensures Prosody(ps).Value? ==> lo <= Prosody(ps).score <= hi
  {
    if ps != [] {
      MeanBounds(ps, lo, hi);
    }
  }

  // ---------------------------------------------------------------------------
  // Fluency, vocalearn/views.py:266

  /** `sum([x * y for (x, y) in zip(fs, ds)])`; `zip` stops at the shorter list. */
  function Weighted(fs: seq<real>, ds: seq<nat>): real {
    if fs == [] || ds == [] then 0.0 else fs[0] * (ds[0] as real) + Weighted(fs[1..], ds[1..])
  }

  /** The duration-weighted mean of the utterances' fluency scores. */
  function Fluency(fs: seq<real>, ds: seq<nat>): (r: Result<real, ScoreError>)
    ensures r.Failure? <==> SumNat(ds) == 0
    ensures r.Success? ==> r.value * (SumNat(ds) as real) == Weighted(fs, ds)
  {
    if SumNat(ds) == 0 then Failure(ZeroDivision)
    else Success(Weighted(fs, ds) / (SumNat(ds) as real))
  }

  lemma {:induction false} WeightedBounds(fs: seq<real>, ds: seq<nat>, lo: real, hi: real)
    requires |fs| == |ds| && Within(fs, lo, hi)
    ensures (SumNat(ds) as real) * lo <= Weighted(fs, ds) <= (SumNat(ds) as real) * hi
  {
    if fs != [] {
      WeightedBounds(fs[1..], ds[1..], lo, hi);
      WeightedStep(fs[0], ds[0] as real, SumNat(ds[1..]) as real, Weighted(fs[1..], ds[1..]), lo, hi);
    }
  }

  /** One step of `WeightedBounds`: adding a term of weight `d` widens both bounds by `d`. */
  lemma WeightedStep(f: real, d: real, total: real, w: real, lo: real, hi: real)
    requires d >= 0.0 && lo <= f <= hi && total * lo <= w <= total * hi
    ensures (d + total) * lo <= f * d + w <= (d + total) * hi
  {
    assert (f - lo) * d >= 0.0;
    assert (hi - f) * d >= 0.0;
  }

  /**
   * With one fluency score per utterance, the fluency is within the bounds of those scores;
   * it fails only when the utterances lasted no time at all.
   */
  lemma FluencyBounds(fs: seq<real>, ds: seq<nat>, lo: real, hi: real)
    requires |fs| == |ds| && Within(fs, lo, hi)
    ensures Fluency(fs, ds).Success? ==> lo <= Fluency(fs, ds).value <= hi
  {
    if SumNat(ds) > 0 {
      WeightedBounds(fs, ds, lo, hi);
      QuotientBounds(Weighted(fs, ds), SumNat(ds) as real, lo, hi);
    }
  }

  /** Utterances of equal non-zero duration weigh equally: fluency is then the plain mean. */
  lemma {:induction false} FluencyEqualDurations(fs: seq<real>, ds: seq<nat>, d: nat)
    requires |fs| == |ds| && fs != [] && d > 0
    requires forall t :: 0 <= t < |ds| ==> ds[t] == d
    ensures Fluency(fs, ds) == Mean(fs)
  {
    WeightedUniform(fs, ds, d);
    var n := |fs| as real;
    var dd := d as real;
    NatProductCast(|ds|, d);
    Cancel(Weighted(fs, ds), SumNat(ds) as real, Sum(fs), n, dd);
    assert Fluency(fs, ds) == Success(Sum(fs) / n);
  }

  /** A product of naturals read as a real is the product of the two reals. */
  lemma {:induction false} NatProductCast(a: nat, b: nat)
    ensures ((a * b) as real) == (a as real) * (b as real)
  {
    if a > 0 {
      NatProductCast(a - 1, b);
      assert a * b == (a - 1) * b + b;
    }
  }

  /** A common positive factor `d` of numerator and denominator cancels. */
  lemma Cancel(w: real, t: real, s: real, n: real, d: real)
    requires n > 0.0 && d > 0.0 && w == d * s && t == n * d
    ensures w / t == s / n
  {
    assert d * s == (s / n) * (n * d);
  }

  lemma {:induction false} WeightedUniform(fs: seq<real>, ds: seq<nat>, d: nat)
    requires |fs| == |ds|
    requires forall t :: 0 <= t < |ds| ==> ds[t] == d
    ensures Weighted(fs, ds) == (d as real) * Sum(fs)
    ensures SumNat(ds) == |ds| * d
  {
    if fs != [] {
      WeightedUniform(fs[1..], ds[1..], d);
    }
  }

  // ---------------------------------------------------------------------------
  // Completeness, vocalearn/views.py:268-269

  /**
   * `matched / referenceCount * 100`, capped at 100. It raises `ZeroDivisionError` exactly
   * when there are no reference words; otherwise it lies in [0, 100], is the exact
   * percentage while `matched` does not exceed `referenceCount`, and is 100 from there on.
   */
  function Completeness(matched: nat, referenceCount: nat): (r: Result<real, ScoreError>)
    ensures r.Failure? <==> referenceCount == 0
    ensures r.Success? ==> 0.0 <= r.value <= 100.0
    ensures r.Success? && matched <= referenceCount ==>
              r.value * (referenceCount as real) == 100.0 * (matched as real)
    ensures r.Success? && matched >= referenceCount ==> r.value == 100.0
  {
    if referenceCount == 0 then Failure(ZeroDivision)
    else
      var c := (matched as real) / (referenceCount as real) * 100.0;
      PercentFacts(matched as real, referenceCount as real);
      Success(if c <= 100.0 then c else 100.0)
  }

  /** `m / n * 100` undoes to `100 * m`, is non-negative, and is at most 100 exactly up to `m == n`. */
  lemma PercentFacts(m: real, n: real)
    requires m >= 0.0 && n > 0.0
    ensures var c := m / n * 100.0;
            && c * n == 100.0 * m && c >= 0.0
            && (m <= n ==> c <= 100.0) && (m >= n ==> c >= 100.0)
  {
    var q := m / n;
    assert q * n == m;
    assert (q * 100.0) * n == 100.0 * (q * n);
    if m <= n {
      QuotientBounds(m, n, 0.0, 1.0);
    }
    if m >= n {
      AtLeastOne(m, n);
    }
  }

  /** A quotient whose numerator is at least its positive denominator is at least one. */
  lemma AtLeastOne(m: real, n: real)
    requires n > 0.0 && m >= n
    ensures m / n >= 1.0
  {
    assert m / n == n / n + (m - n) / n;
    assert (m - n) / n >= 0.0;
  }

  /** The error types of a sequence of words. */
  function ErrorTypes(ws: seq<Word>): (r: seq<ErrorType>)
    reads set w | w in ws
    ensures |r| == |ws| && forall p :: 0 <= p < |ws| ==> r[p] == ws[p].errorType
  {
    seq(|ws|, p reads set w | w in ws requires 0 <= p < |ws| => ws[p].errorType)
  }

  /** `len([w for w in recognized_words if w.error_type == "None"])`. */
  function MatchedCount(ws: seq<Word>): (c: nat)
    reads set w | w in ws
    ensures c == |set p | 0 <= p < |ws| && ws[p].errorType == NoError|
  {
    CountNoErrorPositions(ErrorTypes(ws));
    assert NoErrorPositions(ErrorTypes(ws)) == set p | 0 <= p < |ws| && ws[p].errorType == NoError;
    CountNoError(ErrorTypes(ws))
  }
}

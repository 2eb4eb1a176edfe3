/**
 * The miscue merge of the pronunciation-assessment view (vocalearn/views.py:228-249).
 *
 * The reference words are aligned against the lower-cased recognised words by an edit
 * script (the opcodes of `difflib.SequenceMatcher`), taken here as an input that meets
 * the library's documented contract. The merge walks the opcodes, re-tagging recognised
 * words of insert/replace spans in place and synthesising one Omission word per reference
 * word of delete/replace spans.
 */
module Miscue {
  import opened Wrappers
  import Text

  /** The SDK's per-word `ErrorType` strings; `NoError` is the string "None". */
  datatype ErrorType = NoError | Omission | Insertion | Mispronunciation
                     | UnexpectedBreak | MissingBreak | Monotone

  /**
   * One `PronunciationAssessmentWordResult`. Its error type is a mutable field: the merge
   * overwrites it on the very objects that `recognized_words` still refers to.
   */
  class Word {
    const text: string
    const accuracy: real
    var errorType: ErrorType

    constructor (text: string, accuracy: real, errorType: ErrorType)
      ensures this.text == text && this.accuracy == accuracy && this.errorType == errorType
    {
      this.text := text;
      this.accuracy := accuracy;
      this.errorType := errorType;
    }
  }

  predicate Distinct(ws: seq<Word>) {
    forall p, q :: 0 <= p < q < |ws| ==> ws[p] != ws[q]
  }

  /** `[x.word.lower() for x in recognized_words]`, the second sequence given to the matcher. */
  function LowerTexts(ws: seq<Word>): (r: seq<string>)
    ensures |r| == |ws|
    ensures forall i :: 0 <= i < |ws| ==> r[i] == Text.Lower(ws[i].text)
  {
    seq(|ws|, i requires 0 <= i < |ws| => Text.Lower(ws[i].text))
  }

  // ---------------------------------------------------------------------------
  // Opcodes and their contract

  datatype Tag = Replace | Delete | Insert | Equal

  /** `(tag, i1, i2, j1, j2)`: reference span `a[i1:i2]` against recognised span `b[j1:j2]`. */
  datatype Opcode = Opcode(tag: Tag, i1: nat, i2: nat, j1: nat, j2: nat)

  /** The opcodes tile `a[i:n]` and `b[j:m]` contiguously, starting at `(i, j)`. */
  predicate TilesFrom(ops: seq<Opcode>, i: nat, j: nat, n: nat, m: nat)
    decreases |ops|
  {
    if ops == [] then i == n && j == m
    else
      && ops[0].i1 == i && ops[0].j1 == j
      && ops[0].i1 <= ops[0].i2 && ops[0].j1 <= ops[0].j2
      && TilesFrom(ops[1..], ops[0].i2, ops[0].j2, n, m)
  }

  /** `insert` spans cover no reference word and `delete` spans no recognised word. */
  predicate Aligned(ops: seq<Opcode>) {
    forall k :: 0 <= k < |ops| ==>
      (ops[k].tag == Insert ==> ops[k].i1 == ops[k].i2) &&
      (ops[k].tag == Delete ==> ops[k].j1 == ops[k].j2)
  }

  /** `equal` spans pair equal elements. */
  predicate EqualSpansMatch(ops: seq<Opcode>, a: seq<string>, b: seq<string>) {
    forall k :: 0 <= k < |ops| && ops[k].tag == Equal ==>
      ops[k].i1 <= ops[k].i2 <= |a| && ops[k].j1 <= ops[k].j2 <= |b| &&
      a[ops[k].i1..ops[k].i2] == b[ops[k].j1..ops[k].j2]
  }

  /** What `get_opcodes()` promises about its result for sequences `a` and `b`. */
  predicate WellFormed(ops: seq<Opcode>, a: seq<string>, b: seq<string>) {
    TilesFrom(ops, 0, 0, |a|, |b|) && Aligned(ops) && EqualSpansMatch(ops, a, b)
  }

  lemma {:induction false} TilesBounds(ops: seq<Opcode>, i: nat, j: nat, n: nat, m: nat)
    requires TilesFrom(ops, i, j, n, m)
    ensures i <= n && j <= m
    ensures forall k :: 0 <= k < |ops| ==>
              i <= ops[k].i1 <= ops[k].i2 <= n && j <= ops[k].j1 <= ops[k].j2 <= m
    decreases |ops|
  {
    if ops != [] {
      TilesBounds(ops[1..], ops[0].i2, ops[0].j2, n, m);
      forall k | 1 <= k < |ops|
        ensures i <= ops[k].i1 <= ops[k].i2 <= n && j <= ops[k].j1 <= ops[k].j2 <= m
      {
        assert ops[k] == ops[1..][k - 1];
      }
    }
  }

  // ---------------------------------------------------------------------------
  // Which opcode a recognised word falls in

  /** The tag of the first opcode whose recognised span contains index `j`. */
  function RecTag(ops: seq<Opcode>, j: nat): Option<Tag>
    decreases |ops|
  {
    if ops == [] then None
    else if ops[0].j1 <= j < ops[0].j2 then Some(ops[0].tag)
    else RecTag(ops[1..], j)
  }

  predicate IsMiscue(t: Option<Tag>) {
    t == Some(Insert) || t == Some(Replace)
  }

  /** A word of an opcode's recognised span is attributed to exactly that opcode. */
  lemma {:induction false} RecTagFindsOwner(ops: seq<Opcode>, i: nat, j0: nat, n: nat, m: nat, k: nat, j: nat)
    requires TilesFrom(ops, i, j0, n, m)
    requires k < |ops| && ops[k].j1 <= j < ops[k].j2
    ensures RecTag(ops, j) == Some(ops[k].tag)
    decreases k
  {
    if k > 0 {
      TilesBounds(ops[1..], ops[0].i2, ops[0].j2, n, m);
      assert ops[1..][k - 1] == ops[k];
      RecTagFindsOwner(ops[1..], ops[0].i2, ops[0].j2, n, m, k - 1, j);
    }
  }

  /**
   * Every recognised word lies in the span of some opcode, and never in a delete span.
   */
  lemma {:induction false} RecTagTotal(ops: seq<Opcode>, i: nat, j0: nat, n: nat, m: nat, j: nat)
    requires TilesFrom(ops, i, j0, n, m) && Aligned(ops)
    requires j0 <= j < m
    ensures RecTag(ops, j).Some? && RecTag(ops, j) != Some(Delete)
    decreases |ops|
  {
    if ops != [] && !(ops[0].j1 <= j < ops[0].j2) {
      assert Aligned(ops[1..]) by {
        forall k | 0 <= k < |ops[1..]| ensures ops[1..][k] == ops[k + 1] { }
      }
      RecTagTotal(ops[1..], ops[0].i2, ops[0].j2, n, m, j);
    }
  }

  // ---------------------------------------------------------------------------
  // Re-tagging

  /** `if word.error_type == 'None': word._error_type = 'Insertion'`, applied inside a miscue span. */
  function Retag(e: ErrorType, inMiscueSpan: bool): ErrorType {
    if inMiscueSpan && e == NoError then Insertion else e
  }

  /** The error types of the recognised words once the merge has run. */
  function Retagged(orig: seq<ErrorType>, ops: seq<Opcode>): (r: seq<ErrorType>)
    ensures |r| == |orig|
  {
    seq(|orig|, j requires 0 <= j < |orig| => Retag(orig[j], IsMiscue(RecTag(ops, j))))
  }

  function CountNoError(es: seq<ErrorType>): (c: nat)
    ensures c <= |es|
  {
    if es == [] then 0 else (if es[0] == NoError then 1 else 0) + CountNoError(es[1..])
  }

  lemma {:induction false} CountNoErrorConcat(a: seq<ErrorType>, b: seq<ErrorType>)
    ensures CountNoError(a + b) == CountNoError(a) + CountNoError(b)
  {
    if a == [] {
      assert a + b == b;
    } else {
      assert (a + b)[1..] == a[1..] + b;
      CountNoErrorConcat(a[1..], b);
    }
  }

  /** The positions holding `None`. */
  function NoErrorPositions(es: seq<ErrorType>): set<int> {
    set p | 0 <= p < |es| && es[p] == NoError
  }

  /** `CountNoError` counts exactly the positions that hold `None`. */
  lemma {:induction false} CountNoErrorPositions(es: seq<ErrorType>)
    ensures CountNoError(es) == |NoErrorPositions(es)|
    decreases |es|
  {
    if es != [] {
      var n := |es| - 1;
      var front := es[..n];
      CountNoErrorPositions(front);
      assert es == front + [es[n]];
      CountNoErrorConcat(front, [es[n]]);
      assert CountNoError([es[n]]) == if es[n] == NoError then 1 else 0 by {
        assert [es[n]][1..] == [];
      }
      var tail: set<int> := if es[n] == NoError then {n} else {};
      assert NoErrorPositions(es) == NoErrorPositions(front) + tail by {
        forall p ensures p in NoErrorPositions(es) <==> p in NoErrorPositions(front) + tail {
          if 0 <= p < n {
            assert es[p] == front[p];
          }
        }
      }
      assert n !in NoErrorPositions(front);
    }
  }

  lemma {:induction false} CountNoErrorZero(es: seq<ErrorType>)
    requires forall q :: 0 <= q < |es| ==> es[q] != NoError
    ensures CountNoError(es) == 0
  {
    if es != [] {
      CountNoErrorZero(es[1..]);
    }
  }

  /**
   * After the merge, every recognised word still tagged `None` lies in an `equal` span, and
   * the equal spans hold no more recognised words than there are reference words. So the
   * completeness count never exceeds the number of reference words, and the cap at 100 in
   * vocalearn/views.py:269 never changes the result for well-formed opcodes.
   */
  lemma MatchedWithinReference(orig: seq<ErrorType>, ops: seq<Opcode>, a: seq<string>, b: seq<string>)
    requires WellFormed(ops, a, b) && |orig| == |b|
    ensures CountNoError(Retagged(orig, ops)) <= |a|
  {
    MatchedWithinReferenceFrom(orig, ops, a, b, 0, 0);
    assert Retagged(orig, ops)[0..] == Retagged(orig, ops);
  }

  lemma {:induction false} MatchedWithinReferenceFrom(orig: seq<ErrorType>, ops: seq<Opcode>,
                                                      a: seq<string>, b: seq<string>, i: nat, j: nat)
    requires TilesFrom(ops, i, j, |a|, |b|) && Aligned(ops) && EqualSpansMatch(ops, a, b)
    requires |orig| == |b|
    ensures j <= |b| && CountNoError(Retagged(orig, ops)[j..]) <= |a| - i
    decreases |ops|
  {
    TilesBounds(ops, i, j, |a|, |b|);
    if ops == [] {
      assert Retagged(orig, ops)[j..] == [];
    } else {
      var op := ops[0];
      var rest := ops[1..];
      assert EqualSpansMatch(rest, a, b) && Aligned(rest) by {
        forall k | 0 <= k < |rest| ensures rest[k] == ops[k + 1] { }
      }
      MatchedWithinReferenceFrom(orig, rest, a, b, op.i2, op.j2);
      HeadSpanCount(orig, ops, a, b, i, j);
      var all := Retagged(orig, ops);
      RetaggedTail(orig, ops);
      assert all[j..] == all[j..op.j2] + all[op.j2..];
      CountNoErrorConcat(all[j..op.j2], all[op.j2..]);
    }
  }

  /** The words of the first opcode's recognised span still tagged `None` number at most its reference span. */
  lemma HeadSpanCount(orig: seq<ErrorType>, ops: seq<Opcode>, a: seq<string>, b: seq<string>, i: nat, j: nat)
    requires ops != [] && TilesFrom(ops, i, j, |a|, |b|) && Aligned(ops) && EqualSpansMatch(ops, a, b)
    requires |orig| == |b|
    ensures ops[0].j2 <= |b| && CountNoError(Retagged(orig, ops)[j..ops[0].j2]) <= ops[0].i2 - i
  {
    var op := ops[0];
    TilesBounds(ops, i, j, |a|, |b|);
    var span := Retagged(orig, ops)[j..op.j2];
    if op.tag == Insert || op.tag == Replace {
      forall q | 0 <= q < |span| ensures span[q] != NoError {
        assert span[q] == Retagged(orig, ops)[j + q];
      }
      CountNoErrorZero(span);
    } else if op.tag == Equal {
      assert |a[op.i1..op.i2]| == |b[op.j1..op.j2]|;
    }
  }

  /** Past the first opcode's recognised span, re-tagging is decided by the remaining opcodes. */
  lemma RetaggedTail(orig: seq<ErrorType>, ops: seq<Opcode>)
    requires ops != [] && ops[0].j1 <= ops[0].j2 <= |orig|
    ensures Retagged(orig, ops)[ops[0].j2..] == Retagged(orig, ops[1..])[ops[0].j2..]
  {
    var all := Retagged(orig, ops);
    var later := Retagged(orig, ops[1..]);
    forall q | ops[0].j2 <= q < |orig| ensures all[q] == later[q] { }
  }

  /**
   * The re-tagging rules, span by span: a recognised word of an insert or replace span that
   * was `None` becomes Insertion and keeps any other tag; a word of an equal span keeps its
   * tag; and no recognised word lies in a delete span.
   */
  lemma RetaggedBySpan(orig: seq<ErrorType>, ops: seq<Opcode>, a: seq<string>, b: seq<string>, k: nat, j: nat)
    requires WellFormed(ops, a, b) && |orig| == |b|
    requires k < |ops| && ops[k].j1 <= j < ops[k].j2
    ensures j < |orig| && ops[k].tag != Delete
    ensures ops[k].tag == Equal ==> Retagged(orig, ops)[j] == orig[j]
    ensures (ops[k].tag == Insert || ops[k].tag == Replace) ==>
              Retagged(orig, ops)[j] == if orig[j] == NoError then Insertion else orig[j]
  {
    TilesBounds(ops, 0, 0, |a|, |b|);
    RecTagFindsOwner(ops, 0, 0, |a|, |b|, k, j);
  }

  // ---------------------------------------------------------------------------
  // The layout of final_words

  /** The entry a position of `final_words` holds: recognised word `j`, or an Omission for reference word `i`. */
  datatype Slot = Recognized(j: nat) | Omitted(i: nat)

  function RecognizedRun(j1: nat, j2: nat): (r: seq<Slot>)
    ensures |r| == if j1 <= j2 then j2 - j1 else 0
  {
    if j1 < j2 then seq(j2 - j1, t requires 0 <= t < j2 - j1 => Recognized(j1 + t)) else []
  }

  function OmittedRun(i1: nat, i2: nat): (r: seq<Slot>)
    ensures |r| == if i1 <= i2 then i2 - i1 else 0
  {
    if i1 < i2 then seq(i2 - i1, t requires 0 <= t < i2 - i1 => Omitted(i1 + t)) else []
  }

  /** The entries one opcode contributes, in the order the three `if`s of the loop append them. */
  function OpSlots(op: Opcode): seq<Slot> {
    (if op.tag == Insert || op.tag == Replace then RecognizedRun(op.j1, op.j2) else [])
    + (if op.tag == Delete || op.tag == Replace then OmittedRun(op.i1, op.i2) else [])
    + (if op.tag == Equal then RecognizedRun(op.j1, op.j2) else [])
  }

  function Layout(ops: seq<Opcode>): seq<Slot>
    decreases |ops|
  {
    if ops == [] then [] else OpSlots(ops[0]) + Layout(ops[1..])
  }

  lemma {:induction false} LayoutConcat(a: seq<Opcode>, b: seq<Opcode>)
    ensures Layout(a + b) == Layout(a) + Layout(b)
    decreases |a|
  {
    if a == [] {
      assert a + b == b;
    } else {
      assert (a + b)[1..] == a[1..] + b;
      LayoutConcat(a[1..], b);
    }
  }

  lemma LayoutSnoc(ops: seq<Opcode>, k: nat)
    requires k < |ops|
    ensures Layout(ops[..k + 1]) == Layout(ops[..k]) + OpSlots(ops[k])
  {
    assert ops[..k + 1] == ops[..k] + [ops[k]];
    LayoutConcat(ops[..k], [ops[k]]);
    assert Layout([ops[k]]) == OpSlots(ops[k]) + Layout([]);
  }

  /** The recognised-word indices of a layout, in layout order. */
  function RecognizedIndices(slots: seq<Slot>): seq<nat> {
    if slots == [] then []
    else (if slots[0].Recognized? then [slots[0].j] else []) + RecognizedIndices(slots[1..])
  }

  /** The reference-word indices of the Omission entries of a layout, in layout order. */
  function OmittedIndices(slots: seq<Slot>): seq<nat> {
    if slots == [] then []
    else (if slots[0].Omitted? then [slots[0].i] else []) + OmittedIndices(slots[1..])
  }

  lemma IndicesConcat(a: seq<Slot>, b: seq<Slot>)
    ensures RecognizedIndices(a + b) == RecognizedIndices(a) + RecognizedIndices(b)
    ensures OmittedIndices(a + b) == OmittedIndices(a) + OmittedIndices(b)
  {
    RecognizedIndicesConcat(a, b);
    OmittedIndicesConcat(a, b);
  }

  lemma {:induction false} RecognizedIndicesConcat(a: seq<Slot>, b: seq<Slot>)
    ensures RecognizedIndices(a + b) == RecognizedIndices(a) + RecognizedIndices(b)
  {
    if a == [] {
      assert a + b == b;
    } else {
      assert (a + b)[0] == a[0];
      assert (a + b)[1..] == a[1..] + b;
      RecognizedIndicesConcat(a[1..], b);
    }
  }

  lemma {:induction false} OmittedIndicesConcat(a: seq<Slot>, b: seq<Slot>)
    ensures OmittedIndices(a + b) == OmittedIndices(a) + OmittedIndices(b)
  {
    if a == [] {
      assert a + b == b;
    } else {
      assert (a + b)[0] == a[0];
      assert (a + b)[1..] == a[1..] + b;
      OmittedIndicesConcat(a[1..], b);
    }
  }

  lemma {:induction false} IndicesPartition(s: seq<Slot>)
    ensures |s| == |RecognizedIndices(s)| + |OmittedIndices(s)|
  {
    if s != [] {
      IndicesPartition(s[1..]);
    }
  }

  function Range(lo: nat, hi: nat): (r: seq<nat>)
    ensures |r| == if lo <= hi then hi - lo else 0
    decreases hi - lo
  {
    if lo < hi then [lo] + Range(lo + 1, hi) else []
  }

  lemma {:induction false} RangeConcat(lo: nat, mid: nat, hi: nat)
    requires lo <= mid <= hi
    ensures Range(lo, hi) == Range(lo, mid) + Range(mid, hi)
    decreases mid - lo
  {
    if lo < mid {
      RangeConcat(lo + 1, mid, hi);
    }
  }

  lemma {:induction false} RunIndices(lo: nat, hi: nat)
    ensures RecognizedIndices(RecognizedRun(lo, hi)) == Range(lo, hi)
    ensures OmittedIndices(RecognizedRun(lo, hi)) == []
    ensures RecognizedIndices(OmittedRun(lo, hi)) == []
    ensures OmittedIndices(OmittedRun(lo, hi)) == Range(lo, hi)
    decreases hi - lo
  {
    if lo < hi {
      RunIndices(lo + 1, hi);
      assert RecognizedRun(lo, hi) == [Recognized(lo)] + RecognizedRun(lo + 1, hi);
      assert OmittedRun(lo, hi) == [Omitted(lo)] + OmittedRun(lo + 1, hi);
    }
  }

  lemma OpIndices(op: Opcode)
    requires op.tag == Delete ==> op.j1 == op.j2
    ensures RecognizedIndices(OpSlots(op)) ==
              if op.tag == Delete then [] else Range(op.j1, op.j2)
    ensures OmittedIndices(OpSlots(op)) ==
              if op.tag == Delete || op.tag == Replace then Range(op.i1, op.i2) else []
  {
    RunIndices(op.j1, op.j2);
    RunIndices(op.i1, op.i2);
    var r := if op.tag == Insert || op.tag == Replace then RecognizedRun(op.j1, op.j2) else [];
    var o := if op.tag == Delete || op.tag == Replace then OmittedRun(op.i1, op.i2) else [];
    var e := if op.tag == Equal then RecognizedRun(op.j1, op.j2) else [];
    IndicesConcat(r, o);
    IndicesConcat(r + o, e);
  }

  /** The reference words that lie in delete/replace spans, in order. */
  function OmittedReference(ops: seq<Opcode>): seq<nat>
    decreases |ops|
  {
    if ops == [] then []
    else (if ops[0].tag == Delete || ops[0].tag == Replace then Range(ops[0].i1, ops[0].i2) else [])
         + OmittedReference(ops[1..])
  }

  /**
   * For opcodes tiling the recognised words `j..m`: those words appear in `final_words`
   * exactly once each and in their original order, and the Omission entries are the
   * reference words of the delete/replace spans, in order.
   */
  lemma {:induction false} LayoutIndices(ops: seq<Opcode>, i: nat, j: nat, n: nat, m: nat)
    requires TilesFrom(ops, i, j, n, m) && Aligned(ops)
    ensures RecognizedIndices(Layout(ops)) == Range(j, m)
    ensures OmittedIndices(Layout(ops)) == OmittedReference(ops)
    decreases |ops|
  {
    if ops != [] {
      var op := ops[0];
      assert Aligned(ops[1..]) by {
        forall k | 0 <= k < |ops[1..]| ensures ops[1..][k] == ops[k + 1] { }
      }
      LayoutIndices(ops[1..], op.i2, op.j2, n, m);
      TilesBounds(ops[1..], op.i2, op.j2, n, m);
      OpIndices(op);
      IndicesConcat(OpSlots(op), Layout(ops[1..]));
      RangeConcat(j, op.j2, m);
    } else {
      assert Range(j, m) == [];
    }
  }

  /**
   * `final_words` holds one entry per recognised word plus one per reference word lying in a
   * delete/replace span; the recognised words keep their relative order and each appears once.
   */
  lemma FinalWordsShape(ops: seq<Opcode>, a: seq<string>, b: seq<string>)
    requires WellFormed(ops, a, b)
    ensures RecognizedIndices(Layout(ops)) == Range(0, |b|)
    ensures |Layout(ops)| == |b| + |OmittedReference(ops)|
  {
    LayoutIndices(ops, 0, 0, |a|, |b|);
    IndicesPartition(Layout(ops));
  }

  /** Within a replace span the recognised words come before that span's Omission entries. */
  lemma ReplaceSpanOrder(ops: seq<Opcode>, k: nat)
    requires k < |ops| && ops[k].tag == Replace
    ensures var base := |Layout(ops[..k])|;
            var run := RecognizedRun(ops[k].j1, ops[k].j2) + OmittedRun(ops[k].i1, ops[k].i2);
            base + |run| <= |Layout(ops)| && Layout(ops)[base..base + |run|] == run
  {
    assert ops == ops[..k] + ([ops[k]] + ops[k + 1..]);
    LayoutConcat(ops[..k], [ops[k]] + ops[k + 1..]);
    assert Layout([ops[k]] + ops[k + 1..]) == OpSlots(ops[k]) + Layout(ops[k + 1..]);
  }

  // ---------------------------------------------------------------------------
  // The merge, vocalearn/views.py:230-247

  /**
   * One `insert`/`replace` span: re-tag each recognised word of `recognized[j1:j2]` whose
   * error type is `None` as `Insertion`, in place, and append it to `final_words`.
   */
  method AppendMiscueSpan(final: seq<Word>, recognized: seq<Word>, j1: nat, j2: nat)
    returns (final': seq<Word>)
    requires j1 <= j2 <= |recognized| && Distinct(recognized)
    modifies set j | j1 <= j < j2 :: recognized[j]
    ensures final' == final + recognized[j1..j2]
    ensures forall j :: 0 <= j < |recognized| ==>
              recognized[j].errorType == Retag(old(recognized[j].errorType), j1 <= j < j2)
  {
    final' := final;
    var t := j1;
    while t < j2
      invariant j1 <= t <= j2
      invariant final' == final + recognized[j1..t]
      invariant forall j :: 0 <= j < |recognized| ==>
                  recognized[j].errorType == Retag(old(recognized[j].errorType), j1 <= j < t)
    {
      var word := recognized[t];
      if word.errorType == NoError {
        word.errorType := Insertion;
      }
      final' := final' + [word];
      assert recognized[j1..t + 1] == recognized[j1..t] + [recognized[t]];
      t := t + 1;
    }
  }

  /** One `delete`/`replace` span: append a new Omission word for each of `reference[i1:i2]`. */
  method AppendOmissions(final: seq<Word>, reference: seq<string>, i1: nat, i2: nat, omissionAccuracy: real)
    returns (final': seq<Word>)
    requires i1 <= i2 <= |reference|
    ensures |final'| == |final| + (i2 - i1) && final'[..|final|] == final
    ensures forall p :: |final| <= p < |final'| ==>
              && fresh(final'[p])
              && final'[p].text == reference[i1 + (p - |final|)]
              && final'[p].accuracy == omissionAccuracy
              && final'[p].errorType == Omission
  {
    final' := final;
    var s := i1;
    while s < i2
      invariant i1 <= s <= i2
      invariant |final'| == |final| + (s - i1) && final'[..|final|] == final
      invariant forall p :: |final| <= p < |final'| ==>
                  && fresh(final'[p])
                  && final'[p].text == reference[i1 + (p - |final|)]
                  && final'[p].accuracy == omissionAccuracy
                  && final'[p].errorType == Omission
    {
      var word := new Word(reference[s], omissionAccuracy, Omission);
      final' := final' + [word];
      s := s + 1;
    }
  }

  /**
   * Entry `w` of `final_words` realises `slot`: a recognised slot is the very object
   * `recognized[j]`; an omitted slot is a word that is none of the recognised objects and
   * spells reference word `i` with the accuracy the merge gives omissions.
   */
  predicate RealizesAt(w: Word, slot: Slot, recognized: seq<Word>, reference: seq<string>,
                       omissionAccuracy: real)
  {
    match slot
    case Recognized(j) => j < |recognized| && w == recognized[j]
    case Omitted(i) =>
      i < |reference| && w !in recognized && w.text == reference[i] && w.accuracy == omissionAccuracy
  }

  predicate Realizes(final: seq<Word>, slots: seq<Slot>, recognized: seq<Word>,
                     reference: seq<string>, omissionAccuracy: real)
  {
    && |final| == |slots|
    && forall p :: 0 <= p < |slots| ==>
         RealizesAt(final[p], slots[p], recognized, reference, omissionAccuracy)
  }

  lemma RealizesConcat(f1: seq<Word>, s1: seq<Slot>, f2: seq<Word>, s2: seq<Slot>,
                       recognized: seq<Word>, reference: seq<string>, omissionAccuracy: real)
    requires Realizes(f1, s1, recognized, reference, omissionAccuracy)
    requires Realizes(f2, s2, recognized, reference, omissionAccuracy)
    ensures Realizes(f1 + f2, s1 + s2, recognized, reference, omissionAccuracy)
  {
    forall p | 0 <= p < |s1 + s2|
      ensures RealizesAt((f1 + f2)[p], (s1 + s2)[p], recognized, reference, omissionAccuracy)
    {
      if p < |s1| {
        assert (f1 + f2)[p] == f1[p] && (s1 + s2)[p] == s1[p];
      } else {
        assert (f1 + f2)[p] == f2[p - |f1|] && (s1 + s2)[p] == s2[p - |s1|];
      }
    }
  }

  lemma RealizesRecognizedRun(recognized: seq<Word>, j1: nat, j2: nat, reference: seq<string>,
                              omissionAccuracy: real)
    requires j1 <= j2 <= |recognized|
    ensures Realizes(recognized[j1..j2], RecognizedRun(j1, j2), recognized, reference, omissionAccuracy)
  {
  }

  lemma RealizesOmittedRun(ws: seq<Word>, i1: nat, i2: nat, recognized: seq<Word>,
                           reference: seq<string>, omissionAccuracy: real)
    requires i1 <= i2 <= |reference| && |ws| == i2 - i1
    requires forall p :: 0 <= p < |ws| ==>
               ws[p] !in recognized && ws[p].text == reference[i1 + p] && ws[p].accuracy == omissionAccuracy
    ensures Realizes(ws, OmittedRun(i1, i2), recognized, reference, omissionAccuracy)
  {
  }

  /**
   * The body of the merge loop for one opcode: `added` holds the entries `OpSlots(op)` it
   * appends to `final_words`, and only the recognised words of an insert/replace span are
   * re-tagged.
   */
  method MergeOpcode(reference: seq<string>, recognized: seq<Word>, op: Opcode, omissionAccuracy: real)
    returns (added: seq<Word>)
    requires op.i1 <= op.i2 <= |reference| && op.j1 <= op.j2 <= |recognized|
    requires Distinct(recognized)
    modifies set j | op.j1 <= j < op.j2 :: recognized[j]
    ensures Realizes(added, OpSlots(op), recognized, reference, omissionAccuracy)
    ensures forall p :: 0 <= p < |added| && added[p] !in recognized ==>
              fresh(added[p]) && added[p].errorType == Omission
    ensures forall j :: 0 <= j < |recognized| ==>
              recognized[j].errorType ==
                Retag(old(recognized[j].errorType), IsMiscue(Some(op.tag)) && op.j1 <= j < op.j2)
  {
    var miscue: seq<Word> := [];
    if op.tag == Insert || op.tag == Replace {
      miscue := AppendMiscueSpan([], recognized, op.j1, op.j2);
      RealizesRecognizedRun(recognized, op.j1, op.j2, reference, omissionAccuracy);
    }
    var omitted: seq<Word> := [];
    if op.tag == Delete || op.tag == Replace {
      omitted := AppendOmissions([], reference, op.i1, op.i2, omissionAccuracy);
      RealizesOmittedRun(omitted, op.i1, op.i2, recognized, reference, omissionAccuracy);
    }
    var equal: seq<Word> := [];
    if op.tag == Equal {
      equal := recognized[op.j1..op.j2];
      RealizesRecognizedRun(recognized, op.j1, op.j2, reference, omissionAccuracy);
    }
    ghost var r := if op.tag == Insert || op.tag == Replace then RecognizedRun(op.j1, op.j2) else [];
    ghost var o := if op.tag == Delete || op.tag == Replace then OmittedRun(op.i1, op.i2) else [];
    ghost var e := if op.tag == Equal then RecognizedRun(op.j1, op.j2) else [];
    RealizesConcat(miscue, r, omitted, o, recognized, reference, omissionAccuracy);
    RealizesConcat(miscue + omitted, r + o, equal, e, recognized, reference, omissionAccuracy);
    added := miscue + omitted + equal;
  }

  /**
   * The merge loop. `final` realises `Layout(ops)` entry by entry: a recognised entry is the
   * very object `recognized[j]` (so later reads of `recognized` see its new tag), every other
   * entry is a newly allocated word tagged Omission. Every recognised word of an insert/replace
   * span whose tag was `None` is now `Insertion`; all other words, and every word of an equal
   * span, keep their tag.
   */
  method Merge(reference: seq<string>, recognized: seq<Word>, ops: seq<Opcode>, omissionAccuracy: real)
    returns (final: seq<Word>)
    requires Distinct(recognized)
    requires WellFormed(ops, reference, LowerTexts(recognized))
    modifies set w | w in recognized
    ensures Realizes(final, Layout(ops), recognized, reference, omissionAccuracy)
    ensures forall p :: 0 <= p < |final| && final[p] !in recognized ==>
              fresh(final[p]) && final[p].errorType == Omission
    ensures forall j :: 0 <= j < |recognized| ==>
              recognized[j].errorType == Retag(old(recognized[j].errorType), IsMiscue(RecTag(ops, j)))
  {
    ghost var n, m := |reference|, |recognized|;
    final := [];
    var k := 0;
    ghost var ii: nat, jj: nat := 0, 0;
    while k < |ops|
      invariant 0 <= k <= |ops|
      invariant TilesFrom(ops[k..], ii, jj, n, m)
      invariant forall j :: 0 <= j < m ==>
                  recognized[j].errorType ==
                    if j < jj then Retag(old(recognized[j].errorType), IsMiscue(RecTag(ops, j)))
                    else old(recognized[j].errorType)
      invariant Realizes(final, Layout(ops[..k]), recognized, reference, omissionAccuracy)
      invariant forall p :: 0 <= p < |final| && final[p] !in recognized ==>
                  fresh(final[p]) && final[p].errorType == Omission
    {
      var op := ops[k];
      assert ops[k..][1..] == ops[k + 1..];
      TilesBounds(ops[k..], ii, jj, n, m);
      forall j | op.j1 <= j < op.j2 ensures RecTag(ops, j) == Some(op.tag) {
        RecTagFindsOwner(ops, 0, 0, n, m, k, j);
      }
      LayoutSnoc(ops, k);
      label before:
      var added := MergeOpcode(reference, recognized, op, omissionAccuracy);
      forall j | 0 <= j < m
        ensures recognized[j].errorType ==
                  if j < op.j2 then Retag(old(recognized[j].errorType), IsMiscue(RecTag(ops, j)))
                  else old(recognized[j].errorType)
      {
        if op.j1 <= j < op.j2 {
          assert old@before(recognized[j].errorType) == old(recognized[j].errorType);
        }
      }
      RealizesConcat(final, Layout(ops[..k]), added, OpSlots(op), recognized, reference, omissionAccuracy);
      forall p | 0 <= p < |final + added| && (final + added)[p] !in recognized
        ensures fresh((final + added)[p]) && (final + added)[p].errorType == Omission
      {
        if p < |final| {
          assert (final + added)[p] == final[p];
        } else {
          assert (final + added)[p] == added[p - |final|];
        }
      }
      final := final + added;
      k, ii, jj := k + 1, op.i2, op.j2;
    }
    assert ops[..k] == ops;
  }
}

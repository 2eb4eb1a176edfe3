/**
 * String operations of the Python runtime that the pronunciation view relies on:
 * `str.lower()`, `str.split()` with no argument, `str.strip(string.punctuation)`
 * and `' '.join(...)`, and the reference-text tokeniser built from them
 * (vocalearn/views.py:226).
 */
module Text {

  /** The characters Python's `str.split()` (no argument) treats as whitespace. */
  predicate IsSpace(c: char) {
    c == ' ' || ('\t' <= c <= '\r') || ('\U{1C}' <= c <= '\U{1F}')
    || c == '\U{85}' || c == '\U{A0}' || c == '\U{1680}'
    || ('\U{2000}' <= c <= '\U{200A}') || c == '\U{2028}' || c == '\U{2029}'
    || c == '\U{202F}' || c == '\U{205F}' || c == '\U{3000}'
  }

  /** The 32 ASCII punctuation characters of Python's `string.punctuation`. */
  predicate IsPunct(c: char) {
    ('!' <= c <= '/') || (':' <= c <= '@') || ('[' <= c <= '`') || ('{' <= c <= '~')
  }

  predicate NoSpace(w: string) {
    forall i :: 0 <= i < |w| ==> !IsSpace(w[i])
  }

  predicate AllPunct(w: string) {
    forall i :: 0 <= i < |w| ==> IsPunct(w[i])
  }

  predicate IsUpper(c: char) {
    'A' <= c <= 'Z'
  }

  /** `str.lower()` on one character; only ASCII letters are mapped. */
  function LowerChar(c: char): char {
    if IsUpper(c) then (c as int + 32) as char else c
  }

  /**
   * `str.lower()` restricted to ASCII: the result has no capital, every other character is
   * kept, and a capital becomes the small letter at the same place in the alphabet.
   */
  function Lower(s: string): (r: string)
    ensures |r| == |s| && NoUpper(r)
    ensures forall i :: 0 <= i < |s| && !IsUpper(s[i]) ==> r[i] == s[i]
    ensures forall i :: 0 <= i < |s| && IsUpper(s[i]) ==>
              'a' <= r[i] <= 'z' && r[i] as int - 'a' as int == s[i] as int - 'A' as int
  {
    seq(|s|, i requires 0 <= i < |s| => LowerChar(s[i]))
  }

  /** Lower-casing twice is lower-casing once. */
  lemma LowerIdempotent(s: string)
    ensures Lower(Lower(s)) == Lower(s)
  {
  }

  // ---------------------------------------------------------------------------
  // str.split()

  /** Index of the first whitespace character of `s`, or `|s|` if there is none. */
  function SpaceIndex(s: string): (k: nat)
    ensures k <= |s|
  {
    if s == [] || IsSpace(s[0]) then 0 else 1 + SpaceIndex(s[1..])
  }

  lemma {:induction false} SpaceIndexSpec(s: string)
    ensures forall i :: 0 <= i < SpaceIndex(s) ==> !IsSpace(s[i])
    ensures SpaceIndex(s) < |s| ==> IsSpace(s[SpaceIndex(s)])
  {
    if s != [] && !IsSpace(s[0]) {
      SpaceIndexSpec(s[1..]);
      forall i | 0 < i < SpaceIndex(s) ensures !IsSpace(s[i]) {
        assert s[i] == s[1..][i - 1];
      }
    }
  }

  lemma {:induction false} SpaceIndexIs(s: string, k: nat)
    requires k <= |s|
    requires forall i :: 0 <= i < k ==> !IsSpace(s[i])
    requires k < |s| ==> IsSpace(s[k])
    ensures SpaceIndex(s) == k
  {
    if k > 0 {
      forall i | 0 <= i < k - 1 ensures !IsSpace(s[1..][i]) {
        assert s[1..][i] == s[i + 1];
      }
      SpaceIndexIs(s[1..], k - 1);
    }
  }

  /**
   * Python's `s.split()`: the maximal runs of non-whitespace characters, in order.
   * Leading, trailing and repeated whitespace produce no empty chunks.
   */
  function Split(s: string): seq<string>
    decreases |s|
  {
    var k := SpaceIndex(s);
    if k == |s| then (if k == 0 then [] else [s])
    else if k == 0 then Split(s[1..])
    else [s[..k]] + Split(s[k + 1..])
  }

  /** Every chunk of a split is a non-empty run containing no whitespace. */
  lemma {:induction false} SplitChunksAreWords(s: string)
    ensures forall t :: 0 <= t < |Split(s)| ==> Split(s)[t] != [] && NoSpace(Split(s)[t])
    decreases |s|
  {
    var k := SpaceIndex(s);
    SpaceIndexSpec(s);
    if k < |s| {
      SplitChunksAreWords(s[k + 1..]);
    }
  }

  /** A non-empty word without whitespace splits into itself. */
  lemma SplitWord(w: string)
    requires w != [] && NoSpace(w)
    ensures Split(w) == [w]
  {
    SpaceIndexIs(w, |w|);
  }

  /**
   * Splitting distributes over any whitespace character: together with `SplitWord` and
   * `Split("") == []` this pins down `Split` completely.
   */
  lemma {:induction false} SplitAtSpace(a: string, c: char, b: string)
    requires IsSpace(c)
    ensures Split(a + [c] + b) == Split(a) + Split(b)
    decreases |a|
  {
    var s := a + [c] + b;
    var k := SpaceIndex(a);
    SpaceIndexSpec(a);
    SpaceIndexIs(s, k);
    if k == |a| {
      assert s[k + 1..] == b;
      if k > 0 {
        assert s[..k] == a;
      }
    } else {
      var rest := a[k + 1..];
      assert s[k + 1..] == rest + [c] + b;
      SplitAtSpace(rest, c, b);
      if k > 0 {
        assert s[..k] == a[..k];
        assert Split(s) == [a[..k]] + (Split(rest) + Split(b));
      }
    }
  }

  // ---------------------------------------------------------------------------
  // ' '.join(...)

  /** Python's `sep.join(parts)`. */
  function Join(parts: seq<string>, sep: string): string {
    if parts == [] then ""
    else if |parts| == 1 then parts[0]
    else parts[0] + sep + Join(parts[1..], sep)
  }

  /** Appending a part appends the separator and the part, so parts stay in arrival order. */
  lemma {:induction false} JoinSnoc(parts: seq<string>, x: string, sep: string)
    requires parts != []
    ensures Join(parts + [x], sep) == Join(parts, sep) + sep + x
  {
    if |parts| > 1 {
      assert (parts + [x])[1..] == parts[1..] + [x];
      JoinSnoc(parts[1..], x, sep);
    }
  }

  /** Joining words by single spaces and splitting again gives the words back. */
  lemma {:induction false} SplitJoin(words: seq<string>)
    requires forall t :: 0 <= t < |words| ==> words[t] != [] && NoSpace(words[t])
    ensures Split(Join(words, " ")) == words
  {
    if |words| == 1 {
      SplitWord(words[0]);
    } else if |words| > 1 {
      SplitJoin(words[1..]);
      SplitWord(words[0]);
      assert Join(words, " ") == words[0] + [' '] + Join(words[1..], " ");
      SplitAtSpace(words[0], ' ', Join(words[1..], " "));
      assert words == [words[0]] + words[1..];
    }
  }

  // ---------------------------------------------------------------------------
  // str.strip(string.punctuation)

  function StripLeading(w: string): (r: string)
    ensures |r| <= |w| && r == w[|w| - |r|..]
    ensures forall i :: 0 <= i < |w| - |r| ==> IsPunct(w[i])
    ensures r != [] ==> !IsPunct(r[0])
  {
    if w != [] && IsPunct(w[0]) then StripLeading(w[1..]) else w
  }

  function StripTrailing(w: string): (r: string)
    ensures |r| <= |w| && r == w[..|r|]
    ensures forall i :: |r| <= i < |w| ==> IsPunct(w[i])
    ensures r != [] ==> !IsPunct(r[|r| - 1])
  {
    if w != [] && IsPunct(w[|w| - 1]) then StripTrailing(w[..|w| - 1]) else w
  }

  /**
   * Python's `w.strip(string.punctuation)`: the infix of `w` left after removing every
   * punctuation character from both ends; a word made only of punctuation becomes "".
   */
  function Strip(w: string): (r: string)
    ensures r == [] || (!IsPunct(r[0]) && !IsPunct(r[|r| - 1]))
    ensures exists i, j :: 0 <= i <= j <= |w| && r == w[i..j]
                           && AllPunct(w[..i]) && AllPunct(w[j..])
  {
    StripInfix(w);
    StripTrailing(StripLeading(w))
  }

  /** Stripping the two ends in turn leaves an infix with punctuation only around it. */
  lemma {:induction false} StripInfix(w: string)
    ensures var r := StripTrailing(StripLeading(w));
            exists i, j :: 0 <= i <= j <= |w| && r == w[i..j]
                           && AllPunct(w[..i]) && AllPunct(w[j..])
  {
    var l := StripLeading(w);
    var r := StripTrailing(l);
    var i := |w| - |l|;
    var j := i + |r|;
    assert l == w[i..];
    assert r == l[..|r|];
    LeadingPunct(w);
    TrailingPunct(l);
    assert w[j..] == w[i..][|r|..];
    assert r == w[i..][..|r|];
    assert r == w[i..j];
    assert AllPunct(w[..i]) && AllPunct(w[j..]);
  }

  lemma LeadingPunct(w: string)
    ensures AllPunct(w[..|w| - |StripLeading(w)|])
  {
    var i := |w| - |StripLeading(w)|;
    forall p | 0 <= p < i ensures IsPunct(w[..i][p]) {
      assert w[..i][p] == w[p];
    }
  }

  lemma TrailingPunct(l: string)
    ensures AllPunct(l[|StripTrailing(l)|..])
  {
    var k := |StripTrailing(l)|;
    forall p | 0 <= p < |l| - k ensures IsPunct(l[k..][p]) {
      assert l[k..][p] == l[k + p];
    }
  }

  /** Stripping twice is stripping once. */
  lemma StripIdempotent(w: string)
    ensures Strip(Strip(w)) == Strip(w)
  {
    var r := Strip(w);
    assert StripLeading(r) == r;
    assert StripTrailing(r) == r;
  }

  /** A word made only of punctuation strips to the empty word. */
  lemma StripAllPunct(w: string)
    requires AllPunct(w)
    ensures Strip(w) == []
  {
  }

  // ---------------------------------------------------------------------------
  // Reference tokenisation (outside zh-CN), vocalearn/views.py:226

  /** `[w.strip(string.punctuation) for w in text.lower().split()]` */
  function ReferenceTokens(text: string): seq<string> {
    var chunks := Split(Lower(text));
    seq(|chunks|, t requires 0 <= t < |chunks| => Strip(chunks[t]))
  }

  /**
   * One token per whitespace-separated chunk of the lower-cased text, in order; each token is
   * that chunk with punctuation removed from its two ends only, so it neither begins nor ends
   * with punctuation and contains no whitespace or ASCII capital; a chunk of punctuation only
   * yields an empty token that is kept, not dropped.
   */
  lemma ReferenceTokensSpec(text: string)
    ensures |ReferenceTokens(text)| == |Split(Lower(text))|
    ensures forall t :: 0 <= t < |ReferenceTokens(text)| ==>
              TokenOfChunk(ReferenceTokens(text)[t], Split(Lower(text))[t])
  {
    var chunks := Split(Lower(text));
    var toks := ReferenceTokens(text);
    SplitChunksAreWords(Lower(text));
    forall t | 0 <= t < |toks| ensures TokenOfChunk(toks[t], chunks[t]) {
      ChunkOfLowerHasNoUpper(Lower(text), t);
      StripSpec(chunks[t]);
    }
  }

  /** What one reference token is, given the chunk of lower-cased text it comes from. */
  ghost predicate TokenOfChunk(tok: string, chunk: string) {
    && (tok == [] || (!IsPunct(tok[0]) && !IsPunct(tok[|tok| - 1])))
    && (exists i, j :: 0 <= i <= j <= |chunk| && tok == chunk[i..j]
                       && AllPunct(chunk[..i]) && AllPunct(chunk[j..]))
    && NoSpace(tok)
    && NoUpper(tok)
    && (AllPunct(chunk) ==> tok == [])
  }

  predicate NoUpper(w: string) {
    forall i :: 0 <= i < |w| ==> !IsUpper(w[i])
  }

  lemma StripSpec(chunk: string)
    requires NoSpace(chunk) && NoUpper(chunk)
    ensures TokenOfChunk(Strip(chunk), chunk)
  {
    var tok := Strip(chunk);
    var i, j :| 0 <= i <= j <= |chunk| && tok == chunk[i..j]
                && AllPunct(chunk[..i]) && AllPunct(chunk[j..]);
    forall p | 0 <= p < |tok| ensures !IsSpace(tok[p]) && !IsUpper(tok[p]) {
      assert tok[p] == chunk[i + p];
    }
    if AllPunct(chunk) {
      StripAllPunct(chunk);
    }
  }

  /** The chunks of a string are made of its characters: a text without capitals has none in them. */
  lemma {:induction false} ChunkOfLowerHasNoUpper(s: string, t: nat)
    requires NoUpper(s)
    requires t < |Split(s)|
    ensures NoUpper(Split(s)[t])
    decreases |s|
  {
    var k := SpaceIndex(s);
    if k < |s| {
      var rest := s[k + 1..];
      SliceNoUpper(s, k + 1, |s|);
      if k == 0 {
        ChunkOfLowerHasNoUpper(rest, t);
      } else if t > 0 {
        assert Split(s) == [s[..k]] + Split(rest);
        ChunkOfLowerHasNoUpper(rest, t - 1);
      } else {
        SliceNoUpper(s, 0, k);
        assert Split(s)[0] == s[..k];
      }
    }
  }

  lemma SliceNoUpper(s: string, i: nat, j: nat)
    requires i <= j <= |s| && NoUpper(s)
    ensures NoUpper(s[i..j])
  {
    forall p | 0 <= p < j - i ensures !IsUpper(s[i..j][p]) {
      assert s[i..j][p] == s[i + p];
    }
  }
}

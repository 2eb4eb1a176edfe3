/**
 * The data-model rules of vocalearn/models.py: the saved-item type tags, the text extracted
 * from a saved item's content, the spaced-repetition defaults and validators, the cached
 * collection item count, the uniqueness constraints, study-session duration and review quality.
 * The database is a parameter: tables are sequences of rows.
 */
module Models {
  import opened Wrappers
  import Text

  // ---------------------------------------------------------------------------
  // Choices, vocalearn/models.py:14-22 and :140-149

  datatype ItemType = Translation | SpeechToText | Pronunciation

  /** The stored value of each `ITEM_TYPES` choice. */
  function ItemTag(t: ItemType): string {
    match t
    case Translation => "translation"
    case SpeechToText => "speech_to_text"
    case Pronunciation => "pronunciation"
  }

  /** The `choices` check that model validation runs on `SavedItem.type`: the string is one of the three tags. */
  function ParseItemType(s: string): (r: Option<ItemType>)
    ensures r.Some? ==> ItemTag(r.value) == s
    ensures r.None? ==> forall t: ItemType :: ItemTag(t) != s
  {
    if s == "translation" then Some(Translation)
    else if s == "speech_to_text" then Some(SpeechToText)
    else if s == "pronunciation" then Some(Pronunciation)
    else None
  }

  /** Every tag parses back to its type and fits the column's `max_length` of 20. */
  lemma ItemTagRoundTrip(t: ItemType)
    ensures ParseItemType(ItemTag(t)) == Some(t) && |ItemTag(t)| <= 20
  {
  }

  datatype SessionType = Flashcard | PronunciationPractice | VocabularyReview | Mixed

  function SessionTag(t: SessionType): string {
    match t
    case Flashcard => "flashcard"
    case PronunciationPractice => "pronunciation_practice"
    case VocabularyReview => "vocabulary_review"
    case Mixed => "mixed"
  }

  function ParseSessionType(s: string): (r: Option<SessionType>)
    ensures r.Some? ==> SessionTag(r.value) == s
    ensures r.None? ==> forall t: SessionType :: SessionTag(t) != s
  {
    if s == "flashcard" then Some(Flashcard)
    else if s == "pronunciation_practice" then Some(PronunciationPractice)
    else if s == "vocabulary_review" then Some(VocabularyReview)
    else if s == "mixed" then Some(Mixed)
    else None
  }

  /** Every session tag parses back to its type and fits the column's `max_length` of 30. */
  lemma SessionTagRoundTrip(t: SessionType)
    ensures ParseSessionType(SessionTag(t)) == Some(t) && |SessionTag(t)| <= 30
  {
  }

  // ---------------------------------------------------------------------------
  // Saved items, vocalearn/models.py:11-77

  /** A JSON value as the `content` field stores it. */
  datatype Json =
    | JString(s: string)
    | JNumber(n: int)
    | JBool(b: bool)
    | JNull
    | JArray(elems: seq<Json>)
    | JObject(fields: map<string, Json>)

  /** The exception `' '.join` raises on a part that is not a string. */
  datatype ContentError = TypeError

  /** The content keys that hold searchable text, in the order they are read. */
  const TextKeys: seq<string> := ["text", "translation", "transcription"]

  /** The values of the text keys present in `content`, in the fixed key order. */
  function PresentParts(content: map<string, Json>, keys: seq<string>): seq<Json> {
    if keys == [] then []
    else (if keys[0] in content then [content[keys[0]]] else []) + PresentParts(content, keys[1..])
  }

  /** `' '.join(parts)`: the parts joined by single spaces, or TypeError if one is not a string. */
  function JoinParts(parts: seq<Json>): (r: Result<string, ContentError>)
    ensures r.Success? <==> forall t :: 0 <= t < |parts| ==> parts[t].JString?
  {
    if forall t :: 0 <= t < |parts| ==> parts[t].JString? then
      Success(Text.Join(seq(|parts|, t requires 0 <= t < |parts| => parts[t].s), " "))
    else Failure(TypeError)
  }

  /** What `get_text_content` returns for `content`. */
  function TextContent(content: map<string, Json>): Result<string, ContentError> {
    JoinParts(PresentParts(content, TextKeys))
  }

  /** `default=2.5` as hundredths, and the defaults of the other scheduling fields. */
  const DefaultEaseFactor: int := 250

  /** One `SavedItem` row. `easeFactor` is the decimal value in hundredths; dates are day numbers. */
  class SavedItem {
    const itemType: ItemType
    var content: map<string, Json>
    var easeFactor: int
    var intervalDays: int
    var repetitions: int
    var nextReviewDate: Option<int>

    /** A new item: ease factor 2.5, interval 0, no repetitions and no review date scheduled. */
    constructor (itemType: ItemType, content: map<string, Json>)
      ensures this.itemType == itemType && this.content == content
      ensures easeFactor == 250 && intervalDays == 0 && repetitions == 0 && nextReviewDate.None?
    {
      this.itemType := itemType;
      this.content := content;
      easeFactor := DefaultEaseFactor;
      intervalDays := 0;
      repetitions := 0;
      nextReviewDate := None;
    }

    /** `get_text_content`, vocalearn/models.py:68-77. */
    method GetTextContent() returns (r: Result<string, ContentError>)
      ensures r == TextContent(content)
    {
      var textParts: seq<Json> := [];
      if "text" in content {
        textParts := textParts + [content["text"]];
      }
      assert textParts == (if "text" in content then [content["text"]] else []);
      if "translation" in content {
        textParts := textParts + [content["translation"]];
      }
      ghost var two := textParts;
      if "transcription" in content {
        textParts := textParts + [content["transcription"]];
      }
      assert textParts == two + (if "transcription" in content then [content["transcription"]] else []);
      PresentPartsUnfold(content);
      assert textParts == PresentParts(content, TextKeys);
      r := JoinParts(textParts);
    }
  }

  lemma PresentPartsUnfold(content: map<string, Json>)
    ensures PresentParts(content, TextKeys) ==
              (if "text" in content then [content["text"]] else [])
              + (if "translation" in content then [content["translation"]] else [])
              + (if "transcription" in content then [content["transcription"]] else [])
  {
    var k0 := TextKeys;
    var k1 := ["translation", "transcription"];
    var k2 := ["transcription"];
    var k3: seq<string> := [];
    assert k0[0] == "text" && k0[1..] == k1;
    assert k1[0] == "translation" && k1[1..] == k2;
    assert k2[0] == "transcription" && k2[1..] == k3;
    assert PresentParts(content, k3) == [];
    assert PresentParts(content, k2) == (if "transcription" in content then [content["transcription"]] else []) + [];
    assert PresentParts(content, k1) == (if "translation" in content then [content["translation"]] else [])
                                        + PresentParts(content, k2);
    assert PresentParts(content, k0) == (if "text" in content then [content["text"]] else [])
                                        + PresentParts(content, k1);
  }

  /** A content map without any of the three text keys yields the empty string. */
  lemma TextContentEmpty(content: map<string, Json>)
    requires "text" !in content && "translation" !in content && "transcription" !in content
    ensures TextContent(content) == Success("")
  {
    PresentPartsUnfold(content);
  }

  /** Keys other than the three text keys have no effect on the extracted text. */
  lemma TextContentIgnoresOtherKeys(content: map<string, Json>, k: string, v: Json)
    requires k != "text" && k != "translation" && k != "transcription"
    ensures TextContent(content[k := v]) == TextContent(content)
  {
    PresentPartsUnfold(content);
    PresentPartsUnfold(content[k := v]);
  }

  /** With all three present as strings, the text is text, translation and transcription in that order. */
  lemma TextContentOrder(content: map<string, Json>, a: string, b: string, c: string)
    requires "text" in content && content["text"] == JString(a)
    requires "translation" in content && content["translation"] == JString(b)
    requires "transcription" in content && content["transcription"] == JString(c)
    ensures TextContent(content) == Success(a + " " + b + " " + c)
  {
    PresentPartsUnfold(content);
    var parts := PresentParts(content, TextKeys);
    var strs := seq(|parts|, t requires 0 <= t < |parts| => parts[t].s);
    assert parts == [JString(a), JString(b), JString(c)];
    assert strs == [a, b, c];
    assert strs[1..] == [b, c];
    assert strs[1..][1..] == [c];
    assert Text.Join([c], " ") == c;
    assert Text.Join([b, c], " ") == b + " " + c;
    assert Text.Join(strs, " ") == a + " " + (b + " " + c);
    assert forall t :: 0 <= t < |parts| ==> parts[t].JString?;
    assert JoinParts(parts) == Success(Text.Join(strs, " "));
    assert a + " " + (b + " " + c) == a + " " + b + " " + c;
  }

  /**
   * The extracted text splits back into the present values when each is one non-empty word
   * without whitespace: nothing is lost, duplicated or reordered.
   */
  lemma {:induction false} TextContentSplits(content: map<string, Json>)
    requires TextContent(content).Success?
    requires forall t :: 0 <= t < |PresentParts(content, TextKeys)| ==>
               PresentParts(content, TextKeys)[t].s != [] && Text.NoSpace(PresentParts(content, TextKeys)[t].s)
    ensures var parts := PresentParts(content, TextKeys);
            Text.Split(TextContent(content).value) == seq(|parts|, t requires 0 <= t < |parts| => parts[t].s)
  {
    var parts := PresentParts(content, TextKeys);
    Text.SplitJoin(seq(|parts|, t requires 0 <= t < |parts| => parts[t].s));
  }

  // ---------------------------------------------------------------------------
  // Validators, vocalearn/models.py:42-50 and :192-198

  /** The number of decimal digits of `n`; 0 has none, as Django's decimal validator counts it. */
  function DigitCount(n: nat): nat {
    if n == 0 then 0 else 1 + DigitCount(n / 10)
  }

  /** `max_digits=3, decimal_places=2`: at most one digit before the decimal point. */
  predicate DecimalFits(hundredths: int) {
    DigitCount((if hundredths < 0 then -hundredths else hundredths) / 100) <= 3 - 2
  }

  /**
   * The binary double that the literal `1.3` denotes, 5854679515581645 / 2^52: it lies
   * slightly above 1.3.
   */
  const FloatOnePointThree: real := 5854679515581645.0 / 4503599627370496.0

  /**
   * `MinValueValidator(1.3)` together with the decimal field's own limits, as written: the
   * validator compares the field's decimal value with the float `1.3`, and Python compares a
   * decimal with a float exactly.
   */
  predicate ValidEaseFactorAsWritten(hundredths: int) {
    (hundredths as real) / 100.0 >= FloatOnePointThree && DecimalFits(hundredths)
  }

  /** As written, the valid ease factors are 1.31 through 9.99. */
  lemma ValidEaseFactorAsWrittenRange(h: int)
    ensures ValidEaseFactorAsWritten(h) <==> 131 <= h <= 999
  {
    DecimalFitsRange(h);
  }

  /** The SM-2 floor itself, 1.30, is rejected as written and accepted by the corrected rule. */
  lemma EaseFactorFloorRejected()
    ensures !ValidEaseFactorAsWritten(130) && ValidEaseFactor(130)
  {
    ValidEaseFactorRange(130);
  }

  /** The minimum of 1.3 inclusive with the decimal field's own limits. */
  predicate ValidEaseFactor(hundredths: int) {
    hundredths >= 130 && DecimalFits(hundredths)
  }

  /** With the floor taken inclusively, the valid ease factors are 1.30 through 9.99; the default 2.50 is one. */
  lemma ValidEaseFactorRange(h: int)
    ensures ValidEaseFactor(h) <==> 130 <= h <= 999
    ensures ValidEaseFactor(DefaultEaseFactor)
  {
    DecimalFitsRange(h);
    DecimalFitsRange(DefaultEaseFactor);
  }

  /** Three digits of which two are decimals: at most 9.99 in absolute value. */
  lemma DecimalFitsRange(h: int)
    ensures DecimalFits(h) <==> -999 <= h <= 999
  {
    var a := if h < 0 then -h else h;
    var w := a / 100;
    assert w <= 9 <==> a <= 999;
    if w >= 10 {
      assert DigitCount(w) == 1 + DigitCount(w / 10);
      assert w / 10 > 0;
      assert DigitCount(w / 10) >= 1;
    } else if w > 0 {
      assert w / 10 == 0;
      assert DigitCount(w) == 1;
    }
  }

  /** `MinValueValidator(0), MaxValueValidator(5)` on `ItemReview.quality`. */
  predicate ValidQuality(q: int) {
    0 <= q <= 5
  }

  /** An `ItemReview` row's own fields. */
  datatype ItemReview = ItemReview(quality: int, timeSpentSeconds: Option<int>, wasCorrect: bool)

  /**
   * Model validation of a new review (`full_clean`, a model form or a serializer; a plain
   * `save()` runs no validator): it accepts the review, with `was_correct` false unless given,
   * exactly when the quality is a rating from 0 to 5.
   */
  function NewReview(quality: int, timeSpentSeconds: Option<int>, wasCorrect: Option<bool>): (r: Result<ItemReview, string>)
    ensures r.Success? <==> 0 <= quality <= 5
    ensures r.Success? ==> r.value.quality == quality && r.value.timeSpentSeconds == timeSpentSeconds
    ensures r.Success? && wasCorrect.None? ==> !r.value.wasCorrect
  {
    if ValidQuality(quality) then
      Success(ItemReview(quality, timeSpentSeconds, if wasCorrect.Some? then wasCorrect.value else false))
    else Failure("quality")
  }

  // ---------------------------------------------------------------------------
  // Collections, vocalearn/models.py:80-134

  type Id = nat

  /** One `CollectionItem` row: the collection, the saved item, and its position. */
  datatype CollectionItemRow = CollectionItemRow(collection: Id, item: Id, position: int)

  /** One `Collection` row as the uniqueness constraint sees it. */
  datatype CollectionRow = CollectionRow(id: Id, user: Id, name: string)

  /** The exception the database raises for a violated unique constraint. */
  datatype IntegrityError = IntegrityError

  /** `unique_together = [['collection', 'item']]`. */
  predicate UniqueMembership(rows: seq<CollectionItemRow>) {
    forall p, q :: 0 <= p < q < |rows| ==>
      rows[p].collection != rows[q].collection || rows[p].item != rows[q].item
  }

  /** `unique_together = [['user', 'name']]`. */
  predicate UniqueNames(rows: seq<CollectionRow>) {
    forall p, q :: 0 <= p < q < |rows| ==> rows[p].user != rows[q].user || rows[p].name != rows[q].name
  }

  /** Inserting a membership row: refused when the pair is already present. */
  function AddToCollection(rows: seq<CollectionItemRow>, row: CollectionItemRow): (r: Result<seq<CollectionItemRow>, IntegrityError>)
    ensures r.Failure? <==> exists p :: 0 <= p < |rows| && rows[p].collection == row.collection && rows[p].item == row.item
    ensures r.Success? ==> r.value == rows + [row]
    ensures r.Success? && UniqueMembership(rows) ==> UniqueMembership(r.value)
  {
    if exists p :: 0 <= p < |rows| && rows[p].collection == row.collection && rows[p].item == row.item
    then Failure(IntegrityError)
    else Success(rows + [row])
  }

  /** Inserting a collection: refused when the user already has a collection of that name. */
  function CreateCollection(rows: seq<CollectionRow>, row: CollectionRow): (r: Result<seq<CollectionRow>, IntegrityError>)
    ensures r.Failure? <==> exists p :: 0 <= p < |rows| && rows[p].user == row.user && rows[p].name == row.name
    ensures r.Success? ==> r.value == rows + [row]
    ensures r.Success? && UniqueNames(rows) ==> UniqueNames(r.value)
  {
    if exists p :: 0 <= p < |rows| && rows[p].user == row.user && rows[p].name == row.name
    then Failure(IntegrityError)
    else Success(rows + [row])
  }

  /** `collection.collection_items.count()`. */
  function MemberCount(rows: seq<CollectionItemRow>, c: Id): nat {
    if rows == [] then 0 else (if rows[0].collection == c then 1 else 0) + MemberCount(rows[1..], c)
  }

  /** The saved items of collection `c`. */
  function ItemsOf(rows: seq<CollectionItemRow>, c: Id): set<Id> {
    set p | 0 <= p < |rows| && rows[p].collection == c :: rows[p].item
  }

  /** Under the (collection, item) constraint the row count is the number of distinct items held. */
  lemma {:induction false} MemberCountIsItems(rows: seq<CollectionItemRow>, c: Id)
    requires UniqueMembership(rows)
    ensures MemberCount(rows, c) == |ItemsOf(rows, c)|
  {
    if rows != [] {
      var rest := rows[1..];
      UniqueMembershipTail(rows);
      MemberCountIsItems(rest, c);
      ItemsOfCons(rows, c);
      if rows[0].collection == c {
        HeadNotLater(rows, c);
      }
    }
  }

  lemma UniqueMembershipTail(rows: seq<CollectionItemRow>)
    requires rows != [] && UniqueMembership(rows)
    ensures UniqueMembership(rows[1..])
  {
    var rest := rows[1..];
    forall p, q | 0 <= p < q < |rest|
      ensures rest[p].collection != rest[q].collection || rest[p].item != rest[q].item
    {
      assert rest[p] == rows[p + 1] && rest[q] == rows[q + 1];
    }
  }

  lemma ItemsOfCons(rows: seq<CollectionItemRow>, c: Id)
    requires rows != []
    ensures ItemsOf(rows, c) == (if rows[0].collection == c then {rows[0].item} else {}) + ItemsOf(rows[1..], c)
  {
    var rest := rows[1..];
    var head: set<Id> := if rows[0].collection == c then {rows[0].item} else {};
    forall x | x in ItemsOf(rows, c) ensures x in head + ItemsOf(rest, c) {
      var p :| 0 <= p < |rows| && rows[p].collection == c && rows[p].item == x;
      if p > 0 {
        assert rest[p - 1] == rows[p];
      }
    }
    forall x | x in ItemsOf(rest, c) ensures x in ItemsOf(rows, c) {
      var p :| 0 <= p < |rest| && rest[p].collection == c && rest[p].item == x;
      assert rows[p + 1] == rest[p];
    }
  }

  lemma HeadNotLater(rows: seq<CollectionItemRow>, c: Id)
    requires rows != [] && UniqueMembership(rows) && rows[0].collection == c
    ensures rows[0].item !in ItemsOf(rows[1..], c)
  {
    var rest := rows[1..];
    forall p | 0 <= p < |rest| && rest[p].collection == c ensures rest[p].item != rows[0].item {
      assert rows[p + 1] == rest[p];
    }
  }

  lemma {:induction false} MemberCountSnoc(rows: seq<CollectionItemRow>, row: CollectionItemRow, c: Id)
    ensures MemberCount(rows + [row], c) == MemberCount(rows, c) + (if row.collection == c then 1 else 0)
  {
    if rows == [] {
      assert ([row])[1..] == [];
    } else {
      assert (rows + [row])[1..] == rows[1..] + [row];
      MemberCountSnoc(rows[1..], row, c);
    }
  }

  /** A successful insertion adds one to the count of its own collection and leaves every other count alone. */
  lemma AddToCollectionCount(rows: seq<CollectionItemRow>, row: CollectionItemRow, c: Id)
    requires AddToCollection(rows, row).Success?
    ensures MemberCount(AddToCollection(rows, row).value, c) ==
              MemberCount(rows, c) + (if row.collection == c then 1 else 0)
  {
    MemberCountSnoc(rows, row, c);
  }

  /** A cached `Collection` row; `itemCount` is the denormalised member count. */
  class Collection {
    const id: Id
    const user: Id
    const name: string
    var description: string
    var itemCount: int

    constructor (id: Id, user: Id, name: string)
      ensures this.id == id && this.user == user && this.name == name
      ensures description == "" && itemCount == 0
    {
      this.id := id;
      this.user := user;
      this.name := name;
      description := "";
      itemCount := 0;
    }

    /**
     * `update_item_count`, vocalearn/models.py:103-106: the cached count becomes the number of
     * membership rows of this collection; no other field is written.
     */
    method UpdateItemCount(rows: seq<CollectionItemRow>)
      modifies this`itemCount
      ensures itemCount == MemberCount(rows, id)
    {
      itemCount := MemberCount(rows, id);
    }
  }

  // ---------------------------------------------------------------------------
  // Study sessions, vocalearn/models.py:137-170

  /** A study session; times are in seconds. */
  datatype StudySession = StudySession(sessionType: SessionType, startedAt: real, endedAt: Option<real>,
                                       itemsReviewed: int)

  /** `duration_minutes`: no value while the session is open, else its length in minutes. */
  function DurationMinutes(s: StudySession): (r: Option<real>)
    ensures r.None? <==> s.endedAt.None?
    ensures r.Some? ==> r.value * 60.0 == s.endedAt.value - s.startedAt
  {
    if s.endedAt.Some? then Some((s.endedAt.value - s.startedAt) / 60.0) else None
  }

  /** A session of whatever length that ended after it started has a non-negative duration. */
  lemma DurationNonNegative(s: StudySession)
    requires s.endedAt.Some? && s.startedAt <= s.endedAt.value
    ensures DurationMinutes(s).Some? && DurationMinutes(s).value >= 0.0
  {
  }
}

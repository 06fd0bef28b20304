/** The survey config shape and its all-or-nothing validator
    (`normalizeQuestionType`, `isValidQuestionConfig`, `normalizeSurveyConfig`, `getIntentsFromConfig`). */
module SchemaValidator {
  import opened Wrappers
  import opened JsText
  import opened JsNumber
  import opened Intents
  import opened Sequences

  /** One question of a stored survey config. A string field that is absent or falsy is "".
      `scaleMin`/`scaleMax` are `Number(scale_min)`/`Number(scale_max)` (NaN when absent).
      `choiceIds` is `None` unless `choice_ids` is an object; its entries are keyed by the
      number whose `String()` is the object key. `threshold` and `confidenceThreshold` are
      `None` unless the field holds a JavaScript number. */
  datatype QuestionConfig = QuestionConfig(
    questionId: string,
    pageId: string,
    questionText: string,
    questionType: string,
    inferredIntent: string,
    trueChoiceId: string,
    falseChoiceId: string,
    scaleMin: JsNum,
    scaleMax: JsNum,
    choiceIds: Option<map<real, string>>,
    rowId: string,
    threshold: Option<JsNum>,
    confidenceThreshold: Option<JsNum>)

  /** A stored survey config; `questions` is `None` when the field is not an array. */
  datatype SurveyConfig = SurveyConfig(
    surveyId: string,
    collectorId: string,
    pageId: string,
    questions: Option<seq<QuestionConfig>>)

  /** `normalizeQuestionType`: trimmed and lower-cased. */
  function NormalizeQuestionType(t: string): (r: string)
    ensures |r| <= |t|
    ensures r == [] || (!IsWhitespace(r[0]) && !IsWhitespace(r[|r| - 1]))
    ensures forall k :: 0 <= k < |r| ==> !('A' <= r[k] <= 'Z')
  {
    var trimmed := Trim(t);
    LowerCharKeepsWhitespace(if trimmed == [] then ' ' else trimmed[0]);
    LowerCharKeepsWhitespace(if trimmed == [] then ' ' else trimmed[|trimmed| - 1]);
    ToLower(trimmed)
  }

  /** Normalising a type a second time changes nothing. */
  lemma NormalizeQuestionTypeIdempotent(t: string)
    ensures NormalizeQuestionType(NormalizeQuestionType(t)) == NormalizeQuestionType(t)
  {
    var once := NormalizeQuestionType(t);
    TrimUnchanged(once);
    ToLowerIdempotent(Trim(t));
  }

  /** Type names are compared without regard to case. */
  lemma NormalizeQuestionTypeIgnoresCase(t: string)
    ensures NormalizeQuestionType(ToLower(t)) == NormalizeQuestionType(t)
  {
    TrimToLower(t);
    ToLowerIdempotent(Trim(t));
  }

  /** Surrounding whitespace in a type name makes no difference. */
  lemma NormalizeQuestionTypeIgnoresTrim(t: string)
    ensures NormalizeQuestionType(Trim(t)) == NormalizeQuestionType(t)
  {
    TrimUnchanged(Trim(t));
  }

  /** The three question types the core understands, after normalisation. */
  datatype QuestionKind = TextKind | BooleanKind | ScaleKind | UnknownKind

  /** The type names the core understands, each with its kind. */
  const KindNames: seq<(string, QuestionKind)> :=
    [("text", TextKind), ("boolean", BooleanKind), ("scale", ScaleKind)]

  /** Classifies a normalised type: the comparisons with `'text'`, `'boolean'` and `'scale'`.
      Written as a walk over `KindNames`; `KindOfMeaning` states what it means. */
  function KindOf(n: string): QuestionKind {
    KindIn(n, KindNames)
  }

  function KindIn(n: string, names: seq<(string, QuestionKind)>): QuestionKind {
    if names == [] then UnknownKind
    else if n == names[0].0 then names[0].1
    else KindIn(n, names[1..])
  }

  lemma KindOfMeaning(n: string)
    ensures KindOf(n) == TextKind <==> n == "text"
    ensures KindOf(n) == BooleanKind <==> n == "boolean"
    ensures KindOf(n) == ScaleKind <==> n == "scale"
  {
    var names := KindNames;
    assert KindIn(n, names) == if n == "text" then TextKind else KindIn(n, names[1..]);
    assert KindIn(n, names[1..]) == if n == "boolean" then BooleanKind else KindIn(n, names[2..]);
    assert KindIn(n, names[2..]) == if n == "scale" then ScaleKind else KindIn(n, names[3..]);
    assert names[3..] == [];
  }

  /** `isValidQuestionConfig`: the question's acceptance rule. */
  predicate IsValidQuestionConfig(q: QuestionConfig)
  {
    && q.questionId != ""
    && q.questionType != ""
    && q.inferredIntent != ""
    && IsIntentName(q.inferredIntent)
    && match KindOf(NormalizeQuestionType(q.questionType))
       case ScaleKind =>
         && q.scaleMin.IsFinite()
         && q.scaleMax.IsFinite()
         && q.scaleMin.value != q.scaleMax.value
         && q.choiceIds.Some?
       case BooleanKind => q.trueChoiceId != "" && q.falseChoiceId != ""
       case TextKind => true
       case UnknownKind => false
  }

  /** A valid question has an id, a known intent, and one of the three canonical types. */
  lemma ValidQuestionShape(q: QuestionConfig)
    requires IsValidQuestionConfig(q)
    ensures q.questionId != "" && Parse(q.inferredIntent).Some?
    ensures KindOf(NormalizeQuestionType(q.questionType)) != UnknownKind
    ensures NormalizeQuestionType(q.questionType) in ["text", "boolean", "scale"]
  {
    IsIntentNameMeaning(q.inferredIntent);
    KindOfMeaning(NormalizeQuestionType(q.questionType));
  }

  /** The whole-config acceptance rule behind `normalizeSurveyConfig`. */
  predicate IsValidSurveyConfig(c: SurveyConfig)
  {
    && c.surveyId != ""
    && c.collectorId != ""
    && c.pageId != ""
    && c.questions.Some?
    && |c.questions.value| > 0
    && forall k :: 0 <= k < |c.questions.value| ==> IsValidQuestionConfig(c.questions.value[k])
  }

  /** `normalizeSurveyConfig`: the config itself when every check passes, otherwise null.
      Because an accepted config is returned unchanged, normalising it again accepts it again. */
  method NormalizeSurveyConfig(c: SurveyConfig) returns (r: Option<SurveyConfig>)
    ensures r.Some? <==> IsValidSurveyConfig(c)
    ensures r.Some? ==> r.value == c && IsValidSurveyConfig(r.value)
  {
    if c.surveyId == "" || c.collectorId == "" || c.pageId == "" {
      return None;
    }
    if c.questions.None? || |c.questions.value| == 0 {
      return None;
    }
    var questions := c.questions.value;
    var i := 0;
    while i < |questions|
      invariant 0 <= i <= |questions|
      invariant forall k :: 0 <= k < i ==> IsValidQuestionConfig(questions[k])
    {
      if !IsValidQuestionConfig(questions[i]) {
        return None;
      }
      i := i + 1;
    }
    return Some(c);
  }

  /** The intent names of `questions` that belong to `INTENTS`, in config order. */
  function KnownIntents(questions: seq<QuestionConfig>): (r: seq<string>)
    ensures forall x :: x in r <==> IsIntentName(x) && exists k :: 0 <= k < |questions| && questions[k].inferredIntent == x
  {
    if questions == [] then []
    else
      var init := questions[..|questions| - 1];
      var q := questions[|questions| - 1];
      var r := KnownIntents(init) + (if IsIntentName(q.inferredIntent) then [q.inferredIntent] else []);
      assert forall k :: 0 <= k < |init| ==> init[k] == questions[k];
      r
  }

  /** `getIntentsFromConfig`: the distinct known intents of the config's questions, in the order
      they are first met (a `Set` filled in a loop and read back with `Array.from`). */
  method GetIntentsFromConfig(c: SurveyConfig) returns (r: seq<string>)
    ensures c.questions.None? ==> r == []
    ensures c.questions.Some? ==> r == FirstOccurrences(KnownIntents(c.questions.value))
    ensures NoDuplicates(r)
    ensures forall x :: x in r <==>
      IsIntentName(x) && c.questions.Some? &&
      exists k :: 0 <= k < |c.questions.value| && c.questions.value[k].inferredIntent == x
  {
    if c.questions.None? {
      return [];
    }
    var questions := c.questions.value;
    var intents: seq<string> := [];
    var i := 0;
    while i < |questions|
      invariant 0 <= i <= |questions|
      invariant intents == FirstOccurrences(KnownIntents(questions[..i]))
    {
      var name := questions[i].inferredIntent;
      ghost var known := KnownIntents(questions[..i]);
      assert questions[..i + 1][..i] == questions[..i];
      if IsIntentName(name) {
        assert KnownIntents(questions[..i + 1]) == known + [name];
        FirstOccurrencesSnoc(known, name);
        if name !in intents {
          intents := intents + [name];
        }
      } else {
        assert KnownIntents(questions[..i + 1]) == known + [];
        assert known + [] == known;
      }
      i := i + 1;
    }
    assert questions[..|questions|] == questions;
    return intents;
  }
}

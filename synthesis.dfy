/** Turning untrusted intent scores into one survey answer per question
    (`clamp01`, `getIntentScore`, `getIntentConfidence`, `getOpenFeedback`,
    `mapScoreToScale`, `buildQuestionAnswer`). */
module AnswerSynthesis {
  import opened Wrappers
  import opened JsText
  import opened JsNumber
  import opened SchemaValidator
  import opened Sequences

  /** The parsed reply of the reasoning service. `intentScores` and `confidence` hold the
      entries whose value is a JavaScript number (any other entry, or a missing object,
      behaves as an absent key); `openFeedback` is the `open_feedback` array, `None` for a
      `null`/`undefined` item and `[]` when the field is not an array. */
  datatype Analysis = Analysis(
    intentScores: map<string, JsNum>,
    confidence: map<string, JsNum>,
    openFeedback: seq<Option<string>>)

  /** One element of a question's `answers` array. */
  datatype Answer =
    | TextAnswer(text: string)
    | ChoiceAnswer(choiceId: string, rowId: Option<string>)

  /** `{ id, answers }` as submitted for one question. */
  datatype AnswerRecord = AnswerRecord(id: string, answers: seq<Answer>)

  const DefaultConfidenceThreshold: real := 0.6
  const DefaultThreshold: real := 0.5

  function Dist(a: real, b: real): real {
    if a >= b then a - b else b - a
  }

  /** `clamp01`: NaN is absent; every other number becomes the nearest point of [0, 1]. */
  function Clamp01(v: JsNum): (r: Option<real>)
    ensures r.None? <==> v.NaN?
    ensures r.Some? ==> 0.0 <= r.value <= 1.0
    ensures v.Finite? ==> r.Some? && forall y :: 0.0 <= y <= 1.0 ==> Dist(r.value, v.value) <= Dist(y, v.value)
    ensures v.PosInf? ==> r == Some(1.0)
    ensures v.NegInf? ==> r == Some(0.0)
  {
    match v
    case NaN => None
    case PosInf => Some(1.0)
    case NegInf => Some(0.0)
    case Finite(x) => Some(Min(1.0, Max(0.0, x)))
  }

  /** `getIntentScore`: the clamped score for `intent`, absent when missing or NaN. */
  function GetIntentScore(a: Analysis, intent: string): (r: Option<real>)
    ensures r.None? <==> intent !in a.intentScores || a.intentScores[intent].NaN?
    ensures r.Some? ==> 0.0 <= r.value <= 1.0
    ensures intent in a.intentScores ==> r == Clamp01(a.intentScores[intent])
    ensures intent in a.intentScores && a.intentScores[intent].Finite? && 0.0 <= a.intentScores[intent].value <= 1.0 ==>
      r == Some(a.intentScores[intent].value)
  {
    if intent in a.intentScores then Clamp01(a.intentScores[intent]) else None
  }

  /** `getIntentConfidence`: the clamped confidence for `intent`, absent when missing or NaN. */
  function GetIntentConfidence(a: Analysis, intent: string): (r: Option<real>)
    ensures r.None? <==> intent !in a.confidence || a.confidence[intent].NaN?
    ensures r.Some? ==> 0.0 <= r.value <= 1.0
    ensures intent in a.confidence ==> r == Clamp01(a.confidence[intent])
    ensures intent in a.confidence && a.confidence[intent].Finite? && 0.0 <= a.confidence[intent].value <= 1.0 ==>
      r == Some(a.confidence[intent].value)
  {
    if intent in a.confidence then Clamp01(a.confidence[intent]) else None
  }

  predicate IsBlankItem(item: Option<string>) {
    item.None? || Trim(item.value) == []
  }

  /** Every feedback item is null or blank. */
  predicate AllBlank(items: seq<Option<string>>) {
    forall k :: 0 <= k < |items| ==> IsBlankItem(items[k])
  }

  /** The `map`/`filter` step of `getOpenFeedback`: trimmed items, blanks dropped, order kept.
      `CleanedFeedbackContents` and `CleanedFeedbackEmpty` state what it holds. */
  function CleanedFeedback(items: seq<Option<string>>): seq<string> {
    if items == [] then []
    else
      var last := items[|items| - 1];
      CleanedFeedback(items[..|items| - 1]) + if IsBlankItem(last) then [] else [Trim(last.value)]
  }

  /** Which items the `filter` keeps: those neither null nor blank. */
  function KeptItems(items: seq<Option<string>>): (keep: seq<bool>)
    ensures |keep| == |items| && forall k :: 0 <= k < |items| ==> keep[k] == !IsBlankItem(items[k])
  {
    if items == [] then []
    else
      var init := items[..|items| - 1];
      assert forall k :: 0 <= k < |init| ==> init[k] == items[k];
      KeptItems(init) + [!IsBlankItem(items[|items| - 1])]
  }

  /** The cleaned feedback is the trimmed text of the kept items, in their order: with
      `PositionsIncreasing` and `PositionsComplete`, exactly the `map` followed by the `filter`. */
  lemma {:induction false} CleanedFeedbackContents(items: seq<Option<string>>)
    ensures |CleanedFeedback(items)| == |Positions(KeptItems(items))|
    ensures forall k :: 0 <= k < |Positions(KeptItems(items))| ==>
      CleanedFeedback(items)[k] == Trim(items[Positions(KeptItems(items))[k]].value)
  {
    if items != [] {
      var init := items[..|items| - 1];
      CleanedFeedbackContents(init);
      var keep := KeptItems(items);
      assert keep[..|keep| - 1] == KeptItems(init);
      var ps := Positions(KeptItems(init));
      forall k | 0 <= k < |ps|
        ensures items[ps[k]] == init[ps[k]]
      {
      }
    }
  }

  /** The cleaned items are never empty, there are no more of them than items, and there are
      none exactly when every item is null or blank. */
  lemma CleanedFeedbackEmpty(items: seq<Option<string>>)
    ensures |CleanedFeedback(items)| <= |items|
    ensures forall k :: 0 <= k < |CleanedFeedback(items)| ==> CleanedFeedback(items)[k] != []
    ensures CleanedFeedback(items) == [] <==> AllBlank(items)
  {
    var keep := KeptItems(items);
    var ps := Positions(keep);
    CleanedFeedbackContents(items);
    PositionsLength(keep);
    forall k | 0 <= k < |ps|
      ensures CleanedFeedback(items)[k] != []
    {
      TrimEmpty(items[ps[k]].value);
    }
    if !AllBlank(items) {
      var j :| 0 <= j < |items| && !IsBlankItem(items[j]);
      PositionsComplete(keep, j);
    }
  }

  /** `getOpenFeedback`: the cleaned items joined by newlines; empty exactly when every item is blank. */
  function GetOpenFeedback(a: Analysis): (r: string)
    ensures r == [] <==> AllBlank(a.openFeedback)
  {
    CleanedFeedbackEmpty(a.openFeedback);
    Join(CleanedFeedback(a.openFeedback), "\n")
  }

  /** `mapScoreToScale`: linear interpolation, `Math.round`, then clamped by `Math.max(min, ·)`
      and `Math.min(max, ·)` in that order. */
  function MapScoreToScale(score: real, min: real, max: real): (r: real)
    ensures min <= max ==> min <= r <= max
    ensures min > max ==> r == max
  {
    var raw := min + (max - min) * score;
    var rounded := Round(raw) as real;
    Min(max, Max(min, rounded))
  }

  /** For bounds in order, a larger score never maps to a smaller scale value. */
  lemma MapScoreToScaleMonotone(s1: real, s2: real, min: real, max: real)
    requires min <= max && s1 <= s2
    ensures MapScoreToScale(s1, min, max) <= MapScoreToScale(s2, min, max)
  {
    var raw1 := min + (max - min) * s1;
    var raw2 := min + (max - min) * s2;
    assert (max - min) * s1 <= (max - min) * s2 by {
      assert (max - min) * (s2 - s1) >= 0.0;
    }
    assert Round(raw1) <= Round(raw2);
  }

  /** With integer bounds in order, every scale value is an integer inside the bounds. */
  lemma MapScoreToScaleIntegral(score: real, lo: int, hi: int)
    requires lo <= hi
    ensures var r := MapScoreToScale(score, lo as real, hi as real);
      r == r.Floor as real && lo <= r.Floor <= hi
  {
  }

  /** For bounds in order and a score in [0, 1], the scale value is `Math.round` of the
      linear interpolation: it lies within one half of `min + (max - min) * score`. */
  lemma MapScoreToScaleNearest(score: real, min: real, max: real)
    requires min < max && 0.0 <= score <= 1.0
    ensures var raw := min + (max - min) * score;
      MapScoreToScale(score, min, max) - 0.5 <= raw < MapScoreToScale(score, min, max) + 0.5
  {
    var width, rest := max - min, 1.0 - score;
    assert width * rest >= 0.0 && width * score >= 0.0;
    assert width * score <= width by {
      assert width * score + width * rest == width;
    }
  }

  /** A score of 0.5 on a 1-to-5 scale maps to 3. */
  lemma MapScoreToScaleMidpoint()
    ensures MapScoreToScale(0.5, 1.0, 5.0) == 3.0
  {
    assert Round(3.0) == 3;
  }

  /** With integer bounds `lo < hi`, score 0 gives `lo` and score 1 gives `hi`. */
  lemma MapScoreToScaleEndpoints(lo: int, hi: int)
    requires lo < hi
    ensures MapScoreToScale(0.0, lo as real, hi as real) == lo as real
    ensures MapScoreToScale(1.0, lo as real, hi as real) == hi as real
  {
    assert Round(lo as real) == lo;
    assert Round(hi as real) == hi;
  }

  /** The JavaScript `!choiceId` test on a looked-up choice: a missing key and an empty id
      are both falsy. */
  function LookupChoice(choiceIds: Option<map<real, string>>, value: real): (r: string)
    ensures r != [] ==> choiceIds.Some? && value in choiceIds.value && choiceIds.value[value] == r
    ensures choiceIds.Some? && value in choiceIds.value ==> r == choiceIds.value[value]
    ensures choiceIds.None? || value !in choiceIds.value ==> r == ""
  {
    if choiceIds.Some? && value in choiceIds.value then choiceIds.value[value] else ""
  }

  /** The messages of the two errors `buildQuestionAnswer` throws; the question id follows. */
  const BooleanIdsMissing: string := "SurveyMonkey boolean choice IDs missing for question "
  const ScaleChoiceUnresolved: string := "SurveyMonkey scale choice ID not resolved for question "

  /** The kind of a question: its normalised type classified. */
  function KindOfQuestion(q: QuestionConfig): QuestionKind {
    KindOf(NormalizeQuestionType(q.questionType))
  }

  /** The `text` branch: withheld when a present confidence is below the threshold, otherwise
      the joined feedback when there is any. */
  function TextOutcome(q: QuestionConfig, a: Analysis): (r: Result<Option<AnswerRecord>>)
    ensures r.Success?
    ensures r.value.None? <==>
      || (GetIntentConfidence(a, q.inferredIntent).Some? &&
          LessThan(GetIntentConfidence(a, q.inferredIntent).value, q.confidenceThreshold.GetOr(Finite(DefaultConfidenceThreshold))))
      || AllBlank(a.openFeedback)
  {
    var confidence := GetIntentConfidence(a, q.inferredIntent);
    var threshold := q.confidenceThreshold.GetOr(Finite(DefaultConfidenceThreshold));
    if confidence.Some? && LessThan(confidence.value, threshold) then Success(None)
    else
      var text := GetOpenFeedback(a);
      if text == [] then Success(None)
      else Success(Some(AnswerRecord(q.questionId, [TextAnswer(text)])))
  }

  /** The `boolean` branch: the true choice when the score reaches the threshold, else the
      false choice; an empty id throws. */
  function BooleanOutcome(q: QuestionConfig, score: real): (r: Result<Option<AnswerRecord>>)
    ensures var picked := if AtLeast(score, q.threshold.GetOr(Finite(DefaultThreshold))) then q.trueChoiceId else q.falseChoiceId;
      && (r.Failure? <==> picked == [])
      && (picked != [] ==> r == Success(Some(AnswerRecord(q.questionId, [ChoiceAnswer(picked, None)]))))
  {
    var threshold := q.threshold.GetOr(Finite(DefaultThreshold));
    var choiceId := if AtLeast(score, threshold) then q.trueChoiceId else q.falseChoiceId;
    if choiceId == [] then
      Failure(BooleanIdsMissing + q.questionId)
    else Success(Some(AnswerRecord(q.questionId, [ChoiceAnswer(choiceId, None)])))
  }

  /** The `scale` branch: no answer for unusable bounds; otherwise the choice stored under the
      mapped value, with the row id when there is one; a missing choice throws. */
  function ScaleOutcome(q: QuestionConfig, score: real): (r: Result<Option<AnswerRecord>>)
    ensures !q.scaleMin.IsFinite() || !q.scaleMax.IsFinite() || q.scaleMin.value == q.scaleMax.value ==> r == Success(None)
    ensures q.scaleMin.IsFinite() && q.scaleMax.IsFinite() && q.scaleMin.value != q.scaleMax.value ==>
      var choiceId := LookupChoice(q.choiceIds, MapScoreToScale(score, q.scaleMin.value, q.scaleMax.value));
      && (r.Failure? <==> choiceId == [])
      && (choiceId != [] ==>
            r == Success(Some(AnswerRecord(q.questionId, [ChoiceAnswer(choiceId, if q.rowId != [] then Some(q.rowId) else None)]))))
  {
    if !q.scaleMin.IsFinite() || !q.scaleMax.IsFinite() || q.scaleMin.value == q.scaleMax.value then
      Success(None)
    else
      var value := MapScoreToScale(score, q.scaleMin.value, q.scaleMax.value);
      var choiceId := LookupChoice(q.choiceIds, value);
      if choiceId == [] then
        Failure(ScaleChoiceUnresolved + q.questionId)
      else
        var rowId := if q.rowId != [] then Some(q.rowId) else None;
        Success(Some(AnswerRecord(q.questionId, [ChoiceAnswer(choiceId, rowId)])))
  }

  /** `buildQuestionAnswer`: `Success(None)` is the deliberate "no answer" (the source's `null`),
      `Failure` a thrown `Error`. */
  function BuildQuestionAnswer(q: QuestionConfig, a: Analysis): (r: Result<Option<AnswerRecord>>)
    ensures r.Success? && r.value.Some? ==> r.value.value.id == q.questionId && |r.value.value.answers| == 1
    ensures r.Failure? ==>
      && KindOfQuestion(q) in {BooleanKind, ScaleKind}
      && GetIntentScore(a, q.inferredIntent).Some?
    ensures KindOfQuestion(q) == UnknownKind ==> r == Success(None)
  {
    var kind := KindOfQuestion(q);
    if kind == TextKind then TextOutcome(q, a)
    else
      var score := GetIntentScore(a, q.inferredIntent);
      if score.None? then Success(None)
      else if kind == BooleanKind then BooleanOutcome(q, score.value)
      else if kind == ScaleKind then ScaleOutcome(q, score.value)
      else Success(None)
  }

  /** Text: a present confidence strictly below the threshold withholds the answer. */
  lemma TextWithheldBelowThreshold(q: QuestionConfig, a: Analysis)
    requires KindOfQuestion(q) == TextKind
    requires GetIntentConfidence(a, q.inferredIntent).Some?
    requires LessThan(GetIntentConfidence(a, q.inferredIntent).value,
                      q.confidenceThreshold.GetOr(Finite(DefaultConfidenceThreshold)))
    ensures BuildQuestionAnswer(q, a) == Success(None)
  {
  }

  /** Text: with no confidence, or one at or above the threshold, the answer is the joined
      feedback, and there is no answer exactly when every feedback item is blank. */
  lemma TextAnsweredOtherwise(q: QuestionConfig, a: Analysis, threshold: real)
    requires KindOfQuestion(q) == TextKind
    requires q.confidenceThreshold.GetOr(Finite(DefaultConfidenceThreshold)) == Finite(threshold)
    requires GetIntentConfidence(a, q.inferredIntent).None? || GetIntentConfidence(a, q.inferredIntent).value >= threshold
    ensures BuildQuestionAnswer(q, a).Success?
    ensures BuildQuestionAnswer(q, a).value.None? <==>
      AllBlank(a.openFeedback)
    ensures BuildQuestionAnswer(q, a).value.Some? ==>
      BuildQuestionAnswer(q, a).value.value.answers == [TextAnswer(Join(CleanedFeedback(a.openFeedback), "\n"))]
  {
  }

  /** Boolean and scale: without a usable score there is no answer and nothing is thrown. */
  lemma MissingScoreNoAnswer(q: QuestionConfig, a: Analysis)
    requires KindOfQuestion(q) != TextKind
    requires GetIntentScore(a, q.inferredIntent).None?
    ensures BuildQuestionAnswer(q, a) == Success(None)
  {
  }

  /** Boolean: the true choice exactly when score >= threshold; an empty picked id throws. */
  lemma BooleanAnswerLaw(q: QuestionConfig, a: Analysis)
    requires KindOfQuestion(q) == BooleanKind
    requires GetIntentScore(a, q.inferredIntent).Some?
    ensures var score := GetIntentScore(a, q.inferredIntent).value;
      var picked := if AtLeast(score, q.threshold.GetOr(Finite(DefaultThreshold))) then q.trueChoiceId else q.falseChoiceId;
      && (BuildQuestionAnswer(q, a).Failure? <==> picked == [])
      && (picked != [] ==> BuildQuestionAnswer(q, a) == Success(Some(AnswerRecord(q.questionId, [ChoiceAnswer(picked, None)]))))
  {
  }

  /** Scale: bounds that are not finite or are equal give no answer rather than an error. */
  lemma ScaleInvalidBoundsNoAnswer(q: QuestionConfig, a: Analysis)
    requires KindOfQuestion(q) == ScaleKind
    requires !q.scaleMin.IsFinite() || !q.scaleMax.IsFinite() || q.scaleMin.value == q.scaleMax.value
    ensures BuildQuestionAnswer(q, a) == Success(None)
  {
  }

  /** Scale: the answer is the choice stored under the mapped value; a missing or empty one
      throws; the row id is attached exactly when it is non-empty. */
  lemma ScaleAnswerLaw(q: QuestionConfig, a: Analysis)
    requires KindOfQuestion(q) == ScaleKind
    requires GetIntentScore(a, q.inferredIntent).Some?
    requires q.scaleMin.IsFinite() && q.scaleMax.IsFinite() && q.scaleMin.value != q.scaleMax.value
    ensures var value := MapScoreToScale(GetIntentScore(a, q.inferredIntent).value, q.scaleMin.value, q.scaleMax.value);
      && (BuildQuestionAnswer(q, a).Failure? <==>
            q.choiceIds.None? || value !in q.choiceIds.value || q.choiceIds.value[value] == [])
      && (BuildQuestionAnswer(q, a).Success? ==>
            BuildQuestionAnswer(q, a) == Success(Some(AnswerRecord(q.questionId,
              [ChoiceAnswer(q.choiceIds.value[value], if q.rowId != [] then Some(q.rowId) else None)]))))
  {
  }

  /** The validator and the synthesiser agree: a question that passed validation can only make
      `buildQuestionAnswer` throw when it is a scale whose mapped value has no usable choice id. */
  lemma ValidQuestionFailsOnlyOnScaleLookup(q: QuestionConfig, a: Analysis)
    requires IsValidQuestionConfig(q)
    requires BuildQuestionAnswer(q, a).Failure?
    ensures KindOfQuestion(q) == ScaleKind
    ensures LookupChoice(q.choiceIds,
      MapScoreToScale(GetIntentScore(a, q.inferredIntent).value, q.scaleMin.value, q.scaleMax.value)) == []
  {
  }
}

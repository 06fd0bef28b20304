/** What the validator and the answer synthesiser make of an auto-mapped config. */
module AutoMapValidity {
  import opened Wrappers
  import opened JsText
  import opened JsNumber
  import opened Intents
  import opened SchemaValidator
  import opened AnswerSynthesis
  import opened AutoMapper
  import opened PageAggregation

  /** A name without surrounding whitespace or capitals is its own normal form. */
  lemma NormalFormUnchanged(n: string)
    requires n != [] && !IsWhitespace(n[0]) && !IsWhitespace(n[|n| - 1])
    requires forall k :: 0 <= k < |n| ==> !('A' <= n[k] <= 'Z')
    ensures NormalizeQuestionType(n) == n
  {
    TrimUnchanged(n);
  }

  /** The three type names the mapper writes are already normalised. */
  lemma TextTypeIsCanonical()
    ensures KindOf(NormalizeQuestionType("text")) == TextKind
  {
    var n := "text";
    assert n[0] == 't' && n[|n| - 1] == 't';
    NormalFormUnchanged(n);
    KindOfMeaning(n);
  }

  lemma BooleanTypeIsCanonical()
    ensures KindOf(NormalizeQuestionType("boolean")) == BooleanKind
  {
    var n := "boolean";
    assert n[0] == 'b' && n[|n| - 1] == 'n';
    NormalFormUnchanged(n);
    KindOfMeaning(n);
  }

  lemma ScaleTypeIsCanonical()
    ensures KindOf(NormalizeQuestionType("scale")) == ScaleKind
  {
    var n := "scale";
    assert n[0] == 's' && n[|n| - 1] == 'e';
    NormalFormUnchanged(n);
    KindOfMeaning(n);
  }

  /** The condition on a raw question under which its mapped form passes validation: a
      two-choice `single_choice` needs both choice ids, and a `matrix` needs more than one
      column (one column gives `scale_min == scale_max == 1`). */
  predicate RawValid(q: RawQuestion) {
    match FamilyOf(q.family)
    case SingleChoice => |q.choices| != 2 || (q.choices[0].id != [] && q.choices[1].id != [])
    case Matrix => |q.choices| != 1
    case _ => true
  }

  /** An open-ended question's config is always valid. */
  lemma TextQuestionValid(id: string, pageId: string, text: string)
    requires id != []
    ensures IsValidQuestionConfig(MappedQuestion(id, pageId, text, "text", OpenFeedback))
  {
    TextTypeIsCanonical();
    NameRoundTrip(OpenFeedback);
  }

  /** A boolean question's config is valid exactly when both choice ids are present. */
  lemma BooleanQuestionValid(id: string, pageId: string, text: string, choices: BooleanChoices)
    requires id != []
    ensures IsValidQuestionConfig(BooleanQuestion(id, pageId, text, choices)) <==>
      choices.trueChoiceId != [] && choices.falseChoiceId != []
  {
    BooleanTypeIsCanonical();
    NameRoundTrip(InferIntentFromText(text, "boolean"));
  }

  /** A scale question's config is valid exactly when its bounds are finite and distinct. */
  lemma ScaleQuestionValid(id: string, pageId: string, text: string, m: ChoiceMap, rowId: string)
    requires id != []
    ensures IsValidQuestionConfig(ScaleQuestion(id, pageId, text, m, rowId)) <==>
      m.min.IsFinite() && m.max.IsFinite() && m.min.value != m.max.value
  {
    ScaleTypeIsCanonical();
    NameRoundTrip(InferIntentFromText(text, "scale"));
  }

  /** A mapped question passes `isValidQuestionConfig` exactly when its raw question is `RawValid`. */
  lemma MappedQuestionValidity(pageId: string, q: RawQuestion)
    requires MapQuestion(pageId, q).Some?
    ensures IsValidQuestionConfig(MapQuestion(pageId, q).value) <==> RawValid(q)
  {
    var text := ExtractQuestionText(q);
    match FamilyOf(q.family)
    case OpenEnded =>
      TextQuestionValid(q.id, pageId, text);
    case SingleChoice =>
      if |q.choices| == 2 {
        var choices := ResolveBooleanChoices(q.choices).value;
        BooleanQuestionValid(q.id, pageId, text, choices);
        var ids := multiset{choices.trueChoiceId, choices.falseChoiceId};
        assert ids == multiset{q.choices[0].id, q.choices[1].id};
        assert [] in ids <==> q.choices[0].id == [] || q.choices[1].id == [];
      } else {
        ChoiceMapIsPositional(q.choices);
        ScaleQuestionValid(q.id, pageId, text, ChoiceMapOf(q.choices), "");
      }
    case Matrix =>
      ChoiceMapIsPositional(q.choices);
      ScaleQuestionValid(q.id, pageId, text, ChoiceMapOf(q.choices), if |q.rowIds| > 0 then q.rowIds[0] else "");
  }

  /** A question `autoMapSurveyToConfig` skips or maps to a valid config. */
  predicate Acceptable(q: RawQuestion) {
    q.id == [] || RawValid(q)
  }

  /** A question that is skipped never stands in the way of validation. */
  lemma SkippedQuestionAcceptable(pageId: string, q: RawQuestion)
    requires MapQuestion(pageId, q).None?
    ensures Acceptable(q)
  {
  }

  predicate AllValid(cs: seq<QuestionConfig>) {
    forall k :: 0 <= k < |cs| ==> IsValidQuestionConfig(cs[k])
  }

  lemma AllValidAppend(xs: seq<QuestionConfig>, ys: seq<QuestionConfig>)
    ensures AllValid(xs + ys) <==> AllValid(xs) && AllValid(ys)
  {
    if AllValid(xs) && AllValid(ys) {
      forall k | 0 <= k < |xs + ys| ensures IsValidQuestionConfig((xs + ys)[k]) {
        if k >= |xs| {
          assert (xs + ys)[k] == ys[k - |xs|];
        }
      }
    }
    if AllValid(xs + ys) {
      forall k | 0 <= k < |xs| ensures IsValidQuestionConfig(xs[k]) {
        assert (xs + ys)[k] == xs[k];
      }
      forall k | 0 <= k < |ys| ensures IsValidQuestionConfig(ys[k]) {
        assert (xs + ys)[|xs| + k] == ys[k];
      }
    }
  }

  /** Every question of `qs` is acceptable. */
  predicate AllAcceptable(qs: seq<RawQuestion>) {
    forall j :: 0 <= j < |qs| ==> Acceptable(qs[j])
  }

  lemma AllAcceptableSnoc(qs: seq<RawQuestion>)
    requires qs != []
    ensures AllAcceptable(qs) <==> AllAcceptable(qs[..|qs| - 1]) && Acceptable(qs[|qs| - 1])
  {
    var init := qs[..|qs| - 1];
    assert forall j :: 0 <= j < |init| ==> qs[j] == init[j];
  }

  /** The configs of one page are all valid exactly when every raw question is acceptable. */
  lemma {:induction false} MapPageQuestionsAllValid(pageId: string, qs: seq<RawQuestion>)
    ensures AllValid(MapPageQuestions(pageId, qs)) <==> AllAcceptable(qs)
    decreases |qs|
  {
    if qs != [] {
      var init := qs[..|qs| - 1];
      var last := qs[|qs| - 1];
      var tail := match MapQuestion(pageId, last) case Some(c) => [c] case None => [];
      assert MapPageQuestions(pageId, qs) == MapPageQuestions(pageId, init) + tail;
      MapPageQuestionsAllValid(pageId, init);
      AllValidAppend(MapPageQuestions(pageId, init), tail);
      if MapQuestion(pageId, last).Some? {
        MappedQuestionValidity(pageId, last);
        assert AllValid(tail) <==> IsValidQuestionConfig(tail[0]);
      } else {
        SkippedQuestionAcceptable(pageId, last);
      }
      AllAcceptableSnoc(qs);
    }
  }

  /** A page is acceptable when it has no question array or all its questions are acceptable. */
  predicate PageAcceptable(page: RawPage) {
    page.questions.Some? ==> AllAcceptable(page.questions.value)
  }

  /** One page's configs are all valid exactly when the page is acceptable. */
  lemma PageQuestionsAllValid(page: RawPage)
    ensures AllValid(PageQuestions(page)) <==> PageAcceptable(page)
  {
    if page.questions.Some? {
      MapPageQuestionsAllValid(page.id, page.questions.value);
    }
  }

  /** Every page is acceptable. */
  predicate AllPagesAcceptable(pages: seq<RawPage>) {
    forall p :: 0 <= p < |pages| ==> PageAcceptable(pages[p])
  }

  lemma AllPagesSnoc(pages: seq<RawPage>)
    requires pages != []
    ensures AllPagesAcceptable(pages) <==>
      AllPagesAcceptable(pages[..|pages| - 1]) && PageAcceptable(pages[|pages| - 1])
  {
    var init := pages[..|pages| - 1];
    assert forall p :: 0 <= p < |init| ==> pages[p] == init[p];
  }

  /** The configs of all pages are all valid exactly when every page is acceptable. */
  lemma {:induction false} MapPagesAllValid(pages: seq<RawPage>)
    ensures AllValid(MapPages(pages)) <==> AllPagesAcceptable(pages)
    decreases |pages|
  {
    if pages != [] {
      var init := pages[..|pages| - 1];
      var last := pages[|pages| - 1];
      MapPagesAllValid(init);
      AllValidAppend(MapPages(init), PageQuestions(last));
      PageQuestionsAllValid(last);
      AllPagesSnoc(pages);
    }
  }

  /** `normalizeSurveyConfig` accepts an auto-mapped config exactly when the survey and
      collector ids and the first page's id are present, at least one question was mapped,
      and every page is acceptable. */
  lemma AutoMapAcceptedIff(surveyId: string, collectorId: string, details: SurveyDetails)
    requires AutoMapped(surveyId, collectorId, details).Success?
    ensures IsValidSurveyConfig(AutoMapped(surveyId, collectorId, details).value) <==>
      && surveyId != []
      && collectorId != []
      && details.pages.value[0].id != []
      && MapPages(details.pages.value) != []
      && AllPagesAcceptable(details.pages.value)
  {
    MapPagesAllValid(details.pages.value);
  }

  /** A `matrix` question with a single column makes the whole auto-mapped config invalid:
      its scale has `scale_min == scale_max == 1`. */
  lemma SingleColumnMatrixRejected(surveyId: string, collectorId: string, details: SurveyDetails, p: nat, j: nat)
    requires AutoMapped(surveyId, collectorId, details).Success?
    requires p < |details.pages.value|
    requires details.pages.value[p].questions.Some?
    requires j < |details.pages.value[p].questions.value|
    requires details.pages.value[p].questions.value[j].id != []
    requires FamilyOf(details.pages.value[p].questions.value[j].family) == Matrix
    requires |details.pages.value[p].questions.value[j].choices| == 1
    ensures !IsValidSurveyConfig(AutoMapped(surveyId, collectorId, details).value)
  {
    AutoMapAcceptedIff(surveyId, collectorId, details);
    assert !PageAcceptable(details.pages.value[p]);
  }

  /** Every choice of the question has a non-empty id. */
  predicate ChoiceIdsPresent(q: RawQuestion) {
    forall j :: 0 <= j < |q.choices| ==> q.choices[j].id != []
  }

  /** A scale built from choices with ids always resolves its choice: the mapped value is a
      whole number from 1 to n, which is a key of the positional map. */
  lemma ScaleLookupResolves(choices: seq<Choice>, score: real)
    requires |choices| > 1
    requires forall j :: 0 <= j < |choices| ==> choices[j].id != []
    ensures var m := ChoiceMapOf(choices);
      LookupChoice(Some(m.ids), MapScoreToScale(score, m.min.value, m.max.value)) != []
  {
    ChoiceMapIsPositional(choices);
    var n := |choices|;
    MapScoreToScaleIntegral(score, 1, n);
    var v := MapScoreToScale(score, 1 as real, n as real);
    var j := v.Floor - 1;
    assert Position(j) == v;
  }

  /** An open-ended question's answer never throws. */
  lemma TextAnswerNeverFails(id: string, pageId: string, text: string, a: Analysis)
    ensures BuildQuestionAnswer(MappedQuestion(id, pageId, text, "text", OpenFeedback), a).Success?
  {
    TextTypeIsCanonical();
  }

  /** A boolean question with both choice ids never throws. */
  lemma BooleanAnswerNeverFails(id: string, pageId: string, text: string, choices: BooleanChoices, a: Analysis)
    requires choices.trueChoiceId != [] && choices.falseChoiceId != []
    ensures BuildQuestionAnswer(BooleanQuestion(id, pageId, text, choices), a).Success?
  {
    var q := BooleanQuestion(id, pageId, text, choices);
    BooleanTypeIsCanonical();
    assert KindOfQuestion(q) == BooleanKind;
    if GetIntentScore(a, q.inferredIntent).Some? {
      BooleanAnswerLaw(q, a);
    } else {
      MissingScoreNoAnswer(q, a);
    }
  }

  /** A scale question built from at least one choice, all with ids, never throws. */
  lemma ScaleAnswerNeverFails(id: string, pageId: string, text: string, choices: seq<Choice>, rowId: string, a: Analysis)
    requires |choices| > 0
    requires forall j :: 0 <= j < |choices| ==> choices[j].id != []
    ensures BuildQuestionAnswer(ScaleQuestion(id, pageId, text, ChoiceMapOf(choices), rowId), a).Success?
  {
    var q := ScaleQuestion(id, pageId, text, ChoiceMapOf(choices), rowId);
    ScaleTypeIsCanonical();
    ChoiceMapIsPositional(choices);
    assert KindOfQuestion(q) == ScaleKind;
    var score := GetIntentScore(a, q.inferredIntent);
    if score.None? {
      MissingScoreNoAnswer(q, a);
    } else if |choices| == 1 {
      ScaleInvalidBoundsNoAnswer(q, a);
    } else {
      ScaleAnswerLaw(q, a);
      ScaleLookupResolves(choices, score.value);
    }
  }

  /** With every choice id present, the answer to an auto-mapped question never throws,
      whatever the analysis says. */
  lemma MappedAnswerNeverFails(pageId: string, q: RawQuestion, a: Analysis)
    requires MapQuestion(pageId, q).Some?
    requires ChoiceIdsPresent(q)
    ensures BuildQuestionAnswer(MapQuestion(pageId, q).value, a).Success?
  {
    var text := ExtractQuestionText(q);
    match FamilyOf(q.family)
    case OpenEnded =>
      TextAnswerNeverFails(q.id, pageId, text, a);
    case SingleChoice =>
      if |q.choices| == 2 {
        var choices := ResolveBooleanChoices(q.choices).value;
        assert choices.trueChoiceId in multiset{q.choices[0].id, q.choices[1].id};
        assert choices.falseChoiceId in multiset{q.choices[0].id, q.choices[1].id};
        BooleanAnswerNeverFails(q.id, pageId, text, choices, a);
      } else {
        ScaleAnswerNeverFails(q.id, pageId, text, q.choices, "", a);
      }
    case Matrix =>
      ScaleAnswerNeverFails(q.id, pageId, text, q.choices, if |q.rowIds| > 0 then q.rowIds[0] else "", a);
  }

  /** No config of `cs` makes `buildQuestionAnswer` throw for the analysis `a`. */
  predicate NoneThrow(cs: seq<QuestionConfig>, a: Analysis) {
    forall k :: 0 <= k < |cs| ==> BuildQuestionAnswer(cs[k], a).Success?
  }

  lemma NoneThrowAppend(xs: seq<QuestionConfig>, ys: seq<QuestionConfig>, a: Analysis)
    requires NoneThrow(xs, a) && NoneThrow(ys, a)
    ensures NoneThrow(xs + ys, a)
  {
    forall k | 0 <= k < |xs + ys| ensures BuildQuestionAnswer((xs + ys)[k], a).Success? {
      if k < |xs| {
        assert (xs + ys)[k] == xs[k];
      } else {
        assert (xs + ys)[k] == ys[k - |xs|];
      }
    }
  }

  /** One page's questions, all with choice ids, give configs that never throw. */
  lemma {:induction false} MapPageQuestionsNoneThrow(pageId: string, qs: seq<RawQuestion>, a: Analysis)
    requires forall j :: 0 <= j < |qs| ==> ChoiceIdsPresent(qs[j])
    ensures NoneThrow(MapPageQuestions(pageId, qs), a)
    decreases |qs|
  {
    if qs != [] {
      var init := qs[..|qs| - 1];
      var last := qs[|qs| - 1];
      var tail := match MapQuestion(pageId, last) case Some(c) => [c] case None => [];
      assert MapPageQuestions(pageId, qs) == MapPageQuestions(pageId, init) + tail;
      assert forall j :: 0 <= j < |init| ==> init[j] == qs[j];
      MapPageQuestionsNoneThrow(pageId, init, a);
      if MapQuestion(pageId, last).Some? {
        MappedAnswerNeverFails(pageId, last, a);
      }
      NoneThrowAppend(MapPageQuestions(pageId, init), tail, a);
    }
  }

  /** Every question of the page that has a question array has all its choice ids. */
  predicate PageChoiceIdsPresent(page: RawPage) {
    page.questions.Some? ==> forall j :: 0 <= j < |page.questions.value| ==> ChoiceIdsPresent(page.questions.value[j])
  }

  lemma {:induction false} MapPagesNoneThrow(pages: seq<RawPage>, a: Analysis)
    requires forall p :: 0 <= p < |pages| ==> PageChoiceIdsPresent(pages[p])
    ensures NoneThrow(MapPages(pages), a)
    decreases |pages|
  {
    if pages != [] {
      var init := pages[..|pages| - 1];
      var last := pages[|pages| - 1];
      assert MapPages(pages) == MapPages(init) + PageQuestions(last);
      assert forall p :: 0 <= p < |init| ==> init[p] == pages[p];
      MapPagesNoneThrow(init, a);
      if last.questions.Some? {
        MapPageQuestionsNoneThrow(last.id, last.questions.value, a);
      }
      NoneThrowAppend(MapPages(init), PageQuestions(last), a);
    }
  }

  /** When every choice of the survey has an id, `buildSurveyPagesPayload` on the auto-mapped
      config never throws, whatever the analysis. */
  lemma AutoMappedPayloadSucceeds(surveyId: string, collectorId: string, details: SurveyDetails, a: Analysis)
    requires AutoMapped(surveyId, collectorId, details).Success?
    requires forall p :: 0 <= p < |details.pages.value| ==> PageChoiceIdsPresent(details.pages.value[p])
    ensures SurveyPagesPayload(a, AutoMapped(surveyId, collectorId, details).value).Success?
  {
    MapPagesNoneThrow(details.pages.value, a);
    PayloadFailure(a, AutoMapped(surveyId, collectorId, details).value);
  }
}

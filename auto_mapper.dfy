/** Turning SurveyMonkey survey details into a survey config: `extractQuestionText`,
    `inferIntentFromText`, `buildChoiceMap`, `resolveBooleanChoices` and `autoMapSurveyToConfig`. */
module AutoMapper {
  import opened Wrappers
  import opened JsText
  import opened JsNumber
  import opened Intents
  import opened SchemaValidator

  /** One choice of a closed question: its id and its label ("" when absent or falsy). */
  datatype Choice = Choice(id: string, text: string)

  /** One question of the survey details. `headings` holds the `heading` of each entry of
      `headings` ("" when falsy); `choices` is `answers.choices` ([] when that is not an array);
      `rowIds` holds the ids of `answers.rows`. A null entry behaves as an entry without an id. */
  datatype RawQuestion = RawQuestion(
    id: string,
    family: string,
    headings: seq<string>,
    heading: string,
    choices: seq<Choice>,
    rowIds: seq<string>)

  /** One page; `questions` is `None` when the field is not an array. */
  datatype RawPage = RawPage(id: string, questions: Option<seq<RawQuestion>>)

  /** The survey details; `pages` is `None` when the details or their `pages` array are missing. */
  datatype SurveyDetails = SurveyDetails(pages: Option<seq<RawPage>>)

  // ---------------------------------------------------------------- question text

  /** `extractQuestionText`: the first heading when it is non-empty, else the `heading` field. */
  function ExtractQuestionText(q: RawQuestion): (r: string)
    ensures r == [] <==> (|q.headings| == 0 || q.headings[0] == []) && q.heading == []
    ensures r != [] ==> (|q.headings| > 0 && r == q.headings[0]) || r == q.heading
    ensures |q.headings| > 0 && q.headings[0] != [] ==> r == q.headings[0]
  {
    if |q.headings| > 0 && q.headings[0] != [] then q.headings[0] else q.heading
  }

  // ---------------------------------------------------------------- intent inference

  /** The keyword groups of `inferIntentFromText`, in the order they are tried. */
  const KeywordGroups: seq<(seq<string>, Intent)> := [
    (["confus", "unclear", "confusing"], ConfusionLevel),
    (["frustrat", "annoy", "angry"], FrustrationLevel),
    (["trust", "confiden", "secure", "safe"], TrustConfidence),
    (["easy", "ease", "simple", "usable"], EaseOfUse),
    (["recommend", "likely", "continue", "return"], LikelihoodToContinue),
    (["satisf", "overall", "experience"], OverallSatisfaction)
  ]

  /** `value` includes one of `keywords`. */
  predicate MentionsAny(value: string, keywords: seq<string>) {
    keywords != [] && (Contains(value, keywords[0]) || MentionsAny(value, keywords[1..]))
  }

  /** The intent of the first group one of whose keywords `value` includes. */
  function FirstMatchingGroup(value: string, groups: seq<(seq<string>, Intent)>): Option<Intent> {
    if groups == [] then None
    else if MentionsAny(value, groups[0].0) then Some(groups[0].1)
    else FirstMatchingGroup(value, groups[1..])
  }

  /** `inferIntentFromText`: `OPEN_FEEDBACK` for text questions, otherwise the first keyword
      group the lower-cased text mentions, falling back to `CONFUSION_LEVEL` for boolean
      questions and `OVERALL_SATISFACTION` for the rest. */
  function InferIntentFromText(text: string, questionType: string): Intent {
    if questionType == "text" then OpenFeedback
    else
      match FirstMatchingGroup(ToLower(text), KeywordGroups)
      case Some(intent) => intent
      case None => if questionType == "boolean" then ConfusionLevel else OverallSatisfaction
  }

  lemma MentionsAnyOfThree(v: string, a: string, b: string, c: string)
    ensures MentionsAny(v, [a, b, c]) <==> Contains(v, a) || Contains(v, b) || Contains(v, c)
  {
    assert [a, b, c][1..] == [b, c] && [b, c][1..] == [c] && [c][1..] == [];
    assert MentionsAny(v, [c]) <==> Contains(v, c);
    assert MentionsAny(v, [b, c]) <==> Contains(v, b) || MentionsAny(v, [c]);
  }

  lemma MentionsAnyOfFour(v: string, a: string, b: string, c: string, d: string)
    ensures MentionsAny(v, [a, b, c, d]) <==> Contains(v, a) || Contains(v, b) || Contains(v, c) || Contains(v, d)
  {
    assert [a, b, c, d][1..] == [b, c, d];
    MentionsAnyOfThree(v, b, c, d);
  }

  /** The keyword table, read as the chain of `includes` tests of `inferIntentFromText`. */
  lemma InferIntentChain(text: string, questionType: string)
    ensures var v := ToLower(text);
      InferIntentFromText(text, questionType) ==
        if questionType == "text" then OpenFeedback
        else if Contains(v, "confus") || Contains(v, "unclear") || Contains(v, "confusing") then ConfusionLevel
        else if Contains(v, "frustrat") || Contains(v, "annoy") || Contains(v, "angry") then FrustrationLevel
        else if Contains(v, "trust") || Contains(v, "confiden") || Contains(v, "secure") || Contains(v, "safe") then TrustConfidence
        else if Contains(v, "easy") || Contains(v, "ease") || Contains(v, "simple") || Contains(v, "usable") then EaseOfUse
        else if Contains(v, "recommend") || Contains(v, "likely") || Contains(v, "continue") || Contains(v, "return") then LikelihoodToContinue
        else if Contains(v, "satisf") || Contains(v, "overall") || Contains(v, "experience") then OverallSatisfaction
        else if questionType == "boolean" then ConfusionLevel
        else OverallSatisfaction
  {
    var v := ToLower(text);
    var g := KeywordGroups;
    MentionsAnyOfThree(v, "confus", "unclear", "confusing");
    MentionsAnyOfThree(v, "frustrat", "annoy", "angry");
    MentionsAnyOfFour(v, "trust", "confiden", "secure", "safe");
    MentionsAnyOfFour(v, "easy", "ease", "simple", "usable");
    MentionsAnyOfFour(v, "recommend", "likely", "continue", "return");
    MentionsAnyOfThree(v, "satisf", "overall", "experience");
    assert FirstMatchingGroup(v, g) == if MentionsAny(v, g[0].0) then Some(g[0].1) else FirstMatchingGroup(v, g[1..]);
    assert FirstMatchingGroup(v, g[1..]) == if MentionsAny(v, g[1].0) then Some(g[1].1) else FirstMatchingGroup(v, g[2..]);
    assert FirstMatchingGroup(v, g[2..]) == if MentionsAny(v, g[2].0) then Some(g[2].1) else FirstMatchingGroup(v, g[3..]);
    assert FirstMatchingGroup(v, g[3..]) == if MentionsAny(v, g[3].0) then Some(g[3].1) else FirstMatchingGroup(v, g[4..]);
    assert FirstMatchingGroup(v, g[4..]) == if MentionsAny(v, g[4].0) then Some(g[4].1) else FirstMatchingGroup(v, g[5..]);
    assert FirstMatchingGroup(v, g[5..]) == if MentionsAny(v, g[5].0) then Some(g[5].1) else FirstMatchingGroup(v, g[6..]);
    assert g[6..] == [];
  }

  /** Only text questions are bound to `OPEN_FEEDBACK`. */
  lemma {:induction false} InferIntentNotOpenFeedback(text: string, questionType: string)
    requires questionType != "text"
    ensures InferIntentFromText(text, questionType) != OpenFeedback
  {
    GroupIntentsNotOpenFeedback(ToLower(text), KeywordGroups);
  }

  lemma {:induction false} GroupIntentsNotOpenFeedback(v: string, groups: seq<(seq<string>, Intent)>)
    requires forall k :: 0 <= k < |groups| ==> groups[k].1 != OpenFeedback
    ensures FirstMatchingGroup(v, groups) != Some(OpenFeedback)
  {
    if groups != [] && !MentionsAny(v, groups[0].0) {
      GroupIntentsNotOpenFeedback(v, groups[1..]);
    }
  }

  /** The inference ignores letter case: lower-casing the text first changes nothing. */
  lemma InferIntentIgnoresCase(text: string, questionType: string)
    ensures InferIntentFromText(ToLower(text), questionType) == InferIntentFromText(text, questionType)
  {
    ToLowerIdempotent(text);
  }

  // ---------------------------------------------------------------- boolean polarity

  /** `{ true_choice_id, false_choice_id }`. */
  datatype BooleanChoices = BooleanChoices(trueChoiceId: string, falseChoiceId: string)

  /** A label reads as "false" when its lower-cased text includes `no` or `false`. */
  predicate ReadsAsFalse(text: string) {
    var v := ToLower(text);
    Contains(v, "no") || Contains(v, "false")
  }

  /** `resolveBooleanChoices`: only a two-choice question has a polarity. When exactly one
      label reads as "false", that choice is the false answer; otherwise the first choice is
      the true answer and the second the false one. */
  function ResolveBooleanChoices(choices: seq<Choice>): (r: Option<BooleanChoices>)
    ensures r.Some? <==> |choices| == 2
    ensures r.Some? ==> multiset{r.value.trueChoiceId, r.value.falseChoiceId} == multiset{choices[0].id, choices[1].id}
    ensures r.Some? && ReadsAsFalse(choices[0].text) && !ReadsAsFalse(choices[1].text) ==>
      r.value == BooleanChoices(choices[1].id, choices[0].id)
    ensures r.Some? && !ReadsAsFalse(choices[0].text) && ReadsAsFalse(choices[1].text) ==>
      r.value == BooleanChoices(choices[0].id, choices[1].id)
    ensures r.Some? && ReadsAsFalse(choices[0].text) == ReadsAsFalse(choices[1].text) ==>
      r.value == BooleanChoices(choices[0].id, choices[1].id)
  {
    if |choices| != 2 then None
    else
      var firstIsFalse := ReadsAsFalse(choices[0].text);
      var secondIsFalse := ReadsAsFalse(choices[1].text);
      if firstIsFalse && !secondIsFalse then Some(BooleanChoices(choices[1].id, choices[0].id))
      else if secondIsFalse && !firstIsFalse then Some(BooleanChoices(choices[0].id, choices[1].id))
      else Some(BooleanChoices(choices[0].id, choices[1].id))
  }

  /** When exactly one label reads as "false", the order the two choices come in does not matter. */
  lemma ResolveBooleanChoicesOrderFree(c0: Choice, c1: Choice)
    requires ReadsAsFalse(c0.text) != ReadsAsFalse(c1.text)
    ensures ResolveBooleanChoices([c0, c1]) == ResolveBooleanChoices([c1, c0])
    ensures ResolveBooleanChoices([c0, c1]).value.falseChoiceId == if ReadsAsFalse(c0.text) then c0.id else c1.id
  {
  }

  // ---------------------------------------------------------------- choice maps

  /** The length of the run of `d` characters of `s` that starts at `i`. */
  function DRun(s: string, i: nat): (n: nat)
    requires i <= |s|
    ensures i + n <= |s|
    ensures forall k :: i <= k < i + n ==> s[k] == 'd'
    ensures i + n == |s| || s[i + n] != 'd'
    decreases |s| - i
  {
    if i < |s| && s[i] == 'd' then 1 + DRun(s, i + 1) else 0
  }

  /** The match of the regular expression literal `/-?\\d+/` that starts at offset `i`: an
      optional `-`, one backslash, then a greedy run of `d` characters. The optional sign is
      tried first, as a backtracking matcher does. */
  function MatchAt(s: string, i: nat): (m: Option<string>)
    requires i <= |s|
    ensures m.Some? ==> i + |m.value| <= |s| && m.value == s[i..i + |m.value|]
    ensures m.Some? ==> '\\' in m.value
  {
    if i + 1 < |s| && s[i] == '-' && s[i + 1] == '\\' && DRun(s, i + 2) > 0 then
      assert s[i..i + 2 + DRun(s, i + 2)][1] == '\\';
      Some(s[i..i + 2 + DRun(s, i + 2)])
    else if i < |s| && s[i] == '\\' && DRun(s, i + 1) > 0 then
      assert s[i..i + 1 + DRun(s, i + 1)][0] == '\\';
      Some(s[i..i + 1 + DRun(s, i + 1)])
    else None
  }

  /** `text.match(/-?\\d+/)`: the leftmost match at or after offset `from`. */
  function FirstMatch(s: string, from: nat): (m: Option<string>)
    requires from <= |s|
    ensures m.Some? ==> '\\' in m.value
    decreases |s| - from
  {
    match MatchAt(s, from)
    case Some(x) => Some(x)
    case None => if from == |s| then None else FirstMatch(s, from + 1)
  }

  /** `match ? Number(match[0]) : null` for a choice label. */
  function LabelNumber(text: string): Option<JsNum> {
    match FirstMatch(text, 0)
    case Some(m) => Some(StringToNumber(m))
    case None => None
  }

  /** A label never yields a finite number: every match holds a backslash, and `Number` of a
      string holding a backslash is NaN. */
  lemma LabelNumberNeverFinite(text: string)
    ensures LabelNumber(text).None? || !LabelNumber(text).value.IsFinite()
  {
    if FirstMatch(text, 0).Some? {
      var m := FirstMatch(text, 0).value;
      var k :| 0 <= k < |m| && m[k] == '\\';
      assert !IsWhitespace(m[k]) && m[k] != '-' && !IsDigit(m[k]);
    }
  }

  /** The finite label numbers of `choices`, in order: the `numeric` array. */
  function NumericValues(choices: seq<Choice>): (r: seq<real>)
    ensures |r| <= |choices|
  {
    if choices == [] then []
    else
      NumericValues(choices[..|choices| - 1]) +
        match LabelNumber(choices[|choices| - 1].text)
        case Some(Finite(v)) => [v]
        case _ => []
  }

  /** No label contributes to `numeric`. */
  lemma {:induction false} NumericValuesEmpty(choices: seq<Choice>)
    ensures NumericValues(choices) == []
  {
    if choices != [] {
      NumericValuesEmpty(choices[..|choices| - 1]);
      LabelNumberNeverFinite(choices[|choices| - 1].text);
    }
  }

  /** `Math.min.apply(null, xs)`: `Infinity` for no arguments, else the least of them. */
  function MinOf(xs: seq<real>): (r: JsNum)
    ensures xs == [] <==> r == PosInf
    ensures xs != [] ==> r.Finite? && r.value in xs && forall k :: 0 <= k < |xs| ==> r.value <= xs[k]
  {
    if xs == [] then PosInf
    else if |xs| == 1 then Finite(xs[0])
    else Finite(Min(xs[0], MinOf(xs[1..]).value))
  }

  /** `Math.max.apply(null, xs)`: `-Infinity` for no arguments, else the greatest of them. */
  function MaxOf(xs: seq<real>): (r: JsNum)
    ensures xs == [] <==> r == NegInf
    ensures xs != [] ==> r.Finite? && r.value in xs && forall k :: 0 <= k < |xs| ==> xs[k] <= r.value
  {
    if xs == [] then NegInf
    else if |xs| == 1 then Finite(xs[0])
    else Finite(Max(xs[0], MaxOf(xs[1..]).value))
  }

  /** The value a choice is filed under in the numeric branch: its label number, or its
      1-based position when the label has no match. */
  function LabelValue(text: string, index: nat): JsNum {
    match LabelNumber(text)
    case Some(v) => v
    case None => Finite((index + 1) as real)
  }

  /** `map[String(value)] = choice.id` over the first `n` choices, in order: a later choice
      overwrites an earlier one with the same value. A value that is not a finite number has
      no key in this model. */
  function NumericMap(choices: seq<Choice>, n: nat): map<real, string>
    requires n <= |choices|
  {
    if n == 0 then map[]
    else
      match LabelValue(choices[n - 1].text, n - 1)
      case Finite(v) => NumericMap(choices, n - 1)[v := choices[n - 1].id]
      case _ => NumericMap(choices, n - 1)
  }

  /** The key `String(index + 1)` of the choice at `index`, as a number. */
  function Position(index: nat): real {
    (index + 1) as real
  }

  /** `map[String(index + 1)] = choice.id` over the first `n` choices: the keys are `1..n`. */
  function PositionalMap(choices: seq<Choice>, n: nat): (m: map<real, string>)
    requires n <= |choices|
    ensures forall j :: 0 <= j < n ==> Position(j) in m && m[Position(j)] == choices[j].id
    ensures forall x :: x in m ==> 1.0 <= x <= n as real && x.Floor as real == x
  {
    if n == 0 then map[]
    else
      var m := PositionalMap(choices, n - 1);
      assert forall j :: 0 <= j < n - 1 ==> Position(j) < Position(n - 1);
      m[Position(n - 1) := choices[n - 1].id]
  }

  /** `{ map, min, max }`: the choice ids keyed by scale value, and the scale bounds. */
  datatype ChoiceMap = ChoiceMap(ids: map<real, string>, min: JsNum, max: JsNum)

  /** `buildChoiceMap` as a value: the numeric branch when every label yields a finite number
      (and there is at least one choice), else the positional map over `1..n`. */
  function ChoiceMapOf(choices: seq<Choice>): ChoiceMap {
    var numeric := NumericValues(choices);
    if |numeric| == |choices| && |choices| > 0 then
      ChoiceMap(NumericMap(choices, |choices|), MinOf(numeric), MaxOf(numeric))
    else
      ChoiceMap(PositionalMap(choices, |choices|), Finite(1.0), Finite(|choices| as real))
  }

  /** Every choice map is positional: keys `1..n` in choice order, min 1 and max n. */
  lemma ChoiceMapIsPositional(choices: seq<Choice>)
    ensures ChoiceMapOf(choices) == ChoiceMap(PositionalMap(choices, |choices|), Finite(1.0), Finite(|choices| as real))
  {
    NumericValuesEmpty(choices);
  }

  /** `buildChoiceMap`: collects the label numbers, then fills the map by label number when
      all of them are finite and by position otherwise. */
  method BuildChoiceMap(choices: seq<Choice>) returns (r: ChoiceMap)
    ensures r == ChoiceMapOf(choices)
  {
    var numeric: seq<real> := [];
    var i := 0;
    while i < |choices|
      invariant 0 <= i <= |choices|
      invariant numeric == NumericValues(choices[..i])
    {
      var value := LabelNumber(choices[i].text);
      assert choices[..i + 1][..i] == choices[..i];
      if value.Some? && value.value.IsFinite() {
        numeric := numeric + [value.value.value];
      }
      i := i + 1;
    }
    assert choices[..|choices|] == choices;
    if |numeric| == |choices| && |choices| > 0 {
      var ids := FileByLabel(choices);
      return ChoiceMap(ids, MinOf(numeric), MaxOf(numeric));
    }
    var ids := FileByPosition(choices);
    return ChoiceMap(ids, Finite(1.0), Finite(|choices| as real));
  }

  /** The `forEach` of the numeric branch: each choice filed under its label value. */
  method FileByLabel(choices: seq<Choice>) returns (ids: map<real, string>)
    ensures ids == NumericMap(choices, |choices|)
  {
    ids := map[];
    var k := 0;
    while k < |choices|
      invariant 0 <= k <= |choices|
      invariant ids == NumericMap(choices, k)
    {
      var value := LabelValue(choices[k].text, k);
      if value.Finite? {
        ids := ids[value.value := choices[k].id];
      }
      k := k + 1;
    }
  }

  /** The positional `forEach`: each choice filed under its 1-based position. */
  method FileByPosition(choices: seq<Choice>) returns (ids: map<real, string>)
    ensures ids == PositionalMap(choices, |choices|)
  {
    ids := map[];
    var k := 0;
    while k < |choices|
      invariant 0 <= k <= |choices|
      invariant ids == PositionalMap(choices, k)
    {
      ids := ids[Position(k) := choices[k].id];
      k := k + 1;
    }
  }

  // ---------------------------------------------------------------- dispatch

  /** The question families the mapper handles. */
  datatype Family = OpenEnded | SingleChoice | Matrix | OtherFamily

  const FamilyNames: seq<(string, Family)> :=
    [("open_ended", OpenEnded), ("single_choice", SingleChoice), ("matrix", Matrix)]

  function FamilyIn(n: string, names: seq<(string, Family)>): Family {
    if names == [] then OtherFamily
    else if n == names[0].0 then names[0].1
    else FamilyIn(n, names[1..])
  }

  /** `String(question.family || '').toLowerCase()`, compared with the handled families. */
  function FamilyOf(family: string): Family {
    FamilyIn(ToLower(family), FamilyNames)
  }

  lemma FamilyOfMeaning(family: string)
    ensures FamilyOf(family) == OpenEnded <==> ToLower(family) == "open_ended"
    ensures FamilyOf(family) == SingleChoice <==> ToLower(family) == "single_choice"
    ensures FamilyOf(family) == Matrix <==> ToLower(family) == "matrix"
  {
    var n := ToLower(family);
    var names := FamilyNames;
    assert FamilyIn(n, names) == if n == "open_ended" then OpenEnded else FamilyIn(n, names[1..]);
    assert FamilyIn(n, names[1..]) == if n == "single_choice" then SingleChoice else FamilyIn(n, names[2..]);
    assert FamilyIn(n, names[2..]) == if n == "matrix" then Matrix else FamilyIn(n, names[3..]);
    assert names[3..] == [];
  }

  /** The fields every mapped question has; the ones the object literal leaves out are absent. */
  function MappedQuestion(id: string, pageId: string, text: string, questionType: string, intent: Intent): QuestionConfig {
    QuestionConfig(
      questionId := id, pageId := pageId, questionText := text, questionType := questionType,
      inferredIntent := Name(intent), trueChoiceId := "", falseChoiceId := "",
      scaleMin := NaN, scaleMax := NaN, choiceIds := None, rowId := "",
      threshold := None, confidenceThreshold := None)
  }

  /** The object pushed for a two-choice `single_choice` question. */
  function BooleanQuestion(id: string, pageId: string, text: string, choices: BooleanChoices): QuestionConfig {
    MappedQuestion(id, pageId, text, "boolean", InferIntentFromText(text, "boolean"))
      .(trueChoiceId := choices.trueChoiceId, falseChoiceId := choices.falseChoiceId)
  }

  /** The object pushed for a scale (`single_choice` with more choices, or `matrix`). */
  function ScaleQuestion(id: string, pageId: string, text: string, choiceMap: ChoiceMap, rowId: string): QuestionConfig {
    MappedQuestion(id, pageId, text, "scale", InferIntentFromText(text, "scale"))
      .(scaleMin := choiceMap.min, scaleMax := choiceMap.max, choiceIds := Some(choiceMap.ids), rowId := rowId)
  }

  /** The config question one raw question becomes, if any: id-less questions, unknown
      families, `single_choice` with fewer than two choices and `matrix` without choices are
      skipped. */
  function MapQuestion(pageId: string, q: RawQuestion): Option<QuestionConfig> {
    if q.id == [] then None
    else
      var text := ExtractQuestionText(q);
      match FamilyOf(q.family)
      case OpenEnded => Some(MappedQuestion(q.id, pageId, text, "text", OpenFeedback))
      case SingleChoice =>
        if |q.choices| == 2 then
          match ResolveBooleanChoices(q.choices)
          case None => None
          case Some(choices) => Some(BooleanQuestion(q.id, pageId, text, choices))
        else if |q.choices| > 2 then Some(ScaleQuestion(q.id, pageId, text, ChoiceMapOf(q.choices), ""))
        else None
      case Matrix =>
        if |q.choices| > 0 then
          Some(ScaleQuestion(q.id, pageId, text, ChoiceMapOf(q.choices), if |q.rowIds| > 0 then q.rowIds[0] else ""))
        else None
      case OtherFamily => None
  }

  /** Which raw questions are mapped: those with an id that are open-ended, `single_choice`
      with at least two choices, or `matrix` with at least one column. */
  lemma MapQuestionKeeps(pageId: string, q: RawQuestion)
    ensures MapQuestion(pageId, q).Some? <==>
      && q.id != []
      && (|| FamilyOf(q.family) == OpenEnded
          || (FamilyOf(q.family) == SingleChoice && |q.choices| >= 2)
          || (FamilyOf(q.family) == Matrix && |q.choices| > 0))
  {
  }

  /** A mapped question keeps the raw question's id, its page's id and its extracted text. */
  lemma MapQuestionKeepsIdentity(pageId: string, q: RawQuestion)
    requires MapQuestion(pageId, q).Some?
    ensures var c := MapQuestion(pageId, q).value;
      c.questionId == q.id && c.pageId == pageId && c.questionText == ExtractQuestionText(q)
  {
  }

  /** The intent of a mapped question is one of `INTENTS`, and it is `OPEN_FEEDBACK` exactly
      for an open-ended question. */
  lemma MapQuestionIntent(pageId: string, q: RawQuestion)
    requires MapQuestion(pageId, q).Some?
    ensures IsIntentName(MapQuestion(pageId, q).value.inferredIntent)
    ensures MapQuestion(pageId, q).value.inferredIntent == Name(OpenFeedback) <==> FamilyOf(q.family) == OpenEnded
  {
    var text := ExtractQuestionText(q);
    var c := MapQuestion(pageId, q).value;
    NameRoundTrip(OpenFeedback);
    if FamilyOf(q.family) != OpenEnded {
      var t := if FamilyOf(q.family) == SingleChoice && |q.choices| == 2 then "boolean" else "scale";
      var intent := InferIntentFromText(text, t);
      assert c.inferredIntent == Name(intent);
      InferIntentNotOpenFeedback(text, t);
      NameRoundTrip(intent);
    }
  }

  /** A two-choice `single_choice` question becomes a boolean whose two ids are the two
      choices' ids, with the polarity `resolveBooleanChoices` gives them, and whose intent is
      the one inferred from its text as a boolean question. */
  lemma MapQuestionBooleanIds(pageId: string, q: RawQuestion)
    requires q.id != [] && FamilyOf(q.family) == SingleChoice && |q.choices| == 2
    ensures MapQuestion(pageId, q).Some?
    ensures var c := MapQuestion(pageId, q).value;
      && c.questionType == "boolean"
      && multiset{c.trueChoiceId, c.falseChoiceId} == multiset{q.choices[0].id, q.choices[1].id}
      && c.trueChoiceId == ResolveBooleanChoices(q.choices).value.trueChoiceId
      && c.falseChoiceId == ResolveBooleanChoices(q.choices).value.falseChoiceId
      && c.inferredIntent == Name(InferIntentFromText(ExtractQuestionText(q), "boolean"))
  {
  }

  /** A larger `single_choice` question or a `matrix` with columns becomes a scale from 1 to n
      with choice `j` stored under `j + 1`, and its intent is the one inferred from its text as
      a scale question; a matrix carries its first row id. */
  lemma MapQuestionScale(pageId: string, q: RawQuestion)
    requires q.id != []
    requires (FamilyOf(q.family) == SingleChoice && |q.choices| > 2) || (FamilyOf(q.family) == Matrix && |q.choices| > 0)
    ensures MapQuestion(pageId, q).Some?
    ensures var c := MapQuestion(pageId, q).value;
      && c.questionType == "scale"
      && c.scaleMin == Finite(1.0) && c.scaleMax == Finite(|q.choices| as real)
      && c.choiceIds.Some?
      && (forall j :: 0 <= j < |q.choices| ==> Position(j) in c.choiceIds.value && c.choiceIds.value[Position(j)] == q.choices[j].id)
      && (forall x :: x in c.choiceIds.value ==> 1.0 <= x <= |q.choices| as real && x.Floor as real == x)
      && c.rowId == (if FamilyOf(q.family) == Matrix && |q.rowIds| > 0 then q.rowIds[0] else "")
      && c.inferredIntent == Name(InferIntentFromText(ExtractQuestionText(q), "scale"))
  {
    ChoiceMapIsPositional(q.choices);
  }

  /** The config questions of one page's questions, in order. */
  function MapPageQuestions(pageId: string, qs: seq<RawQuestion>): (r: seq<QuestionConfig>)
    ensures |r| <= |qs|
  {
    if qs == [] then []
    else
      MapPageQuestions(pageId, qs[..|qs| - 1]) +
        match MapQuestion(pageId, qs[|qs| - 1])
        case Some(c) => [c]
        case None => []
  }

  /** The config questions of one page; a page whose `questions` is not an array has none. */
  function PageQuestions(page: RawPage): seq<QuestionConfig> {
    if page.questions.None? then [] else MapPageQuestions(page.id, page.questions.value)
  }

  /** The config questions of all pages, page by page. */
  function MapPages(pages: seq<RawPage>): seq<QuestionConfig> {
    if pages == [] then [] else MapPages(pages[..|pages| - 1]) + PageQuestions(pages[|pages| - 1])
  }

  lemma MapPageQuestionsPrefix(pageId: string, qs: seq<RawQuestion>, j: nat)
    requires j < |qs|
    ensures MapQuestion(pageId, qs[j]).Some? ==>
      MapPageQuestions(pageId, qs[..j + 1]) == MapPageQuestions(pageId, qs[..j]) + [MapQuestion(pageId, qs[j]).value]
    ensures MapQuestion(pageId, qs[j]).None? ==>
      MapPageQuestions(pageId, qs[..j + 1]) == MapPageQuestions(pageId, qs[..j])
  {
    assert qs[..j + 1][..j] == qs[..j];
  }

  lemma MapPagesPrefix(pages: seq<RawPage>, p: nat)
    requires p < |pages|
    ensures MapPages(pages[..p + 1]) == MapPages(pages[..p]) + PageQuestions(pages[p])
  {
    assert pages[..p + 1][..p] == pages[..p];
  }

  const MissingPagesError: string := "SurveyMonkey details missing pages"

  /** `autoMapSurveyToConfig` as a value: the error when there are no pages, else the config
      whose default page is the first page and whose questions are the mapped ones. */
  function AutoMapped(surveyId: string, collectorId: string, details: SurveyDetails): Result<SurveyConfig> {
    if details.pages.None? || details.pages.value == [] then Failure(MissingPagesError)
    else
      var pages := details.pages.value;
      Success(SurveyConfig(surveyId, collectorId, pages[0].id, Some(MapPages(pages))))
  }

  /** The body of the question loop of `autoMapSurveyToConfig`: the object it pushes, if any.
      Each `continue` of the loop is a return of `None`. */
  method MapOneQuestion(pageId: string, question: RawQuestion) returns (r: Option<QuestionConfig>)
    ensures r == MapQuestion(pageId, question)
  {
    if question.id == [] {
      return None;
    }
    var questionText := ExtractQuestionText(question);
    var family := FamilyOf(question.family);
    if family == OpenEnded {
      return Some(MappedQuestion(question.id, pageId, questionText, "text", OpenFeedback));
    }
    if family == SingleChoice {
      var choices := question.choices;
      if |choices| == 2 {
        var booleanChoices := ResolveBooleanChoices(choices);
        if booleanChoices.Some? {
          return Some(BooleanQuestion(question.id, pageId, questionText, booleanChoices.value));
        }
      } else if |choices| > 2 {
        var choiceMap := BuildChoiceMap(choices);
        return Some(ScaleQuestion(question.id, pageId, questionText, choiceMap, ""));
      }
      return None;
    }
    if family == Matrix {
      var choices := question.choices;
      if |choices| > 0 {
        var choiceMap := BuildChoiceMap(choices);
        var rowId := if |question.rowIds| > 0 then question.rowIds[0] else "";
        return Some(ScaleQuestion(question.id, pageId, questionText, choiceMap, rowId));
      }
    }
    return None;
  }

  /** The question loop of `autoMapSurveyToConfig` for one page: pushes, after `questions`,
      the config of each mappable raw question of the page, in order. */
  method PushPageQuestions(pageId: string, raw: seq<RawQuestion>, questions: seq<QuestionConfig>)
    returns (pushed: seq<QuestionConfig>)
    ensures pushed == questions + MapPageQuestions(pageId, raw)
  {
    pushed := questions;
    var j := 0;
    while j < |raw|
      invariant 0 <= j <= |raw|
      invariant pushed == questions + MapPageQuestions(pageId, raw[..j])
    {
      MapPageQuestionsPrefix(pageId, raw, j);
      var mapped := MapOneQuestion(pageId, raw[j]);
      if mapped.Some? {
        ghost var done := MapPageQuestions(pageId, raw[..j]);
        assert questions + done + [mapped.value] == questions + (done + [mapped.value]);
        pushed := pushed + [mapped.value];
      }
      j := j + 1;
    }
    assert raw[..|raw|] == raw;
  }

  /** `autoMapSurveyToConfig`: walks the pages and their questions, pushing one config
      question per mappable raw question. */
  method AutoMapSurveyToConfig(surveyId: string, collectorId: string, details: SurveyDetails)
    returns (r: Result<SurveyConfig>)
    ensures r == AutoMapped(surveyId, collectorId, details)
  {
    if details.pages.None? || |details.pages.value| == 0 {
      return Failure(MissingPagesError);
    }
    var pages := details.pages.value;
    var questions: seq<QuestionConfig> := [];
    var p := 0;
    while p < |pages|
      invariant 0 <= p <= |pages|
      invariant questions == MapPages(pages[..p])
    {
      var page := pages[p];
      MapPagesPrefix(pages, p);
      if page.questions.Some? {
        questions := PushPageQuestions(page.id, page.questions.value, questions);
      }
      p := p + 1;
    }
    assert pages[..|pages|] == pages;
    return Success(SurveyConfig(surveyId, collectorId, pages[0].id, Some(questions)));
  }
}

# Survey schema normaliser and answer synthesiser

A Dafny model of the core of the usability-analysis backend (`backend/server.js`). The core
turns one analysed session into a SurveyMonkey response. It has four parts:

- **Schema validator**: `normalizeQuestionType`, `isValidQuestionConfig`,
  `normalizeSurveyConfig` and `getIntentsFromConfig`. A survey config is accepted all or
  nothing. A question needs an id, a type and one of the seven known intents. A `scale`
  question needs finite, distinct bounds and a `choice_ids` object. A `boolean` question
  needs both choice ids. A `text` question needs nothing more.
- **Auto-mapper**: `extractQuestionText`, `inferIntentFromText`, `buildChoiceMap`,
  `resolveBooleanChoices` and `autoMapSurveyToConfig`. It turns SurveyMonkey survey details
  into a config:
  - `open_ended` questions become `text`;
  - two-choice `single_choice` questions become `boolean`;
  - larger `single_choice` questions and `matrix` questions become `scale`.
- **Answer synthesiser**: `clamp01`, `getIntentScore`, `getIntentConfidence`,
  `getOpenFeedback`, `mapScoreToScale` and `buildQuestionAnswer`. It turns one question and
  the model's intent scores into an answer. The outcomes are no answer, a text answer, a
  choice answer, or a thrown error when a choice id is missing.
- **Page aggregator**: `buildSurveyPagesPayload`. It groups the answers by page, in the
  order pages are first met, and stops at the first thrown error.

Module layout:

| file | module | contents |
|---|---|---|
| `wrappers.dfy` | `Wrappers` | `Option` and `Result` (`Failure` is a thrown `Error` and its message) |
| `js_text.dfy` | `JsText` | `String.prototype.trim`, `toLowerCase`, `includes`, `Array.prototype.join` |
| `js_number.dfy` | `JsNumber` | JavaScript numbers as reals plus NaN and ±Infinity; `Math.round`; `Number(string)` |
| `sequences.dfy` | `Sequences` | the insertion order of a JavaScript `Set`/`Map` (first occurrences); the positions a `filter` keeps |
| `intents.dfy` | `Intents` | the seven intents of `INTENTS` |
| `schema_validator.dfy` | `SchemaValidator` | the config shapes, the validator, `getIntentsFromConfig` |
| `synthesis.dfy` | `AnswerSynthesis` | score access, feedback, `mapScoreToScale`, `buildQuestionAnswer` |
| `page_aggregation.dfy` | `PageAggregation` | `buildSurveyPagesPayload` and what it keeps |
| `auto_mapper.dfy` | `AutoMapper` | the SurveyMonkey details shape and `autoMapSurveyToConfig` |
| `auto_map_validity.dfy` | `AutoMapValidity` | what the validator and the synthesiser make of an auto-mapped config |

The form of the model follows the code:

- Functions that only compute are Dafny functions.
- The loops are methods proved equal to a specification function:
  - `normalizeSurveyConfig` and `getIntentsFromConfig`;
  - `buildChoiceMap`, whose two `forEach` passes are `FileByLabel` and `FileByPosition`;
  - `autoMapSurveyToConfig`, whose inner loop is `PushPageQuestions` with body `MapOneQuestion`;
  - `buildSurveyPagesPayload`, whose `Map` is a `seq` of keys in insertion order plus a
    `map` of page answers, filled one answer at a time by `FileAnswer`.
- The properties are proved about those specification functions.

Conventions:

- A string field that is absent or falsy is `""`.
- `choice_ids` is a map from the number a key denotes to the choice id. Looking up
  `choice_ids[String(value)]` for a finite `value` is then a map lookup.
- `Number(x)` of an absent bound is NaN.

Two facts about the code are worth stating up front:

- **An auto-mapped config is not always accepted.** `normalizeSurveyConfig` accepts the
  output of `autoMapSurveyToConfig` exactly under the conditions of
  `AutoMapValidity.AutoMapAcceptedIff`. Examples of rejected configs:
  - a `matrix` with one column (it gets `scale_min == scale_max == 1`);
  - a two-choice question with an empty choice id;
  - a survey in which no question was mapped;
  - a survey whose first page has no id.
- **The numeric branch of `buildChoiceMap` never runs.** The regular expression in
  `buildChoiceMap` is the literal `/-?\\d+/`. It matches a backslash followed by `d`s, not
  digits. Whatever such a match contains, `Number()` of it is NaN, so that branch is dead.
  It is modelled as written and proved dead (`AutoMapper.LabelNumberNeverFinite`).

## Model

| member | source | states |
|---|---|---|
| `Intents.Parse` | backend/server.js:347-357 | a name is parsed exactly when it is one of `INTENTS`, and parsing gives back an intent with that name |
| `Intents.NameRoundTrip` | backend/server.js:347-357 | every intent's name is in `INTENT_SET` and parses back to the same intent |
| `Intents.IsIntentNameMeaning` | backend/server.js:357 | `INTENT_SET.has(s)` holds exactly when `s` is one of the listed names |
| `JsText.Trim` | backend/server.js:404 | `trim()` leaves no whitespace at either end and is never longer than its input |
| `JsText.TrimEmpty` | backend/server.js:385-386 | `trim()` gives the empty string exactly when every character is whitespace |
| `JsText.TrimStart` | backend/server.js:404 | the leading part removed is all whitespace and the rest is a suffix not starting with whitespace |
| `JsText.TrimEnd` | backend/server.js:404 | the trailing part removed is all whitespace and the rest is a prefix not ending with whitespace |
| `JsText.TrimUnchanged` | backend/server.js:404 | a string without surrounding whitespace is its own trim |
| `JsText.ToLowerIdempotent` | backend/server.js:404 | lower-casing twice is lower-casing once |
| `JsText.ToLower` | backend/server.js:404 | lower-casing keeps the length, maps each upper-case ASCII letter to its lower-case letter (code point plus 32) and changes no other character |
| `JsText.TrimToLower` | backend/server.js:404 | trimming and lower-casing can be done in either order |
| `JsText.TrimStartToLower` | backend/server.js:404 | dropping leading whitespace commutes with lower-casing |
| `JsText.TrimEndToLower` | backend/server.js:404 | dropping trailing whitespace commutes with lower-casing |
| `JsText.LowerCharKeepsWhitespace` | backend/server.js:404 | lower-casing neither creates nor removes whitespace |
| `JsText.ContainsMeaning` | backend/server.js:610-626 | `includes(sub)` holds exactly when `sub` occurs at some index |
| `JsText.Join` | backend/server.js:387 | joining non-empty parts is empty exactly when there are no parts |
| `JsNumber.Round` | backend/server.js:474 | `Math.round(x)` is the integer within half a unit below or at `x`, with halves rounded up |
| `JsNumber.StringToNumber` | backend/server.js:640 | `Number(s)` is finite only for strings made of whitespace, signs and digits |
| `JsNumber.StringToNumberSigned` | backend/server.js:640 | a digit string is its decimal value, a leading `+` keeps it and a leading `-` negates it |
| `Sequences.FirstOccurrences` | backend/server.js:391-400 | the values of a `Set` filled in order have no duplicates and are exactly the values added |
| `Sequences.FirstOccurrencesSnoc` | backend/server.js:396-398 | adding a value to the `Set` appends it exactly when it was not there yet |
| `Sequences.FirstOccurrencesOrdered` | backend/server.js:400 | `Array.from` of the `Set` lists values in the order of their first addition |
| `Sequences.IndexOf` | backend/server.js:540-541 | the first position of a value holds it and no earlier position does |
| `Sequences.IndexOfAppend` | backend/server.js:540-541 | appending after a value does not move its first position |
| `Sequences.IndexOfUnique` | backend/server.js:540-541 | a position holding a value with no earlier copy is its first position |
| `Sequences.Positions` | backend/server.js:386 | every listed position is in range and its flag is set |
| `Sequences.PositionsIncreasing` | backend/server.js:386 | the positions are listed in increasing order, as `filter` visits them |
| `Sequences.PositionsComplete` | backend/server.js:386 | every position whose flag is set is listed |
| `Sequences.PositionsLength` | backend/server.js:386 | no more positions are listed than there are flags |
| `SchemaValidator.NormalizeQuestionType` | backend/server.js:403-405 | the normalised type is no longer than the input, has no surrounding whitespace and no upper-case ASCII letter |
| `SchemaValidator.NormalizeQuestionTypeIdempotent` | backend/server.js:403-405 | normalising a type twice is normalising it once |
| `SchemaValidator.NormalizeQuestionTypeIgnoresCase` | backend/server.js:403-405 | lower-casing a type first does not change its normal form, so type names match without regard to case |
| `SchemaValidator.NormalizeQuestionTypeIgnoresTrim` | backend/server.js:403-405 | trimming a type first does not change its normal form, so surrounding whitespace never matters |
| `SchemaValidator.KindOfMeaning` | backend/server.js:415-430 | the type classifies as `text`, `boolean` or `scale` exactly when it equals that name |
| `SchemaValidator.KindOf` | backend/server.js:415-430 | the type names `text`, `boolean` and `scale` each with its kind; its meaning is stated by `SchemaValidator.KindOfMeaning` |
| `SchemaValidator.IsValidQuestionConfig` | backend/server.js:407-431 | the validity test; what a valid question has is stated by `SchemaValidator.ValidQuestionShape`, and per type by `AutoMapValidity.TextQuestionValid`, `BooleanQuestionValid` and `ScaleQuestionValid` |
| `SchemaValidator.IsValidSurveyConfig` | backend/server.js:457-470 | the acceptance test; `SchemaValidator.NormalizeSurveyConfig` states that the config is returned exactly when it holds, and `AutoMapValidity.AutoMapAcceptedIff` when it holds of an auto-mapped config |
| `SchemaValidator.ValidQuestionShape` | backend/server.js:407-431 | a valid question has an id, an intent from `INTENTS` and a normalised type that is `text`, `boolean` or `scale` |
| `SchemaValidator.NormalizeSurveyConfig` | backend/server.js:457-470 | the config is returned exactly when the ids and page id are present, `questions` is a non-empty array and every question is valid; it is returned unchanged, so normalising again accepts it again |
| `SchemaValidator.KnownIntents` | backend/server.js:395-399 | the names collected are exactly the known intents that some question carries |
| `SchemaValidator.GetIntentsFromConfig` | backend/server.js:390-401 | no questions array gives `[]`; otherwise the result is the distinct known intents in first-seen order, without duplicates, and a name is in it exactly when it is a known intent some question carries |
| `AnswerSynthesis.Clamp01` | backend/server.js:359-364 | NaN gives null; otherwise the result lies in `[0, 1]` and is the point of `[0, 1]` nearest the input; +Infinity gives 1 and -Infinity gives 0 |
| `AnswerSynthesis.GetIntentScore` | backend/server.js:366-371 | null exactly when the intent has no numeric score or the score is NaN; otherwise the stored score clamped into `[0, 1]` (`Clamp01`), so a score already in `[0, 1]` comes back unchanged |
| `AnswerSynthesis.GetIntentConfidence` | backend/server.js:373-378 | null exactly when the intent has no numeric confidence or it is NaN; otherwise the stored confidence clamped into `[0, 1]` (`Clamp01`), so a confidence already in `[0, 1]` comes back unchanged |
| `AnswerSynthesis.KeptItems` | backend/server.js:386 | one flag per item, set exactly when the item is neither null nor blank |
| `AnswerSynthesis.CleanedFeedback` | backend/server.js:384-386 | the `map` then `filter` of the feedback items; its contents are stated by `AnswerSynthesis.CleanedFeedbackContents` and its emptiness by `AnswerSynthesis.CleanedFeedbackEmpty` |
| `AnswerSynthesis.CleanedFeedbackContents` | backend/server.js:384-386 | the cleaned feedback is, in order, the trimmed text of the kept items; with `Sequences.PositionsIncreasing` and `Sequences.PositionsComplete` that is exactly `map` then `filter` |
| `AnswerSynthesis.CleanedFeedbackEmpty` | backend/server.js:384-386 | no more items than the input, none of them empty, and none at all exactly when every item is null or blank |
| `AnswerSynthesis.GetOpenFeedback` | backend/server.js:380-388 | the feedback text is empty exactly when every item is null or blank |
| `AnswerSynthesis.MapScoreToScale` | backend/server.js:472-476 | for ordered bounds the value lies between them; for reversed bounds it is `max` |
| `AnswerSynthesis.MapScoreToScaleMonotone` | backend/server.js:472-476 | a larger score never maps to a smaller value |
| `AnswerSynthesis.MapScoreToScaleIntegral` | backend/server.js:472-476 | with integer bounds the value is a whole number between them |
| `AnswerSynthesis.MapScoreToScaleEndpoints` | backend/server.js:472-476 | with integer bounds `lo < hi`, score 0 gives `lo` and score 1 gives `hi` |
| `AnswerSynthesis.MapScoreToScaleNearest` | backend/server.js:472-476 | for ordered bounds and a score in `[0, 1]`, the value is within half a unit of `min + (max - min) * score`, halves rounded up |
| `AnswerSynthesis.MapScoreToScaleMidpoint` | backend/server.js:472-476 | a score of 0.5 on a 1-to-5 scale gives 3 |
| `AnswerSynthesis.LookupChoice` | backend/server.js:514 | the id stored under the value when `choice_ids` is present and has that key, and `""` (falsy) otherwise |
| `AnswerSynthesis.TextOutcome` | backend/server.js:480-491 | a text question never throws; it has no answer exactly when its confidence is below the threshold or all feedback is blank |
| `AnswerSynthesis.BooleanOutcome` | backend/server.js:498-505 | the true id is picked when score >= threshold (0.5 by default), else the false id; it throws exactly when the picked id is empty, otherwise it answers with that choice |
| `AnswerSynthesis.ScaleOutcome` | backend/server.js:507-524 | non-finite or equal bounds give no answer; otherwise it throws exactly when no non-empty choice id is stored under the mapped value, and else answers with that choice and the row id when it is non-empty |
| `AnswerSynthesis.BuildQuestionAnswer` | backend/server.js:478-527 | an answer carries the question id and exactly one answer item; a throw happens only for a `boolean` or `scale` question that has a score; a type other than `text`, `boolean` and `scale` gives no answer and no throw |
| `AnswerSynthesis.TextWithheldBelowThreshold` | backend/server.js:480-485 | a text question whose confidence is below its threshold (0.6 by default) gets no answer |
| `AnswerSynthesis.TextAnsweredOtherwise` | backend/server.js:480-491 | otherwise a text question never throws, has no answer exactly when all feedback is blank, and its answer is the joined feedback |
| `AnswerSynthesis.MissingScoreNoAnswer` | backend/server.js:493-496 | a non-text question without a score gets no answer and does not throw |
| `AnswerSynthesis.BooleanAnswerLaw` | backend/server.js:498-505 | the true choice is picked exactly when score >= threshold (0.5 by default); it throws exactly when the picked id is empty, and otherwise answers with that choice |
| `AnswerSynthesis.ScaleInvalidBoundsNoAnswer` | backend/server.js:507-512 | non-finite or equal bounds give no answer rather than a throw |
| `AnswerSynthesis.ScaleAnswerLaw` | backend/server.js:507-524 | it throws exactly when no non-empty choice id is stored under the mapped value; otherwise it answers with that choice, with the row id exactly when it is non-empty |
| `AnswerSynthesis.ValidQuestionFailsOnlyOnScaleLookup` | backend/server.js:407-431 | a question that passed validation throws only as a `scale` whose mapped value has no choice id |
| `PageAggregation.File` | backend/server.js:532-543 | one iteration throws exactly when the question's answer throws |
| `PageAggregation.ResolvePage` | backend/server.js:536 | a question's own page id, else the config's; `PageAggregation.PlacementsMembers` and `PayloadKeepsAnswers` state that answers land on it |
| `PageAggregation.Placements` | backend/server.js:531-544 | when nothing throws, the filed answers are at most one per question and every one has a non-empty page id |
| `PageAggregation.PlacementsPrefix` | backend/server.js:531-544 | one more iteration extends the walk by that question alone |
| `PageAggregation.PlacementsFailure` | backend/server.js:531-544 | the walk throws exactly when some question throws, and the error is that of the first question that throws |
| `PageAggregation.PlacementsFailurePersists` | backend/server.js:531-544 | once a question has thrown, the later questions change nothing |
| `PageAggregation.PageIds` | backend/server.js:536 | the page ids are listed in the order of the filed answers |
| `PageAggregation.AnswersOn` | backend/server.js:540-543 | a page's answer list is non-empty exactly when some answer was filed under it |
| `PageAggregation.AnswersOnSnoc` | backend/server.js:543 | filing one answer appends it to its own page only |
| `PageAggregation.ListsMirrorSnoc` | backend/server.js:540-543 | after filing an answer, every page's list is still exactly the answers filed under it |
| `PageAggregation.AnswersOnMembers` | backend/server.js:540-543 | an answer is on a page exactly when it was filed under that page |
| `PageAggregation.AnswerPosition` | backend/server.js:540-543 | a filed answer sits in its page's list right after the answers filed under that page before it |
| `PageAggregation.AnswersOnOrder` | backend/server.js:540-543 | two answers filed under the same page keep their filing order in that page's list |
| `PageAggregation.PlacementsMembers` | backend/server.js:531-544 | an answer is filed under a page exactly when its page id is non-empty and some question produced it with that page |
| `PageAggregation.StepsProduce` | backend/server.js:531-543 | some iteration produces an answer for a page exactly when some question's answer is that answer and its page resolves to that page |
| `PageAggregation.GroupByPage` | backend/server.js:545 | one entry per distinct page in first-seen order, with distinct ids and no empty page, and every filed answer has its page |
| `PageAggregation.GroupByPageMember` | backend/server.js:545 | each page of the grouping holds exactly the answers filed under its id, and at least one |
| `PageAggregation.TracksSnoc` | backend/server.js:540-543 | the `Map`'s keys and lists stay in step with the answers filed so far |
| `PageAggregation.FileAnswer` | backend/server.js:540-543 | a new page id joins the insertion order and starts an empty list; the answer is then appended to its page's list, and only that list changes |
| `PageAggregation.TracksGroup` | backend/server.js:545 | reading the `Map` back gives the pages grouped in first-seen order |
| `PageAggregation.BuildSurveyPagesPayload` | backend/server.js:529-546 | the loop returns exactly the grouped payload, or the first error |
| `PageAggregation.SurveyPagesPayload` | backend/server.js:529-546 | the payload as a value; stated by `PageAggregation.PayloadFailure`, `PayloadContents` and `PayloadKeepsAnswers` |
| `PageAggregation.PayloadFailure` | backend/server.js:529-546 | the payload throws exactly when `questions` is not an array or some question's answer throws, and the error is that of the first question that throws |
| `PageAggregation.PayloadContents` | backend/server.js:529-546 | every page in the payload is non-empty, and an answer is on a page exactly when some question produced it and resolves to that page |
| `PageAggregation.PayloadKeepsAnswers` | backend/server.js:529-546 | every answer a question produces lands on the page its question resolves to, whenever that page id is non-empty |
| `AutoMapper.ExtractQuestionText` | backend/server.js:595-603 | the first heading wins when present, else `heading`; empty exactly when both are absent |
| `AutoMapper.MentionsAnyOfThree` | backend/server.js:610 | a three-keyword group matches exactly when one of its keywords is included |
| `AutoMapper.MentionsAnyOfFour` | backend/server.js:616 | a four-keyword group matches exactly when one of its keywords is included |
| `AutoMapper.InferIntentChain` | backend/server.js:605-632 | the intent is that of the first keyword group included in the lower-cased text, after the `text` type; the fallback is `CONFUSION_LEVEL` for `boolean` and otherwise `OVERALL_SATISFACTION` |
| `AutoMapper.InferIntentNotOpenFeedback` | backend/server.js:605-632 | only the `text` type gives `OPEN_FEEDBACK` |
| `AutoMapper.GroupIntentsNotOpenFeedback` | backend/server.js:610-627 | no keyword group yields `OPEN_FEEDBACK` |
| `AutoMapper.InferIntentIgnoresCase` | backend/server.js:606 | lower-casing the text first changes nothing |
| `AutoMapper.InferIntentFromText` | backend/server.js:605-632 | the keyword chain; stated by `AutoMapper.InferIntentChain`, `InferIntentNotOpenFeedback` and `InferIntentIgnoresCase` |
| `AutoMapper.ResolveBooleanChoices` | backend/server.js:662-677 | a polarity exists exactly for two choices; the two ids are those of the choices; when only the first label reads as "no" or "false" it is the false choice, and in every other case (only the second, both or neither) the first choice is the true one and the second the false one |
| `AutoMapper.ResolveBooleanChoicesOrderFree` | backend/server.js:662-677 | when exactly one label reads as false, swapping the choices changes nothing and that choice is the false one |
| `AutoMapper.ReadsAsFalse` | backend/server.js:666-669 | a label reads as false when its lower-cased text includes `no` or `false`; `AutoMapper.ResolveBooleanChoices` and `ResolveBooleanChoicesOrderFree` state how it decides the polarity |
| `AutoMapper.DRun` | backend/server.js:639 | the run of `d`s starting at a position is maximal |
| `AutoMapper.MatchAt` | backend/server.js:639 | a match at a position is the text there and contains a backslash |
| `AutoMapper.FirstMatch` | backend/server.js:639 | any match of `/-?\\d+/` contains a backslash |
| `AutoMapper.LabelNumberNeverFinite` | backend/server.js:639-641 | a choice label never yields a finite number |
| `AutoMapper.LabelNumber` | backend/server.js:639-641 | a label's number; `AutoMapper.LabelNumberNeverFinite` states that it is never finite |
| `AutoMapper.NumericValues` | backend/server.js:636-644 | no more numbers are collected than there are choices |
| `AutoMapper.NumericValuesEmpty` | backend/server.js:636-644 | no number is ever collected |
| `AutoMapper.MinOf` | backend/server.js:646 | `Math.min` of no numbers is +Infinity, otherwise the smallest of them |
| `AutoMapper.MaxOf` | backend/server.js:647 | `Math.max` of no numbers is -Infinity, otherwise the largest of them |
| `AutoMapper.PositionalMap` | backend/server.js:656-658 | choice `j` is stored under `j + 1`, and every key is a whole number from 1 to n |
| `AutoMapper.ChoiceMapIsPositional` | backend/server.js:634-660 | the choice map is always positional, with min 1 and max the number of choices |
| `AutoMapper.ChoiceMapOf` | backend/server.js:634-660 | the choice map as a value; `AutoMapper.ChoiceMapIsPositional` states what it is and `AutoMapper.BuildChoiceMap` that the loops compute it |
| `AutoMapper.BuildChoiceMap` | backend/server.js:634-660 | the loop and the two `forEach` passes compute the choice map |
| `AutoMapper.FileByLabel` | backend/server.js:648-653 | the label pass files each choice under its label number, else its position |
| `AutoMapper.FileByPosition` | backend/server.js:656-658 | the positional pass files choice `j` under `j + 1` |
| `AutoMapper.FamilyOfMeaning` | backend/server.js:695-739 | the lower-cased family is `open_ended`, `single_choice` or `matrix` exactly when it classifies as such |
| `AutoMapper.FamilyOf` | backend/server.js:695 | the lower-cased family; which family it names is stated by `AutoMapper.FamilyOfMeaning` |
| `AutoMapper.MapQuestion` | backend/server.js:690-760 | the config one raw question becomes; stated by `AutoMapper.MapQuestionKeeps`, `MapQuestionKeepsIdentity`, `MapQuestionIntent`, `MapQuestionBooleanIds` and `MapQuestionScale` |
| `AutoMapper.MapQuestionKeeps` | backend/server.js:690-760 | a question is mapped exactly when it has an id and is open-ended, `single_choice` with at least two choices, or `matrix` with at least one column |
| `AutoMapper.MapQuestionKeepsIdentity` | backend/server.js:696-758 | a mapped question keeps the raw question's id, the page's id and the extracted text |
| `AutoMapper.MapQuestionIntent` | backend/server.js:696-758 | a mapped question's intent is one of `INTENTS`, and it is `OPEN_FEEDBACK` exactly when the family is `open_ended` |
| `AutoMapper.MapQuestionBooleanIds` | backend/server.js:706-723 | a `single_choice` question with an id and two choices is mapped as `boolean`; its true and false ids are the two choices' ids, as `resolveBooleanChoices` orders them, and its intent is the one inferred from its text as a boolean |
| `AutoMapper.MapQuestionScale` | backend/server.js:724-758 | a `single_choice` question with more than two choices, or a `matrix` with at least one column, is mapped as a `scale` from 1 to n with choice `j` under `j + 1`, only whole keys from 1 to n, and the first row id for a matrix with rows (else none); its intent is the one inferred from its text as a scale |
| `AutoMapper.MapPageQuestions` | backend/server.js:690-761 | a page yields at most one config per question |
| `AutoMapper.MapPageQuestionsPrefix` | backend/server.js:690-761 | one more question extends the page's configs by that question alone |
| `AutoMapper.MapPagesPrefix` | backend/server.js:686-762 | one more page extends the configs by that page's configs |
| `AutoMapper.MapPages` | backend/server.js:686-762 | the configs of all pages, page by page; stated by `AutoMapper.MapPagesPrefix` and `AutoMapValidity.MapPagesAllValid` |
| `AutoMapper.MapOneQuestion` | backend/server.js:691-760 | the loop body pushes exactly the mapped question, if any |
| `AutoMapper.PushPageQuestions` | backend/server.js:690-761 | the inner loop appends exactly the page's mapped questions to those already collected |
| `AutoMapper.AutoMapSurveyToConfig` | backend/server.js:679-770 | over the represented inputs (no `null` page, choice or row), throws exactly when there are no pages; otherwise gives the config whose page id is the first page's and whose questions are the mapped ones, page by page |
| `AutoMapper.AutoMapped` | backend/server.js:679-770 | the auto-mapped config as a value; `AutoMapper.AutoMapSurveyToConfig` states that the code computes it and `AutoMapValidity.AutoMapAcceptedIff` when the validator accepts it |
| `AutoMapValidity.NormalFormUnchanged` | backend/server.js:403-405 | a lower-case name without surrounding whitespace normalises to itself |
| `AutoMapValidity.TextTypeIsCanonical` | backend/server.js:701 | the `text` the mapper writes classifies as text |
| `AutoMapValidity.BooleanTypeIsCanonical` | backend/server.js:719 | the `boolean` the mapper writes classifies as boolean |
| `AutoMapValidity.ScaleTypeIsCanonical` | backend/server.js:730 | the `scale` the mapper writes classifies as scale |
| `AutoMapValidity.TextQuestionValid` | backend/server.js:697-703 | an open-ended question's config is always valid |
| `AutoMapValidity.BooleanQuestionValid` | backend/server.js:715-723 | a boolean config is valid exactly when both choice ids are present |
| `AutoMapValidity.ScaleQuestionValid` | backend/server.js:726-735 | a scale config is valid exactly when its bounds are finite and distinct |
| `AutoMapValidity.MappedQuestionValidity` | backend/server.js:690-760 | a mapped question is valid exactly when it is not a two-choice question with an empty id and not a one-column matrix |
| `AutoMapValidity.SkippedQuestionAcceptable` | backend/server.js:690-760 | a skipped question never stands in the way of validation |
| `AutoMapValidity.AllValidAppend` | backend/server.js:464-468 | every question of two lists is valid exactly when every question of each list is |
| `AutoMapValidity.AllAcceptableSnoc` | backend/server.js:690 | a page's raw questions are all acceptable exactly when the earlier ones and the last one are |
| `AutoMapValidity.MapPageQuestionsAllValid` | backend/server.js:690-761 | a page's configs are all valid exactly when each of its raw questions is skipped or acceptable |
| `AutoMapValidity.PageQuestionsAllValid` | backend/server.js:687-761 | a page's configs are all valid exactly when the page is acceptable |
| `AutoMapValidity.AllPagesSnoc` | backend/server.js:686 | all pages are acceptable exactly when the earlier ones and the last one are |
| `AutoMapValidity.MapPagesAllValid` | backend/server.js:686-762 | all mapped configs are valid exactly when every page is acceptable |
| `AutoMapValidity.AutoMapAcceptedIff` | backend/server.js:679-770 | `normalizeSurveyConfig` accepts the auto-mapped config exactly when the survey and collector ids and the first page id are present, some question was mapped, and every page is acceptable |
| `AutoMapValidity.SingleColumnMatrixRejected` | backend/server.js:739-758 | one single-column matrix question makes the whole auto-mapped config invalid |
| `AutoMapValidity.ScaleLookupResolves` | backend/server.js:507-517 | on a positional choice map of two or more choices, every score finds a choice id |
| `AutoMapValidity.TextAnswerNeverFails` | backend/server.js:480-491 | an open-ended question's answer never throws |
| `AutoMapValidity.BooleanAnswerNeverFails` | backend/server.js:498-505 | a boolean question with both ids never throws |
| `AutoMapValidity.ScaleAnswerNeverFails` | backend/server.js:507-524 | a scale built from choices that all have ids never throws |
| `AutoMapValidity.MappedAnswerNeverFails` | backend/server.js:478-527 | when all its choice ids are present, an auto-mapped question's answer never throws, whatever the analysis |
| `AutoMapValidity.NoneThrowAppend` | backend/server.js:531-533 | if no question of either list throws, none of the joined list does |
| `AutoMapValidity.MapPageQuestionsNoneThrow` | backend/server.js:690-761 | a page whose choices all have ids yields configs that never throw |
| `AutoMapValidity.MapPagesNoneThrow` | backend/server.js:686-762 | pages whose choices all have ids yield configs that never throw |
| `AutoMapValidity.AutoMappedPayloadSucceeds` | backend/server.js:529-546 | when every choice has an id, the page payload of the auto-mapped config never throws, whatever the analysis |

## Left out

- The HTTP server, its routes and its sessions and project store are not part of this model. So are the OpenRouter reasoning call, the SurveyMonkey fetch helpers (`fetchSurveyList`, `fetchSurveyDetails`, `fetchSurveyCollectors`, `submitSurveyMonkeyResponse`), `resolveSurveyMonkeyConfig` and `getProjectConfig`. All of them are I/O or storage around the core.
- The analysis arrives as a parameter: the intent scores, confidences and feedback. How the model produced it is not modelled.
- Numbers are exact reals plus NaN and ±Infinity. IEEE-754 rounding of `min + (max - min) * score` is not modelled, nor is the sign of zero.
- `JsNumber.StringToNumber` covers only what `Number()` does on decimal integers with an optional `+` or `-` sign with surrounding whitespace. Every other string gives NaN. This suffices because only backslash-and-`d` strings ever reach it.
- `toLowerCase` lower-cases only ASCII letters. Non-ASCII case mapping is not modelled.
- Values that are not strings are folded into the model's shapes rather than coerced by `String()`:
  - an absent or falsy id, text, heading or type is `""`;
  - a `null` raw question is one without an id, which the code skips as well;
  - a non-number intent score is an absent one;
  - `questions` and `pages` that are not arrays are `None`.
- `null` entries where the code reads a field without a guard are not represented, and the code throws a `TypeError` on each of them:
  - a `null` choice (`choices[0].text` at `backend/server.js:666-667`, `choice.id` at `:652` and `:657`);
  - a `null` page (`page.questions` at `:687`);
  - a `null` first matrix row (`rows[0].id` at `:757`);
  - a `null` question of a stored config (`question.type` at `:479`).
  A choice object without an id does not throw; it is modelled as a choice whose id is `""`.
- A `null` `analysis` is modelled as an empty analysis.
- `choice_ids` keys that are not canonical number strings are not represented. Neither are non-finite keys. `buildQuestionAnswer` only looks up finite values.
- AutoMapper.AutoMapSurveyToConfig: the validator's acceptance is not part of its contract. It is stated separately in `AutoMapValidity.AutoMapAcceptedIff`, because the code does not run the validator on its own output.
- PageAggregation.BuildSurveyPagesPayload: a `config` that is `null` is not modelled. A `questions` field that is not an array throws `NotIterableError`, which stands for the `TypeError` the `for … of` raises. That is what the code does for a missing field, `null`, a number or a plain object. A string is iterable, though: the code walks its characters, none of which yields an answer, and returns `[]`. A string in place of the array is not represented.
- Aliasing between the pushed answer objects and the caller's data is not modelled. Answers are values.

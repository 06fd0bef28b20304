/** Grouping the synthesised answers by survey page (`buildSurveyPagesPayload`). */
module PageAggregation {
  import opened Wrappers
  import opened Sequences
  import opened SchemaValidator
  import opened AnswerSynthesis

  /** `{ id, questions }`: one page of the submission payload. */
  datatype PagePayload = PagePayload(id: string, questions: seq<AnswerRecord>)

  /** An answer together with the page it is filed under. */
  datatype Placement = Placement(pageId: string, answer: AnswerRecord)

  /** The page each question's answer goes to: its own page, else the config's default. */
  function ResolvePage(q: QuestionConfig, defaultPageId: string): string {
    if q.pageId != [] then q.pageId else defaultPageId
  }

  /** What one iteration of the loop works with: the resolved page and the outcome of
      `buildQuestionAnswer` (`Success(None)` for no answer, `Failure` for a throw). */
  datatype Step = Step(pageId: string, outcome: Result<Option<AnswerRecord>>)

  function Steps(a: Analysis, defaultPageId: string, questions: seq<QuestionConfig>): (r: seq<Step>)
    ensures |r| == |questions|
    ensures forall k :: 0 <= k < |questions| ==>
      r[k] == Step(ResolvePage(questions[k], defaultPageId), BuildQuestionAnswer(questions[k], a))
  {
    seq(|questions|, k requires 0 <= k < |questions| =>
      Step(ResolvePage(questions[k], defaultPageId), BuildQuestionAnswer(questions[k], a)))
  }

  /** The answers of the steps in order, each with its page: a step with no answer or no
      resolvable page is skipped, and the first thrown error ends the walk. */
  function Placements(steps: seq<Step>): (r: Result<seq<Placement>>)
    ensures r.Success? ==> |r.value| <= |steps| && forall e :: e in r.value ==> e.pageId != []
  {
    if steps == [] then Success([])
    else
      match Placements(steps[..|steps| - 1])
      case Failure(e) => Failure(e)
      case Success(done) => File(done, steps[|steps| - 1])
  }

  /** One iteration: a throw ends the walk, no answer or no page skips the question, and
      otherwise the answer is filed under its page. */
  function File(done: seq<Placement>, step: Step): (r: Result<seq<Placement>>)
    ensures r.Failure? <==> step.outcome.Failure?
  {
    match step.outcome
    case Failure(e) => Failure(e)
    case Success(None) => Success(done)
    case Success(Some(answer)) =>
      if step.pageId == [] then Success(done) else Success(done + [Placement(step.pageId, answer)])
  }

  lemma PlacementsPrefix(steps: seq<Step>, i: nat)
    requires i < |steps|
    ensures Placements(steps[..i + 1]) ==
      match Placements(steps[..i])
      case Failure(e) => Failure(e)
      case Success(done) => File(done, steps[i])
  {
    assert steps[..i + 1][..i] == steps[..i];
  }

  /** The walk throws exactly when one of the steps throws, and then with the error of the
      first step that throws. */
  lemma {:induction false} PlacementsFailure(steps: seq<Step>)
    ensures Placements(steps).Failure? <==> exists k :: 0 <= k < |steps| && steps[k].outcome.Failure?
    ensures Placements(steps).Failure? ==>
      exists k :: 0 <= k < |steps| && steps[k].outcome == Failure(Placements(steps).error) &&
        forall j :: 0 <= j < k ==> steps[j].outcome.Success?
  {
    if steps != [] {
      var init := steps[..|steps| - 1];
      var last := |steps| - 1;
      PlacementsFailure(init);
      assert forall k :: 0 <= k < |init| ==> init[k] == steps[k];
    }
  }

  /** Once a prefix of the steps has thrown, the whole walk throws the same error. */
  lemma {:induction false} PlacementsFailurePersists(steps: seq<Step>, n: nat)
    requires n <= |steps|
    requires Placements(steps[..n]).Failure?
    ensures Placements(steps) == Placements(steps[..n])
  {
    if n < |steps| {
      var init := steps[..|steps| - 1];
      assert init[..n] == steps[..n];
      PlacementsFailurePersists(init, n);
    } else {
      assert steps[..n] == steps;
    }
  }

  function PageIds(entries: seq<Placement>): (r: seq<string>)
    ensures |r| == |entries| && forall k :: 0 <= k < |entries| ==> r[k] == entries[k].pageId
  {
    if entries == [] then [] else PageIds(entries[..|entries| - 1]) + [entries[|entries| - 1].pageId]
  }

  /** The answers filed under `pageId`, in their original order. */
  function AnswersOn(entries: seq<Placement>, pageId: string): (r: seq<AnswerRecord>)
    ensures |r| <= |entries|
    ensures r != [] <==> pageId in PageIds(entries)
  {
    if entries == [] then []
    else
      var init := entries[..|entries| - 1];
      var last := entries[|entries| - 1];
      assert PageIds(entries) == PageIds(init) + [last.pageId];
      AnswersOn(init, pageId) + (if last.pageId == pageId then [last.answer] else [])
  }

  /** Where placement `i`'s answer sits in its page's list: after the answers filed under the
      same page before it. */
  function Rank(entries: seq<Placement>, i: nat): nat
    requires i < |entries|
  {
    |AnswersOn(entries[..i], entries[i].pageId)|
  }

  /** A page's list keeps the order the answers were filed in: placement `i`'s answer is at
      position `Rank(entries, i)`, and a later placement on the same page comes further on. */
  lemma AnswersOnOrder(entries: seq<Placement>, i: nat, j: nat)
    requires i < j < |entries| && entries[i].pageId == entries[j].pageId
    ensures Rank(entries, i) < Rank(entries, j) < |AnswersOn(entries, entries[j].pageId)|
    ensures AnswersOn(entries, entries[i].pageId)[Rank(entries, i)] == entries[i].answer
    ensures AnswersOn(entries, entries[j].pageId)[Rank(entries, j)] == entries[j].answer
  {
    AnswerPosition(entries, i);
    AnswerPosition(entries, j);
    var before := entries[..j];
    assert before[..i] == entries[..i] && before[i] == entries[i];
    AnswerPosition(before, i);
  }

  lemma {:induction false} AnswerPosition(entries: seq<Placement>, i: nat)
    requires i < |entries|
    ensures Rank(entries, i) < |AnswersOn(entries, entries[i].pageId)|
    ensures AnswersOn(entries, entries[i].pageId)[Rank(entries, i)] == entries[i].answer
  {
    var p := entries[i].pageId;
    var init := entries[..|entries| - 1];
    var last := entries[|entries| - 1];
    assert init + [last] == entries;
    var prev := AnswersOn(init, p);
    var extra := if last.pageId == p then [last.answer] else [];
    assert AnswersOn(entries, p) == prev + extra by {
      AnswersOnSnoc(init, last, p);
    }
    if i < |init| {
      assert init[..i] == entries[..i] && init[i] == entries[i];
      AnswerPosition(init, i);
      assert Rank(init, i) == Rank(entries, i);
    } else {
      assert entries[..i] == init;
    }
  }

  /** The grouping the payload is built from: one page per distinct page id, pages in the
      order their first answer was met, each holding its own answers in config order. */
  function GroupByPage(entries: seq<Placement>): (pages: seq<PagePayload>)
    ensures |pages| == |FirstOccurrences(PageIds(entries))|
    ensures forall k :: 0 <= k < |pages| ==> pages[k].id == FirstOccurrences(PageIds(entries))[k]
    ensures forall k :: 0 <= k < |pages| ==> pages[k].questions != []
    ensures forall i, j :: 0 <= i < j < |pages| ==> pages[i].id != pages[j].id
    ensures forall e :: e in entries ==> exists k :: 0 <= k < |pages| && pages[k].id == e.pageId
  {
    var ids := FirstOccurrences(PageIds(entries));
    assert forall e :: e in entries ==> e.pageId in PageIds(entries) by {
      forall e | e in entries ensures e.pageId in PageIds(entries) {
        var k :| 0 <= k < |entries| && entries[k] == e;
        assert PageIds(entries)[k] == e.pageId;
      }
    }
    seq(|ids|, k requires 0 <= k < |ids| => PagePayload(ids[k], AnswersOn(entries, ids[k])))
  }

  /** `buildSurveyPagesPayload`'s result as a value: the grouped placements, or the first error.
      A `questions` field that is not an array makes the `for…of` throw. */
  function SurveyPagesPayload(a: Analysis, config: SurveyConfig): Result<seq<PagePayload>> {
    if config.questions.None? then Failure(NotIterableError)
    else
      match Placements(Steps(a, config.pageId, config.questions.value))
      case Failure(e) => Failure(e)
      case Success(entries) => Success(GroupByPage(entries))
  }

  const NotIterableError: string := "config.questions is not iterable"

  /** The loop's state mirrors the placements met so far: `order` lists their page ids as
      first met (the `Map`'s insertion order) and `pages` holds each page's answers. */
  ghost predicate Tracks(order: seq<string>, pages: map<string, seq<AnswerRecord>>, done: seq<Placement>) {
    && order == FirstOccurrences(PageIds(done))
    && KeysMirror(order, pages)
    && ListsMirror(pages, done)
  }

  /** The `Map`'s keys are the listed page ids. */
  ghost predicate KeysMirror(order: seq<string>, pages: map<string, seq<AnswerRecord>>) {
    forall id :: id in pages <==> id in order
  }

  /** Each key of the `Map` holds the answers filed under it. */
  ghost predicate ListsMirror(pages: map<string, seq<AnswerRecord>>, done: seq<Placement>) {
    forall id :: id in pages ==> pages[id] == AnswersOn(done, id)
  }

  /** `pages.get(pageId).push(answer)` after creating the page when it is new. */
  function Filed(pages: map<string, seq<AnswerRecord>>, e: Placement): map<string, seq<AnswerRecord>> {
    var withPage := if e.pageId in pages then pages else pages[e.pageId := []];
    withPage[e.pageId := withPage[e.pageId] + [e.answer]]
  }

  lemma AnswersOnSnoc(done: seq<Placement>, e: Placement, id: string)
    ensures AnswersOn(done + [e], id) == AnswersOn(done, id) + (if e.pageId == id then [e.answer] else [])
  {
    assert (done + [e])[..|done|] == done;
  }

  /** Filing an answer keeps each page's list equal to the answers filed under it. */
  lemma ListsMirrorSnoc(pages: map<string, seq<AnswerRecord>>, done: seq<Placement>, e: Placement)
    requires ListsMirror(pages, done)
    requires e.pageId !in pages ==> AnswersOn(done, e.pageId) == []
    ensures ListsMirror(Filed(pages, e), done + [e])
  {
    var pages' := Filed(pages, e);
    forall id | id in pages'
      ensures pages'[id] == AnswersOn(done + [e], id)
    {
      AnswersOnSnoc(done, e, id);
    }
  }

  /** Filing one more answer (creating its page first if it is new) keeps the mirror. */
  lemma TracksSnoc(order: seq<string>, pages: map<string, seq<AnswerRecord>>, done: seq<Placement>, e: Placement)
    requires Tracks(order, pages, done)
    ensures Tracks(if e.pageId in pages then order else order + [e.pageId], Filed(pages, e), done + [e])
  {
    var done' := done + [e];
    assert done'[..|done|] == done;
    assert PageIds(done') == PageIds(done) + [e.pageId];
    FirstOccurrencesSnoc(PageIds(done), e.pageId);
    ListsMirrorSnoc(pages, done, e);
  }

  /** `Array.from(pages.entries()).map(...)`: the map's entries in insertion order. */
  function Entries(order: seq<string>, pages: map<string, seq<AnswerRecord>>): (r: seq<PagePayload>)
    requires forall id :: id in order ==> id in pages
    ensures |r| == |order| && forall k :: 0 <= k < |order| ==> r[k] == PagePayload(order[k], pages[order[k]])
  {
    seq(|order|, k requires 0 <= k < |order| => PagePayload(order[k], pages[order[k]]))
  }

  /** Reading the mirrored map back in insertion order gives the grouping. */
  lemma TracksGroup(order: seq<string>, pages: map<string, seq<AnswerRecord>>, done: seq<Placement>)
    requires Tracks(order, pages, done)
    ensures Entries(order, pages) == GroupByPage(done)
  {
  }

  /** One step of the filling loop: `if (!pages.has(pageId)) pages.set(pageId, [])` followed by
      `pages.get(pageId).push(answer)`; a new page id also joins the insertion order. */
  method FileAnswer(order: seq<string>, pages: map<string, seq<AnswerRecord>>, pageId: string, answer: AnswerRecord)
    returns (order': seq<string>, pages': map<string, seq<AnswerRecord>>)
    ensures order' == if pageId in pages then order else order + [pageId]
    ensures pages' == Filed(pages, Placement(pageId, answer))
    ensures pageId in pages' && pages'[pageId] == (if pageId in pages then pages[pageId] else []) + [answer]
  {
    order', pages' := order, pages;
    if pageId !in pages' {
      order' := order' + [pageId];
      pages' := pages'[pageId := []];
    }
    pages' := pages'[pageId := pages'[pageId] + [answer]];
  }

  /** `buildSurveyPagesPayload`: fills an insertion-ordered map from page id to answers, then
      reads it back as the list of pages. */
  method BuildSurveyPagesPayload(a: Analysis, config: SurveyConfig) returns (r: Result<seq<PagePayload>>)
    ensures r == SurveyPagesPayload(a, config)
  {
    if config.questions.None? {
      return Failure(NotIterableError);
    }
    var questions := config.questions.value;
    var order: seq<string> := [];
    var pages: map<string, seq<AnswerRecord>> := map[];
    ghost var steps := Steps(a, config.pageId, questions);
    ghost var done: seq<Placement> := [];
    var i := 0;
    while i < |questions|
      invariant 0 <= i <= |questions|
      invariant Placements(steps[..i]) == Success(done)
      invariant Tracks(order, pages, done)
    {
      var question := questions[i];
      var answer := BuildQuestionAnswer(question, a);
      PlacementsPrefix(steps, i);
      assert steps[i] == Step(ResolvePage(question, config.pageId), answer);
      if answer.Failure? {
        PlacementsFailurePersists(steps, i + 1);
        return Failure(answer.error);
      }
      if answer.value.None? {
        i := i + 1;
        continue;
      }
      var pageId := ResolvePage(question, config.pageId);
      if pageId == [] {
        i := i + 1;
        continue;
      }
      ghost var filed := Placement(pageId, answer.value.value);
      TracksSnoc(order, pages, done, filed);
      order, pages := FileAnswer(order, pages, pageId, answer.value.value);
      done := done + [filed];
      i := i + 1;
    }
    assert steps[..|steps|] == steps;
    TracksGroup(order, pages, done);
    return Success(Entries(order, pages));
  }

  /** A page holds exactly the answers filed under its id. */
  lemma {:induction false} AnswersOnMembers(entries: seq<Placement>, pageId: string, x: AnswerRecord)
    ensures x in AnswersOn(entries, pageId) <==>
      exists k :: 0 <= k < |entries| && entries[k] == Placement(pageId, x)
  {
    if entries != [] {
      var init := entries[..|entries| - 1];
      AnswersOnMembers(init, pageId, x);
      assert forall k :: 0 <= k < |init| ==> init[k] == entries[k];
    }
  }

  /** Some step produced `x` for `pageId`. */
  predicate StepProduced(steps: seq<Step>, pageId: string, x: AnswerRecord) {
    exists k :: 0 <= k < |steps| && steps[k] == Step(pageId, Success(Some(x)))
  }

  /** The placements are exactly the answers of the steps that produced one and have a page. */
  lemma {:induction false} PlacementsMembers(steps: seq<Step>, e: Placement)
    requires Placements(steps).Success?
    ensures e in Placements(steps).value <==> e.pageId != [] && StepProduced(steps, e.pageId, e.answer)
  {
    if steps != [] {
      var init := steps[..|steps| - 1];
      PlacementsMembers(init, e);
      assert forall k :: 0 <= k < |init| ==> init[k] == steps[k];
    }
  }

  /** `buildSurveyPagesPayload` throws exactly when `questions` is not an array or one of the
      questions throws, and then with the first question's error. */
  lemma PayloadFailure(a: Analysis, config: SurveyConfig)
    ensures SurveyPagesPayload(a, config).Failure? <==>
      config.questions.None? ||
      exists k :: 0 <= k < |config.questions.value| && BuildQuestionAnswer(config.questions.value[k], a).Failure?
    ensures SurveyPagesPayload(a, config).Failure? && config.questions.Some? ==>
      exists k :: 0 <= k < |config.questions.value| &&
        BuildQuestionAnswer(config.questions.value[k], a) == Failure(SurveyPagesPayload(a, config).error) &&
        forall j :: 0 <= j < k ==> BuildQuestionAnswer(config.questions.value[j], a).Success?
  {
    if config.questions.Some? {
      var steps := Steps(a, config.pageId, config.questions.value);
      PlacementsFailure(steps);
    }
  }

  /** A page of the grouping holds the answers filed under its id. */
  lemma GroupByPageMember(entries: seq<Placement>, p: PagePayload)
    requires p in GroupByPage(entries)
    ensures p.questions == AnswersOn(entries, p.id) && p.questions != []
  {
    var pages := GroupByPage(entries);
    var i :| 0 <= i < |pages| && pages[i] == p;
  }

  /** Some question of the config produced `x` and resolves to `pageId`. */
  predicate Produced(a: Analysis, config: SurveyConfig, pageId: string, x: AnswerRecord)
    requires config.questions.Some?
  {
    exists k :: 0 <= k < |config.questions.value| &&
      BuildQuestionAnswer(config.questions.value[k], a) == Success(Some(x)) &&
      ResolvePage(config.questions.value[k], config.pageId) == pageId
  }

  /** A step produced an answer for a page exactly when its question did. */
  lemma StepsProduce(a: Analysis, config: SurveyConfig, pageId: string, x: AnswerRecord)
    requires config.questions.Some?
    ensures StepProduced(Steps(a, config.pageId, config.questions.value), pageId, x) <==> Produced(a, config, pageId, x)
  {
    var questions := config.questions.value;
    var steps := Steps(a, config.pageId, questions);
    if StepProduced(steps, pageId, x) {
      var k :| 0 <= k < |steps| && steps[k] == Step(pageId, Success(Some(x)));
      assert BuildQuestionAnswer(questions[k], a) == Success(Some(x)) && ResolvePage(questions[k], config.pageId) == pageId;
    }
    if Produced(a, config, pageId, x) {
      var k :| 0 <= k < |questions| &&
        BuildQuestionAnswer(questions[k], a) == Success(Some(x)) && ResolvePage(questions[k], config.pageId) == pageId;
      assert steps[k] == Step(pageId, Success(Some(x)));
    }
  }

  /** In a payload that is built, an answer sits on a page exactly when some question produced
      it and resolves to that page, and no page is empty. */
  lemma PayloadContents(a: Analysis, config: SurveyConfig, p: PagePayload, x: AnswerRecord)
    requires SurveyPagesPayload(a, config).Success?
    requires p in SurveyPagesPayload(a, config).value
    ensures p.questions != []
    ensures x in p.questions <==> p.id != [] && Produced(a, config, p.id, x)
  {
    var steps := Steps(a, config.pageId, config.questions.value);
    var entries := Placements(steps).value;
    assert SurveyPagesPayload(a, config).value == GroupByPage(entries);
    GroupByPageMember(entries, p);
    AnswersOnMembers(entries, p.id, x);
    PlacementsMembers(steps, Placement(p.id, x));
    StepsProduce(a, config, p.id, x);
    if x in p.questions {
      var j :| 0 <= j < |entries| && entries[j] == Placement(p.id, x);
      assert entries[j] in entries;
    }
  }

  /** An answer a question produces is never dropped when the question resolves to a page. */
  lemma PayloadKeepsAnswers(a: Analysis, config: SurveyConfig, k: nat)
    requires config.questions.Some? && k < |config.questions.value|
    requires ResolvePage(config.questions.value[k], config.pageId) != []
    requires SurveyPagesPayload(a, config).Success?
    requires BuildQuestionAnswer(config.questions.value[k], a).Success?
    requires BuildQuestionAnswer(config.questions.value[k], a).value.Some?
    ensures exists p :: (p in SurveyPagesPayload(a, config).value &&
                         p.id == ResolvePage(config.questions.value[k], config.pageId) &&
                         BuildQuestionAnswer(config.questions.value[k], a).value.value in p.questions)
  {
    var questions := config.questions.value;
    var steps := Steps(a, config.pageId, questions);
    var entries := Placements(steps).value;
    var x := BuildQuestionAnswer(questions[k], a).value.value;
    var e := Placement(ResolvePage(questions[k], config.pageId), x);
    PlacementsMembers(steps, e);
    assert steps[k] == Step(e.pageId, Success(Some(x)));
    var pages := GroupByPage(entries);
    var i :| 0 <= i < |pages| && pages[i].id == e.pageId;
    AnswersOnMembers(entries, e.pageId, x);
    var j :| 0 <= j < |entries| && entries[j] == e;
    assert pages[i] in pages;
  }
}

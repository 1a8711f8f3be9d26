/**
 * How the respondent's form and the response endpoint fit together: a form that posts
 * is recorded, and each rejection the endpoint sends is shown where the form shows it.
 */
module Protocol {
  import opened Wrappers
  import opened Strings
  import opened Schema
  import R = Respondent
  import S = Submission

  /**
   * Every required text answer the form holds keeps some text after Python's `strip`:
   * the form trims with JavaScript's whitespace, the endpoint strips with Python's.
   */
  predicate PythonSeesText(qs: seq<Question>, m: R.AnswerMap) {
    forall q :: q in qs && q.required && q.questionType == Text && q.id in m && m[q.id].TextValue? ==>
      !IsPyBlank(m[q.id].text)
  }

  /** Every choice id the form holds names a choice the store still has. */
  predicate ChoicesStored(m: R.AnswerMap, choiceIds: set<nat>) {
    forall k :: k in m && m[k].ChoiceEntry? ==>
      (m[k].choices.Some? ==> forall c :: c in m[k].choices.value ==> c in choiceIds)
      && (m[k].choice.Some? ==> m[k].choice.value in choiceIds)
  }

  /**
   * When the form holds the survey's own questions and posts, the endpoint's checks pass
   * for an admitted user, provided no required text is blank to Python alone; the
   * response is then recorded with 201 when every choice the form holds is still stored.
   */
  lemma PostedFormIsRecorded(surveys: seq<S.ServerSurvey>, s: S.ServerSurvey, u: S.User, m: R.AnswerMap,
                             choiceIds: set<nat>, integrityError: string)
    requires S.FindSurvey(surveys, s.id) == Some(s)
    requires S.OrgAdmits(s, u)
    requires DistinctIds(s.questions)
    requires R.Submit(s.questions, m).Posted?
    requires PythonSeesText(s.questions, m)
    ensures S.CheckRequest(surveys, Some(u), s.id, R.Submit(s.questions, m).answers).None?
    ensures ChoicesStored(m, choiceIds) ==>
              S.CreateReply(surveys, Some(u), s.id, R.Submit(s.questions, m).answers, choiceIds, integrityError).status == 201
  {
    var qs := s.questions;
    var payload := R.Submit(qs, m).answers;
    R.PostsIffRequiredValid(qs, m);
    PayloadAnswersRequired(qs, m);
    forall a | a in payload ensures S.CheckAnswer(qs, a).None? {
      PayloadAnswerPasses(qs, m, a);
    }
    if ChoicesStored(m, choiceIds) {
      forall i | 0 <= i < |payload| ensures !S.Dangling(payload[i], choiceIds) {
        PayloadChoicesLink(qs, m, choiceIds, payload[i]);
      }
    }
  }

  lemma PayloadAnswersRequired(qs: seq<Question>, m: R.AnswerMap)
    requires R.Submit(qs, m).Posted?
    ensures S.MissingRequired(qs, R.Submit(qs, m).answers) == []
  {
    var payload := R.Submit(qs, m).answers;
    R.PostedPayloadCoversRequired(qs, m);
    forall q | q in qs && q.required ensures S.Answered(payload, q.id) {
      assert R.FormatOne(q, m[q.id]) in payload;
    }
  }

  lemma PayloadAnswerPasses(qs: seq<Question>, m: R.AnswerMap, a: PostedAnswer)
    requires DistinctIds(qs)
    requires R.Submit(qs, m).Posted? && a in R.Submit(qs, m).answers
    requires PythonSeesText(qs, m)
    ensures S.CheckAnswer(qs, a).None?
  {
    R.PostsIffRequiredValid(qs, m);
    var q :| q in qs && q.id in m && R.Truthy(m[q.id]) && a == R.FormatOne(q, m[q.id]);
    var found := S.FindQuestion(qs, a.question);
    assert found == Some(q) by {
      var i :| 0 <= i < |qs| && qs[i] == found.value;
      var j :| 0 <= j < |qs| && qs[j] == q;
      assert i == j;
    }
    if q.required {
      R.ValidContentFormats(q, m[q.id]);
    }
  }

  /** Every choice the posted payload selects comes from the form's entries. */
  lemma PayloadChoicesLink(qs: seq<Question>, m: R.AnswerMap, choiceIds: set<nat>, a: PostedAnswer)
    requires R.Submit(qs, m).Posted? && a in R.Submit(qs, m).answers
    requires ChoicesStored(m, choiceIds)
    ensures !S.Dangling(a, choiceIds)
  {
    var q :| q in qs && q.id in m && R.Truthy(m[q.id]) && a == R.FormatOne(q, m[q.id]);
  }

  /**
   * A required text answer of one information separator passes the form, whose `trim`
   * keeps it, and is refused by the endpoint, whose `strip` removes it.
   */
  lemma SeparatorPostedThenRefused(integrityError: string)
    ensures var q := Question(1, "Name", Text, true, []);
            var s := S.ServerSurvey(1, 2, None, false, [q]);
            var m := map[1 := R.TextValue("\U{001F}")];
            R.Submit([q], m).Posted?
            && S.CreateReply([s], Some(S.User(3, false, None)), 1, R.Submit([q], m).answers, {}, integrityError)
               == S.Reply(400, [(S.QuestionKey(1), S.NoTextMessage)])
  {
    var q := Question(1, "Name", Text, true, []);
    var m := map[1 := R.TextValue("\U{001F}")];
    BlanksDiffer();
    assert R.ValidContent(q, m[1]);
    R.PostsIffRequiredValid([q], m);
    R.FormatAnswersOne(q, m);
    var a := R.FormatOne(q, m[1]);
    assert a == PostedAnswer(1, Sent("\U{001F}"), Absent);
    assert S.Answered([a], 1);
    assert S.FirstContentError([q], [a]) == S.CheckAnswer([q], a);
  }

  /**
   * A choice deleted by an edit after the form loaded: the post passes every check, the
   * link fails, and the response stays recorded with an answer that has no choices.
   */
  lemma DeletedChoiceLeavesPartialResponse(integrityError: string)
    ensures var q := Question(1, "Pick", SingleChoice, true, [Choice(7, "a")]);
            var s := S.ServerSurvey(1, 2, None, false, [q]);
            var m := map[1 := R.ChoiceEntry(None, Some(7))];
            R.Submit([q], m).Posted?
            && S.CheckRequest([s], Some(S.User(3, false, None)), 1, R.Submit([q], m).answers).None?
            && S.CreateReply([s], Some(S.User(3, false, None)), 1, R.Submit([q], m).answers, {}, integrityError)
               == S.Detail(400, integrityError)
            && S.WrittenAnswers(5, R.Submit([q], m).answers, {}) == [S.StoredAnswer(5, 1, None, [])]
  {
    var q := Question(1, "Pick", SingleChoice, true, [Choice(7, "a")]);
    var m := map[1 := R.ChoiceEntry(None, Some(7))];
    assert R.ValidContent(q, m[1]);
    R.PostsIffRequiredValid([q], m);
    R.FormatAnswersOne(q, m);
    var a := R.FormatOne(q, m[1]);
    assert a == PostedAnswer(1, Absent, Sent([7]));
    assert S.Answered([a], 1);
    assert S.FirstContentError([q], [a]) == S.CheckAnswer([q], a);
    var none: set<nat> := {};
    assert a.selectedChoices.value[0] in a.selectedChoices.value && a.selectedChoices.value[0] !in none;
    assert S.Dangling(a, none);
    assert S.FirstDangling([a], {}) == Some(0);
    assert [a][..0] == [];
  }

  /** The endpoint's 400 for missing answers is shown as "This field is required" beside each missing question. */
  lemma MissingReplyShownPerQuestion(missing: seq<Question>)
    requires |missing| > 0
    ensures var d := R.DisplayRejection(400, S.MissingErrors(missing));
            d.ShowFieldErrors?
            && (forall k :: k in d.fieldErrors <==> exists q :: q in missing && DecimalString(q.id) == k)
            && forall k :: k in d.fieldErrors ==> d.fieldErrors[k] == R.RequiredMessage
  {
    var body := S.MissingErrors(missing);
    forall i | 0 <= i < |body|
      ensures body[i].0 != "detail" && R.IsQuestionKey(body[i].0) && R.IdField(body[i].0) == DecimalString(missing[i].id)
    {
      R.QuestionKeyNamesId(missing[i].id);
      assert body[i].0[0] == 'q';
    }
    assert R.BodyValue(body, "detail").None?;
    var errors := R.QuestionErrors(body);
    forall k ensures k in errors <==> exists q :: q in missing && DecimalString(q.id) == k {
      if k in errors {
        var i :| 0 <= i < |body| && R.IsQuestionKey(body[i].0) && R.IdField(body[i].0) == k;
        assert missing[i] in missing;
      }
      if exists q :: q in missing && DecimalString(q.id) == k {
        var q :| q in missing && DecimalString(q.id) == k;
        var i :| 0 <= i < |missing| && missing[i] == q;
        assert R.IdField(body[i].0) == k;
      }
    }
  }

  /**
   * A content rejection is shown beside its question; an answer to a question the survey
   * does not hold, or a required text sent as null, comes back as a general error carrying
   * the exception's message.
   */
  lemma ContentRejectionShown(qs: seq<Question>, a: PostedAnswer)
    requires S.CheckAnswer(qs, a).Some?
    ensures var r := S.CheckAnswer(qs, a).value;
            R.DisplayRejection(r.status, r.body) ==
              if S.FindQuestion(qs, a.question).None? then R.ShowError(S.QuestionNotFound)
              else if S.FindQuestion(qs, a.question).value.questionType == Text && a.textAnswer.Null? then
                R.ShowError(S.NoStripMessage)
              else R.ShowFieldErrors(map[DecimalString(a.question) := r.body[0].1])
  {
    var r := S.CheckAnswer(qs, a).value;
    if r.body[0].0 != "detail" {
      R.QuestionKeyNamesId(a.question);
      assert r.body[0].0[0] == 'q';
      assert r.body[..0] == [];
      assert R.QuestionErrors(r.body) == map[DecimalString(a.question) := r.body[0].1];
    }
  }

  /** The endpoint's reason for a 403 or 404 never reaches the respondent: the form shows its fixed message. */
  lemma RefusalShownAsFailure(surveys: seq<S.ServerSurvey>, u: S.User, surveyId: nat, data: seq<PostedAnswer>,
                              choiceIds: set<nat>, integrityError: string)
    requires S.CreateReply(surveys, Some(u), surveyId, data, choiceIds, integrityError).status in {403, 404}
    ensures var r := S.CreateReply(surveys, Some(u), surveyId, data, choiceIds, integrityError);
            R.DisplayRejection(r.status, r.body) == R.ShowError(R.SubmitFailedMessage)
  {
  }
}

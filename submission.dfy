/**
 * The survey endpoints of the back end: recording a response (`SurveyResponseViewSet.create`),
 * the surveys a user may list and edit (`SurveyViewSet`), the organisation gate of a
 * survey that requires one, and the listing of an organisation's surveys. Every endpoint
 * here sits behind authentication except the public survey view, so a request without a
 * user is turned away with 401 before the view body runs.
 */
module Submission {
  import opened Wrappers
  import opened Sequences
  import opened Strings
  import opened Schema

  datatype User = User(id: nat, isStaff: bool, organization: Option<nat>)

  datatype ServerSurvey = ServerSurvey(
    id: nat,
    creator: nat,
    organization: Option<nat>,
    requiresOrganization: bool,
    questions: seq<Question>)

  /** A JSON object body: its keys in order, each with its message. */
  type Body = seq<(string, string)>

  datatype Reply = Reply(status: int, body: Body)

  const NotAuthenticated := "Authentication credentials were not provided."
  const AuthenticationRequired := "Authentication required for this survey"
  const NoAccess := "You don't have access to this survey"
  const SurveyNotFound := "Survey not found"
  const QuestionNotFound := "Question matching query does not exist."
  const RequiredMessage := "This field is required"
  const NoTextMessage := "Please provide an answer"
  const NoChoiceMessage := "Please select at least one choice"
  const Submitted := "Response submitted successfully"
  const NotFound := "Not found."
  const NoEditPermission := "You do not have permission to edit this survey."
  const NoOrganization := "User is not associated with any organization."

  function Detail(status: int, message: string): Reply {
    Reply(status, [("detail", message)])
  }

  /** `f"question_{id}"`. */
  function QuestionKey(id: nat): string {
    "question_" + DecimalString(id)
  }

  /** `Survey.objects.get(id=...)`. */
  function FindSurvey(surveys: seq<ServerSurvey>, id: nat): (r: Option<ServerSurvey>)
    ensures r.None? <==> forall s :: s in surveys ==> s.id != id
    ensures r.Some? ==> r.value in surveys && r.value.id == id
  {
    if surveys == [] then None
    else if surveys[0].id == id then Some(surveys[0])
    else FindSurvey(surveys[1..], id)
  }

  /** `Question.objects.get(id=..., survey=survey)`. */
  function FindQuestion(qs: seq<Question>, id: nat): (r: Option<Question>)
    ensures r.None? <==> forall q :: q in qs ==> q.id != id
    ensures r.Some? ==> r.value in qs && r.value.id == id
  {
    if qs == [] then None
    else if qs[0].id == id then Some(qs[0])
    else FindQuestion(qs[1..], id)
  }

  // ---------------------------------------------------------------------------
  // The organisation gate
  // ---------------------------------------------------------------------------

  /** A survey that requires an organisation admits a user of that same organisation only. */
  predicate OrgAdmits(s: ServerSurvey, u: User) {
    !s.requiresOrganization || (u.organization.Some? && u.organization == s.organization)
  }

  /** The gate of the public survey view: 401 without a user, 403 outside the organisation, nothing otherwise. */
  function OrgGate(s: ServerSurvey, user: Option<User>): (r: Option<Reply>)
    ensures r.None? <==> !s.requiresOrganization || (user.Some? && OrgAdmits(s, user.value))
    ensures r.Some? ==> r.value.status == (if user.None? then 401 else 403)
  {
    if !s.requiresOrganization then None
    else if user.None? then Some(Detail(401, AuthenticationRequired))
    else if !OrgAdmits(s, user.value) then Some(Detail(403, NoAccess))
    else None
  }

  /** A survey without an organisation shuts out every user once it requires one. */
  lemma NoOrganizationShutsOut(s: ServerSurvey, u: User)
    requires s.requiresOrganization && s.organization.None?
    ensures OrgGate(s, Some(u)) == Some(Detail(403, NoAccess))
  {
  }

  // ---------------------------------------------------------------------------
  // Recording a response
  // ---------------------------------------------------------------------------

  predicate Answered(answers: seq<PostedAnswer>, qid: nat) {
    exists a :: a in answers && a.question == qid
  }

  /** `required_questions.exclude(id__in=answered_question_ids)`, in the survey's order. */
  function MissingRequired(qs: seq<Question>, answers: seq<PostedAnswer>): (missing: seq<Question>)
    ensures forall q :: q in missing <==> q in qs && q.required && !Answered(answers, q.id)
    ensures missing == [] <==> forall q :: q in qs && q.required ==> Answered(answers, q.id)
  {
    if qs == [] then []
    else
      var q := qs[0];
      (if q.required && !Answered(answers, q.id) then [q] else []) + MissingRequired(qs[1..], answers)
  }

  function MissingErrors(missing: seq<Question>): (body: Body)
    ensures |body| == |missing|
    ensures forall i :: 0 <= i < |missing| ==> body[i] == (QuestionKey(missing[i].id), RequiredMessage)
  {
    seq(|missing|, i requires 0 <= i < |missing| => (QuestionKey(missing[i].id), RequiredMessage))
  }

  /** The `for question in missing_required_questions` loop filling `errors`. */
  method BuildMissingErrors(missing: seq<Question>) returns (body: Body)
    ensures body == MissingErrors(missing)
  {
    body := [];
    for i := 0 to |missing|
      invariant body == MissingErrors(missing[..i])
    {
      body := body + [(QuestionKey(missing[i].id), RequiredMessage)];
    }
    assert missing[..|missing|] == missing;
  }

  /** `str(e)` of the `AttributeError` that `None.strip()` raises. */
  const NoStripMessage := "'NoneType' object has no attribute 'strip'"

  /**
   * The content check of one answer: its question must exist, and a required one needs
   * content. For a text question, `answer_data.get('text_answer', '').strip()` treats a
   * left-out text as blank and raises on a text sent as null; what is sent is blank when
   * only Python whitespace remains.
   */
  function CheckAnswer(qs: seq<Question>, a: PostedAnswer): (r: Option<Reply>)
    ensures r.None? <==> match FindQuestion(qs, a.question)
                         case None => false
                         case Some(q) =>
                           q.required ==>
                             (q.questionType == Text ==> a.textAnswer.Sent? && !IsPyBlank(a.textAnswer.value))
                             && (IsChoiceType(q.questionType) ==> a.selectedChoices.Sent? && |a.selectedChoices.value| > 0)
    ensures r.Some? ==> r.value.status == 400 && |r.value.body| == 1
    ensures r.Some? ==>
              (r.value.body[0].0 == "detail" <==>
                 FindQuestion(qs, a.question).None?
                 || (FindQuestion(qs, a.question).value.questionType == Text && a.textAnswer.Null?))
    ensures r.Some? && r.value.body[0].0 != "detail" ==> r.value.body[0].0 == QuestionKey(a.question)
  {
    match FindQuestion(qs, a.question)
    case None => Some(Detail(400, QuestionNotFound))
    case Some(q) =>
      assert QuestionKey(q.id)[0] == 'q';
      if !q.required then None
      else if q.questionType == Text then
        match a.textAnswer
        case Null => Some(Detail(400, NoStripMessage))
        case Absent => Some(Reply(400, [(QuestionKey(q.id), NoTextMessage)]))
        case Sent(t) => if IsPyBlank(t) then Some(Reply(400, [(QuestionKey(q.id), NoTextMessage)])) else None
      else if !(a.selectedChoices.Sent? && |a.selectedChoices.value| > 0) then
        Some(Reply(400, [(QuestionKey(q.id), NoChoiceMessage)]))
      else None
  }

  /** The first answer, in submission order, that fails its content check. */
  function FirstContentError(qs: seq<Question>, answers: seq<PostedAnswer>): (r: Option<Reply>)
    ensures r.None? <==> forall a :: a in answers ==> CheckAnswer(qs, a).None?
    ensures r.Some? ==> exists k :: 0 <= k < |answers| && r == CheckAnswer(qs, answers[k])
                                    && forall j :: 0 <= j < k ==> CheckAnswer(qs, answers[j]).None?
  {
    if answers == [] then None
    else if CheckAnswer(qs, answers[0]).Some? then CheckAnswer(qs, answers[0])
    else
      var r := FirstContentError(qs, answers[1..]);
      assert r.Some? ==> exists k :: 1 <= k < |answers| && r == CheckAnswer(qs, answers[k])
                                     && forall j :: 0 <= j < k ==> CheckAnswer(qs, answers[j]).None? by {
        if r.Some? {
          var k :| 0 <= k < |answers[1..]| && r == CheckAnswer(qs, answers[1..][k])
                   && forall j :: 0 <= j < k ==> CheckAnswer(qs, answers[1..][j]).None?;
          forall j | 1 <= j < k + 1 ensures CheckAnswer(qs, answers[j]).None? {
            assert answers[j] == answers[1..][j - 1];
          }
        }
      }
      r
  }

  /** The `for answer_data in answers_data` validation loop, returning at the first failure. */
  method CheckContent(qs: seq<Question>, answers: seq<PostedAnswer>) returns (r: Option<Reply>)
    ensures r == FirstContentError(qs, answers)
  {
    var i := 0;
    while i < |answers|
      invariant 0 <= i <= |answers|
      invariant FirstContentError(qs, answers) == FirstContentError(qs, answers[i..])
    {
      assert answers[i..][1..] == answers[i + 1..];
      var check := CheckAnswer(qs, answers[i]);
      if check.Some? {
        return check;
      }
      i := i + 1;
    }
    return None;
  }

  /** The checks of `create`, in the view's order: the rejection they give, or none when the response may be written. */
  function CheckRequest(surveys: seq<ServerSurvey>, user: Option<User>, surveyId: nat, answers: seq<PostedAnswer>): Option<Reply> {
    if user.None? then Some(Detail(401, NotAuthenticated))
    else
      match FindSurvey(surveys, surveyId)
      case None => Some(Detail(404, SurveyNotFound))
      case Some(s) =>
        match OrgGate(s, user)
        case Some(refusal) => Some(refusal)
        case None =>
          var missing := MissingRequired(s.questions, answers);
          if |missing| > 0 then Some(Reply(400, MissingErrors(missing)))
          else FirstContentError(s.questions, answers)
  }

  /**
   * A sent, non-empty list of selected choices naming an id that no stored choice has:
   * `answer.selected_choices.set(...)` fails on the foreign key.
   */
  predicate Dangling(a: PostedAnswer, choiceIds: set<nat>) {
    a.selectedChoices.Sent? && exists c :: c in a.selectedChoices.value && c !in choiceIds
  }

  /** The position of the first answer whose choices cannot be linked. */
  function FirstDangling(answers: seq<PostedAnswer>, choiceIds: set<nat>): (r: Option<nat>)
    ensures r.None? <==> forall i :: 0 <= i < |answers| ==> !Dangling(answers[i], choiceIds)
    ensures r.Some? ==> r.value < |answers| && Dangling(answers[r.value], choiceIds)
                        && forall j :: 0 <= j < r.value ==> !Dangling(answers[j], choiceIds)
  {
    if answers == [] then None
    else if Dangling(answers[0], choiceIds) then Some(0)
    else
      match FirstDangling(answers[1..], choiceIds)
      case None => None
      case Some(k) =>
        assert forall j :: 1 <= j < k + 1 ==> answers[j] == answers[1..][j - 1];
        Some(k + 1)
  }

  /**
   * The reply of `create`: the checks' rejection, or, once the response is being written,
   * the 400 carrying the database's message (`integrityError`) when an answer's choices
   * cannot be linked, and 201 otherwise.
   */
  function CreateReply(surveys: seq<ServerSurvey>, user: Option<User>, surveyId: nat, answers: seq<PostedAnswer>,
                       choiceIds: set<nat>, integrityError: string): Reply {
    match CheckRequest(surveys, user, surveyId, answers)
    case Some(rejection) => rejection
    case None =>
      if FirstDangling(answers, choiceIds).Some? then Detail(400, integrityError)
      else Detail(201, Submitted)
  }

  /** A recorded response and its answers, as the store keeps them. */
  datatype StoredResponse = StoredResponse(id: nat, survey: nat, respondent: nat)
  datatype StoredAnswer = StoredAnswer(response: nat, question: nat, textAnswer: Option<string>, selectedChoices: seq<nat>)

  /**
   * The answer record of one answer: `answer_data.get('text_answer', None)`, so a left-out
   * and a null text are both stored as none; its choices only when a non-empty list was sent.
   */
  function StoredAnswerOf(rid: nat, a: PostedAnswer): StoredAnswer {
    StoredAnswer(rid, a.question, if a.textAnswer.Sent? then Some(a.textAnswer.value) else None,
                 if a.selectedChoices.Sent? then a.selectedChoices.value else [])
  }

  function StoredAnswers(rid: nat, answers: seq<PostedAnswer>): (stored: seq<StoredAnswer>)
    ensures |stored| == |answers|
    ensures forall i :: 0 <= i < |answers| ==> stored[i] == StoredAnswerOf(rid, answers[i])
  {
    seq(|answers|, i requires 0 <= i < |answers| => StoredAnswerOf(rid, answers[i]))
  }

  /**
   * The answer records a checked response leaves behind: one per answer; or, when an
   * answer's choices cannot be linked, those before it and that answer without choices,
   * since the records already written are not rolled back.
   */
  function WrittenAnswers(rid: nat, answers: seq<PostedAnswer>, choiceIds: set<nat>): (stored: seq<StoredAnswer>)
    ensures |stored| == match FirstDangling(answers, choiceIds) case None => |answers| case Some(k) => k + 1
    ensures forall i :: 0 <= i < |stored| ==>
              stored[i].response == rid && stored[i].question == answers[i].question
              && stored[i].textAnswer == StoredAnswerOf(rid, answers[i]).textAnswer
    ensures forall i, c :: 0 <= i < |stored| && c in stored[i].selectedChoices ==> c in choiceIds
  {
    match FirstDangling(answers, choiceIds)
    case None => StoredAnswers(rid, answers)
    case Some(k) => StoredAnswers(rid, answers[..k]) + [StoredAnswerOf(rid, answers[k]).(selectedChoices := [])]
  }

  lemma StoredAnswersSnoc(rid: nat, data: seq<PostedAnswer>, i: nat)
    requires i < |data|
    ensures StoredAnswers(rid, data[..i + 1]) == StoredAnswers(rid, data[..i]) + [StoredAnswerOf(rid, data[i])]
  {
    assert data[..i + 1][..i] == data[..i];
  }

  /** When the answer at `i` is the first whose choices cannot be linked, the records end with it, unlinked. */
  lemma WrittenUpToDangling(rid: nat, data: seq<PostedAnswer>, choiceIds: set<nat>, i: nat)
    requires i < |data| && Dangling(data[i], choiceIds)
    requires forall j :: 0 <= j < i ==> !Dangling(data[j], choiceIds)
    ensures WrittenAnswers(rid, data, choiceIds) ==
              StoredAnswers(rid, data[..i]) + [StoredAnswerOf(rid, data[i]).(selectedChoices := [])]
  {
    assert FirstDangling(data, choiceIds) == Some(i);
  }

  /** When every answer's choices can be linked, every answer is recorded with them. */
  lemma WrittenAllLinked(rid: nat, data: seq<PostedAnswer>, choiceIds: set<nat>)
    requires forall j :: 0 <= j < |data| ==> !Dangling(data[j], choiceIds)
    ensures WrittenAnswers(rid, data, choiceIds) == StoredAnswers(rid, data[..|data|])
  {
    assert data[..|data|] == data;
  }

  class ResponseStore {
    var responses: seq<StoredResponse>
    var answers: seq<StoredAnswer>
    var nextId: nat

    constructor ()
      ensures responses == [] && answers == [] && nextId == 1
    {
      responses := [];
      answers := [];
      nextId := 1;
    }

    /** Every stored answer belongs to a stored response. */
    ghost predicate Valid()
      reads this
    {
      (forall r :: r in responses ==> r.id < nextId)
      && forall a :: a in answers ==> exists r :: r in responses && r.id == a.response
    }

    /**
     * The answer loop of `create` for the response `rid`: one record per answer, its
     * choices linked, until an answer's choices cannot be linked; that answer keeps its
     * record without choices and the loop ends with the failure.
     */
    method WriteAnswers(rid: nat, data: seq<PostedAnswer>, choiceIds: set<nat>) returns (linked: bool)
      requires Valid() && exists r :: r in responses && r.id == rid
      modifies this
      ensures Valid()
      ensures linked <==> FirstDangling(data, choiceIds).None?
      ensures answers == old(answers) + WrittenAnswers(rid, data, choiceIds)
      ensures responses == old(responses) && nextId == old(nextId)
    {
      var i := 0;
      while i < |data|
        invariant 0 <= i <= |data|
        invariant responses == old(responses) && nextId == old(nextId)
        invariant answers == old(answers) + StoredAnswers(rid, data[..i])
        invariant forall j :: 0 <= j < i ==> !Dangling(data[j], choiceIds)
        invariant Valid()
      {
        if Dangling(data[i], choiceIds) {
          var unlinked := StoredAnswerOf(rid, data[i]).(selectedChoices := []);
          WrittenUpToDangling(rid, data, choiceIds, i);
          Regroup(old(answers), StoredAnswers(rid, data[..i]), [unlinked]);
          answers := answers + [unlinked];
          return false;
        }
        StoredAnswersSnoc(rid, data, i);
        Regroup(old(answers), StoredAnswers(rid, data[..i]), [StoredAnswerOf(rid, data[i])]);
        answers := answers + [StoredAnswerOf(rid, data[i])];
        i := i + 1;
      }
      WrittenAllLinked(rid, data, choiceIds);
      return true;
    }

    /**
     * `SurveyResponseViewSet.create`: checks the request in the view's order and, when
     * every check passes, records one response and then its answers. The stored choice
     * ids and the database's message for a failed link are parameters.
     */
    method Create(surveys: seq<ServerSurvey>, user: Option<User>, surveyId: nat, data: seq<PostedAnswer>,
                  choiceIds: set<nat>, integrityError: string)
      returns (reply: Reply)
      requires Valid()
      modifies this
      ensures Valid()
      ensures reply == CreateReply(surveys, user, surveyId, data, choiceIds, integrityError)
      ensures CheckRequest(surveys, user, surveyId, data).None? ==>
                responses == old(responses) + [StoredResponse(old(nextId), surveyId, user.value.id)]
                && answers == old(answers) + WrittenAnswers(old(nextId), data, choiceIds)
                && nextId == old(nextId) + 1
      ensures CheckRequest(surveys, user, surveyId, data).Some? ==>
                responses == old(responses) && answers == old(answers) && nextId == old(nextId)
    {
      var rejection := CheckCreateRequest(surveys, user, surveyId, data);
      if rejection.Some? {
        return rejection.value;
      }
      var rid := nextId;
      responses := responses + [StoredResponse(rid, surveyId, user.value.id)];
      nextId := nextId + 1;
      assert StoredResponse(rid, surveyId, user.value.id) in responses;
      var linked := WriteAnswers(rid, data, choiceIds);
      if !linked {
        return Detail(400, integrityError);
      }
      return Detail(201, Submitted);
    }
  }

  /** The checks of `create`, step by step: the loops build the missing-answer errors and find the first content error. */
  method CheckCreateRequest(surveys: seq<ServerSurvey>, user: Option<User>, surveyId: nat, data: seq<PostedAnswer>)
    returns (rejection: Option<Reply>)
    ensures rejection == CheckRequest(surveys, user, surveyId, data)
  {
    if user.None? {
      return Some(Detail(401, NotAuthenticated));
    }
    var found := FindSurvey(surveys, surveyId);
    if found.None? {
      return Some(Detail(404, SurveyNotFound));
    }
    var s := found.value;
    var refusal := OrgGate(s, user);
    if refusal.Some? {
      return refusal;
    }
    var missing := MissingRequired(s.questions, data);
    if |missing| > 0 {
      var errors := BuildMissingErrors(missing);
      return Some(Reply(400, errors));
    }
    rejection := CheckContent(s.questions, data);
  }

  /**
   * A recorded response passed every check: every required question of its survey is
   * answered, every answer passes its content check, and every choice is linked.
   */
  lemma AcceptedAnswersEveryRequired(surveys: seq<ServerSurvey>, u: User, surveyId: nat, data: seq<PostedAnswer>,
                                     choiceIds: set<nat>, integrityError: string)
    requires CreateReply(surveys, Some(u), surveyId, data, choiceIds, integrityError).status == 201
    ensures FindSurvey(surveys, surveyId).Some?
    ensures var s := FindSurvey(surveys, surveyId).value;
            OrgAdmits(s, u)
            && (forall q :: q in s.questions && q.required ==> Answered(data, q.id))
            && (forall a :: a in data ==> CheckAnswer(s.questions, a).None?)
            && WrittenAnswers(0, data, choiceIds) == StoredAnswers(0, data)
  {
  }

  /** A 400 for missing answers names every missing required question, each under its own key. */
  lemma MissingReplyNamesEachQuestion(surveys: seq<ServerSurvey>, u: User, surveyId: nat, data: seq<PostedAnswer>,
                                      choiceIds: set<nat>, integrityError: string)
    requires FindSurvey(surveys, surveyId).Some?
    requires OrgAdmits(FindSurvey(surveys, surveyId).value, u)
    requires MissingRequired(FindSurvey(surveys, surveyId).value.questions, data) != []
    ensures var reply := CreateReply(surveys, Some(u), surveyId, data, choiceIds, integrityError);
            var s := FindSurvey(surveys, surveyId).value;
            reply.status == 400
            && forall q :: q in s.questions && q.required && !Answered(data, q.id) ==>
                 (QuestionKey(q.id), RequiredMessage) in reply.body
  {
    var s := FindSurvey(surveys, surveyId).value;
    var missing := MissingRequired(s.questions, data);
    forall q | q in s.questions && q.required && !Answered(data, q.id)
      ensures (QuestionKey(q.id), RequiredMessage) in MissingErrors(missing)
    {
      var i :| 0 <= i < |missing| && missing[i] == q;
      assert MissingErrors(missing)[i] == (QuestionKey(q.id), RequiredMessage);
    }
  }

  // ---------------------------------------------------------------------------
  // Listing and editing surveys
  // ---------------------------------------------------------------------------

  /** `SurveyViewSet.get_queryset`: staff see every survey, others only the surveys they created. */
  function VisibleSurveys(surveys: seq<ServerSurvey>, u: User): (visible: seq<ServerSurvey>)
    ensures forall s :: s in visible <==> s in surveys && (u.isStaff || s.creator == u.id)
  {
    if u.isStaff then surveys
    else if surveys == [] then []
    else (if surveys[0].creator == u.id then [surveys[0]] else []) + VisibleSurveys(surveys[1..], u)
  }

  /**
   * `update` and `partial_update`: `get_object` looks the survey up among the visible
   * ones (404 otherwise), then the view refuses anyone who is neither creator nor staff.
   */
  function UpdateReply(surveys: seq<ServerSurvey>, u: User, id: nat): Reply {
    match FindSurvey(VisibleSurveys(surveys, u), id)
    case None => Detail(404, NotFound)
    case Some(s) =>
      if s.creator != u.id && !u.isStaff then Detail(403, NoEditPermission)
      else Reply(200, [])
  }

  /**
   * The 403 of `update` cannot be reached: a survey the user neither created nor may see
   * as staff is not found first. The edit goes ahead exactly for its creator or staff.
   */
  lemma UpdateNeverForbidden(surveys: seq<ServerSurvey>, u: User, id: nat)
    ensures UpdateReply(surveys, u, id).status != 403
    ensures UpdateReply(surveys, u, id).status == 200 <==>
              exists s :: s in surveys && s.id == id && (u.isStaff || s.creator == u.id)
  {
  }

  datatype Listing = ListingError(reply: Reply) | Listed(surveys: seq<ServerSurvey>)

  /** `organization_surveys`: the surveys of the user's organisation that someone else created. */
  function OrganizationSurveys(surveys: seq<ServerSurvey>, u: User): (r: Listing)
    ensures u.organization.None? <==> r == ListingError(Detail(400, NoOrganization))
    ensures r.Listed? ==> forall s :: s in r.surveys <==>
              s in surveys && s.organization == u.organization && s.creator != u.id
  {
    if u.organization.None? then ListingError(Detail(400, NoOrganization))
    else Listed(OrgFilter(surveys, u.organization.value, u.id))
  }

  function OrgFilter(surveys: seq<ServerSurvey>, org: nat, uid: nat): (r: seq<ServerSurvey>)
    ensures forall s :: s in r <==> s in surveys && s.organization == Some(org) && s.creator != uid
    ensures |r| <= |surveys|
  {
    if surveys == [] then []
    else
      (if surveys[0].organization == Some(org) && surveys[0].creator != uid then [surveys[0]] else [])
      + OrgFilter(surveys[1..], org, uid)
  }
}

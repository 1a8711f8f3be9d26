/**
 * The survey editor (`SurveyEdit`): the draft survey the author edits, the loading of a
 * stored survey into it, the list edits of questions and choices, the ordered
 * first-failure validation run on submit, and the payload sent to replace the survey.
 */
module Editor {
  import opened Wrappers
  import opened Strings
  import opened Schema

  datatype DraftChoice = DraftChoice(id: Option<nat>, text: string)

  /** A question as edited; its type is `None` while the "Select a question type" option is picked. */
  datatype DraftQuestion = DraftQuestion(
    id: Option<nat>,
    text: string,
    questionType: Option<QuestionType>,
    required: bool,
    choices: seq<DraftChoice>)

  datatype SurveyDraft = SurveyDraft(
    title: string,
    description: string,
    isActive: bool,
    requiresOrganization: bool,
    organizationId: Option<nat>,
    questions: seq<DraftQuestion>)

  const BlankQuestion := DraftQuestion(None, "", Some(Text), false, [])
  const BlankChoice := DraftChoice(None, "")

  // ---------------------------------------------------------------------------
  // Loading
  // ---------------------------------------------------------------------------

  /** A stored question as the survey endpoint returns it; absent or empty fields are `None`. */
  datatype LoadedQuestion = LoadedQuestion(
    id: nat,
    text: string,
    questionType: Option<QuestionType>,
    required: Option<bool>,
    choices: Option<seq<Choice>>)

  datatype LoadedSurvey = LoadedSurvey(
    title: string,
    description: string,
    isActive: bool,
    requiresOrganization: Option<bool>,
    organization: Option<nat>,
    questions: Option<seq<LoadedQuestion>>)

  function LoadChoices(cs: seq<Choice>): (ds: seq<DraftChoice>)
    ensures |ds| == |cs| && forall j :: 0 <= j < |cs| ==> ds[j] == DraftChoice(Some(cs[j].id), cs[j].text)
  {
    seq(|cs|, j requires 0 <= j < |cs| => DraftChoice(Some(cs[j].id), cs[j].text))
  }

  /** The defaults of `fetchSurvey`: type `text`, not required, no choices. */
  function LoadQuestion(q: LoadedQuestion): (d: DraftQuestion)
    ensures d.id == Some(q.id) && d.text == q.text
    ensures d.questionType.Some? && (q.questionType.Some? ==> d.questionType == q.questionType)
    ensures q.questionType.None? ==> d.questionType == Some(Text)
    ensures d.required <==> q.required == Some(true)
    ensures q.choices.None? ==> d.choices == []
    ensures q.choices.Some? ==> d.choices == LoadChoices(q.choices.value)
  {
    DraftQuestion(
      Some(q.id),
      q.text,
      if q.questionType.Some? then q.questionType else Some(Text),
      q.required == Some(true),
      if q.choices.Some? then LoadChoices(q.choices.value) else [])
  }

  function LoadSurvey(data: LoadedSurvey): (d: SurveyDraft)
    ensures d.requiresOrganization <==> data.requiresOrganization == Some(true)
    ensures d.organizationId == data.organization
    ensures data.questions.None? ==> d.questions == []
    ensures data.questions.Some? ==>
              |d.questions| == |data.questions.value|
              && forall i :: 0 <= i < |d.questions| ==> d.questions[i] == LoadQuestion(data.questions.value[i])
  {
    var qs := if data.questions.Some? then data.questions.value else [];
    SurveyDraft(
      data.title,
      data.description,
      data.isActive,
      data.requiresOrganization == Some(true),
      data.organization,
      seq(|qs|, i requires 0 <= i < |qs| => LoadQuestion(qs[i])))
  }

  // ---------------------------------------------------------------------------
  // List edits
  // ---------------------------------------------------------------------------

  /** `list.splice(i, 1)` for a non-negative index: removes the element at `i`, if there is one. */
  function RemoveAt<T>(s: seq<T>, i: nat): (r: seq<T>)
    ensures i < |s| ==> |r| == |s| - 1
                        && (forall k :: 0 <= k < i ==> r[k] == s[k])
                        && (forall k :: i <= k < |r| ==> r[k] == s[k + 1])
    ensures i >= |s| ==> r == s
  {
    if i < |s| then s[..i] + s[i + 1..] else s
  }

  /** One `handleQuestionChange(index, field, value)` call. */
  datatype QuestionChange =
    | SetText(text: string)
    | SetType(questionType: Option<QuestionType>)
    | SetRequired(required: bool)

  function ApplyChange(q: DraftQuestion, change: QuestionChange): (r: DraftQuestion)
    ensures r.id == q.id && r.choices == q.choices
    ensures r.text == (if change.SetText? then change.text else q.text)
    ensures r.questionType == (if change.SetType? then change.questionType else q.questionType)
    ensures r.required == (if change.SetRequired? then change.required else q.required)
  {
    match change
    case SetText(t) => q.(text := t)
    case SetType(t) => q.(questionType := t)
    case SetRequired(b) => q.(required := b)
  }

  // ---------------------------------------------------------------------------
  // Validation
  // ---------------------------------------------------------------------------

  const NoTokenMessage := "No authentication token found"
  const OrgMessage := "Please select an organization when organization access is required"
  const TitleMessage := "Survey title is required"
  const NoQuestionsMessage := "At least one question is required"

  function QuestionTextMessage(i: nat): string {
    "Question " + DecimalString(i + 1) + " text is required"
  }

  function NoChoicesMessage(i: nat): string {
    "Question " + DecimalString(i + 1) + " requires at least one choice"
  }

  function ChoiceTextMessage(j: nat, i: nat): string {
    "Choice " + DecimalString(j + 1) + " in Question " + DecimalString(i + 1) + " is required"
  }

  predicate NeedsChoices(q: DraftQuestion) {
    q.questionType.Some? && IsChoiceType(q.questionType.value)
  }

  /** A question the validator lets through: text, a choice when its type needs one, and text in every choice. */
  predicate QuestionOk(q: DraftQuestion) {
    !IsBlank(q.text)
    && (NeedsChoices(q) ==> |q.choices| > 0)
    && forall j :: 0 <= j < |q.choices| ==> !IsBlank(q.choices[j].text)
  }

  /** A survey the validator lets through, stated without any order. */
  predicate Submittable(d: SurveyDraft) {
    (d.requiresOrganization ==> d.organizationId.Some?)
    && !IsBlank(d.title)
    && |d.questions| > 0
    && forall i :: 0 <= i < |d.questions| ==> QuestionOk(d.questions[i])
  }

  /** The first choice from `j` on without text, reported with 1-based numbers. */
  function ChoicesProblem(cs: seq<DraftChoice>, j: nat, i: nat): (r: Option<string>)
    requires j <= |cs|
    ensures r.None? <==> forall k :: j <= k < |cs| ==> !IsBlank(cs[k].text)
    ensures r.Some? ==> exists k :: j <= k < |cs| && IsBlank(cs[k].text) && r.value == ChoiceTextMessage(k, i)
                                    && forall l :: j <= l < k ==> !IsBlank(cs[l].text)
    decreases |cs| - j
  {
    if j == |cs| then None
    else if IsBlank(cs[j].text) then Some(ChoiceTextMessage(j, i))
    else ChoicesProblem(cs, j + 1, i)
  }

  /** The checks of one question, in the validator's order. */
  function QuestionProblem(q: DraftQuestion, i: nat): (r: Option<string>)
    ensures r.None? <==> QuestionOk(q)
  {
    if IsBlank(q.text) then Some(QuestionTextMessage(i))
    else if NeedsChoices(q) && |q.choices| == 0 then Some(NoChoicesMessage(i))
    else ChoicesProblem(q.choices, 0, i)
  }

  /** One pass of the validation loop: the question's text, its choice count, then each choice's text. */
  method CheckQuestion(q: DraftQuestion, i: nat) returns (problem: Option<string>)
    ensures problem == QuestionProblem(q, i)
  {
    if IsBlank(q.text) {
      return Some(QuestionTextMessage(i));
    }
    if NeedsChoices(q) && |q.choices| == 0 {
      return Some(NoChoicesMessage(i));
    }
    assert QuestionProblem(q, i) == ChoicesProblem(q.choices, 0, i);
    var j := 0;
    while j < |q.choices|
      invariant 0 <= j <= |q.choices|
      invariant QuestionProblem(q, i) == ChoicesProblem(q.choices, j, i)
    {
      if IsBlank(q.choices[j].text) {
        return Some(ChoiceTextMessage(j, i));
      }
      j := j + 1;
    }
    return None;
  }

  /** The first failing question from `i` on. */
  function QuestionsProblem(qs: seq<DraftQuestion>, i: nat): (r: Option<string>)
    requires i <= |qs|
    ensures r.None? <==> forall k :: i <= k < |qs| ==> QuestionOk(qs[k])
    ensures r.Some? ==> exists k :: i <= k < |qs| && r == QuestionProblem(qs[k], k)
                                    && forall l :: i <= l < k ==> QuestionOk(qs[l])
    decreases |qs| - i
  {
    if i == |qs| then None
    else
      var p := QuestionProblem(qs[i], i);
      if p.Some? then p else QuestionsProblem(qs, i + 1)
  }

  /** The validation of `handleSubmit`: organisation, title, question list, then each question in order. */
  function FirstProblem(d: SurveyDraft): Option<string> {
    if d.requiresOrganization && d.organizationId.None? then Some(OrgMessage)
    else if IsBlank(d.title) then Some(TitleMessage)
    else if |d.questions| == 0 then Some(NoQuestionsMessage)
    else QuestionsProblem(d.questions, 0)
  }

  /** The validator finds nothing to report exactly when the survey is submittable. */
  lemma NoProblemIffSubmittable(d: SurveyDraft)
    ensures FirstProblem(d).None? <==> Submittable(d)
  {
  }

  /**
   * A reported question problem belongs to the first failing question, and a reported
   * choice problem to the first blank choice of that question: nothing earlier fails.
   */
  lemma ProblemIsFirst(d: SurveyDraft)
    requires d.requiresOrganization ==> d.organizationId.Some?
    requires !IsBlank(d.title) && |d.questions| > 0
    requires FirstProblem(d).Some?
    ensures exists i :: 0 <= i < |d.questions| && !QuestionOk(d.questions[i])
                        && FirstProblem(d) == QuestionProblem(d.questions[i], i)
                        && forall l :: 0 <= l < i ==> QuestionOk(d.questions[l])
  {
    var k :| 0 <= k < |d.questions| && FirstProblem(d) == QuestionProblem(d.questions[k], k)
             && forall l :: 0 <= l < k ==> QuestionOk(d.questions[l]);
    assert !QuestionOk(d.questions[k]);
  }

  // ---------------------------------------------------------------------------
  // Payload
  // ---------------------------------------------------------------------------

  datatype QuestionPayload = QuestionPayload(
    text: string,
    questionType: Option<QuestionType>,
    required: bool,
    choices: Option<seq<string>>)

  datatype SurveyPayload = SurveyPayload(
    title: string,
    description: string,
    isActive: bool,
    requiresOrganization: bool,
    organizationId: Option<nat>,
    questions: seq<QuestionPayload>)

  function ChoiceTexts(cs: seq<DraftChoice>): (ts: seq<string>)
    ensures |ts| == |cs| && forall j :: 0 <= j < |cs| ==> ts[j] == cs[j].text
  {
    seq(|cs|, j requires 0 <= j < |cs| => cs[j].text)
  }

  /** A question without its id; choices, as texts only, only for a choice type. */
  function FormatQuestion(q: DraftQuestion): QuestionPayload {
    QuestionPayload(q.text, q.questionType, q.required, if NeedsChoices(q) then Some(ChoiceTexts(q.choices)) else None)
  }

  function FormatSurvey(d: SurveyDraft): (p: SurveyPayload)
    ensures p.organizationId == (if d.requiresOrganization then d.organizationId else None)
    ensures |p.questions| == |d.questions|
    ensures forall i :: 0 <= i < |d.questions| ==> p.questions[i] == FormatQuestion(d.questions[i])
  {
    SurveyPayload(
      d.title,
      d.description,
      d.isActive,
      d.requiresOrganization,
      if d.requiresOrganization then d.organizationId else None,
      seq(|d.questions|, i requires 0 <= i < |d.questions| => FormatQuestion(d.questions[i])))
  }

  /** A question with its ids forgotten. */
  function WithoutIds(q: DraftQuestion): DraftQuestion {
    q.(id := None, choices := seq(|q.choices|, j requires 0 <= j < |q.choices| => q.choices[j].(id := None)))
  }

  /**
   * The payload carries no question or choice ids: two drafts that differ only in ids
   * send the same payload, so the survey's questions are replaced as a whole.
   */
  lemma PayloadIgnoresIds(d1: SurveyDraft, d2: SurveyDraft)
    requires d1.(questions := []) == d2.(questions := [])
    requires |d1.questions| == |d2.questions|
    requires forall i :: 0 <= i < |d1.questions| ==> WithoutIds(d1.questions[i]) == WithoutIds(d2.questions[i])
    ensures FormatSurvey(d1) == FormatSurvey(d2)
  {
    forall i | 0 <= i < |d1.questions| ensures FormatQuestion(d1.questions[i]) == FormatQuestion(d2.questions[i]) {
      var q1, q2 := d1.questions[i], d2.questions[i];
      assert |q1.choices| == |WithoutIds(q1).choices|;
      forall j | 0 <= j < |q1.choices| ensures q1.choices[j].text == q2.choices[j].text {
        assert WithoutIds(q1).choices[j].text == q1.choices[j].text;
        assert WithoutIds(q2).choices[j].text == q2.choices[j].text;
      }
      assert ChoiceTexts(q1.choices) == ChoiceTexts(q2.choices);
    }
    assert FormatSurvey(d1).questions == FormatSurvey(d2).questions;
  }

  datatype EditOutcome = Rejected(message: string) | Put(payload: SurveyPayload)

  /** `handleSubmit` up to the request: the token check, the validation, then the payload. */
  function EditSubmission(hasToken: bool, d: SurveyDraft): (r: EditOutcome)
    ensures r.Put? ==> hasToken && Submittable(d) && r.payload == FormatSurvey(d)
    ensures hasToken && Submittable(d) ==> r.Put?
  {
    NoProblemIffSubmittable(d);
    if !hasToken then Rejected(NoTokenMessage)
    else
      match FirstProblem(d)
      case Some(p) => Rejected(p)
      case None => Put(FormatSurvey(d))
  }

  // ---------------------------------------------------------------------------
  // The editor
  // ---------------------------------------------------------------------------

  class SurveyEditor {
    var survey: SurveyDraft

    /** The initial state before the survey is loaded. */
    constructor ()
      ensures survey == SurveyDraft("", "", true, false, None, [])
    {
      survey := SurveyDraft("", "", true, false, None, []);
    }

    /** `fetchSurvey`: the loaded survey replaces the draft, with its defaults filled in. */
    method Load(data: LoadedSurvey)
      modifies this
      ensures survey == LoadSurvey(data)
    {
      survey := LoadSurvey(data);
    }

    /** `addQuestion`: one blank text question at the end. */
    method AddQuestion()
      modifies this
      ensures survey == old(survey).(questions := old(survey.questions) + [BlankQuestion])
    {
      survey := survey.(questions := survey.questions + [BlankQuestion]);
    }

    /** `deleteQuestion`: the question at `index` goes, the others keep their order. */
    method DeleteQuestion(index: nat)
      modifies this
      ensures survey == old(survey).(questions := RemoveAt(old(survey.questions), index))
    {
      survey := survey.(questions := RemoveAt(survey.questions, index));
    }

    /** `handleQuestionChange`: one field of one question. */
    method ChangeQuestion(index: nat, change: QuestionChange)
      requires index < |survey.questions|
      modifies this
      ensures survey == old(survey).(questions := old(survey.questions)[index := ApplyChange(old(survey.questions[index]), change)])
    {
      var qs := survey.questions;
      survey := survey.(questions := qs[index := ApplyChange(qs[index], change)]);
    }

    /** `handleChoiceChange`: the text of one choice, assigned in place. */
    method ChangeChoice(questionIndex: nat, choiceIndex: nat, value: string)
      requires questionIndex < |survey.questions|
      requires choiceIndex < |survey.questions[questionIndex].choices|
      modifies this
      ensures var q := old(survey.questions[questionIndex]);
              survey == old(survey).(questions := old(survey.questions)[questionIndex :=
                          q.(choices := q.choices[choiceIndex := q.choices[choiceIndex].(text := value)])])
    {
      var q := survey.questions[questionIndex];
      var c := q.choices[choiceIndex].(text := value);
      survey := survey.(questions := survey.questions[questionIndex := q.(choices := q.choices[choiceIndex := c])]);
    }

    /** `addChoice`: one blank choice at the end of the question's list. */
    method AddChoice(questionIndex: nat)
      requires questionIndex < |survey.questions|
      modifies this
      ensures var q := old(survey.questions[questionIndex]);
              survey == old(survey).(questions := old(survey.questions)[questionIndex := q.(choices := q.choices + [BlankChoice])])
    {
      var q := survey.questions[questionIndex];
      survey := survey.(questions := survey.questions[questionIndex := q.(choices := q.choices + [BlankChoice])]);
    }

    /** `deleteChoice`: the choice at `choiceIndex` goes, the others keep their order. */
    method DeleteChoice(questionIndex: nat, choiceIndex: nat)
      requires questionIndex < |survey.questions|
      modifies this
      ensures var q := old(survey.questions[questionIndex]);
              survey == old(survey).(questions := old(survey.questions)[questionIndex := q.(choices := RemoveAt(q.choices, choiceIndex))])
    {
      var q := survey.questions[questionIndex];
      survey := survey.(questions := survey.questions[questionIndex := q.(choices := RemoveAt(q.choices, choiceIndex))]);
    }

    /** The validation loop of `handleSubmit`, returning the first message it sets. */
    method Validate() returns (problem: Option<string>)
      ensures problem == FirstProblem(survey)
    {
      if survey.requiresOrganization && survey.organizationId.None? {
        return Some(OrgMessage);
      }
      if IsBlank(survey.title) {
        return Some(TitleMessage);
      }
      var qs := survey.questions;
      if |qs| == 0 {
        return Some(NoQuestionsMessage);
      }
      var i := 0;
      while i < |qs|
        invariant 0 <= i <= |qs|
        invariant QuestionsProblem(qs, 0) == QuestionsProblem(qs, i)
      {
        var p := CheckQuestion(qs[i], i);
        if p.Some? {
          return p;
        }
        i := i + 1;
      }
      return None;
    }

    /** `handleSubmit`: the outcome for the draft as it stands. */
    method Submit(hasToken: bool) returns (outcome: EditOutcome)
      ensures outcome == EditSubmission(hasToken, survey)
    {
      if !hasToken {
        return Rejected(NoTokenMessage);
      }
      var problem := Validate();
      if problem.Some? {
        return Rejected(problem.value);
      }
      return Put(FormatSurvey(survey));
    }
  }
}

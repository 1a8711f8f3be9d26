/**
 * The respondent's form (`SurveyResponse`): the answer map the inputs edit, the two
 * checks run before posting (presence, then content, each stopping the submission on
 * its own), the payload sent to the server, and how a rejected post is displayed.
 */
module Respondent {
  import opened Wrappers
  import opened Strings
  import opened Schema

  /**
   * What the answer map holds for a question: the typed text, or the object the choice
   * handlers build (`{choices}` for check boxes, `{choice}` for radio buttons).
   */
  datatype AnswerValue =
    | TextValue(text: string)
    | ChoiceEntry(choices: Option<seq<nat>>, choice: Option<nat>)

  type AnswerMap = map<nat, AnswerValue>

  const RequiredMessage := "This field is required"
  const InvalidMessage := "Please provide a valid answer"
  const SubmitFailedMessage := "Failed to submit response"

  // ---------------------------------------------------------------------------
  // Editing the answer map
  // ---------------------------------------------------------------------------

  /** Only the entry of `qid` may differ between the two maps. */
  ghost predicate OnlyEntryChanged(m: AnswerMap, m': AnswerMap, qid: nat) {
    forall k :: k != qid ==> (k in m' <==> k in m) && (k in m ==> m'[k] == m[k])
  }

  /** `handleAnswerChange`: the question's entry becomes the typed text. */
  function SetText(m: AnswerMap, qid: nat, v: string): (m': AnswerMap)
    ensures qid in m' && m'[qid] == TextValue(v)
    ensures OnlyEntryChanged(m, m', qid)
  {
    m[qid := TextValue(v)]
  }

  /** `prev[qid]?.choices || []`. */
  function HeldChoices(m: AnswerMap, qid: nat): seq<nat> {
    if qid in m && m[qid].ChoiceEntry? && m[qid].choices.Some? then m[qid].choices.value else []
  }

  /** The `choice` field an entry carries along when spread into the new entry. */
  function HeldChoice(m: AnswerMap, qid: nat): Option<nat> {
    if qid in m && m[qid].ChoiceEntry? then m[qid].choice else None
  }

  /** `list.filter(x => x !== id)`. */
  function Remove(list: seq<nat>, id: nat): (r: seq<nat>)
    ensures forall x :: x in r <==> x in list && x != id
    ensures |r| <= |list|
  {
    if list == [] then []
    else (if list[0] == id then [] else [list[0]]) + Remove(list[1..], id)
  }

  /** A check box click: remove the id when it is listed, append it otherwise. */
  function Toggle(list: seq<nat>, id: nat): seq<nat> {
    if id in list then Remove(list, id) else list + [id]
  }

  /** `handleChoiceChange(qid, id, true)`: one check box flips, the others keep their state. */
  function ToggleChoice(m: AnswerMap, qid: nat, id: nat): (m': AnswerMap)
    ensures qid in m' && m'[qid].ChoiceEntry? && m'[qid].choices.Some?
    ensures id in m'[qid].choices.value <==> id !in HeldChoices(m, qid)
    ensures forall x :: x != id ==> (x in m'[qid].choices.value <==> x in HeldChoices(m, qid))
    ensures m'[qid].choice == HeldChoice(m, qid)
    ensures OnlyEntryChanged(m, m', qid)
  {
    m[qid := ChoiceEntry(Some(Toggle(HeldChoices(m, qid), id)), HeldChoice(m, qid))]
  }

  /** `handleChoiceChange(qid, id)`: the radio entry is replaced by the picked choice alone. */
  function SelectChoice(m: AnswerMap, qid: nat, id: nat): (m': AnswerMap)
    ensures qid in m' && m'[qid] == ChoiceEntry(None, Some(id))
    ensures OnlyEntryChanged(m, m', qid)
  {
    m[qid := ChoiceEntry(None, Some(id))]
  }

  /** The `checked` state of the radio button of choice `c`. */
  predicate RadioChecked(m: AnswerMap, qid: nat, c: nat) {
    HeldChoice(m, qid) == Some(c)
  }

  /** After picking a radio button, it is the only one of its question that is checked. */
  lemma SelectChecksOnlyOne(m: AnswerMap, qid: nat, id: nat, c: nat)
    ensures RadioChecked(SelectChoice(m, qid, id), qid, c) <==> c == id
  {
  }

  predicate Distinct(list: seq<nat>) {
    forall i, j :: 0 <= i < j < |list| ==> list[i] != list[j]
  }

  lemma {:induction false} RemoveAbsent(list: seq<nat>, id: nat)
    requires id !in list
    ensures Remove(list, id) == list
  {
    if list != [] {
      RemoveAbsent(list[1..], id);
      assert [list[0]] + list[1..] == list;
    }
  }

  lemma {:induction false} RemoveAppended(list: seq<nat>, id: nat)
    requires id !in list
    ensures Remove(list + [id], id) == list
  {
    if list == [] {
      assert [id][1..] == [];
    } else {
      assert (list + [id])[1..] == list[1..] + [id];
      RemoveAppended(list[1..], id);
      assert [list[0]] + list[1..] == list;
    }
  }

  lemma {:induction false} RemoveKeepsDistinct(list: seq<nat>, id: nat)
    requires Distinct(list)
    ensures Distinct(Remove(list, id))
  {
    if list != [] {
      RemoveKeepsDistinct(list[1..], id);
      assert list[0] !in list[1..];
    }
  }

  /** Clicking an unchecked box twice restores the list exactly, order included. */
  lemma ToggleTwice(list: seq<nat>, id: nat)
    requires id !in list
    ensures Toggle(Toggle(list, id), id) == list
  {
    RemoveAppended(list, id);
  }

  /** A list of checked ids built by clicks never holds an id twice. */
  lemma ToggleKeepsDistinct(list: seq<nat>, id: nat)
    requires Distinct(list)
    ensures Distinct(Toggle(list, id))
  {
    if id in list {
      RemoveKeepsDistinct(list, id);
    }
  }

  // ---------------------------------------------------------------------------
  // Checking before posting
  // ---------------------------------------------------------------------------

  /** JavaScript truthiness of an entry: only the empty text is falsy. */
  predicate Truthy(v: AnswerValue) {
    v.TextValue? ==> v.text != ""
  }

  /** The content a required question needs: text left after trimming, a checked box, a picked radio button. */
  predicate ValidContent(q: Question, v: AnswerValue) {
    match q.questionType
    case Text => v.TextValue? && !IsBlank(v.text)
    case MultipleChoice => v.ChoiceEntry? && v.choices.Some? && |v.choices.value| > 0
    case SingleChoice => v.ChoiceEntry? && v.choice.Some? && v.choice.value != 0
  }

  /** Required questions whose id is not a key of the map, in survey order. */
  function MissingRequired(qs: seq<Question>, m: AnswerMap): (missing: seq<Question>)
    ensures forall q :: q in missing <==> q in qs && q.required && q.id !in m
    ensures missing == [] <==> forall q :: q in qs && q.required ==> q.id in m
  {
    if qs == [] then []
    else (if qs[0].required && qs[0].id !in m then [qs[0]] else []) + MissingRequired(qs[1..], m)
  }

  /** `answer.trim()` on a choice entry throws, so the content pass fails as a whole. */
  predicate TrimThrows(q: Question, m: AnswerMap) {
    q.required && q.questionType == Text && q.id in m && m[q.id].ChoiceEntry?
  }

  predicate AnyTrimThrows(qs: seq<Question>, m: AnswerMap) {
    exists q :: q in qs && TrimThrows(q, m)
  }

  /** Required questions whose entry is falsy or lacks the content its type needs. */
  function InvalidAnswers(qs: seq<Question>, m: AnswerMap): (invalid: seq<Question>)
    ensures forall q :: q in invalid <==> q in qs && q.required && !(q.id in m && ValidContent(q, m[q.id]))
    ensures invalid == [] <==> AllRequiredValid(qs, m)
  {
    if qs == [] then []
    else
      var q := qs[0];
      (if q.required && !(q.id in m && ValidContent(q, m[q.id])) then [q] else []) + InvalidAnswers(qs[1..], m)
  }

  /** One message per question id of the list. */
  function ErrorsFor(qs: seq<Question>, message: string): (errors: map<nat, string>)
    ensures forall id :: id in errors <==> exists q :: q in qs && q.id == id
    ensures forall id :: id in errors ==> errors[id] == message
  {
    map q | q in qs :: q.id := message
  }

  /** The `forEach` that fills `newValidationErrors`. */
  method BuildErrors(qs: seq<Question>, message: string) returns (errors: map<nat, string>)
    ensures errors == ErrorsFor(qs, message)
  {
    errors := map[];
    for i := 0 to |qs|
      invariant forall id :: id in errors <==> exists k :: 0 <= k < i && qs[k].id == id
      invariant forall id :: id in errors ==> errors[id] == message
    {
      errors := errors[qs[i].id := message];
    }
  }

  // ---------------------------------------------------------------------------
  // The payload
  // ---------------------------------------------------------------------------

  /**
   * The answer object posted for one question with a truthy entry. A key whose value is
   * `undefined` is left out of the JSON body, so the form never sends `null`. (A text
   * question never holds a choice entry on this page; such an entry is posted as no text.)
   */
  function FormatOne(q: Question, v: AnswerValue): (a: PostedAnswer)
    ensures a.question == q.id
    ensures !a.textAnswer.Null? && !a.selectedChoices.Null?
    ensures q.questionType == Text ==> a.selectedChoices.Absent?
    ensures IsChoiceType(q.questionType) ==> a.textAnswer.Absent?
  {
    match q.questionType
    case Text => PostedAnswer(q.id, if v.TextValue? then Sent(v.text) else Absent, Absent)
    case MultipleChoice =>
      PostedAnswer(q.id, Absent, if v.ChoiceEntry? && v.choices.Some? then Sent(v.choices.value) else Absent)
    case SingleChoice =>
      PostedAnswer(q.id, Absent, Sent(if v.ChoiceEntry? && v.choice.Some? then [v.choice.value] else []))
  }

  /** `survey.questions.map(...).filter(Boolean)`: one answer per question with a truthy entry, in survey order. */
  function FormatAnswers(qs: seq<Question>, m: AnswerMap): (answers: seq<PostedAnswer>)
    ensures |answers| <= |qs|
    ensures forall a :: a in answers ==> exists q :: q in qs && q.id in m && Truthy(m[q.id]) && a == FormatOne(q, m[q.id])
    ensures forall q :: q in qs && q.id in m && Truthy(m[q.id]) ==> FormatOne(q, m[q.id]) in answers
  {
    if qs == [] then []
    else
      var q := qs[0];
      (if q.id in m && Truthy(m[q.id]) then [FormatOne(q, m[q.id])] else []) + FormatAnswers(qs[1..], m)
  }

  /** The payload of one question: its answer when its entry is truthy, nothing otherwise. */
  lemma FormatAnswersOne(q: Question, m: AnswerMap)
    ensures q.id in m && Truthy(m[q.id]) ==> FormatAnswers([q], m) == [FormatOne(q, m[q.id])]
    ensures !(q.id in m && Truthy(m[q.id])) ==> FormatAnswers([q], m) == []
  {
    assert [q][1..] == [];
  }

  /** The payload follows the survey's order: formatting two runs of questions concatenates their payloads. */
  lemma {:induction false} FormatAnswersAppend(q1: seq<Question>, q2: seq<Question>, m: AnswerMap)
    ensures FormatAnswers(q1 + q2, m) == FormatAnswers(q1, m) + FormatAnswers(q2, m)
  {
    if q1 == [] {
      assert q1 + q2 == q2;
    } else {
      assert (q1 + q2)[0] == q1[0];
      assert (q1 + q2)[1..] == q1[1..] + q2;
      FormatAnswersAppend(q1[1..], q2, m);
    }
  }

  /** No two answers of the payload are to the same question. */
  predicate OncePerQuestion(answers: seq<PostedAnswer>) {
    forall i, j :: 0 <= i < j < |answers| ==> answers[i].question != answers[j].question
  }

  /** With distinct question ids the payload holds at most one answer per question. */
  lemma {:induction false} FormatAnswersOncePerQuestion(qs: seq<Question>, m: AnswerMap)
    requires DistinctIds(qs)
    ensures OncePerQuestion(FormatAnswers(qs, m))
  {
    if qs != [] {
      var rest := FormatAnswers(qs[1..], m);
      FormatAnswersOncePerQuestion(qs[1..], m);
      LaterAnswersOtherQuestions(qs, m);
      var head := if qs[0].id in m && Truthy(m[qs[0].id]) then [FormatOne(qs[0], m[qs[0].id])] else [];
      assert FormatAnswers(qs, m) == head + rest;
      OncePerQuestionCons(head, rest, qs[0].id);
    }
  }

  /** With distinct ids, the answers formatted for the later questions are not to the first one. */
  lemma LaterAnswersOtherQuestions(qs: seq<Question>, m: AnswerMap)
    requires DistinctIds(qs) && qs != []
    ensures forall a :: a in FormatAnswers(qs[1..], m) ==> a.question != qs[0].id
  {
    forall a | a in FormatAnswers(qs[1..], m) ensures a.question != qs[0].id {
      var q :| q in qs[1..] && q.id in m && Truthy(m[q.id]) && a == FormatOne(q, m[q.id]);
      var k :| 0 <= k < |qs[1..]| && qs[1..][k] == q;
      assert qs[k + 1] == q;
    }
  }

  /** At most one answer to a question none of the others answers keeps the payload once per question. */
  lemma OncePerQuestionCons(head: seq<PostedAnswer>, rest: seq<PostedAnswer>, id: nat)
    requires |head| <= 1 && (|head| == 1 ==> head[0].question == id)
    requires OncePerQuestion(rest) && forall a :: a in rest ==> a.question != id
    ensures OncePerQuestion(head + rest)
  {
    var answers := head + rest;
    forall i, j | 0 <= i < j < |answers| ensures answers[i].question != answers[j].question {
      if i < |head| {
        assert answers[j] == rest[j - |head|];
        assert answers[j] in rest;
      } else {
        assert answers[i] == rest[i - |head|] && answers[j] == rest[j - |head|];
      }
    }
  }

  /** A required question's valid entry is posted as it stands, in a form the server's content check accepts. */
  lemma ValidContentFormats(q: Question, v: AnswerValue)
    requires ValidContent(q, v)
    ensures Truthy(v)
    ensures q.questionType == Text ==>
              FormatOne(q, v).textAnswer == Sent(v.text) && !IsBlank(v.text)
    ensures q.questionType == MultipleChoice ==>
              FormatOne(q, v).selectedChoices == Sent(v.choices.value) && |v.choices.value| > 0
    ensures q.questionType == SingleChoice ==>
              FormatOne(q, v).selectedChoices == Sent([v.choice.value])
  {
  }

  // ---------------------------------------------------------------------------
  // Submitting
  // ---------------------------------------------------------------------------

  datatype SubmitOutcome =
    | FieldErrors(errors: map<nat, string>)
    | GeneralError(message: string)
    | Posted(answers: seq<PostedAnswer>)

  /** `handleSubmit` up to the post: presence errors alone, then content errors alone, then the payload. */
  function Submit(qs: seq<Question>, m: AnswerMap): SubmitOutcome {
    var missing := MissingRequired(qs, m);
    if |missing| > 0 then FieldErrors(ErrorsFor(missing, RequiredMessage))
    else if AnyTrimThrows(qs, m) then GeneralError(SubmitFailedMessage)
    else
      var invalid := InvalidAnswers(qs, m);
      if |invalid| > 0 then FieldErrors(ErrorsFor(invalid, InvalidMessage))
      else Posted(FormatAnswers(qs, m))
  }

  /** Every required question has an entry with the content its type needs. */
  predicate AllRequiredValid(qs: seq<Question>, m: AnswerMap) {
    forall q :: q in qs && q.required ==> q.id in m && ValidContent(q, m[q.id])
  }

  /** The form posts exactly when every required question has valid content; optional ones never matter. */
  lemma PostsIffRequiredValid(qs: seq<Question>, m: AnswerMap)
    ensures Submit(qs, m).Posted? <==> AllRequiredValid(qs, m)
  {
    var missing := MissingRequired(qs, m);
    var invalid := InvalidAnswers(qs, m);
    if AllRequiredValid(qs, m) {
      assert !AnyTrimThrows(qs, m);
    } else {
      var q :| q in qs && q.required && !(q.id in m && ValidContent(q, m[q.id]));
      if q.id !in m {
        assert q in missing;
      } else {
        assert q in invalid;
      }
    }
  }

  /** Whatever an optional question holds, it does not decide whether the form posts. */
  lemma OptionalAnswerIgnored(qs: seq<Question>, m: AnswerMap, qid: nat, v: AnswerValue)
    requires forall q :: q in qs && q.id == qid ==> !q.required
    ensures Submit(qs, m[qid := v]).Posted? <==> Submit(qs, m).Posted?
  {
    PostsIffRequiredValid(qs, m);
    PostsIffRequiredValid(qs, m[qid := v]);
  }

  /**
   * A missing required question stops the submission with "This field is required" for
   * each missing question and nothing else: content errors are not reported with them.
   */
  lemma PresenceErrorsAlone(qs: seq<Question>, m: AnswerMap)
    requires exists q :: q in qs && q.required && q.id !in m
    ensures Submit(qs, m).FieldErrors?
    ensures forall id :: id in Submit(qs, m).errors <==> exists q :: q in qs && q.required && q.id !in m && q.id == id
    ensures forall id :: id in Submit(qs, m).errors ==> Submit(qs, m).errors[id] == RequiredMessage
  {
    var q :| q in qs && q.required && q.id !in m;
    assert q in MissingRequired(qs, m);
  }

  /** A posted payload answers every required question, and only questions of the survey. */
  lemma PostedPayloadCoversRequired(qs: seq<Question>, m: AnswerMap)
    requires Submit(qs, m).Posted?
    ensures forall q :: q in qs && q.required ==> FormatOne(q, m[q.id]) in Submit(qs, m).answers
    ensures forall a :: a in Submit(qs, m).answers ==> exists q :: q in qs && q.id == a.question
  {
    PostsIffRequiredValid(qs, m);
    forall q | q in qs && q.required ensures FormatOne(q, m[q.id]) in Submit(qs, m).answers {
      ValidContentFormats(q, m[q.id]);
    }
  }

  // ---------------------------------------------------------------------------
  // Displaying a rejected post
  // ---------------------------------------------------------------------------

  const QuestionKeyPrefix := "question_"

  /** An error body: its keys in order, each with its message. */
  type ErrorBody = seq<(string, string)>

  /** `errorData[key]`: the value of the last occurrence of the key. */
  function BodyValue(body: ErrorBody, key: string): (r: Option<string>)
    ensures r.None? <==> forall i :: 0 <= i < |body| ==> body[i].0 != key
  {
    if body == [] then None
    else if body[|body| - 1].0 == key then Some(body[|body| - 1].1)
    else BodyValue(body[..|body| - 1], key)
  }

  /** `key.split('_')[1]` of a `question_` key, which always has a second field. */
  function IdField(key: string): string
    requires |QuestionKeyPrefix| <= |key| && key[..|QuestionKeyPrefix|] == QuestionKeyPrefix
  {
    var fields := Split(key, '_');
    assert key == "question" + "_" + key[|QuestionKeyPrefix|..];
    SplitCons("question", '_', key[|QuestionKeyPrefix|..]);
    fields[1]
  }

  predicate IsQuestionKey(key: string) {
    |QuestionKeyPrefix| <= |key| && key[..|QuestionKeyPrefix|] == QuestionKeyPrefix
  }

  /** The field errors of a 400 body: each `question_<id>` key's message under `<id>`; a later key wins. */
  function QuestionErrors(body: ErrorBody): (errors: map<string, string>)
    ensures forall k :: k in errors <==> exists i :: 0 <= i < |body| && IsQuestionKey(body[i].0) && IdField(body[i].0) == k
    ensures forall k :: k in errors ==>
              exists i :: 0 <= i < |body| && IsQuestionKey(body[i].0) && IdField(body[i].0) == k && errors[k] == body[i].1
  {
    if body == [] then map[]
    else
      var last := body[|body| - 1];
      var earlier := QuestionErrors(body[..|body| - 1]);
      assert forall i :: 0 <= i < |body| - 1 ==> body[..|body| - 1][i] == body[i];
      if IsQuestionKey(last.0) then earlier[IdField(last.0) := last.1] else earlier
  }

  /** The `Object.keys(errorData).forEach` loop. */
  method MapQuestionErrors(body: ErrorBody) returns (errors: map<string, string>)
    ensures errors == QuestionErrors(body)
  {
    errors := map[];
    for i := 0 to |body|
      invariant errors == QuestionErrors(body[..i])
    {
      assert body[..i + 1][..i] == body[..i];
      if IsQuestionKey(body[i].0) {
        errors := errors[IdField(body[i].0) := body[i].1];
      }
    }
    assert body[..|body|] == body;
  }

  datatype ErrorDisplay =
    | ShowFieldErrors(fieldErrors: map<string, string>)
    | ShowError(message: string)

  /** The catch branch of `handleSubmit`: a 400 shows its `detail` or its per-question messages; anything else a fixed message. */
  function DisplayRejection(status: int, body: ErrorBody): ErrorDisplay {
    if status == 400 then
      match BodyValue(body, "detail")
      case Some(d) => if d != "" then ShowError(d) else ShowFieldErrors(QuestionErrors(body))
      case None => ShowFieldErrors(QuestionErrors(body))
    else ShowError(SubmitFailedMessage)
  }

  /** The key `question_<id>` names the question's id again once split at its underscore. */
  lemma QuestionKeyNamesId(id: nat)
    ensures IsQuestionKey(QuestionKeyPrefix + DecimalString(id))
    ensures IdField(QuestionKeyPrefix + DecimalString(id)) == DecimalString(id)
  {
    var key := QuestionKeyPrefix + DecimalString(id);
    assert key[..|QuestionKeyPrefix|] == QuestionKeyPrefix;
    assert key == Join(["question", DecimalString(id)], "_");
    assert '_' !in DecimalString(id);
    SplitJoin(["question", DecimalString(id)], '_');
  }
}

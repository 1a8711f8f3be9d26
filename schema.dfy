/**
 * The survey records as the store returns them: a survey's questions with their choices,
 * and the responses with their answers. Identifiers are the store's positive integers.
 */
module Schema {
  import opened Wrappers

  /** `question_type`: one of 'text', 'single_choice', 'multiple_choice'. */
  datatype QuestionType = Text | SingleChoice | MultipleChoice

  predicate IsChoiceType(t: QuestionType) {
    t == SingleChoice || t == MultipleChoice
  }

  datatype Choice = Choice(id: nat, text: string)

  datatype Question = Question(
    id: nat,
    text: string,
    questionType: QuestionType,
    required: bool,
    choices: seq<Choice>)

  /** One answer of a stored response; either field may be absent. */
  datatype Answer = Answer(question: nat, textAnswer: Option<string>, selectedChoices: Option<seq<nat>>)

  datatype Response = Response(id: nat, answers: seq<Answer>)

  /** A field of a posted JSON object: left out, sent as `null`, or sent with a value. */
  datatype Field<T> = Absent | Null | Sent(value: T)

  /** One answer object of a posted response, as the endpoint receives it. */
  datatype PostedAnswer = PostedAnswer(question: nat, textAnswer: Field<string>, selectedChoices: Field<seq<nat>>)

  /** The questions of a survey have distinct ids, as the store's keys do. */
  predicate DistinctIds(qs: seq<Question>) {
    forall i, j :: 0 <= i < j < |qs| ==> qs[i].id != qs[j].id
  }

  /** `answers.find(a => a.question === qid)`: the first answer to the question, if any. */
  function FindAnswer(answers: seq<Answer>, qid: nat): (r: Option<Answer>)
    ensures r.None? <==> forall k :: 0 <= k < |answers| ==> answers[k].question != qid
    ensures r.Some? ==> exists k :: 0 <= k < |answers| && answers[k] == r.value && answers[k].question == qid
                                    && forall j :: 0 <= j < k ==> answers[j].question != qid
  {
    if answers == [] then None
    else if answers[0].question == qid then Some(answers[0])
    else
      var r := FindAnswer(answers[1..], qid);
      assert r.Some? ==> exists k :: 1 <= k < |answers| && answers[k] == r.value && answers[k].question == qid
                                     && forall j :: 0 <= j < k ==> answers[j].question != qid by {
        if r.Some? {
          var k :| 0 <= k < |answers[1..]| && answers[1..][k] == r.value && answers[1..][k].question == qid
                   && forall j :: 0 <= j < k ==> answers[1..][j].question != qid;
          assert answers[k + 1] == r.value;
          assert forall j :: 1 <= j < k + 1 ==> answers[j].question != qid by {
            forall j | 1 <= j < k + 1 ensures answers[j].question != qid {
              assert answers[j] == answers[1..][j - 1];
            }
          }
        }
      }
      r
  }

  /** `choices.find(c => c.id === id)`: the first choice with the id, if any. */
  function FindChoice(choices: seq<Choice>, id: nat): (r: Option<Choice>)
    ensures r.None? <==> forall k :: 0 <= k < |choices| ==> choices[k].id != id
    ensures r.Some? ==> r.value in choices && r.value.id == id
  {
    if choices == [] then None
    else if choices[0].id == id then Some(choices[0])
    else FindChoice(choices[1..], id)
  }

  /** `a.text_answer` is truthy: present and non-empty. */
  predicate HasText(a: Answer) {
    a.textAnswer.Some? && a.textAnswer.value != ""
  }

  /** The ids of a question's choices. */
  function ChoiceIds(q: Question): set<nat> {
    set c | c in q.choices :: c.id
  }
}

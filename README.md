# Survey pipeline — a Dafny model

This project models the survey pipeline of a survey platform: a React front end plus a Django REST back end.

- **Author side.** An author edits a survey in the editor page (`SurveyEdit`). The page checks the draft and sends it to replace the stored survey.
- **Respondent side.**
  - A respondent fills in the answer form (`SurveyResponse`). The form checks which required questions are present, then checks their content, and posts the answers.
  - The server (`SurveyResponseViewSet.create`) runs its own organisation gate, presence check and content check before it stores the response.
- **Results page** (`SurveyResponses`):
  - tallies the choices of each question;
  - renders the table of responses;
  - writes the CSV export.
- **Access rules** (`SurveyViewSet`). The same views decide who may list, edit and open a survey.
- **Spreadsheet analyser** (`SurveyAnalyzer` and `PlotDataView`/`GroupByView`). A smaller second part:
  - the page checks a plot before requesting it;
  - the server checks the request against the uploaded table's columns and shapes the traces of each plot type;
  - group counts are computed per column.

Each module follows one source file:

| file | module | models |
|---|---|---|
| `wrappers.dfy` | `Wrappers` | `Option` |
| `strings.dfy` | `Strings` | `join`, `split`, `trim`/`strip`, decimal rendering of ids |
| `schema.dfy` | `Schema` | the stored survey and response records, `find` on answers and choices |
| `aggregation.dfy` | `Aggregation` | `calculateQuestionStats` |
| `export.dfy` | `Export`, `ExportExamples` | the table cell, the CSV export, a CSV reader used to state what the export means, and concrete exports |
| `respondent.dfy` | `Respondent` | the answer form: its input handlers, its two validation passes, the answer payload, and the mapping of the server's errors |
| `submission.dfy` | `Submission` | the server side of a response (`create`), the survey listing, editing and organisation views |
| `protocol.dfy` | `Protocol` | the answer form against the server: what is posted is accepted, and what is refused is shown |
| `editor.dfy` | `Editor` | the survey editor: loading, list edits, validation, payload |
| `plot_service.dfy` | `PlotService` | the analyser's plot and group-by views |
| `plot_requests.dfy` | `PlotRequests` | the analyser page: plot drafts, checks and guards, and the page against the server |

State that the source changes in place is modelled as a class:

- the response store is `Submission.ResponseStore`;
- the editor's survey state is `Editor.SurveyEditor`;
- the analyser page's state is `PlotRequests.Analyzer`.

Pure logic is modelled as functions with lemmas. Loops of the source are methods with loop invariants, each proved equal to a specification function. Those methods are:

- the choice tally;
- the error maps;
- the content check;
- the editor's validation;
- the trace loop;
- the group-by loop.

Network replies, tokens and storage outcomes are parameters.

### Behaviour modelled as the code has it

The model follows the code, including these behaviours:

- **Unknown choice ids in the tally.** Selected choice ids that are not among the question's current choices are dropped from the counts and from `total`, not counted (`Aggregation.UnknownSelectionsIgnored`).
- **Optional questions.** They are never content-checked, on either side. An empty answer to an optional question is posted and accepted (`Respondent.OptionalAnswerIgnored`).
- **Presence errors.** The answer form stops at presence errors. Content errors are shown only once no required question is missing (`Respondent.PresenceErrorsAlone`).
- **The server's content check.** It returns at the first failing answer (`Submission.CheckContent`). The presence check reports every missing question at once.
- **CSV escaping.**
  - Text answers are quoted with doubled quotes.
  - Header cells and choice cells are written without escaping.
  - A comma in a question text therefore shifts the header (`ExportExamples.CommaInQuestionShiftsHeader`).
  - A quote in a choice text makes the export unreadable (`ExportExamples.QuoteInChoiceBreaksExport`).
- **Dead 403 on edit.** The edit views' 403 cannot happen. `get_object` looks the survey up among the user's visible surveys, so a non-creator non-staff user gets 404 first (`Submission.UpdateNeverForbidden`).
- **Dead 401 in `create`.** The view's own 401 in `create` is reached only for an anonymous user. The permission class already refuses those, and the model gives them 401 at the gate.
- **Box plots.** The page lets a box plot through without an x axis, but the server requires one. The page also keeps y axes on a pie chart that the server refuses (`PlotRequests.BoxWithoutXRefused`, `PlotRequests.PieWithSeveralYRefused`).
- **Whitespace.** The form trims with JavaScript's whitespace and the server strips with Python's. A required text made only of an information separator such as U+001F passes the form and is refused by the server (`Protocol.SeparatorPostedThenRefused`).
- **Partial writes.** `create` writes the response before its answers and does not roll back. A selected choice that no longer exists, for example one deleted by an edit after the form loaded, gets a 400 with the database's message. The response and the answers written so far stay (`Protocol.DeletedChoiceLeavesPartialResponse`).
- **Null text.** A required text sent as null makes `strip` raise. The 400 then carries the exception's message as its `detail`, not the field message (`Submission.CheckAnswer`).
- **Missing cells in group counts.** `read_csv` reads empty cells and markers such as `NA` as missing, and `groupby` leaves them out (`PlotService.GroupCounts`).
- **Heatmaps.** A heatmap with more than two y axes is refused by the page only. The server draws the first two (`PlotRequests.HeatmapLimitOnlyOnPage`, `PlotService.HeatmapUsesFirstTwoAxes`).

The survey detail view the answer form loads from does not send the `required` flag. As deployed, the form's own checks therefore see no required question, and the server's checks decide. The model takes the flag as given, so it covers both cases.

## Model

| member | source | states |
|---|---|---|
| `Strings.TrimStart` | FrontEnd/src/pages/surveys/SurveyEdit.jsx:120 | The result is a suffix of the input, starts with a non-space, and everything dropped is JavaScript whitespace. |
| `Strings.TrimEnd` | FrontEnd/src/pages/surveys/SurveyEdit.jsx:120 | The result is a prefix of the input, ends with a non-space, and everything dropped is JavaScript whitespace. |
| `Strings.TrimEmptyIffBlank` | FrontEnd/src/pages/surveys/SurveyEdit.jsx:120 | `!s.trim()` holds exactly when the string is empty or all whitespace. |
| `Strings.BlanksDiffer` | BackEnd/jigyasa/views.py:250 | Python's `strip` and JavaScript's `trim` disagree both ways: U+001F is blank only to Python, U+FEFF only to JavaScript. |
| `Strings.Join` | FrontEnd/src/pages/surveys/SurveyResponses.jsx:136 | The joined length is the parts' lengths plus one separator between each pair. |
| `Strings.Split` | FrontEnd/src/pages/surveys/SurveyResponse.jsx:210 | Splitting always gives at least one field, and no field contains the separator. |
| `Strings.DecimalString` | FrontEnd/src/pages/surveys/SurveyResponses.jsx:157 | An id renders as a non-empty string of decimal digits. |
| `Strings.DecimalRoundTrip` | FrontEnd/src/pages/surveys/SurveyResponses.jsx:157 | Reading a rendered id back gives the id. |
| `Strings.DecimalStringInjective` | BackEnd/jigyasa/views.py:237 | Distinct ids render as distinct strings, so `question_<id>` keys do not collide. |
| `Schema.FindAnswer` | FrontEnd/src/pages/surveys/SurveyResponses.jsx:98 | `find` gives the first answer to the question, or none exactly when no answer is to it. |
| `Schema.FindChoice` | FrontEnd/src/pages/surveys/SurveyResponses.jsx:149 | `find` gives a choice of the list with that id, or none exactly when no choice has it. |
| `Aggregation.ListedChoices` | FrontEnd/src/pages/surveys/SurveyResponses.jsx:112-116 | Listed choices follow the question's choices in order, each with its id, text and count. |
| `Aggregation.SumCountsIsTallied` | FrontEnd/src/pages/surveys/SurveyResponses.jsx:97-117 | The sum of the per-choice counts equals the number of known selections over all responses. |
| `Aggregation.StatsOfNoResponses` | FrontEnd/src/pages/surveys/SurveyResponses.jsx:84-118 | With no responses every total and every choice count is 0. |
| `Aggregation.ChoiceCountAppend` | FrontEnd/src/pages/surveys/SurveyResponses.jsx:97-108 | A further response adds its selections of a choice to that choice's count. |
| `Aggregation.UnknownSelectionsIgnored` | FrontEnd/src/pages/surveys/SurveyResponses.jsx:101-105 | A response whose selections all name ids outside the question's choices changes no known choice's count and not the total. |
| `Aggregation.TextTotalAtMostResponses` | FrontEnd/src/pages/surveys/SurveyResponses.jsx:84-90 | A text question's total is at most the number of responses, and equals it exactly when every response answers it with text. |
| `Aggregation.TotalIsSumOfCounts` | FrontEnd/src/pages/surveys/SurveyResponses.jsx:117 | For a choice question with distinct choice ids, `total` is the sum of the listed counts. |
| `Aggregation.TallyChoices` | FrontEnd/src/pages/surveys/SurveyResponses.jsx:92-108 | The count map has exactly the question's choice ids as keys, each with the number of selections of that id. |
| `Aggregation.ZeroCounts` | FrontEnd/src/pages/surveys/SurveyResponses.jsx:92-95 | The map starts with exactly the question's choice ids, each at 0. |
| `Aggregation.CountSelections` | FrontEnd/src/pages/surveys/SurveyResponses.jsx:100-106 | Each counted id gains its number of occurrences in the selection; the keys stay the same, so unknown ids are passed over. |
| `Aggregation.SumOfCounts` | FrontEnd/src/pages/surveys/SurveyResponses.jsx:117 | The reduce over the count map is the sum of the counts. |
| `Aggregation.QuestionStatsOf` | FrontEnd/src/pages/surveys/SurveyResponses.jsx:84-118 | One question's stats equal the declarative statistics: text total, or listed choices with counts and total. |
| `Aggregation.CalculateQuestionStats` | FrontEnd/src/pages/surveys/SurveyResponses.jsx:64-125 | Without questions or responses nothing is computed. Otherwise there is one entry per question id, the last question with an id deciding its entry. |
| `Export.DoubleQuotes` | FrontEnd/src/pages/surveys/SurveyResponses.jsx:146 | A text without quotes is left unchanged by the escaping. |
| `Export.QuoteRoundTrip` | FrontEnd/src/pages/surveys/SurveyResponses.jsx:146 | A quoted text cell unquotes to the original answer. |
| `Export.ResolveChoices` | FrontEnd/src/pages/surveys/SurveyResponses.jsx:148-151 | Each selected id becomes its choice's text; unknown ids and empty texts are dropped. No more texts than ids. |
| `Export.ResolveChoicesAppend` | FrontEnd/src/pages/surveys/SurveyResponses.jsx:148-151 | Resolving two runs of selected ids one after the other gives the two runs' texts one after the other, so the texts keep the order of the selections. |
| `Export.ResolveChoicesOne` | FrontEnd/src/pages/surveys/SurveyResponses.jsx:148-151 | One selected id gives exactly its choice's text when the choice exists and its text is non-empty, and nothing otherwise. |
| `Export.ResolveKnownChoices` | FrontEnd/src/pages/surveys/SurveyResponses.jsx:148-151 | When every id names a choice with text, nothing is dropped. |
| `Export.CellsAgree` | FrontEnd/src/pages/surveys/SurveyResponses.jsx:141-154 | The CSV cell is the table cell quoted; an unanswered question is empty in the CSV and "No answer provided" in the table. |
| `Export.TableCell` | FrontEnd/src/pages/surveys/SurveyResponses.jsx:260-275 | The table view's cell; `Export.CellsAgree` proves it is the CSV cell unquoted, and the sentinel exactly where the CSV cell is empty for lack of an answer. |
| `Export.CsvCell` | FrontEnd/src/pages/surveys/SurveyResponses.jsx:141-154 | The export's cell; `Export.CsvCellWritesTableCell` proves it is a readable field whose value is the table cell. |
| `Export.QuestionTexts` | FrontEnd/src/pages/surveys/SurveyResponses.jsx:136 | One header text per question, in order. |
| `Export.RowCells` | FrontEnd/src/pages/surveys/SurveyResponses.jsx:141-155 | One cell per question, in order. |
| `Export.CsvLines` | FrontEnd/src/pages/surveys/SurveyResponses.jsx:136-158 | The header line first, then one line per response in order. |
| `Export.ExportCsv` | FrontEnd/src/pages/surveys/SurveyResponses.jsx:132-161 | Nothing is exported without responses, and something is with one or more; `Export.RoundTrip` proves what a reader gets back. |
| `Export.CsvCellWritesTableCell` | FrontEnd/src/pages/surveys/SurveyResponses.jsx:141-154 | With quote-free choice texts, every CSV cell is a readable field whose value is the table cell, or empty when unanswered. |
| `Export.IdWritable` | FrontEnd/src/pages/surveys/SurveyResponses.jsx:157 | A response id is a readable plain field. |
| `Export.RowFieldsWritable` | FrontEnd/src/pages/surveys/SurveyResponses.jsx:139-158 | With quote-free choice texts, every field of a row is readable. |
| `Export.HeaderFieldsWritable` | FrontEnd/src/pages/surveys/SurveyResponses.jsx:136 | With delimiter-free question texts, every header field is readable. |
| `Export.RoundTrip` | FrontEnd/src/pages/surveys/SurveyResponses.jsx:132-161 | Given at least one question and one response, no delimiters in question texts and no quotes in choice texts, a CSV reader gets back the header and, per response, its id and its table cells (empty when unanswered). |
| `ExportExamples.QuoteInChoiceBreaksExport` | FrontEnd/src/pages/surveys/SurveyResponses.jsx:152 | A choice text holding a quote produces an export that no longer reads. |
| `ExportExamples.OneResponseExport` | FrontEnd/src/pages/surveys/SurveyResponses.jsx:161 | One response exports as the header, a line break and its line. |
| `ExportExamples.ChoiceCellWithQuote` | FrontEnd/src/pages/surveys/SurveyResponses.jsx:152 | A selected choice with text `a"b` is written as `"a"b"`. |
| `ExportExamples.CommaInQuestionShiftsHeader` | FrontEnd/src/pages/surveys/SurveyResponses.jsx:136 | A question text `a,b` makes the header read as three columns while rows have two. |
| `Respondent.SetText` | FrontEnd/src/pages/surveys/SurveyResponse.jsx:77-82 | Typing sets that question's entry to the text and changes no other entry. |
| `Respondent.Remove` | FrontEnd/src/pages/surveys/SurveyResponse.jsx:91 | The filter keeps exactly the other ids. |
| `Respondent.ToggleChoice` | FrontEnd/src/pages/surveys/SurveyResponse.jsx:85-94 | A checkbox click flips that choice's checked state, keeps the others and the radio choice, and changes no other question. |
| `Respondent.SelectChoice` | FrontEnd/src/pages/surveys/SurveyResponse.jsx:95-101 | A radio click replaces the entry with that single choice and changes no other question. |
| `Respondent.SelectChecksOnlyOne` | FrontEnd/src/pages/surveys/SurveyResponse.jsx:95-101 | After a radio click exactly the clicked choice is checked. |
| `Respondent.RemoveKeepsDistinct` | FrontEnd/src/pages/surveys/SurveyResponse.jsx:91 | Filtering keeps a list free of repeats. |
| `Respondent.ToggleTwice` | FrontEnd/src/pages/surveys/SurveyResponse.jsx:90-92 | Clicking an unchecked box twice restores the list. |
| `Respondent.ToggleKeepsDistinct` | FrontEnd/src/pages/surveys/SurveyResponse.jsx:90-92 | Clicking never makes a choice appear twice. |
| `Respondent.MissingRequired` | FrontEnd/src/pages/surveys/SurveyResponse.jsx:113-116 | Exactly the required questions without an entry, and none exactly when every required question has one. |
| `Respondent.InvalidAnswers` | FrontEnd/src/pages/surveys/SurveyResponse.jsx:129-143 | Exactly the required questions whose entry is missing, falsy or without valid content for the type, and none exactly when all required answers are valid. |
| `Respondent.ErrorsFor` | FrontEnd/src/pages/surveys/SurveyResponse.jsx:119-122 | One error per listed question id, all with the same message. |
| `Respondent.BuildErrors` | FrontEnd/src/pages/surveys/SurveyResponse.jsx:119-122 | The `forEach` builds exactly that error map. |
| `Respondent.FormatOne` | FrontEnd/src/pages/surveys/SurveyResponse.jsx:156-172 | The answer names its question and never sends null; a text question sends no choices and a choice question no text. |
| `Respondent.FormatAnswers` | FrontEnd/src/pages/surveys/SurveyResponse.jsx:156-173 | The payload holds a formatted answer for exactly the questions with a truthy entry, and no more answers than questions. |
| `Respondent.FormatAnswersOne` | FrontEnd/src/pages/surveys/SurveyResponse.jsx:157-158 | One question gives its formatted answer when its entry is truthy and nothing otherwise. |
| `Respondent.FormatAnswersAppend` | FrontEnd/src/pages/surveys/SurveyResponse.jsx:156-173 | The payload follows the survey's order: two runs of questions give their payloads one after the other. |
| `Respondent.FormatAnswersOncePerQuestion` | FrontEnd/src/pages/surveys/SurveyResponse.jsx:156-173 | With distinct question ids, no two answers of the payload are to the same question. |
| `Respondent.ValidContentFormats` | FrontEnd/src/pages/surveys/SurveyResponse.jsx:135-170 | A valid entry is posted as it stands: its non-blank text, its non-empty choice list, or its radio choice as a one-element list. |
| `Respondent.PostsIffRequiredValid` | FrontEnd/src/pages/surveys/SurveyResponse.jsx:113-192 | The form posts exactly when every required question has a valid answer. |
| `Respondent.Submit` | FrontEnd/src/pages/surveys/SurveyResponse.jsx:113-192 | `handleSubmit` up to the post; `Respondent.PostsIffRequiredValid`, `Respondent.PresenceErrorsAlone` and `Respondent.PostedPayloadCoversRequired` prove when it posts, which errors it shows and what it posts. |
| `Respondent.DisplayRejection` | FrontEnd/src/pages/surveys/SurveyResponse.jsx:199-217 | How a refusal is shown; `Protocol.MissingReplyShownPerQuestion`, `Protocol.ContentRejectionShown` and `Protocol.RefusalShownAsFailure` prove what each server refusal becomes on the page. |
| `Respondent.OptionalAnswerIgnored` | FrontEnd/src/pages/surveys/SurveyResponse.jsx:113-143 | Changing an optional question's entry never changes whether the form posts. |
| `Respondent.PresenceErrorsAlone` | FrontEnd/src/pages/surveys/SurveyResponse.jsx:118-126 | With a required question missing, only "This field is required" errors are shown, one per missing question. |
| `Respondent.PostedPayloadCoversRequired` | FrontEnd/src/pages/surveys/SurveyResponse.jsx:156-173 | A posted payload holds an answer for every required question and none for a question outside the survey. |
| `Respondent.QuestionErrors` | FrontEnd/src/pages/surveys/SurveyResponse.jsx:207-214 | Exactly the `question_` keys contribute, each keyed by its id field and holding that key's value. |
| `Respondent.MapQuestionErrors` | FrontEnd/src/pages/surveys/SurveyResponse.jsx:207-214 | The loop builds exactly that map. |
| `Respondent.QuestionKeyNamesId` | FrontEnd/src/pages/surveys/SurveyResponse.jsx:209-210 | `question_<id>` is a question key whose id field is the id. |
| `Submission.FindSurvey` | BackEnd/jigyasa/views.py:205 | The survey with the id, or none exactly when no survey has it. |
| `Submission.FindQuestion` | BackEnd/jigyasa/views.py:246 | The survey's question with the id, or none exactly when the survey has none. |
| `Submission.OrgGate` | BackEnd/jigyasa/views.py:208-220 | A survey requiring an organisation refuses an anonymous user with 401 and an outsider with 403; otherwise it admits. |
| `Submission.NoOrganizationShutsOut` | BackEnd/jigyasa/views.py:216 | A survey requiring an organisation but assigned none admits nobody. |
| `Submission.MissingRequired` | BackEnd/jigyasa/views.py:230-234 | Exactly the required questions no submitted answer names, and none exactly when every required question is named. |
| `Submission.MissingErrors` | BackEnd/jigyasa/views.py:235-237 | One `question_<id>: This field is required` entry per missing question, in order. |
| `Submission.BuildMissingErrors` | BackEnd/jigyasa/views.py:235-237 | The loop builds exactly those entries. |
| `Submission.CheckAnswer` | BackEnd/jigyasa/views.py:244-261 | An answer passes exactly when its question is in the survey and, if required, a text question has sent text that is not blank to Python and a choice question a non-empty list. Failures are 400: a `detail` exactly for an unknown question or a null text, otherwise the answer's `question_<id>` key. |
| `Submission.FirstContentError` | BackEnd/jigyasa/views.py:244-261 | No error exactly when every answer passes; otherwise the error of the first failing answer in submission order. |
| `Submission.CheckContent` | BackEnd/jigyasa/views.py:244-261 | The loop returns the first failing answer's error, in submission order. |
| `Submission.CheckRequest` | BackEnd/jigyasa/views.py:202-261 | The checks of `create` in order; `Submission.CheckCreateRequest` computes it step by step and `Protocol.PostedFormIsRecorded` proves that a payload the form posts passes it. |
| `Submission.CreateReply` | BackEnd/jigyasa/views.py:202-290 | The reply of `create`; `Submission.ResponseStore.Create` returns it, and `Submission.MissingReplyNamesEachQuestion` and `Protocol.RefusalShownAsFailure` prove its 400, 403 and 404 cases. |
| `Submission.CheckCreateRequest` | BackEnd/jigyasa/views.py:202-261 | The checks run in the view's order and give `CheckRequest`: 401, 404, the organisation gate, missing answers, then the first content error. |
| `Submission.FirstDangling` | BackEnd/jigyasa/views.py:276-277 | None exactly when every sent choice id names a stored choice; otherwise the first answer with one that does not. |
| `Submission.WrittenAnswers` | BackEnd/jigyasa/views.py:263-277 | One record per answer up to and including the first whose choices cannot be linked, each for its question with its sent text; every linked choice is a stored one. |
| `Submission.ResponseStore.WriteAnswers` | BackEnd/jigyasa/views.py:265-277 | The loop appends exactly `WrittenAnswers` and reports whether every answer's choices were linked. |
| `Submission.StoredAnswers` | BackEnd/jigyasa/views.py:265-277 | One stored answer per submitted entry, in order. |
| `Submission.ResponseStore.Create` | BackEnd/jigyasa/views.py:202-290 | The reply is `CreateReply`: a check's 401/404/403/400, a 400 with the database's message when a choice cannot be linked, or 201. Once the checks pass, one response and its `WrittenAnswers` are added, even when the link fails; otherwise nothing changes. |
| `Submission.AcceptedAnswersEveryRequired` | BackEnd/jigyasa/views.py:229-277 | An accepted response names every required question, each answer passes its content check, and every answer is stored with its choices. |
| `Submission.MissingReplyNamesEachQuestion` | BackEnd/jigyasa/views.py:230-241 | An admitted request missing required questions gets 400 listing each missing question. |
| `Submission.VisibleSurveys` | BackEnd/jigyasa/views.py:97-101 | Staff see every survey; others see exactly those they created. |
| `Submission.UpdateReply` | BackEnd/jigyasa/views.py:106-122 | The reply of the edit views; `Submission.UpdateNeverForbidden` proves it is never 403 and is 200 exactly when the survey exists and the user is its creator or staff. |
| `Submission.UpdateNeverForbidden` | BackEnd/jigyasa/views.py:106-122 | Editing never answers 403; it succeeds exactly when the survey exists and the user is its creator or staff, and is 404 otherwise. |
| `Submission.OrganizationSurveys` | BackEnd/jigyasa/views.py:317-327 | 400 exactly when the user has no organisation; otherwise exactly the organisation's surveys not created by the user. |
| `Submission.OrgFilter` | BackEnd/jigyasa/views.py:325 | Exactly the surveys of the organisation not created by the user. |
| `Protocol.PostedFormIsRecorded` | BackEnd/jigyasa/views.py:229-279 | A payload the form posts, for an admitted user and a survey with distinct question ids, passes every check when no required text is blank to Python alone, and gets 201 when every choice it holds is still stored. |
| `Protocol.PayloadAnswersRequired` | BackEnd/jigyasa/views.py:230-234 | A posted payload leaves no required question missing on the server. |
| `Protocol.PayloadAnswerPasses` | BackEnd/jigyasa/views.py:244-261 | Every posted answer passes the server's content check when no required text is blank to Python alone. |
| `Protocol.PayloadChoicesLink` | BackEnd/jigyasa/views.py:276-277 | When every choice the form holds is stored, no posted answer has a choice that cannot be linked. |
| `Protocol.SeparatorPostedThenRefused` | BackEnd/jigyasa/views.py:248-253 | A required text of one U+001F passes the form and gets the server's 400 "Please provide an answer". |
| `Protocol.DeletedChoiceLeavesPartialResponse` | BackEnd/jigyasa/views.py:263-290 | A choice deleted after the form loaded passes every check, gets 400 with the database's message, and leaves the response with an answer without choices. |
| `Protocol.MissingReplyShownPerQuestion` | FrontEnd/src/pages/surveys/SurveyResponse.jsx:200-214 | The server's missing-question reply is shown as "This field is required" under each missing question. |
| `Protocol.ContentRejectionShown` | FrontEnd/src/pages/surveys/SurveyResponse.jsx:200-214 | A content rejection is shown under its question, or as the detail when the question is unknown or a required text was sent as null. |
| `Protocol.RefusalShownAsFailure` | FrontEnd/src/pages/surveys/SurveyResponse.jsx:216-217 | A 403 or 404 reply is shown as "Failed to submit response". |
| `Editor.LoadQuestion` | FrontEnd/src/pages/surveys/SurveyEdit.jsx:76-85 | A loaded question keeps its id and text, defaults its type to text, its required flag to false and its choices to none. |
| `Editor.LoadSurvey` | FrontEnd/src/pages/surveys/SurveyEdit.jsx:72-86 | The organisation id is the organisation's, `requires_organization` defaults to false, and questions load in order. |
| `Editor.RemoveAt` | FrontEnd/src/pages/surveys/SurveyEdit.jsx:250 | `splice(i, 1)` removes exactly element `i` and keeps the order of the rest; out of range it changes nothing. |
| `Editor.ApplyChange` | FrontEnd/src/pages/surveys/SurveyEdit.jsx:213-216 | Exactly the named field changes. |
| `Editor.ChoicesProblem` | FrontEnd/src/pages/surveys/SurveyEdit.jsx:148-155 | No problem exactly when every choice from here on has text; otherwise the first blank choice is named. |
| `Editor.QuestionProblem` | FrontEnd/src/pages/surveys/SurveyEdit.jsx:135-155 | No problem exactly when the question has text, a choice when its type needs one, and text in every choice. |
| `Editor.QuestionsProblem` | FrontEnd/src/pages/surveys/SurveyEdit.jsx:131-156 | No problem exactly when every question from here on is fine; otherwise the first failing question's problem. |
| `Editor.FirstProblem` | FrontEnd/src/pages/surveys/SurveyEdit.jsx:113-156 | The editor's validation; `Editor.NoProblemIffSubmittable` and `Editor.ProblemIsFirst` prove it is silent exactly for a submittable survey and otherwise names the first failing question. |
| `Editor.NoProblemIffSubmittable` | FrontEnd/src/pages/surveys/SurveyEdit.jsx:113-156 | Validation finds nothing exactly when the organisation, title and questions are all acceptable. |
| `Editor.ProblemIsFirst` | FrontEnd/src/pages/surveys/SurveyEdit.jsx:131-156 | A reported question problem belongs to the first failing question. |
| `Editor.FormatSurvey` | FrontEnd/src/pages/surveys/SurveyEdit.jsx:162-184 | The organisation id is sent only when an organisation is required; one payload question per draft question, in order. |
| `Editor.PayloadIgnoresIds` | FrontEnd/src/pages/surveys/SurveyEdit.jsx:168-183 | Drafts that differ only in question and choice ids send the same payload. |
| `Editor.EditSubmission` | FrontEnd/src/pages/surveys/SurveyEdit.jsx:107-188 | The survey is sent exactly when a token is present and the draft is acceptable, and then as the formatted payload. |
| `Editor.SurveyEditor.constructor` | FrontEnd/src/pages/surveys/SurveyEdit.jsx:9-16 | The empty draft. |
| `Editor.SurveyEditor.Load` | FrontEnd/src/pages/surveys/SurveyEdit.jsx:72-91 | The loaded survey, normalised, replaces the draft. |
| `Editor.SurveyEditor.AddQuestion` | FrontEnd/src/pages/surveys/SurveyEdit.jsx:226-246 | One blank, optional text question is appended. |
| `Editor.SurveyEditor.DeleteQuestion` | FrontEnd/src/pages/surveys/SurveyEdit.jsx:248-255 | The question at the index is removed, the rest keep their order. |
| `Editor.SurveyEditor.ChangeQuestion` | FrontEnd/src/pages/surveys/SurveyEdit.jsx:211-218 | Only the named field of the indexed question changes. |
| `Editor.SurveyEditor.ChangeChoice` | FrontEnd/src/pages/surveys/SurveyEdit.jsx:220-224 | Only the text of the indexed choice of the indexed question changes. |
| `Editor.SurveyEditor.AddChoice` | FrontEnd/src/pages/surveys/SurveyEdit.jsx:257-267 | One blank choice is appended to the indexed question. |
| `Editor.SurveyEditor.DeleteChoice` | FrontEnd/src/pages/surveys/SurveyEdit.jsx:269-276 | The choice at the index is removed from the indexed question, the rest keep their order. |
| `Editor.SurveyEditor.Validate` | FrontEnd/src/pages/surveys/SurveyEdit.jsx:113-156 | The loops report the ordered first problem: organisation, title, no questions, then per question its text, its choices, its blank choices. |
| `Editor.CheckQuestion` | FrontEnd/src/pages/surveys/SurveyEdit.jsx:132-155 | One pass of the question loop reports what `QuestionProblem` reports: blank text, then a missing choice list, then the first blank choice. |
| `Editor.SurveyEditor.Submit` | FrontEnd/src/pages/surveys/SurveyEdit.jsx:101-188 | The submit handler's outcome is `EditSubmission` of the current draft. |
| `PlotService.ColumnOf` | BackEnd/survey_analyzer/views.py:86 | A column's cells when the table has the name; none exactly when no column has it. |
| `PlotService.FindUpload` | BackEnd/survey_analyzer/views.py:77 | Only an upload with the id and owned by the user is found. |
| `PlotService.RequestProblemIffNotDrawable` | BackEnd/survey_analyzer/views.py:83-98 | The checks pass exactly when the x axis is a column, a pie has at most one y axis, and other types have y axes that are all columns. |
| `PlotService.RequestProblem` | BackEnd/survey_analyzer/views.py:83-98 | The request checks in the view's order; `PlotService.RequestProblemIffNotDrawable` proves they pass exactly for a drawable request. |
| `PlotService.TracesFor` | BackEnd/survey_analyzer/views.py:100-222 | A pie draws one trace of its x column's counts; a heatmap one trace of the first y axis's means by x, split by the second y axis when there is one; box and series plots one trace per y axis, named by it. |
| `PlotService.LayoutFor` | BackEnd/survey_analyzer/views.py:106-227 | Only heatmaps have a size and only pies lack axis titles; a heatmap's x title is its second y axis (its only one when alone) and its y title is the x axis; box plots title their axes "Variables" and "Values"; series plots the x axis and "Values". |
| `PlotService.TraceFor` | BackEnd/survey_analyzer/views.py:176-222 | A trace is named by its y column and holds its cells; only box traces have no x. |
| `PlotService.PlotData` | BackEnd/survey_analyzer/views.py:76-232 | A drawn plot comes from the user's own upload and passes the checks; refusals are 400 or 404. |
| `PlotService.BuildAxisTraces` | BackEnd/survey_analyzer/views.py:177-222 | The loops build exactly the per-axis traces. |
| `PlotService.PlotDataPost` | BackEnd/survey_analyzer/views.py:63-232 | The view's reply equals `PlotData`. |
| `PlotService.BoxTracesPerAxis` | BackEnd/survey_analyzer/views.py:176-182 | A box plot has exactly one box trace per y axis, in order, named by and holding that column, with no x. |
| `PlotService.SeriesTracesPerAxis` | BackEnd/survey_analyzer/views.py:189-228 | Scatter, bar, line and area draw one trace per y axis against the x column, with type, mode and fill fixed by the plot type. The title is the y axes joined by ", ", then " vs ", then the x axis. |
| `PlotService.HeatmapUsesFirstTwoAxes` | BackEnd/survey_analyzer/views.py:121-170 | With two or more valid y axes, the axes after the second change nothing. |
| `PlotService.HeatmapSingleAxis` | BackEnd/survey_analyzer/views.py:122-143 | With one y axis, the heatmap takes its values from it by the x rows. |
| `PlotService.GroupCounts` | BackEnd/survey_analyzer/views.py:259-260 | One entry per distinct value of the column that `read_csv` does not read as missing, holding the number of rows with that value. |
| `PlotService.AllMissingNoGroups` | BackEnd/survey_analyzer/views.py:252-260 | A column of missing cells only, like an unanswered question in the survey export, forms no group. |
| `PlotService.FirstUnknownColumn` | BackEnd/survey_analyzer/views.py:255-257 | None exactly when every requested column exists; otherwise the first missing one. |
| `PlotService.GroupBy` | BackEnd/survey_analyzer/views.py:241-266 | A grouped reply has exactly one entry per requested column. |
| `PlotService.GroupByColumns` | BackEnd/survey_analyzer/views.py:254-262 | The loop refuses at the first unknown column with no partial result; otherwise it groups every column. |
| `PlotService.GroupByPost` | BackEnd/survey_analyzer/views.py:241-266 | The view's reply equals `GroupBy`: 400 for missing parameters, 404 for a missing upload, then the column loop. |
| `PlotService.GroupByAllOrNothing` | BackEnd/survey_analyzer/views.py:254-262 | Grouping succeeds exactly when every column exists; a refusal names the first missing column. |
| `PlotRequests.ApplyEdit` | FrontEnd/src/pages/SurveyAnalyzer.jsx:45-49 | Exactly the named field (type, x axis or y axes, the three the page's controls edit) changes; title, description and drawing are kept. |
| `PlotRequests.ValidatePlot` | FrontEnd/src/pages/SurveyAnalyzer.jsx:51-91 | No type is invalid. A pie needs only an x axis; a heatmap an x axis and 1 or 2 y axes; a box at least one y axis; the other types an x axis and a y axis. |
| `PlotRequests.GenerateProblem` | FrontEnd/src/pages/SurveyAnalyzer.jsx:93-102 | A missing type or upload is refused with the guard's message before `validatePlot`; passing means both present and the plot valid. |
| `PlotRequests.Analyzer.constructor` | FrontEnd/src/pages/SurveyAnalyzer.jsx:6-14 | The empty page state. |
| `PlotRequests.Analyzer.UploadFile` | FrontEnd/src/pages/SurveyAnalyzer.jsx:16-39 | A successful upload sets the columns and upload id; a failure sets the message and keeps them. |
| `PlotRequests.Analyzer.SetDetail` | FrontEnd/src/pages/SurveyAnalyzer.jsx:236-255 | Each details input replaces its own field and nothing else. |
| `PlotRequests.Analyzer.AddPlot` | FrontEnd/src/pages/SurveyAnalyzer.jsx:41-43 | One blank plot is appended; every other field, the analysis details included, is kept. |
| `PlotRequests.Analyzer.UpdatePlot` | FrontEnd/src/pages/SurveyAnalyzer.jsx:45-49 | Only the given field of the given plot changes; the analysis details are kept. |
| `PlotRequests.Analyzer.GeneratePlot` | FrontEnd/src/pages/SurveyAnalyzer.jsx:93-134 | A refused check sets its message and sends nothing. Otherwise the plot's request is sent; a drawing is stored on that plot only, and a failure sets the server's message or the default. The analysis details are kept. |
| `PlotRequests.Analyzer.GenerateGroupBy` | FrontEnd/src/pages/SurveyAnalyzer.jsx:136-162 | Sent exactly when columns are selected and a file is uploaded; the output or the failure message follows the reply. Plots and analysis details are kept. |
| `PlotRequests.Analyzer.SaveAnalysis` | FrontEnd/src/pages/SurveyAnalyzer.jsx:164-192 | Without a title or author nothing is sent; otherwise the title, author, description and plots are sent. |
| `PlotRequests.PassedPlotIsDrawn` | BackEnd/survey_analyzer/views.py:83-98 | A plot the page lets through, on the table's columns, is drawn, except a box without x axis and a pie with several y axes. |
| `PlotRequests.BoxWithoutXRefused` | BackEnd/survey_analyzer/views.py:83-85 | A box plot without x axis passes the page and gets 400 from the server. |
| `PlotRequests.PieWithSeveralYRefused` | BackEnd/survey_analyzer/views.py:97-98 | A pie with several leftover y axes passes the page and gets 400 from the server. |
| `PlotRequests.HeatmapLimitOnlyOnPage` | FrontEnd/src/pages/SurveyAnalyzer.jsx:70-73 | A heatmap with three or more y axes is refused by the page although the server would draw it. |

## Left out

- HTTP, the ORM, `localStorage` and DRF routing are not modelled. Stored records, tokens and server replies are inputs, and the store is the `ResponseStore` sequences.
- React rendering, navigation, timers, Chart.js and Plotly widgets, and the Blob download of the CSV are UI and I/O. Only the CSV string is modelled.
- `formatDate` and the submitted-at column are left out: they depend on the locale and the clock.
- Numeric work in pandas is not modelled: value counts, pivot means, `to_numeric`, and the sort order of group keys. Pie and heatmap traces name the columns they are computed from. Group counts are a map from value to count, without the `records` ordering.
- The heatmap's pivot failure (400) and any other exception turned into 500 are not modelled. They depend on pandas parsing the file.
- The analyser's serializer is not part of this model. Plot types are assumed to be one of the seven names the page offers, and a serializer refusal is not modelled.
- `PublishAnalysisView`, the PDF export and the page's `publishAnalysis` are left out. They call foreign libraries that produce bytes.
- JavaScript's and Python's whitespace are written out from the two languages' definitions (Unicode space separators and line terminators in both, the information separators U+001C to U+001F and U+0085 for Python only, U+FEFF for JavaScript only). No other Unicode processing is modelled.
- Logging and login/registration are left out, as are the profile, notification and saved-analysis pages.
- The editor's inputs for title, description, active flag, organisation requirement and organisation choice are not modelled as methods. They assign one field of the draft each, and `Load` and the validation cover their effect.
- The editor's reply to the `PUT`, the reload after it and its error messages are left out. The model stops at the payload sent.
- Respondent.FormatOne: a single-choice entry without a choice is posted as an empty list where the page sends `[null]`. A text question holding a choice entry posts no text, which the page sends as the entry object. Both reach the server only for optional questions, which it does not check.
- Submission.CheckAnswer: choice ids are not checked to belong to the question, as in the source. A `text_answer` that is neither a string nor null (which `strip` would also reject) is not modelled. A user without a profile (which makes the source raise) is not modelled; every authenticated user has an optional organisation.
- Export.RoundTrip: stated for surveys with at least one question. With no questions a row is the id and a trailing comma, which reads as one more empty field.
- Submission.UpdateReply: the 404 detail "Not found." is the text of Django REST framework before version 3.15; later versions say "No Survey matches the given query.".
- Submission.ResponseStore.Create: the app's `models.py` is not part of this model. `text_answer` is taken to accept null, a failed choice link is taken to raise at once with its rows rolled back while earlier writes stay, and the database's message for it is a parameter.
- PlotService.TraceFor: missing cells reach the traces as their cell text, where pandas holds NaN.
- Aggregation.CalculateQuestionStats: the console warnings for unknown choice ids are not modelled.

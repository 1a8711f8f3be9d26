/**
 * Per-question statistics over a survey's responses (`calculateQuestionStats` of the
 * responses page): for a text question the number of responses that answered it with
 * text; for a choice question a count per schema choice, in schema order, and their sum.
 * Selected ids that are not among the question's choices are dropped, not counted.
 */
module Aggregation {
  import opened Wrappers
  import opened Schema

  datatype ChoiceStat = ChoiceStat(id: nat, text: string, count: nat)

  datatype QuestionStats =
    | TextStats(total: nat)
    | ChoiceStats(questionType: QuestionType, choices: seq<ChoiceStat>, total: nat)

  // ---------------------------------------------------------------------------
  // Reference definitions
  // ---------------------------------------------------------------------------

  /** The ids a response contributes to a choice question: those of its first answer to it. */
  function SelectedIds(r: Response, qid: nat): seq<nat> {
    match FindAnswer(r.answers, qid)
    case Some(a) => if a.selectedChoices.Some? then a.selectedChoices.value else []
    case None => []
  }

  /** How many times `id` occurs in `s`. */
  function Occurrences(s: seq<nat>, id: nat): nat {
    if s == [] then 0
    else Occurrences(s[..|s| - 1], id) + (if s[|s| - 1] == id then 1 else 0)
  }

  /** How many times `id` was selected for question `qid`, over all responses. */
  function ChoiceCount(rs: seq<Response>, qid: nat, id: nat): nat {
    if rs == [] then 0
    else ChoiceCount(rs[..|rs| - 1], qid, id) + Occurrences(SelectedIds(rs[|rs| - 1], qid), id)
  }

  /** How many elements of `s` are in `known`. */
  function KnownCount(s: seq<nat>, known: set<nat>): nat {
    if s == [] then 0
    else KnownCount(s[..|s| - 1], known) + (if s[|s| - 1] in known then 1 else 0)
  }

  /** How many selections for question `qid`, over all responses, name a known choice. */
  function Tallied(rs: seq<Response>, qid: nat, known: set<nat>): nat {
    if rs == [] then 0
    else Tallied(rs[..|rs| - 1], qid, known) + KnownCount(SelectedIds(rs[|rs| - 1], qid), known)
  }

  /** Some answer of the response, not necessarily the first, is to `qid` and has text. */
  predicate AnsweredWithText(r: Response, qid: nat) {
    exists a :: a in r.answers && a.question == qid && HasText(a)
  }

  /** The number of responses that answered question `qid` with text. */
  function TextTotal(rs: seq<Response>, qid: nat): nat {
    if rs == [] then 0
    else TextTotal(rs[..|rs| - 1], qid) + (if AnsweredWithText(rs[|rs| - 1], qid) then 1 else 0)
  }

  /** The question's choices, in schema order, each with its count. */
  function ListedChoices(q: Question, rs: seq<Response>): (cs: seq<ChoiceStat>)
    ensures |cs| == |q.choices|
    ensures forall k :: 0 <= k < |cs| ==>
              cs[k] == ChoiceStat(q.choices[k].id, q.choices[k].text, ChoiceCount(rs, q.id, q.choices[k].id))
  {
    seq(|q.choices|, k requires 0 <= k < |q.choices| =>
      ChoiceStat(q.choices[k].id, q.choices[k].text, ChoiceCount(rs, q.id, q.choices[k].id)))
  }

  /** The statistics record of one question. */
  function StatsFor(q: Question, rs: seq<Response>): QuestionStats {
    if q.questionType == Text then TextStats(TextTotal(rs, q.id))
    else ChoiceStats(q.questionType, ListedChoices(q, rs), Tallied(rs, q.id, ChoiceIds(q)))
  }

  /** No later question in the list has the same id, so its statistics are the ones kept. */
  predicate LastWithId(qs: seq<Question>, i: nat)
    requires i < |qs|
  {
    forall j :: i < j < |qs| ==> qs[j].id != qs[i].id
  }

  // ---------------------------------------------------------------------------
  // Distinct keys and sums over them
  // ---------------------------------------------------------------------------

  /** The ids in first-occurrence order, each once: the keys of the `choiceCounts` object. */
  function Distinct(s: seq<nat>): (d: seq<nat>)
    ensures forall x :: x in d <==> x in s
    ensures forall i, j :: 0 <= i < j < |d| ==> d[i] != d[j]
  {
    if s == [] then []
    else
      var d := Distinct(s[..|s| - 1]);
      assert s == s[..|s| - 1] + [s[|s| - 1]];
      assert forall x :: x in s <==> x in s[..|s| - 1] || x == s[|s| - 1];
      if s[|s| - 1] in d then d else d + [s[|s| - 1]]
  }

  function ChoiceIdSeq(q: Question): (ids: seq<nat>)
    ensures |ids| == |q.choices|
    ensures forall k :: 0 <= k < |ids| ==> ids[k] == q.choices[k].id
    ensures forall x :: x in ids <==> x in ChoiceIds(q)
  {
    assert forall x :: x in ChoiceIds(q) ==> exists k :: 0 <= k < |q.choices| && q.choices[k].id == x;
    seq(|q.choices|, k requires 0 <= k < |q.choices| => q.choices[k].id)
  }

  /** The sum over the keys `d` of their counts: `Object.values(choiceCounts).reduce(+)`. */
  function SumCounts(d: seq<nat>, rs: seq<Response>, qid: nat): nat {
    if d == [] then 0 else SumCounts(d[..|d| - 1], rs, qid) + ChoiceCount(rs, qid, d[|d| - 1])
  }

  /** Sum over the keys `d` of the occurrences of each key in `s`. */
  function SumOccurrences(d: seq<nat>, s: seq<nat>): nat {
    if d == [] then 0 else SumOccurrences(d[..|d| - 1], s) + Occurrences(s, d[|d| - 1])
  }

  /** How many keys of `d` equal `x`. */
  function Hits(d: seq<nat>, x: nat): nat {
    if d == [] then 0 else Hits(d[..|d| - 1], x) + (if d[|d| - 1] == x then 1 else 0)
  }

  lemma {:induction false} HitsOfDistinct(d: seq<nat>, x: nat)
    requires forall i, j :: 0 <= i < j < |d| ==> d[i] != d[j]
    ensures Hits(d, x) == if x in d then 1 else 0
  {
    if d != [] {
      var p := d[..|d| - 1];
      HitsOfDistinct(p, x);
      assert d == p + [d[|d| - 1]];
      assert x in d <==> x in p || x == d[|d| - 1];
    }
  }

  lemma {:induction false} SumOccurrencesSnoc(d: seq<nat>, s: seq<nat>, x: nat)
    ensures SumOccurrences(d, s + [x]) == SumOccurrences(d, s) + Hits(d, x)
  {
    assert (s + [x])[..|s + [x]| - 1] == s;
    if d != [] {
      SumOccurrencesSnoc(d[..|d| - 1], s, x);
    }
  }

  /** Summing the occurrences of distinct keys counts the elements that are keys. */
  lemma {:induction false} SumOccurrencesIsKnownCount(d: seq<nat>, s: seq<nat>, known: set<nat>)
    requires forall i, j :: 0 <= i < j < |d| ==> d[i] != d[j]
    requires forall x :: x in known <==> x in d
    ensures SumOccurrences(d, s) == KnownCount(s, known)
  {
    if s == [] {
      SumOccurrencesOfEmpty(d);
    } else {
      var p, x := s[..|s| - 1], s[|s| - 1];
      assert s == p + [x];
      SumOccurrencesIsKnownCount(d, p, known);
      SumOccurrencesSnoc(d, p, x);
      HitsOfDistinct(d, x);
    }
  }

  lemma {:induction false} SumOccurrencesOfEmpty(d: seq<nat>)
    ensures SumOccurrences(d, []) == 0
  {
    if d != [] {
      SumOccurrencesOfEmpty(d[..|d| - 1]);
    }
  }

  lemma {:induction false} SumCountsSnoc(d: seq<nat>, rs: seq<Response>, r: Response, qid: nat)
    ensures SumCounts(d, rs + [r], qid) == SumCounts(d, rs, qid) + SumOccurrences(d, SelectedIds(r, qid))
  {
    assert (rs + [r])[..|rs + [r]| - 1] == rs;
    if d != [] {
      SumCountsSnoc(d[..|d| - 1], rs, r, qid);
    }
  }

  lemma {:induction false} SumCountsOfNone(d: seq<nat>, qid: nat)
    ensures SumCounts(d, [], qid) == 0
  {
    if d != [] {
      SumCountsOfNone(d[..|d| - 1], qid);
    }
  }

  /**
   * The sum of the per-choice counts is the number of selections that name a known
   * choice: unknown ids are dropped from the total just as they are from the counts.
   */
  lemma {:induction false} SumCountsIsTallied(d: seq<nat>, rs: seq<Response>, qid: nat, known: set<nat>)
    requires forall i, j :: 0 <= i < j < |d| ==> d[i] != d[j]
    requires forall x :: x in known <==> x in d
    ensures SumCounts(d, rs, qid) == Tallied(rs, qid, known)
  {
    if rs == [] {
      SumCountsOfNone(d, qid);
    } else {
      var p, r := rs[..|rs| - 1], rs[|rs| - 1];
      assert rs == p + [r];
      SumCountsIsTallied(d, p, qid, known);
      SumCountsSnoc(d, p, r, qid);
      SumOccurrencesIsKnownCount(d, SelectedIds(r, qid), known);
    }
  }

  // ---------------------------------------------------------------------------
  // Properties of the statistics
  // ---------------------------------------------------------------------------

  /** With no responses every choice count and every total is 0. */
  lemma {:induction false} StatsOfNoResponses(q: Question)
    ensures StatsFor(q, []).total == 0
    ensures StatsFor(q, []).ChoiceStats? ==>
              forall k :: 0 <= k < |StatsFor(q, []).choices| ==> StatsFor(q, []).choices[k].count == 0
  {
  }

  /** One more response adds, to each choice, the number of times its first answer selects it. */
  lemma {:induction false} ChoiceCountAppend(rs: seq<Response>, r: Response, qid: nat, id: nat)
    ensures ChoiceCount(rs + [r], qid, id) == ChoiceCount(rs, qid, id) + Occurrences(SelectedIds(r, qid), id)
  {
    assert (rs + [r])[..|rs + [r]| - 1] == rs;
  }

  /** A response whose selections name no known choice leaves every known choice's count and the total unchanged. */
  lemma {:induction false} UnknownSelectionsIgnored(rs: seq<Response>, r: Response, qid: nat, known: set<nat>)
    requires forall x :: x in SelectedIds(r, qid) ==> x !in known
    ensures forall id :: id in known ==> ChoiceCount(rs + [r], qid, id) == ChoiceCount(rs, qid, id)
    ensures Tallied(rs + [r], qid, known) == Tallied(rs, qid, known)
  {
    assert (rs + [r])[..|rs + [r]| - 1] == rs;
    KnownCountOfUnknown(SelectedIds(r, qid), known);
    forall id | id in known
      ensures ChoiceCount(rs + [r], qid, id) == ChoiceCount(rs, qid, id)
    {
      OccurrencesOfAbsent(SelectedIds(r, qid), id);
    }
  }

  lemma {:induction false} OccurrencesOfAbsent(s: seq<nat>, id: nat)
    requires id !in s
    ensures Occurrences(s, id) == 0
  {
    if s != [] {
      OccurrencesOfAbsent(s[..|s| - 1], id);
    }
  }

  lemma {:induction false} KnownCountOfUnknown(s: seq<nat>, known: set<nat>)
    requires forall x :: x in s ==> x !in known
    ensures KnownCount(s, known) == 0
  {
    if s != [] {
      KnownCountOfUnknown(s[..|s| - 1], known);
    }
  }

  /** Each response is counted at most once for a text question. */
  lemma {:induction false} TextTotalAtMostResponses(rs: seq<Response>, qid: nat)
    ensures TextTotal(rs, qid) <= |rs|
    ensures TextTotal(rs, qid) == |rs| <==> forall i :: 0 <= i < |rs| ==> AnsweredWithText(rs[i], qid)
  {
    if rs != [] {
      var p := rs[..|rs| - 1];
      TextTotalAtMostResponses(p, qid);
      assert forall i :: 0 <= i < |p| ==> p[i] == rs[i];
    }
  }

  /** For a choice question, the total is the sum of the listed counts when the choice ids are distinct. */
  lemma {:induction false} TotalIsSumOfCounts(q: Question, rs: seq<Response>)
    requires q.questionType != Text
    requires forall i, j :: 0 <= i < j < |q.choices| ==> q.choices[i].id != q.choices[j].id
    ensures StatsFor(q, rs).total == SumCounts(ChoiceIdSeq(q), rs, q.id)
  {
    var ids := ChoiceIdSeq(q);
    assert forall i, j :: 0 <= i < j < |ids| ==> ids[i] != ids[j];
    SumCountsIsTallied(ids, rs, q.id, ChoiceIds(q));
  }

  // ---------------------------------------------------------------------------
  // The computation
  // ---------------------------------------------------------------------------

  /** Fills the `choiceCounts` map: every schema choice starts at 0, then each selected known id adds 1. */
  method TallyChoices(q: Question, rs: seq<Response>) returns (counts: map<nat, nat>)
    ensures counts.Keys == ChoiceIds(q)
    ensures forall id :: id in counts ==> counts[id] == ChoiceCount(rs, q.id, id)
  {
    counts := ZeroCounts(q);
    for i := 0 to |rs|
      invariant counts.Keys == ChoiceIds(q)
      invariant forall id :: id in counts ==> counts[id] == ChoiceCount(rs[..i], q.id, id)
    {
      var answer := FindAnswer(rs[i].answers, q.id);
      if answer.Some? && answer.value.selectedChoices.Some? {
        counts := CountSelections(counts, answer.value.selectedChoices.value);
      }
      assert rs[..i + 1][..i] == rs[..i];
    }
    assert rs[..|rs|] == rs;
  }

  /** The first loop of the tally: a zero count for every choice of the question. */
  method ZeroCounts(q: Question) returns (counts: map<nat, nat>)
    ensures counts.Keys == ChoiceIds(q)
    ensures forall id :: id in counts ==> counts[id] == 0
  {
    counts := map[];
    for i := 0 to |q.choices|
      invariant counts.Keys == set j | 0 <= j < i :: q.choices[j].id
      invariant forall id :: id in counts ==> counts[id] == 0
    {
      counts := counts[q.choices[i].id := 0];
    }
    forall x | x in ChoiceIds(q) ensures x in counts {
      var c :| c in q.choices && c.id == x;
      var k :| 0 <= k < |q.choices| && q.choices[k] == c;
    }
  }

  /** One answer's selections: each id already counted adds 1, any other id is passed over. */
  method CountSelections(before: map<nat, nat>, selected: seq<nat>) returns (counts: map<nat, nat>)
    ensures counts.Keys == before.Keys
    ensures forall id :: id in counts ==> counts[id] == before[id] + Occurrences(selected, id)
  {
    counts := before;
    for k := 0 to |selected|
      invariant counts.Keys == before.Keys
      invariant forall id :: id in counts ==> counts[id] == before[id] + Occurrences(selected[..k], id)
    {
      assert selected[..k + 1][..k] == selected[..k];
      if selected[k] in counts {
        counts := counts[selected[k] := counts[selected[k]] + 1];
      }
    }
    assert selected[..|selected|] == selected;
  }

  /** `Object.values(choiceCounts).reduce((sum, count) => sum + count, 0)` over the keys `keys`. */
  method SumOfCounts(keys: seq<nat>, counts: map<nat, nat>, rs: seq<Response>, qid: nat) returns (total: nat)
    requires forall x :: x in keys ==> x in counts && counts[x] == ChoiceCount(rs, qid, x)
    ensures total == SumCounts(keys, rs, qid)
  {
    total := 0;
    for j := 0 to |keys|
      invariant total == SumCounts(keys[..j], rs, qid)
    {
      assert keys[..j + 1][..j] == keys[..j];
      total := total + counts[keys[j]];
    }
    assert keys[..|keys|] == keys;
  }

  /** The statistics of one question, as the loop body of `calculateQuestionStats` builds them. */
  method QuestionStatsOf(q: Question, rs: seq<Response>) returns (st: QuestionStats)
    ensures st == StatsFor(q, rs)
  {
    if q.questionType == Text {
      return TextStats(TextTotal(rs, q.id));
    }
    var counts := TallyChoices(q, rs);
    var listed := seq(|q.choices|, k requires 0 <= k < |q.choices| =>
      ChoiceStat(q.choices[k].id, q.choices[k].text, counts[q.choices[k].id]));
    assert listed == ListedChoices(q, rs);
    var keys := Distinct(ChoiceIdSeq(q));
    var total := SumOfCounts(keys, counts, rs, q.id);
    SumCountsIsTallied(keys, rs, q.id, ChoiceIds(q));
    st := ChoiceStats(q.questionType, listed, total);
  }

  /**
   * `calculateQuestionStats(questions, responses)`: nothing when either input is not an
   * array; otherwise one entry per question id, a later question overwriting an earlier
   * one with the same id.
   */
  method CalculateQuestionStats(questions: Option<seq<Question>>, responses: Option<seq<Response>>)
    returns (stats: Option<map<nat, QuestionStats>>)
    ensures stats.Some? <==> questions.Some? && responses.Some?
    ensures stats.Some? ==> stats.value.Keys == set q | q in questions.value :: q.id
    ensures stats.Some? ==>
              forall i :: 0 <= i < |questions.value| && LastWithId(questions.value, i) ==>
                stats.value[questions.value[i].id] == StatsFor(questions.value[i], responses.value)
  {
    if questions.None? || responses.None? {
      return None;
    }
    var qs, rs := questions.value, responses.value;
    var result: map<nat, QuestionStats> := map[];
    for i := 0 to |qs|
      invariant result.Keys == set j | 0 <= j < i :: qs[j].id
      invariant forall j :: 0 <= j < i && (forall l :: j < l < i ==> qs[l].id != qs[j].id) ==>
                  result[qs[j].id] == StatsFor(qs[j], rs)
    {
      var st := QuestionStatsOf(qs[i], rs);
      result := result[qs[i].id := st];
    }
    assert result.Keys == set q | q in qs :: q.id by {
      forall x | x in (set q | q in qs :: q.id) ensures x in result.Keys {
        var q :| q in qs && q.id == x;
        var k :| 0 <= k < |qs| && qs[k] == q;
      }
    }
    stats := Some(result);
  }
}

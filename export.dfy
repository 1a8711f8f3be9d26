/**
 * The two flat views of a survey's responses on the responses page: the table cell shown
 * for each (response, question) pair, and the CSV text built by `exportToCSV`. Free text
 * is quoted with its quotes doubled (section 2, rule 7 of RFC 4180); the header cells and
 * the joined choice texts are written as they are, so a comma in a question text or a
 * quote in a choice text breaks the row shape. `RoundTrip` states the conditions under
 * which reading the CSV back gives the table view again.
 */
module Export {
  import opened Wrappers
  import opened Sequences
  import opened Strings
  import opened Schema

  const NoAnswer := "No answer provided"
  const ResponseIdHeader := "Response ID"

  // ---------------------------------------------------------------------------
  // Quoting of free text
  // ---------------------------------------------------------------------------

  /** `t.replace(/"/g, '""')`. */
  function DoubleQuotes(t: string): (r: string)
    ensures '"' !in t ==> r == t
  {
    if t == [] then []
    else (if t[0] == '"' then "\"\"" else [t[0]]) + DoubleQuotes(t[1..])
  }

  /** The CSV cell of a non-empty text answer. */
  function QuoteText(t: string): string {
    "\"" + DoubleQuotes(t) + "\""
  }

  /** Decodes the inside of a quoted field: `""` stands for one quote, and a lone quote is an error. */
  function UndoubleQuotes(s: string): Option<string> {
    if s == [] then Some([])
    else if s[0] == '"' then
      if |s| >= 2 && s[1] == '"' then
        match UndoubleQuotes(s[2..])
        case Some(v) => Some("\"" + v)
        case None => None
      else None
    else
      match UndoubleQuotes(s[1..])
      case Some(v) => Some([s[0]] + v)
      case None => None
  }

  /** Strips the outer quotes of a quoted field and decodes its inside. */
  function UnquoteField(s: string): Option<string> {
    if |s| >= 2 && s[0] == '"' && s[|s| - 1] == '"' then UndoubleQuotes(s[1..|s| - 1]) else None
  }

  lemma {:induction false} UndoubleDoubled(t: string)
    ensures UndoubleQuotes(DoubleQuotes(t)) == Some(t)
  {
    if t != [] {
      UndoubleDoubled(t[1..]);
      var d := DoubleQuotes(t);
      if t[0] == '"' {
        assert d[2..] == DoubleQuotes(t[1..]);
      } else {
        assert d[1..] == DoubleQuotes(t[1..]);
      }
      assert [t[0]] + t[1..] == t;
    }
  }

  /** Halving the doubled quotes of a quoted text cell gives back the text, whatever it contains. */
  lemma QuoteRoundTrip(t: string)
    ensures UnquoteField(QuoteText(t)) == Some(t)
  {
    var s := QuoteText(t);
    assert s[1..|s| - 1] == DoubleQuotes(t);
    UndoubleDoubled(t);
  }

  // ---------------------------------------------------------------------------
  // Cells
  // ---------------------------------------------------------------------------

  /**
   * The texts of the selected choices, in selection order: an id that names no choice,
   * or a choice whose text is empty, is dropped (`.map(...).filter(Boolean)`).
   */
  function ResolveChoices(ids: seq<nat>, choices: seq<Choice>): (texts: seq<string>)
    ensures |texts| <= |ids|
    ensures forall k :: 0 <= k < |texts| ==> texts[k] != "" && exists c :: c in choices && c.text == texts[k]
  {
    if ids == [] then []
    else
      var c := FindChoice(choices, ids[0]);
      (if c.Some? && c.value.text != "" then [c.value.text] else []) + ResolveChoices(ids[1..], choices)
  }

  /** When every selected id names a choice with text, nothing is dropped and the order is kept. */
  lemma {:induction false} ResolveKnownChoices(ids: seq<nat>, choices: seq<Choice>)
    requires forall k :: 0 <= k < |ids| ==> FindChoice(choices, ids[k]).Some? && FindChoice(choices, ids[k]).value.text != ""
    ensures |ResolveChoices(ids, choices)| == |ids|
    ensures forall k :: 0 <= k < |ids| ==> ResolveChoices(ids, choices)[k] == FindChoice(choices, ids[k]).value.text
  {
    if ids != [] {
      ResolveKnownChoices(ids[1..], choices);
      assert forall k :: 1 <= k < |ids| ==> ids[k] == ids[1..][k - 1];
    }
  }

  /** Resolving a concatenation of selections resolves each part in turn: the order is kept. */
  lemma {:induction false} ResolveChoicesAppend(a: seq<nat>, b: seq<nat>, choices: seq<Choice>)
    ensures ResolveChoices(a + b, choices) == ResolveChoices(a, choices) + ResolveChoices(b, choices)
  {
    if a == [] {
      assert a + b == b;
    } else {
      assert (a + b)[0] == a[0];
      assert (a + b)[1..] == a[1..] + b;
      ResolveChoicesAppend(a[1..], b, choices);
      var c := FindChoice(choices, a[0]);
      var head := if c.Some? && c.value.text != "" then [c.value.text] else [];
      assert ResolveChoices(a + b, choices) == head + (ResolveChoices(a[1..], choices) + ResolveChoices(b, choices));
      assert ResolveChoices(a, choices) == head + ResolveChoices(a[1..], choices);
      Regroup(head, ResolveChoices(a[1..], choices), ResolveChoices(b, choices));
    }
  }

  /** One selected id resolves to its choice's text, or to nothing when it names no choice or an empty one. */
  lemma ResolveChoicesOne(id: nat, choices: seq<Choice>)
    ensures ResolveChoices([id], choices) ==
      if FindChoice(choices, id).Some? && FindChoice(choices, id).value.text != "" then [FindChoice(choices, id).value.text] else []
  {
  }

  /** The joined texts of an answer's selected choices. */
  function ChoiceText(a: Answer, q: Question): string
    requires a.selectedChoices.Some?
  {
    Join(ResolveChoices(a.selectedChoices.value, q.choices), "; ")
  }

  /** The table cell of `renderTableView` for one response and one question. */
  function TableCell(q: Question, r: Response): string {
    match FindAnswer(r.answers, q.id)
    case None => NoAnswer
    case Some(a) =>
      if HasText(a) then a.textAnswer.value
      else if a.selectedChoices.Some? then ChoiceText(a, q)
      else ""
  }

  /** The CSV cell of `exportToCSV` for one response and one question. */
  function CsvCell(q: Question, r: Response): string {
    match FindAnswer(r.answers, q.id)
    case None => ""
    case Some(a) =>
      if HasText(a) then QuoteText(a.textAnswer.value)
      else if a.selectedChoices.Some? && |a.selectedChoices.value| > 0 then "\"" + ChoiceText(a, q) + "\""
      else ""
  }

  /**
   * The table and the CSV agree cell for cell: an unanswered question is the sentinel in
   * the table and an empty CSV cell; a text cell reads back to the table text; a choice
   * cell is the table text between quotes, not escaped.
   */
  lemma CellsAgree(q: Question, r: Response)
    ensures FindAnswer(r.answers, q.id).None? ==> TableCell(q, r) == NoAnswer && CsvCell(q, r) == ""
    ensures FindAnswer(r.answers, q.id).Some? && HasText(FindAnswer(r.answers, q.id).value) ==>
              UnquoteField(CsvCell(q, r)) == Some(TableCell(q, r))
    ensures FindAnswer(r.answers, q.id).Some? && !HasText(FindAnswer(r.answers, q.id).value) ==>
              CsvCell(q, r) == (if CsvCell(q, r) == "" then "" else "\"" + TableCell(q, r) + "\"")
  {
    var found := FindAnswer(r.answers, q.id);
    if found.Some? && HasText(found.value) {
      QuoteRoundTrip(found.value.textAnswer.value);
    }
  }

  // ---------------------------------------------------------------------------
  // The document
  // ---------------------------------------------------------------------------

  function QuestionTexts(qs: seq<Question>): (ts: seq<string>)
    ensures |ts| == |qs| && forall k :: 0 <= k < |qs| ==> ts[k] == qs[k].text
  {
    seq(|qs|, k requires 0 <= k < |qs| => qs[k].text)
  }

  /** The cells of one response, one per question in schema order. */
  function RowCells(qs: seq<Question>, r: Response): (cells: seq<string>)
    ensures |cells| == |qs| && forall k :: 0 <= k < |qs| ==> cells[k] == CsvCell(qs[k], r)
  {
    seq(|qs|, k requires 0 <= k < |qs| => CsvCell(qs[k], r))
  }

  function HeaderLine(qs: seq<Question>): string {
    Join([ResponseIdHeader] + QuestionTexts(qs), ",")
  }

  /** `${responseId},${answers}`. */
  function RowLine(qs: seq<Question>, r: Response): string {
    DecimalString(r.id) + "," + Join(RowCells(qs, r), ",")
  }

  function CsvLines(qs: seq<Question>, rs: seq<Response>): (lines: seq<string>)
    ensures |lines| == |rs| + 1 && lines[0] == HeaderLine(qs)
    ensures forall i :: 0 <= i < |rs| ==> lines[i + 1] == RowLine(qs, rs[i])
  {
    [HeaderLine(qs)] + seq(|rs|, i requires 0 <= i < |rs| => RowLine(qs, rs[i]))
  }

  /** The text `exportToCSV` hands to the download; nothing when there are no responses. */
  function ExportCsv(qs: seq<Question>, rs: seq<Response>): (r: Option<string>)
    ensures r.Some? <==> |rs| > 0
  {
    if rs == [] then None else Some(Join(CsvLines(qs, rs), "\n"))
  }

  // ---------------------------------------------------------------------------
  // Reading the CSV back (section 2 of RFC 4180, with "\n" as the line break)
  // ---------------------------------------------------------------------------

  /** Reads a quoted field after its opening quote: its value and what follows the closing quote. */
  function ReadQuoted(s: string): (r: Option<(string, string)>)
    ensures r.Some? ==> |r.value.1| < |s|
  {
    if s == [] then None
    else if s[0] == '"' then
      if |s| >= 2 && s[1] == '"' then
        match ReadQuoted(s[2..])
        case Some((v, rest)) => Some(("\"" + v, rest))
        case None => None
      else Some(([], s[1..]))
    else
      match ReadQuoted(s[1..])
      case Some((v, rest)) => Some(([s[0]] + v, rest))
      case None => None
  }

  /** Reads an unquoted field: everything up to the next comma or line break. */
  function ReadPlain(s: string): (r: (string, string))
    ensures |r.1| <= |s|
  {
    if s == [] || s[0] == ',' || s[0] == '\n' then ([], s)
    else
      var (v, rest) := ReadPlain(s[1..]);
      ([s[0]] + v, rest)
  }

  function ReadField(s: string): (r: Option<(string, string)>)
    ensures r.Some? ==> |r.value.1| <= |s|
  {
    if s != [] && s[0] == '"' then ReadQuoted(s[1..]) else Some(ReadPlain(s))
  }

  /** Reads one record: its fields, and the text after its line break (empty at the end). */
  function ReadRecord(s: string): (r: Option<(seq<string>, string)>)
    ensures r.Some? ==> r.value.1 == [] || |r.value.1| < |s|
    decreases |s|
  {
    match ReadField(s)
    case None => None
    case Some((f, rest)) =>
      if rest == [] then Some(([f], []))
      else if rest[0] == ',' then
        match ReadRecord(rest[1..])
        case Some((fs, after)) => Some(([f] + fs, after))
        case None => None
      else if rest[0] == '\n' then Some(([f], rest[1..]))
      else None
  }

  /** Reads all the records of a text. */
  function ReadRecords(s: string): Option<seq<seq<string>>>
    decreases |s|
  {
    match ReadRecord(s)
    case None => None
    case Some((fields, rest)) =>
      if rest == [] then Some([fields])
      else
        match ReadRecords(rest)
        case Some(more) => Some([fields] + more)
        case None => None
  }

  // ---------------------------------------------------------------------------
  // What the export writes, as fields
  // ---------------------------------------------------------------------------

  /** A field as written: quoted with doubled quotes, or plain. */
  datatype CsvField = Quoted(value: string) | Plain(value: string)

  predicate IsDelimiter(c: char) {
    c == ',' || c == '\n' || c == '"'
  }

  /** A plain field must hold no delimiter, quote or line break to read back as itself. */
  predicate Writable(f: CsvField) {
    f.Plain? ==> forall i :: 0 <= i < |f.value| ==> !IsDelimiter(f.value[i])
  }

  function Encode(f: CsvField): string {
    match f
    case Quoted(v) => QuoteText(v)
    case Plain(v) => v
  }

  function EncodeAll(fs: seq<CsvField>): (cells: seq<string>)
    ensures |cells| == |fs| && forall k :: 0 <= k < |fs| ==> cells[k] == Encode(fs[k])
  {
    seq(|fs|, k requires 0 <= k < |fs| => Encode(fs[k]))
  }

  function Values(fs: seq<CsvField>): (vs: seq<string>)
    ensures |vs| == |fs| && forall k :: 0 <= k < |fs| ==> vs[k] == fs[k].value
  {
    seq(|fs|, k requires 0 <= k < |fs| => fs[k].value)
  }

  /** What may follow a field: nothing, a comma or a line break. */
  predicate FieldEnd(tail: string) {
    tail == [] || tail[0] == ',' || tail[0] == '\n'
  }

  lemma {:induction false} ReadQuotedDoubled(v: string, tail: string)
    requires tail == [] || tail[0] != '"'
    ensures ReadQuoted(DoubleQuotes(v) + "\"" + tail) == Some((v, tail))
  {
    var s := DoubleQuotes(v) + "\"" + tail;
    if v == [] {
      assert s == "\"" + tail;
      assert s[1..] == tail;
    } else {
      var rest := DoubleQuotes(v[1..]);
      var inner := rest + "\"" + tail;
      ReadQuotedDoubled(v[1..], tail);
      QuotedHead(v, tail);
      if v[0] == '"' {
        ReadQuotedEscape(inner, v[1..], tail);
      } else {
        ReadQuotedChar(v[0], inner, v[1..], tail);
      }
      assert [v[0]] + v[1..] == v;
    }
  }

  /** Doubling the quotes of a non-empty text starts with its first character, doubled when it is a quote. */
  lemma QuotedHead(v: string, tail: string)
    requires v != []
    ensures DoubleQuotes(v) + "\"" + tail ==
      (if v[0] == '"' then "\"\"" else [v[0]]) + (DoubleQuotes(v[1..]) + "\"" + tail)
  {
    var head := if v[0] == '"' then "\"\"" else [v[0]];
    var rest := DoubleQuotes(v[1..]);
    assert DoubleQuotes(v) == head + rest;
    Regroup(head, rest, "\"");
    Regroup(head, rest + "\"", tail);
  }

  /** A doubled quote inside a quoted field reads as one quote. */
  lemma ReadQuotedEscape(inner: string, v: string, tail: string)
    requires ReadQuoted(inner) == Some((v, tail))
    ensures ReadQuoted("\"\"" + inner) == Some(("\"" + v, tail))
  {
    var s := "\"\"" + inner;
    assert s[0] == '"' && s[1] == '"' && s[2..] == inner;
  }

  /** Any other character inside a quoted field reads as itself. */
  lemma ReadQuotedChar(c: char, inner: string, v: string, tail: string)
    requires c != '"' && ReadQuoted(inner) == Some((v, tail))
    ensures ReadQuoted([c] + inner) == Some(([c] + v, tail))
  {
    var s := [c] + inner;
    assert s[0] == c && s[1..] == inner;
  }

  lemma {:induction false} ReadPlainText(v: string, tail: string)
    requires forall i :: 0 <= i < |v| ==> !IsDelimiter(v[i])
    requires FieldEnd(tail)
    ensures ReadPlain(v + tail) == (v, tail)
  {
    if v == [] {
      assert v + tail == tail;
    } else {
      ReadPlainText(v[1..], tail);
      assert (v + tail)[1..] == v[1..] + tail;
      assert [v[0]] + v[1..] == v;
    }
  }

  lemma ReadWritable(f: CsvField, tail: string)
    requires Writable(f) && FieldEnd(tail)
    ensures ReadField(Encode(f) + tail) == Some((f.value, tail))
  {
    match f
    case Quoted(v) =>
      assert Encode(f) + tail == "\"" + (DoubleQuotes(v) + "\"" + tail);
      ReadQuotedDoubled(v, tail);
    case Plain(v) =>
      ReadPlainText(v, tail);
  }

  /** One record of writable fields, followed by a line break or the end, reads back as its values. */
  lemma {:induction false} ReadRecordOfFields(fs: seq<CsvField>, tail: string)
    requires |fs| >= 1 && forall k :: 0 <= k < |fs| ==> Writable(fs[k])
    requires tail == [] || tail[0] == '\n'
    ensures ReadRecord(Join(EncodeAll(fs), ",") + tail) == Some((Values(fs), if tail == [] then [] else tail[1..]))
  {
    var cells := EncodeAll(fs);
    if |fs| == 1 {
      ReadWritable(fs[0], tail);
      assert Values(fs) == [fs[0].value];
    } else {
      assert cells[1..] == EncodeAll(fs[1..]);
      ReadRecordOfFields(fs[1..], tail);
      ReadRecordCons(fs[0], Join(cells[1..], ","), tail, Values(fs[1..]), if tail == [] then [] else tail[1..]);
      assert [fs[0].value] + Values(fs[1..]) == Values(fs);
    }
  }

  /** A writable field and a comma in front of a record add the field's value to it. */
  lemma ReadRecordCons(f: CsvField, restLine: string, tail: string, values: seq<string>, after: string)
    requires Writable(f) && ReadRecord(restLine + tail) == Some((values, after))
    ensures ReadRecord(Encode(f) + "," + restLine + tail) == Some(([f.value] + values, after))
  {
    var next := "," + (restLine + tail);
    assert Encode(f) + "," + restLine + tail == Encode(f) + next;
    ReadWritable(f, next);
    assert next[1..] == restLine + tail;
    ReadRecordComma(Encode(f) + next, f.value, next);
  }

  /** After a field ending in a comma, a record goes on with the next field. */
  lemma ReadRecordComma(s: string, f: string, after: string)
    requires ReadField(s) == Some((f, after)) && after != [] && after[0] == ','
    ensures ReadRecord(s) == match ReadRecord(after[1..])
                             case Some((fs, rest)) => Some(([f] + fs, rest))
                             case None => None
  {
  }

  function Lines(records: seq<seq<CsvField>>): (lines: seq<string>)
    ensures |lines| == |records| && forall i :: 0 <= i < |records| ==> lines[i] == Join(EncodeAll(records[i]), ",")
  {
    seq(|records|, i requires 0 <= i < |records| => Join(EncodeAll(records[i]), ","))
  }

  function ValueRows(records: seq<seq<CsvField>>): (rows: seq<seq<string>>)
    ensures |rows| == |records| && forall i :: 0 <= i < |records| ==> rows[i] == Values(records[i])
  {
    seq(|records|, i requires 0 <= i < |records| => Values(records[i]))
  }

  /** Records whose fields are writable and whose lines are not empty read back as their values. */
  lemma {:induction false} ReadRecordsOfFields(records: seq<seq<CsvField>>)
    requires |records| >= 1
    requires forall i :: 0 <= i < |records| ==> |records[i]| >= 1 && Encode(records[i][0]) != []
    requires forall i, k :: 0 <= i < |records| && 0 <= k < |records[i]| ==> Writable(records[i][k])
    ensures ReadRecords(Join(Lines(records), "\n")) == Some(ValueRows(records))
  {
    var lines := Lines(records);
    if |records| == 1 {
      ReadRecordOfFields(records[0], []);
      assert Join(lines, "\n") == Join(EncodeAll(records[0]), ",") + [];
      assert ValueRows(records) == [Values(records[0])];
    } else {
      var rest := Join(lines[1..], "\n");
      assert ReadRecords(rest) == Some(ValueRows(records[1..])) by {
        assert lines[1..] == Lines(records[1..]);
        ReadRecordsOfFields(records[1..]);
      }
      assert rest != [] by {
        JoinNonEmpty(EncodeAll(records[1]), ",");
        JoinNonEmpty(lines[1..], "\n");
      }
      assert Join(lines, "\n") == Join(EncodeAll(records[0]), ",") + "\n" + rest;
      ReadRecordsCons(records[0], rest, ValueRows(records[1..]));
      assert [Values(records[0])] + ValueRows(records[1..]) == ValueRows(records);
    }
  }

  /** A record and a line break in front of more records add the record's values to them. */
  lemma ReadRecordsCons(fs: seq<CsvField>, rest: string, more: seq<seq<string>>)
    requires |fs| >= 1 && forall k :: 0 <= k < |fs| ==> Writable(fs[k])
    requires rest != [] && ReadRecords(rest) == Some(more)
    ensures ReadRecords(Join(EncodeAll(fs), ",") + "\n" + rest) == Some([Values(fs)] + more)
  {
    var next := "\n" + rest;
    assert Join(EncodeAll(fs), ",") + "\n" + rest == Join(EncodeAll(fs), ",") + next;
    ReadRecordOfFields(fs, next);
    assert next[1..] == rest;
  }

  /** A join whose first part is not empty is not empty. */
  lemma JoinNonEmpty(parts: seq<string>, sep: string)
    requires |parts| >= 1 && parts[0] != []
    ensures Join(parts, sep) != []
  {
  }

  // ---------------------------------------------------------------------------
  // The round trip
  // ---------------------------------------------------------------------------

  /** The field a CSV cell writes. */
  function CellField(q: Question, r: Response): CsvField {
    match FindAnswer(r.answers, q.id)
    case None => Plain("")
    case Some(a) =>
      if HasText(a) then Quoted(a.textAnswer.value)
      else if a.selectedChoices.Some? && |a.selectedChoices.value| > 0 then Quoted(ChoiceText(a, q))
      else Plain("")
  }

  predicate QuoteFreeChoices(q: Question) {
    forall c :: c in q.choices ==> '"' !in c.text
  }

  lemma {:induction false} JoinQuoteFree(parts: seq<string>, sep: string)
    requires '"' !in sep && forall k :: 0 <= k < |parts| ==> '"' !in parts[k]
    ensures '"' !in Join(parts, sep)
  {
    if |parts| > 1 {
      JoinQuoteFree(parts[1..], sep);
    }
  }

  /**
   * A CSV cell writes its field, and the field's value is the table cell, except that an
   * unanswered question is empty in the CSV; this needs choice texts without quotes.
   */
  lemma CsvCellWritesTableCell(q: Question, r: Response)
    requires QuoteFreeChoices(q)
    ensures CsvCell(q, r) == Encode(CellField(q, r)) && Writable(CellField(q, r))
    ensures CellField(q, r).value == if FindAnswer(r.answers, q.id).None? then "" else TableCell(q, r)
  {
    var found := FindAnswer(r.answers, q.id);
    if found.Some? && !HasText(found.value) && found.value.selectedChoices.Some? {
      var texts := ResolveChoices(found.value.selectedChoices.value, q.choices);
      JoinQuoteFree(texts, "; ");
    }
  }

  /** The decimal rendering of an id is a writable plain field. */
  lemma IdWritable(n: nat)
    ensures Writable(Plain(DecimalString(n))) && Encode(Plain(DecimalString(n))) != []
  {
  }

  function HeaderFields(qs: seq<Question>): (fs: seq<CsvField>)
    ensures |fs| == |qs| + 1 && fs[0] == Plain(ResponseIdHeader)
    ensures forall k :: 0 <= k < |qs| ==> fs[k + 1] == Plain(qs[k].text)
  {
    [Plain(ResponseIdHeader)] + seq(|qs|, k requires 0 <= k < |qs| => Plain(qs[k].text))
  }

  function RowFields(qs: seq<Question>, r: Response): (fs: seq<CsvField>)
    ensures |fs| == |qs| + 1 && fs[0] == Plain(DecimalString(r.id))
    ensures forall k :: 0 <= k < |qs| ==> fs[k + 1] == CellField(qs[k], r)
  {
    [Plain(DecimalString(r.id))] + seq(|qs|, k requires 0 <= k < |qs| => CellField(qs[k], r))
  }

  function Records(qs: seq<Question>, rs: seq<Response>): (records: seq<seq<CsvField>>)
    ensures |records| == |rs| + 1 && records[0] == HeaderFields(qs)
    ensures forall i :: 0 <= i < |rs| ==> records[i + 1] == RowFields(qs, rs[i])
  {
    [HeaderFields(qs)] + seq(|rs|, i requires 0 <= i < |rs| => RowFields(qs, rs[i]))
  }

  /** What a reader of one response's CSV line should get: its id, then its table cells, empty where unanswered. */
  function ExpectedRow(qs: seq<Question>, r: Response): seq<string> {
    [DecimalString(r.id)] + ReadCells(qs, r)
  }

  function ReadCells(qs: seq<Question>, r: Response): (cells: seq<string>)
    ensures |cells| == |qs| && forall k :: 0 <= k < |qs| ==> cells[k] == ReadCell(qs[k], r)
  {
    seq(|qs|, k requires 0 <= k < |qs| => ReadCell(qs[k], r))
  }

  /** What a reader should get for one cell: the table cell, or nothing when the question is unanswered. */
  function ReadCell(q: Question, r: Response): string {
    if FindAnswer(r.answers, q.id).None? then "" else TableCell(q, r)
  }

  function ExpectedRows(qs: seq<Question>, rs: seq<Response>): (rows: seq<seq<string>>)
    ensures |rows| == |rs| + 1 && rows[0] == [ResponseIdHeader] + QuestionTexts(qs)
    ensures forall i :: 0 <= i < |rs| ==> rows[i + 1] == ExpectedRow(qs, rs[i])
  {
    [[ResponseIdHeader] + QuestionTexts(qs)] + seq(|rs|, i requires 0 <= i < |rs| => ExpectedRow(qs, rs[i]))
  }

  /** Every field of a response's record is writable. */
  lemma RowFieldsEachWritable(qs: seq<Question>, r: Response)
    requires forall q :: q in qs ==> QuoteFreeChoices(q)
    ensures forall k :: 0 <= k < |RowFields(qs, r)| ==> Writable(RowFields(qs, r)[k])
  {
    var fs := RowFields(qs, r);
    forall k | 0 <= k < |fs| ensures Writable(fs[k]) {
      if k > 0 {
        assert qs[k - 1] in qs;
      }
      RowFieldWritableAt(qs, r, k);
    }
  }

  /** The k-th field of a response's record, the id counting as field 0, is writable. */
  lemma RowFieldWritableAt(qs: seq<Question>, r: Response, k: nat)
    requires k <= |qs| && (k > 0 ==> QuoteFreeChoices(qs[k - 1]))
    ensures Writable(RowFields(qs, r)[k])
  {
    if k > 0 {
      CsvCellWritesTableCell(qs[k - 1], r);
      assert RowFields(qs, r)[k] == CellField(qs[k - 1], r);
    } else {
      IdWritable(r.id);
    }
  }

  /** The k-th field of a response's record encodes to the k-th cell of its CSV line. */
  lemma RowFieldEncodeAt(qs: seq<Question>, r: Response, k: nat)
    requires k <= |qs| && (k > 0 ==> QuoteFreeChoices(qs[k - 1]))
    ensures EncodeAll(RowFields(qs, r))[k] == ([DecimalString(r.id)] + RowCells(qs, r))[k]
  {
    if k > 0 {
      CsvCellWritesTableCell(qs[k - 1], r);
      assert RowFields(qs, r)[k] == CellField(qs[k - 1], r);
      assert ([DecimalString(r.id)] + RowCells(qs, r))[k] == CsvCell(qs[k - 1], r);
    }
  }

  /** The k-th field of a response's record reads back as the k-th expected value. */
  lemma RowFieldValueAt(qs: seq<Question>, r: Response, k: nat)
    requires k <= |qs| && (k > 0 ==> QuoteFreeChoices(qs[k - 1]))
    ensures Values(RowFields(qs, r))[k] == ExpectedRow(qs, r)[k]
  {
    if k > 0 {
      CsvCellWritesTableCell(qs[k - 1], r);
      assert RowFields(qs, r)[k] == CellField(qs[k - 1], r);
      assert ExpectedRow(qs, r)[k] == ReadCell(qs[k - 1], r);
    }
  }

  /** A response's record encodes to its id followed by its CSV cells. */
  lemma RowFieldsEncode(qs: seq<Question>, r: Response)
    requires forall q :: q in qs ==> QuoteFreeChoices(q)
    ensures EncodeAll(RowFields(qs, r)) == [DecimalString(r.id)] + RowCells(qs, r)
  {
    var cells := EncodeAll(RowFields(qs, r));
    var line := [DecimalString(r.id)] + RowCells(qs, r);
    forall k | 0 <= k < |line| ensures cells[k] == line[k] {
      if k > 0 {
        assert qs[k - 1] in qs;
      }
      RowFieldEncodeAt(qs, r, k);
    }
    SamePointwise(cells, line);
  }

  /** A response's record reads back as its expected row. */
  lemma RowFieldsValues(qs: seq<Question>, r: Response)
    requires forall q :: q in qs ==> QuoteFreeChoices(q)
    ensures Values(RowFields(qs, r)) == ExpectedRow(qs, r)
  {
    var vs := Values(RowFields(qs, r));
    var expected := ExpectedRow(qs, r);
    forall k | 0 <= k < |expected| ensures vs[k] == expected[k] {
      if k > 0 {
        assert qs[k - 1] in qs;
      }
      RowFieldValueAt(qs, r, k);
    }
    SamePointwise(vs, expected);
  }

  lemma RowFieldsWritable(qs: seq<Question>, r: Response)
    requires forall q :: q in qs ==> QuoteFreeChoices(q)
    ensures forall k :: 0 <= k < |RowFields(qs, r)| ==> Writable(RowFields(qs, r)[k])
    ensures Encode(RowFields(qs, r)[0]) != []
    ensures Join(EncodeAll(RowFields(qs, r)), ",") == if |qs| == 0 then DecimalString(r.id) else RowLine(qs, r)
    ensures Values(RowFields(qs, r)) == ExpectedRow(qs, r)
  {
    RowFieldsEachWritable(qs, r);
    RowFieldsEncode(qs, r);
    RowFieldsValues(qs, r);
    IdWritable(r.id);
    var cells := [DecimalString(r.id)] + RowCells(qs, r);
    assert cells[1..] == RowCells(qs, r);
  }

  /** Each field of the header record writes and reads as its text: the id header, then the question texts. */
  lemma HeaderFieldText(qs: seq<Question>, k: nat)
    requires k <= |qs|
    ensures EncodeAll(HeaderFields(qs))[k] == ([ResponseIdHeader] + QuestionTexts(qs))[k]
    ensures Values(HeaderFields(qs))[k] == ([ResponseIdHeader] + QuestionTexts(qs))[k]
  {
    if k > 0 {
      assert HeaderFields(qs)[k] == Plain(qs[k - 1].text);
      assert QuestionTexts(qs)[k - 1] == qs[k - 1].text;
    }
  }

  /** The header record encodes to the id header followed by the question texts. */
  lemma HeaderFieldsEncode(qs: seq<Question>)
    ensures EncodeAll(HeaderFields(qs)) == [ResponseIdHeader] + QuestionTexts(qs)
  {
    var cells := EncodeAll(HeaderFields(qs));
    var line := [ResponseIdHeader] + QuestionTexts(qs);
    forall k | 0 <= k < |line| ensures cells[k] == line[k] {
      HeaderFieldText(qs, k);
    }
    SamePointwise(cells, line);
  }

  /** The header record reads back as the id header followed by the question texts. */
  lemma HeaderFieldsValues(qs: seq<Question>)
    ensures Values(HeaderFields(qs)) == [ResponseIdHeader] + QuestionTexts(qs)
  {
    var vs := Values(HeaderFields(qs));
    var line := [ResponseIdHeader] + QuestionTexts(qs);
    forall k | 0 <= k < |line| ensures vs[k] == line[k] {
      HeaderFieldText(qs, k);
    }
    SamePointwise(vs, line);
  }

  /** With delimiter-free question texts, every header field is writable. */
  lemma HeaderFieldsEachWritable(qs: seq<Question>)
    requires forall q :: q in qs ==> forall i :: 0 <= i < |q.text| ==> !IsDelimiter(q.text[i])
    ensures forall k :: 0 <= k < |HeaderFields(qs)| ==> Writable(HeaderFields(qs)[k])
  {
    var fs := HeaderFields(qs);
    forall k | 0 <= k < |fs| ensures Writable(fs[k]) {
      if k > 0 {
        assert qs[k - 1] in qs;
      }
    }
  }

  lemma HeaderFieldsWritable(qs: seq<Question>)
    requires forall q :: q in qs ==> forall i :: 0 <= i < |q.text| ==> !IsDelimiter(q.text[i])
    ensures forall k :: 0 <= k < |HeaderFields(qs)| ==> Writable(HeaderFields(qs)[k])
    ensures Join(EncodeAll(HeaderFields(qs)), ",") == HeaderLine(qs)
    ensures Values(HeaderFields(qs)) == [ResponseIdHeader] + QuestionTexts(qs)
  {
    HeaderFieldsEachWritable(qs);
    HeaderFieldsEncode(qs);
    HeaderFieldsValues(qs);
  }

  /**
   * Reading the CSV export back gives the header and, per response, its id and its table
   * cells (empty for an unanswered question), as long as the unescaped parts are safe:
   * question texts hold no comma, quote or line break and choice texts hold no quote.
   * Free text needs no such condition: its quoting makes any text read back exactly.
   */
  lemma RoundTrip(qs: seq<Question>, rs: seq<Response>)
    requires |qs| >= 1 && |rs| >= 1
    requires forall q :: q in qs ==> QuoteFreeChoices(q)
    requires forall q :: q in qs ==> forall i :: 0 <= i < |q.text| ==> !IsDelimiter(q.text[i])
    ensures ExportCsv(qs, rs).Some?
    ensures ReadRecords(ExportCsv(qs, rs).value) == Some(ExpectedRows(qs, rs))
  {
    var records := Records(qs, rs);
    forall i | 0 <= i < |records|
      ensures |records[i]| >= 1 && Encode(records[i][0]) != []
      ensures forall k :: 0 <= k < |records[i]| ==> Writable(records[i][k])
    {
      RecordAgrees(qs, rs, i);
    }
    ReadRecordsOfFields(records);
    RecordLines(qs, rs);
    RecordValues(qs, rs);
  }

  /** One record of the export: its first cell is not empty and its fields are writable. */
  lemma RecordAgrees(qs: seq<Question>, rs: seq<Response>, i: nat)
    requires |qs| >= 1 && i <= |rs|
    requires forall q :: q in qs ==> QuoteFreeChoices(q)
    requires forall q :: q in qs ==> forall i :: 0 <= i < |q.text| ==> !IsDelimiter(q.text[i])
    ensures |Records(qs, rs)[i]| >= 1 && Encode(Records(qs, rs)[i][0]) != []
    ensures forall k :: 0 <= k < |Records(qs, rs)[i]| ==> Writable(Records(qs, rs)[i][k])
  {
    if i == 0 {
      HeaderFieldsWritable(qs);
    } else {
      RowFieldsWritable(qs, rs[i - 1]);
    }
  }

  /** Each record of the export is written as its CSV line. */
  lemma RecordLineAt(qs: seq<Question>, rs: seq<Response>, i: nat)
    requires |qs| >= 1 && i <= |rs|
    requires forall q :: q in qs ==> QuoteFreeChoices(q)
    requires forall q :: q in qs ==> forall i :: 0 <= i < |q.text| ==> !IsDelimiter(q.text[i])
    ensures Lines(Records(qs, rs))[i] == CsvLines(qs, rs)[i]
  {
    if i == 0 {
      HeaderFieldsWritable(qs);
    } else {
      RowFieldsWritable(qs, rs[i - 1]);
    }
  }

  /** Each record of the export reads back as its expected row. */
  lemma RecordValueAt(qs: seq<Question>, rs: seq<Response>, i: nat)
    requires |qs| >= 1 && i <= |rs|
    requires forall q :: q in qs ==> QuoteFreeChoices(q)
    requires forall q :: q in qs ==> forall i :: 0 <= i < |q.text| ==> !IsDelimiter(q.text[i])
    ensures ValueRows(Records(qs, rs))[i] == ExpectedRows(qs, rs)[i]
  {
    if i == 0 {
      HeaderFieldsWritable(qs);
    } else {
      RowFieldsWritable(qs, rs[i - 1]);
    }
  }

  lemma RecordLines(qs: seq<Question>, rs: seq<Response>)
    requires |qs| >= 1
    requires forall q :: q in qs ==> QuoteFreeChoices(q)
    requires forall q :: q in qs ==> forall i :: 0 <= i < |q.text| ==> !IsDelimiter(q.text[i])
    ensures Lines(Records(qs, rs)) == CsvLines(qs, rs)
  {
    var lines := Lines(Records(qs, rs));
    var expected := CsvLines(qs, rs);
    forall i | 0 <= i < |lines| ensures lines[i] == expected[i] {
      RecordLineAt(qs, rs, i);
    }
    SamePointwise(lines, expected);
  }

  lemma RecordValues(qs: seq<Question>, rs: seq<Response>)
    requires |qs| >= 1
    requires forall q :: q in qs ==> QuoteFreeChoices(q)
    requires forall q :: q in qs ==> forall i :: 0 <= i < |q.text| ==> !IsDelimiter(q.text[i])
    ensures ValueRows(Records(qs, rs)) == ExpectedRows(qs, rs)
  {
    var rows := ValueRows(Records(qs, rs));
    var expected := ExpectedRows(qs, rs);
    forall i | 0 <= i < |rows| ensures rows[i] == expected[i] {
      RecordValueAt(qs, rs, i);
    }
    SamePointwise(rows, expected);
  }
}

module ExportExamples {
  import opened Wrappers
  import opened Strings
  import opened Schema
  import opened Export

  /** A quote inside a choice text is written unescaped and closes the quoted cell early: the export no longer reads. */
  lemma QuoteInChoiceBreaksExport()
    ensures var q := Question(1, "Q", SingleChoice, false, [Choice(2, "a\"b")]);
            var r := Response(7, [Answer(1, None, Some([2]))]);
            ExportCsv([q], [r]).Some? && ReadRecords(ExportCsv([q], [r]).value) == None
  {
    var q := Question(1, "Q", SingleChoice, false, [Choice(2, "a\"b")]);
    var r := Response(7, [Answer(1, None, Some([2]))]);
    var cell := "\"a\"b\"";
    var row := "7" + ("," + cell);
    assert RowLine([q], r) == row by {
      ChoiceCellWithQuote();
      assert RowCells([q], r) == [cell];
      assert DecimalString(7) == "7";
    }
    assert ReadRecord(row) == None by {
      ReadPlainText("7", "," + cell);
      ReadRecordComma(row, "7", "," + cell);
      assert ("," + cell)[1..] == cell;
      BrokenQuotedCell();
    }
    UnreadableRowBreaksExport([q], [r]);
  }

  /** When a response's line does not read, neither does the export holding it. */
  lemma UnreadableRowBreaksExport(qs: seq<Question>, rs: seq<Response>)
    requires |rs| == 1
    requires forall q :: q in qs ==> forall i :: 0 <= i < |q.text| ==> !IsDelimiter(q.text[i])
    requires ReadRecord(RowLine(qs, rs[0])) == None
    ensures ExportCsv(qs, rs).Some? && ReadRecords(ExportCsv(qs, rs).value) == None
  {
    HeaderReadFirst(qs, rs);
    var row := RowLine(qs, rs[0]);
    assert row != [] by {
      assert row[|DecimalString(rs[0].id)|] == ',';
    }
    assert ReadRecords(row) == None;
  }

  /** The export of one response reads its header first, leaving the response's line. */
  lemma HeaderReadFirst(qs: seq<Question>, rs: seq<Response>)
    requires |rs| == 1
    requires forall q :: q in qs ==> forall i :: 0 <= i < |q.text| ==> !IsDelimiter(q.text[i])
    ensures ExportCsv(qs, rs).Some?
    ensures ReadRecord(ExportCsv(qs, rs).value) == Some((Values(HeaderFields(qs)), RowLine(qs, rs[0])))
  {
    var fs := HeaderFields(qs);
    HeaderFieldsEachWritable(qs);
    HeaderFieldsEncode(qs);
    assert HeaderLine(qs) == Join(EncodeAll(fs), ",");
    OneResponseExport(qs, rs);
    ReadLineThen(fs, RowLine(qs, rs[0]));
  }

  /** A line of writable fields followed by a line break reads as its values, leaving what follows the break. */
  lemma ReadLineThen(fs: seq<CsvField>, rest: string)
    requires |fs| >= 1 && forall k :: 0 <= k < |fs| ==> Writable(fs[k])
    ensures ReadRecord(Join(EncodeAll(fs), ",") + "\n" + rest) == Some((Values(fs), rest))
  {
    var line := Join(EncodeAll(fs), ",");
    ReadRecordOfFields(fs, "\n" + rest);
    assert line + "\n" + rest == line + ("\n" + rest);
    assert ("\n" + rest)[1..] == rest;
  }

  /** The export of one response is the header line, a line break and the response's line. */
  lemma OneResponseExport(qs: seq<Question>, rs: seq<Response>)
    requires |rs| == 1
    ensures ExportCsv(qs, rs) == Some(HeaderLine(qs) + "\n" + RowLine(qs, rs[0]))
  {
    var lines := CsvLines(qs, rs);
    assert |lines| == 2 && lines[1..] == [RowLine(qs, rs[0])];
    assert Join(lines, "\n") == lines[0] + "\n" + Join(lines[1..], "\n");
  }

  lemma BrokenQuotedCell()
    ensures ReadRecord("\"a\"b\"") == None
  {
    assert "\"a\"b\""[1..] == "a\"b\"";
    assert "a\"b\""[1..] == "\"b\"";
    assert ReadQuoted("\"b\"") == Some(([], "b\""));
    assert "a\"b\""[0] == 'a';
    assert ['a'] + [] == "a";
    assert ReadQuoted("a\"b\"") == Some(("a", "b\""));
  }

  lemma ChoiceCellWithQuote()
    ensures CsvCell(Question(1, "Q", SingleChoice, false, [Choice(2, "a\"b")]), Response(7, [Answer(1, None, Some([2]))]))
            == "\"a\"b\""
  {
  }

  /** A comma in a question text is written unescaped: the header reads as one column more than the rows. */
  lemma CommaInQuestionShiftsHeader()
    ensures var q := Question(1, "a,b", Text, false, []);
            var r := Response(7, []);
            ExportCsv([q], [r]).Some?
            && ReadRecords(ExportCsv([q], [r]).value) == Some([["Response ID", "a", "b"], ["7", ""]])
  {
    var q := Question(1, "a,b", Text, false, []);
    var r := Response(7, []);
    CommaRecordsRead();
    assert Lines(CommaRecords) == CsvLines([q], [r]) by {
      CommaHeader(q);
      CommaRow(q, r);
    }
  }

  /** The fields the export writes for that survey: the comma splits the question's header cell. */
  const CommaRecords := [[Plain("Response ID"), Plain("a"), Plain("b")], [Plain("7"), Plain("")]]

  lemma CommaRecordsRead()
    ensures ReadRecords(Join(Lines(CommaRecords), "\n")) == Some([["Response ID", "a", "b"], ["7", ""]])
  {
    ReadRecordsOfFields(CommaRecords);
    assert ValueRows(CommaRecords) == [["Response ID", "a", "b"], ["7", ""]] by {
      assert Values(CommaRecords[0]) == ["Response ID", "a", "b"];
      assert Values(CommaRecords[1]) == ["7", ""];
    }
  }

  lemma CommaHeader(q: Question)
    requires q.text == "a,b"
    ensures Join(EncodeAll([Plain("Response ID"), Plain("a"), Plain("b")]), ",") == HeaderLine([q])
  {
    assert EncodeAll([Plain("Response ID"), Plain("a"), Plain("b")]) == ["Response ID", "a", "b"];
    assert Join(["Response ID", "a", "b"], ",") == "Response ID" + "," + ("a" + "," + "b");
    assert QuestionTexts([q]) == ["a,b"];
    assert [ResponseIdHeader] + QuestionTexts([q]) == ["Response ID", "a,b"];
    assert ["Response ID", "a,b"][1..] == ["a,b"];
  }

  lemma CommaRow(q: Question, r: Response)
    requires r == Response(7, [])
    ensures Join(EncodeAll([Plain("7"), Plain("")]), ",") == RowLine([q], r)
  {
    assert CsvCell(q, r) == "";
    assert DecimalString(7) == "7";
    assert EncodeAll([Plain("7"), Plain("")]) == ["7", ""];
    assert RowCells([q], r) == [""];
    assert Join(["7", ""], ",") == "7" + "," + "";
  }
}

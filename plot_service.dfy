/**
 * The spreadsheet analyser's server side (`PlotDataView`, `GroupByView`): the checks on a
 * plot request's type and axes against the uploaded table's columns, the traces and the
 * layout drawn for each plot type, and the per-column group counts.
 *
 * The uploaded table is a sequence of named columns of cell texts; the numeric work of
 * pandas (value counts, pivot means) is represented by naming the columns it works on.
 */
module PlotService {
  import opened Wrappers
  import opened Strings

  datatype PlotType = Scatter | Bar | Line | Area | Pie | Heatmap | Box

  /** The series types, drawn one trace per y axis against the x axis. */
  predicate IsSeriesType(t: PlotType) {
    t == Scatter || t == Bar || t == Line || t == Area
  }

  datatype Column = Column(name: string, values: seq<string>)

  /** A parsed upload: its columns in file order. */
  datatype Frame = Frame(columns: seq<Column>)

  /** The upload record: its id, the user who uploaded it, and its parsed table. */
  datatype Upload = Upload(id: nat, owner: nat, frame: Frame)

  /** `column in df.columns`, with the column's cells when it is one. */
  function ColumnOf(cs: seq<Column>, name: string): (r: Option<seq<string>>)
    ensures r.None? <==> forall k :: 0 <= k < |cs| ==> cs[k].name != name
    ensures r.Some? ==> exists k :: 0 <= k < |cs| && cs[k].name == name && cs[k].values == r.value
  {
    if cs == [] then None
    else if cs[0].name == name then Some(cs[0].values)
    else ColumnOf(cs[1..], name)
  }

  predicate HasColumn(f: Frame, name: string) {
    ColumnOf(f.columns, name).Some?
  }

  /** `df[name].tolist()`, for a name already checked to be a column. */
  function ColumnValues(f: Frame, name: string): seq<string> {
    var r := ColumnOf(f.columns, name);
    if r.Some? then r.value else []
  }

  /** `CSVUpload.objects.get(id=..., user=request.user)`: only the user's own uploads are found. */
  function FindUpload(uploads: seq<Upload>, id: nat, user: nat): (r: Option<Frame>)
    ensures r.None? <==> forall k :: 0 <= k < |uploads| ==> uploads[k].id != id || uploads[k].owner != user
    ensures r.Some? ==> exists k :: 0 <= k < |uploads| && uploads[k].id == id && uploads[k].owner == user
                                    && uploads[k].frame == r.value
  {
    if uploads == [] then None
    else if uploads[0].id == id && uploads[0].owner == user then Some(uploads[0].frame)
    else FindUpload(uploads[1..], id, user)
  }

  // ---------------------------------------------------------------------------
  // Plot requests
  // ---------------------------------------------------------------------------

  /** The request body; an absent `x_axis` is the empty string. */
  datatype PlotRequest = PlotRequest(plotType: PlotType, xAxis: string, yAxes: seq<string>, csvUploadId: nat)

  datatype Trace =
    | SeriesTrace(x: Option<seq<string>>, y: seq<string>, traceType: string, mode: Option<string>,
                  fill: Option<string>, name: string)
      /** The value counts of one column. */
    | PieTrace(column: string)
      /** The mean of `values` per row of `rows`, and per column of `columns` when there is one. */
    | HeatmapTrace(values: string, rows: string, columns: Option<string>)

  datatype Layout = Layout(title: string, xTitle: Option<string>, yTitle: Option<string>, size: Option<(nat, nat)>)

  datatype PlotReply = Drawn(data: seq<Trace>, layout: Layout) | Refused(status: nat, error: string)

  const AxesRequiredMessage := "x_axis and y_axes are required for this plot type."
  const InvalidColumnsMessage := "Invalid columns selected for x_axis or y_axes."
  const PieAxisRequiredMessage := "x_axis is required for pie charts."
  const PieInvalidColumnMessage := "Invalid column selected for x_axis."
  const PieOneAxisMessage := "Pie chart supports only one Y-axis variable."
  const UploadNotFoundMessage := "CSV file not found."

  const HeatmapSize: (nat, nat) := (500, 800)

  /** Some y axis is not a column of the table. */
  predicate SomeUnknownAxis(f: Frame, ys: seq<string>) {
    exists k :: 0 <= k < |ys| && !HasColumn(f, ys[k])
  }

  /** The request checks of `PlotDataView.post`, in order; `None` when the plot can be drawn. */
  function RequestProblem(f: Frame, t: PlotType, x: string, ys: seq<string>): Option<string> {
    if t != Pie then
      if x == "" || ys == [] then Some(AxesRequiredMessage)
      else if !HasColumn(f, x) || SomeUnknownAxis(f, ys) then Some(InvalidColumnsMessage)
      else None
    else if x == "" then Some(PieAxisRequiredMessage)
    else if !HasColumn(f, x) then Some(PieInvalidColumnMessage)
    else if |ys| > 1 then Some(PieOneAxisMessage)
    else None
  }

  /** What the server accepts, per plot type, stated without the order of the checks. */
  predicate Drawable(f: Frame, t: PlotType, x: string, ys: seq<string>) {
    x != "" && HasColumn(f, x)
    && (t == Pie ==> |ys| <= 1)
    && (t != Pie ==> |ys| > 0 && forall k :: 0 <= k < |ys| ==> HasColumn(f, ys[k]))
  }

  lemma RequestProblemIffNotDrawable(f: Frame, t: PlotType, x: string, ys: seq<string>)
    ensures RequestProblem(f, t, x, ys).None? <==> Drawable(f, t, x, ys)
  {
  }

  /** The trace drawn for one y axis of a box or series plot. */
  function TraceFor(f: Frame, t: PlotType, x: string, y: string): (tr: Trace)
    requires t == Box || IsSeriesType(t)
    ensures tr.SeriesTrace? && tr.name == y && tr.y == ColumnValues(f, y)
    ensures t == Box <==> tr.x.None?
    ensures t != Box ==> tr.x == Some(ColumnValues(f, x))
  {
    var xs := Some(ColumnValues(f, x));
    var ys := ColumnValues(f, y);
    match t
    case Box => SeriesTrace(None, ys, "box", None, None, y)
    case Scatter => SeriesTrace(xs, ys, "scatter", Some("markers"), None, y)
    case Bar => SeriesTrace(xs, ys, "bar", None, None, y)
    case Line => SeriesTrace(xs, ys, "scatter", Some("lines"), None, y)
    case Area => SeriesTrace(xs, ys, "scatter", Some("lines"), Some("tozeroy"), y)
  }

  /** The traces of a box or series plot: one per y axis, in order. */
  function AxisTraces(f: Frame, t: PlotType, x: string, ys: seq<string>): (data: seq<Trace>)
    requires t == Box || IsSeriesType(t)
    ensures |data| == |ys| && forall i :: 0 <= i < |ys| ==> data[i] == TraceFor(f, t, x, ys[i])
  {
    seq(|ys|, i requires 0 <= i < |ys| => TraceFor(f, t, x, ys[i]))
  }

  /** The traces drawn once the request checks pass. */
  function TracesFor(f: Frame, t: PlotType, x: string, ys: seq<string>): (data: seq<Trace>)
    requires t == Heatmap ==> |ys| > 0
    ensures t == Pie ==> data == [PieTrace(x)]
    ensures t == Heatmap ==>
              |data| == 1 && data[0].HeatmapTrace? && data[0].values == ys[0] && data[0].rows == x
              && (data[0].columns.Some? <==> |ys| > 1)
    ensures t != Pie && t != Heatmap ==>
              |data| == |ys| && forall i :: 0 <= i < |ys| ==> data[i].SeriesTrace? && data[i].name == ys[i]
  {
    match t
    case Pie => [PieTrace(x)]
    case Heatmap => [HeatmapTrace(ys[0], x, if |ys| == 1 then None else Some(ys[1]))]
    case _ => AxisTraces(f, t, x, ys)
  }

  function LayoutFor(t: PlotType, x: string, ys: seq<string>): (l: Layout)
    requires t == Heatmap ==> |ys| > 0
    ensures l.size.Some? <==> t == Heatmap
    ensures l.xTitle.None? <==> t == Pie
    ensures t == Heatmap ==> l.xTitle == Some(if |ys| == 1 then ys[0] else ys[1]) && l.yTitle == Some(x)
    ensures t == Box ==> l.xTitle == Some("Variables") && l.yTitle == Some("Values")
    ensures IsSeriesType(t) ==> l.xTitle == Some(x) && l.yTitle == Some("Values")
  {
    match t
    case Pie => Layout("Pie Chart of " + x, None, None, None)
    case Heatmap =>
      if |ys| == 1 then Layout("Heatmap of " + ys[0] + " by " + x, Some(ys[0]), Some(x), Some(HeatmapSize))
      else Layout("Heatmap of " + ys[0] + " by " + x + " and " + ys[1], Some(ys[1]), Some(x), Some(HeatmapSize))
    case Box => Layout("Box Plot of " + Join(ys, ", "), Some("Variables"), Some("Values"), None)
    case _ => Layout(Join(ys, ", ") + " vs " + x, Some(x), Some("Values"), None)
  }

  /** `PlotDataView.post` after the body has been parsed: the upload lookup, the checks, then the plot. */
  function PlotData(req: PlotRequest, uploads: seq<Upload>, user: nat): (r: PlotReply)
    ensures r.Drawn? ==>
              FindUpload(uploads, req.csvUploadId, user).Some?
              && Drawable(FindUpload(uploads, req.csvUploadId, user).value, req.plotType, req.xAxis, req.yAxes)
    ensures r.Refused? ==> r.status in {400, 404}
  {
    match FindUpload(uploads, req.csvUploadId, user)
    case None => Refused(404, UploadNotFoundMessage)
    case Some(f) =>
      match RequestProblem(f, req.plotType, req.xAxis, req.yAxes)
      case Some(m) => Refused(400, m)
      case None =>
        RequestProblemIffNotDrawable(f, req.plotType, req.xAxis, req.yAxes);
        Drawn(TracesFor(f, req.plotType, req.xAxis, req.yAxes), LayoutFor(req.plotType, req.xAxis, req.yAxes))
  }

  /** The trace loops of `PlotDataView.post` for box and series plots. */
  method BuildAxisTraces(f: Frame, t: PlotType, x: string, ys: seq<string>) returns (data: seq<Trace>)
    requires t == Box || IsSeriesType(t)
    ensures data == AxisTraces(f, t, x, ys)
  {
    data := [];
    for i := 0 to |ys|
      invariant |data| == i
      invariant forall k :: 0 <= k < i ==> data[k] == TraceFor(f, t, x, ys[k])
    {
      data := data + [TraceFor(f, t, x, ys[i])];
    }
  }

  method PlotDataPost(req: PlotRequest, uploads: seq<Upload>, user: nat) returns (reply: PlotReply)
    ensures reply == PlotData(req, uploads, user)
  {
    var found := FindUpload(uploads, req.csvUploadId, user);
    if found.None? {
      return Refused(404, UploadNotFoundMessage);
    }
    var f := found.value;
    var problem := RequestProblem(f, req.plotType, req.xAxis, req.yAxes);
    if problem.Some? {
      return Refused(400, problem.value);
    }
    var data;
    if req.plotType == Box || IsSeriesType(req.plotType) {
      data := BuildAxisTraces(f, req.plotType, req.xAxis, req.yAxes);
    } else {
      data := TracesFor(f, req.plotType, req.xAxis, req.yAxes);
    }
    return Drawn(data, LayoutFor(req.plotType, req.xAxis, req.yAxes));
  }

  /**
   * A box plot draws exactly one trace per y axis, in order, named by that column and
   * holding its cells; the x axis, though checked, is not drawn.
   */
  lemma BoxTracesPerAxis(req: PlotRequest, uploads: seq<Upload>, user: nat)
    requires req.plotType == Box
    requires PlotData(req, uploads, user).Drawn?
    ensures var f := FindUpload(uploads, req.csvUploadId, user).value;
            var data := PlotData(req, uploads, user).data;
            |data| == |req.yAxes|
            && forall i :: 0 <= i < |data| ==>
                 data[i].SeriesTrace? && data[i].traceType == "box" && data[i].x.None?
                 && data[i].name == req.yAxes[i] && data[i].y == ColumnValues(f, req.yAxes[i])
  {
  }

  /**
   * A series plot draws one trace per y axis, in order, against the x column, with the
   * trace type and mode fixed by the plot type; its title lists the y axes, then " vs ",
   * then the x axis.
   */
  lemma SeriesTracesPerAxis(req: PlotRequest, uploads: seq<Upload>, user: nat, i: nat)
    requires IsSeriesType(req.plotType)
    requires PlotData(req, uploads, user).Drawn?
    requires i < |req.yAxes|
    ensures var f := FindUpload(uploads, req.csvUploadId, user).value;
            var r := PlotData(req, uploads, user);
            |r.data| == |req.yAxes|
            && r.data[i].SeriesTrace? && r.data[i].name == req.yAxes[i]
            && r.data[i].x == Some(ColumnValues(f, req.xAxis)) && r.data[i].y == ColumnValues(f, req.yAxes[i])
            && r.data[i].traceType == (if req.plotType == Bar then "bar" else "scatter")
            && r.data[i].mode == (if req.plotType == Bar then None else if req.plotType == Scatter then Some("markers") else Some("lines"))
            && (r.data[i].fill.Some? <==> req.plotType == Area)
            && r.layout.title == Join(req.yAxes, ", ") + " vs " + req.xAxis
  {
  }

  /**
   * A heatmap uses only its first two y axes: once every axis is a column, dropping the
   * axes after the second leaves the reply as it was.
   */
  lemma HeatmapUsesFirstTwoAxes(req: PlotRequest, uploads: seq<Upload>, user: nat)
    requires req.plotType == Heatmap && |req.yAxes| >= 2
    requires var f := FindUpload(uploads, req.csvUploadId, user);
             f.Some? ==> forall k :: 0 <= k < |req.yAxes| ==> HasColumn(f.value, req.yAxes[k])
    ensures PlotData(req, uploads, user) == PlotData(req.(yAxes := req.yAxes[..2]), uploads, user)
  {
    var f := FindUpload(uploads, req.csvUploadId, user);
    if f.Some? {
      assert !SomeUnknownAxis(f.value, req.yAxes);
      assert !SomeUnknownAxis(f.value, req.yAxes[..2]);
    }
  }

  /** A heatmap with one y axis takes its values from it, one row per x value. */
  lemma HeatmapSingleAxis(req: PlotRequest, uploads: seq<Upload>, user: nat)
    requires req.plotType == Heatmap && |req.yAxes| == 1
    requires PlotData(req, uploads, user).Drawn?
    ensures PlotData(req, uploads, user).data == [HeatmapTrace(req.yAxes[0], req.xAxis, None)]
    ensures PlotData(req, uploads, user).layout.xTitle == Some(req.yAxes[0])
  {
  }

  // ---------------------------------------------------------------------------
  // Group counts
  // ---------------------------------------------------------------------------

  const MissingParametersMessage := "Missing required parameters."

  function InvalidColumnMessage(column: string): string {
    "Invalid column selected: " + column
  }

  /**
   * The cell texts `read_csv` reads as a missing value (NaN) under its default `na_values`,
   * the empty cell among them.
   */
  const MissingMarkers: set<string> := {
    "", "#N/A", "#N/A N/A", "#NA", "-1.#IND", "-1.#QNAN", "-NaN", "-nan", "1.#IND", "1.#QNAN",
    "<NA>", "N/A", "NA", "NULL", "NaN", "None", "n/a", "nan", "null"
  }

  predicate IsMissingCell(v: string) {
    v in MissingMarkers
  }

  /**
   * `df.groupby(column).size()`: each value of the column with the number of rows holding
   * it; missing cells form no group, since `groupby` drops NaN keys.
   */
  function GroupCounts(values: seq<string>): (counts: map<string, nat>)
    ensures forall v :: v in counts <==> v in values && !IsMissingCell(v)
    ensures forall v :: v in counts ==> counts[v] == multiset(values)[v] && counts[v] >= 1
  {
    map v | v in values && !IsMissingCell(v) :: multiset(values)[v]
  }

  /** A column of missing cells only, such as an unanswered question of the survey export, has no group at all. */
  lemma AllMissingNoGroups(values: seq<string>)
    requires forall k :: 0 <= k < |values| ==> IsMissingCell(values[k])
    ensures GroupCounts(values) == map[]
  {
  }

  datatype GroupByReply = Grouped(results: map<string, map<string, nat>>) | GroupRefused(status: nat, error: string)

  /** The first requested column that is not a column of the table. */
  function FirstUnknownColumn(f: Frame, columns: seq<string>): (r: Option<string>)
    ensures r.None? <==> forall k :: 0 <= k < |columns| ==> HasColumn(f, columns[k])
    ensures r.Some? ==> exists k :: 0 <= k < |columns| && columns[k] == r.value && !HasColumn(f, columns[k])
                                    && forall l :: 0 <= l < k ==> HasColumn(f, columns[l])
  {
    if columns == [] then None
    else if !HasColumn(f, columns[0]) then Some(columns[0])
    else
      var r := FirstUnknownColumn(f, columns[1..]);
      assert r.Some? ==> exists k :: 1 <= k < |columns| && columns[k] == r.value && !HasColumn(f, columns[k])
                                     && forall l :: 0 <= l < k ==> HasColumn(f, columns[l]) by {
        if r.Some? {
          var k :| 0 <= k < |columns[1..]| && columns[1..][k] == r.value && !HasColumn(f, columns[1..][k])
                   && forall l :: 0 <= l < k ==> HasColumn(f, columns[1..][l]);
          forall l | 1 <= l < k + 1 ensures HasColumn(f, columns[l]) {
            assert columns[l] == columns[1..][l - 1];
          }
        }
      }
      r
  }

  /** `GroupByView.post` after the body has been parsed; an upload id of 0 counts as missing. */
  function GroupBy(columns: seq<string>, csvUploadId: Option<nat>, uploads: seq<Upload>, user: nat): (r: GroupByReply)
    ensures r.Grouped? ==> columns != [] && forall c :: c in r.results <==> c in columns
  {
    if columns == [] || csvUploadId.None? || csvUploadId.value == 0 then GroupRefused(400, MissingParametersMessage)
    else
      match FindUpload(uploads, csvUploadId.value, user)
      case None => GroupRefused(404, UploadNotFoundMessage)
      case Some(f) =>
        match FirstUnknownColumn(f, columns)
        case Some(c) => GroupRefused(400, InvalidColumnMessage(c))
        case None => Grouped(map c | c in columns :: GroupCounts(ColumnValues(f, c)))
  }

  /** The column loop of `GroupByView.post`, which returns at the first unknown column. */
  method GroupByColumns(f: Frame, columns: seq<string>) returns (reply: GroupByReply)
    ensures FirstUnknownColumn(f, columns).Some? ==> reply == GroupRefused(400, InvalidColumnMessage(FirstUnknownColumn(f, columns).value))
    ensures FirstUnknownColumn(f, columns).None? ==> reply == Grouped(map c | c in columns :: GroupCounts(ColumnValues(f, c)))
  {
    var results: map<string, map<string, nat>> := map[];
    for i := 0 to |columns|
      invariant forall k :: 0 <= k < i ==> HasColumn(f, columns[k])
      invariant results == map c | c in columns[..i] :: GroupCounts(ColumnValues(f, c))
    {
      var column := columns[i];
      if !HasColumn(f, column) {
        assert FirstUnknownColumn(f, columns) == Some(column) by {
          FirstUnknownIsFirst(f, columns, i);
        }
        return GroupRefused(400, InvalidColumnMessage(column));
      }
      assert columns[..i + 1] == columns[..i] + [column];
      results := results[column := GroupCounts(ColumnValues(f, column))];
    }
    assert columns[..|columns|] == columns;
    return Grouped(results);
  }

  /** An unknown column with only known columns before it is the first unknown one. */
  lemma {:induction false} FirstUnknownIsFirst(f: Frame, columns: seq<string>, i: nat)
    requires i < |columns| && !HasColumn(f, columns[i])
    requires forall k :: 0 <= k < i ==> HasColumn(f, columns[k])
    ensures FirstUnknownColumn(f, columns) == Some(columns[i])
  {
    if i > 0 {
      FirstUnknownIsFirst(f, columns[1..], i - 1);
    }
  }

  method GroupByPost(columns: seq<string>, csvUploadId: Option<nat>, uploads: seq<Upload>, user: nat) returns (reply: GroupByReply)
    ensures reply == GroupBy(columns, csvUploadId, uploads, user)
  {
    if columns == [] || csvUploadId.None? || csvUploadId.value == 0 {
      return GroupRefused(400, MissingParametersMessage);
    }
    var found := FindUpload(uploads, csvUploadId.value, user);
    if found.None? {
      return GroupRefused(404, UploadNotFoundMessage);
    }
    reply := GroupByColumns(found.value, columns);
  }

  /** An unknown column refuses the whole request, naming the first unknown column: no partial result. */
  lemma GroupByAllOrNothing(columns: seq<string>, csvUploadId: Option<nat>, uploads: seq<Upload>, user: nat, f: Frame)
    requires columns != [] && csvUploadId.Some? && csvUploadId.value != 0
    requires FindUpload(uploads, csvUploadId.value, user) == Some(f)
    ensures GroupBy(columns, csvUploadId, uploads, user).Grouped? <==> forall k :: 0 <= k < |columns| ==> HasColumn(f, columns[k])
    ensures GroupBy(columns, csvUploadId, uploads, user).GroupRefused? ==>
              exists k :: 0 <= k < |columns| && !HasColumn(f, columns[k])
                          && GroupBy(columns, csvUploadId, uploads, user).error == InvalidColumnMessage(columns[k])
                          && forall l :: 0 <= l < k ==> HasColumn(f, columns[l])
  {
  }
}

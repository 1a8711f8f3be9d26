/**
 * The spreadsheet analyser page (`SurveyAnalyzer`): the list of plot drafts the analyst
 * edits, the client-side check of a plot before it is requested, the guards on drawing,
 * grouping and saving, and how the server's replies land in the page state.
 */
module PlotRequests {
  import opened Wrappers
  import opened PlotService

  /** A drawn plot as stored on its draft: the server's traces and layout. */
  datatype Drawing = Drawing(data: seq<Trace>, layout: Layout)

  /** One plot of the page; its type is `None` while "Select Plot Type" is picked, an unset x axis is "". */
  datatype PlotDraft = PlotDraft(
    title: string,
    description: string,
    plotType: Option<PlotType>,
    xAxis: string,
    yAxes: seq<string>,
    data: Option<Drawing>)

  const BlankPlot := PlotDraft("", "", None, "", [], None)

  /** One `updatePlot(index, field, value)` call, for the three fields the page's controls edit. */
  datatype PlotEdit =
    | SetType(plotType: Option<PlotType>)
    | SetXAxis(xAxis: string)
    | SetYAxes(yAxes: seq<string>)

  function ApplyEdit(p: PlotDraft, e: PlotEdit): (r: PlotDraft)
    ensures r.data == p.data && r.title == p.title && r.description == p.description
    ensures r.plotType == (if e.SetType? then e.plotType else p.plotType)
    ensures r.xAxis == (if e.SetXAxis? then e.xAxis else p.xAxis)
    ensures r.yAxes == (if e.SetYAxes? then e.yAxes else p.yAxes)
  {
    match e
    case SetType(t) => p.(plotType := t)
    case SetXAxis(x) => p.(xAxis := x)
    case SetYAxes(ys) => p.(yAxes := ys)
  }

  // ---------------------------------------------------------------------------
  // Client-side checks
  // ---------------------------------------------------------------------------

  const NoTypeMessage := "Please select a plot type."
  const PieNeedsXMessage := "x_axis is required for pie charts."
  const HeatmapAxesMessage := "x_axis and y_axes are required for heatmaps."
  const HeatmapTooManyMessage := "Heatmap supports maximum 2 y_axes variables."
  const BoxNeedsYMessage := "At least one y_axis is required for box plots."
  const AxesMessage := "x_axis and y_axes are required for this plot type."
  const GenerateGuardMessage := "Please select a plot type and upload a file."
  const GenerateFailedMessage := "Failed to generate plot. Please try again."
  const GroupByGuardMessage := "Please select at least one column and upload a file."
  const GroupByFailedMessage := "Failed to generate groupby output. Please try again."
  const SaveGuardMessage := "Please provide a title and author name for the analysis."
  const SaveFailedMessage := "Failed to save analysis. Please try again."
  const UploadFailedMessage := "Failed to upload file. Please try again."

  /** `validatePlot`: the message it sets, or `None` when the plot may be requested. */
  function ValidatePlot(p: PlotDraft): (r: Option<string>)
    ensures p.plotType.None? ==> r == Some(NoTypeMessage)
    ensures p.plotType == Some(Pie) ==> (r.None? <==> p.xAxis != "")
    ensures p.plotType == Some(Heatmap) ==> (r.None? <==> p.xAxis != "" && 1 <= |p.yAxes| <= 2)
    ensures p.plotType == Some(Box) ==> (r.None? <==> |p.yAxes| > 0)
    ensures p.plotType.Some? && IsSeriesType(p.plotType.value) ==> (r.None? <==> p.xAxis != "" && |p.yAxes| > 0)
  {
    match p.plotType
    case None => Some(NoTypeMessage)
    case Some(Pie) => if p.xAxis == "" then Some(PieNeedsXMessage) else None
    case Some(Heatmap) =>
      if p.xAxis == "" || |p.yAxes| == 0 then Some(HeatmapAxesMessage)
      else if |p.yAxes| > 2 then Some(HeatmapTooManyMessage)
      else None
    case Some(Box) => if |p.yAxes| == 0 then Some(BoxNeedsYMessage) else None
    case Some(_) => if p.xAxis == "" || |p.yAxes| == 0 then Some(AxesMessage) else None
  }

  /** `!csvUploadId`: no upload yet, or the falsy id 0. */
  predicate NoUpload(csvUploadId: Option<nat>) {
    csvUploadId.None? || csvUploadId.value == 0
  }

  /** The checks of `generatePlot` before the request: its own guard first, then `validatePlot`. */
  function GenerateProblem(p: PlotDraft, csvUploadId: Option<nat>): (r: Option<string>)
    ensures p.plotType.None? || NoUpload(csvUploadId) ==> r == Some(GenerateGuardMessage)
    ensures r.None? ==> p.plotType.Some? && !NoUpload(csvUploadId) && ValidatePlot(p).None?
  {
    if p.plotType.None? || NoUpload(csvUploadId) then Some(GenerateGuardMessage) else ValidatePlot(p)
  }

  /** The body `generatePlot` posts. */
  function PlotRequestOf(p: PlotDraft, csvUploadId: nat): PlotRequest
    requires p.plotType.Some?
  {
    PlotRequest(p.plotType.value, p.xAxis, p.yAxes, csvUploadId)
  }

  /** `err.response?.data?.error || 'Failed to generate plot. ...'`; `None` is no reply at all. */
  function PlotFailureMessage(reply: Option<PlotReply>): string {
    if reply.Some? && reply.value.Refused? && reply.value.error != "" then reply.value.error
    else GenerateFailedMessage
  }

  /** The reply the server gives to the upload. */
  datatype UploadReply = Uploaded(id: nat, columns: seq<string>)

  /** The analysis details the page's inputs edit. */
  datatype DetailField = TitleField | AuthorField | DescriptionField

  /** The analysis `saveAnalysis` posts. */
  datatype AnalysisPayload = AnalysisPayload(title: string, authorName: string, description: string, plots: seq<PlotDraft>)

  class Analyzer {
    var columns: seq<string>
    var plots: seq<PlotDraft>
    var groupByOutput: Option<map<string, map<string, nat>>>
    var csvUploadId: Option<nat>
    var error: Option<string>
    var analysisTitle: string
    var authorName: string
    var description: string

    constructor ()
      ensures columns == [] && plots == [] && groupByOutput == None && csvUploadId == None && error == None
      ensures analysisTitle == "" && authorName == "" && description == ""
    {
      columns := [];
      plots := [];
      groupByOutput := None;
      csvUploadId := None;
      error := None;
      analysisTitle := "";
      authorName := "";
      description := "";
    }

    /** `handleFileUpload`: the upload's id and columns, or the failure message; `None` is a failed upload. */
    method UploadFile(reply: Option<UploadReply>)
      modifies this
      ensures reply.Some? ==> columns == reply.value.columns && csvUploadId == Some(reply.value.id) && error == None
      ensures reply.None? ==> columns == old(columns) && csvUploadId == old(csvUploadId) && error == Some(UploadFailedMessage)
      ensures plots == old(plots) && groupByOutput == old(groupByOutput)
      ensures analysisTitle == old(analysisTitle) && authorName == old(authorName) && description == old(description)
    {
      error := None;
      if reply.Some? {
        columns := reply.value.columns;
        csvUploadId := Some(reply.value.id);
      } else {
        error := Some(UploadFailedMessage);
      }
    }

    /** The three inputs of the analysis details: each replaces its own field with the typed text. */
    method SetDetail(field: DetailField, value: string)
      modifies this
      ensures analysisTitle == (if field == TitleField then value else old(analysisTitle))
      ensures authorName == (if field == AuthorField then value else old(authorName))
      ensures description == (if field == DescriptionField then value else old(description))
      ensures plots == old(plots) && columns == old(columns) && csvUploadId == old(csvUploadId)
      ensures groupByOutput == old(groupByOutput) && error == old(error)
    {
      match field
      case TitleField => analysisTitle := value;
      case AuthorField => authorName := value;
      case DescriptionField => description := value;
    }

    /** `addPlot`: one blank plot at the end. */
    method AddPlot()
      modifies this
      ensures plots == old(plots) + [BlankPlot]
      ensures columns == old(columns) && csvUploadId == old(csvUploadId) && error == old(error)
      ensures groupByOutput == old(groupByOutput)
      ensures analysisTitle == old(analysisTitle) && authorName == old(authorName) && description == old(description)
    {
      plots := plots + [BlankPlot];
    }

    /** `updatePlot`: one field of one plot; every other plot and field stays. */
    method UpdatePlot(index: nat, edit: PlotEdit)
      requires index < |plots|
      modifies this
      ensures plots == old(plots)[index := ApplyEdit(old(plots[index]), edit)]
      ensures columns == old(columns) && csvUploadId == old(csvUploadId) && error == old(error)
      ensures groupByOutput == old(groupByOutput)
      ensures analysisTitle == old(analysisTitle) && authorName == old(authorName) && description == old(description)
    {
      plots := plots[index := ApplyEdit(plots[index], edit)];
    }

    /**
     * `generatePlot`: the checks, then the request, then the server's reply, which is a
     * parameter (`None` when no reply arrives). A drawing is stored on the plot; a refusal
     * is shown as the page's error and the plot is left as it was.
     */
    method GeneratePlot(index: nat, reply: Option<PlotReply>) returns (request: Option<PlotRequest>)
      requires index < |plots|
      modifies this
      ensures var problem := GenerateProblem(old(plots[index]), old(csvUploadId));
              && (problem.Some? ==> request.None? && plots == old(plots) && error == problem)
              && (problem.None? ==> request == Some(PlotRequestOf(old(plots[index]), old(csvUploadId).value)))
      ensures request.Some? && reply.Some? && reply.value.Drawn? ==>
                plots == old(plots)[index := old(plots[index]).(data := Some(Drawing(reply.value.data, reply.value.layout)))]
                && error == None
      ensures request.Some? && !(reply.Some? && reply.value.Drawn?) ==>
                plots == old(plots) && error == Some(PlotFailureMessage(reply))
      ensures columns == old(columns) && csvUploadId == old(csvUploadId) && groupByOutput == old(groupByOutput)
      ensures analysisTitle == old(analysisTitle) && authorName == old(authorName) && description == old(description)
    {
      var plot := plots[index];
      if plot.plotType.None? || NoUpload(csvUploadId) {
        error := Some(GenerateGuardMessage);
        return None;
      }
      var problem := ValidatePlot(plot);
      if problem.Some? {
        error := problem;
        return None;
      }
      error := None;
      request := Some(PlotRequestOf(plot, csvUploadId.value));
      if reply.Some? && reply.value.Drawn? {
        plots := plots[index := plot.(data := Some(Drawing(reply.value.data, reply.value.layout)))];
      } else {
        error := Some(PlotFailureMessage(reply));
      }
    }

    /** `generateGroupBy`: the guard, then the request; the server's reply is a parameter. */
    method GenerateGroupBy(selected: seq<string>, reply: Option<GroupByReply>) returns (requested: bool)
      modifies this
      ensures requested <==> selected != [] && !NoUpload(old(csvUploadId))
      ensures !requested ==> error == Some(GroupByGuardMessage) && groupByOutput == old(groupByOutput)
      ensures requested && reply.Some? && reply.value.Grouped? ==> groupByOutput == Some(reply.value.results) && error == None
      ensures requested && !(reply.Some? && reply.value.Grouped?) ==>
                groupByOutput == old(groupByOutput) && error == Some(GroupByFailedMessage)
      ensures plots == old(plots) && columns == old(columns) && csvUploadId == old(csvUploadId)
      ensures analysisTitle == old(analysisTitle) && authorName == old(authorName) && description == old(description)
    {
      if selected == [] || NoUpload(csvUploadId) {
        error := Some(GroupByGuardMessage);
        return false;
      }
      error := None;
      if reply.Some? && reply.value.Grouped? {
        groupByOutput := Some(reply.value.results);
      } else {
        error := Some(GroupByFailedMessage);
      }
      return true;
    }

    /** `saveAnalysis`: the guard, then the analysis posted; whether the store accepted it is a parameter. */
    method SaveAnalysis(accepted: bool) returns (posted: Option<AnalysisPayload>)
      modifies this
      ensures old(analysisTitle) == "" || old(authorName) == "" ==> posted.None? && error == Some(SaveGuardMessage)
      ensures old(analysisTitle) != "" && old(authorName) != "" ==>
                posted == Some(AnalysisPayload(analysisTitle, authorName, description, plots))
                && error == (if accepted then None else Some(SaveFailedMessage))
      ensures plots == old(plots) && columns == old(columns) && csvUploadId == old(csvUploadId)
      ensures analysisTitle == old(analysisTitle) && authorName == old(authorName) && description == old(description)
      ensures groupByOutput == old(groupByOutput)
    {
      if analysisTitle == "" || authorName == "" {
        error := Some(SaveGuardMessage);
        return None;
      }
      error := None;
      posted := Some(AnalysisPayload(analysisTitle, authorName, description, plots));
      if !accepted {
        error := Some(SaveFailedMessage);
      }
    }
  }

  // ---------------------------------------------------------------------------
  // The page against the server
  // ---------------------------------------------------------------------------

  /** The axes of a plot are columns of the uploaded table (the page offers only those). */
  predicate AxesAreColumns(f: Frame, p: PlotDraft) {
    (p.xAxis != "" ==> HasColumn(f, p.xAxis)) && forall k :: 0 <= k < |p.yAxes| ==> HasColumn(f, p.yAxes[k])
  }

  /**
   * A plot the page lets through, on axes taken from the table, is drawn by the server,
   * except for the two cases the server checks more strictly: a box plot without an x
   * axis and a pie chart with more than one y axis left over from an earlier type.
   */
  lemma PassedPlotIsDrawn(p: PlotDraft, id: nat, uploads: seq<Upload>, user: nat, f: Frame)
    requires GenerateProblem(p, Some(id)).None?
    requires FindUpload(uploads, id, user) == Some(f)
    requires AxesAreColumns(f, p)
    requires !(p.plotType == Some(Box) && p.xAxis == "")
    requires !(p.plotType == Some(Pie) && |p.yAxes| > 1)
    ensures PlotData(PlotRequestOf(p, id), uploads, user).Drawn?
  {
    assert !SomeUnknownAxis(f, p.yAxes);
  }

  /** A box plot without an x axis passes the page's check and is refused by the server. */
  lemma BoxWithoutXRefused(p: PlotDraft, id: nat, uploads: seq<Upload>, user: nat, f: Frame)
    requires p.plotType == Some(Box) && p.xAxis == "" && |p.yAxes| > 0 && id != 0
    requires FindUpload(uploads, id, user) == Some(f)
    ensures GenerateProblem(p, Some(id)).None?
    ensures PlotData(PlotRequestOf(p, id), uploads, user) == Refused(400, AxesRequiredMessage)
  {
  }

  /** A pie chart with y axes kept from an earlier type passes the page's check and is refused by the server. */
  lemma PieWithSeveralYRefused(p: PlotDraft, id: nat, uploads: seq<Upload>, user: nat, f: Frame)
    requires p.plotType == Some(Pie) && p.xAxis != "" && HasColumn(f, p.xAxis) && |p.yAxes| > 1 && id != 0
    requires FindUpload(uploads, id, user) == Some(f)
    ensures GenerateProblem(p, Some(id)).None?
    ensures PlotData(PlotRequestOf(p, id), uploads, user) == Refused(400, PieOneAxisMessage)
  {
  }

  /** A heatmap with three or more y axes is refused by the page although the server would draw its first two. */
  lemma HeatmapLimitOnlyOnPage(p: PlotDraft, id: nat, uploads: seq<Upload>, user: nat, f: Frame)
    requires p.plotType == Some(Heatmap) && p.xAxis != "" && |p.yAxes| > 2 && id != 0
    requires FindUpload(uploads, id, user) == Some(f)
    requires AxesAreColumns(f, p)
    ensures GenerateProblem(p, Some(id)) == Some(HeatmapTooManyMessage)
    ensures PlotData(PlotRequestOf(p, id), uploads, user).Drawn?
  {
    assert !SomeUnknownAxis(f, p.yAxes);
  }
}

/**
 * The reports page: its filter state, the generate and export handlers with
 * their missing-date guard, and the totals shown under a generated report.
 * The server's answer to each request is passed in as a parameter.
 */
module Reports {
  import opened Common
  import opened AttendanceModel
  import opened PersonalAggregator

  datatype ToastKind = Success | Failure

  /** A notification shown to the user. */
  datatype Toast = Toast(kind: ToastKind, message: string)

  const MissingDates: Toast := Toast(Failure, "Please select start and end dates")
  const Generated: Toast := Toast(Success, "Report generated successfully!")
  const GenerateFailed: Toast := Toast(Failure, "Failed to generate report")
  const Exported: Toast := Toast(Success, "Report exported successfully!")
  const ExportFailed: Toast := Toast(Failure, "Failed to export report")

  /** The three inputs of the filter form. */
  datatype FilterField = StartDate | EndDate | EmployeeId

  class ReportsPage {
    var startDate: string
    var endDate: string
    var employeeId: string
    var reportData: seq<Entry>
    var isLoading: bool

    /** The page as first rendered: empty filters, no data, not loading. */
    constructor ()
      ensures startDate == "" && endDate == "" && employeeId == ""
      ensures reportData == [] && !isLoading
    {
      startDate, endDate, employeeId := "", "", "";
      reportData := [];
      isLoading := false;
    }

    /** Both dates are filled in, the one condition for sending a request. */
    predicate HasDates()
      reads this
    {
      startDate != "" && endDate != ""
    }

    /** `handleFilterChange`: one input replaced, the others kept. */
    method ChangeFilter(field: FilterField, value: string)
      modifies this
      ensures startDate == (if field == StartDate then value else old(startDate))
      ensures endDate == (if field == EndDate then value else old(endDate))
      ensures employeeId == (if field == EmployeeId then value else old(employeeId))
      ensures reportData == old(reportData) && isLoading == old(isLoading)
    {
      match field
      case StartDate => startDate := value;
      case EndDate => endDate := value;
      case EmployeeId => employeeId := value;
    }

    /**
     * `handleGenerateReport`, given the server's answer: without both dates nothing
     * is requested and nothing changes; otherwise the data is replaced on success,
     * kept on failure, and loading ends either way.
     */
    method GenerateReport(response: Result<seq<Entry>, string>) returns (toast: Toast, requested: bool)
      modifies this
      ensures requested <==> old(HasDates())
      ensures !requested ==> toast == MissingDates && reportData == old(reportData) && isLoading == old(isLoading)
      ensures requested ==> !isLoading
      ensures requested && response.Ok? ==> toast == Generated && reportData == response.value
      ensures requested && response.Err? ==> toast == GenerateFailed && reportData == old(reportData)
      ensures startDate == old(startDate) && endDate == old(endDate) && employeeId == old(employeeId)
    {
      if startDate == "" || endDate == "" {
        return MissingDates, false;
      }
      requested := true;
      isLoading := true;
      if response.Ok? {
        reportData := response.value;
        toast := Generated;
      } else {
        toast := GenerateFailed;
      }
      isLoading := false;
    }

    /**
     * `handleExportCSV`, given whether the CSV request succeeded: the same guard, and
     * no change to the page in any case.
     */
    method ExportCsv(downloaded: bool) returns (toast: Toast, requested: bool)
      ensures requested <==> HasDates()
      ensures !requested ==> toast == MissingDates
      ensures requested ==> toast == (if downloaded then Exported else ExportFailed)
      ensures toast.kind == Success <==> requested && downloaded
    {
      if startDate == "" || endDate == "" {
        return MissingDates, false;
      }
      toast := if downloaded then Exported else ExportFailed;
      requested := true;
    }

    /**
     * `totals`: none for an empty report; otherwise `calculateTotals`, which counts
     * each status once per record and sums the hours.
     */
    method Totals() returns (totals: Option<Summary>)
      ensures totals.None? <==> reportData == []
      ensures totals.Some? ==>
        && (forall s :: totals.value.counts.Get(s) == CountStatus(Records(reportData), s))
        && totals.value.counts.Total() == |reportData|
        && totals.value.totalHours == SumHours(Records(reportData))
    {
      if |reportData| > 0 {
        var sum := Summarize(Records(reportData));
        totals := Some(sum);
      } else {
        totals := None;
      }
    }
  }

  /**
   * Generating with a date missing, then filling it in and generating again: the
   * first attempt is refused with no effect, the second replaces the data.
   */
  method GenerateAfterFillingDates(page: ReportsPage, day: string, data: seq<Entry>)
    returns (first: Toast, second: Toast)
    requires page.startDate != "" && page.endDate == "" && day != ""
    modifies page
    ensures first == MissingDates && second == Generated
    ensures page.reportData == data && !page.isLoading
  {
    var asked;
    first, asked := page.GenerateReport(Ok(data));
    page.ChangeFilter(EndDate, day);
    second, asked := page.GenerateReport(Ok(data));
  }
}

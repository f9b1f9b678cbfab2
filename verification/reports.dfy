/** Report export as the screens drive it: the chosen format, the request (endpoint,
    JSON body, download filename), and the `downloading` flag and error line before and
    after the request settles. The HTTP exchange and the browser download are not modelled;
    only how the request ended is an input. */
module Reports {
  import opened Options
  import opened Dates

  /** `reportFormat`, which the screens only ever set to "excel" or "pdf". */
  datatype Format = Excel | Pdf

  /** `reportFormat.toUpperCase()`. */
  function Label(f: Format): string
  {
    match f
    case Excel => "EXCEL"
    case Pdf => "PDF"
  }

  /** The file extension of the download: `pdf` for PDF, `xlsx` otherwise. */
  function Extension(f: Format): string
  {
    if f == Pdf then "pdf" else "xlsx"
  }

  /** The format-specific failure text, e.g. "PDF export failed!". */
  function FormatFailed(f: Format): (msg: string)
    ensures msg != ""
  {
    Label(f) + " export failed!"
  }

  /** How the export request ended: the file arrived, the server answered with a non-2xx
      status (`!res.ok`), or something threw an error carrying `message`. */
  datatype Response = Delivered | NotOk | Threw(message: string)

  /** What is sent and where the result is saved. The body is the JSON object's entries. */
  datatype Request = Request(endpoint: string, body: map<string, string>, filename: string)

  /** The visible export state: the `downloading` flag and the error line. */
  datatype Phase = Phase(downloading: bool, error: string)

  /** One export: the request, the phase while it runs, and the phase once it has settled. */
  datatype Export = Export(request: Request, running: Phase, settled: Phase)

  /** The common shape of every `handleExport`: clear the error and raise `downloading`,
      issue the request, and lower `downloading` whatever happened, showing `failure` unless
      the file arrived. */
  function Run(request: Request, failure: string, response: Response): (e: Export)
    requires failure != ""
    ensures e.request == request
    ensures e.running.downloading && e.running.error == ""
    ensures !e.settled.downloading
    ensures e.settled.error == "" <==> response.Delivered?
    ensures !response.Delivered? ==> e.settled.error == failure
  {
    Export(request, Phase(true, ""), Phase(false, if response.Delivered? then "" else failure))
  }

  /** The date part of a filtered export body: `startDate` and `endDate` are sent only
      when both inputs are filled. */
  function RangeBody(r: DateRange): (b: map<string, string>)
    ensures "startDate" in b <==> r.startDate != "" && r.endDate != ""
    ensures "endDate" in b <==> "startDate" in b
    ensures b.Keys <= {"startDate", "endDate"}
    ensures "startDate" in b ==> b["startDate"] == r.startDate && b["endDate"] == r.endDate
  {
    if r.startDate != "" && r.endDate != "" then
      map["startDate" := r.startDate, "endDate" := r.endDate]
    else map[]
  }

  /** The range a dated report uses: the inputs when both are filled, otherwise day 01 of
      the current month through today (which is also written back to the inputs). */
  function ResolveRange(r: DateRange, today: Date): (x: DateRange)
    requires IsClockDate(today)
    ensures r.startDate != "" && r.endDate != "" ==> x == r
    ensures r.startDate == "" || r.endDate == "" ==> x == CurrentMonthRange(today)
    ensures x.startDate != "" && x.endDate != ""
  {
    if r.startDate == "" || r.endDate == "" then CurrentMonthRange(today) else r
  }

  /** The error line of a dated report that failed: the thrown error's message when it has
      one, the format-specific text otherwise (a non-2xx answer throws exactly that text). */
  function DatedFailure(f: Format, response: Response): (msg: string)
    ensures msg != ""
    ensures response.Threw? && response.message != "" ==> msg == response.message
    ensures !(response.Threw? && response.message != "") ==> msg == FormatFailed(f)
  {
    match response
    case Threw(m) => OrElse(Some(m), FormatFailed(f))
    case _ => FormatFailed(f)
  }

  /** A dated export and the range written back to the date inputs. */
  datatype DatedExport = DatedExport(range: DateRange, run: Export)

  /** `handleExport` of the tape-roll and kraft-mailer screens, given the two endpoints and
      the filename prefix: the body always carries exactly the resolved `startDate` and
      `endDate`, and the file is `<prefix><start>_to_<end>.<pdf|xlsx>`. */
  function RunDated(excelEndpoint: string, pdfEndpoint: string, prefix: string,
                    inputs: DateRange, f: Format, today: Date, response: Response): (r: DatedExport)
    requires IsClockDate(today)
    ensures r.range == ResolveRange(inputs, today)
    ensures r.run.request.endpoint == if f == Pdf then pdfEndpoint else excelEndpoint
    ensures r.run.request.body.Keys == {"startDate", "endDate"}
    ensures r.run.request.body["startDate"] == r.range.startDate
    ensures r.run.request.body["endDate"] == r.range.endDate
    ensures r.run.request.filename
              == prefix + r.range.startDate + "_to_" + r.range.endDate + "." + Extension(f)
    ensures r.run.running.downloading && !r.run.settled.downloading
    ensures r.run.settled.error == if response.Delivered? then "" else DatedFailure(f, response)
  {
    var range := ResolveRange(inputs, today);
    var endpoint := if f == Pdf then pdfEndpoint else excelEndpoint;
    var body := map["startDate" := range.startDate, "endDate" := range.endDate];
    var filename := prefix + range.startDate + "_to_" + range.endDate + "." + Extension(f);
    DatedExport(range, Run(Request(endpoint, body, filename), DatedFailure(f, response), response))
  }
}

/** The tape-roll screen: the unfiltered list and its pages, row and footer totals, the
    dated report export, and the form. */
module TapeRolls {
  import opened Options
  import opened Seqs
  import opened Text
  import opened Dates
  import Paging
  import Reports
  import EditController

  datatype TapeRoll = TapeRoll(id: string, date: string, quantity: int, price: int, platform: string)

  function Quantity(t: TapeRoll): int { t.quantity }
  function Price(t: TapeRoll): int { t.price }

  /** The "Total" cell of a row: quantity times price. */
  function RowTotal(t: TapeRoll): int { t.quantity * t.price }

  // ---- List, pages and footer ----

  function Visible(ts: seq<TapeRoll>, page: int): seq<TapeRoll>
  {
    Paging.Page(ts, page)
  }

  /** The footer row over the full list: Σquantity, Σprice and Σ(quantity·price). */
  datatype Footer = Footer(quantity: int, price: int, total: int)

  function FooterOf(ts: seq<TapeRoll>): Footer
  {
    Footer(Sum(ts, Quantity), Sum(ts, Price), Sum(ts, RowTotal))
  }

  /** The footer total is the row totals shown on all the pages added together; its
      quantity and price are those columns added over every page. */
  lemma FooterIsSumOfRowTotals(ts: seq<TapeRoll>)
    ensures FooterOf(ts).total == Paging.SumOverPages(ts, RowTotal)
    ensures FooterOf(ts).quantity == Paging.SumOverPages(ts, Quantity)
    ensures FooterOf(ts).price == Paging.SumOverPages(ts, Price)
  {
    Paging.SumIsSumOverPages(ts, RowTotal);
    Paging.SumIsSumOverPages(ts, Quantity);
    Paging.SumIsSumOverPages(ts, Price);
  }

  /** Every tape roll is on the page its position says, and `⌈n/20⌉` pages cover the list. */
  lemma PagesCoverList(ts: seq<TapeRoll>, i: nat)
    requires i < |ts|
    ensures 1 <= i / Paging.PageSize + 1 <= Paging.TotalPages(|ts|)
    ensures ts[i] in Visible(ts, i / Paging.PageSize + 1)
    ensures Paging.PagesUpTo(ts, Paging.TotalPages(|ts|)) == ts
  {
    Paging.RowIsOnItsPage(ts, i);
    Paging.PagesPartitionList(ts);
  }

  // ---- Export ----

  /** `handleExport`: the report endpoints `taproll-report` and `taproll-report-pdf`, the
      range (defaulted to this month when a date is missing), and the file
      `taproll-report-<start>_to_<end>.<pdf|xlsx>`. */
  function Export(inputs: DateRange, f: Reports.Format, today: Date, response: Reports.Response): (r: Reports.DatedExport)
    requires IsClockDate(today)
    ensures r.run.request.endpoint == if f == Reports.Pdf then "taproll-report-pdf" else "taproll-report"
    ensures r.run.request.body == map["startDate" := r.range.startDate, "endDate" := r.range.endDate]
    ensures r.run.request.filename
              == "taproll-report-" + r.range.startDate + "_to_" + r.range.endDate + "." + Reports.Extension(f)
    ensures inputs.startDate != "" && inputs.endDate != "" ==> r.range == inputs
    ensures (inputs.startDate == "" || inputs.endDate == "") && IsFourDigitYear(today) ==>
              && ParseIso(r.range.startDate) == Some(Date(today.year, today.month, 1))
              && ParseIso(r.range.endDate) == Some(today)
    ensures r.run.running.downloading && r.run.running.error == ""
    ensures !r.run.settled.downloading
    ensures r.run.settled.error == "" <==> response.Delivered?
    ensures response.NotOk? ==> r.run.settled.error == Reports.Label(f) + " export failed!"
    ensures response.Threw? ==> r.run.settled.error == OrElse(Some(response.message), Reports.Label(f) + " export failed!")
  {
    var r := Reports.RunDated("taproll-report", "taproll-report-pdf", "taproll-report-",
                              inputs, f, today, response);
    assert r.run.request.body == map["startDate" := r.range.startDate, "endDate" := r.range.endDate];
    r
  }

  // ---- The add/edit form ----

  datatype TapeRollForm = TapeRollForm(date: string, quantity: int, price: int, platform: string)

  /** `reset()`: empty date and platform, zero quantity and price. */
  const Defaults := TapeRollForm("", 0, 0, "")

  /** `handleEdit`: the date cut to its first 10 UTF-16 units, the other fields copied. */
  function Prefill(t: TapeRoll): (f: TapeRollForm)
    ensures f.date == Prefix(t.date, 10)
    ensures f.quantity == t.quantity && f.price == t.price && f.platform == t.platform
  {
    TapeRollForm(Prefix(t.date, 10), t.quantity, t.price, t.platform)
  }

  function IdOf(t: TapeRoll): string { t.id }

  /** The record an update under `id` stores. */
  function Saved(id: string, f: TapeRollForm): TapeRoll
  {
    TapeRoll(id, f.date, f.quantity, f.price, f.platform)
  }

  /** Editing a tape roll and submitting the untouched form stores it again under its id,
      unchanged when its date is already a plain `YYYY-MM-DD` (10 UTF-16 units or fewer). */
  lemma EditThenSubmitResends(s: EditController.State<TapeRoll, TapeRollForm>, t: TapeRoll)
    ensures var q := EditController.SubmitRequest(EditController.Edit(s, t, Prefill(t)), IdOf);
            && q.Update? && q.id == t.id
            && Saved(q.id, q.body) == t.(date := Prefix(t.date, 10))
            && (Utf16Length(t.date) <= 10 ==> Saved(q.id, q.body) == t)
  {
    if Utf16Length(t.date) <= 10 {
      PrefixOfShort(t.date, 10);
    }
  }

  /** Editing a stored ISO timestamp puts exactly its calendar date into the date input. */
  lemma TimestampPrefillsDate(t: TapeRoll, d: Date, time: string)
    requires IsFourDigitYear(d) && t.date == FormatIso(d) + time
    ensures Prefill(t).date == FormatIso(d)
    ensures ParseIso(Prefill(t).date) == Some(d)
  {
    IsoDateOfTimestamp(d, time);
    IsoRoundTrip(d);
  }

  /** The export and the form share this screen's one error line (`error`): after any
      controller events, a settled export shows its failure text in place of whatever was
      there, or clears the line when the file arrived, and keeps the selection. */
  lemma ExportSharesErrorLine(s: EditController.State<TapeRoll, TapeRollForm>,
                              acts: seq<EditController.Action<TapeRoll, TapeRollForm>>,
                              defaults: TapeRollForm, inputs: DateRange, f: Reports.Format, today: Date,
                              response: Reports.Response)
    requires IsClockDate(today)
    ensures var e := Export(inputs, f, today, response).run;
            var r := EditController.Run(s, acts + [EditController.ExportSettled(e.settled.error)], defaults);
            && e.running.error == ""
            && (r.error == "" <==> response.Delivered?)
            && (response.NotOk? ==> r.error == Reports.Label(f) + " export failed!")
            && (response.Threw? ==> r.error == OrElse(Some(response.message), Reports.Label(f) + " export failed!"))
            && r.editing == EditController.Run(s, acts, defaults).editing
  {
    EditController.ExportLeavesItsError(s, acts, defaults, Export(inputs, f, today, response).run.settled.error);
  }
}

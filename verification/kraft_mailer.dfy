/** The kraft-mailer screen: the unfiltered list and its pages, the footer totals, the
    dated report export, and the form with its nested box size. */
module KraftMailers {
  import opened Options
  import opened Seqs
  import opened Text
  import opened Dates
  import Paging
  import Reports
  import EditController

  /** The box size of a mailer. */
  datatype Size = Size(width: int, height: int, depth: int)

  /** A mailer as listed by the server; `totalPrice` is computed there. */
  datatype KraftMailer = KraftMailer(
    id: string, date: string, quantity: int, price: int, totalPrice: int, size: Size)

  function Quantity(k: KraftMailer): int { k.quantity }
  function Price(k: KraftMailer): int { k.price }
  function TotalPrice(k: KraftMailer): int { k.totalPrice }

  // ---- List, pages and footer ----

  /** The rows on page `page`: the list is not filtered. */
  function Visible(ks: seq<KraftMailer>, page: int): seq<KraftMailer>
  {
    Paging.Page(ks, page)
  }

  /** Every mailer is on exactly the page its position says, and the pages, laid end to
      end, are the whole list. */
  lemma PagesCoverList(ks: seq<KraftMailer>, i: nat)
    requires i < |ks|
    ensures 1 <= i / Paging.PageSize + 1 <= Paging.TotalPages(|ks|)
    ensures ks[i] in Visible(ks, i / Paging.PageSize + 1)
    ensures Paging.PagesUpTo(ks, Paging.TotalPages(|ks|)) == ks
  {
    Paging.RowIsOnItsPage(ks, i);
    Paging.PagesPartitionList(ks);
  }

  /** The footer row: total quantity, total price and total of `totalPrice`. */
  datatype Footer = Footer(quantity: int, price: int, totalPrice: int)

  function FooterOf(ks: seq<KraftMailer>): Footer
  {
    Footer(Sum(ks, Quantity), Sum(ks, Price), Sum(ks, TotalPrice))
  }

  /** The footer covers the whole list, not the page on screen: it is the page totals
      added over every page. */
  lemma FooterAddsUpPages(ks: seq<KraftMailer>)
    ensures FooterOf(ks).quantity == Paging.SumOverPages(ks, Quantity)
    ensures FooterOf(ks).price == Paging.SumOverPages(ks, Price)
    ensures FooterOf(ks).totalPrice == Paging.SumOverPages(ks, TotalPrice)
  {
    Paging.SumIsSumOverPages(ks, Quantity);
    Paging.SumIsSumOverPages(ks, Price);
    Paging.SumIsSumOverPages(ks, TotalPrice);
  }

  // ---- Export ----

  /** `handleExport`: the report endpoints `kraftmailer-report` and `kraftmailer-report-pdf`,
      the range (defaulted to this month when a date is missing), and the file
      `kraftmailer-report-<start>_to_<end>.<pdf|xlsx>`. */
  function Export(inputs: DateRange, f: Reports.Format, today: Date, response: Reports.Response): (r: Reports.DatedExport)
    requires IsClockDate(today)
    ensures r.run.request.endpoint == if f == Reports.Pdf then "kraftmailer-report-pdf" else "kraftmailer-report"
    ensures r.run.request.body == map["startDate" := r.range.startDate, "endDate" := r.range.endDate]
    ensures r.run.request.filename
              == "kraftmailer-report-" + r.range.startDate + "_to_" + r.range.endDate + "." + Reports.Extension(f)
    ensures inputs.startDate != "" && inputs.endDate != "" ==> r.range == inputs
    ensures (inputs.startDate == "" || inputs.endDate == "") && IsFourDigitYear(today) ==>
              && ParseIso(r.range.startDate) == Some(Date(today.year, today.month, 1))
              && ParseIso(r.range.endDate) == Some(today)
    ensures r.run.running.downloading && r.run.running.error == ""
    ensures !r.run.settled.downloading
    ensures r.run.settled.error == "" <==> response.Delivered?
    ensures response.NotOk? ==> r.run.settled.error == Reports.Label(f) + " export failed!"
    ensures response.Threw? ==> r.run.settled.error == OrElse(Some(response.message), Reports.Label(f) + " export failed!")
  {
    var r := Reports.RunDated("kraftmailer-report", "kraftmailer-report-pdf", "kraftmailer-report-",
                              inputs, f, today, response);
    assert r.run.request.body == map["startDate" := r.range.startDate, "endDate" := r.range.endDate];
    r
  }

  // ---- The add/edit form ----

  /** The form values, the size nested as `size.width`, `size.height`, `size.depth`. */
  datatype KraftMailerForm = KraftMailerForm(date: string, quantity: int, price: int, size: Size)

  /** `reset()`: an empty date and zeros everywhere else. */
  const Defaults := KraftMailerForm("", 0, 0, Size(0, 0, 0))

  /** The body `onSubmit` sends: the form fields with a size rebuilt from the form's
      width, height and depth. Rebuilding loses nothing: the body is the form. */
  function Payload(f: KraftMailerForm): (p: KraftMailerForm)
    ensures p == f
  {
    f.(size := Size(f.size.width, f.size.height, f.size.depth))
  }

  /** `handleEdit`: the date cut to its first 10 UTF-16 units, the other fields copied. */
  function Prefill(k: KraftMailer): (f: KraftMailerForm)
    ensures f.date == Prefix(k.date, 10)
    ensures f.quantity == k.quantity && f.price == k.price && f.size == k.size
  {
    KraftMailerForm(Prefix(k.date, 10), k.quantity, k.price, k.size)
  }

  function IdOf(k: KraftMailer): string { k.id }

  /** The request `onSubmit` issues: update under the edited mailer's id, or add. */
  function SubmitRequest(s: EditController.State<KraftMailer, KraftMailerForm>): (q: EditController.Request<KraftMailerForm>)
    ensures q.body == Payload(s.form)
    ensures q.Update? <==> s.editing.Some?
    ensures q.Update? ==> q.id == s.editing.value.id
  {
    EditController.SubmitRequest(s.(form := Payload(s.form)), IdOf)
  }

  /** A stored date is an ISO timestamp `YYYY-MM-DDT…`: the date input then receives
      exactly the calendar date. */
  lemma TimestampPrefillsDate(k: KraftMailer, d: Date, time: string)
    requires IsFourDigitYear(d) && k.date == FormatIso(d) + time
    ensures Prefill(k).date == FormatIso(d)
    ensures ParseIso(Prefill(k).date) == Some(d)
  {
    IsoDateOfTimestamp(d, time);
    IsoRoundTrip(d);
  }

  /** Editing a mailer and submitting the untouched form resends its quantity, price and
      size under its id, with the date cut to the calendar date. */
  lemma EditThenSubmitResends(s: EditController.State<KraftMailer, KraftMailerForm>, k: KraftMailer)
    ensures var q := SubmitRequest(EditController.Edit(s, k, Prefill(k)));
            && q.Update? && q.id == k.id
            && q.body == KraftMailerForm(Prefix(k.date, 10), k.quantity, k.price, k.size)
  {
  }

  /** The export and the form share this screen's one error line (`error`): after any
      controller events, a settled export shows its failure text in place of whatever was
      there, or clears the line when the file arrived, and keeps the selection. */
  lemma ExportSharesErrorLine(s: EditController.State<KraftMailer, KraftMailerForm>,
                              acts: seq<EditController.Action<KraftMailer, KraftMailerForm>>,
                              defaults: KraftMailerForm, inputs: DateRange, f: Reports.Format, today: Date,
                              response: Reports.Response)
    requires IsClockDate(today)
    ensures var e := Export(inputs, f, today, response).run;
            var r := EditController.Run(s, acts + [EditController.ExportSettled(e.settled.error)], defaults);
            && e.running.error == ""
            && (r.error == "" <==> response.Delivered?)
            && (response.NotOk? ==> r.error == Reports.Label(f) + " export failed!")
            && (response.Threw? ==> r.error == OrElse(Some(response.message), Reports.Label(f) + " export failed!"))
            && r.editing == EditController.Run(s, acts, defaults).editing
  {
    EditController.ExportLeavesItsError(s, acts, defaults, Export(inputs, f, today, response).run.settled.error);
  }
}

/** The return-order screen: selector and date-window filtering, pagination, the
    export request, footer totals and the "high return" product summary. */
module ReturnOrders {
  import opened Options
  import opened Seqs
  import opened Dates
  import Paging
  import Reports
  import Companies
  import Text
  import EditController

  /** The selector value meaning "no restriction". */
  const All := "all"

  /** A product is flagged once its returns in the window reach this quantity. */
  const HighReturnThreshold := 50

  datatype ReturnOrder = ReturnOrder(
    id: string, date: string, product: string, qty: int, price: int,
    company: string, platforms: seq<string>, returnReason: string, returnBy: string)

  /** The three selectors and the two date inputs. */
  datatype Filters = Filters(company: string, returnReason: string, returnBy: string, range: DateRange)

  /** Both date inputs are filled, so the window applies. */
  predicate WindowActive(range: DateRange)
  {
    range.startDate != "" && range.endDate != ""
  }

  /** The window test: the record's `DD-MM-YYYY` date lies between the two ISO inputs,
      both ends included. An unreadable date on either side compares false. */
  predicate InWindow(date: string, range: DateRange)
  {
    var d := ParseDayMonthYear(date);
    var s := ParseIso(range.startDate);
    var e := ParseIso(range.endDate);
    d.Some? && s.Some? && e.Some? && Le(s.value, d.value) && Le(d.value, e.value)
  }

  /** The predicate of `filteredReturnOrders`. */
  predicate Matches(f: Filters, r: ReturnOrder)
  {
    && (f.company == All || r.company == f.company)
    && (f.returnReason == All || r.returnReason == f.returnReason)
    && (f.returnBy == All || r.returnBy == f.returnBy)
    && (!WindowActive(f.range) || InWindow(r.date, f.range))
  }

  /** `filteredReturnOrders`: an order-preserving subsequence of the fetched list holding
      every record, with its multiplicity, that passes each selector not set to "all" and,
      when both dates are set, lies in the window. */
  function Filtered(rs: seq<ReturnOrder>, f: Filters): (r: seq<ReturnOrder>)
    ensures IsSubsequence(r, rs)
    ensures forall i :: 0 <= i < |r| ==>
              && (f.company != All ==> r[i].company == f.company)
              && (f.returnReason != All ==> r[i].returnReason == f.returnReason)
              && (f.returnBy != All ==> r[i].returnBy == f.returnBy)
              && (WindowActive(f.range) ==> InWindow(r[i].date, f.range))
    ensures forall x :: multiset(r)[x] == if Matches(f, x) then multiset(rs)[x] else 0
  {
    var p := (x: ReturnOrder) => Matches(f, x);
    FilterIsSubsequence(rs, p);
    FilterCounts(rs, p);
    Filter(rs, p)
  }

  /** With every selector on "all" and the date window incomplete, nothing is filtered out. */
  lemma NoFiltersKeepsAll(rs: seq<ReturnOrder>, f: Filters)
    requires f.company == All && f.returnReason == All && f.returnBy == All
    requires !WindowActive(f.range)
    ensures Filtered(rs, f) == rs
  {
    FilterIdentity(rs, (x: ReturnOrder) => Matches(f, x));
  }

  /** What the screen shows: the filters and the current page number. */
  datatype View = View(filters: Filters, page: int)

  /** Changing the company selector shows page 1 of the new selection. */
  function SelectCompany(v: View, company: string): (r: View)
    ensures r.page == 1 && r.filters.company == company
    ensures r.filters.(company := v.filters.company) == v.filters
  {
    View(v.filters.(company := company), 1)
  }

  /** Changing the return-reason selector shows page 1 of the new selection. */
  function SelectReturnReason(v: View, reason: string): (r: View)
    ensures r.page == 1 && r.filters.returnReason == reason
    ensures r.filters.(returnReason := v.filters.returnReason) == v.filters
  {
    View(v.filters.(returnReason := reason), 1)
  }

  /** Changing the return-by selector shows page 1 of the new selection. */
  function SelectReturnBy(v: View, returnBy: string): (r: View)
    ensures r.page == 1 && r.filters.returnBy == returnBy
    ensures r.filters.(returnBy := v.filters.returnBy) == v.filters
  {
    View(v.filters.(returnBy := returnBy), 1)
  }

  /** The start-date input as written: the page number is kept. */
  function SetStartDate(v: View, startDate: string): (r: View)
    ensures r.page == v.page && r.filters.range.startDate == startDate
    ensures r.filters.(range := v.filters.range) == v.filters
    ensures r.filters.range.endDate == v.filters.range.endDate
  {
    View(v.filters.(range := v.filters.range.(startDate := startDate)), v.page)
  }

  /** The end-date input as written: the page number is kept. */
  function SetEndDate(v: View, endDate: string): (r: View)
    ensures r.page == v.page && r.filters.range.endDate == endDate
    ensures r.filters.(range := v.filters.range) == v.filters
    ensures r.filters.range.startDate == v.filters.range.startDate
  {
    View(v.filters.(range := v.filters.range.(endDate := endDate)), v.page)
  }

  /** The start-date input with the page reset the selectors do: page 1 of the new window. */
  function SetStartDateResettingPage(v: View, startDate: string): (r: View)
    ensures r.page == 1 && r.filters.range.startDate == startDate
    ensures r.filters.(range := v.filters.range) == v.filters
    ensures r.filters.range.endDate == v.filters.range.endDate
  {
    View(v.filters.(range := v.filters.range.(startDate := startDate)), 1)
  }

  /** The end-date input with the page reset the selectors do: page 1 of the new window. */
  function SetEndDateResettingPage(v: View, endDate: string): (r: View)
    ensures r.page == 1 && r.filters.range.endDate == endDate
    ensures r.filters.(range := v.filters.range) == v.filters
    ensures r.filters.range.startDate == v.filters.range.startDate
  {
    View(v.filters.(range := v.filters.range.(endDate := endDate)), 1)
  }

  /** The rows on screen. */
  function Visible(rs: seq<ReturnOrder>, v: View): seq<ReturnOrder>
  {
    Paging.Page(Filtered(rs, v.filters), v.page)
  }

  /** The pager is drawn only when there is more than one page. */
  predicate ShowsPager(rs: seq<ReturnOrder>, v: View)
  {
    Paging.TotalPages(|Filtered(rs, v.filters)|) > 1
  }

  /** On page 1 the screen shows the first rows of the selection: something whenever the
      selection is non-empty, and all of it whenever the pager is hidden. */
  lemma FirstPageShowsSelection(rs: seq<ReturnOrder>, v: View)
    requires v.page == 1
    ensures |Filtered(rs, v.filters)| > 0 ==> |Visible(rs, v)| > 0
    ensures !ShowsPager(rs, v) ==> Visible(rs, v) == Filtered(rs, v.filters)
  {
  }

  /** After any selector or (corrected) date change, rows that match are on screen. */
  lemma FilterChangesShowMatches(rs: seq<ReturnOrder>, v: View, value: string)
    ensures |Filtered(rs, SelectCompany(v, value).filters)| > 0 ==> |Visible(rs, SelectCompany(v, value))| > 0
    ensures |Filtered(rs, SelectReturnReason(v, value).filters)| > 0 ==> |Visible(rs, SelectReturnReason(v, value))| > 0
    ensures |Filtered(rs, SelectReturnBy(v, value).filters)| > 0 ==> |Visible(rs, SelectReturnBy(v, value))| > 0
    ensures |Filtered(rs, SetStartDateResettingPage(v, value).filters)| > 0 ==>
              |Visible(rs, SetStartDateResettingPage(v, value))| > 0
    ensures |Filtered(rs, SetEndDateResettingPage(v, value).filters)| > 0 ==>
              |Visible(rs, SetEndDateResettingPage(v, value))| > 0
  {
    FirstPageShowsSelection(rs, SelectCompany(v, value));
    FirstPageShowsSelection(rs, SelectReturnReason(v, value));
    FirstPageShowsSelection(rs, SelectReturnBy(v, value));
    FirstPageShowsSelection(rs, SetStartDateResettingPage(v, value));
    FirstPageShowsSelection(rs, SetEndDateResettingPage(v, value));
  }

  /** The date inputs as written keep the page. When the new window leaves at most one page
      of rows and the user was past page 1, the table is empty and the pager, which is
      drawn only for two pages or more, is gone, whatever rows match. */
  lemma DateChangeCanStrandPage(rs: seq<ReturnOrder>, v: View, endDate: string)
    requires v.page >= 2
    requires |Filtered(rs, SetEndDate(v, endDate).filters)| <= Paging.PageSize
    ensures Visible(rs, SetEndDate(v, endDate)) == []
    ensures !ShowsPager(rs, SetEndDate(v, endDate))
  {
  }

  /** A record of `Mug` returned on `date`, identified by `id`. */
  function MugReturn(id: string, date: string): ReturnOrder
  {
    ReturnOrder(id, date, "Mug", 1, 100, "Acme", [], "OK", "RTO")
  }

  /** Exactly one record with exactly one copy passes: the selection is that record. */
  lemma OneMatch(rs: seq<ReturnOrder>, f: Filters, x: ReturnOrder)
    requires forall i :: 0 <= i < |rs| ==> (Matches(f, rs[i]) <==> rs[i] == x)
    requires multiset(rs)[x] == 1
    ensures Filtered(rs, f) == [x]
  {
    var r := Filtered(rs, f);
    forall y ensures multiset(r)[y] == multiset([x])[y]
    {
      if y != x && y in rs {
        var i :| 0 <= i < |rs| && rs[i] == y;
      }
    }
    assert multiset(r) == multiset([x]);
    assert |r| == 1 by { assert |multiset(r)| == 1; }
    assert r[0] in multiset(r);
  }

  /** The example's selector state once both June dates are entered. */
  function JuneFilters(): Filters
  {
    Filters(All, All, All, DateRange("2024-06-01", "2024-06-30"))
  }

  /** The window test once the three dates are read. */
  lemma InWindowOfDates(date: string, range: DateRange, d: Date, s: Date, e: Date)
    requires ParseDayMonthYear(date) == Some(d)
    requires ParseIso(range.startDate) == Some(s) && ParseIso(range.endDate) == Some(e)
    ensures InWindow(date, range) <==> Le(s, d) && Le(d, e)
  {
  }

  lemma JuneWindowKeepsJune()
    ensures !Matches(JuneFilters(), MugReturn("jan", "01-01-2024"))
    ensures Matches(JuneFilters(), MugReturn("jun", "15-06-2024"))
  {
    JanuaryOutsideJune();
    JuneInsideJune();
  }

  lemma JanuaryOutsideJune()
    ensures !InWindow("01-01-2024", DateRange("2024-06-01", "2024-06-30"))
  {
    JanuaryFirst();
    JuneWindowDates();
    InWindowOfDates("01-01-2024", DateRange("2024-06-01", "2024-06-30"),
                    Date(2024, 1, 1), Date(2024, 6, 1), Date(2024, 6, 30));
  }

  lemma JuneInsideJune()
    ensures InWindow("15-06-2024", DateRange("2024-06-01", "2024-06-30"))
  {
    JuneFifteenth();
    JuneWindowDates();
    InWindowOfDates("15-06-2024", DateRange("2024-06-01", "2024-06-30"),
                    Date(2024, 6, 15), Date(2024, 6, 1), Date(2024, 6, 30));
  }

  /** Twenty copies of one record followed by another: the second is there once. */
  lemma TwentyThenOne(early: ReturnOrder, late: ReturnOrder, rs: seq<ReturnOrder>)
    requires early != late && rs == seq(20, i => early) + [late]
    ensures |rs| == 21
    ensures multiset(rs)[late] == 1
    ensures forall i :: 0 <= i < |rs| ==> rs[i] == if i < 20 then early else late
  {
    assert multiset(rs) == multiset(seq(20, i => early)) + multiset([late]);
    assert late !in seq(20, i => early);
  }

  /** Before the window: 21 rows, so two pages, and page 2 holds the last row. */
  lemma TwoPagesBefore(rs: seq<ReturnOrder>, v: View)
    requires |rs| == 21
    requires v.page == 2 && v.filters.company == All && v.filters.returnReason == All
    requires v.filters.returnBy == All && !WindowActive(v.filters.range)
    ensures ShowsPager(rs, v)
    ensures Visible(rs, v) == [rs[20]]
  {
    NoFiltersKeepsAll(rs, v.filters);
    assert Paging.Page(rs, 2) == rs[20..21];
  }

  /** Twenty copies of a record the window drops and one it keeps: two pages before the
      window, one row on page 2; with the window, one row in all and an empty page 2. */
  lemma StrandedPageWith(early: ReturnOrder, late: ReturnOrder, v: View, endDate: string)
    requires v.page == 2 && v.filters.company == All && v.filters.returnReason == All
    requires v.filters.returnBy == All && v.filters.range.endDate == ""
    requires !Matches(SetEndDate(v, endDate).filters, early) && Matches(SetEndDate(v, endDate).filters, late)
    ensures var rs := seq(20, i => early) + [late];
            && ShowsPager(rs, v)
            && Visible(rs, v) == [late]
            && Filtered(rs, SetEndDate(v, endDate).filters) == [late]
            && Visible(rs, SetEndDate(v, endDate)) == []
            && !ShowsPager(rs, SetEndDate(v, endDate))
  {
    var rs := seq(20, i => early) + [late];
    var w := SetEndDate(v, endDate);
    TwentyThenOne(early, late, rs);
    TwoPagesBefore(rs, v);
    OneMatch(rs, w.filters, late);
    DateChangeCanStrandPage(rs, v, endDate);
  }

  /** The stranded page happens: 20 January returns and one June return fill two pages;
      on page 2, choosing the window 1-30 June keeps the June return, yet the table is
      empty and there is no pager to go back with. */
  lemma StrandedPageExample()
    ensures var rs := seq(20, i => MugReturn("jan", "01-01-2024")) + [MugReturn("jun", "15-06-2024")];
            var v := SetStartDate(View(Filters(All, All, All, DateRange("", "")), 2), "2024-06-01");
            && ShowsPager(rs, v)
            && Filtered(rs, SetEndDate(v, "2024-06-30").filters) == [MugReturn("jun", "15-06-2024")]
            && Visible(rs, SetEndDate(v, "2024-06-30")) == []
            && !ShowsPager(rs, SetEndDate(v, "2024-06-30"))
  {
    var v := SetStartDate(View(Filters(All, All, All, DateRange("", "")), 2), "2024-06-01");
    assert SetEndDate(v, "2024-06-30").filters == JuneFilters();
    JuneWindowKeepsJune();
    StrandedPageWith(MugReturn("jan", "01-01-2024"), MugReturn("jun", "15-06-2024"), v, "2024-06-30");
  }

  /** The dates the example reads. */
  lemma JanuaryFirst()
    ensures ParseDayMonthYear("01-01-2024") == Some(Date(2024, 1, 1))
  {
    DayMonthYearRoundTrip(Date(2024, 1, 1));
    assert Text.PadTwo(1) == "01";
    YearText();
    assert FormatDayMonthYear(Date(2024, 1, 1)) == "01-01-2024";
  }

  lemma JuneFifteenth()
    ensures ParseDayMonthYear("15-06-2024") == Some(Date(2024, 6, 15))
  {
    DayMonthYearRoundTrip(Date(2024, 6, 15));
    assert Text.DecimalString(15) == "15" by {
      assert Text.DecimalString(1) == "1";
    }
    assert Text.PadTwo(15) == "15" && Text.PadTwo(6) == "06";
    YearText();
    assert FormatDayMonthYear(Date(2024, 6, 15)) == "15-06-2024";
  }

  lemma YearText()
    ensures Text.DecimalString(2024) == "2024"
  {
    assert Text.DecimalString(2) == "2";
    assert Text.DecimalString(20) == "20";
    assert Text.DecimalString(202) == "202";
  }

  lemma JuneWindowDates()
    ensures ParseIso("2024-06-01") == Some(Date(2024, 6, 1))
    ensures ParseIso("2024-06-30") == Some(Date(2024, 6, 30))
  {
    IsoRoundTrip(Date(2024, 6, 1));
    assert FormatIso(Date(2024, 6, 1)) == "2024-06-01";
    IsoRoundTrip(Date(2024, 6, 30));
    assert FormatIso(Date(2024, 6, 30)) == "2024-06-30";
  }

  /** The export body: `startDate`/`endDate` only when both are set, and `company`,
      `returnReason`, `returnBy` only for selectors not on "all". */
  function ExportBody(f: Filters): (b: map<string, string>)
    ensures "startDate" in b <==> WindowActive(f.range)
    ensures "endDate" in b <==> WindowActive(f.range)
    ensures "startDate" in b ==> b["startDate"] == f.range.startDate && b["endDate"] == f.range.endDate
    ensures "company" in b <==> f.company != All
    ensures "company" in b ==> b["company"] == f.company
    ensures "returnReason" in b <==> f.returnReason != All
    ensures "returnReason" in b ==> b["returnReason"] == f.returnReason
    ensures "returnBy" in b <==> f.returnBy != All
    ensures "returnBy" in b ==> b["returnBy"] == f.returnBy
    ensures b.Keys <= {"startDate", "endDate", "company", "returnReason", "returnBy"}
  {
    var b := Reports.RangeBody(f.range);
    var b := if f.company != All then b["company" := f.company] else b;
    var b := if f.returnReason != All then b["returnReason" := f.returnReason] else b;
    if f.returnBy != All then b["returnBy" := f.returnBy] else b
  }

  /** An export asks for everything exactly when the list on screen is unfiltered:
      the body is empty iff no selector and no complete window is set. */
  lemma EmptyBodyIffUnfiltered(rs: seq<ReturnOrder>, f: Filters)
    ensures ExportBody(f) == map[] <==>
              (f.company == All && f.returnReason == All && f.returnBy == All && !WindowActive(f.range))
    ensures ExportBody(f) == map[] ==> Filtered(rs, f) == rs
  {
    if ExportBody(f) == map[] {
      NoFiltersKeepsAll(rs, f);
    }
  }

  /** `handleExport`: the endpoint and extension follow the format, the file is
      `return_orders_report.<ext>`, `downloading` is raised then always lowered, and any
      failure reads "<FORMAT> export failed!". */
  function Export(f: Filters, format: Reports.Format, response: Reports.Response): (e: Reports.Export)
    ensures e.request.endpoint == if format == Reports.Pdf then "generate-return-order-report-pdf"
                                  else "generate-return-order-report"
    ensures e.request.body == ExportBody(f)
    ensures e.request.filename == "return_orders_report." + (if format == Reports.Pdf then "pdf" else "xlsx")
    ensures e.running.downloading && !e.settled.downloading
    ensures e.running.error == ""
    ensures e.settled.error == if response.Delivered? then "" else Reports.Label(format) + " export failed!"
  {
    var endpoint := if format == Reports.Pdf then "generate-return-order-report-pdf"
                    else "generate-return-order-report";
    var request := Reports.Request(endpoint, ExportBody(f), "return_orders_report." + Reports.Extension(format));
    Reports.Run(request, Reports.FormatFailed(format), response)
  }

  function Qty(r: ReturnOrder): int { r.qty }
  function Price(r: ReturnOrder): int { r.price }
  function Amount(r: ReturnOrder): int { r.qty * r.price }

  /** The footer row: total quantity, total price and total amount of the filtered list. */
  datatype Footer = Footer(qty: int, price: int, amount: int)

  function FooterOf(rs: seq<ReturnOrder>): Footer
  {
    Footer(Sum(rs, Qty), Sum(rs, Price), Sum(rs, Amount))
  }

  /** The footer covers the whole filtered list, not just the page on screen: it equals the
      page-by-page totals added over every page. */
  lemma FooterAddsUpPages(rs: seq<ReturnOrder>, f: Filters)
    ensures FooterOf(Filtered(rs, f)).qty == Paging.SumOverPages(Filtered(rs, f), Qty)
    ensures FooterOf(Filtered(rs, f)).price == Paging.SumOverPages(Filtered(rs, f), Price)
    ensures FooterOf(Filtered(rs, f)).amount == Paging.SumOverPages(Filtered(rs, f), Amount)
  {
    var xs := Filtered(rs, f);
    Paging.SumIsSumOverPages(xs, Qty);
    Paging.SumIsSumOverPages(xs, Price);
    Paging.SumIsSumOverPages(xs, Amount);
  }

  // ---- The add/edit form ----

  /** The form values. The two number inputs start empty (`""`), written `None`. */
  datatype ReturnOrderForm = ReturnOrderForm(
    date: string, product: string, qty: Option<int>, price: Option<int>,
    company: string, platforms: seq<string>, returnReason: string, returnBy: string)

  /** `reset()` brings the form back to its default values. */
  const Defaults := ReturnOrderForm("", "", None, None, "", [], "", "")

  /** `handleEdit`: all eight fields of the record go into the form unchanged. */
  function Prefill(r: ReturnOrder): (f: ReturnOrderForm)
    ensures f.date == r.date && f.product == r.product && f.qty == Some(r.qty)
    ensures f.price == Some(r.price) && f.company == r.company && f.platforms == r.platforms
    ensures f.returnReason == r.returnReason && f.returnBy == r.returnBy
  {
    ReturnOrderForm(r.date, r.product, Some(r.qty), Some(r.price), r.company, r.platforms,
                    r.returnReason, r.returnBy)
  }

  function IdOf(r: ReturnOrder): string { r.id }

  /** The record an update under `id` stores; `None` while a number field is empty. */
  function Saved(id: string, f: ReturnOrderForm): Option<ReturnOrder>
  {
    if f.qty.None? || f.price.None? then None
    else Some(ReturnOrder(id, f.date, f.product, f.qty.value, f.price.value, f.company,
                          f.platforms, f.returnReason, f.returnBy))
  }

  /** Editing a return order and submitting the untouched form stores the same record
      again, under its own id. */
  lemma EditThenSubmitResends(s: EditController.State<ReturnOrder, ReturnOrderForm>, r: ReturnOrder)
    ensures var q := EditController.SubmitRequest(EditController.Edit(s, r, Prefill(r)), IdOf);
            q.Update? && q.id == r.id && Saved(q.id, q.body) == Some(r)
  {
  }

  /** Choosing a company in the form also ticks that company's platforms, or clears them
      when the name is not in the company list; the other fields stay. */
  function PickCompany(f: ReturnOrderForm, companies: seq<Companies.Company>, name: string): (g: ReturnOrderForm)
    ensures g.company == name
    ensures g.platforms == Companies.PlatformsFor(companies, name)
    ensures g.(company := f.company, platforms := f.platforms) == f
  {
    f.(company := name, platforms := Companies.PlatformsFor(companies, name))
  }

  /** The export and the form share this screen's one error line (`error`): after any
      controller events, a settled export shows "<FORMAT> export failed!" in place of
      whatever was there, or clears the line when the file arrived, and keeps the selection. */
  lemma ExportSharesErrorLine(s: EditController.State<ReturnOrder, ReturnOrderForm>,
                              acts: seq<EditController.Action<ReturnOrder, ReturnOrderForm>>,
                              defaults: ReturnOrderForm, f: Filters, format: Reports.Format,
                              response: Reports.Response)
    ensures var e := Export(f, format, response);
            var r := EditController.Run(s, acts + [EditController.ExportSettled(e.settled.error)], defaults);
            && e.running.error == ""
            && r.error == (if response.Delivered? then "" else Reports.Label(format) + " export failed!")
            && r.editing == EditController.Run(s, acts, defaults).editing
  {
    EditController.ExportLeavesItsError(s, acts, defaults, Export(f, format, response).settled.error);
  }
}

# Inventory admin console — verified model of the screen logic

The console is a React single-page application. Staff use it to record and report
return orders, orders, kraft mailers, tape rolls and companies, and to register and log in.
Most of it is rendering and HTTP glue. Inside each screen component sits a layer of plain,
sequential logic, and this project models that layer in Dafny as pure functions over
immutable datatypes, with their properties proved. The layer covers:

- the list pipeline: the selectors and date window that filter a list, pages of 20 rows,
  footer totals, the company grouping of orders, and the high-return panel;
- report exports: the request body, endpoint and file name, the default date range, and the
  `downloading` flag with the error line;
- the add/edit/delete/cancel controller that every record screen repeats. On the four
  screens with an export, the export writes the same error line as the controller
  (`EditController.ExportSettled`);
- the auth screens: field rules, response-code handling, and the session token in
  `localStorage`.

Everything is deterministic once its inputs are explicit. The fetched list, the selector
values, today's date, the server's reply and the stored session are all parameters.

Modules follow the components:

- `ReturnOrders` and `HighReturns` for `ReturnOrder.jsx`;
- `Orders` for `Order.jsx`;
- `KraftMailers` for `KraftMailerManager.jsx`;
- `TapeRolls` for `TapeRollManager.jsx`;
- `Companies` for `Company.jsx`;
- `RegisterForm` for `RegisterForm.jsx`;
- `LoginForm` for `LoginForm.jsx`;
- `Header` for `Header.jsx`.

They share these modules:

| module | what it holds |
|---|---|
| `EditController` | the `(editing, form, error)` machine |
| `Reports` | the export phases |
| `Paging` | `slice`, page count |
| `Dates` | the two date formats |
| `Text` | split, pad, sanitise, UTF-16 length |
| `FieldRules` | react-hook-form's `required` / `minLength` / `pattern` rules |
| `Session` | `localStorage` |
| `JsObject` | names every plain object inherits |
| `Seqs` | filter, sum, sort |
| `Options` | `Option` and JavaScript's `\|\|` fallback on strings |

Modelling conventions:

- **Money and quantities** are integers in the smallest unit.
- **Dates** are `(year, month, day)` triples, ordered lexicographically.
  - A record date `DD-MM-YYYY` is read the way `new Date(y, m - 1, d)` reads its three `split('-')` parts, including the 1900 offset for a two-digit year.
  - Each of those parts goes through `Number`: white space around it is skipped, a blank part is 0, and a `+` may lead.
  - The date inputs give strict ISO `YYYY-MM-DD`.
  - A date that does not parse compares false, so an active window drops that record.
- **String lengths** are JavaScript `.length`, counted in UTF-16 code units.
- **Server replies** are the `Response` datatypes of each module:
  - the file arrived, a non-2xx status, or an error with a message for exports;
  - a body with `statusCode`, `message` and `data`, or a rejection carrying `error.data.message`, for the auth forms.

## Model

| member | source | states |
|---|---|---|
| Options.OrElse | src/components/company/Company.jsx:45 | `message \|\| fallback`: the message when it is present and non-empty, otherwise the fallback; never empty when the fallback is not |
| Seqs.SortDescending | src/components/ReturnOrder/ReturnOrder.jsx:544 | the result is ordered by the key, highest first, and is a permutation of the input |
| Seqs.SortIsStable | src/components/ReturnOrder/ReturnOrder.jsx:544 | the sort is stable, as `Array.prototype.sort` is: for every key, the elements with that key appear in their input order |
| Seqs.DistinctFacts | src/components/ReturnOrder/ReturnOrder.jsx:523-530 | `Array.from` of a `Set` built by `add`: every element once, nothing else, in first-added order (the distinct elements of any prefix come first) |
| Paging.Slice | src/components/Order/Order.jsx:63 | `Array.prototype.slice`: an in-range window is exactly that window; a start past the end gives nothing |
| Paging.Page | src/components/ReturnOrder/ReturnOrder.jsx:85 | page p holds at most 20 rows, exactly rows [(p-1)·20, p·20) clipped to the list |
| Paging.TotalPages | src/components/ReturnOrder/ReturnOrder.jsx:86 | `Math.ceil(n / 20)`: the fewest pages of 20 that hold n rows; zero only for an empty list |
| Paging.PagesPartitionList | src/components/ReturnOrder/ReturnOrder.jsx:85-86 | pages 1..totalPages concatenated give back the list exactly, with nothing duplicated or lost |
| Paging.RowIsOnItsPage | src/components/ReturnOrder/ReturnOrder.jsx:85-86 | row i sits on page ⌊i/20⌋+1 at position i mod 20, and that page exists |
| Paging.PageSizes | src/components/ReturnOrder/ReturnOrder.jsx:85-86 | every page before the last is full, the last holds the non-empty remainder, pages past it are empty |
| Paging.SumIsSumOverPages | src/components/ReturnOrder/ReturnOrder.jsx:684-692 | a footer sum over the whole list equals the sum of the per-page sums |
| Text.SplitJoin | src/components/ReturnOrder/ReturnOrder.jsx:74 | `split('-')` loses nothing: joining the parts with `-` gives the string back |
| Text.JoinSplit | src/components/ReturnOrder/ReturnOrder.jsx:74 | splitting parts that contain no separator after joining them gives the same parts |
| Text.DecimalRoundTrip | src/components/ReturnOrder/ReturnOrder.jsx:75 | the digits written for a number read back as that number |
| Text.PadTwo | src/components/KraftMailer/KraftMailerManager.jsx:110-111 | `padStart(2, "0")` of a month or day: two digits that read back as the number |
| Text.SanitizeFilename | src/components/Order/Order.jsx:171 | `replace(/[^a-zA-Z0-9]/g, '_')`: only letters, digits and `_` remain; one output character per UTF-16 unit; on BMP text each character is kept if alphanumeric and becomes `_` otherwise |
| Text.SanitizeIdempotent | src/components/Order/Order.jsx:171 | sanitising a sanitised name changes nothing |
| Text.SanitizeKeepsSafe | src/components/Order/Order.jsx:171 | a name of letters, digits and `_` is kept as it is |
| Text.Prefix | src/components/KraftMailer/KraftMailerManager.jsx:77 | `slice(0, n)` keeps a prefix of the string |
| Text.PrefixIsLongestFit | src/components/KraftMailer/KraftMailerManager.jsx:77 | `slice(0, n)` counts UTF-16 units: the cut fits in n units, and the next character would not fit |
| Text.PrefixOfShort | src/components/KraftMailer/KraftMailerManager.jsx:77 | a string of at most n UTF-16 units is kept whole |
| Text.PrefixOfBmp | src/components/KraftMailer/KraftMailerManager.jsx:77 | on Basic Multilingual Plane text the cut keeps n characters, or all of a shorter string |
| Text.PrefixOfAppend | src/components/TapRoll/TapeRollManager.jsx:65 | cutting at exactly the UTF-16 length of a leading part keeps that part |
| Text.PrefixIdempotent | src/components/TapRoll/TapeRollManager.jsx:65 | cutting a cut date again changes nothing |
| Text.Utf16Length | src/components/auth/RegisterForm.jsx:106-109 | `.length` counts at least one and at most two units per character |
| Dates.ParseIso | src/components/ReturnOrder/ReturnOrder.jsx:76-77 | a date input that parses is a calendar-shaped date (month 1-12, day 1-31) |
| Dates.IsoRoundTrip | src/components/KraftMailer/KraftMailerManager.jsx:110-111 | a four-digit-year date written as zero-padded `YYYY-MM-DD` parses back to itself |
| Text.ParseNatural | src/components/ReturnOrder/ReturnOrder.jsx:75 | `Number` of a field: a run of ASCII digits, including the empty one, reads as its decimal value |
| Text.ParseNaturalAccepts | src/components/ReturnOrder/ReturnOrder.jsx:75 | `Number` of a field gives a whole number exactly when, trimmed of white space, the field is blank or digits, possibly after one `+` |
| Text.TrimSkips | src/components/ReturnOrder/ReturnOrder.jsx:75 | `Number` first drops JavaScript white space: trimming removes the white space around a text and keeps the text itself |
| Text.BlankTrimsToEmpty | src/components/ReturnOrder/ReturnOrder.jsx:75 | text that is all white space trims to nothing |
| Text.ParseNaturalIgnoresWhitespace | src/components/ReturnOrder/ReturnOrder.jsx:75 | white space around digits does not change their value, and blank text reads as 0 |
| Dates.ParseDayMonthYear | src/components/ReturnOrder/ReturnOrder.jsx:74-75 | a record date that parses has a year of at least 100 (two-digit years shift to 19xx) |
| Dates.DayMonthYearValid | src/components/ReturnOrder/ReturnOrder.jsx:74-75 | a record date is valid exactly when `split('-')` gives at least three parts and `Number` reads each of the first three as a whole number |
| Dates.DayFieldReadByNumber | src/components/ReturnOrder/ReturnOrder.jsx:74-75 | a day field with white space around its digits, or blank, reads as that number, or 0, with month and year read as written |
| Dates.IsoDateOfTimestamp | src/components/KraftMailer/KraftMailerManager.jsx:77 | `slice(0, 10)` of a timestamp that starts with a four-digit-year ISO date is exactly that date |
| Dates.DayMonthYearRoundTrip | src/components/ReturnOrder/ReturnOrder.jsx:74-75 | a date written as `DD-MM-YYYY` parses back to itself |
| Dates.CurrentMonthRange | src/components/KraftMailer/KraftMailerManager.jsx:108-114 | the default range: the first of today's month to today, same year and month, day `01` at the start |
| Reports.FormatFailed | src/components/ReturnOrder/ReturnOrder.jsx:176 | `<FORMAT> export failed!` is never empty |
| Reports.Run | src/components/ReturnOrder/ReturnOrder.jsx:136-194 | the request is sent unchanged; `downloading` is raised with the error cleared and always lowered; the error is empty exactly when the file arrived and is the screen's failure text otherwise |
| Reports.RangeBody | src/components/Order/Order.jsx:143-146 | `startDate` and `endDate` are both sent, unchanged, exactly when both inputs are filled; nothing else |
| Reports.ResolveRange | src/components/TapRoll/TapeRollManager.jsx:87-95 | two filled dates are kept; if either is empty the range becomes this month so far; the result is always complete |
| Reports.DatedFailure | src/components/TapRoll/TapeRollManager.jsx:134-135 | the thrown message when it is non-empty, else `<FORMAT> export failed!` |
| Reports.RunDated | src/components/TapRoll/TapeRollManager.jsx:86-139 | the range written back is the resolved one; the body holds exactly its two dates; endpoint and `<prefix><start>_to_<end>.<ext>` follow the format; `downloading` always ends false |
| EditController.SubmitRequest | src/components/company/Company.jsx:36-41 | update under the edited record's id exactly when editing, else add; the body is the form |
| EditController.Pending | src/components/company/Company.jsx:34 | the error is cleared first; selection and form stay |
| EditController.Submit | src/components/company/Company.jsx:33-47 | success resets to the initial state and refetches; failure keeps selection and form and shows the server message or "Operation failed!" |
| EditController.Delete | src/components/company/Company.jsx:57-65 | never touches selection or form; failure shows the server message or "Delete failed!"; only success refetches |
| EditController.Edit | src/components/company/Company.jsx:50-54 | selects the record and pre-fills the form, leaving the error line |
| EditController.Cancel | src/components/company/Company.jsx:68-71 | clears the selection and resets the form without a server call |
| EditController.ErrorReflectsLastServerCall | src/components/company/Company.jsx:33-71 | after any run of actions the error line is the one left by the last submit, delete or (on screens that export) export |
| EditController.Exported | src/components/ReturnOrder/ReturnOrder.jsx:136-193 | a settled export writes the screen's one error line, keeping selection and form |
| EditController.ExportLeavesItsError | src/components/ReturnOrder/ReturnOrder.jsx:30-193 | whatever came before, a settled export leaves its own text on the shared error line and keeps selection and form |
| EditController.EditingReflectsLastSelection | src/components/company/Company.jsx:33-71 | after any run of actions the selection is the one left by the last edit, cancel or successful submit |
| Companies.Prefill | src/components/company/Company.jsx:50-54 | the form takes the company's name and platforms |
| Companies.EditThenSubmitResends | src/components/company/Company.jsx:36-38 | editing then submitting sends an update under the company's id that saves the company unchanged |
| Companies.SubmitOutcome | src/components/company/Company.jsx:29-47 | a successful submit ends at `{name: "", platforms: []}` with nothing selected; a failed one only sets the error |
| Companies.PlatformsFor | src/components/ReturnOrder/ReturnOrder.jsx:416-417 | `find` by name: the platforms of the first company with that name, none when no company has it |
| ReturnOrders.Filtered | src/components/ReturnOrder/ReturnOrder.jsx:65-82 | an order-preserving subsequence whose every row meets each active selector and the active window; each record is kept with its full multiplicity exactly when it matches |
| ReturnOrders.NoFiltersKeepsAll | src/components/ReturnOrder/ReturnOrder.jsx:66-72 | with every selector "all" and no complete range the list is unchanged |
| ReturnOrders.InWindowOfDates | src/components/ReturnOrder/ReturnOrder.jsx:71-79 | a record is in the window exactly when start ≤ its date ≤ end, both ends inclusive |
| ReturnOrders.JuneWindowKeepsJune | src/components/ReturnOrder/ReturnOrder.jsx:71-79 | the window 2024-06-01..2024-06-30 drops a record of 01-01-2024 and keeps one of 15-06-2024 |
| ReturnOrders.SelectCompany | src/components/ReturnOrder/ReturnOrder.jsx:231-233 | the company selector changes only that selector and returns to page 1 |
| ReturnOrders.SelectReturnReason | src/components/ReturnOrder/ReturnOrder.jsx:251-253 | the reason selector changes only that selector and returns to page 1 |
| ReturnOrders.SelectReturnBy | src/components/ReturnOrder/ReturnOrder.jsx:271-273 | the return-by selector changes only that selector and returns to page 1 |
| ReturnOrders.SetStartDate | src/components/ReturnOrder/ReturnOrder.jsx:209-215 | the start input changes only the start date and keeps the page |
| ReturnOrders.SetEndDate | src/components/ReturnOrder/ReturnOrder.jsx:217-223 | the end input changes only the end date and keeps the page |
| ReturnOrders.FirstPageShowsSelection | src/components/ReturnOrder/ReturnOrder.jsx:85-86 | on page 1 a non-empty selection shows rows, and without a pager it shows all of them |
| ReturnOrders.FilterChangesShowMatches | src/components/ReturnOrder/ReturnOrder.jsx:229-274 | after any selector change, or a date change that resets the page, a non-empty selection is visible |
| ReturnOrders.DateChangeCanStrandPage | src/components/ReturnOrder/ReturnOrder.jsx:217-223 | from page 2 or later, an end date that narrows the selection to one page shows no rows and no pager |
| ReturnOrders.StrandedPageExample | src/components/ReturnOrder/ReturnOrder.jsx:209-223 | 20 January returns and one June return on page 2; setting the June window leaves one match and an empty screen without a pager |
| ReturnOrders.SetStartDateResettingPage | src/components/ReturnOrder/ReturnOrder.jsx:209-215 | the start input as the selectors behave: only the start date changes, page 1 |
| ReturnOrders.SetEndDateResettingPage | src/components/ReturnOrder/ReturnOrder.jsx:217-223 | the end input as the selectors behave: only the end date changes, page 1 |
| ReturnOrders.ExportBody | src/components/ReturnOrder/ReturnOrder.jsx:140-157 | each key is present exactly when its filter is active and then carries that filter's value; no other keys |
| ReturnOrders.EmptyBodyIffUnfiltered | src/components/ReturnOrder/ReturnOrder.jsx:140-157 | the body is empty exactly when nothing filters the list, and then the export covers the whole list |
| ReturnOrders.ExportSharesErrorLine | src/components/ReturnOrder/ReturnOrder.jsx:30-193 | export and form share one error line: a settled export shows `<FORMAT> export failed!` in place of any earlier text, or clears it, and keeps the selection |
| ReturnOrders.Export | src/components/ReturnOrder/ReturnOrder.jsx:136-194 | pdf picks `generate-return-order-report-pdf` and `.pdf`, anything else the Excel endpoint and `.xlsx`; file `return_orders_report.<ext>`; any failure shows `<FORMAT> export failed!`; `downloading` always ends false |
| ReturnOrders.FooterAddsUpPages | src/components/ReturnOrder/ReturnOrder.jsx:684-692 | each footer cell is the sum over the filtered list and equals the sum of that column over its pages |
| ReturnOrders.Prefill | src/components/ReturnOrder/ReturnOrder.jsx:106-116 | every form field takes the record's value |
| ReturnOrders.EditThenSubmitResends | src/components/ReturnOrder/ReturnOrder.jsx:89-116 | editing then submitting sends an update under the record's id that saves the record unchanged |
| ReturnOrders.PickCompany | src/components/ReturnOrder/ReturnOrder.jsx:413-418 | choosing a company sets it and replaces the platforms with that company's, or none; other fields stay |
| HighReturns.SummaryOfSnoc | src/components/ReturnOrder/ReturnOrder.jsx:527-536 | one more return bumps only its product's entry: quantity, count, amount, companies and reason count |
| HighReturns.ReasonMapSnoc | src/components/ReturnOrder/ReturnOrder.jsx:533-536 | a reason's counter starts at 0 when first seen and rises by one per return |
| HighReturns.SummarizeIsGroupBy | src/components/ReturnOrder/ReturnOrder.jsx:515-539 | the reduce yields one entry per product, listed once each, holding the sums over exactly that product's returns |
| HighReturns.Values | src/components/ReturnOrder/ReturnOrder.jsx:542 | `Object.values`: one entry per listed key, in key order |
| HighReturns.HighReturnProducts | src/components/ReturnOrder/ReturnOrder.jsx:500-544 | the panel is ordered by total quantity, highest first, and holds only products with at least 50 |
| HighReturns.Panel | src/components/ReturnOrder/ReturnOrder.jsx:542-544 | the kept summaries, highest total first, each with total quantity at least 50 |
| HighReturns.PanelKeepsTieOrder | src/components/ReturnOrder/ReturnOrder.jsx:542-544 | products with equal totals of at least 50 keep their `Object.values` order; no total below 50 appears |
| HighReturns.CompaniesInFirstSeenOrder | src/components/ReturnOrder/ReturnOrder.jsx:523-576 | a card's companies are those of the product's returns, each once, in the order the returns first name them, as `Array.from(item.companies).join(", ")` shows |
| HighReturns.PanelOfWellFormed | src/components/ReturnOrder/ReturnOrder.jsx:542-544 | a summary is on the panel exactly when it is a product's entry and reaches 50; no product appears twice |
| HighReturns.HighReturnProductsAreGroupBy | src/components/ReturnOrder/ReturnOrder.jsx:500-544 | a summary is shown exactly when it is the full summary of a product returned in the last 30 days with total at least 50 |
| HighReturns.HighReturnProductsDistinct | src/components/ReturnOrder/ReturnOrder.jsx:541-544 | no product appears twice on the panel |
| HighReturns.SummarizeAsWrittenFailsOnInheritedNames | src/components/ReturnOrder/ReturnOrder.jsx:515-539 | the reduce on `{}` completes exactly when no product is named like an inherited object member, and then equals the group-by |
| HighReturns.ConstructorProductThrows | src/components/ReturnOrder/ReturnOrder.jsx:515-530 | a product named `constructor` makes the summary throw |
| Orders.ByCompany | src/components/Order/Order.jsx:58-60 | "all" gives the list; a company gives an order-preserving subsequence holding exactly that company's orders, each with its multiplicity |
| Orders.SelectCompany | src/components/Order/Order.jsx:249-251 | the company selector sets the company and returns to page 1 |
| Orders.SelectCompanyShowsOrders | src/components/Order/Order.jsx:58-64 | after choosing a company its orders are visible, all of them when they fit one page |
| Orders.GroupOrdersIsGroupBy | src/components/Order/Order.jsx:67-81 | the reduce yields one group per company, listed once each, holding that company's orders in order with their sums and count |
| Orders.GroupsPartitionOrders | src/components/Order/Order.jsx:67-81 | an order is in a company's group exactly when it is a fetched order of that company; totals are the sums; the count is the group's length |
| Orders.EveryOrderHasAGroup | src/components/Order/Order.jsx:67-76 | every fetched order's company has a group |
| Orders.GroupIsCompanyFilter | src/components/Order/Order.jsx:67-76 | a company's group lists the same orders, in the same order, as choosing that company in the list view |
| Orders.CompanyViewAddsUp | src/components/Order/Order.jsx:77-79 | the group counts add up to the number of orders, and the group totals add up to the footer totals of the whole list |
| Orders.GroupOrdersAsWrittenFailsOnInheritedNames | src/components/Order/Order.jsx:67-81 | the reduce on `{}` completes exactly when no company is named like an inherited object member, and then equals the group-by |
| Orders.ToStringCompanyThrows | src/components/Order/Order.jsx:68-76 | a company named `toString` makes the grouping throw |
| Orders.ToggleCompany | src/components/Order/Order.jsx:84-89 | flips the named company's flag, a missing flag counting as false, and no other |
| Orders.ToggleTwice | src/components/Order/Order.jsx:84-89 | toggling the same company twice shows every company as before |
| Orders.ExportBody | src/components/Order/Order.jsx:141-150 | the dates exactly when both are set; `company` exactly when a company other than "all" is given; nothing else |
| Orders.ExportFilename | src/components/Order/Order.jsx:170-172 | a named company gives its sanitised name, of the name's UTF-16 length, then `_orders_report.xlsx`; on BMP names each letter and digit stays in place and every other character becomes `_`; otherwise `all_companies_orders_report.xlsx` |
| Orders.SafeNameIsKept | src/components/Order/Order.jsx:170-172 | a name of letters, digits and `_` appears unchanged in the file name |
| Orders.ExportSharesErrorLine | src/components/Order/Order.jsx:29-182 | export and form share one error line: a settled export shows "Export failed!" in place of any earlier text, or clears it, and keeps the selection |
| Orders.Export | src/components/Order/Order.jsx:137-183 | endpoint `generate-order-report` with that body and file name; any failure shows "Export failed!"; `downloading` always ends false |
| Orders.Prefill | src/components/Order/Order.jsx:109-117 | every form field takes the order's value |
| Orders.EditThenSubmitResends | src/components/Order/Order.jsx:92-117 | editing then submitting sends an update under the order's id that saves the order unchanged |
| Orders.PickCompany | src/components/Order/Order.jsx:355-360 | choosing a company sets it and replaces the platforms with that company's, or none; other fields stay |
| KraftMailers.PagesCoverList | src/components/KraftMailer/KraftMailerManager.jsx:46-47 | every mailer appears on an existing page, and the pages together are the whole list |
| KraftMailers.FooterAddsUpPages | src/components/KraftMailer/KraftMailerManager.jsx:430-436 | each footer cell, over the whole list, equals the sum of that column over the pages |
| KraftMailers.ExportSharesErrorLine | src/components/KraftMailer/KraftMailerManager.jsx:21-157 | export and form share one error line: a settled export shows the thrown message or `<FORMAT> export failed!` in place of any earlier text, or clears it, and keeps the selection |
| KraftMailers.Export | src/components/KraftMailer/KraftMailerManager.jsx:103-159 | a missing date makes the range this month so far, a full range is sent unchanged; the body is exactly the two dates; endpoint and `kraftmailer-report-<start>_to_<end>.<ext>` follow the format; failures show the thrown message or `<FORMAT> export failed!`; `downloading` always ends false |
| KraftMailers.Payload | src/components/KraftMailer/KraftMailerManager.jsx:53-60 | rebuilding the size from width, height and depth loses nothing: the body sent is the form |
| KraftMailers.Prefill | src/components/KraftMailer/KraftMailerManager.jsx:75-83 | the date is cut to its first 10 UTF-16 units; quantity, price and the three size fields are copied |
| KraftMailers.SubmitRequest | src/components/KraftMailer/KraftMailerManager.jsx:50-66 | update under the edited mailer's id exactly when editing, else add, carrying the payload |
| KraftMailers.TimestampPrefillsDate | src/components/KraftMailer/KraftMailerManager.jsx:77 | a stored `YYYY-MM-DD…` timestamp pre-fills the date input with a date that parses back to the same day |
| KraftMailers.EditThenSubmitResends | src/components/KraftMailer/KraftMailerManager.jsx:50-83 | editing then submitting sends an update under the mailer's id with its cut date, quantity, price and size |
| TapeRolls.FooterIsSumOfRowTotals | src/components/TapRoll/TapeRollManager.jsx:364-370 | the footer total is the sum of the row totals quantity·price, and quantity and price are the column sums, each equal to the sum over pages |
| TapeRolls.PagesCoverList | src/components/TapRoll/TapeRollManager.jsx:44-45 | every roll appears on an existing page, and the pages together are the whole list |
| TapeRolls.ExportSharesErrorLine | src/components/TapRoll/TapeRollManager.jsx:21-137 | export and form share one error line: a settled export shows the thrown message or `<FORMAT> export failed!` in place of any earlier text, or clears it, and keeps the selection |
| TapeRolls.Export | src/components/TapRoll/TapeRollManager.jsx:86-139 | a missing date makes the range this month so far, a full range is sent unchanged; the body is exactly the two dates; endpoint and `taproll-report-<start>_to_<end>.<ext>` follow the format; failures show the thrown message or `<FORMAT> export failed!`; `downloading` always ends false |
| TapeRolls.Prefill | src/components/TapRoll/TapeRollManager.jsx:63-69 | the date is cut to its first 10 UTF-16 units; quantity, price and platform are copied |
| TapeRolls.EditThenSubmitResends | src/components/TapRoll/TapeRollManager.jsx:47-69 | editing then submitting sends an update under the roll's id that saves the roll with its date cut to 10 UTF-16 units, unchanged when the date is that short |
| TapeRolls.TimestampPrefillsDate | src/components/TapRoll/TapeRollManager.jsx:65 | a stored `YYYY-MM-DD…` timestamp pre-fills the date input with a date that parses back to the same day |
| FieldRules.FirstError | src/components/auth/RegisterForm.jsx:104-115 | no message exactly when every rule holds; otherwise the message of the first rule broken |
| FieldRules.FirstErrorIsFirstBroken | src/components/auth/RegisterForm.jsx:104-115 | when rule i is the first broken, its message is the one shown |
| RegisterForm.LookaheadIsContains | src/components/auth/RegisterForm.jsx:111 | on one line, each `(?=.*C)` lookahead holds exactly when the value contains a character of C |
| RegisterForm.PatternIsStrongPassword | src/components/auth/RegisterForm.jsx:111 | the password regex accepts exactly one-line values of at least 8 units with a lowercase, an uppercase, a digit and a non-alphanumeric character |
| RegisterForm.PasswordRulesAccept | src/components/auth/RegisterForm.jsx:104-115 | the password is accepted exactly when it is strong; empty, short and weak passwords get the required, length and pattern messages |
| RegisterForm.MobileRulesAccept | src/components/auth/RegisterForm.jsx:145-150 | the mobile number is accepted exactly when it is ten ASCII digits; empty gets the required message, anything else the pattern message |
| RegisterForm.SubmitsOnlyValidData | src/components/auth/RegisterForm.jsx:62-150 | the form submits exactly when name and email are filled, the password is strong and the mobile number is ten digits |
| RegisterForm.Submit | src/components/auth/RegisterForm.jsx:20-34 | 201 alone gives a success toast with the message and a move to `/`; 409 an error toast with the message; other codes "Registration failed!"; a rejection its message or that text |
| LoginForm.PasswordRulesAccept | src/components/auth/LoginForm.jsx:95-101 | the login password is accepted exactly when it has at least 8 units; empty and short get the required and length messages |
| LoginForm.OnMount | src/components/auth/LoginForm.jsx:19-24 | the screen moves to `/order` exactly when a non-empty token is stored |
| LoginForm.Submit | src/components/auth/LoginForm.jsx:26-41 | only a 200 with data stores the token and goes to `/order`; 401 shows the reply's message; other codes "Login failed!"; a rejection its message or that text; no failure touches the session |
| LoginForm.Pending | src/components/auth/LoginForm.jsx:27 | the error line is cleared before the request, nothing else changes |
| LoginForm.ErrorClearedFirst | src/components/auth/LoginForm.jsx:26-27 | a submit's result does not depend on the error shown before it |
| LoginForm.LoginOpensSession | src/components/auth/LoginForm.jsx:30-32 | a successful login with a usable token makes the header show a logged-in user and the login screen redirect; a failed one leaves the session as it was |
| LoginForm.LogoutThenLoginScreenStays | src/components/layout/Header.jsx:13-17 | after logging out, the login screen no longer redirects |
| Session.StoreToken | src/components/auth/LoginForm.jsx:31 | `setItem`: the token is stored as text, undefined as `undefined`; other entries are kept |
| Session.RemoveToken | src/components/layout/Header.jsx:14 | `removeItem`: the token entry goes, every other entry stays |
| Session.StoreThenRemove | src/components/layout/Header.jsx:9-17 | after a store there is a session exactly when the stored text is non-empty; after a remove there is none, and a remove undoes a store |
| Header.Mount | src/components/layout/Header.jsx:9-11 | logged in exactly when a non-empty token is stored |
| Header.Logout | src/components/layout/Header.jsx:13-17 | the token is removed and no other entry; the header shows logged out and goes to `/` |
| Header.LogoutThenMount | src/components/layout/Header.jsx:9-17 | a header mounted after a logout shows the user logged out |

## Left out

- Network and RTK Query: every `fetch`, blob, object URL and download click; the list queries, mutations, `unwrap` and `refetch`. A reply is a parameter, and `refetch` is a flag on the controller step.
- HTTP status of auth replies: `unwrap` can reject on the HTTP status as well as on the body; only the body's `statusCode` and a rejection with an optional message are modelled.
- Non-string messages: an `error.data.message` that is not a string is not modelled; a message is an optional string.
- Rendering: JSX, CSS classes, icons, the toasts' display, routing, the `*Screen.jsx` wrappers and `AuthContainer`. A toast is a value, and navigation is the target path.
- Floating point: `toFixed(2)`, the ₹ prefix, and `Number(...)` and `valueAsNumber` coercions. Quantities and prices are integers, and sums and products are exact.
- The numeric `min` rules on quantity, price and size: they compare floats coerced from input text, which the integer model does not represent.
- Browser email validation (`type="email"`): it happens outside the form library and is not modelled; email is only `required`.
- Time zones and clock reading: today and the 30-day cutoff are parameters. Day and month roll-over in `new Date(y, m, d)` (for example 31-02) is not normalised. A record is compared as the triple it spells.
- Object key order: `Object.keys`, `Object.values` and `Object.entries` are taken in insertion order. The engine's rule that integer-like keys come first is not modelled.
- The top reason in each high-return card (`Object.entries(...).sort(...)[0]`): its tie order is left out, and only the reason counts are modelled.
- The order screen's `viewMode` toggle and what it shows or hides: only the two views' data (list and groups) are modelled.
- Text.Prefix: where the cut falls inside a surrogate pair, `slice` keeps a lone high surrogate. Strings here hold Unicode scalar values only, so the prefix ends before that character.
- Dates.ParseDayMonthYear: fields that `Number` reads as fractions, exponents, `Infinity` or `0x`/`0o`/`0b` literals give `None` here. Years outside the `Date` range (beyond ±275760) are not made invalid.
- HighReturns.SummarizeAsWrittenFailsOnInheritedNames: a return reason named like an inherited member (e.g. `toString`) does not throw, but its count ends up not a number. The model counts it as an ordinary reason.
- Orders.ToggleCompany: a company named like an inherited member starts from that member's truthy value rather than false; the model treats every missing flag as false.
- Wall-clock, `console.log` and races between overlapping requests (double submit, unmount in flight).
- The company picker in the order and return-order forms also sets the platform checkboxes. The checkboxes' own toggling is browser behaviour and is not modelled.

## Findings

The three selectors call `setPage(1)` when they change (ReturnOrder.jsx:231-233, 251-253, 271-273).
The two date inputs (209-223) do not.

| source | as written | input that shows it | evidently intended | confidence | as-written member | corrected member |
|---|---|---|---|---|---|---|
| src/components/ReturnOrder/ReturnOrder.jsx:209-223 | the start and end date inputs set the date but keep the current page | 21 returns, 20 dated 01-01-2024 and one 15-06-2024; on page 2 set start 2024-06-01 and end 2024-06-30: one match, page 2 is empty and the pager (shown only above one page) is gone | a date change returns to page 1, as the selectors do | not executed | ReturnOrders.DateChangeCanStrandPage | ReturnOrders.FilterChangesShowMatches |
| src/components/ReturnOrder/ReturnOrder.jsx:515-539 | products are grouped with `reduce` on `{}`; a product named like an inherited member (`constructor`, `toString`, `__proto__`, …) finds that member, skips the initialisation and then reads `.totalQty` and `.companies.add` of it | one return of 60 units of a product named `constructor` dated today | the summary groups by product name for every name (e.g. `Object.create(null)` or a `Map`) | not executed | HighReturns.SummarizeAsWrittenFailsOnInheritedNames | HighReturns.SummarizeIsGroupBy |
| src/components/Order/Order.jsx:67-81 | orders are grouped with `reduce` on `{}`; a company named like an inherited member finds that member and throws at `.orders.push` | one order of company `toString` | the grouping works for every company name | not executed | Orders.GroupOrdersAsWrittenFailsOnInheritedNames | Orders.GroupOrdersIsGroupBy |

The example for the first row is `ReturnOrders.StrandedPageExample`. The corrected inputs are
`ReturnOrders.SetStartDateResettingPage` and `ReturnOrders.SetEndDateResettingPage`.
The constructor and toString cases are `HighReturns.ConstructorProductThrows` and
`Orders.ToStringCompanyThrows`.

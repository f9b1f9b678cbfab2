/** The order screen: the company filter and its pages, the company view (`groupedOrders`
    with its expandable groups), the export request with a sanitised filename, the footer
    totals, and the add/edit form. */
module Orders {
  import opened Options
  import opened Seqs
  import opened Text
  import opened Dates
  import Paging
  import Reports
  import Companies
  import EditController
  import JsObject

  /** The selector value meaning "every company". */
  const All := "all"

  datatype Order = Order(
    id: string, date: string, product: string, qty: int, price: int,
    company: string, platforms: seq<string>)

  function Qty(o: Order): int { o.qty }
  function Price(o: Order): int { o.price }
  function Amount(o: Order): int { o.qty * o.price }

  // ---- The list view ----

  /** `filteredOrders`: every order for "all"; otherwise exactly the orders of that
      company, in their original order and with their multiplicity. */
  function ByCompany(os: seq<Order>, company: string): (r: seq<Order>)
    ensures company == All ==> r == os
    ensures IsSubsequence(r, os)
    ensures company != All ==> forall i :: 0 <= i < |r| ==> r[i].company == company
    ensures company != All ==> forall x :: multiset(r)[x] == if x.company == company then multiset(os)[x] else 0
  {
    if company == All then
      assert IsSubsequence(os, os) by { SubsequenceReflexive(os); }
      os
    else
      FilterIsSubsequence(os, IsOf(company));
      FilterCounts(os, IsOf(company));
      IsOfMeans(company);
      Filter(os, IsOf(company))
  }

  function CompanyOf(o: Order): string { o.company }

  /** The test the company filter applies to each order. */
  function IsOf(company: string): Order -> bool
  {
    HasKey(CompanyOf, company)
  }

  lemma IsOfMeans(company: string)
    ensures forall o :: IsOf(company)(o) <==> o.company == company
  {
    forall o ensures IsOf(company)(o) <==> o.company == company
    {
      HasKeyMeans(CompanyOf, company, o);
    }
  }

  lemma {:induction false} SubsequenceReflexive(xs: seq<Order>)
    ensures IsSubsequence(xs, xs)
  {
    if |xs| > 0 {
      SubsequenceReflexive(xs[1..]);
    }
  }

  /** The company selector and the current page. */
  datatype View = View(company: string, page: int)

  /** Choosing a company shows page 1 of its orders. */
  function SelectCompany(v: View, company: string): (r: View)
    ensures r.page == 1 && r.company == company
  {
    View(company, 1)
  }

  function Visible(os: seq<Order>, v: View): seq<Order>
  {
    Paging.Page(ByCompany(os, v.company), v.page)
  }

  /** After choosing a company, its first orders are on screen whenever it has any. */
  lemma SelectCompanyShowsOrders(os: seq<Order>, v: View, company: string)
    ensures |ByCompany(os, company)| > 0 ==> |Visible(os, SelectCompany(v, company))| > 0
    ensures Paging.TotalPages(|ByCompany(os, company)|) <= 1 ==>
              Visible(os, SelectCompany(v, company)) == ByCompany(os, company)
  {
  }

  /** The footer row: total quantity, total price and total amount of `filteredOrders`. */
  datatype Footer = Footer(qty: int, price: int, amount: int)

  function FooterOf(os: seq<Order>): Footer
  {
    Footer(Sum(os, Qty), Sum(os, Price), Sum(os, Amount))
  }

  // ---- The company view: `groupedOrders` ----

  /** One group: its orders in list order, and the running totals. */
  datatype CompanyGroup = CompanyGroup(orders: seq<Order>, totalQty: int, totalAmount: int, orderCount: nat)

  /** The accumulator: company names in the order first met, and their groups. */
  datatype Groups = Groups(companies: seq<string>, byCompany: map<string, CompanyGroup>)

  const EmptyGroup := CompanyGroup([], 0, 0, 0)

  /** Adds one order to its group. */
  function Push(g: CompanyGroup, o: Order): CompanyGroup
  {
    CompanyGroup(g.orders + [o], g.totalQty + o.qty, g.totalAmount + o.qty * o.price, g.orderCount + 1)
  }

  /** One step of the `reduce`, with the dictionary lookup done on a map. */
  function Tally(acc: Groups, o: Order): Groups
  {
    if o.company in acc.byCompany then
      Groups(acc.companies, acc.byCompany[o.company := Push(acc.byCompany[o.company], o)])
    else
      Groups(acc.companies + [o.company], acc.byCompany[o.company := Push(EmptyGroup, o)])
  }

  /** `groupedOrders`: the whole `reduce` over the fetched list, left to right. */
  function GroupOrders(os: seq<Order>): Groups
  {
    if |os| == 0 then Groups([], map[]) else Tally(GroupOrders(os[..|os| - 1]), os[|os| - 1])
  }

  function CompaniesOf(os: seq<Order>): set<string>
  {
    set o | o in os :: o.company
  }

  /** Reference: what the group of `company` should hold. */
  function GroupOf(os: seq<Order>, company: string): CompanyGroup
  {
    var m := Members(os, CompanyOf, company);
    CompanyGroup(m, Sum(m, Qty), Sum(m, Amount), |m|)
  }

  /** `g` is the group-by of `os`: one group per company met, each company listed once,
      and every group equal to the reference. */
  ghost predicate Grouped(os: seq<Order>, g: Groups)
  {
    && (forall i, j :: 0 <= i < j < |g.companies| ==> g.companies[i] != g.companies[j])
    && (forall k :: k in g.byCompany <==> k in g.companies)
    && g.byCompany.Keys == CompaniesOf(os)
    && (forall k :: k in g.byCompany ==> g.byCompany[k] == GroupOf(os, k))
  }

  lemma CompaniesSnoc(os: seq<Order>, x: Order)
    ensures CompaniesOf(os + [x]) == CompaniesOf(os) + {x.company}
  {
    assert forall y :: y in os + [x] <==> y in os || y == x;
  }

  /** Adding one order changes only its own company's reference group, by `Push`. */
  lemma GroupOfSnoc(os: seq<Order>, x: Order, company: string)
    ensures company != x.company ==> GroupOf(os + [x], company) == GroupOf(os, company)
    ensures company == x.company ==> GroupOf(os + [x], company) == Push(GroupOf(os, company), x)
  {
    assert (os + [x])[..|os|] == os;
    var m := Members(os, CompanyOf, company);
    MembersSnoc(os, x, CompanyOf, company);
    if company == x.company {
      SumSnoc(m, x, Qty);
      SumSnoc(m, x, Amount);
    } else {
      assert m + [] == m;
    }
  }

  /** A company without orders has the empty reference group. */
  lemma {:induction false} AbsentCompanyIsEmpty(os: seq<Order>, company: string)
    requires company !in CompaniesOf(os)
    ensures GroupOf(os, company) == EmptyGroup
  {
    if |os| > 0 {
      var init := os[..|os| - 1];
      CompaniesSnoc(init, os[|os| - 1]);
      assert init + [os[|os| - 1]] == os;
      AbsentCompanyIsEmpty(init, company);
    }
  }

  lemma TallyEntry(init: seq<Order>, x: Order, g: Groups, k: string)
    requires g.byCompany.Keys == CompaniesOf(init)
    requires forall k :: k in g.byCompany ==> g.byCompany[k] == GroupOf(init, k)
    requires k in Tally(g, x).byCompany
    ensures Tally(g, x).byCompany[k] == GroupOf(init + [x], k)
  {
    GroupOfSnoc(init, x, k);
    if k == x.company && k !in g.byCompany {
      AbsentCompanyIsEmpty(init, k);
    }
  }

  lemma TallyKeys(init: seq<Order>, x: Order, g: Groups)
    requires forall i, j :: 0 <= i < j < |g.companies| ==> g.companies[i] != g.companies[j]
    requires forall k :: k in g.byCompany <==> k in g.companies
    requires g.byCompany.Keys == CompaniesOf(init)
    ensures forall i, j :: 0 <= i < j < |Tally(g, x).companies| ==> Tally(g, x).companies[i] != Tally(g, x).companies[j]
    ensures forall k :: k in Tally(g, x).byCompany <==> k in Tally(g, x).companies
    ensures Tally(g, x).byCompany.Keys == CompaniesOf(init + [x])
  {
    CompaniesSnoc(init, x);
    var g' := Tally(g, x);
    if x.company !in g.byCompany {
      forall i, j | 0 <= i < j < |g'.companies|
        ensures g'.companies[i] != g'.companies[j]
      {
        if j == |g.companies| {
          assert g'.companies[i] == g.companies[i];
        } else {
          assert g'.companies[i] == g.companies[i] && g'.companies[j] == g.companies[j];
        }
      }
    }
  }

  lemma TallyKeepsGrouped(init: seq<Order>, x: Order, g: Groups)
    requires Grouped(init, g)
    ensures Grouped(init + [x], Tally(g, x))
  {
    TallyKeys(init, x, g);
    forall k | k in Tally(g, x).byCompany
      ensures Tally(g, x).byCompany[k] == GroupOf(init + [x], k)
    {
      TallyEntry(init, x, g, k);
    }
  }

  /** The source's accumulating `reduce` computes exactly the group-by. */
  lemma {:induction false} GroupOrdersIsGroupBy(os: seq<Order>)
    ensures Grouped(os, GroupOrders(os))
  {
    if |os| == 0 {
      assert CompaniesOf(os) == {};
    } else {
      var init := os[..|os| - 1];
      assert init + [os[|os| - 1]] == os;
      GroupOrdersIsGroupBy(init);
      TallyKeepsGrouped(init, os[|os| - 1], GroupOrders(init));
    }
  }

  /** A company's group in the company view lists the same orders the company filter
      shows for it. */
  lemma MembersAreByCompany(os: seq<Order>, company: string)
    requires company != All
    ensures Members(os, CompanyOf, company) == ByCompany(os, company)
  {
    MembersAreFilter(os, CompanyOf, company);
  }

  /** Each order lands in exactly one group, its own company's; the groups hold nothing
      else; and each group's totals are its orders' sums, its count their number. */
  lemma GroupsPartitionOrders(os: seq<Order>, o: Order, company: string)
    requires company in GroupOrders(os).byCompany
    ensures var g := GroupOrders(os).byCompany[company];
            && (o in g.orders <==> o in os && o.company == company)
            && g.totalQty == Sum(g.orders, Qty)
            && g.totalAmount == Sum(g.orders, Amount)
            && g.orderCount == |g.orders|
  {
    GroupOrdersIsGroupBy(os);
    MembersIn(os, CompanyOf, company);
  }

  /** Every order's company has a group. */
  lemma EveryOrderHasAGroup(os: seq<Order>, i: nat)
    requires i < |os|
    ensures os[i].company in GroupOrders(os).byCompany
  {
    GroupOrdersIsGroupBy(os);
    assert os[i] in os;
  }

  /** The group of a company lists the same orders, in the same order, as the list view
      filtered to that company. */
  lemma GroupIsCompanyFilter(os: seq<Order>, company: string)
    requires company != All && company in GroupOrders(os).byCompany
    ensures GroupOrders(os).byCompany[company].orders == ByCompany(os, company)
  {
    GroupOrdersIsGroupBy(os);
    MembersAreByCompany(os, company);
  }

  // ---- Totals over the groups ----

  /** `f` added up over the groups of `companies`. */
  function SumGroups(companies: seq<string>, byCompany: map<string, CompanyGroup>, f: CompanyGroup -> int): int
    requires forall i :: 0 <= i < |companies| ==> companies[i] in byCompany
  {
    if |companies| == 0 then 0
    else SumGroups(companies[..|companies| - 1], byCompany, f) + f(byCompany[companies[|companies| - 1]])
  }

  /** Changing the group of a company that is listed once changes the total by the
      difference. */
  lemma {:induction false} SumGroupsUpdate(companies: seq<string>, byCompany: map<string, CompanyGroup>,
                                           c: string, g: CompanyGroup, f: CompanyGroup -> int)
    requires forall i :: 0 <= i < |companies| ==> companies[i] in byCompany
    requires forall i, j :: 0 <= i < j < |companies| ==> companies[i] != companies[j]
    ensures c in companies ==>
              SumGroups(companies, byCompany[c := g], f) == SumGroups(companies, byCompany, f) - f(byCompany[c]) + f(g)
    ensures c !in companies ==>
              SumGroups(companies, byCompany[c := g], f) == SumGroups(companies, byCompany, f)
  {
    if |companies| > 0 {
      var init := companies[..|companies| - 1];
      var last := companies[|companies| - 1];
      SumGroupsUpdate(init, byCompany, c, g, f);
      if c == last {
        assert c !in init;
      } else if c in companies {
        assert c in init;
      }
    }
  }

  /** The groups are listed once each and all present. */
  ghost predicate Listed(gs: Groups)
  {
    && (forall i, j :: 0 <= i < j < |gs.companies| ==> gs.companies[i] != gs.companies[j])
    && (forall k :: k in gs.byCompany <==> k in gs.companies)
  }

  /** One step of the `reduce` keeps every company listed once and present. */
  lemma TallyKeepsListed(gs: Groups, x: Order)
    requires Listed(gs)
    ensures Listed(Tally(gs, x))
  {
    if x.company !in gs.byCompany {
      var cs := gs.companies + [x.company];
      forall i, j | 0 <= i < j < |cs|
        ensures cs[i] != cs[j]
      {
        assert cs[i] == gs.companies[i];
        if j < |gs.companies| {
          assert cs[j] == gs.companies[j];
        }
      }
    }
  }

  /** Summing over a list with one more company adds that company's group. */
  lemma SumGroupsSnoc(companies: seq<string>, c: string, byCompany: map<string, CompanyGroup>, f: CompanyGroup -> int)
    requires forall i :: 0 <= i < |companies| ==> companies[i] in byCompany
    requires c in byCompany
    ensures SumGroups(companies + [c], byCompany, f) == SumGroups(companies, byCompany, f) + f(byCompany[c])
  {
    assert (companies + [c])[..|companies|] == companies;
  }

  /** One step of the `reduce` adds `step(x)` to a group total that grows by `step` on
      every `Push`. */
  lemma SumGroupsTallyStep(gs: Groups, x: Order, f: CompanyGroup -> int, step: Order -> int)
    requires Listed(gs)
    requires f(Push(EmptyGroup, x)) == step(x)
    requires x.company in gs.byCompany ==> f(Push(gs.byCompany[x.company], x)) == f(gs.byCompany[x.company]) + step(x)
    ensures Listed(Tally(gs, x))
    ensures SumGroups(Tally(gs, x).companies, Tally(gs, x).byCompany, f)
            == SumGroups(gs.companies, gs.byCompany, f) + step(x)
  {
    TallyKeepsListed(gs, x);
    var c := x.company;
    if c in gs.byCompany {
      SumGroupsUpdate(gs.companies, gs.byCompany, c, Push(gs.byCompany[c], x), f);
    } else {
      var m := gs.byCompany[c := Push(EmptyGroup, x)];
      SumGroupsUpdate(gs.companies, gs.byCompany, c, Push(EmptyGroup, x), f);
      SumGroupsSnoc(gs.companies, c, m, f);
    }
  }

  /** Summing a group field over the company view adds up that field over all orders:
      a step of the `reduce` adds `step(o)` to exactly one group. */
  lemma {:induction false} SumGroupsTracksOrders(os: seq<Order>, f: CompanyGroup -> int, step: Order -> int)
    requires forall g: CompanyGroup, o: Order :: f(Push(g, o)) == f(g) + step(o)
    requires f(EmptyGroup) == 0
    ensures Listed(GroupOrders(os))
    ensures SumGroups(GroupOrders(os).companies, GroupOrders(os).byCompany, f) == Sum(os, step)
  {
    if |os| > 0 {
      var init := os[..|os| - 1];
      var x := os[|os| - 1];
      assert init + [x] == os;
      SumGroupsTracksOrders(init, f, step);
      SumSnoc(init, x, step);
      var gs := GroupOrders(init);
      assert f(Push(EmptyGroup, x)) == step(x);
      SumGroupsTallyStep(gs, x, f, step);
    }
  }

  function OrderCount(g: CompanyGroup): int { g.orderCount }
  function GroupQty(g: CompanyGroup): int { g.totalQty }
  function GroupAmount(g: CompanyGroup): int { g.totalAmount }
  function One(o: Order): int { 1 }

  lemma {:induction false} SumOfOnes(os: seq<Order>)
    ensures Sum(os, One) == |os|
  {
    if |os| > 0 {
      SumOfOnes(os[1..]);
    }
  }

  /** The company view accounts for every order once: the group counts add up to the
      number of orders, and the group totals to the footer of the unfiltered list. */
  lemma CompanyViewAddsUp(os: seq<Order>)
    ensures var gs := GroupOrders(os);
            Listed(gs)
            && SumGroups(gs.companies, gs.byCompany, OrderCount) == |os|
            && SumGroups(gs.companies, gs.byCompany, GroupQty) == FooterOf(ByCompany(os, All)).qty
            && SumGroups(gs.companies, gs.byCompany, GroupAmount) == FooterOf(ByCompany(os, All)).amount
  {
    SumGroupsTracksOrders(os, OrderCount, One);
    SumOfOnes(os);
    SumGroupsTracksOrders(os, GroupQty, Qty);
    SumGroupsTracksOrders(os, GroupAmount, Amount);
  }

  // ---- `groupedOrders` as written, over a plain object ----

  /** One step of the source's `reduce` on a `{}` accumulator: for a company named like an
      `Object.prototype` member `!acc[name]` is false, no group is created, and
      `.orders.push` is called on undefined: the render throws (`None`). */
  function TallyAsWritten(acc: Option<Groups>, o: Order): Option<Groups>
  {
    if acc.None? then None
    else if o.company !in acc.value.byCompany && o.company in JsObject.InheritedKeys then None
    else Some(Tally(acc.value, o))
  }

  function GroupOrdersAsWritten(os: seq<Order>): Option<Groups>
  {
    if |os| == 0 then Some(Groups([], map[]))
    else TallyAsWritten(GroupOrdersAsWritten(os[..|os| - 1]), os[|os| - 1])
  }

  predicate PlainCompanyNames(os: seq<Order>)
  {
    forall i :: 0 <= i < |os| ==> os[i].company !in JsObject.InheritedKeys
  }

  lemma PlainSnoc(init: seq<Order>, x: Order)
    ensures PlainCompanyNames(init + [x]) <==> PlainCompanyNames(init) && x.company !in JsObject.InheritedKeys
  {
    var os := init + [x];
    assert os[|init|] == x;
    assert forall i :: 0 <= i < |init| ==> os[i] == init[i];
  }

  /** The companies the `reduce` has a group for are the companies met so far. */
  lemma {:induction false} GroupOrdersKeys(os: seq<Order>)
    ensures GroupOrders(os).byCompany.Keys == CompaniesOf(os)
  {
    if |os| > 0 {
      var init := os[..|os| - 1];
      var x := os[|os| - 1];
      assert init + [x] == os;
      GroupOrdersKeys(init);
      CompaniesSnoc(init, x);
    }
  }

  /** Names met in a list without inherited names are not inherited names. */
  lemma {:induction false} PlainAvoidsInherited(os: seq<Order>)
    requires PlainCompanyNames(os)
    ensures CompaniesOf(os) !! JsObject.InheritedKeys
  {
    if |os| == 0 {
      assert CompaniesOf(os) == {};
    } else {
      var init := os[..|os| - 1];
      var x := os[|os| - 1];
      assert init + [x] == os;
      PlainSnoc(init, x);
      CompaniesSnoc(init, x);
      PlainAvoidsInherited(init);
    }
  }

  /** The object-based `reduce` computes the group-by exactly when no company is named
      like an `Object.prototype` member, and throws otherwise. */
  lemma {:induction false} GroupOrdersAsWrittenFailsOnInheritedNames(os: seq<Order>)
    ensures GroupOrdersAsWritten(os).Some? <==> PlainCompanyNames(os)
    ensures PlainCompanyNames(os) ==> GroupOrdersAsWritten(os) == Some(GroupOrders(os))
  {
    if |os| > 0 {
      var init := os[..|os| - 1];
      var x := os[|os| - 1];
      assert init + [x] == os;
      GroupOrdersAsWrittenFailsOnInheritedNames(init);
      PlainSnoc(init, x);
      if PlainCompanyNames(init) && x.company in JsObject.InheritedKeys {
        GroupOrdersKeys(init);
        PlainAvoidsInherited(init);
      }
    }
  }

  /** A single order of a company called "toString" makes the order screen throw. */
  lemma ToStringCompanyThrows()
    ensures GroupOrdersAsWritten([Order("1", "2024-01-01", "Mug", 1, 100, "toString", [])]).None?
  {
    assert [Order("1", "2024-01-01", "Mug", 1, 100, "toString", [])][..0] == [];
  }

  // ---- Expanded groups ----

  /** `expandedCompanies[name]`: a missing entry reads as collapsed. */
  predicate Expanded(expanded: map<string, bool>, name: string)
  {
    name in expanded && expanded[name]
  }

  /** `toggleCompany`: flips the one company's flag and no other. */
  function ToggleCompany(expanded: map<string, bool>, name: string): (r: map<string, bool>)
    ensures Expanded(r, name) <==> !Expanded(expanded, name)
    ensures forall other :: other != name ==> (Expanded(r, other) <==> Expanded(expanded, other))
  {
    expanded[name := !Expanded(expanded, name)]
  }

  /** Toggling the same company twice shows every group as before. */
  lemma ToggleTwice(expanded: map<string, bool>, name: string, any: string)
    ensures Expanded(ToggleCompany(ToggleCompany(expanded, name), name), any) == Expanded(expanded, any)
  {
  }

  // ---- Export ----

  /** `exportCompany && exportCompany !== 'all'`: a real company was asked for. */
  predicate Named(exportCompany: Option<string>)
  {
    exportCompany.Some? && exportCompany.value != "" && exportCompany.value != All
  }

  /** The export body: the range only when both dates are set, and `company` only for a
      named company. */
  function ExportBody(range: DateRange, exportCompany: Option<string>): (b: map<string, string>)
    ensures "startDate" in b <==> range.startDate != "" && range.endDate != ""
    ensures "endDate" in b <==> "startDate" in b
    ensures "startDate" in b ==> b["startDate"] == range.startDate && b["endDate"] == range.endDate
    ensures "company" in b <==> Named(exportCompany)
    ensures "company" in b ==> b["company"] == exportCompany.value
    ensures b.Keys <= {"startDate", "endDate", "company"}
  {
    var b := Reports.RangeBody(range);
    if Named(exportCompany) then b["company" := exportCompany.value] else b
  }

  /** The download name: the company's name made filename-safe, then
      `_orders_report.xlsx`; `all_companies_orders_report.xlsx` otherwise. */
  function ExportFilename(exportCompany: Option<string>): (name: string)
    ensures Named(exportCompany) ==> |name| >= |"_orders_report.xlsx"|
    ensures Named(exportCompany) ==>
              var stem := name[..|name| - |"_orders_report.xlsx"|];
              && name[|name| - |"_orders_report.xlsx"|..] == "_orders_report.xlsx"
              && (forall i :: 0 <= i < |stem| ==> IsAsciiAlnum(stem[i]) || stem[i] == '_')
              && |stem| == Utf16Length(exportCompany.value)
    ensures Named(exportCompany) && Utf16Length(exportCompany.value) == |exportCompany.value| ==>
              forall i :: 0 <= i < |exportCompany.value| ==>
                name[i] == if IsAsciiAlnum(exportCompany.value[i]) then exportCompany.value[i] else '_'
    ensures !Named(exportCompany) ==> name == "all_companies_orders_report.xlsx"
  {
    if Named(exportCompany) then
      var stem := SanitizeFilename(exportCompany.value);
      var name := stem + "_orders_report.xlsx";
      assert name[..|stem|] == stem;
      name
    else "all_companies_orders_report.xlsx"
  }

  /** A company name already made of letters, digits and `_` is used as it is. */
  lemma SafeNameIsKept(c: string)
    requires c != "" && c != All
    requires forall i :: 0 <= i < |c| ==> IsAsciiAlnum(c[i]) || c[i] == '_'
    ensures ExportFilename(Some(c)) == c + "_orders_report.xlsx"
  {
    SanitizeKeepsSafe(c);
  }

  const ExportFailed := "Export failed!"

  /** `handleExport(exportCompany)`: one endpoint, the body and filename above,
      `downloading` raised then always lowered, and "Export failed!" on any failure. */
  function Export(range: DateRange, exportCompany: Option<string>, response: Reports.Response): (e: Reports.Export)
    ensures e.request == Reports.Request("generate-order-report", ExportBody(range, exportCompany),
                                         ExportFilename(exportCompany))
    ensures e.running.downloading && !e.settled.downloading
    ensures e.running.error == ""
    ensures e.settled.error == if response.Delivered? then "" else ExportFailed
  {
    Reports.Run(Reports.Request("generate-order-report", ExportBody(range, exportCompany),
                                ExportFilename(exportCompany)), ExportFailed, response)
  }

  // ---- The add/edit form ----

  /** The form values. The two number inputs start empty (`""`), written `None`. */
  datatype OrderForm = OrderForm(
    date: string, product: string, qty: Option<int>, price: Option<int>,
    company: string, platforms: seq<string>)

  const Defaults := OrderForm("", "", None, None, "", [])

  /** `handleEdit`: all six fields of the order go into the form unchanged. */
  function Prefill(o: Order): (f: OrderForm)
    ensures f.date == o.date && f.product == o.product && f.qty == Some(o.qty)
    ensures f.price == Some(o.price) && f.company == o.company && f.platforms == o.platforms
  {
    OrderForm(o.date, o.product, Some(o.qty), Some(o.price), o.company, o.platforms)
  }

  function IdOf(o: Order): string { o.id }

  /** The order an update under `id` stores; `None` while a number field is empty. */
  function Saved(id: string, f: OrderForm): Option<Order>
  {
    if f.qty.None? || f.price.None? then None
    else Some(Order(id, f.date, f.product, f.qty.value, f.price.value, f.company, f.platforms))
  }

  /** Editing an order and submitting the untouched form stores the same order again,
      under its own id. */
  lemma EditThenSubmitResends(s: EditController.State<Order, OrderForm>, o: Order)
    ensures var q := EditController.SubmitRequest(EditController.Edit(s, o, Prefill(o)), IdOf);
            q.Update? && q.id == o.id && Saved(q.id, q.body) == Some(o)
  {
  }

  /** Choosing a company in the form also ticks that company's platforms. */
  function PickCompany(f: OrderForm, companies: seq<Companies.Company>, name: string): (g: OrderForm)
    ensures g.company == name
    ensures g.platforms == Companies.PlatformsFor(companies, name)
    ensures g.(company := f.company, platforms := f.platforms) == f
  {
    f.(company := name, platforms := Companies.PlatformsFor(companies, name))
  }

  /** The export and the form share this screen's one error line (`error`): after any
      controller events, a settled export shows "Export failed!" in place of whatever was
      there, or clears the line when the file arrived, and keeps the selection. */
  lemma ExportSharesErrorLine(s: EditController.State<Order, OrderForm>,
                              acts: seq<EditController.Action<Order, OrderForm>>,
                              defaults: OrderForm, range: DateRange, exportCompany: Option<string>,
                              response: Reports.Response)
    ensures var e := Export(range, exportCompany, response);
            var r := EditController.Run(s, acts + [EditController.ExportSettled(e.settled.error)], defaults);
            && e.running.error == ""
            && r.error == (if response.Delivered? then "" else ExportFailed)
            && r.editing == EditController.Run(s, acts, defaults).editing
  {
    EditController.ExportLeavesItsError(s, acts, defaults, Export(range, exportCompany, response).settled.error);
  }
}

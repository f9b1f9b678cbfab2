/** The "High Return Alert" panel of the return-order screen: return orders of the
    last 30 days grouped by product (`productSummary`), kept when the product's returned
    quantity reaches 50, highest first. */
module HighReturns {
  import opened Options
  import opened Seqs
  import opened Dates
  import opened ReturnOrders
  import JsObject

  /** One entry of `productSummary`. The `companies` set is kept as its insertion order,
      which is the order `Array.from(item.companies).join(", ")` shows. */
  datatype ProductSummary = ProductSummary(
    product: string, totalQty: int, returnCount: nat, totalAmount: int,
    companies: seq<string>, reasons: map<string, nat>)

  /** The accumulator: products in the order they were first met, and their entries. */
  datatype Summaries = Summaries(products: seq<string>, byProduct: map<string, ProductSummary>)

  function TotalQty(s: ProductSummary): int { s.totalQty }

  function ProductOf(r: ReturnOrder): string { r.product }

  function CompanyOf(r: ReturnOrder): string { r.company }

  /** The entry created the first time a product is met. */
  function Fresh(product: string): ProductSummary
  {
    ProductSummary(product, 0, 0, 0, [], map[])
  }

  /** Adds one return to its product's entry. */
  function Bump(s: ProductSummary, r: ReturnOrder): ProductSummary
  {
    s.(totalQty := s.totalQty + r.qty,
       returnCount := s.returnCount + 1,
       totalAmount := s.totalAmount + r.qty * r.price,
       companies := AddOnce(s.companies, r.company),
       reasons := CountOne(s.reasons, r.returnReason))
  }

  /** The reason counter step: a reason seen for the first time starts at 0, then goes up by one. */
  function CountOne(reasons: map<string, nat>, reason: string): map<string, nat>
  {
    reasons[reason := (if reason in reasons then reasons[reason] else 0) + 1]
  }

  /** One step of the `reduce`, with the dictionary lookup done on a map. */
  function Tally(acc: Summaries, r: ReturnOrder): Summaries
  {
    if r.product in acc.byProduct then
      Summaries(acc.products, acc.byProduct[r.product := Bump(acc.byProduct[r.product], r)])
    else
      Summaries(acc.products + [r.product], acc.byProduct[r.product := Bump(Fresh(r.product), r)])
  }

  /** The whole `reduce`, left to right. */
  function Summarize(rs: seq<ReturnOrder>): Summaries
  {
    if |rs| == 0 then Summaries([], map[]) else Tally(Summarize(rs[..|rs| - 1]), rs[|rs| - 1])
  }

  // ---- Reference definition: a group-by over the list ----

  /** How many of `m` give `reason`. */
  function ReasonCount(m: seq<ReturnOrder>, reason: string): nat
  {
    if |m| == 0 then 0
    else ReasonCount(m[..|m| - 1], reason) + (if m[|m| - 1].returnReason == reason then 1 else 0)
  }

  /** The companies of `m`, each once, in the order they first occur. */
  function CompaniesOf(m: seq<ReturnOrder>): seq<string>
  {
    Distinct(MapSeq(m, CompanyOf))
  }

  function ReasonsOf(m: seq<ReturnOrder>): set<string>
  {
    set x | x in m :: x.returnReason
  }

  function ProductsOf(rs: seq<ReturnOrder>): set<string>
  {
    set x | x in rs :: x.product
  }

  /** How often each return reason occurs among `m`. */
  function ReasonMap(m: seq<ReturnOrder>): map<string, nat>
  {
    map reason | reason in ReasonsOf(m) :: ReasonCount(m, reason)
  }

  /** What the entry for `product` should hold: the sum of quantities, the number of
      returns, the sum of amounts, the companies and the reason counts of its returns. */
  function SummaryOf(rs: seq<ReturnOrder>, product: string): ProductSummary
  {
    SummaryFrom(product, Members(rs, ProductOf, product))
  }

  /** `g` is the group-by of `rs`: one entry per product, each product listed once, and
      every entry equal to the reference summary. */
  ghost predicate Summarizes(rs: seq<ReturnOrder>, g: Summaries)
  {
    && (forall i, j :: 0 <= i < j < |g.products| ==> g.products[i] != g.products[j])
    && (forall k :: k in g.byProduct <==> k in g.products)
    && g.byProduct.Keys == ProductsOf(rs)
    && (forall k :: k in g.byProduct ==> g.byProduct[k] == SummaryOf(rs, k))
  }

  lemma SetsSnoc(m: seq<ReturnOrder>, x: ReturnOrder)
    ensures ReasonsOf(m + [x]) == ReasonsOf(m) + {x.returnReason}
    ensures ProductsOf(m + [x]) == ProductsOf(m) + {x.product}
  {
    assert forall y :: y in m + [x] <==> y in m || y == x;
  }

  lemma CompaniesSnoc(m: seq<ReturnOrder>, x: ReturnOrder)
    ensures CompaniesOf(m + [x]) == AddOnce(CompaniesOf(m), x.company)
  {
    MapSnoc(m, x, CompanyOf);
    DistinctSnoc(MapSeq(m, CompanyOf), x.company);
  }

  /** The companies of some returns: each named once, no other, in first-seen order. */
  lemma CompaniesOfFacts(m: seq<ReturnOrder>)
    ensures NoDuplicates(CompaniesOf(m))
    ensures forall c :: c in CompaniesOf(m) <==> exists i :: 0 <= i < |m| && m[i].company == c
    ensures forall n :: 0 <= n <= |m| ==> CompaniesOf(m[..n]) <= CompaniesOf(m)
  {
    var names := MapSeq(m, CompanyOf);
    DistinctFacts(names);
    forall n | 0 <= n <= |m| ensures CompaniesOf(m[..n]) <= CompaniesOf(m)
    {
      assert MapSeq(m[..n], CompanyOf) == names[..n];
    }
    forall c ensures c in names <==> exists i :: 0 <= i < |m| && m[i].company == c
    {
      if c in names {
        var i :| 0 <= i < |names| && names[i] == c;
        assert m[i].company == c;
      }
    }
  }

  /** A card lists each company of the product's returns once, and no other, in the
      order the returns first name them. */
  lemma CompaniesInFirstSeenOrder(rs: seq<ReturnOrder>, product: string)
    ensures var m := Members(rs, ProductOf, product);
            var cs := SummaryOf(rs, product).companies;
            && NoDuplicates(cs)
            && (forall c :: c in cs <==> exists i :: 0 <= i < |m| && m[i].company == c)
            && (forall n :: 0 <= n <= |m| ==> CompaniesOf(m[..n]) <= cs)
  {
    var m := Members(rs, ProductOf, product);
    assert SummaryOf(rs, product).companies == CompaniesOf(m);
    CompaniesOfFacts(m);
  }

  /** A reason that does not occur is counted zero times. */
  lemma {:induction false} AbsentReasonCountsZero(m: seq<ReturnOrder>, reason: string)
    requires reason !in ReasonsOf(m)
    ensures ReasonCount(m, reason) == 0
  {
    if |m| > 0 {
      var init := m[..|m| - 1];
      SetsSnoc(init, m[|m| - 1]);
      assert init + [m[|m| - 1]] == m;
      AbsentReasonCountsZero(init, reason);
    }
  }

  lemma ReasonMapSnoc(m: seq<ReturnOrder>, x: ReturnOrder)
    ensures ReasonMap(m + [x]) == CountOne(ReasonMap(m), x.returnReason)
  {
    var a := ReasonMap(m + [x]);
    var b := CountOne(ReasonMap(m), x.returnReason);
    SetsSnoc(m, x);
    if x.returnReason !in ReasonsOf(m) {
      AbsentReasonCountsZero(m, x.returnReason);
    }
    assert a.Keys == b.Keys;
    forall reason | reason in a
      ensures a[reason] == b[reason]
    {
      ReasonCountSnoc(m, x, reason);
    }
  }

  lemma ReasonCountSnoc(m: seq<ReturnOrder>, x: ReturnOrder, reason: string)
    ensures ReasonCount(m + [x], reason) == ReasonCount(m, reason) + (if x.returnReason == reason then 1 else 0)
  {
    assert (m + [x])[..|m|] == m;
  }

  /** The summary of a product's returns, from its returns. */
  function SummaryFrom(product: string, m: seq<ReturnOrder>): ProductSummary
  {
    ProductSummary(product, Sum(m, Qty), |m|, Sum(m, Amount), CompaniesOf(m), ReasonMap(m))
  }

  /** One more return of the product changes its summary by `Bump`. */
  lemma SummaryStep(m: seq<ReturnOrder>, x: ReturnOrder, product: string)
    ensures SummaryFrom(product, m + [x]) == Bump(SummaryFrom(product, m), x)
  {
    SumSnoc(m, x, Qty);
    SumSnoc(m, x, Amount);
    CompaniesSnoc(m, x);
    ReasonMapSnoc(m, x);
  }

  /** Adding one return changes only its own product's reference summary, by `Bump`. */
  lemma SummaryOfSnoc(rs: seq<ReturnOrder>, x: ReturnOrder, product: string)
    ensures product != x.product ==> SummaryOf(rs + [x], product) == SummaryOf(rs, product)
    ensures product == x.product ==> SummaryOf(rs + [x], product) == Bump(SummaryOf(rs, product), x)
  {
    MembersSnoc(rs, x, ProductOf, product);
    var m := Members(rs, ProductOf, product);
    if product == x.product {
      SummaryStep(m, x, product);
    } else {
      assert m + [] == m;
    }
  }

  /** A product that does not occur has the empty reference summary. */
  lemma {:induction false} AbsentProductIsFresh(rs: seq<ReturnOrder>, product: string)
    requires product !in ProductsOf(rs)
    ensures Members(rs, ProductOf, product) == []
    ensures SummaryOf(rs, product) == Fresh(product)
  {
    if |rs| > 0 {
      var init := rs[..|rs| - 1];
      SetsSnoc(init, rs[|rs| - 1]);
      assert init + [rs[|rs| - 1]] == rs;
      AbsentProductIsFresh(init, product);
    }
    assert ReasonsOf([]) == {};
    assert ReasonMap([]) == map[];
  }

  /** One `reduce` step updates the entry of the return's own product as the reference does. */
  lemma TallyEntry(init: seq<ReturnOrder>, x: ReturnOrder, g: Summaries, k: string)
    requires g.byProduct.Keys == ProductsOf(init)
    requires forall k :: k in g.byProduct ==> g.byProduct[k] == SummaryOf(init, k)
    requires k in Tally(g, x).byProduct
    ensures Tally(g, x).byProduct[k] == SummaryOf(init + [x], k)
  {
    SummaryOfSnoc(init, x, k);
    if k == x.product && k !in g.byProduct {
      AbsentProductIsFresh(init, k);
    }
  }

  /** One `reduce` step keeps the product list free of repeats and in step with the map. */
  lemma TallyKeys(init: seq<ReturnOrder>, x: ReturnOrder, g: Summaries)
    requires forall i, j :: 0 <= i < j < |g.products| ==> g.products[i] != g.products[j]
    requires forall k :: k in g.byProduct <==> k in g.products
    requires g.byProduct.Keys == ProductsOf(init)
    ensures forall i, j :: 0 <= i < j < |Tally(g, x).products| ==> Tally(g, x).products[i] != Tally(g, x).products[j]
    ensures forall k :: k in Tally(g, x).byProduct <==> k in Tally(g, x).products
    ensures Tally(g, x).byProduct.Keys == ProductsOf(init + [x])
  {
    SetsSnoc(init, x);
    var g' := Tally(g, x);
    if x.product !in g.byProduct {
      forall i, j | 0 <= i < j < |g'.products|
        ensures g'.products[i] != g'.products[j]
      {
        if j == |g.products| {
          assert g'.products[i] == g.products[i];
        } else {
          assert g'.products[i] == g.products[i] && g'.products[j] == g.products[j];
        }
      }
    }
  }

  /** One `reduce` step keeps the accumulator equal to the group-by of what it has seen. */
  lemma TallyKeepsGroupBy(init: seq<ReturnOrder>, x: ReturnOrder, g: Summaries)
    requires Summarizes(init, g)
    ensures Summarizes(init + [x], Tally(g, x))
  {
    TallyKeys(init, x, g);
    forall k | k in Tally(g, x).byProduct
      ensures Tally(g, x).byProduct[k] == SummaryOf(init + [x], k)
    {
      TallyEntry(init, x, g, k);
    }
  }

  /** The source's accumulating `reduce` computes exactly the group-by. */
  lemma {:induction false} SummarizeIsGroupBy(rs: seq<ReturnOrder>)
    ensures Summarizes(rs, Summarize(rs))
  {
    if |rs| == 0 {
      assert ProductsOf(rs) == {};
    } else {
      var init := rs[..|rs| - 1];
      assert init + [rs[|rs| - 1]] == rs;
      SummarizeIsGroupBy(init);
      TallyKeepsGroupBy(init, rs[|rs| - 1], Summarize(init));
    }
  }

  // ---- The panel ----

  /** `orderDate >= thirtyDaysAgo && orderDate <= today`. The record date is midnight of
      its day, `thirtyDaysAgo` is thirty days before the current moment and `today` is the
      current moment; with the moment past midnight this keeps the days after `cutoff`
      (the calendar day of `thirtyDaysAgo`) up to and including `today`. */
  predicate InLast30Days(date: string, cutoff: Date, today: Date)
  {
    var d := ParseDayMonthYear(date);
    d.Some? && Lt(cutoff, d.value) && Le(d.value, today)
  }

  function Recent(rs: seq<ReturnOrder>, cutoff: Date, today: Date): seq<ReturnOrder>
  {
    Filter(rs, (r: ReturnOrder) => InLast30Days(r.date, cutoff, today))
  }

  /** `Object.values(productSummary)`: the entries in first-met order. */
  function Values(products: seq<string>, byProduct: map<string, ProductSummary>): (vs: seq<ProductSummary>)
    requires forall i :: 0 <= i < |products| ==> products[i] in byProduct
    ensures |vs| == |products|
    ensures forall i :: 0 <= i < |vs| ==> vs[i] == byProduct[products[i]]
  {
    if |products| == 0 then [] else [byProduct[products[0]]] + Values(products[1..], byProduct)
  }

  predicate IsHigh(s: ProductSummary) { s.totalQty >= HighReturnThreshold }

  /** `highReturnProducts`: the summaries of the recent returns whose total quantity is at
      least 50, highest total first. */
  function HighReturnProducts(rs: seq<ReturnOrder>, cutoff: Date, today: Date): (r: seq<ProductSummary>)
    ensures SortedDescending(r, TotalQty)
    ensures forall i :: 0 <= i < |r| ==> IsHigh(r[i])
  {
    var g := Summarize(Recent(rs, cutoff, today));
    SummarizeIsGroupBy(Recent(rs, cutoff, today));
    Panel(g)
  }

  /** The entries of a well-formed accumulator that reach the threshold, highest first. */
  function Panel(g: Summaries): (r: seq<ProductSummary>)
    requires forall i :: 0 <= i < |g.products| ==> g.products[i] in g.byProduct
    ensures SortedDescending(r, TotalQty)
    ensures forall i :: 0 <= i < |r| ==> IsHigh(r[i])
  {
    var kept := Filter(Values(g.products, g.byProduct), IsHigh);
    SameElements(SortDescending(kept, TotalQty), kept);
    SortDescending(kept, TotalQty)
  }

  /** Products with equal totals keep their `Object.values` order on the panel: the
      `sort` is stable, and the threshold keeps or drops all entries of one total alike. */
  lemma PanelKeepsTieOrder(g: Summaries, total: int)
    requires forall i :: 0 <= i < |g.products| ==> g.products[i] in g.byProduct
    ensures total >= HighReturnThreshold ==>
              Filter(Panel(g), HasKey(TotalQty, total))
              == Filter(Values(g.products, g.byProduct), HasKey(TotalQty, total))
    ensures total < HighReturnThreshold ==> Filter(Panel(g), HasKey(TotalQty, total)) == []
  {
    var vs := Values(g.products, g.byProduct);
    var kept := Filter(vs, IsHigh);
    if total >= HighReturnThreshold {
      SortIsStable(kept, TotalQty, total);
      FilterOfFilter(vs, IsHigh, HasKey(TotalQty, total));
    } else {
      FilterNone(Panel(g), HasKey(TotalQty, total));
    }
  }

  /** Each product is listed once, the list and the map agree, and every entry carries
      its own product name. */
  ghost predicate WellFormed(g: Summaries)
  {
    && (forall i, j :: 0 <= i < j < |g.products| ==> g.products[i] != g.products[j])
    && (forall k :: k in g.byProduct <==> k in g.products)
    && (forall k :: k in g.byProduct ==> g.byProduct[k].product == k)
  }

  /** No two entries of `xs` are about the same product. */
  predicate ProductsDistinct(xs: seq<ProductSummary>)
  {
    forall i, j :: 0 <= i < j < |xs| ==> xs[i].product != xs[j].product
  }

  lemma SummarizesIsWellFormed(rs: seq<ReturnOrder>, g: Summaries)
    requires Summarizes(rs, g)
    ensures WellFormed(g)
  {
  }

  /** `Object.values` of a well-formed accumulator holds exactly its entries, one per product. */
  lemma ValuesOfWellFormed(g: Summaries)
    requires WellFormed(g)
    ensures forall s :: s in Values(g.products, g.byProduct) <==> s.product in g.byProduct && g.byProduct[s.product] == s
    ensures ProductsDistinct(Values(g.products, g.byProduct))
  {
    ValuesMembers(g);
    ValuesDistinct(g);
  }

  lemma ValuesMembers(g: Summaries)
    requires WellFormed(g)
    ensures forall s :: s in Values(g.products, g.byProduct) <==> s.product in g.byProduct && g.byProduct[s.product] == s
  {
    var vs := Values(g.products, g.byProduct);
    forall s ensures s in vs <==> s.product in g.byProduct && g.byProduct[s.product] == s
    {
      if s in vs {
        var i :| 0 <= i < |vs| && vs[i] == s;
        assert g.products[i] in g.byProduct;
      }
      if s.product in g.byProduct && g.byProduct[s.product] == s {
        var i :| 0 <= i < |g.products| && g.products[i] == s.product;
        assert vs[i] == s;
      }
    }
  }

  lemma ValuesDistinct(g: Summaries)
    requires WellFormed(g)
    ensures ProductsDistinct(Values(g.products, g.byProduct))
  {
    var vs := Values(g.products, g.byProduct);
    forall i, j | 0 <= i < j < |vs| ensures vs[i].product != vs[j].product
    {
      assert g.products[i] in g.byProduct && g.products[j] in g.byProduct;
    }
  }

  /** A product occurs once in `xs` at most, so each entry does too. */
  lemma ProductsDistinctOnce(xs: seq<ProductSummary>, a: nat)
    requires ProductsDistinct(xs) && a < |xs|
    ensures multiset(xs)[xs[a]] == 1
  {
    assert xs == xs[..a] + [xs[a]] + xs[a + 1..];
    assert xs[a] !in xs[..a] by {
      forall b | 0 <= b < a ensures xs[..a][b] != xs[a] { assert xs[..a][b] == xs[b]; }
    }
    var tail := xs[a + 1..];
    assert xs[a] !in tail by {
      forall c | 0 <= c < |tail| ensures tail[c] != xs[a] { assert tail[c] == xs[a + 1 + c]; }
    }
  }

  /** Taking a sub-bag of a product-distinct list keeps it product-distinct. */
  lemma ProductsDistinctSubBag(vs: seq<ProductSummary>, r: seq<ProductSummary>)
    requires ProductsDistinct(vs)
    requires multiset(r) <= multiset(vs)
    ensures ProductsDistinct(r)
  {
    forall i, j | 0 <= i < j < |r| ensures r[i].product != r[j].product
    {
      if r[i].product == r[j].product {
        assert r[i] in multiset(vs) && r[j] in multiset(vs);
        var a :| 0 <= a < |vs| && vs[a] == r[i];
        var b :| 0 <= b < |vs| && vs[b] == r[j];
        assert a == b;
        TwoIndicesCountTwice(r, i, j);
        ProductsDistinctOnce(vs, a);
        assert false;
      }
    }
  }

  /** The panel of a well-formed accumulator holds exactly its entries that reach the
      threshold, one per product. */
  lemma PanelOfWellFormed(g: Summaries)
    requires WellFormed(g)
    ensures forall s :: s in Panel(g) <==> s.product in g.byProduct && g.byProduct[s.product] == s && IsHigh(s)
    ensures ProductsDistinct(Panel(g))
  {
    PanelMembers(g);
    PanelDistinct(g);
  }

  /** Lists with the same multiset have the same elements. */
  lemma SameElements(a: seq<ProductSummary>, b: seq<ProductSummary>)
    requires multiset(a) == multiset(b)
    ensures forall s :: s in a <==> s in b
  {
    forall s ensures s in a <==> s in b {
      assert s in a <==> s in multiset(a);
      assert s in b <==> s in multiset(b);
    }
  }

  lemma PanelMembers(g: Summaries)
    requires WellFormed(g)
    ensures forall s :: s in Panel(g) <==> s.product in g.byProduct && g.byProduct[s.product] == s && IsHigh(s)
  {
    ValuesMembers(g);
    var vs := Values(g.products, g.byProduct);
    SameElements(Panel(g), Filter(vs, IsHigh));
  }

  lemma PanelDistinct(g: Summaries)
    requires WellFormed(g)
    ensures ProductsDistinct(Panel(g))
  {
    ValuesDistinct(g);
    var vs := Values(g.products, g.byProduct);
    var kept := Filter(vs, IsHigh);
    FilterCounts(vs, IsHigh);
    assert multiset(Panel(g)) == multiset(kept);
    assert multiset(kept) <= multiset(vs);
    ProductsDistinctSubBag(vs, Panel(g));
  }

  /** The panel lists exactly the reference summaries of the recent products that reach the
      threshold: each entry is its product's summary, and no qualifying product is missing. */
  lemma HighReturnProductsAreGroupBy(rs: seq<ReturnOrder>, cutoff: Date, today: Date)
    ensures var recent := Recent(rs, cutoff, today);
            forall s :: s in HighReturnProducts(rs, cutoff, today) <==>
              s.product in ProductsOf(recent) && s == SummaryOf(recent, s.product) && IsHigh(s)
  {
    var recent := Recent(rs, cutoff, today);
    var g := Summarize(recent);
    SummarizeIsGroupBy(recent);
    SummarizesIsWellFormed(recent, g);
    PanelOfWellFormed(g);
  }

  /** No product is listed twice on the panel. */
  lemma HighReturnProductsDistinct(rs: seq<ReturnOrder>, cutoff: Date, today: Date)
    ensures ProductsDistinct(HighReturnProducts(rs, cutoff, today))
  {
    var recent := Recent(rs, cutoff, today);
    SummarizeIsGroupBy(recent);
    SummarizesIsWellFormed(recent, Summarize(recent));
    PanelOfWellFormed(Summarize(recent));
  }

  lemma TwoIndicesCountTwice<T>(xs: seq<T>, i: nat, j: nat)
    requires i < j < |xs| && xs[i] == xs[j]
    ensures multiset(xs)[xs[i]] >= 2
  {
    assert xs == xs[..i] + [xs[i]] + xs[i + 1..j] + [xs[j]] + xs[j + 1..];
  }

  // ---- The `reduce` as written, over a plain object ----

  /** One step of the source's `reduce` on a `{}` accumulator. `!acc[name]` is false for a
      name `Object.prototype` already answers, so no entry is created and the next line
      calls `.add` on an undefined `companies`: the render throws (`None`). */
  function TallyAsWritten(acc: Option<Summaries>, r: ReturnOrder): Option<Summaries>
  {
    if acc.None? then None
    else if r.product !in acc.value.byProduct && r.product in JsObject.InheritedKeys then None
    else Some(Tally(acc.value, r))
  }

  function SummarizeAsWritten(rs: seq<ReturnOrder>): Option<Summaries>
  {
    if |rs| == 0 then Some(Summaries([], map[]))
    else TallyAsWritten(SummarizeAsWritten(rs[..|rs| - 1]), rs[|rs| - 1])
  }

  /** No recent return names an inherited property. */
  predicate PlainProductNames(rs: seq<ReturnOrder>)
  {
    forall i :: 0 <= i < |rs| ==> rs[i].product !in JsObject.InheritedKeys
  }

  lemma PlainSnoc(init: seq<ReturnOrder>, x: ReturnOrder)
    ensures PlainProductNames(init + [x]) <==> PlainProductNames(init) && x.product !in JsObject.InheritedKeys
  {
    var rs := init + [x];
    assert rs[|init|] == x;
    assert forall i :: 0 <= i < |init| ==> rs[i] == init[i];
  }

  /** The products the `reduce` has an entry for are the products met so far. */
  lemma {:induction false} SummarizeKeys(rs: seq<ReturnOrder>)
    ensures Summarize(rs).byProduct.Keys == ProductsOf(rs)
  {
    if |rs| > 0 {
      var init := rs[..|rs| - 1];
      var x := rs[|rs| - 1];
      assert init + [x] == rs;
      SummarizeKeys(init);
      SetsSnoc(init, x);
    }
  }

  /** Names met in a list without inherited names are not inherited names. */
  lemma {:induction false} PlainAvoidsInherited(rs: seq<ReturnOrder>)
    requires PlainProductNames(rs)
    ensures ProductsOf(rs) !! JsObject.InheritedKeys
  {
    if |rs| == 0 {
      assert ProductsOf(rs) == {};
    } else {
      var init := rs[..|rs| - 1];
      var x := rs[|rs| - 1];
      assert init + [x] == rs;
      PlainSnoc(init, x);
      SetsSnoc(init, x);
      PlainAvoidsInherited(init);
    }
  }

  /** The object-based `reduce` computes the group-by exactly when no product is named
      like an `Object.prototype` member, and throws otherwise. */
  lemma {:induction false} SummarizeAsWrittenFailsOnInheritedNames(rs: seq<ReturnOrder>)
    ensures SummarizeAsWritten(rs).Some? <==> PlainProductNames(rs)
    ensures PlainProductNames(rs) ==> SummarizeAsWritten(rs) == Some(Summarize(rs))
  {
    if |rs| > 0 {
      var init := rs[..|rs| - 1];
      var x := rs[|rs| - 1];
      assert init + [x] == rs;
      SummarizeAsWrittenFailsOnInheritedNames(init);
      PlainSnoc(init, x);
      if PlainProductNames(init) && x.product in JsObject.InheritedKeys {
        SummarizeKeys(init);
        PlainAvoidsInherited(init);
      }
    }
  }

  /** A single recent return of a product called "constructor" makes the screen throw. */
  lemma ConstructorProductThrows()
    ensures SummarizeAsWritten([ReturnOrder("1", "01-01-2024", "constructor", 60, 10,
                                            "Acme", [], "Damaged", "RTO")]).None?
  {
    var rs := [ReturnOrder("1", "01-01-2024", "constructor", 60, 10, "Acme", [], "Damaged", "RTO")];
    assert rs[..0] == [];
  }
}

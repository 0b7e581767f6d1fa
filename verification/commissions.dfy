/** The commission recompute (`POST /api/calcular-comisiones`).

    For every seller it selects the seller's sales dated inside the period
    (both ends included), sums their amounts, applies the seller's first rule
    (no rule: nothing is paid), replaces the history rows of that seller for the
    exact same period by one new row, and answers with per-seller results and
    the sum of the commissions. */
module Commissions {
  import opened Wrappers
  import opened Dates
  import opened Money
  import opened Records

  /** The selection test of the recompute: the sale is the seller's, carries a
      date, and the date lies inside the period, both ends included. */
  predicate InPeriod(s: Sale, sellerId: int, lo: Date, hi: Date) {
    s.sellerId == sellerId && s.date.Some? && Le(lo, s.date.value) && Le(s.date.value, hi)
  }

  /** The seller's sales in the period, in collection order. */
  function SalesInPeriod(sales: seq<Sale>, sellerId: int, lo: Date, hi: Date): (r: seq<Sale>)
    ensures forall s :: s in r <==> s in sales && InPeriod(s, sellerId, lo, hi)
    ensures forall s :: multiset(r)[s] == if InPeriod(s, sellerId, lo, hi) then multiset(sales)[s] else 0
    ensures forall i :: 0 <= i < |r| ==> InPeriod(r[i], sellerId, lo, hi)
  {
    if |sales| == 0 then []
    else
      var rest := SalesInPeriod(sales[1..], sellerId, lo, hi);
      assert sales == [sales[0]] + sales[1..];
      if InPeriod(sales[0], sellerId, lo, hi) then [sales[0]] + rest else rest
  }

  /** The itemised form a history row keeps of each selected sale. */
  function Details(sales: seq<Sale>): seq<SaleDetail>
    requires forall i :: 0 <= i < |sales| ==> sales[i].date.Some?
  {
    seq(|sales|, i requires 0 <= i < |sales| => SaleDetail(sales[i].id, sales[i].date.value, sales[i].amount))
  }

  /** Position of the first rule of `sellerId`, or `|rules|` when it has none. */
  function FirstRuleIndex(rules: seq<Rule>, sellerId: int): (k: nat)
    ensures k <= |rules|
    ensures forall j :: 0 <= j < k ==> rules[j].sellerId != sellerId
    ensures k < |rules| ==> rules[k].sellerId == sellerId
  {
    if |rules| == 0 || rules[0].sellerId == sellerId then 0
    else 1 + FirstRuleIndex(rules[1..], sellerId)
  }

  /** The rule the recompute applies: the first one of the seller. */
  function FirstRule(rules: seq<Rule>, sellerId: int): (r: Option<Rule>)
    ensures r.None? <==> forall j :: 0 <= j < |rules| ==> rules[j].sellerId != sellerId
    ensures r.Some? ==> exists k :: 0 <= k < |rules| && rules[k] == r.value
                          && rules[k].sellerId == sellerId
                          && forall j :: 0 <= j < k ==> rules[j].sellerId != sellerId
  {
    var k := FirstRuleIndex(rules, sellerId);
    if k < |rules| then Some(rules[k]) else None
  }

  /** The percentage recorded for a rule lookup: 0 when the seller has no rule. */
  function RulePercentage(rule: Option<Rule>): real {
    if rule.Some? then rule.value.percentage else 0.0
  }

  /** One seller's entry of the response. */
  datatype SellerResult = SellerResult(
    seller: Seller,
    salesInRange: seq<SaleDetail>,
    totalSales: real,
    rule: Option<Rule>,
    commission: real)

  function SellerCommission(sales: seq<Sale>, rules: seq<Rule>, seller: Seller, lo: Date, hi: Date): (r: SellerResult)
    ensures r.seller == seller && r.rule == FirstRule(rules, seller.id)
    ensures r.totalSales == TotalAmount(SalesInPeriod(sales, seller.id, lo, hi))
    ensures |r.salesInRange| == |SalesInPeriod(sales, seller.id, lo, hi)|
    ensures forall i :: 0 <= i < |r.salesInRange| ==>
              var s := SalesInPeriod(sales, seller.id, lo, hi)[i];
              r.salesInRange[i] == SaleDetail(s.id, s.date.value, s.amount)
    ensures IsCents(r.commission)
    ensures r.rule.None? ==> r.commission == 0.0
    ensures r.rule.Some? ==> r.commission == Round2(PercentOf(r.totalSales, r.rule.value.percentage))
  {
    var selected := SalesInPeriod(sales, seller.id, lo, hi);
    var total := TotalAmount(selected);
    var rule := FirstRule(rules, seller.id);
    var commission := if rule.Some? then Round2(PercentOf(total, rule.value.percentage)) else 0.0;
    SellerResult(seller, Details(selected), total, rule, commission)
  }

  function Results(st: Store, lo: Date, hi: Date): (rs: seq<SellerResult>)
    ensures |rs| == |st.sellers|
  {
    seq(|st.sellers|, i requires 0 <= i < |st.sellers| => SellerCommission(st.sales, st.rules, st.sellers[i], lo, hi))
  }

  /** The history document written for one seller's result. */
  function RowOf(r: SellerResult, calcDate: string, start: string, end: string): HistoryRow {
    HistoryRow(r.seller.id, calcDate, start, end, r.totalSales, RulePercentage(r.rule), r.commission, r.salesInRange)
  }

  function Rows(rs: seq<SellerResult>, calcDate: string, start: string, end: string): (rows: seq<HistoryRow>)
    ensures |rows| == |rs|
  {
    seq(|rs|, i requires 0 <= i < |rs| => RowOf(rs[i], calcDate, start, end))
  }

  function SumCommissions(rs: seq<SellerResult>): real {
    if |rs| == 0 then 0.0 else SumCommissions(rs[..|rs| - 1]) + rs[|rs| - 1].commission
  }

  lemma {:induction false} SumCommissionsCents(rs: seq<SellerResult>)
    requires forall i :: 0 <= i < |rs| ==> IsCents(rs[i].commission)
    ensures IsCents(SumCommissions(rs))
  {
    if |rs| == 0 {
      assert (0.0 * 100.0).Floor == 0;
    } else {
      SumCommissionsCents(rs[..|rs| - 1]);
      CentsAdd(SumCommissions(rs[..|rs| - 1]), rs[|rs| - 1].commission);
    }
  }

  /** A history row belongs to one of the sellers `ids` and to exactly the period `start`..`end`. */
  predicate Targeted(row: HistoryRow, ids: set<int>, start: string, end: string) {
    row.sellerId in ids && row.periodStart == start && row.periodEnd == end
  }

  /** `delete_many` on the history for the sellers `ids` and the exact period. */
  function DropKeys(h: seq<HistoryRow>, ids: set<int>, start: string, end: string): (r: seq<HistoryRow>)
    ensures forall x :: multiset(r)[x] == if Targeted(x, ids, start, end) then 0 else multiset(h)[x]
    ensures forall i :: 0 <= i < |r| ==> !Targeted(r[i], ids, start, end)
  {
    if |h| == 0 then []
    else
      var rest := DropKeys(h[1..], ids, start, end);
      assert h == [h[0]] + h[1..];
      if Targeted(h[0], ids, start, end) then rest else [h[0]] + rest
  }

  /** One iteration of the recompute loop on the history: delete the rows of
      the new row's seller and period, then insert the new row. */
  function Upsert(h: seq<HistoryRow>, row: HistoryRow): (r: seq<HistoryRow>)
    ensures |r| > 0 && r[|r| - 1] == row
    ensures forall i :: 0 <= i < |r| - 1 ==> !Targeted(r[i], {row.sellerId}, row.periodStart, row.periodEnd)
    ensures forall x :: !Targeted(x, {row.sellerId}, row.periodStart, row.periodEnd) ==> multiset(r)[x] == multiset(h)[x]
  {
    var kept := DropKeys(h, {row.sellerId}, row.periodStart, row.periodEnd);
    assert (kept + [row])[..|kept|] == kept;
    kept + [row]
  }

  /** The recompute loop over all sellers, in collection order. */
  function UpsertAll(h: seq<HistoryRow>, rows: seq<HistoryRow>): (r: seq<HistoryRow>)
    ensures |rows| > 0 ==> |r| > 0 && r[|r| - 1] == rows[|rows| - 1]
    ensures forall x :: (forall i :: 0 <= i < |rows| ==> !Targeted(x, {rows[i].sellerId}, rows[i].periodStart, rows[i].periodEnd))
                        ==> multiset(r)[x] == multiset(h)[x]
    decreases |rows|
  {
    if |rows| == 0 then h
    else
      var r := UpsertAll(Upsert(h, rows[0]), rows[1..]);
      assert forall i :: 0 <= i < |rows| - 1 ==> rows[1..][i] == rows[i + 1];
      r
  }

  datatype RecomputeResponse = RecomputeResponse(
    periodStart: string,
    periodEnd: string,
    results: seq<SellerResult>,
    totalCommissions: real)

  const MissingDates := "Fechas de inicio y fin son requeridas"

  /** `calcular_comisiones`: `today` stands for the clock. */
  function Recompute(st: Store, start: Option<string>, end: Option<string>, today: Date): (out: Reply<RecomputeResponse>)
    ensures out.body.Err? ==> out.store == st
    ensures !Given(start) || !Given(end) ==> out.body == Err(ValidationError(MissingDates))
    ensures Given(start) && Given(end) && (Parse(start.value).None? || Parse(end.value).None?) ==>
              out.body == Err(InternalError)
    ensures out.body.Ok? <==> Given(start) && Given(end) && Parse(start.value).Some? && Parse(end.value).Some?
    ensures out.body.Ok? ==>
      && out.store.sellers == st.sellers && out.store.sales == st.sales && out.store.rules == st.rules
      && out.body.value.periodStart == start.value && out.body.value.periodEnd == end.value
      && |out.body.value.results| == |st.sellers|
      && (forall i :: 0 <= i < |st.sellers| ==> out.body.value.results[i].seller == st.sellers[i])
      && out.body.value.totalCommissions == SumCommissions(out.body.value.results)
  {
    if !Given(start) || !Given(end) then Reply(st, Err(ValidationError(MissingDates)))
    else
      var lo, hi := Parse(start.value), Parse(end.value);
      if lo.None? || hi.None? then Reply(st, Err(InternalError))
      else
        var rs := Results(st, lo.value, hi.value);
        var rows := Rows(rs, Format(today), start.value, end.value);
        SumCommissionsCents(rs);
        var response := RecomputeResponse(start.value, end.value, rs, Round2(SumCommissions(rs)));
        Reply(st.(history := UpsertAll(st.history, rows)), Ok(response))
  }
}

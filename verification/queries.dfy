/** The read side: the sales list with seller names (`GET /api/ventas`), the
    filtered commission history (`GET /api/historial-comisiones`) and the
    per-sale gain projection (`GET /api/ventas-filtradas`). */
module Queries {
  import opened Wrappers
  import opened Dates
  import opened Money
  import opened Records
  import opened Commissions

  /** Position of the last seller with `sellerId`, or -1. The endpoints index
      the sellers in a dictionary keyed by id, so a later seller overrides an
      earlier one with the same id. */
  function LastSellerIndex(sellers: seq<Seller>, sellerId: int): (k: int)
    ensures -1 <= k < |sellers|
    ensures k >= 0 ==> sellers[k].id == sellerId
    ensures forall j :: k < j < |sellers| ==> sellers[j].id != sellerId
  {
    if |sellers| == 0 then -1
    else if sellers[|sellers| - 1].id == sellerId then |sellers| - 1
    else LastSellerIndex(sellers[..|sellers| - 1], sellerId)
  }

  /** The seller-name join: the seller's name, or "Desconocido" when no seller
      has that id. */
  function SellerName(sellers: seq<Seller>, sellerId: int): (name: string)
    ensures (forall i :: 0 <= i < |sellers| ==> sellers[i].id != sellerId) ==> name == UnknownSeller
    ensures (exists i :: 0 <= i < |sellers| && sellers[i].id == sellerId) ==>
              exists i :: 0 <= i < |sellers| && sellers[i].id == sellerId && name == sellers[i].name
    ensures UniqueSellerIds(sellers) ==>
              forall i :: 0 <= i < |sellers| && sellers[i].id == sellerId ==> name == sellers[i].name
  {
    var k := LastSellerIndex(sellers, sellerId);
    if k < 0 then UnknownSeller else sellers[k].name
  }

  datatype SaleView = SaleView(sale: Sale, sellerName: string)

  /** `get_ventas`: every sale, in collection order, with its seller's name. */
  function ListSales(st: Store): (r: seq<SaleView>)
    ensures |r| == |st.sales|
    ensures forall i :: 0 <= i < |r| ==> r[i].sale == st.sales[i]
    ensures forall i :: 0 <= i < |r| ==> r[i].sellerName == SellerName(st.sellers, st.sales[i].sellerId)
  {
    seq(|st.sales|, i requires 0 <= i < |st.sales| =>
      SaleView(st.sales[i], SellerName(st.sellers, st.sales[i].sellerId)))
  }

  // ---------------------------------------------------------------------------
  // History

  /** The query string of the history endpoint: bounds on the calculation date
      and a seller id, each optional. */
  datatype HistoryQuery = HistoryQuery(from: Option<string>, to: Option<string>, sellerId: Option<int>)

  datatype CalcBounds = CalcBounds(lower: Option<string>, upper: Option<string>)

  /** The `fecha_calculo` condition as the endpoint builds it: both bounds,
      only the lower one, only the upper one, or none. Each bound is used
      exactly when it is given. */
  function CalcDateBounds(from: Option<string>, to: Option<string>): (b: CalcBounds)
    ensures b.lower == (if Given(from) then Some(from.value) else None)
    ensures b.upper == (if Given(to) then Some(to.value) else None)
  {
    if Given(from) && Given(to) then CalcBounds(Some(from.value), Some(to.value))
    else if Given(from) then CalcBounds(Some(from.value), None)
    else if Given(to) then CalcBounds(None, Some(to.value))
    else CalcBounds(None, None)
  }

  /** The database query of the history endpoint; calculation dates are
      compared as strings. */
  predicate MatchesQuery(row: HistoryRow, q: HistoryQuery)
    ensures MatchesQuery(row, q) <==>
              && (Given(q.from) ==> StrLe(q.from.value, row.calcDate))
              && (Given(q.to) ==> StrLe(row.calcDate, q.to.value))
              && (q.sellerId.Some? ==> row.sellerId == q.sellerId.value)
  {
    var b := CalcDateBounds(q.from, q.to);
    && (b.lower.Some? ==> StrLe(b.lower.value, row.calcDate))
    && (b.upper.Some? ==> StrLe(row.calcDate, b.upper.value))
    && (q.sellerId.Some? ==> row.sellerId == q.sellerId.value)
  }

  function MatchingRows(h: seq<HistoryRow>, q: HistoryQuery): (r: seq<HistoryRow>)
    ensures forall x :: multiset(r)[x] == if MatchesQuery(x, q) then multiset(h)[x] else 0
    ensures forall i :: 0 <= i < |r| ==> MatchesQuery(r[i], q) && r[i] in h
  {
    if |h| == 0 then []
    else
      var rest := MatchingRows(h[1..], q);
      assert h == [h[0]] + h[1..];
      if MatchesQuery(h[0], q) then [h[0]] + rest else rest
  }

  function SumRowCommissions(h: seq<HistoryRow>): real {
    if |h| == 0 then 0.0 else SumRowCommissions(h[..|h| - 1]) + h[|h| - 1].commission
  }

  predicate AllCents(h: seq<HistoryRow>) {
    forall i :: 0 <= i < |h| ==> IsCents(h[i].commission)
  }

  lemma {:induction false} SumRowCommissionsCents(h: seq<HistoryRow>)
    requires AllCents(h)
    ensures IsCents(SumRowCommissions(h))
  {
    if |h| == 0 {
      assert (0.0 * 100.0).Floor == 0;
    } else {
      SumRowCommissionsCents(h[..|h| - 1]);
      CentsAdd(SumRowCommissions(h[..|h| - 1]), h[|h| - 1].commission);
    }
  }

  datatype HistoryView = HistoryView(row: HistoryRow, sellerName: string)

  datatype HistoryPage = HistoryPage(rows: seq<HistoryView>, count: nat, totalCommissions: real)

  /** `get_historial_comisiones`. */
  function FilterHistory(st: Store, q: HistoryQuery): (page: HistoryPage)
    ensures page.count == |page.rows| == |MatchingRows(st.history, q)|
    ensures forall i :: 0 <= i < |page.rows| ==>
              page.rows[i].row == MatchingRows(st.history, q)[i]
              && page.rows[i].sellerName == SellerName(st.sellers, page.rows[i].row.sellerId)
    ensures IsCents(page.totalCommissions)
    ensures AllCents(st.history) ==> page.totalCommissions == SumRowCommissions(MatchingRows(st.history, q))
  {
    var rows := MatchingRows(st.history, q);
    var views := seq(|rows|, i requires 0 <= i < |rows| => HistoryView(rows[i], SellerName(st.sellers, rows[i].sellerId)));
    assert AllCents(st.history) ==> IsCents(SumRowCommissions(rows)) by {
      if AllCents(st.history) {
        assert AllCents(rows);
        SumRowCommissionsCents(rows);
      }
    }
    HistoryPage(views, |views|, Round2(SumRowCommissions(rows)))
  }

  /** A row is returned exactly when it satisfies every given filter: the lower
      calculation-date bound if given, the upper one if given, the seller id if
      given. */
  lemma FilterHistoryMembership(st: Store, q: HistoryQuery, row: HistoryRow)
    ensures (exists i :: 0 <= i < |FilterHistory(st, q).rows| && FilterHistory(st, q).rows[i].row == row)
            <==> row in st.history
                 && (Given(q.from) ==> StrLe(q.from.value, row.calcDate))
                 && (Given(q.to) ==> StrLe(row.calcDate, q.to.value))
                 && (q.sellerId.Some? ==> row.sellerId == q.sellerId.value)
  {
    var page := FilterHistory(st, q);
    var rows := MatchingRows(st.history, q);
    if row in st.history && MatchesQuery(row, q) {
      assert multiset(rows)[row] > 0;
      var i :| 0 <= i < |rows| && rows[i] == row;
      assert page.rows[i].row == row;
    }
    if exists i :: 0 <= i < |page.rows| && page.rows[i].row == row {
      var i :| 0 <= i < |page.rows| && page.rows[i].row == row;
      assert rows[i] == row;
    }
  }

  /** Rows written by recomputes keep whole-cent commissions, so the history
      total the endpoint reports is the exact sum of the returned rows. */
  lemma {:induction false} UpsertAllKeepsCents(h: seq<HistoryRow>, rows: seq<HistoryRow>)
    requires AllCents(h) && AllCents(rows)
    ensures AllCents(UpsertAll(h, rows))
    decreases |rows|
  {
    if |rows| > 0 {
      var kept := DropKeys(h, {rows[0].sellerId}, rows[0].periodStart, rows[0].periodEnd);
      forall i | 0 <= i < |kept| ensures IsCents(kept[i].commission) {
        assert multiset(kept)[kept[i]] > 0;
        assert kept[i] in h;
      }
      UpsertAllKeepsCents(Upsert(h, rows[0]), rows[1..]);
    }
  }

  lemma RecomputeKeepsCents(st: Store, start: Option<string>, end: Option<string>, today: Date)
    requires AllCents(st.history)
    ensures AllCents(Recompute(st, start, end, today).store.history)
  {
    var out := Recompute(st, start, end, today);
    if out.body.Ok? {
      var rs := Results(st, Parse(start.value).value, Parse(end.value).value);
      var rows := Rows(rs, Format(today), start.value, end.value);
      assert AllCents(rows) by {
        forall i | 0 <= i < |rows| ensures IsCents(rows[i].commission) {
          assert rows[i].commission == rs[i].commission;
        }
      }
      UpsertAllKeepsCents(st.history, rows);
    }
  }

  // ---------------------------------------------------------------------------
  // Per-sale gain projection

  /** Position of the last rule of `sellerId`, or -1. The projection indexes the
      rules in a dictionary keyed by seller id, so a later rule overrides an
      earlier one. */
  function LastRuleIndex(rules: seq<Rule>, sellerId: int): (k: int)
    ensures -1 <= k < |rules|
    ensures k >= 0 ==> rules[k].sellerId == sellerId
    ensures forall j :: k < j < |rules| ==> rules[j].sellerId != sellerId
  {
    if |rules| == 0 then -1
    else if rules[|rules| - 1].sellerId == sellerId then |rules| - 1
    else LastRuleIndex(rules[..|rules| - 1], sellerId)
  }

  function LastRule(rules: seq<Rule>, sellerId: int): (r: Option<Rule>)
    ensures r.None? <==> forall j :: 0 <= j < |rules| ==> rules[j].sellerId != sellerId
    ensures r.Some? ==> exists k :: 0 <= k < |rules| && rules[k] == r.value
                          && rules[k].sellerId == sellerId
                          && forall j :: k < j < |rules| ==> rules[j].sellerId != sellerId
  {
    var k := LastRuleIndex(rules, sellerId);
    if k >= 0 then Some(rules[k]) else None
  }

  /** The database query of the projection: the sale has a date whose text lies
      between the two request strings. */
  predicate BetweenStrings(s: Sale, lo: string, hi: string) {
    s.date.Some? && StrLe(lo, Format(s.date.value)) && StrLe(Format(s.date.value), hi)
  }

  function SalesBetween(sales: seq<Sale>, lo: string, hi: string): (r: seq<Sale>)
    ensures forall x :: multiset(r)[x] == if BetweenStrings(x, lo, hi) then multiset(sales)[x] else 0
    ensures forall i :: 0 <= i < |r| ==> BetweenStrings(r[i], lo, hi)
  {
    if |sales| == 0 then []
    else
      var rest := SalesBetween(sales[1..], lo, hi);
      assert sales == [sales[0]] + sales[1..];
      if BetweenStrings(sales[0], lo, hi) then [sales[0]] + rest else rest
  }

  datatype GainRow = GainRow(
    id: int,
    sellerId: int,
    sellerName: string,
    date: Date,
    amount: real,
    percentage: real,
    gain: real)

  const MissingRange := "Debe proporcionar fecha_inicio y fecha_fin"
  const BadDateFormat := "Formato de fecha inv\U{ED}lido. Use YYYY-MM-DD"

  function GainRowOf(st: Store, s: Sale): (g: GainRow)
    requires s.date.Some?
    ensures g.id == s.id && g.sellerId == s.sellerId && g.date == s.date.value && g.amount == s.amount
    ensures g.sellerName == SellerName(st.sellers, s.sellerId)
    ensures LastRule(st.rules, s.sellerId).None? ==> g.percentage == 0.0 && g.gain == 0.0
    ensures LastRule(st.rules, s.sellerId).Some? ==>
              g.percentage == LastRule(st.rules, s.sellerId).value.percentage
    ensures g.gain == Round2(PercentOf(s.amount, g.percentage))
  {
    var pct := RulePercentage(LastRule(st.rules, s.sellerId));
    assert PercentOf(s.amount, 0.0) == 0.0;
    GainRow(s.id, s.sellerId, SellerName(st.sellers, s.sellerId), s.date.value, s.amount, pct,
            Round2(PercentOf(s.amount, pct)))
  }

  /** `ventas_filtradas`: read-only, so it answers without a store. */
  function FilteredSales(st: Store, start: Option<string>, end: Option<string>): (r: Result<seq<GainRow>, ApiError>)
    ensures !Given(start) || !Given(end) ==> r == Err(ValidationError(MissingRange))
    ensures Given(start) && Given(end) && (Parse(start.value).None? || Parse(end.value).None?) ==>
              r == Err(ValidationError(BadDateFormat))
    ensures r.Ok? <==> Given(start) && Given(end) && Parse(start.value).Some? && Parse(end.value).Some?
    ensures r.Ok? ==>
              var sel := SalesBetween(st.sales, start.value, end.value);
              |r.value| == |sel| && forall i :: 0 <= i < |sel| ==> r.value[i] == GainRowOf(st, sel[i])
  {
    if !Given(start) || !Given(end) then Err(ValidationError(MissingRange))
    else if Parse(start.value).None? || Parse(end.value).None? then Err(ValidationError(BadDateFormat))
    else
      var sel := SalesBetween(st.sales, start.value, end.value);
      Ok(seq(|sel|, i requires 0 <= i < |sel| => GainRowOf(st, sel[i])))
  }

  /** For accepted request dates the projection's string comparison selects
      exactly the sales dated, chronologically, inside the period. */
  lemma FilteredSalesChronological(sales: seq<Sale>, start: string, end: string)
    requires Parse(start).Some? && Parse(end).Some?
    ensures forall s :: BetweenStrings(s, start, end) <==>
              s.date.Some? && Le(Parse(start).value, s.date.value) && Le(s.date.value, Parse(end).value)
  {
    var lo, hi := Parse(start).value, Parse(end).value;
    forall s: Sale | s.date.Some?
      ensures BetweenStrings(s, start, end) <==> Le(lo, s.date.value) && Le(s.date.value, hi)
    {
      FormatOrder(lo, s.date.value);
      FormatOrder(s.date.value, hi);
    }
  }

  /** The projection and the recompute select the same sales of a seller. */
  lemma SameSelectionAsRecompute(sales: seq<Sale>, sellerId: int, start: string, end: string)
    requires Parse(start).Some? && Parse(end).Some?
    ensures forall x :: multiset(SalesInPeriod(sales, sellerId, Parse(start).value, Parse(end).value))[x]
                        == if x.sellerId == sellerId then multiset(SalesBetween(sales, start, end))[x] else 0
  {
    FilteredSalesChronological(sales, start, end);
  }

  /** With at most one rule per seller both rule lookups find the same rule. */
  lemma RuleLookupsAgree(rules: seq<Rule>, sellerId: int)
    requires OneRulePerSeller(rules)
    ensures LastRule(rules, sellerId) == FirstRule(rules, sellerId)
  {
    var f, l := FirstRuleIndex(rules, sellerId), LastRuleIndex(rules, sellerId);
    if f < |rules| {
      assert l >= f;
    }
  }

  /** With two rules for one seller the recompute applies the first and the
      projection the second. */
  lemma RuleLookupsDiffer()
    ensures var rules := [Rule(1, 1, 10.0, "10%"), Rule(2, 1, 5.0, "5%")];
      FirstRule(rules, 1) == Some(rules[0]) && LastRule(rules, 1) == Some(rules[1])
  {
    var rules := [Rule(1, 1, 10.0, "10%"), Rule(2, 1, 5.0, "5%")];
    assert FirstRuleIndex(rules, 1) == 0;
    assert LastRuleIndex(rules, 1) == 1;
  }
}

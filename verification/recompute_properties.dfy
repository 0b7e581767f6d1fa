/** What a recompute does to the commission history, and what running it again
    does. The database's unique seller ids are the one hypothesis. */
module RecomputeProperties {
  import opened Wrappers
  import opened Dates
  import opened Money
  import opened Records
  import opened Commissions
  import opened SaleEntry

  function SellerIds(sellers: seq<Seller>): set<int> {
    set i | 0 <= i < |sellers| :: sellers[i].id
  }

  function RowSellerIds(rows: seq<HistoryRow>): set<int> {
    set i | 0 <= i < |rows| :: rows[i].sellerId
  }

  predicate DistinctSellers(rows: seq<HistoryRow>) {
    forall i, j :: 0 <= i < j < |rows| ==> rows[i].sellerId != rows[j].sellerId
  }

  predicate AllForPeriod(rows: seq<HistoryRow>, start: string, end: string) {
    forall i :: 0 <= i < |rows| ==> rows[i].periodStart == start && rows[i].periodEnd == end
  }

  /** Number of history rows of one seller for exactly one period. */
  function CountKey(h: seq<HistoryRow>, sellerId: int, start: string, end: string): nat {
    if |h| == 0 then 0
    else (if Targeted(h[0], {sellerId}, start, end) then 1 else 0) + CountKey(h[1..], sellerId, start, end)
  }

  lemma {:induction false} DropKeysAppend(a: seq<HistoryRow>, b: seq<HistoryRow>, ids: set<int>, start: string, end: string)
    ensures DropKeys(a + b, ids, start, end) == DropKeys(a, ids, start, end) + DropKeys(b, ids, start, end)
  {
    if |a| == 0 {
      assert a + b == b;
    } else {
      assert (a + b)[1..] == a[1..] + b;
      DropKeysAppend(a[1..], b, ids, start, end);
    }
  }

  lemma {:induction false} DropKeysTwice(h: seq<HistoryRow>, ids1: set<int>, ids2: set<int>, start: string, end: string)
    ensures DropKeys(DropKeys(h, ids1, start, end), ids2, start, end) == DropKeys(h, ids1 + ids2, start, end)
  {
    if |h| > 0 {
      DropKeysTwice(h[1..], ids1, ids2, start, end);
      if !Targeted(h[0], ids1, start, end) {
        assert ([h[0]] + DropKeys(h[1..], ids1, start, end))[1..] == DropKeys(h[1..], ids1, start, end);
      }
    }
  }

  lemma {:induction false} DropKeysUntargeted(h: seq<HistoryRow>, ids: set<int>, start: string, end: string)
    requires forall i :: 0 <= i < |h| ==> !Targeted(h[i], ids, start, end)
    ensures DropKeys(h, ids, start, end) == h
  {
    if |h| > 0 {
      DropKeysUntargeted(h[1..], ids, start, end);
      assert h == [h[0]] + h[1..];
    }
  }

  lemma {:induction false} CountKeyAppend(a: seq<HistoryRow>, b: seq<HistoryRow>, sellerId: int, start: string, end: string)
    ensures CountKey(a + b, sellerId, start, end) == CountKey(a, sellerId, start, end) + CountKey(b, sellerId, start, end)
  {
    if |a| == 0 {
      assert a + b == b;
    } else {
      assert (a + b)[1..] == a[1..] + b;
      CountKeyAppend(a[1..], b, sellerId, start, end);
    }
  }

  lemma {:induction false} CountKeyNone(h: seq<HistoryRow>, sellerId: int, start: string, end: string)
    requires forall i :: 0 <= i < |h| ==> !Targeted(h[i], {sellerId}, start, end)
    ensures CountKey(h, sellerId, start, end) == 0
  {
    if |h| > 0 {
      CountKeyNone(h[1..], sellerId, start, end);
    }
  }

  lemma {:induction false} CountKeyDistinct(rows: seq<HistoryRow>, k: nat, start: string, end: string)
    requires k < |rows| && DistinctSellers(rows) && AllForPeriod(rows, start, end)
    ensures CountKey(rows, rows[k].sellerId, start, end) == 1
  {
    var sid := rows[k].sellerId;
    if k == 0 {
      CountKeyNone(rows[1..], sid, start, end);
    } else {
      CountKeyDistinct(rows[1..], k - 1, start, end);
    }
  }

  lemma RowSellerIdsCons(rows: seq<HistoryRow>)
    requires |rows| > 0 && DistinctSellers(rows)
    ensures RowSellerIds(rows) == {rows[0].sellerId} + RowSellerIds(rows[1..])
    ensures rows[0].sellerId !in RowSellerIds(rows[1..])
    ensures DistinctSellers(rows[1..])
  {
    var rest := rows[1..];
    forall x | x in RowSellerIds(rows) ensures x in {rows[0].sellerId} + RowSellerIds(rest) {
      var i :| 0 <= i < |rows| && rows[i].sellerId == x;
      if i > 0 { assert rest[i - 1] == rows[i]; }
    }
    forall x | x in RowSellerIds(rest) ensures x in RowSellerIds(rows) && x != rows[0].sellerId {
      var i :| 0 <= i < |rest| && rest[i].sellerId == x;
      assert rows[i + 1] == rest[i];
    }
  }

  lemma {:induction false} DropKeysAllTargeted(h: seq<HistoryRow>, ids: set<int>, start: string, end: string)
    requires forall i :: 0 <= i < |h| ==> Targeted(h[i], ids, start, end)
    ensures DropKeys(h, ids, start, end) == []
  {
    if |h| > 0 {
      DropKeysAllTargeted(h[1..], ids, start, end);
    }
  }

  /** The recompute loop over rows of one period for distinct sellers deletes
      every old row of those sellers and that period and appends the new rows. */
  lemma {:induction false} UpsertAllClosedForm(h: seq<HistoryRow>, rows: seq<HistoryRow>, start: string, end: string)
    requires AllForPeriod(rows, start, end) && DistinctSellers(rows)
    ensures UpsertAll(h, rows) == DropKeys(h, RowSellerIds(rows), start, end) + rows
    decreases |rows|
  {
    if |rows| == 0 {
      assert RowSellerIds(rows) == {};
      DropKeysUntargeted(h, {}, start, end);
      assert h + rows == h;
    } else {
      var r0, rest := rows[0], rows[1..];
      var ids' := RowSellerIds(rest);
      var dropped := DropKeys(h, {r0.sellerId}, start, end);
      RowSellerIdsCons(rows);
      calc {
        UpsertAll(h, rows);
        UpsertAll(dropped + [r0], rest);
        { UpsertAllClosedForm(dropped + [r0], rest, start, end); }
        DropKeys(dropped + [r0], ids', start, end) + rest;
        { DropKeysAppend(dropped, [r0], ids', start, end); }
        DropKeys(dropped, ids', start, end) + DropKeys([r0], ids', start, end) + rest;
        { DropKeysUntargeted([r0], ids', start, end); }
        DropKeys(dropped, ids', start, end) + [r0] + rest;
        { DropKeysTwice(h, {r0.sellerId}, ids', start, end); }
        DropKeys(h, {r0.sellerId} + ids', start, end) + [r0] + rest;
        { assert rows == [r0] + rest; }
        DropKeys(h, RowSellerIds(rows), start, end) + rows;
      }
    }
  }

  /** Deleting a set of keys again after new rows of exactly those keys were
      appended removes the new rows and leaves the earlier deletion as it was. */
  lemma DropAfterAppend(h: seq<HistoryRow>, ids: set<int>, rows: seq<HistoryRow>, start: string, end: string)
    requires forall i :: 0 <= i < |rows| ==> Targeted(rows[i], ids, start, end)
    ensures DropKeys(DropKeys(h, ids, start, end) + rows, ids, start, end) == DropKeys(h, ids, start, end)
  {
    var kept := DropKeys(h, ids, start, end);
    calc {
      DropKeys(kept + rows, ids, start, end);
      { DropKeysAppend(kept, rows, ids, start, end); }
      DropKeys(kept, ids, start, end) + DropKeys(rows, ids, start, end);
      { DropKeysAllTargeted(rows, ids, start, end); }
      DropKeys(kept, ids, start, end) + [];
      { DropKeysTwice(h, ids, ids, start, end); assert ids + ids == ids; }
      kept;
    }
  }

  /** The rows the recompute writes are for its period and for distinct sellers. */
  lemma RowsShape(st: Store, lo: Date, hi: Date, calcDate: string, start: string, end: string)
    requires UniqueSellerIds(st.sellers)
    ensures var rows := Rows(Results(st, lo, hi), calcDate, start, end);
      && AllForPeriod(rows, start, end) && DistinctSellers(rows)
      && RowSellerIds(rows) == SellerIds(st.sellers)
      && (forall i :: 0 <= i < |rows| ==> rows[i].sellerId == st.sellers[i].id)
      && (forall i :: 0 <= i < |rows| ==> Targeted(rows[i], SellerIds(st.sellers), start, end))
  {
    var rows := Rows(Results(st, lo, hi), calcDate, start, end);
    assert forall i :: 0 <= i < |rows| ==> rows[i].sellerId == st.sellers[i].id;
    assert RowSellerIds(rows) == SellerIds(st.sellers) by {
      forall x | x in SellerIds(st.sellers) ensures x in RowSellerIds(rows) {
        var i :| 0 <= i < |st.sellers| && st.sellers[i].id == x;
        assert rows[i].sellerId == x;
      }
    }
    forall i | 0 <= i < |rows| ensures Targeted(rows[i], SellerIds(st.sellers), start, end) {
      assert rows[i].sellerId == st.sellers[i].id;
    }
  }

  /** A successful recompute: the history is the old history without the rows
      of any seller for exactly this period, followed by one new row per seller
      in seller order; the response lists the same per-seller results. The
      request dates are written `Format(lo)` and `Format(hi)`: every date string
      the recompute accepts is the format of the date it parses to. */
  lemma RecomputeHistory(st: Store, lo: Date, hi: Date, today: Date)
    requires UniqueSellerIds(st.sellers)
    ensures var out := Recompute(st, Some(Format(lo)), Some(Format(hi)), today);
      var rs := Results(st, lo, hi);
      && out.body.Ok?
      && out.body.value.results == rs
      && out.store == st.(history := DropKeys(st.history, SellerIds(st.sellers), Format(lo), Format(hi))
                                     + Rows(rs, Format(today), Format(lo), Format(hi)))
  {
    ParseFormat(lo);
    ParseFormat(hi);
    RowsShape(st, lo, hi, Format(today), Format(lo), Format(hi));
    UpsertAllClosedForm(st.history, Rows(Results(st, lo, hi), Format(today), Format(lo), Format(hi)), Format(lo), Format(hi));
  }

  /** Every seller ends up with exactly one history row for the period. */
  lemma OneRowPerSeller(st: Store, lo: Date, hi: Date, today: Date)
    requires UniqueSellerIds(st.sellers)
    ensures var h := Recompute(st, Some(Format(lo)), Some(Format(hi)), today).store.history;
      forall i :: 0 <= i < |st.sellers| ==> CountKey(h, st.sellers[i].id, Format(lo), Format(hi)) == 1
  {
    var a, b := Format(lo), Format(hi);
    var rows := Rows(Results(st, lo, hi), Format(today), a, b);
    var kept := DropKeys(st.history, SellerIds(st.sellers), a, b);
    var h := Recompute(st, Some(a), Some(b), today).store.history;
    RecomputeHistory(st, lo, hi, today);
    assert h == kept + rows;
    RowsShape(st, lo, hi, Format(today), a, b);
    forall i | 0 <= i < |st.sellers|
      ensures CountKey(h, st.sellers[i].id, a, b) == 1
    {
      var sid := st.sellers[i].id;
      CountKeyAppend(kept, rows, sid, a, b);
      assert sid in SellerIds(st.sellers);
      CountKeyNone(kept, sid, a, b);
      CountKeyDistinct(rows, i, a, b);
    }
  }

  /** Rows of any other seller-and-period are left exactly as they were, in
      the same order. */
  lemma OtherRowsUntouched(st: Store, lo: Date, hi: Date, today: Date)
    requires UniqueSellerIds(st.sellers)
    ensures var h := Recompute(st, Some(Format(lo)), Some(Format(hi)), today).store.history;
      var ids := SellerIds(st.sellers);
      DropKeys(h, ids, Format(lo), Format(hi)) == DropKeys(st.history, ids, Format(lo), Format(hi))
  {
    var a, b, ids := Format(lo), Format(hi), SellerIds(st.sellers);
    var rows := Rows(Results(st, lo, hi), Format(today), a, b);
    RecomputeHistory(st, lo, hi, today);
    RowsShape(st, lo, hi, Format(today), a, b);
    DropAfterAppend(st.history, ids, rows, a, b);
  }

  /** Recomputing a period a second time gives exactly what one recompute on the
      original store gives at the second date: the first run leaves no trace. In
      particular on the same date the store is left as it is. */
  lemma RecomputeIdempotent(st: Store, lo: Date, hi: Date, today1: Date, today2: Date)
    requires UniqueSellerIds(st.sellers)
    ensures var st1 := Recompute(st, Some(Format(lo)), Some(Format(hi)), today1).store;
      Recompute(st1, Some(Format(lo)), Some(Format(hi)), today2)
        == Recompute(st, Some(Format(lo)), Some(Format(hi)), today2)
    ensures var st1 := Recompute(st, Some(Format(lo)), Some(Format(hi)), today1).store;
      Recompute(st1, Some(Format(lo)), Some(Format(hi)), today1).store == st1
  {
    var a, b := Format(lo), Format(hi);
    var st1 := Recompute(st, Some(a), Some(b), today1).store;
    RecomputeHistory(st, lo, hi, today1);
    assert st1.sellers == st.sellers && st1.sales == st.sales && st1.rules == st.rules;
    assert Results(st1, lo, hi) == Results(st, lo, hi);
    RecomputeSecondRun(st, lo, hi, today1, today2);
    RecomputeSecondRun(st, lo, hi, today1, today1);
  }

  lemma RecomputeSecondRun(st: Store, lo: Date, hi: Date, today1: Date, today2: Date)
    requires UniqueSellerIds(st.sellers)
    ensures var st1 := Recompute(st, Some(Format(lo)), Some(Format(hi)), today1).store;
      Recompute(st1, Some(Format(lo)), Some(Format(hi)), today2).store
        == Recompute(st, Some(Format(lo)), Some(Format(hi)), today2).store
  {
    var a, b, ids := Format(lo), Format(hi), SellerIds(st.sellers);
    var st1 := Recompute(st, Some(a), Some(b), today1).store;
    var rs := Results(st, lo, hi);
    RecomputeHistory(st, lo, hi, today1);
    assert Results(st1, lo, hi) == rs;
    RecomputeHistory(st1, lo, hi, today2);
    RecomputeHistory(st, lo, hi, today2);
    RowsShape(st, lo, hi, Format(today1), a, b);
    DropAfterAppend(st.history, ids, Rows(rs, Format(today1), a, b), a, b);
  }

  /** A period whose end comes before its start selects nothing, so every
      seller's total and commission are zero. */
  lemma EmptyPeriodPaysNothing(sales: seq<Sale>, rules: seq<Rule>, seller: Seller, lo: Date, hi: Date)
    requires !Le(lo, hi)
    ensures var r := SellerCommission(sales, rules, seller, lo, hi);
      r.salesInRange == [] && r.totalSales == 0.0 && r.commission == 0.0
  {
    var sel := SalesInPeriod(sales, seller.id, lo, hi);
    if |sel| > 0 {
      assert false;
    }
    assert PercentOf(0.0, 0.0) == 0.0;
  }

  /** A sum of whole-cent amounts is a whole number of cents. */
  lemma {:induction false} TotalAmountCents(sales: seq<Sale>)
    requires forall i :: 0 <= i < |sales| ==> IsCents(sales[i].amount)
    ensures IsCents(TotalAmount(sales))
  {
    if |sales| == 0 {
      assert (0.0 * 100.0).Floor == 0;
    } else {
      TotalAmountCents(sales[..|sales| - 1]);
      CentsAdd(TotalAmount(sales[..|sales| - 1]), sales[|sales| - 1].amount);
    }
  }

  /** With non-negative whole-cent amounts and rules between 0 and 100 percent,
      a seller's total is non-negative and the commission lies between nothing
      and the whole total. */
  lemma CommissionBounds(sales: seq<Sale>, rules: seq<Rule>, seller: Seller, lo: Date, hi: Date)
    requires forall i :: 0 <= i < |sales| ==> 0.0 <= sales[i].amount && IsCents(sales[i].amount)
    requires forall i :: 0 <= i < |rules| ==> 0.0 <= rules[i].percentage <= 100.0
    ensures var r := SellerCommission(sales, rules, seller, lo, hi);
      0.0 <= r.totalSales && 0.0 <= r.commission <= r.totalSales
  {
    var sel := SalesInPeriod(sales, seller.id, lo, hi);
    forall i | 0 <= i < |sel|
      ensures 0.0 <= sel[i].amount && IsCents(sel[i].amount)
    {
      assert sel[i] in sales;
      var j :| 0 <= j < |sales| && sales[j] == sel[i];
    }
    TotalAmountNonNegative(sel);
    TotalAmountCents(sel);
    var rule := FirstRule(rules, seller.id);
    if rule.Some? {
      var k :| 0 <= k < |rules| && rules[k] == rule.value;
      CommissionWithinTotal(TotalAmount(sel), rule.value.percentage);
    }
  }

  /** The selection distributes over concatenated collections. */
  lemma {:induction false} SalesInPeriodAppend(a: seq<Sale>, b: seq<Sale>, sellerId: int, lo: Date, hi: Date)
    ensures SalesInPeriod(a + b, sellerId, lo, hi) == SalesInPeriod(a, sellerId, lo, hi) + SalesInPeriod(b, sellerId, lo, hi)
    decreases |a|
  {
    if |a| == 0 {
      assert a + b == b;
    } else {
      var ab := a + b;
      assert ab[0] == a[0];
      assert ab[1..] == a[1..] + b;
      SalesInPeriodAppend(a[1..], b, sellerId, lo, hi);
      var ra, rb := SalesInPeriod(a[1..], sellerId, lo, hi), SalesInPeriod(b, sellerId, lo, hi);
      if InPeriod(a[0], sellerId, lo, hi) {
        assert [a[0]] + (ra + rb) == ([a[0]] + ra) + rb;
      }
    }
  }

  /** Recording a sale raises its seller's total for every period that contains
      its date by exactly its amount, and leaves every other total as it was. */
  lemma AddSaleRaisesTotal(st: Store, sellerId: int, date: Date, amount: real, other: int, lo: Date, hi: Date)
    ensures var st' := AddSale(st, sellerId, date, amount).store;
      TotalAmount(SalesInPeriod(st'.sales, other, lo, hi))
        == TotalAmount(SalesInPeriod(st.sales, other, lo, hi))
           + (if other == sellerId && Le(lo, date) && Le(date, hi) then amount else 0.0)
  {
    var sale := AddSale(st, sellerId, date, amount).sale;
    var before := SalesInPeriod(st.sales, other, lo, hi);
    SalesInPeriodAppend(st.sales, [sale], other, lo, hi);
    var one := SalesInPeriod([sale], other, lo, hi);
    assert one == (if InPeriod(sale, other, lo, hi) then [sale] else []) by {
      assert [sale][1..] == [];
    }
    TotalAmountAppend(before, one);
    if |one| > 0 {
      assert one[..0] == [];
    }
  }

  /** Example data: seller 1 sold 100 on the first day of January 2025, 200 on
      the 20th, 700 on the first of February and 50 on a sale without a date;
      seller 2 sold 500 in January. */
  const ExampleSales: seq<Sale> := [
    Sale(1, 1, Some(Ymd(2025, 1, 1)), 100.0), Sale(2, 2, Some(Ymd(2025, 1, 20)), 500.0),
    Sale(3, 1, Some(Ymd(2025, 1, 20)), 200.0), Sale(4, 1, Some(Ymd(2025, 2, 1)), 700.0),
    Sale(5, 1, None, 50.0)]

  const January2025: Date := Ymd(2025, 1, 1)
  const EndOfJanuary2025: Date := Ymd(2025, 1, 31)

  lemma ExampleSelection()
    ensures SalesInPeriod(ExampleSales, 1, January2025, EndOfJanuary2025) == [ExampleSales[0], ExampleSales[2]]
  {
    var sales, lo, hi := ExampleSales, January2025, EndOfJanuary2025;
    assert SalesInPeriod(sales[5..], 1, lo, hi) == [];
    assert SalesInPeriod(sales[4..], 1, lo, hi) == [] by { assert sales[4..][1..] == sales[5..]; }
    assert SalesInPeriod(sales[3..], 1, lo, hi) == [] by { assert sales[3..][1..] == sales[4..]; }
    assert SalesInPeriod(sales[2..], 1, lo, hi) == [sales[2]] by { assert sales[2..][1..] == sales[3..]; }
    assert SalesInPeriod(sales[1..], 1, lo, hi) == [sales[2]] by { assert sales[1..][1..] == sales[2..]; }
    assert InPeriod(sales[0], 1, lo, hi);
    assert [sales[0]] + [sales[2]] == [sales[0], sales[2]];
  }

  /** A seller with a 10% rule and sales of 100 and 200 inside the period, one
      of them on its first day, earns 30 on a total of 300; the sale after the
      period, the undated sale and the other seller's sale do not count. */
  lemma TenPercentExample()
    ensures var r := SellerCommission(ExampleSales, [Rule(1, 1, 10.0, "10% para Perico")],
                                      Seller(1, "Perico", "perico@empresa.com"), January2025, EndOfJanuary2025);
      r.totalSales == 300.0 && r.commission == 30.0 && |r.salesInRange| == 2
  {
    ExampleSelection();
    var sel := [ExampleSales[0], ExampleSales[2]];
    assert TotalAmount(sel) == 300.0 by {
      var one := sel[..1];
      assert one[..0] == [];
      assert TotalAmount(one) == TotalAmount(one[..0]) + 100.0;
      assert TotalAmount(sel) == TotalAmount(one) + 200.0;
    }
    assert IsCents(30.0) by { assert (30.0 * 100.0).Floor == 3000; }
  }
}

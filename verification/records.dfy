/** The four collections of the commission service and the records they hold.

    Each collection is a sequence in the database's natural order: `find` reads
    it, `delete_many` removes the matching records and `insert_one` appends. */
module Records {
  import opened Wrappers
  import opened Dates

  /** A document of `vendedores`. */
  datatype Seller = Seller(id: int, name: string, email: string)

  /** A document of `ventas`; `date` is absent when the document has no `fecha`. */
  datatype Sale = Sale(id: int, sellerId: int, date: Option<Date>, amount: real)

  /** A document of `reglas`: the percentage of a seller's sales paid as commission. */
  datatype Rule = Rule(id: int, sellerId: int, percentage: real, description: string)

  /** One itemised sale inside a history row (`ventas_detalle`). */
  datatype SaleDetail = SaleDetail(id: int, date: Date, amount: real)

  /** A document of `historial`: one commission computation for one seller over
      one period. The period bounds are kept as the strings the caller sent. */
  datatype HistoryRow = HistoryRow(
    sellerId: int,
    calcDate: string,
    periodStart: string,
    periodEnd: string,
    totalSales: real,
    percentage: real,
    commission: real,
    details: seq<SaleDetail>)

  datatype Store = Store(
    sellers: seq<Seller>,
    sales: seq<Sale>,
    rules: seq<Rule>,
    history: seq<HistoryRow>)

  /** The two error responses: 400 with a fixed message, or 500. */
  datatype ApiError = ValidationError(message: string) | InternalError

  /** What a write endpoint leaves behind: the store afterwards and the response. */
  datatype Reply<+T> = Reply(store: Store, body: Result<T, ApiError>)

  /** The name shown for a seller id that matches no seller. */
  const UnknownSeller := "Desconocido"

  /** A request field counts as given when it is present and non-empty. */
  predicate Given(field: Option<string>) {
    field.Some? && |field.value| > 0
  }

  predicate UniqueSellerIds(sellers: seq<Seller>) {
    forall i, j :: 0 <= i < j < |sellers| ==> sellers[i].id != sellers[j].id
  }

  predicate UniqueSaleIds(sales: seq<Sale>) {
    forall i, j :: 0 <= i < j < |sales| ==> sales[i].id != sales[j].id
  }

  predicate UniqueRuleIds(rules: seq<Rule>) {
    forall i, j :: 0 <= i < j < |rules| ==> rules[i].id != rules[j].id
  }

  /** No two rules name the same seller, so the first-rule and last-rule
      lookups cannot disagree. */
  predicate OneRulePerSeller(rules: seq<Rule>) {
    forall i, j :: 0 <= i < j < |rules| ==> rules[i].sellerId != rules[j].sellerId
  }

  /** The database's unique `_id` index on the three static collections. */
  predicate WellFormed(st: Store) {
    UniqueSellerIds(st.sellers) && UniqueSaleIds(st.sales) && UniqueRuleIds(st.rules)
  }

  /** Sum of `monto` over a sequence of sales. */
  function TotalAmount(sales: seq<Sale>): real
  {
    if |sales| == 0 then 0.0 else TotalAmount(sales[..|sales| - 1]) + sales[|sales| - 1].amount
  }

  lemma {:induction false} TotalAmountAppend(a: seq<Sale>, b: seq<Sale>)
    ensures TotalAmount(a + b) == TotalAmount(a) + TotalAmount(b)
    decreases |b|
  {
    if |b| > 0 {
      assert (a + b)[..|a + b| - 1] == a + b[..|b| - 1];
      TotalAmountAppend(a, b[..|b| - 1]);
    } else {
      assert a + b == a;
    }
  }

  lemma {:induction false} TotalAmountNonNegative(sales: seq<Sale>)
    requires forall i :: 0 <= i < |sales| ==> sales[i].amount >= 0.0
    ensures TotalAmount(sales) >= 0.0
  {
    if |sales| > 0 {
      TotalAmountNonNegative(sales[..|sales| - 1]);
    }
  }
}

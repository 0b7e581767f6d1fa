/** Recording a sale (`POST /api/agregar-venta`): the new sale's id is one more
    than the largest id in the collection, or 1 for an empty collection. */
module SaleEntry {
  import opened Wrappers
  import opened Dates
  import opened Records

  /** Position of a sale with the largest id (`find_one(sort=[("_id", -1)])`). */
  function MaxIdIndex(sales: seq<Sale>): (k: nat)
    requires |sales| > 0
    ensures k < |sales|
    ensures forall i :: 0 <= i < |sales| ==> sales[i].id <= sales[k].id
  {
    if |sales| == 1 then 0
    else
      var k := MaxIdIndex(sales[..|sales| - 1]);
      if sales[|sales| - 1].id > sales[k].id then |sales| - 1 else k
  }

  function NextSaleId(sales: seq<Sale>): (n: int)
    ensures |sales| == 0 ==> n == 1
    ensures |sales| > 0 ==> exists i :: 0 <= i < |sales| && sales[i].id == n - 1
    ensures forall i :: 0 <= i < |sales| ==> sales[i].id < n
  {
    if |sales| == 0 then 1
    else
      var k := MaxIdIndex(sales);
      assert sales[k].id == (sales[k].id + 1) - 1;
      sales[k].id + 1
  }

  datatype AddedSale = AddedSale(store: Store, sale: Sale)

  /** `agregar_venta`, for a request whose fields are already converted. */
  function AddSale(st: Store, sellerId: int, date: Date, amount: real): (r: AddedSale)
    ensures r.sale.sellerId == sellerId && r.sale.date == Some(date) && r.sale.amount == amount
    ensures |st.sales| == 0 ==> r.sale.id == 1
    ensures |st.sales| > 0 ==> exists i :: 0 <= i < |st.sales| && r.sale.id == st.sales[i].id + 1
    ensures forall i :: 0 <= i < |st.sales| ==> st.sales[i].id < r.sale.id
    ensures r.store == st.(sales := st.sales + [r.sale])
    ensures WellFormed(st) ==> WellFormed(r.store)
  {
    var sale := Sale(NextSaleId(st.sales), sellerId, Some(date), amount);
    var st' := st.(sales := st.sales + [sale]);
    assert forall i :: 0 <= i < |st.sales| ==> st'.sales[i] == st.sales[i];
    AddedSale(st', sale)
  }
}

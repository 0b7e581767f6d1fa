/** The start-up seeder (`seed_database`): each of the sellers, sales and rules
    collections receives its fixture when, and only when, it is empty. */
module Seeder {
  import opened Wrappers
  import opened Dates
  import opened Records
  import opened Commissions

  function SeedSellers(): (r: seq<Seller>)
    ensures |r| == 4 && UniqueSellerIds(r)
    ensures forall i :: 0 <= i < 4 ==> r[i].id == i + 1
  {
    [ Seller(1, "Perico", "perico@empresa.com"),
      Seller(2, "Sola", "sola@empresa.com"),
      Seller(3, "Carlos", "carlos@empresa.com"),
      Seller(4, "Mar\U{ED}a", "maria@empresa.com") ]
  }

  /** The commission percentage seeded for sellers 1 to 4. */
  function SeedPercentage(sellerId: int): real
    requires 1 <= sellerId <= 4
  {
    [10.0, 8.0, 12.0, 9.0][sellerId - 1]
  }

  function SeedRules(): (r: seq<Rule>)
    ensures |r| == 4 && UniqueRuleIds(r)
    ensures OneRulePerSeller(r)
    ensures forall i :: 0 <= i < |r| ==> 1 <= r[i].sellerId <= 4
    ensures forall v :: 1 <= v <= 4 ==>
              FirstRule(r, v).Some? && FirstRule(r, v).value.percentage == SeedPercentage(v)
  {
    var r := [ Rule(1, 1, 10.0, "10% para Perico"),
               Rule(2, 2, 8.0, "8% para Sola"),
               Rule(3, 3, 12.0, "12% para Carlos"),
               Rule(4, 4, 9.0, "9% para Mar\U{ED}a") ];
    assert forall i :: 0 <= i < 4 ==> r[i].sellerId == i + 1;
    assert forall v :: 1 <= v <= 4 ==> FirstRule(r, v) == Some(r[v - 1]) by {
      forall v | 1 <= v <= 4
        ensures FirstRule(r, v) == Some(r[v - 1])
      {
        OnlyRuleIsFirst(r, v - 1);
        assert r[v - 1].sellerId == v;
      }
    }
    r
  }

  /** With one rule per seller, a seller's rule is the one found. */
  lemma OnlyRuleIsFirst(rules: seq<Rule>, k: int)
    requires 0 <= k < |rules|
    requires OneRulePerSeller(rules)
    ensures FirstRule(rules, rules[k].sellerId) == Some(rules[k])
  {
    var i := FirstRuleIndex(rules, rules[k].sellerId);
    assert i <= k;
    assert rules[i].sellerId == rules[k].sellerId;
  }

  /** The four 2024 sales, one per seller. */
  const Sales2024: seq<Sale> := [
    Sale(1, 1, Some(Ymd(2024, 1, 10)), 100.0),
    Sale(2, 2, Some(Ymd(2024, 2, 15)), 200.0),
    Sale(3, 3, Some(Ymd(2024, 3, 20)), 300.0),
    Sale(4, 4, Some(Ymd(2024, 4, 25)), 400.0)]

  /** The 2025 sale of seller `sellerId` in `month`: the 15th, for
      `100 * sellerId + 10 * month`. */
  function Sale2025(id: int, month: int, sellerId: int): Sale
    requires 1 <= month <= 12
  {
    Sale(id, sellerId, Some(Ymd(2025, month, 15)), (100 * sellerId + 10 * month) as real)
  }

  /** Where the sale of `sellerId` in `month` of 2025 sits: after the 2024
      sales, month by month, sellers in order. */
  function Slot(month: int, sellerId: int): int {
    4 * month + sellerId - 1
  }

  function SeedSales(): (r: seq<Sale>)
    ensures |r| == 36 && UniqueSaleIds(r)
    ensures forall k :: 0 <= k < 36 ==> r[k].id == k + 1 && r[k].date.Some?
    ensures forall k :: 0 <= k < 36 ==> (r[k].date.value.year == 2024 <==> k < 4)
    ensures forall k :: 0 <= k < 36 ==> (r[k].date.value.year == 2025 <==> 4 <= k)
    ensures forall m, v :: 1 <= m <= 8 && 1 <= v <= 4 ==> r[Slot(m, v)] == Sale2025(Slot(m, v) + 1, m, v)
  {
    var r := Sales2024 + seq(32, j requires 0 <= j < 32 => Sale2025(j + 5, j / 4 + 1, j % 4 + 1));
    assert forall m, v :: 1 <= m <= 8 && 1 <= v <= 4 ==> (Slot(m, v) - 4) / 4 + 1 == m && (Slot(m, v) - 4) % 4 + 1 == v;
    r
  }

  /** The seeder's nested loop over months 1..8 and sellers 1..4, as written;
      it builds exactly `SeedSales()`. */
  method BuildSeedSales() returns (sales: seq<Sale>)
    ensures sales == SeedSales()
    ensures |sales| == 36
  {
    var idCounter := 1;
    sales := [
      Sale(idCounter, 1, Some(Ymd(2024, 1, 10)), 100.0),
      Sale(idCounter + 1, 2, Some(Ymd(2024, 2, 15)), 200.0),
      Sale(idCounter + 2, 3, Some(Ymd(2024, 3, 20)), 300.0),
      Sale(idCounter + 3, 4, Some(Ymd(2024, 4, 25)), 400.0)];
    idCounter := idCounter + 4;
    var all := SeedSales();
    assert sales == all[..4];
    var month := 1;
    while month < 9
      invariant 1 <= month <= 9
      invariant idCounter == 4 * month + 1
      invariant sales == all[..4 * month]
    {
      var sellerIds := [1, 2, 3, 4];
      var j := 0;
      while j < |sellerIds|
        invariant 0 <= j <= 4
        invariant idCounter == 4 * month + 1 + j
        invariant sales == all[..4 * month + j]
      {
        var sellerId := sellerIds[j];
        var amount := 100 * sellerId + month * 10;
        assert all[Slot(month, sellerId)] == Sale2025(idCounter, month, sellerId);
        sales := sales + [Sale(idCounter, sellerId, Some(Ymd(2025, month, 15)), amount as real)];
        assert all[..4 * month + j + 1] == all[..4 * month + j] + [all[4 * month + j]];
        idCounter := idCounter + 1;
        j := j + 1;
      }
      month := month + 1;
    }
    assert all[..36] == all;
  }

  /** `seed_database`; the history collection is not seeded. */
  function SeedDatabase(st: Store): (r: Store)
    ensures r.sellers == if |st.sellers| == 0 then SeedSellers() else st.sellers
    ensures r.sales == if |st.sales| == 0 then SeedSales() else st.sales
    ensures r.rules == if |st.rules| == 0 then SeedRules() else st.rules
    ensures r.history == st.history
    ensures |r.sellers| > 0 && |r.sales| > 0 && |r.rules| > 0
    ensures WellFormed(st) ==> WellFormed(r)
  {
    Store(
      if |st.sellers| == 0 then SeedSellers() else st.sellers,
      if |st.sales| == 0 then SeedSales() else st.sales,
      if |st.rules| == 0 then SeedRules() else st.rules,
      st.history)
  }

  /** Seeding again after a seed changes nothing. */
  lemma SeedIdempotent(st: Store)
    ensures SeedDatabase(SeedDatabase(st)) == SeedDatabase(st)
  {
  }
}

/**
 * The dashboard statistics, as functions of the stored customers: total
 * revenue, and per-product sales counts and revenues, each tallied in the
 * order the nested loops first meet a product id, then sorted.
 */
module Analytics {
  import opened Wrappers
  import opened Catalog
  import Lists

  /** Every purchased-product entry, customer by customer, in the order of the nested loops. */
  function Purchases(cs: seq<Customer>): seq<Product> {
    if cs == [] then [] else Purchases(cs[..|cs| - 1]) + cs[|cs| - 1].purchasedProducts
  }

  /** The outer loop's step: one more customer appends its purchases. */
  lemma PurchasesStep(cs: seq<Customer>, i: nat)
    requires i < |cs|
    ensures Purchases(cs[..i + 1]) == Purchases(cs[..i]) + cs[i].purchasedProducts
  {
    assert cs[..i + 1][..i] == cs[..i];
  }

  /** `getTotalRevenue`: the outer `reduce` over the customers of what each one spent. */
  function TotalRevenue(cs: seq<Customer>): real {
    Lists.SumOf(cs, Spent)
  }

  /** The total revenue is the sum of the prices of all purchased-product entries. */
  lemma {:induction false} TotalRevenueSumsPurchases(cs: seq<Customer>)
    ensures TotalRevenue(cs) == PriceSum(Purchases(cs))
  {
    if cs != [] {
      var init := cs[..|cs| - 1];
      TotalRevenueSumsPurchases(init);
      Lists.SumOfAppend(Purchases(init), cs[|cs| - 1].purchasedProducts, Price);
    }
  }

  /** The total revenue does not depend on the order of the customers. */
  lemma TotalRevenueOrderIndependent(a: seq<Customer>, b: seq<Customer>)
    requires multiset(a) == multiset(b)
    ensures TotalRevenue(a) == TotalRevenue(b)
  {
    Lists.SumOfPermutation(a, b, Spent);
  }

  /** The number of entries with product id `id`. */
  function Occurrences(ps: seq<Product>, id: string): nat {
    if ps == [] then 0
    else Occurrences(ps[..|ps| - 1], id) + (if ps[|ps| - 1].id == id then 1 else 0)
  }

  /** The sum of the prices of the entries with product id `id`, each at its own price. */
  function RevenueOf(ps: seq<Product>, id: string): real {
    if ps == [] then 0.0
    else RevenueOf(ps[..|ps| - 1], id) + (if ps[|ps| - 1].id == id then ps[|ps| - 1].price else 0.0)
  }

  /** The index of the first entry with product id `id`. */
  function FirstWithId(ps: seq<Product>, id: string): (r: Option<nat>)
    ensures r.None? <==> forall k :: 0 <= k < |ps| ==> ps[k].id != id
    ensures r.Some? ==> r.value < |ps| && ps[r.value].id == id && forall k :: 0 <= k < r.value ==> ps[k].id != id
  {
    if ps == [] then None
    else
      var r := FirstWithId(ps[..|ps| - 1], id);
      if r.Some? then r else if ps[|ps| - 1].id == id then Some(|ps| - 1) else None
  }

  /** The snapshot a tally keeps for `id`: the first entry with that id. */
  function FirstSnapshot(ps: seq<Product>, id: string): Option<Product> {
    match FirstWithId(ps, id)
    case None => None
    case Some(k) => Some(ps[k])
  }

  /** The distinct product ids among the entries. */
  function IdSet(ps: seq<Product>): set<string> {
    set k | 0 <= k < |ps| :: ps[k].id
  }

  lemma IdSetSnoc(ps: seq<Product>, p: Product)
    ensures IdSet(ps + [p]) == IdSet(ps) + {p.id}
  {
    var ps' := ps + [p];
    forall id | id in IdSet(ps) ensures id in IdSet(ps') {
      var k :| 0 <= k < |ps| && ps[k].id == id;
      assert ps'[k] == ps[k];
    }
    assert ps'[|ps|].id == p.id;
  }

  lemma {:induction false} OccurrencesOfAbsentId(ps: seq<Product>, id: string)
    requires id !in IdSet(ps)
    ensures Occurrences(ps, id) == 0 && RevenueOf(ps, id) == 0.0
  {
    if ps != [] {
      var init := ps[..|ps| - 1];
      IdSetSnoc(init, ps[|ps| - 1]);
      assert ps == init + [ps[|ps| - 1]];
      OccurrencesOfAbsentId(init, id);
    }
  }

  // ---------------------------------------------------------------- sales counts

  /** An entry of `getMostSoldProducts`: the first snapshot of a product and its number of sales. */
  datatype SalesEntry = SalesEntry(product: Product, salesCount: nat)

  function SalesKey(e: SalesEntry): real {
    e.salesCount as real
  }

  function SalesId(e: SalesEntry): string {
    e.product.id
  }

  /** `productSales[id]`: the position of the entry recorded for `id`. */
  function SalesIndex(t: seq<SalesEntry>, id: string): (r: Option<nat>)
    ensures r.None? <==> forall i :: 0 <= i < |t| ==> t[i].product.id != id
    ensures r.Some? ==> r.value < |t| && t[r.value].product.id == id
  {
    Lists.FindFirst(t, (e: SalesEntry) => e.product.id == id)
  }

  /** One step of the inner loop: count one more sale, or record the product with one sale. */
  function CountSale(t: seq<SalesEntry>, p: Product): seq<SalesEntry> {
    match SalesIndex(t, p.id)
    case Some(i) => t[i := t[i].(salesCount := t[i].salesCount + 1)]
    case None => t + [SalesEntry(p, 1)]
  }

  /** The `productSales` record after the loops over `ps`, its values in insertion order. */
  function SalesTally(ps: seq<Product>): seq<SalesEntry> {
    if ps == [] then [] else CountSale(SalesTally(ps[..|ps| - 1]), ps[|ps| - 1])
  }

  /** The inner loop's step: one more entry is counted. */
  lemma SalesTallyStep(ps: seq<Product>, more: seq<Product>, j: nat)
    requires j < |more|
    ensures SalesTally(ps + more[..j + 1]) == CountSale(SalesTally(ps + more[..j]), more[j])
  {
    assert (ps + more[..j + 1])[..|ps + more[..j + 1]| - 1] == ps + more[..j];
  }

  predicate DistinctSales(t: seq<SalesEntry>) {
    forall i, j :: 0 <= i < j < |t| ==> t[i].product.id != t[j].product.id
  }

  function SalesIds(t: seq<SalesEntry>): set<string> {
    set i | 0 <= i < |t| :: t[i].product.id
  }

  /** `t` holds one entry per product id of `ps`, with its number of sales and its first snapshot. */
  ghost predicate TalliesSales(ps: seq<Product>, t: seq<SalesEntry>) {
    && DistinctSales(t)
    && SalesIds(t) == IdSet(ps)
    && forall i :: 0 <= i < |t| ==>
         t[i].salesCount == Occurrences(ps, t[i].product.id) &&
         FirstSnapshot(ps, t[i].product.id) == Some(t[i].product)
  }

  lemma SalesIdsSnoc(t: seq<SalesEntry>, e: SalesEntry)
    ensures SalesIds(t + [e]) == SalesIds(t) + {e.product.id}
  {
    var t' := t + [e];
    forall id | id in SalesIds(t) ensures id in SalesIds(t') {
      var j :| 0 <= j < |t| && t[j].product.id == id;
      assert t'[j].product.id == id;
    }
    assert t'[|t|].product.id == e.product.id;
  }

  lemma CountSaleToExisting(ps: seq<Product>, p: Product, t: seq<SalesEntry>, i: nat)
    requires TalliesSales(ps, t)
    requires i < |t| && t[i].product.id == p.id
    ensures TalliesSales(ps + [p], t[i := t[i].(salesCount := t[i].salesCount + 1)])
  {
    var ps' := ps + [p];
    assert ps'[..|ps'| - 1] == ps;
    IdSetSnoc(ps, p);
    var t' := t[i := t[i].(salesCount := t[i].salesCount + 1)];
    assert SalesIds(t') == SalesIds(t) by {
      forall id | id in SalesIds(t) ensures id in SalesIds(t') {
        var j :| 0 <= j < |t| && t[j].product.id == id;
        assert t'[j].product.id == id;
      }
    }
  }

  lemma CountSaleToNew(ps: seq<Product>, p: Product, t: seq<SalesEntry>)
    requires TalliesSales(ps, t)
    requires forall i :: 0 <= i < |t| ==> t[i].product.id != p.id
    ensures TalliesSales(ps + [p], t + [SalesEntry(p, 1)])
  {
    var ps' := ps + [p];
    assert ps'[..|ps'| - 1] == ps;
    IdSetSnoc(ps, p);
    SalesIdsSnoc(t, SalesEntry(p, 1));
    assert p.id !in IdSet(ps);
    OccurrencesOfAbsentId(ps, p.id);
  }

  lemma CountSaleStep(ps: seq<Product>, p: Product, t: seq<SalesEntry>)
    requires TalliesSales(ps, t)
    ensures TalliesSales(ps + [p], CountSale(t, p))
  {
    match SalesIndex(t, p.id)
    case Some(i) => CountSaleToExisting(ps, p, t, i);
    case None => CountSaleToNew(ps, p, t);
  }

  /** The tally after the loops counts every product id's sales and keeps its first snapshot. */
  lemma {:induction false} SalesTallyCorrect(ps: seq<Product>)
    ensures TalliesSales(ps, SalesTally(ps))
  {
    if ps != [] {
      var init := ps[..|ps| - 1];
      SalesTallyCorrect(init);
      CountSaleStep(init, ps[|ps| - 1], SalesTally(init));
      assert init + [ps[|ps| - 1]] == ps;
    }
  }

  /** A list with pairwise different ids has as many entries as it has ids. */
  lemma {:induction false} DistinctSalesSize(t: seq<SalesEntry>)
    requires DistinctSales(t)
    ensures |SalesIds(t)| == |t|
  {
    if t != [] {
      var init := t[..|t| - 1];
      DistinctSalesSize(init);
      assert t == init + [t[|t| - 1]];
      SalesIdsSnoc(init, t[|t| - 1]);
      assert t[|t| - 1].product.id !in SalesIds(init);
    }
  }

  /** `getMostSoldProducts(limit)` on the stored customers. */
  function MostSoldProducts(cs: seq<Customer>, limit: int): seq<SalesEntry> {
    Lists.Slice(Lists.SortDesc(SalesTally(Purchases(cs)), SalesKey), limit)
  }

  lemma MostSoldInTally(cs: seq<Customer>, limit: int)
    ensures var t := SalesTally(Purchases(cs));
      var s := Lists.SortDesc(t, SalesKey);
      && Lists.SortedDesc(s, SalesKey) && |s| == |t| && multiset(s) == multiset(t)
      && MostSoldProducts(cs, limit) == s[..Lists.SliceEnd(|s|, limit)]
      && forall x :: x in s ==> x in t
  {
    var t := SalesTally(Purchases(cs));
    Lists.SortDescCorrect(t, SalesKey);
    var s := Lists.SortDesc(t, SalesKey);
    forall x | x in s ensures x in t {
      assert x in multiset(s);
    }
  }

  /** Each entry's `salesCount` is the number of purchases of that product id over all customers. */
  lemma MostSoldCounts(cs: seq<Customer>, limit: int)
    ensures var r := MostSoldProducts(cs, limit);
      forall i :: 0 <= i < |r| ==>
        r[i].salesCount == Occurrences(Purchases(cs), r[i].product.id) &&
        FirstSnapshot(Purchases(cs), r[i].product.id) == Some(r[i].product)
  {
    MostSoldInTally(cs, limit);
    SalesTallyCorrect(Purchases(cs));
    var r := MostSoldProducts(cs, limit);
    var t := SalesTally(Purchases(cs));
    var s := Lists.SortDesc(t, SalesKey);
    forall i | 0 <= i < |r|
      ensures r[i].salesCount == Occurrences(Purchases(cs), r[i].product.id)
      ensures FirstSnapshot(Purchases(cs), r[i].product.id) == Some(r[i].product)
    {
      assert r[i] == s[i] && s[i] in s;
      var j :| 0 <= j < |t| && t[j] == r[i];
    }
  }

  /** The result is ordered by non-increasing `salesCount`, and names each product at most once. */
  lemma MostSoldSortedDistinct(cs: seq<Customer>, limit: int)
    ensures var r := MostSoldProducts(cs, limit);
      && (forall i, j :: 0 <= i < j < |r| ==> r[i].salesCount >= r[j].salesCount)
      && DistinctSales(r)
  {
    MostSoldInTally(cs, limit);
    SalesTallyCorrect(Purchases(cs));
    var t := SalesTally(Purchases(cs));
    var s := Lists.SortDesc(t, SalesKey);
    Lists.PermutationKeepsKeysDistinct(t, s, (e: SalesEntry) => e.product.id);
    var r := MostSoldProducts(cs, limit);
    forall i, j | 0 <= i < j < |r| ensures r[i].salesCount >= r[j].salesCount {
      assert SalesKey(s[i]) >= SalesKey(s[j]);
    }
    forall i, j | 0 <= i < j < |r| ensures r[i].product.id != r[j].product.id {
      assert r[i] == s[i] && r[j] == s[j];
    }
  }

  /**
   * The result has `min(limit, number of distinct product ids)` entries for a
   * non-negative limit (a negative one drops that many from the end).
   */
  lemma MostSoldLength(cs: seq<Customer>, limit: int)
    ensures |MostSoldProducts(cs, limit)| == Lists.SliceEnd(|IdSet(Purchases(cs))|, limit)
  {
    MostSoldInTally(cs, limit);
    SalesTallyCorrect(Purchases(cs));
    DistinctSalesSize(SalesTally(Purchases(cs)));
  }

  /** The position of the entry for a purchased product id in the sorted tally. */
  lemma SortedEntryFor(cs: seq<Customer>, id: string) returns (b: nat)
    requires id in IdSet(Purchases(cs))
    ensures var s := Lists.SortDesc(SalesTally(Purchases(cs)), SalesKey);
      b < |s| && s[b].product.id == id && s[b].salesCount == Occurrences(Purchases(cs), id)
  {
    SalesTallyCorrect(Purchases(cs));
    var t := SalesTally(Purchases(cs));
    Lists.SortDescCorrect(t, SalesKey);
    var s := Lists.SortDesc(t, SalesKey);
    assert id in SalesIds(t);
    var a :| 0 <= a < |t| && t[a].product.id == id;
    assert t[a] in multiset(s);
    b :| 0 <= b < |s| && s[b] == t[a];
  }

  /** A product id left out of the result sold no more often than any product in it. */
  lemma MostSoldIsTop(cs: seq<Customer>, limit: int, id: string)
    requires id in IdSet(Purchases(cs))
    requires forall i :: 0 <= i < |MostSoldProducts(cs, limit)| ==> MostSoldProducts(cs, limit)[i].product.id != id
    ensures forall i :: 0 <= i < |MostSoldProducts(cs, limit)| ==>
      MostSoldProducts(cs, limit)[i].salesCount >= Occurrences(Purchases(cs), id)
  {
    var b := SortedEntryFor(cs, id);
    var s := Lists.SortDesc(SalesTally(Purchases(cs)), SalesKey);
    var r := MostSoldProducts(cs, limit);
    assert forall i :: 0 <= i < |r| ==> SalesKey(r[i]) >= SalesKey(s[b]) by {
      Lists.SortDescCorrect(SalesTally(Purchases(cs)), SalesKey);
      assert r == Lists.Slice(s, limit);
      assert forall i :: 0 <= i < |r| ==> SalesId(r[i]) != SalesId(s[b]);
      Lists.SliceDominates(s, SalesKey, SalesId, limit, b);
    }
  }

  // ---------------------------------------------------------------- revenue

  /** An entry of `getRevenueByProduct`: the first snapshot of a product and what its sales brought in. */
  datatype RevenueEntry = RevenueEntry(product: Product, revenue: real)

  function RevenueKey(e: RevenueEntry): real {
    e.revenue
  }

  /** `productRevenue[id]`: the position of the entry recorded for `id`. */
  function RevenueIndex(t: seq<RevenueEntry>, id: string): (r: Option<nat>)
    ensures r.None? <==> forall i :: 0 <= i < |t| ==> t[i].product.id != id
    ensures r.Some? ==> r.value < |t| && t[r.value].product.id == id
  {
    Lists.FindFirst(t, (e: RevenueEntry) => e.product.id == id)
  }

  /** One step of the inner loop: add the entry's own price to its product's revenue. */
  function AddRevenue(t: seq<RevenueEntry>, p: Product): seq<RevenueEntry> {
    match RevenueIndex(t, p.id)
    case Some(i) => t[i := t[i].(revenue := t[i].revenue + p.price)]
    case None => t + [RevenueEntry(p, p.price)]
  }

  /** The `productRevenue` record after the loops over `ps`, its values in insertion order. */
  function RevenueTally(ps: seq<Product>): seq<RevenueEntry> {
    if ps == [] then [] else AddRevenue(RevenueTally(ps[..|ps| - 1]), ps[|ps| - 1])
  }

  /** The inner loop's step: one more entry's price is added. */
  lemma RevenueTallyStep(ps: seq<Product>, more: seq<Product>, j: nat)
    requires j < |more|
    ensures RevenueTally(ps + more[..j + 1]) == AddRevenue(RevenueTally(ps + more[..j]), more[j])
  {
    assert (ps + more[..j + 1])[..|ps + more[..j + 1]| - 1] == ps + more[..j];
  }

  predicate DistinctRevenue(t: seq<RevenueEntry>) {
    forall i, j :: 0 <= i < j < |t| ==> t[i].product.id != t[j].product.id
  }

  function RevenueIds(t: seq<RevenueEntry>): set<string> {
    set i | 0 <= i < |t| :: t[i].product.id
  }

  /** `t` holds one entry per product id of `ps`, with its revenue and its first snapshot. */
  ghost predicate TalliesRevenue(ps: seq<Product>, t: seq<RevenueEntry>) {
    && DistinctRevenue(t)
    && RevenueIds(t) == IdSet(ps)
    && RevenueEntriesMatch(ps, t)
  }

  ghost predicate RevenueEntriesMatch(ps: seq<Product>, t: seq<RevenueEntry>) {
    forall i :: 0 <= i < |t| ==>
      t[i].revenue == RevenueOf(ps, t[i].product.id) &&
      FirstSnapshot(ps, t[i].product.id) == Some(t[i].product)
  }

  /** Raising one entry by `d` raises the sum by `d`. */
  lemma {:induction false} SumOfRaise(t: seq<RevenueEntry>, i: nat, d: real)
    requires i < |t|
    ensures Lists.SumOf(t[i := t[i].(revenue := t[i].revenue + d)], RevenueKey) == Lists.SumOf(t, RevenueKey) + d
  {
    var t' := t[i := t[i].(revenue := t[i].revenue + d)];
    if i < |t| - 1 {
      assert t'[..|t'| - 1] == t[..|t| - 1][i := t[i].(revenue := t[i].revenue + d)];
      SumOfRaise(t[..|t| - 1], i, d);
    } else {
      assert t'[..|t'| - 1] == t[..|t| - 1];
    }
  }

  lemma AddRevenueToExisting(ps: seq<Product>, p: Product, t: seq<RevenueEntry>, i: nat)
    requires TalliesRevenue(ps, t)
    requires i < |t| && t[i].product.id == p.id
    ensures TalliesRevenue(ps + [p], t[i := t[i].(revenue := t[i].revenue + p.price)])
  {
    var ps' := ps + [p];
    assert ps'[..|ps'| - 1] == ps;
    IdSetSnoc(ps, p);
    var t' := t[i := t[i].(revenue := t[i].revenue + p.price)];
    assert RevenueEntriesMatch(ps', t') by {
      forall j | 0 <= j < |t'|
        ensures t'[j].revenue == RevenueOf(ps', t'[j].product.id)
        ensures FirstSnapshot(ps', t'[j].product.id) == Some(t'[j].product)
      {
        var id := t[j].product.id;
        assert FirstSnapshot(ps, id) == Some(t[j].product);
        assert FirstWithId(ps, id).Some?;
        assert FirstWithId(ps', id) == FirstWithId(ps, id);
        assert ps'[FirstWithId(ps, id).value] == ps[FirstWithId(ps, id).value];
      }
    }
    assert DistinctRevenue(t');
    assert RevenueIds(t') == RevenueIds(t) by {
      forall id | id in RevenueIds(t) ensures id in RevenueIds(t') {
        var j :| 0 <= j < |t| && t[j].product.id == id;
        assert t'[j].product.id == id;
      }
    }
  }

  lemma AddRevenueToNew(ps: seq<Product>, p: Product, t: seq<RevenueEntry>)
    requires TalliesRevenue(ps, t)
    requires forall i :: 0 <= i < |t| ==> t[i].product.id != p.id
    ensures TalliesRevenue(ps + [p], t + [RevenueEntry(p, p.price)])
  {
    var ps' := ps + [p];
    assert ps'[..|ps'| - 1] == ps;
    IdSetSnoc(ps, p);
    var t' := t + [RevenueEntry(p, p.price)];
    assert p.id !in IdSet(ps);
    OccurrencesOfAbsentId(ps, p.id);
    RevenueIdsSnoc(t, RevenueEntry(p, p.price));
  }

  lemma AddRevenueStep(ps: seq<Product>, p: Product, t: seq<RevenueEntry>)
    requires TalliesRevenue(ps, t)
    ensures TalliesRevenue(ps + [p], AddRevenue(t, p))
  {
    match RevenueIndex(t, p.id)
    case Some(i) => AddRevenueToExisting(ps, p, t, i);
    case None => AddRevenueToNew(ps, p, t);
  }

  /** The tally after the loops sums every product id's prices and keeps its first snapshot. */
  lemma {:induction false} RevenueTallyCorrect(ps: seq<Product>)
    ensures TalliesRevenue(ps, RevenueTally(ps))
  {
    if ps != [] {
      var init := ps[..|ps| - 1];
      RevenueTallyCorrect(init);
      AddRevenueStep(init, ps[|ps| - 1], RevenueTally(init));
      assert init + [ps[|ps| - 1]] == ps;
    }
  }

  /** One step of the inner loop raises the sum of the tallied revenues by the entry's price. */
  lemma AddRevenueSum(t: seq<RevenueEntry>, p: Product)
    ensures Lists.SumOf(AddRevenue(t, p), RevenueKey) == Lists.SumOf(t, RevenueKey) + p.price
  {
    match RevenueIndex(t, p.id)
    case Some(i) =>
      SumOfRaise(t, i, p.price);
    case None =>
      var t' := t + [RevenueEntry(p, p.price)];
      assert t'[..|t'| - 1] == t;
  }

  /** The tallied revenues add up to the sum of all prices. */
  lemma {:induction false} RevenueTallySum(ps: seq<Product>)
    ensures Lists.SumOf(RevenueTally(ps), RevenueKey) == PriceSum(ps)
  {
    if ps != [] {
      var init := ps[..|ps| - 1];
      var p := ps[|ps| - 1];
      RevenueTallySum(init);
      AddRevenueSum(RevenueTally(init), p);
      assert ps == init + [p];
      Lists.SumOfAppend(init, [p], Price);
      assert Lists.SumOf([p], Price) == p.price by { assert [p][..0] == []; }
    }
  }

  lemma RevenueIdsSnoc(t: seq<RevenueEntry>, e: RevenueEntry)
    ensures RevenueIds(t + [e]) == RevenueIds(t) + {e.product.id}
  {
    var t' := t + [e];
    forall id | id in RevenueIds(t) ensures id in RevenueIds(t') {
      var j :| 0 <= j < |t| && t[j].product.id == id;
      assert t'[j].product.id == id;
    }
    assert t'[|t|].product.id == e.product.id;
  }

  lemma {:induction false} DistinctRevenueSize(t: seq<RevenueEntry>)
    requires DistinctRevenue(t)
    ensures |RevenueIds(t)| == |t|
  {
    if t != [] {
      var init := t[..|t| - 1];
      DistinctRevenueSize(init);
      assert t == init + [t[|t| - 1]];
      RevenueIdsSnoc(init, t[|t| - 1]);
      assert t[|t| - 1].product.id !in RevenueIds(init);
    }
  }

  /** `getRevenueByProduct()` on the stored customers (sorted, not truncated). */
  function RevenueByProduct(cs: seq<Customer>): seq<RevenueEntry> {
    Lists.SortDesc(RevenueTally(Purchases(cs)), RevenueKey)
  }

  /**
   * One entry per distinct product id, each with the sum of the prices of its
   * purchases and its first snapshot, in non-increasing revenue order; the
   * revenues add up to the total revenue.
   */
  lemma RevenueByProductCorrect(cs: seq<Customer>)
    ensures var r := RevenueByProduct(cs);
      && |r| == |IdSet(Purchases(cs))|
      && DistinctRevenue(r)
      && (forall i, j :: 0 <= i < j < |r| ==> r[i].revenue >= r[j].revenue)
      && (forall i :: 0 <= i < |r| ==>
            r[i].revenue == RevenueOf(Purchases(cs), r[i].product.id) &&
            FirstSnapshot(Purchases(cs), r[i].product.id) == Some(r[i].product))
      && Lists.SumOf(r, RevenueKey) == TotalRevenue(cs)
  {
    var ps := Purchases(cs);
    var t := RevenueTally(ps);
    var r := RevenueByProduct(cs);
    RevenueTallyCorrect(ps);
    RevenueTallySum(ps);
    Lists.SortDescCorrect(t, RevenueKey);
    DistinctRevenueSize(t);
    Lists.PermutationKeepsKeysDistinct(t, r, (e: RevenueEntry) => e.product.id);
    Lists.SumOfPermutation(t, r, RevenueKey);
    TotalRevenueSumsPurchases(cs);
    forall i | 0 <= i < |r|
      ensures r[i].revenue == RevenueOf(ps, r[i].product.id)
      ensures FirstSnapshot(ps, r[i].product.id) == Some(r[i].product)
    {
      assert r[i] in multiset(r);
      var j :| 0 <= j < |t| && t[j] == r[i];
    }
    forall i, j | 0 <= i < j < |r| ensures r[i].revenue >= r[j].revenue {
      assert RevenueKey(r[i]) >= RevenueKey(r[j]);
    }
  }
}

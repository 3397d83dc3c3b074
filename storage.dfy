/**
 * The local catalog store: the persisted product and customer lists, their
 * CRUD operations, the purchase relation between them, and the analytics
 * read from them. Each operation reads a list, builds a modified copy and
 * writes it back; here the lists are the fields of a `CatalogStore`.
 */
module Storage {
  import opened Wrappers
  import opened Catalog
  import Lists
  import Analytics

  /** The number of entries `getMostSoldProducts` returns when no limit is given. */
  const DefaultLimit: int := 5

  function ProductIdIs(id: string): Product -> bool {
    (p: Product) => p.id == id
  }

  function ProductIdIsNot(id: string): Product -> bool {
    (p: Product) => p.id != id
  }

  function CustomerIdIs(id: string): Customer -> bool {
    (c: Customer) => c.id == id
  }

  function CustomerIdIsNot(id: string): Customer -> bool {
    (c: Customer) => c.id != id
  }

  /** `find(p => p.id === id)` over a product list. */
  function FindProduct(ps: seq<Product>, id: string): (r: Option<Product>)
    ensures r.None? <==> forall i :: 0 <= i < |ps| ==> ps[i].id != id
    ensures r.Some? ==> exists i :: 0 <= i < |ps| && ps[i] == r.value && r.value.id == id &&
                                    forall j :: 0 <= j < i ==> ps[j].id != id
  {
    match Lists.FindFirst(ps, ProductIdIs(id))
    case None => None
    case Some(i) => Some(ps[i])
  }

  /** `find(c => c.id === id)` over a customer list. */
  function FindCustomer(cs: seq<Customer>, id: string): (r: Option<Customer>)
    ensures r.None? <==> forall i :: 0 <= i < |cs| ==> cs[i].id != id
    ensures r.Some? ==> exists i :: 0 <= i < |cs| && cs[i] == r.value && r.value.id == id &&
                                    forall j :: 0 <= j < i ==> cs[j].id != id
  {
    match Lists.FindFirst(cs, CustomerIdIs(id))
    case None => None
    case Some(i) => Some(cs[i])
  }

  /** `purchasedProducts.some(p => p.id === productId)`. */
  predicate HasPurchased(c: Customer, productId: string) {
    exists k :: 0 <= k < |c.purchasedProducts| && c.purchasedProducts[k].id == productId
  }

  /** What `addProductToCustomer` returns and the customer list it leaves. */
  datatype Change = Change(ok: bool, customers: seq<Customer>)

  /**
   * `addProductToCustomer`: fails for an unknown customer or product; succeeds
   * without change when the (first) customer with that id already holds the
   * product; otherwise every entry with that id becomes that customer with the
   * stored product snapshot appended.
   */
  function AddPurchase(ps: seq<Product>, cs: seq<Customer>, customerId: string, productId: string): Change {
    match FindCustomer(cs, customerId)
    case None => Change(false, cs)
    case Some(c) =>
      match FindProduct(ps, productId)
      case None => Change(false, cs)
      case Some(p) =>
        if HasPurchased(c, productId) then Change(true, cs)
        else Change(true, Lists.ReplaceWhere(cs, CustomerIdIs(customerId), c.(purchasedProducts := c.purchasedProducts + [p])))
  }

  /**
   * `removeProductFromCustomer`: fails for an unknown customer only; otherwise
   * every entry with that id becomes the (first) customer with that id minus
   * every purchase of the product.
   */
  function RemovePurchase(cs: seq<Customer>, customerId: string, productId: string): Change {
    match FindCustomer(cs, customerId)
    case None => Change(false, cs)
    case Some(c) =>
      Change(true, Lists.ReplaceWhere(cs, CustomerIdIs(customerId),
        c.(purchasedProducts := Lists.Filter(c.purchasedProducts, ProductIdIsNot(productId)))))
  }

  /** Adding fails, and changes nothing, exactly when the customer or the product is unknown. */
  lemma AddPurchaseFails(ps: seq<Product>, cs: seq<Customer>, customerId: string, productId: string)
    ensures var r := AddPurchase(ps, cs, customerId, productId);
      && (!r.ok <==> (forall i :: 0 <= i < |cs| ==> cs[i].id != customerId) ||
                     (forall i :: 0 <= i < |ps| ==> ps[i].id != productId))
      && (!r.ok ==> r.customers == cs)
  {
  }

  /** After every entry with that id is overwritten by `y`, looking the id up finds `y`. */
  lemma FindAfterReplace(cs: seq<Customer>, id: string, y: Customer)
    requires exists i :: 0 <= i < |cs| && cs[i].id == id
    requires y.id == id
    ensures FindCustomer(Lists.ReplaceWhere(cs, CustomerIdIs(id), y), id) == Some(y)
  {
    var r := Lists.ReplaceWhere(cs, CustomerIdIs(id), y);
    var i :| 0 <= i < |cs| && cs[i].id == id;
    assert r[i].id == id;
  }

  /**
   * A successful add leaves every other customer as it was, keeps the list's
   * length, and the customer then found under that id holds the product.
   */
  lemma AddPurchaseFrame(ps: seq<Product>, cs: seq<Customer>, customerId: string, productId: string)
    ensures var r := AddPurchase(ps, cs, customerId, productId);
      && |r.customers| == |cs|
      && (forall i :: 0 <= i < |cs| && cs[i].id != customerId ==> r.customers[i] == cs[i])
      && (r.ok ==> FindCustomer(r.customers, customerId).Some? &&
                   HasPurchased(FindCustomer(r.customers, customerId).value, productId))
  {
    match FindCustomer(cs, customerId)
    case None =>
    case Some(c) =>
      match FindProduct(ps, productId)
      case None =>
      case Some(p) =>
        if !HasPurchased(c, productId) {
          var c' := c.(purchasedProducts := c.purchasedProducts + [p]);
          assert c'.purchasedProducts[|c.purchasedProducts|].id == productId;
          FindAfterReplace(cs, customerId, c');
        }
  }

  /** Adding a product a second time changes nothing and still succeeds. */
  lemma AddPurchaseIdempotent(ps: seq<Product>, cs: seq<Customer>, customerId: string, productId: string)
    requires AddPurchase(ps, cs, customerId, productId).ok
    ensures var once := AddPurchase(ps, cs, customerId, productId).customers;
      AddPurchase(ps, once, customerId, productId) == Change(true, once)
  {
    AddPurchaseFrame(ps, cs, customerId, productId);
  }

  /**
   * Removing fails, and changes nothing, exactly when the customer is unknown;
   * otherwise every other customer is kept, the length is kept, and every
   * entry with that id is left with no purchase of the product.
   */
  lemma RemovePurchaseCorrect(cs: seq<Customer>, customerId: string, productId: string)
    ensures var r := RemovePurchase(cs, customerId, productId);
      && (!r.ok <==> forall i :: 0 <= i < |cs| ==> cs[i].id != customerId)
      && |r.customers| == |cs|
      && (!r.ok ==> r.customers == cs)
      && (forall i :: 0 <= i < |cs| && cs[i].id != customerId ==> r.customers[i] == cs[i])
      && (r.ok ==> forall i :: 0 <= i < |cs| && cs[i].id == customerId ==>
                      r.customers[i].id == customerId && !HasPurchased(r.customers[i], productId))
  {
    match FindCustomer(cs, customerId)
    case None =>
    case Some(c) =>
      var kept := Lists.Filter(c.purchasedProducts, ProductIdIsNot(productId));
      forall k | 0 <= k < |kept|
        ensures kept[k].id != productId
      {
        assert kept[k] in kept;
      }
  }

  /** Removing twice leaves the list as removing once does. */
  lemma RemovePurchaseIdempotent(cs: seq<Customer>, customerId: string, productId: string)
    ensures var once := RemovePurchase(cs, customerId, productId).customers;
      RemovePurchase(once, customerId, productId).customers == once
  {
    match FindCustomer(cs, customerId)
    case None =>
    case Some(c) =>
      var kept := Lists.Filter(c.purchasedProducts, ProductIdIsNot(productId));
      var c' := c.(purchasedProducts := kept);
      FindAfterReplace(cs, customerId, c');
      forall k | 0 <= k < |kept|
        ensures kept[k].id != productId
      {
        assert kept[k] in kept;
      }
      Lists.FilterAll(kept, ProductIdIsNot(productId));
  }

  class CatalogStore {
    /** The persisted product list. */
    var products: seq<Product>
    /** The persisted customer list. */
    var customers: seq<Customer>

    /** Nothing stored yet: both lists read as empty. */
    constructor ()
      ensures products == [] && customers == []
    {
      products := [];
      customers := [];
    }

    /** `productStorage.getById`. */
    function GetProductById(id: string): (r: Option<Product>)
      reads this
      ensures r == FindProduct(products, id)
    {
      FindProduct(products, id)
    }

    /** `customerStorage.getById`. */
    function GetCustomerById(id: string): (r: Option<Customer>)
      reads this
      ensures r == FindCustomer(customers, id)
    {
      FindCustomer(customers, id)
    }

    /** `productStorage.create`: appends the input fields under the fresh id `newId`. */
    method CreateProduct(input: ProductInput, newId: string) returns (p: Product)
      modifies this
      ensures p == Product(newId, input.name, input.price, input.categoryId, input.categoryIds, input.categories)
      ensures products == old(products) + [p]
      ensures customers == old(customers)
    {
      p := Product(newId, input.name, input.price, input.categoryId, input.categoryIds, input.categories);
      products := products + [p];
    }

    /** `productStorage.update`: overwrites the fields of the first product with that id. */
    method UpdateProduct(id: string, updates: ProductUpdate) returns (r: Option<Product>)
      modifies this
      ensures customers == old(customers)
      ensures |products| == |old(products)|
      ensures r.None? <==> forall i :: 0 <= i < |old(products)| ==> old(products)[i].id != id
      ensures r.None? ==> products == old(products)
      ensures r.Some? ==>
        var k := Lists.FindFirst(old(products), ProductIdIs(id)).value;
        && r.value == ApplyProductUpdate(old(products)[k], updates)
        && products == old(products)[k := r.value]
    {
      var index := Lists.FindFirst(products, ProductIdIs(id));
      if index.None? {
        return None;
      }
      var updated := ApplyProductUpdate(products[index.value], updates);
      products := products[index.value := updated];
      r := Some(updated);
    }

    /** `productStorage.delete`: removes every product with that id; false when there was none. */
    method DeleteProduct(id: string) returns (deleted: bool)
      modifies this
      ensures customers == old(customers)
      ensures deleted <==> exists i :: 0 <= i < |old(products)| && old(products)[i].id == id
      ensures products == if deleted then Lists.Filter(old(products), ProductIdIsNot(id)) else old(products)
      ensures forall i :: 0 <= i < |products| ==> products[i].id != id
    {
      var filtered := Lists.Filter(products, ProductIdIsNot(id));
      Lists.FilterLength(products, ProductIdIsNot(id));
      if |products| == |filtered| {
        return false;
      }
      forall i | 0 <= i < |filtered|
        ensures filtered[i].id != id
      {
        assert filtered[i] in filtered;
      }
      products := filtered;
      deleted := true;
    }

    /** `customerStorage.create`: appends the input fields under the fresh id `newId`, with no purchases. */
    method CreateCustomer(input: CustomerInput, newId: string) returns (c: Customer)
      modifies this
      ensures c == Customer(newId, input.name, input.email, [])
      ensures customers == old(customers) + [c]
      ensures products == old(products)
    {
      c := Customer(newId, input.name, input.email, []);
      customers := customers + [c];
    }

    /** `customerStorage.update`: overwrites the fields of the first customer with that id. */
    method UpdateCustomer(id: string, updates: CustomerUpdate) returns (r: Option<Customer>)
      modifies this
      ensures products == old(products)
      ensures |customers| == |old(customers)|
      ensures r.None? <==> forall i :: 0 <= i < |old(customers)| ==> old(customers)[i].id != id
      ensures r.None? ==> customers == old(customers)
      ensures r.Some? ==>
        var k := Lists.FindFirst(old(customers), CustomerIdIs(id)).value;
        && r.value == ApplyCustomerUpdate(old(customers)[k], updates)
        && customers == old(customers)[k := r.value]
    {
      var index := Lists.FindFirst(customers, CustomerIdIs(id));
      if index.None? {
        return None;
      }
      var updated := ApplyCustomerUpdate(customers[index.value], updates);
      customers := customers[index.value := updated];
      r := Some(updated);
    }

    /** `customerStorage.delete`: removes every customer with that id; false when there was none. */
    method DeleteCustomer(id: string) returns (deleted: bool)
      modifies this
      ensures products == old(products)
      ensures deleted <==> exists i :: 0 <= i < |old(customers)| && old(customers)[i].id == id
      ensures customers == if deleted then Lists.Filter(old(customers), CustomerIdIsNot(id)) else old(customers)
      ensures forall i :: 0 <= i < |customers| ==> customers[i].id != id
    {
      var filtered := Lists.Filter(customers, CustomerIdIsNot(id));
      Lists.FilterLength(customers, CustomerIdIsNot(id));
      if |customers| == |filtered| {
        return false;
      }
      forall i | 0 <= i < |filtered|
        ensures filtered[i].id != id
      {
        assert filtered[i] in filtered;
      }
      customers := filtered;
      deleted := true;
    }

    /** `customerStorage.addProductToCustomer`. */
    method AddProductToCustomer(customerId: string, productId: string) returns (ok: bool)
      modifies this
      ensures products == old(products)
      ensures Change(ok, customers) == AddPurchase(old(products), old(customers), customerId, productId)
    {
      var customer := FindCustomer(customers, customerId);
      if customer.None? {
        return false;
      }
      var product := GetProductById(productId);
      if product.None? {
        return false;
      }
      var c := customer.value;
      if HasPurchased(c, productId) {
        return true;
      }
      var updated := c.(purchasedProducts := c.purchasedProducts + [product.value]);
      customers := Lists.ReplaceWhere(customers, CustomerIdIs(customerId), updated);
      ok := true;
    }

    /** `customerStorage.removeProductFromCustomer`. */
    method RemoveProductFromCustomer(customerId: string, productId: string) returns (ok: bool)
      modifies this
      ensures products == old(products)
      ensures Change(ok, customers) == RemovePurchase(old(customers), customerId, productId)
    {
      var customer := FindCustomer(customers, customerId);
      if customer.None? {
        return false;
      }
      var c := customer.value;
      var updated := c.(purchasedProducts := Lists.Filter(c.purchasedProducts, ProductIdIsNot(productId)));
      customers := Lists.ReplaceWhere(customers, CustomerIdIs(customerId), updated);
      ok := true;
    }

    /** `analytics.getTotalProducts`. */
    function GetTotalProducts(): (n: nat)
      reads this
      ensures n == |products|
    {
      |products|
    }

    /** `analytics.getTotalCustomers`. */
    function GetTotalCustomers(): (n: nat)
      reads this
      ensures n == |customers|
    {
      |customers|
    }

    /** `analytics.getTotalRevenue`: the sum of the prices of every customer's purchases. */
    function GetTotalRevenue(): (r: real)
      reads this
      ensures r == PriceSum(Analytics.Purchases(customers))
      ensures customers == [] ==> r == 0.0
    {
      Analytics.TotalRevenueSumsPurchases(customers);
      Analytics.TotalRevenue(customers)
    }

    /** `analytics.getMostSoldProducts`: the nested loops fill the tally, which is then sorted and cut. */
    method GetMostSoldProducts(limit: int := DefaultLimit) returns (r: seq<Analytics.SalesEntry>)
      ensures r == Analytics.MostSoldProducts(customers, limit)
    {
      var productSales: seq<Analytics.SalesEntry> := [];
      var i := 0;
      while i < |customers|
        invariant 0 <= i <= |customers|
        invariant productSales == Analytics.SalesTally(Analytics.Purchases(customers[..i]))
      {
        var purchased := customers[i].purchasedProducts;
        ghost var done := Analytics.Purchases(customers[..i]);
        var j := 0;
        assert done + purchased[..0] == done;
        while j < |purchased|
          invariant 0 <= j <= |purchased|
          invariant productSales == Analytics.SalesTally(done + purchased[..j])
        {
          Analytics.SalesTallyStep(done, purchased, j);
          productSales := Analytics.CountSale(productSales, purchased[j]);
          j := j + 1;
        }
        assert purchased[..j] == purchased;
        Analytics.PurchasesStep(customers, i);
        i := i + 1;
      }
      assert customers[..i] == customers;
      r := Lists.Slice(Lists.SortDesc(productSales, Analytics.SalesKey), limit);
    }

    /** `analytics.getRevenueByProduct`: the nested loops fill the tally, which is then sorted. */
    method GetRevenueByProduct() returns (r: seq<Analytics.RevenueEntry>)
      ensures r == Analytics.RevenueByProduct(customers)
    {
      var productRevenue: seq<Analytics.RevenueEntry> := [];
      var i := 0;
      while i < |customers|
        invariant 0 <= i <= |customers|
        invariant productRevenue == Analytics.RevenueTally(Analytics.Purchases(customers[..i]))
      {
        var purchased := customers[i].purchasedProducts;
        ghost var done := Analytics.Purchases(customers[..i]);
        var j := 0;
        assert done + purchased[..0] == done;
        while j < |purchased|
          invariant 0 <= j <= |purchased|
          invariant productRevenue == Analytics.RevenueTally(done + purchased[..j])
        {
          Analytics.RevenueTallyStep(done, purchased, j);
          productRevenue := Analytics.AddRevenue(productRevenue, purchased[j]);
          j := j + 1;
        }
        assert purchased[..j] == purchased;
        Analytics.PurchasesStep(customers, i);
        i := i + 1;
      }
      assert customers[..i] == customers;
      r := Lists.SortDesc(productRevenue, Analytics.RevenueKey);
    }
  }
}

/**
 * The product and customer rows that the detailed exporters build: one row
 * per record, numbered from 1, with prices and totals written with two
 * decimals. The export date is a parameter (the clock is not modelled).
 */
module Reports {
  import opened Wrappers
  import opened Strings
  import opened NumberFormat
  import opened Catalog
  import opened Csv
  import Lists

  /** What the customer row lists when the purchase names join to nothing. */
  const NoProducts := "Ninguno"

  /** The date part of an ISO timestamp: `toISOString().split('T')[0]`. */
  function Day(isoTimestamp: string): (r: string)
    ensures 'T' !in r && StartsWith(isoTimestamp, r)
  {
    Before(isoTimestamp, 'T')
  }

  /** `fileName || fallback`: a given non-empty name wins. */
  function NameOr(fileName: Option<string>, fallback: string): (r: string)
    ensures Truthy(fileName) ==> r == fileName.value
    ensures !Truthy(fileName) ==> r == fallback
  {
    if Truthy(fileName) then fileName.value else fallback
  }

  /** The names of a customer's purchases, in purchase order. */
  function PurchaseNames(c: Customer): (r: seq<string>)
    ensures |r| == |c.purchasedProducts|
    ensures forall k :: 0 <= k < |r| ==> r[k] == c.purchasedProducts[k].name
  {
    seq(|c.purchasedProducts|, k requires 0 <= k < |c.purchasedProducts| => c.purchasedProducts[k].name)
  }

  /** `purchasedProducts.map(p => p.name).join('; ') || 'Ninguno'`. */
  function ProductList(c: Customer): (r: string)
    ensures Join(PurchaseNames(c), "; ") == "" ==> r == NoProducts
    ensures Join(PurchaseNames(c), "; ") != "" ==> r == Join(PurchaseNames(c), "; ")
  {
    var joined := Join(PurchaseNames(c), "; ");
    if joined == "" then NoProducts else joined
  }

  /**
   * The list reads "Ninguno" exactly when the customer bought nothing, or
   * bought one product whose name is empty or is itself "Ninguno".
   */
  lemma ProductListNinguno(c: Customer)
    ensures ProductList(c) == NoProducts <==>
      |c.purchasedProducts| == 0 ||
      (|c.purchasedProducts| == 1 && (c.purchasedProducts[0].name == "" || c.purchasedProducts[0].name == NoProducts))
  {
    var names := PurchaseNames(c);
    var j := Join(names, "; ");
    if |names| >= 2 {
      JoinSeparates(names, "; ");
      assert j[|names[0]|] == ';';
      if |j| == |NoProducts| {
        assert NoProducts[|names[0]|] != ';';
      }
    } else if |names| == 1 {
      assert j == names[0];
    }
  }

  /** The detailed product row, numbered `n`, under the number column `numberKey`. */
  function ProductRow(numberKey: string, n: int, p: Product, today: string): Row {
    [ Cell(numberKey, Num(n)),
      Cell("ID del Producto", Text(p.id)),
      Cell("Nombre del Producto", Text(p.name)),
      Cell("Precio (€)", Text(Fixed2(p.price))),
      Cell("Fecha de Exportación", Text(today)) ]
  }

  /** The detailed customer row, numbered `n`, under the number column `numberKey`. */
  function CustomerRow(numberKey: string, n: int, c: Customer, today: string): Row {
    [ Cell(numberKey, Num(n)),
      Cell("ID del Cliente", Text(c.id)),
      Cell("Nombre del Cliente", Text(c.name)),
      Cell("Correo Electrónico", Text(c.email)),
      Cell("Productos Comprados", Num(|c.purchasedProducts|)),
      Cell("Lista de Productos", Text(ProductList(c))),
      Cell("Total Gastado (€)", Text(Fixed2(Spent(c)))),
      Cell("Fecha de Exportación", Text(today)) ]
  }

  /** `products.map((product, index) => ...)`: the row of each product, numbered index + 1. */
  function ProductRows(numberKey: string, products: seq<Product>, today: string): (r: seq<Row>)
    ensures |r| == |products|
    ensures forall i :: 0 <= i < |r| ==> r[i] == ProductRow(numberKey, i + 1, products[i], today)
  {
    seq(|products|, i requires 0 <= i < |products| => ProductRow(numberKey, i + 1, products[i], today))
  }

  /** `customers.map((customer, index) => ...)`: the row of each customer, numbered index + 1. */
  function CustomerRows(numberKey: string, customers: seq<Customer>, today: string): (r: seq<Row>)
    ensures |r| == |customers|
    ensures forall i :: 0 <= i < |r| ==> r[i] == CustomerRow(numberKey, i + 1, customers[i], today)
  {
    seq(|customers|, i requires 0 <= i < |customers| => CustomerRow(numberKey, i + 1, customers[i], today))
  }

  /** The header of a customer row: the number column, then the seven named columns. */
  lemma CustomerRowKeys(numberKey: string, n: int, c: Customer, today: string)
    ensures Keys(CustomerRow(numberKey, n, c, today)) ==
      [numberKey, "ID del Cliente", "Nombre del Cliente", "Correo Electrónico",
       "Productos Comprados", "Lista de Productos", "Total Gastado (€)", "Fecha de Exportación"]
  {
  }

  /** The customer row's columns: its number, its purchase count, its total and its product list. */
  lemma CustomerRowColumns(numberKey: string, n: int, c: Customer, today: string)
    requires numberKey == "N°" || numberKey == "Número"
    ensures var row := CustomerRow(numberKey, n, c, today);
      && Lookup(row, numberKey) == Num(n)
      && Lookup(row, "Productos Comprados") == Num(|c.purchasedProducts|)
      && Lookup(row, "Total Gastado (€)") == Text(Fixed2(PriceSum(c.purchasedProducts)))
      && (c.purchasedProducts == [] ==> Lookup(row, "Lista de Productos") == Text(NoProducts))
  {
    var row := CustomerRow(numberKey, n, c, today);
    LookupFirst(row, numberKey, 0);
    LookupFirst(row, "Productos Comprados", 4);
    LookupFirst(row, "Lista de Productos", 5);
    LookupFirst(row, "Total Gastado (€)", 6);
  }

  /** A price (or a total) that is a whole number of cents is a non-negative fixed-point figure in cents. */
  predicate ExactPrice(x: real) {
    x >= 0.0 && WholeCents(x)
  }

  lemma CentsAdd(a: real, b: real)
    requires ExactPrice(a) && ExactPrice(b)
    ensures ExactPrice(a + b)
  {
    var m, n := (a * 100.0).Floor, (b * 100.0).Floor;
    var k := m + n;
    assert (a + b) * 100.0 == a * 100.0 + b * 100.0;
    assert (a + b) * 100.0 == k as real;
    assert (k as real).Floor == k;
  }

  /** Whole cents add up to whole cents. */
  lemma {:induction false} PriceSumExact(ps: seq<Product>)
    requires forall k :: 0 <= k < |ps| ==> ExactPrice(ps[k].price)
    ensures ExactPrice(PriceSum(ps))
  {
    if ps != [] {
      var init := ps[..|ps| - 1];
      PriceSumExact(init);
      var a, b := PriceSum(init), ps[|ps| - 1].price;
      assert PriceSum(ps) == a + b;
      CentsAdd(a, b);
    }
  }

  /**
   * With every price a whole number of cents, the customer's written total
   * reads back as the sum of the prices of the purchases.
   */
  lemma TotalReadsBack(c: Customer)
    requires forall k :: 0 <= k < |c.purchasedProducts| ==> ExactPrice(c.purchasedProducts[k].price)
    ensures var s := Fixed2(Spent(c));
      |s| >= 4 && s[|s| - 3] == '.' && AllDigits(s[..|s| - 3]) && AllDigits(s[|s| - 2..]) &&
      DecimalValue(s) == PriceSum(c.purchasedProducts)
  {
    PriceSumExact(c.purchasedProducts);
    Fixed2Exact(Spent(c));
  }
}

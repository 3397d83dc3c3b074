/**
 * The alerting CSV exporter: empty input yields an alert rather than a
 * file, values are quoted like the simple exporter's, prices carry a euro
 * sign, and the complete report is the customer file when there are
 * customers, else the product file.
 */
module ExportUtils {
  import opened Strings
  import opened NumberFormat
  import opened Catalog
  import opened Csv
  import opened Reports

  const NoData := "No hay datos para exportar"
  const NoProductsToExport := "No hay productos para exportar"
  const NoCustomersToExport := "No hay clientes para exportar"

  /** What an export does for the user: shows an alert, or saves a file. */
  datatype Outcome = Alerted(message: string) | Downloaded(file: Download)

  /** `downloadCSV`: an alert for empty data, else the file of the mark, the header record and one record per row. */
  function DownloadCsv(data: seq<Row>, filename: string): (r: Outcome)
    ensures r.Alerted? <==> data == []
    ensures r.Alerted? ==> r.message == NoData
    ensures r.Downloaded? ==>
      r.file.fileName == filename && r.file.content == [Bom] + Assemble(data, LooseCell)
  {
    if data == [] then Alerted(NoData)
    else Downloaded(Download(filename, [Bom] + Assemble(data, LooseCell)))
  }

  /**
   * When no value's string form holds a line break, an RFC 4180-style reader (LF line breaks)
   * recovers the header record and every row's values in header order.
   */
  lemma DownloadCsvReadsBack(data: seq<Row>, filename: string)
    requires PlainHeaders(data) && NoLineBreaks(Records(data, ValueText))
    ensures DownloadCsv(data, filename).Downloaded?
    ensures var content := DownloadCsv(data, filename).file.content;
      |content| > 0 && content[0] == Bom && ReadRecords(content[1..]) == Records(data, ValueText)
  {
    LooseReadsBack(data);
    var content := DownloadCsv(data, filename).file.content;
    assert content[1..] == Assemble(data, LooseCell);
  }

  /** A product's row, numbered `n`. */
  function ProductRow(n: int, p: Product, today: string): Row {
    [ Cell("Número", Num(n)),
      Cell("ID", Text(p.id)),
      Cell("Nombre", Text(p.name)),
      Cell("Precio", Text("€" + Fixed2(p.price))),
      Cell("Fecha", Text(today)) ]
  }

  /** A customer's row, numbered `n`. */
  function CustomerRow(n: int, c: Customer, today: string): Row {
    [ Cell("Número", Num(n)),
      Cell("ID", Text(c.id)),
      Cell("Nombre", Text(c.name)),
      Cell("Email", Text(c.email)),
      Cell("Productos Comprados", Num(|c.purchasedProducts|)),
      Cell("Total Gastado", Text("€" + Fixed2(Spent(c)))),
      Cell("Fecha", Text(today)) ]
  }

  /** The row of each product, numbered index + 1. */
  function ProductRows(products: seq<Product>, today: string): (r: seq<Row>)
    ensures |r| == |products|
    ensures forall i :: 0 <= i < |r| ==> r[i] == ProductRow(i + 1, products[i], today)
  {
    seq(|products|, i requires 0 <= i < |products| => ProductRow(i + 1, products[i], today))
  }

  /** The row of each customer, numbered index + 1. */
  function CustomerRows(customers: seq<Customer>, today: string): (r: seq<Row>)
    ensures |r| == |customers|
    ensures forall i :: 0 <= i < |r| ==> r[i] == CustomerRow(i + 1, customers[i], today)
  {
    seq(|customers|, i requires 0 <= i < |customers| => CustomerRow(i + 1, customers[i], today))
  }

  /** The product at index `i` is numbered i + 1 and priced in euros with two decimals. */
  lemma ProductRowColumns(products: seq<Product>, today: string, i: nat)
    requires i < |products|
    ensures var row := ProductRows(products, today)[i];
      && Keys(row) == ["Número", "ID", "Nombre", "Precio", "Fecha"]
      && Lookup(row, "Número") == Num(i + 1)
      && Lookup(row, "Nombre") == Text(products[i].name)
      && Lookup(row, "Precio") == Text("€" + Fixed2(products[i].price))
  {
    var row := ProductRow(i + 1, products[i], today);
    LookupFirst(row, "Número", 0);
    LookupFirst(row, "Nombre", 2);
    LookupFirst(row, "Precio", 3);
  }

  /**
   * The customer at index `i` is numbered i + 1 and carries its purchase
   * count and the sum of its purchases' prices, in euros.
   */
  lemma CustomerRowColumns(customers: seq<Customer>, today: string, i: nat)
    requires i < |customers|
    ensures var row := CustomerRows(customers, today)[i];
      && Keys(row) == ["Número", "ID", "Nombre", "Email", "Productos Comprados", "Total Gastado", "Fecha"]
      && Lookup(row, "Número") == Num(i + 1)
      && Lookup(row, "Productos Comprados") == Num(|customers[i].purchasedProducts|)
      && Lookup(row, "Total Gastado") == Text("€" + Fixed2(PriceSum(customers[i].purchasedProducts)))
  {
    var row := CustomerRow(i + 1, customers[i], today);
    LookupFirst(row, "Número", 0);
    LookupFirst(row, "Productos Comprados", 4);
    LookupFirst(row, "Total Gastado", 5);
  }

  /** `exportProducts`: an alert for no products, else the product file named after the day. */
  function ExportProducts(products: seq<Product>, today: string, now: string): (r: Outcome)
    ensures r.Alerted? <==> products == []
    ensures r.Alerted? ==> r.message == NoProductsToExport
    ensures r.Downloaded? ==> r == DownloadCsv(ProductRows(products, today), "productos_" + Day(now) + ".csv")
  {
    if products == [] then Alerted(NoProductsToExport)
    else DownloadCsv(ProductRows(products, today), "productos_" + Day(now) + ".csv")
  }

  /** `exportCustomers`: an alert for no customers, else the customer file named after the day. */
  function ExportCustomers(customers: seq<Customer>, today: string, now: string): (r: Outcome)
    ensures r.Alerted? <==> customers == []
    ensures r.Alerted? ==> r.message == NoCustomersToExport
    ensures r.Downloaded? ==> r == DownloadCsv(CustomerRows(customers, today), "clientes_" + Day(now) + ".csv")
  {
    if customers == [] then Alerted(NoCustomersToExport)
    else DownloadCsv(CustomerRows(customers, today), "clientes_" + Day(now) + ".csv")
  }

  /**
   * `exportCompleteReport`: an alert exactly when both lists are empty;
   * otherwise the customer file when there are customers and the product
   * file when there are none.
   */
  function ExportCompleteReport(products: seq<Product>, customers: seq<Customer>, today: string, now: string): (r: Outcome)
    ensures r.Alerted? <==> products == [] && customers == []
    ensures r.Alerted? ==> r.message == NoData
    ensures customers != [] ==>
      r == Downloaded(Download("clientes_" + Day(now) + ".csv", [Bom] + Assemble(CustomerRows(customers, today), LooseCell)))
    ensures customers == [] && products != [] ==>
      r == Downloaded(Download("productos_" + Day(now) + ".csv", [Bom] + Assemble(ProductRows(products, today), LooseCell)))
  {
    if products == [] && customers == [] then Alerted(NoData)
    else if customers != [] then ExportCustomers(customers, today, now)
    else ExportProducts(products, today, now)
  }
}

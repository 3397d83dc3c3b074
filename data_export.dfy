/**
 * The detailed CSV exporter: values quoted by the rules of section 2 of
 * RFC 4180 (rules 6 and 7), product and customer exports that refuse empty
 * input, and the combined report with its two summary rows. The export
 * timestamp and the locale date are parameters; the browser download step
 * is represented by the `Download` it would hand over.
 */
module DataExport {
  import opened Wrappers
  import opened Strings
  import opened NumberFormat
  import opened Catalog
  import opened Csv
  import opened Reports

  const NoData := "No hay datos para exportar"
  const NoProductsToExport := "No hay productos disponibles para exportar."
  const NoCustomersToExport := "No hay clientes disponibles para exportar."
  const NoReportData := "No hay datos disponibles para exportar."

  /** The number column of this exporter's product and customer rows. */
  const NumberKey := "N°"

  /**
   * `formatCSVValue`: null/undefined becomes the empty field; a string form
   * holding ',', '"' or a line break is quoted with its quotes doubled; any
   * other string form is written as it is.
   */
  function FormatCsvValue(v: Value): (r: string)
    ensures v.Missing? ==> r == ""
    ensures NeedsQuotes(ValueText(v)) ==> r == Quote(ValueText(v)) && Unquote(r) == ValueText(v)
    ensures !NeedsQuotes(ValueText(v)) ==> r == ValueText(v)
    ensures r == EncodeField(ValueText(v))
  {
    match v
    case Missing => ""
    case _ =>
      var text := ValueText(v);
      if ',' in text || '"' in text || '\n' in text then
        UnquoteQuote(text);
        "\"" + Escape(text) + "\""
      else text
  }

  /** `downloadCSV`: empty data is an error; otherwise the file holds the mark and the assembled records. */
  function DownloadCsv(data: seq<Row>, fileName: string): (r: Result<Download, string>)
    ensures r.Err? <==> data == []
    ensures r.Err? ==> r.error == NoData
    ensures r.Ok? ==> r.value.fileName == fileName && r.value.content == [Bom] + Assemble(data, FormatCsvValue)
  {
    if data == [] then Err(NoData)
    else Ok(Download(fileName, [Bom] + Assemble(data, FormatCsvValue)))
  }

  /**
   * Whatever the values hold, an RFC 4180-style reader with LF line breaks recovers from the file
   * the header record and, for every row, the string form of each value in
   * header order.
   */
  lemma DownloadCsvReadsBack(data: seq<Row>, fileName: string)
    requires PlainHeaders(data)
    ensures DownloadCsv(data, fileName).Ok?
    ensures var content := DownloadCsv(data, fileName).value.content;
      |content| > 0 && content[0] == Bom && ReadRecords(content[1..]) == Records(data, ValueText)
  {
    AssembledReadsBack(data, FormatCsvValue);
    var content := DownloadCsv(data, fileName).value.content;
    assert content[1..] == Assemble(data, FormatCsvValue);
  }

  /** `exportarProductosAExcel`: refuses an empty list; the default name carries the export day. */
  function ExportProducts(products: seq<Product>, fileName: Option<string>, today: string, now: string): (r: Result<Download, string>)
    ensures r.Err? <==> products == []
    ensures r.Err? ==> r.error == NoProductsToExport
    ensures r.Ok? ==> r == DownloadCsv(ProductRows(NumberKey, products, today), NameOr(fileName, "productos_" + Day(now) + ".csv"))
  {
    if products == [] then Err(NoProductsToExport)
    else DownloadCsv(ProductRows(NumberKey, products, today), NameOr(fileName, "productos_" + Day(now) + ".csv"))
  }

  /** `exportarClientesAExcel`: refuses an empty list; the default name carries the export day. */
  function ExportCustomers(customers: seq<Customer>, fileName: Option<string>, today: string, now: string): (r: Result<Download, string>)
    ensures r.Err? <==> customers == []
    ensures r.Err? ==> r.error == NoCustomersToExport
    ensures r.Ok? ==> r == DownloadCsv(CustomerRows(NumberKey, customers, today), NameOr(fileName, "clientes_" + Day(now) + ".csv"))
  {
    if customers == [] then Err(NoCustomersToExport)
    else DownloadCsv(CustomerRows(NumberKey, customers, today), NameOr(fileName, "clientes_" + Day(now) + ".csv"))
  }

  /** The columns of every detailed customer row. */
  predicate CustomerShaped(row: Row) {
    |row| == 8 && row[0].key == NumberKey && row[1].key == "ID del Cliente" && row[2].key == "Nombre del Cliente" &&
    row[3].key == "Correo Electrónico" && row[4].key == "Productos Comprados" && row[5].key == "Lista de Productos" &&
    row[6].key == "Total Gastado (€)" && row[7].key == "Fecha de Exportación"
  }

  lemma LookupCustomerColumns(row: Row)
    requires CustomerShaped(row)
    ensures Lookup(row, NumberKey) == row[0].value
    ensures Lookup(row, "Nombre del Cliente") == row[2].value
    ensures Lookup(row, "Productos Comprados") == row[4].value
  {
    LookupFirst(row, NumberKey, 0);
    LookupFirst(row, "Nombre del Cliente", 2);
    LookupFirst(row, "Productos Comprados", 4);
  }

  /** None of the customer column names holds ',', '"' or a line break. */
  lemma CustomerKeysPlain()
    ensures !NeedsQuotes("N°") && !NeedsQuotes("ID del Cliente") && !NeedsQuotes("Nombre del Cliente")
    ensures !NeedsQuotes("Correo Electrónico") && !NeedsQuotes("Productos Comprados")
    ensures !NeedsQuotes("Lista de Productos") && !NeedsQuotes("Total Gastado (€)")
    ensures !NeedsQuotes("Fecha de Exportación")
  {
  }

  lemma CustomerHeadersPlain(customers: seq<Customer>, today: string)
    requires customers != []
    ensures PlainHeaders(CustomerRows(NumberKey, customers, today))
    ensures Keys(CustomerRows(NumberKey, customers, today)[0]) ==
      ["N°", "ID del Cliente", "Nombre del Cliente", "Correo Electrónico",
       "Productos Comprados", "Lista de Productos", "Total Gastado (€)", "Fecha de Exportación"]
  {
    var data := CustomerRows(NumberKey, customers, today);
    CustomerRowKeys(NumberKey, 1, customers[0], today);
    CustomerKeysPlain();
    var keys := Keys(data[0]);
    forall j | 0 <= j < |data[0]|
      ensures !NeedsQuotes(data[0][j].key)
    {
      assert data[0][j].key == keys[j];
    }
  }

  /** The record of customer `k` in the customer export. */
  lemma CustomerExportRecord(customers: seq<Customer>, today: string, k: nat)
    requires k < |customers|
    ensures var recs := Records(CustomerRows(NumberKey, customers, today), ValueText);
      recs[k + 1][0] == IntToString(k + 1) && recs[k + 1][2] == customers[k].name &&
      recs[k + 1][4] == IntToString(|customers[k].purchasedProducts|)
  {
    var data := CustomerRows(NumberKey, customers, today);
    var row := data[k];
    assert row == CustomerRow(NumberKey, k + 1, customers[k], today);
    assert CustomerShaped(row) && CustomerShaped(data[0]);
    LookupCustomerColumns(row);
    RecordField(data, ValueText, k, 0);
    RecordField(data, ValueText, k, 2);
    RecordField(data, ValueText, k, 4);
  }

  /** A customer's name with a ',' or a '"' in it survives the export, and so do the number and the purchase count. */
  lemma ExportCustomersReadsBack(customers: seq<Customer>, fileName: Option<string>, today: string, now: string)
    requires customers != []
    ensures ExportCustomers(customers, fileName, today, now).Ok?
    ensures var content := ExportCustomers(customers, fileName, today, now).value.content;
      var recs := Records(CustomerRows(NumberKey, customers, today), ValueText);
      && |content| > 0 && ReadRecords(content[1..]) == recs
      && recs[0] == ["N°", "ID del Cliente", "Nombre del Cliente", "Correo Electrónico",
                     "Productos Comprados", "Lista de Productos", "Total Gastado (€)", "Fecha de Exportación"]
      && forall k :: 0 <= k < |customers| ==>
           recs[k + 1][0] == IntToString(k + 1) && recs[k + 1][2] == customers[k].name &&
           recs[k + 1][4] == IntToString(|customers[k].purchasedProducts|)
  {
    CustomerHeadersPlain(customers, today);
    DownloadCsvReadsBack(CustomerRows(NumberKey, customers, today), NameOr(fileName, "clientes_" + Day(now) + ".csv"));
    forall k | 0 <= k < |customers| {
      CustomerExportRecord(customers, today, k);
    }
  }

  /** A summary row of the combined report. */
  function SummaryRow(description: string, count: int, today: string): Row {
    [ Cell("Tipo", Text("RESUMEN")), Cell("Descripción", Text(description)), Cell("Cantidad", Num(count)),
      Cell("Valor", Text("")), Cell("Fecha", Text(today)) ]
  }

  /** The report row of a product: one unit at its price. */
  function ProductReportRow(p: Product, today: string): Row {
    [ Cell("Tipo", Text("PRODUCTO")), Cell("Descripción", Text(p.name)), Cell("Cantidad", Num(1)),
      Cell("Valor", Text("€" + Fixed2(p.price))), Cell("Fecha", Text(today)) ]
  }

  /** The report row of a customer: the number of purchases and what they add up to. */
  function CustomerReportRow(c: Customer, today: string): Row {
    [ Cell("Tipo", Text("CLIENTE")), Cell("Descripción", Text(c.name + " (" + c.email + ")")),
      Cell("Cantidad", Num(|c.purchasedProducts|)),
      Cell("Valor", Text("€" + Fixed2(Spent(c)))), Cell("Fecha", Text(today)) ]
  }

  /** The two summary rows: how many products and how many customers. */
  function Summary(products: seq<Product>, customers: seq<Customer>, today: string): seq<Row> {
    [SummaryRow("Total de Productos", |products|, today), SummaryRow("Total de Clientes", |customers|, today)]
  }

  function ProductReportRows(products: seq<Product>, today: string): (r: seq<Row>)
    ensures |r| == |products| && forall i :: 0 <= i < |r| ==> r[i] == ProductReportRow(products[i], today)
  {
    seq(|products|, i requires 0 <= i < |products| => ProductReportRow(products[i], today))
  }

  function CustomerReportRows(customers: seq<Customer>, today: string): (r: seq<Row>)
    ensures |r| == |customers| && forall i :: 0 <= i < |r| ==> r[i] == CustomerReportRow(customers[i], today)
  {
    seq(|customers|, i requires 0 <= i < |customers| => CustomerReportRow(customers[i], today))
  }

  /** The rows of the combined report: the summary, then every product, then every customer, each in input order. */
  function ReportRows(products: seq<Product>, customers: seq<Customer>, today: string): (r: seq<Row>)
    ensures |r| == 2 + |products| + |customers|
    ensures r[0] == SummaryRow("Total de Productos", |products|, today)
    ensures r[1] == SummaryRow("Total de Clientes", |customers|, today)
  {
    Summary(products, customers, today) + ProductReportRows(products, today) + CustomerReportRows(customers, today)
  }

  /** Product `i` is row 2 + i of the report. */
  lemma ReportProductRow(products: seq<Product>, customers: seq<Customer>, today: string, i: nat)
    requires i < |products|
    ensures ReportRows(products, customers, today)[2 + i] == ProductReportRow(products[i], today)
  {
  }

  /** Customer `k` is row 2 + (number of products) + k of the report. */
  lemma ReportCustomerRow(products: seq<Product>, customers: seq<Customer>, today: string, k: nat)
    requires k < |customers|
    ensures ReportRows(products, customers, today)[2 + |products| + k] == CustomerReportRow(customers[k], today)
  {
  }

  lemma ProductReportRowsSnoc(products: seq<Product>, i: nat, today: string)
    requires i < |products|
    ensures ProductReportRows(products[..i + 1], today) ==
            ProductReportRows(products[..i], today) + [ProductReportRow(products[i], today)]
  {
    var a := ProductReportRows(products[..i + 1], today);
    var b := ProductReportRows(products[..i], today) + [ProductReportRow(products[i], today)];
    assert |a| == |b|;
    forall j | 0 <= j < |a| ensures a[j] == b[j] {
      assert products[..i + 1][j] == products[j];
    }
  }

  lemma CustomerReportRowsSnoc(customers: seq<Customer>, k: nat, today: string)
    requires k < |customers|
    ensures CustomerReportRows(customers[..k + 1], today) ==
            CustomerReportRows(customers[..k], today) + [CustomerReportRow(customers[k], today)]
  {
    var a := CustomerReportRows(customers[..k + 1], today);
    var b := CustomerReportRows(customers[..k], today) + [CustomerReportRow(customers[k], today)];
    assert |a| == |b|;
    forall i | 0 <= i < |a| ensures a[i] == b[i] {
      assert customers[..k + 1][i] == customers[i];
    }
  }

  /**
   * `exportarReporteCompleto`: refuses when both lists are empty; otherwise
   * pushes the two summary rows, then a row per product, then a row per
   * customer, and hands the rows to the download.
   */
  method ExportFullReport(products: seq<Product>, customers: seq<Customer>, fileName: Option<string>, today: string, now: string)
    returns (r: Result<Download, string>)
    ensures products == [] && customers == [] ==> r == Err(NoReportData)
    ensures products != [] || customers != [] ==>
      r == DownloadCsv(ReportRows(products, customers, today), NameOr(fileName, "reporte_completo_" + Day(now) + ".csv"))
  {
    if |products| == 0 && |customers| == 0 {
      return Err(NoReportData);
    }
    var reportData: seq<Row> := [];
    reportData := reportData + [SummaryRow("Total de Productos", |products|, today)];
    reportData := reportData + [SummaryRow("Total de Clientes", |customers|, today)];
    var withSummary := reportData;
    assert withSummary == Summary(products, customers, today);
    assert products[..0] == [];
    if |products| > 0 {
      var i := 0;
      while i < |products|
        invariant 0 <= i <= |products|
        invariant reportData == withSummary + ProductReportRows(products[..i], today)
      {
        ProductReportRowsSnoc(products, i, today);
        reportData := reportData + [ProductReportRow(products[i], today)];
        i := i + 1;
      }
      assert products[..i] == products;
    }
    assert reportData == withSummary + ProductReportRows(products, today);
    var withProducts := reportData;
    assert customers[..0] == [];
    if |customers| > 0 {
      var k := 0;
      while k < |customers|
        invariant 0 <= k <= |customers|
        invariant reportData == withProducts + CustomerReportRows(customers[..k], today)
      {
        CustomerReportRowsSnoc(customers, k, today);
        reportData := reportData + [CustomerReportRow(customers[k], today)];
        k := k + 1;
      }
      assert customers[..k] == customers;
    }
    assert reportData == withProducts + CustomerReportRows(customers, today);
    r := DownloadCsv(reportData, NameOr(fileName, "reporte_completo_" + Day(now) + ".csv"));
  }

  /** The columns of every row of the combined report. */
  predicate ReportShaped(row: Row) {
    |row| == 5 && row[0].key == "Tipo" && row[1].key == "Descripción" && row[2].key == "Cantidad" &&
    row[3].key == "Valor" && row[4].key == "Fecha"
  }

  lemma LookupReportColumns(row: Row)
    requires ReportShaped(row)
    ensures Lookup(row, "Tipo") == row[0].value
    ensures Lookup(row, "Descripción") == row[1].value
    ensures Lookup(row, "Cantidad") == row[2].value
  {
    LookupFirst(row, "Tipo", 0);
    LookupFirst(row, "Descripción", 1);
    LookupFirst(row, "Cantidad", 2);
  }

  /** None of the report column names holds ',', '"' or a line break. */
  lemma ReportKeysPlain()
    ensures !NeedsQuotes("Tipo") && !NeedsQuotes("Descripción") && !NeedsQuotes("Cantidad")
    ensures !NeedsQuotes("Valor") && !NeedsQuotes("Fecha")
  {
  }

  lemma ReportHeadersPlain(products: seq<Product>, customers: seq<Customer>, today: string)
    ensures PlainHeaders(ReportRows(products, customers, today))
    ensures Keys(ReportRows(products, customers, today)[0]) == ["Tipo", "Descripción", "Cantidad", "Valor", "Fecha"]
  {
    ReportKeysPlain();
  }

  /** The first three fields of the record of report row `i` are the string forms of its first three values. */
  lemma ReportRecordColumns(data: seq<Row>, i: nat)
    requires i < |data| && ReportShaped(data[0]) && ReportShaped(data[i])
    ensures var rec := Records(data, ValueText)[i + 1];
      rec[0] == ValueText(data[i][0].value) && rec[1] == ValueText(data[i][1].value) &&
      rec[2] == ValueText(data[i][2].value)
  {
    LookupReportColumns(data[i]);
    RecordField(data, ValueText, i, 0);
    RecordField(data, ValueText, i, 1);
    RecordField(data, ValueText, i, 2);
  }

  /** A product's record in the report: its type, its name and a quantity of one. */
  predicate ProductShown(p: Product, rec: seq<string>) {
    |rec| >= 3 && rec[0] == "PRODUCTO" && rec[1] == p.name && rec[2] == "1"
  }

  /** A customer's record in the report: its type, its name and email, and its number of purchases. */
  predicate CustomerShown(c: Customer, rec: seq<string>) {
    |rec| >= 3 && rec[0] == "CLIENTE" && rec[1] == c.name + " (" + c.email + ")" &&
    rec[2] == IntToString(|c.purchasedProducts|)
  }

  lemma ProductRecord(data: seq<Row>, i: nat, p: Product, today: string)
    requires i < |data| && ReportShaped(data[0]) && data[i] == ProductReportRow(p, today)
    ensures ProductShown(p, Records(data, ValueText)[i + 1])
  {
    ReportRecordColumns(data, i);
    assert IntToString(1) == "1";
  }

  lemma CustomerRecord(data: seq<Row>, i: nat, c: Customer, today: string)
    requires i < |data| && ReportShaped(data[0]) && data[i] == CustomerReportRow(c, today)
    ensures CustomerShown(c, Records(data, ValueText)[i + 1])
  {
    ReportRecordColumns(data, i);
  }

  /** The report has a header record, two summary records holding the counts, and five fields per record. */
  predicate ReportFrameShown(products: seq<Product>, customers: seq<Customer>, recs: seq<seq<string>>) {
    && |recs| == 3 + |products| + |customers|
    && (forall i :: 0 <= i < |recs| ==> |recs[i]| == 5)
    && recs[0] == ["Tipo", "Descripción", "Cantidad", "Valor", "Fecha"]
    && recs[1][2] == IntToString(|products|) && recs[2][2] == IntToString(|customers|)
  }

  /** Product `i` is record 3 + i. */
  predicate ProductsShown(products: seq<Product>, recs: seq<seq<string>>) {
    forall i :: 0 <= i < |products| ==> 3 + i < |recs| && ProductShown(products[i], recs[3 + i])
  }

  /** Customer `k` is record 3 + (number of products) + k. */
  predicate CustomersShown(products: seq<Product>, customers: seq<Customer>, recs: seq<seq<string>>) {
    forall k :: 0 <= k < |customers| ==>
      3 + |products| + k < |recs| && CustomerShown(customers[k], recs[3 + |products| + k])
  }

  lemma ReportFrameRecords(products: seq<Product>, customers: seq<Customer>, today: string)
    ensures ReportFrameShown(products, customers, Records(ReportRows(products, customers, today), ValueText))
  {
    var data := ReportRows(products, customers, today);
    ReportHeadersPlain(products, customers, today);
    assert |data[0]| == 5;
    ReportRecordColumns(data, 0);
    ReportRecordColumns(data, 1);
  }

  /** The first report row carries the report's columns. */
  lemma ReportHeadShaped(products: seq<Product>, customers: seq<Customer>, today: string)
    ensures ReportShaped(ReportRows(products, customers, today)[0])
  {
  }

  lemma ProductRecords(data: seq<Row>, products: seq<Product>, today: string)
    requires |data| >= 2 + |products| && ReportShaped(data[0])
    requires forall i :: 0 <= i < |products| ==> data[2 + i] == ProductReportRow(products[i], today)
    ensures ProductsShown(products, Records(data, ValueText))
  {
    forall i | 0 <= i < |products|
      ensures ProductShown(products[i], Records(data, ValueText)[3 + i])
    {
      ProductRecord(data, 2 + i, products[i], today);
    }
  }

  lemma CustomerRecords(data: seq<Row>, products: seq<Product>, customers: seq<Customer>, today: string)
    requires |data| >= 2 + |products| + |customers| && ReportShaped(data[0])
    requires forall k :: 0 <= k < |customers| ==> data[2 + |products| + k] == CustomerReportRow(customers[k], today)
    ensures CustomersShown(products, customers, Records(data, ValueText))
  {
    forall k | 0 <= k < |customers|
      ensures CustomerShown(customers[k], Records(data, ValueText)[3 + |products| + k])
    {
      CustomerRecord(data, 2 + |products| + k, customers[k], today);
    }
  }

  /**
   * The report file reads back as its header, the two counts, the products
   * and then the customers; a customer's description is the name followed by
   * the email in parentheses, and its quantity is the number of purchases.
   */
  lemma ReportReadsBack(products: seq<Product>, customers: seq<Customer>, today: string, fileName: string)
    ensures DownloadCsv(ReportRows(products, customers, today), fileName).Ok?
    ensures var data := ReportRows(products, customers, today);
      var content := DownloadCsv(data, fileName).value.content;
      var recs := Records(data, ValueText);
      && |content| > 0 && ReadRecords(content[1..]) == recs
      && ReportFrameShown(products, customers, recs)
      && ProductsShown(products, recs)
      && CustomersShown(products, customers, recs)
  {
    ReportHeadersPlain(products, customers, today);
    DownloadCsvReadsBack(ReportRows(products, customers, today), fileName);
    ReportFrameRecords(products, customers, today);
    var data := ReportRows(products, customers, today);
    ReportHeadShaped(products, customers, today);
    forall i | 0 <= i < |products| ensures data[2 + i] == ProductReportRow(products[i], today) {
      ReportProductRow(products, customers, today, i);
    }
    forall k | 0 <= k < |customers| ensures data[2 + |products| + k] == CustomerReportRow(customers[k], today) {
      ReportCustomerRow(products, customers, today, k);
    }
    ProductRecords(data, products, today);
    CustomerRecords(data, products, customers, today);
  }
}

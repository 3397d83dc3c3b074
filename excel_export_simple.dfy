/**
 * The simple CSV exporter: only strings holding ',' or '"' are quoted, the
 * first ".xlsx" of the download name becomes ".csv", and the combined
 * report exports the customers when there are any, else the products.
 */
module ExcelExportSimple {
  import opened Wrappers
  import opened Strings
  import opened Catalog
  import opened Csv
  import opened Reports

  const NoData := "No hay datos para exportar."
  const NoProductsToExport := "No hay productos disponibles para exportar."
  const NoCustomersToExport := "No hay clientes disponibles para exportar."
  const NoReportData := "No hay datos disponibles para exportar."

  /** The number column of this exporter's rows. */
  const NumberKey := "Número"

  /** `fileName.replace('.xlsx', '.csv')`: only the first occurrence is rewritten. */
  function DownloadName(fileName: string): string {
    ReplaceFirst(fileName, ".xlsx", ".csv")
  }

  /** A name ending in its only ".xlsx" is saved under the same stem with ".csv". */
  lemma CsvNameOfXlsx(base: string)
    requires forall k :: !OccursAt(base, ".xlsx", k)
    ensures DownloadName(base + ".xlsx") == base + ".csv"
  {
    var s := base + ".xlsx";
    var n := |base|;
    assert s[n..n + 5] == ".xlsx";
    assert OccursAt(s, ".xlsx", n);
    var f := FindFrom(s, ".xlsx", 0);
    assert f.Some?;
    var m := f.value;
    if m < n {
      if m + 5 <= n {
        assert base[m..m + 5] == s[m..m + 5];
        assert OccursAt(base, ".xlsx", m);
      } else {
        XlsxNotStraddling(base, m);
      }
    }
    assert m == n;
    assert s[..n] == base;
    assert s[n + 5..] == [];
  }

  /** The ".xlsx" appended to a name cannot also be found starting inside the name. */
  lemma XlsxNotStraddling(base: string, m: nat)
    requires m < |base| < m + 5
    ensures !OccursAt(base + ".xlsx", ".xlsx", m)
  {
    var s := base + ".xlsx";
    var n := |base|;
    assert s[n] == '.';
    if m + 5 <= |s| {
      assert s[m..m + 5][n - m] == s[n];
    }
  }

  /**
   * `exportToCSV`: empty data is an error; otherwise the file holds the mark
   * and the header record followed by one record per row, quoted loosely.
   */
  function ExportToCsv(data: seq<Row>, fileName: string): (r: Result<Download, string>)
    ensures r.Err? <==> data == []
    ensures r.Err? ==> r.error == NoData
    ensures r.Ok? ==>
      r.value.fileName == DownloadName(fileName) && r.value.content == [Bom] + Assemble(data, LooseCell)
  {
    if data == [] then Err(NoData)
    else Ok(Download(DownloadName(fileName), [Bom] + Assemble(data, LooseCell)))
  }

  /**
   * When no value's string form holds a line break, an RFC 4180-style reader (LF line breaks)
   * recovers the header record and every row's values in header order.
   */
  lemma ExportToCsvReadsBack(data: seq<Row>, fileName: string)
    requires PlainHeaders(data) && NoLineBreaks(Records(data, ValueText))
    ensures ExportToCsv(data, fileName).Ok?
    ensures var content := ExportToCsv(data, fileName).value.content;
      |content| > 0 && content[0] == Bom && ReadRecords(content[1..]) == Records(data, ValueText)
  {
    LooseReadsBack(data);
    var content := ExportToCsv(data, fileName).value.content;
    assert content[1..] == Assemble(data, LooseCell);
  }

  /** The records of a one-column export whose only value holds a line break. */
  lemma LineBreakContent()
    ensures var data := [[Cell("Nombre", Text("a\nb"))]];
      Records(data, ValueText) == [["Nombre"], ["a\nb"]] &&
      Assemble(data, LooseCell) == "Nombre\na\nb"
  {
    var data := [[Cell("Nombre", Text("a\nb"))]];
    var recs := Records(data, LooseCell);
    assert Keys(data[0]) == ["Nombre"];
    RecordField(data, LooseCell, 0, 0);
    RecordField(data, ValueText, 0, 0);
    assert recs[1] == ["a\nb"];
    assert Records(data, ValueText)[1] == ["a\nb"];
    assert Join(recs[0], ",") == "Nombre";
    assert Join(recs[1], ",") == "a\nb";
    var lines := seq(|recs|, i requires 0 <= i < |recs| => Join(recs[i], ","));
    assert lines == ["Nombre", "a\nb"];
    assert lines[1..] == ["a\nb"];
    assert Content(recs) == Join(lines, "\n");
  }

  /** A field without separators or a leading quote, followed by the end of its line, is one record. */
  lemma ReadBareLine(x: string, tail: string)
    requires ',' !in x && '\n' !in x && (x == [] || x[0] != '"')
    requires tail == [] || tail[0] == '\n'
    ensures ReadRecord(x + tail) == Scan([x], tail)
  {
    ReadPlainBare(x, tail);
    assert x == [] ==> x + tail == tail;
  }

  /** The text "Nombre", line break, "a", line break, "b" reads as three records. */
  lemma ThreeLines()
    ensures ReadRecords("Nombre\na\nb") == [["Nombre"], ["a"], ["b"]]
  {
    var t3 := "b";
    var t2 := "\n" + t3;
    var t1 := "\n" + "a" + t2;
    ReadBareLine("b", "");
    assert t3 + "" == t3;
    ReadBareLine("a", t2);
    assert "a" + t2 == t1[1..];
    ReadBareLine("Nombre", t1);
    assert "Nombre" + t1 == "Nombre\na\nb";
    assert ReadRecords(t3) == [["b"]];
    assert ReadRecords(t1[1..]) == [["a"]] + ReadRecords(t3);
  }

  /**
   * A line break inside a value is written unquoted, so the two records of
   * the export read back as three.
   */
  lemma LineBreakSplitsRecord()
    ensures var data := [[Cell("Nombre", Text("a\nb"))]];
      && ExportToCsv(data, "lista.csv").Ok?
      && |Records(data, ValueText)| == 2
      && ReadRecords(ExportToCsv(data, "lista.csv").value.content[1..]) == [["Nombre"], ["a"], ["b"]]
  {
    var data := [[Cell("Nombre", Text("a\nb"))]];
    LineBreakContent();
    ThreeLines();
    var content := ExportToCsv(data, "lista.csv").value.content;
    assert content[1..] == Assemble(data, LooseCell);
  }

  /** `exportarProductosAExcel`: refuses an empty list; the default name carries the export day. */
  function ExportProducts(products: seq<Product>, fileName: Option<string>, today: string, now: string): (r: Result<Download, string>)
    ensures r.Err? <==> products == []
    ensures r.Err? ==> r.error == NoProductsToExport
    ensures r.Ok? ==> r == ExportToCsv(ProductRows(NumberKey, products, today), NameOr(fileName, "productos_" + Day(now) + ".csv"))
  {
    if products == [] then Err(NoProductsToExport)
    else ExportToCsv(ProductRows(NumberKey, products, today), NameOr(fileName, "productos_" + Day(now) + ".csv"))
  }

  /** `exportarClientesAExcel`: refuses an empty list; the default name carries the export day. */
  function ExportCustomers(customers: seq<Customer>, fileName: Option<string>, today: string, now: string): (r: Result<Download, string>)
    ensures r.Err? <==> customers == []
    ensures r.Err? ==> r.error == NoCustomersToExport
    ensures r.Ok? ==> r == ExportToCsv(CustomerRows(NumberKey, customers, today), NameOr(fileName, "clientes_" + Day(now) + ".csv"))
  {
    if customers == [] then Err(NoCustomersToExport)
    else ExportToCsv(CustomerRows(NumberKey, customers, today), NameOr(fileName, "clientes_" + Day(now) + ".csv"))
  }

  /** `exportarReporteCompleto`: the customers when there are any, else the products, else an error. */
  function ExportFullReport(products: seq<Product>, customers: seq<Customer>, fileName: Option<string>, today: string, now: string): Result<Download, string> {
    if customers != [] then
      ExportCustomers(customers, Some(NameOr(fileName, "reporte_completo_" + Day(now) + ".csv")), today, now)
    else if products != [] then
      ExportProducts(products, Some(NameOr(fileName, "reporte_productos_" + Day(now) + ".csv")), today, now)
    else Err(NoReportData)
  }

  /**
   * The combined report fails only when both lists are empty; otherwise it is
   * the customer file when there are customers and the product file when
   * there are none, under the given name or the report's own default.
   */
  lemma FullReportChoice(products: seq<Product>, customers: seq<Customer>, fileName: Option<string>, today: string, now: string)
    ensures var r := ExportFullReport(products, customers, fileName, today, now);
      && (r.Err? <==> products == [] && customers == [])
      && (r.Err? ==> r.error == NoReportData)
      && (customers != [] ==>
            r.Ok? &&
            r.value.content == [Bom] + Assemble(CustomerRows(NumberKey, customers, today), LooseCell) &&
            r.value.fileName == DownloadName(NameOr(fileName, "reporte_completo_" + Day(now) + ".csv")))
      && (customers == [] && products != [] ==>
            r.Ok? &&
            r.value.content == [Bom] + Assemble(ProductRows(NumberKey, products, today), LooseCell) &&
            r.value.fileName == DownloadName(NameOr(fileName, "reporte_productos_" + Day(now) + ".csv")))
  {
    var day := Day(now);
    if customers != [] {
      var name := NameOr(fileName, "reporte_completo_" + day + ".csv");
      assert name != "";
      assert NameOr(Some(name), "clientes_" + day + ".csv") == name;
    } else if products != [] {
      var name := NameOr(fileName, "reporte_productos_" + day + ".csv");
      assert name != "";
      assert NameOr(Some(name), "productos_" + day + ".csv") == name;
    }
  }
}

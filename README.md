# CRM core — a verified Dafny model

This project models the core of a small customer-relationship app for a
shop. The app keeps a catalogue of products and a list of customers, where
each customer carries the products they bought. On top of that it has:

- a storage layer with create, read, update and delete operations and purchase bookkeeping;
- sales statistics: total revenue, the best-selling products and revenue per product;
- form validation for products and customers;
- three CSV exporters with their product, customer and full-report exports;
- the request middleware's routing rule;
- the OAuth sign-in redirect address and the OAuth callback route;
- the fallback chains of the profile menu: initials, display name and avatar.

Modules follow the source files:

| module | file | models |
|---|---|---|
| `Wrappers` | wrappers.dfy | `Option`, `Result` |
| `Strings` | strings.dfy | ECMAScript `trim`, ASCII case mapping, `slice`, `split(c)[0]`, `startsWith`/`endsWith`, `replace` of the first occurrence, `join` |
| `NumberFormat` | number_format.dfy | decimal digits and `toFixed(2)` on exact decimals |
| `Lists` | lists.dfy | `find`/`findIndex`, `filter`, `map` with a replacement, `reduce` as a sum, stable descending `sort`, `slice(0, limit)` |
| `Catalog` | catalog.dfy | the `Product` and `Customer` records and their partial updates |
| `Analytics` | analytics.dfy | the statistics functions, and the tallies they build |
| `Storage` | storage.dfy | the `CatalogStore` class: the two stored lists as fields and every storage operation as a method |
| `Validation` | validation.dfy | the product and customer validators |
| `Csv` | csv.dfy | the CSV assembly shared by the exporters, and an RFC 4180-style reader (records separated by LF, as the exporters write them) to read it back |
| `Reports` | reports.dfy | export rows, export file names and the export day |
| `DataExport` | data_export.dfy | `src/lib/data-export.ts` |
| `ExcelExportSimple` | excel_export_simple.dfy | `src/lib/excel-export-simple.ts` |
| `ExportUtils` | export_utils.dfy | `src/lib/export-utils.ts` |
| `Middleware` | middleware.dfy | the routing decision of `src/middleware.ts` |
| `WebEncoding` | web_encoding.dfy | `encodeURIComponent` (UTF-8, percent-encoding) and `btoa` (base64 of Latin-1) |
| `AuthRedirect` | auth_redirect.dfy | the `redirectTo` address of the Google sign-in |
| `AuthCallback` | auth_callback.dfy | the OAuth callback route |
| `UserProfile` | user_profile.dfy | the initials, display name and avatar of the profile menu |

Values the app reads from its environment are parameters of the model:

- the current time, the locale date string and `crypto.randomUUID`;
- the browser origin and the environment variables;
- the signed-in user and their stored profile;
- the outcome of exchanging the OAuth code.

A download is represented by the file name and content the exporter would
hand to the browser. Prices are exact `real` numbers.

Main properties proved:

- Each storage method leaves its store in exactly the state the matching specification function describes.
- Adding a purchase is idempotent, and so is removing one.
- Total revenue is the sum of every purchase entry.
- The best-selling list is sorted, has distinct products, counts them correctly and is the top of the full tally.
- Revenue per product sums to the total revenue.
- Every field validator reports at most one error, none exactly on valid input, checking its rules in the source's order.
- The email check agrees with the source's regular expression.
- Every exporter's output reads back, through an RFC 4180-style reader with LF line breaks, as exactly the records it was built from. For the two simpler exporters, a value with a line break is an exception: it splits its record.
- The middleware never sets up a redirect loop.
- Every failed OAuth callback lands on the sign-in page.
- `encodeURIComponent` output percent-decodes to the UTF-8 bytes of the text. Base64 output decodes back to the bytes, and `btoa` output back to the character codes.

## Model

| member | source | states |
|---|---|---|
| Strings.TrimStart | src/lib/validation.ts:15 | the result is a suffix of the input; its first character is not ECMAScript white space; everything removed is white space |
| Strings.TrimEnd | src/lib/validation.ts:15 | the result is a prefix of the input; its last character is not white space; everything removed is white space |
| Strings.TrimEmptyIffAllSpace | src/lib/validation.ts:15 | `trim()` is empty exactly when every character is white space |
| Strings.TrimKeepsTrimmed | src/lib/validation.ts:26 | a string without leading or trailing white space is unchanged by trimming |
| Strings.Trim | src/lib/validation.ts:15 | `trim()` is no longer than its input and neither of its ends is white space |
| Strings.TrimCutsSpace | src/lib/validation.ts:15 | trimming cuts only white space: the result is a piece of the input between two runs of white space |
| Strings.Utf16Length | src/lib/validation.ts:19 | `length` counts UTF-16 code units: between one and two per character, and 0 only for the empty string |
| Strings.Utf16LengthBmp | src/lib/validation.ts:19 | text within the Basic Multilingual Plane has one code unit per character |
| Strings.AstralLength | src/lib/validation.ts:19 | one character beyond U+FFFF is two code units long |
| Strings.ToLower | src/lib/validation.ts:26 | the length is kept and each character is lower-cased on its own |
| Strings.ToUpper | src/components/UserProfile.tsx:45-52 | the length is kept and each character is upper-cased on its own |
| Strings.Take | src/components/UserProfile.tsx:48 | `slice(0, n)` as the first `min(n, length)` characters, counting characters rather than UTF-16 code units |
| Strings.Before | src/components/UserProfile.tsx:51 | `split(c)[0]` is a prefix free of `c`, and is followed by `c` when shorter than the input |
| Strings.JoinSeparates | src/lib/data-export.ts:127 | `join` of two or more parts puts the separator right after the first part |
| Strings.JoinEmptyIff | src/lib/data-export.ts:127 | `Join` with a non-empty separator is empty exactly when there is no part or one empty part |
| Strings.FindFrom | src/lib/excel-export-simple.ts:40 | finds the first occurrence of a pattern at or after a position, or reports that there is none |
| Strings.ReplaceFirst | src/lib/excel-export-simple.ts:40 | `replace` with a string pattern changes only the first occurrence, and changes nothing when there is none |
| NumberFormat.DigitChar | src/lib/data-export.ts:103 | a digit value becomes the matching decimal digit character |
| NumberFormat.NatToString | src/lib/data-export.ts:126 | a natural number is written as digits with no leading zero |
| NumberFormat.NatToStringRoundTrip | src/lib/data-export.ts:126 | the written digits read back as the number |
| NumberFormat.NatToStringInjective | src/lib/data-export.ts:126 | different numbers are written differently |
| NumberFormat.RoundedCents | src/lib/data-export.ts:103 | the cents `Fixed2` writes are within half a cent of the value, with halves rounded up |
| NumberFormat.TwoDigitsValue | src/lib/data-export.ts:103 | the two fraction digits read back as the cents below one unit |
| NumberFormat.Fixed2Exact | src/lib/data-export.ts:103 | `Fixed2`, which is `toFixed(2)`: for a whole number of cents the text has the shape `d+.dd` and reads back as the value |
| Lists.FindFirst | src/lib/storage.ts:43 | `findIndex`: the first index that satisfies the predicate, or none when no element does |
| Lists.Filter | src/lib/storage.ts:61 | keeps exactly the elements that satisfy the predicate, and no others |
| Lists.FilterAppend | src/lib/storage.ts:61 | filtering distributes over concatenation |
| Lists.FilterLength | src/lib/storage.ts:61-63 | the filtered list is as long as the input exactly when every element is kept |
| Lists.FilterAll | src/lib/storage.ts:152 | a filter that keeps every element returns the list unchanged |
| Lists.ReplaceWhere | src/lib/storage.ts:136-138 | `map(c => p(c) ? y : c)`: the same length, with every matching element replaced and the others kept |
| Lists.SumOfAppend | src/lib/storage.ts:176-180 | summing distributes over concatenation |
| Lists.SumOfPermutation | src/lib/storage.ts:176-180 | the sum does not depend on the order of the elements |
| Lists.SliceEnd | src/lib/storage.ts:200 | where `slice(0, limit)` ends, negative limits counting from the end |
| Lists.InsertDescElements | src/lib/storage.ts:199 | an insertion keeps the elements and adds one |
| Lists.InsertDescSorted | src/lib/storage.ts:199 | inserting into a list in descending order keeps it in descending order |
| Lists.SliceDominates | src/lib/storage.ts:199-200 | every kept element of a sorted list outranks every element left out |
| Lists.SortDescCorrect | src/lib/storage.ts:199 | `SortDesc`, the `sort((a, b) => b.key - a.key)` used by both rankings, returns a list in descending key order that is a permutation of the input |
| Lists.DistinctKeysMultiplicity | src/lib/storage.ts:187-195 | in a list with distinct keys, each element occurs at most once |
| Lists.PermutationKeepsKeysDistinct | src/lib/storage.ts:199 | a permutation of a list with distinct keys has distinct keys |
| Catalog.ApplyProductUpdate | src/lib/storage.ts:48-52 | `{ ...product, ...updates }`: the id is kept; each field given is overwritten and each one absent is kept |
| Catalog.ApplyCustomerUpdate | src/lib/storage.ts:97-101 | the same for customers, purchases included |
| Storage.FindProduct | src/lib/storage.ts:26-29 | `find`: the first product with the id, or none when none has it |
| Storage.FindCustomer | src/lib/storage.ts:74-77 | the first customer with the id, or none when none has it |
| Storage.AddPurchaseFails | src/lib/storage.ts:118-127 | `AddPurchase`, the function form of `addProductToCustomer`, fails exactly when the customer or the product is unknown, and a failure changes nothing |
| Storage.FindAfterReplace | src/lib/storage.ts:136-138 | after the update the customer is found as updated |
| Storage.AddPurchaseFrame | src/lib/storage.ts:129-141 | after `AddPurchase`, other customers are untouched, and on success the customer has the product |
| Storage.AddPurchaseIdempotent | src/lib/storage.ts:129 | `AddPurchase` of a product that is already there succeeds and changes nothing |
| Storage.RemovePurchaseCorrect | src/lib/storage.ts:144-161 | `RemovePurchase`, the function form of `removeProductFromCustomer`, fails exactly for an unknown customer; other customers are untouched; the customer no longer has the product |
| Storage.RemovePurchaseIdempotent | src/lib/storage.ts:144-161 | `RemovePurchase` twice is the same as once |
| Storage.CatalogStore.constructor | src/lib/storage.ts:11-15 | a store with nothing saved yet holds no products and no customers |
| Storage.CatalogStore.GetProductById | src/lib/storage.ts:26-29 | the product lookup on the stored list |
| Storage.CatalogStore.GetCustomerById | src/lib/storage.ts:74-77 | the customer lookup on the stored list |
| Storage.CatalogStore.CreateProduct | src/lib/storage.ts:31-39 | the new product has the given id and fields and is appended; customers are unchanged |
| Storage.CatalogStore.UpdateProduct | src/lib/storage.ts:41-57 | none is returned exactly when no product has the id, and then nothing changes; otherwise the first product with the id is replaced by the updated one |
| Storage.CatalogStore.DeleteProduct | src/lib/storage.ts:59-67 | the result is true exactly when a product had the id; every product with that id is gone and the rest are kept |
| Storage.CatalogStore.CreateCustomer | src/lib/storage.ts:79-88 | the new customer has no purchases and is appended; products are unchanged |
| Storage.CatalogStore.UpdateCustomer | src/lib/storage.ts:90-106 | as for products |
| Storage.CatalogStore.DeleteCustomer | src/lib/storage.ts:108-116 | as for products |
| Storage.CatalogStore.AddProductToCustomer | src/lib/storage.ts:118-142 | the result and the new customer list are those of the purchase-adding function |
| Storage.CatalogStore.RemoveProductFromCustomer | src/lib/storage.ts:144-161 | the result and the new customer list are those of the purchase-removing function |
| Storage.CatalogStore.GetTotalProducts | src/lib/storage.ts:166-168 | the number of stored products |
| Storage.CatalogStore.GetTotalCustomers | src/lib/storage.ts:170-172 | the number of stored customers |
| Storage.CatalogStore.GetTotalRevenue | src/lib/storage.ts:174-181 | the nested `reduce` over customers and their purchases, `Analytics.TotalRevenue` of the stored customers, is the sum of the prices of all purchase entries; it is 0 with no customers |
| Storage.CatalogStore.GetMostSoldProducts | src/lib/storage.ts:183-201 | the loops build the sales tally whose sorted prefix the best-selling function describes |
| Storage.CatalogStore.GetRevenueByProduct | src/lib/storage.ts:203-219 | the loops build the revenue tally whose sorted form the revenue function describes |
| Analytics.PurchasesStep | src/lib/storage.ts:186-187 | one more customer appends their purchases to the flattened list |
| Analytics.TotalRevenueSumsPurchases | src/lib/storage.ts:174-181 | `TotalRevenue`, the sum of per-customer totals, is the sum over all purchase entries |
| Analytics.TotalRevenueOrderIndependent | src/lib/storage.ts:174-181 | reordering the customers does not change the total revenue |
| Analytics.FirstWithId | src/lib/storage.ts:189-192 | the first entry with a product id, or none when no entry has it |
| Analytics.IdSetSnoc | src/lib/storage.ts:187-195 | one more entry adds its id to the set of ids |
| Analytics.OccurrencesOfAbsentId | src/lib/storage.ts:187-195 | a product never bought has no sales and no revenue |
| Analytics.SalesIndex | src/lib/storage.ts:189 | `productSales[id]`: the tally entry for an id, or none when the id is not yet tallied |
| Analytics.SalesTallyStep | src/lib/storage.ts:188-194 | the inner loop's step counts one more entry |
| Analytics.SalesIdsSnoc | src/lib/storage.ts:190-192 | a new tally entry adds its id |
| Analytics.CountSaleToExisting | src/lib/storage.ts:193 | incrementing the count of a known product keeps the tally correct |
| Analytics.CountSaleToNew | src/lib/storage.ts:190-192 | a first sale starts the count at 1 and keeps the tally correct |
| Analytics.CountSaleStep | src/lib/storage.ts:189-193 | counting one entry keeps the tally correct |
| Analytics.SalesTallyCorrect | src/lib/storage.ts:185-195 | the tally holds one entry per distinct id, with its number of purchases and the first snapshot bought |
| Analytics.DistinctSalesSize | src/lib/storage.ts:187-195 | a tally with distinct ids has as many ids as entries |
| Analytics.MostSoldInTally | src/lib/storage.ts:183-201 | `MostSoldProducts`, the result of `getMostSoldProducts`, is a sorted permutation of the sales tally, cut by `slice(0, limit)` |
| Analytics.MostSoldCounts | src/lib/storage.ts:183-201 | every ranked entry carries its product's number of sales and its first snapshot |
| Analytics.MostSoldSortedDistinct | src/lib/storage.ts:197-200 | the counts do not increase along the ranking, and no product appears twice |
| Analytics.MostSoldLength | src/lib/storage.ts:200 | the ranking has `slice(0, limit)` of the number of distinct products sold |
| Analytics.SortedEntryFor | src/lib/storage.ts:197-199 | every product sold has its entry in the sorted tally |
| Analytics.MostSoldIsTop | src/lib/storage.ts:197-200 | a product sold but not ranked has no more sales than any ranked product |
| Analytics.RevenueIndex | src/lib/storage.ts:208 | `productRevenue[id]`: the tally entry for an id, or none |
| Analytics.RevenueTallyStep | src/lib/storage.ts:207-214 | the inner loop's step adds one more price |
| Analytics.SumOfRaise | src/lib/storage.ts:212 | raising one entry's revenue raises the sum by the same amount |
| Analytics.AddRevenueToExisting | src/lib/storage.ts:212 | adding a price to a known product keeps the tally correct |
| Analytics.AddRevenueToNew | src/lib/storage.ts:208-211 | a first sale starts the revenue at its price and keeps the tally correct |
| Analytics.AddRevenueStep | src/lib/storage.ts:208-212 | adding one entry keeps the tally correct |
| Analytics.RevenueTallyCorrect | src/lib/storage.ts:205-215 | one entry per distinct id, with the sum of its prices and its first snapshot |
| Analytics.AddRevenueSum | src/lib/storage.ts:208-212 | each step raises the tally's sum by the price added |
| Analytics.RevenueTallySum | src/lib/storage.ts:205-215 | the tally's revenues sum to the sum of all purchase prices |
| Analytics.RevenueIdsSnoc | src/lib/storage.ts:208-211 | a new revenue entry adds its id |
| Analytics.DistinctRevenueSize | src/lib/storage.ts:205-215 | distinct ids: as many ids as entries |
| Analytics.RevenueByProductCorrect | src/lib/storage.ts:203-219 | `RevenueByProduct`, the result of `getRevenueByProduct`, has one entry per distinct product, in non-increasing revenue order, each with its revenue and first snapshot, summing to the total revenue |
| Validation.ValidateProductName | src/lib/validation.ts:14-35 | an error is always about the name field; the length tests count UTF-16 code units, as `length` does |
| Validation.ProductNameRules | src/lib/validation.ts:14-35 | required iff all white space; too short iff under 2 UTF-16 code units after trimming; duplicate iff another product has the same case-insensitive trimmed name; otherwise valid |
| Validation.OwnNameAccepted | src/lib/validation.ts:24-32 | a product keeping its own unique name is accepted when its id is excluded and is a duplicate otherwise |
| Validation.NameTakenIgnoresCase | src/lib/validation.ts:26 | the duplicate test does not depend on the case of the typed name |
| Validation.ValidateProductPrice | src/lib/validation.ts:37-57 | an error is always about the price field |
| Validation.ProductPriceRules | src/lib/validation.ts:37-57 | required iff missing; negative iff below 0; too high iff above 10000; too precise iff inside the range but not a whole number of cents; otherwise valid |
| Validation.PriceBoundsAccepted | src/lib/validation.ts:42-54 | 0 and 10000 are accepted; 0.001 is too precise; 10000.01 is too high |
| Validation.ValidateCustomerName | src/lib/validation.ts:75-85 | an error is always about the name field; the length tests count UTF-16 code units |
| Validation.CustomerNameRules | src/lib/validation.ts:75-85 | required iff all white space; too short iff under 2 UTF-16 code units after trimming; otherwise valid |
| Validation.AstralNameAccepted | src/lib/validation.ts:19-21 | a name of one character beyond U+FFFF counts as two code units and is accepted; a single letter is too short |
| Validation.BeforeFirst | src/lib/validation.ts:93 | the part before the first `@` has the position of that `@` as its length |
| Validation.EmailFormatMatches | src/lib/validation.ts:93-94 | an address of the form local@domain.tld matches the regular expression |
| Validation.SegmentsClean | src/lib/validation.ts:93 | a matching address has no white space and exactly one `@` |
| Validation.PatternMatchesEmailFormat | src/lib/validation.ts:93-94 | whatever the regular expression matches has that form |
| Validation.EmailFormatMatchesPattern | src/lib/validation.ts:93-94 | the scan `IsEmailFormat` agrees with `/^[^\s@]+@[^\s@]+\.[^\s@]+$/` in both directions |
| Validation.ValidateCustomerEmail | src/lib/validation.ts:87-110 | an error is always about the email field |
| Validation.CustomerEmailRules | src/lib/validation.ts:87-110 | required iff all white space; malformed iff the trimmed address does not match; duplicate iff another customer has the same case-insensitive trimmed address; otherwise valid |
| Validation.AsList | src/lib/validation.ts:62-66 | a field's error as a list of zero or one errors |
| Validation.CollectedErrors | src/lib/validation.ts:59-72 | at most two errors, none exactly when both fields pass, in field order |
| Validation.ValidateProduct | src/lib/validation.ts:59-72 | the errors are the name error followed by the price error; valid iff there are none |
| Validation.ValidateCustomer | src/lib/validation.ts:112-125 | the errors are the name error followed by the email error; valid iff there are none |
| Csv.Keys | src/lib/data-export.ts:50 | the header line is the first row's keys, in order |
| Csv.LookupFirst | src/lib/data-export.ts:55 | `row[header]` is the value under that key, or missing |
| Csv.Records | src/lib/data-export.ts:49-57 | a header record followed by one record per row, each as wide as the header |
| Csv.RecordField | src/lib/data-export.ts:55 | each field is the formatted value of its row under that header |
| Csv.LooseCell | src/lib/excel-export-simple.ts:22-30 | text with a comma or a quote is quoted with its quotes doubled; every other value is written as it is |
| Csv.Escape | src/lib/data-export.ts:30 | doubling quotes never shortens the text |
| Csv.CollapseEscape | src/lib/data-export.ts:30 | undoubling the doubled quotes gives the text back |
| Csv.UnquoteQuote | src/lib/data-export.ts:29-31 | unquoting a quoted field gives the value back |
| Csv.EncodeAll | src/lib/data-export.ts:49-57 | each field of each record is encoded on its own |
| Csv.ReadQuotedEscaped | src/lib/data-export.ts:29-31 | reading a quoted field gives back the original text and the rest of the input |
| Csv.ReadPlainBare | src/lib/data-export.ts:33 | reading an unquoted field gives back the text and the rest |
| Csv.ReadFieldEncoded | src/lib/data-export.ts:21-34 | any field written by `EncodeField`, the RFC 4180 quoting of `formatCSVValue`, reads back as its text |
| Csv.WriteRecordCons | src/lib/data-export.ts:55 | a written record is its first field, a comma, then the rest |
| Csv.ReadRecordWritten | src/lib/data-export.ts:55 | a written record reads back as its fields |
| Csv.ReadRecordsWritten | src/lib/data-export.ts:49-57 | written records read back as the records |
| Csv.ContentOfEncoded | src/lib/data-export.ts:49-57 | joining the encoded fields is writing the records |
| Csv.WrittenIsEncoded | src/lib/data-export.ts:49-57 | the records `Assemble` writes are the encoded raw records |
| Csv.AssembledReadsBack | src/lib/data-export.ts:49-57 | content that `Assemble` builds (header line, then one line per row, joined by line feeds) with any field writer that quotes where needed reads back as the raw records |
| Csv.IntTextPlain | src/lib/data-export.ts:126 | a number's text never needs quotes |
| Csv.LooseCellEncodes | src/lib/excel-export-simple.ts:22-30 | without line breaks, the simpler exporters' cell writer writes what the RFC 4180 encoder writes |
| Csv.LooseReadsBack | src/lib/excel-export-simple.ts:15-32 | content without line breaks, built by the simpler cell writer, reads back as the raw records |
| Reports.Day | src/lib/data-export.ts:107 | `toISOString().split('T')[0]` is a prefix of the timestamp free of `T` |
| Reports.NameOr | src/lib/data-export.ts:107 | `fileName \|\| fallback`: a non-empty name wins |
| Reports.PurchaseNames | src/lib/data-export.ts:127 | the names of the purchases, in order |
| Reports.ProductList | src/lib/data-export.ts:127 | the names joined by `; `, or `Ninguno` when that join is empty |
| Reports.ProductListNinguno | src/lib/data-export.ts:127 | the list reads `Ninguno` exactly when nothing was bought, or one product was bought whose name is empty or is `Ninguno` |
| Reports.ProductRows | src/lib/data-export.ts:99-105 | one row per product, numbered from 1 |
| Reports.CustomerRows | src/lib/data-export.ts:121-130 | one row per customer, numbered from 1 |
| Reports.CustomerRowKeys | src/lib/data-export.ts:121-130 | the customer columns, in order |
| Reports.CustomerRowColumns | src/lib/data-export.ts:121-130 | each customer column holds the value the source puts there |
| Reports.CentsAdd | src/lib/data-export.ts:128 | a sum of whole numbers of cents is a whole number of cents |
| Reports.PriceSumExact | src/lib/data-export.ts:128 | the total spent is a whole number of cents when each price is |
| Reports.TotalReadsBack | src/lib/data-export.ts:128 | the written total has the shape `d+.dd` and reads back as the sum of the prices |
| DataExport.FormatCsvValue | src/lib/data-export.ts:21-34 | a missing value is empty; a value with a comma, quote or line break is quoted and unquotes back; any other value is written as it is |
| DataExport.DownloadCsv | src/lib/data-export.ts:42-87 | an error iff there are no rows; otherwise the file has the name given and the content is a byte-order mark and the assembled records |
| DataExport.DownloadCsvReadsBack | src/lib/data-export.ts:49-60 | with plain headers, the content after the byte-order mark reads back as the raw records |
| DataExport.ExportProducts | src/lib/data-export.ts:94-109 | an error iff there are no products; otherwise the product rows under the given name or `productos_<day>.csv` |
| DataExport.ExportCustomers | src/lib/data-export.ts:116-134 | an error iff there are no customers; otherwise the customer rows under the given name or `clientes_<day>.csv` |
| DataExport.LookupCustomerColumns | src/lib/data-export.ts:121-130 | the number, name and purchase-count columns are found under their headers |
| DataExport.CustomerKeysPlain | src/lib/data-export.ts:121-130 | no customer header needs quotes |
| DataExport.CustomerHeadersPlain | src/lib/data-export.ts:121-130 | customer rows have plain headers, in the source's order |
| DataExport.CustomerExportRecord | src/lib/data-export.ts:121-130 | customer `k`'s record holds the number `k + 1`, the customer's name and the number of purchases |
| DataExport.ExportCustomersReadsBack | src/lib/data-export.ts:116-134 | the exported file reads back as the header record in the source's column order, then one record per customer with its number, name and purchase count |
| DataExport.ProductReportRows | src/lib/data-export.ts:172-182 | one report row per product |
| DataExport.CustomerReportRows | src/lib/data-export.ts:185-196 | one report row per customer |
| DataExport.ReportRows | src/lib/data-export.ts:155-196 | two `SummaryRow`s holding the counts, then the `ProductReportRow`s and the `CustomerReportRow`s |
| DataExport.ReportProductRow | src/lib/data-export.ts:172-182 | the product rows come right after the summary |
| DataExport.ReportCustomerRow | src/lib/data-export.ts:185-196 | the customer rows come after the product rows |
| DataExport.ProductReportRowsSnoc | src/lib/data-export.ts:173-181 | the product loop's step appends one row |
| DataExport.CustomerReportRowsSnoc | src/lib/data-export.ts:186-195 | the customer loop's step appends one row |
| DataExport.ExportFullReport | src/lib/data-export.ts:142-200 | an error iff both lists are empty; otherwise the loops build the report rows under the given name or `reporte_completo_<day>.csv` |
| DataExport.LookupReportColumns | src/lib/data-export.ts:155-196 | the report columns are found under their headers |
| DataExport.ReportKeysPlain | src/lib/data-export.ts:155-169 | no report header needs quotes |
| DataExport.ReportHeadersPlain | src/lib/data-export.ts:155-169 | the report has plain headers `Tipo, Descripción, Cantidad, Valor, Fecha` |
| DataExport.ReportRecordColumns | src/lib/data-export.ts:172-196 | each report record holds the text of the row's five columns |
| DataExport.ProductRecord | src/lib/data-export.ts:172-182 | the record of a `ProductReportRow` is of type `PRODUCTO`, with the product's name and a quantity of 1 |
| DataExport.CustomerRecord | src/lib/data-export.ts:185-196 | the record of a `CustomerReportRow` is of type `CLIENTE`, with `name (email)` and the number of purchases |
| DataExport.ReportFrameRecords | src/lib/data-export.ts:155-169 | the report has three records more than products and customers together, each five wide, and the records of the two `SummaryRow`s hold the two counts |
| DataExport.ReportHeadShaped | src/lib/data-export.ts:155-160 | the first row has the report's five columns |
| DataExport.ProductRecords | src/lib/data-export.ts:172-182 | every product has its report record |
| DataExport.CustomerRecords | src/lib/data-export.ts:185-196 | every customer has their report record after the products |
| DataExport.ReportReadsBack | src/lib/data-export.ts:142-200 | the report file reads back as the summary, product and customer records |
| ExcelExportSimple.CsvNameOfXlsx | src/lib/excel-export-simple.ts:40 | `DownloadName`, the `replace('.xlsx', '.csv')` of the download name: a name ending in its only `.xlsx` is saved under the same name ending in `.csv` |
| ExcelExportSimple.XlsxNotStraddling | src/lib/excel-export-simple.ts:40 | no `.xlsx` occurrence straddles the end of a name without one |
| ExcelExportSimple.ExportToCsv | src/lib/excel-export-simple.ts:9-46 | an error iff there are no rows; otherwise a byte-order mark and the records with commas and quotes quoted, under the name with `.xlsx` replaced |
| ExcelExportSimple.ExportToCsvReadsBack | src/lib/excel-export-simple.ts:15-35 | with no line breaks in the values, the content reads back as the raw records |
| ExcelExportSimple.LineBreakContent | src/lib/excel-export-simple.ts:22-30 | a value `a` newline `b` is written without quotes |
| ExcelExportSimple.ReadBareLine | src/lib/excel-export-simple.ts:32 | a line without commas or quotes reads as one field |
| ExcelExportSimple.ThreeLines | src/lib/excel-export-simple.ts:32 | that content reads as three records |
| ExcelExportSimple.LineBreakSplitsRecord | src/lib/excel-export-simple.ts:9-46 | a one-row export with a line break in a value reads back as three records, not two |
| ExcelExportSimple.ExportProducts | src/lib/excel-export-simple.ts:51-66 | an error iff there are no products; otherwise the product rows under the given name or `productos_<day>.csv` |
| ExcelExportSimple.ExportCustomers | src/lib/excel-export-simple.ts:71-89 | the same for customers and `clientes_<day>.csv` |
| ExcelExportSimple.FullReportChoice | src/lib/excel-export-simple.ts:94-107 | `ExportFullReport`: an error iff both lists are empty; customers, when present, are exported alone; otherwise products alone, each with its own default name |
| ExportUtils.DownloadCsv | src/lib/export-utils.ts:7-46 | an alert iff there are no rows; otherwise the file under the name given holds a byte-order mark and the records with commas and quotes quoted |
| ExportUtils.DownloadCsvReadsBack | src/lib/export-utils.ts:14-32 | with no line breaks in the values, the content reads back as the raw records |
| ExportUtils.ProductRows | src/lib/export-utils.ts:57-63 | one row per product, numbered from 1 |
| ExportUtils.CustomerRows | src/lib/export-utils.ts:78-86 | one row per customer, numbered from 1 |
| ExportUtils.ProductRowColumns | src/lib/export-utils.ts:57-63 | the columns in order; the number is the position plus one; the price is `€` and two decimals |
| ExportUtils.CustomerRowColumns | src/lib/export-utils.ts:78-86 | the columns in order; the purchase count; the total spent as `€` and two decimals |
| ExportUtils.ExportProducts | src/lib/export-utils.ts:51-67 | an alert iff there are no products; otherwise the product rows under `productos_<day>.csv` |
| ExportUtils.ExportCustomers | src/lib/export-utils.ts:72-90 | an alert iff there are no customers; otherwise the customer rows under `clientes_<day>.csv` |
| ExportUtils.ExportCompleteReport | src/lib/export-utils.ts:95-107 | an alert iff both lists are empty; otherwise the customer export when there are customers, else the product export |
| Middleware.Route | src/middleware.ts:40-54 | to the dashboard iff signed in on a sign-in page or the root; to the sign-in page iff anonymous on a non-public page; otherwise through |
| Middleware.NoRedirectLoop | src/middleware.ts:40-54 | following a redirect with the same sign-in state is let through |
| Middleware.AuthRoutesOpen | src/middleware.ts:50 | every page under `/auth/` is open to anonymous users |
| WebEncoding.HexDigit | src/app/auth/callback/route.ts:16 | a nibble becomes an upper-case hexadecimal digit |
| WebEncoding.HexValue | src/app/auth/callback/route.ts:16 | a digit's value is a nibble |
| WebEncoding.Utf8 | src/app/auth/callback/route.ts:16 | a character takes one to four UTF-8 bytes; ASCII takes itself |
| WebEncoding.Percent | src/app/auth/callback/route.ts:16 | each byte becomes three characters |
| WebEncoding.EncodeUriComponent | src/app/auth/callback/route.ts:16 | every output character is unreserved, `%` or a hexadecimal digit; unreserved text is kept |
| WebEncoding.PercentSafe | src/app/auth/callback/route.ts:16 | percent-encoded bytes use only those characters |
| WebEncoding.HexPair | src/app/auth/callback/route.ts:16 | two hexadecimal digits read back as their byte |
| WebEncoding.PercentHead | src/app/auth/callback/route.ts:16 | one escaped byte decodes back |
| WebEncoding.PercentRoundTrip | src/app/auth/callback/route.ts:16 | percent-encoded bytes decode back |
| WebEncoding.EncodeUriComponentDecodes | src/app/auth/callback/route.ts:16 | `decodeURIComponent`'s byte step gives back the UTF-8 bytes of the text |
| WebEncoding.Sextet | src/components/UserProfile.tsx:82 | a six-bit value is a base64 letter, never the padding |
| WebEncoding.SextetValue | src/components/UserProfile.tsx:82 | a base64 letter's value fits in six bits |
| WebEncoding.SextetRoundTrip | src/components/UserProfile.tsx:82 | letters read back as their values |
| WebEncoding.First | src/components/UserProfile.tsx:82 | the first sextet of a group fits in six bits |
| WebEncoding.Second | src/components/UserProfile.tsx:82 | the second sextet fits |
| WebEncoding.Third | src/components/UserProfile.tsx:82 | the third sextet fits |
| WebEncoding.Fourth | src/components/UserProfile.tsx:82 | the fourth sextet fits |
| WebEncoding.Base64 | src/components/UserProfile.tsx:82 | every three bytes, or the padded rest, become four letters |
| WebEncoding.GroupRoundTrip | src/components/UserProfile.tsx:82 | the sextets of a group rebuild its three bytes |
| WebEncoding.GroupDecodes | src/components/UserProfile.tsx:82 | a group of four letters decodes back to its bytes |
| WebEncoding.Base64RoundTrip | src/components/UserProfile.tsx:82 | base64 decodes back to the bytes |
| WebEncoding.Latin1 | src/components/UserProfile.tsx:82 | succeeds iff every character is at most U+00FF, which gives the bytes |
| WebEncoding.Btoa | src/components/UserProfile.tsx:82 | fails, just as `btoa` throws, iff a character is above U+00FF; otherwise four letters per three characters |
| WebEncoding.BtoaDecodes | src/components/UserProfile.tsx:82 | `btoa`'s output decodes back to the character codes |
| AuthRedirect.SiteUrl | src/lib/auth.ts:42-52 | the browser's origin; on the server the site setting, else the deployment host over https, else the local address |
| AuthRedirect.WithProtocol | src/lib/auth.ts:55-57 | an address without `http` at its start gets `https://` |
| AuthRedirect.DropTrailingSlash | src/lib/auth.ts:58 | one trailing slash is removed |
| AuthRedirect.RedirectUrl | src/lib/auth.ts:42-59 | the address starts with `http` and ends with `/auth/callback` |
| AuthRedirect.CleanSiteKept | src/lib/auth.ts:55-59 | a clean address is used as it is |
| AuthRedirect.TrailingSlashIgnored | src/lib/auth.ts:58-59 | an origin with one trailing slash reaches the same callback as without it |
| AuthRedirect.BareHostGetsHttps | src/lib/auth.ts:55-59 | a bare host is reached over https |
| AuthRedirect.LocalFallback | src/lib/auth.ts:50-52 | a server without settings uses `http://localhost:3000/auth/callback` |
| AuthRedirect.DeploymentHost | src/lib/auth.ts:50-52 | a server with only a deployment host uses it over https |
| AuthCallback.Next | src/app/auth/callback/route.ts:7 | `next ?? '/dashboard'`: only an absent parameter falls back |
| AuthCallback.Callback | src/app/auth/callback/route.ts:4-47 | a provider error goes to `oauth_error` with its details encoded; a code goes to `next` or, on failure, to `auth_error` with the message or `Unknown error`; otherwise `invalid_request` |
| AuthCallback.ErrorTakesPrecedence | src/app/auth/callback/route.ts:13-18 | with a provider error, neither the code nor the exchange matters |
| AuthCallback.NextDefaults | src/app/auth/callback/route.ts:7 | without `next` the user lands on the dashboard; an empty `next` lands on the origin |
| AuthCallback.PrefixKept | src/app/auth/callback/route.ts:16 | a prefix of the prefix is kept |
| AuthCallback.FailuresGoToLogin | src/app/auth/callback/route.ts:13-46 | every outcome but a successful exchange goes to `/login?error=`; a provider error cannot add a parameter or a fragment |
| UserProfile.UpperOfToUpper | src/components/UserProfile.tsx:45 | upper-casing leaves no lower-case letter |
| UserProfile.Initials | src/components/UserProfile.tsx:43-55 | both names' first letters; else two letters of the first name; else of the e-mail's local part; else `U`; upper-case and at most two characters |
| UserProfile.InitialsEmptyIff | src/components/UserProfile.tsx:43-55 | the initials are empty exactly when they come from an e-mail that starts with `@` |
| UserProfile.DisplayName | src/components/UserProfile.tsx:58-66 | both names with a space; else the first name; else the e-mail; else `Usuario`; never empty |
| UserProfile.Gravatar | src/components/UserProfile.tsx:82-83 | fails iff the trimmed lower-cased e-mail has a character above U+00FF; otherwise an address |
| UserProfile.AvatarUrl | src/components/UserProfile.tsx:69-87 | the provider's avatar; else the profile's; else the e-mail stand-in; none iff all three are missing |
| UserProfile.Between | src/components/UserProfile.tsx:83 | the middle of a three-part string is the middle part |
| UserProfile.GravatarDecodes | src/components/UserProfile.tsx:82-83 | the address is the prefix, the base64 of the trimmed lower-cased e-mail and the query, and the identifier decodes back |
| UserProfile.GravatarFallback | src/components/UserProfile.tsx:76-85 | without a provider or profile avatar, a user with an e-mail gets the stand-in, never no avatar |

## Left out

- Persistence: `localStorage`, JSON, and the `typeof window` guard in `getItem`/`setItem` (src/lib/storage.ts:1-22) are left out. The store's two lists are fields of `CatalogStore`.
- `crypto.randomUUID()` is a parameter (`newId`), and its uniqueness is not assumed.
- Prices are exact reals. Floating-point addition and the binary representation of prices are not modelled.
- ValidateProductPrice: the "more than two decimals" test is stated as "not a whole number of cents". This does not model `toString` printing small or large numbers in exponent form (for example `1e-7`), where the source's digit count differs.
- Strings.ToLower: only ASCII letters change case. Unicode case mapping of `toLowerCase`/`toUpperCase` is not modelled.
- Strings.Take: positions count characters (Unicode scalar values), not the UTF-16 code units `slice` counts. The two differ only for characters beyond U+FFFF.
- UserProfile.Initials: `charAt(0)` and `slice(0, 2)` (src/components/UserProfile.tsx:45, 48, 52) count UTF-16 code units, the model counts characters. For a first name "😀ab" and no last name, the source shows "😀" and the model "😀A". `charAt(0)` of a character beyond U+FFFF yields a lone surrogate, which a Dafny `char` cannot hold.
- Lists.SortDescCorrect: stability of `Array.prototype.sort` is built into the insertion sort, but no lemma states it. Ties are ordered by first appearance.
- Analytics.SalesTallyCorrect: a JavaScript object lists integer-like keys first, in numeric order. The tallies keep first-seen order for every id. Ids from `randomUUID` are never integer-like.
- NumberFormat.Fixed2Exact: `toFixed` switches to exponent notation at 1e21 or above; that is not modelled.
- Dates: `new Date().toISOString()` and `toLocaleDateString` are parameters (`now`, `today`). Locale formatting is not modelled.
- Downloads: the Blob, the object URL, the link element and its click are not modelled. An export yields the file name and content it would download.
- DataExport.DownloadCsv: the `try`/`catch` of `downloadCSV` (src/lib/data-export.ts:47-86), which logs a failure and rethrows it as "Error al generar el archivo de exportación", is not modelled. Only the browser download steps inside it can fail, and those are not modelled.
- `validarSoporteDescarga` (src/lib/data-export.ts:205-210, src/lib/excel-export-simple.ts:112-117) only probes browser features, so it has no model.
- src/lib/excel-export.ts, categories (src/types/category.ts), chat, activities and the React pages are not part of this model.
- The middleware's session refresh (`updateSession`), its Supabase `getUser` call and its `matcher` configuration are not modelled. The signed-in state is a parameter.
- `signInWithOAuth` is not modelled; only the `redirectTo` address it is given is.
- The code exchange with Supabase is a parameter (an `Exchange`). Console logging is left out.
- WebEncoding.EncodeUriComponent: `encodeURIComponent` throws on a lone UTF-16 surrogate. Dafny characters are Unicode scalar values, so that case cannot arise in the model.
- UserProfile.Gravatar: like the source, the identifier is the base64 of the e-mail, not a digest.
- UserProfile: the React state, loading and sign-out handling around the three helpers are not modelled.

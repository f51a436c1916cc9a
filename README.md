# Louis Vuitton crawler: a Dafny model

This project models `main.py` of the Louis Vuitton crawler. The crawler's
`LouisVuittonAPI` object is built from a list of region codes and an export
mode. Its `get_products` method then looks up every SKU in every region
against the Louis Vuitton catalogue API. It keeps one record per product
found, and finally writes either a JSON document or a spreadsheet named
after the fetch time.

The model has one module per concern:

- `Strings`: ASCII `str.upper`, `str.replace` of one character, and `str.split` with its inverse `join`.
- `Json`: parsed JSON values, and Python dict and sequence access with its `KeyError`, `TypeError` and `AttributeError`.
  - `Get` is `dict.get`: a missing key gives None.
  - `Subscript` is `v[key]`: a dict without the key raises KeyError(key), and any other value raises TypeError.
  - `ElementsForLookup` is iteration over a variant list: a list gives its elements, an empty dict or string gives none, and anything else raises TypeError.
  - `ProductFetch.StripMarkup` is BeautifulSoup's text extraction: string markup only; anything else is taken to raise TypeError.
  - `ProductFetch.MatchesSku` is the filter's lambda at line 111: `p['identifier'] == sku`.
  - These are definitions of Python built-ins and expressions. What they mean for the crawler is stated by the members that use them (`FilterBySku`, `FirstMatch`, `ContentUrls`, `ModelFieldsFirstVariant`).
- `Config`: the region table, the export mode, region resolution and the constructor's validation.
- `ProductFetch`: one `fetch_product_info` call as a function of the two parsed API responses.
  - It covers the three "no data" exits.
  - It covers the loop over the product dict, the variant filter and the field copy.
  - It covers the stamps and the exception the status lines raise when the dict is missing a field.
- `Aggregate`: the region-by-SKU loop of `get_products`, as a fold over the lookups' outcomes.
  - `RegionPairs` (one region's lookups) and `Lookups` (the outcome of each lookup) are definitions.
  - Their order and contents are stated by `PairsAt`, `PairsFrom`, `RunKept` and `RunAllRecords`.
- `Export`: the spreadsheet's columns, the selected columns, the row index, the output file names and the JSON document (with a decoder and a round trip).
- `Crawler`: the object itself.
  - `LouisVuittonAPI` is a class whose `items` field `get_products` extends in place.
  - Its methods are proved against the functions above.
- `Cli`: how the command line splits its input.

The two HTTP responses are a parameter (`Catalog`: one function per
endpoint, from the request's locale and path to the parsed value). So is
BeautifulSoup's text extraction (`strip`). The clock is a third parameter:
`now` is given as the string `isoformat(timespec="seconds")` returns.

Behaviour of `main.py` that the model keeps:

- The export modes are only `XLSX` and `JSON`.
- All requests go to one API domain.
- A response without `productId` raises `KeyError('productId')`; it is not a silent empty result.
- A product without a variant of the SKU reaches the status lines, which raise `KeyError('sku')`. A product without a name raises `KeyError('name')` there. No default price, currency or description is filled in; only `color` defaults to `''`.
- An exception in a lookup ends `get_products`: the records kept so far stay in the object, and nothing is exported.
- No list of errors is collected.
- A spreadsheet export of zero records raises `KeyError` at the column selection. No file is written.

## Model

| member | source | states |
|---|---|---|
| Strings.Upper | main.py:84 | same length; each letter is upper-cased position by position; no lower-case ASCII letter is left |
| Strings.UpperIdempotent | main.py:62-84 | upper-casing twice is upper-casing once, so `get_products` and `fetch_product_info` both upper-casing the SKU changes nothing |
| Strings.ReplaceChar | main.py:148-151 | same length; every occurrence of the one character becomes the other, and every other character stays |
| Strings.RemoveChar | main.py:164-165 | the character no longer occurs; exactly its occurrences are dropped; every other character's count is kept; nothing new appears |
| Strings.RemoveCharConcat | main.py:164-165 | removal works piece by piece, so together with the counts the kept characters stay in their order |
| Strings.RemoveCharJoin | main.py:164-165 | removing a non-separator character from every piece is removing it from the joined text |
| Strings.RemoveCharAbsent | main.py:164-165 | removing a character that does not occur leaves the string unchanged |
| Strings.Split | main.py:164-165 | one piece more than separators; no piece holds the separator; joining the pieces gives back the text |
| Strings.SplitNoSeparator | main.py:164-165 | text without the separator splits into itself alone |
| Strings.SplitHead | main.py:164-165 | a separator-free head, a separator and a rest split into the head followed by the rest's pieces |
| Strings.SplitJoin | main.py:164-165 | separator-free pieces that are joined split back into the same pieces |
| Cli.SplitInput | main.py:164-165 | one entry per comma-separated field; no entry holds a space or a comma; the entries joined with commas are the input with its spaces removed |
| Cli.SplitInputRoundTrip | main.py:164-165 | for input without spaces, joining the entries with commas gives back the input |
| Cli.JoinContains | main.py:164-165 | every character of a piece occurs in the joined text |
| Json.TruthyLen | main.py:94 | a list, dict or string is truthy exactly when its length is non-zero |
| Config.ParseExportMode | main.py:41-46 | accepted exactly when the upper-cased mode is XLSX or JSON, and then it is that upper-cased mode; otherwise the invalid-export-mode error |
| Config.ExportModeIgnoresCase | main.py:41-44 | two inputs with the same upper-case form are parsed alike |
| Config.ExportModeStable | main.py:41-44 | a parsed mode parses to itself again |
| Config.ResolveRegion | main.py:24-52 | a code resolves exactly when its upper-case form is one of the eight table entries; then its region is that form and its language comes from the table |
| Config.ResolveRegions | main.py:48-56 | all codes resolve exactly when each one does; same length and order; each entry is that code's resolution; otherwise the invalid-region error |
| Config.ResolveRegionsIgnoresCase | main.py:49-53 | lists of codes that agree up to case resolve alike |
| Config.ResolvedEntriesKnown | main.py:24-53 | every resolved entry is a row of the region table |
| Config.Configure | main.py:41-56 | the mode is checked before the regions, so an invalid mode wins; success exactly when both are valid; on success the parsed mode and the resolved regions |
| ProductFetch.FirstMatch | main.py:111-113 | the index of the first variant with the SKU: all earlier ones lack it, and it is the list's length when none has it |
| ProductFetch.FilterBySku | main.py:111 | succeeds exactly when every variant has an identifier; then every entry has the SKU, the list is empty exactly when no variant matches, and its head is the first match |
| ProductFetch.ContentUrls | main.py:117 | succeeds exactly when every image has a `contentUrl`; then one URL per image, in order |
| ProductFetch.VariantFields | main.py:113-122 | the copied fields are exactly sku, price, currency, description, image and color |
| ProductFetch.VariantFieldsMeaning | main.py:113-122 | sku is the identifier; price comes from the price specification; currency is "USD" in the US and otherwise the upstream currency; description is the stripped text; image is the URL list; color is the variant's or "" |
| ProductFetch.UsCurrencyNotRead | main.py:114-115 | for a variant without an upstream currency: in the US, once its price is read, the copy succeeds exactly when the description and images read cleanly, and its currency is "USD"; in every other region it raises KeyError('priceCurrency') |
| ProductFetch.ModelFields | main.py:110-122 | the model branch yields either no fields or exactly the six variant fields |
| ProductFetch.ModelFieldsFirstVariant | main.py:110-122 | the fields are empty exactly when no variant has the SKU, and otherwise they are the first matching variant's |
| ProductFetch.DetailFields | main.py:104-122 | apart from `name`, the loop's dict has no fields or all six variant fields; `name` is present exactly when the product has one, with the product's value |
| ProductFetch.FirstMissing | main.py:128-134 | none exactly when every printed key is present; otherwise the first printed key, in print order, that is missing |
| ProductFetch.ErrorsReported | main.py:94 | raises exactly when `errors` is truthy without a length; otherwise true exactly when `errors` is truthy |
| ProductFetch.FinishMeaning | main.py:124-135 | no sku gives KeyError('sku'); sku without name gives KeyError('name'); otherwise a record with exactly the record keys and the three stamps |
| ProductFetch.FetchReachingDetail | main.py:98-103 | past the first response, the fetch depends only on the product response |
| ProductFetch.FetchNoRecordExits | main.py:94-103 | the fetch returns None exactly for a non-empty errors list, a falsy productId or an empty product response |
| ProductFetch.FetchMissingProductId | main.py:98 | a first response without `productId` (and no errors) raises KeyError('productId') |
| ProductFetch.FetchRecordReached | main.py:98-122 | a fetch that returns a record reached a non-empty product dict whose fields were read without an exception |
| ProductFetch.FetchRecordFields | main.py:104-126 | a returned record is the loop's dict stamped with fetch time, productId and region, and that dict has a sku |
| ProductFetch.StampedKeeps | main.py:124-126 | stamping leaves every other key and value as it was |
| ProductFetch.DetailFieldsVariant | main.py:110-122 | a loop dict with a sku took it and the other variant fields from the first variant of `model` with the SKU |
| ProductFetch.FetchRecordStamped | main.py:84-126 | a record has exactly the record keys; its sku is the requested SKU upper-cased; it carries the fetch time, the first response's productId, the region and the product's name |
| ProductFetch.FetchRecordVariant | main.py:111-122 | a record's variant fields are those of the first model entry whose identifier is the upper-cased SKU |
| ProductFetch.FetchFailsWithoutVariantOrName | main.py:103-135 | once the product fields are read: no matching variant raises KeyError('sku'), no product name raises KeyError('name'), and otherwise a record is returned |
| ProductFetch.RecordTags | main.py:84-126 | a record has exactly the record keys, and its sku, fetch time and region are the upper-cased SKU, the stamp and the region of its lookup |
| Aggregate.Pairs | main.py:60-62 | regions times SKUs lookups |
| Aggregate.PairsAt | main.py:60-62 | the lookup in slot `i * N + j` is region i with SKU j |
| Aggregate.PairsFrom | main.py:60-62 | every lookup pairs a configured region with a given SKU |
| Aggregate.Collect | main.py:62-66 | no more records kept than lookups made |
| Aggregate.CollectAppend | main.py:62-66 | one more outcome is one more loop step |
| Aggregate.CollectFaultSticks | main.py:60-66 | after an exception, later outcomes change nothing |
| Aggregate.CollectConcat | main.py:60-66 | an outcome list without an exception continues into the next list's records and fault |
| Aggregate.LookupsConcat | main.py:60-62 | the lookups of two lists are the lookups of each list, concatenated |
| Aggregate.Run | main.py:60-66 | no more records kept than lookups made |
| Aggregate.RunAppend | main.py:62-66 | one more lookup is one more loop step |
| Aggregate.RunFaultSticks | main.py:60-66 | once a lookup has raised, later lookups change nothing |
| Aggregate.RunCompletes | main.py:60-66 | the run completes exactly when no lookup raises |
| Aggregate.RunOrigins | main.py:65-66 | each kept record is the record of a lookup, and the lookups it came from are strictly increasing |
| Aggregate.CollectKept | main.py:62-66 | outcomes without an exception leave exactly the records among them, in order |
| Aggregate.RunKept | main.py:60-66 | a run in which nothing raises keeps every record the lookups return, in lookup order |
| Aggregate.RunKeptBeforeFault | main.py:60-66 | a run stopped by an exception keeps exactly the records returned by the lookups before it, in order |
| Aggregate.RunItemsStamped | main.py:60-126 | every kept record has the record keys, the run's fetch time, and a region and SKU of the run |
| Aggregate.RunAllRecords | main.py:65-66 | when every lookup returns a record, all are kept, one per lookup, in order |
| Aggregate.RunFirstFault | main.py:60-66 | the first lookup that raises ends the run with its exception and the records before it |
| Aggregate.AllPairsRecords | main.py:60-62 | a record for every region and SKU means a record for every lookup |
| Aggregate.SlotRecord | main.py:60-66 | when every lookup returns a record, the one in slot `i * N + j` is for region i and SKU j |
| Aggregate.FullRun | main.py:58-67 | M regions and N SKUs that all return records give M * N records, each in its slot, all with the same fetch time |
| Aggregate.PairsConcat | main.py:60-61 | the lookups of two region lists are those of each list, concatenated |
| Aggregate.RegionPairsSplit | main.py:61 | a region's lookups split at any SKU |
| Aggregate.PairsPrefix | main.py:60 | the lookups of the first k regions are the first lookups of the run |
| Aggregate.RunConcat | main.py:60-66 | after a start without an exception, the rest of the run goes on by itself |
| Aggregate.PairsNextRegion | main.py:60-61 | the first ri + 1 regions' lookups are the first ri regions' lookups followed by region ri's |
| Aggregate.RunPrefixFault | main.py:60-66 | a run that raised on a prefix of the lookups is over |
| Aggregate.RegionStep | main.py:60-67 | one pass of the outer loop extends the records of the earlier regions, and a fault in it is the whole run's fault |
| Aggregate.LookupStep | main.py:61-66 | one pass of the inner loop keeps a record, skips None, or stops with the exception |
| Aggregate.AppendRunKeys | main.py:65-66 | records of a run appended to well-formed records leave all of them with the record keys |
| Export.AllKeysMeaning | main.py:138-144 | a key is a column exactly when some record has it |
| Export.ColumnsAppend | main.py:139-144 | one more record adds its value to each of its keys' columns and leaves the others |
| Export.AddCellsNone | main.py:140-144 | adding the cells of no keys, for any record, leaves the table unchanged |
| Export.AddCellsStep | main.py:140-144 | adding one key's value appends it to that column, or starts the column |
| Export.ColumnAbsent | main.py:138-144 | a key no record has gets no cells |
| Export.ColumnFull | main.py:138-144 | a key every record has gets one cell per record, in record order |
| Export.ColumnsUniform | main.py:138-145 | records that share their keys give columns of exactly those keys, each one cell per record |
| Export.SelectColumns | main.py:146 | succeeds exactly when every selected column exists; then those columns, in the selection's order; otherwise a KeyError tagged with the first selected column, in selection order, that is missing |
| Export.SelectedColumnsPresent | main.py:139-146 | with at least one record, the nine selected columns are present and in order, each holding every record's value in record order |
| Export.SelectionWithoutRecords | main.py:145-146 | with no records, the selection raises a KeyError (tagged with `sku`, the first selected column) and no spreadsheet is made |
| Export.RowIndex | main.py:147 | row labels 1 to n |
| Export.OutputPath | main.py:148-151 | `./` followed by the fetch time with every `:` made `-`, then `Z.` and the extension; no `:` remains |
| Export.OutputPathsShareStem | main.py:148-151 | the spreadsheet and JSON paths agree on `./` and the whole converted fetch time, and neither holds a `:` |
| Export.DecodeItemsRoundTrip | main.py:152 | the encoded records decode back to the same records |
| Export.DecodeRegionsRoundTrip | main.py:152 | the encoded regions decode back to the same regions |
| Export.DocumentRoundTrip | main.py:152 | the JSON document decodes back to the records, regions and fetch time |
| Export.OneFilePerMode | main.py:69-146 | each mode writes exactly one file, of its own kind, except that a spreadsheet of no records raises the selection's KeyError instead |
| Crawler.CopyPrice | main.py:114-115 | price and currency are added to the dict, or the exception of reading them is returned |
| Crawler.CopyShowcase | main.py:116-118 | description and image are added to the dict, or the exception of reading them is returned |
| Crawler.CopyMatchedVariant | main.py:113-122 | the dict gains exactly the variant fields of the matched variant, or the copy's exception is returned |
| Crawler.CopyVariantFields | main.py:110-122 | the model branch adds the fields of the first matching variant (none when there is none), or returns its exception |
| Crawler.CollectDetail | main.py:104-122 | the loop over the product dict, in any key order, gives the product fields or their exception |
| Crawler.LouisVuittonAPI.Blank | main.py:34-39 | the object starts with no mode, no records, no regions and no fetch time |
| Crawler.LouisVuittonAPI.Create | main.py:18-56 | fails exactly with the configuration's error; otherwise a fresh valid object with the parsed mode, the resolved regions, no records and no fetch time |
| Crawler.LouisVuittonAPI.FetchProductInfo | main.py:75-135 | the outcome is the fetch of the SKU in the region with the object's fetch time followed by Z |
| Crawler.LouisVuittonAPI.FetchRegion | main.py:61-66 | the region's records are appended to the object's records, and an exception in it is returned; nothing else changes |
| Crawler.LouisVuittonAPI.GetProducts | main.py:58-73 | the fetch time becomes `now`, and the run's records are appended in lookup order; an exception aborts before the export; otherwise the mode's files or the export's exception; the object stays valid |
| Crawler.LouisVuittonAPI.ExportResult | main.py:69-73 | the files the configured mode writes, or the spreadsheet selection's KeyError |
| Crawler.BuildColumns | main.py:138-144 | the nested loops over the records and their keys, taking keys in any order, build exactly the column table of the records |
| Crawler.LouisVuittonAPI.ExportXlsx | main.py:137-148 | on a valid object, the selected columns of the record table, rows labelled 1 to n, at the xlsx path; or the selection's KeyError |
| Crawler.LouisVuittonAPI.ExportJson | main.py:150-152 | the document of records, regions and fetch time, at the json path |

## Left out

- HTTP: the two `requests.get` calls, their headers and `json.loads` (lines 90-92, 99-101) are the `Catalog` parameter. Network errors and malformed JSON are not modelled.
- BeautifulSoup (line 116) is the `strip` parameter. Markup that is not a string is taken to raise TypeError.
- The clock (line 20) is the parameter `now`, already formatted by `isoformat(timespec="seconds")`.
- `cls()`, `print`, `time.sleep` and `input()` (lines 13-15, 19, 55, 64, 67, 85-88, 95, 128-134, 156-162) have no effect on the state and are left out. Only the dict lookups the status lines make are kept.
- pandas and numpy (lines 145-148): the DataFrame is modelled as its selected columns plus the row index. Building a frame from columns of unequal length raises ValueError; it cannot happen on a valid object, since every record then has the same keys, and `ExportXlsx` requires a valid object. `to_excel` and the spreadsheet's byte format are not modelled.
- Writing the files (lines 148, 151-152): the model returns each file as its path and contents. The byte-level JSON encoding of `json.dump` is not modelled.
- Strings.Upper: only ASCII letters are upper-cased; Unicode case mapping is not modelled.
- Export.SelectColumns: pandas raises `KeyError` with a message listing the missing columns ("None of [...] are in the [columns]" or "[...] not in index"). The model keeps only the exception kind and tags it with the first missing column; the message text is not modelled.
- Export.SelectionWithoutRecords: states the same tagged KeyError, not pandas' message.
- Export.OneFilePerMode: states the same tagged KeyError for a spreadsheet of no records, not pandas' message.
- Crawler.CollectDetail: the dict's iteration order is left arbitrary (the loop picks any remaining key). The result is proved not to depend on the order.
- Json.Value models numbers as `real`. Python's int/float distinction and float rounding are not modelled.
- Crawler.LouisVuittonAPI.Create: the Python constructor raises ValueError. Here a static factory returns that error, and the Dafny constructor `Blank` only builds the empty state.
- The `lang` field and the API URLs (lines 90, 99) are modelled only as the `Catalog`'s locale argument. URL text is not modelled.

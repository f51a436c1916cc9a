/**
 * The `LouisVuittonAPI` object: its configuration, the run state it
 * mutates (`items`, `lv_regions`, `fetch_time`) and its methods.
 */
module Crawler {
  import opened Wrappers
  import opened Strings
  import opened Json
  import opened Config
  import opened ProductFetch
  import opened Aggregate
  import opened Export

  /** How `get_products` ends: an exception from a fetch, or the files it wrote. */
  datatype RunOutcome = Aborted(fault: Fault) | Completed(files: seq<OutputFile>)

  /**
   * The `model` branch of the fetch loop (lines 110-122): filter the
   * variants, then copy the matching one's fields into `result` one by one.
   */
  method CopyVariantFields(sku: string, region: string, prodValue: Value, strip: string -> string, result: Item)
    returns (o: Outcome<Item>)
    ensures ModelFields(sku, region, prodValue, strip).Raise? ==> o == Raise(ModelFields(sku, region, prodValue, strip).fault)
    ensures ModelFields(sku, region, prodValue, strip).Ok? ==> o == Ok(result + ModelFields(sku, region, prodValue, strip).value)
  {
    var candidates := ElementsForLookup(prodValue);
    if candidates.Raise? {
      return Raise(candidates.fault);
    }
    var targetValue := FilterBySku(candidates.value, sku);
    if targetValue.Raise? {
      return Raise(targetValue.fault);
    }
    if |targetValue.value| == 0 {
      assert result + map[] == result;
      return Ok(result);
    }
    var variant := targetValue.value[0];
    assert variant in targetValue.value;
    o := CopyMatchedVariant(sku, region, variant, strip, result);
  }

  /** Lines 113-122: the copied fields of the variant the filter kept. */
  method CopyMatchedVariant(sku: string, region: string, variant: Value, strip: string -> string, result: Item)
    returns (o: Outcome<Item>)
    requires Identifies(variant, sku)
    ensures var copied := VariantFields(sku, region, variant, strip);
      o == if copied.Ok? then Ok(result + copied.value) else copied
  {
    var r := result["sku" := variant.fields["identifier"]];
    var priced := CopyPrice(region, variant, r);
    if priced.Raise? {
      return Raise(priced.fault);
    }
    r := priced.value;
    var shown := CopyShowcase(variant, strip, r);
    if shown.Raise? {
      return Raise(shown.fault);
    }
    r := shown.value;
    if "color" in variant.fields {
      r := r["color" := variant.fields["color"]];
    } else {
      r := r["color" := Str("")];
    }
    ghost var fields := VariantFields(sku, region, variant, strip).value;
    assert r.Keys == (result + fields).Keys;
    forall k | k in r
      ensures r[k] == (result + fields)[k]
    {
    }
    assert r == result + fields;
    return Ok(r);
  }

  /** Lines 114-115: `price`, and `currency` forced to USD in the US region. */
  method CopyPrice(region: string, variant: Value, r: Item) returns (o: Outcome<Item>)
    ensures var priced := PriceFields(region, variant);
      o == if priced.Ok? then Ok(r["price" := priced.value.0]["currency" := priced.value.1]) else Raise(priced.fault)
  {
    var spec :- PriceSpecification(variant);
    var price :- Subscript(spec, "price");
    var next := r["price" := price];
    var currency :- if region == "US" then Ok(Str("USD")) else Subscript(spec, "priceCurrency");
    return Ok(next["currency" := currency]);
  }

  /** Lines 116-118: the text of the description, and the URL of every image. */
  method CopyShowcase(variant: Value, strip: string -> string, r: Item) returns (o: Outcome<Item>)
    ensures var shown := ShowcaseFields(variant, strip);
      o == if shown.Ok? then Ok(r["description" := Str(shown.value.0)]["image" := Arr(shown.value.1)]) else Raise(shown.fault)
  {
    var markup :- Subscript(variant, "disambiguatingDescription");
    var description :- StripMarkup(markup, strip);
    var next := r["description" := Str(description)];
    var imageList :- Subscript(variant, "image");
    var images :- ElementsForLookup(imageList);
    var urls :- ContentUrls(images);
    return Ok(next["image" := Arr(urls)]);
  }

  /**
   * The loop over the product response (lines 105-122): `name` is copied,
   * `model` is searched for the variant, every other key is skipped.
   */
  method CollectDetail(sku: string, region: string, detail: map<string, Value>, strip: string -> string)
    returns (o: Outcome<Item>)
    ensures o == DetailFields(sku, region, detail, strip)
  {
    var result: Item := map[];
    ghost var named: Item := map[];
    ghost var fields: Item := map[];
    var pending := detail.Keys;
    while pending != {}
      invariant pending <= detail.Keys
      invariant result == named + fields
      invariant named == if "name" in detail.Keys - pending then map["name" := detail["name"]] else map[]
      invariant "model" in detail.Keys - pending ==>
        ModelFields(sku, region, detail["model"], strip) == Ok(fields)
      invariant "model" !in detail.Keys - pending ==> fields == map[]
      invariant "name" !in fields
      decreases pending
    {
      var prodKey :| prodKey in pending;
      var prodValue := detail[prodKey];
      if prodKey == "name" {
        UpdateAfter(named, fields, "name", prodValue);
        result := result["name" := prodValue];
        named := map["name" := prodValue];
      }
      if prodKey == "model" {
        var copied := CopyVariantFields(sku, region, prodValue, strip, result);
        if copied.Raise? {
          return Raise(copied.fault);
        }
        UnionAfterEmpty(named, ModelFields(sku, region, prodValue, strip).value);
        result := copied.value;
        fields := ModelFields(sku, region, prodValue, strip).value;
      }
      pending := pending - {prodKey};
    }
    assert detail.Keys - pending == detail.Keys;
    assert named == NameField(detail);
    if "model" !in detail {
      assert named + map[] == named;
    }
    return Ok(result);
  }

  /** The loops of `exportXlsx` (lines 138-144): one column per key, one cell per record having it. */
  method BuildColumns(items: seq<Item>) returns (resultDf: Table)
    ensures resultDf == Columns(items)
  {
    resultDf := map[];
    var n := 0;
    while n < |items|
      invariant 0 <= n <= |items|
      invariant resultDf == Columns(items[..n])
    {
      var item := items[n];
      var pending := item.Keys;
      ghost var before := resultDf;
      AddCellsNone(before, item);
      while pending != {}
        invariant pending <= item.Keys
        invariant resultDf == AddCells(before, item, item.Keys - pending)
        decreases pending
      {
        var objKey :| objKey in pending;
        var objValue := item[objKey];
        AddCellsStep(before, item, item.Keys - pending, objKey);
        if objKey in resultDf {
          resultDf := resultDf[objKey := resultDf[objKey] + [objValue]];
        } else {
          assert [] + [objValue] == [objValue];
          resultDf := resultDf[objKey := [objValue]];
        }
        assert resultDf == AddCells(before, item, (item.Keys - pending) + {objKey});
        assert item.Keys - (pending - {objKey}) == (item.Keys - pending) + {objKey};
        pending := pending - {objKey};
      }
      assert item.Keys - pending == item.Keys;
      ColumnsAppend(items[..n], item);
      assert items[..n + 1] == items[..n] + [item];
      n := n + 1;
    }
    assert items[..n] == items;
  }

  /** Setting a key the right-hand map lacks, in a left-hand map that lacks it. */
  lemma UpdateAfter(left: Item, right: Item, k: string, v: Value)
    requires left == map[] && k !in right
    ensures (left + right)[k := v] == map[k := v] + right
  {
    var lhs := (left + right)[k := v];
    var rhs := map[k := v] + right;
    assert lhs.Keys == rhs.Keys;
    forall j | j in lhs
      ensures lhs[j] == rhs[j]
    {
    }
  }

  lemma UnionAfterEmpty(left: Item, right: Item)
    ensures (left + map[]) + right == left + right
  {
    assert left + map[] == left;
  }

  class LouisVuittonAPI {
    /** `self.now`, already formatted with `isoformat(timespec="seconds")`. */
    const now: string
    var exportMode: string
    var items: seq<Item>
    var lvRegions: seq<RegionEntry>
    var fetchTime: string

    /** A configured crawler: a known mode, table-made regions, well-formed records. */
    ghost predicate Valid()
      reads this
    {
      && (exportMode == "XLSX" || exportMode == "JSON")
      && (forall e :: e in lvRegions ==> KnownEntry(e))
      && (forall i :: 0 <= i < |items| ==> items[i].Keys == RecordKeys)
    }

    /** Lines 20-39: the state before the checks. */
    constructor Blank(now: string)
      ensures this.now == now
      ensures exportMode == "" && items == [] && lvRegions == [] && fetchTime == ""
    {
      this.now := now;
      exportMode := "";
      items := [];
      lvRegions := [];
      fetchTime := "";
    }

    /**
     * `LouisVuittonAPI(regions, exportMode)`: the object, or the
     * `ValueError` construction raises.
     */
    static method Create(regions: seq<string>, exportModeInput: string, now: string)
      returns (r: Result<LouisVuittonAPI, ConfigError>)
      ensures r.Failure? ==> Configure(regions, exportModeInput) == Failure(r.error)
      ensures r.Success? ==>
        && Configure(regions, exportModeInput).Success?
        && fresh(r.value) && r.value.Valid()
        && r.value.now == now
        && r.value.exportMode == Configure(regions, exportModeInput).value.0
        && r.value.lvRegions == Configure(regions, exportModeInput).value.1
        && r.value.items == [] && r.value.fetchTime == ""
    {
      var api := new LouisVuittonAPI.Blank(now);
      var mode := ParseExportMode(exportModeInput);
      if mode.Failure? {
        return Failure(mode.error);
      }
      api.exportMode := mode.value;
      var i := 0;
      while i < |regions|
        invariant 0 <= i <= |regions|
        invariant ResolveRegions(regions[..i]).Success?
        invariant api.lvRegions == ResolveRegions(regions[..i]).value
        invariant api.exportMode == mode.value && api.now == now
        invariant api.items == [] && api.fetchTime == ""
      {
        var code := Upper(regions[i]);
        if code !in RegionToLang {
          return Failure(InvalidRegion);
        }
        api.lvRegions := api.lvRegions + [RegionEntry(RegionToLang[code], code)];
        assert regions[..i + 1][..i] == regions[..i];
        i := i + 1;
      }
      assert regions[..i] == regions;
      ResolvedEntriesKnown(regions);
      return Success(api);
    }

    /** `fetch_product_info(sku, lvRegion)` against the catalog. */
    method FetchProductInfo(sku: string, lvRegion: RegionEntry, catalog: Catalog, strip: string -> string)
      returns (outcome: FetchOutcome)
      ensures outcome == Fetch(sku, lvRegion, fetchTime + "Z", catalog, strip)
    {
      var upperSku := Upper(sku);
      var skuSimpleInfo := catalog.skuDetails(lvRegion.lang, upperSku);
      if !skuSimpleInfo.Obj? {
        return Raised(AttributeError);
      }
      var reported := ErrorsReported(skuSimpleInfo.fields);
      if reported.Raise? {
        return Raised(reported.fault);
      }
      if reported.value {
        return NoRecord;
      }
      if "productId" !in skuSimpleInfo.fields {
        return Raised(KeyError("productId"));
      }
      var productId := skuSimpleInfo.fields["productId"];
      if !Truthy(productId) {
        return NoRecord;
      }
      var productInfo := catalog.productDetails(lvRegion.lang, productId);
      if !Truthy(productInfo) {
        return NoRecord;
      }
      if !productInfo.Obj? {
        return Raised(AttributeError);
      }
      var detail := CollectDetail(upperSku, lvRegion.region, productInfo.fields, strip);
      if detail.Raise? {
        return Raised(detail.fault);
      }
      var result := detail.value;
      result := result["fetchTime" := Str(fetchTime + "Z")];
      result := result["productId" := productId];
      result := result["region" := Str(lvRegion.region)];
      var missing := FirstMissing(result, PrintedKeys);
      if missing.Some? {
        return Raised(KeyError(missing.value));
      }
      return Record(result);
    }

    /** `exportXlsx`: the column table, its 1-based index and the file name. */
    method ExportXlsx() returns (file: Outcome<OutputFile>)
      requires Valid()
      ensures var cols := SelectColumns(Columns(items), SelectedColumns);
        file == if cols.Ok? then Ok(XlsxFile(OutputPath(fetchTime, "xlsx"), cols.value, RowIndex(|items|))) else Raise(cols.fault)
    {
      var resultDf := BuildColumns(items);
      var df :- SelectColumns(resultDf, SelectedColumns);
      return Ok(XlsxFile(OutputPath(fetchTime, "xlsx"), df, RowIndex(|items|)));
    }

    /** `exportJson`: the whole result document under the fetch-time name. */
    method ExportJson() returns (file: OutputFile)
      ensures file == JsonFile(OutputPath(fetchTime, "json"), ResultDocument(items, lvRegions, fetchTime))
    {
      file := JsonFile(OutputPath(fetchTime, "json"), ResultDocument(items, lvRegions, fetchTime));
    }

    /**
     * The inner loop of `get_products` (lines 61-66): every SKU of one
     * region, keeping the records, until a fetch raises.
     */
    method FetchRegion(lvRegion: RegionEntry, skuNumbers: seq<string>, catalog: Catalog, strip: string -> string)
      returns (raised: Option<Fault>)
      modifies this
      ensures fetchTime == old(fetchTime) && exportMode == old(exportMode) && lvRegions == old(lvRegions)
      ensures var h := Run(RegionPairs(lvRegion, skuNumbers), old(fetchTime) + "Z", catalog, strip);
        items == old(items) + h.items && raised == h.fault
    {
      ghost var stamp := fetchTime + "Z";
      ghost var done: seq<Pair> := [];
      var si := 0;
      while si < |skuNumbers|
        invariant 0 <= si <= |skuNumbers|
        invariant fetchTime == old(fetchTime) && exportMode == old(exportMode) && lvRegions == old(lvRegions)
        invariant done == RegionPairs(lvRegion, skuNumbers[..si])
        invariant Run(done, stamp, catalog, strip).fault.None?
        invariant items == old(items) + Run(done, stamp, catalog, strip).items
      {
        var tempResult := FetchProductInfo(Upper(skuNumbers[si]), lvRegion, catalog, strip);
        ghost var p: Pair := (lvRegion, skuNumbers[si]);
        LookupStep(done, p, stamp, catalog, strip, old(items), items);
        assert RegionPairs(lvRegion, skuNumbers[..si + 1]) == done + [p];
        done := done + [p];
        if tempResult.Raised? {
          RegionPairsSplit(lvRegion, skuNumbers, si + 1);
          RunPrefixFault(done, RegionPairs(lvRegion, skuNumbers), stamp, catalog, strip);
          return Some(tempResult.fault);
        }
        if tempResult.Record? {
          items := items + [tempResult.item];
        }
        si := si + 1;
      }
      assert skuNumbers[..si] == skuNumbers;
      return None;
    }

    /**
     * `get_products(skuNumbers)`: fix the fetch time, look up every
     * (region, SKU) pair region-major, keep the records, then export.
     */
    method GetProducts(skuNumbers: seq<string>, catalog: Catalog, strip: string -> string)
      returns (outcome: RunOutcome)
      requires Valid()
      modifies this
      ensures Valid()
      ensures fetchTime == now && exportMode == old(exportMode) && lvRegions == old(lvRegions)
      ensures var h := Run(Pairs(lvRegions, skuNumbers), now + "Z", catalog, strip);
        && items == old(items) + h.items
        && outcome == (if h.fault.Some? then Aborted(h.fault.value)
                       else var files := ExportsFor(exportMode, items, lvRegions, fetchTime);
                         if files.Ok? then Completed(files.value) else Aborted(files.fault))
    {
      fetchTime := now;
      ghost var stamp := now + "Z";
      ghost var start := items;
      var ri := 0;
      while ri < |lvRegions|
        invariant 0 <= ri <= |lvRegions|
        invariant fetchTime == now && exportMode == old(exportMode) && lvRegions == old(lvRegions)
        invariant Run(Pairs(lvRegions[..ri], skuNumbers), stamp, catalog, strip).fault.None?
        invariant items == start + Run(Pairs(lvRegions[..ri], skuNumbers), stamp, catalog, strip).items
      {
        ghost var before := items;
        var raised := FetchRegion(lvRegions[ri], skuNumbers, catalog, strip);
        RegionStep(lvRegions, skuNumbers, ri, stamp, catalog, strip, start, before, items);
        if raised.Some? {
          AppendRunKeys(start, Pairs(lvRegions, skuNumbers), stamp, catalog, strip);
          return Aborted(raised.value);
        }
        ri := ri + 1;
      }
      assert lvRegions[..ri] == lvRegions;
      AppendRunKeys(start, Pairs(lvRegions, skuNumbers), stamp, catalog, strip);
      var files := ExportResult();
      if files.Raise? {
        return Aborted(files.fault);
      }
      return Completed(files.value);
    }

    /** The export at the end of `get_products` (lines 69-73): the mode's file, or the export's exception. */
    method ExportResult() returns (files: Outcome<seq<OutputFile>>)
      requires Valid()
      ensures files == ExportsFor(exportMode, items, lvRegions, fetchTime)
    {
      var written: seq<OutputFile> := [];
      if exportMode == "JSON" {
        var f := ExportJson();
        written := written + [f];
        assert written == [f];
      }
      if exportMode == "XLSX" {
        var f := ExportXlsx();
        if f.Raise? {
          return Raise(f.fault);
        }
        assert written == [];
        written := written + [f.value];
      }
      return Ok(written);
    }
  }
}

/**
 * Product-record extraction (`fetch_product_info`) with the two HTTP
 * calls replaced by the `Catalog` they are made against. `Fetch` is the
 * specification of one lookup: no record, a record (the result dict), or
 * the exception the code raises.
 */
module ProductFetch {
  import opened Wrappers
  import opened Strings
  import opened Json
  import opened Config

  /** The result dict of one fetch. */
  type Item = map<string, Value>

  /**
   * The upstream API after `json.loads`: the persodetails response for
   * (locale, SKU), and the product response for (locale, productId).
   */
  datatype Catalog = Catalog(skuDetails: (string, string) -> Value, productDetails: (string, Value) -> Value)

  /** What one call of the fetch gives back: None, a dict, or an exception. */
  datatype FetchOutcome = NoRecord | Record(item: Item) | Raised(fault: Fault)

  /** Keys copied from the matching variant (lines 113-122). */
  const VariantKeys: set<string> := {"sku", "price", "currency", "description", "image", "color"}

  /** Keys stamped on every record (lines 124-126). */
  const StampKeys: set<string> := {"fetchTime", "productId", "region"}

  /** Every key of a returned record. */
  const RecordKeys: set<string> := VariantKeys + StampKeys + {"name"}

  /** Keys the status lines read, in the order they read them (lines 129-134). */
  const PrintedKeys: seq<string> := ["sku", "productId", "name", "price", "currency", "description"]

  /** `p['identifier'] == sku` holds. */
  predicate Identifies(p: Value, sku: string)
  {
    HasKey(p, "identifier") && p.fields["identifier"] == Str(sku)
  }

  /** The filter's lambda: `p['identifier'] == sku`, raising when `p` has no identifier. */
  function MatchesSku(p: Value, sku: string): (r: Outcome<bool>)
    ensures r.Ok? <==> HasKey(p, "identifier")
    ensures r.Ok? ==> (r.value <==> Identifies(p, sku))
  {
    var id :- Subscript(p, "identifier");
    Ok(id == Str(sku))
  }

  /** Index of the first variant carrying `sku`, or `|ps|` when none does. */
  function FirstMatch(ps: seq<Value>, sku: string): (k: nat)
    ensures k <= |ps|
    ensures forall j :: 0 <= j < k ==> !Identifies(ps[j], sku)
    ensures k < |ps| ==> Identifies(ps[k], sku)
  {
    if ps == [] then 0
    else if Identifies(ps[0], sku) then 0
    else 1 + FirstMatch(ps[1..], sku)
  }

  /**
   * `list(filter(lambda p: p['identifier'] == sku, ps))`: every element is
   * tested in order, so any one without an identifier raises; otherwise the
   * matching variants in order, the first of them the first match.
   */
  function FilterBySku(ps: seq<Value>, sku: string): (r: Outcome<seq<Value>>)
    ensures r.Ok? <==> forall i :: 0 <= i < |ps| ==> HasKey(ps[i], "identifier")
    ensures r.Ok? ==> forall v :: v in r.value ==> Identifies(v, sku)
    ensures r.Ok? ==> (r.value == [] <==> FirstMatch(ps, sku) == |ps|)
    ensures r.Ok? && r.value != [] ==> r.value[0] == ps[FirstMatch(ps, sku)]
  {
    if ps == [] then Ok([])
    else
      var keep :- MatchesSku(ps[0], sku);
      var rest :- FilterBySku(ps[1..], sku);
      assert forall i :: 1 <= i < |ps| ==> ps[i] == ps[1..][i - 1];
      Ok(if keep then [ps[0]] + rest else rest)
  }

  /** `[item['contentUrl'] for item in images]`. */
  function ContentUrls(images: seq<Value>): (r: Outcome<seq<Value>>)
    ensures r.Ok? <==> forall i :: 0 <= i < |images| ==> HasKey(images[i], "contentUrl")
    ensures r.Ok? ==> |r.value| == |images|
    ensures r.Ok? ==> forall i :: 0 <= i < |images| ==>
      HasKey(images[i], "contentUrl") && r.value[i] == images[i].fields["contentUrl"]
  {
    if images == [] then Ok([])
    else
      var url :- Subscript(images[0], "contentUrl");
      var rest :- ContentUrls(images[1..]);
      assert forall i :: 1 <= i < |images| ==> images[i] == images[1..][i - 1];
      Ok([url] + rest)
  }

  /** `variant['offers']['priceSpecification']`. */
  function PriceSpecification(variant: Value): Outcome<Value>
  {
    var offers :- Subscript(variant, "offers");
    Subscript(offers, "priceSpecification")
  }

  /** `BeautifulSoup(markup, "lxml").text`, with the stripping itself a parameter. */
  function StripMarkup(markup: Value, strip: string -> string): (r: Outcome<string>)
    ensures r.Ok? <==> markup.Str?
    ensures r.Ok? ==> r.value == strip(markup.s)
  {
    if markup.Str? then Ok(strip(markup.s)) else Raise(TypeError)
  }

  /** The currency: forced to USD for the US region, otherwise the upstream one. */
  function Currency(region: string, spec: Value): Outcome<Value>
  {
    if region == "US" then Ok(Str("USD")) else Subscript(spec, "priceCurrency")
  }

  /** `price` and `currency` of the matched variant (lines 114-115). */
  function PriceFields(region: string, variant: Value): Outcome<(Value, Value)>
  {
    var spec :- PriceSpecification(variant);
    var price :- Subscript(spec, "price");
    var currency :- Currency(region, spec);
    Ok((price, currency))
  }

  /** `description` and the `image` URLs of the matched variant (lines 116-118). */
  function ShowcaseFields(variant: Value, strip: string -> string): Outcome<(string, seq<Value>)>
  {
    var markup :- Subscript(variant, "disambiguatingDescription");
    var description :- StripMarkup(markup, strip);
    var imageList :- Subscript(variant, "image");
    var images :- ElementsForLookup(imageList);
    var urls :- ContentUrls(images);
    Ok((description, urls))
  }

  /** `color`, or the empty string when the variant has none (lines 119-122). */
  function ColorField(variant: Value): Value
    requires variant.Obj?
  {
    if "color" in variant.fields then variant.fields["color"] else Str("")
  }

  /** The six fields copied from the matched variant (lines 113-122), or the first exception. */
  function VariantFields(sku: string, region: string, variant: Value, strip: string -> string): (r: Outcome<Item>)
    requires Identifies(variant, sku)
    ensures r.Ok? ==> r.value.Keys == VariantKeys
  {
    var priced :- PriceFields(region, variant);
    var shown :- ShowcaseFields(variant, strip);
    Ok(map[
      "sku" := variant.fields["identifier"],
      "price" := priced.0,
      "currency" := priced.1,
      "description" := Str(shown.0),
      "image" := Arr(shown.1),
      "color" := ColorField(variant)
    ])
  }

  /** What each copied field holds. */
  lemma VariantFieldsMeaning(sku: string, region: string, v: Value, strip: string -> string)
    requires Identifies(v, sku)
    requires VariantFields(sku, region, v, strip).Ok?
    ensures var r := VariantFields(sku, region, v, strip).value;
      && r["sku"] == Str(sku)
      && PriceSpecification(v).Ok?
      && Subscript(PriceSpecification(v).value, "price") == Ok(r["price"])
      && (region == "US" ==> r["currency"] == Str("USD"))
      && (region != "US" ==> Subscript(PriceSpecification(v).value, "priceCurrency") == Ok(r["currency"]))
      && HasKey(v, "disambiguatingDescription") && v.fields["disambiguatingDescription"].Str?
      && r["description"] == Str(strip(v.fields["disambiguatingDescription"].s))
      && HasKey(v, "image") && ElementsForLookup(v.fields["image"]).Ok?
      && r["image"] == Arr(ContentUrls(ElementsForLookup(v.fields["image"]).value).value)
      && r["color"] == (if "color" in v.fields then v.fields["color"] else Str(""))
  {
  }

  /**
   * In the US region the upstream currency is never read: a variant whose
   * price specification has no `priceCurrency` still yields its fields there,
   * with currency "USD", whenever its price, description and images read
   * cleanly, while any other region raises KeyError('priceCurrency').
   */
  lemma UsCurrencyNotRead(sku: string, v: Value, strip: string -> string, region: string)
    requires Identifies(v, sku)
    requires PriceSpecification(v).Ok? && PriceSpecification(v).value.Obj?
    requires "priceCurrency" !in PriceSpecification(v).value.fields
    ensures HasKey(PriceSpecification(v).value, "price") ==>
      (VariantFields(sku, "US", v, strip).Ok? <==> ShowcaseFields(v, strip).Ok?)
    ensures VariantFields(sku, "US", v, strip).Ok? ==> VariantFields(sku, "US", v, strip).value["currency"] == Str("USD")
    ensures VariantFields(sku, "US", v, strip).Ok? ==> region != "US" ==>
      VariantFields(sku, region, v, strip) == Raise(KeyError("priceCurrency"))
    ensures region != "US" && HasKey(PriceSpecification(v).value, "price") ==>
      VariantFields(sku, region, v, strip) == Raise(KeyError("priceCurrency"))
  {
  }

  /**
   * The `model` branch (lines 110-122): select the first variant whose
   * identifier is the SKU and copy its fields; no fields when none matches.
   */
  function ModelFields(sku: string, region: string, model: Value, strip: string -> string): (r: Outcome<Item>)
    ensures r.Ok? ==> r.value.Keys == {} || r.value.Keys == VariantKeys
  {
    var candidates :- ElementsForLookup(model);
    var matched :- FilterBySku(candidates, sku);
    if matched == [] then Ok(map[])
    else
      assert matched[0] in matched;
      VariantFields(sku, region, matched[0], strip)
  }

  /** The fields come from the first variant with the SKU, and are empty only when there is none. */
  lemma ModelFieldsFirstVariant(sku: string, region: string, model: Value, strip: string -> string)
    requires ModelFields(sku, region, model, strip).Ok?
    ensures ElementsForLookup(model).Ok?
    ensures var ps := ElementsForLookup(model).value;
      var k := FirstMatch(ps, sku);
      && (forall i :: 0 <= i < |ps| ==> HasKey(ps[i], "identifier"))
      && (ModelFields(sku, region, model, strip).value == map[] <==> k == |ps|)
      && (k < |ps| ==> VariantFields(sku, region, ps[k], strip) == ModelFields(sku, region, model, strip))
  {
    var ps := ElementsForLookup(model).value;
    var matched := FilterBySku(ps, sku).value;
    if matched != [] {
      assert matched[0] in matched;
      assert VariantFields(sku, region, matched[0], strip).value.Keys == VariantKeys;
    }
  }

  /** `name` copied when the product response has one. */
  function NameField(detail: map<string, Value>): Item
  {
    if "name" in detail then map["name" := detail["name"]] else map[]
  }

  /** The dict after the loop over the product response (lines 104-122). */
  function DetailFields(sku: string, region: string, detail: map<string, Value>, strip: string -> string): (r: Outcome<Item>)
    ensures r.Ok? ==> r.value.Keys - {"name"} == {} || r.value.Keys - {"name"} == VariantKeys
    ensures r.Ok? ==> ("name" in r.value <==> "name" in detail)
    ensures r.Ok? && "name" in detail ==> r.value["name"] == detail["name"]
  {
    if "model" in detail then
      var fields :- ModelFields(sku, region, detail["model"], strip);
      Ok(NameField(detail) + fields)
    else Ok(NameField(detail))
  }

  /** The first of `keys` missing from `result`: the one whose lookup raises KeyError. */
  function FirstMissing(result: Item, keys: seq<string>): (r: Option<string>)
    ensures r.None? <==> forall i :: 0 <= i < |keys| ==> keys[i] in result
    ensures r.Some? ==> r.value in keys && r.value !in result
    ensures r.Some? ==> exists i :: 0 <= i < |keys| && keys[i] == r.value && forall j :: 0 <= j < i ==> keys[j] in result
  {
    if keys == [] then None
    else if keys[0] !in result then Some(keys[0])
    else
      var rest := FirstMissing(result, keys[1..]);
      assert forall i :: 1 <= i < |keys| ==> keys[i] == keys[1..][i - 1];
      rest
  }

  /** `sku_simple_info.get('errors') and len(sku_simple_info['errors']) > 0`. */
  function ErrorsReported(info: map<string, Value>): (r: Outcome<bool>)
    ensures r.Raise? <==> Truthy(Get(info, "errors")) && Len(Get(info, "errors")).Raise?
    ensures r.Ok? ==> (r.value <==> Truthy(Get(info, "errors")))
  {
    var errors := Get(info, "errors");
    if !Truthy(errors) then Ok(false)
    else
      var n :- Len(errors);
      TruthyLen(errors);
      Ok(n > 0)
  }

  /** The stamped result dict (lines 124-126). */
  function Stamped(fields: Item, stamp: string, productId: Value, region: string): Item
  {
    fields["fetchTime" := Str(stamp)]["productId" := productId]["region" := Str(region)]
  }

  /** Lines 124-135: stamp the dict, then the status lines read the printed keys. */
  function Finish(fields: Item, stamp: string, productId: Value, region: string): FetchOutcome
  {
    var result := Stamped(fields, stamp, productId, region);
    match FirstMissing(result, PrintedKeys)
    case Some(k) => Raised(KeyError(k))
    case None => Record(result)
  }

  /** A dict with the shape the loop leaves: maybe a name, and no or all variant fields. */
  predicate LoopShaped(fields: Item)
  {
    && fields.Keys - {"name"} <= VariantKeys
    && (fields.Keys - {"name"} == {} || fields.Keys - {"name"} == VariantKeys)
  }

  /**
   * The status lines fail on `sku` when no variant matched, on `name` when
   * the product had none, and otherwise the record holds every record key.
   */
  lemma FinishMeaning(fields: Item, stamp: string, productId: Value, region: string)
    requires LoopShaped(fields)
    ensures "sku" !in fields ==> Finish(fields, stamp, productId, region) == Raised(KeyError("sku"))
    ensures "sku" in fields && "name" !in fields ==> Finish(fields, stamp, productId, region) == Raised(KeyError("name"))
    ensures "sku" in fields && "name" in fields ==>
      && Finish(fields, stamp, productId, region) == Record(Stamped(fields, stamp, productId, region))
      && Stamped(fields, stamp, productId, region).Keys == RecordKeys
  {
    var result := Stamped(fields, stamp, productId, region);
    assert PrintedKeys == ["sku", "productId", "name", "price", "currency", "description"];
    assert PrintedKeys[1..] == ["productId", "name", "price", "currency", "description"];
    assert PrintedKeys[2..] == ["name", "price", "currency", "description"];
    if "sku" in fields {
      assert fields.Keys - {"name"} == VariantKeys;
      assert FirstMissing(result, PrintedKeys) == FirstMissing(result, PrintedKeys[1..]);
      assert FirstMissing(result, PrintedKeys[1..]) == FirstMissing(result, PrintedKeys[2..]);
    }
  }

  /** The fetch once the product response `detail` has been read (lines 103-135). */
  function FromDetail(sku: string, region: string, stamp: string, productId: Value, detail: Value, strip: string -> string): FetchOutcome
  {
    if !Truthy(detail) then NoRecord
    else if !detail.Obj? then Raised(AttributeError)
    else
      match DetailFields(sku, region, detail.fields, strip)
      case Raise(f) => Raised(f)
      case Ok(fields) => Finish(fields, stamp, productId, region)
  }

  /**
   * One call of `fetch_product_info(sku, lvRegion)` once the parsed
   * responses are known; `stamp` is the run's fetch time followed by "Z".
   */
  function Fetch(sku: string, lvRegion: RegionEntry, stamp: string, catalog: Catalog, strip: string -> string): FetchOutcome
  {
    var sku := Upper(sku);
    var info := catalog.skuDetails(lvRegion.lang, sku);
    if !info.Obj? then Raised(AttributeError)
    else
      match ErrorsReported(info.fields)
      case Raise(f) => Raised(f)
      case Ok(reported) =>
        if reported then NoRecord
        else if "productId" !in info.fields then Raised(KeyError("productId"))
        else
          var productId := info.fields["productId"];
          if !Truthy(productId) then NoRecord
          else FromDetail(sku, lvRegion.region, stamp, productId, catalog.productDetails(lvRegion.lang, productId), strip)
  }

  /** The first response of the fetch. */
  function Info(sku: string, lvRegion: RegionEntry, catalog: Catalog): Value
  {
    catalog.skuDetails(lvRegion.lang, Upper(sku))
  }

  /** The fetch gets past the first response to the product request. */
  predicate ReachesDetail(sku: string, lvRegion: RegionEntry, catalog: Catalog)
  {
    var info := Info(sku, lvRegion, catalog);
    && info.Obj?
    && !Truthy(Get(info.fields, "errors"))
    && "productId" in info.fields
    && Truthy(info.fields["productId"])
  }

  /** The product response, for a fetch that reaches it. */
  function Detail(sku: string, lvRegion: RegionEntry, catalog: Catalog): Value
    requires ReachesDetail(sku, lvRegion, catalog)
  {
    catalog.productDetails(lvRegion.lang, Info(sku, lvRegion, catalog).fields["productId"])
  }

  /** Past the first response, the fetch is `FromDetail` on the product response. */
  lemma FetchReachingDetail(sku: string, lvRegion: RegionEntry, stamp: string, catalog: Catalog, strip: string -> string)
    requires ReachesDetail(sku, lvRegion, catalog)
    ensures Fetch(sku, lvRegion, stamp, catalog, strip) ==
      FromDetail(Upper(sku), lvRegion.region, stamp, Info(sku, lvRegion, catalog).fields["productId"], Detail(sku, lvRegion, catalog), strip)
  {
    assert ErrorsReported(Info(sku, lvRegion, catalog).fields) == Ok(false);
  }

  /**
   * The three "no result" exits and nothing else: a non-empty errors list,
   * a falsy productId, or an empty product response.
   */
  lemma FetchNoRecordExits(sku: string, lvRegion: RegionEntry, stamp: string, catalog: Catalog, strip: string -> string)
    ensures var info := Info(sku, lvRegion, catalog);
      Fetch(sku, lvRegion, stamp, catalog, strip) == NoRecord <==>
        && info.Obj?
        && (|| (Truthy(Get(info.fields, "errors")) && Len(Get(info.fields, "errors")).Ok?)
            || (&& !Truthy(Get(info.fields, "errors"))
                && "productId" in info.fields
                && !Truthy(info.fields["productId"]))
            || (ReachesDetail(sku, lvRegion, catalog) && !Truthy(Detail(sku, lvRegion, catalog))))
  {
    var info := Info(sku, lvRegion, catalog);
    if info.Obj? && Truthy(Get(info.fields, "errors")) && Len(Get(info.fields, "errors")).Ok? {
      TruthyLen(Get(info.fields, "errors"));
    }
    if ReachesDetail(sku, lvRegion, catalog) {
      FetchReachingDetail(sku, lvRegion, stamp, catalog, strip);
      var detail := Detail(sku, lvRegion, catalog);
      if Truthy(detail) && detail.Obj? && DetailFields(Upper(sku), lvRegion.region, detail.fields, strip).Ok? {
        FinishMeaning(DetailFields(Upper(sku), lvRegion.region, detail.fields, strip).value, stamp,
          info.fields["productId"], lvRegion.region);
      }
    }
  }

  /** A missing productId is a KeyError, not a silent "no result". */
  lemma FetchMissingProductId(sku: string, lvRegion: RegionEntry, stamp: string, catalog: Catalog, strip: string -> string)
    requires var info := Info(sku, lvRegion, catalog);
      info.Obj? && !Truthy(Get(info.fields, "errors")) && "productId" !in info.fields
    ensures Fetch(sku, lvRegion, stamp, catalog, strip) == Raised(KeyError("productId"))
  {
  }

  /** Only a fetch that reaches a non-empty product dict that reads cleanly returns a record. */
  lemma FetchRecordReached(sku: string, lvRegion: RegionEntry, stamp: string, catalog: Catalog, strip: string -> string)
    requires Fetch(sku, lvRegion, stamp, catalog, strip).Record?
    ensures ReachesDetail(sku, lvRegion, catalog)
    ensures Truthy(Detail(sku, lvRegion, catalog)) && Detail(sku, lvRegion, catalog).Obj?
    ensures DetailFields(Upper(sku), lvRegion.region, Detail(sku, lvRegion, catalog).fields, strip).Ok?
  {
  }

  /**
   * A returned record: exactly the record keys, the requested SKU upper-cased,
   * the stamps, the first response's productId and the product's name.
   */
  lemma FetchRecordStamped(sku: string, lvRegion: RegionEntry, stamp: string, catalog: Catalog, strip: string -> string)
    requires Fetch(sku, lvRegion, stamp, catalog, strip).Record?
    ensures ReachesDetail(sku, lvRegion, catalog)
    ensures Detail(sku, lvRegion, catalog).Obj? && "name" in Detail(sku, lvRegion, catalog).fields
    ensures var item := Fetch(sku, lvRegion, stamp, catalog, strip).item;
      && item.Keys == RecordKeys
      && item["sku"] == Str(Upper(sku))
      && item["fetchTime"] == Str(stamp)
      && item["productId"] == Info(sku, lvRegion, catalog).fields["productId"]
      && item["region"] == Str(lvRegion.region)
      && item["name"] == Detail(sku, lvRegion, catalog).fields["name"]
  {
    FetchRecordFields(sku, lvRegion, stamp, catalog, strip);
    var pid := Info(sku, lvRegion, catalog).fields["productId"];
    var detail := Detail(sku, lvRegion, catalog).fields;
    var fields := DetailFields(Upper(sku), lvRegion.region, detail, strip).value;
    FinishMeaning(fields, stamp, pid, lvRegion.region);
    DetailFieldsVariant(Upper(sku), lvRegion.region, detail, strip);
    var ps := ElementsForLookup(detail["model"]).value;
    var k := FirstMatch(ps, Upper(sku));
    VariantFieldsMeaning(Upper(sku), lvRegion.region, ps[k], strip);
    StampedKeeps(fields, stamp, pid, lvRegion.region);
    assert "sku" in VariantKeys && "name" !in StampKeys;
  }

  /**
   * The variant fields of a returned record come from the first `model`
   * entry whose identifier is the upper-cased SKU.
   */
  lemma FetchRecordVariant(sku: string, lvRegion: RegionEntry, stamp: string, catalog: Catalog, strip: string -> string)
    requires Fetch(sku, lvRegion, stamp, catalog, strip).Record?
    ensures ReachesDetail(sku, lvRegion, catalog)
    ensures var item := Fetch(sku, lvRegion, stamp, catalog, strip).item;
      var detail := Detail(sku, lvRegion, catalog);
      && detail.Obj? && "model" in detail.fields
      && ElementsForLookup(detail.fields["model"]).Ok?
      && var ps := ElementsForLookup(detail.fields["model"]).value;
         var k := FirstMatch(ps, Upper(sku));
         && k < |ps|
         && VariantFields(Upper(sku), lvRegion.region, ps[k], strip).Ok?
         && forall key :: key in VariantKeys ==> item[key] == VariantFields(Upper(sku), lvRegion.region, ps[k], strip).value[key]
  {
    FetchRecordFields(sku, lvRegion, stamp, catalog, strip);
    var detail := Detail(sku, lvRegion, catalog).fields;
    var fields := DetailFields(Upper(sku), lvRegion.region, detail, strip).value;
    DetailFieldsVariant(Upper(sku), lvRegion.region, detail, strip);
    StampedKeeps(fields, stamp, Info(sku, lvRegion, catalog).fields["productId"], lvRegion.region);
  }

  /** A returned record is the loop's dict, stamped, and that dict has a `sku`. */
  lemma FetchRecordFields(sku: string, lvRegion: RegionEntry, stamp: string, catalog: Catalog, strip: string -> string)
    requires Fetch(sku, lvRegion, stamp, catalog, strip).Record?
    ensures ReachesDetail(sku, lvRegion, catalog)
    ensures Truthy(Detail(sku, lvRegion, catalog)) && Detail(sku, lvRegion, catalog).Obj?
    ensures var fields := DetailFields(Upper(sku), lvRegion.region, Detail(sku, lvRegion, catalog).fields, strip);
      && fields.Ok? && "sku" in fields.value
      && Fetch(sku, lvRegion, stamp, catalog, strip).item
         == Stamped(fields.value, stamp, Info(sku, lvRegion, catalog).fields["productId"], lvRegion.region)
  {
    FetchRecordReached(sku, lvRegion, stamp, catalog, strip);
    FetchReachingDetail(sku, lvRegion, stamp, catalog, strip);
    var pid := Info(sku, lvRegion, catalog).fields["productId"];
    var fields := DetailFields(Upper(sku), lvRegion.region, Detail(sku, lvRegion, catalog).fields, strip).value;
    FinishMeaning(fields, stamp, pid, lvRegion.region);
  }

  /** Stamping leaves every other key as it was. */
  lemma StampedKeeps(fields: Item, stamp: string, productId: Value, region: string)
    ensures forall key :: key !in StampKeys ==>
      (key in Stamped(fields, stamp, productId, region) <==> key in fields)
      && (key in fields ==> Stamped(fields, stamp, productId, region)[key] == fields[key])
  {
  }

  /** Product fields that hold a `sku` got it, and the other variant fields, from the first matching variant. */
  lemma DetailFieldsVariant(sku: string, region: string, detail: map<string, Value>, strip: string -> string)
    requires DetailFields(sku, region, detail, strip).Ok?
    requires "sku" in DetailFields(sku, region, detail, strip).value
    ensures "model" in detail && ElementsForLookup(detail["model"]).Ok?
    ensures var ps := ElementsForLookup(detail["model"]).value;
      var k := FirstMatch(ps, sku);
      && k < |ps|
      && VariantFields(sku, region, ps[k], strip).Ok?
      && forall key :: key in VariantKeys ==>
        DetailFields(sku, region, detail, strip).value[key] == VariantFields(sku, region, ps[k], strip).value[key]
  {
    var fields := DetailFields(sku, region, detail, strip).value;
    assert "model" in detail;
    var m := ModelFields(sku, region, detail["model"], strip).value;
    assert fields == NameField(detail) + m;
    assert "sku" in m;
    ModelFieldsFirstVariant(sku, region, detail["model"], strip);
  }

  /**
   * Once the product response is reached and its fields are read without an
   * exception, no matching variant means KeyError('sku'), a matching
   * variant without a product name means KeyError('name'), and otherwise
   * the fetch returns a record.
   */
  lemma FetchFailsWithoutVariantOrName(sku: string, lvRegion: RegionEntry, stamp: string, catalog: Catalog, strip: string -> string)
    requires ReachesDetail(sku, lvRegion, catalog)
    requires Truthy(Detail(sku, lvRegion, catalog)) && Detail(sku, lvRegion, catalog).Obj?
    requires DetailFields(Upper(sku), lvRegion.region, Detail(sku, lvRegion, catalog).fields, strip).Ok?
    ensures var detail := Detail(sku, lvRegion, catalog).fields;
      var noVariant := "model" !in detail || ModelFields(Upper(sku), lvRegion.region, detail["model"], strip).value == map[];
      && (noVariant ==> Fetch(sku, lvRegion, stamp, catalog, strip) == Raised(KeyError("sku")))
      && (!noVariant && "name" !in detail ==> Fetch(sku, lvRegion, stamp, catalog, strip) == Raised(KeyError("name")))
      && (!noVariant && "name" in detail ==> Fetch(sku, lvRegion, stamp, catalog, strip).Record?)
  {
    FetchReachingDetail(sku, lvRegion, stamp, catalog, strip);
    var pid := Info(sku, lvRegion, catalog).fields["productId"];
    var detail := Detail(sku, lvRegion, catalog).fields;
    var fields := DetailFields(Upper(sku), lvRegion.region, detail, strip).value;
    FinishMeaning(fields, stamp, pid, lvRegion.region);
    if "model" in detail {
      var m := ModelFields(Upper(sku), lvRegion.region, detail["model"], strip).value;
      assert fields == NameField(detail) + m;
      if m != map[] {
        assert "sku" in m;
      }
    }
  }

  /** The tags of a returned record, as the aggregation loop relies on them. */
  lemma RecordTags(sku: string, lvRegion: RegionEntry, stamp: string, catalog: Catalog, strip: string -> string)
    requires Fetch(sku, lvRegion, stamp, catalog, strip).Record?
    ensures var item := Fetch(sku, lvRegion, stamp, catalog, strip).item;
      && item.Keys == RecordKeys
      && item["sku"] == Str(Upper(sku))
      && item["fetchTime"] == Str(stamp)
      && item["region"] == Str(lvRegion.region)
  {
    FetchRecordStamped(sku, lvRegion, stamp, catalog, strip);
  }
}

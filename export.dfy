/**
 * Export shaping: the key-to-column table `exportXlsx` builds from the
 * items, its 1-based row index, the output file names derived from the
 * fetch time, and the document `exportJson` writes.
 */
module Export {
  import opened Wrappers
  import opened Strings
  import opened Json
  import opened Config
  import opened ProductFetch

  /** `result_df`: one list of values per key. */
  type Table = map<string, seq<Value>>

  /** A file the run writes: its path and what goes into it. */
  datatype OutputFile =
    | JsonFile(path: string, document: Value)
    | XlsxFile(path: string, columns: seq<(string, seq<Value>)>, index: seq<int>)

  /** Every key that occurs in some item. */
  function AllKeys(items: seq<Item>): set<string>
    decreases |items|
  {
    if items == [] then {} else AllKeys(items[..|items| - 1]) + items[|items| - 1].Keys
  }

  lemma {:induction false} AllKeysMeaning(items: seq<Item>)
    ensures forall k :: k in AllKeys(items) <==> exists i :: 0 <= i < |items| && k in items[i]
    decreases |items|
  {
    if items != [] {
      var front := items[..|items| - 1];
      AllKeysMeaning(front);
      assert forall i :: 0 <= i < |front| ==> front[i] == items[i];
    }
  }

  /** The values of `key` in the items that contain it, in item order. */
  function Column(items: seq<Item>, key: string): seq<Value>
    decreases |items|
  {
    if items == [] then []
    else
      var last := items[|items| - 1];
      Column(items[..|items| - 1], key) + (if key in last then [last[key]] else [])
  }

  /** The column table of the items. */
  function Columns(items: seq<Item>): Table
  {
    map k | k in AllKeys(items) :: Column(items, k)
  }

  /** The table after appending the values of `keys` from one more item. */
  function AddCells(t: Table, item: Item, keys: set<string>): Table
    requires keys <= item.Keys
  {
    map k | k in t.Keys + keys :: (if k in t then t[k] else []) + (if k in keys then [item[k]] else [])
  }

  /** One more item adds its values at the end of its keys' columns. */
  lemma ColumnsAppend(items: seq<Item>, item: Item)
    ensures Columns(items + [item]) == AddCells(Columns(items), item, item.Keys)
  {
    var all := items + [item];
    assert all[..|items|] == items;
    assert AllKeys(all) == AllKeys(items) + item.Keys;
    forall k | k in AllKeys(all)
      ensures Columns(all)[k] == AddCells(Columns(items), item, item.Keys)[k]
    {
      assert Column(all, k) == Column(items, k) + (if k in item then [item[k]] else []);
      if k !in AllKeys(items) {
        ColumnAbsent(items, k);
      }
    }
  }

  /** Appending nothing leaves the table as it is. */
  lemma AddCellsNone(t: Table, item: Item)
    ensures AddCells(t, item, {}) == t
  {
    var u := AddCells(t, item, {});
    assert u.Keys == t.Keys;
    forall k | k in t
      ensures u[k] == t[k]
    {
      assert t[k] + [] == t[k];
    }
  }

  /** Appending the value of one more key. */
  lemma AddCellsStep(t: Table, item: Item, keys: set<string>, k: string)
    requires keys <= item.Keys && k in item && k !in keys
    ensures var u := AddCells(t, item, keys);
      AddCells(t, item, keys + {k}) == u[k := (if k in u then u[k] else []) + [item[k]]]
  {
    var u := AddCells(t, item, keys);
    var w := AddCells(t, item, keys + {k});
    var v := u[k := (if k in u then u[k] else []) + [item[k]]];
    assert w.Keys == v.Keys;
    forall j | j in w
      ensures w[j] == v[j]
    {
      if j != k {
        assert j in keys + {k} <==> j in keys;
      } else {
        assert k !in keys;
        assert (if k in t then t[k] else []) + [] == (if k in t then t[k] else []);
      }
    }
  }

  /** A key that no item has has an empty column. */
  lemma {:induction false} ColumnAbsent(items: seq<Item>, key: string)
    requires key !in AllKeys(items)
    ensures Column(items, key) == []
    decreases |items|
  {
    if items != [] {
      ColumnAbsent(items[..|items| - 1], key);
    }
  }

  /** When every item has the same keys, each column has one value per item, in item order. */
  lemma {:induction false} ColumnFull(items: seq<Item>, key: string)
    requires forall i :: 0 <= i < |items| ==> key in items[i]
    ensures |Column(items, key)| == |items|
    ensures forall i :: 0 <= i < |items| ==> Column(items, key)[i] == items[i][key]
    decreases |items|
  {
    if items != [] {
      var front := items[..|items| - 1];
      assert forall i :: 0 <= i < |front| ==> front[i] == items[i];
      ColumnFull(front, key);
    }
  }

  /**
   * Items that all have the same keys give a rectangular table: exactly
   * those keys, each column holding every item's value in item order.
   */
  lemma {:induction false} ColumnsUniform(items: seq<Item>, keys: set<string>)
    requires |items| > 0
    requires forall i :: 0 <= i < |items| ==> items[i].Keys == keys
    ensures Columns(items).Keys == keys
    ensures forall k :: k in keys ==>
      && |Columns(items)[k]| == |items|
      && forall i :: 0 <= i < |items| ==> Columns(items)[k][i] == items[i][k]
  {
    AllKeysMeaning(items);
    assert AllKeys(items) == keys by {
      assert forall k :: k in keys ==> k in items[0];
    }
    forall k | k in keys
      ensures |Columns(items)[k]| == |items|
      ensures forall i :: 0 <= i < |items| ==> Columns(items)[k][i] == items[i][k]
    {
      ColumnFull(items, k);
    }
  }

  /** The columns line 146 keeps (every one except `image`). */
  const SelectedColumns: seq<string> := ["sku", "productId", "name", "price", "currency", "color", "region", "fetchTime", "description"]

  /**
   * `df[names]`: the named columns in that order, or KeyError when one of
   * them is not in the table.
   */
  function SelectColumns(t: Table, names: seq<string>): (r: Outcome<seq<(string, seq<Value>)>>)
    ensures r.Ok? <==> forall i :: 0 <= i < |names| ==> names[i] in t
    ensures r.Ok? ==> |r.value| == |names|
    ensures r.Ok? ==> forall i :: 0 <= i < |names| ==> r.value[i] == (names[i], t[names[i]])
    ensures r.Raise? ==> r.fault.KeyError? && r.fault.key in names && r.fault.key !in t
    ensures r.Raise? ==> exists i :: 0 <= i < |names| && names[i] == r.fault.key && forall j :: 0 <= j < i ==> names[j] in t
    decreases |names|
  {
    if names == [] then Ok([])
    else if names[0] !in t then Raise(KeyError(names[0]))
    else
      var rest :- SelectColumns(t, names[1..]);
      assert forall i :: 1 <= i < |names| ==> names[i] == names[1..][i - 1];
      Ok([(names[0], t[names[0]])] + rest)
  }

  /**
   * With at least one record, the spreadsheet has the nine selected
   * columns in order, each holding every record's value in record order.
   */
  lemma SelectedColumnsPresent(items: seq<Item>)
    requires |items| > 0
    requires forall i :: 0 <= i < |items| ==> items[i].Keys == RecordKeys
    ensures SelectColumns(Columns(items), SelectedColumns).Ok?
    ensures var cols := SelectColumns(Columns(items), SelectedColumns).value;
      forall c :: 0 <= c < |cols| ==>
        && cols[c].0 == SelectedColumns[c]
        && |cols[c].1| == |items|
        && forall i :: 0 <= i < |items| ==> cols[c].1[i] == items[i][SelectedColumns[c]]
  {
    ColumnsUniform(items, RecordKeys);
  }

  /** Without any record the table is empty, and the selection raises KeyError('sku'). */
  lemma SelectionWithoutRecords()
    ensures SelectColumns(Columns([]), SelectedColumns) == Raise(KeyError("sku"))
  {
    assert AllKeys([]) == {};
  }

  /** `np.arange(1, n + 1)`: row labels 1 to n. */
  function RowIndex(n: nat): (r: seq<int>)
    ensures |r| == n
    ensures forall i :: 0 <= i < n ==> r[i] == i + 1
  {
    if n == 0 then [] else RowIndex(n - 1) + [n]
  }

  /**
   * `f'./{fetch_time.replace(":", "-")}Z.{ext}'`: the fetch time with
   * every colon turned into a hyphen, then `Z.` and the extension.
   */
  function OutputPath(fetchTime: string, ext: string): (r: string)
    ensures |r| == |fetchTime| + |ext| + 4
    ensures r[..2] == "./"
    ensures forall i :: 0 <= i < |fetchTime| ==> r[i + 2] == (if fetchTime[i] == ':' then '-' else fetchTime[i])
    ensures r[|fetchTime| + 2..] == "Z." + ext
    ensures ':' !in ext ==> ':' !in r
  {
    var stem := ReplaceChar(fetchTime, ':', '-');
    var r := "./" + stem + "Z." + ext;
    assert r[|fetchTime| + 2..] == "Z." + ext;
    assert forall i :: 0 <= i < |fetchTime| ==> r[i + 2] == stem[i];
    r
  }

  /** The two exports share one name up to the extension ("Z.xlsx" against "Z.json"). */
  lemma OutputPathsShareStem(fetchTime: string)
    ensures OutputPath(fetchTime, "xlsx")[..|fetchTime| + 2] == OutputPath(fetchTime, "json")[..|fetchTime| + 2]
    ensures ':' !in OutputPath(fetchTime, "xlsx") && ':' !in OutputPath(fetchTime, "json")
  {
    var x, j := OutputPath(fetchTime, "xlsx"), OutputPath(fetchTime, "json");
    assert forall i :: 0 <= i < |fetchTime| + 2 ==> x[i] == j[i] by {
      forall i | 0 <= i < |fetchTime| + 2
        ensures x[i] == j[i]
      {
        if i < 2 {
          assert x[i] == x[..2][i] && j[i] == j[..2][i];
        } else {
          assert x[(i - 2) + 2] == j[(i - 2) + 2];
        }
      }
    }
  }

  /** One `lv_regions` entry as a JSON object. */
  function RegionValue(e: RegionEntry): Value
  {
    Obj(map["lang" := Str(e.lang), "region" := Str(e.region)])
  }

  /** `self.result` as the document `json.dump` writes. */
  function ResultDocument(items: seq<Item>, regions: seq<RegionEntry>, fetchTime: string): Value
  {
    Obj(map[
      "items" := Arr(seq(|items|, i requires 0 <= i < |items| => Obj(items[i]))),
      "lv_regions" := Arr(seq(|regions|, i requires 0 <= i < |regions| => RegionValue(regions[i]))),
      "fetch_time" := Str(fetchTime)
    ])
  }

  function DecodeItems(vs: seq<Value>): Option<seq<Item>>
  {
    if vs == [] then Some([])
    else if !vs[0].Obj? then None
    else
      match DecodeItems(vs[1..])
      case None => None
      case Some(rest) => Some([vs[0].fields] + rest)
  }

  function DecodeRegion(v: Value): Option<RegionEntry>
  {
    if v.Obj? && "lang" in v.fields && "region" in v.fields
       && v.fields["lang"].Str? && v.fields["region"].Str?
    then Some(RegionEntry(v.fields["lang"].s, v.fields["region"].s))
    else None
  }

  function DecodeRegions(vs: seq<Value>): Option<seq<RegionEntry>>
  {
    if vs == [] then Some([])
    else
      match DecodeRegion(vs[0])
      case None => None
      case Some(e) =>
        match DecodeRegions(vs[1..])
        case None => None
        case Some(rest) => Some([e] + rest)
  }

  /** Reading a result document back into items, regions and fetch time. */
  function DecodeDocument(doc: Value): Option<(seq<Item>, seq<RegionEntry>, string)>
  {
    if !(doc.Obj? && "items" in doc.fields && "lv_regions" in doc.fields && "fetch_time" in doc.fields) then None
    else if !(doc.fields["items"].Arr? && doc.fields["lv_regions"].Arr? && doc.fields["fetch_time"].Str?) then None
    else
      match DecodeItems(doc.fields["items"].elems)
      case None => None
      case Some(items) =>
        match DecodeRegions(doc.fields["lv_regions"].elems)
        case None => None
        case Some(regions) => Some((items, regions, doc.fields["fetch_time"].s))
  }

  lemma {:induction false} DecodeItemsRoundTrip(items: seq<Item>)
    ensures DecodeItems(seq(|items|, i requires 0 <= i < |items| => Obj(items[i]))) == Some(items)
    decreases |items|
  {
    if items != [] {
      var vs := seq(|items|, i requires 0 <= i < |items| => Obj(items[i]));
      DecodeItemsRoundTrip(items[1..]);
      assert vs[1..] == seq(|items[1..]|, i requires 0 <= i < |items[1..]| => Obj(items[1..][i]));
      assert [items[0]] + items[1..] == items;
    }
  }

  lemma {:induction false} DecodeRegionsRoundTrip(regions: seq<RegionEntry>)
    ensures DecodeRegions(seq(|regions|, i requires 0 <= i < |regions| => RegionValue(regions[i]))) == Some(regions)
    decreases |regions|
  {
    if regions != [] {
      var vs := seq(|regions|, i requires 0 <= i < |regions| => RegionValue(regions[i]));
      DecodeRegionsRoundTrip(regions[1..]);
      assert vs[1..] == seq(|regions[1..]|, i requires 0 <= i < |regions[1..]| => RegionValue(regions[1..][i]));
      assert [regions[0]] + regions[1..] == regions;
    }
  }

  /** The JSON document holds the run's items, regions and fetch time, and gives them back. */
  lemma DocumentRoundTrip(items: seq<Item>, regions: seq<RegionEntry>, fetchTime: string)
    ensures DecodeDocument(ResultDocument(items, regions, fetchTime)) == Some((items, regions, fetchTime))
  {
    DecodeItemsRoundTrip(items);
    DecodeRegionsRoundTrip(regions);
  }

  /** The files `get_products` writes for an export mode (lines 69-73), or the exception of the export. */
  function ExportsFor(exportMode: string, items: seq<Item>, regions: seq<RegionEntry>, fetchTime: string): Outcome<seq<OutputFile>>
  {
    var json := if exportMode == "JSON" then [JsonFile(OutputPath(fetchTime, "json"), ResultDocument(items, regions, fetchTime))] else [];
    if exportMode == "XLSX" then
      var cols :- SelectColumns(Columns(items), SelectedColumns);
      Ok(json + [XlsxFile(OutputPath(fetchTime, "xlsx"), cols, RowIndex(|items|))])
    else Ok(json)
  }

  /**
   * A configured mode writes exactly one file, of its own kind, except that
   * a spreadsheet of no records raises KeyError('sku') and writes nothing.
   */
  lemma OneFilePerMode(exportMode: string, items: seq<Item>, regions: seq<RegionEntry>, fetchTime: string)
    requires exportMode == "XLSX" || exportMode == "JSON"
    requires forall i :: 0 <= i < |items| ==> items[i].Keys == RecordKeys
    ensures exportMode == "XLSX" && items == [] ==> ExportsFor(exportMode, items, regions, fetchTime) == Raise(KeyError("sku"))
    ensures exportMode == "JSON" || items != [] ==>
      && ExportsFor(exportMode, items, regions, fetchTime).Ok?
      && |ExportsFor(exportMode, items, regions, fetchTime).value| == 1
      && (ExportsFor(exportMode, items, regions, fetchTime).value[0].JsonFile? <==> exportMode == "JSON")
  {
    if exportMode == "XLSX" {
      if items == [] {
        SelectionWithoutRecords();
      } else {
        SelectedColumnsPresent(items);
      }
    }
  }
}

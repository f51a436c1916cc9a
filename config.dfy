/**
 * Configuration checks made when the crawler object is built: the export
 * mode and the region codes, resolved against the fixed region-to-locale
 * table.
 */
module Config {
  import opened Wrappers
  import opened Strings

  /** One entry of `lv_regions`: the API locale and the region code. */
  datatype RegionEntry = RegionEntry(lang: string, region: string)

  /** The two `ValueError`s construction can raise. */
  datatype ConfigError = InvalidExportMode | InvalidRegion

  /** `region_to_lang`: the eight supported regions and their API locales. */
  const RegionToLang: map<string, string> :=
    map[
      "UK" := "eng-gb",
      "AU" := "eng-au",
      "US" := "eng-us",
      "HK" := "eng-hk",
      "FR" := "fra-fr",
      "KR" := "kor-kr",
      "JP" := "jpn-jp",
      "TW" := "zht-tw"
    ]

  /** An entry that the table produced for its own region code. */
  predicate KnownEntry(e: RegionEntry)
  {
    e.region in RegionToLang && RegionToLang[e.region] == e.lang
  }

  /** The export mode is recognised case-insensitively and stored upper-cased. */
  function ParseExportMode(input: string): (r: Result<string, ConfigError>)
    ensures r.Success? <==> Upper(input) == "XLSX" || Upper(input) == "JSON"
    ensures r.Success? ==> r.value == Upper(input)
    ensures r.Failure? ==> r.error == InvalidExportMode
  {
    if Upper(input) == "XLSX" then Success("XLSX")
    else if Upper(input) == "JSON" then Success("JSON")
    else Failure(InvalidExportMode)
  }

  /** Inputs that agree up to case are parsed alike. */
  lemma ExportModeIgnoresCase(a: string, b: string)
    requires Upper(a) == Upper(b)
    ensures ParseExportMode(a) == ParseExportMode(b)
  {
  }

  /** The stored mode is accepted again as it stands. */
  lemma {:induction false} ExportModeStable(input: string)
    requires ParseExportMode(input).Success?
    ensures ParseExportMode(ParseExportMode(input).value) == ParseExportMode(input)
  {
    UpperIdempotent(input);
  }

  /** One region code looked up after upper-casing. */
  function ResolveRegion(code: string): (r: Option<RegionEntry>)
    ensures r.Some? <==> Upper(code) in RegionToLang
    ensures r.Some? ==> r.value.region == Upper(code) && KnownEntry(r.value)
  {
    var u := Upper(code);
    if u in RegionToLang then Some(RegionEntry(RegionToLang[u], u)) else None
  }

  /**
   * The `lv_regions` list: one entry per code in input order, or
   * InvalidRegion as soon as one code is not in the table.
   */
  function ResolveRegions(codes: seq<string>): (r: Result<seq<RegionEntry>, ConfigError>)
    ensures r.Success? <==> forall i :: 0 <= i < |codes| ==> Upper(codes[i]) in RegionToLang
    ensures r.Success? ==> |r.value| == |codes|
    ensures r.Success? ==> forall i :: 0 <= i < |codes| ==>
      r.value[i] == RegionEntry(RegionToLang[Upper(codes[i])], Upper(codes[i]))
    ensures r.Failure? ==> r.error == InvalidRegion
    decreases |codes|
  {
    if codes == [] then Success([])
    else
      var n := |codes| - 1;
      match ResolveRegions(codes[..n])
      case Failure(e) => Failure(e)
      case Success(entries) =>
        match ResolveRegion(codes[n])
        case None => Failure(InvalidRegion)
        case Some(e) => Success(entries + [e])
  }

  /** Region codes that agree up to case resolve alike. */
  lemma {:induction false} ResolveRegionsIgnoresCase(a: seq<string>, b: seq<string>)
    requires |a| == |b|
    requires forall i :: 0 <= i < |a| ==> Upper(a[i]) == Upper(b[i])
    ensures ResolveRegions(a) == ResolveRegions(b)
  {
    var ra, rb := ResolveRegions(a), ResolveRegions(b);
    if ra.Success? && rb.Success? {
      assert ra.value == rb.value;
    }
  }

  /** Every resolved entry carries the table's locale for its code. */
  lemma ResolvedEntriesKnown(codes: seq<string>)
    requires ResolveRegions(codes).Success?
    ensures forall e :: e in ResolveRegions(codes).value ==> KnownEntry(e)
  {
  }

  /**
   * Construction as a whole: the export mode is checked first, then the
   * regions, so an invalid mode is reported even when a region is also bad.
   */
  function Configure(regions: seq<string>, exportMode: string): (r: Result<(string, seq<RegionEntry>), ConfigError>)
    ensures ParseExportMode(exportMode).Failure? ==> r == Failure(InvalidExportMode)
    ensures ParseExportMode(exportMode).Success? && ResolveRegions(regions).Failure? ==> r == Failure(InvalidRegion)
    ensures r.Success? <==> ParseExportMode(exportMode).Success? && ResolveRegions(regions).Success?
    ensures r.Success? ==> r.value.0 == Upper(exportMode) && r.value.1 == ResolveRegions(regions).value
  {
    match ParseExportMode(exportMode)
    case Failure(e) => Failure(e)
    case Success(mode) =>
      match ResolveRegions(regions)
      case Failure(e) => Failure(e)
      case Success(entries) => Success((mode, entries))
  }
}

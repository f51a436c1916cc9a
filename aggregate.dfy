/**
 * The aggregation loop of `get_products`: regions in order, and within a
 * region the SKUs in order, keeping the records that come back. An
 * exception from a fetch ends the run with what was kept so far.
 */
module Aggregate {
  import opened Wrappers
  import opened Strings
  import opened Json
  import opened Config
  import opened ProductFetch

  /** One (region, SKU as typed) lookup of the run. */
  type Pair = (RegionEntry, string)

  /** What the loop has gathered: the kept records, and the exception that stopped it, if any. */
  datatype Harvest = Harvest(items: seq<Item>, fault: Option<Fault>)

  /** The lookups for one region, in SKU order. */
  function RegionPairs(region: RegionEntry, skus: seq<string>): (r: seq<Pair>)
    ensures |r| == |skus|
    ensures forall j :: 0 <= j < |skus| ==> r[j] == (region, skus[j])
  {
    seq(|skus|, j requires 0 <= j < |skus| => (region, skus[j]))
  }

  /** The lookups of a run: region-major, SKU-minor. */
  function Pairs(regions: seq<RegionEntry>, skus: seq<string>): (r: seq<Pair>)
    ensures |r| == |regions| * |skus|
    decreases |regions|
  {
    if regions == [] then []
    else Pairs(regions[..|regions| - 1], skus) + RegionPairs(regions[|regions| - 1], skus)
  }

  /** The position of the lookup for region `i` and SKU `j`. */
  function Slot(i: nat, j: nat, width: nat): nat
  {
    i * width + j
  }

  lemma {:induction false} MulMonotone(a: nat, b: nat, c: nat)
    requires a <= b
    ensures a * c <= b * c
    decreases c
  {
    if c > 0 {
      MulMonotone(a, b, c - 1);
      assert a * c == a * (c - 1) + a;
      assert b * c == b * (c - 1) + b;
    }
  }

  lemma SlotBound(i: nat, j: nat, width: nat, rows: nat)
    requires i < rows && j < width
    ensures Slot(i, j, width) < rows * width
  {
    MulMonotone(i + 1, rows, width);
    assert (i + 1) * width == i * width + width;
  }

  /** The lookup for region `i` and SKU `j` sits at slot `i * |skus| + j`. */
  lemma {:induction false} PairsAt(regions: seq<RegionEntry>, skus: seq<string>)
    ensures forall i, j :: 0 <= i < |regions| && 0 <= j < |skus| ==>
      Slot(i, j, |skus|) < |Pairs(regions, skus)| && Pairs(regions, skus)[Slot(i, j, |skus|)] == (regions[i], skus[j])
    decreases |regions|
  {
    if regions != [] {
      var n, m := |regions|, |skus|;
      var front := regions[..n - 1];
      PairsAt(front, skus);
      forall i, j | 0 <= i < n && 0 <= j < m
        ensures Slot(i, j, m) < |Pairs(regions, skus)| && Pairs(regions, skus)[Slot(i, j, m)] == (regions[i], skus[j])
      {
        SlotBound(i, j, m, n);
        if i < n - 1 {
          SlotBound(i, j, m, n - 1);
          assert front[i] == regions[i];
        } else {
          assert Slot(i, j, m) == (n - 1) * m + j;
        }
      }
    }
  }

  /** Every lookup pairs one of the regions with one of the SKUs. */
  lemma {:induction false} PairsFrom(regions: seq<RegionEntry>, skus: seq<string>)
    ensures forall k :: 0 <= k < |Pairs(regions, skus)| ==>
      Pairs(regions, skus)[k].0 in regions && Pairs(regions, skus)[k].1 in skus
    decreases |regions|
  {
    if regions != [] {
      var front := regions[..|regions| - 1];
      PairsFrom(front, skus);
      assert forall r :: r in front ==> r in regions;
    }
  }

  /** One lookup, with the SKU upper-cased as `get_products` passes it. */
  function FetchPair(p: Pair, stamp: string, catalog: Catalog, strip: string -> string): FetchOutcome
  {
    Fetch(Upper(p.1), p.0, stamp, catalog, strip)
  }

  /** One trip round the inner loop: keep a record, skip None, stop on an exception. */
  function Absorb(h: Harvest, o: FetchOutcome): Harvest
  {
    if h.fault.Some? then h
    else
      match o
      case NoRecord => h
      case Record(item) => Harvest(h.items + [item], None)
      case Raised(f) => Harvest(h.items, Some(f))
  }

  /** The loop over the lookups' outcomes, in order. */
  function Collect(os: seq<FetchOutcome>): (h: Harvest)
    ensures |h.items| <= |os|
  {
    if os == [] then Harvest([], None)
    else Absorb(Collect(os[..|os| - 1]), os[|os| - 1])
  }

  lemma CollectAppend(os: seq<FetchOutcome>, o: FetchOutcome)
    ensures Collect(os + [o]) == Absorb(Collect(os), o)
  {
    assert (os + [o])[..|os|] == os;
  }

  lemma {:induction false} CollectFaultSticks(os: seq<FetchOutcome>, qs: seq<FetchOutcome>)
    requires Collect(os).fault.Some?
    ensures Collect(os + qs) == Collect(os)
    decreases |qs|
  {
    if qs != [] {
      var front := qs[..|qs| - 1];
      CollectFaultSticks(os, front);
      assert os + qs == (os + front) + [qs[|qs| - 1]];
      CollectAppend(os + front, qs[|qs| - 1]);
    } else {
      assert os + qs == os;
    }
  }

  lemma {:induction false} CollectConcat(os: seq<FetchOutcome>, qs: seq<FetchOutcome>)
    requires Collect(os).fault.None?
    ensures Collect(os + qs) == Harvest(Collect(os).items + Collect(qs).items, Collect(qs).fault)
    decreases |qs|
  {
    if qs == [] {
      assert os + qs == os;
      assert Collect(os).items + [] == Collect(os).items;
    } else {
      var front := qs[..|qs| - 1];
      var last := qs[|qs| - 1];
      CollectConcat(os, front);
      assert qs == front + [last];
      assert os + qs == (os + front) + [last];
      CollectAppend(os + front, last);
      CollectAppend(front, last);
      var hf := Collect(front);
      if hf.fault.None? && last.Record? {
        AppendAssoc(Collect(os).items, hf.items, [last.item]);
      }
    }
  }

  /** The records among the outcomes, in order: what the loop keeps when nothing raises. */
  function Kept(os: seq<FetchOutcome>): seq<Item>
  {
    if os == [] then []
    else Kept(os[..|os| - 1]) + (if os[|os| - 1].Record? then [os[|os| - 1].item] else [])
  }

  /** A run without an exception keeps exactly the records returned, in order. */
  lemma {:induction false} CollectKept(os: seq<FetchOutcome>)
    ensures Collect(os).fault.None? ==> Collect(os).items == Kept(os)
  {
    if os != [] {
      CollectKept(os[..|os| - 1]);
    }
  }

  /** The outcome of every lookup of `pairs`, in order. */
  function Lookups(pairs: seq<Pair>, fetch: Pair -> FetchOutcome): (os: seq<FetchOutcome>)
    ensures |os| == |pairs|
    ensures forall k :: 0 <= k < |pairs| ==> os[k] == fetch(pairs[k])
  {
    seq(|pairs|, k requires 0 <= k < |pairs| => fetch(pairs[k]))
  }

  lemma LookupsConcat(ps: seq<Pair>, qs: seq<Pair>, fetch: Pair -> FetchOutcome)
    ensures Lookups(ps + qs, fetch) == Lookups(ps, fetch) + Lookups(qs, fetch)
  {
  }

  /** The lookup `get_products` makes for each pair. */
  function Fetcher(stamp: string, catalog: Catalog, strip: string -> string): Pair -> FetchOutcome
  {
    p => FetchPair(p, stamp, catalog, strip)
  }

  /** The whole loop over `pairs`. */
  function Run(pairs: seq<Pair>, stamp: string, catalog: Catalog, strip: string -> string): (h: Harvest)
    ensures |h.items| <= |pairs|
  {
    Collect(Lookups(pairs, Fetcher(stamp, catalog, strip)))
  }

  lemma RunAppend(pairs: seq<Pair>, p: Pair, stamp: string, catalog: Catalog, strip: string -> string)
    ensures Run(pairs + [p], stamp, catalog, strip) == Absorb(Run(pairs, stamp, catalog, strip), FetchPair(p, stamp, catalog, strip))
  {
    var fetch := Fetcher(stamp, catalog, strip);
    LookupsConcat(pairs, [p], fetch);
    CollectAppend(Lookups(pairs, fetch), fetch(p));
    assert Lookups([p], fetch) == [fetch(p)];
  }

  /** A run in which no lookup raises keeps every record the lookups return, in lookup order. */
  lemma RunKept(pairs: seq<Pair>, stamp: string, catalog: Catalog, strip: string -> string)
    ensures Run(pairs, stamp, catalog, strip).fault.None? ==>
      Run(pairs, stamp, catalog, strip).items == Kept(Lookups(pairs, Fetcher(stamp, catalog, strip)))
  {
    CollectKept(Lookups(pairs, Fetcher(stamp, catalog, strip)));
  }

  /** Once a fetch has raised, later lookups change nothing. */
  lemma RunFaultSticks(ps: seq<Pair>, qs: seq<Pair>, stamp: string, catalog: Catalog, strip: string -> string)
    requires Run(ps, stamp, catalog, strip).fault.Some?
    ensures Run(ps + qs, stamp, catalog, strip) == Run(ps, stamp, catalog, strip)
  {
    var fetch := Fetcher(stamp, catalog, strip);
    LookupsConcat(ps, qs, fetch);
    CollectFaultSticks(Lookups(ps, fetch), Lookups(qs, fetch));
  }

  /** The run completes exactly when no lookup raises. */
  lemma {:induction false} RunCompletes(pairs: seq<Pair>, stamp: string, catalog: Catalog, strip: string -> string)
    ensures Run(pairs, stamp, catalog, strip).fault.None? <==>
      forall k :: 0 <= k < |pairs| ==> !FetchPair(pairs[k], stamp, catalog, strip).Raised?
    decreases |pairs|
  {
    if pairs != [] {
      var front := pairs[..|pairs| - 1];
      RunCompletes(front, stamp, catalog, strip);
      assert forall k :: 0 <= k < |front| ==> front[k] == pairs[k];
      assert pairs == front + [pairs[|pairs| - 1]];
      RunAppend(front, pairs[|pairs| - 1], stamp, catalog, strip);
    }
  }

  /**
   * The kept records in order: record `t` is what lookup `idx[t]` returned,
   * with `idx` strictly increasing.
   */
  lemma {:induction false} RunOrigins(pairs: seq<Pair>, stamp: string, catalog: Catalog, strip: string -> string) returns (idx: seq<nat>)
    ensures var items := Run(pairs, stamp, catalog, strip).items;
      && |idx| == |items|
      && (forall t :: 0 <= t < |idx| ==> idx[t] < |pairs| && FetchPair(pairs[idx[t]], stamp, catalog, strip) == Record(items[t]))
      && (forall s, t :: 0 <= s < t < |idx| ==> idx[s] < idx[t])
    decreases |pairs|
  {
    if pairs == [] {
      idx := [];
    } else {
      var n := |pairs| - 1;
      var front := pairs[..n];
      idx := RunOrigins(front, stamp, catalog, strip);
      assert forall k :: 0 <= k < n ==> front[k] == pairs[k];
      assert pairs == front + [pairs[n]];
      RunAppend(front, pairs[n], stamp, catalog, strip);
      var h := Run(front, stamp, catalog, strip);
      if h.fault.None? && FetchPair(pairs[n], stamp, catalog, strip).Record? {
        idx := idx + [n];
      }
    }
  }

  /** Every kept record has the record keys, the run's stamp, and a region and SKU of the run. */
  lemma RunItemsStamped(regions: seq<RegionEntry>, skus: seq<string>, stamp: string, catalog: Catalog, strip: string -> string)
    ensures var items := Run(Pairs(regions, skus), stamp, catalog, strip).items;
      forall t :: 0 <= t < |items| ==>
        && items[t].Keys == RecordKeys
        && items[t]["fetchTime"] == Str(stamp)
        && (exists r :: r in regions && items[t]["region"] == Str(r.region))
        && (exists s :: s in skus && items[t]["sku"] == Str(Upper(s)))
  {
    var pairs := Pairs(regions, skus);
    var items := Run(pairs, stamp, catalog, strip).items;
    var idx := RunOrigins(pairs, stamp, catalog, strip);
    PairsFrom(regions, skus);
    forall t | 0 <= t < |items|
      ensures && items[t].Keys == RecordKeys
              && items[t]["fetchTime"] == Str(stamp)
              && (exists r :: r in regions && items[t]["region"] == Str(r.region))
              && (exists s :: s in skus && items[t]["sku"] == Str(Upper(s)))
    {
      var p := pairs[idx[t]];
      RecordTags(Upper(p.1), p.0, stamp, catalog, strip);
      UpperIdempotent(p.1);
    }
  }

  /** When every lookup returns a record, the run keeps all of them, one per lookup, in order. */
  lemma {:induction false} RunAllRecords(pairs: seq<Pair>, stamp: string, catalog: Catalog, strip: string -> string)
    requires forall k :: 0 <= k < |pairs| ==> FetchPair(pairs[k], stamp, catalog, strip).Record?
    ensures Run(pairs, stamp, catalog, strip).fault.None?
    ensures |Run(pairs, stamp, catalog, strip).items| == |pairs|
    ensures forall k :: 0 <= k < |pairs| ==>
      Run(pairs, stamp, catalog, strip).items[k] == FetchPair(pairs[k], stamp, catalog, strip).item
    decreases |pairs|
  {
    if pairs != [] {
      var front := pairs[..|pairs| - 1];
      assert forall k :: 0 <= k < |front| ==> front[k] == pairs[k];
      RunAllRecords(front, stamp, catalog, strip);
      assert pairs == front + [pairs[|pairs| - 1]];
      RunAppend(front, pairs[|pairs| - 1], stamp, catalog, strip);
    }
  }

  /** The first lookup that raises ends the run with its exception and the records before it. */
  lemma {:induction false} RunFirstFault(pairs: seq<Pair>, k: nat, stamp: string, catalog: Catalog, strip: string -> string)
    requires k < |pairs| && FetchPair(pairs[k], stamp, catalog, strip).Raised?
    requires forall j :: 0 <= j < k ==> !FetchPair(pairs[j], stamp, catalog, strip).Raised?
    ensures Run(pairs, stamp, catalog, strip).fault == Some(FetchPair(pairs[k], stamp, catalog, strip).fault)
    ensures Run(pairs, stamp, catalog, strip).items == Run(pairs[..k], stamp, catalog, strip).items
  {
    var before := pairs[..k];
    RunCompletes(before, stamp, catalog, strip);
    assert forall j :: 0 <= j < k ==> before[j] == pairs[j];
    RunAppend(before, pairs[k], stamp, catalog, strip);
    assert pairs[..k + 1] == before + [pairs[k]];
    RunFaultSticks(pairs[..k + 1], pairs[k + 1..], stamp, catalog, strip);
    assert pairs == pairs[..k + 1] + pairs[k + 1..];
  }

  /** A run stopped by lookup `k` keeps exactly the records the lookups before it returned, in order. */
  lemma RunKeptBeforeFault(pairs: seq<Pair>, k: nat, stamp: string, catalog: Catalog, strip: string -> string)
    requires k < |pairs| && FetchPair(pairs[k], stamp, catalog, strip).Raised?
    requires forall j :: 0 <= j < k ==> !FetchPair(pairs[j], stamp, catalog, strip).Raised?
    ensures Run(pairs, stamp, catalog, strip).items == Kept(Lookups(pairs[..k], Fetcher(stamp, catalog, strip)))
  {
    RunFirstFault(pairs, k, stamp, catalog, strip);
    RunCompletes(pairs[..k], stamp, catalog, strip);
    RunKept(pairs[..k], stamp, catalog, strip);
  }

  /** A property of every (region, SKU) combination holds of every lookup of the run. */
  lemma AllPairsRecords(regions: seq<RegionEntry>, skus: seq<string>, stamp: string, catalog: Catalog, strip: string -> string)
    requires forall r, s :: r in regions && s in skus ==> Fetch(Upper(s), r, stamp, catalog, strip).Record?
    ensures forall k :: 0 <= k < |Pairs(regions, skus)| ==> FetchPair(Pairs(regions, skus)[k], stamp, catalog, strip).Record?
  {
    PairsFrom(regions, skus);
  }

  lemma SlotRecord(regions: seq<RegionEntry>, skus: seq<string>, i: nat, j: nat, stamp: string, catalog: Catalog, strip: string -> string)
    requires i < |regions| && j < |skus|
    requires forall k :: 0 <= k < |Pairs(regions, skus)| ==> FetchPair(Pairs(regions, skus)[k], stamp, catalog, strip).Record?
    ensures Slot(i, j, |skus|) < |Run(Pairs(regions, skus), stamp, catalog, strip).items|
    ensures var item := Run(Pairs(regions, skus), stamp, catalog, strip).items[Slot(i, j, |skus|)];
      && item.Keys == RecordKeys
      && item["region"] == Str(regions[i].region)
      && item["sku"] == Str(Upper(skus[j]))
      && item["fetchTime"] == Str(stamp)
  {
    var pairs := Pairs(regions, skus);
    RunAllRecords(pairs, stamp, catalog, strip);
    PairsAt(regions, skus);
    var k := Slot(i, j, |skus|);
    assert pairs[k] == (regions[i], skus[j]);
    RecordTags(Upper(skus[j]), regions[i], stamp, catalog, strip);
    UpperIdempotent(skus[j]);
  }

  /**
   * A run over M regions and N SKUs in which every lookup returns a record
   * keeps M * N records; the one in slot `i * N + j` is for region `i` and
   * SKU `j`, and all carry the same stamp.
   */
  lemma FullRun(regions: seq<RegionEntry>, skus: seq<string>, stamp: string, catalog: Catalog, strip: string -> string)
    requires forall r, s :: r in regions && s in skus ==> Fetch(Upper(s), r, stamp, catalog, strip).Record?
    ensures var h := Run(Pairs(regions, skus), stamp, catalog, strip);
      && h.fault.None?
      && |h.items| == |regions| * |skus|
      && forall i, j :: 0 <= i < |regions| && 0 <= j < |skus| ==>
        && Slot(i, j, |skus|) < |h.items|
        && h.items[Slot(i, j, |skus|)].Keys == RecordKeys
        && h.items[Slot(i, j, |skus|)]["region"] == Str(regions[i].region)
        && h.items[Slot(i, j, |skus|)]["sku"] == Str(Upper(skus[j]))
        && h.items[Slot(i, j, |skus|)]["fetchTime"] == Str(stamp)
  {
    var pairs := Pairs(regions, skus);
    AllPairsRecords(regions, skus, stamp, catalog, strip);
    RunAllRecords(pairs, stamp, catalog, strip);
    forall i, j | 0 <= i < |regions| && 0 <= j < |skus|
      ensures Slot(i, j, |skus|) < |Run(pairs, stamp, catalog, strip).items|
      ensures var item := Run(pairs, stamp, catalog, strip).items[Slot(i, j, |skus|)];
        && item.Keys == RecordKeys
        && item["region"] == Str(regions[i].region)
        && item["sku"] == Str(Upper(skus[j]))
        && item["fetchTime"] == Str(stamp)
    {
      SlotRecord(regions, skus, i, j, stamp, catalog, strip);
    }
  }

  lemma {:induction false} PairsConcat(a: seq<RegionEntry>, b: seq<RegionEntry>, skus: seq<string>)
    ensures Pairs(a + b, skus) == Pairs(a, skus) + Pairs(b, skus)
    decreases |b|
  {
    if b == [] {
      assert a + b == a;
    } else {
      var n := |b| - 1;
      PairsConcat(a, b[..n], skus);
      assert (a + b)[..|a + b| - 1] == a + b[..n];
      assert (a + b)[|a + b| - 1] == b[n];
      assert Pairs(a + b, skus) == Pairs(a + b[..n], skus) + RegionPairs(b[n], skus);
      assert Pairs(b, skus) == Pairs(b[..n], skus) + RegionPairs(b[n], skus);
      AppendAssoc(Pairs(a, skus), Pairs(b[..n], skus), RegionPairs(b[n], skus));
    }
  }

  lemma RegionPairsSplit(region: RegionEntry, skus: seq<string>, k: nat)
    requires k <= |skus|
    ensures RegionPairs(region, skus) == RegionPairs(region, skus[..k]) + RegionPairs(region, skus[k..])
  {
  }

  /** The lookups of the first `k` regions are the first lookups of the run. */
  lemma PairsPrefix(regions: seq<RegionEntry>, skus: seq<string>, k: nat)
    requires k <= |regions|
    ensures var done := Pairs(regions[..k], skus);
      |done| <= |Pairs(regions, skus)| && Pairs(regions, skus)[..|done|] == done
  {
    assert regions == regions[..k] + regions[k..];
    PairsConcat(regions[..k], regions[k..], skus);
  }

  /** After a fault-free start, the rest of the run goes on by itself. */
  lemma RunConcat(ps: seq<Pair>, qs: seq<Pair>, stamp: string, catalog: Catalog, strip: string -> string)
    requires Run(ps, stamp, catalog, strip).fault.None?
    ensures var h := Run(qs, stamp, catalog, strip);
      Run(ps + qs, stamp, catalog, strip) == Harvest(Run(ps, stamp, catalog, strip).items + h.items, h.fault)
  {
    var fetch := Fetcher(stamp, catalog, strip);
    LookupsConcat(ps, qs, fetch);
    CollectConcat(Lookups(ps, fetch), Lookups(qs, fetch));
  }

  /** The lookups of the first `ri + 1` regions. */
  lemma PairsNextRegion(regions: seq<RegionEntry>, skus: seq<string>, ri: nat)
    requires ri < |regions|
    ensures Pairs(regions[..ri + 1], skus) == Pairs(regions[..ri], skus) + RegionPairs(regions[ri], skus)
  {
    assert regions[..ri + 1][..ri] == regions[..ri];
  }

  /** A run that has raised on a prefix of the lookups is over. */
  lemma RunPrefixFault(ps: seq<Pair>, all: seq<Pair>, stamp: string, catalog: Catalog, strip: string -> string)
    requires |ps| <= |all| && all[..|ps|] == ps
    requires Run(ps, stamp, catalog, strip).fault.Some?
    ensures Run(all, stamp, catalog, strip) == Run(ps, stamp, catalog, strip)
  {
    assert all == ps + all[|ps|..];
    RunFaultSticks(ps, all[|ps|..], stamp, catalog, strip);
  }

  /**
   * One trip round the outer loop: region `ri`'s lookups extend the run of
   * the regions before it, and a fault there is the fault of the whole run.
   */
  lemma RegionStep(regions: seq<RegionEntry>, skus: seq<string>, ri: nat, stamp: string, catalog: Catalog,
                   strip: string -> string, start: seq<Item>, before: seq<Item>, after: seq<Item>)
    requires ri < |regions|
    requires Run(Pairs(regions[..ri], skus), stamp, catalog, strip).fault.None?
    requires before == start + Run(Pairs(regions[..ri], skus), stamp, catalog, strip).items
    requires after == before + Run(RegionPairs(regions[ri], skus), stamp, catalog, strip).items
    ensures after == start + Run(Pairs(regions[..ri + 1], skus), stamp, catalog, strip).items
    ensures Run(Pairs(regions[..ri + 1], skus), stamp, catalog, strip).fault
            == Run(RegionPairs(regions[ri], skus), stamp, catalog, strip).fault
    ensures Run(Pairs(regions[..ri + 1], skus), stamp, catalog, strip).fault.Some? ==>
      Run(Pairs(regions, skus), stamp, catalog, strip) == Run(Pairs(regions[..ri + 1], skus), stamp, catalog, strip)
  {
    var done := Pairs(regions[..ri], skus);
    PairsNextRegion(regions, skus, ri);
    RunConcat(done, RegionPairs(regions[ri], skus), stamp, catalog, strip);
    var kept := Run(done, stamp, catalog, strip).items;
    var added := Run(RegionPairs(regions[ri], skus), stamp, catalog, strip).items;
    AppendAssoc(start, kept, added);
    if Run(Pairs(regions[..ri + 1], skus), stamp, catalog, strip).fault.Some? {
      PairsPrefix(regions, skus, ri + 1);
      RunPrefixFault(Pairs(regions[..ri + 1], skus), Pairs(regions, skus), stamp, catalog, strip);
    }
  }

  /** Records kept by a run, appended to well-formed records, leave them all well-formed. */
  lemma AppendRunKeys(start: seq<Item>, pairs: seq<Pair>, stamp: string, catalog: Catalog, strip: string -> string)
    requires forall i :: 0 <= i < |start| ==> start[i].Keys == RecordKeys
    ensures var all := start + Run(pairs, stamp, catalog, strip).items;
      forall i :: 0 <= i < |all| ==> all[i].Keys == RecordKeys
  {
    var items := Run(pairs, stamp, catalog, strip).items;
    var idx := RunOrigins(pairs, stamp, catalog, strip);
    forall t | 0 <= t < |items|
      ensures items[t].Keys == RecordKeys
    {
      var p := pairs[idx[t]];
      RecordTags(Upper(p.1), p.0, stamp, catalog, strip);
    }
  }

  /** One trip round the inner loop, seen from the records kept so far. */
  lemma LookupStep(done: seq<Pair>, p: Pair, stamp: string, catalog: Catalog, strip: string -> string,
                   start: seq<Item>, before: seq<Item>)
    requires Run(done, stamp, catalog, strip).fault.None?
    requires before == start + Run(done, stamp, catalog, strip).items
    ensures var o := FetchPair(p, stamp, catalog, strip);
      var h := Run(done + [p], stamp, catalog, strip);
      && (o.Raised? ==> h.fault == Some(o.fault) && before == start + h.items)
      && (o.Record? ==> h.fault.None? && before + [o.item] == start + h.items)
      && (o.NoRecord? ==> h.fault.None? && before == start + h.items)
  {
    RunAppend(done, p, stamp, catalog, strip);
    var o := FetchPair(p, stamp, catalog, strip);
    if o.Record? {
      AppendAssoc(start, Run(done, stamp, catalog, strip).items, [o.item]);
    }
  }

  lemma AppendAssoc<T>(a: seq<T>, b: seq<T>, c: seq<T>)
    ensures (a + b) + c == a + (b + c)
  {
  }
}

/**
 * The S3 details components (app/aws/s3-details/components.tsx): the
 * overview's per-bucket metrics fold, where a bucket whose info request fails
 * counts as empty; the size, cost and percentage shown for each bucket; the
 * create-bucket input of the buckets tab; and the upload tab's button guard.
 * The parallel info requests are folded one after another in list order.
 */
module S3Components {
  import opened Prelude

  datatype BucketInfo = BucketInfo(size: nat, objects: nat)

  /** A bucket of the list with what getBucketInfo answered for it; None when the request threw. */
  datatype BucketProbe = BucketProbe(name: string, info: Option<BucketInfo>)

  /** A file picked for upload. */
  datatype LocalFile = LocalFile(name: string, size: nat)

  function SizeOf(p: BucketProbe): nat {
    if p.info.Some? then p.info.value.size else 0
  }

  function ObjectsOf(p: BucketProbe): nat {
    if p.info.Some? then p.info.value.objects else 0
  }

  function TotalSize(ps: seq<BucketProbe>): nat {
    if ps == [] then 0 else TotalSize(ps[..|ps| - 1]) + SizeOf(ps[|ps| - 1])
  }

  function TotalObjects(ps: seq<BucketProbe>): nat {
    if ps == [] then 0 else TotalObjects(ps[..|ps| - 1]) + ObjectsOf(ps[|ps| - 1])
  }

  /** `sizesTemp`: each bucket name mapped to its size, written in list order. */
  function SizeMap(ps: seq<BucketProbe>): map<string, nat> {
    if ps == [] then map[] else SizeMap(ps[..|ps| - 1])[ps[|ps| - 1].name := SizeOf(ps[|ps| - 1])]
  }

  /** `objectsTemp`. */
  function ObjectMap(ps: seq<BucketProbe>): map<string, nat> {
    if ps == [] then map[] else ObjectMap(ps[..|ps| - 1])[ps[|ps| - 1].name := ObjectsOf(ps[|ps| - 1])]
  }

  /** `m[name] || 0`: a bucket missing from the map reads as zero. */
  function Lookup(m: map<string, nat>, name: string): nat {
    if name in m then m[name] else 0
  }

  predicate DistinctNames(ps: seq<BucketProbe>) {
    forall i, j :: 0 <= i < j < |ps| ==> ps[i].name != ps[j].name
  }

  /** The totals and maps one fetch produces. */
  datatype Metrics = Metrics(totalSize: nat, totalObjects: nat, sizes: map<string, nat>, objects: map<string, nat>)

  /** The fold of fetchBucketInfo, accumulating the totals and filling both maps. */
  method Aggregate(probes: seq<BucketProbe>) returns (m: Metrics)
    ensures m.totalSize == TotalSize(probes) && m.totalObjects == TotalObjects(probes)
    ensures m.sizes == SizeMap(probes) && m.objects == ObjectMap(probes)
  {
    var totalSizeTemp: nat := 0;
    var totalObjectsTemp: nat := 0;
    var sizesTemp: map<string, nat> := map[];
    var objectsTemp: map<string, nat> := map[];
    var i := 0;
    while i < |probes|
      invariant 0 <= i <= |probes|
      invariant totalSizeTemp == TotalSize(probes[..i]) && totalObjectsTemp == TotalObjects(probes[..i])
      invariant sizesTemp == SizeMap(probes[..i]) && objectsTemp == ObjectMap(probes[..i])
    {
      assert probes[..i + 1][..i] == probes[..i];
      var bucket := probes[i];
      match bucket.info {
        case Some(info) =>
          totalSizeTemp := totalSizeTemp + info.size;
          totalObjectsTemp := totalObjectsTemp + info.objects;
          sizesTemp := sizesTemp[bucket.name := info.size];
          objectsTemp := objectsTemp[bucket.name := info.objects];
        case None =>
          sizesTemp := sizesTemp[bucket.name := 0];
          objectsTemp := objectsTemp[bucket.name := 0];
      }
      i := i + 1;
    }
    assert probes[..i] == probes;
    m := Metrics(totalSizeTemp, totalObjectsTemp, sizesTemp, objectsTemp);
  }

  /** Every bucket of the list has an entry in both maps, whether or not its request failed. */
  lemma {:induction false} MapsCoverBuckets(ps: seq<BucketProbe>)
    ensures forall p :: p in ps ==> p.name in SizeMap(ps) && p.name in ObjectMap(ps)
  {
    if ps != [] {
      var init := ps[..|ps| - 1];
      MapsCoverBuckets(init);
      assert ps == init + [ps[|ps| - 1]];
    }
  }

  /** With distinct names each bucket's map entry is its own size, and zero when its request failed. */
  lemma {:induction false} SizeMapAt(ps: seq<BucketProbe>, k: nat)
    requires DistinctNames(ps) && k < |ps|
    ensures Lookup(SizeMap(ps), ps[k].name) == SizeOf(ps[k])
    ensures ps[k].info.None? ==> Lookup(SizeMap(ps), ps[k].name) == 0
  {
    if k < |ps| - 1 {
      var init := ps[..|ps| - 1];
      assert init[k] == ps[k];
      SizeMapAt(init, k);
      MapsCoverBuckets(init);
      assert init[k] in init;
    }
  }

  /** The bucket names, in list order. */
  function Names(ps: seq<BucketProbe>): (names: seq<string>)
    ensures |names| == |ps| && forall k :: 0 <= k < |ps| ==> names[k] == ps[k].name
  {
    if ps == [] then [] else Names(ps[..|ps| - 1]) + [ps[|ps| - 1].name]
  }

  /** `sum(Lookup(m, name) for name in names)`. */
  function MapTotal(names: seq<string>, m: map<string, nat>): nat {
    if names == [] then 0 else MapTotal(names[..|names| - 1], m) + Lookup(m, names[|names| - 1])
  }

  /** Only the entries for the listed names matter to their sum. */
  lemma {:induction false} MapTotalAgree(names: seq<string>, m1: map<string, nat>, m2: map<string, nat>)
    requires forall k :: 0 <= k < |names| ==> Lookup(m1, names[k]) == Lookup(m2, names[k])
    ensures MapTotal(names, m1) == MapTotal(names, m2)
  {
    if names != [] {
      var init := names[..|names| - 1];
      assert forall k :: 0 <= k < |init| ==> init[k] == names[k];
      MapTotalAgree(init, m1, m2);
    }
  }

  /** With distinct names the total size shown is the sum of the per-bucket sizes shown. */
  lemma {:induction false} TotalIsSumOfBuckets(ps: seq<BucketProbe>)
    requires DistinctNames(ps)
    ensures TotalSize(ps) == MapTotal(Names(ps), SizeMap(ps))
  {
    if ps != [] {
      var init := ps[..|ps| - 1];
      var last := ps[|ps| - 1];
      assert DistinctNames(init);
      TotalIsSumOfBuckets(init);
      var names := Names(init);
      forall k | 0 <= k < |names| ensures Lookup(SizeMap(init), names[k]) == Lookup(SizeMap(ps), names[k]) {
        assert names[k] == ps[k].name && ps[k].name != last.name;
      }
      MapTotalAgree(names, SizeMap(init), SizeMap(ps));
      assert Names(ps)[..|ps| - 1] == names;
    }
  }

  /** The state the overview keeps between renders. */
  class OverviewTab {
    var totalSize: nat
    var totalObjects: nat
    var bucketSizes: map<string, nat>
    var bucketObjects: map<string, nat>
    var isLoadingMetrics: bool

    constructor ()
      ensures totalSize == 0 && totalObjects == 0 && bucketSizes == map[] && bucketObjects == map[]
      ensures !isLoadingMetrics
    {
      totalSize, totalObjects := 0, 0;
      bucketSizes, bucketObjects := map[], map[];
      isLoadingMetrics := false;
    }

    /**
     * The effect run when the bucket list or the parent's loading flag
     * changes: nothing while the parent loads or when there are no buckets,
     * otherwise all four values are replaced by the fold's results.
     */
    method FetchBucketInfo(probes: seq<BucketProbe>, parentLoading: bool)
      modifies this
      ensures parentLoading || probes == [] ==>
        totalSize == old(totalSize) && totalObjects == old(totalObjects)
        && bucketSizes == old(bucketSizes) && bucketObjects == old(bucketObjects)
        && isLoadingMetrics == old(isLoadingMetrics)
      ensures !parentLoading && probes != [] ==>
        totalSize == TotalSize(probes) && totalObjects == TotalObjects(probes)
        && bucketSizes == SizeMap(probes) && bucketObjects == ObjectMap(probes)
        && !isLoadingMetrics
    {
      if parentLoading || |probes| == 0 {
        return;
      }
      isLoadingMetrics := true;
      var m := Aggregate(probes);
      totalSize := m.totalSize;
      totalObjects := m.totalObjects;
      bucketSizes := m.sizes;
      bucketObjects := m.objects;
      isLoadingMetrics := false;
    }
  }

  // ---------------------------------------------------------------------------
  // Displayed figures
  // ---------------------------------------------------------------------------

  const BytesPerGb: real := 1024.0 * 1024.0 * 1024.0
  const PricePerGbMonth: real := 0.023

  /** A size as shown: the literal text, or a number later printed with two decimals. */
  datatype Shown = Literal(text: string) | Fixed2(amount: real)

  /** formatSize: "0.00" for an empty bucket, otherwise the size in gigabytes. */
  function FormatSize(bytes: nat): (r: Shown)
    ensures r == Literal("0.00") <==> bytes == 0
    ensures bytes != 0 ==> r.Fixed2? && r.amount > 0.0 && r.amount * BytesPerGb == bytes as real
  {
    if bytes == 0 then Literal("0.00") else Fixed2(bytes as real / BytesPerGb)
  }

  /** calculateCost before rounding: gigabytes stored times the monthly price. */
  function StorageCost(bytes: nat): (c: real)
    ensures c >= 0.0
    ensures c * BytesPerGb == bytes as real * PricePerGbMonth
  {
    bytes as real / BytesPerGb * PricePerGbMonth
  }

  function CostTotal(ps: seq<BucketProbe>): real {
    if ps == [] then 0.0 else CostTotal(ps[..|ps| - 1]) + StorageCost(SizeOf(ps[|ps| - 1]))
  }

  /** The estimated monthly cost of all storage is the sum of the buckets' monthly costs. */
  lemma {:induction false} CostIsSumOfBucketCosts(ps: seq<BucketProbe>)
    ensures StorageCost(TotalSize(ps)) == CostTotal(ps)
  {
    if ps != [] {
      CostIsSumOfBucketCosts(ps[..|ps| - 1]);
    }
  }

  /** The progress bar of one bucket: its share of the total size, zero when the total is zero. */
  function Percentage(bucketSize: nat, totalSize: nat): (r: real)
    ensures totalSize == 0 ==> r == 0.0
    ensures totalSize > 0 ==> r * totalSize as real == bucketSize as real * 100.0
    ensures bucketSize <= totalSize ==> 0.0 <= r <= 100.0
  {
    if totalSize > 0 then (bucketSize as real / totalSize as real) * 100.0 else 0.0
  }

  /** The bars of the listed buckets, summed; each reads its size from the map (a missing entry reads as zero). */
  function PercentTotal(names: seq<string>, sizes: map<string, nat>, totalSize: nat): real {
    if names == [] then 0.0
    else PercentTotal(names[..|names| - 1], sizes, totalSize) + Percentage(Lookup(sizes, names[|names| - 1]), totalSize)
  }

  /** Shares of the same total add up like the sizes they stand for. */
  lemma PercentageAdds(a: nat, b: nat, totalSize: nat)
    ensures Percentage(a, totalSize) + Percentage(b, totalSize) == Percentage(a + b, totalSize)
  {
  }

  /** A bucket holding everything fills its bar. */
  lemma PercentageOfWhole(totalSize: nat)
    requires totalSize > 0
    ensures Percentage(totalSize, totalSize) == 100.0
  {
    var t := totalSize as real;
    var r := Percentage(totalSize, totalSize);
    assert (r - 100.0) * t == 0.0;
  }

  /** The sum of the listed buckets' bars is the bar their combined size would get. */
  lemma {:induction false} PercentTotalIsShareOfSum(names: seq<string>, sizes: map<string, nat>, totalSize: nat)
    ensures PercentTotal(names, sizes, totalSize) == Percentage(MapTotal(names, sizes), totalSize)
  {
    if names != [] {
      var init := names[..|names| - 1];
      PercentTotalIsShareOfSum(init, sizes, totalSize);
      PercentageAdds(MapTotal(init, sizes), Lookup(sizes, names[|names| - 1]), totalSize);
    }
  }

  /** With distinct names and some data stored, the buckets' bars add up to 100 percent. */
  lemma PercentagesAddUp(ps: seq<BucketProbe>)
    requires DistinctNames(ps) && TotalSize(ps) > 0
    ensures PercentTotal(Names(ps), SizeMap(ps), TotalSize(ps)) == 100.0
  {
    TotalIsSumOfBuckets(ps);
    PercentTotalIsShareOfSum(Names(ps), SizeMap(ps), TotalSize(ps));
    PercentageOfWhole(TotalSize(ps));
  }

  // ---------------------------------------------------------------------------
  // Buckets tab and upload tab
  // ---------------------------------------------------------------------------

  /** The buckets tab's name input. */
  class BucketsTab {
    var newBucketName: string

    constructor ()
      ensures newBucketName == ""
    {
      newBucketName := "";
    }

    /** handleCreateBucket: the name passed to onCreateBucket, if any; a non-empty name is then cleared. */
    method HandleCreateBucket() returns (requested: Option<string>)
      modifies this
      ensures old(newBucketName) != "" ==> requested == Some(old(newBucketName)) && newBucketName == ""
      ensures old(newBucketName) == "" ==> requested == None && newBucketName == old(newBucketName)
    {
      requested := None;
      if newBucketName != "" {
        requested := Some(newBucketName);
        newBucketName := "";
      }
    }
  }

  /** The upload button is disabled with no bucket chosen, no file picked, or an upload running. */
  predicate UploadDisabled(selectedBucket: string, files: seq<LocalFile>, isUploading: bool): (b: bool)
    ensures !b <==> selectedBucket != "" && files != [] && !isUploading
  {
    selectedBucket == "" || |files| == 0 || isUploading
  }
}

/**
 * The static-website deploy page (app/aws/cloudfront/page.tsx): the folder
 * picker's guard, the deploy pipeline (zip the folder, upload it, enable
 * static hosting, create the distribution) with the progress values and
 * captions it shows on the way, and the distribution status check that
 * repeats until the site answers. Every backend step's success is an input;
 * the zip library's progress callbacks are the sequence of percentages it
 * reports; the status check's answers are a sequence of outcomes, one per try.
 */
module CloudFrontPage {
  import opened Prelude

  /** A file of the picked folder; `hasRelativePath` says whether it carries `webkitRelativePath`. */
  datatype PickedFile = PickedFile(name: string, hasRelativePath: bool)

  datatype DeploymentStatus = Idle | Deploying | Checking | Ready

  /** A request the page sends. */
  datatype DeployCall =
    | ListBuckets
    | UploadWebsite(bucket: string)
    | EnableHosting(bucket: string)
    | CreateDistribution(bucket: string)
    | Probe(domain: string)

  /** What each step of one deploy does: whether zipping, uploading and hosting succeed, and the distribution domain if one is created. */
  datatype StepResults = StepResults(zipOk: bool, uploadOk: bool, hostingOk: bool, distribution: Option<string>)

  /** The caption under the progress bar: one of the pipeline's fixed texts, or none. */
  datatype Caption = NoCaption | CreatingZip | UploadingFiles | EnablingHosting | CreatingDistribution {
    function Text(): string {
      match this
      case NoCaption => ""
      case CreatingZip => "Creating zip file..."
      case UploadingFiles => "Uploading files..."
      case EnablingHosting => "Enabling static website hosting..."
      case CreatingDistribution => "Creating CloudFront distribution..."
    }
  }

  /** Every step succeeded and a distribution was created. */
  predicate Deployed(r: StepResults) {
    r.zipOk && r.uploadOk && r.hostingOk && r.distribution.Some?
  }

  // ---------------------------------------------------------------------------
  // What a deploy does, step by step
  // ---------------------------------------------------------------------------

  /** The progress after zipping k of n files: `k / (n * 2) * 100`. */
  function ZipProgress(k: nat, n: nat): real
    requires n > 0
  {
    (k as real / (n * 2) as real) * 100.0
  }

  /** The progress values set while the n files are added to the archive. */
  function ZipStage(n: nat): (r: seq<real>)
    ensures |r| == n
    ensures forall k :: 0 <= k < n ==> r[k] == ZipProgress(k + 1, n)
  {
    seq(n, k requires 0 <= k < n => ZipProgress(k + 1, n))
  }

  /** The progress value set by one compression callback. */
  function CompressProgress(percent: real): real {
    50.0 + percent / 2.0
  }

  function CompressStage(percents: seq<real>): (r: seq<real>)
    ensures |r| == |percents|
    ensures forall j :: 0 <= j < |percents| ==> r[j] == CompressProgress(percents[j])
  {
    seq(|percents|, j requires 0 <= j < |percents| => CompressProgress(percents[j]))
  }

  /** The progress values set before the backend steps: the reset to 0, the zip loop, the compression callbacks. */
  function ZipProgressLog(n: nat, percents: seq<real>): seq<real> {
    [0.0] + ZipStage(n) + CompressStage(percents)
  }

  /** The progress values set by the backend steps: 75, 85 and 100, each once its step succeeds. */
  function StepProgressLog(r: StepResults): seq<real> {
    if !r.zipOk || !r.uploadOk then []
    else if !r.hostingOk then [75.0]
    else if r.distribution.None? then [75.0, 85.0]
    else [75.0, 85.0, 100.0]
  }

  /** Every progress value a deploy of n files sets, in order. */
  function DeployProgress(n: nat, percents: seq<real>, r: StepResults): seq<real> {
    ZipProgressLog(n, percents) + StepProgressLog(r)
  }

  /** The captions set by the backend steps: each step's caption is set before the step runs. */
  function StepCaptionLog(r: StepResults): seq<Caption> {
    if !r.zipOk then []
    else if !r.uploadOk then [UploadingFiles]
    else if !r.hostingOk then [UploadingFiles, EnablingHosting]
    else [UploadingFiles, EnablingHosting, CreatingDistribution]
  }

  /** Every caption a deploy sets, in order; the last clears it. */
  function DeployCaptions(r: StepResults): seq<Caption> {
    [CreatingZip] + StepCaptionLog(r) + [NoCaption]
  }

  /** The status checks made: one per try, until the first one that answers ok. */
  function ProbeTrace(domain: string, probes: seq<bool>): (calls: seq<DeployCall>)
    ensures |calls| <= |probes|
    ensures forall c :: c in calls ==> c == Probe(domain)
  {
    if probes == [] then []
    else [Probe(domain)] + (if probes[0] then [] else ProbeTrace(domain, probes[1..]))
  }

  /** The status once the tries run out: ready if some try answered ok, still checking otherwise. */
  function StatusAfter(probes: seq<bool>): DeploymentStatus {
    if true in probes then Ready else Checking
  }

  /** The requests of the distribution step: the creation, then, if it succeeded, the status checks. */
  function DistributionRequests(bucket: string, distribution: Option<string>, probes: seq<bool>): seq<DeployCall> {
    [CreateDistribution(bucket)] + (if distribution.Some? then ProbeTrace(distribution.value, probes) else [])
  }

  /** Every request a deploy sends, in order: each step that is reached, then the status checks. */
  function DeployRequests(bucket: string, r: StepResults, probes: seq<bool>): seq<DeployCall> {
    if !r.zipOk then []
    else if !r.uploadOk then [UploadWebsite(bucket)]
    else if !r.hostingOk then [UploadWebsite(bucket), EnableHosting(bucket)]
    else [UploadWebsite(bucket), EnableHosting(bucket)] + DistributionRequests(bucket, r.distribution, probes)
  }

  /** The bar shows the last value it was set to. */
  predicate Shows(log: seq<real>, value: real) {
    log != [] && value == log[|log| - 1]
  }

  /** The deploy button is disabled without a folder, without a bucket, or while a deploy runs. */
  predicate DeployDisabled(selectedFolder: Option<seq<PickedFile>>, selectedBucket: string, isUploading: bool): (b: bool)
    ensures !b <==> selectedFolder.Some? && selectedBucket != "" && !isUploading
  {
    selectedFolder.None? || selectedBucket == "" || isUploading
  }

  /** The deploy page's state. */
  class CloudFrontPage {
    var buckets: seq<string>
    var selectedFolder: Option<seq<PickedFile>>
    var selectedBucket: string
    var isUploading: bool
    var distributionUrl: Option<string>
    var uploadProgress: real
    var currentStep: Caption
    /** Set when a deploy starts and never cleared. */
    var isDeploying: bool
    var deploymentStatus: DeploymentStatus
    /** Every value the progress bar was set to. */
    ghost var progressLog: seq<real>
    /** Every caption that was set. */
    ghost var captionLog: seq<Caption>
    /** The requests sent so far. */
    ghost var calls: seq<DeployCall>
    /** The upload flag and the deployment status seen each time the pipeline started. */
    ghost var busyLog: seq<(bool, DeploymentStatus)>
    /** The distribution URL and the progress value seen at each try of the status check. */
    ghost var checkLog: seq<(Option<string>, real)>

    constructor ()
      ensures buckets == [] && selectedFolder == None && selectedBucket == ""
      ensures !isUploading && distributionUrl == None && uploadProgress == 0.0 && currentStep == NoCaption
      ensures !isDeploying && deploymentStatus == Idle
      ensures progressLog == [] && captionLog == [] && calls == [] && busyLog == [] && checkLog == []
    {
      buckets := [];
      selectedFolder := None;
      selectedBucket := "";
      isUploading := false;
      distributionUrl := None;
      uploadProgress := 0.0;
      currentStep := NoCaption;
      isDeploying := false;
      deploymentStatus := Idle;
      progressLog := [];
      captionLog := [];
      calls := [];
      busyLog := [];
      checkLog := [];
    }

    /** The bucket list fetched on load: replaced only when the answer carries a list. */
    method LoadBuckets(listing: Option<seq<string>>)
      modifies this`buckets, this`calls
      ensures buckets == (if listing.Some? then listing.value else old(buckets))
      ensures calls == old(calls) + [ListBuckets]
    {
      calls := calls + [ListBuckets];
      if listing.Some? {
        buckets := listing.value;
      }
    }

    /** handleFolderSelect: a non-empty pick whose files all carry a relative path replaces the selection. */
    method HandleFolderSelect(files: Option<seq<PickedFile>>)
      modifies this`selectedFolder
      ensures (files.Some? && |files.value| > 0 && forall f :: f in files.value ==> f.hasRelativePath) ==>
        selectedFolder == files
      ensures !(files.Some? && |files.value| > 0 && forall f :: f in files.value ==> f.hasRelativePath) ==>
        selectedFolder == old(selectedFolder)
    {
      if files.Some? && |files.value| > 0 {
        var fileList := files.value;
        if forall f :: f in fileList ==> f.hasRelativePath {
          selectedFolder := files;
        }
      }
    }

    method SelectBucket(name: string)
      modifies this`selectedBucket
      ensures selectedBucket == name
    {
      selectedBucket := name;
    }

    method SetProgress(value: real)
      modifies this`uploadProgress, this`progressLog
      ensures uploadProgress == value && progressLog == old(progressLog) + [value]
    {
      uploadProgress := value;
      progressLog := progressLog + [value];
    }

    method SetStep(caption: Caption)
      modifies this`currentStep, this`captionLog
      ensures currentStep == caption && captionLog == old(captionLog) + [caption]
    {
      currentStep := caption;
      captionLog := captionLog + [caption];
    }

    /**
     * checkDistributionStatus: marks the status as checking and tries the
     * domain; an ok answer makes it ready, anything else tries again with the
     * next outcome. Once the outcomes run out the status is still checking.
     */
    method CheckDistributionStatus(domain: string, probes: seq<bool>)
      modifies this`deploymentStatus, this`calls, this`checkLog
      ensures deploymentStatus == StatusAfter(probes)
      ensures calls == old(calls) + ProbeTrace(domain, probes)
      ensures old(checkLog) < checkLog
      ensures forall k :: |old(checkLog)| <= k < |checkLog| ==> checkLog[k] == (distributionUrl, uploadProgress)
      decreases |probes|
    {
      checkLog := checkLog + [(distributionUrl, uploadProgress)];
      deploymentStatus := Checking;
      if probes == [] {
        return;
      }
      calls := calls + [Probe(domain)];
      if probes[0] {
        deploymentStatus := Ready;
      } else {
        ghost var logged := checkLog;
        CheckDistributionStatus(domain, probes[1..]);
        assert probes == [probes[0]] + probes[1..];
        assert old(checkLog) < logged <= checkLog;
      }
    }

    /** The zip loop: one progress value per file added, ending at 50. */
    method ZipFolder(totalFiles: nat)
      requires Shows(progressLog, uploadProgress)
      modifies this`uploadProgress, this`progressLog
      ensures Shows(progressLog, uploadProgress) && progressLog == old(progressLog) + ZipStage(totalFiles)
    {
      var processedFiles := 0;
      var i := 0;
      while i < totalFiles
        invariant 0 <= i <= totalFiles && processedFiles == i
        invariant Shows(progressLog, uploadProgress) && progressLog == old(progressLog) + ZipStage(totalFiles)[..i]
      {
        processedFiles := processedFiles + 1;
        SetProgress(ZipProgress(processedFiles, totalFiles));
        assert ZipStage(totalFiles)[..i + 1] == ZipStage(totalFiles)[..i] + [ZipProgress(i + 1, totalFiles)];
        i := i + 1;
      }
      assert ZipStage(totalFiles)[..i] == ZipStage(totalFiles);
    }

    /** The compression callbacks, one progress value each. */
    method Compress(zipPercents: seq<real>)
      requires Shows(progressLog, uploadProgress)
      modifies this`uploadProgress, this`progressLog
      ensures Shows(progressLog, uploadProgress) && progressLog == old(progressLog) + CompressStage(zipPercents)
    {
      var j := 0;
      while j < |zipPercents|
        invariant 0 <= j <= |zipPercents|
        invariant Shows(progressLog, uploadProgress) && progressLog == old(progressLog) + CompressStage(zipPercents)[..j]
      {
        SetProgress(CompressProgress(zipPercents[j]));
        assert CompressStage(zipPercents)[..j + 1] == CompressStage(zipPercents)[..j] + [CompressProgress(zipPercents[j])];
        j := j + 1;
      }
      assert CompressStage(zipPercents)[..j] == CompressStage(zipPercents);
    }

    /** The first stage of a deploy: progress reset to 0, then the zip loop and the compression callbacks. */
    method StartZip(fileCount: nat, zipPercents: seq<real>)
      modifies this`uploadProgress, this`progressLog, this`currentStep, this`captionLog
      ensures Shows(progressLog, uploadProgress) && progressLog == old(progressLog) + ZipProgressLog(fileCount, zipPercents)
      ensures currentStep == CreatingZip && captionLog == old(captionLog) + [CreatingZip]
    {
      SetProgress(0.0);
      SetStep(CreatingZip);
      ZipFolder(fileCount);
      Compress(zipPercents);
    }

    /** The distribution step: on success the URL is set, the bar reaches 100 and the status check starts. */
    method DistributionStep(bucket: string, distribution: Option<string>, probes: seq<bool>)
      requires Shows(progressLog, uploadProgress)
      modifies this`uploadProgress, this`progressLog, this`currentStep, this`captionLog
      modifies this`calls, this`distributionUrl, this`deploymentStatus, this`checkLog
      ensures Shows(progressLog, uploadProgress)
      ensures progressLog == old(progressLog) + (if distribution.Some? then [100.0] else [])
      ensures distribution.None? ==> checkLog == old(checkLog)
      ensures distribution.Some? ==> old(checkLog) < checkLog
      ensures distribution.Some? ==> forall k :: |old(checkLog)| <= k < |checkLog| ==> checkLog[k] == (distribution, 100.0)
      ensures captionLog == old(captionLog) + [CreatingDistribution]
      ensures calls == old(calls) + DistributionRequests(bucket, distribution, probes)
      ensures distributionUrl == (if distribution.Some? then distribution else old(distributionUrl))
      ensures deploymentStatus == (if distribution.Some? then StatusAfter(probes) else old(deploymentStatus))
    {
      SetStep(CreatingDistribution);
      calls := calls + [CreateDistribution(bucket)];
      match distribution {
        case None =>
        case Some(domain) =>
          distributionUrl := Some(domain);
          SetProgress(100.0);
          CheckDistributionStatus(domain, probes);
      }
    }

    /**
     * The upload, hosting and distribution steps, after the archive was
     * built: each runs only if the one before it succeeded.
     */
    method RunSteps(bucket: string, r: StepResults, probes: seq<bool>)
      requires Shows(progressLog, uploadProgress) && r.zipOk
      modifies this`uploadProgress, this`progressLog, this`currentStep, this`captionLog
      modifies this`calls, this`distributionUrl, this`deploymentStatus, this`checkLog
      ensures Shows(progressLog, uploadProgress) && progressLog == old(progressLog) + StepProgressLog(r)
      ensures captionLog == old(captionLog) + StepCaptionLog(r)
      ensures calls == old(calls) + DeployRequests(bucket, r, probes)
      ensures distributionUrl == (if Deployed(r) then r.distribution else old(distributionUrl))
      ensures deploymentStatus == (if Deployed(r) then StatusAfter(probes) else old(deploymentStatus))
    {
      SetStep(UploadingFiles);
      calls := calls + [UploadWebsite(bucket)];
      if r.uploadOk {
        HostingStep(bucket, r.hostingOk, r.distribution, probes);
      }
    }

    /** After a successful upload: the bar reaches 75, hosting is enabled, and on success the bar reaches 85 and the distribution step runs. */
    method HostingStep(bucket: string, hostingOk: bool, distribution: Option<string>, probes: seq<bool>)
      requires Shows(progressLog, uploadProgress)
      modifies this`uploadProgress, this`progressLog, this`currentStep, this`captionLog
      modifies this`calls, this`distributionUrl, this`deploymentStatus, this`checkLog
      ensures Shows(progressLog, uploadProgress)
      ensures progressLog == old(progressLog) + [75.0] + (if !hostingOk then [] else if distribution.None? then [85.0] else [85.0, 100.0])
      ensures captionLog == old(captionLog) + [EnablingHosting] + (if hostingOk then [CreatingDistribution] else [])
      ensures calls == old(calls) + [EnableHosting(bucket)] + (if hostingOk then DistributionRequests(bucket, distribution, probes) else [])
      ensures distributionUrl == (if hostingOk && distribution.Some? then distribution else old(distributionUrl))
      ensures deploymentStatus == (if hostingOk && distribution.Some? then StatusAfter(probes) else old(deploymentStatus))
    {
      SetProgress(75.0);
      SetStep(EnablingHosting);
      calls := calls + [EnableHosting(bucket)];
      if hostingOk {
        SetProgress(85.0);
        DistributionStep(bucket, distribution, probes);
      }
    }

    /** The catch and finally clauses: a failure resets the status to idle; the flag and the caption are always cleared. */
    method Finish(failed: bool)
      modifies this`deploymentStatus, this`isUploading, this`currentStep, this`captionLog
      ensures deploymentStatus == (if failed then Idle else old(deploymentStatus))
      ensures !isUploading && currentStep == NoCaption && captionLog == old(captionLog) + [NoCaption]
    {
      if failed {
        deploymentStatus := Idle;
      }
      isUploading := false;
      SetStep(NoCaption);
    }

    /** The try block: the archive is built, then the backend steps run if it was. */
    method Pipeline(fileCount: nat, bucket: string, zipPercents: seq<real>, r: StepResults, probes: seq<bool>)
      modifies this`uploadProgress, this`progressLog, this`currentStep, this`captionLog
      modifies this`calls, this`distributionUrl, this`deploymentStatus, this`busyLog, this`checkLog
      ensures busyLog == old(busyLog) + [(old(isUploading), old(deploymentStatus))]
      ensures Shows(progressLog, uploadProgress) && progressLog == old(progressLog) + DeployProgress(fileCount, zipPercents, r)
      ensures captionLog == old(captionLog) + [CreatingZip] + StepCaptionLog(r)
      ensures calls == old(calls) + DeployRequests(bucket, r, probes)
      ensures distributionUrl == (if Deployed(r) then r.distribution else old(distributionUrl))
      ensures deploymentStatus == (if Deployed(r) then StatusAfter(probes) else old(deploymentStatus))
    {
      busyLog := busyLog + [(isUploading, deploymentStatus)];
      StartZip(fileCount, zipPercents);
      if r.zipOk {
        RunSteps(bucket, r, probes);
      }
    }

    /** The body of handleDeploy once its guard has passed, for a folder of `fileCount` files. */
    method Deploy(fileCount: nat, bucket: string, zipPercents: seq<real>, r: StepResults, probes: seq<bool>)
      modifies this`uploadProgress, this`progressLog, this`currentStep, this`captionLog, this`calls
      modifies this`distributionUrl, this`deploymentStatus, this`isUploading, this`isDeploying, this`busyLog, this`checkLog
      ensures busyLog == old(busyLog) + [(true, Deploying)]
      ensures Shows(progressLog, uploadProgress) && progressLog == old(progressLog) + DeployProgress(fileCount, zipPercents, r)
      ensures captionLog == old(captionLog) + DeployCaptions(r)
      ensures calls == old(calls) + DeployRequests(bucket, r, probes)
      ensures deploymentStatus == (if Deployed(r) then StatusAfter(probes) else Idle)
      ensures distributionUrl == (if Deployed(r) then r.distribution else old(distributionUrl))
      ensures !isUploading && isDeploying && currentStep == NoCaption
    {
      isUploading := true;
      isDeploying := true;
      deploymentStatus := Deploying;
      Pipeline(fileCount, bucket, zipPercents, r, probes);
      Finish(!Deployed(r));
    }

    /**
     * handleDeploy: without a folder or a bucket nothing happens. Otherwise the
     * folder is zipped (progress climbs to 50, then follows the compression
     * callbacks), and the upload, hosting and distribution steps run in order,
     * setting 75, 85 and 100 as each succeeds. The first step that throws ends
     * the pipeline with status idle; whatever happens, the upload flag and the
     * caption are cleared at the end.
     */
    method HandleDeploy(zipPercents: seq<real>, r: StepResults, probes: seq<bool>)
      modifies this
      ensures old(selectedFolder).None? || old(selectedBucket) == "" ==>
        isUploading == old(isUploading) && isDeploying == old(isDeploying)
        && deploymentStatus == old(deploymentStatus) && distributionUrl == old(distributionUrl)
        && uploadProgress == old(uploadProgress) && currentStep == old(currentStep)
        && progressLog == old(progressLog) && captionLog == old(captionLog) && calls == old(calls)
        && busyLog == old(busyLog)
      ensures old(selectedFolder).Some? && old(selectedBucket) != "" ==>
        && busyLog == old(busyLog) + [(true, Deploying)]
        && Shows(progressLog, uploadProgress)
        && progressLog == old(progressLog) + DeployProgress(|old(selectedFolder).value|, zipPercents, r)
        && captionLog == old(captionLog) + DeployCaptions(r)
        && calls == old(calls) + DeployRequests(old(selectedBucket), r, probes)
        && deploymentStatus == (if Deployed(r) then StatusAfter(probes) else Idle)
        && distributionUrl == (if Deployed(r) then r.distribution else old(distributionUrl))
        && !isUploading && isDeploying && currentStep == NoCaption
      ensures selectedFolder == old(selectedFolder) && selectedBucket == old(selectedBucket)
      ensures buckets == old(buckets)
    {
      if selectedFolder.None? || selectedBucket == "" {
        return;
      }
      Deploy(|selectedFolder.value|, selectedBucket, zipPercents, r, probes);
    }
  }

  // ---------------------------------------------------------------------------
  // Properties of the pipeline
  // ---------------------------------------------------------------------------

  lemma MulMonotone(a: real, b: real, d: real)
    requires a >= b && d > 0.0
    ensures a * d >= b * d
    ensures a > b ==> a * d > b * d
  {
  }

  lemma ZipProgressBounds(k: nat, n: nat)
    requires 0 < k <= n
    ensures 0.0 < ZipProgress(k, n) <= 50.0
    ensures k == n ==> ZipProgress(k, n) == 50.0
  {
    var d := (n * 2) as real;
    var q := k as real / d;
    assert q * d == k as real;
    if q <= 0.0 {
      MulMonotone(0.0, q, d);
    }
    if q > 0.5 {
      MulMonotone(q, 0.5, d);
    }
    if k == n && q < 0.5 {
      MulMonotone(0.5, q, d);
    }
  }

  /** While zipping, the bar climbs through values above 0 and at most 50, ending exactly at 50. */
  lemma ZipStageBounds(n: nat)
    requires n > 0
    ensures forall k :: 0 <= k < n ==> 0.0 < ZipStage(n)[k] <= 50.0
    ensures ZipStage(n)[n - 1] == 50.0
  {
    forall k | 0 <= k < n
      ensures 0.0 < ZipStage(n)[k] <= 50.0
    {
      ZipProgressBounds(k + 1, n);
    }
    ZipProgressBounds(n, n);
  }

  /** A compression callback reporting a percentage between 0 and 100 moves the bar between 50 and 100. */
  lemma CompressProgressBounds(percent: real)
    requires 0.0 <= percent <= 100.0
    ensures 50.0 <= CompressProgress(percent) <= 100.0
    ensures CompressProgress(percent) == 100.0 <==> percent == 100.0
  {
  }

  /**
   * The bar is not monotone: a compression callback at 100 percent fills it,
   * and the upload step then sets it back to 75.
   */
  lemma ProgressNotMonotone(n: nat, r: StepResults)
    requires r.zipOk && r.uploadOk
    ensures DeployProgress(n, [100.0], r)[n + 1] == 100.0
    ensures DeployProgress(n, [100.0], r)[n + 2] == 75.0
  {
    var p := DeployProgress(n, [100.0], r);
    assert p == [0.0] + ZipStage(n) + [CompressProgress(100.0)] + StepProgressLog(r);
    assert p[n + 1] == CompressProgress(100.0);
  }

  /** A step runs only when every step before it succeeded; the status is checked only after a deploy. */
  lemma StepsRunOnlyAfterSuccess(bucket: string, r: StepResults, probes: seq<bool>)
    ensures UploadWebsite(bucket) in DeployRequests(bucket, r, probes) <==> r.zipOk
    ensures EnableHosting(bucket) in DeployRequests(bucket, r, probes) <==> r.zipOk && r.uploadOk
    ensures CreateDistribution(bucket) in DeployRequests(bucket, r, probes) <==> r.zipOk && r.uploadOk && r.hostingOk
    ensures (exists d :: Probe(d) in DeployRequests(bucket, r, probes)) ==> Deployed(r)
  {
    if r.zipOk && r.uploadOk && r.hostingOk {
      var tail := if r.distribution.Some? then ProbeTrace(r.distribution.value, probes) else [];
      assert forall x :: x in tail ==> x.Probe?;
      var head := [UploadWebsite(bucket), EnableHosting(bucket), CreateDistribution(bucket)];
      assert DeployRequests(bucket, r, probes) == head + tail;
      assert forall x :: x in head + tail ==> x in head || x in tail;
    }
  }

  /** The backend steps set 75, then 85, then 100, each only once its step succeeds. */
  lemma StepProgressOrder(r: StepResults)
    ensures 75.0 in StepProgressLog(r) <==> r.zipOk && r.uploadOk
    ensures 85.0 in StepProgressLog(r) <==> r.zipOk && r.uploadOk && r.hostingOk
    ensures 100.0 in StepProgressLog(r) <==> Deployed(r)
    ensures forall i, j :: 0 <= i < j < |StepProgressLog(r)| ==> StepProgressLog(r)[i] < StepProgressLog(r)[j]
  {
  }

  /** A deploy leaves the bar at 100 after a full success, at 75 or 85 when hosting or the distribution fails. */
  lemma FinalProgress(n: nat, percents: seq<real>, r: StepResults)
    ensures var p := DeployProgress(n, percents, r);
      && (Deployed(r) ==> p[|p| - 1] == 100.0)
      && (r.zipOk && r.uploadOk && !r.hostingOk ==> p[|p| - 1] == 75.0)
      && (r.zipOk && r.uploadOk && r.hostingOk && !Deployed(r) ==> p[|p| - 1] == 85.0)
  {
  }

  /** The status check ends ready exactly when some try answers ok, and stops trying at that answer. */
  lemma StatusCheckOutcome(domain: string, probes: seq<bool>, k: nat)
    requires k < |probes| && probes[k] && forall i :: 0 <= i < k ==> !probes[i]
    ensures StatusAfter(probes) == Ready
    ensures |ProbeTrace(domain, probes)| == k + 1
    decreases k
  {
    if k > 0 {
      StatusCheckOutcome(domain, probes[1..], k - 1);
    }
  }

  /** Without an ok answer every outcome is used up and the status stays checking. */
  lemma {:induction false} StatusCheckExhausted(domain: string, probes: seq<bool>)
    requires forall i :: 0 <= i < |probes| ==> !probes[i]
    ensures StatusAfter(probes) == Checking
    ensures |ProbeTrace(domain, probes)| == |probes|
  {
    if probes != [] {
      StatusCheckExhausted(domain, probes[1..]);
    }
  }

  /** The deploy button is enabled only when handleDeploy's guard lets it run. */
  lemma EnabledButtonPassesGuard(selectedFolder: Option<seq<PickedFile>>, selectedBucket: string, isUploading: bool)
    requires !DeployDisabled(selectedFolder, selectedBucket, isUploading)
    ensures selectedFolder.Some? && selectedBucket != ""
  {
  }
}

/**
 * The S3 details page (app/aws/s3-details/page.tsx) and the upload button of
 * its upload tab (app/aws/s3-details/components.tsx): the page state, the
 * bucket refetch, the create/delete handlers, and the per-file upload loop.
 * What the backend answers is an input of each handler; the calls the page
 * makes are recorded in a ghost log so that their order can be stated.
 */
module S3Page {
  import opened Prelude
  import opened S3Components

  /** One entry of the bucket list returned by the backend. */
  datatype BucketEntry = BucketEntry(name: string, creationDate: string)

  /**
   * A request the page sends to the backend. An upload also records the
   * page's uploading flag at the moment the request goes out.
   */
  datatype Call =
    | ListBuckets
    | CreateBucket(name: string)
    | DeleteBucket(name: string)
    | UploadFile(bucket: string, file: LocalFile, whileUploading: bool)

  /** The requests of one handleUpload: the upload, sent with the uploading flag set, then a refetch when it succeeded. */
  function AttemptCalls(bucket: string, file: LocalFile, ok: bool): (calls: seq<Call>)
    ensures |calls| >= 1 && calls[0] == UploadFile(bucket, file, true)
    ensures ListBuckets in calls <==> ok
  {
    [UploadFile(bucket, file, true)] + (if ok then [ListBuckets] else [])
  }

  /** The files named by the upload requests of a call log, in order. */
  function Uploads(calls: seq<Call>): seq<LocalFile> {
    if calls == [] then []
    else
      var last := calls[|calls| - 1];
      Uploads(calls[..|calls| - 1]) + (if last.UploadFile? then [last.file] else [])
  }

  lemma {:induction false} UploadsAppend(a: seq<Call>, b: seq<Call>)
    ensures Uploads(a + b) == Uploads(a) + Uploads(b)
    decreases |b|
  {
    if b == [] {
      assert a + b == a;
    } else {
      assert (a + b)[..|a + b| - 1] == a + b[..|b| - 1];
      UploadsAppend(a, b[..|b| - 1]);
    }
  }

  /** One handleUpload sends exactly its own file. */
  lemma UploadsOfAttempt(bucket: string, file: LocalFile, ok: bool)
    ensures Uploads(AttemptCalls(bucket, file, ok)) == [file]
  {
    var one := [UploadFile(bucket, file, true)];
    assert one[..0] == [];
    assert Uploads(one) == [file];
    if ok {
      assert (one + [ListBuckets])[..1] == one;
    }
  }

  /**
   * The requests of the first n attempts of the upload button as written:
   * every file is attempted, whatever happened before; `outcomes[k]` says
   * whether the k-th attempt succeeds.
   */
  function UploadTrace(bucket: string, files: seq<LocalFile>, outcomes: seq<bool>, n: nat): seq<Call>
    requires n <= |files| == |outcomes|
  {
    if n == 0 then []
    else UploadTrace(bucket, files, outcomes, n - 1) + AttemptCalls(bucket, files[n - 1], outcomes[n - 1])
  }

  /** One of the first n attempts succeeds. */
  predicate SomeUploaded(outcomes: seq<bool>, n: nat)
    requires n <= |outcomes|
  {
    exists k :: 0 <= k < n && outcomes[k]
  }

  /** A call log holding the first i attempts, followed by attempt i, holds the first i + 1. */
  lemma TraceExtends(log: seq<Call>, bucket: string, files: seq<LocalFile>, outcomes: seq<bool>, i: nat)
    requires i < |files| == |outcomes|
    ensures log + UploadTrace(bucket, files, outcomes, i) + AttemptCalls(bucket, files[i], outcomes[i])
         == log + UploadTrace(bucket, files, outcomes, i + 1)
  {
  }

  /** One more attempt succeeds somewhere exactly when it or an earlier one does. */
  lemma SomeUploadedStep(outcomes: seq<bool>, n: nat)
    requires n < |outcomes|
    ensures SomeUploaded(outcomes, n + 1) == (SomeUploaded(outcomes, n) || outcomes[n])
  {
    if outcomes[n] {
      assert 0 <= n < n + 1 && outcomes[n];
    }
  }

  /**
   * How many files the upload loop attempts when it stops at the first failure:
   * up to and including the first attempt that fails, or all of them.
   */
  function StopPoint(outcomes: seq<bool>): (s: nat)
    ensures s <= |outcomes|
    ensures forall k :: 0 <= k < s - 1 ==> outcomes[k]
    ensures s < |outcomes| ==> 0 < s && !outcomes[s - 1]
    ensures s == |outcomes| ==> (forall k :: 0 <= k < |outcomes| ==> outcomes[k]) || !outcomes[s - 1]
  {
    if outcomes == [] then 0
    else if !outcomes[0] then 1
    else
      var rest := StopPoint(outcomes[1..]);
      assert forall k :: 0 <= k < |outcomes| - 1 ==> outcomes[1..][k] == outcomes[k + 1];
      1 + rest
  }

  /** Attempt i, made before the stop point, fails exactly when it is the last one made. */
  lemma StopStep(outcomes: seq<bool>, i: nat)
    requires i < |outcomes| && i < StopPoint(outcomes)
    ensures !outcomes[i] ==> StopPoint(outcomes) == i + 1
    ensures outcomes[i] ==> i + 1 < StopPoint(outcomes) || i + 1 == StopPoint(outcomes) == |outcomes|
  {
  }

  /** The requests of an upload loop that stops at the first failure. */
  function StoppingTrace(bucket: string, files: seq<LocalFile>, outcomes: seq<bool>): seq<Call>
    requires |files| == |outcomes|
  {
    UploadTrace(bucket, files, outcomes, StopPoint(outcomes))
  }

  /** As written, the first n attempts send the first n files, in order, whatever fails. */
  lemma {:induction false} EveryFileAttempted(bucket: string, files: seq<LocalFile>, outcomes: seq<bool>, n: nat)
    requires n <= |files| == |outcomes|
    ensures Uploads(UploadTrace(bucket, files, outcomes, n)) == files[..n]
  {
    if n > 0 {
      assert files[..n] == files[..n - 1] + [files[n - 1]];
      var attempt := AttemptCalls(bucket, files[n - 1], outcomes[n - 1]);
      EveryFileAttempted(bucket, files, outcomes, n - 1);
      UploadsAppend(UploadTrace(bucket, files, outcomes, n - 1), attempt);
      UploadsOfAttempt(bucket, files[n - 1], outcomes[n - 1]);
    }
  }

  /** Stopping at the first failure sends exactly the files up to that failure. */
  lemma StoppingAttemptsPrefix(bucket: string, files: seq<LocalFile>, outcomes: seq<bool>)
    requires |files| == |outcomes|
    ensures Uploads(StoppingTrace(bucket, files, outcomes)) == files[..StopPoint(outcomes)]
    ensures (forall k :: 0 <= k < |outcomes| ==> outcomes[k]) ==>
      StoppingTrace(bucket, files, outcomes) == UploadTrace(bucket, files, outcomes, |files|)
  {
    EveryFileAttempted(bucket, files, outcomes, StopPoint(outcomes));
  }

  /** With a failing first file, the loop as written still sends the second; the intended loop does not. */
  lemma FailureDoesNotStopUploads(bucket: string, a: LocalFile, b: LocalFile, secondOk: bool)
    ensures Uploads(UploadTrace(bucket, [a, b], [false, secondOk], 2)) == [a, b]
    ensures Uploads(StoppingTrace(bucket, [a, b], [false, secondOk])) == [a]
  {
    EveryFileAttempted(bucket, [a, b], [false, secondOk], 2);
    StoppingAttemptsPrefix(bucket, [a, b], [false, secondOk]);
    assert StopPoint([false, secondOk]) == 1;
  }

  /** The S3 details page's state. */
  class S3DetailsPage {
    var buckets: seq<BucketEntry>
    var selectedBucket: string
    var uploadedFiles: seq<LocalFile>
    var isLoading: bool
    var isUploading: bool
    /** The requests sent so far. */
    ghost var calls: seq<Call>

    constructor ()
      ensures buckets == [] && selectedBucket == "" && uploadedFiles == []
      ensures isLoading && !isUploading && calls == []
    {
      buckets := [];
      selectedBucket := "";
      uploadedFiles := [];
      isLoading := true;
      isUploading := false;
      calls := [];
    }

    /** fetchBuckets: the list is replaced only when the request succeeds; loading ends either way. */
    method FetchBuckets(listing: Option<seq<BucketEntry>>)
      modifies this`buckets, this`isLoading, this`calls
      ensures buckets == (if listing.Some? then listing.value else old(buckets))
      ensures !isLoading && calls == old(calls) + [ListBuckets]
      ensures selectedBucket == old(selectedBucket) && uploadedFiles == old(uploadedFiles)
      ensures isUploading == old(isUploading)
    {
      isLoading := true;
      calls := calls + [ListBuckets];
      match listing {
        case Some(data) => buckets := data;
        case None =>
      }
      isLoading := false;
    }

    /** onDrop: dropped files are appended to those already picked. */
    method OnDrop(accepted: seq<LocalFile>)
      modifies this
      ensures uploadedFiles == old(uploadedFiles) + accepted
      ensures buckets == old(buckets) && selectedBucket == old(selectedBucket)
      ensures isLoading == old(isLoading) && isUploading == old(isUploading) && calls == old(calls)
    {
      uploadedFiles := uploadedFiles + accepted;
    }

    method SelectBucket(name: string)
      modifies this
      ensures selectedBucket == name
      ensures buckets == old(buckets) && uploadedFiles == old(uploadedFiles)
      ensures isLoading == old(isLoading) && isUploading == old(isUploading) && calls == old(calls)
    {
      selectedBucket := name;
    }

    /** handleCreateBucket: a refetch follows only a successful creation. */
    method HandleCreateBucket(name: string, ok: bool, listing: Option<seq<BucketEntry>>)
      modifies this
      ensures calls == old(calls) + [CreateBucket(name)] + (if ok then [ListBuckets] else [])
      ensures buckets == (if ok && listing.Some? then listing.value else old(buckets))
      ensures isLoading == (if ok then false else old(isLoading))
      ensures selectedBucket == old(selectedBucket) && uploadedFiles == old(uploadedFiles)
      ensures isUploading == old(isUploading)
    {
      calls := calls + [CreateBucket(name)];
      if ok {
        FetchBuckets(listing);
      }
    }

    /** handleDeleteBucket: a refetch follows only a successful deletion. */
    method HandleDeleteBucket(name: string, ok: bool, listing: Option<seq<BucketEntry>>)
      modifies this
      ensures calls == old(calls) + [DeleteBucket(name)] + (if ok then [ListBuckets] else [])
      ensures buckets == (if ok && listing.Some? then listing.value else old(buckets))
      ensures isLoading == (if ok then false else old(isLoading))
      ensures selectedBucket == old(selectedBucket) && uploadedFiles == old(uploadedFiles)
      ensures isUploading == old(isUploading)
    {
      calls := calls + [DeleteBucket(name)];
      if ok {
        FetchBuckets(listing);
      }
    }

    /**
     * handleUpload as written: a success clears the picked files and refetches;
     * a failure is reported and swallowed, so the caller never sees it.
     */
    method HandleUpload(bucket: string, file: LocalFile, ok: bool, listing: Option<seq<BucketEntry>>) returns (threw: bool)
      modifies this`isUploading, this`calls, this`uploadedFiles, this`buckets, this`isLoading
      ensures !threw && !isUploading
      ensures calls == old(calls) + AttemptCalls(bucket, file, ok)
      ensures uploadedFiles == (if ok then [] else old(uploadedFiles))
      ensures buckets == (if ok && listing.Some? then listing.value else old(buckets))
      ensures isLoading == (if ok then false else old(isLoading))
      ensures selectedBucket == old(selectedBucket)
    {
      isUploading := true;
      calls := calls + [UploadFile(bucket, file, isUploading)];
      if ok {
        uploadedFiles := [];
        FetchBuckets(listing);
      }
      isUploading := false;
      threw := false;
    }

    /** handleUpload as evidently intended: the failure is passed on to the caller after being reported. */
    method HandleUploadReporting(bucket: string, file: LocalFile, ok: bool, listing: Option<seq<BucketEntry>>) returns (threw: bool)
      modifies this`isUploading, this`calls, this`uploadedFiles, this`buckets, this`isLoading
      ensures threw == !ok && !isUploading
      ensures calls == old(calls) + AttemptCalls(bucket, file, ok)
      ensures uploadedFiles == (if ok then [] else old(uploadedFiles))
      ensures buckets == (if ok && listing.Some? then listing.value else old(buckets))
      ensures isLoading == (if ok then false else old(isLoading))
      ensures selectedBucket == old(selectedBucket)
    {
      threw := HandleUpload(bucket, file, ok, listing);
      threw := !ok;
    }

    /**
     * The upload button as written: disabled without a bucket, without files or
     * while uploading; otherwise it walks the files picked when it was clicked,
     * the k-th attempt succeeding as `outcomes[k]` says. Since handleUpload
     * never throws, the loop's early exit is never taken.
     */
    method UploadClicked(outcomes: seq<bool>, listing: Option<seq<BucketEntry>>)
      requires |outcomes| == |uploadedFiles|
      modifies this`isUploading, this`calls, this`uploadedFiles, this`buckets, this`isLoading
      ensures UploadDisabled(old(selectedBucket), old(uploadedFiles), old(isUploading)) ==>
        calls == old(calls) && uploadedFiles == old(uploadedFiles) && buckets == old(buckets)
        && isLoading == old(isLoading) && isUploading == old(isUploading)
      ensures !UploadDisabled(old(selectedBucket), old(uploadedFiles), old(isUploading)) ==>
        calls == old(calls) + UploadTrace(old(selectedBucket), old(uploadedFiles), outcomes, |outcomes|)
        && uploadedFiles == (if SomeUploaded(outcomes, |outcomes|) then [] else old(uploadedFiles))
        && buckets == (if SomeUploaded(outcomes, |outcomes|) && listing.Some? then listing.value else old(buckets))
        && isLoading == (if SomeUploaded(outcomes, |outcomes|) then false else old(isLoading))
        && !isUploading
      ensures selectedBucket == old(selectedBucket)
    {
      if !UploadDisabled(selectedBucket, uploadedFiles, isUploading) {
        UploadEach(selectedBucket, uploadedFiles, outcomes, listing);
      }
    }

    /** The loop of the upload button as written: handleUpload once per file, in order. */
    method UploadEach(bucket: string, files: seq<LocalFile>, outcomes: seq<bool>, listing: Option<seq<BucketEntry>>)
      requires |outcomes| == |files| && uploadedFiles == files && !isUploading
      modifies this`isUploading, this`calls, this`uploadedFiles, this`buckets, this`isLoading
      ensures calls == old(calls) + UploadTrace(bucket, files, outcomes, |files|) && !isUploading
      ensures uploadedFiles == (if SomeUploaded(outcomes, |outcomes|) then [] else files)
      ensures buckets == (if SomeUploaded(outcomes, |outcomes|) && listing.Some? then listing.value else old(buckets))
      ensures isLoading == (if SomeUploaded(outcomes, |outcomes|) then false else old(isLoading))
    {
      ghost var calls0, buckets0, loading0 := calls, buckets, isLoading;
      var i := 0;
      while i < |files|
        invariant 0 <= i <= |files| && !isUploading
        invariant calls == calls0 + UploadTrace(bucket, files, outcomes, i)
        invariant AfterUploads(SomeUploaded(outcomes, i), files, buckets0, loading0, listing)
      {
        var threw := UploadNext(bucket, files[i], outcomes[i], listing, false, SomeUploaded(outcomes, i), files, buckets0, loading0);
        SomeUploadedStep(outcomes, i);
        TraceExtends(calls0, bucket, files, outcomes, i);
        if threw {
          assert false;
          break;
        }
        i := i + 1;
      }
    }

    /** The page after a run of uploads that started from `files0`, `buckets0` and `loading0`, by whether one of them succeeded. */
    ghost predicate AfterUploads(some: bool, files0: seq<LocalFile>, buckets0: seq<BucketEntry>, loading0: bool, listing: Option<seq<BucketEntry>>)
      reads this
    {
      && uploadedFiles == (if some then [] else files0)
      && buckets == (if some && listing.Some? then listing.value else buckets0)
      && isLoading == (if some then false else loading0)
    }

    /**
     * The body of either upload loop: one handleUpload (`reporting` selects
     * the version that passes a failure on), after which the page shows
     * whether this upload or an earlier one succeeded.
     */
    method UploadNext(bucket: string, file: LocalFile, ok: bool, listing: Option<seq<BucketEntry>>, reporting: bool,
                      ghost some: bool, ghost files0: seq<LocalFile>, ghost buckets0: seq<BucketEntry>, ghost loading0: bool)
      returns (threw: bool)
      requires !isUploading && AfterUploads(some, files0, buckets0, loading0, listing)
      modifies this`isUploading, this`calls, this`uploadedFiles, this`buckets, this`isLoading
      ensures threw == (reporting && !ok) && !isUploading
      ensures calls == old(calls) + AttemptCalls(bucket, file, ok)
      ensures AfterUploads(some || ok, files0, buckets0, loading0, listing)
    {
      if reporting {
        threw := HandleUploadReporting(bucket, file, ok, listing);
      } else {
        threw := HandleUpload(bucket, file, ok, listing);
      }
    }

    /** The upload button as evidently intended: the first failing attempt ends the loop. */
    method UploadClickedStopping(outcomes: seq<bool>, listing: Option<seq<BucketEntry>>)
      requires |outcomes| == |uploadedFiles|
      modifies this`isUploading, this`calls, this`uploadedFiles, this`buckets, this`isLoading
      ensures UploadDisabled(old(selectedBucket), old(uploadedFiles), old(isUploading)) ==>
        calls == old(calls) && uploadedFiles == old(uploadedFiles) && buckets == old(buckets)
        && isLoading == old(isLoading) && isUploading == old(isUploading)
      ensures !UploadDisabled(old(selectedBucket), old(uploadedFiles), old(isUploading)) ==>
        var stop := StopPoint(outcomes);
        calls == old(calls) + StoppingTrace(old(selectedBucket), old(uploadedFiles), outcomes)
        && uploadedFiles == (if SomeUploaded(outcomes, stop) then [] else old(uploadedFiles))
        && buckets == (if SomeUploaded(outcomes, stop) && listing.Some? then listing.value else old(buckets))
        && isLoading == (if SomeUploaded(outcomes, stop) then false else old(isLoading))
        && !isUploading
      ensures selectedBucket == old(selectedBucket)
    {
      if !UploadDisabled(selectedBucket, uploadedFiles, isUploading) {
        UploadUntilFailure(selectedBucket, uploadedFiles, outcomes, listing);
      }
    }

    /**
     * The intended loop: handleUpload once per file, until the first failure
     * is passed on. The attempts made are those up to the stop point; the
     * page state follows from whether one of them succeeded.
     */
    method UploadUntilFailure(bucket: string, files: seq<LocalFile>, outcomes: seq<bool>, listing: Option<seq<BucketEntry>>)
      requires |outcomes| == |files| && !isUploading
      modifies this`isUploading, this`calls, this`uploadedFiles, this`buckets, this`isLoading
      ensures calls == old(calls) + StoppingTrace(bucket, files, outcomes) && !isUploading
      ensures AfterUploads(SomeUploaded(outcomes, StopPoint(outcomes)), old(uploadedFiles), old(buckets), old(isLoading), listing)
    {
      ghost var calls0, files0, buckets0, loading0 := calls, uploadedFiles, buckets, isLoading;
      ghost var stop := StopPoint(outcomes);
      var i := 0;
      while i < |files|
        invariant 0 <= i <= stop && (i == stop ==> i == |files|) && !isUploading && stop == StopPoint(outcomes)
        invariant calls == calls0 + UploadTrace(bucket, files, outcomes, i)
        invariant AfterUploads(SomeUploaded(outcomes, i), files0, buckets0, loading0, listing)
      {
        var threw := UploadNext(bucket, files[i], outcomes[i], listing, true, SomeUploaded(outcomes, i), files0, buckets0, loading0);
        SomeUploadedStep(outcomes, i);
        TraceExtends(calls0, bucket, files, outcomes, i);
        StopStep(outcomes, i);
        i := i + 1;
        if threw {
          break;
        }
      }
      assert i == stop;
      assert StoppingTrace(bucket, files, outcomes) == UploadTrace(bucket, files, outcomes, i);
    }
  }
}

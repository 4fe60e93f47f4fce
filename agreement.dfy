/**
 * How the pages and the backend fit together: the instance buttons against
 * the start and stop endpoints, the overview page's running count against
 * the details page's, and the bucket sizes the client shows against what the
 * bucket-info endpoint answers.
 */
module Agreement {
  import opened Prelude
  import Backend
  import Ec2Details
  import S3Components
  import AwsPage

  // ---------------------------------------------------------------------------
  // Instance buttons against the start and stop endpoints
  // ---------------------------------------------------------------------------

  /** A state that lower-cases to `target` but differs from it in some letter is not `target`. */
  lemma LowerDiffers(s: string, t: string, i: nat)
    requires i < |s| && i < |t| && LowerChar(s[i]) != t[i] && t[i] == LowerChar(t[i])
    ensures s != t
  {
  }

  /** Whenever the details page offers Start, the start endpoint calls the provider. */
  lemma StartButtonIsHonoured(s: string)
    requires Ec2Details.CanStart(Some(s))
    ensures Backend.StartAction(s) == Backend.CallProvider
  {
    assert Lower(s) == "stopped";
    assert Lower(s)[0] == LowerChar(s[0]) == 's';
    LowerDiffers(s, "running", 0);
    LowerDiffers(s, "pending", 0);
    assert |s| == 7;
  }

  /**
   * The details page offers Stop for a pending instance, but the stop
   * endpoint refuses it with 400 without calling the provider.
   */
  lemma PendingStopRefused(id: string)
    requires id != ""
    ensures Ec2Details.CanStop(Some("pending"))
    ensures Backend.StopInstance(Some(id), Backend.StateIs("pending"), false) == Backend.ControlReply(400, false)
  {
    assert Lower("pending") == "pending";
  }

  /** Whenever Stop is offered, the endpoint either stops the instance or refuses a pending one; it never reports it already stopped. */
  lemma StopButtonOutcome(s: string)
    requires Ec2Details.CanStop(Some(s))
    ensures Backend.StopAction(s) != Backend.AlreadyThere
    ensures Backend.StopAction(s) == Backend.Refuse <==> s == "pending"
  {
    var l := Lower(s);
    assert l[1] == LowerChar(s[1]);
    LowerDiffers(s, "stopped", 1);
    LowerDiffers(s, "stopping", 1);
  }

  /** The start endpoint starts a terminated instance, which the details page never offers to start. */
  lemma TerminatedStartDisagreement(id: string)
    requires id != ""
    ensures !Ec2Details.CanStart(Some("terminated"))
    ensures Backend.StartInstance(Some(id), Backend.StateIs("terminated"), false) == Backend.ControlReply(200, true)
  {
    assert |Lower("terminated")| == 10;
  }

  // ---------------------------------------------------------------------------
  // Overview page against details page
  // ---------------------------------------------------------------------------

  /** An exactly running or pending instance is active on the details page too. */
  lemma ExactIsActive(inst: Ec2Details.InstanceView)
    requires AwsPage.IsRunningExact(inst)
    ensures Ec2Details.IsActive(inst)
  {
    if inst.stateName == Some("running") {
      assert Lower("running") == "running";
    } else {
      assert Lower("pending") == "pending";
    }
  }

  /** The overview page's case-sensitive count never exceeds the details page's case-insensitive one. */
  lemma {:induction false} OverviewCountAtMostDetails(xs: seq<Ec2Details.InstanceView>)
    ensures AwsPage.RunningInstances(xs) <= Ec2Details.RunningCount(xs)
  {
    if xs != [] {
      var init := xs[..|xs| - 1];
      OverviewCountAtMostDetails(init);
      if AwsPage.IsRunningExact(xs[|xs| - 1]) {
        ExactIsActive(xs[|xs| - 1]);
      }
    }
  }

  /** An instance reported as `Running` counts on the details page but not on the overview. */
  lemma CapitalisedStateCountsDifferently(id: string)
    ensures AwsPage.RunningInstances([Ec2Details.InstanceView(id, None, Some("Running"))]) == 0
    ensures Ec2Details.RunningCount([Ec2Details.InstanceView(id, None, Some("Running"))]) == 1
  {
    var xs := [Ec2Details.InstanceView(id, None, Some("Running"))];
    assert xs[..0] == [];
    assert Lower("Running") == "running";
  }

  // ---------------------------------------------------------------------------
  // Bucket sizes: endpoint against client
  // ---------------------------------------------------------------------------

  /**
   * What the overview tab records for one bucket from the bucket-info
   * endpoint's answer: the fetch wrapper throws when the response is not ok
   * (a status outside 200-299),
   * and a thrown request is recorded as no info.
   */
  method ProbeBucket(name: string, listing: Backend.Listing) returns (probe: S3Components.BucketProbe)
    ensures probe.name == name
    ensures listing.Listed? ==>
      S3Components.SizeOf(probe) == Backend.SizeSum(Backend.AllObjects(listing.pages))
      && S3Components.ObjectsOf(probe) == |Backend.AllObjects(listing.pages)|
    ensures listing.ListingFailed? ==> S3Components.SizeOf(probe) == 0 && S3Components.ObjectsOf(probe) == 0
    ensures listing.ListingFailed? ==> (probe.info.Some? <==> listing.code == Backend.NoSuchBucket)
  {
    var status, info := Backend.GetBucketInfo(listing);
    if 200 <= status <= 299 {
      probe := S3Components.BucketProbe(name, Some(S3Components.BucketInfo(info.value.size, info.value.objects)));
    } else {
      probe := S3Components.BucketProbe(name, None);
    }
  }
}

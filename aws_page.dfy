/**
 * The AWS overview page (app/aws/page.tsx): the initial fetch of buckets and
 * instances, the instance poll, the running-instance count and the card
 * labels. The two requests' answers are inputs (`None` when a request fails);
 * the poll is one call per tick.
 */
module AwsPage {
  import opened Prelude
  import opened Ec2Details

  /** One entry of the bucket list. */
  datatype Bucket = Bucket(name: string, creationDate: string)

  /** `State?.Name` is exactly `running` or `pending`; no case folding here. */
  predicate IsRunningExact(inst: InstanceView): (b: bool)
    ensures b ==> inst.stateName.Some? && inst.stateName.value in {"running", "pending"}
    ensures inst.stateName.Some? && inst.stateName.value in {"running", "pending"} ==> b
  {
    inst.stateName == Some("running") || inst.stateName == Some("pending")
  }

  /** getRunningInstances: the length of the filtered list. */
  function RunningInstances(xs: seq<InstanceView>): (n: nat)
    ensures n <= |xs|
    ensures n == |xs| <==> forall i :: 0 <= i < |xs| ==> IsRunningExact(xs[i])
    ensures n == 0 <==> forall i :: 0 <= i < |xs| ==> !IsRunningExact(xs[i])
  {
    if xs == [] then 0
    else
      var init := xs[..|xs| - 1];
      var rest := RunningInstances(init);
      assert forall i :: 0 <= i < |init| ==> init[i] == xs[i];
      rest + (if IsRunningExact(xs[|xs| - 1]) then 1 else 0)
  }

  /** `s` when the count is not one, nothing otherwise. */
  function PluralSuffix(n: nat): string {
    if n != 1 then "s" else ""
  }

  /** The S3 card: "N Active Bucket", pluralised. */
  function BucketLabel(n: nat): (s: string)
    ensures s == Decimal(n) + (if n == 1 then " Active Bucket" else " Active Buckets")
  {
    Decimal(n) + " Active Bucket" + PluralSuffix(n)
  }

  /** The EC2 card's second line: "N Total Instance", pluralised. */
  function InstanceTotalLabel(n: nat): (s: string)
    ensures s == Decimal(n) + (if n == 1 then " Total Instance" else " Total Instances")
  {
    Decimal(n) + " Total Instance" + PluralSuffix(n)
  }

  /** The EC2 card's first line. */
  function RunningLabel(n: nat): (s: string)
    ensures |s| == |Decimal(n)| + 8 && s[..|Decimal(n)|] == Decimal(n) && s[|Decimal(n)|..] == " Running"
  {
    Decimal(n) + " Running"
  }

  /** The digits a label starts with. */
  function LeadingDigits(s: string): (d: string)
    ensures |d| <= |s| && d == s[..|d|]
    ensures forall i :: 0 <= i < |d| ==> '0' <= d[i] <= '9'
  {
    if s == [] || !('0' <= s[0] <= '9') then []
    else
      var rest := LeadingDigits(s[1..]);
      assert forall i :: 0 <= i < |rest| ==> rest[i] == s[i + 1];
      [s[0]] + rest
  }

  /** The number a label starts with. */
  function CountOf(text: string): nat {
    DecimalValue(LeadingDigits(text))
  }

  /** The leading digits of digits followed by a non-digit are those digits. */
  lemma {:induction false} LeadingDigitsOf(d: string, rest: string)
    requires forall i :: 0 <= i < |d| ==> '0' <= d[i] <= '9'
    requires rest != [] && !('0' <= rest[0] <= '9')
    ensures LeadingDigits(d + rest) == d
  {
    if d != [] {
      assert (d + rest)[0] == d[0];
      assert (d + rest)[1..] == d[1..] + rest;
      LeadingDigitsOf(d[1..], rest);
    } else {
      assert d + rest == rest;
    }
  }

  /** A label built from a count reads back as that count. */
  lemma {:induction false} CountRoundTrip(n: nat, text: string)
    requires text != [] && text[0] == ' '
    ensures CountOf(Decimal(n) + text) == n
  {
    LeadingDigitsOf(Decimal(n), text);
    DecimalRoundTrip(n);
  }

  /** The bucket label shows the bucket count and ends in `s` exactly when the count is not one. */
  lemma BucketLabelCount(n: nat)
    ensures CountOf(BucketLabel(n)) == n
    ensures EndsWith(BucketLabel(n), "s") <==> n != 1
  {
    var text := " Active Bucket" + PluralSuffix(n);
    assert BucketLabel(n) == Decimal(n) + text;
    CountRoundTrip(n, text);
    assert BucketLabel(n)[|BucketLabel(n)| - 1] == (if n != 1 then 's' else 't');
  }

  /** The instance total label shows the count and ends in `s` exactly when the count is not one. */
  lemma InstanceTotalLabelCount(n: nat)
    ensures CountOf(InstanceTotalLabel(n)) == n
    ensures EndsWith(InstanceTotalLabel(n), "s") <==> n != 1
  {
    var text := " Total Instance" + PluralSuffix(n);
    assert InstanceTotalLabel(n) == Decimal(n) + text;
    CountRoundTrip(n, text);
    assert InstanceTotalLabel(n)[|InstanceTotalLabel(n)| - 1] == (if n != 1 then 's' else 'e');
  }

  /** The running line shows the running count. */
  lemma RunningLabelCount(xs: seq<InstanceView>)
    ensures CountOf(RunningLabel(RunningInstances(xs))) == RunningInstances(xs)
    ensures CountOf(RunningLabel(RunningInstances(xs))) <= CountOf(InstanceTotalLabel(|xs|))
  {
    CountRoundTrip(RunningInstances(xs), " Running");
    InstanceTotalLabelCount(|xs|);
  }

  /** The overview page's state. */
  class AwsPage {
    var buckets: seq<Bucket>
    var instances: seq<InstanceView>
    var isLoading: bool

    constructor ()
      ensures buckets == [] && instances == [] && isLoading
    {
      buckets := [];
      instances := [];
      isLoading := true;
    }

    /**
     * fetchData: both requests are awaited together, so either failing skips
     * both updates; loading ends in every case.
     */
    method FetchData(s3: Option<seq<Bucket>>, ec2: Option<seq<InstanceView>>)
      modifies this`buckets, this`instances, this`isLoading
      ensures s3.Some? && ec2.Some? ==> buckets == s3.value && instances == ec2.value
      ensures s3.None? || ec2.None? ==> buckets == old(buckets) && instances == old(instances)
      ensures !isLoading
    {
      if s3.Some? && ec2.Some? {
        buckets := s3.value;
        instances := ec2.value;
      }
      isLoading := false;
    }

    /** One tick of the poll: only the instance list is refreshed, and only when the request succeeds. */
    method Poll(ec2: Option<seq<InstanceView>>)
      modifies this`instances
      ensures instances == (if ec2.Some? then ec2.value else old(instances))
    {
      if ec2.Some? {
        instances := ec2.value;
      }
    }

    /** What the S3 card shows. */
    function BucketCard(): (text: string)
      reads this
      ensures isLoading ==> text == "Loading..."
      ensures !isLoading ==> CountOf(text) == |buckets|
    {
      if isLoading then "Loading..."
      else
        BucketLabelCount(|buckets|);
        BucketLabel(|buckets|)
    }
  }

  /** A run of polls leaves the answer of the last successful one, or the list it started with. */
  function AfterPolls(start: seq<InstanceView>, answers: seq<Option<seq<InstanceView>>>): seq<InstanceView> {
    if answers == [] then start
    else
      var last := answers[|answers| - 1];
      if last.Some? then last.value else AfterPolls(start, answers[..|answers| - 1])
  }

  /** Polling only ever shows a list some poll returned, or the one already shown. */
  lemma {:induction false} PollsShowAnAnswer(start: seq<InstanceView>, answers: seq<Option<seq<InstanceView>>>)
    ensures AfterPolls(start, answers) == start || Some(AfterPolls(start, answers)) in answers
    ensures (forall i :: 0 <= i < |answers| ==> answers[i].None?) ==> AfterPolls(start, answers) == start
  {
    if answers != [] {
      var init := answers[..|answers| - 1];
      PollsShowAnAnswer(start, init);
      assert forall i :: 0 <= i < |init| ==> init[i] == answers[i];
      assert forall x :: x in init ==> x in answers;
    }
  }
}

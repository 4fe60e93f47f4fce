/**
 * The Flask backend (api/app.py): the bucket-size fold over paginated object
 * listings, the start/stop decisions taken from an instance's current state,
 * the instance listing with its Name-tag lookup and defaults, the content type
 * chosen for each file of an uploaded website, the hex colour encoder and the
 * CPU insight thresholds. Every boto3 call is replaced by its result, given as
 * an input.
 */
module Backend {
  import opened Prelude

  const NoSuchBucket: string := "NoSuchBucket"

  // ---------------------------------------------------------------------------
  // Bucket size and object count (get_bucket_info)
  // ---------------------------------------------------------------------------

  datatype S3Object = S3Object(key: string, size: nat)

  /** One page of a list_objects_v2 listing; an empty page carries no Contents. */
  datatype Page = Page(contents: Option<seq<S3Object>>)

  /** What the paginator produced: every page, or the error code of the ClientError it raised. */
  datatype Listing = Listed(pages: seq<Page>) | ListingFailed(code: string)

  datatype BucketInfo = BucketInfo(size: nat, objects: nat)

  function PageObjects(p: Page): seq<S3Object> {
    p.contents.GetOr([])
  }

  /** Every object of every page, in listing order. */
  function AllObjects(pages: seq<Page>): seq<S3Object> {
    if pages == [] then [] else AllObjects(pages[..|pages| - 1]) + PageObjects(pages[|pages| - 1])
  }

  /** `sum(obj['Size'] for obj in objs)`. */
  function SizeSum(objs: seq<S3Object>): nat {
    if objs == [] then 0 else SizeSum(objs[..|objs| - 1]) + objs[|objs| - 1].size
  }

  /** The size of a concatenation is the sum of the sizes of its parts. */
  lemma {:induction false} SizeSumAppend(a: seq<S3Object>, b: seq<S3Object>)
    ensures SizeSum(a + b) == SizeSum(a) + SizeSum(b)
    decreases |b|
  {
    if b != [] {
      assert (a + b)[..|a + b| - 1] == a + b[..|b| - 1];
      SizeSumAppend(a, b[..|b| - 1]);
    } else {
      assert a + b == a;
    }
  }

  /** How the objects are split into pages does not matter: listing `a` then `b` is listing their union. */
  lemma {:induction false} AllObjectsAppend(a: seq<Page>, b: seq<Page>)
    ensures AllObjects(a + b) == AllObjects(a) + AllObjects(b)
    decreases |b|
  {
    if b != [] {
      assert (a + b)[..|a + b| - 1] == a + b[..|b| - 1];
      AllObjectsAppend(a, b[..|b| - 1]);
    } else {
      assert a + b == a;
    }
  }

  /** The accumulation loop of get_bucket_info over the paginator's pages. */
  method SumPages(pages: seq<Page>) returns (info: BucketInfo)
    ensures info.size == SizeSum(AllObjects(pages))
    ensures info.objects == |AllObjects(pages)|
  {
    var totalSize: nat := 0;
    var totalObjects: nat := 0;
    var i := 0;
    while i < |pages|
      invariant 0 <= i <= |pages|
      invariant totalSize == SizeSum(AllObjects(pages[..i]))
      invariant totalObjects == |AllObjects(pages[..i])|
    {
      assert pages[..i + 1][..i] == pages[..i];
      assert AllObjects(pages[..i + 1]) == AllObjects(pages[..i]) + PageObjects(pages[i]);
      if pages[i].contents.Some? {
        var contents := pages[i].contents.value;
        totalObjects := totalObjects + |contents|;
        SizeSumAppend(AllObjects(pages[..i]), contents);
        totalSize := totalSize + SizeSum(contents);
      } else {
        assert AllObjects(pages[..i + 1]) == AllObjects(pages[..i]);
      }
      i := i + 1;
    }
    assert pages[..i] == pages;
    info := BucketInfo(totalSize, totalObjects);
  }

  /**
   * The /s3/bucket_info endpoint: 200 with the totals, 200 with zeros when the
   * bucket does not exist, 500 for any other ClientError.
   */
  method GetBucketInfo(listing: Listing) returns (status: nat, info: Option<BucketInfo>)
    ensures status == 200 <==> info.Some?
    ensures status == 200 || status == 500
    ensures listing.Listed? ==>
      status == 200 && info.value.size == SizeSum(AllObjects(listing.pages))
        && info.value.objects == |AllObjects(listing.pages)|
    ensures listing.ListingFailed? && listing.code == NoSuchBucket ==> status == 200 && info == Some(BucketInfo(0, 0))
    ensures listing.ListingFailed? && listing.code != NoSuchBucket ==> status == 500
  {
    match listing
    case Listed(pages) =>
      var totals := SumPages(pages);
      status, info := 200, Some(totals);
    case ListingFailed(code) =>
      if code == NoSuchBucket {
        status, info := 200, Some(BucketInfo(0, 0));
      } else {
        status, info := 500, None;
      }
  }

  // ---------------------------------------------------------------------------
  // Start and stop (start_instance, stop_instance)
  // ---------------------------------------------------------------------------

  /** What an endpoint does with the current state: report it, refuse to act, or call the provider. */
  datatype Action = AlreadyThere | Refuse | CallProvider

  /** The answer to describe_instances for the requested id. */
  datatype Lookup = StateIs(name: string) | LookupFailed(message: string)

  /** The status code returned and whether start_instances/stop_instances was called. */
  datatype ControlReply = ControlReply(status: nat, providerCalled: bool)

  predicate Transitional(state: string) {
    state == "pending" || state == "stopping"
  }

  function StartAction(state: string): (a: Action)
    ensures a == AlreadyThere <==> state == "running"
    ensures a == Refuse <==> Transitional(state)
    ensures a == CallProvider <==> state != "running" && !Transitional(state)
  {
    if state == "running" then AlreadyThere
    else if Transitional(state) then Refuse
    else CallProvider
  }

  function StopAction(state: string): (a: Action)
    ensures a == AlreadyThere <==> state == "stopped"
    ensures a == Refuse <==> Transitional(state)
    ensures a == CallProvider <==> state != "stopped" && !Transitional(state)
  {
    if state == "stopped" then AlreadyThere
    else if Transitional(state) then Refuse
    else CallProvider
  }

  /** `if not instance_id`: an absent id and an empty id are both missing. */
  predicate MissingId(instanceId: Option<string>) {
    instanceId.None? || instanceId.value == ""
  }

  /** Shared shape of start_instance and stop_instance, given the decision taken. */
  function ControlInstance(instanceId: Option<string>, lookup: Lookup, decide: string -> Action, callFails: bool): (r: ControlReply)
    ensures r.status in {200, 400, 500}
    ensures r.providerCalled <==> !MissingId(instanceId) && lookup.StateIs? && decide(lookup.name) == CallProvider
    ensures r.status == 500 <==> !MissingId(instanceId) && (lookup.LookupFailed? || (decide(lookup.name) == CallProvider && callFails))
    ensures r.status == 400 <==> MissingId(instanceId) || (lookup.StateIs? && decide(lookup.name) == Refuse)
  {
    if MissingId(instanceId) then ControlReply(400, false)
    else match lookup
      case LookupFailed(_) => ControlReply(500, false)
      case StateIs(state) =>
        match decide(state)
        case AlreadyThere => ControlReply(200, false)
        case Refuse => ControlReply(400, false)
        case CallProvider => ControlReply(if callFails then 500 else 200, true)
  }

  /** POST /start_instance. */
  function StartInstance(instanceId: Option<string>, lookup: Lookup, callFails: bool): (r: ControlReply)
    ensures MissingId(instanceId) ==> r == ControlReply(400, false)
    ensures !MissingId(instanceId) && lookup.LookupFailed? ==> r == ControlReply(500, false)
    ensures !MissingId(instanceId) && lookup.StateIs? ==>
      (r.providerCalled <==> lookup.name != "running" && !Transitional(lookup.name))
      && (lookup.name == "running" ==> r.status == 200)
      && (Transitional(lookup.name) ==> r.status == 400)
      && (r.providerCalled ==> r.status == (if callFails then 500 else 200))
  {
    ControlInstance(instanceId, lookup, StartAction, callFails)
  }

  /** POST /stop_instance. */
  function StopInstance(instanceId: Option<string>, lookup: Lookup, callFails: bool): (r: ControlReply)
    ensures MissingId(instanceId) ==> r == ControlReply(400, false)
    ensures !MissingId(instanceId) && lookup.LookupFailed? ==> r == ControlReply(500, false)
    ensures !MissingId(instanceId) && lookup.StateIs? ==>
      (r.providerCalled <==> lookup.name != "stopped" && !Transitional(lookup.name))
      && (lookup.name == "stopped" ==> r.status == 200)
      && (Transitional(lookup.name) ==> r.status == 400)
      && (r.providerCalled ==> r.status == (if callFails then 500 else 200))
  {
    ControlInstance(instanceId, lookup, StopAction, callFails)
  }

  /**
   * The only states in which neither endpoint calls the provider are the four
   * the backend names; for any other state string (terminated, shutting-down,
   * or a differently cased name) both start and stop are sent to the provider.
   */
  lemma BothEndpointsCallProvider(state: string)
    ensures StartAction(state) == CallProvider && StopAction(state) == CallProvider
        <==> state !in {"running", "stopped", "pending", "stopping"}
  {
  }

  // ---------------------------------------------------------------------------
  // Instance listing (describe_instances)
  // ---------------------------------------------------------------------------

  datatype Tag = Tag(key: string, value: string)

  /** An instance as the provider describes it; optional fields may be absent. */
  datatype RawInstance = RawInstance(
    id: string, instanceType: string, stateName: string, stateCode: int,
    publicIp: Option<string>, privateIp: Option<string>, launchTime: string,
    tags: Option<seq<Tag>>, platform: Option<string>, architecture: Option<string>,
    vpcId: Option<string>, subnetId: Option<string>, securityGroups: Option<seq<string>>)

  datatype Reservation = Reservation(instances: seq<RawInstance>)

  /** One entry of the endpoint's JSON answer. */
  datatype InstanceSummary = InstanceSummary(
    id: string, instanceType: string, stateName: string, stateCode: int,
    publicIp: string, privateIp: string, launchTime: string, name: string,
    platform: string, architecture: string, vpcId: string, subnetId: string,
    securityGroups: seq<string>, tags: seq<Tag>)

  /** The Value of the first tag whose Key is Name, or the empty string. */
  function NameTag(tags: seq<Tag>): string {
    if tags == [] then ""
    else if tags[0].key == "Name" then tags[0].value
    else NameTag(tags[1..])
  }

  /** NameTag is the Value of the first Name tag, and empty when there is none. */
  lemma {:induction false} NameTagIsFirstName(tags: seq<Tag>)
    ensures (forall i :: 0 <= i < |tags| ==> tags[i].key != "Name") ==> NameTag(tags) == ""
    ensures forall i :: 0 <= i < |tags| && tags[i].key == "Name" && (forall j :: 0 <= j < i ==> tags[j].key != "Name") ==>
              NameTag(tags) == tags[i].value
  {
    if tags != [] && tags[0].key != "Name" {
      NameTagIsFirstName(tags[1..]);
      assert forall i :: 1 <= i < |tags| ==> tags[i] == tags[1..][i - 1];
    }
  }

  /** The tag loop of describe_instances, which breaks at the first Name tag. */
  method FindName(tags: seq<Tag>) returns (name: string)
    ensures name == NameTag(tags)
  {
    name := "";
    var i := 0;
    while i < |tags|
      invariant 0 <= i <= |tags|
      invariant name == ""
      invariant NameTag(tags) == NameTag(tags[i..])
    {
      assert tags[i..][1..] == tags[i + 1..];
      if tags[i].key == "Name" {
        name := tags[i].value;
        return;
      }
      i := i + 1;
    }
  }

  function Summarize(inst: RawInstance): (r: InstanceSummary)
    ensures r.name == NameTag(inst.tags.GetOr([]))
    ensures r.publicIp == (if inst.publicIp.Some? then inst.publicIp.value else "")
    ensures r.privateIp == (if inst.privateIp.Some? then inst.privateIp.value else "")
    ensures r.platform == (if inst.platform.Some? then inst.platform.value else "linux")
    ensures r.architecture == (if inst.architecture.Some? then inst.architecture.value else "x86_64")
    ensures r.vpcId == (if inst.vpcId.Some? then inst.vpcId.value else "")
    ensures r.subnetId == (if inst.subnetId.Some? then inst.subnetId.value else "")
    ensures r.securityGroups == (if inst.securityGroups.Some? then inst.securityGroups.value else [])
    ensures r.tags == (if inst.tags.Some? then inst.tags.value else [])
    ensures r.id == inst.id && r.stateName == inst.stateName && r.stateCode == inst.stateCode
    ensures r.instanceType == inst.instanceType && r.launchTime == inst.launchTime
  {
    InstanceSummary(
      inst.id, inst.instanceType, inst.stateName, inst.stateCode,
      inst.publicIp.GetOr(""), inst.privateIp.GetOr(""), inst.launchTime,
      NameTag(inst.tags.GetOr([])),
      inst.platform.GetOr("linux"), inst.architecture.GetOr("x86_64"),
      inst.vpcId.GetOr(""), inst.subnetId.GetOr(""),
      inst.securityGroups.GetOr([]), inst.tags.GetOr([]))
  }

  /** Every instance of every reservation, in order. */
  function AllInstances(reservations: seq<Reservation>): seq<RawInstance> {
    if reservations == [] then []
    else AllInstances(reservations[..|reservations| - 1]) + reservations[|reservations| - 1].instances
  }

  /** The body of describe_instances' inner loop: one instance's summary, its name found by the tag loop. */
  method DescribeOne(inst: RawInstance) returns (details: InstanceSummary)
    ensures details == Summarize(inst)
  {
    var name := FindName(inst.tags.GetOr([]));
    details := InstanceSummary(
      inst.id, inst.instanceType, inst.stateName, inst.stateCode,
      inst.publicIp.GetOr(""), inst.privateIp.GetOr(""), inst.launchTime, name,
      inst.platform.GetOr("linux"), inst.architecture.GetOr("x86_64"),
      inst.vpcId.GetOr(""), inst.subnetId.GetOr(""),
      inst.securityGroups.GetOr([]), inst.tags.GetOr([]));
  }

  /** The inner loop of describe_instances: one summary per instance of a reservation, in order. */
  method DescribeReservation(instances: seq<RawInstance>) returns (out: seq<InstanceSummary>)
    ensures |out| == |instances|
    ensures forall k :: 0 <= k < |out| ==> out[k] == Summarize(instances[k])
  {
    out := [];
    var j := 0;
    while j < |instances|
      invariant 0 <= j <= |instances| && |out| == j
      invariant forall k :: 0 <= k < j ==> out[k] == Summarize(instances[k])
    {
      var details := DescribeOne(instances[j]);
      out := out + [details];
      j := j + 1;
    }
  }

  /** GET /describe_instances: one summary per instance across all reservations, in order. */
  method DescribeInstances(reservations: seq<Reservation>) returns (out: seq<InstanceSummary>)
    ensures |out| == |AllInstances(reservations)|
    ensures forall k :: 0 <= k < |out| ==> out[k] == Summarize(AllInstances(reservations)[k])
  {
    out := [];
    var i := 0;
    while i < |reservations|
      invariant 0 <= i <= |reservations|
      invariant |out| == |AllInstances(reservations[..i])|
      invariant forall k :: 0 <= k < |out| ==> out[k] == Summarize(AllInstances(reservations[..i])[k])
    {
      assert reservations[..i + 1][..i] == reservations[..i];
      ghost var before := AllInstances(reservations[..i]);
      var instances := reservations[i].instances;
      assert AllInstances(reservations[..i + 1]) == before + instances;
      var summaries := DescribeReservation(instances);
      out := out + summaries;
      i := i + 1;
    }
    assert reservations[..i] == reservations;
  }

  // ---------------------------------------------------------------------------
  // Website upload (upload_website)
  // ---------------------------------------------------------------------------

  const ArchiveName: string := "website.zip"

  /** `file.split(".")[-1]`: the text after the last dot, or all of it when there is none. */
  function AfterLastDot(s: string): string {
    if s == [] then []
    else if s[|s| - 1] == '.' then []
    else AfterLastDot(s[..|s| - 1]) + [s[|s| - 1]]
  }

  /** When a name ends with a dot and a dot-free extension, the text after the last dot is that extension. */
  lemma {:induction false} AfterLastDotOfSuffix(s: string, ext: string)
    requires '.' !in ext
    requires EndsWith(s, "." + ext)
    ensures AfterLastDot(s) == ext
    decreases |ext|
  {
    if ext == [] {
      assert s[|s| - 1] == '.';
    } else {
      var init := s[..|s| - 1];
      var e := ext[..|ext| - 1];
      assert s[|s| - 1] == ext[|ext| - 1];
      assert ext[|ext| - 1] != '.' by { assert ext[|ext| - 1] in ext; }
      assert '.' !in e by { forall c | c in e ensures c != '.' { assert c in ext; } }
      assert init[|init| - |"." + e|..] == s[|s| - |"." + ext|..][..|"." + e|];
      AfterLastDotOfSuffix(init, e);
      assert ext == e + [ext[|ext| - 1]];
    }
  }

  /**
   * A name ends with the last character of any suffix it ends with, so two
   * suffixes with different final characters cannot both end one name. This
   * serves SuffixesExclusive, and through it ContentType's "each iff its
   * suffix" clauses.
   */
  lemma EndsWithLast(s: string, suffix: string)
    requires suffix != [] && EndsWith(s, suffix)
    ensures s[|s| - 1] == suffix[|suffix| - 1]
  {
    assert s[|s| - |suffix|..][|suffix| - 1] == s[|s| - 1];
  }

  /**
   * The same for the next-to-last character: it separates `.css` from `.js`,
   * which share their last letter, in SuffixesExclusive.
   */
  lemma EndsWithPenultimate(s: string, suffix: string)
    requires |suffix| >= 2 && EndsWith(s, suffix)
    ensures s[|s| - 2] == suffix[|suffix| - 2]
  {
    assert s[|s| - |suffix|..][|suffix| - 2] == s[|s| - 2];
  }

  predicate IsImage(file: string) {
    EndsWith(file, ".png") || EndsWith(file, ".jpg") || EndsWith(file, ".jpeg") || EndsWith(file, ".gif")
  }

  /** The ContentType given to an uploaded website file; the first matching suffix decides. */
  function ContentType(file: string): (t: string)
    ensures t == "text/html" <==> EndsWith(file, ".html")
    ensures t == "text/css" <==> EndsWith(file, ".css")
    ensures t == "application/javascript" <==> EndsWith(file, ".js")
    ensures EndsWith(file, ".png") ==> t == "image/png"
    ensures EndsWith(file, ".jpg") ==> t == "image/jpg"
    ensures EndsWith(file, ".jpeg") ==> t == "image/jpeg"
    ensures EndsWith(file, ".gif") ==> t == "image/gif"
    ensures t == "application/octet-stream" <==>
      !EndsWith(file, ".html") && !EndsWith(file, ".css") && !EndsWith(file, ".js") && !IsImage(file)
  {
    SuffixesExclusive(file);
    MediaTypesDistinct();
    if EndsWith(file, ".html") then "text/html"
    else if EndsWith(file, ".css") then "text/css"
    else if EndsWith(file, ".js") then "application/javascript"
    else if IsImage(file) then
      ImageSuffixes(file);
      var t := "image/" + AfterLastDot(file);
      assert t[0] == 'i';
      t
    else "application/octet-stream"
  }

  /**
   * The media types the upload assigns are pairwise different strings; with
   * SuffixesExclusive this gives ContentType's "iff" clauses their converse
   * direction (a given type can only come from its own branch).
   */
  lemma MediaTypesDistinct()
    ensures "text/html" != "text/css" && "text/html" != "application/javascript" && "text/html" != "application/octet-stream"
    ensures "text/css" != "application/javascript" && "text/css" != "application/octet-stream"
    ensures "application/javascript" != "application/octet-stream"
  {
    assert "text/html"[5] != "text/css"[5];
    assert "text/html"[0] != "application/javascript"[0];
    assert "text/html"[0] != "application/octet-stream"[0];
    assert "text/css"[0] != "application/javascript"[0];
    assert "text/css"[0] != "application/octet-stream"[0];
    assert "application/javascript"[12] != "application/octet-stream"[12];
  }

  /** The html, css and js suffixes exclude each other and the image suffixes. */
  lemma SuffixesExclusive(file: string)
    ensures EndsWith(file, ".html") ==> !EndsWith(file, ".css") && !EndsWith(file, ".js") && !IsImage(file)
    ensures EndsWith(file, ".css") ==> !EndsWith(file, ".js") && !IsImage(file)
    ensures EndsWith(file, ".js") ==> !IsImage(file)
  {
    if EndsWith(file, ".html") { EndsWithLast(file, ".html"); }
    if EndsWith(file, ".css") { EndsWithLast(file, ".css"); EndsWithPenultimate(file, ".css"); }
    if EndsWith(file, ".js") { EndsWithLast(file, ".js"); EndsWithPenultimate(file, ".js"); }
    if EndsWith(file, ".png") { EndsWithLast(file, ".png"); }
    if EndsWith(file, ".jpg") { EndsWithLast(file, ".jpg"); }
    if EndsWith(file, ".jpeg") { EndsWithLast(file, ".jpeg"); }
    if EndsWith(file, ".gif") { EndsWithLast(file, ".gif"); }
  }

  /** A name ending in a dot and an image extension gets `image/` followed by that extension. */
  lemma ImageSubtype(file: string, ext: string)
    requires ext in ["png", "jpg", "jpeg", "gif"]
    requires EndsWith(file, "." + ext)
    ensures "image/" + AfterLastDot(file) == "image/" + ext
  {
    assert '.' !in ext;
    AfterLastDotOfSuffix(file, ext);
  }

  /** The image branch gives each of the four image suffixes its own subtype. */
  lemma ImageSuffixes(file: string)
    ensures EndsWith(file, ".png") ==> "image/" + AfterLastDot(file) == "image/png"
    ensures EndsWith(file, ".jpg") ==> "image/" + AfterLastDot(file) == "image/jpg"
    ensures EndsWith(file, ".jpeg") ==> "image/" + AfterLastDot(file) == "image/jpeg"
    ensures EndsWith(file, ".gif") ==> "image/" + AfterLastDot(file) == "image/gif"
  {
    if EndsWith(file, ".png") {
      assert "image/" + AfterLastDot(file) == "image/png" by {
        assert "." + "png" == ".png";
        ImageSubtype(file, "png");
      }
    }
    if EndsWith(file, ".jpg") {
      assert "image/" + AfterLastDot(file) == "image/jpg" by {
        assert "." + "jpg" == ".jpg";
        ImageSubtype(file, "jpg");
      }
    }
    if EndsWith(file, ".jpeg") {
      assert "image/" + AfterLastDot(file) == "image/jpeg" by {
        assert "." + "jpeg" == ".jpeg";
        ImageSubtype(file, "jpeg");
      }
    }
    if EndsWith(file, ".gif") {
      assert "image/" + AfterLastDot(file) == "image/gif" by {
        assert "." + "gif" == ".gif";
        ImageSubtype(file, "gif");
      }
    }
  }

  /** A file found under the extraction directory: its path relative to it and its base name. */
  datatype WalkedFile = WalkedFile(relativePath: string, name: string)

  datatype UploadedFile = UploadedFile(key: string, contentType: string)

  /** What the walk uploads: every file except the saved archive, with its content type. */
  function Uploads(walked: seq<WalkedFile>): seq<UploadedFile> {
    if walked == [] then []
    else
      var last := walked[|walked| - 1];
      Uploads(walked[..|walked| - 1])
        + (if last.name == ArchiveName then [] else [UploadedFile(last.relativePath, ContentType(last.name))])
  }

  /** A file is uploaded exactly when it is not the archive itself, under its relative path and content type. */
  lemma {:induction false} UploadsExactly(walked: seq<WalkedFile>)
    ensures forall w :: w in walked && w.name != ArchiveName ==> UploadedFile(w.relativePath, ContentType(w.name)) in Uploads(walked)
    ensures forall u :: u in Uploads(walked) ==>
      exists w :: w in walked && w.name != ArchiveName && u == UploadedFile(w.relativePath, ContentType(w.name))
  {
    if walked != [] {
      var init := walked[..|walked| - 1];
      UploadsExactly(init);
      assert walked == init + [walked[|walked| - 1]];
      forall u | u in Uploads(walked)
        ensures exists w :: w in walked && w.name != ArchiveName && u == UploadedFile(w.relativePath, ContentType(w.name))
      {
        if u in Uploads(init) {
          var w :| w in init && w.name != ArchiveName && u == UploadedFile(w.relativePath, ContentType(w.name));
          assert w in walked;
        }
      }
    }
  }

  /** The request as received: no website part, an empty one, or an archive that extracts to the walked files. */
  datatype WebsitePart = NoWebsitePart | EmptyWebsitePart | Archive(walked: seq<WalkedFile>)

  /** POST /s3/upload_website: the keys uploaded, in walk order, and the status returned. */
  method UploadWebsite(website: WebsitePart, bucketName: Option<string>) returns (status: nat, uploaded: seq<UploadedFile>)
    ensures website.NoWebsitePart? ==> status == 400 && uploaded == []
    ensures (website.EmptyWebsitePart? || MissingId(bucketName)) ==> status == 400 && uploaded == []
    ensures website.Archive? && !MissingId(bucketName) ==> status == 200 && uploaded == Uploads(website.walked)
  {
    uploaded := [];
    if website.NoWebsitePart? || website.EmptyWebsitePart? || MissingId(bucketName) {
      return 400, [];
    }
    var walked := website.walked;
    var i := 0;
    while i < |walked|
      invariant 0 <= i <= |walked|
      invariant uploaded == Uploads(walked[..i])
    {
      assert walked[..i + 1][..i] == walked[..i];
      var file := walked[i];
      if file.name != ArchiveName {
        var contentType := ContentType(file.name);
        uploaded := uploaded + [UploadedFile(file.relativePath, contentType)];
      }
      i := i + 1;
    }
    assert walked[..i] == walked;
    status := 200;
  }

  // ---------------------------------------------------------------------------
  // Hex colour (rgb_to_hex)
  // ---------------------------------------------------------------------------

  function HexDigit(d: nat): char
    requires d < 16
  {
    "0123456789abcdef"[d]
  }

  /** Lower-case hexadecimal rendering of `n` without leading zeros. */
  function Hex(n: nat): (r: string)
    ensures |r| > 0
  {
    if n < 16 then [HexDigit(n)] else Hex(n / 16) + [HexDigit(n % 16)]
  }

  /** `'{:02x}'.format(n)`: hexadecimal, padded with zeros to at least two digits. */
  function Hex02(n: nat): (r: string)
    ensures n < 256 ==> r == [HexDigit(n / 16), HexDigit(n % 16)]
    ensures n >= 256 ==> |r| > 2
  {
    if n < 16 then "0" + Hex(n)
    else if n < 256 then HexTwoDigits(n); Hex(n)
    else HexLong(n); Hex(n)
  }

  lemma HexTwoDigits(n: nat)
    requires 16 <= n < 256
    ensures Hex(n) == [HexDigit(n / 16), HexDigit(n % 16)]
  {
    assert n / 16 < 16;
  }

  lemma HexLong(n: nat)
    requires n >= 256
    ensures |Hex(n)| > 2
  {
    assert n / 16 >= 16;
    assert |Hex(n / 16)| == |Hex(n / 16 / 16)| + 1;
  }

  /**
   * rgb_to_hex: the format string takes three positional values, so fewer
   * than three raise (None here) and any beyond the third are ignored.
   */
  function RgbToHex(rgb: seq<nat>): (r: Option<string>)
    ensures r.Some? <==> |rgb| >= 3
    ensures |rgb| >= 3 && rgb[0] < 256 && rgb[1] < 256 && rgb[2] < 256 ==>
      |r.value| == 7 && r.value[0] == '#'
      && forall i :: 1 <= i < 7 ==> r.value[i] in "0123456789abcdef"
  {
    if |rgb| < 3 then None else Some("#" + Hex02(rgb[0]) + Hex02(rgb[1]) + Hex02(rgb[2]))
  }

  function HexValue(c: char): nat {
    if '0' <= c <= '9' then c as nat - '0' as nat
    else if 'a' <= c <= 'f' then c as nat - 'a' as nat + 10
    else 0
  }

  /** Reads `#rrggbb` back into its three components. */
  function ParseHexColor(s: string): Option<(nat, nat, nat)> {
    if |s| != 7 || s[0] != '#' then None
    else Some((HexValue(s[1]) * 16 + HexValue(s[2]),
               HexValue(s[3]) * 16 + HexValue(s[4]),
               HexValue(s[5]) * 16 + HexValue(s[6])))
  }

  lemma HexDigitValue(d: nat)
    requires d < 16
    ensures HexValue(HexDigit(d)) == d
  {
  }

  /** Reading back the two digits of a component recovers it. */
  lemma Hex02RoundTrip(n: nat)
    requires n < 256
    ensures HexValue(Hex02(n)[0]) * 16 + HexValue(Hex02(n)[1]) == n
  {
    HexDigitValue(n / 16);
    HexDigitValue(n % 16);
  }

  /** The positions of the three two-digit components in `#rrggbb`. */
  lemma ColorCodeLayout(a: string, b: string, c: string)
    requires |a| == 2 && |b| == 2 && |c| == 2
    ensures var s := "#" + a + b + c;
      |s| == 7 && s[0] == '#' && s[1] == a[0] && s[2] == a[1]
      && s[3] == b[0] && s[4] == b[1] && s[5] == c[0] && s[6] == c[1]
  {
  }

  /** A seven-character code starting with `#` parses into the values of its three digit pairs. */
  lemma ParseComponents(s: string, r: nat, g: nat, b: nat)
    requires |s| == 7 && s[0] == '#'
    requires HexValue(s[1]) * 16 + HexValue(s[2]) == r
    requires HexValue(s[3]) * 16 + HexValue(s[4]) == g
    requires HexValue(s[5]) * 16 + HexValue(s[6]) == b
    ensures ParseHexColor(s) == Some((r, g, b))
  {
  }

  /** For components in 0..255, parsing the colour code recovers the components. */
  lemma RgbRoundTrip(r: nat, g: nat, b: nat)
    requires r < 256 && g < 256 && b < 256
    ensures ParseHexColor(RgbToHex([r, g, b]).value) == Some((r, g, b))
  {
    var s := "#" + Hex02(r) + Hex02(g) + Hex02(b);
    assert RgbToHex([r, g, b]) == Some(s);
    ColorCodeLayout(Hex02(r), Hex02(g), Hex02(b));
    Hex02RoundTrip(r);
    Hex02RoundTrip(g);
    Hex02RoundTrip(b);
    ParseComponents(s, r, g, b);
  }

  // ---------------------------------------------------------------------------
  // CPU insights (get_insights)
  // ---------------------------------------------------------------------------

  const HighCpuAnomaly: string := "High CPU utilization detected"
  const ScaleUpAdvice: string := "Consider scaling up EC2 instances"
  const DownsizeAdvice: string := "Consider downsizing EC2 instances to optimize costs"

  datatype Insights = Insights(avgCpu: real, maxCpu: real, totalNetwork: real,
                               anomalies: seq<string>, recommendations: seq<string>)

  function Sum(xs: seq<real>): real {
    if xs == [] then 0.0 else Sum(xs[..|xs| - 1]) + xs[|xs| - 1]
  }

  function Max(xs: seq<real>): (m: real)
    requires xs != []
    ensures forall i :: 0 <= i < |xs| ==> xs[i] <= m
    ensures exists i :: 0 <= i < |xs| && xs[i] == m
  {
    if |xs| == 1 then xs[0]
    else
      var m := Max(xs[..|xs| - 1]);
      assert forall i :: 0 <= i < |xs| - 1 ==> xs[i] == xs[..|xs| - 1][i];
      if xs[|xs| - 1] > m then xs[|xs| - 1] else m
  }

  function Mean(xs: seq<real>): real
    requires xs != []
  {
    Sum(xs) / |xs| as real
  }

  /** A sum of values bounded by `m` is at most `m` times their number. */
  lemma {:induction false} SumAtMost(xs: seq<real>, m: real)
    requires forall i :: 0 <= i < |xs| ==> xs[i] <= m
    ensures Sum(xs) <= |xs| as real * m
  {
    if xs != [] {
      var init := xs[..|xs| - 1];
      assert forall i :: 0 <= i < |init| ==> init[i] == xs[i];
      SumAtMost(init, m);
    }
  }

  /** The mean never exceeds the maximum. */
  lemma MeanAtMostMax(xs: seq<real>)
    requires xs != []
    ensures Mean(xs) <= Max(xs)
  {
    var m := Max(xs);
    SumAtMost(xs, m);
    var n := |xs| as real;
    assert Sum(xs) <= n * m;
    assert Sum(xs) / n <= m;
  }

  /** The advice attached to an average CPU utilisation. */
  function Advice(avgCpu: real): (r: (seq<string>, seq<string>))
    ensures avgCpu > 80.0 ==> r == ([HighCpuAnomaly], [ScaleUpAdvice])
    ensures avgCpu < 20.0 ==> r == ([], [DownsizeAdvice])
    ensures 20.0 <= avgCpu <= 80.0 ==> r == ([], [])
  {
    if avgCpu > 80.0 then ([HighCpuAnomaly], [ScaleUpAdvice])
    else if avgCpu < 20.0 then ([], [DownsizeAdvice])
    else ([], [])
  }

  /** GET insights: the performance summary of the CPU and network series and the advice drawn from it. */
  function GetInsights(cpu: seq<real>, network: seq<real>): (r: Insights)
    ensures cpu == [] ==> r.avgCpu == 0.0 && r.maxCpu == 0.0 && r.anomalies == [] && r.recommendations == [DownsizeAdvice]
    ensures cpu != [] ==> r.avgCpu == Mean(cpu) && r.maxCpu == Max(cpu)
    ensures cpu != [] ==> r.avgCpu <= r.maxCpu && (exists i :: 0 <= i < |cpu| && cpu[i] == r.maxCpu)
    ensures (r.anomalies, r.recommendations) == Advice(r.avgCpu)
    ensures |r.anomalies| <= 1 && |r.recommendations| <= 1
    ensures r.anomalies != [] <==> r.avgCpu > 80.0
    ensures r.recommendations == [DownsizeAdvice] <==> r.avgCpu < 20.0
    ensures r.totalNetwork == Sum(network)
  {
    var avg := if cpu != [] then Mean(cpu) else 0.0;
    var max := if cpu != [] then Max(cpu) else 0.0;
    assert cpu != [] ==> avg <= max by { if cpu != [] { MeanAtMostMax(cpu); } }
    var advice := Advice(avg);
    Insights(avg, max, Sum(network), advice.0, advice.1)
  }

  /** When every CPU sample is below 20 the downsizing advice is given. */
  lemma AllLowCpuMeansDownsize(cpu: seq<real>, network: seq<real>)
    requires forall i :: 0 <= i < |cpu| ==> cpu[i] < 20.0
    ensures GetInsights(cpu, network).recommendations == [DownsizeAdvice]
  {
    if cpu != [] {
      MeanAtMostMax(cpu);
    }
  }
}

# Cloud dashboard: verified model of its decision rules and state handling

This project models the deterministic core of a small cloud-management dashboard.
The dashboard is a Flask backend over the AWS SDK plus Next.js pages for S3, EC2 and
CloudFront. The model covers:

- **Backend** (`backend.dfy`, api/app.py):
  - the bucket-size fold over a paginated object listing and its `NoSuchBucket` branch;
  - the state decisions of `start_instance` and `stop_instance`;
  - `describe_instances` with its Name-tag lookup and defaults;
  - the per-file walk of `upload_website` and its content-type rule;
  - `rgb_to_hex`, with a parser that reads the colour code back;
  - the CPU-insight thresholds of the insights endpoint.
- **EC2 details components** (`ec2_details.dfy`, app/aws/ec2-details/components.tsx):
  - the `canStart`/`canStop`/`canTerminate` rules;
  - the combined Start/Stop button;
  - the overview counters (running, vCPUs, memory, monthly cost);
  - the state-to-progress mapping.
- **S3 details components** (`s3_components.dfy`, app/aws/s3-details/components.tsx):
  - the per-bucket metrics fold, where a failed bucket counts as empty;
  - `formatSize`, the storage cost and each bucket's percentage of the total;
  - the create-bucket input;
  - the upload button's guard.
- **S3 details page** (`s3_page.dfy`, app/aws/s3-details/page.tsx and the upload loop of
  its components file):
  - the page state: buckets, picked files, loading and uploading flags;
  - `fetchBuckets`, `onDrop`, the create and delete handlers and `handleUpload`;
  - the sequential upload loop.
- **CloudFront page** (`cloudfront_page.dfy`, app/aws/cloudfront/page.tsx):
  - the folder-picker guard;
  - the deploy pipeline: zip, upload, enable hosting, create distribution;
  - every progress value and caption the pipeline sets, and the deployment status;
  - the distribution status check that retries until the site answers.
- **AWS overview page** (`aws_page.dfy`, app/aws/page.tsx):
  - the combined initial fetch and the instance poll;
  - the case-sensitive running count;
  - the pluralised card labels, with a reader that recovers the count from a label.
- **Agreement** (`agreement.dfy`): how the client's rules line up with the backend's.
  - The Start button is always honoured.
  - Stop on a `pending` instance is refused by the server.
  - A `terminated` instance is started by the server but never offered by the client.
  - The overview page's case-sensitive running count never exceeds the details page's.
  - A bucket whose info request fails on the server is shown as empty by the client.

`Prelude` (`prelude.dfy`) holds the shared `Option` type, ASCII lower-casing,
suffix/substring tests and decimal rendering with its read-back.

## How the environment is represented

- **Backend results are inputs.**
  - Each SDK call's result is an input: a list of pages, a `Lookup` of the instance
    state, a success flag.
  - Each page handler takes the backend's answer as an `Option` (`None` when the request
    throws) or as a success flag.
- **Ghost logs record what happened in sequence.**
  - The page classes keep logs of the requests they send (`calls`), the progress values
    they set (`progressLog`) and the captions they set (`captionLog`).
  - The deploy page also records the upload flag and status each deploy starts under
    (`busyLog`), and the URL and progress seen at each status-check try (`checkLog`).
  - These are instrumentation, not fields of the source.
- **Callbacks and retries become sequences.**
  - The zip library's progress callbacks are the sequence of percentages it reports.
  - The status check's self-rescheduling is recursion over a sequence of outcomes, one
    per try.
- **Retries and loops as the code has them.**
  - `checkDistributionStatus` re-schedules itself every 30 seconds until a fetch answers
    ok (app/aws/cloudfront/page.tsx:73-78).
  - The upload loop's comment promises to stop at the first failed file. It never does;
    see Findings.

## Model

| member | source | states |
|---|---|---|
| Backend.SizeSumAppend | api/app.py:103-104 | the size of a concatenation of objects is the sum of the parts' sizes |
| Backend.AllObjectsAppend | api/app.py:96-104 | how objects are split into pages does not change the objects listed |
| Backend.SumPages | api/app.py:89-104 | `size` is the sum of `Size` over every object of every page and `objects` their number; a page without Contents adds nothing |
| Backend.GetBucketInfo | api/app.py:85-125 | 200 with the totals for a listing; 200 with size 0 and objects 0 for `NoSuchBucket`; 500 for any other error |
| Backend.StartAction | api/app.py:280-288 | `running` is reported as already running, `pending`/`stopping` are refused, every other state is started |
| Backend.StopAction | api/app.py:309-317 | `stopped` is reported as already stopped, `pending`/`stopping` are refused, every other state is stopped |
| Backend.ControlInstance | api/app.py:267-321 | the shared shape of both endpoints: the provider is called iff the id is present, the lookup succeeds and the decision is to call it; 500 iff the lookup fails or the provider call fails; 400 iff the id is missing or the decision is to refuse |
| Backend.StartInstance | api/app.py:267-292 | a missing or empty InstanceId gives 400; a failed lookup gives 500; otherwise the provider is called exactly when the state is not running/pending/stopping, with 200 for running, 400 for the transitional states |
| Backend.StopInstance | api/app.py:296-321 | the same for stop: the provider is called exactly when the state is not stopped/pending/stopping |
| Backend.BothEndpointsCallProvider | api/app.py:280-317 | both endpoints call the provider exactly for states other than the four the backend names |
| Backend.NameTagIsFirstName | api/app.py:345-349 | the Value of the first tag whose Key is `Name`, or `''` when there is none |
| Backend.FindName | api/app.py:345-349 | the tag loop with its `break` computes exactly that first Name tag |
| Backend.Summarize | api/app.py:352-369 | Name from the tags; missing IPs, VpcId and SubnetId give `''`, missing SecurityGroups and Tags give `[]`, Platform `linux`, Architecture `x86_64`; id, type, state and launch time copied |
| Backend.DescribeOne | api/app.py:343-370 | the inner loop's body produces that summary for one instance |
| Backend.DescribeReservation | api/app.py:343-370 | the inner loop gives one summary per instance of a reservation, in order |
| Backend.DescribeInstances | api/app.py:342-370 | one summary per instance across all reservations, in order |
| Backend.AfterLastDotOfSuffix | api/app.py:733 | `file.split(".")[-1]` of a name ending in `.ext` (ext without dots) is `ext` |
| Backend.ContentType | api/app.py:725-733 | the first matching suffix decides: html, css, js each iff its suffix; each image suffix gives `image/` plus that suffix; octet-stream iff nothing matches |
| Backend.SuffixesExclusive | api/app.py:726-733 | the html, css and js suffixes exclude each other and the image suffixes |
| Backend.ImageSubtype | api/app.py:732-733 | a name ending in `.ext` for an image extension gets `image/ext` |
| Backend.ImageSuffixes | api/app.py:732-733 | `.png`, `.jpg`, `.jpeg` and `.gif` each give their own subtype |
| Backend.UploadsExactly | api/app.py:716-742 | every walked file except `website.zip` is uploaded under its relative path with its content type, and nothing else is |
| Backend.UploadWebsite | api/app.py:690-751 | 400 without a website part, with an empty one or without a bucket name; otherwise 200 and the walk's uploads in walk order |
| Backend.Hex02 | api/app.py:488 | `{:02x}` gives exactly two lower-case digits for 0..255 and more for larger values |
| Backend.RgbToHex | api/app.py:486-488 | fewer than three components fail; for components 0..255 the result is `#` and six lower-case hex digits |
| Backend.Hex02RoundTrip | api/app.py:488 | the two digits of a component read back as the component |
| Backend.RgbRoundTrip | api/app.py:486-488 | parsing the colour code of (r, g, b) in 0..255 gives back (r, g, b) |
| Backend.Max | api/app.py:1013 | the maximum bounds every value and is one of them |
| Backend.MeanAtMostMax | api/app.py:1012-1013 | the mean never exceeds the maximum |
| Backend.Advice | api/app.py:1021-1026 | above 80: one anomaly and scale-up; below 20: only downsizing; 20..80: neither |
| Backend.GetInsights | api/app.py:1007-1026 | for non-empty CPU values avg is their mean and max their maximum (so avg <= max and max is a sample); empty values give avg 0, max 0 and the downsizing advice; the anomalies and recommendations are Advice of avg; the network total is the sum of the network values |
| Backend.AllLowCpuMeansDownsize | api/app.py:1012-1026 | when every CPU sample is below 20 the downsizing advice is given |
| Ec2Details.CanStart | app/aws/ec2-details/components.tsx:176 | Start is offered iff the lower-cased state is `stopped` |
| Ec2Details.CanStop | app/aws/ec2-details/components.tsx:177 | Stop is offered iff the lower-cased state is `running` or `pending` |
| Ec2Details.CanTerminate | app/aws/ec2-details/components.tsx:178 | Terminate is offered unless the lower-cased state is `terminated` or `shutting-down`; a missing state allows it |
| Ec2Details.StartStopExclusive | app/aws/ec2-details/components.tsx:176-177 | Start and Stop are never both offered |
| Ec2Details.RulesIgnoreCase | app/aws/ec2-details/components.tsx:176-178 | the three rules give the same answer for a state and its lower-cased form |
| Ec2Details.MissingStateRules | app/aws/ec2-details/components.tsx:176-178 | a missing state allows neither Start nor Stop but still allows Terminate |
| Ec2Details.PowerButtonFor | app/aws/ec2-details/components.tsx:188-197 | disabled iff neither canStart nor canStop; captioned "Stop" when canStop and "Start" otherwise; the caption names the request it makes |
| Ec2Details.EnabledButtonRequests | app/aws/ec2-details/components.tsx:188-197 | an enabled button requests start only for a stopped instance and stop only for a running or pending one |
| Ec2Details.RunningCount | app/aws/ec2-details/components.tsx:13-16 | the count never exceeds the number of instances and equals it iff every lower-cased state is running or pending |
| Ec2Details.RunningCountAppend | app/aws/ec2-details/components.tsx:13-16 | counting splits over a concatenation |
| Ec2Details.TotalCpus | app/aws/ec2-details/components.tsx:17-23 | the total lies between n and 2n |
| Ec2Details.MemoryGb | app/aws/ec2-details/components.tsx:26-30 | 4 for a medium type (even when it also contains small); 2 iff small and not medium; 1 iff neither |
| Ec2Details.TotalMemory | app/aws/ec2-details/components.tsx:24-32 | the total lies between n and 4n |
| Ec2Details.HourlyRate | app/aws/ec2-details/components.tsx:38-40 | 0.0464 for a medium type (even when it also contains small); 0.023 iff small and not medium; 0.0116 iff neither |
| Ec2Details.MonthlyCost | app/aws/ec2-details/components.tsx:34-45 | between the running count times the cheapest and times the dearest monthly price |
| Ec2Details.MonthlyCostAppend | app/aws/ec2-details/components.tsx:34-45 | the estimate of two lists together is the sum of their estimates |
| Ec2Details.MonthlyCostOne | app/aws/ec2-details/components.tsx:36-43 | one instance costs its hourly rate times 24 times 30 when running or pending, and 0 otherwise |
| Ec2Details.InactiveCostNothing | app/aws/ec2-details/components.tsx:36-43 | inserting an instance that is not running or pending anywhere in a list leaves the estimate unchanged |
| Ec2Details.NoActiveNoCost | app/aws/ec2-details/components.tsx:34-45 | a list with no running or pending instance costs 0 |
| Ec2Details.StateProgress | app/aws/ec2-details/components.tsx:129-136 | 100 iff running, 75 iff pending, 25 iff stopping, 0 for stopped and everything else, ignoring case |
| Ec2Details.ProgressMatchesStop | app/aws/ec2-details/components.tsx:129-136 | the bar is at least 75 exactly when Stop is offered |
| S3Components.Aggregate | app/aws/s3-details/components.tsx:28-46 | the accumulation loop computes both totals and both maps of the per-bucket fold |
| S3Components.MapsCoverBuckets | app/aws/s3-details/components.tsx:39-44 | every bucket gets an entry in both maps, whether or not its request failed |
| S3Components.SizeMapAt | app/aws/s3-details/components.tsx:35-44 | with distinct names each bucket's entry is its size, and 0 when its request failed |
| S3Components.TotalIsSumOfBuckets | app/aws/s3-details/components.tsx:34-51 | the total size is the sum of the per-bucket sizes shown |
| S3Components.OverviewTab.FetchBucketInfo | app/aws/s3-details/components.tsx:23-62 | nothing changes while the parent loads or with no buckets; otherwise totals and maps are replaced by the fold's results and loading ends |
| S3Components.FormatSize | app/aws/s3-details/components.tsx:64-68 | the literal "0.00" branch iff the size is 0; otherwise the size in gigabytes, positive |
| S3Components.StorageCost | app/aws/s3-details/components.tsx:70-73 | non-negative; gigabytes times 0.023 |
| S3Components.CostIsSumOfBucketCosts | app/aws/s3-details/components.tsx:70-73 | the cost of the total size is the sum of the buckets' costs |
| S3Components.Percentage | app/aws/s3-details/components.tsx:115 | 0 when the total is 0; otherwise the share times 100; between 0 and 100 for a bucket within the total |
| S3Components.PercentageAdds | app/aws/s3-details/components.tsx:115 | shares of one total add up like the sizes they stand for |
| S3Components.PercentageOfWhole | app/aws/s3-details/components.tsx:115 | a bucket holding everything shows 100 |
| S3Components.PercentTotalIsShareOfSum | app/aws/s3-details/components.tsx:113-115 | the listed bars sum to the bar of their combined size, missing entries reading as 0 |
| S3Components.PercentagesAddUp | app/aws/s3-details/components.tsx:113-115 | with distinct names and data stored, the bars add up to 100 |
| S3Components.UploadDisabled | app/aws/s3-details/components.tsx:282 | the upload button is enabled iff a bucket is selected, files are picked and no upload is running |
| S3Components.BucketsTab.HandleCreateBucket | app/aws/s3-details/components.tsx:159-164 | a non-empty name is passed on and the input cleared; an empty name changes nothing |
| S3Page.AttemptCalls | app/aws/s3-details/page.tsx:71-84 | one handleUpload sends the upload first and refetches iff it succeeded |
| S3Page.StopPoint | app/aws/s3-details/components.tsx:284-292 | the number of files attempted by a loop that stops at the first failure: all before it succeeded, the last one failed unless all succeeded |
| S3Page.EveryFileAttempted | app/aws/s3-details/components.tsx:284-292 | as written, the first n attempts upload the first n picked files, in list order, whatever their outcomes |
| S3Page.StoppingAttemptsPrefix | app/aws/s3-details/components.tsx:284-292 | stopping at the first failure uploads exactly the files up to it, and matches the written loop when nothing fails |
| S3Page.FailureDoesNotStopUploads | app/aws/s3-details/components.tsx:284-292 | with two files whose first attempt fails, the written loop still sends the second; the stopping loop does not |
| S3Page.S3DetailsPage.constructor | app/aws/s3-details/page.tsx:16-20 | no buckets, no bucket selected, no files, loading, not uploading |
| S3Page.S3DetailsPage.FetchBuckets | app/aws/s3-details/page.tsx:22-33 | the list is replaced on success and kept on failure; loading is false afterwards |
| S3Page.S3DetailsPage.OnDrop | app/aws/s3-details/page.tsx:39-41 | dropped files are appended after the existing ones |
| S3Page.S3DetailsPage.SelectBucket | app/aws/s3-details/components.tsx:240 | the chosen bucket becomes the selected one |
| S3Page.S3DetailsPage.HandleCreateBucket | app/aws/s3-details/page.tsx:49-58 | a refetch follows only a successful creation |
| S3Page.S3DetailsPage.HandleDeleteBucket | app/aws/s3-details/page.tsx:60-69 | a refetch follows only a successful deletion |
| S3Page.S3DetailsPage.HandleUpload | app/aws/s3-details/page.tsx:71-84 | the upload request goes out with the uploading flag set, which is false again on every outcome; success clears the files and refetches; failure keeps the files and is not rethrown |
| S3Page.S3DetailsPage.HandleUploadReporting | app/aws/s3-details/page.tsx:71-84 | the same, except that a failure is passed on to the caller |
| S3Page.S3DetailsPage.UploadClicked | app/aws/s3-details/components.tsx:281-293 | nothing happens while the button is disabled; otherwise every picked file is attempted in order, and the files, buckets and loading flag follow from whether some upload succeeded |
| S3Page.S3DetailsPage.UploadEach | app/aws/s3-details/components.tsx:284-292 | the loop as written: one handleUpload per picked file, in order; files cleared and buckets refetched iff some upload succeeded |
| S3Page.S3DetailsPage.UploadClickedStopping | app/aws/s3-details/components.tsx:281-293 | nothing happens while the button is disabled; otherwise, with the failure passed on, the loop sends exactly the attempts up to and including the first failure, and the files, buckets and loading flag follow from whether one of those succeeded |
| S3Page.S3DetailsPage.UploadUntilFailure | app/aws/s3-details/components.tsx:284-292 | the intended loop: the requests sent are exactly the attempts up to and including the first failure; the files are cleared, the buckets refetched and loading ended iff one of those attempts succeeded |
| CloudFrontPage.ZipStage | app/aws/cloudfront/page.tsx:96-101 | one value per file, the k-th being k/(2n)·100 |
| CloudFrontPage.CompressStage | app/aws/cloudfront/page.tsx:104-108 | one value per callback, 50 plus half the reported percentage |
| CloudFrontPage.ProbeTrace | app/aws/cloudfront/page.tsx:66-80 | at most one status check per try, all to the distribution's domain |
| CloudFrontPage.CloudFrontPage.constructor | app/aws/cloudfront/page.tsx:28-36 | the page's initial state: nothing selected, idle, progress 0, no caption |
| CloudFrontPage.CloudFrontPage.LoadBuckets | app/aws/cloudfront/page.tsx:38-51 | the bucket list is replaced only when the answer carries one |
| CloudFrontPage.CloudFrontPage.HandleFolderSelect | app/aws/cloudfront/page.tsx:56-64 | a non-empty pick whose files all have a relative path replaces the selection; otherwise it is kept |
| CloudFrontPage.CloudFrontPage.SelectBucket | app/aws/cloudfront/page.tsx:169 | the chosen bucket becomes the selected one |
| CloudFrontPage.CloudFrontPage.CheckDistributionStatus | app/aws/cloudfront/page.tsx:66-80 | ready iff some try answers ok, checking otherwise; tries stop at the first ok; each try records the URL and progress shown while it runs |
| CloudFrontPage.CloudFrontPage.ZipFolder | app/aws/cloudfront/page.tsx:96-101 | the zip loop sets exactly the zip-stage values, in order |
| CloudFrontPage.CloudFrontPage.Compress | app/aws/cloudfront/page.tsx:103-109 | the callbacks set exactly the compression-stage values, in order |
| CloudFrontPage.CloudFrontPage.StartZip | app/aws/cloudfront/page.tsx:88-109 | progress reset to 0, caption "Creating zip file...", then the zip and compression values |
| CloudFrontPage.CloudFrontPage.DistributionStep | app/aws/cloudfront/page.tsx:124-131 | on success the URL is set and the bar reaches 100 before the status check starts: every try of the check sees that URL and 100; on failure none of this happens and no check is tried |
| CloudFrontPage.CloudFrontPage.HostingStep | app/aws/cloudfront/page.tsx:114-131 | after a successful upload the bar reaches 75; hosting is requested, and only on its success the bar reaches 85 and the distribution step runs |
| CloudFrontPage.CloudFrontPage.RunSteps | app/aws/cloudfront/page.tsx:111-131 | upload, hosting and distribution run in that order, each only after the one before succeeded, setting 75, 85 and 100 |
| CloudFrontPage.CloudFrontPage.Finish | app/aws/cloudfront/page.tsx:133-140 | a failure resets the status to idle; the uploading flag and the caption are always cleared |
| CloudFrontPage.CloudFrontPage.Pipeline | app/aws/cloudfront/page.tsx:89-131 | the try block: the zip stage, then the backend steps if the archive was built; it records the upload flag and status it starts under |
| CloudFrontPage.CloudFrontPage.Deploy | app/aws/cloudfront/page.tsx:85-140 | the pipeline runs with the upload flag set and the status deploying; every progress value, caption and request of a deploy; ready/checking after a full success, idle after any failure; never uploading at the end |
| CloudFrontPage.CloudFrontPage.HandleDeploy | app/aws/cloudfront/page.tsx:82-141 | nothing happens without a folder or a bucket; otherwise the deploy as above, its pipeline running while uploading and deploying |
| CloudFrontPage.ZipProgressBounds | app/aws/cloudfront/page.tsx:101 | after k of n files the bar is above 0, at most 50, and exactly 50 after the last file |
| CloudFrontPage.ZipStageBounds | app/aws/cloudfront/page.tsx:96-101 | every zip-stage value lies in (0, 50] and the last is 50 |
| CloudFrontPage.CompressProgressBounds | app/aws/cloudfront/page.tsx:106 | a percentage in 0..100 moves the bar within 50..100, reaching 100 only at 100 percent |
| CloudFrontPage.ProgressNotMonotone | app/aws/cloudfront/page.tsx:106-114 | a callback at 100 percent fills the bar, and the upload step then sets it back to 75 |
| CloudFrontPage.StepsRunOnlyAfterSuccess | app/aws/cloudfront/page.tsx:111-131 | each step's request is sent iff every earlier step succeeded; status checks only after a full success |
| CloudFrontPage.StepProgressOrder | app/aws/cloudfront/page.tsx:114-127 | 75, 85 and 100 are set iff their steps succeed, in increasing order |
| CloudFrontPage.FinalProgress | app/aws/cloudfront/page.tsx:114-127 | the bar ends at 100 after a full success, 75 when hosting fails, 85 when the distribution fails |
| CloudFrontPage.StatusCheckOutcome | app/aws/cloudfront/page.tsx:66-80 | with the first ok at try k, the status is ready after exactly k+1 checks |
| CloudFrontPage.StatusCheckExhausted | app/aws/cloudfront/page.tsx:66-80 | without an ok answer every try is used and the status stays checking |
| CloudFrontPage.DeployDisabled | app/aws/cloudfront/page.tsx:210 | the deploy button is enabled iff a folder and a bucket are selected and no deploy is uploading |
| CloudFrontPage.EnabledButtonPassesGuard | app/aws/cloudfront/page.tsx:210 | an enabled deploy button means handleDeploy's guard passes |
| AwsPage.IsRunningExact | app/aws/page.tsx:54-56 | an instance counts as running iff its state is exactly `running` or `pending`, with no case folding |
| AwsPage.RunningInstances | app/aws/page.tsx:53-58 | counts exact, case-sensitive running/pending; never more than the total; all iff each is exactly running or pending |
| AwsPage.BucketLabel | app/aws/page.tsx:82 | the count, then " Active Bucket", with an `s` unless the count is 1 |
| AwsPage.InstanceTotalLabel | app/aws/page.tsx:112 | the count, then " Total Instance", with an `s` unless the count is 1 |
| AwsPage.RunningLabel | app/aws/page.tsx:110 | the count, then " Running" |
| AwsPage.BucketLabelCount | app/aws/page.tsx:82 | the label reads back as the bucket count and ends in `s` iff the count is not 1 |
| AwsPage.InstanceTotalLabelCount | app/aws/page.tsx:112 | the label reads back as the instance count and ends in `s` iff the count is not 1 |
| AwsPage.RunningLabelCount | app/aws/page.tsx:110-112 | the running line reads back as the running count, never above the total shown |
| AwsPage.AwsPage.constructor | app/aws/page.tsx:18-20 | no buckets, no instances, loading |
| AwsPage.AwsPage.FetchData | app/aws/page.tsx:23-36 | buckets and instances are both replaced iff both requests succeed; loading ends either way |
| AwsPage.AwsPage.Poll | app/aws/page.tsx:41-48 | a tick replaces only the instances, and only on success |
| AwsPage.AwsPage.BucketCard | app/aws/page.tsx:79-83 | "Loading..." while loading, otherwise a label that reads back as the bucket count |
| AwsPage.PollsShowAnAnswer | app/aws/page.tsx:41-48 | after any run of polls the list shown is one a poll returned, or the one shown before |
| Agreement.StartButtonIsHonoured | api/app.py:280-288 | whenever the details page offers Start, the start endpoint calls the provider |
| Agreement.PendingStopRefused | api/app.py:311-312 | Stop is offered for `pending` but the stop endpoint answers 400 without calling the provider |
| Agreement.StopButtonOutcome | api/app.py:309-317 | when Stop is offered the endpoint never reports already stopped, and refuses exactly for the literal `pending` |
| Agreement.TerminatedStartDisagreement | api/app.py:280-288 | the start endpoint starts a terminated instance, which the client never offers to start |
| Agreement.ExactIsActive | app/aws/page.tsx:54-56 | an instance counted by the overview is counted by the details page |
| Agreement.OverviewCountAtMostDetails | app/aws/page.tsx:53-58 | the overview's running count never exceeds the details page's |
| Agreement.CapitalisedStateCountsDifferently | app/aws/page.tsx:55 | an instance reported as `Running` counts on the details page but not on the overview |
| Agreement.ProbeBucket | app/aws/s3-details/components.tsx:35-44 | a listed bucket shows the backend's totals; a bucket whose listing fails shows 0 size and 0 objects, with info present only for `NoSuchBucket` |

## Left out

- Unicode case mapping: `toLowerCase` is modelled on ASCII letters only.
- Floating point:
  - Sizes, rates and percentages are reals.
  - `toFixed(2)` rounding and the gigabyte rendering are not modelled.
  - `FormatSize` returns the value to be printed.
- Timers and concurrency:
  - The 10-second poll and the 30-second re-check are modelled as one call per tick and
    as a sequence of outcomes.
  - `Promise.all` fan-out is folded in list order.
  - The un-awaited `fetchBuckets` after an upload and the un-awaited status check after a
    deploy take effect immediately.
- S3Components.SizeMap: for duplicate bucket names the last answer in list order wins.
  In the source, whichever request finishes last wins.
- SDK and network calls are inputs.
  - A failing `upload_file` inside `upload_website` (which gives 500) is not modelled.
  - `describe_instances` failures are not modelled.
  - Backend.GetInsights: the 500 answer when the CloudWatch call fails
    (api/app.py:1029-1031) is not modelled; the metric series are given.
  - Backend.UploadWebsite: the 500 answer for an archive that cannot be extracted
    (api/app.py:749-751) is not modelled; the walked file list is given.
  - The extraction and walk of the uploaded zip are given as the walked file list.
- Backend.RgbToHex: components are naturals. Python would print negative values with a
  minus sign, and that case is not modelled.
- `secure_filename`, the PIL colour analysis, the fixed health figures and the hard-coded
  credentials are foreign or constant code and are not modelled.
- lib/api.ts is not part of this model beyond the rule that any status outside 200-299
  throws (used in Agreement.ProbeBucket).
- The following are not part of this model: azure_api, the rendering-only pages,
  `LaunchTab.handleLaunch`, and the Rekognition toggle of the overview page.
- CloudFrontPage.CloudFrontPage.LoadBuckets keeps bucket names only. Creation dates are
  not used by the page's logic.
- CloudFrontPage.PickedFile records `webkitRelativePath` as a flag. Which files end up in
  the archive is not modelled.
- `generateAsync` failing is the `zipOk` flag of `StepResults`. Its callbacks are a given
  sequence, whatever that sequence holds.
  - The page passes `onProgress` inside the options object (app/aws/cloudfront/page.tsx:103-108).
    JSZip takes its progress callback as a separate second argument, so the option is probably
    never called and the sequence is then empty.
  - CloudFrontPage.ProgressNotMonotone therefore describes a run that happens only if the
    callback is called at 100 percent.
- S3Page.S3DetailsPage.UploadClicked, UploadEach, UploadClickedStopping and UploadUntilFailure
  (and the `AfterUploads` state they ensure): one `listing` answer serves every refetch of an
  upload loop. In the source each successful upload starts its own `fetchBuckets()`
  (app/aws/s3-details/page.tsx:78-83), and those requests may get different answers. The model
  does not say which answer the bucket list ends with when they differ.
- The S3 overview's `isLoadingMetrics` is true only during the fold, which the model runs
  at once.

## Findings

| source | as written | input that shows it | evidently intended | confidence | as-written member | corrected member |
|---|---|---|---|---|---|---|
| app/aws/s3-details/components.tsx:284-292 | the upload loop's `catch { break }` never runs, because `handleUpload` (app/aws/s3-details/page.tsx:78-83) catches every failure and does not rethrow, so every remaining file is still uploaded | two picked files with attempt outcomes [false, _], the first upload failing: both are sent | stop at the first failed upload, as the loop's comment says | not executed | S3Page.S3DetailsPage.UploadClicked, S3Page.FailureDoesNotStopUploads | S3Page.S3DetailsPage.UploadClickedStopping, S3Page.StoppingAttemptsPrefix |

# auto-refresh-ami, modelled in Dafny

auto-refresh-ami keeps machine images fresh. For every configured project
and every source image its filter selects, the engine runs a job pair:

- `Refresh` launches an instance from the source with the project's
  bootstrap script and waits until the script has shut the instance down.
  It then creates an image of the instance and waits until the image is
  available. In deferred calls it retires old images beyond the project's
  retention count and terminates the instance.
- `CleanUp` terminates stopped instances of the project that are older than
  two hours.

A job without a cron expression runs once. A job with one is handed to a
cron runner. A shared wait group counts the jobs that are running.

The model covers:

- the configuration records and their validation and defaults;
- the configuration store;
- the launch configuration, instances, images and accounts;
- the per-job step sequence with its deferred calls and panic recovery;
- the retention walk and the image sort;
- the fan-out of jobs in `StartEngine`;
- the command-line argument check.

Every provider (EC2) call becomes a request value (`Ec2.ApiCall`) that the
operation making it returns, the polls of the two waits included.
Every answer is a parameter: a result, a list of poll answers, or an error.
Given the answers, each operation is deterministic.

A Go panic inside a job is recovered by the job's `recoverPanic` and counted
in `ConfigErrors`. The model follows the panic as the error value that
caused it. Go maps are references, and one tag map flows from a launch
configuration to the instance it launches and on to the image made from
it. That map is the class `Util.TagMap`, shared by reference in the same
way.

Modules: one per source file (config.go is split in two), plus helper
modules for the Go library and provider behaviour the code relies on:

- `GoStrings`: strings.TrimSpace, ToLower, HasPrefix/HasSuffix, string order.
- `Errors`: the error values.
- `Ec2`: the API values.
- `Util`: the tag map, CopyMap, the tag list and filter builders.
- `Config`: records, `validateAndSetDefaults`, findSources.
- `Storage`: ConfigStorage and the wait group counter.
- `Encoding`: UTF-8 and base64 of the user data.
- `Waiting`: the shared poll loop.
- `Retention`: the DeleteOldAmi walk.
- `Ami`, `Instances`, `Accounts`, `Engine`, `Cli`: the Go types of the same
  names.

Points where the code differs from the behaviour the project documents. The
model follows the code:

- A project naming an account that is not stored is not rejected. Its jobs
  get a nil account and every run panics and is recovered.
- A project naming a script that is not stored crashes `StartEngine` with a
  nil dereference.
- A non-available image among the newest `retentionCount` images still
  takes a retained slot. Only a non-available image beyond the bound moves
  the bound (`Retention.PendingInRetainedWindow`).
- `Refresh` does not validate the job first. `AutoRefreshAmi.Validate` is
  never called in the repository.
- `CreateAmi` sets only the image name on the record. The description goes
  into the request only.

## Model

| member | source | states |
|---|---|---|
| GoStrings.TrimSpaceShape | autorefresh/account.go:31-34 | TrimSpace removes only white space at both ends: the result is a contiguous piece of the input, everything cut off is white space, and the result neither starts nor ends with white space |
| GoStrings.TrimSpaceEmpty | autorefresh/account.go:31-47 | a field trims to the empty string exactly when it is all white space |
| GoStrings.TrimSpaceIdempotent | autorefresh/config.go:118-122 | trimming a trimmed field changes nothing |
| GoStrings.LessIrreflexive | autorefresh/ami.go:109 | no creation date is newer than itself |
| GoStrings.LessTransitive | autorefresh/ami.go:109 | the string order used for creation dates is transitive |
| GoStrings.LessTotal | autorefresh/ami.go:109 | of two different creation dates one is newer |
| GoStrings.AtLeastTransitive | autorefresh/ami.go:109 | "not newer than" is transitive |
| Util.TagMap.Merge | autorefresh/ami.go:42-44 | the map afterwards is the old map with the list's tags assigned in order |
| Util.MergeTagsKeys | autorefresh/ami.go:42-44 | merging keeps every key already present and adds every listed key, nothing else |
| Util.MergeTagsLastWins | autorefresh/ami.go:42-44 | a listed key ends with the value of its last occurrence in the list |
| Util.MergeTagsKeepsOthers | autorefresh/instance.go:93-98 | a key the answer does not list keeps its old value |
| Util.MergeTagsAppend | autorefresh/instance.go:96-98 | merging two tag lists in turn is merging their concatenation, so successive polls accumulate tags |
| Util.TagListRoundTrip | autorefresh/instance.go:105-110 | a list holding each map entry once rebuilds exactly the map |
| Util.CopyMap | autorefresh/util.go:3-9 | a freshly allocated map with the same keys and the same value per key; a nil source gives an empty map |
| Util.TagList | autorefresh/instance.go:105-110 | the range over a map lists every entry exactly once with its value, in some order, and nothing else |
| Util.TagFilters | autorefresh/account.go:131-136 | one `tag:<key>` filter per tag with the single value of that tag, covering every tag |
| Util.TagsCall | autorefresh/ami.go:80-90 | the single tagging request both records build: one CreateTags for the one resource, one tag per map entry, whose tag list rebuilds the map |
| Util.FiltersOf | autorefresh/ami.go:114-119 | one filter per listed tag, in list order, named `tag:` followed by the key |
| Config.CollectMissing | autorefresh/config.go:138-147 | the mandatory-field checks report exactly the empty fields, in field order |
| Config.MissingNamesAppend | autorefresh/config.go:138-147 | checking two groups of fields one after the other reports the first group's missing names first |
| Config.MissingNamesNone | autorefresh/config.go:148-152 | nothing is reported exactly when no mandatory field is empty |
| Config.MissingNamesReports | autorefresh/account.go:35-47 | a field with a name of its own is reported exactly when it is empty |
| Config.ValidateSource | autorefresh/config.go:91-103 | all seven fields are trimmed; the error occurs exactly when the image id is blank and names AmiId |
| Config.WrapScriptShape | autorefresh/config.go:44-49 | an accepted script starts with `#!/bin/bash\n`, ends with `\nsudo init 0\n` and contains the original script unchanged |
| Config.WrapTrimmedAlwaysAppends | autorefresh/config.go:47-49 | a trimmed script cannot end with the epilogue, so the epilogue is always appended, even after an existing `sudo init 0` |
| Config.ValidateUserData | autorefresh/config.go:29-51 | name and script trimmed; a blank name reports Name and Bash (fallthrough), a blank script alone reports Bash; an accepted script is wrapped |
| Config.DefaultsApplied | autorefresh/config.go:123-137 | after the defaults the retention count is positive, the instance type is set and the managed-by tag is present; filter and volumes are untouched |
| Config.ValidateProject | autorefresh/config.go:117-153 | the defaults are applied whether or not the record is rejected; the error lists blank Name, UserData, Account in that order, and occurs exactly when one of them is blank |
| Config.FindSources | autorefresh/config.go:67-89 | the loop with its fall-through cases returns the selection of the conjunctive filter, in source order |
| Config.SelectedExactly | autorefresh/config.go:67-89 | a source is returned exactly when it is a stored source every non-empty filter field equals |
| Config.EmptyFilterSelectsAll | autorefresh/config.go:67-89 | the all-empty filter returns every source in order |
| Config.NarrowerFilterSelectsFewer | autorefresh/config.go:70-85 | setting more filter fields never selects more sources |
| Storage.ConfigStorage.AddSource | autorefresh/config.go:185-189 | a valid source is appended trimmed; an invalid one is not stored and counts one error; the other records are unchanged |
| Storage.ConfigStorage.AddAccount | autorefresh/config.go:191-198 | the account is trimmed in place and filed under its name, replacing any previous one; an invalid one is not stored and counts one error |
| Storage.ConfigStorage.AddProject | autorefresh/config.go:200-207 | the project with defaults is filed under its trimmed name, replacing any previous one; an invalid one is not stored and counts one error |
| Storage.ConfigStorage.AddUserData | autorefresh/config.go:209-216 | the wrapped script is filed under its trimmed name; an invalid one is not stored and counts one error |
| Storage.ConfigStorage.PanicIfErrorsFound | autorefresh/config.go:176-183 | loading fails exactly when some record was rejected, reporting their number |
| Encoding.RuneRoundTrip | autorefresh/account.go:92 | the UTF-8 bytes of one character decode to that character |
| Encoding.Utf8RoundTrip | autorefresh/account.go:92 | the UTF-8 bytes of a script decode to the script |
| Encoding.EncodeBase64Length | autorefresh/account.go:92 | standard base64 text has four characters per three bytes or part of three |
| Encoding.Base64RoundTrip | autorefresh/account.go:92 | the base64 text of some bytes decodes to those bytes |
| Encoding.UserDataRoundTrip | autorefresh/account.go:92-93 | the launch request's user data decodes to exactly the configured script |
| Waiting.AwaitFromEnds | autorefresh/instance.go:138-153 | a wait succeeds exactly when the state already was the target or the last answer used reports it; it fails exactly on an error answer, with that error; it uses no answer after that; if still waiting, it has used every answer |
| Retention.WalkBounds | autorefresh/ami.go:135-139 | the walk deregisters only available images and skips only non-available ones, never at an index below the bound, and deleted plus skipped number at most len minus the bound |
| Retention.WalkOldestFirst | autorefresh/ami.go:135-146 | deleted indices strictly decrease: the result lists the oldest first |
| Retention.RetiredSafe | autorefresh/ami.go:133-152 | a pass never deletes a non-available image or one among the newest retentionCount, lists deletions oldest first, touches at most len minus retentionCount images, and deletes nothing when retentionCount >= len |
| Retention.WalkDeletes | autorefresh/ami.go:135-147 | image j is deleted exactly when it is available and j >= retentionCount plus the number of non-available images older than it |
| Retention.AllAvailableRetiresOldest | autorefresh/ami.go:135-147 | with every image available exactly the len minus retentionCount oldest are deleted, oldest first |
| Retention.PendingImageScenario | autorefresh/ami.go:135-147 | [available, available, pending, available, available] with retentionCount 2 deletes the two oldest and skips the pending one |
| Retention.PendingInRetainedWindow | autorefresh/ami.go:135-139 | a pending image among the newest retentionCount takes a slot: [pending, pending, available] with count 1 deletes the available one |
| Retention.HugeRetentionCountDeletesAll | autorefresh/ami.go:135 | as written, retentionCount 2^63 turns negative in int(): the only image is deleted and index -1 is read |
| Ami.AutoAmi.Update | autorefresh/ami.go:32-45 | the six describe fields are overwritten, the region kept, the tags merged into the existing map (created when nil) |
| Ami.AutoAmi.IsAvailable | autorefresh/ami.go:47-61 | the request is a DescribeImages for this image's id; an error or an empty answer leaves every field of the record and its tags unchanged; otherwise the record mirrors the first image and the result is whether it is available |
| Ami.AutoAmi.WaitForAvailableState | autorefresh/ami.go:63-78 | the outcome and poll count are those of the shared wait: no poll if already available, stop at the first error, success only in the available state; one DescribeImages request per poll, each for the id the record holds when it is sent; tags of every poll are merged |
| Ami.AutoAmi.TagImage | autorefresh/ami.go:80-97 | one CreateTags request for this image only, whose tag list rebuilds the image's tag map |
| Ami.AutoAmi.FindAmi | autorefresh/ami.go:111-131 | the request asks for the owner's images carrying every tag; an error returns nothing; the result is newest first, a permutation of the answer, one fresh record per image |
| Ami.AutoAmi.DeleteOldAmi | autorefresh/ami.go:133-152 | the listing asks for the owner's images carrying every tag of this image, so only those can be retired; after it, one DeregisterImage per retired index and one deleted record per retired index, mirroring that image; a listing error deletes nothing |
| Ami.Deregister | autorefresh/ami.go:135-147 | the loop whose index falls while its bound rises returns exactly the records and calls of `Retired`; a failed deregistration is still reported |
| Ami.ExtractAll | autorefresh/ami.go:126-129 | one fresh record per sorted image, in order |
| Ami.ExtractAutoAmi | autorefresh/ami.go:99-103 | a fresh record mirroring the image with a fresh tag map holding its tags |
| Ami.SortByTimeReverse | autorefresh/ami.go:105-109 | the images end newest first and are a permutation of the input |
| Ami.InsertNewest | autorefresh/ami.go:105-109 | one insertion step extends the newest-first prefix by one and keeps the multiset |
| Ami.Swap | autorefresh/ami.go:108 | exchanges two positions and nothing else |
| Instances.LaunchConfig.Copy | autorefresh/instance.go:20-31 | a fresh configuration with equal fields, a freshly allocated tag map with the same entries, and the volumes in order |
| Instances.LaunchConfig.Validate | autorefresh/instance.go:33-56 | checks in order: blank UserData and InstanceType (reported together), then the source (trimmed in place), then a non-empty tag map; success exactly when all hold |
| Instances.AutoInstance.Update | autorefresh/instance.go:88-99 | id, launch time, image id and state overwritten, region kept, tags merged into the existing map (created when nil) |
| Instances.AutoInstance.TagInstance | autorefresh/instance.go:101-118 | one CreateTags request for this instance only, one tag per map entry, rebuilding the map |
| Instances.AutoInstance.IsStopped | autorefresh/instance.go:120-136 | the request is a DescribeInstances for this instance's id, with no filters; an error or an empty reservation or instance list leaves every field of the record and its tags unchanged; otherwise the record mirrors the first instance and the result is whether it is stopped |
| Instances.AutoInstance.WaitForStoppedState | autorefresh/instance.go:138-153 | the outcome and poll count are those of the shared wait for `stopped`; one DescribeInstances request per poll, each for the id the record holds when it is sent; tags of every poll are merged |
| Instances.AutoInstance.CreateAmi | autorefresh/instance.go:155-177 | the request names the image `name timestamp` for this instance; an error returns no image; otherwise a fresh image with the new id, this region and this tag map, tagged, with the tagging answer ignored |
| Instances.AutoInstance.Terminate | autorefresh/instance.go:179-190 | one TerminateInstances request for this instance, its answer passed back |
| Accounts.Account.ValidateAndSetDefaults | autorefresh/account.go:30-53 | the four fields are trimmed in place; the error lists the blank ones in field order and occurs exactly when one is blank |
| Accounts.DeviceMappings | autorefresh/account.go:72-88 | one block-device mapping per volume, in order, copying its four settings |
| Accounts.AttemptsStop | autorefresh/account.go:113-121 | tagging stops at the first success; every earlier attempt failed |
| Accounts.TagWithRetries | autorefresh/account.go:113-125 | at most 10 attempts, each a CreateTags for this instance with one tag per map entry; the error occurs exactly when no attempt succeeds and is the last attempt's error |
| Accounts.Account.LaunchInstance | autorefresh/account.go:71-127 | the RunInstances request (image, type, base64 user data, count 1..1, mappings); a run error or empty answer returns no instance and tags nothing; otherwise the retried tagging, one tag per entry of the merged map in each attempt, the configuration's tag map merged with the launch answer, and an instance in the source's region only when tagging succeeded |
| Accounts.LaunchedRecord | autorefresh/account.go:105-110 | the new record has the source's region and the configuration's tag map (a new one when nil) merged with the instance's tags |
| Accounts.FlattenLists | autorefresh/account.go:145-152 | an instance is listed exactly when some reservation holds it, and the listing counts every instance |
| Accounts.Account.FindInstances | autorefresh/account.go:129-154 | one tag filter per configured tag; an error returns nothing; otherwise one fresh record per instance across the reservations, in order |
| Accounts.FoundAcross | autorefresh/account.go:145-152 | the nested loop yields the flattened instances, one record each, in order |
| Accounts.FoundIn | autorefresh/account.go:146-151 | one record per instance of a reservation, in order |
| Engine.ForwardInOrder | autorefresh/engine.go:106-119 | launch, wait-stopped, create-image and wait-available run in that order; each runs exactly when every earlier one succeeded; no step runs twice |
| Engine.LaterIsSteps | autorefresh/engine.go:107-119 | after a launch, the steps the code takes are the successful forward steps followed by the deferred ones |
| Engine.TerminateAfterLaunch | autorefresh/engine.go:107-109 | the instance is terminated exactly when it was launched and the job returns, even if the stop wait failed, and termination is the last step |
| Engine.PruneAfterCreate | autorefresh/engine.go:114-119 | old images are pruned exactly when the image was created and the job returns, just before termination, whatever the wait for the image returned |
| Engine.TaggingFailureOrphans | autorefresh/account.go:122-125 | when every tagging attempt fails the launched instance is never terminated and the job fails after its launch step |
| Engine.TerminationsExactly | autorefresh/engine.go:134-139 | a termination is requested exactly for each found instance older than 120 minutes and stopped, and there are no more requests than instances |
| Engine.TerminateExpired | autorefresh/engine.go:134-139 | the loop requests exactly those terminations, in order |
| Engine.OneShotsAppend | autorefresh/engine.go:164-171 | one-shot jobs of two job lists add up |
| Engine.OneShotsBound | autorefresh/engine.go:164-171 | no more jobs run once than there are jobs |
| Engine.OneShotsOfProject | autorefresh/engine.go:164-171 | the jobs of one project are all one-shot or all scheduled |
| Engine.PlanExactly | autorefresh/engine.go:144-172 | a job is planned exactly for a visited project and a stored source its filter selects |
| Engine.Launch | autorefresh/engine.go:107-108 | an instance comes back exactly when the launch answered with an instance and some tagging attempt succeeded; it holds the configuration's tag map (a new one when nil), into which the launch answer's tags are merged |
| Engine.AwaitStopped | autorefresh/engine.go:111-112 | the outcome is the shared wait for `stopped` from the launch state; the tags of every poll the wait uses are merged into the instance's own tag map |
| Engine.Snapshot | autorefresh/engine.go:114-115 | an image comes back exactly when creation succeeded, with no state and the instance's tag map |
| Engine.AwaitImage | autorefresh/engine.go:116-119 | the wait for the image, then (once it returns) the pruning; the job fails when the wait failed or the listing failed; the tags of every poll the wait uses are merged into the image's tag map, which stays the same map |
| Engine.AfterLaunch | autorefresh/engine.go:109-119 | the steps after launch, whether the job panicked and whether it returned, as the progress of the answers dictates; the shared tag map gains the stop polls' tags and, once the image exists, the image polls' tags |
| Engine.AutoRefreshAmi.Copy | autorefresh/engine.go:25-36 | same account and wait group, deep-copied launch configuration with its own tag map, settings copied, no errors counted |
| Engine.AutoRefreshAmi.Validate | autorefresh/engine.go:74-97 | fails on nil account, invalid account, invalid configuration, zero retention count or empty name, the first failure being the error, each with its exact value; the account's four fields are trimmed in place, and past a valid account the source is trimmed in place once UserData and InstanceType are set; an empty cron is accepted |
| Engine.AutoRefreshAmi.Refresh | autorefresh/engine.go:99-120 | the steps taken are `Steps` of the answers' progress; one error counted exactly when the job failed; the wait group gains one for a scheduled job and loses one when the job returns; the configuration's tag map ends as the old map merged with every tag the launch answer and the polls used report, in order |
| Engine.RunJob | autorefresh/engine.go:106-119 | for a job with an account, the steps, the panic and the return are those of the answers' progress, and the configuration's tags gain exactly the job's reported tags |
| Engine.RefreshKeepsTagKeys | autorefresh/engine.go:106-119 | a refresh only adds keys to its configuration's tags, so later filters cover at least the configured tags; without an account the tags stay unchanged |
| Engine.AutoRefreshAmi.CleanUp | autorefresh/engine.go:122-140 | without an account nothing is listed; with one, the listing is a DescribeInstances filtered on every tag of the job's configuration, so only instances carrying them can be terminated; a nil account or listing error terminates nothing and counts an error; otherwise exactly the expired instances are terminated; the wait group gains one for a scheduled job and loses one when the job returns |
| Engine.RunPair | autorefresh/engine.go:164-167 | a one-shot job pair adds two to the wait group and its two runs take both back, so the count returns to where it was once `Refresh` returns; a wait that never ends leaves one counted; a scheduled run also nets to zero |
| Engine.ProjectJobs | autorefresh/engine.go:161-171 | one fresh job per matched source with that source; no two jobs share the job record, its configuration or its tag map; one-shot jobs add 2 each to the wait group, scheduled ones register 2 cron entries each |
| Engine.JobFor | autorefresh/engine.go:162-163 | a fresh copy of the project's template with the source filled in, configured for that project and source, sharing no part with the jobs made before it |
| Engine.JobsOfProject | autorefresh/engine.go:145-171 | the jobs of one project, configured from the stored account and script, fresh, and sharing no part with each other or with the jobs built before them |
| Engine.AddProjectJobs | autorefresh/engine.go:144-172 | one more visited project extends the plan, the configured jobs and both ledgers; the new jobs are fresh and no two jobs share a part |
| Engine.StartEngine | autorefresh/engine.go:142-172 | the jobs are exactly the plan of the visited projects, each configured for its project and source; the wait group gains 2 per one-shot job and 2 cron entries are registered per scheduled job; no two jobs share the job record, its configuration or its tag map; an unstored script stops the run with a nil dereference |
| Cli.Arguments.Validate | start.go:19-36 | both arguments trimmed; a blank path is the first error; a blank level becomes `info`; the level is accepted exactly when its lower-case form is a known level and is kept as given |
| Cli.DefaultLevelAccepted | start.go:27-34 | with a path and no level the arguments are accepted at the default level |
| Cli.LevelCaseIgnored | start.go:30 | for every argument and every known level: the argument lower-cases to the level exactly when it spells it letter by letter in either case (or with the two non-ASCII letters Go lower-cases into `i` and `k`) |
| Cli.LevelAccepted | autorefresh/logging.go:10-17 | a level argument names a known level exactly when it spells one of the six level names in some mix of cases |

## Left out

- Opening connections (`ConnectToRegion`) and the provider's behaviour: every answer is a parameter.
- Sleeping between polls, and clock reads: `CreateAmi`'s formatted time is a parameter, and `CleanUp` takes the current time in nanoseconds.
- A poll loop that never ends: the answers are a finite list, and `StillWaiting` stands for a wait still in progress. A job in that state has not returned, so none of its deferred calls has run.
- Goroutines, the blocking `Wait` on the wait group, the cron runner and the signal handling (`receiveSystemSignals`, `makeBoolTrueAfterDelay`): only the counter arithmetic of the wait group is kept.
- Reading configuration files, JSON decoding and `typeConversion`: records arrive decoded. After a rejected record Go also abandons the rest of its file; the model handles records one at a time and does not model that.
- Logging (`InitLogger`, `getLogFields`, `resetLogFields`, log fields): not modelled, except that `resetLogFields` dereferences the account, which is where a nil account panics.
- Engine.AutoRefreshAmi.Refresh: reports the steps taken and the error counter, not each step's request values; those are stated by the step operations themselves.
- Engine.StartEngine: Go's order of visiting projects is unspecified; the model takes any sequence of stored project names. That no two jobs share a part is stated across projects; that each is newly allocated is stated per project (`Engine.JobsOfProject`, `Engine.AddProjectJobs`).
- Ami.SortByTimeReverse: `sort.Sort` is not stable and its order among equal creation dates is not modelled; the model uses an insertion sort with the same result up to ties.
- `Source.Copy` and `EbsVolume.Copy` are value copies; sources and volumes are immutable values here, so copying is assignment.
- The retention count is a Dafny `nat`, so `int(retentionCount)` cannot wrap: see Findings.
- strings.ToLower is modelled for ASCII letters and the two non-ASCII letters that lower-case into ASCII; other characters are unchanged, which cannot make an unknown level name known.

## Findings

| source | as written | input that shows it | evidently intended | confidence | as-written member | corrected member |
|---|---|---|---|---|---|---|
| autorefresh/ami.go:135 | the loop bound is `int(retentionCount)` of a `uint`, so counts from 2^63 become negative | retentionCount = 2^63 with one available image: the image is deregistered and the loop then reads index -1 | keep the newest retentionCount images, and delete nothing when retentionCount >= the number of images | not executed | Retention.HugeRetentionCountDeletesAll | Retention.RetiredSafe |

/** The engine of autorefresh/engine.go: one `AutoRefreshAmi` job per project
    and matching source, whose `Refresh` launches an instance from the
    source, waits for it to stop, images it, waits for the image, then (in
    deferred calls) prunes old images and terminates the instance, and whose
    `CleanUp` terminates stopped instances left over from earlier runs.

    Every provider answer is a parameter. A Go panic inside a job is caught
    by the job's deferred `recoverPanic`, which counts it in `ConfigErrors`;
    the model follows each panic as the error value that caused it. A wait
    whose answers run out stands for a Go wait that never ends: the job is
    then still running, so none of its deferred calls has run. */
module Engine {
  import opened Errors
  import opened Ec2
  import opened Util
  import opened Config
  import opened Waiting
  import opened Ami
  import opened Instances
  import opened Accounts
  import opened Storage
  import Retention

  /** INSTANCE_MAX_AGE: 120 minutes, in nanoseconds. */
  const MaxAge := 7_200_000_000_000

  /** The steps of a refresh job, named after the calls that perform them. */
  datatype Step =
    | LaunchInstance
    | WaitForStoppedState
    | CreateAmi
    | WaitForAvailableState
    | DeleteOldAmi
    | Terminate

  /** The provider's answers to one refresh job, in the order it asks. */
  datatype RefreshAnswers = RefreshAnswers(
    run: Result<seq<Instance>>,                     // RunInstances
    tagReplies: seq<Option<Error>>,                 // CreateTags on the instance, per attempt
    stopPolls: seq<Result<seq<Reservation>>>,       // DescribeInstances, per poll
    timestamp: string,                              // the clock, as CreateAmi formats it
    created: Result<string>,                        // CreateImage
    imageTagReply: Option<Error>,                   // CreateTags on the image
    availablePolls: seq<Result<seq<Image>>>,        // DescribeImages, per poll
    listing: Result<seq<Image>>,                    // DescribeImages of the owner's images
    terminateReply: Option<Error>)                  // TerminateInstances

  /** How far a refresh job gets: whether the job has an account, whether
      the instance was launched and tagged, how the wait for the stopped
      state ended, whether the image was created, how the wait for the image
      ended, and whether the owner's images could be listed. A field is
      only consulted when every earlier step succeeded. */
  datatype Progress = Progress(
    hasAccount: bool,
    launched: bool,
    stopped: WaitOutcome,
    created: bool,
    available: WaitOutcome,
    listed: bool)

  /** The progress of a job given the answers it receives. The launched
      instance starts in the state the launch reports; the new image starts
      with no state. */
  function ProgressOf(hasAccount: bool, a: RefreshAnswers): Progress
  {
    var launchedAny := a.run.Ok? && a.run.value != [];
    Progress(
      hasAccount,
      launchedAny && exists t :: 0 <= t < |a.tagReplies| && a.tagReplies[t].None?,
      if launchedAny then AwaitFrom(a.run.value[0].State, Stopped, InstanceReports(a.stopPolls), 0).0 else StillWaiting,
      a.created.Ok?,
      AwaitFrom("", Retention.Available, ImageReports(a.availablePolls), 0).0,
      a.listing.Ok?)
  }

  /** The steps run in sequence: each one only after the previous one
      succeeded. */
  function Forward(p: Progress): seq<Step>
  {
    if !p.hasAccount then []
    else if !p.launched then [LaunchInstance]
    else if !p.stopped.Reached? then [LaunchInstance, WaitForStoppedState]
    else if !p.created then [LaunchInstance, WaitForStoppedState, CreateAmi]
    else [LaunchInstance, WaitForStoppedState, CreateAmi, WaitForAvailableState]
  }

  /** The job returns (normally or by a recovered panic): no wait is left
      pending. */
  predicate Finished(p: Progress)
  {
    !(p.hasAccount && p.launched &&
      (p.stopped.StillWaiting? || (p.stopped.Reached? && p.created && p.available.StillWaiting?)))
  }

  /** The deferred steps, last deferred first, once the job returns. */
  function Deferred(p: Progress): seq<Step>
  {
    if !Finished(p) || !p.hasAccount || !p.launched then []
    else if p.stopped.Reached? && p.created then [DeleteOldAmi, Terminate]
    else [Terminate]
  }

  /** Every step the job takes, in order. */
  function Steps(p: Progress): seq<Step>
  {
    Forward(p) + Deferred(p)
  }

  /** The steps after a successful launch, in the order the job's code
      takes them: a wait that never ends stops the job, a failed step skips
      to the deferred calls. */
  function Later(p: Progress): seq<Step>
  {
    [WaitForStoppedState] +
    if p.stopped.StillWaiting? then []
    else if p.stopped.Failed? then [Terminate]
    else if !p.created then [CreateAmi, Terminate]
    else if p.available.StillWaiting? then [CreateAmi, WaitForAvailableState]
    else [CreateAmi, WaitForAvailableState, DeleteOldAmi, Terminate]
  }

  /** Once the instance is launched, the steps the code takes are the
      forward steps that succeed followed by the deferred ones. */
  lemma LaterIsSteps(p: Progress)
    requires p.hasAccount && p.launched
    ensures Steps(p) == [LaunchInstance] + Later(p)
  {
  }

  /** The job panicked and `recoverPanic` counted it: the account was
      missing, a forward step failed, or listing the old images failed. */
  predicate JobFailed(p: Progress)
  {
    && Finished(p)
    && (|| !p.hasAccount || !p.launched || p.stopped.Failed?
        || (p.stopped.Reached? && (!p.created || p.available.Failed? || !p.listed)))
  }

  /** The tags the launch answer reports for the new instance. */
  function LaunchTags(a: RefreshAnswers): seq<Tag>
  {
    if a.run.Ok? && a.run.value != [] then a.run.value[0].Tags else []
  }

  /** The tags the polls for the stopped state report, up to the poll the
      wait ends on. */
  function StopTags(a: RefreshAnswers): seq<Tag>
    requires a.run.Ok? && a.run.value != []
  {
    var polled := AwaitFrom(a.run.value[0].State, Stopped, InstanceReports(a.stopPolls), 0).1;
    ReportedTags(a.stopPolls[..polled])
  }

  /** The tags the polls for the available image report, up to the poll
      the wait ends on. */
  function ImageTags(a: RefreshAnswers): seq<Tag>
  {
    var polled := AwaitFrom("", Retention.Available, ImageReports(a.availablePolls), 0).1;
    PolledTags(a.availablePolls[..polled])
  }

  /** The tags the polls of a launched job report: those of the wait for
      the stopped state and, once the image exists, those of the wait for
      the image. */
  function LaterTags(a: RefreshAnswers): seq<Tag>
    requires a.run.Ok? && a.run.value != []
  {
    var p := ProgressOf(true, a);
    if p.stopped.Reached? && p.created then StopTags(a) + ImageTags(a) else StopTags(a)
  }

  /** Every tag a refresh job writes into its configuration's tag map, in
      order: the map is handed to the launched instance and on to its image,
      so the launch answer and every poll of either wait add to it. */
  function JobTags(hasAccount: bool, a: RefreshAnswers): seq<Tag>
  {
    if !hasAccount then []
    else if !ProgressOf(true, a).launched then LaunchTags(a)
    else LaunchTags(a) + LaterTags(a)
  }

  /** A refresh only adds to its configuration's tags: every key there
      before is there after, so the filters of the next `CleanUp`, launch
      and pruning cover at least the configured tags. */
  lemma RefreshKeepsTagKeys(m: map<string, string>, hasAccount: bool, a: RefreshAnswers)
    ensures m.Keys <= MergeTags(m, JobTags(hasAccount, a)).Keys
    ensures !hasAccount ==> MergeTags(m, JobTags(hasAccount, a)) == m
  {
    MergeTagsKeys(m, JobTags(hasAccount, a));
  }

  /** The forward steps come in the fixed order launch, wait for the
      stopped state, create the image, wait for the image; each runs exactly
      when every earlier one succeeded; no step runs twice. */
  lemma ForwardInOrder(p: Progress)
    ensures Forward(p) == [LaunchInstance, WaitForStoppedState, CreateAmi, WaitForAvailableState][..|Forward(p)|]
    ensures LaunchInstance in Steps(p) <==> p.hasAccount
    ensures WaitForStoppedState in Steps(p) <==> p.hasAccount && p.launched
    ensures CreateAmi in Steps(p) <==> p.hasAccount && p.launched && p.stopped.Reached?
    ensures WaitForAvailableState in Steps(p) <==> p.hasAccount && p.launched && p.stopped.Reached? && p.created
    ensures forall i, j :: 0 <= i < j < |Steps(p)| ==> Steps(p)[i] != Steps(p)[j]
  {
  }

  /** The launched instance is terminated once the job returns, however the
      later steps went, and termination is the last step. */
  lemma TerminateAfterLaunch(p: Progress)
    ensures Terminate in Steps(p) <==> p.hasAccount && p.launched && Finished(p)
    ensures Terminate in Steps(p) ==> Steps(p)[|Steps(p)| - 1] == Terminate
  {
  }

  /** Old images are pruned exactly when the image was created and the job
      returns, just before the instance is terminated; how the wait for the
      image ended does not matter. */
  lemma PruneAfterCreate(p: Progress, e: Error)
    ensures DeleteOldAmi in Steps(p) <==> p.hasAccount && p.launched && p.stopped.Reached? && p.created && Finished(p)
    ensures DeleteOldAmi in Steps(p) ==> |Steps(p)| >= 2 && Steps(p)[|Steps(p)| - 2] == DeleteOldAmi
    ensures Steps(p.(available := Reached)) == Steps(p.(available := Failed(e)))
  {
  }

  /** When every tagging attempt fails, the launched instance is never
      terminated by its job: `LaunchInstance` returns no instance to defer
      the termination on. */
  lemma TaggingFailureOrphans(hasAccount: bool, a: RefreshAnswers)
    requires a.run.Ok? && a.run.value != []
    requires forall t :: 0 <= t < |a.tagReplies| ==> a.tagReplies[t].Some?
    ensures var p := ProgressOf(hasAccount, a);
      && Terminate !in Steps(p) && (hasAccount ==> Steps(p) == [LaunchInstance] && JobFailed(p))
  {
  }

  /** Whether `CleanUp` terminates an instance reported at time `now`. */
  predicate Expired(x: Instance, now: int)
  {
    now - x.LaunchTime > MaxAge && x.State == Stopped
  }

  /** The termination requests for the expired instances of `xs`, in order. */
  function Terminations(xs: seq<Instance>, now: int): seq<ApiCall>
  {
    if xs == [] then []
    else Terminations(xs[..|xs| - 1], now)
         + (if Expired(xs[|xs| - 1], now) then [TerminateInstances([xs[|xs| - 1].InstanceId])] else [])
  }

  /** A termination is requested exactly for each expired instance, and for
      nothing else. */
  lemma {:induction false} TerminationsExactly(xs: seq<Instance>, now: int)
    ensures forall c :: c in Terminations(xs, now) <==>
      exists i :: 0 <= i < |xs| && Expired(xs[i], now) && c == TerminateInstances([xs[i].InstanceId])
    ensures |Terminations(xs, now)| <= |xs|
  {
    if xs != [] {
      var init := xs[..|xs| - 1];
      TerminationsExactly(init, now);
      forall c | c in Terminations(xs, now)
        ensures exists i :: 0 <= i < |xs| && Expired(xs[i], now) && c == TerminateInstances([xs[i].InstanceId])
      {
        if c !in Terminations(init, now) {
          assert Expired(xs[|xs| - 1], now) && c == TerminateInstances([xs[|xs| - 1].InstanceId]);
        } else {
          var i :| 0 <= i < |init| && Expired(init[i], now) && c == TerminateInstances([init[i].InstanceId]);
          assert xs[i] == init[i];
        }
      }
      forall c | exists i :: 0 <= i < |xs| && Expired(xs[i], now) && c == TerminateInstances([xs[i].InstanceId])
        ensures c in Terminations(xs, now)
      {
        var i :| 0 <= i < |xs| && Expired(xs[i], now) && c == TerminateInstances([xs[i].InstanceId]);
        if i < |init| {
          assert init[i] == xs[i];
        }
      }
    }
  }

  /** Terminates, in order, the records of `found` that mirror an expired
      instance of `xs`; the provider's answers are ignored. */
  method TerminateExpired(found: seq<AutoInstance>, ghost xs: seq<Instance>, now: int, reply: Option<Error>)
    returns (calls: seq<ApiCall>)
    requires |found| == |xs| && forall i :: 0 <= i < |found| ==> found[i].Mirrors(xs[i])
    ensures calls == Terminations(xs, now)
  {
    calls := [];
    for i := 0 to |found|
      invariant calls == Terminations(xs[..i], now)
    {
      assert xs[..i + 1][..i] == xs[..i];
      if now - found[i].LaunchTime > MaxAge && found[i].State == Stopped {
        var call, _ := found[i].Terminate(reply);
        calls := calls + [call];
      }
    }
    assert xs[..|found|] == xs;
  }

  /** The number of one-shot jobs (no cron expression) in `jobs`. */
  function OneShots(jobs: seq<Job>): nat
  {
    if jobs == [] then 0
    else OneShots(jobs[..|jobs| - 1]) + (if jobs[|jobs| - 1].project.Cron == "" then 1 else 0)
  }

  lemma {:induction false} OneShotsAppend(a: seq<Job>, b: seq<Job>)
    ensures OneShots(a + b) == OneShots(a) + OneShots(b)
    ensures OneShots(a + b) <= |a + b|
  {
    if b == [] {
      assert a + b == a;
      OneShotsBound(a);
    } else {
      var init := b[..|b| - 1];
      OneShotsAppend(a, init);
      assert (a + b)[..|a + b| - 1] == a + init;
    }
  }

  lemma {:induction false} OneShotsBound(jobs: seq<Job>)
    ensures OneShots(jobs) <= |jobs|
  {
    if jobs != [] {
      OneShotsBound(jobs[..|jobs| - 1]);
    }
  }

  /** The jobs of one project: all one-shot or all scheduled. */
  lemma {:induction false} OneShotsOfProject(p: Project, sources: seq<Source>)
    ensures OneShots(JobsFor(p, sources)) == if p.Cron == "" then |sources| else 0
  {
    if sources != [] {
      OneShotsOfProject(p, sources[..|sources| - 1]);
      assert JobsFor(p, sources)[..|sources| - 1] == JobsFor(p, sources[..|sources| - 1]);
    }
  }

  /** A job to start: a project and one source its filter selected. */
  datatype Job = Job(project: Project, source: Source)

  /** One job per source in `sources`, in order. */
  function JobsFor(p: Project, sources: seq<Source>): (r: seq<Job>)
    ensures |r| == |sources| && forall i :: 0 <= i < |r| ==> r[i] == Job(p, sources[i])
  {
    seq(|sources|, i requires 0 <= i < |sources| => Job(p, sources[i]))
  }

  /** Every name in `keys` is that of a stored project. */
  predicate Stored(keys: seq<string>, projects: map<string, Project>)
  {
    forall i :: 0 <= i < |keys| ==> keys[i] in projects
  }

  /** The jobs `StartEngine` starts for the projects named by `keys`, in
      that order: one per source the project's filter selects. */
  function Plan(keys: seq<string>, projects: map<string, Project>, sources: seq<Source>): seq<Job>
    requires Stored(keys, projects)
  {
    if keys == [] then []
    else
      var p := projects[keys[|keys| - 1]];
      Plan(keys[..|keys| - 1], projects, sources) + JobsFor(p, Selected(p.SourceFilter, sources))
  }

  /** The projects named by `keys`, in order. */
  function Named(keys: seq<string>, projects: map<string, Project>): (r: seq<Project>)
    requires Stored(keys, projects)
    ensures |r| == |keys| && forall i :: 0 <= i < |keys| ==> r[i] == projects[keys[i]]
  {
    seq(|keys|, i requires 0 <= i < |keys| => projects[keys[i]])
  }

  /** Naming one more project plans its jobs after the others. */
  lemma PlanSnoc(keys: seq<string>, k: string, projects: map<string, Project>, sources: seq<Source>)
    requires Stored(keys, projects)
    requires k in projects
    ensures Plan(keys + [k], projects, sources)
      == Plan(keys, projects, sources) + JobsFor(projects[k], Selected(projects[k].SourceFilter, sources))
  {
    assert (keys + [k])[..|keys|] == keys;
  }

  /** Every project named by `keys` names a stored script. */
  predicate ScriptsStored(keys: seq<string>, projects: map<string, Project>, userdatas: map<string, UserData>)
    requires Stored(keys, projects)
  {
    forall i :: 0 <= i < |keys| ==> projects[keys[i]].UserData in userdatas
  }

  lemma ScriptsStoredSnoc(keys: seq<string>, k: string, projects: map<string, Project>, userdatas: map<string, UserData>)
    requires Stored(keys, projects)
    requires k in projects && ScriptsStored(keys, projects, userdatas) && projects[k].UserData in userdatas
    ensures ScriptsStored(keys + [k], projects, userdatas)
  {
  }

  /** Every planned job pairs a named project with a stored source its
      filter selects, and every such pair is planned. */
  lemma {:induction false} PlanExactly(keys: seq<string>, projects: map<string, Project>, sources: seq<Source>)
    requires Stored(keys, projects)
    ensures forall j :: j in Plan(keys, projects, sources) <==>
      j.project in Named(keys, projects) && j.source in sources && Matches(j.project.SourceFilter, j.source)
  {
    if keys != [] {
      var init := keys[..|keys| - 1];
      var p := projects[keys[|keys| - 1]];
      var picked := Selected(p.SourceFilter, sources);
      PlanExactly(init, projects, sources);
      SelectedExactly(p.SourceFilter, sources);
      assert Named(keys, projects) == Named(init, projects) + [p];
      forall j: Job
        ensures j in JobsFor(p, picked) <==> j.project == p && j.source in picked
      {
        if j.project == p && j.source in picked {
          var k :| 0 <= k < |picked| && picked[k] == j.source;
          assert JobsFor(p, picked)[k] == j;
        }
      }
    }
  }

  /** The job `job` is configured for `j`: the account and the script the
      project names (a missing account becomes a nil account), the
      project's settings, its own copy of the project's tags, the selected
      source, no errors counted, and the storage's wait group. */
  ghost predicate Configured(job: AutoRefreshAmi, j: Job, accounts: map<string, Account>,
                             userdatas: map<string, UserData>, wg: WaitGroup)
    reads job, job.LaunchConfig, job.LaunchConfig.Tags
  {
    && j.project.UserData in userdatas
    && job.Account == (if j.project.Account in accounts then accounts[j.project.Account] else null)
    && job.LaunchConfig.UserData == userdatas[j.project.UserData].Bash
    && job.LaunchConfig.Source == j.source
    && job.LaunchConfig.InstanceType == j.project.InstanceType
    && job.LaunchConfig.Tags != null && job.LaunchConfig.Tags.entries == j.project.Tags
    && job.LaunchConfig.Ebs == j.project.EbsVolumes
    && job.RetentionCount == j.project.RetentionCount && job.Cron == j.project.Cron && job.Name == j.project.Name
    && job.ConfigErrors == 0 && job.waitGroup == wg
  }

  /** The steps of a job after its instance `instance` was launched and
      tagged: whether the job panicked, whether it returned, and the steps
      it took after the launch. */
  method AfterLaunch(instance: AutoInstance, name: string, owner: string, retentionCount: nat, a: RefreshAnswers)
    returns (steps: seq<Step>, failed: bool, finished: bool)
    requires a.run.Ok? && a.run.value != [] && exists t :: 0 <= t < |a.tagReplies| && a.tagReplies[t].None?
    requires instance.State == a.run.value[0].State && instance.Tags != null
    modifies instance, instance.Tags
    ensures var p := ProgressOf(true, a);
      && steps == Later(p) && failed == JobFailed(p) && finished == Finished(p)
    ensures instance.Tags == old(instance.Tags)
    ensures instance.Tags.entries == MergeTags(old(instance.Tags.entries), LaterTags(a))
  {
    steps := [WaitForStoppedState];
    var stopped := AwaitStopped(instance, a.stopPolls);
    failed, finished := false, true;
    if stopped.StillWaiting? {
      return steps, false, false;
    } else if stopped.Failed? {
      failed := true;
    } else {
      steps := steps + [CreateAmi];
      var ami := Snapshot(instance, name, a);
      if ami == null {
        failed := true;
      } else {
        var more;
        more, failed, finished := AwaitImage(ami, owner, retentionCount, a);
        MergeTagsAppend(old(instance.Tags.entries), StopTags(a), ImageTags(a));
        steps := steps + more;
        if !finished {
          return;
        }
      }
    }
    steps := steps + [Terminate];
    var _, _ := instance.Terminate(a.terminateReply);
  }

  /** The launch of a job's instance: the record of the launched and
      tagged instance, in the state the launch reports and holding the
      configuration's tag map (or a new one), or none when the launch or
      every tagging attempt failed. */
  method Launch(account: Account, config: LaunchConfig, a: RefreshAnswers) returns (instance: AutoInstance?)
    requires |a.tagReplies| == RetryCount
    modifies config.Tags
    ensures instance != null <==> ProgressOf(true, a).launched
    ensures instance != null ==>
      && fresh(instance) && instance.State == a.run.value[0].State && instance.Tags != null
      && (config.Tags != null ==> instance.Tags == config.Tags)
      && (config.Tags == null ==> fresh(instance.Tags))
    ensures config.Tags != null ==> config.Tags.entries == MergeTags(old(config.Tags.entries), LaunchTags(a))
  {
    var calls, err;
    instance, calls, err := account.LaunchInstance(config, a.run, a.tagReplies);
  }

  /** The wait of a launched instance for the stopped state; its tag map
      stays the same. */
  method AwaitStopped(instance: AutoInstance, polls: seq<Result<seq<Reservation>>>) returns (outcome: WaitOutcome)
    requires instance.Tags != null
    modifies instance, instance.Tags
    ensures outcome == AwaitFrom(old(instance.State), Stopped, InstanceReports(polls), 0).0
    ensures instance.Tags == old(instance.Tags)
    ensures instance.Tags.entries ==
      MergeTags(old(instance.Tags.entries), ReportedTags(polls[..AwaitFrom(old(instance.State), Stopped, InstanceReports(polls), 0).1]))
  {
    var polled, requests;
    outcome, polled, requests := instance.WaitForStoppedState(polls);
  }

  /** The image of a stopped instance: a new image record with no state,
      sharing the instance's tag map, or none when the provider refuses. */
  method Snapshot(instance: AutoInstance, name: string, a: RefreshAnswers) returns (ami: AutoAmi?)
    ensures ami != null <==> a.created.Ok?
    ensures ami != null ==> fresh(ami) && ami.State == "" && ami.Tags == instance.Tags
  {
    var calls, err;
    ami, calls, err := instance.CreateAmi(name, a.timestamp, a.created, a.imageTagReply);
  }

  /** The steps of a job after its image `ami` was created: the wait for
      the image and, once the job returns, the pruning of old images. */
  method AwaitImage(ami: AutoAmi, owner: string, retentionCount: nat, a: RefreshAnswers)
    returns (steps: seq<Step>, failed: bool, finished: bool)
    requires ami.State == "" && ami.Tags != null
    modifies ami, ami.Tags
    ensures ami.Tags == old(ami.Tags) && ami.Tags.entries == MergeTags(old(ami.Tags.entries), ImageTags(a))
    ensures var available := AwaitFrom("", Retention.Available, ImageReports(a.availablePolls), 0).0;
      && finished == !available.StillWaiting?
      && steps == (if finished then [WaitForAvailableState, DeleteOldAmi] else [WaitForAvailableState])
      && failed == (finished && (available.Failed? || a.listing.Err?))
  {
    steps := [WaitForAvailableState];
    var available, _, _ := ami.WaitForAvailableState(a.availablePolls);
    if available.StillWaiting? {
      return steps, false, false;
    }
    steps := steps + [DeleteOldAmi];
    var _, _, _, listErr := ami.DeleteOldAmi(owner, retentionCount, a.listing);
    failed, finished := available.Failed? || listErr.Some?, true;
  }

  /** The body of a refresh job that has an account: the steps it takes,
      whether it panicked and whether it returned, and the tags it merges
      into the configuration's tag map. */
  method RunJob(account: Account, config: LaunchConfig, name: string, retentionCount: nat, a: RefreshAnswers)
    returns (steps: seq<Step>, failed: bool, finished: bool)
    requires |a.tagReplies| == RetryCount
    modifies config.Tags
    ensures var p := ProgressOf(true, a);
      && steps == Steps(p) && failed == JobFailed(p) && finished == Finished(p)
    ensures config.Tags != null ==> config.Tags.entries == MergeTags(old(config.Tags.entries), JobTags(true, a))
  {
    failed, finished := false, true;
    var instance := Launch(account, config, a);
    if instance == null {
      return [LaunchInstance], true, true;
    }
    var rest;
    rest, failed, finished := AfterLaunch(instance, name, account.OwnerId, retentionCount, a);
    steps := [LaunchInstance] + rest;
    LaterIsSteps(ProgressOf(true, a));
    if config.Tags != null {
      MergeTagsAppend(old(config.Tags.entries), LaunchTags(a), LaterTags(a));
    }
  }

  /** One refresh job as the engine keeps it. */
  class AutoRefreshAmi {
    var Account: Account?
    var LaunchConfig: LaunchConfig
    var RetentionCount: nat
    var Cron: string
    var Name: string
    var ConfigErrors: int
    var waitGroup: WaitGroup

    constructor (account: Account?, launchConfig: LaunchConfig, retentionCount: nat, cron: string, name: string, wg: WaitGroup)
      ensures Account == account && LaunchConfig == launchConfig && RetentionCount == retentionCount
      ensures Cron == cron && Name == name && ConfigErrors == 0 && waitGroup == wg
    {
      Account, LaunchConfig, RetentionCount := account, launchConfig, retentionCount;
      Cron, Name, ConfigErrors, waitGroup := cron, name, 0, wg;
    }

    /** `Copy`: shares the account and the wait group, deep-copies the
        launch configuration (its own tag map and volume list) and starts
        with no errors counted. */
    method Copy() returns (c: AutoRefreshAmi)
      ensures fresh(c) && fresh(c.LaunchConfig) && fresh(c.LaunchConfig.Tags)
      ensures c.Account == Account && c.waitGroup == waitGroup && c.ConfigErrors == 0
      ensures c.RetentionCount == RetentionCount && c.Cron == Cron && c.Name == Name
      ensures c.LaunchConfig.UserData == LaunchConfig.UserData && c.LaunchConfig.Source == LaunchConfig.Source
      ensures c.LaunchConfig.InstanceType == LaunchConfig.InstanceType && c.LaunchConfig.Ebs == LaunchConfig.Ebs
      ensures c.LaunchConfig.Tags != null && c.LaunchConfig.Tags.entries == EntriesOf(LaunchConfig.Tags)
    {
      var config := LaunchConfig.Copy();
      c := new AutoRefreshAmi(Account, config, RetentionCount, Cron, Name, waitGroup);
    }

    /** `Validate`: the account must be set and valid, then the launch
        configuration valid, the retention count positive and the name set;
        the first failure is the error. An empty cron expression is allowed.
        A nil account fails on the nil dereference in `resetLogFields`,
        before the explicit check for it. */
    method Validate() returns (err: Option<Error>)
      modifies Account, LaunchConfig
      ensures Account == old(Account) && LaunchConfig == old(LaunchConfig)
      ensures old(Account) == null ==> err == Some(NilDereference("Account")) && unchanged(LaunchConfig)
      ensures old(Account) != null ==>
        && Account.Name == GoStrings.TrimSpace(old(Account.Name))
        && Account.AccessKeyId == GoStrings.TrimSpace(old(Account.AccessKeyId))
        && Account.OwnerId == GoStrings.TrimSpace(old(Account.OwnerId))
        && Account.SecretAccessKey == GoStrings.TrimSpace(old(Account.SecretAccessKey))
      ensures var accountOk := old(Account) != null
          && !GoStrings.AllSpace(old(Account.Name)) && !GoStrings.AllSpace(old(Account.AccessKeyId))
          && !GoStrings.AllSpace(old(Account.OwnerId)) && !GoStrings.AllSpace(old(Account.SecretAccessKey));
        var configMissing := MissingNames([("UserData", LaunchConfig.UserData), ("InstanceType", LaunchConfig.InstanceType)]);
        var configOk := LaunchConfig.UserData != "" && LaunchConfig.InstanceType != ""
          && !GoStrings.AllSpace(old(LaunchConfig.Source).AmiId) && |EntriesOf(LaunchConfig.Tags)| > 0;
        && (err.None? <==> accountOk && configOk && RetentionCount > 0 && Name != "")
        && (old(Account) != null && !accountOk ==>
              && err == Some(MissingFields("Account", MissingNames([("Name", Account.Name), ("AccessKeyId", Account.AccessKeyId),
                                                                     ("OwnerId", Account.OwnerId), ("SecretAccessKey", Account.SecretAccessKey)])))
              && unchanged(LaunchConfig))
        && (accountOk ==>
              && LaunchConfig.UserData == old(LaunchConfig.UserData) && LaunchConfig.InstanceType == old(LaunchConfig.InstanceType)
              && LaunchConfig.Tags == old(LaunchConfig.Tags) && LaunchConfig.Ebs == old(LaunchConfig.Ebs)
              && (configMissing != [] ==>
                    err == Some(MissingFields("LaunchConfig", configMissing)) && LaunchConfig.Source == old(LaunchConfig.Source))
              && (configMissing == [] ==> LaunchConfig.Source == TrimmedSource(old(LaunchConfig.Source)))
              && (configMissing == [] && GoStrings.AllSpace(old(LaunchConfig.Source).AmiId) ==>
                    err == Some(MissingFields("Source", ["AmiId"])))
              && (configMissing == [] && !GoStrings.AllSpace(old(LaunchConfig.Source).AmiId) && |EntriesOf(LaunchConfig.Tags)| == 0 ==>
                    err == Some(TagsMissing)))
        && (accountOk && configOk && RetentionCount == 0 ==> err == Some(RetentionCountZero))
        && (accountOk && configOk && RetentionCount > 0 && Name == "" ==> err == Some(NameMissing))
    {
      if Account == null {
        return Some(NilDereference("Account"));
      }
      err := Account.ValidateAndSetDefaults();
      if err.Some? {
        return;
      }
      err := LaunchConfig.Validate();
      if err.Some? {
        return;
      }
      if RetentionCount == 0 {
        return Some(RetentionCountZero);
      }
      if Name == "" {
        return Some(NameMissing);
      }
    }

    /** `Refresh`: runs the job against the answers `a` and returns the
        steps it took. A scheduled job adds itself to the wait group; a job
        that returns leaves it and, if it panicked, counts one error. */
    method Refresh(a: RefreshAnswers) returns (steps: seq<Step>)
      requires |a.tagReplies| == RetryCount
      modifies this, waitGroup, LaunchConfig.Tags
      ensures Account == old(Account) && LaunchConfig == old(LaunchConfig) && waitGroup == old(waitGroup)
      ensures RetentionCount == old(RetentionCount) && Cron == old(Cron) && Name == old(Name)
      ensures var p := ProgressOf(Account != null, a);
        && steps == Steps(p)
        && ConfigErrors == old(ConfigErrors) + (if JobFailed(p) then 1 else 0)
        && waitGroup.count == old(waitGroup.count) + (if Cron != "" then 1 else 0) - (if Finished(p) then 1 else 0)
      ensures LaunchConfig.Tags != null ==>
        LaunchConfig.Tags.entries == MergeTags(old(LaunchConfig.Tags.entries), JobTags(Account != null, a))
    {
      if Cron != "" {
        waitGroup.Add(1);
      }
      var failed, finished := false, true;
      steps := [];
      if Account == null {
        failed := true;
      } else {
        steps, failed, finished := RunJob(Account, LaunchConfig, Name, RetentionCount, a);
      }
      if finished {
        if failed {
          ConfigErrors := ConfigErrors + 1;
        }
        waitGroup.Done();
      }
    }

    /** `CleanUp`: lists the instances carrying the configuration's tags and
        terminates each one that is stopped and older than `MaxAge` at time
        `now`; the termination answers are ignored. `listing` is the
        `DescribeInstances` request, absent without an account. The job
        always returns, so it always leaves the wait group. */
    method CleanUp(answer: Result<seq<Reservation>>, now: int, terminateReply: Option<Error>)
      returns (listing: Option<ApiCall>, terminated: seq<ApiCall>)
      modifies this, waitGroup
      ensures Account == old(Account) && LaunchConfig == old(LaunchConfig) && waitGroup == old(waitGroup)
      ensures RetentionCount == old(RetentionCount) && Cron == old(Cron) && Name == old(Name)
      ensures waitGroup.count == old(waitGroup.count) + (if Cron != "" then 1 else 0) - 1
      ensures Account == null ==> listing == None
      ensures Account != null ==>
        && listing.Some? && listing.value.DescribeInstances? && listing.value.instanceIds == []
        && FiltersFor(listing.value.filters, old(EntriesOf(LaunchConfig.Tags)))
      ensures Account == null || answer.Err? ==> terminated == [] && ConfigErrors == old(ConfigErrors) + 1
      ensures Account != null && answer.Ok? ==>
        terminated == Terminations(Flatten(answer.value), now) && ConfigErrors == old(ConfigErrors)
    {
      ghost var tags := EntriesOf(LaunchConfig.Tags);
      if Cron != "" {
        waitGroup.Add(1);
      }
      listing, terminated := None, [];
      if Account == null {
        ConfigErrors := ConfigErrors + 1;
      } else {
        var found, call, err := Account.FindInstances(LaunchConfig, answer);
        assert FiltersFor(call.filters, tags);
        listing := Some(call);
        if err.Some? {
          ConfigErrors := ConfigErrors + 1;
        } else {
          terminated := TerminateExpired(found, Flatten(answer.value), now, terminateReply);
        }
      }
      waitGroup.Done();
    }
  }

  /** One job pair as `StartEngine` starts it: the wait group gains two for
      a one-shot job, then its `Refresh` and its `CleanUp` run. For a
      one-shot job the pair nets to zero once `Refresh` returns, so the final
      `Wait` is released; while its wait never ends, one stays counted. A
      scheduled run of the pair nets to zero the same way. */
  method RunPair(job: AutoRefreshAmi, a: RefreshAnswers, answer: Result<seq<Reservation>>, now: int, reply: Option<Error>)
    returns (steps: seq<Step>, terminated: seq<ApiCall>)
    requires |a.tagReplies| == RetryCount
    modifies job, job.waitGroup, job.LaunchConfig.Tags
    ensures job.waitGroup == old(job.waitGroup) && job.Cron == old(job.Cron)
    ensures var settled := old(job.waitGroup.count) + (if Finished(ProgressOf(job.Account != null, a)) then 0 else 1);
      job.waitGroup.count == settled
  {
    if job.Cron == "" {
      job.waitGroup.Add(2);
    }
    steps := job.Refresh(a);
    var listing;
    listing, terminated := job.CleanUp(answer, now, reply);
  }

  /** No two of `jobs` share the job record, its launch configuration or
      that configuration's tag map. */
  ghost predicate Unshared(jobs: seq<AutoRefreshAmi>)
    reads set t | 0 <= t < |jobs| :: jobs[t]
    reads set t | 0 <= t < |jobs| :: jobs[t].LaunchConfig
  {
    forall s, t :: 0 <= s < t < |jobs| ==>
      && jobs[s] != jobs[t] && jobs[s].LaunchConfig != jobs[t].LaunchConfig
      && jobs[s].LaunchConfig.Tags != jobs[t].LaunchConfig.Tags
  }

  /** Jobs without shared parts, followed by more such jobs none of whose
      parts occur among the first, have no shared parts. */
  lemma UnsharedJoin(jobs: seq<AutoRefreshAmi>, more: seq<AutoRefreshAmi>)
    requires Unshared(jobs) && Unshared(more)
    requires forall s, t :: 0 <= s < |jobs| && 0 <= t < |more| ==>
      && jobs[s] != more[t] && jobs[s].LaunchConfig != more[t].LaunchConfig
      && jobs[s].LaunchConfig.Tags != more[t].LaunchConfig.Tags
    ensures Unshared(jobs + more)
  {
    var all := jobs + more;
    forall s, t | 0 <= s < t < |all|
      ensures all[s] != all[t] && all[s].LaunchConfig != all[t].LaunchConfig
      ensures all[s].LaunchConfig.Tags != all[t].LaunchConfig.Tags
    {
      if t < |jobs| {
        assert all[s] == jobs[s] && all[t] == jobs[t];
      } else if s < |jobs| {
        assert all[s] == jobs[s] && all[t] == more[t - |jobs|];
      } else {
        assert all[s] == more[s - |jobs|] && all[t] == more[t - |jobs|];
      }
    }
  }

  /** A copy of the project's job `template` with `source` filled in,
      sharing no part with the jobs `earlier` made before it. */
  method JobFor(template: AutoRefreshAmi, project: Project, source: Source,
                ghost accounts: map<string, Account>, ghost userdatas: map<string, UserData>, wg: WaitGroup,
                ghost earlier: seq<AutoRefreshAmi>)
    returns (job: AutoRefreshAmi)
    requires Configured(template, Job(project, template.LaunchConfig.Source), accounts, userdatas, wg)
    requires Unshared(earlier)
    ensures fresh(job) && fresh(job.LaunchConfig) && fresh(job.LaunchConfig.Tags)
    ensures Configured(job, Job(project, source), accounts, userdatas, wg)
    ensures Unshared(earlier + [job])
  {
    job := template.Copy();
    job.LaunchConfig.Source := source;
    UnsharedJoin(earlier, [job]);
  }

  /** The jobs of one project: a copy of `template` per source in
      `matches`, with that source filled in; a one-shot job joins the wait
      group twice (for its `Refresh` and its `CleanUp`), a scheduled one
      registers two cron entries. */
  method ProjectJobs(template: AutoRefreshAmi, project: Project, matches: seq<Source>,
                     ghost accounts: map<string, Account>, ghost userdatas: map<string, UserData>, wg: WaitGroup)
    returns (jobs: seq<AutoRefreshAmi>, cronEntries: nat)
    requires Configured(template, Job(project, template.LaunchConfig.Source), accounts, userdatas, wg)
    modifies wg
    ensures |jobs| == |matches|
    ensures forall t :: 0 <= t < |jobs| ==>
      && fresh(jobs[t]) && fresh(jobs[t].LaunchConfig) && fresh(jobs[t].LaunchConfig.Tags)
      && Configured(jobs[t], Job(project, matches[t]), accounts, userdatas, wg)
    ensures Unshared(jobs)
    ensures wg.count == old(wg.count) + (if project.Cron == "" then 2 * |matches| else 0)
    ensures cronEntries == if project.Cron == "" then 0 else 2 * |matches|
  {
    jobs, cronEntries := [], 0;
    for i := 0 to |matches|
      invariant |jobs| == i
      invariant forall t :: 0 <= t < i ==>
        fresh(jobs[t]) && fresh(jobs[t].LaunchConfig) && fresh(jobs[t].LaunchConfig.Tags)
      invariant forall t :: 0 <= t < i ==> Configured(jobs[t], Job(project, matches[t]), accounts, userdatas, wg)
      invariant Unshared(jobs)
      invariant wg.count == old(wg.count) + (if project.Cron == "" then 2 * i else 0)
      invariant cronEntries == if project.Cron == "" then 0 else 2 * i
    {
      var job := JobFor(template, project, matches[i], accounts, userdatas, wg, jobs);
      if job.Cron == "" {
        wg.Add(2);
      } else {
        cronEntries := cronEntries + 2;
      }
      jobs := jobs + [job];
    }
  }

  /** Jobs configured for two plans, side by side, are configured for the
      two plans joined. */
  lemma ConfiguredJoin(jobs: seq<AutoRefreshAmi>, more: seq<AutoRefreshAmi>, plan: seq<Job>, extra: seq<Job>,
                       accounts: map<string, Account>, userdatas: map<string, UserData>, wg: WaitGroup)
    requires |jobs| == |plan| && |more| == |extra|
    requires forall t :: 0 <= t < |jobs| ==> Configured(jobs[t], plan[t], accounts, userdatas, wg)
    requires forall t :: 0 <= t < |more| ==> Configured(more[t], extra[t], accounts, userdatas, wg)
    ensures forall t :: 0 <= t < |jobs + more| ==> Configured((jobs + more)[t], (plan + extra)[t], accounts, userdatas, wg)
  {
    forall t | 0 <= t < |jobs + more|
      ensures Configured((jobs + more)[t], (plan + extra)[t], accounts, userdatas, wg)
    {
      if t >= |jobs| {
        assert (jobs + more)[t] == more[t - |jobs|] && (plan + extra)[t] == extra[t - |jobs|];
      }
    }
  }

  /** The jobs of the stored project `project`, configured from the
      storage's records. They share no part with each other nor with the
      jobs `earlier` built before them. */
  method JobsOfProject(cs: ConfigStorage, project: Project, ghost earlier: seq<AutoRefreshAmi>)
    returns (jobs: seq<AutoRefreshAmi>, cronEntries: nat)
    requires project.UserData in cs.userdatas && Unshared(earlier)
    modifies cs.GoWait
    ensures var planned := JobsFor(project, Selected(project.SourceFilter, cs.sources));
      && |jobs| == |planned|
      && (forall t :: 0 <= t < |jobs| ==>
            && fresh(jobs[t]) && fresh(jobs[t].LaunchConfig) && fresh(jobs[t].LaunchConfig.Tags)
            && Configured(jobs[t], planned[t], cs.accounts, cs.userdatas, cs.GoWait))
      && Unshared(jobs) && Unshared(earlier + jobs)
      && cs.GoWait.count == old(cs.GoWait.count) + 2 * OneShots(planned)
      && cronEntries == 2 * (|planned| - OneShots(planned))
  {
    var account: Account? := if project.Account in cs.accounts then cs.accounts[project.Account] else null;
    var tags := new TagMap(project.Tags);
    var config := new LaunchConfig(cs.userdatas[project.UserData].Bash, Source("", "", "", "", "", "", ""),
                                   project.InstanceType, tags, project.EbsVolumes);
    var template := new AutoRefreshAmi(account, config, project.RetentionCount, project.Cron, project.Name, cs.GoWait);
    var matches := FindSources(project.SourceFilter, cs.sources);
    jobs, cronEntries := ProjectJobs(template, project, matches, cs.accounts, cs.userdatas, cs.GoWait);
    OneShotsOfProject(project, matches);
    UnsharedJoin(earlier, jobs);
  }

  /** The jobs `jobs` planned as `plan` for the first `processed` projects
      of `order`, extended with those of the next project. */
  method AddProjectJobs(cs: ConfigStorage, order: seq<string>, processed: nat, ghost plan: seq<Job>,
                        jobs: seq<AutoRefreshAmi>, cronEntries: nat)
    returns (ghost plan': seq<Job>, jobs': seq<AutoRefreshAmi>, cronEntries': nat)
    requires processed < |order| && Stored(order, cs.projects)
    requires ScriptsStored(order[..processed], cs.projects, cs.userdatas)
    requires cs.projects[order[processed]].UserData in cs.userdatas
    requires plan == Plan(order[..processed], cs.projects, cs.sources) && |jobs| == |plan|
    requires forall t :: 0 <= t < |jobs| ==> Configured(jobs[t], plan[t], cs.accounts, cs.userdatas, cs.GoWait)
    requires cronEntries == 2 * (|plan| - OneShots(plan))
    requires Unshared(jobs)
    modifies cs.GoWait
    ensures plan' == Plan(order[..processed + 1], cs.projects, cs.sources) && |jobs'| == |plan'|
    ensures |jobs| <= |jobs'| && jobs'[..|jobs|] == jobs && Unshared(jobs')
    ensures forall t :: |jobs| <= t < |jobs'| ==>
      fresh(jobs'[t]) && fresh(jobs'[t].LaunchConfig) && fresh(jobs'[t].LaunchConfig.Tags)
    ensures ScriptsStored(order[..processed + 1], cs.projects, cs.userdatas)
    ensures forall t :: 0 <= t < |jobs'| ==> Configured(jobs'[t], plan'[t], cs.accounts, cs.userdatas, cs.GoWait)
    ensures cronEntries' == 2 * (|plan'| - OneShots(plan'))
    ensures cs.GoWait.count == old(cs.GoWait.count) + 2 * (OneShots(plan') - OneShots(plan))
  {
    ghost var keys := order[..processed];
    var k := order[processed];
    assert order[..processed + 1] == keys + [k];
    var project := cs.projects[k];
    var more, entries := JobsOfProject(cs, project, jobs);
    ghost var extra := JobsFor(project, Selected(project.SourceFilter, cs.sources));
    OneShotsAppend(plan, extra);
    PlanSnoc(keys, k, cs.projects, cs.sources);
    ConfiguredJoin(jobs, more, plan, extra, cs.accounts, cs.userdatas, cs.GoWait);
    ScriptsStoredSnoc(keys, k, cs.projects, cs.userdatas);
    plan', jobs', cronEntries' := plan + extra, jobs + more, cronEntries + entries;
  }

  /** `StartEngine`: builds the jobs of the stored projects, visiting them
      in `order`. Go visits every project once, in its map order; the model
      holds for any sequence of stored project names, that one included. A
      project naming an account that is not stored gets a nil account. A
      project naming a script that is not stored dereferences nil while its
      jobs are built, which ends the program: `processed` projects were
      handled before that. Blocking on the wait group, the cron runner and
      the signal handling are not modelled. */
  method StartEngine(cs: ConfigStorage, order: seq<string>)
    returns (jobs: seq<AutoRefreshAmi>, cronEntries: nat, processed: nat, err: Option<Error>)
    requires Stored(order, cs.projects)
    modifies cs.GoWait
    ensures processed <= |order|
    ensures ScriptsStored(order[..processed], cs.projects, cs.userdatas)
    ensures err.None? <==> processed == |order|
    ensures err.Some? ==> err == Some(NilDereference("UserData")) && cs.projects[order[processed]].UserData !in cs.userdatas
    ensures var plan := Plan(order[..processed], cs.projects, cs.sources);
      && |jobs| == |plan|
      && (forall t :: 0 <= t < |jobs| ==> Configured(jobs[t], plan[t], cs.accounts, cs.userdatas, cs.GoWait))
      && cs.GoWait.count == old(cs.GoWait.count) + 2 * OneShots(plan)
      && cronEntries == 2 * (|plan| - OneShots(plan))
    ensures Unshared(jobs)
  {
    jobs, cronEntries, processed, err := [], 0, 0, None;
    ghost var plan: seq<Job> := [];
    while processed < |order|
      invariant processed <= |order| && plan == Plan(order[..processed], cs.projects, cs.sources)
      invariant ScriptsStored(order[..processed], cs.projects, cs.userdatas)
      invariant |jobs| == |plan|
      invariant forall t :: 0 <= t < |jobs| ==> Configured(jobs[t], plan[t], cs.accounts, cs.userdatas, cs.GoWait)
      invariant cs.GoWait.count == old(cs.GoWait.count) + 2 * OneShots(plan)
      invariant cronEntries == 2 * (|jobs| - OneShots(plan))
      invariant Unshared(jobs)
    {
      var project := cs.projects[order[processed]];
      if project.UserData !in cs.userdatas {
        return jobs, cronEntries, processed, Some(NilDereference("UserData"));
      }
      plan, jobs, cronEntries := AddProjectJobs(cs, order, processed, plan, jobs, cronEntries);
      processed := processed + 1;
    }
  }
}

/** The launch configuration of a job and the instance it launches
    (autorefresh/instance.go). */
module Instances {
  import opened Errors
  import opened Ec2
  import opened GoStrings
  import opened Util
  import opened Config
  import opened Waiting
  import opened Ami

  const Stopped := "stopped"

  /** What a job launches: the script, the source AMI, the instance type,
      the tags and the disks. */
  class LaunchConfig {
    var UserData: string
    var Source: Source
    var InstanceType: string
    var Tags: TagMap?
    var Ebs: seq<EbsVolume>

    constructor (userData: string, source: Source, instanceType: string, tags: TagMap?, ebs: seq<EbsVolume>)
      ensures UserData == userData && Source == source && InstanceType == instanceType
      ensures Tags == tags && Ebs == ebs
    {
      UserData, Source, InstanceType := userData, source, instanceType;
      Tags, Ebs := tags, ebs;
    }

    /** A deep copy: equal fields, a freshly allocated tag map with the same
        entries, and the volumes copied one by one in order. */
    method Copy() returns (c: LaunchConfig)
      ensures fresh(c) && fresh(c.Tags)
      ensures c.UserData == UserData && c.Source == Source && c.InstanceType == InstanceType
      ensures c.Tags != null && c.Tags.entries == EntriesOf(Tags)
      ensures c.Ebs == Ebs
    {
      var tags := CopyMap(Tags);
      var ebs: seq<EbsVolume> := [];
      for i := 0 to |Ebs|
        invariant ebs == Ebs[..i]
      {
        ebs := ebs + [Ebs[i]];
      }
      assert Ebs[..|Ebs|] == Ebs;
      c := new LaunchConfig(UserData, Source, InstanceType, tags, ebs);
    }

    /** `validate`: UserData and InstanceType must be set (checked as given,
        reported together in that order); then the source is validated, which
        trims it in place; then the tag map must not be empty. */
    method Validate() returns (err: Option<Error>)
      modifies this
      ensures UserData == old(UserData) && InstanceType == old(InstanceType) && Tags == old(Tags) && Ebs == old(Ebs)
      ensures var missing := MissingNames([("UserData", UserData), ("InstanceType", InstanceType)]);
        && (missing != [] ==> err == Some(MissingFields("LaunchConfig", missing)) && Source == old(Source))
        && (missing == [] ==> Source == TrimmedSource(old(Source)))
        && (missing == [] && AllSpace(old(Source).AmiId) ==> err == Some(MissingFields("Source", ["AmiId"])))
      ensures err.None? <==>
        UserData != "" && InstanceType != "" && !AllSpace(old(Source).AmiId) && |EntriesOf(Tags)| > 0
      ensures err.Some? && UserData != "" && InstanceType != "" && !AllSpace(old(Source).AmiId) ==> err == Some(TagsMissing)
    {
      var missing := CollectMissing([("UserData", UserData), ("InstanceType", InstanceType)]);
      MissingNamesNone([("UserData", UserData), ("InstanceType", InstanceType)]);
      if missing != [] {
        return Some(MissingFields("LaunchConfig", missing));
      }
      var source, sourceErr := ValidateSource(Source);
      Source := source;
      if sourceErr.Some? {
        return sourceErr;
      }
      if |EntriesOf(Tags)| == 0 {
        return Some(TagsMissing);
      }
      return None;
    }
  }

  /** What one `DescribeInstances` poll reports: the state of the first
      instance of the first reservation, the call's error, or an index panic
      when either list is empty. */
  function InstanceReport(answer: Result<seq<Reservation>>): Result<string>
  {
    if answer.Err? then Err(answer.error)
    else if answer.value == [] then Err(IndexOutOfRange("Reservations"))
    else if answer.value[0].Instances == [] then Err(IndexOutOfRange("Instances"))
    else Ok(answer.value[0].Instances[0].State)
  }

  function InstanceReports(polls: seq<Result<seq<Reservation>>>): (r: seq<Result<string>>)
    ensures |r| == |polls| && forall i :: 0 <= i < |polls| ==> r[i] == InstanceReport(polls[i])
  {
    seq(|polls|, i requires 0 <= i < |polls| => InstanceReport(polls[i]))
  }

  /** The id of the record after `IsStopped` reads `answer`: the reported
      instance's id, or `id` unchanged when there is no report. */
  function PolledId(id: string, answer: Result<seq<Reservation>>): string
  {
    if InstanceReport(answer).Ok? then answer.value[0].Instances[0].InstanceId else id
  }

  /** The id of the record after reading the answers `polls` in turn,
      starting from `id`. */
  function IdAfterPolls(id: string, polls: seq<Result<seq<Reservation>>>): string
  {
    if polls == [] then id else PolledId(IdAfterPolls(id, polls[..|polls| - 1]), polls[|polls| - 1])
  }

  /** `requests` are the `DescribeInstances` calls of the polls answered by
      `polls`, each for the id the record holds when it is sent. */
  ghost predicate PollRequests(requests: seq<ApiCall>, id: string, polls: seq<Result<seq<Reservation>>>)
  {
    && |requests| == |polls|
    && forall t :: 0 <= t < |polls| ==> requests[t] == DescribeInstances([IdAfterPolls(id, polls[..t])], [])
  }

  /** One more poll adds the request for the current id, and moves the id. */
  lemma PollRequestsStep(requests: seq<ApiCall>, id: string, polls: seq<Result<seq<Reservation>>>, n: nat)
    requires n < |polls| && PollRequests(requests, id, polls[..n])
    ensures PollRequests(requests + [DescribeInstances([IdAfterPolls(id, polls[..n])], [])], id, polls[..n + 1])
    ensures IdAfterPolls(id, polls[..n + 1]) == PolledId(IdAfterPolls(id, polls[..n]), polls[n])
  {
    assert polls[..n + 1][..n] == polls[..n];
    forall t | 0 <= t < n
      ensures polls[..n + 1][..t] == polls[..n][..t]
    {
    }
  }

  /** The tags of the instance an answer delivers; an answer without one
      delivers none. */
  function InstanceTags(answer: Result<seq<Reservation>>): seq<Tag>
  {
    if InstanceReport(answer).Ok? then answer.value[0].Instances[0].Tags else []
  }

  /** The tags the answers `polls` deliver, in order. */
  function ReportedTags(polls: seq<Result<seq<Reservation>>>): seq<Tag>
  {
    if polls == [] then [] else ReportedTags(polls[..|polls| - 1]) + InstanceTags(polls[|polls| - 1])
  }

  lemma ReportedTagsStep(polls: seq<Result<seq<Reservation>>>, n: nat)
    requires n < |polls|
    ensures ReportedTags(polls[..n + 1]) == ReportedTags(polls[..n]) + InstanceTags(polls[n])
  {
    assert polls[..n + 1][..n] == polls[..n];
  }

  /** An instance the engine launched or found. `LaunchTime` is in
      nanoseconds. */
  class AutoInstance {
    var Id: string
    var ImageId: string
    var LaunchTime: int
    var State: string
    var Tags: TagMap?
    var Region: string

    /** `AutoInstance{}`: every field at its zero value. */
    constructor ()
      ensures Id == "" && ImageId == "" && LaunchTime == 0 && State == "" && Tags == null && Region == ""
    {
      Id, ImageId, LaunchTime, State, Tags, Region := "", "", 0, "", null, "";
    }

    /** The describe fields of this record are those of `instance`. */
    ghost predicate Mirrors(instance: Instance)
      reads this
    {
      Id == instance.InstanceId && LaunchTime == instance.LaunchTime && ImageId == instance.ImageId && State == instance.State
    }

    /** Copies the describe fields of `instance` and merges its tags into the
        tag map, creating the map when there is none. The region is kept. */
    method Update(instance: Instance)
      modifies this, Tags
      ensures Mirrors(instance) && Region == old(Region)
      ensures Tags != null && (old(Tags) != null ==> Tags == old(Tags)) && (old(Tags) == null ==> fresh(Tags))
      ensures Tags.entries == MergeTags(old(EntriesOf(Tags)), instance.Tags)
    {
      Id := instance.InstanceId;
      LaunchTime := instance.LaunchTime;
      ImageId := instance.ImageId;
      State := instance.State;
      if Tags == null {
        Tags := new TagMap(map[]);
      }
      Tags.Merge(instance.Tags);
    }

    /** The `CreateTags` request that puts this instance's tags on it, and
        the provider's answer `reply` passed back. */
    method TagInstance(reply: Option<Error>) returns (call: ApiCall, err: Option<Error>)
      ensures TagsRequest(call, Id, EntriesOf(Tags)) && |call.tags.Tags| == |EntriesOf(Tags)|
      ensures err == reply
    {
      call := TagsCall(Id, EntriesOf(Tags));
      err := reply;
    }

    /** `IsStopped`: one `DescribeInstances` call for this instance, answered
        by `answer`; a report refreshes the record from the instance. */
    method IsStopped(answer: Result<seq<Reservation>>) returns (call: ApiCall, stopped: bool, err: Option<Error>)
      modifies this, Tags
      ensures call == DescribeInstances([old(Id)], [])
      ensures Id == PolledId(old(Id), answer)
      ensures InstanceReport(answer).Err? ==> err == Some(InstanceReport(answer).error) && !stopped && unchanged(this)
      ensures InstanceReport(answer).Ok? ==>
        err == None && Mirrors(answer.value[0].Instances[0]) && (stopped <==> State == Stopped)
      ensures Region == old(Region)
      ensures EntriesOf(Tags) == MergeTags(old(EntriesOf(Tags)), InstanceTags(answer))
      ensures old(Tags) != null ==> Tags == old(Tags)
      ensures old(Tags) == null ==> Tags == null || fresh(Tags)
    {
      call := DescribeInstances([Id], []);
      if InstanceReport(answer).Err? {
        return call, false, Some(InstanceReport(answer).error);
      }
      Update(answer.value[0].Instances[0]);
      stopped, err := State == Stopped, None;
    }

    /** Polls `DescribeInstances` until the instance is stopped, using the
        answers `polls` in order; `polled` is the number of calls made and
        `requests` the calls themselves, each for the id the record holds
        when it is sent. */
    method WaitForStoppedState(polls: seq<Result<seq<Reservation>>>)
      returns (outcome: WaitOutcome, polled: nat, requests: seq<ApiCall>)
      modifies this, Tags
      ensures polled <= |polls| && PollRequests(requests, old(Id), polls[..polled])
      ensures Id == IdAfterPolls(old(Id), polls[..polled])
      ensures (outcome, polled) == AwaitFrom(old(State), Stopped, InstanceReports(polls), 0)
      ensures outcome.Reached? ==> State == Stopped
      ensures Region == old(Region)
      ensures EntriesOf(Tags) == MergeTags(old(EntriesOf(Tags)), ReportedTags(polls[..polled]))
      ensures old(Tags) != null ==> Tags == old(Tags)
      ensures old(Tags) == null ==> Tags == null || fresh(Tags)
    {
      ghost var state0 := State;
      ghost var entries0 := EntriesOf(Tags);
      ghost var tags0 := Tags;
      ghost var reports := InstanceReports(polls);
      ghost var id0 := Id;
      polled, requests := 0, [];
      while State != Stopped
        invariant polled <= |polls| && PollRequests(requests, id0, polls[..polled])
        invariant Id == IdAfterPolls(id0, polls[..polled])
        invariant AwaitFrom(state0, Stopped, reports, 0) == AwaitFrom(State, Stopped, reports, polled)
        invariant Region == old(Region)
        invariant EntriesOf(Tags) == MergeTags(entries0, ReportedTags(polls[..polled]))
        invariant tags0 != null ==> Tags == tags0
        invariant tags0 == null ==> Tags == null || fresh(Tags)
        decreases |polls| - polled
      {
        if polled == |polls| {
          outcome := StillWaiting;
          return;
        }
        var answer := polls[polled];
        AwaitStep(State, Stopped, reports, polled);
        assert reports[polled] == InstanceReport(answer);
        ReportedTagsStep(polls, polled);
        var call, _, err := IsStopped(answer);
        MergeTagsAppend(entries0, ReportedTags(polls[..polled]), InstanceTags(answer));
        PollRequestsStep(requests, id0, polls, polled);
        requests := requests + [call];
        polled := polled + 1;
        if err.Some? {
          outcome := Failed(err.value);
          return;
        }
      }
      outcome := Reached;
    }

    /** Creates an image of this instance named `name` followed by a space
        and the formatted creation time `timestamp`. The new image record
        shares this instance's tag map and region. `reply` is the provider's
        answer to `CreateImage` (the new image id); the image is then tagged,
        and the tagging answer `tagReply` is ignored. */
    method CreateAmi(name: string, timestamp: string, reply: Result<string>, tagReply: Option<Error>)
      returns (ami: AutoAmi?, calls: seq<ApiCall>, err: Option<Error>)
      ensures |calls| >= 1 && calls[0] == CreateImage(CreateImageInput(name + " " + timestamp, name + " " + timestamp, Id))
      ensures reply.Err? ==> ami == null && err == Some(reply.error) && |calls| == 1
      ensures reply.Ok? ==> err == None && ami != null && fresh(ami) && |calls| == 2
      ensures ami != null ==>
        && ami.Id == reply.value && ami.Name == name + " " + timestamp && ami.Region == Region && ami.Tags == Tags
        && ami.State == "" && ami.Description == "" && ami.Architecture == "" && ami.CreationDate == ""
        && TagsRequest(calls[1], ami.Id, EntriesOf(Tags))
    {
      var image := new AutoAmi();
      image.Region := Region;
      image.Tags := Tags;
      image.Name := name + " " + timestamp;
      calls := [CreateImage(CreateImageInput(image.Name, image.Name, Id))];
      if reply.Err? {
        return null, calls, Some(reply.error);
      }
      image.Id := reply.value;
      var tagCall, _ := image.TagImage(tagReply);
      calls := calls + [tagCall];
      ami, err := image, None;
    }

    /** The `TerminateInstances` request for this instance, and the provider's
        answer `reply` passed back. */
    method Terminate(reply: Option<Error>) returns (call: ApiCall, err: Option<Error>)
      ensures call == TerminateInstances([Id])
      ensures err == reply
    {
      call := TerminateInstances([Id]);
      err := reply;
    }
  }
}

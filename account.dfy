/** A provider account and the instance operations made with its credentials
    (autorefresh/account.go). Opening a connection to a region is not
    modelled: every provider answer is a parameter. */
module Accounts {
  import opened Errors
  import opened Ec2
  import opened GoStrings
  import opened Util
  import opened Config
  import opened Encoding
  import opened Instances

  /** How many times `LaunchInstance` tries to tag a new instance. */
  const RetryCount := 10

  /** The block-device mapping of one configured volume. */
  function Mapping(v: EbsVolume): BlockDeviceMapping
  {
    BlockDeviceMapping(v.DeviceName, EbsBlockDevice(v.DeleteOnTermination, v.VolumeSize, v.VolumeType))
  }

  /** The number of tagging attempts made when the attempts are answered by
      `replies` in order: up to and including the first success, or all of
      them when none succeeds. */
  function Attempts(replies: seq<Option<Error>>): (n: nat)
    ensures n <= |replies| && (replies != [] ==> 1 <= n)
  {
    if replies == [] then 0
    else if replies[0].None? then 1
    else 1 + Attempts(replies[1..])
  }

  /** The attempts stop at the first success: every earlier attempt failed,
      and the last one made succeeded unless every attempt was made. */
  lemma {:induction false} AttemptsStop(replies: seq<Option<Error>>)
    ensures forall t :: 0 <= t < Attempts(replies) - 1 ==> replies[t].Some?
    ensures Attempts(replies) < |replies| ==> replies[Attempts(replies) - 1].None?
    ensures (exists t :: 0 <= t < |replies| && replies[t].None?) <==>
            Attempts(replies) >= 1 && replies[Attempts(replies) - 1].None?
  {
    if replies != [] && replies[0].Some? {
      AttemptsStop(replies[1..]);
      assert forall t :: 1 <= t < |replies| ==> replies[t] == replies[1..][t - 1];
      if exists t :: 0 <= t < |replies| && replies[t].None? {
        var t :| 0 <= t < |replies| && replies[t].None?;
        assert replies[1..][t - 1].None?;
      }
    }
  }

  /** `Attempts` pinned down by the attempts a loop made. */
  lemma {:induction false} AttemptsExact(replies: seq<Option<Error>>, n: nat)
    requires 1 <= n <= |replies|
    requires forall t :: 0 <= t < n - 1 ==> replies[t].Some?
    requires replies[n - 1].None? || n == |replies|
    ensures Attempts(replies) == n
  {
    if n > 1 {
      assert forall t :: 0 <= t < n - 2 ==> replies[1..][t] == replies[t + 1];
      AttemptsExact(replies[1..], n - 1);
    }
  }

  /** The instances of the reservations, reservation by reservation. */
  function Flatten(rs: seq<Reservation>): seq<Instance>
  {
    if rs == [] then [] else Flatten(rs[..|rs| - 1]) + rs[|rs| - 1].Instances
  }

  /** An instance is listed exactly when some reservation lists it, and the
      listing is as long as all reservations together. */
  lemma {:induction false} FlattenLists(rs: seq<Reservation>)
    ensures forall x :: x in Flatten(rs) <==> exists r :: 0 <= r < |rs| && x in rs[r].Instances
    ensures |Flatten(rs)| == Total(rs)
  {
    if rs != [] {
      var init := rs[..|rs| - 1];
      FlattenLists(init);
      assert forall r :: 0 <= r < |init| ==> init[r] == rs[r];
      forall x | x in Flatten(rs)
        ensures exists r :: 0 <= r < |rs| && x in rs[r].Instances
      {
        if x !in rs[|rs| - 1].Instances {
          var r :| 0 <= r < |init| && x in init[r].Instances;
          assert x in rs[r].Instances;
        }
      }
    }
  }

  /** The number of instances over all reservations. */
  function Total(rs: seq<Reservation>): nat
  {
    if rs == [] then 0 else Total(rs[..|rs| - 1]) + |rs[|rs| - 1].Instances|
  }

  /** The credentials of one provider account. */
  class Account {
    var Name: string
    var AccessKeyId: string
    var OwnerId: string
    var SecretAccessKey: string

    constructor (name: string, accessKeyId: string, ownerId: string, secretAccessKey: string)
      ensures Name == name && AccessKeyId == accessKeyId && OwnerId == ownerId && SecretAccessKey == secretAccessKey
    {
      Name, AccessKeyId, OwnerId, SecretAccessKey := name, accessKeyId, ownerId, secretAccessKey;
    }

    /** `validateAndSetDefaults`: trims the four fields in place; every one
        of them is mandatory and the empty ones are reported in field order. */
    method ValidateAndSetDefaults() returns (err: Option<Error>)
      modifies this
      ensures Name == TrimSpace(old(Name)) && AccessKeyId == TrimSpace(old(AccessKeyId))
      ensures OwnerId == TrimSpace(old(OwnerId)) && SecretAccessKey == TrimSpace(old(SecretAccessKey))
      ensures var missing := MissingNames([("Name", Name), ("AccessKeyId", AccessKeyId), ("OwnerId", OwnerId), ("SecretAccessKey", SecretAccessKey)]);
        err == if missing == [] then None else Some(MissingFields("Account", missing))
      ensures err.None? <==>
        !AllSpace(old(Name)) && !AllSpace(old(AccessKeyId)) && !AllSpace(old(OwnerId)) && !AllSpace(old(SecretAccessKey))
    {
      TrimSpaceEmpty(Name);
      TrimSpaceEmpty(AccessKeyId);
      TrimSpaceEmpty(OwnerId);
      TrimSpaceEmpty(SecretAccessKey);
      Name := TrimSpace(Name);
      AccessKeyId := TrimSpace(AccessKeyId);
      OwnerId := TrimSpace(OwnerId);
      SecretAccessKey := TrimSpace(SecretAccessKey);
      var fields := [("Name", Name), ("AccessKeyId", AccessKeyId), ("OwnerId", OwnerId), ("SecretAccessKey", SecretAccessKey)];
      var missing := CollectMissing(fields);
      MissingNamesOfFour("Name", Name, "AccessKeyId", AccessKeyId, "OwnerId", OwnerId, "SecretAccessKey", SecretAccessKey);
      if missing != [] {
        return Some(MissingFields("Account", missing));
      }
      return None;
    }

    /** `LaunchInstance`: one `RunInstances` request built from `config`,
        answered by `run`; then up to `RetryCount` tagging attempts, answered
        by `tagReplies` in order. The new instance record takes the
        configuration's tag map, so the tags of the launched instance are
        merged into `config.Tags` when the configuration has a map. */
    method LaunchInstance(config: LaunchConfig, run: Result<seq<Instance>>, tagReplies: seq<Option<Error>>)
      returns (instance: AutoInstance?, calls: seq<ApiCall>, err: Option<Error>)
      requires |tagReplies| == RetryCount
      modifies config.Tags
      ensures |calls| >= 1 && calls[0] == RunInstances(RunInstancesInput(
        old(config.Source.AmiId), old(config.InstanceType), UserDataPayload(old(config.UserData)), 1, 1,
        seq(|old(config.Ebs)|, i requires 0 <= i < |old(config.Ebs)| => Mapping(old(config.Ebs)[i]))))
      ensures run.Err? ==> instance == null && err == Some(run.error) && |calls| == 1 && EntriesOf(config.Tags) == old(EntriesOf(config.Tags))
      ensures run.Ok? && run.value == [] ==>
        instance == null && err == Some(IndexOutOfRange("Instances")) && |calls| == 1 && EntriesOf(config.Tags) == old(EntriesOf(config.Tags))
      ensures run.Ok? && run.value != [] ==>
        var launched := run.value[0];
        var merged := MergeTags(old(EntriesOf(config.Tags)), launched.Tags);
        && |calls| == 1 + Attempts(tagReplies)
        && (forall t :: 1 <= t < |calls| ==> TagsRequest(calls[t], launched.InstanceId, merged) && |calls[t].tags.Tags| == |merged|)
        && (config.Tags != null ==> config.Tags.entries == merged)
        && (err.None? <==> exists t :: 0 <= t < RetryCount && tagReplies[t].None?)
        && (err.Some? ==> err == tagReplies[RetryCount - 1])
        && (err.None? ==>
              && instance != null && fresh(instance) && instance.Mirrors(launched)
              && instance.Region == old(config.Source.Region) && instance.Tags != null
              && (config.Tags != null ==> instance.Tags == config.Tags)
              && (config.Tags == null ==> fresh(instance.Tags)) && instance.Tags.entries == merged)
        && (err.Some? ==> instance == null)
    {
      var mappings := DeviceMappings(config.Ebs);
      var input := RunInstancesInput(config.Source.AmiId, config.InstanceType, UserDataPayload(config.UserData), 1, 1, mappings);
      calls := [RunInstances(input)];
      if run.Err? {
        return null, calls, Some(run.error);
      }
      if run.value == [] {
        return null, calls, Some(IndexOutOfRange("Instances"));
      }
      var launched := LaunchedRecord(config.Source.Region, config.Tags, run.value[0]);
      var tagCalls, tagErr := TagWithRetries(launched, tagReplies);
      calls := calls + tagCalls;
      if tagErr.Some? {
        return null, calls, tagErr;
      }
      instance, err := launched, None;
    }

    /** `FindInstances`: one `DescribeInstances` request filtering on every
        tag of `config`, answered by `answer`; a record per instance, across
        the reservations in order. */
    method FindInstances(config: LaunchConfig, answer: Result<seq<Reservation>>)
      returns (found: seq<AutoInstance>, call: ApiCall, err: Option<Error>)
      ensures call.DescribeInstances? && call.instanceIds == [] && FiltersFor(call.filters, EntriesOf(config.Tags))
      ensures answer.Err? ==> err == Some(answer.error) && found == []
      ensures answer.Ok? ==> err == None && |found| == |Flatten(answer.value)|
      ensures answer.Ok? ==> forall i :: 0 <= i < |found| ==>
        fresh(found[i]) && found[i].Mirrors(Flatten(answer.value)[i]) && found[i].Region == "" &&
        found[i].Tags != null && fresh(found[i].Tags) && found[i].Tags.entries == MergeTags(map[], Flatten(answer.value)[i].Tags)
    {
      var filters := TagFilters(EntriesOf(config.Tags));
      call := DescribeInstances([], filters);
      found := [];
      if answer.Err? {
        return found, call, Some(answer.error);
      }
      found := FoundAcross(answer.value);
      err := None;
    }
  }

  /** The record of a just launched instance: the region of the source, the
      configuration's tag map (a new one when there is none), refreshed from
      the provider's description of the instance. */
  method LaunchedRecord(region: string, tags: TagMap?, launched: Instance) returns (instance: AutoInstance)
    modifies tags
    ensures fresh(instance) && instance.Mirrors(launched) && instance.Region == region
    ensures instance.Tags != null && (tags != null ==> instance.Tags == tags) && (tags == null ==> fresh(instance.Tags))
    ensures instance.Tags.entries == MergeTags(old(EntriesOf(tags)), launched.Tags)
  {
    instance := new AutoInstance();
    instance.Region := region;
    instance.Tags := tags;
    instance.Update(launched);
  }

  /** The block-device mappings of the configured volumes, in order. */
  method DeviceMappings(ebs: seq<EbsVolume>) returns (mappings: seq<BlockDeviceMapping>)
    ensures |mappings| == |ebs|
    ensures forall i :: 0 <= i < |ebs| ==> mappings[i] == Mapping(ebs[i])
  {
    mappings := [];
    for i := 0 to |ebs|
      invariant |mappings| == i
      invariant forall j :: 0 <= j < i ==> mappings[j] == Mapping(ebs[j])
    {
      mappings := mappings + [Mapping(ebs[i])];
    }
  }

  /** The tagging loop of `LaunchInstance`: `TagInstance` is called until one
      call succeeds, at most `RetryCount` times; the error of the last
      attempt is returned when all fail. */
  method TagWithRetries(instance: AutoInstance, replies: seq<Option<Error>>) returns (calls: seq<ApiCall>, err: Option<Error>)
    requires |replies| == RetryCount
    ensures |calls| == Attempts(replies)
    ensures forall t :: 0 <= t < |calls| ==> TagsRequest(calls[t], instance.Id, EntriesOf(instance.Tags)) && |calls[t].tags.Tags| == |EntriesOf(instance.Tags)|
    ensures err.None? <==> exists t :: 0 <= t < RetryCount && replies[t].None?
    ensures err.Some? ==> err == replies[RetryCount - 1]
  {
    calls := [];
    var i := 0;
    err := Some(ApiError(""));
    while i < RetryCount
      invariant 0 <= i <= RetryCount && |calls| == i
      invariant forall t :: 0 <= t < i ==> replies[t].Some?
      invariant forall t :: 0 <= t < i ==> TagsRequest(calls[t], instance.Id, EntriesOf(instance.Tags)) && |calls[t].tags.Tags| == |EntriesOf(instance.Tags)|
      invariant i > 0 ==> err == replies[i - 1]
    {
      var call;
      call, err := instance.TagInstance(replies[i]);
      calls := calls + [call];
      i := i + 1;
      if err.None? {
        AttemptsExact(replies, i);
        return;
      }
    }
    AttemptsExact(replies, RetryCount);
    assert forall t :: 0 <= t < RetryCount ==> replies[t].Some?;
  }

  /** One record per instance of the reservations, in order. */
  method FoundAcross(rs: seq<Reservation>) returns (found: seq<AutoInstance>)
    ensures |found| == |Flatten(rs)|
    ensures forall i :: 0 <= i < |found| ==>
      fresh(found[i]) && found[i].Mirrors(Flatten(rs)[i]) && found[i].Region == "" &&
      found[i].Tags != null && fresh(found[i].Tags) && found[i].Tags.entries == MergeTags(map[], Flatten(rs)[i].Tags)
  {
    found := [];
    for r := 0 to |rs|
      invariant |found| == |Flatten(rs[..r])|
      invariant forall i :: 0 <= i < |found| ==>
        fresh(found[i]) && found[i].Mirrors(Flatten(rs[..r])[i]) && found[i].Region == "" &&
        found[i].Tags != null && fresh(found[i].Tags) && found[i].Tags.entries == MergeTags(map[], Flatten(rs[..r])[i].Tags)
    {
      assert rs[..r + 1][..r] == rs[..r];
      assert Flatten(rs[..r + 1]) == Flatten(rs[..r]) + rs[r].Instances;
      var more := FoundIn(rs[r].Instances);
      found := found + more;
    }
    assert rs[..|rs|] == rs;
  }

  /** One record per instance, in order. */
  method FoundIn(instances: seq<Instance>) returns (found: seq<AutoInstance>)
    ensures |found| == |instances|
    ensures forall i :: 0 <= i < |found| ==>
      fresh(found[i]) && found[i].Mirrors(instances[i]) && found[i].Region == "" &&
      found[i].Tags != null && fresh(found[i].Tags) && found[i].Tags.entries == MergeTags(map[], instances[i].Tags)
  {
    found := [];
    for i := 0 to |instances|
      invariant |found| == i
      invariant forall j :: 0 <= j < i ==>
        fresh(found[j]) && found[j].Mirrors(instances[j]) && found[j].Region == "" &&
        found[j].Tags != null && fresh(found[j].Tags) && found[j].Tags.entries == MergeTags(map[], instances[j].Tags)
    {
      var record := new AutoInstance();
      record.Update(instances[i]);
      found := found + [record];
    }
  }
}

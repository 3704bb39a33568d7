/** The images the engine creates (`AutoAmi` in autorefresh/ami.go): refresh
    from a describe answer, wait until available, tag, and retire old images
    beyond the retention count. */
module Ami {
  import opened Errors
  import opened Ec2
  import opened GoStrings
  import opened Util
  import opened Retention
  import opened Waiting

  /** `ByTimeReverse`: no image is followed by a strictly newer one. */
  ghost predicate NewestFirst(s: seq<Image>)
  {
    forall i, j :: 0 <= i < j < |s| ==> !Less(s[i].CreationDate, s[j].CreationDate)
  }

  /** The states of a list of images, position by position. */
  function States(s: seq<Image>): (r: seq<string>)
    ensures |r| == |s| && forall i :: 0 <= i < |s| ==> r[i] == s[i].State
  {
    seq(|s|, i requires 0 <= i < |s| => s[i].State)
  }

  /** What one `DescribeImages` poll reports: the state of the first image
      listed, the call's error, or an index panic when no image is listed. */
  function ImageReport(answer: Result<seq<Image>>): Result<string>
  {
    if answer.Err? then Err(answer.error)
    else if answer.value == [] then Err(IndexOutOfRange("Images"))
    else Ok(answer.value[0].State)
  }

  function ImageReports(polls: seq<Result<seq<Image>>>): (r: seq<Result<string>>)
    ensures |r| == |polls| && forall i :: 0 <= i < |polls| ==> r[i] == ImageReport(polls[i])
  {
    seq(|polls|, i requires 0 <= i < |polls| => ImageReport(polls[i]))
  }

  /** The id of the record after `IsAvailable` reads `answer`: the first
      listed image's id, or `id` unchanged when nothing is listed. */
  function PolledImageId(id: string, answer: Result<seq<Image>>): string
  {
    if ImageReport(answer).Ok? then answer.value[0].ImageId else id
  }

  /** The id of the record after reading the answers `polls` in turn,
      starting from `id`. */
  function ImageIdAfterPolls(id: string, polls: seq<Result<seq<Image>>>): string
  {
    if polls == [] then id else PolledImageId(ImageIdAfterPolls(id, polls[..|polls| - 1]), polls[|polls| - 1])
  }

  /** `requests` are the `DescribeImages` calls of the polls answered by
      `polls`, each for the id the record holds when it is sent. */
  ghost predicate ImagePollRequests(requests: seq<ApiCall>, id: string, polls: seq<Result<seq<Image>>>)
  {
    && |requests| == |polls|
    && forall t :: 0 <= t < |polls| ==> requests[t] == DescribeImages([ImageIdAfterPolls(id, polls[..t])], [], [])
  }

  /** One more poll adds the request for the current id, and moves the id. */
  lemma ImagePollRequestsStep(requests: seq<ApiCall>, id: string, polls: seq<Result<seq<Image>>>, n: nat)
    requires n < |polls| && ImagePollRequests(requests, id, polls[..n])
    ensures ImagePollRequests(requests + [DescribeImages([ImageIdAfterPolls(id, polls[..n])], [], [])], id, polls[..n + 1])
    ensures ImageIdAfterPolls(id, polls[..n + 1]) == PolledImageId(ImageIdAfterPolls(id, polls[..n]), polls[n])
  {
    assert polls[..n + 1][..n] == polls[..n];
    forall t | 0 <= t < n
      ensures polls[..n + 1][..t] == polls[..n][..t]
    {
    }
  }

  /** The tags of the image an answer delivers; an answer without an image
      delivers none. */
  function AnswerTags(answer: Result<seq<Image>>): seq<Tag>
  {
    if answer.Ok? && answer.value != [] then answer.value[0].Tags else []
  }

  /** The tags of the images the answers `polls` deliver, in order. */
  function PolledTags(polls: seq<Result<seq<Image>>>): seq<Tag>
  {
    if polls == [] then [] else PolledTags(polls[..|polls| - 1]) + AnswerTags(polls[|polls| - 1])
  }

  lemma PolledTagsStep(polls: seq<Result<seq<Image>>>, n: nat)
    requires n < |polls|
    ensures PolledTags(polls[..n + 1]) == PolledTags(polls[..n]) + AnswerTags(polls[n])
  {
    assert polls[..n + 1][..n] == polls[..n];
  }

  class AutoAmi {
    var Id: string
    var Region: string
    var Architecture: string
    var Name: string
    var State: string
    var Description: string
    var CreationDate: string
    var Tags: TagMap?

    /** `AutoAmi{}`: every field at its zero value. */
    constructor ()
      ensures Id == "" && Region == "" && Architecture == "" && Name == ""
      ensures State == "" && Description == "" && CreationDate == "" && Tags == null
    {
      Id, Region, Architecture, Name := "", "", "", "";
      State, Description, CreationDate := "", "", "";
      Tags := null;
    }

    /** The describe fields of this record are those of `image`. */
    ghost predicate Mirrors(image: Image)
      reads this
    {
      && Id == image.ImageId && Architecture == image.Architecture
      && CreationDate == image.CreationDate && Description == image.Description
      && Name == image.Name && State == image.State
    }

    /** Copies the describe fields of `image` and merges its tags into the
        tag map, creating the map when there is none. The region is kept. */
    method Update(image: Image)
      modifies this, Tags
      ensures Mirrors(image) && Region == old(Region)
      ensures Tags != null && (old(Tags) != null ==> Tags == old(Tags)) && (old(Tags) == null ==> fresh(Tags))
      ensures Tags.entries == MergeTags(old(EntriesOf(Tags)), image.Tags)
    {
      Architecture := image.Architecture;
      CreationDate := image.CreationDate;
      Description := image.Description;
      Id := image.ImageId;
      Name := image.Name;
      State := image.State;
      if Tags == null {
        Tags := new TagMap(map[]);
      }
      Tags.Merge(image.Tags);
    }

    /** `IsAvailable`: one `DescribeImages` call for this image, answered by
        `answer`. A successful answer refreshes the record from the first
        image it lists; an answer listing no image is an index panic. */
    method IsAvailable(answer: Result<seq<Image>>) returns (call: ApiCall, available: bool, err: Option<Error>)
      modifies this, Tags
      ensures call == DescribeImages([old(Id)], [], [])
      ensures Id == PolledImageId(old(Id), answer)
      ensures ImageReport(answer).Err? ==> err == Some(ImageReport(answer).error) && !available && unchanged(this)
      ensures ImageReport(answer).Ok? ==> err == None && Mirrors(answer.value[0]) && (available <==> State == Available)
      ensures Region == old(Region)
      ensures EntriesOf(Tags) == MergeTags(old(EntriesOf(Tags)), AnswerTags(answer))
      ensures old(Tags) != null ==> Tags == old(Tags)
      ensures old(Tags) == null ==> Tags == null || fresh(Tags)
    {
      call := DescribeImages([Id], [], []);
      if answer.Err? {
        return call, false, Some(answer.error);
      }
      if answer.value == [] {
        return call, false, Some(IndexOutOfRange("Images"));
      }
      Update(answer.value[0]);
      available, err := State == Available, None;
    }

    /** Polls `DescribeImages` for this image until it is available, using
        the answers `polls` in order; `polled` is the number of calls made
        and `requests` the calls themselves, each for the id the record holds
        when it is sent. Each successful answer refreshes the image and
        merges its tags. */
    method WaitForAvailableState(polls: seq<Result<seq<Image>>>)
      returns (outcome: WaitOutcome, polled: nat, requests: seq<ApiCall>)
      modifies this, Tags
      ensures polled <= |polls| && ImagePollRequests(requests, old(Id), polls[..polled])
      ensures Id == ImageIdAfterPolls(old(Id), polls[..polled])
      ensures (outcome, polled) == AwaitFrom(old(State), Available, ImageReports(polls), 0)
      ensures outcome.Reached? ==> State == Available
      ensures Region == old(Region)
      ensures EntriesOf(Tags) == MergeTags(old(EntriesOf(Tags)), PolledTags(polls[..polled]))
      ensures old(Tags) != null ==> Tags == old(Tags)
      ensures old(Tags) == null ==> Tags == null || fresh(Tags)
    {
      ghost var state0 := State;
      ghost var entries0 := EntriesOf(Tags);
      ghost var tags0 := Tags;
      ghost var reports := ImageReports(polls);
      ghost var id0 := Id;
      polled, requests := 0, [];
      while State != Available
        invariant polled <= |polls| && ImagePollRequests(requests, id0, polls[..polled])
        invariant Id == ImageIdAfterPolls(id0, polls[..polled])
        invariant AwaitFrom(state0, Available, reports, 0) == AwaitFrom(State, Available, reports, polled)
        invariant Region == old(Region)
        invariant EntriesOf(Tags) == MergeTags(entries0, PolledTags(polls[..polled]))
        invariant tags0 != null ==> Tags == tags0
        invariant tags0 == null ==> Tags == null || fresh(Tags)
        decreases |polls| - polled
      {
        if polled == |polls| {
          outcome := StillWaiting;
          return;
        }
        var answer := polls[polled];
        AwaitStep(State, Available, reports, polled);
        assert reports[polled] == ImageReport(answer);
        PolledTagsStep(polls, polled);
        var call, _, err := IsAvailable(answer);
        MergeTagsAppend(entries0, PolledTags(polls[..polled]), AnswerTags(answer));
        ImagePollRequestsStep(requests, id0, polls, polled);
        requests := requests + [call];
        polled := polled + 1;
        if err.Some? {
          outcome := Failed(err.value);
          return;
        }
      }
      outcome := Reached;
    }

    /** The `CreateTags` request that puts this image's tags on it, and the
        provider's answer `reply` passed back. */
    method TagImage(reply: Option<Error>) returns (call: ApiCall, err: Option<Error>)
      ensures TagsRequest(call, Id, EntriesOf(Tags)) && |call.tags.Tags| == |EntriesOf(Tags)|
      ensures err == reply
    {
      call := TagsCall(Id, EntriesOf(Tags));
      err := reply;
    }

    /** Lists the images owned by `owner` that carry every tag of this image,
        newest first. `answer` is the provider's reply to the `DescribeImages`
        call `call`; a failed call aborts with its error. */
    method FindAmi(owner: string, answer: Result<seq<Image>>)
      returns (found: seq<AutoAmi>, sorted: seq<Image>, call: ApiCall, err: Option<Error>)
      ensures call.DescribeImages? && call.imageIds == [] && call.owners == [owner]
      ensures FiltersFor(call.filters, EntriesOf(Tags))
      ensures answer.Err? ==> err == Some(answer.error) && found == [] && sorted == []
      ensures answer.Ok? ==> err == None && NewestFirst(sorted) && multiset(sorted) == multiset(answer.value)
      ensures |found| == |sorted|
      ensures forall i :: 0 <= i < |found| ==>
        fresh(found[i]) && found[i].Mirrors(sorted[i]) && found[i].Region == "" &&
        fresh(found[i].Tags) && found[i].Tags.entries == MergeTags(map[], sorted[i].Tags)
    {
      var filters := TagFilters(EntriesOf(Tags));
      call := DescribeImages([], [owner], filters);
      found, sorted := [], [];
      if answer.Err? {
        err := Some(answer.error);
        return;
      }
      err := None;
      var images := answer.value;
      var a := new Image[|images|](i requires 0 <= i < |images| => images[i]);
      assert a[..] == images;
      SortByTimeReverse(a);
      sorted := a[..];
      found := ExtractAll(sorted);
    }

    /** Retires old images: lists the images sharing this image's tags,
        newest first, and deregisters the available ones beyond the newest
        `retentionCount`, where every image that is not available and lies
        beyond the bound moves the bound one further. A failed deregistration
        is only logged: the image is reported as deleted all the same.
        Returns the deleted images, oldest first, and the calls made. */
    method DeleteOldAmi(owner: string, retentionCount: nat, answer: Result<seq<Image>>)
      returns (deleted: seq<AutoAmi>, sorted: seq<Image>, calls: seq<ApiCall>, err: Option<Error>)
      ensures |calls| >= 1 && calls[0].DescribeImages? && calls[0].owners == [owner]
      ensures calls[0].imageIds == [] && FiltersFor(calls[0].filters, EntriesOf(Tags))
      ensures answer.Err? ==> err == Some(answer.error) && deleted == [] && sorted == [] && calls == calls[..1]
      ensures answer.Ok? ==> err == None && NewestFirst(sorted) && multiset(sorted) == multiset(answer.value)
      ensures var retired := Retired(States(sorted), retentionCount);
        && |deleted| == |retired| && |calls| == 1 + |retired|
        && forall t :: 0 <= t < |retired| ==>
             0 <= retired[t] < |sorted| && deleted[t].Mirrors(sorted[retired[t]]) &&
             calls[1 + t] == DeregisterImage(sorted[retired[t]].ImageId)
    {
      var found, call;
      found, sorted, call, err := FindAmi(owner, answer);
      if err.Some? {
        deleted, calls := [], [call];
        assert States(sorted) == [];
        return;
      }
      ghost var states, ids := States(sorted), ImageIds(sorted);
      MirrorsFields(found, sorted);
      deleted, calls := Deregister(found, states, ids, retentionCount, call);
      RetiredMirrors(found, sorted, Retired(states, retentionCount), deleted, calls, call);
    }
  }

  /** The ids of the images, in order. */
  function ImageIds(s: seq<Image>): (r: seq<string>)
    ensures |r| == |s| && forall i :: 0 <= i < |s| ==> r[i] == s[i].ImageId
  {
    seq(|s|, i requires 0 <= i < |s| => s[i].ImageId)
  }

  lemma MirrorsFields(found: seq<AutoAmi>, sorted: seq<Image>)
    requires |found| == |sorted| && forall j :: 0 <= j < |found| ==> found[j].Mirrors(sorted[j])
    ensures forall j :: 0 <= j < |found| ==> found[j].State == States(sorted)[j] && found[j].Id == ImageIds(sorted)[j]
  {
  }

  /** What the retention loop returns, read back in terms of the listing. */
  lemma RetiredMirrors(found: seq<AutoAmi>, sorted: seq<Image>, retired: seq<nat>,
                       deleted: seq<AutoAmi>, calls: seq<ApiCall>, listing: ApiCall)
    requires |found| == |sorted| && forall j :: 0 <= j < |found| ==> found[j].Mirrors(sorted[j])
    requires forall t :: 0 <= t < |retired| ==> retired[t] < |found|
    requires deleted == Picked(found, retired)
    requires calls == [listing] + Deregistrations(ImageIds(sorted), retired)
    ensures |deleted| == |retired| && |calls| == 1 + |retired| && calls[0] == listing
    ensures forall t :: 0 <= t < |retired| ==>
      0 <= retired[t] < |sorted| && deleted[t].Mirrors(sorted[retired[t]]) &&
      calls[1 + t] == DeregisterImage(sorted[retired[t]].ImageId)
  {
    forall t | 0 <= t < |retired|
      ensures calls[1 + t] == DeregisterImage(sorted[retired[t]].ImageId)
    {
      assert calls[1 + t] == Deregistrations(ImageIds(sorted), retired)[t];
    }
  }

  /** The retention loop of `DeleteOldAmi` over the image records `found`,
      newest first, whose states are `states` and whose ids are `ids`, after
      the listing call `listing`: the deleted records, oldest first, and the
      calls made, the `DeregisterImage` calls after `listing`. The provider's
      answers to those calls are only logged. */
  method Deregister(found: seq<AutoAmi>, ghost states: seq<string>, ghost ids: seq<string>, retentionCount: nat, listing: ApiCall)
    returns (deleted: seq<AutoAmi>, calls: seq<ApiCall>)
    requires |found| == |states| == |ids|
    requires forall j :: 0 <= j < |found| ==> found[j].State == states[j] && found[j].Id == ids[j]
    ensures forall t :: 0 <= t < |Retired(states, retentionCount)| ==> Retired(states, retentionCount)[t] < |states|
    ensures deleted == Picked(found, Retired(states, retentionCount))
    ensures calls == [listing] + Deregistrations(ids, Retired(states, retentionCount))
  {
    deleted, calls := [], [listing];
    ghost var retired: seq<nat> := [];
    var k: nat := retentionCount;
    var i := |found| - 1;
    while i >= k
      invariant -1 <= i < |states|
      invariant Retired(states, retentionCount) == retired + Walk(states, i, k).deleted
      invariant forall t :: 0 <= t < |retired| ==> i < retired[t] < |states|
      invariant deleted == Picked(found, retired)
      invariant calls == [listing] + Deregistrations(ids, retired)
      decreases i + 1
    {
      WalkAdvance(states, retentionCount, retired, i, k);
      if found[i].State != Available {
        k := k + 1;
      } else {
        PickedSnoc(found, ids, retired, i);
        calls := calls + [DeregisterImage(found[i].Id)];
        deleted := deleted + [found[i]];
        retired := retired + [i];
      }
      i := i - 1;
    }
    assert Walk(states, i, k).deleted == [];
  }

  /** The records at the positions `idx`, in that order. */
  function Picked(found: seq<AutoAmi>, idx: seq<nat>): seq<AutoAmi>
    requires forall t :: 0 <= t < |idx| ==> idx[t] < |found|
  {
    seq(|idx|, t requires 0 <= t < |idx| => found[idx[t]])
  }

  /** The `DeregisterImage` calls for the images at the positions `idx`. */
  function Deregistrations(ids: seq<string>, idx: seq<nat>): seq<ApiCall>
    requires forall t :: 0 <= t < |idx| ==> idx[t] < |ids|
  {
    seq(|idx|, t requires 0 <= t < |idx| => DeregisterImage(ids[idx[t]]))
  }

  lemma PickedSnoc(found: seq<AutoAmi>, ids: seq<string>, idx: seq<nat>, i: nat)
    requires |found| == |ids| && i < |found| && forall t :: 0 <= t < |idx| ==> idx[t] < |found|
    ensures Picked(found, idx + [i]) == Picked(found, idx) + [found[i]]
    ensures Deregistrations(ids, idx + [i]) == Deregistrations(ids, idx) + [DeregisterImage(ids[i])]
  {
  }

  /** The image records of the loop over the sorted answer in `findAmi`. */
  method ExtractAll(images: seq<Image>) returns (found: seq<AutoAmi>)
    ensures |found| == |images|
    ensures forall i :: 0 <= i < |found| ==>
      fresh(found[i]) && found[i].Mirrors(images[i]) && found[i].Region == "" &&
      fresh(found[i].Tags) && found[i].Tags.entries == MergeTags(map[], images[i].Tags)
  {
    found := [];
    for i := 0 to |images|
      invariant |found| == i
      invariant forall j :: 0 <= j < i ==>
        fresh(found[j]) && found[j].Mirrors(images[j]) && found[j].Region == "" &&
        fresh(found[j].Tags) && found[j].Tags.entries == MergeTags(map[], images[j].Tags)
    {
      var ami := ExtractAutoAmi(images[i]);
      found := found + [ami];
    }
  }

  /** `extractAutoAmi`: a new image record filled from a describe answer. */
  method ExtractAutoAmi(image: Image) returns (ami: AutoAmi)
    ensures fresh(ami) && ami.Mirrors(image) && ami.Region == ""
    ensures fresh(ami.Tags) && ami.Tags.entries == MergeTags(map[], image.Tags)
  {
    ami := new AutoAmi();
    ami.Update(image);
  }

  /** `sort.Sort(ByTimeReverse(images))`: reorders the images newest first. */
  method SortByTimeReverse(a: array<Image>)
    modifies a
    ensures NewestFirst(a[..])
    ensures multiset(a[..]) == old(multiset(a[..]))
  {
    if a.Length == 0 {
      return;
    }
    for i := 1 to a.Length
      invariant NewestFirst(a[..i])
      invariant multiset(a[..]) == old(multiset(a[..]))
    {
      InsertNewest(a, i);
    }
    assert a[..a.Length] == a[..];
  }

  /** Moves `a[i]` forward past every strictly older image, extending the
      newest-first prefix by one. */
  method InsertNewest(a: array<Image>, i: nat)
    requires i < a.Length && NewestFirst(a[..i])
    modifies a
    ensures NewestFirst(a[..i + 1])
    ensures multiset(a[..]) == old(multiset(a[..]))
  {
    var j := i;
    while j > 0 && Less(a[j - 1].CreationDate, a[j].CreationDate)
      invariant 0 <= j <= i
      invariant multiset(a[..]) == old(multiset(a[..]))
      invariant InsertingAt(a[..], j, i)
    {
      ghost var before := a[..];
      Swap(a, j - 1, j);
      SwapKeepsInserting(before, a[..], j, i);
      j := j - 1;
    }
    InsertedNewestFirst(a[..], j, i);
  }

  /** `ByTimeReverse.Swap`. */
  method Swap(a: array<Image>, p: nat, q: nat)
    requires p < a.Length && q < a.Length
    modifies a
    ensures a[..] == old(a[..])[p := old(a[q])][q := old(a[p])]
    ensures multiset(a[..]) == old(multiset(a[..]))
  {
    a[p], a[q] := a[q], a[p];
  }

  /** Insertion of the element at `j` into the newest-first prefix `[0, i]`:
      the other elements are in order, and the element is strictly newer than
      every element after it. */
  ghost predicate InsertingAt(s: seq<Image>, j: nat, i: nat)
    requires j <= i < |s|
  {
    && (forall p, q :: 0 <= p < q <= i && p != j && q != j ==> !Less(s[p].CreationDate, s[q].CreationDate))
    && (forall q :: j < q <= i ==> Less(s[q].CreationDate, s[j].CreationDate))
  }

  /** Moving the element one place forward, past an older element, keeps the
      insertion invariant. */
  lemma SwapKeepsInserting(s: seq<Image>, t: seq<Image>, j: nat, i: nat)
    requires 0 < j <= i < |s| && InsertingAt(s, j, i)
    requires Less(s[j - 1].CreationDate, s[j].CreationDate)
    requires t == s[j - 1 := s[j]][j := s[j - 1]]
    ensures InsertingAt(t, j - 1, i)
  {
  }

  /** Once the element meets an element at least as new, the prefix `[0, i]`
      is newest first. */
  lemma InsertedNewestFirst(s: seq<Image>, j: nat, i: nat)
    requires j <= i < |s| && InsertingAt(s, j, i)
    requires j == 0 || !Less(s[j - 1].CreationDate, s[j].CreationDate)
    ensures NewestFirst(s[..i + 1])
  {
    forall p, q | 0 <= p < q <= i
      ensures !Less(s[p].CreationDate, s[q].CreationDate)
    {
      if q == j && p < j - 1 {
        AtLeastTransitive(s[p].CreationDate, s[j - 1].CreationDate, s[j].CreationDate);
      } else if p == j {
        if Less(s[p].CreationDate, s[q].CreationDate) {
          LessTransitive(s[p].CreationDate, s[q].CreationDate, s[p].CreationDate);
          LessIrreflexive(s[p].CreationDate);
        }
      }
    }
  }
}

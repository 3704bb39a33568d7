/** Go maps are references: the engine hands one tag map from a launch
    configuration to the instance it launches and on to the image made from
    it, and updates it through each of them. `TagMap` is that shared map. */
module Util {
  import opened Ec2

  class TagMap {
    var entries: map<string, string>

    constructor (m: map<string, string>)
      ensures entries == m
    {
      entries := m;
    }

    /** `for _, tag := range tags { m[*tag.Key] = *tag.Value }` */
    method Merge(tags: seq<Tag>)
      modifies this
      ensures entries == MergeTags(old(entries), tags)
    {
      var i := 0;
      while i < |tags|
        invariant 0 <= i <= |tags|
        invariant entries == MergeTags(old(entries), tags[..i])
      {
        assert tags[..i + 1][..i] == tags[..i];
        entries := entries[tags[i].Key := tags[i].Value];
        i := i + 1;
      }
      assert tags[..i] == tags;
    }
  }

  /** What a Go map variable holds: a nil map reads as empty. */
  function EntriesOf(t: TagMap?): map<string, string>
    reads t
  {
    if t == null then map[] else t.entries
  }

  /** Assigns the tags of a list in order, later ones overwriting earlier ones. */
  function MergeTags(m: map<string, string>, tags: seq<Tag>): map<string, string>
  {
    if tags == [] then m
    else MergeTags(m, tags[..|tags| - 1])[tags[|tags| - 1].Key := tags[|tags| - 1].Value]
  }

  /** Merging keeps every key already present and adds every key of the list. */
  lemma {:induction false} MergeTagsKeys(m: map<string, string>, tags: seq<Tag>)
    ensures MergeTags(m, tags).Keys == m.Keys + set t | t in tags :: t.Key
  {
    if tags != [] {
      MergeTagsKeys(m, tags[..|tags| - 1]);
      assert tags == tags[..|tags| - 1] + [tags[|tags| - 1]];
    }
  }

  /** A key the list assigns takes the value of its last occurrence in the list. */
  lemma {:induction false} MergeTagsLastWins(m: map<string, string>, tags: seq<Tag>, i: nat)
    requires i < |tags|
    requires forall j :: i < j < |tags| ==> tags[j].Key != tags[i].Key
    ensures tags[i].Key in MergeTags(m, tags) && MergeTags(m, tags)[tags[i].Key] == tags[i].Value
  {
    if i < |tags| - 1 {
      MergeTagsLastWins(m, tags[..|tags| - 1], i);
    }
  }

  /** A key the list does not assign keeps its old value. */
  lemma {:induction false} MergeTagsKeepsOthers(m: map<string, string>, tags: seq<Tag>, k: string)
    requires k in m
    requires forall j :: 0 <= j < |tags| ==> tags[j].Key != k
    ensures k in MergeTags(m, tags) && MergeTags(m, tags)[k] == m[k]
  {
    if tags != [] {
      MergeTagsKeepsOthers(m, tags[..|tags| - 1], k);
    }
  }

  /** Merging two lists in turn is merging their concatenation. */
  lemma {:induction false} MergeTagsAppend(m: map<string, string>, a: seq<Tag>, b: seq<Tag>)
    ensures MergeTags(MergeTags(m, a), b) == MergeTags(m, a + b)
  {
    if b != [] {
      MergeTagsAppend(m, a, b[..|b| - 1]);
      assert (a + b)[..|a + b| - 1] == a + b[..|b| - 1];
    } else {
      assert a + b == a;
    }
  }

  /** A tag list that lists every entry of `m` once, and nothing else,
      merges back into `m`: the provider, given the list, rebuilds the map. */
  lemma TagListRoundTrip(m: map<string, string>, tags: seq<Tag>)
    requires forall i :: 0 <= i < |tags| ==> tags[i].Key in m && m[tags[i].Key] == tags[i].Value
    requires forall i, j :: 0 <= i < j < |tags| ==> tags[i].Key != tags[j].Key
    requires forall k :: k in m ==> exists i :: 0 <= i < |tags| && tags[i].Key == k
    ensures MergeTags(map[], tags) == m
  {
    TagListKeys(m, tags);
    TagListValues(m, tags);
    MapsEqual(MergeTags(map[], tags), m);
  }

  lemma MapsEqual(r: map<string, string>, m: map<string, string>)
    requires r.Keys == m.Keys && forall k :: k in m ==> r[k] == m[k]
    ensures r == m
  {
  }

  lemma TagListValues(m: map<string, string>, tags: seq<Tag>)
    requires forall i :: 0 <= i < |tags| ==> tags[i].Key in m && m[tags[i].Key] == tags[i].Value
    requires forall i, j :: 0 <= i < j < |tags| ==> tags[i].Key != tags[j].Key
    requires forall k :: k in m ==> exists i :: 0 <= i < |tags| && tags[i].Key == k
    ensures forall k :: k in m ==> k in MergeTags(map[], tags) && MergeTags(map[], tags)[k] == m[k]
  {
    forall k | k in m
      ensures k in MergeTags(map[], tags) && MergeTags(map[], tags)[k] == m[k]
    {
      TagListEntry(m, tags, k);
    }
  }

  lemma TagListKeys(m: map<string, string>, tags: seq<Tag>)
    requires forall i :: 0 <= i < |tags| ==> tags[i].Key in m
    requires forall k :: k in m ==> exists i :: 0 <= i < |tags| && tags[i].Key == k
    ensures MergeTags(map[], tags).Keys == m.Keys
  {
    MergeTagsKeys(map[], tags);
    forall k | k in MergeTags(map[], tags) ensures k in m {
      assert k in set t | t in tags :: t.Key;
    }
  }

  lemma TagListEntry(m: map<string, string>, tags: seq<Tag>, k: string)
    requires forall i :: 0 <= i < |tags| ==> tags[i].Key in m && m[tags[i].Key] == tags[i].Value
    requires forall i, j :: 0 <= i < j < |tags| ==> tags[i].Key != tags[j].Key
    requires k in m && exists i :: 0 <= i < |tags| && tags[i].Key == k
    ensures k in MergeTags(map[], tags) && MergeTags(map[], tags)[k] == m[k]
  {
    var i :| 0 <= i < |tags| && tags[i].Key == k;
    MergeTagsLastWins(map[], tags, i);
  }

  /** `CopyMap`: a freshly allocated map with the same entries; a nil source
      gives an empty map. */
  method CopyMap(source: TagMap?) returns (r: TagMap)
    ensures fresh(r)
    ensures r.entries.Keys == EntriesOf(source).Keys
    ensures forall k :: k in r.entries ==> r.entries[k] == EntriesOf(source)[k]
    ensures source == null ==> r.entries == map[]
  {
    var src := EntriesOf(source);
    r := new TagMap(map k | k in src :: src[k]);
  }

  /** `for key, value := range m`: the entries of `m` in an order Go leaves
      unspecified, each exactly once. */
  method TagList(m: map<string, string>) returns (tags: seq<Tag>)
    ensures |tags| == |m|
    ensures forall i :: 0 <= i < |tags| ==> tags[i].Key in m && m[tags[i].Key] == tags[i].Value
    ensures forall i, j :: 0 <= i < j < |tags| ==> tags[i].Key != tags[j].Key
    ensures forall k :: k in m ==> exists i :: 0 <= i < |tags| && tags[i].Key == k
  {
    tags := [];
    var rest := m.Keys;
    while rest != {}
      invariant rest <= m.Keys
      invariant |tags| + |rest| == |m.Keys|
      invariant forall i :: 0 <= i < |tags| ==> tags[i].Key in m && tags[i].Key !in rest && m[tags[i].Key] == tags[i].Value
      invariant forall i, j :: 0 <= i < j < |tags| ==> tags[i].Key != tags[j].Key
      invariant forall k :: k in m && k !in rest ==> exists i :: 0 <= i < |tags| && tags[i].Key == k
      decreases |rest|
    {
      var k :| k in rest;
      ListedAfterAppend(m, rest, tags, k);
      tags := tags + [Tag(k, m[k])];
      rest := rest - {k};
    }
    assert |m.Keys| == |m|;
  }

  /** A `CreateTags` request for the one resource `id` whose tag list rebuilds `m`. */
  predicate TagsRequest(call: ApiCall, id: string, m: map<string, string>)
  {
    call.CreateTags? && call.tags.Resources == [id] && MergeTags(map[], call.tags.Tags) == m
  }

  /** The `CreateTags` request that puts the tags of `m` on the resource
      `id`, one tag per entry, as `TagImage` and `TagInstance` build it. */
  method TagsCall(id: string, m: map<string, string>) returns (call: ApiCall)
    ensures TagsRequest(call, id, m) && |call.tags.Tags| == |m|
  {
    var tags := TagList(m);
    TagListRoundTrip(m, tags);
    call := CreateTags(CreateTagsInput([id], tags));
  }

  /** Appending the tag of `k` lists, besides the keys already listed, `k`. */
  lemma ListedAfterAppend(m: map<string, string>, rest: set<string>, tags: seq<Tag>, k: string)
    requires k in m && k in rest
    requires forall k' :: k' in m && k' !in rest ==> exists i :: 0 <= i < |tags| && tags[i].Key == k'
    ensures forall k' :: k' in m && k' !in rest - {k} ==>
      exists i :: 0 <= i < |tags + [Tag(k, m[k])]| && (tags + [Tag(k, m[k])])[i].Key == k'
  {
    var after := tags + [Tag(k, m[k])];
    forall k' | k' in m && k' !in rest - {k}
      ensures exists i :: 0 <= i < |after| && after[i].Key == k'
    {
      if k' == k {
        assert after[|tags|].Key == k';
      } else {
        var i :| 0 <= i < |tags| && tags[i].Key == k';
        assert after[i].Key == k';
      }
    }
  }

  /** One `tag:<key>` = [value] filter per entry of `m`, and no other. */
  predicate FiltersFor(filters: seq<Filter>, m: map<string, string>)
  {
    && |filters| == |m|
    && (forall i :: 0 <= i < |filters| ==>
         |filters[i].Name| >= 4 && filters[i].Name[..4] == "tag:" &&
         filters[i].Name[4..] in m && filters[i].Values == [m[filters[i].Name[4..]]])
    && (forall k :: k in m ==> exists i :: 0 <= i < |filters| && filters[i].Name == "tag:" + k)
  }

  /** The `tag:<key>` filters built from a tag map, one per entry. */
  method TagFilters(m: map<string, string>) returns (filters: seq<Filter>)
    ensures FiltersFor(filters, m)
  {
    var tags := TagList(m);
    filters := FiltersOf(tags);
    FiltersNamed(m, tags, filters);
    FiltersCover(m, tags, filters);
  }

  /** One `tag:<key>` filter per tag, in the order of the list. */
  method FiltersOf(tags: seq<Tag>) returns (filters: seq<Filter>)
    ensures |filters| == |tags|
    ensures forall j :: 0 <= j < |tags| ==> filters[j] == Filter("tag:" + tags[j].Key, [tags[j].Value])
  {
    filters := [];
    for i := 0 to |tags|
      invariant |filters| == i
      invariant forall j :: 0 <= j < i ==> filters[j] == Filter("tag:" + tags[j].Key, [tags[j].Value])
    {
      filters := filters + [Filter("tag:" + tags[i].Key, [tags[i].Value])];
    }
  }

  /** Each filter built from a tag list names a tag of `m` and asks for its value. */
  lemma FiltersNamed(m: map<string, string>, tags: seq<Tag>, filters: seq<Filter>)
    requires |filters| == |tags|
    requires forall i :: 0 <= i < |tags| ==> tags[i].Key in m && m[tags[i].Key] == tags[i].Value
    requires forall j :: 0 <= j < |filters| ==> filters[j] == Filter("tag:" + tags[j].Key, [tags[j].Value])
    ensures forall i :: 0 <= i < |filters| ==>
      |filters[i].Name| >= 4 && filters[i].Name[..4] == "tag:" &&
      filters[i].Name[4..] in m && filters[i].Values == [m[filters[i].Name[4..]]]
  {
    forall i | 0 <= i < |filters|
      ensures filters[i].Name[..4] == "tag:" && filters[i].Name[4..] == tags[i].Key
    {
      assert ("tag:" + tags[i].Key)[4..] == tags[i].Key;
    }
  }

  /** Every key of `m` has a filter when every key has a tag. */
  lemma FiltersCover(m: map<string, string>, tags: seq<Tag>, filters: seq<Filter>)
    requires |filters| == |tags|
    requires forall k :: k in m ==> exists i :: 0 <= i < |tags| && tags[i].Key == k
    requires forall j :: 0 <= j < |filters| ==> filters[j] == Filter("tag:" + tags[j].Key, [tags[j].Value])
    ensures forall k :: k in m ==> exists i :: 0 <= i < |filters| && filters[i].Name == "tag:" + k
  {
    forall k | k in m
      ensures exists i :: 0 <= i < |filters| && filters[i].Name == "tag:" + k
    {
      var i :| 0 <= i < |tags| && tags[i].Key == k;
      assert filters[i].Name == "tag:" + k;
    }
  }
}

/** The configuration records of config.go (and the volume record of
    instance.go), their `validateAndSetDefaults` rules and the source filter.
    Go rewrites the receiver in place; here each validation takes the record
    and returns the rewritten record together with the error, if any. */
module Config {
  import opened Errors
  import opened GoStrings

  /** An AMI to launch from; as a project's SourceFilter, a template in which
      empty fields match anything. */
  datatype Source = Source(
    AmiId: string,
    Architecture: string,
    Name: string,
    OS: string,
    Region: string,
    Type: string,
    Version: string)

  datatype UserData = UserData(Name: string, Bash: string)

  /** A disk of the launched instance (declared in instance.go). */
  datatype EbsVolume = EbsVolume(DeviceName: string, DeleteOnTermination: bool, VolumeSize: int, VolumeType: string)

  /** A project; a nil Tags map is the empty map. */
  datatype Project = Project(
    Name: string,
    InstanceType: string,
    Cron: string,
    RetentionCount: nat,
    SourceFilter: Source,
    UserData: string,
    Account: string,
    EbsVolumes: seq<EbsVolume>,
    Tags: map<string, string>)

  const Shebang := "#!/bin/bash\n"
  const Shutdown := "\nsudo init 0\n"
  const DefaultInstanceType := "t2.nano"
  const DefaultRetentionCount := 7
  const ManagedByKey := "__Maintained_By__"
  const ManagedByValue := "AutoRefreshAmi"

  /** The names, in order, of the fields whose value is empty. */
  function MissingNames(fields: seq<(string, string)>): seq<string>
  {
    if fields == [] then []
    else (if fields[0].1 == "" then [fields[0].0] else []) + MissingNames(fields[1..])
  }

  /** The checks of one record's mandatory fields, made one after the
      other: each empty field appends its name to the list of missing ones. */
  method CollectMissing(fields: seq<(string, string)>) returns (missing: seq<string>)
    ensures missing == MissingNames(fields)
  {
    missing := [];
    for i := 0 to |fields|
      invariant missing == MissingNames(fields[..i])
    {
      MissingNamesAppend(fields[..i], [fields[i]]);
      assert fields[..i + 1] == fields[..i] + [fields[i]];
      if fields[i].1 == "" {
        missing := missing + [fields[i].0];
      }
    }
    assert fields[..|fields|] == fields;
  }

  /** Checking two lists of fields one after the other reports the missing
      names of the first list, then those of the second. */
  lemma {:induction false} MissingNamesAppend(a: seq<(string, string)>, b: seq<(string, string)>)
    ensures MissingNames(a + b) == MissingNames(a) + MissingNames(b)
  {
    if a == [] {
      assert a + b == b;
    } else {
      assert (a + b)[0] == a[0] && (a + b)[1..] == a[1..] + b;
      MissingNamesAppend(a[1..], b);
    }
  }

  /** Nothing is reported exactly when no field is empty. */
  lemma {:induction false} MissingNamesNone(fields: seq<(string, string)>)
    ensures MissingNames(fields) == [] <==> forall i :: 0 <= i < |fields| ==> fields[i].1 != ""
  {
    if fields != [] {
      MissingNamesNone(fields[1..]);
      assert forall i :: 1 <= i < |fields| ==> fields[i] == fields[1..][i - 1];
    }
  }

  /** A field whose name no other field shares is reported exactly when it is empty. */
  lemma {:induction false} MissingNamesReports(fields: seq<(string, string)>, i: nat)
    requires i < |fields|
    requires forall j :: 0 <= j < |fields| && j != i ==> fields[j].0 != fields[i].0
    ensures fields[i].0 in MissingNames(fields) <==> fields[i].1 == ""
  {
    if i > 0 {
      assert fields[1..][i - 1] == fields[i];
      MissingNamesReports(fields[1..], i - 1);
    } else {
      MissingNamesOnlyFrom(fields[1..], fields[0].0);
    }
  }

  lemma {:induction false} MissingNamesOnlyFrom(fields: seq<(string, string)>, name: string)
    requires forall j :: 0 <= j < |fields| ==> fields[j].0 != name
    ensures name !in MissingNames(fields)
  {
    if fields != [] {
      MissingNamesOnlyFrom(fields[1..], name);
    }
  }

  /** The source with every field trimmed of surrounding white space. */
  function TrimmedSource(s: Source): Source
  {
    Source(TrimSpace(s.AmiId), TrimSpace(s.Architecture), TrimSpace(s.Name), TrimSpace(s.OS),
           TrimSpace(s.Region), TrimSpace(s.Type), TrimSpace(s.Version))
  }

  /** Source.validateAndSetDefaults: trims all seven fields; only AmiId is mandatory. */
  method ValidateSource(s: Source) returns (t: Source, err: Option<Error>)
    ensures t == TrimmedSource(s)
    ensures err.Some? <==> AllSpace(s.AmiId)
    ensures err.Some? ==> err.value == MissingFields("Source", ["AmiId"])
  {
    t := s;
    t := t.(AmiId := TrimSpace(t.AmiId));
    t := t.(Architecture := TrimSpace(t.Architecture));
    t := t.(Name := TrimSpace(t.Name));
    t := t.(OS := TrimSpace(t.OS));
    t := t.(Region := TrimSpace(t.Region));
    t := t.(Type := TrimSpace(t.Type));
    t := t.(Version := TrimSpace(t.Version));
    TrimSpaceEmpty(s.AmiId);
    if t.AmiId == "" {
      return t, Some(MissingFields("Source", ["AmiId"]));
    }
    err := None;
  }

  /** The script with the bash prologue put in front, unless already there. */
  function Prologued(bash: string): string
  {
    if HasPrefix(bash, Shebang) then bash else Shebang + "\n" + bash
  }

  /** The script with the shutdown epilogue appended, unless already there. */
  function Epilogued(bash: string): string
  {
    if HasSuffix(bash, Shutdown) then bash else bash + "\n" + Shutdown
  }

  /** The wrapped script starts with the prologue and ends with the epilogue,
      and the original script stands in it unchanged, just before the
      epilogue's part. */
  lemma WrapScriptShape(bash: string)
    ensures HasPrefix(Epilogued(Prologued(bash)), Shebang)
    ensures HasSuffix(Epilogued(Prologued(bash)), Shutdown)
    ensures HasPrefix(Epilogued(Prologued(bash)), Prologued(bash))
    ensures HasSuffix(Prologued(bash), bash)
  {
    var a := Prologued(bash);
    assert a[|a| - |bash|..] == bash;
    var w := Epilogued(a);
    assert w[..|a|] == a;
    assert w[..|Shebang|] == a[..|Shebang|];
  }

  /** A trimmed script never ends in a line break, so the epilogue is always
      appended after one more blank line, even when the script already ends
      with `sudo init 0`. */
  lemma WrapTrimmedAlwaysAppends(bash: string)
    requires bash != [] && !IsSpace(bash[|bash| - 1])
    ensures Epilogued(Prologued(bash)) == Prologued(bash) + "\n" + Shutdown
  {
    var a := Prologued(bash);
    assert a[|a| - 1] == bash[|bash| - 1];
    assert IsSpace('\n');
    if |Shutdown| <= |a| {
      assert a[|a| - |Shutdown|..][|Shutdown| - 1] == a[|a| - 1] != Shutdown[|Shutdown| - 1];
    }
  }

  /** UserData.validateAndSetDefaults. The missing-field switch falls through
      from the Name case into the Bash case, so an empty Name reports both. */
  method ValidateUserData(u: UserData) returns (v: UserData, err: Option<Error>)
    ensures v.Name == TrimSpace(u.Name)
    ensures err.Some? <==> AllSpace(u.Name) || AllSpace(u.Bash)
    ensures AllSpace(u.Name) ==> err == Some(MissingFields("UserData", ["Name", "Bash"]))
    ensures !AllSpace(u.Name) && AllSpace(u.Bash) ==> err == Some(MissingFields("UserData", ["Bash"]))
    ensures err.Some? ==> v.Bash == TrimSpace(u.Bash)
    ensures err.None? ==> v.Bash == Epilogued(Prologued(TrimSpace(u.Bash)))
  {
    var name := TrimSpace(u.Name);
    var bash := TrimSpace(u.Bash);
    TrimSpaceEmpty(u.Name);
    TrimSpaceEmpty(u.Bash);
    var missing: seq<string> := [];
    if name == "" {
      missing := missing + ["Name"];
      // fallthrough
      missing := missing + ["Bash"];
      assert missing == ["Name", "Bash"];
    } else if bash == "" {
      missing := missing + ["Bash"];
      assert missing == ["Bash"];
    }
    if |missing| > 0 {
      return UserData(name, bash), Some(MissingFields("UserData", missing));
    }
    if !HasPrefix(bash, Shebang) {
      bash := Shebang + "\n" + bash;
    }
    if !HasSuffix(bash, Shutdown) {
      bash := bash + "\n" + Shutdown;
    }
    v, err := UserData(name, bash), None;
  }

  /** A project with the defaults of validateAndSetDefaults applied: the
      names are trimmed, a blank instance type becomes t2.nano, a zero
      retention count becomes 7 and the managed-by tag is set. */
  function WithDefaults(p: Project): Project
  {
    p.(Name := TrimSpace(p.Name),
       InstanceType := if AllSpace(p.InstanceType) then DefaultInstanceType else TrimSpace(p.InstanceType),
       Cron := TrimSpace(p.Cron),
       RetentionCount := if p.RetentionCount == 0 then DefaultRetentionCount else p.RetentionCount,
       UserData := TrimSpace(p.UserData),
       Account := TrimSpace(p.Account),
       Tags := p.Tags[ManagedByKey := ManagedByValue])
  }

  /** Whatever the input, a project with its defaults applied has a
      positive retention count, an instance type and the managed-by tag. */
  lemma DefaultsApplied(p: Project)
    ensures WithDefaults(p).RetentionCount > 0 && WithDefaults(p).InstanceType != ""
    ensures WithDefaults(p).Tags[ManagedByKey] == ManagedByValue
    ensures WithDefaults(p).SourceFilter == p.SourceFilter && WithDefaults(p).EbsVolumes == p.EbsVolumes
  {
    TrimSpaceEmpty(p.InstanceType);
  }

  /** Project.validateAndSetDefaults. The defaults and the managed-by tag are
      applied before the mandatory fields are checked, so they are in the
      returned record even when it is rejected. The SourceFilter is not
      trimmed. */
  method ValidateProject(p: Project) returns (q: Project, err: Option<Error>)
    ensures q == WithDefaults(p)
    ensures err == (var missing := MissingNames([("Name", q.Name), ("UserData", q.UserData), ("Account", q.Account)]);
                    if missing == [] then None else Some(MissingFields("Project", missing)))
    ensures err.Some? <==> AllSpace(p.Name) || AllSpace(p.UserData) || AllSpace(p.Account)
  {
    var name := TrimSpace(p.Name);
    var instanceType := TrimSpace(p.InstanceType);
    var cron := TrimSpace(p.Cron);
    var userData := TrimSpace(p.UserData);
    var account := TrimSpace(p.Account);
    var retentionCount := p.RetentionCount;
    TrimSpaceEmpty(p.InstanceType);
    TrimSpaceEmpty(p.Name);
    TrimSpaceEmpty(p.UserData);
    TrimSpaceEmpty(p.Account);
    if instanceType == "" {
      instanceType := DefaultInstanceType;
    }
    if retentionCount == 0 {
      retentionCount := DefaultRetentionCount;
    }
    // an empty Cron is only logged: the project then runs once
    var tags := p.Tags[ManagedByKey := ManagedByValue];
    q := Project(name, instanceType, cron, retentionCount, p.SourceFilter, userData, account, p.EbsVolumes, tags);
    var missing := CollectMissing([("Name", name), ("UserData", userData), ("Account", account)]);
    MissingNamesOfThree("Name", name, "UserData", userData, "Account", account);
    if |missing| > 0 {
      return q, Some(MissingFields("Project", missing));
    }
    err := None;
  }

  /** The missing names of three fields, spelled out. */
  lemma MissingNamesOfThree(n1: string, v1: string, n2: string, v2: string, n3: string, v3: string)
    ensures MissingNames([(n1, v1), (n2, v2), (n3, v3)])
         == (if v1 == "" then [n1] else []) + (if v2 == "" then [n2] else []) + (if v3 == "" then [n3] else [])
  {
    var fields := [(n1, v1), (n2, v2), (n3, v3)];
    assert fields[1..] == [(n2, v2), (n3, v3)];
    assert fields[1..][1..] == [(n3, v3)];
    assert fields[1..][1..][1..] == [];
    var f1, f2, f3 := (if v1 == "" then [n1] else []), (if v2 == "" then [n2] else []), (if v3 == "" then [n3] else []);
    assert MissingNames(fields[1..][1..]) == f3 + [] == f3;
    assert MissingNames(fields[1..]) == f2 + f3;
    assert MissingNames(fields) == f1 + (f2 + f3) == f1 + f2 + f3;
  }

  /** Four fields report nothing exactly when none of them is empty. */
  lemma MissingNamesOfFour(n1: string, v1: string, n2: string, v2: string, n3: string, v3: string, n4: string, v4: string)
    ensures MissingNames([(n1, v1), (n2, v2), (n3, v3), (n4, v4)]) == [] <==> v1 != "" && v2 != "" && v3 != "" && v4 != ""
  {
    var fields := [(n1, v1), (n2, v2), (n3, v3), (n4, v4)];
    assert fields[1..] == [(n2, v2), (n3, v3), (n4, v4)];
    MissingNamesOfThree(n2, v2, n3, v3, n4, v4);
  }

  /** The conjunctive filter: every non-empty field of the filter must equal
      the source's field. */
  predicate Matches(filter: Source, s: Source)
  {
    && (filter.AmiId == "" || s.AmiId == filter.AmiId)
    && (filter.Architecture == "" || s.Architecture == filter.Architecture)
    && (filter.Name == "" || s.Name == filter.Name)
    && (filter.OS == "" || s.OS == filter.OS)
    && (filter.Region == "" || s.Region == filter.Region)
    && (filter.Type == "" || s.Type == filter.Type)
    && (filter.Version == "" || s.Version == filter.Version)
  }

  /** The sources the filter matches, in their original order. */
  function Selected(filter: Source, sources: seq<Source>): seq<Source>
  {
    if sources == [] then []
    else Selected(filter, sources[..|sources| - 1])
         + (if Matches(filter, sources[|sources| - 1]) then [sources[|sources| - 1]] else [])
  }

  /** Source.findSources. Each case of the Go switch falls through to the
      last one, which skips the source; a source reaches the append only when
      no case holds. */
  method FindSources(filter: Source, sources: seq<Source>) returns (matches: seq<Source>)
    ensures matches == Selected(filter, sources)
  {
    matches := [];
    for i := 0 to |sources|
      invariant matches == Selected(filter, sources[..i])
    {
      assert sources[..i + 1][..i] == sources[..i];
      var temp := sources[i];
      if || (filter.AmiId != "" && temp.AmiId != filter.AmiId)
         || (filter.Architecture != "" && temp.Architecture != filter.Architecture)
         || (filter.Name != "" && temp.Name != filter.Name)
         || (filter.OS != "" && temp.OS != filter.OS)
         || (filter.Region != "" && temp.Region != filter.Region)
         || (filter.Type != "" && temp.Type != filter.Type)
         || (filter.Version != "" && temp.Version != filter.Version)
      {
        continue;
      }
      matches := matches + [temp];
    }
    assert sources[..|sources|] == sources;
  }

  /** A source is selected exactly when it is one of the sources and the
      filter matches it; the selection keeps the sources' relative order. */
  lemma {:induction false} SelectedExactly(filter: Source, sources: seq<Source>)
    ensures forall s :: s in Selected(filter, sources) <==> s in sources && Matches(filter, s)
    ensures |Selected(filter, sources)| <= |sources|
  {
    if sources != [] {
      var init := sources[..|sources| - 1];
      SelectedExactly(filter, init);
      assert sources == init + [sources[|sources| - 1]];
    }
  }

  /** The filter with no field set selects every source. */
  lemma {:induction false} EmptyFilterSelectsAll(sources: seq<Source>)
    ensures Selected(Source("", "", "", "", "", "", ""), sources) == sources
  {
    if sources != [] {
      EmptyFilterSelectsAll(sources[..|sources| - 1]);
    }
  }

  /** Setting a field narrows the selection: a filter that agrees with another
      on every field the other sets selects no source the other rejects. */
  lemma {:induction false} NarrowerFilterSelectsFewer(wide: Source, narrow: Source, sources: seq<Source>)
    requires wide.AmiId == "" || narrow.AmiId == wide.AmiId
    requires wide.Architecture == "" || narrow.Architecture == wide.Architecture
    requires wide.Name == "" || narrow.Name == wide.Name
    requires wide.OS == "" || narrow.OS == wide.OS
    requires wide.Region == "" || narrow.Region == wide.Region
    requires wide.Type == "" || narrow.Type == wide.Type
    requires wide.Version == "" || narrow.Version == wide.Version
    ensures |Selected(narrow, sources)| <= |Selected(wide, sources)|
    ensures forall s :: s in Selected(narrow, sources) ==> s in Selected(wide, sources)
  {
    if sources != [] {
      NarrowerFilterSelectsFewer(wide, narrow, sources[..|sources| - 1]);
    }
    SelectedExactly(wide, sources);
    SelectedExactly(narrow, sources);
  }
}

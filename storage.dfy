/** The store of validated configuration records (the `ConfigStorage` part
    of autorefresh/config.go) and the completion counter the engine's jobs
    share. Reading and decoding the configuration files is not modelled:
    the records arrive already decoded. */
module Storage {
  import opened Errors
  import opened GoStrings
  import opened Config
  import opened Accounts

  /** The counter of a `sync.WaitGroup`; blocking in `Wait` is not modelled. */
  class WaitGroup {
    var count: int

    constructor ()
      ensures count == 0
    {
      count := 0;
    }

    method Add(n: int)
      modifies this
      ensures count == old(count) + n
    {
      count := count + n;
    }

    method Done()
      modifies this
      ensures count == old(count) - 1
    {
      count := count - 1;
    }
  }

  /** A project as validation leaves it, filed under its name `k`. */
  predicate FiledProject(k: string, p: Project)
  {
    && p.Name == k && k != "" && p.RetentionCount > 0 && p.InstanceType != ""
    && ManagedByKey in p.Tags && p.Tags[ManagedByKey] == ManagedByValue
  }

  /** A script as validation leaves it, filed under its name `k`. */
  predicate FiledScript(k: string, u: UserData)
  {
    u.Name == k && k != "" && HasPrefix(u.Bash, Shebang) && HasSuffix(u.Bash, Shutdown)
  }

  /** Every stored source has an image id. */
  predicate SourcesIdentified(sources: seq<Source>)
  {
    forall i :: 0 <= i < |sources| ==> sources[i].AmiId != ""
  }

  /** Every stored project is filed under its own name, defaults applied. */
  predicate ProjectsFiled(projects: map<string, Project>)
  {
    forall k :: k in projects ==> FiledProject(k, projects[k])
  }

  /** Every stored script is filed under its own name, wrapped. */
  predicate ScriptsFiled(userdatas: map<string, UserData>)
  {
    forall k :: k in userdatas ==> FiledScript(k, userdatas[k])
  }

  lemma SourcesIdentifiedSnoc(sources: seq<Source>, s: Source)
    requires SourcesIdentified(sources) && s.AmiId != ""
    ensures SourcesIdentified(sources + [s])
  {
  }

  lemma ProjectsFiledUpdate(projects: map<string, Project>, p: Project)
    requires ProjectsFiled(projects) && FiledProject(p.Name, p)
    ensures ProjectsFiled(projects[p.Name := p])
  {
  }

  lemma ScriptsFiledUpdate(userdatas: map<string, UserData>, u: UserData)
    requires ScriptsFiled(userdatas) && FiledScript(u.Name, u)
    ensures ScriptsFiled(userdatas[u.Name := u])
  {
  }

  /** Every configuration record the engine starts from. A record that fails
      validation is not stored: the validation error aborts the record and is
      counted in `ConfigErrors`. */
  class ConfigStorage {
    var sources: seq<Source>
    var accounts: map<string, Account>
    var projects: map<string, Project>
    var userdatas: map<string, UserData>
    var GoWait: WaitGroup
    var ConfigErrors: int

    /** What the store holds is what validation lets through: every source
        has an image id, every record is filed under its own name, every
        project has its defaults applied and every script is wrapped. */
    ghost predicate Valid()
      reads this, accounts.Values
    {
      && SourcesIdentified(sources)
      && (forall k :: k in accounts ==> accounts[k].Name == k && k != "")
      && ProjectsFiled(projects)
      && ScriptsFiled(userdatas)
      && ConfigErrors >= 0
    }

    constructor ()
      ensures sources == [] && accounts == map[] && projects == map[] && userdatas == map[]
      ensures fresh(GoWait) && GoWait.count == 0 && ConfigErrors == 0
      ensures Valid()
    {
      sources, accounts, projects, userdatas := [], map[], map[], map[];
      GoWait := new WaitGroup();
      ConfigErrors := 0;
    }

    /** `addSource`: the validated (trimmed) source is appended. */
    method AddSource(data: Source) returns (err: Option<Error>)
      requires Valid()
      modifies this
      ensures Valid()
      ensures err.Some? <==> AllSpace(data.AmiId)
      ensures err.Some? ==> err == Some(MissingFields("Source", ["AmiId"])) && sources == old(sources) && ConfigErrors == old(ConfigErrors) + 1
      ensures err.None? ==> sources == old(sources) + [TrimmedSource(data)] && ConfigErrors == old(ConfigErrors)
      ensures unchanged(this`accounts, this`projects, this`userdatas, this`GoWait)
    {
      var v;
      v, err := ValidateSource(data);
      if err.Some? {
        ConfigErrors := ConfigErrors + 1;
        return;
      }
      TrimSpaceEmpty(data.AmiId);
      SourcesIdentifiedSnoc(sources, v);
      sources := sources + [v];
    }

    /** `addAccount`: the account is validated in place, then filed under
        its trimmed name, replacing any account of that name. */
    method AddAccount(data: Account) returns (err: Option<Error>)
      requires Valid() && data !in accounts.Values
      modifies this, data
      ensures Valid()
      ensures data.Name == TrimSpace(old(data.Name)) && data.AccessKeyId == TrimSpace(old(data.AccessKeyId))
      ensures data.OwnerId == TrimSpace(old(data.OwnerId)) && data.SecretAccessKey == TrimSpace(old(data.SecretAccessKey))
      ensures err.None? <==>
        !AllSpace(old(data.Name)) && !AllSpace(old(data.AccessKeyId)) && !AllSpace(old(data.OwnerId)) && !AllSpace(old(data.SecretAccessKey))
      ensures err.Some? ==> accounts == old(accounts) && ConfigErrors == old(ConfigErrors) + 1
      ensures err.None? ==> accounts == old(accounts)[data.Name := data] && ConfigErrors == old(ConfigErrors)
      ensures unchanged(this`sources, this`projects, this`userdatas, this`GoWait)
    {
      err := data.ValidateAndSetDefaults();
      if err.Some? {
        ConfigErrors := ConfigErrors + 1;
        return;
      }
      TrimSpaceEmpty(old(data.Name));
      accounts := accounts[data.Name := data];
    }

    /** `addProject`: the project, its defaults applied, is filed under its
        trimmed name, replacing any project of that name. */
    method AddProject(data: Project) returns (err: Option<Error>)
      requires Valid()
      modifies this
      ensures Valid()
      ensures err.Some? <==> AllSpace(data.Name) || AllSpace(data.UserData) || AllSpace(data.Account)
      ensures err.Some? ==> projects == old(projects) && ConfigErrors == old(ConfigErrors) + 1
      ensures err.None? ==> projects == old(projects)[TrimSpace(data.Name) := WithDefaults(data)] && ConfigErrors == old(ConfigErrors)
      ensures unchanged(this`sources, this`accounts, this`userdatas, this`GoWait)
    {
      var p;
      p, err := ValidateProject(data);
      if err.Some? {
        ConfigErrors := ConfigErrors + 1;
        return;
      }
      TrimSpaceEmpty(data.Name);
      DefaultsApplied(data);
      ProjectsFiledUpdate(projects, p);
      projects := projects[p.Name := p];
    }

    /** `addUserData`: the validated script is filed under its name. */
    method AddUserData(data: UserData) returns (err: Option<Error>)
      requires Valid()
      modifies this
      ensures Valid()
      ensures err.Some? <==> AllSpace(data.Name) || AllSpace(data.Bash)
      ensures err.Some? ==> userdatas == old(userdatas) && ConfigErrors == old(ConfigErrors) + 1
      ensures err.None? ==> userdatas == old(userdatas)[TrimSpace(data.Name) := UserData(TrimSpace(data.Name), Epilogued(Prologued(TrimSpace(data.Bash))))]
      ensures err.None? ==> ConfigErrors == old(ConfigErrors)
      ensures unchanged(this`sources, this`accounts, this`projects, this`GoWait)
    {
      var u;
      u, err := ValidateUserData(data);
      if err.Some? {
        ConfigErrors := ConfigErrors + 1;
        return;
      }
      TrimSpaceEmpty(data.Name);
      WrapScriptShape(TrimSpace(data.Bash));
      ScriptsFiledUpdate(userdatas, u);
      userdatas := userdatas[u.Name := u];
    }

    /** `panicIfErrorsFound`: loading fails exactly when some record was
        rejected. */
    method PanicIfErrorsFound() returns (err: Option<Error>)
      ensures err.Some? <==> ConfigErrors > 0
      ensures err.Some? ==> err == Some(ConfigErrorsFound(ConfigErrors))
    {
      if ConfigErrors > 0 {
        return Some(ConfigErrorsFound(ConfigErrors));
      }
      return None;
    }
  }
}

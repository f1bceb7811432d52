/** `load()` of acertmgr/configuration.py: where the configuration lives,
    the runtime settings taken from the command line, the global
    configuration with its legacy defaults, and the domain configuration
    files it reads. The command line arrives already parsed (Args) and the
    host's files and directories as a value (Host). */
module ConfigLoad {
  import opened Values
  import opened Text
  import opened Configuration

  const LEGACY_WORK_DIR: string := "/etc/acme"
  const LEGACY_CONF_FILE: string := "/etc/acme/acme.conf"
  const LEGACY_CONF_DIR: string := "/etc/acme/domains.d"
  const DEFAULT_CONF_FILE: string := "/etc/acertmgr/acertmgr.conf"
  const DEFAULT_CONF_DIR: string := "/etc/acertmgr"
  const LEGACY_API: string := "v1"
  const LEGACY_AUTHORITY: string := "https://acme-v01.api.letsencrypt.org"
  const LEGACY_AUTHORITY_TOS_AGREEMENT: string := "true"

  /** The legacy locations are the work directory joined with their names. */
  lemma LegacyLocations()
    ensures LEGACY_CONF_FILE == JoinPath(LEGACY_WORK_DIR, "acme.conf")
    ensures LEGACY_CONF_DIR == JoinPath(LEGACY_WORK_DIR, "domains.d")
  {
  }

  /** The parsed command line: an option that was not given is None. */
  datatype Args = Args(
    configFile: Option<string>,
    configDir: Option<string>,
    workDir: Option<string>,
    tosAgreement: Option<string>,
    forceRenew: Option<string>,
    revoke: Option<string>,
    revokeReason: Option<int>)

  /** `if args.x:` — an option counts only when given and not empty. */
  predicate Given(o: Option<string>)
  {
    o.Some? && o.value != ""
  }

  // ---------------------------------------------------------------------
  // Decisions

  /** Lines 216-222: the global configuration file. */
  function GlobalConfigFile(args: Args, legacyFileExists: bool): string
  {
    if Given(args.configFile) then args.configFile.value
    else if legacyFileExists then LEGACY_CONF_FILE
    else DEFAULT_CONF_FILE
  }

  /** Lines 225-231: the domain configuration directory. */
  function DomainConfigDir(args: Args, legacyDirExists: bool): string
  {
    if Given(args.configDir) then args.configDir.value
    else if legacyDirExists then LEGACY_CONF_DIR
    else DEFAULT_CONF_DIR
  }

  /** Lines 235-241: the work directory. */
  function WorkDir(args: Args, legacyWorkDirExists: bool, domainConfigDir: string): string
  {
    if Given(args.workDir) then args.workDir.value
    else if legacyWorkDirExists && domainConfigDir == LEGACY_CONF_DIR then LEGACY_WORK_DIR
    else domainConfigDir
  }

  /** Lines 247-253: the answer to the authority's terms of service. */
  function TosAgreement(args: Args, globalConfigFile: string): Value
  {
    if Given(args.tosAgreement) then Str(args.tosAgreement.value)
    else if globalConfigFile == LEGACY_CONF_FILE then Str(LEGACY_AUTHORITY_TOS_AGREEMENT)
    else Null
  }

  /** Each command-line choice beats everything, on its own and whatever
      exists on the host or the other options say. */
  lemma CommandLineWins(args: Args, legacyFile: bool, legacyDir: bool, legacyWork: bool, dir: string, globalFile: string)
    ensures Given(args.configFile) ==> GlobalConfigFile(args, legacyFile) == args.configFile.value
    ensures Given(args.configDir) ==> DomainConfigDir(args, legacyDir) == args.configDir.value
    ensures Given(args.workDir) ==> WorkDir(args, legacyWork, dir) == args.workDir.value
    ensures Given(args.tosAgreement) ==> TosAgreement(args, globalFile) == Str(args.tosAgreement.value)
  {
  }

  /** Without options and without a legacy installation everything lives in
      /etc/acertmgr and the terms of service are not agreed to. */
  lemma FreshInstallation(args: Args)
    requires !Given(args.configFile) && !Given(args.configDir) && !Given(args.workDir) && !Given(args.tosAgreement)
    ensures GlobalConfigFile(args, false) == "/etc/acertmgr/acertmgr.conf"
    ensures DomainConfigDir(args, false) == "/etc/acertmgr"
    ensures WorkDir(args, false, DomainConfigDir(args, false)) == "/etc/acertmgr"
    ensures WorkDir(args, true, DomainConfigDir(args, false)) == "/etc/acertmgr"
    ensures TosAgreement(args, GlobalConfigFile(args, false)) == Null
  {
  }

  /** Without options, an existing legacy installation is used as a whole:
      /etc/acme/acme.conf, /etc/acme/domains.d, work directory /etc/acme,
      terms of service agreed to. The legacy work directory is chosen only
      together with the legacy domain directory. */
  lemma LegacyInstallation(args: Args, legacyDir: bool, legacyWork: bool)
    requires !Given(args.configFile) && !Given(args.configDir) && !Given(args.workDir) && !Given(args.tosAgreement)
    ensures GlobalConfigFile(args, true) == "/etc/acme/acme.conf"
    ensures TosAgreement(args, GlobalConfigFile(args, true)) == Str("true")
    ensures legacyDir ==> DomainConfigDir(args, legacyDir) == "/etc/acme/domains.d"
    ensures legacyDir && legacyWork ==> WorkDir(args, legacyWork, DomainConfigDir(args, legacyDir)) == "/etc/acme"
    ensures WorkDir(args, legacyWork, DomainConfigDir(args, legacyDir)) == "/etc/acme" <==> legacyDir && legacyWork
  {
  }

  /** Lines 256-261: the names to renew now, translated like a domains
      string: the original forms of the non-ASCII names once any name is
      translated. */
  function ForceRenew(args: Args, env: Env): Result<Option<string>>
  {
    if !Given(args.forceRenew) then Ok(None)
    else match Translate(Split(args.forceRenew.value, ' '), env)
      case Err(e) => Err(e)
      case Ok(t) => Ok(Some(if |t| > 0 then JoinWith(ValuesOf(t), ' ') else args.forceRenew.value))
  }

  /** ASCII names are kept as given. */
  lemma ForceRenewAscii(args: Args, env: Env)
    requires Given(args.forceRenew) && IsAscii(args.forceRenew.value)
    ensures ForceRenew(args, env) == Ok(Some(args.forceRenew.value))
  {
    var names := Split(args.forceRenew.value, ' ');
    JoinSplit(args.forceRenew.value, ' ');
    JoinWithAscii(names, ' ');
    TranslateEntries(names, env);
  }

  /** Lines 279-283 on a dictionary: `api` and `authority` get the v1
      defaults when absent. */
  function InjectLegacy(g: Doc): Doc
  {
    var withApi := if "api" in g then g else g["api" := Str(LEGACY_API)];
    if "authority" in withApi then withApi else withApi["authority" := Str(LEGACY_AUTHORITY)]
  }

  /** Existing keys keep their values; only missing `api` / `authority` are added. */
  lemma InjectLegacyKeeps(g: Doc)
    ensures InjectLegacy(g).Keys == g.Keys + {"api", "authority"}
    ensures forall k :: k in g ==> InjectLegacy(g)[k] == g[k]
    ensures "api" !in g ==> InjectLegacy(g)["api"] == Str("v1")
    ensures "authority" !in g ==> InjectLegacy(g)["authority"] == Str("https://acme-v01.api.letsencrypt.org")
  {
  }

  /** Lines 279-283: only the legacy global file gets the v1 defaults. The
      membership tests work on any value (on a string they are substring
      tests), but the assignments need a dictionary. */
  function WithLegacyDefaults(globalConfigFile: string, global: Value): Result<Value>
  {
    if globalConfigFile != LEGACY_CONF_FILE then Ok(global)
    else match global
      case Dict(g) => Ok(Dict(InjectLegacy(g)))
      case List(items) => if Str("api") in items && Str("authority") in items then Ok(global) else Err(TypeError)
      case Str(s) => if Contains(s, "api") && Contains(s, "authority") then Ok(global) else Err(TypeError)
      case _ => Err(TypeError)
  }

  /** Lines 291-292: a domain configuration file ends in `.conf` and is not
      the global configuration file. */
  predicate IsDomainConfigFile(path: string, globalConfigFile: string, abspath: string -> string)
  {
    EndsWith(path, ".conf") && abspath(path) != abspath(globalConfigFile)
  }

  // ---------------------------------------------------------------------
  // The host

  /** What the JSON or YAML parser makes of a configuration file: a
      top-level mapping, as its (key, value) pairs in file order, or any
      other value. */
  datatype Parsed = Mapping(items: seq<(string, Value)>) | Other(v: Value)

  /** The files and directories `load` looks at. `contents[p]` is present
      when `p` is a file, and None when neither parser accepts it; `abspath`
      is `os.path.abspath`. */
  datatype Host = Host(
    contents: map<string, Option<Parsed>>,
    dirs: set<string>,
    listing: map<string, seq<string>>,
    abspath: string -> string)

  /** `os.listdir(d)` */
  function ListDir(host: Host, d: string): seq<string>
  {
    if d in host.listing then host.listing[d] else []
  }

  /** A mapping as a dictionary: a later duplicate key wins. */
  function ItemsToDoc(items: seq<(string, Value)>): Doc
    decreases |items|
  {
    if |items| == 0 then map[]
    else ItemsToDoc(items[..|items| - 1])[items[|items| - 1].0 := items[|items| - 1].1]
  }

  function AsValue(p: Parsed): Value
  {
    match p
    case Mapping(items) => Dict(ItemsToDoc(items))
    case Other(v) => v
  }

  /** Lines 270-283: the global configuration, empty when the file does not exist. */
  function GlobalConfig(host: Host, globalConfigFile: string): Result<Value>
  {
    var loaded :=
      if globalConfigFile !in host.contents then Ok(Dict(map[]))
      else match host.contents[globalConfigFile]
        case None => Err(NotParsable(globalConfigFile))
        case Some(p) => Ok(AsValue(p));
    match loaded
    case Err(e) => Err(e)
    case Ok(g) => WithLegacyDefaults(globalConfigFile, g)
  }

  /** An entry's value as override documents: a list of dictionaries. */
  function OverrideDocs(v: Value): Option<seq<Doc>>
  {
    match v
    case List(items) =>
      if forall i :: 0 <= i < |items| ==> items[i].Dict? then
        Some(seq(|items|, i requires 0 <= i < |items| && items[i].Dict? => items[i].entries))
      else None
    case _ => None
  }

  /** Lines 89-103 and 296 / 301 for one entry of a domain configuration
      file, failing in the source's order: the names are translated first
      (line 94), then the global configuration must be a dictionary (line
      100), then the entry's value a list of override documents (line 103). */
  function EntryConfig(item: (string, Value), global: Value, rc: RuntimeConfig, env: Env): Result<DomainConfig>
  {
    match Translate(Split(item.0, ' '), env)
    case Err(e) => Err(e)
    case Ok(_) =>
      match global
      case Dict(g) =>
        (match OverrideDocs(item.1)
         case Some(local) => ResolveEntry(item.0, local, g, rc, env)
         case None => Err(TypeError))
      case _ => Err(AttributeError)
  }

  /** `EntryConfig` for the global configuration and runtime settings at hand. */
  function EntryResolver(global: Value, rc: RuntimeConfig, env: Env): ((string, Value)) -> Result<DomainConfig>
  {
    item => EntryConfig(item, global, rc, env)
  }

  /** The outcome of each entry of one file, in order, for an entry
      resolver `resolve`. */
  function EntryResults(items: seq<(string, Value)>, resolve: ((string, Value)) -> Result<DomainConfig>)
    : seq<Result<DomainConfig>>
  {
    seq(|items|, i requires 0 <= i < |items| => resolve(items[i]))
  }

  /** The entries of one file, in order; the first failing entry aborts. */
  function EntryConfigs(items: seq<(string, Value)>, global: Value, rc: RuntimeConfig, env: Env): Result<seq<DomainConfig>>
  {
    Collect(EntryResults(items, EntryResolver(global, rc, env)))
  }

  /** Lines 293-301 for one file; `io.open` of a directory raises
      IsADirectoryError, and of a missing file FileNotFoundError. */
  function FileConfigs(host: Host, path: string, global: Value, rc: RuntimeConfig, env: Env): Result<seq<DomainConfig>>
  {
    if path !in host.contents then
      (if path in host.dirs then Err(IsADirectory(path)) else Err(FileNotFound(path)))
    else match host.contents[path]
      case None => Err(NotParsable(path))
      case Some(Mapping(items)) => EntryConfigs(items, global, rc, env)
      case Some(Other(_)) => Err(AttributeError)
  }

  /** Lines 291-293 for one listed name: a domain configuration file is
      read, any other name yields nothing. */
  function NameConfigs(host: Host, dir: string, globalConfigFile: string, global: Value,
                       rc: RuntimeConfig, env: Env): string -> Result<seq<DomainConfig>>
  {
    name =>
      var path := JoinPath(dir, name);
      if IsDomainConfigFile(path, globalConfigFile, host.abspath) then FileConfigs(host, path, global, rc, env)
      else Ok([])
  }

  /** A loop over names that gathers what each step yields, in order, and
      stops at the first failure. */
  function Gather(names: seq<string>, load: string -> Result<seq<DomainConfig>>): Result<seq<DomainConfig>>
    decreases |names|
  {
    if |names| == 0 then Ok([])
    else match Gather(names[..|names| - 1], load)
      case Err(e) => Err(e)
      case Ok(done) =>
        match load(names[|names| - 1])
        case Err(e) => Err(e)
        case Ok(cs) => Ok(done + cs)
  }

  /** Lines 288-301: the listed files of the domain directory, in listing
      order, skipping all but domain configuration files. */
  function DirConfigs(host: Host, names: seq<string>, dir: string, globalConfigFile: string, global: Value,
                      rc: RuntimeConfig, env: Env): Result<seq<DomainConfig>>
  {
    Gather(names, NameConfigs(host, dir, globalConfigFile, global, rc, env))
  }

  /** The runtime configuration of lines 233-267. */
  function Runtime(args: Args, host: Host, forceRenew: Option<string>): RuntimeConfig
  {
    var globalConfigFile := GlobalConfigFile(args, LEGACY_CONF_FILE in host.contents);
    var domainConfigDir := DomainConfigDir(args, LEGACY_CONF_DIR in host.dirs);
    RuntimeConfig(
      WorkDir(args, LEGACY_WORK_DIR in host.dirs, domainConfigDir),
      TosAgreement(args, globalConfigFile),
      forceRenew,
      if Given(args.revoke) then Some(args.revoke.value) else None,
      if Given(args.revoke) then args.revokeReason else None)
  }

  /** Lines 270-301: the global configuration, then the domain configurations. */
  function ConfigsSpec(host: Host, globalConfigFile: string, domainConfigDir: string, rc: RuntimeConfig, env: Env)
    : Result<seq<DomainConfig>>
  {
    match GlobalConfig(host, globalConfigFile)
    case Err(e) => Err(e)
    case Ok(global) =>
      var names := if domainConfigDir in host.dirs then ListDir(host, domainConfigDir) else [];
      DirConfigs(host, names, domainConfigDir, globalConfigFile, global, rc, env)
  }

  /** `load()`: the runtime configuration and the domain configurations. */
  function LoadSpec(args: Args, host: Host, env: Env): Result<(RuntimeConfig, seq<DomainConfig>)>
  {
    var globalConfigFile := GlobalConfigFile(args, LEGACY_CONF_FILE in host.contents);
    var domainConfigDir := DomainConfigDir(args, LEGACY_CONF_DIR in host.dirs);
    match ForceRenew(args, env)
    case Err(e) => Err(e)
    case Ok(forceRenew) =>
      var rc := Runtime(args, host, forceRenew);
      match ConfigsSpec(host, globalConfigFile, domainConfigDir, rc, env)
      case Err(e) => Err(e)
      case Ok(configs) => Ok((rc, configs))
  }

  // ---------------------------------------------------------------------
  // The loops

  /** Lines 296 and 301: one entry of a domain configuration file. A name
      the encoder rejects fails the entry before anything else is looked
      at; `ParseConfigEntry` then translates the names again. */
  method LoadEntry(item: (string, Value), global: Value, rc: RuntimeConfig, env: Env)
    returns (config: Result<DomainConfig>)
    ensures config == EntryConfig(item, global, rc, env)
  {
    var translation := IdnaConvert(Split(item.0, ' '), env);
    if translation.Err? {
      return Err(translation.error);
    }
    if !global.Dict? {
      return Err(AttributeError);
    }
    var local := OverrideDocs(item.1);
    if local.None? {
      return Err(TypeError);
    }
    config := ParseConfigEntry(item.0, local.value, global.entries, rc, env);
  }

  /** Lines 293-301: parse every entry of one domain configuration file. */
  method LoadFile(host: Host, path: string, global: Value, rc: RuntimeConfig, env: Env)
    returns (r: Result<seq<DomainConfig>>)
    ensures r == FileConfigs(host, path, global, rc, env)
  {
    if path !in host.contents {
      if path in host.dirs {
        return Err(IsADirectory(path));
      }
      return Err(FileNotFound(path));
    }
    var parsed := host.contents[path];
    if parsed.None? {
      return Err(NotParsable(path));
    }
    if parsed.value.Other? {
      return Err(AttributeError);
    }
    var items := parsed.value.items;
    ghost var rs := EntryResults(items, EntryResolver(global, rc, env));
    var configs: seq<DomainConfig> := [];
    for i := 0 to |items|
      invariant Collect(rs[..i]) == Ok(configs)
    {
      CollectStep(rs, i);
      var config := LoadEntry(items[i], global, rc, env);
      assert rs[i] == config;
      if config.Err? {
        CollectStopsAtError(rs, i + 1);
        return Err(config.error);
      }
      configs := configs + [config.value];
    }
    assert rs[..|items|] == rs;
    return Ok(configs);
  }

  lemma GatherStep(names: seq<string>, i: nat, load: string -> Result<seq<DomainConfig>>)
    requires i < |names| && Gather(names[..i], load).Ok?
    ensures Gather(names[..i + 1], load) == match load(names[i])
      case Err(e) => Err(e)
      case Ok(cs) => Ok(Gather(names[..i], load).value + cs)
  {
    assert names[..i + 1][..i] == names[..i];
  }

  lemma {:induction false} GatherStopsAtError(names: seq<string>, load: string -> Result<seq<DomainConfig>>, n: nat)
    requires n <= |names| && Gather(names[..n], load).Err?
    ensures Gather(names, load) == Gather(names[..n], load)
    decreases |names|
  {
    if n == |names| {
      assert names[..n] == names;
    } else {
      var front := names[..|names| - 1];
      assert front[..n] == names[..n];
      GatherStopsAtError(front, load, n);
    }
  }

  /** `load()`, with `os.mkdir` of a missing work directory left out. */
  method Load(args: Args, host: Host, env: Env) returns (r: Result<(RuntimeConfig, seq<DomainConfig>)>)
    ensures r == LoadSpec(args, host, env)
  {
    var globalConfigFile := GlobalConfigFile(args, LEGACY_CONF_FILE in host.contents);
    var domainConfigDir := DomainConfigDir(args, LEGACY_CONF_DIR in host.dirs);
    var forceRenew := ForceRenew(args, env);
    if forceRenew.Err? {
      return Err(forceRenew.error);
    }
    var rc := Runtime(args, host, forceRenew.value);
    var configs := LoadConfigs(host, globalConfigFile, domainConfigDir, rc, env);
    if configs.Err? {
      return Err(configs.error);
    }
    return Ok((rc, configs.value));
  }

  method LoadName(host: Host, name: string, dir: string, globalConfigFile: string, global: Value,
                  rc: RuntimeConfig, env: Env) returns (r: Result<seq<DomainConfig>>)
    ensures r == NameConfigs(host, dir, globalConfigFile, global, rc, env)(name)
  {
    var path := JoinPath(dir, name);
    if IsDomainConfigFile(path, globalConfigFile, host.abspath) {
      r := LoadFile(host, path, global, rc, env);
    } else {
      r := Ok([]);
    }
  }

  /** Lines 270-301: read the global configuration file, then the domain
      configuration files. */
  method LoadConfigs(host: Host, globalConfigFile: string, domainConfigDir: string, rc: RuntimeConfig, env: Env)
    returns (r: Result<seq<DomainConfig>>)
    ensures r == ConfigsSpec(host, globalConfigFile, domainConfigDir, rc, env)
  {
    var global := GlobalConfig(host, globalConfigFile);
    if global.Err? {
      return Err(global.error);
    }
    var names := if domainConfigDir in host.dirs then ListDir(host, domainConfigDir) else [];
    r := LoadDir(host, names, domainConfigDir, globalConfigFile, global.value, rc, env);
  }

  /** Lines 288-301: read the listed domain configuration files in order. */
  method LoadDir(host: Host, names: seq<string>, dir: string, globalConfigFile: string, global: Value,
                 rc: RuntimeConfig, env: Env) returns (r: Result<seq<DomainConfig>>)
    ensures r == DirConfigs(host, names, dir, globalConfigFile, global, rc, env)
  {
    ghost var load := NameConfigs(host, dir, globalConfigFile, global, rc, env);
    var configs: seq<DomainConfig> := [];
    for i := 0 to |names|
      invariant Gather(names[..i], load) == Ok(configs)
    {
      GatherStep(names, i, load);
      var loaded := LoadName(host, names[i], dir, globalConfigFile, global, rc, env);
      if loaded.Err? {
        GatherStopsAtError(names, load, i + 1);
        return Err(loaded.error);
      }
      configs := configs + loaded.value;
    }
    assert names[..|names|] == names;
    return Ok(configs);

  }

  // ---------------------------------------------------------------------
  // Properties of a load

  /** The configurations of a file appear in file order, one per entry,
      each the resolution of that entry. */
  lemma EntryConfigsInOrder(items: seq<(string, Value)>, resolve: ((string, Value)) -> Result<DomainConfig>)
    ensures Collect(EntryResults(items, resolve)).Ok? <==> forall i :: 0 <= i < |items| ==> resolve(items[i]).Ok?
    ensures Collect(EntryResults(items, resolve)).Ok? ==>
      && |Collect(EntryResults(items, resolve)).value| == |items|
      && forall i :: 0 <= i < |items| ==> resolve(items[i]) == Ok(Collect(EntryResults(items, resolve)).value[i])
  {
    var rs := EntryResults(items, resolve);
    CollectOk(rs);
    assert forall i :: 0 <= i < |items| ==> rs[i] == resolve(items[i]);
  }

  /** A single entry that fails aborts the whole file (and so the whole
      load) with the first failing entry's error: there is no per-entry
      isolation. */
  lemma EntryFailureAborts(items: seq<(string, Value)>, resolve: ((string, Value)) -> Result<DomainConfig>, n: nat)
    requires n < |items| && resolve(items[n]).Err?
    requires forall i :: 0 <= i < n ==> resolve(items[i]).Ok?
    ensures Collect(EntryResults(items, resolve)) == Err(resolve(items[n]).error)
  {
    var rs := EntryResults(items, resolve);
    assert forall i :: 0 <= i <= n ==> rs[i] == resolve(items[i]);
    CollectFirstError(rs, n);
  }

  /** A file the filter rejects is never opened: whatever it holds, even
      something no parser accepts, the result is the same as without it. */
  lemma SkippedFileIgnored(host: Host, names: seq<string>, name: string, dir: string, globalConfigFile: string,
                           global: Value, rc: RuntimeConfig, env: Env)
    requires !IsDomainConfigFile(JoinPath(dir, name), globalConfigFile, host.abspath)
    ensures DirConfigs(host, names + [name], dir, globalConfigFile, global, rc, env)
         == DirConfigs(host, names, dir, globalConfigFile, global, rc, env)
  {
    assert (names + [name])[..|names|] == names;
    var load := NameConfigs(host, dir, globalConfigFile, global, rc, env);
    if Gather(names, load).Ok? {
      assert Gather(names, load).value + [] == Gather(names, load).value;
    }
  }

  /** A listed domain configuration name that cannot be opened as a file
      ends the load: a directory with IsADirectoryError, a missing file
      with FileNotFoundError, whatever came before it. */
  lemma {:induction false} UnopenableFileAborts(host: Host, names: seq<string>, name: string, dir: string,
                                                globalConfigFile: string, global: Value, rc: RuntimeConfig, env: Env)
    requires IsDomainConfigFile(JoinPath(dir, name), globalConfigFile, host.abspath)
    requires JoinPath(dir, name) !in host.contents
    ensures DirConfigs(host, names + [name], dir, globalConfigFile, global, rc, env).Err?
    ensures DirConfigs(host, names, dir, globalConfigFile, global, rc, env).Ok? ==>
      DirConfigs(host, names + [name], dir, globalConfigFile, global, rc, env).error
        == (if JoinPath(dir, name) in host.dirs then IsADirectory(JoinPath(dir, name)) else FileNotFound(JoinPath(dir, name)))
  {
    assert (names + [name])[..|names|] == names;
  }

  /** The global configuration file is never read as a domain configuration
      file, even when it lies in the domain directory and ends in `.conf`. */
  lemma GlobalFileNotADomainFile(path: string, globalConfigFile: string, abspath: string -> string)
    requires abspath(path) == abspath(globalConfigFile)
    ensures !IsDomainConfigFile(path, globalConfigFile, abspath)
  {
  }

  /** A loaded legacy global configuration is a dictionary that has `api`
      and `authority`, keeping the file's own values. */
  lemma LegacyGlobalConfig(host: Host, p: Parsed, g: Doc)
    requires LEGACY_CONF_FILE in host.contents && host.contents[LEGACY_CONF_FILE] == Some(p)
    requires AsValue(p) == Dict(g)
    ensures GlobalConfig(host, LEGACY_CONF_FILE).Ok?
    ensures
      var loaded := GlobalConfig(host, LEGACY_CONF_FILE).value;
      && loaded.Dict? && "api" in loaded.entries && "authority" in loaded.entries
      && forall k :: k in g ==> loaded.entries[k] == g[k]
  {
    InjectLegacyKeeps(g);
  }

  /** What the JSON and YAML parsers produce: a top-level mapping always
      as `Mapping`, with each key once. */
  predicate WellFormed(p: Parsed)
  {
    match p
    case Mapping(items) => forall i, j :: 0 <= i < j < |items| ==> items[i].0 != items[j].0
    case Other(v) => !v.Dict?
  }

  /** Every parsable file of the host is what a parser produces. */
  predicate ValidHost(host: Host)
  {
    forall path :: path in host.contents && host.contents[path].Some? ==> WellFormed(host.contents[path].value)
  }

  /** A mapping without repeated keys is the dictionary of its pairs: one
      entry per pair, each key with its own value. */
  lemma {:induction false} ItemsToDocDistinct(items: seq<(string, Value)>)
    requires forall i, j :: 0 <= i < j < |items| ==> items[i].0 != items[j].0
    ensures |ItemsToDoc(items)| == |items|
    ensures forall i :: 0 <= i < |items| ==> items[i].0 in ItemsToDoc(items) && ItemsToDoc(items)[items[i].0] == items[i].1
    ensures forall k :: k in ItemsToDoc(items) ==> exists i :: 0 <= i < |items| && items[i].0 == k
    decreases |items|
  {
    if |items| > 0 {
      var front := items[..|items| - 1];
      var last := items[|items| - 1];
      ItemsToDocDistinct(front);
      assert forall i :: 0 <= i < |front| ==> front[i] == items[i];
      assert last.0 !in ItemsToDoc(front);
    }
  }

  /** On a valid host, a domain configuration file that loads yields one
      group per key of its top-level dictionary, in file order, each
      resolved from that key and its value. */
  lemma FileGroupsPerKey(host: Host, path: string, items: seq<(string, Value)>, global: Value, rc: RuntimeConfig, env: Env)
    requires ValidHost(host)
    requires path in host.contents && host.contents[path] == Some(Mapping(items))
    requires FileConfigs(host, path, global, rc, env).Ok?
    ensures
      var configs := FileConfigs(host, path, global, rc, env).value;
      var d := ItemsToDoc(items);
      && |configs| == |items| == |d|
      && forall i :: 0 <= i < |items| ==>
           items[i].0 in d && EntryConfig((items[i].0, d[items[i].0]), global, rc, env) == Ok(configs[i])
  {
    assert WellFormed(host.contents[path].value);
    ItemsToDocDistinct(items);
    EntryConfigsInOrder(items, EntryResolver(global, rc, env));
  }

  /** A load succeeds only with a parsable global file, and its runtime
      configuration is the one the decisions above describe. */
  lemma LoadRuntime(args: Args, host: Host, env: Env)
    requires LoadSpec(args, host, env).Ok?
    ensures
      var (rc, _) := LoadSpec(args, host, env).value;
      var globalConfigFile := GlobalConfigFile(args, LEGACY_CONF_FILE in host.contents);
      && GlobalConfig(host, globalConfigFile).Ok?
      && rc.workDir == WorkDir(args, LEGACY_WORK_DIR in host.dirs, DomainConfigDir(args, LEGACY_CONF_DIR in host.dirs))
      && rc.tosAgreement == TosAgreement(args, globalConfigFile)
      && (rc.revoke.Some? <==> Given(args.revoke))
      && ForceRenew(args, env) == Ok(rc.forceRenew)
  {
    var globalConfigFile := GlobalConfigFile(args, LEGACY_CONF_FILE in host.contents);
    var domainConfigDir := DomainConfigDir(args, LEGACY_CONF_DIR in host.dirs);
    var forceRenew := ForceRenew(args, env).value;
    var rc := Runtime(args, host, forceRenew);
    assert LoadSpec(args, host, env).value.0 == rc;
    assert ConfigsSpec(host, globalConfigFile, domainConfigDir, rc, env).Ok?;
  }
}

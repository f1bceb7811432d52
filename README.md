# acertmgr: configuration and run loop

acertmgr is an automated certificate manager for ACME authorities such as
Let's Encrypt. On every run it:

1. reads a global configuration file and a directory of domain configuration files;
2. resolves each entry into a domain group's settings;
3. renews the group's certificate when it is missing or about to expire;
4. writes the certificate, key and chain into each deployment target of
   the group in the target's format;
5. finally runs each distinct post-update action once.

This project models that core in Dafny:

* `values.dfy` (module `Values`) holds two things:
  * the configuration values the JSON/YAML parsers produce, the exceptions
    the code raises, and `Result`;
  * `Collect`, a loop that stops at the first exception.
* `text.dfy` (module `Text`) holds the Python string operations the code
  relies on: `split(' ')`, `join`, `strip()`, `startswith`/`endswith`,
  substring `in`, POSIX `os.path.join`, `int(str)` and `str(int)`.
* `configuration.dfy` (module `Configuration`) covers the per-entry logic
  of `acertmgr/configuration.py`:
  * `complete_action_config`;
  * `update_config_value`;
  * `idna_convert`;
  * `parse_config_entry`, covering the settings, the CA location, the
    deployment actions and the challenge handler settings.

  Each operation is a function that states what the result is. The
  source's loops are methods proved equal to those functions.
* `config_load.dfy` (module `ConfigLoad`) covers `load()`:
  * where the global file, the domain directory and the work directory
    are, and how the terms-of-service answer and `force_renew` are chosen;
  * the legacy v1 defaults;
  * the loop over the domain directory's files and their entries.

  The command line arrives parsed (`Args`). The host's files and
  directories arrive as a value (`Host`).
* `manager.dfy` (module `Manager`) covers `acertmgr/__init__.py`:
  * `create_challenge_handler`;
  * `cert_get`;
  * `cert_put`, with the ordered token loop that assembles a target;
  * `main`, which renews and deploys every group and collects the actions.

  The host's files are the `files` map of a `FileStore` object. The
  `FileStore` methods `CertGet`, `CertPut`, `Step`, `Deploy`,
  `DeployTarget` and `Manage` (for `main`) update that map and are proved equal to the
  specification functions `CertGetSpec`, `CertPutSpec`, `ConfigStep`,
  `DeployTargets`, `DeployOne` and `MainSpec`. The lemmas are stated
  about those functions.

The key and certificate tools, the ACME authority, the challenge modes and the IDNA encoder are
parameters (`Tools`, `Env`). So are the MD5 digest of a domains string and
whether the `idna` module is loaded. Every property holds for all of them.

Three behaviours of the code are modelled as written:

* **The `ca_file` test (`acertmgr/configuration.py:155`).** It looks at the
  raw `(domains, overrides)` pair. An override list never contains the
  string `ca_file`, so only a domains string containing the substring
  `ca_file` makes the CA location static, and that string itself becomes
  `ca_file`.
* **Translated domain lists (`acertmgr/configuration.py:94-97`).** Once
  any name needs an IDNA translation, `domainlist` becomes the
  translation's values, which are the original non-ASCII names. ASCII
  names therefore drop out of `domainlist` and `domains`. The handler
  lookup of line 185 then finds no translation for them and keeps each
  name as it is. `TranslatedDomains` states this.
* **Entry errors in a JSON file (`acertmgr/configuration.py:294-301`).**
  When a `ValueError` comes from an entry (a bad integer or a rejected
  IDNA name), it is caught like a JSON syntax error. The file is then
  parsed again as YAML, the same entry fails the same way, and the error
  escapes. The model reports the entry's error directly. The global
  configuration and the domain file are taken to parse to the same value
  under either parser.

## Model

| member | source | states |
|---|---|---|
| Values.CollectOk | acertmgr/configuration.py:294-296 | a loop of steps that abort on error completes exactly when every step succeeds, and then yields one result per step in order |
| Values.CollectFirstError | acertmgr/configuration.py:294-296 | a failing loop fails with the error of its first failing step |
| Values.CollectStopsAtError | acertmgr/configuration.py:294-296 | once a prefix of the steps fails, later steps do not change the outcome |
| Text.Split | acertmgr/configuration.py:90 | `split(' ')` yields at least one piece, and no piece contains the separator |
| Text.JoinSplit | acertmgr/configuration.py:90-97 | joining the pieces of a split with the same separator gives back the original string |
| Text.SplitJoin | acertmgr/configuration.py:90-97 | splitting a join of separator-free pieces gives back the pieces |
| Text.ConcatAscii | acertmgr/configuration.py:67 | the concatenated domain list is pure ASCII exactly when every name is |
| Text.LeadingSpace | acertmgr/__init__.py:103 | the length of the whitespace run that begins the string: every character before it is whitespace and the one after it is not |
| Text.Strip | acertmgr/__init__.py:103 | `strip()` is the slice of the string after its leading whitespace, with no whitespace at either end, and everything cut off after it is whitespace |
| Text.StripPadded | acertmgr/__init__.py:103 | a token without whitespace at its ends, padded with whitespace on both sides, strips back to the token |
| Text.StripWithin | acertmgr/__init__.py:103 | stripping only removes characters, so a stripped token contains no character the piece did not |
| Text.ParseIntRoundTrip | acertmgr/configuration.py:124 | `int(str(n)) == n` for every integer n |
| Configuration.ToIntOfString | acertmgr/configuration.py:123-124 | `int()` gives n back for the integer n and for its decimal string; among the configuration values a parser produces, it succeeds only on integers, booleans, floats and strings |
| Configuration.ToIntOfFloat | acertmgr/configuration.py:123-124 | `int()` of a float always succeeds and truncates toward zero; a whole-numbered float gives that number |
| Configuration.FirstIndexWith | acertmgr/configuration.py:58-60 | the index of the first override document that holds the setting, with no earlier one holding it |
| Configuration.UpdateConfigValue | acertmgr/configuration.py:57-62 | only `config[name]` changes; it gets the resolved value and every other key keeps its value |
| Configuration.ResolveValuePrecedence | acertmgr/configuration.py:58-60 | the first override document holding the setting wins, whatever the global configuration and the default are |
| Configuration.ResolveValueFallback | acertmgr/configuration.py:61-62 | without an override, the global value is used when present and the default otherwise |
| Configuration.ResolveValueIgnoresLater | acertmgr/configuration.py:58-60 | documents after one holding the setting never change the value |
| Configuration.CompletedShape | acertmgr/configuration.py:43-53 | completion succeeds exactly when `defaults` is a dictionary. The completed target has the target's keys, the defaults' keys, the three path keys and `action`. The paths are the group's, the target's own settings beat the defaults, and `action` is None when neither gives one |
| Configuration.CompletedDefined | acertmgr/configuration.py:44-48 | completing a target fails exactly when `defaults` is not a dictionary |
| Configuration.CompleteActionConfig | acertmgr/configuration.py:43-53 | the method computes the completed target of `Completed` |
| Configuration.KeyIndex | acertmgr/configuration.py:76 | the position of a key in the translation dictionary, with no earlier equal key |
| Configuration.Put | acertmgr/configuration.py:76 | a dictionary assignment adds exactly the key and keeps keys distinct; an existing key keeps its position and takes the new value with every other entry unchanged, and a new key is appended last |
| Configuration.ValuesOf | acertmgr/configuration.py:96 | `values()` of the translation, one per entry in insertion order |
| Configuration.IdnaConvert | acertmgr/configuration.py:66-81 | the loop computes the translation `Translate` defines, or the encoder's error |
| Configuration.TranslateFromFacts | acertmgr/configuration.py:68-77 | every entry maps an encoded name to a name it encodes. Every non-ASCII name gets an entry. The loop fails exactly when some non-ASCII name cannot be encoded |
| Configuration.TranslateEntries | acertmgr/configuration.py:66-81 | without `idna` or without a non-ASCII name the translation is empty. It fails exactly when the encoder rejects a non-ASCII name. Otherwise every entry is sound, and the translation is non-empty exactly when there is a non-ASCII name |
| Configuration.WildcardKeepsPrefix | acertmgr/configuration.py:72-73 | a wildcard name keeps its `*.` prefix, and only the rest is encoded |
| Configuration.WithKey | acertmgr/configuration.py:169 | the filtered override documents all hold the key and come from the list |
| Configuration.KeyPositions | acertmgr/configuration.py:169 | the positions of the documents holding the key, increasing, and every such position |
| Configuration.WithKeyExact | acertmgr/configuration.py:169 | the filter keeps exactly the documents holding the key, each once, in their original order |
| Configuration.FirstIndexWithout | acertmgr/configuration.py:180-182 | the first handler document naming no domain, with none before it |
| Configuration.FirstIndexForDomain | acertmgr/configuration.py:186-188 | the first handler document naming the domain, with none before it |
| Configuration.HandlerPrecedence | acertmgr/configuration.py:172-190 | each handler setting comes from the first document naming the domain, else from the first naming no domain, else from the global configuration, and it is absent only when all three lack it |
| Configuration.Handlers | acertmgr/configuration.py:173-190 | one handler configuration per listed domain and no others |
| Configuration.BuildHandlers | acertmgr/configuration.py:172-190 | the loop builds the handler map `Handlers` defines |
| Configuration.ParseConfigEntry | acertmgr/configuration.py:85-192 | the method computes the domain group `ResolveEntry` defines, or its first error |
| Configuration.CompleteActionDocs | acertmgr/configuration.py:167-170 | the loop completes the override documents as `CompleteActions` does, and its actions are exactly the completed documents that have a `path` |
| Configuration.CompleteActionsStopsAtError | acertmgr/configuration.py:169-170 | a failing completion ends the loop with its error |
| Configuration.CompleteActionsFacts | acertmgr/configuration.py:167-170 | completion succeeds exactly when `defaults` is a dictionary or no document has a `path`. Then documents with a `path` are completed, the others are kept, and the order is preserved |
| Configuration.CompletedActions | acertmgr/configuration.py:167-170 | the actions are the override documents with a `path`, in order, each completed |
| Configuration.CompletedKeys | acertmgr/configuration.py:43-53 | after completion, a document holds a non-path setting exactly when it had it or it has a `path` and the defaults give it |
| Configuration.ResolveSettingsErrors | acertmgr/configuration.py:103-152 | the settings resolve exactly when `ttl_days` and `key_length` convert to integers and `cert_dir` is a string |
| Configuration.ResolvedCaFile | acertmgr/configuration.py:154-165 | the CA location is static exactly when the domains string contains `ca_file` or `server_ca` is global; otherwise it is `<cert_dir>/<id>.ca`. Extra override documents never change the decision |
| Configuration.ResolvedLegacyPaths | acertmgr/configuration.py:136-148 | without an override, `cert_file`/`key_file` come from the global setting, then the legacy `server_cert`/`server_key`, then `<cert_dir>/<id>.crt`/`.key` |
| Configuration.ResolveEntryErrors | acertmgr/configuration.py:85-192 | an entry resolves exactly when its names translate, its settings resolve, and its targets can be completed |
| Configuration.TranslatedDomains | acertmgr/configuration.py:89-97 | `domains` and `domainlist` split and join into each other. Every listed name comes from the raw string. After a translation only non-ASCII names remain |
| Configuration.ResolvedDomains | acertmgr/configuration.py:89-97 | the same facts for a resolved group, and an untranslated group keeps its domains string |
| Configuration.ResolvedActions | acertmgr/configuration.py:167-170 | a resolved group has one completed action per override document with a `path`, in order |
| Configuration.ResolvedHandlers | acertmgr/configuration.py:172-190 | a resolved group has handler settings for exactly its listed domains, and its override documents keep their order and gain defaults only where they have a `path` |
| Configuration.DefaultSettings | acertmgr/configuration.py:102-117 | with no configuration, the API is v2, the authority is the v02 Let's Encrypt URL, the ToS answer is the runtime one, there is no contact, and the account key is `<work_dir>/account.key` |
| Configuration.DefaultLimits | acertmgr/configuration.py:100-152 | with no configuration, the defaults are empty, the certificate directory is the work directory, the TTL is 30 days, keys are 4096 bits, and superseded revocation and static requests are off |
| Configuration.DefaultFiles | acertmgr/configuration.py:132-165 | with no configuration, the request, certificate, key and CA paths are `<work_dir>/<id>.csr`, `.crt`, `.key` and `.ca` |
| Configuration.ResolvedDefaults | acertmgr/configuration.py:85-192 | an entry with no overrides and no global configuration resolves to the defaults, with no actions and empty handler settings |
| Configuration.EmptyHandlers | acertmgr/configuration.py:172-190 | without global or override settings, every handler configuration is empty |
| ConfigLoad.LegacyLocations | acertmgr/configuration.py:23-25 | the legacy file and directory lie in the legacy work directory |
| ConfigLoad.CommandLineWins | acertmgr/configuration.py:215-253 | each command-line choice of file, directory, work directory or ToS answer, given on its own, beats everything on the host and is independent of the other options |
| ConfigLoad.FreshInstallation | acertmgr/configuration.py:215-253 | without options or legacy files, everything lives in `/etc/acertmgr` and there is no ToS answer |
| ConfigLoad.LegacyInstallation | acertmgr/configuration.py:215-253 | with the legacy file, it is used and the ToS count as agreed. The legacy directory is used when present, and `/etc/acme` is the work directory exactly when both legacy directories exist |
| ConfigLoad.ForceRenewAscii | acertmgr/configuration.py:256-261 | ASCII names to renew are kept as given |
| ConfigLoad.InjectLegacyKeeps | acertmgr/configuration.py:279-283 | the legacy defaults add only a missing `api` (v1) and `authority` (v01 URL), and every existing value is kept |
| ConfigLoad.LegacyGlobalConfig | acertmgr/configuration.py:269-283 | a legacy global file that parses to a dictionary, as a top-level mapping, loads with `api` and `authority` set and its own values kept |
| ConfigLoad.LoadEntry | acertmgr/configuration.py:295-296 | one entry becomes the group `EntryConfig` defines: the domain names are translated first, then the global configuration is used as a dictionary |
| ConfigLoad.ItemsToDocDistinct | acertmgr/configuration.py:293-296 | a parsed mapping without repeated keys is the dictionary of its pairs, one entry per pair with its own value |
| ConfigLoad.FileGroupsPerKey | acertmgr/configuration.py:293-296 | a loaded domain file yields one group per key of its dictionary, each the group its key and value resolve to |
| ConfigLoad.LoadFile | acertmgr/configuration.py:293-301 | the entries of one file become groups in file order, or the file's or first entry's error; a directory fails with IsADirectoryError and a missing file with FileNotFoundError |
| ConfigLoad.UnopenableFileAborts | acertmgr/configuration.py:289-293 | a listed domain configuration name that is a directory or a missing file ends the load with IsADirectoryError or FileNotFoundError |
| ConfigLoad.EntryConfigsInOrder | acertmgr/configuration.py:295-296 | a file loads exactly when each entry resolves, with one group per entry in order |
| ConfigLoad.EntryFailureAborts | acertmgr/configuration.py:295-301 | the first failing entry's error is the file's error |
| ConfigLoad.LoadName | acertmgr/configuration.py:289-293 | a listed name becomes the groups of its file when it is a domain configuration file, and nothing otherwise |
| ConfigLoad.LoadDir | acertmgr/configuration.py:287-301 | the loop over the listing gathers the groups `DirConfigs` defines, in listing order |
| ConfigLoad.GatherStopsAtError | acertmgr/configuration.py:287-301 | once a file fails, later files do not change the outcome |
| ConfigLoad.SkippedFileIgnored | acertmgr/configuration.py:291-292 | a name that is not a domain configuration file adds nothing |
| ConfigLoad.GlobalFileNotADomainFile | acertmgr/configuration.py:291-292 | the global configuration file is never read as a domain file |
| ConfigLoad.LoadConfigs | acertmgr/configuration.py:269-301 | the global configuration is loaded and then the domain directory, as `ConfigsSpec` defines |
| ConfigLoad.Load | acertmgr/configuration.py:196-303 | `load()` returns the runtime settings and the groups `LoadSpec` defines, or the first error |
| ConfigLoad.LoadRuntime | acertmgr/configuration.py:215-283 | after a successful load, the global configuration loaded, the work directory and ToS answer follow the decisions above, revocation is set exactly when requested, and `force_renew` is the translated value |
| Manager.CreateChallengeHandler | acertmgr/__init__.py:38-46 | a handler is created exactly when its mode (the settings' `mode`, else "standalone") imports and constructs; it then carries that mode and the settings, and otherwise the import's or constructor's error is raised |
| Manager.HandlerMode | acertmgr/__init__.py:39-42 | a domain's challenge mode comes from the first override naming the domain, else the first naming none, else the global `mode`, else "standalone" |
| Manager.ChallengeHandlersFacts | acertmgr/__init__.py:57-61 | the handlers are created exactly when every listed domain has handler settings and its mode imports and constructs; then there is one per listed domain, of the mode its settings choose |
| Manager.CreateHandlers | acertmgr/__init__.py:57-61 | the loop filling the handler dictionary computes the handlers `ChallengeHandlers` defines, or the first domain's error |
| Manager.HandlersStopAtError | acertmgr/__init__.py:59-61 | the first domain without handler settings, or whose handler cannot be created, ends the loop |
| Manager.ResolvedChallengeHandlers | acertmgr/__init__.py:57-61 | every resolved group has handler settings for each listed domain, so creating its challenge handlers fails exactly when some listed domain's mode cannot be imported or constructed |
| Manager.CsrStaticStrings | acertmgr/__init__.py:74 | a string enables the static request exactly when it spells "true" in any case, and the default "false" does not |
| Manager.CertGetErrors | acertmgr/__init__.py:51-89 | an `account_key` that is not a string fails before anything is written, and a failed registration writes only the account key. Before the exchange, `cert_get` fails exactly when one of these happens, a listed domain has no handler settings or its handler cannot be created, or the key or request location is not a string. After it, it fails exactly when the authority fails, or a valid certificate or its chain has a location that is not a string. A failed exchange leaves the account key, the key and the request written |
| Manager.CertGetHandlerFails | acertmgr/__init__.py:57-61 | after registration, a domain whose handler cannot be created ends `cert_get` with the loop's error, with only the account key written |
| Manager.CertGetHandlersAndKey | acertmgr/__init__.py:57-70 | one handler per listed domain, of the mode its settings choose; the key on disk (after the account key is stored) is used, else a new key of `key_length` bits |
| Manager.CertGetAccountKeyPersisted | acertmgr/__init__.py:23-29 | once `account_key` is a string, the account key file exists after `cert_get` whatever the outcome, and holds the key the run used unless another of the group's files shares its location |
| Manager.CertGetAccountKeyStable | acertmgr/__init__.py:23-29 | an account key is created only once: the next run, with any tools, uses the account key this run stored |
| Manager.CertGetKeyPersisted | acertmgr/__init__.py:64-70 | after registration and handler creation succeed, the key file exists whatever the outcome, and holds the key the run used unless another of the group's files shares its location |
| Manager.CertGetKeyStable | acertmgr/__init__.py:64-70 | a key is created only once: the next run, with any tools, uses the key this run stored |
| Manager.CertGetCsr | acertmgr/__init__.py:72-83 | the request on disk is reused exactly when it exists and `csr_static` is true, else a new one is made for the domain list with the run's key and stored at `csr_file`. The certificate is requested with it |
| Manager.CertGetNoCertificate | acertmgr/__init__.py:83-89 | when the exchange fails or returns a certificate that is not valid for `ttl_days`, only the account key, key and request locations can change: all three then exist, every other file is as before, an existing account key or key is kept, and an existing static request is kept |
| Manager.CertGetValidCertificate | acertmgr/__init__.py:85-89 | a valid certificate is stored at `cert_file` on top of the account key, key and request, and the chain at `ca_file` only when the CA is not static and a chain was returned; nothing else changes |
| Manager.FileStore.CertGet | acertmgr/__init__.py:51-89 | the method's outcome and the files afterwards, including the key and request written before a failure, are those `CertGetSpec` defines |
| Manager.FormatTokens | acertmgr/__init__.py:102-103 | one token per comma-separated piece, token i being piece i stripped, none containing a comma |
| Manager.FormatTokensSpaced | acertmgr/__init__.py:102-103 | the format "crt, key" gives the tokens `crt` and `key` |
| Manager.FormatTokensRoundTrip | acertmgr/__init__.py:102-103 | parsing a comma-joined list of tokens gives back the tokens |
| Manager.AssembleOk | acertmgr/__init__.py:109-127 | the token loop completes exactly when every token's piece can be read |
| Manager.AssembleContent | acertmgr/__init__.py:109-127 | a completed loop writes the pieces of the tokens in order and nothing else |
| Manager.AssembleConcat | acertmgr/__init__.py:109-127 | the loop completes exactly when every piece can be read, and the target is then the concatenation of the pieces |
| Manager.AssemblePartial | acertmgr/__init__.py:109-127 | a failed loop failed at some token after all earlier ones succeeded, and the target keeps exactly what those earlier tokens wrote |
| Manager.AssembleStops | acertmgr/__init__.py:109-127 | after a failing token, later tokens change nothing |
| Manager.AssembleCongruence | acertmgr/__init__.py:109-127 | two token runs with the same effect keep the same effect when the same tokens follow |
| Manager.UnknownTokenIgnored | acertmgr/__init__.py:110-127 | a token other than `crt`, `key` and `ca` writes nothing and cannot fail |
| Manager.MissingCaFails | acertmgr/__init__.py:119-121 | a `ca` token with a missing CA file makes `cert_put` fail |
| Manager.TargetLookups | acertmgr/__init__.py:97-107 | the lookups succeed exactly when the nine settings are present and `format` is a string. A failed lookup names a missing setting |
| Manager.CertPutWritesTarget | acertmgr/__init__.py:109-127 | `cert_put` changes no file but its target |
| Manager.CertPutSucceeds | acertmgr/__init__.py:95-141 | a successful `cert_put` returns the target's `action`. The target holds the concatenated pieces, read after the target was truncated |
| Manager.CertPutMissingCa | acertmgr/__init__.py:119-121 | a missing CA file in the format fails `cert_put`; a leading `ca` token leaves the target truncated and empty |
| Manager.FileStore.CertPut | acertmgr/__init__.py:95-141 | the method's outcome and the files afterwards are those `CertPutSpec` defines |
| Manager.FileStore.WriteTarget | acertmgr/__init__.py:109-127 | the target's new contents are what the token loop assembles from the truncated files, and the error is the loop's |
| Manager.RunAllStopsAtError | acertmgr/__init__.py:152-163 | a failing group or target ends the run, leaving the files as they are then |
| Manager.RunAllIdle | acertmgr/__init__.py:152-163 | steps that change nothing and collect nothing make a run that does neither |
| Manager.RunAllActions | acertmgr/__init__.py:152-163 | every collected action was collected by some step |
| Manager.RunAllFrame | acertmgr/__init__.py:152-163 | a file that no step touches is untouched by the run |
| Manager.DeployTargetsActions | acertmgr/__init__.py:160-163 | every collected action is the `action` of one of the group's targets |
| Manager.DeployTargetsFrame | acertmgr/__init__.py:160-163 | deployment touches no file that is not one of the targets' paths |
| Manager.DeployAllCurrent | acertmgr/__init__.py:160-163 | when every target is current, deployment changes nothing and collects nothing |
| Manager.ConfigStepRenewal | acertmgr/__init__.py:152-163 | a group with a valid certificate is deployed as it is. Otherwise it is renewed first and deployed on the renewed files, and a failed renewal ends the run with its error |
| Manager.UpToDateStep | acertmgr/__init__.py:152-163 | an up-to-date group is neither renewed nor deployed |
| Manager.MainNothingToDo | acertmgr/__init__.py:152-173 | when every group is up to date, `main` writes nothing and collects no action |
| Manager.ConfigStepActions | acertmgr/__init__.py:160-163 | a group's actions are `action` values of its targets |
| Manager.MainActions | acertmgr/__init__.py:149-173 | every action `main` runs is the `action` of a target of some group |
| Manager.ActionsToRun | acertmgr/__init__.py:165-167 | each distinct non-None action is run, and only collected ones |
| Manager.FileStore.DeployTarget | acertmgr/__init__.py:160-163 | one target deploys as `DeployOne` defines |
| Manager.FileStore.Deploy | acertmgr/__init__.py:160-163 | the loop over targets has the effect and actions `DeployTargets` defines |
| Manager.FileStore.Step | acertmgr/__init__.py:152-163 | one group has the effect and actions `ConfigStep` defines |
| Manager.FileStore.Manage | acertmgr/__init__.py:144-173 | the files after `main` are those `MainSpec` defines, and `main` returns its error or the distinct non-None actions it runs |
| Manager.FileStore.constructor | acertmgr/__init__.py:144-149 | the store starts with the host's files |
| Manager.MainAsWrittenFails | acertmgr/__init__.py:146-153 | as written, the first loop iteration looks up `cert_file` in the runtime dictionary and raises KeyError |

## Left out

- Command-line parsing (argparse) is left out: `Args` holds the parsed options.
- JSON and YAML parsing are left out: a file's contents are its parsed value, or a "not parsable" marker.
- Creating the work directory (`os.mkdir`) is left out. So are all printed warnings and messages.
- The MD5 digest and the IDNA encoder are parameters.
- Whether the `idna` module is loaded is a parameter.
- `create_authority`, account registration and the ACME exchange are parameters: `register` takes the account key and returns the error of importing the authority module, creating the authority or registering the account, if any, and `getCrtFromCsr` returns the certificate and chain or the exchange's error. What the challenge handlers do to the host during the exchange is not modelled.
- The dynamic import of the authority and challenge modules is a parameter: `loadHandler` returns the error importing a mode's module or constructing its handler raises (an ImportError for an unknown mode), if any. A created handler is its mode and settings.
- Key and request generation are parameters. `new_account_key` storing its key at `account_key` and `new_ssl_key` storing its key at `key_file` are modelled; their file permissions are not.
- PEM objects are identified with their file text. `read_pem_file` parsing errors are not modelled.
- Ownership and permission changes (`acertmgr/__init__.py:130-139`: `pwd.getpwnam`, `grp.getgrnam`, `os.chown`, `os.chmod`, `int(perm, 8)`) are left out, because they are calls into the operating system. With them go the KeyError for an unknown user or group, the TypeError for a `perm` that is not a string and the ValueError for a `perm` that is not octal; the model's `cert_put` succeeds in those cases.
- Executing actions in a shell is left out. `main` returns the actions it would run.
- `set.add` of an unhashable action (a list or a dictionary) raises TypeError in Python; the model does not include that error.
- Manager.Lower: folds only the ASCII letters, because Python's full Unicode case mapping is not modelled. No non-ASCII string folds to "true" anyway.
- ConfigLoad.EntryConfig: when an entry's value is not a list of dictionaries, the model reports a TypeError at once. The source may instead run substring tests on string elements and fail later, with another exception, or not at all.
- ConfigLoad.EntryConfig: with such a value, the model takes this TypeError ahead of a failing setting (`ttl_days`, `key_length`, `cert_dir`) of the same entry, which the source may reach first.
- The revoke `mode` key of the runtime configuration is kept only in `RuntimeDict`. Revocation itself is not part of the run loop.
- Concurrent changes to the files by other processes are not modelled.
- Manager.FileStore.WriteTarget: the target keeps what was written before a failing token, which is what the file holds once Python closes it. Python's write buffer is not modelled: each source file is read from the files as they are when the loop starts, after truncation. The source buffers writes and flushes once the buffer (about 8 KiB) fills, so a later token whose source file is the target itself could read that partially flushed content; the model reads the truncated, empty file.
- Configuration.ToIntOfString: decimal digits outside ASCII, which Python's `int()` accepts, are rejected. JSON's and YAML's infinities and NaN (which `json.load` and `yaml.safe_load` accept, and on which `int()` raises OverflowError or ValueError), YAML dates and other YAML types are not represented among the configuration values.
- YAML mappings with keys that are not strings are not represented: every key of a parsed mapping is a string.
- Manager.PathOf: integer file descriptors, which `open()` also accepts, are treated as not a path (TypeError).
- ConfigLoad.ValidHost: the model states what holds of files the parsers produced (no repeated mapping keys, a dictionary only as a top-level mapping) as this predicate, which the per-key lemma requires; `Host` itself allows other values.

## Findings

| source | as written | input that shows it | evidently intended | confidence | as-written member | corrected member |
|---|---|---|---|---|---|---|
| acertmgr/__init__.py:146-153 | `configs = configuration.load()` is the pair `(runtimeconfig, domainconfigs)`, and `for config in configs` iterates over that pair, so the first `config` is the runtime dictionary and `config['cert_file']` raises KeyError | any run: the runtime dictionary never has a `cert_file` key | iterate over the domain configurations, `load()[1]` | not executed | Manager.MainAsWrittenFails | Manager.FileStore.Manage |

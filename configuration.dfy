/** The per-domain-group configuration resolver of acertmgr/configuration.py:
    `update_config_value`, `complete_action_config`, `idna_convert` and
    `parse_config_entry`. */
module Configuration {
  import opened Values
  import opened Text

  const DEFAULT_KEY_LENGTH: int := 4096
  const DEFAULT_TTL: int := 30
  const DEFAULT_API: string := "v2"
  const DEFAULT_AUTHORITY: string := "https://acme-v02.api.letsencrypt.org"

  /** The settings `load` resolves before any domain entry is parsed
      (the `runtimeconfig` dictionary). */
  datatype RuntimeConfig = RuntimeConfig(
    workDir: string,
    tosAgreement: Value,
    forceRenew: Option<string>,
    revoke: Option<string>,
    revokeReason: Option<int>)

  /** What the resolver calls but does not implement: whether the `idna`
      module could be imported, its A-label encoder (None when it raises),
      and the md5 hex digest of a string's UTF-8 bytes. */
  datatype Env = Env(
    idnaAvailable: bool,
    idnaEncode: string -> Option<string>,
    md5Hex: string -> string)

  /** `int(v)` */
  function ToInt(v: Value): Result<int>
  {
    match v
    case Int(i) => Ok(i)
    case Bool(b) => Ok(if b then 1 else 0)
    case Float(x) => Ok(if x >= 0.0 then x.Floor else -((-x).Floor))
    case Str(s) => (match ParseInt(s) case Some(n) => Ok(n) case None => Err(ValueError))
    case _ => Err(TypeError)
  }

  /** An integer written as a string converts back to the same integer;
      among the kinds of value a configuration file holds, only numbers,
      booleans and strings convert. */
  lemma ToIntOfString(n: int, v: Value)
    ensures ToInt(Str(IntToString(n))) == Ok(n)
    ensures ToInt(Int(n)) == Ok(n)
    ensures ToInt(v).Ok? ==> v.Int? || v.Bool? || v.Float? || v.Str?
  {
    ParseIntRoundTrip(n);
  }

  /** `int()` of a float drops the fraction: it rounds toward zero. */
  lemma ToIntOfFloat(x: real)
    ensures ToInt(Float(x)).Ok?
    ensures
      var n := ToInt(Float(x)).value;
      && (x >= 0.0 ==> 0 <= n && n as real <= x < n as real + 1.0)
      && (x < 0.0 ==> n <= 0 && n as real - 1.0 < x <= n as real)
    ensures x == x.Floor as real ==> ToInt(Float(x)) == Ok(x.Floor)
  {
    if x < 0.0 && x == x.Floor as real {
      assert -x == (-x.Floor) as real;
    }
  }

  // ---------------------------------------------------------------------
  // update_config_value

  /** Index of the first document that defines `name`; |docs| when none does. */
  function FirstIndexWith(docs: seq<Doc>, name: string): (k: nat)
    ensures k <= |docs|
    ensures k < |docs| ==> name in docs[k]
    ensures forall j :: 0 <= j < k ==> name !in docs[j]
    decreases |docs|
  {
    if |docs| == 0 then 0
    else if name in docs[0] then 0
    else 1 + FirstIndexWith(docs[1..], name)
  }

  /** `update_config_value(config, name, localconfig, globalconfig, default)`:
      the value it stores under `name`. */
  function ResolveValue(name: string, local: seq<Doc>, global: Doc, default: Value): Value
  {
    var k := FirstIndexWith(local, name);
    if k < |local| then local[k][name] else GetOr(global, name, default)
  }

  /** `update_config_value(config, name, localconfig, globalconfig, default)`
      on a dictionary: `name` gets the resolved value and no other key of
      `config` changes. (ParseConfigEntry stores each setting in its own
      field of a Settings record instead.) */
  function UpdateConfigValue(config: Doc, name: string, local: seq<Doc>, global: Doc, default: Value): (r: Doc)
    ensures r.Keys == config.Keys + {name}
    ensures forall k :: k in config && k != name ==> r[k] == config[k]
    ensures r[name] == ResolveValue(name, local, global, default)
  {
    config[name := ResolveValue(name, local, global, default)]
  }

  /** Precedence: the first override document that has the key, else the
      global configuration, else the default. */
  lemma ResolveValuePrecedence(name: string, local: seq<Doc>, global: Doc, default: Value, i: nat)
    requires i < |local| && name in local[i]
    requires forall j :: 0 <= j < i ==> name !in local[j]
    ensures ResolveValue(name, local, global, default) == local[i][name]
    ensures forall g: Doc, d: Value :: ResolveValue(name, local, g, d) == local[i][name]
  {
  }

  lemma ResolveValueFallback(name: string, local: seq<Doc>, global: Doc, default: Value)
    requires forall j :: 0 <= j < |local| ==> name !in local[j]
    ensures name in global ==> ResolveValue(name, local, global, default) == global[name]
    ensures name !in global ==> ResolveValue(name, local, global, default) == default
  {
  }

  /** Once some override document defines `name`, documents appended after
      it never change the resolved value. */
  lemma ResolveValueIgnoresLater(name: string, local: seq<Doc>, more: seq<Doc>, global: Doc, default: Value)
    requires exists i :: 0 <= i < |local| && name in local[i]
    ensures ResolveValue(name, local + more, global, default) == ResolveValue(name, local, global, default)
  {
    var k := FirstIndexWith(local, name);
    var k2 := FirstIndexWith(local + more, name);
    assert k < |local|;
    assert (local + more)[k] == local[k];
  }

  // ---------------------------------------------------------------------
  // complete_action_config

  const PathKeys: set<string> := {"ca_file", "cert_file", "key_file"}

  /** `d` with every key of `defaults` it lacks added. */
  function FillDefaults(d: Doc, defaults: map<string, Value>): Doc
  {
    map k | k in d.Keys + defaults.Keys :: if k in d then d[k] else defaults[k]
  }

  /** The action document `complete_action_config` leaves behind. The
      group's settings always hold `defaults`, `ca_file`, `cert_file` and
      `key_file`, so the only failure is defaults that are not a dictionary. */
  function Completed(doc: Doc, s: Settings): Result<Doc>
  {
    match s.defaults
    case Dict(defaults) =>
      var paths := doc["ca_file" := s.caFile]["cert_file" := s.certFile]["key_file" := s.keyFile];
      var filled := FillDefaults(paths, defaults);
      Ok(if "action" in filled then filled else filled["action" := Null])
    case _ => Err(AttributeError)
  }

  /** The group's three file locations always win, the document's own keys
      beat the defaults, every default is added, and `action` is present. */
  lemma CompletedShape(doc: Doc, s: Settings)
    ensures Completed(doc, s).Ok? <==> s.defaults.Dict?
    ensures Completed(doc, s).Ok? ==>
      var r := Completed(doc, s).value;
      var defaults := s.defaults.entries;
      && r.Keys == doc.Keys + defaults.Keys + PathKeys + {"action"}
      && r["ca_file"] == s.caFile && r["cert_file"] == s.certFile && r["key_file"] == s.keyFile
      && (forall k :: k in doc && k !in PathKeys ==> r[k] == doc[k])
      && (forall k :: k !in doc && k !in PathKeys && k in defaults ==> r[k] == defaults[k])
      && ("action" !in doc && "action" !in defaults ==> r["action"] == Null)
  {
  }

  /** Completion fails only when the defaults are not a dictionary. */
  lemma CompletedDefined(doc: Doc, s: Settings)
    ensures Completed(doc, s).Ok? <==> s.defaults.Dict?
  {
  }

  /** `complete_action_config(domainconfig, config)`: the document is
      updated in place; here the updated document is returned. */
  method CompleteActionConfig(doc: Doc, s: Settings) returns (r: Result<Doc>)
    ensures r == Completed(doc, s)
  {
    var defaults := s.defaults;
    var d := doc["ca_file" := s.caFile];
    d := d["cert_file" := s.certFile];
    d := d["key_file" := s.keyFile];
    if !defaults.Dict? {
      return Err(AttributeError);
    }
    ghost var paths := d;
    var pending := defaults.entries.Keys;
    while pending != {}
      invariant pending <= defaults.entries.Keys
      invariant d.Keys == paths.Keys + (defaults.entries.Keys - pending)
      invariant forall k :: k in d ==> d[k] == if k in paths then paths[k] else defaults.entries[k]
      decreases pending
    {
      var name :| name in pending;
      if name !in d {
        d := d[name := defaults.entries[name]];
      }
      pending := pending - {name};
    }
    assert d == FillDefaults(paths, defaults.entries);
    if "action" !in d {
      d := d["action" := Null];
    }
    return Ok(d);
  }

  // ---------------------------------------------------------------------
  // idna_convert

  /** A Python dict from A-label name to original name: pairs in insertion order. */
  type Translation = seq<(string, string)>

  predicate DistinctKeys(t: Translation)
  {
    forall i, j :: 0 <= i < j < |t| ==> t[i].0 != t[j].0
  }

  function KeysOf(t: Translation): set<string>
  {
    set i | 0 <= i < |t| :: t[i].0
  }

  function KeyIndex(t: Translation, k: string): (i: nat)
    ensures i <= |t|
    ensures i < |t| ==> t[i].0 == k
    ensures forall j :: 0 <= j < i ==> t[j].0 != k
    decreases |t|
  {
    if |t| == 0 then 0
    else if t[0].0 == k then 0
    else 1 + KeyIndex(t[1..], k)
  }

  /** `t[k] = v`: an existing key keeps its position and takes the new value;
      a new key is appended. */
  function Put(t: Translation, k: string, v: string): (r: Translation)
    ensures DistinctKeys(t) ==> DistinctKeys(r)
    ensures KeysOf(r) == KeysOf(t) + {k}
    ensures forall j :: 0 <= j < |r| ==> r[j] == (k, v) || r[j] in t
    ensures (k, v) in r
    ensures KeyIndex(t, k) < |t| ==>
      |r| == |t| && r[KeyIndex(t, k)] == (k, v) &&
      forall j :: 0 <= j < |t| && j != KeyIndex(t, k) ==> r[j] == t[j]
    ensures KeyIndex(t, k) == |t| ==> r == t + [(k, v)]
  {
    var i := KeyIndex(t, k);
    if i < |t| then
      var r := t[i := (k, v)];
      assert forall j :: 0 <= j < |r| ==> r[j].0 == t[j].0;
      assert k in KeysOf(t) by { assert t[i].0 == k; }
      assert KeysOf(r) == KeysOf(t) by {
        forall x | x in KeysOf(t) ensures x in KeysOf(r) {
          var j :| 0 <= j < |t| && t[j].0 == x;
          assert r[j].0 == x;
        }
      }
      r
    else
      var r := t + [(k, v)];
      assert forall j :: 0 <= j < |t| ==> r[j] == t[j];
      assert r[|t|].0 == k;
      assert KeysOf(r) == KeysOf(t) + {k} by {
        forall x | x in KeysOf(t) ensures x in KeysOf(r) {
          var j :| 0 <= j < |t| && t[j].0 == x;
          assert r[j].0 == x;
        }
      }
      r
  }

  /** `t.get(k)` */
  function Lookup(t: Translation, k: string): Option<string>
  {
    var i := KeyIndex(t, k);
    if i < |t| then Some(t[i].1) else None
  }

  /** `t.values()` */
  function ValuesOf(t: Translation): (r: seq<string>)
    ensures |r| == |t|
    ensures forall i :: 0 <= i < |t| ==> r[i] == t[i].1
  {
    seq(|t|, i requires 0 <= i < |t| => t[i].1)
  }

  /** The key a non-ASCII domain is filed under: its A-label form, where a
      leading `*.` is kept and only the rest is encoded. */
  function EncodedName(domain: string, encode: string -> Option<string>): Option<string>
  {
    if StartsWith(domain, "*.") then
      match encode(domain[2..])
      case Some(e) => Some("*." + e)
      case None => None
    else encode(domain)
  }

  /** The loop of `idna_convert`, from the domains still to visit and the
      dictionary built so far. */
  function TranslateFrom(ds: seq<string>, encode: string -> Option<string>, acc: Translation): Result<Translation>
    decreases |ds|
  {
    if |ds| == 0 then Ok(acc)
    else if IsAscii(ds[0]) then TranslateFrom(ds[1..], encode, acc)
    else match EncodedName(ds[0], encode)
      case None => Err(IdnaError(ds[0]))
      case Some(k) => TranslateFrom(ds[1..], encode, Put(acc, k, ds[0]))
  }

  /** `idna_convert(domainlist)` */
  function Translate(domainlist: seq<string>, env: Env): Result<Translation>
  {
    if env.idnaAvailable && !IsAscii(Concat(domainlist)) then TranslateFrom(domainlist, env.idnaEncode, [])
    else Ok([])
  }

  method IdnaConvert(domainlist: seq<string>, env: Env) returns (r: Result<Translation>)
    ensures r == Translate(domainlist, env)
  {
    if !(env.idnaAvailable && !IsAscii(Concat(domainlist))) {
      return Ok([]);
    }
    var translation: Translation := [];
    for i := 0 to |domainlist|
      invariant TranslateFrom(domainlist, env.idnaEncode, []) == TranslateFrom(domainlist[i..], env.idnaEncode, translation)
    {
      assert domainlist[i..][1..] == domainlist[i + 1..];
      var domain := domainlist[i];
      if !IsAscii(domain) {
        var name := EncodedName(domain, env.idnaEncode);
        if name.None? {
          return Err(IdnaError(domain));
        }
        translation := Put(translation, name.value, domain);
      }
    }
    assert domainlist[|domainlist|..] == [];
    return Ok(translation);
  }

  /** Every entry maps the encoding of a non-ASCII domain of `ds` (or of the
      dictionary it started from) back to that domain. */
  predicate SoundTranslation(t: Translation, ds: seq<string>, encode: string -> Option<string>)
  {
    && DistinctKeys(t)
    && forall i :: 0 <= i < |t| ==>
         t[i].1 in ds && !IsAscii(t[i].1) && EncodedName(t[i].1, encode) == Some(t[i].0)
  }

  lemma {:induction false} TranslateFromFacts(ds: seq<string>, all: seq<string>, encode: string -> Option<string>, acc: Translation)
    requires SoundTranslation(acc, all, encode)
    requires forall d :: d in ds ==> d in all
    ensures TranslateFrom(ds, encode, acc).Ok? ==>
      var t := TranslateFrom(ds, encode, acc).value;
      && SoundTranslation(t, all, encode)
      && KeysOf(acc) <= KeysOf(t)
      && forall d :: d in ds && !IsAscii(d) ==> EncodedName(d, encode).Some? && EncodedName(d, encode).value in KeysOf(t)
    ensures TranslateFrom(ds, encode, acc).Err? <==> exists d :: d in ds && !IsAscii(d) && EncodedName(d, encode).None?
    decreases |ds|
  {
    if |ds| > 0 {
      assert forall d :: d in ds <==> d == ds[0] || d in ds[1..];
      if IsAscii(ds[0]) {
        TranslateFromFacts(ds[1..], all, encode, acc);
      } else if EncodedName(ds[0], encode).Some? {
        var k := EncodedName(ds[0], encode).value;
        var acc' := Put(acc, k, ds[0]);
        assert SoundTranslation(acc', all, encode);
        TranslateFromFacts(ds[1..], all, encode, acc');
      }
    }
  }

  /** What `idna_convert` returns: nothing to do (an empty dictionary) when
      the idna module is missing or every name is ASCII; otherwise exactly
      one entry per distinct encoding of a non-ASCII domain, mapping it back
      to a domain that has that encoding; a failing encoding aborts. */
  lemma TranslateEntries(domainlist: seq<string>, env: Env)
    ensures (!env.idnaAvailable || forall k :: 0 <= k < |domainlist| ==> IsAscii(domainlist[k]))
      ==> Translate(domainlist, env) == Ok([])
    ensures Translate(domainlist, env).Err? <==>
      env.idnaAvailable && exists d :: d in domainlist && !IsAscii(d) && EncodedName(d, env.idnaEncode).None?
    ensures Translate(domainlist, env).Ok? ==>
      var t := Translate(domainlist, env).value;
      && SoundTranslation(t, domainlist, env.idnaEncode)
      && (env.idnaAvailable ==> forall d :: d in domainlist && !IsAscii(d) ==> EncodedName(d, env.idnaEncode).value in KeysOf(t))
      && (|t| > 0 <==> env.idnaAvailable && exists d :: d in domainlist && !IsAscii(d))
  {
    ConcatAscii(domainlist);
    TranslateFromFacts(domainlist, domainlist, env.idnaEncode, []);
    if Translate(domainlist, env).Ok? {
      var t := Translate(domainlist, env).value;
      if env.idnaAvailable && exists d :: d in domainlist && !IsAscii(d) {
        var d :| d in domainlist && !IsAscii(d);
        assert EncodedName(d, env.idnaEncode).value in KeysOf(t);
      }
    }
  }

  /** A wildcard name keeps its `*.` marker and only the suffix is encoded. */
  lemma WildcardKeepsPrefix(t: Translation, domainlist: seq<string>, encode: string -> Option<string>, i: nat)
    requires SoundTranslation(t, domainlist, encode) && i < |t|
    requires StartsWith(t[i].1, "*.")
    ensures StartsWith(t[i].0, "*.") && Some(t[i].0[2..]) == encode(t[i].1[2..])
  {
    var e := encode(t[i].1[2..]).value;
    assert t[i].0 == "*." + e;
    assert ("*." + e)[2..] == e;
  }

  // ---------------------------------------------------------------------
  // parse_config_entry

  /** `[x for x in docs if key in x]` */
  function WithKey(docs: seq<Doc>, key: string): (r: seq<Doc>)
    ensures |r| <= |docs|
    ensures forall i :: 0 <= i < |r| ==> key in r[i] && r[i] in docs
    decreases |docs|
  {
    if |docs| == 0 then []
    else
      var last := docs[|docs| - 1];
      var front := WithKey(docs[..|docs| - 1], key);
      assert forall d :: d in front ==> d in docs;
      front + (if key in last then [last] else [])
  }

  /** The positions in `docs` of the documents holding `key`, in order. */
  function KeyPositions(docs: seq<Doc>, key: string): (ps: seq<nat>)
    ensures forall j :: 0 <= j < |ps| ==> ps[j] < |docs| && key in docs[ps[j]]
    ensures forall j, l :: 0 <= j < l < |ps| ==> ps[j] < ps[l]
    ensures forall p :: 0 <= p < |docs| && key in docs[p] ==> p in ps
    decreases |docs|
  {
    if |docs| == 0 then []
    else
      var front := KeyPositions(docs[..|docs| - 1], key);
      front + (if key in docs[|docs| - 1] then [|docs| - 1] else [])
  }

  /** The filter keeps exactly the documents holding `key`, in their order. */
  lemma {:induction false} WithKeyExact(docs: seq<Doc>, key: string)
    ensures |WithKey(docs, key)| == |KeyPositions(docs, key)|
    ensures forall j :: 0 <= j < |WithKey(docs, key)| ==>
      WithKey(docs, key)[j] == docs[KeyPositions(docs, key)[j]]
    decreases |docs|
  {
    if |docs| > 0 {
      var front := docs[..|docs| - 1];
      WithKeyExact(front, key);
      assert forall j :: 0 <= j < |front| ==> front[j] == docs[j];
    }
  }

  /** Index of the first document without `key`; |docs| when every document has it. */
  function FirstIndexWithout(docs: seq<Doc>, key: string): (k: nat)
    ensures k <= |docs|
    ensures k < |docs| ==> key !in docs[k]
    ensures forall j :: 0 <= j < k ==> key in docs[j]
    decreases |docs|
  {
    if |docs| == 0 then 0
    else if key !in docs[0] then 0
    else 1 + FirstIndexWithout(docs[1..], key)
  }

  /** Index of the first document whose `domain` equals `name`; |docs| when none does. */
  function FirstIndexForDomain(docs: seq<Doc>, name: string): (k: nat)
    ensures k <= |docs|
    ensures k < |docs| ==> "domain" in docs[k] && docs[k]["domain"] == Str(name)
    ensures forall j :: 0 <= j < k ==> !("domain" in docs[j] && docs[j]["domain"] == Str(name))
    decreases |docs|
  {
    if |docs| == 0 then 0
    else if "domain" in docs[0] && docs[0]["domain"] == Str(name) then 0
    else 1 + FirstIndexForDomain(docs[1..], name)
  }

  /** The name a handler override is looked up by: the original name of a
      translated domain, else the domain itself. */
  function OriginalName(translation: Translation, domain: string): string
  {
    match Lookup(translation, domain)
    case Some(o) => o
    case None => domain
  }

  /** The handler configuration of one domain: a copy of the global
      configuration, updated by the first `mode` document without `domain`,
      then by the first `mode` document whose `domain` is the domain's
      original name. */
  function HandlerConfig(global: Doc, docs: seq<Doc>, translation: Translation, domain: string): Doc
  {
    var modeDocs := WithKey(docs, "mode");
    var g := FirstIndexWithout(modeDocs, "domain");
    var base := if g < |modeDocs| then global + modeDocs[g] else global;
    var s := FirstIndexForDomain(modeDocs, OriginalName(translation, domain));
    if s < |modeDocs| then base + modeDocs[s] else base
  }

  /** Per key, the domain-specific document beats the generic one, which
      beats the global configuration. */
  lemma HandlerPrecedence(global: Doc, docs: seq<Doc>, translation: Translation, domain: string, key: string)
    ensures
      var h := HandlerConfig(global, docs, translation, domain);
      var modeDocs := WithKey(docs, "mode");
      var g := FirstIndexWithout(modeDocs, "domain");
      var s := FirstIndexForDomain(modeDocs, OriginalName(translation, domain));
      var inSpecific := s < |modeDocs| && key in modeDocs[s];
      var inGeneric := g < |modeDocs| && key in modeDocs[g];
      && (key in h <==> inSpecific || inGeneric || key in global)
      && (inSpecific ==> h[key] == modeDocs[s][key])
      && (!inSpecific && inGeneric ==> h[key] == modeDocs[g][key])
      && (!inSpecific && !inGeneric && key in global ==> h[key] == global[key])
  {
  }


  /** `config['handlers']`: one handler configuration per listed domain. */
  function Handlers(global: Doc, docs: seq<Doc>, translation: Translation, domainlist: seq<string>): (r: map<string, Doc>)
    ensures forall d :: d in r <==> d in domainlist
    ensures forall d :: d in r ==> r[d] == HandlerConfig(global, docs, translation, d)
    decreases |domainlist|
  {
    if |domainlist| == 0 then map[]
    else
      var n := |domainlist| - 1;
      assert forall d :: d in domainlist <==> d in domainlist[..n] || d == domainlist[n];
      Handlers(global, docs, translation, domainlist[..n])[domainlist[n] := HandlerConfig(global, docs, translation, domainlist[n])]
  }

  /** The settings `parse_config_entry` resolves for a domain group: the
      keys of the dictionary it returns other than the domains, the id, the
      translation, the actions and the handlers. */
  datatype Settings = Settings(
    defaults: Value,
    api: Value,
    authority: Value,
    authorityTosAgreement: Value,
    authorityContactEmail: Value,
    accountKey: Value,
    certDir: Value,
    ttlDays: int,
    certRevokeSuperseded: Value,
    csrStatic: Value,
    csrFile: Value,
    certFile: Value,
    keyFile: Value,
    keyLength: int,
    staticCa: bool,
    caFile: Value)

  /** Lines 99-165 of `parse_config_entry`, setting by setting. */
  function ResolveSettings(local: seq<Doc>, global: Doc, rc: RuntimeConfig, id: string, raw: string): Result<Settings>
  {
    var certDir := ResolveValue("cert_dir", local, global, Str(rc.workDir));
    match ToInt(ResolveValue("ttl_days", local, global, Int(DEFAULT_TTL)))
    case Err(e) => Err(e)
    case Ok(ttlDays) =>
      match certDir
      case Str(dir) =>
        (match ToInt(ResolveValue("key_length", local, global, Int(DEFAULT_KEY_LENGTH)))
         case Err(e) => Err(e)
         case Ok(keyLength) =>
           // `'ca_file' in x` for x in (domains string, override list): a substring
           // test on the raw string; no dictionary equals the string 'ca_file'.
           var staticCa := Contains(raw, "ca_file") || "server_ca" in global;
           var caFile :=
             if Contains(raw, "ca_file") then Str(raw)
             else if "server_ca" in global then global["server_ca"]
             else Str(JoinPath(dir, id + ".ca"));
           Ok(Settings(
             GetOr(global, "defaults", Dict(map[])),
             ResolveValue("api", local, global, Str(DEFAULT_API)),
             ResolveValue("authority", local, global, Str(DEFAULT_AUTHORITY)),
             ResolveValue("authority_tos_agreement", local, global, rc.tosAgreement),
             ResolveValue("authority_contact_email", local, global, Null),
             ResolveValue("account_key", local, global, Str(JoinPath(rc.workDir, "account.key"))),
             certDir,
             ttlDays,
             ResolveValue("cert_revoke_superseded", local, global, Str("false")),
             ResolveValue("csr_static", local, global, Str("false")),
             ResolveValue("csr_file", local, global, Str(JoinPath(dir, id + ".csr"))),
             ResolveValue("cert_file", local, global, GetOr(global, "server_cert", Str(JoinPath(dir, id + ".crt")))),
             ResolveValue("key_file", local, global, GetOr(global, "server_key", Str(JoinPath(dir, id + ".key")))),
             keyLength,
             staticCa,
             caFile)))
      case _ => Err(TypeError)
  }

  /** The override documents after the action loop: every document with
      `path` replaced, in place, by its completed form. */
  function CompleteActions(docs: seq<Doc>, s: Settings): Result<seq<Doc>>
    decreases |docs|
  {
    if |docs| == 0 then Ok([])
    else match CompleteActions(docs[..|docs| - 1], s)
      case Err(e) => Err(e)
      case Ok(done) =>
        var last := docs[|docs| - 1];
        if "path" in last then
          match Completed(last, s)
          case Ok(c) => Ok(done + [c])
          case Err(e) => Err(e)
        else Ok(done + [last])
  }

  /** The dictionary `parse_config_entry` returns. */
  datatype DomainConfig = DomainConfig(
    domains: string,
    domainlist: seq<string>,
    id: string,
    translation: Translation,
    settings: Settings,
    actions: seq<Doc>,
    handlers: map<string, Doc>)

  /** `parse_config_entry((raw, local), globalconfig, runtimeconfig)` */
  function ResolveEntry(raw: string, local: seq<Doc>, global: Doc, rc: RuntimeConfig, env: Env): Result<DomainConfig>
  {
    var split := Split(raw, ' ');
    var id := env.md5Hex(raw);
    match Translate(split, env)
    case Err(e) => Err(e)
    case Ok(translation) =>
      var domainlist := if |translation| > 0 then ValuesOf(translation) else split;
      var domains := if |translation| > 0 then JoinWith(domainlist, ' ') else raw;
      match ResolveSettings(local, global, rc, id, raw)
      case Err(e) => Err(e)
      case Ok(settings) =>
        match CompleteActions(local, settings)
        case Err(e) => Err(e)
        case Ok(docs) =>
          Ok(DomainConfig(domains, domainlist, id, translation, settings,
                          WithKey(docs, "path"), Handlers(global, docs, translation, domainlist)))
  }

  /** `parse_config_entry`: the action loop completes each `path` document
      in place, and the handler loop reads the completed documents. */
  method ParseConfigEntry(raw: string, local: seq<Doc>, global: Doc, rc: RuntimeConfig, env: Env)
    returns (r: Result<DomainConfig>)
    ensures r == ResolveEntry(raw, local, global, rc, env)
  {
    var split := Split(raw, ' ');
    var id := env.md5Hex(raw);
    var converted := IdnaConvert(split, env);
    if converted.Err? {
      return Err(converted.error);
    }
    var translation := converted.value;
    var domainlist := split;
    var domains := raw;
    if |translation| > 0 {
      domainlist := ValuesOf(translation);
      domains := JoinWith(domainlist, ' ');
    }
    var settings := ResolveSettings(local, global, rc, id, raw);
    if settings.Err? {
      return Err(settings.error);
    }
    var docs, actions := CompleteActionDocs(local, settings.value);
    if docs.Err? {
      return Err(docs.error);
    }
    var handlers := BuildHandlers(global, docs.value, translation, domainlist);
    return Ok(DomainConfig(domains, domainlist, id, translation, settings.value, actions, handlers));
  }

  /** Lines 168-170: every `path` document of `local` is completed in place
      and collected, in order, into the action list. `done` is the prefix
      of the override list the loop has passed, as it now stands. */
  method CompleteActionDocs(local: seq<Doc>, s: Settings) returns (r: Result<seq<Doc>>, actions: seq<Doc>)
    ensures r == CompleteActions(local, s)
    ensures r.Ok? ==> actions == WithKey(r.value, "path")
  {
    var done: seq<Doc> := [];
    actions := [];
    for i := 0 to |local|
      invariant CompleteActions(local[..i], s) == Ok(done)
      invariant actions == WithKey(done, "path")
    {
      ActionLoopStep(local, s, done, i);
      var doc := local[i];
      if "path" in doc {
        var completed := CompleteActionConfig(doc, s);
        if completed.Err? {
          return Err(completed.error), actions;
        }
        doc := completed.value;
        actions := actions + [doc];
      }
      WithKeySnoc(done, "path", doc);
      done := done + [doc];
    }
    assert local[..|local|] == local;
    return Ok(done), actions;
  }

  /** One turn of the action loop: an uncompletable document aborts the
      entry, any other extends the completed prefix by one. */
  lemma ActionLoopStep(local: seq<Doc>, s: Settings, done: seq<Doc>, i: nat)
    requires i < |local|
    requires CompleteActions(local[..i], s) == Ok(done)
    ensures "path" in local[i] && Completed(local[i], s).Err? ==>
      CompleteActions(local, s) == Err(Completed(local[i], s).error)
    ensures "path" in local[i] && Completed(local[i], s).Ok? ==>
      CompleteActions(local[..i + 1], s) == Ok(done + [Completed(local[i], s).value])
    ensures "path" !in local[i] ==> CompleteActions(local[..i + 1], s) == Ok(done + [local[i]])
  {
    assert local[..i + 1][..i] == local[..i];
    if "path" in local[i] && Completed(local[i], s).Err? {
      CompleteActionsStopsAtError(local, s, i + 1);
    }
  }

  lemma WithKeySnoc(docs: seq<Doc>, key: string, d: Doc)
    ensures WithKey(docs + [d], key) == WithKey(docs, key) + (if key in d then [d] else [])
  {
    assert (docs + [d])[..|docs|] == docs;
  }

  /** An action document that cannot be completed aborts the whole entry. */
  lemma {:induction false} CompleteActionsStopsAtError(docs: seq<Doc>, s: Settings, n: nat)
    requires n <= |docs| && CompleteActions(docs[..n], s).Err?
    ensures CompleteActions(docs, s) == CompleteActions(docs[..n], s)
    decreases |docs|
  {
    if n == |docs| {
      assert docs[..n] == docs;
    } else {
      var front := docs[..|docs| - 1];
      assert front[..n] == docs[..n];
      CompleteActionsStopsAtError(front, s, n);
    }
  }

  /** Lines 173-190: one handler configuration per listed domain. */
  method BuildHandlers(global: Doc, docs: seq<Doc>, translation: Translation, domainlist: seq<string>)
    returns (handlers: map<string, Doc>)
    ensures handlers == Handlers(global, docs, translation, domainlist)
  {
    handlers := map[];
    for i := 0 to |domainlist|
      invariant handlers == Handlers(global, docs, translation, domainlist[..i])
    {
      assert domainlist[..i + 1][..i] == domainlist[..i];
      handlers := handlers[domainlist[i] := HandlerConfig(global, docs, translation, domainlist[i])];
    }
    assert domainlist[..|domainlist|] == domainlist;
  }

  // ---------------------------------------------------------------------
  // Properties of the resolved configuration

  /** The action loop leaves every non-action document alone and replaces
      each action document by its completed form; it fails exactly when
      there is an action document and the defaults are not a dictionary. */
  lemma {:induction false} CompleteActionsFacts(docs: seq<Doc>, s: Settings)
    ensures CompleteActions(docs, s).Ok? <==>
      s.defaults.Dict? || forall i :: 0 <= i < |docs| ==> "path" !in docs[i]
    ensures CompleteActions(docs, s).Ok? ==>
      var u := CompleteActions(docs, s).value;
      && |u| == |docs|
      && forall i :: 0 <= i < |docs| ==>
           u[i] == if "path" in docs[i] then Completed(docs[i], s).value else docs[i]
    decreases |docs|
  {
    if |docs| > 0 {
      var n := |docs| - 1;
      CompleteActionsFacts(docs[..n], s);
      CompletedDefined(docs[n], s);
      assert forall i :: 0 <= i < n ==> docs[..n][i] == docs[i];
    }
  }

  /** Filtering the completed documents for `path` gives the completed
      forms of the `path` documents, in the same order. */
  lemma {:induction false} CompletedActionsList(docs: seq<Doc>, u: seq<Doc>, s: Settings)
    requires |u| == |docs|
    requires forall i :: 0 <= i < |docs| && "path" in docs[i] ==>
      Completed(docs[i], s).Ok? && u[i] == Completed(docs[i], s).value
    requires forall i :: 0 <= i < |docs| && "path" !in docs[i] ==> u[i] == docs[i]
    ensures
      var a := WithKey(u, "path");
      var p := WithKey(docs, "path");
      && |a| == |p|
      && forall j :: 0 <= j < |p| ==> Completed(p[j], s) == Ok(a[j])
    decreases |docs|
  {
    if |docs| > 0 {
      var n := |docs| - 1;
      CompletedActionsList(docs[..n], u[..n], s);
      CompletedShape(docs[n], s);
    }
  }

  /** The settings resolve exactly when `ttl_days` and `key_length` convert
      to integers and `cert_dir` is a string. */
  lemma ResolveSettingsErrors(local: seq<Doc>, global: Doc, rc: RuntimeConfig, id: string, raw: string)
    ensures ResolveSettings(local, global, rc, id, raw).Ok? <==>
      && ToInt(ResolveValue("ttl_days", local, global, Int(DEFAULT_TTL))).Ok?
      && ResolveValue("cert_dir", local, global, Str(rc.workDir)).Str?
      && ToInt(ResolveValue("key_length", local, global, Int(DEFAULT_KEY_LENGTH))).Ok?
    ensures ResolveSettings(local, global, rc, id, raw).Ok? ==>
      ResolveSettings(local, global, rc, id, raw).value.certDir.Str?
  {
  }

  /** The CA file: the raw domains string itself when it contains the text
      `ca_file` (static), else the legacy `server_ca` (static), else
      `<cert_dir>/<id>.ca` (fetched from the authority). No override
      document takes part. */
  lemma ResolvedCaFile(local: seq<Doc>, global: Doc, rc: RuntimeConfig, id: string, raw: string)
    requires ResolveSettings(local, global, rc, id, raw).Ok?
    ensures
      var s := ResolveSettings(local, global, rc, id, raw).value;
      && (Contains(raw, "ca_file") ==> s.staticCa && s.caFile == Str(raw))
      && (!Contains(raw, "ca_file") && "server_ca" in global ==> s.staticCa && s.caFile == global["server_ca"])
      && (!Contains(raw, "ca_file") && "server_ca" !in global ==>
            !s.staticCa && s.caFile == Str(JoinPath(s.certDir.s, id + ".ca")))
      && forall more: seq<Doc> :: ResolveSettings(local + more, global, rc, id, raw).Ok? ==>
            ResolveSettings(local + more, global, rc, id, raw).value.staticCa == s.staticCa
  {
  }

  /** The legacy `server_cert` / `server_key` locations apply only when no
      override document and not the global configuration name `cert_file`
      / `key_file`; without either the files are `<cert_dir>/<id>.crt` and
      `<cert_dir>/<id>.key`. */
  lemma ResolvedLegacyPaths(local: seq<Doc>, global: Doc, rc: RuntimeConfig, id: string, raw: string)
    requires ResolveSettings(local, global, rc, id, raw).Ok?
    ensures
      var s := ResolveSettings(local, global, rc, id, raw).value;
      var dir := s.certDir.s;
      && ((forall j :: 0 <= j < |local| ==> "cert_file" !in local[j]) ==>
            s.certFile == (if "cert_file" in global then global["cert_file"]
                           else if "server_cert" in global then global["server_cert"]
                           else Str(JoinPath(dir, id + ".crt"))))
      && ((forall j :: 0 <= j < |local| ==> "key_file" !in local[j]) ==>
            s.keyFile == (if "key_file" in global then global["key_file"]
                          else if "server_key" in global then global["server_key"]
                          else Str(JoinPath(dir, id + ".key"))))
  {
    var s := ResolveSettings(local, global, rc, id, raw).value;
    if forall j :: 0 <= j < |local| ==> "cert_file" !in local[j] {
      ResolveValueFallback("cert_file", local, global, GetOr(global, "server_cert", Str(JoinPath(s.certDir.s, id + ".crt"))));
    }
    if forall j :: 0 <= j < |local| ==> "key_file" !in local[j] {
      ResolveValueFallback("key_file", local, global, GetOr(global, "server_key", Str(JoinPath(s.certDir.s, id + ".key"))));
    }
  }

  /** An entry resolves exactly when its domain names translate, `ttl_days`
      and `key_length` convert to integers, `cert_dir` is a string and,
      when some override document is an action, the defaults are a
      dictionary. */
  lemma ResolveEntryErrors(raw: string, local: seq<Doc>, global: Doc, rc: RuntimeConfig, env: Env)
    ensures ResolveEntry(raw, local, global, rc, env).Ok? <==>
      && Translate(Split(raw, ' '), env).Ok?
      && ToInt(ResolveValue("ttl_days", local, global, Int(DEFAULT_TTL))).Ok?
      && ResolveValue("cert_dir", local, global, Str(rc.workDir)).Str?
      && ToInt(ResolveValue("key_length", local, global, Int(DEFAULT_KEY_LENGTH))).Ok?
      && (GetOr(global, "defaults", Dict(map[])).Dict? || forall i :: 0 <= i < |local| ==> "path" !in local[i])
  {
    var id := env.md5Hex(raw);
    ResolveSettingsErrors(local, global, rc, id, raw);
    var settings := ResolveSettings(local, global, rc, id, raw);
    if settings.Ok? {
      CompleteActionsFacts(local, settings.value);
    }
  }

  /** Helpers that unfold `ResolveEntry` for the Resolved* lemmas below.
      The parts a resolved configuration is assembled from: the digest of
      the raw string, the translation of its names and the settings ... */
  lemma ResolveEntryParts(raw: string, local: seq<Doc>, global: Doc, rc: RuntimeConfig, env: Env)
    requires ResolveEntry(raw, local, global, rc, env).Ok?
    ensures
      var c := ResolveEntry(raw, local, global, rc, env).value;
      && c.id == env.md5Hex(raw)
      && Translate(Split(raw, ' '), env) == Ok(c.translation)
      && ResolveSettings(local, global, rc, c.id, raw) == Ok(c.settings)
      && CompleteActions(local, c.settings).Ok?
  {
  }

  /** ... the action list and handlers built from the completed override
      documents ... */
  lemma ResolveEntryLists(raw: string, local: seq<Doc>, global: Doc, rc: RuntimeConfig, env: Env)
    requires ResolveEntry(raw, local, global, rc, env).Ok?
    ensures
      var c := ResolveEntry(raw, local, global, rc, env).value;
      && CompleteActions(local, c.settings).Ok?
      && c.actions == WithKey(CompleteActions(local, c.settings).value, "path")
      && c.handlers == Handlers(global, CompleteActions(local, c.settings).value, c.translation, c.domainlist)
  {
  }

  /** ... and the domain list and string, taken from the translation once
      any name is translated. */
  lemma ResolveEntryNames(raw: string, local: seq<Doc>, global: Doc, rc: RuntimeConfig, env: Env)
    requires ResolveEntry(raw, local, global, rc, env).Ok?
    ensures
      var c := ResolveEntry(raw, local, global, rc, env).value;
      && Translate(Split(raw, ' '), env) == Ok(c.translation)
      && c.domainlist == (if |c.translation| > 0 then ValuesOf(c.translation) else Split(raw, ' '))
      && c.domains == (if |c.translation| > 0 then JoinWith(c.domainlist, ' ') else raw)
  {
  }

  /** The domain list and domains string built from an entry's names and
      their translation. */
  lemma TranslatedDomains(raw: string, env: Env, t: Translation)
    requires Translate(Split(raw, ' '), env) == Ok(t)
    ensures
      var domainlist := if |t| > 0 then ValuesOf(t) else Split(raw, ' ');
      var domains := if |t| > 0 then JoinWith(domainlist, ' ') else raw;
      && Split(domains, ' ') == domainlist
      && JoinWith(domainlist, ' ') == domains
      && (forall d :: d in domainlist ==> d in Split(raw, ' '))
      && (|t| > 0 ==> forall d :: d in domainlist ==> !IsAscii(d))
  {
    var split := Split(raw, ' ');
    TranslateEntries(split, env);
    if |t| == 0 {
      JoinSplit(raw, ' ');
    } else {
      var domainlist := ValuesOf(t);
      forall k | 0 <= k < |domainlist| ensures ' ' !in domainlist[k] {
        var j :| 0 <= j < |split| && split[j] == t[k].1;
      }
      SplitJoin(domainlist, ' ');
    }
  }

  /** The domains string and the domain list describe each other (split on
      spaces gives the list, joining with spaces gives the string), and the
      id is the digest of the entry's raw string. Every listed domain is a
      name of the entry; once any name is translated, the list holds the
      original forms of the non-ASCII names only. */
  lemma ResolvedDomains(raw: string, local: seq<Doc>, global: Doc, rc: RuntimeConfig, env: Env)
    requires ResolveEntry(raw, local, global, rc, env).Ok?
    ensures
      var c := ResolveEntry(raw, local, global, rc, env).value;
      && c.id == env.md5Hex(raw)
      && Split(c.domains, ' ') == c.domainlist
      && JoinWith(c.domainlist, ' ') == c.domains
      && (|c.translation| == 0 ==> c.domains == raw)
      && (forall d :: d in c.domainlist ==> d in Split(raw, ' '))
      && (|c.translation| > 0 ==> forall d :: d in c.domainlist ==> !IsAscii(d))
  {
    ResolveEntryParts(raw, local, global, rc, env);
    ResolveEntryNames(raw, local, global, rc, env);
    TranslatedDomains(raw, env, ResolveEntry(raw, local, global, rc, env).value.translation);
  }

  /** The action list of a successful action loop: the `path` documents, in
      order, each in its completed form. */
  lemma CompletedActions(local: seq<Doc>, s: Settings)
    requires CompleteActions(local, s).Ok?
    ensures
      var a := WithKey(CompleteActions(local, s).value, "path");
      var p := WithKey(local, "path");
      && |a| == |p|
      && forall j :: 0 <= j < |p| ==> Completed(p[j], s) == Ok(a[j])
  {
    CompleteActionsFacts(local, s);
    CompletedActionsList(local, CompleteActions(local, s).value, s);
  }

  /** The actions are the override documents with `path`, in order, each
      completed against the group's settings. */
  lemma ResolvedActions(raw: string, local: seq<Doc>, global: Doc, rc: RuntimeConfig, env: Env)
    requires ResolveEntry(raw, local, global, rc, env).Ok?
    ensures
      var c := ResolveEntry(raw, local, global, rc, env).value;
      var p := WithKey(local, "path");
      && |c.actions| == |p|
      && forall j :: 0 <= j < |p| ==> Completed(p[j], c.settings) == Ok(c.actions[j])
  {
    ResolveEntryLists(raw, local, global, rc, env);
    var c := ResolveEntry(raw, local, global, rc, env).value;
    CompletedActions(local, c.settings);
  }

  /** After a successful action loop, a document has a key other than the
      three file locations and `action` exactly when it had it before or it
      is an action document and the defaults have it. */
  lemma CompletedKeys(local: seq<Doc>, s: Settings)
    requires CompleteActions(local, s).Ok?
    ensures
      var u := CompleteActions(local, s).value;
      && |u| == |local|
      && (forall i :: 0 <= i < |local| && "path" in local[i] ==> s.defaults.Dict?)
      && (forall i, key :: 0 <= i < |local| && key !in PathKeys && key != "action" ==>
            (key in u[i] <==> key in local[i] || ("path" in local[i] && key in s.defaults.entries)))
  {
    CompleteActionsFacts(local, s);
    forall i | 0 <= i < |local| {
      CompletedShape(local[i], s);
    }
  }

  /** One handler configuration per listed domain, selected (see
      HandlerPrecedence) among the override documents as the action loop
      left them: an action document has gained every key of the defaults,
      so a `mode` or `domain` key in the defaults makes it take part in
      handler selection. */
  lemma ResolvedHandlers(raw: string, local: seq<Doc>, global: Doc, rc: RuntimeConfig, env: Env)
    requires ResolveEntry(raw, local, global, rc, env).Ok?
    ensures
      var c := ResolveEntry(raw, local, global, rc, env).value;
      && CompleteActions(local, c.settings).Ok?
      && (forall d :: d in c.handlers <==> d in c.domainlist)
      && (forall d :: d in c.handlers ==>
            c.handlers[d] == HandlerConfig(global, CompleteActions(local, c.settings).value, c.translation, d))
      && |CompleteActions(local, c.settings).value| == |local|
      && (forall i :: 0 <= i < |local| && "path" in local[i] ==> c.settings.defaults.Dict?)
      && (forall i, key :: 0 <= i < |local| && key !in PathKeys && key != "action" ==>
            (key in CompleteActions(local, c.settings).value[i] <==>
               key in local[i] || ("path" in local[i] && key in c.settings.defaults.entries)))
  {
    ResolveEntryLists(raw, local, global, rc, env);
    CompletedKeys(local, ResolveEntry(raw, local, global, rc, env).value.settings);
  }

  /** The settings with no override documents and an empty global
      configuration: the ACME v2 endpoint of Let's Encrypt, the ToS answer
      from the command line, no contact, the account key in the work
      directory ... */
  lemma DefaultSettings(rc: RuntimeConfig, id: string, raw: string)
    ensures ResolveSettings([], map[], rc, id, raw).Ok?
    ensures
      var s := ResolveSettings([], map[], rc, id, raw).value;
      && s.api == Str("v2")
      && s.authority == Str("https://acme-v02.api.letsencrypt.org")
      && s.authorityTosAgreement == rc.tosAgreement
      && s.authorityContactEmail == Null
      && s.accountKey == Str(JoinPath(rc.workDir, "account.key"))
  {
  }

  /** ... no action defaults, certificates in the work directory, valid for
      30 days before renewal, 4096-bit keys, no revocation of superseded
      certificates and no static request ... */
  lemma DefaultLimits(rc: RuntimeConfig, id: string, raw: string)
    requires ResolveSettings([], map[], rc, id, raw).Ok?
    ensures
      var s := ResolveSettings([], map[], rc, id, raw).value;
      && s.defaults == Dict(map[])
      && s.certDir == Str(rc.workDir)
      && s.ttlDays == 30
      && s.keyLength == 4096
      && s.certRevokeSuperseded == Str("false")
      && s.csrStatic == Str("false")
  {
  }

  /** ... where the request, certificate, key and CA files lie in the work
      directory, named after the id. */
  lemma DefaultFiles(rc: RuntimeConfig, id: string, raw: string)
    requires ResolveSettings([], map[], rc, id, raw).Ok?
    ensures
      var s := ResolveSettings([], map[], rc, id, raw).value;
      && s.csrFile == Str(JoinPath(rc.workDir, id + ".csr"))
      && s.certFile == Str(JoinPath(rc.workDir, id + ".crt"))
      && s.keyFile == Str(JoinPath(rc.workDir, id + ".key"))
      && (!Contains(raw, "ca_file") ==> !s.staticCa && s.caFile == Str(JoinPath(rc.workDir, id + ".ca")))
  {
  }

  /** With no override documents and an empty global configuration, an
      entry whose names translate always resolves, to the documented
      defaults (DefaultSettings), with no actions and empty handler
      configurations. */
  lemma ResolvedDefaults(raw: string, rc: RuntimeConfig, env: Env)
    requires Translate(Split(raw, ' '), env).Ok?
    ensures ResolveEntry(raw, [], map[], rc, env).Ok?
    ensures
      var c := ResolveEntry(raw, [], map[], rc, env).value;
      && c.settings == ResolveSettings([], map[], rc, c.id, raw).value
      && c.actions == []
      && forall d :: d in c.handlers ==> c.handlers[d] == map[]
  {
    var id := env.md5Hex(raw);
    assert ResolveSettings([], map[], rc, id, raw).Ok?;
    assert ResolveEntry(raw, [], map[], rc, env).Ok?;
    ResolveEntryLists(raw, [], map[], rc, env);
    var c := ResolveEntry(raw, [], map[], rc, env).value;
    assert CompleteActions([], c.settings) == Ok([]);
    EmptyHandlers(c.translation, c.domainlist);
  }

  lemma EmptyHandlers(translation: Translation, domainlist: seq<string>)
    ensures forall d :: d in Handlers(map[], [], translation, domainlist) ==>
      Handlers(map[], [], translation, domainlist)[d] == map[]
  {
    assert WithKey([], "mode") == [];
  }
}

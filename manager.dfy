/** The run loop of acertmgr/__init__.py: choosing a challenge handler,
    obtaining a certificate (`cert_get`), assembling a deployment target
    (`cert_put`), and `main`, which renews and deploys every domain group
    and collects the post-update actions. The host's files are a map from
    path to contents held by a FileStore; the `tools` helpers and the
    authority's issuing step are parameters (Tools). */
module Manager {
  import opened Values
  import opened Text
  import opened Configuration

  // ---------------------------------------------------------------------
  // Challenge handlers

  /** A challenge handler: its mode (the `acertmgr.modes` module providing
      it) and the settings it is created with. */
  datatype Handler = ChallengeHandler(mode: Value, settings: Doc)

  /** Importing `acertmgr.modes.<mode>` and constructing its
      `ChallengeHandler` with the settings: the exception this raises, if
      any (an ImportError for an unknown mode, or whatever the handler's
      constructor raises). */
  type HandlerLoader = (Value, Doc) -> Option<Error>

  /** Lines 39-42: the settings' `mode`, else "standalone". */
  function ModeOf(settings: Doc): (mode: Value)
    ensures "mode" in settings ==> mode == settings["mode"]
    ensures "mode" !in settings ==> mode == Str("standalone")
  {
    GetOr(settings, "mode", Str("standalone"))
  }

  /** Lines 38-46: the handler of the chosen mode, or the error importing
      or constructing it. */
  function CreateChallengeHandler(settings: Doc, load: HandlerLoader): (r: Result<Handler>)
    ensures r.Ok? <==> load(ModeOf(settings), settings).None?
    ensures r.Ok? ==> r.value == ChallengeHandler(ModeOf(settings), settings)
    ensures r.Err? ==> r.error == load(ModeOf(settings), settings).value
  {
    match load(ModeOf(settings), settings)
    case Some(e) => Err(e)
    case None => Ok(ChallengeHandler(ModeOf(settings), settings))
  }

  /** The mode of a domain's handler: the `mode` of the first override
      document naming the domain, else that of the first one naming no
      domain, else the global `mode`, else "standalone". */
  lemma HandlerMode(global: Doc, docs: seq<Doc>, translation: Translation, domain: string)
    ensures
      var m := ModeOf(HandlerConfig(global, docs, translation, domain));
      var modeDocs := WithKey(docs, "mode");
      var g := FirstIndexWithout(modeDocs, "domain");
      var s := FirstIndexForDomain(modeDocs, OriginalName(translation, domain));
      && (s < |modeDocs| ==> m == modeDocs[s]["mode"])
      && (s == |modeDocs| && g < |modeDocs| ==> m == modeDocs[g]["mode"])
      && (s == |modeDocs| && g == |modeDocs| ==> m == GetOr(global, "mode", Str("standalone")))
  {
    HandlerPrecedence(global, docs, translation, domain, "mode");
  }

  /** Lines 58-61: one challenge handler per listed domain, created from
      that domain's handler settings; a domain without settings is a
      KeyError, and a handler that cannot be created ends the loop with
      its error. */
  function ChallengeHandlers(domainlist: seq<string>, handlers: map<string, Doc>, load: HandlerLoader): Result<map<string, Handler>>
    decreases |domainlist|
  {
    if |domainlist| == 0 then Ok(map[])
    else match ChallengeHandlers(domainlist[..|domainlist| - 1], handlers, load)
      case Err(e) => Err(e)
      case Ok(hs) =>
        var d := domainlist[|domainlist| - 1];
        if d !in handlers then Err(KeyError(d))
        else match CreateChallengeHandler(handlers[d], load)
          case Err(e) => Err(e)
          case Ok(h) => Ok(hs[d := h])
  }

  /** A listed domain's handler can be created: it has settings and its
      mode loads. */
  predicate Creatable(d: string, handlers: map<string, Doc>, load: HandlerLoader)
  {
    d in handlers && load(ModeOf(handlers[d]), handlers[d]).None?
  }

  /** Exactly one handler per listed domain, keyed by the domain; the loop
      fails exactly when a listed domain has no handler settings or its
      handler cannot be created. */
  lemma {:induction false} ChallengeHandlersFacts(domainlist: seq<string>, handlers: map<string, Doc>, load: HandlerLoader)
    ensures ChallengeHandlers(domainlist, handlers, load).Ok? <==>
      forall d :: d in domainlist ==> Creatable(d, handlers, load)
    ensures ChallengeHandlers(domainlist, handlers, load).Ok? ==>
      var hs := ChallengeHandlers(domainlist, handlers, load).value;
      && (forall d :: d in hs <==> d in domainlist)
      && (forall d :: d in hs ==> d in handlers && hs[d] == ChallengeHandler(ModeOf(handlers[d]), handlers[d]))
    decreases |domainlist|
  {
    if |domainlist| > 0 {
      var n := |domainlist| - 1;
      ChallengeHandlersFacts(domainlist[..n], handlers, load);
      assert forall d :: d in domainlist <==> d in domainlist[..n] || d == domainlist[n];
    }
  }

  /** A resolved domain group has handler settings for every listed
      domain, so creating its handlers fails exactly when some listed
      domain's mode cannot be loaded or constructed. */
  lemma ResolvedChallengeHandlers(raw: string, local: seq<Doc>, global: Doc, rc: RuntimeConfig, env: Env, load: HandlerLoader)
    requires ResolveEntry(raw, local, global, rc, env).Ok?
    ensures
      var c := ResolveEntry(raw, local, global, rc, env).value;
      && (forall d :: d in c.domainlist ==> d in c.handlers)
      && (ChallengeHandlers(c.domainlist, c.handlers, load).Ok? <==>
            forall d :: d in c.domainlist ==> load(ModeOf(c.handlers[d]), c.handlers[d]).None?)
  {
    ResolvedHandlers(raw, local, global, rc, env);
    var c := ResolveEntry(raw, local, global, rc, env).value;
    ChallengeHandlersFacts(c.domainlist, c.handlers, load);
  }

  // ---------------------------------------------------------------------
  // cert_get

  /** The helpers `cert_get` and `main` call that are not part of this
      model: the `tools` module, the authority and the challenge modes.
      Certificates, keys and requests are identified with their PEM text.
      An exception raised by the authority (creating it, registering the
      account, or issuing the certificate) is an error result. */
  datatype Tools = Tools(
    newAccountKey: string,                                           // tools.new_account_key(path), stored at path
    register: (Settings, string) -> Option<Error>,                   // create_authority(settings) with the account key, then register_account()
    loadHandler: HandlerLoader,                                      // import of the mode's module and its ChallengeHandler(settings)
    newSslKey: int -> string,                                        // tools.new_ssl_key(path, bits), stored at path
    newCertRequest: (seq<string>, string) -> string,                 // tools.new_cert_request(domains, key)
    isCertValid: (string, int) -> bool,                              // tools.is_cert_valid(crt, ttl_days)
    targetIsCurrent: (map<string, string>, Value, string) -> bool,   // tools.target_is_current(path, cert_file)
    getCrtFromCsr: (string, seq<string>, map<string, Handler>) -> Result<(string, Option<string>)>)  // acme.get_crt_from_csr

  function LowerChar(c: char): char
  {
    if 'A' <= c <= 'Z' then (c as int + 32) as char else c
  }

  /** `s.lower()`, folding the ASCII letters. */
  function Lower(s: string): string
  {
    seq(|s|, i requires 0 <= i < |s| => LowerChar(s[i]))
  }

  /** Line 74: `str(v).lower() == 'true'`. `str(True)` is "True"; no
      other non-string value prints as "true" in any case. */
  predicate CsrStatic(v: Value)
  {
    match v
    case Str(s) => Lower(s) == "true"
    case Bool(b) => b
    case _ => false
  }

  /** A string enables the static request exactly when it spells "true" in
      any mix of cases; the default "false" does not. */
  lemma CsrStaticStrings(s: string)
    ensures CsrStatic(Str(s)) <==>
      |s| == 4 && s[0] in "tT" && s[1] in "rR" && s[2] in "uU" && s[3] in "eE"
    ensures !CsrStatic(Str("false"))
  {
    if |s| == 4 {
      var l := Lower(s);
      if s[0] in "tT" && s[1] in "rR" && s[2] in "uU" && s[3] in "eE" {
        assert l == "true";
      }
      if l == "true" {
        assert l[0] == 't' && l[1] == 'r' && l[2] == 'u' && l[3] == 'e';
      }
    }
    assert Lower("false")[0] == 'f';
  }

  /** A path setting: a string, else the TypeError `os.path` and `io.open` raise. */
  function PathOf(v: Value): Result<string>
  {
    if v.Str? then Ok(v.s) else Err(TypeError)
  }

  /** Lines 64-70: the key on disk, else a new key of `key_length` bits. */
  function SslKey(keyFile: string, keyLength: int, files: map<string, string>, tools: Tools): string
  {
    if keyFile in files then files[keyFile] else tools.newSslKey(keyLength)
  }

  /** Line 74: the request on disk is reused. */
  predicate ReuseCsr(csrFile: string, csrStatic: Value, files: map<string, string>)
  {
    csrFile in files && CsrStatic(csrStatic)
  }

  /** What `cert_get` obtained. */
  datatype Obtained = Obtained(handlers: map<string, Handler>, key: string, csr: string, crt: string, ca: Option<string>)

  /** The outcome of `cert_get` and the files after it (also after a failure). */
  datatype GetRun = GetRun(outcome: Result<Obtained>, files: map<string, string>)

  /** Lines 23-29: the account key on disk, else a new one. */
  function AccountKeyOf(c: DomainConfig, tools: Tools, files: map<string, string>): string
    requires c.settings.accountKey.Str?
  {
    var accFile := c.settings.accountKey.s;
    if accFile in files then files[accFile] else tools.newAccountKey
  }

  /** Line 29: `new_account_key` stores the key it creates at `account_key`. */
  function AccountFiles(c: DomainConfig, tools: Tools, files: map<string, string>): map<string, string>
    requires c.settings.accountKey.Str?
  {
    var accFile := c.settings.accountKey.s;
    if accFile in files then files else files[accFile := tools.newAccountKey]
  }

  /** Lines 54-61: the account key location is a string, the authority is
      created and the account registered, and every listed domain's
      challenge handler is created. */
  predicate HandlersReady(c: DomainConfig, tools: Tools, files: map<string, string>)
  {
    && c.settings.accountKey.Str?
    && tools.register(c.settings, AccountKeyOf(c, tools, files)).None?
    && (forall d :: d in c.domainlist ==> Creatable(d, c.handlers, tools.loadHandler))
  }

  /** Lines 54-73: besides `HandlersReady`, the key and request locations
      are strings, so `cert_get` reaches the authority's exchange. */
  predicate Ready(c: DomainConfig, tools: Tools, files: map<string, string>)
  {
    HandlersReady(c, tools, files) && c.settings.keyFile.Str? && c.settings.csrFile.Str?
  }

  /** Lines 64-70: the key the run uses, looked up after the account key
      was stored. */
  function KeyOf(c: DomainConfig, tools: Tools, files: map<string, string>): string
    requires c.settings.accountKey.Str? && c.settings.keyFile.Str?
  {
    SslKey(c.settings.keyFile.s, c.settings.keyLength, AccountFiles(c, tools, files), tools)
  }

  /** Line 70: `new_ssl_key` stores the key it creates at `key_file`. */
  function FilesWithKey(c: DomainConfig, tools: Tools, files: map<string, string>): map<string, string>
    requires c.settings.accountKey.Str? && c.settings.keyFile.Str?
  {
    var afterAccount := AccountFiles(c, tools, files);
    var keyFile := c.settings.keyFile.s;
    if keyFile in afterAccount then afterAccount else afterAccount[keyFile := KeyOf(c, tools, files)]
  }

  /** Lines 73-80: the request on disk when it exists and is static, else
      a new request for the domain list and the key. */
  function RequestOf(c: DomainConfig, tools: Tools, files: map<string, string>): string
    requires c.settings.accountKey.Str? && c.settings.keyFile.Str? && c.settings.csrFile.Str?
  {
    var afterKey := FilesWithKey(c, tools, files);
    if ReuseCsr(c.settings.csrFile.s, c.settings.csrStatic, afterKey) then afterKey[c.settings.csrFile.s]
    else tools.newCertRequest(c.domainlist, KeyOf(c, tools, files))
  }

  /** Line 80: a new request is stored at `csr_file`. */
  function FilesWithRequest(c: DomainConfig, tools: Tools, files: map<string, string>): map<string, string>
    requires c.settings.accountKey.Str? && c.settings.keyFile.Str? && c.settings.csrFile.Str?
  {
    var afterKey := FilesWithKey(c, tools, files);
    if ReuseCsr(c.settings.csrFile.s, c.settings.csrStatic, afterKey) then afterKey
    else afterKey[c.settings.csrFile.s := RequestOf(c, tools, files)]
  }

  /** Line 83: the authority's answer to the request. */
  function IssueOf(c: DomainConfig, tools: Tools, files: map<string, string>): Result<(string, Option<string>)>
    requires Ready(c, tools, files)
  {
    ChallengeHandlersFacts(c.domainlist, c.handlers, tools.loadHandler);
    tools.getCrtFromCsr(RequestOf(c, tools, files), c.domainlist, ChallengeHandlers(c.domainlist, c.handlers, tools.loadHandler).value)
  }

  /** Lines 51-89. */
  function CertGetSpec(c: DomainConfig, tools: Tools, files: map<string, string>): GetRun
  {
    if !c.settings.accountKey.Str? then GetRun(Err(TypeError), files)
    else
      var afterAccount := AccountFiles(c, tools, files);
      match tools.register(c.settings, AccountKeyOf(c, tools, files))
      case Some(e) => GetRun(Err(e), afterAccount)
      case None =>
        match ChallengeHandlers(c.domainlist, c.handlers, tools.loadHandler)
        case Err(e) => GetRun(Err(e), afterAccount)
        case Ok(handlers) =>
          if !c.settings.keyFile.Str? then GetRun(Err(TypeError), afterAccount)
          else if !c.settings.csrFile.Str? then GetRun(Err(TypeError), FilesWithKey(c, tools, files))
          else
            var afterCsr := FilesWithRequest(c, tools, files);
            match tools.getCrtFromCsr(RequestOf(c, tools, files), c.domainlist, handlers)
            case Err(e) => GetRun(Err(e), afterCsr)
            case Ok(issued) =>
              var obtained := Obtained(handlers, KeyOf(c, tools, files), RequestOf(c, tools, files), issued.0, issued.1);
              if !tools.isCertValid(issued.0, c.settings.ttlDays) then GetRun(Ok(obtained), afterCsr)
              else match PathOf(c.settings.certFile)
                case Err(e) => GetRun(Err(e), afterCsr)
                case Ok(certFile) =>
                  var afterCrt := afterCsr[certFile := issued.0];
                  if c.settings.staticCa || issued.1.None? then GetRun(Ok(obtained), afterCrt)
                  else match PathOf(c.settings.caFile)
                    case Err(e) => GetRun(Err(e), afterCrt)
                    case Ok(caFile) => GetRun(Ok(obtained), afterCrt[caFile := issued.1.value])
  }

  /** An account key location that is not a string fails before anything
      is written; a failed registration writes only the account key. Short
      of the exchange, `cert_get` fails exactly when it is not `Ready`;
      after it, exactly when the authority fails, or when a valid
      certificate or its CA certificate has a location that is not a
      string. A failed exchange leaves the account key, key and request in
      place. */
  lemma CertGetErrors(c: DomainConfig, tools: Tools, files: map<string, string>)
    ensures !c.settings.accountKey.Str? ==> CertGetSpec(c, tools, files) == GetRun(Err(TypeError), files)
    ensures c.settings.accountKey.Str? && tools.register(c.settings, AccountKeyOf(c, tools, files)).Some? ==>
      CertGetSpec(c, tools, files)
        == GetRun(Err(tools.register(c.settings, AccountKeyOf(c, tools, files)).value), AccountFiles(c, tools, files))
    ensures !Ready(c, tools, files) ==> CertGetSpec(c, tools, files).outcome.Err?
    ensures Ready(c, tools, files) ==>
      (CertGetSpec(c, tools, files).outcome.Err? <==>
        || IssueOf(c, tools, files).Err?
        || (&& tools.isCertValid(IssueOf(c, tools, files).value.0, c.settings.ttlDays)
            && (|| !c.settings.certFile.Str?
                || (!c.settings.staticCa && IssueOf(c, tools, files).value.1.Some? && !c.settings.caFile.Str?))))
    ensures Ready(c, tools, files) && IssueOf(c, tools, files).Err? ==>
      CertGetSpec(c, tools, files) == GetRun(Err(IssueOf(c, tools, files).error), FilesWithRequest(c, tools, files))
  {
    ChallengeHandlersFacts(c.domainlist, c.handlers, tools.loadHandler);
  }

  /** A domain whose handler cannot be created ends `cert_get` with the
      error of the first such domain in the list, after the account key is
      stored and before any other file is written. */
  lemma CertGetHandlerFails(c: DomainConfig, tools: Tools, files: map<string, string>)
    requires c.settings.accountKey.Str? && tools.register(c.settings, AccountKeyOf(c, tools, files)).None?
    requires ChallengeHandlers(c.domainlist, c.handlers, tools.loadHandler).Err?
    ensures CertGetSpec(c, tools, files)
      == GetRun(Err(ChallengeHandlers(c.domainlist, c.handlers, tools.loadHandler).error), AccountFiles(c, tools, files))
    ensures exists d :: d in c.domainlist && !Creatable(d, c.handlers, tools.loadHandler)
  {
    ChallengeHandlersFacts(c.domainlist, c.handlers, tools.loadHandler);
  }

  /** The handlers passed to the authority are exactly one per listed
      domain, of the mode its settings choose. The key file, once the
      account key is stored, is read when present; a key of `key_length`
      bits is created only when the file is absent. */
  lemma CertGetHandlersAndKey(c: DomainConfig, tools: Tools, files: map<string, string>)
    requires CertGetSpec(c, tools, files).outcome.Ok?
    ensures
      var o := CertGetSpec(c, tools, files).outcome.value;
      var f := AccountFiles(c, tools, files);
      && (forall d :: d in o.handlers <==> d in c.domainlist)
      && (forall d :: d in o.handlers ==>
            d in c.handlers && o.handlers[d] == ChallengeHandler(ModeOf(c.handlers[d]), c.handlers[d]))
      && c.settings.accountKey.Str? && c.settings.keyFile.Str?
      && (c.settings.keyFile.s in f ==> o.key == f[c.settings.keyFile.s])
      && (c.settings.keyFile.s !in f ==> o.key == tools.newSslKey(c.settings.keyLength))
  {
    ChallengeHandlersFacts(c.domainlist, c.handlers, tools.loadHandler);
  }

  /** Once the authority is registered, the account key file exists after
      `cert_get`, whatever its outcome, and holds the account key the run
      used unless another of the group's files lives at the same place. */
  lemma CertGetAccountKeyPersisted(c: DomainConfig, tools: Tools, files: map<string, string>)
    requires c.settings.accountKey.Str?
    ensures c.settings.accountKey.s in CertGetSpec(c, tools, files).files
    ensures
      var accFile := c.settings.accountKey.s;
      && (c.settings.csrFile.Str? ==> accFile != c.settings.csrFile.s)
      && (c.settings.certFile.Str? ==> accFile != c.settings.certFile.s)
      && (c.settings.caFile.Str? ==> accFile != c.settings.caFile.s)
      ==> CertGetSpec(c, tools, files).files[accFile] == AccountKeyOf(c, tools, files)
  {
    var accFile := c.settings.accountKey.s;
    var afterAccount := AccountFiles(c, tools, files);
    assert accFile in afterAccount && afterAccount[accFile] == AccountKeyOf(c, tools, files);
    if c.settings.keyFile.Str? {
      var afterKey := FilesWithKey(c, tools, files);
      assert accFile in afterKey && afterKey[accFile] == AccountKeyOf(c, tools, files);
      if c.settings.csrFile.Str? {
        var afterCsr := FilesWithRequest(c, tools, files);
        assert accFile in afterCsr;
        assert accFile != c.settings.csrFile.s ==> afterCsr[accFile] == AccountKeyOf(c, tools, files);
      }
    }
  }

  /** An account key is never regenerated once present: the next run,
      with any tools, uses the account key this run stored. */
  lemma CertGetAccountKeyStable(c: DomainConfig, tools: Tools, next: Tools, files: map<string, string>)
    requires c.settings.accountKey.Str?
    requires c.settings.csrFile.Str? ==> c.settings.accountKey.s != c.settings.csrFile.s
    requires c.settings.certFile.Str? ==> c.settings.accountKey.s != c.settings.certFile.s
    requires c.settings.caFile.Str? ==> c.settings.accountKey.s != c.settings.caFile.s
    ensures AccountKeyOf(c, next, CertGetSpec(c, tools, files).files) == AccountKeyOf(c, tools, files)
  {
    CertGetAccountKeyPersisted(c, tools, files);
  }

  /** Once the handlers exist, the key file exists after `cert_get`,
      whatever its outcome, and holds the key the run used unless another
      of the group's files lives at the same place. */
  lemma CertGetKeyPersisted(c: DomainConfig, tools: Tools, files: map<string, string>)
    requires HandlersReady(c, tools, files)
    requires c.settings.keyFile.Str?
    ensures c.settings.keyFile.s in CertGetSpec(c, tools, files).files
    ensures
      var keyFile := c.settings.keyFile.s;
      && (c.settings.csrFile.Str? ==> keyFile != c.settings.csrFile.s)
      && (c.settings.certFile.Str? ==> keyFile != c.settings.certFile.s)
      && (c.settings.caFile.Str? ==> keyFile != c.settings.caFile.s)
      ==> CertGetSpec(c, tools, files).files[keyFile] == KeyOf(c, tools, files)
  {
    ChallengeHandlersFacts(c.domainlist, c.handlers, tools.loadHandler);
    var keyFile := c.settings.keyFile.s;
    var afterKey := FilesWithKey(c, tools, files);
    assert keyFile in afterKey && afterKey[keyFile] == KeyOf(c, tools, files);
    if c.settings.csrFile.Str? {
      var afterCsr := FilesWithRequest(c, tools, files);
      assert keyFile in afterCsr;
      assert keyFile != c.settings.csrFile.s ==> afterCsr[keyFile] == KeyOf(c, tools, files);
    }
  }

  /** A key is never regenerated once present: the next run, with any
      tools, uses the key this run stored. */
  lemma CertGetKeyStable(c: DomainConfig, tools: Tools, next: Tools, files: map<string, string>)
    requires HandlersReady(c, tools, files)
    requires c.settings.keyFile.Str?
    requires c.settings.csrFile.Str? ==> c.settings.keyFile.s != c.settings.csrFile.s
    requires c.settings.certFile.Str? ==> c.settings.keyFile.s != c.settings.certFile.s
    requires c.settings.caFile.Str? ==> c.settings.keyFile.s != c.settings.caFile.s
    ensures KeyOf(c, next, CertGetSpec(c, tools, files).files) == KeyOf(c, tools, files)
  {
    CertGetKeyPersisted(c, tools, files);
    CertGetAccountKeyPersisted(c, tools, files);
  }

  /** The request is read from disk exactly when its file exists and
      `csr_static` says "true"; otherwise it is generated from the domain
      list and the key. The certificate is requested with that request. */
  lemma CertGetCsr(c: DomainConfig, tools: Tools, files: map<string, string>)
    requires CertGetSpec(c, tools, files).outcome.Ok?
    ensures
      var o := CertGetSpec(c, tools, files).outcome.value;
      var afterKey := FilesWithKey(c, tools, files);
      && c.settings.accountKey.Str? && c.settings.keyFile.Str? && c.settings.csrFile.Str?
      && (ReuseCsr(c.settings.csrFile.s, c.settings.csrStatic, afterKey) ==> o.csr == afterKey[c.settings.csrFile.s])
      && (!ReuseCsr(c.settings.csrFile.s, c.settings.csrStatic, afterKey) ==>
            o.csr == tools.newCertRequest(c.domainlist, o.key))
      && tools.getCrtFromCsr(o.csr, c.domainlist, o.handlers) == Ok((o.crt, o.ca))
  {
  }

  /** When the exchange fails or the certificate is not valid for
      `ttl_days`, neither the certificate nor the CA certificate is stored:
      only a new account key, a new key and a new request can have been
      written. */
  lemma CertGetNoCertificate(c: DomainConfig, tools: Tools, files: map<string, string>)
    requires Ready(c, tools, files)
    requires IssueOf(c, tools, files).Err? || !tools.isCertValid(IssueOf(c, tools, files).value.0, c.settings.ttlDays)
    ensures
      var after := CertGetSpec(c, tools, files).files;
      var accFile := c.settings.accountKey.s;
      var keyFile := c.settings.keyFile.s;
      var csrFile := c.settings.csrFile.s;
      && (forall p :: p != accFile && p != keyFile && p != csrFile ==> (p in after <==> p in files))
      && (forall p :: p != accFile && p != keyFile && p != csrFile && p in files ==> after[p] == files[p])
      && accFile in after && keyFile in after && csrFile in after
      && (accFile in files && accFile != csrFile ==> after[accFile] == files[accFile])
      && (keyFile in files && keyFile != csrFile ==> after[keyFile] == files[keyFile])
      && (csrFile in files && CsrStatic(c.settings.csrStatic) ==> after[csrFile] == files[csrFile])
  {
    ChallengeHandlersFacts(c.domainlist, c.handlers, tools.loadHandler);
  }

  /** A valid certificate is stored in `cert_file`; the CA certificate is
      stored in `ca_file` only when the CA is not static and the authority
      returned one. Nothing else changes beyond the account key, key and
      request. */
  lemma CertGetValidCertificate(c: DomainConfig, tools: Tools, files: map<string, string>)
    requires CertGetSpec(c, tools, files).outcome.Ok?
    requires tools.isCertValid(CertGetSpec(c, tools, files).outcome.value.crt, c.settings.ttlDays)
    ensures
      var o := CertGetSpec(c, tools, files).outcome.value;
      && c.settings.accountKey.Str? && c.settings.keyFile.Str? && c.settings.csrFile.Str? && c.settings.certFile.Str?
      && (c.settings.staticCa || o.ca.None? ==>
            CertGetSpec(c, tools, files).files == FilesWithRequest(c, tools, files)[c.settings.certFile.s := o.crt])
      && (!c.settings.staticCa && o.ca.Some? ==>
            && c.settings.caFile.Str?
            && CertGetSpec(c, tools, files).files
               == FilesWithRequest(c, tools, files)[c.settings.certFile.s := o.crt][c.settings.caFile.s := o.ca.value])
  {
  }

  // ---------------------------------------------------------------------
  // cert_put

  /** Lines 102-103: the format string split at commas, each token stripped. */
  function FormatTokens(format: string): (r: seq<string>)
    ensures |r| == |Split(format, ',')|
    ensures forall i :: 0 <= i < |r| ==> ',' !in r[i]
    ensures forall i :: 0 <= i < |r| ==> r[i] == Strip(Split(format, ',')[i])
  {
    var pieces := Split(format, ',');
    forall i | 0 <= i < |pieces| ensures ',' !in Strip(pieces[i]) {
      if ',' in Strip(pieces[i]) {
        StripWithin(pieces[i], ',');
      }
    }
    seq(|pieces|, i requires 0 <= i < |pieces| => Strip(pieces[i]))
  }

  /** A format token as it can be written back: no comma, no whitespace at
      either end. */
  predicate IsToken(t: string)
  {
    ',' !in t && (|t| == 0 || (!IsSpace(t[0]) && !IsSpace(t[|t| - 1])))
  }

  /** Parsing a comma-joined list of tokens gives back the tokens. */
  lemma FormatTokensRoundTrip(ts: seq<string>)
    requires |ts| >= 1 && forall i :: 0 <= i < |ts| ==> IsToken(ts[i])
    ensures FormatTokens(JoinWith(ts, ',')) == ts
  {
    SplitJoin(ts, ',');
    forall i | 0 <= i < |ts| ensures Strip(ts[i]) == ts[i] {
      if |ts[i]| > 0 {
        StripUnchanged(ts[i]);
      }
    }
  }

  /** The format written with a space after the comma, "crt, key", gives
      the bare tokens. */
  lemma FormatTokensSpaced()
    ensures FormatTokens("crt, key") == ["crt", "key"]
  {
    SplitCrtKey();
    StripUnchanged("crt");
    StripSpaceKey();
  }

  lemma SplitCrtKey()
    ensures Split("crt, key", ',') == ["crt", " key"]
  {
    var pieces := ["crt", " key"];
    assert JoinWith(pieces, ',') == "crt, key" by {
      assert JoinWith(pieces[1..], ',') == " key";
    }
    SplitJoin(pieces, ',');
  }

  lemma StripSpaceKey()
    ensures Strip(" key") == "key"
  {
    StripPadded(" ", "key", "");
    assert " " + "key" + "" == " key";
  }

  /** Lines 112-124: reading a source file. */
  function ReadFile(src: map<string, string>, v: Value): Result<string>
  {
    match PathOf(v)
    case Err(e) => Err(e)
    case Ok(p) => if p in src then Ok(src[p]) else Err(FileNotFound(p))
  }

  /** Lines 110-127: what one format token appends to the target. `ca`
      first checks that the file exists and raises the same
      FileNotFoundError opening it would; unknown tokens append nothing. */
  function Piece(token: string, src: map<string, string>, certFile: Value, keyFile: Value, caFile: Value): Result<string>
  {
    if token == "crt" then ReadFile(src, certFile)
    else if token == "key" then ReadFile(src, keyFile)
    else if token == "ca" then ReadFile(src, caFile)
    else Ok("")
  }

  /** How the loop of lines 110-127 reads the piece of a token: `Piece`
      over the files as they were after the target was truncated. */
  type Reader = string -> Result<string>

  function PieceReader(src: map<string, string>, certFile: Value, keyFile: Value, caFile: Value): Reader
  {
    token => Piece(token, src, certFile, keyFile, caFile)
  }

  /** The target's contents after a run of tokens, and the error that
      stopped the loop, if any. */
  datatype Assembly = Assembly(content: string, error: Option<Error>)

  function Assemble(tokens: seq<string>, read: Reader): Assembly
    decreases |tokens|
  {
    if |tokens| == 0 then Assembly("", None)
    else Extend(Assemble(tokens[..|tokens| - 1], read), tokens[|tokens| - 1], read)
  }

  /** One turn of the token loop: nothing once the loop has stopped, else
      the token's piece is appended or its error stops the loop. */
  function Extend(a: Assembly, token: string, read: Reader): Assembly
  {
    if a.error.Some? then a
    else match read(token)
      case Err(e) => Assembly(a.content, Some(e))
      case Ok(p) => Assembly(a.content + p, None)
  }

  /** The pieces of a run of tokens that all succeed. */
  function Pieces(tokens: seq<string>, read: Reader): seq<string>
    requires forall i :: 0 <= i < |tokens| ==> read(tokens[i]).Ok?
  {
    seq(|tokens|, i requires 0 <= i < |tokens| && read(tokens[i]).Ok? => read(tokens[i]).value)
  }

  /** The loop succeeds exactly when every token's piece can be read, and
      the target is then the concatenation of the pieces in token order:
      a repeated token repeats its content. */
  lemma AssembleConcat(tokens: seq<string>, read: Reader)
    ensures Assemble(tokens, read).error.None? <==> forall i :: 0 <= i < |tokens| ==> read(tokens[i]).Ok?
    ensures Assemble(tokens, read).error.None? ==> Assemble(tokens, read).content == Concat(Pieces(tokens, read))
  {
    AssembleOk(tokens, read);
    if Assemble(tokens, read).error.None? {
      AssembleContent(tokens, read);
    }
  }

  lemma {:induction false} AssembleOk(tokens: seq<string>, read: Reader)
    ensures Assemble(tokens, read).error.None? <==> forall i :: 0 <= i < |tokens| ==> read(tokens[i]).Ok?
    decreases |tokens|
  {
    if |tokens| > 0 {
      var n := |tokens| - 1;
      var front := tokens[..n];
      AssembleOk(front, read);
      assert forall i :: 0 <= i < n ==> front[i] == tokens[i];
    }
  }

  lemma {:induction false} AssembleContent(tokens: seq<string>, read: Reader)
    requires forall i :: 0 <= i < |tokens| ==> read(tokens[i]).Ok?
    ensures Assemble(tokens, read) == Assembly(Concat(Pieces(tokens, read)), None)
    decreases |tokens|
  {
    if |tokens| == 0 {
      assert Pieces(tokens, read) == [];
    } else {
      var n := |tokens| - 1;
      var front := tokens[..n];
      assert forall i :: 0 <= i < n ==> front[i] == tokens[i];
      AssembleContent(front, read);
      var done := Pieces(front, read);
      var p := read(tokens[n]).value;
      assert Pieces(tokens, read) == done + [p];
      ConcatSnoc(done, p);
    }
  }

  /** The outcome after more tokens depends only on the outcome so far. */
  lemma {:induction false} AssembleCongruence(xs: seq<string>, ys: seq<string>, us: seq<string>, read: Reader)
    requires Assemble(xs, read) == Assemble(ys, read)
    ensures Assemble(xs + us, read) == Assemble(ys + us, read)
    decreases |us|
  {
    if |us| == 0 {
      assert xs + us == xs && ys + us == ys;
    } else {
      var n := |us| - 1;
      AssembleCongruence(xs, ys, us[..n], read);
      assert (xs + us)[..|xs| + n] == xs + us[..n];
      assert (ys + us)[..|ys| + n] == ys + us[..n];
      assert (xs + us)[|xs| + n] == us[n] && (ys + us)[|ys| + n] == us[n];
    }
  }

  /** An unknown token changes nothing, wherever it stands. */
  lemma UnknownTokenIgnored(xs: seq<string>, token: string, us: seq<string>,
                            src: map<string, string>, certFile: Value, keyFile: Value, caFile: Value)
    requires token != "crt" && token != "key" && token != "ca"
    ensures
      var read := PieceReader(src, certFile, keyFile, caFile);
      Assemble(xs + [token] + us, read) == Assemble(xs + us, read)
  {
    var read := PieceReader(src, certFile, keyFile, caFile);
    assert (xs + [token])[..|xs|] == xs;
    assert Assemble(xs + [token], read) == Assemble(xs, read);
    AssembleCongruence(xs + [token], xs, us, read);
  }

  /** A `ca` token whose file does not exist makes the loop fail, whatever
      the other tokens are. */
  lemma MissingCaFails(tokens: seq<string>, src: map<string, string>, certFile: Value, keyFile: Value, caFile: string)
    requires "ca" in tokens && caFile !in src
    ensures Assemble(tokens, PieceReader(src, certFile, keyFile, Str(caFile))).error.Some?
  {
    var read := PieceReader(src, certFile, keyFile, Str(caFile));
    AssembleOk(tokens, read);
    var i :| 0 <= i < |tokens| && tokens[i] == "ca";
    assert read(tokens[i]) == Err(FileNotFound(caFile));
  }

  /** A failing loop leaves what the tokens before the failing one wrote. */
  lemma {:induction false} AssemblePartial(tokens: seq<string>, read: Reader)
    requires Assemble(tokens, read).error.Some?
    ensures exists k ::
      && 0 <= k < |tokens|
      && Assemble(tokens[..k], read).error.None?
      && read(tokens[k]) == Err(Assemble(tokens, read).error.value)
      && Assemble(tokens, read).content == Assemble(tokens[..k], read).content
    decreases |tokens|
  {
    var n := |tokens| - 1;
    var front := tokens[..n];
    if Assemble(front, read).error.Some? {
      AssemblePartial(front, read);
      var k :| 0 <= k < |front| && (
        && Assemble(front[..k], read).error.None?
        && read(front[k]) == Err(Assemble(front, read).error.value)
        && Assemble(front, read).content == Assemble(front[..k], read).content);
      assert front[..k] == tokens[..k] && front[k] == tokens[k];
    } else {
      assert tokens[..n] == front;
    }
  }

  /** The settings of a deployment target, as lines 97-107 read them. */
  datatype Target = Target(
    caFile: Value, user: Value, group: Value, perm: Value, path: Value,
    tokens: seq<string>, action: Value, keyFile: Value, certFile: Value)

  /** Lines 97-107: the lookups in the source's order; `format` must be a
      string to be split. */
  function TargetOf(cfg: Doc): Result<Target>
  {
    if "ca_file" !in cfg then Err(KeyError("ca_file"))
    else if "user" !in cfg then Err(KeyError("user"))
    else if "group" !in cfg then Err(KeyError("group"))
    else if "perm" !in cfg then Err(KeyError("perm"))
    else if "path" !in cfg then Err(KeyError("path"))
    else if "format" !in cfg then Err(KeyError("format"))
    else if !cfg["format"].Str? then Err(AttributeError)
    else if "action" !in cfg then Err(KeyError("action"))
    else if "key_file" !in cfg then Err(KeyError("key_file"))
    else if "cert_file" !in cfg then Err(KeyError("cert_file"))
    else Ok(Target(cfg["ca_file"], cfg["user"], cfg["group"], cfg["perm"], cfg["path"],
                   FormatTokens(cfg["format"].s), cfg["action"], cfg["key_file"], cfg["cert_file"]))
  }

  /** The lookups succeed exactly when the nine settings are present and
      `format` is a string; a failed lookup names a missing setting. */
  lemma TargetLookups(cfg: Doc)
    ensures TargetOf(cfg).Ok? <==>
      && "ca_file" in cfg && "user" in cfg && "group" in cfg && "perm" in cfg && "path" in cfg
      && "format" in cfg && cfg["format"].Str? && "action" in cfg && "key_file" in cfg && "cert_file" in cfg
    ensures TargetOf(cfg).Ok? ==>
      var t := TargetOf(cfg).value;
      && t.path == cfg["path"] && t.action == cfg["action"] && t.tokens == FormatTokens(cfg["format"].s)
      && t.caFile == cfg["ca_file"] && t.keyFile == cfg["key_file"] && t.certFile == cfg["cert_file"]
    ensures TargetOf(cfg).Err? && TargetOf(cfg).error.KeyError? ==> TargetOf(cfg).error.key !in cfg
  {
  }

  /** The outcome of `cert_put` and the files after it (also after a failure). */
  datatype PutRun = PutRun(outcome: Result<Value>, files: map<string, string>)

  /** Lines 95-141, without the ownership and permission changes. The
      target is truncated when it is opened, the pieces are read from the
      files as they are then, and the target keeps what was written when a
      piece fails. */
  function CertPutSpec(cfg: Doc, files: map<string, string>): PutRun
  {
    match TargetOf(cfg)
    case Err(e) => PutRun(Err(e), files)
    case Ok(t) =>
      match PathOf(t.path)
      case Err(e) => PutRun(Err(e), files)
      case Ok(target) =>
        var a := Assemble(t.tokens, PieceReader(files[target := ""], t.certFile, t.keyFile, t.caFile));
        var after := files[target := a.content];
        if a.error.Some? then PutRun(Err(a.error.value), after) else PutRun(Ok(t.action), after)
  }

  /** `cert_put` writes its target and nothing else. */
  lemma CertPutWritesTarget(cfg: Doc, files: map<string, string>, p: string)
    requires !("path" in cfg && cfg["path"] == Str(p))
    ensures p in CertPutSpec(cfg, files).files <==> p in files
    ensures p in files ==> CertPutSpec(cfg, files).files[p] == files[p]
  {
    TargetLookups(cfg);
  }

  /** On success `cert_put` returns the target's `action` unchanged, and the
      target holds the concatenation of the pieces of its format tokens,
      read after the target was truncated. */
  lemma CertPutSucceeds(cfg: Doc, files: map<string, string>)
    requires CertPutSpec(cfg, files).outcome.Ok?
    ensures TargetOf(cfg).Ok? && TargetOf(cfg).value.path.Str?
    ensures "action" in cfg && CertPutSpec(cfg, files).outcome.value == cfg["action"]
    ensures
      var t := TargetOf(cfg).value;
      var src := files[t.path.s := ""];
      && (forall i :: 0 <= i < |t.tokens| ==> Piece(t.tokens[i], src, t.certFile, t.keyFile, t.caFile).Ok?)
      && CertPutSpec(cfg, files).files[t.path.s] == Concat(Pieces(t.tokens, PieceReader(src, t.certFile, t.keyFile, t.caFile)))
  {
    TargetLookups(cfg);
    var t := TargetOf(cfg).value;
    AssembleConcat(t.tokens, PieceReader(files[t.path.s := ""], t.certFile, t.keyFile, t.caFile));
  }

  /** A `ca` token whose CA file does not exist fails `cert_put` after the
      target was truncated: the target is not replaced atomically. */
  lemma CertPutMissingCa(cfg: Doc, files: map<string, string>)
    requires TargetOf(cfg).Ok?
    requires
      var t := TargetOf(cfg).value;
      t.path.Str? && t.caFile.Str? && "ca" in t.tokens && t.caFile.s !in files && t.caFile.s != t.path.s
    ensures CertPutSpec(cfg, files).outcome.Err?
    ensures TargetOf(cfg).value.tokens[0] == "ca" ==>
      CertPutSpec(cfg, files).files == files[TargetOf(cfg).value.path.s := ""]
  {
    var t := TargetOf(cfg).value;
    var src := files[t.path.s := ""];
    MissingCaFails(t.tokens, src, t.certFile, t.keyFile, t.caFile.s);
    if t.tokens[0] == "ca" {
      AssemblePrefix(t.tokens, PieceReader(src, t.certFile, t.keyFile, t.caFile));
    }
  }

  /** When the first token fails, nothing is written to the target. */
  lemma AssemblePrefix(tokens: seq<string>, read: Reader)
    requires |tokens| > 0 && read(tokens[0]).Err?
    ensures Assemble(tokens, read).content == ""
  {
    var first := tokens[..1];
    assert first[..0] == [] && first[0] == tokens[0];
    AssembleStops(first, tokens[1..], read);
    assert first + tokens[1..] == tokens;
  }

  /** One more token: its piece is appended, or the loop stops at it. */
  lemma AssembleStep(tokens: seq<string>, i: nat, read: Reader)
    requires i < |tokens| && Assemble(tokens[..i], read).error.None?
    ensures
      var a := Assemble(tokens[..i], read);
      Assemble(tokens[..i + 1], read) ==
        match read(tokens[i])
        case Err(e) => Assembly(a.content, Some(e))
        case Ok(p) => Assembly(a.content + p, None)
  {
    assert tokens[..i + 1][..i] == tokens[..i];
  }

  lemma AssembleAll(tokens: seq<string>, read: Reader)
    ensures Assemble(tokens[..|tokens|], read) == Assemble(tokens, read)
  {
    assert tokens[..|tokens|] == tokens;
  }

  /** Once a prefix of the tokens fails, the rest changes nothing. */
  lemma AssembleRest(tokens: seq<string>, n: nat, read: Reader)
    requires n <= |tokens| && Assemble(tokens[..n], read).error.Some?
    ensures Assemble(tokens, read) == Assemble(tokens[..n], read)
  {
    AssembleStops(tokens[..n], tokens[n..], read);
    assert tokens[..n] + tokens[n..] == tokens;
  }

  /** Once the loop has failed, later tokens change nothing. */
  lemma {:induction false} AssembleStops(xs: seq<string>, us: seq<string>, read: Reader)
    requires Assemble(xs, read).error.Some?
    ensures Assemble(xs + us, read) == Assemble(xs, read)
    decreases |us|
  {
    if |us| == 0 {
      assert xs + us == xs;
    } else {
      var n := |us| - 1;
      AssembleStops(xs, us[..n], read);
      assert (xs + us)[..|xs| + n] == xs + us[..n];
    }
  }

  // ---------------------------------------------------------------------
  // main

  /** The outcome of a run over domain groups or targets (the actions
      collected), and the files after it (also after a failure). */
  datatype Run = Run(outcome: Result<set<Value>>, files: map<string, string>)

  /** One turn of a loop over groups or targets, on the files as they are. */
  type Stepper<-T> = (T, map<string, string>) -> Run

  /** The loops of lines 149-163: each step runs on the files the earlier
      steps left, the actions the steps collect are gathered, and the first
      failure ends the loop, leaving the files as they are then. */
  function RunAll<T>(items: seq<T>, step: Stepper<T>, files: map<string, string>): Run
    decreases |items|
  {
    if |items| == 0 then Run(Ok({}), files)
    else
      var before := RunAll(items[..|items| - 1], step, files);
      if before.outcome.Err? then before
      else
        var r := step(items[|items| - 1], before.files);
        var outcome := match r.outcome
          case Err(e) => Err(e)
          case Ok(s) => Ok(before.outcome.value + s);
        Run(outcome, r.files)
  }

  /** One more turn of the loop. */
  lemma RunAllStep<T>(items: seq<T>, i: nat, step: Stepper<T>, files: map<string, string>)
    requires i < |items| && RunAll(items[..i], step, files).outcome.Ok?
    ensures
      var before := RunAll(items[..i], step, files);
      var r := step(items[i], before.files);
      RunAll(items[..i + 1], step, files) ==
        Run(match r.outcome case Err(e) => Err(e) case Ok(s) => Ok(before.outcome.value + s), r.files)
  {
    assert items[..i + 1][..i] == items[..i];
  }

  lemma RunAllAll<T>(items: seq<T>, step: Stepper<T>, files: map<string, string>)
    ensures RunAll(items[..|items|], step, files) == RunAll(items, step, files)
  {
    assert items[..|items|] == items;
  }

  /** Once a prefix of the loop fails, the later items do not run. */
  lemma {:induction false} RunAllStopsAtError<T>(items: seq<T>, step: Stepper<T>, files: map<string, string>, n: nat)
    requires n <= |items| && RunAll(items[..n], step, files).outcome.Err?
    ensures RunAll(items, step, files) == RunAll(items[..n], step, files)
    decreases |items|
  {
    if n == |items| {
      assert items[..n] == items;
    } else {
      var front := items[..|items| - 1];
      assert front[..n] == items[..n];
      RunAllStopsAtError(front, step, files, n);
    }
  }

  /** A loop whose every step changes nothing and collects nothing changes
      nothing and collects nothing. */
  lemma {:induction false} RunAllIdle<T>(items: seq<T>, step: Stepper<T>, files: map<string, string>)
    requires forall i :: 0 <= i < |items| ==> step(items[i], files) == Run(Ok({}), files)
    ensures RunAll(items, step, files) == Run(Ok({}), files)
    decreases |items|
  {
    if |items| > 0 {
      var n := |items| - 1;
      assert forall i :: 0 <= i < n ==> items[..n][i] == items[i];
      RunAllIdle(items[..n], step, files);
      var none: set<Value> := {};
      assert none + none == none;
    }
  }

  /** Every action the loop collects was collected by the step of one of
      its items. */
  lemma {:induction false} RunAllActions<T>(items: seq<T>, step: Stepper<T>, files: map<string, string>, valid: (T, Value) -> bool)
    requires forall i, f, a :: 0 <= i < |items| && step(items[i], f).outcome.Ok? && a in step(items[i], f).outcome.value ==>
      valid(items[i], a)
    requires RunAll(items, step, files).outcome.Ok?
    ensures forall a :: a in RunAll(items, step, files).outcome.value ==> exists i :: 0 <= i < |items| && valid(items[i], a)
    decreases |items|
  {
    if |items| > 0 {
      var n := |items| - 1;
      var front := items[..n];
      assert forall i :: 0 <= i < n ==> front[i] == items[i];
      RunAllActions(front, step, files, valid);
    }
  }

  /** A file that no step touches is left as it was. */
  lemma {:induction false} RunAllFrame<T>(items: seq<T>, step: Stepper<T>, files: map<string, string>, p: string)
    requires forall i, f :: 0 <= i < |items| ==> (p in step(items[i], f).files <==> p in f)
    requires forall i, f :: 0 <= i < |items| && p in f ==> step(items[i], f).files[p] == f[p]
    ensures p in RunAll(items, step, files).files <==> p in files
    ensures p in files ==> RunAll(items, step, files).files[p] == files[p]
    decreases |items|
  {
    if |items| > 0 {
      var n := |items| - 1;
      var front := items[..n];
      assert forall i :: 0 <= i < n ==> front[i] == items[i];
      RunAllFrame(front, step, files, p);
    }
  }

  /** Lines 161-163 for one target: a target without `path` raises
      KeyError, a current one is skipped, any other is deployed and its
      action collected. */
  function DeployOne(t: Doc, certFile: string, tools: Tools, files: map<string, string>): Run
  {
    if "path" !in t then Run(Err(KeyError("path")), files)
    else if tools.targetIsCurrent(files, t["path"], certFile) then Run(Ok({}), files)
    else
      var put := CertPutSpec(t, files);
      Run(match put.outcome case Err(e) => Err(e) case Ok(a) => Ok({a}), put.files)
  }

  function Deployer(certFile: string, tools: Tools): Stepper<Doc>
  {
    (t, f) => DeployOne(t, certFile, tools, f)
  }

  /** Lines 160-163: deploy every target that is not current and collect
      the actions `cert_put` returns. */
  function DeployTargets(targets: seq<Doc>, certFile: string, tools: Tools, files: map<string, string>): Run
  {
    RunAll(targets, Deployer(certFile, tools), files)
  }

  /** Lines 153-163 for one domain group: renew when the certificate is
      missing or not valid for `ttl_days`, then deploy the targets. */
  function ConfigStep(c: DomainConfig, tools: Tools, files: map<string, string>): Run
  {
    match PathOf(c.settings.certFile)
    case Err(e) => Run(Err(e), files)
    case Ok(certFile) =>
      if certFile in files && tools.isCertValid(files[certFile], c.settings.ttlDays) then
        DeployTargets(c.actions, certFile, tools, files)
      else
        var got := CertGetSpec(c, tools, files);
        match got.outcome
        case Err(e) => Run(Err(e), got.files)
        case Ok(_) => DeployTargets(c.actions, certFile, tools, got.files)
  }

  function GroupStepper(tools: Tools): Stepper<DomainConfig>
  {
    (c, f) => ConfigStep(c, tools, f)
  }

  /** Lines 149-163 over the domain configurations, in order; the first
      failure aborts the run. */
  function MainSpec(configs: seq<DomainConfig>, tools: Tools, files: map<string, string>): Run
  {
    RunAll(configs, GroupStepper(tools), files)
  }

  /** Lines 166-167: the actions that are run, each distinct one once. */
  function ActionsToRun(actions: set<Value>): (r: set<Value>)
    ensures Null !in r && forall a :: a in actions && a != Null ==> a in r
    ensures r <= actions
  {
    set a | a in actions && a != Null
  }

  /** `a` is the `action` of target `t`. */
  predicate IsActionOf(t: Doc, a: Value)
  {
    "action" in t && t["action"] == a
  }

  /** The collected actions are the `action` values of deployed targets. */
  lemma DeployTargetsActions(targets: seq<Doc>, certFile: string, tools: Tools, files: map<string, string>)
    requires DeployTargets(targets, certFile, tools, files).outcome.Ok?
    ensures forall a :: a in DeployTargets(targets, certFile, tools, files).outcome.value ==>
      exists j :: 0 <= j < |targets| && "action" in targets[j] && targets[j]["action"] == a
  {
    var step := Deployer(certFile, tools);
    forall i, f, a | 0 <= i < |targets| && step(targets[i], f).outcome.Ok? && a in step(targets[i], f).outcome.value
      ensures IsActionOf(targets[i], a)
    {
      CertPutSucceeds(targets[i], f);
    }
    RunAllActions(targets, step, files, IsActionOf);
  }

  /** Deploying targets changes only the targets' paths. */
  lemma DeployTargetsFrame(targets: seq<Doc>, certFile: string, tools: Tools, files: map<string, string>, p: string)
    requires forall j :: 0 <= j < |targets| ==> !("path" in targets[j] && targets[j]["path"] == Str(p))
    ensures p in DeployTargets(targets, certFile, tools, files).files <==> p in files
    ensures p in files ==> DeployTargets(targets, certFile, tools, files).files[p] == files[p]
  {
    var step := Deployer(certFile, tools);
    forall i, f | 0 <= i < |targets|
      ensures p in step(targets[i], f).files <==> p in f
      ensures p in f ==> step(targets[i], f).files[p] == f[p]
    {
      CertPutWritesTarget(targets[i], f, p);
    }
    RunAllFrame(targets, step, files, p);
  }

  /** Targets that are all current are left alone and add no action. */
  lemma DeployAllCurrent(targets: seq<Doc>, certFile: string, tools: Tools, files: map<string, string>)
    requires forall j :: 0 <= j < |targets| ==> "path" in targets[j] && tools.targetIsCurrent(files, targets[j]["path"], certFile)
    ensures DeployTargets(targets, certFile, tools, files) == Run(Ok({}), files)
  {
    var step := Deployer(certFile, tools);
    forall i | 0 <= i < |targets| ensures step(targets[i], files) == Run(Ok({}), files) {
    }
    RunAllIdle(targets, step, files);
  }

  /** A group whose certificate exists and is valid is not renewed: its
      targets are checked against the files as they are. A group whose
      certificate is missing or not valid is renewed first, and its
      targets are checked against the files `cert_get` left. */
  lemma ConfigStepRenewal(c: DomainConfig, tools: Tools, files: map<string, string>)
    requires c.settings.certFile.Str?
    ensures
      var p := c.settings.certFile.s;
      && (p in files && tools.isCertValid(files[p], c.settings.ttlDays) ==>
            ConfigStep(c, tools, files) == DeployTargets(c.actions, p, tools, files))
      && (!(p in files && tools.isCertValid(files[p], c.settings.ttlDays)) && CertGetSpec(c, tools, files).outcome.Ok? ==>
            ConfigStep(c, tools, files) == DeployTargets(c.actions, p, tools, CertGetSpec(c, tools, files).files))
      && (!(p in files && tools.isCertValid(files[p], c.settings.ttlDays)) && CertGetSpec(c, tools, files).outcome.Err? ==>
            ConfigStep(c, tools, files).outcome == Err(CertGetSpec(c, tools, files).outcome.error))
  {
  }

  /** A group whose certificate exists and is valid and whose targets are
      all current changes nothing and adds no action. */
  predicate UpToDate(c: DomainConfig, tools: Tools, files: map<string, string>)
  {
    && c.settings.certFile.Str? && c.settings.certFile.s in files
    && tools.isCertValid(files[c.settings.certFile.s], c.settings.ttlDays)
    && forall j :: 0 <= j < |c.actions| ==>
         "path" in c.actions[j] && tools.targetIsCurrent(files, c.actions[j]["path"], c.settings.certFile.s)
  }

  /** When every group is up to date, `main` writes nothing and runs no action. */
  lemma MainNothingToDo(configs: seq<DomainConfig>, tools: Tools, files: map<string, string>)
    requires forall i :: 0 <= i < |configs| ==> UpToDate(configs[i], tools, files)
    ensures MainSpec(configs, tools, files) == Run(Ok({}), files)
  {
    var step := GroupStepper(tools);
    forall i | 0 <= i < |configs| ensures step(configs[i], files) == Run(Ok({}), files) {
      UpToDateStep(configs[i], tools, files);
    }
    RunAllIdle(configs, step, files);
  }

  /** An up-to-date group is neither renewed nor deployed. */
  lemma UpToDateStep(c: DomainConfig, tools: Tools, files: map<string, string>)
    requires UpToDate(c, tools, files)
    ensures ConfigStep(c, tools, files) == Run(Ok({}), files)
  {
    DeployAllCurrent(c.actions, c.settings.certFile.s, tools, files);
  }

  /** `a` is the `action` of one of the targets of group `c`. */
  predicate IsGroupAction(c: DomainConfig, a: Value)
  {
    exists j :: 0 <= j < |c.actions| && IsActionOf(c.actions[j], a)
  }

  /** Every action `main` collects is the `action` of a target of one of
      the groups. */
  lemma MainActions(configs: seq<DomainConfig>, tools: Tools, files: map<string, string>)
    requires MainSpec(configs, tools, files).outcome.Ok?
    ensures forall a :: a in MainSpec(configs, tools, files).outcome.value ==>
      exists i, j :: 0 <= i < |configs| && 0 <= j < |configs[i].actions| &&
        "action" in configs[i].actions[j] && configs[i].actions[j]["action"] == a
  {
    var step := GroupStepper(tools);
    forall i, f, a | 0 <= i < |configs| && step(configs[i], f).outcome.Ok? && a in step(configs[i], f).outcome.value
      ensures IsGroupAction(configs[i], a)
    {
      ConfigStepActions(configs[i], tools, f);
    }
    RunAllActions(configs, step, files, IsGroupAction);
  }

  /** Every action a group collects is the `action` of one of its targets. */
  lemma ConfigStepActions(c: DomainConfig, tools: Tools, files: map<string, string>)
    requires ConfigStep(c, tools, files).outcome.Ok?
    ensures forall a :: a in ConfigStep(c, tools, files).outcome.value ==>
      exists j :: 0 <= j < |c.actions| && "action" in c.actions[j] && c.actions[j]["action"] == a
  {
    var certFile := c.settings.certFile.s;
    if certFile in files && tools.isCertValid(files[certFile], c.settings.ttlDays) {
      DeployTargetsActions(c.actions, certFile, tools, files);
    } else {
      DeployTargetsActions(c.actions, certFile, tools, CertGetSpec(c, tools, files).files);
    }
  }

  // ---------------------------------------------------------------------
  // The filesystem

  /** The host's files, which `cert_get`, `cert_put` and `main` change. */
  class FileStore {
    var files: map<string, string>

    constructor(initial: map<string, string>)
      ensures files == initial
    {
      files := initial;
    }

    /** Lines 51-89: fill the handler dictionary, then obtain and store the
        key, request, certificate and CA certificate. */
    method CertGet(c: DomainConfig, tools: Tools) returns (r: Result<Obtained>)
      modifies this
      ensures GetRun(r, files) == CertGetSpec(c, tools, old(files))
    {
      if !c.settings.accountKey.Str? {
        return Err(TypeError);
      }
      var accFile := c.settings.accountKey.s;
      var accKey: string;
      if accFile in files {
        accKey := files[accFile];
      } else {
        accKey := tools.newAccountKey;
        files := files[accFile := accKey];
      }
      assert files == AccountFiles(c, tools, old(files));
      var registration := tools.register(c.settings, accKey);
      if registration.Some? {
        return Err(registration.value);
      }
      var created := CreateHandlers(c.domainlist, c.handlers, tools.loadHandler);
      if created.Err? {
        return Err(created.error);
      }
      var handlers := created.value;
      if !c.settings.keyFile.Str? {
        return Err(TypeError);
      }
      var keyFile := c.settings.keyFile.s;
      var key: string;
      if keyFile in files {
        key := files[keyFile];
      } else {
        key := tools.newSslKey(c.settings.keyLength);
        files := files[keyFile := key];
      }
      assert files == FilesWithKey(c, tools, old(files));
      if !c.settings.csrFile.Str? {
        return Err(TypeError);
      }
      var csrFile := c.settings.csrFile.s;
      var csr: string;
      if csrFile in files && CsrStatic(c.settings.csrStatic) {
        csr := files[csrFile];
      } else {
        csr := tools.newCertRequest(c.domainlist, key);
        files := files[csrFile := csr];
      }
      assert csr == RequestOf(c, tools, old(files)) && files == FilesWithRequest(c, tools, old(files));
      var issued := tools.getCrtFromCsr(csr, c.domainlist, handlers);
      if issued.Err? {
        return Err(issued.error);
      }
      var crt, ca := issued.value.0, issued.value.1;
      if tools.isCertValid(crt, c.settings.ttlDays) {
        if !c.settings.certFile.Str? {
          return Err(TypeError);
        }
        files := files[c.settings.certFile.s := crt];
        if !c.settings.staticCa && ca.Some? {
          if !c.settings.caFile.Str? {
            return Err(TypeError);
          }
          files := files[c.settings.caFile.s := ca.value];
        }
      }
      return Ok(Obtained(handlers, key, csr, crt, ca));
    }

    /** Lines 95-141: truncate the target, append the piece of every format
        token, and return the target's action. The pieces written so far
        stay in the write buffer until the target is closed, so the sources
        are read from the files as they were right after truncation. */
    method CertPut(cfg: Doc) returns (r: Result<Value>)
      modifies this
      ensures PutRun(r, files) == CertPutSpec(cfg, old(files))
    {
      var lookup := TargetOf(cfg);
      if lookup.Err? {
        return Err(lookup.error);
      }
      var t := lookup.value;
      var tokens, certFile, keyFile, caFile := t.tokens, t.certFile, t.keyFile, t.caFile;
      if !t.path.Str? {
        return Err(TypeError);
      }
      var target := t.path.s;
      var failure := WriteTarget(target, tokens, certFile, keyFile, caFile);
      if failure.Some? {
        return Err(failure.value);
      }
      return Ok(t.action);
    }

    /** Lines 109-127: truncate the target and append the piece of every
        token. The pieces written so far stay in the write buffer until the
        target is closed, so the sources are read from the files as they
        were right after truncation; closing the target after a failure
        keeps what was written. */
    method WriteTarget(target: string, tokens: seq<string>, certFile: Value, keyFile: Value, caFile: Value)
      returns (failure: Option<Error>)
      modifies this
      ensures
        var a := Assemble(tokens, PieceReader(old(files)[target := ""], certFile, keyFile, caFile));
        files == old(files)[target := a.content] && failure == a.error
    {
      var original := files;
      var src := original[target := ""];
      files := src;
      var read := PieceReader(src, certFile, keyFile, caFile);
      var content := "";
      for i := 0 to |tokens|
        invariant files == src
        invariant Assemble(tokens[..i], read).error.None?
        invariant Assemble(tokens[..i], read).content == content
      {
        var piece := Piece(tokens[i], src, certFile, keyFile, caFile);
        AssembleStep(tokens, i, read);
        if piece.Err? {
          AssembleRest(tokens, i + 1, read);
          files := original[target := content];
          return Some(piece.error);
        }
        content := content + piece.value;
      }
      AssembleAll(tokens, read);
      files := original[target := content];
      return None;
    }

    /** Lines 149-167 over the domain configurations: the distinct
        non-None actions to run. */
    method Manage(configs: seq<DomainConfig>, tools: Tools) returns (r: Result<set<Value>>)
      modifies this
      ensures MainSpec(configs, tools, old(files)).files == files
      ensures MainSpec(configs, tools, old(files)).outcome.Err? ==> r == Err(MainSpec(configs, tools, old(files)).outcome.error)
      ensures MainSpec(configs, tools, old(files)).outcome.Ok? ==> r == Ok(ActionsToRun(MainSpec(configs, tools, old(files)).outcome.value))
    {
      ghost var step := GroupStepper(tools);
      var actions: set<Value> := {};
      for i := 0 to |configs|
        invariant RunAll(configs[..i], step, old(files)) == Run(Ok(actions), files)
      {
        RunAllStep(configs, i, step, old(files));
        var done := Step(configs[i], tools);
        if done.Err? {
          RunAllStopsAtError(configs, step, old(files), i + 1);
          return Err(done.error);
        }
        actions := actions + done.value;
      }
      RunAllAll(configs, step, old(files));
      return Ok(ActionsToRun(actions));
    }

    /** Lines 153-163 for one domain group. */
    method Step(c: DomainConfig, tools: Tools) returns (r: Result<set<Value>>)
      modifies this
      ensures Run(r, files) == ConfigStep(c, tools, old(files))
    {
      if !c.settings.certFile.Str? {
        return Err(TypeError);
      }
      var certFile := c.settings.certFile.s;
      if !(certFile in files && tools.isCertValid(files[certFile], c.settings.ttlDays)) {
        var got := CertGet(c, tools);
        if got.Err? {
          return Err(got.error);
        }
      }
      r := Deploy(c.actions, certFile, tools);
    }

    /** Lines 160-163: deploy every target that is not current. */
    method Deploy(targets: seq<Doc>, certFile: string, tools: Tools) returns (r: Result<set<Value>>)
      modifies this
      ensures Run(r, files) == DeployTargets(targets, certFile, tools, old(files))
    {
      ghost var step := Deployer(certFile, tools);
      var deployed: set<Value> := {};
      for j := 0 to |targets|
        invariant RunAll(targets[..j], step, old(files)) == Run(Ok(deployed), files)
      {
        RunAllStep(targets, j, step, old(files));
        var done := DeployTarget(targets[j], certFile, tools);
        if done.Err? {
          RunAllStopsAtError(targets, step, old(files), j + 1);
          return Err(done.error);
        }
        deployed := deployed + done.value;
      }
      RunAllAll(targets, step, old(files));
      return Ok(deployed);
    }

    /** Lines 161-163 for one target. */
    method DeployTarget(t: Doc, certFile: string, tools: Tools) returns (r: Result<set<Value>>)
      modifies this
      ensures Run(r, files) == DeployOne(t, certFile, tools, old(files))
    {
      if "path" !in t {
        return Err(KeyError("path"));
      }
      if tools.targetIsCurrent(files, t["path"], certFile) {
        return Ok({});
      }
      var a := CertPut(t);
      if a.Err? {
        return Err(a.error);
      }
      return Ok({a.value});
    }
  }

  /** Lines 58-61: the loop filling the handler dictionary. */
  method CreateHandlers(domainlist: seq<string>, handlers: map<string, Doc>, load: HandlerLoader)
    returns (r: Result<map<string, Handler>>)
    ensures r == ChallengeHandlers(domainlist, handlers, load)
  {
    var created: map<string, Handler> := map[];
    for i := 0 to |domainlist|
      invariant ChallengeHandlers(domainlist[..i], handlers, load) == Ok(created)
    {
      assert domainlist[..i + 1][..i] == domainlist[..i];
      var d := domainlist[i];
      if d !in handlers {
        HandlersStopAtError(domainlist, handlers, load, i + 1);
        return Err(KeyError(d));
      }
      var h := CreateChallengeHandler(handlers[d], load);
      if h.Err? {
        HandlersStopAtError(domainlist, handlers, load, i + 1);
        return Err(h.error);
      }
      created := created[d := h.value];
    }
    assert domainlist[..|domainlist|] == domainlist;
    return Ok(created);
  }

  lemma {:induction false} HandlersStopAtError(domainlist: seq<string>, handlers: map<string, Doc>, load: HandlerLoader, n: nat)
    requires n <= |domainlist| && ChallengeHandlers(domainlist[..n], handlers, load).Err?
    ensures ChallengeHandlers(domainlist, handlers, load) == ChallengeHandlers(domainlist[..n], handlers, load)
    decreases |domainlist|
  {
    if n == |domainlist| {
      assert domainlist[..n] == domainlist;
    } else {
      var front := domainlist[..|domainlist| - 1];
      assert front[..n] == domainlist[..n];
      HandlersStopAtError(front, handlers, load, n);
    }
  }

  // ---------------------------------------------------------------------
  // main as written

  /** The `runtimeconfig` dictionary `load` returns (configuration.py
      lines 233-267). */
  function RuntimeDict(rc: RuntimeConfig): Doc
  {
    var base := map["work_dir" := Str(rc.workDir), "authority_tos_agreement" := rc.tosAgreement];
    var withRenew := if rc.forceRenew.Some? then base["force_renew" := Str(rc.forceRenew.value)] else base;
    if rc.revoke.Some? then
      withRenew["mode" := Str("revoke")]["revoke" := Str(rc.revoke.value)]
               ["revoke_reason" := if rc.revokeReason.Some? then Int(rc.revokeReason.value) else Null]
    else withRenew
  }

  /** Lines 146-153 as written: `configs` is the pair `load` returns, so
      the loop's first `config` is the runtime dictionary, and the loop
      body starts by looking up `cert_file` in it. */
  function MainAsWrittenFirstLookup(loaded: (RuntimeConfig, seq<DomainConfig>)): Result<Value>
  {
    var first := RuntimeDict(loaded.0);
    if "cert_file" in first then Ok(first["cert_file"]) else Err(KeyError("cert_file"))
  }

  /** As written, `main` raises KeyError('cert_file') on every
      configuration, before it renews or deploys anything. */
  lemma MainAsWrittenFails(rc: RuntimeConfig, configs: seq<DomainConfig>)
    ensures MainAsWrittenFirstLookup((rc, configs)) == Err(KeyError("cert_file"))
  {
    assert "cert_file" !in RuntimeDict(rc);
  }
}

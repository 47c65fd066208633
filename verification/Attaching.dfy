/** Attachment of one route: the listeners it names, and its rules with their authentication
    documents. */
module Attaching {
  import opened Strings
  import opened Compiled
  import opened Building
  import opened Certificates
  import opened Validating
  import Matching

  // ---------------------------------------------------------------- inputs --

  /** One rule of a route. `broken` says that anything else about its extensions is refused;
      `auth` is what its authentication documents merge to, if it has any, and `identity` stands
      for the list of their Secrets. */
  datatype RuleSpec = RuleSpec(
    matches: seq<Matching.Match>,
    backends: seq<Matching.Backend>,
    broken: bool,
    auth: Option<AuthConfig>,
    identity: string)

  /** A route and the positions of the listeners that admit it; `unsupported` when some part of it
      cannot be compiled at all. */
  datatype RouteSpec = RouteSpec(
    uid: string,
    namespace: string,
    name: string,
    hostnames: seq<string>,
    created: int,
    grpc: bool,
    unsupported: bool,
    admitted: seq<nat>,
    rules: seq<RuleSpec>)

  /** One attachment: its compiled form, if it was accepted, and its authentication documents by
      identity. */
  datatype RouteOutcome = RouteOutcome(config: Option<RouteConfig>, authDocs: map<string, string>)

  // -------------------------------------------------------- authentication --

  predicate UsesCookies(config: AuthConfig) {
    config.oidc || config.saml.Some? || config.ldap.Some?
  }

  /** What validating the merged document checks of the material that hydrating it needs: inline
      SAML metadata is taken over unread. */
  predicate AuthValid(k: Checks, config: AuthConfig) {
    && (config.jwt || UsesCookies(config))
    && (config.ldap.Some? && config.ldap.value.ca != "" ==> HoldsCertificate(k.pem(config.ldap.value.ca)))
    && (config.saml.Some? ==> k.keyPair(config.saml.value.cert, config.saml.value.key))
  }

  /** The rule ends up with an authentication document. */
  predicate Authenticates(k: Checks, grpc: bool, spec: RuleSpec) {
    !spec.broken && spec.auth.Some? && AuthValid(k, spec.auth.value) && !(grpc && UsesCookies(spec.auth.value))
  }

  /** The rule is marked to fail closed. */
  predicate Marked(k: Checks, grpc: bool, spec: RuleSpec) {
    spec.broken || (spec.auth.Some? && !Authenticates(k, grpc, spec))
  }

  function Document(spec: RuleSpec): AuthConfig
    requires spec.auth.Some?
  {
    spec.auth.value.(identity := spec.identity)
  }

  method ValidateAuth(k: Checks, config: AuthConfig) returns (valid: bool)
    ensures valid <==> AuthValid(k, config)
    ensures valid <==>
      && (config.jwt || config.oidc || config.saml.Some? || config.ldap.Some?)
      && (config.saml.Some? ==> k.keyPair(config.saml.value.cert, config.saml.value.key))
      && (config.ldap.Some? && config.ldap.value.ca != "" ==>
            exists b | b in k.pem(config.ldap.value.ca) :: b.kind == "CERTIFICATE" && b.parses)
  {
    if config.ldap.Some? {
      HoldsByBlock(k.pem(config.ldap.value.ca));
    }
    var providers := 0;
    if config.oidc {
      providers := providers + 1;
    }
    if config.saml.Some? {
      providers := providers + 1;
      if !k.keyPair(config.saml.value.cert, config.saml.value.key) {
        return false;
      }
    }
    if config.ldap.Some? {
      providers := providers + 1;
      if config.ldap.value.ca != "" {
        valid := ValidCaPem(k.pem(config.ldap.value.ca));
        if !valid {
          return;
        }
      }
    }
    if config.jwt {
      providers := providers + 1;
    }
    valid := providers != 0;
  }

  /** The authentication branch of `compileExtensions`: the document is stored and named by the
      rule in one go, or the rule is marked. */
  method CompileExtensions(k: Checks, encode: AuthConfig -> string, grpc: bool, spec: RuleSpec, docs: map<string, string>)
    returns (auth: string, invalid: bool, more: map<string, string>)
    ensures auth == if Authenticates(k, grpc, spec) then spec.identity else ""
    ensures invalid <==> Marked(k, grpc, spec)
    ensures invalid <==>
      spec.broken || (spec.auth.Some? && (!AuthValid(k, spec.auth.value) ||
        (grpc && (spec.auth.value.oidc || spec.auth.value.saml.Some? || spec.auth.value.ldap.Some?))))
    ensures !invalid && spec.auth.Some? ==> auth == spec.identity
    ensures more == if Authenticates(k, grpc, spec) then docs[spec.identity := encode(Document(spec))] else docs
  {
    auth, invalid, more := "", false, docs;
    if spec.broken {
      return "", true, docs;
    }
    if spec.auth.Some? {
      var config := spec.auth.value;
      var valid := ValidateAuth(k, config);
      if !valid {
        return "", true, docs;
      }
      if grpc && (config.oidc || config.saml.Some? || config.ldap.Some?) {
        return "", true, docs;
      }
      config := config.(identity := spec.identity);
      more := docs[config.identity := encode(config)];
      auth := config.identity;
    }
  }

  // ------------------------------------------------------------------ rules --

  function RuleOf(k: Checks, grpc: bool, spec: RuleSpec): Rule {
    Rule(spec.matches, spec.backends, if Authenticates(k, grpc, spec) then spec.identity else "", Marked(k, grpc, spec))
  }

  function RulesOf(k: Checks, grpc: bool, specs: seq<RuleSpec>): seq<Rule> {
    seq(|specs|, i requires 0 <= i < |specs| => RuleOf(k, grpc, specs[i]))
  }

  function DocsOf(k: Checks, encode: AuthConfig -> string, grpc: bool, specs: seq<RuleSpec>): map<string, string> {
    if specs == [] then map[]
    else
      var n := |specs| - 1;
      var before := DocsOf(k, encode, grpc, specs[..n]);
      if Authenticates(k, grpc, specs[n]) then before[specs[n].identity := encode(Document(specs[n]))] else before
  }

  method CompileRules(k: Checks, encode: AuthConfig -> string, grpc: bool, specs: seq<RuleSpec>)
    returns (rules: seq<Rule>, docs: map<string, string>)
    ensures rules == RulesOf(k, grpc, specs) && docs == DocsOf(k, encode, grpc, specs)
  {
    rules, docs := [], map[];
    for i := 0 to |specs|
      invariant rules == RulesOf(k, grpc, specs[..i]) && docs == DocsOf(k, encode, grpc, specs[..i])
    {
      assert specs[..i + 1][..i] == specs[..i];
      var auth, invalid, more := CompileExtensions(k, encode, grpc, specs[i], docs);
      docs := more;
      rules := rules + [Rule(specs[i].matches, specs[i].backends, auth, invalid)];
    }
    assert specs[..|specs|] == specs;
  }

  // -------------------------------------------------------------- listeners --

  predicate Takes(listeners: seq<ListenerState>, i: nat) {
    i < |listeners| && listeners[i].Valid()
  }

  /** The effective names of the valid ones among the admitting listeners. */
  function Names(listeners: seq<ListenerState>, admitted: seq<nat>): seq<string> {
    if admitted == [] then []
    else
      var n := |admitted| - 1;
      Names(listeners, admitted[..n]) + if Takes(listeners, admitted[n]) then [EffectiveName(listeners[admitted[n]])] else []
  }

  method NameListeners(listeners: seq<ListenerState>, admitted: seq<nat>) returns (names: seq<string>)
    requires forall i | 0 <= i < |admitted| :: admitted[i] < |listeners|
    ensures names == Names(listeners, admitted)
  {
    names := [];
    for i := 0 to |admitted|
      invariant names == Names(listeners, admitted[..i])
    {
      assert admitted[..i + 1][..i] == admitted[..i];
      if listeners[admitted[i]].Valid() {
        names := names + [EffectiveName(listeners[admitted[i]])];
      }
    }
    assert admitted[..|admitted|] == admitted;
  }

  /** `compileRoute`, and the other kinds of route alike. */
  function Attach(k: Checks, encode: AuthConfig -> string, listeners: seq<ListenerState>, spec: RouteSpec): RouteOutcome {
    RouteOutcome(
      if spec.unsupported then None
      else Some(RouteConfig(spec.uid, spec.namespace, spec.name, Names(listeners, spec.admitted), spec.hostnames, spec.created,
                            spec.grpc, RulesOf(k, spec.grpc, spec.rules))),
      DocsOf(k, encode, spec.grpc, spec.rules))
  }

  function AttachAll(k: Checks, encode: AuthConfig -> string, listeners: seq<ListenerState>, specs: seq<RouteSpec>): seq<RouteOutcome> {
    seq(|specs|, i requires 0 <= i < |specs| => Attach(k, encode, listeners, specs[i]))
  }

  // ------------------------------------------------- what it establishes --

  /** A rule that names an identity comes with a document under it, and every stored document is
      that of an authenticating rule with that identity. */
  lemma {:induction false} DocsAreStored(k: Checks, encode: AuthConfig -> string, grpc: bool, specs: seq<RuleSpec>, i: nat)
    requires i < |specs| && Authenticates(k, grpc, specs[i])
    ensures specs[i].identity in DocsOf(k, encode, grpc, specs)
  {
    var n := |specs| - 1;
    if i < n {
      DocsAreStored(k, encode, grpc, specs[..n], i);
    }
  }

  lemma {:induction false} DocsAreRules(k: Checks, encode: AuthConfig -> string, grpc: bool, specs: seq<RuleSpec>, identity: string)
    returns (i: nat)
    requires identity in DocsOf(k, encode, grpc, specs)
    ensures i < |specs| && Authenticates(k, grpc, specs[i]) && specs[i].identity == identity
    ensures DocsOf(k, encode, grpc, specs)[identity] == encode(Document(specs[i]))
  {
    var n := |specs| - 1;
    if Authenticates(k, grpc, specs[n]) && specs[n].identity == identity {
      i := n;
    } else {
      i := DocsAreRules(k, encode, grpc, specs[..n], identity);
    }
  }

  lemma {:induction false} NamesCome(listeners: seq<ListenerState>, admitted: seq<nat>, name: string) returns (x: nat)
    requires name in Names(listeners, admitted)
    ensures x < |admitted| && Takes(listeners, admitted[x]) && EffectiveName(listeners[admitted[x]]) == name
  {
    var n := |admitted| - 1;
    if name in Names(listeners, admitted[..n]) {
      x := NamesCome(listeners, admitted[..n], name);
    } else {
      x := n;
    }
  }

  lemma {:induction false} NamesGo(listeners: seq<ListenerState>, admitted: seq<nat>, x: nat)
    requires x < |admitted| && Takes(listeners, admitted[x])
    ensures EffectiveName(listeners[admitted[x]]) in Names(listeners, admitted)
  {
    var n := |admitted| - 1;
    if x < n {
      NamesGo(listeners, admitted[..n], x);
    }
  }
}

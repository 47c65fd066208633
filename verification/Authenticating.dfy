/** Authentication documents across the planes: every rule that needs one finds it, and exactly
    which rules fail closed on the data plane. */
module Authenticating {
  import opened Strings
  import opened Compiled
  import opened Building
  import opened Certificates
  import opened Loading
  import opened Validating
  import opened Attaching
  import opened Compiling
  import Agreement
  import Ownership

  // --------------------------------------------- the document is found --

  /** The document of an attached rule, under its identity. */
  ghost predicate Supplies(k: Checks, listeners: seq<ListenerState>, spec: RouteSpec, x: nat, identity: string) {
    && !spec.unsupported && Names(listeners, spec.admitted) != []
    && x < |spec.rules| && Authenticates(k, spec.grpc, spec.rules[x]) && spec.rules[x].identity == identity
  }

  /** A key of the Secret holds what the last attachment with a document for it stored. */
  lemma {:induction false} LastDocument(base: SecretData, outcomes: seq<RouteOutcome>, i: nat, id: string) returns (o: nat)
    requires i < |outcomes| && Attaches(outcomes[i]) && id in outcomes[i].authDocs
    ensures o < |outcomes| && Attaches(outcomes[o]) && id in outcomes[o].authDocs
    ensures AuthKey(id) in AuthMaterial(base, outcomes)
    ensures AuthMaterial(base, outcomes)[AuthKey(id)] == outcomes[o].authDocs[id]
  {
    var n := |outcomes| - 1;
    var before, docs := AuthMaterial(base, outcomes[..n]), outcomes[n].authDocs;
    if Attaches(outcomes[n]) && id in docs {
      o := n;
      DocsRead(before, docs, id);
    } else {
      o := LastDocument(base, outcomes[..n], i, id);
      DocsRead(before, docs, id);
    }
  }

  lemma DocsRead(base: SecretData, docs: map<string, string>, id: string)
    ensures id in docs ==> AuthKey(id) in WithDocs(base, docs) && WithDocs(base, docs)[AuthKey(id)] == docs[id]
    ensures id !in docs && AuthKey(id) in base ==>
      AuthKey(id) in WithDocs(base, docs) && WithDocs(base, docs)[AuthKey(id)] == base[AuthKey(id)]
  {
    KeyedReads(docs, id);
  }

  lemma {:induction false} RouteHasOutcome(outcomes: seq<RouteOutcome>, uid: string) returns (i: nat)
    requires uid in Routes(outcomes)
    ensures i < |outcomes| && Attaches(outcomes[i]) && outcomes[i].config.value.uid == uid
    ensures Routes(outcomes)[uid] == outcomes[i].config.value.(listeners := Routes(outcomes)[uid].listeners)
  {
    var n := |outcomes| - 1;
    if uid in Routes(outcomes[..n]) {
      i := RouteHasOutcome(outcomes[..n], uid);
    } else {
      i := n;
    }
  }

  /** The specification a published route was compiled from. */
  lemma RouteHasSpec(k: Checks, encode: AuthConfig -> string, inputs: Inputs, specs: seq<RouteSpec>, uid: string) returns (s: nat)
    requires CompiledFrom(k, encode, inputs, specs) && uid in ContentOf(inputs).routes
    ensures s < |specs| && specs[s].uid == uid && !specs[s].unsupported && Names(inputs.listeners, specs[s].admitted) != []
    ensures
      var route, spec := ContentOf(inputs).routes[uid], specs[s];
      && route.uid == uid && route.namespace == spec.namespace && route.name == spec.name && route.hostnames == spec.hostnames
      && route.created == spec.created && route.grpc == spec.grpc && route.rules == RulesOf(k, spec.grpc, spec.rules)
  {
    s := RouteHasOutcome(inputs.outcomes, uid);
  }

  /** The document stored under an attached rule's identity is that of an attached rule with that
      identity. */
  lemma DocumentIsFound(k: Checks, encode: AuthConfig -> string, inputs: Inputs, specs: seq<RouteSpec>, s: nat, x: nat)
    returns (s': nat, x': nat)
    requires CompiledFrom(k, encode, inputs, specs)
    requires s < |specs| && x < |specs[s].rules| && Supplies(k, inputs.listeners, specs[s], x, specs[s].rules[x].identity)
    ensures
      var id := specs[s].rules[x].identity;
      && s' < |specs| && Supplies(k, inputs.listeners, specs[s'], x', id)
      && AuthKey(id) in ContentOf(inputs).secret
      && ContentOf(inputs).secret[AuthKey(id)] == encode(Document(specs[s'].rules[x']))
  {
    var id := specs[s].rules[x].identity;
    DocsAreStored(k, encode, specs[s].grpc, specs[s].rules, x);
    s' := LastDocument(Material(ClientMaterial(inputs.clientCert), inputs.listeners), inputs.outcomes, s, id);
    x' := DocsAreRules(k, encode, specs[s'].grpc, specs[s'].rules, id);
  }

  lemma {:induction false} NoOtherDocument(base: SecretData, outcomes: seq<RouteOutcome>, id: string) returns (o: nat)
    requires AuthKey(id) in AuthMaterial(base, outcomes) && AuthKey(id) !in base
    ensures o < |outcomes| && Attaches(outcomes[o]) && id in outcomes[o].authDocs
  {
    var n := |outcomes| - 1;
    KeyedReads(outcomes[n].authDocs, id);
    if Attaches(outcomes[n]) && id in outcomes[n].authDocs {
      o := n;
    } else {
      o := NoOtherDocument(base, outcomes[..n], id);
    }
  }

  lemma {:induction false} ListenersHoldNoDocument(k: Checks, base: SecretData, listeners: seq<ListenerState>, id: string)
    requires AuthKey(id) !in base && forall i | 0 <= i < |listeners| :: Servable(k, listeners[i])
    ensures AuthKey(id) !in Material(base, listeners)
  {
    if listeners != [] {
      var n := |listeners| - 1;
      ListenersHoldNoDocument(k, base, listeners[..n], id);
      Agreement.ServableKeys(k, listeners[n], id);
    }
  }

  /** The Secret holds no document but those of rules attached to a valid listener. */
  lemma DocumentHasRule(k: Checks, encode: AuthConfig -> string, inputs: Inputs, specs: seq<RouteSpec>, id: string) returns (s: nat, x: nat)
    requires CompiledFrom(k, encode, inputs, specs) && Agreement.Checked(k, inputs) && AuthKey(id) in ContentOf(inputs).secret
    ensures s < |specs| && Supplies(k, inputs.listeners, specs[s], x, id)
  {
    var base := ClientMaterial(inputs.clientCert);
    Agreement.ClientKeysAreListenerKeys();
    KeysAreApart("_backend-client", id);
    ListenersHoldNoDocument(k, base, inputs.listeners, id);
    s := NoOtherDocument(Material(base, inputs.listeners), inputs.outcomes, id);
    x := DocsAreRules(k, encode, specs[s].grpc, specs[s].rules, id);
  }

  // ------------------------------------------- which rules fail closed --

  /** A published rule fails closed exactly when it is marked or the document stored under its
      identity does not hydrate: a document there always is. */
  lemma FailsClosedExactly(k: Checks, encode: AuthConfig -> string, inputs: Inputs, specs: seq<RouteSpec>, uid: string, r: nat)
    requires CompiledFrom(k, encode, inputs, specs)
    requires uid in ContentOf(inputs).routes && r < |ContentOf(inputs).routes[uid].rules|
    ensures
      var content := ContentOf(inputs);
      var rule := content.routes[uid].rules[r];
      && (rule.auth != "" ==> AuthKey(rule.auth) in content.secret)
      && (FailsClosed(k, rule, SecretOf(content)) <==>
          rule.extensionsInvalid || (rule.auth != "" && !Hydrates(k, content.secret[AuthKey(rule.auth)])))
  {
    var rule := ContentOf(inputs).routes[uid].rules[r];
    var s := RouteHasSpec(k, encode, inputs, specs, uid);
    if rule.auth != "" {
      var s', x' := DocumentIsFound(k, encode, inputs, specs, s, r);
    }
  }

  /** Documents survive the JSON round trip. */
  ghost predicate Decodes(k: Checks, encode: AuthConfig -> string) {
    forall config :: k.auth(encode(config)) == Some(config)
  }

  /** Identities are made from the list of Secrets: none is empty, and rules with the same Secrets
      have the same documents. */
  ghost predicate Identified(specs: seq<RouteSpec>) {
    && (forall s, x | 0 <= s < |specs| && 0 <= x < |specs[s].rules| :: specs[s].rules[x].auth.Some? ==> specs[s].rules[x].identity != "")
    && (forall s, x, s', x' | 0 <= s < |specs| && 0 <= x < |specs[s].rules| && 0 <= s' < |specs| && 0 <= x' < |specs[s'].rules| ::
          SameSecrets(specs[s].rules[x], specs[s'].rules[x']))
  }

  predicate SameSecrets(a: RuleSpec, b: RuleSpec) {
    a.identity == b.identity && a.auth.Some? && b.auth.Some? ==> a.auth == b.auth
  }

  lemma SpecFailsClosedExactly(k: Checks, encode: AuthConfig -> string, inputs: Inputs, specs: seq<RouteSpec>, uid: string, s: nat, r: nat)
    requires CompiledFrom(k, encode, inputs, specs) && Decodes(k, encode) && Identified(specs)
    requires uid in ContentOf(inputs).routes && s < |specs| && r < |specs[s].rules|
    requires !specs[s].unsupported && Names(inputs.listeners, specs[s].admitted) != []
    requires ContentOf(inputs).routes[uid].rules == RulesOf(k, specs[s].grpc, specs[s].rules)
    ensures
      var content, spec := ContentOf(inputs), specs[s].rules[r];
      FailsClosed(k, content.routes[uid].rules[r], SecretOf(content)) <==>
      Marked(k, specs[s].grpc, spec) || (Authenticates(k, specs[s].grpc, spec) && Unbuildable(k, spec.auth.value))
  {
    FailsClosedExactly(k, encode, inputs, specs, uid, r);
    var spec := specs[s].rules[r];
    if Authenticates(k, specs[s].grpc, spec) {
      var s', x' := DocumentIsFound(k, encode, inputs, specs, s, r);
      var spec' := specs[s'].rules[x'];
      assert SameSecrets(spec, spec');
      assert Document(spec') == Document(spec);
      assert k.auth(encode(Document(spec))) == Some(Document(spec));
      BuildableExactly(k, Document(spec));
    }
  }

  /** A rule as specified fails closed exactly when the control plane marks it, or accepts an
      authentication document whose LDAP bundle has no certificate block without headers or whose
      inline SAML metadata does not parse. */
  lemma RuleFailsClosedExactly(k: Checks, encode: AuthConfig -> string, inputs: Inputs, specs: seq<RouteSpec>, uid: string, r: nat)
    returns (s: nat)
    requires CompiledFrom(k, encode, inputs, specs) && Decodes(k, encode) && Identified(specs)
    requires uid in ContentOf(inputs).routes && r < |ContentOf(inputs).routes[uid].rules|
    ensures s < |specs| && specs[s].uid == uid && r < |specs[s].rules|
    ensures
      var content, spec := ContentOf(inputs), specs[s].rules[r];
      && content.routes[uid].rules[r] == RuleOf(k, specs[s].grpc, spec)
      && (FailsClosed(k, content.routes[uid].rules[r], SecretOf(content)) <==>
          Marked(k, specs[s].grpc, spec) || (Authenticates(k, specs[s].grpc, spec) && Unbuildable(k, spec.auth.value)))
  {
    s := RouteHasSpec(k, encode, inputs, specs, uid);
    SpecFailsClosedExactly(k, encode, inputs, specs, uid, s, r);
  }

  /** What validation lets through and hydration refuses. */
  predicate Unbuildable(k: Checks, config: AuthConfig) {
    || (config.ldap.Some? && config.ldap.value.ca != "" && OnlyHeadered(k.pem(config.ldap.value.ca)))
    || (config.saml.Some? && config.saml.value.metadata != "" && !k.metadata(config.saml.value.metadata))
  }

  predicate OnlyHeadered(blocks: seq<PemBlock>) {
    forall i | 0 <= i < |blocks| && IsCertificate(blocks[i]) :: blocks[i].headers
  }

  lemma BuildableExactly(k: Checks, config: AuthConfig)
    requires AuthValid(k, config)
    ensures ProvidersBuild(k, config) <==> !Unbuildable(k, config)
  {
  }

  // ------------------------------------------------- a failing document --

  function SamlRule(metadata: string): RuleSpec {
    RuleSpec([], [], false, Some(AuthConfig("", false, false, None, Some(Saml("cert", "key", metadata)), "")), "id")
  }

  function OneRule(k: Checks, encode: AuthConfig -> string, rule: RuleSpec): (Inputs, seq<RouteSpec>) {
    var listeners := [Ownership.ListenerState(Ownership.OfGateway, "web", 80, "HTTP", "", false, true, false, Ownership.Accepted, true,
                                              10000, map[], "")];
    var specs := [RouteSpec("route", "ns", "name", [], 0, false, false, [0], [rule])];
    (Inputs("uid", "ns", "name", Infra([], {}), listeners, AttachAll(k, encode, listeners, specs), ClientCert(true, None)), specs)
  }

  /** Inline metadata that is no metadata: the control plane accepts the rule, and it fails closed
      on every pod. */
  lemma UnparsedMetadataFailsClosed(k: Checks, encode: AuthConfig -> string, metadata: string)
    requires Decodes(k, encode) && k.keyPair("cert", "key") && metadata != "" && !k.metadata(metadata)
    ensures
      var content := ContentOf(OneRule(k, encode, SamlRule(metadata)).0);
      && "route" in content.routes && |content.routes["route"].rules| == 1
      && !content.routes["route"].rules[0].extensionsInvalid
      && FailsClosed(k, content.routes["route"].rules[0], SecretOf(content))
  {
    var rule := SamlRule(metadata);
    var (inputs, specs) := OneRule(k, encode, rule);
    OneRuleIsServed(k, encode, rule);
    assert Authenticates(k, false, rule) && Unbuildable(k, rule.auth.value);
    var s := RuleFailsClosedExactly(k, encode, inputs, specs, "route", 0);
  }

  lemma OneRuleIsServed(k: Checks, encode: AuthConfig -> string, rule: RuleSpec)
    ensures
      var (inputs, specs) := OneRule(k, encode, rule);
      var content := ContentOf(inputs);
      && CompiledFrom(k, encode, inputs, specs)
      && "route" in content.routes && content.routes["route"].rules == [RuleOf(k, false, rule)]
  {
    var (inputs, specs) := OneRule(k, encode, rule);
    var outcomes := inputs.outcomes;
    assert Takes(inputs.listeners, 0);
    NamesGo(inputs.listeners, specs[0].admitted, 0);
    assert Attaches(outcomes[0]);
    assert outcomes[..0] == [];
    assert Routes(outcomes) == map[][outcomes[0].config.value.uid := outcomes[0].config.value];
  }
}

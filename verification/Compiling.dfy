/** What one publication compiles from validated listeners and attached routes. */
module Compiling {
  import opened Strings
  import opened Compiled
  import opened Building
  import opened Validating
  import opened Attaching

  // ----------------------------------------------------------- compilation --

  /** Gateway-wide inputs of a publication. */
  datatype Infra = Infra(trustedProxies: seq<string>, proxyProtocol: set<string>)

  /** The backend client certificate: resolved, with a key pair when one is configured. */
  datatype ClientCert = ClientCert(resolved: bool, pair: Option<KeyPair>)
  datatype KeyPair = KeyPair(cert: string, key: string)

  function Entry(infra: Infra, l: ListenerState): Listener {
    Listener(EffectiveName(l), l.port, l.internalPort, l.protocol, l.hostname, HasTls(l), l.clientCaMode,
             l.parent.OfGateway? && l.name in infra.proxyProtocol)
  }

  function Entries(infra: Infra, listeners: seq<ListenerState>): seq<Listener> {
    if listeners == [] then []
    else
      var n := |listeners| - 1;
      Entries(infra, listeners[..n]) + if listeners[n].Valid() then [Entry(infra, listeners[n])] else []
  }

  function ClientMaterial(cert: ClientCert): SecretData {
    if cert.resolved && cert.pair.Some? then
      map[BackendClientCertKey := cert.pair.value.cert, BackendClientKeyKey := cert.pair.value.key]
    else map[]
  }

  function Material(base: SecretData, listeners: seq<ListenerState>): SecretData {
    if listeners == [] then base
    else
      var n := |listeners| - 1;
      Material(base, listeners[..n]) + if listeners[n].Valid() then listeners[n].material else map[]
  }

  predicate Attaches(o: RouteOutcome) {
    o.config.Some? && o.config.value.listeners != []
  }

  /** The identity in an authentication key. */
  function Identity(key: string): string {
    if |key| >= 10 then key[5..|key| - 5] else ""
  }

  function AuthKeys(docs: map<string, string>): set<string> {
    set id | id in docs :: AuthKey(id)
  }

  /** Documents under the keys of the generated Secret. */
  function Keyed(docs: map<string, string>): SecretData {
    map key | key in AuthKeys(docs) && Identity(key) in docs :: docs[Identity(key)]
  }

  function WithDocs(base: SecretData, docs: map<string, string>): SecretData {
    base + Keyed(docs)
  }

  lemma IdentityReads(id: string)
    ensures Identity(AuthKey(id)) == id
  {
  }

  lemma KeyedAt(docs: map<string, string>, key: string)
    ensures key in Keyed(docs) <==> Identity(key) in docs && key == AuthKey(Identity(key))
    ensures key in Keyed(docs) ==> Keyed(docs)[key] == docs[Identity(key)]
  {
    if key in AuthKeys(docs) {
      var id :| id in docs && key == AuthKey(id);
      IdentityReads(id);
    }
  }

  lemma KeyedReads(docs: map<string, string>, id: string)
    ensures AuthKey(id) in Keyed(docs) <==> id in docs
    ensures id in docs ==> Keyed(docs)[AuthKey(id)] == docs[id]
  {
    IdentityReads(id);
    KeyedAt(docs, AuthKey(id));
  }

  lemma KeyedGrows(docs: map<string, string>, id: string, payload: string)
    ensures Keyed(docs[id := payload]) == Keyed(docs)[AuthKey(id) := payload]
  {
    IdentityReads(id);
    var a, b := Keyed(docs[id := payload]), Keyed(docs)[AuthKey(id) := payload];
    forall key
      ensures key in a <==> key in b
      ensures key in a ==> a[key] == b[key]
    {
      KeyedAt(docs, key);
      KeyedAt(docs[id := payload], key);
    }
  }

  lemma JoinUpdates(base: SecretData, more: SecretData, key: string, value: string)
    ensures base + more[key := value] == (base + more)[key := value]
  {
  }

  function AuthMaterial(base: SecretData, outcomes: seq<RouteOutcome>): SecretData {
    if outcomes == [] then base
    else
      var n := |outcomes| - 1;
      var before := AuthMaterial(base, outcomes[..n]);
      if Attaches(outcomes[n]) then WithDocs(before, outcomes[n].authDocs) else before
  }

  function Union(names: seq<string>, more: seq<string>): seq<string> {
    if more == [] then names
    else
      var n := |more| - 1;
      var before := Union(names, more[..n]);
      if more[n] in before then before else before + [more[n]]
  }

  /** One payload per route: the listener sets of its attachments are merged. */
  function Routes(outcomes: seq<RouteOutcome>): map<string, RouteConfig> {
    if outcomes == [] then map[]
    else
      var n := |outcomes| - 1;
      var before := Routes(outcomes[..n]);
      if !Attaches(outcomes[n]) then before
      else
        var config := outcomes[n].config.value;
        if config.uid !in before then before[config.uid := config]
        else before[config.uid := before[config.uid].(listeners := Union(before[config.uid].listeners, config.listeners))]
  }

  datatype Inputs = Inputs(
    uid: string,
    namespace: string,
    name: string,
    infra: Infra,
    listeners: seq<ListenerState>,
    outcomes: seq<RouteOutcome>,
    clientCert: ClientCert)

  function ContentOf(inputs: Inputs): Content {
    Content(
      GatewayConfig(inputs.uid, inputs.namespace, inputs.name, Entries(inputs.infra, inputs.listeners),
                    inputs.clientCert.resolved && inputs.clientCert.pair.Some?, inputs.infra.trustedProxies),
      Routes(inputs.outcomes),
      AuthMaterial(Material(ClientMaterial(inputs.clientCert), inputs.listeners), inputs.outcomes))
  }

  /** The routes compiled from these specifications. */
  ghost predicate CompiledFrom(k: Checks, encode: AuthConfig -> string, inputs: Inputs, specs: seq<RouteSpec>) {
    inputs.outcomes == AttachAll(k, encode, inputs.listeners, specs)
  }

  method CompileListeners(infra: Infra, listeners: seq<ListenerState>, base: SecretData)
    returns (entries: seq<Listener>, secretData: SecretData)
    ensures entries == Entries(infra, listeners) && secretData == Material(base, listeners)
  {
    entries, secretData := [], base;
    for i := 0 to |listeners|
      invariant entries == Entries(infra, listeners[..i]) && secretData == Material(base, listeners[..i])
    {
      assert listeners[..i + 1][..i] == listeners[..i];
      var l := listeners[i];
      if !l.Valid() {
        continue;
      }
      secretData := secretData + l.material;
      entries := entries + [Entry(infra, l)];
    }
    assert listeners[..|listeners|] == listeners;
  }

  method MergeListeners(existing: seq<string>, names: seq<string>) returns (merged: seq<string>)
    ensures merged == Union(existing, names)
  {
    merged := existing;
    for i := 0 to |names|
      invariant merged == Union(existing, names[..i])
    {
      assert names[..i + 1][..i] == names[..i];
      if names[i] !in merged {
        merged := merged + [names[i]];
      }
    }
    assert names[..|names|] == names;
  }

  /** The documents of one attachment, in whatever order the map is walked. */
  method StoreDocs(base: SecretData, docs: map<string, string>) returns (secretData: SecretData)
    ensures secretData == WithDocs(base, docs)
  {
    secretData := base;
    var rest := docs.Keys;
    assert Keyed(docs - rest) == map[];
    while rest != {}
      invariant rest <= docs.Keys && secretData == WithDocs(base, docs - rest)
    {
      var id :| id in rest;
      StoreStep(base, docs, rest, id);
      rest := rest - {id};
      secretData := secretData[AuthKey(id) := docs[id]];
    }
    assert docs - {} == docs;
  }

  lemma StoreStep(base: SecretData, docs: map<string, string>, rest: set<string>, id: string)
    requires rest <= docs.Keys && id in rest
    ensures WithDocs(base, docs - (rest - {id})) == WithDocs(base, docs - rest)[AuthKey(id) := docs[id]]
  {
    var seen := docs - rest;
    assert docs - (rest - {id}) == seen[id := docs[id]];
    KeyedGrows(seen, id, docs[id]);
    JoinUpdates(base, Keyed(seen), AuthKey(id), docs[id]);
  }

  method CompileRoutes(outcomes: seq<RouteOutcome>, base: SecretData) returns (routes: map<string, RouteConfig>, secretData: SecretData)
    ensures routes == Routes(outcomes) && secretData == AuthMaterial(base, outcomes)
  {
    routes, secretData := map[], base;
    for i := 0 to |outcomes|
      invariant routes == Routes(outcomes[..i]) && secretData == AuthMaterial(base, outcomes[..i])
    {
      assert outcomes[..i + 1][..i] == outcomes[..i];
      var outcome := outcomes[i];
      if outcome.config.None? || |outcome.config.value.listeners| == 0 {
        continue;
      }
      secretData := StoreDocs(secretData, outcome.authDocs);
      var config := outcome.config.value;
      if config.uid !in routes {
        routes := routes[config.uid := config];
        continue;
      }
      var merged := MergeListeners(routes[config.uid].listeners, config.listeners);
      routes := routes[config.uid := routes[config.uid].(listeners := merged)];
    }
    assert outcomes[..|outcomes|] == outcomes;
  }

  /** The compiling half of `publishGeneration`. */
  method Compile(inputs: Inputs) returns (content: Content)
    ensures content == ContentOf(inputs)
  {
    var secretData: SecretData := map[];
    var clientCert := inputs.clientCert;
    var backendClientCert := false;
    if clientCert.resolved && clientCert.pair.Some? {
      backendClientCert := true;
      secretData := secretData[BackendClientCertKey := clientCert.pair.value.cert];
      secretData := secretData[BackendClientKeyKey := clientCert.pair.value.key];
    }
    assert secretData == ClientMaterial(clientCert);
    var entries, withListeners := CompileListeners(inputs.infra, inputs.listeners, secretData);
    var routes, withAuth := CompileRoutes(inputs.outcomes, withListeners);
    content := Content(
      GatewayConfig(inputs.uid, inputs.namespace, inputs.name, entries, backendClientCert, inputs.infra.trustedProxies),
      routes, withAuth);
  }
}

/** From verified payloads to the tables a pod serves. */
module Building {
  import opened Strings
  import opened Compiled
  import opened Matching
  import opened Certificates
  import opened Indices
  import Balancing
  import Ownership

  /** The libraries a build depends on: X.509 key pairs, PEM decoding, network prefixes, SAML
      metadata, and the JSON of authentication documents. */
  datatype Checks = Checks(
    keyPair: (string, string) -> bool,
    pem: string -> seq<PemBlock>,
    proxies: seq<string> -> bool,
    metadata: string -> bool,
    auth: string -> Option<AuthConfig>)

  /** The directory and SAML parts of an authentication document, as far as hydrating it can fail:
      an LDAP bundle and inline metadata are empty when there are none. */
  datatype AuthConfig = AuthConfig(
    identity: string,
    jwt: bool,
    oidc: bool,
    ldap: Option<Ldap>,
    saml: Option<Saml>,
    rest: string)

  datatype Ldap = Ldap(ca: string)
  datatype Saml = Saml(cert: string, key: string, metadata: string)

  /** `NewLDAPProvider`, `NewSAMLProvider`: the two providers whose construction can fail. */
  predicate ProvidersBuild(k: Checks, config: AuthConfig) {
    && (config.ldap.Some? && config.ldap.value.ca != "" ==> LoadsCertificate(k.pem(config.ldap.value.ca)))
    && (config.saml.Some? ==>
          && k.keyPair(config.saml.value.cert, config.saml.value.key)
          && (config.saml.value.metadata != "" ==> k.metadata(config.saml.value.metadata)))
  }

  /** A document decodes and its enforcer can be built. */
  predicate Hydrates(k: Checks, payload: string) {
    k.auth(payload).Some? && ProvidersBuild(k, k.auth(payload).value)
  }

  datatype GatewayTable = GatewayTable(generation: Generation, byPort: map<int, PortTable>)

  const BackendClientCertKey := "_backend-client.tls.crt"
  const BackendClientKeyKey := "_backend-client.tls.key"

  function CertKey(listener: string): string { listener + ".tls.crt" }
  function KeyKey(listener: string): string { listener + ".tls.key" }
  function ClientCaKey(listener: string): string { listener + ".client-ca.crt" }
  function AuthKey(identity: string): string { "auth-" + identity + ".json" }

  /** A map read in Go: nothing is the empty text. */
  function Read(data: SecretData, key: string): string {
    if key in data then data[key] else ""
  }

  // -------------------------------------------------------------- checks --

  predicate ListenerAdmitted(k: Checks, l: Listener, secret: Option<SecretData>) {
    && (l.hasTls ==> secret.Some? && k.keyPair(Read(secret.value, CertKey(l.name)), Read(secret.value, KeyKey(l.name))))
    && (l.clientCaMode != "" ==> secret.Some? && LoadsCertificate(k.pem(Read(secret.value, ClientCaKey(l.name)))))
  }

  predicate Admitted(k: Checks, gateway: GatewayConfig, secret: Option<SecretData>) {
    && k.proxies(gateway.trustedProxies)
    && (forall i | 0 <= i < |gateway.listeners| :: ListenerAdmitted(k, gateway.listeners[i], secret))
    && (gateway.backendClientCert && secret.Some? ==>
          k.keyPair(Read(secret.value, BackendClientCertKey), Read(secret.value, BackendClientKeyKey)))
  }

  /** A rule answers 500 when its extensions are broken or its authentication document is
      missing or does not hydrate. */
  predicate FailsClosed(k: Checks, rule: Rule, secret: Option<SecretData>) {
    rule.extensionsInvalid ||
    (rule.auth != "" &&
     !(secret.Some? && AuthKey(rule.auth) in secret.value && Hydrates(k, secret.value[AuthKey(rule.auth)])))
  }

  // ---------------------------------------------------------------- rules --

  function RuleTableOf(k: Checks, grpc: bool, rule: Rule, secret: Option<SecretData>): RuleTable {
    var backends := Balancing.Kept(rule.backends);
    RuleTable(rule.matches, grpc, backends, Balancing.Total(backends), FailsClosed(k, rule, secret))
  }

  function RouteTableOf(k: Checks, route: RouteConfig, secret: Option<SecretData>): RouteTable {
    RouteTable(route.namespace, route.name, route.hostnames, route.created,
               seq(|route.rules|, i requires 0 <= i < |route.rules| => RuleTableOf(k, route.grpc, route.rules[i], secret)))
  }

  // ------------------------------------------------------------ listeners --

  function Copies(table: RouteTable, names: seq<string>, name: string): seq<RouteTable> {
    if names == [] then []
    else
      var n := |names| - 1;
      Copies(table, names[..n], name) + if names[n] == name then [table] else []
  }

  /** The routes attached to a listener name, in the order of the route list. */
  function Attached(k: Checks, routes: seq<RouteConfig>, secret: Option<SecretData>, name: string): seq<RouteTable> {
    if routes == [] then []
    else
      var n := |routes| - 1;
      Attached(k, routes[..n], secret, name) + Copies(RouteTableOf(k, routes[n], secret), routes[n].listeners, name)
  }

  /** The listener a name stands for among the first `n`: the last one that carries it. */
  function NameIndex(listeners: seq<Listener>, n: nat): map<string, nat>
    requires n <= |listeners|
  {
    if n == 0 then map[] else NameIndex(listeners, n - 1)[listeners[n - 1].name := n - 1]
  }

  lemma {:induction false} NameIndexFinds(listeners: seq<Listener>, n: nat, name: string)
    requires n <= |listeners| && name in NameIndex(listeners, n)
    ensures NameIndex(listeners, n)[name] < n && listeners[NameIndex(listeners, n)[name]].name == name
  {
    if listeners[n - 1].name != name {
      NameIndexFinds(listeners, n - 1, name);
    }
  }

  /** The listeners of each internal port among the first `n`, in declaration order. */
  function PortIndex(listeners: seq<Listener>, n: nat): (ports: map<int, seq<nat>>)
    requires n <= |listeners|
    ensures forall port, i | port in ports && 0 <= i < |ports[port]| :: ports[port][i] < n
  {
    if n == 0 then map[]
    else
      var ports := PortIndex(listeners, n - 1);
      var port := listeners[n - 1].internalPort;
      ports[port := (if port in ports then ports[port] else []) + [n - 1]]
  }

  predicate Indexed(byName: map<string, nat>, listeners: seq<Listener>, i: nat)
    requires i < |listeners|
  {
    listeners[i].name in byName && byName[listeners[i].name] == i
  }

  function RoutesOf(k: Checks, listeners: seq<Listener>, routes: seq<RouteConfig>, secret: Option<SecretData>, i: nat): seq<RouteTable>
    requires i < |listeners|
  {
    if Indexed(NameIndex(listeners, |listeners|), listeners, i) then Attached(k, routes, secret, listeners[i].name) else []
  }

  function ListenerTables(k: Checks, listeners: seq<Listener>, routes: seq<RouteConfig>, secret: Option<SecretData>): seq<ListenerTable> {
    seq(|listeners|, i requires 0 <= i < |listeners| =>
      ListenerTable(listeners[i].name, listeners[i].hostname, listeners[i].hasTls, RoutesOf(k, listeners, routes, secret, i)))
  }

  function Select(tables: seq<ListenerTable>, indices: seq<nat>): seq<ListenerTable>
    requires forall i | 0 <= i < |indices| :: indices[i] < |tables|
  {
    seq(|indices|, i requires 0 <= i < |indices| => tables[indices[i]])
  }

  function OfClass(tables: seq<ListenerTable>, specificity: int): seq<ListenerTable> {
    if tables == [] then []
    else
      var n := |tables| - 1;
      OfClass(tables[..n], specificity) + if Ownership.Specificity(tables[n].hostname) == specificity then [tables[n]] else []
  }

  /** The stable sort by hostname specificity: exact names, then wildcards, then no name. */
  function BySpecificity(tables: seq<ListenerTable>): seq<ListenerTable> {
    OfClass(tables, 2) + OfClass(tables, 1) + OfClass(tables, 0)
  }

  function PortTables(uid: string, tables: seq<ListenerTable>, ports: map<int, seq<nat>>): map<int, PortTable>
    requires forall port, i | port in ports && 0 <= i < |ports[port]| :: ports[port][i] < |tables|
  {
    map port | port in ports :: PortTable(uid, BySpecificity(Select(tables, ports[port])))
  }

  function TableOf(k: Checks, generation: Generation, gateway: GatewayConfig, routes: seq<RouteConfig>, secret: Option<SecretData>): GatewayTable {
    var tables := ListenerTables(k, gateway.listeners, routes, secret);
    GatewayTable(generation, PortTables(gateway.uid, tables, PortIndex(gateway.listeners, |gateway.listeners|)))
  }

  function Built(k: Checks, generation: Generation, gateway: GatewayConfig, routes: seq<RouteConfig>, secret: Option<SecretData>):
    Option<GatewayTable>
  {
    if Admitted(k, gateway, secret) then Some(TableOf(k, generation, gateway, routes, secret)) else None
  }

  // ------------------------------------------------------------ the build --

  method CheckListener(k: Checks, l: Listener, secret: Option<SecretData>) returns (ok: bool)
    ensures ok == ListenerAdmitted(k, l, secret)
  {
    if l.hasTls {
      if secret.None? {
        return false;
      }
      if !k.keyPair(Read(secret.value, CertKey(l.name)), Read(secret.value, KeyKey(l.name))) {
        return false;
      }
    }
    if l.clientCaMode != "" {
      if secret.None? {
        return false;
      }
      if !LoadsCertificate(k.pem(Read(secret.value, ClientCaKey(l.name)))) {
        return false;
      }
    }
    ok := true;
  }

  /** The listener loop of `BuildGatewayTable`. Listener tables are shared between the port
      lists and the name index, so both hold positions in the listener list. */
  method IndexListeners(k: Checks, listeners: seq<Listener>, secret: Option<SecretData>)
    returns (ok: bool, byName: map<string, nat>, ports: map<int, seq<nat>>)
    ensures ok <==> forall i | 0 <= i < |listeners| :: ListenerAdmitted(k, listeners[i], secret)
    ensures ok ==> byName == NameIndex(listeners, |listeners|) && ports == PortIndex(listeners, |listeners|)
  {
    byName, ports := map[], map[];
    for i := 0 to |listeners|
      invariant forall j | 0 <= j < i :: ListenerAdmitted(k, listeners[j], secret)
      invariant byName == NameIndex(listeners, i) && ports == PortIndex(listeners, i)
    {
      ok := CheckListener(k, listeners[i], secret);
      if !ok {
        return;
      }
      assert NameIndex(listeners, i + 1) == NameIndex(listeners, i)[listeners[i].name := i];
      var port := listeners[i].internalPort;
      ports := ports[port := (if port in ports then ports[port] else []) + [i]];
      byName := byName[listeners[i].name := i];
    }
    ok := true;
  }

  /** One route joins the listeners it names. */
  method AttachRoute(listeners: seq<Listener>, byName: map<string, nat>, table: RouteTable, names: seq<string>, before: seq<seq<RouteTable>>)
    returns (attached: seq<seq<RouteTable>>)
    requires byName == NameIndex(listeners, |listeners|) && |before| == |listeners|
    ensures |attached| == |listeners|
    ensures forall i | 0 <= i < |listeners| ::
      attached[i] == before[i] + if Indexed(byName, listeners, i) then Copies(table, names, listeners[i].name) else []
  {
    attached := before;
    for n := 0 to |names|
      invariant |attached| == |listeners|
      invariant forall i | 0 <= i < |listeners| ::
        attached[i] == before[i] + if Indexed(byName, listeners, i) then Copies(table, names[..n], listeners[i].name) else []
    {
      assert names[..n + 1][..n] == names[..n];
      if names[n] in byName {
        NameIndexFinds(listeners, |listeners|, names[n]);
        var i := byName[names[n]];
        attached := attached[i := attached[i] + [table]];
      }
    }
    assert names[..|names|] == names;
  }

  /** The attachment loop of `BuildGatewayTable`. */
  method AttachRoutes(k: Checks, listeners: seq<Listener>, byName: map<string, nat>, routes: seq<RouteConfig>, secret: Option<SecretData>)
    returns (attached: seq<seq<RouteTable>>)
    requires byName == NameIndex(listeners, |listeners|)
    ensures |attached| == |listeners|
    ensures forall i | 0 <= i < |listeners| :: attached[i] == RoutesOf(k, listeners, routes, secret, i)
  {
    attached := seq(|listeners|, i => []);
    for r := 0 to |routes|
      invariant |attached| == |listeners|
      invariant forall i | 0 <= i < |listeners| :: attached[i] == RoutesOf(k, listeners, routes[..r], secret, i)
    {
      assert routes[..r + 1][..r] == routes[..r];
      attached := AttachRoute(listeners, byName, RouteTableOf(k, routes[r], secret), routes[r].listeners, attached);
    }
    assert routes[..|routes|] == routes;
  }

  /** `BuildGatewayTable`. Adoption of the previous table's transports is not modelled. */
  method BuildGatewayTable(k: Checks, generation: Generation, gateway: GatewayConfig, routes: seq<RouteConfig>, secret: Option<SecretData>)
    returns (table: Option<GatewayTable>)
    ensures table == Built(k, generation, gateway, routes, secret)
  {
    if !k.proxies(gateway.trustedProxies) {
      return None;
    }
    var listeners := gateway.listeners;
    var ok, byName, ports := IndexListeners(k, listeners, secret);
    if !ok {
      return None;
    }
    if gateway.backendClientCert && secret.Some? {
      if !k.keyPair(Read(secret.value, BackendClientCertKey), Read(secret.value, BackendClientKeyKey)) {
        return None;
      }
    }
    var attached := AttachRoutes(k, listeners, byName, routes, secret);
    var tables := seq(|listeners|, i requires 0 <= i < |listeners| =>
      ListenerTable(listeners[i].name, listeners[i].hostname, listeners[i].hasTls, attached[i]));
    assert tables == ListenerTables(k, listeners, routes, secret);
    table := Some(GatewayTable(generation, PortTables(gateway.uid, tables, ports)));
  }

  // ------------------------------------------------------------ what is refused --

  predicate HasPair(k: Checks, secret: Option<SecretData>, cert: string, key: string) {
    && secret.Some?
    && k.keyPair(if cert in secret.value then secret.value[cert] else "", if key in secret.value then secret.value[key] else "")
  }

  /** A build is refused exactly when a trusted proxy is no network, a listener with TLS has no key
      pair under its name, one with client validation no bundle with a certificate block that parses
      and has no headers, or a backend client certificate comes with a Secret that holds no pair for
      it. */
  lemma RefusalHasCause(k: Checks, generation: Generation, gateway: GatewayConfig, routes: seq<RouteConfig>, secret: Option<SecretData>)
    ensures Built(k, generation, gateway, routes, secret).None? <==>
      || !k.proxies(gateway.trustedProxies)
      || (exists l | l in gateway.listeners :: l.hasTls && !HasPair(k, secret, l.name + ".tls.crt", l.name + ".tls.key"))
      || (exists l | l in gateway.listeners :: l.clientCaMode != "" &&
            !(secret.Some? &&
              exists b | b in k.pem(if l.name + ".client-ca.crt" in secret.value then secret.value[l.name + ".client-ca.crt"] else "") ::
                b.kind == "CERTIFICATE" && b.parses && !b.headers))
      || (gateway.backendClientCert && secret.Some? && !HasPair(k, secret, "_backend-client.tls.crt", "_backend-client.tls.key"))
  {
    forall l | l in gateway.listeners
      ensures ListenerAdmitted(k, l, secret) <==>
        && (l.hasTls ==> HasPair(k, secret, l.name + ".tls.crt", l.name + ".tls.key"))
        && (l.clientCaMode != "" ==>
              secret.Some? &&
              exists b | b in k.pem(if l.name + ".client-ca.crt" in secret.value then secret.value[l.name + ".client-ca.crt"] else "") ::
                b.kind == "CERTIFICATE" && b.parses && !b.headers)
    {
      if secret.Some? {
        LoadsByBlock(k.pem(Read(secret.value, ClientCaKey(l.name))));
      }
    }
  }

  lemma LoadsByBlock(blocks: seq<PemBlock>)
    ensures LoadsCertificate(blocks) <==> exists b | b in blocks :: b.kind == "CERTIFICATE" && b.parses && !b.headers
  {
    if b :| b in blocks && b.kind == "CERTIFICATE" && b.parses && !b.headers {
      var i :| 0 <= i < |blocks| && blocks[i] == b;
    }
  }

  /** A document hydrates exactly when it decodes, its LDAP bundle, if it has one, has a certificate
      block that parses and has no headers, and its SAML part, if it has one, a key pair and inline
      metadata, if any, that parses. */
  lemma HydrationIsExact(k: Checks, payload: string)
    ensures Hydrates(k, payload) <==>
      match k.auth(payload)
      case None => false
      case Some(config) =>
        && (config.ldap.Some? && config.ldap.value.ca != "" ==>
              exists b | b in k.pem(config.ldap.value.ca) :: b.kind == "CERTIFICATE" && b.parses && !b.headers)
        && (config.saml.Some? ==>
              && k.keyPair(config.saml.value.cert, config.saml.value.key)
              && (config.saml.value.metadata == "" || k.metadata(config.saml.value.metadata)))
  {
    if k.auth(payload).Some? && k.auth(payload).value.ldap.Some? {
      LoadsByBlock(k.pem(k.auth(payload).value.ldap.value.ca));
    }
  }

  /** A rule that names a document fails closed when the document is missing as when it does not
      hydrate. */
  lemma MissingDocumentFailsClosed(k: Checks, rule: Rule, secret: Option<SecretData>)
    requires rule.auth != ""
    requires secret.None? || "auth-" + rule.auth + ".json" !in secret.value || !Hydrates(k, secret.value["auth-" + rule.auth + ".json"])
    ensures FailsClosed(k, rule, secret)
  {
  }

  // ------------------------------------------------------------- the sort --

  lemma {:induction false} OfClassKeeps(tables: seq<ListenerTable>, c: int)
    ensures forall i | 0 <= i < |OfClass(tables, c)| ::
      OfClass(tables, c)[i] in tables && Ownership.Specificity(OfClass(tables, c)[i].hostname) == c
  {
    if tables != [] {
      OfClassKeeps(tables[..|tables| - 1], c);
    }
  }

  lemma {:induction false} OfClassJoins(a: seq<ListenerTable>, b: seq<ListenerTable>, c: int)
    ensures OfClass(a + b, c) == OfClass(a, c) + OfClass(b, c)
  {
    if b == [] {
      assert a + b == a;
    } else {
      var n := |b| - 1;
      assert (a + b)[..|a + b| - 1] == a + b[..n];
      OfClassJoins(a, b[..n], c);
    }
  }

  lemma {:induction false} OfClassFilters(tables: seq<ListenerTable>, c: int)
    requires forall i | 0 <= i < |tables| :: Ownership.Specificity(tables[i].hostname) == c
    ensures OfClass(tables, c) == tables
    ensures forall d | d != c :: OfClass(tables, d) == []
  {
    if tables != [] {
      OfClassFilters(tables[..|tables| - 1], c);
    }
  }

  lemma {:induction false} SortIsPermutation(tables: seq<ListenerTable>)
    ensures multiset(BySpecificity(tables)) == multiset(tables)
  {
    if tables != [] {
      var n := |tables| - 1;
      SortIsPermutation(tables[..n]);
      assert tables == tables[..n] + [tables[n]];
    }
  }

  lemma SortIsSorted(tables: seq<ListenerTable>)
    ensures Ownership.SortedBySpecificity(BySpecificity(tables))
  {
    OfClassKeeps(tables, 2);
    OfClassKeeps(tables, 1);
    OfClassKeeps(tables, 0);
  }

  /** The sort is stable: within one specificity the declaration order stays. */
  lemma SortIsStable(tables: seq<ListenerTable>, c: int)
    requires 0 <= c <= 2
    ensures OfClass(BySpecificity(tables), c) == OfClass(tables, c)
  {
    var exact, wild, any := OfClass(tables, 2), OfClass(tables, 1), OfClass(tables, 0);
    OfClassJoins(exact + wild, any, c);
    OfClassJoins(exact, wild, c);
    OfClassTwice(tables, 2, c);
    OfClassTwice(tables, 1, c);
    OfClassTwice(tables, 0, c);
  }

  lemma OfClassTwice(tables: seq<ListenerTable>, d: int, c: int)
    ensures OfClass(OfClass(tables, d), c) == if c == d then OfClass(tables, c) else []
  {
    OfClassKeeps(tables, d);
    OfClassFilters(OfClass(tables, d), d);
  }

  // --------------------------------------------------- the listeners of a port --

  /** All the listeners of an internal port among the first `n`, in declaration order. */
  ghost predicate AreOnPort(listeners: seq<Listener>, n: nat, port: int, indices: seq<nat>)
    requires n <= |listeners|
  {
    Ascending(indices) && forall i: nat :: i in indices <==> i < n && listeners[i].internalPort == port
  }

  lemma {:induction false} PortIndexIsComplete(listeners: seq<Listener>, n: nat, port: int)
    requires n <= |listeners|
    ensures AreOnPort(listeners, n, port, if port in PortIndex(listeners, n) then PortIndex(listeners, n)[port] else [])
    ensures port in PortIndex(listeners, n) ==> PortIndex(listeners, n)[port] != []
  {
    if n > 0 {
      PortIndexIsComplete(listeners, n - 1, port);
    }
  }

  /** A built table has a port exactly when some listener has it as its internal port. The port then
      holds the tables of exactly those listeners, the more specific hostnames first and those of
      one kind as declared. */
  lemma PortHoldsItsListeners(k: Checks, generation: Generation, gateway: GatewayConfig, routes: seq<RouteConfig>,
                              secret: Option<SecretData>, port: int, indices: seq<nat>)
    requires AreOnPort(gateway.listeners, |gateway.listeners|, port, indices)
    ensures
      var byPort := TableOf(k, generation, gateway, routes, secret).byPort;
      && (port in byPort <==> indices != [])
      && (port in byPort ==>
            && (forall x | 0 <= x < |indices| :: indices[x] < |gateway.listeners|)
            && var tables := Select(ListenerTables(k, gateway.listeners, routes, secret), indices);
            && byPort[port].gatewayUid == gateway.uid
            && multiset(byPort[port].listeners) == multiset(tables)
            && Ownership.SortedBySpecificity(byPort[port].listeners)
            && forall c | 0 <= c <= 2 :: OfClass(byPort[port].listeners, c) == OfClass(tables, c))
  {
    var listeners := gateway.listeners;
    var ports := PortIndex(listeners, |listeners|);
    var found := if port in ports then ports[port] else [];
    PortIndexIsComplete(listeners, |listeners|, port);
    AscendingIsUnique(found, indices);
    if port in ports {
      var tables := Select(ListenerTables(k, listeners, routes, secret), indices);
      SortIsPermutation(tables);
      SortIsSorted(tables);
      forall c | 0 <= c <= 2
        ensures OfClass(BySpecificity(tables), c) == OfClass(tables, c)
      {
        SortIsStable(tables, c);
      }
    }
  }

  // ------------------------------------------------------ attached routes --

  lemma {:induction false} CopiesHave(table: RouteTable, names: seq<string>, name: string)
    ensures name in names ==> table in Copies(table, names, name)
    ensures forall x | x in Copies(table, names, name) :: x == table && name in names
  {
    if names != [] {
      var n := |names| - 1;
      CopiesHave(table, names[..n], name);
      assert names == names[..n] + [names[n]];
    }
  }

  /** A route list holds a table exactly when it is that of a route naming the listener. */
  lemma {:induction false} AttachedHas(k: Checks, routes: seq<RouteConfig>, secret: Option<SecretData>, name: string, x: RouteTable)
    ensures x in Attached(k, routes, secret, name) <==>
            exists r | 0 <= r < |routes| :: name in routes[r].listeners && x == RouteTableOf(k, routes[r], secret)
  {
    if routes != [] {
      var n := |routes| - 1;
      AttachedHas(k, routes[..n], secret, name, x);
      CopiesHave(RouteTableOf(k, routes[n], secret), routes[n].listeners, name);
      if r :| 0 <= r < n && name in routes[r].listeners && x == RouteTableOf(k, routes[r], secret) {
        assert name in routes[..n][r].listeners && x == RouteTableOf(k, routes[..n][r], secret);
      }
      if r :| 0 <= r < n && name in routes[..n][r].listeners && x == RouteTableOf(k, routes[..n][r], secret) {
        assert name in routes[r].listeners && x == RouteTableOf(k, routes[r], secret);
      }
    }
  }

  // -------------------------------------------------- the order of routes --

  lemma {:induction false} AttachedJoins(k: Checks, a: seq<RouteConfig>, b: seq<RouteConfig>, secret: Option<SecretData>, name: string)
    ensures Attached(k, a + b, secret, name) == Attached(k, a, secret, name) + Attached(k, b, secret, name)
  {
    if b == [] {
      assert a + b == a;
    } else {
      var n := |b| - 1;
      assert (a + b)[..|a + b| - 1] == a + b[..n];
      AttachedJoins(k, a, b[..n], secret, name);
    }
  }

  lemma AttachedMovesLast(k: Checks, a: seq<RouteConfig>, r: RouteConfig, b: seq<RouteConfig>, secret: Option<SecretData>, name: string)
    ensures multiset(Attached(k, a + [r] + b, secret, name)) ==
            multiset(Attached(k, a + b, secret, name)) + multiset(Attached(k, [r], secret, name))
  {
    AttachedJoins(k, a + [r], b, secret, name);
    AttachedJoins(k, a, [r], secret, name);
    AttachedJoins(k, a, b, secret, name);
  }

  /** The last element of a list, found in a permutation of it. */
  lemma Extract<T>(a: seq<T>, b: seq<T>) returns (c: seq<T>, d: seq<T>)
    requires a != [] && multiset(a) == multiset(b)
    ensures b == c + [a[|a| - 1]] + d
    ensures multiset(a[..|a| - 1]) == multiset(c + d)
  {
    var n := |a| - 1;
    var front, x := a[..n], a[n];
    assert a == front + [x];
    assert x in multiset(b);
    var i :| 0 <= i < |b| && b[i] == x;
    c, d := b[..i], b[i + 1..];
    assert b == c + [x] + d;
    assert multiset(front) == multiset(a) - multiset{x};
    assert multiset(c + d) == multiset(b) - multiset{x};
  }

  lemma {:induction false} AttachedIgnoresOrder(k: Checks, routes: seq<RouteConfig>, routes': seq<RouteConfig>, secret: Option<SecretData>, name: string)
    requires multiset(routes) == multiset(routes')
    ensures multiset(Attached(k, routes, secret, name)) == multiset(Attached(k, routes', secret, name))
  {
    if routes == [] {
      assert |multiset(routes')| == 0;
    } else {
      var n := |routes| - 1;
      var front, r := routes[..n], routes[n];
      assert routes == front + [r];
      var a, b := Extract(routes, routes');
      AttachedIgnoresOrder(k, front, a + b, secret, name);
      AttachedMovesLast(k, a, r, b, secret, name);
      AttachedJoins(k, front, [r], secret, name);
    }
  }

  ghost predicate SameListener(a: ListenerTable, b: ListenerTable) {
    a.hostname == b.hostname && multiset(a.routes) == multiset(b.routes)
  }

  /** Two listener lists that differ only in the order of each listener's routes. */
  ghost predicate Alike(a: seq<ListenerTable>, b: seq<ListenerTable>) {
    |a| == |b| && forall i | 0 <= i < |a| :: SameListener(a[i], b[i])
  }

  lemma AlikeJoins(a: seq<ListenerTable>, b: seq<ListenerTable>, c: seq<ListenerTable>, d: seq<ListenerTable>)
    requires Alike(a, b) && Alike(c, d)
    ensures Alike(a + c, b + d)
  {
  }

  lemma {:induction false} OfClassKeepsAlike(a: seq<ListenerTable>, b: seq<ListenerTable>, c: int)
    requires Alike(a, b)
    ensures Alike(OfClass(a, c), OfClass(b, c))
  {
    if a != [] {
      var n := |a| - 1;
      var x, y := OfClass(a[..n], c), OfClass(b[..n], c);
      assert Alike(x, y) by { OfClassKeepsAlike(a[..n], b[..n], c); }
      assert SameListener(a[n], b[n]);
      if Ownership.Specificity(a[n].hostname) == c {
        AlikeJoins(x, y, [a[n]], [b[n]]);
      }
    }
  }

  lemma SortKeepsAlike(a: seq<ListenerTable>, b: seq<ListenerTable>)
    requires Alike(a, b)
    ensures Alike(BySpecificity(a), BySpecificity(b))
  {
    OfClassKeepsAlike(a, b, 2);
    OfClassKeepsAlike(a, b, 1);
    OfClassKeepsAlike(a, b, 0);
    AlikeJoins(OfClass(a, 2), OfClass(b, 2), OfClass(a, 1), OfClass(b, 1));
    AlikeJoins(OfClass(a, 2) + OfClass(a, 1), OfClass(b, 2) + OfClass(b, 1), OfClass(a, 0), OfClass(b, 0));
  }

  /** The order in which a manifest lists the attachments changes nothing but the order of
      routes inside each listener. */
  lemma RouteOrderOnlyPermutes(k: Checks, generation: Generation, gateway: GatewayConfig,
                               routes: seq<RouteConfig>, routes': seq<RouteConfig>, secret: Option<SecretData>, port: int)
    requires multiset(routes) == multiset(routes')
    ensures
      var t, t' := TableOf(k, generation, gateway, routes, secret), TableOf(k, generation, gateway, routes', secret);
      && (port in t.byPort <==> port in t'.byPort)
      && (port in t.byPort ==> SameUpToRouteOrder(t.byPort[port], t'.byPort[port]))
  {
    var listeners := gateway.listeners;
    var ports := PortIndex(listeners, |listeners|);
    var a, b := ListenerTables(k, listeners, routes, secret), ListenerTables(k, listeners, routes', secret);
    if port in ports {
      forall i | 0 <= i < |listeners|
        ensures SameListener(a[i], b[i])
      {
        AttachedIgnoresOrder(k, routes, routes', secret, listeners[i].name);
      }
      var x, y := Select(a, ports[port]), Select(b, ports[port]);
      SortKeepsAlike(x, y);
      assert forall i | 0 <= i < |BySpecificity(x)| :: SameListener(BySpecificity(x)[i], BySpecificity(y)[i]);
    }
  }
}

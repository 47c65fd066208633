/** The two planes agree, and where they do not, exactly when: which compiled generations pass the
    checks of the data plane, and which listeners find their own certificates there. */
module Agreement {
  import opened Strings
  import opened Compiled
  import opened Building
  import opened Certificates
  import opened Loading
  import opened Publishing
  import opened Validating
  import opened Attaching
  import opened Compiling
  import Ownership

  // ---------------------------------------------------------- certificates --

  predicate SoundAt(k: Checks, data: SecretData, n: string) {
    && (CertKey(n) in data <==> KeyKey(n) in data)
    && (CertKey(n) in data ==> k.keyPair(data[CertKey(n)], data[KeyKey(n)]))
  }

  /** In the generated Secret every certificate has the key it pairs with. */
  ghost predicate SoundMaterial(k: Checks, data: SecretData) {
    forall n :: SoundAt(k, data, n)
  }

  ghost predicate SoundClientCert(k: Checks, cert: ClientCert) {
    cert.pair.Some? ==> k.keyPair(cert.pair.value.cert, cert.pair.value.key)
  }

  lemma ClientKeysAreListenerKeys()
    ensures BackendClientCertKey == CertKey("_backend-client")
    ensures BackendClientKeyKey == KeyKey("_backend-client")
  {
  }

  lemma ClientMaterialIsSound(k: Checks, cert: ClientCert)
    requires SoundClientCert(k, cert)
    ensures SoundMaterial(k, ClientMaterial(cert))
    ensures forall n :: ClientCaKey(n) !in ClientMaterial(cert)
  {
    ClientKeysAreListenerKeys();
    var data := ClientMaterial(cert);
    forall n
      ensures SoundAt(k, data, n) && ClientCaKey(n) !in data
    {
      KeysAreApart(n, "_backend-client");
      KeysAreApart("_backend-client", n);
      KeysNameListeners(n, "_backend-client");
    }
  }

  lemma ServableKeys(k: Checks, l: ListenerState, n: string)
    requires Servable(k, l)
    ensures CertKey(n) in l.material <==> n == EffectiveName(l) && CertKey(EffectiveName(l)) in l.material
    ensures KeyKey(n) in l.material <==> n == EffectiveName(l) && CertKey(EffectiveName(l)) in l.material
    ensures ClientCaKey(n) in l.material <==> n == EffectiveName(l) && ClientCaKey(EffectiveName(l)) in l.material
    ensures AuthKey(n) !in l.material
  {
    var name := EffectiveName(l);
    KeysAreApart(n, name);
    KeysAreApart(name, n);
    KeysNameListeners(n, name);
  }

  lemma ListenerKeepsSound(k: Checks, data: SecretData, l: ListenerState, n: string)
    requires SoundAt(k, data, n) && Servable(k, l)
    ensures SoundAt(k, data + l.material, n)
  {
    ServableKeys(k, l, n);
  }

  lemma {:induction false} MaterialIsSound(k: Checks, base: SecretData, listeners: seq<ListenerState>, n: string)
    requires SoundAt(k, base, n)
    requires forall i | 0 <= i < |listeners| :: Servable(k, listeners[i])
    ensures SoundAt(k, Material(base, listeners), n)
  {
    if listeners != [] {
      var last := |listeners| - 1;
      var before, l := Material(base, listeners[..last]), listeners[last];
      MaterialIsSound(k, base, listeners[..last], n);
      if l.Valid() {
        ListenerKeepsSound(k, before, l, n);
      } else {
        assert Material(base, listeners) == before;
      }
    }
  }

  /** The authentication documents leave every other key alone. */
  lemma DocsKeepKey(base: SecretData, docs: map<string, string>, key: string)
    requires forall id :: key != AuthKey(id)
    ensures key in WithDocs(base, docs) <==> key in base
    ensures key in base ==> WithDocs(base, docs)[key] == base[key]
  {
    KeyedAt(docs, key);
  }

  lemma {:induction false} AuthKeepsKey(base: SecretData, outcomes: seq<RouteOutcome>, key: string)
    requires forall id :: key != AuthKey(id)
    ensures key in AuthMaterial(base, outcomes) <==> key in base
    ensures key in base ==> AuthMaterial(base, outcomes)[key] == base[key]
  {
    if outcomes != [] {
      var n := |outcomes| - 1;
      AuthKeepsKey(base, outcomes[..n], key);
      DocsKeepKey(AuthMaterial(base, outcomes[..n]), outcomes[n].authDocs, key);
    }
  }

  lemma ListenerKeysStay(base: SecretData, outcomes: seq<RouteOutcome>, n: string)
    ensures
      var data := AuthMaterial(base, outcomes);
      forall key | key in {CertKey(n), KeyKey(n), ClientCaKey(n)} :: (key in data <==> key in base) && (key in base ==> data[key] == base[key])
  {
    forall id
      ensures CertKey(n) != AuthKey(id) && KeyKey(n) != AuthKey(id) && ClientCaKey(n) != AuthKey(id)
    {
      KeysAreApart(n, id);
    }
    AuthKeepsKey(base, outcomes, CertKey(n));
    AuthKeepsKey(base, outcomes, KeyKey(n));
    AuthKeepsKey(base, outcomes, ClientCaKey(n));
  }

  lemma AuthKeepsSound(k: Checks, base: SecretData, outcomes: seq<RouteOutcome>)
    requires SoundMaterial(k, base)
    ensures SoundMaterial(k, AuthMaterial(base, outcomes))
  {
    var data := AuthMaterial(base, outcomes);
    forall n
      ensures SoundAt(k, data, n)
    {
      assert SoundAt(k, base, n);
      ListenerKeysStay(base, outcomes, n);
    }
  }

  // ----------------------------------------------------------- admission --

  lemma {:induction false} MaterialGrows(base: SecretData, listeners: seq<ListenerState>, i: nat, key: string)
    requires i < |listeners| && listeners[i].Valid() && key in listeners[i].material
    ensures key in Material(base, listeners)
  {
    var n := |listeners| - 1;
    if i < n {
      MaterialGrows(base, listeners[..n], i, key);
    }
  }

  lemma {:induction false} EntryHasListener(infra: Infra, listeners: seq<ListenerState>, e: nat) returns (i: nat)
    requires e < |Entries(infra, listeners)|
    ensures i < |listeners| && listeners[i].Valid() && Entries(infra, listeners)[e] == Entry(infra, listeners[i])
  {
    var n := |listeners| - 1;
    if e < |Entries(infra, listeners[..n])| {
      i := EntryHasListener(infra, listeners[..n], e);
    } else {
      i := n;
    }
  }

  /** What the control plane established before publishing. */
  ghost predicate Checked(k: Checks, inputs: Inputs) {
    && k.proxies(inputs.infra.trustedProxies)
    && SoundClientCert(k, inputs.clientCert)
    && (forall i | 0 <= i < |inputs.listeners| :: Servable(k, inputs.listeners[i]))
  }

  /** The listener's client CA bundle is the one under its key: no later valid listener of the same
      effective name has one. */
  predicate ServesBundle(listeners: seq<ListenerState>, i: nat) {
    && i < |listeners| && listeners[i].Valid() && listeners[i].clientCaMode != ""
    && forall j | i < j < |listeners| && listeners[j].Valid() && EffectiveName(listeners[j]) == EffectiveName(listeners[i]) ::
         listeners[j].clientCaMode == ""
  }

  /** Every served client CA bundle has a certificate block without headers. */
  ghost predicate BundlesLoad(k: Checks, listeners: seq<ListenerState>) {
    forall i: nat | ServesBundle(listeners, i) ::
      LoadsCertificate(k.pem(Read(listeners[i].material, ClientCaKey(EffectiveName(listeners[i])))))
  }

  /** The valid listener whose value a key ends up with. */
  lemma {:induction false} LastWriter(base: SecretData, listeners: seq<ListenerState>, key: string) returns (i: nat)
    requires key in Material(base, listeners) && key !in base
    ensures i < |listeners| && listeners[i].Valid() && key in listeners[i].material
    ensures Material(base, listeners)[key] == listeners[i].material[key]
    ensures forall j | i < j < |listeners| && listeners[j].Valid() :: key !in listeners[j].material
  {
    var n := |listeners| - 1;
    if listeners[n].Valid() && key in listeners[n].material {
      i := n;
    } else {
      i := LastWriter(base, listeners[..n], key);
    }
  }

  lemma {:induction false} LastWriterIsLast(base: SecretData, listeners: seq<ListenerState>, i: nat, key: string)
    requires i < |listeners| && listeners[i].Valid() && key in listeners[i].material
    requires forall j | i < j < |listeners| && listeners[j].Valid() :: key !in listeners[j].material
    ensures key in Material(base, listeners) && Material(base, listeners)[key] == listeners[i].material[key]
  {
    var n := |listeners| - 1;
    if i < n {
      LastWriterIsLast(base, listeners[..n], i, key);
    }
  }

  lemma ClientCaOnlyFromNamed(k: Checks, l: ListenerState, name: string)
    requires Servable(k, l)
    ensures ClientCaKey(name) in l.material <==> EffectiveName(l) == name && l.clientCaMode != ""
  {
    ServableKeys(k, l, name);
  }

  /** A served bundle reaches the Secret as it is. */
  lemma ServedBundleIsRead(k: Checks, inputs: Inputs, i: nat)
    requires Checked(k, inputs) && ServesBundle(inputs.listeners, i)
    ensures
      var key := ClientCaKey(EffectiveName(inputs.listeners[i]));
      && key in inputs.listeners[i].material && key in ContentOf(inputs).secret
      && ContentOf(inputs).secret[key] == inputs.listeners[i].material[key]
  {
    var base := ClientMaterial(inputs.clientCert);
    var name := EffectiveName(inputs.listeners[i]);
    forall j | 0 <= j < |inputs.listeners|
      ensures ClientCaKey(name) in inputs.listeners[j].material <==>
              EffectiveName(inputs.listeners[j]) == name && inputs.listeners[j].clientCaMode != ""
    {
      ClientCaOnlyFromNamed(k, inputs.listeners[j], name);
    }
    LastWriterIsLast(base, inputs.listeners, i, ClientCaKey(name));
    ListenerKeysStay(Material(base, inputs.listeners), inputs.outcomes, name);
  }

  /** And every bundle in the Secret is a served one. */
  lemma BundleHasServer(k: Checks, inputs: Inputs, name: string) returns (i: nat)
    requires Checked(k, inputs) && ClientCaKey(name) in ContentOf(inputs).secret
    ensures ServesBundle(inputs.listeners, i) && EffectiveName(inputs.listeners[i]) == name
    ensures ClientCaKey(name) in inputs.listeners[i].material
    ensures ContentOf(inputs).secret[ClientCaKey(name)] == inputs.listeners[i].material[ClientCaKey(name)]
  {
    var base := ClientMaterial(inputs.clientCert);
    ClientMaterialIsSound(k, inputs.clientCert);
    ListenerKeysStay(Material(base, inputs.listeners), inputs.outcomes, name);
    i := LastWriter(base, inputs.listeners, ClientCaKey(name));
    forall j | 0 <= j < |inputs.listeners|
      ensures ClientCaKey(name) in inputs.listeners[j].material <==>
              EffectiveName(inputs.listeners[j]) == name && inputs.listeners[j].clientCaMode != ""
    {
      ClientCaOnlyFromNamed(k, inputs.listeners[j], name);
    }
  }

  lemma CompiledMaterialIsSound(k: Checks, inputs: Inputs)
    requires Checked(k, inputs)
    ensures SoundMaterial(k, ContentOf(inputs).secret)
  {
    var base := ClientMaterial(inputs.clientCert);
    ClientMaterialIsSound(k, inputs.clientCert);
    forall n
      ensures SoundAt(k, Material(base, inputs.listeners), n)
    {
      MaterialIsSound(k, base, inputs.listeners, n);
    }
    AuthKeepsSound(k, Material(base, inputs.listeners), inputs.outcomes);
  }

  /** One listener passes unless its client CA bundle does not load. */
  lemma EntryAdmission(k: Checks, inputs: Inputs, i: nat)
    requires Checked(k, inputs) && i < |inputs.listeners| && inputs.listeners[i].Valid()
    requires SoundMaterial(k, ContentOf(inputs).secret)
    ensures
      var l := inputs.listeners[i];
      ListenerAdmitted(k, Entry(inputs.infra, l), SecretOf(ContentOf(inputs))) <==>
      (l.clientCaMode != "" ==> LoadsCertificate(k.pem(Read(ContentOf(inputs).secret, ClientCaKey(EffectiveName(l))))))
  {
    var l := inputs.listeners[i];
    var base := ClientMaterial(inputs.clientCert);
    var name := EffectiveName(l);
    assert SoundAt(k, ContentOf(inputs).secret, name);
    ListenerKeysStay(Material(base, inputs.listeners), inputs.outcomes, name);
    if HasTls(l) {
      MaterialGrows(base, inputs.listeners, i, CertKey(name));
    }
    if l.clientCaMode != "" {
      MaterialGrows(base, inputs.listeners, i, ClientCaKey(name));
    }
  }

  lemma {:induction false} MaterialKeeps(base: SecretData, listeners: seq<ListenerState>, key: string)
    requires key in base
    ensures key in Material(base, listeners)
  {
    if listeners != [] {
      MaterialKeeps(base, listeners[..|listeners| - 1], key);
    }
  }

  lemma ClientCertIsAdmitted(k: Checks, inputs: Inputs)
    requires SoundMaterial(k, ContentOf(inputs).secret)
    ensures
      var content := ContentOf(inputs);
      content.gateway.backendClientCert && SecretOf(content).Some? ==>
        k.keyPair(Read(content.secret, BackendClientCertKey), Read(content.secret, BackendClientKeyKey))
  {
    ClientKeysAreListenerKeys();
    var content := ContentOf(inputs);
    assert SoundAt(k, content.secret, "_backend-client");
    if content.gateway.backendClientCert {
      var base := ClientMaterial(inputs.clientCert);
      MaterialKeeps(base, inputs.listeners, BackendClientCertKey);
      ListenerKeysStay(Material(base, inputs.listeners), inputs.outcomes, "_backend-client");
    }
  }

  /** A backend client certificate is announced exactly when one resolved, and is the one in the
      Secret unless a listener has its reserved name. */
  lemma ClientCertIsServed(k: Checks, inputs: Inputs)
    requires Checked(k, inputs)
    requires forall l | l in inputs.listeners :: EffectiveName(l) != "_backend-client"
    ensures
      var content, cert := ContentOf(inputs), inputs.clientCert;
      && (content.gateway.backendClientCert <==> cert.resolved && cert.pair.Some?)
      && (content.gateway.backendClientCert ==>
            && "_backend-client.tls.crt" in content.secret && content.secret["_backend-client.tls.crt"] == cert.pair.value.cert
            && "_backend-client.tls.key" in content.secret && content.secret["_backend-client.tls.key"] == cert.pair.value.key)
  {
    var base := ClientMaterial(inputs.clientCert);
    ClientKeysAreListenerKeys();
    if ContentOf(inputs).gateway.backendClientCert {
      OthersLeaveKey(k, base, inputs.listeners, "_backend-client");
      ListenerKeysStay(Material(base, inputs.listeners), inputs.outcomes, "_backend-client");
      KeysAreApart("_backend-client", "_backend-client");
    }
  }

  lemma {:induction false} OthersLeaveKey(k: Checks, base: SecretData, listeners: seq<ListenerState>, name: string)
    requires forall i | 0 <= i < |listeners| :: Servable(k, listeners[i]) && EffectiveName(listeners[i]) != name
    requires CertKey(name) in base && KeyKey(name) in base
    ensures
      var data := Material(base, listeners);
      && CertKey(name) in data && data[CertKey(name)] == base[CertKey(name)]
      && KeyKey(name) in data && data[KeyKey(name)] == base[KeyKey(name)]
  {
    if listeners != [] {
      var n := |listeners| - 1;
      OthersLeaveKey(k, base, listeners[..n], name);
      ServableKeys(k, listeners[n], name);
    }
  }

  /** A preamble is required of exactly the Gateway's own listeners that the parameter names, and the
      entry of a listener carries its name, ports, protocol, hostname and client validation. */
  lemma EntryCarries(infra: Infra, listeners: seq<ListenerState>, e: nat) returns (i: nat)
    requires e < |Entries(infra, listeners)|
    ensures
      var entry := Entries(infra, listeners)[e];
      && i < |listeners| && listeners[i].Valid()
      && var l := listeners[i];
      && entry.name == EffectiveName(l) && entry.port == l.port && entry.internalPort == l.internalPort && entry.protocol == l.protocol
      && entry.hostname == l.hostname && entry.clientCaMode == l.clientCaMode
      && (entry.hasTls <==> l.protocol == "HTTPS" || (l.protocol == "TLS" && l.terminates))
      && (entry.proxyProtocol <==> l.parent == Ownership.OfGateway && l.name in infra.proxyProtocol)
  {
    i := EntryHasListener(infra, listeners, e);
  }

  /** A listener's position among the compiled entries. */
  function Position(infra: Infra, listeners: seq<ListenerState>, i: nat): nat
    requires i < |listeners|
  {
    |Entries(infra, listeners[..i])|
  }

  lemma {:induction false} EntryIsAtPosition(infra: Infra, listeners: seq<ListenerState>, i: nat)
    requires i < |listeners| && listeners[i].Valid()
    ensures Position(infra, listeners, i) < |Entries(infra, listeners)|
    ensures Entries(infra, listeners)[Position(infra, listeners, i)] == Entry(infra, listeners[i])
  {
    var n := |listeners| - 1;
    if i < n {
      EntryIsAtPosition(infra, listeners[..n], i);
      assert listeners[..n][..i] == listeners[..i];
    }
  }

  /** A compiled generation passes the build's checks exactly when every served client CA bundle
      has a certificate block without headers; nothing else can go wrong, colliding names
      included. */
  lemma CompiledIsAdmittedExactly(k: Checks, inputs: Inputs)
    requires Checked(k, inputs)
    ensures Admitted(k, ContentOf(inputs).gateway, SecretOf(ContentOf(inputs))) <==> BundlesLoad(k, inputs.listeners)
  {
    var content := ContentOf(inputs);
    CompiledMaterialIsSound(k, inputs);
    ClientCertIsAdmitted(k, inputs);
    if BundlesLoad(k, inputs.listeners) {
      forall e | 0 <= e < |content.gateway.listeners|
        ensures ListenerAdmitted(k, content.gateway.listeners[e], SecretOf(content))
      {
        var i := EntryHasListener(inputs.infra, inputs.listeners, e);
        LoadingBundleAdmits(k, inputs, i);
      }
    }
    if Admitted(k, content.gateway, SecretOf(content)) {
      forall i: nat | ServesBundle(inputs.listeners, i)
        ensures LoadsCertificate(k.pem(Read(inputs.listeners[i].material, ClientCaKey(EffectiveName(inputs.listeners[i])))))
      {
        EntryIsAtPosition(inputs.infra, inputs.listeners, i);
        EntryAdmission(k, inputs, i);
        ServedBundleIsRead(k, inputs, i);
      }
    }
  }

  lemma LoadingBundleAdmits(k: Checks, inputs: Inputs, i: nat)
    requires Checked(k, inputs) && BundlesLoad(k, inputs.listeners) && SoundMaterial(k, ContentOf(inputs).secret)
    requires i < |inputs.listeners| && inputs.listeners[i].Valid()
    ensures ListenerAdmitted(k, Entry(inputs.infra, inputs.listeners[i]), SecretOf(ContentOf(inputs)))
  {
    EntryAdmission(k, inputs, i);
    if inputs.listeners[i].clientCaMode != "" {
      var name := EffectiveName(inputs.listeners[i]);
      var base := ClientMaterial(inputs.clientCert);
      ClientCaOnlyFromNamed(k, inputs.listeners[i], name);
      MaterialGrows(base, inputs.listeners, i, ClientCaKey(name));
      ListenerKeysStay(Material(base, inputs.listeners), inputs.outcomes, name);
      var j := BundleHasServer(k, inputs, name);
    }
  }

  /** End to end: over any store whose surviving objects of the generation are unaltered, what a
      publication leaves behind loads exactly under that condition. */
  lemma PublishedLoadsExactly(k: Checks, s: Store, inputs: Inputs, order: seq<string>)
    requires Checked(k, inputs) && IsOrder(ContentOf(inputs), order)
    requires WellLabelled(s.cms, s.secrets) && Unaltered(s, Objects(inputs.uid, ContentOf(inputs), order))
    ensures
      var s' := Published(s, inputs.uid, ContentOf(inputs), order);
      && ManifestOf(s', inputs.uid).Some?
      && var outcome := Load(k, ManifestOf(s', inputs.uid).value, s'.cms, s'.secrets);
      && (outcome.Loaded? <==> BundlesLoad(k, inputs.listeners))
      && (outcome.Loaded? ==> Some(outcome.table) == TableFor(k, ContentOf(inputs), order))
  {
    var content := ContentOf(inputs);
    var s' := Published(s, inputs.uid, content, order);
    RestorationIsExact(s, inputs.uid, content, order);
    CompiledIsAdmittedExactly(k, inputs);
    PublishingLabels(s, inputs.uid, content, order);
    CommitSetsManifest(EnsuredAll(s, Objects(inputs.uid, content, order)), ManifestFor(inputs.uid, content, order));
    var m := ManifestOf(s', inputs.uid).value;
    assert Authentic(inputs.uid, m, order);
    LoadIsWholeGeneration(k, inputs.uid, m, order, s'.cms, s'.secrets);
  }

  lemma {:induction false} EnsuringLabels(s: Store, refs: seq<ObjectRef>)
    requires WellLabelled(s.cms, s.secrets)
    ensures WellLabelled(EnsuredAll(s, refs).cms, EnsuredAll(s, refs).secrets)
  {
    if refs != [] {
      EnsuringLabels(s, refs[..|refs| - 1]);
    }
  }

  lemma PublishingLabels(s: Store, uid: string, content: Content, order: seq<string>)
    requires WellLabelled(s.cms, s.secrets) && IsOrder(content, order)
    ensures
      var s' := Published(s, uid, content, order);
      WellLabelled(s'.cms, s'.secrets)
  {
    EnsuringLabels(s, Objects(uid, content, order));
  }

  // ------------------------------------------------- a bundle that fails --

  /** A listener whose client CA ConfigMap holds `text`. */
  function GuardedSpec(text: string): Spec {
    Spec(Ownership.OfGateway, "web", 443, "HTTPS", "", "", true,
         [CertRef(true, true, Some(map["tls.crt" := "cert", "tls.key" := "key"]))],
         Some(Frontend([CaRef(true, true, Some(map["ca.crt" := text]))], "")))
  }

  function GuardedInputs(k: Checks, text: string): Inputs {
    Inputs("uid", "ns", "name", Infra([], {}), [Validated(k, GuardedSpec(text), Some(10000))], [], ClientCert(true, None))
  }

  /** The control plane accepts a bundle whose only certificate block carries headers, and every
      pod refuses the generation published with it. */
  lemma HeaderedBundleIsRefused(k: Checks, text: string)
    requires k.proxies([]) && k.keyPair("cert", "key") && k.pem(text + "\n") == [PemBlock("CERTIFICATE", true, true)]
    ensures
      var inputs := GuardedInputs(k, text);
      && inputs.listeners[0].Valid()
      && Checked(k, inputs)
      && !Admitted(k, ContentOf(inputs).gateway, SecretOf(ContentOf(inputs)))
  {
    var spec := GuardedSpec(text);
    var inputs := GuardedInputs(k, text);
    var l := inputs.listeners[0];
    var refs := spec.frontend.value.refs;
    assert Bundle(refs) == text + "\n" by {
      assert refs[..0] == [];
      assert Bundle(refs) == Bundle([]) + text + "\n";
    }
    assert IsCertificate(k.pem(Bundle(refs))[0]);
    assert FrontendResolves(k, spec.frontend.value);
    assert GoodCert(k, spec.certs[0]);
    assert CertsResolve(k, spec.certs) by {
      assert GoodCerts(k, spec.certs) == 1 + GoodCerts(k, spec.certs[1..]);
    }
    ValidatedIsServable(k, spec, Some(10000));
    CompiledIsAdmittedExactly(k, inputs);
    assert ServesBundle(inputs.listeners, 0);
  }

  // ---------------------------------------------- each listener its own --

  predicate Finds(data: SecretData, l: ListenerState, key: string) {
    l.Valid() && key in l.material ==> key in data && data[key] == l.material[key]
  }

  /** Every valid listener finds its own certificates and bundle in the generated Secret. */
  ghost predicate OwnMaterial(data: SecretData, listeners: seq<ListenerState>) {
    forall i, key | 0 <= i < |listeners| :: Finds(data, listeners[i], key)
  }

  /** A later valid listener says something else under a key of an earlier one. */
  ghost predicate Overwrites(listeners: seq<ListenerState>, i: int, j: int, key: string) {
    && 0 <= i < j < |listeners| && listeners[i].Valid() && listeners[j].Valid()
    && key in listeners[i].material && key in listeners[j].material
    && listeners[i].material[key] != listeners[j].material[key]
  }

  lemma {:induction false} LaterAgreeing(base: SecretData, listeners: seq<ListenerState>, i: nat, key: string)
    requires i < |listeners| && listeners[i].Valid() && key in listeners[i].material
    requires forall j :: !Overwrites(listeners, i, j, key)
    ensures key in Material(base, listeners) && Material(base, listeners)[key] == listeners[i].material[key]
  {
    var n := |listeners| - 1;
    if i < n {
      var front := listeners[..n];
      forall j
        ensures !Overwrites(front, i, j, key)
      {
        assert !Overwrites(listeners, i, j, key);
      }
      LaterAgreeing(base, front, i, key);
      assert !Overwrites(listeners, i, n, key);
    }
  }

  lemma OwnKeysAreListenerKeys(k: Checks, inputs: Inputs, i: nat, key: string)
    requires Checked(k, inputs) && i < |inputs.listeners| && key in inputs.listeners[i].material
    ensures
      var material := Material(ClientMaterial(inputs.clientCert), inputs.listeners);
      var data := ContentOf(inputs).secret;
      (key in data <==> key in material) && (key in material ==> data[key] == material[key])
  {
    ListenerKeysStay(Material(ClientMaterial(inputs.clientCert), inputs.listeners), inputs.outcomes, EffectiveName(inputs.listeners[i]));
  }

  lemma OverwritingDisowns(data: SecretData, listeners: seq<ListenerState>, i: int, j: int, key: string)
    requires Overwrites(listeners, i, j, key)
    ensures !(Finds(data, listeners[i], key) && Finds(data, listeners[j], key))
  {
  }

  lemma UnwrittenIsOwn(k: Checks, inputs: Inputs, i: nat, key: string)
    requires Checked(k, inputs) && i < |inputs.listeners| && inputs.listeners[i].Valid() && key in inputs.listeners[i].material
    requires forall j :: !Overwrites(inputs.listeners, i, j, key)
    ensures key in ContentOf(inputs).secret && ContentOf(inputs).secret[key] == inputs.listeners[i].material[key]
  {
    LaterAgreeing(ClientMaterial(inputs.clientCert), inputs.listeners, i, key);
    OwnKeysAreListenerKeys(k, inputs, i, key);
  }

  /** The compiled Secret gives every valid listener its own material exactly when no two valid
      listeners write different material under one key. */
  lemma OwnMaterialIsExact(k: Checks, inputs: Inputs)
    requires Checked(k, inputs)
    ensures OwnMaterial(ContentOf(inputs).secret, inputs.listeners) <==>
            forall i, j, key :: !Overwrites(inputs.listeners, i, j, key)
  {
    var data, listeners := ContentOf(inputs).secret, inputs.listeners;
    if i, j, key :| Overwrites(listeners, i, j, key) {
      OverwritingDisowns(data, listeners, i, j, key);
    } else {
      forall i, key | 0 <= i < |listeners|
        ensures Finds(data, listeners[i], key)
      {
        if listeners[i].Valid() && key in listeners[i].material {
          UnwrittenIsOwn(k, inputs, i, key);
        }
      }
    }
  }

  /** Distinct effective names are enough. */
  lemma DistinctNamesNeverOverwrite(k: Checks, listeners: seq<ListenerState>, i: int, j: int, key: string)
    requires forall x | 0 <= x < |listeners| :: Servable(k, listeners[x])
    requires forall x, y | 0 <= x < y < |listeners| && listeners[x].Valid() && listeners[y].Valid() ::
      EffectiveName(listeners[x]) != EffectiveName(listeners[y])
    ensures !Overwrites(listeners, i, j, key)
  {
    if Overwrites(listeners, i, j, key) {
      var name := EffectiveName(listeners[i]);
      ServableKeys(k, listeners[j], name);
    }
  }
}

/** Validation of one listener: protocol, route kinds, certificates, client CA bundle, port. */
module Validating {
  import opened Strings
  import opened Compiled
  import opened Building
  import opened Certificates
  import Ownership

  type ListenerState = Ownership.ListenerState

  // ---------------------------------------------------------------- inputs --

  /** A certificate reference and what its lookups return: the Secret, when it exists. */
  datatype CertRef = CertRef(isSecret: bool, permitted: bool, secret: Option<SecretData>)

  /** A client CA reference and its ConfigMap, when it exists. */
  datatype CaRef = CaRef(isConfigMap: bool, permitted: bool, configMap: Option<SecretData>)

  /** Frontend validation of a listener: the CA references and the mode, empty for the default. */
  datatype Frontend = Frontend(refs: seq<CaRef>, mode: string)

  /** The parts of a listener that validation reads: its protocol and TLS mode, whether its route
      kinds resolve, and its references. */
  datatype Spec = Spec(
    parent: Ownership.Parent,
    name: string,
    port: nat,
    protocol: string,
    tlsMode: string,
    hostname: string,
    kindsResolve: bool,
    certs: seq<CertRef>,
    frontend: Option<Frontend>)

  function EffectiveName(l: ListenerState): string {
    match l.parent
    case OfGateway => l.name
    case OfSet(namespace, setName) => namespace + "--" + setName + "--" + l.name
  }

  predicate HasTls(l: ListenerState) {
    l.protocol == "HTTPS" || (l.protocol == "TLS" && l.terminates)
  }

  /** Valid listeners that share an internal port differ in hostname. */
  predicate HostsApart(listeners: seq<ListenerState>) {
    forall i, j | 0 <= i < j < |listeners| && listeners[i].Valid() && listeners[j].Valid() ::
      listeners[i].internalPort == listeners[j].internalPort ==> listeners[i].hostname != listeners[j].hostname
  }

  // ---------------------------------------------------------- certificates --

  function Cert(ref: CertRef): string {
    if ref.secret.Some? then Read(ref.secret.value, "tls.crt") else ""
  }

  function PrivateKey(ref: CertRef): string {
    if ref.secret.Some? then Read(ref.secret.value, "tls.key") else ""
  }

  predicate GoodCert(k: Checks, ref: CertRef) {
    && ref.isSecret && ref.permitted && ref.secret.Some?
    && Cert(ref) != "" && PrivateKey(ref) != "" && k.keyPair(Cert(ref), PrivateKey(ref))
  }

  /** How many references resolve before the first that does not. */
  function GoodCerts(k: Checks, refs: seq<CertRef>): (n: nat)
    ensures n <= |refs|
    ensures forall i | 0 <= i < n :: GoodCert(k, refs[i])
    ensures n < |refs| ==> !GoodCert(k, refs[n])
  {
    if refs == [] || !GoodCert(k, refs[0]) then 0 else 1 + GoodCerts(k, refs[1..])
  }

  predicate CertsResolve(k: Checks, refs: seq<CertRef>) {
    refs != [] && GoodCerts(k, refs) == |refs|
  }

  function KeyPairOf(name: string, ref: CertRef): SecretData {
    map[CertKey(name) := Cert(ref)][KeyKey(name) := PrivateKey(ref)]
  }

  /** The pair of the last reference that resolved. */
  function CertMaterial(k: Checks, name: string, refs: seq<CertRef>): SecretData {
    if GoodCerts(k, refs) == 0 then map[] else KeyPairOf(name, refs[GoodCerts(k, refs) - 1])
  }

  /** `resolveCertificates`: every reference must resolve, and the last one is served. */
  method ResolveCertificates(k: Checks, name: string, refs: seq<CertRef>) returns (resolved: bool, material: SecretData)
    ensures resolved <==> CertsResolve(k, refs)
    ensures material == CertMaterial(k, name, refs)
  {
    material := map[];
    resolved := false;
    if |refs| == 0 {
      return;
    }
    for i := 0 to |refs|
      invariant forall j | 0 <= j < i :: GoodCert(k, refs[j])
      invariant material == if i == 0 then map[] else KeyPairOf(name, refs[i - 1])
    {
      var ref := refs[i];
      if !ref.isSecret || !ref.permitted || ref.secret.None? {
        return;
      }
      var cert, key := Read(ref.secret.value, "tls.crt"), Read(ref.secret.value, "tls.key");
      if |cert| == 0 || |key| == 0 {
        return;
      }
      if !k.keyPair(cert, key) {
        return;
      }
      Overwritten(name, material, ref);
      material := material[CertKey(name) := cert][KeyKey(name) := key];
    }
    resolved := true;
  }

  /** Certificates resolve exactly when there is a reference and each is to a permitted, existing
      Secret with a certificate and a key that make a pair. */
  lemma CertsResolveExactly(k: Checks, refs: seq<CertRef>)
    ensures CertsResolve(k, refs) <==> refs != [] && forall ref | ref in refs ::
      && ref.isSecret && ref.permitted && ref.secret.Some?
      && "tls.crt" in ref.secret.value && "tls.key" in ref.secret.value
      && ref.secret.value["tls.crt"] != "" && ref.secret.value["tls.key"] != ""
      && k.keyPair(ref.secret.value["tls.crt"], ref.secret.value["tls.key"])
  {
    var n := GoodCerts(k, refs);
    if n < |refs| {
      assert refs[n] in refs && !GoodCert(k, refs[n]);
    } else {
      forall ref | ref in refs
        ensures GoodCert(k, ref)
      {
        var i :| 0 <= i < |refs| && refs[i] == ref;
      }
    }
  }

  lemma Overwritten(name: string, material: SecretData, ref: CertRef)
    requires material.Keys <= {CertKey(name), KeyKey(name)}
    ensures material[CertKey(name) := Cert(ref)][KeyKey(name) := PrivateKey(ref)] == KeyPairOf(name, ref)
  {
  }

  // -------------------------------------------------------------- client CA --

  function Bundle(refs: seq<CaRef>): string {
    if refs == [] then ""
    else
      var last := refs[|refs| - 1];
      Bundle(refs[..|refs| - 1]) + (if last.configMap.Some? then Read(last.configMap.value, "ca.crt") else "") + "\n"
  }

  predicate GoodCa(ref: CaRef) {
    ref.isConfigMap && ref.permitted && ref.configMap.Some?
  }

  predicate FrontendResolves(k: Checks, frontend: Frontend) {
    (forall i | 0 <= i < |frontend.refs| :: GoodCa(frontend.refs[i])) && HoldsCertificate(k.pem(Bundle(frontend.refs)))
  }

  function Mode(frontend: Frontend): string {
    if frontend.mode != "" then frontend.mode else "AllowValidOnly"
  }

  /** `resolveFrontendValidation`: the bundle of all references, if it holds a certificate. */
  method ResolveFrontend(k: Checks, frontend: Frontend) returns (resolved: bool, bundle: string, mode: string)
    ensures resolved <==> FrontendResolves(k, frontend)
    ensures resolved ==> bundle == Bundle(frontend.refs) && mode == Mode(frontend)
  {
    bundle, mode := "", "";
    var refs := frontend.refs;
    for i := 0 to |refs|
      invariant forall j | 0 <= j < i :: GoodCa(refs[j])
      invariant bundle == Bundle(refs[..i])
    {
      assert refs[..i + 1][..i] == refs[..i];
      var ref := refs[i];
      if !ref.isConfigMap || !ref.permitted || ref.configMap.None? {
        return false, bundle, mode;
      }
      bundle := bundle + Read(ref.configMap.value, "ca.crt");
      bundle := bundle + "\n";
    }
    assert refs[..|refs|] == refs;
    resolved := ValidCaPem(k.pem(bundle));
    if !resolved {
      return;
    }
    mode := "AllowValidOnly";
    if frontend.mode != "" {
      mode := frontend.mode;
    }
  }

  // ------------------------------------------------------------- validation --

  predicate Supported(spec: Spec) {
    if spec.protocol == "TLS" then spec.tlsMode == "Passthrough" || spec.tlsMode == "Terminate"
    else spec.protocol in {"HTTP", "HTTPS", "TCP", "UDP"}
  }

  function Rejected(l: ListenerState): ListenerState {
    l.(accepted := false, reason := Ownership.Rejected)
  }

  /** The listener as declared: rejected at once when its protocol or TLS mode is unsupported, and
      unresolved when its route kinds are. */
  function Declared(spec: Spec): ListenerState {
    var l := Ownership.ListenerState(spec.parent, spec.name, spec.port, spec.protocol, spec.hostname, spec.tlsMode == "Terminate",
                                     true, false, Ownership.Accepted, true, 0, map[], "");
    if Supported(spec) then l.(refsResolved := spec.kindsResolve) else Rejected(l)
  }

  function WithCertificates(k: Checks, l: ListenerState, spec: Spec): ListenerState {
    if l.refsResolved && HasTls(l) then
      l.(material := CertMaterial(k, EffectiveName(l), spec.certs), refsResolved := CertsResolve(k, spec.certs))
    else l
  }

  function WithFrontend(k: Checks, l: ListenerState, spec: Spec): ListenerState {
    if spec.protocol != "HTTPS" || !l.refsResolved || spec.frontend.None? then l
    else if FrontendResolves(k, spec.frontend.value) then
      l.(clientCaMode := Mode(spec.frontend.value),
         material := l.material[ClientCaKey(EffectiveName(l)) := Bundle(spec.frontend.value.refs)])
    else Rejected(l).(refsResolved := false)
  }

  function WithPort(l: ListenerState, internal: Option<int>): ListenerState {
    if internal.None? then Rejected(l) else l.(internalPort := internal.value)
  }

  function Validated(k: Checks, spec: Spec, internal: Option<int>): ListenerState {
    WithPort(WithFrontend(k, WithCertificates(k, Declared(spec), spec), spec), internal)
  }

  method Certify(k: Checks, spec: Spec, declared: ListenerState) returns (l: ListenerState)
    requires declared.protocol == spec.protocol && declared.terminates == (spec.tlsMode == "Terminate")
    ensures l == WithCertificates(k, declared, spec)
  {
    l := declared;
    if l.refsResolved && (spec.protocol == "HTTPS" || (spec.protocol == "TLS" && spec.tlsMode == "Terminate")) {
      var resolved, material := ResolveCertificates(k, EffectiveName(l), spec.certs);
      l := l.(material := material, refsResolved := resolved);
    }
  }

  method ValidateClients(k: Checks, spec: Spec, certified: ListenerState) returns (l: ListenerState)
    ensures l == WithFrontend(k, certified, spec)
  {
    l := certified;
    if spec.protocol == "HTTPS" && l.refsResolved && spec.frontend.Some? {
      var resolved, bundle, mode := ResolveFrontend(k, spec.frontend.value);
      if resolved {
        l := l.(clientCaMode := mode, material := l.material[ClientCaKey(EffectiveName(l)) := bundle]);
      } else {
        l := l.(refsResolved := false, accepted := false, reason := Ownership.Rejected);
      }
    }
  }

  /** `validateListener`, given the internal port the allocator answers with, if any. */
  method ValidateListener(k: Checks, spec: Spec, internal: Option<int>) returns (l: ListenerState)
    ensures l == Validated(k, spec, internal)
  {
    l := Ownership.ListenerState(spec.parent, spec.name, spec.port, spec.protocol, spec.hostname, spec.tlsMode == "Terminate",
                                 true, false, Ownership.Accepted, true, 0, map[], "");
    if spec.protocol == "TLS" {
      if spec.tlsMode != "Passthrough" && spec.tlsMode != "Terminate" {
        l := l.(accepted := false, reason := Ownership.Rejected);
      }
    } else if spec.protocol !in {"HTTP", "HTTPS", "TCP", "UDP"} {
      l := l.(accepted := false, reason := Ownership.Rejected);
    }
    if l.accepted && !spec.kindsResolve {
      l := l.(refsResolved := false);
    }
    l := Certify(k, spec, l);
    l := ValidateClients(k, spec, l);
    match internal {
      case None => l := l.(accepted := false, reason := Ownership.Rejected);
      case Some(port) => l := l.(internalPort := port);
    }
  }

  // ------------------------------------------------- what it establishes --

  /** The certificates of a listener are a key pair under its own name, and its client CA bundle
      one that the control plane accepts; valid listeners have what they need. */
  ghost predicate Servable(k: Checks, l: ListenerState) {
    var name := EffectiveName(l);
    && l.material.Keys <= {CertKey(name), KeyKey(name), ClientCaKey(name)}
    && (CertKey(name) in l.material <==> KeyKey(name) in l.material)
    && (CertKey(name) in l.material ==> k.keyPair(l.material[CertKey(name)], l.material[KeyKey(name)]))
    && (ClientCaKey(name) in l.material ==> HoldsCertificate(k.pem(l.material[ClientCaKey(name)])))
    && (ClientCaKey(name) in l.material <==> l.clientCaMode != "")
    && (l.Valid() && HasTls(l) ==> CertKey(name) in l.material)
  }

  /** Whatever validation makes of a listener, its material is sound under its own keys. */
  lemma ValidatedIsServable(k: Checks, spec: Spec, internal: Option<int>)
    ensures Servable(k, Validated(k, spec, internal))
  {
    CertifiedIsServable(k, Declared(spec), spec);
    var certified := WithCertificates(k, Declared(spec), spec);
    FrontedIsServable(k, certified, spec);
    PortedIsServable(k, WithFrontend(k, certified, spec), internal);
  }

  /** A listener that ends valid has a port, a supported protocol, and resolved references. */
  lemma ValidatedHasPort(k: Checks, spec: Spec, internal: Option<int>)
    ensures
      var l := Validated(k, spec, internal);
      && l.parent == spec.parent && l.name == spec.name && l.port == spec.port && l.protocol == spec.protocol && l.hostname == spec.hostname
      && (l.Valid() ==> internal == Some(l.internalPort) && Supported(spec) && spec.kindsResolve)
      && (l.Valid() && HasTls(l) ==> CertsResolve(k, spec.certs))
  {
  }

  /** Client validation resolves exactly when each reference is to a permitted, existing ConfigMap and
      some certificate block of the bundle parses; the mode defaults to requiring a valid one. */
  lemma FrontendResolvesExactly(k: Checks, frontend: Frontend)
    ensures FrontendResolves(k, frontend) <==>
      && (forall ref | ref in frontend.refs :: ref.isConfigMap && ref.permitted && ref.configMap.Some?)
      && exists b | b in k.pem(Bundle(frontend.refs)) :: b.kind == "CERTIFICATE" && b.parses
    ensures Mode(frontend) == if frontend.mode == "" then "AllowValidOnly" else frontend.mode
  {
    HoldsByBlock(k.pem(Bundle(frontend.refs)));
    forall ref | ref in frontend.refs && FrontendResolves(k, frontend)
      ensures GoodCa(ref)
    {
      var i :| 0 <= i < |frontend.refs| && frontend.refs[i] == ref;
    }
  }

  /** The bundle is the certificates of all references, each ended by a line feed. */
  lemma BundleJoins(refs: seq<CaRef>, ref: CaRef)
    ensures Bundle([]) == ""
    ensures ref.configMap.Some? && "ca.crt" in ref.configMap.value ==>
      Bundle(refs + [ref]) == Bundle(refs) + ref.configMap.value["ca.crt"] + "\n"
  {
    assert (refs + [ref])[..|refs|] == refs;
  }

  /** A listener is valid exactly when its protocol is one of the five, a TLS one says what to do
      with it, its route kinds and, if it terminates TLS, its certificates resolve, its client CA
      bundle, if it has one, resolves, and it got a port. It then serves the last of its key pairs and
      that bundle, and validates clients as told. */
  lemma ValidExactly(k: Checks, spec: Spec, internal: Option<int>)
    ensures
      var l := Validated(k, spec, internal);
      var terminates := spec.protocol == "HTTPS" || (spec.protocol == "TLS" && spec.tlsMode == "Terminate");
      var fronted := spec.protocol == "HTTPS" && spec.frontend.Some?;
      && (l.Valid() <==>
            && spec.protocol in {"HTTP", "HTTPS", "TCP", "UDP", "TLS"}
            && (spec.protocol == "TLS" ==> spec.tlsMode in {"Passthrough", "Terminate"})
            && spec.kindsResolve && internal.Some?
            && (terminates ==> CertsResolve(k, spec.certs))
            && (fronted ==> FrontendResolves(k, spec.frontend.value)))
      && (l.Valid() ==>
            && l.internalPort == internal.value
            && l.clientCaMode == (if fronted then Mode(spec.frontend.value) else "")
            && l.material == (if terminates then KeyPairOf(EffectiveName(l), spec.certs[|spec.certs| - 1]) else map[]) +
                             (if fronted then map[ClientCaKey(EffectiveName(l)) := Bundle(spec.frontend.value.refs)] else map[]))
  {
  }

  lemma CertifiedIsServable(k: Checks, l: ListenerState, spec: Spec)
    requires l.material == map[] && l.clientCaMode == ""
    ensures Servable(k, WithCertificates(k, l, spec))
  {
    var name := EffectiveName(l);
    KeysAreApart(name, name);
    var certified := WithCertificates(k, l, spec);
    assert EffectiveName(certified) == name;
    if GoodCerts(k, spec.certs) > 0 {
      assert GoodCert(k, spec.certs[GoodCerts(k, spec.certs) - 1]);
    }
  }

  lemma PortedIsServable(k: Checks, l: ListenerState, internal: Option<int>)
    requires Servable(k, l)
    ensures Servable(k, WithPort(l, internal))
  {
    assert EffectiveName(WithPort(l, internal)) == EffectiveName(l);
  }

  lemma FrontedIsServable(k: Checks, l: ListenerState, spec: Spec)
    requires Servable(k, l) && l.clientCaMode == "" && l.protocol == spec.protocol
    ensures Servable(k, WithFrontend(k, l, spec))
  {
    KeysAreApart(EffectiveName(l), EffectiveName(l));
    assert EffectiveName(WithFrontend(k, l, spec)) == EffectiveName(l);
  }

  // ------------------------------------------------------------------ keys --

  lemma KeysAreApart(a: string, b: string)
    ensures CertKey(a) != KeyKey(b) && CertKey(a) != ClientCaKey(b) && KeyKey(a) != ClientCaKey(b)
    ensures CertKey(a) != AuthKey(b) && KeyKey(a) != AuthKey(b) && ClientCaKey(a) != AuthKey(b)
  {
    var cert, key, ca, auth := CertKey(a), KeyKey(b), ClientCaKey(b), AuthKey(b);
    assert cert[|cert| - 1] == 't' && key[|key| - 1] == 'y' && ca[|ca| - 1] == 't' && auth[|auth| - 1] == 'n';
    assert cert[|cert| - 8] == '.' && ca[|ca| - 8] == 't';
    assert KeyKey(a)[|KeyKey(a)| - 1] == 'y';
    assert ClientCaKey(a)[|ClientCaKey(a)| - 1] == 't';
  }

  lemma KeysNameListeners(a: string, b: string)
    ensures CertKey(a) == CertKey(b) ==> a == b
    ensures KeyKey(a) == KeyKey(b) ==> a == b
    ensures ClientCaKey(a) == ClientCaKey(b) ==> a == b
    ensures AuthKey(a) == AuthKey(b) ==> a == b
  {
    assert CertKey(a)[..|CertKey(a)| - 8] == a && CertKey(b)[..|CertKey(b)| - 8] == b;
    assert KeyKey(a)[..|KeyKey(a)| - 8] == a && KeyKey(b)[..|KeyKey(b)| - 8] == b;
    assert ClientCaKey(a)[..|ClientCaKey(a)| - 14] == a && ClientCaKey(b)[..|ClientCaKey(b)| - 14] == b;
    assert AuthKey(a)[5..|AuthKey(a)| - 5] == a && AuthKey(b)[5..|AuthKey(b)| - 5] == b;
  }
}

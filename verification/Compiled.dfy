/** The compiled configuration the planes exchange, and the API objects that carry it.

    Hashes are symbolic: a checksum is the content it was taken of and a generation
    identifier is the content it identifies, which is SHA-256 read as an injection; the
    `Digests` module proves that the bytes fed to it determine that content. Object names are
    likewise the parts they are rendered from. A JSON text is the value it encodes, or text
    that came from elsewhere. */
module Compiled {
  import opened Strings
  import Matching

  datatype Listener = Listener(
    name: string,
    port: int,
    internalPort: int,
    protocol: string,
    hostname: string,
    hasTls: bool,
    clientCaMode: string,
    proxyProtocol: bool)

  datatype GatewayConfig = GatewayConfig(
    uid: string,
    namespace: string,
    name: string,
    listeners: seq<Listener>,
    backendClientCert: bool,
    trustedProxies: seq<string>)

  /** `auth` is the identity of the rule's authentication document, empty for none. */
  datatype Rule = Rule(
    matches: seq<Matching.Match>,
    backends: seq<Matching.Backend>,
    auth: string,
    extensionsInvalid: bool)

  datatype RouteConfig = RouteConfig(
    uid: string,
    namespace: string,
    name: string,
    listeners: seq<string>,
    hostnames: seq<string>,
    created: int,
    grpc: bool,
    rules: seq<Rule>)

  type SecretData = map<string, string>

  /** Everything one generation of a gateway says: its routes by UID, and the material of its
      generated Secret, which exists when there is any. */
  datatype Content = Content(gateway: GatewayConfig, routes: map<string, RouteConfig>, secret: SecretData)

  datatype Generation = NoGeneration | Of(content: Content)

  datatype Payload = GatewayPayload(gateway: GatewayConfig) | RoutePayload(route: RouteConfig) | Foreign(text: string)

  datatype Checksum = OfPayload(payload: Payload) | OfSecret(data: SecretData)

  // ---------------------------------------------------------------- names --

  datatype Name =
    | ManifestName(uid: string)
    | GatewayConfigName(uid: string, generation: Generation)
    | AttachmentName(uid: string, routeUid: string, generation: Generation)
    | TlsSecretName(uid: string, generation: Generation)

  datatype Role = ManifestRole | GatewayConfigRole | AttachmentRole | TlsRole | OtherRole

  datatype Labels = Labels(gatewayUid: string, generation: Generation, role: Role)

  /** The labels the control plane puts on the object of each name. */
  function LabelsFor(name: Name): Labels {
    match name
    case ManifestName(uid) => Labels(uid, NoGeneration, ManifestRole)
    case GatewayConfigName(uid, generation) => Labels(uid, generation, GatewayConfigRole)
    case AttachmentName(uid, _, generation) => Labels(uid, generation, AttachmentRole)
    case TlsSecretName(uid, generation) => Labels(uid, generation, TlsRole)
  }

  // -------------------------------------------------------------- objects --

  datatype Kind = ConfigMapKind | SecretKind | OtherKind

  datatype ObjectRef = ObjectRef(kind: Kind, name: Name, checksum: Checksum)

  datatype Manifest = Manifest(
    gatewayUid: string,
    generation: Generation,
    previous: Generation,
    objects: seq<ObjectRef>)

  /** The two data keys krouter reads: the manifest, absent when its text does not decode, and
      the payload. */
  datatype ConfigMap = ConfigMap(labels: Labels, manifest: Option<Manifest>, payload: Payload, version: nat)

  datatype Secret = Secret(labels: Labels, data: SecretData, version: nat)

  type ConfigMaps = map<Name, ConfigMap>
  type Secrets = map<Name, Secret>

  // ------------------------------------------------- the objects of a generation --

  /** `order` lists the route UIDs of a generation, in whatever order a map was walked. */
  ghost predicate IsOrder(content: Content, order: seq<string>) {
    && (forall i, j | 0 <= i < j < |order| :: order[i] != order[j])
    && (forall uid :: uid in order <==> uid in content.routes)
  }

  function GatewayRef(uid: string, content: Content): ObjectRef {
    ObjectRef(ConfigMapKind, GatewayConfigName(uid, Of(content)), OfPayload(GatewayPayload(content.gateway)))
  }

  function AttachmentRef(uid: string, content: Content, routeUid: string): ObjectRef
    requires routeUid in content.routes
  {
    ObjectRef(ConfigMapKind, AttachmentName(uid, routeUid, Of(content)), OfPayload(RoutePayload(content.routes[routeUid])))
  }

  function SecretRef(uid: string, content: Content): ObjectRef {
    ObjectRef(SecretKind, TlsSecretName(uid, Of(content)), OfSecret(content.secret))
  }

  function AttachmentRefs(uid: string, content: Content, order: seq<string>): seq<ObjectRef>
    requires forall i | 0 <= i < |order| :: order[i] in content.routes
  {
    seq(|order|, i requires 0 <= i < |order| => AttachmentRef(uid, content, order[i]))
  }

  function SecretRefs(uid: string, content: Content): seq<ObjectRef> {
    if content.secret == map[] then [] else [SecretRef(uid, content)]
  }

  /** The object list of a generation's manifest. */
  function Objects(uid: string, content: Content, order: seq<string>): seq<ObjectRef>
    requires forall i | 0 <= i < |order| :: order[i] in content.routes
  {
    [GatewayRef(uid, content)] + AttachmentRefs(uid, content, order) + SecretRefs(uid, content)
  }

  /** A manifest the control plane could have written for a gateway. */
  ghost predicate Authentic(uid: string, m: Manifest, order: seq<string>) {
    && m.gatewayUid == uid
    && m.generation.Of?
    && IsOrder(m.generation.content, order)
    && m.objects == Objects(uid, m.generation.content, order)
  }
}

/** Publication of one generation: immutable objects, then the manifest, then collection of
    generations nobody needs. */
module Publishing {
  import opened Strings
  import opened Compiled
  import opened Loading

  // ----------------------------------------------------- acknowledgements --

  /** What one pod reported: the applied generation of each gateway it knows. */
  datatype PodAck = PodAck(healthy: bool, gateways: map<string, Generation>)

  type AckState = map<string, PodAck>

  predicate PodAcks(pod: PodAck, uid: string, generation: Generation) {
    uid in pod.gateways && pod.gateways[uid] == generation
  }

  /** At least one healthy pod, and every healthy pod reports the generation as applied. */
  ghost predicate EveryHealthyPodAcks(acks: AckState, uid: string, generation: Generation) {
    && (exists p | p in acks :: acks[p].healthy)
    && (forall p | p in acks && acks[p].healthy :: PodAcks(acks[p], uid, generation))
  }

  method AllAcked(acks: AckState, uid: string, generation: Generation) returns (all: bool)
    ensures all <==> EveryHealthyPodAcks(acks, uid, generation)
    ensures all <==>
      && (exists p | p in acks :: acks[p].healthy)
      && (forall p | p in acks && acks[p].healthy :: uid in acks[p].gateways && acks[p].gateways[uid] == generation)
  {
    var healthy := 0;
    var rest := acks.Keys;
    while rest != {}
      invariant rest <= acks.Keys
      invariant healthy == 0 ==> forall p | p in acks && p !in rest :: !acks[p].healthy
      invariant healthy > 0 ==> exists p | p in acks :: acks[p].healthy
      invariant healthy >= 0
      invariant forall p | p in acks && p !in rest && acks[p].healthy :: PodAcks(acks[p], uid, generation)
    {
      var p :| p in rest;
      rest := rest - {p};
      if !acks[p].healthy {
        continue;
      }
      healthy := healthy + 1;
      if !PodAcks(acks[p], uid, generation) {
        return false;
      }
    }
    all := healthy > 0;
  }

  function Acked(acks: AckState, uid: string): set<Generation> {
    set p | p in acks && uid in acks[p].gateways && acks[p].gateways[uid] != NoGeneration :: acks[p].gateways[uid]
  }

  method AckedGenerations(acks: AckState, uid: string) returns (acked: set<Generation>)
    ensures acked == Acked(acks, uid)
    ensures forall g :: g in acked <==> g != NoGeneration && exists p | p in acks :: uid in acks[p].gateways && acks[p].gateways[uid] == g
  {
    acked := {};
    var rest := acks.Keys;
    while rest != {}
      invariant rest <= acks.Keys
      invariant acked == set p | p in acks && p !in rest && uid in acks[p].gateways && acks[p].gateways[uid] != NoGeneration :: acks[p].gateways[uid]
    {
      var p :| p in rest;
      rest := rest - {p};
      if uid in acks[p].gateways && acks[p].gateways[uid] != NoGeneration {
        acked := acked + {acks[p].gateways[uid]};
      }
    }
  }

  // ---------------------------------------------------------------- store --

  /** The generated objects of the system namespace; `clock` is the last resource version
      handed out. */
  datatype Store = Store(cms: ConfigMaps, secrets: Secrets, clock: nat)

  function Put(s: Store, name: Name, manifest: Option<Manifest>, payload: Payload): Store {
    Store(s.cms[name := ConfigMap(LabelsFor(name), manifest, payload, s.clock + 1)], s.secrets, s.clock + 1)
  }

  function PutSecret(s: Store, name: Name, data: SecretData): Store {
    Store(s.cms, s.secrets[name := Secret(LabelsFor(name), data, s.clock + 1)], s.clock + 1)
  }

  function Delete(s: Store, name: Name): Store {
    Store(s.cms - {name}, s.secrets - {name}, s.clock)
  }

  /** The write behind one manifest entry: the object is created unless its name is taken. */
  function Ensured(s: Store, ref: ObjectRef): Store {
    match ref
    case ObjectRef(ConfigMapKind, name, OfPayload(payload)) =>
      if name in s.cms then s else Put(s, name, None, payload)
    case ObjectRef(SecretKind, name, OfSecret(data)) =>
      if name in s.secrets then s else PutSecret(s, name, data)
    case _ => s
  }

  function EnsuredAll(s: Store, refs: seq<ObjectRef>): Store {
    if refs == [] then s else Ensured(EnsuredAll(s, refs[..|refs| - 1]), refs[|refs| - 1])
  }

  /** The manifest as committed: it remembers the generation it replaces, and keeps what it
      remembered when it replaces itself. */
  function Succeeding(s: Store, m: Manifest): Manifest {
    var name := ManifestName(m.gatewayUid);
    if name !in s.cms then m
    else
      match s.cms[name].manifest
      case None => m.(previous := NoGeneration)
      case Some(was) => m.(previous := if was.generation == m.generation then was.previous else was.generation)
  }

  function Committed(s: Store, m: Manifest): Store {
    var name := ManifestName(m.gatewayUid);
    var desired := Some(Succeeding(s, m));
    if name in s.cms && s.cms[name].manifest == desired && s.cms[name].labels.role == ManifestRole then s
    else Put(s, name, desired, if name in s.cms then s.cms[name].payload else Foreign(""))
  }

  function ManifestFor(uid: string, content: Content, order: seq<string>): Manifest
    requires forall i | 0 <= i < |order| :: order[i] in content.routes
  {
    Manifest(uid, Of(content), NoGeneration, Objects(uid, content, order))
  }

  /** One uninterrupted publication. */
  function Published(s: Store, uid: string, content: Content, order: seq<string>): Store
    requires forall i | 0 <= i < |order| :: order[i] in content.routes
  {
    Committed(EnsuredAll(s, Objects(uid, content, order)), ManifestFor(uid, content, order))
  }

  // ----------------------------------------------------------- collection --

  function Kept(m: Manifest, acks: AckState): set<Generation> {
    {m.generation} + (if m.previous != NoGeneration then {m.previous} else {}) + Acked(acks, m.gatewayUid)
  }

  predicate Doomed(labels: Labels, uid: string, keep: set<Generation>) {
    labels.gatewayUid == uid && labels.generation != NoGeneration && labels.generation !in keep
  }

  function DoomedConfigMaps(cms: ConfigMaps, uid: string, keep: set<Generation>): set<Name> {
    set name | name in cms && Doomed(cms[name].labels, uid, keep)
  }

  function DoomedSecrets(secrets: Secrets, uid: string, keep: set<Generation>): set<Name> {
    set name | name in secrets && Doomed(secrets[name].labels, uid, keep)
  }

  predicate Orphaned(labels: Labels, owned: set<string>) {
    labels.gatewayUid != "" && labels.gatewayUid !in owned
  }

  function OrphansIn(cms: ConfigMaps, secrets: Secrets, owned: set<string>): set<Name> {
    (set name | name in cms && Orphaned(cms[name].labels, owned)) +
    (set name | name in secrets && Orphaned(secrets[name].labels, owned))
  }

  // ----------------------------------------------------- the control plane --

  /** The control plane's client of the API server, over the live objects. */
  class Publisher {
    var cms: ConfigMaps
    var secrets: Secrets
    var clock: nat

    ghost function State(): Store
      reads this
    {
      Store(cms, secrets, clock)
    }

    method EnsureImmutableConfigMap(name: Name, payload: Payload)
      modifies this
      ensures State() == Ensured(old(State()), ObjectRef(ConfigMapKind, name, OfPayload(payload)))
    {
      if name in cms {
        return;
      }
      cms, clock := cms[name := ConfigMap(LabelsFor(name), None, payload, clock + 1)], clock + 1;
    }

    method EnsureGeneratedSecret(name: Name, data: SecretData)
      modifies this
      ensures State() == Ensured(old(State()), ObjectRef(SecretKind, name, OfSecret(data)))
    {
      if name in secrets {
        return;
      }
      secrets, clock := secrets[name := Secret(LabelsFor(name), data, clock + 1)], clock + 1;
    }

    method EnsureManifest(manifest: Manifest) returns (m: Manifest)
      modifies this
      ensures m == Succeeding(old(State()), manifest)
      ensures State() == Committed(old(State()), manifest)
    {
      var name := ManifestName(manifest.gatewayUid);
      m := manifest;
      if name !in cms {
        cms, clock := cms[name := ConfigMap(LabelsFor(name), Some(m), Foreign(""), clock + 1)], clock + 1;
        return;
      }
      var existing := cms[name];
      var previous := if existing.manifest.Some? then existing.manifest.value else Manifest("", NoGeneration, NoGeneration, []);
      if previous.generation == m.generation {
        m := m.(previous := previous.previous);
      } else {
        m := m.(previous := previous.generation);
      }
      if existing.manifest == Some(m) && existing.labels.role == ManifestRole {
        return;
      }
      cms, clock := cms[name := ConfigMap(LabelsFor(name), Some(m), existing.payload, clock + 1)], clock + 1;
    }

    /** Deletes, from a listing taken earlier, what no retention rule keeps. */
    method CollectGenerations(listedCms: ConfigMaps, listedSecrets: Secrets, acks: AckState, m: Manifest)
      modifies this`cms, this`secrets
      ensures EveryHealthyPodAcks(acks, m.gatewayUid, m.generation) ==>
        && cms == old(cms) - DoomedConfigMaps(listedCms, m.gatewayUid, Kept(m, acks))
        && secrets == old(secrets) - DoomedSecrets(listedSecrets, m.gatewayUid, Kept(m, acks))
      ensures !EveryHealthyPodAcks(acks, m.gatewayUid, m.generation) ==> unchanged(this)
    {
      var all := AllAcked(acks, m.gatewayUid, m.generation);
      if !all {
        return;
      }
      var keep := {m.generation};
      if m.previous != NoGeneration {
        keep := keep + {m.previous};
      }
      var acked := AckedGenerations(acks, m.gatewayUid);
      keep := keep + acked;
      assert keep == Kept(m, acks);
      DeleteConfigMaps(listedCms, m.gatewayUid, keep);
      DeleteSecrets(listedSecrets, m.gatewayUid, keep);
    }

    method DeleteConfigMaps(listed: ConfigMaps, uid: string, keep: set<Generation>)
      modifies this`cms
      ensures cms == old(cms) - DoomedConfigMaps(listed, uid, keep)
    {
      var rest := listed.Keys;
      ghost var gone: set<Name> := {};
      while rest != {}
        invariant rest <= listed.Keys
        invariant gone == set name | name in listed && name !in rest && Doomed(listed[name].labels, uid, keep)
        invariant cms == old(cms) - gone
      {
        var name :| name in rest;
        rest := rest - {name};
        if Doomed(listed[name].labels, uid, keep) {
          cms := cms - {name};
          gone := gone + {name};
        }
      }
    }

    method DeleteSecrets(listed: Secrets, uid: string, keep: set<Generation>)
      modifies this`secrets
      ensures secrets == old(secrets) - DoomedSecrets(listed, uid, keep)
    {
      var rest := listed.Keys;
      ghost var gone: set<Name> := {};
      while rest != {}
        invariant rest <= listed.Keys
        invariant gone == set name | name in listed && name !in rest && Doomed(listed[name].labels, uid, keep)
        invariant secrets == old(secrets) - gone
      {
        var name :| name in rest;
        rest := rest - {name};
        if Doomed(listed[name].labels, uid, keep) {
          secrets := secrets - {name};
          gone := gone + {name};
        }
      }
    }

    /** The write sequence of `publishGeneration`, up to and including the commit. The route
        order is that of a map walk. */
    method PublishGeneration(uid: string, content: Content, order: seq<string>) returns (m: Manifest)
      requires forall i | 0 <= i < |order| :: order[i] in content.routes
      modifies this
      ensures State() == Published(old(State()), uid, content, order)
      ensures m == Succeeding(EnsuredAll(old(State()), Objects(uid, content, order)), ManifestFor(uid, content, order))
    {
      var generation := Of(content);
      ghost var refs := Objects(uid, content, order);
      var objects := [GatewayRef(uid, content)];
      EnsureImmutableConfigMap(GatewayConfigName(uid, generation), GatewayPayload(content.gateway));
      assert EnsuredAll(old(State()), objects) == State() by {
        assert objects[..0] == [];
      }
      for i := 0 to |order|
        invariant objects == [GatewayRef(uid, content)] + AttachmentRefs(uid, content, order[..i])
        invariant State() == EnsuredAll(old(State()), objects)
      {
        EnsureImmutableConfigMap(AttachmentName(uid, order[i], generation), RoutePayload(content.routes[order[i]]));
        ghost var grown := objects + [AttachmentRef(uid, content, order[i])];
        assert grown[..|grown| - 1] == objects;
        objects := objects + [AttachmentRef(uid, content, order[i])];
      }
      assert order[..|order|] == order;
      if content.secret != map[] {
        EnsureGeneratedSecret(TlsSecretName(uid, generation), content.secret);
        ghost var grown := objects + [SecretRef(uid, content)];
        assert grown[..|grown| - 1] == objects;
        objects := objects + [SecretRef(uid, content)];
      }
      assert objects == refs;
      m := EnsureManifest(Manifest(uid, generation, NoGeneration, objects));
    }
  }

  // -------------------------------------------------------------- closure --

  function ManifestOf(s: Store, uid: string): Option<Manifest> {
    if ManifestName(uid) in s.cms then s.cms[ManifestName(uid)].manifest else None
  }

  /** The committed manifest names only objects that exist with the listed checksum. */
  ghost predicate Closed(s: Store, uid: string) {
    ManifestOf(s, uid).Some? && HoldsAll(s.cms, s.secrets, ManifestOf(s, uid).value.objects)
  }

  predicate Taken(s: Store, ref: ObjectRef) {
    match ref.kind
    case ConfigMapKind => ref.name in s.cms
    case SecretKind => ref.name in s.secrets
    case OtherKind => false
  }

  predicate WellKinded(ref: ObjectRef) {
    match ref.kind
    case ConfigMapKind => ref.checksum.OfPayload? && !ref.name.ManifestName?
    case SecretKind => ref.checksum.OfSecret?
    case OtherKind => false
  }

  ghost predicate Plan(refs: seq<ObjectRef>) {
    && (forall i | 0 <= i < |refs| :: WellKinded(refs[i]))
    && (forall i, j | 0 <= i < j < |refs| :: refs[i].name != refs[j].name)
  }

  /** No object of the generation that survives has been altered. */
  ghost predicate Unaltered(s: Store, refs: seq<ObjectRef>) {
    forall i | 0 <= i < |refs| && Taken(s, refs[i]) :: Holds(s.cms, s.secrets, refs[i])
  }

  lemma ObjectsArePlan(uid: string, content: Content, order: seq<string>)
    requires IsOrder(content, order)
    ensures Plan(Objects(uid, content, order))
  {
  }

  lemma EnsuredHoldsOwn(s: Store, ref: ObjectRef)
    requires WellKinded(ref)
    ensures Taken(Ensured(s, ref), ref)
    ensures Holds(Ensured(s, ref).cms, Ensured(s, ref).secrets, ref) <==> (Taken(s, ref) ==> Holds(s.cms, s.secrets, ref))
  {
  }

  lemma EnsuredKeepsOther(s: Store, ref: ObjectRef, other: ObjectRef)
    requires ref.name != other.name
    ensures Taken(Ensured(s, ref), other) <==> Taken(s, other)
    ensures Holds(Ensured(s, ref).cms, Ensured(s, ref).secrets, other) <==> Holds(s.cms, s.secrets, other)
  {
  }

  lemma {:induction false} EnsuredAllHoldsEach(s: Store, refs: seq<ObjectRef>, other: ObjectRef)
    requires Plan(refs) && WellKinded(other)
    requires other in refs || forall i | 0 <= i < |refs| :: refs[i].name != other.name
    ensures
      var s' := EnsuredAll(s, refs);
      && (Taken(s', other) <==> other in refs || Taken(s, other))
      && (Holds(s'.cms, s'.secrets, other) <==>
          if other in refs then Taken(s, other) ==> Holds(s.cms, s.secrets, other) else Holds(s.cms, s.secrets, other))
  {
    if refs != [] {
      var n := |refs| - 1;
      var front, last := refs[..n], refs[n];
      assert refs == front + [last];
      EnsuredAllHoldsEach(s, front, other);
      if other == last {
        EnsuredHoldsOwn(EnsuredAll(s, front), last);
      } else {
        EnsuredKeepsOther(EnsuredAll(s, front), last, other);
      }
    }
  }

  lemma EnsuringIsExact(s: Store, refs: seq<ObjectRef>)
    requires Plan(refs)
    ensures HoldsAll(EnsuredAll(s, refs).cms, EnsuredAll(s, refs).secrets, refs) <==> Unaltered(s, refs)
  {
    forall i | 0 <= i < |refs|
      ensures Holds(EnsuredAll(s, refs).cms, EnsuredAll(s, refs).secrets, refs[i]) <==>
              (Taken(s, refs[i]) ==> Holds(s.cms, s.secrets, refs[i]))
    {
      EnsuredAllHoldsEach(s, refs, refs[i]);
    }
  }

  lemma CommitKeepsObjects(s: Store, m: Manifest, ref: ObjectRef)
    requires WellKinded(ref)
    ensures Holds(Committed(s, m).cms, Committed(s, m).secrets, ref) <==> Holds(s.cms, s.secrets, ref)
  {
  }

  lemma CommitSetsManifest(s: Store, m: Manifest)
    ensures ManifestOf(Committed(s, m), m.gatewayUid) == Some(Succeeding(s, m))
  {
  }

  /** A commit also repairs the label by which the manifest is found. */
  lemma CommitLabelsManifest(s: Store, m: Manifest)
    ensures ManifestName(m.gatewayUid) in Committed(s, m).cms
    ensures Committed(s, m).cms[ManifestName(m.gatewayUid)].labels.role == ManifestRole
  {
  }

  /** From any store at all, one uninterrupted publication leaves a closed manifest of the
      published generation exactly when no object of that generation which survived had been
      altered: an existing name is taken for the object, its content is never compared. */
  lemma RestorationIsExact(s: Store, uid: string, content: Content, order: seq<string>)
    requires IsOrder(content, order)
    ensures
      var s' := Published(s, uid, content, order);
      && ManifestOf(s', uid).Some?
      && ManifestOf(s', uid).value.generation == Of(content)
      && (Closed(s', uid) <==> Unaltered(s, Objects(uid, content, order)))
  {
    var refs := Objects(uid, content, order);
    var m := ManifestFor(uid, content, order);
    var written := EnsuredAll(s, refs);
    ObjectsArePlan(uid, content, order);
    EnsuringIsExact(s, refs);
    CommitSetsManifest(written, m);
    forall i | 0 <= i < |refs|
      ensures Holds(Committed(written, m).cms, Committed(written, m).secrets, refs[i]) <==> Holds(written.cms, written.secrets, refs[i])
    {
      CommitKeepsObjects(written, m, refs[i]);
    }
  }

  lemma {:induction false} EnsuringTakenIsIdle(s: Store, refs: seq<ObjectRef>)
    requires forall i | 0 <= i < |refs| :: Taken(s, refs[i])
    ensures EnsuredAll(s, refs) == s
  {
    if refs != [] {
      EnsuringTakenIsIdle(s, refs[..|refs| - 1]);
    }
  }

  /** Publishing what is already published writes nothing, so the resource versions the
      watchers compare do not move; only a different walk of the route map rewrites the
      manifest, and that keeps the remembered generation. */
  lemma RepublishingIsIdle(s: Store, uid: string, content: Content, order: seq<string>, order': seq<string>)
    requires IsOrder(content, order) && IsOrder(content, order')
    ensures
      var s' := Published(s, uid, content, order);
      var s'' := Published(s', uid, content, order');
      && (order == order' ==> s'' == s')
      && s''.secrets == s'.secrets
      && (forall name | name != ManifestName(uid) :: name in s''.cms <==> name in s'.cms)
      && (forall name | name != ManifestName(uid) && name in s'.cms :: s''.cms[name] == s'.cms[name])
      && ManifestOf(s'', uid) == Some(ManifestOf(s', uid).value.(objects := Objects(uid, content, order')))
  {
    var s' := Published(s, uid, content, order);
    PublishedIsTaken(s, uid, content, order, order');
    EnsuringTakenIsIdle(s', Objects(uid, content, order'));
    var m, m' := ManifestFor(uid, content, order), ManifestFor(uid, content, order');
    CommitSetsManifest(EnsuredAll(s, Objects(uid, content, order)), m);
    CommitSetsManifest(s', m');
  }

  lemma PublishedIsTaken(s: Store, uid: string, content: Content, order: seq<string>, order': seq<string>)
    requires IsOrder(content, order) && IsOrder(content, order')
    ensures
      var s' := Published(s, uid, content, order);
      forall i | 0 <= i < |Objects(uid, content, order')| :: Taken(s', Objects(uid, content, order')[i])
  {
    var refs, refs' := Objects(uid, content, order), Objects(uid, content, order');
    ObjectsArePlan(uid, content, order);
    ObjectsArePlan(uid, content, order');
    forall i | 0 <= i < |refs'|
      ensures Taken(Published(s, uid, content, order), refs'[i])
    {
      SameObjects(uid, content, order, order', i);
      EnsuredAllHoldsEach(s, refs, refs'[i]);
    }
  }

  lemma SameObjects(uid: string, content: Content, order: seq<string>, order': seq<string>, i: nat)
    requires IsOrder(content, order) && IsOrder(content, order')
    requires i < |Objects(uid, content, order')|
    ensures Objects(uid, content, order')[i] in Objects(uid, content, order)
  {
    var refs := Objects(uid, content, order);
    if i == 0 {
      assert refs[0] == GatewayRef(uid, content);
    } else if i <= |order'| {
      assert order'[i - 1] in order;
      var j :| 0 <= j < |order| && order[j] == order'[i - 1];
      assert refs[1 + j] == AttachmentRef(uid, content, order[j]);
    } else {
      assert refs[1 + |order|] == SecretRef(uid, content);
    }
  }

  lemma {:induction false} EnsuringKeepsManifest(s: Store, refs: seq<ObjectRef>, uid: string)
    requires forall i | 0 <= i < |refs| :: WellKinded(refs[i])
    ensures ManifestOf(EnsuredAll(s, refs), uid) == ManifestOf(s, uid)
  {
    if refs != [] {
      EnsuringKeepsManifest(s, refs[..|refs| - 1], uid);
    }
  }

  /** The generation a publication of `generation` will remember: the one the readable manifest
      has, or what it remembers when it has that one already. */
  function Remembered(s: Store, uid: string, generation: Generation): Generation {
    match ManifestOf(s, uid)
    case None => NoGeneration
    case Some(was) => if was.generation == generation then was.previous else was.generation
  }

  lemma PublishedSucceeds(s: Store, uid: string, content: Content, order: seq<string>)
    requires IsOrder(content, order)
    ensures
      var s' := Published(s, uid, content, order);
      && ManifestOf(s', uid).Some? && ManifestOf(s', uid).value.gatewayUid == uid
      && ManifestOf(s', uid).value.generation == Of(content)
      && ManifestOf(s', uid).value.previous == Remembered(s, uid, Of(content))
  {
    var refs := Objects(uid, content, order);
    ObjectsArePlan(uid, content, order);
    EnsuringKeepsManifest(s, refs, uid);
    CommitSetsManifest(EnsuredAll(s, refs), ManifestFor(uid, content, order));
  }

  /** What a publication spares from collection: exactly its own generation, the one it remembers,
      and those some pod reports. */
  lemma RetentionIsExact(s: Store, uid: string, content: Content, order: seq<string>, acks: AckState, g: Generation)
    requires IsOrder(content, order) && g != NoGeneration
    ensures
      var s' := Published(s, uid, content, order);
      && ManifestOf(s', uid).Some?
      && (g in Kept(ManifestOf(s', uid).value, acks) <==>
          g == Of(content) || g == Remembered(s, uid, Of(content)) || exists p | p in acks :: PodAcks(acks[p], uid, g))
  {
    PublishedSucceeds(s, uid, content, order);
    if p :| p in acks && PodAcks(acks[p], uid, g) {
      assert acks[p].gateways[uid] in Acked(acks, uid);
    }
  }

  /** So two publications in a row forget the generation before them, even when it was the last
      one that pods ran before they all moved to the second. */
  lemma SkippedGenerationIsForgotten(s: Store, uid: string, first: Content, skipped: Content, last: Content,
                                     a: seq<string>, b: seq<string>, c: seq<string>, acks: AckState)
    requires IsOrder(first, a) && IsOrder(skipped, b) && IsOrder(last, c)
    requires first != skipped && first != last && skipped != last
    requires forall p | p in acks && uid in acks[p].gateways :: acks[p].gateways[uid] == Of(last)
    ensures
      var s' := Published(Published(Published(s, uid, first, a), uid, skipped, b), uid, last, c);
      && ManifestOf(s', uid).Some?
      && ManifestOf(s', uid).value.previous == Of(skipped)
      && Of(first) !in Kept(ManifestOf(s', uid).value, acks)
  {
    var s1 := Published(s, uid, first, a);
    var s2 := Published(s1, uid, skipped, b);
    PublishedSucceeds(s1, uid, skipped, b);
    PublishedSucceeds(s2, uid, last, c);
    RetentionIsExact(s2, uid, last, c, acks, Of(first));
  }
}

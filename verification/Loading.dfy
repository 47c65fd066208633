/** Verification of a generation by a data-plane pod. */
module Loading {
  import opened Strings
  import opened Compiled
  import opened Building
  import Matching

  datatype LoadError =
    | MissingObject | UnexpectedIdentity | ChecksumMismatch | InvalidPayload | UnexpectedRole
    | UnknownKind | NoGatewayConfig | InvalidGeneration

  datatype Outcome = Loaded(table: GatewayTable) | Refused(error: LoadError)

  /** What the object loop has collected, or the error that stopped it. */
  datatype Parts =
    | Parts(gateway: Option<GatewayConfig>, routes: seq<RouteConfig>, secret: Option<SecretData>)
    | Stopped(error: LoadError)

  function TakeConfigMap(p: Parts, uid: string, ref: ObjectRef, cms: ConfigMaps): Parts
    requires p.Parts?
  {
    if ref.name !in cms then Stopped(MissingObject)
    else
      var cm := cms[ref.name];
      if cm.labels.gatewayUid != uid then Stopped(UnexpectedIdentity)
      else if OfPayload(cm.payload) != ref.checksum then Stopped(ChecksumMismatch)
      else
        match cm.labels.role
        case GatewayConfigRole =>
          if cm.payload.GatewayPayload? then p.(gateway := Some(cm.payload.gateway)) else Stopped(InvalidPayload)
        case AttachmentRole =>
          if cm.payload.RoutePayload? then p.(routes := p.routes + [cm.payload.route]) else Stopped(InvalidPayload)
        case _ => Stopped(UnexpectedRole)
  }

  function TakeSecret(p: Parts, uid: string, ref: ObjectRef, secrets: Secrets): Parts
    requires p.Parts?
  {
    if ref.name !in secrets then Stopped(MissingObject)
    else
      var secret := secrets[ref.name];
      if secret.labels.gatewayUid != uid then Stopped(UnexpectedIdentity)
      else if OfSecret(secret.data) != ref.checksum then Stopped(ChecksumMismatch)
      else p.(secret := Some(secret.data))
  }

  function Take(p: Parts, uid: string, ref: ObjectRef, cms: ConfigMaps, secrets: Secrets): Parts {
    if p.Stopped? then p
    else
      match ref.kind
      case ConfigMapKind => TakeConfigMap(p, uid, ref, cms)
      case SecretKind => TakeSecret(p, uid, ref, secrets)
      case OtherKind => Stopped(UnknownKind)
  }

  function Gathered(uid: string, refs: seq<ObjectRef>, cms: ConfigMaps, secrets: Secrets): Parts {
    if refs == [] then Parts(None, [], None)
    else
      var n := |refs| - 1;
      Take(Gathered(uid, refs[..n], cms, secrets), uid, refs[n], cms, secrets)
  }

  function Load(k: Checks, m: Manifest, cms: ConfigMaps, secrets: Secrets): Outcome {
    var parts := Gathered(m.gatewayUid, m.objects, cms, secrets);
    if parts.Stopped? then Refused(parts.error)
    else if parts.gateway.None? then Refused(NoGatewayConfig)
    else
      match Built(k, m.generation, parts.gateway.value, parts.routes, parts.secret)
      case None => Refused(InvalidGeneration)
      case Some(table) => Loaded(table)
  }

  lemma {:induction false} StoppedStays(uid: string, refs: seq<ObjectRef>, i: nat, cms: ConfigMaps, secrets: Secrets)
    requires i <= |refs| && Gathered(uid, refs[..i], cms, secrets).Stopped?
    ensures Gathered(uid, refs, cms, secrets) == Gathered(uid, refs[..i], cms, secrets)
  {
    if i == |refs| {
      assert refs[..i] == refs;
    } else {
      var n := |refs| - 1;
      assert refs[..n][..i] == refs[..i];
      StoppedStays(uid, refs[..n], i, cms, secrets);
    }
  }

  /** `LoadGeneration`: one pass over the manifest's objects with early returns. */
  method LoadGeneration(k: Checks, m: Manifest, cms: ConfigMaps, secrets: Secrets) returns (outcome: Outcome)
    ensures outcome == Load(k, m, cms, secrets)
  {
    var gateway: Option<GatewayConfig> := None;
    var routes: seq<RouteConfig> := [];
    var secret: Option<SecretData> := None;
    for i := 0 to |m.objects|
      invariant Gathered(m.gatewayUid, m.objects[..i], cms, secrets) == Parts(gateway, routes, secret)
    {
      var parts := Take(Parts(gateway, routes, secret), m.gatewayUid, m.objects[i], cms, secrets);
      assert Gathered(m.gatewayUid, m.objects[..i + 1], cms, secrets) == parts by {
        assert m.objects[..i + 1][..i] == m.objects[..i];
      }
      if parts.Stopped? {
        StoppedStays(m.gatewayUid, m.objects, i + 1, cms, secrets);
        return Refused(parts.error);
      }
      gateway, routes, secret := parts.gateway, parts.routes, parts.secret;
    }
    assert m.objects[..|m.objects|] == m.objects;
    if gateway.None? {
      return Refused(NoGatewayConfig);
    }
    var table := BuildGatewayTable(k, m.generation, gateway.value, routes, secret);
    if table.None? {
      return Refused(InvalidGeneration);
    }
    outcome := Loaded(table.value);
  }

  // --------------------------------------------- what a load has verified --

  /** The object is there, labelled with the gateway, unaltered, and says what its label says. */
  predicate Verified(uid: string, ref: ObjectRef, cms: ConfigMaps, secrets: Secrets) {
    match ref.kind
    case ConfigMapKind =>
      && ref.name in cms
      && var cm := cms[ref.name];
      && cm.labels.gatewayUid == uid && ref.checksum == OfPayload(cm.payload)
      && ((cm.labels.role == GatewayConfigRole && cm.payload.GatewayPayload?) || (cm.labels.role == AttachmentRole && cm.payload.RoutePayload?))
    case SecretKind => ref.name in secrets && secrets[ref.name].labels.gatewayUid == uid && ref.checksum == OfSecret(secrets[ref.name].data)
    case OtherKind => false
  }

  predicate IsGatewayRef(ref: ObjectRef, cms: ConfigMaps) {
    ref.kind == ConfigMapKind && ref.name in cms && cms[ref.name].labels.role == GatewayConfigRole
  }

  lemma {:induction false} GatheredExactly(uid: string, refs: seq<ObjectRef>, cms: ConfigMaps, secrets: Secrets)
    ensures Gathered(uid, refs, cms, secrets).Parts? <==> forall ref | ref in refs :: Verified(uid, ref, cms, secrets)
    ensures Gathered(uid, refs, cms, secrets).Parts? ==>
      (Gathered(uid, refs, cms, secrets).gateway.Some? <==> exists ref | ref in refs :: IsGatewayRef(ref, cms))
  {
    if refs != [] {
      var n := |refs| - 1;
      GatheredExactly(uid, refs[..n], cms, secrets);
      assert refs == refs[..n] + [refs[n]];
      assert refs[n] in refs;
    }
  }

  /** Whatever a manifest lists, its generation loads only when every listed object is verified and
      one is a gateway configuration, and then unless the build refuses it. */
  lemma OnlyVerifiedLoads(k: Checks, m: Manifest, cms: ConfigMaps, secrets: Secrets)
    ensures
      var outcome := Load(k, m, cms, secrets);
      && (outcome.Loaded? || outcome == Refused(InvalidGeneration) <==>
          (forall ref | ref in m.objects :: Verified(m.gatewayUid, ref, cms, secrets)) && exists ref | ref in m.objects :: IsGatewayRef(ref, cms))
  {
    GatheredExactly(m.gatewayUid, m.objects, cms, secrets);
    GatheringNeverInvalid(m.gatewayUid, m.objects, cms, secrets);
  }

  /** The error is that of the first object that is not verified. */
  lemma FirstFailureIsReported(k: Checks, m: Manifest, cms: ConfigMaps, secrets: Secrets, i: nat)
    requires i < |m.objects| && !Verified(m.gatewayUid, m.objects[i], cms, secrets)
    requires forall j | 0 <= j < i :: Verified(m.gatewayUid, m.objects[j], cms, secrets)
    ensures
      var ref := m.objects[i];
      var error := Load(k, m, cms, secrets);
      if ref.kind == OtherKind then error == Refused(UnknownKind)
      else if ref.name !in (if ref.kind == ConfigMapKind then cms.Keys else secrets.Keys) then error == Refused(MissingObject)
      else
        var labels := if ref.kind == ConfigMapKind then cms[ref.name].labels else secrets[ref.name].labels;
        var checksum := if ref.kind == ConfigMapKind then OfPayload(cms[ref.name].payload) else OfSecret(secrets[ref.name].data);
        if labels.gatewayUid != m.gatewayUid then error == Refused(UnexpectedIdentity)
        else if checksum != ref.checksum then error == Refused(ChecksumMismatch)
        else if labels.role != GatewayConfigRole && labels.role != AttachmentRole then error == Refused(UnexpectedRole)
        else error == Refused(InvalidPayload)
  {
    var refs := m.objects;
    GatheredExactly(m.gatewayUid, refs[..i], cms, secrets);
    assert refs[..i + 1][..i] == refs[..i];
    assert forall ref | ref in refs[..i] :: Verified(m.gatewayUid, ref, cms, secrets);
    StoppedStays(m.gatewayUid, refs, i + 1, cms, secrets);
  }

  lemma {:induction false} GatheringNeverInvalid(uid: string, refs: seq<ObjectRef>, cms: ConfigMaps, secrets: Secrets)
    ensures Gathered(uid, refs, cms, secrets) != Stopped(InvalidGeneration)
  {
    if refs != [] {
      GatheringNeverInvalid(uid, refs[..|refs| - 1], cms, secrets);
    }
  }

  /** Objects carry the labels the control plane gave them. */
  ghost predicate WellLabelled(cms: ConfigMaps, secrets: Secrets) {
    && (forall name | name in cms :: cms[name].labels == LabelsFor(name))
    && (forall name | name in secrets :: secrets[name].labels == LabelsFor(name))
  }

  predicate Holds(cms: ConfigMaps, secrets: Secrets, ref: ObjectRef) {
    match ref.kind
    case ConfigMapKind => ref.name in cms && OfPayload(cms[ref.name].payload) == ref.checksum
    case SecretKind => ref.name in secrets && OfSecret(secrets[ref.name].data) == ref.checksum
    case OtherKind => false
  }

  /** Every listed object is there with the listed checksum. */
  ghost predicate HoldsAll(cms: ConfigMaps, secrets: Secrets, refs: seq<ObjectRef>) {
    forall i | 0 <= i < |refs| :: Holds(cms, secrets, refs[i])
  }

  function Chosen<K, V>(m: map<K, V>, keys: seq<K>): seq<V>
    requires forall i | 0 <= i < |keys| :: keys[i] in m
  {
    seq(|keys|, i requires 0 <= i < |keys| => m[keys[i]])
  }

  function RoutesIn(content: Content, order: seq<string>): seq<RouteConfig>
    requires forall i | 0 <= i < |order| :: order[i] in content.routes
  {
    Chosen(content.routes, order)
  }

  function SecretOf(content: Content): Option<SecretData> {
    if content.secret == map[] then None else Some(content.secret)
  }

  /** The table of a whole generation, its routes in the given order. */
  function TableFor(k: Checks, content: Content, order: seq<string>): Option<GatewayTable>
    requires forall i | 0 <= i < |order| :: order[i] in content.routes
  {
    Built(k, Of(content), content.gateway, RoutesIn(content, order), SecretOf(content))
  }

  lemma TakesGateway(uid: string, content: Content, cms: ConfigMaps, secrets: Secrets)
    requires WellLabelled(cms, secrets)
    ensures Gathered(uid, [GatewayRef(uid, content)], cms, secrets) ==
            if Holds(cms, secrets, GatewayRef(uid, content)) then Parts(Some(content.gateway), [], None)
            else Gathered(uid, [GatewayRef(uid, content)], cms, secrets)
    ensures Holds(cms, secrets, GatewayRef(uid, content)) <==> Gathered(uid, [GatewayRef(uid, content)], cms, secrets).Parts?
  {
    var ref := GatewayRef(uid, content);
    assert [ref][..0] == [];
  }

  lemma TakesAttachment(p: Parts, uid: string, content: Content, routeUid: string, cms: ConfigMaps, secrets: Secrets)
    requires WellLabelled(cms, secrets) && p.Parts? && routeUid in content.routes
    ensures
      var ref := AttachmentRef(uid, content, routeUid);
      var taken := Take(p, uid, ref, cms, secrets);
      && (Holds(cms, secrets, ref) <==> taken.Parts?)
      && (taken.Parts? ==> taken == p.(routes := p.routes + [content.routes[routeUid]]))
  {
  }

  lemma TakesSecret(p: Parts, uid: string, content: Content, cms: ConfigMaps, secrets: Secrets)
    requires WellLabelled(cms, secrets) && p.Parts?
    ensures
      var ref := SecretRef(uid, content);
      var taken := Take(p, uid, ref, cms, secrets);
      && (Holds(cms, secrets, ref) <==> taken.Parts?)
      && (taken.Parts? ==> taken == p.(secret := Some(content.secret)))
  {
  }

  lemma {:induction false} GathersAttachments(uid: string, content: Content, order: seq<string>, cms: ConfigMaps, secrets: Secrets)
    requires WellLabelled(cms, secrets)
    requires forall i | 0 <= i < |order| :: order[i] in content.routes
    ensures
      var refs := [GatewayRef(uid, content)] + AttachmentRefs(uid, content, order);
      var parts := Gathered(uid, refs, cms, secrets);
      && (HoldsAll(cms, secrets, refs) <==> parts.Parts?)
      && (parts.Parts? ==> parts == Parts(Some(content.gateway), RoutesIn(content, order), None))
  {
    var refs := [GatewayRef(uid, content)] + AttachmentRefs(uid, content, order);
    if order == [] {
      assert refs == [GatewayRef(uid, content)];
      TakesGateway(uid, content, cms, secrets);
    } else {
      var n := |order| - 1;
      var front := [GatewayRef(uid, content)] + AttachmentRefs(uid, content, order[..n]);
      var last := AttachmentRef(uid, content, order[n]);
      assert refs == front + [last];
      GathersAttachments(uid, content, order[..n], cms, secrets);
      var parts := Gathered(uid, front, cms, secrets);
      assert Gathered(uid, refs, cms, secrets) == Take(parts, uid, last, cms, secrets) by {
        assert refs[..|refs| - 1] == front;
      }
      if parts.Parts? {
        TakesAttachment(parts, uid, content, order[n], cms, secrets);
        assert RoutesIn(content, order) == RoutesIn(content, order[..n]) + [content.routes[order[n]]];
      }
      HoldsAllGrows(cms, secrets, front, last);
    }
  }

  lemma HoldsAllGrows(cms: ConfigMaps, secrets: Secrets, refs: seq<ObjectRef>, ref: ObjectRef)
    ensures HoldsAll(cms, secrets, refs + [ref]) <==> HoldsAll(cms, secrets, refs) && Holds(cms, secrets, ref)
  {
    var all := refs + [ref];
    assert all[|refs|] == ref;
    if HoldsAll(cms, secrets, all) {
      forall i | 0 <= i < |refs|
        ensures Holds(cms, secrets, refs[i])
      {
        assert all[i] == refs[i];
      }
    }
  }

  lemma GathersObjects(uid: string, content: Content, order: seq<string>, cms: ConfigMaps, secrets: Secrets)
    requires WellLabelled(cms, secrets)
    requires forall i | 0 <= i < |order| :: order[i] in content.routes
    ensures
      var refs := Objects(uid, content, order);
      var parts := Gathered(uid, refs, cms, secrets);
      && (HoldsAll(cms, secrets, refs) <==> parts.Parts?)
      && (parts.Parts? ==> parts == Parts(Some(content.gateway), RoutesIn(content, order), SecretOf(content)))
  {
    var refs := Objects(uid, content, order);
    var front := [GatewayRef(uid, content)] + AttachmentRefs(uid, content, order);
    GathersAttachments(uid, content, order, cms, secrets);
    if content.secret == map[] {
      assert refs == front;
    } else {
      assert refs == front + [SecretRef(uid, content)];
      assert refs[..|refs| - 1] == front;
      var parts := Gathered(uid, front, cms, secrets);
      if parts.Parts? {
        TakesSecret(parts, uid, content, cms, secrets);
      }
      HoldsAllGrows(cms, secrets, front, SecretRef(uid, content));
    }
  }

  /** A load succeeds exactly when every object of the generation is there unaltered and the
      payloads pass the build's own checks, and then the table is that of the whole
      generation and of nothing else. */
  lemma LoadIsWholeGeneration(k: Checks, uid: string, m: Manifest, order: seq<string>, cms: ConfigMaps, secrets: Secrets)
    requires Authentic(uid, m, order) && WellLabelled(cms, secrets)
    ensures
      var content := m.generation.content;
      var outcome := Load(k, m, cms, secrets);
      && (outcome.Loaded? <==> HoldsAll(cms, secrets, m.objects) && Admitted(k, content.gateway, SecretOf(content)))
      && (outcome.Loaded? ==> Some(outcome.table) == TableFor(k, content, order))
  {
    GathersObjects(uid, m.generation.content, order, cms, secrets);
  }

  // ------------------------------------------- every pod serves the same --

  lemma {:induction false} OrdersAreAlike(a: seq<string>, b: seq<string>)
    requires forall i, j | 0 <= i < j < |a| :: a[i] != a[j]
    requires forall i, j | 0 <= i < j < |b| :: b[i] != b[j]
    requires forall x :: x in a <==> x in b
    ensures multiset(a) == multiset(b)
  {
    forall x
      ensures multiset(a)[x] == multiset(b)[x]
    {
      DistinctCount(a, x);
      DistinctCount(b, x);
    }
  }

  lemma {:induction false} DistinctCount(a: seq<string>, x: string)
    requires forall i, j | 0 <= i < j < |a| :: a[i] != a[j]
    ensures multiset(a)[x] == if x in a then 1 else 0
  {
    if a != [] {
      var n := |a| - 1;
      assert a == a[..n] + [a[n]];
      DistinctCount(a[..n], x);
    }
  }

  lemma {:induction false} ChosenIgnoresOrder<K, V>(m: map<K, V>, a: seq<K>, b: seq<K>)
    requires forall i | 0 <= i < |a| :: a[i] in m
    requires forall i | 0 <= i < |b| :: b[i] in m
    requires multiset(a) == multiset(b)
    ensures multiset(Chosen(m, a)) == multiset(Chosen(m, b))
  {
    if a == [] {
      assert |multiset(b)| == 0;
    } else {
      var n := |a| - 1;
      var c, d := Extract(a, b);
      assert forall i | 0 <= i < |c| :: c[i] == b[i];
      assert forall i | 0 <= i < |d| :: d[i] == b[|c| + 1 + i];
      ChosenIgnoresOrder(m, a[..n], c + d);
      ChosenMoves(m, c, a[n], d);
      assert Chosen(m, a) == Chosen(m, a[..n]) + [m[a[n]]];
    }
  }

  lemma ChosenMoves<K, V>(m: map<K, V>, c: seq<K>, x: K, d: seq<K>)
    requires x in m
    requires forall i | 0 <= i < |c| :: c[i] in m
    requires forall i | 0 <= i < |d| :: d[i] in m
    ensures multiset(Chosen(m, c + [x] + d)) == multiset(Chosen(m, c + d)) + multiset{m[x]}
  {
    var u, v := Chosen(m, c), Chosen(m, d);
    assert Chosen(m, c + [x] + d) == u + [m[x]] + v;
    assert Chosen(m, c + d) == u + v;
  }

  /** Two pods that loaded one generation from manifests in different orders choose the same
      listener, route and rule for every request on a well-formed port. */
  lemma PodsOfOneGenerationAgree(k: Checks, content: Content, order: seq<string>, order': seq<string>, port: int,
                                 host: string, r: Matching.Request, w: Option<Matching.Candidate>, w': Option<Matching.Candidate>)
    requires IsOrder(content, order) && IsOrder(content, order')
    requires TableFor(k, content, order).Some? && TableFor(k, content, order').Some?
    requires port in TableFor(k, content, order).value.byPort
    ensures port in TableFor(k, content, order').value.byPort
    ensures
      var t, t' := TableFor(k, content, order).value.byPort[port], TableFor(k, content, order').value.byPort[port];
      Matching.WellFormed(t') && Matching.Resolves(t, host, r, w) && Matching.Resolves(t', host, r, w') ==> w == w'
  {
    OrdersAreAlike(order, order');
    ChosenIgnoresOrder(content.routes, order, order');
    RouteOrderOnlyPermutes(k, Of(content), content.gateway, RoutesIn(content, order), RoutesIn(content, order'), SecretOf(content), port);
    var t, t' := TableFor(k, content, order).value.byPort[port], TableFor(k, content, order').value.byPort[port];
    if Matching.WellFormed(t') && Matching.Resolves(t, host, r, w) && Matching.Resolves(t', host, r, w') {
      Matching.PodsAgree(t, t', host, r, w, w');
    }
  }
}

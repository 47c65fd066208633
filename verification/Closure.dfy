/** The committed manifest of an owned gateway names only objects that exist unaltered, at
    every step and crash point, and collection never deletes what somebody may still need. */
module Closure {
  import opened Strings
  import opened Compiled
  import opened Building
  import opened Loading
  import opened Publishing
  import opened Protocol
  import opened Safety

  // ------------------------------------------------------------ invariant --

  /** The writes of a publication nobody interfered with are in place. */
  ghost predicate WritesHold(store: Store, refs: seq<ObjectRef>, done: nat) {
    Unaltered(store, refs) && forall i | 0 <= i < done && i < |refs| :: Taken(store, refs[i])
  }

  ghost predicate DoomedRightly(world: World, m: Manifest, doomed: set<Name>) {
    && (forall name | name in doomed :: Doomed(LabelsFor(name), m.gatewayUid, Kept(m, world.acks)))
    && (doomed != {} ==> EveryHealthyPodAcks(world.acks, m.gatewayUid, m.generation))
  }

  ghost predicate PhaseHolds(s: State) {
    match s.phase
    case Idle => true
    case Gathering(_, _) => true
    case Listing(_, _, cms) => WellLabelled(cms, map[])
    case Syncing(world) => WellLabelled(world.cms, world.secrets)
    case Writing(world, uid, content, order, done) =>
      && WellLabelled(world.cms, world.secrets)
      && uid in world.owned
      && IsOrder(content, order)
      && (uid in s.clean ==> WritesHold(s.store, Objects(uid, content, order), done))
    case Collecting(world, m, doomed) =>
      && WellLabelled(world.cms, world.secrets)
      && m.gatewayUid in world.owned
      && DoomedRightly(world, m, doomed)
      && (m.gatewayUid in s.sound ==> ManifestOf(s.store, m.gatewayUid) == Some(m))
    case Sweeping(owned, doomed) => forall name | name in doomed :: Orphaned(LabelsFor(name), owned)
  }

  ghost predicate SoundIsClosed(s: State) {
    forall uid | uid in s.sound :: Closed(s.store, uid)
  }

  // ---------------------------------------------------- effects on closure --

  lemma AuthenticNames(uid: string, m: Manifest, order: seq<string>, i: nat)
    requires Authentic(uid, m, order) && i < |m.objects|
    ensures WellKinded(m.objects[i]) && !m.objects[i].name.ManifestName?
    ensures LabelsFor(m.objects[i].name).gatewayUid == uid && m.objects[i].name.uid == uid
    ensures LabelsFor(m.objects[i].name).generation == m.generation
  {
  }

  lemma VouchedNames(committed: set<Commit>, uid: string, m: Manifest, i: nat)
    requires Vouched(committed, uid, m) && i < |m.objects|
    ensures WellKinded(m.objects[i]) && !m.objects[i].name.ManifestName?
    ensures m.objects[i].name.uid == uid
    ensures LabelsFor(m.objects[i].name).generation == m.generation
    ensures m.generation != NoGeneration
  {
    var order :| Authentic(uid, m, order);
    AuthenticNames(uid, m, order, i);
  }

  lemma StoredIsVouched(committed: set<Commit>, store: Store, uid: string)
    requires TrustedStore(committed, store) && ManifestOf(store, uid).Some?
    ensures Vouched(committed, uid, ManifestOf(store, uid).value)
  {
    assert TrustedConfigMap(committed, ManifestName(uid), store.cms[ManifestName(uid)]);
  }

  /** Two stores that agree on a gateway's manifest and keep its objects. */
  lemma ClosedCarries(store: Store, store': Store, uid: string)
    requires Closed(store, uid) && ManifestOf(store', uid) == ManifestOf(store, uid)
    requires
      var refs := ManifestOf(store, uid).value.objects;
      forall i | 0 <= i < |refs| && Holds(store.cms, store.secrets, refs[i]) :: Holds(store'.cms, store'.secrets, refs[i])
    ensures Closed(store', uid)
  {
  }

  lemma EnsuringKeepsHeld(store: Store, ref: ObjectRef, other: ObjectRef)
    requires Holds(store.cms, store.secrets, other)
    ensures Holds(Ensured(store, ref).cms, Ensured(store, ref).secrets, other)
  {
  }

  lemma EnsuringKeepsClosed(store: Store, ref: ObjectRef, uid: string)
    requires WellKinded(ref) && Closed(store, uid)
    ensures Closed(Ensured(store, ref), uid)
  {
    var refs := ManifestOf(store, uid).value.objects;
    forall i | 0 <= i < |refs| && Holds(store.cms, store.secrets, refs[i])
      ensures Holds(Ensured(store, ref).cms, Ensured(store, ref).secrets, refs[i])
    {
      EnsuringKeepsHeld(store, ref, refs[i]);
    }
    ClosedCarries(store, Ensured(store, ref), uid);
  }

  lemma DeletingKeepsClosed(committed: set<Commit>, store: Store, name: Name, uid: string)
    requires TrustedStore(committed, store) && Closed(store, uid)
    requires name.uid == uid ==>
      LabelsFor(name).generation != NoGeneration && LabelsFor(name).generation != ManifestOf(store, uid).value.generation
    ensures Closed(Delete(store, name), uid)
    ensures ManifestOf(Delete(store, name), uid) == ManifestOf(store, uid)
  {
    StoredIsVouched(committed, store, uid);
    var m := ManifestOf(store, uid).value;
    forall i | 0 <= i < |m.objects| && Holds(store.cms, store.secrets, m.objects[i])
      ensures Holds(Delete(store, name).cms, Delete(store, name).secrets, m.objects[i])
    {
      VouchedNames(committed, uid, m, i);
    }
    ClosedCarries(store, Delete(store, name), uid);
  }

  /** An object of another gateway is written. */
  lemma ElsewhereKeepsClosed(committed: set<Commit>, store: Store, store': Store, name: Name, uid: string)
    requires TrustedStore(committed, store) && Closed(store, uid) && name.uid != uid
    requires store'.cms - {name} == store.cms - {name} && store'.secrets - {name} == store.secrets - {name}
    ensures Closed(store', uid) && ManifestOf(store', uid) == ManifestOf(store, uid)
  {
    StoredIsVouched(committed, store, uid);
    var m := ManifestOf(store, uid).value;
    SameElsewhere(store, store', name, ManifestName(uid));
    forall i | 0 <= i < |m.objects| && Holds(store.cms, store.secrets, m.objects[i])
      ensures Holds(store'.cms, store'.secrets, m.objects[i])
    {
      VouchedNames(committed, uid, m, i);
      SameElsewhere(store, store', name, m.objects[i].name);
    }
    ClosedCarries(store, store', uid);
  }

  lemma SameElsewhere(store: Store, store': Store, name: Name, other: Name)
    requires other != name
    requires store'.cms - {name} == store.cms - {name} && store'.secrets - {name} == store.secrets - {name}
    ensures (other in store'.cms <==> other in store.cms) && (other in store.cms ==> store'.cms[other] == store.cms[other])
    ensures (other in store'.secrets <==> other in store.secrets) && (other in store.secrets ==> store'.secrets[other] == store.secrets[other])
  {
    assert other in store.cms <==> other in store.cms - {name};
    assert other in store'.cms <==> other in store'.cms - {name};
    assert other in store.cms ==> (store.cms - {name})[other] == store.cms[other];
    assert other in store'.cms ==> (store'.cms - {name})[other] == store'.cms[other];
    assert other in store.secrets <==> other in store.secrets - {name};
    assert other in store'.secrets <==> other in store'.secrets - {name};
    assert other in store.secrets ==> (store.secrets - {name})[other] == store.secrets[other];
    assert other in store'.secrets ==> (store'.secrets - {name})[other] == store'.secrets[other];
  }

  lemma CommittingKeepsOthersClosed(committed: set<Commit>, store: Store, m: Manifest, uid: string)
    requires TrustedStore(committed, store) && Closed(store, uid) && m.gatewayUid != uid
    ensures Closed(Committed(store, m), uid)
  {
    ElsewhereKeepsClosed(committed, store, Committed(store, m), ManifestName(m.gatewayUid), uid);
  }

  lemma CommittingCloses(store: Store, uid: string, content: Content, order: seq<string>)
    requires IsOrder(content, order)
    requires WritesHold(store, Objects(uid, content, order), |Objects(uid, content, order)|)
    ensures Closed(Committed(store, ManifestFor(uid, content, order)), uid)
  {
    var refs := Objects(uid, content, order);
    var m := ManifestFor(uid, content, order);
    ObjectsArePlan(uid, content, order);
    CommitSetsManifest(store, m);
    forall i | 0 <= i < |refs|
      ensures Holds(Committed(store, m).cms, Committed(store, m).secrets, refs[i])
    {
      CommitKeepsObjects(store, m, refs[i]);
    }
  }

  lemma WritingAdvances(store: Store, refs: seq<ObjectRef>, done: nat)
    requires Plan(refs) && done < |refs| && WritesHold(store, refs, done)
    ensures WritesHold(Ensured(store, refs[done]), refs, done + 1)
  {
    EnsuredHoldsOwn(store, refs[done]);
    forall i | 0 <= i < |refs| && i != done
      ensures Taken(Ensured(store, refs[done]), refs[i]) <==> Taken(store, refs[i])
      ensures Holds(Ensured(store, refs[done]).cms, Ensured(store, refs[done]).secrets, refs[i]) <==> Holds(store.cms, store.secrets, refs[i])
    {
      EnsuredKeepsOther(store, refs[done], refs[i]);
    }
  }

  lemma ElsewhereKeepsWrites(store: Store, store': Store, name: Name, uid: string, content: Content, order: seq<string>, done: nat)
    requires IsOrder(content, order) && name.uid != uid
    requires store'.cms - {name} == store.cms - {name} && store'.secrets - {name} == store.secrets - {name}
    requires WritesHold(store, Objects(uid, content, order), done)
    ensures WritesHold(store', Objects(uid, content, order), done)
  {
    var refs := Objects(uid, content, order);
    forall i | 0 <= i < |refs|
      ensures Taken(store', refs[i]) <==> Taken(store, refs[i])
      ensures Holds(store'.cms, store'.secrets, refs[i]) <==> Holds(store.cms, store.secrets, refs[i])
    {
      AuthenticNames(uid, ManifestFor(uid, content, order), order, i);
      SameElsewhere(store, store', name, refs[i].name);
    }
  }

  // ---------------------------------------------------------------- steps --

  ghost predicate ClosureInvariant(s: State) {
    TrustedStore(s.committed, s.store) && SoundIsClosed(s) && PhaseHolds(s)
  }

  /** The object a step from outside touches. */
  function Touched(step: Step): Option<Name> {
    match step
    case OutsideDelete(name) => Some(name)
    case OutsideAlter(name, _) => Some(name)
    case OutsideAlterSecret(name, _) => Some(name)
    case OutsideCorrupt(uid) => Some(ManifestName(uid))
    case _ => None
  }

  lemma OutsideKeepsClosure(k: Checks, s: State, step: Step)
    requires ClosureInvariant(s) && Enabled(s, step) && Touched(step).Some?
    ensures SoundIsClosed(Do(k, s, step)) && PhaseHolds(Do(k, s, step))
  {
    DisturbanceKeepsClosure(s, Do(k, s, step), Touched(step).value);
  }

  lemma DisturbanceKeepsClosure(s: State, s': State, name: Name)
    requires ClosureInvariant(s)
    requires s'.phase == s.phase && s'.clean == s.clean - {name.uid} && s'.sound == s.sound - {name.uid}
    requires s'.store.cms - {name} == s.store.cms - {name} && s'.store.secrets - {name} == s.store.secrets - {name}
    ensures SoundIsClosed(s') && PhaseHolds(s')
  {
    forall uid | uid in s'.sound
      ensures Closed(s'.store, uid) && ManifestOf(s'.store, uid) == ManifestOf(s.store, uid)
    {
      ElsewhereKeepsClosed(s.committed, s.store, s'.store, name, uid);
    }
    if s.phase.Writing? && s.phase.uid in s'.clean {
      ElsewhereKeepsWrites(s.store, s'.store, name, s.phase.uid, s.phase.content, s.phase.order, s.phase.done);
    }
  }

  lemma WriteKeepsClosure(k: Checks, s: State)
    requires ClosureInvariant(s) && Enabled(s, WriteObject)
    ensures SoundIsClosed(Do(k, s, WriteObject)) && PhaseHolds(Do(k, s, WriteObject))
  {
    var refs, done := Refs(s.phase), s.phase.done;
    ObjectsArePlan(s.phase.uid, s.phase.content, s.phase.order);
    forall uid | uid in s.sound
      ensures Closed(Ensured(s.store, refs[done]), uid)
    {
      EnsuringKeepsClosed(s.store, refs[done], uid);
    }
    if s.phase.uid in s.clean {
      WritingAdvances(s.store, refs, done);
    }
  }

  lemma DoomedByIsRight(world: World, m: Manifest)
    requires WellLabelled(world.cms, world.secrets)
    ensures DoomedRightly(world, m, DoomedBy(world, m))
  {
  }

  lemma CommitKeepsClosure(k: Checks, s: State)
    requires ClosureInvariant(s) && Enabled(s, CommitManifest)
    ensures SoundIsClosed(Do(k, s, CommitManifest)) && PhaseHolds(Do(k, s, CommitManifest))
  {
    var uid := s.phase.uid;
    var m := ManifestFor(uid, s.phase.content, s.phase.order);
    var s' := Do(k, s, CommitManifest);
    CommitSetsManifest(s.store, m);
    DoomedByIsRight(s.phase.world, Succeeding(s.store, m));
    forall u | u in s'.sound
      ensures Closed(s'.store, u)
    {
      if u == uid {
        CommittingCloses(s.store, uid, s.phase.content, s.phase.order);
      } else {
        CommittingKeepsOthersClosed(s.committed, s.store, m, u);
      }
    }
  }

  lemma CollectKeepsClosure(k: Checks, s: State, name: Name)
    requires ClosureInvariant(s) && Enabled(s, Collect(name))
    ensures SoundIsClosed(Do(k, s, Collect(name))) && PhaseHolds(Do(k, s, Collect(name)))
  {
    var m := s.phase.manifest;
    assert Doomed(LabelsFor(name), m.gatewayUid, Kept(m, s.phase.world.acks));
    forall u | u in s.sound
      ensures Closed(Delete(s.store, name), u) && ManifestOf(Delete(s.store, name), u) == ManifestOf(s.store, u)
    {
      DeletingKeepsClosed(s.committed, s.store, name, u);
    }
  }

  lemma SweepKeepsClosure(k: Checks, s: State, name: Name)
    requires ClosureInvariant(s) && Enabled(s, Sweep(name))
    ensures SoundIsClosed(Do(k, s, Sweep(name))) && PhaseHolds(Do(k, s, Sweep(name)))
  {
    forall u | u in s.sound - {name.uid}
      ensures Closed(Delete(s.store, name), u)
    {
      DeletingKeepsClosed(s.committed, s.store, name, u);
    }
  }

  predicate IsControlStep(step: Step) {
    step.BeginSync? || step.ListConfigMaps? || step.ListSecrets? || step.BeginPublish? || step.EndPublish? || step.BeginSweep? ||
    step.EndSweep? || step.Abort? || step.Crash?
  }

  lemma ControlKeepsClosure(k: Checks, s: State, step: Step)
    requires ClosureInvariant(s) && Enabled(s, step) && IsControlStep(step)
    ensures SoundIsClosed(Do(k, s, step)) && PhaseHolds(Do(k, s, step))
  {
    if step.ListConfigMaps? {
      assert forall name | name in s.store.cms :: TrustedConfigMap(s.committed, name, s.store.cms[name]);
    }
  }

  lemma StepKeepsClosure(k: Checks, s: State, step: Step)
    requires ClosureInvariant(s) && Enabled(s, step)
    ensures SoundIsClosed(Do(k, s, step)) && PhaseHolds(Do(k, s, step))
  {
    if Touched(step).Some? {
      OutsideKeepsClosure(k, s, step);
    } else if IsControlStep(step) {
      ControlKeepsClosure(k, s, step);
    } else if IsPodStep(step) || IsPollStep(step) {
      DataPlaneLeavesControl(k, s, step);
      ClosureCarries(s, Do(k, s, step));
    } else {
      match step
      case WriteObject => WriteKeepsClosure(k, s);
      case CommitManifest => CommitKeepsClosure(k, s);
      case Collect(name) => CollectKeepsClosure(k, s, name);
      case Sweep(name) => SweepKeepsClosure(k, s, name);
    }
  }

  lemma ClosureCarries(s: State, s': State)
    requires SoundIsClosed(s) && PhaseHolds(s)
    requires s'.store == s.store && s'.phase == s.phase && s'.clean == s.clean && s'.sound == s.sound
    ensures SoundIsClosed(s') && PhaseHolds(s')
  {
  }

  lemma {:induction false} RunKeepsClosure(k: Checks, run: Run)
    requires IsRun(k, run)
    ensures ClosureInvariant(Last(run))
  {
    RunKeepsInvariant(k, run);
    if run.Then? {
      RunKeepsClosure(k, run.before);
      StepKeepsClosure(k, Last(run.before), run.step);
    }
  }

  // ----------------------------------------------------------- collection --

  /** Generation collection deletes nothing that is desired, previous or acknowledged by a pod
      in the poll the sync was given, and only once every healthy pod of that poll runs the
      desired generation. */
  lemma CollectionSparesRetained(k: Checks, run: Run, name: Name)
    requires IsRun(k, run) && Enabled(Last(run), Collect(name))
    ensures
      var s := Last(run);
      var m, acks := s.phase.manifest, s.phase.world.acks;
      var generation := LabelsFor(name).generation;
      && name.uid == m.gatewayUid && generation != NoGeneration
      && generation != m.generation && generation != m.previous
      && (forall p | p in acks && m.gatewayUid in acks[p].gateways :: acks[p].gateways[m.gatewayUid] != generation)
      && EveryHealthyPodAcks(acks, m.gatewayUid, m.generation)
      && (m.gatewayUid in s.sound ==> ManifestOf(s.store, m.gatewayUid) == Some(m))
  {
    RunKeepsClosure(k, run);
    var s := Last(run);
    assert Doomed(LabelsFor(name), s.phase.manifest.gatewayUid, Kept(s.phase.manifest, s.phase.world.acks));
  }

  /** Orphan collection deletes nothing of a gateway the sync owns. */
  lemma SweepSparesOwned(k: Checks, run: Run, name: Name)
    requires IsRun(k, run) && Enabled(Last(run), Sweep(name))
    ensures name.uid !in Last(run).phase.owned
  {
    RunKeepsClosure(k, run);
  }

  /** A collecting or sweeping step deletes the object of its name, of either kind, and no other. */
  lemma DeletionIsExact(k: Checks, s: State, step: Step, name: Name)
    requires Enabled(s, step) && (step.Collect? || step.Sweep?)
    ensures
      var store, store' := s.store, Do(k, s, step).store;
      && (name in store'.cms <==> name in store.cms && name != step.name)
      && (name in store'.secrets <==> name in store.secrets && name != step.name)
      && (name in store'.cms ==> store'.cms[name] == store.cms[name])
      && (name in store'.secrets ==> store'.secrets[name] == store.secrets[name])
  {
  }

  /** And it sets out to delete every listed object of every other gateway. */
  lemma SweepIsExact(k: Checks, run: Run, name: Name)
    requires IsRun(k, run) && run.Then? && run.step == BeginSweep
    ensures
      var world := Last(run.before).phase.world;
      name in Last(run).phase.doomed <==>
      (name in world.cms || name in world.secrets) && name.uid != "" && name.uid !in world.owned
  {
    RunKeepsClosure(k, run.before);
    assert LabelsFor(name).gatewayUid == name.uid;
  }

  // ---------------------------------------------------------- restoration --

  /** A publication that began over unaltered objects and that neither the environment nor a
      crash has interrupted since. */
  ghost predicate Restoring(run: Run, uid: string, content: Content, order: seq<string>) {
    && run.Then?
    && IsOrder(content, order)
    && (if run.step == BeginPublish(uid, content, order) then
          Unaltered(Last(run.before).store, Objects(uid, content, order))
        else
          && Restoring(run.before, uid, content, order)
          && !(Touched(run.step).Some? && Touched(run.step).value.uid == uid)
          && !run.step.Abort? && !run.step.Crash? && !run.step.CommitManifest?)
  }

  predicate Publishes(phase: Phase, uid: string, content: Content, order: seq<string>) {
    phase.Writing? && phase.uid == uid && phase.content == content && phase.order == order
  }

  lemma {:induction false} RestoringIsClean(k: Checks, run: Run, uid: string, content: Content, order: seq<string>)
    requires IsRun(k, run) && Restoring(run, uid, content, order)
    ensures uid in Last(run).clean && Publishes(Last(run).phase, uid, content, order)
  {
    if run.step != BeginPublish(uid, content, order) {
      RestoringIsClean(k, run.before, uid, content, order);
      PublicationContinues(k, Last(run.before), run.step);
    }
  }

  lemma PublicationContinues(k: Checks, s: State, step: Step)
    requires s.phase.Writing? && Enabled(s, step)
    requires !(Touched(step).Some? && Touched(step).value.uid == s.phase.uid)
    requires !step.Abort? && !step.Crash? && !step.CommitManifest?
    ensures
      var s' := Do(k, s, step);
      && Publishes(s'.phase, s.phase.uid, s.phase.content, s.phase.order)
      && (s.phase.uid in s.clean ==> s.phase.uid in s'.clean)
  {
    if IsPodStep(step) || IsPollStep(step) {
      DataPlaneLeavesControl(k, s, step);
    }
  }

  /** From any reachable state, one uninterrupted publication over unaltered survivors makes
      the manifest closed again, whatever the pods and other gateways do meanwhile. */
  lemma PublicationRestores(k: Checks, run: Run, uid: string, content: Content, order: seq<string>)
    requires IsRun(k, run) && run.Then? && run.step == CommitManifest
    requires Restoring(run.before, uid, content, order)
    ensures Closed(Last(run).store, uid)
    ensures ManifestOf(Last(run).store, uid).value.generation == Of(content)
  {
    RestoringIsClean(k, run.before, uid, content, order);
    RunKeepsClosure(k, run);
    CommitSetsManifest(Last(run.before).store, ManifestFor(uid, content, order));
  }

  // ------------------------------------------------- continuous ownership --

  predicate EverOwned(run: Run, uid: string) {
    run.Then? && ((run.step.BeginSync? && uid in run.step.owned) || EverOwned(run.before, uid))
  }

  /** Once a sync owns the gateway, every later one does. */
  predicate ContinuouslyOwned(run: Run, uid: string) {
    run.Then? ==>
      && ContinuouslyOwned(run.before, uid)
      && (run.step.BeginSync? && EverOwned(run.before, uid) ==> uid in run.step.owned)
  }

  /** Nobody outside touches the objects of the gateway. */
  predicate Untouched(run: Run, uid: string) {
    run.Then? ==> Untouched(run.before, uid) && !(Touched(run.step).Some? && Touched(run.step).value.uid == uid)
  }

  predicate Canonical(name: Name, payload: Payload) {
    match name
    case GatewayConfigName(_, Of(content)) => payload == GatewayPayload(content.gateway)
    case AttachmentName(_, route, Of(content)) => route in content.routes && payload == RoutePayload(content.routes[route])
    case _ => false
  }

  predicate CanonicalSecret(name: Name, data: SecretData) {
    name.TlsSecretName? && name.generation.Of? && data == name.generation.content.secret
  }

  /** Every generation object of the gateway says what its name stands for. */
  ghost predicate Pristine(store: Store, uid: string) {
    && (forall name | name in store.cms && name.uid == uid && !name.ManifestName? :: Canonical(name, store.cms[name].payload))
    && (forall name | name in store.secrets && name.uid == uid :: CanonicalSecret(name, store.secrets[name].data))
  }

  ghost predicate Absent(store: Store, uid: string) {
    (forall name | name in store.cms :: name.uid != uid) && (forall name | name in store.secrets :: name.uid != uid)
  }

  predicate Owns(phase: Phase, uid: string) {
    match phase
    case Idle => true
    case Gathering(_, owned) => uid in owned
    case Listing(_, owned, _) => uid in owned
    case Syncing(world) => uid in world.owned
    case Writing(world, _, _, _, _) => uid in world.owned
    case Collecting(world, _, _) => uid in world.owned
    case Sweeping(owned, _) => uid in owned
  }

  ghost predicate Cared(s: State, ever: bool, uid: string) {
    && (!s.phase.Idle? ==> (Owns(s.phase, uid) <==> ever))
    && (!ever ==> Absent(s.store, uid))
    && Pristine(s.store, uid)
    && (ManifestOf(s.store, uid).Some? ==> uid in s.sound)
    && (s.phase.Writing? && s.phase.uid == uid ==> uid in s.clean)
  }

  lemma PristineIsUnaltered(store: Store, uid: string, content: Content, order: seq<string>)
    requires Pristine(store, uid) && IsOrder(content, order)
    ensures Unaltered(store, Objects(uid, content, order))
  {
    var refs := Objects(uid, content, order);
    forall i | 0 <= i < |refs| && Taken(store, refs[i])
      ensures Holds(store.cms, store.secrets, refs[i])
    {
      AuthenticNames(uid, ManifestFor(uid, content, order), order, i);
    }
  }

  lemma ElsewhereKeepsCare(s: State, s': State, ever: bool, name: Name, uid: string)
    requires Cared(s, ever, uid) && name.uid != uid && s'.phase == s.phase
    requires s'.clean == s.clean - {name.uid} && s'.sound == s.sound - {name.uid}
    requires s'.store.cms - {name} == s.store.cms - {name} && s'.store.secrets - {name} == s.store.secrets - {name}
    ensures Cared(s', ever, uid)
  {
    forall other: Name | other.uid == uid
      ensures (other in s'.store.cms <==> other in s.store.cms) && (other in s.store.cms ==> s'.store.cms[other] == s.store.cms[other])
      ensures (other in s'.store.secrets <==> other in s.store.secrets) &&
              (other in s.store.secrets ==> s'.store.secrets[other] == s.store.secrets[other])
    {
      SameElsewhere(s.store, s'.store, name, other);
    }
    assert ManifestOf(s'.store, uid) == ManifestOf(s.store, uid);
  }

  predicate CanonicalRef(ref: ObjectRef) {
    match ref
    case ObjectRef(ConfigMapKind, name, OfPayload(payload)) => Canonical(name, payload)
    case ObjectRef(SecretKind, name, OfSecret(data)) => CanonicalSecret(name, data)
    case _ => false
  }

  lemma ObjectsAreCanonical(uid: string, content: Content, order: seq<string>, i: nat)
    requires IsOrder(content, order) && i < |Objects(uid, content, order)|
    ensures CanonicalRef(Objects(uid, content, order)[i])
  {
  }

  lemma EnsuringKeepsPristine(store: Store, ref: ObjectRef, uid: string)
    requires Pristine(store, uid) && CanonicalRef(ref) && WellKinded(ref)
    ensures Pristine(Ensured(store, ref), uid)
    ensures ManifestOf(Ensured(store, ref), uid) == ManifestOf(store, uid)
    ensures ref.name.uid != uid && Absent(store, uid) ==> Absent(Ensured(store, ref), uid)
  {
  }

  lemma WriteKeepsCare(k: Checks, s: State, ever: bool, uid: string)
    requires ClosureInvariant(s) && Cared(s, ever, uid) && Enabled(s, WriteObject)
    ensures Cared(Do(k, s, WriteObject), ever, uid)
  {
    AuthenticNames(s.phase.uid, ManifestFor(s.phase.uid, s.phase.content, s.phase.order), s.phase.order, s.phase.done);
    ObjectsAreCanonical(s.phase.uid, s.phase.content, s.phase.order, s.phase.done);
    EnsuringKeepsPristine(s.store, Refs(s.phase)[s.phase.done], uid);
  }

  lemma CommitKeepsCare(k: Checks, s: State, ever: bool, uid: string)
    requires ClosureInvariant(s) && Cared(s, ever, uid) && Enabled(s, CommitManifest)
    ensures Cared(Do(k, s, CommitManifest), ever, uid)
  {
  }

  lemma DeleteKeepsCare(k: Checks, s: State, step: Step, ever: bool, uid: string)
    requires ClosureInvariant(s) && Cared(s, ever, uid) && Enabled(s, step) && (step.Collect? || step.Sweep?)
    ensures Cared(Do(k, s, step), ever, uid)
  {
    if step.Sweep? {
      SweepKeepsCare(k, s, step.name, ever, uid);
    } else {
      CollectKeepsCare(k, s, step.name, ever, uid);
    }
  }

  lemma CollectKeepsCare(k: Checks, s: State, name: Name, ever: bool, uid: string)
    requires Cared(s, ever, uid) && Enabled(s, Collect(name))
    ensures Cared(Do(k, s, Collect(name)), ever, uid)
  {
  }

  lemma SweepKeepsCare(k: Checks, s: State, name: Name, ever: bool, uid: string)
    requires ClosureInvariant(s) && Cared(s, ever, uid) && Enabled(s, Sweep(name))
    ensures Cared(Do(k, s, Sweep(name)), ever, uid)
  {
    if name.uid == uid {
      assert Orphaned(LabelsFor(name), s.phase.owned);
      assert ManifestOf(s.store, uid).None?;
    }
  }

  lemma ControlKeepsCare(k: Checks, s: State, step: Step, ever: bool, uid: string)
    requires ClosureInvariant(s) && Cared(s, ever, uid) && Enabled(s, step) && IsControlStep(step)
    requires step.BeginSync? && ever ==> uid in step.owned
    ensures Cared(Do(k, s, step), ever || (step.BeginSync? && uid in step.owned), uid)
  {
    if step.BeginPublish? {
      BeginKeepsCare(k, s, step, ever, uid);
    } else {
      SyncKeepsCare(k, s, step, ever, uid);
    }
  }

  lemma BeginKeepsCare(k: Checks, s: State, step: Step, ever: bool, uid: string)
    requires ClosureInvariant(s) && Cared(s, ever, uid) && Enabled(s, step) && step.BeginPublish?
    ensures Cared(Do(k, s, step), ever, uid)
  {
    if step.uid == uid {
      PristineIsUnaltered(s.store, uid, step.content, step.order);
    }
  }

  lemma SyncKeepsCare(k: Checks, s: State, step: Step, ever: bool, uid: string)
    requires Cared(s, ever, uid) && Enabled(s, step) && IsControlStep(step) && !step.BeginPublish?
    requires step.BeginSync? && ever ==> uid in step.owned
    ensures Cared(Do(k, s, step), ever || (step.BeginSync? && uid in step.owned), uid)
  {
  }

  lemma StepKeepsCare(k: Checks, s: State, step: Step, ever: bool, uid: string)
    requires ClosureInvariant(s) && Cared(s, ever, uid) && Enabled(s, step)
    requires step.BeginSync? && ever ==> uid in step.owned
    requires !(Touched(step).Some? && Touched(step).value.uid == uid)
    ensures Cared(Do(k, s, step), ever || (step.BeginSync? && uid in step.owned), uid)
  {
    if Touched(step).Some? {
      OutsideKeepsCare(k, s, step, ever, uid);
    } else if IsControlStep(step) {
      ControlKeepsCare(k, s, step, ever, uid);
    } else if IsPodStep(step) || IsPollStep(step) {
      DataPlaneLeavesControl(k, s, step);
    } else if step.WriteObject? {
      WriteKeepsCare(k, s, ever, uid);
    } else if step.CommitManifest? {
      CommitKeepsCare(k, s, ever, uid);
    } else {
      DeleteKeepsCare(k, s, step, ever, uid);
    }
  }

  lemma OutsideKeepsCare(k: Checks, s: State, step: Step, ever: bool, uid: string)
    requires Cared(s, ever, uid) && Enabled(s, step) && Touched(step).Some? && Touched(step).value.uid != uid
    ensures Cared(Do(k, s, step), ever, uid)
  {
    ElsewhereKeepsCare(s, Do(k, s, step), ever, Touched(step).value, uid);
  }

  lemma {:induction false} RunKeepsCare(k: Checks, run: Run, uid: string)
    requires IsRun(k, run) && ContinuouslyOwned(run, uid) && Untouched(run, uid)
    ensures Cared(Last(run), EverOwned(run, uid), uid)
  {
    if run.Then? {
      RunKeepsCare(k, run.before, uid);
      RunKeepsClosure(k, run.before);
      StepKeepsCare(k, Last(run.before), run.step, EverOwned(run.before, uid), uid);
    }
  }

  /** At every step of the control plane, crash points included, the manifest of a continuously
      owned gateway names only objects that exist with the listed checksum. */
  lemma OwnedManifestIsClosed(k: Checks, run: Run, uid: string)
    requires IsRun(k, run) && ContinuouslyOwned(run, uid) && Untouched(run, uid)
    requires ManifestOf(Last(run).store, uid).Some?
    ensures Closed(Last(run).store, uid)
  {
    RunKeepsCare(k, run, uid);
    RunKeepsClosure(k, run);
  }
}

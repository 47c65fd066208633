/** The generation protocol as a transition system: a control plane that may crash between any
    two API calls, pods that read the store in two parts, an acknowledgement poller, and an
    environment that deletes and alters objects. */
module Protocol {
  import opened Strings
  import opened Compiled
  import opened Building
  import opened Publishing
  import opened Serving

  // ---------------------------------------------------------------- state --

  /** What one sync captured at its start: the acknowledgements it was handed, the listing of
      generated objects, and the gateways it owns. */
  datatype World = World(acks: AckState, cms: ConfigMaps, secrets: Secrets, owned: set<string>)

  datatype Phase =
    | Idle
    | Gathering(acks: AckState, owned: set<string>)
    | Listing(acks: AckState, owned: set<string>, cms: ConfigMaps)
    | Syncing(world: World)
    | Writing(world: World, uid: string, content: Content, order: seq<string>, done: nat)
    | Collecting(world: World, manifest: Manifest, doomed: set<Name>)
    | Sweeping(owned: set<string>, doomed: set<Name>)

  /** `listed` holds the ConfigMaps between the watcher's two reads, `lastSent` the snapshot its
      change detector remembers, `unpublished` the statuses of a rebuild whose tables are out
      already. */
  datatype Pod = Pod(
    listed: Option<ConfigMaps>,
    lastSent: RawConfig,
    mailbox: seq<RawConfig>,
    tables: Tables,
    statuses: Statuses,
    unpublished: Option<Statuses>)

  const FreshPod := Pod(None, RawConfig(map[], map[]), [], map[], map[], None)

  datatype Commit = Commit(uid: string, generation: Generation)
  datatype Service = Service(pod: string, uid: string, generation: Generation)

  /** The last four fields record history and are read by no step: what was committed, what was
      served, which gateways nobody interfered with since their last publication began, and
      which have been closed by one. */
  datatype State = State(
    store: Store,
    phase: Phase,
    pods: map<string, Pod>,
    polling: AckState,
    acks: AckState,
    committed: set<Commit>,
    served: set<Service>,
    clean: set<string>,
    sound: set<string>)

  const Initial := State(Store(map[], map[], 0), Idle, map[], map[], map[], {}, {}, {}, {})

  // ---------------------------------------------------------------- steps --

  datatype Step =
    // Control plane.
    | BeginSync(owned: set<string>)
    | ListConfigMaps
    | ListSecrets
    | BeginPublish(uid: string, content: Content, order: seq<string>)
    | WriteObject
    | CommitManifest
    | Collect(name: Name)
    | EndPublish
    | BeginSweep
    | Sweep(name: Name)
    | EndSweep
    | Abort
    | Crash
    // Environment.
    | OutsideDelete(name: Name)
    | OutsideAlter(name: Name, payload: Payload)
    | OutsideAlterSecret(name: Name, data: SecretData)
    | OutsideCorrupt(uid: string)
    // Data plane.
    | StartPod(pod: string)
    | StopPod(pod: string)
    | ReadConfigMaps(pod: string)
    | ReadSecrets(pod: string)
    | AbandonRead(pod: string)
    | Rebuild(pod: string)
    | PublishStatuses(pod: string)
    // Acknowledgement poller.
    | BeginPoll
    | PollPod(pod: string, ready: bool)
    | PublishAcks

  function Refs(phase: Phase): seq<ObjectRef>
    requires phase.Writing? && forall i | 0 <= i < |phase.order| :: phase.order[i] in phase.content.routes
  {
    Objects(phase.uid, phase.content, phase.order)
  }

  predicate Ordered(phase: Phase) {
    phase.Writing? && forall i | 0 <= i < |phase.order| :: phase.order[i] in phase.content.routes
  }

  ghost predicate Enabled(s: State, step: Step) {
    match step
    case BeginSync(_) => s.phase.Idle?
    case ListConfigMaps => s.phase.Gathering?
    case ListSecrets => s.phase.Listing?
    case BeginPublish(uid, content, order) =>
      s.phase.Syncing? && uid in s.phase.world.owned && uid != "" && content.gateway.uid == uid && IsOrder(content, order)
    case WriteObject => Ordered(s.phase) && s.phase.done < |Refs(s.phase)|
    case CommitManifest => Ordered(s.phase) && s.phase.done == |Refs(s.phase)|
    case Collect(name) => s.phase.Collecting? && name in s.phase.doomed
    case EndPublish => s.phase.Collecting?
    case BeginSweep => s.phase.Syncing?
    case Sweep(name) => s.phase.Sweeping? && name in s.phase.doomed
    case EndSweep => s.phase.Sweeping?
    case Abort => s.phase.Writing?
    case Crash => true
    case OutsideDelete(_) => true
    case OutsideAlter(name, _) => name in s.store.cms && !name.ManifestName?
    case OutsideAlterSecret(name, _) => name in s.store.secrets
    case OutsideCorrupt(uid) => ManifestName(uid) in s.store.cms
    case StartPod(_) => true
    case StopPod(_) => true
    case ReadConfigMaps(p) => p in s.pods && s.pods[p].listed.None?
    case ReadSecrets(p) => p in s.pods && s.pods[p].listed.Some?
    case AbandonRead(p) => p in s.pods
    case Rebuild(p) =>
      p in s.pods && s.pods[p].mailbox != [] && s.pods[p].unpublished.None? && ManifestsByName(s.pods[p].mailbox[0].cms)
    case PublishStatuses(p) => p in s.pods && s.pods[p].unpublished.Some?
    case BeginPoll => true
    case PollPod(p, ready) => ready ==> p in s.pods
    case PublishAcks => true
  }

  // ------------------------------------------------------- what steps do --

  /** Somebody touched the objects of a gateway. */
  function Disturbed(s: State, uid: string): State {
    s.(clean := s.clean - {uid}, sound := s.sound - {uid})
  }

  ghost function AfterBegin(s: State, uid: string, content: Content, order: seq<string>): State
    requires s.phase.Syncing? && IsOrder(content, order)
  {
    s.(phase := Writing(s.phase.world, uid, content, order, 0),
       clean := if Unaltered(s.store, Objects(uid, content, order)) then s.clean + {uid} else s.clean - {uid})
  }

  function AfterWrite(s: State): State
    requires Ordered(s.phase) && s.phase.done < |Refs(s.phase)|
  {
    s.(store := Ensured(s.store, Refs(s.phase)[s.phase.done]), phase := s.phase.(done := s.phase.done + 1))
  }

  ghost function DoomedBy(world: World, m: Manifest): set<Name> {
    if EveryHealthyPodAcks(world.acks, m.gatewayUid, m.generation) then
      DoomedConfigMaps(world.cms, m.gatewayUid, Kept(m, world.acks)) + DoomedSecrets(world.secrets, m.gatewayUid, Kept(m, world.acks))
    else {}
  }

  ghost function AfterCommit(s: State): State
    requires Ordered(s.phase)
  {
    var uid := s.phase.uid;
    var m := ManifestFor(uid, s.phase.content, s.phase.order);
    var m' := Succeeding(s.store, m);
    s.(store := Committed(s.store, m),
       phase := Collecting(s.phase.world, m', DoomedBy(s.phase.world, m')),
       committed := s.committed + {Commit(uid, m.generation)},
       sound := if uid in s.clean then s.sound + {uid} else s.sound - {uid})
  }

  function Polled(pod: Pod, secrets: Secrets): Pod
    requires pod.listed.Some?
  {
    var raw := RawConfig(pod.listed.value, secrets);
    if SnapshotOf(raw) == SnapshotOf(pod.lastSent) then pod.(listed := None)
    else pod.(listed := None, lastSent := raw, mailbox := pod.mailbox + [raw])
  }

  function Rebuilt(k: Checks, pod: Pod): Pod
    requires pod.mailbox != [] && ManifestsByName(pod.mailbox[0].cms)
  {
    var raw := pod.mailbox[0];
    pod.(mailbox := pod.mailbox[1..],
         tables := NextTables(k, raw, pod.tables, pod.statuses),
         unpublished := Some(NextStatuses(k, raw, pod.tables, pod.statuses)))
  }

  function Services(p: string, tables: Tables): set<Service> {
    set uid | uid in tables :: Service(p, uid, tables[uid].generation)
  }

  function AfterRebuild(k: Checks, s: State, p: string): State
    requires p in s.pods && s.pods[p].mailbox != [] && ManifestsByName(s.pods[p].mailbox[0].cms)
  {
    var pod := Rebuilt(k, s.pods[p]);
    s.(pods := s.pods[p := pod], served := s.served + Services(p, pod.tables))
  }

  /** The readiness body of a pod, as the poller keeps it. */
  function Acknowledged(pod: Pod): PodAck {
    PodAck(true, map uid | uid in pod.statuses :: pod.statuses[uid].applied)
  }

  function PhaseWithoutName(s: State, name: Name): Phase
    requires s.phase.Collecting? || s.phase.Sweeping?
  {
    s.phase.(doomed := s.phase.doomed - {name})
  }

  ghost function Do(k: Checks, s: State, step: Step): State
    requires Enabled(s, step)
  {
    match step
    case BeginSync(owned) => s.(phase := Gathering(s.acks, owned))
    case ListConfigMaps => s.(phase := Listing(s.phase.acks, s.phase.owned, s.store.cms))
    case ListSecrets => s.(phase := Syncing(World(s.phase.acks, s.phase.cms, s.store.secrets, s.phase.owned)))
    case BeginPublish(uid, content, order) => AfterBegin(s, uid, content, order)
    case WriteObject => AfterWrite(s)
    case CommitManifest => AfterCommit(s)
    case Collect(name) => s.(store := Delete(s.store, name), phase := PhaseWithoutName(s, name))
    case EndPublish => s.(phase := Syncing(s.phase.world))
    case BeginSweep =>
      s.(phase := Sweeping(s.phase.world.owned, OrphansIn(s.phase.world.cms, s.phase.world.secrets, s.phase.world.owned)))
    case Sweep(name) => Disturbed(s, name.uid).(store := Delete(s.store, name), phase := PhaseWithoutName(s, name))
    case EndSweep => s.(phase := Idle)
    case Abort => s.(phase := Syncing(s.phase.world))
    case Crash => s.(phase := Idle)
    case OutsideDelete(name) => Disturbed(s, name.uid).(store := Delete(s.store, name))
    case OutsideAlter(name, payload) => Disturbed(s, name.uid).(store := Put(s.store, name, None, payload))
    case OutsideAlterSecret(name, data) => Disturbed(s, name.uid).(store := PutSecret(s.store, name, data))
    case OutsideCorrupt(uid) =>
      Disturbed(s, uid).(store := Put(s.store, ManifestName(uid), None, s.store.cms[ManifestName(uid)].payload))
    case StartPod(p) => s.(pods := s.pods[p := FreshPod])
    case StopPod(p) => s.(pods := s.pods - {p})
    case ReadConfigMaps(p) => s.(pods := s.pods[p := s.pods[p].(listed := Some(s.store.cms))])
    case ReadSecrets(p) => s.(pods := s.pods[p := Polled(s.pods[p], s.store.secrets)])
    case AbandonRead(p) => s.(pods := s.pods[p := s.pods[p].(listed := None)])
    case Rebuild(p) => AfterRebuild(k, s, p)
    case PublishStatuses(p) =>
      s.(pods := s.pods[p := s.pods[p].(statuses := s.pods[p].unpublished.value, unpublished := None)])
    case BeginPoll => s.(polling := map[])
    case PollPod(p, ready) =>
      s.(polling := s.polling[p := if ready then Acknowledged(s.pods[p]) else PodAck(false, map[])])
    case PublishAcks => s.(acks := s.polling)
  }

  // ----------------------------------------------------------------- runs --

  datatype Run = Start | Then(before: Run, step: Step, after: State)

  function Last(run: Run): State {
    if run.Start? then Initial else run.after
  }

  ghost predicate IsRun(k: Checks, run: Run) {
    run.Then? ==>
      && IsRun(k, run.before)
      && Enabled(Last(run.before), run.step)
      && run.after == Do(k, Last(run.before), run.step)
  }

  // ------------------------------------------- steps and the publication --

  /** The state after the first `n` writes of a publication, with nothing in between. */
  ghost function Wrote(s: State, n: nat): (s': State)
    requires Ordered(s.phase) && s.phase.done == 0 && n <= |Refs(s.phase)|
    ensures s'.phase == s.phase.(done := n)
    ensures s'.store == EnsuredAll(s.store, Refs(s.phase)[..n])
  {
    if n == 0 then
      assert Refs(s.phase)[..0] == [];
      s
    else
      assert Refs(s.phase)[..n][..n - 1] == Refs(s.phase)[..n - 1];
      AfterWrite(Wrote(s, n - 1))
  }

  /** The steps of one publication, taken without a break, are the whole publication. */
  lemma StepsMakePublication(s: State, uid: string, content: Content, order: seq<string>)
    requires s.phase.Syncing? && IsOrder(content, order)
    ensures
      var begun := AfterBegin(s, uid, content, order);
      AfterCommit(Wrote(begun, |Refs(begun.phase)|)).store == Published(s.store, uid, content, order)
  {
    var begun := AfterBegin(s, uid, content, order);
    var refs := Refs(begun.phase);
    assert refs[..|refs|] == refs;
  }
}

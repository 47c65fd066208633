/** In every reachable state, each table a pod serves is that of one whole generation the
    control plane committed for that gateway. */
module Safety {
  import opened Strings
  import opened Compiled
  import opened Building
  import opened Loading
  import opened Publishing
  import opened Serving
  import opened Protocol
  import Matching

  // ------------------------------------------------------------ invariant --

  /** A readable manifest is one the control plane committed. */
  ghost predicate Vouched(committed: set<Commit>, uid: string, m: Manifest) {
    Commit(uid, m.generation) in committed && exists order :: Authentic(uid, m, order)
  }

  ghost predicate TrustedConfigMap(committed: set<Commit>, name: Name, cm: ConfigMap) {
    && cm.labels == LabelsFor(name)
    && (name.ManifestName? && cm.manifest.Some? ==> Vouched(committed, name.uid, cm.manifest.value))
  }

  ghost predicate TrustedConfigMaps(committed: set<Commit>, cms: ConfigMaps) {
    forall name | name in cms :: TrustedConfigMap(committed, name, cms[name])
  }

  ghost predicate TrustedSecrets(secrets: Secrets) {
    forall name | name in secrets :: secrets[name].labels == LabelsFor(name)
  }

  ghost predicate TrustedRaw(committed: set<Commit>, raw: RawConfig) {
    TrustedConfigMaps(committed, raw.cms) && TrustedSecrets(raw.secrets)
  }

  /** The table is built from the complete object set of one committed generation. */
  ghost predicate Genuine(k: Checks, committed: set<Commit>, uid: string, table: GatewayTable) {
    && Commit(uid, table.generation) in committed
    && table.generation.Of?
    && exists order | IsOrder(table.generation.content, order) :: TableFor(k, table.generation.content, order) == Some(table)
  }

  ghost predicate GenuineTables(k: Checks, committed: set<Commit>, tables: Tables) {
    forall uid | uid in tables :: Genuine(k, committed, uid, tables[uid])
  }

  ghost predicate TrustedPod(k: Checks, committed: set<Commit>, pod: Pod) {
    && (pod.listed.Some? ==> TrustedConfigMaps(committed, pod.listed.value))
    && (forall i | 0 <= i < |pod.mailbox| :: TrustedRaw(committed, pod.mailbox[i]))
    && GenuineTables(k, committed, pod.tables)
  }

  ghost predicate TrustedPods(k: Checks, committed: set<Commit>, pods: map<string, Pod>) {
    forall p | p in pods :: TrustedPod(k, committed, pods[p])
  }

  ghost predicate TrustedStore(committed: set<Commit>, store: Store) {
    TrustedConfigMaps(committed, store.cms) && TrustedSecrets(store.secrets)
  }

  ghost predicate Invariant(k: Checks, s: State) {
    TrustedStore(s.committed, s.store) && TrustedPods(k, s.committed, s.pods)
  }

  // ---------------------------------------------------------------- store --

  lemma EnsuringKeepsTrust(committed: set<Commit>, store: Store, ref: ObjectRef)
    requires TrustedStore(committed, store)
    ensures TrustedStore(committed, Ensured(store, ref))
  {
  }

  lemma DeletingKeepsTrust(committed: set<Commit>, store: Store, name: Name)
    requires TrustedStore(committed, store)
    ensures TrustedStore(committed, Delete(store, name))
  {
  }

  lemma CommittingKeepsTrust(committed: set<Commit>, store: Store, uid: string, content: Content, order: seq<string>)
    requires TrustedStore(committed, store) && IsOrder(content, order)
    ensures TrustedStore(committed + {Commit(uid, Of(content))}, Committed(store, ManifestFor(uid, content, order)))
  {
    var m := Succeeding(store, ManifestFor(uid, content, order));
    assert Authentic(uid, m, order);
  }

  // ----------------------------------------------------------------- pods --

  lemma TrustGrows(k: Checks, committed: set<Commit>, more: set<Commit>, pods: map<string, Pod>)
    requires TrustedPods(k, committed, pods) && committed <= more
    ensures TrustedPods(k, more, pods)
  {
    forall p | p in pods
      ensures TrustedPod(k, more, pods[p])
    {
      PodTrustGrows(k, committed, more, pods[p]);
    }
  }

  lemma PodTrustGrows(k: Checks, committed: set<Commit>, more: set<Commit>, pod: Pod)
    requires TrustedPod(k, committed, pod) && committed <= more
    ensures TrustedPod(k, more, pod)
  {
    assert forall i | 0 <= i < |pod.mailbox| :: TrustedRaw(committed, pod.mailbox[i]);
    assert forall uid | uid in pod.tables :: Genuine(k, committed, uid, pod.tables[uid]);
  }

  lemma TrustedIsWellLabelled(committed: set<Commit>, raw: RawConfig)
    requires TrustedRaw(committed, raw)
    ensures WellLabelled(raw.cms, raw.secrets)
    ensures ManifestsByName(raw.cms)
  {
    assert forall name | name in raw.cms :: TrustedConfigMap(committed, name, raw.cms[name]);
  }

  /** Whatever a pod decides for a gateway, it serves a genuine table or none. */
  lemma JudgedIsGenuine(k: Checks, committed: set<Commit>, uid: string, raw: RawConfig, table: Option<GatewayTable>, status: Option<Status>)
    requires TrustedRaw(committed, raw) && ManifestName(uid) in raw.cms
    requires table.Some? ==> Genuine(k, committed, uid, table.value)
    ensures
      var m := raw.cms[ManifestName(uid)].manifest;
      var judged := Judge(m, OutcomeOf(k, m, raw), table, status);
      judged.table.Some? ==> Genuine(k, committed, uid, judged.table.value)
  {
    var m := raw.cms[ManifestName(uid)].manifest;
    if m.Some? && OutcomeOf(k, m, raw).Loaded? {
      LoadedIsGenuine(k, committed, uid, m.value, raw);
    }
  }

  lemma LoadedIsGenuine(k: Checks, committed: set<Commit>, uid: string, m: Manifest, raw: RawConfig)
    requires TrustedRaw(committed, raw) && Vouched(committed, uid, m)
    requires Load(k, m, raw.cms, raw.secrets).Loaded?
    ensures Genuine(k, committed, uid, Load(k, m, raw.cms, raw.secrets).table)
  {
    TrustedIsWellLabelled(committed, raw);
    LoadKeepsGeneration(k, m, raw);
    var order :| Authentic(uid, m, order);
    LoadIsWholeGeneration(k, uid, m, order, raw.cms, raw.secrets);
    assert TableFor(k, m.generation.content, order) == Some(Load(k, m, raw.cms, raw.secrets).table);
  }

  lemma RebuildingKeepsGenuine(k: Checks, committed: set<Commit>, raw: RawConfig, tables: Tables, statuses: Statuses)
    requires TrustedRaw(committed, raw) && ManifestsByName(raw.cms) && GenuineTables(k, committed, tables)
    ensures GenuineTables(k, committed, NextTables(k, raw, tables, statuses))
  {
    var next := NextTables(k, raw, tables, statuses);
    forall uid | uid in next
      ensures Genuine(k, committed, uid, next[uid])
    {
      JudgedIsGenuine(k, committed, uid, raw, Find(tables, uid), Find(statuses, uid));
    }
  }

  lemma RebuildKeepsTrust(k: Checks, committed: set<Commit>, pod: Pod)
    requires TrustedPod(k, committed, pod) && pod.mailbox != [] && ManifestsByName(pod.mailbox[0].cms)
    ensures TrustedPod(k, committed, Rebuilt(k, pod))
  {
    assert TrustedRaw(committed, pod.mailbox[0]);
    RebuildingKeepsGenuine(k, committed, pod.mailbox[0], pod.tables, pod.statuses);
  }

  // ---------------------------------------------------------------- steps --

  predicate IsPodStep(step: Step) {
    step.StartPod? || step.StopPod? || step.ReadConfigMaps? || step.ReadSecrets? || step.AbandonRead? ||
    step.Rebuild? || step.PublishStatuses?
  }

  predicate IsPollStep(step: Step) {
    step.BeginPoll? || step.PollPod? || step.PublishAcks?
  }

  lemma PodStepsLeaveControl(k: Checks, s: State, step: Step)
    requires Enabled(s, step) && IsPodStep(step)
    ensures
      var s' := Do(k, s, step);
      && s'.store == s.store && s'.phase == s.phase && s'.clean == s.clean && s'.sound == s.sound
      && s'.committed == s.committed && s'.polling == s.polling && s'.acks == s.acks
  {
  }

  lemma DataPlaneLeavesControl(k: Checks, s: State, step: Step)
    requires Enabled(s, step) && (IsPodStep(step) || IsPollStep(step))
    ensures
      var s' := Do(k, s, step);
      s'.store == s.store && s'.phase == s.phase && s'.clean == s.clean && s'.sound == s.sound && s'.committed == s.committed
  {
    if IsPodStep(step) {
      PodStepsLeaveControl(k, s, step);
    }
  }

  lemma PodReplaced(k: Checks, committed: set<Commit>, pods: map<string, Pod>, p: string, pod: Pod)
    requires TrustedPods(k, committed, pods) && TrustedPod(k, committed, pod)
    ensures TrustedPods(k, committed, pods[p := pod])
  {
  }

  lemma RebuildStepKeepsTrust(k: Checks, s: State, p: string)
    requires Invariant(k, s) && Enabled(s, Rebuild(p))
    ensures TrustedPods(k, s.committed, Do(k, s, Rebuild(p)).pods)
  {
    RebuildKeepsTrust(k, s.committed, s.pods[p]);
    PodReplaced(k, s.committed, s.pods, p, Rebuilt(k, s.pods[p]));
  }

  lemma PodStepKeepsTrust(k: Checks, s: State, step: Step)
    requires Invariant(k, s) && Enabled(s, step) && IsPodStep(step)
    ensures TrustedPods(k, s.committed, Do(k, s, step).pods)
  {
    match step
    case StartPod(p) => PodReplaced(k, s.committed, s.pods, p, FreshPod);
    case StopPod(p) =>
    case ReadConfigMaps(p) => PodReplaced(k, s.committed, s.pods, p, s.pods[p].(listed := Some(s.store.cms)));
    case ReadSecrets(p) =>
      var pod := Polled(s.pods[p], s.store.secrets);
      assert TrustedPod(k, s.committed, s.pods[p]);
      PodReplaced(k, s.committed, s.pods, p, pod);
    case AbandonRead(p) => PodReplaced(k, s.committed, s.pods, p, s.pods[p].(listed := None));
    case Rebuild(p) => RebuildStepKeepsTrust(k, s, p);
    case PublishStatuses(p) =>
      PodReplaced(k, s.committed, s.pods, p, s.pods[p].(statuses := s.pods[p].unpublished.value, unpublished := None));
  }

  lemma StoreStaysTrusted(k: Checks, s: State, step: Step)
    requires Invariant(k, s) && Enabled(s, step) && Phased(s.phase)
    ensures TrustedStore(Do(k, s, step).committed, Do(k, s, step).store)
  {
    match step
    case WriteObject => EnsuringKeepsTrust(s.committed, s.store, Refs(s.phase)[s.phase.done]);
    case CommitManifest => CommittingKeepsTrust(s.committed, s.store, s.phase.uid, s.phase.content, s.phase.order);
    case Collect(name) => DeletingKeepsTrust(s.committed, s.store, name);
    case Sweep(name) => DeletingKeepsTrust(s.committed, s.store, name);
    case OutsideDelete(name) => DeletingKeepsTrust(s.committed, s.store, name);
    case _ =>
  }

  /** A publication in progress walks all routes of its content. */
  ghost predicate Phased(phase: Phase) {
    phase.Writing? ==> IsOrder(phase.content, phase.order)
  }

  lemma StepKeepsInvariant(k: Checks, s: State, step: Step)
    requires Invariant(k, s) && Phased(s.phase) && Enabled(s, step)
    ensures Invariant(k, Do(k, s, step)) && Phased(Do(k, s, step).phase)
  {
    StoreStaysTrusted(k, s, step);
    if IsPodStep(step) {
      PodStepKeepsTrust(k, s, step);
    } else {
      TrustGrows(k, s.committed, Do(k, s, step).committed, s.pods);
    }
  }

  lemma {:induction false} RunKeepsInvariant(k: Checks, run: Run)
    requires IsRun(k, run)
    ensures Invariant(k, Last(run)) && Phased(Last(run).phase)
  {
    if run.Then? {
      RunKeepsInvariant(k, run.before);
      StepKeepsInvariant(k, Last(run.before), run.step);
    }
  }

  /** Under torn reads, crashes between any two writes, collection and outside deletion or
      alteration, every served table is built from the complete object set of exactly one
      generation committed for its gateway. */
  lemma ServedIsOneCommittedGeneration(k: Checks, run: Run, p: string, uid: string)
    requires IsRun(k, run) && p in Last(run).pods && uid in Last(run).pods[p].tables
    ensures Genuine(k, Last(run).committed, uid, Last(run).pods[p].tables[uid])
  {
    RunKeepsInvariant(k, run);
    assert TrustedPod(k, Last(run).committed, Last(run).pods[p]);
  }

  /** Two pods, in whatever reachable states, that serve one generation of a gateway pick the same
      rule for every request on a well-formed port. */
  lemma PodsServingOneGenerationAgree(k: Checks, run: Run, run': Run, p: string, p': string, uid: string, port: int,
                                      host: string, r: Matching.Request, w: Option<Matching.Candidate>, w': Option<Matching.Candidate>)
    requires IsRun(k, run) && p in Last(run).pods && uid in Last(run).pods[p].tables
    requires IsRun(k, run') && p' in Last(run').pods && uid in Last(run').pods[p'].tables
    requires Last(run).pods[p].tables[uid].generation == Last(run').pods[p'].tables[uid].generation
    requires port in Last(run).pods[p].tables[uid].byPort
    ensures port in Last(run').pods[p'].tables[uid].byPort
    ensures
      var t, t' := Last(run).pods[p].tables[uid].byPort[port], Last(run').pods[p'].tables[uid].byPort[port];
      Matching.WellFormed(t') && Matching.Resolves(t, host, r, w) && Matching.Resolves(t', host, r, w') ==> w == w'
  {
    var table, table' := Last(run).pods[p].tables[uid], Last(run').pods[p'].tables[uid];
    ServedIsOneCommittedGeneration(k, run, p, uid);
    ServedIsOneCommittedGeneration(k, run', p', uid);
    GenuineTablesAgree(k, Last(run).committed, Last(run').committed, uid, table, table', port, host, r, w, w');
  }

  lemma GenuineTablesAgree(k: Checks, committed: set<Commit>, committed': set<Commit>, uid: string, table: GatewayTable, table': GatewayTable,
                           port: int, host: string, r: Matching.Request, w: Option<Matching.Candidate>, w': Option<Matching.Candidate>)
    requires Genuine(k, committed, uid, table) && Genuine(k, committed', uid, table') && table.generation == table'.generation
    requires port in table.byPort
    ensures port in table'.byPort
    ensures
      var t, t' := table.byPort[port], table'.byPort[port];
      Matching.WellFormed(t') && Matching.Resolves(t, host, r, w) && Matching.Resolves(t', host, r, w') ==> w == w'
  {
    var content := table.generation.content;
    var order :| IsOrder(content, order) && TableFor(k, content, order) == Some(table);
    var order' :| IsOrder(content, order') && TableFor(k, content, order') == Some(table');
    PodsOfOneGenerationAgree(k, content, order, order', port, host, r, w, w');
  }

  /** No rebuild is ever held up: a queued snapshot always labels its manifests by name. */
  lemma RebuildIsNeverBlocked(k: Checks, run: Run, p: string)
    requires IsRun(k, run) && p in Last(run).pods
    requires Last(run).pods[p].mailbox != [] && Last(run).pods[p].unpublished.None?
    ensures Enabled(Last(run), Rebuild(p))
  {
    RunKeepsInvariant(k, run);
    var pod := Last(run).pods[p];
    assert TrustedPod(k, Last(run).committed, pod);
    TrustedIsWellLabelled(Last(run).committed, pod.mailbox[0]);
  }
}

/** Resource versions identify content, so a watcher that sees only versions it remembers has
    missed nothing; and a pod whose mailbox is empty reflects the last snapshot it sent. */
module Versions {
  import opened Strings
  import opened Compiled
  import opened Building
  import opened Publishing
  import opened Serving
  import opened Protocol
  import opened Safety
  import opened Acknowledging

  // ------------------------------------------------------------ coherence --

  ghost predicate CoherentCms(a: ConfigMaps, b: ConfigMaps) {
    forall name | name in a && name in b && a[name].version == b[name].version :: a[name] == b[name]
  }

  ghost predicate CoherentSecrets(a: Secrets, b: Secrets) {
    forall name | name in a && name in b && a[name].version == b[name].version :: a[name] == b[name]
  }

  ghost predicate BoundedCms(cms: ConfigMaps, clock: nat) {
    forall name | name in cms :: cms[name].version <= clock
  }

  ghost predicate BoundedSecrets(secrets: Secrets, clock: nat) {
    forall name | name in secrets :: secrets[name].version <= clock
  }

  ghost predicate BoundedStore(store: Store) {
    BoundedCms(store.cms, store.clock) && BoundedSecrets(store.secrets, store.clock)
  }

  /** What a pod remembers agrees with the store wherever the versions do. */
  ghost predicate Coherent(store: Store, pod: Pod) {
    && BoundedCms(pod.lastSent.cms, store.clock) && BoundedSecrets(pod.lastSent.secrets, store.clock)
    && CoherentCms(pod.lastSent.cms, store.cms) && CoherentSecrets(pod.lastSent.secrets, store.secrets)
    && (pod.listed.Some? ==>
          && BoundedCms(pod.listed.value, store.clock)
          && CoherentCms(pod.listed.value, store.cms)
          && CoherentCms(pod.lastSent.cms, pod.listed.value))
  }

  /** The store moves forward: what changes gets a version beyond the clock. */
  ghost predicate Advances(store: Store, store': Store) {
    && store.clock <= store'.clock
    && (forall name | name in store'.cms ::
          (name in store.cms && store'.cms[name] == store.cms[name]) || store.clock < store'.cms[name].version <= store'.clock)
    && (forall name | name in store'.secrets ::
          (name in store.secrets && store'.secrets[name] == store.secrets[name]) || store.clock < store'.secrets[name].version <= store'.clock)
  }

  lemma AdvancingKeepsCoherence(store: Store, store': Store, pod: Pod)
    requires Coherent(store, pod) && Advances(store, store')
    ensures Coherent(store', pod)
  {
  }

  lemma AdvancingKeepsBounds(store: Store, store': Store)
    requires BoundedStore(store) && Advances(store, store')
    ensures BoundedStore(store')
  {
  }

  lemma WritesAdvance(store: Store, ref: ObjectRef, m: Manifest, name: Name)
    ensures Advances(store, Ensured(store, ref))
    ensures Advances(store, Committed(store, m))
    ensures Advances(store, Delete(store, name))
  {
  }

  lemma PutsAdvance(store: Store, name: Name, payload: Payload, data: SecretData)
    ensures Advances(store, Put(store, name, None, payload))
    ensures Advances(store, PutSecret(store, name, data))
  {
  }

  lemma StoreAdvances(k: Checks, s: State, step: Step)
    requires Enabled(s, step) && !IsPodStep(step)
    ensures Advances(s.store, Do(k, s, step).store)
  {
    var m := Manifest("", NoGeneration, NoGeneration, []);
    var ref := ObjectRef(OtherKind, ManifestName(""), OfSecret(map[]));
    match step
    case WriteObject => WritesAdvance(s.store, Refs(s.phase)[s.phase.done], m, ManifestName(""));
    case CommitManifest => WritesAdvance(s.store, ref, ManifestFor(s.phase.uid, s.phase.content, s.phase.order), ManifestName(""));
    case Collect(name) => WritesAdvance(s.store, ref, m, name);
    case Sweep(name) => WritesAdvance(s.store, ref, m, name);
    case OutsideDelete(name) => WritesAdvance(s.store, ref, m, name);
    case OutsideAlter(name, payload) => PutsAdvance(s.store, name, payload, map[]);
    case OutsideAlterSecret(name, data) => PutsAdvance(s.store, name, Foreign(""), data);
    case OutsideCorrupt(uid) => PutsAdvance(s.store, ManifestName(uid), s.store.cms[ManifestName(uid)].payload, map[]);
    case _ =>
  }

  lemma ReadingKeepsCoherence(store: Store, pod: Pod)
    requires BoundedStore(store) && Coherent(store, pod)
    ensures Coherent(store, pod.(listed := Some(store.cms)))
    ensures pod.listed.Some? ==> Coherent(store, Polled(pod, store.secrets))
  {
  }

  /** Equal versions on equal names are equal snapshots, so a skipped send loses nothing. */
  lemma SkippedIsRemembered(store: Store, pod: Pod)
    requires Coherent(store, pod) && pod.listed.Some?
    ensures Polled(pod, store.secrets).lastSent == RawConfig(pod.listed.value, store.secrets)
  {
    var raw, sent := RawConfig(pod.listed.value, store.secrets), pod.lastSent;
    if SnapshotOf(raw) == SnapshotOf(sent) {
      var a, b := SnapshotOf(raw), SnapshotOf(sent);
      assert raw.cms.Keys == a.cms.Keys && sent.cms.Keys == b.cms.Keys;
      assert raw.secrets.Keys == a.secrets.Keys && sent.secrets.Keys == b.secrets.Keys;
      forall name | name in raw.cms
        ensures sent.cms[name] == raw.cms[name]
      {
        assert a.cms[name] == b.cms[name];
      }
      forall name | name in raw.secrets
        ensures sent.secrets[name] == raw.secrets[name]
      {
        assert a.secrets[name] == b.secrets[name];
      }
      assert sent.cms == raw.cms && sent.secrets == raw.secrets;
    }
  }

  // ------------------------------------------------------------- mailboxes --

  ghost predicate ResultOf(k: Checks, raw: RawConfig, tables: Tables, statuses: Statuses, tables0: Tables, statuses0: Statuses)
    requires ManifestsByName(raw.cms)
  {
    tables == NextTables(k, raw, tables0, statuses0) && statuses == NextStatuses(k, raw, tables0, statuses0)
  }

  /** The snapshot last sent is the last one in the mailbox, or the one last processed. */
  ghost predicate InOrder(k: Checks, pod: Pod) {
    if pod.mailbox != [] then pod.mailbox[|pod.mailbox| - 1] == pod.lastSent
    else
      && ManifestsByName(pod.lastSent.cms)
      && exists tables0, statuses0 :: ResultOf(k, pod.lastSent, pod.tables, Current(pod), tables0, statuses0)
  }

  lemma FreshIsInOrder(k: Checks)
    ensures InOrder(k, FreshPod)
  {
    var tables0: Tables, statuses0: Statuses := map[], map[];
    var pod := FreshPod;
    assert Judgements(k, pod.lastSent, tables0, statuses0) == map[];
    assert ResultOf(k, pod.lastSent, pod.tables, Current(pod), tables0, statuses0);
  }

  lemma PollingKeepsOrder(k: Checks, pod: Pod, secrets: Secrets)
    requires InOrder(k, pod) && pod.listed.Some?
    ensures InOrder(k, Polled(pod, secrets))
  {
    var pod' := Polled(pod, secrets);
    if pod'.mailbox == pod.mailbox == [] {
      var tables0, statuses0 :| ResultOf(k, pod.lastSent, pod.tables, Current(pod), tables0, statuses0);
      assert ResultOf(k, pod'.lastSent, pod'.tables, Current(pod'), tables0, statuses0);
    }
  }

  lemma RebuildingKeepsOrder(k: Checks, pod: Pod)
    requires InOrder(k, pod) && pod.mailbox != [] && ManifestsByName(pod.mailbox[0].cms)
    ensures InOrder(k, Rebuilt(k, pod))
  {
    var pod' := Rebuilt(k, pod);
    if pod'.mailbox == [] {
      assert pod.mailbox[0] == pod'.lastSent;
      assert ResultOf(k, pod'.lastSent, pod'.tables, Current(pod'), pod.tables, pod.statuses);
    } else {
      assert pod'.mailbox[|pod'.mailbox| - 1] == pod.mailbox[|pod.mailbox| - 1];
    }
  }

  lemma RelabellingKeepsOrder(k: Checks, pod: Pod, pod': Pod)
    requires InOrder(k, pod)
    requires pod'.mailbox == pod.mailbox && pod'.lastSent == pod.lastSent && pod'.tables == pod.tables && Current(pod') == Current(pod)
    ensures InOrder(k, pod')
  {
    if pod.mailbox == [] {
      var tables0, statuses0 :| ResultOf(k, pod.lastSent, pod.tables, Current(pod), tables0, statuses0);
      assert ResultOf(k, pod'.lastSent, pod'.tables, Current(pod'), tables0, statuses0);
    }
  }

  // ---------------------------------------------------------------- steps --

  ghost predicate Tracked(k: Checks, store: Store, pod: Pod) {
    Coherent(store, pod) && InOrder(k, pod)
  }

  ghost predicate AllTracked(k: Checks, s: State) {
    BoundedStore(s.store) && forall p | p in s.pods :: Tracked(k, s.store, s.pods[p])
  }

  lemma ReadStepKeepsTrack(k: Checks, s: State, step: Step)
    requires AllTracked(k, s) && Enabled(s, step) && (step.ReadConfigMaps? || step.ReadSecrets? || step.AbandonRead?)
    ensures AllTracked(k, Do(k, s, step))
  {
    var pod := s.pods[step.pod];
    assert Tracked(k, s.store, pod);
    ReadTracks(k, s.store, pod, step);
    ReadsReplace(k, s, step);
  }

  /** The pod after a step of its watcher. */
  function AfterRead(store: Store, pod: Pod, step: Step): Pod
    requires step.ReadSecrets? ==> pod.listed.Some?
  {
    if step.ReadConfigMaps? then pod.(listed := Some(store.cms))
    else if step.ReadSecrets? then Polled(pod, store.secrets)
    else pod.(listed := None)
  }

  lemma ReadsReplace(k: Checks, s: State, step: Step)
    requires Enabled(s, step) && (step.ReadConfigMaps? || step.ReadSecrets? || step.AbandonRead?)
    ensures Do(k, s, step) == s.(pods := s.pods[step.pod := AfterRead(s.store, s.pods[step.pod], step)])
  {
  }

  lemma ReadTracks(k: Checks, store: Store, pod: Pod, step: Step)
    requires BoundedStore(store) && Tracked(k, store, pod) && (step.ReadConfigMaps? || step.ReadSecrets? || step.AbandonRead?)
    requires step.ReadSecrets? ==> pod.listed.Some?
    ensures Tracked(k, store, AfterRead(store, pod, step))
  {
    ReadingKeepsCoherence(store, pod);
    match step
    case ReadConfigMaps(_) => RelabellingKeepsOrder(k, pod, pod.(listed := Some(store.cms)));
    case ReadSecrets(_) => PollingKeepsOrder(k, pod, store.secrets);
    case AbandonRead(_) => RelabellingKeepsOrder(k, pod, pod.(listed := None));
  }

  lemma RebuildStepKeepsTrack(k: Checks, s: State, p: string)
    requires AllTracked(k, s) && Enabled(s, Rebuild(p))
    ensures AllTracked(k, Do(k, s, Rebuild(p)))
  {
    var pod := s.pods[p];
    assert Tracked(k, s.store, pod);
    RebuildingKeepsOrder(k, pod);
    assert Tracked(k, s.store, Rebuilt(k, pod));
  }

  lemma StatusStepKeepsTrack(k: Checks, s: State, p: string)
    requires AllTracked(k, s) && Enabled(s, PublishStatuses(p))
    ensures AllTracked(k, Do(k, s, PublishStatuses(p)))
  {
    var pod := s.pods[p];
    assert Tracked(k, s.store, pod);
    var pod' := pod.(statuses := pod.unpublished.value, unpublished := None);
    RelabellingKeepsOrder(k, pod, pod');
    assert Tracked(k, s.store, pod');
  }

  lemma LifeStepKeepsTrack(k: Checks, s: State, step: Step)
    requires AllTracked(k, s) && Enabled(s, step) && (step.StartPod? || step.StopPod?)
    ensures AllTracked(k, Do(k, s, step))
  {
    FreshIsInOrder(k);
    assert Tracked(k, s.store, FreshPod);
  }

  lemma {:induction false} RunKeepsTrack(k: Checks, run: Run)
    requires IsRun(k, run)
    ensures AllTracked(k, Last(run))
  {
    if run.Then? {
      RunKeepsTrack(k, run.before);
      StepKeepsTrack(k, Last(run.before), run.step);
    }
  }

  lemma StepKeepsTrack(k: Checks, s: State, step: Step)
    requires AllTracked(k, s) && Enabled(s, step)
    ensures AllTracked(k, Do(k, s, step))
  {
    if step.ReadConfigMaps? || step.ReadSecrets? || step.AbandonRead? {
      ReadStepKeepsTrack(k, s, step);
    } else if step.Rebuild? {
      RebuildStepKeepsTrack(k, s, step.pod);
    } else if step.PublishStatuses? {
      StatusStepKeepsTrack(k, s, step.pod);
    } else if step.StartPod? || step.StopPod? {
      LifeStepKeepsTrack(k, s, step);
    } else {
      var s' := Do(k, s, step);
      PodsStay(k, s, step);
      StoreAdvances(k, s, step);
      AdvancingKeepsBounds(s.store, s'.store);
      forall p | p in s'.pods
        ensures Tracked(k, s'.store, s'.pods[p])
      {
        AdvancingKeepsCoherence(s.store, s'.store, s.pods[p]);
      }
    }
  }
}

/** Once a gateway's configuration stops changing, one publication, one read and queue drain per
    healthy pod and one poll of the pods make every healthy pod acknowledge the desired
    generation. */
module Convergence {
  import opened Compiled
  import opened Building
  import opened Loading
  import opened Publishing
  import opened Serving
  import opened Protocol
  import opened Safety
  import opened Closure
  import opened Acknowledging
  import opened Versions

  // --------------------------------------------------------- steady inputs --

  /** The generation is published and closed, and any publication of the gateway under way is of
      the same content. */
  ghost predicate Steady(s: State, uid: string, content: Content) {
    && uid != ""
    && uid in s.sound
    && ManifestOf(s.store, uid).Some?
    && ManifestOf(s.store, uid).value.generation == Of(content)
    && Closure.Owns(s.phase, uid)
    && (s.phase.Writing? && s.phase.uid == uid ==> s.phase.content == content && uid in s.clean)
  }

  /** What a step may do once the gateway's inputs stop changing: syncs go on and may publish
      the same content again, in any route order, and pods come and go. */
  predicate Quiet(step: Step, uid: string, content: Content) {
    && !(Touched(step).Some? && Touched(step).value.uid == uid)
    && (step.BeginSync? ==> uid in step.owned)
    && (step.BeginPublish? && step.uid == uid ==> step.content == content)
  }

  predicate Restarts(step: Step, p: string) {
    step == StartPod(p) || step == StopPod(p)
  }

  lemma HeldIsUnaltered(committed: set<Commit>, store: Store, uid: string, content: Content, order: seq<string>)
    requires TrustedStore(committed, store) && Closed(store, uid) && IsOrder(content, order)
    requires ManifestOf(store, uid).value.generation == Of(content)
    ensures HoldsAll(store.cms, store.secrets, Objects(uid, content, order))
    ensures Unaltered(store, Objects(uid, content, order))
  {
    StoredIsVouched(committed, store, uid);
    var m := ManifestOf(store, uid).value;
    var order' :| Authentic(uid, m, order');
    var refs := Objects(uid, content, order);
    forall i | 0 <= i < |refs|
      ensures Holds(store.cms, store.secrets, refs[i])
    {
      SameObjects(uid, content, order', order, i);
    }
  }

  lemma OutsideStaysSteady(k: Checks, s: State, step: Step, uid: string, content: Content)
    requires ClosureInvariant(s) && Steady(s, uid, content) && Enabled(s, step) && Quiet(step, uid, content) && Touched(step).Some?
    ensures Steady(Do(k, s, step), uid, content)
  {
    ElsewhereKeepsClosed(s.committed, s.store, Do(k, s, step).store, Touched(step).value, uid);
  }

  lemma BeginStaysSteady(k: Checks, s: State, step: Step, uid: string, content: Content)
    requires ClosureInvariant(s) && Steady(s, uid, content) && Enabled(s, step) && Quiet(step, uid, content) && step.BeginPublish?
    ensures Steady(Do(k, s, step), uid, content)
  {
    if step.uid == uid {
      HeldIsUnaltered(s.committed, s.store, uid, content, step.order);
    }
  }

  lemma ControlStaysSteady(k: Checks, s: State, step: Step, uid: string, content: Content)
    requires Steady(s, uid, content) && Enabled(s, step) && Quiet(step, uid, content)
    requires IsControlStep(step) && !step.BeginPublish?
    ensures Steady(Do(k, s, step), uid, content)
  {
  }

  lemma WriteStaysSteady(k: Checks, s: State, uid: string, content: Content)
    requires ClosureInvariant(s) && Steady(s, uid, content) && Enabled(s, WriteObject)
    ensures Steady(Do(k, s, WriteObject), uid, content)
  {
    AuthenticNames(s.phase.uid, ManifestFor(s.phase.uid, s.phase.content, s.phase.order), s.phase.order, s.phase.done);
  }

  lemma CommitStaysSteady(k: Checks, s: State, uid: string, content: Content)
    requires ClosureInvariant(s) && Steady(s, uid, content) && Enabled(s, CommitManifest)
    ensures Steady(Do(k, s, CommitManifest), uid, content)
  {
    CommitSetsManifest(s.store, ManifestFor(s.phase.uid, s.phase.content, s.phase.order));
  }

  lemma DeleteStaysSteady(k: Checks, s: State, step: Step, uid: string, content: Content)
    requires ClosureInvariant(s) && Steady(s, uid, content) && Enabled(s, step) && (step.Collect? || step.Sweep?)
    ensures Steady(Do(k, s, step), uid, content)
  {
    if step.Collect? {
      assert Doomed(LabelsFor(step.name), s.phase.manifest.gatewayUid, Kept(s.phase.manifest, s.phase.world.acks));
    } else {
      assert Orphaned(LabelsFor(step.name), s.phase.owned);
    }
    DeletingKeepsClosed(s.committed, s.store, step.name, uid);
  }

  lemma StepStaysSteady(k: Checks, s: State, step: Step, uid: string, content: Content)
    requires ClosureInvariant(s) && Steady(s, uid, content) && Enabled(s, step) && Quiet(step, uid, content)
    ensures Steady(Do(k, s, step), uid, content)
  {
    if Touched(step).Some? {
      OutsideStaysSteady(k, s, step, uid, content);
    } else if step.BeginPublish? {
      BeginStaysSteady(k, s, step, uid, content);
    } else if IsControlStep(step) {
      ControlStaysSteady(k, s, step, uid, content);
    } else if IsPodStep(step) || IsPollStep(step) {
      DataPlaneLeavesControl(k, s, step);
    } else {
      match step
      case WriteObject => WriteStaysSteady(k, s, uid, content);
      case CommitManifest => CommitStaysSteady(k, s, uid, content);
      case Collect(_) => DeleteStaysSteady(k, s, step, uid, content);
      case Sweep(_) => DeleteStaysSteady(k, s, step, uid, content);
    }
  }

  // ------------------------------------------------------- what reads carry --

  /** The ConfigMaps of a read: the gateway's manifest and every ConfigMap it lists. */
  ghost predicate ListCarries(cms: ConfigMaps, uid: string, content: Content) {
    && uid != ""
    && WellLabelled(cms, map[])
    && ManifestName(uid) in cms && cms[ManifestName(uid)].manifest.Some?
    && var m := cms[ManifestName(uid)].manifest.value;
    && m.generation == Of(content)
    && (exists order :: Authentic(uid, m, order))
    && (forall i | 0 <= i < |m.objects| && m.objects[i].kind.ConfigMapKind? :: Holds(cms, map[], m.objects[i]))
  }

  /** A whole snapshot from which the generation loads. */
  ghost predicate Carries(raw: RawConfig, uid: string, content: Content) {
    && uid != ""
    && WellLabelled(raw.cms, raw.secrets)
    && ManifestName(uid) in raw.cms && raw.cms[ManifestName(uid)].manifest.Some?
    && var m := raw.cms[ManifestName(uid)].manifest.value;
    && m.generation == Of(content)
    && (exists order :: Authentic(uid, m, order))
    && HoldsAll(raw.cms, raw.secrets, m.objects)
  }

  lemma SteadyListCarries(s: State, uid: string, content: Content)
    requires ClosureInvariant(s) && Steady(s, uid, content)
    ensures ListCarries(s.store.cms, uid, content)
  {
    StoredIsVouched(s.committed, s.store, uid);
    assert forall name | name in s.store.cms :: TrustedConfigMap(s.committed, name, s.store.cms[name]);
  }

  /** Even a torn read carries the generation: the two halves may stem from different commits of
      it. */
  lemma TornReadCarries(s: State, cms: ConfigMaps, uid: string, content: Content)
    requires ClosureInvariant(s) && Steady(s, uid, content) && ListCarries(cms, uid, content)
    ensures Carries(RawConfig(cms, s.store.secrets), uid, content)
  {
    var m := cms[ManifestName(uid)].manifest.value;
    var order :| Authentic(uid, m, order);
    HeldIsUnaltered(s.committed, s.store, uid, content, order);
    forall i | 0 <= i < |m.objects|
      ensures Holds(cms, s.store.secrets, m.objects[i])
    {
      AuthenticNames(uid, m, order, i);
      assert Holds(s.store.cms, s.store.secrets, m.objects[i]);
      assert m.objects[i].kind.ConfigMapKind? ==> Holds(cms, map[], m.objects[i]);
    }
  }

  lemma CarriedIsNamed(raw: RawConfig, uid: string, content: Content)
    requires Carries(raw, uid, content)
    ensures ManifestsByName(raw.cms) && uid in Gateways(raw.cms)
  {
    assert IsManifest(raw.cms[ManifestName(uid)]);
  }

  lemma CarriedLoads(k: Checks, raw: RawConfig, uid: string, content: Content)
    requires Carries(raw, uid, content) && Admitted(k, content.gateway, SecretOf(content))
    ensures OutcomeOf(k, raw.cms[ManifestName(uid)].manifest, raw).Loaded?
    ensures OutcomeOf(k, raw.cms[ManifestName(uid)].manifest, raw).table.generation == Of(content)
  {
    var m := raw.cms[ManifestName(uid)].manifest.value;
    var order :| Authentic(uid, m, order);
    LoadIsWholeGeneration(k, uid, m, order, raw.cms, raw.secrets);
    LoadKeepsGeneration(k, m, raw);
  }

  predicate Applies(statuses: Statuses, uid: string, content: Content) {
    uid in statuses && statuses[uid] == Status(Of(content), Of(content), false)
  }

  /** Whatever the pod served and reported before, such a snapshot makes it apply the
      generation. */
  lemma CarriedIsApplied(k: Checks, raw: RawConfig, uid: string, content: Content, tables: Tables, statuses: Statuses)
    requires Carries(raw, uid, content) && Admitted(k, content.gateway, SecretOf(content))
    ensures ManifestsByName(raw.cms)
    ensures Applies(NextStatuses(k, raw, tables, statuses), uid, content)
  {
    CarriedIsNamed(raw, uid, content);
    CarriedLoads(k, raw, uid, content);
    var judged := Judgements(k, raw, tables, statuses);
    assert judged[uid].status == Status(Of(content), Of(content), false);
  }

  // --------------------------------------------------------------- windows --

  /** The run goes on from `base` with quiet steps only. */
  ghost predicate Window(run: Run, base: Run, uid: string, content: Content) {
    run == base || (run.Then? && Window(run.before, base, uid, content) && Quiet(run.step, uid, content))
  }

  lemma {:induction false} WindowIsSteady(k: Checks, run: Run, base: Run, uid: string, content: Content)
    requires IsRun(k, run) && Window(run, base, uid, content) && Steady(Last(base), uid, content)
    ensures Steady(Last(run), uid, content)
  {
    if run != base {
      WindowIsSteady(k, run.before, base, uid, content);
      RunKeepsClosure(k, run.before);
      StepStaysSteady(k, Last(run.before), run.step, uid, content);
    }
  }

  /** Since `base` the pod has listed ConfigMaps and is about to list Secrets. */
  predicate Reading(run: Run, base: Run, p: string) {
    run != base && run.Then? &&
    (run.step == ReadConfigMaps(p) ||
     (Reading(run.before, base, p) && run.step != ReadSecrets(p) && run.step != AbandonRead(p) && !Restarts(run.step, p)))
  }

  /** Since `base` the pod has completed a read, and has not restarted after it. */
  predicate HasRead(run: Run, base: Run, p: string) {
    run != base && run.Then? &&
    ((run.step == ReadSecrets(p) && Reading(run.before, base, p)) ||
     (HasRead(run.before, base, p) && !Restarts(run.step, p)))
  }

  predicate Drained(s: State, p: string) {
    p in s.pods && s.pods[p].mailbox == [] && s.pods[p].unpublished.None?
  }

  /** At some moment after such a read the pod's queue was empty and its statuses published, and
      the pod has not restarted since. */
  predicate HasCaughtUp(run: Run, base: Run, p: string) {
    (HasRead(run, base, p) && Drained(Last(run), p)) ||
    (run != base && run.Then? && HasCaughtUp(run.before, base, p) && !Restarts(run.step, p))
  }

  // ------------------------------------------------------------------ pods --

  ghost predicate FreshWatcher(pod: Pod, uid: string, content: Content) {
    Carries(pod.lastSent, uid, content) && (pod.listed.Some? ==> ListCarries(pod.listed.value, uid, content))
  }

  ghost predicate Converged(pod: Pod, uid: string, content: Content) {
    && FreshWatcher(pod, uid, content)
    && (forall i | 0 <= i < |pod.mailbox| :: Carries(pod.mailbox[i], uid, content))
    && Applies(pod.statuses, uid, content)
    && (pod.unpublished.Some? ==> Applies(pod.unpublished.value, uid, content))
  }

  lemma OthersKeepPod(k: Checks, s: State, step: Step, p: string)
    requires Enabled(s, step) && p in s.pods && !(IsPodStep(step) && step.pod == p)
    ensures p in Do(k, s, step).pods && Do(k, s, step).pods[p] == s.pods[p]
  {
    if !IsPodStep(step) {
      PodsStay(k, s, step);
    }
  }

  lemma {:induction false} ReadingIsFresh(k: Checks, run: Run, base: Run, p: string, uid: string, content: Content)
    requires IsRun(k, run) && Window(run, base, uid, content) && Steady(Last(base), uid, content)
    requires Reading(run, base, p)
    ensures p in Last(run).pods && Last(run).pods[p].listed.Some?
    ensures ListCarries(Last(run).pods[p].listed.value, uid, content)
  {
    var s, step := Last(run.before), run.step;
    if step == ReadConfigMaps(p) {
      WindowIsSteady(k, run.before, base, uid, content);
      RunKeepsClosure(k, run.before);
      SteadyListCarries(s, uid, content);
    } else {
      ReadingIsFresh(k, run.before, base, p, uid, content);
      ListedStays(k, s, step, p);
    }
  }

  lemma ListedStays(k: Checks, s: State, step: Step, p: string)
    requires Enabled(s, step) && p in s.pods && s.pods[p].listed.Some?
    requires step != ReadSecrets(p) && step != AbandonRead(p) && !Restarts(step, p)
    ensures p in Do(k, s, step).pods && Do(k, s, step).pods[p].listed == s.pods[p].listed
  {
    if !(IsPodStep(step) && step.pod == p) {
      OthersKeepPod(k, s, step, p);
    }
  }

  lemma ReadMakesFresh(s: State, pod: Pod, uid: string, content: Content)
    requires ClosureInvariant(s) && Steady(s, uid, content) && Coherent(s.store, pod)
    requires pod.listed.Some? && ListCarries(pod.listed.value, uid, content)
    ensures FreshWatcher(Polled(pod, s.store.secrets), uid, content)
    ensures forall i | 0 <= i < |Polled(pod, s.store.secrets).mailbox| ::
      (i < |pod.mailbox| && Polled(pod, s.store.secrets).mailbox[i] == pod.mailbox[i]) ||
      Carries(Polled(pod, s.store.secrets).mailbox[i], uid, content)
  {
    SkippedIsRemembered(s.store, pod);
    TornReadCarries(s, pod.listed.value, uid, content);
  }

  lemma ReadStepStaysFresh(k: Checks, s: State, step: Step, p: string, uid: string, content: Content)
    requires ClosureInvariant(s) && AllTracked(k, s) && Steady(s, uid, content) && Enabled(s, step)
    requires p in s.pods && FreshWatcher(s.pods[p], uid, content)
    requires step == ReadConfigMaps(p) || step == ReadSecrets(p) || step == AbandonRead(p)
    ensures p in Do(k, s, step).pods && FreshWatcher(Do(k, s, step).pods[p], uid, content)
  {
    assert Tracked(k, s.store, s.pods[p]);
    if step == ReadConfigMaps(p) {
      SteadyListCarries(s, uid, content);
    } else if step == ReadSecrets(p) {
      ReadMakesFresh(s, s.pods[p], uid, content);
    }
  }

  lemma StepStaysFresh(k: Checks, s: State, step: Step, p: string, uid: string, content: Content)
    requires ClosureInvariant(s) && AllTracked(k, s) && Steady(s, uid, content) && Enabled(s, step)
    requires p in s.pods && FreshWatcher(s.pods[p], uid, content) && !Restarts(step, p)
    ensures p in Do(k, s, step).pods && FreshWatcher(Do(k, s, step).pods[p], uid, content)
  {
    if !(IsPodStep(step) && step.pod == p) {
      OthersKeepPod(k, s, step, p);
    } else if step == ReadConfigMaps(p) || step == ReadSecrets(p) || step == AbandonRead(p) {
      ReadStepStaysFresh(k, s, step, p, uid, content);
    } else {
      LoaderLeavesWatcher(k, s, step, p);
    }
  }

  lemma LoaderLeavesWatcher(k: Checks, s: State, step: Step, p: string)
    requires Enabled(s, step) && (step == Rebuild(p) || step == PublishStatuses(p))
    ensures p in Do(k, s, step).pods
    ensures Do(k, s, step).pods[p].lastSent == s.pods[p].lastSent && Do(k, s, step).pods[p].listed == s.pods[p].listed
  {
  }

  lemma ReadStepMakesFresh(k: Checks, s: State, p: string, uid: string, content: Content)
    requires ClosureInvariant(s) && AllTracked(k, s) && Steady(s, uid, content) && Enabled(s, ReadSecrets(p))
    requires ListCarries(s.pods[p].listed.value, uid, content)
    ensures p in Do(k, s, ReadSecrets(p)).pods && FreshWatcher(Do(k, s, ReadSecrets(p)).pods[p], uid, content)
  {
    assert Tracked(k, s.store, s.pods[p]);
    ReadMakesFresh(s, s.pods[p], uid, content);
  }

  lemma {:induction false} HasReadIsFresh(k: Checks, run: Run, base: Run, p: string, uid: string, content: Content)
    requires IsRun(k, run) && Window(run, base, uid, content) && Steady(Last(base), uid, content)
    requires HasRead(run, base, p)
    ensures p in Last(run).pods && FreshWatcher(Last(run).pods[p], uid, content)
  {
    var s := Last(run.before);
    WindowIsSteady(k, run.before, base, uid, content);
    RunKeepsClosure(k, run.before);
    RunKeepsTrack(k, run.before);
    if run.step == ReadSecrets(p) && Reading(run.before, base, p) {
      ReadingIsFresh(k, run.before, base, p, uid, content);
      ReadStepMakesFresh(k, s, p, uid, content);
    } else {
      HasReadIsFresh(k, run.before, base, p, uid, content);
      StepStaysFresh(k, s, run.step, p, uid, content);
    }
  }

  /** A drained pod whose last read was fresh applies the generation, also when that read was
      skipped as unchanged. */
  lemma DrainedApplies(k: Checks, pod: Pod, uid: string, content: Content)
    requires InOrder(k, pod) && FreshWatcher(pod, uid, content) && pod.mailbox == [] && pod.unpublished.None?
    requires Admitted(k, content.gateway, SecretOf(content))
    ensures Converged(pod, uid, content)
  {
    var tables0, statuses0 :| ResultOf(k, pod.lastSent, pod.tables, Current(pod), tables0, statuses0);
    CarriedIsApplied(k, pod.lastSent, uid, content, tables0, statuses0);
  }

  lemma LoaderStaysConverged(k: Checks, s: State, step: Step, p: string, uid: string, content: Content)
    requires Enabled(s, step) && (step == Rebuild(p) || step == PublishStatuses(p))
    requires Converged(s.pods[p], uid, content) && Admitted(k, content.gateway, SecretOf(content))
    ensures p in Do(k, s, step).pods && Converged(Do(k, s, step).pods[p], uid, content)
  {
    if step == Rebuild(p) {
      var pod := s.pods[p];
      CarriedIsApplied(k, pod.mailbox[0], uid, content, pod.tables, pod.statuses);
    }
  }

  lemma PolledStaysConverged(s: State, pod: Pod, uid: string, content: Content)
    requires ClosureInvariant(s) && Steady(s, uid, content) && Coherent(s.store, pod)
    requires Converged(pod, uid, content) && pod.listed.Some?
    ensures Converged(Polled(pod, s.store.secrets), uid, content)
  {
    ReadMakesFresh(s, pod, uid, content);
  }

  lemma ReaderStaysConverged(k: Checks, s: State, step: Step, p: string, uid: string, content: Content)
    requires ClosureInvariant(s) && AllTracked(k, s) && Steady(s, uid, content) && Enabled(s, step)
    requires p in s.pods && Converged(s.pods[p], uid, content)
    requires step == ReadConfigMaps(p) || step == ReadSecrets(p) || step == AbandonRead(p)
    ensures p in Do(k, s, step).pods && Converged(Do(k, s, step).pods[p], uid, content)
  {
    assert Tracked(k, s.store, s.pods[p]);
    if step == ReadConfigMaps(p) {
      SteadyListCarries(s, uid, content);
    } else if step == ReadSecrets(p) {
      PolledStaysConverged(s, s.pods[p], uid, content);
    }
  }

  lemma StepStaysConverged(k: Checks, s: State, step: Step, p: string, uid: string, content: Content)
    requires ClosureInvariant(s) && AllTracked(k, s) && Steady(s, uid, content) && Enabled(s, step)
    requires Admitted(k, content.gateway, SecretOf(content))
    requires p in s.pods && Converged(s.pods[p], uid, content) && !Restarts(step, p)
    ensures p in Do(k, s, step).pods && Converged(Do(k, s, step).pods[p], uid, content)
  {
    if !(IsPodStep(step) && step.pod == p) {
      OthersKeepPod(k, s, step, p);
    } else if step == Rebuild(p) || step == PublishStatuses(p) {
      LoaderStaysConverged(k, s, step, p, uid, content);
    } else {
      ReaderStaysConverged(k, s, step, p, uid, content);
    }
  }

  lemma {:induction false} CaughtUpIsConverged(k: Checks, run: Run, base: Run, p: string, uid: string, content: Content)
    requires IsRun(k, run) && Window(run, base, uid, content) && Steady(Last(base), uid, content)
    requires Admitted(k, content.gateway, SecretOf(content))
    requires HasCaughtUp(run, base, p)
    ensures p in Last(run).pods && Converged(Last(run).pods[p], uid, content)
  {
    if HasRead(run, base, p) && Drained(Last(run), p) {
      HasReadIsFresh(k, run, base, p, uid, content);
      RunKeepsTrack(k, run);
      assert Tracked(k, Last(run).store, Last(run).pods[p]);
      DrainedApplies(k, Last(run).pods[p], uid, content);
    } else {
      CaughtUpIsConverged(k, run.before, base, p, uid, content);
      WindowIsSteady(k, run.before, base, uid, content);
      RunKeepsClosure(k, run.before);
      RunKeepsTrack(k, run.before);
      StepStaysConverged(k, Last(run.before), run.step, p, uid, content);
    }
  }

  // ------------------------------------------------------------- one poll --

  /** A poll is under way in which every pod had caught up when it was polled as healthy. */
  predicate Polling(run: Run, base: Run) {
    run != base && run.Then? && !run.step.PublishAcks? &&
    (run.step.BeginPoll? ||
     (Polling(run.before, base) && (run.step.PollPod? && run.step.ready ==> HasCaughtUp(run.before, base, run.step.pod))))
  }

  ghost predicate PollsAck(s: State, uid: string, content: Content) {
    forall p | p in s.polling && s.polling[p].healthy :: PodAcks(s.polling[p], uid, Of(content))
  }

  lemma PollStepAcks(k: Checks, s: State, step: Step, uid: string, content: Content)
    requires PollsAck(s, uid, content) && Enabled(s, step)
    requires step.PollPod? && step.ready ==> Applies(s.pods[step.pod].statuses, uid, content)
    ensures PollsAck(Do(k, s, step), uid, content)
  {
    if !IsPollStep(step) {
      OthersLeavePoll(k, s, step);
    } else {
      PollerAcks(k, s, step, uid, content);
    }
  }

  lemma PollerAcks(k: Checks, s: State, step: Step, uid: string, content: Content)
    requires PollsAck(s, uid, content) && Enabled(s, step) && IsPollStep(step)
    requires step.PollPod? && step.ready ==> Applies(s.pods[step.pod].statuses, uid, content)
    ensures PollsAck(Do(k, s, step), uid, content)
  {
  }

  lemma OthersLeavePoll(k: Checks, s: State, step: Step)
    requires Enabled(s, step) && !IsPollStep(step)
    ensures Do(k, s, step).polling == s.polling
  {
    if IsPodStep(step) {
      PodStepsLeaveControl(k, s, step);
    } else {
      PhaseAcksCome(k, s, step);
    }
  }

  lemma {:induction false} PollingAcks(k: Checks, run: Run, base: Run, uid: string, content: Content)
    requires IsRun(k, run) && Window(run, base, uid, content) && Steady(Last(base), uid, content)
    requires Admitted(k, content.gateway, SecretOf(content))
    requires Polling(run, base)
    ensures PollsAck(Last(run), uid, content)
  {
    var s, step := Last(run.before), run.step;
    if !step.BeginPoll? {
      PollingAcks(k, run.before, base, uid, content);
      if step.PollPod? && step.ready {
        CaughtUpIsConverged(k, run.before, base, step.pod, uid, content);
      }
      PollStepAcks(k, s, step, uid, content);
    }
  }

  /** Convergence: from any reachable state in which the generation is published and closed, a
      poll in which each healthy pod has read the store and drained its queue before it is polled,
      with a healthy one among them, makes `AllAcked` true for the generation. Nothing is asked
      of unready pods, and syncs and pod restarts may go on meanwhile. */
  lemma PublishedGenerationIsAcked(k: Checks, run: Run, base: Run, uid: string, content: Content)
    requires IsRun(k, run) && Window(run, base, uid, content) && Steady(Last(base), uid, content)
    requires Admitted(k, content.gateway, SecretOf(content))
    requires run != base && run.Then? && run.step == PublishAcks && Polling(run.before, base)
    requires exists p | p in Last(run.before).polling :: Last(run.before).polling[p].healthy
    ensures EveryHealthyPodAcks(Last(run).acks, uid, Of(content))
  {
    PollingAcks(k, run.before, base, uid, content);
  }

  /** One uninterrupted publication establishes the premise of convergence. */
  lemma PublicationMakesSteady(k: Checks, run: Run, uid: string, content: Content, order: seq<string>)
    requires IsRun(k, run) && run.Then? && run.step == CommitManifest && uid != ""
    requires Restoring(run.before, uid, content, order)
    ensures Steady(Last(run), uid, content)
  {
    RestoringIsClean(k, run.before, uid, content, order);
    PublicationRestores(k, run, uid, content, order);
    RunKeepsClosure(k, run.before);
  }
}

/** Gateways that go away: once a gateway's manifest is gone, one read and queue drain make a pod
    stop serving and reporting it, and a sync that does not own the gateway brings that about. */
module Departures {
  import opened Compiled
  import opened Building
  import opened Publishing
  import opened Serving
  import opened Protocol
  import opened Safety
  import opened Closure
  import opened Acknowledging
  import opened Versions
  import opened Convergence
  import opened Schedules
  import opened Retention

  // ------------------------------------------------------------ the store --

  /** The gateway has no manifest and none is about to be written. */
  predicate Gone(s: State, uid: string) {
    ManifestName(uid) !in s.store.cms && !(s.phase.Writing? && s.phase.uid == uid)
  }

  predicate StaysAway(step: Step, uid: string) {
    !(step.BeginPublish? && step.uid == uid)
  }

  lemma WritingBegins(k: Checks, s: State, step: Step)
    requires Enabled(s, step) && Do(k, s, step).phase.Writing?
    ensures step.BeginPublish? || (s.phase.Writing? && Do(k, s, step).phase.uid == s.phase.uid)
    ensures step.BeginPublish? ==> Do(k, s, step).phase.uid == step.uid
  {
    if IsPodStep(step) || IsPollStep(step) {
      DataPlaneLeavesControl(k, s, step);
    } else if IsOutsideStep(step) {
      OutsideLeavesPhase(k, s, step);
    }
  }

  lemma StepStaysGone(k: Checks, s: State, step: Step, uid: string)
    requires ClosureInvariant(s) && Gone(s, uid) && Enabled(s, step) && StaysAway(step, uid)
    ensures Gone(Do(k, s, step), uid)
  {
    if Do(k, s, step).phase.Writing? {
      WritingBegins(k, s, step);
    }
    if LeavesManifest(step, uid) {
      StepLeavesManifest(k, s, step, uid);
    }
  }

  /** The run goes on from `base` and never publishes the gateway. */
  predicate Away(run: Run, base: Run, uid: string) {
    run == base || (run.Then? && Away(run.before, base, uid) && StaysAway(run.step, uid))
  }

  lemma {:induction false} AwayStaysGone(k: Checks, run: Run, base: Run, uid: string)
    requires IsRun(k, run) && Away(run, base, uid) && Gone(Last(base), uid)
    ensures Gone(Last(run), uid)
  {
    if run != base {
      AwayStaysGone(k, run.before, base, uid);
      RunKeepsClosure(k, run.before);
      StepStaysGone(k, Last(run.before), run.step, uid);
    }
  }

  // ------------------------------------------------------------------ pods --

  predicate WatcherForgot(pod: Pod, uid: string) {
    ManifestName(uid) !in pod.lastSent.cms && (pod.listed.Some? ==> ManifestName(uid) !in pod.listed.value)
  }

  /** Nothing of the gateway is left on the pod, nor on its way there. */
  predicate Rid(pod: Pod, uid: string) {
    && WatcherForgot(pod, uid)
    && (forall i | 0 <= i < |pod.mailbox| :: ManifestName(uid) !in pod.mailbox[i].cms)
    && uid !in pod.tables && uid !in pod.statuses
    && (pod.unpublished.Some? ==> uid !in pod.unpublished.value)
  }

  lemma {:induction false} ReadingForgets(k: Checks, run: Run, base: Run, p: string, uid: string)
    requires IsRun(k, run) && Away(run, base, uid) && Gone(Last(base), uid) && Reading(run, base, p)
    ensures p in Last(run).pods && Last(run).pods[p].listed.Some? && ManifestName(uid) !in Last(run).pods[p].listed.value
  {
    var s, step := Last(run.before), run.step;
    if step == ReadConfigMaps(p) {
      AwayStaysGone(k, run.before, base, uid);
    } else {
      ReadingForgets(k, run.before, base, p, uid);
      ListedStays(k, s, step, p);
    }
  }

  lemma PollForgets(store: Store, pod: Pod, uid: string)
    requires Coherent(store, pod) && pod.listed.Some? && ManifestName(uid) !in pod.listed.value
    ensures WatcherForgot(Polled(pod, store.secrets), uid)
  {
    SkippedIsRemembered(store, pod);
  }

  lemma ReadStaysForgot(k: Checks, s: State, step: Step, p: string, uid: string)
    requires AllTracked(k, s) && Gone(s, uid) && Enabled(s, step) && p in s.pods && WatcherForgot(s.pods[p], uid)
    requires step == ReadConfigMaps(p) || step == ReadSecrets(p) || step == AbandonRead(p)
    ensures p in Do(k, s, step).pods && WatcherForgot(Do(k, s, step).pods[p], uid)
  {
    ReadsReplace(k, s, step);
    assert Tracked(k, s.store, s.pods[p]);
    if step == ReadSecrets(p) {
      PollForgets(s.store, s.pods[p], uid);
    }
  }

  lemma StepStaysForgot(k: Checks, s: State, step: Step, p: string, uid: string)
    requires AllTracked(k, s) && Gone(s, uid) && Enabled(s, step) && p in s.pods && WatcherForgot(s.pods[p], uid) && !Restarts(step, p)
    ensures p in Do(k, s, step).pods && WatcherForgot(Do(k, s, step).pods[p], uid)
  {
    if !(IsPodStep(step) && step.pod == p) {
      OthersKeepPod(k, s, step, p);
    } else if step == Rebuild(p) || step == PublishStatuses(p) {
      LoaderLeavesWatcher(k, s, step, p);
    } else {
      ReadStaysForgot(k, s, step, p, uid);
    }
  }

  lemma {:induction false} HasReadForgets(k: Checks, run: Run, base: Run, p: string, uid: string)
    requires IsRun(k, run) && Away(run, base, uid) && Gone(Last(base), uid) && HasRead(run, base, p)
    ensures p in Last(run).pods && WatcherForgot(Last(run).pods[p], uid)
  {
    var s := Last(run.before);
    RunKeepsTrack(k, run.before);
    if run.step == ReadSecrets(p) && Reading(run.before, base, p) {
      ReadingForgets(k, run.before, base, p, uid);
      ReadsReplace(k, s, run.step);
      assert Tracked(k, s.store, s.pods[p]);
      PollForgets(s.store, s.pods[p], uid);
    } else {
      HasReadForgets(k, run.before, base, p, uid);
      AwayStaysGone(k, run.before, base, uid);
      StepStaysForgot(k, s, run.step, p, uid);
    }
  }

  lemma RebuiltWithoutIsRid(k: Checks, raw: RawConfig, tables: Tables, statuses: Statuses, uid: string)
    requires ManifestsByName(raw.cms) && ManifestName(uid) !in raw.cms
    ensures uid !in NextTables(k, raw, tables, statuses) && uid !in NextStatuses(k, raw, tables, statuses)
  {
    GatewayHasManifest(raw.cms, uid);
    MissingIsDropped(k, raw, tables, statuses, uid);
  }

  lemma LastProcessedWithout(k: Checks, pod: Pod, uid: string)
    requires InOrder(k, pod) && ManifestName(uid) !in pod.lastSent.cms && pod.mailbox == [] && pod.unpublished.None?
    ensures uid !in pod.tables && uid !in pod.statuses
  {
    var tables0, statuses0 :| ResultOf(k, pod.lastSent, pod.tables, Current(pod), tables0, statuses0);
    RebuiltWithoutIsRid(k, pod.lastSent, tables0, statuses0, uid);
  }

  lemma RebuildStaysRid(k: Checks, s: State, p: string, uid: string)
    requires Enabled(s, Rebuild(p)) && Rid(s.pods[p], uid)
    ensures p in Do(k, s, Rebuild(p)).pods && Rid(Do(k, s, Rebuild(p)).pods[p], uid)
  {
    RebuiltWithoutIsRid(k, s.pods[p].mailbox[0], s.pods[p].tables, s.pods[p].statuses, uid);
  }

  lemma ReadStaysRid(k: Checks, s: State, step: Step, p: string, uid: string)
    requires AllTracked(k, s) && Gone(s, uid) && Enabled(s, step) && p in s.pods && Rid(s.pods[p], uid)
    requires step == ReadConfigMaps(p) || step == ReadSecrets(p) || step == AbandonRead(p)
    ensures p in Do(k, s, step).pods && Rid(Do(k, s, step).pods[p], uid)
  {
    ReadsReplace(k, s, step);
    assert Tracked(k, s.store, s.pods[p]);
    if step == ReadSecrets(p) {
      PollStaysRid(s.store, s.pods[p], uid);
    }
  }

  lemma PollStaysRid(store: Store, pod: Pod, uid: string)
    requires Coherent(store, pod) && pod.listed.Some? && Rid(pod, uid)
    ensures Rid(Polled(pod, store.secrets), uid)
  {
    PollForgets(store, pod, uid);
    var pod' := Polled(pod, store.secrets);
    forall i | 0 <= i < |pod'.mailbox|
      ensures ManifestName(uid) !in pod'.mailbox[i].cms
    {
      if i < |pod.mailbox| {
        assert pod'.mailbox[i] == pod.mailbox[i];
      }
    }
  }

  lemma StepStaysRid(k: Checks, s: State, step: Step, p: string, uid: string)
    requires AllTracked(k, s) && Gone(s, uid) && Enabled(s, step) && p in s.pods && Rid(s.pods[p], uid) && !Restarts(step, p)
    ensures p in Do(k, s, step).pods && Rid(Do(k, s, step).pods[p], uid)
  {
    if !(IsPodStep(step) && step.pod == p) {
      OthersKeepPod(k, s, step, p);
    } else if step == Rebuild(p) {
      RebuildStaysRid(k, s, p, uid);
    } else if step == PublishStatuses(p) {
      LoaderLeavesWatcher(k, s, step, p);
    } else {
      ReadStaysRid(k, s, step, p, uid);
    }
  }

  // -------------------------------------------------------------- theorems --

  /** In every run: a pod that has processed everything it was sent, the last of it without a
      manifest of the gateway, neither serves the gateway nor reports it. */
  lemma UnlistedIsNotServed(k: Checks, run: Run, p: string, uid: string)
    requires IsRun(k, run) && Drained(Last(run), p) && ManifestName(uid) !in Last(run).pods[p].lastSent.cms
    ensures uid !in Last(run).pods[p].tables && uid !in Last(run).pods[p].statuses
  {
    RunKeepsTrack(k, run);
    var pod := Last(run).pods[p];
    assert Tracked(k, Last(run).store, pod);
    LastProcessedWithout(k, pod, uid);
  }

  /** Once the manifest of a gateway is gone and as long as the gateway is not published again, a
      pod that has read the store and drained its queue since never serves or reports it, whatever
      else goes on. */
  lemma {:induction false} DepartedIsNotServed(k: Checks, run: Run, base: Run, p: string, uid: string)
    requires IsRun(k, run) && Away(run, base, uid) && Gone(Last(base), uid) && HasCaughtUp(run, base, p)
    ensures p in Last(run).pods && Rid(Last(run).pods[p], uid)
  {
    if HasRead(run, base, p) && Drained(Last(run), p) {
      HasReadForgets(k, run, base, p, uid);
      RunKeepsTrack(k, run);
      assert Tracked(k, Last(run).store, Last(run).pods[p]);
      LastProcessedWithout(k, Last(run).pods[p], uid);
    } else {
      DepartedIsNotServed(k, run.before, base, p, uid);
      AwayStaysGone(k, run.before, base, uid);
      RunKeepsTrack(k, run.before);
      StepStaysRid(k, Last(run.before), run.step, p, uid);
    }
  }

  // ------------------------------------------------------------ it happens --

  lemma Go(k: Checks, run: Run, step: Step) returns (next: Run)
    requires IsRun(k, run) && Enabled(Last(run), step)
    ensures next == Then(run, step, Do(k, Last(run), step)) && IsRun(k, next)
  {
    next := Then(run, step, Do(k, Last(run), step));
  }

  /** A sync that owns other gateways lists the store and begins to sweep. */
  lemma BeginSweeping(k: Checks, run: Run, owned: set<string>) returns (sweeping: Run)
    requires IsRun(k, run) && Last(run).phase.Idle?
    ensures IsRun(k, sweeping) && Last(sweeping).store == Last(run).store && Last(sweeping).pods == Last(run).pods
    ensures Last(sweeping).phase == Sweeping(owned, OrphansIn(Last(run).store.cms, Last(run).store.secrets, owned))
  {
    var r1 := Go(k, run, BeginSync(owned));
    var r2 := Go(k, r1, ListConfigMaps);
    var r3 := Go(k, r2, ListSecrets);
    sweeping := Go(k, r3, BeginSweep);
  }

  /** It deletes the manifest of the gateway it does not own. */
  lemma SweepAway(k: Checks, run: Run, owned: set<string>, uid: string) returns (swept: Run)
    requires IsRun(k, run) && Last(run).phase.Idle? && uid != "" && uid !in owned
    ensures IsRun(k, swept) && Gone(Last(swept), uid) && Last(swept).pods == Last(run).pods
  {
    var sweeping := BeginSweeping(k, run, owned);
    RunKeepsClosure(k, run);
    swept := sweeping;
    if ManifestName(uid) in Last(run).store.cms {
      assert TrustedConfigMap(Last(run).committed, ManifestName(uid), Last(run).store.cms[ManifestName(uid)]);
      swept := Go(k, sweeping, Sweep(ManifestName(uid)));
    }
  }

  lemma {:induction false} AsideIsAway(run: Run, base: Run, uid: string)
    requires Aside(run, base)
    ensures Away(run, base, uid)
  {
    if run != base {
      AsideIsAway(run.before, base, uid);
    }
  }

  /** From any reachable state between syncs, a sync that does not own the gateway and one read and
      drain of each pod leave no pod that serves or reports it. */
  lemma UnownedGatewayDisappears(k: Checks, run: Run, owned: set<string>, uid: string, order: seq<string>) returns (run': Run)
    requires IsRun(k, run) && Last(run).phase.Idle? && uid != "" && uid !in owned
    requires Lists(order, Last(run).pods) && forall p | p in Last(run).pods :: p in order
    ensures IsRun(k, run') && Last(run').pods.Keys == Last(run).pods.Keys
    ensures forall p | p in Last(run').pods :: uid !in Last(run').pods[p].tables && uid !in Last(run').pods[p].statuses
  {
    var swept := SweepAway(k, run, owned, uid);
    run' := CatchUpAll(k, swept, swept, order);
    AsideIsAway(run', swept, uid);
    forall p | p in Last(run').pods
      ensures Rid(Last(run').pods[p], uid)
    {
      DepartedIsNotServed(k, run', swept, p, uid);
    }
  }
}

/** Acknowledgements never run ahead of service, a served gateway stays served, and gateways do
    not influence each other, over whole runs. */
module Acknowledging {
  import opened Compiled
  import opened Building
  import opened Publishing
  import opened Serving
  import opened Protocol
  import opened Safety

  // -------------------------------------------------------------- history --

  predicate IsServing(s: State, p: string, uid: string, generation: Generation) {
    p in s.pods && uid in s.pods[p].tables && s.pods[p].tables[uid].generation == generation
  }

  /** At some moment of the run the pod's published tables held that generation. */
  predicate HasServed(run: Run, p: string, uid: string, generation: Generation) {
    IsServing(Last(run), p, uid, generation) || (run.Then? && HasServed(run.before, p, uid, generation))
  }

  lemma RebuildServes(k: Checks, s: State, p: string, v: Service)
    requires Enabled(s, Rebuild(p)) && v in Do(k, s, Rebuild(p)).served
    ensures v in s.served || IsServing(Do(k, s, Rebuild(p)), v.pod, v.uid, v.generation)
  {
  }

  lemma OthersRecordNothing(k: Checks, s: State, step: Step)
    requires Enabled(s, step) && !step.Rebuild?
    ensures Do(k, s, step).served == s.served
  {
  }

  /** The recorded services are moments of the run. */
  lemma {:induction false} RecordedIsHistory(k: Checks, run: Run, v: Service)
    requires IsRun(k, run) && v in Last(run).served
    ensures HasServed(run, v.pod, v.uid, v.generation)
  {
    if run.Then? {
      if run.step.Rebuild? {
        RebuildServes(k, Last(run.before), run.step.pod, v);
      } else {
        OthersRecordNothing(k, Last(run.before), run.step);
      }
      if v in Last(run.before).served {
        RecordedIsHistory(k, run.before, v);
      }
    }
  }

  // ------------------------------------------------------------ invariant --

  predicate Recorded(served: set<Service>, p: string, uid: string, generation: Generation) {
    generation == NoGeneration || Service(p, uid, generation) in served
  }

  ghost predicate HonestStatuses(served: set<Service>, p: string, statuses: Statuses) {
    forall uid | uid in statuses :: Recorded(served, p, uid, statuses[uid].applied)
  }

  ghost predicate HonestAcks(served: set<Service>, acks: AckState) {
    forall p, uid | p in acks && uid in acks[p].gateways :: Recorded(served, p, uid, acks[p].gateways[uid])
  }

  /** The statuses that belong to the tables now served: those of the rebuild in progress, if
      one has not published them yet. */
  function Current(pod: Pod): Statuses {
    if pod.unpublished.Some? then pod.unpublished.value else pod.statuses
  }

  ghost predicate HonestPod(served: set<Service>, p: string, pod: Pod) {
    && HonestStatuses(served, p, pod.statuses)
    && HonestStatuses(served, p, Current(pod))
    && ReportsServed(pod.tables, Current(pod))
  }

  ghost predicate HonestPods(s: State) {
    forall p | p in s.pods :: HonestPod(s.served, p, s.pods[p])
  }

  function PhaseAcks(phase: Phase): AckState {
    match phase
    case Idle => map[]
    case Gathering(acks, _) => acks
    case Listing(acks, _, _) => acks
    case Syncing(world) => world.acks
    case Writing(world, _, _, _, _) => world.acks
    case Collecting(world, _, _) => world.acks
    case Sweeping(_, _) => map[]
  }

  ghost predicate HonestPolls(s: State) {
    HonestAcks(s.served, s.polling) && HonestAcks(s.served, s.acks) && HonestAcks(s.served, PhaseAcks(s.phase))
  }

  ghost predicate DecidesReal(phase: Phase) {
    phase.Collecting? ==> phase.manifest.generation.Of?
  }

  // ---------------------------------------------------------------- steps --

  lemma HonestyGrows(served: set<Service>, more: set<Service>, p: string, pod: Pod)
    requires HonestPod(served, p, pod) && served <= more
    ensures HonestPod(more, p, pod)
  {
  }

  lemma RebuildIsHonest(k: Checks, served: set<Service>, p: string, pod: Pod)
    requires HonestPod(served, p, pod) && pod.unpublished.None?
    requires pod.mailbox != [] && ManifestsByName(pod.mailbox[0].cms)
    ensures HonestPod(served + Services(p, Rebuilt(k, pod).tables), p, Rebuilt(k, pod))
  {
    var raw := pod.mailbox[0];
    RebuildReportsServed(k, raw, pod.tables, pod.statuses);
    var tables, statuses := NextTables(k, raw, pod.tables, pod.statuses), NextStatuses(k, raw, pod.tables, pod.statuses);
    ServedIsRecorded(served, p, tables, statuses);
  }

  lemma ServedIsRecorded(served: set<Service>, p: string, tables: Tables, statuses: Statuses)
    requires ReportsServed(tables, statuses)
    ensures HonestStatuses(served + Services(p, tables), p, statuses)
  {
  }

  lemma RebuildKeepsHonesty(k: Checks, s: State, p: string)
    requires HonestPods(s) && HonestPolls(s) && Enabled(s, Rebuild(p))
    ensures HonestPods(Do(k, s, Rebuild(p))) && HonestPolls(Do(k, s, Rebuild(p)))
  {
    var pod := Rebuilt(k, s.pods[p]);
    var more := s.served + Services(p, pod.tables);
    RebuildIsHonest(k, s.served, p, s.pods[p]);
    forall q | q in s.pods
      ensures HonestPod(more, q, s.pods[q])
    {
      HonestyGrows(s.served, more, q, s.pods[q]);
    }
    var s' := Do(k, s, Rebuild(p));
    assert s'.served == more && s'.pods == s.pods[p := pod] && s'.phase == s.phase && s'.acks == s.acks && s'.polling == s.polling;
  }

  lemma PodStepKeepsHonesty(k: Checks, s: State, step: Step)
    requires HonestPods(s) && Enabled(s, step) && IsPodStep(step) && !step.Rebuild?
    ensures HonestPods(Do(k, s, step))
  {
    OthersRecordNothing(k, s, step);
  }

  /** A sync works with the acknowledgements it was handed. */
  lemma PhaseAcksCome(k: Checks, s: State, step: Step)
    requires Enabled(s, step) && !IsPollStep(step) && !IsPodStep(step)
    ensures
      var s' := Do(k, s, step);
      && s'.polling == s.polling && s'.acks == s.acks
      && (PhaseAcks(s'.phase) == PhaseAcks(s.phase) || PhaseAcks(s'.phase) == s.acks || PhaseAcks(s'.phase) == map[])
  {
    if IsOutsideStep(step) {
      OutsideLeavesPhase(k, s, step);
    } else if WritesStore(step) {
      WritesKeepAcks(k, s, step);
    } else {
      SyncHandsAcks(k, s, step);
    }
  }

  predicate IsOutsideStep(step: Step) {
    step.OutsideDelete? || step.OutsideAlter? || step.OutsideAlterSecret? || step.OutsideCorrupt?
  }

  predicate WritesStore(step: Step) {
    step.WriteObject? || step.CommitManifest? || step.Collect? || step.Sweep?
  }

  lemma OutsideLeavesPhase(k: Checks, s: State, step: Step)
    requires Enabled(s, step) && IsOutsideStep(step)
    ensures
      var s' := Do(k, s, step);
      s'.phase == s.phase && s'.polling == s.polling && s'.acks == s.acks
  {
  }

  lemma WritesKeepAcks(k: Checks, s: State, step: Step)
    requires Enabled(s, step) && WritesStore(step)
    ensures
      var s' := Do(k, s, step);
      && s'.polling == s.polling && s'.acks == s.acks
      && (PhaseAcks(s'.phase) == PhaseAcks(s.phase) || PhaseAcks(s'.phase) == map[])
  {
  }

  lemma SyncHandsAcks(k: Checks, s: State, step: Step)
    requires Enabled(s, step) && !IsPollStep(step) && !IsPodStep(step) && !IsOutsideStep(step) && !WritesStore(step)
    ensures
      var s' := Do(k, s, step);
      && s'.polling == s.polling && s'.acks == s.acks
      && (PhaseAcks(s'.phase) == PhaseAcks(s.phase) || PhaseAcks(s'.phase) == s.acks || PhaseAcks(s'.phase) == map[])
  {
  }

  lemma PollStepIsHonest(k: Checks, s: State, step: Step)
    requires HonestPods(s) && HonestPolls(s) && Enabled(s, step) && IsPollStep(step)
    ensures HonestPolls(Do(k, s, step))
  {
    if step.PollPod? && step.ready {
      assert HonestPod(s.served, step.pod, s.pods[step.pod]);
    }
  }

  lemma PollIsHonest(k: Checks, s: State, step: Step)
    requires HonestPods(s) && HonestPolls(s) && Enabled(s, step) && !step.Rebuild?
    ensures HonestPolls(Do(k, s, step))
  {
    if IsPollStep(step) {
      PollStepIsHonest(k, s, step);
    } else {
      OthersRecordNothing(k, s, step);
      if IsPodStep(step) {
        PodStepsLeaveControl(k, s, step);
      } else {
        PhaseAcksCome(k, s, step);
      }
    }
  }

  lemma PodsStay(k: Checks, s: State, step: Step)
    requires Enabled(s, step) && !IsPodStep(step)
    ensures Do(k, s, step).pods == s.pods
  {
  }

  lemma DecisionsStayReal(k: Checks, s: State, step: Step)
    requires DecidesReal(s.phase) && Enabled(s, step)
    ensures DecidesReal(Do(k, s, step).phase)
  {
  }

  lemma {:induction false} RunIsHonest(k: Checks, run: Run)
    requires IsRun(k, run)
    ensures HonestPods(Last(run)) && HonestPolls(Last(run)) && DecidesReal(Last(run).phase)
  {
    if run.Then? {
      var s, step := Last(run.before), run.step;
      RunIsHonest(k, run.before);
      DecisionsStayReal(k, s, step);
      if step.Rebuild? {
        RebuildKeepsHonesty(k, s, step.pod);
      } else {
        PollIsHonest(k, s, step);
        OthersRecordNothing(k, s, step);
        if IsPodStep(step) {
          PodStepKeepsHonesty(k, s, step);
        } else {
          PodsStay(k, s, step);
        }
      }
    }
  }

  // ------------------------------------------------------------- theorems --

  /** A generation a pod reports as applied is one whose table it has published, and once the
      statuses of a rebuild are out, the one it serves. */
  lemma AcknowledgedWasServed(k: Checks, run: Run, p: string, uid: string)
    requires IsRun(k, run) && p in Last(run).pods && uid in Last(run).pods[p].statuses
    ensures
      var pod := Last(run).pods[p];
      var applied := pod.statuses[uid].applied;
      && (applied == NoGeneration || HasServed(run, p, uid, applied))
      && (pod.unpublished.None? ==> applied == GenerationOf(Find(pod.tables, uid)))
  {
    RunIsHonest(k, run);
    var pod := Last(run).pods[p];
    assert HonestPod(Last(run).served, p, pod);
    var applied := pod.statuses[uid].applied;
    if applied != NoGeneration {
      RecordedIsHistory(k, run, Service(p, uid, applied));
    }
  }

  /** The decision a sync takes for a gateway once it has published and collected. */
  ghost predicate Programmed(phase: Phase, validListeners: nat)
    requires phase.Collecting?
  {
    validListeners > 0 && EveryHealthyPodAcks(phase.world.acks, phase.manifest.gatewayUid, phase.manifest.generation)
  }

  /** Whenever a gateway is declared programmed, some pod was healthy in the poll the sync was
      given, and every such pod had served exactly the declared generation at an earlier
      moment. */
  lemma ProgrammedMeansServed(k: Checks, run: Run, validListeners: nat, p: string)
    requires IsRun(k, run) && Enabled(Last(run), EndPublish) && Programmed(Last(run).phase, validListeners)
    requires p in Last(run).phase.world.acks && Last(run).phase.world.acks[p].healthy
    ensures HasServed(run, p, Last(run).phase.manifest.gatewayUid, Last(run).phase.manifest.generation)
    ensures validListeners > 0
  {
    RunIsHonest(k, run);
    var phase := Last(run).phase;
    var uid, generation := phase.manifest.gatewayUid, phase.manifest.generation;
    assert PodAcks(phase.world.acks[p], uid, generation);
    assert Recorded(Last(run).served, p, uid, phase.world.acks[p].gateways[uid]);
    RecordedIsHistory(k, run, Service(p, uid, generation));
  }

  predicate Serves(s: State, p: string, uid: string) {
    p in s.pods && uid in s.pods[p].tables
  }

  /** The pod served the gateway at some point of the run, has neither been replaced since, nor
      processed a snapshot without the gateway's manifest. */
  ghost predicate Carried(run: Run, p: string, uid: string) {
    Serves(Last(run), p, uid) ||
    (&& run.Then?
     && Carried(run.before, p, uid)
     && run.step != StartPod(p) && run.step != StopPod(p)
     && (run.step == Rebuild(p) ==>
           p in Last(run.before).pods && Last(run.before).pods[p].mailbox != [] &&
           uid in Gateways(Last(run.before).pods[p].mailbox[0].cms)))
  }

  lemma StepKeepsServing(k: Checks, s: State, step: Step, p: string, uid: string)
    requires Enabled(s, step) && Serves(s, p, uid) && step != StartPod(p) && step != StopPod(p)
    requires step == Rebuild(p) ==> uid in Gateways(s.pods[p].mailbox[0].cms)
    ensures Serves(Do(k, s, step), p, uid)
  {
    if step == Rebuild(p) {
      ServedStaysServed(k, uid, s.pods[p].mailbox[0], s.pods[p].tables, s.pods[p].statuses);
    } else if !IsPodStep(step) {
      PodsStay(k, s, step);
    }
  }

  /** Last-valid behaviour over a whole run: whatever else the snapshots contained, the gateway
      is still served, by a table of one whole committed generation. */
  lemma {:induction false} LastValidIsKept(k: Checks, run: Run, p: string, uid: string)
    requires IsRun(k, run) && Carried(run, p, uid)
    ensures Serves(Last(run), p, uid)
    ensures Genuine(k, Last(run).committed, uid, Last(run).pods[p].tables[uid])
  {
    if !Serves(Last(run), p, uid) {
      LastValidIsKept(k, run.before, p, uid);
      StepKeepsServing(k, Last(run.before), run.step, p, uid);
    }
    ServedIsOneCommittedGeneration(k, run, p, uid);
  }

  // ------------------------------------------------------------ isolation --

  datatype Processed = Processed(tables: Tables, statuses: Statuses)

  /** The loader after a sequence of snapshots. */
  function Process(k: Checks, raws: seq<RawConfig>): Processed
    requires forall i | 0 <= i < |raws| :: ManifestsByName(raws[i].cms)
  {
    if raws == [] then Processed(map[], map[])
    else
      var n := |raws| - 1;
      var before := Process(k, raws[..n]);
      Processed(NextTables(k, raws[n], before.tables, before.statuses), NextStatuses(k, raws[n], before.tables, before.statuses))
  }

  /** Two pods whose snapshots agree on one gateway serve and report the same for it, however
      much the rest of their snapshots differ. */
  lemma {:induction false} HistoriesAreIsolated(k: Checks, uid: string, raws: seq<RawConfig>, raws': seq<RawConfig>)
    requires |raws| == |raws'|
    requires forall i | 0 <= i < |raws| :: ManifestsByName(raws[i].cms)
    requires forall i | 0 <= i < |raws'| :: ManifestsByName(raws'[i].cms)
    requires forall i | 0 <= i < |raws| :: AgreeOnGateway(raws[i], raws'[i], uid)
    ensures Find(Process(k, raws).tables, uid) == Find(Process(k, raws').tables, uid)
    ensures Find(Process(k, raws).statuses, uid) == Find(Process(k, raws').statuses, uid)
  {
    if raws != [] {
      var n := |raws| - 1;
      var a, b := raws[..n], raws'[..n];
      HistoriesAreIsolated(k, uid, a, b);
      var before, before' := Process(k, a), Process(k, b);
      GatewaysAreIsolated(k, uid, raws[n], raws'[n], before.tables, before.statuses, before'.tables, before'.statuses);
    }
  }
}

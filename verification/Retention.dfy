/** Retention over whole runs: exactly when the generation programmed before the desired one is
    spared from collection. */
module Retention {
  import opened Compiled
  import opened Building
  import opened Loading
  import opened Publishing
  import opened Protocol
  import opened Safety
  import opened Closure
  import opened Acknowledging

  // --------------------------------------------------------------- history --

  predicate Commits(s: State, step: Step, uid: string) {
    step.CommitManifest? && s.phase.Writing? && s.phase.uid == uid
  }

  /** The last generation committed for the gateway, other than `other`. */
  function LastCommitted(run: Run, uid: string, other: Generation): Generation {
    if run.Start? then NoGeneration
    else if Commits(Last(run.before), run.step, uid) && Of(Last(run.before).phase.content) != other then
      Of(Last(run.before).phase.content)
    else LastCommitted(run.before, uid, other)
  }

  /** The step ends a publication whose generation the sync declares programmed; a generation has
      one compiled listener per valid one. */
  ghost predicate Programs(s: State, step: Step, uid: string) {
    && step.EndPublish? && s.phase.Collecting? && s.phase.manifest.gatewayUid == uid && s.phase.manifest.generation.Of?
    && Programmed(s.phase, |s.phase.manifest.generation.content.gateway.listeners|)
  }

  /** The last generation declared programmed for the gateway, other than `other`. */
  ghost function LastProgrammed(run: Run, uid: string, other: Generation): Generation {
    if run.Start? then NoGeneration
    else if Programs(Last(run.before), run.step, uid) && Last(run.before).phase.manifest.generation != other then
      Last(run.before).phase.manifest.generation
    else LastProgrammed(run.before, uid, other)
  }

  lemma {:induction false} LastIsOther(run: Run, uid: string, other: Generation)
    requires LastCommitted(run, uid, NoGeneration) != other
    ensures LastCommitted(run, uid, other) == LastCommitted(run, uid, NoGeneration)
  {
    if run.Then? && !Commits(Last(run.before), run.step, uid) {
      LastIsOther(run.before, uid, other);
    }
  }

  // ----------------------------------------------- what manifests remember --

  /** Nobody outside deletes or spoils the gateway's manifest, and no sweep takes it. */
  predicate LeavesManifest(step: Step, uid: string) {
    step != OutsideDelete(ManifestName(uid)) && step != OutsideCorrupt(uid) && step != Sweep(ManifestName(uid))
  }

  predicate ManifestLeft(run: Run, uid: string) {
    run.Then? ==> ManifestLeft(run.before, uid) && LeavesManifest(run.step, uid)
  }

  predicate SameManifest(s: Store, s': Store, uid: string) {
    var name := ManifestName(uid);
    (name in s'.cms <==> name in s.cms) && (name in s.cms ==> s'.cms[name] == s.cms[name])
  }

  lemma WriteLeavesManifest(k: Checks, s: State, uid: string)
    requires ClosureInvariant(s) && Enabled(s, WriteObject)
    ensures SameManifest(s.store, Do(k, s, WriteObject).store, uid)
  {
    AuthenticNames(s.phase.uid, ManifestFor(s.phase.uid, s.phase.content, s.phase.order), s.phase.order, s.phase.done);
  }

  lemma DeleteLeavesManifest(k: Checks, s: State, step: Step, uid: string)
    requires ClosureInvariant(s) && Enabled(s, step) && (step.Collect? || step.Sweep?) && LeavesManifest(step, uid)
    ensures SameManifest(s.store, Do(k, s, step).store, uid)
  {
    if step.Collect? {
      assert Doomed(LabelsFor(step.name), s.phase.manifest.gatewayUid, Kept(s.phase.manifest, s.phase.world.acks));
    }
  }

  lemma ControlLeavesStore(k: Checks, s: State, step: Step)
    requires Enabled(s, step) && IsControlStep(step)
    ensures Do(k, s, step).store == s.store
  {
  }

  lemma OutsideLeavesManifest(k: Checks, s: State, step: Step, uid: string)
    requires Enabled(s, step) && Touched(step).Some? && LeavesManifest(step, uid)
    ensures SameManifest(s.store, Do(k, s, step).store, uid)
  {
  }

  lemma StepLeavesManifest(k: Checks, s: State, step: Step, uid: string)
    requires ClosureInvariant(s) && Enabled(s, step) && LeavesManifest(step, uid) && !Commits(s, step, uid)
    ensures SameManifest(s.store, Do(k, s, step).store, uid)
  {
    if IsPodStep(step) || IsPollStep(step) {
      DataPlaneLeavesControl(k, s, step);
    } else if step.WriteObject? {
      WriteLeavesManifest(k, s, uid);
    } else if step.Collect? || step.Sweep? {
      DeleteLeavesManifest(k, s, step, uid);
    } else if Touched(step).Some? {
      OutsideLeavesManifest(k, s, step, uid);
    } else if !step.CommitManifest? {
      ControlLeavesStore(k, s, step);
    }
  }

  /** The manifest holds the last committed generation and the last one committed before it. */
  ghost predicate Recalls(run: Run, uid: string) {
    var cms := Last(run).store.cms;
    if ManifestName(uid) in cms then
      && cms[ManifestName(uid)].manifest.Some?
      && cms[ManifestName(uid)].manifest.value.generation == LastCommitted(run, uid, NoGeneration)
      && cms[ManifestName(uid)].manifest.value.previous == LastCommitted(run, uid, LastCommitted(run, uid, NoGeneration))
    else
      LastCommitted(run, uid, NoGeneration) == NoGeneration
  }

  lemma CommitRecalls(k: Checks, run: Run, uid: string)
    requires IsRun(k, run) && run.Then? && Commits(Last(run.before), run.step, uid) && Recalls(run.before, uid)
    ensures Recalls(run, uid)
    ensures Last(run).phase.manifest.previous == LastCommitted(run, uid, Of(Last(run.before).phase.content))
  {
    var s := Last(run.before);
    var g := Of(s.phase.content);
    CommitSetsManifest(s.store, ManifestFor(uid, s.phase.content, s.phase.order));
    if LastCommitted(run.before, uid, NoGeneration) != g {
      LastIsOther(run.before, uid, g);
    }
  }

  lemma {:induction false} RunRecalls(k: Checks, run: Run, uid: string)
    requires IsRun(k, run) && ManifestLeft(run, uid)
    ensures Recalls(run, uid)
  {
    if run.Then? {
      RunRecalls(k, run.before, uid);
      if Commits(Last(run.before), run.step, uid) {
        CommitRecalls(k, run, uid);
      } else {
        RunKeepsClosure(k, run.before);
        StepLeavesManifest(k, Last(run.before), run.step, uid);
      }
    }
  }

  // ------------------------------------------------------ what polls report --

  /** An unready pod reports nothing. */
  ghost predicate Muted(acks: AckState) {
    forall p | p in acks :: acks[p].healthy || acks[p].gateways == map[]
  }

  ghost predicate AllMuted(s: State) {
    Muted(s.polling) && Muted(s.acks) && Muted(PhaseAcks(s.phase))
  }

  lemma PollStaysMuted(k: Checks, s: State, step: Step)
    requires AllMuted(s) && Enabled(s, step) && IsPollStep(step)
    ensures AllMuted(Do(k, s, step))
  {
  }

  lemma {:induction false} RunIsMuted(k: Checks, run: Run)
    requires IsRun(k, run)
    ensures AllMuted(Last(run))
  {
    if run.Then? {
      var s, step := Last(run.before), run.step;
      RunIsMuted(k, run.before);
      if IsPollStep(step) {
        PollStaysMuted(k, s, step);
      } else if IsPodStep(step) {
        PodStepsLeaveControl(k, s, step);
      } else {
        PhaseAcksCome(k, s, step);
      }
    }
  }

  lemma AckedIsDesired(acks: AckState, uid: string, generation: Generation)
    requires Muted(acks) && EveryHealthyPodAcks(acks, uid, generation)
    ensures Acked(acks, uid) <= {generation}
  {
  }

  // --------------------------------------------------------------- theorem --

  /** The name was in the listing the sync took at its start. */
  predicate Listed(world: World, name: Name) {
    name in world.cms || name in world.secrets
  }

  lemma DoomedExactly(world: World, m: Manifest, name: Name)
    requires WellLabelled(world.cms, world.secrets) && Muted(world.acks) && m.generation != NoGeneration
    requires name.uid == m.gatewayUid && LabelsFor(name).generation != NoGeneration && Listed(world, name)
    ensures
      var g := LabelsFor(name).generation;
      name in DoomedBy(world, m) <==>
      EveryHealthyPodAcks(world.acks, m.gatewayUid, m.generation) && g != m.generation && g != m.previous
  {
    if EveryHealthyPodAcks(world.acks, m.gatewayUid, m.generation) {
      AckedIsDesired(world.acks, m.gatewayUid, m.generation);
      assert exists p | p in world.acks :: world.acks[p].healthy;
    }
  }

  lemma CommitDooms(k: Checks, s: State)
    requires Enabled(s, CommitManifest)
    ensures
      var phase := Do(k, s, CommitManifest).phase;
      && phase.Collecting? && phase.world == s.phase.world && phase.doomed == DoomedBy(s.phase.world, phase.manifest)
      && phase.manifest.gatewayUid == s.phase.uid && phase.manifest.generation == Of(s.phase.content)
  {
  }

  /** An object a sync has listed is collected after a publication exactly when every healthy pod
      runs the desired generation and the object's is neither that one nor the last one committed
      before it. */
  lemma CollectedExactly(k: Checks, run: Run, uid: string, name: Name)
    requires IsRun(k, run) && run.Then? && Commits(Last(run.before), run.step, uid) && ManifestLeft(run.before, uid)
    requires name.uid == uid && LabelsFor(name).generation != NoGeneration && Listed(Last(run.before).phase.world, name)
    ensures
      var desired, acks := Of(Last(run.before).phase.content), Last(run.before).phase.world.acks;
      var g := LabelsFor(name).generation;
      name in Last(run).phase.doomed <==>
      EveryHealthyPodAcks(acks, uid, desired) && g != desired && g != LastCommitted(run, uid, desired)
  {
    var s := Last(run.before);
    RunRecalls(k, run.before, uid);
    CommitRecalls(k, run, uid);
    assert WellLabelled(s.phase.world.cms, s.phase.world.secrets) by { RunKeepsClosure(k, run.before); }
    assert Muted(s.phase.world.acks) by { RunIsMuted(k, run.before); }
    CommitDooms(k, s);
    DoomedExactly(s.phase.world, Last(run).phase.manifest, name);
  }

  /** So the generation programmed before the desired one is spared exactly when not every healthy
      pod runs the desired one yet, or it is also the last one committed before it. */
  lemma PrecedingProgrammedIsSparedExactly(k: Checks, run: Run, uid: string, name: Name)
    requires IsRun(k, run) && run.Then? && Commits(Last(run.before), run.step, uid) && ManifestLeft(run.before, uid)
    requires name.uid == uid && Listed(Last(run.before).phase.world, name)
    requires
      var desired := Of(Last(run.before).phase.content);
      LabelsFor(name).generation == LastProgrammed(run, uid, desired) != NoGeneration
    ensures
      var desired, acks := Of(Last(run.before).phase.content), Last(run.before).phase.world.acks;
      name !in Last(run).phase.doomed <==>
      !EveryHealthyPodAcks(acks, uid, desired) || LastProgrammed(run, uid, desired) == LastCommitted(run, uid, desired)
  {
    CollectedExactly(k, run, uid, name);
    ProgrammedIsOther(run, uid, Of(Last(run.before).phase.content));
  }

  lemma {:induction false} ProgrammedIsOther(run: Run, uid: string, other: Generation)
    ensures LastProgrammed(run, uid, other) == NoGeneration || LastProgrammed(run, uid, other) != other
  {
    if run.Then? {
      ProgrammedIsOther(run.before, uid, other);
    }
  }
}

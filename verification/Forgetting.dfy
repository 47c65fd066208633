/** A run in which the generation programmed before the desired one is collected. */
module Forgetting {
  import opened Compiled
  import opened Building
  import opened Loading
  import opened Publishing
  import opened Protocol
  import opened Safety
  import opened Closure
  import opened Convergence
  import opened Schedules
  import opened Retention

  /** A run in which every sync owns the gateway and nobody outside touches it. */
  ghost predicate Tidy(k: Checks, run: Run, uid: string) {
    IsRun(k, run) && ContinuouslyOwned(run, uid) && Untouched(run, uid) && ManifestLeft(run, uid)
  }

  predicate IsTidy(step: Step, uid: string) {
    Touched(step).None? && !step.Sweep? && (step.BeginSync? ==> uid in step.owned)
  }

  lemma Next(k: Checks, run: Run, step: Step, uid: string, other: Generation) returns (next: Run)
    requires Tidy(k, run, uid) && Enabled(Last(run), step) && IsTidy(step, uid)
    ensures next == Then(run, step, Do(k, Last(run), step)) && Tidy(k, next, uid)
    ensures !step.EndPublish? ==> LastProgrammed(next, uid, other) == LastProgrammed(run, uid, other)
    ensures !step.CommitManifest? ==> LastCommitted(next, uid, other) == LastCommitted(run, uid, other)
  {
    next := Then(run, step, Do(k, Last(run), step));
  }

  // ------------------------------------------------------- one publication --

  /** What a run keeps that only adds objects: pods, acknowledgements, and the names in the store. */
  ghost predicate Grows(s: State, s': State) {
    s'.pods == s.pods && s'.acks == s.acks && s.store.cms.Keys <= s'.store.cms.Keys
  }

  lemma Begin(k: Checks, run: Run, uid: string, content: Content, order: seq<string>, other: Generation) returns (begun: Run)
    requires Tidy(k, run, uid) && Last(run).phase.Idle? && uid != "" && content.gateway.uid == uid && IsOrder(content, order)
    ensures Tidy(k, begun, uid) && Grows(Last(run), Last(begun))
    ensures Restoring(begun, uid, content, order)
    ensures
      var phase := Last(begun).phase;
      && Publishes(phase, uid, content, order) && phase.done == 0
      && phase.world.acks == Last(run).acks && phase.world.cms == Last(run).store.cms
    ensures LastProgrammed(begun, uid, other) == LastProgrammed(run, uid, other)
    ensures LastCommitted(begun, uid, other) == LastCommitted(run, uid, other)
  {
    var listed := Gather(k, run, uid, other);
    begun := Next(k, listed, BeginPublish(uid, content, order), uid, other);
    RunKeepsCare(k, listed, uid);
    PristineIsUnaltered(Last(listed).store, uid, content, order);
  }

  lemma Gather(k: Checks, run: Run, uid: string, other: Generation) returns (listed: Run)
    requires Tidy(k, run, uid) && Last(run).phase.Idle?
    ensures Tidy(k, listed, uid) && Last(listed).store == Last(run).store && Grows(Last(run), Last(listed))
    ensures Last(listed).phase == Syncing(World(Last(run).acks, Last(run).store.cms, Last(run).store.secrets, {uid}))
    ensures LastProgrammed(listed, uid, other) == LastProgrammed(run, uid, other)
    ensures LastCommitted(listed, uid, other) == LastCommitted(run, uid, other)
  {
    var r1 := Next(k, run, BeginSync({uid}), uid, other);
    var r2 := Next(k, r1, ListConfigMaps, uid, other);
    listed := Next(k, r2, ListSecrets, uid, other);
  }

  lemma WriteGrows(k: Checks, s: State)
    requires Enabled(s, WriteObject)
    ensures
      var s' := Do(k, s, WriteObject);
      && Grows(s, s') && s'.phase == s.phase.(done := s.phase.done + 1)
      && (s.phase.done == 0 ==> GatewayConfigName(s.phase.uid, Of(s.phase.content)) in s'.store.cms)
  {
  }

  lemma {:induction false} WriteAll(k: Checks, run: Run, uid: string, content: Content, order: seq<string>, other: Generation) returns (written: Run)
    requires Tidy(k, run, uid) && Restoring(run, uid, content, order)
    requires Publishes(Last(run).phase, uid, content, order) && Last(run).phase.done <= |Objects(uid, content, order)|
    requires Last(run).phase.done > 0 ==> GatewayConfigName(uid, Of(content)) in Last(run).store.cms
    ensures Tidy(k, written, uid) && Restoring(written, uid, content, order) && Grows(Last(run), Last(written))
    ensures Last(written).phase == Last(run).phase.(done := |Objects(uid, content, order)|)
    ensures GatewayConfigName(uid, Of(content)) in Last(written).store.cms
    ensures LastProgrammed(written, uid, other) == LastProgrammed(run, uid, other)
    ensures LastCommitted(written, uid, other) == LastCommitted(run, uid, other)
    decreases |Objects(uid, content, order)| - Last(run).phase.done
  {
    if Last(run).phase.done == |Objects(uid, content, order)| {
      written := run;
    } else {
      WriteGrows(k, Last(run));
      var next := Next(k, run, WriteObject, uid, other);
      written := WriteAll(k, next, uid, content, order, other);
    }
  }

  lemma CommitGrows(k: Checks, s: State)
    requires Enabled(s, CommitManifest)
    ensures Grows(s, Do(k, s, CommitManifest))
  {
  }

  /** One sync's publication of the gateway, up to the commit. */
  lemma Publish(k: Checks, run: Run, uid: string, content: Content, order: seq<string>, other: Generation) returns (published: Run)
    requires Tidy(k, run, uid) && Last(run).phase.Idle? && uid != "" && content.gateway.uid == uid && IsOrder(content, order)
    ensures Tidy(k, published, uid) && Grows(Last(run), Last(published))
    ensures Steady(Last(published), uid, content)
    ensures published.Then? && Commits(Last(published.before), published.step, uid)
    ensures Last(published.before).phase.content == content && Last(published.before).phase.world == Last(published).phase.world
    ensures Collects(Last(published).phase, uid, content)
    ensures Last(published).phase.world.acks == Last(run).acks && Last(published).phase.world.cms == Last(run).store.cms
    ensures GatewayConfigName(uid, Of(content)) in Last(published).store.cms
    ensures LastProgrammed(published, uid, other) == LastProgrammed(run, uid, other)
    ensures LastCommitted(published, uid, other) == if Of(content) != other then Of(content) else LastCommitted(run, uid, other)
  {
    var begun := Begin(k, run, uid, content, order, other);
    var written := WriteAll(k, begun, uid, content, order, other);
    CommitGrows(k, Last(written));
    CommitDooms(k, Last(written));
    published := Next(k, written, CommitManifest, uid, other);
    PublicationMakesSteady(k, published, uid, content, order);
  }

  predicate Collects(phase: Phase, uid: string, content: Content) {
    phase.Collecting? && phase.manifest.gatewayUid == uid && phase.manifest.generation == Of(content)
  }

  // ---------------------------------------------------- the rest of a sync --

  ghost predicate Acknowledge(acks: AckState, uid: string, content: Content) {
    EveryHealthyPodAcks(acks, uid, Of(content))
  }

  /** The sync collects nothing more, declares the generation programmed or not, and ends. */
  lemma Finish(k: Checks, run: Run, uid: string, content: Content, other: Generation) returns (finished: Run)
    requires Tidy(k, run, uid) && Collects(Last(run).phase, uid, content)
    ensures Tidy(k, finished, uid) && Grows(Last(run), Last(finished)) && Last(finished).phase.Idle?
    ensures LastProgrammed(finished, uid, other) ==
            if Acknowledge(Last(run).phase.world.acks, uid, content) && content.gateway.listeners != [] && Of(content) != other then Of(content)
            else LastProgrammed(run, uid, other)
    ensures LastCommitted(finished, uid, other) == LastCommitted(run, uid, other)
  {
    var r1 := Next(k, run, EndPublish, uid, other);
    var r2 := Next(k, r1, BeginSweep, uid, other);
    finished := Next(k, r2, EndSweep, uid, other);
  }

  lemma {:induction false} AsideKeeps(k: Checks, run: Run, base: Run, uid: string, other: Generation)
    requires IsRun(k, run) && Tidy(k, base, uid) && Aside(run, base)
    ensures Tidy(k, run, uid) && Last(run).store == Last(base).store && Last(run).phase == Last(base).phase
    ensures Last(run).pods.Keys == Last(base).pods.Keys
    ensures LastProgrammed(run, uid, other) == LastProgrammed(base, uid, other)
    ensures LastCommitted(run, uid, other) == LastCommitted(base, uid, other)
  {
    if run != base {
      AsideKeeps(k, run.before, base, uid, other);
      DataPlaneLeavesControl(k, Last(run.before), run.step);
      PodSetStays(k, Last(run.before), run.step);
    }
  }

  /** The only pod catches up and is polled. */
  lemma Converge(k: Checks, run: Run, uid: string, content: Content, p: string, other: Generation) returns (converged: Run)
    requires Tidy(k, run, uid) && Steady(Last(run), uid, content) && Admitted(k, content.gateway, SecretOf(content))
    requires Last(run).pods.Keys == {p}
    ensures Tidy(k, converged, uid) && Last(converged).store == Last(run).store && Last(converged).phase == Last(run).phase
    ensures Last(converged).pods.Keys == {p} && Acknowledge(Last(converged).acks, uid, content)
    ensures LastProgrammed(converged, uid, other) == LastProgrammed(run, uid, other)
    ensures LastCommitted(converged, uid, other) == LastCommitted(run, uid, other)
  {
    assert p in Last(run).pods.Keys;
    converged := ConvergesInBoundedSteps(k, run, uid, content, [p]);
    AsideKeeps(k, converged, run, uid, other);
  }

  // --------------------------------------------------------------- the run --

  ghost predicate Publishable(k: Checks, uid: string, content: Content, order: seq<string>) {
    && uid != "" && content.gateway.uid == uid && IsOrder(content, order)
    && Admitted(k, content.gateway, SecretOf(content)) && content.gateway.listeners != []
  }

  /** A generation is published and acknowledged. */
  lemma Settle(k: Checks, run: Run, uid: string, content: Content, order: seq<string>, p: string, other: Generation) returns (settled: Run)
    requires Tidy(k, run, uid) && Last(run).phase.Idle? && Last(run).pods.Keys == {p} && Publishable(k, uid, content, order)
    requires !Acknowledge(Last(run).acks, uid, content) || Of(content) == other
    ensures Tidy(k, settled, uid) && Last(settled).phase.Idle? && Last(settled).pods.Keys == {p}
    ensures Acknowledge(Last(settled).acks, uid, content)
    ensures Last(run).store.cms.Keys <= Last(settled).store.cms.Keys
    ensures GatewayConfigName(uid, Of(content)) in Last(settled).store.cms
    ensures LastProgrammed(settled, uid, other) == LastProgrammed(run, uid, other)
    ensures LastCommitted(settled, uid, other) == if Of(content) != other then Of(content) else LastCommitted(run, uid, other)
  {
    var r1 := Publish(k, run, uid, content, order, other);
    var r2 := Converge(k, r1, uid, content, p, other);
    settled := Finish(k, r2, uid, content, other);
  }

  /** One more sync publishes a generation, without the pods moving. */
  lemma Sync(k: Checks, run: Run, uid: string, content: Content, order: seq<string>, p: string, other: Generation) returns (synced: Run)
    requires Tidy(k, run, uid) && Last(run).phase.Idle? && Last(run).pods.Keys == {p} && Publishable(k, uid, content, order)
    ensures Tidy(k, synced, uid) && Last(synced).phase.Idle? && Last(synced).pods.Keys == {p} && Last(synced).acks == Last(run).acks
    ensures Last(run).store.cms.Keys <= Last(synced).store.cms.Keys
    ensures LastProgrammed(synced, uid, other) ==
            if Acknowledge(Last(run).acks, uid, content) && Of(content) != other then Of(content) else LastProgrammed(run, uid, other)
    ensures LastCommitted(synced, uid, other) == if Of(content) != other then Of(content) else LastCommitted(run, uid, other)
  {
    var r1 := Publish(k, run, uid, content, order, other);
    synced := Finish(k, r1, uid, content, other);
  }

  lemma OneAtATime(acks: AckState, uid: string, a: Content, b: Content)
    requires Acknowledge(acks, uid, a) && Acknowledge(acks, uid, b)
    ensures a == b
  {
    var p :| p in acks && acks[p].healthy;
    assert PodAcks(acks[p], uid, Of(a)) && PodAcks(acks[p], uid, Of(b));
  }

  lemma StartOne(k: Checks, uid: string, p: string, other: Generation) returns (run: Run)
    ensures Tidy(k, run, uid) && Last(run).phase.Idle? && Last(run).pods.Keys == {p} && Last(run).acks == map[]
    ensures LastProgrammed(run, uid, other) == NoGeneration
  {
    run := Next(k, Start, StartPod(p), uid, other);
  }

  /** The first generation is programmed, and the second published over it. */
  lemma ProgramThenSkip(k: Checks, uid: string, first: Content, a: seq<string>, second: Content, b: seq<string>, p: string, other: Generation)
    returns (run: Run)
    requires Publishable(k, uid, first, a) && Publishable(k, uid, second, b)
    requires first != second && Of(first) != other && Of(second) != other
    ensures Tidy(k, run, uid) && Last(run).phase.Idle? && Last(run).pods.Keys == {p}
    ensures Acknowledge(Last(run).acks, uid, first)
    ensures LastProgrammed(run, uid, other) == Of(first) && LastCommitted(run, uid, other) == Of(second)
    ensures GatewayConfigName(uid, Of(first)) in Last(run).store.cms
  {
    var r0 := StartOne(k, uid, p, other);
    var r1 := Settle(k, r0, uid, first, a, p, other);
    var r2 := Sync(k, r1, uid, first, a, p, other);
    run := Sync(k, r2, uid, second, b, p, other);
    if Acknowledge(Last(r2).acks, uid, second) {
      OneAtATime(Last(r2).acks, uid, first, second);
    }
  }

  /** Three generations in turn: the first is programmed, the second committed and never run, the
      third programmed. The sync that finds the third acknowledged collects the first, the
      generation programmed before it. */
  lemma PrecedingProgrammedIsCollected(k: Checks, uid: string, first: Content, a: seq<string>, second: Content, b: seq<string>,
                                       third: Content, c: seq<string>, p: string)
    returns (run: Run)
    requires Publishable(k, uid, first, a) && Publishable(k, uid, second, b) && Publishable(k, uid, third, c)
    requires first != second && first != third && second != third
    ensures
      var name := GatewayConfigName(uid, Of(first));
      && IsRun(k, run) && ContinuouslyOwned(run, uid) && Untouched(run, uid)
      && LastProgrammed(run, uid, Of(third)) == Of(first)
      && run.Then? && run.step == Collect(name)
      && name in Last(run.before).store.cms && name !in Last(run).store.cms
  {
    var other, name := Of(third), GatewayConfigName(uid, Of(first));
    var r1 := ProgramThenSkip(k, uid, first, a, second, b, p, other);
    var r2 := Settle(k, r1, uid, third, c, p, other);
    var r3 := Publish(k, r2, uid, third, c, other);
    PrecedingProgrammedIsSparedExactly(k, r3, uid, name);
    run := Next(k, r3, Collect(name), uid, other);
  }

  /** A gateway with one HTTP listener and no routes. */
  function Plain(uid: string, hostname: string): Content {
    Content(GatewayConfig(uid, "ns", "name", [Listener("web", 80, 10000, "HTTP", hostname, false, "", false)], false, []), map[], map[])
  }

  /** Three such gateways, differing in hostname, are such generations. */
  lemma PlainIsPublishable(k: Checks, uid: string, hostname: string)
    requires uid != "" && k.proxies([])
    ensures Publishable(k, uid, Plain(uid, hostname), [])
  {
    assert Plain(uid, hostname).gateway.listeners[0].name == "web";
  }
}

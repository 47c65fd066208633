/** A pod is what it has processed: over every run its queue loses and reorders nothing, and its
    tables and reports are a function of the snapshots taken from it. */
module Histories {
  import opened Building
  import opened Serving
  import opened Protocol
  import opened Safety
  import opened Acknowledging
  import opened Convergence

  // ------------------------------------------------------------- the queue --

  /** What the pod's read would mail. */
  function ReadOf(s: State, p: string): RawConfig
    requires p in s.pods && s.pods[p].listed.Some?
  {
    RawConfig(s.pods[p].listed.value, s.store.secrets)
  }

  predicate Changed(s: State, p: string)
    requires p in s.pods && s.pods[p].listed.Some?
  {
    var raw, last := ReadOf(s, p), s.pods[p].lastSent;
    || (exists name | name in raw.cms :: name !in last.cms || last.cms[name].version != raw.cms[name].version)
    || (exists name | name in last.cms :: name !in raw.cms)
    || (exists name | name in raw.secrets :: name !in last.secrets || last.secrets[name].version != raw.secrets[name].version)
    || (exists name | name in last.secrets :: name !in raw.secrets)
  }

  /** The snapshots the pod has mailed to itself since it started: those of its completed reads in
      which some name or version had changed. */
  ghost function Mailed(run: Run, p: string): seq<RawConfig> {
    if run.Start? || Restarts(run.step, p) then []
    else
      var s, before := Last(run.before), Mailed(run.before, p);
      if run.step == ReadSecrets(p) && p in s.pods && s.pods[p].listed.Some? && Changed(s, p) then before + [ReadOf(s, p)]
      else before
  }

  /** The snapshots it has rebuilt from since it started. */
  function Processed(run: Run, p: string): seq<RawConfig> {
    if run.Start? || Restarts(run.step, p) then []
    else
      var s, before := Last(run.before), Processed(run.before, p);
      if run.step == Rebuild(p) && p in s.pods && s.pods[p].mailbox != [] then before + [s.pods[p].mailbox[0]] else before
  }

  lemma ChangedExactly(s: State, p: string)
    requires p in s.pods && s.pods[p].listed.Some?
    ensures Changed(s, p) <==> SnapshotOf(ReadOf(s, p)) != SnapshotOf(s.pods[p].lastSent)
  {
    var raw, last := ReadOf(s, p), s.pods[p].lastSent;
    var a, b := SnapshotOf(raw), SnapshotOf(last);
    if a == b {
      assert a.cms.Keys == raw.cms.Keys && b.cms.Keys == last.cms.Keys;
      assert a.secrets.Keys == raw.secrets.Keys && b.secrets.Keys == last.secrets.Keys;
      assert forall name | name in raw.cms :: a.cms[name] == b.cms[name];
      assert forall name | name in raw.secrets :: a.secrets[name] == b.secrets[name];
    }
    if !Changed(s, p) {
      assert a.cms == b.cms && a.secrets == b.secrets;
    }
  }

  lemma QueueStep(k: Checks, s: State, step: Step, p: string)
    requires Enabled(s, step) && p in s.pods && !Restarts(step, p)
    ensures p in Do(k, s, step).pods
    ensures
      var queue := s.pods[p].mailbox;
      Do(k, s, step).pods[p].mailbox ==
      if step == ReadSecrets(p) then queue + (if Changed(s, p) then [ReadOf(s, p)] else [])
      else if step == Rebuild(p) then queue[1..]
      else queue
  {
    if !(IsPodStep(step) && step.pod == p) {
      OthersKeepPod(k, s, step, p);
    } else if step == ReadSecrets(p) {
      ChangedExactly(s, p);
    }
  }

  lemma StartIsEmpty(k: Checks, s: State, step: Step, p: string)
    requires Enabled(s, step) && p in Do(k, s, step).pods && (p !in s.pods || Restarts(step, p))
    ensures step == StartPod(p) && Do(k, s, step).pods[p] == FreshPod
  {
    if !IsPodStep(step) {
      PodsStay(k, s, step);
    }
  }

  /** Every snapshot mailed is processed or still queued, in the order it was mailed. */
  lemma {:induction false} QueueLosesNothing(k: Checks, run: Run, p: string)
    requires IsRun(k, run) && p in Last(run).pods
    ensures Mailed(run, p) == Processed(run, p) + Last(run).pods[p].mailbox
  {
    var s, step := Last(run.before), run.step;
    if p !in s.pods || Restarts(step, p) {
      StartIsEmpty(k, s, step, p);
    } else {
      QueueLosesNothing(k, run.before, p);
      QueueStep(k, s, step, p);
      if step == Rebuild(p) {
        assert s.pods[p].mailbox == [s.pods[p].mailbox[0]] + s.pods[p].mailbox[1..];
      }
    }
  }

  // ----------------------------------------------------------- the history --

  ghost predicate AllByName(raws: seq<RawConfig>) {
    forall i | 0 <= i < |raws| :: ManifestsByName(raws[i].cms)
  }

  lemma LoaderStep(k: Checks, s: State, step: Step, p: string)
    requires Enabled(s, step) && p in s.pods && !Restarts(step, p)
    ensures p in Do(k, s, step).pods
    ensures step != Rebuild(p) ==>
      var pod, pod' := s.pods[p], Do(k, s, step).pods[p];
      pod'.tables == pod.tables && Current(pod') == Current(pod)
  {
    if !(IsPodStep(step) && step.pod == p) {
      OthersKeepPod(k, s, step, p);
    }
  }

  lemma RebuildStep(k: Checks, s: State, p: string)
    requires Enabled(s, Rebuild(p))
    ensures p in Do(k, s, Rebuild(p)).pods
    ensures
      var pod, pod' := s.pods[p], Do(k, s, Rebuild(p)).pods[p];
      && pod.unpublished.None?
      && pod'.tables == NextTables(k, pod.mailbox[0], pod.tables, Current(pod))
      && Current(pod') == NextStatuses(k, pod.mailbox[0], pod.tables, Current(pod))
  {
  }

  /** In every reachable state a pod serves and reports exactly what processing its snapshots one
      after another gives. */
  lemma {:induction false} PodIsItsHistory(k: Checks, run: Run, p: string)
    requires IsRun(k, run) && p in Last(run).pods
    ensures AllByName(Processed(run, p))
    ensures
      var pod, history := Last(run).pods[p], Process(k, Processed(run, p));
      pod.tables == history.tables && Current(pod) == history.statuses
  {
    var s, step := Last(run.before), run.step;
    if p !in s.pods || Restarts(step, p) {
      StartIsEmpty(k, s, step, p);
      NoHistory(k, run, p);
    } else {
      PodIsItsHistory(k, run.before, p);
      if step == Rebuild(p) {
        RebuildStep(k, s, p);
        HistoryGrows(k, Processed(run.before, p), s.pods[p].mailbox[0]);
      } else {
        LoaderStep(k, s, step, p);
      }
    }
  }

  lemma HistoryGrows(k: Checks, before: seq<RawConfig>, raw: RawConfig)
    requires AllByName(before) && ManifestsByName(raw.cms)
    ensures AllByName(before + [raw])
    ensures
      var history, more := Process(k, before), Process(k, before + [raw]);
      && more.tables == NextTables(k, raw, history.tables, history.statuses)
      && more.statuses == NextStatuses(k, raw, history.tables, history.statuses)
  {
    assert (before + [raw])[..|before|] == before;
  }

  lemma NoHistory(k: Checks, run: Run, p: string)
    requires IsRun(k, run) && run.Then? && run.step == StartPod(p)
    ensures Processed(run, p) == [] && Process(k, []) == Acknowledging.Processed(map[], map[])
  {
  }

  /** So two pods, in whatever reachable states, whose histories agree on a gateway serve it alike and
      report the same of it, whatever else they were sent. */
  lemma PodsAreIsolated(k: Checks, run: Run, run': Run, p: string, p': string, uid: string)
    requires IsRun(k, run) && p in Last(run).pods && IsRun(k, run') && p' in Last(run').pods
    requires |Processed(run, p)| == |Processed(run', p')|
    requires forall i | 0 <= i < |Processed(run, p)| :: AgreeOnGateway(Processed(run, p)[i], Processed(run', p')[i], uid)
    ensures Find(Last(run).pods[p].tables, uid) == Find(Last(run').pods[p'].tables, uid)
    ensures Find(Current(Last(run).pods[p]), uid) == Find(Current(Last(run').pods[p']), uid)
  {
    PodIsItsHistory(k, run, p);
    PodIsItsHistory(k, run', p');
    HistoriesAreIsolated(k, uid, Processed(run, p), Processed(run', p'));
  }
}

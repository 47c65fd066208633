/** The schedules convergence asks for exist: a bounded number of steps takes every pod and the
    poller there from any reachable state. */
module Schedules {
  import opened Compiled
  import opened Building
  import opened Loading
  import opened Publishing
  import opened Protocol
  import opened Safety
  import opened Acknowledging
  import opened Convergence

  function Length(run: Run): nat {
    if run.Start? then 0 else Length(run.before) + 1
  }

  predicate IsWork(step: Step, p: string) {
    step == ReadConfigMaps(p) || step == ReadSecrets(p) || step == AbandonRead(p) || step == Rebuild(p) || step == PublishStatuses(p)
  }

  /** The run went on with steps of one pod only. */
  predicate Worked(run: Run, base: Run, p: string) {
    run == base || (run.Then? && Worked(run.before, base, p) && IsWork(run.step, p))
  }

  lemma {:induction false} WorkIsLonger(run: Run, base: Run, p: string)
    requires Worked(run, base, p)
    ensures Length(run) >= Length(base) && (run != base ==> Length(run) > Length(base))
  {
    if run != base {
      WorkIsLonger(run.before, base, p);
    }
  }

  lemma {:induction false} WorkJoins(run: Run, middle: Run, base: Run, p: string)
    requires Worked(run, middle, p) && Worked(middle, base, p)
    ensures Worked(run, base, p)
  {
    if run != middle {
      WorkJoins(run.before, middle, base, p);
    }
  }

  lemma PodSetStays(k: Checks, s: State, step: Step)
    requires Enabled(s, step) && !step.StartPod? && !step.StopPod?
    ensures Do(k, s, step).pods.Keys == s.pods.Keys
  {
    if !IsPodStep(step) {
      PodsStay(k, s, step);
    }
  }

  lemma WorkSpares(k: Checks, s: State, step: Step, p: string)
    requires Enabled(s, step) && IsWork(step, p)
    ensures Do(k, s, step).pods.Keys == s.pods.Keys
    ensures forall q | q in s.pods && q != p :: Do(k, s, step).pods[q] == s.pods[q]
  {
    PodSetStays(k, s, step);
    forall q | q in s.pods && q != p
      ensures Do(k, s, step).pods[q] == s.pods[q]
    {
      OthersKeepPod(k, s, step, q);
    }
  }

  lemma {:induction false} WorkedSpares(k: Checks, run: Run, base: Run, p: string)
    requires IsRun(k, run) && Worked(run, base, p)
    ensures Last(run).pods.Keys == Last(base).pods.Keys
    ensures forall q | q in Last(base).pods && q != p :: Last(run).pods[q] == Last(base).pods[q]
  {
    if run != base {
      WorkedSpares(k, run.before, base, p);
      WorkSpares(k, Last(run.before), run.step, p);
    }
  }

  /** The steps a pod still owes: two per queued snapshot, and one for statuses not yet out. */
  function Debt(pod: Pod): nat {
    2 * |pod.mailbox| + if pod.unpublished.Some? then 1 else 0
  }

  function Payment(pod: Pod, p: string): Step {
    if pod.unpublished.Some? then PublishStatuses(p) else Rebuild(p)
  }

  lemma PaymentPays(k: Checks, s: State, p: string)
    requires p in s.pods && Enabled(s, Payment(s.pods[p], p))
    ensures
      var s' := Do(k, s, Payment(s.pods[p], p));
      p in s'.pods && Debt(s'.pods[p]) == Debt(s.pods[p]) - 1
  {
  }

  lemma Continue(k: Checks, run: Run, step: Step, p: string) returns (next: Run)
    requires IsRun(k, run) && Enabled(Last(run), step) && IsWork(step, p)
    ensures next == Then(run, step, Do(k, Last(run), step))
    ensures IsRun(k, next) && Worked(next, run, p) && Length(next) == Length(run) + 1
  {
    next := Then(run, step, Do(k, Last(run), step));
    assert Worked(run, run, p);
  }

  lemma {:induction false} Drain(k: Checks, run: Run, p: string) returns (drained: Run)
    requires IsRun(k, run) && p in Last(run).pods
    ensures IsRun(k, drained) && Worked(drained, run, p) && Drained(Last(drained), p)
    ensures Length(drained) == Length(run) + Debt(Last(run).pods[p])
    decreases Debt(Last(run).pods[p])
  {
    var pod := Last(run).pods[p];
    if Debt(pod) == 0 {
      drained := run;
    } else {
      if pod.unpublished.None? {
        RebuildIsNeverBlocked(k, run, p);
      }
      PaymentPays(k, Last(run), p);
      var next := Continue(k, run, Payment(pod, p), p);
      drained := Drain(k, next, p);
      WorkJoins(drained, next, run, p);
    }
  }

  // ---------------------------------------------------------------- reads --

  lemma {:induction false} ReadPersists(run: Run, middle: Run, base: Run, p: string)
    requires Worked(run, middle, p) && HasRead(middle, base, p) && Length(base) <= Length(middle)
    ensures HasRead(run, base, p)
  {
    if run != middle {
      ReadPersists(run.before, middle, base, p);
      WorkIsLonger(run, middle, p);
    }
  }

  lemma {:induction false} CatchUpPersists(run: Run, middle: Run, base: Run, p: string, q: string)
    requires Worked(run, middle, p) && HasCaughtUp(middle, base, q) && Length(base) <= Length(middle)
    ensures HasCaughtUp(run, base, q)
  {
    if run != middle {
      CatchUpPersists(run.before, middle, base, p, q);
      WorkIsLonger(run, middle, p);
    }
  }

  /** The run went on with steps of running pods and of the poller only. */
  predicate Aside(run: Run, base: Run) {
    run == base ||
    (run.Then? && Aside(run.before, base) &&
     (IsPodStep(run.step) || IsPollStep(run.step)) && !run.step.StartPod? && !run.step.StopPod?)
  }

  lemma {:induction false} WorkIsAside(run: Run, middle: Run, base: Run, p: string)
    requires Worked(run, middle, p) && Aside(middle, base)
    ensures Aside(run, base)
  {
    if run != middle {
      WorkIsAside(run.before, middle, base, p);
    }
  }

  lemma {:induction false} AsideIsQuiet(run: Run, base: Run, uid: string, content: Content)
    requires Aside(run, base)
    ensures Window(run, base, uid, content)
  {
    if run != base {
      AsideIsQuiet(run.before, base, uid, content);
    }
  }

  lemma ReadingLists(k: Checks, s: State, p: string)
    requires p in s.pods
    ensures
      var s1 := Do(k, s, AbandonRead(p));
      && Enabled(s1, ReadConfigMaps(p)) && Debt(s1.pods[p]) == Debt(s.pods[p])
      && var s2 := Do(k, s1, ReadConfigMaps(p));
      && Enabled(s2, ReadSecrets(p)) && Debt(s2.pods[p]) == Debt(s.pods[p])
  {
  }

  lemma ReadingQueues(k: Checks, s: State, p: string)
    requires Enabled(s, ReadSecrets(p))
    ensures
      var s' := Do(k, s, ReadSecrets(p));
      p in s'.pods && Debt(s'.pods[p]) <= Debt(s.pods[p]) + 2
  {
  }

  /** One read and drain of one pod. */
  lemma CatchUp(k: Checks, base: Run, run: Run, p: string) returns (caught: Run)
    requires IsRun(k, run) && p in Last(run).pods && Length(base) <= Length(run)
    ensures IsRun(k, caught) && Worked(caught, run, p) && HasCaughtUp(caught, base, p)
    ensures Length(run) < Length(caught) <= Length(run) + Debt(Last(run).pods[p]) + 5
  {
    ReadingLists(k, Last(run), p);
    var r1 := Continue(k, run, AbandonRead(p), p);
    var r2 := Continue(k, r1, ReadConfigMaps(p), p);
    ReadingQueues(k, Last(r2), p);
    var r3 := Continue(k, r2, ReadSecrets(p), p);
    assert Reading(r2, base, p);
    assert HasRead(r3, base, p);
    caught := Drain(k, r3, p);
    WorkJoins(r2, r1, run, p);
    WorkJoins(r3, r2, run, p);
    WorkJoins(caught, r3, run, p);
    ReadPersists(caught, r3, base, p);
  }

  // ------------------------------------------------------------- all pods --

  predicate Lists(order: seq<string>, pods: map<string, Pod>) {
    && (forall i | 0 <= i < |order| :: order[i] in pods)
    && (forall i, j | 0 <= i < j < |order| :: order[i] != order[j])
  }

  /** What reading and draining the listed pods costs. */
  function Work(s: State, order: seq<string>): nat
    requires forall i | 0 <= i < |order| :: order[i] in s.pods
  {
    if order == [] then 0 else Debt(s.pods[order[0]]) + 5 + Work(s, order[1..])
  }

  lemma {:induction false} WorkDepends(s: State, s': State, order: seq<string>)
    requires forall i | 0 <= i < |order| :: order[i] in s.pods && order[i] in s'.pods && s.pods[order[i]] == s'.pods[order[i]]
    ensures Work(s, order) == Work(s', order)
  {
    if order != [] {
      WorkDepends(s, s', order[1..]);
    }
  }

  lemma {:induction false} CatchUpAll(k: Checks, base: Run, run: Run, order: seq<string>) returns (caught: Run)
    requires IsRun(k, run) && Aside(run, base) && Length(base) <= Length(run) && Lists(order, Last(run).pods)
    ensures IsRun(k, caught) && Aside(caught, base)
    ensures Last(caught).pods.Keys == Last(run).pods.Keys
    ensures forall q | q in order || HasCaughtUp(run, base, q) :: HasCaughtUp(caught, base, q)
    ensures Length(run) <= Length(caught) <= Length(run) + Work(Last(run), order)
    decreases |order|
  {
    if order == [] {
      caught := run;
    } else {
      var p, rest := order[0], order[1..];
      var next := CatchUp(k, base, run, p);
      WorkedSpares(k, next, run, p);
      WorkIsAside(next, run, base, p);
      WorkDepends(Last(run), Last(next), rest);
      caught := CatchUpAll(k, base, next, rest);
      forall q | q in order || HasCaughtUp(run, base, q)
        ensures HasCaughtUp(caught, base, q)
      {
        if HasCaughtUp(run, base, q) {
          CatchUpPersists(next, run, base, p, q);
        } else if q != p {
          assert q in rest;
        }
      }
    }
  }

  // ------------------------------------------------------------- the poll --

  lemma {:induction false} PollThem(k: Checks, base: Run, run: Run, order: seq<string>) returns (polled: Run)
    requires IsRun(k, run) && Aside(run, base) && Polling(run, base) && Length(base) < Length(run)
    requires forall i | 0 <= i < |order| :: order[i] in Last(run).pods && HasCaughtUp(run, base, order[i])
    ensures IsRun(k, polled) && Aside(polled, base) && Polling(polled, base)
    ensures Length(polled) == Length(run) + |order|
    ensures forall q | q in order || (q in Last(run).polling && Last(run).polling[q].healthy) ::
      q in Last(polled).polling && Last(polled).polling[q].healthy
    decreases |order|
  {
    if order == [] {
      polled := run;
    } else {
      var p := order[0];
      var next := Then(run, PollPod(p, true), Do(k, Last(run), PollPod(p, true)));
      PollStepPolls(k, Last(run), p);
      polled := PollThem(k, base, next, order[1..]);
      forall q | q in order
        ensures q in Last(polled).polling && Last(polled).polling[q].healthy
      {
        assert q == p || q in order[1..];
      }
    }
  }

  lemma PollStepPolls(k: Checks, s: State, p: string)
    requires p in s.pods
    ensures
      var s' := Do(k, s, PollPod(p, true));
      && s'.pods == s.pods
      && p in s'.polling && s'.polling[p].healthy
      && forall q | q in s.polling && s.polling[q].healthy :: q in s'.polling && s'.polling[q].healthy
  {
  }

  lemma BeginPolling(k: Checks, base: Run, run: Run) returns (begun: Run)
    requires IsRun(k, run) && Aside(run, base) && Length(base) <= Length(run)
    requires forall p | p in Last(run).pods :: HasCaughtUp(run, base, p)
    ensures IsRun(k, begun) && Aside(begun, base) && Polling(begun, base)
    ensures Last(begun).pods == Last(run).pods && Length(begun) == Length(run) + 1
    ensures forall p | p in Last(begun).pods :: HasCaughtUp(begun, base, p)
  {
    begun := Then(run, BeginPoll, Do(k, Last(run), BeginPoll));
  }

  lemma EndPolling(k: Checks, base: Run, run: Run) returns (ended: Run)
    requires IsRun(k, run) && Aside(run, base) && Polling(run, base) && Length(base) <= Length(run)
    ensures IsRun(k, ended) && Aside(ended, base) && Length(ended) == Length(run) + 1
    ensures ended.Then? && ended.before == run && ended.step == PublishAcks && ended != base
    ensures Last(ended).acks == Last(run).polling
  {
    ended := Then(run, PublishAcks, Do(k, Last(run), PublishAcks));
  }

  /** From any reachable state in which the generation is published and closed, a number of
      steps of the pods and the poller, linear in the queued snapshots and the pods, makes every
      pod acknowledge it. */
  lemma ConvergesInBoundedSteps(k: Checks, base: Run, uid: string, content: Content, order: seq<string>) returns (run: Run)
    requires IsRun(k, base) && Steady(Last(base), uid, content) && Admitted(k, content.gateway, SecretOf(content))
    requires Lists(order, Last(base).pods) && order != [] && forall p | p in Last(base).pods :: p in order
    ensures IsRun(k, run) && Aside(run, base)
    ensures Length(run) <= Length(base) + Work(Last(base), order) + |order| + 2
    ensures EveryHealthyPodAcks(Last(run).acks, uid, Of(content))
    ensures forall p | p in Last(base).pods :: p in Last(run).acks && Last(run).acks[p].healthy
  {
    var caught := CatchUpAll(k, base, base, order);
    var begun := BeginPolling(k, base, caught);
    var polled := PollThem(k, base, begun, order);
    run := EndPolling(k, base, polled);
    AsideIsQuiet(run, base, uid, content);
    assert order[0] in Last(polled).polling && Last(polled).polling[order[0]].healthy;
    PublishedGenerationIsAcked(k, run, base, uid, content);
  }
}

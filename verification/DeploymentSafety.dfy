/** What holds of a cloud deployment job over its whole life, in every run. */
module DeploymentSafety {
  import opened DeploymentProtocol

  // ---------------------------------------------------------------------- accounting

  /** Approvals are spent by attempts, one each. */
  predicate Accounted(job: Job) {
    && job.approvals == job.attempts + (if job.status == Queued then 1 else 0)
    && job.attempts <= 3
    && (job.status == Queued ==> job.attempts < 3)
    && (job.status == AwaitingApproval ==> job.attempts == 0 && !job.started)
    && (job.status == Queued && job.kind == Verification ==> !job.started)
  }

  lemma {:induction false} LogAccounted(s: State, i: nat)
    requires LogOk(s) && i < |s.log|
    ensures Accounted(s.log[i].job) && s.log[i].job.kind == s.log[0].job.kind
  {
    assert Chained(s.log, i);
    if i > 0 {
      LogAccounted(s, i - 1);
    }
  }

  lemma PlanningOk(kind: Kind, now: int)
    ensures Inv(Planning(kind, now))
  {
    assert Chained(Planning(kind, now).log, 0);
  }

  // ---------------------------------------------------------------------- the history of a job

  /**
   What a step, whose request went out at `now`, makes of the version before: an approval of a plan at most half
   an hour old or of an attempt that failed, with fewer than three attempts so far; a claim for half an hour from
   its clock reading; a mark once that time is over; a fence at least two minutes before; or a report.
   */
  predicate Causes(step: Step, now: int, was: Job, job: Job, cause: Cause) {
    match step
    case Approve(_, at, fate) =>
      && cause.Approval? && !fate.Unsent? && at <= now
      && ((was.status == AwaitingApproval && at <= was.createdAt + 1800) || was.status in {Failed, Interrupted})
      && was.attempts < 3 && (was.kind == Verification ==> !was.started)
      && job == Job(was.kind, Queued, was.attempts, was.approvals + 1, was.createdAt, was.leaseUntil, was.started)
    case Claim(_, at, fate) =>
      && cause.Claimed? && !fate.Unsent? && at <= now && was.status == Queued
      && job == Job(was.kind, Running, was.attempts + 1, was.approvals, was.createdAt, at + 1800, was.started)
    case Expire(_, at, fate) =>
      && cause.Expiry? && !fate.Unsent? && was.status == Running && was.leaseUntil < at <= now
      && job == was.(status := Interrupted)
    case Fence(e, at, arm, fate) =>
      && cause == Fenced(e) && !fate.Unsent? && was.status == Running && at <= now && at + 120 < was.leaseUntil
      && (arm && was.kind != CosmosContainer ==> !was.started)
      && job == was.(started := was.started || arm)
    case Succeed(e, fate) =>
      cause == Reported(e) && !fate.Unsent? && was.status == Running && job == was.(status := Succeeded)
    case Fail(e, fate) =>
      cause == Reported(e) && !fate.Unsent? && was.status == Running && job == was.(status := Failed)
    case _ => false
  }

  /** Step `k` of the run wrote version `i`, over the version before it. */
  ghost predicate WrittenAt(init: State, steps: seq<Step>, k: nat, i: nat)
    requires 0 < i < |Run(init, steps).log|
  {
    && k < |steps| && |Run(init, steps[..k]).log| == i
    && var log := Run(init, steps).log;
       Causes(steps[k], Run(init, steps[..k]).now, log[i - 1].job, log[i].job, log[i].cause)
  }

  lemma StepCauses(s: State, step: Step)
    requires Inv(s) && Next(s, step).log != s.log
    ensures var n := Next(s, step);
            && |n.log| == |s.log| + 1 && s.log != []
            && Causes(step, s.now, Last(s).job, Last(n).job, Last(n).cause)
  {
    if (step.Fence? || step.Succeed? || step.Fail?) && step.executor < |s.executors| {
      assert ExecutorOk(s, step.executor);
    }
    hide LogOk, ExecutorsOk;
  }

  /** In every run each version of the job but the plan was written by one step, and is what that step causes. */
  lemma {:induction false} EveryVersionIsCaused(kind: Kind, now: int, steps: seq<Step>, i: nat)
    requires 0 < i < |Run(Planning(kind, now), steps).log|
    ensures exists k: nat :: WrittenAt(Planning(kind, now), steps, k, i)
  {
    var init := Planning(kind, now);
    if steps != [] {
      var front, step := steps[..|steps| - 1], steps[|steps| - 1];
      PlanningOk(kind, now);
      RunKeepsInv(init, front);
      RunAppended(init, front, step);
      NextGrows(Run(init, front), step);
      assert front + [step] == steps;
      if i < |Run(init, front).log| {
        EveryVersionIsCaused(kind, now, front, i);
        var k: nat :| WrittenAt(init, front, k, i);
        hide Run, Next, Causes;
        assert steps[..k] == front[..k] && steps[k] == front[k];
        assert WrittenAt(init, steps, k, i);
      } else {
        StepCauses(Run(init, front), step);
        hide Run, Next, Causes;
        assert WrittenAt(init, steps, |front|, i);
      }
    }
  }

  /** In every reachable state, in every version ever stored, the job's books balance. */
  lemma BooksBalance(kind: Kind, now: int, steps: seq<Step>, i: nat)
    requires i < |Run(Planning(kind, now), steps).log|
    ensures Accounted(Run(Planning(kind, now), steps).log[i].job)
  {
    PlanningOk(kind, now);
    RunKeepsInv(Planning(kind, now), steps);
    LogAccounted(Run(Planning(kind, now), steps), i);
  }

  /** Every claim spends one approval: the version before it was queued, with one approval unspent. */
  lemma ClaimsSpendApprovals(kind: Kind, now: int, steps: seq<Step>, i: nat)
    requires i < |Run(Planning(kind, now), steps).log|
    requires Run(Planning(kind, now), steps).log[i].cause.Claimed?
    ensures var log := Run(Planning(kind, now), steps).log;
            && i > 0 && log[i - 1].job.approvals == log[i - 1].job.attempts + 1
            && log[i].job.approvals == log[i].job.attempts == log[i - 1].job.attempts + 1
  {
    var s := Run(Planning(kind, now), steps);
    PlanningOk(kind, now);
    RunKeepsInv(Planning(kind, now), steps);
    assert Chained(s.log, i);
    LogAccounted(s, i - 1);
  }

  lemma NotSucceededBefore(s: State, i: nat)
    requires LogOk(s) && i + 1 < |s.log|
    ensures s.log[i].job.status != Succeeded
  {
    assert Chained(s.log, i + 1);
  }

  /** A job that succeeded is never written again. */
  lemma SucceededIsTerminal(kind: Kind, now: int, steps: seq<Step>, i: nat)
    requires i < |Run(Planning(kind, now), steps).log|
    requires Run(Planning(kind, now), steps).log[i].job.status == Succeeded
    ensures i == |Run(Planning(kind, now), steps).log| - 1
  {
    var s := Run(Planning(kind, now), steps);
    PlanningOk(kind, now);
    RunKeepsInv(Planning(kind, now), steps);
    if i + 1 < |s.log| {
      NotSucceededBefore(s, i);
    }
  }

  /** At most one executor that is still at work holds the current etag. */
  lemma OneHolder(kind: Kind, now: int, steps: seq<Step>, e: nat, f: nat)
    requires var s := Run(Planning(kind, now), steps);
             && e < |s.executors| && f < |s.executors| && !s.executors[e].phase.Done? && !s.executors[f].phase.Done?
             && Newest(s, s.executors[e].tag) && Newest(s, s.executors[f].tag)
    ensures e == f
  {
    var s := Run(Planning(kind, now), steps);
    PlanningOk(kind, now);
    RunKeepsInv(Planning(kind, now), steps);
    assert ExecutorOk(s, e) && ExecutorOk(s, f);
  }

  // ---------------------------------------------------------------------- fencing

  ghost predicate Authored(log: seq<Version>, from: nat, e: nat) {
    exists i | from <= i < |log| :: By(log[i].cause, e)
  }

  predicate By(cause: Cause, e: nat) {
    (cause.Claimed? || cause.Fenced? || cause.Reported?) && cause.executor == e
  }

  lemma NextKeepsOvertaken(s: State, step: Step, e: nat)
    requires Inv(s) && e < |s.executors| && s.executors[e].tag + 1 < |s.log|
    ensures var n := Next(s, step);
            && e < |n.executors| && n.executors[e].tag == s.executors[e].tag && |s.log| <= |n.log|
            && !Authored(n.log, |s.log|, e)
  {
    NextKeepsInv(s, step);
  }

  /**
   Once anything has been written after an executor's own last version, it never writes again:
   in no continuation of the run does it commit a version.
   */
  lemma {:induction false} OvertakenNeverWrites(s: State, steps: seq<Step>, e: nat)
    requires Inv(s) && e < |s.executors| && s.executors[e].tag + 1 < |s.log|
    ensures var n := Run(s, steps);
            && |s.log| <= |n.log| && e < |n.executors| && n.executors[e].tag == s.executors[e].tag
            && !Authored(n.log, |s.log|, e)
  {
    if steps != [] {
      var before, step := steps[..|steps| - 1], steps[|steps| - 1];
      OvertakenNeverWrites(s, before, e);
      RunKeepsInv(s, before);
      var m, n := Run(s, before), Run(s, steps);
      NextKeepsOvertaken(m, step, e);
      NextGrows(m, step);
      forall i | |s.log| <= i < |n.log| ensures !By(n.log[i].cause, e) {
        if i < |m.log| {
          assert n.log[i] == m.log[i];
        }
      }
    }
  }

  /**
   Marking a job interrupted, or approving it again, fences off every executor there has been: none
   of them commits a version in any continuation.
   */
  lemma InterruptionFences(s: State, step: Step, steps: seq<Step>, e: nat)
    requires Inv(s) && (step.Expire? || step.Approve?) && Next(s, step).log != s.log
    requires e < |s.executors|
    ensures !Authored(Run(Next(s, step), steps).log, |Next(s, step).log|, e)
  {
    NextKeepsInv(s, step);
    assert ExecutorOk(s, e);
    OvertakenNeverWrites(Next(s, step), steps, e);
  }

  // ---------------------------------------------------------------------- actions in time

  /** What one check of the deadline guards is over within the margin. */
  predicate Prompt(s: State, step: Step) {
    (step.Act? || step.ActOnce?) && step.executor < |s.executors|
    && CheckTime(s.executors[step.executor].phase).Some? ==>
      s.now <= CheckTime(s.executors[step.executor].phase).value + 120
  }

  ghost predicate PromptRun(s: State, steps: seq<Step>) {
    steps == [] ||
    (PromptRun(s, steps[..|steps| - 1]) && Prompt(Run(s, steps[..|steps| - 1]), steps[|steps| - 1]))
  }

  lemma {:induction false} AttemptsGrow(s: State, i: nat, j: nat)
    requires LogOk(s) && i <= j < |s.log|
    ensures s.log[i].job.attempts <= s.log[j].job.attempts
  {
    if i < j {
      assert Chained(s.log, j);
      AttemptsGrow(s, i, j - 1);
    }
  }

  /** Every action belongs to the attempt that was the latest one when it happened. */
  ghost predicate Timely(s: State, a: Action) {
    && 0 < a.versions <= |s.log|
    && s.log[a.versions - 1].job.attempts == a.attempt
  }

  lemma {:induction false} ActionsTimely(s: State, steps: seq<Step>)
    requires Inv(s) && s.actions == [] && PromptRun(s, steps)
    ensures forall i | 0 <= i < |Run(s, steps).actions| :: Timely(Run(s, steps), Run(s, steps).actions[i])
  {
    if steps != [] {
      var before, step := steps[..|steps| - 1], steps[|steps| - 1];
      ActionsTimely(s, before);
      RunKeepsInv(s, before);
      ActionStaysTimely(Run(s, before), step);
    }
  }

  lemma ActionStaysTimely(s: State, step: Step)
    requires Inv(s) && Prompt(s, step)
    requires forall i | 0 <= i < |s.actions| :: Timely(s, s.actions[i])
    ensures forall i | 0 <= i < |Next(s, step).actions| :: Timely(Next(s, step), Next(s, step).actions[i])
  {
    var n := Next(s, step);
    NextGrows(s, step);
    if (step.Act? || step.ActOnce?) && step.executor < |s.executors| {
      assert ExecutorOk(s, step.executor);
    }
    forall i | 0 <= i < |n.actions| ensures Timely(n, n.actions[i]) {
      if i < |s.actions| {
        assert Timely(s, s.actions[i]) && n.actions[i] == s.actions[i];
        assert n.log[s.actions[i].versions - 1] == s.log[s.actions[i].versions - 1];
      }
    }
  }

  /**
   Attempts do not overlap: if whatever one fence guards is over within 120 seconds of its deadline
   check, no action of an attempt happens once a later attempt has been claimed.
   */
  lemma NoActionAfterALaterClaim(kind: Kind, now: int, steps: seq<Step>, a: nat, i: nat)
    requires PromptRun(Planning(kind, now), steps)
    requires var s := Run(Planning(kind, now), steps);
             && a < |s.actions| && i < |s.log|
             && s.log[i].cause.Claimed? && s.log[i].job.attempts > s.actions[a].attempt
    ensures Run(Planning(kind, now), steps).actions[a].versions <= i
  {
    var s := Run(Planning(kind, now), steps);
    PlanningOk(kind, now);
    RunKeepsInv(Planning(kind, now), steps);
    ActionsTimely(Planning(kind, now), steps);
    assert Timely(s, s.actions[a]);
    if i < s.actions[a].versions {
      AttemptsGrow(s, i, s.actions[a].versions - 1);
    }
  }

  // ---------------------------------------------------------------------- at most once

  ghost function OnceCount(actions: seq<Action>): nat {
    if actions == [] then 0
    else OnceCount(actions[..|actions| - 1]) + (if actions[|actions| - 1].once then 1 else 0)
  }

  lemma OnceAppended(actions: seq<Action>, a: Action)
    ensures OnceCount(actions + [a]) == OnceCount(actions) + if a.once then 1 else 0
  {
    assert (actions + [a])[..|actions|] == actions;
  }

  ghost predicate SomeArmed(s: State) {
    exists e: nat :: e < |s.executors| && s.executors[e].phase.Armed?
  }

  /** The one effect is either still to come, about to come, or done; never two of these twice. */
  ghost predicate OnceOk(s: State) {
    && s.log != []
    && (SomeArmed(s) || OnceCount(s.actions) > 0 ==> Last(s).job.started)
    && (SomeArmed(s) ==> OnceCount(s.actions) == 0)
    && OnceCount(s.actions) <= 1
    && (forall e: nat, f: nat | e < |s.executors| && f < |s.executors| ::
          s.executors[e].phase.Armed? && s.executors[f].phase.Armed? ==> e == f)
  }

  lemma StartedStays(s: State, step: Step)
    requires Inv(s) && Last(s).job.started
    ensures Last(Next(s, step)).job.started
  {
    NextKeepsInv(s, step);
    var n := Next(s, step);
    assert Chained(n.log, |n.log| - 1);
    if step.Fence? || step.Succeed? || step.Fail? {
      if step.executor < |s.executors| {
        assert ExecutorOk(s, step.executor);
      }
    }
  }

  /** Nobody becomes armed except through the write that first sets the flag. */
  lemma ArmedBefore(s: State, step: Step, e: nat)
    requires Inv(s) && e < |Next(s, step).executors| && Next(s, step).executors[e].phase.Armed?
    ensures || (e < |s.executors| && s.executors[e].phase.Armed?)
            || (!Last(s).job.started && Last(Next(s, step)).job.started && step.Fence? && step.executor == e
                && Next(s, step).actions == s.actions)
  {
    if step.Fence? && step.executor < |s.executors| {
      assert ExecutorOk(s, step.executor);
    }
  }

  lemma OnceStep(s: State, step: Step)
    ensures var n := Next(s, step);
            || OnceCount(n.actions) == OnceCount(s.actions)
            || (OnceCount(n.actions) == OnceCount(s.actions) + 1
                && step.ActOnce? && step.executor < |s.executors| == |n.executors|
                && s.executors[step.executor].phase.Armed? && !n.executors[step.executor].phase.Armed?)
  {
    var n := Next(s, step);
    if n.actions != s.actions {
      OnceAppended(s.actions, n.actions[|s.actions|]);
    }
  }

  lemma NextKeepsOnce(s: State, step: Step)
    requires Inv(s) && OnceOk(s)
    ensures OnceOk(Next(s, step))
  {
    hide Next, Inv, ExecutorOk;
    var n := Next(s, step);
    NextGrows(s, step);
    OnceStep(s, step);
    if Last(s).job.started {
      StartedStays(s, step);
    }
    forall e: nat | e < |n.executors| && n.executors[e].phase.Armed?
      ensures || (e < |s.executors| && s.executors[e].phase.Armed?)
              || (!Last(s).job.started && Last(n).job.started && step.Fence? && step.executor == e
                  && n.actions == s.actions)
    {
      ArmedBefore(s, step, e);
    }
  }

  lemma {:induction false} RunKeepsOnce(kind: Kind, now: int, steps: seq<Step>)
    ensures Inv(Run(Planning(kind, now), steps)) && OnceOk(Run(Planning(kind, now), steps))
  {
    PlanningOk(kind, now);
    if steps != [] {
      RunKeepsOnce(kind, now, steps[..|steps| - 1]);
      NextKeepsInv(Run(Planning(kind, now), steps[..|steps| - 1]), steps[|steps| - 1]);
      NextKeepsOnce(Run(Planning(kind, now), steps[..|steps| - 1]), steps[|steps| - 1]);
    }
  }

  /**
   Over the whole life of a job, through every retry, crash and lost answer, the inference of a
   verification and the creation of an agent happen at most once, and only once the flag that says so
   is in the stored document. No assumption about timing is needed.
   */
  lemma EffectAtMostOnce(kind: Kind, now: int, steps: seq<Step>)
    ensures var s := Run(Planning(kind, now), steps);
            OnceCount(s.actions) <= 1 && (OnceCount(s.actions) == 1 ==> s.log != [] && Last(s).job.started)
  {
    RunKeepsOnce(kind, now, steps);
  }

  /** A verification that may have been billed is never queued, so never claimed, again. */
  lemma {:induction false} BilledIsNotRetried(s: State, i: nat, j: nat)
    requires LogOk(s) && i < j < |s.log| && s.log[i].job.kind == Verification && s.log[i].job.started
    ensures s.log[j].job.started && s.log[j].job.attempts == s.log[i].job.attempts && !s.log[j].cause.Claimed?
  {
    assert Chained(s.log, j);
    LogAccounted(s, i);
    LogAccounted(s, j - 1);
    if i < j - 1 {
      BilledIsNotRetried(s, i, j - 1);
    }
  }
}

/**
 The life of one approval-gated cloud deployment job (api/cloud_deployments.py and
 api/cloud_deployment_azure.py): administrators approving, workers claiming, interrupting and
 executing, all through conditional writes of one document, under one clock.

 A version is named by its position in the log. A writer that read version `seen` and writes with
 its etag succeeds exactly when no later version exists, so a step carries what its writer had seen
 and when. The clock counts seconds.
 */
module DeploymentProtocol {
  import opened Outcomes

  const LEASE: int := 1800
  const MARGIN: int := 120
  const PLAN_LIFETIME: int := 1800
  const MAX_ATTEMPTS: nat := 3

  datatype Kind = Mcp | Foundry | CosmosContainer | Verification

  datatype Status = AwaitingApproval | Queued | Running | Succeeded | Failed | Interrupted

  /** `started` is the flag of the job's kind: inference, agent creation or container creation. */
  datatype Job = Job(
    kind: Kind, status: Status, attempts: nat, approvals: nat, createdAt: int, leaseUntil: int, started: bool)

  datatype Cause =
    | Planned
    | Approval
    | Claimed(executor: nat)
    | Expiry
    | Fenced(executor: nat)
    | Reported(executor: nat)

  datatype Version = Version(job: Job, cause: Cause)

  /**
   `Working` before and between guarded actions, `Armed` when the started flag has just been committed
   and its one effect is next, `Closing` when only the failure report is left. For a container the flag
   comes after the creation, and the executor goes on as before.
   */
  datatype Phase = Working(checkedAt: Option<int>) | Armed(at: int) | Closing | Done

  /** A worker thread inside `execute_job`, with its copy of the document and the copy's etag. */
  datatype Executor = Executor(tag: nat, doc: Job, phase: Phase)

  /** Something done to Azure: by which attempt, and how many versions the job had then. */
  datatype Action = Action(attempt: nat, versions: nat, once: bool)

  datatype State = State(now: int, log: seq<Version>, executors: seq<Executor>, actions: seq<Action>)

  datatype Step =
    | Tick(seconds: nat)
    | Approve(seen: nat, at: int, fate: Fate)
    | Expire(seen: nat, at: int, fate: Fate)
    | Claim(seen: nat, at: int, fate: Fate)
    | Fence(executor: nat, at: int, arm: bool, fate: Fate)
    | Act(executor: nat)
    | ActOnce(executor: nat)
    | Succeed(executor: nat, fate: Fate)
    | GiveUp(executor: nat)
    | Fail(executor: nat, fate: Fate)
    | Die(executor: nat)

  function Planning(kind: Kind, now: int): State {
    State(now, [Version(Job(kind, AwaitingApproval, 0, 0, now, 0, false), Planned)], [], [])
  }

  // ---------------------------------------------------------------------- what the writers may do

  /** `approve_cloud_deployment` gets as far as its write. */
  predicate Approvable(job: Job, at: int) {
    && job.status in {AwaitingApproval, Failed, Interrupted}
    && job.attempts < MAX_ATTEMPTS
    && !(job.kind == Verification && job.started)
    && !(job.status == AwaitingApproval && at - job.createdAt > PLAN_LIFETIME)
  }

  function Approved(job: Job): Job {
    job.(status := Queued, approvals := job.approvals + 1)
  }

  function Taken(job: Job, at: int): Job {
    job.(status := Running, leaseUntil := at + LEASE, attempts := job.attempts + 1)
  }

  function Last(s: State): Version
    requires s.log != []
  {
    s.log[|s.log| - 1]
  }

  predicate Newest(s: State, seen: nat) {
    seen + 1 == |s.log|
  }

  function Append(s: State, job: Job, cause: Cause): State {
    s.(log := s.log + [Version(job, cause)])
  }

  function Put(s: State, e: nat, executor: Executor): State
    requires e < |s.executors|
  {
    s.(executors := s.executors[e := executor])
  }

  /** An `_update` by an executor. On success its copy and etag follow; a refusal ends it. */
  function Update(s: State, e: nat, job: Job, cause: Cause, next: Phase, fate: Fate): State
    requires e < |s.executors|
  {
    var x := s.executors[e];
    var fits := Newest(s, x.tag);
    var stored := if fits && !fate.Unsent? then Append(s, job, cause) else s;
    if fits && fate.Answered? then Put(stored, e, Executor(|s.log|, job, next))
    else if fate.Answered? || fate.LostRefused? then Put(stored, e, x.(phase := Done))
    else Put(stored, e, x.(phase := if x.phase.Closing? then Done else Closing))
  }

  function Next(s: State, step: Step): State {
    match step
    case Tick(d) => s.(now := s.now + d)
    case Approve(seen, at, fate) =>
      if Newest(s, seen) && at <= s.now && !fate.Unsent? && Approvable(s.log[seen].job, at) then
        Append(s, Approved(s.log[seen].job), Approval)
      else s
    case Expire(seen, at, fate) =>
      if Newest(s, seen) && at <= s.now && !fate.Unsent?
         && s.log[seen].job.status == Running && s.log[seen].job.leaseUntil < at then
        Append(s, s.log[seen].job.(status := Interrupted), Expiry)
      else s
    case Claim(seen, at, fate) =>
      if Newest(s, seen) && at <= s.now && !fate.Unsent? && s.log[seen].job.status == Queued then
        var job := Taken(s.log[seen].job, at);
        var claimed := Append(s, job, Claimed(|s.executors|));
        // an executor starts only when the worker learns that its claim went through
        claimed.(executors := s.executors
          + [Executor(|s.log|, job, if fate.Answered? then Working(None) else Done)])
      else s
    case Fence(e, at, arm, fate) =>
      if e < |s.executors| && s.executors[e].phase.Working? && at <= s.now then
        var x := s.executors[e];
        if at >= x.doc.leaseUntil - MARGIN then Put(s, e, x.(phase := Closing))
        else if arm && x.doc.kind == CosmosContainer then
          Update(s, e, x.doc.(started := true), Fenced(e), Working(Some(at)), fate)
        else if arm && x.doc.started then Put(s, e, x.(phase := Closing))
        else if arm then Update(s, e, x.doc.(started := true), Fenced(e), Armed(at), fate)
        else Update(s, e, x.doc, Fenced(e), Working(Some(at)), fate)
      else s
    case Act(e) =>
      if e < |s.executors| && s.executors[e].phase.Working? && s.executors[e].phase.checkedAt.Some? then
        s.(actions := s.actions + [Action(s.executors[e].doc.attempts, |s.log|, false)])
      else s
    case ActOnce(e) =>
      if e < |s.executors| && s.executors[e].phase.Armed? then
        Put(s, e, s.executors[e].(phase := Working(Some(s.executors[e].phase.at))))
          .(actions := s.actions + [Action(s.executors[e].doc.attempts, |s.log|, true)])
      else s
    case Succeed(e, fate) =>
      if e < |s.executors| && s.executors[e].phase.Working? then
        Update(s, e, s.executors[e].doc.(status := Succeeded), Reported(e), Done, fate)
      else s
    case GiveUp(e) =>
      if e < |s.executors| && !s.executors[e].phase.Done? then
        Put(s, e, s.executors[e].(phase := Closing))
      else s
    case Fail(e, fate) =>
      if e < |s.executors| && s.executors[e].phase.Closing? then
        Update(s, e, s.executors[e].doc.(status := Failed), Reported(e), Done, fate)
      else s
    case Die(e) =>
      if e < |s.executors| then Put(s, e, s.executors[e].(phase := Done)) else s
  }

  function Run(s: State, steps: seq<Step>): State {
    if steps == [] then s else Next(Run(s, steps[..|steps| - 1]), steps[|steps| - 1])
  }

  lemma RunAppended(s: State, steps: seq<Step>, step: Step)
    ensures Run(s, steps + [step]) == Next(Run(s, steps), step)
  {
    assert (steps + [step])[..|steps|] == steps;
  }

  // ---------------------------------------------------------------------- the log

  /** The only ways one version follows another. */
  predicate Follows(was: Job, job: Job, cause: Cause) {
    match cause
    case Planned => false
    case Approval =>
      && was.status in {AwaitingApproval, Failed, Interrupted} && was.attempts < MAX_ATTEMPTS
      && !(was.kind == Verification && was.started)
      && job == Approved(was)
    case Claimed(_) => was.status == Queued && job == Taken(was, job.leaseUntil - LEASE)
    case Expiry => was.status == Running && job == was.(status := Interrupted)
    case Fenced(_) => was.status == Running && (job == was || (!was.started && job == was.(started := true)))
    case Reported(_) => was.status == Running && (job == was.(status := Succeeded) || job == was.(status := Failed))
  }

  ghost predicate Chained(log: seq<Version>, i: nat)
    requires i < |log|
  {
    if i == 0 then log[0].cause == Planned && Fresh(log[0].job)
    else Follows(log[i - 1].job, log[i].job, log[i].cause)
  }

  predicate Fresh(job: Job) {
    job.status == AwaitingApproval && job.attempts == 0 && job.approvals == 0 && !job.started
  }

  ghost predicate LogOk(s: State) {
    s.log != [] && forall i: nat | i < |s.log| :: Chained(s.log, i)
  }

  /** One version belongs to one executor. */
  predicate WrittenBy(cause: Cause, e: nat) {
    (cause.Claimed? || cause.Fenced?) && cause.executor == e
  }

  function CheckTime(phase: Phase): Option<int> {
    match phase
    case Working(at) => at
    case Armed(at) => Some(at)
    case _ => None
  }

  predicate Live(phase: Phase) {
    phase.Working? || phase.Armed?
  }

  /** A copy is the version its etag names, and nobody else writes before the lease has run out. */
  predicate ExecutorOk(s: State, e: nat)
    requires e < |s.executors|
  {
    var x := s.executors[e];
    && x.tag < |s.log|
    && (!x.phase.Done? ==>
          x.doc == s.log[x.tag].job && x.doc.status == Running && WrittenBy(s.log[x.tag].cause, e))
    && (CheckTime(x.phase).Some? ==> CheckTime(x.phase).value < x.doc.leaseUntil - MARGIN)
    && (Live(x.phase) && s.now <= x.doc.leaseUntil ==> Newest(s, x.tag))
    && (x.phase.Armed? ==> x.doc.started)
  }

  ghost predicate ExecutorsOk(s: State) {
    forall e: nat | e < |s.executors| :: ExecutorOk(s, e)
  }

  ghost predicate Inv(s: State) {
    LogOk(s) && ExecutorsOk(s)
  }

  lemma LogGrows(s: State, n: State)
    requires LogOk(s) && |n.log| <= |s.log| + 1 && s.log <= n.log
    requires |n.log| > |s.log| ==> Follows(Last(s).job, Last(n).job, Last(n).cause)
    ensures LogOk(n)
  {
    forall i: nat | i < |n.log| ensures Chained(n.log, i) {
      if i < |s.log| {
        assert Chained(s.log, i);
      }
    }
  }

  /** Whoever does not write keeps its place: the version appended cannot have followed a live lease. */
  lemma BystanderOk(s: State, n: State, f: nat)
    requires f < |s.executors| <= |n.executors| && ExecutorOk(s, f) && n.executors[f] == s.executors[f]
    requires s.log != [] && s.log <= n.log && |n.log| <= |s.log| + 1 && s.now <= n.now
    requires Last(s).job.status == Running && WrittenBy(Last(s).cause, f) && |s.log| < |n.log| ==>
               Last(s).job.leaseUntil < s.now
    ensures ExecutorOk(n, f)
  {
    var x := s.executors[f];
    assert n.log[x.tag] == s.log[x.tag];
  }

  lemma WriterOk(s: State, e: nat, job: Job, cause: Cause, next: Phase, fate: Fate)
    requires Inv(s) && e < |s.executors| && !s.executors[e].phase.Done?
    requires !next.Closing? && (!next.Done? ==> job.status == Running && cause == Fenced(e))
    requires Newest(s, s.executors[e].tag) ==> Follows(s.executors[e].doc, job, cause)
    requires CheckTime(next).Some? ==> CheckTime(next).value < job.leaseUntil - MARGIN
    requires next.Armed? ==> job.started
    ensures Inv(Update(s, e, job, cause, next, fate))
  {
    hide Follows;
    var n := Update(s, e, job, cause, next, fate);
    assert ExecutorOk(s, e);
    LogGrows(s, n);
    forall f: nat | f < |n.executors| ensures ExecutorOk(n, f) {
      assert ExecutorOk(s, f);
      if f != e {
        BystanderOk(s, n, f);
      }
    }
  }

  lemma OutsiderOk(s: State, n: State)
    requires Inv(s) && s.executors <= n.executors
    requires s.log <= n.log && |n.log| <= |s.log| + 1 && s.now <= n.now
    requires |s.log| < |n.log| ==>
               && Follows(Last(s).job, Last(n).job, Last(n).cause)
               && (Last(s).job.status == Running ==> Last(s).job.leaseUntil < s.now)
    requires forall f: nat | |s.executors| <= f < |n.executors| :: ExecutorOk(n, f)
    ensures Inv(n)
  {
    hide Follows;
    LogGrows(s, n);
    forall f: nat | f < |n.executors| ensures ExecutorOk(n, f) {
      if f < |s.executors| {
        assert ExecutorOk(s, f) && n.executors[f] == s.executors[f];
        BystanderOk(s, n, f);
      }
    }
  }

  lemma PhaseOnlyOk(s: State, n: State, e: nat)
    requires Inv(s) && e < |s.executors| == |n.executors| && n.log == s.log && n.now == s.now
    requires n.executors == s.executors[e := s.executors[e].(phase := n.executors[e].phase)]
    requires var was, phase := s.executors[e].phase, n.executors[e].phase;
             phase.Done? || (phase.Closing? && !was.Done?) || (was.Armed? && phase == Working(Some(was.at)))
    ensures Inv(n)
  {
    forall f: nat | f < |n.executors| ensures ExecutorOk(n, f) {
      assert ExecutorOk(s, f);
    }
  }

  lemma OutsideStepOk(s: State, step: Step)
    requires Inv(s) && (step.Tick? || step.Approve? || step.Expire? || step.Claim? || step.Act?)
    ensures Inv(Next(s, step))
  {
    hide LogOk;
    assert s.log != [] by { LogNonEmpty(s); }
    OutsiderOk(s, Next(s, step));
  }

  lemma LogNonEmpty(s: State)
    requires LogOk(s)
    ensures s.log != []
  {
  }

  lemma FenceOk(s: State, step: Step)
    requires Inv(s) && step.Fence?
    ensures Inv(Next(s, step))
  {
    hide LogOk;
    var e := step.executor;
    if e < |s.executors| && s.executors[e].phase.Working? && step.at <= s.now {
      assert ExecutorOk(s, e);
      var x := s.executors[e];
      if step.at < x.doc.leaseUntil - MARGIN && step.arm && x.doc.kind == CosmosContainer {
        WriterOk(s, e, x.doc.(started := true), Fenced(e), Working(Some(step.at)), step.fate);
      } else if step.at >= x.doc.leaseUntil - MARGIN || (step.arm && x.doc.started) {
        PhaseOnlyOk(s, Next(s, step), e);
      } else if step.arm {
        WriterOk(s, e, x.doc.(started := true), Fenced(e), Armed(step.at), step.fate);
      } else {
        WriterOk(s, e, x.doc, Fenced(e), Working(Some(step.at)), step.fate);
      }
    }
  }

  lemma NextKeepsInv(s: State, step: Step)
    requires Inv(s)
    ensures Inv(Next(s, step))
  {
    hide LogOk, Follows;
    match step {
      case Fence(_, _, _, _) => FenceOk(s, step);
      case Succeed(e, fate) =>
        if e < |s.executors| && s.executors[e].phase.Working? {
          ReportOk(s, e, s.executors[e].doc.(status := Succeeded), fate);
        }
      case Fail(e, fate) =>
        if e < |s.executors| && s.executors[e].phase.Closing? {
          ReportOk(s, e, s.executors[e].doc.(status := Failed), fate);
        }
      case ActOnce(e) => if Next(s, step) != s { PhaseOnlyOk(s, Next(s, step), e); }
      case GiveUp(e) => if Next(s, step) != s { PhaseOnlyOk(s, Next(s, step), e); }
      case Die(e) => if Next(s, step) != s { PhaseOnlyOk(s, Next(s, step), e); }
      case _ => OutsideStepOk(s, step);
    }
  }

  lemma ReportOk(s: State, e: nat, job: Job, fate: Fate)
    requires Inv(s) && e < |s.executors| && !s.executors[e].phase.Done?
    requires job == s.executors[e].doc.(status := Succeeded) || job == s.executors[e].doc.(status := Failed)
    ensures Inv(Update(s, e, job, Reported(e), Done, fate))
  {
    hide LogOk;
    assert ExecutorOk(s, e);
    WriterOk(s, e, job, Reported(e), Done, fate);
  }

  /** The log and the list of executors only grow. */
  lemma NextGrows(s: State, step: Step)
    ensures s.log <= Next(s, step).log && |s.executors| <= |Next(s, step).executors|
  {
  }

  lemma {:induction false} RunKeepsInv(s: State, steps: seq<Step>)
    requires Inv(s)
    ensures Inv(Run(s, steps)) && s.log <= Run(s, steps).log && |s.executors| <= |Run(s, steps).executors|
  {
    hide Next, Inv;
    if steps != [] {
      RunKeepsInv(s, steps[..|steps| - 1]);
      NextKeepsInv(Run(s, steps[..|steps| - 1]), steps[|steps| - 1]);
      NextGrows(Run(s, steps[..|steps| - 1]), steps[|steps| - 1]);
    }
  }
}

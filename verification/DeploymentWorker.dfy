/**
 The code that moves a deployment job: the approval endpoint, the worker's `take`, and `execute_job`
 with the Azure operations it runs (api/cloud_deployments.py:349-447, api/cloud_deployment_azure.py).

 Every method returns the protocol run it took part in, so what DeploymentSafety proves of all runs
 holds of this code. Azure's answers, the scope checks and the reference checks are free choices.
 */
module DeploymentWorker {
  import opened Outcomes
  import opened DeploymentProtocol
  import opened DeploymentSafety
  import Container = ContainerDeployment

  function ActorOf(step: Step): Option<nat> {
    match step
    case Fence(e, _, _, _) => Some(e)
    case Act(e) => Some(e)
    case ActOnce(e) => Some(e)
    case Succeed(e, _) => Some(e)
    case GiveUp(e) => Some(e)
    case Fail(e, _) => Some(e)
    case Die(e) => Some(e)
    case _ => None
  }

  /** What a step not taken by executor `e` leaves alone. */
  lemma OtherStepKeepsMine(s: State, step: Step, e: nat)
    requires e < |s.executors| && ActorOf(step) != Some(e)
    ensures e < |Next(s, step).executors| && Next(s, step).executors[e] == s.executors[e]
    ensures s.now <= Next(s, step).now
  {
  }

  /** The steps of one executor, in order. */
  ghost function Own(steps: seq<Step>, me: nat): seq<Step> {
    if steps == [] then []
    else
      var before := Own(steps[..|steps| - 1], me);
      if ActorOf(steps[|steps| - 1]) == Some(me) then before + [steps[|steps| - 1]] else before
  }

  lemma OwnAppended(steps: seq<Step>, step: Step, me: nat)
    ensures Own(steps + [step], me) == if ActorOf(step) == Some(me) then Own(steps, me) + [step] else Own(steps, me)
  {
    assert (steps + [step])[..|steps|] == steps;
  }

  /** A fence that was answered, with or without the started flag. */
  predicate IsFence(step: Step, arm: bool) {
    step.Fence? && step.arm == arm && step.fate.Answered?
  }

  /** How many calls at most are made under one fence: what `verify_mcp` sends once it has the function's key. */
  const CALLS_PER_FENCE: nat := 4

  /** The step at `i` is one of the first `n` after a fence, and those between are calls too. */
  ghost predicate UnderFence(steps: seq<Step>, i: nat, n: nat)
    requires i < |steps|
    decreases n
  {
    n > 0 && i > 0 && (IsFence(steps[i - 1], false) || (steps[i - 1].Act? && UnderFence(steps, i - 1, n - 1)))
  }

  /** Every call to Azure is one of the first few after its fence, and the billable one comes right after its flag. */
  ghost predicate Guarded(steps: seq<Step>) {
    forall i | 0 <= i < |steps| :: GuardedAt(steps, i)
  }

  ghost predicate GuardedAt(steps: seq<Step>, i: nat)
    requires i < |steps|
  {
    && (steps[i].Act? ==> UnderFence(steps, i, CALLS_PER_FENCE))
    && (steps[i].ActOnce? ==> i > 0 && IsFence(steps[i - 1], true))
  }

  /** At most three calls lie between a call and the fence before it, and nothing else does. */
  ghost predicate FencedBy(steps: seq<Step>, i: nat, k: nat)
    requires i < |steps|
  {
    && 1 <= k <= 4 && k <= i && steps[i - k].Fence? && !steps[i - k].arm && steps[i - k].fate.Answered?
    && forall j | i - k < j < i :: steps[j].Act?
  }

  lemma {:induction false} UnderFenceMeans(steps: seq<Step>, i: nat, n: nat) returns (k: nat)
    requires i < |steps| && UnderFence(steps, i, n) && n <= 4
    ensures FencedBy(steps, i, k) && k <= n
    decreases n
  {
    if IsFence(steps[i - 1], false) {
      k := 1;
    } else {
      var before := UnderFenceMeans(steps, i - 1, n - 1);
      k := before + 1;
    }
  }

  /** What guarded means, step by step. */
  lemma GuardedCalls(steps: seq<Step>, i: nat)
    requires Guarded(steps) && i < |steps|
    ensures steps[i].Act? ==> exists k: nat :: FencedBy(steps, i, k)
    ensures steps[i].ActOnce? ==> i > 0 && steps[i - 1].Fence? && steps[i - 1].arm && steps[i - 1].fate.Answered?
  {
    assert GuardedAt(steps, i);
    if steps[i].Act? {
      var k := UnderFenceMeans(steps, i, CALLS_PER_FENCE);
    }
  }

  /** A stretch of steps inside a longer list is guarded there as it is by itself. */
  lemma {:induction false} UnderFenceInside(steps: seq<Step>, part: seq<Step>, from: nat, i: nat, n: nat)
    requires from + |part| <= |steps| && steps[from..from + |part|] == part && i < |part| && UnderFence(part, i, n)
    ensures UnderFence(steps, from + i, n)
    decreases n
  {
    assert steps[from + i - 1] == part[i - 1];
    if !IsFence(part[i - 1], false) {
      UnderFenceInside(steps, part, from, i - 1, n - 1);
    }
  }

  lemma GuardedInside(steps: seq<Step>, part: seq<Step>, from: nat, i: nat)
    requires from + |part| <= |steps| && steps[from..from + |part|] == part && i < |part| && GuardedAt(part, i)
    ensures GuardedAt(steps, from + i)
  {
    assert steps[from + i] == part[i] && (i > 0 ==> steps[from + i - 1] == part[i - 1]);
    hide UnderFence;
    if part[i].Act? {
      UnderFenceInside(steps, part, from, i, CALLS_PER_FENCE);
    }
  }

  ghost predicate Effectless(steps: seq<Step>) {
    forall i | 0 <= i < |steps| :: !steps[i].Act? && !steps[i].ActOnce?
  }

  ghost predicate NoOnce(steps: seq<Step>) {
    forall i | 0 <= i < |steps| :: !steps[i].ActOnce?
  }

  /** A fence that also stores the flag. */
  predicate IsMark(step: Step) {
    step.Fence? && step.arm
  }

  ghost predicate NoMarks(steps: seq<Step>) {
    forall i | 0 <= i < |steps| :: !IsMark(steps[i])
  }

  /** The flag is stored only right after a call: the other way round than for effects that are announced. */
  ghost predicate MarksAfterCalls(steps: seq<Step>) {
    forall i | 0 <= i < |steps| && IsMark(steps[i]) :: i > 0 && steps[i - 1].Act?
  }

  lemma MarksJoined(first: seq<Step>, second: seq<Step>)
    requires MarksAfterCalls(first) && (NoMarks(second) || MarksAfterCalls(second))
    ensures MarksAfterCalls(first + second) && (NoMarks(first) && NoMarks(second) ==> NoMarks(first + second))
  {
    var all := first + second;
    forall i | 0 <= i < |all| && IsMark(all[i]) ensures i > 0 && all[i - 1].Act? {
      if i >= |first| {
        assert all[i] == second[i - |first|];
      }
    }
  }

  /** Guarded calls, no billable effect, no flag. */
  ghost predicate Plain(steps: seq<Step>) {
    Guarded(steps) && NoOnce(steps) && NoMarks(steps)
  }

  lemma PlainJoined(first: seq<Step>, second: seq<Step>)
    requires Plain(first) && Plain(second)
    ensures Plain(first + second)
  {
    GuardedJoined(first, second);
    assert forall i | |first| <= i < |first + second| :: (first + second)[i] == second[i - |first|];
  }

  lemma PlainFacts(steps: seq<Step>)
    requires Plain(steps)
    ensures Guarded(steps) && NoOnce(steps) && NoMarks(steps) && MarksAfterCalls(steps)
  {
  }

  /** One step that neither calls Azure nor stores the flag. */
  ghost predicate Idle(steps: seq<Step>) {
    |steps| == 1 && Effectless(steps) && NoMarks(steps)
  }

  lemma GuardedJoined(first: seq<Step>, second: seq<Step>)
    requires Guarded(first) && Guarded(second)
    ensures Guarded(first + second)
    ensures NoOnce(first) && NoOnce(second) ==> NoOnce(first + second)
  {
    hide GuardedAt;
    var all := first + second;
    assert all[0..|first|] == first && all[|first|..|first| + |second|] == second;
    forall i | 0 <= i < |all| ensures GuardedAt(all, i) {
      if i < |first| {
        assert GuardedAt(first, i);
        GuardedInside(all, first, 0, i);
      } else {
        assert GuardedAt(second, i - |first|);
        GuardedInside(all, second, |first|, i - |first|);
      }
    }
  }

  lemma EffectlessIsGuarded(steps: seq<Step>)
    requires Effectless(steps)
    ensures Guarded(steps) && NoOnce(steps)
  {
  }

  /** A fenced call: the fence is recorded, then the call is made. */
  function Call(me: nat, at: int): (r: seq<Step>)
    ensures Plain(r)
  {
    [Fence(me, at, false, Answered), Act(me)]
  }

  /** An effect that must not be repeated: its flag is recorded, then it is made. */
  function CallOnce(me: nat, at: int): (r: seq<Step>)
    ensures Guarded(r)
  {
    [Fence(me, at, true, Answered), ActOnce(me)]
  }

  method AnyStep() returns (step: Step) {
    step := *;
  }

  method AnyBool() returns (b: bool) {
    b := *;
  }

  /** The job document, the clock, and everybody who works on the job. */
  class SharedJob {
    var sys: State

    constructor (kind: Kind, now: int)
      ensures Inv(sys) && sys == Planning(kind, now)
    {
      sys := Planning(kind, now);
      PlanningOk(kind, now);
    }

    /** Time passes and anybody but the executor `me` does anything, any number of times. */
    method OthersRun(me: Option<nat>, ghost start: State, ghost sofar: seq<Step>) returns (ghost trace: seq<Step>)
      requires Inv(sys) && sys == Run(start, sofar)
      modifies this
      ensures Inv(sys) && sys == Run(start, trace)
      ensures old(sys).log <= sys.log && old(sys).now <= sys.now && |old(sys).executors| <= |sys.executors|
      ensures me.Some? ==> Own(trace, me.value) == Own(sofar, me.value)
      ensures me.Some? && me.value < |old(sys).executors| ==>
                sys.executors[me.value] == old(sys).executors[me.value]
    {
      hide Next, Inv, Own, Run;
      trace := sofar;
      var more: nat := *;
      while more > 0
        invariant Inv(sys) && sys == Run(start, trace)
        invariant old(sys).log <= sys.log && old(sys).now <= sys.now && |old(sys).executors| <= |sys.executors|
        invariant me.Some? ==> Own(trace, me.value) == Own(sofar, me.value)
        invariant me.Some? && me.value < |old(sys).executors| ==>
                    sys.executors[me.value] == old(sys).executors[me.value]
      {
        var step := AnyStep();
        if me.None? || ActorOf(step) != me {
          NextGrows(sys, step);
          ClockGrows(sys, step);
          if me.Some? {
            OwnAppended(trace, step, me.value);
            if me.value < |sys.executors| {
              OtherStepKeepsMine(sys, step, me.value);
            }
          }
          trace := Take(step, start, trace);
        }
        more := more - 1;
      }
    }

    method Take(step: Step, ghost start: State, ghost sofar: seq<Step>) returns (ghost trace: seq<Step>)
      requires Inv(sys) && sys == Run(start, sofar)
      modifies this
      ensures Inv(sys) && sys == Next(old(sys), step) && sys == Run(start, trace) && trace == sofar + [step]
    {
      hide Next, Inv, Run;
      RunAppended(start, sofar, step);
      NextKeepsInv(sys, step);
      sys, trace := Next(sys, step), sofar + [step];
    }
  }

  lemma ClockGrows(s: State, step: Step)
    ensures s.now <= Next(s, step).now
  {
  }

  // ---------------------------------------------------------------------- approval

  datatype ApprovalResult =
    | Accepted | Unchanged
    | PlanChanged | RetryLimit | AlreadyBilled | PlanExpired | ReferencesChanged | Conflict | StoreError

  /** Why an approval goes no further, in the order in which the reasons are looked for. */
  function Refusal(doc: Job, at: int, allowed: bool, referencesHold: bool): Option<ApprovalResult> {
    if !allowed then Some(PlanChanged)
    else if doc.status in {Queued, Running, Succeeded} then Some(Unchanged)
    else if doc.attempts >= MAX_ATTEMPTS then Some(RetryLimit)
    else if doc.kind == Verification && doc.started then Some(AlreadyBilled)
    else if doc.status == AwaitingApproval && at - doc.createdAt > PLAN_LIFETIME then Some(PlanExpired)
    else if !referencesHold then Some(ReferencesChanged)
    else None
  }

  /** An approval is refused for what the job itself says exactly when its write would not be allowed. */
  lemma RefusedIffNotApprovable(doc: Job, at: int)
    ensures Refusal(doc, at, true, true).None? <==> Approvable(doc, at)
  {
  }

  /**
   `approve_cloud_deployment` for a job that exists. Any refusal leaves everything as it was. Otherwise one
   write is made in state `before`, and accepted means that it replaced exactly the version read.
   */
  method ApproveCloudDeployment(job: SharedJob)
    returns (result: ApprovalResult, ghost allowed: bool, ghost referencesHold: bool, ghost fate: Fate,
             ghost before: State, ghost trace: seq<Step>)
    requires Inv(job.sys)
    modifies job
    ensures Inv(job.sys) && job.sys == Run(old(job.sys), trace)
    ensures old(job.sys).log != []
    ensures var seen, at := |old(job.sys).log| - 1, old(job.sys).now;
            match Refusal(Last(old(job.sys)).job, at, allowed, referencesHold)
            case Some(refused) => result == refused && job.sys == old(job.sys)
            case None =>
              && old(job.sys).log <= before.log && job.sys == Next(before, Approve(seen, at, fate))
              && trace != [] && trace[|trace| - 1] == Approve(seen, at, fate)
              && before == Run(old(job.sys), trace[..|trace| - 1])
              && result == (if Newest(before, seen) && fate.Answered? then Accepted
                            else if fate.Answered? || fate.LostRefused? then Conflict else StoreError)
    ensures var doc, age := Last(old(job.sys)).job, old(job.sys).now - Last(old(job.sys)).job.createdAt;
            var open := doc.status in {AwaitingApproval, Failed, Interrupted};
            var billed := doc.kind == Verification && doc.started;
            var stale := doc.status == AwaitingApproval && age > 1800;
            match result
            case PlanChanged => !allowed
            case Unchanged => allowed && !open
            case RetryLimit => allowed && open && doc.attempts >= 3
            case AlreadyBilled => allowed && open && doc.attempts < 3 && billed
            case PlanExpired => allowed && open && doc.attempts < 3 && !billed && stale
            case ReferencesChanged => allowed && open && doc.attempts < 3 && !billed && !stale && !referencesHold
            case _ => allowed && open && doc.attempts < 3 && !billed && !stale && referencesHold
    ensures result.Unchanged? ==> job.sys == old(job.sys)
    ensures result.Accepted? ==>
              var doc := Last(old(job.sys)).job;
              job.sys.log
              == old(job.sys).log + [Version(doc.(status := Queued, approvals := doc.approvals + 1), Approval)]
    ensures (result.Conflict? || result.StoreError?) && Approvable(Last(old(job.sys)).job, old(job.sys).now) ==>
              (job.sys.log != before.log <==> Newest(before, |old(job.sys).log| - 1) && !fate.Unsent?)
  {
    hide Inv, Run;
    trace, fate, before := [], Unsent, job.sys;
    RunEmpty(job.sys);
    InvHasLog(job.sys);
    var seen: nat := |job.sys.log| - 1;
    var doc := job.sys.log[seen].job;
    var scoped := AnyBool();            // scopes enabled and the reviewed plan unchanged
    var hold := AnyBool();
    allowed, referencesHold := scoped, hold;
    if !scoped {
      return PlanChanged, allowed, referencesHold, fate, before, trace;
    }
    if doc.status in {Queued, Running, Succeeded} {
      return Unchanged, allowed, referencesHold, fate, before, trace;
    }
    if doc.attempts >= MAX_ATTEMPTS {
      return RetryLimit, allowed, referencesHold, fate, before, trace;
    }
    if doc.kind == Verification && doc.started {
      return AlreadyBilled, allowed, referencesHold, fate, before, trace;
    }
    var readAt := job.sys.now;
    if doc.status == AwaitingApproval && readAt - doc.createdAt > PLAN_LIFETIME {
      return PlanExpired, allowed, referencesHold, fate, before, trace;
    }
    if !hold {
      return ReferencesChanged, allowed, referencesHold, fate, before, trace;
    }
    trace := job.OthersRun(None, old(job.sys), trace);
    before := job.sys;
    var end := AnyFate();
    fate := end;
    var fits := Newest(job.sys, seen);
    ghost var front := trace;
    trace := job.Take(Approve(seen, readAt, end), old(job.sys), trace);
    assert trace[..|trace| - 1] == front;
    result := if fits && end.Answered? then Accepted
              else if end.Answered? || end.LostRefused? then Conflict
              else StoreError;
  }

  lemma InvHasLog(s: State)
    requires Inv(s)
    ensures s.log != []
  {
  }

  // ---------------------------------------------------------------------- claiming

  /** How the loop in `take` leaves one document: for the next one, for good with a claim, or by raising. */
  datatype Look = Passed | Won | Threw

  /** The one write `take` makes on a document it read in state `s`, if it makes one. */
  ghost predicate TakesStep(s: State, at: int, step: Option<Step>, fate: Fate)
    requires s.log != []
  {
    var seen, doc := |s.log| - 1, Last(s).job;
    if doc.status == Running && doc.leaseUntil < at then step == Some(Expire(seen, at, fate))
    else if doc.status == Queued then step.None? || step == Some(Step.Claim(seen, at, fate))
    else step.None?
  }

  /** The version that write leaves behind: the mark, or the claim for half an hour from `at`. */
  predicate LeavesBehind(was: Job, at: int, v: Version) {
    if was.status == Running then v.cause == Expiry && v.job == was.(status := Interrupted)
    else v.cause.Claimed? && v.job == was.(status := Running, leaseUntil := at + 1800, attempts := was.attempts + 1)
  }

  /** What `take` did to one document: nothing, or at the end of the trace its one write. */
  ghost predicate Looked(s: State, n: State, trace: seq<Step>, at: int, step: Option<Step>, fate: Fate, look: Look)
    requires s.log != []
  {
    && n == Run(s, trace) && s.now <= at
    && (step.Some? && trace != [] && !fate.Unsent? && Newest(Run(s, trace[..|trace| - 1]), |s.log| - 1) ==>
          n.log != [] && n.log == s.log + [Last(n)] && LeavesBehind(Last(s).job, at, Last(n)))
    && TakesStep(s, at, step, fate)
    && (step.Some? ==> trace != [] && trace[|trace| - 1] == step.value)
    && (look.Won? <==> step.Some? && step.value.Claim? && fate.Answered?
                       && Newest(Run(s, trace[..|trace| - 1]), |s.log| - 1))
    && (look.Threw? <==> step.Some? && (fate.LostRaised? || fate.Unsent?))
  }

  /** The newest version of a claimed job is the claim of the executor, which may start. */
  ghost predicate Holds(s: State, mine: nat) {
    && mine < |s.executors| && s.executors[mine].phase == Working(None) && s.log != []
    && Newest(s, s.executors[mine].tag) && Last(s).cause == Claimed(mine)
    && s.executors[mine].doc == Last(s).job
  }

  /** A job whose lease had run out when `take` reached it: the last thing done to it is the mark. */
  ghost predicate Marked(s: State, trace: seq<Step>) {
    s.log != [] && Last(s).job.status == Running && Last(s).job.leaseUntil < s.now ==>
      trace != [] && trace[|trace| - 1].Expire? && trace[|trace| - 1].seen == |s.log| - 1
  }

  /**
   `take`: the first queued job whose claim goes through; running jobs whose lease has run out are
   marked interrupted on the way. `mine` is the executor the claim created, and `looked` of the jobs were
   reached; `traces` are the runs they took part in.
   */
  method Claim(jobs: seq<SharedJob>)
    returns (claimed: Option<nat>, ghost mine: nat, ghost looked: nat, ghost traces: seq<seq<Step>>)
    requires forall i | 0 <= i < |jobs| :: Inv(jobs[i].sys)
    requires forall i, j | 0 <= i < j < |jobs| :: jobs[i] != jobs[j]
    modifies jobs
    ensures looked <= |jobs| == |traces|
    ensures forall i | 0 <= i < |jobs| :: Inv(jobs[i].sys) && jobs[i].sys == Run(old(jobs[i].sys), traces[i])
    ensures forall i | 0 <= i < looked :: Marked(old(jobs[i].sys), traces[i])
    ensures forall i | looked <= i < |jobs| :: jobs[i].sys == old(jobs[i].sys)
    ensures claimed.Some? ==>
              && claimed.value + 1 == looked && Holds(jobs[claimed.value].sys, mine)
              && traces[claimed.value] != []
              && traces[claimed.value][|traces[claimed.value]| - 1].Claim?
              && |jobs[claimed.value].sys.log| == |old(jobs[claimed.value].sys).log| + 1
  {
    hide Inv, Run, Looked, Holds;
    claimed, mine, looked, traces := None, 0, 0, seq(|jobs|, _ => []);
    forall i | 0 <= i < |jobs| ensures jobs[i].sys == Run(jobs[i].sys, []) {
      RunEmpty(jobs[i].sys);
    }
    for i := 0 to |jobs|
      invariant looked == i && |traces| == |jobs|
      invariant forall k | 0 <= k < |jobs| :: Inv(jobs[k].sys) && jobs[k].sys == Run(old(jobs[k].sys), traces[k])
      invariant forall k | 0 <= k < i :: Marked(old(jobs[k].sys), traces[k])
      invariant forall k | i <= k < |jobs| :: jobs[k].sys == old(jobs[k].sys)
    {
      var look;
      ghost var trace;
      look, mine, trace := ClaimOne(jobs[i]);
      traces, looked := traces[i := trace], i + 1;
      if look.Won? {
        return Some(i), mine, looked, traces;
      }
      if look.Threw? {
        return None, mine, looked, traces;
      }
    }
  }

  /** The body of the loop in `take`, on one document the query returned. */
  method ClaimOne(job: SharedJob) returns (look: Look, ghost mine: nat, ghost trace: seq<Step>)
    requires Inv(job.sys)
    modifies job
    ensures Inv(job.sys) && job.sys == Run(old(job.sys), trace) && Marked(old(job.sys), trace)
    ensures old(job.sys).log != [] && exists at, step, fate ::
              Looked(old(job.sys), job.sys, trace, at, step, fate, look)
    ensures look.Won? ==>
              && Holds(job.sys, mine) && |job.sys.log| == |old(job.sys).log| + 1
              && trace != [] && trace[|trace| - 1].Claim?
  {
    hide Inv, Run;
    look, mine, trace := Passed, 0, [];
    RunEmpty(job.sys);
    InvHasLog(job.sys);
    var seen: nat := |job.sys.log| - 1;
    var doc := job.sys.log[seen].job;
    trace := job.OthersRun(None, old(job.sys), trace);
    var at := job.sys.now;
    var fate := AnyFate();
    ghost var step := None;
    if doc.status == Running {
      if doc.leaseUntil < at {
        trace := job.OthersRun(None, old(job.sys), trace);
        step := Some(Expire(seen, at, fate));
        ghost var front := trace;
        trace := job.Take(Expire(seen, at, fate), old(job.sys), trace);
        assert trace[..|trace| - 1] == front;
        look := if fate.LostRaised? || fate.Unsent? then Threw else Passed;
      }
    } else if doc.status == Queued {
      var enabled := AnyBool();
      if enabled {
        trace := job.OthersRun(None, old(job.sys), trace);
        var fits := Newest(job.sys, seen);
        mine := |job.sys.executors|;
        step := Some(Step.Claim(seen, at, fate));
        ghost var front := trace;
        trace := job.Take(Step.Claim(seen, at, fate), old(job.sys), trace);
        assert trace[..|trace| - 1] == front;
        look := if fits && fate.Answered? then Won
                else if fate.LostRaised? || fate.Unsent? then Threw else Passed;
      }
    }
    assert Looked(old(job.sys), job.sys, trace, at, step, fate, look);
  }

  // ---------------------------------------------------------------------- execution

  datatype Progress = Recorded | Deadline | OwnershipLost | Raised

  /** `AzureDeployment` and the closure `progress`, for one claimed job. */
  class Execution {
    const job: SharedJob
    const me: nat
    var doc: Job
    var tag: nat

    ghost predicate Valid()
      reads this, job
    {
      && Inv(job.sys) && me < |job.sys.executors|
      && job.sys.executors[me].doc == doc && job.sys.executors[me].tag == tag
    }

    ghost function Phase(): Phase
      requires Valid()
      reads this, job
    {
      job.sys.executors[me].phase
    }

    constructor (job: SharedJob, me: nat)
      requires Inv(job.sys) && me < |job.sys.executors|
      ensures Valid() && this.job == job && this.me == me
      ensures doc == job.sys.executors[me].doc
    {
      this.job, this.me := job, me;
      doc, tag := job.sys.executors[me].doc, job.sys.executors[me].tag;
    }

    /** What every method below promises of its part of the run: `mine` are the steps of this executor in it. */
    ghost predicate Continued(start: State, sofar: seq<Step>, mine: seq<Step>, trace: seq<Step>)
      reads job
    {
      Inv(job.sys) && job.sys == Run(start, trace) && Own(trace, me) == Own(sofar, me) + mine
    }

    /** One of my own steps. */
    method Do(step: Step, ghost start: State, ghost sofar: seq<Step>) returns (ghost trace: seq<Step>)
      requires Inv(job.sys) && job.sys == Run(start, sofar) && ActorOf(step) == Some(me)
      modifies job
      ensures Continued(start, sofar, [step], trace) && job.sys == Next(old(job.sys), step)
    {
      hide Next, Inv, Run, Own;
      OwnAppended(sofar, step, me);
      trace := job.Take(step, start, sofar);
    }

    /** Everybody else, at a point where this thread waits. */
    method LetOthers(ghost start: State, ghost sofar: seq<Step>) returns (ghost trace: seq<Step>)
      requires Valid() && job.sys == Run(start, sofar)
      modifies job
      ensures Valid() && job.sys == Run(start, trace) && Own(trace, me) == Own(sofar, me) && Phase() == old(Phase())
      ensures old(job.sys).now <= job.sys.now && old(job.sys).log <= job.sys.log
    {
      hide Inv, Run, Own;
      trace := job.OthersRun(Some(me), start, sofar);
    }

    /** A `DeploymentFailure`, or any other exception: only the failure report is left. */
    method Raise(ghost start: State, ghost sofar: seq<Step>) returns (ghost trace: seq<Step>)
      requires Valid() && job.sys == Run(start, sofar) && !Phase().Done?
      modifies job
      ensures Valid() && Continued(start, sofar, [GiveUp(me)], trace) && Phase().Closing?
      ensures job.sys.log == old(job.sys).log && job.sys.actions == old(job.sys).actions
    {
      hide Inv, Run, Own;
      trace := Do(GiveUp(me), start, sofar);
    }

    /**
     `progress(stage)`, or with the started flag when `arm`: refuses within two minutes of the end of
     the lease, then writes over the version this executor holds. Only a recorded fence lets it go on.
     */
    method RecordProgress(arm: bool, ghost start: State, ghost sofar: seq<Step>)
      returns (result: Progress, ghost mine: seq<Step>, ghost trace: seq<Step>)
      requires Valid() && job.sys == Run(start, sofar) && Phase().Working?
      requires arm ==> doc.kind == CosmosContainer || !doc.started
      modifies this, job
      ensures Valid() && Continued(start, sofar, mine, trace)
      ensures |mine| == 1 && Effectless(mine) && (!arm ==> Idle(mine))
      ensures mine[0] == GiveUp(me) || exists fate :: mine[0] == Fence(me, old(job.sys).now, arm, fate)
      ensures result.Recorded? ==> mine == [Fence(me, old(job.sys).now, arm, Answered)]
      ensures doc == if arm && result.Recorded? then old(doc).(started := true) else old(doc)
      ensures result.Recorded? ==>
                && CheckTime(Phase()).Some? && old(job.sys).now <= CheckTime(Phase()).value < doc.leaseUntil - 120
                && (if arm && doc.kind != CosmosContainer then Phase().Armed? else Phase().Working?)
                && Newest(job.sys, tag) && Last(job.sys) == Version(doc, Fenced(me))
      ensures result.OwnershipLost? ==> Phase().Done?
      ensures result.Deadline? || result.Raised? ==> Phase().Closing?
      ensures result.Deadline? <==> old(job.sys).now >= doc.leaseUntil - 120
    {
      hide Inv, Run, Own;
      var at := job.sys.now;
      mine := [GiveUp(me)];
      if at >= doc.leaseUntil - MARGIN {
        trace := Raise(start, sofar);
        return Deadline, mine, trace;
      }
      var scoped := AnyBool();
      if !scoped {
        trace := Raise(start, sofar);
        return Raised, mine, trace;
      }
      trace := LetOthers(start, sofar);
      var fate := AnyFate();
      var fits := Newest(job.sys, tag);
      mine := [Fence(me, at, arm, fate)];
      trace := Do(Fence(me, at, arm, fate), start, trace);
      if fits && fate.Answered? {
        doc := if arm then doc.(started := true) else doc;
        tag := |job.sys.log| - 1;
        result := Recorded;
      } else {
        result := if fate.Answered? || fate.LostRefused? then OwnershipLost else Raised;
      }
    }

    /**
     `_request`: a fence first, then the call. A request that stopped either never made its call, or made it
     under its fence and gave up on the answer.
     */
    method Request(ghost start: State, ghost sofar: seq<Step>)
      returns (reply: Reply, ghost mine: seq<Step>, ghost trace: seq<Step>)
      requires Valid() && job.sys == Run(start, sofar) && Phase().Working?
      modifies this, job
      ensures Valid() && Continued(start, sofar, mine, trace) && doc == old(doc)
      ensures !reply.Stopped? ==> mine == Call(me, old(job.sys).now)
      ensures reply.Stopped? ==> Idle(mine) || mine == Call(me, old(job.sys).now) + [GiveUp(me)]
      ensures !reply.Stopped? ==>
                && Phase().Working? && CheckTime(Phase()).Some? && job.sys.actions != []
                && job.sys.actions[|job.sys.actions| - 1] == Action(doc.attempts, |job.sys.log|, false)
      ensures reply.Stopped? ==> Phase().Closing? || Phase().Done?
    {
      hide Inv, Run, Own, Effectless;
      var recorded;
      recorded, mine, trace := RecordProgress(false, start, sofar);
      if !recorded.Recorded? {
        return Stopped, mine, trace;
      }
      trace := LetOthers(start, trace);
      trace := Do(Act(me), start, trace);
      mine := Call(me, old(job.sys).now);
      reply := AnyReply();
      if reply.Stopped? {
        trace := Raise(start, trace);
        mine := mine + [GiveUp(me)];
      }
    }

    /** These own steps are `n` fenced calls and nothing else. */
    ghost predicate Calls(steps: seq<Step>, n: nat) {
      |steps| == 2 * n && forall i | 0 <= i < n :: CallAt(steps, 2 * i)
    }

    ghost predicate CallAt(steps: seq<Step>, i: nat)
      requires i + 1 < |steps|
    {
      IsFence(steps[i], false) && steps[i].executor == me && steps[i + 1] == Act(me)
    }

    /** All own steps so far are fenced calls. */
    ghost predicate Polling(steps: seq<Step>, n: nat) {
      Calls(steps, n) && Plain(steps)
    }

    lemma OneMorePoll(steps: seq<Step>, n: nat, at: int)
      requires Polling(steps, n)
      ensures Polling(steps + Call(me, at), n + 1)
    {
      var more := steps + Call(me, at);
      forall i | 0 <= i < n + 1 ensures CallAt(more, 2 * i) {
        if i < n {
          assert CallAt(steps, 2 * i);
        }
      }
      PlainJoined(steps, Call(me, at));
    }

    /** The polls are over, and `tail` is how they ended. */
    lemma PollsOver(steps: seq<Step>, n: nat, tail: seq<Step>, at: int)
      requires Polling(steps, n)
      requires Idle(tail) || tail == Call(me, at) || tail == Call(me, at) + [GiveUp(me)]
      ensures var all := steps + tail;
              && 2 * n <= |all| && all[..2 * n] == steps && all[2 * n..] == tail
              && Calls(all[..2 * n], n) && Plain(all)
    {
      RequestGuarded(me, tail, at);
      PlainJoined(steps, tail);
      assert (steps + tail)[..2 * n] == steps;
    }

    /** One turn of the loop in `wait`: a fenced call, after which a failed resource is given up. */
    method Poll(ghost start: State, ghost sofar: seq<Step>)
      returns (reply: Reply, ghost poll: seq<Step>, ghost trace: seq<Step>)
      requires Valid() && job.sys == Run(start, sofar) && Phase().Working?
      modifies this, job
      ensures Valid() && Continued(start, sofar, poll, trace) && doc == old(doc)
      ensures if reply.Stopped? || reply == Answer(ProvisioningFailed) then
                && (Phase().Closing? || Phase().Done?)
                && (Idle(poll) || poll == Call(me, old(job.sys).now) + [GiveUp(me)])
              else Phase().Working? && poll == Call(me, old(job.sys).now)
    {
      hide Inv, Run, Own, Call, Effectless;
      reply, poll, trace := Request(start, sofar);
      if reply == Answer(ProvisioningFailed) {
        trace := Raise(start, trace);
        poll := poll + [GiveUp(me)];
      } else if reply.NotFound? || reply == Answer(Pending) {
        trace := LetOthers(start, trace);
      }
    }

    /**
     `wait`: at most 120 polls, each a fenced call of its own; true exactly when the last of them answered
     that the resource is there. The first `answered` polls found it neither there nor failed.
     */
    method Wait(ghost start: State, ghost sofar: seq<Step>)
      returns (ready: bool, polls: nat, ghost last: Reply, ghost answered: nat, ghost mine: seq<Step>,
               ghost trace: seq<Step>)
      requires Valid() && job.sys == Run(start, sofar) && Phase().Working?
      modifies this, job
      ensures Valid() && Continued(start, sofar, mine, trace) && doc == old(doc)
      ensures Plain(mine)
      ensures answered <= polls <= 120 && polls <= answered + 1
      ensures 2 * answered <= |mine| && Calls(mine[..2 * answered], answered)
      ensures ready <==> last == Answer(ProvisioningSucceeded)
      ensures ready ==> Phase().Working? && polls == answered > 0 && |mine| == 2 * answered
      ensures !ready ==> Phase().Closing? || Phase().Done?
      ensures !ready && answered == polls ==> polls == 120 && mine[2 * answered..] == [GiveUp(me)]
      ensures answered < polls ==> last.Stopped? || last == Answer(ProvisioningFailed)
    {
      hide Inv, Run, Own, Calls, Call, Idle, Effectless, Plain, Polling;
      NoPolls();
      polls, trace, ready, answered, mine, last := 0, sofar, false, 0, [], Stopped;
      while polls < 120
        invariant Valid() && Continued(start, sofar, mine, trace) && doc == old(doc) && answered == polls <= 120
        invariant Polling(mine, answered) && Phase().Working?
        invariant last != Answer(ProvisioningSucceeded)
      {
        var reply;
        ghost var poll, at, before := [], job.sys.now, mine;
        reply, poll, trace := Poll(start, trace);
        Regrouped(Own(sofar, me), before, poll);
        polls, last, mine := polls + 1, reply, before + poll;
        if reply.Stopped? || reply == Answer(ProvisioningFailed) {
          PollsOver(before, answered, poll, at);
          return;
        }
        OneMorePoll(before, answered, at);
        answered := answered + 1;
        if reply == Answer(ProvisioningSucceeded) {
          AllPolls(mine, answered);
          ready := true;
          return;
        }
      }
      trace := Raise(start, trace);
      Regrouped(Own(sofar, me), mine, [GiveUp(me)]);
      PollsOver(mine, answered, [GiveUp(me)], 0);
      mine := mine + [GiveUp(me)];
    }

    lemma NoPolls()
      ensures Polling([], 0) && Idle([GiveUp(me)])
    {
    }

    lemma AllPolls(steps: seq<Step>, n: nat)
      requires Polling(steps, n)
      ensures |steps| == 2 * n && Calls(steps[..2 * n], n) && Plain(steps)
    {
      assert steps[..2 * n] == steps;
    }

    /** The started flag is durable before the effect it announces; without it there is no effect. */
    method FlagThenAct(ghost start: State, ghost sofar: seq<Step>)
      returns (acted: bool, ghost at: int, ghost mine: seq<Step>, ghost trace: seq<Step>)
      requires Valid() && job.sys == Run(start, sofar) && Phase().Working? && !doc.started
      requires doc.kind != CosmosContainer
      modifies this, job
      ensures Valid() && Continued(start, sofar, mine, trace)
      ensures if acted then mine == CallOnce(me, at) else Effectless(mine) && doc == old(doc)
      ensures acted ==> doc == old(doc).(started := true) && Phase().Working? && OnceCount(job.sys.actions) > 0
      ensures !acted ==> Phase().Closing? || Phase().Done?
    {
      hide Inv, Run, Own, Effectless;
      at := job.sys.now;
      var recorded;
      recorded, mine, trace := RecordProgress(true, start, sofar);
      if !recorded.Recorded? {
        return false, at, mine, trace;
      }
      trace := LetOthers(start, trace);
      OnceAppended(job.sys.actions, Action(doc.attempts, |job.sys.log|, true));
      trace := Do(ActOnce(me), start, trace);
      mine := CallOnce(me, at);
      acted := true;
    }

    /** What `verify_agent` does to Azure when it gets through: two looks at the agent, the flag, the inference. */
    ghost predicate Inference(steps: seq<Step>) {
      exists at, flagged :: steps == InferenceSteps(at, flagged)
    }

    function InferenceSteps(at: int, flagged: int): seq<Step> {
      Call(me, at) + [Act(me)] + CallOnce(me, flagged)
    }

    /** The project endpoint and the agent's version, which must be the planned one; the fence is before both. */
    method LookAtAgent(ghost start: State, ghost sofar: seq<Step>)
      returns (owned: bool, ghost mine: seq<Step>, ghost trace: seq<Step>)
      requires Valid() && job.sys == Run(start, sofar) && Phase().Working?
      modifies this, job
      ensures Valid() && Continued(start, sofar, mine, trace) && Guarded(mine) && NoOnce(mine) && doc == old(doc)
      ensures if owned then Phase().Working? && mine == Call(me, old(job.sys).now) + [Act(me)]
              else Phase().Closing? || Phase().Done?
    {
      hide Inv, Run, Own, Effectless, Guarded, NoOnce, Plain, Idle;
      GiveUpOnly(me);
      PlainFacts([GiveUp(me)]);
      var reply;
      ghost var at := job.sys.now;
      reply, mine, trace := Request(start, sofar);
      RequestGuarded(me, mine, at);
      PlainFacts(mine);
      owned := false;
      if !reply.Answer? {
        if reply.NotFound? {
          trace := Raise(start, trace);
          GuardedJoined(mine, [GiveUp(me)]);
          mine := mine + [GiveUp(me)];
        }
        return;
      }
      trace := LetOthers(start, trace);
      trace := Do(Act(me), start, trace);   // get_version, under the same fence
      mine := Call(me, at) + [Act(me)];
      TwoCallsGuarded(me, at);
      owned := AnyBool();
      if !owned {
        trace := Raise(start, trace);
        GuardedJoined(mine, [GiveUp(me)]);
        mine := mine + [GiveUp(me)];
      }
    }

    /**
     `verify_agent`: refuses when an inference was started before, whoever started it; otherwise looks
     at the agent, commits the flag, and only then sends the one billable request.
     */
    method VerifyAgent(ghost start: State, ghost sofar: seq<Step>)
      returns (verified: bool, ghost mine: seq<Step>, ghost trace: seq<Step>)
      requires Valid() && job.sys == Run(start, sofar) && Phase().Working? && doc.kind == Verification
      modifies this, job
      ensures Valid() && Continued(start, sofar, mine, trace) && Guarded(mine)
      ensures verified ==> Inference(mine)
      ensures !verified && !NoOnce(mine) ==> !old(doc).started && mine != [] && Inference(mine[..|mine| - 1])
      ensures old(doc).started ==> !verified && mine == [GiveUp(me)]
      ensures verified ==> !old(doc).started && doc.started && Phase().Working? && OnceCount(job.sys.actions) > 0
      ensures !verified ==> Phase().Closing? || Phase().Done?
    {
      hide Inv, Run, Own, Effectless, Guarded, NoOnce, Plain, Idle;
      GiveUpOnly(me);
      PlainFacts([GiveUp(me)]);
      if doc.started {
        trace := Raise(start, sofar);
        return false, [GiveUp(me)], trace;
      }
      var owned;
      ghost var at := job.sys.now;
      owned, mine, trace := LookAtAgent(start, sofar);
      if !owned {
        return false, mine, trace;
      }
      ghost var flagged, effect;
      verified, flagged, effect, trace := FlagThenAct(start, trace);
      if verified {
        GuardedJoined(mine, effect);
        assert mine + effect == InferenceSteps(at, flagged);
        mine := mine + effect;
        assert Inference(mine);
        var convincing := AnyBool();        // completed, with inspectable source references
        if !convincing {
          trace := Raise(start, trace);
          GuardedJoined(mine, [GiveUp(me)]);
          assert (mine + [GiveUp(me)])[..|mine|] == mine;
          return false, mine + [GiveUp(me)], trace;
        }
      } else {
        EffectlessIsGuarded(effect);
        GuardedJoined(mine, effect);
        mine := mine + effect;
      }
    }

    /**
     `deploy_foundry`: after the fenced preparations it lists the agent's versions. One of its own is
     adopted without creating anything; a foreign one, or an earlier start it cannot find, is a failure;
     only otherwise is the flag committed and the version created.
     */
    method DeployFoundry(ghost start: State, ghost sofar: seq<Step>)
      returns (done: bool, adopted: bool, ghost mine: seq<Step>, ghost trace: seq<Step>)
      requires Valid() && job.sys == Run(start, sofar) && Phase().Working? && doc.kind == Foundry
      modifies this, job
      ensures Valid() && Continued(start, sofar, mine, trace) && Guarded(mine)
      ensures done ==> Phase().Working?
      ensures adopted ==> done && NoOnce(mine) && doc == old(doc)
      ensures old(doc).started ==> NoOnce(mine) && doc == old(doc)
      ensures done && !adopted ==>
                && !old(doc).started && doc == old(doc).(started := true) && OnceCount(job.sys.actions) > 0
                && |mine| >= 2 && IsFence(mine[|mine| - 2], true) && mine[|mine| - 1] == ActOnce(me)
                && NoOnce(mine[..|mine| - 2])
      ensures !done ==> Phase().Closing? || Phase().Done?
    {
      hide Inv, Run, Own, Effectless, Guarded, NoOnce, Call;
      done, adopted := false, false;
      var prepared;
      prepared, mine, trace := Prepare(start, sofar);
      if !prepared {
        return;
      }
      var listed;
      ghost var listing;
      listed, listing, trace := ListVersions(start, trace);
      GuardedJoined(mine, listing);
      mine := mine + listing;
      if !listed {
        return;
      }
      var own, foreign := AnyPair();
      if own {
        return true, true, mine, trace;
      }
      GiveUpOnly(me);
      GuardedJoined(mine, [GiveUp(me)]);
      if foreign || doc.started {
        trace := Raise(start, trace);
        mine := mine + [GiveUp(me)];
        return;
      }
      ghost var before, at, effect := mine, 0, [];
      done, at, effect, trace := FlagThenAct(start, trace);
      if !done {
        EffectlessIsGuarded(effect);
        GuardedJoined(before, effect);
        mine := before + effect;
        return;
      }
      GuardedJoined(before, effect);
      mine := before + effect;
      assert mine[..|mine| - 2] == before;
      var created := AnyBool();             // or Azure raised, and the creation may have happened
      if !created {
        GuardedJoined(mine, [GiveUp(me)]);
        trace := Raise(start, trace);
        mine := mine + [GiveUp(me)];
        done := false;
      }
    }

    /** The project endpoint, the chat deployment, the connection, its key, and the connection's PUT. */
    method Prepare(ghost start: State, ghost sofar: seq<Step>)
      returns (done: bool, ghost mine: seq<Step>, ghost trace: seq<Step>)
      requires Valid() && job.sys == Run(start, sofar) && Phase().Working?
      modifies this, job
      ensures Valid() && Continued(start, sofar, mine, trace) && Plain(mine) && doc == old(doc)
      ensures if done then Phase().Working? else Phase().Closing? || Phase().Done?
    {
      hide Inv, Run, Own, Effectless, Plain, Call;
      trace, mine, done := sofar, [], false;
      NothingGuarded();
      for i := 0 to 5
        invariant Valid() && Continued(start, sofar, mine, trace) && doc == old(doc) && Phase().Working?
        invariant Plain(mine)
      {
        if i == 2 {
          var recorded;
          ghost var fence;
          recorded, fence, trace := RecordProgress(false, start, trace);
          IdleIsPlain(fence);
          PlainJoined(mine, fence);
          mine := mine + fence;
          if !recorded.Recorded? {
            return;
          }
        }
        var reply;
        ghost var steps, at := [], job.sys.now;
        reply, steps, trace := Request(start, trace);
        RequestGuarded(me, steps, at);
        PlainJoined(mine, steps);
        mine := mine + steps;
        if reply.Stopped? {
          return;
        }
        var acceptable := AnyBool();
        if !acceptable || (reply.NotFound? && i != 2) {
          GiveUpOnly(me);
          PlainJoined(mine, [GiveUp(me)]);
          trace := Raise(start, trace);
          mine := mine + [GiveUp(me)];
          return;
        }
      }
      done := true;
    }

    /** The fence before the reconciliation, and `list_versions` under it; it may raise. */
    method ListVersions(ghost start: State, ghost sofar: seq<Step>)
      returns (done: bool, ghost mine: seq<Step>, ghost trace: seq<Step>)
      requires Valid() && job.sys == Run(start, sofar) && Phase().Working?
      modifies this, job
      ensures Valid() && Continued(start, sofar, mine, trace) && Plain(mine) && doc == old(doc)
      ensures if done then Phase().Working? else Phase().Closing? || Phase().Done?
    {
      hide Inv, Run, Own, Effectless, Plain;
      ghost var at := job.sys.now;
      var recorded;
      recorded, mine, trace := RecordProgress(false, start, sofar);
      IdleIsPlain(mine);
      if !recorded.Recorded? {
        return false, mine, trace;
      }
      trace := LetOthers(start, trace);
      trace := Do(Act(me), start, trace);
      mine := Call(me, at);
      done := AnyBool();
      if !done {
        GiveUpOnly(me);
        PlainJoined(mine, [GiveUp(me)]);
        trace := Raise(start, trace);
        mine := mine + [GiveUp(me)];
      }
    }

    /** The own steps of an executor at the container are those of its moves beside it, its fences in between. */
    ghost predicate Provisions(mine: seq<Step>, at: int, started: bool, found: Option<bool>, done: bool) {
      var fence := Fence(me, at, false, Answered);
      match found
      case None => !done && (Idle(mine) || mine == [fence, Act(me), GiveUp(me)])
      case Some(true) => done == started && mine == [fence] + Container.Shown(Container.Look(me), started)
      case Some(false) => exists rest ::
        mine == [fence] + Container.Shown(Container.Look(me), true) + rest && Creates(rest, done)
    }

    ghost predicate Creates(rest: seq<Step>, done: bool) {
      (!done && Idle(rest)) || exists asked, answered, next :: Asks(rest, asked, answered, next, done)
    }

    ghost predicate Asks(rest: seq<Step>, asked: int, answered: bool, next: seq<Step>, done: bool) {
      && rest == [Fence(me, asked, false, Answered)] +
                   Container.Shown(Container.Make(me, answered, answered), answered) + next
      && if answered then FlagAndWait(next, done) else !done && next == []
    }

    /** The one thing after an answered request is storing the flag, and the polls come after the stored flag. */
    ghost predicate FlagAndWait(rest: seq<Step>, done: bool) {
      || (!done && rest == [GiveUp(me)])
      || exists at, fate, wait ::
           && rest == Container.Shown(Container.Mark(me, at, fate), true) + wait && Plain(wait)
           && (done || wait != [] ==> fate.Answered?)
    }

    /** What `deploy_container` does to the container itself: look, and if there is none create it and set the flag. */
    method EnsureContainer(ghost start: State, ghost sofar: seq<Step>)
      returns (done: bool, found: Option<bool>, ghost mine: seq<Step>, ghost trace: seq<Step>)
      requires Valid() && job.sys == Run(start, sofar) && Phase().Working? && doc.kind == CosmosContainer
      modifies this, job
      ensures Valid() && Continued(start, sofar, mine, trace) && Guarded(mine) && NoOnce(mine)
      ensures Provisions(mine, old(job.sys).now, old(doc).started, found, done) && MarksAfterCalls(mine)
      ensures done ==> Phase().Working? && doc.started && found.Some?
      ensures !done ==> Phase().Closing? || Phase().Done?
      ensures found == Some(true) ==> NoMarks(mine) && doc == old(doc) && (done <==> old(doc).started)
      ensures found != Some(true) && doc != old(doc) ==> doc == old(doc).(started := true)
    {
      hide Inv, Run, Own, Idle, Effectless, Guarded, NoOnce, Creates;
      ghost var at := job.sys.now;
      var look;
      look, mine, trace := Request(start, sofar);
      RequestGuarded(me, mine, at);
      done, found := false, None;
      if look.Stopped? {
        return;
      }
      found := Some(look.Answer?);
      GiveUpOnly(me);
      if look.Answer? {
        done := doc.started;
        if !doc.started {
          GuardedJoined(mine, [GiveUp(me)]);
          MarksJoined(mine, [GiveUp(me)]);
          trace := Raise(start, trace);
          mine := mine + [GiveUp(me)];
        }
        return;
      }
      ghost var rest, front := [], mine;
      done, rest, trace := CreateContainer(start, trace);
      GuardedJoined(front, rest);
      MarksJoined(front, rest);
      mine := front + rest;
      assert mine == [Fence(me, at, false, Answered)] + Container.Shown(Container.Look(me), true) + rest;
    }

    /** The request, and when it is answered the flag and the polls. */
    method CreateContainer(ghost start: State, ghost sofar: seq<Step>)
      returns (done: bool, ghost mine: seq<Step>, ghost trace: seq<Step>)
      requires Valid() && job.sys == Run(start, sofar) && Phase().Working? && doc.kind == CosmosContainer
      modifies this, job
      ensures Valid() && Continued(start, sofar, mine, trace) && Guarded(mine) && NoOnce(mine)
      ensures Creates(mine, done) && MarksAfterCalls(mine)
      ensures if done then Phase().Working? && doc.started else Phase().Closing? || Phase().Done?
      ensures doc != old(doc) ==> doc == old(doc).(started := true)
    {
      hide Inv, Run, Own, Idle, Effectless, Guarded, NoOnce, Creates, FlagAndWait;
      var put;
      ghost var asked := job.sys.now;
      put, mine, trace := Request(start, sofar);
      RequestGuarded(me, mine, asked);
      GiveUpOnly(me);
      done := false;
      if !put.Answer? {
        if put.NotFound? {
          GuardedJoined(mine, [GiveUp(me)]);
          MarksJoined(mine, [GiveUp(me)]);
          trace := Raise(start, trace);
          mine := mine + [GiveUp(me)];
        }
        NothingCreated(mine, asked);
        return;
      }
      var recorded;
      ghost var mark, flagged, front := [], job.sys.now, mine;
      recorded, mark, trace := RecordProgress(true, start, trace);
      EffectlessIsGuarded(mark);
      GuardedJoined(front, mark);
      MarkAfterCall(front, mark);
      mine := front + mark;
      if !recorded.Recorded? {
        FlagShown(mark, flagged, [], false);
        assert mark + [] == mark;
        Created(asked, mark, false);
        return;
      }
      ghost var wait, last, answered, marked := [], Stopped, 0, mine;
      var ready, count;
      ready, count, last, answered, wait, trace := Wait(start, trace);
      GuardedJoined(marked, wait);
      MarksJoined(marked, wait);
      Regrouped(front, mark, wait);
      mine := marked + wait;
      done := ready;
      FlagShown(mark, flagged, wait, done);
      Created(asked, mark + wait, done);
    }

    lemma NothingCreated(steps: seq<Step>, asked: int)
      requires Idle(steps) || steps == Call(me, asked) + [GiveUp(me)]
      ensures Creates(steps, false)
    {
      if !Idle(steps) {
        assert Asks(steps, asked, false, [], false);
      }
    }

    lemma FlagShown(mark: seq<Step>, at: int, wait: seq<Step>, done: bool)
      requires |mark| == 1 && (mark[0] == GiveUp(me) || exists fate :: mark[0] == Fence(me, at, true, fate))
      requires done || wait != [] ==> mark[0] == Fence(me, at, true, Answered)
      requires Plain(wait)
      ensures FlagAndWait(mark + wait, done)
    {
      if mark[0].Fence? {
        assert mark + wait == Container.Shown(Container.Mark(me, at, mark[0].fate), true) + wait;
      }
    }

    lemma Created(asked: int, rest: seq<Step>, done: bool)
      requires FlagAndWait(rest, done)
      ensures Creates(Call(me, asked) + rest, done)
    {
      hide FlagAndWait;
      assert Asks(Call(me, asked) + rest, asked, true, rest, done);
    }

    lemma MarkAfterCall(calls: seq<Step>, mark: seq<Step>)
      requires MarksAfterCalls(calls) && calls != [] && calls[|calls| - 1].Act? && |mark| == 1
      ensures MarksAfterCalls(calls + mark)
    {
    }

    /** Before it reaches the container, and after it is through with it, an executor only makes fenced calls. */
    ghost predicate Reaches(mine: seq<Step>, started: bool, found: Option<bool>, done: bool) {
      || (found.None? && !done && Plain(mine))
      || exists front, at, part, back :: ReachesBy(mine, front, at, part, back, started, found, done)
    }

    ghost predicate ReachesBy(mine: seq<Step>, front: seq<Step>, at: int, part: seq<Step>, back: seq<Step>,
                              started: bool, found: Option<bool>, done: bool) {
      && mine == front + part + back && Plain(front) && Plain(back)
      && Provisions(part, at, started, found, done || back != [])
    }

    /**
     `deploy_container`: account, database, a fence, then the container, and a last look that checks it. An
     existing container is a conflict unless the flag is set, and the flag is set only after the creation.
     */
    method DeployContainer(ghost start: State, ghost sofar: seq<Step>)
      returns (done: bool, found: Option<bool>, ghost mine: seq<Step>, ghost trace: seq<Step>)
      requires Valid() && job.sys == Run(start, sofar) && Phase().Working? && doc.kind == CosmosContainer
      modifies this, job
      ensures Valid() && Continued(start, sofar, mine, trace) && Guarded(mine) && NoOnce(mine)
      ensures MarksAfterCalls(mine) && Reaches(mine, old(doc).started, found, done)
      ensures done ==> Phase().Working? && doc.started && found.Some?
      ensures !done ==> Phase().Closing? || Phase().Done?
      ensures found == Some(true) ==> NoMarks(mine) && doc == old(doc) && (done ==> old(doc).started)
      ensures found == Some(true) && !old(doc).started ==> mine != [] && mine[|mine| - 1] == GiveUp(me)
    {
      hide Inv, Run, Own, Effectless, Plain, Idle, Guarded, NoOnce, Call, MarksAfterCalls, ReachesBy;
      done, found := false, None;
      var prepared;
      prepared, mine, trace := OpenAccount(start, sofar);
      PlainFacts(mine);
      if !prepared {
        return;
      }
      ghost var front, at, part := mine, job.sys.now, [];
      done, found, part, trace := EnsureContainer(start, trace);
      if found == Some(true) && !old(doc).started {
        ConflictEnds(part, at, found, done);
      }
      hide Provisions;
      GuardedJoined(front, part);
      MarksJoined(front, part);
      Regrouped(Own(sofar, me), front, part);
      mine := front + part;
      ghost var back := [];
      if done {
        ghost var before := mine;
        done, back, trace := CheckContainer(start, trace);
        PlainFacts(back);
        GuardedJoined(before, back);
        MarksJoined(before, back);
        Regrouped(Own(sofar, me), before, back);
        mine := before + back;
      } else {
        NothingGuarded();
        assert mine + [] == mine;
      }
      ReachedBy(mine, front, at, part, back, old(doc).started, found, done);
    }

    lemma ConflictEnds(part: seq<Step>, at: int, found: Option<bool>, done: bool)
      requires Provisions(part, at, false, found, done) && found == Some(true)
      ensures part[|part| - 1] == GiveUp(me)
    {
    }

    lemma ReachedBy(mine: seq<Step>, front: seq<Step>, at: int, part: seq<Step>, back: seq<Step>,
                    started: bool, found: Option<bool>, done: bool)
      requires mine == front + part + back && Plain(front) && Plain(back)
      requires Provisions(part, at, started, found, done || back != [])
      ensures Reaches(mine, started, found, done)
    {
      assert ReachesBy(mine, front, at, part, back, started, found, done);
    }

    /** The last look, which compares what is there with the plan. */
    method CheckContainer(ghost start: State, ghost sofar: seq<Step>)
      returns (done: bool, ghost mine: seq<Step>, ghost trace: seq<Step>)
      requires Valid() && job.sys == Run(start, sofar) && Phase().Working?
      modifies this, job
      ensures Valid() && Continued(start, sofar, mine, trace) && Plain(mine) && mine != [] && doc == old(doc)
      ensures if done then Phase().Working? else Phase().Closing? || Phase().Done?
    {
      hide Inv, Run, Own, Effectless, Plain;
      var check;
      ghost var at := job.sys.now;
      check, mine, trace := Request(start, sofar);
      RequestGuarded(me, mine, at);
      var matches := AnyBool();
      done := check.Answer? && matches;
      if !check.Stopped? && !done {
        GiveUpOnly(me);
        PlainJoined(mine, [GiveUp(me)]);
        trace := Raise(start, trace);
        mine := mine + [GiveUp(me)];
      }
    }

    /** Requests one after the other, each with its own fence; what does not suit is a failure. */
    method Requests(n: nat, ghost start: State, ghost sofar: seq<Step>)
      returns (done: bool, ghost mine: seq<Step>, ghost trace: seq<Step>)
      requires Valid() && job.sys == Run(start, sofar) && Phase().Working?
      modifies this, job
      ensures Valid() && Continued(start, sofar, mine, trace) && Plain(mine) && doc == old(doc)
      ensures if done then Phase().Working? else Phase().Closing? || Phase().Done?
    {
      hide Inv, Run, Own, Effectless, Plain, Call;
      trace, mine, done := sofar, [], false;
      NothingGuarded();
      for i := 0 to n
        invariant Valid() && Continued(start, sofar, mine, trace) && doc == old(doc) && Phase().Working?
        invariant Plain(mine)
      {
        var reply;
        ghost var steps, at, before := [], job.sys.now, mine;
        reply, steps, trace := Request(start, trace);
        RequestGuarded(me, steps, at);
        PlainJoined(before, steps);
        mine := before + steps;
        if reply.Stopped? {
          return;
        }
        var acceptable := AnyBool();
        if reply.NotFound? || !acceptable {
          GiveUpOnly(me);
          PlainJoined(mine, [GiveUp(me)]);
          trace := Raise(start, trace);
          mine := mine + [GiveUp(me)];
          return;
        }
      }
      done := true;
    }

    /** A fence, as it stands before each stage. */
    method Stage(ghost start: State, ghost sofar: seq<Step>)
      returns (done: bool, ghost mine: seq<Step>, ghost trace: seq<Step>)
      requires Valid() && job.sys == Run(start, sofar) && Phase().Working?
      modifies this, job
      ensures Valid() && Continued(start, sofar, mine, trace) && Plain(mine) && doc == old(doc)
      ensures if done then Phase().Working? && CheckTime(Phase()).Some? && |mine| == 1 && IsFence(mine[0], false)
              else Phase().Closing? || Phase().Done?
    {
      hide Inv, Run, Own, Effectless;
      var recorded;
      recorded, mine, trace := RecordProgress(false, start, sofar);
      IdleIsPlain(mine);
      done := recorded.Recorded?;
    }

    /** The account, the database and the fence before the container. */
    method OpenAccount(ghost start: State, ghost sofar: seq<Step>)
      returns (done: bool, ghost mine: seq<Step>, ghost trace: seq<Step>)
      requires Valid() && job.sys == Run(start, sofar) && Phase().Working?
      modifies this, job
      ensures Valid() && Continued(start, sofar, mine, trace) && Plain(mine) && doc == old(doc)
      ensures if done then Phase().Working? else Phase().Closing? || Phase().Done?
    {
      hide Inv, Run, Own, Effectless, Plain;
      done, mine, trace := Requests(2, start, sofar);
      if done {
        ghost var front, fence := mine, [];
        done, fence, trace := Stage(start, trace);
        PlainJoined(front, fence);
        Regrouped(Own(sofar, me), front, fence);
        mine := front + fence;
      }
    }

    // -------------------------------------------------------------------- an MCP server

    /** `ensure`: a look, the request, and the polls; a resource of somebody else is a failure. */
    method Ensure(ghost start: State, ghost sofar: seq<Step>)
      returns (done: bool, ghost mine: seq<Step>, ghost trace: seq<Step>)
      requires Valid() && job.sys == Run(start, sofar) && Phase().Working?
      modifies this, job
      ensures Valid() && Continued(start, sofar, mine, trace) && Plain(mine) && doc == old(doc)
      ensures if done then Phase().Working? else Phase().Closing? || Phase().Done?
    {
      hide Inv, Run, Own, Effectless, Plain, Call;
      done := false;
      var look;
      ghost var at := job.sys.now;
      look, mine, trace := Request(start, sofar);
      RequestGuarded(me, mine, at);
      if look.Stopped? {
        return;
      }
      var own := AnyBool();
      if look.Answer? && !own {
        GiveUpOnly(me);
        PlainJoined(mine, [GiveUp(me)]);
        trace := Raise(start, trace);
        mine := mine + [GiveUp(me)];
        return;
      }
      ghost var front, put := mine, [];
      done, put, trace := Requests(1, start, trace);
      PlainJoined(front, put);
      Regrouped(Own(sofar, me), front, put);
      mine := front + put;
      if done {
        var polls;
        ghost var last, answered, wait, before := Stopped, 0, [], mine;
        done, polls, last, answered, wait, trace := Wait(start, trace);
        PlainJoined(before, wait);
        Regrouped(Own(sofar, me), before, wait);
        mine := before + wait;
      }
    }

    /** The upload of the package and at most 90 polls of its publication. */
    method Publish(ghost start: State, ghost sofar: seq<Step>)
      returns (done: bool, polls: nat, ghost mine: seq<Step>, ghost trace: seq<Step>)
      requires Valid() && job.sys == Run(start, sofar) && Phase().Working?
      modifies this, job
      ensures Valid() && Continued(start, sofar, mine, trace) && Plain(mine) && doc == old(doc) && polls <= 90
      ensures if done then Phase().Working? else Phase().Closing? || Phase().Done?
    {
      hide Inv, Run, Own, Effectless, Plain, Call, Idle;
      polls := 0;
      done, mine, trace := Requests(1, start, sofar);
      if !done {
        return;
      }
      done := false;
      while polls < 90
        invariant Valid() && Continued(start, sofar, mine, trace) && doc == old(doc) && Phase().Working?
        invariant Plain(mine) && polls <= 90
      {
        trace := LetOthers(start, trace);
        var reply;
        ghost var poll, at, before := [], job.sys.now, mine;
        reply, poll, trace := Poll(start, trace);
        RequestGuarded(me, poll, at);
        PlainJoined(before, poll);
        Regrouped(Own(sofar, me), before, poll);
        mine, polls := before + poll, polls + 1;
        if reply.Stopped? || reply == Answer(ProvisioningFailed) {
          return;
        }
        if reply == Answer(ProvisioningSucceeded) {
          done := true;
          return;
        }
      }
      GiveUpOnly(me);
      PlainJoined(mine, [GiveUp(me)]);
      trace := Raise(start, trace);
      mine := mine + [GiveUp(me)];
    }

    /**
     One round of `verify_mcp` after the fence `fence`: an anonymous request without a fence of its own, the
     function's key with one, and under that one up to three more requests. A failure to get through is swallowed.
     */
    method ProbeServer(ghost fence: Step, ghost start: State, ghost sofar: seq<Step>)
      returns (ready: bool, ghost mine: seq<Step>, ghost trace: seq<Step>)
      requires Valid() && job.sys == Run(start, sofar) && Phase().Working? && CheckTime(Phase()).Some?
      requires IsFence(fence, false)
      modifies this, job
      ensures Valid() && Continued(start, sofar, mine, trace) && Plain([fence] + mine) && doc == old(doc)
      ensures Phase().Working? || (!ready && (Phase().Closing? || Phase().Done?))
    {
      hide Inv, Run, Own, Effectless, Plain, Call, Idle;
      ready := false;
      FenceIsPlain(fence);
      MoreCalls([fence], me, 0);
      trace := LetOthers(start, sofar);
      trace := Do(Act(me), start, trace);
      mine := [Act(me)];
      GiveUpOnly(me);
      ghost var front := [fence] + mine;
      var unprotected, sent := AnyPair();
      if unprotected {
        PlainJoined(front, [GiveUp(me)]);
        trace := Raise(start, trace);
        mine := mine + [GiveUp(me)];
        assert front + [GiveUp(me)] == [fence] + mine;
        return;
      }
      if !sent {
        return;
      }
      var key;
      ghost var asked, at := [], job.sys.now;
      key, asked, trace := Request(start, trace);
      RequestGuarded(me, asked, at);
      PlainJoined(front, asked);
      Regrouped([fence], mine, asked);
      Regrouped(Own(sofar, me), mine, asked);
      mine := mine + asked;
      var supplied := AnyBool();
      if !key.Answer? || !supplied {
        return;
      }
      var posts := 0;
      CallIsUnderFence(front, me, at);
      while posts < 3
        invariant Valid() && Continued(start, sofar, mine, trace) && doc == old(doc)
        invariant Phase().Working? && CheckTime(Phase()).Some? && posts <= 3
        invariant Plain([fence] + mine) && mine != [] && mine[|mine| - 1].Act?
        invariant UnderFence([fence] + mine, |mine|, posts + 1)
      {
        MoreCalls([fence] + mine, me, posts + 1);
        trace := LetOthers(start, trace);
        trace := Do(Act(me), start, trace);
        Regrouped([fence], mine, [Act(me)]);
        mine, posts := mine + [Act(me)], posts + 1;
        var convincing := AnyBool();
        if !convincing {
          return;
        }
      }
      ready := true;
    }

    /** `verify_mcp`: at most 24 rounds, each followed by a fence. */
    method VerifyMcp(ghost start: State, ghost sofar: seq<Step>)
      returns (ready: bool, rounds: nat, ghost mine: seq<Step>, ghost trace: seq<Step>)
      requires Valid() && job.sys == Run(start, sofar) && Phase().Working?
      modifies this, job
      ensures Valid() && Continued(start, sofar, mine, trace) && Plain(mine) && doc == old(doc) && rounds <= 24
      ensures if ready then Phase().Working? else Phase().Closing? || Phase().Done?
    {
      hide Inv, Run, Own, Effectless, Plain;
      rounds, ready := 0, false;
      var staged;
      staged, mine, trace := Stage(start, sofar);
      if !staged {
        return;
      }
      while rounds < 24
        invariant Valid() && Continued(start, sofar, mine, trace) && doc == old(doc) && rounds <= 24 && !ready
        invariant Phase().Working? && CheckTime(Phase()).Some?
        invariant Plain(mine) && mine != [] && IsFence(mine[|mine| - 1], false)
      {
        rounds := rounds + 1;
        ghost var probe, front, fence := [], mine, mine[|mine| - 1];
        ready, probe, trace := ProbeServer(fence, start, trace);
        PlainOverlapped(front, probe);
        Regrouped(Own(sofar, me), front, probe);
        mine := front + probe;
        if ready || job.sys.executors[me].phase.Closing? || job.sys.executors[me].phase.Done? {
          return;
        }
        ghost var next, before := [], mine;
        staged, next, trace := Stage(start, trace);
        PlainJoined(before, next);
        Regrouped(Own(sofar, me), before, next);
        mine := before + next;
        if !staged {
          return;
        }
      }
      GiveUpOnly(me);
      PlainJoined(mine, [GiveUp(me)]);
      trace := Raise(start, trace);
      mine := mine + [GiveUp(me)];
    }

    /**
     `deploy_mcp`: storage, plan and function app, their roles, the package, and the check that the server
     answers. Every request of it can be repeated, so it stores no flag and makes no guarded effect.
     */
    method DeployMcp(ghost start: State, ghost sofar: seq<Step>)
      returns (done: bool, ghost mine: seq<Step>, ghost trace: seq<Step>)
      requires Valid() && job.sys == Run(start, sofar) && Phase().Working?
      modifies this, job
      ensures Valid() && Continued(start, sofar, mine, trace) && Plain(mine) && doc == old(doc)
      ensures if done then Phase().Working? else Phase().Closing? || Phase().Done?
    {
      hide Inv, Run, Own, Effectless, Plain;
      done, mine, trace := Requests(2, start, sofar);
      for i := 0 to 3
        invariant Valid() && Continued(start, sofar, mine, trace) && Plain(mine) && doc == old(doc)
        invariant if done then Phase().Working? else Phase().Closing? || Phase().Done?
      {
        if done {
          ghost var front, next := mine, [];
          done, next, trace := Resource(if i == 0 then 1 else 0, start, trace);
          PlainJoined(front, next);
          Regrouped(Own(sofar, me), front, next);
          mine := front + next;
        }
      }
      if done {
        ghost var front, last := mine, [];
        done, last, trace := PublishAndVerify(start, trace);
        PlainJoined(front, last);
        Regrouped(Own(sofar, me), front, last);
        mine := front + last;
      }
    }

    /** One resource of the server: a fence, `ensure`, and what goes into it. */
    method Resource(parts: nat, ghost start: State, ghost sofar: seq<Step>)
      returns (done: bool, ghost mine: seq<Step>, ghost trace: seq<Step>)
      requires Valid() && job.sys == Run(start, sofar) && Phase().Working?
      modifies this, job
      ensures Valid() && Continued(start, sofar, mine, trace) && Plain(mine) && doc == old(doc)
      ensures if done then Phase().Working? else Phase().Closing? || Phase().Done?
    {
      hide Inv, Run, Own, Effectless, Plain;
      done, mine, trace := Stage(start, sofar);
      if done {
        ghost var front, next := mine, [];
        done, next, trace := Ensure(start, trace);
        PlainJoined(front, next);
        Regrouped(Own(sofar, me), front, next);
        mine := front + next;
      }
      if done {
        ghost var front, next := mine, [];
        done, next, trace := Requests(parts, start, trace);
        PlainJoined(front, next);
        Regrouped(Own(sofar, me), front, next);
        mine := front + next;
      }
    }

    /** The roles, the package and the check, each stage behind its fence. */
    method PublishAndVerify(ghost start: State, ghost sofar: seq<Step>)
      returns (done: bool, ghost mine: seq<Step>, ghost trace: seq<Step>)
      requires Valid() && job.sys == Run(start, sofar) && Phase().Working?
      modifies this, job
      ensures Valid() && Continued(start, sofar, mine, trace) && Plain(mine) && doc == old(doc)
      ensures if done then Phase().Working? else Phase().Closing? || Phase().Done?
    {
      hide Inv, Run, Own, Effectless, Plain;
      done, mine, trace := Stage(start, sofar);
      for i := 0 to 4
        invariant Valid() && Continued(start, sofar, mine, trace) && Plain(mine) && doc == old(doc)
        invariant if done then Phase().Working? else Phase().Closing? || Phase().Done?
      {
        if done {
          ghost var front, next := mine, [];
          var count: nat;
          match i {
            case 0 => done, next, trace := Requests(3, start, trace);
            case 1 => done, next, trace := Stage(start, trace);
            case 2 => done, count, next, trace := Publish(start, trace);
            case _ => done, count, next, trace := VerifyMcp(start, trace);
          }
          PlainJoined(front, next);
          Regrouped(Own(sofar, me), front, next);
          mine := front + next;
        }
      }
    }

    /**
     `execute_job`. In the whole of it every call is one of the first four under its fence, and an effect that must
     not be repeated comes right after its flag; a server is deployed without any flag or such effect.
     */
    method ExecuteJob() returns (succeeded: bool, ghost trace: seq<Step>)
      requires Valid() && Phase() == Working(None)
      modifies this, job
      ensures Inv(job.sys) && me < |job.sys.executors| && job.sys.executors[me].phase.Done?
      ensures job.sys == Run(old(job.sys), trace) && Guarded(Own(trace, me))
      ensures old(doc).started && old(doc).kind in {Verification, Foundry} ==> NoOnce(Own(trace, me))
      ensures succeeded ==> Last(job.sys).cause == Reported(me) && Last(job.sys).job.status == Succeeded
      ensures succeeded && old(doc).kind == Verification ==> !old(doc).started && Last(job.sys).job.started
      ensures succeeded && old(doc).kind == CosmosContainer ==> Last(job.sys).job.started
      ensures old(doc).kind == Mcp ==> Plain(Own(trace, me))
      ensures old(doc).kind == CosmosContainer ==> NoOnce(Own(trace, me))
    {
      hide Inv, Run, Own, Guarded, NoOnce, Effectless, Call;
      ghost var start := job.sys;
      ghost var mine;
      trace := [];
      RunEmpty(start);
      OwnOfNothing(me);
      NothingGuarded();
      succeeded, mine, trace := Deploy(start, trace);
      assert [] + mine == mine;
      if succeeded {
        trace := LetOthers(start, trace);
        var fate := AnyFate();
        var fits := Newest(job.sys, tag);
        trace := Do(Succeed(me, fate), start, trace);
        OneGuarded(mine, Succeed(me, fate));
        mine := mine + [Succeed(me, fate)];
        if fits && fate.Answered? {
          return true, trace;
        }
        succeeded := false;
      }
      if job.sys.executors[me].phase.Closing? {
        ghost var fate, before;
        fate, before, trace := ReportFailure(start, trace);
        OneGuarded(mine, Fail(me, fate));
      }
    }

    /** `deployment.run()` with the checks before it. */
    method Deploy(ghost start: State, ghost sofar: seq<Step>)
      returns (succeeded: bool, ghost mine: seq<Step>, ghost trace: seq<Step>)
      requires Valid() && job.sys == Run(start, sofar) && Phase().Working?
      modifies this, job
      ensures Valid() && Continued(start, sofar, mine, trace) && Guarded(mine)
      ensures old(doc).started && old(doc).kind in {Verification, Foundry} ==> NoOnce(mine)
      ensures if succeeded then Phase().Working? else Phase().Closing? || Phase().Done?
      ensures succeeded && old(doc).kind == Verification ==> !old(doc).started && doc.started
      ensures succeeded && old(doc).kind == CosmosContainer ==> doc.started
      ensures old(doc).kind == Mcp ==> Plain(mine)
      ensures old(doc).kind == CosmosContainer ==> NoOnce(mine)
    {
      hide Inv, Run, Own, Guarded, NoOnce, Effectless, Call, Calls, Inference;
      GiveUpOnly(me);
      var valid := AnyBool();               // scopes and references
      if !valid {
        trace := Raise(start, sofar);
        return false, [GiveUp(me)], trace;
      }
      var recorded;
      recorded, mine, trace := RecordProgress(false, start, sofar);
      EffectlessIsGuarded(mine);
      if !recorded.Recorded? {
        return false, mine, trace;
      }
      ghost var rest;
      match doc.kind {
        case Verification => succeeded, rest, trace := VerifyAgent(start, trace);
        case Foundry =>
          var adopted;
          succeeded, adopted, rest, trace := DeployFoundry(start, trace);
        case CosmosContainer =>
          var found;
          succeeded, found, rest, trace := DeployContainer(start, trace);
        case Mcp =>
          succeeded, rest, trace := DeployMcp(start, trace);
      }
      GuardedJoined(mine, rest);
      mine := mine + rest;
    }

    /** The last `_update` of `execute_job`: whatever becomes of it, this thread is through. */
    method ReportFailure(ghost start: State, ghost sofar: seq<Step>)
      returns (ghost fate: Fate, ghost before: State, ghost trace: seq<Step>)
      requires Inv(job.sys) && me < |job.sys.executors| && job.sys == Run(start, sofar)
      requires job.sys.executors[me].phase.Closing?
      modifies job
      ensures Continued(start, sofar, [Fail(me, fate)], trace)
      ensures var x := old(job.sys).executors[me];
              job.sys.log == if Newest(before, x.tag) && !fate.Unsent?
                             then before.log + [Version(x.doc.(status := Failed), Reported(me))] else before.log
      ensures me < |job.sys.executors| && job.sys.executors[me].phase.Done?
    {
      hide Inv, Run, Own;
      trace := job.OthersRun(Some(me), start, sofar);
      var end := AnyFate();
      fate, before := end, job.sys;
      trace := Do(Fail(me, end), start, trace);
    }
  }

  lemma Regrouped(a: seq<Step>, b: seq<Step>, c: seq<Step>)
    ensures a + b + c == a + (b + c)
  {
  }

  lemma IdleIsPlain(steps: seq<Step>)
    requires Idle(steps)
    ensures Plain(steps)
  {
    EffectlessIsGuarded(steps);
  }

  lemma GiveUpOnly(me: nat)
    ensures Plain([GiveUp(me)])
  {
  }

  lemma NothingGuarded()
    ensures Plain([])
  {
  }

  lemma OwnOfNothing(me: nat)
    ensures Own([], me) == []
  {
  }

  lemma OneGuarded(steps: seq<Step>, step: Step)
    requires Guarded(steps) && !step.Act? && !step.ActOnce? && !step.Fence?
    ensures Guarded(steps + [step]) && (NoOnce(steps) ==> NoOnce(steps + [step]))
    ensures Plain(steps) ==> Plain(steps + [step])
  {
    GuardedJoined(steps, [step]);
  }

  lemma RequestGuarded(me: nat, steps: seq<Step>, at: int)
    requires Idle(steps) || steps == Call(me, at) || steps == Call(me, at) + [GiveUp(me)]
    ensures Plain(steps)
  {
    if Idle(steps) {
      EffectlessIsGuarded(steps);
    } else {
      GiveUpOnly(me);
      PlainJoined(Call(me, at), [GiveUp(me)]);
    }
  }

  lemma FenceIsPlain(fence: Step)
    requires IsFence(fence, false)
    ensures Plain([fence])
  {
  }

  /** After a fence, or after a call that is not yet the last one under it, there may be one more call. */
  lemma MoreCalls(steps: seq<Step>, me: nat, n: nat)
    requires Plain(steps) && steps != [] && n < CALLS_PER_FENCE
    requires var last := |steps| - 1;
             if n == 0 then IsFence(steps[last], false) else steps[last].Act? && UnderFence(steps, last, n)
    ensures Plain(steps + [Act(me)]) && UnderFence(steps + [Act(me)], |steps|, n + 1)
  {
    var all, last := steps + [Act(me)], |steps| - 1;
    assert all[0..|steps|] == steps && all[last] == steps[last];
    if n > 0 {
      UnderFenceInside(all, steps, 0, last, n);
    }
    assert UnderFence(all, |steps|, n + 1);
    UnderFenceMore(all, |steps|, n + 1, CALLS_PER_FENCE);
    hide UnderFence;
    forall i | 0 <= i < |all| ensures GuardedAt(all, i) {
      if i < |steps| {
        assert GuardedAt(steps, i);
        GuardedInside(all, steps, 0, i);
      }
    }
  }

  lemma {:induction false} UnderFenceMore(steps: seq<Step>, i: nat, n: nat, m: nat)
    requires i < |steps| && UnderFence(steps, i, n) && n <= m
    ensures UnderFence(steps, i, m)
    decreases n
  {
    if !IsFence(steps[i - 1], false) {
      UnderFenceMore(steps, i - 1, n - 1, m - 1);
    }
  }

  lemma CallIsUnderFence(front: seq<Step>, me: nat, at: int)
    ensures UnderFence(front + Call(me, at), |front| + 1, 1) && |Call(me, at)| == 2 && Call(me, at)[1] == Act(me)
  {
    assert (front + Call(me, at))[|front|] == Fence(me, at, false, Answered);
  }

  /** What is guarded behind a fence is so behind any list that ends with that fence. */
  lemma PlainOverlapped(front: seq<Step>, steps: seq<Step>)
    requires Plain(front) && front != [] && Plain([front[|front| - 1]] + steps)
    ensures Plain(front + steps)
  {
    hide GuardedAt;
    var all, last := front + steps, |front| - 1;
    var back := [front[last]] + steps;
    assert all[0..|front|] == front && all[last..last + |back|] == back;
    forall i | 0 <= i < |all| ensures GuardedAt(all, i) && !all[i].ActOnce? && !IsMark(all[i]) {
      if i < |front| {
        assert GuardedAt(front, i);
        GuardedInside(all, front, 0, i);
      } else {
        assert GuardedAt(back, i - last) && all[i] == back[i - last];
        GuardedInside(all, back, last, i - last);
      }
    }
  }

  lemma TwoCallsGuarded(me: nat, at: int)
    ensures Guarded(Call(me, at) + [Act(me)]) && NoOnce(Call(me, at) + [Act(me)])
  {
  }

  lemma RunEmpty(s: State)
    ensures Run(s, []) == s
  {
  }

  datatype Provisioning = ProvisioningSucceeded | ProvisioningFailed | Pending

  /** An HTTP answer as the callers tell them apart; `Stopped` covers every raised failure. */
  datatype Reply = Answer(state: Provisioning) | NotFound | Stopped

  method AnyReply() returns (reply: Reply) {
    reply := *;
  }

  method AnyPair() returns (a: bool, b: bool) {
    a, b := *, *;
  }
}

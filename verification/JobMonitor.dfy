/**
 The operations of JobRecovery as the source runs them: the monitor's pass over all jobs (api/controller.py)
 and the two endpoints (api/api.py), on a store that workers and other processes also use.
 */
module JobMonitor {
  import opened Outcomes
  import opened JobRecovery

  method AnyStep() returns (step: Step) {
    step := *;
  }

  predicate IsMine(step: Step, me: nat) {
    (step.Look? || step.Decide? || step.Write?) && step.client.0 == me
  }

  /** Another process leaves this one's phases alone. */
  lemma OtherStepKeepsMine(config: Config, s: State, step: Step, me: nat, id: nat)
    requires !IsMine(step, me)
    ensures PhaseOf(Next(config, s, step), (me, id)) == PhaseOf(s, (me, id))
  {
    hide Plan;
  }

  /** The steps of one process, in order. */
  ghost function Own(steps: seq<Step>, me: nat): seq<Step> {
    if steps == [] then []
    else
      var before := Own(steps[..|steps| - 1], me);
      if IsMine(steps[|steps| - 1], me) then before + [steps[|steps| - 1]] else before
  }

  lemma OwnAppended(steps: seq<Step>, step: Step, me: nat)
    ensures Own(steps + [step], me) == if IsMine(step, me) then Own(steps, me) + [step] else Own(steps, me)
  {
    assert (steps + [step])[..|steps|] == steps;
  }

  class JobStore {
    const config: Config
    var sys: State

    constructor (config: Config, now: int)
      ensures this.config == config && sys == Empty(now) && Inv(config, sys)
    {
      this.config, sys := config, Empty(now);
    }

    method Take(step: Step, ghost start: State, ghost sofar: seq<Step>) returns (ghost trace: seq<Step>)
      requires Inv(config, sys) && sys == Run(config, start, sofar)
      modifies this
      ensures Inv(config, sys) && sys == Next(config, old(sys), step) && sys == Run(config, start, trace)
      ensures trace == sofar + [step]
    {
      hide Next, Inv, Run;
      NextKeepsInv(config, sys, step);
      RunAppended(config, start, sofar, step);
      trace := sofar + [step];
      sys := Next(config, sys, step);
    }

    /** Workers, other processes and the clock run for a while. */
    method OthersRun(me: nat, ghost start: State, ghost sofar: seq<Step>) returns (ghost trace: seq<Step>)
      requires Inv(config, sys) && sys == Run(config, start, sofar)
      modifies this
      ensures Inv(config, sys) && sys == Run(config, start, trace) && Own(trace, me) == Own(sofar, me)
      ensures sofar <= trace
      ensures forall id :: PhaseOf(sys, (me, id)) == PhaseOf(old(sys), (me, id))
    {
      hide Next, Inv, Run, PhaseOf, Own;
      trace := sofar;
      var more: nat := *;
      while more > 0
        invariant Inv(config, sys) && sys == Run(config, start, trace) && Own(trace, me) == Own(sofar, me)
        invariant sofar <= trace
        invariant forall id :: PhaseOf(sys, (me, id)) == PhaseOf(old(sys), (me, id))
      {
        var step := AnyStep();
        if !IsMine(step, me) {
          forall id
            ensures PhaseOf(Next(config, sys, step), (me, id)) == PhaseOf(sys, (me, id))
          {
            OtherStepKeepsMine(config, sys, step, me, id);
          }
          OwnAppended(trace, step, me);
          trace := Take(step, start, trace);
        }
        more := more - 1;
      }
    }
  }

  // ---------------------------------------------------------------------- the monitor

  predicate Eligible(doc: Doc) {
    doc.job.status.Processing? || doc.job.status.Failed?
  }

  /** Neither overdue, nor failed with automatic retries left on an active pipeline. */
  ghost predicate Healthy(config: Config, s: State, id: nat, now: int) {
    id in s.jobs ==>
      && !TimeIsUp(config, s.jobs[id], now)
      && !(s.jobs[id].job.status.Failed? && s.jobs[id].job.retries < config.maxRetries
           && s.jobs[id].job.pipeline in s.pipelines && s.pipelines[s.jobs[id].job.pipeline])
  }

  /** A pass nobody has disturbed so far: it holds the jobs still to do, and the others are healthy. */
  ghost predicate HalfDone(config: Config, s: State, me: nat, todo: set<nat>, now: int) {
    && (forall id | id in todo :: id in s.jobs && PhaseOf(s, (me, id)) == Held(Monitor, id, s.jobs[id], now))
    && (forall id | id in s.jobs && id !in todo :: Healthy(config, s, id, now))
  }

  /** What deciding and writing one job undisturbed changes. */
  lemma OneJob(config: Config, s: State, me: nat, id: nat, now: int)
    requires id in s.jobs && PhaseOf(s, (me, id)) == Held(Monitor, id, s.jobs[id], now)
    ensures var n := Next(config, Next(config, s, Decide((me, id))), Write((me, id), Answered));
            && n.pipelines == s.pipelines && n.jobs.Keys == s.jobs.Keys
            && n.jobs[id].job == Recovered(s.jobs[id], now, config, Active(s, s.jobs[id].job.pipeline))
            && (n.jobs[id] == s.jobs[id] || n.jobs[id].job != s.jobs[id].job)
            && forall x | x in s.jobs && x != id ::
                 n.jobs[x] == s.jobs[x] && PhaseOf(n, (me, x)) == PhaseOf(s, (me, x))
  {
    hide Recovered;
  }

  lemma RecoveredIsHealthy(config: Config, s: State, n: State, id: nat, now: int)
    requires id in s.jobs && id in n.jobs && n.pipelines == s.pipelines
    requires n.jobs[id].job == Recovered(s.jobs[id], now, config, Active(s, s.jobs[id].job.pipeline))
    requires n.jobs[id] == s.jobs[id] || n.jobs[id].job != s.jobs[id].job
    ensures Healthy(config, n, id, now)
  {
  }

  /** One job: deciding and writing it undisturbed leaves it healthy and the others as they were. */
  lemma JobDone(config: Config, s: State, me: nat, todo: set<nat>, id: nat, now: int)
    requires HalfDone(config, s, me, todo, now) && id in todo
    ensures var n := Next(config, Next(config, s, Decide((me, id))), Write((me, id), Answered));
            HalfDone(config, n, me, todo - {id}, now) && n.pipelines == s.pipelines
  {
    OneJob(config, s, me, id, now);
    var n := Next(config, Next(config, s, Decide((me, id))), Write((me, id), Answered));
    RecoveredIsHealthy(config, s, n, id, now);
    hide Next, Recovered, Healthy, PhaseOf;
    forall x | x in n.jobs && x != id
      ensures Healthy(config, s, x, now) ==> Healthy(config, n, x, now)
    {
      SameHealth(config, s, n, x, now);
    }
  }

  lemma SameHealth(config: Config, s: State, n: State, id: nat, now: int)
    requires n.pipelines == s.pipelines && id in s.jobs && id in n.jobs && n.jobs[id] == s.jobs[id]
    ensures Healthy(config, s, id, now) <==> Healthy(config, n, id, now)
  {
  }

  /** What a pass reads: each job of the batch once. */
  function Looks(me: nat, batch: seq<nat>, now: int): seq<Step> {
    if batch == [] then []
    else
      var id := batch[|batch| - 1];
      Looks(me, batch[..|batch| - 1], now) + [Look((me, id), Monitor, id, now)]
  }

  /** What a pass then does: it decides and writes each job in turn, and the write ends one way or another. */
  function Recoveries(me: nat, batch: seq<nat>, fates: seq<Fate>): seq<Step>
    requires |fates| == |batch|
  {
    if batch == [] then []
    else
      var last := |batch| - 1;
      Recoveries(me, batch[..last], fates[..last]) + [Decide((me, batch[last])), Write((me, batch[last]), fates[last])]
  }

  function Pass(me: nat, batch: seq<nat>, now: int, fates: seq<Fate>): seq<Step>
    requires |fates| == |batch|
  {
    Looks(me, batch, now) + Recoveries(me, batch, fates)
  }

  /** The batch lists every processing or failed job once, in whatever order. */
  ghost predicate Lists(s: State, batch: seq<nat>) {
    && (forall i, j | 0 <= i < j < |batch| :: batch[i] != batch[j])
    && (forall id :: id in batch <==> id in s.jobs && Eligible(s.jobs[id]))
  }

  function SetOf(batch: seq<nat>): set<nat> {
    set id | id in batch
  }

  ghost predicate Holds(s: State, me: nat, held: seq<nat>, now: int) {
    forall id | id in held :: id in s.jobs && PhaseOf(s, (me, id)) == Held(Monitor, id, s.jobs[id], now)
  }

  lemma HoldMore(config: Config, s: State, me: nat, held: seq<nat>, id: nat, now: int)
    requires id in s.jobs && Holds(s, me, held, now)
    ensures var n := Next(config, s, Look((me, id), Monitor, id, now));
            n.jobs == s.jobs && n.pipelines == s.pipelines && Holds(n, me, held + [id], now)
  {
  }

  lemma {:induction false} LooksHold(config: Config, s: State, me: nat, batch: seq<nat>, now: int)
    requires forall id | id in batch :: id in s.jobs
    ensures var n := Run(config, s, Looks(me, batch, now));
            n.jobs == s.jobs && n.pipelines == s.pipelines && Holds(n, me, batch, now)
  {
    if batch != [] {
      var front, id := batch[..|batch| - 1], batch[|batch| - 1];
      LooksHold(config, s, me, front, now);
      hide Run, Holds, Next;
      RunAppended(config, s, Looks(me, front, now), Look((me, id), Monitor, id, now));
      HoldMore(config, Run(config, s, Looks(me, front, now)), me, front, id, now);
      assert front + [id] == batch;
    }
  }

  lemma {:induction false} RunJoined(config: Config, s: State, first: seq<Step>, second: seq<Step>)
    ensures Run(config, s, first + second) == Run(config, Run(config, s, first), second)
  {
    if second == [] {
      assert first + second == first;
    } else {
      var front, step := second[..|second| - 1], second[|second| - 1];
      hide Next;
      RunJoined(config, s, first, front);
      assert first + second == first + front + [step];
      RunAppended(config, s, first + front, step);
    }
  }

  lemma TwoMore(config: Config, s: State, steps: seq<Step>, a: Step, b: Step)
    ensures Run(config, s, steps + [a, b]) == Next(config, Next(config, Run(config, s, steps), a), b)
  {
    hide Next, Run;
    assert steps + [a, b] == steps + [a] + [b];
    RunAppended(config, s, steps + [a], b);
    RunAppended(config, s, steps, a);
  }

  /** After part of the recoveries, undisturbed and answered, the rest is still to do and all else is healthy. */
  lemma {:induction false} RecoveriesHeal(config: Config, s: State, me: nat, batch: seq<nat>, fates: seq<Fate>,
                                          now: int, k: nat)
    requires |fates| == |batch| && (forall i | 0 <= i < |fates| :: fates[i].Answered?) && k <= |batch|
    requires forall i, j | 0 <= i < j < |batch| :: batch[i] != batch[j]
    requires HalfDone(config, s, me, SetOf(batch), now)
    ensures var n := Run(config, s, Recoveries(me, batch[..k], fates[..k]));
            HalfDone(config, n, me, SetOf(batch[k..]), now) && n.pipelines == s.pipelines
  {
    if k == 0 {
      assert batch[0..] == batch;
    } else {
      RecoveriesHeal(config, s, me, batch, fates, now, k - 1);
      assert batch[..k][..k - 1] == batch[..k - 1] && fates[..k][..k - 1] == fates[..k - 1];
      var before := Recoveries(me, batch[..k - 1], fates[..k - 1]);
      var id := batch[k - 1];
      hide Run, Next, HalfDone;
      TwoMore(config, s, before, Decide((me, id)), Write((me, id), Answered));
      JobDone(config, Run(config, s, before), me, SetOf(batch[k - 1..]), id, now);
      assert SetOf(batch[k - 1..]) - {id} == SetOf(batch[k..]);
    }
  }

  /**
   Recovery is complete: from any state, a pass over all eligible jobs in whatever order, with nobody in
   between and every write answered, leaves no overdue job and no failed job with automatic retries left on
   an active pipeline.
   */
  lemma UndisturbedPassHeals(config: Config, s: State, me: nat, batch: seq<nat>, now: int, fates: seq<Fate>)
    requires Lists(s, batch) && |fates| == |batch| && forall i | 0 <= i < |fates| :: fates[i].Answered?
    ensures var n := Run(config, s, Pass(me, batch, now, fates));
            n.pipelines == s.pipelines && forall id | id in n.jobs :: Healthy(config, n, id, now)
  {
    LooksHold(config, s, me, batch, now);
    var held := Run(config, s, Looks(me, batch, now));
    IneligibleIsHealthy(config, held, now);
    assert HalfDone(config, held, me, SetOf(batch), now);
    hide Run, Looks, Recoveries, Healthy;
    RunJoined(config, s, Looks(me, batch, now), Recoveries(me, batch, fates));
    RecoveriesHeal(config, held, me, batch, fates, now, |batch|);
    assert batch[..|batch|] == batch && fates[..|batch|] == fates && SetOf(batch[|batch|..]) == {};
    AllDone(config, Run(config, s, Pass(me, batch, now, fates)), me, now);
  }

  lemma IneligibleIsHealthy(config: Config, s: State, now: int)
    ensures forall id | id in s.jobs && !Eligible(s.jobs[id]) :: Healthy(config, s, id, now)
  {
  }

  /** The query: every processing or failed job, each read at its own time. */
  method ReadAll(store: JobStore, me: nat, now: int, ghost start: State, ghost sofar: seq<Step>)
    returns (batch: seq<nat>, ghost trace: seq<Step>)
    requires Inv(store.config, store.sys) && store.sys == Run(store.config, start, sofar)
    modifies store
    ensures Inv(store.config, store.sys) && store.sys == Run(store.config, start, trace)
    ensures Lists(old(store.sys), batch) && Own(trace, me) == Own(sofar, me) + Looks(me, batch, now)
  {
    hide Inv, Run, PhaseOf, Next, Own;
    trace, batch := sofar, [];
    var left := set id | id in store.sys.jobs && Eligible(store.sys.jobs[id]);
    ghost var all := left;
    while left != {}
      invariant Inv(store.config, store.sys) && store.sys == Run(store.config, start, trace)
      invariant forall id :: id in all <==> id in left || id in batch
      invariant forall id | id in batch :: id !in left
      invariant forall i, j | 0 <= i < j < |batch| :: batch[i] != batch[j]
      invariant Own(trace, me) == Own(sofar, me) + Looks(me, batch, now)
      decreases left
    {
      trace := store.OthersRun(me, start, trace);
      var id :| id in left;
      OwnAppended(trace, Look((me, id), Monitor, id, now), me);
      assert (batch + [id])[..|batch|] == batch;
      trace := store.Take(Look((me, id), Monitor, id, now), start, trace);
      left, batch := left - {id}, batch + [id];
    }
  }

  /**
   `monitor_job_health`. Whatever happens meanwhile, this process does exactly one pass over the jobs that
   were eligible when it began. So by `UndisturbedPassHeals`, if nobody else did anything and each write was
   answered, every job is healthy.
   */
  method MonitorJobHealth(store: JobStore, me: nat)
    returns (batch: seq<nat>, ghost fates: seq<Fate>, ghost trace: seq<Step>)
    requires Inv(store.config, store.sys)
    modifies store
    ensures Inv(store.config, store.sys) && store.sys == Run(store.config, old(store.sys), trace)
    ensures Lists(old(store.sys), batch) && |fates| == |batch|
    ensures Own(trace, me) == Pass(me, batch, old(store.sys).now, fates)
    ensures trace == Own(trace, me) && (forall i | 0 <= i < |fates| :: fates[i].Answered?) ==>
              && store.sys.pipelines == old(store.sys).pipelines
              && forall id | id in store.sys.jobs :: Healthy(store.config, store.sys, id, old(store.sys).now)
  {
    hide Inv, Run, Next, PhaseOf, Own, Looks, Lists, Healthy;
    var now := store.sys.now;
    ghost var start := store.sys;
    assert store.sys == Run(store.config, start, []) by { NoSteps(store.config, start); }
    OwnOfNothing(me);
    batch, trace := ReadAll(store, me, now, start, []);
    fates := [];
    NothingRecovered(me, batch, now);
    for k := 0 to |batch|
      invariant Inv(store.config, store.sys) && store.sys == Run(store.config, start, trace)
      invariant |fates| == k && Own(trace, me) == Looks(me, batch, now) + Recoveries(me, batch[..k], fates)
    {
      var id := batch[k];
      trace := store.OthersRun(me, start, trace);
      OwnAppended(trace, Decide((me, id)), me);
      trace := store.Take(Decide((me, id)), start, trace);
      trace := store.OthersRun(me, start, trace);
      var fate := AnyFate();
      OwnAppended(trace, Write((me, id), fate), me);
      trace := store.Take(Write((me, id), fate), start, trace);
      OneMoreRecovery(me, batch, now, fates, fate, k);
      fates := fates + [fate];
    }
    assert batch[..|batch|] == batch;
    if trace == Own(trace, me) && forall i | 0 <= i < |fates| :: fates[i].Answered? {
      UndisturbedPassHeals(store.config, start, me, batch, now, fates);
    }
  }

  lemma OwnOfNothing(me: nat)
    ensures Own([], me) == []
  {
  }

  lemma NothingRecovered(me: nat, batch: seq<nat>, now: int)
    ensures [] + Looks(me, batch, now) == Looks(me, batch, now) + Recoveries(me, batch[..0], [])
  {
  }

  lemma OneMoreRecovery(me: nat, batch: seq<nat>, now: int, fates: seq<Fate>, fate: Fate, k: nat)
    requires k < |batch| && |fates| == k
    ensures Looks(me, batch, now) + Recoveries(me, batch[..k + 1], fates + [fate])
            == Looks(me, batch, now) + Recoveries(me, batch[..k], fates) + [Decide((me, batch[k]))]
               + [Write((me, batch[k]), fate)]
  {
    assert batch[..k + 1][..k] == batch[..k] && (fates + [fate])[..k] == fates;
    hide Looks, Recoveries;
  }

  lemma NoSteps(config: Config, s: State)
    ensures Run(config, s, []) == s
  {
  }

  lemma AllDone(config: Config, s: State, me: nat, now: int)
    requires HalfDone(config, s, me, {}, now)
    ensures forall id | id in s.jobs :: Healthy(config, s, id, now)
  {
  }

  // ---------------------------------------------------------------------- the endpoints

  /** 404, 400, 409 for the retry limit or the pipeline, 409 for a stale write, another error, success. */
  datatype Reply = NotFound | WrongStatus | NotNow | Conflict | Failure | Success

  /** The last commit is this operation's. */
  ghost predicate JustCommitted(s: State, kind: Kind, id: nat) {
    s.log != [] && s.log[|s.log| - 1].kind == kind && s.log[|s.log| - 1].id == id
  }

  /** The write a client is about to make is conditional on the very document it read. */
  predicate Fits(s: State, c: Client)
    requires PhaseOf(s, c).Ready?
  {
    var p := PhaseOf(s, c);
    p.id in s.jobs && s.jobs[p.id].etag == p.doc.etag
  }

  /** What `_replace_control_doc` answers. */
  function ControlReply(fits: bool, fate: Fate): Reply {
    match fate
    case Answered => if fits then Success else Conflict
    case LostRefused => Conflict
    case _ => Failure
  }

  /** When an answer hides a write, and when success is one: a conflict hides one exactly if the answer was lost. */
  lemma ReplyHidesWriteIff(config: Config, s: State, c: Client, fate: Fate)
    requires PhaseOf(s, c).Ready?
    ensures var wrote := Next(config, s, Write(c, fate)).log != s.log;
            && (wrote <==> Fits(s, c) && !fate.Unsent?)
            && (ControlReply(Fits(s, c), fate).Conflict? ==> (wrote <==> Fits(s, c) && fate.LostRefused?))
            && (ControlReply(Fits(s, c), fate).Success? ==>
                  wrote && JustCommitted(Next(config, s, Write(c, fate)), PhaseOf(s, c).kind, PhaseOf(s, c).id))
            && (ControlReply(Fits(s, c), fate).Failure? ==> (wrote <==> Fits(s, c) && fate.LostRaised?))
            && (fate.Answered? ==> ControlReply(Fits(s, c), fate) == if Fits(s, c) then Success else Conflict)
            && (ControlReply(Fits(s, c), fate).Conflict? <==> fate.LostRefused? || (fate.Answered? && !Fits(s, c)))
  {
  }

  /** A run in which cancelling a job answers with a conflict after it has cancelled it. */
  lemma ConflictMayHaveWritten(config: Config, job: Job) returns (steps: seq<Step>, s: State)
    requires job.status.Pending? && job.retries == 0
    ensures s == Run(config, Empty(0), steps) && PhaseOf(s, (0, 0)).Ready? && s.log == []
    ensures ControlReply(Fits(s, (0, 0)), LostRefused) == Conflict
    ensures var n := Run(config, Empty(0), steps + [Write((0, 0), LostRefused)]);
            |n.log| == 1 && n.log[0].kind == Cancel && 0 in n.jobs && n.jobs[0].job.status == Cancelled
  {
    var a, b, c := Create(job), Look((0, 0), Cancel, 0, 0), Decide((0, 0));
    steps := [] + [a] + [b] + [c];
    NoSteps(config, Empty(0));
    RunAppended(config, Empty(0), [], a);
    RunAppended(config, Empty(0), [] + [a], b);
    RunAppended(config, Empty(0), [] + [a] + [b], c);
    s := Run(config, Empty(0), steps);
    RunAppended(config, Empty(0), steps, Write((0, 0), LostRefused));
    hide Run;
  }

  /** `_replace_control_doc`: its answer, and exactly what its one conditional write did. */
  method ReplaceControlDoc(store: JobStore, c: Client, ghost start: State, ghost sofar: seq<Step>)
    returns (reply: Reply, ghost fate: Fate, ghost before: State, ghost trace: seq<Step>)
    requires Inv(store.config, store.sys) && store.sys == Run(store.config, start, sofar)
    requires PhaseOf(store.sys, c).Ready?
    modifies store
    ensures Inv(store.config, store.sys) && store.sys == Run(store.config, start, trace)
    ensures PhaseOf(before, c) == PhaseOf(old(store.sys), c)
    ensures store.sys == Next(store.config, before, Write(c, fate)) && reply == ControlReply(Fits(before, c), fate)
    ensures trace != [] && trace[|trace| - 1] == Write(c, fate)
    ensures before == Run(store.config, start, trace[..|trace| - 1])
    ensures Own(trace, c.0) == Own(sofar, c.0) + [Write(c, fate)] && sofar <= trace
    ensures reply.Success? ==>
              JustCommitted(store.sys, PhaseOf(old(store.sys), c).kind, PhaseOf(old(store.sys), c).id)
  {
    hide Inv, Run, Next, Own;
    trace := store.OthersRun(c.0, start, sofar);
    assert PhaseOf(store.sys, (c.0, c.1)) == PhaseOf(old(store.sys), c);
    before := store.sys;
    var fits := Fits(store.sys, c);
    var end := AnyFate();
    fate := end;
    ReplyHidesWriteIff(store.config, store.sys, c, end);
    OwnAppended(trace, Write(c, end), c.0);
    ghost var front := trace;
    trace := store.Take(Write(c, end), start, trace);
    assert trace[..|trace| - 1] == front;
    reply := if end.Answered? then if fits then Success else Conflict
             else if end.LostRefused? then Conflict else Failure;
  }

  ghost predicate NoWrite(steps: seq<Step>) {
    forall i | 0 <= i < |steps| :: !steps[i].Write?
  }

  /** Refused before anything was written. */
  predicate Early(reply: Reply) {
    reply.NotFound? || reply.WrongStatus? || reply.NotNow?
  }

  /**
   What the two endpoints find: the job as it was in state `seen`, and its pipeline as it was in state `asked`.
   Each early answer has its one reason, and without a reason there is none.
   */
  ghost predicate Answers(kind: Kind, id: nat, seen: State, asked: State, reply: Reply) {
    if id !in seen.jobs then reply == NotFound
    else
      var job := seen.jobs[id].job;
      if job.status != (if kind.Cancel? then Pending else Failed) then reply == WrongStatus
      else if kind.Retry? && (job.retries >= 10 || ActiveIn(asked, job.pipeline, false)) then reply == NotNow
      else reply in {Conflict, Failure, Success}
  }

  /**
   `cancel_job` and `retry_job`: read, check, write on condition that nobody wrote meanwhile. An early
   refusal wrote nothing; any other answer is that of the one write, made in state `before`, so that
   `ReplyHidesWriteIff` says what it hides. `read` and `checked` are the run up to the two looks.
   */
  method Control(store: JobStore, me: nat, kind: Kind, id: nat)
    returns (reply: Reply, ghost fate: Fate, ghost before: State, ghost read: seq<Step>, ghost checked: seq<Step>,
             ghost trace: seq<Step>)
    requires Inv(store.config, store.sys) && !kind.Monitor?
    modifies store
    ensures Inv(store.config, store.sys) && store.sys == Run(store.config, old(store.sys), trace)
    ensures read <= checked <= trace
    ensures var seen, asked := Run(store.config, old(store.sys), read), Run(store.config, old(store.sys), checked);
            && Answers(kind, id, seen, asked, reply)
            && (!Early(reply) ==> id in seen.jobs && PhaseOf(before, (me, id)).Ready?
                                  && PhaseOf(before, (me, id)).doc == seen.jobs[id])
    ensures Early(reply) ==> NoWrite(Own(trace, me))
    ensures !Early(reply) ==>
              && PhaseOf(before, (me, id)).Ready?
              && PhaseOf(before, (me, id)).kind == kind && PhaseOf(before, (me, id)).id == id
              && store.sys == Next(store.config, before, Write((me, id), fate))
              && trace != [] && before == Run(store.config, old(store.sys), trace[..|trace| - 1])
              && reply == ControlReply(Fits(before, (me, id)), fate)
              && Own(trace, me) != [] && Own(trace, me)[|Own(trace, me)| - 1..] == [Write((me, id), fate)]
              && NoWrite(Own(trace, me)[..|Own(trace, me)| - 1])
    ensures reply.Success? ==>
              && JustCommitted(store.sys, kind, id)
              && var e := store.sys.log[|store.sys.log| - 1];
                 && Move(store.config, kind, e.before, e.after, e.now, e.active)
                 && OnlyControl(e.before.job, e.after)
  {
    hide Inv, Run, Next, PhaseOf, Own;
    var c := (me, id);
    fate, before := Unsent, store.sys;
    assert store.sys == Run(store.config, store.sys, []) by { NoSteps(store.config, store.sys); }
    OwnOfNothing(me);
    trace := store.OthersRun(me, store.sys, []);
    read, checked := trace, trace;
    if id !in store.sys.jobs {
      return NotFound, fate, before, read, checked, trace;
    }
    var doc := store.sys.jobs[id];
    LookFacts(store.config, store.sys, c, kind, id);
    OwnAppended(trace, Look(c, kind, id, store.sys.now), me);
    trace := store.Take(Look(c, kind, id, store.sys.now), old(store.sys), trace);
    if doc.job.status != (if kind.Cancel? then Pending else Failed) {
      return WrongStatus, fate, before, read, checked, trace;
    }
    trace := store.OthersRun(me, old(store.sys), trace);
    checked := trace;
    if kind.Retry? && (doc.job.retries >= MAX_MANUAL_RETRIES || !Active(store.sys, doc.job.pipeline)) {
      return NotNow, fate, before, read, checked, trace;
    }
    DecideFacts(store.config, store.sys, c);
    OwnAppended(trace, Decide(c), me);
    trace := store.Take(Decide(c), old(store.sys), trace);
    reply, fate, before, trace := ReplaceControlDoc(store, c, old(store.sys), trace);
    if reply.Success? {
      LastIsMove(store.config, store.sys);
    }
  }

  lemma LookFacts(config: Config, s: State, c: Client, kind: Kind, id: nat)
    requires id in s.jobs
    ensures PhaseOf(Next(config, s, Look(c, kind, id, s.now)), c) == Held(kind, id, s.jobs[id], s.now)
  {
  }

  lemma DecideFacts(config: Config, s: State, c: Client)
    requires PhaseOf(s, c).Held? && !PhaseOf(s, c).kind.Monitor?
    requires var p := PhaseOf(s, c);
             Plan(p.kind, p.doc, s.now, config, Active(s, p.doc.job.pipeline)).Some?
    ensures var p, n := PhaseOf(s, c), PhaseOf(Next(config, s, Decide(c)), c);
            n.Ready? && n.kind == p.kind && n.id == p.id && n.doc == p.doc
  {
  }

  lemma LastIsMove(config: Config, s: State)
    requires Inv(config, s) && s.log != []
    ensures var e := s.log[|s.log| - 1];
            Move(config, e.kind, e.before, e.after, e.now, e.active) && OnlyControl(e.before.job, e.after)
  {
    var e := s.log[|s.log| - 1];
    assert Faithful(config, e);
    PlanIsMove(e.kind, e.before, e.now, config, e.active);
    hide Plan;
  }
}

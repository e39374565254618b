/**
 Recovery of jobs (`monitor_job_health` of api/controller.py; `cancel_job`, `retry_job` and
 `_replace_control_doc` of api/api.py) beside workers that write the same documents, as one state machine.

 One client is one recovery of one job: a pass of the monitor is a client for each job it was handed.
 */
module JobRecovery {
  import opened Outcomes

  const MAX_MANUAL_RETRIES: nat := 10

  /** How often the monitor revives a job by itself, and after how many seconds it gives up on a worker. */
  datatype Config = Config(maxRetries: nat, timeout: nat)

  datatype Status = Pending | Processing | Completed | Failed | Cancelled

  /** A job. `rest` is everything recovery never touches: references, result, fields only workers know. */
  datatype Job = Job(
    pipeline: string, status: Status, error: Option<string>, retries: nat,
    createdAt: Option<int>, startedAt: Option<int>, completedAt: Option<int>, rest: string)

  /** A stored job with its etag and the time the server last wrote it (`_ts`). */
  datatype Doc = Doc(etag: nat, written: int, job: Job)

  // ---------------------------------------------------------------------- what each operation makes of a job

  function StartOf(doc: Doc): int {
    if doc.job.startedAt.Some? then doc.job.startedAt.value
    else if doc.job.createdAt.Some? then doc.job.createdAt.value
    else doc.written
  }

  predicate Overdue(config: Config, doc: Doc, now: int) {
    doc.job.status.Processing? && StartOf(doc) < now - config.timeout
  }

  function TimedOut(config: Config, doc: Doc, now: int): Job {
    if Overdue(config, doc, now) then doc.job.(status := Failed, error := Some("Timed out"), completedAt := Some(now))
    else doc.job
  }

  function Revived(job: Job): Job {
    job.(status := Pending, error := None, retries := job.retries + 1, startedAt := None, completedAt := None)
  }

  /** What the monitor makes of a job it read, given whether the job's pipeline is active. */
  function Recovered(doc: Doc, now: int, config: Config, active: bool): Job {
    var job := TimedOut(config, doc, now);
    if job.status.Failed? && job.retries < config.maxRetries && active then Revived(job) else job
  }

  datatype Kind = Monitor | Cancel | Retry

  /** What an operation writes over the job it read at `now`, or None if it refuses or has nothing to do. */
  function Plan(kind: Kind, doc: Doc, now: int, config: Config, active: bool): Option<Job> {
    match kind
    case Monitor =>
      var job := Recovered(doc, now, config, active);
      if job == doc.job then None else Some(job)
    case Cancel =>
      if doc.job.status.Pending? then Some(doc.job.(status := Cancelled, completedAt := Some(now))) else None
    case Retry =>
      if doc.job.status.Failed? && doc.job.retries < MAX_MANUAL_RETRIES && active then Some(Revived(doc.job)) else None
  }

  // ---------------------------------------------------------------------- steps

  datatype Phase =
    | Idle
    | Held(kind: Kind, id: nat, doc: Doc, now: int)
    | Ready(kind: Kind, id: nat, doc: Doc, now: int, active: bool, job: Job)

  /** A write by recovery: what it replaced, what it wrote, and what it had seen. */
  datatype Commit = Commit(kind: Kind, id: nat, before: Doc, after: Job, now: int, active: bool)

  /** A process and the job it is recovering. */
  type Client = (nat, nat)

  datatype State = State(
    now: int, jobs: map<nat, Doc>, pipelines: map<string, bool>, issued: nat, born: nat,
    clients: map<Client, Phase>, log: seq<Commit>)

  datatype Step =
    | Tick(seconds: nat)
    | Create(job: Job)
    | Work(id: nat, job: Job)
    | Delete(id: nat)
    | SetPipeline(name: string, active: Option<bool>)
    | Look(client: Client, kind: Kind, id: nat, now: int)
    | Decide(client: Client)
    | Write(client: Client, fate: Fate)

  function PhaseOf(s: State, c: Client): Phase {
    if c in s.clients then s.clients[c] else Idle
  }

  predicate Active(s: State, pipeline: string) {
    pipeline in s.pipelines && s.pipelines[pipeline]
  }

  function Stored(s: State, id: nat, job: Job): State {
    s.(jobs := s.jobs[id := Doc(s.issued, s.now, job)], issued := s.issued + 1)
  }

  /**
   Workers write anything but the retry count; new jobs start with none. `Look` carries the clock its
   operation goes by, which the monitor reads once, before it is handed any job.
   */
  function Next(config: Config, s: State, step: Step): State {
    match step
    case Tick(d) => s.(now := s.now + d)
    case Create(job) => if job.retries == 0 then Stored(s, s.born, job).(born := s.born + 1) else s
    case Work(id, job) =>
      if id in s.jobs && job.retries == s.jobs[id].job.retries then Stored(s, id, job) else s
    case Delete(id) => s.(jobs := s.jobs - {id})
    case SetPipeline(name, active) =>
      if active.Some? then s.(pipelines := s.pipelines[name := active.value]) else s.(pipelines := s.pipelines - {name})
    case Look(c, kind, id, now) =>
      s.(clients := s.clients[c := if id in s.jobs then Held(kind, id, s.jobs[id], now) else Idle])
    case Decide(c) =>
      var p := PhaseOf(s, c);
      if !p.Held? then s
      else
        var active := Active(s, p.doc.job.pipeline);
        var now := if p.kind.Monitor? then p.now else s.now;
        var plan := Plan(p.kind, p.doc, now, config, active);
        s.(clients := s.clients[c := if plan.Some? then Ready(p.kind, p.id, p.doc, now, active, plan.value) else Idle])
    case Write(c, fate) =>
      var p := PhaseOf(s, c);
      if !p.Ready? then s
      else
        var done := s.(clients := s.clients[c := Idle]);
        if fate.Unsent? || p.id !in s.jobs || s.jobs[p.id].etag != p.doc.etag then done
        else
          Stored(done, p.id, p.job).(log := s.log + [Commit(p.kind, p.id, s.jobs[p.id], p.job, p.now, p.active)])
  }

  function Run(config: Config, s: State, steps: seq<Step>): State {
    if steps == [] then s else Next(config, Run(config, s, steps[..|steps| - 1]), steps[|steps| - 1])
  }

  lemma RunAppended(config: Config, s: State, steps: seq<Step>, step: Step)
    ensures Run(config, s, steps + [step]) == Next(config, Run(config, s, steps), step)
  {
    assert (steps + [step])[..|steps|] == steps;
  }

  function Empty(now: int): State {
    State(now, map[], map[], 0, 0, map[], [])
  }

  // ---------------------------------------------------------------------- invariant

  ghost function Revivals(log: seq<Commit>, id: nat): nat {
    if log == [] then 0
    else
      var e := log[|log| - 1];
      Revivals(log[..|log| - 1], id) + if e.id == id && e.after.status.Pending? then 1 else 0
  }

  lemma RevivalsAppended(log: seq<Commit>, e: Commit, id: nat)
    ensures Revivals(log + [e], id) == Revivals(log, id) + if e.id == id && e.after.status.Pending? then 1 else 0
  {
    assert (log + [e])[..|log|] == log;
  }

  lemma {:induction false} NoneYet(log: seq<Commit>, id: nat)
    requires forall i | 0 <= i < |log| :: log[i].id != id
    ensures Revivals(log, id) == 0
  {
    if log != [] {
      NoneYet(log[..|log| - 1], id);
    }
  }

  function Bound(config: Config): nat {
    if config.maxRetries < MAX_MANUAL_RETRIES then MAX_MANUAL_RETRIES else config.maxRetries
  }

  /** What a client remembers is what is stored, as long as the etag is still the same. */
  ghost predicate Remembers(s: State, p: Phase) {
    p.Idle? || (p.doc.etag < s.issued && (p.id in s.jobs && s.jobs[p.id].etag == p.doc.etag ==> s.jobs[p.id] == p.doc))
  }

  ghost predicate Planned(config: Config, p: Phase) {
    p.Ready? ==> Plan(p.kind, p.doc, p.now, config, p.active) == Some(p.job)
  }

  ghost predicate Clients(config: Config, s: State) {
    && (forall id | id in s.jobs :: s.jobs[id].etag < s.issued)
    && forall c | c in s.clients :: Remembers(s, s.clients[c]) && Planned(config, s.clients[c])
  }

  /** A commit put the operation's plan over the very document the plan was made for. */
  ghost predicate Faithful(config: Config, e: Commit) {
    Plan(e.kind, e.before, e.now, config, e.active) == Some(e.after)
  }

  ghost predicate History(config: Config, s: State) {
    && (forall i | 0 <= i < |s.log| :: Faithful(config, s.log[i]) && s.log[i].id < s.born)
    && (forall id | id in s.jobs ::
          && id < s.born
          && s.jobs[id].job.retries == Revivals(s.log, id) <= Bound(config))
  }

  lemma PlanFacts(kind: Kind, doc: Doc, now: int, config: Config, active: bool)
    requires Plan(kind, doc, now, config, active).Some?
    ensures var job := Plan(kind, doc, now, config, active).value;
            && !doc.job.status.Completed? && !doc.job.status.Cancelled?
            && job.retries == doc.job.retries + (if job.status.Pending? then 1 else 0)
            && (job.status.Pending? ==> doc.job.retries < Bound(config))
  {
  }

  lemma NextKeepsClients(config: Config, s: State, step: Step)
    requires Clients(config, s)
    ensures Clients(config, Next(config, s, step))
  {
    hide Plan;
    var n := Next(config, s, step);
    forall c | c in n.clients
      ensures Remembers(n, n.clients[c]) && Planned(config, n.clients[c])
    {
      if c in s.clients {
        assert Remembers(s, s.clients[c]) && Planned(config, s.clients[c]);
      }
    }
  }

  lemma CommitKeepsHistory(config: Config, s: State, c: Client, fate: Fate)
    requires Clients(config, s) && History(config, s)
    ensures History(config, Next(config, s, Write(c, fate)))
  {
    var n := Next(config, s, Write(c, fate));
    hide Revivals;
    if n.log != s.log {
      var p := PhaseOf(s, c);
      var e := n.log[|s.log|];
      hide Plan;
      assert Remembers(s, p) && Planned(config, p);
      PlanFacts(e.kind, e.before, e.now, config, e.active);
      forall id: nat
        ensures Revivals(n.log, id) == Revivals(s.log, id) + if e.id == id && e.after.status.Pending? then 1 else 0
      {
        RevivalsAppended(s.log, e, id);
      }
    }
  }

  lemma OthersKeepHistory(config: Config, s: State, step: Step)
    requires History(config, s) && !step.Write?
    ensures History(config, Next(config, s, step))
  {
    hide Revivals, Plan;
    if step.Create? {
      NoneYet(s.log, s.born);
    }
  }

  ghost predicate Inv(config: Config, s: State) {
    Clients(config, s) && History(config, s)
  }

  lemma NextKeepsInv(config: Config, s: State, step: Step)
    requires Inv(config, s)
    ensures Inv(config, Next(config, s, step))
  {
    hide Next, Clients, History;
    NextKeepsClients(config, s, step);
    if step.Write? {
      CommitKeepsHistory(config, s, step.client, step.fate);
    } else {
      OthersKeepHistory(config, s, step);
    }
  }

  lemma {:induction false} RunKeepsInv(config: Config, s: State, steps: seq<Step>)
    requires Inv(config, s)
    ensures Inv(config, Run(config, s, steps))
  {
    hide Next, Inv;
    if steps != [] {
      RunKeepsInv(config, s, steps[..|steps| - 1]);
      NextKeepsInv(config, Run(config, s, steps[..|steps| - 1]), steps[|steps| - 1]);
    }
  }

  // ---------------------------------------------------------------------- main results

  /** Nothing recovery may change besides these; what only workers know is kept. */
  ghost predicate OnlyControl(before: Job, after: Job) {
    after == before.(status := after.status, error := after.error, retries := after.retries,
                     startedAt := after.startedAt, completedAt := after.completedAt)
  }

  /**
   The worker has had its time: a job is processing and was started longer ago than the timeout. Without a start
   its creation counts, and without either the time of the last write.
   */
  ghost predicate TimeIsUp(config: Config, doc: Doc, now: int) {
    && doc.job.status == Processing
    && match (doc.job.startedAt, doc.job.createdAt)
       case (Some(started), _) => now - started > config.timeout
       case (None, Some(created)) => now - created > config.timeout
       case (None, None) => now - doc.written > config.timeout
  }

  /** The job is given back to the workers. */
  ghost predicate Restarted(before: Job, after: Job) {
    && after.status == Pending && after.error == None && after.retries == before.retries + 1
    && after.startedAt == None && after.completedAt == None
  }

  /** The moves of a job that recovery makes, and when. */
  ghost predicate Move(config: Config, kind: Kind, before: Doc, after: Job, now: int, active: bool) {
    var was := before.job;
    match kind
    case Monitor =>
      if was.retries < config.maxRetries && active then
        (TimeIsUp(config, before, now) || was.status == Failed) && Restarted(was, after)
      else
        && TimeIsUp(config, before, now)
        && after.status == Failed && after.error == Some("Timed out") && after.completedAt == Some(now)
        && after.retries == was.retries && after.startedAt == was.startedAt
    case Cancel =>
      && was.status == Pending && after.status == Cancelled && after.completedAt == Some(now)
      && after.retries == was.retries && after.error == was.error && after.startedAt == was.startedAt
    case Retry => was.status == Failed && was.retries < 10 && active && Restarted(was, after)
  }

  /** An operation goes on to write exactly when there is a move to make, and then writes that one. */
  lemma PlanIsMove(kind: Kind, doc: Doc, now: int, config: Config, active: bool)
    ensures match Plan(kind, doc, now, config, active)
            case Some(job) => Move(config, kind, doc, job, now, active) && OnlyControl(doc.job, job)
            case None => forall job :: !Move(config, kind, doc, job, now, active)
  {
  }

  /**
   Recovery never undoes a worker: whatever workers write and whenever, each commit of the monitor, of a
   cancellation or of a retry replaced a job that was neither completed nor cancelled at that moment, by
   one of the allowed moves, and kept everything that is not its own.
   */
  lemma NeverUndoesAWorker(config: Config, now: int, steps: seq<Step>, i: nat)
    requires i < |Run(config, Empty(now), steps).log|
    ensures var e := Run(config, Empty(now), steps).log[i];
            && !e.before.job.status.Completed? && !e.before.job.status.Cancelled?
            && Move(config, e.kind, e.before, e.after, e.now, e.active)
            && OnlyControl(e.before.job, e.after)
  {
    RunKeepsInv(config, Empty(now), steps);
    var e := Run(config, Empty(now), steps).log[i];
    hide Run, Plan;
    assert Faithful(config, e);
    PlanIsMove(e.kind, e.before, e.now, config, e.active);
  }

  /** At some moment so far a pipeline by this name was there and active, or was not. */
  ghost predicate SomeTime(config: Config, init: State, steps: seq<Step>, pipeline: string, active: bool) {
    exists k: nat | k <= |steps| :: ActiveIn(Run(config, init, steps[..k]), pipeline, active)
  }

  ghost predicate ActiveIn(s: State, pipeline: string, active: bool) {
    active <==> pipeline in s.pipelines && s.pipelines[pipeline]
  }

  ghost predicate Asked(config: Config, init: State, steps: seq<Step>) {
    var s := Run(config, init, steps);
    && (forall c | c in s.clients && s.clients[c].Ready? ::
          SomeTime(config, init, steps, s.clients[c].doc.job.pipeline, s.clients[c].active))
    && (forall i | 0 <= i < |s.log| :: SomeTime(config, init, steps, s.log[i].before.job.pipeline, s.log[i].active))
  }

  lemma SomeTimeEarlier(config: Config, init: State, steps: seq<Step>, step: Step, pipeline: string, active: bool)
    requires SomeTime(config, init, steps, pipeline, active)
    ensures SomeTime(config, init, steps + [step], pipeline, active)
  {
    hide Run;
    var k: nat :| k <= |steps| && ActiveIn(Run(config, init, steps[..k]), pipeline, active);
    assert (steps + [step])[..k] == steps[..k];
  }

  lemma SomeTimeNow(config: Config, init: State, steps: seq<Step>, step: Step, pipeline: string)
    ensures SomeTime(config, init, steps + [step], pipeline, Active(Run(config, init, steps), pipeline))
  {
    hide Run;
    var k, all := |steps|, steps + [step];
    assert all[..k] == steps;
    assert ActiveIn(Run(config, init, all[..k]), pipeline, Active(Run(config, init, steps), pipeline));
  }

  /** What one step adds to the answers about pipelines: a decision asks, a commit goes by what was asked. */
  lemma StepAsks(config: Config, s: State, step: Step)
    requires Inv(config, s)
    ensures var n := Next(config, s, step);
            && (forall c | c in n.clients && n.clients[c].Ready? ::
                  || (c in s.clients && n.clients[c] == s.clients[c])
                  || n.clients[c].active == Active(s, n.clients[c].doc.job.pipeline))
            && (forall i | 0 <= i < |n.log| ::
                  || (i < |s.log| && n.log[i] == s.log[i])
                  || exists c :: AnsweredTo(s, c, n.log[i]))
  {
    hide Plan;
    var n := Next(config, s, step);
    if step.Write? && n.log != s.log {
      assert Remembers(s, PhaseOf(s, step.client));
      assert AnsweredTo(s, step.client, n.log[|s.log|]);
    }
  }

  ghost predicate AnsweredTo(s: State, c: Client, e: Commit) {
    c in s.clients && s.clients[c].Ready? && s.clients[c].doc == e.before && s.clients[c].active == e.active
  }

  /** A job is revived only on a pipeline that was active at some moment, and left failed only on one that was not. */
  lemma {:induction false} GoesByThePipeline(config: Config, now: int, steps: seq<Step>)
    ensures Asked(config, Empty(now), steps)
  {
    if steps != [] {
      var before, step := steps[..|steps| - 1], steps[|steps| - 1];
      var init := Empty(now);
      var s := Run(config, init, before);
      GoesByThePipeline(config, now, before);
      RunKeepsInv(config, init, before);
      StepAsks(config, s, step);
      assert before + [step] == steps;
      var n := Run(config, init, steps);
      hide Run, Next, Inv, SomeTime, Active;
      forall c | c in n.clients && n.clients[c].Ready?
        ensures SomeTime(config, init, steps, n.clients[c].doc.job.pipeline, n.clients[c].active)
      {
        if c in s.clients && n.clients[c] == s.clients[c] {
          SomeTimeEarlier(config, init, before, step, n.clients[c].doc.job.pipeline, n.clients[c].active);
        } else {
          SomeTimeNow(config, init, before, step, n.clients[c].doc.job.pipeline);
        }
      }
      forall i | 0 <= i < |n.log|
        ensures SomeTime(config, init, steps, n.log[i].before.job.pipeline, n.log[i].active)
      {
        if !(i < |s.log| && n.log[i] == s.log[i]) {
          var c :| AnsweredTo(s, c, n.log[i]);
        }
        SomeTimeEarlier(config, init, before, step, n.log[i].before.job.pipeline, n.log[i].active);
      }
    }
  }

  /** The retry count of a job is the number of its revivals, and never exceeds the larger of the two limits. */
  lemma RetriesCountRevivals(config: Config, now: int, steps: seq<Step>, id: nat)
    requires id in Run(config, Empty(now), steps).jobs
    ensures var s := Run(config, Empty(now), steps);
            && s.jobs[id].job.retries == Revivals(s.log, id)
            && (s.jobs[id].job.retries <= 10 || s.jobs[id].job.retries <= config.maxRetries)
  {
    RunKeepsInv(config, Empty(now), steps);
  }
}

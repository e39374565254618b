/**
 A container deployment (`deploy_container` of api/cloud_deployment_azure.py) beside the container it creates.
 The container is created before the flag that says so is stored, the other way round than for an inference or
 an agent, so a crash in between leaves a container that every later attempt takes for somebody else's. And
 the request that creates it also goes through if somebody else's has come up since the look, so the job can
 take that one for its own.
 */
module ContainerDeployment {
  import opened Outcomes
  import opened DeploymentProtocol
  import opened DeploymentSafety

  /** How far an executor has come with the container. */
  datatype Stage = NotLooked | Absent | Created | Cleared

  /** The job and its container; `made` says whether an attempt of the job ever created it where there was none. */
  datatype World = World(job: State, present: bool, made: bool, stages: map<nat, Stage>)

  datatype Move =
    | Other(step: Step)                                      // whatever else happens to the job
    | Appear                                                 // somebody else creates the container
    | Vanish                                                 // somebody deletes it
    | Look(executor: nat)
    | Make(executor: nat, sent: bool, answered: bool)
    | Mark(executor: nat, at: int, fate: Fate)
    | Report(executor: nat, fate: Fate)

  predicate Ordinary(step: Step) {
    !step.ActOnce? && !step.Succeed? && !(step.Fence? && step.arm)
  }

  function StageOf(w: World, e: nat): Stage {
    if e in w.stages then w.stages[e] else NotLooked
  }

  predicate CanCall(s: State, e: nat) {
    e < |s.executors| && s.executors[e].phase.Working? && s.executors[e].phase.checkedAt.Some?
  }

  function Moved(w: World, e: nat, stage: Stage): World {
    w.(stages := w.stages[e := stage])
  }

  /** The move can be made now; any other leaves the world as it is. */
  predicate Enabled(w: World, m: Move) {
    match m
    case Other(step) => Ordinary(step)
    case Look(e) => CanCall(w.job, e) && StageOf(w, e).NotLooked?
    case Make(e, _, _) => CanCall(w.job, e) && StageOf(w, e).Absent?
    case Mark(e, at, _) => e < |w.job.executors| && StageOf(w, e).Created? && at <= w.job.now
    case Report(e, _) => StageOf(w, e).Cleared?
    case _ => true
  }

  /** The executor goes on after it: it found what it hoped for, or its request was answered. */
  predicate GoesOn(w: World, m: Move)
    requires Enabled(w, m)
  {
    match m
    case Look(e) => !w.present || w.job.executors[e].doc.started
    case Make(_, _, answered) => answered
    case _ => true
  }

  /** What a move is to the job: steps of its protocol. */
  function Shown(m: Move, goesOn: bool): seq<Step> {
    match m
    case Other(step) => [step]
    case Look(e) => if goesOn then [Act(e)] else [Act(e), GiveUp(e)]
    case Make(e, _, _) => if goesOn then [Act(e)] else [Act(e), GiveUp(e)]
    case Mark(e, at, fate) => [Fence(e, at, true, fate)]
    case Report(e, fate) => [Succeed(e, fate)]
    case _ => []
  }

  function After(w: World, m: Move): World {
    if !Enabled(w, m) then w
    else
      match m
      case Other(step) => w.(job := Next(w.job, step))
      case Appear => w.(present := true)
      case Vanish => w.(present := false)
      case Look(e) =>
        var looked := w.(job := Next(w.job, Act(e)));
        if GoesOn(w, m) then Moved(looked, e, if w.present then Cleared else Absent)
        else looked.(job := Next(looked.job, GiveUp(e)))
      case Make(e, sent, answered) =>
        var performed := sent || answered;
        var called := w.(job := Next(w.job, Act(e)), present := w.present || performed,
                         made := w.made || (performed && !w.present));
        if GoesOn(w, m) then Moved(called, e, Created) else called.(job := Next(called.job, GiveUp(e)))
      case Mark(e, at, fate) =>
        var n := Next(w.job, Fence(e, at, true, fate));
        var marked := n.executors[e].phase.Working? && n.executors[e].doc.started;
        Moved(w.(job := n), e, if marked then Cleared else Created)
      case Report(e, fate) => w.(job := Next(w.job, Succeed(e, fate)))
  }

  function Played(w: World, moves: seq<Move>): World {
    if moves == [] then w else After(Played(w, moves[..|moves| - 1]), moves[|moves| - 1])
  }

  lemma PlayedAppended(w: World, moves: seq<Move>, m: Move)
    ensures Played(w, moves + [m]) == After(Played(w, moves), m)
  {
    assert (moves + [m])[..|moves|] == moves;
  }

  /** The steps of the job in a run of the world. */
  function Trace(w: World, moves: seq<Move>): seq<Step> {
    if moves == [] then []
    else
      var before, m := Played(w, moves[..|moves| - 1]), moves[|moves| - 1];
      Trace(w, moves[..|moves| - 1]) + if Enabled(before, m) then Shown(m, GoesOn(before, m)) else []
  }

  lemma {:induction false} RunJoined(s: State, first: seq<Step>, second: seq<Step>)
    ensures Run(s, first + second) == Run(Run(s, first), second)
  {
    hide Next;
    if second == [] {
      assert first + second == first;
    } else {
      RunJoined(s, first, second[..|second| - 1]);
      assert (first + second)[..|first + second| - 1] == first + second[..|second| - 1];
    }
  }

  lemma MoveIsRun(w: World, m: Move)
    ensures After(w, m).job == Run(w.job, if Enabled(w, m) then Shown(m, GoesOn(w, m)) else [])
  {
    if Enabled(w, m) {
      match m {
        case Look(e) => FewSteps(w.job, Act(e), GiveUp(e));
        case Make(e, _, _) => FewSteps(w.job, Act(e), GiveUp(e));
        case Other(step) => FewSteps(w.job, step, step);
        case Mark(e, at, fate) => FewSteps(w.job, Fence(e, at, true, fate), GiveUp(e));
        case Report(e, fate) => FewSteps(w.job, Succeed(e, fate), GiveUp(e));
        case _ =>
      }
    }
  }

  lemma FewSteps(s: State, first: Step, second: Step)
    ensures Run(s, [first]) == Next(s, first) && Run(s, [first, second]) == Next(Next(s, first), second)
  {
    hide Next;
    assert [first, second][..1] == [first] && [first][..0] == [];
  }

  /** Every run beside a container is a run of the job, so what holds of all runs of jobs holds here. */
  lemma {:induction false} WorldIsRun(w: World, moves: seq<Move>)
    ensures Played(w, moves).job == Run(w.job, Trace(w, moves))
  {
    hide Run, After, Enabled, GoesOn, Shown;
    if moves == [] {
      NoSteps(w.job);
    } else {
      var before, m := moves[..|moves| - 1], moves[|moves| - 1];
      WorldIsRun(w, before);
      var b := Played(w, before);
      MoveIsRun(b, m);
      RunJoined(w.job, Trace(w, before), if Enabled(b, m) then Shown(m, GoesOn(b, m)) else []);
    }
  }

  lemma NoSteps(s: State)
    ensures Run(s, []) == s
  {
  }

  function Planned(present: bool, now: int): World {
    World(Planning(CosmosContainer, now), present, false, map[])
  }

  // ---------------------------------------------------------------------- what every run keeps

  /** Success comes after the flag. */
  ghost predicate VersionOk(v: Version) {
    && v.job.kind == CosmosContainer
    && (v.job.status == Succeeded ==> v.job.started)
  }

  ghost predicate StageOk(w: World, e: nat) {
    && (!StageOf(w, e).NotLooked? ==> e < |w.job.executors|)
    && (e < |w.job.executors| ==> !w.job.executors[e].phase.Armed?)
    && (e < |w.job.executors| && w.job.executors[e].phase.Working? ==>
          && (!StageOf(w, e).NotLooked? ==> w.job.executors[e].phase.checkedAt.Some?)
          && (StageOf(w, e).Cleared? ==> w.job.executors[e].doc.started))
  }

  ghost predicate WorldOk(w: World) {
    && Inv(w.job)
    && (forall i: nat | i < |w.job.log| :: VersionOk(w.job.log[i]))
    && forall e: nat :: StageOk(w, e)
  }

  /** A step of the job alone: the flag comes from its one way, success from a cleared executor. */
  lemma StepFacts(s: State, step: Step)
    requires Inv(s)
    ensures var n := Next(s, step);
            && Inv(n) && |s.log| <= |n.log| <= |s.log| + 1 && s.log <= n.log && |s.executors| <= |n.executors|
            && (|n.log| == |s.log| + 1 ==>
                  var was, v := Last(s).job, Last(n).job;
                  && v.kind == was.kind
                  && (v.started ==> was.started || (step.Fence? && step.arm))
                  && (v.status == Succeeded ==> step.Succeed? && v.started == was.started))
  {
    NextKeepsInv(s, step);
    NextGrows(s, step);
    var n := Next(s, step);
    if step.Fence? || step.Succeed? || step.Fail? {
      if step.executor < |s.executors| {
        assert ExecutorOk(s, step.executor);
      }
    }
  }

  /** An executor whose copy is current is at work on the newest version. */
  lemma CurrentCopy(s: State, e: nat)
    requires Inv(s) && e < |s.executors| && !s.executors[e].phase.Done?
    ensures s.executors[e].tag < |s.log| && s.executors[e].doc == s.log[s.executors[e].tag].job
    ensures s.executors[e].doc.status == Running
  {
    assert ExecutorOk(s, e);
  }

  /** What a step leaves of the working copies; none of a container job is ever armed. */
  lemma CopyStays(s: State, step: Step, e: nat)
    requires Inv(s) && e < |Next(s, step).executors| && !step.ActOnce?
    requires e < |s.executors| ==> !s.executors[e].phase.Armed?
    requires e < |s.executors| && !s.executors[e].phase.Done? ==> s.executors[e].doc.kind == CosmosContainer
    ensures var y := Next(s, step).executors[e];
            && !y.phase.Armed?
            && (e < |s.executors| && y.phase.Working? ==>
                  && s.executors[e].phase.Working?
                  && (s.executors[e].phase.checkedAt.Some? ==> y.phase.checkedAt.Some?))
            && (e < |s.executors| && y.phase.Working? && s.executors[e].doc.started ==> y.doc.started)
  {
  }

  lemma StepKeepsVersions(w: World, step: Step)
    requires WorldOk(w) && (step.Succeed? ==> StageOf(w, step.executor).Cleared?)
    ensures var n := Next(w.job, step);
            Inv(n) && forall i: nat | i < |n.log| :: VersionOk(n.log[i])
  {
    var s, n := w.job, Next(w.job, step);
    StepFacts(s, step);
    if step.Succeed? && step.executor < |s.executors| && s.executors[step.executor].phase.Working? {
      assert StageOk(w, step.executor);
      CurrentCopy(s, step.executor);
    }
    if step.Succeed? && |n.log| > |s.log| {
      SucceedsAsCopy(s, step);
    }
    hide Next, Inv;
    forall i: nat | i < |n.log| ensures VersionOk(n.log[i]) {
      if i < |s.log| {
        assert VersionOk(s.log[i]) && n.log[i] == s.log[i];
      } else {
        assert VersionOk(Last(s));
      }
    }
  }

  lemma SucceedsAsCopy(s: State, step: Step)
    requires step.Succeed? && |Next(s, step).log| > |s.log|
    ensures step.executor < |s.executors| && s.executors[step.executor].phase.Working?
    ensures Newest(s, s.executors[step.executor].tag)
  {
  }

  lemma StepKeepsStage(w: World, step: Step, n: World, e: nat)
    requires WorldOk(w) && n.job == Next(w.job, step) && !step.ActOnce?
    requires StageOf(n, e) == StageOf(w, e)
    ensures StageOk(n, e)
  {
    assert StageOk(w, e);
    NextGrows(w.job, step);
    if e < |n.job.executors| {
      if e < |w.job.executors| && !w.job.executors[e].phase.Done? {
        CurrentCopy(w.job, e);
        assert VersionOk(w.job.log[w.job.executors[e].tag]);
      }
      CopyStays(w.job, step, e);
    }
  }

  /** A step of the job keeps the world in order, if stages stay or one executor's stage is seen to. */
  lemma StepKeepsOk(w: World, step: Step, n: World, me: Option<nat>)
    requires WorldOk(w) && n.job == Next(w.job, step) && !step.ActOnce?
    requires step.Succeed? ==> StageOf(w, step.executor).Cleared?
    requires forall e: nat | me != Some(e) :: StageOf(n, e) == StageOf(w, e)
    requires me.Some? ==> StageOk(n, me.value)
    ensures WorldOk(n)
  {
    StepKeepsVersions(w, step);
    forall e: nat ensures StageOk(n, e) {
      if me != Some(e) {
        StepKeepsStage(w, step, n, e);
      }
    }
    hide Next, Inv, VersionOk, StageOk;
  }

  lemma MoveKeepsOk(w: World, m: Move)
    requires WorldOk(w)
    ensures WorldOk(After(w, m))
  {
    var n := After(w, m);
    match m {
      case Other(step) => if Ordinary(step) { StepKeepsOk(w, step, n, None); }
      case Appear => SameJobOk(w, n);
      case Vanish => SameJobOk(w, n);
      case Look(e) => if n != w { LookKeepsOk(w, e); }
      case Make(e, sent, answered) => if n != w { MakeKeepsOk(w, e, sent, answered); }
      case Mark(e, at, fate) => if n != w { MarkKeepsOk(w, e, at, fate); }
      case Report(e, fate) => if StageOf(w, e).Cleared? { StepKeepsOk(w, Succeed(e, fate), n, None); }
    }
  }

  lemma SameJobOk(w: World, n: World)
    requires WorldOk(w) && n == w.(present := n.present)
    ensures WorldOk(n)
  {
    forall e: nat ensures StageOk(n, e) {
      assert StageOk(w, e);
    }
  }

  lemma LookKeepsOk(w: World, e: nat)
    requires WorldOk(w) && CanCall(w.job, e) && StageOf(w, e).NotLooked?
    ensures WorldOk(After(w, Look(e)))
  {
    var looked := w.(job := Next(w.job, Act(e)));
    assert StageOk(w, e);
    StepKeepsOk(w, Act(e), looked, None);
    var n := After(w, Look(e));
    if w.present && !w.job.executors[e].doc.started {
      StepKeepsOk(looked, GiveUp(e), n, None);
    } else {
      CurrentCopy(w.job, e);
      assert VersionOk(w.job.log[w.job.executors[e].tag]);
      StepKeepsOk(w, Act(e), n, Some(e));
    }
  }

  lemma MakeKeepsOk(w: World, e: nat, sent: bool, answered: bool)
    requires WorldOk(w) && CanCall(w.job, e) && StageOf(w, e).Absent?
    ensures WorldOk(After(w, Make(e, sent, answered)))
  {
    var performed := sent || answered;
    var called := w.(job := Next(w.job, Act(e)), present := w.present || performed,
                     made := w.made || (performed && !w.present));
    assert StageOk(w, e);
    StepKeepsOk(w, Act(e), called, None);
    var n := After(w, Make(e, sent, answered));
    if answered {
      StepKeepsOk(w, Act(e), n, Some(e));
    } else {
      StepKeepsOk(called, GiveUp(e), n, None);
    }
  }

  lemma MarkKeepsOk(w: World, e: nat, at: int, fate: Fate)
    requires WorldOk(w) && e < |w.job.executors| && StageOf(w, e).Created?
    ensures WorldOk(After(w, Mark(e, at, fate)))
  {
    var n := After(w, Mark(e, at, fate));
    assert StageOk(w, e);
    if at <= w.job.now {
      NextGrows(w.job, Fence(e, at, true, fate));
      StepKeepsStage(w, Fence(e, at, true, fate), w.(job := n.job), e);
      StepKeepsOk(w, Fence(e, at, true, fate), n, Some(e));
    }
  }

  lemma PlannedIsOk(present: bool, now: int)
    ensures WorldOk(Planned(present, now))
  {
    PlanningOk(CosmosContainer, now);
  }

  lemma {:induction false} PlayedOk(w: World, moves: seq<Move>)
    requires WorldOk(w)
    ensures WorldOk(Played(w, moves))
  {
    hide WorldOk, After;
    if moves != [] {
      PlayedOk(w, moves[..|moves| - 1]);
      MoveKeepsOk(Played(w, moves[..|moves| - 1]), moves[|moves| - 1]);
    }
  }

  // ---------------------------------------------------------------------- whose container it is

  /** It can still write: it is at work, and nothing was written after its copy. */
  predicate CanWrite(s: State, e: nat) {
    e < |s.executors| && s.executors[e].phase.Working? && Newest(s, s.executors[e].tag)
  }

  /** Who can write afterwards could before, or has just claimed the job. */
  lemma WritersBefore(s: State, step: Step, e: nat)
    requires Inv(s) && CanWrite(Next(s, step), e) && !step.ActOnce?
    ensures e < |s.executors| ==> CanWrite(s, e) || s.executors[e].phase.Armed?
  {
    NextGrows(s, step);
    if e < |s.executors| {
      assert ExecutorOk(s, e);
    }
  }

  /** The fence of an executor that cannot write leaves the log alone. */
  lemma MarkIsLost(s: State, step: Step)
    requires step.Fence? && !CanWrite(s, step.executor)
    ensures Next(s, step).log == s.log
  {
  }

  /** It found no container, and its request to create one would still be followed by the flag. */
  predicate AboutToMake(w: World, e: nat) {
    CanWrite(w.job, e) && StageOf(w, e).Absent?
  }

  /** Whoever can still store the flag stores it after a creation by the job, and so far all did. */
  ghost predicate Honest(w: World) {
    && (forall i: nat | i < |w.job.log| :: w.job.log[i].job.started ==> w.made)
    && forall e: nat | CanWrite(w.job, e) :: HonestAt(w, e)
  }

  predicate HonestAt(w: World, e: nat) {
    && (StageOf(w, e).Absent? ==> !w.present || w.made)
    && (StageOf(w, e).Created? ==> w.made)
  }

  /** Somebody else's container does not come up between an executor's look and its request. */
  ghost predicate Foreseen(w: World, m: Move) {
    m.Appear? && !w.present && !w.made ==> !exists e :: AboutToMake(w, e)
  }

  ghost predicate AllForeseen(w: World, moves: seq<Move>) {
    forall i | 0 <= i < |moves| :: Foreseen(Played(w, moves[..i]), moves[i])
  }

  lemma StaysHonestBy(w: World, step: Step, n: World)
    requires WorldOk(w) && Honest(w) && n.job == Next(w.job, step) && !step.ActOnce? && (w.made ==> n.made)
    requires step.Fence? && step.arm && CanWrite(w.job, step.executor) ==> n.made
    requires forall e: nat | CanWrite(w.job, e) && CanWrite(n.job, e) :: HonestAt(n, e)
    requires forall e: nat | e >= |w.job.executors| :: StageOf(n, e) == StageOf(w, e)
    ensures Honest(n)
  {
    StepFacts(w.job, step);
    if step.Fence? && !CanWrite(w.job, step.executor) {
      MarkIsLost(w.job, step);
    }
    hide Next, Inv, VersionOk;
    forall i: nat | i < |n.job.log| ensures n.job.log[i].job.started ==> n.made {
      if i < |w.job.log| {
        assert n.job.log[i] == w.job.log[i];
      }
    }
    forall e: nat | CanWrite(n.job, e) ensures HonestAt(n, e) {
      WritersBefore(w.job, step, e);
      assert StageOk(w, e);
    }
  }

  lemma MoveKeepsHonest(w: World, m: Move)
    requires WorldOk(w) && Honest(w) && Foreseen(w, m)
    ensures Honest(After(w, m))
  {
    var n := After(w, m);
    match m {
      case Other(step) => if Ordinary(step) { StaysHonestBy(w, step, n); }
      case Appear => AppearKeepsHonest(w);
      case Look(e) => if n != w { LookKeepsHonest(w, e); }
      case Make(e, sent, answered) => if n != w { MakeKeepsHonest(w, e, sent, answered); }
      case Mark(e, at, fate) => if n != w { StaysHonestBy(w, Fence(e, at, true, fate), n); }
      case Report(e, fate) => if StageOf(w, e).Cleared? { StaysHonestBy(w, Succeed(e, fate), n); }
      case _ =>
    }
  }

  lemma AppearKeepsHonest(w: World)
    requires Honest(w) && Foreseen(w, Appear)
    ensures Honest(After(w, Appear))
  {
    var n := After(w, Appear);
    forall e: nat | CanWrite(n.job, e) ensures HonestAt(n, e) {
      assert HonestAt(w, e);
      if StageOf(w, e).Absent? && !w.present && !w.made {
        assert AboutToMake(w, e);
      }
    }
  }

  lemma LookKeepsHonest(w: World, e: nat)
    requires WorldOk(w) && Honest(w) && CanCall(w.job, e) && StageOf(w, e).NotLooked?
    ensures Honest(After(w, Look(e)))
  {
    var looked, n := w.(job := Next(w.job, Act(e))), After(w, Look(e));
    StaysHonestBy(w, Act(e), looked);
    if w.present && !w.job.executors[e].doc.started {
      StepKeepsOk(w, Act(e), looked, None);
      StaysHonestBy(looked, GiveUp(e), n);
    } else {
      StaysHonestBy(w, Act(e), n);
    }
  }

  lemma MakeKeepsHonest(w: World, e: nat, sent: bool, answered: bool)
    requires WorldOk(w) && Honest(w) && CanCall(w.job, e) && StageOf(w, e).Absent?
    ensures Honest(After(w, Make(e, sent, answered)))
  {
    var n := After(w, Make(e, sent, answered));
    var called := w.(job := Next(w.job, Act(e)), present := n.present, made := n.made);
    StaysHonestBy(w, Act(e), called);
    if answered {
      StaysHonestBy(w, Act(e), n);
    } else {
      StepKeepsOk(w, Act(e), called, None);
      StaysHonestBy(called, GiveUp(e), n);
    }
  }

  lemma {:induction false} PlayedHonest(w: World, moves: seq<Move>)
    requires WorldOk(w) && Honest(w) && AllForeseen(w, moves)
    ensures WorldOk(Played(w, moves)) && Honest(Played(w, moves))
  {
    hide WorldOk, After, Honest, Foreseen;
    PlayedOk(w, moves);
    if moves != [] {
      var before, m := moves[..|moves| - 1], moves[|moves| - 1];
      assert moves[..|moves| - 1] == before && Foreseen(Played(w, moves[..|moves| - 1]), moves[|moves| - 1]);
      forall i | 0 <= i < |before| ensures Foreseen(Played(w, before[..i]), before[i]) {
        assert before[..i] == moves[..i] && Foreseen(Played(w, moves[..i]), moves[i]);
      }
      PlayedHonest(w, before);
      MoveKeepsHonest(Played(w, before), m);
    }
  }

  /**
   As long as nobody else's container comes up between an executor's look and its request, a job that succeeded
   had the flag stored, and stored it after a creation of its own.
   */
  lemma SuccessMeansMade(present: bool, now: int, moves: seq<Move>, i: nat)
    requires AllForeseen(Planned(present, now), moves)
    requires i < |Played(Planned(present, now), moves).job.log|
    ensures var w := Played(Planned(present, now), moves);
            && (w.job.log[i].job.started ==> w.made)
            && (w.job.log[i].job.status == Succeeded ==> w.job.log[i].job.started && w.made)
  {
    PlannedIsOk(present, now);
    hide Played;
    PlayedHonest(Planned(present, now), moves);
    assert VersionOk(Played(Planned(present, now), moves).job.log[i]);
  }

  // ---------------------------------------------------------------------- main results

  ghost predicate NoFlag(s: State) {
    forall i: nat | i < |s.log| :: !s.log[i].job.started
  }

  /** The container is there, the flag is not, and nobody who knows better can still store it. */
  ghost predicate Stranded(w: World) {
    && w.present && NoFlag(w.job)
    && forall e: nat | CanWrite(w.job, e) :: StageOf(w, e).NotLooked?
  }

  lemma StaysStrandedBy(w: World, step: Step, n: World)
    requires WorldOk(w) && Stranded(w) && n.job == Next(w.job, step) && n.present && !step.ActOnce?
    requires step.Fence? && step.arm ==> !CanWrite(w.job, step.executor)
    requires forall e: nat | CanWrite(w.job, e) && CanWrite(n.job, e) :: StageOf(n, e) == StageOf(w, e)
    requires forall e: nat | e >= |w.job.executors| :: StageOf(n, e) == StageOf(w, e)
    ensures Stranded(n)
  {
    StepFacts(w.job, step);
    if step.Fence? && step.arm {
      MarkIsLost(w.job, step);
    }
    forall i: nat | i < |n.job.log| ensures !n.job.log[i].job.started {
      if i < |w.job.log| {
        assert n.job.log[i] == w.job.log[i];
      }
    }
    hide Next, Inv, NoFlag, VersionOk;
    forall e: nat | CanWrite(n.job, e) ensures StageOf(n, e).NotLooked? {
      WritersBefore(w.job, step, e);
      assert StageOk(w, e);
    }
  }

  lemma NoFlagCopy(w: World, e: nat)
    requires WorldOk(w) && NoFlag(w.job) && e < |w.job.executors| && !w.job.executors[e].phase.Done?
    ensures !w.job.executors[e].doc.started
  {
    CurrentCopy(w.job, e);
  }

  lemma MoveKeepsStranded(w: World, m: Move)
    requires WorldOk(w) && Stranded(w) && !m.Vanish?
    ensures Stranded(After(w, m))
  {
    var n := After(w, m);
    match m {
      case Other(step) => if Ordinary(step) { StaysStrandedBy(w, step, n); }
      case Look(e) =>
        if n != w {
          NoFlagCopy(w, e);
          assert StageOk(w, e);
          var looked := w.(job := Next(w.job, Act(e)));
          StaysStrandedBy(w, Act(e), looked);
          StepKeepsOk(w, Act(e), looked, None);
          StaysStrandedBy(looked, GiveUp(e), n);
        }
      case Make(e, sent, answered) =>
        if n != w {
          var performed := sent || answered;
          var called := w.(job := Next(w.job, Act(e)), present := true, made := w.made || (performed && !w.present));
          StaysStrandedBy(w, Act(e), called);
          StepKeepsOk(w, Act(e), called, None);
          if answered {
            StaysStrandedBy(w, Act(e), n);
          } else {
            StaysStrandedBy(called, GiveUp(e), n);
          }
        }
      case Mark(e, at, fate) => if n != w { StaysStrandedBy(w, Fence(e, at, true, fate), n); }
      case Report(e, fate) =>
        if StageOf(w, e).Cleared? {
          ClearedIsThrough(w, e);
          StaysStrandedBy(w, Succeed(e, fate), n);
        }
      case _ =>
    }
  }

  lemma ClearedIsThrough(w: World, e: nat)
    requires WorldOk(w) && NoFlag(w.job) && StageOf(w, e).Cleared?
    ensures e < |w.job.executors| && !w.job.executors[e].phase.Working?
  {
    assert StageOk(w, e);
    if w.job.executors[e].phase.Working? {
      NoFlagCopy(w, e);
    }
  }

  /** As long as nobody deletes the container, a stranded job stays so: no flag, and no success. */
  lemma {:induction false} StrandedForGood(w: World, moves: seq<Move>)
    requires WorldOk(w) && Stranded(w) && forall i | 0 <= i < |moves| :: !moves[i].Vanish?
    ensures var n := Played(w, moves);
            Stranded(n) && forall i: nat | i < |n.job.log| :: n.job.log[i].job.status != Succeeded
  {
    PlayedOk(w, moves);
    if moves != [] {
      StrandedForGood(w, moves[..|moves| - 1]);
      PlayedOk(w, moves[..|moves| - 1]);
      MoveKeepsStranded(Played(w, moves[..|moves| - 1]), moves[|moves| - 1]);
    }
    var n := Played(w, moves);
    hide Played, After;
    forall i: nat | i < |n.job.log| ensures n.job.log[i].job.status != Succeeded {
      assert VersionOk(n.job.log[i]);
    }
  }

  lemma {:induction false} FlagStays(s: State, i: nat, j: nat)
    requires LogOk(s) && i <= j < |s.log| && s.log[i].job.started
    ensures s.log[j].job.started
  {
    if i < j {
      FlagStays(s, i, j - 1);
      assert Chained(s.log, j);
    }
  }

  lemma QueuedIsNobodys(s: State, e: nat)
    requires Inv(s) && Last(s).job.status == Queued
    ensures !CanWrite(s, e)
  {
    if e < |s.executors| {
      assert ExecutorOk(s, e);
    }
  }

  /** Nobody touches the container from outside. */
  ghost predicate Alone(moves: seq<Move>) {
    forall i | 0 <= i < |moves| :: !moves[i].Appear? && !moves[i].Vanish?
  }

  /** Without help from outside, the job has succeeded in the end. */
  ghost predicate Succeeds(w: World, moves: seq<Move>) {
    && Alone(moves)
    && var n := Played(w, moves);
       n.job.log != [] && Last(n.job).job.status == Succeeded
  }

  /**
   Exactly when an approved attempt can get through without help from outside: if there is no container yet, or
   the flag is stored. A container without the flag makes this attempt, and every later one, a conflict.
   */
  lemma QueuedSucceedsIff(w: World)
    requires WorldOk(w) && w.job.log != [] && Last(w.job).job.status == Queued
    ensures (exists moves :: Succeeds(w, moves)) <==> !w.present || Last(w.job).job.started
  {
    if w.present && !Last(w.job).job.started {
      forall i: nat | i < |w.job.log| ensures !w.job.log[i].job.started {
        if w.job.log[i].job.started {
          FlagStays(w.job, i, |w.job.log| - 1);
        }
      }
      forall e: nat ensures !CanWrite(w.job, e) {
        QueuedIsNobodys(w.job, e);
      }
      assert Stranded(w);
      forall moves | Succeeds(w, moves) ensures false {
        StrandedForGood(w, moves);
      }
    } else {
      var moves := GetsThrough(w);
    }
  }

  /** And the deletion of the container is such help: it lets every approved attempt get through again. */
  lemma DeletionHelps(w: World)
    requires WorldOk(w) && w.job.log != [] && Last(w.job).job.status == Queued
    ensures exists moves :: Succeeds(After(w, Vanish), moves)
    ensures After(w, Vanish).job == w.job && After(w, Vanish).made == w.made
  {
    VanishKeepsOk(w);
    QueuedSucceedsIff(After(w, Vanish));
  }

  lemma VanishKeepsOk(w: World)
    requires WorldOk(w)
    ensures WorldOk(After(w, Vanish))
  {
    assert Played(w, []) == w;
    PlayedAppended(w, [], Vanish);
    PlayedOk(w, [] + [Vanish]);
  }

  /** This executor has just fenced and is free to go on. */
  ghost predicate AtWork(w: World, e: nat, stage: Stage) {
    && e < |w.job.executors| && w.job.log != [] && StageOf(w, e) == stage
    && var x := w.job.executors[e];
       && x.phase == Working(Some(w.job.now)) && Newest(w.job, x.tag) && x.doc == Last(w.job).job
       && x.doc.kind == CosmosContainer && w.job.now < x.doc.leaseUntil - MARGIN
  }

  lemma ClaimedAndFenced(w: World) returns (n: World, e: nat)
    requires WorldOk(w) && w.job.log != [] && Last(w.job).job.status == Queued
    ensures e == |w.job.executors|
    ensures var claim, fence := Claim(|w.job.log| - 1, w.job.now, Answered), Fence(e, w.job.now, false, Answered);
            n == After(After(w, Other(claim)), Other(fence))
    ensures AtWork(n, e, NotLooked) && n.present == w.present && Last(n.job).job.started == Last(w.job).job.started
  {
    e := |w.job.executors|;
    assert StageOk(w, e) && VersionOk(Last(w.job));
    var claimed := After(w, Other(Claim(|w.job.log| - 1, w.job.now, Answered)));
    assert claimed.job.executors[e].phase == Working(None);
    n := After(claimed, Other(Fence(e, w.job.now, false, Answered)));
  }

  lemma LooksAndGoesOn(w: World, e: nat) returns (n: World)
    requires AtWork(w, e, NotLooked) && (w.present ==> Last(w.job).job.started)
    ensures n == After(w, Look(e)) && AtWork(n, e, if w.present then Cleared else Absent)
  {
    n := After(w, Look(e));
  }

  lemma MakesAndMarks(w: World, e: nat) returns (n: World)
    requires AtWork(w, e, Absent)
    ensures n == After(After(w, Make(e, true, true)), Mark(e, w.job.now, Answered)) && AtWork(n, e, Cleared)
  {
    var made := After(w, Make(e, true, true));
    assert AtWork(made, e, Created);
    n := After(made, Mark(e, w.job.now, Answered));
  }

  lemma ReportsSuccess(w: World, e: nat) returns (n: World)
    requires AtWork(w, e, Cleared)
    ensures n == After(w, Report(e, Answered)) && n.job.log != [] && Last(n.job).job.status == Succeeded
  {
    n := After(w, Report(e, Answered));
  }

  lemma AloneAppended(sofar: seq<Move>, m: Move)
    requires Alone(sofar) && !m.Appear? && !m.Vanish?
    ensures Alone(sofar + [m])
  {
  }

  lemma Extend(start: World, w: World, sofar: seq<Move>, m: Move) returns (n: World, moves: seq<Move>)
    requires w == Played(start, sofar)
    ensures moves == sofar + [m] && n == After(w, m) == Played(start, moves)
    ensures Alone(sofar) && !m.Appear? && !m.Vanish? ==> Alone(moves)
  {
    hide *;
    PlayedAppended(start, sofar, m);
    n, moves := After(w, m), sofar + [m];
    if Alone(sofar) && !m.Appear? && !m.Vanish? {
      AloneAppended(sofar, m);
    }
  }

  lemma GetsThrough(w: World) returns (moves: seq<Move>)
    requires WorldOk(w) && w.job.log != [] && Last(w.job).job.status == Queued
    requires !w.present || Last(w.job).job.started
    ensures Succeeds(w, moves)
  {
    var at, e := w.job.now, |w.job.executors|;
    var fenced, executor := ClaimedAndFenced(w);
    hide After, AtWork, Played, WorldOk, Alone;
    NothingPlayed(w);
    var w1, m1 := Extend(w, w, [], Other(Claim(|w.job.log| - 1, at, Answered)));
    var w2, m2 := Extend(w, w1, m1, Other(Fence(e, at, false, Answered)));
    var cleared, m3 := Settles(w, w2, m2, e);
    var done := ReportsSuccess(cleared, e);
    var n;
    n, moves := Extend(w, cleared, m3, Report(e, Answered));
  }

  /** The fenced executor looks, and if there is no container makes it and stores the flag. */
  lemma Settles(start: World, w: World, sofar: seq<Move>, e: nat) returns (n: World, moves: seq<Move>)
    requires w == Played(start, sofar) && Alone(sofar)
    requires AtWork(w, e, NotLooked) && (w.present ==> Last(w.job).job.started)
    ensures n == Played(start, moves) && Alone(moves) && AtWork(n, e, Cleared)
  {
    var looked := LooksAndGoesOn(w, e);
    hide After, AtWork, Played, Alone;
    n, moves := Extend(start, w, sofar, Look(e));
    if !w.present {
      var marked := MakesAndMarks(n, e);
      var at := n.job.now;
      n, moves := Extend(start, n, moves, Make(e, true, true));
      n, moves := Extend(start, n, moves, Mark(e, at, Answered));
    }
  }

  lemma NothingPlayed(w: World)
    ensures Played(w, []) == w && Alone([])
  {
  }

  /** The first attempt is approved, claimed and fenced, and finds no container. */
  lemma FirstAttempt() returns (w: World, moves: seq<Move>)
    ensures w == Played(Planned(false, 0), moves)
    ensures AtWork(w, 0, Absent) && !w.present && !w.made && w.job.now == 0 && |w.job.log| == 4
    ensures Last(w.job).job == Job(CosmosContainer, Running, 1, 1, 0, LEASE, false)
  {
    hide Played;
    var start := Planned(false, 0);
    NothingPlayed(start);
    var w1, m1 := Extend(start, start, [], Other(Approve(0, 0, Answered)));
    var w2, m2 := Extend(start, w1, m1, Other(Claim(1, 0, Answered)));
    assert w2.job.executors == [Executor(2, Job(CosmosContainer, Running, 1, 1, 0, LEASE, false), Working(None))];
    var w3, m3 := Extend(start, w2, m2, Other(Fence(0, 0, false, Answered)));
    assert w3.job.executors == [Executor(3, Job(CosmosContainer, Running, 1, 1, 0, LEASE, false), Working(Some(0)))];
    w, moves := Extend(start, w3, m3, Look(0));
  }

  /** The attempt creates it, and dies. */
  lemma MadeAndDied() returns (w: World, moves: seq<Move>)
    ensures w == Played(Planned(false, 0), moves)
    ensures w.present && w.made && w.job.now == 0 && |w.job.log| == 4
    ensures Last(w.job).job == Job(CosmosContainer, Running, 1, 1, 0, LEASE, false)
  {
    hide Played;
    var w4, m4 := FirstAttempt();
    var w5, m5 := Extend(Planned(false, 0), w4, m4, Make(0, true, true));
    w, moves := Extend(Planned(false, 0), w5, m5, Other(Die(0)));
  }

  /**
   The crash in between: after it the job is marked interrupted and approved again, and by `QueuedSucceedsIff`
   no attempt ever gets through, unless somebody deletes the container the job itself created.
   */
  lemma CrashStrands() returns (w: World, moves: seq<Move>)
    ensures w == Played(Planned(false, 0), moves) && WorldOk(w)
    ensures w.made && w.present && w.job.log != [] && Last(w.job).job.status == Queued && !Last(w.job).job.started
    ensures !exists more :: Succeeds(w, more)
  {
    var start := Planned(false, 0);
    var w6, m6 := MadeAndDied();
    hide Played;
    var w7, m7 := Extend(start, w6, m6, Other(Tick(1801)));
    var w8, m8 := Extend(start, w7, m7, Other(Expire(3, 1801, Answered)));
    w, moves := Extend(start, w8, m8, Other(Approve(4, 1801, Answered)));
    PlannedIsOk(false, 0);
    PlayedOk(start, moves);
    QueuedSucceedsIff(w);
  }

  // ---------------------------------------------------------------------- a container taken over

  /** The job has succeeded with a container that it never created. */
  predicate TakenOver(w: World) {
    w.job.log != [] && Last(w.job).job.status == Succeeded && !w.made
  }

  ghost predicate NoAppear(moves: seq<Move>) {
    forall i | 0 <= i < |moves| :: !moves[i].Appear?
  }

  lemma AloneMeansNoAppear(moves: seq<Move>)
    requires Alone(moves)
    ensures NoAppear(moves)
  {
  }

  lemma NoAppearForeseen(w: World, moves: seq<Move>)
    requires NoAppear(moves)
    ensures AllForeseen(w, moves)
  {
    hide Played;
  }

  lemma MakesOver(w: World, e: nat) returns (n: World)
    requires AboutToMake(w, e) && CanCall(w.job, e) && w.present
    ensures n == After(w, Make(e, true, true)) && StageOf(n, e).Created? && CanWrite(n.job, e)
    ensures n.job.now == w.job.now && n.job.executors == w.job.executors && n.made == w.made
  {
    n := After(w, Make(e, true, true));
  }

  lemma MarksAsOwn(w: World, e: nat, at: int) returns (n: World)
    requires CanWrite(w.job, e) && StageOf(w, e).Created? && w.job.executors[e].doc.kind == CosmosContainer
    requires at <= w.job.now && at < w.job.executors[e].doc.leaseUntil - MARGIN
    ensures n == After(w, Mark(e, at, Answered)) && StageOf(n, e).Cleared? && CanWrite(n.job, e) && n.made == w.made
  {
    n := After(w, Mark(e, at, Answered));
  }

  lemma ReportsAsOwn(w: World, e: nat)
    requires CanWrite(w.job, e) && StageOf(w, e).Cleared? && !w.made
    ensures TakenOver(After(w, Report(e, Answered)))
  {
  }

  /** Its request over somebody else's container is answered, and the flag and success follow. */
  lemma TakesOver(w: World, e: nat) returns (moves: seq<Move>)
    requires WorldOk(w) && AboutToMake(w, e) && w.present && !w.made
    ensures Alone(moves) && TakenOver(Played(w, moves))
  {
    var x := w.job.executors[e];
    assert StageOk(w, e);
    assert ExecutorOk(w.job, e);
    assert VersionOk(w.job.log[x.tag]);
    hide *;
    var at := if w.job.now < x.doc.leaseUntil - MARGIN then w.job.now else x.doc.leaseUntil - MARGIN - 1;
    var w1 := MakesOver(w, e);
    var w2 := MarksAsOwn(w1, e, at);
    ReportsAsOwn(w2, e);
    NothingPlayed(w);
    var n1, m1 := Extend(w, w, [], Make(e, true, true));
    var n2, m2 := Extend(w, n1, m1, Mark(e, at, Answered));
    var n3;
    n3, moves := Extend(w, n2, m2, Report(e, Answered));
  }

  /**
   Exactly when somebody else's container, coming up now, can be taken over: when an executor that still holds the
   newest version found none and has not sent its request. Until now every flag came after an own creation.
   */
  lemma TakenOverIff(w: World)
    requires WorldOk(w) && Honest(w)
    ensures (exists moves :: NoAppear(moves) && TakenOver(Played(After(w, Appear), moves)))
            <==> !w.made && exists e :: AboutToMake(w, e)
  {
    var n := After(w, Appear);
    MoveKeepsOk(w, Appear);
    if e :| !w.made && AboutToMake(w, e) {
      var moves := TakesOver(n, e);
      AloneMeansNoAppear(moves);
    } else {
      MoveKeepsHonest(w, Appear);
      forall moves | NoAppear(moves) ensures !TakenOver(Played(n, moves)) {
        NoAppearForeseen(n, moves);
        PlayedHonest(n, moves);
        hide *;
        NeverTakenOver(Played(n, moves));
      }
    }
  }

  lemma NeverTakenOver(w: World)
    requires WorldOk(w) && Honest(w)
    ensures !TakenOver(w)
  {
    if w.job.log != [] {
      assert VersionOk(w.job.log[|w.job.log| - 1]);
    }
  }

  /** A run from the plan on: somebody else's container comes up after the look, and the job succeeds with it. */
  lemma ForeignContainerTakenOver() returns (w: World, moves: seq<Move>)
    ensures w == Played(Planned(false, 0), moves)
    ensures TakenOver(w) && w.present && Last(w.job).job.started
  {
    var start := Planned(false, 0);
    var looked, m4 := FirstAttempt();
    hide Played;
    var up, m5 := Extend(start, looked, m4, Appear);
    var made, m6 := Extend(start, up, m5, Make(0, true, true));
    assert AtWork(made, 0, Created);
    var marked, m7 := Extend(start, made, m6, Mark(0, 0, Answered));
    assert AtWork(marked, 0, Cleared);
    w, moves := Extend(start, marked, m7, Report(0, Answered));
  }
}

/**
 Leader election over one Kubernetes Lease (api/leader_election.py): any number of electors with
 distinct identities and one clock, each in its own loop, and a lease that is never deleted.

 A write of the lease is named by its position in the log, which is its resource version. What an
 elector believes (`leader`) and who holds the lease (the last write) are separate.
 */
module LeaseProtocol {
  import opened Outcomes

  const MAX_FAILURES: nat := 3

  /** One accepted write: who it names, the renewal time it records, and when it was accepted. */
  datatype LeaseWrite = LeaseWrite(holder: nat, renew: Option<int>, at: int)

  /** Where in an iteration an elector is; `at` is the clock reading the iteration started with. */
  datatype Phase =
    | Sleeping
    | Reading(at: int)
    | Replacing(at: int, version: nat)
    | Creating(at: int)

  datatype Elector = Elector(
    alive: bool, leader: bool, failures: nat, phase: Phase, recorded: int, startedAt: int, rounds: nat)

  const NEWCOMER := Elector(true, false, 0, Sleeping, 0, 0, 0)

  datatype State = State(now: int, log: seq<LeaseWrite>, electors: map<nat, Elector>)

  /**
   How an API call ends for its caller: as the server decided, or with an error; an error can hide a
   write that was accepted. `Api` errors have a status other than 404 and 409, others have none.
   */
  datatype Result = Plain | Api(accepted: bool) | Other(accepted: bool)

  datatype Step =
    | Tick(seconds: nat)
    | Start(elector: nat)
    | Read(elector: nat, result: Result)
    | Write(elector: nat, result: Result)
    | Crash(elector: nat)
  {
    function Seconds(): nat {
      if Tick? then seconds else 0
    }
  }

  function ElectorOf(s: State, e: nat): Elector {
    if e in s.electors then s.electors[e] else NEWCOMER
  }

  function Set(s: State, e: nat, x: Elector): State {
    s.(electors := s.electors[e := x])
  }

  function Holder(s: State): Option<nat> {
    if s.log == [] then None else Some(s.log[|s.log| - 1].holder)
  }

  function Ended(x: Elector): Elector {
    x.(phase := Sleeping, rounds := x.rounds + 1)
  }

  /** `_try_*` answered False. */
  function Refused(x: Elector): Elector {
    Ended(x.(leader := false))
  }

  /** The `except` clause of `run`. */
  function Failing(x: Elector): Elector {
    Ended(x.(failures := x.failures + 1, leader := x.leader && x.failures + 1 < MAX_FAILURES))
  }

  /** `_try_*` answered True. */
  function Won(x: Elector, at: int): Elector {
    Ended(x.(leader := true, failures := 0, recorded := at))
  }

  /** A renewal needs the lease to be mine; an acquisition needs it mine, expired, or never renewed. */
  predicate MayTake(duration: int, e: nat, leader: bool, at: int, lease: LeaseWrite) {
    lease.holder == e || (!leader && (lease.renew.None? || at - lease.renew.value >= duration))
  }

  function AfterRead(duration: int, s: State, e: nat, x: Elector, at: int, result: Result): Elector {
    match result
    case Api(_) => Failing(x)
    case Other(_) => Refused(x)
    case Plain =>
      if s.log == [] then if x.leader then Refused(x) else x.(phase := Creating(at))
      else if MayTake(duration, e, x.leader, at, s.log[|s.log| - 1]) then x.(phase := Replacing(at, |s.log| - 1))
      else Refused(x)
  }

  function Next(duration: int, s: State, step: Step): State {
    match step
    case Tick(d) => s.(now := s.now + d)
    case Start(e) =>
      var x := ElectorOf(s, e);
      if x.alive && x.phase.Sleeping? then Set(s, e, x.(phase := Reading(s.now), startedAt := s.now)) else s
    case Read(e, result) =>
      var x := ElectorOf(s, e);
      if x.alive && x.phase.Reading? then Set(s, e, AfterRead(duration, s, e, x, x.phase.at, result)) else s
    case Write(e, result) =>
      var x := ElectorOf(s, e);
      if x.phase.Replacing? || x.phase.Creating? then
        var at := x.phase.at;
        var fits := if x.phase.Replacing? then |s.log| == x.phase.version + 1 else s.log == [];
        var stored := if fits && (result.Plain? || result.accepted)
                      then s.(log := s.log + [LeaseWrite(e, Some(at), s.now)]) else s;
        Set(stored, e,
            if !x.alive then x.(phase := Sleeping)
            else match result
                 case Plain => if fits then Won(x, at) else Refused(x)
                 case Api(_) => Failing(x)
                 case Other(_) => Refused(x))
      else s
    case Crash(e) => Set(s, e, ElectorOf(s, e).(alive := false, leader := false))
  }

  function Run(duration: int, s: State, steps: seq<Step>): State {
    if steps == [] then s
    else Next(duration, Run(duration, s, steps[..|steps| - 1]), steps[|steps| - 1])
  }

  lemma RunAppended(duration: int, s: State, steps: seq<Step>, step: Step)
    ensures Run(duration, s, steps + [step]) == Next(duration, Run(duration, s, steps), step)
  {
    assert (steps + [step])[..|steps|] == steps;
  }

  // ---------------------------------------------------------------------- invariant

  /** A change of holder waits for the old holder's last recorded renewal to run out. */
  ghost predicate Patient(duration: int, log: seq<LeaseWrite>, i: nat)
    requires i < |log|
  {
    i > 0 && log[i].holder != log[i - 1].holder && log[i - 1].renew.Some? ==>
      log[i].at >= log[i - 1].renew.value + duration
  }

  ghost predicate LogOk(duration: int, s: State) {
    forall i: nat | i < |s.log| :: Patient(duration, s.log, i)
  }

  /** A believer holds the lease, unless its last recorded renewal has run out. */
  ghost predicate Grounded(duration: int, s: State, e: nat, x: Elector) {
    x.leader ==>
      && s.log != []
      && var last := s.log[|s.log| - 1];
         || (last.holder == e && last.renew.Some? && x.recorded <= last.renew.value)
         || s.now >= x.recorded + duration
  }

  ghost predicate ElectorOk(duration: int, s: State, e: nat, x: Elector) {
    && Grounded(duration, s, e, x)
    && (x.leader ==> x.alive && x.failures < MAX_FAILURES && x.recorded <= x.startedAt)
    && (x.phase.Replacing? ==>
          x.phase.version < |s.log| && MayTake(duration, e, x.leader, x.phase.at, s.log[x.phase.version]))
    && (!x.phase.Sleeping? ==> x.phase.at == x.startedAt)
    && (x.startedAt <= s.now || (!x.leader && x.phase.Sleeping?))
    && (x.phase.Creating? ==> !x.leader)
  }

  ghost predicate Inv(duration: int, s: State) {
    LogOk(duration, s) && forall e | e in s.electors :: ElectorOk(duration, s, e, s.electors[e])
  }

  /** The lease as it is found at the start, written by an earlier run or not there at all. */
  predicate Initial(s: State) {
    |s.log| <= 1 && s.electors == map[]
  }

  lemma InitialOk(duration: int, s: State)
    requires Initial(s)
    ensures Inv(duration, s)
  {
  }

  lemma BystanderOk(duration: int, s: State, n: State, e: nat, x: Elector)
    requires ElectorOk(duration, s, e, x) && s.log <= n.log && s.now <= n.now && |n.log| <= |s.log| + 1
    requires |s.log| < |n.log| && s.log != [] && s.log[|s.log| - 1].holder == e
             && s.log[|s.log| - 1].renew.Some? ==>
               n.now >= s.log[|s.log| - 1].renew.value + duration
    ensures ElectorOk(duration, n, e, x)
  {
    if x.phase.Replacing? {
      assert n.log[x.phase.version] == s.log[x.phase.version];
    }
  }

  lemma WriteKeepsInv(duration: int, s: State, e: nat, result: Result)
    requires Inv(duration, s)
    ensures Inv(duration, Next(duration, s, Write(e, result)))
  {
    hide LogOk;
    var n := Next(duration, s, Write(e, result));
    var x := ElectorOf(s, e);
    if x.phase.Replacing? || x.phase.Creating? {
      assert ElectorOk(duration, s, e, x);
      forall f | f in n.electors ensures ElectorOk(duration, n, f, n.electors[f]) {
        if f != e {
          assert ElectorOk(duration, s, f, s.electors[f]);
          BystanderOk(duration, s, n, f, s.electors[f]);
        }
      }
      WriteKeepsLog(duration, s, e, result);
    }
  }

  lemma WriteKeepsLog(duration: int, s: State, e: nat, result: Result)
    requires Inv(duration, s)
    ensures LogOk(duration, Next(duration, s, Write(e, result)))
  {
    var n := Next(duration, s, Write(e, result));
    var x := ElectorOf(s, e);
    if n.log != s.log {
      assert ElectorOk(duration, s, e, x);
      forall i: nat | i < |n.log| ensures Patient(duration, n.log, i) {
        if i < |s.log| {
          assert Patient(duration, s.log, i);
        }
      }
    }
  }

  lemma NextKeepsInv(duration: int, s: State, step: Step)
    requires Inv(duration, s)
    ensures Inv(duration, Next(duration, s, step))
  {
    if step.Write? {
      WriteKeepsInv(duration, s, step.elector, step.result);
    } else {
      hide ElectorOk;
      var n := Next(duration, s, step);
      forall i: nat | i < |n.log| ensures Patient(duration, n.log, i) {
        assert Patient(duration, s.log, i);
      }
      forall f | f in n.electors ensures ElectorOk(duration, n, f, n.electors[f]) {
        if f in s.electors {
          assert ElectorOk(duration, s, f, s.electors[f]);
        }
        OneStaysOk(duration, s, step, f);
      }
    }
  }

  lemma OneStaysOk(duration: int, s: State, step: Step, f: nat)
    requires !step.Write? && f in Next(duration, s, step).electors
    requires f in s.electors ==> ElectorOk(duration, s, f, s.electors[f])
    ensures ElectorOk(duration, Next(duration, s, step), f, Next(duration, s, step).electors[f])
  {
  }

  lemma {:induction false} RunKeepsInv(duration: int, s: State, steps: seq<Step>)
    requires Inv(duration, s)
    ensures Inv(duration, Run(duration, s, steps))
  {
    hide Next, Inv;
    if steps != [] {
      RunKeepsInv(duration, s, steps[..|steps| - 1]);
      NextKeepsInv(duration, Run(duration, s, steps[..|steps| - 1]), steps[|steps| - 1]);
    }
  }

  // ---------------------------------------------------------------------- takeovers

  /**
   In every run, whoever takes the lease from another holder is let in no earlier than one lease
   duration after the last renewal that holder had recorded.
   */
  lemma TakeoversWait(duration: int, init: State, steps: seq<Step>, i: nat)
    requires |init.log| <= 1 && init.electors == map[] && 0 < i < |Run(duration, init, steps).log|
    ensures var log := Run(duration, init, steps).log;
            log[i].holder != log[i - 1].holder && log[i - 1].renew.Some? ==>
              log[i].at >= log[i - 1].renew.value + duration
  {
    InitialOk(duration, init);
    RunKeepsInv(duration, init, steps);
    assert Patient(duration, Run(duration, init, steps).log, i);
  }

  // ---------------------------------------------------------------------- belief against truth

  /** `e` believes it leads, but somebody else holds the lease. */
  predicate Deluded(s: State, e: nat) {
    ElectorOf(s, e).leader && Holder(s) != Some(e)
  }

  /** Each iteration of a deluded elector that does not end the delusion is one more failure. */
  lemma DeludedStep(duration: int, s: State, step: Step, e: nat)
    requires Inv(duration, s) && Deluded(s, e)
    ensures var n := Next(duration, s, step);
            && (forall i | |s.log| <= i < |n.log| :: n.log[i].holder != e)
            && (ElectorOf(n, e).leader ==>
                  && Deluded(n, e)
                  && ElectorOf(n, e).rounds - ElectorOf(s, e).rounds
                       == ElectorOf(n, e).failures - ElectorOf(s, e).failures)
  {
    assert ElectorOk(duration, s, e, ElectorOf(s, e));
  }

  /**
   Bounded divergence: an elector that believes it leads but is no longer the holder never renews
   again, and it has stepped down by the end of its third further iteration, whatever everybody does.
   */
  lemma {:induction false} DelusionEnds(duration: int, s: State, steps: seq<Step>, e: nat)
    requires Inv(duration, s) && Deluded(s, e)
    requires forall k | 0 <= k <= |steps| :: ElectorOf(Run(duration, s, steps[..k]), e).leader
    ensures var n := Run(duration, s, steps);
            && Deluded(n, e)
            && ElectorOf(n, e).rounds - ElectorOf(s, e).rounds == ElectorOf(n, e).failures - ElectorOf(s, e).failures
            && ElectorOf(n, e).rounds < ElectorOf(s, e).rounds + 3
  {
    hide Next;
    RunKeepsInv(duration, s, steps);
    assert steps[..|steps|] == steps;
    if steps != [] {
      var before := steps[..|steps| - 1];
      forall k | 0 <= k <= |before| ensures ElectorOf(Run(duration, s, before[..k]), e).leader {
        assert before[..k] == steps[..k];
      }
      DelusionEnds(duration, s, before, e);
      RunKeepsInv(duration, s, before);
      DeludedStep(duration, Run(duration, s, before), steps[|steps| - 1], e);
    }
    assert ElectorOk(duration, Run(duration, s, steps), e, ElectorOf(Run(duration, s, steps), e));
    assert ElectorOk(duration, s, e, ElectorOf(s, e));
  }

  // ---------------------------------------------------------------------- when an iteration succeeds

  function Undisturbed(e: nat): seq<Step> {
    [Start(e)] + [Read(e, Plain)] + [Write(e, Plain)]
  }

  lemma UndisturbedIs(duration: int, s: State, e: nat)
    ensures Run(duration, s, Undisturbed(e))
            == Next(duration, Next(duration, Next(duration, s, Start(e)), Read(e, Plain)), Write(e, Plain))
  {
    hide Next;
    assert [Start(e)] == [] + [Start(e)];
    RunAppended(duration, s, [], Start(e));
    RunAppended(duration, s, [Start(e)], Read(e, Plain));
    RunAppended(duration, s, [Start(e)] + [Read(e, Plain)], Write(e, Plain));
  }

  /**
   Nobody else in between and no error: an iteration makes a leader exactly if there is no lease or it is the
   elector's own, and a newcomer also exactly if the lease was never renewed or its duration is over. It then
   holds a lease renewed now; otherwise the lease is as before.
   */
  lemma LeadsIff(duration: int, s: State, e: nat)
    requires Inv(duration, s) && ElectorOf(s, e).alive && ElectorOf(s, e).phase.Sleeping?
    ensures var n, last := Run(duration, s, Undisturbed(e)), if s.log == [] then None else Some(s.log[|s.log| - 1]);
            && (ElectorOf(n, e).leader <==>
                  if ElectorOf(s, e).leader then last.Some? && last.value.holder == e
                  else last.None? || last.value.holder == e || last.value.renew.None?
                       || s.now >= last.value.renew.value + duration)
            && (ElectorOf(n, e).leader ==> n.log == s.log + [LeaseWrite(e, Some(s.now), s.now)])
            && (if ElectorOf(n, e).leader then ElectorOf(n, e).failures == 0 else n.log == s.log)
  {
    UndisturbedIs(duration, s, e);
    hide Run, Inv, Undisturbed;
  }

  // ---------------------------------------------------------------------- one leader

  /** In an iteration, or between two as a believer: the next step of this elector is due. */
  predicate Due(x: Elector) {
    x.alive && (x.leader || !x.phase.Sleeping?)
  }

  /** The clock does not pass the bound on one iteration, its sleep included. */
  predicate Punctual(bound: nat, s: State, step: Step) {
    step.Tick? ==>
      forall e | e in s.electors && Due(s.electors[e]) :: s.now + step.seconds <= s.electors[e].startedAt + bound
  }

  /** Nothing but a tick binds the clock, and of the electors only a leader, or one in an iteration, while it runs. */
  lemma OnlyTheBusyBindTheClock(bound: nat, s: State, step: Step)
    ensures !step.Tick? ==> Punctual(bound, s, step)
    ensures (forall e | e in s.electors ::
               var x := s.electors[e];
               !x.alive || (!x.leader && x.phase.Sleeping?) || s.now + step.Seconds() <= x.startedAt + bound) ==>
              Punctual(bound, s, step)
  {
  }

  ghost predicate PunctualRun(duration: int, bound: nat, s: State, steps: seq<Step>) {
    steps == [] ||
    (PunctualRun(duration, bound, s, steps[..|steps| - 1])
     && Punctual(bound, Run(duration, s, steps[..|steps| - 1]), steps[|steps| - 1]))
  }

  /** How far a believer's renewal can be behind the clock. */
  ghost predicate Fresh(bound: nat, s: State, x: Elector) {
    && (Due(x) ==> s.now <= x.startedAt + bound)
    && (x.leader ==> x.startedAt <= x.recorded + bound * (if x.phase.Sleeping? then x.failures else x.failures + 1))
  }

  ghost predicate AllFresh(bound: nat, s: State) {
    forall e | e in s.electors :: Fresh(bound, s, s.electors[e])
  }

  lemma NextKeepsFresh(duration: int, bound: nat, s: State, step: Step)
    requires Inv(duration, s) && AllFresh(bound, s) && Punctual(bound, s, step)
    ensures AllFresh(bound, Next(duration, s, step))
  {
    var n := Next(duration, s, step);
    forall e | e in n.electors ensures Fresh(bound, n, n.electors[e]) {
      if e in s.electors {
        assert Fresh(bound, s, s.electors[e]);
        assert ElectorOk(duration, s, e, s.electors[e]);
      }
      StaysFresh(duration, bound, s, step, e);
    }
    hide *;
  }

  lemma StaysFresh(duration: int, bound: nat, s: State, step: Step, e: nat)
    requires Punctual(bound, s, step) && e in Next(duration, s, step).electors
    requires e in s.electors ==> Fresh(bound, s, s.electors[e]) && ElectorOk(duration, s, e, s.electors[e])
    ensures Fresh(bound, Next(duration, s, step), Next(duration, s, step).electors[e])
  {
  }

  lemma {:induction false} RunKeepsFresh(duration: int, bound: nat, s: State, steps: seq<Step>)
    requires Inv(duration, s) && AllFresh(bound, s) && PunctualRun(duration, bound, s, steps)
    ensures AllFresh(bound, Run(duration, s, steps))
  {
    hide Next, Inv, AllFresh;
    if steps != [] {
      RunKeepsFresh(duration, bound, s, steps[..|steps| - 1]);
      RunKeepsInv(duration, s, steps[..|steps| - 1]);
      NextKeepsFresh(duration, bound, Run(duration, s, steps[..|steps| - 1]), steps[|steps| - 1]);
    }
  }

  /**
   At most one leader: when no iteration, its sleep included, takes as long as a quarter of the lease
   duration, every elector that believes it leads holds the lease, so two believers are one.
   */
  lemma OneLeader(duration: int, bound: nat, init: State, steps: seq<Step>, e: nat, f: nat)
    requires |init.log| <= 1 && init.electors == map[]
    requires 4 * bound < duration && PunctualRun(duration, bound, init, steps)
    requires ElectorOf(Run(duration, init, steps), e).leader && ElectorOf(Run(duration, init, steps), f).leader
    ensures e == f && Holder(Run(duration, init, steps)) == Some(e)
  {
    InitialOk(duration, init);
    RunKeepsInv(duration, init, steps);
    RunKeepsFresh(duration, bound, init, steps);
    BelieverHolds(duration, bound, Run(duration, init, steps), e);
    BelieverHolds(duration, bound, Run(duration, init, steps), f);
  }

  lemma BelieverHolds(duration: int, bound: nat, s: State, e: nat)
    requires Inv(duration, s) && AllFresh(bound, s) && 4 * bound < duration && ElectorOf(s, e).leader
    ensures Holder(s) == Some(e)
  {
    var x := ElectorOf(s, e);
    assert ElectorOk(duration, s, e, x) && Fresh(bound, s, x);
    var behind := if x.phase.Sleeping? then x.failures else x.failures + 1;
    assert bound * behind <= bound * 3;
  }

  /**
   And the quarter is exact: with any longer bound on an iteration there is a punctual run in which two
   electors believe they lead, one of them on its third strike.
   */
  lemma QuarterIsExact(duration: int, bound: nat) returns (steps: seq<Step>)
    requires 0 < duration <= 4 * bound
    ensures PunctualRun(duration, bound, State(0, [], map[]), steps)
    ensures ElectorOf(Run(duration, State(0, [], map[]), steps), 0).leader
    ensures ElectorOf(Run(duration, State(0, [], map[]), steps), 1).leader
  {
    hide Run, PunctualRun;
    var t3 := WonAtZero(duration, bound);
    var s4, t4 := FailOnce(duration, bound, t3, 0, 0, 1);
    var s5, t5 := FailOnce(duration, bound, t4, bound, 1, 2);
    steps := TakenOver(duration, bound, t5);
  }

  lemma WonAtZero(duration: int, bound: nat) returns (steps: seq<Step>)
    ensures Run(duration, State(0, [], map[]), steps) == Alone(0, 0, 1)
    ensures PunctualRun(duration, bound, State(0, [], map[]), steps)
  {
    var s0 := State(0, [], map[]);
    NoSteps(duration, bound, s0);
    hide Run, PunctualRun;
    var s1, t1 := Extend(duration, bound, s0, s0, [], Start(0));
    var s2, t2 := Extend(duration, bound, s0, s1, t1, Read(0, Plain));
    var s3, t3 := Extend(duration, bound, s0, s2, t2, Write(0, Plain));
    assert s3.electors == Alone(0, 0, 1).electors;
    steps := t3;
  }

  lemma NoSteps(duration: int, bound: nat, s: State)
    ensures Run(duration, s, []) == s && PunctualRun(duration, bound, s, [])
  {
  }

  /** Elector 0 won at time 0 and has failed `failures` times since, the last time starting at `now`. */
  function Alone(now: int, failures: nat, rounds: nat): State {
    State(now, [LeaseWrite(0, Some(0), 0)], map[0 := Elector(true, true, failures, Sleeping, 0, now, rounds)])
  }

  lemma FailOnce(duration: int, bound: nat, sofar: seq<Step>, now: int, failures: nat, rounds: nat)
    returns (n: State, steps: seq<Step>)
    requires failures + 1 < MAX_FAILURES
    requires PunctualRun(duration, bound, State(0, [], map[]), sofar)
    requires Run(duration, State(0, [], map[]), sofar) == Alone(now, failures, rounds)
    ensures n == Run(duration, State(0, [], map[]), steps) == Alone(now + bound, failures + 1, rounds + 1)
    ensures PunctualRun(duration, bound, State(0, [], map[]), steps)
  {
    hide Run, PunctualRun;
    var s0 := State(0, [], map[]);
    var s1, t1 := Extend(duration, bound, s0, Alone(now, failures, rounds), sofar, Tick(bound));
    var s2, t2 := Extend(duration, bound, s0, s1, t1, Start(0));
    n, steps := Extend(duration, bound, s0, s2, t2, Read(0, Api(false)));
    assert n.electors == Alone(now + bound, failures + 1, rounds + 1).electors;
  }

  lemma TakenOver(duration: int, bound: nat, sofar: seq<Step>) returns (steps: seq<Step>)
    requires 0 < duration <= 4 * bound
    requires PunctualRun(duration, bound, State(0, [], map[]), sofar)
    requires Run(duration, State(0, [], map[]), sofar) == Alone(2 * bound, 2, 3)
    ensures PunctualRun(duration, bound, State(0, [], map[]), steps)
    ensures ElectorOf(Run(duration, State(0, [], map[]), steps), 0).leader
    ensures ElectorOf(Run(duration, State(0, [], map[]), steps), 1).leader
  {
    hide Run, PunctualRun;
    var s0 := State(0, [], map[]);
    var wait: nat := if duration > 3 * bound then duration - 3 * bound else 0;
    var s1, t1 := Extend(duration, bound, s0, Alone(2 * bound, 2, 3), sofar, Tick(bound));
    var s2, t2 := Extend(duration, bound, s0, s1, t1, Start(0));
    var s3, t3 := Extend(duration, bound, s0, s2, t2, Tick(wait));
    var s4, t4 := Extend(duration, bound, s0, s3, t3, Start(1));
    var s5, t5 := Extend(duration, bound, s0, s4, t4, Read(1, Plain));
    assert s5.electors[1].phase == Replacing(3 * bound + wait, 0);
    var s6, t6 := Extend(duration, bound, s0, s5, t5, Write(1, Plain));
    steps := t6;
  }

  lemma Extend(duration: int, bound: nat, s0: State, s: State, sofar: seq<Step>, step: Step)
    returns (n: State, steps: seq<Step>)
    requires s == Run(duration, s0, sofar) && PunctualRun(duration, bound, s0, sofar) && Punctual(bound, s, step)
    ensures n == Next(duration, s, step) == Run(duration, s0, steps)
    ensures PunctualRun(duration, bound, s0, steps)
  {
    hide Next;
    steps := sofar + [step];
    assert steps[..|steps| - 1] == sofar;
    RunAppended(duration, s0, sofar, step);
    n := Next(duration, s, step);
  }
}

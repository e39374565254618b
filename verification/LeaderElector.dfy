/**
 `LeaderElector` (api/leader_election.py): the object with its belief and its failure count, its two
 lease operations and its loop, run against a lease other electors also work on.
 */
module LeaderElector {
  import opened Outcomes
  import opened LeaseProtocol

  method AnyStep() returns (step: Step) {
    step := *;
  }

  method AnyResult() returns (result: Result) {
    result := *;
  }

  lemma OtherStepKeepsMine(duration: int, s: State, step: Step, me: nat)
    requires step.Tick? || step.elector != me
    ensures ElectorOf(Next(duration, s, step), me) == ElectorOf(s, me)
    ensures s.now <= Next(duration, s, step).now && s.log <= Next(duration, s, step).log
  {
  }

  /** The store calls of one elector, in order. */
  ghost function Own(steps: seq<Step>, me: nat): seq<Step> {
    if steps == [] then []
    else
      var before, last := Own(steps[..|steps| - 1], me), steps[|steps| - 1];
      if !last.Tick? && last.elector == me then before + [last] else before
  }

  lemma OwnAppended(steps: seq<Step>, step: Step, me: nat)
    ensures Own(steps + [step], me)
            == if !step.Tick? && step.elector == me then Own(steps, me) + [step] else Own(steps, me)
  {
    assert (steps + [step])[..|steps|] == steps;
  }

  /** The lease, the clock, and all electors. */
  class SharedLease {
    const duration: int
    var sys: State

    constructor (duration: int, init: State)
      requires Initial(init)
      ensures this.duration == duration && sys == init && Inv(duration, sys)
    {
      this.duration := duration;
      sys := init;
      InitialOk(duration, init);
    }

    /** Time passes and the other electors do anything. */
    method OthersRun(me: nat, ghost start: State, ghost sofar: seq<Step>) returns (ghost trace: seq<Step>)
      requires Inv(duration, sys) && sys == Run(duration, start, sofar)
      modifies this
      ensures Inv(duration, sys) && sys == Run(duration, start, trace) && Own(trace, me) == Own(sofar, me)
      ensures ElectorOf(sys, me) == ElectorOf(old(sys), me)
      ensures old(sys).now <= sys.now && old(sys).log <= sys.log
    {
      hide Next, Inv, Run, Own;
      trace := sofar;
      var more: nat := *;
      while more > 0
        invariant Inv(duration, sys) && sys == Run(duration, start, trace) && Own(trace, me) == Own(sofar, me)
        invariant ElectorOf(sys, me) == ElectorOf(old(sys), me)
        invariant old(sys).now <= sys.now && old(sys).log <= sys.log
      {
        var step := AnyStep();
        if step.Tick? || step.elector != me {
          OtherStepKeepsMine(duration, sys, step, me);
          OwnAppended(trace, step, me);
          trace := Take(step, start, trace);
        }
        more := more - 1;
      }
    }

    method Take(step: Step, ghost start: State, ghost sofar: seq<Step>) returns (ghost trace: seq<Step>)
      requires Inv(duration, sys) && sys == Run(duration, start, sofar)
      modifies this
      ensures Inv(duration, sys) && sys == Next(duration, old(sys), step)
      ensures sys == Run(duration, start, trace) && trace == sofar + [step]
      ensures !step.Tick? ==> Own(trace, step.elector) == Own(sofar, step.elector) + [step]
    {
      hide Next, Inv, Run, Own;
      if !step.Tick? {
        OwnAppended(sofar, step, step.elector);
      }
      NextKeepsInv(duration, sys, step);
      RunAppended(duration, start, sofar, step);
      trace := sofar + [step];
      sys := Next(duration, sys, step);
    }
  }

  /** How `_try_acquire_lease` and `_try_renew_lease` end. */
  datatype Attempt = True | False | Raises

  /** A store call that failed with an error that carries no status. */
  predicate Statusless(read: Result, written: Option<Result>) {
    read.Other? || (written.Some? && written.value.Other?)
  }

  /** A store call that failed with a status other than not found and conflict. */
  predicate ApiError(read: Result, written: Option<Result>) {
    read.Api? || (written.Some? && written.value.Api?)
  }

  predicate EndedWith(step: Step, api: bool) {
    (step.Read? || step.Write?) && if api then step.result.Api? else step.result.Other?
  }

  /** One of these store calls failed, with a status or without. */
  ghost predicate SomeFailed(steps: seq<Step>, api: bool) {
    exists i :: 0 <= i < |steps| && EndedWith(steps[i], api)
  }

  /** The own steps of one iteration, and which failures are among them. */
  lemma CallSteps(before: seq<Step>, me: nat, read: Result, written: Option<Result>) returns (mine: seq<Step>)
    ensures mine == [Start(me), Read(me, read)] + if written.Some? then [Write(me, written.value)] else []
    ensures before + [Start(me)] + [Read(me, read)] + (if written.Some? then [Write(me, written.value)] else [])
            == before + mine
    ensures SomeFailed(mine, false) <==> Statusless(read, written)
    ensures SomeFailed(mine, true) <==> ApiError(read, written)
  {
    mine := [Start(me), Read(me, read)] + if written.Some? then [Write(me, written.value)] else [];
    assert EndedWith(mine[1], false) <==> read.Other?;
    assert EndedWith(mine[1], true) <==> read.Api?;
    if written.Some? {
      assert EndedWith(mine[2], false) <==> written.value.Other?;
      assert EndedWith(mine[2], true) <==> written.value.Api?;
    }
  }

  class LeaderElector {
    const lease: SharedLease
    const identity: nat
    var isLeader: bool
    var consecutiveFailures: nat

    /** Between iterations the fields are what the protocol says of this elector. */
    ghost predicate Valid()
      reads this, lease
    {
      var x := ElectorOf(lease.sys, identity);
      && Inv(lease.duration, lease.sys) && x.alive && x.phase.Sleeping?
      && x.leader == isLeader && x.failures == consecutiveFailures
    }

    constructor (lease: SharedLease, identity: nat)
      requires Inv(lease.duration, lease.sys) && identity !in lease.sys.electors
      ensures Valid() && this.lease == lease && this.identity == identity && !isLeader
    {
      this.lease, this.identity := lease, identity;
      isLeader, consecutiveFailures := false, 0;
    }

    /** What an attempt leaves behind: the belief it settles, and the failure count it resets or lets grow. */
    ghost predicate Settled(before: Elector, result: Attempt)
      reads this, lease
    {
      var x := ElectorOf(lease.sys, identity);
      && x.alive && x.phase.Sleeping? && x.rounds == before.rounds + 1
      && match result
         case True => x.leader && x.failures == 0 == consecutiveFailures && x.recorded == before.startedAt
         case False => !x.leader && x.failures == before.failures == consecutiveFailures
         case Raises =>
           x.failures == before.failures + 1 == consecutiveFailures + 1
           && x.leader == (before.leader && x.failures < MAX_FAILURES)
    }

    ghost predicate Began(x: Elector)
      reads this
    {
      x.alive && x.phase == Reading(x.startedAt) && x.leader == isLeader && x.failures == consecutiveFailures
    }

    /**
     `_try_renew_lease`. `read` and `written` are how its store calls ended, and `found` are the writes there
     were at the read. It writes exactly if the read went through and found its own name in the lease. True: the
     write went through too, and nobody wrote since the read. It raises exactly for an error with a status; a
     foreign lease, a conflict, and any error without a status are False.
     */
    method TryRenewLease(ghost start: State, ghost sofar: seq<Step>)
      returns (result: Attempt, ghost read: Result, ghost found: seq<LeaseWrite>, ghost written: Option<Result>,
               ghost trace: seq<Step>)
      requires Inv(lease.duration, lease.sys) && lease.sys == Run(lease.duration, start, sofar)
      requires isLeader && Began(ElectorOf(lease.sys, identity))
      modifies this`consecutiveFailures, lease
      ensures Inv(lease.duration, lease.sys) && lease.sys == Run(lease.duration, start, trace)
      ensures Settled(ElectorOf(old(lease.sys), identity), result)
      ensures Own(trace, identity)
              == Own(sofar, identity) + [Read(identity, read)]
                 + if written.Some? then [Write(identity, written.value)] else []
      ensures old(lease.sys).log <= found <= lease.sys.log
      ensures written.Some? <==> read.Plain? && found != [] && found[|found| - 1].holder == identity
      ensures Statusless(read, written) ==> result.False?
      ensures result.Raises? <==> ApiError(read, written)
      ensures result.True? ==>
                && written == Some(Plain)
                && lease.sys.log
                   == found + [LeaseWrite(identity, Some(ElectorOf(old(lease.sys), identity).startedAt), lease.sys.now)]
      ensures result.False? && written == Some(Plain) ==> lease.sys.log != found   // somebody wrote in between
    {
      hide Inv, Run, Own;
      ghost var before := ElectorOf(lease.sys, identity);
      trace := lease.OthersRun(identity, start, sofar);
      var got := AnyResult();
      var log := lease.sys.log;
      read, found, written := got, log, None;
      trace := lease.Take(Read(identity, got), start, trace);
      if got.Api? {
        return Raises, read, found, written, trace;
      }
      if got.Other? {
        return False, read, found, written, trace;
      }
      if log == [] || log[|log| - 1].holder != identity {
        return False, read, found, written, trace;
      }
      assert ElectorOf(lease.sys, identity).phase == Replacing(before.startedAt, |log| - 1);
      trace := lease.OthersRun(identity, start, trace);
      var put := AnyResult();
      written := Some(put);
      var fits := |lease.sys.log| == |log|;
      trace := lease.Take(Write(identity, put), start, trace);
      if put.Api? {
        return Raises, read, found, written, trace;
      }
      if put.Other? || !fits {
        return False, read, found, written, trace;
      }
      consecutiveFailures := 0;
      result := True;
    }

    /**
     `_try_acquire_lease`. It writes exactly if the read went through and found no lease, its own, one never
     renewed, or one a whole duration past its renewal by this elector's clock reading. True: the write went
     through too, and nobody wrote since the read; exactly an error with a status raises.
     */
    method TryAcquireLease(ghost start: State, ghost sofar: seq<Step>)
      returns (result: Attempt, ghost read: Result, ghost found: seq<LeaseWrite>, ghost written: Option<Result>,
               ghost trace: seq<Step>)
      requires Inv(lease.duration, lease.sys) && lease.sys == Run(lease.duration, start, sofar)
      requires !isLeader && Began(ElectorOf(lease.sys, identity))
      modifies this`consecutiveFailures, lease
      ensures Inv(lease.duration, lease.sys) && lease.sys == Run(lease.duration, start, trace)
      ensures Settled(ElectorOf(old(lease.sys), identity), result)
      ensures Own(trace, identity)
              == Own(sofar, identity) + [Read(identity, read)]
                 + if written.Some? then [Write(identity, written.value)] else []
      ensures old(lease.sys).log <= found <= lease.sys.log
      ensures written.Some? <==>
                && read.Plain?
                && (found == [] ||
                    var last, at := found[|found| - 1], ElectorOf(old(lease.sys), identity).startedAt;
                    last.holder == identity || last.renew.None? || last.renew.value + lease.duration <= at)
      ensures Statusless(read, written) ==> result.False?
      ensures result.Raises? <==> ApiError(read, written)
      ensures result.True? ==>
                && written == Some(Plain)
                && lease.sys.log
                   == found + [LeaseWrite(identity, Some(ElectorOf(old(lease.sys), identity).startedAt), lease.sys.now)]
      ensures result.False? && written == Some(Plain) ==> lease.sys.log != found   // somebody wrote in between
    {
      hide Inv, Run, Own;
      ghost var before := ElectorOf(lease.sys, identity);
      var at := ElectorOf(lease.sys, identity).startedAt;
      trace := lease.OthersRun(identity, start, sofar);
      var got := AnyResult();
      var log := lease.sys.log;
      read, found, written := got, log, None;
      trace := lease.Take(Read(identity, got), start, trace);
      if got.Api? {
        return Raises, read, found, written, trace;
      }
      if got.Other? {
        return False, read, found, written, trace;
      }
      if log != [] {
        var current := log[|log| - 1];
        if current.renew.Some? && at - current.renew.value < lease.duration && current.holder != identity {
          return False, read, found, written, trace;
        }
      }
      trace := lease.OthersRun(identity, start, trace);
      var put := AnyResult();
      written := Some(put);
      var fits := |lease.sys.log| == |log|;
      trace := lease.Take(Write(identity, put), start, trace);
      if put.Api? {
        return Raises, read, found, written, trace;
      }
      if put.Other? || !fits {
        return False, read, found, written, trace;
      }
      consecutiveFailures := 0;
      result := True;
    }

    /**
     One turn of the loop in `run`, without the sleep; `mine` are the elector's own steps in it. An error that
     has no status ends leadership at once; one that has is counted, and ends it at the third in a row. Without
     either, whoever leads has just written the lease, and has no failure to its name.
     */
    method Iterate(ghost start: State, ghost sofar: seq<Step>)
      returns (ghost mine: seq<Step>, ghost trace: seq<Step>)
      requires Valid() && lease.sys == Run(lease.duration, start, sofar)
      modifies this, lease
      ensures Valid() && lease.sys == Run(lease.duration, start, trace)
      ensures ElectorOf(lease.sys, identity).rounds == ElectorOf(old(lease.sys), identity).rounds + 1
      ensures Own(trace, identity) == Own(sofar, identity) + mine
      ensures SomeFailed(mine, false) ==> !isLeader && consecutiveFailures == old(consecutiveFailures)
      ensures SomeFailed(mine, true) ==>
                && consecutiveFailures == old(consecutiveFailures) + 1
                && (isLeader <==> old(isLeader) && consecutiveFailures < 3)
      ensures !SomeFailed(mine, true) ==>
                && consecutiveFailures == (if isLeader then 0 else old(consecutiveFailures))
                && (isLeader ==> lease.sys.log != [] && lease.sys.log[|lease.sys.log| - 1].holder == identity)
    {
      hide Inv, Run, Own;
      trace := lease.Take(Start(identity), start, sofar);
      var result;
      ghost var read, found, written;
      if isLeader {
        result, read, found, written, trace := TryRenewLease(start, trace);
        if result.False? {
          isLeader := false;
        }
      } else {
        result, read, found, written, trace := TryAcquireLease(start, trace);
        if result.True? {
          isLeader := true;
        }
      }
      mine := CallSteps(Own(sofar, identity), identity, read, written);
      if result.Raises? {
        consecutiveFailures := consecutiveFailures + 1;
        if isLeader && consecutiveFailures >= MAX_FAILURES {
          isLeader := false;
        }
      }
    }

    /** `run`, until it is stopped after some number of turns. */
    method RunLoop(turns: nat) returns (ghost trace: seq<Step>)
      requires Valid()
      modifies this, lease
      ensures Valid() && lease.sys == Run(lease.duration, old(lease.sys), trace)
      ensures ElectorOf(lease.sys, identity).rounds == ElectorOf(old(lease.sys), identity).rounds + turns
    {
      hide Inv;
      trace := [];
      for turn := 0 to turns
        invariant Valid() && lease.sys == Run(lease.duration, old(lease.sys), trace)
        invariant ElectorOf(lease.sys, identity).rounds == ElectorOf(old(lease.sys), identity).rounds + turn
      {
        ghost var mine;
        mine, trace := Iterate(old(lease.sys), trace);
        trace := lease.OthersRun(identity, old(lease.sys), trace);
      }
    }
  }
}

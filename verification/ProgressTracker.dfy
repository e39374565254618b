/**
 `ProgressTracker` itself (api/progress_tracker.py): an object with a current etag, its save loop and
 its four public updates, run against a document that other trackers change between any two calls.

 Each method returns, as a ghost trace, the protocol run it took part in, so everything
 proved of all runs in ProgressProtocol holds of the code.
 */
module ProgressTracker {
  import opened Outcomes
  import opened ProgressDocument
  import opened ProgressProtocol

  datatype Outcome = Saved | Exhausted | StoreError

  datatype Reply = Acked(etag: nat) | Refused | Failed

  ghost predicate OnlyOthers(steps: seq<Step>, me: nat) {
    forall i | 0 <= i < |steps| :: steps[i].tracker != me
  }

  /** How many conditional writes of this tracker are among the steps. */
  ghost function Tries(steps: seq<Step>, me: nat): nat {
    if steps == [] then 0
    else
      var last := steps[|steps| - 1];
      Tries(steps[..|steps| - 1], me) + if last.Write? && last.tracker == me then 1 else 0
  }

  lemma TriesAppended(steps: seq<Step>, step: Step, me: nat)
    ensures Tries(steps + [step], me) == Tries(steps, me) + if step.Write? && step.tracker == me then 1 else 0
  {
    assert (steps + [step])[..|steps|] == steps;
  }

  lemma {:induction false} OthersDoNotTry(steps: seq<Step>, others: seq<Step>, me: nat)
    requires OnlyOthers(others, me)
    ensures Tries(steps + others, me) == Tries(steps, me)
  {
    if others == [] {
      assert steps + others == steps;
    } else {
      var front, last := others[..|others| - 1], others[|others| - 1];
      OthersDoNotTry(steps, front, me);
      assert steps + others == steps + front + [last];
      TriesAppended(steps + front, last, me);
    }
  }

  lemma {:induction false} TriesJoined(first: seq<Step>, second: seq<Step>, me: nat)
    ensures Tries(first + second, me) == Tries(first, me) + Tries(second, me)
  {
    if second == [] {
      assert first + second == first;
    } else {
      var front, last := second[..|second| - 1], second[|second| - 1];
      TriesJoined(first, front, me);
      assert first + second == first + front + [last];
      TriesAppended(first + front, last, me);
    }
  }

  lemma CommitsBounded(s: State, call: nat)
    requires Inv(s) && call < |s.calls|
    ensures Commits(s.log, call) <= MAX_ROUNDS
  {
    hide Chained, PhasesOk, Separate, Commits;
  }

  /** What the steps of other trackers leave alone. */
  ghost predicate Undisturbed(s: State, n: State, me: nat) {
    && PhaseOf(n, me) == PhaseOf(s, me)
    && s.log <= n.log && |s.calls| <= |n.calls|
    && (forall k | 0 <= k < |s.calls| :: n.calls[k].op == s.calls[k].op)
    && (var p := PhaseOf(s, me); !p.Idle? && p.call < |s.calls| ==> n.calls[p.call] == s.calls[p.call])
  }

  lemma OtherStepUndisturbed(s: State, step: Step, me: nat)
    requires Inv(s) && step.tracker != me
    ensures Undisturbed(s, Next(s, step), me)
  {
    hide Applied, Commits, Linked;
    if step.Write? && PhaseOf(s, step.tracker).Writing? {
      assert PhaseOk(s, s.trackers[step.tracker]);
      if me in s.trackers {
        assert PhaseOk(s, s.trackers[me]);
      }
    }
  }

  lemma {:induction false} OthersUndisturbed(s: State, steps: seq<Step>, me: nat)
    requires Inv(s) && OnlyOthers(steps, me)
    ensures Undisturbed(s, Run(s, steps), me)
  {
    hide Next, Chained, Accounted, Separate, PhasesOk;
    if steps != [] {
      var n := |steps| - 1;
      OthersUndisturbed(s, steps[..n], me);
      RunKeepsInv(s, steps[..n]);
      OtherStepUndisturbed(Run(s, steps[..n]), steps[n], me);
    }
  }

  ghost function BaseOf(s: State, me: nat): Option<Document> {
    var p := PhaseOf(s, me);
    if p.Writing? && p.base.Some? && p.base.value < |s.log| then Some(s.log[p.base.value].body) else None
  }

  /** What my phase guarantees about the call it belongs to. */
  lemma PhaseFacts(s: State, me: nat)
    requires Inv(s)
    ensures var p := PhaseOf(s, me);
            && (!p.Idle? ==> p.call < |s.calls| && !s.calls[p.call].acked && 1 <= p.round <= MAX_ROUNDS)
            && (p.Writing? ==> p.doc == Applied(s.calls[p.call].op, BaseOf(s, me)))
            && (p.Rebasing? ==> s.log != [])
  {
    hide Applied, Accounted, Chained, Separate;
    if me in s.trackers {
      assert PhaseOk(s, s.trackers[me]);
    }
  }

  lemma LastLinked(s: State)
    requires Inv(s) && s.log != []
    ensures var last := s.log[|s.log| - 1];
            && last.call < |s.calls|
            && last.body == Applied(s.calls[last.call].op, Before(s.log, |s.log| - 1))
  {
    hide Applied, Accounted, Separate, PhasesOk;
    assert Linked(s, |s.log| - 1);
  }

  lemma RebaseEffect(s: State, me: nat)
    requires Inv(s) && PhaseOf(s, me).Rebasing?
    ensures var p, n := PhaseOf(s, me), Next(s, Step.Rebase(me));
            && n.calls == s.calls && n.log == s.log && p.call < |s.calls|
            && (p.round < MAX_ROUNDS ==>
                  s.log != [] && PhaseOf(n, me)
                    == Writing(p.call, Apply(s.calls[p.call].op, Latest(s).value), Tag(s), p.round + 1))
            && (p.round >= MAX_ROUNDS ==> PhaseOf(n, me).Idle?)
  {
    hide Accounted, Chained, Separate, PhasesOk, Apply;
    PhaseFacts(s, me);
  }

  /** The progress document in the store, with everybody who works on it. */
  class SharedProgress {
    var sys: State

    ghost predicate Valid() reads this {
      Inv(sys)
    }

    constructor ()
      ensures Valid() && sys == INITIAL
    {
      sys := INITIAL;
    }

    /** Any number of steps of other trackers. */
    method OthersRun(me: nat) returns (ghost steps: seq<Step>)
      requires Valid()
      modifies this
      ensures Valid() && sys == Run(old(sys), steps) && Undisturbed(old(sys), sys, me) && OnlyOthers(steps, me)
    {
      hide Next, Inv, Undisturbed;
      steps := [];
      var more: nat := *;
      while more > 0
        invariant OnlyOthers(steps, me) && sys == Run(old(sys), steps)
      {
        var step := AnyStep();
        if step.tracker != me {
          RunAppended(old(sys), steps, step);
          sys, steps := Next(sys, step), steps + [step];
        }
        more := more - 1;
      }
      RunKeepsInv(old(sys), steps);
      OthersUndisturbed(old(sys), steps, me);
    }

    /** The raw effect of one of my own steps. */
    method Take(step: Step)
      requires Valid()
      modifies this
      ensures Valid() && sys == Next(old(sys), step)
    {
      NextKeepsInv(sys, step);
      sys := Next(sys, step);
    }

    /** My call ends without another word to the store. */
    method Stop(me: nat)
      requires Valid()
      modifies this
      ensures Valid() && sys == Next(old(sys), Abandon(me))
      ensures PhaseOf(sys, me).Idle? && sys.calls == old(sys).calls && sys.log == old(sys).log
    {
      Take(Abandon(me));
    }

    /** A call starts from the version just read. */
    method Open(me: nat, op: Op, ghost doc: Document)
      requires Valid() && PhaseOf(sys, me).Idle? && (sys.log != [] || op.Creates())
      requires doc == Applied(op, Latest(sys))
      modifies this
      ensures Valid() && sys == Next(old(sys), Begin(me, op))
      ensures PhaseOf(sys, me) == Writing(|old(sys).calls|, doc, Tag(old(sys)), 1)
      ensures |sys.calls| == |old(sys).calls| + 1 && sys.calls[|old(sys).calls|].op == op
    {
      hide Applied, Inv;
      NextKeepsInv(sys, Begin(me, op));
      sys := Next(sys, Begin(me, op));
    }

    /** `replace_with_etag` or `create` under the retry decorator, by what the tracker read. */
    method Submit(me: nat, doc: Document, etag: Option<nat>) returns (reply: Reply, ghost step: Step)
      requires Valid() && PhaseOf(sys, me).Writing?
      requires PhaseOf(sys, me).doc == doc && PhaseOf(sys, me).base == etag
      modifies this
      ensures Valid() && step.Write? && step.tracker == me && sys == Next(old(sys), step)
      ensures |sys.calls| == |old(sys).calls|
      ensures forall k | 0 <= k < |sys.calls| :: sys.calls[k].op == old(sys).calls[k].op
      ensures var p := PhaseOf(old(sys), me);
              match reply
              case Acked(stored) =>
                && stored == |sys.log| - 1 && sys.log == old(sys).log + [Commit(p.call, doc)]
                && PhaseOf(sys, me).Idle? && p.call < |sys.calls| && sys.calls[p.call].acked
              case Refused =>
                && PhaseOf(sys, me) == Rebasing(p.call, p.round)
                && p.call < |sys.calls| && !sys.calls[p.call].acked
              case Failed =>
                && PhaseOf(sys, me).Idle? && p.call < |sys.calls| && !sys.calls[p.call].acked
    {
      hide Applied, Commits, Linked, Chained, Accounted, Separate;
      assert PhaseOk(sys, sys.trackers[me]);
      var fate := AnyFate();
      var fits := etag == Tag(sys);
      step := Write(me, fate);
      Take(Write(me, fate));
      if fate.LostRefused? || (fate.Answered? && !fits) {
        reply := Refused;
      } else if fate.Answered? {
        reply := Acked(|sys.log| - 1);
      } else {
        reply := Failed;
      }
    }
  }

  lemma NoTries(others: seq<Step>, me: nat)
    requires OnlyOthers(others, me)
    ensures Tries(others, me) == 0
  {
    OthersDoNotTry([], others, me);
    assert [] + others == others;
  }

  lemma TriesOfNothing(me: nat)
    ensures Tries([], me) == 0
  {
  }

  method AnyStep() returns (step: Step) {
    step := *;
  }

  /** The aggregates, accumulated location by location, and the status they imply. */
  method RefreshBackfillTotals(doc: Document) returns (refreshed: Document)
    ensures refreshed == Refreshed(doc) && SummedUp(refreshed)
  {
    hide SummedUp, Round1;
    RefreshedSumsUp(doc);
    var d := doc.locations;
    var enumerated, created, completed, failed, pending, estimated := 0, 0, 0, 0, 0, 0;
    for i := 0 to |d|
      invariant enumerated == Sum(d[..i], Enumerated) && created == Sum(d[..i], CreatedJobs)
      invariant completed == Sum(d[..i], CompletedJobs) && failed == Sum(d[..i], FailedJobs)
      invariant pending == Sum(d[..i], PendingJobs) && estimated == Sum(d[..i], Estimated)
    {
      assert d[..i + 1][..i] == d[..i];
      var e := d[i].1;
      enumerated, created := enumerated + e.enumerated, created + e.created;
      completed, failed := completed + e.completed, failed + e.failed;
      pending := pending + e.pending;
      estimated := estimated + if e.estimated.Some? then e.estimated.value else 0;
    }
    assert d[..|d|] == d;
    var percent := if estimated > 0 then Percent(enumerated, estimated) else 0;
    refreshed := doc.(totals := Some(Totals(enumerated, created, completed, failed, pending, estimated, percent)));
    var i := 0;
    while i < |d| && !Truthy(d[i].1.error)
      invariant 0 <= i <= |d| && FirstError(d) == FirstError(d[i..])
    {
      i := i + 1;
    }
    if i < |d| {
      refreshed := refreshed.(status := Error, reason := Some(Said(d[i].1.error.value)));
    } else if percent >= 1000 && pending == 0 {
      refreshed := refreshed.(status := Live, reason := Some(BackfillComplete));
    } else {
      refreshed := refreshed.(status := Backfilling, reason := Some(BackfillAt(percent)));
    }
  }

  lemma {:induction false} LogGrows(s: State, steps: seq<Step>)
    ensures s.log <= Run(s, steps).log
  {
    hide Applied, Apply;
    if steps != [] {
      LogGrows(s, steps[..|steps| - 1]);
    }
  }

  lemma OpenKeepsLog(s: State, me: nat, op: Op)
    ensures Next(s, Begin(me, op)).log == s.log
  {
    hide Applied, Apply;
  }

  lemma UpdateKeepsCreation(op: Op, base: Document)
    ensures Applied(op, Some(base)).createdAt == base.createdAt
  {
  }

  /** Every version has the creation time of the first. */
  lemma {:induction false} CreatedOnce(s: State, i: nat)
    requires Chained(s) && i < |s.log|
    ensures s.log[i].body.createdAt == s.log[0].body.createdAt
  {
    hide Applied;
    if i > 0 {
      CreatedOnce(s, i - 1);
      assert Linked(s, i);
      UpdateKeepsCreation(s.calls[s.log[i].call].op, s.log[i - 1].body);
    }
  }

  lemma SameCreation(s: State, n: State)
    requires Inv(s) && Inv(n) && s.log <= n.log
    ensures s.log != [] ==> Latest(s).value.createdAt == Latest(n).value.createdAt
  {
    if s.log != [] {
      CreatedOnce(s, |s.log| - 1);
      CreatedOnce(n, |n.log| - 1);
    }
  }

  /** Hours since the source was created, one at least. */
  function Span(createdAt: real, now: real): (hours: real)
    ensures hours >= 1.0
  {
    var hours := (now - createdAt) / 3600.0;
    if hours > 1.0 then hours else 1.0
  }

  /** When the pending jobs will be done, if so many hours did the completed ones. */
  function Completion(createdAt: real, completed: int, pending: int, now: real): Option<real> {
    if pending <= 0 || completed <= 0 then None
    else Some(now + Waiting(pending as real, completed as real, Span(createdAt, now)) * 3600.0)
  }

  function Waiting(pending: real, completed: real, span: real): real
    requires completed > 0.0
  {
    pending * span / completed
  }

  /**
   At the speed so far the pending jobs will be done then: they take as long for each job as the completed ones
   took, since the source was created or for an hour if that was less.
   */
  ghost predicate Expected(eta: Option<real>, createdAt: real, completed: int, pending: int, now: real) {
    var seconds := if now - createdAt > 3600.0 then now - createdAt else 3600.0;
    && (eta.Some? <==> pending > 0 && completed > 0)
    && (eta.Some? ==> (eta.value - now) * completed as real == pending as real * seconds)
  }

  lemma CompletionIsExpected(createdAt: real, completed: int, pending: int, now: real)
    ensures Expected(Completion(createdAt, completed, pending, now), createdAt, completed, pending, now)
  {
    if pending > 0 && completed > 0 {
      var span, p, c := Span(createdAt, now), pending as real, completed as real;
      var wait := Waiting(p, c, span);
      var seconds := if now - createdAt > 3600.0 then now - createdAt else 3600.0;
      assert span * 3600.0 == seconds;
      hide Span;
      assert wait * c == p * span;
      hide Waiting;
      assert wait * 3600.0 * c == wait * c * 3600.0;
      assert p * span * 3600.0 == p * (span * 3600.0);
    }
  }

  /** The estimate as `update_backfill_progress` works it out, by way of an hourly rate. */
  method EstimateCompletion(createdAt: real, completed: int, pending: int, now: real) returns (eta: Option<real>)
    ensures eta == Completion(createdAt, completed, pending, now)
  {
    hide Span, Waiting;
    eta := None;
    if pending > 0 && completed > 0 {
      var rate := completed as real / Span(createdAt, now);
      Rates(pending as real, completed as real, Span(createdAt, now));
      if rate > 0.0 {
        eta := Some(now + pending as real / rate * 3600.0);
      }
    }
  }

  lemma Rates(pending: real, completed: real, span: real)
    requires completed > 0.0 && span > 0.0
    ensures completed / span > 0.0 && pending / (completed / span) == Waiting(pending, completed, span)
  {
    var rate := completed / span;
    assert rate * span == completed;
    if rate <= 0.0 {
      assert false;
    }
    var wait := pending / rate;
    assert wait * rate == pending;
    assert wait * completed == wait * rate * span == pending * span;
  }

  lemma ReportIsApplied(op: Op, base: Option<Document>, doc: Document, made: Document)
    requires op.Backfill? && doc == if base.Some? then base.value else Blank(SourceStatus.Backfilling, op.at)
    requires var reported := doc.(locations := Assign(doc.locations, op.location, op.entry));
             made == Refreshed(reported).(updatedAt := Some(op.at))
    ensures made == Applied(op, base)
  {
  }

  lemma NoPercent(enumerated: int)
    ensures forall whole | whole <= 0 :: Percent(enumerated, whole) == 0
  {
  }

  class ProgressTracker {
    const store: SharedProgress
    const me: nat
    var currentEtag: Option<nat>

    constructor (store: SharedProgress, me: nat)
      ensures this.store == store && this.me == me && currentEtag == None
    {
      this.store, this.me := store, me;
      currentEtag := None;
    }

    /** `rebase`: the named fields of the proposal, on the newest document. `None` when the read raises. */
    method Rebase(proposed: Document, paths: seq<Path>) returns (doc: Option<Document>)
      requires store.sys.log != [] && forall p <- paths :: Has(proposed, p)
      modifies this
      ensures doc.Some? ==>
                && currentEtag == Tag(store.sys)
                && doc.value == Rebased(Latest(store.sys).value, proposed, paths)
    {
      var readable: bool := *;
      if !readable {
        return None;
      }
      currentEtag := Tag(store.sys);
      var latest := Latest(store.sys).value;
      var merged := latest;
      for i := 0 to |paths|
        invariant merged == CopyPaths(latest, proposed, paths[..i])
      {
        assert paths[..i + 1][..i] == paths[..i];
        merged := CopyPath(merged, proposed, paths[i]);
      }
      assert paths[..|paths|] == paths;
      if NamesLocation(paths) {
        merged := RefreshBackfillTotals(merged);
      }
      doc := Some(merged);
    }

    /**
     One turn of the loop in `_save_with_etag`: a conditional write, and unless that settles the call a rebase
     onto what beat it. None means that the loop goes on with `next`.
     */
    method SaveRound(proposal: Document, doc: Document, ghost op: Op, paths: seq<Path>, ghost attempt: nat,
                     ghost base: Option<Document>, ghost start: State, ghost sofar: seq<Step>)
      returns (outcome: Option<Outcome>, next: Document, ghost trace: seq<Step>)
      requires store.Valid() && store.sys == Run(start, sofar) && 1 <= attempt <= MAX_ROUNDS
      requires var p := PhaseOf(store.sys, me);
               p.Writing? && p.doc == doc && p.base == currentEtag && p.round == attempt
      requires var call := PhaseOf(store.sys, me).call;
               call < |store.sys.calls| && store.sys.calls[call].op == op
      requires paths == PathsOf(op) && (forall p <- paths :: Has(proposal, p)) && proposal == Applied(op, base)
      modifies this, store
      ensures store.Valid() && store.sys == Run(start, trace) && Tries(trace, me) == Tries(sofar, me) + 1
      ensures var call := PhaseOf(old(store.sys), me).call;
              && call < |store.sys.calls| && store.sys.calls[call].op == op
              && (outcome.None? ==>
                    && !store.sys.calls[call].acked
                    && PhaseOf(store.sys, me)
                       == if attempt < MAX_ROUNDS then Writing(call, next, currentEtag, attempt + 1) else Idle)
              && (outcome.Some? ==> !outcome.value.Exhausted? && Settled(op, call, outcome.value))
    {
      hide Next, Applied, Apply, Inv, Rebased, Has, PathsOf, Tries, Commits, OnlyOthers;
      next := doc;
      ghost var others := store.OthersRun(me);
      RunJoined(start, sofar, others);
      OthersDoNotTry(sofar, others, me);
      trace := sofar + others;
      var reply, step := store.Submit(me, doc, currentEtag);
      RunAppended(start, trace, step);
      TriesAppended(trace, step, me);
      trace := trace + [step];
      if reply.Acked? {
        currentEtag := Some(reply.etag);
        LastLinked(store.sys);
        return Some(Saved), next, trace;
      }
      if reply.Failed? {
        return Some(StoreError), next, trace;
      }
      var goesOn;
      goesOn, next, trace := RebaseRound(proposal, op, paths, attempt, base, start, trace);
      outcome := if goesOn then None else Some(StoreError);
    }

    /** The end of a turn whose write was refused: others go on, and the proposal is rebased. */
    method RebaseRound(proposal: Document, ghost op: Op, paths: seq<Path>, ghost attempt: nat,
                       ghost base: Option<Document>, ghost start: State, ghost sofar: seq<Step>)
      returns (goesOn: bool, next: Document, ghost trace: seq<Step>)
      requires store.Valid() && store.sys == Run(start, sofar)
      requires var p := PhaseOf(store.sys, me); p.Rebasing? && p.round == attempt
      requires var call := PhaseOf(store.sys, me).call;
               call < |store.sys.calls| && store.sys.calls[call].op == op && !store.sys.calls[call].acked
      requires paths == PathsOf(op) && (forall p <- paths :: Has(proposal, p)) && proposal == Applied(op, base)
      modifies this, store
      ensures store.Valid() && store.sys == Run(start, trace) && Tries(trace, me) == Tries(sofar, me)
      ensures var call := PhaseOf(old(store.sys), me).call;
              && call < |store.sys.calls| && store.sys.calls[call].op == op && !store.sys.calls[call].acked
              && PhaseOf(store.sys, me) == if goesOn && attempt < MAX_ROUNDS
                                           then Writing(call, next, currentEtag, attempt + 1) else Idle
    {
      hide Next, Applied, Apply, Inv, Rebased, Has, PathsOf, Tries, Commits, OnlyOthers;
      ghost var others := store.OthersRun(me);
      RunJoined(start, sofar, others);
      OthersDoNotTry(sofar, others, me);
      trace := sofar + others;
      PhaseFacts(store.sys, me);
      var rebased := Rebase(proposal, paths);
      if rebased.None? {
        store.Stop(me);
        RunAppended(start, trace, Abandon(me));
        TriesAppended(trace, Abandon(me), me);
        return false, proposal, trace + [Abandon(me)];
      }
      RebaseReapplies(op, base, Latest(store.sys).value);
      next := rebased.value;
      RebaseEffect(store.sys, me);
      store.Take(Step.Rebase(me));
      RunAppended(start, trace, Step.Rebase(me));
      TriesAppended(trace, Step.Rebase(me), me);
      goesOn, trace := true, trace + [Step.Rebase(me)];
    }

    /** How a settled call leaves the store: saved exactly if acknowledged, as its update of the version before. */
    ghost predicate Settled(op: Op, call: nat, outcome: Outcome)
      reads this, store
    {
      && PhaseOf(store.sys, me).Idle? && call < |store.sys.calls|
      && (outcome.Saved? <==> store.sys.calls[call].acked)
      && (outcome.Saved? ==>
            && currentEtag == Tag(store.sys) && store.sys.log != []
            && store.sys.log[|store.sys.log| - 1].call == call
            && Latest(store.sys).value == Applied(op, Before(store.sys.log, |store.sys.log| - 1)))
    }

    /**
     `_save_with_etag`: at most five conditional writes, each later one of a document rebased onto
     what beat the one before. What it commits is the call's update of the version just before it.
     */
    method SaveWithEtag(proposal: Document, ghost op: Op, paths: seq<Path>)
      returns (outcome: Outcome, ghost trace: seq<Step>)
      requires store.Valid() && PhaseOf(store.sys, me).Writing?
      requires var p := PhaseOf(store.sys, me);
               && p.doc == proposal && p.base == currentEtag && p.round == 1
               && p.call < |store.sys.calls| && store.sys.calls[p.call].op == op
      requires paths == PathsOf(op) && forall p <- paths :: Has(proposal, p)
      modifies this, store
      ensures store.Valid() && store.sys == Run(old(store.sys), trace)
      ensures 1 <= Tries(trace, me) <= 5 && (outcome.Exhausted? ==> Tries(trace, me) == 5)
      ensures var call := PhaseOf(old(store.sys), me).call;
              && call < |store.sys.calls| && store.sys.calls[call].op == op
              && Commits(store.sys.log, call) <= 5
              && Settled(op, call, outcome)
    {
      hide Next, Applied, Apply, Inv, Rebased, Has, PathsOf, Tries, Commits, OnlyOthers;
      ghost var start := store.sys;
      PhaseFacts(start, me);
      ghost var call := PhaseOf(start, me).call;
      ghost var base := BaseOf(start, me);
      trace := [];
      TriesOfNothing(me);
      var doc := proposal;
      for attempt := 1 to MAX_ROUNDS + 1
        invariant store.Valid() && store.sys == Run(start, trace) && Tries(trace, me) == attempt - 1
        invariant call < |store.sys.calls| && store.sys.calls[call].op == op
        invariant attempt <= MAX_ROUNDS ==> PhaseOf(store.sys, me) == Writing(call, doc, currentEtag, attempt)
        invariant attempt == MAX_ROUNDS + 1 ==> PhaseOf(store.sys, me).Idle? && !store.sys.calls[call].acked
      {
        var settled;
        settled, doc, trace := SaveRound(proposal, doc, op, paths, attempt, base, start, trace);
        if settled.Some? {
          CommitsBounded(store.sys, call);
          return settled.value, trace;
        }
      }
      CommitsBounded(store.sys, call);
      outcome := Exhausted;
    }

    /** `_load_or_new`; `None` when the read raises. */
    method LoadOrNew(status: SourceStatus, now: real) returns (doc: Option<Document>)
      modifies this
      ensures doc.Some? ==> currentEtag == Tag(store.sys)
      ensures doc.Some? ==>
                doc.value == if store.sys.log == [] then Blank(status, now) else Latest(store.sys).value
    {
      var readable: bool := *;
      if !readable {
        return None;
      }
      currentEtag := Tag(store.sys);
      doc := if store.sys.log == [] then Some(Blank(status, now)) else Latest(store.sys);
    }

    /** What a whole call promises: it took part in a run, and saved means its update was committed. */
    ghost predicate Performed(start: State, trace: seq<Step>, op: Op, outcome: Outcome)
      reads this, store
    {
      && store.Valid() && store.sys == Run(start, trace) && PhaseOf(store.sys, me).Idle?
      && Tries(trace, me) <= 5
      && (outcome.Saved? ==>
            && currentEtag == Tag(store.sys) && store.sys.log != []
            && Latest(store.sys).value == Applied(op, Before(store.sys.log, |store.sys.log| - 1))
            && Says(op, Latest(store.sys).value))
    }

    /** `set_status`. */
    method SetStatus(status: SourceStatus, reason: string, now: real) returns (outcome: Outcome, ghost trace: seq<Step>)
      requires store.Valid() && PhaseOf(store.sys, me).Idle?
      modifies this, store
      ensures Performed(old(store.sys), trace, Op.SetStatus(status, reason, now), outcome)
    {
      trace := store.OthersRun(me);
      NoTries(trace, me);
      var loaded := LoadOrNew(status, now);
      if loaded.None? {
        return StoreError, trace;
      }
      var doc := loaded.value;
      doc := doc.(status := status, reason := Some(Said(reason)));
      doc := doc.(updatedAt := Some(now));
      var op := Op.SetStatus(status, reason, now);
      outcome, trace := Commence(doc, op, [AtStatus, AtReason, AtUpdated], old(store.sys), trace);
    }

    /** `update_live_progress`. */
    method UpdateLiveProgress(received: int, processed: int, pending: int, throughput: real,
                              error: Option<string>, now: real)
      returns (outcome: Outcome, ghost trace: seq<Step>, ghost op: Op)
      requires store.Valid() && PhaseOf(store.sys, me).Idle?
      modifies this, store
      ensures op == LiveUpdate(LiveEntry(received, processed, pending,
                                         if throughput > 0.0 && pending > 0 then Round1(pending as real / throughput)
                                         else 0,
                                         throughput, error, now), now)
      ensures if throughput > 0.0 && pending > 0 then NearestTenth(op.live.lag, pending as real / throughput)
              else op.live.lag == 0
      ensures Performed(old(store.sys), trace, op, outcome)
    {
      trace := store.OthersRun(me);
      NoTries(trace, me);
      var lag := 0;
      if throughput > 0.0 && pending > 0 {
        lag := Round1(pending as real / throughput);
        Round1IsNearest(pending as real / throughput);
      }
      var live := LiveEntry(received, processed, pending, lag, throughput, error, now);
      var update := LiveUpdate(live, now);
      op := update;
      var loaded := LoadOrNew(SourceStatus.Live, now);
      if loaded.None? {
        return StoreError, trace, op;
      }
      var doc := loaded.value;
      doc := doc.(live := Some(live));
      if Truthy(error) {
        doc := doc.(status := Error, reason := Some(Said(error.value)));
      } else {
        doc := doc.(status := Live, reason := Some(LiveLag(lag)));
      }
      doc := doc.(updatedAt := Some(now));
      outcome, trace := Commence(doc, update, [AtLive, AtStatus, AtReason, AtUpdated], old(store.sys), trace);
    }

    /** `update_workers`: does nothing, successfully, when there is no document yet. */
    method UpdateWorkers(kind: string, desired: int, ready: int, processing: int, now: real)
      returns (outcome: Option<Outcome>, ghost trace: seq<Step>)
      requires store.Valid() && PhaseOf(store.sys, me).Idle?
      modifies this, store
      ensures outcome.None? ==>
                && store.Valid() && store.sys == Run(old(store.sys), trace)
                && store.sys.log == [] && OnlyOthers(trace, me) && currentEtag == old(currentEtag)
      ensures outcome.Some? ==>
                Performed(old(store.sys), trace, Workers(kind, WorkerEntry(desired, ready, processing, now), now),
                          outcome.value)
    {
      trace := store.OthersRun(me);
      NoTries(trace, me);
      var readable: bool := *;
      if !readable {
        return Some(StoreError), trace;
      }
      if store.sys.log == [] {
        return None, trace;
      }
      currentEtag := Tag(store.sys);
      var doc := Latest(store.sys).value;
      var worker := WorkerEntry(desired, ready, processing, now);
      doc := doc.(workers := doc.workers[kind := worker]);
      doc := doc.(updatedAt := Some(now));
      var saved;
      saved, trace := Commence(doc, Workers(kind, worker, now), [AtWorker(kind), AtUpdated], old(store.sys), trace);
      outcome := Some(saved);
    }

    /**
     `update_backfill_progress`: one location's counters, and with them all totals and the status. `since` is
     the time the completion estimate goes by: the creation of the document, or now if there was none to read.
     */
    method UpdateBackfillProgress(location: string, enumerated: int, created: int, completed: int, failed: int,
                                  pending: int, estimated: Option<int>, token: Option<string>,
                                  lastBlob: Option<string>, error: Option<string>, now: real)
      returns (outcome: Outcome, ghost trace: seq<Step>, ghost op: Op, ghost since: real)
      requires store.Valid() && PhaseOf(store.sys, me).Idle?
      modifies this, store
      ensures op == Backfill(location,
                             Entry(enumerated, created, completed, failed, pending, estimated,
                                   if estimated.Some? then Percent(enumerated, estimated.value) else 0,
                                   Truthy(token), lastBlob, Completion(since, completed, pending, now), error, now),
                             now)
      ensures NearestShare(op.entry.percent, enumerated, if estimated.Some? then estimated.value else 0)
      ensures Expected(op.entry.completion, since, completed, pending, now)
      ensures op.entry.hasToken <==> token.Some? && token.value != ""
      ensures Performed(old(store.sys), trace, op, outcome)
      ensures outcome.Saved? ==> since == now || since == Latest(store.sys).value.createdAt
      ensures outcome.Saved? && old(store.sys).log != [] ==>
                since == Latest(old(store.sys)).value.createdAt == Latest(store.sys).value.createdAt
    {
      hide Inv, Run, Tries, Applied, Percent, Completion, NearestShare, Expected, SummedUp, Says;
      NoPercent(enumerated);
      PercentIsNearest(enumerated, if estimated.Some? then estimated.value else 0);
      trace := store.OthersRun(me);
      NoTries(trace, me);
      ghost var read := store.sys;
      var loaded := LoadOrNew(SourceStatus.Backfilling, now);
      if loaded.None? {
        since := now;
        CompletionIsExpected(since, completed, pending, now);
        op := Backfill(location,
                       Entry(enumerated, created, completed, failed, pending, estimated,
                             if estimated.Some? then Percent(enumerated, estimated.value) else 0,
                             Truthy(token), lastBlob, Completion(since, completed, pending, now), error, now),
                       now);
        return StoreError, trace, op, since;
      }
      var doc := loaded.value;
      since := doc.createdAt;
      var percent := 0;
      if estimated.Some? && estimated.value > 0 {
        percent := Percent(enumerated, estimated.value);
      }
      CompletionIsExpected(since, completed, pending, now);
      var completion := EstimateCompletion(doc.createdAt, completed, pending, now);
      var entry := Entry(enumerated, created, completed, failed, pending, estimated, percent,
                         Truthy(token), lastBlob, completion, error, now);
      var update := Backfill(location, entry, now);
      op := update;
      ghost var base := doc;
      doc := doc.(locations := Assign(doc.locations, location, entry));
      doc := RefreshBackfillTotals(doc);
      doc := doc.(updatedAt := Some(now));
      ReportIsApplied(update, Latest(read), base, doc);
      outcome, trace := Commence(doc, update, [AtLocation(location), AtUpdated], old(store.sys), trace);
      SameCreation(read, store.sys);
      SameCreation(old(store.sys), store.sys);
    }

    /** The save at the end of each update, as the protocol sees it. */
    method Commence(doc: Document, op: Op, paths: seq<Path>, ghost start: State, ghost sofar: seq<Step>)
      returns (outcome: Outcome, ghost trace: seq<Step>)
      requires store.Valid() && PhaseOf(store.sys, me).Idle? && store.sys == Run(start, sofar)
      requires Tries(sofar, me) == 0
      requires store.sys.log != [] || op.Creates()
      requires currentEtag == Tag(store.sys) && paths == PathsOf(op) && doc == Applied(op, Latest(store.sys))
      modifies this, store
      ensures Performed(start, trace, op, outcome) && old(store.sys).log <= store.sys.log
    {
      hide Next, Applied, Apply, Inv, Has, PathsOf, Tries, Commits, Says;
      ProposalHasItsPaths(op, Latest(store.sys));
      RunAppended(start, sofar, Begin(me, op));
      store.Open(me, op, doc);
      ghost var begun := store.sys;
      outcome, trace := SaveWithEtag(doc, op, paths);
      LogGrows(begun, trace);
      OpenKeepsLog(old(store.sys), me, op);
      RunJoined(start, sofar + [Begin(me, op)], trace);
      TriesAppended(sofar, Begin(me, op), me);
      TriesJoined(sofar + [Begin(me, op)], trace, me);
      trace := sofar + [Begin(me, op)] + trace;
      if outcome.Saved? {
        AppliedSays(op, Before(store.sys.log, |store.sys.log| - 1));
      }
    }
  }
}

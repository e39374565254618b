/**
 Any number of trackers updating one progress document that is never deleted: every interleaving of
 their reads, conditional writes, rebases, lost answers and crashes (api/progress_tracker.py:75-137).

 A wrapped store call is one step here, as the retry loop commits at most once. Its `Fate` says
 how the answer came back. The etag of a version is its position in the log.
 */
module ProgressProtocol {
  import opened Outcomes
  import opened ProgressDocument

  const MAX_ROUNDS: nat := 5

  /** One version of the document and the call that wrote it. */
  datatype Commit = Commit(call: nat, body: Document)

  /** One `update_*` or `set_status` call: `lost` counts the commits it was never told about. */
  datatype Call = Call(op: Op, acked: bool, lost: nat)

  datatype Phase =
    | Idle
    | Writing(call: nat, doc: Document, base: Option<nat>, round: nat)
    | Rebasing(call: nat, round: nat)

  datatype State = State(log: seq<Commit>, calls: seq<Call>, trackers: map<nat, Phase>)

  const INITIAL := State([], [], map[])

  datatype Step =
    | Begin(tracker: nat, op: Op)
    | Write(tracker: nat, fate: Fate)
    | Rebase(tracker: nat)
    | Abandon(tracker: nat)   // a read that raises, or a crash

  function PhaseOf(s: State, tracker: nat): Phase {
    if tracker in s.trackers then s.trackers[tracker] else Idle
  }

  function Tag(s: State): Option<nat> {
    if s.log == [] then None else Some(|s.log| - 1)
  }

  function Latest(s: State): Option<Document> {
    if s.log == [] then None else Some(s.log[|s.log| - 1].body)
  }

  function Moved(s: State, tracker: nat, phase: Phase): State {
    s.(trackers := s.trackers[tracker := phase])
  }

  /** A step that is not possible leaves the state as it is. */
  function Next(s: State, step: Step): State {
    var phase := PhaseOf(s, step.tracker);
    match step
    case Begin(t, op) =>
      if phase.Idle? && (s.log != [] || op.Creates()) then
        Moved(s.(calls := s.calls + [Call(op, false, 0)]), t,
              Writing(|s.calls|, Applied(op, Latest(s)), Tag(s), 1))
      else s
    case Write(t, fate) =>
      if phase.Writing? && phase.call < |s.calls| then Submitted(s, t, phase, fate) else s
    case Rebase(t) =>
      if phase.Rebasing? && phase.call < |s.calls| then
        if phase.round < MAX_ROUNDS then
          Moved(s, t, Writing(phase.call, Applied(s.calls[phase.call].op, Latest(s)), Tag(s), phase.round + 1))
        else Moved(s, t, Idle)
      else s
    case Abandon(t) => Moved(s, t, Idle)
  }

  /** The conditional write: `replace_with_etag` when a version was read, `create` when none was. */
  function Submitted(s: State, t: nat, phase: Phase, fate: Fate): State
    requires phase.Writing? && phase.call < |s.calls|
  {
    var fits := phase.base == Tag(s);
    var call := s.calls[phase.call];
    var stored := if fits && !fate.Unsent? then s.(log := s.log + [Commit(phase.call, phase.doc)]) else s;
    var told :=
      if !fits || fate.Unsent? then stored
      else if fate.Answered? then stored.(calls := stored.calls[phase.call := call.(acked := true)])
      else stored.(calls := stored.calls[phase.call := call.(lost := call.lost + 1)]);
    Moved(told, t,
          if fate.LostRefused? || (fate.Answered? && !fits) then Rebasing(phase.call, phase.round) else Idle)
  }

  function Run(s: State, steps: seq<Step>): State {
    if steps == [] then s else Next(Run(s, steps[..|steps| - 1]), steps[|steps| - 1])
  }

  lemma RunAppended(s: State, steps: seq<Step>, step: Step)
    ensures Run(s, steps + [step]) == Next(Run(s, steps), step)
  {
    assert (steps + [step])[..|steps|] == steps;
  }

  lemma {:induction false} RunJoined(s: State, first: seq<Step>, second: seq<Step>)
    ensures Run(s, first + second) == Run(Run(s, first), second)
  {
    hide Next;
    if second == [] {
      assert first + second == first;
    } else {
      var n := |second| - 1;
      RunJoined(s, first, second[..n]);
      assert first + second == (first + second[..n]) + [second[n]];
      RunAppended(s, first + second[..n], second[n]);
    }
  }

  // ---------------------------------------------------------------------- invariant

  function Before(log: seq<Commit>, i: nat): Option<Document>
    requires i <= |log|
  {
    if i == 0 then None else Some(log[i - 1].body)
  }

  /** Each version is its call's update of the version just before it. */
  ghost predicate Chained(s: State) {
    forall i: nat | i < |s.log| :: Linked(s, i)
  }

  ghost predicate Linked(s: State, i: nat)
    requires i < |s.log|
  {
    && s.log[i].call < |s.calls|
    && s.log[i].body == Applied(s.calls[s.log[i].call].op, Before(s.log, i))
  }

  ghost predicate PhaseOk(s: State, phase: Phase) {
    match phase
    case Idle => true
    case Writing(call, doc, base, round) =>
      && call < |s.calls| && !s.calls[call].acked && 1 <= round <= MAX_ROUNDS
      && (base.Some? ==> base.value < |s.log|)
      && doc == Applied(s.calls[call].op, if base.Some? then Some(s.log[base.value].body) else None)
    case Rebasing(call, round) =>
      && call < |s.calls| && !s.calls[call].acked && 1 <= round <= MAX_ROUNDS && s.log != []
  }

  ghost predicate PhasesOk(s: State) {
    forall t | t in s.trackers :: PhaseOk(s, s.trackers[t])
  }

  ghost predicate Separate(s: State) {
    forall t, u | t in s.trackers && u in s.trackers && t != u ::
      s.trackers[t].Idle? || s.trackers[u].Idle? || s.trackers[t].call != s.trackers[u].call
  }

  ghost function Commits(log: seq<Commit>, call: nat): nat {
    if log == [] then 0
    else Commits(log[..|log| - 1], call) + (if log[|log| - 1].call == call then 1 else 0)
  }

  lemma CommitsAppended(log: seq<Commit>, c: Commit, call: nat)
    ensures Commits(log + [c], call) == Commits(log, call) + if c.call == call then 1 else 0
  {
    assert (log + [c])[..|log|] == log;
  }

  /** A call that was told it succeeded wrote once; each answer lost on the way wrote once more. */
  ghost predicate Accounted(s: State) {
    forall k | 0 <= k < |s.calls| ::
      Commits(s.log, k) == s.calls[k].lost + if s.calls[k].acked then 1 else 0
  }

  /** A call writes at most once a round. */
  ghost predicate Paced(s: State) {
    && (forall k | 0 <= k < |s.calls| :: s.calls[k].lost + (if s.calls[k].acked then 1 else 0) <= MAX_ROUNDS)
    && (forall t | t in s.trackers :: InPace(s, s.trackers[t]))
  }

  ghost predicate InPace(s: State, phase: Phase) {
    match phase
    case Idle => true
    case Writing(call, _, _, round) => call < |s.calls| && s.calls[call].lost < round
    case Rebasing(call, round) => call < |s.calls| && s.calls[call].lost <= round
  }

  ghost predicate Inv(s: State) {
    Chained(s) && PhasesOk(s) && Separate(s) && Accounted(s) && Paced(s)
  }

  /** Whose calls these are, only one tracker's pace can change at a time. */
  lemma NextKeepsPaced(s: State, step: Step)
    requires PhasesOk(s) && Separate(s) && Paced(s)
    ensures Paced(Next(s, step))
  {
    hide Applied, Apply;
    var n, t := Next(s, step), step.tracker;
    var phase := PhaseOf(s, t);
    assert PhaseOk(s, phase) && InPace(s, phase);
    assert InPace(n, PhaseOf(n, t));
    forall u | u in n.trackers && u != t ensures InPace(n, n.trackers[u]) {
      assert u in s.trackers && n.trackers[u] == s.trackers[u] && InPace(s, s.trackers[u]);
      OtherCall(s, t, u);
    }
  }

  lemma OtherCall(s: State, t: nat, u: nat)
    requires Separate(s) && t != u
    ensures PhaseOf(s, t).Idle? || PhaseOf(s, u).Idle? || PhaseOf(s, t).call != PhaseOf(s, u).call
  {
  }

  lemma {:induction false} NoCommitYet(s: State, log: seq<Commit>)
    requires forall i | 0 <= i < |log| :: log[i].call < |s.calls|
    ensures Commits(log, |s.calls|) == 0
  {
    if log != [] {
      NoCommitYet(s, log[..|log| - 1]);
    }
  }

  lemma OthersKeepTheirPhase(s: State, n: State, t: nat)
    requires PhasesOk(s) && |s.log| <= |n.log| && |s.calls| <= |n.calls|
    requires n.log[..|s.log|] == s.log
    requires forall k | 0 <= k < |s.calls| :: n.calls[k].op == s.calls[k].op
    requires forall u | u in n.trackers && u != t :: u in s.trackers && n.trackers[u] == s.trackers[u]
    requires t in n.trackers && PhaseOk(n, n.trackers[t])
    requires forall u | u in s.trackers && u != t && !s.trackers[u].Idle? ::
               s.trackers[u].call < |s.calls| && n.calls[s.trackers[u].call].acked == s.calls[s.trackers[u].call].acked
    ensures PhasesOk(n)
  {
    hide Applied;
    forall u | u in n.trackers ensures PhaseOk(n, n.trackers[u]) {
      if u != t {
        var phase := s.trackers[u];
        assert PhaseOk(s, phase);
        if phase.Writing? && phase.base.Some? {
          assert n.log[phase.base.value] == s.log[phase.base.value];
        }
      }
    }
  }

  lemma BeginKeepsPhases(s: State, t: nat, op: Op)
    requires Chained(s) && PhasesOk(s) && Separate(s)
    ensures PhasesOk(Next(s, Begin(t, op))) && Separate(Next(s, Begin(t, op)))
  {
    hide Applied, Chained;
    var n := Next(s, Begin(t, op));
    if n != s {
      forall u | u in s.trackers && u != t && !s.trackers[u].Idle?
        ensures s.trackers[u].call < |s.calls|
      {
        assert PhaseOk(s, s.trackers[u]);
      }
      assert PhaseOk(n, n.trackers[t]);
      OthersKeepTheirPhase(s, n, t);
    }
  }

  lemma BeginKeepsLog(s: State, t: nat, op: Op)
    requires Chained(s) && Accounted(s)
    ensures Chained(Next(s, Begin(t, op))) && Accounted(Next(s, Begin(t, op)))
  {
    hide Applied, Commits;
    var n := Next(s, Begin(t, op));
    if n != s {
      forall i | 0 <= i < |s.log| ensures s.log[i].call < |s.calls| { assert Linked(s, i); }
      NoCommitYet(s, s.log);
      forall i: nat | i < |n.log| ensures Linked(n, i) { assert Linked(s, i); }
    }
  }

  lemma RebaseKeepsInv(s: State, t: nat)
    requires Inv(s)
    ensures Inv(Next(s, Rebase(t)))
  {
    NextKeepsPaced(s, Rebase(t));
    hide Applied, Paced;
    var n := Next(s, Rebase(t));
    forall u | u in n.trackers ensures PhaseOk(n, n.trackers[u]) {
      if u in s.trackers { assert PhaseOk(s, s.trackers[u]); }
    }
    forall i: nat | i < |n.log| ensures Linked(n, i) { assert Linked(s, i); }
  }

  lemma WriteKeepsPhases(s: State, t: nat, fate: Fate)
    requires Inv(s) && PhaseOf(s, t).Writing?
    ensures var n := Next(s, Write(t, fate));
            PhasesOk(n) && Separate(n)
  {
    hide Applied, Commits, Paced;
    var phase := PhaseOf(s, t);
    var n := Next(s, Write(t, fate));
    assert PhaseOk(s, phase);
    assert PhaseOk(n, n.trackers[t]);
    forall u | u in s.trackers && u != t && !s.trackers[u].Idle?
      ensures s.trackers[u].call < |s.calls| && s.trackers[u].call != phase.call
    {
      assert PhaseOk(s, s.trackers[u]);
    }
    OthersKeepTheirPhase(s, n, t);
  }

  lemma ChainExtends(s: State, n: State)
    requires Chained(s) && |s.log| <= |n.log| <= |s.log| + 1 && n.log[..|s.log|] == s.log
    requires |s.calls| == |n.calls| && forall k | 0 <= k < |s.calls| :: n.calls[k].op == s.calls[k].op
    requires |s.log| < |n.log| ==>
               var c := n.log[|s.log|];
               c.call < |s.calls| && c.body == Applied(s.calls[c.call].op, Before(s.log, |s.log|))
    ensures Chained(n)
  {
    hide Applied;
    forall i: nat | i < |n.log| ensures Linked(n, i) {
      assert Before(n.log, i) == Before(s.log, i);
      if i < |s.log| {
        assert Linked(s, i) && n.log[i] == s.log[i];
      }
    }
  }

  lemma WriteKeepsLog(s: State, t: nat, fate: Fate)
    requires Inv(s) && PhaseOf(s, t).Writing?
    ensures Chained(Next(s, Write(t, fate)))
  {
    hide Applied, Commits, Chained, Paced;
    var phase := PhaseOf(s, t);
    var n := Next(s, Write(t, fate));
    assert PhaseOk(s, phase);
    assert forall k | 0 <= k < |s.calls| :: n.calls[k].op == s.calls[k].op;
    if phase.base == Tag(s) {
      assert phase.doc == Applied(s.calls[phase.call].op, Before(s.log, |s.log|));
    }
    ChainExtends(s, n);
  }

  lemma WriteKeepsAccount(s: State, t: nat, fate: Fate)
    requires Inv(s) && PhaseOf(s, t).Writing?
    ensures Accounted(Next(s, Write(t, fate)))
  {
    hide Applied;
    var phase := PhaseOf(s, t);
    var n := Next(s, Write(t, fate));
    assert PhaseOk(s, phase);
    forall k | 0 <= k < |n.calls|
      ensures Commits(n.log, k) == n.calls[k].lost + if n.calls[k].acked then 1 else 0
    {
      CommitsAppended(s.log, Commit(phase.call, phase.doc), k);
    }
  }

  lemma NextKeepsInv(s: State, step: Step)
    requires Inv(s)
    ensures Inv(Next(s, step))
  {
    NextKeepsPaced(s, step);
    hide Applied, Paced;
    match step {
      case Begin(t, op) =>
        BeginKeepsPhases(s, t, op);
        BeginKeepsLog(s, t, op);
      case Write(t, fate) =>
        if PhaseOf(s, t).Writing? {
          WriteKeepsPhases(s, t, fate);
          WriteKeepsLog(s, t, fate);
          WriteKeepsAccount(s, t, fate);
        }
      case Rebase(t) => RebaseKeepsInv(s, t);
      case Abandon(t) =>
        var n := Next(s, step);
        assert forall u | u in n.trackers && u != t :: PhaseOk(s, s.trackers[u]);
        forall i: nat | i < |n.log| ensures Linked(n, i) { assert Linked(s, i); }
    }
  }

  lemma {:induction false} RunKeepsInv(s: State, steps: seq<Step>)
    requires Inv(s)
    ensures Inv(Run(s, steps))
  {
    if steps != [] {
      RunKeepsInv(s, steps[..|steps| - 1]);
      NextKeepsInv(Run(s, steps[..|steps| - 1]), steps[|steps| - 1]);
    }
  }

  // ---------------------------------------------------------------------- main results

  /** The updates behind the first `n` versions, in commit order. */
  ghost function CommittedOps(s: State, n: nat): (ops: seq<Op>)
    requires Chained(s) && n <= |s.log|
    ensures |ops| == n
  {
    if n == 0 then [] else assert Linked(s, n - 1); CommittedOps(s, n - 1) + [s.calls[s.log[n - 1].call].op]
  }

  lemma {:induction false} VersionsReplay(s: State, n: nat)
    requires Chained(s) && n <= |s.log|
    ensures Replay(CommittedOps(s, n)) == Before(s.log, n)
  {
    hide Applied;
    if n > 0 {
      VersionsReplay(s, n - 1);
      assert Linked(s, n - 1);
      var ops := CommittedOps(s, n);
      assert ops[..|ops| - 1] == CommittedOps(s, n - 1);
    }
  }

  /**
   Rebase refines atomic update. In every run, after every commit, the document is what performing
   the committed updates one at a time, in commit order, would have made of it.
   */
  lemma RefinesAtomicUpdates(steps: seq<Step>, n: nat)
    requires n <= |Run(INITIAL, steps).log|
    ensures var s := Run(INITIAL, steps);
            Chained(s) && Before(s.log, n) == Replay(CommittedOps(s, n))
  {
    RunKeepsInv(INITIAL, steps);
    VersionsReplay(Run(INITIAL, steps), n);
  }

  /** In every run a part of the current document is what the last committed update to it said. */
  lemma NothingIsLost(steps: seq<Step>, location: string, kind: string)
    requires Run(INITIAL, steps).log != []
    ensures var s := Run(INITIAL, steps);
            && Chained(s)
            && var ops := CommittedOps(s, |s.log|);
            ops != [] && KeepsLastWord(ops, Latest(s).value, location, kind)
  {
    var s := Run(INITIAL, steps);
    RefinesAtomicUpdates(steps, |s.log|);
    ReplayKeepsLastWord(CommittedOps(s, |s.log|), location, kind);
  }

  /** In every version ever committed the totals are the sums over the locations it lists. */
  lemma TotalsAlwaysAgree(steps: seq<Step>, i: nat)
    requires i < |Run(INITIAL, steps).log|
    ensures Agrees(Run(INITIAL, steps).log[i].body)
  {
    RefinesAtomicUpdates(steps, i + 1);
    ReplayAgrees(CommittedOps(Run(INITIAL, steps), i + 1));
  }

  /** Every version ever committed says what its own update was to say. */
  lemma EveryVersionSays(steps: seq<Step>, i: nat)
    requires i < |Run(INITIAL, steps).log|
    ensures var s := Run(INITIAL, steps);
            s.log[i].call < |s.calls| && Says(s.calls[s.log[i].call].op, s.log[i].body)
  {
    RunKeepsInv(INITIAL, steps);
    var s := Run(INITIAL, steps);
    hide Run, Says, Applied;
    assert Linked(s, i);
    AppliedSays(s.calls[s.log[i].call].op, Before(s.log, i));
  }

  /**
   How often a call wrote. A call told it succeeded wrote at least once, one that raised or crashed
   may have written, and the number of lost answers is the exact difference; with none lost, success
   means exactly one write and anything else means none. In no run does a call write more than five times.
   */
  lemma WritesPerCall(steps: seq<Step>, call: nat)
    requires call < |Run(INITIAL, steps).calls|
    ensures var s := Run(INITIAL, steps);
            && Commits(s.log, call) == s.calls[call].lost + (if s.calls[call].acked then 1 else 0)
            && (s.calls[call].lost == 0 ==> (Commits(s.log, call) == 1 <==> s.calls[call].acked))
            && Commits(s.log, call) <= 5
  {
    RunKeepsInv(INITIAL, steps);
  }

  /**
   Why "once" needs the answers to arrive: a call whose first answer is lost writes twice, and its
   second write can undo what another tracker committed in between.
   */
  lemma LostAnswerRepeatsTheUpdate(mine: Op, other: Op) returns (steps: seq<Step>, s: State)
    requires mine == SetStatus(Paused, "mine", mine.at) && other == SetStatus(Live, "other", other.at)
    ensures s == Run(INITIAL, steps)
    ensures |s.log| == 3 && |s.calls| == 2 && s.calls[0].op == mine && Commits(s.log, 0) == 2
    ensures s.log[1].body.status == Live && s.log[2].body.status == Paused
  {
    hide Run, Next, Commits;
    var s2 := FirstThird(mine, other);
    var s4 := SecondThird(s2, mine, other);
    s := LastThird(s4, mine, other);
    steps := [Begin(0, mine), Write(0, LostRefused)];
    RunAppended(INITIAL, steps, Begin(1, other));
    steps := steps + [Begin(1, other)];
    RunAppended(INITIAL, steps, Write(1, Answered));
    steps := steps + [Write(1, Answered)];
    RunAppended(INITIAL, steps, Rebase(0));
    steps := steps + [Rebase(0)];
    RunAppended(INITIAL, steps, Write(0, Answered));
    steps := steps + [Write(0, Answered)];
    WritesPerCall(steps, 0);
  }

  lemma LastThird(s4: State, mine: Op, other: Op) returns (s6: State)
    requires mine == SetStatus(Paused, "mine", mine.at)
    requires |s4.log| == 2 && s4.log[1].body.status == Live
    requires s4.calls == [Call(mine, false, 1), Call(other, true, 0)] && PhaseOf(s4, 0) == Rebasing(0, 1)
    ensures s6 == Next(Next(s4, Rebase(0)), Write(0, Answered))
    ensures |s6.log| == 3 && s6.log[1].body.status == Live && s6.log[2].body.status == Paused
    ensures s6.calls == [Call(mine, true, 1), Call(other, true, 0)]
  {
    var s5 := Next(s4, Rebase(0));
    assert s5.trackers[0] == Writing(0, Apply(mine, s4.log[1].body), Some(1), 2);
    s6 := Next(s5, Write(0, Answered));
  }

  lemma SecondThird(s2: State, mine: Op, other: Op) returns (s4: State)
    requires other == SetStatus(Live, "other", other.at)
    requires |s2.log| == 1 && s2.log[0].call == 0 && s2.calls == [Call(mine, false, 1)]
    requires s2.trackers == map[0 := Rebasing(0, 1)]
    ensures s4 == Next(Next(s2, Begin(1, other)), Write(1, Answered))
    ensures |s4.log| == 2 && s4.log[1].body.status == Live
    ensures s4.calls == [Call(mine, false, 1), Call(other, true, 0)] && PhaseOf(s4, 0) == Rebasing(0, 1)
  {
    var s3 := Next(s2, Begin(1, other));
    assert s3.trackers[1] == Writing(1, Apply(other, s2.log[0].body), Some(0), 1);
    s4 := Next(s3, Write(1, Answered));
  }

  lemma FirstThird(mine: Op, other: Op) returns (s2: State)
    requires mine == SetStatus(Paused, "mine", mine.at)
    ensures s2 == Run(INITIAL, [Begin(0, mine), Write(0, LostRefused)])
    ensures |s2.log| == 1 && s2.log[0].call == 0 && s2.calls == [Call(mine, false, 1)]
    ensures s2.trackers == map[0 := Rebasing(0, 1)]
  {
    var steps := [Begin(0, mine), Write(0, LostRefused)];
    RunAppended(INITIAL, [], Begin(0, mine));
    RunAppended(INITIAL, [Begin(0, mine)], Write(0, LostRefused));
    assert [] + [Begin(0, mine)] == [Begin(0, mine)] && [Begin(0, mine)] + [Write(0, LostRefused)] == steps;
    s2 := Run(INITIAL, steps);
  }

}

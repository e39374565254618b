/**
 Checkpoints (api/checkpoint_manager.py): any number of managers loading, saving and resetting one
 checkpoint document. A version is named by its position in the log, which is its etag.
 */
module Checkpoints {
  import opened Outcomes

  datatype Value = Num(n: int) | Text(s: string) | Null

  /** The part of the document a caller supplies; the rest is derived from the manager. */
  datatype Checkpoint = Checkpoint(state: map<string, Value>, stats: map<string, Value>, pod: string, at: real)

  const TOKEN := "continuation_token"
  const LAST := "last_item_processed"
  const ITEMS := "items_processed"
  const SINCE := "items_since_checkpoint"

  function ItemsOf(cp: Checkpoint): int {
    if ITEMS in cp.state && cp.state[ITEMS].Num? then cp.state[ITEMS].n else 0
  }

  datatype Event = Saved(author: nat, replaced: Option<nat>, body: Checkpoint) | Reset(author: nat)

  /** What a manager remembers: the etag and the checkpoint it last loaded or wrote. */
  datatype Manager = Manager(etag: Option<nat>, view: Option<Checkpoint>)

  const BLANK := Manager(None, None)

  datatype State = State(log: seq<Event>, managers: map<nat, Manager>)

  const EMPTY := State([], map[])

  datatype Step =
    | Load(manager: nat)
    | Save(manager: nat, body: Checkpoint, fate: Fate)
    | Erase(manager: nat, fate: Fate)

  function ManagerOf(s: State, m: nat): Manager {
    if m in s.managers then s.managers[m] else BLANK
  }

  /** The etag of the stored document, if there is one. */
  function Current(s: State): Option<nat> {
    if s.log == [] || s.log[|s.log| - 1].Reset? then None else Some(|s.log| - 1)
  }

  function Remember(s: State, m: nat, what: Manager): State {
    s.(managers := s.managers[m := what])
  }

  function Loaded(s: State): Manager {
    if Current(s).None? then BLANK else Manager(Current(s), Some(s.log[|s.log| - 1].body))
  }

  /** Replace what I know, or create when I know of nothing. */
  predicate Fits(s: State, m: nat) {
    ManagerOf(s, m).etag == Current(s)
  }

  function Next(s: State, step: Step): State {
    match step
    case Load(m) => Remember(s, m, Loaded(s))
    case Save(m, body, fate) =>
      if !Fits(s, m) || fate.Unsent? then s
      else
        var stored := s.(log := s.log + [Saved(m, Current(s), body)]);
        if fate.Answered? then Remember(stored, m, Manager(Some(|s.log|), Some(body))) else stored
    case Erase(m, fate) =>
      var erased := if fate.Unsent? || Current(s).None? then s else s.(log := s.log + [Event.Reset(m)]);
      if fate.Unsent? || fate.LostRaised? then erased else Remember(erased, m, BLANK)
  }

  function Run(s: State, steps: seq<Step>): State {
    if steps == [] then s else Next(Run(s, steps[..|steps| - 1]), steps[|steps| - 1])
  }

  lemma RunAppended(s: State, steps: seq<Step>, step: Step)
    ensures Run(s, steps + [step]) == Next(Run(s, steps), step)
  {
    assert (steps + [step])[..|steps|] == steps;
  }

  // ---------------------------------------------------------------------- invariant

  ghost predicate Truthful(s: State, what: Manager) {
    if what.etag.None? then what.view.None?
    else what.etag.value < |s.log| && s.log[what.etag.value].Saved?
         && what.view == Some(s.log[what.etag.value].body)
  }

  /** A version was written over the one just before it, or into absence; a reset removed the one before it. */
  ghost predicate InPlace(log: seq<Event>, i: nat)
    requires i < |log|
  {
    match log[i]
    case Saved(_, replaced, _) => replaced == if i == 0 || log[i - 1].Reset? then None else Some(i - 1)
    case Reset(_) => i > 0 && log[i - 1].Saved?
  }

  ghost predicate Inv(s: State) {
    && (forall m | m in s.managers :: Truthful(s, s.managers[m]))
    && (forall i: nat | i < |s.log| :: InPlace(s.log, i))
  }

  lemma NextKeepsInv(s: State, step: Step)
    requires Inv(s)
    ensures Inv(Next(s, step)) && s.log <= Next(s, step).log
  {
    var n := Next(s, step);
    forall i: nat | i < |n.log| ensures InPlace(n.log, i) {
      if i < |s.log| {
        assert InPlace(s.log, i);
      }
    }
    forall m | m in n.managers ensures Truthful(n, n.managers[m]) {
      if m in s.managers {
        assert Truthful(s, s.managers[m]);
      }
    }
  }

  lemma {:induction false} RunKeepsInv(s: State, steps: seq<Step>)
    requires Inv(s)
    ensures Inv(Run(s, steps)) && s.log <= Run(s, steps).log
  {
    if steps != [] {
      RunKeepsInv(s, steps[..|steps| - 1]);
      NextKeepsInv(Run(s, steps[..|steps| - 1]), steps[|steps| - 1]);
    }
  }

  // ---------------------------------------------------------------------- main results

  function Known(what: Manager): int {
    if what.view.None? then 0 else ItemsOf(what.view.value)
  }

  /** The caller's side of the bargain: it never saves a count below the one it has in view. */
  predicate Honest(s: State, step: Step) {
    step.Save? ==> ItemsOf(step.body) >= Known(ManagerOf(s, step.manager))
  }

  ghost predicate HonestRun(s: State, steps: seq<Step>) {
    steps == [] ||
    (HonestRun(s, steps[..|steps| - 1]) && Honest(Run(s, steps[..|steps| - 1]), steps[|steps| - 1]))
  }

  /** Whatever a manager has in view, a save of that count or more is honest, and with nothing in view of any from 0. */
  lemma HonestSave(s: State, m: nat, body: Checkpoint, fate: Fate)
    requires "items_processed" in body.state && body.state["items_processed"].Num?
    requires var view, n := ManagerOf(s, m).view, body.state["items_processed"].n;
             if view.None? then n >= 0
             else "items_processed" in view.value.state && view.value.state["items_processed"].Num?
                  && view.value.state["items_processed"].n <= n
    ensures Honest(s, Save(m, body, fate)) && Honest(s, Load(m)) && Honest(s, Erase(m, fate))
  {
  }

  /** No version counts less than the one it was written over. */
  ghost predicate Forward(log: seq<Event>) {
    forall i: nat | i + 1 < |log| :: Grows(log, i)
  }

  ghost predicate Grows(log: seq<Event>, i: nat)
    requires i + 1 < |log|
  {
    log[i].Saved? && log[i + 1].Saved? ==> ItemsOf(log[i].body) <= ItemsOf(log[i + 1].body)
  }

  lemma HonestStepForward(s: State, step: Step)
    requires Inv(s) && Forward(s.log) && Honest(s, step)
    ensures Forward(Next(s, step).log)
  {
    var n, last := Next(s, step), |s.log|;
    if step.Save? && step.manager in s.managers {
      assert Truthful(s, s.managers[step.manager]);
    }
    forall i: nat | i + 1 < |n.log| ensures Grows(n.log, i) {
      if i + 1 < last {
        assert Grows(s.log, i);
      }
    }
  }

  lemma {:induction false} HonestRunForward(steps: seq<Step>)
    requires HonestRun(EMPTY, steps)
    ensures Forward(Run(EMPTY, steps).log)
  {
    hide Next, Honest, Forward;
    if steps == [] {
      EmptyForward();
    } else {
      HonestRunForward(steps[..|steps| - 1]);
      RunKeepsInv(EMPTY, steps[..|steps| - 1]);
      HonestStepForward(Run(EMPTY, steps[..|steps| - 1]), steps[|steps| - 1]);
    }
  }

  lemma EmptyForward()
    ensures Forward([])
  {
  }

  /**
   Checkpoints never go back: in every interleaving of honest callers, between two resets the stored
   count only grows.
   */
  lemma {:induction false} NeverGoesBack(steps: seq<Step>, i: nat, j: nat)
    requires HonestRun(EMPTY, steps) && i <= j < |Run(EMPTY, steps).log|
    requires forall k | i <= k <= j :: Run(EMPTY, steps).log[k].Saved?
    ensures ItemsOf(Run(EMPTY, steps).log[i].body) <= ItemsOf(Run(EMPTY, steps).log[j].body)
    decreases j - i
  {
    hide Run, HonestRun;
    if i < j {
      HonestRunForward(steps);
      assert Grows(Run(EMPTY, steps).log, j - 1);
      NeverGoesBack(steps, i, j - 1);
    }
  }

  /** What a save that commits knew: the version on top of the log, or that there is none. */
  lemma SaveKnew(s: State, step: Step)
    requires Inv(s) && step.Save? && Next(s, step).log != s.log
    ensures var known := ManagerOf(s, step.manager);
            && Next(s, step).log == s.log + [Saved(step.manager, known.etag, step.body)]
            && known == Loaded(s)
  {
    if step.manager in s.managers {
      assert Truthful(s, s.managers[step.manager]);
    }
  }

  /**
   Step `k` of the run, whose request went out, committed event `i`. A save was of exactly this checkpoint,
   and its writer's memory was the store at that moment; a reset was asked for.
   */
  ghost predicate CommittedBy(steps: seq<Step>, k: nat, i: nat)
    requires i < |Run(EMPTY, steps).log|
  {
    && k < |steps| && !steps[k].Load? && !steps[k].fate.Unsent?
    && var before := Run(EMPTY, steps[..k]);
       && |before.log| == i
       && match Run(EMPTY, steps).log[i]
          case Saved(author, replaced, body) =>
            && steps[k].Save? && steps[k].manager == author && steps[k].body == body
            && replaced == Current(before) && ManagerOf(before, author) == Loaded(before)
          case Reset(author) => steps[k].Erase? && steps[k].manager == author
  }

  lemma StillCommittedBy(steps: seq<Step>, step: Step, k: nat, i: nat)
    requires i < |Run(EMPTY, steps).log| && CommittedBy(steps, k, i)
    requires Run(EMPTY, steps).log <= Run(EMPTY, steps + [step]).log
    ensures CommittedBy(steps + [step], k, i)
  {
    hide Run;
    assert (steps + [step])[..k] == steps[..k];
  }

  lemma JustCommitted(steps: seq<Step>, step: Step)
    requires Inv(Run(EMPTY, steps)) && |Run(EMPTY, steps).log| < |Run(EMPTY, steps + [step]).log|
    ensures CommittedBy(steps + [step], |steps|, |Run(EMPTY, steps).log|)
  {
    RunAppended(EMPTY, steps, step);
    assert (steps + [step])[..|steps|] == steps;
    var before := Run(EMPTY, steps);
    hide Run, Inv;
    if step.Save? {
      SaveKnew(before, step);
    }
  }

  /**
   Every version of every run was committed by one save whose manager remembered exactly the document it
   replaced, or that there was none: the version just before it, or absence. Every reset was asked for, and
   removed a version.
   */
  lemma {:induction false} SavesReplaceWhatWasSeen(steps: seq<Step>, i: nat)
    requires i < |Run(EMPTY, steps).log|
    ensures exists k: nat :: CommittedBy(steps, k, i)
    ensures InPlace(Run(EMPTY, steps).log, i)
  {
    RunKeepsInv(EMPTY, steps);
    if steps != [] {
      var front, step := steps[..|steps| - 1], steps[|steps| - 1];
      assert front + [step] == steps;
      RunKeepsInv(EMPTY, front);
      RunAppended(EMPTY, front, step);
      NextKeepsInv(Run(EMPTY, front), step);
      NextAddsOne(Run(EMPTY, front), step);
      hide Run, Next, InPlace, CommittedBy;
      if i < |Run(EMPTY, front).log| {
        SavesReplaceWhatWasSeen(front, i);
        var k: nat :| CommittedBy(front, k, i);
        StillCommittedBy(front, step, k, i);
      } else {
        JustCommitted(front, step);
      }
    }
  }

  /** A load, a save that was answered and replaced what it should, or a reset known to have worked. */
  ghost predicate Teaches(s: State, step: Step) {
    || step.Load?
    || (step.Save? && step.fate.Answered? && |s.log| < |Next(s, step).log|)
    || (step.Erase? && (step.fate.Answered? || step.fate.LostRefused?))
  }

  /** Step `k` is the last to have told the manager anything. */
  ghost predicate LastLesson(steps: seq<Step>, m: nat, k: nat) {
    && k < |steps| && steps[k].manager == m && Teaches(Run(EMPTY, steps[..k]), steps[k])
    && forall j | k < j < |steps| && steps[j].manager == m :: !Teaches(Run(EMPTY, steps[..j]), steps[j])
  }

  ghost predicate NoLesson(steps: seq<Step>, m: nat) {
    forall j | 0 <= j < |steps| && steps[j].manager == m :: !Teaches(Run(EMPTY, steps[..j]), steps[j])
  }

  /** What a lesson leaves: nothing after a reset or in an empty store, else the newest version and its etag. */
  ghost predicate Learnt(what: Manager, step: Step, log: seq<Event>) {
    if step.Erase? || log == [] || log[|log| - 1].Reset? then what.etag.None? && what.view.None?
    else what.etag == Some(|log| - 1) && what.view == Some(log[|log| - 1].body)
  }

  lemma LessonStays(steps: seq<Step>, step: Step, m: nat)
    requires !(step.manager == m && Teaches(Run(EMPTY, steps), step))
    ensures forall k | LastLesson(steps, m, k) :: LastLesson(steps + [step], m, k)
    ensures NoLesson(steps, m) ==> NoLesson(steps + [step], m)
  {
    hide Teaches, Run;
    var all := steps + [step];
    assert all[..|steps|] == steps;
    forall j | 0 <= j < |steps| ensures all[..j] == steps[..j] && all[j] == steps[j] {
    }
  }

  lemma StepTeaches(s: State, step: Step, m: nat)
    requires Inv(s)
    ensures step.manager == m && Teaches(s, step) ==> Learnt(ManagerOf(Next(s, step), m), step, Next(s, step).log)
    ensures !(step.manager == m && Teaches(s, step)) ==> ManagerOf(Next(s, step), m) == ManagerOf(s, m)
  {
  }

  /** In every run a manager remembers exactly what the last of its calls to be answered told it. */
  lemma {:induction false} RemembersLastLesson(steps: seq<Step>, m: nat)
    ensures var memory := ManagerOf(Run(EMPTY, steps), m);
            || (NoLesson(steps, m) && memory.etag.None? && memory.view.None?)
            || exists k: nat :: LastLesson(steps, m, k) && Learnt(memory, steps[k], Run(EMPTY, steps[..k + 1]).log)
  {
    if steps != [] {
      var front, step := steps[..|steps| - 1], steps[|steps| - 1];
      RemembersLastLesson(front, m);
      RunKeepsInv(EMPTY, front);
      RunAppended(EMPTY, front, step);
      assert front + [step] == steps;
      StepTeaches(Run(EMPTY, front), step, m);
      hide Teaches, Run, Next, Learnt, Inv;
      if step.manager == m && Teaches(Run(EMPTY, front), step) {
        assert steps[..|front| + 1] == steps;
        assert LastLesson(steps, m, |front|);
      } else {
        LessonStays(front, step, m);
        hide NoLesson;
        if !NoLesson(front, m) {
          var k: nat :| LastLesson(front, m, k)
            && Learnt(ManagerOf(Run(EMPTY, front), m), front[k], Run(EMPTY, front[..k + 1]).log);
          assert LastLesson(steps, m, k) && steps[..k + 1] == front[..k + 1];
        }
      }
    }
  }

  lemma NextAddsOne(s: State, step: Step)
    ensures |Next(s, step).log| <= |s.log| + 1
  {
  }

  ghost predicate Stale(s: State, m: nat) {
    var etag := ManagerOf(s, m).etag;
    etag.Some? && etag.value + 1 < |s.log|
  }

  ghost predicate NeverReloads(steps: seq<Step>, m: nat) {
    forall i | 0 <= i < |steps| :: steps[i].Save? || steps[i].manager != m
  }

  ghost predicate Wrote(log: seq<Event>, from: nat, m: nat) {
    exists i | from <= i < |log| :: log[i].author == m
  }

  /**
   A manager overtaken by anything, a reset above all, writes nothing more until it reloads, however
   often it tries and whatever the others do meanwhile.
   */
  lemma {:induction false} StaleWritesNothing(s: State, steps: seq<Step>, m: nat)
    requires Inv(s) && Stale(s, m) && NeverReloads(steps, m)
    ensures var n := Run(s, steps);
            !Wrote(n.log, |s.log|, m) && ManagerOf(n, m) == ManagerOf(s, m) && |s.log| <= |n.log|
  {
    if steps != [] {
      var before, step := steps[..|steps| - 1], steps[|steps| - 1];
      StaleWritesNothing(s, before, m);
      var t, n := Run(s, before), Run(s, steps);
      if n.log != t.log {
        assert step.manager != m;
        assert n.log == t.log + [n.log[|t.log|]];
      }
    }
  }

  /** After a reset, a manager that holds an etag from before it and has not reloaded writes nothing. */
  lemma ResetIsNotUndone(s: State, steps: seq<Step>, m: nat, r: nat)
    requires Inv(s) && NeverReloads(steps, m)
    requires r < |s.log| && s.log[r].Reset? && ManagerOf(s, m).etag.Some? && ManagerOf(s, m).etag.value < r
    ensures !Wrote(Run(s, steps).log, |s.log|, m)
  {
    StaleWritesNothing(s, steps, m);
  }

  /** In this continuation the manager stores the given checkpoint without ever looking at the store. */
  ghost predicate PutsBack(s: State, steps: seq<Step>, m: nat, cp: Checkpoint) {
    && NeverReloads(steps, m)
    && exists i :: |s.log| <= i < |Run(s, steps).log| && SavedBy(Run(s, steps).log[i], m, cp)
  }

  predicate SavedBy(e: Event, m: nat, cp: Checkpoint) {
    e.Saved? && e.author == m && e.body == cp
  }

  /**
   The exact condition. After a reset, a manager whose memory is older than it can put any checkpoint of its
   own back without reloading, in some continuation, if and only if it holds no etag: then its save creates.
   */
  lemma ResetUndoneIff(s: State, m: nat, r: nat, cp: Checkpoint)
    requires Inv(s) && r < |s.log| && s.log[r].Reset?
    requires ManagerOf(s, m).etag.Some? ==> ManagerOf(s, m).etag.value < r
    ensures (exists steps :: PutsBack(s, steps, m, cp)) <==> ManagerOf(s, m).etag.None?
  {
    if ManagerOf(s, m).etag.None? {
      BlankManagerPutsBack(s, m, cp);
    } else {
      forall steps | NeverReloads(steps, m) ensures !PutsBack(s, steps, m, cp) {
        ResetIsNotUndone(s, steps, m, r);
      }
    }
  }

  lemma BlankManagerPutsBack(s: State, m: nat, cp: Checkpoint)
    requires Inv(s) && ManagerOf(s, m).etag.None?
    ensures exists steps :: PutsBack(s, steps, m, cp)
  {
    var erase, save := Erase(m + 1, Answered), Save(m, cp, Answered);
    assert Run(s, []) == s;
    RunAppended(s, [], erase);
    RunAppended(s, [] + [erase], save);
    var steps := [] + [erase] + [save];
    var n := Run(s, steps);
    hide Run;
    assert SavedBy(n.log[|n.log| - 1], m, cp);
    assert PutsBack(s, steps, m, cp);
  }

  /** Three steps of a run. */
  lemma RunOfThree(s: State, a: Step, b: Step, c: Step)
    ensures Run(s, [a, b, c]) == Next(Next(Next(s, a), b), c)
  {
    assert [a, b, c] == [] + [a] + [b] + [c];
    RunAppended(s, [], a);
    RunAppended(s, [] + [a], b);
    RunAppended(s, [] + [a] + [b], c);
    hide Next;
  }

  /** A creation whose answer is lost, and the reset that undoes it. */
  lemma CreatedAndErased(cp: Checkpoint)
    ensures var n := Next(Next(EMPTY, Save(0, cp, LostRaised)), Erase(1, Answered));
            && n.log == [Saved(0, None, cp), Event.Reset(1)] && ManagerOf(n, 0) == BLANK && Current(n).None?
  {
    var one := Next(EMPTY, Save(0, cp, LostRaised));
    assert one.log == [Saved(0, None, cp)] && ManagerOf(one, 0) == BLANK;
  }

  lemma WriteOverAbsence(s: State, m: nat, cp: Checkpoint, fate: Fate)
    requires ManagerOf(s, m) == BLANK && Current(s).None? && !fate.Unsent?
    ensures Next(s, Save(m, cp, fate)).log == s.log + [Saved(m, None, cp)]
  {
  }

  /** A run that undoes a reset: the creation's answer was lost, so manager 0 never learnt its etag. */
  lemma ResetUndoneAfterLostAnswer(cp: Checkpoint)
    ensures Run(EMPTY, [Save(0, cp, LostRaised), Erase(1, Answered), Save(0, cp, Answered)]).log
            == [Saved(0, None, cp), Event.Reset(1), Saved(0, None, cp)]
  {
    RunOfThree(EMPTY, Save(0, cp, LostRaised), Erase(1, Answered), Save(0, cp, Answered));
    CreatedAndErased(cp);
    WriteOverAbsence(Next(Next(EMPTY, Save(0, cp, LostRaised)), Erase(1, Answered)), 0, cp, Answered);
    hide *;
  }

  /** Another, with no answer lost: manager 0 had looked before there was a checkpoint. */
  lemma ResetUndoneAfterEarlyLoad(cp: Checkpoint, other: Checkpoint)
    ensures Run(State([], map[0 := BLANK]), [Save(1, other, Answered), Erase(1, Answered), Save(0, cp, Answered)]).log
            == [Saved(1, None, other), Event.Reset(1), Saved(0, None, cp)]
    ensures Next(EMPTY, Load(0)) == State([], map[0 := BLANK])
  {
    RunOfThree(State([], map[0 := BLANK]), Save(1, other, Answered), Erase(1, Answered), Save(0, cp, Answered));
    hide Run;
  }

  /** What `save` answers. `gone`: its last attempt found no document under the etag it named. */
  datatype SaveResult = True | False | Raises

  function SaveAnswer(fits: bool, fate: Fate, gone: bool, readable: bool): SaveResult {
    if fits && fate.Answered? then True
    else if fate.LostRaised? || fate.Unsent? || gone || !readable then Raises
    else False
  }

  /**
   What a save wrote, by its answer, in every state: True means a write; False hides one exactly if the
   answer to a fitting write was lost and the repeat refused. Under a known etag, a vanished document means
   no write, and an exception.
   */
  lemma AnswerHidesWriteIff(s: State, m: nat, body: Checkpoint, fate: Fate, gone: bool, readable: bool)
    requires !Fits(s, m) ==> (gone <==> ManagerOf(s, m).etag.Some? && Current(s).None?)
    ensures var wrote := Next(s, Save(m, body, fate)).log != s.log;
            var result := SaveAnswer(Fits(s, m), fate, gone, readable);
            && (wrote <==> Fits(s, m) && !fate.Unsent?)
            && (result.True? ==> wrote)
            && (result.False? ==> (wrote <==> Fits(s, m) && fate.LostRefused?))
            && (ManagerOf(s, m).etag.Some? && Current(s).None? ==> result.Raises? && !wrote)
  {
  }

  /** One save that answers False can have written twice: created, reset by another, created again. */
  lemma FalseMayHaveWrittenTwice(cp: Checkpoint)
    ensures Run(EMPTY, [Save(0, cp, LostRaised), Erase(1, Answered), Save(0, cp, LostRefused)]).log
            == [Saved(0, None, cp), Event.Reset(1), Saved(0, None, cp)]
    ensures SaveAnswer(true, LostRefused, false, true).False?
  {
    RunOfThree(EMPTY, Save(0, cp, LostRaised), Erase(1, Answered), Save(0, cp, LostRefused));
    CreatedAndErased(cp);
    WriteOverAbsence(Next(Next(EMPTY, Save(0, cp, LostRaised)), Erase(1, Answered)), 0, cp, LostRefused);
    hide *;
  }

  // ---------------------------------------------------------------------- the object

  /** The steps of one manager, in order. */
  ghost function Own(steps: seq<Step>, me: nat): seq<Step> {
    if steps == [] then []
    else
      var before := Own(steps[..|steps| - 1], me);
      if steps[|steps| - 1].manager == me then before + [steps[|steps| - 1]] else before
  }

  lemma OwnAppended(steps: seq<Step>, step: Step, me: nat)
    ensures Own(steps + [step], me) == if step.manager == me then Own(steps, me) + [step] else Own(steps, me)
  {
    assert (steps + [step])[..|steps|] == steps;
  }

  function Repeated(step: Step, times: nat): (r: seq<Step>)
    ensures |r| == times && forall i | 0 <= i < times :: r[i] == step
  {
    if times == 0 then [] else Repeated(step, times - 1) + [step]
  }

  lemma Nothing(s: State, me: nat)
    ensures Run(s, []) == s && Own([], me) == []
  {
  }

  /** The checkpoint document, with every other manager that works on it. */
  class SharedCheckpoint {
    var sys: State

    constructor ()
      ensures sys == EMPTY && Inv(sys)
    {
      sys := EMPTY;
    }

    method OthersRun(me: nat, ghost start: State, ghost sofar: seq<Step>) returns (ghost trace: seq<Step>)
      requires Inv(sys) && sys == Run(start, sofar)
      modifies this
      ensures Inv(sys) && sys == Run(start, trace) && old(sys).log <= sys.log && sofar <= trace
      ensures Own(trace, me) == Own(sofar, me) && ManagerOf(sys, me) == ManagerOf(old(sys), me)
    {
      hide Run, Own, Inv;
      trace := sofar;
      var more: nat := *;
      while more > 0
        invariant Inv(sys) && sys == Run(start, trace) && old(sys).log <= sys.log && sofar <= trace
        invariant Own(trace, me) == Own(sofar, me) && ManagerOf(sys, me) == ManagerOf(old(sys), me)
      {
        var step := AnyStep();
        if step.manager != me {
          RunAppended(start, trace, step);
          OwnAppended(trace, step, me);
          NextKeepsInv(sys, step);
          sys, trace := Next(sys, step), trace + [step];
        }
        more := more - 1;
      }
    }

    method Take(step: Step, ghost start: State, ghost sofar: seq<Step>) returns (ghost trace: seq<Step>)
      requires Inv(sys) && sys == Run(start, sofar)
      modifies this
      ensures Inv(sys) && sys == Next(old(sys), step) && sys == Run(start, trace) && old(sys).log <= sys.log
      ensures trace == sofar + [step] && Own(trace, step.manager) == Own(sofar, step.manager) + [step]
    {
      hide Run, Own, Inv, Next;
      RunAppended(start, sofar, step);
      OwnAppended(sofar, step, step.manager);
      NextKeepsInv(sys, step);
      sys, trace := Next(sys, step), sofar + [step];
    }
  }

  method AnyStep() returns (step: Step) {
    step := *;
  }

  lemma KeepsFront(first: seq<Step>, more: seq<Step>, at: nat)
    requires first <= more && at < |first|
    ensures more[..at] == first[..at] && more[at] == first[at]
  {
  }

  class CheckpointManager {
    const store: SharedCheckpoint
    const me: nat
    var currentEtag: Option<nat>
    var checkpoint: Option<Checkpoint>

    /** The fields are what the protocol says this manager remembers. */
    ghost predicate Valid()
      reads this, store
    {
      Inv(store.sys) && ManagerOf(store.sys, me) == Manager(currentEtag, checkpoint)
    }

    constructor (store: SharedCheckpoint, me: nat)
      requires Inv(store.sys) && me !in store.sys.managers
      ensures Valid() && this.store == store && this.me == me
    {
      this.store, this.me := store, me;
      currentEtag, checkpoint := None, None;
    }

    /** `load`; `readable` is false when the store raises. */
    method Load(ghost start: State, ghost sofar: seq<Step>)
      returns (loaded: Option<Checkpoint>, readable: bool, ghost trace: seq<Step>)
      requires Valid() && store.sys == Run(start, sofar)
      modifies this, store
      ensures Valid() && store.sys == Run(start, trace) && store.sys.log == old(store.sys).log
      ensures Own(trace, me) == (if readable then Own(sofar, me) + [Step.Load(me)] else Own(sofar, me))
      ensures sofar <= trace
      ensures readable ==>
                && store.sys == Next(old(store.sys), Step.Load(me))
                && loaded == checkpoint && currentEtag == Current(store.sys)
                && var log := store.sys.log;
                   if log == [] || log[|log| - 1].Reset? then loaded.None? && currentEtag.None?
                   else loaded == Some(log[|log| - 1].body) && currentEtag == Some(|log| - 1)
      ensures !readable ==> store.sys == old(store.sys) && currentEtag == old(currentEtag)
    {
      readable := *;
      if !readable {
        return None, false, sofar;
      }
      var known := Loaded(store.sys);
      currentEtag := known.etag;
      checkpoint := known.view;
      trace := store.Take(Step.Load(me), start, sofar);
      loaded := checkpoint;
    }

    /** `get_items_processed`. */
    method GetItemsProcessed() returns (items: Value)
      requires Valid()
      ensures items == if checkpoint.Some? && "items_processed" in checkpoint.value.state
                       then checkpoint.value.state["items_processed"] else Num(0)
      ensures items.Num? ==> items.n == Known(ManagerOf(store.sys, me))
    {
      items := if checkpoint.Some? && ITEMS in checkpoint.value.state then checkpoint.value.state[ITEMS] else Num(0);
    }

    /** `get_continuation_token`. */
    method GetContinuationToken() returns (token: Value)
      ensures token == if checkpoint.Some? && "continuation_token" in checkpoint.value.state
                       then checkpoint.value.state["continuation_token"] else Null
    {
      token := if checkpoint.Some? && TOKEN in checkpoint.value.state then checkpoint.value.state[TOKEN] else Null;
    }

    /** `get_last_item`. */
    method GetLastItem() returns (item: Value)
      ensures item == if checkpoint.Some? && "last_item_processed" in checkpoint.value.state
                      then checkpoint.value.state["last_item_processed"] else Null
    {
      item := if checkpoint.Some? && LAST in checkpoint.value.state then checkpoint.value.state[LAST] else Null;
    }

    /**
     `save`. True: exactly the version last loaded or written was replaced, or the document created into
     absence, and this manager is up to date. False: it lost to someone and has reloaded. What it wrote is
     `hidden` blind creations whose answers were lost, each undone by a reset before the next, and one last
     write in state `before`, step `at` of the trace; `AnswerHidesWriteIff` says what that answer hides.
     */
    method Save(continuation: Value, lastItem: string, items: int, since: int,
                extraState: map<string, Value>, extraStats: map<string, Value>, pod: string, now: real)
      returns (result: SaveResult, ghost fate: Fate, ghost before: State, ghost body: Checkpoint,
               ghost hidden: nat, ghost gone: bool, ghost readable: bool, ghost at: nat, ghost trace: seq<Step>)
      requires Valid()
      modifies this, store
      ensures Valid() && store.sys == Run(old(store.sys), trace) && old(store.sys).log <= store.sys.log
      ensures ManagerOf(before, me) == old(ManagerOf(store.sys, me)) && old(store.sys).log <= before.log
      ensures at < |trace| && trace[at] == Step.Save(me, body, fate) && before == Run(old(store.sys), trace[..at])
      ensures result == SaveAnswer(Fits(before, me), fate, gone, readable)
      ensures result.True? <==> fate.Answered? && old(currentEtag) == Current(before)
      ensures result.False? <==> !result.True? && (fate.Answered? || fate.LostRefused?) && !gone && readable
      ensures !Fits(before, me) ==> (gone <==> old(currentEtag).Some? && Current(before).None?)
      ensures gone ==> old(currentEtag).Some?
      ensures old(currentEtag).Some? ==> hidden == 0
      ensures Own(trace, me) == Repeated(Step.Save(me, body, LostRaised), hidden) + [Step.Save(me, body, fate)]
                                + if result.False? then [Step.Load(me)] else []
      ensures body.state.Keys == extraState.Keys + {"continuation_token", "last_item_processed", "items_processed",
                                                    "items_since_checkpoint"}
      ensures forall k | k in extraState :: body.state[k] == extraState[k]
      ensures "continuation_token" !in extraState ==> body.state["continuation_token"] == continuation
      ensures "last_item_processed" !in extraState ==> body.state["last_item_processed"] == Text(lastItem)
      ensures "items_processed" !in extraState ==> body.state["items_processed"] == Num(items)
      ensures "items_since_checkpoint" !in extraState ==> body.state["items_since_checkpoint"] == Num(since)
      ensures body.stats == extraStats && body.pod == pod && body.at == now
      ensures result.True? ==>
                && store.sys == Next(before, Step.Save(me, body, fate))
                && currentEtag == Current(store.sys) == Some(|before.log|) && checkpoint == Some(body)
                && store.sys.log == before.log + [Saved(me, old(currentEtag), body)]
                && (old(currentEtag).Some? ==> |store.sys.log| == old(currentEtag).value + 2)
      ensures result.False? ==>
                var log := store.sys.log;
                if log == [] || log[|log| - 1].Reset? then checkpoint.None? && currentEtag.None?
                else checkpoint == Some(log[|log| - 1].body) && currentEtag == Some(|log| - 1)
      ensures result.Raises? ==> currentEtag == old(currentEtag) && checkpoint == old(checkpoint)
    {
      hide Run, InPlace, Truthful, Inv, Own, SaveAnswer, Next;
      Nothing(store.sys, me);
      trace := store.OthersRun(me, old(store.sys), []);
      var state := map[TOKEN := continuation, LAST := Text(lastItem), ITEMS := Num(items), SINCE := Num(since)];
      var written := Checkpoint(state + extraState, extraStats, pod, now);
      body := written;
      trace, hidden := LostCreations(written, old(store.sys), trace);
      before, at := store.sys, |trace|;
      ghost var front := trace;
      result, fate, gone, readable, trace := LastWrite(written, old(store.sys), trace);
      KeepsFront(front + [Step.Save(me, written, fate)], trace, at);
      assert (front + [Step.Save(me, written, fate)])[..at] == front;
    }

    /** The last request of a save, and what becomes of the manager by its answer. */
    method LastWrite(body: Checkpoint, ghost start: State, ghost sofar: seq<Step>)
      returns (result: SaveResult, ghost fate: Fate, ghost gone: bool, ghost readable: bool, ghost trace: seq<Step>)
      requires Valid() && store.sys == Run(start, sofar)
      modifies this, store
      ensures Valid() && store.sys == Run(start, trace) && old(store.sys).log <= store.sys.log
      ensures sofar + [Step.Save(me, body, fate)] <= trace
      ensures result == SaveAnswer(Fits(old(store.sys), me), fate, gone, readable)
      ensures result.True? <==> fate.Answered? && old(currentEtag) == Current(old(store.sys))
      ensures result.False? <==> !result.True? && (fate.Answered? || fate.LostRefused?) && !gone && readable
      ensures !Fits(old(store.sys), me) ==> (gone <==> old(currentEtag).Some? && Current(old(store.sys)).None?)
      ensures gone ==> old(currentEtag).Some?
      ensures Own(trace, me) == Own(sofar, me) + [Step.Save(me, body, fate)]
                                + if result.False? then [Step.Load(me)] else []
      ensures result.True? ==>
                && store.sys == Next(old(store.sys), Step.Save(me, body, fate))
                && currentEtag == Current(store.sys) == Some(|old(store.sys).log|) && checkpoint == Some(body)
                && store.sys.log == old(store.sys).log + [Saved(me, old(currentEtag), body)]
                && (old(currentEtag).Some? ==> |store.sys.log| == old(currentEtag).value + 2)
      ensures result.False? ==>
                var log := store.sys.log;
                if log == [] || log[|log| - 1].Reset? then checkpoint.None? && currentEtag.None?
                else checkpoint == Some(log[|log| - 1].body) && currentEtag == Some(|log| - 1)
      ensures result.Raises? ==> currentEtag == old(currentEtag) && checkpoint == old(checkpoint)
    {
      hide Run, InPlace, Truthful, Inv, Own;
      var end := AnyFate();
      fate, readable := end, true;
      var fits := currentEtag == Current(store.sys);
      trace := store.Take(Step.Save(me, body, end), start, sofar);
      if fits && end.Answered? {
        currentEtag := Current(store.sys);
        checkpoint := Some(body);
        return True, fate, false, readable, trace;
      }
      if fits && end.LostRefused? && currentEtag.Some? {
        trace := store.OthersRun(me, start, trace);
      }
      var absent := currentEtag.Some? && Current(store.sys).None?;
      gone := absent;
      if end.LostRaised? || end.Unsent? || absent {
        return Raises, fate, gone, readable, trace;
      }
      trace := store.OthersRun(me, start, trace);
      var loaded, read;
      loaded, read, trace := Load(start, trace);
      readable := read;
      result := if read then False else Raises;
    }

    /** Creations that succeed although the caller never hears of it, each after the last was undone. */
    method LostCreations(body: Checkpoint, ghost start: State, ghost sofar: seq<Step>)
      returns (ghost trace: seq<Step>, ghost hidden: nat)
      requires Valid() && store.sys == Run(start, sofar) && Own(sofar, me) == []
      modifies store
      ensures Valid() && store.sys == Run(start, trace) && old(store.sys).log <= store.sys.log
      ensures Own(trace, me) == Repeated(Step.Save(me, body, LostRaised), hidden)
      ensures ManagerOf(store.sys, me) == old(ManagerOf(store.sys, me))
      ensures currentEtag.Some? ==> hidden == 0
    {
      hide Run, InPlace, Truthful, Inv, Own;
      trace, hidden := sofar, 0;
      var more: nat := *;
      while more > 0 && currentEtag.None?
        invariant Valid() && store.sys == Run(start, trace) && old(store.sys).log <= store.sys.log
        invariant Own(trace, me) == Repeated(Step.Save(me, body, LostRaised), hidden)
        invariant ManagerOf(store.sys, me) == old(ManagerOf(store.sys, me))
        invariant currentEtag.Some? ==> hidden == 0
      {
        trace := store.Take(Step.Save(me, body, LostRaised), start, trace);
        trace := store.OthersRun(me, start, trace);
        more, hidden := more - 1, hidden + 1;
      }
    }

    /**
     `reset`: True once the document is known to be gone; otherwise it raises. It may delete more than once;
     the last request, in state `before`, removes the document if there is one and the request went out.
     */
    method Reset()
      returns (done: bool, ghost lost: nat, ghost fate: Fate, ghost before: State, ghost trace: seq<Step>)
      requires Valid()
      modifies this, store
      ensures Valid() && store.sys == Run(old(store.sys), trace) && old(store.sys).log <= store.sys.log
      ensures Own(trace, me) == Repeated(Erase(me, LostRaised), lost) + [Erase(me, fate)]
      ensures trace != [] && before == Run(old(store.sys), trace[..|trace| - 1])
      ensures store.sys.log == if fate.Unsent? || before.log == [] || before.log[|before.log| - 1].Reset?
                               then before.log else before.log + [Event.Reset(me)]
      ensures done <==> fate.Answered? || fate.LostRefused?
      ensures done ==> currentEtag.None? && checkpoint.None? && Current(store.sys).None?
      ensures !done ==> currentEtag == old(currentEtag) && checkpoint == old(checkpoint)
    {
      hide Run, InPlace, Truthful, Inv, Own;
      Nothing(store.sys, me);
      trace := store.OthersRun(me, old(store.sys), []);
      lost := 0;
      var more: nat := *;
      while more > 0
        invariant Valid() && store.sys == Run(old(store.sys), trace) && old(store.sys).log <= store.sys.log
        invariant Own(trace, me) == Repeated(Erase(me, LostRaised), lost)
        invariant currentEtag == old(currentEtag) && checkpoint == old(checkpoint)
      {
        trace := store.Take(Erase(me, LostRaised), old(store.sys), trace);
        trace := store.OthersRun(me, old(store.sys), trace);
        more, lost := more - 1, lost + 1;
      }
      var end := AnyFate();
      fate, before := end, store.sys;
      ghost var front := trace;
      trace := store.Take(Erase(me, end), old(store.sys), trace);
      assert trace[..|trace| - 1] == front;
      if end.Unsent? || end.LostRaised? {
        return false, lost, fate, before, trace;
      }
      currentEtag, checkpoint := None, None;
      done := true;
    }
  }
}

/**
 Importing a bundle of resources into a deployment that may already have some of them (`import_bundle`,
 `_rewrite_ids` and `_new_suffixed_id` of api/api.py).
 */
module BundleImport {
  import opened Outcomes

  datatype Kind = Sources | Destinations | Models | Assistants | Pipelines

  type Key = (Kind, string)

  /** A reference to another resource; the field it stands in says of which kind. */
  datatype Ref = Ref(kind: Kind, id: string)

  /** A resource. An empty id stands for a missing one; `rest` is what importing never looks at. */
  datatype Item = Item(id: string, name: string, status: string, refs: seq<Ref>, rest: string)

  datatype Entry = Junk(kind: Kind) | Thing(kind: Kind, item: Item)

  datatype Mode = Skip | Overwrite | Rename

  /** What becomes of an entry. */
  datatype Action = Rejected | Skipped | Created | Overwritten | Renamed(id: string) {

    predicate Writes() {
      !Rejected? && !Skipped?
    }
  }

  /** The entries so far, in the order sources, destinations, models, assistants, pipelines. */
  datatype Plan = Plan(existing: set<Key>, idMap: map<string, string>, actions: seq<Action>, draws: seq<string>)

  function CopyId(was: string, suffix: string): string {
    if was != "" then was + "-copy-" + suffix else "copy-" + suffix
  }

  datatype Drawn = OutOfDraws | Drawn(id: string, rest: seq<string>)

  /** The first random suffix that gives an id no resource of the kind has. `draws` is what the generator will yield. */
  function Draw(existing: set<Key>, kind: Kind, was: string, draws: seq<string>): (r: Drawn)
    ensures r.Drawn? ==> (kind, r.id) !in existing
  {
    if draws == [] then OutOfDraws
    else if (kind, CopyId(was, draws[0])) in existing then Draw(existing, kind, was, draws[1..])
    else Drawn(CopyId(was, draws[0]), draws[1..])
  }

  /** One entry; None while the generator has only yielded ids that are taken. */
  function Step(mode: Mode, p: Plan, e: Entry): Option<Plan> {
    if e.Junk? || e.item.id == "" then Some(p.(actions := p.actions + [Rejected]))
    else
      var key := (e.kind, e.item.id);
      if key !in p.existing then Some(p.(existing := p.existing + {key}, actions := p.actions + [Created]))
      else
        match mode
        case Skip => Some(p.(actions := p.actions + [Skipped]))
        case Overwrite => Some(p.(actions := p.actions + [Overwritten]))
        case Rename =>
          var drawn := Draw(p.existing, e.kind, e.item.id, p.draws);
          if drawn.OutOfDraws? then None
          else
            Some(Plan(p.existing + {(e.kind, drawn.id)}, p.idMap[e.item.id := drawn.id],
                      p.actions + [Renamed(drawn.id)], drawn.rest))
  }

  function PlanFor(mode: Mode, existing: set<Key>, bundle: seq<Entry>, draws: seq<string>): Option<Plan> {
    if bundle == [] then Some(Plan(existing, map[], [], draws))
    else
      var before := PlanFor(mode, existing, bundle[..|bundle| - 1], draws);
      if before.None? then None else Step(mode, before.value, bundle[|bundle| - 1])
  }

  // ---------------------------------------------------------------------- what is written

  function LastFour(s: string): string {
    if |s| <= 4 then s else s[|s| - 4..]
  }

  /** An entry as the first loop leaves it: renamed if it has to be, and paused if it is a pipeline. */
  function Placed(e: Entry, a: Action): Item
    requires e.Thing?
  {
    var item := e.item;
    var named := if a.Renamed? then
                   item.(id := a.id, name := if item.name != "" then item.name + "-copy-" + LastFour(a.id) else "")
                 else item;
    if e.kind.Pipelines? && a.Writes() then named.(status := "paused") else named
  }

  function NewRef(r: Ref, idMap: map<string, string>): Ref {
    if r.id in idMap then r.(id := idMap[r.id]) else r
  }

  /** `_rewrite_ids` on one resource: only pipelines and assistants have references. */
  function Rewritten(kind: Kind, item: Item, idMap: map<string, string>): Item {
    if kind.Pipelines? || kind.Assistants? then
      item.(refs := seq(|item.refs|, i requires 0 <= i < |item.refs| => NewRef(item.refs[i], idMap)))
    else item
  }

  ghost predicate Planned(bundle: seq<Entry>, plan: Plan) {
    |plan.actions| == |bundle| && forall i | 0 <= i < |bundle| :: plan.actions[i].Writes() ==> bundle[i].Thing?
  }

  function Final(bundle: seq<Entry>, plan: Plan, i: nat): Item
    requires Planned(bundle, plan) && i < |bundle| && plan.actions[i].Writes()
  {
    Rewritten(bundle[i].kind, Placed(bundle[i], plan.actions[i]), plan.idMap)
  }

  function FinalKey(bundle: seq<Entry>, plan: Plan, i: nat): Key
    requires Planned(bundle, plan) && i < |bundle| && plan.actions[i].Writes()
  {
    (bundle[i].kind, Final(bundle, plan, i).id)
  }

  /** The documents after the first `n` entries have been written over `docs`. */
  function Upserted(docs: map<Key, Item>, bundle: seq<Entry>, plan: Plan, n: nat): map<Key, Item>
    requires Planned(bundle, plan) && n <= |bundle|
  {
    if n == 0 then docs
    else
      var before := Upserted(docs, bundle, plan, n - 1);
      if !plan.actions[n - 1].Writes() then before
      else before[FinalKey(bundle, plan, n - 1) := Final(bundle, plan, n - 1)]
  }

  // ---------------------------------------------------------------------- facts about every plan

  /** The key an action puts an entry under. */
  function KeyOf(e: Entry, a: Action): Key
    requires e.Thing?
  {
    (e.kind, if a.Renamed? then a.id else e.item.id)
  }

  lemma FinalKeyIs(bundle: seq<Entry>, plan: Plan, i: nat)
    requires Planned(bundle, plan) && i < |bundle| && plan.actions[i].Writes()
    ensures FinalKey(bundle, plan, i) == KeyOf(bundle[i], plan.actions[i])
  {
  }

  /** The taken ids are those that existed and those of the entries written. */
  ghost predicate Taken(existing: set<Key>, bundle: seq<Entry>, plan: Plan)
    requires Planned(bundle, plan)
  {
    && existing <= plan.existing
    && (forall i | 0 <= i < |bundle| && plan.actions[i].Writes() :: KeyOf(bundle[i], plan.actions[i]) in plan.existing)
    && (forall k | k in plan.existing :: k in existing || WrittenAs(bundle, plan, k))
  }

  ghost predicate WrittenAs(bundle: seq<Entry>, plan: Plan, k: Key)
    requires Planned(bundle, plan)
  {
    exists i :: 0 <= i < |bundle| && plan.actions[i].Writes() && KeyOf(bundle[i], plan.actions[i]) == k
  }

  /** Unless existing resources are overwritten, each write has an id of its own that nothing had. */
  ghost predicate Fresh(existing: set<Key>, bundle: seq<Entry>, plan: Plan)
    requires Planned(bundle, plan)
  {
    && (forall i | 0 <= i < |bundle| && plan.actions[i].Writes() :: KeyOf(bundle[i], plan.actions[i]) !in existing)
    && (forall i, j | 0 <= i < j < |bundle| && plan.actions[i].Writes() && plan.actions[j].Writes() ::
          KeyOf(bundle[i], plan.actions[i]) != KeyOf(bundle[j], plan.actions[j]))
  }

  ghost predicate RenamedTo(bundle: seq<Entry>, plan: Plan, i: int, was: string, became: string)
    requires Planned(bundle, plan)
  {
    0 <= i < |bundle| && plan.actions[i] == Renamed(became) && bundle[i].item.id == was
  }

  /** The map of renamed ids comes from the entries, and every renamed entry is in it. */
  ghost predicate Mapped(bundle: seq<Entry>, plan: Plan)
    requires Planned(bundle, plan)
  {
    && (forall x | x in plan.idMap :: exists i :: RenamedTo(bundle, plan, i, x, plan.idMap[x]))
    && (forall i | 0 <= i < |bundle| && plan.actions[i].Renamed? :: bundle[i].item.id in plan.idMap)
  }

  /** An entry with an id is renamed, or its id is taken afterwards. */
  ghost predicate Served(bundle: seq<Entry>, plan: Plan)
    requires Planned(bundle, plan)
  {
    forall i | 0 <= i < |bundle| && bundle[i].Thing? && bundle[i].item.id != "" && !plan.actions[i].Renamed? ::
      (bundle[i].kind, bundle[i].item.id) in plan.existing
  }

  ghost predicate Sound(mode: Mode, existing: set<Key>, bundle: seq<Entry>, plan: Plan) {
    && Planned(bundle, plan)
    && Taken(existing, bundle, plan) && (!mode.Overwrite? ==> Fresh(existing, bundle, plan))
    && Mapped(bundle, plan) && Served(bundle, plan)
    && (!mode.Rename? ==> forall i | 0 <= i < |bundle| :: !plan.actions[i].Renamed?)
    && (!mode.Overwrite? ==> forall i | 0 <= i < |bundle| :: !plan.actions[i].Overwritten?)
    && (!mode.Skip? ==> forall i | 0 <= i < |bundle| :: !plan.actions[i].Skipped?)
    && (forall i | 0 <= i < |bundle| :: plan.actions[i].Rejected? <==> bundle[i].Junk? || bundle[i].item.id == "")
  }

  /** What one step adds to a plan: an action, perhaps a taken id, perhaps a renaming. */
  lemma StepFacts(mode: Mode, p: Plan, e: Entry)
    requires Step(mode, p, e).Some?
    ensures var n := Step(mode, p, e).value;
            && |n.actions| == |p.actions| + 1 && n.actions[..|p.actions|] == p.actions
            && var a := n.actions[|p.actions|];
               && (a.Rejected? <==> e.Junk? || e.item.id == "")
               && n.existing == (if a.Writes() then p.existing + {KeyOf(e, a)} else p.existing)
               && n.idMap == (if a.Renamed? then p.idMap[e.item.id := a.id] else p.idMap)
               && (a.Created? || a.Renamed? ==> KeyOf(e, a) !in p.existing)
               && (a.Skipped? || a.Overwritten? ==> (e.kind, e.item.id) in p.existing)
               && (a.Renamed? ==> mode.Rename?) && (a.Overwritten? ==> mode.Overwrite?) && (a.Skipped? ==> mode.Skip?)
  {
  }

  lemma StepKeepsTaken(mode: Mode, existing: set<Key>, front: seq<Entry>, p: Plan, e: Entry, n: Plan)
    requires Planned(front, p) && Taken(existing, front, p) && Step(mode, p, e) == Some(n)
    ensures Planned(front + [e], n) && Taken(existing, front + [e], n)
  {
    StepFacts(mode, p, e);
    hide Step, KeyOf;
    var bundle, m := front + [e], |front|;
    assert forall i | 0 <= i < m :: bundle[i] == front[i] && n.actions[i] == n.actions[..m][i] == p.actions[i];
    forall k | k in n.existing
      ensures k in existing || WrittenAs(bundle, n, k)
    {
      if k in p.existing {
        if k !in existing {
          var i :| 0 <= i < m && p.actions[i].Writes() && KeyOf(front[i], p.actions[i]) == k;
          assert KeyOf(bundle[i], n.actions[i]) == k;
        }
      } else {
        assert KeyOf(bundle[m], n.actions[m]) == k;
      }
    }
  }

  lemma StepKeepsFresh(mode: Mode, existing: set<Key>, front: seq<Entry>, p: Plan, e: Entry, n: Plan)
    requires Planned(front, p) && Taken(existing, front, p) && Fresh(existing, front, p)
    requires Step(mode, p, e) == Some(n) && !mode.Overwrite? && Planned(front + [e], n)
    ensures Fresh(existing, front + [e], n)
  {
    StepFacts(mode, p, e);
    hide Step, KeyOf;
    var bundle, m := front + [e], |front|;
    assert forall i | 0 <= i < m :: bundle[i] == front[i] && n.actions[i] == n.actions[..m][i] == p.actions[i];
  }

  lemma StepKeepsMapped(mode: Mode, front: seq<Entry>, p: Plan, e: Entry, n: Plan)
    requires Planned(front, p) && Mapped(front, p) && Step(mode, p, e) == Some(n) && Planned(front + [e], n)
    ensures Mapped(front + [e], n)
  {
    StepFacts(mode, p, e);
    hide Step;
    var bundle, m := front + [e], |front|;
    assert forall i | 0 <= i < m :: bundle[i] == front[i] && n.actions[i] == n.actions[..m][i] == p.actions[i];
    forall x | x in n.idMap
      ensures exists i :: RenamedTo(bundle, n, i, x, n.idMap[x])
    {
      if n.actions[m].Renamed? && x == e.item.id {
        assert RenamedTo(bundle, n, m, x, n.idMap[x]);
      } else {
        var i :| RenamedTo(front, p, i, x, p.idMap[x]);
        assert RenamedTo(bundle, n, i, x, n.idMap[x]);
      }
    }
  }

  lemma StepKeepsServed(mode: Mode, front: seq<Entry>, p: Plan, e: Entry, n: Plan)
    requires Planned(front, p) && Served(front, p) && Step(mode, p, e) == Some(n) && Planned(front + [e], n)
    ensures Served(front + [e], n)
  {
    StepFacts(mode, p, e);
    hide Step;
    var bundle, m := front + [e], |front|;
    assert forall i | 0 <= i < m :: bundle[i] == front[i] && n.actions[i] == n.actions[..m][i] == p.actions[i];
  }

  lemma StepKeepsSound(mode: Mode, existing: set<Key>, front: seq<Entry>, p: Plan, e: Entry, n: Plan)
    requires Sound(mode, existing, front, p) && Step(mode, p, e) == Some(n)
    ensures Sound(mode, existing, front + [e], n)
  {
    hide Taken, Fresh, Mapped, Served;
    StepKeepsTaken(mode, existing, front, p, e, n);
    if !mode.Overwrite? {
      StepKeepsFresh(mode, existing, front, p, e, n);
    }
    StepKeepsMapped(mode, front, p, e, n);
    StepKeepsServed(mode, front, p, e, n);
    StepFacts(mode, p, e);
    hide Step;
    var bundle, m := front + [e], |front|;
    assert forall i | 0 <= i < m :: bundle[i] == front[i] && n.actions[i] == n.actions[..m][i] == p.actions[i];
  }

  lemma {:induction false} PlanIsSound(mode: Mode, existing: set<Key>, bundle: seq<Entry>, draws: seq<string>)
    requires PlanFor(mode, existing, bundle, draws).Some?
    ensures Sound(mode, existing, bundle, PlanFor(mode, existing, bundle, draws).value)
  {
    if bundle != [] {
      var front, e := bundle[..|bundle| - 1], bundle[|bundle| - 1];
      PlanIsSound(mode, existing, front, draws);
      hide Sound, Step;
      StepKeepsSound(mode, existing, front, PlanFor(mode, existing, front, draws).value, e,
                     PlanFor(mode, existing, bundle, draws).value);
      assert front + [e] == bundle;
    }
  }

  // ---------------------------------------------------------------------- main results

  lemma {:induction false} UpsertedKeys(docs: map<Key, Item>, bundle: seq<Entry>, plan: Plan, n: nat)
    requires Planned(bundle, plan) && n <= |bundle|
    ensures docs.Keys <= Upserted(docs, bundle, plan, n).Keys
    ensures forall i | 0 <= i < n && plan.actions[i].Writes() ::
              KeyOf(bundle[i], plan.actions[i]) in Upserted(docs, bundle, plan, n)
    ensures forall k | k in Upserted(docs, bundle, plan, n) :: k in docs || WrittenAs(bundle, plan, k)
  {
    if n > 0 {
      UpsertedKeys(docs, bundle, plan, n - 1);
      if plan.actions[n - 1].Writes() {
        FinalKeyIs(bundle, plan, n - 1);
      }
      hide Final, KeyOf;
    }
  }

  /** The keys of the store after the import: exactly the taken ids. */
  lemma KeysAfter(mode: Mode, docs: map<Key, Item>, bundle: seq<Entry>, plan: Plan)
    requires Sound(mode, docs.Keys, bundle, plan)
    ensures Upserted(docs, bundle, plan, |bundle|).Keys == plan.existing
  {
    UpsertedKeys(docs, bundle, plan, |bundle|);
    hide KeyOf, Upserted;
    assert forall k | k in plan.existing :: k in docs.Keys || WrittenAs(bundle, plan, k);
  }

  ghost predicate Resolves(docs: map<Key, Item>, r: Ref) {
    (r.kind, r.id) in docs
  }

  ghost predicate InBundle(bundle: seq<Entry>, r: Ref) {
    && r.id != ""
    && exists i :: 0 <= i < |bundle| && bundle[i].Thing? && (bundle[i].kind, bundle[i].item.id) == (r.kind, r.id)
  }

  /** No entry of another kind has the id this reference names. */
  ghost predicate Unambiguous(bundle: seq<Entry>, r: Ref) {
    forall i | 0 <= i < |bundle| && bundle[i].Thing? && bundle[i].item.id == r.id :: bundle[i].kind == r.kind
  }

  /**
   The reference graph survives in every mode: a reference that resolved in the bundle or in the store
   resolves afterwards, if no resource of another kind in the bundle shares the id it names.
   */
  lemma ReferencesResolve(mode: Mode, docs: map<Key, Item>, bundle: seq<Entry>, draws: seq<string>, r: Ref)
    requires PlanFor(mode, docs.Keys, bundle, draws).Some? && Unambiguous(bundle, r)
    requires Resolves(docs, r) || InBundle(bundle, r)
    ensures var plan := PlanFor(mode, docs.Keys, bundle, draws).value;
            Planned(bundle, plan) && Resolves(Upserted(docs, bundle, plan, |bundle|), NewRef(r, plan.idMap))
  {
    PlanIsSound(mode, docs.Keys, bundle, draws);
    var plan := PlanFor(mode, docs.Keys, bundle, draws).value;
    KeysAfter(mode, docs, bundle, plan);
    hide PlanFor, Upserted;
    if r.id in plan.idMap {
      var i :| RenamedTo(bundle, plan, i, r.id, plan.idMap[r.id]);
      assert KeyOf(bundle[i], plan.actions[i]) in plan.existing;
    } else if InBundle(bundle, r) {
      var i :| 0 <= i < |bundle| && bundle[i].Thing? && (bundle[i].kind, bundle[i].item.id) == (r.kind, r.id);
      assert !plan.actions[i].Renamed?;
    }
  }

  ghost predicate OnceOnly(bundle: seq<Entry>) {
    forall i, j | 0 <= i < j < |bundle| && bundle[i].Thing? && bundle[j].Thing? && bundle[i].item.id != "" ::
      bundle[i].item.id != bundle[j].item.id
  }

  /**
   References follow exactly the renaming: if no id occurs twice in the bundle, a reference is changed
   just when it names an entry that was renamed, and then to the id that entry was given.
   */
  lemma ReferencesFollowRenaming(mode: Mode, existing: set<Key>, bundle: seq<Entry>, draws: seq<string>, r: Ref, i: nat)
    requires PlanFor(mode, existing, bundle, draws).Some? && OnceOnly(bundle) && i < |bundle|
    requires bundle[i].Thing? && bundle[i].item.id == r.id != ""
    ensures var plan := PlanFor(mode, existing, bundle, draws).value;
            && Planned(bundle, plan)
            && NewRef(r, plan.idMap).id == if plan.actions[i].Renamed? then plan.actions[i].id else r.id
  {
    PlanIsSound(mode, existing, bundle, draws);
    var plan := PlanFor(mode, existing, bundle, draws).value;
    hide PlanFor;
    if r.id in plan.idMap {
      var j :| RenamedTo(bundle, plan, j, r.id, plan.idMap[r.id]);
      assert j == i;
    }
  }

  /** Skipping or renaming, each write has a key of its own that the store did not have. */
  lemma WritesAreFresh(mode: Mode, existing: set<Key>, bundle: seq<Entry>, draws: seq<string>)
    requires PlanFor(mode, existing, bundle, draws).Some? && !mode.Overwrite?
    ensures var plan := PlanFor(mode, existing, bundle, draws).value;
            && Planned(bundle, plan)
            && (forall i | 0 <= i < |bundle| && plan.actions[i].Writes() :: FinalKey(bundle, plan, i) !in existing)
            && (forall i, j | 0 <= i < j < |bundle| && plan.actions[i].Writes() && plan.actions[j].Writes() ::
                  FinalKey(bundle, plan, i) != FinalKey(bundle, plan, j))
  {
    PlanIsSound(mode, existing, bundle, draws);
    var plan := PlanFor(mode, existing, bundle, draws).value;
    hide PlanFor, FinalKey, KeyOf;
    forall i | 0 <= i < |bundle| && plan.actions[i].Writes()
      ensures FinalKey(bundle, plan, i) == KeyOf(bundle[i], plan.actions[i])
    {
      FinalKeyIs(bundle, plan, i);
    }
  }

  /** Unless told to overwrite, an import changes no resource the store already had. */
  lemma {:induction false} ExistingUntouched(mode: Mode, docs: map<Key, Item>, bundle: seq<Entry>, plan: Plan, n: nat,
                                             k: Key)
    requires !mode.Overwrite? && Sound(mode, docs.Keys, bundle, plan) && n <= |bundle| && k in docs
    ensures var after := Upserted(docs, bundle, plan, n);
            k in after && after[k] == docs[k]
  {
    if n > 0 {
      ExistingUntouched(mode, docs, bundle, plan, n - 1, k);
      if plan.actions[n - 1].Writes() {
        FinalKeyIs(bundle, plan, n - 1);
        hide Final;
      }
    }
  }

  /** Every pipeline that was written is paused. */
  lemma {:induction false} WrittenPipelinesArePaused(docs: map<Key, Item>, bundle: seq<Entry>, plan: Plan, n: nat,
                                                     k: Key, i: nat)
    requires Planned(bundle, plan) && i < n <= |bundle| && plan.actions[i].Writes() && bundle[i].kind.Pipelines?
    requires k == KeyOf(bundle[i], plan.actions[i])
    ensures var after := Upserted(docs, bundle, plan, n);
            k in after && after[k].status == "paused"
  {
    if plan.actions[n - 1].Writes() {
      FinalKeyIs(bundle, plan, n - 1);
    }
    if i < n - 1 {
      WrittenPipelinesArePaused(docs, bundle, plan, n - 1, k, i);
    }
  }
}

/** The import as api/api.py runs it: one loop that plans in place, one that rewrites references, one that writes. */
module BundleImporter {
  import opened Outcomes
  import opened BundleImport
  import opened BundleStored

  // ---------------------------------------------------------------------- the counters

  datatype Tally = Tally(created: nat, overwritten: nat, skipped: nat, renamed: nat, errors: nat) {

    function Plus(a: Action): Tally {
      match a
      case Created => this.(created := created + 1)
      case Overwritten => this.(overwritten := overwritten + 1)
      case Skipped => this.(skipped := skipped + 1)
      case Renamed(_) => this.(renamed := renamed + 1)
      case Rejected => this.(errors := errors + 1)
    }
  }

  const NO_TALLY := Tally(0, 0, 0, 0, 0)

  function TallyOf(bundle: seq<Entry>, actions: seq<Action>, kind: Kind): Tally
    requires |actions| == |bundle|
  {
    if bundle == [] then NO_TALLY
    else
      var last := |bundle| - 1;
      var before := TallyOf(bundle[..last], actions[..last], kind);
      if bundle[last].kind == kind then before.Plus(actions[last]) else before
  }

  function EntriesOf(bundle: seq<Entry>, kind: Kind): nat {
    if bundle == [] then 0
    else EntriesOf(bundle[..|bundle| - 1], kind) + if bundle[|bundle| - 1].kind == kind then 1 else 0
  }

  /** The entries of a kind that a test of their action picks out. */
  function Those(bundle: seq<Entry>, actions: seq<Action>, kind: Kind, test: Action -> bool): set<nat>
    requires |actions| == |bundle|
  {
    set i: nat | i < |bundle| && bundle[i].kind == kind && test(actions[i])
  }

  lemma ThoseStep(bundle: seq<Entry>, actions: seq<Action>, kind: Kind, test: Action -> bool)
    requires |actions| == |bundle| > 0
    ensures var last := |bundle| - 1;
            |Those(bundle, actions, kind, test)| == |Those(bundle[..last], actions[..last], kind, test)|
              + if bundle[last].kind == kind && test(actions[last]) then 1 else 0
  {
    var last := |bundle| - 1;
    var before := Those(bundle[..last], actions[..last], kind, test);
    assert forall i: nat | i < last :: bundle[..last][i] == bundle[i] && actions[..last][i] == actions[i];
    if bundle[last].kind == kind && test(actions[last]) {
      assert Those(bundle, actions, kind, test) == before + {last};
    } else {
      assert Those(bundle, actions, kind, test) == before;
    }
  }

  /** Each counter is the number of entries of its kind with that action. */
  ghost predicate Counts(t: Tally, bundle: seq<Entry>, actions: seq<Action>, kind: Kind)
    requires |actions| == |bundle|
  {
    && t.created == |Those(bundle, actions, kind, (a: Action) => a == Created)|
    && t.overwritten == |Those(bundle, actions, kind, (a: Action) => a == Overwritten)|
    && t.skipped == |Those(bundle, actions, kind, (a: Action) => a == Skipped)|
    && t.renamed == |Those(bundle, actions, kind, (a: Action) => a.Renamed?)|
    && t.errors == |Those(bundle, actions, kind, (a: Action) => a == Rejected)|
  }

  lemma {:induction false} TallyCounts(bundle: seq<Entry>, actions: seq<Action>, kind: Kind)
    requires |actions| == |bundle|
    ensures Counts(TallyOf(bundle, actions, kind), bundle, actions, kind)
  {
    if bundle != [] {
      var last := |bundle| - 1;
      TallyCounts(bundle[..last], actions[..last], kind);
      ThoseStep(bundle, actions, kind, (a: Action) => a == Created);
      ThoseStep(bundle, actions, kind, (a: Action) => a == Overwritten);
      ThoseStep(bundle, actions, kind, (a: Action) => a == Skipped);
      ThoseStep(bundle, actions, kind, (a: Action) => a.Renamed?);
      ThoseStep(bundle, actions, kind, (a: Action) => a == Rejected);
      hide Those;
    }
  }

  /** How many entries of a kind are written. */
  function WritesOf(bundle: seq<Entry>, actions: seq<Action>, kind: Kind): nat
    requires |actions| == |bundle|
  {
    if bundle == [] then 0
    else
      var last := |bundle| - 1;
      WritesOf(bundle[..last], actions[..last], kind)
      + if bundle[last].kind == kind && actions[last].Writes() then 1 else 0
  }

  lemma {:induction false} TallyFacts(bundle: seq<Entry>, actions: seq<Action>, kind: Kind)
    requires |actions| == |bundle|
    ensures var t := TallyOf(bundle, actions, kind);
            && t.created + t.overwritten + t.skipped + t.renamed + t.errors == EntriesOf(bundle, kind)
            && t.created + t.overwritten + t.renamed == WritesOf(bundle, actions, kind)
            && (t.overwritten > 0 ==> exists i :: 0 <= i < |actions| && actions[i].Overwritten?)
            && (t.skipped > 0 ==> exists i :: 0 <= i < |actions| && actions[i].Skipped?)
            && (t.renamed > 0 ==> exists i :: 0 <= i < |actions| && actions[i].Renamed?)
  {
    if bundle != [] {
      var last := |bundle| - 1;
      TallyFacts(bundle[..last], actions[..last], kind);
      hide TallyOf, EntriesOf, WritesOf;
      TallyStep(bundle, actions, kind);
      assert forall i | 0 <= i < last :: actions[..last][i] == actions[i];
    }
  }

  lemma TallyStep(bundle: seq<Entry>, actions: seq<Action>, kind: Kind)
    requires |actions| == |bundle| > 0
    ensures var last := |bundle| - 1;
            var before := TallyOf(bundle[..last], actions[..last], kind);
            && TallyOf(bundle, actions, kind)
               == (if bundle[last].kind == kind then before.Plus(actions[last]) else before)
            && EntriesOf(bundle, kind) == EntriesOf(bundle[..last], kind) + (if bundle[last].kind == kind then 1 else 0)
            && WritesOf(bundle, actions, kind)
               == WritesOf(bundle[..last], actions[..last], kind)
                  + if bundle[last].kind == kind && actions[last].Writes() then 1 else 0
  {
  }

  /**
   For each of the five kinds the counters partition the entries, the written ones are those created,
   overwritten and renamed, and only one of skipped, overwritten and renamed occurs in a mode.
   */
  lemma CountersPartition(mode: Mode, existing: set<Key>, bundle: seq<Entry>, draws: seq<string>, kind: Kind)
    requires PlanFor(mode, existing, bundle, draws).Some?
    ensures var plan := PlanFor(mode, existing, bundle, draws).value;
            && Planned(bundle, plan)
            && var t := TallyOf(bundle, plan.actions, kind);
               && t.created + t.overwritten + t.skipped + t.renamed + t.errors == EntriesOf(bundle, kind)
               && t.created + t.overwritten + t.renamed == WritesOf(bundle, plan.actions, kind)
               && (!mode.Overwrite? ==> t.overwritten == 0) && (!mode.Skip? ==> t.skipped == 0)
               && (!mode.Rename? ==> t.renamed == 0)
               && Counts(t, bundle, plan.actions, kind)
  {
    PlanIsSound(mode, existing, bundle, draws);
    TallyFacts(bundle, PlanFor(mode, existing, bundle, draws).value.actions, kind);
    TallyCounts(bundle, PlanFor(mode, existing, bundle, draws).value.actions, kind);
    hide PlanFor, TallyOf, Counts;
  }

  // ---------------------------------------------------------------------- the loops

  /** The indices of the entries to write. */
  function ToWrite(actions: seq<Action>): (r: seq<nat>)
    ensures forall i | 0 <= i < |r| :: r[i] < |actions| && actions[r[i]].Writes()
  {
    if actions == [] then []
    else
      var last := |actions| - 1;
      var before := ToWrite(actions[..last]);
      if actions[last].Writes() then before + [last] else before
  }

  /** The resources after the first loop: those to be written renamed and paused as needed, in place. */
  ghost predicate PlacedInPlace(bundle: seq<Entry>, actions: seq<Action>, resources: seq<Entry>) {
    && |actions| <= |resources| == |bundle|
    && (forall i | 0 <= i < |actions| :: actions[i].Writes() ==>
          bundle[i].Thing? && resources[i] == Thing(bundle[i].kind, Placed(bundle[i], actions[i])))
    && (forall i | |actions| <= i < |bundle| :: resources[i] == bundle[i])
  }

  datatype Planning = Planning(
    resources: seq<Entry>, toWrite: seq<nat>, idMap: map<string, string>, summary: map<Kind, Tally>)

  const NO_SUMMARY: map<Kind, Tally> :=
    map[Sources := NO_TALLY, Destinations := NO_TALLY, Models := NO_TALLY, Assistants := NO_TALLY,
        Pipelines := NO_TALLY]

  ghost predicate Tallied(summary: map<Kind, Tally>, bundle: seq<Entry>, actions: seq<Action>)
    requires |actions| == |bundle|
  {
    forall kind: Kind :: kind in summary && summary[kind] == TallyOf(bundle, actions, kind)
  }

  /** What the loop knows of the plan for the entries it has seen. */
  ghost predicate SoFar(mode: Mode, existing0: set<Key>, bundle: seq<Entry>, draws0: seq<string>, n: nat, plan: Plan)
    requires n <= |bundle|
  {
    PlanFor(mode, existing0, bundle[..n], draws0) == Some(plan) && |plan.actions| == n
  }

  lemma OneMore(mode: Mode, existing0: set<Key>, bundle: seq<Entry>, draws0: seq<string>, n: nat, plan: Plan)
    requires n < |bundle| && SoFar(mode, existing0, bundle, draws0, n, plan)
    ensures PlanFor(mode, existing0, bundle[..n + 1], draws0) == Step(mode, plan, bundle[n])
    ensures Step(mode, plan, bundle[n]).None? ==> PlanFor(mode, existing0, bundle, draws0).None?
    ensures Step(mode, plan, bundle[n]).Some? ==>
              SoFar(mode, existing0, bundle, draws0, n + 1, Step(mode, plan, bundle[n]).value)
  {
    assert bundle[..n + 1][..n] == bundle[..n];
    if Step(mode, plan, bundle[n]).None? {
      NeverPlanned(mode, existing0, bundle, draws0, n + 1);
    } else {
      StepFacts(mode, plan, bundle[n]);
    }
  }

  lemma {:induction false} NeverPlanned(mode: Mode, existing0: set<Key>, bundle: seq<Entry>, draws0: seq<string>,
                                        n: nat)
    requires n <= |bundle| && PlanFor(mode, existing0, bundle[..n], draws0).None?
    ensures PlanFor(mode, existing0, bundle, draws0).None?
    decreases |bundle| - n
  {
    if n == |bundle| {
      assert bundle[..n] == bundle;
    } else {
      assert bundle[..n + 1][..n] == bundle[..n];
      NeverPlanned(mode, existing0, bundle, draws0, n + 1);
    }
  }

  /** The `while` around `_new_suffixed_id`. */
  method NewId(existing: set<Key>, kind: Kind, was: string, draws: seq<string>) returns (drawn: Drawn)
    ensures drawn == Draw(existing, kind, was, draws)
  {
    var left := draws;
    while left != []
      invariant Draw(existing, kind, was, draws) == Draw(existing, kind, was, left)
      decreases |left|
    {
      var id := CopyId(was, left[0]);
      if (kind, id) !in existing {
        return Drawn(id, left[1..]);
      }
      left := left[1..];
    }
    drawn := OutOfDraws;
  }

  lemma Counted(summary: map<Kind, Tally>, bundle: seq<Entry>, actions: seq<Action>, n: nat, a: Action)
    requires |actions| == n < |bundle| && Tallied(summary, bundle[..n], actions)
    ensures Tallied(summary[bundle[n].kind := summary[bundle[n].kind].Plus(a)], bundle[..n + 1], actions + [a])
  {
    assert bundle[..n + 1][..n] == bundle[..n] && (actions + [a])[..n] == actions;
  }

  lemma Listed(actions: seq<Action>, a: Action)
    ensures ToWrite(actions + [a]) == if a.Writes() then ToWrite(actions) + [|actions|] else ToWrite(actions)
  {
    assert (actions + [a])[..|actions|] == actions;
  }

  /** The first loop of `import_bundle`: counts, renames and pauses the resources where they stand. */
  method PlanImport(mode: Mode, existing0: set<Key>, bundle: seq<Entry>, draws0: seq<string>)
    returns (planning: Option<Planning>, ghost plan: Plan)
    ensures planning.None? <==> PlanFor(mode, existing0, bundle, draws0).None?
    ensures planning.Some? ==>
              && PlanFor(mode, existing0, bundle, draws0) == Some(plan) && Planned(bundle, plan)
              && PlacedInPlace(bundle, plan.actions, planning.value.resources)
              && planning.value.toWrite == ToWrite(plan.actions) && planning.value.idMap == plan.idMap
              && Tallied(planning.value.summary, bundle, plan.actions)
  {
    var existing, draws := existing0, draws0;
    var resources, idMap, summary := bundle, map[], NO_SUMMARY;
    var toWrite: seq<nat> := [];
    plan := Plan(existing0, map[], [], draws0);
    hide PlanFor, ToWrite, TallyOf;
    NothingPlanned(mode, existing0, bundle, draws0);
    for n := 0 to |bundle|
      invariant SoFar(mode, existing0, bundle, draws0, n, plan)
      invariant existing == plan.existing && draws == plan.draws && idMap == plan.idMap
      invariant PlacedInPlace(bundle, plan.actions, resources)
      invariant toWrite == ToWrite(plan.actions)
      invariant Tallied(summary, bundle[..n], plan.actions)
    {
      var e := resources[n];
      OneMore(mode, existing0, bundle, draws0, n, plan);
      var action := Rejected;
      if e.Thing? && e.item.id != "" {
        if (e.kind, e.item.id) in existing {
          match mode {
            case Skip => action := Skipped;
            case Overwrite => action := Overwritten;
            case Rename =>
              var drawn := NewId(existing, e.kind, e.item.id, draws);
              if drawn.OutOfDraws? {
                return None, plan;
              }
              action, draws := Renamed(drawn.id), drawn.rest;
              idMap := idMap[e.item.id := drawn.id];
              existing := existing + {(e.kind, drawn.id)};
          }
        } else {
          action := Created;
          existing := existing + {(e.kind, e.item.id)};
        }
      }
      if action.Writes() {
        resources := resources[n := Thing(e.kind, Placed(e, action))];
        toWrite := toWrite + [n];
      }
      Counted(summary, bundle, plan.actions, n, action);
      Listed(plan.actions, action);
      summary := summary[e.kind := summary[e.kind].Plus(action)];
      ghost var next := Step(mode, plan, bundle[n]).value;
      assert next.actions == plan.actions + [action];
      plan := next;
    }
    assert bundle[..|bundle|] == bundle;
    planning := Some(Planning(resources, toWrite, idMap, summary));
  }

  lemma NothingPlanned(mode: Mode, existing0: set<Key>, bundle: seq<Entry>, draws0: seq<string>)
    ensures SoFar(mode, existing0, bundle, draws0, 0, Plan(existing0, map[], [], draws0))
    ensures Tallied(NO_SUMMARY, bundle[..0], []) && ToWrite([]) == []
  {
    forall kind: Kind
      ensures kind in NO_SUMMARY && NO_SUMMARY[kind] == TallyOf(bundle[..0], [], kind)
    {
      match kind {
        case Sources =>
        case Destinations =>
        case Models =>
        case Assistants =>
        case Pipelines =>
      }
    }
  }

  lemma NothingToRewrite(kind: Kind, item: Item)
    ensures Rewritten(kind, item, map[]) == item
  {
    assert Rewritten(kind, item, map[]).refs == item.refs;
  }

  function RewrittenEntry(e: Entry, idMap: map<string, string>): Entry {
    if e.Junk? then e else Thing(e.kind, Rewritten(e.kind, e.item, idMap))
  }

  /** `_rewrite_ids`, in place over all resources of the bundle. */
  method RewriteIds(resources: seq<Entry>, idMap: map<string, string>) returns (rewritten: seq<Entry>)
    ensures |rewritten| == |resources|
    ensures forall i | 0 <= i < |resources| :: rewritten[i] == RewrittenEntry(resources[i], idMap)
  {
    rewritten := resources;
    if idMap == map[] {
      forall i | 0 <= i < |resources|
        ensures rewritten[i] == RewrittenEntry(resources[i], idMap)
      {
        if resources[i].Thing? {
          NothingToRewrite(resources[i].kind, resources[i].item);
        }
      }
      return;
    }
    for n := 0 to |resources|
      invariant |rewritten| == |resources|
      invariant forall i | 0 <= i < n :: rewritten[i] == RewrittenEntry(resources[i], idMap)
      invariant forall i | n <= i < |resources| :: rewritten[i] == resources[i]
    {
      var e := resources[n];
      if e.Thing? && (e.kind.Pipelines? || e.kind.Assistants?) {
        var refs := e.item.refs;
        for j := 0 to |refs|
          invariant |refs| == |e.item.refs|
          invariant forall k | 0 <= k < j :: refs[k] == NewRef(e.item.refs[k], idMap)
          invariant forall k | j <= k < |refs| :: refs[k] == e.item.refs[k]
        {
          if refs[j].id in idMap {
            refs := refs[j := refs[j].(id := idMap[refs[j].id])];
          }
        }
        assert refs == Rewritten(e.kind, e.item, idMap).refs;
        rewritten := rewritten[n := Thing(e.kind, e.item.(refs := refs))];
      }
    }
  }

  // ---------------------------------------------------------------------- writing

  class MetadataStore {
    var docs: map<Key, Item>

    constructor (docs: map<Key, Item>)
      ensures this.docs == docs
    {
      this.docs := docs;
    }

    /** An upsert that may fail; a failed one leaves the store as it was. */
    method Upsert(key: Key, item: Item) returns (ok: bool)
      modifies this
      ensures docs == if ok then old(docs)[key := item] else old(docs)
    {
      ok := *;
      if ok {
        docs := docs[key := item];
      }
    }
  }

  /** Writing the planned entries with these indices, in this order. */
  function WriteAll(docs: map<Key, Item>, bundle: seq<Entry>, plan: Plan, indices: seq<nat>): map<Key, Item>
    requires Planned(bundle, plan)
    requires forall i | 0 <= i < |indices| :: indices[i] < |bundle| && plan.actions[indices[i]].Writes()
  {
    if indices == [] then docs
    else
      var last := indices[|indices| - 1];
      WriteAll(docs, bundle, plan, indices[..|indices| - 1])[FinalKey(bundle, plan, last) := Final(bundle, plan, last)]
  }

  lemma {:induction false} WriteAllIsUpserted(docs: map<Key, Item>, bundle: seq<Entry>, plan: Plan, n: nat)
    requires Planned(bundle, plan) && n <= |bundle|
    ensures forall i | 0 <= i < |ToWrite(plan.actions[..n])| ::
              var k := ToWrite(plan.actions[..n])[i]; k < |bundle| && plan.actions[k].Writes()
    ensures WriteAll(docs, bundle, plan, ToWrite(plan.actions[..n])) == Upserted(docs, bundle, plan, n)
  {
    if n > 0 {
      WriteAllIsUpserted(docs, bundle, plan, n - 1);
      assert plan.actions[..n] == plan.actions[..n - 1] + [plan.actions[n - 1]];
      Listed(plan.actions[..n - 1], plan.actions[n - 1]);
      var before := ToWrite(plan.actions[..n - 1]);
      assert plan.actions[n - 1].Writes() ==> (before + [n - 1])[..|before|] == before;
    }
  }

  ghost predicate PlannedAs(bundle: seq<Entry>, plan: Plan, k: Key, item: Item)
    requires Planned(bundle, plan)
  {
    exists i :: && 0 <= i < |bundle| && plan.actions[i].Writes()
                && (FinalKey(bundle, plan, i), Final(bundle, plan, i)) == (k, item)
  }

  /** What a document may be after an import: what it was, or what the plan writes. */
  ghost predicate OldOrPlanned(before: map<Key, Item>, after: map<Key, Item>, bundle: seq<Entry>, plan: Plan, k: Key)
    requires Planned(bundle, plan)
  {
    || (k in before && k in after && after[k] == before[k])
    || (k !in before && k !in after)
    || (k in after && PlannedAs(bundle, plan, k, after[k]))
  }

  lemma OneUpserted(before: map<Key, Item>, docs: map<Key, Item>, after: map<Key, Item>, bundle: seq<Entry>, plan: Plan,
                    key: Key, item: Item)
    requires Planned(bundle, plan) && PlannedAs(bundle, plan, key, item)
    requires after == docs || after == docs[key := item]
    requires forall k :: OldOrPlanned(before, docs, bundle, plan, k)
    ensures forall k :: OldOrPlanned(before, after, bundle, plan, k)
  {
    forall k
      ensures OldOrPlanned(before, after, bundle, plan, k)
    {
      assert OldOrPlanned(before, docs, bundle, plan, k);
    }
  }

  datatype Report = Report(summary: map<Kind, Tally>, idMap: map<string, string>, failures: seq<Key>)

  /** Under this key both stores have the same. */
  ghost predicate SameAt(a: map<Key, Item>, b: map<Key, Item>, k: Key) {
    (k in a <==> k in b) && (k in a && k in b ==> a[k] == b[k])
  }

  lemma StoredAtToo(docs: map<Key, Item>, a: map<Key, Item>, b: map<Key, Item>, bundle: seq<Entry>, plan: Plan, k: Key)
    requires Planned(bundle, plan) && StoredAt(docs, a, bundle, plan, k) && SameAt(a, b, k)
    ensures StoredAt(docs, b, bundle, plan, k)
  {
    hide PutAt, LastPut, StoredRight;
  }

  /**
   `import_bundle`. None: the generator has yielded only ids that are taken. A dry run changes nothing.
   If no write fails the store is exactly the planned one; if some do, all is as planned but under their keys, where
   the store has what it had or what some entry is to be.
   */
  method ImportBundle(store: MetadataStore, bundle: seq<Entry>, mode: Mode, dryRun: bool, draws: seq<string>)
    returns (report: Option<Report>, ghost plan: Plan)
    modifies store
    ensures report.None? <==> PlanFor(mode, old(store.docs).Keys, bundle, draws).None?
    ensures report.None? || dryRun ==> store.docs == old(store.docs)
    ensures report.Some? ==>
              && PlanFor(mode, old(store.docs).Keys, bundle, draws) == Some(plan) && Planned(bundle, plan)
              && report.value.idMap == plan.idMap && Tallied(report.value.summary, bundle, plan.actions)
              && (forall k :: OldOrPlanned(old(store.docs), store.docs, bundle, plan, k))
              && ActionsRight(mode, old(store.docs).Keys, draws, bundle, plan) && MapsLast(bundle, plan)
              && (forall kind: Kind ::
                    kind in report.value.summary && Counts(report.value.summary[kind], bundle, plan.actions, kind))
              && (!dryRun ==>
                    forall k | k !in report.value.failures :: StoredAt(old(store.docs), store.docs, bundle, plan, k))
              && (!dryRun && report.value.failures == [] ==>
                    store.docs == Upserted(old(store.docs), bundle, plan, |bundle|))
  {
    hide PlanFor, TallyOf, ToWrite, Final, FinalKey, WriteAll, Upserted, Rewritten, Placed, Counts, ActionRight,
      MapsLast, StoredAt;
    ghost var before := store.docs;
    var planning;
    planning, plan := PlanImport(mode, store.docs.Keys, bundle, draws);
    if planning.None? {
      return None, plan;
    }
    PlanActsRight(mode, before.Keys, bundle, draws);
    PlanMapsLast(mode, before.Keys, bundle, draws);
    forall kind: Kind ensures Counts(planning.value.summary[kind], bundle, plan.actions, kind) {
      TallyCounts(bundle, plan.actions, kind);
    }
    var resources := RewriteIds(planning.value.resources, planning.value.idMap);
    if dryRun {
      return Some(Report(planning.value.summary, planning.value.idMap, [])), plan;
    }
    var toWrite, failures := planning.value.toWrite, [];
    assert plan.actions[..|bundle|] == plan.actions;
    WriteAllIsUpserted(before, bundle, plan, |bundle|);
    NothingWritten(before, bundle, plan);
    for n := 0 to |toWrite|
      invariant forall k :: OldOrPlanned(before, store.docs, bundle, plan, k)
      invariant failures == [] ==> store.docs == WriteAll(before, bundle, plan, toWrite[..n])
      invariant forall k | k !in failures :: SameAt(WriteAll(before, bundle, plan, toWrite[..n]), store.docs, k)
    {
      var i := toWrite[n];
      FinalEntry(bundle, plan, planning.value.resources, i);
      var item := resources[i].item;
      var key := (resources[i].kind, item.id);
      assert PlannedAs(bundle, plan, key, item);
      ghost var docs := store.docs;
      var ok := store.Upsert(key, item);
      OneUpserted(before, docs, store.docs, bundle, plan, key, item);
      OneWritten(before, bundle, plan, toWrite, n);
      if !ok {
        failures := failures + [key];
      }
    }
    assert toWrite[..|toWrite|] == toWrite;
    forall k | k !in failures ensures StoredAt(before, store.docs, bundle, plan, k) {
      ImportStores(mode, before, bundle, draws, k);
      StoredAtToo(before, Upserted(before, bundle, plan, |bundle|), store.docs, bundle, plan, k);
    }
    report := Some(Report(planning.value.summary, planning.value.idMap, failures));
  }

  lemma NothingWritten(docs: map<Key, Item>, bundle: seq<Entry>, plan: Plan)
    requires Planned(bundle, plan)
    ensures WriteAll(docs, bundle, plan, []) == docs
  {
  }

  lemma OneWritten(docs: map<Key, Item>, bundle: seq<Entry>, plan: Plan, indices: seq<nat>, n: nat)
    requires Planned(bundle, plan) && n < |indices|
    requires forall i | 0 <= i < |indices| :: indices[i] < |bundle| && plan.actions[indices[i]].Writes()
    ensures WriteAll(docs, bundle, plan, indices[..n + 1])
            == WriteAll(docs, bundle, plan, indices[..n])
                 [FinalKey(bundle, plan, indices[n]) := Final(bundle, plan, indices[n])]
  {
    assert indices[..n + 1][..n] == indices[..n];
  }

  lemma FinalEntry(bundle: seq<Entry>, plan: Plan, resources: seq<Entry>, i: nat)
    requires Planned(bundle, plan) && i < |bundle| && plan.actions[i].Writes()
    requires PlacedInPlace(bundle, plan.actions, resources)
    ensures RewrittenEntry(resources[i], plan.idMap) == Thing(bundle[i].kind, Final(bundle, plan, i))
    ensures FinalKey(bundle, plan, i) == (bundle[i].kind, Final(bundle, plan, i).id)
  {
  }
}

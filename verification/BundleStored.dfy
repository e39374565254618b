/**
 What an import leaves in the store, document by document (`import_bundle` and `_rewrite_ids` of api/api.py):
 which entries are written and under which ids, and what their fields and references are then.
 */
module BundleStored {
  import opened Outcomes
  import opened BundleImport
  import opened BundleReferences

  /** This entry is written under this key. */
  ghost predicate PutAt(bundle: seq<Entry>, plan: Plan, i: nat, k: Key)
    requires Planned(bundle, plan) && i < |bundle|
  {
    match plan.actions[i]
    case Created => k == (bundle[i].kind, bundle[i].item.id)
    case Overwritten => k == (bundle[i].kind, bundle[i].item.id)
    case Renamed(id) => k == (bundle[i].kind, id)
    case _ => false
  }

  /** The store has it, or one of the first `n` entries is written under it. */
  ghost predicate TakenBefore(existing: set<Key>, bundle: seq<Entry>, plan: Plan, n: nat, k: Key)
    requires Planned(bundle, plan) && n <= |bundle|
  {
    k in existing || exists j: nat | j < n :: PutAt(bundle, plan, j, k)
  }

  /** What becomes of an entry: an id that is taken is a conflict, and the mode says what is done about it. */
  ghost predicate ActionRight(
    mode: Mode, existing: set<Key>, draws: seq<string>, bundle: seq<Entry>, plan: Plan, i: nat)
    requires Planned(bundle, plan) && i < |bundle|
  {
    var e, a := bundle[i], plan.actions[i];
    if e.Junk? || e.item.id == "" then a == Rejected
    else if !TakenBefore(existing, bundle, plan, i, (e.kind, e.item.id)) then a == Created
    else
      match mode
      case Skip => a == Skipped
      case Overwrite => a == Overwritten
      case Rename =>
        && a.Renamed? && !TakenBefore(existing, bundle, plan, i, (e.kind, a.id))
        && exists d | d in draws :: a.id == e.item.id + "-copy-" + d
  }

  ghost predicate ActionsRight(mode: Mode, existing: set<Key>, draws: seq<string>, bundle: seq<Entry>, plan: Plan)
    requires Planned(bundle, plan)
  {
    forall i: nat | i < |bundle| :: ActionRight(mode, existing, draws, bundle, plan, i)
  }

  // ---------------------------------------------------------------------- references

  ghost predicate NotRenamed(bundle: seq<Entry>, plan: Plan, was: string)
    requires Planned(bundle, plan)
  {
    forall j: nat | j < |bundle| :: !(plan.actions[j].Renamed? && bundle[j].item.id == was)
  }

  /** This is the last entry with this id that is renamed, and what it is called then. */
  ghost predicate LastRenaming(bundle: seq<Entry>, plan: Plan, i: nat, was: string, became: string)
    requires Planned(bundle, plan)
  {
    && i < |bundle| && plan.actions[i] == Renamed(became) && bundle[i].item.id == was
    && forall j: nat | i < j < |bundle| :: !(plan.actions[j].Renamed? && bundle[j].item.id == was)
  }

  /** A reference names the new id if an entry with the id it named was renamed, and else what it named before. */
  ghost predicate RefFollows(bundle: seq<Entry>, plan: Plan, was: Ref, now: Ref)
    requires Planned(bundle, plan)
  {
    if NotRenamed(bundle, plan, was.id) then now == was
    else now.kind == was.kind && exists i: nat :: LastRenaming(bundle, plan, i, was.id, now.id)
  }

  /** The map of renamed ids has the last renaming of each id. */
  ghost predicate MapsLast(bundle: seq<Entry>, plan: Plan)
    requires Planned(bundle, plan)
  {
    forall id :: MapsLastOf(bundle, plan, id)
  }

  ghost predicate MapsLastOf(bundle: seq<Entry>, plan: Plan, id: string)
    requires Planned(bundle, plan)
  {
    if id in plan.idMap then exists i: nat :: LastRenaming(bundle, plan, i, id, plan.idMap[id])
    else NotRenamed(bundle, plan, id)
  }

  /** A stored document is its entry, but for the new id and name, the pause of a pipeline, and the references. */
  ghost predicate StoredRight(bundle: seq<Entry>, plan: Plan, i: nat, item: Item)
    requires Planned(bundle, plan) && i < |bundle|
  {
    var e, a := bundle[i], plan.actions[i];
    && e.Thing?
    && item.id == (if a.Renamed? then a.id else e.item.id)
    && (if a.Renamed? && e.item.name != "" then
          |a.id| >= 4 && item.name == e.item.name + "-copy-" + a.id[|a.id| - 4..]
        else item.name == e.item.name)
    && item.status == (if e.kind == Pipelines then "paused" else e.item.status)
    && item.rest == e.item.rest
    && |item.refs| == |e.item.refs|
    && forall j | 0 <= j < |item.refs| ::
         if e.kind == Pipelines || e.kind == Assistants then RefFollows(bundle, plan, e.item.refs[j], item.refs[j])
         else item.refs[j] == e.item.refs[j]
  }

  /** The last of the first `n` entries that is written under this key. */
  ghost predicate LastPut(bundle: seq<Entry>, plan: Plan, n: nat, i: nat, k: Key)
    requires Planned(bundle, plan) && n <= |bundle|
  {
    i < n && PutAt(bundle, plan, i, k) && forall j: nat | i < j < n :: !PutAt(bundle, plan, j, k)
  }

  /** Under this key the store has the last entry written under it, and what it had before if there is none. */
  ghost predicate StoredAt(before: map<Key, Item>, after: map<Key, Item>, bundle: seq<Entry>, plan: Plan, k: Key)
    requires Planned(bundle, plan)
  {
    if exists i: nat | i < |bundle| :: PutAt(bundle, plan, i, k) then
      && k in after
      && exists i: nat | i < |bundle| :: LastPut(bundle, plan, |bundle|, i, k) && StoredRight(bundle, plan, i, after[k])
    else (k in after <==> k in before) && (k in before ==> after[k] == before[k])
  }

  // ---------------------------------------------------------------------- every plan is such a plan

  lemma PutIsKey(bundle: seq<Entry>, plan: Plan, i: nat, k: Key)
    requires Planned(bundle, plan) && i < |bundle|
    ensures PutAt(bundle, plan, i, k) <==> plan.actions[i].Writes() && KeyOf(bundle[i], plan.actions[i]) == k
  {
  }

  lemma {:induction false} DrawnIsCopy(existing: set<Key>, kind: Kind, was: string, draws: seq<string>)
    requires was != "" && Draw(existing, kind, was, draws).Drawn?
    ensures var r := Draw(existing, kind, was, draws);
            && (exists d | d in draws :: r.id == was + "-copy-" + d)
            && forall d | d in r.rest :: d in draws
  {
    if (kind, CopyId(was, draws[0])) in existing {
      DrawnIsCopy(existing, kind, was, draws[1..]);
    } else {
      assert draws[0] in draws && CopyId(was, draws[0]) == was + "-copy-" + draws[0];
    }
  }

  /** Later entries do not change what was written before. */
  lemma SamePuts(front: seq<Entry>, p: Plan, e: Entry, n: Plan, i: nat, k: Key)
    requires Planned(front, p) && Planned(front + [e], n) && n.actions[..|p.actions|] == p.actions && i < |front|
    ensures PutAt(front + [e], n, i, k) <==> PutAt(front, p, i, k)
  {
    assert (front + [e])[i] == front[i] && n.actions[i] == n.actions[..|p.actions|][i];
  }

  lemma SameTaken(existing: set<Key>, front: seq<Entry>, p: Plan, e: Entry, n: Plan, m: nat, k: Key)
    requires Planned(front, p) && Planned(front + [e], n) && n.actions[..|p.actions|] == p.actions && m <= |front|
    ensures TakenBefore(existing, front + [e], n, m, k) <==> TakenBefore(existing, front, p, m, k)
  {
    hide PutAt;
    forall i: nat | i < m ensures PutAt(front + [e], n, i, k) <==> PutAt(front, p, i, k) {
      SamePuts(front, p, e, n, i, k);
    }
  }

  lemma TakenIsExisting(existing: set<Key>, bundle: seq<Entry>, plan: Plan, k: Key)
    requires Planned(bundle, plan) && Taken(existing, bundle, plan)
    ensures TakenBefore(existing, bundle, plan, |bundle|, k) <==> k in plan.existing
  {
    forall i: nat | i < |bundle|
      ensures PutAt(bundle, plan, i, k) <==> plan.actions[i].Writes() && KeyOf(bundle[i], plan.actions[i]) == k
    {
      PutIsKey(bundle, plan, i, k);
    }
    hide PutAt, KeyOf;
    if WrittenAs(bundle, plan, k) {
      var i: nat :| i < |bundle| && plan.actions[i].Writes() && KeyOf(bundle[i], plan.actions[i]) == k;
      assert PutAt(bundle, plan, i, k);
    }
  }

  lemma StepActs(mode: Mode, p: Plan, e: Entry)
    requires Step(mode, p, e).Some?
    ensures var n := Step(mode, p, e).value;
            && |n.actions| == |p.actions| + 1 && n.actions[..|p.actions|] == p.actions
            && (forall d | d in n.draws :: d in p.draws)
            && var a := n.actions[|p.actions|];
               if e.Junk? || e.item.id == "" then a == Rejected
               else if (e.kind, e.item.id) !in p.existing then a == Created
               else
                 match mode
                 case Skip => a == Skipped
                 case Overwrite => a == Overwritten
                 case Rename =>
                   && a.Renamed? && (e.kind, a.id) !in p.existing
                   && exists d | d in p.draws :: a.id == e.item.id + "-copy-" + d
  {
    if e.Thing? && e.item.id != "" && (e.kind, e.item.id) in p.existing && mode.Rename? {
      DrawnIsCopy(p.existing, e.kind, e.item.id, p.draws);
      hide Draw;
    }
  }

  lemma LastActionRight(
    mode: Mode, existing: set<Key>, draws: seq<string>, front: seq<Entry>, p: Plan, e: Entry, n: Plan)
    requires Planned(front, p) && Taken(existing, front, p) && Step(mode, p, e) == Some(n) && Planned(front + [e], n)
    requires forall d | d in p.draws :: d in draws
    ensures ActionRight(mode, existing, draws, front + [e], n, |front|)
  {
    StepActs(mode, p, e);
    hide Step, TakenBefore, Taken;
    var bundle, m := front + [e], |front|;
    assert bundle[m] == e;
    if e.Thing? {
      var key := (e.kind, e.item.id);
      SameTaken(existing, front, p, e, n, m, key);
      TakenIsExisting(existing, front, p, key);
      var a := n.actions[m];
      if a.Renamed? {
        SameTaken(existing, front, p, e, n, m, (e.kind, a.id));
        TakenIsExisting(existing, front, p, (e.kind, a.id));
      }
    }
  }

  lemma EarlierActionRight(mode: Mode, existing: set<Key>, draws: seq<string>, front: seq<Entry>, p: Plan, e: Entry,
                           n: Plan, i: nat)
    requires Planned(front, p) && Planned(front + [e], n) && n.actions[..|p.actions|] == p.actions && i < |front|
    requires ActionRight(mode, existing, draws, front, p, i)
    ensures ActionRight(mode, existing, draws, front + [e], n, i)
  {
    hide TakenBefore;
    var bundle := front + [e];
    assert bundle[i] == front[i] && n.actions[i] == n.actions[..|p.actions|][i];
    if front[i].Thing? {
      SameTaken(existing, front, p, e, n, i, (front[i].kind, front[i].item.id));
      if p.actions[i].Renamed? {
        SameTaken(existing, front, p, e, n, i, (front[i].kind, p.actions[i].id));
      }
    }
  }

  lemma {:induction false} PlanActsRight(mode: Mode, existing: set<Key>, bundle: seq<Entry>, draws: seq<string>)
    requires PlanFor(mode, existing, bundle, draws).Some?
    ensures var plan := PlanFor(mode, existing, bundle, draws).value;
            && Planned(bundle, plan) && ActionsRight(mode, existing, draws, bundle, plan)
            && forall d | d in plan.draws :: d in draws
  {
    PlanIsSound(mode, existing, bundle, draws);
    if bundle != [] {
      var front, e := bundle[..|bundle| - 1], bundle[|bundle| - 1];
      var p, n := PlanFor(mode, existing, front, draws).value, PlanFor(mode, existing, bundle, draws).value;
      assert front + [e] == bundle;
      PlanActsRight(mode, existing, front, draws);
      PlanIsSound(mode, existing, front, draws);
      StepActs(mode, p, e);
      hide PlanFor, Step, ActionRight, Taken, Fresh, BundleImport.Mapped, Served;
      LastActionRight(mode, existing, draws, front, p, e, n);
      forall i: nat | i < |bundle| ensures ActionRight(mode, existing, draws, bundle, n, i) {
        if i < |front| {
          EarlierActionRight(mode, existing, draws, front, p, e, n, i);
        }
      }
    }
  }

  lemma StepKeepsLast(mode: Mode, front: seq<Entry>, p: Plan, e: Entry, n: Plan)
    requires Planned(front, p) && MapsLast(front, p) && Step(mode, p, e) == Some(n) && Planned(front + [e], n)
    ensures MapsLast(front + [e], n)
  {
    StepFacts(mode, p, e);
    hide Step;
    var bundle, m := front + [e], |front|;
    assert forall i | 0 <= i < m :: bundle[i] == front[i] && n.actions[i] == n.actions[..m][i] == p.actions[i];
    forall id ensures MapsLastOf(bundle, n, id) {
      assert MapsLastOf(front, p, id);
      if n.actions[m].Renamed? && id == e.item.id {
        assert LastRenaming(bundle, n, m, id, n.idMap[id]);
      } else if id in p.idMap {
        var i: nat :| LastRenaming(front, p, i, id, p.idMap[id]);
        assert LastRenaming(bundle, n, i, id, n.idMap[id]);
      }
    }
  }

  lemma {:induction false} PlanMapsLast(mode: Mode, existing: set<Key>, bundle: seq<Entry>, draws: seq<string>)
    requires PlanFor(mode, existing, bundle, draws).Some?
    ensures var plan := PlanFor(mode, existing, bundle, draws).value;
            Planned(bundle, plan) && MapsLast(bundle, plan)
  {
    PlanIsSound(mode, existing, bundle, draws);
    if bundle != [] {
      var front, e := bundle[..|bundle| - 1], bundle[|bundle| - 1];
      assert front + [e] == bundle;
      PlanIsSound(mode, existing, front, draws);
      PlanMapsLast(mode, existing, front, draws);
      hide Step, MapsLast, Taken, Fresh, BundleImport.Mapped, Served;
      StepKeepsLast(mode, front, PlanFor(mode, existing, front, draws).value, e,
                    PlanFor(mode, existing, bundle, draws).value);
    }
  }

  // ---------------------------------------------------------------------- what is written

  lemma RefIsFollowed(bundle: seq<Entry>, plan: Plan, r: Ref)
    requires Planned(bundle, plan) && MapsLast(bundle, plan)
    ensures RefFollows(bundle, plan, r, NewRef(r, plan.idMap))
  {
    assert MapsLastOf(bundle, plan, r.id);
  }

  lemma FinalIsRight(mode: Mode, existing: set<Key>, draws: seq<string>, bundle: seq<Entry>, plan: Plan, i: nat)
    requires Planned(bundle, plan) && MapsLast(bundle, plan) && i < |bundle| && plan.actions[i].Writes()
    requires ActionRight(mode, existing, draws, bundle, plan, i)
    ensures StoredRight(bundle, plan, i, Final(bundle, plan, i))
  {
    var e, item := bundle[i], Final(bundle, plan, i);
    forall j | 0 <= j < |item.refs|
      ensures if e.kind == Pipelines || e.kind == Assistants then RefFollows(bundle, plan, e.item.refs[j], item.refs[j])
              else item.refs[j] == e.item.refs[j]
    {
      RefIsFollowed(bundle, plan, e.item.refs[j]);
    }
    hide RefFollows, TakenBefore, MapsLast;
  }

  lemma OneMoreUpserted(docs: map<Key, Item>, bundle: seq<Entry>, plan: Plan, n: nat, k: Key)
    requires Planned(bundle, plan) && 0 < n <= |bundle|
    ensures var before, after := Upserted(docs, bundle, plan, n - 1), Upserted(docs, bundle, plan, n);
            if PutAt(bundle, plan, n - 1, k) then
              plan.actions[n - 1].Writes() && k in after && after[k] == Final(bundle, plan, n - 1)
            else (k in after <==> k in before) && (k in before ==> after[k] == before[k])
  {
    PutIsKey(bundle, plan, n - 1, k);
    if plan.actions[n - 1].Writes() {
      FinalKeyIs(bundle, plan, n - 1);
    }
    hide Final, FinalKey, PutAt, KeyOf;
  }

  /** Under this key stands the last of the first `n` entries that is written there. */
  ghost predicate Holds(bundle: seq<Entry>, plan: Plan, n: nat, i: nat, k: Key, item: Item)
    requires Planned(bundle, plan) && n <= |bundle|
  {
    LastPut(bundle, plan, n, i, k) && plan.actions[i].Writes() && item == Final(bundle, plan, i)
  }

  /** What the writes leave under a key. */
  lemma {:induction false} UpsertedAt(docs: map<Key, Item>, bundle: seq<Entry>, plan: Plan, n: nat, k: Key)
    requires Planned(bundle, plan) && n <= |bundle|
    ensures var after := Upserted(docs, bundle, plan, n);
            if exists i: nat | i < n :: PutAt(bundle, plan, i, k) then
              k in after && exists i: nat | i < n :: Holds(bundle, plan, n, i, k, after[k])
            else (k in after <==> k in docs) && (k in docs ==> after[k] == docs[k])
  {
    if n > 0 {
      UpsertedAt(docs, bundle, plan, n - 1, k);
      OneMoreUpserted(docs, bundle, plan, n, k);
      hide Upserted, Final, FinalKey, PutAt, KeyOf;
      var before, after := Upserted(docs, bundle, plan, n - 1), Upserted(docs, bundle, plan, n);
      if PutAt(bundle, plan, n - 1, k) {
        assert Holds(bundle, plan, n, n - 1, k, after[k]);
      } else if i: nat :| i < n - 1 && PutAt(bundle, plan, i, k) {
        var last: nat :| last < n - 1 && Holds(bundle, plan, n - 1, last, k, before[k]);
        assert Holds(bundle, plan, n, last, k, after[k]);
      }
    }
  }

  /**
   After an import whose writes all went through, in every mode: every document is the last entry written under its
   key, with the id, name, status and references it should have then, and everything else is as it was.
   */
  lemma ImportStores(mode: Mode, docs: map<Key, Item>, bundle: seq<Entry>, draws: seq<string>, k: Key)
    requires PlanFor(mode, docs.Keys, bundle, draws).Some?
    ensures var plan := PlanFor(mode, docs.Keys, bundle, draws).value;
            && Planned(bundle, plan) && ActionsRight(mode, docs.Keys, draws, bundle, plan) && MapsLast(bundle, plan)
            && StoredAt(docs, Upserted(docs, bundle, plan, |bundle|), bundle, plan, k)
  {
    PlanActsRight(mode, docs.Keys, bundle, draws);
    PlanMapsLast(mode, docs.Keys, bundle, draws);
    var plan := PlanFor(mode, docs.Keys, bundle, draws).value;
    var after := Upserted(docs, bundle, plan, |bundle|);
    UpsertedAt(docs, bundle, plan, |bundle|, k);
    hide PlanFor, Upserted, Final, PutAt, LastPut, ActionRight, StoredRight, MapsLast;
    if i: nat :| i < |bundle| && PutAt(bundle, plan, i, k) {
      var last: nat :| last < |bundle| && Holds(bundle, plan, |bundle|, last, k, after[k]);
      FinalIsRight(mode, docs.Keys, draws, bundle, plan, last);
    }
  }

  /**
   The references as they are stored: of a pipeline or an assistant that was written, each that meant something in
   the store or the bundle means something afterwards, if no entry of another kind shares the id it named.
   */
  lemma StoredReferencesResolve(
    mode: Mode, docs: map<Key, Item>, bundle: seq<Entry>, draws: seq<string>, i: nat, j: nat)
    requires PlanFor(mode, docs.Keys, bundle, draws).Some?
    requires i < |bundle| && bundle[i].Thing? && bundle[i].kind in {Pipelines, Assistants} && j < |bundle[i].item.refs|
    requires var r := bundle[i].item.refs[j];
             Unambiguous(bundle, r) && (Resolves(docs, r) || InBundle(bundle, r))
    ensures var plan := PlanFor(mode, docs.Keys, bundle, draws).value;
            && Planned(bundle, plan)
            && (plan.actions[i].Writes() ==>
                  && j < |Final(bundle, plan, i).refs|
                  && Resolves(Upserted(docs, bundle, plan, |bundle|), Final(bundle, plan, i).refs[j]))
  {
    ReferencesResolve(mode, docs, bundle, draws, bundle[i].item.refs[j]);
    hide PlanFor, Upserted;
  }

  /** And when exactly a stored reference means something after an import that renames. */
  lemma StoredReferenceResolvesIff(docs: map<Key, Item>, bundle: seq<Entry>, draws: seq<string>, i: nat, j: nat)
    requires PlanFor(Rename, docs.Keys, bundle, draws).Some?
    requires i < |bundle| && bundle[i].Thing? && bundle[i].kind in {Pipelines, Assistants} && j < |bundle[i].item.refs|
    requires NewDraws(docs.Keys, bundle, draws, bundle[i].item.refs[j])
    ensures var plan := PlanFor(Rename, docs.Keys, bundle, draws).value;
            var r := bundle[i].item.refs[j];
            var last := LastConflicting(docs.Keys, bundle, |bundle|, r.id);
            && Planned(bundle, plan)
            && (plan.actions[i].Writes() ==>
                  && j < |Final(bundle, plan, i).refs|
                  && (Resolves(Upserted(docs, bundle, plan, |bundle|), Final(bundle, plan, i).refs[j]) <==>
                        if last.Some? then bundle[last.value].kind == r.kind
                        else Resolves(docs, r) || Among(bundle, |bundle|, (r.kind, r.id))))
  {
    ReferenceResolvesIff(docs, bundle, draws, bundle[i].item.refs[j]);
    hide PlanFor, Upserted, LastConflicting, NewDraws, Among;
  }
}

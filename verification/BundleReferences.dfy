/**
 When a reference survives an import that renames (`_rewrite_ids` of api/api.py): the map of renamed ids
 forgets of which kind each was, so with a shared id a reference follows the last entry that was renamed.
 */
module BundleReferences {
  import opened Outcomes
  import opened BundleImport

  predicate Named(e: Entry, id: string) {
    e.Thing? && e.item.id == id && id != ""
  }

  /** One of the first `n` entries is the resource with this key. */
  ghost predicate Among(bundle: seq<Entry>, n: nat, key: Key)
    requires n <= |bundle|
  {
    exists i :: 0 <= i < n && Named(bundle[i], key.1) && bundle[i].kind == key.0
  }

  /** The store or an earlier entry has the same kind and id, so this entry has to be renamed. */
  ghost predicate Conflicts(existing: set<Key>, bundle: seq<Entry>, i: nat)
    requires i < |bundle| && bundle[i].Thing?
  {
    (bundle[i].kind, bundle[i].item.id) in existing || Among(bundle, i, (bundle[i].kind, bundle[i].item.id))
  }

  /** The last of the first `n` entries with this id that has to be renamed. */
  ghost function LastConflicting(existing: set<Key>, bundle: seq<Entry>, n: nat, id: string): (r: Option<nat>)
    requires n <= |bundle|
    ensures r.Some? ==> r.value < n && Named(bundle[r.value], id)
  {
    if n == 0 then None
    else if Named(bundle[n - 1], id) && Conflicts(existing, bundle, n - 1) then Some(n - 1)
    else LastConflicting(existing, bundle, n - 1, id)
  }

  /** This id was made from the id of some entry and one of the first `k` draws. */
  ghost predicate Copied(bundle: seq<Entry>, draws: seq<string>, k: nat, id: string)
    requires k <= |draws|
  {
    exists i, j :: 0 <= i < |bundle| && 0 <= j < k && CopyOf(bundle[i], draws[j], id)
  }

  predicate CopyOf(e: Entry, suffix: string, id: string) {
    e.Thing? && e.item.id != "" && id == CopyId(e.item.id, suffix)
  }

  /** The generator yields suffixes of one length, no two alike, and makes nobody's id. */
  ghost predicate NewDraws(existing: set<Key>, bundle: seq<Entry>, draws: seq<string>, r: Ref) {
    && (forall i, j | 0 <= i < j < |draws| :: draws[i] != draws[j] && |draws[i]| == |draws[j]|)
    && (forall key | key in existing :: !Copied(bundle, draws, |draws|, key.1))
    && (forall i | 0 <= i < |bundle| && bundle[i].Thing? :: !Copied(bundle, draws, |draws|, bundle[i].item.id))
    && !Copied(bundle, draws, |draws|, r.id)
  }

  /** In full: the suffixes are of one length and differ, and no id there is is an entry's own with one of them. */
  lemma NewDrawsIff(existing: set<Key>, bundle: seq<Entry>, draws: seq<string>, r: Ref)
    ensures NewDraws(existing, bundle, draws, r) <==>
              && (forall i, j | 0 <= i < j < |draws| :: draws[i] != draws[j] && |draws[i]| == |draws[j]|)
              && forall e, d | e in bundle && e.Thing? && e.item.id != "" && d in draws ::
                   && (forall key | key in existing :: key.1 != e.item.id + "-copy-" + d)
                   && (forall f | f in bundle && f.Thing? :: f.item.id != e.item.id + "-copy-" + d)
                   && r.id != e.item.id + "-copy-" + d
  {
    forall id ensures Copied(bundle, draws, |draws|, id) <==>
      exists e, d :: e in bundle && d in draws && e.Thing? && e.item.id != "" && id == e.item.id + "-copy-" + d
    {
      CopiedIff(bundle, draws, id);
    }
    hide Copied, CopyOf;
  }

  lemma CopiedIff(bundle: seq<Entry>, draws: seq<string>, id: string)
    ensures Copied(bundle, draws, |draws|, id) <==>
            exists e, d :: e in bundle && d in draws && e.Thing? && e.item.id != "" && id == e.item.id + "-copy-" + d
  {
    if e, d :| e in bundle && d in draws && e.Thing? && e.item.id != "" && id == e.item.id + "-copy-" + d {
      var i :| 0 <= i < |bundle| && bundle[i] == e;
      var j :| 0 <= j < |draws| && draws[j] == d;
      assert CopyOf(bundle[i], draws[j], id);
    }
    if Copied(bundle, draws, |draws|, id) {
      var i, j :| 0 <= i < |bundle| && 0 <= j < |draws| && CopyOf(bundle[i], draws[j], id);
      assert bundle[i] in bundle && draws[j] in draws;
    }
  }

  lemma CopiesDiffer(a: string, s: string, b: string, t: string)
    requires a != "" && b != "" && s != t && |s| == |t|
    ensures CopyId(a, s) != CopyId(b, t)
  {
    var x, y := CopyId(a, s), CopyId(b, t);
    assert x[|x| - |s|..] == s && y[|y| - |t|..] == t;
  }

  /** What holds of the plan for the first `n` entries, in terms of the bundle and the store. */
  ghost predicate Tracks(existing: set<Key>, bundle: seq<Entry>, draws: seq<string>, n: nat, p: Plan)
    requires n <= |bundle|
  {
    && |p.draws| <= |draws| && p.draws == draws[|draws| - |p.draws|..]
    && (forall key | key in p.existing :: KnownKey(existing, bundle, draws, n, |draws| - |p.draws|, key))
    && (forall key | key in existing || Among(bundle, n, key) :: key in p.existing)
    && (forall id :: Mapped(existing, bundle, draws, n, p, id))
  }

  ghost predicate Mapped(existing: set<Key>, bundle: seq<Entry>, draws: seq<string>, n: nat, p: Plan, id: string)
    requires n <= |bundle| && |p.draws| <= |draws|
  {
    && (id in p.idMap <==> LastConflicting(existing, bundle, n, id).Some?)
    && (id in p.idMap ==> Follows(existing, bundle, draws, n, p, id))
  }

  ghost predicate KnownKey(existing: set<Key>, bundle: seq<Entry>, draws: seq<string>, n: nat, k: nat, key: Key)
    requires n <= |bundle| && k <= |draws|
  {
    key in existing || Among(bundle, n, key) || Copied(bundle, draws, k, key.1)
  }

  /** A renamed id stands for a resource of one kind only, that of the last entry renamed from it. */
  ghost predicate Follows(existing: set<Key>, bundle: seq<Entry>, draws: seq<string>, n: nat, p: Plan, id: string)
    requires n <= |bundle| && |p.draws| <= |draws| && id in p.idMap
  {
    && Copied(bundle, draws, |draws| - |p.draws|, p.idMap[id])
    && var last := LastConflicting(existing, bundle, n, id);
       && last.Some? && (bundle[last.value].kind, p.idMap[id]) in p.existing
       && forall key | key in p.existing && key.1 == p.idMap[id] :: key.0 == bundle[last.value].kind
  }

  lemma AmongMore(bundle: seq<Entry>, n: nat, key: Key)
    requires n < |bundle|
    ensures Among(bundle, n + 1, key) <==>
              Among(bundle, n, key) || (Named(bundle[n], key.1) && bundle[n].kind == key.0)
  {
    if Named(bundle[n], key.1) && bundle[n].kind == key.0 {
      assert Among(bundle, n + 1, key);
    }
  }

  lemma CopiedMore(bundle: seq<Entry>, draws: seq<string>, k: nat, m: nat, id: string)
    requires k <= m <= |draws| && Copied(bundle, draws, k, id)
    ensures Copied(bundle, draws, m, id)
  {
    var i, j :| 0 <= i < |bundle| && 0 <= j < k && CopyOf(bundle[i], draws[j], id);
    assert CopyOf(bundle[i], draws[j], id);
  }

  /** The entry's key is taken just when it conflicts. */
  lemma TakenIffConflicts(existing: set<Key>, bundle: seq<Entry>, draws: seq<string>, r: Ref, n: nat, p: Plan)
    requires NewDraws(existing, bundle, draws, r) && n < |bundle| && Tracks(existing, bundle, draws, n, p)
    requires bundle[n].Thing?
    ensures (bundle[n].kind, bundle[n].item.id) in p.existing <==> Conflicts(existing, bundle, n)
  {
    var key := (bundle[n].kind, bundle[n].item.id);
    if key in p.existing {
      assert KnownKey(existing, bundle, draws, n, |draws| - |p.draws|, key);
      if Copied(bundle, draws, |draws| - |p.draws|, key.1) {
        CopiedMore(bundle, draws, |draws| - |p.draws|, |draws|, key.1);
      }
    }
  }

  /** The next copy is an id nobody has. */
  lemma NextCopyIsNew(existing: set<Key>, bundle: seq<Entry>, draws: seq<string>, r: Ref, n: nat, p: Plan, key: Key)
    requires NewDraws(existing, bundle, draws, r) && n < |bundle| && Tracks(existing, bundle, draws, n, p)
    requires bundle[n].Thing? && bundle[n].item.id != "" && p.draws != [] && key in p.existing
    ensures key.1 != CopyId(bundle[n].item.id, p.draws[0])
  {
    var k := |draws| - |p.draws|;
    var new' := CopyId(bundle[n].item.id, draws[k]);
    assert CopyOf(bundle[n], draws[k], new');
    assert Copied(bundle, draws, |draws|, new');
    assert KnownKey(existing, bundle, draws, n, k, key);
    if Copied(bundle, draws, k, key.1) {
      var i, j :| 0 <= i < |bundle| && 0 <= j < k && CopyOf(bundle[i], draws[j], key.1);
      CopiesDiffer(bundle[i].item.id, draws[j], bundle[n].item.id, draws[k]);
    }
  }

  lemma CopyIsNotEntry(existing: set<Key>, bundle: seq<Entry>, draws: seq<string>, r: Ref, k: nat, i: nat, id: string)
    requires NewDraws(existing, bundle, draws, r) && k <= |draws| && i < |bundle| && bundle[i].Thing?
    requires Copied(bundle, draws, k, id)
    ensures bundle[i].item.id != id
  {
    CopiedMore(bundle, draws, k, |draws|, id);
  }

  lemma CreatedTracks(existing: set<Key>, bundle: seq<Entry>, draws: seq<string>, r: Ref, n: nat, p: Plan, q: Plan)
    requires NewDraws(existing, bundle, draws, r) && n < |bundle| && Tracks(existing, bundle, draws, n, p)
    requires bundle[n].Thing? && bundle[n].item.id != "" && !Conflicts(existing, bundle, n)
    requires q.draws == p.draws && q.idMap == p.idMap
    requires q.existing == p.existing + {(bundle[n].kind, bundle[n].item.id)}
    ensures Tracks(existing, bundle, draws, n + 1, q)
  {
    var k := |draws| - |p.draws|;
    hide Among, Copied, NewDraws;
    forall key ensures Among(bundle, n + 1, key) <==>
              Among(bundle, n, key) || (Named(bundle[n], key.1) && bundle[n].kind == key.0) {
      AmongMore(bundle, n, key);
    }
    forall key | key in q.existing ensures KnownKey(existing, bundle, draws, n + 1, k, key) {
      assert key in p.existing ==> KnownKey(existing, bundle, draws, n, k, key);
    }
    var m := n + 1;
    forall id ensures Mapped(existing, bundle, draws, m, q, id) {
      assert Mapped(existing, bundle, draws, n, p, id);
      if id in p.idMap {
        CopyIsNotEntry(existing, bundle, draws, r, k, n, p.idMap[id]);
      }
    }
  }

  /** A renaming changes nothing for the ids it is not about. */
  lemma OtherIdStays(existing: set<Key>, bundle: seq<Entry>, draws: seq<string>, n: nat, p: Plan, q: Plan,
                     became: string, id: string)
    requires n < |bundle| && |q.draws| + 1 == |p.draws| <= |draws|
    requires (id in q.idMap <==> id in p.idMap) && (id in p.idMap ==> q.idMap[id] == p.idMap[id])
    requires !Named(bundle[n], id) && Mapped(existing, bundle, draws, n, p, id)
    requires q.existing == p.existing + {(bundle[n].kind, became)} && forall key | key in p.existing :: key.1 != became
    ensures Mapped(existing, bundle, draws, n + 1, q, id)
  {
    if id in p.idMap {
      CopiedMore(bundle, draws, |draws| - |p.draws|, |draws| - |q.draws|, p.idMap[id]);
    }
    hide Copied, Conflicts;
  }

  /** What a renaming does to a plan. */
  ghost predicate Renames(bundle: seq<Entry>, n: nat, p: Plan, q: Plan)
    requires n < |bundle|
  {
    && bundle[n].Thing? && bundle[n].item.id != "" && p.draws != [] && q.draws == p.draws[1..]
    && var became := CopyId(bundle[n].item.id, p.draws[0]);
       && q.idMap == p.idMap[bundle[n].item.id := became]
       && q.existing == p.existing + {(bundle[n].kind, became)}
  }

  lemma RenamedKeys(existing: set<Key>, bundle: seq<Entry>, draws: seq<string>, n: nat, p: Plan, q: Plan)
    requires n < |bundle| && Tracks(existing, bundle, draws, n, p)
    requires Renames(bundle, n, p, q) && Conflicts(existing, bundle, n)
    ensures forall key | key in q.existing :: KnownKey(existing, bundle, draws, n + 1, |draws| - |q.draws|, key)
    ensures forall key | key in existing || Among(bundle, n + 1, key) :: key in q.existing
  {
    var k := |draws| - |p.draws|;
    var became := CopyId(bundle[n].item.id, draws[k]);
    assert CopyOf(bundle[n], draws[k], became);
    assert Copied(bundle, draws, k + 1, became);
    forall id | Copied(bundle, draws, k, id) ensures Copied(bundle, draws, k + 1, id) {
      CopiedMore(bundle, draws, k, k + 1, id);
    }
    hide Among, Copied, CopyId, Mapped;
    forall key ensures Among(bundle, n + 1, key) <==>
              Among(bundle, n, key) || (Named(bundle[n], key.1) && bundle[n].kind == key.0) {
      AmongMore(bundle, n, key);
    }
    forall key | key in q.existing ensures KnownKey(existing, bundle, draws, n + 1, k + 1, key) {
      assert key in p.existing ==> KnownKey(existing, bundle, draws, n, k, key);
    }
  }

  lemma RenamedId(existing: set<Key>, bundle: seq<Entry>, draws: seq<string>, r: Ref, n: nat, p: Plan, q: Plan)
    requires NewDraws(existing, bundle, draws, r) && n < |bundle| && Tracks(existing, bundle, draws, n, p)
    requires Renames(bundle, n, p, q) && Conflicts(existing, bundle, n)
    ensures Mapped(existing, bundle, draws, n + 1, q, bundle[n].item.id)
  {
    var k := |draws| - |p.draws|;
    var became := CopyId(bundle[n].item.id, draws[k]);
    assert CopyOf(bundle[n], draws[k], became);
    assert Copied(bundle, draws, k + 1, became);
    forall key | key in p.existing ensures key.1 != became {
      NextCopyIsNew(existing, bundle, draws, r, n, p, key);
    }
    hide Among, Copied, CopyId, Tracks, NewDraws, Conflicts;
  }

  lemma RenamedTracks(existing: set<Key>, bundle: seq<Entry>, draws: seq<string>, r: Ref, n: nat, p: Plan, q: Plan)
    requires NewDraws(existing, bundle, draws, r) && n < |bundle| && Tracks(existing, bundle, draws, n, p)
    requires Renames(bundle, n, p, q) && Conflicts(existing, bundle, n)
    ensures Tracks(existing, bundle, draws, n + 1, q)
  {
    RenamedKeys(existing, bundle, draws, n, p, q);
    var was, became := bundle[n].item.id, CopyId(bundle[n].item.id, p.draws[0]);
    forall key | key in p.existing ensures key.1 != became {
      NextCopyIsNew(existing, bundle, draws, r, n, p, key);
    }
    hide Among, Copied, NewDraws, CopyId, KnownKey, Conflicts, Mapped;
    var m := n + 1;
    forall id ensures Mapped(existing, bundle, draws, m, q, id) {
      if id == was {
        RenamedId(existing, bundle, draws, r, n, p, q);
      } else {
        OtherIdStays(existing, bundle, draws, n, p, q, became, id);
      }
    }
  }

  lemma NothingPlanned(existing: set<Key>, bundle: seq<Entry>, draws: seq<string>)
    requires PlanFor(Rename, existing, bundle[..0], draws).Some?
    ensures Tracks(existing, bundle, draws, 0, PlanFor(Rename, existing, bundle[..0], draws).value)
  {
  }

  lemma {:induction false} PlanTracks(existing: set<Key>, bundle: seq<Entry>, draws: seq<string>, r: Ref, n: nat)
    requires NewDraws(existing, bundle, draws, r) && n <= |bundle|
    requires PlanFor(Rename, existing, bundle[..n], draws).Some?
    ensures Tracks(existing, bundle, draws, n, PlanFor(Rename, existing, bundle[..n], draws).value)
  {
    hide Tracks, NewDraws, Conflicts;
    if n == 0 {
      NothingPlanned(existing, bundle, draws);
    } else {
      assert bundle[..n][..n - 1] == bundle[..n - 1];
      PlanTracks(existing, bundle, draws, r, n - 1);
      var p, e := PlanFor(Rename, existing, bundle[..n - 1], draws).value, bundle[n - 1];
      var q := PlanFor(Rename, existing, bundle[..n], draws).value;
      if e.Junk? || e.item.id == "" {
        RejectedTracks(existing, bundle, draws, n - 1, p, q);
      } else {
        TakenIffConflicts(existing, bundle, draws, r, n - 1, p);
        if Conflicts(existing, bundle, n - 1) {
          FirstDraw(existing, bundle, draws, r, n - 1, p);
          RenamedTracks(existing, bundle, draws, r, n - 1, p, q);
        } else {
          CreatedTracks(existing, bundle, draws, r, n - 1, p, q);
        }
      }
    }
  }

  lemma RejectedTracks(existing: set<Key>, bundle: seq<Entry>, draws: seq<string>, n: nat, p: Plan, q: Plan)
    requires n < |bundle| && Tracks(existing, bundle, draws, n, p) && (bundle[n].Junk? || bundle[n].item.id == "")
    requires q.existing == p.existing && q.idMap == p.idMap && q.draws == p.draws
    ensures Tracks(existing, bundle, draws, n + 1, q)
  {
    var k := |draws| - |p.draws|;
    hide Among, Copied;
    forall key ensures Among(bundle, n + 1, key) <==> Among(bundle, n, key) {
      AmongMore(bundle, n, key);
    }
    forall key | key in q.existing ensures KnownKey(existing, bundle, draws, n + 1, k, key) {
      assert KnownKey(existing, bundle, draws, n, k, key);
    }
    var m := n + 1;
    forall id ensures Mapped(existing, bundle, draws, m, q, id) {
      assert Mapped(existing, bundle, draws, n, p, id);
    }
  }

  /** The first draw is free. */
  lemma FirstDraw(existing: set<Key>, bundle: seq<Entry>, draws: seq<string>, r: Ref, n: nat, p: Plan)
    requires NewDraws(existing, bundle, draws, r) && n < |bundle| && Tracks(existing, bundle, draws, n, p)
    requires bundle[n].Thing? && bundle[n].item.id != ""
    ensures Draw(p.existing, bundle[n].kind, bundle[n].item.id, p.draws)
            == if p.draws == [] then OutOfDraws else Drawn(CopyId(bundle[n].item.id, p.draws[0]), p.draws[1..])
  {
    if p.draws != [] {
      var key := (bundle[n].kind, CopyId(bundle[n].item.id, p.draws[0]));
      if key in p.existing {
        NextCopyIsNew(existing, bundle, draws, r, n, p, key);
      }
    }
  }

  /**
   When a reference resolves after a renaming import, for every store, bundle and reference: if no entry with
   its id had to be renamed, just when it resolved in the store or the bundle; otherwise just when the last
   such entry is of the kind the reference means.
   */
  lemma ReferenceResolvesIff(docs: map<Key, Item>, bundle: seq<Entry>, draws: seq<string>, r: Ref)
    requires PlanFor(Rename, docs.Keys, bundle, draws).Some? && NewDraws(docs.Keys, bundle, draws, r)
    ensures var plan := PlanFor(Rename, docs.Keys, bundle, draws).value;
            var last := LastConflicting(docs.Keys, bundle, |bundle|, r.id);
            && Planned(bundle, plan)
            && (Resolves(Upserted(docs, bundle, plan, |bundle|), NewRef(r, plan.idMap)) <==>
                  if last.Some? then bundle[last.value].kind == r.kind
                  else Resolves(docs, r) || Among(bundle, |bundle|, (r.kind, r.id)))
  {
    PlanIsSound(Rename, docs.Keys, bundle, draws);
    var plan := PlanFor(Rename, docs.Keys, bundle, draws).value;
    KeysAfter(Rename, docs, bundle, plan);
    assert bundle[..|bundle|] == bundle;
    PlanTracks(docs.Keys, bundle, draws, r, |bundle|);
    hide PlanFor, Upserted, Sound, Among, Copied;
    assert Mapped(docs.Keys, bundle, draws, |bundle|, plan, r.id);
    if r.id !in plan.idMap {
      var k, key := |draws| - |plan.draws|, (r.kind, r.id);
      if key in plan.existing {
        assert KnownKey(docs.Keys, bundle, draws, |bundle|, k, key);
        if Copied(bundle, draws, k, r.id) {
          CopiedMore(bundle, draws, k, |draws|, r.id);
        }
      }
    }
  }

  /** A pipeline that reads from source "a" and writes to destination "a", imported where both exist already. */
  const STORE: map<Key, Item> :=
    map[(Sources, "a") := Item("a", "A", "active", [], ""), (Destinations, "a") := Item("a", "A", "active", [], "")]

  const TARGET := Ref(Destinations, "a")

  const BUNDLE: seq<Entry> :=
    [Thing(Sources, Item("a", "A", "active", [], "")), Thing(Pipelines, Item("p", "P", "active", [TARGET], ""))]

  /** After the first entry: the source is to be written under a new id. */
  lemma SourceRenamed() returns (one: Plan)
    ensures PlanFor(Rename, STORE.Keys, BUNDLE[..1], ["0000"]) == Some(one)
    ensures one
            == Plan(STORE.Keys + {(Sources, "a-copy-0000")}, map["a" := "a-copy-0000"], [Renamed("a-copy-0000")], [])
  {
    var existing, draws := STORE.Keys, ["0000"];
    var none: map<string, string> := map[];
    one := Plan(existing + {(Sources, "a-copy-0000")}, none["a" := "a-copy-0000"], [] + [Renamed("a-copy-0000")], []);
    assert CopyId("a", "0000") == "a-copy-0000";
    assert PlanFor(Rename, existing, [], draws) == Some(Plan(existing, none, [], draws));
    assert BUNDLE[..1] == [BUNDLE[0]] && BUNDLE[..1][..0] == [];
    assert (Sources, "a") in existing && (Sources, "a-copy-0000") !in existing;
    assert Draw(existing, Sources, "a", draws) == Drawn("a-copy-0000", []);
    assert Step(Rename, Plan(existing, none, [], draws), BUNDLE[0]) == Some(one);
  }

  /** The destination the pipeline means is in the store before and after, yet its reference points nowhere. */
  lemma ReferenceIsLost()
    ensures PlanFor(Rename, STORE.Keys, BUNDLE, ["0000"]).Some?
    ensures var plan := PlanFor(Rename, STORE.Keys, BUNDLE, ["0000"]).value;
            && Planned(BUNDLE, plan) && plan.actions[1].Created?
            && var after := Upserted(STORE, BUNDLE, plan, 2);
               && Resolves(STORE, TARGET) && Resolves(after, TARGET)
               && Final(BUNDLE, plan, 1).refs == [NewRef(TARGET, plan.idMap)]
               && !Resolves(after, NewRef(TARGET, plan.idMap))
  {
    var existing, draws := STORE.Keys, ["0000"];
    var one := SourceRenamed();
    PlanIsSound(Rename, existing, BUNDLE, draws);
    var plan := PlanFor(Rename, existing, BUNDLE, draws).value;
    KeysAfter(Rename, STORE, BUNDLE, plan);
    hide PlanFor, Upserted, Sound;
    assert plan.idMap == one.idMap && plan.existing == one.existing + {(Pipelines, "p")};
  }
}

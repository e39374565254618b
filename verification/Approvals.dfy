/**
 The store of parked tool calls (agent/approvals.py): pending records by (session, call), and the keys
 already consumed, both forgotten after a time to live.
 */
module Approvals {
  import opened Outcomes

  const DEFAULT_TTL: int := 900

  type Key = (string, string)

  /** A parked record as the store sees it: when it was created, and what it carries. */
  datatype Parked<+P> = Parked(createdAt: int, payload: P)

  datatype Store<+P> = Store(data: map<Key, Parked<P>>, used: map<Key, int>)

  /** `_prune_locked`: both tables lose what is older than the time to live. */
  function Pruned<P>(s: Store<P>, ttl: int, now: int): Store<P> {
    Store(map k | k in s.data && s.data[k].createdAt >= now - ttl :: s.data[k],
          map k | k in s.used && s.used[k] >= now - ttl :: s.used[k])
  }

  predicate CanPut<P>(s: Store<P>, ttl: int, key: Key, now: int) {
    var p := Pruned(s, ttl, now);
    key !in p.data && key !in p.used
  }

  function AfterPut<P>(s: Store<P>, ttl: int, key: Key, record: Parked<P>, now: int): Store<P> {
    var p := Pruned(s, ttl, now);
    if CanPut(s, ttl, key, now) then p.(data := p.data[key := record]) else p
  }

  function Found<P>(s: Store<P>, ttl: int, key: Key, now: int): Option<Parked<P>> {
    var p := Pruned(s, ttl, now);
    if key in p.data then Some(p.data[key]) else None
  }

  function AfterPop<P>(s: Store<P>, ttl: int, key: Key, now: int): Store<P> {
    var p := Pruned(s, ttl, now);
    if key in p.data then Store(map k | k in p.data && k != key :: p.data[k], p.used[key := now]) else p
  }

  ghost predicate Within<P>(some: map<Key, Parked<P>>, all: map<Key, Parked<P>>) {
    forall k | k in some :: k in all && some[k] == all[k]
  }

  lemma PopFacts<P>(s: Store<P>, ttl: int, key: Key, now: int)
    ensures Within(AfterPop(s, ttl, key, now).data, s.data) && key !in AfterPop(s, ttl, key, now).data
    ensures Found(s, ttl, key, now).Some? ==> key in s.data && Found(s, ttl, key, now).value == s.data[key]
    ensures Within(Pruned(s, ttl, now).data, s.data)
  {
  }

  lemma PutFacts<P>(s: Store<P>, ttl: int, key: Key, record: Parked<P>, now: int)
    ensures var n := AfterPut(s, ttl, key, record, now);
            && Within(n.data - {key}, s.data)
            && (key in n.data ==> n.data[key] == record || (key in s.data && n.data[key] == s.data[key]))
  {
  }

  // ---------------------------------------------------------------------- any sequence of calls

  datatype Call<+P> =
    | Put(key: Key, record: Parked<P>, now: int)
    | Pop(key: Key, now: int)
    | Look(now: int)

  function After<P>(s: Store<P>, ttl: int, call: Call<P>): Store<P> {
    match call
    case Put(key, record, now) => AfterPut(s, ttl, key, record, now)
    case Pop(key, now) => AfterPop(s, ttl, key, now)
    case Look(now) => Pruned(s, ttl, now)
  }

  function AfterAll<P>(s: Store<P>, ttl: int, calls: seq<Call<P>>): Store<P> {
    if calls == [] then s else After(AfterAll(s, ttl, calls[..|calls| - 1]), ttl, calls[|calls| - 1])
  }

  lemma OneMoreCall<P>(s: Store<P>, ttl: int, calls: seq<Call<P>>, call: Call<P>)
    ensures AfterAll(s, ttl, []) == s
    ensures AfterAll(s, ttl, calls + [call]) == After(AfterAll(s, ttl, calls), ttl, call)
  {
    assert (calls + [call])[..|calls|] == calls;
  }

  ghost predicate Between<P>(calls: seq<Call<P>>, from: int, to: int) {
    forall i | 0 <= i < |calls| :: from <= calls[i].now <= to
  }

  /** A key consumed at `at` stays consumed, and cannot be parked again, for a full time to live. */
  lemma {:induction false} StaysConsumed<P>(s: Store<P>, ttl: int, calls: seq<Call<P>>, key: Key, at: int)
    requires key !in s.data && key in s.used && s.used[key] == at
    requires Between(calls, at, at + ttl)
    ensures var n := AfterAll(s, ttl, calls);
            key !in n.data && key in n.used && n.used[key] == at
  {
    if calls != [] {
      assert calls[|calls| - 1].now <= at + ttl;
      StaysConsumed(s, ttl, calls[..|calls| - 1], key, at);
    }
  }

  /**
   Single use: once a record has been popped, no sequence of calls in the following time to live, by
   anybody, lets the same key be popped again. (The clock of those calls is not before the pop.)
   */
  lemma SingleUse<P>(s: Store<P>, ttl: int, key: Key, at: int, calls: seq<Call<P>>, later: int)
    requires Found(s, ttl, key, at).Some? && ttl >= 0
    requires Between(calls, at, at + ttl) && at <= later <= at + ttl
    ensures Found(AfterAll(AfterPop(s, ttl, key, at), ttl, calls), ttl, key, later).None?
    ensures !CanPut(AfterAll(AfterPop(s, ttl, key, at), ttl, calls), ttl, key, later)
  {
    StaysConsumed(AfterPop(s, ttl, key, at), ttl, calls, key, at);
  }

  /** After that the key is free again: one moment past the time to live it can be parked anew. */
  lemma FreeAfterwards<P>(s: Store<P>, ttl: int, key: Key, at: int)
    requires Found(s, ttl, key, at).Some? && ttl >= 0
    ensures CanPut(AfterPop(s, ttl, key, at), ttl, key, at + ttl + 1)
  {
  }

  /** With the time to live in force that is a quarter of an hour, to the second. */
  lemma ConsumedForAQuarterHour<P>(s: Store<P>, key: Key, at: int)
    requires Found(s, DEFAULT_TTL, key, at).Some?
    ensures var n := AfterPop(s, DEFAULT_TTL, key, at);
            !CanPut(n, DEFAULT_TTL, key, at + 900) && CanPut(n, DEFAULT_TTL, key, at + 901)
  {
  }

  // ---------------------------------------------------------------------- the object

  class ApprovalStore<P(!new, ==)> {
    const ttl: int
    var data: map<Key, Parked<P>>
    var used: map<Key, int>

    ghost function Contents(): Store<P>
      reads this
    {
      Store(data, used)
    }

    constructor (ttl: int := DEFAULT_TTL)
      ensures this.ttl == ttl && Contents() == Store(map[], map[])
    {
      this.ttl := ttl;
      data, used := map[], map[];
    }

    method Prune(now: int)
      modifies this
      ensures Contents() == Pruned(old(Contents()), ttl, now)
      ensures forall k :: k in data <==> k in old(data) && now - ttl <= old(data)[k].createdAt
      ensures forall k :: k in used <==> k in old(used) && now - ttl <= old(used)[k]
      ensures forall k | k in data :: data[k] == old(data)[k]
      ensures forall k | k in used :: used[k] == old(used)[k]
    {
      var cutoff := now - ttl;
      var stale := set k | k in data && data[k].createdAt < cutoff;
      ghost var all := data;
      while stale != {}
        invariant stale <= set k | k in all && all[k].createdAt < cutoff
        invariant data == map k | k in all && (all[k].createdAt >= cutoff || k in stale) :: all[k]
        invariant used == old(used)
        decreases stale
      {
        var k :| k in stale;
        data, stale := data - {k}, stale - {k};
      }
      var expired := set k | k in used && used[k] < cutoff;
      used := used - expired;
    }

    /** `put`: false stands for the ValueError. */
    method Put(key: Key, record: Parked<P>, now: int) returns (parked: bool)
      modifies this
      ensures parked == CanPut(old(Contents()), ttl, key, now)
      ensures Contents() == AfterPut(old(Contents()), ttl, key, record, now)
      ensures parked <==>
                && (key in old(data) ==> old(data)[key].createdAt < now - ttl)
                && (key in old(used) ==> old(used)[key] < now - ttl)
      ensures forall k :: k in data <==>
                (k in old(data) && now - ttl <= old(data)[k].createdAt) || (parked && k == key)
      ensures forall k | k in data :: data[k] == if parked && k == key then record else old(data)[k]
      ensures forall k :: k in used <==> k in old(used) && now - ttl <= old(used)[k]
      ensures forall k | k in used :: used[k] == old(used)[k]
    {
      Prune(now);
      if key in data || key in used {
        return false;
      }
      data := data[key := record];
      parked := true;
    }

    method Pop(key: Key, now: int) returns (record: Option<Parked<P>>)
      modifies this
      ensures record == Found(old(Contents()), ttl, key, now)
      ensures Contents() == AfterPop(old(Contents()), ttl, key, now)
      ensures record == if key in old(data) && now - ttl <= old(data)[key].createdAt then Some(old(data)[key]) else None
      ensures forall k :: k in data <==> k in old(data) && now - ttl <= old(data)[k].createdAt && k != key
      ensures forall k | k in data :: data[k] == old(data)[k]
      ensures forall k :: k in used <==>
                (k in old(used) && now - ttl <= old(used)[k]) || (record.Some? && k == key)
      ensures forall k | k in used :: used[k] == if record.Some? && k == key then now else old(used)[k]
    {
      Prune(now);
      record := if key in data then Some(data[key]) else None;
      if record.Some? {
        data := data - {key};
        used := used[key := now];
      }
    }

    method Get(key: Key, now: int) returns (record: Option<Parked<P>>)
      modifies this
      ensures record == Found(old(Contents()), ttl, key, now)
      ensures Contents() == Pruned(old(Contents()), ttl, now)
      ensures record == if key in old(data) && now - ttl <= old(data)[key].createdAt then Some(old(data)[key]) else None
    {
      Prune(now);
      record := if key in data then Some(data[key]) else None;
    }
  }
}

/**
 The two sliding-window limiters of api/api.py: `_api_rate_check` for requests and `_check_rate_limit`
 for authentication attempts. Both keep, per key, only the times still inside the window.
 */
module RateLimiter {

  /** `closed`: a time exactly one window old still counts (requests), or no longer does (authentication). */
  datatype Policy = Policy(limit: int, window: real, closed: bool) {

    predicate Recent(t: real, now: real) {
      if closed then t >= now - window else now - t < window
    }
  }

  /** The two policies in force, the first with the defaults of its two environment variables. */
  const API_REQUESTS := Policy(120, 60.0, true)
  const AUTH_ATTEMPTS := Policy(10, 60.0, false)

  datatype Request = Request(key: string, at: real)

  function Pruned(p: Policy, times: seq<real>, now: real): (r: seq<real>)
    ensures |r| <= |times|
  {
    if times == [] then []
    else
      var last := times[|times| - 1];
      var front := Pruned(p, times[..|times| - 1], now);
      if p.Recent(last, now) then front + [last] else front
  }

  lemma PrunedAppended(p: Policy, times: seq<real>, t: real, now: real)
    ensures Pruned(p, times + [t], now)
            == if p.Recent(t, now) then Pruned(p, times, now) + [t] else Pruned(p, times, now)
  {
    assert (times + [t])[..|times|] == times;
  }

  /** Pruning first at another time loses nothing, if what is recent then was recent at that time too. */
  lemma {:induction false} PrunedTwice(p: Policy, times: seq<real>, now: real, later: real)
    requires forall i | 0 <= i < |times| :: p.Recent(times[i], later) ==> p.Recent(times[i], now)
    ensures Pruned(p, Pruned(p, times, now), later) == Pruned(p, times, later)
  {
    if times != [] {
      var front, last := times[..|times| - 1], times[|times| - 1];
      PrunedTwice(p, front, now, later);
      if p.Recent(last, now) {
        PrunedAppended(p, Pruned(p, front, now), last, later);
      } else {
        assert Pruned(p, times, now) == Pruned(p, front, now);
      }
    }
  }

  // ---------------------------------------------------------------------- the limiter and its reference

  type Buckets = map<string, seq<real>>

  function Bucket(b: Buckets, key: string): seq<real> {
    if key in b then b[key] else []
  }

  predicate Accepts(p: Policy, b: Buckets, r: Request) {
    p.limit <= 0 || |Pruned(p, Bucket(b, r.key), r.at)| < p.limit
  }

  /** The buckets after a request: pruned, with the time of an accepted request added. A limit of 0 is off. */
  function Updated(p: Policy, b: Buckets, r: Request): Buckets {
    if p.limit <= 0 then b
    else
      var recent := Pruned(p, Bucket(b, r.key), r.at);
      b[r.key := if Accepts(p, b, r) then recent + [r.at] else recent]
  }

  function After(p: Policy, requests: seq<Request>): Buckets {
    if requests == [] then map[]
    else Updated(p, After(p, requests[..|requests| - 1]), requests[|requests| - 1])
  }

  /** The requests the limiter accepts. */
  function Accepted(p: Policy, requests: seq<Request>): seq<Request> {
    if requests == [] then []
    else
      var before, r := requests[..|requests| - 1], requests[|requests| - 1];
      if Accepts(p, After(p, before), r) then Accepted(p, before) + [r] else Accepted(p, before)
  }

  function TimesOf(requests: seq<Request>, key: string): seq<real> {
    if requests == [] then []
    else
      var r := requests[|requests| - 1];
      var front := TimesOf(requests[..|requests| - 1], key);
      if r.key == key then front + [r.at] else front
  }

  /** The limiter that never forgets: fewer than the limit of all requests of the key ever accepted are recent. */
  predicate Within(p: Policy, accepted: seq<Request>, r: Request) {
    |Pruned(p, TimesOf(accepted, r.key), r.at)| < p.limit
  }

  /** Which of the requests are of this key and at most a window old: exactly a window counts if it is closed. */
  ghost function InWindow(p: Policy, requests: seq<Request>, key: string, now: real): set<nat> {
    set i | 0 <= i < |requests| && requests[i].key == key
            && (now - requests[i].at < p.window || (p.closed && now - requests[i].at == p.window))
  }

  lemma {:induction false} PrunedCountsWindow(p: Policy, requests: seq<Request>, key: string, now: real)
    ensures |Pruned(p, TimesOf(requests, key), now)| == |InWindow(p, requests, key, now)|
  {
    if requests != [] {
      var before, r := requests[..|requests| - 1], requests[|requests| - 1];
      PrunedCountsWindow(p, before, key, now);
      var last := |before|;
      if r.key == key && p.Recent(r.at, now) {
        assert InWindow(p, requests, key, now) == InWindow(p, before, key, now) + {last};
      } else {
        assert InWindow(p, requests, key, now) == InWindow(p, before, key, now);
      }
      if r.key == key {
        PrunedAppended(p, TimesOf(before, key), r.at, now);
      }
    }
  }

  function Allowed(p: Policy, requests: seq<Request>): seq<Request> {
    if requests == [] then []
    else
      var before, r := Allowed(p, requests[..|requests| - 1]), requests[|requests| - 1];
      if Within(p, before, r) then before + [r] else before
  }

  ghost predicate InOrder(requests: seq<Request>) {
    forall i, j | 0 <= i < j < |requests| :: requests[i].at <= requests[j].at
  }

  /** A time one clock reading has dropped is not recent at a later reading for the same key. */
  ghost predicate DropsForGood(p: Policy, requests: seq<Request>, key: string, later: real) {
    forall i, j | 0 <= i < j < |requests| && requests[i].key == key == requests[j].key ::
      p.Recent(requests[i].at, later) ==> p.Recent(requests[i].at, requests[j].at)
  }

  /** The clock may go back, but never so far that a time already dropped is inside the window again. */
  ghost predicate Harmless(p: Policy, requests: seq<Request>) {
    forall k | 0 <= k < |requests| :: DropsForGood(p, requests[..k], requests[k].key, requests[k].at)
  }

  lemma InOrderIsHarmless(p: Policy, requests: seq<Request>)
    requires InOrder(requests)
    ensures Harmless(p, requests)
  {
  }

  lemma TimesAppended(requests: seq<Request>, r: Request, key: string)
    ensures TimesOf(requests + [r], key)
            == if r.key == key then TimesOf(requests, key) + [r.at] else TimesOf(requests, key)
  {
    assert (requests + [r])[..|requests|] == requests;
  }

  /** A bucket and the whole history of its key have the same recent times. */
  ghost predicate Agree(p: Policy, b: Buckets, accepted: seq<Request>, key: string, now: real) {
    Pruned(p, Bucket(b, key), now) == Pruned(p, TimesOf(accepted, key), now)
  }

  lemma BucketAfter(p: Policy, b: Buckets, r: Request, key: string)
    requires p.limit > 0
    ensures Bucket(Updated(p, b, r), key)
            == if r.key != key then Bucket(b, key)
               else if Accepts(p, b, r) then Pruned(p, Bucket(b, key), r.at) + [r.at]
               else Pruned(p, Bucket(b, key), r.at)
  {
  }

  lemma AgreeAfterRequest(p: Policy, b: Buckets, accepted: seq<Request>, r: Request, key: string, later: real)
    requires p.limit > 0
    requires r.key == key ==>
               forall i | 0 <= i < |Bucket(b, key)| ::
                 p.Recent(Bucket(b, key)[i], later) ==> p.Recent(Bucket(b, key)[i], r.at)
    requires Agree(p, b, accepted, r.key, r.at) && Agree(p, b, accepted, key, later)
    ensures Accepts(p, b, r) <==> Within(p, accepted, r)
    ensures Agree(p, Updated(p, b, r), if Within(p, accepted, r) then accepted + [r] else accepted, key, later)
  {
    var bucket, times := Bucket(b, key), TimesOf(accepted, key);
    hide Pruned, TimesOf, Updated, Bucket, Policy.Recent;
    BucketAfter(p, b, r, key);
    TimesAppended(accepted, r, key);
    if r.key == key {
      PrunedTwice(p, bucket, r.at, later);
      PrunedAppended(p, Pruned(p, bucket, r.at), r.at, later);
      PrunedAppended(p, times, r.at, later);
    }
  }

  ghost predicate Asked(requests: seq<Request>, key: string, t: real) {
    exists i :: 0 <= i < |requests| && requests[i] == Request(key, t)
  }

  lemma {:induction false} PrunedIsPart(p: Policy, times: seq<real>, now: real)
    ensures forall t | t in Pruned(p, times, now) :: t in times
  {
    if times != [] {
      PrunedIsPart(p, times[..|times| - 1], now);
    }
  }

  /** A bucket holds times of requests for its key. */
  lemma {:induction false} BucketIsAsked(p: Policy, requests: seq<Request>, key: string)
    ensures forall t | t in Bucket(After(p, requests), key) :: Asked(requests, key, t)
  {
    if requests != [] {
      var before, r := requests[..|requests| - 1], requests[|requests| - 1];
      BucketIsAsked(p, before, key);
      PrunedIsPart(p, Bucket(After(p, before), key), r.at);
      hide Pruned, Accepts;
      forall t | t in Bucket(After(p, requests), key) ensures Asked(requests, key, t) {
        if t in Bucket(After(p, before), key) {
          var i :| 0 <= i < |before| && before[i] == Request(key, t);
          assert requests[i] == Request(key, t);
        } else {
          assert requests[|before|] == Request(key, t);
        }
      }
    }
  }

  lemma BucketDropsForGood(p: Policy, requests: seq<Request>, r: Request, later: real)
    requires DropsForGood(p, requests + [r], r.key, later)
    ensures var times := Bucket(After(p, requests), r.key);
            forall i | 0 <= i < |times| :: p.Recent(times[i], later) ==> p.Recent(times[i], r.at)
  {
    BucketIsAsked(p, requests, r.key);
    var times, all := Bucket(After(p, requests), r.key), requests + [r];
    hide After, Bucket, Policy.Recent;
    forall i | 0 <= i < |times| ensures p.Recent(times[i], later) ==> p.Recent(times[i], r.at) {
      assert Asked(requests, r.key, times[i]);
      var j :| 0 <= j < |requests| && requests[j] == Request(r.key, times[i]);
      assert all[j] == requests[j] && all[|requests|] == r;
    }
  }

  lemma NothingAgrees(p: Policy, key: string, later: real)
    ensures Agree(p, After(p, []), Allowed(p, []), key, later)
  {
  }

  lemma {:induction false} BucketsAgree(p: Policy, requests: seq<Request>, key: string, later: real)
    requires p.limit > 0 && Harmless(p, requests) && DropsForGood(p, requests, key, later)
    ensures Accepted(p, requests) == Allowed(p, requests)
    ensures Agree(p, After(p, requests), Allowed(p, requests), key, later)
  {
    hide Agree, Updated, Accepts, Within, DropsForGood, Harmless, Policy.Recent;
    if requests == [] {
      NothingAgrees(p, key, later);
    } else {
      var before, r := requests[..|requests| - 1], requests[|requests| - 1];
      assert before + [r] == requests;
      HarmlessBefore(p, before, r);
      assert DropsForGood(p, before + [r], key, later);
      BucketsAgree(p, before, r.key, r.at);
      BucketsAgree(p, before, key, later);
      if r.key == key {
        BucketDropsForGood(p, before, r, later);
      }
      AgreeAfterRequest(p, After(p, before), Allowed(p, before), r, key, later);
    }
  }

  lemma HarmlessBefore(p: Policy, before: seq<Request>, r: Request)
    requires Harmless(p, before + [r])
    ensures Harmless(p, before) && DropsForGood(p, before, r.key, r.at)
    ensures forall key, later | DropsForGood(p, before + [r], key, later) :: DropsForGood(p, before, key, later)
  {
    var all := before + [r];
    assert all[..|before|] == before && all[|before|] == r;
    forall k | 0 <= k < |before| ensures DropsForGood(p, before[..k], before[k].key, before[k].at) {
      assert all[..k] == before[..k] && all[k] == before[k];
    }
    forall key, later | DropsForGood(p, all, key, later) ensures DropsForGood(p, before, key, later) {
      assert forall i | 0 <= i < |before| :: all[i] == before[i];
    }
  }

  /** Unless the clock goes back into what was dropped, forgetting what has left the window changes no decision. */
  lemma PrunedWindowIsFullHistory(p: Policy, requests: seq<Request>)
    requires p.limit > 0 && Harmless(p, requests)
    ensures Accepted(p, requests) == Allowed(p, requests)
  {
    if requests != [] {
      var before, r := requests[..|requests| - 1], requests[|requests| - 1];
      assert before + [r] == requests;
      HarmlessBefore(p, before, r);
      BucketsAgree(p, before, r.key, r.at);
    }
  }

  lemma LastRequest(p: Policy, requests: seq<Request>, r: Request)
    ensures Accepted(p, requests + [r])
            == if Accepts(p, After(p, requests), r) then Accepted(p, requests) + [r] else Accepted(p, requests)
    ensures Allowed(p, requests + [r])
            == if Within(p, Allowed(p, requests), r) then Allowed(p, requests) + [r] else Allowed(p, requests)
    ensures After(p, requests + [r]) == Updated(p, After(p, requests), r)
  {
    assert (requests + [r])[..|requests|] == requests;
  }

  /** On a clock set back it can: a time already forgotten is inside the window again. */
  lemma ClockSetBack(key: string)
    ensures var p := Policy(2, 60.0, false);
            var a, b, c := Request(key, 0.0), Request(key, 60.0), Request(key, 30.0);
            Accepted(p, [a] + [b] + [c]) == [a] + [b] + [c] && Allowed(p, [a] + [b] + [c]) == [a] + [b]
  {
    var p := Policy(2, 60.0, false);
    var a, b, c := Request(key, 0.0), Request(key, 60.0), Request(key, 30.0);
    assert !p.Recent(0.0, 60.0) && p.Recent(60.0, 30.0) && p.Recent(0.0, 30.0);
    hide Policy.Recent;
    FirstRequest(p, a);
    LastRequest(p, [a], b);
    LastRequest(p, [a] + [b], c);
    BucketAfter(p, After(p, [a]), b, key);
    OneTime(p, 0.0, 60.0);
    OneTime(p, 60.0, 30.0);
    OneTime(p, 0.0, 30.0);
    PrunedAppended(p, [0.0], 60.0, 30.0);
    TimesAppended([a], b, key);
    hide After, Updated, Bucket, Pruned, TimesOf, Accepted, Allowed;
    assert [] + [60.0] == [60.0];
    assert Accepts(p, After(p, [a]), b) && Within(p, [a], b);
    assert Accepts(p, After(p, [a] + [b]), c) && !Within(p, [a] + [b], c);
  }

  lemma FirstRequest(p: Policy, r: Request)
    requires p.limit > 0
    ensures Accepted(p, [r]) == [r] == Allowed(p, [r])
    ensures Bucket(After(p, [r]), r.key) == [r.at] == TimesOf([r], r.key)
  {
    assert [r][..0] == [] && [] + [r] == [r] && [] + [r.at] == [r.at];
    LastRequest(p, [], r);
    BucketAfter(p, map[], r, r.key);
    TimesAppended([], r, r.key);
  }

  lemma OneTime(p: Policy, t: real, now: real)
    ensures Pruned(p, [t], now) == if p.Recent(t, now) then [t] else []
  {
    assert [t][..0] == [];
  }

  // ---------------------------------------------------------------------- which clock readings do harm

  function Repeats(r: Request, n: nat): seq<Request> {
    if n == 0 then [] else Repeats(r, n - 1) + [r]
  }

  ghost predicate SameDecisions(p: Policy, requests: seq<Request>) {
    Accepted(p, requests) == Allowed(p, requests)
  }

  /** With a limit above the number of requests everything is accepted, and a bucket is no longer than that. */
  lemma {:induction false} AllAccepted(p: Policy, requests: seq<Request>, key: string)
    requires |requests| < p.limit
    ensures Accepted(p, requests) == requests == Allowed(p, requests)
    ensures |Bucket(After(p, requests), key)| <= |requests| && |TimesOf(requests, key)| <= |requests|
  {
    if requests != [] {
      var before, r := requests[..|requests| - 1], requests[|requests| - 1];
      AllAccepted(p, before, r.key);
      AllAccepted(p, before, key);
      assert before + [r] == requests;
      LastRequest(p, before, r);
      BucketAfter(p, After(p, before), r, key);
      TimesAppended(before, r, key);
      hide After, Accepted, Allowed, Bucket, Pruned, TimesOf, Updated;
    }
  }

  /** Pruning a second time shortens, and loses every time that is recent now but was not then. */
  lemma {:induction false} PrunedTwiceIsShorter(p: Policy, times: seq<real>, now: real, later: real)
    ensures |Pruned(p, Pruned(p, times, now), later)| <= |Pruned(p, times, later)|
    ensures (exists t :: t in times && p.Recent(t, later) && !p.Recent(t, now)) ==>
              |Pruned(p, Pruned(p, times, now), later)| < |Pruned(p, times, later)|
  {
    if times != [] {
      var front, last := times[..|times| - 1], times[|times| - 1];
      PrunedTwiceIsShorter(p, front, now, later);
      if p.Recent(last, now) {
        PrunedAppended(p, Pruned(p, front, now), last, later);
      } else {
        assert Pruned(p, times, now) == Pruned(p, front, now);
      }
    }
  }

  /** This reading brings back a time some request of the key had dropped. */
  ghost predicate BringsBack(p: Policy, requests: seq<Request>, key: string, later: real) {
    exists i, j :: 0 <= i < j < |requests| && DroppedBy(p, requests, key, later, i, j)
  }

  ghost predicate DroppedBy(p: Policy, requests: seq<Request>, key: string, later: real, i: nat, j: nat)
    requires i < j < |requests|
  {
    && requests[i].key == key == requests[j].key
    && p.Recent(requests[i].at, later) && !p.Recent(requests[i].at, requests[j].at)
  }

  lemma BringsBackIff(p: Policy, requests: seq<Request>, key: string, later: real)
    ensures DropsForGood(p, requests, key, later) <==> !BringsBack(p, requests, key, later)
  {
    hide Policy.Recent;
    if !DropsForGood(p, requests, key, later) {
      var i: nat, j: nat :| i < j < |requests| && requests[i].key == key == requests[j].key
        && p.Recent(requests[i].at, later) && !p.Recent(requests[i].at, requests[j].at);
      assert DroppedBy(p, requests, key, later, i, j);
    }
    if BringsBack(p, requests, key, later) {
      var i, j :| 0 <= i < j < |requests| && DroppedBy(p, requests, key, later, i, j);
      assert !DropsForGood(p, requests, key, later);
    }
  }

  /** With everything accepted, a time asked for is in the bucket, or some later request dropped it. */
  lemma {:induction false} KeptOrDropped(p: Policy, requests: seq<Request>, key: string, later: real, i: nat)
    requires i < |requests| < p.limit && requests[i].key == key && p.Recent(requests[i].at, later)
    ensures requests[i].at in Bucket(After(p, requests), key) || BringsBack(p, requests, key, later)
  {
    var before, r := requests[..|requests| - 1], requests[|requests| - 1];
    var t, last := requests[i].at, |requests| - 1;
    assert before + [r] == requests;
    LastRequest(p, before, r);
    AllAccepted(p, before, r.key);
    BucketAfter(p, After(p, before), r, key);
    var bucket := Bucket(After(p, before), key);
    if i == last {
      hide After, Accepted, Allowed, Bucket, Pruned, Updated, BringsBack, Policy.Recent;
    } else {
      KeptOrDropped(p, before, key, later, i);
      hide After, Accepted, Allowed, Bucket, Pruned, Updated, Policy.Recent, DroppedBy;
      if BringsBack(p, before, key, later) {
        BringsBackStill(p, before, r, key, later);
      } else if r.key == key {
        if p.Recent(t, r.at) {
          PrunedKeeps(p, bucket, t, r.at);
        } else {
          JustDropped(p, requests, key, later, i);
        }
      }
    }
  }

  lemma JustDropped(p: Policy, requests: seq<Request>, key: string, later: real, i: nat)
    requires i + 1 < |requests| && DroppedBy(p, requests, key, later, i, |requests| - 1)
    ensures BringsBack(p, requests, key, later)
  {
  }

  lemma BringsBackStill(p: Policy, before: seq<Request>, r: Request, key: string, later: real)
    requires BringsBack(p, before, key, later)
    ensures BringsBack(p, before + [r], key, later)
  {
    var i, j :| 0 <= i < j < |before| && DroppedBy(p, before, key, later, i, j);
    assert DroppedBy(p, before + [r], key, later, i, j);
  }

  lemma {:induction false} PrunedKeeps(p: Policy, times: seq<real>, t: real, now: real)
    requires t in times && p.Recent(t, now)
    ensures t in Pruned(p, times, now)
  {
    var front, last := times[..|times| - 1], times[|times| - 1];
    if t in front {
      PrunedKeeps(p, front, t, now);
    }
  }

  /** With everything accepted, the bucket counts no more than the history, and less if a time is brought back. */
  lemma {:induction false} BucketCountsLess(p: Policy, requests: seq<Request>, key: string, later: real)
    requires |requests| < p.limit
    ensures |Pruned(p, Bucket(After(p, requests), key), later)| <= |Pruned(p, TimesOf(requests, key), later)|
    ensures BringsBack(p, requests, key, later) ==>
              |Pruned(p, Bucket(After(p, requests), key), later)| < |Pruned(p, TimesOf(requests, key), later)|
  {
    if requests != [] {
      var before, r := requests[..|requests| - 1], requests[|requests| - 1];
      assert before + [r] == requests;
      BucketCountsLess(p, before, key, later);
      AllAccepted(p, before, r.key);
      LastRequest(p, before, r);
      BucketAfter(p, After(p, before), r, key);
      TimesAppended(before, r, key);
      var bucket, times := Bucket(After(p, before), key), TimesOf(before, key);
      hide After, Accepted, Allowed, Bucket, Pruned, TimesOf, Updated, DroppedBy, BringsBack, Policy.Recent;
      if r.key == key {
        PrunedAppended(p, Pruned(p, bucket, r.at), r.at, later);
        PrunedAppended(p, times, r.at, later);
        PrunedTwiceIsShorter(p, bucket, r.at, later);
      }
      if BringsBack(p, requests, key, later) && !BringsBack(p, before, key, later) {
        LastDropsKept(p, before, r, key, later);
      }
    }
  }

  /** If the last request is the first to drop a time that comes back, that time was in the bucket. */
  lemma LastDropsKept(p: Policy, before: seq<Request>, r: Request, key: string, later: real)
    requires |before| < p.limit
    requires BringsBack(p, before + [r], key, later) && !BringsBack(p, before, key, later)
    ensures r.key == key
    ensures exists t :: t in Bucket(After(p, before), key) && p.Recent(t, later) && !p.Recent(t, r.at)
  {
    LastDrops(p, before, r, key, later);
    var i :| 0 <= i < |before| && DroppedBy(p, before + [r], key, later, i, |before|);
    assert (before + [r])[i] == before[i] && (before + [r])[|before|] == r;
    KeptOrDropped(p, before, key, later, i);
    hide After, Bucket, Policy.Recent;
    assert before[i].at in Bucket(After(p, before), key);
  }

  lemma LastDrops(p: Policy, before: seq<Request>, r: Request, key: string, later: real)
    requires BringsBack(p, before + [r], key, later) && !BringsBack(p, before, key, later)
    ensures exists i :: 0 <= i < |before| && DroppedBy(p, before + [r], key, later, i, |before|)
  {
    var all := before + [r];
    var i, j :| 0 <= i < j < |all| && DroppedBy(p, all, key, later, i, j);
    if j < |before| {
      assert DroppedBy(p, before, key, later, i, j);
    }
    assert j == |before|;
  }

  /** How many times count at this reading: those in the bucket, and those in the whole history. */
  function Held(p: Policy, requests: seq<Request>, r: Request): nat {
    |Pruned(p, Bucket(After(p, requests), r.key), r.at)|
  }

  function Known(p: Policy, requests: seq<Request>, r: Request): nat {
    |Pruned(p, TimesOf(requests, r.key), r.at)|
  }

  /** Asking once more at the same reading, where both still accept. */
  lemma OneMoreRepeat(p: Policy, before: seq<Request>, r: Request)
    requires p.Recent(r.at, r.at) && Accepted(p, before) == before == Allowed(p, before)
    requires Held(p, before, r) < p.limit && Known(p, before, r) < p.limit
    ensures var all := before + [r];
            && Accepted(p, all) == all == Allowed(p, all)
            && Held(p, all, r) == Held(p, before, r) + 1 && Known(p, all, r) == Known(p, before, r) + 1
  {
    hide After, Accepted, Allowed, Bucket, Pruned, TimesOf, Updated, Policy.Recent;
    LastRequest(p, before, r);
    BucketAfter(p, After(p, before), r, r.key);
    TimesAppended(before, r, r.key);
    var bucket := Bucket(After(p, before), r.key);
    PrunedTwice(p, bucket, r.at, r.at);
    PrunedAppended(p, Pruned(p, bucket, r.at), r.at, r.at);
    PrunedAppended(p, TimesOf(before, r.key), r.at, r.at);
  }

  /** Asking again at the same reading adds one to both counts, as long as both accept. */
  lemma {:induction false} CountsAfterRepeats(p: Policy, requests: seq<Request>, r: Request, n: nat)
    requires |requests| < p.limit && p.Recent(r.at, r.at) && Held(p, requests, r) <= Known(p, requests, r)
    requires Known(p, requests, r) + n <= p.limit
    ensures var all := requests + Repeats(r, n);
            && Accepted(p, all) == all == Allowed(p, all)
            && Held(p, all, r) == Held(p, requests, r) + n && Known(p, all, r) == Known(p, requests, r) + n
  {
    hide After, Accepted, Allowed, Held, Known, Policy.Recent;
    if n == 0 {
      AllAccepted(p, requests, r.key);
      assert requests + Repeats(r, 0) == requests;
    } else {
      CountsAfterRepeats(p, requests, r, n - 1);
      assert requests + Repeats(r, n) == requests + Repeats(r, n - 1) + [r];
      hide Repeats;
      OneMoreRepeat(p, requests + Repeats(r, n - 1), r);
    }
  }

  lemma HistoryIsShort(p: Policy, requests: seq<Request>, r: Request)
    requires |requests| < p.limit
    ensures Known(p, requests, r) <= |requests|
    ensures Held(p, requests, r) <= Known(p, requests, r)
    ensures BringsBack(p, requests, r.key, r.at) ==> Held(p, requests, r) < Known(p, requests, r)
  {
    hide After, Bucket, Pruned, TimesOf, BringsBack;
    AllAccepted(p, requests, r.key);
    BucketCountsLess(p, requests, r.key, r.at);
  }

  /** Where the history is full and the bucket is not, the decisions differ. */
  lemma DecisionsDiffer(p: Policy, all: seq<Request>, r: Request)
    requires Accepted(p, all) == all == Allowed(p, all) && Held(p, all, r) < p.limit <= Known(p, all, r)
    ensures !SameDecisions(p, all + [r])
  {
    hide After, Accepted, Allowed, Bucket, Pruned, TimesOf;
    LastRequest(p, all, r);
  }

  /** A reading that brings a dropped time back makes some limit, asked often enough, decide wrongly. */
  lemma BroughtBackDoesHarm(window: real, closed: bool, requests: seq<Request>, r: Request)
    returns (limit: int, n: nat)
    requires window > 0.0 && BringsBack(Policy(1, window, closed), requests, r.key, r.at)
    ensures limit > 0 && !SameDecisions(Policy(limit, window, closed), requests + Repeats(r, n))
  {
    hide *;
    limit := |requests| + 1;
    var p := Policy(limit, window, closed);
    NowIsRecent(p, r.at);
    SameWindow(Policy(1, window, closed), p, requests, r.key, r.at);
    HistoryIsShort(p, requests, r);
    var rest := limit - Known(p, requests, r);
    CountsAfterRepeats(p, requests, r, rest);
    DecisionsDiffer(p, requests + Repeats(r, rest), r);
    n := rest + 1;
    OneMore(requests, r, rest);
  }

  lemma NowIsRecent(p: Policy, t: real)
    requires p.window > 0.0
    ensures p.Recent(t, t)
  {
  }

  lemma OneMore(requests: seq<Request>, r: Request, n: nat)
    ensures requests + Repeats(r, n + 1) == requests + Repeats(r, n) + [r]
  {
  }

  /** The limit has no part in what is recent. */
  lemma SameWindow(p: Policy, q: Policy, requests: seq<Request>, key: string, later: real)
    requires p.window == q.window && p.closed == q.closed
    ensures BringsBack(p, requests, key, later) <==> BringsBack(q, requests, key, later)
    ensures Harmless(p, requests) <==> Harmless(q, requests)
    ensures DropsForGood(p, requests, key, later) <==> DropsForGood(q, requests, key, later)
  {
    forall i, j | 0 <= i < j < |requests|
      ensures DroppedBy(p, requests, key, later, i, j) <==> DroppedBy(q, requests, key, later, i, j)
    {
    }
    forall a: seq<Request>, k: string, at: real
      ensures DropsForGood(p, a, k, at) <==> DropsForGood(q, a, k, at)
    {
    }
  }

  lemma {:induction false} RepeatsAreHarmless(p: Policy, requests: seq<Request>, r: Request, n: nat)
    requires Harmless(p, requests) && DropsForGood(p, requests, r.key, r.at)
    ensures Harmless(p, requests + Repeats(r, n)) && DropsForGood(p, requests + Repeats(r, n), r.key, r.at)
  {
    if n == 0 {
      assert requests + Repeats(r, 0) == requests;
    } else {
      RepeatsAreHarmless(p, requests, r, n - 1);
      var before := requests + Repeats(r, n - 1);
      var all := before + [r];
      assert all == requests + Repeats(r, n);
      hide Repeats, Policy.Recent;
      assert all[..|before|] == before;
      forall k | 0 <= k < |all| ensures DropsForGood(p, all[..k], all[k].key, all[k].at) {
        if k < |before| {
          assert all[..k] == before[..k];
        }
      }
    }
  }

  /**
   Exactly which readings of the clock are harmless: after requests that were, the next reading leads no
   limit to a wrong decision, however often it is repeated, if and only if it brings no dropped time back.
   */
  lemma HarmlessReadingIff(window: real, closed: bool, requests: seq<Request>, r: Request)
    requires window > 0.0 && Harmless(Policy(1, window, closed), requests)
    ensures (forall limit, n: nat | limit > 0 ::
               SameDecisions(Policy(limit, window, closed), requests + Repeats(r, n)))
            <==> DropsForGood(Policy(1, window, closed), requests, r.key, r.at)
  {
    var p := Policy(1, window, closed);
    BringsBackIff(p, requests, r.key, r.at);
    if BringsBack(p, requests, r.key, r.at) {
      var limit, n := BroughtBackDoesHarm(window, closed, requests, r);
    } else {
      forall limit, n: nat | limit > 0
        ensures SameDecisions(Policy(limit, window, closed), requests + Repeats(r, n))
      {
        var q := Policy(limit, window, closed);
        SameWindow(p, q, requests, r.key, r.at);
        RepeatsAreHarmless(q, requests, r, n);
        PrunedWindowIsFullHistory(q, requests + Repeats(r, n));
      }
    }
  }

  // ---------------------------------------------------------------------- what the limit means

  /** Which of the requests of the key fall into the window that ends at `end`. */
  ghost function Inside(p: Policy, requests: seq<Request>, key: string, end: real): set<nat> {
    set i | 0 <= i < |requests| && requests[i].key == key && requests[i].at <= end
            && (end - p.window < requests[i].at || (p.closed && end - p.window == requests[i].at))
  }

  ghost predicate NoneAfter(requests: seq<Request>, at: real) {
    forall i | 0 <= i < |requests| :: requests[i].at <= at
  }

  lemma {:induction false} AllowedBefore(p: Policy, requests: seq<Request>, at: real)
    requires NoneAfter(requests, at)
    ensures NoneAfter(Allowed(p, requests), at)
  {
    if requests != [] {
      AllowedBefore(p, requests[..|requests| - 1], at);
    }
  }

  lemma InsideAppended(p: Policy, requests: seq<Request>, r: Request, key: string, end: real)
    ensures |Inside(p, requests + [r], key, end)| <= |Inside(p, requests, key, end)| + 1
    ensures r.key != key || end < r.at ==> Inside(p, requests + [r], key, end) == Inside(p, requests, key, end)
  {
    var more, last := Inside(p, requests + [r], key, end), |requests|;
    if last in more {
      assert more == Inside(p, requests, key, end) + {last};
    } else {
      assert more == Inside(p, requests, key, end);
    }
  }

  /** The step of the next lemma: an accepted request finds room in every window it falls into. */
  lemma RoomForOneMore(p: Policy, accepted: seq<Request>, r: Request, end: real)
    requires Within(p, accepted, r) && NoneAfter(accepted, r.at) && r.at <= end
    ensures |Inside(p, accepted, r.key, end)| < p.limit
  {
    var few, many := Inside(p, accepted, r.key, end), InWindow(p, accepted, r.key, r.at);
    PrunedCountsWindow(p, accepted, r.key, r.at);
    assert few <= many;
    SubsetIsSmaller(few, many);
  }

  lemma {:induction false} SubsetIsSmaller(few: set<nat>, many: set<nat>)
    requires few <= many
    ensures |few| <= |many|
  {
    assert many == few + (many - few);
  }

  lemma {:induction false} AllowedFitsAnyWindow(p: Policy, requests: seq<Request>, key: string, end: real)
    requires p.limit > 0 && InOrder(requests)
    ensures |Inside(p, Allowed(p, requests), key, end)| <= p.limit
  {
    if requests != [] {
      var before, r := requests[..|requests| - 1], requests[|requests| - 1];
      var accepted := Allowed(p, before);
      AllowedFitsAnyWindow(p, before, key, end);
      AllowedBefore(p, before, r.at);
      hide Inside, InOrder;
      if Within(p, accepted, r) {
        InsideAppended(p, accepted, r, key, end);
        if r.key == key && r.at <= end {
          RoomForOneMore(p, accepted, r, end);
        }
      }
    }
  }

  /** No window of that length, wherever it ends, holds more accepted requests of one key than the limit. */
  lemma AtMostLimitInAnyWindow(p: Policy, requests: seq<Request>, key: string, end: real)
    requires p.limit > 0 && InOrder(requests)
    ensures |Inside(p, Accepted(p, requests), key, end)| <= p.limit
  {
    InOrderIsHarmless(p, requests);
    PrunedWindowIsFullHistory(p, requests);
    AllowedFitsAnyWindow(p, requests, key, end);
  }

  /** On a clock that does not go back the next request is decided by what was accepted in the window before it. */
  lemma WindowDecides(p: Policy, requests: seq<Request>, r: Request)
    requires p.limit > 0 && InOrder(requests + [r])
    ensures var before := Accepted(p, requests);
            Accepted(p, requests + [r])
            == if |InWindow(p, before, r.key, r.at)| < p.limit then before + [r] else before
  {
    InOrderIsHarmless(p, requests + [r]);
    FullHistoryDecides(p, requests, r);
    LastRequest(p, requests, r);
    PrunedCountsWindow(p, Accepted(p, requests), r.key, r.at);
    hide InOrder, After, Accepted, Accepts, InWindow, Pruned, TimesOf, Harmless;
  }

  /**
   The two policies at work, on a clock that does not go back. An attempt is let through exactly if fewer
   than ten of its address were in the last minute, not counting one a minute old; and a request exactly if
   fewer than a hundred and twenty of its key were, counting one a minute old.
   */
  lemma PoliciesInForce(requests: seq<Request>, r: Request)
    requires InOrder(requests + [r])
    ensures var before := Accepted(AUTH_ATTEMPTS, requests);
            Accepted(AUTH_ATTEMPTS, requests + [r])
            == if |set i | 0 <= i < |before| && before[i].key == r.key && r.at - before[i].at < 60.0| < 10
               then before + [r] else before
    ensures var before := Accepted(API_REQUESTS, requests);
            Accepted(API_REQUESTS, requests + [r])
            == if |set i | 0 <= i < |before| && before[i].key == r.key && r.at - before[i].at <= 60.0| < 120
               then before + [r] else before
  {
    WindowDecides(AUTH_ATTEMPTS, requests, r);
    WindowDecides(API_REQUESTS, requests, r);
    hide InOrder, Accepted;
    var attempts, others := Accepted(AUTH_ATTEMPTS, requests), Accepted(API_REQUESTS, requests);
    assert InWindow(AUTH_ATTEMPTS, attempts, r.key, r.at)
        == set i | 0 <= i < |attempts| && attempts[i].key == r.key && r.at - attempts[i].at < 60.0;
    assert InWindow(API_REQUESTS, others, r.key, r.at)
        == set i | 0 <= i < |others| && others[i].key == r.key && r.at - others[i].at <= 60.0;
  }

  function ForKey(requests: seq<Request>, key: string): seq<Request> {
    if requests == [] then []
    else
      var r := requests[|requests| - 1];
      if r.key == key then ForKey(requests[..|requests| - 1], key) + [r] else ForKey(requests[..|requests| - 1], key)
  }

  lemma ForKeyAppended(requests: seq<Request>, r: Request, key: string)
    ensures ForKey(requests + [r], key)
            == if r.key == key then ForKey(requests, key) + [r] else ForKey(requests, key)
  {
    assert (requests + [r])[..|requests|] == requests;
  }

  lemma OneBucketDecides(p: Policy, b: Buckets, c: Buckets, r: Request, key: string)
    requires Bucket(b, key) == Bucket(c, key)
    ensures r.key == key ==> (Accepts(p, b, r) <==> Accepts(p, c, r))
    ensures r.key == key ==> Bucket(Updated(p, b, r), key) == Bucket(Updated(p, c, r), key)
    ensures r.key != key ==> Bucket(Updated(p, b, r), key) == Bucket(b, key)
  {
    hide Pruned;
  }

  /** What happens to one key is what would happen if the others were never used. */
  lemma {:induction false} KeysAreIndependent(p: Policy, requests: seq<Request>, key: string)
    ensures ForKey(Accepted(p, requests), key) == Accepted(p, ForKey(requests, key))
    ensures Bucket(After(p, requests), key) == Bucket(After(p, ForKey(requests, key)), key)
  {
    if requests != [] {
      var before, r := requests[..|requests| - 1], requests[|requests| - 1];
      var mine := ForKey(before, key);
      KeysAreIndependent(p, before, key);
      assert before + [r] == requests;
      hide *;
      LastRequest(p, before, r);
      LastRequest(p, mine, r);
      ForKeyAppended(before, r, key);
      ForKeyAppended(Accepted(p, before), r, key);
      OneBucketDecides(p, After(p, before), After(p, mine), r, key);
    }
  }

  // ---------------------------------------------------------------------- the object

  class Limiter {
    const policy: Policy
    var buckets: map<string, seq<real>>
    /** Every request so far. */
    ghost var requests: seq<Request>

    ghost predicate Valid()
      reads this
    {
      buckets == After(policy, requests)
    }

    constructor (policy: Policy)
      ensures Valid() && this.policy == policy && requests == []
    {
      this.policy, buckets, requests := policy, map[], [];
    }

    /** The list comprehension that drops what has left the window. */
    method Prune(bucket: seq<real>, now: real) returns (recent: seq<real>)
      ensures recent == Pruned(policy, bucket, now)
    {
      recent := [];
      for i := 0 to |bucket|
        invariant recent == Pruned(policy, bucket[..i], now)
      {
        PrunedAppended(policy, bucket[..i], bucket[i], now);
        assert bucket[..i + 1] == bucket[..i] + [bucket[i]];
        if policy.Recent(bucket[i], now) {
          recent := recent + [bucket[i]];
        }
      }
      assert bucket[..|bucket|] == bucket;
    }

    /** True for an accepted request, false for one to be answered with 429. */
    method Check(key: string, now: real) returns (allowed: bool)
      requires Valid()
      modifies this
      ensures Valid() && requests == old(requests) + [Request(key, now)]
      ensures Accepted(policy, requests)
              == if allowed then old(Accepted(policy, requests)) + [Request(key, now)]
                 else old(Accepted(policy, requests))
      ensures policy.limit <= 0 ==> allowed && buckets == old(buckets)
      ensures policy.limit > 0 && Harmless(policy, requests) ==>
                allowed == (|InWindow(policy, old(Accepted(policy, requests)), key, now)| < policy.limit)
    {
      ghost var r := Request(key, now);
      ghost var before := requests;
      LastRequest(policy, before, r);
      FullHistoryDecides(policy, before, r);
      PrunedCountsWindow(policy, Accepted(policy, before), key, now);
      hide After, Accepted, Harmless, Pruned, TimesOf, InWindow;
      requests := requests + [r];
      if policy.limit <= 0 {
        return true;
      }
      var bucket := Prune(if key in buckets then buckets[key] else [], now);
      allowed := |bucket| < policy.limit;
      if allowed {
        bucket := bucket + [now];
      }
      buckets := buckets[key := bucket];
    }
  }

  lemma FullHistoryDecides(p: Policy, before: seq<Request>, r: Request)
    ensures p.limit > 0 && Harmless(p, before + [r]) ==>
              (Accepts(p, After(p, before), r) <==> Within(p, Accepted(p, before), r))
  {
    if p.limit > 0 && Harmless(p, before + [r]) {
      HarmlessBefore(p, before, r);
      BucketsAgree(p, before, r.key, r.at);
    }
  }
}

/**
 One document of the metadata container (api/store.py), with the etag the server gives every
 write, and the blind retry loop that api/cosmos_retry.py wraps around each call.

 Etags are drawn from a counter: the only facts used are that a write gets an etag no earlier
 write of the container had, and that `If-Match` (section 13.1.1 of RFC 9110) compares etags.
 Other clients write and delete at any point between two attempts.
 */
module VersionedStore {
  import opened Outcomes

  datatype Versioned<+D> = Versioned(etag: nat, body: D)

  /** The document, if it exists, and the first etag not yet issued. */
  datatype Slot<+D> = Slot(current: Option<Versioned<D>>, issued: nat) {

    predicate Valid() {
      current.Some? ==> current.value.etag < issued
    }

    predicate Matches(etag: nat) {
      current.Some? && current.value.etag == etag
    }
  }

  function Written<D>(s: Slot<D>, body: D): Slot<D> {
    Slot(Some(Versioned(s.issued, body)), s.issued + 1)
  }

  function Erased<D>(s: Slot<D>): Slot<D> {
    s.(current := None)
  }

  /** What happened to the document: a write, mine or somebody else's, or a deletion. */
  datatype Event<+D> = Wrote(mine: bool, replaced: Option<nat>, version: Versioned<D>) | Deleted

  ghost function Mine<D>(log: seq<Event<D>>): nat {
    if log == [] then 0
    else Mine(log[..|log| - 1]) + (if log[|log| - 1].Wrote? && log[|log| - 1].mine then 1 else 0)
  }

  ghost function Deletions<D>(log: seq<Event<D>>): nat {
    if log == [] then 0
    else Deletions(log[..|log| - 1]) + (if log[|log| - 1].Deleted? then 1 else 0)
  }

  lemma CountAppended<D>(log: seq<Event<D>>, e: Event<D>)
    ensures Mine(log + [e]) == Mine(log) + (if e.Wrote? && e.mine then 1 else 0)
    ensures Deletions(log + [e]) == Deletions(log) + (if e.Deleted? then 1 else 0)
  {
    assert (log + [e])[..|log|] == log;
  }

  /**
   How one network attempt goes. `Ambiguous`: the server performed the request but the client
   saw the error; `Dropped`: the server did not perform it. `hint` is the server's wait, if any.
   */
  datatype Fault =
    | Clean
    | Dropped(status: int, hint: Option<real>)
    | Ambiguous(status: int, hint: Option<real>)
  {
    predicate Retryable() {
      !Clean? && status in RETRYABLE_STATUS
    }

    function Hint(): Option<real> {
      if Clean? then None else hint
    }
  }

  ghost predicate SomeAmbiguous(faults: seq<Fault>) {
    exists i | 0 <= i < |faults| :: faults[i].Ambiguous?
  }

  lemma AmbiguousAppended(faults: seq<Fault>, f: Fault)
    ensures !SomeAmbiguous([])
    ensures SomeAmbiguous(faults + [f]) <==> SomeAmbiguous(faults) || f.Ambiguous?
  {
    if SomeAmbiguous(faults) {
      var i :| 0 <= i < |faults| && faults[i].Ambiguous?;
      assert (faults + [f])[i].Ambiguous?;
    }
    assert (faults + [f])[|faults|] == f;
  }

  const RETRYABLE_STATUS: set<int> := {408, 429, 449, 500, 502, 503, 504}

  /** What the caller sees: the stored version, a semantic refusal, or a transport error. */
  datatype Reply<+D> =
    | Acked(version: Versioned<D>)
    | AlreadyExists
    | Missing
    | PreconditionFailed
    | Raised(status: int, hint: Option<real>)

  // ---------------------------------------------------------------------- waiting

  datatype Policy = Policy(maxAttempts: nat, baseDelay: real, maxDelay: real) {
    ghost predicate Valid() {
      baseDelay >= 0.0 && maxDelay >= 0.0
    }
  }

  const DEFAULT_POLICY := Policy(6, 0.2, 30.0)

  function Doubled(base: real, times: nat): (r: real)
    requires base >= 0.0
    ensures r >= base
  {
    if times == 0 then base else 2.0 * Doubled(base, times - 1)
  }

  /** It is the base times a power of two: the exponents add up. */
  lemma {:induction false} DoubledIsPower(base: real, m: nat, n: nat)
    requires base >= 0.0
    ensures Doubled(base, 0) == base && Doubled(base, 1) == base + base
    ensures Doubled(base, m + n) == Doubled(Doubled(base, m), n)
  {
    if n > 0 {
      DoubledIsPower(base, m, n - 1);
    }
  }

  function Capped(x: real, cap: real): real {
    if x <= cap then x else cap
  }

  /** The shortest and the longest wait that can follow attempt number `attempt`, counted from one. */
  function ShortestWait(p: Policy, attempt: nat, hint: Option<real>): real
    requires p.Valid() && attempt > 0
  {
    Capped(if hint.Some? then hint.value else Doubled(p.baseDelay, attempt - 1), p.maxDelay)
  }

  function LongestWait(p: Policy, attempt: nat, hint: Option<real>): real
    requires p.Valid() && attempt > 0
  {
    if hint.Some? then ShortestWait(p, attempt, hint) else 1.25 * ShortestWait(p, attempt, hint)
  }

  /** The sums of these over the failed attempts of a call. */
  ghost function WaitAtLeast(p: Policy, faults: seq<Fault>): real
    requires p.Valid()
  {
    if faults == [] then 0.0
    else WaitAtLeast(p, faults[..|faults| - 1]) + ShortestWait(p, |faults|, faults[|faults| - 1].Hint())
  }

  ghost function WaitBudget(p: Policy, faults: seq<Fault>): real
    requires p.Valid()
  {
    if faults == [] then 0.0
    else WaitBudget(p, faults[..|faults| - 1]) + LongestWait(p, |faults|, faults[|faults| - 1].Hint())
  }

  lemma WaitsAppended(p: Policy, faults: seq<Fault>, f: Fault)
    requires p.Valid()
    ensures WaitBudget(p, faults + [f]) == WaitBudget(p, faults) + LongestWait(p, |faults| + 1, f.Hint())
    ensures WaitAtLeast(p, faults + [f]) == WaitAtLeast(p, faults) + ShortestWait(p, |faults| + 1, f.Hint())
  {
    assert (faults + [f])[..|faults|] == faults;
  }

  /** The geometric sum: the base times 2^n - 1 after n failed attempts, a quarter more at most. */
  lemma {:induction false} DefaultSum(faults: seq<Fault>)
    requires |faults| <= 5 && forall i | 0 <= i < |faults| :: faults[i].Clean? || faults[i].hint.None?
    ensures WaitAtLeast(DEFAULT_POLICY, faults) == Doubled(0.2, |faults|) - 0.2
    ensures WaitBudget(DEFAULT_POLICY, faults) == 1.25 * (Doubled(0.2, |faults|) - 0.2)
  {
    if faults != [] {
      DefaultSum(faults[..|faults| - 1]);
      DefaultDoubled();
    }
  }

  lemma DefaultDoubled()
    ensures Doubled(0.2, 0) == 0.2 && Doubled(0.2, 1) == 0.4 && Doubled(0.2, 2) == 0.8
    ensures Doubled(0.2, 3) == 1.6 && Doubled(0.2, 4) == 3.2 && Doubled(0.2, 5) == 6.4
  {
    assert Doubled(0.2, 1) == 2.0 * Doubled(0.2, 0);
    assert Doubled(0.2, 2) == 2.0 * Doubled(0.2, 1);
    assert Doubled(0.2, 3) == 2.0 * Doubled(0.2, 2);
    assert Doubled(0.2, 4) == 2.0 * Doubled(0.2, 3);
    assert Doubled(0.2, 5) == 2.0 * Doubled(0.2, 4);
  }

  // ---------------------------------------------------------------------- attempts and scripts

  /** The server side of one document: what is stored, and what has happened to it. */
  datatype Server<+D> = Server(slot: Slot<D>, log: seq<Event<D>>)

  /** What another client does to the document. */
  datatype Move<+D> = Put(body: D) | Remove

  function Other<D>(s: Server<D>, m: Move<D>): Server<D> {
    match m
    case Put(body) =>
      Server(Written(s.slot, body), s.log + [Wrote(false, TagOf(s.slot), Versioned(s.slot.issued, body))])
    case Remove => Server(Erased(s.slot), s.log + [Deleted])
  }

  function Others<D>(s: Server<D>, moves: seq<Move<D>>): Server<D> {
    if moves == [] then s else Other(Others(s, moves[..|moves| - 1]), moves[|moves| - 1])
  }

  lemma OthersAppended<D>(s: Server<D>, moves: seq<Move<D>>, m: Move<D>)
    ensures Others(s, moves + [m]) == Other(Others(s, moves), m)
  {
    assert (moves + [m])[..|moves|] == moves;
  }

  lemma NothingMoved<D>(s: Server<D>)
    ensures Others(s, []) == s
  {
  }

  lemma {:induction false} OthersJoined<D>(s: Server<D>, first: seq<Move<D>>, second: seq<Move<D>>)
    ensures Others(s, first + second) == Others(Others(s, first), second)
  {
    if second == [] {
      assert first + second == first;
    } else {
      var front, m := second[..|second| - 1], second[|second| - 1];
      hide Other;
      OthersJoined(s, first, front);
      assert first + second == first + front + [m];
      OthersAppended(s, first + front, m);
    }
  }

  /** A conditional request: replace the version with this etag, or create where there is none. */
  datatype Request<+D> = Replace(body: D, etag: nat) | Create(body: D)

  predicate Fits<D>(slot: Slot<D>, req: Request<D>) {
    match req
    case Replace(_, etag) => slot.Matches(etag)
    case Create(_) => slot.current.None?
  }

  function Performed<D>(s: Server<D>, req: Request<D>): Server<D> {
    Server(Written(s.slot, req.body), s.log + [Wrote(true, TagOf(s.slot), Versioned(s.slot.issued, req.body))])
  }

  function Refusal<D>(slot: Slot<D>, req: Request<D>): Reply<D> {
    if req.Create? then AlreadyExists else if slot.current.None? then Missing else PreconditionFailed
  }

  /** What one attempt does, and what its client sees. */
  function Tried<D>(s: Server<D>, req: Request<D>, fault: Fault): Server<D> {
    if Fits(s.slot, req) && !fault.Dropped? then Performed(s, req) else s
  }

  function ReplyTo<D>(slot: Slot<D>, req: Request<D>, fault: Fault): Reply<D> {
    if !fault.Clean? then Raised(fault.status, fault.hint)
    else if Fits(slot, req) then Acked(Versioned(slot.issued, req.body))
    else Refusal(slot, req)
  }

  /** One turn of the retry loop: what the others do first, and how the attempt goes. */
  datatype Round<+D> = Round(others: seq<Move<D>>, fault: Fault)

  function Played<D>(s: Server<D>, req: Request<D>, rounds: seq<Round<D>>): Server<D> {
    if rounds == [] then s
    else
      var last := rounds[|rounds| - 1];
      Tried(Others(Played(s, req, rounds[..|rounds| - 1]), last.others), req, last.fault)
  }

  lemma PlayedAppended<D>(s: Server<D>, req: Request<D>, rounds: seq<Round<D>>, r: Round<D>)
    ensures Played(s, req, rounds + [r]) == Tried(Others(Played(s, req, rounds), r.others), req, r.fault)
  {
    assert (rounds + [r])[..|rounds|] == rounds;
  }

  function FaultsOf<D>(rounds: seq<Round<D>>): seq<Fault> {
    seq(|rounds|, i requires 0 <= i < |rounds| => rounds[i].fault)
  }

  lemma FaultsAppended<D>(rounds: seq<Round<D>>, r: Round<D>)
    ensures FaultsOf(rounds + [r]) == FaultsOf(rounds) + [r.fault]
  {
  }

  /** All but the last attempt failed, and the reply is that to the last. */
  ghost predicate Looped<D>(s: Server<D>, req: Request<D>, rounds: seq<Round<D>>, reply: Reply<D>) {
    && rounds != []
    && (forall i | 0 <= i < |rounds| - 1 :: !rounds[i].fault.Clean?)
    && var last := rounds[|rounds| - 1];
       reply == ReplyTo(Others(Played(s, req, rounds[..|rounds| - 1]), last.others).slot, req, last.fault)
  }

  lemma LoopedOnce<D>(s: Server<D>, req: Request<D>, rounds: seq<Round<D>>, r: Round<D>, reply: Reply<D>)
    requires forall i | 0 <= i < |rounds| :: !rounds[i].fault.Clean?
    requires reply == ReplyTo(Others(Played(s, req, rounds), r.others).slot, req, r.fault)
    ensures Looped(s, req, rounds + [r], reply)
  {
    assert (rounds + [r])[..|rounds|] == rounds;
  }

  // ---------------------------------------------------------------------- one call is one step

  /** The atomic step that other modules put for a whole call. */
  function Step<D>(s: Server<D>, req: Request<D>, fate: Fate): Server<D> {
    if Fits(s.slot, req) && !fate.Unsent? then Performed(s, req) else s
  }

  /** The reply a step ending this way can give. */
  predicate Explains<D(==)>(slot: Slot<D>, req: Request<D>, fate: Fate, reply: Reply<D>) {
    match fate
    case Answered => reply == ReplyTo(slot, req, Clean)
    case LostRefused =>
      Fits(slot, req) && if req.Create? then reply.AlreadyExists? else reply.Missing? || reply.PreconditionFailed?
    case LostRaised => Fits(slot, req) && reply.Raised?
    case Unsent => reply.Raised?
  }

  /** A moment and a fate for a call: others act, the step happens there and then, others act again. */
  datatype Moment<+D> = Moment(head: seq<Move<D>>, fate: Fate, tail: seq<Move<D>>)

  ghost predicate IsOneStep<D>(s: Server<D>, t: Server<D>, req: Request<D>, reply: Reply<D>, m: Moment<D>) {
    var there := Others(s, m.head);
    && t == Others(Step(there, req, m.fate), m.tail)
    && Explains(there.slot, req, m.fate, reply)
    && (m.fate.Answered? ==> m.tail == [])
  }

  predicate NoRemoval<D>(moves: seq<Move<D>>) {
    forall i | 0 <= i < |moves| :: !moves[i].Remove?
  }

  predicate NobodyRemoves<D>(rounds: seq<Round<D>>) {
    forall i | 0 <= i < |rounds| :: NoRemoval(rounds[i].others)
  }

  /** It cannot fit again: its etag is used up, or the document is there to stay. */
  predicate Spent<D>(slot: Slot<D>, req: Request<D>) {
    && slot.Valid()
    && !Fits(slot, req)
    && (req.Replace? ==> req.etag < slot.issued)
  }

  /** What a request asks of the state it is sent in: the etag it names was issued once. */
  predicate Sound<D>(slot: Slot<D>, req: Request<D>) {
    slot.Valid() && (req.Replace? ==> req.etag < slot.issued)
  }

  lemma {:induction false} StaysSpent<D>(s: Server<D>, req: Request<D>, moves: seq<Move<D>>)
    requires Sound(s.slot, req)
    ensures Sound(Others(s, moves).slot, req)
    ensures Spent(s.slot, req) && (req.Create? ==> NoRemoval(moves)) ==> Spent(Others(s, moves).slot, req)
  {
    if moves != [] {
      StaysSpent(s, req, moves[..|moves| - 1]);
    }
  }

  lemma PerformedIsSpent<D>(s: Server<D>, req: Request<D>)
    requires Sound(s.slot, req) && Fits(s.slot, req)
    ensures Spent(Performed(s, req).slot, req)
  {
  }

  /** Failed attempts are explained by one moment at which the request was performed, or none. */
  ghost predicate SoFar<D>(s: Server<D>, t: Server<D>, req: Request<D>, m: Moment<D>) {
    && Sound(t.slot, req)
    && (m.fate.Unsent? ==> m.tail == [] && t == Others(s, m.head))
    && (m.fate.LostRaised? ==>
          && Fits(Others(s, m.head).slot, req) && t == Others(Performed(Others(s, m.head), req), m.tail)
          && Spent(t.slot, req))
    && (m.fate.Unsent? || m.fate.LostRaised?)
  }

  lemma OneMoreFailure<D>(s: Server<D>, t: Server<D>, req: Request<D>, m: Moment<D>, r: Round<D>)
    returns (n: Moment<D>)
    requires SoFar(s, t, req, m) && !r.fault.Clean? && (req.Create? ==> NoRemoval(r.others))
    ensures SoFar(s, Tried(Others(t, r.others), req, r.fault), req, n)
  {
    StaysSpent(t, req, r.others);
    var there := Others(t, r.others);
    if m.fate.LostRaised? {
      OthersJoined(Performed(Others(s, m.head), req), m.tail, r.others);
      n := m.(tail := m.tail + r.others);
    } else {
      OthersJoined(s, m.head, r.others);
      if Fits(there.slot, req) && r.fault.Ambiguous? {
        PerformedIsSpent(there, req);
        n := Moment(m.head + r.others, LostRaised, []);
      } else {
        n := Moment(m.head + r.others, Unsent, []);
      }
    }
    hide Others;
    assert n.fate.LostRaised? ==> Spent(Tried(there, req, r.fault).slot, req);
  }

  lemma {:induction false} FailuresSoFar<D>(s: Server<D>, req: Request<D>, rounds: seq<Round<D>>)
    returns (m: Moment<D>)
    requires Sound(s.slot, req) && forall i | 0 <= i < |rounds| :: !rounds[i].fault.Clean?
    requires req.Create? ==> NobodyRemoves(rounds)
    ensures SoFar(s, Played(s, req, rounds), req, m)
  {
    if rounds == [] {
      m := Moment([], Unsent, []);
    } else {
      var front, r := rounds[..|rounds| - 1], rounds[|rounds| - 1];
      m := FailuresSoFar(s, req, front);
      hide SoFar, Tried, Others;
      m := OneMoreFailure(s, Played(s, req, front), req, m, r);
    }
  }

  /**
   A whole replacement under the retry loop, and a whole creation too if nobody deletes the document
   meanwhile, is one atomic step at one moment of the call, and its fate explains the reply: what the
   protocols of the other modules take for granted.
   */
  lemma CallIsOneStep<D>(s: Server<D>, req: Request<D>, rounds: seq<Round<D>>, reply: Reply<D>)
    returns (m: Moment<D>)
    requires Sound(s.slot, req) && Looped(s, req, rounds, reply)
    requires req.Create? ==> NobodyRemoves(rounds)
    ensures IsOneStep(s, Played(s, req, rounds), req, reply, m)
  {
    var front, r := rounds[..|rounds| - 1], rounds[|rounds| - 1];
    var sofar := FailuresSoFar(s, req, front);
    var t := Played(s, req, front);
    if r.fault.Clean? {
      m := LastIsClean(s, t, req, sofar, r, reply);
    } else {
      m := OneMoreFailure(s, t, req, sofar, r);
      hide Others;
    }
  }

  lemma LastIsClean<D>(s: Server<D>, t: Server<D>, req: Request<D>, sofar: Moment<D>, r: Round<D>, reply: Reply<D>)
    returns (m: Moment<D>)
    requires SoFar(s, t, req, sofar) && r.fault.Clean? && (req.Create? ==> NoRemoval(r.others))
    requires reply == ReplyTo(Others(t, r.others).slot, req, r.fault)
    ensures IsOneStep(s, Tried(Others(t, r.others), req, r.fault), req, reply, m)
  {
    StaysSpent(t, req, r.others);
    if sofar.fate.Unsent? {
      OthersJoined(s, sofar.head, r.others);
      m := Moment(sofar.head + r.others, Answered, []);
    } else {
      OthersJoined(Performed(Others(s, sofar.head), req), sofar.tail, r.others);
      m := Moment(sofar.head, LostRefused, sofar.tail + r.others);
    }
  }

  /** In general each attempt is a step of its own, and none but the last is answered. */
  lemma AttemptIsStep<D>(s: Server<D>, req: Request<D>, fault: Fault)
    ensures var fate := if fault.Clean? then Answered else if fault.Ambiguous? && Fits(s.slot, req) then LostRaised
                        else Unsent;
            Tried(s, req, fault) == Step(s, req, fate) && Explains(s.slot, req, fate, ReplyTo(s.slot, req, fault))
  {
  }

  /**
   What a caller can infer. Success: the step was performed, and this is the version it wrote. An error: it
   was performed or did not reach the server. A refusal: it did not fit and changed nothing, or it was
   performed and the repeat refused.
   */
  lemma ReplyTells<D>(s: Server<D>, req: Request<D>, fate: Fate, reply: Reply<D>)
    requires Explains(s.slot, req, fate, reply)
    ensures var t := Step(s, req, fate);
            && (reply.Acked? ==> fate.Answered? && t.slot.current == Some(reply.version))
            && (reply.Acked? ==> reply.version.body == req.body
                                 && t.log == s.log + [Wrote(true, TagOf(s.slot), reply.version)])
            && (reply.Raised? ==> fate.LostRaised? || (fate.Unsent? && t == s))
            && (!reply.Acked? && !reply.Raised? ==> (fate.Answered? && t == s) || fate.LostRefused?)
            && (fate.LostRaised? || fate.LostRefused? ==> |t.log| == |s.log| + 1)
            && (req.Create? ==> !reply.Missing? && !reply.PreconditionFailed?)
            && (req.Replace? ==> !reply.AlreadyExists?)
  {
  }

  // ---------------------------------------------------------------------- how often a creation writes

  function Nothing<D>(): Server<D> {
    Server(Slot(None, 0), [])
  }

  /** Attempts that all succeed unnoticed, because the document is deleted before each of them. */
  function LostCreations<D>(n: nat): seq<Round<D>> {
    if n == 0 then [] else LostCreations(n - 1) + [Round(if n == 1 then [] else [Remove], Ambiguous(503, None))]
  }

  lemma LastMove<D>(s: Server<D>)
    ensures Others(s, [Remove]) == Other(s, Remove) && Others(s, []) == s
  {
    assert [Remove] == [] + [Move<D>.Remove];
    OthersAppended(s, [], Remove);
  }

  lemma CreatedAgain<D>(s: Server<D>, body: D, fault: Fault)
    requires s.slot.current.Some? && !fault.Dropped?
    ensures var t := Tried(Others(s, [Remove]), Create(body), fault);
            && t.slot.current.Some? && Mine(t.log) == Mine(s.log) + 1 && Deletions(t.log) == Deletions(s.log) + 1
            && ReplyTo(Others(s, [Remove]).slot, Create(body), Clean).Acked?
  {
    LastMove(s);
    var gone := Other(s, Remove);
    CountAppended(s.log, Deleted);
    CountAppended(gone.log, Wrote(true, None, Versioned(gone.slot.issued, body)));
  }

  lemma FirstCreation<D>(body: D, fault: Fault)
    requires !fault.Dropped?
    ensures var t := Tried(Others(Nothing<D>(), []), Create(body), fault);
            t.slot.current.Some? && Mine(t.log) == 1 && Deletions(t.log) == 0
    ensures ReplyTo(Others(Nothing<D>(), []).slot, Create(body), Clean).Acked?
  {
    CountAppended(Nothing<D>().log, Wrote(true, None, Versioned(0, body)));
  }

  lemma {:induction false} LostCreationsCount<D>(body: D, n: nat)
    requires n > 0
    ensures var t := Played(Nothing<D>(), Create(body), LostCreations(n));
            t.slot.current.Some? && Mine(t.log) == n && Deletions(t.log) == n - 1
  {
    var fault := Ambiguous(503, None);
    if n == 1 {
      PlayedAppended(Nothing<D>(), Create(body), [], Round([], fault));
      FirstCreation(body, fault);
    } else {
      LostCreationsCount(body, n - 1);
      PlayedAppended(Nothing<D>(), Create(body), LostCreations(n - 1), Round([Remove], fault));
      CreatedAgain(Played(Nothing<D>(), Create(body), LostCreations(n - 1)), body, fault);
    }
    hide Played, Tried, Others, Mine, Deletions;
  }

  lemma {:induction false} LostCreationsFail<D>(n: nat)
    ensures |LostCreations<D>(n)| == n
    ensures forall i | 0 <= i < n :: LostCreations<D>(n)[i].fault == Ambiguous(503, None)
  {
    if n > 0 {
      LostCreationsFail<D>(n - 1);
    }
  }

  /**
   The allowance of a creation is exact: for every number of deletions there is a call with that many of them
   which writes once more than that, so every write but the last goes unnoticed and is undone.
   */
  lemma AllowanceIsExact<D>(body: D, n: nat) returns (rounds: seq<Round<D>>)
    ensures |rounds| == n + 1 && forall i | 0 <= i < n :: rounds[i].fault.Retryable()
    ensures var t := Played(Nothing<D>(), Create(body), rounds);
            Deletions(t.log) == n && Mine(t.log) == n + 1
    ensures exists reply: Reply<D> :: reply.Acked? && Looped<D>(Nothing<D>(), Create(body), rounds, reply)
  {
    var front := LostCreations<D>(n);
    var r: Round<D> := Round(if n == 0 then [] else [Remove], Clean);
    rounds := front + [r];
    PlayedAppended(Nothing<D>(), Create(body), front, r);
    LostCreationsFail<D>(n);
    if n == 0 {
      FirstCreation(body, Clean);
    } else {
      LostCreationsCount(body, n);
      CreatedAgain(Played(Nothing<D>(), Create(body), front), body, Clean);
    }
    var reply := ReplyTo(Others(Played(Nothing<D>(), Create(body), front), r.others).slot, Create(body), Clean);
    hide Played, Tried, Others, Mine, Deletions, ReplyTo, LostCreations, Looped;
    assert forall i | 0 <= i < n :: !front[i].fault.Clean?;
    LoopedOnce(Nothing<D>(), Create(body), front, r, reply);
  }

  // ---------------------------------------------------------------------- the container

  /** The server side of one document. */
  class Container<D(!new)> {
    var slot: Slot<D>
    ghost var log: seq<Event<D>>

    constructor ()
      ensures slot == Slot(None, 0) && log == []
    {
      slot := Slot(None, 0);
      log := [];
    }

    ghost function State(): Server<D>
      reads this
    {
      Server(slot, log)
    }

    /** Any number of writes and deletions by other clients. */
    method OthersRun() returns (ghost moves: seq<Move<D>>)
      requires slot.Valid()
      modifies this
      ensures State() == Others(old(State()), moves)
      ensures Later(old(slot), slot) && Mine(log) == Mine(old(log)) && old(log) <= log
      ensures Absent(slot) + Deletions(old(log)) <= Absent(old(slot)) + Deletions(log)
    {
      hide Others, Mine, Deletions;
      NothingMoved(State());
      moves := [];
      var rounds: nat := *;
      while rounds > 0
        invariant State() == Others(old(State()), moves)
        invariant Later(old(slot), slot) && Mine(log) == Mine(old(log)) && old(log) <= log
        invariant Absent(slot) + Deletions(old(log)) <= Absent(old(slot)) + Deletions(log)
      {
        var write: Option<D> := *;
        ghost var before := log;
        ghost var move := if write.Some? then Put(write.value) else Remove;
        OthersAppended(old(State()), moves, move);
        moves := moves + [move];
        if write.Some? {
          log := log + [Wrote(false, TagOf(slot), Versioned(slot.issued, write.value))];
          slot := Written(slot, write.value);
        } else {
          log := log + [Deleted];
          slot := Erased(slot);
        }
        CountAppended(before, log[|before|]);
        rounds := rounds - 1;
      }
    }

    /** `replace_item` with an If-Match header: one attempt. */
    method AttemptReplace(body: D, etag: nat, fault: Fault) returns (r: Reply<D>)
      requires slot.Valid()
      modifies this
      ensures slot.Valid()
      ensures old(slot).current.Some? && old(slot).current.value.etag == etag && !fault.Dropped? ==>
                slot == Slot(Some(Versioned(old(slot).issued, body)), old(slot).issued + 1)
                && log == old(log) + [Wrote(true, Some(etag), Versioned(old(slot).issued, body))]
      ensures old(slot).current.None? || old(slot).current.value.etag != etag || fault.Dropped? ==>
                slot == old(slot) && log == old(log)
      ensures !fault.Clean? ==> r == Raised(fault.status, fault.hint)
      ensures State() == Tried(old(State()), Replace(body, etag), fault)
      ensures r == ReplyTo(old(slot), Replace(body, etag), fault)
      ensures fault.Clean? ==>
                r == if old(slot).current.None? then Missing
                     else if old(slot).current.value.etag != etag then PreconditionFailed
                     else Acked(Versioned(old(slot).issued, body))
    {
      r := if slot.current.None? then Missing else PreconditionFailed;
      if slot.Matches(etag) && !fault.Dropped? {
        r := Acked(Versioned(slot.issued, body));
        log := log + [Wrote(true, Some(etag), Versioned(slot.issued, body))];
        slot := Written(slot, body);
      }
      if !fault.Clean? {
        r := Raised(fault.status, fault.hint);
      }
    }

    /** `create_item`: one attempt. */
    method AttemptCreate(body: D, fault: Fault) returns (r: Reply<D>)
      requires slot.Valid()
      modifies this
      ensures slot.Valid()
      ensures old(slot).current.None? && !fault.Dropped? ==>
                slot == Slot(Some(Versioned(old(slot).issued, body)), old(slot).issued + 1)
                && log == old(log) + [Wrote(true, None, Versioned(old(slot).issued, body))]
      ensures old(slot).current.Some? || fault.Dropped? ==> slot == old(slot) && log == old(log)
      ensures !fault.Clean? ==> r == Raised(fault.status, fault.hint)
      ensures State() == Tried(old(State()), Create(body), fault)
      ensures r == ReplyTo(old(slot), Create(body), fault)
      ensures fault.Clean? ==>
                r == if old(slot).current.None? then Acked(Versioned(old(slot).issued, body)) else AlreadyExists
    {
      r := AlreadyExists;
      if slot.current.None? && !fault.Dropped? {
        r := Acked(Versioned(slot.issued, body));
        log := log + [Wrote(true, None, Versioned(slot.issued, body))];
        slot := Written(slot, body);
      }
      if !fault.Clean? {
        r := Raised(fault.status, fault.hint);
      }
    }
  }

  function Absent<D>(s: Slot<D>): nat {
    if s.current.None? then 1 else 0
  }

  function TagOf<D>(s: Slot<D>): Option<nat> {
    if s.current.None? then None else Some(s.current.value.etag)
  }

  /** Nothing but writes with fresh etags and deletions lies between the two states. */
  predicate Later<D(==)>(s: Slot<D>, t: Slot<D>) {
    && t.Valid()
    && s.issued <= t.issued
    && (t.current.Some? ==> t.current == s.current || t.current.value.etag >= s.issued)
  }

  // ---------------------------------------------------------------------- the retry loop

  /** The delay after attempt number `attempt`: the server's wait, or backoff with up to 25% jitter. */
  method DelayAfter(p: Policy, attempt: nat, hint: Option<real>) returns (delay: real)
    requires p.Valid() && attempt > 0
    ensures ShortestWait(p, attempt, hint) <= delay <= LongestWait(p, attempt, hint)
    ensures hint.Some? ==> delay == if hint.value <= p.maxDelay then hint.value else p.maxDelay
    ensures hint.None? ==>
              var backoff := Doubled(p.baseDelay, attempt - 1);
              if backoff <= p.maxDelay then backoff <= delay <= 1.25 * backoff
              else p.maxDelay <= delay <= 1.25 * p.maxDelay
  {
    if hint.Some? {
      delay := Capped(hint.value, p.maxDelay);
    } else {
      delay := Capped(Doubled(p.baseDelay, attempt - 1), p.maxDelay);
      var jitter: real := *;
      if 0.0 <= jitter <= 0.25 * delay {
        delay := delay + jitter;
      }
    }
  }

  /** What one wrapped call did: its reply, how the attempts went, and how long it slept. */
  datatype Report<+D> = Report(reply: Reply<D>, faults: seq<Fault>, slept: real)

  /** This attempt failed with one of the statuses worth another. */
  ghost predicate WorthRetrying(f: Fault) {
    !f.Clean? && (f.status in {408, 429, 449, 500} || 502 <= f.status <= 504)
  }

  /** The promises every wrapped call keeps, whatever the network does. */
  ghost predicate KeptPolicy<D>(p: Policy, report: Report<D>) {
    var n := |report.faults|;
    && p.Valid()
    && 1 <= n && (n <= p.maxAttempts || n == 1)
    && (forall i | 0 <= i < n - 1 :: WorthRetrying(report.faults[i]))
    && WaitAtLeast(p, report.faults[..n - 1]) <= report.slept <= WaitBudget(p, report.faults[..n - 1])
    && (report.reply.Raised? <==> !report.faults[n - 1].Clean?)
    && (report.reply.Raised? ==>
          n >= p.maxAttempts || !WorthRetrying(report.faults[n - 1]))
  }

  /**
   What that means under the default policy: six attempts at most, all six if a transient error comes through,
   and, if the server never names a wait, pauses that double from 0.2 seconds, with a quarter more at most.
   */
  lemma DefaultBudget<D>(report: Report<D>)
    requires KeptPolicy(DEFAULT_POLICY, report)
    ensures |report.faults| <= 6
    ensures report.reply.Raised? && |report.faults| < 6 ==> !WorthRetrying(report.faults[|report.faults| - 1])
    ensures (forall f | f in report.faults :: f.Clean? || f.hint.None?) ==>
              var least := [0.0, 0.2, 0.6, 1.4, 3.0, 6.2][|report.faults| - 1];
              least <= report.slept <= 1.25 * least
  {
    if forall f | f in report.faults :: f.Clean? || f.hint.None? {
      DefaultSum(report.faults[..|report.faults| - 1]);
      DefaultDoubled();
    }
  }

  /** A wait the server names is kept, up to thirty seconds. */
  lemma DirectedWait(f: Fault)
    requires !f.Clean? && f.hint.Some?
    ensures WaitAtLeast(DEFAULT_POLICY, [f]) == WaitBudget(DEFAULT_POLICY, [f])
            == if f.hint.value <= 30.0 then f.hint.value else 30.0
  {
    assert [f][..0] == [];
  }

  /** The loop has failed so far, and may go on. */
  ghost predicate Failing(p: Policy, faults: seq<Fault>, slept: real)
    requires p.Valid()
  {
    && (|faults| < p.maxAttempts || faults == [])
    && (forall i | 0 <= i < |faults| :: faults[i].Retryable())
    && WaitAtLeast(p, faults) <= slept <= WaitBudget(p, faults)
  }

  lemma HintIs(f: Fault)
    requires !f.Clean?
    ensures f.Hint() == f.hint
  {
  }

  lemma NotFailingYet(p: Policy)
    requires p.Valid()
    ensures Failing(p, [], 0.0)
  {
  }

  lemma FailsAgain(p: Policy, faults: seq<Fault>, f: Fault, slept: real, delay: real)
    requires p.Valid() && Failing(p, faults, slept) && f.Retryable() && |faults| + 1 < p.maxAttempts
    requires ShortestWait(p, |faults| + 1, f.Hint()) <= delay <= LongestWait(p, |faults| + 1, f.Hint())
    ensures Failing(p, faults + [f], slept + delay)
  {
    WaitsAppended(p, faults, f);
    hide ShortestWait, LongestWait;
  }

  lemma PolicyKept<D>(p: Policy, faults: seq<Fault>, last: Fault, reply: Reply<D>, slept: real)
    requires p.Valid() && Failing(p, faults, slept)
    requires reply.Raised? <==> !last.Clean?
    requires reply.Raised? ==> |faults| + 1 >= p.maxAttempts || !last.Retryable()
    ensures KeptPolicy(p, Report(reply, faults + [last], slept))
  {
    assert (faults + [last])[..|faults|] == faults;
  }

  lemma NoRounds<D>(s: Server<D>, req: Request<D>)
    ensures Played(s, req, []) == s && FaultsOf<D>([]) == []
  {
  }

  lemma Concluded<D>(s: Server<D>, req: Request<D>, rounds: seq<Round<D>>, faults: seq<Fault>, r: Round<D>,
                     p: Policy, slept: real, reply: Reply<D>) returns (m: Moment<D>)
    requires Sound(s.slot, req) && FaultsOf(rounds) == faults && p.Valid() && Failing(p, faults, slept)
    requires reply == ReplyTo(Others(Played(s, req, rounds), r.others).slot, req, r.fault)
    ensures Looped(s, req, rounds + [r], reply)
    ensures req.Replace? || NobodyRemoves(rounds + [r]) ==>
              IsOneStep(s, Played(s, req, rounds + [r]), req, reply, m)
  {
    forall i | 0 <= i < |rounds| ensures !rounds[i].fault.Clean? {
      assert faults[i].Retryable();
    }
    hide Played, Others, IsOneStep;
    LoopedOnce(s, req, rounds, r, reply);
    if req.Replace? || NobodyRemoves(rounds + [r]) {
      m := CallIsOneStep(s, req, rounds + [r], reply);
    } else {
      m := Moment([], Unsent, []);
    }
  }

  /** The network does as it likes. */
  method AnyFault() returns (fault: Fault) {
    fault := *;
  }

  /** One attempt at a replacement, after whatever the other clients did. */
  method OneReplacement<D(!new)>(c: Container<D>, body: D, etag: nat)
    returns (reply: Reply<D>, fault: Fault, ghost round: Round<D>)
    requires c.slot.Valid() && etag < c.slot.issued
    modifies c
    ensures c.slot.Valid() && old(c.log) <= c.log && old(c.slot).issued <= c.slot.issued
    ensures round.fault == fault
    ensures c.State() == Tried(Others(old(c.State()), round.others), Replace(body, etag), fault)
    ensures reply == ReplyTo(Others(old(c.State()), round.others).slot, Replace(body, etag), fault)
    ensures reply.Raised? <==> !fault.Clean?
    ensures !reply.AlreadyExists?
    ensures Mine(c.log) == Mine(old(c.log)) || Mine(c.log) == Mine(old(c.log)) + 1
    ensures !old(c.slot).Matches(etag) ==> !c.slot.Matches(etag) && Mine(c.log) == Mine(old(c.log))
    ensures Mine(c.log) > Mine(old(c.log)) ==> !c.slot.Matches(etag) && (reply.Acked? || fault.Ambiguous?)
    ensures reply.Acked? ==>
              && Mine(c.log) > Mine(old(c.log)) && reply.version.body == body && |old(c.log)| < |c.log|
              && c.log[|c.log| - 1] == Wrote(true, Some(etag), reply.version)
  {
    ghost var moves := c.OthersRun();
    fault := AnyFault();
    round := Round(moves, fault);
    ghost var before := c.log;
    reply := c.AttemptReplace(body, etag, fault);
    if |before| < |c.log| {
      CountAppended(before, c.log[|before|]);
    }
  }

  /** What was written since then is at most one for each deletion, and one more if there is no room for it. */
  ghost predicate Within<D>(was: seq<Event<D>>, log: seq<Event<D>>, slot: Slot<D>) {
    && Mine(log) + Absent(slot) + Deletions(was) <= Mine(was) + 1 + Deletions(log)
    && Mine(log) >= Mine(was)
  }

  lemma WithinMeans<D>(was: seq<Event<D>>, log: seq<Event<D>>, slot: Slot<D>)
    requires Within(was, log, slot)
    ensures Mine(log) - Mine(was) <= 1 + Deletions(log) - Deletions(was) && Mine(log) >= Mine(was)
  {
  }

  lemma StaysWithin<D>(was: seq<Event<D>>, before: seq<Event<D>>, slot: Slot<D>, log: seq<Event<D>>, end: Slot<D>)
    requires Within(was, before, slot) && Mine(log) >= Mine(before)
    requires Mine(log) + Absent(end) + Deletions(before) <= Mine(before) + Absent(slot) + Deletions(log)
    ensures Within(was, log, end)
  {
  }

  /** One attempt at a creation, after whatever the other clients did. */
  method OneCreation<D(!new)>(c: Container<D>, body: D, ghost was: seq<Event<D>>)
    returns (reply: Reply<D>, fault: Fault, ghost round: Round<D>)
    requires c.slot.Valid() && Within(was, c.log, c.slot)
    modifies c
    ensures c.slot.Valid() && old(c.log) <= c.log && old(c.slot).issued <= c.slot.issued
    ensures round.fault == fault
    ensures c.State() == Tried(Others(old(c.State()), round.others), Create(body), fault)
    ensures reply == ReplyTo(Others(old(c.State()), round.others).slot, Create(body), fault)
    ensures reply.Raised? <==> !fault.Clean?
    ensures !reply.Missing? && !reply.PreconditionFailed?
    ensures Mine(c.log) >= Mine(old(c.log))
    ensures Within(was, c.log, c.slot)
    ensures Mine(c.log) > Mine(old(c.log)) ==> reply.Acked? || fault.Ambiguous?
    ensures reply.Acked? ==>
              && Mine(c.log) > Mine(old(c.log)) && reply.version.body == body && |old(c.log)| < |c.log|
              && c.log[|c.log| - 1] == Wrote(true, None, reply.version)
  {
    ghost var moves := c.OthersRun();
    fault := AnyFault();
    round := Round(moves, fault);
    ghost var before := c.log;
    reply := c.AttemptCreate(body, fault);
    if |before| < |c.log| {
      CountAppended(before, c.log[|before|]);
    }
    StaysWithin(was, old(c.log), old(c.slot), c.log, c.slot);
  }

  /**
   `replace_with_etag` under the retry decorator. It writes at most once, whatever was ambiguous
   and whoever else writes or deletes in between; a reply of success means exactly one write, over
   the version the caller named; and without an ambiguous attempt any other reply means none. To
   everyone else it is one step, at `moment`.
   */
  method ReplaceWithEtag<D(!new)>(c: Container<D>, p: Policy, body: D, etag: nat)
    returns (report: Report<D>, ghost rounds: seq<Round<D>>, ghost moment: Moment<D>)
    requires c.slot.Valid() && p.Valid() && etag < c.slot.issued
    modifies c
    ensures c.slot.Valid() && old(c.log) <= c.log && old(c.slot).issued <= c.slot.issued
    ensures FaultsOf(rounds) == report.faults && Looped(old(c.State()), Replace(body, etag), rounds, report.reply)
    ensures c.State() == Played(old(c.State()), Replace(body, etag), rounds)
    ensures IsOneStep(old(c.State()), c.State(), Replace(body, etag), report.reply, moment)
    ensures KeptPolicy(p, report) && !report.reply.AlreadyExists?
    ensures Mine(c.log) <= Mine(old(c.log)) + 1
    ensures report.reply.Acked? ==>
              && Mine(c.log) == Mine(old(c.log)) + 1
              && report.reply.version.body == body && |old(c.log)| < |c.log|
              && c.log[|c.log| - 1] == Wrote(true, Some(etag), report.reply.version)
    ensures Mine(c.log) > Mine(old(c.log)) && !report.reply.Acked? ==> SomeAmbiguous(report.faults)
  {
    var faults: seq<Fault> := [];
    var slept := 0.0;
    rounds, moment := [], Moment([], Unsent, []);
    ghost var req := Request.Replace(body, etag);
    ghost var start := c.State();
    assert Sound(start.slot, req);
    hide *;
    NotFailingYet(p);
    NoRounds(start, req);
    while true
      invariant c.State() == Played(start, req, rounds) && FaultsOf(rounds) == faults
      invariant c.slot.Valid() && old(c.log) <= c.log && old(c.slot).issued <= c.slot.issued
      invariant Failing(p, faults, slept)
      invariant Mine(old(c.log)) <= Mine(c.log) <= Mine(old(c.log)) + 1
      invariant Mine(c.log) > Mine(old(c.log)) ==> !c.slot.Matches(etag) && SomeAmbiguous(faults)
      decreases p.maxAttempts - |faults|
    {
      var reply, fault;
      ghost var round;
      reply, fault, round := OneReplacement(c, body, etag);
      FaultsAppended(rounds, round);
      PlayedAppended(start, req, rounds, round);
      AmbiguousAppended(faults, fault);
      if !reply.Raised? || !fault.Retryable() || |faults| + 1 >= p.maxAttempts {
        PolicyKept(p, faults, fault, reply, slept);
        moment := Concluded(start, req, rounds, faults, round, p, slept, reply);
        rounds := rounds + [round];
        return Report(reply, faults + [fault], slept), rounds, moment;
      }
      var delay := DelayAfter(p, |faults| + 1, fault.hint);
      HintIs(fault);
      FailsAgain(p, faults, fault, slept, delay);
      slept, faults, rounds := slept + delay, faults + [fault], rounds + [round];
    }
  }

  /**
   `create` under the retry decorator. As long as nobody deletes the document meanwhile it writes
   at most once, and to everyone else it is one step. A deletion between an ambiguous success and the
   next attempt makes room for a second write, so the bound counts the deletions: see `AllowanceIsExact`.
   */
  method CreateDocument<D(!new)>(c: Container<D>, p: Policy, body: D)
    returns (report: Report<D>, ghost rounds: seq<Round<D>>, ghost moment: Moment<D>)
    requires c.slot.Valid() && p.Valid()
    modifies c
    ensures c.slot.Valid() && old(c.log) <= c.log && old(c.slot).issued <= c.slot.issued
    ensures FaultsOf(rounds) == report.faults && Looped(old(c.State()), Create(body), rounds, report.reply)
    ensures c.State() == Played(old(c.State()), Create(body), rounds)
    ensures NobodyRemoves(rounds) ==> IsOneStep(old(c.State()), c.State(), Create(body), report.reply, moment)
    ensures KeptPolicy(p, report) && !report.reply.Missing? && !report.reply.PreconditionFailed?
    ensures Mine(c.log) - Mine(old(c.log)) <= 1 + Deletions(c.log) - Deletions(old(c.log))
    ensures report.reply.Acked? ==>
              && Mine(c.log) > Mine(old(c.log))
              && report.reply.version.body == body && |old(c.log)| < |c.log|
              && c.log[|c.log| - 1] == Wrote(true, None, report.reply.version)
    ensures Mine(c.log) > Mine(old(c.log)) && !report.reply.Acked? ==> SomeAmbiguous(report.faults)
  {
    var faults: seq<Fault> := [];
    var slept := 0.0;
    rounds, moment := [], Moment([], Unsent, []);
    ghost var req := Request.Create(body);
    ghost var start := c.State();
    assert Sound(start.slot, req) && Within(c.log, c.log, c.slot);
    hide *;
    NotFailingYet(p);
    NoRounds(start, req);
    while true
      invariant c.State() == Played(start, req, rounds) && FaultsOf(rounds) == faults
      invariant c.slot.Valid() && old(c.log) <= c.log && old(c.slot).issued <= c.slot.issued
      invariant Failing(p, faults, slept)
      invariant Within(old(c.log), c.log, c.slot)
      invariant Mine(c.log) > Mine(old(c.log)) ==> SomeAmbiguous(faults)
      decreases p.maxAttempts - |faults|
    {
      var reply, fault;
      ghost var round;
      WithinMeans(old(c.log), c.log, c.slot);
      reply, fault, round := OneCreation(c, body, old(c.log));
      FaultsAppended(rounds, round);
      PlayedAppended(start, req, rounds, round);
      AmbiguousAppended(faults, fault);
      if !reply.Raised? || !fault.Retryable() || |faults| + 1 >= p.maxAttempts {
        PolicyKept(p, faults, fault, reply, slept);
        moment := Concluded(start, req, rounds, faults, round, p, slept, reply);
        WithinMeans(old(c.log), c.log, c.slot);
        rounds := rounds + [round];
        return Report(reply, faults + [fault], slept), rounds, moment;
      }
      var delay := DelayAfter(p, |faults| + 1, fault.hint);
      HintIs(fault);
      FailsAgain(p, faults, fault, slept, delay);
      slept, faults, rounds := slept + delay, faults + [fault], rounds + [round];
    }
  }
}

/**
 The message list a chat provider is given (agent/agent_loop.py), and what the provider asks of it:
 every call an assistant turn makes is answered, once and in order, before anything else is said.
 */
module Conversation {
  import opened Outcomes
  import opened Digits

  datatype ToolCall = ToolCall(id: string, name: string)

  /** Of what a user says only this is modelled: which of the destructive tools it asks for. */
  datatype Message =
    | System
    | User(asks: set<string>)
    | Assistant(calls: seq<ToolCall>)
    | Answer(callId: string)

  function Ids(calls: seq<ToolCall>): (ids: seq<string>)
    ensures |ids| == |calls| && forall j | 0 <= j < |calls| :: ids[j] == calls[j].id
  {
    seq(|calls|, j requires 0 <= j < |calls| => calls[j].id)
  }

  ghost predicate Distinct(calls: seq<ToolCall>) {
    forall j, k | 0 <= j < k < |calls| :: calls[j].id != calls[k].id
  }

  /** What the loop needs of a provider's reply: every call has an id of its own. */
  ghost predicate Named(calls: seq<ToolCall>) {
    Distinct(calls) && forall j | 0 <= j < |calls| :: calls[j].id != ""
  }

  /** Reading one more message, with the calls in `open` still to be answered; None is a malformed list. */
  ghost function Heard(open: Option<seq<string>>, m: Message): Option<seq<string>> {
    match open
    case None => None
    case Some(ids) =>
      if m.Answer? then if ids != [] && ids[0] == m.callId then Some(ids[1..]) else None
      else if ids != [] then None
      else if m.Assistant? then if Distinct(m.calls) then Some(Ids(m.calls)) else None
      else Some([])
  }

  /** The calls of the last turn that have no answer yet. */
  ghost function Outstanding(ms: seq<Message>): Option<seq<string>> {
    if ms == [] then Some([]) else Heard(Outstanding(ms[..|ms| - 1]), ms[|ms| - 1])
  }

  ghost predicate WellFormed(ms: seq<Message>) {
    Outstanding(ms) == Some([])
  }

  lemma OutstandingAppended(ms: seq<Message>, m: Message)
    ensures Outstanding(ms + [m]) == Heard(Outstanding(ms), m)
  {
    assert (ms + [m])[..|ms|] == ms;
  }

  // ---------------------------------------------------------------------- one turn of the loop

  /** The id an answer carries: the call's own, or one made from the iteration when the call has none. */
  function AnswerId(call: ToolCall, iteration: nat): string {
    if call.id != "" then call.id else "call_" + Decimal(iteration)
  }

  function Answers(calls: seq<ToolCall>, iteration: nat): (r: seq<Message>)
    ensures |r| == |calls| && forall j | 0 <= j < |calls| :: r[j] == Answer(AnswerId(calls[j], iteration))
  {
    seq(|calls|, j requires 0 <= j < |calls| => Answer(AnswerId(calls[j], iteration)))
  }

  function Turn(base: seq<Message>, calls: seq<ToolCall>, answered: nat, iteration: nat): seq<Message>
    requires answered <= |calls|
  {
    base + [Assistant(calls)] + Answers(calls[..answered], iteration)
  }

  /** The destructive tools the last user message asks for. */
  function Requested(ms: seq<Message>): set<string> {
    if ms == [] then {} else if ms[|ms| - 1].User? then ms[|ms| - 1].asks else Requested(ms[..|ms| - 1])
  }

  /** The last message of the user asks for this. */
  ghost predicate AskedFor(ms: seq<Message>, tool: string) {
    exists i: nat | i < |ms| :: LastOfUser(ms, i) && tool in ms[i].asks
  }

  ghost predicate LastOfUser(ms: seq<Message>, i: nat)
    requires i < |ms|
  {
    ms[i].User? && forall j | i < j < |ms| :: !ms[j].User?
  }

  lemma {:induction false} RequestedIff(ms: seq<Message>, tool: string)
    ensures tool in Requested(ms) <==> AskedFor(ms, tool)
  {
    if ms != [] {
      var front, last := ms[..|ms| - 1], |ms| - 1;
      RequestedIff(front, tool);
      if ms[last].User? {
        assert LastOfUser(ms, last);
      } else {
        if i: nat :| i < |front| && LastOfUser(front, i) && tool in front[i].asks {
          assert LastOfUser(ms, i) && ms[i] == front[i];
        }
        if i: nat :| i < |ms| && LastOfUser(ms, i) && tool in ms[i].asks {
          assert LastOfUser(front, i) && ms[i] == front[i];
        }
      }
    }
  }

  lemma RequestedAppended(ms: seq<Message>, m: Message)
    ensures Requested(ms + [m]) == if m.User? then m.asks else Requested(ms)
  {
    assert (ms + [m])[..|ms|] == ms;
  }

  /** Nothing in a turn changes what the user asked for. */
  lemma {:induction false} RequestedInTurn(base: seq<Message>, calls: seq<ToolCall>, answered: nat, iteration: nat)
    requires answered <= |calls|
    ensures Requested(Turn(base, calls, answered, iteration)) == Requested(base)
  {
    if answered == 0 {
      TurnStarts(base, calls, iteration);
      RequestedAppended(base, Assistant(calls));
    } else {
      RequestedInTurn(base, calls, answered - 1, iteration);
      TurnAnswered(base, calls, answered - 1, iteration);
      RequestedAppended(Turn(base, calls, answered - 1, iteration), Answer(AnswerId(calls[answered - 1], iteration)));
    }
  }

  lemma TurnStarts(base: seq<Message>, calls: seq<ToolCall>, iteration: nat)
    ensures Turn(base, calls, 0, iteration) == base + [Assistant(calls)]
  {
  }

  ghost predicate NamedUpTo(calls: seq<ToolCall>, k: nat)
    requires k <= |calls|
  {
    forall j | 0 <= j < k :: calls[j].id != ""
  }

  lemma TurnAnswered(base: seq<Message>, calls: seq<ToolCall>, answered: nat, iteration: nat)
    requires answered < |calls|
    ensures Turn(base, calls, answered + 1, iteration)
            == Turn(base, calls, answered, iteration) + [Answer(AnswerId(calls[answered], iteration))]
  {
    var k := answered;
    assert Answers(calls[..k + 1], iteration)
        == Answers(calls[..k], iteration) + [Answer(AnswerId(calls[k], iteration))];
  }

  /**
   After the first calls of a turn have been answered, exactly the other calls are open, if and only if
   the ids of the turn are distinct and those answered so far are not empty.
   */
  lemma {:induction false} TurnLeavesOpen(base: seq<Message>, calls: seq<ToolCall>, answered: nat, iteration: nat)
    requires WellFormed(base) && answered <= |calls|
    ensures Outstanding(Turn(base, calls, answered, iteration))
            == if Distinct(calls) && NamedUpTo(calls, answered) then Some(Ids(calls)[answered..]) else None
  {
    hide Outstanding, Turn, Distinct;
    if answered == 0 {
      OutstandingAppended(base, Assistant(calls));
      assert Turn(base, calls, 0, iteration) == base + [Assistant(calls)] by { TurnStarts(base, calls, iteration); }
    } else {
      var k := answered - 1;
      TurnLeavesOpen(base, calls, k, iteration);
      TurnAnswered(base, calls, k, iteration);
      OutstandingAppended(Turn(base, calls, k, iteration), Answer(AnswerId(calls[k], iteration)));
      var ids := Ids(calls);
      assert ids[k..][0] == calls[k].id && ids[k..][1..] == ids[answered..];
      hide Ids;
      assert NamedUpTo(calls, answered) <==> NamedUpTo(calls, k) && AnswerId(calls[k], iteration) == calls[k].id;
    }
  }

  /** A whole turn is well formed exactly when the provider gave every call an id of its own. */
  lemma TurnWellFormedIffNamed(base: seq<Message>, calls: seq<ToolCall>, iteration: nat)
    requires WellFormed(base)
    ensures WellFormed(Turn(base, calls, |calls|, iteration)) <==> Named(calls)
  {
    TurnLeavesOpen(base, calls, |calls|, iteration);
    assert Ids(calls)[|calls|..] == [];
  }

  /** Cutting the turn off after call `k` and answering the calls before it leaves just that call open. */
  lemma CutTurnLeavesOne(base: seq<Message>, calls: seq<ToolCall>, k: nat, iteration: nat)
    requires WellFormed(base) && k < |calls| && Named(calls)
    ensures Outstanding(Turn(base, calls[..k + 1], k, iteration)) == Some([AnswerId(calls[k], iteration)])
    ensures WellFormed(Turn(base, calls[..k + 1], k, iteration) + [Answer(AnswerId(calls[k], iteration))])
  {
    var cut := calls[..k + 1];
    TurnLeavesOpen(base, cut, k, iteration);
    var open := [calls[k].id];
    assert Ids(cut)[k..] == open && open[1..] == [];
    OutstandingAppended(Turn(base, cut, k, iteration), Answer(calls[k].id));
  }

  // ---------------------------------------------------------------------- the same, said of positions

  /** The turn at `i` is followed by the answers to its calls. */
  ghost predicate Closed(ms: seq<Message>, i: nat)
    requires i < |ms|
  {
    ms[i].Assistant? ==>
      && Distinct(ms[i].calls) && i + |ms[i].calls| < |ms|
      && forall j | 0 <= j < |ms[i].calls| :: ms[i + 1 + j] == Answer(ms[i].calls[j].id)
  }

  ghost predicate Calls(ms: seq<Message>, i: nat, k: nat) {
    i < k < |ms| && ms[i].Assistant? && k <= i + |ms[i].calls|
  }

  /** The answer at `k` belongs to a turn. */
  ghost predicate Asked(ms: seq<Message>, k: nat)
    requires k < |ms|
  {
    ms[k].Answer? ==> exists i: nat :: Calls(ms, i, k)
  }

  ghost predicate Balanced(ms: seq<Message>) {
    && (forall i: nat | i < |ms| :: Closed(ms, i))
    && (forall k: nat | k < |ms| :: Asked(ms, k))
  }

  function AnswersTo(ids: seq<string>): (r: seq<Message>)
    ensures |r| == |ids| && forall j | 0 <= j < |ids| :: r[j] == Answer(ids[j])
  {
    seq(|ids|, j requires 0 <= j < |ids| => Answer(ids[j]))
  }

  /** What a message needs after it: the answers to its calls. */
  function AnswersAfter(m: Message): seq<Message> {
    if m.Assistant? then AnswersTo(Ids(m.calls)) else []
  }

  lemma StaysClosed(ms: seq<Message>, more: seq<Message>, i: nat)
    requires i < |ms| && Closed(ms, i)
    ensures Closed(ms + more, i)
  {
  }

  lemma StaysAsked(ms: seq<Message>, more: seq<Message>, k: nat)
    requires k < |ms| && Asked(ms, k)
    ensures Asked(ms + more, k)
  {
    if ms[k].Answer? {
      var i: nat :| Calls(ms, i, k);
      assert Calls(ms + more, i, k);
    }
  }

  /** `ms`, then a message with the answers it needs. */
  function WithTurn(ms: seq<Message>, m: Message): seq<Message> {
    ms + ([m] + AnswersAfter(m))
  }

  lemma TurnShape(ms: seq<Message>, m: Message, p: nat)
    requires |ms| <= p < |WithTurn(ms, m)|
    ensures p == |ms| ==> WithTurn(ms, m)[p] == m
    ensures p > |ms| ==>
              m.Assistant? && p <= |ms| + |m.calls| && WithTurn(ms, m)[p] == Answer(m.calls[p - |ms| - 1].id)
    ensures |WithTurn(ms, m)| == |ms| + 1 + if m.Assistant? then |m.calls| else 0
  {
  }

  lemma TurnCloses(ms: seq<Message>, m: Message, p: nat)
    requires !m.Answer? && (m.Assistant? ==> Distinct(m.calls)) && |ms| <= p < |WithTurn(ms, m)|
    ensures Closed(WithTurn(ms, m), p) && Asked(WithTurn(ms, m), p)
  {
    TurnShape(ms, m, p);
    TurnShape(ms, m, |ms|);
    hide WithTurn, Distinct;
    var n := WithTurn(ms, m);
    if p == |ms| && m.Assistant? {
      forall j | 0 <= j < |m.calls|
        ensures n[p + 1 + j] == Answer(m.calls[j].id)
      {
        TurnShape(ms, m, p + 1 + j);
      }
    } else if p > |ms| {
      assert Calls(n, |ms|, p);
    }
  }

  lemma BalancedExtended(ms: seq<Message>, m: Message)
    requires Balanced(ms) && !m.Answer? && (m.Assistant? ==> Distinct(m.calls))
    ensures Balanced(WithTurn(ms, m))
  {
    hide AnswersAfter, Distinct, Closed, Asked;
    forall i: nat | i < |WithTurn(ms, m)|
      ensures Closed(WithTurn(ms, m), i) && Asked(WithTurn(ms, m), i)
    {
      if i < |ms| {
        assert Closed(ms, i) && Asked(ms, i);
        StaysClosed(ms, [m] + AnswersAfter(m), i);
        StaysAsked(ms, [m] + AnswersAfter(m), i);
      } else {
        TurnCloses(ms, m, i);
      }
    }
  }

  lemma AnswerMoved(front: seq<Message>, id: string, ids: seq<string>)
    ensures front + [Answer(id)] + AnswersTo(ids) == front + AnswersTo([id] + ids)
  {
  }

  lemma HeardFrom(open: Option<seq<string>>, m: Message, ids: seq<string>)
    requires Heard(open, m) == Some(ids)
    ensures m.Answer? ==> open == Some([m.callId] + ids)
    ensures !m.Answer? ==> open == Some([]) && (m.Assistant? ==> Distinct(m.calls)) && AnswersTo(ids) == AnswersAfter(m)
  {
    if m.Answer? {
      assert open.value == [m.callId] + ids;
    }
  }

  lemma Nothing(ms: seq<Message>)
    ensures ms + AnswersTo([]) == ms
  {
  }

  lemma Grouped(ms: seq<Message>, m: Message, tail: seq<Message>)
    ensures ms + ([m] + tail) == ms + [m] + tail
  {
  }

  lemma {:induction false} OpenCallsBalance(ms: seq<Message>, ids: seq<string>)
    requires Outstanding(ms) == Some(ids)
    ensures Balanced(ms + AnswersTo(ids))
  {
    if ms == [] {
      EmptyIsBalanced();
      Nothing(ms);
    } else {
      var front, m := ms[..|ms| - 1], ms[|ms| - 1];
      assert ms == front + [m];
      OutstandingAppended(front, m);
      HeardFrom(Outstanding(front), m, ids);
      assert WithTurn(front, m) == front + ([m] + AnswersAfter(m));
      hide *;
      if m.Answer? {
        OpenCallsBalance(front, [m.callId] + ids);
        AnswerMoved(front, m.callId, ids);
      } else {
        OpenCallsBalance(front, []);
        Nothing(front);
        BalancedExtended(front, m);
        Grouped(front, m, AnswersTo(ids));
      }
    }
  }

  lemma EmptyIsBalanced()
    ensures Balanced([])
  {
  }

  lemma TurnBeforeEnds(ms: seq<Message>, k: nat, i: nat)
    requires k < i < |ms| && Closed(ms, k) && !ms[i].Answer?
    ensures Closed(ms[..i], k)
  {
    if ms[k].Assistant? {
      var calls := ms[k].calls;
      forall p | k < p <= k + |calls|
        ensures ms[p].Answer?
      {
        assert ms[k + 1 + (p - k - 1)] == Answer(calls[p - k - 1].id);
      }
    }
  }

  lemma BalancedBefore(ms: seq<Message>, i: nat)
    requires Balanced(ms) && i < |ms| && !ms[i].Answer?
    ensures Balanced(ms[..i])
  {
    forall k: nat | k < i
      ensures Closed(ms[..i], k)
    {
      assert Closed(ms, k);
      TurnBeforeEnds(ms, k, i);
    }
    forall k: nat | k < i
      ensures Asked(ms[..i], k)
    {
      assert Asked(ms, k);
      if ms[k].Answer? {
        var t: nat :| Calls(ms, t, k);
        assert Calls(ms[..i], t, k);
      }
    }
  }

  lemma OneMoreAnswer(base: seq<Message>, ids: seq<string>, k: nat)
    requires 0 < k <= |ids|
    ensures base + AnswersTo(ids[..k]) == base + AnswersTo(ids[..k - 1]) + [Answer(ids[k - 1])]
    ensures ids[k - 1..][0] == ids[k - 1] && ids[k - 1..][1..] == ids[k..]
  {
    assert AnswersTo(ids[..k]) == AnswersTo(ids[..k - 1]) + [Answer(ids[k - 1])];
  }

  lemma {:induction false} AnswersClose(base: seq<Message>, ids: seq<string>, k: nat)
    requires Outstanding(base) == Some(ids) && k <= |ids|
    ensures Outstanding(base + AnswersTo(ids[..k])) == Some(ids[k..])
  {
    if k == 0 {
      assert base + AnswersTo(ids[..0]) == base;
    } else {
      hide Outstanding;
      AnswersClose(base, ids, k - 1);
      OneMoreAnswer(base, ids, k);
      OutstandingAppended(base + AnswersTo(ids[..k - 1]), Answer(ids[k - 1]));
      hide AnswersTo;
    }
  }

  /** A balanced list ends with a whole turn, or with one message that is no answer. */
  lemma LastTurn(ms: seq<Message>) returns (i: nat)
    requires Balanced(ms) && ms != []
    ensures i < |ms| && Balanced(ms[..i]) && !ms[i].Answer? && (ms[i].Assistant? ==> Distinct(ms[i].calls))
    ensures ms == ms[..i] + [ms[i]] + if ms[i].Assistant? then AnswersTo(Ids(ms[i].calls)) else []
  {
    var last := |ms| - 1;
    assert Asked(ms, last);
    i := last;
    if ms[last].Answer? {
      i :| Calls(ms, i, last);
    }
    assert Closed(ms, i);
    BalancedBefore(ms, i);
  }

  lemma {:induction false} BalancedIsRead(ms: seq<Message>)
    requires Balanced(ms)
    ensures WellFormed(ms)
    decreases |ms|
  {
    hide Balanced, Distinct;
    if ms != [] {
      var i := LastTurn(ms);
      BalancedIsRead(ms[..i]);
      OutstandingAppended(ms[..i], ms[i]);
      if ms[i].Assistant? {
        var ids := Ids(ms[i].calls);
        AnswersClose(ms[..i] + [ms[i]], ids, |ids|);
        assert ids[..|ids|] == ids && ids[|ids|..] == [];
      } else {
        assert ms == ms[..i] + [ms[i]];
      }
    }
  }

  /**
   The running count says the same as the positions: a list is well formed exactly when every turn with
   calls is followed at once by one answer to each of its calls, and no answer stands anywhere else.
   */
  lemma WellFormedIffBalanced(ms: seq<Message>)
    ensures WellFormed(ms) <==> Balanced(ms)
  {
    if WellFormed(ms) {
      OpenCallsBalance(ms, []);
      assert ms + AnswersTo([]) == ms;
    }
    if Balanced(ms) {
      BalancedIsRead(ms);
    }
  }
}

/**
 What a request's final answer announces (`final_result` of agent/recovery.py): the recovery record as
 the tool loop leaves it. A refused proposal overwrites whatever the record said before.
 */
module AgentAnswers {
  import opened Outcomes
  import opened Approvals
  import opened Conversation
  import opened AgentProtocol

  /** The request after several replies none of which was parked. */
  function Conversed(config: Config, task: Task, replies: seq<seq<ToolCall>>): Task {
    if replies == [] then task
    else
      var before := Conversed(config, task, replies[..|replies| - 1]);
      if before.Looping? then AfterReply(config, before, replies[|replies| - 1]) else before
  }

  lemma ConversedAppended(config: Config, task: Task, replies: seq<seq<ToolCall>>, calls: seq<ToolCall>)
    requires Conversed(config, task, replies).Looping?
    ensures Conversed(config, task, replies + [calls])
            == AfterReply(config, Conversed(config, task, replies), calls)
  {
    assert (replies + [calls])[..|replies|] == replies;
  }

  /** Some call of some reply is a mutation that is refused. */
  ghost predicate SomeRefused(config: Config, task: Task, replies: seq<seq<ToolCall>>)
    requires task.Looping?
  {
    exists i :: 0 <= i < |replies|
      && AnyRefused(config, task.caller.admin, task.attempts, Requested(task.messages), replies[i])
  }

  lemma SomeRefusedAppended(config: Config, task: Task, replies: seq<seq<ToolCall>>, calls: seq<ToolCall>)
    requires task.Looping?
    ensures SomeRefused(config, task, replies + [calls])
            <==> SomeRefused(config, task, replies)
                 || AnyRefused(config, task.caller.admin, task.attempts, Requested(task.messages), calls)
  {
    hide AnyRefused;
    var all := replies + [calls];
    if SomeRefused(config, task, replies) {
      var i :| 0 <= i < |replies|
        && AnyRefused(config, task.caller.admin, task.attempts, Requested(task.messages), replies[i]);
      assert all[i] == replies[i];
    }
    assert all[|replies|] == calls;
  }

  /** Some call of some reply names a mutation. */
  ghost predicate MutationNamed(config: Config, replies: seq<seq<ToolCall>>) {
    exists i: nat | i < |replies| :: AnyMutation(config, replies[i])
  }

  lemma MutationNamedAppended(config: Config, replies: seq<seq<ToolCall>>, calls: seq<ToolCall>)
    ensures MutationNamed(config, replies + [calls]) <==> MutationNamed(config, replies) || AnyMutation(config, calls)
  {
    hide AnyMutation;
    var all := replies + [calls];
    if i: nat :| i < |replies| && AnyMutation(config, replies[i]) {
      assert all[i] == replies[i];
    }
    assert all[|replies|] == calls;
  }

  /** When nothing of a reply is parked, each mutation it names was refused. */
  lemma RefusedIsMutation(config: Config, task: Task, calls: seq<ToolCall>)
    requires task.Looping? && AfterReply(config, task, calls).Looping?
    ensures AnyRefused(config, task.caller.admin, task.attempts, Requested(task.messages), calls)
            <==> AnyMutation(config, calls)
  {
    ReplyLeadsTo(config, task, calls);
    forall j | 0 <= j < |calls|
      ensures VerdictOn(config, task.caller.admin, task.attempts, Requested(task.messages), calls[j]).Refused?
              <==> Mutation(config, calls[j].name)
    {
      VerdictIs(config, task.caller.admin, task.attempts, task.messages, calls[j]);
    }
    hide VerdictOn, Mutation, AfterReply, Vetted;
  }

  /** One more reply that is not parked: the same request, with the turn and perhaps a refusal added. */
  lemma StillLooping(config: Config, task: Task, calls: seq<ToolCall>)
    requires task.Looping? && AfterReply(config, task, calls).Looping?
    ensures var n := AfterReply(config, task, calls);
            && n.chain == task.chain && n.caller == task.caller && n.attempts == task.attempts
            && n.round == task.round + 1 && n.messages == Turn(task.messages, calls, |calls|, task.round)
            && Requested(n.messages) == Requested(task.messages)
            && n.last == if AnyRefused(config, task.caller.admin, task.attempts, Requested(task.messages), calls)
                         then Some(ActionNotExecuted) else task.last
  {
    var k := FirstProposal(config, task.caller.admin, task.attempts, Requested(task.messages), calls);
    assert k == |calls| && calls[..k] == calls;
    RequestedInTurn(task.messages, calls, |calls|, task.round);
  }

  /**
   What the record says when the provider has no more calls: that the action was not executed if some
   proposal was refused, and otherwise what it said when the loop began. Everything else is as it began.
   */
  lemma {:induction false} RecordAfterReplies(config: Config, task: Task, replies: seq<seq<ToolCall>>)
    requires task.Looping? && Conversed(config, task, replies).Looping?
    ensures var n := Conversed(config, task, replies);
            && n.chain == task.chain && n.caller == task.caller && n.attempts == task.attempts
            && n.round == task.round + |replies| && Requested(n.messages) == Requested(task.messages)
            && n.last == (if SomeRefused(config, task, replies) then Some(ActionNotExecuted) else task.last)
            && (SomeRefused(config, task, replies) <==> MutationNamed(config, replies))
  {
    if replies != [] {
      var front, calls := replies[..|replies| - 1], replies[|replies| - 1];
      assert front + [calls] == replies;
      RecordAfterReplies(config, task, front);
      StillLooping(config, Conversed(config, task, front), calls);
      RefusedIsMutation(config, Conversed(config, task, front), calls);
      hide AnyRefused, AfterReply, SomeRefused, MutationNamed, AnyMutation;
      SomeRefusedAppended(config, task, front, calls);
      MutationNamedAppended(config, front, calls);
    }
  }

  /** From a well-formed list, replies that name their calls lead to a well-formed list, or to one open call. */
  lemma {:induction false} ConversedTalks(config: Config, task: Task, replies: seq<seq<ToolCall>>)
    requires task.Looping? && WellFormed(task.messages)
    requires forall i | 0 <= i < |replies| :: Named(replies[i])
    requires Conversed(config, task, replies).Looping? || Conversed(config, task, replies).Proposing?
    ensures TaskTalks(Conversed(config, task, replies))
  {
    if replies != [] {
      var front := replies[..|replies| - 1];
      ConversedLoops(config, task, front);
      ConversedTalks(config, task, front);
      if Conversed(config, task, front).Looping? {
        ReplyTalks(config, Conversed(config, task, front), replies[|replies| - 1]);
      }
    }
  }

  lemma {:induction false} ConversedLoops(config: Config, task: Task, replies: seq<seq<ToolCall>>)
    requires task.Looping?
    ensures Conversed(config, task, replies).Looping? || Conversed(config, task, replies).Proposing?
  {
    if replies != [] {
      ConversedLoops(config, task, replies[..|replies| - 1]);
    }
  }

  // ---------------------------------------------------------------------- an executed action, denied

  /** An administrator, a tool that restarts something, and the destructive tool nobody asked for. */
  const ADMIN := Caller("operator", true, "session")
  const TOOLS := Config(DEFAULT_TTL, map["restart_pod" := Tool(false, true), "purge_dlq" := Tool(false, true)])
  const RESTART := ToolCall("a", "restart_pod")
  const PURGE := ToolCall("b", "purge_dlq")

  lemma Extend(s0: State, s: State, sofar: seq<Step>, step: Step) returns (n: State, steps: seq<Step>)
    requires s == Run(TOOLS, s0, sofar)
    ensures steps == sofar + [step] && n == Next(TOOLS, s, step) == Run(TOOLS, s0, steps)
  {
    hide Next;
    steps := sofar + [step];
    RunAppended(TOOLS, s0, sofar, step);
    n := Next(TOOLS, s, step);
  }

  /** A chat and one proposal. */
  lemma ProposedOnce() returns (s: State, steps: seq<Step>)
    ensures s == Run(TOOLS, Empty(0), steps) && s.store.data == map[] && s.store.used == map[]
    ensures s == Empty(0).(store := s.store, issued := 1, prompts := s.prompts, tasks := s.tasks)
    ensures s.tasks
            == map[0 := Proposing(0, ADMIN, 0, [System, User({}), Assistant([RESTART])], None, "a", "restart_pod")]
  {
    hide Run;
    var s0 := Empty(0);
    assert Run(TOOLS, s0, []) == s0 by { RunNothing(s0); }
    var s1, t1 := Extend(s0, s0, [], Step.Chat(ADMIN, [], {}));
    assert s1.tasks[0].messages == [System, User({})];
    OneProposal(s1.tasks[0]);
    s, steps := Extend(s0, s1, t1, Ask(0, Some([RESTART])));
  }

  /** A chat, one proposal, its approval by the same user, and the execution. */
  lemma ProposedAndExecuted() returns (s: State, steps: seq<Step>)
    ensures s == Run(TOOLS, Empty(0), steps)
    ensures |s.executions| == 1 && s.executions[0].chain == 0 && s.finals == [] && 1 in s.tasks
    ensures s.tasks[1].Acting? && s.tasks[1].caller == ADMIN && s.tasks[1].record.chain == 0
            && s.tasks[1].record.attempts == 0
            && s.tasks[1].record.messages == [System, User({}), Assistant([RESTART])] && s.tasks[1].record.callId == "a"
  {
    hide Run;
    var s0 := Empty(0);
    var s2, t2 := ProposedOnce();
    var s3, t3 := Extend(s0, s2, t2, Park(0, 0));
    var s4, t4 := Extend(s0, s3, t3, Step.Take(ADMIN, ("session", "a")));
    s, steps := Extend(s0, s4, t4, Execute(1));
  }

  lemma RunNothing(s: State)
    ensures Run(TOOLS, s, []) == s
  {
  }

  lemma OneProposal(task: Task)
    requires task == Looping(0, ADMIN, 0, [System, User({})], None, 0)
    ensures AfterReply(TOOLS, task, [RESTART])
            == Proposing(0, ADMIN, 0, [System, User({}), Assistant([RESTART])], None, "a", "restart_pod")
  {
    assert VerdictOn(TOOLS, true, 0, Requested(task.messages), RESTART) == Proposed;
    assert [RESTART][..1] == [RESTART] && [RESTART][..0] == [];
    assert Turn(task.messages, [RESTART], 0, 0) == [System, User({}), Assistant([RESTART])];
  }

  /** A run in which the action was executed, something raised before the call was through, and the answer denies it. */
  lemma DeniedBecauseSomethingRaised() returns (steps: seq<Step>)
    ensures var s := Run(TOOLS, Empty(0), steps);
            && |s.executions| == 1 && s.executions[0].chain == 0
            && s.finals == [Final(0, Some(ActionNotExecuted))]
  {
    hide Run;
    var s5, t5 := ProposedAndExecuted();
    var s6, t6 := Extend(Empty(0), s5, t5, Settle(1, None));
    var s7, t7 := Extend(Empty(0), s6, t6, Ask(1, Some([])));
    steps := t7;
  }

  /** Another in which it was even verified, and a later proposal that is refused makes the answer deny it. */
  lemma DeniedBecauseOfALaterRefusal() returns (steps: seq<Step>)
    ensures var s := Run(TOOLS, Empty(0), steps);
            && |s.executions| == 1 && s.executions[0].chain == 0
            && s.finals == [Final(0, Some(ActionNotExecuted))]
  {
    hide Run;
    var s5, t5 := ProposedAndExecuted();
    var s6, t6 := Extend(Empty(0), s5, t5, Settle(1, Some(VerifiedProcessing)));
    OneRefusal(s6.tasks[1]);
    var s7, t7 := Extend(Empty(0), s6, t6, Ask(1, Some([PURGE])));
    var s8, t8 := Extend(Empty(0), s7, t7, Ask(1, Some([])));
    steps := t8;
  }

  lemma OneRefusal(task: Task)
    requires task.Looping? && task.caller == ADMIN && task.attempts == 1 && task.round == 0
    requires task.messages == [System, User({}), Assistant([RESTART])] + [Answer("a")]
    ensures var n := AfterReply(TOOLS, task, [PURGE]);
            n.Looping? && n.last == Some(ActionNotExecuted) && n.chain == task.chain && n.round == 1
  {
    var front := [System, User({})];
    RequestedAppended([System, User({}), Assistant([RESTART])], Answer("a"));
    assert [System, User({}), Assistant([RESTART])] == front + [Assistant([RESTART])];
    RequestedAppended(front, Assistant([RESTART]));
    assert Requested(front) == {};
    assert VerdictOn(TOOLS, true, 1, Requested(task.messages), PURGE) == Refused;
    assert [PURGE][1..] == [] && [PURGE][..1] == [PURGE];
    assert FirstProposal(TOOLS, true, 1, Requested(task.messages), [PURGE]) == 1;
    assert AnyRefused(TOOLS, true, 1, Requested(task.messages), [PURGE]);
  }
}

/**
 `run_agent`, `resume_after_approval` (agent/agent_loop.py), `execute_verified` (agent/recovery.py) and
 the two endpoints that start them (agent/api.py), over the state all requests share.

 Replies of the provider, tool results and observations are arbitrary.
 */
module AgentLoop {
  import opened Outcomes
  import opened Approvals
  import opened Conversation
  import opened AgentProtocol
  import opened AgentAnswers

  const MAX_VERIFICATION_SAMPLES: nat := 2

  // ---------------------------------------------------------------------- the shared state

  predicate Touches(step: Step, task: nat) {
    (step.Ask? || step.Park? || step.Finish? || step.Execute? || step.Settle? || step.Decline?) && step.task == task
  }

  /** The prompts of one request, in order. */
  ghost function PromptsOf(prompts: seq<Prompt>, task: nat): seq<seq<Message>> {
    if prompts == [] then []
    else
      var before := PromptsOf(prompts[..|prompts| - 1], task);
      if prompts[|prompts| - 1].task == task then before + [prompts[|prompts| - 1].messages] else before
  }

  lemma PromptsAppended(prompts: seq<Prompt>, p: Prompt, task: nat)
    ensures PromptsOf(prompts + [p], task)
            == if p.task == task then PromptsOf(prompts, task) + [p.messages] else PromptsOf(prompts, task)
  {
    assert (prompts + [p])[..|prompts|] == prompts;
  }

  lemma OtherStepKeepsMine(config: Config, s: State, step: Step, task: nat)
    requires Inv(s) && task in s.tasks && !Touches(step, task)
    ensures var n := Next(config, s, step);
            && task in n.tasks && n.tasks[task] == s.tasks[task] && n.now >= s.now
            && PromptsOf(n.prompts, task) == PromptsOf(s.prompts, task)
  {
    hide Counted, OneCarrier, Licensed, Spent, PromptsOf, AfterReply, AfterPut, AfterPop, Pruned, Found;
    if step.Ask? && step.task in s.tasks && s.tasks[step.task].Looping? {
      PromptsAppended(s.prompts, Prompt(step.task, s.tasks[step.task].messages), task);
    }
  }

  method AnyStep() returns (step: Step) {
    step := *;
  }

  method AnyReply() returns (reply: Option<seq<ToolCall>>) {
    reply := *;
  }

  class SharedAgent {
    const config: Config
    var sys: State

    ghost predicate Valid()
      reads this
    {
      Inv(sys)
    }

    constructor (config: Config, now: int)
      ensures Valid() && this.config == config && sys == Empty(now)
    {
      this.config, sys := config, Empty(now);
      new;
      EmptyInv(now);
    }

    method Take(step: Step, ghost start: State, ghost sofar: seq<Step>) returns (ghost trace: seq<Step>)
      requires Valid() && sys == Run(config, start, sofar)
      modifies this
      ensures Valid() && sys == Next(config, old(sys), step) && sys == Run(config, start, trace)
    {
      hide Next, Inv, Run;
      NextKeepsInv(config, sys, step);
      RunAppended(config, start, sofar, step);
      trace := sofar + [step];
      sys := Next(config, sys, step);
    }

    /** Time passes and the other requests do anything. */
    method OthersRun(mine: Option<nat>, ghost start: State, ghost sofar: seq<Step>) returns (ghost trace: seq<Step>)
      requires Valid() && sys == Run(config, start, sofar)
      requires mine.Some? ==> mine.value in sys.tasks
      modifies this
      ensures Valid() && sys == Run(config, start, trace)
      ensures mine.Some? ==>
                && mine.value in sys.tasks && sys.tasks[mine.value] == old(sys).tasks[mine.value]
                && old(sys).now <= sys.now
                && PromptsOf(sys.prompts, mine.value) == PromptsOf(old(sys).prompts, mine.value)
    {
      hide Next, Inv, Run, PromptsOf;
      trace := sofar;
      var more: nat := *;
      while more > 0
        invariant Valid() && sys == Run(config, start, trace)
        invariant mine.Some? ==>
                    && mine.value in sys.tasks && sys.tasks[mine.value] == old(sys).tasks[mine.value]
                    && old(sys).now <= sys.now
                    && PromptsOf(sys.prompts, mine.value) == PromptsOf(old(sys).prompts, mine.value)
      {
        var step := AnyStep();
        if mine.None? || !Touches(step, mine.value) {
          if mine.Some? {
            OtherStepKeepsMine(config, sys, step, mine.value);
          }
          trace := Take(step, start, trace);
        }
        more := more - 1;
      }
    }
  }

  // ---------------------------------------------------------------------- one reply

  lemma FirstProposalIs(config: Config, admin: bool, attempts: nat, asked: set<string>, calls: seq<ToolCall>, k: nat)
    requires k <= |calls| && forall j | 0 <= j < k :: !VerdictOn(config, admin, attempts, asked, calls[j]).Proposed?
    requires k < |calls| ==> VerdictOn(config, admin, attempts, asked, calls[k]).Proposed?
    ensures FirstProposal(config, admin, attempts, asked, calls) == k
  {
    hide FirstProposal, VerdictOn;
  }

  lemma AnyRefusedAppended(config: Config, admin: bool, attempts: nat, asked: set<string>, calls: seq<ToolCall>, k: nat)
    requires k < |calls|
    ensures AnyRefused(config, admin, attempts, asked, calls[..k + 1])
            <==> AnyRefused(config, admin, attempts, asked, calls[..k])
                 || VerdictOn(config, admin, attempts, asked, calls[k]).Refused?
  {
    hide VerdictOn;
    var front, all := calls[..k], calls[..k + 1];
    if AnyRefused(config, admin, attempts, asked, front) {
      var j :| 0 <= j < |front| && VerdictOn(config, admin, attempts, asked, front[j]).Refused?;
      assert all[j] == front[j];
    }
    if AnyRefused(config, admin, attempts, asked, all) {
      var j :| 0 <= j < |all| && VerdictOn(config, admin, attempts, asked, all[j]).Refused?;
      assert j < k ==> front[j] == all[j];
    }
    assert all[k] == calls[k];
  }

  /**
   The walk over the calls of one reply. Diagnostic tools this role may use run, and `ran` lists them; the other
   unavailable or refused calls are answered on the spot; at the first vetted mutation the turn is cut off and
   the walk ends.
   */
  method WalkCalls(config: Config, admin: bool, attempts: nat, before: seq<Message>, calls: seq<ToolCall>,
                   iteration: nat, last0: Option<Outcome>)
    returns (messages: seq<Message>, last: Option<Outcome>, proposal: Option<nat>, ran: seq<nat>)
    ensures var k := FirstProposal(config, admin, attempts, Requested(before), calls);
            && proposal == (if k < |calls| then Some(k) else None)
            && messages == (if k < |calls| then Turn(before, calls[..k + 1], k, iteration)
                            else Turn(before, calls, |calls|, iteration))
            && last == if AnyRefused(config, admin, attempts, Requested(before), calls[..k])
                       then Some(ActionNotExecuted) else last0
    ensures var k := if proposal.Some? then proposal.value else |calls|;
            && k <= |calls| && (proposal.Some? ==> k < |calls|)
            && (k < |calls| ==> Vetted(config, admin, attempts, before, calls[k].name))
            && (forall j | 0 <= j < k :: !Vetted(config, admin, attempts, before, calls[j].name))
            && last == RecordAfter(config, calls[..k], last0)
            && forall j: nat ::
                 j in ran <==>
                   && j < k && calls[j].name in config.registry && config.registry[calls[j].name].readonly
                   && (config.registry[calls[j].name].admin ==> admin)
  {
    hide Turn, FirstProposal, AnyRefused, Vetted, RecordAfter;
    last, proposal, ran := last0, None, [];
    messages := before + [Assistant(calls)];
    TurnStarts(before, calls, iteration);
    ghost var asked := Requested(before);
    NoneRefused(config, admin, attempts, asked, calls);
    RequestedInTurn(before, calls, 0, iteration);
    NothingRecorded(config, calls, last0);
    for k := 0 to |calls|
      invariant messages == Turn(before, calls, k, iteration) && Requested(messages) == asked
      invariant forall j | 0 <= j < k :: !VerdictOn(config, admin, attempts, asked, calls[j]).Proposed?
      invariant forall j | 0 <= j < k :: !Vetted(config, admin, attempts, before, calls[j].name)
      invariant last == if AnyRefused(config, admin, attempts, asked, calls[..k]) then Some(ActionNotExecuted)
                        else last0
      invariant last == RecordAfter(config, calls[..k], last0)
      invariant forall j: nat ::
                  j in ran <==>
                    && j < k && calls[j].name in config.registry && config.registry[calls[j].name].readonly
                    && (config.registry[calls[j].name].admin ==> admin)
    {
      var call := calls[k];
      TurnAnswered(before, calls, k, iteration);
      RequestedInTurn(before, calls, k + 1, iteration);
      AnyRefusedAppended(config, admin, attempts, asked, calls, k);
      VerdictIs(config, admin, attempts, before, call);
      OneMoreRecorded(config, calls, k, last0);
      if call.name in config.registry && !config.registry[call.name].readonly {
        var tool := config.registry[call.name];
        var blocked := (tool.admin && !admin) || attempts >= MAX_ACTIONS
                       || (call.name in DESTRUCTIVE && call.name !in Requested(messages));
        if !blocked {
          messages := Turn(before, calls[..k + 1], k, iteration);
          FirstProposalIs(config, admin, attempts, asked, calls, k);
          return messages, last, Some(k), ran;
        }
        last := Some(ActionNotExecuted);
      } else if call.name in config.registry && !(config.registry[call.name].admin && !admin) {
        ran := ran + [k];
      }
      messages := messages + [Answer(AnswerId(call, iteration))];
    }
    FirstProposalIs(config, admin, attempts, asked, calls, |calls|);
    assert calls[..|calls|] == calls;
  }

  lemma NothingRecorded(config: Config, calls: seq<ToolCall>, last: Option<Outcome>)
    ensures RecordAfter(config, calls[..0], last) == last
  {
  }

  lemma OneMoreRecorded(config: Config, calls: seq<ToolCall>, k: nat, last: Option<Outcome>)
    requires k < |calls|
    ensures RecordAfter(config, calls[..k + 1], last)
            == if Mutation(config, calls[k].name) then Some(ActionNotExecuted)
               else RecordAfter(config, calls[..k], last)
  {
    hide Mutation;
    var front, all := calls[..k], calls[..k + 1];
    if j: nat :| j < |front| && Mutation(config, front[j].name) {
      assert all[j] == front[j];
    }
    assert all[k] == calls[k];
    assert forall j: nat | j < k :: all[j] == front[j];
  }

  lemma NoneRefused(config: Config, admin: bool, attempts: nat, asked: set<string>, calls: seq<ToolCall>)
    ensures !AnyRefused(config, admin, attempts, asked, calls[..0])
  {
  }

  // ---------------------------------------------------------------------- the tool loop

  datatype Ending =
    | FinalAnswer(recovery: Option<Outcome>)
    | ApprovalRequired(key: Key)
    | PutRefused
    | ProviderFailed
    | TooManyIterations
    | InvalidDecision
    | Broken        // an exception that nobody handles, after the decision

  /** The record a request leaves behind when it parks: its own chain, user, count and messages. */
  ghost predicate LeftBehind(s: State, key: Key, chain: nat, user: string, attempts: nat) {
    && key in s.store.data
    && var p := s.store.data[key].payload;
       p.chain == chain && p.user == user && p.attempts == attempts && p.callId == key.1
  }

  /** How a request that was in the loop ends: its record is parked, or its chain is over. */
  ghost predicate Ended(s: State, ending: Ending, task: nat, chain: nat, user: string, attempts: nat) {
    && task !in s.tasks
    && Executed(s.executions, chain) == attempts
    && (ending.ApprovalRequired? ==> LeftBehind(s, ending.key, chain, user, attempts))
    && (ending.FinalAnswer? ==> s.finals != [] && s.finals[|s.finals| - 1] == Final(chain, ending.recovery))
  }

  lemma FinishEnds(config: Config, s: State, task: nat, ending: Ending)
    requires Inv(s) && task in s.tasks && s.tasks[task].Looping? && !ending.ApprovalRequired? && !ending.FinalAnswer?
    ensures var t := s.tasks[task];
            Ended(Next(config, s, Finish(task)), ending, task, t.chain, t.caller.user, t.attempts)
  {
    hide OneCarrier, Issued, Licensed, Spent;
  }

  lemma AskEnds(config: Config, s: State, task: nat, reply: Option<seq<ToolCall>>, ending: Ending)
    requires Inv(s) && task in s.tasks && s.tasks[task].Looping? && s.tasks[task].round < MAX_ITERATIONS
    requires reply.None? || reply.value == []
    requires ending == if reply.None? then ProviderFailed else FinalAnswer(s.tasks[task].last)
    ensures var t, n := s.tasks[task], Next(config, s, Ask(task, reply));
            && Ended(n, ending, task, t.chain, t.caller.user, t.attempts)
            && n.prompts == s.prompts + [Prompt(task, t.messages)]
  {
    hide OneCarrier, Issued, Licensed, Spent, AfterReply;
  }

  lemma AskGoesOn(config: Config, s: State, task: nat, calls: seq<ToolCall>)
    requires task in s.tasks && s.tasks[task].Looping? && s.tasks[task].round < MAX_ITERATIONS && calls != []
    ensures var n := Next(config, s, Ask(task, Some(calls)));
            && task in n.tasks && n.tasks[task] == AfterReply(config, s.tasks[task], calls)
            && n.prompts == s.prompts + [Prompt(task, s.tasks[task].messages)]
  {
    hide AfterReply;
  }

  lemma ParkEnds(config: Config, s: State, task: nat, createdAt: int, ending: Ending)
    requires Inv(s) && task in s.tasks && s.tasks[task].Proposing? && createdAt <= s.now
    requires var key := KeyFor(s.tasks[task]);
             ending == if CanPut(s.store, config.ttl, key, s.now) then ApprovalRequired(key) else PutRefused
    ensures var t, n := s.tasks[task], Next(config, s, Park(task, createdAt));
            && Ended(n, ending, task, t.chain, t.caller.user, t.attempts)
            && n.prompts == s.prompts
            && (ending.ApprovalRequired? ==>
                  n.store.data[ending.key].payload == RecordFor(s, task, createdAt).payload)
            && (ending.PutRefused? ==> var key := KeyFor(t); key in n.store.data || key in n.store.used)
  {
    hide OneCarrier, Issued, Licensed, Spent;
  }

  /** The prompts are what the replies make of the first list, one after the other. */
  ghost predicate PromptsFollow(config: Config, task: Task, prompts: seq<seq<Message>>, replies: seq<seq<ToolCall>>) {
    && |replies| <= |prompts| <= |replies| + 1
    && forall i | 0 <= i < |prompts| ::
         && i <= |replies| && Conversed(config, task, replies[..i]).Looping?
         && prompts[i] == Conversed(config, task, replies[..i]).messages
  }

  /** So from a well-formed list and replies that name their calls come only well-formed prompts. */
  lemma PromptsAreWellFormed(config: Config, task: Task, prompts: seq<seq<Message>>, replies: seq<seq<ToolCall>>)
    requires task.Looping? && PromptsFollow(config, task, prompts, replies) && WellFormed(task.messages)
    requires forall i | 0 <= i < |replies| :: Named(replies[i])
    ensures forall p | 0 <= p < |prompts| :: WellFormed(prompts[p])
  {
    forall p | 0 <= p < |prompts|
      ensures WellFormed(prompts[p])
    {
      ConversedTalks(config, task, replies[..p]);
    }
  }

  lemma OneMorePrompt(config: Config, task: Task, prompts: seq<seq<Message>>, replies: seq<seq<ToolCall>>,
                      messages: seq<Message>)
    requires PromptsFollow(config, task, prompts, replies) && |prompts| == |replies|
    requires Conversed(config, task, replies).Looping? && messages == Conversed(config, task, replies).messages
    ensures PromptsFollow(config, task, prompts + [messages], replies)
  {
    assert replies[..|replies|] == replies;
  }

  lemma OneMoreReply(config: Config, task: Task, prompts: seq<seq<Message>>, replies: seq<seq<ToolCall>>,
                     calls: seq<ToolCall>)
    requires PromptsFollow(config, task, prompts, replies) && |prompts| == |replies| + 1
    ensures PromptsFollow(config, task, prompts, replies + [calls])
  {
    hide Conversed;
    forall i | 0 <= i < |prompts|
      ensures (replies + [calls])[..i] == replies[..i]
    {
    }
  }

  /** The last reply is the one whose first vetted call was parked; what was named before it the record tells. */
  ghost predicate Parks(config: Config, task: Task, replies: seq<seq<ToolCall>>, r: Pending)
    requires replies != [] && task.Looping?
  {
    var calls := replies[|replies| - 1];
    exists k: nat | k < |calls| ::
      && r.tool == calls[k].name && (calls[k].id != "" ==> r.callId == calls[k].id)
      && (forall j | 0 <= j < k :: !Vetted(config, task.caller.admin, task.attempts, task.messages, calls[j].name))
      && r.last == if MutationNamed(config, replies[..|replies| - 1]) || AnyMutation(config, calls[..k])
                   then Some(ActionNotExecuted) else task.last
  }

  lemma ReplyIsParked(config: Config, task: Task, front: seq<seq<ToolCall>>, before: Task, calls: seq<ToolCall>,
                      n: Task, r: Pending)
    requires task.Looping? && before.Looping? && before == Conversed(config, task, front)
    requires n == AfterReply(config, before, calls) && n.Proposing?
    requires r == Pending(r.id, n.chain, n.caller.user, n.caller.admin, n.attempts, n.messages, n.callId, n.tool,
                          n.last)
    ensures Parks(config, task, front + [calls], r) && r.admin == task.caller.admin && r.attempts == task.attempts
    ensures Vetted(config, r.admin, r.attempts, r.messages, r.tool)
  {
    hide AfterReply, Conversed, MutationNamed, AnyMutation, SomeRefused, Requested, Vetted, Mutation, AnyRefused;
    RecordAfterReplies(config, task, front);
    ReplyLeadsTo(config, before, calls);
    ReplyVetted(config, before, calls);
    var k: nat :| ProposesAt(config, before, calls, n, k);
    var all := front + [calls];
    assert all[..|front|] == front && all[|all| - 1] == calls;
    forall j | 0 <= j < k ensures !Vetted(config, task.caller.admin, task.attempts, task.messages, calls[j].name) {
      if Vetted(config, task.caller.admin, task.attempts, task.messages, calls[j].name) {
        SameAsked(config, task.caller.admin, task.attempts, task.messages, before.messages, calls[j].name);
      }
    }
    assert r.last == RecordAfter(config, calls[..k], before.last);
    assert calls[k].name == r.tool;
  }

  /**
   `run_agent`. At most eight prompts go out; they are the ones the replies lead to, and the only ones of
   this request. No mutation is executed here. The final answer is the recovery record's: that the action
   was not executed exactly if some proposal was refused, else what the record said when the loop began.
   */
  method RunAgent(agent: SharedAgent, task: nat, ghost start: State, ghost sofar: seq<Step>)
    returns (ending: Ending, prompts: seq<seq<Message>>, ghost replies: seq<seq<ToolCall>>, ghost trace: seq<Step>)
    requires agent.Valid() && agent.sys == Run(agent.config, start, sofar)
    requires task in agent.sys.tasks && agent.sys.tasks[task].Looping? && agent.sys.tasks[task].round == 0
    modifies agent
    ensures agent.Valid() && agent.sys == Run(agent.config, start, trace)
    ensures var t := old(agent.sys).tasks[task];
            && |prompts| <= 8 && PromptsFollow(agent.config, t, prompts, replies)
            && PromptsOf(agent.sys.prompts, task) == PromptsOf(old(agent.sys).prompts, task) + prompts
            && (WellFormed(t.messages) && (forall i | 0 <= i < |replies| :: Named(replies[i])) ==>
                  forall p | 0 <= p < |prompts| :: WellFormed(prompts[p]))
            && Ended(agent.sys, ending, task, t.chain, t.caller.user, t.attempts)
            && (ending.FinalAnswer? ==>
                  ending.recovery == if MutationNamed(agent.config, replies) then Some(ActionNotExecuted) else t.last)
            && (ending.ApprovalRequired? ==>
                  && ending.key.0 == t.caller.session && Conversed(agent.config, t, replies).Proposing?
                  && var r := agent.sys.store.data[ending.key].payload;
                     && r.messages == Conversed(agent.config, t, replies).messages
                     && r.admin == t.caller.admin && Vetted(agent.config, r.admin, r.attempts, r.messages, r.tool)
                     && replies != [] && Parks(agent.config, t, replies, r))
            && (ending.PutRefused? ==>
                  exists callId ::
                    var key := (t.caller.session, callId); key in agent.sys.store.data || key in agent.sys.store.used)
            && (ending.TooManyIterations? ==> |prompts| == 8)
    ensures !ending.InvalidDecision? && !ending.Broken?
  {
    hide Run, Inv, Next, Ended, WellFormed, Named, Turn, PromptsOf, Conversed, AfterReply, SomeRefused, PromptsFollow,
      MutationNamed, Vetted, RecordAfter, Parks;
    ghost var t := agent.sys.tasks[task];
    ghost var config := agent.config;
    trace, prompts, replies := sofar, [], [];
    BeforeReplies(config, t);
    var messages, last := agent.sys.tasks[task].messages, agent.sys.tasks[task].last;
    for i := 0 to MAX_ITERATIONS
      invariant agent.Valid() && agent.sys == Run(config, start, trace)
      invariant task in agent.sys.tasks && agent.sys.tasks[task] == Conversed(config, t, replies)
      invariant Conversed(config, t, replies).Looping? && Conversed(config, t, replies).round == i
      invariant messages == Conversed(config, t, replies).messages && last == Conversed(config, t, replies).last
      invariant |prompts| == i == |replies| && PromptsFollow(config, t, prompts, replies)
      invariant PromptsOf(agent.sys.prompts, task) == PromptsOf(old(agent.sys).prompts, task) + prompts
    {
      RecordAfterReplies(config, t, replies);
      OneMorePrompt(config, t, prompts, replies, messages);
      trace := agent.OthersRun(Some(task), start, trace);
      PromptsAppended(agent.sys.prompts, Prompt(task, messages), task);
      prompts := prompts + [messages];
      var reply := AnyReply();
      if reply.None? || reply.value == [] {
        ending := if reply.None? then ProviderFailed else FinalAnswer(last);
        AskEnds(config, agent.sys, task, reply, ending);
        trace := agent.Take(Ask(task, reply), start, trace);
        WhenWellFormed(config, t, prompts, replies);
        return;
      }
      var calls := reply.value;
      var caller, attempts := agent.sys.tasks[task].caller, agent.sys.tasks[task].attempts;
      AskGoesOn(config, agent.sys, task, calls);
      OneMoreReply(config, t, prompts, replies, calls);
      ConversedAppended(config, t, replies, calls);
      WhenWellFormed(config, t, prompts, replies + [calls]);
      ghost var before := Conversed(config, t, replies);
      trace := agent.Take(Ask(task, reply), start, trace);
      replies := replies + [calls];
      var proposal, ran;
      messages, last, proposal, ran := WalkCalls(agent.config, caller.admin, attempts, messages, calls, i, last);
      WalkIsReply(config, before, calls, messages, last, proposal);
      if proposal.Some? {
        var createdAt := agent.sys.now;
        var key := KeyFor(agent.sys.tasks[task]);
        trace := agent.OthersRun(Some(task), start, trace);
        ending := if CanPut(agent.sys.store, agent.config.ttl, key, agent.sys.now) then ApprovalRequired(key)
                  else PutRefused;
        ParkEnds(config, agent.sys, task, createdAt, ending);
        ghost var record := RecordFor(agent.sys, task, createdAt).payload;
        ReplyIsParked(config, t, replies[..i], before, calls, agent.sys.tasks[task], record);
        trace := agent.Take(Park(task, createdAt), start, trace);
        return;
      }
    }
    ending := TooManyIterations;
    RecordAfterReplies(config, t, replies);
    FinishEnds(config, agent.sys, task, ending);
    FinishKeepsPrompts(config, agent.sys, task);
    trace := agent.Take(Finish(task), start, trace);
    WhenWellFormed(config, t, prompts, replies);
  }

  lemma BeforeReplies(config: Config, task: Task)
    ensures Conversed(config, task, []) == task && PromptsFollow(config, task, [], [])
  {
  }

  lemma FinishKeepsPrompts(config: Config, s: State, task: nat)
    ensures Next(config, s, Finish(task)).prompts == s.prompts
  {
  }

  lemma WhenWellFormed(config: Config, task: Task, prompts: seq<seq<Message>>, replies: seq<seq<ToolCall>>)
    requires task.Looping? && PromptsFollow(config, task, prompts, replies)
    ensures WellFormed(task.messages) && (forall i | 0 <= i < |replies| :: Named(replies[i])) ==>
              forall p | 0 <= p < |prompts| :: WellFormed(prompts[p])
  {
    if WellFormed(task.messages) && (forall i | 0 <= i < |replies| :: Named(replies[i])) {
      PromptsAreWellFormed(config, task, prompts, replies);
    }
  }

  /** The walk computes what the protocol makes of the reply. */
  lemma WalkIsReply(config: Config, task: Task, calls: seq<ToolCall>, messages: seq<Message>, last: Option<Outcome>,
                    proposal: Option<nat>)
    requires task.Looping?
    requires var k := FirstProposal(config, task.caller.admin, task.attempts, Requested(task.messages), calls);
             && proposal == (if k < |calls| then Some(k) else None)
             && messages == (if k < |calls| then Turn(task.messages, calls[..k + 1], k, task.round)
                             else Turn(task.messages, calls, |calls|, task.round))
             && last == if AnyRefused(config, task.caller.admin, task.attempts, Requested(task.messages), calls[..k])
                        then Some(ActionNotExecuted) else task.last
    ensures var n := AfterReply(config, task, calls);
            && n.chain == task.chain && n.caller == task.caller && n.attempts == task.attempts
            && n.messages == messages && n.last == last
            && if proposal.Some? then n.Proposing? else n.Looping? && n.round == task.round + 1
  {
    hide Turn, FirstProposal, AnyRefused, Requested;
  }

  // ---------------------------------------------------------------------- after the decision

  /** One evaluation of the system after the action. */
  datatype Verification = Verification(processing: bool, idle: bool)

  method AnyVerification() returns (v: Verification) {
    v := *;
  }

  /** The outcome the observations support: the last one decides, and no earlier one was positive. */
  ghost predicate Supported(outcome: Outcome, failed: bool, seen: seq<Verification>) {
    && (failed <==> outcome == ActionFailed) && (failed ==> seen == []) && outcome != ActionNotExecuted
    && (!failed ==>
          && 0 < |seen| <= 2
          && (forall i | 0 <= i < |seen| - 1 :: !seen[i].processing)
          && (|seen| < 2 ==> seen[|seen| - 1].processing)
          && (outcome == VerifiedProcessing <==> seen[|seen| - 1].processing)
          && (outcome == ReadyIdle <==> !seen[|seen| - 1].processing && seen[|seen| - 1].idle))
  }

  /**
   `execute_verified`: the action is counted, then run once, then observed at most twice. None stands for
   an exception, which may come before the action or after it.
   */
  method ExecuteVerified(agent: SharedAgent, task: nat, ghost start: State, ghost sofar: seq<Step>)
    returns (outcome: Option<Outcome>, ran: bool, failed: bool, seen: seq<Verification>, ghost trace: seq<Step>)
    requires agent.Valid() && agent.sys == Run(agent.config, start, sofar)
    requires task in agent.sys.tasks && MayExecute(agent.config, agent.sys.tasks[task])
    modifies agent
    ensures agent.Valid() && agent.sys == Run(agent.config, start, trace)
    ensures task in agent.sys.tasks && PromptsOf(agent.sys.prompts, task) == PromptsOf(old(agent.sys).prompts, task)
    ensures var t := old(agent.sys).tasks[task];
            agent.sys.tasks[task] == if ran then Acting(t.record, t.caller) else t
    ensures outcome.Some? ==> ran && Supported(outcome.value, failed, seen)
  {
    hide Run, Inv, PromptsOf;
    seen, outcome, ran, failed := [], None, false, false;
    trace := agent.OthersRun(Some(task), start, sofar);
    var raised: bool := *;
    if raised {
      return;
    }
    ran := true;
    trace := agent.Take(Execute(task), start, trace);
    hide Next;
    failed := *;
    if failed {
      return Some(ActionFailed), ran, failed, seen, trace;
    }
    var verification := Verification(false, false);
    for sample := 0 to MAX_VERIFICATION_SAMPLES
      invariant agent.Valid() && agent.sys == Run(agent.config, start, trace)
      invariant task in agent.sys.tasks
      invariant agent.sys.tasks[task] == Acting(old(agent.sys).tasks[task].record, old(agent.sys).tasks[task].caller)
      invariant PromptsOf(agent.sys.prompts, task) == PromptsOf(old(agent.sys).prompts, task)
      invariant |seen| == sample && (seen != [] ==> verification == seen[|seen| - 1])
      invariant forall i | 0 <= i < |seen| :: !seen[i].processing
    {
      trace := agent.OthersRun(Some(task), start, trace);
      var raisedLater: bool := *;
      if raisedLater {
        return;
      }
      verification := AnyVerification();
      seen := seen + [verification];
      if verification.processing {
        break;
      }
    }
    outcome := Some(if verification.processing then VerifiedProcessing
                    else if verification.idle then ReadyIdle else NotVerified);
  }

  datatype Decision = Approve | Deny | Invalid

  /** This caller may have the parked call executed: it is their own, within the budget, and their role may use it. */
  ghost predicate Entitled(config: Config, r: Pending, caller: Caller) {
    && r.user == caller.user && r.attempts < 2
    && r.tool in config.registry && (config.registry[r.tool].admin ==> caller.admin)
  }

  /** The settlement of what was executed, or the refusal, starts the conversation again. */
  lemma DecisionTaken(config: Config, s: State, task: nat, ran: bool, recorded: Option<Outcome>)
    requires task in s.tasks && recorded != Some(ActionNotExecuted)
    requires if ran then s.tasks[task].Acting? else s.tasks[task].Deciding? && recorded.None?
    ensures var n := Next(config, s, if ran then Settle(task, recorded) else Decline(task));
            var t := s.tasks[task];
            && n.prompts == s.prompts && task in n.tasks
            && n.tasks[task] == Resumed(t.record, t.caller, t.record.attempts + if ran then 1 else 0,
                                        if recorded.Some? then recorded else Some(ActionNotExecuted))
  {
  }

  /**
   `resume_after_approval`. Approved or denied, the parked call and no other is answered before the
   provider hears of it. The tool runs exactly on the approval of somebody entitled to it, unless it is `blocked`:
   its arguments are not valid, or something raised before it could run. `raised` says that
   something raised before the approved call was through: before or while the action was observed, or, with
   its outcome already recorded, in the summary or the audit writer. An executed action is announced as not
   executed exactly if something raised so, or if some later proposal was refused; verified processing is
   announced only after a positive last observation.
   */
  method ResumeAfterApproval(agent: SharedAgent, task: nat, decision: Decision,
                             ghost start: State, ghost sofar: seq<Step>)
    returns (ending: Ending, ran: bool, blocked: bool, raised: bool, recorded: Option<Outcome>,
             seen: seq<Verification>, prompts: seq<seq<Message>>, ghost replies: seq<seq<ToolCall>>,
             ghost trace: seq<Step>)
    requires agent.Valid() && agent.sys == Run(agent.config, start, sofar)
    requires task in agent.sys.tasks && agent.sys.tasks[task].Deciding?
    modifies agent
    ensures agent.Valid() && agent.sys == Run(agent.config, start, trace)
    ensures ending.InvalidDecision? <==> decision.Invalid?
    ensures (recorded.Some? <==> ran && !raised) && recorded != Some(ActionNotExecuted)
    ensures recorded == Some(VerifiedProcessing) ==> seen != [] && seen[|seen| - 1].processing
    ensures var t := old(agent.sys).tasks[task];
            var r := t.record;
            var attempts := r.attempts + if ran then 1 else 0;
            var resumed := Resumed(r, t.caller, attempts, if recorded.Some? then recorded else Some(ActionNotExecuted));
            && (ran <==> decision.Approve? && Entitled(agent.config, r, t.caller) && !blocked)
            && PromptsOf(agent.sys.prompts, task) == PromptsOf(old(agent.sys).prompts, task) + prompts
            && (decision.Invalid? ==> prompts == [] && !ran)
            && (!decision.Invalid? ==>
                  && |prompts| <= 8 && PromptsFollow(agent.config, resumed, prompts, replies)
                  && Ended(agent.sys, ending, task, r.chain, t.caller.user, attempts)
                  && (Waiting(r.messages, r.callId) && (forall i | 0 <= i < |replies| :: Named(replies[i])) ==>
                        forall p | 0 <= p < |prompts| :: WellFormed(prompts[p]))
                  && (ending.FinalAnswer? ==>
                        (ending.recovery == Some(ActionNotExecuted)
                         <==> !ran || raised || MutationNamed(agent.config, replies))
                        && (ending.recovery != Some(ActionNotExecuted) ==> ending.recovery == recorded)))
  {
    hide Run, Inv, Next, Ended, WellFormed, Waiting, PromptsOf, PromptsFollow, MutationNamed, Named;
    trace, prompts, replies, seen, ran, blocked, raised, recorded := sofar, [], [], [], false, true, false, None;
    var waiting := agent.sys.tasks[task];
    var record := waiting.record;
    if decision.Invalid? {
      FinishKeepsPrompts(agent.config, agent.sys, task);
      trace := agent.Take(Finish(task), start, trace);
      return InvalidDecision, ran, blocked, raised, recorded, seen, prompts, replies, trace;
    }
    var valid: bool := *;
    blocked := !valid;
    if decision.Approve? && MayExecute(agent.config, waiting) && valid {
      var failed;
      recorded, ran, failed, seen, trace := ExecuteVerified(agent, task, start, trace);
      blocked := !ran;
      var written: bool := *;               // the summary and the entry in the audit trail
      raised := recorded.None? || !written;
      recorded := if raised then None else recorded;
    }
    DecisionTaken(agent.config, agent.sys, task, ran, recorded);
    trace := agent.Take(if ran then Settle(task, recorded) else Decline(task), start, trace);
    ghost var resumed := agent.sys.tasks[task];
    var broken: bool := *;                  // the audit entry of a denial, or a result that cannot be written
    if broken {
      FinishEnds(agent.config, agent.sys, task, Broken);
      FinishKeepsPrompts(agent.config, agent.sys, task);
      BeforeReplies(agent.config, resumed);
      trace := agent.Take(Finish(task), start, trace);
      return Broken, ran, blocked, raised, recorded, seen, prompts, replies, trace;
    }
    if Waiting(record.messages, record.callId) {
      AnsweringCompletes(record.messages, record.callId);
    }
    ending, prompts, replies, trace := RunAgent(agent, task, start, trace);
  }

  // ---------------------------------------------------------------------- the endpoints

  lemma NoSteps(config: Config, s: State)
    ensures Run(config, s, []) == s
  {
  }

  /**
   `POST /v1/chat`: a chain of its own, with nothing executed yet. The first prompt is well formed exactly
   when the history sent with the chat is; a message of role tool in it is an answer nobody asked for.
   */
  method ChatEndpoint(agent: SharedAgent, caller: Caller, history: seq<Message>, asks: set<string>)
    returns (ending: Ending, prompts: seq<seq<Message>>, ghost replies: seq<seq<ToolCall>>, ghost chain: nat,
             ghost trace: seq<Step>)
    requires agent.Valid()
    modifies agent
    ensures agent.Valid() && agent.sys == Run(agent.config, old(agent.sys), trace)
    ensures Ended(agent.sys, ending, chain, chain, caller.user, 0)
    ensures |prompts| <= 8
    ensures var first := Looping(chain, caller, 0, FirstMessages(history, asks), None, 0);
            && PromptsFollow(agent.config, first, prompts, replies)
            && (WellFormed(first.messages) <==> WellFormed(history))
            && (ending.FinalAnswer? ==>
                  ending.recovery
                  == if MutationNamed(agent.config, replies) then Some(ActionNotExecuted) else None)
    ensures WellFormed(history) && (forall i | 0 <= i < |replies| :: Named(replies[i])) ==>
              forall p | 0 <= p < |prompts| :: WellFormed(prompts[p])
  {
    hide Run, Inv, Ended, WellFormed, PromptsOf, PromptsFollow, MutationNamed, Named, FirstMessages;
    assert agent.sys == Run(agent.config, agent.sys, []) by { NoSteps(agent.config, agent.sys); }
    trace := agent.OthersRun(None, agent.sys, []);
    var task := agent.sys.issued;
    chain := task;
    trace := agent.Take(Step.Chat(caller, history, asks), old(agent.sys), trace);
    hide Next;
    FirstPromptIff(history, asks);
    ending, prompts, replies, trace := RunAgent(agent, task, old(agent.sys), trace);
  }

  datatype Reply = Forbidden | NotFound | Consumed | Resumption(ending: Ending, ran: bool)

  /**
   `POST /v1/chat/approve`: an administrator looks the record up, must be its user, and pops it. Other
   requests run between the look and the pop, so the record resumed need not be the one looked at.
   */
  method ApproveEndpoint(agent: SharedAgent, caller: Caller, callId: string, decision: Decision)
    returns (reply: Reply, recorded: Option<Outcome>, seen: seq<Verification>, ghost popped: Option<Pending>,
             ghost trace: seq<Step>)
    requires agent.Valid()
    modifies agent
    ensures agent.Valid() && agent.sys == Run(agent.config, old(agent.sys), trace)
    ensures !caller.admin ==> reply.Forbidden?
    ensures reply.Resumption? <==> popped.Some?
    ensures reply.Resumption? && reply.ran ==>
              && caller.admin && decision.Approve? && popped.value.user == caller.user
              && Entitled(agent.config, popped.value, caller)
    ensures reply.Resumption? && !decision.Invalid? ==>
              Executed(agent.sys.executions, popped.value.chain) == popped.value.attempts + if reply.ran then 1 else 0
    ensures reply.Resumption? && reply.ending == FinalAnswer(Some(VerifiedProcessing)) ==>
              reply.ran && recorded == Some(VerifiedProcessing) && seen != [] && seen[|seen| - 1].processing
  {
    hide Run, Inv, WellFormed, Waiting, Pruned, AfterPop, PromptsOf, PromptsFollow, MutationNamed, Named;
    popped, seen, recorded := None, [], None;
    var key := (caller.session, callId);
    assert agent.sys == Run(agent.config, agent.sys, []) by { NoSteps(agent.config, agent.sys); }
    trace := agent.OthersRun(None, agent.sys, []);
    if !caller.admin {
      return Forbidden, recorded, seen, popped, trace;
    }
    var looked := Found(agent.sys.store, agent.config.ttl, key, agent.sys.now);
    trace := agent.Take(Step.Look, old(agent.sys), trace);
    if looked.None? {
      return NotFound, recorded, seen, popped, trace;
    }
    if looked.value.payload.user != caller.user {
      return Forbidden, recorded, seen, popped, trace;
    }
    trace := agent.OthersRun(None, old(agent.sys), trace);
    var found := Found(agent.sys.store, agent.config.ttl, key, agent.sys.now);
    var task := agent.sys.issued;
    trace := agent.Take(Step.Take(caller, key), old(agent.sys), trace);
    if found.None? {
      return Consumed, recorded, seen, popped, trace;
    }
    popped := Some(found.value.payload);
    assert agent.sys.tasks[task] == Deciding(popped.value, caller, agent.sys.tasks[task].pop);
    hide Next, Found;
    var ending, ran, blocked, raised, prompts;
    ghost var replies;
    ending, ran, blocked, raised, recorded, seen, prompts, replies, trace :=
      ResumeAfterApproval(agent, task, decision, old(agent.sys), trace);
    reply := Resumption(ending, ran);
  }
}

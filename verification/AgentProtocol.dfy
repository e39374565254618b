/**
 Chats, provider replies, parked approvals and resumptions of the agent (agent/agent_loop.py,
 agent/api.py), as one state machine: any number of requests in flight over one approval store and one
 clock, each with the message list it sends to its provider.

 A chat starts a chain. A chain is carried by one request at a time, or by one parked record between two
 requests; the recovery state it carries counts the actions it has executed.
 */
module AgentProtocol {
  import opened Outcomes
  import opened Approvals
  import opened Conversation

  const MAX_ACTIONS: nat := 2
  const MAX_ITERATIONS: nat := 8
  const DESTRUCTIVE: set<string> := {"reset_pipeline_offsets", "purge_dlq", "cancel_job"}

  datatype Tool = Tool(readonly: bool, admin: bool)

  datatype Config = Config(ttl: int, registry: map<string, Tool>)

  /** What `recovery_state["last"]` says happened. */
  datatype Outcome = VerifiedProcessing | ReadyIdle | NotVerified | ActionFailed | ActionNotExecuted

  /** A parked proposal. `id` names the record, `chain` the chat it descends from. */
  datatype Pending = Pending(
    id: nat, chain: nat, user: string, admin: bool, attempts: nat, messages: seq<Message>, callId: string,
    tool: string, last: Option<Outcome>)

  /** Who a request runs for, and in which session. */
  datatype Caller = Caller(user: string, admin: bool, session: string)

  /**
   A request in flight: in the tool loop, about to park a call, holding the record it popped (`pop` names
   the pop), or with the approved action executed and its outcome not yet recorded.
   */
  datatype Task =
    | Looping(chain: nat, caller: Caller, attempts: nat, messages: seq<Message>, last: Option<Outcome>, round: nat)
    | Proposing(chain: nat, caller: Caller, attempts: nat, messages: seq<Message>, last: Option<Outcome>,
                callId: string, tool: string)
    | Deciding(record: Pending, caller: Caller, pop: nat)
    | Acting(record: Pending, caller: Caller)
  {
    function Chain(): nat {
      if Looping? || Proposing? then chain else record.chain
    }

    function Attempts(): nat {
      if Looping? || Proposing? then attempts else if Deciding? then record.attempts else record.attempts + 1
    }
  }

  /** A mutating tool that was run: for which chain, on whose approval, out of which pop. */
  datatype Execution = Execution(
    chain: nat, record: nat, pop: nat, owner: string, approver: string, tool: string, byAdmin: bool)

  /** A message list a request sent to its provider. */
  datatype Prompt = Prompt(task: nat, messages: seq<Message>)

  /** A final answer, with the outcome it announces. */
  datatype Final = Final(chain: nat, recovery: Option<Outcome>)

  datatype State = State(
    now: int, store: Store<Pending>, tasks: map<nat, Task>, issued: nat, records: nat,
    consumed: seq<nat>, executions: seq<Execution>, prompts: seq<Prompt>, finals: seq<Final>)

  // ---------------------------------------------------------------------- one reply of the provider

  /** What becomes of a proposed call: answered with an error, answered and noted as refused, run, or parked. */
  datatype Verdict = Unavailable | Refused | Runs | Proposed

  function VerdictOn(config: Config, admin: bool, attempts: nat, asked: set<string>, call: ToolCall): Verdict {
    if call.name !in config.registry then Unavailable
    else
      var tool := config.registry[call.name];
      if tool.admin && !admin then if tool.readonly then Unavailable else Refused
      else if tool.readonly then Runs
      else if attempts >= MAX_ACTIONS || (call.name in DESTRUCTIVE && call.name !in asked) then Refused
      else Proposed
  }

  /** The first call that is to be parked, or the number of calls. */
  function FirstProposal(config: Config, admin: bool, attempts: nat, asked: set<string>, calls: seq<ToolCall>): (k: nat)
    ensures k <= |calls|
    ensures forall j | 0 <= j < k :: !VerdictOn(config, admin, attempts, asked, calls[j]).Proposed?
    ensures k < |calls| ==> VerdictOn(config, admin, attempts, asked, calls[k]).Proposed?
  {
    if calls == [] || VerdictOn(config, admin, attempts, asked, calls[0]).Proposed? then 0
    else FirstProposal(config, admin, attempts, asked, calls[1..]) + 1
  }

  predicate AnyRefused(config: Config, admin: bool, attempts: nat, asked: set<string>, calls: seq<ToolCall>) {
    exists j :: 0 <= j < |calls| && VerdictOn(config, admin, attempts, asked, calls[j]).Refused?
  }

  /**
   The request after a reply with calls: the calls before the first proposal are answered where they
   stand, and the turn is cut off after the proposal.
   */
  function AfterReply(config: Config, task: Task, calls: seq<ToolCall>): Task
    requires task.Looping?
  {
    var asked := Requested(task.messages);
    var k := FirstProposal(config, task.caller.admin, task.attempts, asked, calls);
    var last := if AnyRefused(config, task.caller.admin, task.attempts, asked, calls[..k])
                then Some(ActionNotExecuted) else task.last;
    if k == |calls| then
      task.(messages := Turn(task.messages, calls, k, task.round), last := last, round := task.round + 1)
    else
      Proposing(task.chain, task.caller, task.attempts, Turn(task.messages, calls[..k + 1], k, task.round), last,
                AnswerId(calls[k], task.round), calls[k].name)
  }

  // ---------------------------------------------------------------------- steps

  datatype Step =
    | Tick(seconds: nat)
    | Chat(caller: Caller, history: seq<Message>, asks: set<string>)
    | Ask(task: nat, reply: Option<seq<ToolCall>>)   // None: the provider failed; no calls: its final answer
    | Park(task: nat, createdAt: int)
    | Finish(task: nat)
    | Look
    | Take(caller: Caller, key: Key)
    | Execute(task: nat)
    | Settle(task: nat, outcome: Option<Outcome>)    // None: something raised before the call was through
    | Decline(task: nat)

  function Empty(now: int): State {
    State(now, Store(map[], map[]), map[], 0, 0, [], [], [], [])
  }

  function Without(s: State, task: nat): State {
    s.(tasks := s.tasks - {task})
  }

  function With(s: State, t: nat, task: Task): State {
    s.(tasks := s.tasks[t := task])
  }

  function FirstMessages(history: seq<Message>, asks: set<string>): seq<Message> {
    [System] + history + [User(asks)]
  }

  /** What a request parks: its own chain, user, count and messages. */
  function RecordFor(s: State, t: nat, createdAt: int): Parked<Pending>
    requires t in s.tasks && s.tasks[t].Proposing?
  {
    var task := s.tasks[t];
    Parked(createdAt, Pending(s.records, task.chain, task.caller.user, task.caller.admin, task.attempts,
                              task.messages, task.callId, task.tool, task.last))
  }

  function KeyFor(task: Task): Key
    requires task.Proposing?
  {
    (task.caller.session, task.callId)
  }

  /** A tool may be executed for the record's own user, within the budget, by somebody allowed to. */
  predicate MayExecute(config: Config, task: Task) {
    && task.Deciding? && task.record.user == task.caller.user && task.record.attempts < MAX_ACTIONS
    && task.record.tool in config.registry && (config.registry[task.record.tool].admin ==> task.caller.admin)
  }

  /** The loop that goes on after a decision: the parked call is answered. */
  function Resumed(record: Pending, caller: Caller, attempts: nat, last: Option<Outcome>): Task {
    Looping(record.chain, caller, attempts, record.messages + [Answer(record.callId)], last, 0)
  }

  function Next(config: Config, s: State, step: Step): State {
    match step
    case Tick(d) => s.(now := s.now + d)
    case Chat(caller, history, asks) =>
      With(s, s.issued, Looping(s.issued, caller, 0, FirstMessages(history, asks), None, 0)).(issued := s.issued + 1)
    case Ask(t, reply) =>
      if t in s.tasks && s.tasks[t].Looping? && s.tasks[t].round < MAX_ITERATIONS then
        var task := s.tasks[t];
        var sent := s.(prompts := s.prompts + [Prompt(t, task.messages)]);
        if reply.None? then Without(sent, t)
        else if reply.value == [] then Without(sent, t).(finals := s.finals + [Final(task.chain, task.last)])
        else With(sent, t, AfterReply(config, task, reply.value))
      else s
    case Park(t, createdAt) =>
      if t in s.tasks && s.tasks[t].Proposing? && createdAt <= s.now then
        Without(s, t).(store := AfterPut(s.store, config.ttl, KeyFor(s.tasks[t]), RecordFor(s, t, createdAt), s.now),
                       records := s.records + 1)
      else s
    case Finish(t) => Without(s, t)
    case Look => s.(store := Pruned(s.store, config.ttl, s.now))
    case Take(caller, key) =>
      var found := Found(s.store, config.ttl, key, s.now);
      var popped := s.(store := AfterPop(s.store, config.ttl, key, s.now));
      if found.None? then popped
      else
        var record := found.value.payload;
        With(popped, s.issued, Deciding(record, caller, |s.consumed|))
          .(issued := s.issued + 1, consumed := s.consumed + [record.id])
    case Execute(t) =>
      if t in s.tasks && MayExecute(config, s.tasks[t]) then
        var task := s.tasks[t];
        var r := task.record;
        With(s, t, Acting(r, task.caller))
          .(executions := s.executions + [Execution(r.chain, r.id, task.pop, r.user, task.caller.user, r.tool,
                                                    task.caller.admin)])
      else s
    case Settle(t, outcome) =>
      if t in s.tasks && s.tasks[t].Acting? && outcome != Some(ActionNotExecuted) then
        var task := s.tasks[t];
        With(s, t, Resumed(task.record, task.caller, task.record.attempts + 1,
                           if outcome.Some? then outcome else Some(ActionNotExecuted)))
      else s
    case Decline(t) =>
      if t in s.tasks && s.tasks[t].Deciding? then
        var task := s.tasks[t];
        With(s, t, Resumed(task.record, task.caller, task.record.attempts, Some(ActionNotExecuted)))
      else s
  }

  function Run(config: Config, s: State, steps: seq<Step>): State {
    if steps == [] then s else Next(config, Run(config, s, steps[..|steps| - 1]), steps[|steps| - 1])
  }

  lemma RunAppended(config: Config, s: State, steps: seq<Step>, step: Step)
    ensures Run(config, s, steps + [step]) == Next(config, Run(config, s, steps), step)
  {
    assert (steps + [step])[..|steps|] == steps;
  }

  // ---------------------------------------------------------------------- who carries a chain

  ghost function Executed(executions: seq<Execution>, chain: nat): nat {
    if executions == [] then 0
    else Executed(executions[..|executions| - 1], chain)
         + (if executions[|executions| - 1].chain == chain then 1 else 0)
  }

  lemma ExecutedAppended(executions: seq<Execution>, e: Execution, chain: nat)
    ensures Executed(executions + [e], chain) == Executed(executions, chain) + if e.chain == chain then 1 else 0
  {
    assert (executions + [e])[..|executions|] == executions;
  }

  lemma {:induction false} NeverExecuted(executions: seq<Execution>, chain: nat)
    requires forall i | 0 <= i < |executions| :: executions[i].chain != chain
    ensures Executed(executions, chain) == 0
  {
    if executions != [] {
      NeverExecuted(executions[..|executions| - 1], chain);
    }
  }

  /** One carrier per chain, and it knows how often the chain has acted. */
  ghost predicate OneCarrier(s: State) {
    && (forall t, u | t in s.tasks && u in s.tasks && t != u :: s.tasks[t].Chain() != s.tasks[u].Chain())
    && (forall k, l | k in s.store.data && l in s.store.data && k != l ::
          s.store.data[k].payload.chain != s.store.data[l].payload.chain)
    && (forall t, k | t in s.tasks && k in s.store.data :: s.tasks[t].Chain() != s.store.data[k].payload.chain)
  }

  ghost predicate Counted(s: State) {
    && (forall t | t in s.tasks :: s.tasks[t].Attempts() == Executed(s.executions, s.tasks[t].Chain()))
    && (forall k | k in s.store.data ::
          s.store.data[k].payload.attempts == Executed(s.executions, s.store.data[k].payload.chain))
    && (forall c: nat :: Executed(s.executions, c) <= MAX_ACTIONS)
  }

  ghost predicate Issued(s: State) {
    && (forall t | t in s.tasks :: t < s.issued && s.tasks[t].Chain() < s.issued)
    && (forall k | k in s.store.data :: s.store.data[k].payload.chain < s.issued)
    && (forall i | 0 <= i < |s.executions| :: s.executions[i].chain < s.issued)
  }

  /** Each record is popped at most once, and each pop licenses at most one execution. */
  ghost predicate Licensed(s: State) {
    && (forall k | k in s.store.data ::
          s.store.data[k].payload.id < s.records && s.store.data[k].payload.id !in s.consumed)
    && (forall k, l | k in s.store.data && l in s.store.data && k != l ::
          s.store.data[k].payload.id != s.store.data[l].payload.id)
    && (forall i | 0 <= i < |s.consumed| :: s.consumed[i] < s.records)
    && (forall i, j | 0 <= i < j < |s.consumed| :: s.consumed[i] != s.consumed[j])
  }

  ghost predicate Spent(s: State) {
    && (forall t | t in s.tasks && s.tasks[t].Deciding? ::
          s.tasks[t].pop < |s.consumed| && s.consumed[s.tasks[t].pop] == s.tasks[t].record.id)
    && (forall t, u | t in s.tasks && u in s.tasks && t != u && s.tasks[t].Deciding? && s.tasks[u].Deciding? ::
          s.tasks[t].pop != s.tasks[u].pop)
    && (forall i | 0 <= i < |s.executions| ::
          var e := s.executions[i];
          e.pop < |s.consumed| && s.consumed[e.pop] == e.record && e.owner == e.approver)
    && (forall i, j | 0 <= i < j < |s.executions| :: s.executions[i].pop != s.executions[j].pop)
    && (forall i, t | 0 <= i < |s.executions| && t in s.tasks && s.tasks[t].Deciding? ::
          s.executions[i].pop != s.tasks[t].pop)
  }

  ghost predicate Inv(s: State) {
    OneCarrier(s) && Counted(s) && Issued(s) && Licensed(s) && Spent(s)
  }

  /** Losing carriers keeps the ones that are left apart. */
  lemma FewerCarriers(s: State, n: State)
    requires OneCarrier(s) && Issued(s)
    requires Within(n.store.data, s.store.data) && s.issued <= n.issued && n.executions == s.executions
    requires forall t | t in n.tasks :: t in s.tasks && n.tasks[t] == s.tasks[t]
    ensures OneCarrier(n) && Issued(n)
  {
  }

  /** A request may be added for a chain nobody carries. */
  lemma OneMoreCarrier(s: State, n: State, task: Task)
    requires OneCarrier(s) && Issued(s) && task.Chain() <= s.issued
    requires n.tasks == s.tasks[s.issued := task] && n.issued == s.issued + 1
    requires n.store == s.store && n.executions == s.executions
    requires forall t | t in s.tasks :: s.tasks[t].Chain() != task.Chain()
    requires forall k | k in s.store.data :: s.store.data[k].payload.chain != task.Chain()
    ensures OneCarrier(n) && Issued(n)
  {
  }

  /** A request that moves on carries the same chain. */
  lemma SameCarrier(s: State, n: State, t: nat, task: Task)
    requires OneCarrier(s) && Issued(s) && t in s.tasks && task.Chain() == s.tasks[t].Chain()
    requires n.tasks == s.tasks[t := task] && n.store == s.store && n.issued == s.issued
    requires n.executions == s.executions
             || exists e :: n.executions == s.executions + [e] && e.chain == task.Chain()
    ensures OneCarrier(n) && Issued(n)
  {
    assert forall u | u in n.tasks :: u in s.tasks && n.tasks[u].Chain() == s.tasks[u].Chain();
  }

  /** Nobody else carries the chain of a parked record. */
  lemma OnlyCarrier(s: State, key: Key)
    requires OneCarrier(s) && Issued(s) && key in s.store.data
    ensures var chain := s.store.data[key].payload.chain;
            && chain < s.issued
            && (forall t | t in s.tasks :: s.tasks[t].Chain() != chain)
            && (forall k | k in s.store.data && k != key :: s.store.data[k].payload.chain != chain)
  {
  }

  lemma TakeKeepsCarrier(config: Config, s: State, step: Step)
    requires OneCarrier(s) && Issued(s) && step.Take?
    ensures OneCarrier(Next(config, s, step)) && Issued(Next(config, s, step))
  {
    PopFacts(s.store, config.ttl, step.key, s.now);
    var n := Next(config, s, step);
    var popped := s.(store := AfterPop(s.store, config.ttl, step.key, s.now), consumed := n.consumed);
    hide AfterPop, Pruned, Found, OneCarrier, Issued;
    FewerCarriers(s, popped);
    if Found(s.store, config.ttl, step.key, s.now).Some? {
      OnlyCarrier(s, step.key);
      OneMoreCarrier(popped, n, n.tasks[s.issued]);
    } else {
      assert n == popped;
    }
  }

  /** Parking takes the request away, and puts nothing into the store but its record. */
  lemma ParkFacts(config: Config, s: State, step: Step)
    requires step.Park? && Next(config, s, step) != s
    ensures var n := Next(config, s, step);
            && step.task in s.tasks && s.tasks[step.task].Proposing?
            && n == Without(s, step.task).(store := n.store, records := s.records + 1)
            && forall k | k in n.store.data ::
                 || (k in s.store.data && n.store.data[k] == s.store.data[k])
                 || (k == KeyFor(s.tasks[step.task]) && n.store.data[k] == RecordFor(s, step.task, step.createdAt))
  {
    var n, key := Next(config, s, step), KeyFor(s.tasks[step.task]);
    PutFacts(s.store, config.ttl, key, RecordFor(s, step.task, step.createdAt), s.now);
    hide AfterPut, Pruned, CanPut;
    assert forall k | k in n.store.data && k != key :: k in n.store.data - {key};
  }

  lemma ParkKeepsCarrier(config: Config, s: State, step: Step)
    requires OneCarrier(s) && Issued(s) && step.Park?
    ensures OneCarrier(Next(config, s, step)) && Issued(Next(config, s, step))
  {
    hide Next, AfterPut;
    if Next(config, s, step) != s {
      ParkFacts(config, s, step);
    }
  }

  predicate Moves(step: Step) {
    step.Ask? || step.Execute? || step.Settle? || step.Decline?
  }

  /** Whatever a request does next, its chain stays; only an execution changes its count. */
  lemma MoveFacts(config: Config, s: State, step: Step)
    requires Moves(step) && step.task in s.tasks
    ensures var n := Next(config, s, step);
            && n.store == s.store && n.issued == s.issued && n.records == s.records && n.consumed == s.consumed
            && (step.task !in n.tasks ==> n.tasks == s.tasks - {step.task})
            && (step.task in n.tasks ==>
                  && n.tasks == s.tasks[step.task := n.tasks[step.task]]
                  && n.tasks[step.task].Chain() == s.tasks[step.task].Chain())
            && (!step.Execute? ==>
                  && n.executions == s.executions
                  && (step.task in n.tasks ==> n.tasks[step.task].Attempts() == s.tasks[step.task].Attempts())
                  && (step.task in n.tasks && n.tasks[step.task] != s.tasks[step.task] ==>
                        !n.tasks[step.task].Deciding?))
            && (step.Execute? && n.executions != s.executions ==>
                  && step.task in n.tasks
                  && exists e :: n.executions == s.executions + [e] && e.chain == n.tasks[step.task].Chain())
  {
    hide Turn, FirstProposal, AnyRefused, Requested, CanPut;
    if step.Execute? && Next(config, s, step) != s {
      var n := Next(config, s, step);
      var e := n.executions[|s.executions|];
      assert n.executions == s.executions + [e];
    }
  }

  lemma LocalKeepsCarrier(config: Config, s: State, step: Step)
    requires OneCarrier(s) && Issued(s) && !step.Park? && !step.Take?
    ensures OneCarrier(Next(config, s, step)) && Issued(Next(config, s, step))
  {
    var n := Next(config, s, step);
    if Moves(step) && step.task in s.tasks {
      MoveFacts(config, s, step);
      hide Next, OneCarrier, Issued;
      if step.task in n.tasks {
        SameCarrier(s, n, step.task, n.tasks[step.task]);
      } else {
        FewerCarriers(s, n);
      }
    } else if step.Chat? {
      hide OneCarrier;
      OneMoreCarrier(s, n, n.tasks[s.issued]);
    } else {
      PopFacts(s.store, config.ttl, ("", ""), s.now);
      hide Pruned, OneCarrier, Issued;
      FewerCarriers(s, n);
    }
  }

  lemma ExecuteKeepsCount(config: Config, s: State, step: Step)
    requires OneCarrier(s) && Counted(s) && step.Execute?
    ensures Counted(Next(config, s, step))
  {
    var n := Next(config, s, step);
    if n != s {
      var e := n.executions[|s.executions|];
      forall c: nat
        ensures Executed(n.executions, c) == Executed(s.executions, c) + if e.chain == c then 1 else 0
      {
        ExecutedAppended(s.executions, e, c);
      }
      hide Executed;
    }
  }

  /** Without an execution, requests and records keep their counts as long as their chains' are known. */
  lemma SameCounts(s: State, n: State)
    requires Counted(s) && n.executions == s.executions
    requires forall t | t in n.tasks :: n.tasks[t].Attempts() == Executed(s.executions, n.tasks[t].Chain())
    requires forall k | k in n.store.data ::
               n.store.data[k].payload.attempts == Executed(s.executions, n.store.data[k].payload.chain)
    ensures Counted(n)
  {
  }

  lemma StoreStepsKeepCount(config: Config, s: State, step: Step)
    requires Counted(s) && (step.Take? || step.Park? || step.Look?)
    ensures Counted(Next(config, s, step))
  {
    hide AfterPut, AfterPop, Pruned, Found, Executed;
    if step.Park? {
      hide Next;
      if Next(config, s, step) != s {
        ParkFacts(config, s, step);
      }
    } else {
      PopFacts(s.store, config.ttl, if step.Take? then step.key else ("", ""), s.now);
    }
    SameCounts(s, Next(config, s, step));
  }

  lemma OthersKeepCount(config: Config, s: State, step: Step)
    requires Issued(s) && Counted(s) && !step.Execute?
    ensures Counted(Next(config, s, step))
  {
    var n := Next(config, s, step);
    hide Executed;
    if step.Take? || step.Park? || step.Look? {
      hide Counted, Next;
      StoreStepsKeepCount(config, s, step);
    } else if Moves(step) && step.task in s.tasks {
      MoveFacts(config, s, step);
      hide Next;
      SameCounts(s, n);
    } else {
      if step.Chat? {
        NeverExecuted(s.executions, s.issued);
      }
      SameCounts(s, n);
    }
  }

  lemma TakeKeepsLicence(config: Config, s: State, step: Step)
    requires Licensed(s) && step.Take?
    ensures Licensed(Next(config, s, step))
  {
    hide AfterPop, Pruned, Found;
    PopFacts(s.store, config.ttl, step.key, s.now);
  }

  lemma ParkKeepsLicence(config: Config, s: State, step: Step)
    requires Licensed(s) && step.Park?
    ensures Licensed(Next(config, s, step))
  {
    hide Next, AfterPut;
    if Next(config, s, step) != s {
      ParkFacts(config, s, step);
    }
  }

  lemma FewerLicences(s: State, n: State)
    requires Licensed(s) && n.consumed == s.consumed && n.records == s.records
    requires Within(n.store.data, s.store.data)
    ensures Licensed(n)
  {
  }

  lemma OthersKeepLicence(config: Config, s: State, step: Step)
    requires Licensed(s) && !step.Take? && !step.Park?
    ensures Licensed(Next(config, s, step))
  {
    hide Licensed, Pruned, AfterReply, Resumed;
    PopFacts(s.store, config.ttl, ("", ""), s.now);
    FewerLicences(s, Next(config, s, step));
  }

  lemma TakeKeepsSpent(config: Config, s: State, step: Step)
    requires Spent(s) && Issued(s) && step.Take?
    ensures Spent(Next(config, s, step))
  {
    hide AfterPop, Pruned, Found;
    var n := Next(config, s, step);
    assert n.executions == s.executions && s.consumed <= n.consumed;
    assert forall t | t in n.tasks && t != s.issued :: t in s.tasks && n.tasks[t] == s.tasks[t];
  }

  lemma ExecuteKeepsSpent(config: Config, s: State, step: Step)
    requires Spent(s) && step.Execute?
    ensures Spent(Next(config, s, step))
  {
  }

  /** No new decision and no execution: nothing is spent. */
  lemma SameSpending(s: State, n: State)
    requires Spent(s) && n.consumed == s.consumed && n.executions == s.executions
    requires forall t | t in n.tasks && n.tasks[t].Deciding? :: t in s.tasks && n.tasks[t] == s.tasks[t]
    ensures Spent(n)
  {
  }

  lemma OthersKeepSpent(config: Config, s: State, step: Step)
    requires Spent(s) && !step.Take? && !step.Execute?
    ensures Spent(Next(config, s, step))
  {
    var n := Next(config, s, step);
    if Moves(step) && step.task in s.tasks {
      MoveFacts(config, s, step);
    }
    hide Spent, AfterReply, AfterPut, Pruned;
    SameSpending(s, n);
  }

  lemma NextKeepsInv(config: Config, s: State, step: Step)
    requires Inv(s)
    ensures Inv(Next(config, s, step))
  {
    hide Next, OneCarrier, Counted, Issued, Licensed, Spent;
    match step {
      case Take(_, _) =>
        TakeKeepsCarrier(config, s, step);
        OthersKeepCount(config, s, step);
        TakeKeepsLicence(config, s, step);
        TakeKeepsSpent(config, s, step);
      case Park(_, _) =>
        ParkKeepsCarrier(config, s, step);
        OthersKeepCount(config, s, step);
        ParkKeepsLicence(config, s, step);
        OthersKeepSpent(config, s, step);
      case Execute(_) =>
        LocalKeepsCarrier(config, s, step);
        ExecuteKeepsCount(config, s, step);
        OthersKeepLicence(config, s, step);
        ExecuteKeepsSpent(config, s, step);
      case _ =>
        LocalKeepsCarrier(config, s, step);
        OthersKeepCount(config, s, step);
        OthersKeepLicence(config, s, step);
        OthersKeepSpent(config, s, step);
    }
  }

  lemma {:induction false} RunKeepsInv(config: Config, s: State, steps: seq<Step>)
    requires Inv(s)
    ensures Inv(Run(config, s, steps))
  {
    hide Next, Inv;
    if steps != [] {
      RunKeepsInv(config, s, steps[..|steps| - 1]);
      NextKeepsInv(config, Run(config, s, steps[..|steps| - 1]), steps[|steps| - 1]);
    }
  }

  lemma EmptyInv(now: int)
    ensures Inv(Empty(now))
  {
  }

  /** The whole chain of resumptions descending from one chat executes at most two mutations. */
  lemma BudgetPerChain(config: Config, now: int, steps: seq<Step>, chain: nat)
    ensures Executed(Run(config, Empty(now), steps).executions, chain) <= 2
  {
    EmptyInv(now);
    RunKeepsInv(config, Empty(now), steps);
    hide Run, OneCarrier, Licensed, Spent;
  }

  /**
   Every mutation was licensed: it came out of one pop of one parked record, the record's own user
   approved it, no other mutation came out of that pop, and that record was popped only that once.
   */
  lemma EveryMutationIsLicensed(config: Config, now: int, steps: seq<Step>, i: nat)
    requires i < |Run(config, Empty(now), steps).executions|
    ensures var s := Run(config, Empty(now), steps);
            var e := s.executions[i];
            && e.pop < |s.consumed| && s.consumed[e.pop] == e.record
            && e.approver == e.owner
            && (forall j | 0 <= j < |s.executions| && j != i :: s.executions[j].pop != e.pop)
            && (forall p | 0 <= p < |s.consumed| && p != e.pop :: s.consumed[p] != e.record)
  {
    EmptyInv(now);
    RunKeepsInv(config, Empty(now), steps);
    hide Run, OneCarrier, Counted;
  }

  // ---------------------------------------------------------------------- which calls are parked and executed

  /** A registered tool that is not just for looking. */
  ghost predicate Mutation(config: Config, tool: string) {
    tool in config.registry && !config.registry[tool].readonly
  }

  /**
   What may be put before a human: a mutation this role may use, within the budget, and if it destroys something
   only when the user asked for just that in the last message.
   */
  ghost predicate Vetted(config: Config, admin: bool, attempts: nat, messages: seq<Message>, tool: string) {
    && Mutation(config, tool)
    && (config.registry[tool].admin ==> admin)
    && attempts < 2
    && (tool in {"reset_pipeline_offsets", "purge_dlq", "cancel_job"} ==> AskedFor(messages, tool))
  }

  ghost predicate RecordVetted(config: Config, r: Pending) {
    Vetted(config, r.admin, r.attempts, r.messages, r.tool)
  }

  ghost predicate TaskVetted(config: Config, task: Task) {
    match task
    case Looping(_, _, _, _, _, _) => true
    case Proposing(_, caller, attempts, messages, _, _, tool) => Vetted(config, caller.admin, attempts, messages, tool)
    case Deciding(record, _, _) => RecordVetted(config, record)
    case Acting(record, _) => RecordVetted(config, record)
  }

  ghost predicate ExecutionVetted(config: Config, e: Execution) {
    Mutation(config, e.tool) && (config.registry[e.tool].admin ==> e.byAdmin)
  }

  ghost predicate AllVetted(config: Config, s: State) {
    && (forall t | t in s.tasks :: TaskVetted(config, s.tasks[t]))
    && (forall k | k in s.store.data :: RecordVetted(config, s.store.data[k].payload))
    && (forall i | 0 <= i < |s.executions| :: ExecutionVetted(config, s.executions[i]))
  }

  /** The verdict on a call: parked exactly if vetted, noted as refused exactly if any other mutation. */
  lemma VerdictIs(config: Config, admin: bool, attempts: nat, messages: seq<Message>, call: ToolCall)
    ensures var v := VerdictOn(config, admin, attempts, Requested(messages), call);
            && (v.Proposed? <==> Vetted(config, admin, attempts, messages, call.name))
            && (v.Refused? <==> Mutation(config, call.name) && !Vetted(config, admin, attempts, messages, call.name))
            && (v.Runs? <==> call.name in config.registry && config.registry[call.name].readonly
                             && (config.registry[call.name].admin ==> admin))
  {
    RequestedIff(messages, call.name);
  }

  /** This call of the reply is the first that is vetted, and the request is about to park it. */
  ghost predicate ProposesAt(config: Config, task: Task, calls: seq<ToolCall>, n: Task, k: nat)
    requires task.Looping?
  {
    && k < |calls| && n.Proposing?
    && Vetted(config, task.caller.admin, task.attempts, task.messages, calls[k].name)
    && (forall j | 0 <= j < k :: !Vetted(config, task.caller.admin, task.attempts, task.messages, calls[j].name))
    && n.tool == calls[k].name && n.callId == AnswerId(calls[k], task.round)
    && n.last == RecordAfter(config, calls[..k], task.last)
  }

  /** No mutation is executed in the loop, so one that was named and not parked makes the record say so. */
  ghost function RecordAfter(config: Config, calls: seq<ToolCall>, last: Option<Outcome>): Option<Outcome> {
    if AnyMutation(config, calls) then Some(ActionNotExecuted) else last
  }

  ghost predicate AnyMutation(config: Config, calls: seq<ToolCall>) {
    exists j: nat | j < |calls| :: Mutation(config, calls[j].name)
  }

  /** What a reply leads to: the first vetted call is parked, and without one the loop goes on. */
  lemma ReplyLeadsTo(config: Config, task: Task, calls: seq<ToolCall>)
    requires task.Looping?
    ensures var n := AfterReply(config, task, calls);
            && n.Chain() == task.chain && n.caller == task.caller && n.attempts == task.attempts
            && Requested(n.messages) == Requested(task.messages)
            && if n.Looping? then
                 && n.last == RecordAfter(config, calls, task.last)
                 && forall j | 0 <= j < |calls| ::
                      !Vetted(config, task.caller.admin, task.attempts, task.messages, calls[j].name)
               else exists k: nat :: ProposesAt(config, task, calls, n, k)
  {
    var asked := Requested(task.messages);
    var k := FirstProposal(config, task.caller.admin, task.attempts, asked, calls);
    forall j | 0 <= j < |calls|
      ensures VerdictOn(config, task.caller.admin, task.attempts, asked, calls[j]).Proposed?
              <==> Vetted(config, task.caller.admin, task.attempts, task.messages, calls[j].name)
    {
      VerdictIs(config, task.caller.admin, task.attempts, task.messages, calls[j]);
    }
    RecordIs(config, task, calls, k);
    hide VerdictOn, Vetted, Mutation, RecordAfter, AnyRefused, Requested, Turn;
    if k == |calls| {
      RequestedInTurn(task.messages, calls, k, task.round);
      assert calls[..k] == calls;
    } else {
      RequestedInTurn(task.messages, calls[..k + 1], k, task.round);
      assert ProposesAt(config, task, calls, AfterReply(config, task, calls), k);
    }
  }

  /** Before the first proposal the refused calls are the mutations. */
  lemma RecordIs(config: Config, task: Task, calls: seq<ToolCall>, k: nat)
    requires task.Looping?
    requires k <= FirstProposal(config, task.caller.admin, task.attempts, Requested(task.messages), calls)
    ensures RecordAfter(config, calls[..k], task.last)
            == if AnyRefused(config, task.caller.admin, task.attempts, Requested(task.messages), calls[..k])
               then Some(ActionNotExecuted) else task.last
  {
    var front := calls[..k];
    forall j | 0 <= j < k
      ensures VerdictOn(config, task.caller.admin, task.attempts, Requested(task.messages), front[j]).Refused?
              <==> Mutation(config, front[j].name)
    {
      VerdictIs(config, task.caller.admin, task.attempts, task.messages, front[j]);
      assert front[j] == calls[j];
    }
    hide VerdictOn, Mutation, FirstProposal;
  }

  lemma SameAsked(config: Config, admin: bool, attempts: nat, ms: seq<Message>, ns: seq<Message>, tool: string)
    requires Requested(ms) == Requested(ns) && Vetted(config, admin, attempts, ms, tool)
    ensures Vetted(config, admin, attempts, ns, tool)
  {
    RequestedIff(ms, tool);
    RequestedIff(ns, tool);
  }

  lemma ReplyVetted(config: Config, task: Task, calls: seq<ToolCall>)
    requires task.Looping?
    ensures TaskVetted(config, AfterReply(config, task, calls))
  {
    ReplyLeadsTo(config, task, calls);
    hide AfterReply, Vetted, Requested, RecordAfter;
    var n := AfterReply(config, task, calls);
    if !n.Looping? {
      var k: nat :| ProposesAt(config, task, calls, n, k);
      SameAsked(config, task.caller.admin, task.attempts, task.messages, n.messages, n.tool);
    }
  }

  lemma NextKeepsVetted(config: Config, s: State, step: Step)
    requires AllVetted(config, s)
    ensures AllVetted(config, Next(config, s, step))
  {
    hide Vetted, AfterReply, AfterPut, AfterPop, Pruned, Found;
    var n := Next(config, s, step);
    match step {
      case Ask(t, reply) =>
        if t in s.tasks && s.tasks[t].Looping? && reply.Some? {
          ReplyVetted(config, s.tasks[t], reply.value);
        }
      case Park(t, _) =>
        if n != s {
          ParkFacts(config, s, step);
          assert TaskVetted(config, s.tasks[t]);
        }
      case Take(_, key) => PopFacts(s.store, config.ttl, key, s.now);
      case Look => PopFacts(s.store, config.ttl, ("", ""), s.now);
      case Execute(t) =>
        if t in s.tasks {
          assert TaskVetted(config, s.tasks[t]);
          ExecuteVetted(config, s.tasks[t]);
        }
      case _ =>
    }
  }

  lemma ExecuteVetted(config: Config, task: Task)
    requires TaskVetted(config, task)
    ensures MayExecute(config, task) ==>
              Mutation(config, task.record.tool) && (config.registry[task.record.tool].admin ==> task.caller.admin)
  {
  }

  /**
   In every run: whatever is about to be parked, is parked, or is being decided about is a mutation its proposer's
   role may use, was proposed within the budget and, if it destroys something, on the user's last word; and
   whatever was executed is a mutation that the role of the one who approved it may use.
   */
  lemma {:induction false} NothingElseIsParked(config: Config, now: int, steps: seq<Step>)
    ensures AllVetted(config, Run(config, Empty(now), steps))
  {
    hide Next, AllVetted;
    if steps == [] {
      EmptyVetted(config, now);
    } else {
      NothingElseIsParked(config, now, steps[..|steps| - 1]);
      NextKeepsVetted(config, Run(config, Empty(now), steps[..|steps| - 1]), steps[|steps| - 1]);
    }
  }

  lemma EmptyVetted(config: Config, now: int)
    ensures AllVetted(config, Empty(now))
  {
  }

  // ---------------------------------------------------------------------- the messages

  /** Exactly one call of a parked history has no answer yet, and it is the parked one. */
  ghost predicate Waiting(messages: seq<Message>, callId: string) {
    Outstanding(messages) == Some([callId])
  }

  ghost predicate TaskTalks(task: Task) {
    match task
    case Looping(_, _, _, messages, _, _) => WellFormed(messages)
    case Proposing(_, _, _, messages, _, callId, _) => Waiting(messages, callId)
    case Deciding(record, _, _) => Waiting(record.messages, record.callId)
    case Acting(record, _) => Waiting(record.messages, record.callId)
  }

  ghost predicate Talks(s: State) {
    && (forall t | t in s.tasks :: TaskTalks(s.tasks[t]))
    && (forall k | k in s.store.data ::
          var r := s.store.data[k].payload; Waiting(r.messages, r.callId) && r.callId == k.1)
    && (forall i | 0 <= i < |s.prompts| :: WellFormed(s.prompts[i].messages))
  }

  /** What comes from outside: a chat whose history is well formed, and a reply that names its calls. */
  ghost predicate Civil(step: Step) {
    && (step.Chat? ==> WellFormed(step.history))
    && (step.Ask? && step.reply.Some? ==> Named(step.reply.value))
  }

  lemma {:induction false} PrefixedBySystem(ms: seq<Message>)
    ensures Outstanding([System] + ms) == Outstanding(ms)
  {
    if ms == [] {
      OutstandingAppended([], System);
      assert [] + [System] == [System] + ms;
    } else {
      var front, m := ms[..|ms| - 1], ms[|ms| - 1];
      PrefixedBySystem(front);
      assert [System] + ms == [System] + front + [m];
      OutstandingAppended([System] + front, m);
    }
  }

  /** The first prompt of a chat is well formed exactly when the history it was sent is. */
  lemma FirstPromptIff(history: seq<Message>, asks: set<string>)
    ensures WellFormed(FirstMessages(history, asks)) <==> WellFormed(history)
  {
    PrefixedBySystem(history);
    OutstandingAppended([System] + history, User(asks));
  }

  /** Answering the parked call completes the list. */
  lemma AnsweringCompletes(messages: seq<Message>, callId: string)
    requires Waiting(messages, callId)
    ensures WellFormed(messages + [Answer(callId)])
  {
    OutstandingAppended(messages, Answer(callId));
    assert [callId][1..] == [];
  }

  /** A named reply leaves a whole turn behind, or one open call, the one to be parked. */
  lemma ReplyTalks(config: Config, task: Task, calls: seq<ToolCall>)
    requires task.Looping? && WellFormed(task.messages) && Named(calls)
    ensures TaskTalks(AfterReply(config, task, calls))
  {
    var k := FirstProposal(config, task.caller.admin, task.attempts, Requested(task.messages), calls);
    hide WellFormed, Turn, FirstProposal, AnyRefused, Named;
    if k == |calls| {
      TurnWellFormedIffNamed(task.messages, calls, task.round);
    } else {
      CutTurnLeavesOne(task.messages, calls, k, task.round);
    }
  }

  lemma AskTalks(config: Config, s: State, step: Step)
    requires Talks(s) && Civil(step) && step.Ask?
    ensures Talks(Next(config, s, step))
  {
    hide WellFormed, Waiting, AfterReply, Named;
    var n := Next(config, s, step);
    if n != s {
      assert TaskTalks(s.tasks[step.task]);
      if step.reply.Some? && step.reply.value != [] {
        ReplyTalks(config, s.tasks[step.task], step.reply.value);
      }
    }
  }

  lemma DecisionTalks(config: Config, s: State, step: Step)
    requires Talks(s) && (step.Settle? || step.Decline? || step.Execute?)
    ensures Talks(Next(config, s, step))
  {
    hide WellFormed, Waiting;
    var n := Next(config, s, step);
    if n != s {
      var record := s.tasks[step.task].record;
      assert TaskTalks(s.tasks[step.task]);
      AnsweringCompletes(record.messages, record.callId);
    }
  }

  lemma StoreStepTalks(config: Config, s: State, step: Step)
    requires Talks(s) && (step.Take? || step.Park? || step.Look?)
    ensures Talks(Next(config, s, step))
  {
    hide WellFormed, Waiting, AfterPut, AfterPop, Pruned, Found;
    if step.Park? {
      hide Next;
      if Next(config, s, step) != s {
        ParkFacts(config, s, step);
        assert TaskTalks(s.tasks[step.task]);
      }
    } else {
      PopFacts(s.store, config.ttl, if step.Take? then step.key else ("", ""), s.now);
    }
  }

  lemma CivilStepTalks(config: Config, s: State, step: Step)
    requires Talks(s) && Civil(step)
    ensures Talks(Next(config, s, step))
  {
    match step {
      case Ask(_, _) => AskTalks(config, s, step);
      case Execute(_) => DecisionTalks(config, s, step);
      case Settle(_, _) => DecisionTalks(config, s, step);
      case Decline(_) => DecisionTalks(config, s, step);
      case Take(_, _) => StoreStepTalks(config, s, step);
      case Park(_, _) => StoreStepTalks(config, s, step);
      case Look => StoreStepTalks(config, s, step);
      case Chat(_, history, asks) =>
        FirstPromptIff(history, asks);
        hide WellFormed, Waiting, FirstMessages;
      case _ =>
        hide WellFormed, Waiting;
    }
  }

  lemma {:induction false} CivilRunTalks(config: Config, s: State, steps: seq<Step>)
    requires Talks(s) && forall i | 0 <= i < |steps| :: Civil(steps[i])
    ensures Talks(Run(config, s, steps))
  {
    hide Next, Talks, Civil;
    if steps != [] {
      CivilRunTalks(config, s, steps[..|steps| - 1]);
      CivilStepTalks(config, Run(config, s, steps[..|steps| - 1]), steps[|steps| - 1]);
    }
  }

  /**
   Across parking and resuming, in every run: if each chat comes with a well-formed history and each reply
   names its calls, then every prompt ever sent is well formed, and every parked history has exactly one
   open call, the one its key names.
   */
  lemma MessagesStayWellFormed(config: Config, now: int, steps: seq<Step>)
    requires forall i | 0 <= i < |steps| :: Civil(steps[i])
    ensures var s := Run(config, Empty(now), steps);
            && (forall i | 0 <= i < |s.prompts| :: WellFormed(s.prompts[i].messages))
            && (forall k | k in s.store.data ::
                  Waiting(s.store.data[k].payload.messages, k.1) && s.store.data[k].payload.callId == k.1)
  {
    CivilRunTalks(config, Empty(now), steps);
  }
}

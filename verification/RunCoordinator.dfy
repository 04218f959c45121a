/**
 The bounded run: answer the open question, decide at most a fixed number of times, persist one
 response (dataworks_agent/agent/run_coordinator.py). Decisions, tools and card texts are inputs.
 */
module RunCoordinator {
  import opened Values
  import opened Text
  import opened Interactions
  import opened Conversation
  import opened ContextResolver

  datatype AgentMode =
    | NoMode | GreetingMode | ExplainMode | CancelledMode | ResetMode | NeedsContext | UnknownMode
    | ToolResultMode | WaitingMode | RecoverableMode | TableSelected | BoundedStop | BlockedMode
    | OtherMode(name: string)

  /** A response; interaction None is a missing or null entry, Some(None) the empty dictionary. */
  datatype Reply = Reply(
    message: string, success: bool, mode: AgentMode, interaction: Option<Card>, selectedResources: Dict,
    data: Dict, error: string)

  /** An exception that reaches the caller is Raised. */
  datatype RunOutcome = Replied(reply: Reply) | Raised

  datatype ToolResult = ToolResult(
    success: bool, message: string, interaction: Option<Card>, mode: Option<AgentMode>, selectedResources: Dict,
    data: Dict, errorCode: string, recoverable: bool, uncertainWrite: bool, retryId: string)

  /** What the decision provider may answer; a reply of a decision already holds the decision's data. */
  datatype Decision =
    | UseTool(result: ToolResult)
    | Respond(reply: Reply)
    | AskBack(reply: Reply)
    | Delegate(legacy: Option<Reply>)
    | ProviderThrows
    | DelegateThrows
    | Unrecognised

  datatype RunInput = RunInput(
    message: string, answer: Option<InteractionAnswer>, isTableDiscovery: bool, isGreeting: bool,
    resolved: ResolvedTurn, decisions: seq<Decision>, entry: PendingInteraction, nextAction: PendingInteraction)

  function CardOf(interaction: Option<Card>): Card {
    if interaction.Some? then interaction.value else None
  }

  function Restamped(card: PendingInteraction, version: nat): Option<Card> {
    Some(Some(card.(stateVersion := version)))
  }

  // ----- the stages of a run -----

  function Enter(c: Checkpoint, input: RunInput): Checkpoint {
    if input.answer.None? && input.isTableDiscovery && View(c).objective != ""
       && input.message != Strip(View(c).objective) then StartGoalStep(c, input.message)
    else c
  }

  predicate TakesCustomText(purpose: string) {
    purpose == "refine_table_search" || purpose == "select_layer" || purpose == "select_table"
  }

  /** The answer this run gives: the client's, the typed one, or the message as custom text. */
  function ChosenAnswer(c: Checkpoint, input: RunInput): Result<Option<InteractionAnswer>, AnswerError> {
    if input.answer.Some? then Ok(input.answer)
    else if c.pendingInteraction.None? then Ok(None)
    else if input.resolved.answer.Some? then Ok(input.resolved.answer)
    else
      var pending := c.pendingInteraction.value;
      if pending.allowCustomInput && TakesCustomText(pending.purpose)
         && input.resolved.action != Greeting && input.resolved.action != Explain then
        match ValidateAnswer(InteractionAnswer(pending.interactionId, None, Some(input.message), pending.stateVersion))
        case Ok(answer) => Ok(Some(answer))
        case Err(e) => Err(e)
      else Ok(None)
  }

  function RetryCard(result: ToolResult): PendingInteraction {
    PendingInteraction(result.retryId, FreeText, "refine_table_search", result.message, [], true,
                       "\U{8F93}\U{5165}", Pending, 1)
  }

  function ToolResponse(result: ToolResult): RunOutcome {
    var mode := if result.uncertainWrite then UnknownMode
                else if result.success then ToolResultMode
                else if result.recoverable then RecoverableMode else BlockedMode;
    var error := if result.uncertainWrite then "execution_unknown"
                 else if result.success then "" else OrElse(result.errorCode, "tool_failed");
    var needsRetry := !result.success && result.recoverable && CardOf(result.interaction).None?;
    if needsRetry && !ValidCard(RetryCard(result)) then Raised
    else
      Replied(Reply(result.message, result.success, Given(result.mode, mode),
                    if needsRetry then Some(Some(RetryCard(result))) else result.interaction,
                    result.selectedResources, result.data, error))
  }

  function GreetingReply(state: Context, entry: PendingInteraction): Reply {
    Reply("", true, GreetingMode,
          if state.pendingInteraction.Some? then Some(state.pendingInteraction)
          else Restamped(entry, state.stateVersion + 1),
          map[], map[], "")
  }

  function ClarifyReply(state: Context, entry: PendingInteraction): Reply {
    Reply("", false, NeedsContext, Restamped(entry, state.stateVersion + 1), map[], map[], "ambiguous_context")
  }

  const BOUNDED_STOP := Reply("", false, BoundedStop, None, map[], map[], "decision_limit_reached")

  function Carry(decision: Decision, state: Context, entry: PendingInteraction): RunOutcome
    requires !decision.Unrecognised?
  {
    match decision
    case UseTool(result) => ToolResponse(result)
    case Respond(reply) => Replied(reply)
    case AskBack(reply) => Replied(if reply.mode == NoMode then reply.(mode := NeedsContext) else reply)
    case Delegate(legacy) => Replied(if legacy.Some? then legacy.value else ClarifyReply(state, entry))
    case ProviderThrows | DelegateThrows => Raised
  }

  /** The first recognised decision among those from index on, below the bound. */
  function Decide(decisions: seq<Decision>, index: nat, bound: nat): (r: Decision)
    decreases bound - index
  {
    if index >= bound then Unrecognised
    else if index < |decisions| && !decisions[index].Unrecognised? then decisions[index]
    else Decide(decisions, index + 1, bound)
  }

  function Response(state: Context, input: RunInput, maxDecisions: nat): RunOutcome {
    if input.isGreeting then Replied(GreetingReply(state, input.entry))
    else
      var decision := Decide(input.decisions, 0, maxDecisions);
      if decision.Unrecognised? then Replied(BOUNDED_STOP) else Carry(decision, state, input.entry)
  }

  /** A chosen table is always followed by the question what to do with it. */
  function WithNextAction(reply: Reply, state: Context, input: RunInput): Reply {
    if reply.mode == TableSelected
    then reply.(interaction := Restamped(input.nextAction, state.stateVersion + 1)) else reply
  }

  function StatusFor(mode: AgentMode, state: Context): TaskStatus {
    if mode == UnknownMode then ExecutionUnknown
    else if mode == RecoverableMode then RecoverableError
    else if mode == GreetingMode && state.taskStatus == NoStatus then Idle
    else if state.taskStatus == NoStatus then Active else state.taskStatus
  }

  /** Modes that do not make the message an objective. */
  predicate IsChatter(mode: AgentMode) {
    mode == GreetingMode || mode == ExplainMode || mode == NeedsContext
  }

  predicate IsTableTurn(mode: AgentMode) {
    mode == ToolResultMode || mode == WaitingMode || mode == RecoverableMode
  }

  function PersistArgs(state: Context, message: string, reply: Reply): RememberArgs {
    RememberArgs(
      if state.objective == "" && !IsChatter(reply.mode) then message
      else state.objective,
      CardOf(reply.interaction).Some?,
      if IsTableTurn(reply.mode) then Some("find_table") else None,
      None, None, Some(CardOf(reply.interaction)),
      Some(state.selectedResources + reply.selectedResources),
      Some(map["success" := Bool(reply.success), "error" := Str(reply.error)]),
      Some(map["content" := Str(reply.message)]),
      None, None, Some(StatusFor(reply.mode, state)), None)
  }

  /** What the user sees: the persisted card, except after a greeting. */
  function Shown(reply: Reply, persisted: Context): Reply {
    if reply.mode != GreetingMode && persisted.pendingInteraction.Some?
    then reply.(interaction := Some(persisted.pendingInteraction)) else reply
  }

  function ExpiredReply(now: Context): Reply {
    Reply("", false, NoMode, if now.pendingInteraction.Some? then Some(now.pendingInteraction) else None,
          map[], map[], "interaction_expired")
  }

  lemma UncheckedRememberSucceeds(c: Checkpoint, a: RememberArgs)
    requires a.expectedVersion.None?
    ensures RememberStep(c, a).Ok?
  {
  }

  function Persist(c: Checkpoint, message: string, reply: Reply): Checkpoint {
    RememberStep(c, PersistArgs(View(c), message, reply)).value
  }

  function Finish(c: Checkpoint, input: RunInput, maxDecisions: nat): (Checkpoint, RunOutcome) {
    match Response(View(c), input, maxDecisions)
    case Raised => (c, Raised)
    case Replied(first) =>
      var reply := WithNextAction(first, View(c), input);
      var next := Persist(c, input.message, reply);
      (next, Replied(Shown(reply, View(next))))
  }

  /** The state a response is composed for, once the open question has been answered if it is answered at all. */
  function AfterAnswer(c: Checkpoint, input: RunInput): Result<Checkpoint, RunOutcome> {
    match ChosenAnswer(c, input)
    case Err(_) => Err(Raised)
    case Ok(chosen) =>
      if chosen.None? then Ok(c)
      else
        match AnswerStep(c, chosen.value)
        case Ok(success) => Ok(success.0)
        case Err(e) => Err(Unanswered(c, e))
  }

  function Proceed(c: Checkpoint, input: RunInput, maxDecisions: nat): (Checkpoint, RunOutcome) {
    match AfterAnswer(c, input)
    case Err(outcome) => (c, outcome)
    case Ok(next) => Finish(next, input, maxDecisions)
  }

  function Unanswered(c: Checkpoint, e: GraphError): RunOutcome {
    if e.AnswerRefused? && e.reason.InteractionExpired? then Replied(ExpiredReply(View(c))) else Raised
  }

  /** The whole run on one checkpoint. */
  function RunSpec(c: Checkpoint, input: RunInput, maxDecisions: nat): (Checkpoint, RunOutcome) {
    Proceed(Enter(c, input), input, maxDecisions)
  }

  /** A run without a conversation: nothing is read, nothing is stored, and no answer is accepted. */
  function AnonymousFinish(input: RunInput, maxDecisions: nat): RunOutcome {
    match Response(View(FRESH), input, maxDecisions)
    case Raised => Raised
    case Replied(first) => Replied(WithNextAction(first, View(FRESH), input))
  }

  function AnonymousRun(input: RunInput, maxDecisions: nat): RunOutcome {
    match AfterAnswer(FRESH, input)
    case Err(outcome) => outcome
    case Ok(_) => AnonymousFinish(input, maxDecisions)
  }

  // ----- the coordinator -----

  datatype EventKind =
    | RunStarted | DecisionStarted(index: nat) | DecisionCompleted | ToolStarted | ToolCompleted
    | StatePersisted(version: nat) | ResponseCompleted

  datatype RunEvent = RunEvent(kind: EventKind, sequence: nat)

  function DecisionsStarted(events: seq<RunEvent>): nat {
    if events == [] then 0
    else DecisionsStarted(events[..|events| - 1]) + (if events[|events| - 1].kind.DecisionStarted? then 1 else 0)
  }

  /** Numbered 1, 2, ... from a run.started, nothing completed yet. */
  predicate OngoingRun(events: seq<RunEvent>) {
    && events != [] && events[0].kind == RunStarted
    && (forall i :: 0 <= i < |events| ==> events[i].sequence == i + 1)
    && (forall i :: 0 <= i < |events| ==> !events[i].kind.ResponseCompleted?)
    && (forall i :: 1 <= i < |events| ==> !events[i].kind.RunStarted?)
  }

  /** A numbered run that ends with its only response.completed. */
  predicate CompletedRun(events: seq<RunEvent>) {
    && events != [] && OngoingRun(events[..|events| - 1])
    && events[|events| - 1] == RunEvent(ResponseCompleted, |events|)
  }

  class AgentRunCoordinator {
    const graph: ConversationGraph
    const maxDecisions: nat

    constructor (graph: ConversationGraph, maxDecisions: nat)
      requires maxDecisions >= 1
      ensures this.graph == graph && this.maxDecisions == maxDecisions
    {
      this.graph, this.maxDecisions := graph, maxDecisions;
    }

    method Run(id: string, input: RunInput) returns (outcome: RunOutcome, events: seq<RunEvent>)
      modifies graph
      ensures id != "" ==> (graph.At(id), outcome) == RunSpec(old(graph.At(id)), input, maxDecisions)
      ensures id == "" ==> outcome == AnonymousRun(input, maxDecisions)
      ensures graph.TouchesOnly(id)
      ensures if outcome.Replied? then CompletedRun(events) else OngoingRun(events)
      ensures DecisionsStarted(events) <= maxDecisions
    {
      events := [RunEvent(RunStarted, 1)];
      var state := EnterRun(id, input);
      outcome, events := AnswerAndRespond(id, state, input, events);
    }

    method AnswerAndRespond(id: string, entered: Context, input: RunInput, before: seq<RunEvent>)
      returns (outcome: RunOutcome, events: seq<RunEvent>)
      requires entered == View(graph.Seen(id))
      requires OngoingRun(before) && DecisionsStarted(before) == 0
      modifies graph
      ensures id != "" ==> (graph.At(id), outcome) == Proceed(old(graph.At(id)), input, maxDecisions)
      ensures id == "" ==> outcome == AnonymousRun(input, maxDecisions)
      ensures graph.TouchesOnly(id)
      ensures if outcome.Replied? then CompletedRun(events) else OngoingRun(events)
      ensures DecisionsStarted(events) <= maxDecisions
    {
      events := before;
      var state := GiveAnswer(id, entered, input);
      if state.Err? {
        outcome := state.error;
        if outcome.Replied? { events := Complete(events); }
        return;
      }
      outcome, events := RespondAndPersist(id, state.value, input, events);
    }

    /** Answer the open question, if this run answers it; an error is the outcome of the run. */
    method GiveAnswer(id: string, entered: Context, input: RunInput) returns (state: Result<Context, RunOutcome>)
      requires entered == View(graph.Seen(id))
      modifies graph
      ensures match AfterAnswer(old(graph.Seen(id)), input)
              case Ok(next) => state == Ok(View(next)) && graph.Seen(id) == next
              case Err(outcome) => state == Err(outcome) && graph.Seen(id) == old(graph.Seen(id))
      ensures graph.TouchesOnly(id)
    {
      var chosen := ChosenAnswer(graph.Seen(id), input);
      if chosen.Err? { return Err(Raised); }
      if chosen.value.None? { return Ok(entered); }
      var answered := graph.Answer(id, chosen.value.value);
      if answered.Err? { return Err(Unanswered(graph.Seen(id), answered.error)); }
      var now := graph.ReadContext(id);
      state := Ok(now);
    }

    method EnterRun(id: string, input: RunInput) returns (state: Context)
      modifies graph
      ensures graph.Seen(id) == Enter(old(graph.Seen(id)), input) && state == View(graph.Seen(id))
      ensures graph.TouchesOnly(id)
    {
      state := graph.ReadContext(id);
      if input.answer.None? && input.isTableDiscovery && state.objective != ""
         && input.message != Strip(state.objective) {
        var started := graph.StartGoal(id, input.message);
        state := started.value;
      }
    }

    method RespondAndPersist(id: string, state: Context, input: RunInput, before: seq<RunEvent>)
      returns (outcome: RunOutcome, events: seq<RunEvent>)
      requires state == View(graph.Seen(id))
      requires OngoingRun(before) && DecisionsStarted(before) == 0
      modifies graph
      ensures id != "" ==> (graph.At(id), outcome) == Finish(old(graph.At(id)), input, maxDecisions)
      ensures id == "" ==> outcome == AnonymousFinish(input, maxDecisions)
      ensures graph.TouchesOnly(id)
      ensures if outcome.Replied? then CompletedRun(events) else OngoingRun(events)
      ensures DecisionsStarted(events) <= maxDecisions
    {
      events := before;
      var response := Replied(GreetingReply(state, input.entry));
      if !input.isGreeting {
        response, events := DecideAndAct(state, input, before);
      }
      if response.Raised? { return Raised, events; }
      var reply, version := Store(id, state, input, response.reply);
      events := Emit(events, StatePersisted(version));
      events := Complete(events);
      outcome := Replied(reply);
    }

    method Store(id: string, state: Context, input: RunInput, first: Reply) returns (shown: Reply, version: nat)
      requires state == View(graph.Seen(id))
      modifies graph
      ensures id != "" ==>
                var reply := WithNextAction(first, state, input);
                var next := Persist(old(graph.At(id)), input.message, reply);
                graph.At(id) == next && shown == Shown(reply, View(next)) && version == next.stateVersion
      ensures id == "" ==> shown == WithNextAction(first, state, input) && version == 0
      ensures graph.TouchesOnly(id)
    {
      var reply := WithNextAction(first, state, input);
      ghost var c, args := graph.At(id), PersistArgs(state, input.message, reply);
      UncheckedRememberSucceeds(c, args);
      var persisted := graph.Remember(id, PersistArgs(state, input.message, reply));
      if persisted.value.None? { return reply, 0; }
      var now := persisted.value.value;
      shown, version := Shown(reply, now), now.stateVersion;
    }

    method Complete(before: seq<RunEvent>) returns (events: seq<RunEvent>)
      requires OngoingRun(before)
      ensures CompletedRun(events) && DecisionsStarted(events) == DecisionsStarted(before)
    {
      events := before + [RunEvent(ResponseCompleted, |before| + 1)];
      assert events[..|events| - 1] == before;
    }

    /** The decision loop; it leaves at the first recognised decision or at the bound. */
    method DecideAndAct(state: Context, input: RunInput, before: seq<RunEvent>)
      returns (response: RunOutcome, events: seq<RunEvent>)
      requires OngoingRun(before) && DecisionsStarted(before) == 0
      ensures !input.isGreeting ==> response == Response(state, input, maxDecisions)
      ensures OngoingRun(events) && DecisionsStarted(events) <= maxDecisions
    {
      events := before;
      for index := 0 to maxDecisions
        invariant OngoingRun(events) && DecisionsStarted(events) <= index
        invariant Decide(input.decisions, 0, maxDecisions) == Decide(input.decisions, index, maxDecisions)
      {
        events := Emit(events, DecisionStarted(index + 1));
        var decision := if index < |input.decisions| then input.decisions[index] else Unrecognised;
        if decision.ProviderThrows? { return Raised, events; }
        events := Emit(events, DecisionCompleted);
        if decision.UseTool? {
          events := Emit(events, ToolStarted);
          events := Emit(events, ToolCompleted);
        }
        if !decision.Unrecognised? {
          return Carry(decision, state, input.entry), events;
        }
      }
      response := Replied(BOUNDED_STOP);
    }

    method Emit(before: seq<RunEvent>, kind: EventKind) returns (events: seq<RunEvent>)
      requires OngoingRun(before) && !kind.ResponseCompleted? && !kind.RunStarted?
      ensures events == before + [RunEvent(kind, |before| + 1)] && OngoingRun(events)
      ensures events[..|events| - 1] == before
      ensures DecisionsStarted(events) == DecisionsStarted(before) + (if kind.DecisionStarted? then 1 else 0)
    {
      events := before + [RunEvent(kind, |before| + 1)];
      assert events[..|events| - 1] == before;
    }
  }
}

/**
 One turn of a conversation, processed under the turn lock (dataworks_agent/agent/core.py). Classifiers,
 language understanding and the workflow are inputs; the turn decides which of them matter and what is stored.
 */
module ChatTurn {
  import opened Values
  import opened Text
  import opened Interactions
  import opened Conversation
  import opened ContextResolver
  import opened RunCoordinator

  /** Where, if anywhere, an exception interrupts a turn before any work has started. */
  datatype Failure = NoFailure | FailsWhileClassifying | FailsAfterResolving

  /** What the workflow service or the task executor does when called. */
  datatype Work =
    | Finishes(reply: Reply, needsContext: bool, modeName: string, workflowState: Dict, queryFrame: Dict)
    | Raises

  datatype TurnInput = TurnInput(
    message: string, answer: Option<InteractionAnswer>, updates: ContextUpdates,
    provenReadOnly: bool, recoveryCard: PendingInteraction,
    handlesMessage: bool, run: RunInput,
    turn: ResolvedTurn, entry: PendingInteraction, failure: Failure,
    asksAboutContext: bool, contextReply: Reply,
    intent: string, intentParams: Dict, requestType: string, executionMode: Option<string>, isBusinessQuery: bool,
    work: Work)

  /** The stored state after a turn, how often the workflow service was called, and the response. */
  datatype TurnResult = TurnResult(state: Checkpoint, executions: nat, outcome: RunOutcome)

  function Notice(error: string): Reply {
    Reply("", false, NoMode, None, map[], map[], error)
  }

  function UnknownReply(): Reply {
    Reply("", false, UnknownMode, None, map[], map[], "execution_unknown")
  }

  // ----- completing a turn -----

  predicate IsInterlude(mode: AgentMode) {
    mode == GreetingMode || mode == ExplainMode || mode == CancelledMode || mode == ResetMode || mode == NeedsContext
  }

  function CompletedStatus(reply: Reply): TaskStatus {
    if reply.mode == CancelledMode then TaskCancelled
    else if reply.mode == UnknownMode then ExecutionUnknown
    else if reply.mode == ResetMode then Idle
    else if CardOf(reply.interaction).Some? then WaitingUser
    else Active
  }

  function CompleteArgs(current: Context, version: nat, incoming: string, reply: Reply): RememberArgs {
    RememberArgs(
      if current.objective == "" && IsInterlude(reply.mode) then "" else OrElse(current.objective, incoming),
      CardOf(reply.interaction).Some?, Some(current.action), Some(current.params), Some(current.workflowState),
      reply.interaction, Some(current.selectedResources), Some(reply.data),
      Some(map["content" := Str(reply.message), "payload" := Object(reply.data)]),
      Some(current.conversationSummary), Some(current.queryFrame), Some(CompletedStatus(reply)), Some(version))
  }

  /** A card in the response is replaced by the card just stored. */
  function Refreshed(reply: Reply, stored: Card): Reply {
    if CardOf(reply.interaction).Some? && stored.Some? then reply.(interaction := Some(stored)) else reply
  }

  function Complete(c: Checkpoint, current: Context, incoming: string, reply: Reply): (Checkpoint, Reply) {
    var next := RememberStep(c, CompleteArgs(current, c.stateVersion, incoming, reply)).value;
    (next, Refreshed(reply, next.pendingInteraction))
  }

  function Completed(c: Checkpoint, current: Context, t: TurnInput, executions: nat, reply: Reply): TurnResult {
    var (next, shown) := Complete(c, current, t.message, reply);
    TurnResult(next, executions, Replied(shown))
  }

  lemma CheckedRememberSucceeds(c: Checkpoint, a: RememberArgs)
    requires a.expectedVersion == Some(c.stateVersion)
    ensures RememberStep(c, a).Ok?
  {
  }

  // ----- exceptions -----

  function UnknownArgs(current: Context, incoming: string): RememberArgs {
    RememberArgs(
      OrElse(current.objective, incoming), false, Some(current.action), Some(current.params),
      Some(current.workflowState), None, Some(current.selectedResources),
      Some(map["execution_result" := Str("unknown")]), Some(map["payload" := Str("unknown")]),
      Some(current.conversationSummary), Some(current.queryFrame), Some(ExecutionUnknown),
      Some(current.stateVersion))
  }

  function MarkUnknown(c: Checkpoint, incoming: string): Checkpoint {
    RememberStep(c, UnknownArgs(View(c), incoming)).value
  }

  function RecoveryArgs(previous: Context, consumed: PendingInteraction, incoming: string, version: nat): RememberArgs {
    RememberArgs(
      OrElse(previous.objective, incoming), true, Some(previous.action), Some(previous.params),
      Some(previous.workflowState), Some(Some(consumed)), Some(previous.selectedResources),
      Some(previous.lastResult), Some(previous.lastAssistantTurn), Some(previous.conversationSummary),
      Some(previous.queryFrame), Some(WaitingUser), Some(version))
  }

  /** An exception before the workflow: a consumed card is put back, otherwise only the error is shown. */
  function Fallback(c: Checkpoint, previous: Context, consumed: Card, t: TurnInput): TurnResult {
    if consumed.None? then TurnResult(c, 0, Replied(Notice("failed")))
    else
      var restored := RememberStep(c, RecoveryArgs(previous, consumed.value, t.message, c.stateVersion)).value;
      TurnResult(restored, 0, Replied(Notice("failed").(interaction := Some(restored.pendingInteraction))))
  }

  // ----- recovery and routing -----

  function ReadOnlyArgs(current: Context, card: PendingInteraction): RememberArgs {
    RememberArgs(
      Strip(current.objective), true, Some("find_table"), None, None,
      Some(Some(card.(stateVersion := current.stateVersion + 1))), Some(current.selectedResources),
      Some(map["recovered_from" := Str("execution_unknown")]), Some(map["content" := Str(card.prompt)]),
      None, None, Some(RecoverableError), Some(current.stateVersion))
  }

  /** An unknown outcome that the evidence proves to be a table search becomes a question again. */
  function RecoverReadOnly(c: Checkpoint, t: TurnInput): Checkpoint {
    if c.taskStatus == ExecutionUnknown && t.provenReadOnly
    then RememberStep(c, ReadOnlyArgs(View(c), t.recoveryCard)).value else c
  }

  predicate IsTablePurpose(purpose: string) {
    || purpose == "refine_table_search" || purpose == "select_layer"
    || purpose == "select_table" || purpose == "table_next_action"
  }

  predicate UseBoundedRuntime(handlesMessage: bool, answer: Option<InteractionAnswer>, context: Context) {
    if context.taskStatus == ExecutionUnknown then false
    else
      var pending := context.pendingInteraction;
      var purpose := if pending.Some? then pending.value.purpose else "";
      if answer.Some? then
        if purpose == "choose_entry" then answer.value.optionId == Some("find_table")
        else if IsTablePurpose(purpose) then
          || context.action == "find_table"
          || (&& answer.value.optionId.Some?
              && FirstOption(pending.value.options, answer.value.optionId.value).Some?
              && TextAt(FirstOption(pending.value.options, answer.value.optionId.value).value.payload.params,
                        "tool_name") == "find_table")
        else false
      else (context.action == "find_table" && IsTablePurpose(purpose)) || handlesMessage
  }

  // ----- doing the work -----

  function MergeUpdates(current: ContextUpdates, more: ContextUpdates): ContextUpdates {
    ContextUpdates(current.params + more.params, current.selectedResources + more.selectedResources,
                   current.workflowState + more.workflowState, OrElse(more.action, current.action))
  }

  /** The updates an answered card adds; its text is also passed on as a parameter. */
  function AnswerUpdates(current: ContextUpdates, payload: Payload): ContextUpdates {
    var merged := MergeUpdates(current, UpdatesOf(payload));
    var custom := Strip(TextAt(payload.rest, "custom_text"));
    if custom != "" then merged.(params := merged.params["custom_text" := Str(custom)]) else merged
  }

  function AnswerMessage(previous: Context, payload: Payload, incoming: string): string {
    var objective := Strip(OrElse(previous.pendingObjective, previous.objective));
    var layer := Strip(TextAt(payload.params, "layer"));
    var custom := Strip(TextAt(payload.rest, "custom_text"));
    var followUp := Strip(OrElse(TextAt(payload.params, "follow_up_action"), TextAt(payload.rest, "value")));
    if layer != "" && objective != "" then Supplement(objective, "\U{53EA}\U{8981} " + layer)
    else if custom != "" && objective != "" && custom != objective then Supplement(objective, custom)
    else if followUp != "" && objective != "" then Supplement(objective, followUp)
    else OrElse(custom, OrElse(followUp, OrElse(objective, incoming)))
  }

  predicate IsModelling(action: string) {
    action == "ods_dwd_modeling" || action == "forward_modeling" || action == "any_ods_modeling"
  }

  predicate IsWorkflowAction(action: string) {
    || IsModelling(action) || action == "agent_workflow" || action == "reverse_modeling"
    || action == "diagnose_issue" || action == "cookie_manage" || action == "ask_data"
  }

  function ChosenAction(current: Context, answered: bool, t: TurnInput): string {
    var auto := t.requestType == "" || t.requestType == "auto";
    if !auto then t.requestType
    else if t.isBusinessQuery then "ask_data"
    else if current.action != "" && (answered || t.intent == "unknown") then current.action
    else t.intent
  }

  /** The action goes to the workflow service, which may write. */
  predicate StartsWorkflow(action: string, t: TurnInput) {
    IsWorkflowAction(action) && (t.executionMode.Some? || action == "ask_data" || IsModelling(action))
  }

  function WorkReply(work: Work): Reply
    requires work.Finishes?
  {
    work.reply.(mode := if work.needsContext then NeedsContext else OtherMode(work.modeName))
  }

  /** Run the workflow: an exception leaves the outcome unknown. */
  function RunWorkflow(c: Checkpoint, action: string, t: TurnInput): TurnResult {
    match t.work
    case Raises => TurnResult(MarkUnknown(c, t.message), 1, Replied(UnknownReply()))
    case Finishes(_, _, _, workflowState, queryFrame) =>
      var context := View(c).(action := action, params := t.intentParams, workflowState := workflowState,
                              queryFrame := if queryFrame != map[] then queryFrame else c.queryFrame);
      Completed(c, context, t, 1, WorkReply(t.work))
  }

  /** With the message resolved: summarise, run the workflow, or run the task executor. */
  function Perform(c: Checkpoint, previous: Context, consumed: Card, t: TurnInput): TurnResult {
    if t.failure == FailsAfterResolving then Fallback(c, previous, consumed, t)
    else if t.asksAboutContext then Completed(c, View(c), t, 0, t.contextReply.(mode := OtherMode("read_only")))
    else
      var action := ChosenAction(View(c), consumed.Some?, t);
      if StartsWorkflow(action, t) then RunWorkflow(c, action, t)
      else if t.work.Raises? then Fallback(c, previous, consumed, t)
      else Completed(c, View(c).(action := action, params := t.intentParams), t, 0, WorkReply(t.work))
  }

  function DoWork(c: Checkpoint, previous: Context, consumed: Card, message: string, updates: ContextUpdates,
                  t: TurnInput): TurnResult {
    Perform(ResolveStep(c, message, updates).0, previous, consumed, t)
  }

  // ----- the turn -----

  /** The last guard before a message counts as an answer or as work. */
  predicate Blocked(c: Checkpoint, action: DialogueAction) {
    && c.taskStatus == ExecutionUnknown
    && action != CancelTask && action != ResetTask && action != NewGoal && action != Greeting && action != Explain
  }

  /** Free text answers an open question that takes it, unless the message was read as something else. */
  function ImpliedAnswer(c: Checkpoint, answer: Option<InteractionAnswer>, t: TurnInput)
    : Result<Option<InteractionAnswer>, AnswerError>
  {
    var action := t.turn.action;
    if answer.Some? then Ok(answer)
    else if c.pendingInteraction.Some? && c.pendingInteraction.value.allowCustomInput
            && action != Continue && action != Modify && action != Refer && action != NewGoal then
      var pending := c.pendingInteraction.value;
      match ValidateAnswer(InteractionAnswer(pending.interactionId, None, Some(t.message), pending.stateVersion))
      case Ok(implied) => Ok(Some(implied))
      case Err(e) => Err(e)
    else Ok(None)
  }

  function AnswerTurn(c: Checkpoint, answer: InteractionAnswer, t: TurnInput): TurnResult {
    match AnswerStep(c, answer)
    case Err(e) => TurnResult(c, 0, Replied(NotAnswered(c, e)))
    case Ok(success) =>
      DoWork(success.0, View(c), c.pendingInteraction, AnswerMessage(View(c), success.1, t.message),
             AnswerUpdates(MergeUpdates(t.updates, t.turn.updates), success.1), t)
  }

  function NotAnswered(c: Checkpoint, e: GraphError): Reply {
    if e.AnswerRefused? && e.reason.InteractionExpired? then
      Notice("interaction_expired").(
        interaction := if c.pendingInteraction.Some? then Some(c.pendingInteraction) else None)
    else Notice("failed")
  }

  /** From the guard on. */
  function GuardedTurn(c: Checkpoint, answer: Option<InteractionAnswer>, t: TurnInput): TurnResult {
    if Blocked(c, t.turn.action) then Completed(c, View(c), t, 0, UnknownReply())
    else
      match ImpliedAnswer(c, answer, t)
      case Err(_) => TurnResult(c, 0, Replied(Notice("failed")))
      case Ok(implied) =>
        if implied.Some? then AnswerTurn(c, implied.value, t)
        else if t.turn.action == Clarify then Completed(c, View(c), t, 0, ClarifyReply(View(c), t.entry))
        else
          var message := if t.turn.action == Continue && View(c).objective != "" then View(c).objective
                         else t.turn.rewritten;
          DoWork(c, View(c), None, message, MergeUpdates(t.updates, t.turn.updates), t)
  }

  function CancelReply(): Reply {
    Reply("", true, CancelledMode, None, map[], map[], "")
  }

  function ResetReply(version: nat, entry: PendingInteraction): Reply {
    Reply("", true, ResetMode, Restamped(entry, version + 1), map[], map[], "")
  }

  function ExplainReply(c: Checkpoint): Reply {
    Reply("", true, ExplainMode, if c.pendingInteraction.Some? then Some(c.pendingInteraction) else None,
          map[], map[], "")
  }

  predicate EndsTheTurn(action: DialogueAction) {
    action == CancelTask || action == ResetTask || action == Greeting || action == Explain
  }

  /** Cancelling, resetting, greeting and explaining: the state they leave and the reply to complete with. */
  function Interlude(c: Checkpoint, t: TurnInput): (Checkpoint, Reply) {
    match t.turn.action
    case CancelTask => (CancelStep(c), CancelReply())
    case ResetTask =>
      var reset := ResolveStep(c, t.message, NO_UPDATES).0;
      (reset, ResetReply(reset.stateVersion, t.entry))
    case Greeting => (c, if c.taskStatus == ExecutionUnknown then UnknownReply() else GreetingReply(View(c), t.entry))
    case _ => (c, if c.taskStatus == ExecutionUnknown then UnknownReply() else ExplainReply(c))
  }

  /** A turn that no card answers: the dialogue action decides. */
  function UnansweredTurn(c: Checkpoint, t: TurnInput): TurnResult {
    if EndsTheTurn(t.turn.action) then
      var (next, reply) := Interlude(c, t);
      Completed(next, View(next), t, 0, reply)
    else GuardedTurn(if t.turn.action == NewGoal then StartGoalStep(c, t.message) else c, None, t)
  }

  function LegacyTurn(c: Checkpoint, t: TurnInput): TurnResult {
    if t.failure == FailsWhileClassifying then TurnResult(c, 0, Replied(Notice("failed")))
    else if t.answer.Some? then GuardedTurn(c, t.answer, t)
    else if t.turn.answer.Some? then GuardedTurn(c, t.turn.answer, t)
    else UnansweredTurn(c, t)
  }

  function RunInputOf(t: TurnInput): RunInput {
    t.run.(message := t.message, answer := t.answer)
  }

  function BoundedTurn(c: Checkpoint, t: TurnInput, maxDecisions: nat): TurnResult {
    var (next, outcome) := RunSpec(c, RunInputOf(t), maxDecisions);
    TurnResult(next, 0, outcome)
  }

  function RoutedTurn(c: Checkpoint, bounded: bool, t: TurnInput, maxDecisions: nat): TurnResult {
    if bounded then BoundedTurn(c, t, maxDecisions) else LegacyTurn(c, t)
  }

  /** The whole turn on one checkpoint; the message is given stripped. */
  function Turn(c: Checkpoint, t: TurnInput, maxDecisions: nat): TurnResult {
    if t.message == "" then TurnResult(c, 0, Replied(Notice("empty message")))
    else
      var recovered := RecoverReadOnly(c, t);
      RoutedTurn(recovered, UseBoundedRuntime(t.handlesMessage, t.answer, View(recovered)), t, maxDecisions)
  }

  // ----- a turn without a conversation -----

  function AnonymousWork(t: TurnInput): (nat, RunOutcome) {
    if t.failure == FailsAfterResolving then (0, Replied(Notice("failed")))
    else if t.asksAboutContext then (0, Replied(t.contextReply.(mode := OtherMode("read_only"))))
    else
      var executions := if StartsWorkflow(ChosenAction(View(FRESH), false, t), t) then 1 else 0;
      (executions, Replied(if t.work.Raises? then Notice("failed") else WorkReply(t.work)))
  }

  function AnonymousInterlude(t: TurnInput): Reply {
    match t.turn.action
    case CancelTask => CancelReply()
    case ResetTask => ResetReply(0, t.entry)
    case Greeting => GreetingReply(View(FRESH), t.entry)
    case _ => ExplainReply(FRESH)
  }

  /** No answer is accepted without a conversation, and no question is open. */
  function AnonymousGuarded(answer: Option<InteractionAnswer>, t: TurnInput): (nat, RunOutcome) {
    if answer.Some? then (0, Replied(Notice("interaction_expired")))
    else if t.turn.action == Clarify then (0, Replied(ClarifyReply(View(FRESH), t.entry)))
    else AnonymousWork(t)
  }

  function AnonymousLegacy(t: TurnInput): (nat, RunOutcome) {
    if t.failure == FailsWhileClassifying then (0, Replied(Notice("failed")))
    else
      var answer := if t.answer.Some? then t.answer else t.turn.answer;
      if answer.None? && EndsTheTurn(t.turn.action) then (0, Replied(AnonymousInterlude(t)))
      else AnonymousGuarded(answer, t)
  }

  /** The whole turn without a conversation id: nothing is read and nothing is kept. */
  function AnonymousTurn(t: TurnInput, maxDecisions: nat): (nat, RunOutcome) {
    if t.message == "" then (0, Replied(Notice("empty message")))
    else if UseBoundedRuntime(t.handlesMessage, t.answer, View(FRESH)) then
      (0, AnonymousRun(RunInputOf(t), maxDecisions))
    else AnonymousLegacy(t)
  }

  // ----- the agent -----

  class ChatAgent {
    const graph: ConversationGraph
    const coordinator: AgentRunCoordinator

    constructor (graph: ConversationGraph)
      ensures this.graph == graph && coordinator.graph == graph && coordinator.maxDecisions == 6
    {
      this.graph := graph;
      coordinator := new AgentRunCoordinator(graph, 6);
    }

    predicate Wired() {
      coordinator.graph == graph
    }

    /** _chat_locked; the id is "" for a turn without a conversation. */
    method ChatLocked(id: string, t: TurnInput) returns (outcome: RunOutcome, executions: nat)
      requires Wired()
      modifies graph
      ensures id != "" ==>
                TurnResult(graph.At(id), executions, outcome) == Turn(old(graph.At(id)), t, coordinator.maxDecisions)
      ensures id == "" ==> (executions, outcome) == AnonymousTurn(t, coordinator.maxDecisions)
      ensures graph.TouchesOnly(id)
    {
      if t.message == "" { return Replied(Notice("empty message")), 0; }
      var context := RecoverReadOnlyUnknown(id, t);
      if UseBoundedRuntime(t.handlesMessage, t.answer, context) {
        var events;
        outcome, events := coordinator.Run(id, RunInputOf(t));
        return outcome, 0;
      }
      outcome, executions := LegacyChat(id, t);
    }

    method RecoverReadOnlyUnknown(id: string, t: TurnInput) returns (context: Context)
      modifies graph
      ensures graph.Seen(id) == RecoverReadOnly(old(graph.Seen(id)), t) && context == View(graph.Seen(id))
      ensures graph.TouchesOnly(id)
    {
      context := graph.ReadContext(id);
      if id == "" || context.taskStatus != ExecutionUnknown { return; }
      if t.provenReadOnly {
        CheckedRememberSucceeds(graph.At(id), ReadOnlyArgs(context, t.recoveryCard));
        var recovered := graph.Remember(id, ReadOnlyArgs(context, t.recoveryCard));
        context := recovered.value.value;
      }
    }

    method CompleteTurn(id: string, context: Context, incoming: string, reply: Reply) returns (shown: Reply)
      modifies graph
      ensures id != "" ==> (graph.At(id), shown) == Complete(old(graph.At(id)), context, incoming, reply)
      ensures id == "" ==> shown == reply
      ensures graph.TouchesOnly(id)
    {
      if id == "" { return reply; }
      var persisted := graph.GetContext(id);
      var version := persisted.value.stateVersion;
      CheckedRememberSucceeds(graph.At(id), CompleteArgs(context, version, incoming, reply));
      var remembered := graph.Remember(id, CompleteArgs(context, version, incoming, reply));
      shown := Refreshed(reply, remembered.value.value.pendingInteraction);
    }

    method MarkExecutionUnknown(id: string, incoming: string) returns (shown: Reply)
      requires id != ""
      modifies graph
      ensures graph.At(id) == MarkUnknown(old(graph.At(id)), incoming) && shown == UnknownReply()
      ensures graph.TouchesOnly(id)
    {
      var current := graph.GetContext(id);
      CheckedRememberSucceeds(graph.At(id), UnknownArgs(current.value, incoming));
      var remembered := graph.Remember(id, UnknownArgs(current.value, incoming));
      shown := UnknownReply();
    }

    method RecoverConsumedInteraction(id: string, previous: Context, consumed: PendingInteraction, t: TurnInput)
      returns (shown: Reply)
      requires id != ""
      modifies graph
      ensures TurnResult(graph.At(id), 0, Replied(shown)) == Fallback(old(graph.At(id)), previous, Some(consumed), t)
      ensures graph.TouchesOnly(id)
    {
      var current := graph.GetContext(id);
      var args := RecoveryArgs(previous, consumed, t.message, current.value.stateVersion);
      CheckedRememberSucceeds(graph.At(id), args);
      var restored := graph.Remember(id, args);
      shown := Notice("failed").(interaction := Some(restored.value.value.pendingInteraction));
    }

    /** The handler of exceptions from before the workflow. */
    method RecoverOrReport(id: string, previous: Context, consumed: Card, t: TurnInput) returns (outcome: RunOutcome)
      modifies graph
      ensures id != "" ==> TurnResult(graph.At(id), 0, outcome) == Fallback(old(graph.At(id)), previous, consumed, t)
      ensures id == "" ==> outcome == Replied(Notice("failed"))
      ensures graph.TouchesOnly(id)
    {
      if consumed.Some? && id != "" {
        var shown := RecoverConsumedInteraction(id, previous, consumed.value, t);
        return Replied(shown);
      }
      outcome := Replied(Notice("failed"));
    }

    method LegacyChat(id: string, t: TurnInput) returns (outcome: RunOutcome, executions: nat)
      modifies graph
      ensures id != "" ==> TurnResult(graph.At(id), executions, outcome) == LegacyTurn(old(graph.At(id)), t)
      ensures id == "" ==> (executions, outcome) == AnonymousLegacy(t)
      ensures graph.TouchesOnly(id)
    {
      if t.failure == FailsWhileClassifying { return Replied(Notice("failed")), 0; }
      var answer := if t.answer.Some? then t.answer else t.turn.answer;
      if answer.Some? {
        outcome, executions := GuardedChat(id, answer, t);
        return;
      }
      outcome, executions := UnansweredChat(id, t);
    }

    method UnansweredChat(id: string, t: TurnInput) returns (outcome: RunOutcome, executions: nat)
      modifies graph
      ensures id != "" ==> TurnResult(graph.At(id), executions, outcome) == UnansweredTurn(old(graph.At(id)), t)
      ensures id == "" ==>
                (executions, outcome) == if EndsTheTurn(t.turn.action) then (0, Replied(AnonymousInterlude(t)))
                                         else AnonymousGuarded(None, t)
      ensures graph.TouchesOnly(id)
    {
      if t.turn.action == NewGoal {
        var started := graph.StartGoal(id, t.message);
      }
      if EndsTheTurn(t.turn.action) {
        var context, reply := Interrupt(id, t);
        var shown := CompleteTurn(id, context, t.message, reply);
        return Replied(shown), 0;
      }
      outcome, executions := GuardedChat(id, None, t);
    }

    method Interrupt(id: string, t: TurnInput) returns (context: Context, reply: Reply)
      requires EndsTheTurn(t.turn.action)
      modifies graph
      ensures id != "" ==> (graph.At(id), reply) == Interlude(old(graph.At(id)), t)
      ensures id == "" ==> reply == AnonymousInterlude(t)
      ensures context == View(graph.Seen(id))
      ensures graph.TouchesOnly(id)
    {
      context := graph.ReadContext(id);
      if t.turn.action == CancelTask {
        var cancelled := graph.Cancel(id);
        context := graph.ReadContext(id);
        reply := CancelReply();
      } else if t.turn.action == ResetTask {
        var ignored := graph.Resolve(id, t.message, NO_UPDATES);
        context := graph.ReadContext(id);
        reply := ResetReply(context.stateVersion, t.entry);
      } else if context.taskStatus == ExecutionUnknown {
        reply := UnknownReply();
      } else {
        reply := if t.turn.action == Greeting then GreetingReply(context, t.entry) else ExplainReply(graph.Seen(id));
      }
    }

    method GuardedChat(id: string, answer: Option<InteractionAnswer>, t: TurnInput)
      returns (outcome: RunOutcome, executions: nat)
      modifies graph
      ensures id != "" ==> TurnResult(graph.At(id), executions, outcome) == GuardedTurn(old(graph.At(id)), answer, t)
      ensures id == "" ==> (executions, outcome) == AnonymousGuarded(answer, t)
      ensures graph.TouchesOnly(id)
    {
      var previous := graph.ReadContext(id);
      if Blocked(graph.Seen(id), t.turn.action) {
        var blocked := CompleteTurn(id, previous, t.message, UnknownReply());
        return Replied(blocked), 0;
      }
      var implied := ImpliedAnswer(graph.Seen(id), answer, t);
      if implied.Err? { return Replied(Notice("failed")), 0; }
      if implied.value.Some? {
        outcome, executions := AnswerChat(id, implied.value.value, t);
        return;
      }
      if t.turn.action == Clarify {
        var asked := CompleteTurn(id, previous, t.message, ClarifyReply(previous, t.entry));
        return Replied(asked), 0;
      }
      var message := t.turn.rewritten;
      if t.turn.action == Continue && previous.objective != "" {
        message := previous.objective;
      }
      outcome, executions := Work(id, previous, None, message, MergeUpdates(t.updates, t.turn.updates), t);
    }

    method AnswerChat(id: string, answer: InteractionAnswer, t: TurnInput)
      returns (outcome: RunOutcome, executions: nat)
      modifies graph
      ensures id != "" ==> TurnResult(graph.At(id), executions, outcome) == AnswerTurn(old(graph.At(id)), answer, t)
      ensures id == "" ==> (executions, outcome) == (0, Replied(Notice("interaction_expired")))
      ensures graph.TouchesOnly(id)
    {
      var previous := graph.ReadContext(id);
      var answered := graph.Answer(id, answer);
      if answered.Err? { return Replied(NotAnswered(graph.Seen(id), answered.error)), 0; }
      var payload := answered.value.0;
      var message := AnswerMessage(previous, payload, t.message);
      outcome, executions := Work(id, previous, previous.pendingInteraction, message,
                                  AnswerUpdates(MergeUpdates(t.updates, t.turn.updates), payload), t);
    }

    method Work(id: string, previous: Context, consumed: Card, message: string, updates: ContextUpdates, t: TurnInput)
      returns (outcome: RunOutcome, executions: nat)
      requires id == "" ==> consumed.None?
      modifies graph
      ensures id != "" ==>
                TurnResult(graph.At(id), executions, outcome)
                == DoWork(old(graph.At(id)), previous, consumed, message, updates, t)
      ensures id == "" ==> (executions, outcome) == AnonymousWork(t)
      ensures graph.TouchesOnly(id)
    {
      var resolved := graph.Resolve(id, message, updates);
      var current := graph.ReadContext(id);
      outcome, executions := WorkResolved(id, current, previous, consumed, t);
    }

    /** With the message resolved. */
    method WorkResolved(id: string, current: Context, previous: Context, consumed: Card, t: TurnInput)
      returns (outcome: RunOutcome, executions: nat)
      requires current == View(graph.Seen(id)) && (id == "" ==> consumed.None?)
      modifies graph
      ensures id != "" ==>
                TurnResult(graph.At(id), executions, outcome) == Perform(old(graph.At(id)), previous, consumed, t)
      ensures id == "" ==> (executions, outcome) == AnonymousWork(t)
      ensures graph.TouchesOnly(id)
    {
      executions := 0;
      if t.failure == FailsAfterResolving {
        outcome := RecoverOrReport(id, previous, consumed, t);
        return;
      }
      var context, reply := current, t.contextReply.(mode := OtherMode("read_only"));
      if !t.asksAboutContext {
        var action := ChosenAction(current, consumed.Some?, t);
        if StartsWorkflow(action, t) {
          executions := 1;
          if t.work.Raises? {
            outcome := ReportFailedWorkflow(id, t.message);
            return;
          }
          context := current.(workflowState := t.work.workflowState,
                              queryFrame := if t.work.queryFrame != map[] then t.work.queryFrame
                                            else current.queryFrame);
        } else if t.work.Raises? {
          outcome := RecoverOrReport(id, previous, consumed, t);
          return;
        }
        context, reply := context.(action := action, params := t.intentParams), WorkReply(t.work);
      }
      reply := CompleteTurn(id, context, t.message, reply);
      outcome := Replied(reply);
    }

    /** The handler of exceptions from the workflow. */
    method ReportFailedWorkflow(id: string, incoming: string) returns (outcome: RunOutcome)
      modifies graph
      ensures id != "" ==> graph.At(id) == MarkUnknown(old(graph.At(id)), incoming)
      ensures id != "" ==> outcome == Replied(UnknownReply())
      ensures id == "" ==> outcome == Replied(Notice("failed"))
      ensures graph.TouchesOnly(id)
    {
      if id == "" { return Replied(Notice("failed")); }
      var shown := MarkExecutionUnknown(id, incoming);
      outcome := Replied(shown);
    }
  }
}

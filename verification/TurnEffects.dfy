/** What a turn leaves in the conversation, and what it says to the work (dataworks_agent/agent/core.py). */
module TurnEffects {
  import opened Values
  import opened Text
  import opened Interactions
  import opened Conversation
  import opened ConversationRuns
  import opened ContextResolver
  import opened RunCoordinator
  import opened ChatTurn
  import opened TurnRoutes

  /** The task is the same: all but the question, the last result, the status and the version. */
  predicate SameTask(before: Context, after: Context) {
    after == before.(pendingObjective := after.pendingObjective, pendingInteraction := after.pendingInteraction,
                     lastResult := after.lastResult, lastAssistantTurn := after.lastAssistantTurn,
                     taskStatus := after.taskStatus, stateVersion := after.stateVersion)
  }

  /** The question is stored under the version of the conversation, and its goal is open exactly while it is asked. */
  predicate Asks(after: Context, card: Card) {
    && after.pendingInteraction == Stamp(card, after.stateVersion)
    && after.pendingObjective == if card.Some? then after.objective else ""
  }

  // ----- the end of a turn -----

  /** The status after a turn, by the mode of its reply and by whether it asks something. */
  lemma StatusByMode(reply: Reply)
    ensures reply.mode == CancelledMode ==> CompletedStatus(reply) == TaskCancelled
    ensures reply.mode == UnknownMode ==> CompletedStatus(reply) == ExecutionUnknown
    ensures reply.mode == ResetMode ==> CompletedStatus(reply) == Idle
    ensures reply.mode !in {CancelledMode, UnknownMode, ResetMode} ==>
              CompletedStatus(reply) == if CardOf(reply.interaction).Some? then WaitingUser else Active
  {
  }

  /** The goal after a turn: the one there was, or the message unless the turn was an interlude. */
  function GoalAfter(before: string, incoming: string, mode: AgentMode): string {
    if before != "" then before
    else if mode in {GreetingMode, ExplainMode, CancelledMode, ResetMode, NeedsContext} then "" else incoming
  }

  /** A completed turn stores its context, the result and text of its reply, its question and its status. */
  lemma CompletionStores(c: Checkpoint, current: Context, incoming: string, reply: Reply)
    requires current.objective == View(c).objective
    ensures var (next, shown) := Complete(c, current, incoming, reply);
            var after := View(next);
            && after.stateVersion == c.stateVersion + 1 && Asks(after, CardOf(reply.interaction))
            && after.taskStatus == CompletedStatus(reply)
            && after.objective == GoalAfter(current.objective, incoming, reply.mode)
            && SameTask(current.(objective := after.objective), after)
            && after.lastResult == reply.data
            && after.lastAssistantTurn == map["content" := Str(reply.message), "payload" := Object(reply.data)]
            && shown == reply.(interaction := if CardOf(reply.interaction).Some? then Some(after.pendingInteraction)
                                              else reply.interaction)
  {
    CheckedRememberSucceeds(c, CompleteArgs(current, c.stateVersion, incoming, reply));
  }

  // ----- interludes -----

  predicate IsInterludeTurn(t: TurnInput) {
    t.failure != FailsWhileClassifying && !BringsAnswer(t) && t.turn.action in {CancelTask, Greeting, Explain}
  }

  /** The mode and the question of the reply of an interlude. */
  lemma InterludeReplies(c: Checkpoint, t: TurnInput)
    requires Consistent(c) && t.turn.action in {CancelTask, Greeting, Explain}
    ensures var (next, reply) := Interlude(c, t);
            && SameTask(View(c), View(next))
            && next.stateVersion == c.stateVersion + (if t.turn.action == CancelTask then 1 else 0)
            && reply.mode == InterludeMode(c, t)
            && Stamp(CardOf(reply.interaction), 0) == Stamp(InterludeCard(c, t), 0)
  {
  }

  function InterludeMode(c: Checkpoint, t: TurnInput): AgentMode {
    if t.turn.action == CancelTask then CancelledMode
    else if c.taskStatus == ExecutionUnknown then UnknownMode
    else if t.turn.action == Greeting then GreetingMode else ExplainMode
  }

  /** A greeting asks the open question again or the entry question, an explanation only an open one. */
  function InterludeCard(c: Checkpoint, t: TurnInput): Card {
    if t.turn.action == CancelTask || c.taskStatus == ExecutionUnknown then None
    else if c.pendingInteraction.Some? then c.pendingInteraction
    else if t.turn.action == Greeting then Some(t.entry) else None
  }

  lemma CompletedInterlude(next: Checkpoint, before: Context, t: TurnInput, reply: Reply)
    requires SameTask(before, View(next))
    ensures var after := View(Completed(next, View(next), t, 0, reply).state);
            && SameTask(before.(objective := after.objective), after)
            && after.objective == GoalAfter(before.objective, t.message, reply.mode)
            && after.stateVersion == next.stateVersion + 1
            && after.taskStatus == CompletedStatus(reply) && Asks(after, CardOf(reply.interaction))
  {
    CompletionStores(next, View(next), t.message, reply);
  }

  /** An interlude completes a conversation with the same task by a reply of its mode and question. */
  lemma InterludeIsCompleted(c: Checkpoint, t: TurnInput) returns (next: Checkpoint, reply: Reply)
    requires Consistent(c) && IsInterludeTurn(t)
    ensures LegacyTurn(c, t).state == Completed(next, View(next), t, 0, reply).state && SameTask(View(c), View(next))
    ensures next.stateVersion == c.stateVersion + (if t.turn.action == CancelTask then 1 else 0)
    ensures reply.mode == InterludeMode(c, t) && Stamp(CardOf(reply.interaction), 0) == Stamp(InterludeCard(c, t), 0)
  {
    InterludeReplies(c, t);
    next, reply := Interlude(c, t).0, Interlude(c, t).1;
  }

  /**
   Cancelling, greeting and explaining keep the task and name no goal, unless the outcome of an execution is unknown,
   which stays so and asks nothing.
   */
  lemma InterludeKeepsTask(c: Checkpoint, t: TurnInput)
    requires Consistent(c) && IsInterludeTurn(t)
    ensures var before, after := View(c), View(LegacyTurn(c, t).state);
            && SameTask(before.(objective := after.objective), after)
            && after.objective == GoalAfter(before.objective, t.message, InterludeMode(c, t))
            && Asks(after, InterludeCard(c, t))
            && after.stateVersion == c.stateVersion + (if t.turn.action == CancelTask then 2 else 1)
            && after.taskStatus == (if t.turn.action == CancelTask then TaskCancelled
                                    else if c.taskStatus == ExecutionUnknown then ExecutionUnknown
                                    else if InterludeCard(c, t).Some? then WaitingUser else Active)
  {
    var next, reply := InterludeIsCompleted(c, t);
    CompletedInterlude(next, View(c), t, reply);
    StatusByMode(reply);
  }

  /** An unclear message keeps the task too, and asks the entry question. */
  lemma UnclearTurnKeepsTask(c: Checkpoint, t: TurnInput)
    requires t.failure != FailsWhileClassifying && !BringsAnswer(t) && t.turn.action == Clarify
    requires c.taskStatus != ExecutionUnknown && !GivesText(c, t)
    ensures var before, after := View(c), View(LegacyTurn(c, t).state);
            && SameTask(before, after) && Asks(after, Some(t.entry)) && after.taskStatus == WaitingUser
  {
    var reply := ClarifyReply(View(c), t.entry);
    assert LegacyTurn(c, t) == Completed(c, View(c), t, 0, reply);
    CompletedInterlude(c, View(c), t, reply);
  }

  // ----- what is said to the work -----

  /** A chosen layer narrows the goal, a text or a follow-up is added to it, and without a goal stands for itself. */
  lemma MessageOfAnswer(previous: Context, payload: Payload, incoming: string)
    ensures var goal := Strip(if previous.pendingObjective != "" then previous.pendingObjective
                              else previous.objective);
            var layer := Strip(TextAt(payload.params, "layer"));
            var custom := Strip(TextAt(payload.rest, "custom_text"));
            var next := Strip(if TextAt(payload.params, "follow_up_action") != ""
                              then TextAt(payload.params, "follow_up_action") else TextAt(payload.rest, "value"));
            var said := AnswerMessage(previous, payload, incoming);
            var added := "\n\U{8865}\U{5145}\U{4FE1}\U{606F}\U{FF1A}";
            && (goal != "" && layer != "" ==> said == goal + added + ("\U{53EA}\U{8981} " + layer))
            && (goal != "" && layer == "" && custom != "" && custom != goal ==> said == goal + added + custom)
            && (goal != "" && layer == "" && (custom == "" || custom == goal) && next != "" ==>
                  said == goal + added + next)
            && (goal != "" && layer == "" && (custom == "" || custom == goal) && next == "" ==> said == goal)
            && (goal == "" ==> said == if custom != "" then custom else if next != "" then next else incoming)
  {
  }

  /** Updates of a turn: what was read off the message goes over what the caller gave, key by key. */
  lemma MergedUpdates(current: ContextUpdates, more: ContextUpdates, key: string)
    ensures var merged := MergeUpdates(current, more);
            && (key in merged.params <==> key in current.params || key in more.params)
            && (key in more.params ==> merged.params[key] == more.params[key])
            && (key in current.params && key !in more.params ==> merged.params[key] == current.params[key])
            && (key in merged.selectedResources <==> key in current.selectedResources || key in more.selectedResources)
            && (key in more.selectedResources ==> merged.selectedResources[key] == more.selectedResources[key])
            && (key in current.selectedResources && key !in more.selectedResources ==>
                  merged.selectedResources[key] == current.selectedResources[key])
            && merged.action == if more.action != "" then more.action else current.action
  {
  }

  /** An answered turn merges what was paid; a text that is not blank is also passed on as a parameter. */
  lemma UpdatesOfAnswer(current: ContextUpdates, payload: Payload, key: string)
    ensures var updates := AnswerUpdates(current, payload);
            var custom := Strip(TextAt(payload.rest, "custom_text"));
            && (custom != "" ==> TextAt(updates.params, "custom_text") == custom)
            && (key in payload.params && (custom == "" || key != "custom_text") ==>
                  key in updates.params && updates.params[key] == payload.params[key])
            && (key in payload.selectedResources ==>
                  && key in updates.selectedResources
                  && updates.selectedResources[key] == payload.selectedResources[key])
            && updates.action == (if TextAt(payload.rest, "action") != "" then TextAt(payload.rest, "action")
                                  else current.action)
            && var state := if "workflow_state" in payload.rest then payload.rest["workflow_state"] else Null;
               && (state.Object? && key in state.fields ==>
                     key in updates.workflowState && updates.workflowState[key] == state.fields[key])
               && (key in updates.workflowState <==>
                     (state.Object? && key in state.fields) || key in current.workflowState)
  {
    MergedUpdates(current, UpdatesOf(payload), key);
  }

  // ----- work -----

  /** The mode the reply of finished work is stored with. */
  function WorkMode(t: TurnInput): AgentMode
    requires t.work.Finishes?
  {
    if t.work.needsContext then NeedsContext else OtherMode(t.work.modeName)
  }

  /** Finished work asks what its reply asks, stores its action and parameters, and keeps the rest of the task. */
  predicate StoresWork(before: Context, action: string, t: TurnInput, after: Context)
    requires t.work.Finishes?
  {
    && Asks(after, CardOf(t.work.reply.interaction))
    && after.taskStatus == (if CardOf(t.work.reply.interaction).Some? then WaitingUser else Active)
    && after.objective == GoalAfter(before.objective, t.message, WorkMode(t))
    && after.lastResult == t.work.reply.data
    && SameTask(before.(action := action, params := t.intentParams, objective := after.objective), after)
  }

  lemma FinishedTaskStores(c: Checkpoint, action: string, t: TurnInput)
    requires t.work.Finishes?
    ensures var context := View(c).(action := action, params := t.intentParams);
            StoresWork(View(c), action, t, View(Completed(c, context, t, 0, WorkReply(t.work)).state))
  {
    CompletionStores(c, View(c).(action := action, params := t.intentParams), t.message, WorkReply(t.work));
  }

  /** A workflow also stores its own state and, if it has one, its query. */
  lemma FinishedWorkflowStores(c: Checkpoint, action: string, t: TurnInput)
    requires t.work.Finishes?
    ensures var before := View(c).(
              workflowState := t.work.workflowState,
              queryFrame := if t.work.queryFrame != map[] then t.work.queryFrame else c.queryFrame);
            StoresWork(before, action, t, View(RunWorkflow(c, action, t).state))
  {
    var context := View(c).(
      action := action, params := t.intentParams, workflowState := t.work.workflowState,
      queryFrame := if t.work.queryFrame != map[] then t.work.queryFrame else c.queryFrame);
    CompletionStores(c, context, t.message, WorkReply(t.work));
  }

  /** Finished work follows its action and stores that; only a workflow changes the workflow state and the query. */
  lemma FinishedWorkStores(c: Checkpoint, previous: Context, consumed: Card, t: TurnInput) returns (action: string)
    requires t.failure == NoFailure && !t.asksAboutContext && t.work.Finishes?
    ensures Follows(t, c.action, consumed.Some?, action)
    ensures var after := View(Perform(c, previous, consumed, t).state);
            var before := if !NeedsWorkflow(action, t) then View(c)
                          else View(c).(workflowState := t.work.workflowState,
                                        queryFrame := if t.work.queryFrame != map[] then t.work.queryFrame
                                                      else c.queryFrame);
            StoresWork(before, action, t, after)
  {
    action := ChosenAction(View(c), consumed.Some?, t);
    StartsWorkflowIff(action, t);
    FinishedTaskStores(c, action, t);
    FinishedWorkflowStores(c, action, t);
  }

  /** A question about the context itself keeps the task. */
  lemma ContextQuestionKeepsTask(c: Checkpoint, previous: Context, consumed: Card, t: TurnInput)
    requires t.failure == NoFailure && t.asksAboutContext
    ensures var before, after := View(c), View(Perform(c, previous, consumed, t).state);
            && SameTask(before.(objective := after.objective), after)
            && after.objective == (if before.objective != "" then before.objective else t.message)
            && Asks(after, CardOf(t.contextReply.interaction))
  {
    CompletionStores(c, View(c), t.message, t.contextReply.(mode := OtherMode("read_only")));
  }

  /** Work of the workflow that raises keeps the task, asks nothing, and is unknown. */
  lemma RaisedWorkKeepsTask(c: Checkpoint, action: string, t: TurnInput)
    requires t.work.Raises?
    ensures var before, after := View(c), View(RunWorkflow(c, action, t).state);
            && SameTask(before.(objective := after.objective), after)
            && after.objective == (if before.objective != "" then before.objective else t.message)
            && Asks(after, None) && after.taskStatus == ExecutionUnknown
            && after.lastResult == map["execution_result" := Str("unknown")]
  {
    CheckedRememberSucceeds(c, UnknownArgs(View(c), t.message));
  }

  // ----- bounded runs -----

  /** The status a run stores: its own for unknown and recoverable outcomes, else the one there was, if any. */
  function RunStatus(before: TaskStatus, mode: AgentMode): TaskStatus {
    match mode
    case UnknownMode => ExecutionUnknown
    case RecoverableMode => RecoverableError
    case _ => if before != NoStatus then before else if mode == GreetingMode then Idle else Active
  }

  /** A run stores its reply, its question and its status; only a result of a tool makes it a table search. */
  lemma RunStores(c: Checkpoint, message: string, reply: Reply)
    ensures var before, after := View(c), View(Persist(c, message, reply));
            && after.stateVersion == c.stateVersion + 1 && Asks(after, CardOf(reply.interaction))
            && after.taskStatus == RunStatus(before.taskStatus, reply.mode)
            && after.action == (if reply.mode in {ToolResultMode, WaitingMode, RecoverableMode} then "find_table"
                                else before.action)
            && after.objective == (if before.objective != "" then before.objective
                                   else if reply.mode in {GreetingMode, ExplainMode, NeedsContext} then "" else message)
            && after.params == before.params && after.workflowState == before.workflowState
            && after.queryFrame == before.queryFrame && after.conversationSummary == before.conversationSummary
            && after.selectedResources == before.selectedResources + reply.selectedResources
            && after.lastResult == map["success" := Bool(reply.success), "error" := Str(reply.error)]
            && after.lastAssistantTurn == map["content" := Str(reply.message)]
  {
    UncheckedRememberSucceeds(c, PersistArgs(View(c), message, reply));
  }

  /** The first decision the coordinator recognises, if one comes within the bound. */
  ghost predicate FirstRecognised(decisions: seq<Decision>, bound: nat, d: Decision) {
    exists i :: 0 <= i < |decisions| && i < bound && decisions[i] == d && !d.Unrecognised?
                && forall j :: 0 <= j < i ==> decisions[j].Unrecognised?
  }

  lemma {:induction false} DecideIsFirst(decisions: seq<Decision>, index: nat, bound: nat)
    requires forall j :: 0 <= j < index && j < |decisions| ==> decisions[j].Unrecognised?
    ensures var d := Decide(decisions, index, bound);
            if d.Unrecognised? then forall i :: 0 <= i < |decisions| && i < bound ==> decisions[i].Unrecognised?
            else FirstRecognised(decisions, bound, d)
    decreases bound - index
  {
    if index < bound && !(index < |decisions| && !decisions[index].Unrecognised?) {
      DecideIsFirst(decisions, index + 1, bound);
    }
  }

  /** The mode a tool result is stored with, unless the tool names one itself. */
  function ToolMode(result: ToolResult): AgentMode {
    if result.mode.Some? then result.mode.value
    else if result.uncertainWrite then UnknownMode
    else if result.success then ToolResultMode
    else if result.recoverable then RecoverableMode else BlockedMode
  }

  /** A run that does not greet replies what its first recognised decision says, or that it has reached its bound. */
  lemma RunReplies(c: Checkpoint, input: RunInput, maxDecisions: nat) returns (d: Decision)
    requires !input.isGreeting
    ensures var response := Response(View(c), input, maxDecisions);
            if d.Unrecognised? then
              && (forall i :: 0 <= i < |input.decisions| && i < maxDecisions ==> input.decisions[i].Unrecognised?)
              && response.Replied? && !response.reply.success && response.reply.error == "decision_limit_reached"
              && response.reply.mode == BoundedStop && CardOf(response.reply.interaction).None?
            else FirstRecognised(input.decisions, maxDecisions, d) && RepliesWith(d, View(c), input.entry, response)
  {
    d := Decide(input.decisions, 0, maxDecisions);
    DecideIsFirst(input.decisions, 0, maxDecisions);
  }

  /** The reply a decision leads to. */
  predicate RepliesWith(d: Decision, state: Context, entry: PendingInteraction, response: RunOutcome) {
    match d
    case Respond(reply) => response == Replied(reply)
    case AskBack(reply) =>
      && response.Replied? && response.reply.mode != NoMode
      && response.reply == reply.(mode := if reply.mode == NoMode then NeedsContext else reply.mode)
    case Delegate(legacy) =>
      && response.Replied?
      && (legacy.Some? ==> response.reply == legacy.value)
      && (legacy.None? ==>
            && response.reply.mode == NeedsContext && !response.reply.success
            && response.reply.error == "ambiguous_context"
            && CardOf(response.reply.interaction) == Some(entry.(stateVersion := state.stateVersion + 1)))
    case UseTool(result) =>
      response.Replied? ==>
        && response.reply.mode == ToolMode(result) && response.reply.success == result.success
        && response.reply.message == result.message && response.reply.data == result.data
        && response.reply.selectedResources == result.selectedResources
        && (result.uncertainWrite ==> response.reply.error == "execution_unknown")
        && (!result.uncertainWrite && result.success ==> response.reply.error == "")
        && (!result.uncertainWrite && !result.success ==>
              response.reply.error == if result.errorCode != "" then result.errorCode else "tool_failed")
        && (CardOf(result.interaction).Some? || result.success || !result.recoverable ==>
              response.reply.interaction == result.interaction)
        && (CardOf(result.interaction).None? && !result.success && result.recoverable ==>
              AsksAgain(result, response.reply))
    case _ => response == Raised
  }

  /** A failed tool that may be tried again asks for another search text. */
  predicate AsksAgain(result: ToolResult, reply: Reply) {
    && CardOf(reply.interaction).Some?
    && var p := reply.interaction.value.value;
       && p.prompt == result.message && p.purpose == "refine_table_search" && p.kind == FreeText
       && p.options == [] && p.allowCustomInput && p.status == Pending && ValidCard(p)
  }

  /** When a run selects a table, what is stored and shown next is the question what to do with it. */
  lemma SelectedTableIsFollowedUp(c: Checkpoint, input: RunInput, maxDecisions: nat)
    requires var response := Response(View(c), input, maxDecisions);
             response.Replied? && response.reply.mode == TableSelected
    ensures var (next, outcome) := Finish(c, input, maxDecisions);
            && next.pendingInteraction == Some(input.nextAction.(stateVersion := c.stateVersion + 1))
            && next.pendingObjective == next.objective
            && outcome.Replied? && CardOf(outcome.reply.interaction) == next.pendingInteraction
  {
    var reply := WithNextAction(Response(View(c), input, maxDecisions).reply, View(c), input);
    RunStores(c, input.message, reply);
  }
}

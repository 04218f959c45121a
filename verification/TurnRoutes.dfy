/** Which runtime takes a turn, and which action its work follows (dataworks_agent/agent/core.py). */
module TurnRoutes {
  import opened Values
  import opened Text
  import opened Interactions
  import opened Conversation
  import opened ContextResolver
  import opened RunCoordinator
  import opened ChatTurn

  // ----- the runtime -----

  /** The first option with the id pays the name of the table search tool. */
  ghost predicate ChoosesTableSearch(options: seq<InteractionOption>, id: Option<string>) {
    exists i :: 0 <= i < |options| && Some(options[i].id) == id
                && (forall j :: 0 <= j < i ==> options[j].id != options[i].id)
                && "tool_name" in options[i].payload.params
                && options[i].payload.params["tool_name"] == Str("find_table")
  }

  /** The turn is about tables: by its message, or by the question it answers or leaves open. */
  ghost predicate IsAboutTables(c: Checkpoint, t: TurnInput) {
    if t.answer.None? then
      || t.handlesMessage
      || (&& c.action == "find_table" && c.pendingInteraction.Some?
          && IsTablePurpose(c.pendingInteraction.value.purpose))
    else if c.pendingInteraction.None? then false
    else
      var p := c.pendingInteraction.value;
      || (p.purpose == "choose_entry" && t.answer.value.optionId == Some("find_table"))
      || (&& IsTablePurpose(p.purpose)
          && (c.action == "find_table" || ChoosesTableSearch(p.options, t.answer.value.optionId)))
  }

  lemma ChoosesTableSearchIff(options: seq<InteractionOption>, id: string)
    ensures ChoosesTableSearch(options, Some(id)) <==>
              FirstOption(options, id).Some?
              && TextAt(FirstOption(options, id).value.payload.params, "tool_name") == "find_table"
  {
    var first := FirstOption(options, id);
    if first.Some? {
      var i :| 0 <= i < |options| && options[i] == first.value && first.value.id == id
               && forall j :: 0 <= j < i ==> options[j].id != id;
      var payload := options[i].payload;
      assert TextAt(payload.params, "tool_name") == "find_table" <==>
               "tool_name" in payload.params && payload.params["tool_name"] == Str("find_table");
      if ChoosesTableSearch(options, Some(id)) {
        var k :| 0 <= k < |options| && options[k].id == id
                 && (forall j :: 0 <= j < k ==> options[j].id != options[k].id)
                 && "tool_name" in options[k].payload.params
                 && options[k].payload.params["tool_name"] == Str("find_table");
        assert k == i;
      }
    }
  }

  /** The purposes of questions about tables. */
  lemma TablePurposeIff(purpose: string)
    ensures IsTablePurpose(purpose) <==>
              purpose in {"refine_table_search", "select_layer", "select_table", "table_next_action"}
    ensures !IsTablePurpose("") && !IsTablePurpose("choose_entry")
  {
    var entry := "choose_entry";
    assert entry[0] == 'c' && "refine_table_search"[0] == 'r' && "table_next_action"[0] == 't';
    assert "select_layer"[0] == 's' && "select_table"[0] == 's';
  }

  lemma AnsweredRouteIff(c: Checkpoint, answer: InteractionAnswer, handles: bool)
    requires c.pendingInteraction.Some? && c.taskStatus != ExecutionUnknown
    ensures var p := c.pendingInteraction.value;
            UseBoundedRuntime(handles, Some(answer), View(c)) <==>
              || (p.purpose == "choose_entry" && answer.optionId == Some("find_table"))
              || (&& p.purpose != "choose_entry" && IsTablePurpose(p.purpose)
                  && (c.action == "find_table" || ChoosesTableSearch(p.options, answer.optionId)))
  {
    if answer.optionId.Some? {
      ChoosesTableSearchIff(c.pendingInteraction.value.options, answer.optionId.value);
    }
  }

  lemma RouteIff(c: Checkpoint, t: TurnInput)
    ensures UseBoundedRuntime(t.handlesMessage, t.answer, View(c)) <==>
              c.taskStatus != ExecutionUnknown && IsAboutTables(c, t)
  {
    TablePurposeIff("choose_entry");
    if c.taskStatus != ExecutionUnknown && c.pendingInteraction.Some? && t.answer.Some? {
      AnsweredRouteIff(c, t.answer.value, t.handlesMessage);
    }
  }

  /**
   A turn goes to the bounded runtime exactly when the outcome is known and the turn is about tables; it is then a run
   of the coordinator that never calls the workflow, and otherwise a turn on the other path.
   */
  lemma TurnGoesBy(c: Checkpoint, t: TurnInput, maxDecisions: nat)
    requires t.message != "" && !(c.taskStatus == ExecutionUnknown && t.provenReadOnly)
    ensures c.taskStatus != ExecutionUnknown && IsAboutTables(c, t) ==>
              var (next, outcome) := RunSpec(c, t.run.(message := t.message, answer := t.answer), maxDecisions);
              Turn(c, t, maxDecisions) == TurnResult(next, 0, outcome)
    ensures c.taskStatus == ExecutionUnknown || !IsAboutTables(c, t) ==>
              Turn(c, t, maxDecisions) == LegacyTurn(c, t)
  {
    RouteIff(c, t);
  }

  /** An unknown outcome proven to be read-only is first a table search again, with its question under a new version. */
  lemma RecoveredTurnGoesBy(c: Checkpoint, t: TurnInput, maxDecisions: nat)
    requires t.message != "" && c.taskStatus == ExecutionUnknown && t.provenReadOnly
    ensures var recovered := RecoverReadOnly(c, t);
            && Turn(c, t, maxDecisions) == Turn(recovered, t, maxDecisions)
            && recovered.taskStatus == RecoverableError && recovered.action == "find_table"
            && recovered.pendingInteraction == Some(t.recoveryCard.(stateVersion := c.stateVersion + 1))
            && recovered.stateVersion == c.stateVersion + 1
            && recovered.params == c.params && recovered.selectedResources == c.selectedResources
  {
    CheckedRememberSucceeds(c, ReadOnlyArgs(View(c), t.recoveryCard));
  }

  /** A question about tables in a table search brings the next turn to the runtime, with or without an answer. */
  lemma TableQuestionStaysBounded(c: Checkpoint, t: TurnInput, maxDecisions: nat)
    requires c.pendingInteraction.Some? && IsTablePurpose(c.pendingInteraction.value.purpose)
    requires c.action == "find_table" && c.taskStatus != ExecutionUnknown && t.message != ""
    ensures Turn(c, t, maxDecisions).executions == 0
    ensures var (next, outcome) := RunSpec(c, t.run.(message := t.message, answer := t.answer), maxDecisions);
            Turn(c, t, maxDecisions) == TurnResult(next, 0, outcome)
  {
    TurnGoesBy(c, t, maxDecisions);
  }

  // ----- the action of a turn of work -----

  const MODELLING: set<string> := {"ods_dwd_modeling", "forward_modeling", "any_ods_modeling"}

  const WORKFLOWS: set<string> :=
    MODELLING + {"agent_workflow", "reverse_modeling", "diagnose_issue", "cookie_manage", "ask_data"}

  /** The caller asks for an action by name. */
  predicate NamesAction(t: TurnInput) {
    t.requestType != "" && t.requestType != "auto"
  }

  /** A turn in a conversation with this stored action, answering its question or not, follows the action. */
  predicate Follows(t: TurnInput, stored: string, answers: bool, action: string) {
    || (NamesAction(t) && action == t.requestType)
    || (!NamesAction(t) && t.isBusinessQuery && action == "ask_data")
    || (&& !NamesAction(t) && !t.isBusinessQuery && stored != "" && (answers || t.intent == "unknown")
        && action == stored)
    || (&& !NamesAction(t) && !t.isBusinessQuery && (stored == "" || (!answers && t.intent != "unknown"))
        && action == t.intent)
  }

  /** Modelling and questions about data always go to the workflow service, its other actions in an execution mode. */
  predicate NeedsWorkflow(action: string, t: TurnInput) {
    action in MODELLING || action == "ask_data" || (action in WORKFLOWS && t.executionMode.Some?)
  }

  /** The action stored once the message of the turn is merged into the conversation. */
  function StoredAction(c: Checkpoint, message: string, updates: ContextUpdates): string {
    if IsResetMessage(message) then "" else if updates.action != "" then updates.action else c.action
  }

  lemma ResolvedAction(c: Checkpoint, message: string, updates: ContextUpdates)
    ensures ResolveStep(c, message, updates).0.action == StoredAction(c, message, updates)
  {
    ResolveResetsOrMerges(c, message, updates);
  }

  lemma StartsWorkflowIff(action: string, t: TurnInput)
    ensures StartsWorkflow(action, t) <==> NeedsWorkflow(action, t)
  {
  }

  lemma ActionIsOne(t: TurnInput, stored: string, answers: bool, a: string, b: string)
    requires Follows(t, stored, answers, a) && Follows(t, stored, answers, b)
    ensures a == b
  {
  }

  /**
   Work follows exactly one action: the one the caller names, else the data question, else the stored one when the turn
   answers a question or says nothing else, else what it says. The workflow is called once if the action needs it and
   not at all otherwise, and a turn that finishes stores the action.
   */
  lemma WorkFollowsItsAction(c: Checkpoint, previous: Context, consumed: Card, message: string,
                             updates: ContextUpdates, t: TurnInput) returns (action: string)
    requires t.failure == NoFailure && !t.asksAboutContext
    ensures Follows(t, StoredAction(c, message, updates), consumed.Some?, action)
    ensures var r := DoWork(c, previous, consumed, message, updates, t);
            && r.executions == (if NeedsWorkflow(action, t) then 1 else 0)
            && (t.work.Finishes? ==> r.state.action == action && r.state.params == t.intentParams)
            && (t.work.Raises? && NeedsWorkflow(action, t) ==>
                  r.state.taskStatus == ExecutionUnknown && r.state.action == StoredAction(c, message, updates))
  {
    ResolvedAction(c, message, updates);
    var resolved := ResolveStep(c, message, updates).0;
    action := ChosenAction(View(resolved), consumed.Some?, t);
    StartsWorkflowIff(action, t);
    PerformFollows(resolved, previous, consumed, t, action);
  }

  lemma PerformFollows(c: Checkpoint, previous: Context, consumed: Card, t: TurnInput, action: string)
    requires t.failure == NoFailure && !t.asksAboutContext && action == ChosenAction(View(c), consumed.Some?, t)
    ensures var r := Perform(c, previous, consumed, t);
            && r.executions == (if StartsWorkflow(action, t) then 1 else 0)
            && (t.work.Finishes? ==> r.state.action == action && r.state.params == t.intentParams)
            && (t.work.Raises? && StartsWorkflow(action, t) ==>
                  r.state.taskStatus == ExecutionUnknown && r.state.action == c.action)
  {
    if StartsWorkflow(action, t) {
      WorkflowStores(c, action, t);
    } else if t.work.Finishes? {
      CompletedStores(c, View(c).(action := action, params := t.intentParams), t.message, WorkReply(t.work));
    }
  }

  lemma CompletedStores(c: Checkpoint, current: Context, incoming: string, reply: Reply)
    ensures var next := Complete(c, current, incoming, reply).0;
            next.action == current.action && next.params == current.params
  {
    CheckedRememberSucceeds(c, CompleteArgs(current, c.stateVersion, incoming, reply));
  }

  lemma WorkflowStores(c: Checkpoint, action: string, t: TurnInput)
    ensures var r := RunWorkflow(c, action, t);
            && r.executions == 1
            && (t.work.Finishes? ==> r.state.action == action && r.state.params == t.intentParams)
            && (t.work.Raises? ==> r.state.taskStatus == ExecutionUnknown && r.state.action == c.action)
  {
    if t.work.Raises? {
      CheckedRememberSucceeds(c, UnknownArgs(View(c), t.message));
    } else {
      var context := View(c).(
        action := action, params := t.intentParams, workflowState := t.work.workflowState,
        queryFrame := if t.work.queryFrame != map[] then t.work.queryFrame else c.queryFrame);
      CompletedStores(c, context, t.message, WorkReply(t.work));
    }
  }

  /** Work that is interrupted before it starts, or only reads the context, calls no workflow. */
  lemma IdleWork(c: Checkpoint, previous: Context, consumed: Card, message: string, updates: ContextUpdates,
                 t: TurnInput)
    requires t.failure != NoFailure || t.asksAboutContext
    requires t.failure != FailsWhileClassifying
    ensures DoWork(c, previous, consumed, message, updates, t).executions == 0
  {
  }

  // ----- the whole turn -----

  /** The message of the turn is free text that answers the open question. */
  predicate GivesText(c: Checkpoint, t: TurnInput) {
    && c.pendingInteraction.Some? && c.pendingInteraction.value.allowCustomInput
    && t.turn.action !in {Continue, Modify, Refer, NewGoal}
  }

  /** The answer the turn brings: the client's, else the typed one, else its text. */
  predicate Answers(c: Checkpoint, t: TurnInput, answer: InteractionAnswer) {
    if t.answer.Some? then t.answer.value == answer
    else if t.turn.answer.Some? then t.turn.answer.value == answer
    else
      && GivesText(c, t) && t.turn.action !in {CancelTask, ResetTask, Greeting, Explain}
      && var p := c.pendingInteraction.value;
         ValidateAnswer(InteractionAnswer(p.interactionId, None, Some(t.message), p.stateVersion)) == Ok(answer)
  }

  predicate BringsAnswer(t: TurnInput) {
    t.answer.Some? || t.turn.answer.Some?
  }

  /** A turn with no answer that is not an interlude, not unclear, and no free text for an open question. */
  predicate AsksForWork(c: Checkpoint, t: TurnInput) {
    && !BringsAnswer(t) && t.turn.action !in {CancelTask, ResetTask, Greeting, Explain, Clarify}
    && !GivesText(c, t)
  }

  /** The conversation the work starts from: a new goal forgets the old one first. */
  function Started(c: Checkpoint, t: TurnInput): Checkpoint {
    if t.turn.action == NewGoal then StartGoalStep(c, t.message) else c
  }

  /** The turn reads as an interlude or a new goal, which the guard lets pass when the outcome is unknown. */
  predicate PassesGuard(c: Checkpoint, t: TurnInput) {
    c.taskStatus != ExecutionUnknown || t.turn.action in {CancelTask, ResetTask, NewGoal, Greeting, Explain}
  }

  /** A turn whose answer is accepted works with what it was paid, from the conversation the answer leaves. */
  lemma AnsweredTurnWorks(c: Checkpoint, t: TurnInput, answer: InteractionAnswer)
    requires t.failure != FailsWhileClassifying && PassesGuard(c, t)
    requires Answers(c, t, answer) && AnswerStep(c, answer).Ok?
    ensures var (next, payload) := AnswerStep(c, answer).value;
            LegacyTurn(c, t)
            == DoWork(next, View(c), c.pendingInteraction, AnswerMessage(View(c), payload, t.message),
                      AnswerUpdates(MergeUpdates(t.updates, t.turn.updates), payload), t)
  {
    var brought := if t.answer.Some? then t.answer else t.turn.answer;
    assert ImpliedAnswer(c, brought, t) == Ok(Some(answer));
    assert GuardedTurn(c, brought, t) == AnswerTurn(c, answer, t);
  }

  /** A turn that asks for work continues the objective if it says so, and else works on its own text. */
  lemma UnansweredTurnWorks(c: Checkpoint, t: TurnInput)
    requires t.failure != FailsWhileClassifying && PassesGuard(c, t) && AsksForWork(c, t)
    ensures var from := Started(c, t);
            var message := if t.turn.action == Continue && View(c).objective != "" then View(c).objective
                           else t.turn.rewritten;
            LegacyTurn(c, t) == DoWork(from, View(from), None, message, MergeUpdates(t.updates, t.turn.updates), t)
  {
  }

  lemma GuardedCalls(c: Checkpoint, brought: Option<InteractionAnswer>, t: TurnInput)
    requires GuardedTurn(c, brought, t).executions > 0
    ensures t.failure != FailsAfterResolving && !t.asksAboutContext && !Blocked(c, t.turn.action)
    ensures var implied := ImpliedAnswer(c, brought, t);
            && implied.Ok?
            && (implied.value.Some? ==> AnswerStep(c, implied.value.value).Ok?)
            && (implied.value.None? ==> t.turn.action != Clarify)
  {
  }

  /** No other turn calls the workflow. */
  lemma OnlyWorkCalls(c: Checkpoint, t: TurnInput)
    requires LegacyTurn(c, t).executions > 0
    ensures t.failure == NoFailure && !t.asksAboutContext && PassesGuard(c, t)
    ensures AsksForWork(c, t) || exists answer :: Answers(c, t, answer) && AnswerStep(c, answer).Ok?
  {
    var brought := if t.answer.Some? then t.answer else t.turn.answer;
    if brought.Some? || t.turn.action != NewGoal {
      GuardedCalls(c, brought, t);
      var implied := ImpliedAnswer(c, brought, t).value;
      if implied.Some? {
        assert Answers(c, t, implied.value);
      }
    } else {
      GuardedCalls(StartGoalStep(c, t.message), None, t);
    }
  }

  /** A turn on a conversation at rest calls the workflow exactly when the action it follows needs that. */
  lemma TurnCallsWorkflowIff(c: Checkpoint, t: TurnInput, maxDecisions: nat) returns (action: string)
    requires t.message != "" && c.taskStatus != ExecutionUnknown && !IsAboutTables(c, t) && AsksForWork(c, t)
    requires t.failure == NoFailure && !t.asksAboutContext
    ensures var message := if t.turn.action == Continue && View(c).objective != "" then View(c).objective
                           else t.turn.rewritten;
            var updates := MergeUpdates(t.updates, t.turn.updates);
            Follows(t, StoredAction(Started(c, t), message, updates), false, action)
    ensures Turn(c, t, maxDecisions).executions == if NeedsWorkflow(action, t) then 1 else 0
    ensures t.work.Finishes? ==> Turn(c, t, maxDecisions).state.action == action
  {
    TurnGoesBy(c, t, maxDecisions);
    UnansweredTurnWorks(c, t);
    var from := Started(c, t);
    var message := if t.turn.action == Continue && View(c).objective != "" then View(c).objective
                   else t.turn.rewritten;
    action := WorkFollowsItsAction(from, View(from), None, message, MergeUpdates(t.updates, t.turn.updates), t);
  }

  lemma AnsweredWorkFollows(c: Checkpoint, next: Checkpoint, payload: Payload, t: TurnInput) returns (action: string)
    requires t.failure == NoFailure && !t.asksAboutContext && next.action == c.action && c.pendingInteraction.Some?
    ensures var updates := AnswerUpdates(MergeUpdates(t.updates, t.turn.updates), payload);
            var message := AnswerMessage(View(c), payload, t.message);
            var r := DoWork(next, View(c), c.pendingInteraction, message, updates, t);
            && Follows(t, StoredAction(c, message, updates), true, action)
            && r.executions == (if NeedsWorkflow(action, t) then 1 else 0)
            && (t.work.Finishes? ==> r.state.action == action)
  {
    var updates := AnswerUpdates(MergeUpdates(t.updates, t.turn.updates), payload);
    var message := AnswerMessage(View(c), payload, t.message);
    action := WorkFollowsItsAction(next, View(c), c.pendingInteraction, message, updates, t);
  }

  /** The same for a turn whose answer is accepted: then the stored action goes on unless another one is asked for. */
  lemma AnsweredTurnCallsWorkflowIff(c: Checkpoint, t: TurnInput, answer: InteractionAnswer, maxDecisions: nat)
    returns (action: string)
    requires t.message != "" && c.taskStatus != ExecutionUnknown && !IsAboutTables(c, t)
    requires Answers(c, t, answer) && AnswerStep(c, answer).Ok?
    requires t.failure == NoFailure && !t.asksAboutContext
    ensures var payload := AnswerStep(c, answer).value.1;
            var updates := AnswerUpdates(MergeUpdates(t.updates, t.turn.updates), payload);
            Follows(t, StoredAction(c, AnswerMessage(View(c), payload, t.message), updates), true, action)
    ensures Turn(c, t, maxDecisions).executions == if NeedsWorkflow(action, t) then 1 else 0
    ensures t.work.Finishes? ==> Turn(c, t, maxDecisions).state.action == action
  {
    TurnGoesBy(c, t, maxDecisions);
    AnsweredTurnWorks(c, t, answer);
    var (next, payload) := AnswerStep(c, answer).value;
    action := AnsweredWorkFollows(c, next, payload, t);
  }

  /** A question about lineage in a modelling task reads: it calls nothing, and the task is no longer modelling. */
  lemma LineageQuestionCallsNothing(c: Checkpoint, t: TurnInput, maxDecisions: nat)
    requires c.action == "forward_modeling" && c.taskStatus == Active && c.pendingInteraction.None?
    requires t.message != "" && t.answer.None? && !t.handlesMessage && t.failure == NoFailure && !t.asksAboutContext
    requires t.turn.action == Refer && t.turn.answer.None? && t.requestType == "" && !t.isBusinessQuery
    requires t.intent == "query_lineage" && t.executionMode == Some("plan")
    ensures Turn(c, t, maxDecisions).executions == 0
    ensures t.work.Finishes? ==> Turn(c, t, maxDecisions).state.action == "query_lineage"
  {
    var action := TurnCallsWorkflowIff(c, t, maxDecisions);
    LineageIsNoWorkflow();
  }

  lemma LineageIsNoWorkflow()
    ensures "query_lineage" !in WORKFLOWS && "query_lineage" != "unknown"
  {
    var q := "query_lineage";
    assert q[0] == 'q' && "unknown"[0] == 'u';
    assert forall name :: name in WORKFLOWS ==> name[0] != 'q';
  }
}

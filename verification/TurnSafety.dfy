/** Safety over every sequence of turns: an unknown outcome is never retried, and cards stay answerable. */
module TurnSafety {
  import opened Values
  import opened Interactions
  import opened Conversation
  import opened ConversationRuns
  import opened ContextResolver
  import opened RunCoordinator
  import opened AcceptedAnswers
  import opened ChatTurn

  /** Nothing can be answered while the outcome of an execution is unknown. */
  predicate Safe(c: Checkpoint) {
    && Consistent(c)
    && (c.taskStatus == ExecutionUnknown ==> c.pendingInteraction.None?)
  }

  predicate CleanReply(reply: Reply) {
    reply.mode == UnknownMode ==> CardOf(reply.interaction).None?
  }

  predicate CleanOutcome(outcome: RunOutcome) {
    outcome.Replied? ==> CleanReply(outcome.reply)
  }

  /** A decision that reports an unknown outcome brings no card with it. */
  predicate CleanDecision(d: Decision) {
    match d
    case UseTool(result) => CleanOutcome(ToolResponse(result))
    case Respond(reply) => CleanReply(reply)
    case AskBack(reply) => CleanReply(reply)
    case Delegate(legacy) => legacy.Some? ==> CleanReply(legacy.value)
    case _ => true
  }

  predicate CleanTurn(t: TurnInput) {
    forall i :: 0 <= i < |t.run.decisions| ==> CleanDecision(t.run.decisions[i])
  }

  /** The turn starts a new goal, cancels, resets, or is recovered as proven read-only. */
  predicate Releases(t: TurnInput) {
    && t.message != ""
    && (|| t.provenReadOnly
        || (&& t.failure != FailsWhileClassifying && t.answer.None? && t.turn.answer.None?
            && (t.turn.action == NewGoal || t.turn.action == CancelTask || t.turn.action == ResetTask)))
  }

  // ----- every turn keeps Safe -----

  lemma RememberIsConsistent(c: Checkpoint, a: RememberArgs)
    requires RememberStep(c, a).Ok?
    ensures Consistent(RememberStep(c, a).value)
    ensures RememberStep(c, a).value.stateVersion == c.stateVersion + 1
    ensures a.taskStatus.Some? ==> RememberStep(c, a).value.taskStatus == a.taskStatus.value
    ensures a.pendingInteraction.Some? ==>
              RememberStep(c, a).value.pendingInteraction == Stamp(a.pendingInteraction.value, c.stateVersion + 1)
    ensures a.pendingInteraction.None? && !a.needsClarification ==>
              RememberStep(c, a).value.pendingInteraction.None?
  {
  }

  lemma CompleteIsSafe(c: Checkpoint, current: Context, incoming: string, reply: Reply)
    requires CleanReply(reply)
    ensures var (next, shown) := Complete(c, current, incoming, reply);
            && Safe(next)
            && (next.taskStatus == ExecutionUnknown <==> reply.mode == UnknownMode)
            && CardOf(shown.interaction) == next.pendingInteraction
  {
    var a := CompleteArgs(current, c.stateVersion, incoming, reply);
    CheckedRememberSucceeds(c, a);
    RememberIsConsistent(c, a);
  }

  lemma DecideFindsClean(decisions: seq<Decision>, index: nat, bound: nat)
    requires forall i :: 0 <= i < |decisions| ==> CleanDecision(decisions[i])
    ensures CleanDecision(Decide(decisions, index, bound))
    decreases bound - index
  {
  }

  lemma ResponseIsClean(c: Checkpoint, input: RunInput, maxDecisions: nat)
    requires forall i :: 0 <= i < |input.decisions| ==> CleanDecision(input.decisions[i])
    ensures CleanOutcome(Response(View(c), input, maxDecisions))
  {
    DecideFindsClean(input.decisions, 0, maxDecisions);
  }

  lemma PersistIsSafe(c: Checkpoint, message: string, reply: Reply)
    requires CleanReply(reply) && c.taskStatus != ExecutionUnknown
    ensures Safe(Persist(c, message, reply))
  {
    var a := PersistArgs(View(c), message, reply);
    UncheckedRememberSucceeds(c, a);
    RememberIsConsistent(c, a);
  }

  lemma FinishIsSafe(c: Checkpoint, input: RunInput, maxDecisions: nat)
    requires Safe(c) && c.taskStatus != ExecutionUnknown
    requires forall i :: 0 <= i < |input.decisions| ==> CleanDecision(input.decisions[i])
    ensures Safe(Finish(c, input, maxDecisions).0)
  {
    ResponseIsClean(c, input, maxDecisions);
    var response := Response(View(c), input, maxDecisions);
    if response.Replied? {
      PersistIsSafe(c, input.message, WithNextAction(response.reply, View(c), input));
    }
  }

  lemma AnswerIsSafe(c: Checkpoint, answer: InteractionAnswer)
    requires Safe(c) && AnswerStep(c, answer).Ok?
    ensures Safe(AnswerStep(c, answer).value.0) && AnswerStep(c, answer).value.0.taskStatus == c.taskStatus
    ensures c.taskStatus != ExecutionUnknown
  {
    StepKeepsConsistent(c, Answer(answer));
  }

  lemma BoundedTurnIsSafe(c: Checkpoint, t: TurnInput, maxDecisions: nat)
    requires Safe(c) && CleanTurn(t) && c.taskStatus != ExecutionUnknown
    ensures Safe(BoundedTurn(c, t, maxDecisions).state)
  {
    var input := RunInputOf(t);
    var entered := Enter(c, input);
    StepKeepsConsistent(c, StartGoal(input.message));
    assert Safe(entered) && entered.taskStatus != ExecutionUnknown;
    if AfterAnswer(entered, input).Ok? {
      AnsweredIsSafe(entered, input);
      FinishIsSafe(AfterAnswer(entered, input).value, input, maxDecisions);
    }
  }

  lemma AnsweredIsSafe(c: Checkpoint, input: RunInput)
    requires Safe(c) && AfterAnswer(c, input).Ok?
    ensures Safe(AfterAnswer(c, input).value) && AfterAnswer(c, input).value.taskStatus == c.taskStatus
  {
    var chosen := ChosenAnswer(c, input).value;
    if chosen.Some? {
      AnswerIsSafe(c, chosen.value);
    }
  }

  lemma ResolveIsSafe(c: Checkpoint, message: string, updates: ContextUpdates)
    requires Safe(c)
    ensures Safe(ResolveStep(c, message, updates).0)
  {
    ResolveKeepsConsistent(c, message, updates);
  }

  lemma FallbackIsSafe(c: Checkpoint, previous: Context, consumed: Card, t: TurnInput)
    requires Safe(c)
    ensures Safe(Fallback(c, previous, consumed, t).state)
  {
    if consumed.Some? {
      var a := RecoveryArgs(previous, consumed.value, t.message, c.stateVersion);
      CheckedRememberSucceeds(c, a);
      RememberIsConsistent(c, a);
    }
  }

  lemma MarkUnknownIsSafe(c: Checkpoint, incoming: string)
    ensures Safe(MarkUnknown(c, incoming)) && MarkUnknown(c, incoming).taskStatus == ExecutionUnknown
  {
    CheckedRememberSucceeds(c, UnknownArgs(View(c), incoming));
    RememberIsConsistent(c, UnknownArgs(View(c), incoming));
  }

  lemma PerformIsSafe(c: Checkpoint, previous: Context, consumed: Card, t: TurnInput)
    requires Safe(c)
    ensures Safe(Perform(c, previous, consumed, t).state)
  {
    FallbackIsSafe(c, previous, consumed, t);
    if t.asksAboutContext {
      CompleteIsSafe(c, View(c), t.message, t.contextReply.(mode := OtherMode("read_only")));
    } else {
      var action := ChosenAction(View(c), consumed.Some?, t);
      WorkflowIsSafe(c, action, t);
      if t.work.Finishes? {
        CompleteIsSafe(c, View(c).(action := action, params := t.intentParams), t.message, WorkReply(t.work));
      }
    }
  }

  lemma WorkflowIsSafe(c: Checkpoint, action: string, t: TurnInput)
    ensures Safe(RunWorkflow(c, action, t).state)
    ensures t.work.Raises? ==> RunWorkflow(c, action, t).state.taskStatus == ExecutionUnknown
  {
    if t.work.Raises? {
      MarkUnknownIsSafe(c, t.message);
    } else {
      var context := View(c).(
        action := action, params := t.intentParams, workflowState := t.work.workflowState,
        queryFrame := if t.work.queryFrame != map[] then t.work.queryFrame else c.queryFrame);
      CompleteIsSafe(c, context, t.message, WorkReply(t.work));
    }
  }

  lemma DoWorkIsSafe(c: Checkpoint, previous: Context, consumed: Card, message: string, updates: ContextUpdates,
                     t: TurnInput)
    requires Safe(c)
    ensures Safe(DoWork(c, previous, consumed, message, updates, t).state)
  {
    ResolveIsSafe(c, message, updates);
    PerformIsSafe(ResolveStep(c, message, updates).0, previous, consumed, t);
  }

  lemma GuardedTurnIsSafe(c: Checkpoint, answer: Option<InteractionAnswer>, t: TurnInput)
    requires Safe(c)
    ensures Safe(GuardedTurn(c, answer, t).state)
  {
    var implied := ImpliedAnswer(c, answer, t);
    CompleteIsSafe(c, View(c), t.message, UnknownReply());
    CompleteIsSafe(c, View(c), t.message, ClarifyReply(View(c), t.entry));
    if implied.Ok? && implied.value.Some? {
      if AnswerStep(c, implied.value.value).Ok? {
        AnswerIsSafe(c, implied.value.value);
        var (next, payload) := AnswerStep(c, implied.value.value).value;
        DoWorkIsSafe(next, View(c), c.pendingInteraction, AnswerMessage(View(c), payload, t.message),
                     AnswerUpdates(MergeUpdates(t.updates, t.turn.updates), payload), t);
      }
    } else if implied.Ok? {
      var message := if t.turn.action == Continue && View(c).objective != "" then View(c).objective
                     else t.turn.rewritten;
      DoWorkIsSafe(c, View(c), None, message, MergeUpdates(t.updates, t.turn.updates), t);
    }
  }

  lemma LegacyTurnIsSafe(c: Checkpoint, t: TurnInput)
    requires Safe(c)
    ensures Safe(LegacyTurn(c, t).state)
  {
    var answer := if t.answer.Some? then t.answer else t.turn.answer;
    if answer.Some? {
      GuardedTurnIsSafe(c, answer, t);
    } else if EndsTheTurn(t.turn.action) {
      InterludeIsClean(c, t);
      var (next, reply) := Interlude(c, t);
      CompleteIsSafe(next, View(next), t.message, reply);
    } else {
      GuardedTurnIsSafe(if t.turn.action == NewGoal then StartGoalStep(c, t.message) else c, None, t);
    }
  }

  lemma InterludeIsClean(c: Checkpoint, t: TurnInput)
    ensures CleanReply(Interlude(c, t).1)
    ensures c.taskStatus == ExecutionUnknown && t.turn.action != CancelTask && t.turn.action != ResetTask ==>
              Interlude(c, t) == (c, UnknownReply())
  {
  }

  lemma RecoveryIsSafe(c: Checkpoint, t: TurnInput)
    requires Safe(c)
    ensures Safe(RecoverReadOnly(c, t))
  {
    var a := ReadOnlyArgs(View(c), t.recoveryCard);
    CheckedRememberSucceeds(c, a);
    RememberIsConsistent(c, a);
  }

  lemma RoutedTurnIsSafe(c: Checkpoint, bounded: bool, t: TurnInput, maxDecisions: nat)
    requires Safe(c) && CleanTurn(t) && (bounded ==> c.taskStatus != ExecutionUnknown)
    ensures Safe(RoutedTurn(c, bounded, t, maxDecisions).state)
  {
    if bounded {
      BoundedTurnIsSafe(c, t, maxDecisions);
    } else {
      LegacyTurnIsSafe(c, t);
    }
  }

  lemma TurnIsSafe(c: Checkpoint, t: TurnInput, maxDecisions: nat)
    requires Safe(c) && CleanTurn(t)
    ensures Safe(Turn(c, t, maxDecisions).state)
  {
    RecoveryIsSafe(c, t);
    var recovered := RecoverReadOnly(c, t);
    RoutedTurnIsSafe(recovered, UseBoundedRuntime(t.handlesMessage, t.answer, View(recovered)), t, maxDecisions);
  }

  // ----- an unknown outcome is never retried -----

  /** With the outcome unknown and not proven read-only, a turn never reaches the bounded runtime. */
  lemma UnknownTurnIsLegacy(c: Checkpoint, t: TurnInput, maxDecisions: nat)
    requires c.taskStatus == ExecutionUnknown && t.message != "" && !t.provenReadOnly
    ensures Turn(c, t, maxDecisions) == LegacyTurn(c, t)
  {
  }

  lemma UnknownLegacyTurn(c: Checkpoint, t: TurnInput)
    requires Safe(c) && c.taskStatus == ExecutionUnknown && !Releases(t) && t.message != ""
    ensures var r := LegacyTurn(c, t); r.executions == 0 && r.state.taskStatus == ExecutionUnknown && Safe(r.state)
  {
    CompleteIsSafe(c, View(c), t.message, UnknownReply());
    InterludeIsClean(c, t);
  }

  /** One turn: unless it releases the task, the workflow is not called and the outcome stays unknown. */
  lemma UnknownStaysUnknown(c: Checkpoint, t: TurnInput, maxDecisions: nat)
    requires Safe(c) && c.taskStatus == ExecutionUnknown && !Releases(t)
    ensures var r := Turn(c, t, maxDecisions);
            r.executions == 0 && r.state.taskStatus == ExecutionUnknown && Safe(r.state)
  {
    if t.message != "" {
      UnknownTurnIsLegacy(c, t, maxDecisions);
      UnknownLegacyTurn(c, t);
    }
  }

  function RunTurns(c: Checkpoint, ts: seq<TurnInput>, maxDecisions: nat): (r: (Checkpoint, nat))
    decreases |ts|
  {
    if ts == [] then (c, 0)
    else
      var first := Turn(c, ts[0], maxDecisions);
      var (last, executions) := RunTurns(first.state, ts[1..], maxDecisions);
      (last, first.executions + executions)
  }

  lemma {:induction false} RunsAreSafe(c: Checkpoint, ts: seq<TurnInput>, maxDecisions: nat)
    requires Safe(c)
    requires forall i :: 0 <= i < |ts| ==> CleanTurn(ts[i])
    ensures Safe(RunTurns(c, ts, maxDecisions).0)
    decreases |ts|
  {
    if ts != [] {
      TurnIsSafe(c, ts[0], maxDecisions);
      RunsAreSafe(Turn(c, ts[0], maxDecisions).state, ts[1..], maxDecisions);
    }
  }

  lemma {:induction false} UnknownRunsNothing(c: Checkpoint, ts: seq<TurnInput>, maxDecisions: nat)
    requires Safe(c) && c.taskStatus == ExecutionUnknown
    requires forall i :: 0 <= i < |ts| ==> !Releases(ts[i])
    ensures RunTurns(c, ts, maxDecisions).1 == 0
    ensures RunTurns(c, ts, maxDecisions).0.taskStatus == ExecutionUnknown
    decreases |ts|
  {
    if ts != [] {
      UnknownStaysUnknown(c, ts[0], maxDecisions);
      UnknownRunsNothing(Turn(c, ts[0], maxDecisions).state, ts[1..], maxDecisions);
    }
  }

  /**
   In every conversation, from its first turn on: once a turn leaves the outcome unknown, no later turn
   calls the workflow service until one starts a goal, cancels, resets or is proven read-only, whatever
   answers the turns carry and whatever the classifiers say.
   */
  lemma UnknownOutcomeIsNeverRetried(before: seq<TurnInput>, after: seq<TurnInput>, maxDecisions: nat)
    requires forall i :: 0 <= i < |before| ==> CleanTurn(before[i])
    requires RunTurns(FRESH, before, maxDecisions).0.taskStatus == ExecutionUnknown
    requires forall i :: 0 <= i < |after| ==> !Releases(after[i])
    ensures var unknown := RunTurns(FRESH, before, maxDecisions).0;
            && RunTurns(unknown, after, maxDecisions).1 == 0
            && RunTurns(unknown, after, maxDecisions).0.taskStatus == ExecutionUnknown
  {
    RunsAreSafe(FRESH, before, maxDecisions);
    UnknownRunsNothing(RunTurns(FRESH, before, maxDecisions).0, after, maxDecisions);
  }

  /** A workflow that throws always leaves the outcome unknown, with nothing to answer. */
  lemma RaisedWorkflowIsUnknown(c: Checkpoint, previous: Context, consumed: Card, t: TurnInput)
    requires t.work.Raises? && Perform(c, previous, consumed, t).executions > 0
    ensures var r := Perform(c, previous, consumed, t);
            r.executions == 1 && r.state.taskStatus == ExecutionUnknown && r.state.pendingInteraction.None?
  {
    WorkflowIsSafe(c, ChosenAction(View(c), consumed.Some?, t), t);
  }

  /** The tool leaves the mode of its response alone, or sets the unknown mode itself. */
  predicate KeepsUnknownMode(result: ToolResult) {
    result.mode.None? || result.mode.value == UnknownMode
  }

  /**
   The data of a tool may override the mode: an uncertain write is stored as unknown exactly when it does not, and
   safely as unknown exactly when moreover its data carries no card.
   */
  lemma UncertainWriteIsSafeIff(c: Checkpoint, input: RunInput, maxDecisions: nat)
    requires Safe(c) && c.taskStatus != ExecutionUnknown && maxDecisions > 0 && !input.isGreeting
    requires |input.decisions| > 0 && input.decisions[0].UseTool?
    requires input.decisions[0].result.uncertainWrite && !input.decisions[0].result.recoverable
    ensures var next, result := Finish(c, input, maxDecisions).0, input.decisions[0].result;
            && (next.taskStatus == ExecutionUnknown <==> KeepsUnknownMode(result))
            && (Safe(next) && next.taskStatus == ExecutionUnknown
                <==> KeepsUnknownMode(result) && CardOf(result.interaction).None?)
  {
    var reply := ToolResponse(input.decisions[0].result).reply;
    assert Decide(input.decisions, 0, maxDecisions) == input.decisions[0];
    var a := PersistArgs(View(c), input.message, WithNextAction(reply, View(c), input));
    UncheckedRememberSucceeds(c, a);
    RememberIsConsistent(c, a);
  }

  /** The caller asked for a modelling action by name. */
  predicate RequestsModelling(t: TurnInput) {
    t.requestType != "" && t.requestType != "auto" && IsModelling(t.requestType)
  }

  lemma RequestedModellingStarts(c: Checkpoint, previous: Context, consumed: Card, t: TurnInput)
    requires RequestsModelling(t) && t.failure == NoFailure && !t.asksAboutContext
    ensures Perform(c, previous, consumed, t).executions == 1
  {
    assert ChosenAction(View(c), consumed.Some?, t) == t.requestType;
  }

  lemma AnsweredTurnExecutes(c: Checkpoint, answer: InteractionAnswer, t: TurnInput)
    requires AnswerStep(c, answer).Ok? && t.failure == NoFailure && !t.asksAboutContext
    requires RequestsModelling(t)
    ensures AnswerTurn(c, answer, t).executions == 1
  {
    var (next, payload) := AnswerStep(c, answer).value;
    var resolved := ResolveStep(next, AnswerMessage(View(c), payload, t.message),
                                AnswerUpdates(MergeUpdates(t.updates, t.turn.updates), payload)).0;
    RequestedModellingStarts(resolved, View(c), c.pendingInteraction, t);
  }

  /**
   Why the invariant matters: next to an interlude or a goal, an answer passes the guard even while the
   outcome is unknown, so only the absence of a card keeps AnswerTurn from calling the workflow.
   */
  lemma GuardLetsAnswersThrough(c: Checkpoint, t: TurnInput)
    requires c.taskStatus == ExecutionUnknown && !t.provenReadOnly && t.failure == NoFailure
    requires t.answer.Some? && !Blocked(c, t.turn.action)
    ensures !Releases(t) && LegacyTurn(c, t) == AnswerTurn(c, t.answer.value, t)
  {
  }

  // ----- cards can be answered -----

  /** Clicking a listed option of the stored card succeeds and pays the first option with that id. */
  lemma StoredCardIsAnswerable(c: Checkpoint, k: nat)
    requires OpenQuestion(View(c)).Some? && k < |c.pendingInteraction.value.options|
    ensures var p := c.pendingInteraction.value;
            var answer := InteractionAnswer(p.interactionId, Some(p.options[k].id), None, p.stateVersion);
            && ValidateAnswer(answer) == Ok(answer)
            && AnswerStep(c, answer).Ok?
            && Some(AnswerStep(c, answer).value.1)
               == (match FirstOption(p.options, p.options[k].id) case Some(o) => Some(o.payload) case None => None)
  {
    var p := c.pendingInteraction.value;
    assert ValidOption(p.options[k]);
    assert FirstOption(p.options, p.options[k].id).Some?;
  }

  /** The card a response shows, if any, is the stored card. */
  predicate ShowsStoredCard(c: Checkpoint, outcome: RunOutcome) {
    outcome.Replied? && CardOf(outcome.reply.interaction).Some? ==>
      CardOf(outcome.reply.interaction) == c.pendingInteraction
  }

  lemma CompletedShowsStoredCard(c: Checkpoint, current: Context, incoming: string, reply: Reply)
    ensures ShowsStoredCard(Complete(c, current, incoming, reply).0, Replied(Complete(c, current, incoming, reply).1))
  {
    var a := CompleteArgs(current, c.stateVersion, incoming, reply);
    CheckedRememberSucceeds(c, a);
    RememberIsConsistent(c, a);
  }

  lemma WorkflowShowsStoredCard(c: Checkpoint, action: string, t: TurnInput)
    ensures ShowsStoredCard(RunWorkflow(c, action, t).state, RunWorkflow(c, action, t).outcome)
  {
    if t.work.Finishes? {
      var context := View(c).(
        action := action, params := t.intentParams, workflowState := t.work.workflowState,
        queryFrame := if t.work.queryFrame != map[] then t.work.queryFrame else c.queryFrame);
      CompletedShowsStoredCard(c, context, t.message, WorkReply(t.work));
    }
  }

  lemma PerformShowsStoredCard(c: Checkpoint, previous: Context, consumed: Card, t: TurnInput)
    ensures var r := Perform(c, previous, consumed, t); ShowsStoredCard(r.state, r.outcome)
  {
    if t.failure == FailsAfterResolving {
      FallbackShowsStoredCard(c, previous, consumed, t);
    } else if t.asksAboutContext {
      CompletedShowsStoredCard(c, View(c), t.message, t.contextReply.(mode := OtherMode("read_only")));
    } else {
      var action := ChosenAction(View(c), consumed.Some?, t);
      if StartsWorkflow(action, t) {
        WorkflowShowsStoredCard(c, action, t);
      } else if t.work.Raises? {
        FallbackShowsStoredCard(c, previous, consumed, t);
      } else {
        CompletedShowsStoredCard(c, View(c).(action := action, params := t.intentParams), t.message, WorkReply(t.work));
      }
    }
  }

  lemma FallbackShowsStoredCard(c: Checkpoint, previous: Context, consumed: Card, t: TurnInput)
    ensures var r := Fallback(c, previous, consumed, t); ShowsStoredCard(r.state, r.outcome)
  {
  }

  lemma GuardedTurnShowsStoredCard(c: Checkpoint, answer: Option<InteractionAnswer>, t: TurnInput)
    ensures var r := GuardedTurn(c, answer, t); ShowsStoredCard(r.state, r.outcome)
  {
    var implied := ImpliedAnswer(c, answer, t);
    CompletedShowsStoredCard(c, View(c), t.message, UnknownReply());
    CompletedShowsStoredCard(c, View(c), t.message, ClarifyReply(View(c), t.entry));
    if implied.Ok? && implied.value.Some? {
      if AnswerStep(c, implied.value.value).Ok? {
        var (next, payload) := AnswerStep(c, implied.value.value).value;
        var resolved := ResolveStep(next, AnswerMessage(View(c), payload, t.message),
                                    AnswerUpdates(MergeUpdates(t.updates, t.turn.updates), payload)).0;
        PerformShowsStoredCard(resolved, View(c), c.pendingInteraction, t);
      }
    } else if implied.Ok? {
      var message := if t.turn.action == Continue && View(c).objective != "" then View(c).objective
                     else t.turn.rewritten;
      var resolved := ResolveStep(c, message, MergeUpdates(t.updates, t.turn.updates)).0;
      PerformShowsStoredCard(resolved, View(c), None, t);
    }
  }

  lemma LegacyTurnShowsStoredCard(c: Checkpoint, t: TurnInput)
    ensures var r := LegacyTurn(c, t); ShowsStoredCard(r.state, r.outcome)
  {
    var answer := if t.answer.Some? then t.answer else t.turn.answer;
    if answer.Some? {
      GuardedTurnShowsStoredCard(c, answer, t);
    } else if EndsTheTurn(t.turn.action) {
      var (next, reply) := Interlude(c, t);
      CompletedShowsStoredCard(next, View(next), t.message, reply);
    } else {
      GuardedTurnShowsStoredCard(if t.turn.action == NewGoal then StartGoalStep(c, t.message) else c, None, t);
    }
  }

  /** The run greets although a question is open. */
  predicate GreetsOverOpenQuestion(c: Checkpoint, input: RunInput) {
    && input.isGreeting
    && AfterAnswer(c, input).Ok?
    && AfterAnswer(c, input).value.pendingInteraction.Some?
  }

  /** No decision of the provider claims to be the greeting of the coordinator itself. */
  predicate OnlyCoordinatorGreets(decisions: seq<Decision>) {
    forall i :: 0 <= i < |decisions| ==> !GreetsItself(decisions[i])
  }

  predicate GreetsItself(d: Decision) {
    match d
    case UseTool(result) => result.mode == Some(GreetingMode)
    case Respond(reply) => reply.mode == GreetingMode
    case AskBack(reply) => reply.mode == GreetingMode
    case Delegate(legacy) => legacy.Some? && legacy.value.mode == GreetingMode
    case _ => false
  }

  lemma DecideNeverGreets(decisions: seq<Decision>, index: nat, bound: nat)
    requires OnlyCoordinatorGreets(decisions)
    ensures !GreetsItself(Decide(decisions, index, bound))
    decreases bound - index
  {
  }

  /** A run shows the stored card, unless it greets over an open question: then it shows the card one version late. */
  lemma FinishShowsStoredCardIffFresh(c: Checkpoint, input: RunInput, maxDecisions: nat)
    requires Consistent(c) && OnlyCoordinatorGreets(input.decisions)
    ensures var (next, outcome) := Finish(c, input, maxDecisions);
            && (!(input.isGreeting && c.pendingInteraction.Some?) ==> ShowsStoredCard(next, outcome))
            && (input.isGreeting && c.pendingInteraction.Some? ==>
                  && outcome.Replied? && CardOf(outcome.reply.interaction) == c.pendingInteraction
                  && next.pendingInteraction == Stamp(c.pendingInteraction, c.stateVersion + 1)
                  && !ShowsStoredCard(next, outcome))
  {
    var response := Response(View(c), input, maxDecisions);
    DecideNeverGreets(input.decisions, 0, maxDecisions);
    if response.Replied? {
      var reply := WithNextAction(response.reply, View(c), input);
      var a := PersistArgs(View(c), input.message, reply);
      UncheckedRememberSucceeds(c, a);
      RememberIsConsistent(c, a);
      assert input.isGreeting <==> response.reply.mode == GreetingMode;
    }
  }

  lemma AnsweredIsConsistent(c: Checkpoint, input: RunInput)
    requires Consistent(c)
    ensures match AfterAnswer(c, input)
            case Ok(next) => Consistent(next)
            case Err(outcome) => ShowsStoredCard(c, outcome)
  {
    var chosen := ChosenAnswer(c, input);
    if chosen.Ok? && chosen.value.Some? {
      AnswerIsConsistent(c, chosen.value.value);
    }
  }

  lemma AnswerIsConsistent(c: Checkpoint, answer: InteractionAnswer)
    requires Consistent(c)
    ensures match AnswerStep(c, answer)
            case Ok(success) => Consistent(success.0)
            case Err(e) => ShowsStoredCard(c, Unanswered(c, e))
  {
  }

  /** An entered run shows the stored card exactly when it does not greet over an open question. */
  lemma RunShowsStoredCard(c: Checkpoint, input: RunInput, maxDecisions: nat)
    requires Consistent(c) && OnlyCoordinatorGreets(input.decisions)
    ensures var (next, outcome) := Proceed(c, input, maxDecisions);
            ShowsStoredCard(next, outcome) <==> !GreetsOverOpenQuestion(c, input)
  {
    AnsweredIsConsistent(c, input);
    if AfterAnswer(c, input).Ok? {
      FinishShowsStoredCardIffFresh(AfterAnswer(c, input).value, input, maxDecisions);
    }
  }

  /** The turn goes to the bounded runtime, which greets although a question is open. */
  predicate TurnGreetsOverOpenQuestion(c: Checkpoint, t: TurnInput) {
    var recovered := RecoverReadOnly(c, t);
    && t.message != "" && UseBoundedRuntime(t.handlesMessage, t.answer, View(recovered))
    && GreetsOverOpenQuestion(Enter(recovered, RunInputOf(t)), RunInputOf(t))
  }

  /**
   Every turn shows the stored card, and so one that the next answer can meet, except exactly when a
   bounded run greets while a question is open.
   */
  lemma TurnShowsStoredCard(c: Checkpoint, t: TurnInput, maxDecisions: nat)
    requires Safe(c) && OnlyCoordinatorGreets(t.run.decisions)
    ensures var r := Turn(c, t, maxDecisions);
            ShowsStoredCard(r.state, r.outcome) <==> !TurnGreetsOverOpenQuestion(c, t)
  {
    RecoveryIsSafe(c, t);
    var recovered := RecoverReadOnly(c, t);
    LegacyTurnShowsStoredCard(recovered, t);
    StepKeepsConsistent(recovered, StartGoal(t.message));
    RunShowsStoredCard(Enter(recovered, RunInputOf(t)), RunInputOf(t), maxDecisions);
  }

  /** A greeting over an open question shows a card on which every click is refused. */
  lemma GreetedCardIsRefused(c: Checkpoint, input: RunInput, maxDecisions: nat, k: nat)
    requires Consistent(c) && OnlyCoordinatorGreets(input.decisions)
    requires input.isGreeting && c.pendingInteraction.Some? && k < |c.pendingInteraction.value.options|
    ensures var (next, outcome) := Finish(c, input, maxDecisions);
            && outcome.Replied? && CardOf(outcome.reply.interaction) == c.pendingInteraction
            && AnswerStep(next, Click(c.pendingInteraction.value, k)).Err?
  {
    FinishShowsStoredCardIffFresh(c, input, maxDecisions);
    StampedCardIsNewer(Finish(c, input, maxDecisions).0, c.pendingInteraction.value, k);
  }

  lemma StampedCardIsNewer(next: Checkpoint, p: PendingInteraction, k: nat)
    requires next.pendingInteraction == Some(p.(stateVersion := p.stateVersion + 1)) && k < |p.options|
    ensures AnswerStep(next, Click(p, k)).Err?
  {
  }

  // ----- turns without a conversation -----

  /** Equal but for the version of the card. */
  predicate SameReply(a: Reply, b: Reply) {
    b == a.(interaction := b.interaction) && Stamp(CardOf(a.interaction), 0) == Stamp(CardOf(b.interaction), 0)
  }

  predicate SameReplies(a: RunOutcome, b: RunOutcome) {
    match (a, b)
    case (Replied(x), Replied(y)) => SameReply(x, y)
    case (Raised, Raised) => true
    case _ => false
  }

  lemma CompletedRepliesAlike(c: Checkpoint, current: Context, incoming: string, reply: Reply)
    ensures SameReply(reply, Complete(c, current, incoming, reply).1)
  {
    var a := CompleteArgs(current, c.stateVersion, incoming, reply);
    CheckedRememberSucceeds(c, a);
    RememberIsConsistent(c, a);
  }

  /** The workflow throws: the one case in which a stored conversation answers otherwise. */
  predicate WorkflowRaises(t: TurnInput) {
    t.work.Raises? && t.failure == NoFailure && !t.asksAboutContext
    && StartsWorkflow(ChosenAction(View(FRESH), false, t), t)
  }

  lemma PerformsAlike(c: Checkpoint, previous: Context, t: TurnInput)
    requires c.action == ""
    ensures Perform(c, previous, None, t).executions == AnonymousWork(t).0
    ensures !WorkflowRaises(t) && t.failure != FailsWhileClassifying ==>
              SameReplies(AnonymousWork(t).1, Perform(c, previous, None, t).outcome)
  {
    var action := ChosenAction(View(FRESH), false, t);
    assert ChosenAction(View(c), false, t) == action;
    if t.asksAboutContext {
      CompletedRepliesAlike(c, View(c), t.message, t.contextReply.(mode := OtherMode("read_only")));
    } else if t.work.Finishes? {
      WorkflowRepliesAlike(c, action, t);
      CompletedRepliesAlike(c, View(c).(action := action, params := t.intentParams), t.message, WorkReply(t.work));
    }
  }

  lemma WorkflowRepliesAlike(c: Checkpoint, action: string, t: TurnInput)
    requires t.work.Finishes?
    ensures SameReplies(Replied(WorkReply(t.work)), RunWorkflow(c, action, t).outcome)
  {
    var context := View(c).(
      action := action, params := t.intentParams, workflowState := t.work.workflowState,
      queryFrame := if t.work.queryFrame != map[] then t.work.queryFrame else c.queryFrame);
    CompletedRepliesAlike(c, context, t.message, WorkReply(t.work));
  }

  lemma ResolvedHasNoAction(c: Checkpoint, message: string, updates: ContextUpdates)
    requires c.action == "" && updates.action == ""
    ensures ResolveStep(c, message, updates).0.action == ""
  {
    ResolveResetsOrMerges(c, message, updates);
  }

  /** A conversation that has nothing to be answered and no action. */
  predicate Blank(c: Checkpoint) {
    c.pendingInteraction.None? && c.action == "" && c.taskStatus != ExecutionUnknown
  }

  lemma WorksAlike(c: Checkpoint, message: string, updates: ContextUpdates, t: TurnInput)
    requires c.action == "" && updates.action == ""
    ensures DoWork(c, View(c), None, message, updates, t).executions == AnonymousWork(t).0
    ensures !WorkflowRaises(t) && t.failure != FailsWhileClassifying ==>
              SameReplies(AnonymousWork(t).1, DoWork(c, View(c), None, message, updates, t).outcome)
  {
    ResolvedHasNoAction(c, message, updates);
    PerformsAlike(ResolveStep(c, message, updates).0, View(c), t);
  }

  function WorkMessage(c: Checkpoint, t: TurnInput): string {
    if t.turn.action == Continue && View(c).objective != "" then View(c).objective else t.turn.rewritten
  }

  /** The guard on a blank conversation: an answer expires, an unclear message asks back, the rest is work. */
  lemma BlankGuard(c: Checkpoint, answer: Option<InteractionAnswer>, t: TurnInput)
    requires Blank(c)
    ensures GuardedTurn(c, answer, t)
         == (if answer.Some? then TurnResult(c, 0, Replied(Notice("interaction_expired")))
             else if t.turn.action == Clarify then Completed(c, View(c), t, 0, ClarifyReply(View(c), t.entry))
             else DoWork(c, View(c), None, WorkMessage(c, t), MergeUpdates(t.updates, t.turn.updates), t))
  {
  }

  lemma GuardsAlike(c: Checkpoint, answer: Option<InteractionAnswer>, t: TurnInput)
    requires Blank(c) && t.updates.action == "" && t.turn.updates.action == "" && t.failure != FailsWhileClassifying
    ensures GuardedTurn(c, answer, t).executions == AnonymousGuarded(answer, t).0
    ensures !WorkflowRaises(t) ==> SameReplies(AnonymousGuarded(answer, t).1, GuardedTurn(c, answer, t).outcome)
  {
    BlankGuard(c, answer, t);
    if answer.None? {
      CompletedRepliesAlike(c, View(c), t.message, ClarifyReply(View(c), t.entry));
      WorksAlike(c, WorkMessage(c, t), MergeUpdates(t.updates, t.turn.updates), t);
    }
  }

  lemma InterludesAlike(t: TurnInput)
    ensures SameReply(AnonymousInterlude(t), Interlude(FRESH, t).1)
  {
  }

  lemma LegacyTurnsAlike(t: TurnInput)
    requires t.updates.action == "" && t.turn.updates.action == ""
    ensures LegacyTurn(FRESH, t).executions == AnonymousLegacy(t).0
    ensures !WorkflowRaises(t) ==> SameReplies(AnonymousLegacy(t).1, LegacyTurn(FRESH, t).outcome)
  {
    var answer := if t.answer.Some? then t.answer else t.turn.answer;
    if t.failure == FailsWhileClassifying {
    } else if answer.None? && EndsTheTurn(t.turn.action) {
      var (next, reply) := Interlude(FRESH, t);
      InterludesAlike(t);
      CompletedRepliesAlike(next, View(next), t.message, reply);
    } else {
      var started := answer.None? && t.turn.action == NewGoal;
      GuardsAlike(if started then StartGoalStep(FRESH, t.message) else FRESH, answer, t);
    }
  }

  lemma PersistedRepliesAlike(c: Checkpoint, message: string, reply: Reply)
    ensures SameReply(reply, Shown(reply, View(Persist(c, message, reply))))
  {
    var a := PersistArgs(View(c), message, reply);
    UncheckedRememberSucceeds(c, a);
    RememberIsConsistent(c, a);
  }

  lemma FinishesAlike(input: RunInput, maxDecisions: nat)
    ensures SameReplies(AnonymousFinish(input, maxDecisions), Finish(FRESH, input, maxDecisions).1)
  {
    var response := Response(View(FRESH), input, maxDecisions);
    if response.Replied? {
      PersistedRepliesAlike(FRESH, input.message, WithNextAction(response.reply, View(FRESH), input));
    }
  }

  lemma BoundedTurnsAlike(input: RunInput, maxDecisions: nat)
    ensures SameReplies(AnonymousRun(input, maxDecisions), RunSpec(FRESH, input, maxDecisions).1)
  {
    FinishesAlike(input, maxDecisions);
  }

  /**
   A turn without a conversation calls the workflow as the first turn of a conversation would, and gets the same
   reply but for the card's version, unless the workflow throws; provided its updates name no action.
   */
  lemma AnonymousTurnsAreLikeFirstTurns(t: TurnInput, maxDecisions: nat)
    requires t.updates.action == "" && t.turn.updates.action == ""
    ensures AnonymousTurn(t, maxDecisions).0 == Turn(FRESH, t, maxDecisions).executions
    ensures !WorkflowRaises(t) ==> SameReplies(AnonymousTurn(t, maxDecisions).1, Turn(FRESH, t, maxDecisions).outcome)
  {
    LegacyTurnsAlike(t);
    BoundedTurnsAlike(RunInputOf(t), maxDecisions);
  }

  // ----- resets -----

  /**
   A turn read as a reset forgets the old objective exactly when its text is one of the reset messages of
   the graph; the resolver also calls other texts a reset, and those keep the objective and the parameters.
   */
  lemma ResetTurnForgetsIffResetMessage(c: Checkpoint, t: TurnInput)
    requires Consistent(c) && c.objective != "" && t.turn.action == ResetTask
    ensures var next := UnansweredTurn(c, t).state;
            && next.taskStatus == Idle
            && (next.objective == "" <==> IsResetMessage(t.message))
            && (!IsResetMessage(t.message) ==> next.objective == c.objective && next.params == c.params)
  {
    ResolvedReset(c, t.message);
    CompletedReset(ResolveStep(c, t.message, NO_UPDATES).0, t);
  }

  /** For instance a plain request to reset, which the resolver recognises, keeps the old objective. */
  lemma ResetRequestKeepsTheObjective(c: Checkpoint, t: TurnInput)
    requires Consistent(c) && c.objective != "" && t.turn.action == ResetTask && t.message == RESET_REQUEST
    ensures UnansweredTurn(c, t).state.objective == c.objective && UnansweredTurn(c, t).state.params == c.params
  {
    ResetRequestIsNoResetMessage();
    ResetTurnForgetsIffResetMessage(c, t);
  }

  lemma ResolvedReset(c: Checkpoint, message: string)
    requires Consistent(c) && c.objective != ""
    ensures var reset := ResolveStep(c, message, NO_UPDATES).0;
            && View(reset).objective == (if IsResetMessage(message) then "" else c.objective)
            && (!IsResetMessage(message) ==> reset.params == c.params)
  {
    ResolveResetsOrMerges(c, message, NO_UPDATES);
    assert c.params + NO_UPDATES.params == c.params;
  }

  lemma CompletedReset(reset: Checkpoint, t: TurnInput)
    ensures var next := Complete(reset, View(reset), t.message, ResetReply(reset.stateVersion, t.entry)).0;
            next.taskStatus == Idle && next.objective == View(reset).objective && next.params == reset.params
  {
    var reply := ResetReply(reset.stateVersion, t.entry);
    CheckedRememberSucceeds(reset, CompleteArgs(View(reset), reset.stateVersion, t.message, reply));
  }
}

/** Over every sequence of turns the card shown can be answered, and the next turn takes the answer. */
module AnswerableCards {
  import opened Values
  import opened Text
  import opened Interactions
  import opened Conversation
  import opened ConversationRuns
  import opened ContextResolver
  import opened RunCoordinator
  import opened AcceptedAnswers
  import opened ChatTurn
  import opened TurnRoutes
  import opened TurnSafety

  /** A card, if there is one, is accepted by the model of a pending question and waits for an answer. */
  predicate Open(card: Card) {
    card.Some? ==> ValidCard(card.value) && card.value.status == Pending
  }

  predicate OpenReply(reply: Reply) {
    Open(CardOf(reply.interaction))
  }

  predicate OpenDecision(d: Decision) {
    match d
    case UseTool(result) => Open(CardOf(result.interaction))
    case Respond(reply) => OpenReply(reply)
    case AskBack(reply) => OpenReply(reply)
    case Delegate(legacy) => legacy.Some? ==> OpenReply(legacy.value)
    case _ => true
  }

  predicate SuppliesRun(input: RunInput) {
    && Open(Some(input.entry)) && Open(Some(input.nextAction))
    && forall i :: 0 <= i < |input.decisions| ==> OpenDecision(input.decisions[i])
  }

  /** Every card that decisions, tools, the workflow and the fixed entry points supply to the turn is open. */
  predicate SuppliesOpenCards(t: TurnInput) {
    && SuppliesRun(t.run)
    && Open(Some(t.entry)) && Open(Some(t.recoveryCard)) && OpenReply(t.contextReply)
    && (t.work.Finishes? ==> OpenReply(t.work.reply))
  }

  // ----- every turn keeps the stored card open -----

  lemma RememberKeepsOpen(c: Checkpoint, a: RememberArgs)
    requires Open(c.pendingInteraction) && Open(Given(a.pendingInteraction, None)) && RememberStep(c, a).Ok?
    ensures Open(RememberStep(c, a).value.pendingInteraction)
  {
  }

  lemma CompleteKeepsOpen(c: Checkpoint, current: Context, incoming: string, reply: Reply)
    requires Open(c.pendingInteraction) && OpenReply(reply)
    ensures Open(Complete(c, current, incoming, reply).0.pendingInteraction)
  {
    var a := CompleteArgs(current, c.stateVersion, incoming, reply);
    CheckedRememberSucceeds(c, a);
    RememberKeepsOpen(c, a);
  }

  lemma DecideFindsOpen(decisions: seq<Decision>, index: nat, bound: nat)
    requires forall i :: 0 <= i < |decisions| ==> OpenDecision(decisions[i])
    ensures OpenDecision(Decide(decisions, index, bound))
    decreases bound - index
  {
  }

  lemma CarryIsOpen(d: Decision, state: Context, entry: PendingInteraction)
    requires OpenDecision(d) && !d.Unrecognised? && Open(Some(entry))
    ensures Carry(d, state, entry).Replied? ==> OpenReply(Carry(d, state, entry).reply)
  {
  }

  lemma ResponseIsOpen(c: Checkpoint, input: RunInput, maxDecisions: nat)
    requires Open(c.pendingInteraction) && SuppliesRun(input)
    ensures var response := Response(View(c), input, maxDecisions); response.Replied? ==> OpenReply(response.reply)
  {
    DecideFindsOpen(input.decisions, 0, maxDecisions);
    var decision := Decide(input.decisions, 0, maxDecisions);
    if !decision.Unrecognised? {
      CarryIsOpen(decision, View(c), input.entry);
    }
  }

  lemma FinishKeepsOpen(c: Checkpoint, input: RunInput, maxDecisions: nat)
    requires Open(c.pendingInteraction) && SuppliesRun(input)
    ensures Open(Finish(c, input, maxDecisions).0.pendingInteraction)
  {
    ResponseIsOpen(c, input, maxDecisions);
    var response := Response(View(c), input, maxDecisions);
    if response.Replied? {
      var a := PersistArgs(View(c), input.message, WithNextAction(response.reply, View(c), input));
      UncheckedRememberSucceeds(c, a);
      RememberKeepsOpen(c, a);
    }
  }

  lemma AnswerClosesTheQuestion(c: Checkpoint, input: RunInput)
    ensures AfterAnswer(c, input).Ok? ==>
              AfterAnswer(c, input).value.pendingInteraction in {None, c.pendingInteraction}
  {
  }

  lemma BoundedTurnKeepsOpen(c: Checkpoint, t: TurnInput, maxDecisions: nat)
    requires Open(c.pendingInteraction) && SuppliesRun(t.run)
    ensures Open(BoundedTurn(c, t, maxDecisions).state.pendingInteraction)
  {
    var input := RunInputOf(t);
    var entered := Enter(c, input);
    AnswerClosesTheQuestion(entered, input);
    if AfterAnswer(entered, input).Ok? {
      FinishKeepsOpen(AfterAnswer(entered, input).value, input, maxDecisions);
    }
  }

  lemma FallbackKeepsOpen(c: Checkpoint, previous: Context, consumed: Card, t: TurnInput)
    requires Open(c.pendingInteraction) && Open(consumed)
    ensures Open(Fallback(c, previous, consumed, t).state.pendingInteraction)
  {
    if consumed.Some? {
      var a := RecoveryArgs(previous, consumed.value, t.message, c.stateVersion);
      CheckedRememberSucceeds(c, a);
      RememberKeepsOpen(c, a);
    }
  }

  lemma WorkflowKeepsOpen(c: Checkpoint, action: string, t: TurnInput)
    requires Open(c.pendingInteraction) && SuppliesOpenCards(t)
    ensures Open(RunWorkflow(c, action, t).state.pendingInteraction)
  {
    if t.work.Raises? {
      CheckedRememberSucceeds(c, UnknownArgs(View(c), t.message));
      RememberKeepsOpen(c, UnknownArgs(View(c), t.message));
    } else {
      var context := View(c).(
        action := action, params := t.intentParams, workflowState := t.work.workflowState,
        queryFrame := if t.work.queryFrame != map[] then t.work.queryFrame else c.queryFrame);
      CompleteKeepsOpen(c, context, t.message, WorkReply(t.work));
    }
  }

  lemma PerformKeepsOpen(c: Checkpoint, previous: Context, consumed: Card, t: TurnInput)
    requires Open(c.pendingInteraction) && Open(consumed) && SuppliesOpenCards(t)
    ensures Open(Perform(c, previous, consumed, t).state.pendingInteraction)
  {
    FallbackKeepsOpen(c, previous, consumed, t);
    if t.asksAboutContext {
      CompleteKeepsOpen(c, View(c), t.message, t.contextReply.(mode := OtherMode("read_only")));
    } else {
      var action := ChosenAction(View(c), consumed.Some?, t);
      WorkflowKeepsOpen(c, action, t);
      if t.work.Finishes? {
        CompleteKeepsOpen(c, View(c).(action := action, params := t.intentParams), t.message, WorkReply(t.work));
      }
    }
  }

  lemma ResolveKeepsOpen(c: Checkpoint, message: string, updates: ContextUpdates)
    requires Open(c.pendingInteraction)
    ensures Open(ResolveStep(c, message, updates).0.pendingInteraction)
  {
    ResolveResetsOrMerges(c, message, updates);
  }

  lemma DoWorkKeepsOpen(c: Checkpoint, previous: Context, consumed: Card, message: string, updates: ContextUpdates,
                        t: TurnInput)
    requires Open(c.pendingInteraction) && Open(consumed) && SuppliesOpenCards(t)
    ensures Open(DoWork(c, previous, consumed, message, updates, t).state.pendingInteraction)
  {
    ResolveKeepsOpen(c, message, updates);
    PerformKeepsOpen(ResolveStep(c, message, updates).0, previous, consumed, t);
  }

  lemma AnswerTurnKeepsOpen(c: Checkpoint, answer: InteractionAnswer, t: TurnInput)
    requires Open(c.pendingInteraction) && SuppliesOpenCards(t)
    ensures Open(AnswerTurn(c, answer, t).state.pendingInteraction)
  {
    if AnswerStep(c, answer).Ok? {
      var (next, payload) := AnswerStep(c, answer).value;
      DoWorkKeepsOpen(next, View(c), c.pendingInteraction, AnswerMessage(View(c), payload, t.message),
                      AnswerUpdates(MergeUpdates(t.updates, t.turn.updates), payload), t);
    }
  }

  lemma ClarifyIsOpen(state: Context, entry: PendingInteraction)
    requires Open(Some(entry))
    ensures OpenReply(ClarifyReply(state, entry))
  {
  }

  lemma GuardedTurnKeepsOpen(c: Checkpoint, answer: Option<InteractionAnswer>, t: TurnInput)
    requires Open(c.pendingInteraction) && SuppliesOpenCards(t)
    ensures Open(GuardedTurn(c, answer, t).state.pendingInteraction)
  {
    var implied := ImpliedAnswer(c, answer, t);
    if Blocked(c, t.turn.action) {
      CompleteKeepsOpen(c, View(c), t.message, UnknownReply());
    } else if implied.Err? {
    } else if implied.value.Some? {
      AnswerTurnKeepsOpen(c, implied.value.value, t);
    } else if t.turn.action == Clarify {
      ClarifyIsOpen(View(c), t.entry);
      CompleteKeepsOpen(c, View(c), t.message, ClarifyReply(View(c), t.entry));
    } else {
      DoWorkKeepsOpen(c, View(c), None, WorkMessage(c, t), MergeUpdates(t.updates, t.turn.updates), t);
    }
  }

  lemma GreetingIsOpen(state: Context, entry: PendingInteraction)
    requires Open(state.pendingInteraction) && Open(Some(entry))
    ensures OpenReply(GreetingReply(state, entry))
  {
  }

  lemma ResetReplyIsOpen(version: nat, entry: PendingInteraction)
    requires Open(Some(entry))
    ensures OpenReply(ResetReply(version, entry))
  {
  }

  lemma InterludeStateIsOpen(c: Checkpoint, t: TurnInput)
    requires Open(c.pendingInteraction)
    ensures Open(Interlude(c, t).0.pendingInteraction)
  {
    ResolveKeepsOpen(c, t.message, NO_UPDATES);
  }

  lemma InterludeReplyIsOpen(c: Checkpoint, t: TurnInput)
    requires Open(c.pendingInteraction) && Open(Some(t.entry))
    ensures OpenReply(Interlude(c, t).1)
  {
    if t.turn.action == ResetTask {
      ResetReplyIsOpen(ResolveStep(c, t.message, NO_UPDATES).0.stateVersion, t.entry);
    } else if t.turn.action == Greeting {
      GreetingIsOpen(View(c), t.entry);
    }
  }

  lemma LegacyTurnKeepsOpen(c: Checkpoint, t: TurnInput)
    requires Open(c.pendingInteraction) && SuppliesOpenCards(t)
    ensures Open(LegacyTurn(c, t).state.pendingInteraction)
  {
    var answer := if t.answer.Some? then t.answer else t.turn.answer;
    if answer.Some? {
      GuardedTurnKeepsOpen(c, answer, t);
    } else if EndsTheTurn(t.turn.action) {
      InterludeStateIsOpen(c, t);
      InterludeReplyIsOpen(c, t);
      var (next, reply) := Interlude(c, t);
      CompleteKeepsOpen(next, View(next), t.message, reply);
    } else {
      GuardedTurnKeepsOpen(if t.turn.action == NewGoal then StartGoalStep(c, t.message) else c, None, t);
    }
  }

  lemma RecoveryKeepsOpen(c: Checkpoint, t: TurnInput)
    requires Open(c.pendingInteraction) && Open(Some(t.recoveryCard))
    ensures Open(RecoverReadOnly(c, t).pendingInteraction)
  {
    var a := ReadOnlyArgs(View(c), t.recoveryCard);
    CheckedRememberSucceeds(c, a);
    RememberKeepsOpen(c, a);
  }

  lemma TurnKeepsOpen(c: Checkpoint, t: TurnInput, maxDecisions: nat)
    requires Open(c.pendingInteraction) && SuppliesOpenCards(t)
    ensures Open(Turn(c, t, maxDecisions).state.pendingInteraction)
  {
    RecoveryKeepsOpen(c, t);
    var recovered := RecoverReadOnly(c, t);
    BoundedTurnKeepsOpen(recovered, t, maxDecisions);
    LegacyTurnKeepsOpen(recovered, t);
  }

  /** Over every sequence of turns, whatever is stored as the open question can be answered. */
  lemma {:induction false} RunsKeepOpen(c: Checkpoint, ts: seq<TurnInput>, maxDecisions: nat)
    requires Open(c.pendingInteraction)
    requires forall i :: 0 <= i < |ts| ==> SuppliesOpenCards(ts[i])
    ensures Open(RunTurns(c, ts, maxDecisions).0.pendingInteraction)
    decreases |ts|
  {
    if ts != [] {
      TurnKeepsOpen(c, ts[0], maxDecisions);
      RunsKeepOpen(Turn(c, ts[0], maxDecisions).state, ts[1..], maxDecisions);
    }
  }

  // ----- shown cards -----

  lemma ClickedCard(c: Checkpoint, p: PendingInteraction, k: nat)
    requires c.pendingInteraction == Some(p) && Open(Some(p)) && k < |p.options|
    ensures AnswerStep(c, Click(p, k)).Ok? && FirstOption(p.options, p.options[k].id).Some?
    ensures AnswerStep(c, Click(p, k)).value.1 == FirstOption(p.options, p.options[k].id).value.payload
  {
    StoredCardIsAnswerable(c, k);
  }

  /** Unless the turn greets over an open question, every listed option of the card it shows can be clicked next. */
  lemma ShownCardIsAnswerable(c: Checkpoint, t: TurnInput, maxDecisions: nat, p: PendingInteraction, k: nat)
    requires Safe(c) && Open(c.pendingInteraction) && SuppliesOpenCards(t) && OnlyCoordinatorGreets(t.run.decisions)
    requires !TurnGreetsOverOpenQuestion(c, t)
    requires var outcome := Turn(c, t, maxDecisions).outcome;
             outcome.Replied? && CardOf(outcome.reply.interaction) == Some(p)
    requires k < |p.options|
    ensures var next := AnswerStep(Turn(c, t, maxDecisions).state, Click(p, k));
            && next.Ok?
            && FirstOption(p.options, p.options[k].id).Some?
            && next.value.1 == FirstOption(p.options, p.options[k].id).value.payload
  {
    TurnShowsStoredCard(c, t, maxDecisions);
    TurnKeepsOpen(c, t, maxDecisions);
    ClickedCard(Turn(c, t, maxDecisions).state, p, k);
  }

  /**
   In every conversation, from its first turn on, and with nothing assumed but the cards supplied from outside: a
   click on any option of the card just shown is accepted and pays, unless the turn greeted over an open question.
   */
  lemma ShownCardsAreAnswerable(before: seq<TurnInput>, t: TurnInput, maxDecisions: nat, p: PendingInteraction, k: nat)
    requires forall i :: 0 <= i < |before| ==> CleanTurn(before[i]) && SuppliesOpenCards(before[i])
    requires SuppliesOpenCards(t) && OnlyCoordinatorGreets(t.run.decisions)
    requires var c := RunTurns(FRESH, before, maxDecisions).0;
             && !TurnGreetsOverOpenQuestion(c, t)
             && Turn(c, t, maxDecisions).outcome.Replied?
             && CardOf(Turn(c, t, maxDecisions).outcome.reply.interaction) == Some(p)
    requires k < |p.options|
    ensures var c := RunTurns(FRESH, before, maxDecisions).0;
            var next := AnswerStep(Turn(c, t, maxDecisions).state, Click(p, k));
            next.Ok? && FirstOption(p.options, p.options[k].id).Some?
            && next.value.1 == FirstOption(p.options, p.options[k].id).value.payload
  {
    RunsAreSafe(FRESH, before, maxDecisions);
    RunsKeepOpen(FRESH, before, maxDecisions);
    ShownCardIsAnswerable(RunTurns(FRESH, before, maxDecisions).0, t, maxDecisions, p, k);
  }

  /**
   The next turn with a click on the stored card takes it, whichever runtime it goes to: the first option with the id
   is paid into the conversation, and the turn goes on from there.
   */
  lemma NextTurnTakesClick(c: Checkpoint, t: TurnInput, maxDecisions: nat, p: PendingInteraction, k: nat)
    returns (i: nat, paid: Checkpoint)
    requires Safe(c) && c.pendingInteraction == Some(p) && Open(Some(p)) && k < |p.options|
    requires t.message != "" && t.answer == Some(Click(p, k)) && t.failure != FailsWhileClassifying
    ensures FirstTwin(p.options, i, k) && Paid(c, p.options[i].payload, paid)
    ensures IsAboutTables(c, t) ==>
              var (next, outcome) := Finish(paid, RunInputOf(t), maxDecisions);
              Turn(c, t, maxDecisions) == TurnResult(next, 0, outcome)
    ensures !IsAboutTables(c, t) ==>
              Turn(c, t, maxDecisions)
              == DoWork(paid, View(c), Some(p), AnswerMessage(View(c), p.options[i].payload, t.message),
                        AnswerUpdates(MergeUpdates(t.updates, t.turn.updates), p.options[i].payload), t)
  {
    i := ClickIsPaid(c, k);
    paid := AnswerStep(c, Click(p, k)).value.0;
    TurnGoesBy(c, t, maxDecisions);
    if IsAboutTables(c, t) {
      ClientAnswerIsTaken(c, RunInputOf(t), maxDecisions);
    } else {
      AnsweredTurnWorks(c, t, Click(p, k));
    }
  }

  /** In every conversation, from its first turn on: a click on the card just shown is taken by the next turn. */
  lemma ShownCardIsTakenNext(before: seq<TurnInput>, t: TurnInput, click: TurnInput, maxDecisions: nat,
                             p: PendingInteraction, k: nat) returns (i: nat, paid: Checkpoint)
    requires forall i :: 0 <= i < |before| ==> CleanTurn(before[i]) && SuppliesOpenCards(before[i])
    requires CleanTurn(t) && SuppliesOpenCards(t) && OnlyCoordinatorGreets(t.run.decisions)
    requires var c := RunTurns(FRESH, before, maxDecisions).0;
             && !TurnGreetsOverOpenQuestion(c, t)
             && Turn(c, t, maxDecisions).outcome.Replied?
             && CardOf(Turn(c, t, maxDecisions).outcome.reply.interaction) == Some(p)
    requires k < |p.options|
    requires click.message != "" && click.answer == Some(Click(p, k)) && click.failure != FailsWhileClassifying
    ensures FirstTwin(p.options, i, k)
    ensures var shown := Turn(RunTurns(FRESH, before, maxDecisions).0, t, maxDecisions).state;
            && Paid(shown, p.options[i].payload, paid)
            && (IsAboutTables(shown, click) ==>
                  var (next, outcome) := Finish(paid, RunInputOf(click), maxDecisions);
                  Turn(shown, click, maxDecisions) == TurnResult(next, 0, outcome))
            && (!IsAboutTables(shown, click) ==>
                  Turn(shown, click, maxDecisions)
                  == DoWork(paid, View(shown), Some(p),
                            AnswerMessage(View(shown), p.options[i].payload, click.message),
                            AnswerUpdates(MergeUpdates(click.updates, click.turn.updates), p.options[i].payload),
                            click))
  {
    var c := RunTurns(FRESH, before, maxDecisions).0;
    RunsAreSafe(FRESH, before, maxDecisions);
    RunsKeepOpen(FRESH, before, maxDecisions);
    TurnIsSafe(c, t, maxDecisions);
    TurnKeepsOpen(c, t, maxDecisions);
    TurnShowsStoredCard(c, t, maxDecisions);
    i, paid := NextTurnTakesClick(Turn(c, t, maxDecisions).state, click, maxDecisions, p, k);
  }

  // ----- exceptions after an accepted answer -----

  /** The open question is answered in this run, and the answer is accepted. */
  predicate AcceptsAnswer(c: Checkpoint, input: RunInput) {
    var chosen := ChosenAnswer(c, input);
    chosen.Ok? && chosen.value.Some? && AnswerStep(c, chosen.value.value).Ok?
  }

  /** A failed tool that may be tried again, with no card of its own and no message that can be asked as a question. */
  predicate CannotAskAgain(result: ToolResult) {
    && !result.success && result.recoverable && CardOf(result.interaction).None?
    && !(Sized(result.retryId, 1, 128) && Sized(result.message, 1, 4000))
  }

  predicate FailsToAct(d: Decision) {
    d.ProviderThrows? || d.DelegateThrows? || (d.UseTool? && CannotAskAgain(d.result))
  }

  lemma RaisesIff(d: Decision, state: Context, entry: PendingInteraction)
    requires !d.Unrecognised?
    ensures Carry(d, state, entry).Raised? <==> FailsToAct(d)
  {
  }

  /**
   A bounded run in which an exception follows an accepted answer consumes the question for good, and only such a
   run does: any other exception leaves the conversation as the run entered it.
   */
  lemma RunLosesQuestionIff(c: Checkpoint, input: RunInput, maxDecisions: nat)
    requires c.pendingInteraction.Some?
    ensures var (next, outcome) := Proceed(c, input, maxDecisions);
            && (outcome.Raised? && next.pendingInteraction.None?
                <==> AcceptsAnswer(c, input) && !input.isGreeting
                     && FailsToAct(Decide(input.decisions, 0, maxDecisions)))
            && (outcome.Raised? && next.pendingInteraction.Some? ==> next == c)
  {
    var decision := Decide(input.decisions, 0, maxDecisions);
    AnsweredOrRefused(c, input);
    if AfterAnswer(c, input).Ok? && !decision.Unrecognised? {
      RaisesIff(decision, View(AfterAnswer(c, input).value), input.entry);
    }
  }

  lemma AnsweredOrRefused(c: Checkpoint, input: RunInput)
    requires c.pendingInteraction.Some?
    ensures AcceptsAnswer(c, input) <==>
              AfterAnswer(c, input).Ok? && AfterAnswer(c, input).value.pendingInteraction.None?
    ensures AfterAnswer(c, input).Ok? && !AcceptsAnswer(c, input) ==> AfterAnswer(c, input).value == c
  {
  }

  /** Whatever interrupts the work, before the workflow or in it. */
  predicate WorkThrows(t: TurnInput) {
    t.failure == FailsAfterResolving || (t.failure == NoFailure && !t.asksAboutContext && t.work.Raises?)
  }

  /** The question is open again under the current version, and what its answer contributed is taken back. */
  predicate Restored(before: Checkpoint, after: Checkpoint) {
    && after.pendingInteraction == Stamp(before.pendingInteraction, after.stateVersion)
    && after.taskStatus == WaitingUser
    && after.params == before.params && after.selectedResources == before.selectedResources
    && after.action == before.action && after.workflowState == before.workflowState
  }

  lemma FallbackRestores(before: Checkpoint, c: Checkpoint, t: TurnInput)
    requires before.pendingInteraction.Some?
    ensures var r := Fallback(c, View(before), before.pendingInteraction, t);
            && Restored(before, r.state)
            && View(r.state).objective == (if View(c).objective != "" then View(c).objective
                                           else if View(before).objective != "" then View(before).objective
                                           else t.message)
            && r.state.queryFrame == before.queryFrame && r.state.lastResult == before.lastResult
            && r.state.conversationSummary == before.conversationSummary
            && r.executions == 0 && r.outcome.Replied? && r.outcome.reply.error == "failed"
            && CardOf(r.outcome.reply.interaction) == r.state.pendingInteraction
  {
    var a := RecoveryArgs(View(before), before.pendingInteraction.value, t.message, c.stateVersion);
    CheckedRememberSucceeds(c, a);
    RememberIsConsistent(c, a);
  }

  /** On the other path an exception after an accepted answer undoes it, exactly when the workflow was not called. */
  lemma FailedAnswerIsRestoredIff(c: Checkpoint, answer: InteractionAnswer, t: TurnInput)
    requires AnswerStep(c, answer).Ok? && WorkThrows(t)
    ensures var r := AnswerTurn(c, answer, t); Restored(c, r.state) <==> r.executions == 0
  {
    var (next, payload) := AnswerStep(c, answer).value;
    var resolved := ResolveStep(next, AnswerMessage(View(c), payload, t.message),
                                AnswerUpdates(MergeUpdates(t.updates, t.turn.updates), payload)).0;
    FallbackRestores(c, resolved, t);
    ThrownWork(resolved, c, t);
  }

  /** On that path a refused answer changes nothing: an expired one shows the open question, any other has failed. */
  lemma RefusedAnswerIsReported(c: Checkpoint, answer: InteractionAnswer, t: TurnInput)
    requires AnswerStep(c, answer).Err?
    ensures var r := AnswerTurn(c, answer, t);
            && r.state == c && r.executions == 0 && r.outcome.Replied? && !r.outcome.reply.success
            && (match AnswerStep(c, answer).error
                case AnswerRefused(InteractionExpired(_)) =>
                  && r.outcome.reply.error == "interaction_expired"
                  && CardOf(r.outcome.reply.interaction) == c.pendingInteraction
                case _ => r.outcome.reply.error == "failed" && CardOf(r.outcome.reply.interaction) == None)
  {
  }

  lemma ThrownWork(c: Checkpoint, before: Checkpoint, t: TurnInput)
    requires WorkThrows(t) && before.pendingInteraction.Some?
    ensures var r := Perform(c, View(before), before.pendingInteraction, t);
            || (r.executions == 0 && r == Fallback(c, View(before), before.pendingInteraction, t))
            || (r.executions == 1 && r.state.taskStatus == ExecutionUnknown)
  {
    MarkUnknownIsSafe(c, t.message);
  }
}

# Verified model of the agent's stateful core

This project models, in Dafny, the parts of the repository whose correctness is a matter of all runs rather than of
one call, and proves what they keep. It follows the code; where code and documentation differ, the theorem states
what the code does.

- **Versioned conversations.** A checkpoint per conversation with a version counter, an optimistic compare-and-set, one
  open question whose answers carry a version token, and goal, reset and cancel transitions (`Conversation`,
  `Interactions`, `ContextResolver`). Over every sequence of operations the version counts the mutations, an answer is
  accepted at most once per token, the objective is sticky, a new goal shows nothing of the old task, and every part
  of the conversation holds what was last written into it (`ConversationRuns`, `GoalIsolation`, `LastWrites`). What an
  accepted answer pays is stored and stays (`AcceptedAnswers`).
- **Turns.** The bounded run with its event stream (`RunCoordinator`) and the turn of the chat agent (`ChatTurn`). Over
  every sequence of turns an execution whose outcome is unknown is never retried (`TurnSafety`), and the question a
  turn shows can be answered next and that answer is taken (`AnswerableCards`). Which runtime takes a turn, when it
  calls the workflow, and what it leaves of the task are stated on its inputs (`TurnRoutes`, `TurnEffects`). Turns of
  one conversation are exclusive (`LockRegistry`).
- **Cache.** Least-recently-used eviction, expiry, bulk invalidation and delete epochs (`Cache`), with the stack
  inclusion theorem, eviction by recency, the exact behaviour of the stale-write guard (`CacheTheorems`), and that a
  read returns the last write while it is alive and in the working set (`CacheReads`).
- **Schedulers and drivers.** The shared-iterator worker pool, the semaphore and retry executor and the resumable batch
  runner, each under every interleaving or chain of runs (`WorkerPool`, `TaskExecutor`, `TaskOutcomes`, `Batches`).
- **Transformations.** Revert cancellation, spec building against spec editing, splicing with a running offset, comment
  stripping and statement splitting against a scanner that knows literals, the rolling hash, and table-definition
  parsing (`Changelog`, `FlowSpec`, `SpecReading`, `NodeAdapter`, `Splicing`, `SqlGuard`, `SqlScanner`, `RollingHash`,
  `DdlParsing`).

Objects that the source updates in place are classes whose methods are proved against functions on values; the
theorems about runs are lemmas about those functions. `dafny verify dfyconfig.toml` checks everything.

Results that differ from what documentation, names or a casual reading suggest:

- `resolve` merges its updates without a new version, so a compare-and-set cannot see them
  (`ConversationRuns.ResolveIsInvisibleToRemember`); a goal whose own text holds a reset word is wiped when it is first
  resolved (`ConversationRuns.GoalSurvivesItsOwnText`); the resolver calls more texts a reset than the graph does
  (`TurnSafety.ResetTurnForgetsIffResetMessage`, `TurnSafety.ResetRequestKeepsTheObjective`).
- Blank custom text next to an option passes validation and shadows the option (`Interactions.ClickYieldsItsPayload`);
  repeated option ids pay the first of them (`ContextResolver.TypedAnswerPaysTheFirstTwin`).
- A bounded run that greets over an open question shows a card one version late
  (`TurnSafety.FinishShowsStoredCardIffFresh`); an uncertain write is stored as unknown only if the tool leaves the
  mode alone, and safely only without a card (`TurnSafety.UncertainWriteIsSafeIff`). An exception after an accepted
  answer loses the question in a bounded run (`AnswerableCards.RunLosesQuestionIff`), while the other path restores it
  (`AnswerableCards.FailedAnswerIsRestoredIff`).
- A cache delete of an absent key does not count, so a delete after a miss does not keep the stale value out, although the
  documentation at dataworks_agent/cache/manager.py line 174 says it does (`CacheTheorems.DeleteAfterMissIsNotNoticed`).
- Cancelling a running task is undone when its function ends normally (`TaskExecutor.CancelLastsIffInterrupted`), and an
  interrupted task stays in state running (`TaskExecutor.InterruptedTaskStaysRunning`); resuming batches with a larger
  size leaves items out (`Batches.OtherSizeCoversIff`), and a job that takes effect after it was given up is repeated
  (`Batches.RepeatsAreStrays`).
- Reverts of reverts, and messages that are empty or span lines, can be left with their own revert
  (`Changelog.NeverLeftWithItsRevertIff`), and the latter cancel across families
  (`Changelog.OtherMessagesCrossFamilies`).
- An edit of the dependencies leaves the inputs of the node behind (`NodeAdapter.EditedInputsMatchIff`); recorded
  attachment positions ignore the running offset (`Splicing.RecordedStartIsRightIff`), and the splice for a tag that
  overlaps an earlier one misses it (`Splicing.SplicesMeetTheirTagsIff`, `Splicing.LinkedImageIsMissed`).
- Comment marks inside literals count, and dashes inside a block comment hide its end
  (`SqlScanner.StripsAsMeantIff`, `SqlScanner.DashesHideTheClose`); semicolons inside literals count too
  (`SqlGuard.SplitRespectsLiteralsIff`). The hash ignores the second half of surrogate pairs
  (`RollingHash.TrailingSurrogatesAreIgnored`).

## Model

| member | source | states |
|---|---|---|
| Conversation.ConversationGraph.Resolve | dataworks_agent/agent/conversation_graph.py:162-218 | A reset message stores an emptied, idle checkpoint with the next version and is returned as it is; any other message merges its updates, keeps the version, and comes back as a supplement to the pending objective if there is one. Other conversations are untouched. |
| Conversation.ConversationGraph.StartGoal | dataworks_agent/agent/conversation_graph.py:220-247 | The new checkpoint is active, holds nothing of the old task and carries the next version. |
| Conversation.ConversationGraph.Remember | dataworks_agent/agent/conversation_graph.py:274-353 | Compare-and-set: another expected version is refused with the current context and nothing is written; otherwise the version grows by one, an existing objective wins, and a stored question is stamped with the new version. |
| Conversation.ConversationGraph.Answer | dataworks_agent/agent/conversation_graph.py:355-385 | A refused answer writes nothing; an accepted one merges the payload, clears the question and the pending objective, and raises the version. |
| Conversation.ConversationGraph.Cancel | dataworks_agent/agent/conversation_graph.py:387-407 | Only the question, the pending objective, the status and the version change. |
| ConversationRuns.StepKeepsConsistent | dataworks_agent/agent/conversation_graph.py:190-407 | Every operation keeps: an open question carries the current version, the pending objective is empty or the objective. The version rises by exactly one for a mutation and not at all otherwise; refused calls leave the checkpoint as it was. |
| ConversationRuns.VersionCountsMutations | dataworks_agent/agent/conversation_graph.py:190-407 | After any sequence of operations the version has grown by exactly the number of mutations. |
| ConversationRuns.StaleAnswerRefused | dataworks_agent/agent/interaction.py:189-194 | An answer with any version token but the current one is refused and changes nothing. |
| ConversationRuns.AnswersAcceptedAtMostOnce | dataworks_agent/agent/conversation_graph.py:355-385 | In any run at most one answer per version token succeeds, and none for a token older than the start of the run. |
| ConversationRuns.RememberSucceedsIffUnmodified | dataworks_agent/agent/conversation_graph.py:295-301 | A write that expects the version read before a run succeeds if and only if the run made no mutation. |
| ConversationRuns.ResolveIsInvisibleToRemember | dataworks_agent/agent/conversation_graph.py:143-156 | resolve merges parameters, resources, workflow state and action without a new version, so a checked write succeeds and overwrites whichever of them it gives. |
| ConversationRuns.StepKeepsObjective | dataworks_agent/agent/conversation_graph.py:301-317 | No operation except starting a goal or a reset message changes a non-empty objective. |
| ConversationRuns.ObjectiveIsSticky | dataworks_agent/agent/conversation_graph.py:301-317 | The same over any interleaving of the other operations, for the stored and the visible objective. |
| ConversationRuns.GoalSurvivesItsOwnText | dataworks_agent/agent/conversation_graph.py:115-119 | Resolving the text of a goal just started keeps the goal if and only if that text holds no reset word; otherwise the goal is wiped. |
| ConversationRuns.ResetWordAnywhere | dataworks_agent/agent/conversation_graph.py:115-119 | A message with one of the five reset words anywhere in it, in any case, is a reset message. |
| LastWrites.StepWrites | dataworks_agent/agent/conversation_graph.py:121-407 | Every operation writes into each part of the visible conversation (goal, open goal, action, workflow state, question, last result, last turn, summary, query, status, each parameter, each selected resource) exactly what a table apart from the transitions says, and leaves the others. |
| LastWrites.SlotHoldsLastWrite | dataworks_agent/agent/conversation_graph.py:121-407 | After any sequence of operations every such part holds what the last operation that wrote it has written. |
| LastWrites.ResolvedText | dataworks_agent/agent/conversation_graph.py:124-156 | A message to an open goal comes back as a supplement to it unless it repeats it; any other message comes back as it is. |
| LastWrites.ClarifiedGoalIsSupplemented | dataworks_agent/agent/conversation_graph.py:124-317 | A goal that was remembered as unclear is supplemented by the next message. |
| AcceptedAnswers.ClickIsPaid | dataworks_agent/agent/conversation_graph.py:361-385 | A click on a listed option of the open question is accepted, and every key of the first option with its id is stored with its value in the parameters and resources; every other key, and goal, action, status and all else, stay. |
| AcceptedAnswers.TextIsPaid | dataworks_agent/agent/conversation_graph.py:361-385 | Free text is accepted by a question that takes it and stores nothing but the closed question. |
| AcceptedAnswers.PaidContentStays | dataworks_agent/agent/conversation_graph.py:121-407 | What a click paid stays over every run that starts no goal, resets nothing and writes nothing else there. |
| AcceptedAnswers.TableChipIsStored | dataworks_agent/agent/interaction.py:63-181 | From response data to conversation: clicking the option built for a table stores its name as parameter and as selected table. |
| GoalIsolation.AnswerAlike | dataworks_agent/agent/conversation_graph.py:361-385 | Two conversations that differ by a version shift and stored texts accept or refuse correspondingly shifted answers alike. |
| GoalIsolation.RememberAlike | dataworks_agent/agent/conversation_graph.py:295-353 | The same for shifted compare-and-set writes. |
| GoalIsolation.ResolveAlike | dataworks_agent/agent/conversation_graph.py:175-188 | The same for resolved messages, whose texts are equal. |
| GoalIsolation.StepAlike | dataworks_agent/agent/conversation_graph.py:162-407 | One operation keeps two such conversations alike and shows both callers the same, up to the shift. |
| GoalIsolation.RunsAlike | dataworks_agent/agent/conversation_graph.py:162-407 | The same for every sequence of operations. |
| GoalIsolation.GoalsAreIsolated | dataworks_agent/agent/conversation_graph.py:220-247 | Whatever two conversations did before, after starting one goal and receiving the same operations (with shifted tokens) every outcome and every visible context is identical except for one constant version shift. |
| Interactions.FirstOption | dataworks_agent/agent/interaction.py:201-203 | The first option with the id is found, if and only if there is one. |
| Interactions.ClickYieldsItsPayload | dataworks_agent/agent/interaction.py:52-60 | A validated click pays the payload of the option exactly when no text came with it; blank text passes the validation and then shadows the option. |
| Interactions.BuildInteraction | dataworks_agent/agent/interaction.py:92-181 | The loop over raw options builds the question described entry by entry: blank entries are skipped, free-text entries only open the text field, an existing question is only validated, no option and no text field means no question. |
| Interactions.GeneratedOptionsAreDistinct | dataworks_agent/agent/interaction.py:111-152 | Without ids in the data, all options of a built question have different ids, and each id finds its own option. |
| Interactions.TextEntryBecomesFollowUp | dataworks_agent/agent/interaction.py:115-123 | A non-blank text entry at index i becomes the option action_i whose label and follow-up action are the stripped text. |
| Interactions.AnswerIsResolvedIff | dataworks_agent/agent/interaction.py:184-204 | A pending question accepts exactly answers to itself under its version that are a text, if it takes one, or a listed option; which error the others get. |
| Interactions.BuiltCardIs | dataworks_agent/agent/interaction.py:106-181 | A built question is valid, pending, of the kind its data call for, and takes text exactly if some entry asks for that; there is none exactly without options and text. |
| Interactions.EntryBecomesOption | dataworks_agent/agent/interaction.py:111-152 | Each entry with a label becomes an option with its own or its generated id, label, value, description and layer. |
| Interactions.LayerChipIsPaid | dataworks_agent/agent/interaction.py:85-88 | An option for a layer pays the layer in lower case and nothing else. |
| Interactions.ActionIsPaid | dataworks_agent/agent/interaction.py:66-75 | An action pays its text as the next step, over which a payload given with it goes key by key. |
| ContextResolver.MatchingOptions | dataworks_agent/agent/context_resolver.py:250-272 | Exactly the matching options are listed, in their order. |
| ContextResolver.OpenQuestion | dataworks_agent/agent/context_resolver.py:207-216 | Exactly a valid question that is still pending counts as open. |
| ContextResolver.AnswerNamesAnOption | dataworks_agent/agent/context_resolver.py:218-248 | A message read as an answer names a listed option of the open question, with its id, its version and its payload. |
| ContextResolver.TypedAnswerIsAccepted | dataworks_agent/agent/context_resolver.py:274-288 | The answer made from a typed reply always validates and is always accepted by the conversation; it is paid as the first option with its id. |
| ContextResolver.TypedAnswerPaysTheMatchedOption | dataworks_agent/agent/context_resolver.py:274-288 | With distinct option ids, what the reply contributed as updates is what the answer pays. |
| ContextResolver.TypedLabelChoosesItsOption | dataworks_agent/agent/context_resolver.py:243-245 | Typing the label of exactly one option, up to fillers and case, chooses that option. |
| ContextResolver.TypedAnswerPaysTheFirstTwin | dataworks_agent/agent/interaction.py:201-204 | With repeated ids, the reply is paid as the first option that shares the id of the option it named. |
| ContextResolver.OrdinalChoosesItsOption | dataworks_agent/agent/context_resolver.py:117-124 | A reply with one of the six ordinals chooses the option it counts to, and is unclear if there is none. |
| ContextResolver.LastChoosesTheLastOption | dataworks_agent/agent/context_resolver.py:291-294 | "The last one" chooses the last option, whatever else is said. |
| ContextResolver.LooseReplyChoosesItsOption | dataworks_agent/agent/context_resolver.py:228-248 | A reply that is no label, and holds the label or value of just one option, chooses that. |
| ContextResolver.AmbiguousReplyIsUnclear | dataworks_agent/agent/context_resolver.py:243-247 | A reply that fits several options equally well is unclear. |
| ContextResolver.FirstReadingCounts | dataworks_agent/agent/context_resolver.py:161-181 | A message that names no option is read as the first of eight things it is recognised as, with the action, text, references and updates of that. |
| ContextResolver.UnreadMessageIsClassified | dataworks_agent/agent/context_resolver.py:183-189 | What is recognised as nothing goes to the classifier if it is long enough, and is unclear otherwise. |
| RunCoordinator.AgentRunCoordinator.Run | dataworks_agent/agent/run_coordinator.py:62-241 | A run ends in the state and response determined by entering, answering, deciding and persisting; other conversations are untouched, and without a conversation id all are; events are numbered 1, 2, ... from one run.started to one final response.completed unless an exception leaves; no more decisions start than the bound. |
| RunCoordinator.AgentRunCoordinator.EnterRun | dataworks_agent/agent/run_coordinator.py:80-92 | A table search that differs from the objective starts a new goal, unless the turn brings an answer. |
| RunCoordinator.AgentRunCoordinator.GiveAnswer | dataworks_agent/agent/run_coordinator.py:93-135 | The chosen answer is applied to the conversation, an expired one becomes the reply, and a failed one leaves the conversation as it was. |
| RunCoordinator.AgentRunCoordinator.DecideAndAct | dataworks_agent/agent/run_coordinator.py:156-223 | The loop carries out the first recognised decision below the bound, or stops with the bounded reply. |
| RunCoordinator.AgentRunCoordinator.Store | dataworks_agent/agent/run_coordinator.py:225-238 | The response is written unconditionally and shown with the question just stored, except after a greeting or without a conversation. |
| RunCoordinator.AgentRunCoordinator.Emit | dataworks_agent/agent/run_coordinator.py:70-77 | Every event gets the next sequence number. |
| AcceptedAnswers.ClientAnswerIsTaken | dataworks_agent/agent/run_coordinator.py:93-135 | A run with an answer of the client goes on from the conversation that this answer leaves; an expired one is the reply and an invalid one raises, both without a change. |
| AcceptedAnswers.TypedAnswerIsTaken | dataworks_agent/agent/run_coordinator.py:94-96 | Without one, the answer the typed message was read as is taken in the same way. |
| AcceptedAnswers.FreeTextIsTaken | dataworks_agent/agent/run_coordinator.py:97-109 | Without either, the message itself, on a question about tables that takes text, unless it greets or asks for an explanation. |
| AcceptedAnswers.UnusableTextRaises | dataworks_agent/agent/run_coordinator.py:97-117 | A text too long or blank for such an answer raises and changes nothing. |
| AcceptedAnswers.NothingIsAnswered | dataworks_agent/agent/run_coordinator.py:80-110 | In all other cases nothing is answered, and a differing table search starts its goal first. |
| AcceptedAnswers.RunStoresWhatIsPaid | dataworks_agent/agent/run_coordinator.py:110-241 | After a run that took a click the parameters hold what the clicked option paid, whatever the run decided. |
| AcceptedAnswers.TypedReplyIsTakenAndPaid | dataworks_agent/agent/run_coordinator.py:94-120 | A typed reply that the resolver reads as an answer is taken by the run, accepted, and paid by a listed option. |
| TurnEffects.RunStores | dataworks_agent/agent/run_coordinator.py:272-311 | A run stores its reply, question and status; the goal only if there was none and it is no chatter; the action of a table search only for results of a tool; everything else stays. |
| TurnEffects.RunReplies | dataworks_agent/agent/run_coordinator.py:155-271 | A run that does not greet replies what its first recognised decision says, or that it reached its bound; a failed tool that may be tried again asks for another text. |
| TurnEffects.SelectedTableIsFollowedUp | dataworks_agent/agent/run_coordinator.py:225-238 | A run that selects a table stores and shows the question what to do with it. |
| ChatTurn.ChatAgent.ChatLocked | dataworks_agent/agent/core.py:175-264 | A turn ends in the state, response and number of workflow calls of the turn function: blank messages do nothing, unknown outcomes are recovered if proven read-only, then the bounded runtime or the legacy path runs. A turn without a conversation id changes no conversation. |
| ChatTurn.ChatAgent.RecoverReadOnlyUnknown | dataworks_agent/agent/core.py:811-909 | Exactly an unknown outcome with read-only evidence is turned into a recoverable question. |
| ChatTurn.ChatAgent.LegacyChat | dataworks_agent/agent/core.py:268-309 | The answer of the client, or else of the resolved message, takes the guarded path; without one the dialogue action decides. |
| ChatTurn.ChatAgent.UnansweredChat | dataworks_agent/agent/core.py:311-414 | New goals start over and go on; cancel, reset, greeting and explanation end the turn; everything else reaches the guard. |
| ChatTurn.ChatAgent.Interrupt | dataworks_agent/agent/core.py:316-414 | Cancel and reset change the conversation, greeting and explanation do not, and with an unknown outcome the latter two report it. |
| ChatTurn.ChatAgent.GuardedChat | dataworks_agent/agent/core.py:416-480 | An unknown outcome blocks everything but cancel, reset, new goals and interludes; free text answers an open question that takes it; an unclear message asks back. |
| ChatTurn.ChatAgent.AnswerChat | dataworks_agent/agent/core.py:482-541 | A refused answer is reported with the current question and no work is done; an accepted one continues with the message composed from objective and payload; without a conversation every answer expires. |
| ChatTurn.ChatAgent.Work | dataworks_agent/agent/core.py:547-763 | After resolving, a summary, the workflow or the task executor runs; the workflow service is called at most once, and an exception from it marks the outcome unknown while an earlier one restores a consumed question. |
| ChatTurn.ChatAgent.CompleteTurn | dataworks_agent/agent/core.py:1404-1486 | The turn is stored with a checked write that cannot fail under the turn lock, and the response shows the stored question; without a conversation the response is returned as it is. |
| ChatTurn.ChatAgent.MarkExecutionUnknown | dataworks_agent/agent/core.py:1196-1265 | The conversation is stored as unknown, without a question. |
| ChatTurn.ChatAgent.RecoverConsumedInteraction | dataworks_agent/agent/core.py:1304-1370 | A consumed question is put back with a new version and shown. |
| ChatTurn.ChatAgent.RecoverOrReport | dataworks_agent/agent/core.py:755-763 | An exception before the workflow restores the consumed question of a conversation, and is only reported otherwise. |
| ChatTurn.ChatAgent.ReportFailedWorkflow | dataworks_agent/agent/core.py:753-763 | An exception of the workflow marks a conversation unknown, and is only reported without one. |
| TurnSafety.CompleteIsSafe | dataworks_agent/agent/core.py:1404-1475 | Completing a turn stores an unknown outcome exactly for replies of that mode, with no question, and shows the stored question. |
| TurnSafety.TurnIsSafe | dataworks_agent/agent/core.py:175-763 | Every turn keeps: an unknown outcome has no open question, and a question carries the current version; assuming decisions that report an uncertain write bring no card. |
| TurnSafety.RunsAreSafe | dataworks_agent/agent/core.py:175-763 | The same over every sequence of turns. |
| TurnSafety.UnknownStaysUnknown | dataworks_agent/agent/core.py:416-445 | A turn that neither starts a goal, cancels, resets nor is proven read-only calls no workflow and leaves the outcome unknown, even with an answer from the client. |
| TurnSafety.UnknownRunsNothing | dataworks_agent/agent/core.py:416-445 | The same over every sequence of such turns. |
| TurnSafety.UnknownOutcomeIsNeverRetried | dataworks_agent/agent/core.py:626-646 | From the first turn of any conversation on: once the outcome is unknown, the workflow service is not called again before a releasing turn. |
| TurnSafety.RaisedWorkflowIsUnknown | dataworks_agent/agent/core.py:744-754 | A workflow that raises was called once and leaves the outcome unknown with nothing to answer. |
| TurnSafety.UncertainWriteIsSafeIff | dataworks_agent/agent/run_coordinator.py:244-271 | The data of a tool may override the mode of its response: an uncertain write is stored as unknown if and only if it does not (or sets that mode itself), and safely so if and only if moreover the data carries no card. |
| TurnSafety.RequestedModellingStarts | dataworks_agent/agent/core.py:607-646 | A modelling action requested by name always calls the workflow. |
| TurnSafety.AnsweredTurnExecutes | dataworks_agent/agent/core.py:482-646 | An accepted answer next to a requested modelling action calls the workflow. |
| TurnSafety.StoredCardIsAnswerable | dataworks_agent/agent/interaction.py:189-204 | Clicking any listed option of the stored open question is valid, accepted, and pays the first option with that id. |
| TurnSafety.PerformShowsStoredCard | dataworks_agent/agent/core.py:553-763 | After work, the question shown is the one stored. |
| TurnSafety.LegacyTurnShowsStoredCard | dataworks_agent/agent/core.py:268-763 | Every legacy turn shows the stored question if it shows one. |
| TurnSafety.FinishShowsStoredCardIffFresh | dataworks_agent/agent/run_coordinator.py:225-238 | A bounded run shows the stored question, unless it greets while one is open: then it shows the old version of a question stored with the next one. |
| TurnSafety.RunShowsStoredCard | dataworks_agent/agent/run_coordinator.py:62-241 | The same for the whole run, as an equivalence. |
| TurnSafety.TurnShowsStoredCard | dataworks_agent/agent/core.py:197-264 | Every turn shows the stored question, except exactly when a bounded run greets over an open one. |
| TurnSafety.GreetedCardIsRefused | dataworks_agent/agent/run_coordinator.py:236-238 | After a bounded run greets over an open question, every click on the question it shows is refused. |
| TurnSafety.ResetTurnForgetsIffResetMessage | dataworks_agent/agent/core.py:329-344 | A turn read as a reset forgets the objective if and only if its text is a reset message of the graph; otherwise objective and parameters stay. |
| TurnSafety.ResetRequestKeepsTheObjective | dataworks_agent/agent/context_resolver.py:107-107 | A plain two-character request to reset, which the resolver recognises, is such a text: the objective stays. |
| TurnSafety.AnonymousTurnsAreLikeFirstTurns | dataworks_agent/agent/core.py:155-160 | A turn without a conversation calls the workflow just as the first turn of a conversation would and gets the same reply up to the version of its card, unless the workflow raises; provided its updates name no action. |
| AnswerableCards.TurnKeepsOpen | dataworks_agent/agent/core.py:175-763 | Every turn keeps the stored question valid and pending, if the cards that decisions, tools, the workflow and the fixed entry points supply to it are. |
| AnswerableCards.RunsKeepOpen | dataworks_agent/agent/core.py:175-763 | The same over every sequence of turns. |
| AnswerableCards.ShownCardIsAnswerable | dataworks_agent/agent/core.py:1414-1475 | Whatever question such a turn shows, unless it greets over one already open, clicking any listed option next is accepted and pays the first option with that id. |
| AnswerableCards.ShownCardsAreAnswerable | dataworks_agent/agent/core.py:1414-1475 | The same for every turn of every conversation, counted from its first turn, with assumptions on the inputs of the turns only. |
| AnswerableCards.RunLosesQuestionIff | dataworks_agent/agent/run_coordinator.py:115-223 | A bounded run ends in an exception with its open question consumed if and only if it accepted an answer, does not greet, and its decision throws or is a failed tool that may be tried again but has no card and no message fit for one; any other exception leaves the conversation as the run entered it. |
| AnswerableCards.FailedAnswerIsRestoredIff | dataworks_agent/agent/core.py:744-763 | On the other path, an exception after an accepted answer brings the question back under the new version and takes back what the answer contributed, if and only if the workflow was not called. |
| AnswerableCards.FallbackRestores | dataworks_agent/agent/core.py:1304-1366 | Restoring puts the question, parameters, resources, action, query, results and workflow state back as they were before the answer, and shows the question. |
| AnswerableCards.RefusedAnswerIsReported | dataworks_agent/agent/core.py:482-502 | On that path a refused answer changes nothing; an expired one shows the open question, any other has failed. |
| AnswerableCards.NextTurnTakesClick | dataworks_agent/agent/core.py:197-264 | The next turn with a click on the stored question takes it, in whichever runtime: what the option pays is stored and the turn goes on from there. |
| AnswerableCards.ShownCardIsTakenNext | dataworks_agent/agent/core.py:197-264 | The same for the question just shown, in every conversation from its first turn on. |
| TurnRoutes.TurnGoesBy | dataworks_agent/agent/core.py:766-809 | A turn goes to the bounded runtime exactly when the outcome is known and its message, the question it answers, or the question it leaves open is about tables; then it never calls the workflow. |
| TurnRoutes.RecoveredTurnGoesBy | dataworks_agent/agent/core.py:811-900 | An unknown outcome proven to be read-only first becomes a table search with its question under the next version. |
| TurnRoutes.TableQuestionStaysBounded | dataworks_agent/agent/core.py:800-808 | While a question about tables is open in a table search, every turn goes to the bounded runtime. |
| TurnRoutes.WorkFollowsItsAction | dataworks_agent/agent/core.py:598-646 | Work follows the action the caller names, else the data question, else the stored action when it answers a question or says nothing else, else what it says; the workflow is called once exactly if that action needs it, and the action is stored. |
| TurnRoutes.AnsweredTurnWorks | dataworks_agent/agent/core.py:448-553 | A turn whose answer is accepted works from the conversation the answer leaves. |
| TurnRoutes.UnansweredTurnWorks | dataworks_agent/agent/core.py:311-553 | A turn that asks for work continues the goal if it says so, else works on its own text, from a new goal if it starts one. |
| TurnRoutes.OnlyWorkCalls | dataworks_agent/agent/core.py:316-480 | No other turn on that path calls the workflow. |
| TurnRoutes.TurnCallsWorkflowIff | dataworks_agent/agent/core.py:598-646 | So a turn that asks for work calls the workflow exactly when the action it follows needs that. |
| TurnRoutes.AnsweredTurnCallsWorkflowIff | dataworks_agent/agent/core.py:598-646 | And so does a turn whose answer is accepted. |
| TurnRoutes.LineageQuestionCallsNothing | dataworks_agent/agent/core.py:598-600 | A question about lineage in a modelling task calls nothing, and ends the modelling. |
| TurnEffects.CompletionStores | dataworks_agent/agent/core.py:1404-1475 | A completed turn stores its context, the data and text of its reply, the question under the next version with its goal open exactly while it asks, and the status of its mode; a goal is named only where there is none and not by an interlude. |
| TurnEffects.InterludeKeepsTask | dataworks_agent/agent/core.py:316-411 | Cancelling, greeting and explaining keep the whole task; which question and status each leaves. |
| TurnEffects.FinishedWorkStores | dataworks_agent/agent/core.py:680-742 | Finished work stores the action it follows, its parameters, question and result; only a workflow changes the workflow state and the query; the rest of the task stays. |
| TurnEffects.RaisedWorkKeepsTask | dataworks_agent/agent/core.py:1196-1260 | A workflow that raises keeps the task and asks nothing. |
| TurnEffects.MessageOfAnswer | dataworks_agent/agent/core.py:520-541 | What is said to the work after an answer: a layer narrows the goal, a text or follow-up is added to it, and without a goal stands for itself. |
| TurnEffects.UpdatesOfAnswer | dataworks_agent/agent/core.py:503-519 | An answered turn merges what was paid over what was given, key by key, and passes a text on as a parameter. |
| LockRegistry.LockTable.TurnLock | dataworks_agent/agent/core.py:95-105 | One registered lock per conversation: an existing entry is returned unchanged, otherwise a new one is created and kept. |
| LockRegistry.NextKeepsInv | dataworks_agent/agent/conversation_graph.py:70-77 | Looking up, entering, leaving, giving up and collecting unreferenced entries keep: every lock in use is the registered one of its key. |
| LockRegistry.TurnsAreExclusive | dataworks_agent/agent/core.py:154-162 | Over every run, tasks of one conversation share one lock, tasks of different conversations never do, and two turns of one conversation are never inside together. |
| LockRegistry.OnlyOwnConversationBlocks | dataworks_agent/agent/core.py:158-159 | A waiting turn is admitted if and only if no turn of its own conversation is inside. |
| LockRegistry.DroppingAUsedLockBreaksExclusion | dataworks_agent/agent/conversation_graph.py:50-53 | Dropping a lock that is in use would let a second turn of the conversation in. |
| Cache.CacheManager.GetValue | dataworks_agent/cache/manager.py:80-100 | A hit moves its entry to the end and counts; a missing or expired key is a miss, and an expired entry is removed. |
| Cache.CacheManager.SetValue | dataworks_agent/cache/manager.py:102-152 | A stale write is refused and changes only its counter; otherwise the key is replaced at the end after evicting the oldest entry of a full cache. |
| Cache.CacheManager.DeleteKey | dataworks_agent/cache/manager.py:154-165 | The entry is removed and the epoch raised exactly if the key was present. |
| Cache.CacheManager.RemoveWhere | dataworks_agent/cache/manager.py:228-308 | Collecting keys and deleting them one by one removes exactly the entries meant, keeps the others in order, counts them, and touches no epoch. |
| Cache.CacheManager.GetOrSet | dataworks_agent/cache/manager.py:184-202 | With any operations of others between the read and the peek and while the factory runs, the result is a miss, those operations, and a write guarded by the peeked epoch. |
| CacheTheorems.GetKeepsInclusion | dataworks_agent/cache/manager.py:80-100 | A read keeps the small cache an order-preserving part of the large one with no fewer free slots in the large; a hit in the small one is a hit in the large one, with the same value. |
| CacheTheorems.SetKeepsInclusion | dataworks_agent/cache/manager.py:102-152 | So does an unguarded write, whichever of the two caches evicts. |
| CacheTheorems.RunsKeepInclusion | dataworks_agent/cache/manager.py:80-308 | So does every sequence of operations. |
| CacheTheorems.StackInclusion | dataworks_agent/cache/manager.py:80-308 | On every trace from empty, a cache of size n stays inside one of size m >= n and hits no more often. |
| CacheTheorems.RunsKeepBounded | dataworks_agent/cache/manager.py:139-142 | Over every run the keys are unique and the size stays within the bound. |
| CacheTheorems.OrderIsRecency | dataworks_agent/cache/manager.py:95-98 | After every run the entries are ordered by the time of their last hit or write. |
| CacheTheorems.EvictedIsLeastRecentlyTouched | dataworks_agent/cache/manager.py:139-142 | A write into a full cache drops exactly the entry touched longest ago. |
| CacheTheorems.EpochCountsDeletes | dataworks_agent/cache/manager.py:160-165 | The epoch of a key is the number of deletes of it that found it. |
| CacheTheorems.StaleWriteRefusedIff | dataworks_agent/cache/manager.py:121-133 | For any operations between peek and guarded write, the write is refused if and only if such a delete happened in between. |
| CacheTheorems.GetOrSetRefusesIff | dataworks_agent/cache/manager.py:195-202 | get_or_set drops its value in exactly that case, and then changes only the counter. |
| CacheTheorems.AbsentKeyDeletesUnnoticed | dataworks_agent/cache/manager.py:161-164 | While a key is absent and nobody sets it, deletes of it never count. |
| CacheTheorems.DeleteAfterMissIsNotNoticed | dataworks_agent/cache/manager.py:171-175 | So after a miss the value of the factory is in the cache however often the key is deleted while it runs, unless somebody sets the key; contrary to the documentation of the method. |
| CacheReads.ReadReturnsLastWrite | dataworks_agent/cache/manager.py:80-152 | After a stored write, and whatever operations neither write, delete nor remove its key, a read returns the value exactly while it is within its life, and nothing afterwards, when the key is gone; it has not been evicted if fewer other keys than there are places were used since. |
| CacheReads.RunKeepsEntry | dataworks_agent/cache/manager.py:139-142 | That an entry stays while fewer other keys than there are places have been used, as the working set of the cache. |
| CacheReads.RemovedReadsNothing | dataworks_agent/cache/manager.py:154-308 | After a delete of the key, or a removal that does not spare it, nothing is read until it is written again. |
| CacheReads.RemovalLeavesIff | dataworks_agent/cache/manager.py:228-308 | Exactly the entries it spares are left: a source takes its own key and those below it, with a star all that start so, tags those with one of them, expiry those past their life. |
| CacheReads.GetOrSetReturnsStored | dataworks_agent/cache/manager.py:191-193 | get_or_set returns a live stored value and then neither runs the factory nor writes. |
| CacheReads.GetOrSetStoresProduced | dataworks_agent/cache/manager.py:195-198 | After a miss it returns what the factory produced, and so do reads within the life. |
| CacheReads.CountersCountReads | dataworks_agent/cache/manager.py:80-100 | Hits count the reads that found a live entry, misses the others. |
| WorkerPool.MoveKeepsInv | script/translate-app.ts:181-186 | Any move of any worker keeps every dispatched index in exactly one place and shortens what is left. |
| WorkerPool.EverySchedule | script/translate-app.ts:178-188 | In every schedule at most min(concurrency, n) tasks are in flight, no index is dispatched twice, and the number of moves is bounded. |
| WorkerPool.StoppedPool | script/translate-app.ts:188-191 | A pool whose workers all stopped succeeded if and only if every task resolves, and its sorted results are the tasks over the items in order. |
| WorkerPool.InOrder | script/translate-app.ts:189-191 | Sorting by index undoes the order of completion. |
| WorkerPool.RunPool | script/translate-app.ts:178-192 | Under an arbitrary scheduler the pool settles, rejecting at the first rejected task and otherwise with the in-order map of the task; it fulfils if and only if all tasks resolve, and without workers with nothing. |
| TaskExecutor.AsyncTaskExecutor.Submit | dataworks_agent/async_utils/executor.py:69-87 | A pending task with no retries is registered, in place of one with the same id, and no other task is affected; this is one step of the interleavings, as is each of the next methods. |
| TaskExecutor.AsyncTaskExecutor.Begin | dataworks_agent/async_utils/executor.py:91-94 | Starting takes a permit; permits and executions add up to the limit. |
| TaskExecutor.AsyncTaskExecutor.End | dataworks_agent/async_utils/executor.py:96-124 | However the function ends, the permit comes back; a failure leaves the task pending below its retry limit and failed at it. |
| TaskExecutor.AsyncTaskExecutor.ExecuteAll | dataworks_agent/async_utils/executor.py:126-138 | Exactly the tasks pending at the start are executed once each; no failure stops the round, which is a run of the interleavings. |
| TaskExecutor.AsyncTaskExecutor.CancelTask | dataworks_agent/async_utils/executor.py:160-171 | Only a running task of that id is marked, and the result says whether there was one. |
| TaskExecutor.AsyncTaskExecutor.Clear | dataworks_agent/async_utils/executor.py:173-176 | Forgetting the tasks frees no permit. |
| TaskExecutor.AsyncTaskExecutor.Stats | dataworks_agent/async_utils/executor.py:178-187 | The published numbers are the counts of the registered tasks. |
| TaskExecutor.AsyncTaskExecutor.RunningIsBounded | dataworks_agent/async_utils/executor.py:89-124 | In every state between two steps, the running ids are no more than the executions, which with the free permits make up the limit. |
| TaskExecutor.NextConserves | dataworks_agent/async_utils/executor.py:69-176 | Every step of every task keeps permits plus executions at the limit and an execution behind every running id. |
| TaskExecutor.PermitsAreConserved | dataworks_agent/async_utils/executor.py:69-176 | The same over every interleaving of submissions, executions, cancellations and clearings; and without interruptions every task in state running is executing. |
| TaskExecutor.RunningIsLastMarked | dataworks_agent/async_utils/executor.py:91-124 | Over every interleaving the running ids are exactly those whose last beginning or end was a beginning, since the last clearing. |
| TaskExecutor.InterruptedTaskStaysRunning | dataworks_agent/async_utils/executor.py:96-124 | An interrupted task stays in state running without an execution over every run that neither starts it again nor cancels it. |
| TaskExecutor.InterruptionLeavesRunning | dataworks_agent/async_utils/executor.py:105-124 | An interruption of its only execution leaves a task in just that state. |
| TaskExecutor.CancelLastsIffInterrupted | dataworks_agent/async_utils/executor.py:96-118 | A cancelled task stays cancelled if and only if its function is interrupted rather than left to end. |
| TaskExecutor.CountsPartition | dataworks_agent/async_utils/executor.py:178-187 | Every task is in exactly one of five states, of which the numbers publish four. |
| TaskExecutor.RoundsUseTheBudget | dataworks_agent/async_utils/executor.py:109-118 | Each round uses one of the attempts a pending task has left. |
| TaskExecutor.NothingPendingAfterEnoughRounds | dataworks_agent/async_utils/executor.py:126-138 | As many rounds as the largest max(1, limit - retries) leave nothing pending. |
| TaskExecutor.FailingTaskUsesItsWholeBudget | dataworks_agent/async_utils/executor.py:109-118 | That number is exact: a task that always fails is pending until then. |
| TaskOutcomes.HowTasksEnd | dataworks_agent/async_utils/executor.py:96-138 | Over repeated rounds a pending task is completed exactly when an attempt within its budget succeeds, failed exactly when all of them raise, and its retries count the attempts that raised. |
| TaskOutcomes.StatsCountOutcomes | dataworks_agent/async_utils/executor.py:178-187 | After enough rounds the completed and failed numbers count the tasks of each kind, and add up. |
| Batches.ChunkedSpec | scripts/run_add_partitions.py:31-32 | The batches concatenate to the plan; all but the last have the full size. |
| Batches.ChunkedCount | scripts/run_add_partitions.py:31-32 | There are ceil(n / size) of them. |
| Batches.BatchRunner.MakeChunks | scripts/run_add_partitions.py:31-32 | The slicing at multiples of the size makes these batches. |
| Batches.BatchRunner.Run | scripts/run_add_partitions.py:65-161 | A run skips recorded batches, runs the others in order, records each success, and stops at the first failure; a dry run changes nothing. |
| Batches.RunKeepsOrder | scripts/run_add_partitions.py:98-159 | A run keeps the record at exactly 1..k; a reported failure names k + 1. |
| Batches.ChainsKeepOrder | scripts/run_add_partitions.py:55-69 | So does any chain of failing, crashing, resumed and restarted runs. |
| Batches.ResumedChainsExecuteThePlan | scripts/run_add_partitions.py:65-161 | When no attempt takes effect without being recorded, for a first run and its resumptions, the batches that took effect are always exactly the recorded ones; once a run returns 0 the whole plan has been executed in order, each item once. |
| Batches.RepeatsAreStrays | scripts/run_add_partitions.py:35-52 | In general, with crashes and with jobs that take effect after they were given up: the recorded batches have taken effect in order, and besides them exactly as many as attempts took effect unrecorded; once a run returns 0 the whole plan has, in order. |
| Batches.ResumeWithOtherSize | scripts/run_add_partitions.py:69-71 | When a run resumed with another batch size returns 0, it has executed exactly the items from (new size * k) on, even if there are fewer than k new batches. |
| Batches.RestartExecutesEverything | scripts/run_add_partitions.py:65-161 | A run that is not resumed starts over whatever is recorded, and returns 0 exactly when it executed every batch. |
| Batches.OtherSizeCoversIff | scripts/run_add_partitions.py:98-102 | That run has left no item out if and only if nothing was recorded, the new batches are no larger, or the old ones already covered the plan; and it has executed the plan as such if and only if the sizes agree as far as they matter. |
| Changelog.WrapIsRevert | script/raw-changelog.ts:93-101 | A wrapped message is recognised as a revert of it if and only if it is one non-empty line. |
| Changelog.ComputeReverted | script/raw-changelog.ts:89-111 | The loop over the ordered map computes the cancellation, commit by commit. |
| Changelog.NoMessageWithItsRevert | script/raw-changelog.ts:93-107 | No plain one-line message is left together with its own revert. |
| Changelog.MessageLeftWithItsRevert | script/raw-changelog.ts:93-107 | For every other message there are commits that leave it together with its revert: newest first, a revert of a revert and then the revert; a message that is empty or spans lines and then its revert. |
| Changelog.NeverLeftWithItsRevertIff | script/raw-changelog.ts:89-111 | No commits leave a message together with its own revert if and only if it is one non-empty line and not itself a revert. |
| Changelog.CommitsAreAccountedFor | script/raw-changelog.ts:89-111 | Commits = results + 2 * cancellations + overwritten duplicates. |
| Changelog.FamiliesAreIndependent | script/raw-changelog.ts:89-111 | For one-line messages, the result restricted to the nested reverts of one message is the result of those commits alone. |
| Changelog.OtherMessagesCrossFamilies | script/raw-changelog.ts:101-105 | For any other plain message this fails: it cancels against a commit of another family. |
| Changelog.RepeatedMessageKeepsLastCommit | script/raw-changelog.ts:101-107 | A message that nothing cancels is kept and stands for the last commit that carries it. |
| FlowSpec.MapParameters | dataworks_agent/api_clients/flowspec.py:39-52 | Every parameter becomes a variable with the default scope and type, in order. |
| FlowSpec.BuildNodeFlowspec | dataworks_agent/api_clients/flowspec.py:55-190 | An unsupported language is refused; otherwise node, parameters and flow are those of the request. |
| FlowSpec.BuiltInputsMatchFlow | dataworks_agent/api_clients/flowspec.py:153-188 | A built document names the same upstream tables in inputs and flow exactly if it has a dependency; otherwise it has no flow. |
| SpecReading.RequestIsReadBack | dataworks_agent/api_clients/flowspec.py:55-190 | The request can be read back from the document built for it: round trip up to defaults. |
| SpecReading.DocumentsTellRequestsApart | dataworks_agent/api_clients/flowspec.py:55-190 | So different requests build different documents. |
| SpecReading.FlowIsRead | dataworks_agent/api_clients/flowspec.py:153-188 | The flow names the node, itself first if it depends on itself, then its tables in order. |
| NodeAdapter.FirstDotted | dataworks_agent/api_clients/openapi_node_adapter.py:183-190 | A dotted output is found exactly if there is one of the wanted kind. |
| NodeAdapter.FindDefaultOutputRef | dataworks_agent/api_clients/openapi_node_adapter.py:182-190 | The first default dotted output is preferred, then the first dotted one. |
| NodeAdapter.CollectDepends | dataworks_agent/api_clients/openapi_node_adapter.py:244-261 | The dependencies are written in order, the node itself under its own reference, those without a reference left out. |
| NodeAdapter.ConfiguredNode | dataworks_agent/api_clients/openapi_node_adapter.py:219-237 | The first node with mode, trigger, parameters, strategy keys and outputs of the configuration. |
| NodeAdapter.OpenAPINodeAdapter.UpdateNode | dataworks_agent/api_clients/openapi_node_adapter.py:194-203 | Succeeds exactly if the service answers and a first node exists, and then changes only the content of that node; otherwise nothing is stored and the error is recorded. |
| NodeAdapter.OpenAPINodeAdapter.UpdateVertex | dataworks_agent/api_clients/openapi_node_adapter.py:207-264 | The same for the schedule: one document changes, all others stay. |
| NodeAdapter.EditMatchesBuildIff | dataworks_agent/api_clients/openapi_node_adapter.py:239-262 | Editing a built document with its own dependencies leaves the flow as built if and only if there is a dependency, the entry names the node alike, no reference is empty, and the dependency on itself comes first with a dotted output. |
| NodeAdapter.EditsCombineIff | dataworks_agent/api_clients/openapi_node_adapter.py:207-264 | Two edits equal one edit with the combined configuration, except exactly when the first writes a dependency on the node itself and the second, without dependencies, gives outputs with another default reference. |
| NodeAdapter.EditIsIdempotent | dataworks_agent/api_clients/openapi_node_adapter.py:207-264 | Repeating an edit changes nothing. |
| NodeAdapter.EditsCommute | dataworks_agent/api_clients/openapi_node_adapter.py:194-264 | Editing the content and editing the schedule commute. |
| NodeAdapter.EditTouchesOnly | dataworks_agent/api_clients/openapi_node_adapter.py:219-237 | All later nodes, and the name, id, inputs and unconfigured keys of the first, stay as they were. |
| NodeAdapter.EditSets | dataworks_agent/api_clients/openapi_node_adapter.py:219-237 | An edit of the schedule writes what the configuration gives, key by key, and keeps what it does not give. |
| NodeAdapter.EditedInputsMatchIff | dataworks_agent/api_clients/openapi_node_adapter.py:239-262 | An edit of the dependencies leaves the inputs behind: if inputs and flow agreed, they still do if and only if the configuration names the tables the flow named, in the same order. |
| Splicing.ReplaceTags | github/index.ts:455-488 | The loop with its running offset splices match by match and records unshifted positions. |
| Splicing.SpliceStep | github/index.ts:475-477 | At a match whose tag stands in the rest of the input, the text holds the tag at the shifted position, and a splice replaces just that. |
| Splicing.SplicingIsSubstitution | github/index.ts:452-477 | When the downloaded matches are ascending and do not overlap, wherever the failed ones stand, the repeated splices are the simultaneous substitution, and each splice point holds its own tag. |
| Splicing.SplicesMeetTheirTagsIff | github/index.ts:452-477 | For downloaded matches in order, whose overlapping tags cannot be mistaken for anything in a replacement or for a copy before an earlier tag, every splice meets its own tag if and only if the matches are well placed. |
| Splicing.WellPlacedIffNoOverlap | github/index.ts:452-477 | For matches in order, being well placed is that no downloaded tag starts inside an earlier one. |
| Splicing.LinkedImageIsMissed | github/index.ts:443-477 | For an image inside a link, which both patterns find, the splice for the image misses its tag. |
| Splicing.RecordedStartIsRightIff | github/index.ts:480-487 | A replacement stands at its recorded start if and only if the replacements before it kept the length of the text. |
| SqlGuard.StrippingIsComplete | dataworks_agent/api_clients/destructive_guard.py:52-54 | The stripped text has no line comment and no closed block comment, and stripping is idempotent. |
| SqlGuard.StatementsOfJoin | dataworks_agent/api_clients/destructive_guard.py:57-59 | The statements of "a;b" are those of a followed by those of b. |
| SqlGuard.SplitCutsAtSemicolons | dataworks_agent/api_clients/destructive_guard.py:57-59 | The parts hold no semicolon, and joined by semicolons they are the text again. |
| SqlGuard.StripLinesJoinsIff | dataworks_agent/api_clients/destructive_guard.py:33-33 | Line comments are stripped part by part if and only if the first part does not end inside one. |
| SqlGuard.StripBlocksJoin | dataworks_agent/api_clients/destructive_guard.py:34-34 | Block comments are stripped part by part if and only if the first part does not open one that the second closes. |
| SqlGuard.GuardSql | dataworks_agent/api_clients/destructive_guard.py:73-99 | Rejects at the first forbidden statement of the stripped script, and accepts exactly if there is none. |
| SqlGuard.GuardOfJoin | dataworks_agent/api_clients/destructive_guard.py:73-99 | If the first part leaves no comment open, "a;b" is accepted if and only if a and b are. |
| SqlGuard.GuardOfCommentFreeJoin | dataworks_agent/api_clients/destructive_guard.py:73-99 | In particular when the first part has no comments. |
| SqlGuard.SplitRespectsLiteralsIff | dataworks_agent/api_clients/destructive_guard.py:57-59 | The text is split as if quoted text were respected if and only if no literal holds a semicolon. |
| SqlScanner.PassesScanAlikeIff | dataworks_agent/api_clients/destructive_guard.py:33-54 | The two passes read the same characters of the script as one scan from left to right that knows literals and both kinds of comment, if and only if the scan meets no comment mark in a literal that the passes obey and no block comment whose end a line comment inside it hides. |
| SqlScanner.StripsAsMeantIff | dataworks_agent/api_clients/destructive_guard.py:52-54 | For whole scripts: stripping keeps the characters it is meant to keep exactly under that condition, and then the stripped text is that of the scan. |
| SqlScanner.CutsAsMeantIff | dataworks_agent/api_clients/destructive_guard.py:52-59 | Under that condition the statements are the intended ones if and only if no literal of the stripped text holds a semicolon. |
| SqlScanner.DashlessCloseSurvives | dataworks_agent/api_clients/destructive_guard.py:33-34 | A block comment without two dashes before its end meets the condition. |
| SqlScanner.DashesHideTheClose | dataworks_agent/api_clients/destructive_guard.py:33-54 | A closed block comment with two dashes inside does not: its end and the statement behind it on the line are lost. |
| RollingHash.Reduce | infra/monitoring.ts:37-37 | The reduce over characters; every intermediate value lies in [-2^31, 2^31 + 65535). |
| RollingHash.ReducedIsPolynomial | infra/monitoring.ts:37-37 | The signed wrap-around of every step agrees with the polynomial modulo 2^32. |
| RollingHash.HashIsPolynomial | infra/monitoring.ts:36-38 | The hash is the sum of c_i * 31^(n-1-i) modulo 2^32 over the first code units, for every string. |
| RollingHash.TrailingSurrogatesAreIgnored | infra/monitoring.ts:37-37 | Texts that differ only in the second half of a surrogate pair share a hash. |
| DdlParsing.BlockEndSpec | scripts/deploy_dwd.py:49-59 | A block holds the lines up to the next drop line, through the first lone ";", or to the end of the file, whichever comes first. |
| DdlParsing.BlocksSpec | scripts/deploy_dwd.py:30-59 | One block per drop line, starting there, in order and without overlap. |
| DdlParsing.ParseDdlFile | scripts/deploy_dwd.py:24-70 | The one-pass loop yields exactly these blocks: up to the next drop line, through a lone ";", or to the end of the file. |
| DdlParsing.IndentationDoesNotCount | scripts/deploy_dwd.py:24-59 | White space around a line does not change how it is read. |
| DdlParsing.ParseDdl | scripts/rebuild_dwd_root.py:37-54 | The lines from the first drop line through the first lone ";" after it, if both exist. |
| DdlParsing.ParsersAgreeIff | scripts/rebuild_dwd_root.py:37-54 | The two parsers agree on the first table if and only if no other drop line comes before that ";". |
| DdlParsing.FirstTableText | scripts/deploy_dwd.py:38-59 | In that case the text of the first table is the text the single-table parser returns. |

## Left out

- RunCoordinator.AgentRunCoordinator.Run: the legacy delegate is an input that does not itself change the conversation; the agent configures none.
- TurnSafety.TurnIsSafe: assumes that a decision or tool result reported as unknown carries no card; TurnSafety.UncertainWriteIsSafeIff shows that this is needed.
- TurnSafety.UncertainWriteIsSafeIff: for tool results that are not recoverable, as the constructor of effectful results makes them.
- TurnSafety.UnknownOutcomeIsNeverRetried: is about outcomes stored as unknown; TurnSafety.UncertainWriteIsSafeIff says when the outcome of a tool is.
- TurnSafety.TurnShowsStoredCard: assumes that no decision of the provider claims the greeting mode that the coordinator reserves for itself.
- AnswerableCards.ShownCardsAreAnswerable: the cards supplied from outside are valid and pending, no decision claims the greeting mode, and decisions reported as unknown carry no card.
- AnswerableCards.NextTurnTakesClick: for turns that do not fail while they are classified; such a turn leaves the conversation as it was.
- TurnRoutes.WorkFollowsItsAction: what the message intends, whether it is a question about data or about the context, and the parameters of the intent are inputs.
- CacheReads.ReadReturnsLastWrite: time is given with each operation, and a read of the key itself past its life counts as its removal.
- TaskExecutor.AsyncTaskExecutor.Begin: the task was submitted to this executor.
- TaskExecutor.AsyncTaskExecutor.ExecuteAll: a round with something to do starts with a free permit, for which the source would wait, and runs without interleaving; TaskExecutor.PermitsAreConserved is about all interleavings.
- Batches.BatchRunner.Run: leaves out how long is polled and the report file; a batch given up takes effect, if it ever does, at the time it is given up.
- NodeAdapter.OpenAPINodeAdapter.UpdateVertex: nested parts of a document have the types the builder gives them; a document with other types raises in the source. A fault of the service means that nothing was stored.
- NodeAdapter.EditMatchesBuildIff: the edit must not replace the outputs of the node; with new outputs the reference of the dependency on itself is theirs.
- Splicing.SplicingIsSubstitution: for downloaded matches that do not overlap; Splicing.SplicesMeetTheirTagsIff shows that otherwise the splices go astray.
- Splicing.RecordedStartIsRightIff: for downloaded matches that do not overlap; after a missed splice there is no replacement to speak of.
- Splicing.SplicesMeetTheirTagsIff: an overlapping tag that can be mistaken, for part of a replacement or for an earlier copy of itself, may happen to meet the shifted position.
- SqlGuard.GuardSql: which single statement is forbidden (the patterns and the table-name rule) is an arbitrary predicate.
- SqlScanner.StripsAsMeantIff: literals are in single or double quotes with doubled quotes inside; the equivalence is about which characters are read, since two different readings may by chance spell the same text.
- SqlScanner.CutsAsMeantIff: literals are found in the stripped text, as the split finds it.
- WorkerPool.RunPool: returns at the first rejection; what the other workers still do is in WorkerPool.EverySchedule only.
- CacheTheorems.StackInclusion: for writes without an epoch; time is a real number given with each operation.
- Interactions.BuildInteraction: option values are strings, and lower-casing covers the ASCII letters.
- Persistence failures of the conversation store, its database and its initialisation: every call is atomic under the conversation lock.
- Message texts, card texts, prompts, identifiers and time stamps: inputs of the model where a property needs them.
- Language understanding, classifiers and regular expressions of the resolver and the decision provider: arbitrary functions.
- AgentWorkflowService, TaskPlanner, TaskExecutor of the agent and the tools: steps that finish with any result or raise.
- Merging of conversation parameters into an intent, turn traces, conversation events and stored message history: no effect on the properties.
- Key order of JSON objects, and JSON text itself.
- Clients of the network, the browser and the warehouse, web routes, logging, metrics, configuration and infrastructure resources.
- Response formatting, outcome verification, intent clarification, permissions and node creation: easy members.

/** Safety of one conversation over every sequence of graph operations. */
module ConversationRuns {
  import opened Values
  import opened Text
  import opened Interactions
  import opened Conversation

  /** One call, atomic under the conversation lock. */
  datatype Op =
    | Resolve(message: string, updates: ContextUpdates)
    | StartGoal(objective: string)
    | Remember(args: RememberArgs)
    | Answer(answer: InteractionAnswer)
    | Cancel

  datatype Outcome =
    | Resolved(text: string)
    | Saw(context: Context)
    | Accepted(payload: Payload, version: nat)
    | Failed(error: GraphError)

  function Step(c: Checkpoint, op: Op): (Checkpoint, Outcome) {
    match op
    case Resolve(message, updates) =>
      var (next, text) := ResolveStep(c, message, updates);
      (next, Resolved(text))
    case StartGoal(objective) => (StartGoalStep(c, objective), Saw(View(StartGoalStep(c, objective))))
    case Remember(args) =>
      (match RememberStep(c, args)
       case Ok(next) => (next, Saw(View(next)))
       case Err(e) => (c, Failed(e)))
    case Answer(answer) =>
      (match AnswerStep(c, answer)
       case Ok(success) => (success.0, Accepted(success.1, success.0.stateVersion))
       case Err(e) => (c, Failed(e)))
    case Cancel => (CancelStep(c), Saw(View(CancelStep(c))))
  }

  function Run(c: Checkpoint, ops: seq<Op>): Checkpoint
    decreases |ops|
  {
    if ops == [] then c else Run(Step(c, ops[0]).0, ops[1..])
  }

  /** Every reachable checkpoint: the open question carries the current version, the pending
      objective is the objective. */
  predicate Consistent(c: Checkpoint) {
    && (c.pendingInteraction.Some? ==> c.pendingInteraction.value.stateVersion == c.stateVersion)
    && (c.pendingObjective == "" || c.pendingObjective == c.objective)
  }

  /** The operation writes a new version of this checkpoint. */
  predicate Mutates(c: Checkpoint, op: Op) {
    match op
    case Resolve(message, _) => IsResetMessage(message)
    case StartGoal(_) => true
    case Remember(_) => !Step(c, op).1.Failed?
    case Answer(_) => !Step(c, op).1.Failed?
    case Cancel => true
  }

  function Mutations(c: Checkpoint, ops: seq<Op>): nat
    decreases |ops|
  {
    if ops == [] then 0 else (if Mutates(c, ops[0]) then 1 else 0) + Mutations(Step(c, ops[0]).0, ops[1..])
  }

  /** Successful answers in the run that were given for version token v. */
  function AcceptedAnswers(c: Checkpoint, ops: seq<Op>, v: nat): nat
    decreases |ops|
  {
    if ops == [] then 0
    else
      (if ops[0].Answer? && ops[0].answer.stateVersion == v && Step(c, ops[0]).1.Accepted? then 1 else 0)
      + AcceptedAnswers(Step(c, ops[0]).0, ops[1..], v)
  }

  lemma ResolveKeepsConsistent(c: Checkpoint, message: string, updates: ContextUpdates)
    requires Consistent(c)
    ensures var next := ResolveStep(c, message, updates).0;
            && Consistent(next)
            && next.stateVersion == c.stateVersion + (if IsResetMessage(message) then 1 else 0)
            && (!IsResetMessage(message) ==>
                  next.objective == c.objective && next.pendingInteraction == c.pendingInteraction)
  {
    ResolveResetsOrMerges(c, message, updates);
  }

  lemma RememberKeepsConsistent(c: Checkpoint, a: RememberArgs)
    requires RememberStep(c, a).Ok?
    ensures var next := RememberStep(c, a).value; Consistent(next) && next.stateVersion == c.stateVersion + 1
  {
  }

  lemma AnswerKeepsConsistent(c: Checkpoint, answer: InteractionAnswer)
    requires Consistent(c) && AnswerStep(c, answer).Ok?
    ensures var next := AnswerStep(c, answer).value.0; Consistent(next) && next.stateVersion == c.stateVersion + 1
  {
  }

  lemma StepKeepsConsistent(c: Checkpoint, op: Op)
    requires Consistent(c)
    ensures Consistent(Step(c, op).0)
    ensures Step(c, op).0.stateVersion == c.stateVersion + (if Mutates(c, op) then 1 else 0)
    ensures !Mutates(c, op) && !op.Resolve? ==> Step(c, op).0 == c
  {
    match op
    case Resolve(message, updates) => ResolveKeepsConsistent(c, message, updates);
    case Remember(args) => if RememberStep(c, args).Ok? { RememberKeepsConsistent(c, args); }
    case Answer(answer) => if AnswerStep(c, answer).Ok? { AnswerKeepsConsistent(c, answer); }
    case _ =>
  }

  /** Over any run from any consistent checkpoint: still consistent, and the version counts the mutations. */
  lemma {:induction false} VersionCountsMutations(c: Checkpoint, ops: seq<Op>)
    requires Consistent(c)
    ensures Consistent(Run(c, ops))
    ensures Run(c, ops).stateVersion == c.stateVersion + Mutations(c, ops)
    decreases |ops|
  {
    if ops != [] {
      StepKeepsConsistent(c, ops[0]);
      VersionCountsMutations(Step(c, ops[0]).0, ops[1..]);
    }
  }

  /** An answer for any version but the current one is refused and changes nothing. */
  lemma StaleAnswerRefused(c: Checkpoint, a: InteractionAnswer)
    requires Consistent(c) && a.stateVersion != c.stateVersion
    ensures Step(c, Answer(a)).0 == c && Step(c, Answer(a)).1.Failed?
  {
  }

  /** At most one answer per version token ever succeeds, and none for a token older than the start. */
  lemma {:induction false} AnswersAcceptedAtMostOnce(c: Checkpoint, ops: seq<Op>, v: nat)
    requires Consistent(c)
    ensures AcceptedAnswers(c, ops, v) <= 1
    ensures v < c.stateVersion ==> AcceptedAnswers(c, ops, v) == 0
    decreases |ops|
  {
    if ops != [] {
      StepKeepsConsistent(c, ops[0]);
      if ops[0].Answer? && ops[0].answer.stateVersion != c.stateVersion {
        StaleAnswerRefused(c, ops[0].answer);
      }
      AnswersAcceptedAtMostOnce(Step(c, ops[0]).0, ops[1..], v);
    }
  }

  /** remember(expected_version=v) after any run succeeds iff no mutation happened since v was read. */
  lemma RememberSucceedsIffUnmodified(c: Checkpoint, ops: seq<Op>, args: RememberArgs)
    requires Consistent(c) && args.expectedVersion == Some(c.stateVersion)
    ensures Step(Run(c, ops), Remember(args)).1.Saw? <==> Mutations(c, ops) == 0
    ensures Mutations(c, ops) > 0 ==> Step(Run(c, ops), Remember(args)).0 == Run(c, ops)
  {
    VersionCountsMutations(c, ops);
  }

  /** resolve merges its updates without a new version, so a checked remember may silently undo all of them. */
  lemma ResolveIsInvisibleToRemember(c: Checkpoint, message: string, updates: ContextUpdates, args: RememberArgs)
    requires Consistent(c) && !IsResetMessage(message) && args.expectedVersion == Some(c.stateVersion)
    ensures var merged := Step(c, Resolve(message, updates)).0;
            && merged.params == c.params + updates.params
            && merged.selectedResources == c.selectedResources + updates.selectedResources
            && (updates.workflowState != map[] ==> merged.workflowState == updates.workflowState)
            && (updates.action != "" ==> merged.action == updates.action)
            && merged.stateVersion == c.stateVersion
    ensures var merged := Step(c, Resolve(message, updates)).0;
            var written := Step(merged, Remember(args));
            && written.1.Saw?
            && (args.params.Some? ==> written.0.params == args.params.value)
            && (args.selectedResources.Some? ==> written.0.selectedResources == args.selectedResources.value)
            && (args.workflowState.Some? ==> written.0.workflowState == args.workflowState.value)
            && (args.action.Some? ==> written.0.action == args.action.value)
  {
    ResolveResetsOrMerges(c, message, updates);
  }

  // ----- the objective -----

  predicate SetsObjective(op: Op) {
    op.StartGoal? || (op.Resolve? && IsResetMessage(op.message))
  }

  lemma StepKeepsObjective(c: Checkpoint, op: Op)
    requires Consistent(c) && c.objective != "" && !SetsObjective(op)
    ensures Step(c, op).0.objective == c.objective
  {
    match op
    case Resolve(message, updates) => ResolveKeepsConsistent(c, message, updates);
    case Remember(args) => assert View(c).objective == c.objective;
    case _ =>
  }

  /** A non-empty objective survives every run in which no goal is started and no reset is sent. */
  lemma {:induction false} ObjectiveIsSticky(c: Checkpoint, ops: seq<Op>)
    requires Consistent(c) && c.objective != ""
    requires forall i :: 0 <= i < |ops| ==> !SetsObjective(ops[i])
    ensures Run(c, ops).objective == c.objective
    ensures Run(c, ops).pendingObjective in {"", c.objective}
    ensures View(Run(c, ops)).objective == c.objective
    decreases |ops|
  {
    if ops != [] {
      StepKeepsConsistent(c, ops[0]);
      StepKeepsObjective(c, ops[0]);
      ObjectiveIsSticky(Step(c, ops[0]).0, ops[1..]);
    }
  }

  /** The first turn of a goal resolves the goal's own text, which wipes it iff the text holds a reset word. */
  lemma GoalSurvivesItsOwnText(c: Checkpoint, goal: string, updates: ContextUpdates)
    requires Consistent(c) && goal != ""
    ensures var next := Run(c, [StartGoal(goal), Resolve(goal, updates)]);
            && (next.objective == goal <==> !IsResetMessage(goal))
            && (IsResetMessage(goal) ==> next == ResetStep(next.(stateVersion := c.stateVersion + 1), goal, updates))
  {
    var ops := [StartGoal(goal), Resolve(goal, updates)];
    var started := Step(c, ops[0]).0;
    assert ops[1..] == [Resolve(goal, updates)] && ops[1..][1..] == [];
    assert Run(c, ops) == Run(started, ops[1..]) == Step(started, Resolve(goal, updates)).0;
  }

  // ----- reset words -----

  /** A message with one of the reset words anywhere in it, in any case, is a reset message. */
  lemma ResetWordAnywhere(before: string, word: string, after: string)
    requires Lower(word) in {"cancel", "reset", "\U{53D6}\U{6D88}", "\U{91CD}\U{65B0}\U{5F00}\U{59CB}",
                             "\U{65B0}\U{4EFB}\U{52A1}"}
    ensures IsResetMessage(before + (word + after))
  {
    LowerAppend(word, after);
    LowerAppend(before, word + after);
    ContainsIff(Lower(before + (word + after)), Lower(word));
    var words := ResetWords();
    assert words[0] == "\U{53D6}\U{6D88}" && words[1] == "\U{91CD}\U{65B0}\U{5F00}\U{59CB}";
    assert words[2] == "\U{65B0}\U{4EFB}\U{52A1}" && words[3] == "cancel" && words[4] == "reset";
  }

  /** No other message is. */
  lemma ResetMessageHasAWord(message: string)
    requires IsResetMessage(message)
    ensures exists word, before, after ::
              word in {"cancel", "reset", "\U{53D6}\U{6D88}", "\U{91CD}\U{65B0}\U{5F00}\U{59CB}",
                       "\U{65B0}\U{4EFB}\U{52A1}"}
              && Lower(message) == before + (word + after)
  {
    var i :| 0 <= i < |ResetWords()| && Contains(Lower(message), ResetWords()[i]);
    ContainsIff(Lower(message), ResetWords()[i]);
  }
}

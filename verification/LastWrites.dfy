/** After any run every part of a conversation holds what was last written into it, by a table of writes. */
module LastWrites {
  import opened Values
  import opened Interactions
  import opened Conversation
  import opened ConversationRuns

  /** A part of the visible conversation: a field, or one key of the parameters or of the selected resources. */
  datatype Slot =
    | Goal | OpenGoal | ActionName | Workflow | Question | LastResult | LastTurn | Summary | Frame | Status
    | Parameter(key: string) | Resource(key: string)

  /** The question is compared without its version, and a missing key is None. */
  datatype Content =
    | Text(text: string) | Entries(d: Dict) | Asked(card: Card) | In(status: TaskStatus) | Entry(value: Option<Json>)

  function At(d: Dict, key: string): Content {
    Entry(if key in d then Some(d[key]) else None)
  }

  function Read(context: Context, slot: Slot): Content {
    match slot
    case Goal => Text(context.objective)
    case OpenGoal => Text(context.pendingObjective)
    case ActionName => Text(context.action)
    case Workflow => Entries(context.workflowState)
    case Question => Asked(Stamp(context.pendingInteraction, 0))
    case LastResult => Entries(context.lastResult)
    case LastTurn => Entries(context.lastAssistantTurn)
    case Summary => Text(context.conversationSummary)
    case Frame => Entries(context.queryFrame)
    case Status => In(context.taskStatus)
    case Parameter(key) => At(context.params, key)
    case Resource(key) => At(context.selectedResources, key)
  }

  /** Nothing of a task: what a reset and a new goal leave besides the goal and the status. */
  function Nothing(slot: Slot): Content {
    match slot
    case Question => Asked(None)
    case Workflow => Entries(map[])
    case LastResult => Entries(map[])
    case LastTurn => Entries(map[])
    case Frame => Entries(map[])
    case Parameter(_) => Entry(None)
    case Resource(_) => Entry(None)
    case _ => Text("")
  }

  /** A reset leaves nothing and is idle; a new goal leaves itself and is active. */
  function Cleared(slot: Slot, goal: string, status: TaskStatus): Content {
    if slot == Goal then Text(goal) else if slot == Status then In(status) else Nothing(slot)
  }

  function IfGiven<T>(given: Option<T>, content: T -> Content): Option<Content> {
    if given.Some? then Some(content(given.value)) else None
  }

  function OfKey(d: Dict, key: string): Option<Content> {
    if key in d then Some(At(d, key)) else None
  }

  /** What a message that is no reset writes. */
  function Merges(c: Checkpoint, updates: ContextUpdates, slot: Slot): Option<Content> {
    match slot
    case ActionName => if updates.action != "" then Some(Text(updates.action)) else None
    case Workflow => if updates.workflowState != map[] then Some(Entries(updates.workflowState)) else None
    case Parameter(key) => OfKey(updates.params, key)
    case Resource(key) => OfKey(updates.selectedResources, key)
    case _ => None
  }

  /**
   What a successful remember writes: what it is given. It names a goal only where there is none, keeps the goal open
   for a clarification, and then keeps an open question that it is not given.
   */
  function Remembers(c: Checkpoint, a: RememberArgs, slot: Slot): Option<Content> {
    var goal := if View(c).objective != "" then View(c).objective else a.objective;
    match slot
    case Goal => Some(Text(goal))
    case OpenGoal => Some(Text(if a.needsClarification then goal else ""))
    case ActionName => IfGiven(a.action, s => Text(s))
    case Workflow => IfGiven(a.workflowState, d => Entries(d))
    case Question =>
      if a.pendingInteraction.Some? then Some(Asked(Stamp(a.pendingInteraction.value, 0)))
      else if a.needsClarification then None else Some(Asked(None))
    case LastResult => IfGiven(a.lastResult, d => Entries(d))
    case LastTurn => IfGiven(a.lastAssistantTurn, d => Entries(d))
    case Summary => IfGiven(a.conversationSummary, s => Text(s))
    case Frame => IfGiven(a.queryFrame, d => Entries(d))
    case Status => IfGiven(a.taskStatus, t => In(t))
    case Parameter(key) => IfGiven(a.params, d => At(d, key))
    case Resource(key) => IfGiven(a.selectedResources, d => At(d, key))
  }

  /** What an accepted answer writes. */
  function Pays(payload: Payload, slot: Slot): Option<Content> {
    match slot
    case OpenGoal => Some(Text(""))
    case Question => Some(Asked(None))
    case Parameter(key) => OfKey(payload.params, key)
    case Resource(key) => OfKey(payload.selectedResources, key)
    case _ => None
  }

  /** What the operation writes into the slot, if it succeeds and writes it at all. */
  function Writes(c: Checkpoint, op: Op, slot: Slot): Option<Content> {
    match op
    case Resolve(message, updates) =>
      if IsResetMessage(message) then Some(Cleared(slot, "", Idle)) else Merges(c, updates, slot)
    case StartGoal(objective) => Some(Cleared(slot, objective, Active))
    case Remember(args) =>
      if args.expectedVersion.None? || args.expectedVersion.value == c.stateVersion
      then Remembers(c, args, slot) else None
    case Answer(answer) =>
      (match AnswerStep(c, answer)
       case Ok(accepted) => Pays(accepted.1, slot)
       case Err(_) => None)
    case Cancel =>
      if slot == Status then Some(In(TaskCancelled))
      else if slot == Question || slot == OpenGoal then Some(Nothing(slot)) else None
  }

  /** The last content written into the slot in the run, or what it held before. */
  function LastWritten(c: Checkpoint, ops: seq<Op>, slot: Slot, before: Content): Content
    decreases |ops|
  {
    if ops == [] then before
    else
      var written := Writes(c, ops[0], slot);
      LastWritten(Step(c, ops[0]).0, ops[1..], slot, if written.Some? then written.value else before)
  }

  // ----- every operation writes just that -----

  function After(c: Checkpoint, op: Op, slot: Slot): Content {
    var written := Writes(c, op, slot);
    if written.Some? then written.value else Read(View(c), slot)
  }

  lemma ResolveWrites(c: Checkpoint, message: string, updates: ContextUpdates, slot: Slot)
    requires Consistent(c)
    ensures Read(View(ResolveStep(c, message, updates).0), slot) == After(c, Resolve(message, updates), slot)
  {
    ResolveResetsOrMerges(c, message, updates);
  }

  lemma StartGoalWrites(c: Checkpoint, objective: string, slot: Slot)
    ensures Read(View(StartGoalStep(c, objective)), slot) == After(c, StartGoal(objective), slot)
  {
  }

  lemma RememberWrites(c: Checkpoint, a: RememberArgs, slot: Slot)
    requires RememberStep(c, a).Ok?
    ensures Read(View(RememberStep(c, a).value), slot) == After(c, Remember(a), slot)
  {
  }

  lemma AnswerWrites(c: Checkpoint, answer: InteractionAnswer, slot: Slot)
    requires Consistent(c) && AnswerStep(c, answer).Ok?
    ensures Read(View(AnswerStep(c, answer).value.0), slot) == After(c, Answer(answer), slot)
  {
  }

  lemma CancelWrites(c: Checkpoint, slot: Slot)
    requires Consistent(c)
    ensures Read(View(CancelStep(c)), slot) == After(c, Cancel, slot)
  {
  }

  lemma StepWrites(c: Checkpoint, op: Op, slot: Slot)
    requires Consistent(c)
    ensures Read(View(Step(c, op).0), slot) == After(c, op, slot)
  {
    match op
    case Resolve(message, updates) => ResolveWrites(c, message, updates, slot);
    case StartGoal(objective) => StartGoalWrites(c, objective, slot);
    case Remember(args) => if RememberStep(c, args).Ok? { RememberWrites(c, args, slot); }
    case Answer(answer) => if AnswerStep(c, answer).Ok? { AnswerWrites(c, answer, slot); }
    case Cancel => CancelWrites(c, slot);
  }

  /** After any run, every slot of the visible conversation holds what was last written into it. */
  lemma {:induction false} SlotHoldsLastWrite(c: Checkpoint, ops: seq<Op>, slot: Slot)
    requires Consistent(c)
    ensures Read(View(Run(c, ops)), slot) == LastWritten(c, ops, slot, Read(View(c), slot))
    decreases |ops|
  {
    if ops != [] {
      StepWrites(c, ops[0], slot);
      StepKeepsConsistent(c, ops[0]);
      SlotHoldsLastWrite(Step(c, ops[0]).0, ops[1..], slot);
    }
  }

  /** No operation of the run writes anything else into the slot. */
  predicate WritesNoOther(c: Checkpoint, ops: seq<Op>, slot: Slot, content: Content)
    decreases |ops|
  {
    ops == []
    || (&& (Writes(c, ops[0], slot).Some? ==> Writes(c, ops[0], slot).value == content)
        && WritesNoOther(Step(c, ops[0]).0, ops[1..], slot, content))
  }

  lemma {:induction false} StaysUnlessOverwritten(c: Checkpoint, ops: seq<Op>, slot: Slot, content: Content)
    requires WritesNoOther(c, ops, slot, content)
    ensures LastWritten(c, ops, slot, content) == content
    decreases |ops|
  {
    if ops != [] {
      StaysUnlessOverwritten(Step(c, ops[0]).0, ops[1..], slot, content);
    }
  }

  // ----- the text a message is resolved to -----

  /**
   A message to an open goal comes back as a supplement to that goal, unless it repeats it; any other message comes
   back as it is.
   */
  lemma ResolvedText(c: Checkpoint, message: string, updates: ContextUpdates)
    requires Consistent(c)
    ensures var text := ResolveStep(c, message, updates).1;
            text == if !IsResetMessage(message) && c.pendingObjective != "" && message != c.pendingObjective
                    then c.pendingObjective + "\n\U{8865}\U{5145}\U{4FE1}\U{606F}\U{FF1A}" + message else message
  {
    ResolveResetsOrMerges(c, message, updates);
  }

  /** A goal that needs a clarification is supplemented by what is said next, whatever was answered or merged since. */
  lemma ClarifiedGoalIsSupplemented(c: Checkpoint, goal: string, a: RememberArgs, message: string,
                                    updates: ContextUpdates)
    requires goal != "" && a.needsClarification && a.expectedVersion.None?
    requires !IsResetMessage(message) && message != goal
    ensures var asked := Run(c, [StartGoal(goal), Remember(a)]);
            ResolveStep(asked, message, updates).1
            == goal + "\n\U{8865}\U{5145}\U{4FE1}\U{606F}\U{FF1A}" + message
  {
    var started := Step(c, StartGoal(goal)).0;
    var asked := Step(started, Remember(a)).0;
    assert [StartGoal(goal), Remember(a)][1..] == [Remember(a)];
    assert Run(started, [Remember(a)]) == Run(asked, []);
    StepKeepsConsistent(started, Remember(a));
    ResolvedText(asked, message, updates);
  }
}

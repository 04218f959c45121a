/**
 The versioned checkpoint of one conversation and its transitions
 (dataworks_agent/agent/conversation_graph.py). The functions state what each operation does to a
 checkpoint; the class stores one checkpoint per conversation and is proved against them.
 */
module Conversation {
  import opened Values
  import opened Text
  import opened Interactions

  datatype TaskStatus =
    | NoStatus | Idle | Active | WaitingUser | TaskCancelled | ExecutionUnknown | RecoverableError
    | OtherStatus(name: string)

  /** The "context_updates" argument of resolve; missing entries are empty. */
  datatype ContextUpdates = ContextUpdates(
    params: Dict, selectedResources: Dict, workflowState: Dict, action: string)

  /** The stored graph state; missing entries are empty. */
  datatype Checkpoint = Checkpoint(
    incomingMessage: string, resolvedMessage: string, contextUpdates: ContextUpdates,
    pendingObjective: string, objective: string, action: string, params: Dict, workflowState: Dict,
    selectedResources: Dict, pendingInteraction: Card, lastResult: Dict, lastAssistantTurn: Dict,
    conversationSummary: string, queryFrame: Dict, taskStatus: TaskStatus, stateVersion: nat)

  const NO_UPDATES := ContextUpdates(map[], map[], map[], "")

  const FRESH := Checkpoint("", "", NO_UPDATES, "", "", "", map[], map[], map[], None, map[], map[], "", map[],
                            NoStatus, 0)

  /** What callers see of a checkpoint. */
  datatype Context = Context(
    objective: string, action: string, params: Dict, workflowState: Dict, pendingObjective: string,
    selectedResources: Dict, pendingInteraction: Card, lastResult: Dict, lastAssistantTurn: Dict,
    conversationSummary: string, queryFrame: Dict, taskStatus: TaskStatus, stateVersion: nat)

  function View(c: Checkpoint): Context {
    Context(OrElse(c.objective, c.pendingObjective), c.action, c.params, c.workflowState, c.pendingObjective,
            c.selectedResources, c.pendingInteraction, c.lastResult, c.lastAssistantTurn,
            c.conversationSummary, c.queryFrame, c.taskStatus, c.stateVersion)
  }

  datatype GraphError =
    | StateConflict(now: Context)
    | AnswerRefused(reason: AnswerError)

  function ResetWords(): seq<string> {
    ["\U{53D6}\U{6D88}", "\U{91CD}\U{65B0}\U{5F00}\U{59CB}", "\U{65B0}\U{4EFB}\U{52A1}", "cancel", "reset"]
  }

  predicate IsResetMessage(message: string) {
    exists i | 0 <= i < |ResetWords()| :: Contains(Lower(message), ResetWords()[i])
  }

  function Supplement(objective: string, more: string): string {
    objective + "\n\U{8865}\U{5145}\U{4FE1}\U{606F}\U{FF1A}" + more
  }

  /** A request to reset that the resolver recognises and the graph does not. */
  const RESET_REQUEST := "\U{91CD}\U{7F6E}"

  lemma ResetRequestIsNoResetMessage()
    ensures !IsResetMessage(RESET_REQUEST)
  {
    var text := Lower(RESET_REQUEST);
    assert text[0] == '\U{91CD}';
    forall i | 0 <= i < |ResetWords()|
      ensures !Contains(text, ResetWords()[i])
    {
      assert ResetWords()[0][0] == '\U{53D6}';
      assert i > 0 ==> |ResetWords()[i]| > |text|;
    }
  }

  // ----- transitions of one checkpoint -----

  /** The graph node: what it writes over the checkpoint that already holds the incoming message. */
  function ResolveContext(c: Checkpoint): Checkpoint {
    var incoming := c.incomingMessage;
    if IsResetMessage(incoming) then
      c.(resolvedMessage := incoming, pendingObjective := "", objective := incoming, action := "",
         params := map[], workflowState := map[], selectedResources := map[], pendingInteraction := None,
         lastResult := map[], stateVersion := c.stateVersion + 1)
    else MergeContext(c)
  }

  /** The message as a supplement to the pending objective, and the updates merged in. */
  function MergeContext(c: Checkpoint): Checkpoint {
    var incoming := c.incomingMessage;
    var objective := OrElse(c.objective, OrElse(c.pendingObjective, incoming));
    var resolved := if c.pendingObjective != "" && incoming != objective
                    then Supplement(objective, incoming) else incoming;
    var updates := c.contextUpdates;
    c.(resolvedMessage := resolved,
       params := c.params + updates.params,
       selectedResources := c.selectedResources + updates.selectedResources,
       workflowState := if updates.workflowState != map[] then updates.workflowState else c.workflowState,
       action := OrElse(updates.action, c.action))
  }

  function ResetStep(c: Checkpoint, message: string, updates: ContextUpdates): Checkpoint {
    Checkpoint(message, message, updates, "", "", "", map[], map[], map[], None, map[], map[], "", map[],
               Idle, c.stateVersion + 1)
  }

  function ResolveStep(c: Checkpoint, message: string, updates: ContextUpdates): (Checkpoint, string) {
    if IsResetMessage(message) then (ResetStep(c, message, updates), message)
    else
      var next := ResolveContext(c.(incomingMessage := message, contextUpdates := updates));
      (next, OrElse(next.resolvedMessage, message))
  }

  function MergeStep(c: Checkpoint, message: string, updates: ContextUpdates): (Checkpoint, string) {
    var next := MergeContext(c.(incomingMessage := message, contextUpdates := updates));
    (next, OrElse(next.resolvedMessage, message))
  }

  /** A call of resolve either resets or merges: the node's own reset branch is out of reach. */
  lemma ResolveResetsOrMerges(c: Checkpoint, message: string, updates: ContextUpdates)
    ensures ResolveStep(c, message, updates)
         == if IsResetMessage(message) then (ResetStep(c, message, updates), message)
            else MergeStep(c, message, updates)
  {
  }

  function StartGoalStep(c: Checkpoint, objective: string): Checkpoint {
    Checkpoint(c.incomingMessage, c.resolvedMessage, c.contextUpdates, "", objective, "", map[], map[], map[],
               None, map[], map[], "", map[], Active, c.stateVersion + 1)
  }

  /** The keyword arguments of remember; None is "not given". */
  datatype RememberArgs = RememberArgs(
    objective: string, needsClarification: bool, action: Option<string>, params: Option<Dict>,
    workflowState: Option<Dict>, pendingInteraction: Option<Card>, selectedResources: Option<Dict>,
    lastResult: Option<Dict>, lastAssistantTurn: Option<Dict>, conversationSummary: Option<string>,
    queryFrame: Option<Dict>, taskStatus: Option<TaskStatus>, expectedVersion: Option<nat>)

  function Given<T>(given: Option<T>, current: T): T {
    if given.Some? then given.value else current
  }

  function Stamp(card: Card, version: nat): Card {
    if card.Some? then Some(card.value.(stateVersion := version)) else None
  }

  function RememberStep(c: Checkpoint, a: RememberArgs): Result<Checkpoint, GraphError> {
    var current := View(c);
    if a.expectedVersion.Some? && a.expectedVersion.value != current.stateVersion then Err(StateConflict(current))
    else
      var version := current.stateVersion + 1;
      var root := OrElse(current.objective, a.objective);
      var card := if a.pendingInteraction.Some? then a.pendingInteraction.value
                  else if a.needsClarification then current.pendingInteraction else None;
      Ok(Checkpoint(c.incomingMessage, c.resolvedMessage, c.contextUpdates,
                    if a.needsClarification then root else "", root,
                    Given(a.action, current.action), Given(a.params, current.params),
                    Given(a.workflowState, current.workflowState),
                    Given(a.selectedResources, current.selectedResources), Stamp(card, version),
                    Given(a.lastResult, current.lastResult), Given(a.lastAssistantTurn, current.lastAssistantTurn),
                    Given(a.conversationSummary, current.conversationSummary),
                    Given(a.queryFrame, current.queryFrame), Given(a.taskStatus, current.taskStatus), version))
  }

  function AnswerStep(c: Checkpoint, answer: InteractionAnswer): Result<(Checkpoint, Payload), GraphError> {
    if c.pendingInteraction.None? then Err(AnswerRefused(InteractionExpired(None)))
    else if !ValidCard(c.pendingInteraction.value) then Err(AnswerRefused(ValidationFailed))
    else
      var pending := c.pendingInteraction.value;
      match ResolveInteractionAnswer(pending, answer)
      case Err(reason) => Err(AnswerRefused(reason))
      case Ok(resolved) =>
        var base := if c.stateVersion != 0 then c.stateVersion else pending.stateVersion;
        Ok((c.(params := c.params + resolved.params,
               selectedResources := c.selectedResources + resolved.selectedResources,
               pendingInteraction := None, pendingObjective := "", stateVersion := base + 1), resolved))
  }

  function CancelStep(c: Checkpoint): Checkpoint {
    c.(pendingObjective := "", pendingInteraction := None, taskStatus := TaskCancelled,
       stateVersion := c.stateVersion + 1)
  }

  // ----- the store -----

  /** Calls without a conversation id keep nothing: they return None, or the message or error stated. */
  class ConversationGraph {
    var checkpoints: map<string, Checkpoint>

    constructor ()
      ensures checkpoints == map[]
    {
      checkpoints := map[];
    }

    function At(id: string): Checkpoint
      reads this
    {
      if id in checkpoints then checkpoints[id] else FRESH
    }

    method GetContext(id: string) returns (r: Option<Context>)
      ensures r == if id == "" then None else Some(View(At(id)))
    {
      if id == "" { return None; }
      r := Some(View(At(id)));
    }

    /** The checkpoint a call works on: without a conversation id, that of a fresh conversation. */
    function Seen(id: string): Checkpoint
      reads this
    {
      if id == "" then FRESH else At(id)
    }

    /** Other conversations stay as they were; a call without a conversation id changes none. */
    twostate predicate TouchesOnly(id: string)
      reads this
    {
      && (forall other :: other != id ==> At(other) == old(At(other)))
      && (id == "" ==> At(id) == old(At(id)))
    }

    /** Callers read a missing context as one with nothing in it. */
    method ReadContext(id: string) returns (c: Context)
      ensures c == View(Seen(id))
    {
      var read := GetContext(id);
      c := if read.Some? then read.value else View(FRESH);
    }

    /** StateGraph.ainvoke: merge the input into the state, run the one node, store the result. */
    method Invoke(id: string, message: string, updates: ContextUpdates) returns (c: Checkpoint)
      modifies this
      ensures c == ResolveContext(old(At(id)).(incomingMessage := message, contextUpdates := updates))
      ensures checkpoints == old(checkpoints)[id := c]
    {
      c := At(id).(incomingMessage := message, contextUpdates := updates);
      c := ResolveContext(c);
      checkpoints := checkpoints[id := c];
    }

    method Resolve(id: string, message: string, updates: ContextUpdates) returns (resolved: string)
      modifies this
      ensures id == "" ==> checkpoints == old(checkpoints) && resolved == message
      ensures id != "" ==>
                var (next, text) := ResolveStep(old(At(id)), message, updates);
                checkpoints == old(checkpoints)[id := next] && resolved == text
    {
      if id == "" { return message; }
      if IsResetMessage(message) {
        var current := View(At(id));
        checkpoints := checkpoints[id := Checkpoint(
          message, message, updates, "", "", "", map[], map[], map[], None, map[], map[], "", map[], Idle,
          current.stateVersion + 1)];
        return message;
      }
      var state := Invoke(id, message, updates);
      resolved := OrElse(state.resolvedMessage, message);
    }

    method StartGoal(id: string, objective: string) returns (r: Option<Context>)
      modifies this
      ensures id == "" ==> checkpoints == old(checkpoints) && r == None
      ensures id != "" ==>
                var next := StartGoalStep(old(At(id)), objective);
                checkpoints == old(checkpoints)[id := next] && r == Some(View(next))
    {
      if id == "" { return None; }
      var current := View(At(id));
      var nextVersion := current.stateVersion + 1;
      checkpoints := checkpoints[id := At(id).(
        objective := objective, pendingObjective := "", action := "", params := map[], workflowState := map[],
        selectedResources := map[], pendingInteraction := None, lastResult := map[], lastAssistantTurn := map[],
        conversationSummary := "", queryFrame := map[], taskStatus := Active, stateVersion := nextVersion)];
      r := Some(View(At(id)));
    }

    method Remember(id: string, a: RememberArgs) returns (r: Result<Option<Context>, GraphError>)
      modifies this
      ensures id == "" ==> checkpoints == old(checkpoints) && r == Ok(None)
      ensures id != "" ==>
                match RememberStep(old(At(id)), a)
                case Err(e) => r == Err(e) && checkpoints == old(checkpoints)
                case Ok(next) => r == Ok(Some(View(next))) && checkpoints == old(checkpoints)[id := next]
    {
      if id == "" { return Ok(None); }
      var current := View(At(id));
      if a.expectedVersion.Some? && a.expectedVersion.value != current.stateVersion {
        return Err(StateConflict(current));
      }
      var nextVersion := current.stateVersion + 1;
      var root := OrElse(current.objective, a.objective);
      var pendingPayload := None;
      if a.pendingInteraction.Some? {
        pendingPayload := a.pendingInteraction.value;
      } else if a.needsClarification {
        pendingPayload := current.pendingInteraction;
      }
      if pendingPayload.Some? {
        pendingPayload := Some(pendingPayload.value.(stateVersion := nextVersion));
      }
      checkpoints := checkpoints[id := At(id).(
        objective := root,
        pendingObjective := if a.needsClarification then root else "",
        action := Given(a.action, current.action),
        params := Given(a.params, current.params),
        workflowState := Given(a.workflowState, current.workflowState),
        pendingInteraction := pendingPayload,
        selectedResources := Given(a.selectedResources, current.selectedResources),
        lastResult := Given(a.lastResult, current.lastResult),
        lastAssistantTurn := Given(a.lastAssistantTurn, current.lastAssistantTurn),
        conversationSummary := Given(a.conversationSummary, current.conversationSummary),
        queryFrame := Given(a.queryFrame, current.queryFrame),
        taskStatus := Given(a.taskStatus, current.taskStatus),
        stateVersion := nextVersion)];
      r := Ok(Some(View(At(id))));
    }

    method Answer(id: string, answer: InteractionAnswer) returns (r: Result<(Payload, nat), GraphError>)
      modifies this
      ensures id == "" ==> checkpoints == old(checkpoints) && r == Err(AnswerRefused(InteractionExpired(None)))
      ensures id != "" ==>
                match AnswerStep(old(At(id)), answer)
                case Err(e) => r == Err(e) && checkpoints == old(checkpoints)
                case Ok(success) => && r == Ok((success.1, success.0.stateVersion))
                                    && checkpoints == old(checkpoints)[id := success.0]
    {
      if id == "" { return Err(AnswerRefused(InteractionExpired(None))); }
      var current := View(At(id));
      if current.pendingInteraction.None? { return Err(AnswerRefused(InteractionExpired(None))); }
      var pending := current.pendingInteraction.value;
      if !ValidCard(pending) { return Err(AnswerRefused(ValidationFailed)); }
      var resolved := ResolveInteractionAnswer(pending, answer);
      if resolved.Err? { return Err(AnswerRefused(resolved.error)); }
      var nextVersion := (if current.stateVersion != 0 then current.stateVersion else pending.stateVersion) + 1;
      checkpoints := checkpoints[id := At(id).(
        params := current.params + resolved.value.params,
        selectedResources := current.selectedResources + resolved.value.selectedResources,
        pendingInteraction := None, pendingObjective := "", stateVersion := nextVersion)];
      r := Ok((resolved.value, nextVersion));
    }

    method Cancel(id: string) returns (r: Option<Context>)
      modifies this
      ensures id == "" ==> checkpoints == old(checkpoints) && r == None
      ensures id != "" ==>
                var next := CancelStep(old(At(id)));
                checkpoints == old(checkpoints)[id := next] && r == Some(View(next))
    {
      if id == "" { return None; }
      var current := View(At(id));
      checkpoints := checkpoints[id := At(id).(
        pendingObjective := "", pendingInteraction := None, taskStatus := TaskCancelled,
        stateVersion := current.stateVersion + 1)];
      r := Some(View(At(id)));
    }
  }
}

/** What an accepted answer writes, how long it stays, and that a bounded run takes the answer it is given. */
module AcceptedAnswers {
  import opened Values
  import opened Text
  import opened Interactions
  import opened Conversation
  import opened ConversationRuns
  import opened LastWrites
  import opened ContextResolver
  import opened RunCoordinator

  /** The click on option k of a card. */
  function Click(p: PendingInteraction, k: nat): InteractionAnswer
    requires k < |p.options|
  {
    InteractionAnswer(p.interactionId, Some(p.options[k].id), None, p.stateVersion)
  }

  /** Option i is the first with the id of option k. */
  predicate FirstTwin(options: seq<InteractionOption>, i: nat, k: nat)
    requires k < |options|
  {
    i <= k && options[i].id == options[k].id && forall j :: 0 <= j < i ==> options[j].id != options[k].id
  }

  lemma FirstOptionIsFirstTwin(options: seq<InteractionOption>, k: nat) returns (i: nat)
    requires k < |options|
    ensures FirstTwin(options, i, k) && FirstOption(options, options[k].id) == Some(options[i])
  {
    var first := FirstOption(options, options[k].id);
    i :| 0 <= i < |options| && options[i] == first.value && options[i].id == options[k].id
         && forall j :: 0 <= j < i ==> options[j].id != options[k].id;
  }

  // ----- what an accepted answer writes -----

  /** The new entries over the old ones, and nothing else. */
  ghost predicate Overlaid(before: Dict, more: Dict, after: Dict) {
    && (forall key :: key in after <==> key in before || key in more)
    && (forall key :: key in more ==> after[key] == more[key])
    && (forall key :: key in before && key !in more ==> after[key] == before[key])
  }

  /** The question is closed under the next version and nothing but what it was paid has changed. */
  ghost predicate Paid(before: Checkpoint, payload: Payload, after: Checkpoint) {
    && Overlaid(before.params, payload.params, after.params)
    && Overlaid(before.selectedResources, payload.selectedResources, after.selectedResources)
    && after.pendingInteraction == None && after.pendingObjective == ""
    && after.stateVersion == before.stateVersion + 1
    && after == before.(params := after.params, selectedResources := after.selectedResources,
                        pendingInteraction := after.pendingInteraction, pendingObjective := after.pendingObjective,
                        stateVersion := after.stateVersion)
  }

  /** A click on a listed option is accepted, and the first option with its id is paid into the conversation. */
  lemma ClickIsPaid(c: Checkpoint, k: nat) returns (i: nat)
    requires Consistent(c) && OpenQuestion(View(c)).Some? && k < |c.pendingInteraction.value.options|
    ensures var p := c.pendingInteraction.value;
            var answered := AnswerStep(c, Click(p, k));
            && FirstTwin(p.options, i, k)
            && answered.Ok? && answered.value.1 == p.options[i].payload
            && Paid(c, p.options[i].payload, answered.value.0)
  {
    i := FirstOptionIsFirstTwin(c.pendingInteraction.value.options, k);
  }

  /** Free text is accepted by a question that takes it, and writes nothing but the closed question. */
  lemma TextIsPaid(c: Checkpoint, text: string)
    requires Consistent(c) && OpenQuestion(View(c)).Some? && c.pendingInteraction.value.allowCustomInput
    ensures var p := c.pendingInteraction.value;
            var answered := AnswerStep(c, InteractionAnswer(p.interactionId, None, Some(text), p.stateVersion));
            && answered.Ok?
            && answered.value.1 == Payload(map[], map[], map["custom_text" := Str(text)])
            && Paid(c, Payload(map[], map[], map[]), answered.value.0)
            && answered.value.0.params == c.params && answered.value.0.selectedResources == c.selectedResources
  {
    var p := c.pendingInteraction.value;
    var next := AnswerStep(c, InteractionAnswer(p.interactionId, None, Some(text), p.stateVersion)).value.0;
    assert c.params + map[] == c.params && c.selectedResources + map[] == c.selectedResources;
  }

  /** From the data of a response to the conversation: clicking the option built for a table stores that table. */
  lemma TableChipIsStored(r: CardRequest, version: nat, c: Checkpoint, i: nat) returns (k: nat)
    requires r.existing.None? && NoExplicitIds(r.raws)
    requires CardFor(r, "select_table", version).Ok? && CardFor(r, "select_table", version).value.Some?
    requires Consistent(c) && c.pendingInteraction == Stamp(CardFor(r, "select_table", version).value, c.stateVersion)
    requires i < |r.raws| && r.raws[i].DictEntry? && !AsksForText(r.raws[i]) && LabelOf(r.raws[i]) != ""
    requires r.raws[i].kind != "action" && r.raws[i].payload.None? && Strip(ValueOf(r.raws[i])) != ""
    ensures k < |c.pendingInteraction.value.options|
    ensures c.pendingInteraction.value.options[k].labelText == LabelOf(r.raws[i])
    ensures var answered := AnswerStep(c, Click(c.pendingInteraction.value, k));
            && answered.Ok?
            && TextAt(answered.value.0.params, "table_name") == Strip(ValueOf(r.raws[i]))
            && TextAt(answered.value.0.selectedResources, "table") == Strip(ValueOf(r.raws[i]))
  {
    k := EntryIsListed("select_table", r.raws, r.allowCustomInput, r.hint, i);
    TableChipIsPaid("select_table", i, r.raws[i]);
    GeneratedOptionsAreDistinct(r, "select_table", version, k, k);
    var first := ClickIsPaid(c, k);
    var j := FirstOptionIsFirstTwin(c.pendingInteraction.value.options, k);
    assert j == first;
  }

  // ----- how long it stays -----

  /** What a click paid stays over every run that starts no goal, resets nothing and writes nothing else there. */
  lemma PaidContentStays(c: Checkpoint, k: nat, i: nat, ops: seq<Op>, slot: Slot)
    requires Consistent(c) && OpenQuestion(View(c)).Some? && k < |c.pendingInteraction.value.options|
    requires FirstTwin(c.pendingInteraction.value.options, i, k)
    requires var p := c.pendingInteraction.value;
             var paid := Pays(p.options[i].payload, slot);
             paid.Some? && WritesNoOther(Step(c, Answer(Click(p, k))).0, ops, slot, paid.value)
    ensures var p := c.pendingInteraction.value;
            Read(View(Run(c, [Answer(Click(p, k))] + ops)), slot) == Pays(p.options[i].payload, slot).value
  {
    var first := ClickIsPaid(c, k);
    assert first == i;
    var p := c.pendingInteraction.value;
    var click, content := Answer(Click(p, k)), Pays(p.options[i].payload, slot).value;
    assert ([click] + ops)[1..] == ops;
    StaysUnlessOverwritten(Step(c, click).0, ops, slot, content);
    SlotHoldsLastWrite(c, [click] + ops, slot);
  }

  // ----- a bounded run takes its answer -----

  /** The run goes on from the conversation the answer leaves, or reports why it was refused and changes nothing. */
  ghost predicate Takes(c: Checkpoint, answer: InteractionAnswer, input: RunInput, maxDecisions: nat) {
    var (next, outcome) := RunSpec(c, input, maxDecisions);
    match AnswerStep(c, answer)
    case Ok(accepted) => (next, outcome) == Finish(accepted.0, input, maxDecisions)
    case Err(AnswerRefused(InteractionExpired(_))) =>
      && next == c && outcome.Replied? && outcome.reply.error == "interaction_expired" && !outcome.reply.success
      && CardOf(outcome.reply.interaction) == c.pendingInteraction
    case Err(_) => next == c && outcome == Raised
  }

  /** The run starts another goal before it looks at the open question. */
  predicate StartsSearch(c: Checkpoint, input: RunInput) {
    && input.answer.None? && input.isTableDiscovery
    && View(c).objective != "" && input.message != Strip(View(c).objective)
  }

  /** The answer of the client is the one that is taken. */
  lemma ClientAnswerIsTaken(c: Checkpoint, input: RunInput, maxDecisions: nat)
    requires input.answer.Some?
    ensures Takes(c, input.answer.value, input, maxDecisions)
  {
  }

  /** Without one, the answer that the typed message was read as. */
  lemma TypedAnswerIsTaken(c: Checkpoint, input: RunInput, maxDecisions: nat)
    requires input.answer.None? && !StartsSearch(c, input)
    requires c.pendingInteraction.Some? && input.resolved.answer.Some?
    ensures Takes(c, input.resolved.answer.value, input, maxDecisions)
  {
  }

  /** Without either, the message itself, on a question about tables that takes text and when it is no interlude. */
  lemma FreeTextIsTaken(c: Checkpoint, input: RunInput, maxDecisions: nat)
    requires input.answer.None? && !StartsSearch(c, input) && input.resolved.answer.None?
    requires input.resolved.action != Greeting && input.resolved.action != Explain
    requires c.pendingInteraction.Some? && c.pendingInteraction.value.allowCustomInput
    requires c.pendingInteraction.value.purpose in {"refine_table_search", "select_layer", "select_table"}
    requires Sized(c.pendingInteraction.value.interactionId, 1, 128)
    requires |input.message| <= 10000 && Strip(input.message) != ""
    ensures var p := c.pendingInteraction.value;
            Takes(c, InteractionAnswer(p.interactionId, None, Some(Strip(input.message)), p.stateVersion), input,
                  maxDecisions)
  {
    assert input.message != "" by { assert Strip("") == ""; }
  }

  /** A text that cannot be an answer to such a question raises and leaves the conversation as it was. */
  lemma UnusableTextRaises(c: Checkpoint, input: RunInput, maxDecisions: nat)
    requires input.answer.None? && !StartsSearch(c, input) && input.resolved.answer.None?
    requires input.resolved.action != Greeting && input.resolved.action != Explain
    requires c.pendingInteraction.Some? && c.pendingInteraction.value.allowCustomInput
    requires c.pendingInteraction.value.purpose in {"refine_table_search", "select_layer", "select_table"}
    requires |input.message| > 10000 || Strip(input.message) == ""
    ensures RunSpec(c, input, maxDecisions) == (c, Raised)
  {
  }

  /** In all other cases nothing is answered: the run goes on from the conversation it entered. */
  lemma NothingIsAnswered(c: Checkpoint, input: RunInput, maxDecisions: nat)
    requires input.answer.None?
    requires || StartsSearch(c, input) || c.pendingInteraction.None?
             || (&& input.resolved.answer.None?
                 && (|| !c.pendingInteraction.value.allowCustomInput
                     || c.pendingInteraction.value.purpose !in {"refine_table_search", "select_layer", "select_table"}
                     || input.resolved.action == Greeting || input.resolved.action == Explain))
    ensures var entered := if StartsSearch(c, input) then StartGoalStep(c, input.message) else c;
            RunSpec(c, input, maxDecisions) == Finish(entered, input, maxDecisions)
  {
  }

  // ----- what a run that took an answer stores -----

  lemma PersistKeepsParams(c: Checkpoint, message: string, reply: Reply)
    ensures Persist(c, message, reply).params == c.params
    ensures Overlaid(c.selectedResources, reply.selectedResources, Persist(c, message, reply).selectedResources)
  {
    UncheckedRememberSucceeds(c, PersistArgs(View(c), message, reply));
  }

  /** After a run that took a click, the parameters hold what the clicked option paid. */
  lemma RunStoresWhatIsPaid(c: Checkpoint, input: RunInput, maxDecisions: nat, k: nat) returns (i: nat)
    requires Consistent(c) && OpenQuestion(View(c)).Some? && k < |c.pendingInteraction.value.options|
    requires input.answer == Some(Click(c.pendingInteraction.value, k))
    ensures var p := c.pendingInteraction.value;
            && FirstTwin(p.options, i, k)
            && Overlaid(c.params, p.options[i].payload.params, RunSpec(c, input, maxDecisions).0.params)
  {
    i := ClickIsPaid(c, k);
    ClientAnswerIsTaken(c, input, maxDecisions);
    var next := AnswerStep(c, input.answer.value).value.0;
    var response := Response(View(next), input, maxDecisions);
    if response.Replied? {
      PersistKeepsParams(next, input.message, WithNextAction(response.reply, View(next), input));
    }
  }

  /** A typed reply that the resolver reads as an answer is taken by the run, accepted, and paid. */
  lemma TypedReplyIsTakenAndPaid(lex: Lexicon, c: Checkpoint, input: RunInput, maxDecisions: nat) returns (i: nat)
    requires Consistent(c) && input.answer.None? && !StartsSearch(c, input)
    requires input.resolved == ResolveTurn(lex, input.message, View(c)) && input.resolved.action == AnswerCard
    ensures c.pendingInteraction.Some? && i < |c.pendingInteraction.value.options|
    ensures var p := c.pendingInteraction.value;
            var accepted := AnswerStep(c, Click(p, i));
            && accepted.Ok? && Paid(c, p.options[i].payload, accepted.value.0)
            && RunSpec(c, input, maxDecisions) == Finish(accepted.value.0, input, maxDecisions)
  {
    var k := AnswerNamesAnOption(lex, input.message, View(c));
    i := ClickIsPaid(c, k);
    TypedAnswerIsTaken(c, input, maxDecisions);
  }
}

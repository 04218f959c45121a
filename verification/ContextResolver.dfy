/**
 How a typed message is read against the open question (dataworks_agent/agent/context_resolver.py).
 The regular expressions and the optional classifier are arbitrary functions collected in a Lexicon.
 */
module ContextResolver {
  import opened Values
  import opened Text
  import opened Interactions
  import opened Conversation

  datatype DialogueAction =
    | NewGoal | AnswerCard | Continue | Explain | Modify | Refer | CancelTask | Greeting | ResetTask | Clarify

  datatype ResolvedTurn = ResolvedTurn(
    action: DialogueAction, rewritten: string, updates: ContextUpdates, references: seq<string>,
    answer: Option<InteractionAnswer>)

  /** What the patterns recognise; `lower` is str.lower(), `classify` the fallback at or above its threshold. */
  datatype Lexicon = Lexicon(
    lower: string -> string, isReset: string -> bool, isCancel: string -> bool, isGreeting: string -> bool,
    isExplain: string -> bool, isContinue: string -> bool, modification: string -> Option<Dict>,
    resourceType: (string, Dict) -> Option<string>, isTask: string -> bool,
    classify: (string, Context) -> Option<(DialogueAction, Dict)>)

  function UpdatesOf(payload: Payload): ContextUpdates {
    var state := if "workflow_state" in payload.rest then payload.rest["workflow_state"] else Null;
    ContextUpdates(payload.params, payload.selectedResources, if state.Object? then state.fields else map[],
                   TextAt(payload.rest, "action"))
  }

  // ----- reading option texts -----

  predicate IsFiller(c: char) {
    || IsSpace(c) || c == ',' || c == '!' || c == '?'
    || c == '\U{FF0C}' || c == '\U{3002}' || c == '\U{FF01}' || c == '\U{FF1F}'
  }

  function Compact(s: string): string {
    if s == [] then [] else (if IsFiller(s[0]) then [] else [s[0]]) + Compact(s[1..])
  }

  function Normalize(lex: Lexicon, s: string): string {
    lex.lower(Compact(s))
  }

  /** "the last one" */
  const LAST := "\U{6700}\U{540E}\U{4E00}\U{4E2A}"

  /** "the first", "the 1st", "the second", ... with their indices, in dictionary order. */
  const ORDINALS: seq<(string, nat)> := [
    ("\U{7B2C}\U{4E00}\U{4E2A}", 0), ("\U{7B2C}1\U{4E2A}", 0),
    ("\U{7B2C}\U{4E8C}\U{4E2A}", 1), ("\U{7B2C}2\U{4E2A}", 1),
    ("\U{7B2C}\U{4E09}\U{4E2A}", 2), ("\U{7B2C}3\U{4E2A}", 2)]

  function FirstOrdinal(compact: string, table: seq<(string, nat)>): Option<nat> {
    if table == [] then None
    else if Contains(compact, table[0].0) then Some(table[0].1)
    else FirstOrdinal(compact, table[1..])
  }

  function OrdinalIndex(text: string, optionCount: nat): Option<nat> {
    if Contains(Compact(text), LAST) then
      if optionCount > 0 then Some(optionCount - 1) else None
    else FirstOrdinal(Compact(text), ORDINALS)
  }

  predicate LooksLikeOrdinal(text: string) {
    Contains(Compact(text), LAST) || FirstOrdinal(Compact(text), ORDINALS).Some?
  }

  predicate Matches(lex: Lexicon, normalized: string, option: InteractionOption, exact: bool) {
    var a, b := Normalize(lex, option.labelText), Normalize(lex, option.value);
    if exact then (a != "" && normalized == a) || (b != "" && normalized == b)
    else (a != "" && Contains(normalized, a)) || (b != "" && Contains(normalized, b))
  }

  /** The matching options, in order, as indices into the list. */
  function MatchingOptions(lex: Lexicon, normalized: string, options: seq<InteractionOption>, exact: bool)
    : (r: seq<nat>)
    ensures forall k :: 0 <= k < |r| ==> r[k] < |options| && Matches(lex, normalized, options[r[k]], exact)
    ensures forall i :: 0 <= i < |options| && Matches(lex, normalized, options[i], exact) ==> i in r
    ensures forall k, l :: 0 <= k < l < |r| ==> r[k] < r[l]
  {
    if options == [] then []
    else
      var n := |options| - 1;
      var r := MatchingOptions(lex, normalized, options[..n], exact);
      if Matches(lex, normalized, options[n], exact) then
        assert (r + [n])[|r|] == n;
        assert forall i :: i in r ==> i in r + [n];
        r + [n]
      else r
  }

  function OpenQuestion(context: Context): (r: Option<PendingInteraction>)
    ensures r.Some? ==> context.pendingInteraction == r && ValidCard(r.value) && r.value.status == Pending
    ensures forall p: PendingInteraction ::
              context.pendingInteraction == Some(p) && ValidCard(p) && p.status == Pending ==> r == Some(p)
  {
    if context.pendingInteraction.Some? && ValidCard(context.pendingInteraction.value)
       && context.pendingInteraction.value.status == Pending then context.pendingInteraction
    else None
  }

  function Plain(action: DialogueAction, text: string): ResolvedTurn {
    ResolvedTurn(action, text, NO_UPDATES, [], None)
  }

  function OptionAnswer(text: string, pending: PendingInteraction, option: InteractionOption): ResolvedTurn {
    ResolvedTurn(AnswerCard, text, UpdatesOf(option.payload), [],
                 Some(InteractionAnswer(pending.interactionId, Some(option.id), None, pending.stateVersion)))
  }

  function ResolveOption(lex: Lexicon, text: string, open: Option<PendingInteraction>, version: nat)
    : Option<ResolvedTurn>
  {
    if open.None? then None
    else
      var pending := open.value;
      ChooseOption(text, pending, version, OrdinalIndex(text, |pending.options|),
                   BestMatches(lex, Normalize(lex, text), pending.options))
  }

  /** Loose matches count only when there is no exact one. */
  function BestMatches(lex: Lexicon, normalized: string, options: seq<InteractionOption>): (r: seq<nat>)
    ensures forall k :: 0 <= k < |r| ==> r[k] < |options|
  {
    var exact := MatchingOptions(lex, normalized, options, true);
    if exact != [] then exact else MatchingOptions(lex, normalized, options, false)
  }

  function ChooseOption(text: string, pending: PendingInteraction, version: nat, index: Option<nat>,
                        matches: seq<nat>): Option<ResolvedTurn>
    requires forall k :: 0 <= k < |matches| ==> matches[k] < |pending.options|
  {
    if (index.Some? || matches != []) && version != pending.stateVersion then Some(Plain(Clarify, text))
    else if index.Some? then
      if index.value < |pending.options| then Some(OptionAnswer(text, pending, pending.options[index.value]))
      else Some(Plain(Clarify, text))
    else if |matches| == 1 then Some(OptionAnswer(text, pending, pending.options[matches[0]]))
    else if |matches| > 1 then Some(Plain(Clarify, text))
    else None
  }

  function ResolveReference(lex: Lexicon, text: string, context: Context): Option<ResolvedTurn> {
    var kind := if context.selectedResources != map[] then lex.resourceType(text, context.selectedResources) else None;
    if kind.None? || TextAt(context.selectedResources, kind.value) == "" then None
    else
      var resource := TextAt(context.selectedResources, kind.value);
      Some(ResolvedTurn(Refer, text + "\n\U{5DF2}\U{89E3}\U{6790}\U{8D44}\U{6E90}\U{FF1A}" + resource,
                        NO_UPDATES.(selectedResources := map[kind.value := Str(resource)]), [resource], None))
  }

  /** resolve: the message is given stripped. */
  function ResolveTurn(lex: Lexicon, text: string, context: Context): ResolvedTurn {
    var option := ResolveOption(lex, text, OpenQuestion(context), context.stateVersion);
    if option.Some? then option.value else ResolveOther(lex, text, context)
  }

  /** The message names no option of an open question. */
  function ResolveOther(lex: Lexicon, text: string, context: Context): ResolvedTurn {
    if LooksLikeOrdinal(text) then Plain(Clarify, text)
    else if lex.isReset(text) then Plain(ResetTask, text)
    else if lex.isCancel(text) then Plain(CancelTask, text)
    else if lex.isGreeting(text) then Plain(Greeting, text)
    else if lex.isExplain(text) then Plain(Explain, text)
    else if lex.isContinue(text) then Plain(Continue, text)
    else if lex.modification(text).Some? then
      Plain(Modify, text).(updates := NO_UPDATES.(params := lex.modification(text).value))
    else
      var reference := ResolveReference(lex, text, context);
      if reference.Some? then reference.value
      else if lex.isTask(text) then Plain(NewGoal, text)
      else
        var guess := if |text| >= 4 then lex.classify(text, context) else None;
        if guess.Some? && IsGuessable(guess.value.0) then
          Plain(guess.value.0, text).(updates := NO_UPDATES.(params := guess.value.1))
        else Plain(Clarify, text)
  }

  /** The actions the classifier may choose. */
  predicate IsGuessable(action: DialogueAction) {
    action == Greeting || action == Clarify || action == NewGoal
  }

  lemma OnlyOptionsAnswer(lex: Lexicon, text: string, context: Context)
    ensures ResolveOther(lex, text, context).action != AnswerCard && ResolveOther(lex, text, context).answer.None?
  {
  }

  // ----- what a resolved answer is worth -----

  lemma ChosenOptionIsListed(text: string, pending: PendingInteraction, version: nat, index: Option<nat>,
                             matches: seq<nat>) returns (k: nat)
    requires forall k :: 0 <= k < |matches| ==> matches[k] < |pending.options|
    requires ChooseOption(text, pending, version, index, matches).Some?
    requires ChooseOption(text, pending, version, index, matches).value.action == AnswerCard
    ensures k < |pending.options|
    ensures ChooseOption(text, pending, version, index, matches).value
         == OptionAnswer(text, pending, pending.options[k])
  {
    k := if index.Some? then index.value else matches[0];
  }

  /** An ANSWER turn names some listed option of the open question and copies its payload. */
  lemma AnswerNamesAnOption(lex: Lexicon, text: string, context: Context) returns (k: nat)
    requires ResolveTurn(lex, text, context).action == AnswerCard
    ensures OpenQuestion(context).Some?
    ensures var p := OpenQuestion(context).value;
            k < |p.options| && ResolveTurn(lex, text, context) == OptionAnswer(text, p, p.options[k])
    ensures ResolveTurn(lex, text, context).rewritten == text && ResolveTurn(lex, text, context).references == []
  {
    OnlyOptionsAnswer(lex, text, context);
    var p := OpenQuestion(context).value;
    k := ChosenOptionIsListed(text, p, context.stateVersion, OrdinalIndex(text, |p.options|),
                              BestMatches(lex, Normalize(lex, text), p.options));
  }

  /**
   A typed reply that resolves to ANSWER is always accepted by the graph. What it is paid is the
   payload of the first option with the chosen id; what it contributed as context updates is the
   payload of the option it matched.
   */
  lemma TypedAnswerIsAccepted(lex: Lexicon, text: string, c: Checkpoint)
    requires ResolveTurn(lex, text, View(c)).action == AnswerCard
    ensures var turn := ResolveTurn(lex, text, View(c));
            && turn.answer.Some? && turn.answer.value.optionId.Some?
            && ValidateAnswer(turn.answer.value) == Ok(turn.answer.value)
            && AnswerStep(c, turn.answer.value).Ok?
            && exists k :: 0 <= k < |c.pendingInteraction.value.options|
                 && c.pendingInteraction.value.options[k].id == turn.answer.value.optionId.value
                 && turn.updates == UpdatesOf(c.pendingInteraction.value.options[k].payload)
                 && AnswerStep(c, turn.answer.value).value.1
                    == FirstOption(c.pendingInteraction.value.options,
                                   c.pendingInteraction.value.options[k].id).value.payload
  {
    var k := AnswerNamesAnOption(lex, text, View(c));
    var p := c.pendingInteraction.value;
    assert ValidOption(p.options[k]);
    assert FirstOption(p.options, p.options[k].id).Some?;
  }

  /** With distinct option ids both are the payload of the one option the text matched. */
  lemma TypedAnswerPaysTheMatchedOption(lex: Lexicon, text: string, c: Checkpoint)
    requires ResolveTurn(lex, text, View(c)).action == AnswerCard
    requires forall i, j :: 0 <= i < j < |c.pendingInteraction.value.options| ==>
               c.pendingInteraction.value.options[i].id != c.pendingInteraction.value.options[j].id
    ensures var turn := ResolveTurn(lex, text, View(c));
            && turn.answer.Some? && AnswerStep(c, turn.answer.value).Ok?
            && turn.updates == UpdatesOf(AnswerStep(c, turn.answer.value).value.1)
  {
    TypedAnswerIsAccepted(lex, text, c);
  }

  lemma FirstTwoDiffer(s: seq<nat>)
    requires forall k, l :: 0 <= k < l < |s| ==> s[k] < s[l]
    ensures |s| > 1 ==> s[0] < s[1]
  {
  }

  /** Typing the label or the value of exactly one option, up to spacing, punctuation and case, chooses that option. */
  lemma TypedLabelChoosesItsOption(lex: Lexicon, text: string, c: Checkpoint, k: nat)
    requires OpenQuestion(View(c)).Some? && c.pendingInteraction.value.stateVersion == c.stateVersion
    requires k < |c.pendingInteraction.value.options|
    requires var o := c.pendingInteraction.value.options[k];
             && Normalize(lex, text) != ""
             && Normalize(lex, text) in {Normalize(lex, o.labelText), Normalize(lex, o.value)}
    requires forall i :: 0 <= i < |c.pendingInteraction.value.options| && i != k ==>
               !Matches(lex, Normalize(lex, text), c.pendingInteraction.value.options[i], true)
    requires !LooksLikeOrdinal(text)
    ensures ResolveTurn(lex, text, View(c))
         == OptionAnswer(text, c.pendingInteraction.value, c.pendingInteraction.value.options[k])
  {
    var options := c.pendingInteraction.value.options;
    var exact := MatchingOptions(lex, Normalize(lex, text), options, true);
    assert k in exact;
    assert forall m :: 0 <= m < |exact| ==> exact[m] == k;
    FirstTwoDiffer(exact);
  }

  /** When ids repeat, the option matched by the text is paid as the first option that shares its id. */
  lemma TypedAnswerPaysTheFirstTwin(lex: Lexicon, text: string, c: Checkpoint, i: nat, k: nat)
    requires OpenQuestion(View(c)).Some? && i <= k < |c.pendingInteraction.value.options|
    requires var p := c.pendingInteraction.value;
             && ResolveTurn(lex, text, View(c)) == OptionAnswer(text, p, p.options[k])
             && p.options[i].id == p.options[k].id
             && forall j :: 0 <= j < i ==> p.options[j].id != p.options[k].id
    ensures var answered := AnswerStep(c, ResolveTurn(lex, text, View(c)).answer.value);
            answered.Ok? && answered.value.1 == c.pendingInteraction.value.options[i].payload
  {
    var options := c.pendingInteraction.value.options;
    var first := FirstOption(options, options[k].id);
    var m :| 0 <= m < |options| && options[m] == first.value && options[m].id == options[k].id
             && forall j :: 0 <= j < m ==> options[j].id != options[k].id;
    assert m == i;
  }

  // ----- ordinals -----

  /** The words for the first, second and third option. */
  predicate IsOrdinal(word: string, n: nat) {
    || (n == 0 && (word == "\U{7B2C}\U{4E00}\U{4E2A}" || word == "\U{7B2C}1\U{4E2A}"))
    || (n == 1 && (word == "\U{7B2C}\U{4E8C}\U{4E2A}" || word == "\U{7B2C}2\U{4E2A}"))
    || (n == 2 && (word == "\U{7B2C}\U{4E09}\U{4E2A}" || word == "\U{7B2C}3\U{4E2A}"))
  }

  lemma OrdinalsListed(word: string, n: nat)
    ensures IsOrdinal(word, n) <==> (word, n) in ORDINALS
  {
  }

  lemma {:induction false} FirstOrdinalIs(compact: string, table: seq<(string, nat)>, word: string, n: nat)
    requires (word, n) in table && Contains(compact, word)
    requires forall entry :: entry in table && Contains(compact, entry.0) ==> entry.1 == n
    ensures FirstOrdinal(compact, table) == Some(n)
  {
    if !Contains(compact, table[0].0) {
      FirstOrdinalIs(compact, table[1..], word, n);
    } else {
      assert table[0] in table;
    }
  }

  /** A reply with one ordinal chooses the option it counts to, and is unclear when there is none. */
  lemma OrdinalChoosesItsOption(lex: Lexicon, text: string, c: Checkpoint, word: string, n: nat)
    requires OpenQuestion(View(c)).Some? && c.pendingInteraction.value.stateVersion == c.stateVersion
    requires IsOrdinal(word, n) && Contains(Compact(text), word) && !Contains(Compact(text), LAST)
    requires forall other, m :: IsOrdinal(other, m) && Contains(Compact(text), other) ==> m == n
    ensures var p := c.pendingInteraction.value;
            ResolveTurn(lex, text, View(c))
            == if n < |p.options| then OptionAnswer(text, p, p.options[n]) else Plain(Clarify, text)
  {
    OrdinalsListed(word, n);
    forall entry | entry in ORDINALS && Contains(Compact(text), entry.0) ensures entry.1 == n {
      OrdinalsListed(entry.0, entry.1);
    }
    FirstOrdinalIs(Compact(text), ORDINALS, word, n);
  }

  /** "the last one" chooses the last option, whatever else is said. */
  lemma LastChoosesTheLastOption(lex: Lexicon, text: string, c: Checkpoint)
    requires OpenQuestion(View(c)).Some? && c.pendingInteraction.value.stateVersion == c.stateVersion
    requires Contains(Compact(text), "\U{6700}\U{540E}\U{4E00}\U{4E2A}") && c.pendingInteraction.value.options != []
    ensures var p := c.pendingInteraction.value;
            ResolveTurn(lex, text, View(c)) == OptionAnswer(text, p, p.options[|p.options| - 1])
  {
  }

  /** An ordinal or a matching text is unclear when the question has an old version, and no other reply answers it. */
  lemma StaleQuestionIsUnclear(lex: Lexicon, text: string, c: Checkpoint)
    requires OpenQuestion(View(c)).Some? && c.pendingInteraction.value.stateVersion != c.stateVersion
    ensures ResolveTurn(lex, text, View(c)).action != AnswerCard
    ensures OrdinalIndex(text, |c.pendingInteraction.value.options|).Some? ==>
              ResolveTurn(lex, text, View(c)) == Plain(Clarify, text)
  {
    OnlyOptionsAnswer(lex, text, View(c));
  }

  // ----- messages that answer nothing -----

  /** What a message can be recognised as, in the order in which it is asked. */
  datatype Reading = ResetReading | CancelReading | GreetingReading | ExplainReading | ContinueReading | ModifyReading
                   | ReferReading | TaskReading

  const READINGS := [ResetReading, CancelReading, GreetingReading, ExplainReading, ContinueReading, ModifyReading,
                     ReferReading, TaskReading]

  predicate Recognised(lex: Lexicon, text: string, context: Context, reading: Reading) {
    match reading
    case ResetReading => lex.isReset(text)
    case CancelReading => lex.isCancel(text)
    case GreetingReading => lex.isGreeting(text)
    case ExplainReading => lex.isExplain(text)
    case ContinueReading => lex.isContinue(text)
    case ModifyReading => lex.modification(text).Some?
    case ReferReading => ReferredResource(lex, text, context) != ""
    case TaskReading => lex.isTask(text)
  }

  /** The name of the selected resource that the message refers to, or "". */
  function ReferredResource(lex: Lexicon, text: string, context: Context): string {
    var kind := lex.resourceType(text, context.selectedResources);
    if context.selectedResources != map[] && kind.Some? then TextAt(context.selectedResources, kind.value) else ""
  }

  /** The turn a reading makes of the message. */
  predicate ReadAs(lex: Lexicon, text: string, context: Context, reading: Reading, turn: ResolvedTurn) {
    && turn.answer.None? && turn.updates.action == "" && turn.updates.workflowState == map[]
    && (reading != ReferReading ==>
          && turn.rewritten == text && turn.references == [] && turn.updates.selectedResources == map[]
          && turn.action == (match reading
                             case ResetReading => ResetTask
                             case CancelReading => CancelTask
                             case GreetingReading => Greeting
                             case ExplainReading => Explain
                             case ContinueReading => Continue
                             case ModifyReading => Modify
                             case _ => NewGoal))
    && (reading == ReferReading ==>
          var resource := ReferredResource(lex, text, context);
          && turn.action == Refer && turn.references == [resource]
          && turn.rewritten == text + "\n\U{5DF2}\U{89E3}\U{6790}\U{8D44}\U{6E90}\U{FF1A}" + resource
          && match lex.resourceType(text, context.selectedResources)
             case Some(kind) => turn.updates.selectedResources == map[kind := Str(resource)]
             case None => false)
    && (if reading == ModifyReading then lex.modification(text) == Some(turn.updates.params)
        else turn.updates.params == map[])
  }

  /** A message that names no option is read as the first thing it is recognised as. */
  lemma FirstReadingCounts(lex: Lexicon, text: string, context: Context, k: nat)
    requires !LooksLikeOrdinal(text)
    requires k < |READINGS| && Recognised(lex, text, context, READINGS[k])
    requires forall j :: 0 <= j < k ==> !Recognised(lex, text, context, READINGS[j])
    ensures ReadAs(lex, text, context, READINGS[k], ResolveOther(lex, text, context))
  {
    forall j | 0 <= j < k ensures !Recognised(lex, text, context, READINGS[j]) {
    }
    assert READINGS[0] == ResetReading && READINGS[1] == CancelReading && READINGS[2] == GreetingReading;
    assert READINGS[3] == ExplainReading && READINGS[4] == ContinueReading && READINGS[5] == ModifyReading;
    assert READINGS[6] == ReferReading && READINGS[7] == TaskReading;
  }

  /** What is recognised as nothing goes to the classifier, if it is long enough, and is unclear otherwise. */
  lemma UnreadMessageIsClassified(lex: Lexicon, text: string, context: Context)
    requires !LooksLikeOrdinal(text)
    requires forall k :: 0 <= k < |READINGS| ==> !Recognised(lex, text, context, READINGS[k])
    ensures var turn, guess := ResolveOther(lex, text, context), lex.classify(text, context);
            if |text| >= 4 && guess.Some? && guess.value.0 in {Greeting, Clarify, NewGoal}
            then turn == ResolvedTurn(guess.value.0, text, NO_UPDATES.(params := guess.value.1), [], None)
            else turn == Plain(Clarify, text)
  {
    assert READINGS[0] == ResetReading && READINGS[1] == CancelReading && READINGS[2] == GreetingReading;
    assert READINGS[3] == ExplainReading && READINGS[4] == ContinueReading && READINGS[5] == ModifyReading;
    assert READINGS[6] == ReferReading && READINGS[7] == TaskReading;
  }

  /** An ordinal that no open question can take is unclear, whatever else is said. */
  lemma LooseOrdinalIsUnclear(lex: Lexicon, text: string, context: Context)
    requires LooksLikeOrdinal(text) && OpenQuestion(context).None?
    ensures ResolveTurn(lex, text, context) == Plain(Clarify, text)
  {
  }

  /** A reply that fits several options, or several loosely and none exactly, is unclear. */
  lemma AmbiguousReplyIsUnclear(lex: Lexicon, text: string, context: Context, i: nat, k: nat, exact: bool)
    requires OpenQuestion(context).Some? && i < k < |OpenQuestion(context).value.options|
    requires !LooksLikeOrdinal(text)
    requires Matches(lex, Normalize(lex, text), OpenQuestion(context).value.options[i], exact)
    requires Matches(lex, Normalize(lex, text), OpenQuestion(context).value.options[k], exact)
    requires !exact ==> forall j :: 0 <= j < |OpenQuestion(context).value.options| ==>
                          !Matches(lex, Normalize(lex, text), OpenQuestion(context).value.options[j], true)
    ensures ResolveTurn(lex, text, context) == Plain(Clarify, text)
  {
    var options := OpenQuestion(context).value.options;
    var best := BestMatches(lex, Normalize(lex, text), options);
    var matching := MatchingOptions(lex, Normalize(lex, text), options, exact);
    assert i in matching && k in matching;
    if !exact {
      NothingMatches(lex, Normalize(lex, text), options, true);
    }
    assert best == matching;
    TwoElements(best, i, k);
  }

  lemma {:induction false} NothingMatches(lex: Lexicon, normalized: string, options: seq<InteractionOption>,
                                          exact: bool)
    requires forall j :: 0 <= j < |options| ==> !Matches(lex, normalized, options[j], exact)
    ensures MatchingOptions(lex, normalized, options, exact) == []
  {
    if options != [] {
      NothingMatches(lex, normalized, options[..|options| - 1], exact);
    }
  }

  lemma TwoElements(s: seq<nat>, i: nat, k: nat)
    requires i in s && k in s && i != k
    ensures |s| > 1
  {
    var a :| 0 <= a < |s| && s[a] == i;
    var b :| 0 <= b < |s| && s[b] == k;
  }

  /** A text that holds the label or the value of just one option, and is that of none, chooses it too. */
  lemma LooseReplyChoosesItsOption(lex: Lexicon, text: string, c: Checkpoint, k: nat)
    requires OpenQuestion(View(c)).Some? && c.pendingInteraction.value.stateVersion == c.stateVersion
    requires !LooksLikeOrdinal(text) && k < |c.pendingInteraction.value.options|
    requires var o := c.pendingInteraction.value.options[k];
             || (Normalize(lex, o.labelText) != "" && Contains(Normalize(lex, text), Normalize(lex, o.labelText)))
             || (Normalize(lex, o.value) != "" && Contains(Normalize(lex, text), Normalize(lex, o.value)))
    requires forall i :: 0 <= i < |c.pendingInteraction.value.options| ==>
               !Matches(lex, Normalize(lex, text), c.pendingInteraction.value.options[i], true)
    requires forall i :: 0 <= i < |c.pendingInteraction.value.options| && i != k ==>
               !Matches(lex, Normalize(lex, text), c.pendingInteraction.value.options[i], false)
    ensures ResolveTurn(lex, text, View(c))
         == OptionAnswer(text, c.pendingInteraction.value, c.pendingInteraction.value.options[k])
  {
    var options := c.pendingInteraction.value.options;
    var loose := MatchingOptions(lex, Normalize(lex, text), options, false);
    NothingMatches(lex, Normalize(lex, text), options, true);
    assert k in loose;
    assert forall m :: 0 <= m < |loose| ==> loose[m] == k;
    FirstTwoDiffer(loose);
  }

  // ----- fillers -----

  /** White space, commas and stops, in both scripts. */
  const FILLERS: set<char> := {',', '!', '?', '\U{FF0C}', '\U{3002}', '\U{FF01}', '\U{FF1F}'}

  lemma {:induction false} CompactAppend(a: string, b: string)
    ensures Compact(a + b) == Compact(a) + Compact(b)
  {
    if a == [] {
      assert a + b == b;
    } else {
      assert (a + b)[1..] == a[1..] + b;
      CompactAppend(a[1..], b);
    }
  }

  /** Compacting drops just the fillers. */
  lemma {:induction false} CompactDropsFillers(s: string)
    ensures forall c :: c in Compact(s) <==> c in s && !IsSpace(c) && c !in FILLERS
    ensures (forall c :: c in s ==> !IsSpace(c) && c !in FILLERS) ==> Compact(s) == s
  {
    if s != [] {
      CompactDropsFillers(s[1..]);
      assert s == [s[0]] + s[1..];
    }
  }
}

/**
 The structured question a conversation may be waiting on, and the answers to it
 (dataworks_agent/agent/interaction.py).
 */
module Interactions {
  import opened Values
  import opened Text

  /** What choosing an option contributes: the "params" and "selected_resources" entries, and the rest. */
  datatype Payload = Payload(params: Dict, selectedResources: Dict, rest: Dict)

  const EMPTY_PAYLOAD := Payload(map[], map[], map[])

  /** A selectable answer. The value "" stands for a missing one. */
  datatype InteractionOption = InteractionOption(
    id: string, labelText: string, value: string, description: string, payload: Payload, layer: string)

  datatype InteractionKind = SingleSelect | Confirm | FreeText

  datatype InteractionStatus = Pending | Answered | Expired | Cancelled

  datatype PendingInteraction = PendingInteraction(
    interactionId: string, kind: InteractionKind, purpose: string, prompt: string,
    options: seq<InteractionOption>, allowCustomInput: bool, placeholder: string,
    status: InteractionStatus, stateVersion: nat)

  /** A stored "pending_interaction" dictionary; None is the empty dictionary. */
  type Card = Option<PendingInteraction>

  datatype InteractionAnswer = InteractionAnswer(
    interactionId: string, optionId: Option<string>, customText: Option<string>, stateVersion: nat)

  datatype AnswerError =
    | InteractionExpired(current: Card)
    | CustomInputNotAllowed
    | ValidationFailed

  predicate Sized(s: string, least: nat, most: nat) {
    least <= |s| <= most
  }

  predicate ValidOption(o: InteractionOption) {
    Sized(o.id, 1, 128) && Sized(o.labelText, 1, 1000) && Sized(o.description, 0, 2000)
  }

  /** PendingInteraction.model_validate accepts the dictionary. */
  predicate ValidCard(p: PendingInteraction) {
    && Sized(p.interactionId, 1, 128) && Sized(p.purpose, 1, 128) && Sized(p.prompt, 1, 4000)
    && Sized(p.placeholder, 0, 1000)
    && forall i :: 0 <= i < |p.options| ==> ValidOption(p.options[i])
  }

  // ----- answers -----

  /** Field limits and validate_answer_mode; the accepted answer carries the stripped text. */
  function ValidateAnswer(raw: InteractionAnswer): Result<InteractionAnswer, AnswerError> {
    if !Sized(raw.interactionId, 1, 128)
       || (raw.optionId.Some? && !Sized(raw.optionId.value, 1, 128))
       || (raw.customText.Some? && !Sized(raw.customText.value, 1, 10000)) then Err(ValidationFailed)
    else
      var hasCustom := raw.customText.Some? && Strip(raw.customText.value) != "";
      if raw.optionId.Some? == hasCustom then Err(ValidationFailed)
      else if raw.customText.Some? then Ok(raw.(customText := Some(Strip(raw.customText.value))))
      else Ok(raw)
  }

  /** next(item for item in options if item.id == id) */
  function FirstOption(options: seq<InteractionOption>, id: string): (r: Option<InteractionOption>)
    ensures r.Some? <==> exists i :: 0 <= i < |options| && options[i].id == id
    ensures r.Some? ==> exists i ::
              && 0 <= i < |options| && options[i] == r.value && r.value.id == id
              && forall j :: 0 <= j < i ==> options[j].id != id
  {
    if options == [] then None
    else if options[0].id == id then Some(options[0])
    else
      var r := FirstOption(options[1..], id);
      assert r.Some? ==> exists i :: 0 <= i < |options[1..]| && options[1..][i] == r.value
                                     && forall j :: 0 <= j < i ==> options[1..][j].id != id;
      assert forall i :: 0 <= i < |options[1..]| ==> options[1..][i] == options[i + 1];
      assert forall i :: 1 <= i < |options| ==> options[i] == options[1..][i - 1];
      r
  }

  function ResolveInteractionAnswer(pending: PendingInteraction, answer: InteractionAnswer)
    : Result<Payload, AnswerError>
  {
    if || pending.status != Pending
       || answer.interactionId != pending.interactionId
       || answer.stateVersion != pending.stateVersion then Err(InteractionExpired(Some(pending)))
    else if answer.customText.Some? then
      if !pending.allowCustomInput then Err(CustomInputNotAllowed)
      else Ok(EMPTY_PAYLOAD.(rest := map["custom_text" := Str(answer.customText.value)]))
    else
      var choice := if answer.optionId.Some? then FirstOption(pending.options, answer.optionId.value) else None;
      if choice.None? then Err(InteractionExpired(Some(pending))) else Ok(choice.value.payload)
  }

  /**
   A validated click on a listed option yields that option's payload exactly when no text came
   with it: blank text passes validation next to an option, and then shadows the option.
   */
  lemma ClickYieldsItsPayload(pending: PendingInteraction, raw: InteractionAnswer)
    requires ValidateAnswer(raw).Ok? && raw.optionId.Some?
    requires pending.status == Pending && raw.interactionId == pending.interactionId
    requires raw.stateVersion == pending.stateVersion
    requires FirstOption(pending.options, raw.optionId.value).Some?
    ensures var outcome := ResolveInteractionAnswer(pending, ValidateAnswer(raw).value);
            var option := FirstOption(pending.options, raw.optionId.value).value;
            && (raw.customText.None? ==> outcome == Ok(option.payload))
            && (raw.customText.Some? ==>
                  outcome == if pending.allowCustomInput
                             then Ok(EMPTY_PAYLOAD.(rest := map["custom_text" := Str("")]))
                             else Err(CustomInputNotAllowed))
  {
  }

  // ----- building a question -----

  /**
   An entry of option_chips or next_actions: plain text, or a dictionary ("" for missing fields, None for a payload
   that is missing or empty).
   */
  datatype RawOption =
    | TextEntry(text: string)
    | DictEntry(id: string, kind: string, labelText: string, value: Option<string>, description: string,
                requiresCustomInput: bool, placeholder: string, payload: Option<Payload>, layer: string)

  datatype Draft = Draft(options: seq<InteractionOption>, allowCustomInput: bool, placeholder: string)

  function OptionPayload(purpose: string, kind: string, value: string, explicit: Option<Payload>): Payload {
    if kind == "action" then
      var action := Strip(value);
      var given := if explicit.Some? then explicit.value else EMPTY_PAYLOAD;
      Payload(map["follow_up_action" := Str(action)] + given.params, given.selectedResources,
              map["value" := Str(action)] + given.rest)
    else if explicit.Some? then explicit.value
    else if (purpose == "select_table" || kind == "pick_table") && Strip(value) != "" then
      Payload(map["table_name" := Str(Strip(value))], map["table" := Str(Strip(value))], map[])
    else if purpose == "select_layer" && Strip(value) != "" then
      Payload(map["layer" := Str(Lower(Strip(value)))], map[], map[])
    else if value != "" then EMPTY_PAYLOAD.(rest := map["value" := Str(value)])
    else EMPTY_PAYLOAD
  }

  function OrElse(s: string, alternative: string): string {
    if s != "" then s else alternative
  }

  function ActionId(index: nat): string {
    "action_" + Decimal(index)
  }

  function OptId(index: nat): string {
    "opt_" + Decimal(index)
  }

  /** The dictionary the loop works on; blank text is skipped. */
  function OptionData(index: nat, raw: RawOption): (r: Option<RawOption>)
    ensures r.Some? ==> r.value.DictEntry?
  {
    if raw.DictEntry? then Some(raw)
    else if Strip(raw.text) == "" then None
    else Some(DictEntry(ActionId(index), "action", Strip(raw.text), Some(Strip(raw.text)), "",
                        false, "", None, ""))
  }

  predicate AsksForText(data: RawOption)
    requires data.DictEntry?
  {
    data.kind == "free_text" || data.requiresCustomInput
  }

  function LabelOf(data: RawOption): string
    requires data.DictEntry?
  {
    Strip(OrElse(data.labelText, if data.value.Some? then data.value.value else ""))
  }

  function OptionOf(purpose: string, index: nat, data: RawOption): InteractionOption
    requires data.DictEntry?
  {
    var value := if data.value.Some? then data.value.value else LabelOf(data);
    InteractionOption(OrElse(data.id, OptId(index)), LabelOf(data), value, data.description,
                      OptionPayload(purpose, data.kind, value, data.payload), data.layer)
  }

  /** One iteration of the loop of build_interaction. */
  function AddOption(d: Draft, purpose: string, index: nat, raw: RawOption): Draft {
    var data := OptionData(index, raw);
    if data.None? then d
    else if AsksForText(data.value) then
      d.(allowCustomInput := true, placeholder := OrElse(data.value.placeholder, d.placeholder))
    else if LabelOf(data.value) == "" then d
    else d.(options := d.options + [OptionOf(purpose, index, data.value)])
  }

  function DraftOf(purpose: string, raws: seq<RawOption>, allowCustomInput: bool, hint: string): Draft {
    if raws == [] then Draft([], allowCustomInput, hint)
    else
      var n := |raws| - 1;
      AddOption(DraftOf(purpose, raws[..n], allowCustomInput, hint), purpose, n, raws[n])
  }

  /** The response data build_interaction reads; a fresh id replaces the random one. */
  datatype CardRequest = CardRequest(
    existing: Card, raws: seq<RawOption>, allowCustomInput: bool, hint: string, prompt: string,
    confirm: bool, freshId: string)

  function CardFor(r: CardRequest, purpose: string, version: nat): Result<Card, AnswerError> {
    if r.existing.Some? then
      if ValidCard(r.existing.value) then Ok(r.existing) else Err(ValidationFailed)
    else
      var d := DraftOf(purpose, r.raws, r.allowCustomInput, r.hint);
      if d.options == [] && !d.allowCustomInput then Ok(None)
      else
        var kind := if r.confirm then Confirm else if d.options != [] then SingleSelect else FreeText;
        var p := PendingInteraction(r.freshId, kind, purpose, r.prompt, d.options, d.allowCustomInput,
                                    d.placeholder, Pending, version);
        if ValidCard(p) then Ok(Some(p)) else Err(ValidationFailed)
  }

  method BuildInteraction(r: CardRequest, purpose: string, version: nat)
    returns (card: Result<Card, AnswerError>)
    ensures card == CardFor(r, purpose, version)
  {
    if r.existing.Some? {
      return if ValidCard(r.existing.value) then Ok(r.existing) else Err(ValidationFailed);
    }
    var options: seq<InteractionOption> := [];
    var allowCustomInput, placeholder := r.allowCustomInput, r.hint;
    for index := 0 to |r.raws|
      invariant Draft(options, allowCustomInput, placeholder)
             == DraftOf(purpose, r.raws[..index], r.allowCustomInput, r.hint)
    {
      assert r.raws[..index + 1][..index] == r.raws[..index];
      var data := OptionData(index, r.raws[index]);
      if data.None? { continue; }
      if AsksForText(data.value) {
        allowCustomInput, placeholder := true, OrElse(data.value.placeholder, placeholder);
        continue;
      }
      if LabelOf(data.value) == "" { continue; }
      options := options + [OptionOf(purpose, index, data.value)];
    }
    assert r.raws[..|r.raws|] == r.raws;
    if options == [] && !allowCustomInput {
      return Ok(None);
    }
    var kind := if r.confirm then Confirm else if options != [] then SingleSelect else FreeText;
    var p := PendingInteraction(r.freshId, kind, purpose, r.prompt, options, allowCustomInput,
                                placeholder, Pending, version);
    card := if ValidCard(p) then Ok(Some(p)) else Err(ValidationFailed);
  }

  /** An id the loop made up at a given index. */
  predicate GeneratedId(id: string, index: nat) {
    id == ActionId(index) || id == OptId(index)
  }

  predicate NoExplicitIds(raws: seq<RawOption>) {
    forall i :: 0 <= i < |raws| && raws[i].DictEntry? ==> raws[i].id == ""
  }

  lemma GeneratedIdInjective(id: string, i: nat, j: nat)
    requires GeneratedId(id, i) && GeneratedId(id, j)
    ensures i == j
  {
    if id == ActionId(i) {
      assert id[0] == 'a';
      assert id != OptId(j) by { assert OptId(j)[0] == 'o'; }
      assert id[7..] == Decimal(i) && id[7..] == Decimal(j);
    } else {
      assert id[0] == 'o';
      assert id != ActionId(j) by { assert ActionId(j)[0] == 'a'; }
      assert id[4..] == Decimal(i) && id[4..] == Decimal(j);
    }
    DecimalInjective(i, j);
  }

  /** Without explicit ids the k-th option built has the id of a raw index, and those indices increase. */
  ghost predicate BuiltFrom(options: seq<InteractionOption>, indices: seq<nat>, bound: nat) {
    && |indices| == |options|
    && (forall k :: 0 <= k < |options| ==> indices[k] < bound && GeneratedId(options[k].id, indices[k]))
    && (forall k, l :: 0 <= k < l < |options| ==> indices[k] < indices[l])
  }

  lemma AddOptionIds(d: Draft, purpose: string, index: nat, raw: RawOption)
    requires raw.DictEntry? ==> raw.id == ""
    ensures var options := AddOption(d, purpose, index, raw).options;
            || options == d.options
            || (|options| == |d.options| + 1 && d.options == options[..|d.options|]
                && GeneratedId(options[|d.options|].id, index))
  {
  }

  lemma AddOptionFollowUp(d: Draft, purpose: string, index: nat, text: string)
    requires Strip(text) != ""
    ensures var options := AddOption(d, purpose, index, TextEntry(text)).options;
            && |options| == |d.options| + 1
            && options[|d.options|].id == ActionId(index)
            && options[|d.options|].labelText == Strip(text)
            && TextAt(options[|d.options|].payload.params, "follow_up_action") == Strip(text)
  {
    StripIdempotent(text);
    var data := OptionData(index, TextEntry(text)).value;
    assert LabelOf(data) == Strip(text);
    assert data.kind == "action";
    assert "action" != "free_text" by { assert "action"[0] != "free_text"[0]; }
    assert ActionId(index)[0] == 'a';
    assert OptionPayload(purpose, "action", Strip(text), None).params["follow_up_action"] == Str(Strip(text));
  }

  lemma AddOptionKeeps(d: Draft, purpose: string, index: nat, raw: RawOption)
    ensures d.options <= AddOption(d, purpose, index, raw).options
  {
  }

  lemma ExtendIndices(before: seq<InteractionOption>, options: seq<InteractionOption>, earlier: seq<nat>, n: nat)
    returns (indices: seq<nat>)
    requires BuiltFrom(before, earlier, n)
    requires || options == before
             || (|options| == |before| + 1 && before == options[..|before|] && GeneratedId(options[|before|].id, n))
    ensures BuiltFrom(options, indices, n + 1)
  {
    if |options| == |before| {
      indices := earlier;
    } else {
      indices := earlier + [n];
      forall k | 0 <= k < |before| ensures options[k] == before[k] {
        assert options[k] == options[..|before|][k];
      }
    }
  }

  lemma {:induction false} DraftIndices(purpose: string, raws: seq<RawOption>, allow: bool, hint: string)
    returns (indices: seq<nat>)
    requires NoExplicitIds(raws)
    ensures BuiltFrom(DraftOf(purpose, raws, allow, hint).options, indices, |raws|)
  {
    if raws == [] {
      indices := [];
    } else {
      var n := |raws| - 1;
      indices := DraftIndices(purpose, raws[..n], allow, hint);
      var before := DraftOf(purpose, raws[..n], allow, hint);
      var options := DraftOf(purpose, raws, allow, hint).options;
      AddOptionIds(before, purpose, n, raws[n]);
      indices := ExtendIndices(before.options, options, indices, n);
    }
  }

  /** When the data supplies no ids of its own, every option of a built card can be told from the others. */
  lemma GeneratedOptionsAreDistinct(r: CardRequest, purpose: string, version: nat, i: nat, j: nat)
    requires r.existing.None? && NoExplicitIds(r.raws)
    requires CardFor(r, purpose, version).Ok? && CardFor(r, purpose, version).value.Some?
    requires var p := CardFor(r, purpose, version).value.value; i < |p.options| && j < |p.options|
    ensures var p := CardFor(r, purpose, version).value.value;
            && (p.options[i].id == p.options[j].id ==> i == j)
            && FirstOption(p.options, p.options[i].id) == Some(p.options[i])
  {
    var p := CardFor(r, purpose, version).value.value;
    var indices := DraftIndices(purpose, r.raws, r.allowCustomInput, r.hint);
    forall k, l | 0 <= k < |p.options| && 0 <= l < |p.options| && p.options[k].id == p.options[l].id
      ensures k == l
    {
      GeneratedIdInjective(p.options[k].id, indices[k], indices[l]);
    }
  }

  /** A plain-text entry becomes an option whose click asks for that very text as the follow-up action. */
  lemma {:induction false} TextEntryBecomesFollowUp(
    purpose: string, raws: seq<RawOption>, allow: bool, hint: string, i: nat) returns (k: nat)
    requires i < |raws| && raws[i].TextEntry? && Strip(raws[i].text) != ""
    ensures var options := DraftOf(purpose, raws, allow, hint).options;
            && k < |options|
            && options[k].id == ActionId(i)
            && options[k].labelText == TextAt(options[k].payload.params, "follow_up_action") == Strip(raws[i].text)
  {
    var n := |raws| - 1;
    if i < n {
      k := TextEntryBecomesFollowUp(purpose, raws[..n], allow, hint, i);
      AddOptionKeeps(DraftOf(purpose, raws[..n], allow, hint), purpose, n, raws[n]);
    } else {
      AddOptionFollowUp(DraftOf(purpose, raws[..n], allow, hint), purpose, n, raws[n].text);
      k := |DraftOf(purpose, raws[..n], allow, hint).options|;
    }
  }

  // ----- what the options pay -----

  /** The text of an option that has no payload of its own. */
  function ValueOf(data: RawOption): string
    requires data.DictEntry?
  {
    if data.value.Some? then data.value.value else LabelOf(data)
  }

  lemma AddedOptionIsLast(d: Draft, purpose: string, index: nat, raw: RawOption)
    requires raw.DictEntry? && !AsksForText(raw) && LabelOf(raw) != ""
    ensures AddOption(d, purpose, index, raw) == d.(options := d.options + [OptionOf(purpose, index, raw)])
  {
  }

  lemma LaterKeeps(purpose: string, raws: seq<RawOption>, allow: bool, hint: string, k: nat)
    requires raws != [] && k < |DraftOf(purpose, raws[..|raws| - 1], allow, hint).options|
    ensures k < |DraftOf(purpose, raws, allow, hint).options|
    ensures DraftOf(purpose, raws, allow, hint).options[k]
         == DraftOf(purpose, raws[..|raws| - 1], allow, hint).options[k]
  {
    var n := |raws| - 1;
    AddOptionKeeps(DraftOf(purpose, raws[..n], allow, hint), purpose, n, raws[n]);
  }

  lemma {:induction false} EntryIsListed(purpose: string, raws: seq<RawOption>, allow: bool, hint: string, i: nat)
    returns (k: nat)
    requires i < |raws| && raws[i].DictEntry? && !AsksForText(raws[i]) && LabelOf(raws[i]) != ""
    ensures k < |DraftOf(purpose, raws, allow, hint).options|
    ensures DraftOf(purpose, raws, allow, hint).options[k] == OptionOf(purpose, i, raws[i])
  {
    var n := |raws| - 1;
    if i < n {
      k := EntryIsListed(purpose, raws[..n], allow, hint, i);
      LaterKeeps(purpose, raws, allow, hint, k);
    } else {
      var before := DraftOf(purpose, raws[..n], allow, hint);
      AddedOptionIsLast(before, purpose, n, raws[n]);
      k := |before.options|;
    }
  }

  /** The option made of an entry: its own id or opt_ and its index, its label or value, its value, text and layer. */
  lemma OptionIs(purpose: string, index: nat, data: RawOption)
    requires data.DictEntry?
    ensures var o := OptionOf(purpose, index, data);
            && o.id == (if data.id != "" then data.id else "opt_" + Decimal(index))
            && o.labelText == Strip(if data.labelText != "" || data.value.None? then data.labelText
                                    else data.value.value)
            && o.value == (if data.value.Some? then data.value.value else o.labelText)
            && o.description == data.description && o.layer == data.layer
  {
  }

  /** Every dictionary entry with a label, and no text of its own to ask for, becomes such an option. */
  lemma EntryBecomesOption(purpose: string, raws: seq<RawOption>, allow: bool, hint: string, i: nat) returns (k: nat)
    requires i < |raws| && raws[i].DictEntry? && !AsksForText(raws[i]) && LabelOf(raws[i]) != ""
    ensures var options := DraftOf(purpose, raws, allow, hint).options;
            && k < |options| && options[k] == OptionOf(purpose, i, raws[i])
            && options[k].id == (if raws[i].id != "" then raws[i].id else "opt_" + Decimal(i))
            && options[k].labelText == Strip(if raws[i].labelText != "" || raws[i].value.None? then raws[i].labelText
                                             else raws[i].value.value)
            && options[k].value == (if raws[i].value.Some? then raws[i].value.value else options[k].labelText)
            && options[k].description == raws[i].description && options[k].layer == raws[i].layer
  {
    k := EntryIsListed(purpose, raws, allow, hint, i);
    OptionIs(purpose, i, raws[i]);
  }

  /** A payload given with an entry that is no action is what the option pays. */
  lemma GivenPayloadIsPaid(purpose: string, index: nat, data: RawOption)
    requires data.DictEntry? && data.kind != "action" && data.payload.Some?
    ensures OptionOf(purpose, index, data).payload == data.payload.value
  {
  }

  /** An action asks for its text as the next step, unless the payload given with it says otherwise. */
  lemma ActionIsPaid(purpose: string, index: nat, data: RawOption)
    requires data.DictEntry? && data.kind == "action"
    ensures var paid := OptionOf(purpose, index, data).payload;
            var given := if data.payload.Some? then data.payload.value else EMPTY_PAYLOAD;
            && paid.selectedResources == given.selectedResources
            && "follow_up_action" in paid.params && "value" in paid.rest
            && ("follow_up_action" !in given.params ==> paid.params["follow_up_action"] == Str(Strip(ValueOf(data))))
            && ("value" !in given.rest ==> paid.rest["value"] == Str(Strip(ValueOf(data))))
            && (forall key :: key in given.params ==> key in paid.params && paid.params[key] == given.params[key])
            && (forall key :: key in given.rest ==> key in paid.rest && paid.rest[key] == given.rest[key])
  {
  }

  /** The option to pick a table pays its name as a parameter and as the chosen table. */
  lemma TableChipIsPaid(purpose: string, index: nat, data: RawOption)
    requires data.DictEntry? && data.kind != "action" && data.payload.None?
    requires (purpose == "select_table" || data.kind == "pick_table") && Strip(ValueOf(data)) != ""
    ensures var paid := OptionOf(purpose, index, data).payload;
            && paid.params.Keys == {"table_name"} && TextAt(paid.params, "table_name") == Strip(ValueOf(data))
            && paid.selectedResources.Keys == {"table"}
            && TextAt(paid.selectedResources, "table") == Strip(ValueOf(data))
            && paid.rest == map[]
  {
  }

  /** The option to choose a layer pays the layer in lower case. */
  lemma LayerChipIsPaid(index: nat, data: RawOption)
    requires data.DictEntry? && data.kind != "action" && data.kind != "pick_table" && data.payload.None?
    requires Strip(ValueOf(data)) != ""
    ensures var paid := OptionOf("select_layer", index, data).payload;
            && paid.params.Keys == {"layer"} && TextAt(paid.params, "layer") == Lower(Strip(ValueOf(data)))
            && paid.selectedResources == map[] && paid.rest == map[]
  {
    assert "select_layer"[7] != "select_table"[7];
  }

  /** Any other option pays its value. */
  lemma PlainValueIsPaid(purpose: string, index: nat, data: RawOption)
    requires data.DictEntry? && data.kind != "action" && data.payload.None? && ValueOf(data) != ""
    requires Strip(ValueOf(data)) == "" || (purpose != "select_table" && data.kind != "pick_table"
                                            && purpose != "select_layer")
    ensures OptionOf(purpose, index, data).payload == Payload(map[], map[], map["value" := Str(ValueOf(data))])
  {
  }

  // ----- answers and questions that are accepted -----

  /** An answer passes validation exactly when it is one option or one text that is not blank, within the limits. */
  lemma AnswerIsValidIff(raw: InteractionAnswer)
    ensures ValidateAnswer(raw).Ok? <==>
              && 1 <= |raw.interactionId| <= 128
              && (raw.optionId.Some? ==> 1 <= |raw.optionId.value| <= 128)
              && (raw.customText.Some? ==> 1 <= |raw.customText.value| <= 10000)
              && (raw.optionId.Some? <==> raw.customText.None? || Strip(raw.customText.value) == "")
    ensures ValidateAnswer(raw).Ok? ==>
              && ValidateAnswer(raw).value.interactionId == raw.interactionId
              && ValidateAnswer(raw).value.optionId == raw.optionId
              && ValidateAnswer(raw).value.stateVersion == raw.stateVersion
              && (raw.customText.None? ==> ValidateAnswer(raw).value.customText.None?)
              && (raw.customText.Some? ==> ValidateAnswer(raw).value.customText == Some(Strip(raw.customText.value)))
  {
  }

  /** A pending question accepts an answer to itself under its version: a text if it takes one, or a listed option. */
  lemma AnswerIsResolvedIff(p: PendingInteraction, answer: InteractionAnswer)
    ensures var outcome := ResolveInteractionAnswer(p, answer);
            var ours := p.status == Pending && answer.interactionId == p.interactionId
                        && answer.stateVersion == p.stateVersion;
            && (outcome.Ok? <==>
                  && ours
                  && if answer.customText.Some? then p.allowCustomInput
                     else exists i :: 0 <= i < |p.options| && Some(p.options[i].id) == answer.optionId)
            && (outcome == Err(CustomInputNotAllowed) <==>
                  ours && answer.customText.Some? && !p.allowCustomInput)
            && (outcome.Err? && !outcome.error.CustomInputNotAllowed? ==>
                  outcome.error == InteractionExpired(Some(p)))
  {
  }

  /** The limits of a stored question. */
  lemma CardIsValidIff(p: PendingInteraction)
    ensures ValidCard(p) <==>
              && 1 <= |p.interactionId| <= 128 && 1 <= |p.purpose| <= 128 && 1 <= |p.prompt| <= 4000
              && |p.placeholder| <= 1000
              && forall o :: o in p.options ==>
                   1 <= |o.id| <= 128 && 1 <= |o.labelText| <= 1000 && |o.description| <= 2000
  {
  }

  /** Some entry of the data asks for a text of one's own. */
  ghost predicate TextIsAsked(raws: seq<RawOption>) {
    exists i :: 0 <= i < |raws| && raws[i].DictEntry? && (raws[i].kind == "free_text" || raws[i].requiresCustomInput)
  }

  lemma TextIsAskedSnoc(raws: seq<RawOption>)
    requires raws != []
    ensures var n := |raws| - 1;
            TextIsAsked(raws) <==>
              TextIsAsked(raws[..n])
              || (raws[n].DictEntry? && (raws[n].kind == "free_text" || raws[n].requiresCustomInput))
  {
    var n := |raws| - 1;
    if TextIsAsked(raws) {
      var i :| 0 <= i < |raws| && raws[i].DictEntry? && (raws[i].kind == "free_text" || raws[i].requiresCustomInput);
      if i < n {
        assert raws[..n][i] == raws[i];
      }
    }
    if TextIsAsked(raws[..n]) {
      var i :| 0 <= i < n && raws[..n][i].DictEntry?
               && (raws[..n][i].kind == "free_text" || raws[..n][i].requiresCustomInput);
      assert raws[i] == raws[..n][i];
    }
  }

  lemma PlainTextIsNoRequest(index: nat, text: string)
    requires Strip(text) != ""
    ensures !AsksForText(OptionData(index, TextEntry(text)).value)
  {
    assert "action"[0] != "free_text"[0];
  }

  lemma {:induction false} DraftTakesTextIff(purpose: string, raws: seq<RawOption>, allow: bool, hint: string)
    ensures DraftOf(purpose, raws, allow, hint).allowCustomInput <==> allow || TextIsAsked(raws)
  {
    if raws != [] {
      var n := |raws| - 1;
      DraftTakesTextIff(purpose, raws[..n], allow, hint);
      TextIsAskedSnoc(raws);
      if raws[n].TextEntry? && Strip(raws[n].text) != "" {
        PlainTextIsNoRequest(n, raws[n].text);
      }
    }
  }

  /** The entry asks for a text and says how. */
  predicate Hints(raw: RawOption) {
    raw.DictEntry? && (raw.kind == "free_text" || raw.requiresCustomInput) && raw.placeholder != ""
  }

  /** The hint shown for a text is that of the last entry that gives one, or the hint given with the data. */
  lemma {:induction false} LastHintCounts(purpose: string, raws: seq<RawOption>, allow: bool, hint: string)
    ensures var d := DraftOf(purpose, raws, allow, hint);
            && ((forall i :: 0 <= i < |raws| ==> !Hints(raws[i])) ==> d.placeholder == hint)
            && forall i :: 0 <= i < |raws| && Hints(raws[i]) && (forall j :: i < j < |raws| ==> !Hints(raws[j])) ==>
                 d.placeholder == raws[i].placeholder
  {
    if raws != [] {
      var n := |raws| - 1;
      LastHintCounts(purpose, raws[..n], allow, hint);
      HintOfLast(DraftOf(purpose, raws[..n], allow, hint), purpose, n, raws[n]);
      assert forall i :: 0 <= i < n ==> raws[..n][i] == raws[i];
    }
  }

  lemma HintOfLast(d: Draft, purpose: string, index: nat, raw: RawOption)
    ensures AddOption(d, purpose, index, raw).placeholder == if Hints(raw) then raw.placeholder else d.placeholder
  {
    if raw.TextEntry? && Strip(raw.text) != "" {
      PlainTextIsNoRequest(index, raw.text);
    }
  }

  /** A built question is pending under its version, takes text exactly if asked to, and is of the kind it can be. */
  lemma BuiltCardIs(r: CardRequest, purpose: string, version: nat)
    requires r.existing.None? && CardFor(r, purpose, version).Ok?
    ensures var card := CardFor(r, purpose, version).value;
            var options := DraftOf(purpose, r.raws, r.allowCustomInput, r.hint).options;
            && (card.None? <==> options == [] && !r.allowCustomInput && !TextIsAsked(r.raws))
            && (card.Some? ==>
                  && ValidCard(card.value) && card.value.status == Pending && card.value.stateVersion == version
                  && card.value.interactionId == r.freshId && card.value.purpose == purpose
                  && card.value.prompt == r.prompt && card.value.options == options
                  && (card.value.allowCustomInput <==> r.allowCustomInput || TextIsAsked(r.raws))
                  && ((forall i :: 0 <= i < |r.raws| ==> !Hints(r.raws[i])) ==> card.value.placeholder == r.hint)
                  && (forall i :: 0 <= i < |r.raws| && Hints(r.raws[i])
                                  && (forall j :: i < j < |r.raws| ==> !Hints(r.raws[j])) ==>
                        card.value.placeholder == r.raws[i].placeholder)
                  && (r.confirm ==> card.value.kind == Confirm)
                  && (!r.confirm && options != [] ==> card.value.kind == SingleSelect)
                  && (!r.confirm && options == [] ==> card.value.kind == FreeText))
  {
    DraftTakesTextIff(purpose, r.raws, r.allowCustomInput, r.hint);
    LastHintCounts(purpose, r.raws, r.allowCustomInput, r.hint);
  }
}

/** Reading the request back from the node spec built for it (dataworks_agent/api_clients/flowspec.py). */
module SpecReading {
  import opened Values
  import opened FlowSpec

  function NumAt(d: Dict, key: string): int {
    if key in d && d[key].Num? then d[key].n else 0
  }

  function FieldsAt(d: Dict, key: string): Dict {
    if key in d && d[key].Object? then d[key].fields else map[]
  }

  function ItemsAt(d: Dict, key: string): seq<Json> {
    if key in d && d[key].List? then d[key].items else []
  }

  predicate TrueAt(d: Dict, key: string) {
    key in d && d[key] == Bool(true)
  }

  function OrEmpty(d: Option<Dict>): Dict {
    if d.Some? then d.value else map[]
  }

  // ----- the parts of a document -----

  function ParameterIn(variable: Json): Parameter {
    var d := if variable.Object? then variable.fields else map[];
    Parameter(TextAt(d, "name"), Some(TextAt(d, "scope")), Some(TextAt(d, "type")), TextAt(d, "value"))
  }

  function ParametersIn(variables: seq<Json>): (r: seq<Parameter>)
    ensures |r| == |variables| && forall i :: 0 <= i < |r| ==> r[i] == ParameterIn(variables[i])
  {
    seq(|variables|, i requires 0 <= i < |variables| => ParameterIn(variables[i]))
  }

  function LanguageOf(command: string): string {
    if command == "ODPS_SQL" then "odps-sql" else if command == "HOLOGRES_SQL" then "holo" else "di"
  }

  function TablesIn(artifacts: Option<Artifacts>): (r: seq<string>)
    ensures artifacts.None? ==> r == []
    ensures artifacts.Some? ==> |r| == |artifacts.value.nodeOutputs|
    ensures artifacts.Some? ==> forall i :: 0 <= i < |r| ==> r[i] == ValueOr(artifacts.value.nodeOutputs[i].data, "")
  {
    if artifacts.None? then []
    else
      var outputs := artifacts.value.nodeOutputs;
      seq(|outputs|, i requires 0 <= i < |outputs| => ValueOr(outputs[i].data, ""))
  }

  predicate DependsOnSelf(flow: Option<seq<FlowEntry>>) {
    flow.Some? && |flow.value| == 1 && flow.value[0].depends != [] && flow.value[0].depends[0].kind == ON_SELF
  }

  /** The request a document was built for, its defaults spelled out. */
  function RequestIn(d: Document): NodeRequest
    requires d.nodes != []
  {
    var node := d.nodes[0];
    var script, trigger := OrEmpty(node.script), OrEmpty(node.trigger);
    var runtime := FieldsAt(script, "runtime");
    var outputs := TablesIn(node.outputs);
    NodeRequest(
      ValueOr(node.name, ""), TextAt(script, "content"), TextAt(script, "path"),
      if outputs == [] then "" else outputs[0], LanguageOf(TextAt(runtime, "command")),
      TextAt(FieldsAt(node.fields, "datasource"), "name"), TextAt(trigger, "cron"), TextAt(trigger, "cycleType"),
      ParametersIn(ItemsAt(script, "parameters")), TextAt(runtime, "cu"), TextAt(trigger, "timezone"),
      TextAt(node.fields, "instanceMode"), TextAt(node.fields, "rerunMode"), NumAt(node.fields, "rerunTimes"),
      NumAt(node.fields, "rerunInterval"), DependsOnSelf(d.flow), TrueAt(node.fields, "autoParse"),
      TablesIn(node.inputs), node.id)
  }

  // ----- what cannot be told apart -----

  /** A parameter with its defaults spelled out. */
  function Defaulted(p: Parameter): Parameter {
    p.(scope := Some(ValueOr(p.scope, "NodeParameter")), kind := Some(ValueOr(p.kind, "System")))
  }

  function AllDefaulted(parameters: seq<Parameter>): (r: seq<Parameter>)
    ensures |r| == |parameters| && forall i :: 0 <= i < |r| ==> r[i] == Defaulted(parameters[i])
  {
    seq(|parameters|, i requires 0 <= i < |parameters| => Defaulted(parameters[i]))
  }

  /** Defaults are as good as spelled out, an empty node id as none, and a "di" node has no data source. */
  function Normal(q: NodeRequest): NodeRequest {
    q.(parameters := AllDefaulted(q.parameters), nodeId := if q.nodeId == Some("") then None else q.nodeId,
       datasourceName := if q.language == "di" then "" else q.datasourceName)
  }

  // ----- part by part -----

  lemma ParameterIsRead(p: Parameter)
    ensures ParameterIn(Variable(p)) == Defaulted(p)
  {
  }

  lemma ParametersAreRead(parameters: seq<Parameter>)
    ensures ParametersIn(Variables(parameters)) == AllDefaulted(parameters)
  {
    forall i | 0 <= i < |parameters| ensures ParametersIn(Variables(parameters))[i] == Defaulted(parameters[i]) {
      ParameterIsRead(parameters[i]);
    }
  }

  lemma ScriptIsRead(q: NodeRequest, runtime: Runtime, parameters: seq<Json>)
    ensures var script := BuiltScript(q, runtime, parameters);
            && TextAt(script, "content") == q.scriptContent && TextAt(script, "path") == q.scriptPath
            && ItemsAt(script, "parameters") == parameters
            && TextAt(FieldsAt(script, "runtime"), "command") == runtime.command
            && TextAt(FieldsAt(script, "runtime"), "cu") == q.cu
  {
  }

  lemma TriggerIsRead(q: NodeRequest)
    ensures var trigger := BuiltTrigger(q);
            && TextAt(trigger, "cron") == q.cron && TextAt(trigger, "cycleType") == q.cycleType
            && TextAt(trigger, "timezone") == q.timezone
  {
  }

  lemma FieldsAreRead(q: NodeRequest, runtime: Runtime)
    ensures var fields := BuiltFields(q, runtime);
            && TextAt(fields, "instanceMode") == q.instanceMode && TextAt(fields, "rerunMode") == q.rerunMode
            && NumAt(fields, "rerunTimes") == q.rerunTimes && NumAt(fields, "rerunInterval") == q.rerunInterval
            && (TrueAt(fields, "autoParse") <==> q.autoParse)
            && TextAt(FieldsAt(fields, "datasource"), "name")
               == if runtime.datasource.Some? then q.datasourceName else ""
  {
  }

  lemma LanguageIsRead(language: string)
    requires RuntimeOf(language).Some?
    ensures LanguageOf(RuntimeOf(language).value.command) == language
    ensures RuntimeOf(language).value.datasource.None? <==> language == "di"
  {
    assert "di"[1] == 'i' && "holo"[0] == 'h' && "odps-sql"[0] == 'o';
    assert "DI"[0] == 'D' && "HOLOGRES_SQL"[0] == 'H' && "ODPS_SQL"[0] == 'O';
  }

  lemma InputsAreRead(refs: seq<string>)
    ensures TablesIn(InputsOf(refs)) == refs
  {
  }

  lemma SelfDependencyIsRead(q: NodeRequest, runtime: Runtime)
    ensures DependsOnSelf(DocumentOf(q, runtime).flow) <==> q.selfDependency
  {
    assert "Normal"[0] == 'N' && ON_SELF[0] == 'C';
  }

  /** The document built for a request says what the request said. */
  lemma RequestIsReadBack(q: NodeRequest)
    requires RuntimeOf(q.language).Some?
    ensures RequestIn(DocumentOf(q, RuntimeOf(q.language).value)) == Normal(q)
  {
    var runtime := RuntimeOf(q.language).value;
    ScriptIsRead(q, runtime, Variables(q.parameters));
    ParametersAreRead(q.parameters);
    TriggerIsRead(q);
    FieldsAreRead(q, runtime);
    LanguageIsRead(q.language);
    InputsAreRead(q.upstreamRefs);
    SelfDependencyIsRead(q, runtime);
  }

  /** Requests that build the same document are the same but for defaults. */
  lemma DocumentsTellRequestsApart(q: NodeRequest, r: NodeRequest)
    requires RuntimeOf(q.language).Some? && RuntimeOf(r.language).Some?
    requires DocumentOf(q, RuntimeOf(q.language).value) == DocumentOf(r, RuntimeOf(r.language).value)
    ensures Normal(q) == Normal(r)
  {
    RequestIsReadBack(q);
    RequestIsReadBack(r);
  }

  lemma DependsAreRead(q: NodeRequest, own: nat)
    requires own == if q.selfDependency then 1 else 0
    ensures |BuiltDepends(q)| == own + |q.upstreamRefs|
    ensures own == 1 ==> BuiltDepends(q)[0] == Depend("CrossCycleDependsOnSelf", None, q.outputRef, q.outputRef)
    ensures forall i :: 0 <= i < |q.upstreamRefs| ==>
              BuiltDepends(q)[own + i] == Depend("Normal", Some("Manual"), q.upstreamRefs[i], q.upstreamRefs[i])
  {
    var first, tables := if q.selfDependency then [OnSelf(q.outputRef)] else [], OnTables(q.upstreamRefs);
    assert BuiltDepends(q) == first + tables && |first| == own;
    forall i | 0 <= i < |q.upstreamRefs|
      ensures BuiltDepends(q)[own + i] == Depend("Normal", Some("Manual"), q.upstreamRefs[i], q.upstreamRefs[i])
    {
      assert (first + tables)[own + i] == tables[i] == OnTable(q.upstreamRefs[i]);
    }
  }

  lemma FlowHoldsDepends(q: NodeRequest, runtime: Runtime)
    ensures var flow := DocumentOf(q, runtime).flow;
            flow.Some? ==>
              flow == Some([FlowEntry(if q.nodeId.Some? && q.nodeId.value != "" then q.nodeId.value else q.name,
                                      BuiltDepends(q))])
  {
  }

  /** The flow names the node and holds its dependencies: itself first if it depends on itself, then its tables. */
  lemma FlowIsRead(q: NodeRequest, runtime: Runtime, own: nat)
    requires own == (if q.selfDependency then 1 else 0) && DocumentOf(q, runtime).flow.Some?
    ensures |DocumentOf(q, runtime).flow.value| == 1
    ensures var entry := DocumentOf(q, runtime).flow.value[0];
            && entry.nodeId == (if q.nodeId.Some? && q.nodeId.value != "" then q.nodeId.value else q.name)
            && |entry.depends| == own + |q.upstreamRefs|
            && (own == 1 ==> entry.depends[0] == Depend("CrossCycleDependsOnSelf", None, q.outputRef, q.outputRef))
            && forall i :: 0 <= i < |q.upstreamRefs| ==>
                 entry.depends[own + i] == Depend("Normal", Some("Manual"), q.upstreamRefs[i], q.upstreamRefs[i])
  {
    FlowHoldsDepends(q, runtime);
    DependsAreRead(q, own);
  }
}

/**
 Node specs (dataworks_agent/api_clients/flowspec.py): building the document of a new node with its schedule,
 its outputs and its upstream dependencies.
 */
module FlowSpec {
  import opened Values

  /** An input or output of a node; data is None when the key is missing or not a string. */
  datatype Artifact = Artifact(data: Option<string>, isDefault: bool, rest: Dict)

  /** The object under "inputs" or "outputs". */
  datatype Artifacts = Artifacts(nodeOutputs: seq<Artifact>, rest: Dict)

  /** A node; fields holds every key that has no field of its own. */
  datatype Node = Node(
    id: Option<string>,
    name: Option<string>,
    trigger: Option<Dict>,
    script: Option<Dict>,
    inputs: Option<Artifacts>,
    outputs: Option<Artifacts>,
    fields: Dict)

  datatype Depend = Depend(kind: string, sourceType: Option<string>, output: string, refTableName: string)

  datatype FlowEntry = FlowEntry(nodeId: string, depends: seq<Depend>)

  datatype Document = Document(nodes: seq<Node>, flow: Option<seq<FlowEntry>>, rest: Dict)

  datatype Parameter = Parameter(name: string, scope: Option<string>, kind: Option<string>, value: string)

  const ON_SELF := "CrossCycleDependsOnSelf"

  function ValueOr(text: Option<string>, default: string): string {
    if text.Some? then text.value else default
  }

  function Variable(p: Parameter): Json {
    Object(map[
      "artifactType" := Str("Variable"), "name" := Str(p.name), "scope" := Str(ValueOr(p.scope, "NodeParameter")),
      "type" := Str(ValueOr(p.kind, "System")), "value" := Str(p.value)])
  }

  function Variables(parameters: seq<Parameter>): (r: seq<Json>)
    ensures |r| == |parameters|
    ensures forall i :: 0 <= i < |r| ==> r[i] == Variable(parameters[i])
  {
    seq(|parameters|, i requires 0 <= i < |parameters| => Variable(parameters[i]))
  }

  method MapParameters(parameters: seq<Parameter>) returns (result: seq<Json>)
    ensures result == Variables(parameters)
  {
    result := [];
    for i := 0 to |parameters|
      invariant |result| == i && forall k :: 0 <= k < i ==> result[k] == Variable(parameters[k])
    {
      result := result + [Variable(parameters[i])];
    }
  }

  datatype NodeRequest = NodeRequest(
    name: string,
    scriptContent: string,
    scriptPath: string,
    outputRef: string,
    language: string,
    datasourceName: string,
    cron: string,
    cycleType: string,
    parameters: seq<Parameter>,
    cu: string,
    timezone: string,
    instanceMode: string,
    rerunMode: string,
    rerunTimes: int,
    rerunInterval: int,
    selfDependency: bool,
    autoParse: bool,
    upstreamRefs: seq<string>,
    nodeId: Option<string>)

  datatype Runtime = Runtime(command: string, commandTypeId: int, datasource: Option<string>, language: string)

  function RuntimeOf(language: string): Option<Runtime> {
    if language == "odps-sql" then Some(Runtime("ODPS_SQL", 10, Some("odps"), "odps-sql"))
    else if language == "holo" then Some(Runtime("HOLOGRES_SQL", 1093, Some("holo"), "holo"))
    else if language == "di" then Some(Runtime("DI", 23, None, "json"))
    else None
  }

  function BuiltScript(q: NodeRequest, runtime: Runtime, parameters: seq<Json>): Dict {
    map["path" := Str(q.scriptPath), "language" := Str(runtime.language),
        "runtime" := Object(map["command" := Str(runtime.command), "cu" := Str(q.cu),
                                "commandTypeId" := Num(runtime.commandTypeId)]),
        "content" := Str(q.scriptContent), "parameters" := List(parameters)]
  }

  function BuiltTrigger(q: NodeRequest): Dict {
    map["type" := Str("Scheduler"), "cron" := Str(q.cron), "cycleType" := Str(q.cycleType),
        "startTime" := Str("1970-01-01 00:00:00"), "endTime" := Str("9999-01-01 00:00:00"),
        "timezone" := Str(q.timezone), "delaySeconds" := Num(0)]
  }

  function BuiltFields(q: NodeRequest, runtime: Runtime): Dict {
    map["recurrence" := Str("Normal"), "timeout" := Num(0), "timeoutUnit" := Str("HOURS"),
        "instanceMode" := Str(q.instanceMode), "rerunMode" := Str(q.rerunMode), "rerunTimes" := Num(q.rerunTimes),
        "rerunInterval" := Num(q.rerunInterval), "autoParse" := Bool(q.autoParse),
        "datasource" := if runtime.datasource.Some?
                        then Object(map["name" := Str(q.datasourceName), "type" := Str(runtime.datasource.value)])
                        else Null]
  }

  /** The artifact that names a table, as an output of the node or as an upstream reference. */
  function ArtifactOf(ref: string, sourceType: string): Artifact {
    Artifact(Some(ref), true, map["artifactType" := Str("NodeOutput"), "sourceType" := Str(sourceType),
                                  "refTableName" := Str(ref)])
  }

  function InputsOf(refs: seq<string>): (r: Option<Artifacts>)
    ensures r.Some? <==> refs != []
    ensures r.Some? ==> |r.value.nodeOutputs| == |refs|
    ensures r.Some? ==> forall i :: 0 <= i < |refs| ==> r.value.nodeOutputs[i] == ArtifactOf(refs[i], "Manual")
  {
    if refs == [] then None
    else Some(Artifacts(seq(|refs|, i requires 0 <= i < |refs| => ArtifactOf(refs[i], "Manual")), map[]))
  }

  function NodeOf(q: NodeRequest, runtime: Runtime, parameters: seq<Json>): Node {
    Node(if q.nodeId == Some("") then None else q.nodeId,
         Some(q.name),
         Some(BuiltTrigger(q)),
         Some(BuiltScript(q, runtime, parameters)),
         InputsOf(q.upstreamRefs),
         Some(Artifacts([ArtifactOf(q.outputRef, "System")], map[])),
         BuiltFields(q, runtime))
  }

  function OnSelf(output: string): Depend {
    Depend(ON_SELF, None, output, output)
  }

  function OnTable(ref: string): Depend {
    Depend("Normal", Some("Manual"), ref, ref)
  }

  function OnTables(refs: seq<string>): (r: seq<Depend>)
    ensures |r| == |refs| && forall i :: 0 <= i < |refs| ==> r[i] == OnTable(refs[i])
  {
    seq(|refs|, i requires 0 <= i < |refs| => OnTable(refs[i]))
  }

  function BuiltDepends(q: NodeRequest): seq<Depend> {
    (if q.selfDependency then [OnSelf(q.outputRef)] else []) + OnTables(q.upstreamRefs)
  }

  /** `a or b` on strings */
  function Truthy(text: Option<string>, default: string): string {
    if text.Some? && text.value != "" then text.value else default
  }

  function DocumentOf(q: NodeRequest, runtime: Runtime): Document {
    Document([NodeOf(q, runtime, Variables(q.parameters))],
             if BuiltDepends(q) == [] then None else Some([FlowEntry(Truthy(q.nodeId, q.name), BuiltDepends(q))]),
             map["version" := Str("1.1.0"), "kind" := Str("CycleWorkflow")])
  }

  method BuildNodeFlowspec(q: NodeRequest) returns (spec: Result<Document, string>)
    ensures spec.Ok? <==> RuntimeOf(q.language).Some?
    ensures spec.Ok? ==> spec.value == DocumentOf(q, RuntimeOf(q.language).value)
  {
    var runtime := RuntimeOf(q.language);
    if runtime.None? {
      return Err("unsupported language");
    }
    var parameters := MapParameters(q.parameters);
    var node := NodeOf(q, runtime.value, parameters);
    var depends: seq<Depend> := [];
    if q.selfDependency {
      depends := depends + [OnSelf(q.outputRef)];
    }
    ghost var first := depends;
    for i := 0 to |q.upstreamRefs|
      invariant depends == first + OnTables(q.upstreamRefs[..i])
    {
      assert OnTables(q.upstreamRefs[..i]) + [OnTable(q.upstreamRefs[i])] == OnTables(q.upstreamRefs[..i + 1]);
      depends := depends + [OnTable(q.upstreamRefs[i])];
    }
    assert q.upstreamRefs[..|q.upstreamRefs|] == q.upstreamRefs && depends == BuiltDepends(q);
    spec := Ok(Document([node],
                        if depends != [] then Some([FlowEntry(Truthy(q.nodeId, q.name), depends)]) else None,
                        map["version" := Str("1.1.0"), "kind" := Str("CycleWorkflow")]));
  }

  // ----- inputs and flow -----

  /** The upstream tables a flow names: its dependencies other than the one on the node itself. */
  function Upstreams(depends: seq<Depend>): seq<string> {
    if depends == [] then []
    else (if depends[0].kind == ON_SELF then [] else [depends[0].output]) + Upstreams(depends[1..])
  }

  /** The flow holds one entry and its upstream tables are the inputs of the node. */
  ghost predicate InputsMatchFlow(d: Document) {
    && d.nodes != [] && d.flow.Some? && |d.flow.value| == 1
    && d.nodes[0].inputs == InputsOf(Upstreams(d.flow.value[0].depends))
  }

  lemma {:induction false} UpstreamsOfTables(refs: seq<string>)
    ensures Upstreams(OnTables(refs)) == refs
  {
    if refs != [] {
      assert OnTables(refs)[1..] == OnTables(refs[1..]);
      UpstreamsOfTables(refs[1..]);
      assert refs == [refs[0]] + refs[1..];
    }
  }

  lemma UpstreamsOfBuilt(q: NodeRequest)
    ensures Upstreams(BuiltDepends(q)) == q.upstreamRefs
  {
    UpstreamsOfTables(q.upstreamRefs);
    var depends := BuiltDepends(q);
    if q.selfDependency {
      assert depends[0] == OnSelf(q.outputRef) && depends[1..] == OnTables(q.upstreamRefs);
      assert Upstreams(depends) == [] + Upstreams(depends[1..]);
    } else {
      assert depends == OnTables(q.upstreamRefs);
    }
  }

  /** A built node lists its upstream tables in both places; a node without any dependency gets no flow at all. */
  lemma BuiltInputsMatchFlow(q: NodeRequest, runtime: Runtime)
    ensures InputsMatchFlow(DocumentOf(q, runtime)) <==> q.selfDependency || q.upstreamRefs != []
    ensures DocumentOf(q, runtime).flow == None <==> !q.selfDependency && q.upstreamRefs == []
  {
    UpstreamsOfBuilt(q);
  }
}

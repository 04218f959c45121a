/**
 Editing a stored node (dataworks_agent/api_clients/openapi_node_adapter.py): fetch the spec, change its first
 node and its flow, write it back. store stands for the specs the OpenAPI service holds.
 */
module NodeAdapter {
  import opened Values
  import opened FlowSpec

  /** A dependency of the caller's schedule; kind None stands for the default "Normal". */
  datatype Dependency = Dependency(kind: Option<string>, output: Option<string>, refTableName: Option<string>)

  datatype VertexConfig = VertexConfig(
    trigger: Option<Dict>,
    parameters: Option<seq<Parameter>>,
    strategy: Option<Dict>,
    outputs: Option<Artifacts>,
    dependencies: Option<seq<Dependency>>)

  const STRATEGY_KEYS := ["rerunMode", "rerunTimes", "rerunInterval", "timeout"]

  // ----- the default output -----

  predicate Dotted(a: Artifact) {
    a.data.Some? && '.' in a.data.value
  }

  function FirstDotted(outputs: seq<Artifact>, defaultOnly: bool): (r: Option<string>)
    ensures r.Some? ==> '.' in r.value
    ensures r.Some? <==> exists a :: a in outputs && Dotted(a) && (defaultOnly ==> a.isDefault)
  {
    if outputs == [] then None
    else if Dotted(outputs[0]) && (defaultOnly ==> outputs[0].isDefault) then outputs[0].data
    else FirstDotted(outputs[1..], defaultOnly)
  }

  function OutputsOf(node: Node): seq<Artifact> {
    if node.outputs.Some? then node.outputs.value.nodeOutputs else []
  }

  /** A default output is preferred to any other; an output without a dot never counts. */
  function DefaultOutputRef(node: Node): Option<string> {
    var default := FirstDotted(OutputsOf(node), true);
    if default.Some? then default else FirstDotted(OutputsOf(node), false)
  }

  method FindDefaultOutputRef(node: Node) returns (ref: Option<string>)
    ensures ref == DefaultOutputRef(node)
  {
    var outputs := OutputsOf(node);
    for i := 0 to |outputs|
      invariant FirstDotted(outputs[i..], true) == FirstDotted(outputs, true)
    {
      if outputs[i].isDefault && Dotted(outputs[i]) {
        return outputs[i].data;
      }
    }
    for i := 0 to |outputs|
      invariant FirstDotted(outputs[i..], false) == FirstDotted(outputs, false)
    {
      if Dotted(outputs[i]) {
        return outputs[i].data;
      }
    }
    ref := None;
  }

  /** The default reference among the outputs, or the fallback. */
  function RefAmong(outputs: Option<Artifacts>, fallback: string): string {
    var list := if outputs.Some? then outputs.value.nodeOutputs else [];
    var default := FirstDotted(list, true);
    if default.Some? then default.value
    else if FirstDotted(list, false).Some? then FirstDotted(list, false).value
    else fallback
  }

  /** The reference a dependency on the node itself is written with. */
  function SelfRef(node: Node, project: string, uuid: string): string {
    var default := DefaultOutputRef(node);
    if default.Some? then default.value else project + "." + ValueOr(node.name, uuid)
  }

  // ----- the edits -----

  function Keyed(script: Option<Dict>, key: string, value: Json): Dict {
    (if script.Some? then script.value else map[])[key := value]
  }

  function WithContent(node: Node, content: string): Node {
    node.(script := Some(Keyed(node.script, "content", Str(content))))
  }

  function Merged(base: Option<Dict>, update: Option<Dict>): Option<Dict> {
    if update.None? then base else if base.None? then update else Some(base.value + update.value)
  }

  function Among(strategy: Dict, keys: seq<string>): Dict {
    map k | k in strategy && k in keys :: strategy[k]
  }

  /** The part of the strategy that reaches the node. */
  function Strategy(strategy: Option<Dict>): Dict {
    if strategy.None? then map[] else Among(strategy.value, STRATEGY_KEYS)
  }

  function EditedNode(node: Node, c: VertexConfig, instanceMode: string): Node {
    node.(trigger := Merged(node.trigger, c.trigger),
          script := if c.parameters.Some?
                    then Some(Keyed(node.script, "parameters", List(Variables(c.parameters.value)))) else node.script,
          fields := node.fields["instanceMode" := Str(instanceMode)] + Strategy(c.strategy),
          outputs := if c.outputs.Some? then c.outputs else node.outputs)
  }

  /** A dependency on another table is dropped when it names none. */
  function DependOf(d: Dependency, selfRef: string): seq<Depend> {
    if d.kind == Some(ON_SELF) then [OnSelf(selfRef)]
    else
      var ref := Truthy(d.output, ValueOr(d.refTableName, ""));
      if ref != "" then [OnTable(ref)] else []
  }

  function Depends(deps: seq<Dependency>, selfRef: string): seq<Depend> {
    if deps == [] then [] else DependOf(deps[0], selfRef) + Depends(deps[1..], selfRef)
  }

  function EditContent(d: Document, content: string): Document
    requires d.nodes != []
  {
    d.(nodes := d.nodes[0 := WithContent(d.nodes[0], content)])
  }

  function EditedFlow(node: Node, project: string, uuid: string, deps: seq<Dependency>): seq<FlowEntry> {
    [FlowEntry(Truthy(node.id, uuid), Depends(deps, SelfRef(node, project, uuid)))]
  }

  function EditVertex(d: Document, project: string, uuid: string, c: VertexConfig, instanceMode: string): Document
    requires d.nodes != []
  {
    var node := EditedNode(d.nodes[0], c, instanceMode);
    d.(nodes := d.nodes[0 := node],
       flow := if c.dependencies.Some? then Some(EditedFlow(node, project, uuid, c.dependencies.value)) else d.flow)
  }

  lemma AmongOneMore(fields: Dict, strategy: Dict, keys: seq<string>, key: string)
    ensures fields + Among(strategy, keys + [key])
         == if key in strategy then (fields + Among(strategy, keys))[key := strategy[key]]
            else fields + Among(strategy, keys)
  {
  }

  method CopyKeys(fields: Dict, strategy: Dict, keys: seq<string>) returns (r: Dict)
    ensures r == fields + Among(strategy, keys)
  {
    r := fields;
    for i := 0 to |keys|
      invariant r == fields + Among(strategy, keys[..i])
    {
      AmongOneMore(fields, strategy, keys[..i], keys[i]);
      assert keys[..i] + [keys[i]] == keys[..i + 1];
      if keys[i] in strategy {
        r := r[keys[i] := strategy[keys[i]]];
      }
    }
    assert keys[..|keys|] == keys;
  }

  method ConfiguredNode(first: Node, config: VertexConfig, instanceMode: string) returns (node: Node)
    ensures node == EditedNode(first, config, instanceMode)
  {
    node := first.(fields := first.fields["instanceMode" := Str(instanceMode)]);
    if config.trigger.Some? {
      var trigger := if node.trigger.Some? then node.trigger.value else map[];
      node := node.(trigger := Some(trigger + config.trigger.value));
    }
    if config.parameters.Some? {
      node := node.(script := Some(Keyed(node.script, "parameters", List(Variables(config.parameters.value)))));
    }
    if config.strategy.Some? {
      var fields := CopyKeys(node.fields, config.strategy.value, STRATEGY_KEYS);
      node := node.(fields := fields);
    }
    if config.outputs.Some? {
      node := node.(outputs := config.outputs);
    }
    assert forall d: Dict :: map[] + d == d && d + map[] == d;
  }

  lemma DependsStep(depends: seq<Depend>, deps: seq<Dependency>, selfRef: string)
    requires deps != []
    ensures depends + Depends(deps, selfRef) == depends + DependOf(deps[0], selfRef) + Depends(deps[1..], selfRef)
  {
  }

  method CollectDepends(deps: seq<Dependency>, selfRef: string) returns (depends: seq<Depend>)
    ensures depends == Depends(deps, selfRef)
  {
    depends := [];
    for i := 0 to |deps|
      invariant depends + Depends(deps[i..], selfRef) == Depends(deps, selfRef)
    {
      assert deps[i..][1..] == deps[i + 1..];
      DependsStep(depends, deps[i..], selfRef);
      if deps[i].kind == Some(ON_SELF) {
        depends := depends + [OnSelf(selfRef)];
      } else {
        var ref := Truthy(deps[i].output, ValueOr(deps[i].refTableName, ""));
        if ref != "" {
          depends := depends + [OnTable(ref)];
        }
      }
    }
  }

  class OpenAPINodeAdapter {
    const project: string
    var store: map<string, Document>
    var lastError: Option<string>

    constructor (project: string, store: map<string, Document>)
      ensures this.project == project && this.store == store && lastError == None
    {
      this.project, this.store, lastError := project, store, None;
    }

    /** A fault is an error of the service, or a stored text that is not a spec. */
    method LoadSpec(uuid: string, fault: Option<string>) returns (spec: Option<Document>)
      modifies this`lastError
      ensures spec.Some? <==> fault.None? && uuid in store
      ensures spec.Some? ==> spec.value == store[uuid] && lastError == old(lastError)
      ensures spec.None? ==> lastError.Some?
    {
      if fault.Some? {
        lastError := fault;
        return None;
      }
      if uuid !in store {
        lastError := Some("no spec");
        return None;
      }
      spec := Some(store[uuid]);
    }

    method SaveSpec(uuid: string, spec: Document, fault: Option<string>) returns (ok: bool)
      modifies this`store, this`lastError
      ensures ok <==> fault.None?
      ensures ok ==> store == old(store)[uuid := spec] && lastError == old(lastError)
      ensures !ok ==> store == old(store) && lastError == fault
    {
      if fault.Some? {
        lastError := fault;
        return false;
      }
      store := store[uuid := spec];
      ok := true;
    }

    /** Succeeds exactly when there is a first node to edit and the service answers; then one spec changes. */
    method UpdateNode(uuid: string, content: string, loadFault: Option<string>, saveFault: Option<string>)
      returns (ok: bool)
      modifies this`store, this`lastError
      ensures ok <==> loadFault.None? && saveFault.None? && uuid in old(store) && old(store)[uuid].nodes != []
      ensures ok ==> store == old(store)[uuid := EditContent(old(store)[uuid], content)]
      ensures ok ==> lastError == old(lastError)
      ensures !ok ==> store == old(store) && lastError.Some?
    {
      var spec := LoadSpec(uuid, loadFault);
      if spec.None? {
        return false;
      }
      if spec.value.nodes == [] {
        lastError := Some("no nodes");
        return false;
      }
      ok := SaveSpec(uuid, EditContent(spec.value, content), saveFault);
    }

    method UpdateVertex(uuid: string, config: VertexConfig, instanceMode: string, loadFault: Option<string>,
                        saveFault: Option<string>)
      returns (ok: bool)
      modifies this`store, this`lastError
      ensures ok <==> loadFault.None? && saveFault.None? && uuid in old(store) && old(store)[uuid].nodes != []
      ensures ok ==> store == old(store)[uuid := EditVertex(old(store)[uuid], project, uuid, config, instanceMode)]
      ensures ok ==> lastError == old(lastError)
      ensures !ok ==> store == old(store) && lastError.Some?
    {
      var loaded := LoadSpec(uuid, loadFault);
      if loaded.None? {
        return false;
      }
      var spec := loaded.value;
      if spec.nodes == [] {
        lastError := Some("no nodes");
        return false;
      }
      var node := ConfiguredNode(spec.nodes[0], config, instanceMode);
      spec := spec.(nodes := spec.nodes[0 := node]);
      if config.dependencies.Some? {
        var default := FindDefaultOutputRef(node);
        var selfRef := Truthy(default, project + "." + ValueOr(node.name, uuid));
        var depends := CollectDepends(config.dependencies.value, selfRef);
        spec := spec.(flow := Some([FlowEntry(Truthy(node.id, uuid), depends)]));
      }
      ok := SaveSpec(uuid, spec, saveFault);
    }
  }

  // ----- editing against building -----

  function NormalDependency(ref: string): Dependency {
    Dependency(None, Some(ref), None)
  }

  function NormalDependencies(refs: seq<string>): (r: seq<Dependency>)
    ensures |r| == |refs| && forall i :: 0 <= i < |refs| ==> r[i] == NormalDependency(refs[i])
  {
    seq(|refs|, i requires 0 <= i < |refs| => NormalDependency(refs[i]))
  }

  /** The dependencies of the request, the one on the node itself given at position k. */
  function DependenciesOf(q: NodeRequest, k: nat): seq<Dependency>
    requires k <= |q.upstreamRefs|
  {
    NormalDependencies(q.upstreamRefs[..k])
    + (if q.selfDependency then [Dependency(Some(ON_SELF), None, None)] else [])
    + NormalDependencies(q.upstreamRefs[k..])
  }

  function NonEmpty(refs: seq<string>): (r: seq<string>)
    ensures |r| <= |refs|
    ensures "" !in refs ==> r == refs
    ensures "" in refs ==> |r| < |refs|
  {
    if refs == [] then [] else if refs[0] != "" then [refs[0]] + NonEmpty(refs[1..]) else NonEmpty(refs[1..])
  }

  lemma {:induction false} DependsJoin(a: seq<Dependency>, b: seq<Dependency>, selfRef: string)
    ensures Depends(a + b, selfRef) == Depends(a, selfRef) + Depends(b, selfRef)
  {
    if a == [] {
      assert a + b == b;
    } else {
      assert (a + b)[1..] == a[1..] + b;
      DependsJoin(a[1..], b, selfRef);
    }
  }

  lemma NormalDependenciesCons(refs: seq<string>)
    requires refs != []
    ensures NormalDependencies(refs)[0] == NormalDependency(refs[0])
    ensures NormalDependencies(refs)[1..] == NormalDependencies(refs[1..])
  {
  }

  lemma OnTablesCons(ref: string, refs: seq<string>)
    ensures OnTables([ref] + refs) == [OnTable(ref)] + OnTables(refs)
  {
  }

  lemma {:induction false} DependsOfNormal(refs: seq<string>, selfRef: string)
    ensures Depends(NormalDependencies(refs), selfRef) == OnTables(NonEmpty(refs))
  {
    if refs != [] {
      NormalDependenciesCons(refs);
      DependsOfNormal(refs[1..], selfRef);
      if refs[0] != "" {
        OnTablesCons(refs[0], NonEmpty(refs[1..]));
      } else {
        assert [] + OnTables(NonEmpty(refs[1..])) == OnTables(NonEmpty(refs[1..]));
      }
    }
  }

  lemma DependsOfRequest(q: NodeRequest, k: nat, selfRef: string)
    requires k <= |q.upstreamRefs|
    ensures Depends(DependenciesOf(q, k), selfRef)
         == OnTables(NonEmpty(q.upstreamRefs[..k])) + (if q.selfDependency then [OnSelf(selfRef)] else [])
            + OnTables(NonEmpty(q.upstreamRefs[k..]))
  {
    var a, b := NormalDependencies(q.upstreamRefs[..k]), NormalDependencies(q.upstreamRefs[k..]);
    var own := if q.selfDependency then [Dependency(Some(ON_SELF), None, None)] else [];
    DependsJoin(a + own, b, selfRef);
    DependsJoin(a, own, selfRef);
    DependsOfNormal(q.upstreamRefs[..k], selfRef);
    DependsOfNormal(q.upstreamRefs[k..], selfRef);
    assert Depends(own, selfRef) == if q.selfDependency then [OnSelf(selfRef)] else [];
  }

  lemma SelfBetweenTables(a: seq<string>, b: seq<string>, refs: seq<string>, selfRef: string, outputRef: string)
    ensures OnTables(a) + [OnSelf(selfRef)] + OnTables(b) == [OnSelf(outputRef)] + OnTables(refs)
            <==> a == [] && b == refs && selfRef == outputRef
  {
    var left, right := OnTables(a) + [OnSelf(selfRef)] + OnTables(b), [OnSelf(outputRef)] + OnTables(refs);
    assert right[0] == OnSelf(outputRef) && right[1..] == OnTables(refs);
    if a != [] {
      assert left[0] == OnTable(a[0]);
    } else {
      assert left[0] == OnSelf(selfRef) && left[1..] == OnTables(b);
      OnTablesInjective(b, refs);
    }
  }

  lemma OnTablesInjective(a: seq<string>, b: seq<string>)
    ensures OnTables(a) == OnTables(b) <==> a == b
  {
    if OnTables(a) == OnTables(b) {
      assert |a| == |OnTables(a)| && |b| == |OnTables(b)|;
      forall i | 0 <= i < |a| ensures a[i] == b[i] {
        assert OnTables(a)[i] == OnTable(a[i]) && OnTables(b)[i] == OnTable(b[i]);
      }
    }
  }

  lemma NonEmptyParts(refs: seq<string>, k: nat)
    requires k <= |refs|
    ensures NonEmpty(refs[..k]) == [] && NonEmpty(refs[k..]) == refs <==> k == 0 && "" !in refs
  {
    if k == 0 {
      assert refs[..k] == [] && refs[k..] == refs;
    } else {
      assert |NonEmpty(refs[k..])| <= |refs| - k;
    }
  }

  /** Dropping empty references and moving the dependency on the node itself never go unnoticed. */
  lemma SplitMatchesIff(refs: seq<string>, k: nat, selfRef: string, outputRef: string)
    requires k <= |refs|
    ensures (OnTables(NonEmpty(refs[..k])) + [OnSelf(selfRef)] + OnTables(NonEmpty(refs[k..]))
             == [OnSelf(outputRef)] + OnTables(refs))
            <==> k == 0 && selfRef == outputRef && "" !in refs
  {
    SelfBetweenTables(NonEmpty(refs[..k]), NonEmpty(refs[k..]), refs, selfRef, outputRef);
    NonEmptyParts(refs, k);
  }

  lemma JoinMatchesIff(refs: seq<string>, k: nat)
    requires k <= |refs|
    ensures OnTables(NonEmpty(refs[..k])) + [] + OnTables(NonEmpty(refs[k..])) == [] + OnTables(refs)
            <==> "" !in refs
  {
    assert refs == refs[..k] + refs[k..];
  }

  lemma SelfRefOfBuilt(q: NodeRequest, runtime: Runtime, parameters: seq<Json>, project: string, uuid: string)
    ensures SelfRef(NodeOf(q, runtime, parameters), project, uuid) == q.outputRef <==> '.' in q.outputRef
  {
    var node := NodeOf(q, runtime, parameters);
    assert OutputsOf(node) == [ArtifactOf(q.outputRef, "System")];
    assert FirstDotted([], true) == None;
    if '.' !in q.outputRef {
      assert '.' in project + "." + q.name;
    }
  }

  /**
   Giving a built node its own dependencies again by an edit leaves its flow as built exactly when there is a
   dependency, the entry names the node alike (it has an id, or is stored under its name), no reference is empty,
   and a dependency on the node itself comes first and refers to an output with a dot.
   */
  lemma EditMatchesBuildIff(q: NodeRequest, runtime: Runtime, project: string, uuid: string, c: VertexConfig,
                            instanceMode: string, k: nat)
    requires k <= |q.upstreamRefs|
    requires c.outputs.None? && c.dependencies == Some(DependenciesOf(q, k))
    ensures EditVertex(DocumentOf(q, runtime), project, uuid, c, instanceMode).flow == DocumentOf(q, runtime).flow
            <==> && (q.selfDependency || q.upstreamRefs != [])
                 && (Truthy(q.nodeId, "") != "" || q.name == uuid)
                 && "" !in q.upstreamRefs
                 && (q.selfDependency ==> k == 0 && '.' in q.outputRef)
  {
    var built := NodeOf(q, runtime, Variables(q.parameters));
    var node := EditedNode(built, c, instanceMode);
    var selfRef := SelfRef(node, project, uuid);
    assert selfRef == SelfRef(built, project, uuid);
    SelfRefOfBuilt(q, runtime, Variables(q.parameters), project, uuid);
    DependsOfRequest(q, k, selfRef);
    if q.selfDependency {
      SplitMatchesIff(q.upstreamRefs, k, selfRef, q.outputRef);
    } else {
      JoinMatchesIff(q.upstreamRefs, k);
    }
  }

  // ----- edits one after another -----

  function Later<T>(first: Option<T>, second: Option<T>): Option<T> {
    if second.Some? then second else first
  }

  /** One configuration for two edits in a row. */
  function Combined(a: VertexConfig, b: VertexConfig): VertexConfig {
    VertexConfig(Merged(a.trigger, b.trigger), Later(a.parameters, b.parameters), Merged(a.strategy, b.strategy),
                 Later(a.outputs, b.outputs), Later(a.dependencies, b.dependencies))
  }

  lemma StrategyLeavesInstanceMode(strategy: Option<Dict>)
    ensures "instanceMode" !in Strategy(strategy)
  {
    assert forall i :: 0 <= i < |STRATEGY_KEYS| ==> STRATEGY_KEYS[i][0] != 'i';
    assert "instanceMode"[0] == 'i';
  }

  lemma MergedTwice(base: Option<Dict>, a: Option<Dict>, b: Option<Dict>)
    ensures Merged(Merged(base, a), b) == Merged(base, Merged(a, b))
    ensures Merged(a, a) == a
  {
    if base.Some? && a.Some? && b.Some? {
      assert base.value + a.value + b.value == base.value + (a.value + b.value);
    }
    if a.Some? {
      assert a.value + a.value == a.value;
    }
  }

  lemma StrategyOfMerged(a: Option<Dict>, b: Option<Dict>)
    ensures Strategy(Merged(a, b)) == Strategy(a) + Strategy(b)
  {
    if a.Some? && b.Some? {
      AmongOfUnion(a.value, b.value, STRATEGY_KEYS);
    }
  }

  lemma AmongOfUnion(a: Dict, b: Dict, keys: seq<string>)
    ensures Among(a + b, keys) == Among(a, keys) + Among(b, keys)
  {
  }

  lemma FieldsCombine(fields: Dict, m: Json, n: Json, a: Dict, b: Dict)
    requires "instanceMode" !in a
    ensures (fields["instanceMode" := m] + a)["instanceMode" := n] + b == fields["instanceMode" := n] + (a + b)
  {
  }

  lemma KeyedTwice(script: Option<Dict>, key: string, v: Json, w: Json)
    ensures Keyed(Some(Keyed(script, key, v)), key, w) == Keyed(script, key, w)
  {
  }

  lemma KeyedCommute(script: Option<Dict>, key: string, v: Json, other: string, w: Json)
    requires key != other
    ensures Keyed(Some(Keyed(script, key, v)), other, w) == Keyed(Some(Keyed(script, other, w)), key, v)
  {
  }

  lemma NodeEditsCombine(node: Node, a: VertexConfig, b: VertexConfig, m: string, n: string)
    ensures EditedNode(EditedNode(node, a, m), b, n) == EditedNode(node, Combined(a, b), n)
  {
    StrategyLeavesInstanceMode(a.strategy);
    var twice, once := EditedNode(EditedNode(node, a, m), b, n), EditedNode(node, Combined(a, b), n);
    MergedTwice(node.trigger, a.trigger, b.trigger);
    StrategyOfMerged(a.strategy, b.strategy);
    FieldsCombine(node.fields, Str(m), Str(n), Strategy(a.strategy), Strategy(b.strategy));
    if a.parameters.Some? && b.parameters.Some? {
      KeyedTwice(node.script, "parameters", List(Variables(a.parameters.value)), List(Variables(b.parameters.value)));
    }
  }

  ghost predicate HasSelf(deps: seq<Dependency>) {
    exists d :: d in deps && d.kind == Some(ON_SELF)
  }

  lemma {:induction false} DependsDifferIff(deps: seq<Dependency>, r: string, s: string)
    ensures Depends(deps, r) == Depends(deps, s) <==> r == s || !HasSelf(deps)
    ensures |Depends(deps, r)| == |Depends(deps, s)|
  {
    if deps != [] {
      DependsDifferIff(deps[1..], r, s);
      assert HasSelf(deps) <==> deps[0].kind == Some(ON_SELF) || HasSelf(deps[1..]);
      if deps[0].kind == Some(ON_SELF) {
        assert Depends(deps, r)[0] == OnSelf(r) && Depends(deps, s)[0] == OnSelf(s);
      } else {
        var head := DependOf(deps[0], r);
        assert Depends(deps, r)[|head|..] == Depends(deps[1..], r);
        assert Depends(deps, s)[|head|..] == Depends(deps[1..], s);
      }
    }
  }

  /**
   Two edits in a row do what one edit with the combined configuration does, except when the first writes a
   dependency on the node itself and the second, without dependencies of its own, replaces the outputs by some with
   another default reference.
   */
  lemma EditsCombineIff(d: Document, project: string, uuid: string, a: VertexConfig, b: VertexConfig, m: string,
                        n: string)
    requires d.nodes != []
    ensures (EditVertex(EditVertex(d, project, uuid, a, m), project, uuid, b, n)
             == EditVertex(d, project, uuid, Combined(a, b), n))
            <==> || b.dependencies.Some? || a.dependencies.None? || !HasSelf(a.dependencies.value)
                 || b.outputs.None?
                 || (var fallback := project + "." + ValueOr(d.nodes[0].name, uuid);
                     RefAmong(Later(d.nodes[0].outputs, a.outputs), fallback) == RefAmong(b.outputs, fallback))
  {
    NodeEditsCombine(d.nodes[0], a, b, m, n);
    var first, last := EditedNode(d.nodes[0], a, m), EditedNode(d.nodes[0], Combined(a, b), n);
    var twice := EditVertex(EditVertex(d, project, uuid, a, m), project, uuid, b, n);
    var once := EditVertex(d, project, uuid, Combined(a, b), n);
    assert twice.nodes == once.nodes;
    if b.dependencies.None? && a.dependencies.Some? {
      var deps := a.dependencies.value;
      DependsDifferIff(deps, SelfRef(first, project, uuid), SelfRef(last, project, uuid));
      assert twice.flow == Some(EditedFlow(first, project, uuid, deps));
      assert once.flow == Some(EditedFlow(last, project, uuid, deps));
    }
  }

  lemma EditIsIdempotent(d: Document, project: string, uuid: string, c: VertexConfig, m: string)
    requires d.nodes != []
    ensures EditVertex(EditVertex(d, project, uuid, c, m), project, uuid, c, m) == EditVertex(d, project, uuid, c, m)
  {
    EditsCombineIff(d, project, uuid, c, c, m, m);
    NodeEditsCombine(d.nodes[0], c, c, m, m);
    MergedTwice(None, c.trigger, c.trigger);
    MergedTwice(None, c.strategy, c.strategy);
    assert Combined(c, c) == c;
  }

  lemma EditsCommute(d: Document, project: string, uuid: string, c: VertexConfig, m: string, content: string)
    requires d.nodes != []
    ensures EditContent(EditVertex(d, project, uuid, c, m), content)
         == EditVertex(EditContent(d, content), project, uuid, c, m)
  {
    var node := d.nodes[0];
    assert "content"[0] != "parameters"[0];
    if c.parameters.Some? {
      KeyedCommute(node.script, "content", Str(content), "parameters", List(Variables(c.parameters.value)));
    }
  }

  /** The first node keeps its name, its id and its inputs, and every key the configuration does not reach. */
  lemma EditTouchesOnly(d: Document, project: string, uuid: string, c: VertexConfig, m: string, key: string)
    requires d.nodes != []
    ensures var e := EditVertex(d, project, uuid, c, m);
            && |e.nodes| == |d.nodes| && e.nodes[1..] == d.nodes[1..] && e.rest == d.rest
            && e.nodes[0].id == d.nodes[0].id && e.nodes[0].name == d.nodes[0].name
            && e.nodes[0].inputs == d.nodes[0].inputs
            && (key != "instanceMode" && key !in STRATEGY_KEYS ==>
                  (key in e.nodes[0].fields <==> key in d.nodes[0].fields)
                  && (key in d.nodes[0].fields ==> e.nodes[0].fields[key] == d.nodes[0].fields[key]))
  {
  }

  /** The tables a configuration names: the non-empty references of its dependencies other than on the node itself. */
  function References(deps: seq<Dependency>): seq<string> {
    if deps == [] then []
    else
      var ref := Truthy(deps[0].output, ValueOr(deps[0].refTableName, ""));
      (if deps[0].kind == Some(ON_SELF) || ref == "" then [] else [ref]) + References(deps[1..])
  }

  lemma {:induction false} UpstreamsOfDepends(deps: seq<Dependency>, selfRef: string)
    ensures Upstreams(Depends(deps, selfRef)) == References(deps)
  {
    if deps != [] {
      UpstreamsOfDepends(deps[1..], selfRef);
      var head, rest := DependOf(deps[0], selfRef), Depends(deps[1..], selfRef);
      if head == [] {
        assert head + rest == rest;
      } else {
        assert (head + rest)[0] == head[0] && (head + rest)[1..] == rest;
      }
    }
  }

  /**
   Editing the dependencies rewrites the flow but not the inputs of the node: when the two agreed before, they
   agree afterwards exactly when the configuration names the tables the flow named, in the same order.
   */
  lemma EditedInputsMatchIff(d: Document, project: string, uuid: string, c: VertexConfig, m: string)
    requires InputsMatchFlow(d) && c.dependencies.Some?
    ensures InputsMatchFlow(EditVertex(d, project, uuid, c, m))
            <==> References(c.dependencies.value) == Upstreams(d.flow.value[0].depends)
  {
    UpstreamsOfDepends(c.dependencies.value, SelfRef(EditedNode(d.nodes[0], c, m), project, uuid));
    InputsInjective(References(c.dependencies.value), Upstreams(d.flow.value[0].depends));
  }

  lemma InputsInjective(a: seq<string>, b: seq<string>)
    ensures InputsOf(a) == InputsOf(b) <==> a == b
  {
    if InputsOf(a) == InputsOf(b) {
      assert |a| == |b|;
      forall i | 0 <= i < |a|
        ensures a[i] == b[i]
      {
        assert InputsOf(a).value.nodeOutputs[i] == ArtifactOf(a[i], "Manual");
        assert InputsOf(b).value.nodeOutputs[i] == ArtifactOf(b[i], "Manual");
      }
    }
  }

  // ----- what an edit sets -----

  /** What a dictionary with updates holds under a key: the update, or what was there. */
  predicate Updated(before: Option<Dict>, update: Dict, after: Option<Dict>, key: string) {
    && after.Some?
    && (key in update ==> key in after.value && after.value[key] == update[key])
    && (key !in update ==>
          (key in after.value <==> before.Some? && key in before.value)
          && (key in after.value ==> after.value[key] == before.value[key]))
  }

  /** An edit of the schedule writes what the configuration gives, key by key, and keeps what it does not give. */
  lemma EditSets(d: Document, project: string, uuid: string, c: VertexConfig, m: string, key: string)
    requires d.nodes != []
    ensures var before, after := d.nodes[0], EditVertex(d, project, uuid, c, m).nodes[0];
            && (c.trigger.Some? ==> Updated(before.trigger, c.trigger.value, after.trigger, key))
            && (c.trigger.None? ==> after.trigger == before.trigger)
            && (c.parameters.Some? ==>
                  Updated(before.script, map["parameters" := List(Variables(c.parameters.value))], after.script, key))
            && (c.parameters.None? ==> after.script == before.script)
            && "instanceMode" in after.fields && after.fields["instanceMode"] == Str(m)
            && (c.strategy.Some? && key in c.strategy.value
                && key in {"rerunMode", "rerunTimes", "rerunInterval", "timeout"} ==>
                  key in after.fields && after.fields[key] == c.strategy.value[key])
            && after.outputs == if c.outputs.Some? then c.outputs else before.outputs
  {
    StrategyKeys("instanceMode");
    StrategyKeys(key);
  }

  lemma StrategyKeys(key: string)
    ensures key in STRATEGY_KEYS <==> key in {"rerunMode", "rerunTimes", "rerunInterval", "timeout"}
    ensures "instanceMode" !in STRATEGY_KEYS
  {
    assert "instanceMode"[0] == 'i' && "rerunMode"[0] == 'r' && "rerunTimes"[0] == 'r';
    assert "rerunInterval"[0] == 'r' && "timeout"[0] == 't';
  }

  /** An edit of the content writes the content and nothing else. */
  lemma ContentEditSets(d: Document, content: string, key: string)
    requires d.nodes != []
    ensures var before, after := d.nodes[0], EditContent(d, content).nodes[0];
            && Updated(before.script, map["content" := Str(content)], after.script, key)
            && after == before.(script := after.script)
            && EditContent(d, content) == d.(nodes := [after] + d.nodes[1..])
  {
  }
}

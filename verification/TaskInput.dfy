/** What a task instance is submitted with, and how it renders (swale/src/input.rs). */
module TaskInput {
  import opened Wrappers
  import opened Json
  import opened Records
  import opened Graphs
  import opened Readiness
  import opened Templates
  import opened Params
  import opened GraphCheck
  import Store
  import Interleaving
  import InterleavingTheorems

  datatype UpstreamSummary = UpstreamSummary(status: RecordStatus, error: Option<string>)

  datatype TaskInput = TaskInput(
    operator: Name,
    params: Value,
    inputs: map<Name, Value>,
    upstreams: map<Name, UpstreamSummary>,
    state: Option<Value>,
    each: Option<string>,
    item: Option<Value>)

  /** What rendering takes from the identity of the run and from the process; the
      summary, the JSON text and the JSON parser are library code. */
  datatype Environment = Environment(
    partition: string,
    runId: string,
    summarize: map<Name, UpstreamSummary> -> string,
    env: map<string, string>,
    json: Value -> string,
    parseJson: string -> Option<Value>)

  /** The output of every succeeded upstream record, null when it was omitted. */
  function Outputs(records: NodeRecords): map<Name, Value> {
    map n | n in records && records[n].status == Succeeded ::
      if records[n].output.Some? then records[n].output.value else Null
  }

  function Summaries(records: NodeRecords): map<Name, UpstreamSummary> {
    map n | n in records :: UpstreamSummary(records[n].status, records[n].error)
  }

  function InputOf(node: Node, records: NodeRecords): TaskInput {
    TaskInput(node.spec.operator, node.spec.params, Outputs(records), Summaries(records), None, node.spec.each, None)
  }

  /** The input of `node`, built record by record. */
  method NewInput(node: Node, records: NodeRecords) returns (input: TaskInput)
    ensures input == InputOf(node, records)
  {
    var inputs: map<Name, Value> := map[];
    var upstreams: map<Name, UpstreamSummary> := map[];
    var todo := records.Keys;
    ghost var done: NodeRecords := map[];
    while todo != {}
      invariant done.Keys == records.Keys - todo && todo <= records.Keys
      invariant forall n :: n in done ==> done[n] == records[n]
      invariant inputs == Outputs(done) && upstreams == Summaries(done)
      decreases todo
    {
      var name :| name in todo;
      var record := records[name];
      if record.status == Succeeded {
        inputs := inputs[name := if record.output.Some? then record.output.value else Null];
      }
      upstreams := upstreams[name := UpstreamSummary(record.status, record.error)];
      done := done[name := record];
      todo := todo - {name};
    }
    assert done == records;
    input := TaskInput(node.spec.operator, node.spec.params, inputs, upstreams, None, node.spec.each, None);
  }

  /** `inputs` keeps exactly the referred outputs of `input`. */
  ghost predicate IsSlice(input: TaskInput, inputs: map<Name, Value>) {
    && inputs.Keys <= input.inputs.Keys
    && (forall n :: n in inputs ==> inputs[n] == input.inputs[n])
    && (forall n :: n in input.inputs ==> (n in inputs <==> Refers(input.params, n)))
  }

  /** What the member for `item` is submitted with: a slice of `input`, the item, and
      no state or items template. */
  method Member(input: TaskInput, item: Value) returns (member: TaskInput)
    ensures IsSlice(input, member.inputs)
    ensures member == input.(inputs := member.inputs, state := None, each := None, item := Some(item))
  {
    var referred := ReferredUpstreams(input.params, {});
    var inputs := map n | n in input.inputs && n in referred :: input.inputs[n];
    member := input.(inputs := inputs, state := None, each := None, item := Some(item));
  }

  function ContextOf(input: TaskInput, e: Environment, item: Option<Value>): Context {
    Context(e.partition, e.runId, e.summarize(input.upstreams), input.inputs, e.env, item, e.json)
  }

  /** The parameter tree of `input`, rendered in its own context. */
  function RenderedParams(input: TaskInput, e: Environment): Result<Value, RenderError> {
    RenderValue(input.params, ContextOf(input, e, input.item))
  }

  datatype ItemsError = InvalidRender(error: RenderError) | NotAnArray

  /** The rendered items template, read as a JSON array. */
  function RenderedItems(input: TaskInput, e: Environment): Result<seq<Value>, ItemsError> {
    if input.each == None then Ok([])
    else
      match RenderText(input.each.value, ContextOf(input, e, None))
      case Err(error) => Err(InvalidRender(error))
      case Ok(t) =>
        match e.parseJson(t)
        case Some(Array(items)) => Ok(items)
        case _ => Err(NotAnArray)
  }

  // ---- Slicing is transparent ----

  lemma SliceAgrees(input: TaskInput, sliced: TaskInput, e: Environment, item: Option<Value>)
    requires IsSlice(input, sliced.inputs) && sliced.upstreams == input.upstreams
    ensures SameFor(ContextOf(input, e, item), ContextOf(sliced, e, item), LeafNodes(input.params))
  {
  }

  /** A member renders its parameters, or fails, as it would with every output. */
  lemma SlicingIsTransparent(input: TaskInput, member: TaskInput, e: Environment, item: Value)
    requires IsSlice(input, member.inputs)
    requires member == input.(inputs := member.inputs, state := None, each := None, item := Some(item))
    ensures RenderedParams(member, e) == RenderedParams(input.(item := Some(item)), e)
  {
    var whole := input.(item := Some(item));
    SliceAgrees(whole, member, e, Some(item));
    RenderReadsReferred(input.params, ContextOf(whole, e, Some(item)), ContextOf(member, e, Some(item)),
                        LeafNodes(input.params));
  }

  /** An output that the parameters do not refer to does not reach a member. */
  lemma SliceIsDetermined(input: TaskInput, other: TaskInput, a: map<Name, Value>, b: map<Name, Value>)
    requires IsSlice(input, a) && IsSlice(other, b) && other == input.(inputs := other.inputs)
    requires forall n :: Refers(input.params, n) ==>
               (n in input.inputs <==> n in other.inputs)
               && (n in input.inputs ==> input.inputs[n] == other.inputs[n])
    ensures a == b
  {
    forall n
      ensures n in a <==> n in b
      ensures n in a ==> a[n] == b[n]
    {
      assert Refers(input.params, n) || !Refers(input.params, n);
    }
  }

  // ---- The checks at load time are sound at run time ----

  lemma ReadyHasOutputs(node: Node, records: NodeRecords)
    requires node.Rule() == AllSucceeded && IsReady(node, records)
    ensures node.upstreams <= Outputs(records).Keys
  {
  }

  /** The parameters of a ready all-succeeded node: no upstream output is missing,
      and the item is missing in no node. */
  lemma ReadyParamsRender(node: Node, records: NodeRecords, e: Environment)
    requires HasCheckedTemplates(node) && node.Rule() == AllSucceeded && IsReady(node, records)
    requires node.spec.each == None
    ensures var r := RenderedParams(InputOf(node, records), e); r.Err? ==> IsDataError(r.error)
  {
    ReadyHasOutputs(node, records);
    CheckedTreeErrors(node.spec.params, node.upstreams, false, ContextOf(InputOf(node, records), e, None));
  }

  /** The items of a ready all-succeeded mapped node. */
  lemma ReadyItemsRender(node: Node, records: NodeRecords, e: Environment)
    requires HasCheckedTemplates(node) && node.Rule() == AllSucceeded && IsReady(node, records)
    ensures var r := RenderedItems(InputOf(node, records), e);
            r.Err? && r.error.InvalidRender? ==> IsDataError(r.error.error)
  {
    ReadyHasOutputs(node, records);
    if node.spec.each.Some? {
      CheckedTemplateErrors(ParseFrom(node.spec.each.value, 0).value, ContextOf(InputOf(node, records), e, None));
    }
  }

  /** The parameters of a member of a ready all-succeeded mapped node. */
  lemma ReadyMemberRenders(node: Node, records: NodeRecords, member: TaskInput, e: Environment, item: Value)
    requires HasCheckedTemplates(node) && node.Rule() == AllSucceeded && IsReady(node, records)
    requires node.spec.each.Some?
    requires IsSlice(InputOf(node, records), member.inputs)
    requires member == InputOf(node, records).(inputs := member.inputs, state := None, each := None, item := Some(item))
    ensures var r := RenderedParams(member, e); r.Err? ==> IsDataError(r.error)
  {
    SlicingIsTransparent(InputOf(node, records), member, e, item);
    ReadyHasOutputs(node, records);
    CheckedTreeErrors(node.spec.params, node.upstreams, true, ContextOf(InputOf(node, records), e, Some(item)));
  }

  /** No node of a checked graph misses its item, whatever its rule and its upstream
      records, and neither does a member of a mapped node. */
  lemma NoItemIsMissing(node: Node, records: NodeRecords, e: Environment, member: TaskInput, item: Value)
    requires HasCheckedTemplates(node)
    requires IsSlice(InputOf(node, records), member.inputs)
    requires member == InputOf(node, records).(inputs := member.inputs, state := None, each := None, item := Some(item))
    ensures node.spec.each == None ==> RenderedParams(InputOf(node, records), e) != Err(MissingItem)
    ensures RenderedItems(InputOf(node, records), e) != Err(InvalidRender(MissingItem))
    ensures RenderedParams(member, e) != Err(MissingItem)
  {
    var input := InputOf(node, records);
    if node.spec.each == None {
      CheckedTreeErrors(node.spec.params, node.upstreams, false, ContextOf(input, e, None));
    } else {
      CheckedTemplateErrors(ParseFrom(node.spec.each.value, 0).value, ContextOf(input, e, None));
    }
    SlicingIsTransparent(input, member, e, item);
    CheckedTreeErrors(node.spec.params, node.upstreams, node.spec.each.Some?, ContextOf(input, e, Some(item)));
  }

  /** In every interleaved run of a checked graph, every submitted instance of an
      all-succeeded node renders its parameters, or its items, unless a path, an
      environment variable or an item path is absent. */
  lemma SubmittedInstanceRenders(g: Graph, steps: seq<Interleaving.Step>, id: Store.RunId, e: Environment)
    requires g.Valid() && id in Interleaving.After(g, steps).store.submitted
    requires id.node in g.index && HasCheckedTemplates(g.Get(id.node)) && g.Get(id.node).Rule() == AllSucceeded
    ensures var node, records := g.Get(id.node), Interleaving.After(g, steps).store.submitted[id].upstreams;
            var params, items := RenderedParams(InputOf(node, records), e), RenderedItems(InputOf(node, records), e);
            && (node.spec.each == None && params.Err? ==> IsDataError(params.error))
            && (items.Err? && items.error.InvalidRender? ==> IsDataError(items.error.error))
  {
    InterleavingTheorems.InputsSatisfyTheRule(g, steps, id);
    var node, records := g.Get(id.node), Interleaving.After(g, steps).store.submitted[id].upstreams;
    if node.spec.each == None {
      ReadyParamsRender(node, records, e);
    }
    ReadyItemsRender(node, records, e);
  }
}

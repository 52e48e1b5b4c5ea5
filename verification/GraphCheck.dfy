/** The checks of a graph and its construction (swale/src/graph.rs, Graph::build). */
module GraphCheck {
  import opened Wrappers
  import opened Json
  import opened Records
  import opened Graphs
  import opened Templates
  import opened Params
  import opened Schedules
  import opened CycleSearch

  const MAX_GRAPH_AND_NODE_NAME_LEN: nat := 98

  /** The schedule field: absent, not a cron expression, or an expression with the
      occurrences the check reads. */
  datatype ScheduleSpec = Unscheduled | Unparsable | Scheduled(schedule: Schedule, neighbours: Neighbours)

  datatype GraphSpec = GraphSpec(name: Name, schedule: ScheduleSpec, partitioning: Partitioning, nodes: seq<NodeSpec>)

  datatype Problem =
    | InvalidGraphName
    | InvalidSchedule
    | ScheduleWithoutPartition
    | ScheduleWithinPartition
    | NoNodes
    | DuplicateNode(node: Name)
    | InvalidNodeName(node: Name)
    | NamesTooLong(node: Name)
    | InvalidAssetName(node: Name, asset: Name)
    | DuplicateAsset(asset: Name, nodes: seq<Name>)
    | UnknownAsset(node: Name, asset: Name)
    | UnknownNode(node: Name, after: Name)
    | RefusedOperator(node: Name)
    | InvalidTemplate(node: Name, error: TemplateError)
    | UnknownTemplateUpstream(node: Name, upstream: Name)
    | ItemWithoutEach(node: Name)
    | InvalidEach(node: Name, error: TemplateError)
    | EachRefersToItem(node: Name)
    | UnknownEachUpstream(node: Name, upstream: Name)
    | Cycle(path: seq<Name>)

  predicate IsName(text: Name) {
    text != "" && forall i :: 0 <= i < |text| ==>
      'a' <= text[i] <= 'z' || '0' <= text[i] <= '9' || text[i] == '_'
  }

  // ---- What a fault is ----

  /** The nodes that produce `asset`, in definition order. */
  function ProducersOf(nodes: seq<NodeSpec>, asset: Name): seq<Name> {
    if nodes == [] then []
    else ProducersOf(nodes[..|nodes| - 1], asset) + OneProducer(nodes[|nodes| - 1], asset)
  }

  function OneProducer(node: NodeSpec, asset: Name): seq<Name> {
    if node.kind.AssetNode? && node.kind.produces == asset then [node.name] else []
  }

  function NamesOf(nodes: seq<NodeSpec>): set<Name> {
    set i | 0 <= i < |nodes| :: nodes[i].name
  }

  /** The names that an edge into `node` can come from: of what makes its assets, or
      of what it is declared to follow. */
  function DeclaredUpstreams(nodes: seq<NodeSpec>, node: NodeSpec): set<Name> {
    match node.kind
    case AssetNode(_, consumes) => Producing(nodes, consumes)
    case TaskNode(after, _) => Named(nodes, after)
  }

  function Producing(nodes: seq<NodeSpec>, assets: seq<Name>): set<Name> {
    set a, n | a in assets && n in ProducersOf(nodes, a) :: n
  }

  function Named(nodes: seq<NodeSpec>, names: seq<Name>): set<Name> {
    set n | n in names && n in NamesOf(nodes)
  }

  predicate GraphFault(spec: GraphSpec, p: Problem) {
    match p
    case InvalidGraphName => !IsName(spec.name)
    case InvalidSchedule => spec.schedule.Unparsable?
    case ScheduleWithoutPartition => !spec.schedule.Unscheduled? && spec.partitioning == Unpartitioned
    case ScheduleWithinPartition =>
      spec.schedule.Scheduled? && FiresTwiceWithinAPartition(spec.schedule.neighbours, spec.partitioning)
    case NoNodes => spec.nodes == []
    case _ => false
  }

  /** A fault of the name of the node at `i`. */
  predicate NameFault(spec: GraphSpec, i: nat, p: Problem)
    requires i < |spec.nodes|
  {
    var name := spec.nodes[i].name;
    match p
    case InvalidNodeName(n) => n == name && !IsName(name)
    case NamesTooLong(n) => n == name && IsName(name) && |spec.name| + |name| > MAX_GRAPH_AND_NODE_NAME_LEN
    case DuplicateNode(n) => n == name && name in NamesOf(spec.nodes[..i])
    case _ => false
  }

  /** A fault of an asset name of the node at `i`. */
  predicate AssetFault(spec: GraphSpec, i: nat, p: Problem)
    requires i < |spec.nodes|
  {
    var node := spec.nodes[i];
    && p.InvalidAssetName? && p.node == node.name && node.kind.AssetNode?
    && (p.asset == node.kind.produces || p.asset in node.kind.consumes) && !IsName(p.asset)
  }

  predicate ProducerFault(spec: GraphSpec, p: Problem) {
    p.DuplicateAsset? && p.nodes == ProducersOf(spec.nodes, p.asset) && |p.nodes| > 1
  }

  /** A declared upstream of the node at `i` that does not exist. */
  predicate EdgeFault(spec: GraphSpec, i: nat, p: Problem)
    requires i < |spec.nodes|
  {
    var node := spec.nodes[i];
    match p
    case UnknownAsset(n, a) =>
      n == node.name && node.kind.AssetNode? && a in node.kind.consumes && ProducersOf(spec.nodes, a) == []
    case UnknownNode(n, after) =>
      n == node.name && node.kind.TaskNode? && after in node.kind.after && after !in NamesOf(spec.nodes)
    case _ => false
  }

  /** A fault of one string of the parameters of `node`. */
  predicate TextFault(node: NodeSpec, upstreams: set<Name>, text: string, p: Problem) {
    var template := ParseFrom(text, 0);
    match p
    case InvalidTemplate(n, e) => n == node.name && template == Err(e)
    case UnknownTemplateUpstream(n, u) =>
      n == node.name && template.Ok? && u in UpstreamNodes(template.value) && u !in upstreams
    case ItemWithoutEach(n) => n == node.name && template.Ok? && node.each == None && RefersToItem(template.value)
    case _ => false
  }

  ghost predicate TreeFault(node: NodeSpec, upstreams: set<Name>, value: Value, p: Problem) {
    exists text {:trigger IsLeaf(value, text)} :: IsLeaf(value, text) && TextFault(node, upstreams, text, p)
  }

  predicate EachFault(node: NodeSpec, upstreams: set<Name>, p: Problem) {
    node.each.Some? &&
    var template := ParseFrom(node.each.value, 0);
    match p
    case InvalidEach(n, e) => n == node.name && template == Err(e)
    case EachRefersToItem(n) => n == node.name && template.Ok? && RefersToItem(template.value)
    case UnknownEachUpstream(n, u) =>
      n == node.name && template.Ok? && u in UpstreamNodes(template.value) && u !in upstreams
    case _ => false
  }

  /** A fault of the operator or of a template of the node at `i`. */
  ghost predicate BodyFault(spec: GraphSpec, operators: NodeSpec -> bool, i: nat, p: Problem)
    requires i < |spec.nodes|
  {
    var node := spec.nodes[i];
    var upstreams := DeclaredUpstreams(spec.nodes, node);
    || (p == RefusedOperator(node.name) && !operators(node))
    || TreeFault(node, upstreams, node.params, p)
    || EachFault(node, upstreams, p)
  }

  ghost predicate NodeFault(spec: GraphSpec, operators: NodeSpec -> bool, i: nat, p: Problem)
    requires i < |spec.nodes|
  {
    NameFault(spec, i, p) || AssetFault(spec, i, p) || EdgeFault(spec, i, p) || BodyFault(spec, operators, i, p)
  }

  /** Every fault but a cycle. */
  ghost predicate IsFault(spec: GraphSpec, operators: NodeSpec -> bool, p: Problem) {
    || GraphFault(spec, p)
    || ProducerFault(spec, p)
    || exists i {:trigger NodeFault(spec, operators, i, p)} :: 0 <= i < |spec.nodes| && NodeFault(spec, operators, i, p)
  }

  // ---- The sections of the check ----

  method CheckGraph(spec: GraphSpec) returns (problems: seq<Problem>)
    ensures forall p :: p in problems <==> GraphFault(spec, p)
  {
    problems := if IsName(spec.name) then [] else [InvalidGraphName];
    match spec.schedule {
      case Unscheduled =>
      case Scheduled(_, neighbours) =>
        if FiresTwiceWithinAPartition(neighbours, spec.partitioning) {
          problems := problems + [ScheduleWithinPartition];
        }
      case Unparsable =>
        problems := problems + [InvalidSchedule];
    }
    if !spec.schedule.Unscheduled? && spec.partitioning == Unpartitioned {
      problems := problems + [ScheduleWithoutPartition];
    }
    if spec.nodes == [] {
      problems := problems + [NoNodes];
    }
  }

  lemma NamesOfAppend(nodes: seq<NodeSpec>, i: nat)
    requires i < |nodes|
    ensures NamesOf(nodes[..i + 1]) == NamesOf(nodes[..i]) + {nodes[i].name}
  {
    var longer := nodes[..i + 1];
    assert longer[i] == nodes[i] && forall j :: 0 <= j < i ==> longer[j] == nodes[..i][j];
  }

  method CheckName(spec: GraphSpec, i: nat, index: map<Name, nat>) returns (problems: seq<Problem>)
    requires i < |spec.nodes| && index.Keys == NamesOf(spec.nodes[..i])
    ensures forall p :: p in problems <==> NameFault(spec, i, p)
  {
    var name := spec.nodes[i].name;
    problems := [];
    if !IsName(name) {
      problems := problems + [InvalidNodeName(name)];
    } else if |spec.name| + |name| > MAX_GRAPH_AND_NODE_NAME_LEN {
      problems := problems + [NamesTooLong(name)];
    }
    if name in index {
      problems := problems + [DuplicateNode(name)];
    }
  }

  /** The name checks, with the position of each name, the last of equal ones. */
  method CheckNames(spec: GraphSpec) returns (index: map<Name, nat>, problems: seq<Problem>)
    ensures forall p :: p in problems <==> exists i {:trigger NameFault(spec, i, p)} :: 0 <= i < |spec.nodes| && NameFault(spec, i, p)
    ensures index.Keys == NamesOf(spec.nodes)
    ensures forall n :: n in index ==> index[n] < |spec.nodes| && spec.nodes[index[n]].name == n
  {
    hide NameFault;
    index, problems := map[], [];
    for i := 0 to |spec.nodes|
      invariant index.Keys == NamesOf(spec.nodes[..i])
      invariant forall n :: n in index ==> index[n] < i && spec.nodes[index[n]].name == n
      invariant forall p :: p in problems <==> exists j {:trigger NameFault(spec, j, p)} :: 0 <= j < i && NameFault(spec, j, p)
    {
      var found := CheckName(spec, i, index);
      problems := problems + found;
      NamesOfAppend(spec.nodes, i);
      index := index[spec.nodes[i].name := i];
    }
    assert spec.nodes[..|spec.nodes|] == spec.nodes;
  }

  /** `producers` lists the producers of every produced asset. */
  ghost predicate AreProducers(nodes: seq<NodeSpec>, producers: map<Name, seq<Name>>) {
    forall a {:trigger ProducersOf(nodes, a)} ::
      if a in producers then producers[a] == ProducersOf(nodes, a) && producers[a] != []
      else ProducersOf(nodes, a) == []
  }

  lemma ProducersAppend(nodes: seq<NodeSpec>, i: nat, a: Name)
    requires i < |nodes|
    ensures ProducersOf(nodes[..i + 1], a) == ProducersOf(nodes[..i], a) + OneProducer(nodes[i], a)
  {
    assert nodes[..i + 1][..i] == nodes[..i];
  }

  method CheckAssets(spec: GraphSpec) returns (producers: map<Name, seq<Name>>, problems: seq<Problem>)
    ensures forall p :: p in problems <==> exists i {:trigger AssetFault(spec, i, p)} :: 0 <= i < |spec.nodes| && AssetFault(spec, i, p)
    ensures AreProducers(spec.nodes, producers)
  {
    hide AssetFault;
    producers, problems := map[], [];
    for i := 0 to |spec.nodes|
      invariant AreProducers(spec.nodes[..i], producers)
      invariant forall p :: p in problems <==> exists j {:trigger AssetFault(spec, j, p)} :: 0 <= j < i && AssetFault(spec, j, p)
    {
      var node := spec.nodes[i];
      var found := CheckAssetNames(spec, i);
      problems := problems + found;
      AddProducer(spec.nodes, i, producers);
      if node.kind.AssetNode? {
        var produced := node.kind.produces;
        producers := producers[produced := (if produced in producers then producers[produced] else []) + [node.name]];
      }
    }
    assert spec.nodes[..|spec.nodes|] == spec.nodes;
  }

  lemma AddProducer(nodes: seq<NodeSpec>, i: nat, producers: map<Name, seq<Name>>)
    requires i < |nodes| && AreProducers(nodes[..i], producers)
    ensures nodes[i].kind.TaskNode? ==> AreProducers(nodes[..i + 1], producers)
    ensures nodes[i].kind.AssetNode? ==>
              var produced := nodes[i].kind.produces;
              AreProducers(nodes[..i + 1],
                           producers[produced := (if produced in producers then producers[produced] else []) + [nodes[i].name]])
  {
    var node := nodes[i];
    forall a {:trigger ProducersOf(nodes[..i + 1], a)}
      ensures ProducersOf(nodes[..i + 1], a)
           == if node.kind.AssetNode? && node.kind.produces == a
              then (if a in producers then producers[a] else []) + [node.name]
              else if a in producers then producers[a] else []
      ensures a in producers ==> producers[a] != []
    {
      ProducersAppend(nodes, i, a);
      assert ProducersOf(nodes[..i], a) == if a in producers then producers[a] else [];
      assert ProducersOf(nodes[..i], a) + [] == ProducersOf(nodes[..i], a);
    }
  }

  method CheckAssetNames(spec: GraphSpec, i: nat) returns (problems: seq<Problem>)
    requires i < |spec.nodes|
    ensures forall p :: p in problems <==> AssetFault(spec, i, p)
  {
    problems := [];
    var node := spec.nodes[i];
    if node.kind.TaskNode? {
      return;
    }
    var assets := [node.kind.produces] + node.kind.consumes;
    for k := 0 to |assets|
      invariant forall p :: p in problems <==>
                  p.InvalidAssetName? && p.node == node.name && p.asset in assets[..k] && !IsName(p.asset)
    {
      if !IsName(assets[k]) {
        problems := problems + [InvalidAssetName(node.name, assets[k])];
      }
      assert assets[..k + 1] == assets[..k] + [assets[k]];
    }
    assert assets[..|assets|] == assets;
  }

  method CheckProducers(spec: GraphSpec, producers: map<Name, seq<Name>>) returns (problems: seq<Problem>)
    requires AreProducers(spec.nodes, producers)
    ensures forall p :: p in problems <==> ProducerFault(spec, p)
  {
    problems := [];
    var todo := producers.Keys;
    while todo != {}
      invariant todo <= producers.Keys
      invariant forall p :: p in problems <==> ProducerFault(spec, p) && p.asset in producers.Keys - todo
      decreases todo
    {
      var a :| a in todo;
      assert producers[a] == ProducersOf(spec.nodes, a);
      if |producers[a]| > 1 {
        problems := problems + [DuplicateAsset(a, producers[a])];
      }
      todo := todo - {a};
    }
    forall p | ProducerFault(spec, p)
      ensures p.asset in producers
    {
      assert ProducersOf(spec.nodes, p.asset) != [];
    }
  }

  /** The upstreams of every node, by position, and the declared ones that do not exist. */
  method CheckEdges(spec: GraphSpec, index: map<Name, nat>, producers: map<Name, seq<Name>>)
    returns (upstreams: seq<set<Name>>, problems: seq<Problem>)
    requires index.Keys == NamesOf(spec.nodes) && AreProducers(spec.nodes, producers)
    ensures |upstreams| == |spec.nodes|
    ensures forall i :: 0 <= i < |spec.nodes| ==> upstreams[i] == DeclaredUpstreams(spec.nodes, spec.nodes[i])
    ensures forall p :: p in problems <==> exists i {:trigger EdgeFault(spec, i, p)} :: 0 <= i < |spec.nodes| && EdgeFault(spec, i, p)
  {
    hide EdgeFault, DeclaredUpstreams, AreProducers;
    upstreams, problems := [], [];
    for i := 0 to |spec.nodes|
      invariant |upstreams| == i
      invariant forall j :: 0 <= j < i ==> upstreams[j] == DeclaredUpstreams(spec.nodes, spec.nodes[j])
      invariant forall p :: p in problems <==> exists j {:trigger EdgeFault(spec, j, p)} :: 0 <= j < i && EdgeFault(spec, j, p)
    {
      var declared, found := CheckNodeEdges(spec, i, index, producers);
      problems := problems + found;
      upstreams := upstreams + [declared];
    }
  }

  method CheckNodeEdges(spec: GraphSpec, i: nat, index: map<Name, nat>, producers: map<Name, seq<Name>>)
    returns (declared: set<Name>, problems: seq<Problem>)
    requires i < |spec.nodes| && index.Keys == NamesOf(spec.nodes) && AreProducers(spec.nodes, producers)
    ensures declared == DeclaredUpstreams(spec.nodes, spec.nodes[i])
    ensures forall p :: p in problems <==> EdgeFault(spec, i, p)
  {
    var node := spec.nodes[i];
    declared, problems := {}, [];
    match node.kind
    case AssetNode(_, consumes) =>
      for k := 0 to |consumes|
        invariant declared == Producing(spec.nodes, consumes[..k])
        invariant forall p :: p in problems <==>
                    p.UnknownAsset? && p.node == node.name && p.asset in consumes[..k] && ProducersOf(spec.nodes, p.asset) == []
      {
        var asset := consumes[k];
        assert consumes[..k + 1] == consumes[..k] + [asset];
        assert asset !in producers ==> ProducersOf(spec.nodes, asset) == [];
        if asset in producers {
          assert producers[asset] == ProducersOf(spec.nodes, asset);
          declared := declared + set n | n in producers[asset];
        } else {
          problems := problems + [UnknownAsset(node.name, asset)];
        }
      }
      assert consumes[..|consumes|] == consumes;
    case TaskNode(after, _) =>
      for k := 0 to |after|
        invariant declared == Named(spec.nodes, after[..k])
        invariant forall p :: p in problems <==>
                    p.UnknownNode? && p.node == node.name && p.after in after[..k] && p.after !in NamesOf(spec.nodes)
      {
        assert after[..k + 1] == after[..k] + [after[k]];
        if after[k] in index {
          declared := declared + {after[k]};
        } else {
          problems := problems + [UnknownNode(node.name, after[k])];
        }
      }
      assert after[..|after|] == after;
  }

  // ---- Templates ----

  /** A reference out of `upstreams`, in a parameter or in the items template. */
  predicate UnknownFault(inEach: bool, node: Name, nodes: seq<Name>, upstreams: set<Name>, p: Problem) {
    if inEach then p.UnknownEachUpstream? && p.node == node && p.upstream in nodes && p.upstream !in upstreams
    else p.UnknownTemplateUpstream? && p.node == node && p.upstream in nodes && p.upstream !in upstreams
  }

  /** The upstream references out of `upstreams`, each reported once. */
  method CheckReferences(inEach: bool, node: Name, template: Template, upstreams: set<Name>) returns (problems: seq<Problem>)
    ensures forall p :: p in problems <==> UnknownFault(inEach, node, UpstreamNodes(template), upstreams, p)
  {
    problems := [];
    var nodes := UpstreamNodes(template);
    var seen: set<Name> := {};
    for i := 0 to |nodes|
      invariant forall p :: p in problems <==> UnknownFault(inEach, node, nodes[..i], upstreams, p)
      invariant forall u :: u in seen <==> u in nodes[..i] && u !in upstreams
    {
      assert nodes[..i + 1] == nodes[..i] + [nodes[i]];
      if nodes[i] !in upstreams && nodes[i] !in seen {
        seen := seen + {nodes[i]};
        problems := problems + [if inEach then UnknownEachUpstream(node, nodes[i])
                                else UnknownTemplateUpstream(node, nodes[i])];
      }
    }
    assert nodes[..|nodes|] == nodes;
  }

  method CheckText(node: NodeSpec, upstreams: set<Name>, text: string) returns (problems: seq<Problem>)
    ensures forall p :: p in problems <==> TextFault(node, upstreams, text, p)
  {
    hide ParseFrom, UpstreamNodes, RefersToItem;
    var template := Parse(text);
    if template.Err? {
      return [InvalidTemplate(node.name, template.error)];
    }
    problems := CheckReferences(false, node.name, template.value, upstreams);
    if node.each == None && RefersToItem(template.value) {
      problems := problems + [ItemWithoutEach(node.name)];
    }
  }

  /** The template faults of a parameter tree, at every depth. */
  method CheckTemplates(node: NodeSpec, upstreams: set<Name>, value: Value) returns (problems: seq<Problem>)
    ensures forall p :: p in problems <==> TreeFault(node, upstreams, value, p)
    decreases value
  {
    hide TextFault;
    problems := [];
    match value
    case String(text) =>
      problems := CheckText(node, upstreams, text);
      assert IsLeaf(value, text);
    case Array(items) =>
      for i := 0 to |items|
        invariant forall p :: p in problems <==> exists j {:trigger items[j]} :: 0 <= j < i && TreeFault(node, upstreams, items[j], p)
      {
        var found := CheckTemplates(node, upstreams, items[i]);
        problems := problems + found;
      }
      ArrayFaults(node, upstreams, value);
    case Object(members) =>
      for i := 0 to |members|
        invariant forall p :: p in problems <==> exists j {:trigger members[j]} :: 0 <= j < i && TreeFault(node, upstreams, members[j].value, p)
      {
        var found := CheckTemplates(node, upstreams, members[i].value);
        problems := problems + found;
      }
      ObjectFaults(node, upstreams, value);
    case _ =>
      assert forall text :: !IsLeaf(value, text);
  }

  lemma ArrayFaults(node: NodeSpec, upstreams: set<Name>, value: Value)
    requires value.Array?
    ensures forall p :: TreeFault(node, upstreams, value, p) <==>
              exists j {:trigger value.items[j]} :: 0 <= j < |value.items| && TreeFault(node, upstreams, value.items[j], p)
  {
    hide TextFault;
    forall p | TreeFault(node, upstreams, value, p)
      ensures exists j {:trigger value.items[j]} :: 0 <= j < |value.items| && TreeFault(node, upstreams, value.items[j], p)
    {
      var text :| IsLeaf(value, text) && TextFault(node, upstreams, text, p);
      var j :| 0 <= j < |value.items| && IsLeaf(value.items[j], text);
      assert TreeFault(node, upstreams, value.items[j], p);
    }
    forall p, j | 0 <= j < |value.items| && TreeFault(node, upstreams, value.items[j], p)
      ensures TreeFault(node, upstreams, value, p)
    {
      var text :| IsLeaf(value.items[j], text) && TextFault(node, upstreams, text, p);
      assert IsLeaf(value, text);
    }
  }

  lemma ObjectFaults(node: NodeSpec, upstreams: set<Name>, value: Value)
    requires value.Object?
    ensures forall p :: TreeFault(node, upstreams, value, p) <==>
              exists j {:trigger value.members[j]} :: 0 <= j < |value.members| && TreeFault(node, upstreams, value.members[j].value, p)
  {
    hide TextFault;
    forall p | TreeFault(node, upstreams, value, p)
      ensures exists j {:trigger value.members[j]} :: 0 <= j < |value.members| && TreeFault(node, upstreams, value.members[j].value, p)
    {
      var text :| IsLeaf(value, text) && TextFault(node, upstreams, text, p);
      var j :| 0 <= j < |value.members| && IsLeaf(value.members[j].value, text);
      assert TreeFault(node, upstreams, value.members[j].value, p);
    }
    forall p, j | 0 <= j < |value.members| && TreeFault(node, upstreams, value.members[j].value, p)
      ensures TreeFault(node, upstreams, value, p)
    {
      var text :| IsLeaf(value.members[j].value, text) && TextFault(node, upstreams, text, p);
      assert IsLeaf(value, text);
    }
  }

  method CheckEach(node: NodeSpec, upstreams: set<Name>) returns (problems: seq<Problem>)
    ensures forall p :: p in problems <==> EachFault(node, upstreams, p)
  {
    if node.each == None {
      return [];
    }
    var template := Parse(node.each.value);
    if template.Err? {
      return [InvalidEach(node.name, template.error)];
    }
    problems := CheckReferences(true, node.name, template.value, upstreams);
    if RefersToItem(template.value) {
      problems := [EachRefersToItem(node.name)] + problems;
    }
  }

  method CheckBodies(spec: GraphSpec, operators: NodeSpec -> bool, upstreams: seq<set<Name>>) returns (problems: seq<Problem>)
    requires |upstreams| == |spec.nodes|
    requires forall i :: 0 <= i < |spec.nodes| ==> upstreams[i] == DeclaredUpstreams(spec.nodes, spec.nodes[i])
    ensures forall p :: p in problems <==>
              exists i {:trigger BodyFault(spec, operators, i, p)} :: 0 <= i < |spec.nodes| && BodyFault(spec, operators, i, p)
  {
    hide DeclaredUpstreams, BodyFault;
    problems := [];
    for i := 0 to |spec.nodes|
      invariant forall p :: p in problems <==>
                  exists j {:trigger BodyFault(spec, operators, j, p)} :: 0 <= j < i && BodyFault(spec, operators, j, p)
    {
      var found := CheckBody(spec, operators, i, upstreams[i]);
      problems := problems + found;
    }
  }

  method CheckBody(spec: GraphSpec, operators: NodeSpec -> bool, i: nat, upstreams: set<Name>) returns (problems: seq<Problem>)
    requires i < |spec.nodes| && upstreams == DeclaredUpstreams(spec.nodes, spec.nodes[i])
    ensures forall p :: p in problems <==> BodyFault(spec, operators, i, p)
  {
    hide DeclaredUpstreams, TreeFault, EachFault;
    var node := spec.nodes[i];
    problems := if operators(node) then [] else [RefusedOperator(node.name)];
    var inParams := CheckTemplates(node, upstreams, node.params);
    var inEach := CheckEach(node, upstreams);
    problems := problems + inParams + inEach;
  }

  // ---- The built graph ----

  ghost function EdgesOf(spec: GraphSpec, index: map<Name, nat>): Edges {
    Edges(seq(|spec.nodes|, i requires 0 <= i < |spec.nodes| => spec.nodes[i].name),
          seq(|spec.nodes|, i requires 0 <= i < |spec.nodes| => DeclaredUpstreams(spec.nodes, spec.nodes[i])),
          index)
  }

  /** `rank` places every declared upstream before its node. */
  ghost predicate RanksNodes(spec: GraphSpec, rank: map<Name, nat>) {
    forall i, u {:trigger u in DeclaredUpstreams(spec.nodes, spec.nodes[i])} ::
      0 <= i < |spec.nodes| && u in DeclaredUpstreams(spec.nodes, spec.nodes[i]) ==>
        u in rank && spec.nodes[i].name in rank && rank[u] < rank[spec.nodes[i].name]
  }

  /** A closed walk along declared edges, from a node to what it depends on. */
  ghost predicate IsNodeCycle(spec: GraphSpec, path: seq<Name>) {
    && |path| >= 2 && path[0] == path[|path| - 1]
    && forall k {:trigger path[k]} :: 1 <= k < |path| ==>
         exists i :: 0 <= i < |spec.nodes| && spec.nodes[i].name == path[k - 1]
                     && path[k] in DeclaredUpstreams(spec.nodes, spec.nodes[i])
  }

  /** What the checks establish of the templates of a node. */
  ghost predicate HasCheckedTemplates(node: Node) {
    && IsChecked(node.spec.params, node.upstreams, node.spec.each.Some?)
    && (node.spec.each.Some? ==> IsCheckedText(node.spec.each.value, node.upstreams, false))
  }

  /** The graph of a definition: its nodes in definition order, with the declared
      upstreams and their exact inverse. */
  ghost predicate IsBuilt(spec: GraphSpec, g: Graph) {
    && g.name == spec.name && |g.nodes| == |spec.nodes| && g.Valid()
    && (forall i {:trigger g.nodes[i]} :: 0 <= i < |spec.nodes| ==>
          && g.nodes[i].spec == spec.nodes[i]
          && g.nodes[i].upstreams == DeclaredUpstreams(spec.nodes, spec.nodes[i])
          && HasCheckedTemplates(g.nodes[i]))
    && IsNamed(g)
  }

  ghost predicate IsNamedNode(graph: Name, node: Node) {
    && IsName(node.Name()) && |graph| + |node.Name()| <= MAX_GRAPH_AND_NODE_NAME_LEN
    && (node.Asset().Some? ==> IsName(node.Asset().value))
  }

  /** What the checks establish of the names, which the keys and run ids rely on. */
  ghost predicate IsNamed(g: Graph) {
    && IsName(g.name)
    && (forall i {:trigger g.nodes[i]} :: 0 <= i < |g.nodes| ==> IsNamedNode(g.name, g.nodes[i]))
    && (forall i, j {:trigger g.nodes[i], g.nodes[j]} :: 0 <= i < j < |g.nodes| && g.nodes[i].Asset().Some? ==>
          g.nodes[i].Asset() != g.nodes[j].Asset())
  }

  lemma {:induction false} ProducerIsNode(nodes: seq<NodeSpec>, a: Name, n: Name)
    requires n in ProducersOf(nodes, a)
    ensures n in NamesOf(nodes)
    ensures exists i :: 0 <= i < |nodes| && nodes[i].name == n && nodes[i].kind.AssetNode? && nodes[i].kind.produces == a
  {
    var last := |nodes| - 1;
    if n in ProducersOf(nodes[..last], a) {
      ProducerIsNode(nodes[..last], a, n);
      var i :| 0 <= i < last && nodes[..last][i].name == n
        && nodes[..last][i].kind.AssetNode? && nodes[..last][i].kind.produces == a;
      assert nodes[i].name == n;
    } else {
      assert nodes[last].name == n;
    }
  }

  lemma DeclaredAreNodes(nodes: seq<NodeSpec>, node: NodeSpec)
    ensures DeclaredUpstreams(nodes, node) <= NamesOf(nodes)
  {
    forall n | n in DeclaredUpstreams(nodes, node)
      ensures n in NamesOf(nodes)
    {
      if node.kind.AssetNode? {
        var a :| a in node.kind.consumes && n in ProducersOf(nodes, a);
        ProducerIsNode(nodes, a, n);
      }
    }
  }

  lemma NameIsBefore(nodes: seq<NodeSpec>, k: nat, i: nat)
    requires k < i <= |nodes|
    ensures nodes[k].name in NamesOf(nodes[..i])
  {
    assert nodes[..i][k] == nodes[k];
  }

  /** Distinct names: the index gives each node its own position. */
  lemma IndexIsExact(spec: GraphSpec, index: map<Name, nat>)
    requires index.Keys == NamesOf(spec.nodes)
    requires forall n :: n in index ==> index[n] < |spec.nodes| && spec.nodes[index[n]].name == n
    requires forall i :: 0 <= i < |spec.nodes| ==> spec.nodes[i].name !in NamesOf(spec.nodes[..i])
    ensures EdgesOf(spec, index).Valid()
  {
    forall i | 0 <= i < |spec.nodes|
      ensures spec.nodes[i].name in index && index[spec.nodes[i].name] == i
    {
      var n := spec.nodes[i].name;
      assert n in NamesOf(spec.nodes);
      var k := index[n];
      if k < i {
        NameIsBefore(spec.nodes, k, i);
      } else if i < k {
        NameIsBefore(spec.nodes, i, k);
      }
    }
    forall i | 0 <= i < |spec.nodes|
      ensures DeclaredUpstreams(spec.nodes, spec.nodes[i]) <= index.Keys
    {
      DeclaredAreNodes(spec.nodes, spec.nodes[i]);
    }
  }

  /** A rank of the edges is a rank of the declared nodes, and a cycle one of theirs. */
  lemma EdgesAreDeclared(spec: GraphSpec, index: map<Name, nat>)
    requires EdgesOf(spec, index).Valid()
    ensures forall rank :: EdgesOf(spec, index).IsRank(rank) <==> RanksNodes(spec, rank)
    ensures forall path :: EdgesOf(spec, index).IsCycle(path) ==> IsNodeCycle(spec, path)
  {
    hide DeclaredUpstreams;
    var e := EdgesOf(spec, index);
    forall rank
      ensures e.IsRank(rank) <==> RanksNodes(spec, rank)
    {
      assert forall i :: 0 <= i < |spec.nodes| ==>
               e.upstreams[i] == DeclaredUpstreams(spec.nodes, spec.nodes[i]) && e.names[i] == spec.nodes[i].name;
    }
    forall path | e.IsCycle(path)
      ensures IsNodeCycle(spec, path)
    {
      forall k {:trigger path[k]} | 1 <= k < |path|
        ensures exists i :: 0 <= i < |spec.nodes| && spec.nodes[i].name == path[k - 1]
                            && path[k] in DeclaredUpstreams(spec.nodes, spec.nodes[i])
      {
        var i := e.index[path[k - 1]];
        assert e.names[i] == path[k - 1] && path[k] in e.upstreams[i];
      }
    }
  }

  /** No fault: names, assets and templates are as a built graph has them. */
  lemma FaultlessNode(spec: GraphSpec, operators: NodeSpec -> bool, i: nat, node: Node)
    requires forall p :: !IsFault(spec, operators, p)
    requires i < |spec.nodes| && node.spec == spec.nodes[i]
    requires node.upstreams == DeclaredUpstreams(spec.nodes, spec.nodes[i])
    ensures HasCheckedTemplates(node)
    ensures IsNamedNode(spec.name, node)
    ensures node.Name() !in NamesOf(spec.nodes[..i])
  {
    hide DeclaredUpstreams;
    var name := node.Name();
    forall p
      ensures !NodeFault(spec, operators, i, p)
    {
      assert !IsFault(spec, operators, p);
    }
    assert !NodeFault(spec, operators, i, InvalidNodeName(name));
    assert !NodeFault(spec, operators, i, NamesTooLong(name));
    assert !NodeFault(spec, operators, i, DuplicateNode(name));
    if node.Asset().Some? {
      assert !NodeFault(spec, operators, i, InvalidAssetName(name, node.Asset().value));
    }
    FaultlessTemplates(spec, operators, i, node);
  }

  lemma FaultlessTemplates(spec: GraphSpec, operators: NodeSpec -> bool, i: nat, node: Node)
    requires i < |spec.nodes| && node.spec == spec.nodes[i]
    requires node.upstreams == DeclaredUpstreams(spec.nodes, spec.nodes[i])
    requires forall p :: !NodeFault(spec, operators, i, p)
    ensures HasCheckedTemplates(node)
  {
    hide DeclaredUpstreams;
    forall text {:trigger IsLeaf(node.spec.params, text)} | IsLeaf(node.spec.params, text)
      ensures IsCheckedText(text, node.upstreams, node.spec.each.Some?)
    {
      forall p
        ensures !TextFault(node.spec, node.upstreams, text, p)
      {
        assert !NodeFault(spec, operators, i, p);
      }
      FaultlessText(node.spec, node.upstreams, text);
    }
    if node.spec.each.Some? {
      forall p
        ensures !EachFault(node.spec, node.upstreams, p)
      {
        assert !NodeFault(spec, operators, i, p);
      }
      FaultlessEach(node.spec, node.upstreams);
    }
  }

  lemma FaultlessText(node: NodeSpec, upstreams: set<Name>, text: string)
    requires forall p :: !TextFault(node, upstreams, text, p)
    ensures IsCheckedText(text, upstreams, node.each.Some?)
  {
    hide ParseFrom, UpstreamNodes, RefersToItem;
    var template := ParseFrom(text, 0);
    assert !TextFault(node, upstreams, text,
                      InvalidTemplate(node.name, if template.Err? then template.error else Unclosed(0)));
    if template.Ok? {
      forall u | u in UpstreamNodes(template.value)
        ensures u in upstreams
      {
        assert !TextFault(node, upstreams, text, UnknownTemplateUpstream(node.name, u));
      }
      assert !TextFault(node, upstreams, text, ItemWithoutEach(node.name));
    }
  }

  lemma FaultlessEach(node: NodeSpec, upstreams: set<Name>)
    requires node.each.Some? && forall p :: !EachFault(node, upstreams, p)
    ensures IsCheckedText(node.each.value, upstreams, false)
  {
    var template := ParseFrom(node.each.value, 0);
    assert !EachFault(node, upstreams,
                      InvalidEach(node.name, if template.Err? then template.error else Unclosed(0)));
    if template.Ok? {
      forall u | u in UpstreamNodes(template.value)
        ensures u in upstreams
      {
        assert !EachFault(node, upstreams, UnknownEachUpstream(node.name, u));
      }
      assert !EachFault(node, upstreams, EachRefersToItem(node.name));
    }
  }

  /** The names of the first `k` nodes that have `n` as an upstream. */
  function Consumers(nodes: seq<NodeSpec>, upstreams: seq<set<Name>>, k: nat, n: Name): set<Name>
    requires k <= |nodes| == |upstreams|
  {
    set j | 0 <= j < k && n in upstreams[j] :: nodes[j].name
  }

  function DownstreamsOf(downstreams: map<Name, set<Name>>, n: Name): set<Name> {
    if n in downstreams then downstreams[n] else {}
  }

  /** The downstreams of every node, as the edges are walked. */
  method Downstreams(spec: GraphSpec, upstreams: seq<set<Name>>) returns (downstreams: map<Name, set<Name>>)
    requires |upstreams| == |spec.nodes|
    ensures forall n {:trigger DownstreamsOf(downstreams, n)} ::
              DownstreamsOf(downstreams, n) == Consumers(spec.nodes, upstreams, |spec.nodes|, n)
  {
    downstreams := map[];
    for i := 0 to |spec.nodes|
      invariant forall n {:trigger DownstreamsOf(downstreams, n)} ::
                  DownstreamsOf(downstreams, n) == Consumers(spec.nodes, upstreams, i, n)
    {
      ghost var before := downstreams;
      downstreams := AddDownstream(spec.nodes[i].name, upstreams[i], downstreams);
      forall n {:trigger DownstreamsOf(downstreams, n)}
        ensures DownstreamsOf(downstreams, n) == Consumers(spec.nodes, upstreams, i + 1, n)
      {
        assert DownstreamsOf(before, n) == Consumers(spec.nodes, upstreams, i, n);
        ConsumersGrow(spec.nodes, upstreams, i, n);
      }
    }
  }

  lemma ConsumersGrow(nodes: seq<NodeSpec>, upstreams: seq<set<Name>>, k: nat, n: Name)
    requires k < |nodes| == |upstreams|
    ensures Consumers(nodes, upstreams, k + 1, n)
         == Consumers(nodes, upstreams, k, n) + (if n in upstreams[k] then {nodes[k].name} else {})
  {
  }

  method AddDownstream(name: Name, upstreams: set<Name>, before: map<Name, set<Name>>) returns (downstreams: map<Name, set<Name>>)
    ensures forall n {:trigger DownstreamsOf(downstreams, n)} ::
              DownstreamsOf(downstreams, n) == DownstreamsOf(before, n) + (if n in upstreams then {name} else {})
  {
    downstreams := before;
    var todo := upstreams;
    while todo != {}
      invariant todo <= upstreams
      invariant forall n {:trigger DownstreamsOf(downstreams, n)} ::
                  DownstreamsOf(downstreams, n) == DownstreamsOf(before, n) + (if n in upstreams - todo then {name} else {})
      decreases todo
    {
      var up :| up in todo;
      ghost var last := downstreams;
      downstreams := downstreams[up := DownstreamsOf(downstreams, up) + {name}];
      todo := todo - {up};
      forall n {:trigger DownstreamsOf(downstreams, n)}
        ensures DownstreamsOf(downstreams, n) == DownstreamsOf(before, n) + (if n in upstreams - todo then {name} else {})
      {
        assert DownstreamsOf(downstreams, n) == DownstreamsOf(last, n) + (if n == up then {name} else {});
      }
    }
  }

  /** The nodes with their edges. */
  method BuildNodes(spec: GraphSpec, upstreams: seq<set<Name>>) returns (nodes: seq<Node>)
    requires |upstreams| == |spec.nodes|
    ensures |nodes| == |spec.nodes|
    ensures forall i {:trigger nodes[i]} :: 0 <= i < |nodes| ==>
              nodes[i] == Node(spec.nodes[i], upstreams[i],
                               Consumers(spec.nodes, upstreams, |spec.nodes|, spec.nodes[i].name))
  {
    var downstreams := Downstreams(spec, upstreams);
    hide Consumers;
    nodes := [];
    for i := 0 to |spec.nodes|
      invariant |nodes| == i
      invariant forall j {:trigger nodes[j]} :: 0 <= j < i ==>
                  nodes[j] == Node(spec.nodes[j], upstreams[j],
                                   Consumers(spec.nodes, upstreams, |spec.nodes|, spec.nodes[j].name))
    {
      nodes := nodes + [Node(spec.nodes[i], upstreams[i], DownstreamsOf(downstreams, spec.nodes[i].name))];
    }
  }

  lemma NodesAreWired(spec: GraphSpec, nodes: seq<Node>, upstreams: seq<set<Name>>, index: map<Name, nat>, rank: map<Name, nat>)
    requires |nodes| == |spec.nodes| == |upstreams|
    requires forall i {:trigger nodes[i]} :: 0 <= i < |nodes| ==>
               && nodes[i] == Node(spec.nodes[i], upstreams[i],
                                   Consumers(spec.nodes, upstreams, |spec.nodes|, spec.nodes[i].name))
               && upstreams[i] == DeclaredUpstreams(spec.nodes, spec.nodes[i])
    requires EdgesOf(spec, index).Valid() && EdgesOf(spec, index).IsRank(rank)
    ensures Graph(spec.name, nodes, index).Valid()
  {
    hide DeclaredUpstreams;
    var g := Graph(spec.name, nodes, index);
    var e := EdgesOf(spec, index);
    assert forall i {:trigger nodes[i]} :: 0 <= i < |nodes| ==>
             e.names[i] == nodes[i].Name() && e.upstreams[i] == nodes[i].upstreams;
    assert g.Indexed();
    forall n, d {:trigger d in g.Get(n).downstreams} | n in index && d in g.Get(n).downstreams
      ensures d in index && n in g.Get(d).upstreams
    {
      var j :| 0 <= j < |spec.nodes| && n in upstreams[j] && spec.nodes[j].name == d;
      assert nodes[j].Name() == d;
    }
    forall n, u {:trigger u in g.Get(n).upstreams} | n in index && u in g.Get(n).upstreams
      ensures u in index && n in g.Get(u).downstreams
    {
      var i := index[n];
      assert u in e.upstreams[i] && spec.nodes[i].name == n && u in upstreams[i];
    }
    var full := map n | n in index :: if n in rank then rank[n] else 0;
    assert g.IsRanking(full);
  }

  /** A graph exactly when the definition has no fault and its declared upstreams have
      a rank; otherwise all the faults, or a cycle. */
  method Build(spec: GraphSpec, operators: NodeSpec -> bool) returns (r: Result<Graph, seq<Problem>>)
    ensures r.Ok? <==> (forall p :: !IsFault(spec, operators, p)) && exists rank :: RanksNodes(spec, rank)
    ensures r.Ok? ==> IsBuilt(spec, r.value)
    ensures r.Err? && (exists p :: IsFault(spec, operators, p)) ==>
              forall p :: p in r.error <==> IsFault(spec, operators, p)
    ensures r.Err? && (forall p :: !IsFault(spec, operators, p)) ==>
              exists path :: r.error == [Cycle(path)] && IsNodeCycle(spec, path)
  {
    var problems, index, upstreams := CheckAll(spec, operators);
    if problems != [] {
      assert problems[0] in problems;
      return Err(problems);
    }
    forall p
      ensures !IsFault(spec, operators, p)
    {
      assert p !in problems;
    }
    r := Assemble(spec, operators, index, upstreams);
  }

  /** The sections of the check, in order. */
  method CheckAll(spec: GraphSpec, operators: NodeSpec -> bool)
    returns (problems: seq<Problem>, index: map<Name, nat>, upstreams: seq<set<Name>>)
    ensures forall p :: p in problems <==> IsFault(spec, operators, p)
    ensures index.Keys == NamesOf(spec.nodes)
    ensures forall n :: n in index ==> index[n] < |spec.nodes| && spec.nodes[index[n]].name == n
    ensures |upstreams| == |spec.nodes|
    ensures forall i :: 0 <= i < |spec.nodes| ==> upstreams[i] == DeclaredUpstreams(spec.nodes, spec.nodes[i])
  {
    hide GraphFault, ProducerFault, NameFault, AssetFault, EdgeFault, BodyFault, DeclaredUpstreams;
    var ofGraph := CheckGraph(spec);
    var names, ofNames := CheckNames(spec);
    var producers, ofAssets := CheckAssets(spec);
    var ofProducers := CheckProducers(spec, producers);
    var ups, ofEdges := CheckEdges(spec, names, producers);
    var ofBodies := CheckBodies(spec, operators, ups);
    index, upstreams := names, ups;
    forall p
      ensures IsFault(spec, operators, p) <==>
              p in ofGraph || p in ofNames || p in ofAssets || p in ofProducers || p in ofEdges || p in ofBodies
    {
      FaultSplits(spec, operators, p);
    }
    problems := ofGraph + ofNames + ofAssets + ofProducers + ofEdges + ofBodies;
  }

  lemma FaultSplits(spec: GraphSpec, operators: NodeSpec -> bool, p: Problem)
    ensures IsFault(spec, operators, p) <==>
            || GraphFault(spec, p) || ProducerFault(spec, p)
            || (exists i {:trigger NameFault(spec, i, p)} :: 0 <= i < |spec.nodes| && NameFault(spec, i, p))
            || (exists i {:trigger AssetFault(spec, i, p)} :: 0 <= i < |spec.nodes| && AssetFault(spec, i, p))
            || (exists i {:trigger EdgeFault(spec, i, p)} :: 0 <= i < |spec.nodes| && EdgeFault(spec, i, p))
            || (exists i {:trigger BodyFault(spec, operators, i, p)} :: 0 <= i < |spec.nodes| && BodyFault(spec, operators, i, p))
  {
    hide GraphFault, ProducerFault, NameFault, AssetFault, EdgeFault, BodyFault;
    if i :| 0 <= i < |spec.nodes| && (NameFault(spec, i, p) || AssetFault(spec, i, p)
                                      || EdgeFault(spec, i, p) || BodyFault(spec, operators, i, p)) {
      assert NodeFault(spec, operators, i, p);
    }
  }

  /** The graph of a faultless definition, or the cycle of its edges. */
  method Assemble(spec: GraphSpec, operators: NodeSpec -> bool, index: map<Name, nat>, upstreams: seq<set<Name>>)
    returns (r: Result<Graph, seq<Problem>>)
    requires forall p :: !IsFault(spec, operators, p)
    requires index.Keys == NamesOf(spec.nodes)
    requires forall n :: n in index ==> index[n] < |spec.nodes| && spec.nodes[index[n]].name == n
    requires |upstreams| == |spec.nodes|
    requires forall i :: 0 <= i < |spec.nodes| ==> upstreams[i] == DeclaredUpstreams(spec.nodes, spec.nodes[i])
    ensures r.Ok? <==> exists rank :: RanksNodes(spec, rank)
    ensures r.Ok? ==> IsBuilt(spec, r.value)
    ensures r.Err? ==> exists path :: r.error == [Cycle(path)] && IsNodeCycle(spec, path)
  {
    hide IsFault, DeclaredUpstreams, RanksNodes, IsNodeCycle;
    FaultlessNames(spec, operators, upstreams);
    IndexIsExact(spec, index);
    EdgesAreDeclared(spec, index);
    var names := seq(|spec.nodes|, i requires 0 <= i < |spec.nodes| => spec.nodes[i].name);
    var edges := Edges(names, upstreams, index);
    assert edges == EdgesOf(spec, index);
    var cycle := FindCycle(edges);
    if cycle.Some? {
      return Err([Cycle(cycle.value)]);
    }
    var nodes := BuildNodes(spec, upstreams);
    ghost var rank :| edges.IsRank(rank);
    NodesAreWired(spec, nodes, upstreams, index, rank);
    var g := Graph(spec.name, nodes, index);
    FaultlessGraph(spec, operators, g);
    r := Ok(g);
  }

  lemma FaultlessNames(spec: GraphSpec, operators: NodeSpec -> bool, upstreams: seq<set<Name>>)
    requires forall p :: !IsFault(spec, operators, p)
    ensures forall i :: 0 <= i < |spec.nodes| ==> spec.nodes[i].name !in NamesOf(spec.nodes[..i])
  {
    forall i | 0 <= i < |spec.nodes|
      ensures spec.nodes[i].name !in NamesOf(spec.nodes[..i])
    {
      var declared := DeclaredUpstreams(spec.nodes, spec.nodes[i]);
      FaultlessNode(spec, operators, i, Node(spec.nodes[i], declared, {}));
    }
  }

  lemma FaultlessGraph(spec: GraphSpec, operators: NodeSpec -> bool, g: Graph)
    requires forall p :: !IsFault(spec, operators, p)
    requires g.name == spec.name && |g.nodes| == |spec.nodes| && g.Valid()
    requires forall i {:trigger g.nodes[i]} :: 0 <= i < |spec.nodes| ==>
               g.nodes[i].spec == spec.nodes[i] && g.nodes[i].upstreams == DeclaredUpstreams(spec.nodes, spec.nodes[i])
    ensures IsBuilt(spec, g)
  {
    hide IsFault, DeclaredUpstreams, HasCheckedTemplates, Graph.Valid;
    FaultlessName(spec, operators);
    forall i {:trigger g.nodes[i]} | 0 <= i < |spec.nodes|
      ensures HasCheckedTemplates(g.nodes[i])
      ensures IsNamedNode(g.name, g.nodes[i])
    {
      FaultlessNode(spec, operators, i, g.nodes[i]);
    }
    forall i, j {:trigger g.nodes[i], g.nodes[j]} | 0 <= i < j < |g.nodes| && g.nodes[i].Asset().Some?
      ensures g.nodes[i].Asset() != g.nodes[j].Asset()
    {
      FaultlessPair(spec, operators, g, i, j);
    }
  }

  lemma FaultlessName(spec: GraphSpec, operators: NodeSpec -> bool)
    requires forall p :: !IsFault(spec, operators, p)
    ensures IsName(spec.name)
  {
    assert !IsFault(spec, operators, InvalidGraphName);
  }

  lemma FaultlessPair(spec: GraphSpec, operators: NodeSpec -> bool, g: Graph, i: nat, j: nat)
    requires forall p :: !IsFault(spec, operators, p)
    requires i < j < |g.nodes| == |spec.nodes| && g.nodes[i].spec == spec.nodes[i] && g.nodes[j].spec == spec.nodes[j]
    requires g.nodes[i].Asset().Some?
    ensures g.nodes[i].Asset() != g.nodes[j].Asset()
  {
    if g.nodes[i].Asset() == g.nodes[j].Asset() {
      var a := g.nodes[i].Asset().value;
      FaultlessProducers(spec, operators, a);
      TwoProducers(spec.nodes, i, j, a);
    }
  }

  lemma FaultlessProducers(spec: GraphSpec, operators: NodeSpec -> bool, a: Name)
    requires forall p :: !IsFault(spec, operators, p)
    ensures |ProducersOf(spec.nodes, a)| <= 1
  {
    assert !IsFault(spec, operators, DuplicateAsset(a, ProducersOf(spec.nodes, a)));
  }

  lemma {:induction false} TwoProducers(nodes: seq<NodeSpec>, i: nat, j: nat, a: Name)
    requires i < j < |nodes|
    requires nodes[i].kind.AssetNode? && nodes[i].kind.produces == a
    requires nodes[j].kind.AssetNode? && nodes[j].kind.produces == a
    ensures |ProducersOf(nodes, a)| >= 2
  {
    var last := |nodes| - 1;
    if j < last {
      TwoProducers(nodes[..last], i, j, a);
    } else {
      OneProducerAtLeast(nodes[..last], i, a);
    }
  }

  lemma {:induction false} OneProducerAtLeast(nodes: seq<NodeSpec>, i: nat, a: Name)
    requires i < |nodes| && nodes[i].kind.AssetNode? && nodes[i].kind.produces == a
    ensures |ProducersOf(nodes, a)| >= 1
  {
    var last := |nodes| - 1;
    if i < last {
      OneProducerAtLeast(nodes[..last], i, a);
    }
  }

  // ---- The edges of a built graph ----

  /** `node` depends on `other` by its definition: it consumes what `other` produces, or
      it comes after it. */
  predicate DependsOn(node: NodeSpec, other: NodeSpec) {
    if node.kind.AssetNode? then other.kind.AssetNode? && other.kind.produces in node.kind.consumes
    else other.name in node.kind.after
  }

  lemma {:induction false} NodeIsProducer(nodes: seq<NodeSpec>, j: nat)
    requires j < |nodes| && nodes[j].kind.AssetNode?
    ensures nodes[j].name in ProducersOf(nodes, nodes[j].kind.produces)
    decreases |nodes|
  {
    if j < |nodes| - 1 {
      assert nodes[..|nodes| - 1][j] == nodes[j];
      NodeIsProducer(nodes[..|nodes| - 1], j);
    }
  }

  lemma NodeFaultIsFault(spec: GraphSpec, operators: NodeSpec -> bool, i: nat, p: Problem)
    requires i < |spec.nodes|
    ensures NodeFault(spec, operators, i, p) ==> IsFault(spec, operators, p)
  {
    hide NodeFault, GraphFault, ProducerFault;
  }

  lemma NamesAreUnique(spec: GraphSpec, operators: NodeSpec -> bool, i: nat, j: nat)
    requires i < |spec.nodes| && j < |spec.nodes| && spec.nodes[i].name == spec.nodes[j].name
    requires forall p :: !IsFault(spec, operators, p)
    ensures i == j
  {
    hide AssetFault, EdgeFault, BodyFault, GraphFault, ProducerFault;
    if i != j {
      var first, last := if i < j then i else j, if i < j then j else i;
      NameIsBefore(spec.nodes, first, last);
      NodeFaultIsFault(spec, operators, last, DuplicateNode(spec.nodes[last].name));
    }
  }

  lemma DeclaredExactly(spec: GraphSpec, operators: NodeSpec -> bool, i: nat, j: nat)
    requires i < |spec.nodes| && j < |spec.nodes| && forall p :: !IsFault(spec, operators, p)
    ensures spec.nodes[j].name in DeclaredUpstreams(spec.nodes, spec.nodes[i]) <==> DependsOn(spec.nodes[i], spec.nodes[j])
  {
    hide IsFault, ProducersOf;
    var node, other := spec.nodes[i], spec.nodes[j];
    if node.kind.AssetNode? {
      if a :| a in node.kind.consumes && other.name in ProducersOf(spec.nodes, a) {
        ProducerIsNode(spec.nodes, a, other.name);
        var k :| 0 <= k < |spec.nodes| && spec.nodes[k].name == other.name
          && spec.nodes[k].kind.AssetNode? && spec.nodes[k].kind.produces == a;
        NamesAreUnique(spec, operators, j, k);
      }
      if DependsOn(node, other) {
        NodeIsProducer(spec.nodes, j);
      }
    }
  }

  /** What a node depends on is there. */
  lemma DependenciesExist(spec: GraphSpec, operators: NodeSpec -> bool, i: nat)
    requires i < |spec.nodes| && forall p :: !IsFault(spec, operators, p)
    ensures spec.nodes[i].kind.AssetNode? ==>
              forall a :: a in spec.nodes[i].kind.consumes ==>
                exists j :: 0 <= j < |spec.nodes| && spec.nodes[j].kind.AssetNode? && spec.nodes[j].kind.produces == a
    ensures spec.nodes[i].kind.TaskNode? ==>
              forall n :: n in spec.nodes[i].kind.after ==> exists j :: 0 <= j < |spec.nodes| && spec.nodes[j].name == n
  {
    hide NameFault, AssetFault, BodyFault, GraphFault, ProducerFault, ProducersOf;
    var node := spec.nodes[i];
    if node.kind.AssetNode? {
      forall a | a in node.kind.consumes
        ensures exists j :: 0 <= j < |spec.nodes| && spec.nodes[j].kind.AssetNode? && spec.nodes[j].kind.produces == a
      {
        NodeFaultIsFault(spec, operators, i, UnknownAsset(node.name, a));
        assert ProducersOf(spec.nodes, a) != [];
        ProducerIsNode(spec.nodes, a, ProducersOf(spec.nodes, a)[0]);
      }
    } else {
      forall n | n in node.kind.after
        ensures exists j :: 0 <= j < |spec.nodes| && spec.nodes[j].name == n
      {
        NodeFaultIsFault(spec, operators, i, UnknownNode(node.name, n));
      }
    }
  }

  /** The edges of a built graph are exactly the dependencies of its definition. */
  lemma EdgesAreDependencies(spec: GraphSpec, operators: NodeSpec -> bool, g: Graph, i: nat, j: nat)
    requires (forall p :: !IsFault(spec, operators, p)) && IsBuilt(spec, g)
    requires i < |spec.nodes| && j < |spec.nodes|
    ensures spec.nodes[j].name in g.nodes[i].upstreams <==> DependsOn(spec.nodes[i], spec.nodes[j])
    ensures spec.nodes[i].name in g.nodes[j].downstreams <==> DependsOn(spec.nodes[i], spec.nodes[j])
    ensures g.nodes[i].upstreams <= NamesOf(spec.nodes)
  {
    hide IsFault, DeclaredUpstreams, HasCheckedTemplates, IsNamed, Graph.Acyclic;
    DeclaredExactly(spec, operators, i, j);
    DeclaredAreNodes(spec.nodes, spec.nodes[i]);
    assert g.nodes[i].Name() in g.index && g.Get(g.nodes[i].Name()) == g.nodes[i];
    assert g.nodes[j].Name() in g.index && g.Get(g.nodes[j].Name()) == g.nodes[j];
  }
}

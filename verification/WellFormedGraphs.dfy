/** What it means that the checks of a graph find no fault, over the fields of its
    definition (swale/src/graph.rs, Graph::build). */
module WellFormedGraphs {
  import opened Wrappers
  import opened Json
  import opened Records
  import opened Graphs
  import opened Templates
  import opened Params
  import opened Schedules
  import opened GraphCheck

  /** The names of the nodes that `node` depends on. */
  function DependencyNames(nodes: seq<NodeSpec>, node: NodeSpec): set<Name> {
    set j | 0 <= j < |nodes| && DependsOn(node, nodes[j]) :: nodes[j].name
  }

  /** The schedule of a partitioned graph, which does not fire twice in a partition. */
  predicate HasGoodSchedule(spec: GraphSpec) {
    match spec.schedule
    case Unscheduled => true
    case Unparsable => false
    case Scheduled(_, neighbours) =>
      spec.partitioning != Unpartitioned && !FiresTwiceWithinAPartition(neighbours, spec.partitioning)
  }

  predicate HasGoodNames(spec: GraphSpec, node: NodeSpec) {
    && IsName(node.name) && |spec.name| + |node.name| <= MAX_GRAPH_AND_NODE_NAME_LEN
    && (node.kind.AssetNode? ==>
          IsName(node.kind.produces) && forall a :: a in node.kind.consumes ==> IsName(a))
  }

  /** Every asset that the node consumes is produced, and every node before it is there. */
  predicate HasItsDependencies(spec: GraphSpec, node: NodeSpec) {
    if node.kind.AssetNode? then
      forall a :: a in node.kind.consumes ==>
        exists j :: 0 <= j < |spec.nodes| && spec.nodes[j].kind.AssetNode? && spec.nodes[j].kind.produces == a
    else forall n :: n in node.kind.after ==> exists j :: 0 <= j < |spec.nodes| && spec.nodes[j].name == n
  }

  /** Every string of the parameters and the items template parse, and refer only to the
      nodes that the node depends on; the item is for the parameters of a mapped node. */
  ghost predicate HasGoodTemplates(spec: GraphSpec, node: NodeSpec) {
    && IsChecked(node.params, DependencyNames(spec.nodes, node), node.each.Some?)
    && (node.each.Some? ==> IsCheckedText(node.each.value, DependencyNames(spec.nodes, node), false))
  }

  ghost predicate IsGoodNode(spec: GraphSpec, operators: NodeSpec -> bool, node: NodeSpec) {
    HasGoodNames(spec, node) && HasItsDependencies(spec, node) && operators(node) && HasGoodTemplates(spec, node)
  }

  predicate HaveOneName(a: NodeSpec, b: NodeSpec) {
    a.name == b.name
  }

  predicate ProduceOneAsset(a: NodeSpec, b: NodeSpec) {
    a.kind.AssetNode? && b.kind.AssetNode? && a.kind.produces == b.kind.produces
  }

  ghost predicate IsWellFormed(spec: GraphSpec, operators: NodeSpec -> bool) {
    && IsName(spec.name) && spec.nodes != [] && HasGoodSchedule(spec)
    && (forall i {:trigger spec.nodes[i]} :: 0 <= i < |spec.nodes| ==> IsGoodNode(spec, operators, spec.nodes[i]))
    && (forall i, j {:trigger HaveOneName(spec.nodes[i], spec.nodes[j])} :: 0 <= i < j < |spec.nodes| ==>
          !HaveOneName(spec.nodes[i], spec.nodes[j]))
    && (forall i, j {:trigger ProduceOneAsset(spec.nodes[i], spec.nodes[j])} :: 0 <= i < j < |spec.nodes| ==>
          !ProduceOneAsset(spec.nodes[i], spec.nodes[j]))
  }

  lemma DeclaredAreDependencies(nodes: seq<NodeSpec>, node: NodeSpec)
    ensures DeclaredUpstreams(nodes, node) == DependencyNames(nodes, node)
  {
    hide ProducersOf;
    forall n
      ensures n in DeclaredUpstreams(nodes, node) <==> n in DependencyNames(nodes, node)
    {
      if node.kind.AssetNode? {
        if n in DeclaredUpstreams(nodes, node) {
          var a :| a in node.kind.consumes && n in ProducersOf(nodes, a);
          ProducerIsNode(nodes, a, n);
          var j :| 0 <= j < |nodes| && nodes[j].name == n && nodes[j].kind.AssetNode? && nodes[j].kind.produces == a;
          assert DependsOn(node, nodes[j]);
        }
        if j :| 0 <= j < |nodes| && DependsOn(node, nodes[j]) && nodes[j].name == n {
          NodeIsProducer(nodes, j);
        }
      }
    }
  }

  // ---- No fault makes a well-formed definition ----

  lemma FaultlessHeader(spec: GraphSpec, operators: NodeSpec -> bool)
    requires forall p :: !IsFault(spec, operators, p)
    ensures IsName(spec.name) && spec.nodes != [] && HasGoodSchedule(spec)
  {
    hide NodeFault, ProducerFault;
    assert !IsFault(spec, operators, InvalidGraphName);
    assert !IsFault(spec, operators, NoNodes);
    assert !IsFault(spec, operators, InvalidSchedule);
    assert !IsFault(spec, operators, ScheduleWithoutPartition);
    assert !IsFault(spec, operators, ScheduleWithinPartition);
  }

  lemma FaultlessIsGood(spec: GraphSpec, operators: NodeSpec -> bool, i: nat)
    requires (forall p :: !IsFault(spec, operators, p)) && i < |spec.nodes|
    ensures IsGoodNode(spec, operators, spec.nodes[i])
  {
    hide GraphFault, ProducerFault, TreeFault, EachFault, IsChecked, IsCheckedText, DeclaredUpstreams, DependencyNames;
    var node := spec.nodes[i];
    FaultlessNode(spec, operators, i, Node(node, DeclaredUpstreams(spec.nodes, node), {}));
    DeclaredAreDependencies(spec.nodes, node);
    DependenciesExist(spec, operators, i);
    if node.kind.AssetNode? {
      forall a | a in node.kind.consumes
        ensures IsName(a)
      {
        NodeFaultIsFault(spec, operators, i, InvalidAssetName(node.name, a));
      }
    }
    NodeFaultIsFault(spec, operators, i, RefusedOperator(node.name));
  }

  lemma FaultlessIsWellFormed(spec: GraphSpec, operators: NodeSpec -> bool)
    requires forall p :: !IsFault(spec, operators, p)
    ensures IsWellFormed(spec, operators)
  {
    hide IsFault, IsGoodNode;
    FaultlessHeader(spec, operators);
    forall i | 0 <= i < |spec.nodes|
      ensures IsGoodNode(spec, operators, spec.nodes[i])
    {
      FaultlessIsGood(spec, operators, i);
    }
    forall i, j | 0 <= i < j < |spec.nodes|
      ensures !HaveOneName(spec.nodes[i], spec.nodes[j])
    {
      if HaveOneName(spec.nodes[i], spec.nodes[j]) {
        NamesAreUnique(spec, operators, i, j);
      }
    }
    forall i, j | 0 <= i < j < |spec.nodes|
      ensures !ProduceOneAsset(spec.nodes[i], spec.nodes[j])
    {
      if ProduceOneAsset(spec.nodes[i], spec.nodes[j]) {
        FaultlessProducers(spec, operators, spec.nodes[i].kind.produces);
        TwoProducers(spec.nodes, i, j, spec.nodes[i].kind.produces);
      }
    }
  }

  // ---- A well-formed definition has no fault ----

  lemma {:induction false} OnlyProducer(nodes: seq<NodeSpec>, a: Name)
    requires |ProducersOf(nodes, a)| >= 2
    ensures exists i, j :: 0 <= i < j < |nodes| && nodes[i].kind.AssetNode? && nodes[i].kind.produces == a
                           && ProduceOneAsset(nodes[i], nodes[j])
  {
    var last := |nodes| - 1;
    if |ProducersOf(nodes[..last], a)| >= 2 {
      OnlyProducer(nodes[..last], a);
      var i, j :| 0 <= i < j < last && nodes[..last][i].kind.AssetNode? && nodes[..last][i].kind.produces == a
        && ProduceOneAsset(nodes[..last][i], nodes[..last][j]);
      assert ProduceOneAsset(nodes[i], nodes[j]);
    } else {
      var n := ProducersOf(nodes[..last], a)[0];
      ProducerIsNode(nodes[..last], a, n);
      var i :| 0 <= i < last && nodes[..last][i].name == n
        && nodes[..last][i].kind.AssetNode? && nodes[..last][i].kind.produces == a;
      assert ProduceOneAsset(nodes[i], nodes[last]);
    }
  }

  lemma GoodHasNoFault(spec: GraphSpec, operators: NodeSpec -> bool, i: nat, p: Problem)
    requires IsWellFormed(spec, operators) && i < |spec.nodes|
    ensures !NodeFault(spec, operators, i, p)
  {
    hide IsWellFormed, ProducersOf, TextFault, EachFault, IsCheckedText, DependencyNames, IsName;
    var node := spec.nodes[i];
    GoodNode(spec, operators, i);
    DeclaredAreDependencies(spec.nodes, node);
    if EdgeFault(spec, i, p) {
      NoUnknownUpstream(spec, i, p);
    }
    if TreeFault(node, DeclaredUpstreams(spec.nodes, node), node.params, p) {
      var text :| IsLeaf(node.params, text) && TextFault(node, DeclaredUpstreams(spec.nodes, node), text, p);
      CheckedTextHasNoFault(node, DependencyNames(spec.nodes, node), text, p);
    }
    if EachFault(node, DeclaredUpstreams(spec.nodes, node), p) {
      CheckedEachHasNoFault(node, DependencyNames(spec.nodes, node), p);
    }
  }

  lemma GoodNode(spec: GraphSpec, operators: NodeSpec -> bool, i: nat)
    requires IsWellFormed(spec, operators) && i < |spec.nodes|
    ensures IsGoodNode(spec, operators, spec.nodes[i]) && spec.nodes[i].name !in NamesOf(spec.nodes[..i])
  {
    hide IsGoodNode, HasGoodSchedule, ProduceOneAsset;
    forall j | 0 <= j < i
      ensures spec.nodes[..i][j].name != spec.nodes[i].name
    {
      NamesDiffer(spec, operators, j, i);
    }
  }

  lemma NamesDiffer(spec: GraphSpec, operators: NodeSpec -> bool, j: nat, i: nat)
    requires IsWellFormed(spec, operators) && j < i < |spec.nodes|
    ensures spec.nodes[j].name != spec.nodes[i].name
  {
    hide IsGoodNode, HasGoodSchedule, ProduceOneAsset;
    assert !HaveOneName(spec.nodes[j], spec.nodes[i]);
  }

  lemma NoUnknownUpstream(spec: GraphSpec, i: nat, p: Problem)
    requires i < |spec.nodes| && HasItsDependencies(spec, spec.nodes[i])
    ensures !EdgeFault(spec, i, p)
  {
    hide ProducersOf;
    if EdgeFault(spec, i, p) && p.UnknownAsset? {
      var j :| 0 <= j < |spec.nodes| && spec.nodes[j].kind.AssetNode? && spec.nodes[j].kind.produces == p.asset;
      NodeIsProducer(spec.nodes, j);
    }
  }

  lemma CheckedTextHasNoFault(node: NodeSpec, upstreams: set<Name>, text: string, p: Problem)
    requires IsCheckedText(text, upstreams, node.each.Some?)
    ensures !TextFault(node, upstreams, text, p)
  {
    hide ParseFrom, UpstreamNodes, RefersToItem;
  }

  lemma CheckedEachHasNoFault(node: NodeSpec, upstreams: set<Name>, p: Problem)
    requires node.each.Some? ==> IsCheckedText(node.each.value, upstreams, false)
    ensures !EachFault(node, upstreams, p)
  {
    hide ParseFrom, UpstreamNodes, RefersToItem;
  }

  /** The checks find no fault exactly in a well-formed definition. */
  lemma FaultlessExactly(spec: GraphSpec, operators: NodeSpec -> bool)
    ensures (forall p :: !IsFault(spec, operators, p)) <==> IsWellFormed(spec, operators)
  {
    hide IsWellFormed, NodeFault, GraphFault, ProducerFault;
    if IsWellFormed(spec, operators) {
      forall p
        ensures !IsFault(spec, operators, p)
      {
        NoFaultOfTheWhole(spec, operators, p);
        forall i {:trigger NodeFault(spec, operators, i, p)} | 0 <= i < |spec.nodes|
          ensures !NodeFault(spec, operators, i, p)
        {
          GoodHasNoFault(spec, operators, i, p);
        }
      }
    }
    if forall p :: !IsFault(spec, operators, p) {
      FaultlessIsWellFormed(spec, operators);
    }
  }

  lemma NoFaultOfTheWhole(spec: GraphSpec, operators: NodeSpec -> bool, p: Problem)
    requires IsWellFormed(spec, operators)
    ensures !GraphFault(spec, p) && !ProducerFault(spec, p)
  {
    hide IsGoodNode, ProducersOf, IsName, FiresTwiceWithinAPartition;
    if ProducerFault(spec, p) {
      OnlyProducer(spec.nodes, p.asset);
    }
  }
}

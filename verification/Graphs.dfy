/** A checked graph: nodes, edges and the order they admit (swale/src/graph.rs). */
module Graphs {
  import opened Wrappers
  import opened Json
  import opened Records

  datatype TriggerRule = AllSucceeded | AllDone | OneFailed

  datatype NodeKind =
    | AssetNode(produces: Name, consumes: seq<Name>)
    | TaskNode(after: seq<Name>, triggerRule: TriggerRule)

  /** The definition of one node, before the graph is checked. */
  datatype NodeSpec = NodeSpec(
    name: Name,
    kind: NodeKind,
    operator: Name,
    pool: Name,
    params: Value,
    each: Option<string>)

  datatype Node = Node(spec: NodeSpec, upstreams: set<Name>, downstreams: set<Name>) {
    function Name(): Name { spec.name }

    function Asset(): Option<Name> {
      match spec.kind
      case AssetNode(produces, _) => Some(produces)
      case TaskNode(_, _) => None
    }

    /** An asset node has the all-succeeded rule. */
    function Rule(): TriggerRule {
      match spec.kind
      case AssetNode(_, _) => AllSucceeded
      case TaskNode(_, rule) => rule
    }
  }

  datatype Graph = Graph(name: Name, nodes: seq<Node>, index: map<Name, nat>) {
    /** The index names the position of every node exactly. */
    ghost predicate Indexed() {
      && (forall i :: 0 <= i < |nodes| ==>
            nodes[i].Name() in index && index[nodes[i].Name()] == i)
      && (forall n :: n in index ==> index[n] < |nodes| && nodes[index[n]].Name() == n)
    }

    function Get(n: Name): Node
      requires n in index && index[n] < |nodes|
    {
      nodes[index[n]]
    }

    function Roots(): set<Name>
      requires Indexed()
    {
      set n | n in index && Get(n).upstreams == {}
    }

    /** Edges stay within the graph, and downstreams invert upstreams. */
    ghost predicate Wired()
      requires Indexed()
    {
      && (forall n, u {:trigger u in Get(n).upstreams} ::
            n in index && u in Get(n).upstreams ==> u in index && n in Get(u).downstreams)
      && (forall n, d {:trigger d in Get(n).downstreams} ::
            n in index && d in Get(n).downstreams ==> d in index && n in Get(d).upstreams)
    }

    /** `rank` places every upstream strictly before its node. */
    ghost predicate IsRanking(rank: map<Name, nat>)
      requires Indexed()
    {
      && rank.Keys == index.Keys
      && forall n, u {:trigger u in Get(n).upstreams} ::
           n in index && u in Get(n).upstreams ==> u in rank && rank[u] < rank[n]
    }

    ghost predicate Acyclic()
      requires Indexed()
    {
      exists rank :: IsRanking(rank)
    }

    ghost predicate Valid() {
      Indexed() && Wired() && Acyclic()
    }

    ghost function Ranking(): (rank: map<Name, nat>)
      requires Valid()
      ensures IsRanking(rank)
    {
      var rank :| IsRanking(rank);
      rank
    }

    ghost function Rank(n: Name): nat
      requires Valid() && n in index
    {
      Ranking()[n]
    }
  }
}

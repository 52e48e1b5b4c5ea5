/**
 The readiness rule (swale/src/readiness.rs): when a node runs, when a graph run
 is finished, and which nodes a rerun runs again.
 */
module Readiness {
  import opened Wrappers
  import opened Records
  import opened Graphs

  datatype NodeState = Recorded(status: RecordStatus) | Ready | Waiting | Blocked {
    /** Neither recorded nor blocked. */
    predicate IsOpen() { Ready? || Waiting? }
  }

  predicate IsReady(node: Node, records: NodeRecords) {
    match node.Rule()
    case AllSucceeded =>
      forall u :: u in node.upstreams ==> u in records && records[u].status == Succeeded
    case AllDone =>
      forall u :: u in node.upstreams ==> u in records
    case OneFailed =>
      exists u :: u in node.upstreams && u in records && records[u].status == Failed
  }

  predicate CanBecomeReady(node: Node, states: map<Name, NodeState>)
    requires node.upstreams <= states.Keys
  {
    match node.Rule()
    case AllSucceeded =>
      forall u :: u in node.upstreams ==> states[u] == Recorded(Succeeded) || states[u].IsOpen()
    case AllDone =>
      forall u :: u in node.upstreams ==> states[u] != Blocked
    case OneFailed =>
      exists u :: u in node.upstreams && states[u].IsOpen()
  }

  /** The state of `node` given the states of its upstreams. */
  function Classify(node: Node, records: NodeRecords, states: map<Name, NodeState>): NodeState
    requires node.upstreams <= states.Keys
  {
    if node.Name() in records then Recorded(records[node.Name()].status)
    else if IsReady(node, records) then Ready
    else if CanBecomeReady(node, states) then Waiting
    else Blocked
  }

  /** The state of a node by recursion along the edges. */
  ghost function StateOf(g: Graph, records: NodeRecords, n: Name): NodeState
    requires g.Valid() && n in g.index
    decreases g.Rank(n)
  {
    Classify(g.Get(n), records, map u | u in g.Get(n).upstreams :: StateOf(g, records, u))
  }

  ghost function StatesOf(g: Graph, records: NodeRecords): (states: map<Name, NodeState>)
    requires g.Valid()
    ensures states.Keys == g.index.Keys
  {
    map n | n in g.index :: StateOf(g, records, n)
  }

  /** Every node has the state its upstreams give it. */
  ghost predicate IsClassified(g: Graph, records: NodeRecords, states: map<Name, NodeState>)
    requires g.Valid()
  {
    && states.Keys == g.index.Keys
    && forall n {:trigger IsClassifiedAt(g, records, states, n)} ::
         n in g.index ==> IsClassifiedAt(g, records, states, n)
  }

  ghost predicate IsClassifiedAt(g: Graph, records: NodeRecords, states: map<Name, NodeState>, n: Name)
    requires g.Valid() && n in g.index && states.Keys == g.index.Keys
  {
    states[n] == Classify(g.Get(n), records, states)
  }

  lemma StatesOfIsClassified(g: Graph, records: NodeRecords)
    requires g.Valid()
    ensures IsClassified(g, records, StatesOf(g, records))
  {
    forall n | n in g.index
      ensures IsClassifiedAt(g, records, StatesOf(g, records), n)
    {
      StateOfUnfolds(g, records, n, StatesOf(g, records));
    }
  }

  lemma StateOfUnfolds(g: Graph, records: NodeRecords, n: Name, states: map<Name, NodeState>)
    requires g.Valid() && n in g.index && g.Get(n).upstreams <= states.Keys
    requires forall u :: u in g.Get(n).upstreams ==> u in g.index && states[u] == StateOf(g, records, u)
    ensures StateOf(g, records, n) == Classify(g.Get(n), records, states)
  {
    ClassifyReadsUpstreams(g.Get(n), records, states,
                           map u | u in g.Get(n).upstreams :: StateOf(g, records, u));
  }

  lemma ClassifyReadsUpstreams(node: Node, records: NodeRecords, s: map<Name, NodeState>, t: map<Name, NodeState>)
    requires node.upstreams <= s.Keys && node.upstreams <= t.Keys
    requires forall u :: u in node.upstreams ==> s[u] == t[u]
    ensures Classify(node, records, s) == Classify(node, records, t)
  {
  }

  /** One pass order or another, the classification of an acyclic graph is unique. */
  lemma {:induction false} ClassificationIsUnique(g: Graph, records: NodeRecords, states: map<Name, NodeState>, n: Name)
    requires g.Valid() && IsClassified(g, records, states) && n in g.index
    ensures states[n] == StateOf(g, records, n)
    decreases g.Rank(n)
  {
    assert IsClassifiedAt(g, records, states, n);
    forall u | u in g.Get(n).upstreams
      ensures states[u] == StateOf(g, records, u)
    {
      ClassificationIsUnique(g, records, states, u);
    }
    StateOfUnfolds(g, records, n, states);
  }

  /** `states` holds the states of some of the nodes. */
  ghost predicate IsPartial(g: Graph, records: NodeRecords, states: map<Name, NodeState>)
    requires g.Valid()
  {
    && states.Keys <= g.index.Keys
    && forall n :: n in states ==> states[n] == StateOf(g, records, n)
  }

  lemma ResolveRecorded(g: Graph, records: NodeRecords, states: map<Name, NodeState>, n: Name)
    requires g.Valid() && IsPartial(g, records, states) && n in g.index && n in records
    ensures IsPartial(g, records, states[n := Recorded(records[n].status)])
  {
    assert StateOf(g, records, n) == Recorded(records[n].status);
  }

  lemma ResolveUnrecorded(g: Graph, records: NodeRecords, states: map<Name, NodeState>, n: Name)
    requires g.Valid() && IsPartial(g, records, states)
    requires n in g.index && g.Get(n).upstreams <= states.Keys
    ensures IsPartial(g, records, states[n := Classify(g.Get(n), records, states)])
  {
    StateOfUnfolds(g, records, n, states);
  }

  /** The states of the nodes, by passes over the nodes in definition order. */
  method NodeStates(g: Graph, records: NodeRecords) returns (states: map<Name, NodeState>)
    requires g.Valid()
    ensures states == StatesOf(g, records)
  {
    hide StateOf, Classify;
    states := map[];
    while |states| < |g.nodes|
      invariant IsPartial(g, records, states)
      decreases |g.nodes| - |states|
    {
      ghost var next := FirstUnresolved(g, states);
      states := Pass(g, records, states, next);
      PassesEnd(g, states);
    }
    assert states.Keys == g.index.Keys by {
      PassesEnd(g, states);
    }
  }

  /** One pass: it resolves every node whose upstreams are resolved, `next` among them. */
  method Pass(g: Graph, records: NodeRecords, before: map<Name, NodeState>, ghost next: Name)
    returns (states: map<Name, NodeState>)
    requires g.Valid() && IsPartial(g, records, before)
    requires next in g.index && next !in before && g.Get(next).upstreams <= before.Keys
    ensures IsPartial(g, records, states)
    ensures |before| < |states|
  {
    hide StateOf, Classify;
    states := before;
    for i := 0 to |g.nodes|
      invariant IsPartial(g, records, states)
      invariant before.Keys <= states.Keys
      invariant g.index[next] < i ==> next in states
    {
      var node := g.nodes[i];
      if node.Name() in states {
        continue;
      }
      if node.Name() in records {
        ResolveRecorded(g, records, states, node.Name());
        states := states[node.Name() := Recorded(records[node.Name()].status)];
        continue;
      }
      if node.upstreams <= states.Keys {
        ResolveUnrecorded(g, records, states, node.Name());
        states := states[node.Name() := Classify(node, records, states)];
      }
    }
    SubsetCardinality(before.Keys, states.Keys, next);
  }

  lemma PassesEnd(g: Graph, states: map<Name, NodeState>)
    requires g.Indexed() && states.Keys <= g.index.Keys
    ensures |states| <= |g.nodes|
    ensures |states| == |g.nodes| ==> states.Keys == g.index.Keys
  {
    NodesAreNames(g);
    SubsetSize(states.Keys, g.index.Keys);
    if |states| == |g.nodes| {
      SubsetEquality(states.Keys, g.index.Keys);
    }
  }

  lemma RankDecreases(g: Graph, n: Name, u: Name)
    requires g.Valid() && n in g.index && u in g.Get(n).upstreams
    ensures u in g.index && g.Rank(u) < g.Rank(n)
  {
  }

  /** A pass resolves the unresolved node of least rank. */
  lemma FirstUnresolved(g: Graph, states: map<Name, NodeState>) returns (next: Name)
    requires g.Valid() && states.Keys <= g.index.Keys && |states| < |g.nodes|
    ensures next in g.index && next !in states && g.Get(next).upstreams <= states.Keys
  {
    hide Graph.Acyclic, Graph.IsRanking, Graph.Wired;
    var open := g.index.Keys - states.Keys;
    assert open != {} by {
      NodesAreNames(g);
      assert g.index.Keys == states.Keys + open;
    }
    next := LeastRank(g, open);
    forall u | u in g.Get(next).upstreams
      ensures u in states
    {
      RankDecreases(g, next, u);
    }
  }

  lemma {:induction false} LeastRank(g: Graph, names: set<Name>) returns (least: Name)
    requires g.Valid() && names <= g.index.Keys && names != {}
    ensures least in names && forall n :: n in names ==> g.Rank(least) <= g.Rank(n)
    decreases |names|
  {
    var n :| n in names;
    if names == {n} {
      return n;
    }
    var rest := names - {n};
    assert rest != {};
    var m := LeastRank(g, rest);
    least := if g.Rank(n) <= g.Rank(m) then n else m;
  }

  lemma {:induction false} NamesOfPrefix(g: Graph, k: nat)
    requires g.Indexed() && k <= |g.nodes|
    ensures |set i | 0 <= i < k :: g.nodes[i].Name()| == k
  {
    if k > 0 {
      NamesOfPrefix(g, k - 1);
      var shorter := set i | 0 <= i < k - 1 :: g.nodes[i].Name();
      assert g.nodes[k - 1].Name() !in shorter;
      assert (set i | 0 <= i < k :: g.nodes[i].Name()) == shorter + {g.nodes[k - 1].Name()};
    }
  }

  lemma NodesAreNames(g: Graph)
    requires g.Indexed()
    ensures |g.index| == |g.nodes|
  {
    NamesOfPrefix(g, |g.nodes|);
    var names := set i | 0 <= i < |g.nodes| :: g.nodes[i].Name();
    forall n | n in g.index
      ensures n in names
    {
      assert g.nodes[g.index[n]].Name() == n;
    }
    assert names == g.index.Keys;
    assert |g.index| == |g.index.Keys|;
  }

  lemma {:induction false} SubsetSize<T>(a: set<T>, b: set<T>)
    requires a <= b
    ensures |a| <= |b|
  {
    assert b == a + (b - a);
  }

  lemma SubsetCardinality<T>(a: set<T>, b: set<T>, extra: T)
    requires a <= b && extra in b && extra !in a
    ensures |a| < |b|
  {
    assert b == (a + {extra}) + (b - a - {extra});
  }

  lemma SubsetEquality<T>(a: set<T>, b: set<T>)
    requires a <= b && |a| >= |b|
    ensures a == b
  {
    assert b == a + (b - a);
  }

  /** How the run ends when no node is open. */
  function SettledState(states: map<Name, NodeState>): Option<GraphRunState> {
    if exists n :: n in states && states[n].IsOpen() then None
    else if forall n :: n in states ==> states[n] == Recorded(Succeeded) then Some(RunComplete)
    else Some(RunFailed)
  }
}

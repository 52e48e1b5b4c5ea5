/** The nodes a rerun runs again (swale/src/readiness.rs, rerun_scope). */
module Scopes {
  import opened Wrappers
  import opened Records
  import opened Graphs
  import opened Readiness

  /** `n` is `x`, or has the all-succeeded rule and an upstream in the scope of `x`. */
  ghost predicate InScope(g: Graph, x: Name, n: Name)
    requires g.Valid() && n in g.index
    decreases g.Rank(n)
  {
    n == x || (g.Get(n).Rule() == AllSucceeded && exists u :: u in g.Get(n).upstreams && InScope(g, x, u))
  }

  ghost function ScopeOf(g: Graph, x: Name): (scope: set<Name>)
    requires g.Valid() && x in g.index
    ensures x in scope && scope <= g.index.Keys
  {
    set n | n in g.index && InScope(g, x, n)
  }

  /** `names` contains every all-succeeded downstream of its nodes. */
  ghost predicate IsClosed(g: Graph, names: set<Name>)
    requires g.Valid()
  {
    && names <= g.index.Keys
    && forall n, d {:trigger d in g.Get(n).downstreams} ::
         n in names && d in g.Get(n).downstreams && g.Get(d).Rule() == AllSucceeded ==> d in names
  }

  lemma ScopeIsClosed(g: Graph, x: Name)
    requires g.Valid() && x in g.index
    ensures IsClosed(g, ScopeOf(g, x))
  {
  }

  lemma {:induction false} ScopeIsWithin(g: Graph, x: Name, names: set<Name>, n: Name)
    requires g.Valid() && IsClosed(g, names) && x in names
    requires n in g.index && InScope(g, x, n)
    ensures n in names
    decreases g.Rank(n)
  {
    if n != x {
      var u :| u in g.Get(n).upstreams && InScope(g, x, u);
      ScopeIsWithin(g, x, names, u);
      assert n in g.Get(u).downstreams;
    }
  }

  /** The scope is the least closed set that contains the rerun node. */
  lemma ScopeIsLeast(g: Graph, x: Name, names: set<Name>)
    requires g.Valid() && IsClosed(g, names) && x in names
    ensures ScopeOf(g, x) <= names && IsClosed(g, ScopeOf(g, x))
  {
    ScopeIsClosed(g, x);
    forall n | n in ScopeOf(g, x)
      ensures n in names
    {
      ScopeIsWithin(g, x, names, n);
    }
  }

  /** The upstreams of the rerun node are outside of its scope. */
  lemma {:induction false} ScopeIsDownstream(g: Graph, x: Name, n: Name)
    requires g.Valid() && x in g.index && n in g.index && InScope(g, x, n)
    ensures n == x || g.Rank(x) < g.Rank(n)
    decreases g.Rank(n)
  {
    if n != x {
      var u :| u in g.Get(n).upstreams && InScope(g, x, u);
      RankDecreases(g, n, u);
      ScopeIsDownstream(g, x, u);
    }
  }

  /** The nodes of `nodes` with a name of `names`, in order. */
  function InOrder(nodes: seq<Node>, names: set<Name>): seq<Node> {
    if nodes == [] then []
    else (if nodes[0].Name() in names then [nodes[0]] else []) + InOrder(nodes[1..], names)
  }

  lemma {:induction false} InOrderAppend(nodes: seq<Node>, last: Node, names: set<Name>)
    ensures InOrder(nodes + [last], names)
         == InOrder(nodes, names) + (if last.Name() in names then [last] else [])
  {
    if nodes == [] {
      assert nodes + [last] == [last];
    } else {
      InOrderAppend(nodes[1..], last, names);
      assert (nodes + [last])[1..] == nodes[1..] + [last];
    }
  }

  /** Every member of the scope is pending or has its downstreams in the scope. */
  ghost predicate Explored(g: Graph, scope: set<Name>, pending: seq<Name>)
    requires g.Valid() && scope <= g.index.Keys
  {
    forall n, d {:trigger d in g.Get(n).downstreams} ::
      n in scope && n !in pending && d in g.Get(n).downstreams && g.Get(d).Rule() == AllSucceeded
      ==> d in scope
  }

  /** The scope of a rerun of `x`, in definition order, by a search of the downstreams. */
  method RerunScope(g: Graph, x: Name) returns (nodes: seq<Node>)
    requires g.Valid() && x in g.index
    ensures nodes == InOrder(g.nodes, ScopeOf(g, x))
  {
    var scope, pending := {x}, [x];
    ScopeIsClosed(g, x);
    while pending != []
      invariant x in scope && scope <= ScopeOf(g, x)
      invariant forall n :: n in pending ==> n in scope
      invariant Explored(g, scope, pending)
      decreases g.index.Keys - scope, |pending|
    {
      var current := pending[|pending| - 1];
      ghost var before := pending;
      pending := pending[..|pending| - 1];
      assert before == pending + [current];
      scope, pending := Expand(g, x, current, scope, pending);
    }
    assert IsClosed(g, scope);
    ScopeIsLeast(g, x, scope);
    assert scope == ScopeOf(g, x);
    nodes := [];
    for i := 0 to |g.nodes|
      invariant nodes == InOrder(g.nodes[..i], scope)
    {
      InOrderAppend(g.nodes[..i], g.nodes[i], scope);
      assert g.nodes[..i + 1] == g.nodes[..i] + [g.nodes[i]];
      if g.nodes[i].Name() in scope {
        nodes := nodes + [g.nodes[i]];
      }
    }
    assert g.nodes[..|g.nodes|] == g.nodes;
  }

  /** Adds the all-succeeded downstreams of `current` to the scope and to `pending`. */
  method Expand(g: Graph, ghost x: Name, current: Name, before: set<Name>, rest: seq<Name>)
    returns (scope: set<Name>, pending: seq<Name>)
    requires g.Valid() && x in g.index && current in before && before <= ScopeOf(g, x)
    requires IsClosed(g, ScopeOf(g, x))
    requires forall n :: n in rest ==> n in before
    requires Explored(g, before, rest + [current])
    ensures before <= scope <= ScopeOf(g, x)
    ensures forall n :: n in pending ==> n in scope
    ensures Explored(g, scope, pending)
    ensures scope == before ==> pending == rest
  {
    scope, pending := before, rest;
    var names := g.Get(current).downstreams;
    ghost var done: set<Name> := {};
    while names != {}
      invariant names + done == g.Get(current).downstreams
      invariant before <= scope <= ScopeOf(g, x)
      invariant forall n :: n in pending ==> n in scope
      invariant Explored(g, scope, pending + [current])
      invariant forall d :: d in done && g.Get(d).Rule() == AllSucceeded ==> d in scope
      invariant scope == before ==> pending == rest
      decreases names
    {
      var d :| d in names;
      names, done := names - {d}, done + {d};
      if g.Get(d).Rule() == AllSucceeded && d !in scope {
        scope, pending := scope + {d}, pending + [d];
      }
    }
  }
}

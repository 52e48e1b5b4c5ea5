/** The depth-first search for a cycle (swale/src/graph.rs, find_cycle). */
module CycleSearch {
  import opened Wrappers
  import opened Records

  datatype Mark = Unvisited | OnPath | Done

  /** The nodes by position, their upstreams by name, and the position of each name. */
  datatype Edges = Edges(names: seq<Name>, upstreams: seq<set<Name>>, index: map<Name, nat>) {
    ghost predicate Valid() {
      && |upstreams| == |names|
      && (forall i {:trigger names[i]} :: 0 <= i < |names| ==> names[i] in index && index[names[i]] == i)
      && (forall n {:trigger n in index} :: n in index ==> index[n] < |names| && names[index[n]] == n)
      && (forall i, u {:trigger u in upstreams[i]} :: 0 <= i < |names| && u in upstreams[i] ==> u in index)
    }

    /** Every upstream has a smaller rank. */
    ghost predicate IsRank(rank: map<Name, nat>)
      requires |upstreams| == |names|
    {
      forall i, u {:trigger u in upstreams[i]} :: 0 <= i < |names| && u in upstreams[i] ==>
        u in rank && names[i] in rank && rank[u] < rank[names[i]]
    }

    /** The names step from node to upstream. */
    ghost predicate IsPath(path: seq<Name>)
      requires Valid()
    {
      && (forall k {:trigger path[k]} :: 0 <= k < |path| ==> path[k] in index)
      && forall k {:trigger path[k]} :: 1 <= k < |path| ==> path[k] in upstreams[index[path[k - 1]]]
    }

    ghost predicate IsCycle(cycle: seq<Name>)
      requires Valid()
    {
      IsPath(cycle) && |cycle| >= 2 && cycle[0] == cycle[|cycle| - 1]
    }
  }

  lemma {:induction false} RankFallsAlong(e: Edges, path: seq<Name>, rank: map<Name, nat>, k: nat)
    requires e.Valid() && e.IsPath(path) && e.IsRank(rank) && 1 <= k < |path|
    ensures path[0] in rank && path[k] in rank && rank[path[k]] < rank[path[0]]
  {
    assert path[k] in e.upstreams[e.index[path[k - 1]]];
    assert e.names[e.index[path[k - 1]]] == path[k - 1];
    if k > 1 {
      RankFallsAlong(e, path, rank, k - 1);
    }
  }

  /** A graph with a cycle has no rank. */
  lemma CycleRefutesRank(e: Edges, cycle: seq<Name>, rank: map<Name, nat>)
    requires e.Valid() && e.IsCycle(cycle)
    ensures !e.IsRank(rank)
  {
    if e.IsRank(rank) {
      RankFallsAlong(e, cycle, rank, |cycle| - 1);
    }
  }

  class Search {
    const edges: Edges
    const marks: array<Mark>
    var path: seq<nat>
    // the finished nodes, each after its upstreams
    ghost var finished: seq<nat>

    ghost predicate Valid()
      reads this, marks
    {
      && edges.Valid() && marks.Length == |edges.names|
      && IsTrail(edges, path)
      && (forall j {:trigger marks[j]} :: 0 <= j < marks.Length ==>
            (marks[j] == OnPath <==> j in path) && (marks[j] == Done <==> j in finished))
      && (forall k {:trigger finished[k]} :: 0 <= k < |finished| ==> finished[k] < marks.Length)
      && IsOrdered(edges, finished)
    }

    ghost function Open(): set<nat>
      reads this, marks
    {
      set j | 0 <= j < marks.Length && marks[j] == Unvisited
    }

    constructor (edges: Edges)
      requires edges.Valid()
      ensures Valid() && fresh(marks) && this.edges == edges && path == []
      ensures forall j :: 0 <= j < marks.Length ==> marks[j] == Unvisited
    {
      this.edges := edges;
      marks := new Mark[|edges.names|](_ => Unvisited);
      path := [];
      finished := [];
    }

    /** Puts node `i` on the path. */
    method Enter(i: nat)
      requires Valid() && i < marks.Length && marks[i] == Unvisited
      requires path == [] || edges.names[i] in edges.upstreams[path[|path| - 1]]
      modifies this, marks
      ensures Valid() && path == old(path) + [i]
      ensures Open() == old(Open()) - {i} && i in old(Open())
      ensures forall j :: 0 <= j < marks.Length && j != i ==> marks[j] == old(marks[j])
    {
      TrailAppend(edges, path, i);
      hide IsOrdered, Edges.Valid, IsTrail;
      ghost var before := path;
      marks[i] := OnPath;
      path := path + [i];
      MembersOfAppend(before, i);
      assert Open() == old(Open()) - {i};
    }

    /** Takes node `i` off the path, when its upstreams are finished. */
    method Leave(i: nat)
      requires Valid() && i < marks.Length && path != [] && path[|path| - 1] == i && i !in path[..|path| - 1]
      requires forall u :: u in edges.upstreams[i] ==> marks[edges.index[u]] == Done
      modifies this, marks
      ensures Valid() && path == old(path)[..|old(path)| - 1]
      ensures Open() == old(Open()) && marks[i] == Done
      ensures forall j :: 0 <= j < marks.Length && j != i ==> marks[j] == old(marks[j])
    {
      OrderedAppend(edges, finished, i);
      TrailPrefix(edges, path);
      hide IsOrdered, Edges.Valid, IsTrail;
      ghost var before, done := path, finished;
      path := path[..|path| - 1];
      marks[i] := Done;
      finished := finished + [i];
      MembersOfAppend(path, i);
      MembersOfAppend(done, i);
      assert before == path + [i];
      assert Open() == old(Open());
    }

    /** Visits node `i` and everything upstream of it. A cycle is reported as its
        path; without one, the node is finished and the path is as before. */
    method Visit(i: nat) returns (cycle: Option<seq<Name>>)
      requires Valid() && i < marks.Length && marks[i] == Unvisited
      requires path == [] || edges.names[i] in edges.upstreams[path[|path| - 1]]
      modifies this, marks
      ensures cycle.Some? ==> edges.IsCycle(cycle.value)
      ensures cycle == None ==> Valid() && path == old(path) && marks[i] == Done
      ensures cycle == None ==> Open() < old(Open())
      ensures cycle == None ==> forall j :: 0 <= j < marks.Length && old(marks[j]) == Done ==> marks[j] == Done
      decreases Open()
    {
      hide IsOrdered, Edges.IsCycle, Edges.IsPath, IsTrail;
      ghost var open := Open();
      assert i !in path;
      Enter(i);
      var todo := edges.upstreams[i];
      ghost var seen: set<Name> := {};
      while todo != {}
        invariant todo + seen == edges.upstreams[i]
        invariant Valid() && path == old(path) + [i]
        invariant Open() < open
        invariant forall u :: u in seen ==> marks[edges.index[u]] == Done
        invariant forall j :: 0 <= j < marks.Length && old(marks[j]) == Done ==> marks[j] == Done
        decreases todo
      {
        var up :| up in todo;
        todo, seen := todo - {up}, seen + {up};
        var j := edges.index[up];
        match marks[j]
        case OnPath =>
          cycle := Some(CycleFrom(edges, path, j));
          return;
        case Unvisited =>
          cycle := Visit(j);
          if cycle.Some? {
            return;
          }
        case Done =>
      }
      assert seen == edges.upstreams[i];
      Leave(i);
      cycle := None;
    }
  }

  lemma MembersOfAppend(s: seq<nat>, i: nat)
    ensures forall j {:trigger j in s} {:trigger j in s + [i]} :: j in s + [i] <==> j in s || j == i
  {
  }

  /** The positions step along upstream edges. */
  ghost predicate IsTrail(e: Edges, path: seq<nat>)
    requires e.Valid()
  {
    && (forall k {:trigger path[k]} :: 0 <= k < |path| ==> path[k] < |e.names|)
    && (forall k :: 1 <= k < |path| ==> IsLink(e, path[k - 1], path[k]))
  }

  predicate IsLink(e: Edges, i: nat, up: nat) {
    i < |e.upstreams| && up < |e.names| && e.names[up] in e.upstreams[i]
  }

  lemma TrailAppend(e: Edges, path: seq<nat>, i: nat)
    requires e.Valid() && IsTrail(e, path) && i < |e.names|
    requires path == [] || e.names[i] in e.upstreams[path[|path| - 1]]
    ensures IsTrail(e, path + [i])
  {
    assert path != [] ==> IsLink(e, path[|path| - 1], i);
  }

  lemma TrailPrefix(e: Edges, path: seq<nat>)
    requires e.Valid() && IsTrail(e, path) && path != []
    ensures IsTrail(e, path[..|path| - 1])
  {
  }

  /** Each node comes after its upstreams. */
  ghost predicate IsOrdered(e: Edges, finished: seq<nat>)
    requires e.Valid()
  {
    forall k, u {:trigger u in e.upstreams[finished[k]]} ::
      0 <= k < |finished| && finished[k] < |e.names| && u in e.upstreams[finished[k]] ==>
        e.index[u] in finished[..k]
  }

  lemma OrderedAppend(e: Edges, finished: seq<nat>, i: nat)
    requires e.Valid() && IsOrdered(e, finished) && i < |e.names|
    requires forall u :: u in e.upstreams[i] ==> e.index[u] in finished
    ensures IsOrdered(e, finished + [i])
  {
    var longer := finished + [i];
    forall k, u {:trigger u in e.upstreams[longer[k]]} |
      0 <= k < |longer| && longer[k] < |e.names| && u in e.upstreams[longer[k]]
      ensures e.index[u] in longer[..k]
    {
      if k < |finished| {
        assert longer[k] == finished[k] && longer[..k] == finished[..k];
        assert u in e.upstreams[finished[k]];
      } else {
        assert longer[..k] == finished;
      }
    }
  }

  /** The part of the path from `j` on, with `j` repeated. */
  function CycleFrom(e: Edges, path: seq<nat>, j: nat): (cycle: seq<Name>)
    requires e.Valid() && j in path && IsTrail(e, path)
    requires e.names[j] in e.upstreams[path[|path| - 1]]
    ensures e.IsCycle(cycle)
  {
    var start := Position(path, j);
    SuffixIsPath(e, path, start);
    PathExtends(e, Names(e, path[start..]), e.names[j]);
    Names(e, path[start..]) + [e.names[j]]
  }

  lemma SuffixIsPath(e: Edges, path: seq<nat>, start: nat)
    requires e.Valid() && start < |path|
    requires forall k {:trigger path[k]} :: 0 <= k < |path| ==> path[k] < |e.names|
    requires forall k {:trigger path[k]} :: 1 <= k < |path| ==> e.names[path[k]] in e.upstreams[path[k - 1]]
    ensures forall k {:trigger path[start..][k]} :: 0 <= k < |path| - start ==> path[start..][k] < |e.names|
    ensures e.IsPath(Names(e, path[start..]))
  {
    var names := Names(e, path[start..]);
    forall k {:trigger names[k]} | 1 <= k < |names|
      ensures names[k] in e.upstreams[e.index[names[k - 1]]]
    {
      assert path[start + k - 1] == path[start..][k - 1] && path[start + k] == path[start..][k];
      assert names[k - 1] == e.names[path[start + k - 1]];
    }
  }

  lemma PathExtends(e: Edges, path: seq<Name>, n: Name)
    requires e.Valid() && e.IsPath(path) && path != [] && n in e.upstreams[e.index[path[|path| - 1]]]
    ensures e.IsPath(path + [n])
  {
    var longer := path + [n];
    assert path[|path| - 1] in e.index;
    forall k | 0 <= k < |longer|
      ensures longer[k] in e.index
      ensures k >= 1 ==> longer[k] in e.upstreams[e.index[longer[k - 1]]]
    {
      if k < |path| {
        assert longer[k] == path[k];
      }
    }
  }

  function Names(e: Edges, path: seq<nat>): (names: seq<Name>)
    requires forall k {:trigger path[k]} :: 0 <= k < |path| ==> path[k] < |e.names|
    ensures |names| == |path| && forall k {:trigger names[k]} :: 0 <= k < |path| ==> names[k] == e.names[path[k]]
  {
    seq(|path|, k requires 0 <= k < |path| => e.names[path[k]])
  }

  function Position(finished: seq<nat>, j: nat): (k: nat)
    requires j in finished
    ensures k < |finished| && finished[k] == j && j !in finished[..k]
  {
    if finished[0] == j then 0 else 1 + Position(finished[1..], j)
  }

  /** The order in which the nodes finished is a rank. */
  lemma FinishedIsRank(e: Edges, finished: seq<nat>)
    requires e.Valid() && IsOrdered(e, finished)
    requires forall j :: 0 <= j < |e.names| ==> j in finished
    ensures exists rank :: e.IsRank(rank)
  {
    var rank: map<Name, nat> := map n | n in e.index :: Position(finished, e.index[n]);
    forall i, u {:trigger u in e.upstreams[i]} | 0 <= i < |e.names| && u in e.upstreams[i]
      ensures u in rank && e.names[i] in rank && rank[u] < rank[e.names[i]]
    {
      var k := Position(finished, i);
      assert u in e.upstreams[finished[k]];
      assert e.index[u] in finished[..k];
      FirstIsEarlier(finished, e.index[u], k);
    }
    assert e.IsRank(rank);
  }

  lemma {:induction false} FirstIsEarlier(finished: seq<nat>, j: nat, k: nat)
    requires k <= |finished| && j in finished[..k]
    ensures j in finished && Position(finished, j) < k
  {
    if finished[0] != j {
      assert finished[..k][1..] == finished[1..][..k - 1];
      FirstIsEarlier(finished[1..], j, k - 1);
    }
  }

  /** A cycle as the names along it, or `None` exactly when the nodes have a rank. */
  method FindCycle(e: Edges) returns (cycle: Option<seq<Name>>)
    requires e.Valid()
    ensures cycle.Some? ==> e.IsCycle(cycle.value)
    ensures cycle == None <==> exists rank :: e.IsRank(rank)
  {
    var search := new Search(e);
    for i := 0 to |e.names|
      invariant search.Valid() && search.edges == e && search.path == [] && fresh(search) && fresh(search.marks)
      invariant forall j :: 0 <= j < i ==> search.marks[j] == Done
    {
      if search.marks[i] == Unvisited {
        cycle := search.Visit(i);
        if cycle.Some? {
          forall rank
            ensures !e.IsRank(rank)
          {
            CycleRefutesRank(e, cycle.value, rank);
          }
          return;
        }
      }
    }
    forall j | 0 <= j < |e.names|
      ensures j in search.finished
    {
      assert search.marks[j] == Done;
    }
    FinishedIsRank(e, search.finished);
    cycle := None;
  }
}

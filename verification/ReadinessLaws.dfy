/**
 What the node states of one graph run mean: a waiting node waits for a ready
 one, and a blocked node stays blocked until a rerun.
 */
module ReadinessLaws {
  import opened Wrappers
  import opened Records
  import opened Graphs
  import opened Readiness

  /** `a` is an upstream of `n`, of an upstream of `n`, and so on. */
  ghost predicate IsAncestor(g: Graph, a: Name, n: Name)
    requires g.Valid() && n in g.index
    decreases g.Rank(n)
  {
    exists u :: u in g.Get(n).upstreams && (u == a || IsAncestor(g, a, u))
  }

  lemma AncestorVia(g: Graph, a: Name, u: Name, n: Name)
    requires g.Valid() && n in g.index && u in g.Get(n).upstreams
    requires u == a || IsAncestor(g, a, u)
    ensures IsAncestor(g, a, n)
  {
  }

  lemma AncestorIsNode(g: Graph, a: Name, n: Name)
    requires g.Valid() && n in g.index && IsAncestor(g, a, n)
    ensures a in g.index
    decreases g.Rank(n)
  {
    var u :| u in g.Get(n).upstreams && (u == a || IsAncestor(g, a, u));
    if u != a {
      AncestorIsNode(g, a, u);
    }
  }

  /** The classification of one node, spelled out over its upstreams. */
  lemma StateReads(g: Graph, records: NodeRecords, n: Name)
    requires g.Valid() && n in g.index
    ensures n in records ==> StateOf(g, records, n) == Recorded(records[n].status)
    ensures n !in records ==>
              (StateOf(g, records, n) == Ready <==> IsReady(g.Get(n), records))
    ensures n !in records && g.Get(n).Rule() == AllSucceeded ==>
              (StateOf(g, records, n) == Blocked <==>
               exists u :: u in g.Get(n).upstreams
                 && StateOf(g, records, u) != Recorded(Succeeded) && !StateOf(g, records, u).IsOpen())
    ensures n !in records && !IsReady(g.Get(n), records) && g.Get(n).Rule() == AllDone ==>
              (StateOf(g, records, n) == Blocked <==>
               exists u :: u in g.Get(n).upstreams && StateOf(g, records, u) == Blocked)
    ensures n !in records && !IsReady(g.Get(n), records) && g.Get(n).Rule() == OneFailed ==>
              (StateOf(g, records, n) == Blocked <==>
               forall u :: u in g.Get(n).upstreams ==> !StateOf(g, records, u).IsOpen())
  {
    var states := StatesOf(g, records);
    StateOfUnfolds(g, records, n, states);
    if n !in records && g.Get(n).Rule() == AllSucceeded && IsReady(g.Get(n), records) {
      forall u | u in g.Get(n).upstreams
        ensures StateOf(g, records, u) == Recorded(Succeeded)
      {
        StateOfUnfolds(g, records, u, states);
      }
    }
  }

  lemma OpenUpstream(g: Graph, records: NodeRecords, n: Name) returns (u: Name)
    requires g.Valid() && n in g.index && StateOf(g, records, n) == Waiting
    ensures u in g.Get(n).upstreams && u in g.index && StateOf(g, records, u).IsOpen()
  {
    hide StateOf;
    StateReads(g, records, n);
    UnrecordedState(g, records, n);
    assert n !in records && !IsReady(g.Get(n), records);
    match g.Get(n).Rule()
    case AllSucceeded =>
      u :| u in g.Get(n).upstreams && (u !in records || records[u].status != Succeeded);
      StateReads(g, records, u);
      UnrecordedState(g, records, u);
    case AllDone =>
      u :| u in g.Get(n).upstreams && u !in records;
      StateReads(g, records, u);
      assert StateOf(g, records, u) != Blocked;
      UnrecordedState(g, records, u);
    case OneFailed =>
      u :| u in g.Get(n).upstreams && StateOf(g, records, u).IsOpen();
  }

  lemma UnrecordedState(g: Graph, records: NodeRecords, n: Name)
    requires g.Valid() && n in g.index
    ensures StateOf(g, records, n).Recorded? <==> n in records
  {
  }

  /** A waiting node has a ready ancestor, so some record can still follow. */
  lemma {:induction false} WaitingHasReadyAncestor(g: Graph, records: NodeRecords, n: Name) returns (a: Name)
    requires g.Valid() && n in g.index && StateOf(g, records, n) == Waiting
    ensures a in g.index && IsAncestor(g, a, n) && StateOf(g, records, a) == Ready
    decreases g.Rank(n)
  {
    hide StateOf;
    var u := OpenUpstream(g, records, n);
    RankDecreases(g, n, u);
    if StateOf(g, records, u) == Ready {
      a := u;
    } else {
      a := WaitingHasReadyAncestor(g, records, u);
    }
  }

  /** The run is unsettled exactly when some node is ready, and complete exactly
      when every node has a succeeded record. */
  lemma SettledExactlyWithoutReadyNodes(g: Graph, records: NodeRecords)
    requires g.Valid()
    ensures SettledState(StatesOf(g, records)) == None <==>
            exists n :: n in g.index && StateOf(g, records, n) == Ready
    ensures SettledState(StatesOf(g, records)) == Some(RunComplete) <==>
            forall n :: n in g.index ==> n in records && records[n].status == Succeeded
    ensures SettledState(StatesOf(g, records)) in {None, Some(RunComplete), Some(RunFailed)}
  {
    hide StateOf;
    var states := StatesOf(g, records);
    if n :| n in states && states[n].IsOpen() {
      assert n in g.index && StateOf(g, records, n) == states[n];
      UnrecordedState(g, records, n);
      if states[n] == Waiting {
        var a := WaitingHasReadyAncestor(g, records, n);
      }
    }
    if n :| n in g.index && StateOf(g, records, n) == Ready {
      assert states[n].IsOpen();
      UnrecordedState(g, records, n);
    }
    forall n | n in g.index
      ensures states[n] == Recorded(Succeeded) <==> n in records && records[n].status == Succeeded
    {
      StateReads(g, records, n);
      UnrecordedState(g, records, n);
    }
  }

  /** How the state of a node can change as records are added to ready nodes. */
  predicate MayFollow(before: NodeState, after: NodeState) {
    match before
    case Recorded(_) => after == before
    case Ready => after == Ready || after.Recorded?
    case Waiting => true
    case Blocked => after == Blocked
  }

  lemma {:induction false} OneRecordFollows(g: Graph, records: NodeRecords, r: Name, record: NodeRecord, n: Name)
    requires g.Valid() && n in g.index && r in g.index && StateOf(g, records, r) == Ready
    ensures MayFollow(StateOf(g, records, n), StateOf(g, records[r := record], n))
    ensures n != r ==> (n in records[r := record] <==> n in records)
    decreases g.Rank(n)
  {
    hide StateOf;
    var next := records[r := record];
    UnrecordedState(g, records, r);
    StateReads(g, records, n);
    StateReads(g, next, n);
    forall u | u in g.Get(n).upstreams
      ensures u in g.index
      ensures MayFollow(StateOf(g, records, u), StateOf(g, next, u))
      ensures StateOf(g, records, u).Recorded? <==> u in records
      ensures u in records ==> StateOf(g, records, u) == Recorded(records[u].status)
    {
      RankDecreases(g, n, u);
      OneRecordFollows(g, records, r, record, u);
      UnrecordedState(g, records, u);
      StateReads(g, records, u);
    }
    UnrecordedState(g, records, n);
    if StateOf(g, records, n) == Blocked {
      BlockedFollows(g, records, r, record, n);
    } else if StateOf(g, records, n) == Ready {
      ReadyFollows(g.Get(n), records, r, record);
    }
  }

  lemma ReadyFollows(node: Node, records: NodeRecords, r: Name, record: NodeRecord)
    requires IsReady(node, records) && r !in records
    ensures IsReady(node, records[r := record])
  {
    if node.Rule() == OneFailed {
      var u :| u in node.upstreams && u in records && records[u].status == Failed;
      assert records[r := record][u].status == Failed;
    }
  }

  lemma BlockedFollows(g: Graph, records: NodeRecords, r: Name, record: NodeRecord, n: Name)
    requires g.Valid() && n in g.index && r in g.index && StateOf(g, records, r) == Ready
    requires n !in records && StateOf(g, records, n) == Blocked
    requires forall u :: u in g.Get(n).upstreams ==>
               u in g.index && MayFollow(StateOf(g, records, u), StateOf(g, records[r := record], u))
    ensures StateOf(g, records[r := record], n) == Blocked
  {
    hide StateOf;
    var next := records[r := record];
    StateReads(g, records, n);
    StateReads(g, next, n);
    assert n !in next && !IsReady(g.Get(n), records);
    match g.Get(n).Rule()
    case AllSucceeded =>
      var u :| u in g.Get(n).upstreams
        && StateOf(g, records, u) != Recorded(Succeeded) && !StateOf(g, records, u).IsOpen();
      assert StateOf(g, next, u) == StateOf(g, records, u);
    case AllDone =>
      var u :| u in g.Get(n).upstreams && StateOf(g, records, u) == Blocked;
      assert StateOf(g, next, u) == Blocked;
      UnrecordedState(g, next, u);
      assert !IsReady(g.Get(n), next);
    case OneFailed =>
      forall u | u in g.Get(n).upstreams
        ensures !StateOf(g, next, u).IsOpen()
        ensures u in next ==> u in records && next[u] == records[u]
      {
        assert !StateOf(g, records, u).IsOpen();
        assert u != r;
        UnrecordedState(g, next, u);
        UnrecordedState(g, records, u);
      }
      assert !IsReady(g.Get(n), next);
  }

  datatype Addition = Addition(node: Name, record: NodeRecord)

  function AddAll(records: NodeRecords, additions: seq<Addition>): NodeRecords
    decreases |additions|
  {
    if additions == [] then records
    else AddAll(records[additions[0].node := additions[0].record], additions[1..])
  }

  /** Every addition is of a node that is ready at that point, with any status. */
  ghost predicate OfReadyNodes(g: Graph, records: NodeRecords, additions: seq<Addition>)
    requires g.Valid()
    decreases |additions|
  {
    additions != [] ==>
      && additions[0].node in g.index
      && StateOf(g, records, additions[0].node) == Ready
      && OfReadyNodes(g, records[additions[0].node := additions[0].record], additions[1..])
  }

  /** Blocked is permanent: no sequence of records of ready nodes unblocks a node
      or gives it a record. */
  lemma {:induction false} BlockedIsPermanent(g: Graph, records: NodeRecords, additions: seq<Addition>, n: Name)
    requires g.Valid() && n in g.index && StateOf(g, records, n) == Blocked
    requires OfReadyNodes(g, records, additions)
    ensures StateOf(g, AddAll(records, additions), n) == Blocked
    ensures n !in AddAll(records, additions)
    decreases |additions|
  {
    if additions == [] {
      UnrecordedState(g, records, n);
    } else {
      var a := additions[0];
      OneRecordFollows(g, records, a.node, a.record, n);
      BlockedIsPermanent(g, records[a.node := a.record], additions[1..], n);
    }
  }
}

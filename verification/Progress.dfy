/**
 Where runs of atomic handlers lead: what a settled run is, that it stays, that an
 active run is never stuck, and that it ends after a bounded number of terminations.
 */
module Progress {
  import opened Wrappers
  import opened Json
  import opened Records
  import opened Graphs
  import opened Readiness
  import opened ReadinessLaws
  import opened Store
  import opened RunRules
  import opened RunLaws
  import opened Handlers
  import opened Settlement

  lemma EmptyIsSound(g: Graph)
    requires g.Valid()
    ensures AtomicInv(g, Empty)
  {
  }

  /** In every run from the empty store, a settled run has no active instance and no
      ready or waiting node, and it is complete exactly when every node has a
      current succeeded record. */
  lemma SettledRunIsFinished(g: Graph, actions: seq<Action>)
    requires g.Valid() && IsSettled(Perform(g, Empty, actions))
    ensures var st := Perform(g, Empty, actions);
            && st.active == {}
            && (forall n :: n in g.index ==> !CurrentStates(g, st)[n].IsOpen())
            && (st.run.value.state == RunComplete <==>
                forall n :: n in g.index ==>
                  && n in st.records && st.records[n].status == Succeeded
                  && st.run.value.IsCurrent(n, st.records[n]))
  {
    hide StateOf;
    EmptyIsSound(g);
    PerformKeeps(g, Empty, actions);
    var st := Perform(g, Empty, actions);
    SettledExactlyWithoutReadyNodes(g, CurrentRecords(st.run.value, st.records));
  }

  lemma SettledStays(g: Graph, st: Store, a: Action)
    requires g.Valid() && IsSettled(st) && st.active == {} && !IsRerun(a)
    ensures Do(g, st, a).run == st.run && Do(g, st, a).records == st.records && Do(g, st, a).active == {}
  {
  }

  /** Until a rerun, a settled run keeps its record and its node records. */
  lemma {:induction false} SettledRunIsFinal(g: Graph, st: Store, actions: seq<Action>)
    requires g.Valid() && AtomicInv(g, st) && IsSettled(st)
    requires forall a :: a in actions ==> !IsRerun(a)
    ensures Perform(g, st, actions).run == st.run
    ensures Perform(g, st, actions).records == st.records
    ensures Perform(g, st, actions).active == {}
    decreases |actions|
  {
    assert st.active == {};
    if actions != [] {
      hide Do, AtomicInv;
      assert actions[0] in actions;
      SettledStays(g, st, actions[0]);
      DoKeeps(g, st, actions[0]);
      SettledRunIsFinal(g, Do(g, st, actions[0]), actions[1..]);
    }
  }

  /** An active run without an active instance is settled by a reconciler pass, or
      the pass submits an instance that was never submitted before. */
  lemma NoRunIsStuck(g: Graph, st: Store)
    requires g.Valid() && AtomicInv(g, st) && IsActive(st) && st.active == {}
    ensures var next := ReconcileTo(g, st);
            IsSettled(next) || (next.active != {} && next.active !! st.submitted.Keys)
  {
    hide StateOf, StatesOf, AtomicInv, CurrentRecords, ReadyInputs, ReadyRuns;
    var current := CurrentRecords(st.run.value, st.records);
    AtomicStore(g, st);
    SettledExactlyWithoutReadyNodes(g, current);
    if n :| n in g.index && StateOf(g, current, n) == Ready {
      ReadyIsSubmitted(g, st, n);
    } else {
      NoReadyInputs(g, st);
      ScanFindsActive(g, st);
    }
  }

  /** The ready node is submitted at a count that was never submitted before. */
  lemma ReadyIsSubmitted(g: Graph, st: Store, n: Name)
    requires g.Valid() && StoreInv(g, st) && IsActive(st) && st.active == {}
    requires n in g.index && StateOf(g, CurrentRecords(st.run.value, st.records), n) == Ready
    ensures var next := ReconcileTo(g, st);
            next.active != {} && next.active !! st.submitted.Keys
  {
    hide StateOf, StatesOf, SettledState, PayloadInv, Graph.Wired, Graph.Acyclic, IsReady;
    var mid := SubmitReady(g, st, st.run.value, g.index.Keys);
    SubmitReadyKeeps(g, st, g.index.Keys);
    ScanFindsActive(g, mid);
    var id := RunId(n, NextCount(st.records, n));
    assert id in ReadyRuns(g, st.run.value, st.records, g.index.Keys);
    assert id !in st.submitted;
    assert id in mid.active;
  }

  lemma NoReadyInputs(g: Graph, st: Store)
    requires g.Valid() && st.run.Some?
    requires forall n :: n in g.index ==> StateOf(g, CurrentRecords(st.run.value, st.records), n) != Ready
    ensures SubmitReady(g, st, st.run.value, g.index.Keys) == st
  {
    hide StateOf;
    assert ReadyRuns(g, st.run.value, st.records, g.index.Keys) == {};
  }

  // ---- Terminations are bounded ----

  ghost function Lacking(g: Graph, st: Store): set<Name> {
    set n | n in g.index && (st.run == None || n !in CurrentRecords(st.run.value, st.records))
  }

  /** Active instances of nodes that have a current record: reruns of failed nodes. */
  ghost function Overtaking(st: Store): set<RunId> {
    set id | id in st.active && st.run.Some? && id.node in CurrentRecords(st.run.value, st.records)
  }

  /** The terminations still to come without a further rerun. */
  ghost function Work(g: Graph, st: Store): nat {
    |Lacking(g, st)| + |Overtaking(st)|
  }

  ghost predicate Terminates(st: Store, a: Action) {
    a.Terminated? && a.run in st.active && a.run in st.submitted
  }

  ghost function Terminations(g: Graph, st: Store, actions: seq<Action>): nat
    requires g.Valid()
    decreases |actions|
  {
    if actions == [] then 0
    else (if Terminates(st, actions[0]) then 1 else 0) + Terminations(g, Do(g, st, actions[0]), actions[1..])
  }

  /** A termination makes the record of its node current, and touches no other node. */
  lemma TerminationMakesCurrent(g: Graph, st: Store, a: Action)
    requires g.Valid() && StoreInv(g, st) && Terminates(st, a)
    ensures var next := Do(g, st, a);
            && st.run.Some? && next.run == st.run && next.active == st.active - {a.run}
            && a.run.node in g.index
            && CurrentRecords(st.run.value, next.records).Keys
               == CurrentRecords(st.run.value, st.records).Keys + {a.run.node}
  {
    var next := Do(g, st, a);
    assert UnrecordedRunId(st.run.value, st.records, a.run.node) == Some(a.run);
    assert st.run.value.IsCurrent(a.run.node, next.records[a.run.node]);
  }

  lemma TerminationDoesWork(g: Graph, st: Store, a: Action)
    requires g.Valid() && AtomicInv(g, st) && Terminates(st, a)
    ensures Work(g, Do(g, st, a)) + 1 == Work(g, st)
  {
    TerminationMakesCurrent(g, st, a);
    OnlyOneActive(g, st, a.run);
    hide StoreInv, SettledInv, CurrentRecords, Do, Lacking, Overtaking;
    LackingShrinks(g, st, Do(g, st, a), a.run.node);
    OvertakingShrinks(st, Do(g, st, a), a.run);
  }

  lemma LackingShrinks(g: Graph, st: Store, next: Store, n: Name)
    requires st.run.Some? && next.run == st.run && n in g.index
    requires CurrentRecords(st.run.value, next.records).Keys == CurrentRecords(st.run.value, st.records).Keys + {n}
    ensures n in CurrentRecords(st.run.value, st.records) ==> |Lacking(g, next)| == |Lacking(g, st)|
    ensures n !in CurrentRecords(st.run.value, st.records) ==> |Lacking(g, next)| + 1 == |Lacking(g, st)|
  {
    hide CurrentRecords;
    var before, after := CurrentRecords(st.run.value, st.records), CurrentRecords(st.run.value, next.records);
    assert forall m :: m in after <==> m in before || m == n;
    if n in before {
      assert Lacking(g, next) == Lacking(g, st);
    } else {
      assert n in Lacking(g, st) && n !in Lacking(g, next);
      assert Lacking(g, st) == Lacking(g, next) + {n};
    }
  }

  lemma OvertakingShrinks(st: Store, next: Store, id: RunId)
    requires st.run.Some? && next.run == st.run && id in st.active && next.active == st.active - {id}
    requires CurrentRecords(st.run.value, next.records).Keys == CurrentRecords(st.run.value, st.records).Keys + {id.node}
    requires forall other :: other in st.active && other.node == id.node ==> other == id
    ensures id.node in CurrentRecords(st.run.value, st.records) ==> |Overtaking(next)| + 1 == |Overtaking(st)|
    ensures id.node !in CurrentRecords(st.run.value, st.records) ==> |Overtaking(next)| == |Overtaking(st)|
  {
    hide CurrentRecords;
    var before, after := CurrentRecords(st.run.value, st.records), CurrentRecords(st.run.value, next.records);
    assert forall m :: m in after <==> m in before || m == id.node;
    if id.node in before {
      assert id in Overtaking(st) && id !in Overtaking(next);
      assert Overtaking(st) == Overtaking(next) + {id};
    } else {
      assert Overtaking(st) == Overtaking(next);
    }
  }

  lemma OnlyOneActive(g: Graph, st: Store, id: RunId)
    requires StoreInv(g, st) && id in st.active
    ensures forall other :: other in st.active && other.node == id.node ==> other == id
  {
  }

  lemma SameWork(g: Graph, st: Store, next: Store)
    requires next.run.Some? && st.run.Some? && next.records == st.records
    requires CurrentRecords(next.run.value, st.records) == CurrentRecords(st.run.value, st.records)
    requires st.active <= next.active
    requires forall id :: id in next.active - st.active ==> id.node !in CurrentRecords(st.run.value, st.records)
    ensures Work(g, next) == Work(g, st)
  {
    assert Lacking(g, next) == Lacking(g, st);
    assert Overtaking(next) == Overtaking(st);
  }

  lemma AdvanceDoesNoWork(g: Graph, st: Store, candidates: set<Name>)
    requires g.Valid() && StoreInv(g, st) && IsActive(st) && candidates <= g.index.Keys
    ensures Work(g, AdvanceTo(g, st, candidates)) == Work(g, st)
  {
    hide StateOf, StoreInv;
    var run := st.run.value;
    var mid := SubmitReady(g, st, run, candidates);
    var next := AdvanceTo(g, st, candidates);
    if CanSettle(g, mid, run) {
      PruneKeepsCurrent(run, st.records, next.run.value.state, st.clock);
    }
    ReadyLackRecords(g, st, candidates);
    SameWork(g, st, next);
  }

  lemma ReadyLackRecords(g: Graph, st: Store, candidates: set<Name>)
    requires g.Valid() && IsActive(st) && candidates <= g.index.Keys
    ensures forall id :: id in SubmitReady(g, st, st.run.value, candidates).active - st.active ==>
              id.node !in CurrentRecords(st.run.value, st.records)
  {
    hide StateOf;
    var run := st.run.value;
    forall id | id in SubmitReady(g, st, run, candidates).active - st.active
      ensures id.node !in CurrentRecords(run, st.records)
    {
      assert id in ReadyRuns(g, run, st.records, candidates);
      UnrecordedState(g, CurrentRecords(run, st.records), id.node);
    }
  }

  /** The submits of an advance that is cut before its settle. */
  lemma SubmitsDoNoWork(g: Graph, st: Store, candidates: set<Name>)
    requires g.Valid() && IsActive(st) && candidates <= g.index.Keys
    ensures Work(g, SubmitReady(g, st, st.run.value, candidates)) == Work(g, st)
  {
    hide StateOf;
    ReadyLackRecords(g, st, candidates);
    SameWork(g, st, SubmitReady(g, st, st.run.value, candidates));
  }

  lemma StartDoesNoWork(g: Graph, st: Store, definition: string, roots: set<Name>)
    requires g.Valid() && StoreInv(g, st)
    ensures Work(g, StartSome(st, definition, roots)) == Work(g, st)
  {
    if st.run == None {
      NothingBeforeTheRun(g, st);
      var next := StartSome(st, definition, roots);
      assert Lacking(g, next) == Lacking(g, st);
      assert Overtaking(next) == Overtaking(st);
    }
  }

  lemma OtherActionsDoNoWork(g: Graph, st: Store, a: Action)
    requires g.Valid() && AtomicInv(g, st) && !IsRerun(a) && !Terminates(st, a)
    ensures Work(g, Do(g, st, a)) == Work(g, st)
  {
    match a
    case Start(definition) => StartDoesNoWork(g, st, definition, g.Roots());
    case Event(n) =>
      if n in st.events && IsActive(st) && n in g.index {
        AdvanceDoesNoWork(g, st, g.Get(n).downstreams);
      }
    case Reconcile =>
      if IsActive(st) {
        AdvanceDoesNoWork(g, st, g.index.Keys);
      }
    case Cancel => CancelDoesNoWork(g, st);
    case Deliver(id, request) =>
      if id !in st.requests {
        if request.StartRequest? {
          StartDoesNoWork(g, st, request.definition, g.Roots());
          SameView(g, StartTo(g, st, request.definition), Do(g, st, a));
        } else {
          CancelDoesNoWork(g, st);
          SameView(g, CancelTo(st), Do(g, st, a));
          SameView(g, st, CancelTo(st).(run := st.run));
        }
      }
    case Terminated(_, _, _, _) =>
    case Acknowledge(_) => SameView(g, st, Do(g, st, a));
    case Tick => SameView(g, st, Do(g, st, a));
    case StartCut(definition, roots) => StartDoesNoWork(g, st, definition, roots);
    case AdvanceCut(candidates) =>
      if IsActive(st) && candidates <= g.index.Keys {
        SubmitsDoNoWork(g, st, candidates);
      }
  }

  lemma SameView(g: Graph, st: Store, next: Store)
    requires next.run == st.run && next.records == st.records && next.active == st.active
    ensures Work(g, next) == Work(g, st)
  {
    assert Lacking(g, next) == Lacking(g, st);
    assert Overtaking(next) == Overtaking(st);
  }

  lemma CancelDoesNoWork(g: Graph, st: Store)
    requires g.Valid()
    ensures Work(g, CancelTo(st)) == Work(g, st)
  {
    if IsActive(st) {
      var next := CancelTo(st);
      assert CurrentRecords(next.run.value, st.records) == CurrentRecords(st.run.value, st.records);
      SameWork(g, st, next);
    }
  }

  /** Without a further rerun, a run has at most `Work` more terminations. */
  lemma {:induction false} TerminationsAreBounded(g: Graph, st: Store, actions: seq<Action>)
    requires g.Valid() && AtomicInv(g, st)
    requires forall a :: a in actions ==> !IsRerun(a)
    ensures Terminations(g, st, actions) + Work(g, Perform(g, st, actions)) == Work(g, st)
    decreases |actions|
  {
    hide Work, Do, AtomicInv, IsRerun, Terminates;
    if actions != [] {
      var a := actions[0];
      assert a in actions;
      DoKeeps(g, st, a);
      if Terminates(st, a) {
        TerminationDoesWork(g, st, a);
      } else {
        OtherActionsDoNoWork(g, st, a);
      }
      TerminationsAreBounded(g, Do(g, st, a), actions[1..]);
    }
  }

  // ---- Every diligent run ends ----

  /** Each action terminates an active instance, or reconciles when none is active. */
  ghost predicate Diligent(g: Graph, st: Store, actions: seq<Action>)
    requires g.Valid()
    decreases |actions|
  {
    actions != [] ==>
      && (if st.active != {} then Terminates(st, actions[0]) else actions[0].Reconcile?)
      && Diligent(g, Do(g, st, actions[0]), actions[1..])
  }

  ghost function Patience(g: Graph, st: Store): nat {
    2 * Work(g, st) + (if st.active == {} then 1 else 0)
  }

  /** Whatever the statuses of the terminations, such a run settles. */
  lemma {:induction false} DiligentRunSettles(g: Graph, st: Store, actions: seq<Action>)
    requires g.Valid() && AtomicInv(g, st) && IsActive(st)
    requires Diligent(g, st, actions) && |actions| >= Patience(g, st)
    ensures exists k :: 0 <= k <= Patience(g, st) && IsSettled(Perform(g, st, actions[..k]))
    decreases |actions|
  {
    hide AtomicInv, Do, Work, Graph.Valid;
    ActiveMeansWork(g, st);
    var a := actions[0];
    var next := Do(g, st, a);
    DoKeeps(g, st, a);
    if st.active == {} {
      NoRunIsStuck(g, st);
      OtherActionsDoNoWork(g, st, a);
      assert next == ReconcileTo(g, st) by {
        ReconcileDoes(g, st, a);
      }
    } else {
      TerminationDoesWork(g, st, a);
    }
    if IsSettled(next) {
      PerformOne(g, st, actions);
      assert IsSettled(Perform(g, st, actions[..1]));
    } else {
      StaysActive(g, st, a);
      assert Patience(g, next) < Patience(g, st);
      DiligentRunSettles(g, next, actions[1..]);
      var k :| 0 <= k <= Patience(g, next) && IsSettled(Perform(g, next, actions[1..][..k]));
      PerformPrefix(g, st, actions, k);
      assert IsSettled(Perform(g, st, actions[..k + 1]));
    }
  }

  lemma ReconcileDoes(g: Graph, st: Store, a: Action)
    requires g.Valid() && IsActive(st) && a.Reconcile?
    ensures Do(g, st, a) == ReconcileTo(g, st)
  {
    hide ReconcileTo;
  }

  lemma ActiveMeansWork(g: Graph, st: Store)
    requires g.Valid() && AtomicInv(g, st) && IsActive(st)
    ensures Patience(g, st) > 0
  {
    if st.active != {} {
      var id :| id in st.active;
      assert id in st.submitted;
      if id.node in CurrentRecords(st.run.value, st.records) {
        assert id in Overtaking(st);
      } else {
        assert id.node in Lacking(g, st);
      }
    }
  }

  lemma StaysActive(g: Graph, st: Store, a: Action)
    requires g.Valid() && IsActive(st) && (a.Terminated? || a.Reconcile?)
    requires !IsSettled(Do(g, st, a))
    ensures IsActive(Do(g, st, a))
  {
    hide StateOf, StatesOf, CurrentRecords, SubmitReady, Graph.Valid;
    if a.Reconcile? {
      SubmitReadyKeepsRun(g, st, g.index.Keys);
      SettledExactlyWithoutReadyNodes(g, CurrentRecords(st.run.value, st.records));
    }
  }

  lemma PerformOne(g: Graph, st: Store, actions: seq<Action>)
    requires g.Valid() && actions != []
    ensures Perform(g, st, actions[..1]) == Do(g, st, actions[0])
  {
    assert actions[..1][1..] == [];
  }

  lemma PerformPrefix(g: Graph, st: Store, actions: seq<Action>, k: nat)
    requires g.Valid() && k + 1 <= |actions|
    ensures Perform(g, st, actions[..k + 1]) == Perform(g, Do(g, st, actions[0]), actions[1..][..k])
  {
    assert actions[..k + 1][1..] == actions[1..][..k];
  }
}

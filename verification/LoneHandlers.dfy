/**
 Handlers that run alone, from an arbitrary world of the interleaved protocol: what
 other handlers did before, and crashed or stopped at, does not change what a handler
 does, and its single steps add up to the transition of the whole handler.
 */
module LoneHandlers {
  import opened Wrappers
  import opened Json
  import opened Records
  import opened Graphs
  import opened Readiness
  import opened ReadinessLaws
  import opened Store
  import opened RunRules
  import opened Handlers
  import opened Interleaving
  import opened InterleavingLaws
  import opened InterleavedSettles
  import opened InterleavedReruns
  import C = Scheduler
  import S = Settlement
  import P = Progress
  import L = HandlerLaws

  predicate Begins(s: Step) {
    s.BeginStart? || s.BeginEvent? || s.BeginReconcile? || s.BeginRerun? || s.BeginCancel?
  }

  function RequestOfStep(s: Step): Option<RequestId> {
    match s
    case BeginStart(_, _, request) => request
    case BeginRerun(_, _, request) => request
    case BeginCancel(_, request) => request
    case _ => None
  }

  /** What the handler that the step begins does to the store as one step. */
  ghost function Whole(g: Graph, st: Store, s: Step): Store
    requires g.Valid() && Begins(s)
  {
    match s
    case BeginStart(_, definition, request) =>
      if request.Some? then RequestTo(g, st, request.value, StartRequest(definition)) else StartTo(g, st, definition)
    case BeginEvent(_, n) => if n in st.events then EventTo(g, st, n) else st
    case BeginReconcile(_) => ReconcileTo(g, st)
    case BeginRerun(_, node, request) =>
      if request.Some? then RequestTo(g, st, request.value, RerunRequest(node)) else RerunTo(g, st, node, None).0
    case BeginCancel(_, request) =>
      if request.Some? then RequestTo(g, st, request.value, CancelRequest) else CancelTo(st)
  }

  function CandidatesOf(g: Graph, s: Step): set<Name>
    requires g.Indexed()
  {
    if s.BeginEvent? && s.event in g.index then g.Get(s.event).downstreams else g.index.Keys
  }

  /** An advance that `s` begins, which has read everything in the store `from`. */
  ghost predicate HasRead(g: Graph, from: Store, s: Step, run: GraphRunRecord, seen: NodeRecords)
    requires g.Valid()
  {
    && (s.BeginReconcile? || (s.BeginEvent? && s.event in from.events && s.event in g.index))
    && from.run == Some(run) && run.state == RunActive && seen == from.records
    && CandidatesOf(g, s) <= g.index.Keys
  }

  /** The rerun of the recorded node of an existing run goes ahead. */
  ghost predicate GoesAhead(g: Graph, from: Store, s: Step, seen: NodeRecords, node: Name, request: Option<RequestId>)
    requires g.Valid()
  {
    && s.BeginRerun? && s.node == node && s.request == request
    && from.run.Some? && node in g.index && node in seen && seen == from.records
    && (request.Some? ==> request.value !in from.requests)
    && IsReady(g.Get(node), CurrentRecords(Marked(g, from.run.value, from.records, node), from.records))
  }

  /** The handler that `s` began over the store `from`, between two of its steps. */
  ghost predicate IsUnderway(g: Graph, from: Store, s: Step, handler: Handler, st: Store)
    requires g.Valid() && Begins(s)
  {
    match handler
    case Rooting(definition, todo, request) =>
      && s.BeginStart? && s.definition == definition && s.request == request
      && (request.Some? ==> request.value !in from.requests)
      && from.run == None && todo <= g.Roots()
      && st == StartSome(from, definition, g.Roots() - todo)
    case Reading(run, goal, unread, seen) =>
      && st == from && from.run == Some(run)
      && seen == (map n | n in from.records && n !in unread :: from.records[n])
      && (match goal
          case Advance(candidates) =>
            HasRead(g, from, s, run, from.records) && candidates == CandidatesOf(g, s)
          case RerunNode(node, request) =>
            && s.BeginRerun? && s.node == node && s.request == request && node in g.index
            && (request.Some? ==> request.value !in from.requests))
    case Submitting(run, seen, todo) =>
      && HasRead(g, from, s, run, seen) && todo <= CandidatesOf(g, s)
      && st == SubmitReady(g, from, run, CandidatesOf(g, s) - todo)
    case Scanning(run, seen, state, unchecked) =>
      && HasRead(g, from, s, run, seen) && IsFinal(g, CurrentRecords(run, seen), state)
      && st == SubmitReady(g, from, run, CandidatesOf(g, s))
      && forall n {:trigger IsActiveUnrecorded(st, run, n)} ::
           n in g.index && n !in unchecked ==> !IsActiveUnrecorded(st, run, n)
    case Settling(run, seen, state) =>
      && HasRead(g, from, s, run, seen) && IsFinal(g, CurrentRecords(run, seen), state)
      && st == SubmitReady(g, from, run, CandidatesOf(g, s))
      && !HasActiveUnrecorded(g, st, run)
    case Marking(run, seen, node, request) =>
      st == from && from.run == Some(run) && GoesAhead(g, from, s, seen, node, request)
    case Resubmitting(marked, seen, node, request) =>
      && GoesAhead(g, from, s, seen, node, request)
      && marked == Marked(g, from.run.value, from.records, node)
      && st == from.(run := Some(marked))
    case Cancelling(run, request) =>
      && s.BeginCancel? && s.request == request && (request.Some? ==> request.value !in from.requests)
      && st == from && from.run == Some(run) && run.state == RunActive
    case Recording(id, outcome) =>
      RecordRequest(st, id, outcome) == Whole(g, from, s)
  }

  /** The handler `h` over the store `from`, between two of its steps or after its end. */
  ghost predicate IsAlone(g: Graph, from: Store, s: Step, h: nat, w: World)
    requires g.Valid() && Begins(s)
  {
    if h in w.handlers then IsUnderway(g, from, s, w.handlers[h], w.store) else w.store == Whole(g, from, s)
  }

  // ---- The steps of each handler ----

  lemma GoRooting(g: Graph, from: Store, s: Step, h: nat, w: World, choice: Name)
    requires g.Valid() && Begins(s) && h in w.handlers && w.handlers[h].Rooting?
    requires HandlerIn(g, w.handlers[h]) && IsUnderway(g, from, s, w.handlers[h], w.store)
    ensures IsAlone(g, from, s, h, GoWith(g, w, h, choice))
  {
    hide StateOf, StatesOf, SettledState, RootInputs, IsReady, Graph.Acyclic, Graph.Wired;
    var todo, definition := w.handlers[h].todo, w.handlers[h].definition;
    if todo == {} {
      assert g.Roots() - todo == g.Roots();
    } else if choice in todo {
      var done := g.Roots() - todo;
      assert g.Roots() - (todo - {choice}) == done + {choice};
      var payload := Payload(definition, map[], None);
      C.RootInputsGrow(definition, done, choice);
      RootInputsOf(definition, done);
      SubmitAllGrows(from.(run := Some(NewRun(definition, from.clock))), RootInputs(definition, done), RunId(choice, 0), payload);
    }
  }

  lemma RootInputsOf(definition: string, roots: set<Name>)
    ensures forall id :: id in RootInputs(definition, roots) ==>
              RootInputs(definition, roots)[id] == Payload(definition, map[], None)
  {
  }

  lemma GoReading(g: Graph, from: Store, s: Step, h: nat, w: World, choice: Name)
    requires g.Valid() && Begins(s) && h in w.handlers && w.handlers[h].Reading?
    requires HandlerIn(g, w.handlers[h]) && IsUnderway(g, from, s, w.handlers[h], w.store)
    ensures IsAlone(g, from, s, h, GoWith(g, w, h, choice))
  {
    hide GoWith, IsUnderway, HandlerIn, IsAlone;
    if w.handlers[h].unread != {} {
      ReadOne(g, from, s, h, w, choice);
    } else if w.handlers[h].goal.Advance? {
      ReadForAdvance(g, from, s, h, w, choice);
    } else {
      ReadForRerun(g, from, s, h, w, choice);
    }
  }

  lemma ReadOne(g: Graph, from: Store, s: Step, h: nat, w: World, choice: Name)
    requires g.Valid() && Begins(s) && h in w.handlers && w.handlers[h].Reading? && w.handlers[h].unread != {}
    requires HandlerIn(g, w.handlers[h]) && IsUnderway(g, from, s, w.handlers[h], w.store)
    ensures IsAlone(g, from, s, h, GoWith(g, w, h, choice))
  {
    hide StateOf, CurrentRecords, IsReady, Marked, HasRead, Submit, Graph.Valid;
  }

  lemma ReadForAdvance(g: Graph, from: Store, s: Step, h: nat, w: World, choice: Name)
    requires g.Valid() && Begins(s) && h in w.handlers && w.handlers[h].Reading? && w.handlers[h].unread == {}
    requires w.handlers[h].goal.Advance?
    requires HandlerIn(g, w.handlers[h]) && IsUnderway(g, from, s, w.handlers[h], w.store)
    ensures IsAlone(g, from, s, h, GoWith(g, w, h, choice))
  {
    hide StateOf, StatesOf, SettledState, CurrentRecords, IsReady, Marked, SubmitReady, Submit, Graph.Wired, Graph.Acyclic;
    assert w.handlers[h].seen == from.records;
    C.SubmitReadyNone(g, from, w.handlers[h].run);
    assert CandidatesOf(g, s) - CandidatesOf(g, s) == {};
  }

  lemma ReadForRerun(g: Graph, from: Store, s: Step, h: nat, w: World, choice: Name)
    requires g.Valid() && Begins(s) && h in w.handlers && w.handlers[h].Reading? && w.handlers[h].unread == {}
    requires w.handlers[h].goal.RerunNode?
    requires HandlerIn(g, w.handlers[h]) && IsUnderway(g, from, s, w.handlers[h], w.store)
    ensures IsAlone(g, from, s, h, GoWith(g, w, h, choice))
  {
    hide StateOf, StatesOf, SettledState, CurrentRecords, IsReady, Marked, SubmitAll, AdvanceTo, StartTo, CancelTo;
    assert w.handlers[h].seen == from.records;
  }

  lemma GoSubmitting(g: Graph, from: Store, s: Step, h: nat, w: World, choice: Name)
    requires g.Valid() && Begins(s) && h in w.handlers && w.handlers[h].Submitting?
    requires HandlerIn(g, w.handlers[h]) && IsUnderway(g, from, s, w.handlers[h], w.store)
    ensures IsAlone(g, from, s, h, GoWith(g, w, h, choice))
  {
    hide StateOf, StatesOf, SettledState, CurrentRecords, UpstreamRecords, IsReady, Marked, SubmitReady, Submit;
    var run, todo, all := w.handlers[h].run, w.handlers[h].todo, CandidatesOf(g, s);
    if todo == {} {
      assert all - todo == all;
      S.SubmitReadyKeepsRun(g, from, all);
    } else if choice in todo {
      assert all - (todo - {choice}) == (all - todo) + {choice};
      C.SubmitReadyGrows(g, from, run, all - todo, choice);
    }
  }

  lemma GoSettling(g: Graph, from: Store, s: Step, h: nat, w: World, choice: Name)
    requires g.Valid() && Begins(s) && h in w.handlers && (w.handlers[h].Scanning? || w.handlers[h].Settling?)
    requires HandlerIn(g, w.handlers[h]) && IsUnderway(g, from, s, w.handlers[h], w.store)
    ensures IsAlone(g, from, s, h, GoWith(g, w, h, choice))
  {
    hide StateOf, StatesOf, SettledState, CurrentRecords, UpstreamRecords, IsReady, Marked, Settled, ReadyInputs;
    var run := w.handlers[h].run;
    if w.handlers[h].Scanning? && choice in w.handlers[h].unchecked {
      assert IsActiveUnrecorded(w.store, run, choice) || !IsActiveUnrecorded(w.store, run, choice);
    }
  }

  lemma GoRerunning(g: Graph, from: Store, s: Step, h: nat, w: World, choice: Name)
    requires g.Valid() && Begins(s) && h in w.handlers && (w.handlers[h].Marking? || w.handlers[h].Resubmitting?)
    requires HandlerIn(g, w.handlers[h]) && IsUnderway(g, from, s, w.handlers[h], w.store)
    ensures IsAlone(g, from, s, h, GoWith(g, w, h, choice))
  {
    hide StateOf, StatesOf, SettledState, CurrentRecords, UpstreamRecords, IsReady, Marked;
  }

  lemma GoEnding(g: Graph, from: Store, s: Step, h: nat, w: World, choice: Name)
    requires g.Valid() && Begins(s) && h in w.handlers && (w.handlers[h].Cancelling? || w.handlers[h].Recording?)
    requires HandlerIn(g, w.handlers[h]) && IsUnderway(g, from, s, w.handlers[h], w.store)
    ensures IsAlone(g, from, s, h, GoWith(g, w, h, choice))
  {
    hide RerunTo, StartTo, EventTo, ReconcileTo;
  }

  lemma GoAlone(g: Graph, from: Store, s: Step, h: nat, w: World, choice: Name)
    requires g.Valid() && Begins(s) && WorldInv(g, w) && IsAlone(g, from, s, h, w)
    ensures IsAlone(g, from, s, h, Next(g, w, Go(h, choice)))
  {
    hide StoreInv, RequestsInv, HandlerOk, IsUnderway, GoWith, Whole;
    if h in w.handlers {
      assert HandlerInv(g, w, h);
      match w.handlers[h]
      case Rooting(_, _, _) => GoRooting(g, from, s, h, w, choice);
      case Reading(_, _, _, _) => GoReading(g, from, s, h, w, choice);
      case Submitting(_, _, _) => GoSubmitting(g, from, s, h, w, choice);
      case Scanning(_, _, _, _) => GoSettling(g, from, s, h, w, choice);
      case Settling(_, _, _) => GoSettling(g, from, s, h, w, choice);
      case Marking(_, _, _, _) => GoRerunning(g, from, s, h, w, choice);
      case Resubmitting(_, _, _, _) => GoRerunning(g, from, s, h, w, choice);
      case Cancelling(_, _) => GoEnding(g, from, s, h, w, choice);
      case Recording(_, _) => GoEnding(g, from, s, h, w, choice);
    }
  }

  lemma NoRootsYet(st: Store, definition: string)
    requires st.run == None
    ensures StartSome(st, definition, {}) == st.(run := Some(NewRun(definition, st.clock)))
  {
    assert RootInputs(definition, {}) == map[];
  }

  lemma StartsAlone(g: Graph, w: World, s: Step)
    requires g.Valid() && s.BeginStart? && s.h !in w.handlers
    requires s.request.Some? ==> forall k :: k in w.handlers ==> RequestOf(w.handlers[k]) == None
    ensures IsAlone(g, w.store, s, s.h, Next(g, w, s))
  {
    hide StateOf, SubmitAll, RootInputs, Graph.Acyclic, Graph.Wired;
    assert g.Roots() - g.Roots() == {};
    if w.store.run == None {
      NoRootsYet(w.store, s.definition);
    }
  }

  lemma AdvancesAlone(g: Graph, w: World, s: Step)
    requires g.Valid() && (s.BeginEvent? || s.BeginReconcile?) && s.h !in w.handlers
    requires w.store.records.Keys <= g.index.Keys
    ensures IsAlone(g, w.store, s, s.h, Next(g, w, s))
  {
    hide StateOf, AdvanceTo, Graph.Acyclic;
    NothingRead(g, w.store.records);
  }

  lemma RerunsAlone(g: Graph, w: World, s: Step)
    requires g.Valid() && (s.BeginRerun? || s.BeginCancel?) && s.h !in w.handlers
    requires s.request.Some? ==> forall k :: k in w.handlers ==> RequestOf(w.handlers[k]) == None
    requires w.store.records.Keys <= g.index.Keys
    ensures IsAlone(g, w.store, s, s.h, Next(g, w, s))
  {
    hide StateOf, IsReady, Marked, Submit, CurrentRecords, Graph.Valid;
    NothingRead(g, w.store.records);
  }

  lemma NothingRead(g: Graph, records: NodeRecords)
    requires records.Keys <= g.index.Keys
    ensures (map n | n in records && n !in g.index.Keys :: records[n]) == map[]
  {
  }

  lemma BeginsAlone(g: Graph, w: World, s: Step)
    requires g.Valid() && Begins(s) && s.h !in w.handlers
    requires RequestOfStep(s).Some? ==> forall k :: k in w.handlers ==> RequestOf(w.handlers[k]) == None
    requires w.store.records.Keys <= g.index.Keys
    ensures IsAlone(g, w.store, s, s.h, Next(g, w, s))
  {
    hide IsAlone, Next;
    match s
    case BeginStart(_, _, _) => StartsAlone(g, w, s);
    case BeginEvent(_, _) => AdvancesAlone(g, w, s);
    case BeginReconcile(_) => AdvancesAlone(g, w, s);
    case _ => RerunsAlone(g, w, s);
  }

  // ---- A handler left alone ----

  /** Every step is one of the handler `h`. */
  ghost predicate AreOf(h: nat, steps: seq<Step>) {
    forall k {:trigger steps[k]} :: 0 <= k < |steps| ==> steps[k].Go? && steps[k].h == h
  }

  lemma {:induction false} StepsAlone(g: Graph, from: Store, s: Step, h: nat, w: World, steps: seq<Step>)
    requires g.Valid() && Begins(s) && WorldInv(g, w) && IsAlone(g, from, s, h, w) && AreOf(h, steps)
    ensures IsAlone(g, from, s, h, Walk(g, w, steps))
    decreases |steps|
  {
    hide WorldInv, IsAlone, Next;
    if steps != [] {
      NextKeeps(g, w, steps[0]);
      GoAlone(g, from, s, h, w, steps[0].choice);
      StepsAlone(g, from, s, h, Next(g, w, steps[0]), steps[1..]);
    }
  }

  lemma ReachedStore(g: Graph, before: seq<Step>)
    requires g.Valid()
    ensures WorldInv(g, After(g, before)) && StoreInv(g, After(g, before).store)
    ensures After(g, before).store.records.Keys <= g.index.Keys
  {
    hide WorldInv, After;
    EveryRunKeeps(g, before);
    InvariantGivesLater(g, After(g, before));
  }

  /** From every world of every interleaved run: a handler that is left alone ends with
      the store that the whole handler would leave. */
  lemma LoneHandlerIsWhole(g: Graph, before: seq<Step>, s: Step, steps: seq<Step>)
    requires g.Valid() && Begins(s) && s.h !in After(g, before).handlers && AreOf(s.h, steps)
    requires RequestOfStep(s).Some? ==>
               forall k :: k in After(g, before).handlers ==> RequestOf(After(g, before).handlers[k]) == None
    ensures var w := After(g, before);
            var end := Walk(g, Next(g, w, s), steps);
            s.h !in end.handlers ==> end.store == Whole(g, w.store, s)
  {
    hide WorldInv, After, Next, Walk, Whole, IsUnderway;
    var w := After(g, before);
    ReachedStore(g, before);
    NextKeeps(g, w, s);
    BeginsAlone(g, w, s);
    StepsAlone(g, w.store, s, s.h, Next(g, w, s), steps);
  }

  /** An event of `n` handled alone over an active run: every node with `n` upstream that
      has no current record, and whose rule the stored records satisfy, is submitted at
      the count past its record, and nothing else is. */
  lemma LoneEventSubmits(g: Graph, before: seq<Step>, h: nat, n: Name, steps: seq<Step>)
    requires g.Valid() && h !in After(g, before).handlers && AreOf(h, steps)
    requires var st := After(g, before).store;
             n in st.events && n in g.index && st.run.Some? && st.run.value.state == RunActive
    ensures var from := After(g, before).store;
            var end := Walk(g, Next(g, After(g, before), BeginEvent(h, n)), steps);
            h !in end.handlers ==>
              forall id {:trigger id in end.store.submitted} ::
                id in end.store.submitted <==>
                  id in from.submitted
                  || (id.node in g.index && n in g.Get(id.node).upstreams && L.IsDue(g, from, id))
  {
    hide After, Next, Walk, L.IsDue;
    LoneHandlerIsWhole(g, before, BeginEvent(h, n), steps);
    L.EventSubmitsExactly(g, After(g, before).store, n);
  }

  // ---- A pass alone ----

  /** An active run without an active instance. */
  ghost predicate IsIdle(st: Store) {
    st.run.Some? && st.run.value.state == RunActive && st.active == {}
  }

  ghost predicate HasNewInstance(from: Store, st: Store) {
    exists id :: id in st.active && id !in from.submitted
  }

  ghost predicate IsSettledFrom(g: Graph, from: Store, st: Store)
    requires g.Valid()
  {
    from.run.Some? && exists state ::
      && IsFinal(g, CurrentRecords(from.run.value, from.records), state)
      && st == from.(run := Some(Settled(from.run.value, from.records, state, from.clock)))
  }

  /** A pass alone over an active run without an active instance ends only with an
      instance that was never submitted before, or with the run settled in the state of
      its records. */
  lemma LonePassAdvances(g: Graph, before: seq<Step>, h: nat, steps: seq<Step>)
    requires g.Valid() && h !in After(g, before).handlers && IsIdle(After(g, before).store) && AreOf(h, steps)
    ensures var from := After(g, before).store;
            var end := Walk(g, Next(g, After(g, before), BeginReconcile(h)), steps);
            h !in end.handlers ==> HasNewInstance(from, end.store) || IsSettledFrom(g, from, end.store)
  {
    hide WorldInv, StoreInv, After, Next, HasNewInstance, IsSettledFrom, Walk;
    ReachedStore(g, before);
    LoneHandlerIsWhole(g, before, BeginReconcile(h), steps);
    WholePassAdvances(g, After(g, before).store);
  }

  lemma WholePassAdvances(g: Graph, from: Store)
    requires g.Valid() && StoreInv(g, from) && IsIdle(from)
    ensures HasNewInstance(from, ReconcileTo(g, from)) || IsSettledFrom(g, from, ReconcileTo(g, from))
  {
    hide StoreInv, StateOf, StatesOf, SettledState, CurrentRecords, Settled, ReadyRuns;
    var current := CurrentRecords(from.run.value, from.records);
    var mid := SubmitReady(g, from, from.run.value, g.index.Keys);
    SettledExactlyWithoutReadyNodes(g, current);
    if n :| n in g.index && StateOf(g, current, n) == Ready {
      P.ReadyIsSubmitted(g, from, n);
      assert forall id :: id in ReconcileTo(g, from).active ==> id !in from.submitted;
    } else {
      S.ScanFindsActive(g, from);
      NothingReady(g, from);
    }
  }

  lemma NothingReady(g: Graph, from: Store)
    requires g.Valid() && from.run.Some?
    requires forall n :: n in g.index ==> StateOf(g, CurrentRecords(from.run.value, from.records), n) != Ready
    ensures SubmitReady(g, from, from.run.value, g.index.Keys) == from
  {
    hide StateOf;
    assert ReadyRuns(g, from.run.value, from.records, g.index.Keys) == {};
  }

  // ---- A handler ends ----

  function Phase(handler: Handler): nat {
    match handler
    case Reading(_, _, _, _) => 4
    case Rooting(_, _, _) => 3
    case Submitting(_, _, _) => 3
    case Marking(_, _, _, _) => 3
    case Scanning(_, _, _, _) => 2
    case Resubmitting(_, _, _, _) => 2
    case Settling(_, _, _) => 1
    case Cancelling(_, _) => 1
    case Recording(_, _) => 0
  }

  function LeftOf(handler: Handler): set<Name> {
    match handler
    case Rooting(_, todo, _) => todo
    case Reading(_, _, unread, _) => unread
    case Submitting(_, _, todo) => todo
    case Scanning(_, _, _, unchecked) => unchecked
    case _ => {}
  }

  /** A handler can always take a step that brings it closer to its end. */
  lemma CanStep(g: Graph, w: World, h: nat) returns (choice: Name)
    requires g.Valid() && h in w.handlers && HandlerIn(g, w.handlers[h])
    ensures var next := GoWith(g, w, h, choice).handlers;
            h in next ==>
              || Phase(next[h]) < Phase(w.handlers[h])
              || (Phase(next[h]) == Phase(w.handlers[h]) && LeftOf(next[h]) < LeftOf(w.handlers[h]))
  {
    hide StateOf, StatesOf, SettledState, CurrentRecords, UpstreamRecords, Settled, IsReady, Marked, Submit;
    choice := "";
    if LeftOf(w.handlers[h]) != {} {
      choice :| choice in LeftOf(w.handlers[h]);
    }
  }

  lemma {:induction false} StepsToEnd(g: Graph, w: World, h: nat) returns (steps: seq<Step>)
    requires g.Valid() && WorldInv(g, w)
    ensures AreOf(h, steps) && h !in Walk(g, w, steps).handlers
    decreases h in w.handlers, if h in w.handlers then Phase(w.handlers[h]) else 0,
              if h in w.handlers then LeftOf(w.handlers[h]) else {}
  {
    hide StoreInv, RequestsInv, HandlerOk, GoWith, Phase, LeftOf;
    if h !in w.handlers {
      steps := [];
    } else {
      assert HandlerInv(g, w, h);
      var choice := CanStep(g, w, h);
      NextKeeps(g, w, Go(h, choice));
      var rest := StepsToEnd(g, Next(g, w, Go(h, choice)), h);
      steps := [Go(h, choice)] + rest;
      assert steps[1..] == rest;
    }
  }

  /** From every world of every interleaved run, a handler that is left alone can end. */
  lemma LoneHandlerEnds(g: Graph, before: seq<Step>, h: nat) returns (steps: seq<Step>)
    requires g.Valid()
    ensures AreOf(h, steps) && h !in Walk(g, After(g, before), steps).handlers
  {
    hide WorldInv, After, Walk;
    EveryRunKeeps(g, before);
    steps := StepsToEnd(g, After(g, before), h);
  }
}

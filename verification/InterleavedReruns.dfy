/**
 Reruns of a succeeded node while handlers interleave: which steps give a node of the
 scope an old input, and when a completed run has rebuilt the scope.
 */
module InterleavedReruns {
  import opened Wrappers
  import opened Json
  import opened Records
  import opened Graphs
  import opened Readiness
  import opened ReadinessLaws
  import opened Scopes
  import opened Store
  import opened RunRules
  import opened RunLaws
  import opened Interleaving
  import opened InterleavingLaws
  import opened InterleavedSettles
  import opened RerunLaws

  /** The run from a world on. */
  ghost function Walk(g: Graph, w: World, steps: seq<Step>): World
    requires g.Valid()
    decreases |steps|
  {
    if steps == [] then w else Walk(g, Next(g, w, steps[0]), steps[1..])
  }

  lemma {:induction false} WalkIsAfter(g: Graph, steps: seq<Step>, more: seq<Step>)
    requires g.Valid()
    ensures Walk(g, After(g, steps), more) == After(g, steps + more)
    decreases |more|
  {
    if more == [] {
      assert steps + more == steps;
    } else {
      assert steps + more == steps + [more[0]] + more[1..];
      assert (steps + [more[0]])[..|steps|] == steps;
      WalkIsAfter(g, steps + [more[0]], more[1..]);
    }
  }

  // ---- The mark ----

  /** The rerun of `x` has been marked: `at` has the run record that its handler
      replaced and the node records that it had read. */
  ghost predicate IsMarked(g: Graph, at: Store, x: Name, st: Store)
    requires g.Valid()
  {
    && HasSucceeded(g, at, x)
    && SeenRun(Marked(g, at.run.value, at.records, x), st)
    && Seen(at.records, st.records)
  }

  lemma StaysMarked(g: Graph, at: Store, x: Name, st: Store, next: Store)
    requires g.Valid() && IsMarked(g, at, x, st) && Later(st, next)
    ensures IsMarked(g, at, x, next)
  {
    SeenRunStays(Marked(g, at.run.value, at.records, x), st, next);
    SeenStays(at.records, st.records, next.records);
  }

  /** The next step of handler `h` marks the rerun of the succeeded node `x`. */
  ghost predicate Marks(g: Graph, w: World, h: nat, x: Name)
    requires g.Valid()
  {
    && h in w.handlers && w.handlers[h].Marking? && w.handlers[h].node == x
    && w.store.run == Some(w.handlers[h].run)
    && HasSucceeded(g, ReadBy(w, h), x)
  }

  /** The store as the rerun has read it. */
  function ReadBy(w: World, h: nat): Store
    requires h in w.handlers && w.handlers[h].Marking?
  {
    w.store.(records := w.handlers[h].seen)
  }

  lemma MarkHolds(g: Graph, w: World, h: nat, x: Name, choice: Name)
    requires g.Valid() && WorldInv(g, w) && Marks(g, w, h, x)
    ensures var next := Next(g, w, Go(h, choice));
            && WorldInv(g, next) && IsMarked(g, ReadBy(w, h), x, next.store)
            && next.store.run == Some(Marked(g, w.handlers[h].run, w.handlers[h].seen, x))
            && next.store == w.store.(run := next.store.run)
            && next.handlers.Keys == w.handlers.Keys
            && next.handlers[h] == Resubmitting(next.store.run.value, w.handlers[h].seen, x, w.handlers[h].request)
            && forall k :: k in w.handlers && k != h ==> next.handlers[k] == w.handlers[k]
  {
    hide StateOf, StatesOf, SettledState, StoreInv, RequestsInv, Marked, Later;
    NextKeeps(g, w, Go(h, choice));
    assert HandlerInv(g, w, h);
    MarkIsSeen(g, w, h, x);
  }

  lemma MarkIsSeen(g: Graph, w: World, h: nat, x: Name)
    requires g.Valid() && WorldInv(g, w) && Marks(g, w, h, x)
    ensures HandlerIn(g, w.handlers[h]) && Seen(w.handlers[h].seen, w.store.records)
    ensures var marked := Marked(g, w.handlers[h].run, w.handlers[h].seen, x);
            SeenRun(marked, w.store.(run := Some(marked)))
  {
    hide StateOf, StatesOf, SettledState, RequestsInv, Marked, StoreInv;
    assert HandlerInv(g, w, h);
    MarkedKeeps(g, w.store, w.handlers[h].run, w.handlers[h].seen, x);
  }

  // ---- Old and new inputs ----

  /** An instance of a scope node other than the rerun node, past what was read. */
  ghost predicate IsRebuilt(g: Graph, at: Store, x: Name, id: RunId)
    requires g.Valid() && x in g.index
  {
    && id.node in ScopeOf(g, x) && id.node != x
    && (id.node in at.records ==> at.records[id.node].rerun < id.rerun)
  }

  /** The records of the upstreams in the scope are newer than those that were read. */
  ghost predicate IsNewInput(g: Graph, at: Store, x: Name, n: Name, records: NodeRecords)
    requires g.Valid() && x in g.index && n in g.index
  {
    forall u :: u in g.Get(n).upstreams && u in ScopeOf(g, x) ==> IsNewer(at.records, records, u)
  }

  ghost predicate HasNewInputs(g: Graph, at: Store, x: Name, st: Store)
    requires g.Valid() && x in g.index
  {
    forall id {:trigger id in st.submitted} :: id in st.submitted && IsRebuilt(g, at, x, id) ==>
      IsNewInput(g, at, x, id.node, st.submitted[id].upstreams)
  }

  /** What the handler has read of the node records. */
  function SeenBy(handler: Handler): NodeRecords {
    match handler
    case Submitting(_, seen, _) => seen
    case Resubmitting(_, seen, _, _) => seen
    case _ => map[]
  }

  function RunOf(handler: Handler): Option<GraphRunRecord> {
    match handler
    case Submitting(run, _, _) => Some(run)
    case Resubmitting(marked, _, _, _) => Some(marked)
    case _ => None
  }

  /** The step submits a new instance. */
  ghost predicate SubmitsNew(g: Graph, w: World, s: Step)
    requires g.Valid()
  {
    && s.Go? && s.h in w.handlers && HandlerIn(g, w.handlers[s.h])
    && SubmitOf(g, w.handlers[s.h], s.choice).Some?
    && SubmitOf(g, w.handlers[s.h], s.choice).value !in w.store.submitted
  }

  /** An advance or a rerun submits a new instance of a scope node other than `x`, and
      has read no newer record of some upstream in the scope. */
  ghost predicate SubmitsStale(g: Graph, at: Store, x: Name, w: World, s: Step)
    requires g.Valid() && x in g.index
  {
    && SubmitsNew(g, w, s)
    && (w.handlers[s.h].Submitting? || w.handlers[s.h].Resubmitting?)
    && var n := SubmitOf(g, w.handlers[s.h], s.choice).value.node;
    && n in ScopeOf(g, x) && n != x && !IsNewInput(g, at, x, n, SeenBy(w.handlers[s.h]))
  }

  /** What a step submits, and from what. */
  lemma StepSubmits(g: Graph, w: World, s: Step)
    requires g.Valid() && WorldInv(g, w)
    ensures !SubmitsNew(g, w, s) ==> Next(g, w, s).store.submitted == w.store.submitted
    ensures SubmitsNew(g, w, s) ==>
              var handler := w.handlers[s.h];
              var id := SubmitOf(g, handler, s.choice).value;
              var next := Next(g, w, s).store;
              && id.node in g.index && id in next.submitted
              && next.submitted == w.store.submitted[id := next.submitted[id]]
              && (handler.Rooting? || handler.Submitting? || handler.Resubmitting?)
              && (handler.Rooting? ==> g.Get(id.node).upstreams == {})
              && (!handler.Rooting? ==>
                    var current := CurrentRecords(RunOf(handler).value, SeenBy(handler));
                    IsReady(g.Get(id.node), current)
                    && next.submitted[id].upstreams == UpstreamRecords(g.Get(id.node), current))
  {
    hide StateOf, StatesOf, SettledState, StoreInv, RequestsInv, CurrentRecords, UpstreamRecords, IsReady, View, Marked;
    if s.Go? && s.h in w.handlers {
      assert HandlerInv(g, w, s.h);
      GoSubmits(g, w, s.h, s.choice);
    } else {
      hide GoWith, HandlerIn, Terminate;
    }
  }

  lemma GoSubmits(g: Graph, w: World, h: nat, choice: Name)
    requires g.Valid() && h in w.handlers && HandlerInv(g, w, h)
    ensures !SubmitsNew(g, w, Go(h, choice)) ==> Next(g, w, Go(h, choice)).store.submitted == w.store.submitted
    ensures SubmitsNew(g, w, Go(h, choice)) ==>
              var handler := w.handlers[h];
              var id := SubmitOf(g, handler, choice).value;
              var next := Next(g, w, Go(h, choice)).store;
              && id.node in g.index && id in next.submitted
              && next.submitted == w.store.submitted[id := next.submitted[id]]
              && (handler.Rooting? || handler.Submitting? || handler.Resubmitting?)
              && (handler.Rooting? ==> g.Get(id.node).upstreams == {})
              && (!handler.Rooting? ==>
                    var current := CurrentRecords(RunOf(handler).value, SeenBy(handler));
                    IsReady(g.Get(id.node), current)
                    && next.submitted[id].upstreams == UpstreamRecords(g.Get(id.node), current))
  {
    hide StateOf, StatesOf, SettledState, CurrentRecords, UpstreamRecords, IsReady, View, Marked, Settled;
    if w.handlers[h].Submitting? {
      var current := CurrentRecords(w.handlers[h].run, w.handlers[h].seen);
      if choice in g.index {
        StateReads(g, current, choice);
        UnrecordedState(g, current, choice);
      }
    }
  }

  /** A scope node other than the rerun node has the all-succeeded rule, so what makes
      it ready is current, and its input has it. */
  lemma InputOfScopeNode(g: Graph, at: Store, x: Name, n: Name, run: GraphRunRecord, seen: NodeRecords)
    requires g.Valid() && x in g.index && n in ScopeOf(g, x) && n != x
    requires IsReady(g.Get(n), CurrentRecords(run, seen))
    ensures g.Get(n).upstreams != {}
    ensures forall u :: u in g.Get(n).upstreams ==> u in CurrentRecords(run, seen)
    ensures IsNewInput(g, at, x, n, UpstreamRecords(g.Get(n), CurrentRecords(run, seen)))
            <==> IsNewInput(g, at, x, n, seen)
  {
    hide ScopeOf;
    ScopeNodeFollows(g, x, n);
    var current := CurrentRecords(run, seen);
    forall u | u in g.Get(n).upstreams && u in ScopeOf(g, x)
      ensures IsNewer(at.records, UpstreamRecords(g.Get(n), current), u) <==> IsNewer(at.records, seen, u)
    {
      assert u in current;
    }
  }

  lemma ScopeNodeFollows(g: Graph, x: Name, n: Name)
    requires g.Valid() && x in g.index && n in ScopeOf(g, x) && n != x
    ensures g.Get(n).Rule() == AllSucceeded && g.Get(n).upstreams != {}
  {
  }

  /** A new instance is past the record that was read. */
  lemma NewIsRebuilt(g: Graph, at: Store, x: Name, st: Store, id: RunId)
    requires g.Valid() && x in g.index && StoreInv(g, st) && Seen(at.records, st.records)
    requires id !in st.submitted && id.node in ScopeOf(g, x) && id.node != x
    ensures IsRebuilt(g, at, x, id)
  {
    hide ScopeOf;
    assert id.node in at.records && id.rerun <= at.records[id.node].rerun ==> RunId(id.node, id.rerun) in st.submitted;
  }

  /** From new inputs, a step gives a scope node an old input exactly when an advance or
      a rerun submits it anew without having read a newer record of an upstream. */
  lemma StepIsStaleExactly(g: Graph, at: Store, x: Name, w: World, s: Step)
    requires g.Valid() && WorldInv(g, w) && IsMarked(g, at, x, w.store) && HasNewInputs(g, at, x, w.store)
    ensures !HasNewInputs(g, at, x, Next(g, w, s).store) <==> SubmitsStale(g, at, x, w, s)
  {
    hide Next, SubmitOf, StoreInv, RequestsInv, ScopeOf, IsNewInput, CurrentRecords, UpstreamRecords, IsReady, Marked;
    StepSubmits(g, w, s);
    if SubmitsNew(g, w, s) {
      var handler := w.handlers[s.h];
      var id := SubmitOf(g, handler, s.choice).value;
      var next := Next(g, w, s).store;
      if id.node in ScopeOf(g, x) && id.node != x {
        NewIsRebuilt(g, at, x, w.store, id);
        ScopeNodeFollows(g, x, id.node);
        InputOfScopeNode(g, at, x, id.node, RunOf(handler).value, SeenBy(handler));
      }
      OneMoreInput(g, at, x, w.store, next, id);
    }
  }

  lemma OneMoreInput(g: Graph, at: Store, x: Name, st: Store, next: Store, id: RunId)
    requires g.Valid() && x in g.index && HasNewInputs(g, at, x, st) && id !in st.submitted
    requires id in next.submitted && next.submitted == st.submitted[id := next.submitted[id]]
    ensures HasNewInputs(g, at, x, next) <==>
            (IsRebuilt(g, at, x, id) ==> IsNewInput(g, at, x, id.node, next.submitted[id].upstreams))
  {
    hide ScopeOf, IsNewInput, IsRebuilt;
    assert forall other :: other in next.submitted <==> other in st.submitted || other == id;
  }

  lemma OldInputStays(g: Graph, at: Store, x: Name, st: Store, next: Store)
    requires g.Valid() && x in g.index && Later(st, next) && HasNewInputs(g, at, x, next)
    ensures HasNewInputs(g, at, x, st)
  {
    hide ScopeOf, IsNewInput, IsRebuilt;
  }

  ghost predicate NeverSubmitsStale(g: Graph, at: Store, x: Name, w: World, steps: seq<Step>)
    requires g.Valid() && x in g.index
    decreases |steps|
  {
    steps != [] ==>
      !SubmitsStale(g, at, x, w, steps[0]) && NeverSubmitsStale(g, at, x, Next(g, w, steps[0]), steps[1..])
  }

  lemma {:induction false} WalkKeeps(g: Graph, at: Store, x: Name, w: World, steps: seq<Step>)
    requires g.Valid() && WorldInv(g, w) && IsMarked(g, at, x, w.store)
    ensures WorldInv(g, Walk(g, w, steps)) && IsMarked(g, at, x, Walk(g, w, steps).store)
    ensures Later(w.store, Walk(g, w, steps).store)
    decreases |steps|
  {
    hide WorldInv, IsMarked, Next, Later;
    InvariantGivesLater(g, w);
    if steps != [] {
      var next := Next(g, w, steps[0]);
      NextKeeps(g, w, steps[0]);
      StaysMarked(g, at, x, w.store, next.store);
      WalkKeeps(g, at, x, next, steps[1..]);
      LaterTransitive(w.store, next.store, Walk(g, w, steps).store);
    }
  }

  lemma InvariantGivesLater(g: Graph, w: World)
    requires g.Valid() && WorldInv(g, w)
    ensures StoreInv(g, w.store) && Later(w.store, w.store)
  {
    hide StoreInv, RequestsInv, Later;
    LaterReflexive(g, w.store);
  }

  /** Over a whole run: every input is new at its end exactly when it was at its start,
      and no step submits a stale one. */
  lemma {:induction false} RunIsStaleExactly(g: Graph, at: Store, x: Name, w: World, steps: seq<Step>)
    requires g.Valid() && WorldInv(g, w) && IsMarked(g, at, x, w.store)
    ensures HasNewInputs(g, at, x, Walk(g, w, steps).store)
            <==> HasNewInputs(g, at, x, w.store) && NeverSubmitsStale(g, at, x, w, steps)
    decreases |steps|
  {
    hide WorldInv, IsMarked, Next, Later, HasNewInputs, SubmitsStale;
    MarkedIsNode(g, at, x, w.store);
    if steps != [] {
      var next := Next(g, w, steps[0]);
      NextKeeps(g, w, steps[0]);
      StaysMarked(g, at, x, w.store, next.store);
      RunIsStaleExactly(g, at, x, next, steps[1..]);
      if HasNewInputs(g, at, x, w.store) {
        StepIsStaleExactly(g, at, x, w, steps[0]);
      } else if HasNewInputs(g, at, x, next.store) {
        OldInputStays(g, at, x, w.store, next.store);
      }
    }
  }

  lemma MarkedIsNode(g: Graph, at: Store, x: Name, st: Store)
    requires g.Valid() && IsMarked(g, at, x, st)
    ensures x in g.index
  {
  }

  // ---- What holds back the scope ----

  /** In every world after the mark, a scope node other than the rerun node is ready by
      the stored records only when its upstreams in the scope have newer ones. */
  lemma ScopeIsHeldBack(g: Graph, at: Store, x: Name, w: World, steps: seq<Step>, y: Name)
    requires g.Valid() && WorldInv(g, w) && IsMarked(g, at, x, w.store) && y in ScopeOf(g, x) && y != x
    ensures var st := Walk(g, w, steps).store;
            && st.run.Some?
            && (IsReady(g.Get(y), CurrentRecords(st.run.value, st.records)) ==>
                  IsNewInput(g, at, x, y, st.records))
  {
    hide WorldInv, Marked, Walk, ScopeOf, Later;
    WalkKeeps(g, at, x, w, steps);
    var st := Walk(g, w, steps).store;
    if IsReady(g.Get(y), CurrentRecords(st.run.value, st.records)) {
      ReadyNeedsNewerUpstreams(g, at, x, st, st.run.value, y);
    }
  }

  // ---- What handlers know of the mark ----

  /** The run record and the node records that a handler has read were read after the
      mark: an old record of a scope node is not current by them. */
  ghost predicate Knows(g: Graph, at: Store, x: Name, run: GraphRunRecord, seen: NodeRecords, records: NodeRecords)
    requires g.Valid() && x in g.index
  {
    forall n {:trigger n in at.records} :: n in at.records && n in ScopeOf(g, x) ==>
      KnowsOf(at.records[n].rerun, n, run, seen, records)
  }

  ghost predicate KnowsOf(count: nat, n: Name, run: GraphRunRecord, seen: NodeRecords, records: NodeRecords) {
    && n in records && records[n].rerun >= count
    && (n in seen ==> seen[n].rerun >= count)
    && (run.Expected(n) > count || (records[n].rerun > count && (n in seen ==> seen[n].rerun > count)))
  }

  /** What a handler that began after the mark has read. */
  ghost predicate IsInformed(g: Graph, at: Store, x: Name, handler: Handler, records: NodeRecords)
    requires g.Valid() && x in g.index
  {
    match handler
    case Reading(run, _, _, seen) => Knows(g, at, x, run, seen, records)
    case Submitting(run, seen, _) => Knows(g, at, x, run, seen, records)
    case Marking(run, seen, _, _) => Knows(g, at, x, run, seen, records)
    case Resubmitting(marked, seen, _, _) => Knows(g, at, x, marked, seen, records)
    case Rooting(_, _, _) => false
    case _ => true
  }

  lemma KnowsAtFirst(g: Graph, at: Store, x: Name, st: Store)
    requires g.Valid() && IsMarked(g, at, x, st)
    ensures x in g.index && Knows(g, at, x, st.run.value, map[], st.records)
  {
    forall n | n in at.records && n in ScopeOf(g, x)
      ensures KnowsOf(at.records[n].rerun, n, st.run.value, map[], st.records)
    {
      assert n in Marked(g, at.run.value, at.records, x).expectedReruns;
    }
  }

  lemma KnowsStays(g: Graph, at: Store, x: Name, run: GraphRunRecord, seen: NodeRecords, records: NodeRecords,
                   next: NodeRecords)
    requires g.Valid() && x in g.index && Knows(g, at, x, run, seen, records) && Seen(records, next)
    ensures Knows(g, at, x, run, seen, next)
  {
    hide ScopeOf;
    forall n | n in at.records && n in ScopeOf(g, x)
      ensures KnowsOf(at.records[n].rerun, n, run, seen, next)
    {
      assert KnowsOf(at.records[n].rerun, n, run, seen, records);
      assert n in records;
    }
  }

  lemma KnowsOneMore(g: Graph, at: Store, x: Name, run: GraphRunRecord, seen: NodeRecords, records: NodeRecords, m: Name)
    requires g.Valid() && x in g.index && Knows(g, at, x, run, seen, records) && m in records
    ensures Knows(g, at, x, run, seen[m := records[m]], records)
  {
    hide ScopeOf;
    forall n | n in at.records && n in ScopeOf(g, x)
      ensures KnowsOf(at.records[n].rerun, n, run, seen[m := records[m]], records)
    {
      assert KnowsOf(at.records[n].rerun, n, run, seen, records);
    }
  }

  lemma KnowsMarked(g: Graph, at: Store, x: Name, run: GraphRunRecord, seen: NodeRecords, records: NodeRecords, m: Name)
    requires g.Valid() && x in g.index && m in g.index && Knows(g, at, x, run, seen, records)
    ensures Knows(g, at, x, Marked(g, run, seen, m), seen, records)
  {
    hide ScopeOf;
    forall n | n in at.records && n in ScopeOf(g, x)
      ensures KnowsOf(at.records[n].rerun, n, Marked(g, run, seen, m), seen, records)
    {
      assert KnowsOf(at.records[n].rerun, n, run, seen, records);
    }
  }

  /** What such a handler finds current in the scope is newer. */
  lemma KnownIsNewer(g: Graph, at: Store, x: Name, run: GraphRunRecord, seen: NodeRecords, records: NodeRecords, n: Name)
    requires g.Valid() && x in g.index && Knows(g, at, x, run, seen, records)
    requires n in ScopeOf(g, x) && n in CurrentRecords(run, seen)
    ensures IsNewer(at.records, seen, n)
  {
    hide ScopeOf;
    if n in at.records {
      assert KnowsOf(at.records[n].rerun, n, run, seen, records);
    }
  }

  lemma InformedIsNotStale(g: Graph, at: Store, x: Name, w: World, s: Step)
    requires g.Valid() && WorldInv(g, w) && x in g.index && SubmitsNew(g, w, s)
    requires IsInformed(g, at, x, w.handlers[s.h], w.store.records)
    ensures !SubmitsStale(g, at, x, w, s)
  {
    hide Next, SubmitOf, StoreInv, RequestsInv, ScopeOf, CurrentRecords, UpstreamRecords, IsReady, Marked, Knows;
    StepSubmits(g, w, s);
    var handler := w.handlers[s.h];
    var n := SubmitOf(g, handler, s.choice).value.node;
    if n in ScopeOf(g, x) && n != x {
      var run, seen := RunOf(handler).value, SeenBy(handler);
      InputOfScopeNode(g, at, x, n, run, seen);
      forall u | u in g.Get(n).upstreams && u in ScopeOf(g, x)
        ensures IsNewer(at.records, seen, u)
      {
        KnownIsNewer(g, at, x, run, seen, w.store.records, u);
      }
    }
  }

  /** Every handler that is not one of `stale` began after the mark. */
  ghost predicate OthersInformed(g: Graph, at: Store, x: Name, w: World, stale: set<nat>)
    requires g.Valid() && x in g.index
  {
    forall h {:trigger w.handlers[h]} :: h in w.handlers && h !in stale ==>
      IsInformed(g, at, x, w.handlers[h], w.store.records)
  }

  lemma InformedStays(g: Graph, at: Store, x: Name, handler: Handler, records: NodeRecords, next: NodeRecords)
    requires g.Valid() && x in g.index && IsInformed(g, at, x, handler, records) && Seen(records, next)
    ensures IsInformed(g, at, x, handler, next)
  {
    hide Knows, Seen;
    match handler
    case Reading(run, _, _, seen) => KnowsStays(g, at, x, run, seen, records, next);
    case Submitting(run, seen, _) => KnowsStays(g, at, x, run, seen, records, next);
    case Marking(run, seen, _, _) => KnowsStays(g, at, x, run, seen, records, next);
    case Resubmitting(marked, seen, _, _) => KnowsStays(g, at, x, marked, seen, records, next);
    case _ =>
  }

  /** The next step of an informed handler leaves it informed. */
  lemma GoStaysInformed(g: Graph, at: Store, x: Name, w: World, h: nat, choice: Name)
    requires g.Valid() && x in g.index && h in w.handlers && HandlerIn(g, w.handlers[h])
    requires IsInformed(g, at, x, w.handlers[h], w.store.records)
    ensures var next := GoWith(g, w, h, choice);
            h in next.handlers ==> IsInformed(g, at, x, next.handlers[h], w.store.records)
  {
    hide Knows, StateOf, StatesOf, SettledState, CurrentRecords, UpstreamRecords, IsReady, Marked, Submit, Settled;
    match w.handlers[h]
    case Reading(run, _, unread, seen) =>
      if choice in unread && choice in w.store.records {
        KnowsOneMore(g, at, x, run, seen, w.store.records, choice);
      }
      if w.handlers[h].goal.RerunNode? {
        KnowsMarked(g, at, x, run, seen, w.store.records, w.handlers[h].goal.node);
      }
    case Marking(run, seen, node, _) =>
      KnowsMarked(g, at, x, run, seen, w.store.records, node);
    case _ =>
  }

  /** A handler that begins reads the run record after the mark. */
  lemma BeginIsInformed(g: Graph, at: Store, x: Name, w: World, s: Step)
    requires g.Valid() && IsMarked(g, at, x, w.store)
    requires s.BeginStart? || s.BeginEvent? || s.BeginReconcile? || s.BeginRerun? || s.BeginCancel?
    ensures x in g.index
    ensures var next := BeginWith(g, w, s);
            && next.store == w.store
            && next.handlers - {s.h} == w.handlers - {s.h}
            && (s.h in w.handlers ==> next == w)
            && (s.h !in w.handlers && s.h in next.handlers ==>
                  IsInformed(g, at, x, next.handlers[s.h], w.store.records))
  {
    hide Knows, Takes, HasSucceeded, Marked;
    KnowsAtFirst(g, at, x, w.store);
  }

  lemma NextStaysInformed(g: Graph, at: Store, x: Name, w: World, s: Step, stale: set<nat>)
    requires g.Valid() && WorldInv(g, w) && IsMarked(g, at, x, w.store)
    ensures x in g.index
    ensures OthersInformed(g, at, x, w, stale) ==>
              OthersInformed(g, at, x, Next(g, w, s), stale * Next(g, w, s).handlers.Keys)
  {
    hide IsMarked, IsInformed, GoWith, BeginWith, StoreInv, RequestsInv, Terminate;
    MarkedIsNode(g, at, x, w.store);
    NextKeeps(g, w, s);
    if OthersInformed(g, at, x, w, stale) {
      var next := Next(g, w, s);
      forall k | k in next.handlers && k !in stale
        ensures IsInformed(g, at, x, next.handlers[k], next.store.records)
      {
        HandlerStaysInformed(g, at, x, w, s, stale, k);
      }
    }
  }

  lemma HandlerStaysInformed(g: Graph, at: Store, x: Name, w: World, s: Step, stale: set<nat>, k: nat)
    requires g.Valid() && WorldInv(g, w) && IsMarked(g, at, x, w.store) && x in g.index
    requires OthersInformed(g, at, x, w, stale) && Seen(w.store.records, Next(g, w, s).store.records)
    requires k in Next(g, w, s).handlers && k !in stale
    ensures IsInformed(g, at, x, Next(g, w, s).handlers[k], Next(g, w, s).store.records)
  {
    hide IsMarked, IsInformed, StoreInv, RequestsInv, Terminate, Seen, BeginWith, GoWith;
    var next := Next(g, w, s);
    if s.Go? && s.h in w.handlers {
      GoTouchesOne(g, w, s.h, s.choice);
      if k == s.h {
        GoStaysInformed(g, at, x, w, s.h, s.choice);
        InformedStays(g, at, x, next.handlers[k], w.store.records, next.store.records);
        return;
      }
    } else if s.BeginStart? || s.BeginEvent? || s.BeginReconcile? || s.BeginRerun? || s.BeginCancel? {
      BeginIsInformed(g, at, x, w, s);
      if k == s.h && s.h !in w.handlers {
        return;
      }
      assert k != s.h ==> k in next.handlers - {s.h} && (next.handlers - {s.h})[k] == next.handlers[k];
    }
    assert k in w.handlers && next.handlers[k] == w.handlers[k];
    InformedStays(g, at, x, w.handlers[k], w.store.records, next.store.records);
  }

  lemma GoTouchesOne(g: Graph, w: World, h: nat, choice: Name)
    requires g.Valid() && WorldInv(g, w) && h in w.handlers
    ensures HandlerIn(g, w.handlers[h])
    ensures var next := GoWith(g, w, h, choice);
            && next.handlers.Keys <= w.handlers.Keys
            && forall k :: k in w.handlers && k != h ==> k in next.handlers && next.handlers[k] == w.handlers[k]
  {
    hide GoWith, HandlerOk, StoreInv, RequestsInv, Later;
    assert HandlerInv(g, w, h);
    GoSound(g, w, h, choice);
    OthersSame(w.handlers, GoWith(g, w, h, choice).handlers, h);
  }

  lemma OthersSame(before: map<nat, Handler>, after: map<nat, Handler>, h: nat)
    requires h in before && after - {h} == before - {h}
    ensures after.Keys <= before.Keys
    ensures forall k :: k in before && k != h ==> k in after && after[k] == before[k]
  {
    forall k | k != h
      ensures k in after <==> k in before
      ensures k in before ==> after[k] == before[k]
    {
      assert k in after <==> k in after - {h};
      assert k in before <==> k in before - {h};
      assert k in before ==> (after - {h})[k] == after[k] && (before - {h})[k] == before[k];
    }
  }

  // ---- Runs in which the handlers in flight at the mark submit nothing ----

  ghost predicate StaleSubmitsNothing(g: Graph, w: World, stale: set<nat>, steps: seq<Step>)
    requires g.Valid()
    decreases |steps|
  {
    steps != [] ==>
      && !(SubmitsNew(g, w, steps[0]) && steps[0].h in stale)
      && var next := Next(g, w, steps[0]);
      StaleSubmitsNothing(g, next, stale * next.handlers.Keys, steps[1..])
  }

  lemma {:induction false} NothingStaleIsSubmitted(g: Graph, at: Store, x: Name, w: World, stale: set<nat>,
                                                   steps: seq<Step>)
    requires g.Valid() && WorldInv(g, w) && IsMarked(g, at, x, w.store) && x in g.index
    requires OthersInformed(g, at, x, w, stale) && StaleSubmitsNothing(g, w, stale, steps)
    ensures NeverSubmitsStale(g, at, x, w, steps)
    decreases |steps|
  {
    hide WorldInv, IsMarked, Next, Later, SubmitsStale, SubmitsNew, IsInformed;
    if steps != [] {
      var s := steps[0];
      var next := Next(g, w, s);
      StaleIsNew(g, at, x, w, s);
      if SubmitsNew(g, w, s) {
        InformedIsNotStale(g, at, x, w, s);
      }
      NextKeeps(g, w, s);
      StaysMarked(g, at, x, w.store, next.store);
      NextStaysInformed(g, at, x, w, s, stale);
      NothingStaleIsSubmitted(g, at, x, next, stale * next.handlers.Keys, steps[1..]);
    }
  }

  lemma StaleIsNew(g: Graph, at: Store, x: Name, w: World, s: Step)
    requires g.Valid() && x in g.index
    ensures SubmitsStale(g, at, x, w, s) ==> SubmitsNew(g, w, s)
    ensures SubmitsNew(g, w, s) ==> s.h in w.handlers
  {
    hide SubmitOf, ScopeOf, IsNewInput;
  }

  // ---- A completed run ----

  /** A handler that settles has found the state in the records that it has read. */
  ghost predicate FindsState(g: Graph, handler: Handler)
    requires g.Valid()
  {
    match handler
    case Scanning(run, seen, state, _) => IsFinal(g, CurrentRecords(run, seen), state)
    case Settling(run, seen, state) => IsFinal(g, CurrentRecords(run, seen), state)
    case _ => true
  }

  ghost predicate AllFindState(g: Graph, w: World)
    requires g.Valid()
  {
    forall h {:trigger w.handlers[h]} :: h in w.handlers ==> FindsState(g, w.handlers[h])
  }

  lemma GoFindsState(g: Graph, w: World, h: nat, choice: Name)
    requires g.Valid() && h in w.handlers && HandlerIn(g, w.handlers[h]) && FindsState(g, w.handlers[h])
    ensures h in GoWith(g, w, h, choice).handlers ==> FindsState(g, GoWith(g, w, h, choice).handlers[h])
  {
    hide StateOf, StatesOf, SettledState, CurrentRecords, UpstreamRecords, IsReady, Marked, Submit, Settled;
  }

  lemma NextFindsState(g: Graph, w: World, s: Step)
    requires g.Valid() && WorldInv(g, w) && AllFindState(g, w)
    ensures AllFindState(g, Next(g, w, s))
  {
    hide FindsState, GoWith, StoreInv, RequestsInv, Terminate;
    if s.Go? && s.h in w.handlers {
      GoTouchesOne(g, w, s.h, s.choice);
      GoFindsState(g, w, s.h, s.choice);
    } else if s.BeginStart? || s.BeginEvent? || s.BeginReconcile? || s.BeginRerun? || s.BeginCancel? {
      BeginFindsState(g, w, s);
    }
  }

  lemma BeginFindsState(g: Graph, w: World, s: Step)
    requires g.Valid() && AllFindState(g, w)
    requires s.BeginStart? || s.BeginEvent? || s.BeginReconcile? || s.BeginRerun? || s.BeginCancel?
    ensures AllFindState(g, BeginWith(g, w, s))
  {
    hide IsFinal, Takes;
  }

  lemma {:induction false} RunFindsState(g: Graph, steps: seq<Step>)
    requires g.Valid()
    ensures AllFindState(g, After(g, steps))
    decreases |steps|
  {
    hide AllFindState, Next, WorldInv;
    if steps == [] {
      NothingFindsState(g);
    } else {
      var front := steps[..|steps| - 1];
      RunFindsState(g, front);
      EveryRunKeeps(g, front);
      NextFindsState(g, After(g, front), steps[|steps| - 1]);
    }
  }

  lemma NothingFindsState(g: Graph)
    requires g.Valid()
    ensures AllFindState(g, Initial)
  {
  }

  /** A complete run has newer records of the whole scope. */
  ghost predicate IsDoneAfresh(g: Graph, at: Store, x: Name, st: Store)
    requires g.Valid() && x in g.index
  {
    st.run.Some? && st.run.value.state == RunComplete ==>
      forall y :: y in ScopeOf(g, x) ==> IsNewer(at.records, st.records, y)
  }

  /** What a settle finds complete is newer, whenever its reads were. */
  lemma CompleteIsNewer(g: Graph, at: Store, x: Name, st: Store, seen: NodeRecords)
    requires g.Valid() && IsMarked(g, at, x, st) && st.run.Some? && Seen(seen, st.records)
    requires IsFinal(g, CurrentRecords(st.run.value, seen), RunComplete)
    ensures forall y :: y in ScopeOf(g, x) ==> IsNewer(at.records, st.records, y)
  {
    hide StateOf, StatesOf, SettledState;
    var current := CurrentRecords(st.run.value, seen);
    SettledExactlyWithoutReadyNodes(g, current);
    forall y | y in ScopeOf(g, x)
      ensures IsNewer(at.records, st.records, y)
    {
      assert y in current;
      if y in at.records {
        assert y in Marked(g, at.run.value, at.records, x).expectedReruns;
      }
    }
  }

  lemma NextIsDoneAfresh(g: Graph, at: Store, x: Name, w: World, s: Step)
    requires g.Valid() && WorldInv(g, w) && AllFindState(g, w)
    requires IsMarked(g, at, x, w.store) && x in g.index && IsDoneAfresh(g, at, x, w.store)
    ensures IsDoneAfresh(g, at, x, Next(g, w, s).store)
  {
    hide StoreInv, RequestsInv, IsMarked, IsFinal, ScopeOf, CurrentRecords, Next;
    NextKeeps(g, w, s);
    var next := Next(g, w, s).store;
    if CompletesBy(w, s) {
      assert HandlerInv(g, w, s.h);
      CompleteIsNewer(g, at, x, w.store, w.handlers[s.h].seen);
    } else {
      OthersDoNotComplete(g, w, s);
    }
    forall y | y in ScopeOf(g, x) && IsNewer(at.records, w.store.records, y)
      ensures IsNewer(at.records, next.records, y)
    {
    }
  }

  /** The step is the commit of a settle that found the run complete. */
  predicate CompletesBy(w: World, s: Step) {
    && s.Go? && s.h in w.handlers && w.handlers[s.h].Settling?
    && w.store.run == Some(w.handlers[s.h].run) && w.handlers[s.h].state == RunComplete
  }

  lemma OthersDoNotComplete(g: Graph, w: World, s: Step)
    requires g.Valid() && WorldInv(g, w) && !CompletesBy(w, s)
    ensures var next := Next(g, w, s).store;
            next.run.Some? && next.run.value.state == RunComplete ==>
              w.store.run.Some? && w.store.run.value.state == RunComplete
  {
    hide GoWith, StoreInv, RequestsInv, Takes, HandlerOk;
    if s.Go? && s.h in w.handlers {
      HandlerIsIn(g, w, s.h);
      GoDoesNotComplete(g, w, s.h, s.choice);
    }
  }

  lemma GoDoesNotComplete(g: Graph, w: World, h: nat, choice: Name)
    requires g.Valid() && h in w.handlers && HandlerIn(g, w.handlers[h]) && !CompletesBy(w, Go(h, choice))
    ensures var next := GoWith(g, w, h, choice).store;
            next.run.Some? && next.run.value.state == RunComplete ==>
              w.store.run.Some? && w.store.run.value.state == RunComplete
  {
    hide GoWith;
    if WritesRun(w.handlers[h]) {
      WriteOfRun(g, w, h, choice);
    } else {
      GoKeepsRun(g, w, h, choice);
    }
  }

  /** The next step of the handler is a write of the run record under its compare. */
  predicate WritesRun(handler: Handler) {
    handler.Settling? || handler.Marking? || handler.Cancelling?
  }

  lemma GoKeepsRun(g: Graph, w: World, h: nat, choice: Name)
    requires g.Valid() && h in w.handlers && HandlerIn(g, w.handlers[h]) && !WritesRun(w.handlers[h])
    ensures GoWith(g, w, h, choice).store.run == w.store.run
  {
    hide StateOf, StatesOf, SettledState, CurrentRecords, UpstreamRecords, IsReady, UnrecordedRunId, Marked, Seen;
  }

  lemma WriteOfRun(g: Graph, w: World, h: nat, choice: Name)
    requires g.Valid() && h in w.handlers && HandlerIn(g, w.handlers[h]) && WritesRun(w.handlers[h])
    ensures var next, st := GoWith(g, w, h, choice).store, w.store;
            && next == st.(run := next.run)
            && (st.run != Some(w.handlers[h].run) ==> next.run == st.run)
            && (st.run == Some(w.handlers[h].run) ==>
                  match w.handlers[h]
                  case Settling(run, seen, state) => next.run == Some(Settled(run, seen, state, st.clock))
                  case Marking(run, seen, node, _) => next.run == Some(Marked(g, run, seen, node))
                  case Cancelling(run, _) =>
                    next.run == Some(run.(state := RunCancelled, settledAt := Some(st.clock)))
                  case _ => true)
  {
    hide StateOf, StatesOf, SettledState, CurrentRecords, UpstreamRecords, IsReady, UnrecordedRunId, Marked, Settled;
  }

  /** Whatever the handlers in flight do: a run that is complete after the mark has newer
      records of the whole scope. */
  lemma {:induction false} CompletedRunIsNewer(g: Graph, at: Store, x: Name, w: World, steps: seq<Step>)
    requires g.Valid() && WorldInv(g, w) && AllFindState(g, w)
    requires IsMarked(g, at, x, w.store) && x in g.index && IsDoneAfresh(g, at, x, w.store)
    ensures IsDoneAfresh(g, at, x, Walk(g, w, steps).store)
    decreases |steps|
  {
    hide WorldInv, AllFindState, IsMarked, IsDoneAfresh, Next, Later;
    if steps != [] {
      var next := Next(g, w, steps[0]);
      NextKeeps(g, w, steps[0]);
      NextFindsState(g, w, steps[0]);
      StaysMarked(g, at, x, w.store, next.store);
      NextIsDoneAfresh(g, at, x, w, steps[0]);
      CompletedRunIsNewer(g, at, x, next, steps[1..]);
    }
  }

  // ---- The records out of the scope ----

  /** The current record of `z` stays, and no instance of `z` is active. */
  ghost predicate Keeps(z: Name, record: NodeRecord, st: Store) {
    && z in st.records && st.records[z] == record
    && st.run.Some? && st.run.value.IsCurrent(z, record)
    && forall id {:trigger id in st.active} :: id in st.active ==> id.node != z
  }

  /** The handler has the record, current, in what it has read, or has yet to read it;
      its rerun, if it is one, is of `x`. */
  ghost predicate HandlerKeeps(x: Name, z: Name, record: NodeRecord, handler: Handler) {
    match handler
    case Rooting(_, _, _) => false
    case Reading(run, goal, unread, seen) =>
      goal.Advance? && run.IsCurrent(z, record) && (z in unread || (z in seen && seen[z] == record))
    case Submitting(run, seen, _) => run.IsCurrent(z, record) && z in seen && seen[z] == record
    case Marking(_, _, _, _) => false
    case Resubmitting(_, _, node, _) => node == x
    case _ => true
  }

  ghost predicate OthersKeep(x: Name, z: Name, record: NodeRecord, w: World, stale: set<nat>) {
    forall h {:trigger w.handlers[h]} :: h in w.handlers && h !in stale ==> HandlerKeeps(x, z, record, w.handlers[h])
  }

  /** A handler in flight at the mark submits a new instance, or marks a rerun. */
  ghost predicate CommitsStale(g: Graph, w: World, s: Step, stale: set<nat>)
    requires g.Valid()
  {
    && s.Go? && s.h in stale && s.h in w.handlers
    && (SubmitsNew(g, w, s) || (w.handlers[s.h].Marking? && w.store.run == Some(w.handlers[s.h].run)))
  }

  lemma GoHandlerKeeps(g: Graph, x: Name, z: Name, record: NodeRecord, w: World, h: nat, choice: Name)
    requires g.Valid() && h in w.handlers && HandlerIn(g, w.handlers[h]) && z != x
    requires Keeps(z, record, w.store) && HandlerKeeps(x, z, record, w.handlers[h])
    ensures h in GoWith(g, w, h, choice).handlers ==> HandlerKeeps(x, z, record, GoWith(g, w, h, choice).handlers[h])
  {
    hide StateOf, StatesOf, SettledState, CurrentRecords, UpstreamRecords, IsReady, Marked, Submit, Settled,
         UnrecordedRunId, Seen;
  }

  /** No handler but a stale one submits the node anew. */
  lemma KeptIsNotSubmitted(g: Graph, x: Name, z: Name, record: NodeRecord, w: World, s: Step, stale: set<nat>)
    requires g.Valid() && WorldInv(g, w) && z != x && SubmitsNew(g, w, s) && s.h !in stale
    requires Keeps(z, record, w.store) && OthersKeep(x, z, record, w, stale)
    ensures SubmitOf(g, w.handlers[s.h], s.choice).value.node != z
  {
    hide StatesOf, SettledState, UpstreamRecords, IsReady, StoreInv, RequestsInv, StateOf;
    var handler := w.handlers[s.h];
    if handler.Submitting? && s.choice == z {
      HandlerIsIn(g, w, s.h);
      var current := CurrentRecords(handler.run, handler.seen);
      assert z in current;
      StateReads(g, current, z);
    }
  }

  lemma StoreKeeps(g: Graph, x: Name, z: Name, record: NodeRecord, w: World, s: Step, stale: set<nat>)
    requires g.Valid() && WorldInv(g, w) && z != x && !CommitsStale(g, w, s, stale)
    requires Keeps(z, record, w.store) && OthersKeep(x, z, record, w, stale)
    ensures Keeps(z, record, Next(g, w, s).store)
  {
    hide GoWith, StoreInv, RequestsInv, HandlerOk, Takes, SubmitsNew;
    if s.Go? && s.h in w.handlers {
      HandlerIsIn(g, w, s.h);
      if WritesRun(w.handlers[s.h]) {
        WriteKeeps(g, x, z, record, w, s.h, s.choice, stale);
      } else {
        GoKeepsRun(g, w, s.h, s.choice);
        GoKeepsRecords(g, w, s.h, s.choice);
        SubmitKeepsRecord(g, x, z, record, w, s, stale);
      }
    }
  }

  lemma WriteKeeps(g: Graph, x: Name, z: Name, record: NodeRecord, w: World, h: nat, choice: Name, stale: set<nat>)
    requires g.Valid() && h in w.handlers && HandlerIn(g, w.handlers[h]) && WritesRun(w.handlers[h])
    requires Keeps(z, record, w.store) && OthersKeep(x, z, record, w, stale) && !CommitsStale(g, w, Go(h, choice), stale)
    ensures Keeps(z, record, GoWith(g, w, h, choice).store)
  {
    hide GoWith, SubmitsNew, Marked, SubmitOf;
    WriteOfRun(g, w, h, choice);
  }

  lemma SubmitKeepsRecord(g: Graph, x: Name, z: Name, record: NodeRecord, w: World, s: Step, stale: set<nat>)
    requires g.Valid() && WorldInv(g, w) && z != x && !CommitsStale(g, w, s, stale) && s.Go? && s.h in w.handlers
    requires Keeps(z, record, w.store) && OthersKeep(x, z, record, w, stale)
    ensures forall id :: id in Next(g, w, s).store.active ==> id.node != z
  {
    hide StoreInv, RequestsInv, OthersKeep, SubmitsNew, SubmitOf, Next;
    NextSubmitsOnly(g, w, s);
    if SubmitsNew(g, w, s) {
      KeptIsNotSubmitted(g, x, z, record, w, s, stale);
    }
  }

  /** A step of a handler makes no instance active but a new one that it submits. */
  lemma NextSubmitsOnly(g: Graph, w: World, s: Step)
    requires g.Valid() && WorldInv(g, w) && s.Go? && s.h in w.handlers
    ensures HandlerIn(g, w.handlers[s.h])
    ensures Next(g, w, s).store.active <=
            if SubmitsNew(g, w, s) then w.store.active + {SubmitOf(g, w.handlers[s.h], s.choice).value}
            else w.store.active
  {
    hide StateOf, StatesOf, SettledState, CurrentRecords, UpstreamRecords, IsReady, Marked, Settled,
         UnrecordedRunId, StoreInv, RequestsInv, HandlerOk;
    HandlerIsIn(g, w, s.h);
  }

  lemma BeginKeeps(g: Graph, x: Name, z: Name, record: NodeRecord, w: World, s: Step, stale: set<nat>)
    requires g.Valid() && z in g.index && Keeps(z, record, w.store) && OthersKeep(x, z, record, w, stale)
    requires s.BeginStart? || s.BeginEvent? || s.BeginReconcile? || s.BeginCancel?
    ensures var next := BeginWith(g, w, s);
            OthersKeep(x, z, record, next, stale * next.handlers.Keys)
  {
    hide Takes;
  }

  lemma NextKeepsRecord(g: Graph, x: Name, z: Name, record: NodeRecord, w: World, s: Step, stale: set<nat>)
    requires g.Valid() && WorldInv(g, w) && z != x && z in g.index && !s.BeginRerun?
    requires !CommitsStale(g, w, s, stale)
    requires Keeps(z, record, w.store) && OthersKeep(x, z, record, w, stale)
    ensures var next := Next(g, w, s);
            Keeps(z, record, next.store) && OthersKeep(x, z, record, next, stale * next.handlers.Keys)
  {
    hide GoWith, BeginWith, StoreInv, RequestsInv, HandlerOk, CommitsStale, Keeps, HandlerKeeps, Terminate;
    StoreKeeps(g, x, z, record, w, s, stale);
    if s.Go? && s.h in w.handlers {
      GoTouchesOne(g, w, s.h, s.choice);
      if s.h !in stale {
        GoHandlerKeeps(g, x, z, record, w, s.h, s.choice);
      }
    } else if s.BeginStart? || s.BeginEvent? || s.BeginReconcile? || s.BeginCancel? {
      BeginKeeps(g, x, z, record, w, s, stale);
    }
  }

  ghost predicate StaleCommitsNothing(g: Graph, w: World, stale: set<nat>, steps: seq<Step>)
    requires g.Valid()
    decreases |steps|
  {
    steps != [] ==>
      && !CommitsStale(g, w, steps[0], stale)
      && var next := Next(g, w, steps[0]);
      StaleCommitsNothing(g, next, stale * next.handlers.Keys, steps[1..])
  }

  lemma {:induction false} RecordIsKept(g: Graph, x: Name, z: Name, record: NodeRecord, w: World, stale: set<nat>,
                                        steps: seq<Step>)
    requires g.Valid() && WorldInv(g, w) && z != x && z in g.index && HasNoRerun(steps)
    requires Keeps(z, record, w.store) && OthersKeep(x, z, record, w, stale)
    requires StaleCommitsNothing(g, w, stale, steps)
    ensures Keeps(z, record, Walk(g, w, steps).store)
    decreases |steps|
  {
    hide WorldInv, Next, Keeps, OthersKeep, CommitsStale;
    if steps != [] {
      NextKeeps(g, w, steps[0]);
      NextKeepsRecord(g, x, z, record, w, steps[0], stale);
      var next := Next(g, w, steps[0]);
      RecordIsKept(g, x, z, record, next, stale * next.handlers.Keys, steps[1..]);
    }
  }

  lemma {:induction false} CommitsIncludeSubmits(g: Graph, w: World, stale: set<nat>, steps: seq<Step>)
    requires g.Valid() && StaleCommitsNothing(g, w, stale, steps)
    ensures StaleSubmitsNothing(g, w, stale, steps)
    decreases |steps|
  {
    hide Next, SubmitOf;
    if steps != [] {
      var next := Next(g, w, steps[0]);
      CommitsIncludeSubmits(g, next, stale * next.handlers.Keys, steps[1..]);
    }
  }

  // ---- The rerun of a succeeded node ----

  /** After `before`, the step of `h` marks the rerun of `x`, with no active instance and
      with every stored record read. */
  ghost predicate MarksIdle(g: Graph, before: seq<Step>, h: nat, x: Name)
    requires g.Valid()
  {
    var w := After(g, before);
    Marks(g, w, h, x) && w.store.active == {} && w.handlers[h].seen == w.store.records
  }

  ghost function AtMark(g: Graph, before: seq<Step>, h: nat, x: Name): Store
    requires g.Valid() && MarksIdle(g, before, h, x)
  {
    After(g, before).store
  }

  ghost function WorldOfMark(g: Graph, before: seq<Step>, h: nat): World
    requires g.Valid()
  {
    Next(g, After(g, before), Go(h, ""))
  }

  /** The handlers in flight at the mark, but the rerun itself. */
  ghost function InFlight(g: Graph, before: seq<Step>, h: nat): set<nat>
    requires g.Valid()
  {
    After(g, before).handlers.Keys - {h}
  }

  lemma MarkStarts(g: Graph, before: seq<Step>, h: nat, x: Name)
    requires g.Valid() && MarksIdle(g, before, h, x)
    ensures x in g.index
    ensures var at, m := AtMark(g, before, h, x), WorldOfMark(g, before, h);
            && WorldInv(g, m) && AllFindState(g, m) && IsMarked(g, at, x, m.store)
            && HasNewInputs(g, at, x, m.store) && IsDoneAfresh(g, at, x, m.store)
            && OthersInformed(g, at, x, m, InFlight(g, before, h))
            && m.store.records == at.records && m.store.submitted == at.submitted && m.store.active == {}
            && m.store.run == Some(Marked(g, at.run.value, at.records, x))
            && h in m.handlers && m.handlers[h].Resubmitting? && m.handlers[h].node == x
            && m.handlers.Keys == InFlight(g, before, h) + {h}
  {
    hide WorldInv, IsMarked, Next, After, HasNewInputs, AllFindState, IsInformed, Marked;
    var w := After(g, before);
    EveryRunKeeps(g, before);
    RunFindsState(g, before);
    NextFindsState(g, w, Go(h, ""));
    MarkHolds(g, w, h, x, "");
    assert ReadBy(w, h) == w.store;
    MarkedIsActive(g, w.store, x);
    InvariantGivesLater(g, w);
    NothingIsRebuilt(g, w.store, x);
    RerunIsInformed(g, w.store, x, w.handlers[h].request);
  }

  lemma MarkedIsActive(g: Graph, at: Store, x: Name)
    requires g.Valid() && HasSucceeded(g, at, x)
    ensures Marked(g, at.run.value, at.records, x).state == RunActive
  {
  }

  lemma NothingIsRebuilt(g: Graph, at: Store, x: Name)
    requires g.Valid() && x in g.index && StoreInv(g, at) && at.active == {}
    ensures forall st: Store :: st.submitted == at.submitted ==> HasNewInputs(g, at, x, st)
  {
    hide ScopeOf;
    forall id | id in at.submitted
      ensures !IsRebuilt(g, at, x, id)
    {
    }
  }

  lemma RerunIsInformed(g: Graph, at: Store, x: Name, request: Option<RequestId>)
    requires g.Valid() && HasSucceeded(g, at, x)
    ensures IsInformed(g, at, x, Resubmitting(Marked(g, at.run.value, at.records, x), at.records, x, request), at.records)
  {
    var marked := Marked(g, at.run.value, at.records, x);
    forall n | n in at.records && n in ScopeOf(g, x)
      ensures KnowsOf(at.records[n].rerun, n, marked, at.records, at.records)
    {
      assert marked.Expected(n) == at.records[n].rerun + 1;
    }
  }

  /** From such a mark on, every input of the scope is new exactly when no step submits a
      stale one; none does when the handlers in flight at the mark submit nothing. */
  lemma InputsAreNewExactly(g: Graph, before: seq<Step>, h: nat, x: Name, steps: seq<Step>)
    requires g.Valid() && MarksIdle(g, before, h, x)
    ensures x in g.index
    ensures var at, m := AtMark(g, before, h, x), WorldOfMark(g, before, h);
            && (HasNewInputs(g, at, x, Walk(g, m, steps).store) <==> NeverSubmitsStale(g, at, x, m, steps))
            && (StaleSubmitsNothing(g, m, InFlight(g, before, h), steps) ==> NeverSubmitsStale(g, at, x, m, steps))
  {
    hide WorldInv, IsMarked, Next, After, HasNewInputs, AllFindState, OthersInformed, Walk, NeverSubmitsStale,
         StaleSubmitsNothing;
    MarkStarts(g, before, h, x);
    var at, m := AtMark(g, before, h, x), WorldOfMark(g, before, h);
    RunIsStaleExactly(g, at, x, m, steps);
    if StaleSubmitsNothing(g, m, InFlight(g, before, h), steps) {
      NothingStaleIsSubmitted(g, at, x, m, InFlight(g, before, h), steps);
    }
  }

  /** A node of the scope has a newer record, whose input is new. */
  ghost predicate IsRebuiltAfresh(g: Graph, at: Store, x: Name, st: Store, y: Name)
    requires g.Valid() && x in g.index && y in g.index
  {
    && IsNewer(at.records, st.records, y)
    && RunId(y, st.records[y].rerun) in st.submitted
    && (y != x ==> IsNewInput(g, at, x, y, st.submitted[RunId(y, st.records[y].rerun)].upstreams))
  }

  /** A completed run has newer records of the whole scope, whatever the handlers in
      flight do, and their inputs are new when no stale one was submitted. */
  lemma CompletedRunRebuildsItsScope(g: Graph, before: seq<Step>, h: nat, x: Name, steps: seq<Step>)
    requires g.Valid() && MarksIdle(g, before, h, x)
    requires var end := Walk(g, WorldOfMark(g, before, h), steps).store;
             end.run.Some? && end.run.value.state == RunComplete
    ensures x in g.index
    ensures var at, m := AtMark(g, before, h, x), WorldOfMark(g, before, h);
            var end := Walk(g, m, steps).store;
            && (forall y :: y in ScopeOf(g, x) ==> IsNewer(at.records, end.records, y))
            && (NeverSubmitsStale(g, at, x, m, steps) ==>
                  forall y :: y in ScopeOf(g, x) ==> IsRebuiltAfresh(g, at, x, end, y))
  {
    hide WorldInv, IsMarked, Next, After, HasNewInputs, AllFindState, OthersInformed, Walk, NeverSubmitsStale,
         StaleSubmitsNothing, Marked, ScopeOf, Later;
    MarkStarts(g, before, h, x);
    var at, m := AtMark(g, before, h, x), WorldOfMark(g, before, h);
    var end := Walk(g, m, steps);
    CompletedRunIsNewer(g, at, x, m, steps);
    InputsAreNewExactly(g, before, h, x, steps);
    WalkKeeps(g, at, x, m, steps);
    InvariantGivesLater(g, end);
    if NeverSubmitsStale(g, at, x, m, steps) {
      forall y | y in ScopeOf(g, x)
        ensures IsRebuiltAfresh(g, at, x, end.store, y)
      {
        NewerIsRebuilt(g, at, x, end.store, y);
      }
    }
  }

  lemma NewerIsRebuilt(g: Graph, at: Store, x: Name, st: Store, y: Name)
    requires g.Valid() && x in g.index && StoreInv(g, st) && HasNewInputs(g, at, x, st)
    requires y in ScopeOf(g, x) && IsNewer(at.records, st.records, y)
    ensures IsRebuiltAfresh(g, at, x, st, y)
  {
    hide ScopeOf, IsNewInput;
    RecordedWasSubmitted(st, y);
    var id := RunId(y, st.records[y].rerun);
    assert y != x ==> IsRebuilt(g, at, x, id);
  }

  /** The rebuild of a rerun while handlers interleave: when the handlers in flight at
      the mark commit no submit and no mark after it, and no rerun begins later, a
      completed run has rebuilt the whole scope from new inputs, and the current records
      out of the scope are the same. */
  lemma InterleavedRerunRebuilds(g: Graph, before: seq<Step>, h: nat, x: Name, steps: seq<Step>)
    requires g.Valid() && MarksIdle(g, before, h, x) && HasNoRerun(steps)
    requires StaleCommitsNothing(g, WorldOfMark(g, before, h), InFlight(g, before, h), steps)
    requires var end := Walk(g, WorldOfMark(g, before, h), steps).store;
             end.run.Some? && end.run.value.state == RunComplete
    ensures x in g.index
    ensures var at := AtMark(g, before, h, x);
            var end := Walk(g, WorldOfMark(g, before, h), steps).store;
            && (forall y :: y in ScopeOf(g, x) ==> IsRebuiltAfresh(g, at, x, end, y))
            && (forall z :: z in CurrentRecords(at.run.value, at.records) && z !in ScopeOf(g, x) ==>
                  z in end.records && end.records[z] == at.records[z])
  {
    hide WorldInv, IsMarked, Next, After, HasNewInputs, AllFindState, OthersInformed, Walk, NeverSubmitsStale,
         StaleSubmitsNothing, StaleCommitsNothing, Marked, ScopeOf, Keeps, IsRebuiltAfresh;
    MarkStarts(g, before, h, x);
    var at, m := AtMark(g, before, h, x), WorldOfMark(g, before, h);
    var stale := InFlight(g, before, h);
    CommitsIncludeSubmits(g, m, stale, steps);
    InputsAreNewExactly(g, before, h, x, steps);
    CompletedRunRebuildsItsScope(g, before, h, x, steps);
    forall z | z in CurrentRecords(at.run.value, at.records) && z !in ScopeOf(g, x)
      ensures var end := Walk(g, m, steps).store; z in end.records && end.records[z] == at.records[z]
    {
      OutsideIsKept(g, before, h, x, z);
      RecordIsKept(g, x, z, at.records[z], m, stale, steps);
      KeptIsThere(z, at.records[z], Walk(g, m, steps).store);
    }
  }

  lemma KeptIsThere(z: Name, record: NodeRecord, st: Store)
    requires Keeps(z, record, st)
    ensures z in st.records && st.records[z] == record
  {
  }

  lemma OutsideIsKept(g: Graph, before: seq<Step>, h: nat, x: Name, z: Name)
    requires g.Valid() && MarksIdle(g, before, h, x)
    requires var at := AtMark(g, before, h, x);
             z in CurrentRecords(at.run.value, at.records) && x in g.index && z !in ScopeOf(g, x)
    ensures z != x && z in g.index
    ensures var at, m := AtMark(g, before, h, x), WorldOfMark(g, before, h);
            Keeps(z, at.records[z], m.store) && OthersKeep(x, z, at.records[z], m, InFlight(g, before, h))
  {
    hide WorldInv, IsMarked, Next, After, HasNewInputs, AllFindState, OthersInformed, IsDoneAfresh;
    MarkStarts(g, before, h, x);
    var at := AtMark(g, before, h, x);
    InvariantGivesLater(g, WorldOfMark(g, before, h));
    MarkedLeavesOthers(g, at.run.value, at.records, x, z);
  }
}

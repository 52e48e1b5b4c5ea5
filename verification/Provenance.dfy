/**
 Where the records and the inputs of interleaved runs come from: the termination of the
 instance, with the status, the output and the error that it reported.
 */
module Provenance {
  import opened Wrappers
  import opened Json
  import opened Records
  import opened Graphs
  import opened Readiness
  import opened Store
  import opened RunRules
  import opened Interleaving
  import opened InterleavingLaws
  import opened InterleavingTheorems
  import I = TaskInput
  import R = InterleavedReruns

  /** The step at `k` ended the active instance that the record is of, as the record says,
      with its definition and at that time; only a success keeps its output. */
  ghost predicate Reports(g: Graph, steps: seq<Step>, k: nat, n: Name, record: NodeRecord)
    requires g.Valid()
  {
    && k < |steps| && steps[k].TerminateRun? && steps[k].id == RunId(n, record.rerun)
    && steps[k].id in After(g, steps[..k]).store.active
    && steps[k].status == record.status && steps[k].error == record.error
    && record.output == (if record.status == Succeeded then steps[k].output else None)
    && var st := After(g, steps[..k]).store;
    && steps[k].id in st.submitted && record.definition == st.submitted[steps[k].id].definition
    && record.terminatedAt == st.clock
  }

  ghost predicate IsReported(g: Graph, steps: seq<Step>, n: Name, record: NodeRecord)
    requires g.Valid()
  {
    exists k: nat :: Reports(g, steps, k, n, record)
  }

  ghost predicate AllReported(g: Graph, steps: seq<Step>, records: NodeRecords)
    requires g.Valid()
  {
    forall n {:trigger n in records} :: n in records ==> IsReported(g, steps, n, records[n])
  }

  lemma ReportStays(g: Graph, steps: seq<Step>, s: Step, records: NodeRecords)
    requires g.Valid() && AllReported(g, steps, records)
    ensures AllReported(g, steps + [s], records)
  {
    hide After;
    forall n | n in records
      ensures IsReported(g, steps + [s], n, records[n])
    {
      var k: nat :| Reports(g, steps, k, n, records[n]);
      assert (steps + [s])[..k] == steps[..k] && (steps + [s])[k] == steps[k];
      assert Reports(g, steps + [s], k, n, records[n]);
    }
  }

  /** What a handler has read. */
  function SeenOf(handler: Handler): NodeRecords {
    match handler
    case Reading(_, _, _, seen) => seen
    case Submitting(_, seen, _) => seen
    case Scanning(_, seen, _, _) => seen
    case Settling(_, seen, _) => seen
    case Marking(_, seen, _, _) => seen
    case Resubmitting(_, seen, _, _) => seen
    case _ => map[]
  }

  /** All records of the world are reported: the stored ones, those in inputs, and those
      that handlers have read. */
  ghost predicate IsKnown(g: Graph, steps: seq<Step>, w: World)
    requires g.Valid()
  {
    && AllReported(g, steps, w.store.records)
    && (forall id {:trigger w.store.submitted[id]} :: id in w.store.submitted ==>
          AllReported(g, steps, w.store.submitted[id].upstreams))
    && (forall h {:trigger w.handlers[h]} :: h in w.handlers ==> AllReported(g, steps, SeenOf(w.handlers[h])))
  }

  lemma KnownStays(g: Graph, steps: seq<Step>, s: Step, w: World)
    requires g.Valid() && IsKnown(g, steps, w)
    ensures IsKnown(g, steps + [s], w)
  {
    hide AllReported;
    ReportStays(g, steps, s, w.store.records);
    forall id | id in w.store.submitted
      ensures AllReported(g, steps + [s], w.store.submitted[id].upstreams)
    {
      ReportStays(g, steps, s, w.store.submitted[id].upstreams);
    }
    forall h | h in w.handlers
      ensures AllReported(g, steps + [s], SeenOf(w.handlers[h]))
    {
      ReportStays(g, steps, s, SeenOf(w.handlers[h]));
    }
  }

  /** `records` has only records of `known`. */
  ghost predicate IsFrom(records: NodeRecords, known: NodeRecords) {
    forall n {:trigger n in records} :: n in records ==> n in known && records[n] == known[n]
  }

  lemma FromReported(g: Graph, steps: seq<Step>, records: NodeRecords, known: NodeRecords)
    requires g.Valid() && AllReported(g, steps, known) && IsFrom(records, known)
    ensures AllReported(g, steps, records)
  {
    hide IsReported;
  }

  /** A step of a handler reads at most one stored record. */
  lemma GoReads(g: Graph, w: World, h: nat, choice: Name)
    requires g.Valid() && h in w.handlers && HandlerIn(g, w.handlers[h])
    ensures var next := GoWith(g, w, h, choice);
            h in next.handlers ==>
              || SeenOf(next.handlers[h]) == SeenOf(w.handlers[h])
              || SeenOf(next.handlers[h]) == map[]
              || (choice in w.store.records
                  && SeenOf(next.handlers[h]) == SeenOf(w.handlers[h])[choice := w.store.records[choice]])
  {
    hide StateOf, StatesOf, SettledState, IsReady, Marked, Settled, UnrecordedRunId, Submit, UpstreamRecords,
         CurrentRecords;
    var next := GoWith(g, w, h, choice);
    match w.handlers[h]
    case Reading(_, _, unread, _) =>
      if unread == {} {
        assert h in next.handlers && !next.handlers[h].Recording? ==>
          SeenOf(next.handlers[h]) == SeenOf(w.handlers[h]);
      }
    case _ =>
  }

  lemma InputIsFrom(node: Node, run: GraphRunRecord, seen: NodeRecords)
    ensures IsFrom(UpstreamRecords(node, CurrentRecords(run, seen)), seen)
  {
  }

  /** What it submits it has read. */
  lemma GoSubmits(g: Graph, w: World, h: nat, choice: Name)
    requires g.Valid() && h in w.handlers && HandlerIn(g, w.handlers[h])
    ensures var next := GoWith(g, w, h, choice);
            && next.store.records == w.store.records
            && (forall id {:trigger next.store.submitted[id]} :: id in next.store.submitted ==>
                  (id in w.store.submitted && next.store.submitted[id] == w.store.submitted[id])
                  || IsFrom(next.store.submitted[id].upstreams, SeenOf(w.handlers[h])))
  {
    hide StateOf, StatesOf, SettledState, IsReady, Marked, Settled, UnrecordedRunId, UpstreamRecords, CurrentRecords,
         IsFrom;
    match w.handlers[h]
    case Submitting(run, seen, todo) =>
      if choice in todo {
        InputIsFrom(g.Get(choice), run, seen);
      }
    case Resubmitting(marked, seen, node, _) => InputIsFrom(g.Get(node), marked, seen);
    case Rooting(_, _, _) => NothingIsFrom(map[]);
    case _ =>
  }

  lemma NothingIsFrom(seen: NodeRecords)
    ensures IsFrom(map[], seen)
  {
  }

  lemma GoStaysKnown(g: Graph, steps: seq<Step>, w: World, h: nat, choice: Name)
    requires g.Valid() && IsKnown(g, steps, w) && WorldInv(g, w) && h in w.handlers && HandlerIn(g, w.handlers[h])
    ensures IsKnown(g, steps, GoWith(g, w, h, choice))
  {
    hide AllReported, GoWith, HandlerIn, SeenOf, WorldInv;
    var next, seen := GoWith(g, w, h, choice), SeenOf(w.handlers[h]);
    GoReads(g, w, h, choice);
    R.GoTouchesOne(g, w, h, choice);
    GoSubmits(g, w, h, choice);
    forall id | id in next.store.submitted
      ensures AllReported(g, steps, next.store.submitted[id].upstreams)
    {
      if !(id in w.store.submitted && next.store.submitted[id] == w.store.submitted[id]) {
        FromReported(g, steps, next.store.submitted[id].upstreams, seen);
      }
    }
    if h in next.handlers {
      NothingIsFrom(seen);
      FromReported(g, steps, map[], seen);
      if choice in w.store.records {
        OneMoreReported(g, steps, seen, w.store.records, choice);
      }
    }
  }

  lemma OneMoreReported(g: Graph, steps: seq<Step>, seen: NodeRecords, records: NodeRecords, n: Name)
    requires g.Valid() && AllReported(g, steps, seen) && AllReported(g, steps, records) && n in records
    ensures AllReported(g, steps, seen[n := records[n]])
  {
    hide IsReported;
  }

  /** The record of a termination reports it. */
  lemma TerminationIsReported(g: Graph, steps: seq<Step>, s: Step)
    requires g.Valid() && s.TerminateRun?
    requires var st := After(g, steps).store; s.id in st.active && s.id in st.submitted
    ensures var next := Next(g, After(g, steps), s).store;
            s.id.node in next.records && IsReported(g, steps + [s], s.id.node, next.records[s.id.node])
  {
    hide After;
    var next := Next(g, After(g, steps), s).store;
    assert (steps + [s])[..|steps|] == steps && (steps + [s])[|steps|] == s;
    assert Reports(g, steps + [s], |steps|, s.id.node, next.records[s.id.node]);
  }

  lemma BeginStaysKnown(g: Graph, steps: seq<Step>, w: World, s: Step)
    requires g.Valid() && IsKnown(g, steps, w)
    requires s.BeginStart? || s.BeginEvent? || s.BeginReconcile? || s.BeginRerun? || s.BeginCancel?
    ensures IsKnown(g, steps, BeginWith(g, w, s))
  {
    hide IsReported, Takes;
  }

  lemma NextStaysKnown(g: Graph, steps: seq<Step>, s: Step)
    requires g.Valid() && IsKnown(g, steps, After(g, steps))
    ensures IsKnown(g, steps + [s], Next(g, After(g, steps), s))
  {
    hide After, AllReported, GoWith, BeginWith, HandlerIn, SeenOf, WorldInv;
    var w := After(g, steps);
    EveryRunKeeps(g, steps);
    KnownStays(g, steps, s, w);
    if s.Go? && s.h in w.handlers && HandlerIn(g, w.handlers[s.h]) {
      GoStaysKnown(g, steps + [s], w, s.h, s.choice);
    } else if s.TerminateRun? && s.id in w.store.active && s.id in w.store.submitted {
      TerminationIsReported(g, steps, s);
      TerminatedReported(g, steps + [s], w.store, s);
    } else if s.BeginStart? || s.BeginEvent? || s.BeginReconcile? || s.BeginRerun? || s.BeginCancel? {
      BeginStaysKnown(g, steps + [s], w, s);
    }
  }

  lemma TerminatedReported(g: Graph, steps: seq<Step>, st: Store, s: Step)
    requires g.Valid() && s.TerminateRun? && s.id in st.submitted && AllReported(g, steps, st.records)
    requires IsReported(g, steps, s.id.node, RecordOf(st, s.id, s.status, s.output, s.error))
    ensures AllReported(g, steps, Terminate(st, s.id, s.status, s.output, s.error).records)
  {
    hide IsReported;
  }

  lemma {:induction false} RunIsKnown(g: Graph, steps: seq<Step>)
    requires g.Valid()
    ensures IsKnown(g, steps, After(g, steps))
    decreases |steps|
  {
    hide IsKnown, Next;
    if steps == [] {
      NothingIsKnown(g);
    } else {
      var front := steps[..|steps| - 1];
      RunIsKnown(g, front);
      NextStaysKnown(g, front, steps[|steps| - 1]);
      assert front + [steps[|steps| - 1]] == steps;
    }
  }

  lemma NothingIsKnown(g: Graph)
    requires g.Valid()
    ensures IsKnown(g, [], Initial)
  {
  }

  /** In every interleaved run, a stored record is what the termination of its instance
      reported, of the definition that the instance was submitted with. */
  lemma RecordsAreReported(g: Graph, steps: seq<Step>, n: Name)
    requires g.Valid() && n in After(g, steps).store.records
    ensures var st := After(g, steps).store;
            IsReported(g, steps, n, st.records[n]) && RunId(n, st.records[n].rerun) in st.submitted
  {
    hide After, IsReported;
    RunIsKnown(g, steps);
    EveryRunKeeps(g, steps);
    assert AllReported(g, steps, After(g, steps).store.records);
  }

  /** The input of a submitted instance has exactly the outputs of its upstreams that
      succeeded, as their terminations reported them, and the status and the error of
      every one. */
  lemma InputsAreReported(g: Graph, steps: seq<Step>, id: RunId, u: Name)
    requires g.Valid() && id in After(g, steps).store.submitted
    ensures id.node in g.index
    ensures var records := After(g, steps).store.submitted[id].upstreams;
            var input := I.InputOf(g.Get(id.node), records);
            && (u in input.upstreams <==> u in records)
            && (u in input.inputs ==> u in records)
            && (u in records ==>
                  exists k: nat :: Reports(g, steps, k, u, records[u])
                    && input.upstreams[u] == I.UpstreamSummary(steps[k].status, steps[k].error)
                    && (u in input.inputs <==> steps[k].status == Succeeded)
                    && (u in input.inputs ==>
                          input.inputs[u] == if steps[k].output.Some? then steps[k].output.value else Null))
  {
    hide After, WorldInv, Reports;
    RunIsKnown(g, steps);
    SubmittedIsNode(g, steps, id);
    var records := After(g, steps).store.submitted[id].upstreams;
    if u in records {
      assert AllReported(g, steps, records) && IsReported(g, steps, u, records[u]);
      var k: nat :| Reports(g, steps, k, u, records[u]);
      ReportSays(g, steps, k, u, records[u]);
    }
  }

  lemma SubmittedIsNode(g: Graph, steps: seq<Step>, id: RunId)
    requires g.Valid() && id in After(g, steps).store.submitted
    ensures id.node in g.index && g.Indexed()
  {
    hide After, RequestsInv, CountsInv, PayloadOk;
    EveryRunKeeps(g, steps);
  }

  lemma ReportSays(g: Graph, steps: seq<Step>, k: nat, n: Name, record: NodeRecord)
    requires g.Valid() && Reports(g, steps, k, n, record)
    ensures k < |steps| && steps[k].TerminateRun? && steps[k].status == record.status && steps[k].error == record.error
    ensures record.output == (if record.status == Succeeded then steps[k].output else None)
  {
    hide After;
  }
}

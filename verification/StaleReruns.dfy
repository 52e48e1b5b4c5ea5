/**
 The nodes whose rerun can leave old inputs in its scope while handlers interleave:
 the runs that show it, built for an arbitrary graph without one-failed nodes.
 */
module StaleReruns {
  import opened Wrappers
  import opened Json
  import opened Records
  import opened Graphs
  import opened Readiness
  import opened ReadinessLaws
  import opened Scopes
  import opened Store
  import opened RunRules
  import opened RunLaws
  import opened Interleaving
  import opened InterleavingLaws
  import opened InterleavingTheorems
  import opened InterleavedSettles
  import opened RerunLaws
  import opened InterleavedReruns
  import opened Passes
  import S = Settlement
  import C = Confluence

  /** No node waits for a failure, so that a run of the graph can succeed. */
  ghost predicate NeedsNoFailure(g: Graph) {
    && g.Valid()
    && forall n :: n in g.index ==> g.Get(n).Rule() != OneFailed
  }

  ghost predicate OnlyReady(g: Graph, records: NodeRecords, skip: set<Name>)
    requires g.Valid()
  {
    forall n :: n in g.index && n !in skip ==> StateOf(g, records, n) != Ready
  }

  /** Once only nodes of `skip` are ready, what is not after a failed or a skipped node
      is recorded. */
  lemma {:induction false} RunsUpTo(g: Graph, records: NodeRecords, failing: set<Name>, skip: set<Name>, n: Name)
    requires NeedsNoFailure(g) && n in g.index && OnlyReady(g, records, skip)
    requires forall m :: m in g.index && m in failing + skip ==> g.Rank(n) <= g.Rank(m)
    requires forall m :: m in records ==> records[m].status == EndOf(failing, m)
    ensures IsReady(g.Get(n), records)
    ensures n !in skip ==> n in records
    decreases g.Rank(n)
  {
    hide StateOf;
    forall u | u in g.Get(n).upstreams
      ensures u in records && records[u].status == Succeeded
    {
      RankDecreases(g, n, u);
      RunsUpTo(g, records, failing, skip, u);
    }
    StateReads(g, records, n);
  }

  /** The scope node of least rank other than `x` is fed by `x`. */
  lemma FirstFollower(g: Graph, x: Name) returns (y: Name)
    requires g.Valid() && x in g.index && ScopeOf(g, x) != {x}
    ensures y in ScopeOf(g, x) && y != x && x in g.Get(y).upstreams
  {
    hide Graph.Wired, Graph.Acyclic;
    y := LeastRank(g, ScopeOf(g, x) - {x});
    assert InScope(g, x, y);
    var u :| u in g.Get(y).upstreams && InScope(g, x, u);
    RankDecreases(g, y, u);
    assert u in ScopeOf(g, x);
  }

  // ---- From the mark to a completed run ----

  /** The last instance of `y` was built from a record of `u` that is not newer. */
  ghost predicate HasOldInput(at: Store, st: Store, y: Name, u: Name) {
    && y in st.records && u in at.records
    && var id := RunId(y, st.records[y].rerun);
    && id in st.submitted && u in st.submitted[id].upstreams
    && st.submitted[id].upstreams[u].rerun <= at.records[u].rerun
  }

  lemma OldInputIsNotFresh(g: Graph, at: Store, st: Store, x: Name, y: Name, u: Name)
    requires g.Valid() && x in g.index && y in ScopeOf(g, x) && y != x
    requires u in g.Get(y).upstreams && u in ScopeOf(g, x) && HasOldInput(at, st, y, u)
    ensures !IsRebuiltAfresh(g, at, x, st, y)
  {
    hide ScopeOf;
  }

  lemma SucceededRerunMarks(g: Graph, st: Store, x: Name)
    requires g.Valid() && S.IsSettled(st) && HasSucceeded(g, st, x)
    requires IsReady(g.Get(x), CurrentRecords(st.run.value, st.records))
    ensures var marked := Marked(g, st.run.value, st.records, x);
            marked != st.run.value && IsReady(g.Get(x), CurrentRecords(marked, st.records))
  {
    hide IsReady, ScopeOf;
    RerunKeepsOwnReadiness(g, st.run.value, st.records, x);
  }

  /** From an idle active run whose current records have succeeded: the other nodes run,
      and a pass settles the run, with `y` as it was. */
  lemma Complete(g: Graph, steps: seq<Step>, base: seq<Step>, at: Store, st: Store, y: Name, u: Name)
    returns (more: seq<Step>, end: Store)
    requires NeedsNoFailure(g) && Leads(g, steps, base, st, map[]) && IsRunning(g, st, {})
    requires y in CurrentRecords(st.run.value, st.records) && HasOldInput(at, st, y, u)
    ensures Leads(g, more, base, end, map[]) && end.run.Some? && end.run.value.state == RunComplete
    ensures HasOldInput(at, end, y, u)
  {
    hide Leads, StateOf, StatesOf, SettledState;
    more, end := RunAll(g, steps, base, st, map[], 1, {}, {});
    AllSucceededSettles(g, end);
    assert y in CurrentRecords(st.run.value, end.records);
    more := SettlePass(g, more, base, end, map[], 1, RunComplete);
    end := end.(run := Some(Settled(end.run.value, end.records, RunComplete, end.clock)));
  }

  lemma AllSucceededSettles(g: Graph, st: Store)
    requires NeedsNoFailure(g) && IsRunning(g, st, {})
    requires OnlyReady(g, CurrentRecords(st.run.value, st.records), {})
    ensures IsFinal(g, CurrentRecords(st.run.value, st.records), RunComplete)
  {
    hide StateOf, StatesOf, SettledState;
    var current := CurrentRecords(st.run.value, st.records);
    forall n | n in g.index
      ensures n in current && current[n].status == Succeeded
    {
      RunsUpTo(g, current, {}, {}, n);
    }
    SettledExactlyWithoutReadyNodes(g, current);
  }

  /** The run that the steps before and after the mark make up. */
  lemma MarkedRun(g: Graph, before: seq<Step>, st: Store, handlers: HandlerMap, h: nat, x: Name,
                  more: seq<Step>, end: Store)
    returns (steps: seq<Step>)
    requires g.Valid() && HasSucceeded(g, st, x) && S.IsSettled(st) && st.active == {}
    requires Leads(g, before, before, st, handlers[h := Marking(st.run.value, st.records, x, None)])
    requires Leads(g, more, before + [Go(h, "")], end, map[])
    ensures MarksIdle(g, before, h, x) && AtMark(g, before, h, x) == st && HasNoRerun(steps)
    ensures Walk(g, WorldOfMark(g, before, h), steps).store == end
  {
    hide ScopeOf, Marked, After, Walk, Next;
    var from := before + [Go(h, "")];
    steps := more[|from|..];
    assert from + steps == more;
    assert st.(records := st.records) == st;
    AfterAppend(g, before, Go(h, ""));
    WalkIsAfter(g, from, steps);
  }

  // ---- A rerun that submits a stale instance ----

  /** The rerun of `x` is about to mark, and the rerun of the failed `y`, which has read
      the record of `x` before, to submit. */
  ghost predicate IsPoised(g: Graph, st: Store, run: GraphRunRecord, x: Name, y: Name)
    requires g.Valid()
  {
    && HasRun(g, st, {y}) && HasSucceeded(g, st, x) && run.expectedReruns == map[]
    && y in st.records && y in ScopeOf(g, x) && y != x && x in g.Get(y).upstreams
    && HandlerIn(g, Resubmitting(run, st.records, y, None))
  }

  lemma PoiseBoth(g: Graph, x: Name, y: Name) returns (before: seq<Step>, st: Store, run: GraphRunRecord)
    requires NeedsNoFailure(g) && x in g.index && y in ScopeOf(g, x) && y != x && x in g.Get(y).upstreams
    ensures IsPoised(g, st, run, x, y)
    ensures Leads(g, before, before, st,
                  map[2 := Resubmitting(run, st.records, y, None)][3 := Marking(st.run.value, st.records, x, None)])
  {
    hide Leads, StateOf, IsReady, Marked, ScopeOf;
    var settled;
    before, settled := RunAndSettle(g, {y});
    RankDecreases(g, y, x);
    RunsUpTo(g, settled.records, {y}, {}, y);
    RunsUpTo(g, settled.records, {y}, {}, x);
    before, st, run := PoiseRerun(g, before, [], settled, {y}, y);
    C.AllCurrent(st.run.value, st.records);
    SucceededRerunMarks(g, st, x);
    before := MarkPass(g, before, before, st, map[2 := Resubmitting(run, st.records, y, None)], 3, x);
  }

  /** After the mark: the stale rerun submits, both instances succeed, and the run completes. */
  lemma CompleteRerun(g: Graph, from: seq<Step>, st: Store, run: GraphRunRecord, x: Name, y: Name)
    returns (more: seq<Step>, end: Store)
    requires NeedsNoFailure(g) && IsPoised(g, st, run, x, y)
    requires var marked := Marked(g, st.run.value, st.records, x);
             Leads(g, from, from, st.(run := Some(marked)),
                   map[2 := Resubmitting(run, st.records, y, None)][3 := Resubmitting(marked, st.records, x, None)])
    ensures Leads(g, more, from, end, map[]) && end.run.Some? && end.run.value.state == RunComplete
    ensures HasOldInput(st, end, y, x)
  {
    hide Leads, StateOf, IsReady, Marked, ScopeOf, StatesOf, SettledState;
    var marked := Marked(g, st.run.value, st.records, x);
    var none: HandlerMap := map[];
    var last := none[3 := Resubmitting(marked, st.records, x, None)];
    var one, two, at := st, st, st.(run := Some(marked));
    assert last[2 := Resubmitting(run, st.records, y, None)]
        == map[2 := Resubmitting(run, st.records, y, None)][3 := Resubmitting(marked, st.records, x, None)];
    more, one := ResubmitPass(g, from, from, at, last, 2, run, st.records, y, Succeeded);
    more, two := ResubmitPass(g, more, from, one, none, 3, marked, st.records, x, Succeeded);
    BothSucceeded(g, st, one, two, run, x, y);
    more, end := Complete(g, more, from, st, two, y, x);
  }

  lemma BothSucceeded(g: Graph, st: Store, one: Store, two: Store, run: GraphRunRecord, x: Name, y: Name)
    requires g.Valid() && IsPoised(g, st, run, x, y)
    requires var marked := Marked(g, st.run.value, st.records, x);
             Ended(st.(run := Some(marked)), one, RunId(y, st.records[y].rerun + 1), Succeeded)
    requires Ended(one, two, RunId(x, st.records[x].rerun + 1), Succeeded)
    requires one.submitted[RunId(y, st.records[y].rerun + 1)].upstreams
          == UpstreamRecords(g.Get(y), CurrentRecords(run, st.records))
    ensures IsRunning(g, two, {}) && y in CurrentRecords(two.run.value, two.records) && HasOldInput(st, two, y, x)
  {
    hide StateOf, ScopeOf, Marked, Graph.Valid;
    C.AllCurrent(run, st.records);
    MarkedIsActive(g, st, x);
    BothAreCurrent(g, st, x, y);
    assert RunId(y, st.records[y].rerun + 1) in one.submitted;
  }

  lemma BothAreCurrent(g: Graph, st: Store, x: Name, y: Name)
    requires g.Valid() && HasSucceeded(g, st, x) && y in ScopeOf(g, x) && y in st.records
    ensures var marked := Marked(g, st.run.value, st.records, x);
            marked.Expected(x) == st.records[x].rerun + 1 && marked.Expected(y) == st.records[y].rerun + 1
  {
  }

  /** A completed run in which a rerun in flight at the mark rebuilt `y` from the record
      of `x` before the mark. */
  lemma RerunIsStale(g: Graph, x: Name, y: Name) returns (before: seq<Step>, steps: seq<Step>)
    requires NeedsNoFailure(g) && x in g.index && y in ScopeOf(g, x) && y != x && x in g.Get(y).upstreams
    ensures MarksIdle(g, before, 3, x) && S.IsSettled(AtMark(g, before, 3, x)) && HasNoRerun(steps)
    ensures var end := Walk(g, WorldOfMark(g, before, 3), steps).store;
            && end.run.Some? && end.run.value.state == RunComplete
            && !IsRebuiltAfresh(g, AtMark(g, before, 3, x), x, end, y)
  {
    hide StateOf, ScopeOf, Marked, Leads, IsReady, Walk, HasOldInput, WorldOfMark;
    var st, run, more, end;
    before, st, run := PoiseBoth(g, x, y);
    var handlers: HandlerMap := map[2 := Resubmitting(run, st.records, y, None)];
    var from := MarkStep(g, before, before, st, handlers, 3, x);
    var marked := Marked(g, st.run.value, st.records, x);
    Rebase(g, from, before, st.(run := Some(marked)), handlers[3 := Resubmitting(marked, st.records, x, None)]);
    more, end := CompleteRerun(g, from, st, run, x, y);
    steps := MarkedRun(g, before, st, handlers, 3, x, more, end);
    OldInputIsNotFresh(g, st, end, x, y, x);
  }

  // ---- An advance that submits a stale instance ----

  /** A path from `x` to `y` by way of `z`, within the scope of `x`. */
  ghost predicate IsChain(g: Graph, x: Name, z: Name, y: Name) {
    && NeedsNoFailure(g) && x in g.index
    && z in ScopeOf(g, x) && z != x && y in ScopeOf(g, x) && y != x && z in g.Get(y).upstreams
  }

  lemma ChainRanks(g: Graph, x: Name, z: Name, y: Name)
    requires IsChain(g, x, z, y)
    ensures y != z && g.Rank(x) < g.Rank(z) < g.Rank(y) && x !in ScopeOf(g, z) && g.Get(y).Rule() == AllSucceeded
  {
    RankDecreases(g, y, z);
    assert InScope(g, x, z) && InScope(g, x, y);
    ScopeIsDownstream(g, x, z);
    if InScope(g, z, x) {
      ScopeIsDownstream(g, z, x);
    }
  }

  /** The advance has read the record of `z` that a later rerun has replaced, and is
      about to submit the first instance of `y`; nothing else has submitted it. */
  ghost predicate IsReadyFrom(g: Graph, st: Store, run: GraphRunRecord, seen: NodeRecords, z: Name, y: Name)
    requires g.Valid() && y in g.index
  {
    && run.expectedReruns == map[] && HandlerIn(g, Submitting(run, seen, g.index.Keys))
    && StateOf(g, seen, y) == Ready && y !in st.records && y !in seen
    && z in seen && z in st.records && seen[z].rerun < st.records[z].rerun
  }

  /** An idle run in which everything before `y` has succeeded, with an advance that has
      read it. */
  lemma ReadBefore(g: Graph, x: Name, z: Name, y: Name) returns (steps: seq<Step>, st: Store)
    requires IsChain(g, x, z, y)
    ensures IsRunning(g, st, {}) && st.run.value.expectedReruns == map[]
    ensures Leads(g, steps, [], st, map[9 := Submitting(st.run.value, st.records, g.index.Keys)])
    ensures y !in st.records && IsReady(g.Get(y), st.records) && x in st.records && z in st.records
    ensures IsReady(g.Get(z), st.records)
  {
    hide StateOf, StatesOf, SettledState, IsReady, ScopeOf;
    var none, rooting: HandlerMap := map[], map[0 := Rooting("d", g.Roots(), None)];
    var started := Empty.(run := Some(NewRun("d", 0)));
    assert Initial.handlers[0 := Rooting("d", g.Roots(), None)] == rooting;
    assert Leads(g, [], [], Empty, none);
    hide Leads;
    steps := Step1(g, [], [], Empty, none, BeginStart(0, "d", None), started, rooting);
    assert rooting - {0} == none;
    steps := Step1(g, steps, [], started, rooting, Crash(0), started, none);
    steps, st := RunAll(g, steps, [], started, none, 1, {}, {y});
    C.AllCurrent(st.run.value, st.records);
    ChainRanks(g, x, z, y);
    RunsUpTo(g, st.records, {}, {y}, x);
    RunsUpTo(g, st.records, {}, {y}, z);
    RunsUpTo(g, st.records, {}, {y}, y);
    steps := ReadPass(g, steps, [], st, none, 9);
  }

  /** The rerun of `z` fails, and the run settles without `y`. */
  lemma FailAgain(g: Graph, steps: seq<Step>, was: Store, x: Name, z: Name, y: Name)
    returns (more: seq<Step>, st: Store)
    requires IsChain(g, x, z, y) && IsRunning(g, was, {}) && was.run.value.expectedReruns == map[]
    requires Leads(g, steps, [], was, map[9 := Submitting(was.run.value, was.records, g.index.Keys)])
    requires y !in was.records && x in was.records && z in was.records && IsReady(g.Get(z), was.records)
    ensures Leads(g, more, more, st, map[9 := Submitting(was.run.value, was.records, g.index.Keys)])
    ensures S.IsSettled(st) && st.active == {} && st.records.Keys <= g.index.Keys && y !in st.records
    ensures IsFailed(g, st, x, z) && z in st.records && was.records[z].rerun < st.records[z].rerun
  {
    hide StateOf, StatesOf, SettledState, IsReady, ScopeOf, Leads, Marked;
    var handlers: HandlerMap := map[9 := Submitting(was.run.value, was.records, g.index.Keys)];
    var two, three, from := was, was, steps;
    more, from, two := FailRerun(g, steps, was, handlers, x, z, y);
    more, three := RunAll(g, more, from, two, handlers, 1, {z}, {y});
    ChainRanks(g, x, z, y);
    StillFailed(g, two, three, x, z, y);
    SettledExactlyWithoutReadyNodes(g, CurrentRecords(three.run.value, three.records));
    var state := SettledState(StatesOf(g, CurrentRecords(three.run.value, three.records))).value;
    more := SettlePass(g, more, from, three, handlers, 1, state);
    st := three.(run := Some(Settled(three.run.value, three.records, state, three.clock)));
    S.PruneKeepsCurrent(three.run.value, three.records, state, three.clock);
    Rebase(g, more, from, st, handlers);
  }

  lemma FailRerun(g: Graph, steps: seq<Step>, was: Store, handlers: HandlerMap, x: Name, z: Name, y: Name)
    returns (more: seq<Step>, from: seq<Step>, two: Store)
    requires IsChain(g, x, z, y) && IsRunning(g, was, {}) && was.run.value.expectedReruns == map[]
    requires 2 !in handlers && Leads(g, steps, [], was, handlers)
    requires y !in was.records && x in was.records && z in was.records && IsReady(g.Get(z), was.records)
    ensures Leads(g, more, from, two, handlers) && IsRunning(g, two, {z})
    ensures y !in two.records && z in two.records && two.records[z].rerun == was.records[z].rerun + 1
    ensures var current := CurrentRecords(two.run.value, two.records); x in current && z in current
  {
    hide StateOf, StatesOf, SettledState, IsReady, ScopeOf, Leads, Marked;
    var marked := Marked(g, was.run.value, was.records, z);
    C.AllCurrent(was.run.value, was.records);
    FirstMark(g, was.run.value, was.records, z);
    from := MarkPass(g, steps, [], was, handlers, 2, z);
    more := MarkStep(g, from, from, was, handlers, 2, z);
    more, two := ResubmitPass(g, more, from, was.(run := Some(marked)), handlers, 2, marked, was.records, z, Failed);
    RerunFailed(g, was, two, x, z, y);
  }

  /** `x` has succeeded and could run again; `z` alone has failed. */
  ghost predicate IsFailed(g: Graph, st: Store, x: Name, z: Name)
    requires g.Valid() && x in g.index
  {
    st.run.Some? && var current := CurrentRecords(st.run.value, st.records);
    && x in current && x != z && IsReady(g.Get(x), current)
    && forall n :: n in current ==> current[n].status == EndOf({z}, n)
  }

  lemma FirstMark(g: Graph, run: GraphRunRecord, records: NodeRecords, z: Name)
    requires g.Valid() && z in g.index && run.expectedReruns == map[]
    requires z in records && records[z].status == Succeeded && IsReady(g.Get(z), records)
    ensures var marked := Marked(g, run, records, z);
            marked != run && IsReady(g.Get(z), CurrentRecords(marked, records))
  {
    hide IsReady;
    C.AllCurrent(run, records);
    RerunKeepsOwnReadiness(g, run, records, z);
    assert z in Marked(g, run, records, z).expectedReruns;
  }

  lemma RerunFailed(g: Graph, was: Store, two: Store, x: Name, z: Name, y: Name)
    requires IsChain(g, x, z, y) && IsRunning(g, was, {}) && was.run.value.expectedReruns == map[]
    requires y !in was.records && x in was.records && z in was.records
    requires var marked := Marked(g, was.run.value, was.records, z);
             Ended(was.(run := Some(marked)), two, RunId(z, was.records[z].rerun + 1), Failed)
    ensures IsRunning(g, two, {z}) && y !in two.records && two.records[z].rerun == was.records[z].rerun + 1
    ensures var current := CurrentRecords(two.run.value, two.records); x in current && z in current
  {
    hide StateOf, ScopeOf;
    ChainRanks(g, x, z, y);
    C.AllCurrent(was.run.value, was.records);
    MarkedLeavesOthers(g, was.run.value, was.records, z, x);
    assert z in ScopeOf(g, z);
  }

  lemma StillFailed(g: Graph, two: Store, three: Store, x: Name, z: Name, y: Name)
    requires IsChain(g, x, z, y) && IsRunning(g, two, {z}) && y !in two.records
    requires x in CurrentRecords(two.run.value, two.records) && z in CurrentRecords(two.run.value, two.records)
    requires IsRunning(g, three, {z}) && Continues(g, two, three, {y})
    requires OnlyReady(g, CurrentRecords(three.run.value, three.records), {y})
    ensures IsFailed(g, three, x, z) && y !in three.records && three.records[z] == two.records[z]
    ensures OnlyReady(g, CurrentRecords(three.run.value, three.records), {})
  {
    hide StateOf, ScopeOf, IsReady, Continues, CurrentRecords, OnlyReady, Graph.Valid;
    SkippedStays(g, two, three, y);
    KeptIsCurrent(g, two, three, {y}, x);
    KeptIsCurrent(g, two, three, {y}, z);
    CurrentIsRecorded(three.run.value, three.records);
    ChainStalls(g, CurrentRecords(three.run.value, three.records), x, z, y);
  }

  lemma CurrentIsRecorded(run: GraphRunRecord, records: NodeRecords)
    ensures forall n :: n in CurrentRecords(run, records) ==> n in records && CurrentRecords(run, records)[n] == records[n]
  {
  }

  /** After a failed `z`, with only `y` left out, nothing is ready. */
  lemma ChainStalls(g: Graph, current: NodeRecords, x: Name, z: Name, y: Name)
    requires IsChain(g, x, z, y) && z in current && y !in current && OnlyReady(g, current, {y})
    requires forall m :: m in current ==> current[m].status == EndOf({z}, m)
    ensures x != z && x in current && IsReady(g.Get(x), current) && OnlyReady(g, current, {})
  {
    hide StateOf, ScopeOf, IsReady, Graph.Wired, Graph.Acyclic;
    ChainRanks(g, x, z, y);
    RunsUpTo(g, current, {z}, {y}, x);
    FailedBlocks(g.Get(y), current, z);
    StateReads(g, current, y);
  }

  lemma KeptIsCurrent(g: Graph, st: Store, next: Store, skip: set<Name>, n: Name)
    requires g.Valid() && Continues(g, st, next, skip) && n in CurrentRecords(st.run.value, st.records)
    ensures next.run == st.run && n in CurrentRecords(next.run.value, next.records)
    ensures next.records[n] == st.records[n]
  {
    assert n in CurrentRecords(st.run.value, next.records);
  }

  lemma SkippedStays(g: Graph, st: Store, next: Store, y: Name)
    requires g.Valid() && Continues(g, st, next, {y}) && y !in st.records
    ensures y !in next.records
  {
  }

  lemma FailedBlocks(node: Node, records: NodeRecords, z: Name)
    requires node.Rule() == AllSucceeded && z in node.upstreams && z in records && records[z].status == Failed
    ensures !IsReady(node, records)
  {
  }

  /** After the mark of `x`: the stale advance submits `y`, and the run completes. */
  lemma CompleteAdvance(g: Graph, from: seq<Step>, st: Store, run: GraphRunRecord, seen: NodeRecords,
                        x: Name, z: Name, y: Name)
    returns (more: seq<Step>, end: Store)
    requires IsChain(g, x, z, y) && IsReadyFrom(g, st, run, seen, z, y) && IsFailed(g, st, x, z)
    requires st.active == {} && st.records.Keys <= g.index.Keys && HasSucceeded(g, st, x)
    requires var marked := Marked(g, st.run.value, st.records, x);
             Leads(g, from, from, st.(run := Some(marked)),
                   map[9 := Submitting(run, seen, g.index.Keys)][3 := Resubmitting(marked, st.records, x, None)])
    ensures Leads(g, more, from, end, map[]) && end.run.Some? && end.run.value.state == RunComplete
    ensures HasOldInput(st, end, y, z)
  {
    hide Leads, StateOf, IsReady, Marked, ScopeOf, StatesOf, SettledState, IsFailed;
    var marked := Marked(g, st.run.value, st.records, x);
    var none: HandlerMap := map[];
    var last := none[3 := Resubmitting(marked, st.records, x, None)];
    var one, two, at := st, st, st.(run := Some(marked));
    assert last[9 := Submitting(run, seen, g.index.Keys)]
        == map[9 := Submitting(run, seen, g.index.Keys)][3 := Resubmitting(marked, st.records, x, None)];
    more, one := SubmitStale(g, from, at, last, run, seen, z, y);
    more, two := ResubmitPass(g, more, from, one, none, 3, marked, st.records, x, Succeeded);
    ReachableInv(g, from, from, at,
                 map[9 := Submitting(run, seen, g.index.Keys)][3 := Resubmitting(marked, st.records, x, None)]);
    ChainSucceeded(g, st, one, two, seen, x, z, y);
    more, end := Complete(g, more, from, st, two, y, z);
  }

  lemma SubmitStale(g: Graph, from: seq<Step>, st: Store, handlers: HandlerMap, run: GraphRunRecord,
                    seen: NodeRecords, z: Name, y: Name)
    returns (more: seq<Step>, next: Store)
    requires g.Valid() && y in g.index && IsReadyFrom(g, st, run, seen, z, y) && st.active == {}
    requires 9 !in handlers && Leads(g, from, from, st, handlers[9 := Submitting(run, seen, g.index.Keys)])
    ensures Leads(g, more, from, next, handlers) && Ended(st, next, RunId(y, 0), Succeeded)
    ensures next.submitted[RunId(y, 0)].upstreams == UpstreamRecords(g.Get(y), seen)
  {
    hide Leads, StateOf, StatesOf, SettledState, UpstreamRecords;
    var before := handlers[9 := Submitting(run, seen, g.index.Keys)];
    var after := handlers[9 := Submitting(run, seen, g.index.Keys - {y})];
    assert before[9 := Submitting(run, seen, g.index.Keys - {y})] == after;
    ReachableFacts(g, from, from, st, before);
    C.AllCurrent(run, seen);
    var payload := Payload(run.definition, UpstreamRecords(g.Get(y), seen), None);
    var submitted := Submit(st, RunId(y, 0), payload);
    more := Step1(g, from, from, st, before, Go(9, y), submitted, after);
    assert after - {9} == handlers;
    more := Step1(g, more, from, submitted, after, Crash(9), submitted, handlers);
    more, next := EndOne(g, more, from, st, handlers, RunId(y, 0), payload, Succeeded);
  }

  lemma ChainSucceeded(g: Graph, st: Store, one: Store, two: Store, seen: NodeRecords, x: Name, z: Name, y: Name)
    requires IsChain(g, x, z, y) && IsFailed(g, st, x, z) && HasSucceeded(g, st, x) && st.records.Keys <= g.index.Keys
    requires y !in st.records && z in seen && z in st.records && seen[z].rerun < st.records[z].rerun
    requires var marked := Marked(g, st.run.value, st.records, x);
             && StoreInv(g, st.(run := Some(marked)))
             && Ended(st.(run := Some(marked)), one, RunId(y, 0), Succeeded)
    requires Ended(one, two, RunId(x, st.records[x].rerun + 1), Succeeded)
    requires one.submitted[RunId(y, 0)].upstreams == UpstreamRecords(g.Get(y), seen)
    ensures IsRunning(g, two, {}) && y in CurrentRecords(two.run.value, two.records) && HasOldInput(st, two, y, z)
  {
    hide StateOf, ScopeOf, IsReady, CountsInv, PayloadInv, ActiveInv, Marked, IsFailed, Graph.Valid, RunInv;
    assert RunId(y, 0) in one.submitted && two.submitted[RunId(y, 0)] == one.submitted[RunId(y, 0)];
    var marked := Marked(g, st.run.value, st.records, x);
    MarkedIsActive(g, st, x);
    assert y !in marked.expectedReruns;
    forall n | n in CurrentRecords(two.run.value, two.records)
      ensures two.records[n].status == Succeeded
    {
      if n != x && n != y {
        OthersSucceeded(g, st, x, z, n);
      }
    }
  }

  lemma OthersSucceeded(g: Graph, st: Store, x: Name, z: Name, n: Name)
    requires g.Valid() && x in g.index && z in ScopeOf(g, x) && IsFailed(g, st, x, z) && st.records.Keys <= g.index.Keys
    requires n in CurrentRecords(Marked(g, st.run.value, st.records, x), st.records)
    requires HasSucceeded(g, st, x)
    ensures st.records[n].status == Succeeded
  {
    hide ScopeOf, IsReady;
    var current := CurrentRecords(st.run.value, st.records);
    assert n !in ScopeOf(g, x) && n in current;
  }

  /** A completed run in which an advance in flight at the mark built `y` from the record
      of `z` before the last one. */
  lemma AdvanceIsStale(g: Graph, x: Name, z: Name, y: Name) returns (before: seq<Step>, steps: seq<Step>)
    requires IsChain(g, x, z, y)
    ensures MarksIdle(g, before, 3, x) && S.IsSettled(AtMark(g, before, 3, x)) && HasNoRerun(steps)
    ensures y !in AtMark(g, before, 3, x).records
    ensures var end := Walk(g, WorldOfMark(g, before, 3), steps).store;
            && end.run.Some? && end.run.value.state == RunComplete
            && !IsRebuiltAfresh(g, AtMark(g, before, 3, x), x, end, y)
  {
    hide StateOf, ScopeOf, Marked, Leads, IsReady, Walk, HasOldInput, WorldOfMark;
    var was, st, more, end;
    before, was := ReadBefore(g, x, z, y);
    before, st := FailAgain(g, before, was, x, z, y);
    SucceededRerunMarks(g, st, x);
    var handlers: HandlerMap := map[9 := Submitting(was.run.value, was.records, g.index.Keys)];
    before := MarkPass(g, before, before, st, handlers, 3, x);
    var from := MarkStep(g, before, before, st, handlers, 3, x);
    var marked := Marked(g, st.run.value, st.records, x);
    Rebase(g, from, before, st.(run := Some(marked)), handlers[3 := Resubmitting(marked, st.records, x, None)]);
    StateReads(g, was.records, y);
    more, end := CompleteAdvance(g, from, st, was.run.value, was.records, x, z, y);
    steps := MarkedRun(g, before, st, handlers, 3, x, more, end);
    OldInputIsNotFresh(g, st, end, x, y, z);
  }

  // ---- The exact nodes ----

  /** When the run from the mark on has no further rerun and completes, the scope is
      rebuilt from new inputs. */
  ghost predicate Rebuilds(g: Graph, before: seq<Step>, h: nat, x: Name, steps: seq<Step>)
    requires g.Valid() && x in g.index
  {
    MarksIdle(g, before, h, x) && S.IsSettled(AtMark(g, before, h, x)) && HasNoRerun(steps) ==>
      var end := Walk(g, WorldOfMark(g, before, h), steps).store;
      end.run.Some? && end.run.value.state == RunComplete ==>
        forall n :: n in ScopeOf(g, x) ==> IsRebuiltAfresh(g, AtMark(g, before, h, x), x, end, n)
  }

  /** All interleaved runs rebuild the scope of a node exactly when it has no other node. */
  lemma RebuildsExactly(g: Graph, x: Name)
    requires NeedsNoFailure(g) && x in g.index
    ensures (forall before, h, steps :: Rebuilds(g, before, h, x, steps)) <==> ScopeOf(g, x) == {x}
  {
    hide After, Walk, Next, ScopeOf, IsRebuiltAfresh;
    if ScopeOf(g, x) == {x} {
      forall before, h, steps
        ensures Rebuilds(g, before, h, x, steps)
      {
        SingleRebuilds(g, before, h, x, steps);
      }
    } else {
      var y := FirstFollower(g, x);
      var before, steps := RerunIsStale(g, x, y);
      assert !Rebuilds(g, before, 3, x, steps);
    }
  }

  lemma SingleRebuilds(g: Graph, before: seq<Step>, h: nat, x: Name, steps: seq<Step>)
    requires g.Valid() && x in g.index && ScopeOf(g, x) == {x}
    ensures Rebuilds(g, before, h, x, steps)
  {
    hide After, Walk, Next, ScopeOf, WorldInv, IsMarked, Later;
    if MarksIdle(g, before, h, x) {
      var at, m := AtMark(g, before, h, x), WorldOfMark(g, before, h);
      var end := Walk(g, m, steps);
      if end.store.run.Some? && end.store.run.value.state == RunComplete {
        MarkStarts(g, before, h, x);
        CompletedRunRebuildsItsScope(g, before, h, x, steps);
        WalkKeeps(g, at, x, m, steps);
        InvariantGivesLater(g, end);
        RecordedWasSubmitted(end.store, x);
      }
    }
  }
}

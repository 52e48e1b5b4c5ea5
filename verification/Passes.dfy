/**
 Runs of the interleaved protocol put together from whole passes: a reconciler pass
 that settles, or that submits one node and crashes, and the reads of a rerun.
 */
module Passes {
  import opened Wrappers
  import opened Json
  import opened Records
  import opened Graphs
  import opened Readiness
  import opened ReadinessLaws
  import opened Store
  import opened RunRules
  import opened RunLaws
  import opened Interleaving
  import opened InterleavingLaws
  import opened InterleavingTheorems
  import opened InterleavedSettles
  import S = Settlement
  import C = Confluence

  type HandlerMap = map<nat, Handler>

  /** `steps` continues `base` without a rerun. */
  ghost predicate Calm(base: seq<Step>, steps: seq<Step>) {
    base <= steps && HasNoRerun(steps[|base|..])
  }

  /** The steps lead to the world, and have no rerun after `base`. */
  ghost predicate Leads(g: Graph, steps: seq<Step>, base: seq<Step>, st: Store, handlers: HandlerMap)
    requires g.Valid()
  {
    After(g, steps) == World(st, handlers) && Calm(base, steps)
  }

  lemma Step1(g: Graph, steps: seq<Step>, base: seq<Step>, st: Store, handlers: HandlerMap, s: Step,
              st': Store, handlers': HandlerMap)
    returns (more: seq<Step>)
    requires g.Valid() && Leads(g, steps, base, st, handlers) && !s.BeginRerun?
    requires Next(g, World(st, handlers), s) == World(st', handlers')
    ensures more == steps + [s] && Leads(g, more, base, st', handlers')
  {
    hide Next;
    more := steps + [s];
    AfterAppend(g, steps, s);
    assert more[|base|..] == steps[|base|..] + [s];
  }

  /** A new base, the run so far. */
  lemma Rebase(g: Graph, steps: seq<Step>, base: seq<Step>, st: Store, handlers: HandlerMap)
    requires g.Valid() && Leads(g, steps, base, st, handlers)
    ensures Leads(g, steps, steps, st, handlers)
  {
    hide After;
  }

  // ---- One pass of a handler ----

  /** The read of every node record. */
  lemma {:induction false} ReadAll(g: Graph, steps: seq<Step>, base: seq<Step>, st: Store, handlers: HandlerMap, h: nat,
                                   run: GraphRunRecord, goal: Goal, unread: set<Name>, seen: NodeRecords)
    returns (more: seq<Step>)
    requires g.Valid() && HandlerIn(g, Reading(run, goal, unread, seen)) && st.records.Keys <= g.index.Keys
    requires seen == map n | n in st.records && n !in unread :: st.records[n]
    requires Leads(g, steps, base, st, handlers[h := Reading(run, goal, unread, seen)])
    ensures Leads(g, more, base, st, handlers[h := Reading(run, goal, {}, st.records)])
    decreases unread
  {
    hide Leads, StateOf, StatesOf, SettledState;
    if unread == {} {
      assert seen == st.records;
      more := steps;
    } else {
      var n :| n in unread;
      var next := if n in st.records then seen[n := st.records[n]] else seen;
      var before := handlers[h := Reading(run, goal, unread, seen)];
      var after := handlers[h := Reading(run, goal, unread - {n}, next)];
      assert before[h := Reading(run, goal, unread - {n}, next)] == after;
      more := Step1(g, steps, base, st, before, Go(h, n), st, after);
      more := ReadAll(g, more, base, st, handlers, h, run, goal, unread - {n}, next);
    }
  }

  /** The submit loop over nodes that are not ready. */
  lemma {:induction false} SkipAll(g: Graph, steps: seq<Step>, base: seq<Step>, st: Store, handlers: HandlerMap, h: nat,
                                   run: GraphRunRecord, seen: NodeRecords, todo: set<Name>)
    returns (more: seq<Step>)
    requires g.Valid() && HandlerIn(g, Submitting(run, seen, todo))
    requires forall n :: n in todo ==> StateOf(g, CurrentRecords(run, seen), n) != Ready
    requires Leads(g, steps, base, st, handlers[h := Submitting(run, seen, todo)])
    ensures Leads(g, more, base, st, handlers[h := Submitting(run, seen, {})])
    decreases todo
  {
    hide Leads, StateOf, StatesOf, SettledState, CurrentRecords;
    if todo == {} {
      more := steps;
    } else {
      var n :| n in todo;
      var before := handlers[h := Submitting(run, seen, todo)];
      var after := handlers[h := Submitting(run, seen, todo - {n})];
      assert before[h := Submitting(run, seen, todo - {n})] == after;
      more := Step1(g, steps, base, st, before, Go(h, n), st, after);
      more := SkipAll(g, more, base, st, handlers, h, run, seen, todo - {n});
    }
  }

  /** The activity scan without an active instance. */
  lemma {:induction false} ScanAll(g: Graph, steps: seq<Step>, base: seq<Step>, st: Store, handlers: HandlerMap, h: nat,
                                   run: GraphRunRecord, seen: NodeRecords, state: GraphRunState, unchecked: set<Name>)
    returns (more: seq<Step>)
    requires g.Valid() && HandlerIn(g, Scanning(run, seen, state, unchecked)) && st.active == {}
    requires Leads(g, steps, base, st, handlers[h := Scanning(run, seen, state, unchecked)])
    ensures Leads(g, more, base, st, handlers[h := Scanning(run, seen, state, {})])
    decreases unchecked
  {
    hide Leads, StateOf, StatesOf, SettledState, CurrentRecords;
    if unchecked == {} {
      more := steps;
    } else {
      var n :| n in unchecked;
      var before := handlers[h := Scanning(run, seen, state, unchecked)];
      var after := handlers[h := Scanning(run, seen, state, unchecked - {n})];
      assert before[h := Scanning(run, seen, state, unchecked - {n})] == after;
      more := Step1(g, steps, base, st, before, Go(h, n), st, after);
      more := ScanAll(g, more, base, st, handlers, h, run, seen, state, unchecked - {n});
    }
  }

  /** A reconciler pass that has read every record, before its submits. */
  lemma ReadPass(g: Graph, steps: seq<Step>, base: seq<Step>, st: Store, handlers: HandlerMap, h: nat)
    returns (more: seq<Step>)
    requires g.Valid() && h !in handlers && Leads(g, steps, base, st, handlers)
    requires st.run.Some? && st.run.value.state == RunActive && st.records.Keys <= g.index.Keys
    ensures Leads(g, more, base, st, handlers[h := Submitting(st.run.value, st.records, g.index.Keys)])
  {
    hide Leads, StateOf, StatesOf, SettledState, CurrentRecords;
    var run, all := st.run.value, Advance(g.index.Keys);
    var reading := handlers[h := Reading(run, all, g.index.Keys, map[])];
    more := Step1(g, steps, base, st, handlers, BeginReconcile(h), st, reading);
    more := ReadAll(g, more, base, st, handlers, h, run, all, g.index.Keys, map[]);
    var read := handlers[h := Reading(run, all, {}, st.records)];
    var submitting := handlers[h := Submitting(run, st.records, g.index.Keys)];
    assert read[h := Submitting(run, st.records, g.index.Keys)] == submitting;
    more := Step1(g, more, base, st, read, Go(h, ""), st, submitting);
  }

  /** A reconciler pass over a run without ready nodes and active instances, up to the
      commit of its settle. */
  lemma PoiseSettle(g: Graph, steps: seq<Step>, base: seq<Step>, st: Store, handlers: HandlerMap, h: nat,
                    state: GraphRunState)
    returns (more: seq<Step>)
    requires g.Valid() && h !in handlers && Leads(g, steps, base, st, handlers) && st.active == {}
    requires st.run.Some? && st.run.value.state == RunActive && st.records.Keys <= g.index.Keys
    requires IsFinal(g, CurrentRecords(st.run.value, st.records), state)
    ensures Leads(g, more, base, st, handlers[h := Settling(st.run.value, st.records, state)])
  {
    hide Leads, StateOf, CurrentRecords, StatesOf, SettledState;
    SettledExactlyWithoutReadyNodes(g, CurrentRecords(st.run.value, st.records));
    more := ReadPass(g, steps, base, st, handlers, h);
    more := SkipAll(g, more, base, st, handlers, h, st.run.value, st.records, g.index.Keys);
    more := ScanPass(g, more, base, st, handlers, h, state);
  }

  lemma ScanPass(g: Graph, steps: seq<Step>, base: seq<Step>, st: Store, handlers: HandlerMap, h: nat, state: GraphRunState)
    returns (more: seq<Step>)
    requires g.Valid() && h !in handlers && st.active == {}
    requires st.run.Some? && st.records.Keys <= g.index.Keys
    requires IsFinal(g, CurrentRecords(st.run.value, st.records), state)
    requires Leads(g, steps, base, st, handlers[h := Submitting(st.run.value, st.records, {})])
    ensures Leads(g, more, base, st, handlers[h := Settling(st.run.value, st.records, state)])
  {
    hide Leads, StateOf, CurrentRecords, StatesOf, SettledState;
    var run, seen := st.run.value, st.records;
    var submitting := handlers[h := Submitting(run, seen, {})];
    var scanning := handlers[h := Scanning(run, seen, state, g.index.Keys)];
    assert submitting[h := Scanning(run, seen, state, g.index.Keys)] == scanning;
    more := Step1(g, steps, base, st, submitting, Go(h, ""), st, scanning);
    more := ScanAll(g, more, base, st, handlers, h, run, seen, state, g.index.Keys);
    var scanned := handlers[h := Scanning(run, seen, state, {})];
    var settling := handlers[h := Settling(run, seen, state)];
    assert scanned[h := Settling(run, seen, state)] == settling;
    more := Step1(g, more, base, st, scanned, Go(h, ""), st, settling);
  }

  /** A reconciler pass that settles a run without ready nodes and active instances. */
  lemma SettlePass(g: Graph, steps: seq<Step>, base: seq<Step>, st: Store, handlers: HandlerMap, h: nat, state: GraphRunState)
    returns (more: seq<Step>)
    requires g.Valid() && h !in handlers && Leads(g, steps, base, st, handlers) && st.active == {}
    requires st.run.Some? && st.run.value.state == RunActive && st.records.Keys <= g.index.Keys
    requires IsFinal(g, CurrentRecords(st.run.value, st.records), state)
    ensures Leads(g, more, base, st.(run := Some(Settled(st.run.value, st.records, state, st.clock))), handlers)
  {
    hide Leads, StateOf, CurrentRecords, StatesOf, SettledState;
    var run, seen := st.run.value, st.records;
    more := PoiseSettle(g, steps, base, st, handlers, h, state);
    var settling := handlers[h := Settling(run, seen, state)];
    assert settling - {h} == handlers;
    more := Step1(g, more, base, st, settling, Go(h, ""),
                  st.(run := Some(Settled(run, seen, state, st.clock))), handlers);
  }

  // ---- The instances of idle runs ----

  lemma ReachableFacts(g: Graph, steps: seq<Step>, base: seq<Step>, st: Store, handlers: HandlerMap)
    requires g.Valid() && Leads(g, steps, base, st, handlers) && st.active == {}
    ensures forall n, c: nat {:trigger RunId(n, c)} :: RunId(n, c) in st.submitted <==> c < NextCount(st.records, n)
  {
    hide StateOf, After;
    SubmittedCountsArePrefix(g, steps);
  }

  lemma ReachableInv(g: Graph, steps: seq<Step>, base: seq<Step>, st: Store, handlers: HandlerMap)
    requires g.Valid() && Leads(g, steps, base, st, handlers)
    ensures StoreInv(g, st)
  {
    hide StateOf, After, StoreInv;
    EveryRunKeeps(g, steps);
  }

  /** `next` follows `st` by one instance, submitted and ended with the status. */
  ghost predicate Ended(st: Store, next: Store, id: RunId, status: RecordStatus) {
    && next.run == st.run && next.active == {}
    && next.submitted.Keys == st.submitted.Keys + {id} && IsKept(st.submitted, next.submitted)
    && id.node in next.records && next.records == st.records[id.node := next.records[id.node]]
    && next.records[id.node].rerun == id.rerun && next.records[id.node].status == status
  }

  ghost predicate IsKept<K, V>(before: map<K, V>, after: map<K, V>) {
    forall k {:trigger k in before} :: k in before ==> k in after && after[k] == before[k]
  }

  /** A pass that submits the ready node `n` and crashes; the instance ends. */
  lemma RunOne(g: Graph, steps: seq<Step>, base: seq<Step>, st: Store, handlers: HandlerMap, h: nat, n: Name,
               status: RecordStatus)
    returns (more: seq<Step>, next: Store)
    requires g.Valid() && h !in handlers && Leads(g, steps, base, st, handlers) && st.active == {}
    requires st.run.Some? && st.run.value.state == RunActive && st.records.Keys <= g.index.Keys
    requires n in g.index && StateOf(g, CurrentRecords(st.run.value, st.records), n) == Ready
    ensures Leads(g, more, base, next, handlers)
    ensures Ended(st, next, RunId(n, NextCount(st.records, n)), status)
  {
    hide Leads, StateOf, StatesOf, SettledState, CurrentRecords;
    var run, seen, id := st.run.value, st.records, RunId(n, NextCount(st.records, n));
    ReachableFacts(g, steps, base, st, handlers);
    more := ReadPass(g, steps, base, st, handlers, h);
    var payload := Payload(run.definition, UpstreamRecords(g.Get(n), CurrentRecords(run, seen)), None);
    var submitted := Submit(st, id, payload);
    var before := handlers[h := Submitting(run, seen, g.index.Keys)];
    var after := handlers[h := Submitting(run, seen, g.index.Keys - {n})];
    assert before[h := Submitting(run, seen, g.index.Keys - {n})] == after;
    more := Step1(g, more, base, st, before, Go(h, n), submitted, after);
    assert after - {h} == handlers;
    more := Step1(g, more, base, submitted, after, Crash(h), submitted, handlers);
    more, next := EndOne(g, more, base, st, handlers, id, payload, status);
  }

  /** The one active instance ends. */
  lemma EndOne(g: Graph, steps: seq<Step>, base: seq<Step>, st: Store, handlers: HandlerMap, id: RunId,
               payload: Payload, status: RecordStatus)
    returns (more: seq<Step>, next: Store)
    requires g.Valid() && st.active == {} && id !in st.submitted
    requires Leads(g, steps, base, Submit(st, id, payload), handlers)
    ensures Leads(g, more, base, next, handlers) && Ended(st, next, id, status) && next.submitted[id] == payload
  {
    hide Leads;
    var submitted := Submit(st, id, payload);
    next := Terminate(submitted, id, status, None, None);
    more := Step1(g, steps, base, submitted, handlers, TerminateRun(id, status, None, None), next, handlers);
  }

  function EndOf(failing: set<Name>, n: Name): RecordStatus {
    if n in failing then Failed else Succeeded
  }

  /** An idle active run in which the nodes of `failing` fail and the others succeed. */
  ghost predicate IsRunning(g: Graph, st: Store, failing: set<Name>)
    requires g.Valid()
  {
    && st.active == {} && st.records.Keys <= g.index.Keys
    && st.run.Some? && st.run.value.state == RunActive
    && forall n :: n in CurrentRecords(st.run.value, st.records) ==> st.records[n].status == EndOf(failing, n)
  }

  /** A root that no record makes ready. */
  predicate IsUnreadyRoot(node: Node) {
    node.Rule() == OneFailed && node.upstreams == {}
  }

  /** `next` follows `st` in the same run: current records and inputs stay, and neither
      an unready root nor a node of `skip` is recorded anew. */
  ghost predicate Continues(g: Graph, st: Store, next: Store, skip: set<Name>)
    requires g.Valid()
  {
    && st.run.Some? && next.run == st.run && next.records.Keys <= g.index.Keys
    && IsKept(CurrentRecords(st.run.value, st.records), CurrentRecords(st.run.value, next.records))
    && IsKept(st.submitted, next.submitted)
    && forall n {:trigger n in next.records} :: n in next.records ==>
         n in g.index
         && ((n in st.records && next.records[n] == st.records[n])
             || (n !in skip && !IsUnreadyRoot(g.Get(n))))
  }

  lemma ContinuesOn(g: Graph, a: Store, b: Store, c: Store, skip: set<Name>)
    requires g.Valid() && Continues(g, a, b, skip) && Continues(g, b, c, skip)
    ensures Continues(g, a, c, skip)
  {
    hide CurrentRecords;
  }

  lemma OneContinues(g: Graph, st: Store, next: Store, n: Name, failing: set<Name>, skip: set<Name>)
    requires g.Valid() && IsRunning(g, st, failing) && StoreInv(g, st) && n in g.index && n !in skip
    requires StateOf(g, CurrentRecords(st.run.value, st.records), n) == Ready
    requires Ended(st, next, RunId(n, NextCount(st.records, n)), EndOf(failing, n))
    ensures IsRunning(g, next, failing) && Continues(g, st, next, skip)
    ensures n !in CurrentRecords(st.run.value, st.records)
    ensures n in CurrentRecords(st.run.value, next.records)
  {
    hide StateOf, PayloadInv, CountsInv, ActiveInv, RunInv, Graph.Valid;
    ReadyFacts(g, CurrentRecords(st.run.value, st.records), n);
    var c := NextCount(st.records, n);
    assert c >= st.run.value.Expected(n);
    assert next.records.Keys == st.records.Keys + {n};
  }

  lemma ReadyFacts(g: Graph, records: NodeRecords, n: Name)
    requires g.Valid() && n in g.index && StateOf(g, records, n) == Ready
    ensures n !in records && !IsUnreadyRoot(g.Get(n))
  {
    hide StateOf;
    UnrecordedState(g, records, n);
    StateReads(g, records, n);
  }

  /** Ready nodes run one by one, until only nodes of `skip` are ready. */
  lemma {:induction false} RunAll(g: Graph, steps: seq<Step>, base: seq<Step>, st: Store, handlers: HandlerMap, h: nat,
                                  failing: set<Name>, skip: set<Name>)
    returns (more: seq<Step>, last: Store)
    requires g.Valid() && h !in handlers && Leads(g, steps, base, st, handlers) && IsRunning(g, st, failing)
    ensures Leads(g, more, base, last, handlers) && IsRunning(g, last, failing) && Continues(g, st, last, skip)
    ensures forall n :: n in g.index && n !in skip ==>
              StateOf(g, CurrentRecords(last.run.value, last.records), n) != Ready
    decreases g.index.Keys - CurrentRecords(st.run.value, st.records).Keys
  {
    hide Leads, StateOf, Ended, Continues, StoreInv;
    if n :| n in g.index && n !in skip && StateOf(g, CurrentRecords(st.run.value, st.records), n) == Ready {
      ReachableInv(g, steps, base, st, handlers);
      var next;
      more, next := RunOne(g, steps, base, st, handlers, h, n, EndOf(failing, n));
      OneContinues(g, st, next, n, failing, skip);
      KeptKeys(g, st, next, n, skip);
      more, last := RunAll(g, more, base, next, handlers, h, failing, skip);
      ContinuesOn(g, st, next, last, skip);
    } else {
      more, last := steps, st;
      ContinuesAtFirst(g, st, skip);
    }
  }

  lemma KeptKeys(g: Graph, st: Store, next: Store, n: Name, skip: set<Name>)
    requires g.Valid() && Continues(g, st, next, skip) && n in g.index
    requires n !in CurrentRecords(st.run.value, st.records) && n in CurrentRecords(st.run.value, next.records)
    ensures next.run == st.run
    ensures g.index.Keys - CurrentRecords(next.run.value, next.records).Keys
          < g.index.Keys - CurrentRecords(st.run.value, st.records).Keys
  {
    hide CurrentRecords;
  }

  lemma ContinuesAtFirst(g: Graph, st: Store, skip: set<Name>)
    requires g.Valid() && st.run.Some? && st.records.Keys <= g.index.Keys
    ensures Continues(g, st, st, skip)
  {
  }

  /** A rerun that has read every record. */
  lemma ReadRerun(g: Graph, steps: seq<Step>, base: seq<Step>, st: Store, handlers: HandlerMap, h: nat, x: Name)
    returns (more: seq<Step>)
    requires g.Valid() && h !in handlers && Leads(g, steps, base, st, handlers)
    requires st.run.Some? && st.records.Keys <= g.index.Keys && x in g.index
    ensures Leads(g, more, more, st, handlers[h := Reading(st.run.value, RerunNode(x, None), {}, st.records)])
  {
    hide StateOf, StatesOf, SettledState, Leads;
    var run, goal := st.run.value, RerunNode(x, None);
    var reading := handlers[h := Reading(run, goal, g.index.Keys, map[])];
    var from := RerunStep(g, steps, base, st, handlers, BeginRerun(h, x, None), reading);
    more := ReadAll(g, from, from, st, handlers, h, run, goal, g.index.Keys, map[]);
    Rebase(g, more, from, st, handlers[h := Reading(run, goal, {}, st.records)]);
  }

  /** The next step of a rerun that has read every record: its scope is left to mark, or
      there is nothing to mark. */
  lemma MarkPass(g: Graph, steps: seq<Step>, base: seq<Step>, st: Store, handlers: HandlerMap, h: nat, x: Name)
    returns (more: seq<Step>)
    requires g.Valid() && h !in handlers && Leads(g, steps, base, st, handlers)
    requires st.run.Some? && st.records.Keys <= g.index.Keys && x in st.records
    requires IsReady(g.Get(x), CurrentRecords(Marked(g, st.run.value, st.records, x), st.records))
    ensures var marked := Marked(g, st.run.value, st.records, x);
            Leads(g, more, more, st,
                  handlers[h := if marked != st.run.value then Marking(st.run.value, st.records, x, None)
                                else Resubmitting(marked, st.records, x, None)])
  {
    hide StateOf, StatesOf, SettledState, Leads, IsReady, CurrentRecords, Marked;
    var run, seen := st.run.value, st.records;
    var marked := Marked(g, run, seen, x);
    var from := ReadRerun(g, steps, base, st, handlers, h, x);
    var read := handlers[h := Reading(run, RerunNode(x, None), {}, seen)];
    var next := if marked != run then Marking(run, seen, x, None) else Resubmitting(marked, seen, x, None);
    assert read[h := next] == handlers[h := next];
    more := Step1(g, from, from, st, read, Go(h, ""), st, handlers[h := next]);
    Rebase(g, more, from, st, handlers[h := next]);
  }

  lemma RerunStep(g: Graph, steps: seq<Step>, base: seq<Step>, st: Store, handlers: HandlerMap, s: Step, handlers': HandlerMap)
    returns (more: seq<Step>)
    requires g.Valid() && Leads(g, steps, base, st, handlers)
    requires Next(g, World(st, handlers), s) == World(st, handlers')
    ensures Leads(g, more, more, st, handlers')
  {
    hide Next;
    more := steps + [s];
    AfterAppend(g, steps, s);
  }

  /** The commit of the mark. */
  lemma MarkStep(g: Graph, steps: seq<Step>, base: seq<Step>, st: Store, handlers: HandlerMap, h: nat, x: Name)
    returns (more: seq<Step>)
    requires g.Valid() && st.run.Some? && st.records.Keys <= g.index.Keys && x in st.records
    requires Leads(g, steps, base, st, handlers[h := Marking(st.run.value, st.records, x, None)])
    ensures more == steps + [Go(h, "")]
    ensures var marked := Marked(g, st.run.value, st.records, x);
            Leads(g, more, base, st.(run := Some(marked)), handlers[h := Resubmitting(marked, st.records, x, None)])
  {
    hide StateOf, StatesOf, SettledState, Leads, IsReady, CurrentRecords, Marked;
    var run, seen := st.run.value, st.records;
    var marked := Marked(g, run, seen, x);
    var before := handlers[h := Marking(run, seen, x, None)];
    var after := handlers[h := Resubmitting(marked, seen, x, None)];
    assert before[h := Resubmitting(marked, seen, x, None)] == after;
    more := Step1(g, steps, base, st, before, Go(h, ""), st.(run := Some(marked)), after);
  }

  /** The submit of a rerun, and the end of its instance. */
  lemma ResubmitPass(g: Graph, steps: seq<Step>, base: seq<Step>, st: Store, handlers: HandlerMap, h: nat,
                     run: GraphRunRecord, seen: NodeRecords, x: Name, status: RecordStatus)
    returns (more: seq<Step>, next: Store)
    requires g.Valid() && h !in handlers && HandlerIn(g, Resubmitting(run, seen, x, None)) && st.active == {}
    requires Leads(g, steps, base, st, handlers[h := Resubmitting(run, seen, x, None)])
    requires x in st.records && st.records[x] == seen[x]
    ensures Leads(g, more, base, next, handlers)
    ensures Ended(st, next, RunId(x, seen[x].rerun + 1), status)
    ensures next.submitted[RunId(x, seen[x].rerun + 1)].upstreams
         == UpstreamRecords(g.Get(x), CurrentRecords(run, seen))
  {
    hide Leads, StateOf, StatesOf, SettledState, CurrentRecords, UpstreamRecords;
    var id := RunId(x, seen[x].rerun + 1);
    var before := handlers[h := Resubmitting(run, seen, x, None)];
    ReachableFacts(g, steps, base, st, before);
    var upstreams := UpstreamRecords(g.Get(x), CurrentRecords(run, seen));
    var payload := Payload(seen[x].definition, upstreams, None);
    var submitted := Submit(st, id, payload);
    assert before - {h} == handlers;
    more := Step1(g, steps, base, st, before, Go(h, ""), submitted, handlers);
    more, next := EndOne(g, more, base, st, handlers, id, payload, status);
  }

  // ---- A settled run with the rerun of a failed node in flight ----

  /** A settled idle run without a ready node, in which exactly the nodes of `failing`
      failed. */
  ghost predicate HasRun(g: Graph, st: Store, failing: set<Name>)
    requires g.Valid()
  {
    && S.IsSettled(st) && st.active == {} && st.run.value.expectedReruns == map[]
    && st.records.Keys <= g.index.Keys
    && (forall n :: n in st.records ==> st.records[n].status == EndOf(failing, n) && !IsUnreadyRoot(g.Get(n)))
    && (forall n :: n in g.index ==> StateOf(g, st.records, n) != Ready)
  }

  /** A run with a start that has not submitted its roots, which passes run to its end. */
  lemma RunToEnd(g: Graph, failing: set<Name>) returns (steps: seq<Step>, st: Store, state: GraphRunState)
    requires g.Valid()
    ensures Leads(g, steps, [], st, map[0 := Rooting("d", g.Roots(), None)])
    ensures IsRunning(g, st, failing) && st.run.value == NewRun("d", 0) && state in {RunComplete, RunFailed}
    ensures forall n :: n in st.records ==> !IsUnreadyRoot(g.Get(n))
    ensures forall n :: n in g.index ==> StateOf(g, st.records, n) != Ready
    ensures IsFinal(g, CurrentRecords(st.run.value, st.records), state)
  {
    hide StateOf, StatesOf, SettledState;
    var rooting: HandlerMap := map[0 := Rooting("d", g.Roots(), None)];
    var started := Empty.(run := Some(NewRun("d", 0)));
    assert Initial.handlers[0 := Rooting("d", g.Roots(), None)] == rooting;
    assert Leads(g, [], [], Empty, map[]);
    hide Leads;
    steps := Step1(g, [], [], Empty, map[], BeginStart(0, "d", None), started, rooting);
    steps, st := RunAll(g, steps, [], started, rooting, 1, failing, {});
    C.AllCurrent(st.run.value, st.records);
    SettledExactlyWithoutReadyNodes(g, st.records);
    state := SettledState(StatesOf(g, st.records)).value;
  }

  /** Such a run, which the reconciler has settled. */
  lemma RunAndSettle(g: Graph, failing: set<Name>) returns (steps: seq<Step>, st: Store)
    requires g.Valid()
    ensures Leads(g, steps, [], st, map[0 := Rooting("d", g.Roots(), None)]) && HasRun(g, st, failing)
  {
    hide StateOf, StatesOf, SettledState, Leads, IsFinal;
    var rooting: HandlerMap := map[0 := Rooting("d", g.Roots(), None)];
    var ended, state;
    steps, ended, state := RunToEnd(g, failing);
    C.AllCurrent(ended.run.value, ended.records);
    steps := SettlePass(g, steps, [], ended, rooting, 1, state);
    st := ended.(run := Some(Settled(ended.run.value, ended.records, state, ended.clock)));
  }

  /** The rerun of a failed node of a settled run, up to its submit: it has made the run
      active, and a reconciler pass has settled it again. */
  lemma PoiseRerun(g: Graph, steps: seq<Step>, base: seq<Step>, settled: Store, failing: set<Name>, y: Name)
    returns (more: seq<Step>, st: Store, run: GraphRunRecord)
    requires g.Valid() && HasRun(g, settled, failing)
    requires Leads(g, steps, base, settled, map[0 := Rooting("d", g.Roots(), None)])
    requires y in settled.records && y in failing && IsReady(g.Get(y), settled.records)
    ensures HasRun(g, st, failing) && st.records == settled.records && run.expectedReruns == map[]
    ensures HandlerIn(g, Resubmitting(run, st.records, y, None))
    ensures Leads(g, more, more, st, map[2 := Resubmitting(run, st.records, y, None)])
  {
    hide StateOf, StatesOf, SettledState, Leads, IsReady;
    var was, seen, rooting := settled.run.value, settled.records, map[0 := Rooting("d", g.Roots(), None)];
    assert rooting - {0} == map[];
    more := Step1(g, steps, base, settled, rooting, Crash(0), settled, map[]);
    run := was.(state := RunActive, settledAt := None);
    C.AllCurrent(run, seen);
    var marked := MarkPass(g, more, base, settled, map[], 2, y);
    more := MarkStep(g, marked, marked, settled, map[], 2, y);
    var active := settled.(run := Some(run));
    var handlers := map[2 := Resubmitting(run, seen, y, None)];
    SettledExactlyWithoutReadyNodes(g, seen);
    var state := SettledState(StatesOf(g, seen)).value;
    more := SettlePass(g, more, marked, active, handlers, 1, state);
    st := active.(run := Some(Settled(run, seen, state, active.clock)));
    Rebase(g, more, marked, st, handlers);
  }
}

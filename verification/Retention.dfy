/** The retention of the records (swale/src/retention.rs): the index of the settled
    graph runs and of the request records, and the pass that removes the aged ones. */
module Retention {
  import opened Wrappers
  import opened Records
  import opened Keys

  datatype RunKey = RunKey(graph: Name, partition: string)

  datatype RunRecord = RunRecord(
    definition: string,
    state: GraphRunState,
    settledAt: Option<nat>,
    expectedReruns: map<Name, nat>)

  datatype NodeKey = NodeKey(run: RunKey, node: Name)

  datatype IndexEntry = IndexEntry(time: nat, suffix: string)

  /** The stored records, the index and the clock. `requests` gives the handling time. */
  datatype Db = Db(
    clock: nat,
    runs: map<RunKey, RunRecord>,
    nodes: set<NodeKey>,
    requests: map<string, nat>,
    index: set<IndexEntry>)

  function RunEntry(key: RunKey, time: nat): IndexEntry {
    IndexEntry(time, Suffix(ExpiringRun(key.graph, key.partition)))
  }

  function RequestEntry(id: string, time: nat): IndexEntry {
    IndexEntry(time, Suffix(ExpiringRequest(id)))
  }

  // ---- The commits of the other handlers ----

  /** The commits that write what the pass reads. A settle and a request record carry
      the time `at` that their handler read before the commit. */
  datatype Action =
    | Tick(ms: nat)
    | StartRun(key: RunKey, definition: string)
    | CommitSettled(key: RunKey, at: nat, state: GraphRunState, expectedReruns: map<Name, nat>)
    | Reactivate(key: RunKey, expectedReruns: map<Name, nat>)
    | RecordNode(node: NodeKey)
    | RecordRequest(id: string, at: nat)

  /** What a handler establishes before its commit; the compare refuses it otherwise. */
  predicate Admits(db: Db, a: Action) {
    match a
    case StartRun(key, _) => key !in db.runs && IsExpiring(ExpiringRun(key.graph, key.partition))
    case CommitSettled(key, at, state, _) =>
      key in db.runs && db.runs[key].state == RunActive && state != RunActive && at <= db.clock
    case Reactivate(key, _) => key in db.runs
    case RecordRequest(id, at) => IsRequestId(id) && at <= db.clock
    case _ => true
  }

  function Applied(db: Db, a: Action): Db {
    if !Admits(db, a) then db
    else
      match a
      case Tick(ms) => db.(clock := db.clock + ms)
      case StartRun(key, definition) => db.(runs := db.runs[key := RunRecord(definition, RunActive, None, map[])])
      case CommitSettled(key, at, state, expected) =>
        db.(runs := db.runs[key := db.runs[key].(state := state, settledAt := Some(at), expectedReruns := expected)],
            index := db.index + {RunEntry(key, at)})
      case Reactivate(key, expected) =>
        db.(runs := db.runs[key := db.runs[key].(state := RunActive, settledAt := None, expectedReruns := expected)])
      case RecordNode(node) => db.(nodes := db.nodes + {node})
      case RecordRequest(id, at) =>
        db.(requests := db.requests[id := at], index := db.index + {RequestEntry(id, at)})
  }

  function AllApplied(db: Db, actions: seq<Action>): Db
    decreases |actions|
  {
    if actions == [] then db else AllApplied(Applied(db, actions[0]), actions[1..])
  }

  // ---- One entry of a pass ----

  /** What the pass decides of an entry, from the records it reads. */
  datatype Verdict =
    | Keep
    | Discard
    | RemoveRun(key: RunKey, record: RunRecord)
    | RemoveRequest(id: string, at: nat)

  function Decided(db: Db, e: IndexEntry, loads: set<string>): Verdict {
    match ParseSuffix(e.suffix)
    case None => Discard
    case Some(ExpiringRun(graph, partition)) =>
      var key := RunKey(graph, partition);
      if key !in db.runs || db.runs[key].settledAt != Some(e.time) then Discard
      else if db.runs[key].definition !in loads then Keep
      else RemoveRun(key, db.runs[key])
    case Some(ExpiringRequest(id)) =>
      if id !in db.requests || db.requests[id] != e.time then Discard else RemoveRequest(id, e.time)
  }

  /** The removal compares the record with the one that was read. */
  predicate Holds(db: Db, v: Verdict) {
    match v
    case RemoveRun(key, record) => key in db.runs && db.runs[key] == record
    case RemoveRequest(id, at) => id in db.requests && db.requests[id] == at
    case _ => true
  }

  function Committed(db: Db, e: IndexEntry, v: Verdict, definitions: map<string, set<Name>>): Db {
    if !Holds(db, v) then db
    else
      match v
      case Keep => db
      case Discard => db.(index := db.index - {e})
      case RemoveRun(key, record) =>
        var nodes := if record.definition in definitions then definitions[record.definition] else {};
        db.(runs := db.runs - {key},
            nodes := (set n | n in db.nodes && !(n.run == key && n.node in nodes)),
            index := db.index - {e})
      case RemoveRequest(id, _) => db.(requests := db.requests - {id}, index := db.index - {e})
  }

  // ---- Coverage ----

  predicate RunCovered(db: Db, key: RunKey)
    requires key in db.runs
  {
    var run := db.runs[key];
    && IsExpiring(ExpiringRun(key.graph, key.partition))
    && (run.state == RunActive <==> run.settledAt == None)
    && (run.settledAt.Some? ==> RunEntry(key, run.settledAt.value) in db.index)
  }

  predicate RequestCovered(db: Db, id: string)
    requires id in db.requests
  {
    IsRequestId(id) && RequestEntry(id, db.requests[id]) in db.index
  }

  /** A run is active exactly when it has no settle time, and every settled run and
      every request record has an index entry at its own time. */
  ghost predicate Covered(db: Db) {
    && (forall key :: key in db.runs ==> RunCovered(db, key))
    && (forall id :: id in db.requests ==> RequestCovered(db, id))
  }

  /** The entry is the one of a settled run or of a request record. */
  predicate IsLive(db: Db, e: IndexEntry) {
    match ParseSuffix(e.suffix)
    case None => false
    case Some(ExpiringRun(graph, partition)) =>
      RunKey(graph, partition) in db.runs && db.runs[RunKey(graph, partition)].settledAt == Some(e.time)
    case Some(ExpiringRequest(id)) => id in db.requests && db.requests[id] == e.time
  }

  lemma EntriesOfRecords(key: RunKey, id: string, time: nat, e: IndexEntry)
    ensures IsExpiring(ExpiringRun(key.graph, key.partition)) ==>
              ParseSuffix(RunEntry(key, time).suffix) == Some(ExpiringRun(key.graph, key.partition))
    ensures IsRequestId(id) ==> ParseSuffix(RequestEntry(id, time).suffix) == Some(ExpiringRequest(id))
    ensures ParseSuffix(e.suffix).Some? ==> e.suffix == Suffix(ParseSuffix(e.suffix).value)
  {
    SuffixRoundTrip(ExpiringRun(key.graph, key.partition), e.suffix);
    SuffixRoundTrip(ExpiringRequest(id), e.suffix);
  }

  lemma AppliedKeepsCoverage(db: Db, a: Action)
    requires Covered(db)
    ensures Covered(Applied(db, a))
  {
    hide ParseSuffix, Suffix, IsExpiring, IsRequestId, RunEntry, RequestEntry;
    var after := Applied(db, a);
    forall key | key in after.runs
      ensures RunCovered(after, key)
    {
      assert key in db.runs ==> RunCovered(db, key);
    }
    forall id | id in after.requests
      ensures RequestCovered(after, id)
    {
      assert id in db.requests ==> RequestCovered(db, id);
    }
  }

  lemma {:induction false} AllAppliedKeepsCoverage(db: Db, actions: seq<Action>)
    requires Covered(db)
    ensures Covered(AllApplied(db, actions))
    decreases |actions|
  {
    hide Covered, Applied;
    if actions != [] {
      AppliedKeepsCoverage(db, actions[0]);
      AllAppliedKeepsCoverage(Applied(db, actions[0]), actions[1..]);
    }
  }

  /** Removing an entry keeps the coverage exactly when it is not the entry of a record. */
  lemma DiscardKeepsCoverage(db: Db, e: IndexEntry)
    requires Covered(db)
    ensures Covered(Committed(db, e, Discard, map[])) <==> !IsLive(db, e)
  {
    hide SplitOnce, ParseSuffix, IsExpiring, IsRequestId;
    var after := db.(index := db.index - {e});
    EntriesOfRecords(RunKey([], []), [], 0, e);
    forall key | key in db.runs
      ensures RunCovered(db, key)
      ensures db.runs[key].settledAt.Some? && RunEntry(key, db.runs[key].settledAt.value) == e ==> IsLive(db, e)
      ensures !IsLive(db, e) ==> RunCovered(after, key)
    {
      EntriesOfRecords(key, [], 0, e);
    }
    forall id | id in db.requests
      ensures RequestCovered(db, id)
      ensures RequestEntry(id, db.requests[id]) == e ==> IsLive(db, e)
      ensures !IsLive(db, e) ==> RequestCovered(after, id)
    {
      EntriesOfRecords(RunKey([], []), id, 0, e);
    }
    if IsLive(db, e) {
      LiveIsLost(db, e);
    }
  }

  lemma LiveIsLost(db: Db, e: IndexEntry)
    requires Covered(db) && IsLive(db, e)
    ensures !Covered(db.(index := db.index - {e}))
  {
    hide SplitOnce, ParseSuffix, IsExpiring, IsRequestId;
    var after := db.(index := db.index - {e});
    EntriesOfRecords(RunKey([], []), [], 0, e);
    match ParseSuffix(e.suffix).value
    case ExpiringRun(graph, partition) => assert !RunCovered(after, RunKey(graph, partition));
    case ExpiringRequest(id) => assert !RequestCovered(after, id);
  }

  /** A removal takes the record and its own entry together. */
  lemma RemovalKeepsCoverage(db: Db, e: IndexEntry, loads: set<string>, read: Db, definitions: map<string, set<Name>>)
    requires Covered(db) && !Decided(read, e, loads).Discard?
    ensures Covered(Committed(db, e, Decided(read, e, loads), definitions))
  {
    hide SplitOnce, ParseSuffix, IsExpiring, IsRequestId;
    var verdict := Decided(read, e, loads);
    var after := Committed(db, e, verdict, definitions);
    EntriesOfRecords(RunKey([], []), [], 0, e);
    forall key | key in after.runs
      ensures RunCovered(after, key)
    {
      assert RunCovered(db, key);
      EntriesOfRecords(key, [], 0, e);
    }
    forall id | id in after.requests
      ensures RequestCovered(after, id)
    {
      assert RequestCovered(db, id);
      EntriesOfRecords(RunKey([], []), id, 0, e);
    }
  }

  /** Every settle and every request record of the actions commits less than
      `retention` after its handler read the clock. */
  predicate Prompt(db: Db, actions: seq<Action>, retention: nat)
    decreases |actions|
  {
    actions != [] ==>
      && (Admits(db, actions[0]) ==> IsPrompt(db, actions[0], retention))
      && Prompt(Applied(db, actions[0]), actions[1..], retention)
  }

  predicate IsPrompt(db: Db, a: Action, retention: nat) {
    match a
    case CommitSettled(_, at, _, _) => db.clock < at + retention
    case RecordRequest(_, at) => db.clock < at + retention
    case _ => true
  }

  /** Prompt commits never write at the time of a due entry, so a stale due entry
      stays stale. */
  lemma {:induction false} StaleStaysStale(db: Db, actions: seq<Action>, e: IndexEntry, retention: nat)
    requires e.time + retention <= db.clock && Prompt(db, actions, retention) && !IsLive(db, e)
    ensures !IsLive(AllApplied(db, actions), e)
    decreases |actions|
  {
    hide ParseSuffix, Suffix, IsExpiring, IsRequestId;
    if actions != [] {
      StaleStaysStale(Applied(db, actions[0]), actions[1..], e, retention);
    }
  }

  // ---- A pass ----

  /** What happens around one entry: whether a read, a parse or the removal of a group
      fails, and the commits between the reads and the removal. */
  datatype Turn = Turn(fails: bool, between: seq<Action>)

  /** The due entries of the index. */
  predicate IsDue(e: IndexEntry, now: nat, retention: nat) {
    e.time + retention <= now
  }

  function Due(db: Db, retention: nat): set<IndexEntry> {
    set e | e in db.index && IsDue(e, db.clock, retention)
  }

  predicate RunExpires(db: Db, key: RunKey, done: set<IndexEntry>, loads: set<string>)
    requires key in db.runs
  {
    var run := db.runs[key];
    run.settledAt.Some? && RunEntry(key, run.settledAt.value) in done && run.definition in loads
  }

  predicate RequestExpires(db: Db, id: string, done: set<IndexEntry>)
    requires id in db.requests
  {
    RequestEntry(id, db.requests[id]) in done
  }

  function NodesOf(db: Db, key: RunKey, definitions: map<string, set<Name>>): set<Name> {
    if key in db.runs && db.runs[key].definition in definitions then definitions[db.runs[key].definition] else {}
  }

  /** The store once the entries `done` are handled: without the records they refer
      to, and without the entries except those of the runs that do not load. */
  function ExpiredBy(db: Db, done: set<IndexEntry>, loads: set<string>, definitions: map<string, set<Name>>): Db {
    Db(db.clock,
       map key | key in db.runs && !RunExpires(db, key, done, loads) :: db.runs[key],
       set n | n in db.nodes && !(n.run in db.runs && RunExpires(db, n.run, done, loads)
                                  && n.node in NodesOf(db, n.run, definitions)),
       map id | id in db.requests && !RequestExpires(db, id, done) :: db.requests[id],
       set e | e in db.index && !(e in done && Decided(db, e, loads) != Keep))
  }

  predicate WellKeyed(db: Db) {
    && (forall key :: key in db.runs ==> IsExpiring(ExpiringRun(key.graph, key.partition)))
    && (forall id :: id in db.requests ==> IsRequestId(id))
  }

  /** An entry removes the run whose settle it is, when the definition loads. */
  lemma RunOfEntry(db: Db, e: IndexEntry, loads: set<string>, key: RunKey)
    requires WellKeyed(db) && key in db.runs
    ensures Decided(db, e, loads) == RemoveRun(key, db.runs[key])
            <==> db.runs[key].settledAt.Some? && RunEntry(key, db.runs[key].settledAt.value) == e
                 && db.runs[key].definition in loads
  {
    hide SplitOnce, ParseSuffix;
    EntriesOfRecords(key, [], e.time, e);
  }

  lemma RequestOfEntry(db: Db, e: IndexEntry, loads: set<string>, id: string)
    requires WellKeyed(db) && id in db.requests
    ensures Decided(db, e, loads) == RemoveRequest(id, db.requests[id]) <==> RequestEntry(id, db.requests[id]) == e
  {
    hide SplitOnce, ParseSuffix;
    EntriesOfRecords(RunKey([], []), id, e.time, e);
  }

  lemma DecidedRecords(db: Db, e: IndexEntry, loads: set<string>)
    ensures Decided(db, e, loads).RemoveRun? ==>
              var v := Decided(db, e, loads); v.key in db.runs && db.runs[v.key] == v.record
    ensures Decided(db, e, loads).RemoveRequest? ==>
              var v := Decided(db, e, loads); v.id in db.requests && db.requests[v.id] == v.at
  {
  }

  lemma SameDecision(db: Db, done: set<IndexEntry>, e: IndexEntry, loads: set<string>, definitions: map<string, set<Name>>)
    requires WellKeyed(db) && e !in done
    ensures Decided(ExpiredBy(db, done, loads, definitions), e, loads) == Decided(db, e, loads)
  {
    hide SplitOnce, ParseSuffix, IsExpiring, IsRequestId, Suffix, NodesOf;
    EntriesOfRecords(RunKey([], []), [], 0, e);
  }

  lemma OneMore(db: Db, done: set<IndexEntry>, e: IndexEntry, loads: set<string>, definitions: map<string, set<Name>>)
    requires WellKeyed(db) && e !in done && e in db.index
    ensures var before := ExpiredBy(db, done, loads, definitions);
            && Decided(before, e, loads) == Decided(db, e, loads)
            && Committed(before, e, Decided(db, e, loads), definitions) == ExpiredBy(db, done + {e}, loads, definitions)
  {
    hide Decided, RunEntry, RequestEntry, WellKeyed;
    var before := ExpiredBy(db, done, loads, definitions);
    var after := ExpiredBy(db, done + {e}, loads, definitions);
    var verdict := Decided(db, e, loads);
    SameDecision(db, done, e, loads, definitions);
    DecidedRecords(before, e, loads);
    DecidedRecords(db, e, loads);
    forall key | key in db.runs
      ensures RunExpires(db, key, done + {e}, loads)
              <==> RunExpires(db, key, done, loads) || verdict == RemoveRun(key, db.runs[key])
    {
      RunOfEntry(db, e, loads, key);
    }
    forall id | id in db.requests
      ensures RequestExpires(db, id, done + {e})
              <==> RequestExpires(db, id, done) || verdict == RemoveRequest(id, db.requests[id])
    {
      RequestOfEntry(db, e, loads, id);
    }
    hide RunExpires, RequestExpires;
    var committed := Committed(before, e, verdict, definitions);
    assert committed.runs == after.runs;
    assert committed.requests == after.requests;
    assert committed.nodes == after.nodes;
    assert committed.index == after.index;
  }

  lemma OneLess<K, V>(m: map<K, V>, key: K)
    requires key in m
    ensures |m - {key}| == |m| - 1
  {
    assert (m - {key}).Keys == m.Keys - {key};
    assert |m.Keys| == |m| && |(m - {key}).Keys| == |m - {key}|;
  }

  datatype ExpireReport = ExpireReport(runs: nat, requests: nat)

  datatype PassFailure = PassFailure

  /** The store of the records. */
  class RecordStore {
    // The definition objects by hash: the names of the nodes.
    const definitions: map<string, set<Name>>
    var clock: nat
    var runs: map<RunKey, RunRecord>
    var nodes: set<NodeKey>
    var requests: map<string, nat>
    var index: set<IndexEntry>

    constructor (definitions: map<string, set<Name>>, clock: nat)
      ensures View() == Db(clock, map[], {}, map[], {}) && Covered(View())
    {
      this.definitions := definitions;
      this.clock := clock;
      runs, nodes, requests, index := map[], {}, map[], {};
    }

    ghost function View(): Db
      reads this
    {
      Db(clock, runs, nodes, requests, index)
    }

    /** One commit of another handler. */
    method Commit(a: Action)
      modifies this
      ensures View() == Applied(old(View()), a)
    {
      match a
      case Tick(ms) =>
        clock := clock + ms;
      case StartRun(key, definition) =>
        if key !in runs && IsExpiring(ExpiringRun(key.graph, key.partition)) {
          runs := runs[key := RunRecord(definition, RunActive, None, map[])];
        }
      case CommitSettled(key, at, state, expected) =>
        if key in runs && runs[key].state == RunActive && state != RunActive && at <= clock {
          runs := runs[key := runs[key].(state := state, settledAt := Some(at), expectedReruns := expected)];
          index := index + {RunEntry(key, at)};
        }
      case Reactivate(key, expected) =>
        if key in runs {
          runs := runs[key := runs[key].(state := RunActive, settledAt := None, expectedReruns := expected)];
        }
      case RecordNode(node) =>
        nodes := nodes + {node};
      case RecordRequest(id, at) =>
        if IsRequestId(id) && at <= clock {
          requests := requests[id := at];
          index := index + {RequestEntry(id, at)};
        }
    }

    method Others(actions: seq<Action>)
      modifies this
      ensures View() == AllApplied(old(View()), actions)
      ensures actions == [] ==> View() == old(View())
      decreases |actions|
    {
      if actions != [] {
        Commit(actions[0]);
        Others(actions[1..]);
      }
    }

    /** Settles a run against the active record that its handler read: the record and
        its index entry commit together, at the time read before the commit. */
    method CommitSettled(key: RunKey, expected: RunRecord, settled: RunRecord, between: seq<Action>)
      returns (written: bool)
      requires expected.state == RunActive && settled.state != RunActive
      requires settled.definition == expected.definition
      modifies this
      ensures var before := AllApplied(old(View()), between);
              && written == (key in before.runs && before.runs[key] == expected)
              && (!written ==> View() == before)
              && (written ==>
                    View() == before.(runs := before.runs[key := settled.(settledAt := Some(old(clock)))],
                                      index := before.index + {RunEntry(key, old(clock))}))
      ensures Covered(old(View())) ==> Covered(View())
    {
      if Covered(old(View())) {
        AllAppliedKeepsCoverage(old(View()), between);
      }
      var settledAt := clock;
      Others(between);
      ghost var before := View();
      ClockGrows(old(View()), between);
      written := key in runs && runs[key] == expected;
      if written {
        runs := runs[key := settled.(settledAt := Some(settledAt))];
        index := index + {RunEntry(key, settledAt)};
        if Covered(old(View())) {
          AppliedKeepsCoverage(before, Action.CommitSettled(key, settledAt, settled.state, settled.expectedReruns));
          assert View().runs == Applied(before,
            Action.CommitSettled(key, settledAt, settled.state, settled.expectedReruns)).runs;
        }
      }
    }

    /** One due entry: what the reads decide, and the removal after the commits of
        the other handlers. */
    method ExpireEntry(e: IndexEntry, loads: set<string>, between: seq<Action>) returns (verdict: Verdict, removed: bool)
      modifies this
      ensures verdict == Decided(old(View()), e, loads)
      ensures removed == Holds(AllApplied(old(View()), between), verdict)
      ensures View() == Committed(AllApplied(old(View()), between), e, verdict, definitions)
    {
      verdict := Keep;
      match ParseSuffix(e.suffix) {
        case None => verdict := Discard;
        case Some(ExpiringRun(graph, partition)) =>
          var key := RunKey(graph, partition);
          if key !in runs || runs[key].settledAt != Some(e.time) {
            verdict := Discard;
          } else if runs[key].definition in loads {
            verdict := RemoveRun(key, runs[key]);
          }
        case Some(ExpiringRequest(id)) =>
          if id !in requests || requests[id] != e.time {
            verdict := Discard;
          } else {
            verdict := RemoveRequest(id, e.time);
          }
      }
      Others(between);
      removed := true;
      match verdict {
        case Keep =>
        case Discard => index := index - {e};
        case RemoveRun(key, record) =>
          removed := key in runs && runs[key] == record;
          if removed {
            var named := if record.definition in definitions then definitions[record.definition] else {};
            runs := runs - {key};
            nodes := set n | n in nodes && !(n.run == key && n.node in named);
            index := index - {e};
          }
        case RemoveRequest(id, at) =>
          removed := id in requests && requests[id] == at;
          if removed {
            requests := requests - {id};
            index := index - {e};
          }
      }
    }

    method Skip(between: seq<Action>, retention: nat)
      modifies this
      ensures old(clock) <= clock
      ensures between == [] ==> Prompt(old(View()), between, retention) && View() == old(View())
      ensures Covered(old(View())) ==> Covered(View())
      ensures View() == AllApplied(old(View()), between)
    {
      ghost var at := View();
      Others(between);
      ClockGrows(at, between);
      NothingApplied(at, retention);
      if Covered(at) {
        AllAppliedKeepsCoverage(at, between);
      }
    }

    method Handle(e: IndexEntry, loads: set<string>, between: seq<Action>, now: nat, retention: nat)
      returns (verdict: Verdict)
      requires IsDue(e, now, retention) && now <= clock
      modifies this
      ensures verdict == Decided(old(View()), e, loads) && old(clock) <= clock
      ensures Covered(old(View())) && Prompt(old(View()), between, retention) ==> Covered(View())
      ensures View() == Committed(AllApplied(old(View()), between), e, verdict, definitions)
      ensures between == [] ==>
        Prompt(old(View()), between, retention) && AllApplied(old(View()), between) == old(View())
    {
      hide Covered, Decided, Committed, AllApplied, Holds, Prompt;
      ghost var at := View();
      NothingApplied(at, retention);
      var removed;
      verdict, removed := ExpireEntry(e, loads, between);
      EntryKeepsCoverage(at, e, loads, between, retention, definitions);
      CommittedClock(AllApplied(at, between), e, verdict, definitions);
      ClockGrows(at, between);
    }

    /** The due entries, each once. */
    method DueEntries(retention: nat) returns (entries: seq<IndexEntry>)
      ensures Elements(entries) == Due(View(), retention) && IsDistinct(entries)
      ensures |entries| == |Due(View(), retention)|
    {
      var todo := set e | e in index && IsDue(e, clock, retention);
      ghost var due := todo;
      assert due == Due(View(), retention);
      entries := [];
      while todo != {}
        invariant |entries| + |todo| == |due| && todo <= due
        invariant Elements(entries) == due - todo && IsDistinct(entries)
        decreases todo
      {
        var e :| e in todo;
        AppendElement(entries, e);
        entries := entries + [e];
        todo := todo - {e};
      }
    }

    /** One retention pass over the due entries: `turns` are the failures and the
        commits of the other handlers around each entry. A failure ends the removals. */
    method Expire(retention: nat, loads: set<string>, turns: seq<Turn>)
      returns (r: Result<ExpireReport, PassFailure>, ghost pass: Pass)
      requires WellKeyed(View())
      modifies this
      ensures r.Err? <==> FailsWithin(turns, |Due(old(View()), retention)|)
      ensures |pass.trace| == |Due(old(View()), retention)| && pass.done <= Due(old(View()), retention)
      ensures r.Ok? ==> pass.done == Due(old(View()), retention) && r.value == pass.report
      // Beside other handlers, whose commits are prompt.
      ensures IsPassOf(old(View()), View(), pass, turns, Terms(old(clock), retention, loads, definitions))
      ensures pass.prompt && Covered(old(View())) ==> Covered(View())
      // Alone.
      ensures IsAlone(turns) ==> pass.prompt && HandledAlone(old(View()), View(), pass, loads, definitions)
    {
      hide WellKeyed, Covered, Decided, Committed, Prompt, FailsWithin, HandledAlone, IsDistinct, Counted, IsPassOf, AllApplied;
      var now := clock;
      ghost var terms := Terms(now, retention, loads, definitions);
      var entries := DueEntries(retention);
      ghost var before := View();
      var failed, report := false, ExpireReport(0, 0);
      pass := Pass({}, report, true, []);
      FailsNone(turns);
      NothingHandled(before, pass, loads, definitions);
      NothingPassed(before, turns, terms);
      for k := 0 to |entries|
        invariant now <= clock && |pass.trace| == k
        invariant failed <==> FailsWithin(turns, k)
        invariant pass.prompt && Covered(before) ==> Covered(View())
        invariant IsPassOf(before, View(), pass, turns, terms) && report == pass.report
        invariant pass.done <= Elements(entries[..k]) && (!failed ==> pass.done == Elements(entries[..k]))
        invariant IsAlone(turns) ==> pass.prompt && HandledAlone(before, View(), pass, loads, definitions)
      {
        var e := entries[k];
        NextElement(entries, k);
        var turn := TurnAt(turns, k);
        FailsOneMore(turns, k);
        ghost var at := View();
        if failed || turn.fails {
          failed := true;
          Skip(turn.between, retention);
          ghost var t := Turned(e, turn.between, Keep, true);
          SkippedOneMore(before, at, pass, t, turns, terms, loads);
          pass := Passed(at, pass, t, retention);
        } else {
          var verdict := Handle(e, loads, turn.between, now, retention);
          report := Counted(report, verdict);
          ghost var t := Turned(e, turn.between, verdict, false);
          if IsAlone(turns) {
            HandledOneMore(before, at, pass, e, Passed(at, pass, t, retention), loads, definitions);
          }
          PassedOneMore(before, at, pass, t, turns, terms);
          pass := Passed(at, pass, t, retention);
        }
      }
      AllElements(entries);
      r := if failed then Err(PassFailure) else Ok(report);
    }
  }

  function TurnAt(turns: seq<Turn>, k: nat): Turn {
    if k < |turns| then turns[k] else Turn(false, [])
  }

  ghost function Elements(entries: seq<IndexEntry>): set<IndexEntry> {
    set e | e in entries
  }

  ghost predicate IsDistinct(entries: seq<IndexEntry>) {
    forall i, j :: 0 <= i < j < |entries| ==> entries[i] != entries[j]
  }

  lemma AppendElement(entries: seq<IndexEntry>, e: IndexEntry)
    requires IsDistinct(entries) && e !in Elements(entries)
    ensures IsDistinct(entries + [e]) && Elements(entries + [e]) == Elements(entries) + {e}
  {
    forall i | 0 <= i < |entries|
      ensures entries[i] != e
    {
      assert entries[i] in Elements(entries);
    }
  }

  lemma NextElement(entries: seq<IndexEntry>, k: nat)
    requires k < |entries| && IsDistinct(entries)
    ensures entries[k] !in Elements(entries[..k]) && entries[k] in Elements(entries)
    ensures Elements(entries[..k + 1]) == Elements(entries[..k]) + {entries[k]}
  {
    assert entries[..k + 1] == entries[..k] + [entries[k]];
  }

  lemma AllElements(entries: seq<IndexEntry>)
    ensures entries[..|entries|] == entries && entries[..0] == []
  {
  }

  // ---- The trace of a pass ----

  /** One turn of a pass: the commits beside the entry, and what is done with it. The
      entries from a failure on are skipped. */
  datatype Turned = Turned(entry: IndexEntry, between: seq<Action>, verdict: Verdict, skipped: bool)

  /** The clock at the start of the pass, and what the pass is given. */
  datatype Terms = Terms(now: nat, retention: nat, loads: set<string>, definitions: map<string, set<Name>>)

  /** The store after the turns: the commits beside each, then its removal. */
  ghost function Traced(db: Db, trace: seq<Turned>, terms: Terms): Db {
    if trace == [] then db
    else
      var last := trace[|trace| - 1];
      Committed(AllApplied(Traced(db, trace[..|trace| - 1], terms), last.between), last.entry, last.verdict,
                terms.definitions)
  }

  /** The turn is of a due entry, and decided by the store that it reads. */
  ghost predicate IsTurn(db: Db, t: Turned, terms: Terms) {
    && IsDue(t.entry, terms.now, terms.retention)
    && t.verdict == if t.skipped then Keep else Decided(db, t.entry, terms.loads)
  }

  ghost predicate IsTrace(db: Db, trace: seq<Turned>, terms: Terms) {
    trace != [] ==>
      && IsTrace(db, trace[..|trace| - 1], terms)
      && IsTurn(Traced(db, trace[..|trace| - 1], terms), trace[|trace| - 1], terms)
  }

  ghost predicate IsPromptTrace(db: Db, trace: seq<Turned>, terms: Terms) {
    trace != [] ==>
      && IsPromptTrace(db, trace[..|trace| - 1], terms)
      && Prompt(Traced(db, trace[..|trace| - 1], terms), trace[|trace| - 1].between, terms.retention)
  }

  /** What a pass did: the entries it handled, its counts, whether the commits beside
      it were prompt, and its turns. */
  datatype Pass = Pass(done: set<IndexEntry>, report: ExpireReport, prompt: bool, trace: seq<Turned>)

  ghost function Passed(at: Db, pass: Pass, t: Turned, retention: nat): Pass {
    Pass(if t.skipped then pass.done else pass.done + {t.entry}, Counted(pass.report, t.verdict),
         pass.prompt && Prompt(at, t.between, retention), pass.trace + [t])
  }

  ghost function Reported(trace: seq<Turned>): ExpireReport {
    if trace == [] then ExpireReport(0, 0)
    else Counted(Reported(trace[..|trace| - 1]), trace[|trace| - 1].verdict)
  }

  /** The store after the pass is that after its turns, each beside the given commits;
      the report counts the removals decided, and the entries done are those handled. */
  ghost predicate IsPassOf(before: Db, after: Db, pass: Pass, turns: seq<Turn>, terms: Terms) {
    && after == Traced(before, pass.trace, terms)
    && IsTrace(before, pass.trace, terms)
    && pass.prompt == IsPromptTrace(before, pass.trace, terms)
    && pass.report == Reported(pass.trace)
    && pass.done == (set t | t in pass.trace && !t.skipped :: t.entry)
    && forall k :: 0 <= k < |pass.trace| ==> pass.trace[k].between == TurnAt(turns, k).between
  }

  lemma NothingPassed(db: Db, turns: seq<Turn>, terms: Terms)
    ensures IsPassOf(db, db, Pass({}, ExpireReport(0, 0), true, []), turns, terms)
  {
  }

  lemma PassedOneMore(before: Db, at: Db, pass: Pass, t: Turned, turns: seq<Turn>, terms: Terms)
    requires IsPassOf(before, at, pass, turns, terms) && IsTurn(at, t, terms)
    requires t.between == TurnAt(turns, |pass.trace|).between
    ensures IsPassOf(before, Committed(AllApplied(at, t.between), t.entry, t.verdict, terms.definitions),
                     Passed(at, pass, t, terms.retention), turns, terms)
  {
    hide Committed, AllApplied, Decided, Prompt, Counted, IsTurn;
    var longer := pass.trace + [t];
    assert longer[..|pass.trace|] == pass.trace && longer[|pass.trace|] == t;
    assert forall u :: u in longer <==> u in pass.trace || u == t;
  }

  lemma SkippedOneMore(before: Db, at: Db, pass: Pass, t: Turned, turns: seq<Turn>, terms: Terms, loads: set<string>)
    requires IsPassOf(before, at, pass, turns, terms) && t.skipped && t.verdict == Keep
    requires IsDue(t.entry, terms.now, terms.retention)
    requires t.between == TurnAt(turns, |pass.trace|).between
    ensures var skipped := Passed(at, pass, t, terms.retention);
            && IsPassOf(before, AllApplied(at, t.between), skipped, turns, terms)
            && skipped.done == pass.done && skipped.report == pass.report
            && (HandledAlone(before, at, pass, loads, terms.definitions) ==>
                  HandledAlone(before, at, skipped, loads, terms.definitions))
  {
    hide AllApplied, IsPassOf, ExpiredBy;
    PassedOneMore(before, at, pass, t, turns, terms);
  }

  // ---- What is gone was aged ----

  ghost predicate IsAged(time: nat, terms: Terms) {
    time + terms.retention <= terms.now
  }

  /** The `k`-th turn removes the run, which was aged by the clock of the pass, with a
      definition that loads, and is still the one that was read. */
  ghost predicate RemovesAgedRun(db: Db, trace: seq<Turned>, terms: Terms, k: nat, key: RunKey)
    requires k < |trace|
  {
    var at := AllApplied(Traced(db, trace[..k], terms), trace[k].between);
    && trace[k].verdict.RemoveRun? && trace[k].verdict.key == key
    && key in at.runs && at.runs[key] == trace[k].verdict.record
    && at.runs[key].settledAt.Some? && IsAged(at.runs[key].settledAt.value, terms)
    && at.runs[key].definition in terms.loads
  }

  ghost predicate RemovesAgedRequest(db: Db, trace: seq<Turned>, terms: Terms, k: nat, id: string)
    requires k < |trace|
  {
    var at := AllApplied(Traced(db, trace[..k], terms), trace[k].between);
    id in at.requests && trace[k].verdict == RemoveRequest(id, at.requests[id]) && IsAged(at.requests[id], terms)
  }

  /** The commits of the other handlers remove nothing. */
  lemma {:induction false} CommitsRemoveNothing(db: Db, actions: seq<Action>)
    ensures db.runs.Keys <= AllApplied(db, actions).runs.Keys
    ensures db.requests.Keys <= AllApplied(db, actions).requests.Keys
    decreases |actions|
  {
    if actions != [] {
      CommitsRemoveNothing(Applied(db, actions[0]), actions[1..]);
    }
  }

  lemma TurnRemoves(db: Db, trace: seq<Turned>, terms: Terms)
    requires trace != [] && IsTrace(db, trace, terms)
    ensures var n := |trace| - 1;
            var at := AllApplied(Traced(db, trace[..n], terms), trace[n].between);
            && (forall key :: key in at.runs && key !in Traced(db, trace, terms).runs ==>
                  RemovesAgedRun(db, trace, terms, n, key))
            && (forall id :: id in at.requests && id !in Traced(db, trace, terms).requests ==>
                  RemovesAgedRequest(db, trace, terms, n, id))
  {
    hide ParseSuffix, AllApplied;
  }

  /** A run that was there after the first `j` turns, or after the commits beside the
      next one, and that is gone after the pass, was removed by a turn that found it
      aged. */
  lemma {:induction false} GoneRunWasAged(db: Db, trace: seq<Turned>, terms: Terms, j: nat, key: RunKey)
    requires IsTrace(db, trace, terms) && j < |trace|
    requires key in AllApplied(Traced(db, trace[..j], terms), trace[j].between).runs
             || key in Traced(db, trace[..j], terms).runs
    requires key !in Traced(db, trace, terms).runs
    ensures exists k :: j <= k < |trace| && RemovesAgedRun(db, trace, terms, k, key)
    decreases |trace|
  {
    hide AllApplied, Committed, Decided;
    var n := |trace| - 1;
    var front := trace[..n];
    CommitsRemoveNothing(Traced(db, front, terms), trace[n].between);
    TurnRemoves(db, trace, terms);
    if j < n {
      assert front[..j] == trace[..j];
      if key !in Traced(db, front, terms).runs {
        GoneRunWasAged(db, front, terms, j, key);
        var k :| j <= k < n && RemovesAgedRun(db, front, terms, k, key);
        assert front[..k] == trace[..k];
        assert RemovesAgedRun(db, trace, terms, k, key);
      }
    }
  }

  lemma {:induction false} GoneRequestWasAged(db: Db, trace: seq<Turned>, terms: Terms, j: nat, id: string)
    requires IsTrace(db, trace, terms) && j < |trace|
    requires id in AllApplied(Traced(db, trace[..j], terms), trace[j].between).requests
             || id in Traced(db, trace[..j], terms).requests
    requires id !in Traced(db, trace, terms).requests
    ensures exists k :: j <= k < |trace| && RemovesAgedRequest(db, trace, terms, k, id)
    decreases |trace|
  {
    hide AllApplied, Committed, Decided;
    var n := |trace| - 1;
    var front := trace[..n];
    CommitsRemoveNothing(Traced(db, front, terms), trace[n].between);
    TurnRemoves(db, trace, terms);
    if j < n {
      assert front[..j] == trace[..j];
      if id !in Traced(db, front, terms).requests {
        GoneRequestWasAged(db, front, terms, j, id);
        var k :| j <= k < n && RemovesAgedRequest(db, front, terms, k, id);
        assert front[..k] == trace[..k];
        assert RemovesAgedRequest(db, trace, terms, k, id);
      }
    }
  }

  function Counted(report: ExpireReport, v: Verdict): ExpireReport {
    ExpireReport(report.runs + (if v.RemoveRun? then 1 else 0), report.requests + (if v.RemoveRequest? then 1 else 0))
  }

  /** No other handler commits during the pass. */
  ghost predicate IsAlone(turns: seq<Turn>) {
    forall k :: 0 <= k < |turns| ==> turns[k].between == []
  }

  /** The entries of the pass are handled, nothing else changed, and the report counts
      the records that are gone. */
  ghost predicate HandledAlone(before: Db, after: Db, pass: Pass, loads: set<string>, definitions: map<string, set<Name>>) {
    && after == ExpiredBy(before, pass.done, loads, definitions)
    && |before.runs| == |after.runs| + pass.report.runs
    && |before.requests| == |after.requests| + pass.report.requests
  }

  lemma NothingHandled(db: Db, pass: Pass, loads: set<string>, definitions: map<string, set<Name>>)
    requires pass.done == {} && pass.report == ExpireReport(0, 0)
    ensures HandledAlone(db, db, pass, loads, definitions)
  {
    ExpiredByNone(db, loads, definitions);
  }

  lemma HandledOneMore(before: Db, at: Db, pass: Pass, e: IndexEntry, handled: Pass, loads: set<string>,
                       definitions: map<string, set<Name>>)
    requires WellKeyed(before) && e in before.index && e !in pass.done
    requires HandledAlone(before, at, pass, loads, definitions)
    requires handled.done == pass.done + {e} && handled.report == Counted(pass.report, Decided(at, e, loads))
    ensures HandledAlone(before, Committed(at, e, Decided(at, e, loads), definitions), handled, loads, definitions)
  {
    hide WellKeyed, Decided, Committed, ExpiredBy, Holds;
    OneMore(before, pass.done, e, loads, definitions);
    CommittedCounts(at, e, loads, definitions);
  }

  /** One of the first `n` turns fails. */
  ghost predicate FailsWithin(turns: seq<Turn>, n: nat) {
    exists k :: 0 <= k < n && k < |turns| && turns[k].fails
  }

  lemma FailsOneMore(turns: seq<Turn>, n: nat)
    ensures FailsWithin(turns, n + 1) <==> FailsWithin(turns, n) || (n < |turns| && turns[n].fails)
  {
  }

  lemma FailsNone(turns: seq<Turn>)
    ensures !FailsWithin(turns, 0)
  {
  }

  lemma NothingApplied(db: Db, retention: nat)
    ensures AllApplied(db, []) == db && Prompt(db, [], retention)
  {
  }

  lemma ExpiredByNone(db: Db, loads: set<string>, definitions: map<string, set<Name>>)
    ensures ExpiredBy(db, {}, loads, definitions) == db
  {
    var none := ExpiredBy(db, {}, loads, definitions);
    assert none.runs == db.runs && none.requests == db.requests && none.nodes == db.nodes && none.index == db.index;
  }

  lemma CommittedClock(db: Db, e: IndexEntry, v: Verdict, definitions: map<string, set<Name>>)
    ensures Committed(db, e, v, definitions).clock == db.clock
  {
  }

  lemma CommittedCounts(db: Db, e: IndexEntry, loads: set<string>, definitions: map<string, set<Name>>)
    ensures var v := Decided(db, e, loads);
            && Holds(db, v)
            && |Committed(db, e, v, definitions).runs| == |db.runs| - (if v.RemoveRun? then 1 else 0)
            && |Committed(db, e, v, definitions).requests| == |db.requests| - (if v.RemoveRequest? then 1 else 0)
  {
    hide ParseSuffix;
    var v := Decided(db, e, loads);
    if v.RemoveRun? {
      OneLess(db.runs, v.key);
    }
    if v.RemoveRequest? {
      OneLess(db.requests, v.id);
    }
  }

  lemma EntryKeepsCoverage(db: Db, e: IndexEntry, loads: set<string>, between: seq<Action>, retention: nat,
                           definitions: map<string, set<Name>>)
    requires IsDue(e, db.clock, retention)
    ensures Covered(db) && Prompt(db, between, retention) ==>
              Covered(Committed(AllApplied(db, between), e, Decided(db, e, loads), definitions))
  {
    hide Covered, AllApplied, Prompt, ParseSuffix, Applied;
    if Covered(db) && Prompt(db, between, retention) {
      var after := AllApplied(db, between);
      AllAppliedKeepsCoverage(db, between);
      if Decided(db, e, loads).Discard? {
        assert !IsLive(db, e);
        StaleStaysStale(db, between, e, retention);
        DiscardKeepsCoverage(after, e);
      } else {
        RemovalKeepsCoverage(after, e, loads, db, definitions);
      }
    }
  }

  lemma {:induction false} ClockGrows(db: Db, actions: seq<Action>)
    ensures db.clock <= AllApplied(db, actions).clock
    decreases |actions|
  {
    if actions != [] {
      ClockGrows(Applied(db, actions[0]), actions[1..]);
    }
  }

  // ---- What a pass removes ----

  ghost predicate RunIsDue(db: Db, key: RunKey, retention: nat, loads: set<string>)
    requires key in db.runs
  {
    var run := db.runs[key];
    run.settledAt.Some? && run.settledAt.value + retention <= db.clock && run.definition in loads
  }

  /** With every due entry of a covered store handled, exactly the aged runs whose
      definitions load are gone, with the node records of those definitions, and
      exactly the aged request records; no stale due entry is left. */
  lemma PassRemovesExactlyTheDue(db: Db, retention: nat, loads: set<string>, definitions: map<string, set<Name>>)
    requires Covered(db)
    ensures var after := ExpiredBy(db, Due(db, retention), loads, definitions);
            && Covered(after)
            && (forall key :: key in db.runs ==> RunCovered(db, key))
            && (forall key :: key in after.runs <==> key in db.runs && !RunIsDue(db, key, retention, loads))
            && (forall key :: key in after.runs ==> after.runs[key] == db.runs[key])
            && (forall id :: id in after.requests <==> id in db.requests && db.clock < db.requests[id] + retention)
            && (forall id :: id in after.requests ==> after.requests[id] == db.requests[id])
            && (forall n :: n in after.nodes <==>
                  n in db.nodes && !(n.run in db.runs && RunIsDue(db, n.run, retention, loads)
                                     && db.runs[n.run].definition in definitions
                                     && n.node in definitions[db.runs[n.run].definition]))
            && (forall e :: e in after.index && IsDue(e, db.clock, retention) ==> IsLive(after, e))
  {
    hide SplitOnce, ParseSuffix, IsExpiring, IsRequestId, Suffix;
    var after := ExpiredBy(db, Due(db, retention), loads, definitions);
    forall key | key in db.runs
      ensures RunCovered(db, key)
      ensures RunExpires(db, key, Due(db, retention), loads) <==> RunIsDue(db, key, retention, loads)
      ensures key in after.runs ==> RunCovered(after, key)
    {
      RunStaysCovered(db, retention, loads, definitions, key);
    }
    forall id | id in db.requests
      ensures RequestExpires(db, id, Due(db, retention)) <==> db.requests[id] + retention <= db.clock
      ensures id in after.requests ==> RequestCovered(after, id)
    {
      RequestStaysCovered(db, retention, loads, definitions, id);
    }
    forall e | e in after.index && IsDue(e, db.clock, retention)
      ensures IsLive(after, e)
    {
      EntriesOfRecords(RunKey([], []), [], 0, e);
    }
  }

  lemma RunStaysCovered(db: Db, retention: nat, loads: set<string>, definitions: map<string, set<Name>>, key: RunKey)
    requires Covered(db) && key in db.runs
    ensures RunCovered(db, key)
    ensures RunExpires(db, key, Due(db, retention), loads) <==> RunIsDue(db, key, retention, loads)
    ensures var after := ExpiredBy(db, Due(db, retention), loads, definitions);
            key in after.runs ==> RunCovered(after, key)
  {
    hide SplitOnce, ParseSuffix, IsExpiring, IsRequestId, Suffix;
    assert RunCovered(db, key);
    if db.runs[key].settledAt.Some? {
      EntriesOfRecords(key, [], db.runs[key].settledAt.value, RunEntry(key, db.runs[key].settledAt.value));
    }
  }

  lemma RequestStaysCovered(db: Db, retention: nat, loads: set<string>, definitions: map<string, set<Name>>, id: string)
    requires Covered(db) && id in db.requests
    ensures RequestExpires(db, id, Due(db, retention)) <==> db.requests[id] + retention <= db.clock
    ensures var after := ExpiredBy(db, Due(db, retention), loads, definitions);
            id in after.requests ==> RequestCovered(after, id)
  {
    hide SplitOnce, ParseSuffix, IsExpiring, IsRequestId, Suffix;
    assert RequestCovered(db, id);
    EntriesOfRecords(RunKey([], []), id, db.requests[id], RequestEntry(id, db.requests[id]));
  }

  /** A commit that comes a window after its handler read the clock can meet the discard
      of a stale entry at its time: the run then has no entry, and no later pass
      removes it. */
  lemma LateCommitLosesAnEntry(window: nat) returns (db: Db, e: IndexEntry, between: seq<Action>)
    ensures Covered(db) && e in Due(db, window) && Prompt(db, between, window + 1)
    ensures forall loads :: !Covered(Committed(AllApplied(db, between), e, Decided(db, e, loads), map[]))
  {
    var key := RunKey("g", "p");
    var active := RunRecord("d", RunActive, None, map[]);
    e := RunEntry(key, 5);
    // The run settled at 5 and is active again; the handler of the next settle has read 5 too.
    db := Db(5 + window, map[key := active], {}, map[], {e});
    EntriesOfRecords(key, [], 5, e);
    assert RunCovered(db, key);
    between := [Action.CommitSettled(key, 5, RunComplete, map[])];
    var after := Applied(db, between[0]);
    assert AllApplied(db, between) == after by {
      assert between[1..] == [];
    }
    assert Prompt(after, [], window + 1);
    assert Prompt(db, between, window + 1) by {
      assert between[1..] == [];
    }
    var discarded := Committed(after, e, Discard, map[]);
    assert !RunCovered(discarded, key);
    forall loads
      ensures Decided(db, e, loads) == Discard
    {
    }
  }

  lemma {:induction false} LessPrompt(db: Db, actions: seq<Action>, delay: nat, window: nat)
    requires delay <= window && Prompt(db, actions, delay)
    ensures Prompt(db, actions, window)
    decreases |actions|
  {
    if actions != [] {
      LessPrompt(Applied(db, actions[0]), actions[1..], delay, window);
    }
  }

  /** The handling of a due entry keeps the coverage beside commits that come at most
      `delay` after their handlers read the clock. */
  ghost predicate EntryIsSafe(db: Db, e: IndexEntry, between: seq<Action>, loads: set<string>,
                              definitions: map<string, set<Name>>, window: nat, delay: nat) {
    Covered(db) && e in Due(db, window) && Prompt(db, between, delay + 1) ==>
      Covered(Committed(AllApplied(db, between), e, Decided(db, e, loads), definitions))
  }

  /** Every due entry of every covered store is safe exactly when the other handlers
      commit within the retention window. */
  lemma CoverageSurvivesExactly(window: nat, delay: nat)
    ensures (forall db, e, between, loads, definitions ::
               EntryIsSafe(db, e, between, loads, definitions, window, delay))
            <==> delay < window
  {
    hide Covered, Committed, AllApplied, Decided, Prompt;
    if delay < window {
      forall db, e, between, loads, definitions
        ensures EntryIsSafe(db, e, between, loads, definitions, window, delay)
      {
        if Prompt(db, between, delay + 1) && e in Due(db, window) {
          LessPrompt(db, between, delay + 1, window);
          EntryKeepsCoverage(db, e, loads, between, window, definitions);
        }
      }
    } else {
      var db, e, between := LateCommitLosesAnEntry(window);
      LessPrompt(db, between, window + 1, delay + 1);
      assert !EntryIsSafe(db, e, between, {}, map[], window, delay);
    }
  }
}

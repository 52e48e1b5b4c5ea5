/** The graph run records that the scheduler writes (swale/src/scheduler.rs). */
module RunRules {
  import opened Wrappers
  import opened Records
  import opened Graphs
  import opened Readiness
  import opened Scopes
  import opened Store

  function NewRun(definition: string, now: nat): GraphRunRecord {
    GraphRunRecord(definition, now, RunActive, None, map[])
  }

  /** The expected counts that a settle keeps: those no record reached. */
  function Unreached(expected: map<Name, nat>, records: NodeRecords): map<Name, nat> {
    map n | n in expected && (n in records ==> records[n].rerun < expected[n]) :: expected[n]
  }

  function Settled(run: GraphRunRecord, records: NodeRecords, state: GraphRunState, now: nat): GraphRunRecord {
    run.(state := state, settledAt := Some(now), expectedReruns := Unreached(run.expectedReruns, records))
  }

  /** The active record of a rerun of `node`: after a succeeded current record it
      expects the next count of every recorded node in the scope of the rerun. */
  ghost function Marked(g: Graph, run: GraphRunRecord, records: NodeRecords, node: Name): GraphRunRecord
    requires g.Valid() && node in g.index
  {
    var active := run.(state := RunActive, settledAt := None);
    if node in records && records[node].status == Succeeded && run.IsCurrent(node, records[node]) then
      active.(expectedReruns := run.expectedReruns +
        map n | n in ScopeOf(g, node) && n in records :: records[n].rerun + 1)
    else active
  }
}

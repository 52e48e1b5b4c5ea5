/** The stored records of one graph run (swale/src/records.rs). */
module Records {
  import opened Wrappers
  import opened Json

  type Name = string

  datatype RecordStatus = Succeeded | Failed | Cancelled

  /** What is stored of the highest terminated count of a node. */
  datatype NodeRecord = NodeRecord(
    status: RecordStatus,
    definition: string,
    rerun: nat,
    terminatedAt: nat,
    output: Option<Value>,
    error: Option<string>)

  type NodeRecords = map<Name, NodeRecord>

  datatype GraphRunState = RunActive | RunCancelled | RunComplete | RunFailed

  datatype GraphRunRecord = GraphRunRecord(
    definition: string,
    requestedAt: nat,
    state: GraphRunState,
    settledAt: Option<nat>,
    expectedReruns: map<Name, nat>)
  {
    /** The rerun count a record of `node` must reach to be current. */
    function Expected(node: Name): nat {
      if node in expectedReruns then expectedReruns[node] else 0
    }

    predicate IsCurrent(node: Name, record: NodeRecord) {
      record.rerun >= Expected(node)
    }
  }

  /** The records that `run` treats as current; the others are superseded. */
  function CurrentRecords(run: GraphRunRecord, records: NodeRecords): (current: NodeRecords) {
    map n | n in records && run.IsCurrent(n, records[n]) :: records[n]
  }
}

/** The keys of the stored records and the ids of the runs (swale/src/records.rs,
    swale/src/task.rs, swale/src/partition.rs, swale/src/request.rs). */
module Keys {
  import opened Wrappers
  import opened Text
  import opened Records
  import opened Graphs
  import opened GraphCheck

  const MAX_PARTITION_LEN: nat := 16
  const MAX_REQUEST_ID_LEN: nat := 64
  // The cap of the runtime on the length of a run id.
  const MAX_RUN_ID_LEN: nat := 128
  const U32_END: nat := 0x1_0000_0000

  predicate IsAlphanumeric(c: char) {
    'a' <= c <= 'z' || 'A' <= c <= 'Z' || '0' <= c <= '9'
  }

  predicate IsPartition(text: string) {
    0 < |text| <= MAX_PARTITION_LEN && forall i :: 0 <= i < |text| ==> IsAlphanumeric(text[i]) || text[i] == '_'
  }

  predicate IsRequestId(text: string) {
    && 0 < |text| <= MAX_REQUEST_ID_LEN
    && forall i :: 0 <= i < |text| ==> IsAlphanumeric(text[i]) || text[i] == '_' || text[i] == '-'
  }

  // ---- Record keys ----

  const GRAPHS_PREFIX := "swale/graphs/"
  const GRAPH_RUNS_PREFIX := "swale/runs/"
  const ASSETS_PREFIX := "swale/assets/"
  const TASKS_PREFIX := "swale/tasks/"
  const REQUESTS_PREFIX := "swale/requests/"
  const EXPIRY_PREFIX := "swale/expiry/"

  function GraphKey(graph: Name): string {
    GRAPHS_PREFIX + graph
  }

  function ParseGraphKey(key: string): Option<Name> {
    if GRAPHS_PREFIX <= key && IsName(key[|GRAPHS_PREFIX|..]) then Some(key[|GRAPHS_PREFIX|..]) else None
  }

  function Slashed(a: string, b: string): string {
    a + ['/'] + b
  }

  function GraphRunKey(graph: Name, partition: string): string {
    GRAPH_RUNS_PREFIX + Slashed(graph, partition)
  }

  /** The text before and after the first `c`. */
  function SplitOnce(s: string, c: char): (parts: Option<(string, string)>)
    ensures parts.Some? ==> s == parts.value.0 + [c] + parts.value.1 && c !in parts.value.0
    ensures parts.None? ==> c !in s
  {
    if s == [] then None
    else if s[0] == c then Some(([], s[1..]))
    else
      match SplitOnce(s[1..], c)
      case None => None
      case Some((a, b)) => Some(([s[0]] + a, b))
  }

  function ParseGraphRunKey(key: string): Option<(Name, string)> {
    if !(GRAPH_RUNS_PREFIX <= key) then None
    else
      match SplitOnce(key[|GRAPH_RUNS_PREFIX|..], '/')
      case Some((graph, partition)) => if IsPartition(partition) then Some((graph, partition)) else None
      case None => None
  }

  function AssetKey(asset: Name, partition: string): string {
    ASSETS_PREFIX + Slashed(asset, partition)
  }

  function TaskKey(graph: Name, partition: string, node: Name): string {
    TASKS_PREFIX + Slashed(graph, Slashed(partition, node))
  }

  function RecordKey(graph: Name, partition: string, node: Name, asset: Option<Name>): string {
    match asset
    case Some(a) => AssetKey(a, partition)
    case None => TaskKey(graph, partition, node)
  }

  function NodeRecordKey(graph: Name, partition: string, node: Node): string {
    RecordKey(graph, partition, node.Name(), node.Asset())
  }

  function RequestKey(id: string): string {
    REQUESTS_PREFIX + id
  }

  // ---- The expiry index ----

  datatype Expiring =
    | ExpiringRun(graph: Name, partition: string)
    | ExpiringRequest(id: string)

  function Suffix(e: Expiring): string {
    match e
    case ExpiringRun(graph, partition) => Slashed("runs", Slashed(graph, partition))
    case ExpiringRequest(id) => Slashed("requests", id)
  }

  function ParseSuffix(suffix: string): Option<Expiring> {
    match SplitOnce(suffix, '/')
    case None => None
    case Some((kind, rest)) =>
      if kind == "runs" then
        match SplitOnce(rest, '/')
        case Some((graph, partition)) => if IsPartition(partition) then Some(ExpiringRun(graph, partition)) else None
        case None => None
      else if kind == "requests" && IsRequestId(rest) then Some(ExpiringRequest(rest))
      else None
  }

  /** What a parsed suffix is: the parts that `split_once` leaves and the constructors accept. */
  predicate IsExpiring(e: Expiring) {
    match e
    case ExpiringRun(graph, partition) => '/' !in graph && IsPartition(partition)
    case ExpiringRequest(id) => IsRequestId(id)
  }

  // ---- Run ids ----

  function Dashed(a: string, b: string): string {
    a + ['-'] + b
  }

  function RunIdText(graph: Name, partition: string, node: Name, rerun: nat): string {
    Dashed(graph, Dashed(partition, Dashed(node, ['r'] + Decimal(rerun))))
  }

  function GroupId(graph: Name, partition: string, node: Name): string {
    Dashed(graph, Dashed(partition, node))
  }

  // ---- Texts with a separator determine their parts ----

  lemma CutIsUnique(a: string, b: string, c: string, d: string, sep: char)
    requires a + [sep] + b == c + [sep] + d && sep !in a && sep !in c
    ensures a == c && b == d
  {
    var s := a + [sep] + b;
    assert s[|a|] == sep && s[|c|] == sep;
    forall i | 0 <= i < |s| && (i < |a| || i < |c|)
      ensures s[i] != sep
    {
      assert i < |a| ==> s[i] == a[i];
      assert i < |c| ==> s[i] == c[i];
    }
    assert s[..|a|] == a && s[..|c|] == c;
    assert s[|a| + 1..] == b && s[|c| + 1..] == d;
  }

  lemma SplitOnceCuts(a: string, b: string, sep: char)
    requires sep !in a
    ensures SplitOnce(a + [sep] + b, sep) == Some((a, b))
  {
    var s := a + [sep] + b;
    assert s[|a|] == sep;
    var parts := SplitOnce(s, sep).value;
    CutIsUnique(a, b, parts.0, parts.1, sep);
  }

  /** A run key is read back as its graph and partition, and no other text is. */
  lemma GraphRunKeyRoundTrip(graph: Name, partition: string, key: string)
    ensures '/' !in graph && IsPartition(partition) ==>
              ParseGraphRunKey(GraphRunKey(graph, partition)) == Some((graph, partition))
    ensures var parsed := ParseGraphRunKey(key);
            parsed.Some? ==> key == GraphRunKey(parsed.value.0, parsed.value.1)
                             && '/' !in parsed.value.0 && IsPartition(parsed.value.1)
  {
    var n := |GRAPH_RUNS_PREFIX|;
    var made := GraphRunKey(graph, partition);
    assert made[n..] == Slashed(graph, partition) && made[..n] == GRAPH_RUNS_PREFIX;
    if '/' !in graph {
      SplitOnceCuts(graph, partition, '/');
    }
    if GRAPH_RUNS_PREFIX <= key {
      assert key == GRAPH_RUNS_PREFIX + key[n..];
    }
  }

  lemma GraphKeyRoundTrip(graph: Name, key: string)
    ensures IsName(graph) ==> ParseGraphKey(GraphKey(graph)) == Some(graph)
    ensures ParseGraphKey(key).Some? ==> key == GraphKey(ParseGraphKey(key).value) && IsName(ParseGraphKey(key).value)
  {
    var n := |GRAPHS_PREFIX|;
    assert GraphKey(graph)[n..] == graph;
    if GRAPHS_PREFIX <= key {
      assert key == GRAPHS_PREFIX + key[n..];
    }
  }

  /** The suffix of an entry is read back as the record it refers to, and no other
      text is. */
  lemma SuffixRoundTrip(e: Expiring, suffix: string)
    ensures IsExpiring(e) ==> ParseSuffix(Suffix(e)) == Some(e)
    ensures ParseSuffix(suffix).Some? ==>
              suffix == Suffix(ParseSuffix(suffix).value) && IsExpiring(ParseSuffix(suffix).value)
  {
    if IsExpiring(e) {
      match e
      case ExpiringRun(graph, partition) =>
        SplitOnceCuts("runs", Slashed(graph, partition), '/');
        SplitOnceCuts(graph, partition, '/');
      case ExpiringRequest(id) =>
        SplitOnceCuts("requests", id, '/');
    }
  }

  lemma SuffixInjective(a: Expiring, b: Expiring)
    requires IsExpiring(a) && IsExpiring(b) && Suffix(a) == Suffix(b)
    ensures a == b
  {
    SuffixRoundTrip(a, Suffix(a));
    SuffixRoundTrip(b, Suffix(b));
  }

  lemma NameHasNo(s: string, c: char)
    requires IsName(s) || IsPartition(s)
    requires c == '/' || c == '-'
    ensures c !in s
  {
  }

  // ---- Record keys are injective ----

  lemma TaskKeyInjective(g: Name, p: string, n: Name, h: Name, q: string, m: Name)
    requires IsName(g) && IsPartition(p) && IsName(n) && IsName(h) && IsPartition(q) && IsName(m)
    requires TaskKey(g, p, n) == TaskKey(h, q, m)
    ensures g == h && p == q && n == m
  {
    NameHasNo(g, '/');
    NameHasNo(h, '/');
    NameHasNo(p, '/');
    NameHasNo(q, '/');
    var k := |TASKS_PREFIX|;
    assert TaskKey(g, p, n)[k..] == Slashed(g, Slashed(p, n));
    assert TaskKey(h, q, m)[k..] == Slashed(h, Slashed(q, m));
    CutIsUnique(g, Slashed(p, n), h, Slashed(q, m), '/');
    CutIsUnique(p, n, q, m, '/');
  }

  lemma AssetKeyInjective(a: Name, p: string, b: Name, q: string)
    requires IsName(a) && IsPartition(p) && IsName(b) && IsPartition(q) && AssetKey(a, p) == AssetKey(b, q)
    ensures a == b && p == q
  {
    NameHasNo(a, '/');
    NameHasNo(b, '/');
    var k := |ASSETS_PREFIX|;
    assert AssetKey(a, p)[k..] == Slashed(a, p);
    assert AssetKey(b, q)[k..] == Slashed(b, q);
    CutIsUnique(a, p, b, q, '/');
  }

  /** The kinds of the stored records by the text between the first two slashes. */
  lemma FamiliesAreDisjoint(a: string, b: string)
    ensures ASSETS_PREFIX + a != TASKS_PREFIX + b
    ensures var families := [GRAPHS_PREFIX, GRAPH_RUNS_PREFIX, ASSETS_PREFIX, TASKS_PREFIX, REQUESTS_PREFIX, EXPIRY_PREFIX];
            forall i, j :: 0 <= i < j < |families| ==> families[i] + a != families[j] + b
  {
    var families := [GRAPHS_PREFIX, GRAPH_RUNS_PREFIX, ASSETS_PREFIX, TASKS_PREFIX, REQUESTS_PREFIX, EXPIRY_PREFIX];
    forall i, j | 0 <= i < j < |families|
      ensures families[i] + a != families[j] + b
    {
      assert (families[i] + a)[6] == families[i][6] && (families[j] + b)[6] == families[j][6];
      assert (families[i] + a)[7] == families[i][7] && (families[j] + b)[7] == families[j][7];
    }
    assert (ASSETS_PREFIX + a)[6] == 'a' && (TASKS_PREFIX + b)[6] == 't';
  }

  /** Two graphs share no asset. */
  ghost predicate SharesNoAsset(g: Graph, h: Graph) {
    forall i, j {:trigger g.nodes[i], h.nodes[j]} ::
      0 <= i < |g.nodes| && 0 <= j < |h.nodes| && g.nodes[i].Asset().Some? ==> g.nodes[i].Asset() != h.nodes[j].Asset()
  }

  /** Graphs that run side by side: one definition for each name, and no shared asset. */
  ghost predicate Compatible(graphs: set<Graph>) {
    forall g, h :: g in graphs && h in graphs && g != h ==> g.name != h.name && SharesNoAsset(g, h)
  }

  /** The key of a node record belongs to one graph, one node and one partition. */
  lemma RecordKeysAreInjective(graphs: set<Graph>, g: Graph, i: nat, p: string, h: Graph, j: nat, q: string)
    requires Compatible(graphs) && g in graphs && h in graphs && IsNamed(g) && IsNamed(h)
    requires g.Indexed() && i < |g.nodes| && j < |h.nodes| && IsPartition(p) && IsPartition(q)
    requires NodeRecordKey(g.name, p, g.nodes[i]) == NodeRecordKey(h.name, q, h.nodes[j])
    ensures g == h && i == j && p == q
  {
    var a, b := g.nodes[i], h.nodes[j];
    assert IsNamedNode(g.name, a) && IsNamedNode(h.name, b);
    if a.Asset().Some? && b.Asset().Some? {
      AssetKeyInjective(a.Asset().value, p, b.Asset().value, q);
    } else if a.Asset().None? && b.Asset().None? {
      TaskKeyInjective(g.name, p, a.Name(), h.name, q, b.Name());
    } else if a.Asset().Some? {
      FamiliesAreDisjoint(Slashed(a.Asset().value, p), Slashed(h.name, Slashed(q, b.Name())));
    } else {
      FamiliesAreDisjoint(Slashed(b.Asset().value, q), Slashed(g.name, Slashed(p, a.Name())));
    }
  }

  /** A node of each graph, and a partition of each, with the same record key. */
  ghost predicate ShareAKey(g: Graph, h: Graph) {
    exists i, j, p, q {:trigger NodeRecordKey(g.name, p, g.nodes[i]), NodeRecordKey(h.name, q, h.nodes[j])} ::
      && 0 <= i < |g.nodes| && 0 <= j < |h.nodes| && IsPartition(p) && IsPartition(q)
      && NodeRecordKey(g.name, p, g.nodes[i]) == NodeRecordKey(h.name, q, h.nodes[j])
  }

  /** Two graphs of different names share a record key exactly when they share an asset. */
  lemma KeysAreSharedExactly(g: Graph, h: Graph)
    requires IsNamed(g) && IsNamed(h) && g.Indexed() && h.Indexed() && g.name != h.name
    ensures ShareAKey(g, h) <==> !SharesNoAsset(g, h)
  {
    hide IsNamed, ShareAKey, SharesNoAsset;
    if SharesNoAsset(g, h) {
      NoAssetNoKey(g, h);
    } else {
      AssetGivesKey(g, h);
    }
  }

  lemma NoAssetNoKey(g: Graph, h: Graph)
    requires IsNamed(g) && IsNamed(h) && g.Indexed() && h.Indexed() && g.name != h.name && SharesNoAsset(g, h)
    ensures !ShareAKey(g, h)
  {
    hide NodeRecordKey, IsNamed, IsPartition;
    SharesNoAssetIsSymmetric(g, h);
    forall i, j, p, q {:trigger NodeRecordKey(g.name, p, g.nodes[i]), NodeRecordKey(h.name, q, h.nodes[j])} |
      0 <= i < |g.nodes| && 0 <= j < |h.nodes| && IsPartition(p) && IsPartition(q)
      ensures NodeRecordKey(g.name, p, g.nodes[i]) != NodeRecordKey(h.name, q, h.nodes[j])
    {
      if NodeRecordKey(g.name, p, g.nodes[i]) == NodeRecordKey(h.name, q, h.nodes[j]) {
        RecordKeysAreInjective({g, h}, g, i, p, h, j, q);
      }
    }
  }

  lemma AssetGivesKey(g: Graph, h: Graph)
    requires !SharesNoAsset(g, h)
    ensures ShareAKey(g, h)
  {
    var i, j :| 0 <= i < |g.nodes| && 0 <= j < |h.nodes| && g.nodes[i].Asset().Some?
                && g.nodes[i].Asset() == h.nodes[j].Asset();
    assert IsPartition("none");
    assert NodeRecordKey(g.name, "none", g.nodes[i]) == NodeRecordKey(h.name, "none", h.nodes[j]);
  }

  lemma SharesNoAssetIsSymmetric(g: Graph, h: Graph)
    ensures SharesNoAsset(g, h) <==> SharesNoAsset(h, g)
  {
  }

  // ---- Run ids are injective and short enough ----

  lemma RunIdsAreInjective(g: Name, p: string, n: Name, r: nat, h: Name, q: string, m: Name, s: nat)
    requires IsName(g) && IsPartition(p) && IsName(n) && IsName(h) && IsPartition(q) && IsName(m)
    ensures RunIdText(g, p, n, r) == RunIdText(h, q, m, s) ==> g == h && p == q && n == m && r == s
    ensures GroupId(g, p, n) == GroupId(h, q, m) ==> g == h && p == q && n == m
    ensures RunIdText(g, p, n, r) != GroupId(h, q, m)
  {
    NameHasNo(g, '-');
    NameHasNo(h, '-');
    NameHasNo(p, '-');
    NameHasNo(q, '-');
    NameHasNo(n, '-');
    NameHasNo(m, '-');
    var x, y := ['r'] + Decimal(r), ['r'] + Decimal(s);
    if RunIdText(g, p, n, r) == RunIdText(h, q, m, s) {
      CutIsUnique(g, Dashed(p, Dashed(n, x)), h, Dashed(q, Dashed(m, y)), '-');
      CutIsUnique(p, Dashed(n, x), q, Dashed(m, y), '-');
      CutIsUnique(n, x, m, y, '-');
      assert x[1..] == Decimal(r) && y[1..] == Decimal(s);
      DecimalInjective(r, s);
    }
    if GroupId(g, p, n) == GroupId(h, q, m) {
      CutIsUnique(g, Dashed(p, n), h, Dashed(q, m), '-');
      CutIsUnique(p, n, q, m, '-');
    }
    assert Dashed(n, x)[|n|] == '-';
    if RunIdText(g, p, n, r) == GroupId(h, q, m) {
      CutIsUnique(g, Dashed(p, Dashed(n, x)), h, Dashed(q, m), '-');
      CutIsUnique(p, Dashed(n, x), q, m, '-');
    }
  }

  lemma {:induction false} DecimalIsShort(n: nat, digits: nat)
    requires n < PowerOfTen(digits) && digits > 0
    ensures |Decimal(n)| <= digits
  {
    if n >= 10 {
      DecimalIsShort(n / 10, digits - 1);
    }
  }

  function PowerOfTen(n: nat): nat {
    if n == 0 then 1 else 10 * PowerOfTen(n - 1)
  }

  lemma TenDigits()
    ensures PowerOfTen(10) == 10_000_000_000
  {
    assert PowerOfTen(5) == 100_000;
  }

  /** The bound on the names keeps every run id within the cap of the runtime. */
  lemma RunIdsFit(g: Graph, i: nat, partition: string, rerun: nat)
    requires IsNamed(g) && i < |g.nodes| && IsPartition(partition) && rerun < U32_END
    ensures |RunIdText(g.name, partition, g.nodes[i].Name(), rerun)| <= MAX_RUN_ID_LEN
    ensures |GroupId(g.name, partition, g.nodes[i].Name())| <= MAX_RUN_ID_LEN
  {
    assert IsNamedNode(g.name, g.nodes[i]);
    TenDigits();
    DecimalIsShort(rerun, 10);
  }

  // ---- Identities as headers ----

  datatype TaskIdentity = TaskIdentity(
    graph: Name,
    partition: string,
    node: Name,
    asset: Option<Name>,
    definition: string,
    rerun: nat)

  datatype IdentityError = MissingHeader(header: string) | InvalidPartition(text: string) | InvalidRerun(text: string)

  const HEADER_GRAPH := "swale.graph"
  const HEADER_PARTITION := "swale.partition"
  const HEADER_NODE := "swale.node"
  const HEADER_ASSET := "swale.asset"
  const HEADER_DEFINITION := "swale.definition"
  const HEADER_RERUN := "swale.rerun"
  const HEADER_GROUP := "swale.group"

  function Headers(t: TaskIdentity): map<string, string> {
    var headers := map[
      HEADER_GRAPH := t.graph,
      HEADER_PARTITION := t.partition,
      HEADER_NODE := t.node,
      HEADER_DEFINITION := t.definition,
      HEADER_RERUN := Decimal(t.rerun)];
    if t.asset.Some? then headers[HEADER_ASSET := t.asset.value] else headers
  }

  /** A count of 32 bits, parsed as an index of that width. */
  function ParseCount(text: string): Option<nat> {
    match ParseIndex(text)
    case Some(n) => if n < U32_END then Some(n) else None
    case None => None
  }

  function FromHeaders(headers: map<string, string>): Result<TaskIdentity, IdentityError> {
    if HEADER_RERUN !in headers then Err(MissingHeader(HEADER_RERUN))
    else if HEADER_GRAPH !in headers then Err(MissingHeader(HEADER_GRAPH))
    else if HEADER_PARTITION !in headers then Err(MissingHeader(HEADER_PARTITION))
    else if !IsPartition(headers[HEADER_PARTITION]) then Err(InvalidPartition(headers[HEADER_PARTITION]))
    else if HEADER_NODE !in headers then Err(MissingHeader(HEADER_NODE))
    else if HEADER_DEFINITION !in headers then Err(MissingHeader(HEADER_DEFINITION))
    else
      match ParseCount(headers[HEADER_RERUN])
      case None => Err(InvalidRerun(headers[HEADER_RERUN]))
      case Some(rerun) =>
        Ok(TaskIdentity(headers[HEADER_GRAPH], headers[HEADER_PARTITION], headers[HEADER_NODE],
                        if HEADER_ASSET in headers then Some(headers[HEADER_ASSET]) else None,
                        headers[HEADER_DEFINITION], rerun))
  }

  /** The headers of a run identify its task instance, also on a member, which has
      the group header besides. */
  lemma HeadersRoundTrip(t: TaskIdentity, group: string)
    requires IsPartition(t.partition) && t.rerun < U32_END
    ensures FromHeaders(Headers(t)) == Ok(t)
    ensures FromHeaders(Headers(t)[HEADER_GROUP := group]) == Ok(t)
  {
    ParseDecimal(t.rerun);
    HeaderNamesDiffer();
  }

  lemma HeaderNamesDiffer()
    ensures var names := [HEADER_GRAPH, HEADER_PARTITION, HEADER_NODE, HEADER_ASSET, HEADER_DEFINITION, HEADER_RERUN, HEADER_GROUP];
            forall i, j :: 0 <= i < j < |names| ==> names[i] != names[j]
  {
    assert HEADER_GRAPH[6..8] == "gr" && HEADER_PARTITION[6] == 'p' && HEADER_NODE[6] == 'n' && HEADER_ASSET[6] == 'a';
    assert HEADER_DEFINITION[6] == 'd' && HEADER_RERUN[6] == 'r' && HEADER_GROUP[6..8] == "gr" && |HEADER_GRAPH| == |HEADER_GROUP|;
    assert HEADER_GRAPH[8] == 'a' && HEADER_GROUP[8] == 'o';
  }
}

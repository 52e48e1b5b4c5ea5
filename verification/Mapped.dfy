/** What a mapped node makes of the results of its members, and how long it waits for
    them (swale/src/dispatch.rs). */
module Mapped {
  import opened Wrappers
  import opened Json
  import opened Text
  import opened Graphs
  import opened TaskInput
  import opened RunGroups

  // ---- The output of a mapped node ----

  const USIZE_MAX: nat := 0xFFFF_FFFF_FFFF_FFFF

  datatype NoOutputs =
    | SomeFailed(count: nat, total: nat, first: string, error: string)
    | ResultRemoved

  function Position(r: MemberResult): nat {
    match ParseIndex(r.key)
    case Some(position) => position
    case None => USIZE_MAX
  }

  /** A stable sort by position. */
  function Sorted(results: seq<MemberResult>): (s: seq<MemberResult>)
    ensures |s| == |results|
  {
    if results == [] then [] else Inserted(Sorted(results[1..]), results[0])
  }

  function Inserted(s: seq<MemberResult>, r: MemberResult): (t: seq<MemberResult>)
    ensures |t| == |s| + 1
  {
    if s == [] || Position(r) <= Position(s[0]) then [r] + s else [s[0]] + Inserted(s[1..], r)
  }

  function Unsucceeded(results: seq<MemberResult>): (failed: seq<MemberResult>) {
    if results == [] then []
    else
      var last := results[|results| - 1];
      Unsucceeded(results[..|results| - 1]) + (if last.status != Succeeded then [last] else [])
  }

  function ErrorOf(r: MemberResult): string {
    match r.error
    case Some(error) => error
    case None => if r.status == Cancelled then "cancelled" else "failed"
  }

  function Values(results: seq<MemberResult>): Result<seq<Value>, NoOutputs> {
    if results == [] then Ok([])
    else
      var last := results[|results| - 1];
      match Values(results[..|results| - 1])
      case Err(error) => Err(error)
      case Ok(values) =>
        if last.outcome == None then Err(ResultRemoved)
        else Ok(values + [if last.outcome.value.Some? then last.outcome.value.value else Null])
  }

  function Gathered(members: seq<MemberResult>): Result<Value, NoOutputs> {
    var failed := Unsucceeded(members);
    if failed != []
    then Err(SomeFailed(|failed|, |members|, failed[0].key, ErrorOf(failed[0])))
    else
      match Values(members)
      case Err(error) => Err(error)
      case Ok(values) => Ok(Array(values))
  }

  /** What results in any order amount to: sorted by position, then gathered. */
  function MemberOutputs(results: seq<MemberResult>): Result<Value, NoOutputs> {
    Gathered(Sorted(results))
  }

  // ---- The order of the results does not matter ----

  ghost predicate Ascending(s: seq<MemberResult>) {
    forall i, j :: 0 <= i < j < |s| ==> Position(s[i]) <= Position(s[j])
  }

  lemma {:induction false} InsertedIsSorted(s: seq<MemberResult>, r: MemberResult)
    requires Ascending(s)
    ensures multiset(Inserted(s, r)) == multiset(s) + multiset{r} && Ascending(Inserted(s, r))
  {
    hide Position;
    if s == [] || Position(r) <= Position(s[0]) {
    } else {
      InsertedIsSorted(s[1..], r);
      var t := Inserted(s[1..], r);
      assert s == [s[0]] + s[1..];
      forall j | 0 <= j < |t|
        ensures Position(s[0]) <= Position(t[j])
      {
        assert t[j] in multiset(t);
        assert t[j] == r || t[j] in s[1..];
      }
      PrependAscending(s[0], t);
    }
  }

  lemma PrependAscending(r: MemberResult, t: seq<MemberResult>)
    requires Ascending(t) && forall j :: 0 <= j < |t| ==> Position(r) <= Position(t[j])
    ensures Ascending([r] + t)
  {
    hide Position;
  }

  lemma {:induction false} SortedIsSorted(results: seq<MemberResult>)
    ensures multiset(Sorted(results)) == multiset(results) && Ascending(Sorted(results))
  {
    hide Position, Inserted;
    if results != [] {
      SortedIsSorted(results[1..]);
      InsertedIsSorted(Sorted(results[1..]), results[0]);
      assert results == [results[0]] + results[1..];
    }
  }

  ghost predicate Increasing(s: seq<MemberResult>) {
    forall i, j :: 0 <= i < j < |s| ==> Position(s[i]) < Position(s[j])
  }

  lemma FirstOfOrders(s: seq<MemberResult>, t: seq<MemberResult>)
    requires multiset(s) == multiset(t) && s != [] && t != [] && Ascending(s) && Increasing(t)
    ensures s[0] == t[0]
  {
    hide Position;
    assert s[0] in multiset(t) && t[0] in multiset(s);
    var i :| 0 <= i < |s| && s[i] == t[0];
    var j :| 0 <= j < |t| && t[j] == s[0];
  }

  lemma SameTails(s: seq<MemberResult>, t: seq<MemberResult>)
    requires multiset(s) == multiset(t) && s != [] && t != [] && s[0] == t[0]
    ensures multiset(s[1..]) == multiset(t[1..])
  {
    assert s == [s[0]] + s[1..] && t == [t[0]] + t[1..];
    assert multiset(s[1..]) == multiset(s) - multiset{s[0]};
    assert multiset(t[1..]) == multiset(t) - multiset{t[0]};
  }

  /** A list whose positions increase is the only ascending order of its elements. */
  lemma {:induction false} OrderIsUnique(s: seq<MemberResult>, t: seq<MemberResult>)
    requires multiset(s) == multiset(t) && Ascending(s) && Increasing(t)
    ensures s == t
  {
    hide Position;
    assert |s| == |multiset(s)| == |multiset(t)| == |t|;
    if s != [] {
      FirstOfOrders(s, t);
      SameTails(s, t);
      OrderIsUnique(s[1..], t[1..]);
      assert s == [s[0]] + s[1..] && t == [t[0]] + t[1..];
    }
  }

  /** Each key is the decimal text of its position. */
  ghost predicate IsKeyed(g: Group) {
    |g| <= USIZE_MAX && forall i :: 0 <= i < |g| ==> g[i].key == Decimal(i)
  }

  /** Whatever order the results of a group are listed in, its members are
      gathered in item order. */
  lemma OutputsIgnoreOrder(g: Group, results: seq<MemberResult>)
    requires IsKeyed(g) && NoActive(g) && multiset(results) == multiset(ResultsOf(g))
    ensures MemberOutputs(results) == Gathered(ResultsOf(g))
  {
    SortedIsSorted(results);
    var listed := ResultsOf(g);
    forall i | 0 <= i < |listed|
      ensures Position(listed[i]) == i
    {
      ParseDecimal(i);
    }
    OrderIsUnique(Sorted(results), listed);
  }

  function OutputOf(m: Member): Value
    requires m.status.Ended?
  {
    if m.status.result.Some? then m.status.result.value else Null
  }

  predicate HasOutput(m: Member) {
    m.status.Ended? && m.status.status == Succeeded && m.status.kept
  }

  ghost predicate IsOutput(g: Group, output: Value) {
    && output.Array? && |output.items| == |g|
    && forall i :: 0 <= i < |g| ==> HasOutput(g[i]) && output.items[i] == OutputOf(g[i])
  }

  ghost predicate IsFirstUnsucceeded(results: seq<MemberResult>, i: nat) {
    && i < |results| && results[i].status != Succeeded
    && forall j :: 0 <= j < i ==> results[j].status == Succeeded
  }

  ghost function UnsucceededAt(results: seq<MemberResult>): set<nat> {
    set i: nat | i < |results| && results[i].status != Succeeded
  }

  lemma {:induction false} UnsucceededCounts(results: seq<MemberResult>)
    ensures |Unsucceeded(results)| == |UnsucceededAt(results)|
    ensures Unsucceeded(results) == [] <==> forall i :: 0 <= i < |results| ==> results[i].status == Succeeded
  {
    if results != [] {
      var n := |results| - 1;
      var front := results[..n];
      UnsucceededCounts(front);
      assert UnsucceededAt(results) ==
        UnsucceededAt(front) + if results[n].status != Succeeded then {n} else {};
      assert forall i :: 0 <= i < n ==> results[i] == front[i];
    }
  }

  lemma {:induction false} FirstUnsucceeded(results: seq<MemberResult>) returns (first: nat)
    requires Unsucceeded(results) != []
    ensures IsFirstUnsucceeded(results, first) && Unsucceeded(results)[0] == results[first]
  {
    var n := |results| - 1;
    var front := results[..n];
    UnsucceededCounts(front);
    if Unsucceeded(front) != [] {
      first := FirstUnsucceeded(front);
    } else {
      first := n;
      assert forall i :: 0 <= i < n ==> results[i] == front[i];
    }
  }

  lemma {:induction false} ValuesInOrder(results: seq<MemberResult>)
    ensures var values := Values(results);
            && (values.Err? <==> exists i :: 0 <= i < |results| && results[i].outcome == None)
            && (values.Err? ==> values.error == ResultRemoved)
    ensures Values(results).Ok? ==> |Values(results).value| == |results|
    ensures Values(results).Ok? ==> forall i :: 0 <= i < |results| ==>
              Values(results).value[i] ==
              if results[i].outcome.value.Some? then results[i].outcome.value.value else Null
  {
    if results != [] {
      var front := results[..|results| - 1];
      ValuesInOrder(front);
      assert forall i :: 0 <= i < |front| ==> results[i] == front[i];
    }
  }

  ghost predicate AllHaveOutput(g: Group) {
    forall i :: 0 <= i < |g| ==> HasOutput(g[i])
  }

  ghost predicate SomeUnsucceeded(g: Group) {
    exists i :: 0 <= i < |g| && g[i].status.Ended? && g[i].status.status != Succeeded
  }

  /** The failure names the count of the members of `g` that did not succeed and the
      first of them in item order. */
  ghost predicate IsFailureOf(g: Group, error: NoOutputs) {
    && error.SomeFailed? && NoActive(g) && error.total == |g|
    && error.count == |UnsucceededAt(ResultsOf(g))|
    && exists i: nat :: IsFirstUnsucceeded(ResultsOf(g), i)
         && error.first == g[i].key && error.error == ErrorOf(ResultOf(g[i]))
  }

  /** What an ended group gives: its outputs in item order exactly when every member
      succeeded and kept its result; the failure exactly when a member did not succeed. */
  lemma GatheredOutputs(g: Group)
    requires NoActive(g)
    ensures var r := Gathered(ResultsOf(g));
            && (r.Ok? <==> AllHaveOutput(g))
            && (r.Ok? ==> IsOutput(g, r.value))
            && (r.Err? && r.error.SomeFailed? <==> SomeUnsucceeded(g))
            && (r.Err? && r.error.SomeFailed? ==> IsFailureOf(g, r.error))
  {
    var listed := ResultsOf(g);
    UnsucceededCounts(listed);
    ValuesInOrder(listed);
    if Unsucceeded(listed) != [] {
      var first := FirstUnsucceeded(listed);
      assert listed[first] == ResultOf(g[first]);
      assert SomeUnsucceeded(g);
    } else {
      forall i | 0 <= i < |g|
        ensures g[i].status.status == Succeeded
        ensures HasOutput(g[i]) <==> listed[i].outcome != None
      {
        assert listed[i] == ResultOf(g[i]);
      }
    }
  }

  // ---- The delays between two reads ----

  // A duration in nanoseconds: 64 bits of seconds and the nanoseconds below one.
  const DURATION_MAX: nat := 0x1_0000_0000_0000_0000 * 1_000_000_000 - 1
  const U32_MAX: nat := 0xFFFF_FFFF

  type Duration = d: nat | d <= DURATION_MAX

  function Min(a: nat, b: nat): nat {
    if a <= b then a else b
  }

  function Max(a: Duration, b: Duration): Duration {
    if a <= b then b else a
  }

  function PowerOfTwo(n: nat): (p: nat)
    ensures p > 0
  {
    if n == 0 then 1 else 2 * PowerOfTwo(n - 1)
  }

  datatype PollDelays = PollDelays(interval: Duration, maxInterval: Duration) {
    function Cap(): Duration {
      Max(maxInterval, interval)
    }

    /** The time before the read that follows `polls` reads, with both saturations. */
    function Delay(polls: nat): Duration {
      Min(Min(DURATION_MAX, interval * Min(U32_MAX, PowerOfTwo(polls))), Cap())
    }

    /** The delay as the documentation states it: doubled at each read, up to the cap. */
    function Doubled(polls: nat): nat {
      Min(interval * PowerOfTwo(polls), Cap())
    }
  }

  lemma {:induction false} PowersGrow(m: nat, n: nat)
    requires m <= n
    ensures PowerOfTwo(m) <= PowerOfTwo(n)
    decreases n - m
  {
    if m < n {
      PowersGrow(m, n - 1);
    }
  }

  lemma ProductGrows(d: nat, a: nat, b: nat)
    requires a <= b
    ensures d * a <= d * b
  {
  }

  lemma DelayIsBounded(delays: PollDelays, m: nat, n: nat)
    requires m <= n
    ensures delays.interval <= delays.Delay(m) <= delays.Delay(n) <= delays.Cap()
    ensures delays.Delay(0) == delays.interval
  {
    PowersGrow(m, n);
    ProductGrows(delays.interval, Min(U32_MAX, PowerOfTwo(m)), Min(U32_MAX, PowerOfTwo(n)));
    ProductGrows(delays.interval, 1, Min(U32_MAX, PowerOfTwo(m)));
  }

  lemma PowerOf32()
    ensures PowerOfTwo(32) == U32_MAX + 1
  {
    assert PowerOfTwo(8) == 256;
    assert PowerOfTwo(16) == 65536 by {
      assert PowerOfTwo(12) == 4096;
    }
    assert PowerOfTwo(24) == 0x100_0000 by {
      assert PowerOfTwo(20) == 0x10_0000;
    }
    assert PowerOfTwo(28) == 0x1000_0000;
  }

  /** The delay doubles up to the cap exactly when the cap is within the range of the
      saturated power; an interval too short for its cap stops below it. */
  lemma DelayDoublesUnlessSaturated(delays: PollDelays)
    ensures (forall polls: nat :: delays.Delay(polls) == delays.Doubled(polls))
            <==> delays.interval == 0 || delays.Cap() <= delays.interval * U32_MAX
  {
    PowerOf32();
    var d, cap := delays.interval, delays.Cap();
    if d == 0 || cap <= d * U32_MAX {
      forall polls: nat
        ensures delays.Delay(polls) == delays.Doubled(polls)
      {
        if polls >= 32 {
          PowersGrow(32, polls);
          ProductGrows(d, U32_MAX, PowerOfTwo(polls));
        } else {
          PowersBelow(polls);
        }
      }
    } else {
      assert delays.Delay(32) == d * U32_MAX < delays.Doubled(32) by {
        assert d * (U32_MAX + 1) == d * U32_MAX + d;
      }
    }
  }

  lemma PowersBelow(polls: nat)
    requires polls < 32
    ensures PowerOfTwo(polls) <= U32_MAX
  {
    PowerOf32();
    PowersGrow(polls, 31);
  }
}

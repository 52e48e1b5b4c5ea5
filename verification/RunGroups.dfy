/** The run groups of the workflow runtime, as the runner of a mapped node uses
    them (swale/src/dispatch.rs:13-34, 226-303). The runtime itself is not part of
    this model: its calls are specified by what the runner relies on. */
module RunGroups {
  import opened Wrappers
  import opened Json
  import opened TaskInput

  datatype TerminalStatus = Succeeded | Failed | Cancelled

  /** The state of a member; `kept` tells whether its run result record is still there. */
  datatype MemberStatus =
    | Active(cancelling: bool)
    | Ended(status: TerminalStatus, error: Option<string>, result: Option<Value>, kept: bool)

  datatype GroupMember = GroupMember(key: string, input: TaskInput)

  datatype Member = Member(key: string, input: TaskInput, status: MemberStatus)

  type Group = seq<Member>

  datatype MemberResult = MemberResult(
    key: string,
    status: TerminalStatus,
    error: Option<string>,
    outcome: Option<Option<Value>>)

  datatype GroupStatus = GroupStatus(total: nat, pending: nat, succeeded: nat, failed: nat, cancelled: nat)

  datatype GroupError = GroupMismatch | GroupNotFound | RuntimeError(permanent: bool)

  /** What the runtime does around one call: the members that end and the result
      records that are removed before it, whether its answer is lost before or after
      its effect, and the order in which results are listed. */
  datatype Fate = Fate(events: seq<Event>, failure: Failure, order: seq<nat>)

  datatype Event =
    | Ends(at: nat, status: TerminalStatus, error: Option<string>, result: Option<Value>)
    | RemovesResult(at: nat)

  datatype Failure = Answers | FailsBefore(permanent: bool) | FailsAfter(permanent: bool)

  const QUIET := Fate([], Answers, [])

  // ---- What the calls do ----

  ghost predicate NoActive(g: Group) {
    forall i :: 0 <= i < |g| ==> g[i].status.Ended?
  }

  predicate HasMembers(g: Group, members: seq<GroupMember>) {
    && |g| == |members|
    && forall i :: 0 <= i < |g| ==> g[i].key == members[i].key && g[i].input == members[i].input
  }

  /** A submit is accepted for a new group and for the members the group already has. */
  predicate Accepts(stored: Option<Group>, members: seq<GroupMember>) {
    stored.Some? ==> HasMembers(stored.value, members)
  }

  function Resumed(m: Member): Member {
    if m.status.Ended? && m.status.status != Succeeded then m.(status := Active(false)) else m
  }

  /** A submit starts the members of a new group and those that did not succeed. */
  function Submitted(stored: Option<Group>, members: seq<GroupMember>): (g: Group)
    requires Accepts(stored, members)
    ensures HasMembers(g, members)
  {
    match stored
    case None => seq(|members|, i requires 0 <= i < |members| =>
      Member(members[i].key, members[i].input, Active(false)))
    case Some(g) => seq(|g|, i requires 0 <= i < |g| => Resumed(g[i]))
  }

  function Cancelling(g: Group): (c: Group)
    ensures |c| == |g|
  {
    seq(|g|, i requires 0 <= i < |g| => if g[i].status.Active? then g[i].(status := Active(true)) else g[i])
  }

  function StatusOf(g: Group): (s: GroupStatus)
    ensures s.total == |g| == s.pending + s.succeeded + s.failed + s.cancelled
  {
    if g == [] then GroupStatus(0, 0, 0, 0, 0)
    else
      var rest := StatusOf(g[..|g| - 1]);
      var s := rest.(total := rest.total + 1);
      match g[|g| - 1].status
      case Active(_) => s.(pending := s.pending + 1)
      case Ended(Succeeded, _, _, _) => s.(succeeded := s.succeeded + 1)
      case Ended(Failed, _, _, _) => s.(failed := s.failed + 1)
      case Ended(Cancelled, _, _, _) => s.(cancelled := s.cancelled + 1)
  }

  lemma {:induction false} NothingPending(g: Group)
    ensures StatusOf(g).pending == 0 <==> NoActive(g)
  {
    if g != [] {
      var front := g[..|g| - 1];
      NothingPending(front);
      if NoActive(front) && g[|g| - 1].status.Ended? {
        forall i | 0 <= i < |g|
          ensures g[i].status.Ended?
        {
          assert i < |front| ==> front[i] == g[i];
        }
      }
      if NoActive(g) {
        forall i | 0 <= i < |front|
          ensures front[i].status.Ended?
        {
          assert front[i] == g[i];
        }
      }
    }
  }

  function ResultOf(m: Member): MemberResult
    requires m.status.Ended?
  {
    MemberResult(m.key, m.status.status, m.status.error, if m.status.kept then Some(m.status.result) else None)
  }

  /** The results of the ended members, in item order. */
  function ResultsOf(g: Group): (results: seq<MemberResult>)
    ensures NoActive(g) ==> |results| == |g| && forall i :: 0 <= i < |g| ==> results[i] == ResultOf(g[i])
  {
    if g == [] then []
    else
      assert forall i :: 0 <= i < |g| - 1 ==> g[..|g| - 1][i] == g[i];
      ResultsOf(g[..|g| - 1]) + (if g[|g| - 1].status.Ended? then [ResultOf(g[|g| - 1])] else [])
  }

  // ---- What happens between the calls ----

  /** A member ends once; the result record of a succeeded member may be removed. */
  ghost predicate MemberLater(a: Member, b: Member) {
    && a.key == b.key && a.input == b.input
    && (a.status.Active? ==> b.status == a.status || b.status.Ended?)
    && (a.status.Ended? ==>
          b.status == a.status
          || (a.status.status == Succeeded && b.status == a.status.(kept := false)))
  }

  ghost predicate GroupLater(a: Group, b: Group) {
    |a| == |b| && forall i :: 0 <= i < |a| ==> MemberLater(a[i], b[i])
  }

  ghost predicate Later(a: Option<Group>, b: Option<Group>) {
    if a.None? then b.None? else b.Some? && GroupLater(a.value, b.value)
  }

  lemma GroupLaterTransitive(a: Group, b: Group, c: Group)
    requires GroupLater(a, b) && GroupLater(b, c)
    ensures GroupLater(a, c)
  {
    forall i | 0 <= i < |a|
      ensures MemberLater(a[i], c[i])
    {
      assert MemberLater(a[i], b[i]) && MemberLater(b[i], c[i]);
    }
  }

  lemma LaterTransitive(a: Option<Group>, b: Option<Group>, c: Option<Group>)
    requires Later(a, b) && Later(b, c)
    ensures Later(a, c)
  {
    if a.Some? {
      GroupLaterTransitive(a.value, b.value, c.value);
    }
  }

  /** A group without an active member keeps having none. */
  lemma NoActiveStays(a: Group, b: Group)
    requires GroupLater(a, b) && NoActive(a)
    ensures NoActive(b)
  {
    forall i | 0 <= i < |b|
      ensures b[i].status.Ended?
    {
      assert MemberLater(a[i], b[i]);
    }
  }

  function Changed(g: Group, event: Event): (c: Group)
    ensures GroupLater(g, c)
  {
    match event
    case Ends(at, status, error, result) =>
      if at < |g| && g[at].status.Active?
      then g[at := g[at].(status := Ended(status, error, result, true))]
      else g
    case RemovesResult(at) =>
      if at < |g| && g[at].status.Ended? && g[at].status.status == Succeeded
      then g[at := g[at].(status := g[at].status.(kept := false))]
      else g
  }

  /** A group after the events, in turn. */
  method After(g: Group, events: seq<Event>) returns (later: Group)
    ensures GroupLater(g, later)
  {
    later := g;
    for k := 0 to |events|
      invariant GroupLater(g, later)
    {
      var was := later;
      later := Changed(was, events[k]);
      GroupLaterTransitive(g, was, later);
    }
  }

  /** The stored group of one mapped node. */
  class RunGroup {
    var stored: Option<Group>
    var fates: seq<Fate>

    constructor (stored: Option<Group>, fates: seq<Fate>)
      ensures this.stored == stored && this.fates == fates
    {
      this.stored := stored;
      this.fates := fates;
    }

    /** The time up to a call. */
    method Elapse() returns (fate: Fate)
      modifies this
      ensures Later(old(stored), stored)
      ensures fates == if old(fates) == [] then [] else old(fates)[1..]
      ensures old(fates) == [] ==> fate == QUIET && stored == old(stored)
    {
      fate := QUIET;
      if fates != [] {
        fate := fates[0];
        fates := fates[1..];
        if stored.Some? {
          var g := After(stored.value, fate.events);
          stored := Some(g);
        }
      }
    }

    method Submit(members: seq<GroupMember>) returns (r: Result<(), GroupError>, ghost seen: Option<Group>)
      modifies this
      ensures Later(old(stored), seen)
      ensures r.Ok? ==> Accepts(seen, members) && stored == Some(Submitted(seen, members))
      ensures r.Err? && r.error.GroupMismatch? ==> !Accepts(seen, members) && stored == seen
      ensures r.Err? && r.error.RuntimeError? ==>
                stored == seen || (Accepts(seen, members) && stored == Some(Submitted(seen, members)))
      ensures r.Err? ==> !r.error.GroupNotFound?
      ensures old(fates) == [] ==>
                seen == old(stored) && fates == []
                && r == if Accepts(seen, members) then Ok(()) else Err(GroupMismatch)
    {
      var fate := Elapse();
      seen := stored;
      if fate.failure.FailsBefore? {
        return Err(RuntimeError(fate.failure.permanent)), seen;
      }
      if !Accepts(stored, members) {
        return Err(GroupMismatch), seen;
      }
      stored := Some(Submitted(stored, members));
      r := if fate.failure.FailsAfter? then Err(RuntimeError(fate.failure.permanent)) else Ok(());
    }

    method Status() returns (r: Result<GroupStatus, GroupError>)
      modifies this
      ensures Later(old(stored), stored)
      ensures r.Ok? ==> stored.Some? && r.value == StatusOf(stored.value)
      ensures r.Err? && r.error.GroupNotFound? ==> stored.None?
      ensures r.Err? ==> !r.error.GroupMismatch?
      ensures old(fates) == [] ==>
                stored == old(stored) && fates == []
                && r == if stored.Some? then Ok(StatusOf(stored.value)) else Err(GroupNotFound)
    {
      var fate := Elapse();
      if !fate.failure.Answers? {
        return Err(RuntimeError(fate.failure.permanent));
      }
      r := if stored.Some? then Ok(StatusOf(stored.value)) else Err(GroupNotFound);
    }

    /** Asks the active members to end; they end later. */
    method Cancel() returns (r: Result<(), GroupError>, ghost seen: Option<Group>)
      modifies this
      ensures Later(old(stored), seen)
      ensures r.Ok? ==> seen.Some? && stored == Some(Cancelling(seen.value))
      ensures r.Err? && r.error.GroupNotFound? ==> seen.None? && stored.None?
      ensures r.Err? && r.error.RuntimeError? ==>
                stored == seen || (seen.Some? && stored == Some(Cancelling(seen.value)))
      ensures r.Err? ==> !r.error.GroupMismatch?
      ensures old(fates) == [] ==>
                seen == old(stored) && fates == []
                && r == if seen.Some? then Ok(()) else Err(GroupNotFound)
    {
      var fate := Elapse();
      seen := stored;
      if fate.failure.FailsBefore? {
        return Err(RuntimeError(fate.failure.permanent)), seen;
      }
      if stored.None? {
        return Err(GroupNotFound), seen;
      }
      stored := Some(Cancelling(stored.value));
      r := if fate.failure.FailsAfter? then Err(RuntimeError(fate.failure.permanent)) else Ok(());
    }

    /** Removes the group. Its callers owe that no member is active. */
    method Forget() returns (r: Result<(), GroupError>)
      requires stored.Some? ==> NoActive(stored.value)
      modifies this
      ensures r.Ok? ==> stored.None?
      ensures r.Err? ==> r.error.RuntimeError? && (stored.None? || Later(old(stored), stored))
      ensures old(fates) == [] ==> r.Ok? && fates == []
    {
      var fate := Elapse();
      if fate.failure.FailsBefore? {
        return Err(RuntimeError(fate.failure.permanent));
      }
      stored := None;
      r := if fate.failure.FailsAfter? then Err(RuntimeError(fate.failure.permanent)) else Ok(());
    }

    /** The results of the ended members, in no particular order. */
    method Results() returns (r: Result<seq<MemberResult>, GroupError>)
      modifies this
      ensures Later(old(stored), stored)
      ensures r.Ok? ==> stored.Some? && multiset(r.value) == multiset(ResultsOf(stored.value))
      ensures r.Err? ==> !r.error.GroupMismatch?
      ensures old(fates) == [] ==>
                stored == old(stored) && fates == []
                && (if stored.Some? then r == Ok(ResultsOf(stored.value)) else r == Err(GroupNotFound))
    {
      var fate := Elapse();
      if !fate.failure.Answers? {
        return Err(RuntimeError(fate.failure.permanent));
      }
      if stored.None? {
        return Err(GroupNotFound);
      }
      var results := Shuffled(ResultsOf(stored.value), fate.order);
      r := Ok(results);
    }
  }

  /** The results drawn one at a time, `order` choosing the next among those left. */
  method Shuffled(results: seq<MemberResult>, order: seq<nat>) returns (shuffled: seq<MemberResult>)
    ensures multiset(shuffled) == multiset(results)
    ensures order == [] ==> shuffled == results
  {
    shuffled := [];
    var rest := results;
    for k := 0 to |order|
      invariant multiset(shuffled) + multiset(rest) == multiset(results)
      invariant k == 0 ==> shuffled == [] && rest == results
    {
      if rest != [] {
        var at := order[k] % |rest|;
        shuffled := shuffled + [rest[at]];
        assert rest == rest[..at] + [rest[at]] + rest[at + 1..];
        rest := rest[..at] + rest[at + 1..];
      }
    }
    shuffled := shuffled + rest;
  }
}

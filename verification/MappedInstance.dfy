/** A mapped node at work: its three phases (swale/src/dispatch.rs:184-303).
    A step may fail or crash after any call of the runtime and runs again. */
module MappedInstance {
  import opened Wrappers
  import opened Json
  import opened Text
  import opened TaskInput
  import Input = TaskInput
  import opened RunGroups
  import opened Mapped
  import Params

  datatype Phase = SubmitPhase(polls: nat) | PollPhase(polls: nat) | FinishPhase(output: Value)

  datatype FailReason = ItemsFailed(error: ItemsError) | MembersFailed(members: NoOutputs)

  datatype StepOutcome = Continue(next: Phase, after: Duration) | Succeed(output: Value) | Fail(reason: FailReason)

  /** The input of the member for `item`; `TaskInput.Member` computes it. */
  ghost function MemberInput(input: TaskInput, item: Value): TaskInput {
    input.(inputs := map n | n in input.inputs && Params.Refers(input.params, n) :: input.inputs[n],
           state := None, each := None, item := Some(item))
  }

  /** The members for the items: the position as the key, and the input. */
  ghost function MembersOf(input: TaskInput, items: seq<Value>): (members: seq<GroupMember>)
    ensures |members| == |items|
  {
    seq(|items|, i requires 0 <= i < |items| => GroupMember(Decimal(i), MemberInput(input, items[i])))
  }

  ghost predicate IsFor(g: Group, input: TaskInput, items: seq<Value>) {
    HasMembers(g, MembersOf(input, items)) && |items| <= USIZE_MAX
  }

  lemma IsForKeyed(g: Group, input: TaskInput, items: seq<Value>)
    requires IsFor(g, input, items)
    ensures IsKeyed(g) && |g| == |items|
    ensures forall i :: 0 <= i < |g| ==> g[i].input == MemberInput(input, items[i])
  {
    var members := MembersOf(input, items);
    forall i | 0 <= i < |g|
      ensures g[i].key == Decimal(i) && g[i].input == MemberInput(input, items[i])
    {
      assert members[i] == GroupMember(Decimal(i), MemberInput(input, items[i]));
    }
  }

  lemma IsForStays(a: Group, b: Group, input: TaskInput, items: seq<Value>)
    requires IsFor(a, input, items) && GroupLater(a, b)
    ensures IsFor(b, input, items)
  {
    forall i | 0 <= i < |b|
      ensures b[i].key == a[i].key && b[i].input == a[i].input
    {
      assert MemberLater(a[i], b[i]);
    }
  }

  lemma LaterReflexive(g: Group)
    ensures GroupLater(g, g)
  {
  }

  lemma CancellingKeeps(found: Option<Group>, input: TaskInput, items: seq<Value>)
    ensures found.Some? && IsFor(found.value, input, items) ==> IsFor(Cancelling(found.value), input, items)
  {
  }

  // ---- Members that are asked to end ----

  /** Every member has ended or has been asked to. */
  ghost predicate AllAsked(stored: Option<Group>) {
    stored.Some? ==> forall i :: 0 <= i < |stored.value| ==>
                       stored.value[i].status.Ended? || stored.value[i].status == Active(true)
  }

  /** No member has been asked to end that had not been before. */
  ghost predicate NoneAsked(before: Option<Group>, after: Option<Group>) {
    after.Some? ==> forall i :: 0 <= i < |after.value| && after.value[i].status == Active(true) ==>
                      before.Some? && i < |before.value| && before.value[i].status == Active(true)
  }

  lemma CancellingAsks(g: Group)
    ensures AllAsked(Some(Cancelling(g)))
  {
  }

  lemma AskedStays(before: Option<Group>, after: Option<Group>)
    requires Later(before, after)
    ensures AllAsked(before) ==> AllAsked(after)
    ensures NoneAsked(before, after)
  {
    if after.Some? {
      forall i | 0 <= i < |after.value|
        ensures MemberLater(before.value[i], after.value[i])
      {
      }
    }
  }

  lemma GoneIsAsked()
    ensures AllAsked(None) && forall before :: NoneAsked(before, None)
  {
  }

  lemma NoneAskedAnew(before: Option<Group>, after: Option<Group>)
    requires NoneAsked(None, after)
    ensures NoneAsked(before, after)
  {
  }

  lemma SubmittedAsksNone(before: Option<Group>, stored: Option<Group>, members: seq<GroupMember>)
    requires Accepts(stored, members) && NoneAsked(before, stored)
    ensures NoneAsked(before, Some(Submitted(stored, members)))
  {
  }

  /** The vector of the items of a process fits its address space. */
  ghost predicate FitsMemory(rendered: Result<seq<Value>, ItemsError>) {
    rendered.Ok? ==> |rendered.value| <= USIZE_MAX
  }

  // ---- One step without a failure and without a change beside it ----

  /** The group and the outcome of a step that nothing else interferes with. */
  ghost function StepTo(stored: Option<Group>, phase: Phase, input: TaskInput,
                        rendered: Result<seq<Value>, ItemsError>, cancelled: bool, delays: PollDelays)
    : (Option<Group>, Result<StepOutcome, GroupError>)
  {
    match phase
    case SubmitPhase(polls) =>
      (match rendered
       case Err(error) => (stored, Ok(Fail(ItemsFailed(error))))
       case Ok(items) =>
         var members := MembersOf(input, items);
         if !Accepts(stored, members) && StatusOf(stored.value).pending > 0 then
           (Some(Cancelling(stored.value)), Ok(Continue(SubmitPhase(polls + 1), delays.Delay(polls + 1))))
         else
           var submitted := Submitted(if Accepts(stored, members) then stored else None, members);
           (Some(if cancelled then Cancelling(submitted) else submitted),
            Ok(Continue(PollPhase(0), if items == [] then 0 else delays.Delay(0)))))
    case PollPhase(polls) =>
      if stored == None then
        (None, if cancelled then Err(GroupNotFound) else Ok(Continue(SubmitPhase(0), 0)))
      else
        var g := if cancelled then Cancelling(stored.value) else stored.value;
        if StatusOf(g).pending > 0 then
          (Some(g), Ok(Continue(PollPhase(polls + 1), delays.Delay(polls + 1))))
        else
          (match Gathered(ResultsOf(g))
           case Ok(output) => (Some(g), Ok(Continue(FinishPhase(output), 0)))
           case Err(ResultRemoved) => (None, Ok(Continue(SubmitPhase(0), 0)))
           case Err(failed) => (Some(g), Ok(Fail(MembersFailed(failed)))))
    case FinishPhase(output) => (None, Ok(Succeed(output)))
  }

  // ---- The task instance ----

  class Instance {
    const input: TaskInput
    const delays: PollDelays
    const group: RunGroup
    var phase: Phase
    var ended: Option<StepOutcome>
    // The items of the last accepted submit, and the group as its results were read.
    ghost var items: seq<Value>
    ghost var read: Group

    constructor (input: TaskInput, delays: PollDelays, group: RunGroup)
      ensures this.input == input && this.delays == delays && this.group == group
      ensures phase == SubmitPhase(0) && ended == None && Valid()
    {
      this.input := input;
      this.delays := delays;
      this.group := group;
      phase := SubmitPhase(0);
      ended := None;
      items := [];
      read := [];
    }

    /** What holds whenever a step of the phase may run, again or for the first time. */
    ghost predicate Holds(phase: Phase)
      reads this, group
    {
      match phase
      case SubmitPhase(_) => true
      case PollPhase(_) => |items| <= USIZE_MAX && (group.stored.Some? ==> IsFor(group.stored.value, input, items))
      case FinishPhase(output) =>
        && IsFor(read, input, items) && AllHaveOutput(read) && IsOutput(read, output)
        && (group.stored.Some? ==> GroupLater(read, group.stored.value))
    }

    ghost predicate Valid()
      reads this, group
    {
      && Holds(phase)
      && (ended.Some? && ended.value.Succeed? ==> IsFor(read, input, items) && IsOutput(read, ended.value.output))
    }

    /** The members of the items, in item order. */
    method Members(items: seq<Value>) returns (members: seq<GroupMember>)
      ensures members == MembersOf(input, items)
    {
      members := [];
      for position := 0 to |items|
        invariant members == MembersOf(input, items)[..position]
      {
        var member := Input.Member(input, items[position]);
        assert member == MemberInput(input, items[position]) by {
          assert member.inputs == MemberInput(input, items[position]).inputs;
        }
        members := members + [GroupMember(Decimal(position), member)];
      }
    }

    /** Replaces a group with other members, once none of them is active: tells
        whether it has been replaced, or its active members asked to end. */
    method Replace(members: seq<GroupMember>) returns (r: Result<bool, GroupError>)
      modifies group
      ensures r == Ok(true) ==> group.stored.Some? && HasMembers(group.stored.value, members)
      ensures r == Ok(false) ==> group.stored.Some? && AllAsked(group.stored)
      ensures r == Ok(true) ==> NoneAsked(None, group.stored)
      ensures old(group.fates) == [] && old(group.stored).Some? ==>
        var stored := old(group.stored).value;
        (group.stored, r) ==
          (if StatusOf(stored).pending > 0 then (Some(Cancelling(stored)), Ok(false))
           else (Some(Submitted(None, members)), Ok(true)))
      ensures old(group.fates) == [] ==> group.fates == []
    {
      hide Cancelling, Submitted, HasMembers, StatusOf;
      var status := group.Status();
      if status.Err? {
        return Err(status.error);
      }
      NothingPending(group.stored.value);
      if status.value.pending > 0 {
        var cancel, found := group.Cancel();
        if cancel.Err? {
          return Err(cancel.error);
        }
        CancellingAsks(found.value);
        return Ok(false);
      }
      var forget := group.Forget();
      if forget.Err? {
        return Err(forget.error);
      }
      var submit, seen := group.Submit(members);
      if submit.Err? {
        return Err(submit.error);
      }
      SubmittedAsksNone(None, seen, members);
      r := Ok(true);
    }

    method SubmitStep(polls: nat, e: Environment, cancelled: bool)
      returns (r: Result<StepOutcome, GroupError>)
      requires FitsMemory(RenderedItems(input, e))
      modifies this`items, group
      ensures items == old(items) || RenderedItems(input, e) == Ok(items)
      ensures r.Ok? ==>
        match r.value
        case Succeed(_) => false
        case Fail(reason) =>
          RenderedItems(input, e).Err? && reason == ItemsFailed(RenderedItems(input, e).error)
          && group.stored == old(group.stored)
        case Continue(next, after) =>
          && RenderedItems(input, e).Ok?
          && (if next.SubmitPhase? then
                next == SubmitPhase(polls + 1) && after == delays.Delay(polls + 1)
                && group.stored.Some? && AllAsked(group.stored)
              else
                && next == PollPhase(0) && Holds(next) && RenderedItems(input, e) == Ok(items)
                && after == (if items == [] then 0 else delays.Delay(0))
                && (if cancelled then AllAsked(group.stored) else NoneAsked(old(group.stored), group.stored)))
      ensures old(group.fates) == [] ==>
        (group.stored, r) == StepTo(old(group.stored), SubmitPhase(polls), input, RenderedItems(input, e), cancelled, delays)
    {
      hide StatusOf, Cancelling, MembersOf, RenderedItems, HasMembers, Submitted, AllAsked, NoneAsked;
      var rendered := RenderedItems(input, e);
      if rendered.Err? {
        return Ok(Fail(ItemsFailed(rendered.error)));
      }
      var members := Members(rendered.value);
      var delay := if members == [] then 0 else delays.Delay(0);
      var submit, seen := group.Submit(members);
      AskedStays(old(group.stored), seen);
      if submit.Err? {
        if submit.error != GroupMismatch {
          return Err(submit.error);
        }
        var replaced := Replace(members);
        if replaced.Err? {
          return Err(replaced.error);
        }
        if !replaced.value {
          return Ok(Continue(SubmitPhase(polls + 1), delays.Delay(polls + 1)));
        }
        NoneAskedAnew(old(group.stored), group.stored);
      } else {
        SubmittedAsksNone(old(group.stored), seen, members);
      }
      items := rendered.value;
      ghost var submitted := group.stored;
      assert IsFor(submitted.value, input, items);
      if cancelled {
        var cancel, found := group.Cancel();
        Kept(submitted, found);
        CancellingKeeps(found, input, items);
        if cancel.Err? {
          return Err(cancel.error);
        }
        CancellingAsks(found.value);
      }
      return Ok(Continue(PollPhase(0), delay));
    }

    method PollStep(polls: nat, cancelled: bool) returns (r: Result<StepOutcome, GroupError>)
      requires Holds(PollPhase(polls))
      modifies this`read, group
      ensures Holds(PollPhase(polls))
      ensures r.Ok? ==>
        match r.value
        case Succeed(_) => false
        case Fail(reason) =>
          reason.MembersFailed? && group.stored.Some? && IsFailureOf(group.stored.value, reason.members)
        case Continue(next, after) =>
          match next
          case SubmitPhase(again) => again == 0 && after == 0 && group.stored.None?
          case PollPhase(again) => again == polls + 1 && after == delays.Delay(again)
          case FinishPhase(output) => after == 0 && Holds(next) && group.stored == Some(read)
      ensures r.Ok? ==> if cancelled then AllAsked(group.stored) else NoneAsked(old(group.stored), group.stored)
      ensures old(group.fates) == [] ==>
        (group.stored, r) == StepTo(old(group.stored), PollPhase(polls), input, Ok([]), cancelled, delays)
    {
      hide IsFor, IsOutput, AllHaveOutput, SomeUnsucceeded, IsFailureOf, NoActive, GroupLater, IsKeyed, MemberOutputs, ResultsOf, Cancelling, Gathered, StatusOf, AllAsked, NoneAsked;
      if cancelled {
        ghost var before := group.stored;
        var cancel, found := group.Cancel();
        Kept(before, found);
        CancellingKeeps(found, input, items);
        if cancel.Err? {
          return Err(cancel.error);
        }
        CancellingAsks(found.value);
      }
      ghost var asked := group.stored;
      var status := group.Status();
      Kept(asked, group.stored);
      AskedStays(asked, group.stored);
      GoneIsAsked();
      if status.Err? {
        if status.error == GroupNotFound {
          return Ok(Continue(SubmitPhase(0), 0));
        }
        return Err(status.error);
      }
      NothingPending(group.stored.value);
      if status.value.succeeded + status.value.failed + status.value.cancelled < status.value.total {
        return Ok(Continue(PollPhase(polls + 1), delays.Delay(polls + 1)));
      }
      ghost var first := asked;
      asked := group.stored;
      var results := group.Results();
      Kept(asked, group.stored);
      LaterTransitive(first, asked, group.stored);
      AskedStays(first, group.stored);
      if results.Err? {
        return Err(results.error);
      }
      read := group.stored.value;
      LaterReflexive(read);
      NoActiveStays(asked.value, read);
      IsForKeyed(read, input, items);
      OutputsIgnoreOrder(read, results.value);
      GatheredOutputs(read);
      match MemberOutputs(results.value)
      case Ok(output) =>
        r := Ok(Continue(FinishPhase(output), 0));
      case Err(ResultRemoved) =>
        var forget := group.Forget();
        if forget.Err? {
          if group.stored.Some? {
            IsForStays(read, group.stored.value, input, items);
          }
          return Err(forget.error);
        }
        r := Ok(Continue(SubmitPhase(0), 0));
      case Err(failed) =>
        r := Ok(Fail(MembersFailed(failed)));
    }

    /** The group keeps its members through what happens beside a step. */
    lemma Kept(before: Option<Group>, after: Option<Group>)
      requires Later(before, after)
      ensures before.Some? && IsFor(before.value, input, items) ==> after.Some? && IsFor(after.value, input, items)
    {
      if before.Some? && IsFor(before.value, input, items) {
        IsForStays(before.value, after.value, input, items);
      }
    }

    method FinishStep(output: Value) returns (r: Result<StepOutcome, GroupError>)
      requires Holds(FinishPhase(output))
      modifies group
      ensures Holds(FinishPhase(output))
      ensures r.Ok? ==> r == Ok(Succeed(output)) && group.stored.None?
      ensures old(group.fates) == [] ==>
        (group.stored, r) == StepTo(old(group.stored), FinishPhase(output), input, Ok([]), false, delays)
    {
      ghost var before := group.stored;
      if before.Some? {
        AllEnded(read);
        NoActiveStays(read, before.value);
      }
      var forget := group.Forget();
      if forget.Err? {
        if group.stored.Some? {
          GroupLaterTransitive(read, before.value, group.stored.value);
        }
        return Err(forget.error);
      }
      r := Ok(Succeed(output));
    }

    lemma AllEnded(g: Group)
      requires AllHaveOutput(g)
      ensures NoActive(g)
    {
    }

    /** One execution of the current step; its outcome is stored unless the worker
        crashes before the commit, and then the step runs again. */
    method Execute(e: Environment, cancelled: bool, commits: bool) returns (r: Result<StepOutcome, GroupError>)
      requires Valid() && ended == None && FitsMemory(RenderedItems(input, e))
      modifies this`phase, this`ended, this`items, this`read, group
      ensures Valid()
      ensures items == old(items) || (old(phase).SubmitPhase? && RenderedItems(input, e) == Ok(items))
      ensures old(phase).SubmitPhase? && !phase.SubmitPhase? ==> RenderedItems(input, e) == Ok(items)
      ensures ended.Some? ==> r == Ok(ended.value) && phase == old(phase)
      ensures ended.Some? && ended.value.Succeed? ==> old(phase) == FinishPhase(ended.value.output) && group.stored.None?
      ensures ended.Some? && ended.value.Fail? ==>
        match ended.value.reason
        case ItemsFailed(error) => RenderedItems(input, e) == Err(error) && group.stored == old(group.stored)
        case MembersFailed(error) => group.stored.Some? && IsFailureOf(group.stored.value, error)
      ensures r.Ok? && r.value.Continue? && (old(phase).PollPhase? || r.value.next.PollPhase?) ==>
        if cancelled then AllAsked(group.stored) else NoneAsked(old(group.stored), group.stored)
      ensures r.Ok? && r.value.Continue? && r.value.next.SubmitPhase? ==> AllAsked(group.stored)
      ensures !commits ==> ended == None && phase == old(phase)
      ensures commits && r.Ok? && r.value.Continue? ==> phase == r.value.next
      ensures old(group.fates) == [] ==>
        (group.stored, r) == StepTo(old(group.stored), old(phase), input, RenderedItems(input, e), cancelled, delays)
    {
      match phase {
        case SubmitPhase(polls) => r := SubmitStep(polls, e, cancelled);
        case PollPhase(polls) => r := PollStep(polls, cancelled);
        case FinishPhase(output) => r := FinishStep(output);
      }
      if commits && r.Ok? {
        if r.value.Continue? {
          phase := r.value.next;
        } else {
          ended := Some(r.value);
        }
      }
    }

    /** A whole run of the instance: the turns in order, until it ends. A success
        delivers, in item order, the outputs of the members of the items that its last
        accepted submit rendered, all of which succeeded. */
    method Run(turns: seq<Turn>) returns (outcome: Option<StepOutcome>)
      requires Valid() && ended == None && phase == SubmitPhase(0)
      requires forall k :: 0 <= k < |turns| ==> FitsMemory(RenderedItems(input, turns[k].e))
      modifies this`phase, this`ended, this`items, this`read, group
      ensures Valid() && outcome == ended
      ensures outcome.Some? && outcome.value.Succeed? ==>
        && (exists k :: 0 <= k < |turns| && RenderedItems(input, turns[k].e) == Ok(items))
        && IsDelivered(outcome.value.output, input, items, read)
        && group.stored.None?
      ensures outcome.Some? && outcome.value.Fail? && outcome.value.reason.MembersFailed? ==>
        group.stored.Some? && IsFailureOf(group.stored.value, outcome.value.reason.members)
    {
      hide IsFailureOf, IsOutput, AllHaveOutput, IsFor, RenderedItems;
      ghost var rendered := false;
      for k := 0 to |turns|
        invariant Valid() && ended == None
        invariant !rendered ==> phase.SubmitPhase?
        invariant rendered ==> exists j :: 0 <= j < k && RenderedItems(input, turns[j].e) == Ok(items)
      {
        ghost var was := items;
        ghost var first := phase;
        var turn := turns[k];
        var r := Execute(turn.e, turn.cancelled, turn.commits);
        if first.SubmitPhase? && !phase.SubmitPhase? {
          rendered := true;
        }
        if ended.Some? {
          if ended.value.Succeed? {
            Delivered(ended.value.output, input, items, read);
          }
          return ended;
        }
      }
      outcome := None;
    }
  }

  datatype Turn = Turn(e: Environment, cancelled: bool, commits: bool)

  /** The output lists, for each item, the output of the succeeded member of `ran`
      whose input is that of the item. */
  ghost predicate IsDelivered(output: Value, input: TaskInput, items: seq<Value>, ran: Group) {
    && output.Array? && |output.items| == |ran| == |items|
    && forall i :: 0 <= i < |items| ==>
         && ran[i].input == MemberInput(input, items[i])
         && HasOutput(ran[i]) && output.items[i] == OutputOf(ran[i])
  }

  lemma Delivered(output: Value, input: TaskInput, items: seq<Value>, ran: Group)
    requires IsFor(ran, input, items) && IsOutput(ran, output)
    ensures IsDelivered(output, input, items, ran)
  {
    IsForKeyed(ran, input, items);
  }

  // ---- A node that nothing interferes with ends ----

  /** The result of a succeeded member is gone. */
  ghost predicate HasLost(g: Group) {
    exists i :: 0 <= i < |g| && IsLost(g[i])
  }

  predicate IsLost(m: Member) {
    m.status.Ended? && m.status.status == Succeeded && !m.status.kept
  }

  /** Every active member has ended, and no result is removed. */
  ghost predicate AllEndedSince(a: Group, b: Group) {
    && GroupLater(a, b) && NoActive(b)
    && forall i :: 0 <= i < |b| ==> (IsLost(b[i]) <==> IsLost(a[i]))
  }

  ghost predicate EndedSince(a: Option<Group>, b: Option<Group>) {
    if a.None? then b.None? else b.Some? && AllEndedSince(a.value, b.value)
  }

  /** The steps that may follow a step. */
  ghost function StepsLeft(stored: Option<Group>, phase: Phase, input: TaskInput, items: seq<Value>): (left: nat)
    ensures left <= 4
  {
    match phase
    case FinishPhase(_) => 0
    case PollPhase(_) => if stored.None? || HasLost(stored.value) then 3 else 1
    case SubmitPhase(_) =>
      if stored.None? then 2
      else if !Accepts(stored, MembersOf(input, items)) then (if NoActive(stored.value) then 2 else 3)
      else if HasLost(stored.value) then 4 else 2
  }

  lemma PollAdvances(stored: Option<Group>, polls: nat, input: TaskInput, items: seq<Value>,
                     delays: PollDelays, later: Option<Group>)
    requires stored.Some? ==> NoActive(stored.value)
    requires EndedSince(StepTo(stored, PollPhase(polls), input, Ok(items), false, delays).0, later)
    ensures var r := StepTo(stored, PollPhase(polls), input, Ok(items), false, delays).1;
            r.Ok? && (r.value.Continue? ==> StepsLeft(later, r.value.next, input, items)
                                            < StepsLeft(stored, PollPhase(polls), input, items))
  {
    hide Gathered, ResultsOf, StatusOf, MembersOf, HasMembers;
    if stored.Some? {
      NothingPending(stored.value);
      GatheredOutputs(stored.value);
    }
  }

  lemma ReplaceAdvances(stored: Option<Group>, polls: nat, input: TaskInput, items: seq<Value>,
                        delays: PollDelays, later: Option<Group>)
    requires !Accepts(stored, MembersOf(input, items))
    requires EndedSince(StepTo(stored, SubmitPhase(polls), input, Ok(items), false, delays).0, later)
    ensures var r := StepTo(stored, SubmitPhase(polls), input, Ok(items), false, delays).1;
            r.Ok? && (r.value.Continue? ==> StepsLeft(later, r.value.next, input, items)
                                            < StepsLeft(stored, SubmitPhase(polls), input, items))
  {
    hide Gathered, ResultsOf, StatusOf, MembersOf;
    NothingPending(stored.value);
  }

  lemma SubmitAdvances(stored: Option<Group>, polls: nat, input: TaskInput, items: seq<Value>,
                       delays: PollDelays, later: Option<Group>)
    requires Accepts(stored, MembersOf(input, items))
    requires EndedSince(StepTo(stored, SubmitPhase(polls), input, Ok(items), false, delays).0, later)
    ensures var r := StepTo(stored, SubmitPhase(polls), input, Ok(items), false, delays).1;
            r.Ok? && (r.value.Continue? ==> StepsLeft(later, r.value.next, input, items)
                                            < StepsLeft(stored, SubmitPhase(polls), input, items))
  {
    hide Gathered, ResultsOf, StatusOf, MembersOf;
  }

  /** When the members end between the steps, every step ends the instance or brings
      it closer to its end: an instance ends within five steps, whatever group an
      earlier instance left. */
  lemma EachStepAdvances(stored: Option<Group>, phase: Phase, input: TaskInput, items: seq<Value>,
                         delays: PollDelays, later: Option<Group>)
    requires phase.PollPhase? && stored.Some? ==> NoActive(stored.value)
    requires EndedSince(StepTo(stored, phase, input, Ok(items), false, delays).0, later)
    ensures var r := StepTo(stored, phase, input, Ok(items), false, delays).1;
            r.Ok? && (r.value.Continue? ==> StepsLeft(later, r.value.next, input, items)
                                            < StepsLeft(stored, phase, input, items))
  {
    match phase
    case SubmitPhase(polls) =>
      if Accepts(stored, MembersOf(input, items)) {
        SubmitAdvances(stored, polls, input, items, delays, later);
      } else {
        ReplaceAdvances(stored, polls, input, items, delays, later);
      }
    case PollPhase(polls) =>
      PollAdvances(stored, polls, input, items, delays, later);
    case FinishPhase(_) =>
  }
}

/** The occurrences of a schedule and their partitions (swale/src/graph.rs, swale/src/partition.rs). */
module Schedules {
  import opened Wrappers

  datatype Partitioning = Daily | Hourly | Unpartitioned

  /** Any days, each with the same hours and minutes. Times count minutes from the epoch. */
  datatype Schedule = Schedule(days: nat -> bool, hours: set<nat>, minutes: set<nat>)

  predicate Occurs(s: Schedule, t: nat) {
    s.days(t / 1440) && t % 1440 / 60 in s.hours && t % 60 in s.minutes
  }

  ghost predicate IsNextAfter(s: Schedule, t: nat, next: Option<nat>) {
    match next
    case None => forall u: nat {:trigger Occurs(s, u)} :: u > t ==> !Occurs(s, u)
    case Some(n) => n > t && Occurs(s, n) && forall u: nat {:trigger Occurs(s, u)} :: t < u < n ==> !Occurs(s, u)
  }

  ghost predicate IsPreviousBefore(s: Schedule, t: nat, previous: Option<nat>) {
    match previous
    case None => forall u: nat {:trigger Occurs(s, u)} :: u < t ==> !Occurs(s, u)
    case Some(p) => p < t && Occurs(s, p) && forall u: nat {:trigger Occurs(s, u)} :: p < u < t ==> !Occurs(s, u)
  }

  /** The number of the partition that contains a time. */
  function PartitionOf(p: Partitioning, t: nat): nat {
    match p
    case Daily => t / 1440
    case Hourly => t / 60
    case Unpartitioned => 0
  }

  /** The first occurrence after the epoch and its two neighbours. */
  datatype Neighbours = Neighbours(first: Option<nat>, before: Option<nat>, after: Option<nat>)

  ghost predicate AreNeighbours(s: Schedule, n: Neighbours) {
    && IsNextAfter(s, 0, n.first)
    && (n.first.Some? ==> IsPreviousBefore(s, n.first.value, n.before) && IsNextAfter(s, n.first.value, n.after))
  }

  /** Whether a neighbour of the first occurrence shares its partition. */
  function FiresTwiceWithinAPartition(n: Neighbours, p: Partitioning): bool {
    if p == Unpartitioned || n.first == None then false
    else
      var partition := PartitionOf(p, n.first.value);
      || (n.before.Some? && PartitionOf(p, n.before.value) == partition)
      || (n.after.Some? && PartitionOf(p, n.after.value) == partition)
  }

  /** Two distinct occurrences share a partition. */
  ghost predicate SharesAPartition(s: Schedule, p: Partitioning) {
    exists t: nat, u: nat {:trigger Occurs(s, t), Occurs(s, u)} ::
      t < u && Occurs(s, t) && Occurs(s, u) && PartitionOf(p, t) == PartitionOf(p, u)
  }

  lemma SixtyOf(x: nat, q: nat, r: nat)
    requires x == 60 * q + r && r < 60
    ensures x / 60 == q && x % 60 == r
  {
  }

  lemma DayOf(x: nat, q: nat, r: nat)
    requires x == 1440 * q + r && r < 1440
    ensures x / 1440 == q && x % 1440 == r
  {
  }

  /** The day, the hour of the day and the minute of a time determine it. */
  lemma TimeOf(x: nat, day: nat, hour: nat, minute: nat)
    requires x == 1440 * day + 60 * hour + minute && hour < 24 && minute < 60
    ensures x / 1440 == day && x % 1440 / 60 == hour && x % 60 == minute && x / 60 == 24 * day + hour
  {
    DayOf(x, day, 60 * hour + minute);
    SixtyOf(60 * hour + minute, hour, minute);
    SixtyOf(x, 24 * day + hour, minute);
  }

  lemma Parts(x: nat)
    ensures x % 1440 / 60 < 24 && x == 1440 * (x / 1440) + 60 * (x % 1440 / 60) + x % 60
    ensures x / 60 == 24 * (x / 1440) + x % 1440 / 60
  {
    var day, rest := x / 1440, x % 1440;
    var hour, minute := rest / 60, rest % 60;
    assert x == 1440 * day + rest && rest == 60 * hour + minute;
    TimeOf(x, day, hour, minute);
  }

  /** The hour and minute of `t` apply on every day that fires. */
  lemma OccursOnDay(s: Schedule, t: nat, d: nat) returns (u: nat)
    requires Occurs(s, t) && s.days(d)
    ensures Occurs(s, u) && u / 1440 == d && u - 1440 * d == t - 1440 * (t / 1440)
  {
    Parts(t);
    u := 1440 * d + 60 * (t % 1440 / 60) + t % 60;
    TimeOf(u, d, t % 1440 / 60, t % 60);
  }

  /** The minute of `t` applies in every hour that fires. */
  lemma OccursInHour(s: Schedule, t: nat, f: nat) returns (u: nat)
    requires Occurs(s, t) && Occurs(s, f)
    ensures Occurs(s, u) && u / 60 == f / 60 && u - 60 * (f / 60) == t - 60 * (t / 60)
  {
    Parts(t);
    Parts(f);
    u := 1440 * (f / 1440) + 60 * (f % 1440 / 60) + t % 60;
    TimeOf(u, f / 1440, f % 1440 / 60, t % 60);
  }

  /** Another occurrence in the partition of the first one shows in a neighbour. */
  lemma NeighbourShows(s: Schedule, p: Partitioning, n: Neighbours, z: nat)
    requires p != Unpartitioned && AreNeighbours(s, n) && n.first.Some?
    requires Occurs(s, z) && z != n.first.value && PartitionOf(p, z) == PartitionOf(p, n.first.value)
    ensures FiresTwiceWithinAPartition(n, p)
  {
    var f := n.first.value;
    if z > f {
      assert n.after.Some? && f < n.after.value <= z;
    } else {
      assert z == 0;
      assert n.before.Some? && z <= n.before.value < f;
    }
  }

  /** Two comparisons decide a claim about all pairs of occurrences, of which there can
      be infinitely many: whether some pair shares a partition. */
  lemma NeighboursDecide(s: Schedule, p: Partitioning, n: Neighbours)
    requires p != Unpartitioned && AreNeighbours(s, n)
    ensures FiresTwiceWithinAPartition(n, p) <==> SharesAPartition(s, p)
  {
    if t: nat, u: nat :| t < u && Occurs(s, t) && Occurs(s, u) && PartitionOf(p, t) == PartitionOf(p, u) {
      assert n.first.Some?;
      var f := n.first.value;
      var x, y;
      if p == Daily {
        x := OccursOnDay(s, t, f / 1440);
        y := OccursOnDay(s, u, f / 1440);
      } else {
        x := OccursInHour(s, t, f);
        y := OccursInHour(s, u, f);
      }
      NeighbourShows(s, p, n, if x != f then x else y);
    }
    if FiresTwiceWithinAPartition(n, p) {
      var f := n.first.value;
      var z := if n.before.Some? && PartitionOf(p, n.before.value) == PartitionOf(p, f)
               then n.before.value else n.after.value;
      assert Occurs(s, z) && Occurs(s, f) && z != f;
    }
  }

  /** An accepted schedule: two firings run two partitions. A firing runs the
      partition of the occurrence before it (swale/src/scheduler.rs, handle_trigger). */
  lemma DistinctFiringsRunDistinctPartitions(s: Schedule, p: Partitioning, n: Neighbours,
                                             t: nat, u: nat, beforeT: nat, beforeU: nat)
    requires p != Unpartitioned && AreNeighbours(s, n) && !FiresTwiceWithinAPartition(n, p)
    requires t < u && Occurs(s, t) && Occurs(s, u)
    requires IsPreviousBefore(s, t, Some(beforeT)) && IsPreviousBefore(s, u, Some(beforeU))
    ensures PartitionOf(p, beforeT) != PartitionOf(p, beforeU)
  {
    NeighboursDecide(s, p, n);
    assert beforeT < t <= beforeU;
  }
}

/** A setting the user may update, tracked in the cluster's semilattices
    (src/rpc/semilattice/joins/versioned.hpp). When two copies meet, the join
    keeps the one with the later (timestamp, tiebreaker) pair. Uuids are
    modelled as naturals in the order the source's `<` compares them, with the
    nil uuid as 0; the clock reads and the uuid generator are parameters. */
module Versioned {
  import Time

  type Uuid = nat

  /** nil_uuid(): all bytes zero, so no uuid compares below it. */
  const NilUuid: Uuid := 0

  /** to_time_t(realtime_t::min()): the earliest system-clock time point
      (-2^63 ns since the epoch), truncated to whole seconds. */
  const MinTimestamp: int := Time.DurationCast(Time.MinInt64, Time.Nano, Time.Second)

  /** The contents of one versioned_t: the value, the time_t timestamp of its
      last change and the tiebreaker drawn at that change. */
  datatype Entry<T> = Entry(value: T, timestamp: int, tiebreaker: Uuid)

  /** `a` carries a strictly earlier version than `b`: the lexicographic order
      on (timestamp, tiebreaker) that semilattice_join tests. */
  predicate Older<T>(a: Entry<T>, b: Entry<T>) {
    a.timestamp < b.timestamp || (a.timestamp == b.timestamp && a.tiebreaker < b.tiebreaker)
  }

  /** Two entries carry the same version, (timestamp, tiebreaker). */
  predicate SameVersion<T>(a: Entry<T>, b: Entry<T>) {
    a.timestamp == b.timestamp && a.tiebreaker == b.tiebreaker
  }

  /** operator==: all three fields agree. */
  function Equals<T(==)>(a: Entry<T>, b: Entry<T>): (r: bool)
    ensures r <==> a == b
  {
    a.value == b.value && a.timestamp == b.timestamp && a.tiebreaker == b.tiebreaker
  }

  /** What semilattice_join(&a, b) leaves in `a`: `b` when `a` is older,
      otherwise `a` itself. */
  function Join<T>(a: Entry<T>, b: Entry<T>): (r: Entry<T>)
    ensures r == a || r == b
    ensures !Older(r, a) && !Older(r, b)
    ensures r == b <== Older(a, b)
    ensures r == a <== !Older(a, b)
  {
    if Older(a, b) then b else a
  }

  /** The timestamp on_change stores: one second past the system clock read
      (truncated to whole seconds by to_time_t), or time(nullptr) if that is
      later. The previous timestamp plays no part. */
  function ChangeTimestamp(realtimeNs: int, wallSeconds: int): (ts: int)
    ensures ts > Time.DurationCast(realtimeNs, Time.Nano, Time.Second) && ts >= wallSeconds
    ensures ts == Time.DurationCast(realtimeNs, Time.Nano, Time.Second) + 1 || ts == wallSeconds
  {
    var rt := Time.DurationCast(realtimeNs, Time.Nano, Time.Second);
    if rt + 1 < wallSeconds then wallSeconds else rt + 1
  }

  /** The entry set(v) leaves, given the two clock reads and the fresh uuid. */
  function Changed<T>(v: T, realtimeNs: int, wallSeconds: int, uuid: Uuid): Entry<T>
  {
    Entry(v, ChangeTimestamp(realtimeNs, wallSeconds), uuid)
  }

  /** A versioned_t object: set, apply_write and semilattice_join update it in place. */
  class Versioned<T> {
    var value: T
    var timestamp: int
    var tiebreaker: Uuid

    function Current(): Entry<T>
      reads this
    {
      Entry(value, timestamp, tiebreaker)
    }

    /** versioned_t(): the default value at the minimum timestamp, with the nil tiebreaker. */
    constructor Default(defaultValue: T)
      ensures Current() == Entry(defaultValue, MinTimestamp, NilUuid)
    {
      value, timestamp, tiebreaker := defaultValue, MinTimestamp, NilUuid;
    }

    /** versioned_t(initial_value): the minimum timestamp, so that any entry
        produced by set() or apply_write() wins over it, and a fresh tiebreaker. */
    constructor Initial(initialValue: T, uuid: Uuid)
      ensures Current() == Entry(initialValue, MinTimestamp, uuid)
    {
      value, timestamp, tiebreaker := initialValue, MinTimestamp, uuid;
    }

    /** make_with_manual_timestamp(time, value), used when migrating old metadata. */
    constructor ManualTimestamp(time: int, v: T, uuid: Uuid)
      ensures Current() == Entry(v, time, uuid)
    {
      value, timestamp, tiebreaker := v, time, uuid;
    }

    /** set(new_value) */
    method Set(newValue: T, realtimeNs: int, wallSeconds: int, uuid: Uuid)
      modifies this
      ensures Current() == Changed(newValue, realtimeNs, wallSeconds, uuid)
    {
      value := newValue;
      OnChange(realtimeNs, wallSeconds, uuid);
    }

    /** apply_write(f): `f` rewrites the value in place; it may not block. */
    method ApplyWrite(f: T -> T, realtimeNs: int, wallSeconds: int, uuid: Uuid)
      modifies this
      ensures Current() == Changed(f(old(value)), realtimeNs, wallSeconds, uuid)
    {
      value := f(value);
      OnChange(realtimeNs, wallSeconds, uuid);
    }

    /** on_change(): a new timestamp from the two clock reads and a new tiebreaker. */
    method OnChange(realtimeNs: int, wallSeconds: int, uuid: Uuid)
      modifies this
      ensures value == old(value)
      ensures timestamp == ChangeTimestamp(realtimeNs, wallSeconds) && tiebreaker == uuid
    {
      timestamp := ChangeTimestamp(realtimeNs, wallSeconds);
      tiebreaker := uuid;
    }

    /** semilattice_join(this, b): overwrite this with `b` exactly when this is older. */
    method SemilatticeJoin(b: Entry<T>)
      modifies this
      ensures Current() == Join(old(Current()), b)
      ensures Older(old(Current()), b) ==> Current() == b
      ensures !Older(old(Current()), b) ==> Current() == old(Current())
    {
      if timestamp < b.timestamp || (timestamp == b.timestamp && tiebreaker < b.tiebreaker) {
        value, timestamp, tiebreaker := b.value, b.timestamp, b.tiebreaker;
      }
    }
  }

  /** Older is a strict total order on versions: irreflexive, transitive, and
      any two entries with different versions are ordered one way or the other. */
  lemma {:induction false} OlderIsStrictTotalOrder<T>(a: Entry<T>, b: Entry<T>, c: Entry<T>)
    ensures !Older(a, a)
    ensures Older(a, b) && Older(b, c) ==> Older(a, c)
    ensures Older(a, b) ==> !Older(b, a)
    ensures !SameVersion(a, b) ==> Older(a, b) || Older(b, a)
  {
  }

  /** Joining a value with itself leaves it unchanged. */
  lemma {:induction false} JoinIdempotent<T>(a: Entry<T>)
    ensures Join(a, a) == a
  {
  }

  /** The join is an upper bound: the result is at least as new as both inputs,
      and any entry at least as new as both inputs is at least as new as it. */
  lemma {:induction false} JoinIsLeastUpperBound<T>(a: Entry<T>, b: Entry<T>, c: Entry<T>)
    requires !Older(c, a) && !Older(c, b)
    ensures !Older(c, Join(a, b))
  {
  }

  /** The join does not depend on the order of its arguments, provided
      entries that carry the same version are equal (as the uuid tiebreakers
      make them in practice). */
  lemma {:induction false} JoinCommutative<T>(a: Entry<T>, b: Entry<T>)
    requires SameVersion(a, b) ==> a == b
    ensures Join(a, b) == Join(b, a)
  {
  }

  /** The join is associative; it keeps the first of the newest entries. */
  lemma {:induction false} JoinAssociative<T>(a: Entry<T>, b: Entry<T>, c: Entry<T>)
    ensures Join(Join(a, b), c) == Join(a, Join(b, c))
  {
  }

  /** An entry written by set() or apply_write() wins the join, in either order,
      against one made by either constructor, whatever the constructor's
      tiebreaker: the system clock never reads below its minimum time point. */
  lemma {:induction false} ChangedBeatsInitial<T>(init: Entry<T>, v: T, realtimeNs: int, wallSeconds: int, uuid: Uuid)
    requires init.timestamp == MinTimestamp
    requires Time.MinInt64 <= realtimeNs
    ensures Join(init, Changed(v, realtimeNs, wallSeconds, uuid)) == Changed(v, realtimeNs, wallSeconds, uuid)
    ensures Join(Changed(v, realtimeNs, wallSeconds, uuid), init) == Changed(v, realtimeNs, wallSeconds, uuid)
  {
    Time.CastMonotone(Time.MinInt64, realtimeNs, Time.Nano, Time.Second);
  }

  /** Contrary to the comment on on_change, a change can lower the timestamp:
      an entry whose timestamp lies in the future (a server with a fast clock)
      is replaced by one stamped with the local clock, which then loses the
      join against the very entry it overwrote. */
  lemma ChangeCanLowerTimestamp()
    ensures var before := Entry(0, 100, 7);
      var after := Changed(1, 10 * Time.Second, 10, 3);
      after.timestamp < before.timestamp && Join(after, before) == before
  {
    var rt := Time.DurationCast(10 * Time.Second, Time.Nano, Time.Second);
    Time.CastExact(10 * Time.Second, Time.Nano, Time.Second);
    assert rt == 10;
  }

  /** Two changes within the same second receive the same timestamp, so the
      earlier one wins the join against the later whenever its random
      tiebreaker is the larger: the later write can be lost. */
  lemma SameSecondChangesTie()
    ensures var first := Changed(1, 10 * Time.Second, 10, 9);
      var second := Changed(2, 10 * Time.Second + 500_000_000, 10, 4);
      first.timestamp == second.timestamp && Join(second, first) == first
  {
    Time.CastExact(10 * Time.Second, Time.Nano, Time.Second);
    var r := Time.DurationCast(10 * Time.Second + 500_000_000, Time.Nano, Time.Second);
    assert r == 10;
  }

  /** The timestamp on_change evidently means to store: also past the previous
      one, as its comment says ("always set timestamp to a higher value than it
      was before"). */
  function MonotoneChangeTimestamp(previous: int, realtimeNs: int, wallSeconds: int): (ts: int)
    ensures ts > previous && ts >= ChangeTimestamp(realtimeNs, wallSeconds)
    ensures ts == previous + 1 || ts == ChangeTimestamp(realtimeNs, wallSeconds)
  {
    var base := ChangeTimestamp(realtimeNs, wallSeconds);
    if base <= previous then previous + 1 else base
  }

  /** With that timestamp, a change always wins the join against the entry it
      replaced, in either order and whatever the tiebreakers. */
  lemma {:induction false} MonotoneChangeWins<T>(before: Entry<T>, v: T, realtimeNs: int, wallSeconds: int, uuid: Uuid)
    ensures var after := Entry(v, MonotoneChangeTimestamp(before.timestamp, realtimeNs, wallSeconds), uuid);
      Join(before, after) == after && Join(after, before) == after
  {
  }
}

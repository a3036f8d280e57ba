# RethinkDB timers, backoff and versioned settings in Dafny

This project models the per-thread timer scheduler of RethinkDB and the small pieces of
state built on it or beside it:

- `timers.dfy` (module `Timers`) covers `timer_handler_t` and its free-function API
  (src/arch/timer.cc, src/arch/timer.hpp) and the two timer objects `signal_timer_t` and
  `repeating_timer_t` (src/arch/timing.cc, src/arch/timing.hpp).
  - The handler is a class. Its token queue is a map from token id to the token's
    `next_time`, `interval` and `callback`. The OS one-shot alarm is the field `armed`.
    Each freshly allocated token takes the id `nextId`.
  - `on_oneshot` is a `while` loop, split into one method per level of the loop:
    the pass (`RunDue`), the loop (`RunLoop`), one test of its condition (`ServeNext`),
    one turn (`ServeDue`) and the queue update plus callback (`ProcessHead`, which pops
    and re-queues the head with `Pop` before it calls the callback with `RunCallback`).
  - Each method is proved against pure specification functions: `Requeued`, `Processed`,
    `Drained`, `FiredPass` and `AfterFire`. The alarm rules of `add_timer_internal` and
    `cancel_timer` are the functions `ArmedAfterAdd` and `ArmedAfterCancel`; every operation
    that adds or cancels a token states the alarm, the next token id and the `fired` log it leaves.
  - The timer objects are classes. A handler invariant (`Coherent`) ties every queued token
    to the timer object it calls back. The handler therefore never keeps a token for a
    destroyed timer. Each timer holds at most one token: a repeating timer exactly one, a
    signal timer none while idle, once pulsed, or after `cancel()`.
  - A ghost log `fired` records every `on_timer` call. It shows that all callbacks of a pass
    receive the same time, that they run in non-decreasing `next_time` order, and where the
    token stood in the queue while its callback ran. That position is read from the queue at
    the moment of the call (`RunCallback`).
- `backoff.dfy` (module `Backoff`) covers `exponential_backoff_t`
  (src/concurrency/exponential_backoff.hpp). The class is updated in place. The two factors
  are reals, and the in-place `*=` first truncates the factor to the 64-bit count type.
- `versioned.dfy` (module `Versioned`) covers `versioned_t` and its `semilattice_join`
  (src/rpc/semilattice/joins/versioned.hpp). The join is a pure function with its lattice
  laws; the object is a class whose methods overwrite it.
- `time.dfy` (module `Time`) covers the integer `std::chrono` helpers of src/time.hpp:
  `duration_cast` (also behind `tick_floor` and `time_cast`), `ceil` and
  `remaining_nanos`. These follow subclause [time.duration.cast] of the ISO C++ standard,
  which truncates toward zero.

Time is a count of nanoseconds. Intervals and the public timer API are in milliseconds
(`NsPerMs`). Clock reads (`clock_monotonic`, `clock_realtime`, `time(nullptr)`) and
`generate_uuid` are parameters. `rassert`/`guarantee` conditions that the caller must meet
are preconditions.

Where the code and its prose disagree, the model follows the code:
- A due token is re-queued at `realtime + interval` and its callback gets `realtime`, the
  unclamped clock read (src/arch/timer.cc:59, 63). The clamped `time` is used only in the due
  test (src/arch/timer.cc:53). Since `expected_oneshot_time` is zero from the constructor on,
  the two coincide.
- `clamp_next_ring(d)` measures `d` from `last_time`, the last ring (src/arch/timing.cc:108),
  not from the current time as its comment says (src/arch/timing.hpp:69-70).
- `on_change` ignores the previous timestamp (see Findings).

## Model

| member | source | states |
|---|---|---|
| Time.DurationCast | src/time.hpp:128-138 | `duration_cast` (`tick_floor`, `time_cast`) truncates toward zero: the result's multiple of the target unit lies within one unit of the exact value, on the side of zero |
| Time.Ceil | src/time.hpp:82-89 | `ceil<To>(d)` is at least `d` and less than `d` plus one `To` unit |
| Time.RemainingNanos | src/time.hpp:120-122 | `t` minus `remaining_nanos(t)` is a whole number of seconds; the remainder lies in [0, 10^9) ns for non-negative `t` and in (-10^9, 0] for negative `t` |
| Time.CastMonotone | src/time.hpp:128-138 | the truncating cast preserves the order of durations |
| Time.CastExact | src/time.hpp:128-138 | the cast is exact when the value is representable in the target unit |
| Time.CeilIsLeast | src/time.hpp:82-89 | `ceil<To>(d)` is the least count of `To` units not shorter than `d` |
| Time.CeilVersusCast | src/time.hpp:85-88 | `ceil` equals the cast when the cast is exact or `d` is negative, and the cast plus one otherwise |
| Time.CeilExact | src/time.hpp:85-88 | `ceil` is the identity on values already representable in `To` |
| Backoff.TruncReal | src/concurrency/exponential_backoff.hpp:24 | converting the double factor to the int64 rep truncates toward zero |
| Backoff.ExponentialBackoff.constructor | src/concurrency/exponential_backoff.hpp:11-15 | stores the four settings (defaults 1.5 and 0.0); the delay starts at zero |
| Backoff.ExponentialBackoff.Failure | src/concurrency/exponential_backoff.hpp:16-29 | from zero the delay becomes exactly the minimum; otherwise an interrupted nap leaves it untouched, and a completed one applies the truncated-factor growth clamped to the maximum; guarded by the real-valued growth check; requires a non-negative delay, since the nap's timer refuses a negative one (src/arch/timing.cc:47) |
| Backoff.ExponentialBackoff.Success | src/concurrency/exponential_backoff.hpp:30-37 | applies the truncated-factor shrink and resets to zero below the minimum, so the delay is zero or at least the minimum, and zero stays zero; guarded by the real-valued shrink check |
| Backoff.FailureGrowsWithinBounds | src/concurrency/exponential_backoff.hpp:20-28 | under a sane configuration (0 < min <= max, factor > 1) the growth guarantee holds, a failure never shortens the delay, and the result lies in [min, max] |
| Backoff.AfterFailures | src/concurrency/exponential_backoff.hpp:16-29 | any run of failures keeps the delay zero or in [min, max], and at least min once one has happened |
| Backoff.FailuresNonDecreasing | src/concurrency/exponential_backoff.hpp:16-29 | successive failures give a non-decreasing sequence of delays bounded by the maximum |
| Backoff.SuccessHeals | src/concurrency/exponential_backoff.hpp:30-37 | with a shrink factor in [0, 1) the shrink guarantee always holds and one success resets the delay to zero |
| Backoff.FactorBelowTwoNeverGrows | src/concurrency/exponential_backoff.hpp:22-24 | as written, a growth factor in (1, 2) passes the guarantee yet leaves the delay unchanged |
| Backoff.IntendedFailureStep | src/concurrency/exponential_backoff.hpp:22-27 | multiplying by the real factor before truncating makes the delay grow strictly below the maximum and never exceed it |
| Versioned.Equals | src/rpc/semilattice/joins/versioned.hpp:107-112 | `operator==` holds exactly when value, timestamp and tiebreaker all agree |
| Versioned.Join | src/rpc/semilattice/joins/versioned.hpp:114-120 | the join yields `b` exactly when `a` is older in (timestamp, tiebreaker) order and `a` otherwise; the result is one of the inputs and no older than either |
| Versioned.ChangeTimestamp | src/rpc/semilattice/joins/versioned.hpp:90-97 | the new timestamp is the system-clock seconds plus one or `time(nullptr)`, whichever is larger |
| Versioned.Versioned.Default | src/rpc/semilattice/joins/versioned.hpp:22-28 | the default value at the minimum timestamp with the nil tiebreaker |
| Versioned.Versioned.Initial | src/rpc/semilattice/joins/versioned.hpp:41-49 | the initial value at the minimum timestamp with a fresh tiebreaker |
| Versioned.Versioned.ManualTimestamp | src/rpc/semilattice/joins/versioned.hpp:53-59 | the given timestamp and value with a fresh tiebreaker |
| Versioned.Versioned.Set | src/rpc/semilattice/joins/versioned.hpp:69-72 | the new value, stamped by on_change |
| Versioned.Versioned.ApplyWrite | src/rpc/semilattice/joins/versioned.hpp:74-79 | the function applied to the old value, stamped by on_change |
| Versioned.Versioned.OnChange | src/rpc/semilattice/joins/versioned.hpp:90-100 | keeps the value, takes the new timestamp from the two clock reads, and takes the fresh tiebreaker |
| Versioned.Versioned.SemilatticeJoin | src/rpc/semilattice/joins/versioned.hpp:114-120 | the object is overwritten by `b` exactly when it is older, and otherwise unchanged |
| Versioned.OlderIsStrictTotalOrder | src/rpc/semilattice/joins/versioned.hpp:116-117 | the (timestamp, tiebreaker) comparison is irreflexive, transitive, asymmetric and total on distinct versions |
| Versioned.JoinIdempotent | src/rpc/semilattice/joins/versioned.hpp:114-120 | joining an entry with itself leaves it unchanged |
| Versioned.JoinIsLeastUpperBound | src/rpc/semilattice/joins/versioned.hpp:114-120 | an entry no older than both inputs is no older than their join |
| Versioned.JoinCommutative | src/rpc/semilattice/joins/versioned.hpp:114-120 | the join does not depend on argument order when equal versions mean equal entries |
| Versioned.JoinAssociative | src/rpc/semilattice/joins/versioned.hpp:114-120 | the join is associative |
| Versioned.ChangedBeatsInitial | src/rpc/semilattice/joins/versioned.hpp:41-49 | an entry written by set/apply_write wins the join, in either order, against one made by either constructor |
| Versioned.ChangeCanLowerTimestamp | src/rpc/semilattice/joins/versioned.hpp:97 | as written, a change can lower the timestamp and then lose the join to the entry it replaced |
| Versioned.SameSecondChangesTie | src/rpc/semilattice/joins/versioned.hpp:97 | as written, two changes in the same second get the same timestamp, and the earlier can win |
| Versioned.MonotoneChangeTimestamp | src/rpc/semilattice/joins/versioned.hpp:91-96 | the intended timestamp is strictly above the previous one and no lower than the clock-based one |
| Versioned.MonotoneChangeWins | src/rpc/semilattice/joins/versioned.hpp:91-96 | with the intended timestamp a change always wins the join against the entry it replaced, in either order |
| Timers.Requeued | src/arch/timer.cc:54-61 | popping a token re-queues it at realtime + interval exactly when it repeats (interval non-zero), drops it otherwise, and leaves every other token as it was |
| Timers.DrainedLeavesNothingDue | src/arch/timer.cc:53-69 | after a pass nothing left is due; a token survives exactly when it was not due or repeats, and untouched tokens keep their fields |
| Timers.LeastEarliestExists | src/arch/timer.hpp:42-43 | a non-empty queue has an earliest token, and among those one with the least id |
| Timers.PopStep | src/arch/timer.cc:53-61 | the due head of the queue is an unprocessed due token with its original fields, and popping it gives the next queue of the pass |
| Timers.LogStep | src/arch/timer.cc:53-63 | appending the head's call keeps the pass log complete, at one time, and in non-decreasing next_time order |
| Timers.LogBelowQueue | src/arch/timer.cc:53-61 | after the head is popped and possibly re-queued, no queued token rings before it did |
| Timers.PassComplete | src/arch/timer.cc:53 | when the head is not due, or the queue is empty, every due token has been processed |
| Timers.PassStep | src/arch/timer.cc:53-69 | one loop turn on the due head extends the processed set and the log by that token |
| Timers.Fire | src/arch/timer.cc:63 | the callback's on_timer, dispatched by kind, changes the timer object as AfterFire says: a signal timer drops its token and pulses, a repeating timer records the ring at t and expects the next at t + interval |
| Timers.CoherentQueueDistinct | src/arch/timing.hpp:44 | each timer object holds at most one token, so distinct queued tokens call back distinct timer objects |
| Timers.TimerHandler.IdleUnreferenced | src/arch/timing.hpp:22-24 | a timer that holds no token of the handler is called back by no queued token |
| Timers.TimerHandler.constructor | src/arch/timer.cc:36-40 | an empty queue, no alarm armed, expected_oneshot_time zero |
| Timers.TimerHandler.Teardown | src/arch/timer.cc:42-44 | only an empty queue may be torn down, and then no alarm is armed |
| Timers.TimerHandler.Peek | src/arch/timer.hpp:42-43 | `peek()` is None exactly when the queue is empty and otherwise a token with the soonest next_time |
| Timers.TimerHandler.AddTimerInternal | src/arch/timer.cc:77-96 | a fresh token with exactly the given fields joins the queue and nothing else changes; the alarm is re-armed at next_time exactly when the queue was empty or next_time is earlier than every queued token |
| Timers.TimerHandler.CancelTimer | src/arch/timer.cc:98-105 | exactly that token leaves the queue; the alarm is disarmed exactly when the queue empties and otherwise left alone, so it stays no later than the earliest token |
| Timers.TimerHandler.Pop | src/arch/timer.cc:54-61 | returns the head token and leaves the queue Requeued: a repeating token back at realtime + interval, a one-shot token gone; nothing else changes |
| Timers.TimerHandler.RunCallback | src/arch/timer.cc:63 | the callback's timer object is fired with realtime, and `at` is the token's position in the queue during that call (None when not queued) |
| Timers.TimerHandler.ProcessHead | src/arch/timer.cc:54-68 | the queue becomes Requeued before the callback runs: the position observed during the call is realtime + interval for a repeating token and None for a one-shot token; the callback's object is fired with realtime and the handler invariant is kept |
| Timers.TimerHandler.ServeDue | src/arch/timer.cc:53-68 | one turn on the due head keeps the pass invariant; the head joins the processed tokens, and its call is logged with the queue position observed during the callback |
| Timers.TimerHandler.PassEnd | src/arch/timer.cc:53-69 | once every due token is processed the queue is Drained, nothing left is due, and exactly the due timers have fired |
| Timers.TimerHandler.ServeNext | src/arch/timer.cc:53-69 | the loop test: it stops exactly when every due token is processed, and otherwise one turn runs and strictly shrinks what is left |
| Timers.TimerHandler.RunLoop | src/arch/timer.cc:53-69 | the loop ends with every due token processed |
| Timers.TimerHandler.RunDue | src/arch/timer.cc:50-69 | the pass leaves the Drained queue with nothing due; it logs one call per due token, all with realtime, in non-decreasing next_time order; due timers fire and the others are untouched |
| Timers.TimerHandler.OnOneshot | src/arch/timer.cc:46-75 | on_oneshot drains exactly the due tokens (a past next_time is due at once) and re-arms the alarm at the earliest remaining token, if any; all callbacks get the same time; a re-queued repeating token rings exactly when its timer expects; the handler invariants are kept |
| Timers.SignalTimer.constructor | src/arch/timing.cc:30 | an idle timer: no token, not pulsed |
| Timers.SignalTimer.Started | src/arch/timing.cc:31-33 | constructing with ms behaves as start(ms) on an idle timer: zero pulses and leaves the handler's queue, alarm, next id and log alone; a positive ms queues one one-shot token at now + ms under a fresh id, the alarm follows add_timer_internal's rule (`ArmedAfterAdd`: armed for the new token when the queue was empty or every queued token rings later, otherwise unchanged), and fires nothing |
| Timers.SignalTimer.Start | src/arch/timing.cc:41-50 | requires an idle, unpulsed timer and ms >= 0; zero pulses and queues nothing; a positive ms queues exactly one one-shot token at now + ms under a fresh id, the alarm follows add_timer_internal's rule (`ArmedAfterAdd`: armed for the new token when the queue was empty or every queued token rings later, otherwise unchanged), and fires nothing; zero leaves the handler untouched |
| Timers.SignalTimer.Cancel | src/arch/timing.cc:52-59 | returns true exactly when a token was held; afterwards none is held, the handler no longer queues it, the pulse is unchanged, and is_running() equals the old pulse; the alarm follows cancel_timer's rule (`ArmedAfterCancel`: disarmed when the queue empties, otherwise unchanged), no id is allocated and nothing fires; with no token the handler is untouched |
| Timers.SignalTimer.OnTimer | src/arch/timing.cc:65-68 | the token is dropped and the signal pulsed, so is_running() stays true |
| Timers.SignalTimer.Destroy | src/arch/timing.cc:35-39 | a held token is cancelled, so the handler no longer calls the timer back; the alarm follows cancel_timer's rule (`ArmedAfterCancel`: disarmed when the queue empties, otherwise unchanged) and nothing fires; with no token the handler is untouched |
| Timers.RepeatingTimer.constructor | src/arch/timing.cc:72-80 | interval > 0; expected_next = last_time + interval; one repeating token queued one interval after the clock read under a fresh id; the alarm follows add_timer_internal's rule (`ArmedAfterAdd`: armed for the new token when the queue was empty or every queued token rings later, otherwise unchanged); nothing fires |
| Timers.RepeatingTimer.ChangeInterval | src/arch/timing.cc:96-105 | nothing changes for the same interval; otherwise expected_next becomes min(last_time + new, old expected_next) and never increases, and the token is replaced by a fresh one at that time with the new interval; the alarm is what adding that token to the queue without the old one gives (`ArmedAfterAdd`), and nothing fires; interval_ms() then returns the new interval |
| Timers.RepeatingTimer.ClampNextRing | src/arch/timing.cc:107-114 | when last_time + delay is before expected_next the ring moves there with a fresh token, the interval is kept, the alarm is what adding that token to the queue without the old one gives (`ArmedAfterAdd`) and nothing fires; otherwise nothing changes; either way expected_next ends no later than last_time + delay and interval_ms() is unchanged |
| Timers.RepeatingTimer.OnTimer | src/arch/timing.cc:124-130 | last_time = t, expected_next = t + interval, interval and token kept, ring recorded at t |
| Timers.RepeatingTimer.Reschedule | src/arch/timing.cc:100-104 | the cancel-then-add_timer2 step of change_interval and clamp_next_ring: the old token leaves the queue, a fresh one at `next` with the new interval joins it, the timer's expected_next is `next`, the alarm is ArmedAfterAdd on the queue without the old token, and nothing fires; the handler invariants are kept |
| Timers.RepeatingTimer.Destroy | src/arch/timing.cc:92-94 | the token is always cancelled, so the handler no longer calls the timer back; the alarm follows cancel_timer's rule (`ArmedAfterCancel`: disarmed when the queue empties, otherwise unchanged), no id is allocated and nothing fires |
| Timers.AddTimer2 | src/arch/timer.cc:109-114 | requires a positive interval; queues a repeating token at the given next_time under a fresh id; the alarm follows add_timer_internal's rule (`ArmedAfterAdd`: armed for the new token when the queue was empty or every queued token rings later, otherwise unchanged); expected_oneshot_time and the log are unchanged |
| Timers.AddTimer | src/arch/timer.cc:116-121 | requires a positive interval; queues a repeating token at now + ms under a fresh id; the alarm follows add_timer_internal's rule (`ArmedAfterAdd`: armed for the new token when the queue was empty or every queued token rings later, otherwise unchanged); expected_oneshot_time and the log are unchanged |
| Timers.FireTimerOnce | src/arch/timer.cc:123-127 | always queues a one-shot (interval zero) token at now + ms under a fresh id; the alarm follows add_timer_internal's rule (`ArmedAfterAdd`: armed for the new token when the queue was empty or every queued token rings later, otherwise unchanged); expected_oneshot_time and the log are unchanged |
| Timers.CancelTimer | src/arch/timer.cc:129-131 | removes exactly that token from the handler's queue; the alarm follows cancel_timer's rule (`ArmedAfterCancel`: disarmed when the queue empties, otherwise unchanged); the next id, expected_oneshot_time and the log are unchanged |

## Left out

- `nap` (src/arch/timing.cc:15-26) and the other coroutine machinery (`wait_lazily_ordered`, `wait_interruptible`, `coro_t::yield`, `spawn_now_dangerously`, `ASSERT_FINITE_CORO_WAITING`) involve suspension and concurrency. In `failure()` the nap is reduced to whether its interruptor fired.
- The OS timer provider and `linux_event_queue_t` are reduced to the field `armed`. Arming at a time is assignment; `unschedule_oneshot` is `None`; the alarm consumes itself when it rings.
- Timers.TimerHandler.Peek: the internals of `intrusive_priority_queue_t` are not part of this model. The queue is a map. Ties between earliest tokens go to the least id, where the source's heap breaks them by position.
- The thread-pool lookup `linux_thread_pool_t::get_thread()` is an explicit handler parameter.
- Timers.TimerHandler.OnOneshot: callbacks never re-enter the handler. A repeating timer's ring is recorded in its `rings` log rather than run. A callback that cancels or re-schedules a timer during the pass is therefore not modelled.
- Timers.TimerHandler.ProcessHead: the interval is read before the callback runs. The source reads `token->interval` again after the callback (src/arch/timer.cc:66), and that token may already have been freed by a callback that cancelled its own timer.
- The `repeating_timer_t` constructor taking a `repeating_timer_callback_t*` (src/arch/timing.cc:82-90) differs from the modelled one only in how the ring action is wrapped, and that action is not modelled.
- `is_running()` and `interval_ms()` (src/arch/timing.cc:61-63, src/arch/timing.hpp:73) are plain reads, `Timers.SignalTimer.IsRunning` and `Timers.RepeatingTimer.IntervalMs`. What they return is stated in the contracts of `Cancel`, `SignalTimer.OnTimer`, `ChangeInterval` and `ClampNextRing`.
- Backoff.ExponentialBackoff.Failure: a negative delay is excluded by a precondition. In the source it reaches the nap's `signal_timer_t`, whose `start()` aborts the process (src/arch/timing.cc:47); the abort is not modelled.
- 64-bit overflow is not modelled: durations, time points and the backoff delay are unbounded integers.
- The `double` factors of the backoff are reals, so rounding inside the double product is not modelled.
- Serialization in src/time.hpp and `RDB_MAKE_ME_SERIALIZABLE_3`, and the double `datum` time conversions, are not part of this model.
- The accessors `get_timestamp`, `get_tiebreaker` and `get_ref` are the fields of `Versioned.Entry`.
- Uuids are naturals ordered as the source compares them, with the nil uuid as 0.
- src/clustering/administration/cluster_config.cc, src/clustering/administration/cluster_config.hpp and src/time.cc are not part of this model.

## Findings

| source | as written | input that shows it | evidently intended | confidence | as-written member | corrected member |
|---|---|---|---|---|---|---|
| src/concurrency/exponential_backoff.hpp:22-24 | the guard checks the real product `backoff * fail_factor`, but `backoff_ms *= fail_factor` passes the factor as the int64 rep, truncating 1.5 to 1. `success()` truncates the same way (lines 31-33), so any shrink factor in (0, 1) acts as 0 and one success resets the delay (`Backoff.SuccessHeals`) | min 100, max 1000, factor 1.5, delay 100: the guard sees 150 > 100, and the delay stays 100 on every later failure | the delay grows to 150, then 225, up to the maximum | high; not executed | Backoff.FactorBelowTwoNeverGrows | Backoff.IntendedFailureStep |
| src/rpc/semilattice/joins/versioned.hpp:97 | the new timestamp comes only from the clocks, so a change can lower it | an entry stamped 100 s is changed when the clock reads 10 s: the new timestamp is 11 and the join keeps the old entry | max(previous timestamp + 1, clock), as the comment at lines 91-96 says | high; not executed | Versioned.ChangeCanLowerTimestamp | Versioned.MonotoneChangeTimestamp |
| src/rpc/semilattice/joins/versioned.hpp:97 | two changes in the same second get equal timestamps | changes at 10.0 s and 10.5 s with tiebreakers 9 and 4: the join keeps the first | each change stamped strictly higher than the one before, so the later one wins | high; not executed | Versioned.SameSecondChangesTie | Versioned.MonotoneChangeWins |

The `ExponentialBackoff` and `Versioned` classes keep the code's behaviour. The corrected
definitions stand beside them with their intended properties proved.

/** The per-thread timer scheduler of src/arch/timer.cc and the two timer
    objects of src/arch/timing.cc built on it.

    Time is a count of nanoseconds on the monotonic clock; the public API takes
    milliseconds. Clock reads are parameters (`now`), the OS one-shot alarm is
    the handler's `armed` field, and heap-allocated tokens are ids drawn from a
    counter. A callback is one of the two timer kinds shown in the source; the
    handler dispatches to their on_timer. A repeating timer's ring action is
    spawned as a separate coroutine in the source; here it is recorded in the
    timer's `rings` log and never re-enters the handler. */
module Timers {
  import Time

  datatype Option<T> = None | Some(value: T)

  /** The identity of a heap-allocated timer_token_t. */
  type TokenId = nat

  /** Nanoseconds per millisecond: a milliseconds interval converts exactly to ticks_t. */
  const NsPerMs: int := Time.Milli

  /** The object a token calls back: the two timer_callback_t kinds of this core. */
  datatype Callback = SignalCb(signal: SignalTimer) | RepeatingCb(repeating: RepeatingTimer)

  /** timer_token_t: the ring time, the interval in nanoseconds (zero for a
      one-shot timer) and the callback. */
  datatype Token = Token(interval: int, nextTime: int, callback: Callback)

  /** One call of a callback's on_timer during on_oneshot: the token, the
      next_time it was popped at, the time passed to the callback, and where
      the token stood in the queue while the callback ran (None: not queued). */
  datatype Firing = Firing(token: TokenId, dueAt: int, time: int, queuedAt: Option<int>)

  function CallbackObject(cb: Callback): object {
    match cb
    case SignalCb(s) => s
    case RepeatingCb(r) => r
  }

  /** A callback never calls back a handler. */
  lemma CallbackIsTimer(cb: Callback, h: TimerHandler)
    ensures CallbackObject(cb) != h
  {
  }

  /** `id` is a token the queue may yield from peek(): none rings earlier
      (left_is_higher_priority orders by next_time alone; ties go either way). */
  predicate IsEarliest(q: map<TokenId, Token>, id: TokenId) {
    id in q && forall j | j in q :: q[id].nextTime <= q[j].nextTime
  }

  /** Every token of `q` rings strictly after `t`. */
  predicate AllLater(q: map<TokenId, Token>, t: int) {
    forall j | j in q :: t < q[j].nextTime
  }

  /** The alarm once add_timer_internal has queued a token at `nextTime`
      into `q`: re-armed for it when `q` was empty or the new token rings
      strictly before every token of `q`, otherwise left as `armed`. */
  function ArmedAfterAdd(q: map<TokenId, Token>, armed: Option<int>, nextTime: int): Option<int> {
    if q == map[] || AllLater(q, nextTime) then Some(nextTime) else armed
  }

  /** The alarm once cancel_timer has left the queue `q`: disarmed when `q`
      is empty, otherwise left as `armed` (never re-armed). */
  function ArmedAfterCancel(q: map<TokenId, Token>, armed: Option<int>): Option<int> {
    if q == map[] then None else armed
  }

  /** A non-empty queue has an earliest token. */
  lemma {:induction false} EarliestExists(q: map<TokenId, Token>)
    requires q != map[]
    ensures exists id :: IsEarliest(q, id)
    decreases |q|
  {
    var k :| k in q;
    var rest := q - {k};
    assert forall j | j in q && j != k :: j in rest;
    if rest == map[] {
      assert IsEarliest(q, k);
    } else {
      assert |rest| < |q| by {
        assert rest.Keys == q.Keys - {k};
      }
      EarliestExists(rest);
      var m :| IsEarliest(rest, m);
      if q[k].nextTime < q[m].nextTime {
        forall j | j in q
          ensures q[k].nextTime <= q[j].nextTime
        {
          if j != k {
            assert q[m].nextTime <= rest[j].nextTime;
          }
        }
        assert IsEarliest(q, k);
      } else {
        forall j | j in q
          ensures q[m].nextTime <= q[j].nextTime
        {
          if j != k {
            assert q[m].nextTime <= rest[j].nextTime;
          }
        }
        assert IsEarliest(q, m);
      }
    }
  }

  /** `m` is the least element of `s`. */
  predicate IsLeast(s: set<nat>, m: nat) {
    m in s && forall x | x in s :: m <= x
  }

  /** A non-empty set of naturals has a least element. */
  lemma {:induction false} LeastExists(s: set<nat>)
    requires s != {}
    ensures exists m :: IsLeast(s, m)
    decreases |s|
  {
    var k :| k in s;
    var rest := s - {k};
    assert |rest| == |s| - 1;
    if rest == {} {
      assert s == {k};
      assert IsLeast(s, k);
    } else {
      LeastExists(rest);
      var m :| IsLeast(rest, m);
      var least := if k < m then k else m;
      forall x | x in s
        ensures least <= x
      {
        if x != k {
          assert x in rest;
        }
      }
      assert IsLeast(s, least);
    }
  }

  /** Among the earliest tokens of a non-empty queue there is one with the least id. */
  lemma {:induction false} LeastEarliestExists(q: map<TokenId, Token>)
    requires q != map[]
    ensures exists id :: IsEarliest(q, id) && forall j | IsEarliest(q, j) :: id <= j
  {
    EarliestExists(q);
    var e :| IsEarliest(q, e);
    var ties: set<nat> := set j | j in q && q[j].nextTime == q[e].nextTime;
    assert e in ties;
    LeastExists(ties);
    var m :| IsLeast(ties, m);
    assert IsEarliest(q, m);
    forall j | IsEarliest(q, j)
      ensures m <= j
    {
      EarliestUnique(q, e, j);
      assert j in ties;
    }
  }

  /** All earliest tokens ring at the same time. */
  lemma {:induction false} EarliestUnique(q: map<TokenId, Token>, a: TokenId, b: TokenId)
    requires IsEarliest(q, a) && IsEarliest(q, b)
    ensures q[a].nextTime == q[b].nextTime
  {
    assert q[a].nextTime <= q[b].nextTime;
  }

  /** The queue once on_oneshot has popped token `id`: a repeating token is
      pushed back with next_time = realtime + interval, a one-shot one is gone. */
  function Requeued(q: map<TokenId, Token>, id: TokenId, realtime: int): (r: map<TokenId, Token>)
    requires id in q
    ensures forall j | j in q && j != id :: j in r && r[j] == q[j]
    ensures id in r <==> q[id].interval != 0
    ensures id in r ==> r[id] == q[id].(nextTime := realtime + q[id].interval)
    ensures forall j | j in r :: j in q
  {
    if q[id].interval != 0 then q[id := q[id].(nextTime := realtime + q[id].interval)] else q - {id}
  }

  /** The tokens due at `time`. */
  function DueIds(q: map<TokenId, Token>, time: int): set<TokenId> {
    set id | id in q && q[id].nextTime <= time
  }

  /** The queue once the tokens in `done` have been popped: a repeating one is
      back with next_time = realtime + interval, a one-shot one is gone. */
  function Processed(q: map<TokenId, Token>, done: set<TokenId>, realtime: int): map<TokenId, Token> {
    map id | id in q && (id !in done || q[id].interval != 0) ::
      if id in done then q[id].(nextTime := realtime + q[id].interval) else q[id]
  }

  /** The queue after one on_oneshot pass that processes everything due at `time`. */
  function Drained(q: map<TokenId, Token>, time: int, realtime: int): map<TokenId, Token> {
    Processed(q, DueIds(q, time), realtime)
  }

  /** When the pass is on time (the clamp did not raise the time), nothing is
      left due: one-shot tokens are gone and repeating ones are re-queued a
      whole interval later; untouched tokens keep their place. */
  lemma {:induction false} DrainedLeavesNothingDue(q: map<TokenId, Token>, time: int)
    requires forall id | id in q :: q[id].interval >= 0
    ensures AllLater(Drained(q, time, time), time)
    ensures forall id | id in q ::
      (id in Drained(q, time, time) <==> q[id].nextTime > time || q[id].interval != 0)
    ensures forall id | id in q && q[id].nextTime > time :: Drained(q, time, time)[id] == q[id]
  {
    var d := Drained(q, time, time);
    forall j | j in d
      ensures time < d[j].nextTime
    {
      if j in DueIds(q, time) {
        assert q[j].interval != 0;
      }
    }
  }

  /** Distinct tokens of `q` call back distinct timer objects. */
  predicate DistinctCallbacks(q: map<TokenId, Token>) {
    forall i, j | i in q && j in q && i != j ::
      CallbackObject(q[i].callback) != CallbackObject(q[j].callback)
  }

  /** The tokens a log of calls mentions. */
  ghost function Tokens(pass: seq<Firing>): set<TokenId> {
    if pass == [] then {} else Tokens(pass[..|pass| - 1]) + {pass[|pass| - 1].token}
  }

  /** `pass` is the log of one on_oneshot pass over the queue `q` that has
      processed the tokens `done`: one call per token, all with the time
      `realtime`, in non-decreasing order of next_time, a repeating token
      already back in the queue at realtime + interval while its callback ran,
      a one-shot token no longer in it. */
  ghost predicate FiredPass(pass: seq<Firing>, q: map<TokenId, Token>, realtime: int, done: set<TokenId>) {
    && done <= q.Keys
    && |pass| == |done|
    && (forall k | 0 <= k < |pass| ::
          && pass[k].token in done
          && pass[k].time == realtime
          && pass[k].dueAt == q[pass[k].token].nextTime
          && pass[k].queuedAt == QueuedAt(q[pass[k].token], realtime))
    && Tokens(pass) == done
    && (forall k, l | 0 <= k < l < |pass| :: pass[k].dueAt <= pass[l].dueAt)
  }

  /** Where `token` stands in the queue while its callback, called with
      `realtime`, runs: back at realtime + interval when it repeats, and not
      queued (None) when it is a one-shot. */
  function QueuedAt(token: Token, realtime: int): Option<int> {
    if token.interval != 0 then Some(realtime + token.interval) else None
  }

  /** The firing for token `id` of `q0` in a pass that calls back with `realtime`. */
  function FiringOf(q0: map<TokenId, Token>, id: TokenId, realtime: int): Firing
    requires id in q0
  {
    Firing(id, q0[id].nextTime, realtime, QueuedAt(q0[id], realtime))
  }

  /** The firing logged with the queue position observed during the
      callback is the one FiringOf predicts. */
  lemma LoggedIsFiringOf(q0: map<TokenId, Token>, id: TokenId, realtime: int, at: Option<int>)
    requires id in q0
    requires at == QueuedAt(q0[id], realtime)
    ensures Firing(id, q0[id].nextTime, realtime, at) == FiringOf(q0, id, realtime)
  {
  }

  /** One step of the on_oneshot loop on the queue: the earliest token, when
      due, has not been processed yet, still has its original fields, and
      processing it gives the queue with that token popped and, if it repeats,
      pushed back at realtime + interval. */
  lemma {:induction false} PopStep(q0: map<TokenId, Token>, done: set<TokenId>, realtime: int, time: int, id: TokenId)
    requires done <= DueIds(q0, time)
    requires IsEarliest(Processed(q0, done, realtime), id)
    requires Processed(q0, done, realtime)[id].nextTime <= time
    requires forall j | j in done && j in Processed(q0, done, realtime) :: time < Processed(q0, done, realtime)[j].nextTime
    ensures id in q0 && id !in done && id in DueIds(q0, time)
    ensures Processed(q0, done, realtime)[id] == q0[id]
    ensures Processed(q0, done + {id}, realtime) == Requeued(Processed(q0, done, realtime), id, realtime)
    ensures |DueIds(q0, time) - (done + {id})| < |DueIds(q0, time) - done|
  {
    var due := DueIds(q0, time);
    assert (due - done) == (due - (done + {id})) + {id};
  }

  /** One step of the on_oneshot loop on the log: appending the call for the
      earliest due token keeps the log of the pass well-formed and ordered. */
  lemma {:induction false} LogStep(pass: seq<Firing>, q0: map<TokenId, Token>, realtime: int, done: set<TokenId>, id: TokenId, q: map<TokenId, Token>)
    requires FiredPass(pass, q0, realtime, done)
    requires id in q0 && id !in done && IsEarliest(q, id) && q[id] == q0[id]
    requires pass != [] ==> AllLater(q, pass[|pass| - 1].dueAt - 1)
    ensures FiredPass(pass + [FiringOf(q0, id, realtime)], q0, realtime, done + {id})
  {
    var e := FiringOf(q0, id, realtime);
    var pass' := pass + [e];
    assert pass'[..|pass'| - 1] == pass;
    assert Tokens(pass') == done + {id};
    assert |done + {id}| == |done| + 1;
    forall k | 0 <= k < |pass'|
      ensures pass'[k].token in done + {id} && pass'[k].time == realtime
      ensures pass'[k].dueAt == q0[pass'[k].token].nextTime
      ensures pass'[k].queuedAt == QueuedAt(q0[pass'[k].token], realtime)
    {
      if k < |pass| {
        assert pass'[k] == pass[k];
      }
    }
    forall k, l | 0 <= k < l < |pass'|
      ensures pass'[k].dueAt <= pass'[l].dueAt
    {
      assert pass'[k] == pass[k];
      if l < |pass| {
        assert pass'[l] == pass[l];
      } else {
        var last := pass[|pass| - 1];
        assert pass[k].dueAt <= last.dueAt;
        assert last.dueAt - 1 < q[id].nextTime;
      }
    }
    assert done + {id} <= q0.Keys;
    assert |pass'| == |done + {id}|;
    assert FiredPass(pass', q0, realtime, done + {id});
  }

  /** After popping the earliest due token and re-queuing it past `time` if
      it repeats, no queued token rings before the popped one did. */
  lemma {:induction false} LogBelowQueue(q: map<TokenId, Token>, id: TokenId, time: int)
    requires IsEarliest(q, id) && q[id].nextTime <= time && q[id].interval >= 0
    ensures AllLater(Requeued(q, id, time), q[id].nextTime - 1)
  {
  }

  /** When the head is not due (or there is none), every due token has been
      processed. */
  lemma {:induction false} PassComplete(q0: map<TokenId, Token>, done: set<TokenId>, realtime: int, time: int)
    requires done <= DueIds(q0, time)
    requires AllLater(Processed(q0, done, realtime), time)
    ensures done == DueIds(q0, time)
  {
    forall id | id in DueIds(q0, time)
      ensures id in done
    {
      assert id !in done ==> id in Processed(q0, done, realtime);
    }
  }

  /** Part-way through on_oneshot's pass at `time` over the queue `q0`: the
      tokens `done` have been processed, earliest first, and logged in
      `pass`, and `q` is the queue they left, all of whose ids are below
      `bound`. */
  ghost predicate PassSoFar(q: map<TokenId, Token>, bound: nat, time: int, realtime: int,
                            q0: map<TokenId, Token>, done: set<TokenId>, pass: seq<Firing>) {
    && time == realtime && done <= DueIds(q0, time)
    && q == Processed(q0, done, realtime)
    && (forall j | j in q :: j < bound && q[j].interval >= 0 && q[j].nextTime >= 0)
    && (forall j | j in done && j in q :: time < q[j].nextTime)
    && FiredPass(pass, q0, realtime, done)
    && (pass != [] ==> AllLater(q, pass[|pass| - 1].dueAt - 1))
    && DistinctCallbacks(q0)
  }

  /** Processing the due head `id` extends the pass by one token and one
      logged call. */
  lemma {:induction false} PassStep(q: map<TokenId, Token>, bound: nat, time: int, realtime: int,
                                    q0: map<TokenId, Token>, done: set<TokenId>, pass: seq<Firing>, id: TokenId)
    requires PassSoFar(q, bound, time, realtime, q0, done, pass)
    requires IsEarliest(q, id) && q[id].nextTime <= time
    ensures id in DueIds(q0, time) && id !in done && q[id] == q0[id]
    ensures PassSoFar(Requeued(q, id, realtime), bound, time, realtime, q0, done + {id},
                      pass + [FiringOf(q0, id, realtime)])
  {
    PopStep(q0, done, realtime, time, id);
    LogStep(pass, q0, realtime, done, id, q);
    LogBelowQueue(q, id, realtime);
    var r := Requeued(q, id, realtime);
    var pass' := pass + [FiringOf(q0, id, realtime)];
    assert r == Processed(q0, done + {id}, realtime);
    assert FiredPass(pass', q0, realtime, done + {id});
    assert AllLater(r, pass'[|pass'| - 1].dueAt - 1);
    forall j | j in r
      ensures j < bound && r[j].interval >= 0 && r[j].nextTime >= 0
      ensures j in done + {id} ==> time < r[j].nextTime
    {
      if j != id {
        assert r[j] == q[j];
      }
    }
  }

  /** A handler is never among the timer objects its queue calls back. */
  lemma HandlerNotCalledBack(h: TimerHandler, q: map<TokenId, Token>)
    ensures forall id | id in q :: CallbackObject(q[id].callback) != h
    ensures h !in ObjectsOf(q)
  {
    forall id | id in q
      ensures CallbackObject(q[id].callback) != h
    {
      CallbackIsTimer(q[id].callback, h);
    }
  }

  /** The fields of a timer object that on_timer touches. */
  datatype TimerState =
    | SignalState(held: Option<TokenId>, pulsed: bool)
    | RepeatingState(interval: int, lastTime: int, expectedNext: int, token: TokenId, rings: seq<int>)

  /** The current fields of the timer object `cb` calls back. */
  function StateOf(cb: Callback): TimerState
    reads CallbackObject(cb)
  {
    match cb
    case SignalCb(s) => SignalState(s.token, s.pulsed)
    case RepeatingCb(r) => RepeatingState(r.interval, r.lastTime, r.expectedNext, r.token, r.rings)
  }

  /** The effect of on_timer(time): a signal timer forgets its token and
      pulses; a repeating timer records the ring at `time` and expects the
      next one a whole interval later. */
  function AfterFire(st: TimerState, time: int): TimerState
  {
    match st
    case SignalState(_, _) => SignalState(None, true)
    case RepeatingState(i, _, _, t, rs) => RepeatingState(i, time, time + i * NsPerMs, t, rs + [time])
  }

  /** callback->on_timer(time), dispatched over the callback kinds. */
  method Fire(cb: Callback, time: int)
    modifies CallbackObject(cb)
    ensures StateOf(cb) == AfterFire(old(StateOf(cb)), time)
  {
    match cb
    case SignalCb(s) => s.OnTimer(time);
    case RepeatingCb(r) => r.OnTimer(time);
  }

  /** The timer objects the tokens of `q` call back. */
  ghost function ObjectsOf(q: map<TokenId, Token>): set<object> {
    set id | id in q :: CallbackObject(q[id].callback)
  }

  /** A token `id` queued in handler `h` and the timer object it calls back
      agree: the timer holds that token and belongs to `h`; a signal timer's
      token is one-shot; a repeating timer's token repeats at its interval and
      rings no earlier than the timer expects. */
  ghost predicate Agrees(h: TimerHandler, id: TokenId, tok: Token)
    reads CallbackObject(tok.callback)
  {
    match tok.callback
    case SignalCb(s) =>
      s.handler == h && s.token == Some(id) && tok.interval == 0
    case RepeatingCb(r) =>
      && r.handler == h && r.token == id && r.interval > 0
      && tok.interval == r.interval * NsPerMs
      && 0 <= r.lastTime && 0 <= r.expectedNext <= tok.nextTime
  }

  /** Every token of `q`, queued in `h`, agrees with its timer object. */
  ghost predicate CoherentQueue(h: TimerHandler, q: map<TokenId, Token>)
    reads ObjectsOf(q)
  {
    forall id | id in q :: Agrees(h, id, q[id])
  }

  /** Dropping a token keeps a queue coherent. */
  lemma CoherentRemove(h: TimerHandler, q: map<TokenId, Token>, id: TokenId)
    requires CoherentQueue(h, q)
    ensures CoherentQueue(h, q - {id})
  {
    forall j | j in q - {id}
      ensures Agrees(h, j, (q - {id})[j])
    {
      assert Agrees(h, j, q[j]);
    }
  }

  /** Queuing a token that agrees with its timer object keeps a queue coherent. */
  lemma CoherentInsert(h: TimerHandler, q: map<TokenId, Token>, id: TokenId, tok: Token)
    requires CoherentQueue(h, q) && Agrees(h, id, tok)
    ensures CoherentQueue(h, q[id := tok])
  {
    var r := q[id := tok];
    forall j | j in r
      ensures Agrees(h, j, r[j])
    {
      if j != id {
        assert Agrees(h, j, q[j]);
      }
    }
  }

  /** Two distinct tokens of a queue with distinct callbacks call back
      different timer objects. */
  lemma DistinctAt(q: map<TokenId, Token>, i: TokenId, j: TokenId)
    requires DistinctCallbacks(q) && i in q && j in q && i != j
    ensures CallbackObject(q[i].callback) != CallbackObject(q[j].callback)
  {
  }

  /** In a coherent queue, distinct tokens call back distinct timer objects:
      each timer object holds only one token. */
  lemma CoherentQueueDistinct(h: TimerHandler, q: map<TokenId, Token>)
    requires CoherentQueue(h, q)
    ensures DistinctCallbacks(q)
  {
    forall i, j | i in q && j in q && i != j
      ensures CallbackObject(q[i].callback) != CallbackObject(q[j].callback)
    {
      assert Agrees(h, i, q[i]) && Agrees(h, j, q[j]);
    }
  }

  /** timer_handler_t: the token queue and the one OS one-shot alarm under it. */
  class TimerHandler {
    /** token_queue, as a map from each queued token to its fields. */
    var queue: map<TokenId, Token>
    /** The time the OS one-shot alarm is armed for, if any. */
    var armed: Option<int>
    /** Set to zero by the constructor and never assigned again. */
    var expectedOneshotTime: int
    /** Ids not yet handed out: stands for allocation of fresh tokens. */
    var nextId: nat
    /** Every on_timer call made so far, in order. */
    ghost var fired: seq<Firing>

    /** The handler's invariant. The alarm is armed exactly while tokens are
        queued, and never later than the earliest of them (cancel_timer may
        leave it earlier). */
    ghost predicate Valid()
      reads this
    {
      && expectedOneshotTime == 0
      && (forall id | id in queue :: id < nextId && queue[id].interval >= 0 && queue[id].nextTime >= 0)
      && (armed.Some? <==> queue != map[])
      && (armed.Some? ==> forall id | id in queue :: armed.value <= queue[id].nextTime)
    }

    /** The timer objects the queued tokens call back. */
    ghost function Objects(): set<object>
      reads this
    {
      ObjectsOf(queue)
    }

    /** Every queued token agrees with its timer object. */
    ghost predicate Coherent()
      reads this, Objects()
    {
      CoherentQueue(this, queue)
    }

    /** No queued token calls back `o`. */
    ghost predicate Unreferenced(o: object)
      reads this
    {
      forall id | id in queue :: CallbackObject(queue[id].callback) != o
    }

    /** A timer object that holds no token of this handler is called back by
        no queued token. */
    lemma IdleUnreferenced(o: object)
      requires Coherent()
      requires o is SignalTimer ==> (o as SignalTimer).token == None
      requires o is RepeatingTimer ==> (o as RepeatingTimer).token !in queue
      ensures Unreferenced(o)
    {
      forall id | id in queue
        ensures CallbackObject(queue[id].callback) != o
      {
        assert Agrees(this, id, queue[id]);
      }
    }

    /** In a coherent queue, a repeating timer of this handler is called
        back by no token other than its own. */
    lemma OnlyOwnToken(r: RepeatingTimer)
      requires Coherent() && r.handler == this && r.token in queue
      ensures forall j | j in queue && j != r.token :: CallbackObject(queue[j].callback) != r
    {
      forall j | j in queue && j != r.token
        ensures CallbackObject(queue[j].callback) != r
      {
        assert Agrees(this, j, queue[j]);
      }
    }

    constructor ()
      ensures Valid() && Coherent()
      ensures queue == map[] && armed == None && expectedOneshotTime == 0 && fired == []
    {
      queue := map[];
      armed := None;
      expectedOneshotTime := 0;
      nextId := 0;
      fired := [];
    }

    /** ~timer_handler_t(): only an empty queue may be torn down, and then no
        alarm is left armed. */
    method Teardown()
      requires Valid() && queue == map[]
      ensures armed == None
    {
    }

    /** token_queue.peek(): an earliest token, or None when the queue is empty.
        Ties, which the source's heap breaks by position, go to the least id. */
    function Peek(): (head: Option<TokenId>)
      reads this
      ensures head == None <==> queue == map[]
      ensures head.Some? ==> IsEarliest(queue, head.value)
    {
      if queue == map[] then None
      else
        LeastEarliestExists(queue);
        var id :| IsEarliest(queue, id) && forall j | IsEarliest(queue, j) :: id <= j;
        Some(id)
    }

    /** add_timer_internal(next_time, interval, callback). The alarm is re-armed
        for the new token exactly when the queue was empty or the new token
        rings strictly before the previous head. */
    method AddTimerInternal(nextTime: int, intervalMs: int, cb: Callback) returns (id: TokenId)
      requires Valid() && nextTime >= 0 && intervalMs >= 0
      modifies this
      ensures Valid()
      ensures id == old(nextId) && id !in old(queue) && nextId == old(nextId) + 1
      ensures queue == old(queue)[id := Token(intervalMs * NsPerMs, nextTime, cb)]
      ensures armed == ArmedAfterAdd(old(queue), old(armed), nextTime)
      ensures expectedOneshotTime == old(expectedOneshotTime) && fired == old(fired)
    {
      var top := Peek();
      var topTime := if top == None then 0 else queue[top.value].nextTime;
      id := nextId;
      nextId := nextId + 1;
      queue := queue[id := Token(intervalMs * NsPerMs, nextTime, cb)];
      assert id in queue;
      if top == None || nextTime < topTime {
        armed := Some(nextTime);
      } else {
        assert old(queue) != map[] && old(armed).Some?;
        assert top.value in old(queue) && !AllLater(old(queue), nextTime);
        assert old(armed).value <= topTime <= nextTime;
      }
    }

    /** cancel_timer(token): remove and free the token; disarm the alarm when
        nothing is left. Removing the head does not re-arm the alarm. */
    method CancelTimer(id: TokenId)
      requires Valid() && id in queue
      modifies this
      ensures Valid()
      ensures queue == old(queue) - {id}
      ensures armed == ArmedAfterCancel(queue, old(armed))
      ensures nextId == old(nextId) && expectedOneshotTime == old(expectedOneshotTime) && fired == old(fired)
    {
      queue := queue - {id};
      if queue == map[] {
        armed := None;
      }
    }

    /** token_queue.pop() of the head `id`, and its push back at
        realtime + interval when it repeats. */
    method Pop(id: TokenId, realtime: nat) returns (token: Token)
      requires id in queue
      modifies this
      ensures token == old(queue)[id]
      ensures queue == Requeued(old(queue), id, realtime)
      ensures armed == old(armed) && nextId == old(nextId) && expectedOneshotTime == old(expectedOneshotTime)
      ensures fired == old(fired)
    {
      token := queue[id];
      queue := queue - {id};
      if token.interval != 0 {
        queue := queue[id := token.(nextTime := realtime + token.interval)];
        assert queue == old(queue)[id := token.(nextTime := realtime + token.interval)];
      }
    }

    /** callback->on_timer(realtime) for token `id`; `at` is where the token
        stands in the queue while the callback runs (None: not queued). */
    method RunCallback(id: TokenId, cb: Callback, realtime: nat) returns (ghost at: Option<int>)
      modifies CallbackObject(cb)
      ensures at == if id in queue then Some(queue[id].nextTime) else None
      ensures StateOf(cb) == AfterFire(old(StateOf(cb)), realtime)
    {
      CallbackIsTimer(cb, this);
      at := if id in queue then Some(queue[id].nextTime) else None;
      Fire(cb, realtime);
    }

    /** One turn of on_oneshot's loop on the head token `id`: pop it, push it
        back at realtime + interval if it repeats, and only then call its
        callback with `realtime` (a one-shot token is freed after the call). */
    method ProcessHead(id: TokenId, realtime: nat) returns (ghost at: Option<int>)
      requires id in queue && queue[id].interval >= 0
      requires CoherentQueue(this, queue)
      modifies this, CallbackObject(queue[id].callback)
      ensures at == QueuedAt(old(queue)[id], realtime)
      ensures queue == Requeued(old(queue), id, realtime)
      ensures armed == old(armed) && nextId == old(nextId) && expectedOneshotTime == old(expectedOneshotTime)
      ensures fired == old(fired)
      ensures StateOf(old(queue)[id].callback) == AfterFire(old(StateOf(queue[id].callback)), realtime)
      ensures CoherentQueue(this, queue)
    {
      CoherentQueueDistinct(this, queue);
      HandlerNotCalledBack(this, queue);
      var token := Pop(id, realtime);
      at := RunCallback(id, token.callback, realtime);
      forall j | j in queue
        ensures Agrees(this, j, queue[j])
      {
        if j != id {
          DistinctAt(old(queue), j, id);
          assert old(Agrees(this, j, queue[j]));
          assert unchanged(CallbackObject(queue[j].callback));
        }
      }
    }

    /** Part-way through on_oneshot's pass over `q0`, as PassSoFar says,
        with the timer objects of the processed tokens fired with `realtime`
        and the others still holding their fields `s0` from before the pass. */
    ghost predicate Midpass(time: int, realtime: int, q0: map<TokenId, Token>,
                            s0: map<TokenId, TimerState>, done: set<TokenId>, pass: seq<Firing>)
      reads this, ObjectsOf(q0), ObjectsOf(queue)
    {
      && PassSoFar(queue, nextId, time, realtime, q0, done, pass)
      && q0.Keys <= s0.Keys
      && (forall k | k in q0 ::
            StateOf(q0[k].callback) == if k in done then AfterFire(s0[k], realtime) else s0[k])
      && CoherentQueue(this, queue)
    }

    /** One turn of on_oneshot's loop, on the due head token `id`: process it
        and log the call. */
    method ServeDue(id: TokenId, time: int, realtime: nat, ghost q0: map<TokenId, Token>,
                    ghost s0: map<TokenId, TimerState>, ghost done: set<TokenId>, ghost pass: seq<Firing>)
      returns (ghost pass': seq<Firing>)
      requires Midpass(time, realtime, q0, s0, done, pass)
      requires IsEarliest(queue, id) && queue[id].nextTime <= time
      modifies this, CallbackObject(queue[id].callback)
      ensures id in DueIds(q0, time) && id !in done
      ensures armed == old(armed) && nextId == old(nextId) && expectedOneshotTime == old(expectedOneshotTime)
      ensures fired == old(fired)
      ensures Midpass(time, realtime, q0, s0, done + {id}, pass')
    {
      PassStep(queue, nextId, time, realtime, q0, done, pass, id);
      CallbackIsTimer(queue[id].callback, this);
      HandlerNotCalledBack(this, q0);
      assert StateOf(q0[id].callback) == s0[id];
      ghost var head := queue[id];
      assert head == q0[id];
      var at := ProcessHead(id, realtime);
      LoggedIsFiringOf(q0, id, realtime, at);
      forall k | k in q0
        ensures StateOf(q0[k].callback) == if k in done + {id} then AfterFire(s0[k], realtime) else s0[k]
      {
        if k != id {
          DistinctAt(q0, k, id);
          assert CallbackObject(q0[k].callback) != this;
          assert unchanged(CallbackObject(q0[k].callback));
        }
      }
      pass' := pass + [Firing(id, q0[id].nextTime, realtime, at)];
    }

    /** Once every due token is processed, the pass is over: the queue is
        the drained one, nothing in it is due, and every due timer object
        has fired while the others kept their fields. */
    lemma PassEnd(time: int, realtime: int, q0: map<TokenId, Token>, s0: map<TokenId, TimerState>, pass: seq<Firing>)
      requires Midpass(time, realtime, q0, s0, DueIds(q0, time), pass)
      ensures queue == Drained(q0, time, realtime) && AllLater(queue, time)
      ensures forall id | id in queue :: id < nextId && queue[id].interval >= 0 && queue[id].nextTime >= 0
      ensures FiredPass(pass, q0, realtime, DueIds(q0, time))
      ensures forall id | id in q0 ::
        StateOf(q0[id].callback) == if id in DueIds(q0, time) then AfterFire(s0[id], realtime) else s0[id]
      ensures CoherentQueue(this, queue)
    {
      forall j | j in queue
        ensures time < queue[j].nextTime
      {
        assert j in q0;
      }
    }

    /** One test of on_oneshot's loop condition and, when the head is due,
        one turn of the loop: `more` tells whether the turn ran. */
    method ServeNext(time: int, realtime: nat, ghost q0: map<TokenId, Token>,
                     ghost s0: map<TokenId, TimerState>, ghost done: set<TokenId>, ghost pass: seq<Firing>)
      returns (more: bool, ghost done': set<TokenId>, ghost pass': seq<Firing>)
      requires Midpass(time, realtime, q0, s0, done, pass)
      modifies this, ObjectsOf(q0)
      ensures armed == old(armed) && nextId == old(nextId) && expectedOneshotTime == old(expectedOneshotTime)
      ensures fired == old(fired)
      ensures Midpass(time, realtime, q0, s0, done', pass')
      ensures !more ==> done' == DueIds(q0, time)
      ensures more ==> |DueIds(q0, time) - done'| < |DueIds(q0, time) - done|
    {
      var head := Peek();
      if head == None || queue[head.value].nextTime > time {
        PassComplete(q0, done, realtime, time);
        return false, done, pass;
      }
      var id := head.value;
      PopStep(q0, done, realtime, time, id);
      assert CallbackObject(queue[id].callback) in ObjectsOf(q0);
      pass' := ServeDue(id, time, realtime, q0, s0, done, pass);
      more, done' := true, done + {id};
    }

    /** The loop of on_oneshot(), from the start of the pass over `q0`, whose
        timer objects then held `s0`, to the first head not due at `time`. */
    method RunLoop(time: int, realtime: nat, ghost q0: map<TokenId, Token>, ghost s0: map<TokenId, TimerState>)
      returns (ghost pass: seq<Firing>)
      requires Midpass(time, realtime, q0, s0, {}, [])
      modifies this, ObjectsOf(q0)
      ensures armed == old(armed) && nextId == old(nextId) && expectedOneshotTime == old(expectedOneshotTime)
      ensures fired == old(fired)
      ensures Midpass(time, realtime, q0, s0, DueIds(q0, time), pass)
    {
      ghost var due := DueIds(q0, time);
      ghost var done: set<TokenId> := {};
      pass := [];
      while true
        invariant armed == old(armed) && nextId == old(nextId) && expectedOneshotTime == old(expectedOneshotTime)
        invariant fired == old(fired)
        invariant Midpass(time, realtime, q0, s0, done, pass)
        decreases |due - done|
      {
        var more;
        more, done, pass := ServeNext(time, realtime, q0, s0, done, pass);
        if !more {
          break;
        }
      }
    }

    /** The pass of on_oneshot(): pop every token due at `time`, earliest
        first; a repeating one is pushed back at realtime + interval before its
        callback runs, a one-shot one is freed after; every callback gets
        `realtime`. `pass` is the log of the calls. Valid() keeps
        expected_oneshot_time at zero, so the two times coincide here. */
    method RunDue(time: int, realtime: nat) returns (ghost pass: seq<Firing>)
      requires time == realtime
      requires forall id | id in queue :: id < nextId && queue[id].interval >= 0 && queue[id].nextTime >= 0
      requires CoherentQueue(this, queue)
      modifies this, Objects()
      ensures queue == Drained(old(queue), time, realtime) && AllLater(queue, time)
      ensures forall id | id in queue :: id < nextId && queue[id].interval >= 0 && queue[id].nextTime >= 0
      ensures armed == old(armed) && nextId == old(nextId) && expectedOneshotTime == old(expectedOneshotTime)
      ensures fired == old(fired)
      ensures FiredPass(pass, old(queue), realtime, DueIds(old(queue), time))
      ensures forall id | id in old(queue) ::
        StateOf(old(queue)[id].callback) ==
          if id in DueIds(old(queue), time) then AfterFire(old(StateOf(queue[id].callback)), realtime)
          else old(StateOf(queue[id].callback))
      ensures CoherentQueue(this, queue)
    {
      ghost var q0 := queue;
      ghost var s0 := map id | id in q0 :: StateOf(q0[id].callback);
      CoherentQueueDistinct(this, queue);
      pass := RunLoop(time, realtime, q0, s0);
      PassEnd(time, realtime, q0, s0, pass);
    }

    /** on_oneshot(): the OS alarm rang (consuming itself) at monotonic time
        `now`. The due tokens are processed as RunDue says, with
        time = max(now, expected_oneshot_time) = now; then the alarm is
        re-armed for the new head, if any. The interval is read before the
        callback runs (see README). */
    method OnOneshot(now: nat)
      requires Valid() && Coherent()
      modifies this, Objects()
      ensures Valid() && Coherent()
      ensures queue == Drained(old(queue), now, now)
      ensures AllLater(queue, if now < expectedOneshotTime then expectedOneshotTime else now)
      ensures queue != map[] ==> exists id :: IsEarliest(queue, id) && armed == Some(queue[id].nextTime)
      ensures nextId == old(nextId) && expectedOneshotTime == old(expectedOneshotTime)
      ensures |fired| >= |old(fired)|
      ensures fired[..|old(fired)|] == old(fired)
      ensures FiredPass(fired[|old(fired)|..], old(queue), now, DueIds(old(queue), now))
      ensures forall id | id in old(queue) ::
        StateOf(old(queue)[id].callback) ==
          if id in DueIds(old(queue), now) then AfterFire(old(StateOf(queue[id].callback)), now)
          else old(StateOf(queue[id].callback))
      ensures forall id | id in DueIds(old(queue), now) && id in queue && queue[id].callback.RepeatingCb? ::
        queue[id].nextTime == queue[id].callback.repeating.expectedNext
    {
      armed := None;
      var realtime := now;
      var time := if realtime < expectedOneshotTime then expectedOneshotTime else realtime;
      ghost var q0 := queue;
      ghost var f0 := fired;
      ghost var pass := RunDue(time, realtime);
      HandlerNotCalledBack(this, queue);
      HandlerNotCalledBack(this, q0);
      label Exit:
      fired := fired + pass;
      assert fired[..|f0|] == f0 && fired[|f0|..] == pass;
      if queue != map[] {
        var head := Peek();
        armed := Some(queue[head.value].nextTime);
      }
      forall id | id in q0
        ensures StateOf(q0[id].callback) == old@Exit(StateOf(q0[id].callback))
      {
        assert unchanged@Exit(CallbackObject(q0[id].callback));
      }
      forall id | id in queue
        ensures Agrees(this, id, queue[id])
      {
        assert unchanged@Exit(CallbackObject(queue[id].callback));
      }
      forall id | id in DueIds(q0, now) && id in queue && queue[id].callback.RepeatingCb?
        ensures queue[id].nextTime == queue[id].callback.repeating.expectedNext
      {
        assert old(Agrees(this, id, q0[id]));
      }
    }
  }

  /** signal_timer_t: a one-shot waitable. `token` is its timer_token_t
      pointer (None for nullptr) and `pulsed` the state of its signal. */
  class SignalTimer {
    /** The thread's handler, which the source reaches through the thread pool. */
    const handler: TimerHandler
    var token: Option<TokenId>
    var pulsed: bool

    /** A token the timer holds is queued in its handler and calls it back. */
    ghost predicate Registered()
      reads this, handler
    {
      token.Some? ==> token.value in handler.queue && handler.queue[token.value].callback == SignalCb(this)
    }

    /** signal_timer_t(): idle, holding no token. */
    constructor (h: TimerHandler)
      ensures handler == h && token == None && !pulsed
    {
      handler := h;
      token := None;
      pulsed := false;
    }

    /** signal_timer_t(ms): constructs and starts. */
    constructor Started(h: TimerHandler, ms: int, now: nat)
      requires ms >= 0 && h.Valid() && h.Coherent()
      modifies h
      ensures handler == h && Registered() && h.Valid() && h.Coherent()
      ensures ms == 0 ==> pulsed && token == None && h.queue == old(h.queue)
      ensures ms > 0 ==>
        (!pulsed && token == Some(old(h.nextId))
         && h.queue == old(h.queue)[old(h.nextId) := Token(0, now + ms * NsPerMs, SignalCb(this))])
      ensures ms > 0 ==>
        && h.nextId == old(h.nextId) + 1
        && h.armed == ArmedAfterAdd(old(h.queue), old(h.armed), now + ms * NsPerMs)
        && h.expectedOneshotTime == old(h.expectedOneshotTime) && h.fired == old(h.fired)
      ensures ms == 0 ==> h.armed == old(h.armed) && h.nextId == old(h.nextId) && h.fired == old(h.fired)
    {
      handler := h;
      token := None;
      pulsed := false;
      new;
      Start(ms, now);
    }

    /** start(ms): only while idle. A zero delay pulses at once and queues
        nothing; a positive one queues exactly one one-shot token. */
    method Start(ms: int, now: nat)
      requires token == None && !pulsed && ms >= 0
      requires handler.Valid() && handler.Coherent()
      modifies this, handler
      ensures handler.Valid() && handler.Coherent() && Registered() && IsRunning()
      ensures ms == 0 ==> pulsed && token == None && unchanged(handler)
      ensures ms > 0 ==>
        (!pulsed && token == Some(old(handler.nextId))
         && handler.queue == old(handler.queue)[old(handler.nextId) := Token(0, now + ms * NsPerMs, SignalCb(this))])
      ensures ms > 0 ==>
        && handler.nextId == old(handler.nextId) + 1
        && handler.armed == ArmedAfterAdd(old(handler.queue), old(handler.armed), now + ms * NsPerMs)
        && handler.expectedOneshotTime == old(handler.expectedOneshotTime) && handler.fired == old(handler.fired)
    {
      if ms == 0 {
        pulsed := true;
      } else {
        handler.IdleUnreferenced(this);
        var id := FireTimerOnce(handler, ms, SignalCb(this), now);
        token := Some(id);
      }
    }

    /** cancel(): true exactly when a token was held; afterwards none is held
        and the handler no longer queues it. The pulse is left as it was. */
    method Cancel() returns (cancelled: bool)
      requires Registered() && handler.Valid() && handler.Coherent()
      modifies this, handler
      ensures cancelled <==> old(token).Some?
      ensures token == None && pulsed == old(pulsed)
      ensures IsRunning() == old(pulsed)
      ensures handler.Valid() && handler.Coherent() && handler.Unreferenced(this)
      ensures old(token).Some? ==> handler.queue == old(handler.queue) - {old(token).value}
      ensures old(token).Some? ==>
        && handler.armed == ArmedAfterCancel(handler.queue, old(handler.armed))
        && handler.nextId == old(handler.nextId)
        && handler.expectedOneshotTime == old(handler.expectedOneshotTime) && handler.fired == old(handler.fired)
      ensures old(token).None? ==> unchanged(handler)
    {
      if token.Some? {
        CancelTimer(handler, token.value);
        token := None;
        cancelled := true;
      } else {
        cancelled := false;
      }
      handler.IdleUnreferenced(this);
    }

    /** is_running(): pulsed, or a token is held. */
    function IsRunning(): bool
      reads this
    {
      pulsed || token.Some?
    }

    /** on_timer(): drop the (now freed) token and pulse. */
    method OnTimer(time: int)
      modifies this
      ensures token == None && pulsed
      ensures IsRunning()
    {
      token := None;
      pulsed := true;
    }

    /** ~signal_timer_t(): cancel a token still held, so that the handler never
        calls back a destroyed timer. */
    method Destroy()
      requires Registered() && handler.Valid() && handler.Coherent()
      modifies handler
      ensures handler.Valid() && handler.Coherent() && handler.Unreferenced(this)
      ensures old(token).Some? ==> handler.queue == old(handler.queue) - {token.value}
      ensures old(token).Some? ==>
        && handler.armed == ArmedAfterCancel(handler.queue, old(handler.armed))
        && handler.nextId == old(handler.nextId)
        && handler.expectedOneshotTime == old(handler.expectedOneshotTime) && handler.fired == old(handler.fired)
      ensures old(token).None? ==> unchanged(handler)
    {
      if token.Some? {
        CancelTimer(handler, token.value);
      }
    }
  }

  /** repeating_timer_t. `interval` is in milliseconds; `lastTime` and
      `expectedNext` are monotonic times; `rings` records when the ring action
      was spawned. */
  class RepeatingTimer {
    const handler: TimerHandler
    var interval: int
    var lastTime: int
    var expectedNext: int
    var token: TokenId
    var rings: seq<int>

    /** The timer's token is queued in its handler and calls it back. */
    ghost predicate Registered()
      reads this, handler
    {
      token in handler.queue && handler.queue[token].callback == RepeatingCb(this)
    }

    /** The tokens `rest` of the handler's queue, none of which calls this
        timer back, still agree with their timer objects when only this timer
        and the handler have changed. */
    twostate lemma StillAgree(rest: map<TokenId, Token>)
      requires old(CoherentQueue(handler, rest))
      requires forall j | j in rest :: CallbackObject(rest[j].callback) != this
      requires forall j | j in rest :: unchanged(CallbackObject(rest[j].callback)) || CallbackObject(rest[j].callback) in {this, handler}
      ensures CoherentQueue(handler, rest)
    {
      forall j | j in rest
        ensures Agrees(handler, j, rest[j])
      {
        assert old(Agrees(handler, j, rest[j]));
        CallbackIsTimer(rest[j].callback, handler);
      }
    }

    /** repeating_timer_t(interval, ringee): `start` is the clock read that
        sets last_time, `now` the later one add_timer makes. */
    constructor (h: TimerHandler, intervalMs: int, start: nat, now: nat)
      requires intervalMs > 0 && start <= now && h.Valid() && h.Coherent()
      modifies h
      ensures handler == h && interval == intervalMs && lastTime == start && rings == []
      ensures expectedNext == start + intervalMs * NsPerMs
      ensures token == old(h.nextId)
      ensures h.queue == old(h.queue)[token := Token(intervalMs * NsPerMs, now + intervalMs * NsPerMs, RepeatingCb(this))]
      ensures h.nextId == old(h.nextId) + 1
      ensures h.armed == ArmedAfterAdd(old(h.queue), old(h.armed), now + intervalMs * NsPerMs)
      ensures h.expectedOneshotTime == old(h.expectedOneshotTime) && h.fired == old(h.fired)
      ensures Registered() && h.Valid() && h.Coherent()
    {
      handler := h;
      interval := intervalMs;
      lastTime := start;
      expectedNext := start + intervalMs * NsPerMs;
      rings := [];
      token := 0;
      new;
      ghost var q := h.queue;
      HandlerNotCalledBack(h, q);
      var id := AddTimer(h, intervalMs, RepeatingCb(this), now);
      token := id;
      forall j | j in q
        ensures Agrees(h, j, q[j])
      {
        assert old(Agrees(h, j, q[j]));
      }
      CoherentInsert(h, q, id, h.queue[id]);
    }

    /** interval_ms() */
    function IntervalMs(): int
      reads this
    {
      interval
    }

    /** change_interval(ms): nothing when the interval is unchanged; otherwise
        the next ring moves to the earlier of last_time + ms and the ring already
        expected, never later, and the token is replaced by one at that time
        with the new interval. */
    method ChangeInterval(ms: int)
      requires Registered() && handler.Valid() && handler.Coherent()
      requires ms != interval ==> ms > 0
      modifies this, handler
      ensures Registered() && handler.Valid() && handler.Coherent()
      ensures IntervalMs() == ms
      ensures ms == old(interval) ==> unchanged(this) && unchanged(handler)
      ensures ms != old(interval) ==>
        && interval == ms && lastTime == old(lastTime) && rings == old(rings)
        && expectedNext == (if old(lastTime) + ms * NsPerMs < old(expectedNext)
                            then old(lastTime) + ms * NsPerMs else old(expectedNext))
        && token == old(handler.nextId)
        && handler.queue == (old(handler.queue) - {old(token)})[token := Token(ms * NsPerMs, expectedNext, RepeatingCb(this))]
      ensures ms != old(interval) ==>
        && handler.nextId == old(handler.nextId) + 1
        && handler.armed == ArmedAfterAdd(old(handler.queue) - {old(token)}, old(handler.armed), expectedNext)
        && handler.expectedOneshotTime == old(handler.expectedOneshotTime) && handler.fired == old(handler.fired)
      ensures expectedNext <= old(expectedNext)
    {
      if ms == interval {
        return;
      }
      assert Agrees(handler, token, handler.queue[token]);
      var next := if lastTime + ms * NsPerMs < expectedNext then lastTime + ms * NsPerMs else expectedNext;
      Reschedule(ms, next);
    }

    /** clamp_next_ring(delay): when last_time + delay is before the expected
        ring, ring then instead, keeping the interval; otherwise nothing. The
        delay counts from the last ring, not from the current time. */
    method ClampNextRing(delayMs: int)
      requires Registered() && handler.Valid() && handler.Coherent()
      requires lastTime + delayMs * NsPerMs < expectedNext ==> lastTime + delayMs * NsPerMs >= 0
      modifies this, handler
      ensures Registered() && handler.Valid() && handler.Coherent()
      ensures expectedNext <= old(expectedNext) && IntervalMs() == old(IntervalMs())
      ensures expectedNext <= old(lastTime) + delayMs * NsPerMs
      ensures old(lastTime) + delayMs * NsPerMs < old(expectedNext) ==>
        && expectedNext == old(lastTime) + delayMs * NsPerMs
        && lastTime == old(lastTime) && rings == old(rings)
        && token == old(handler.nextId)
        && handler.queue == (old(handler.queue) - {old(token)})[token := Token(interval * NsPerMs, expectedNext, RepeatingCb(this))]
      ensures old(lastTime) + delayMs * NsPerMs < old(expectedNext) ==>
        && handler.nextId == old(handler.nextId) + 1
        && handler.armed == ArmedAfterAdd(old(handler.queue) - {old(token)}, old(handler.armed), expectedNext)
        && handler.expectedOneshotTime == old(handler.expectedOneshotTime) && handler.fired == old(handler.fired)
      ensures old(lastTime) + delayMs * NsPerMs >= old(expectedNext) ==> unchanged(this) && unchanged(handler)
    {
      var t := lastTime + delayMs * NsPerMs;
      if t < expectedNext {
        assert Agrees(handler, token, handler.queue[token]);
        Reschedule(interval, t);
      }
    }

    /** The step change_interval and clamp_next_ring share: with the interval
        set to `ms`, cancel_timer(timer), then timer = add_timer2(next, ms, this)
        with expected_next = next. The handler's queue swaps the old token for
        a fresh one at `next`, and its alarm follows the cancel and the add. */
    method Reschedule(ms: int, next: int)
      requires Registered() && handler.Valid() && handler.Coherent()
      requires ms > 0 && next >= 0
      modifies this, handler
      ensures Registered() && handler.Valid() && handler.Coherent()
      ensures interval == ms && expectedNext == next && lastTime == old(lastTime) && rings == old(rings)
      ensures token == old(handler.nextId)
      ensures handler.queue == (old(handler.queue) - {old(token)})[token := Token(ms * NsPerMs, next, RepeatingCb(this))]
      ensures handler.nextId == old(handler.nextId) + 1
      ensures handler.armed == ArmedAfterAdd(old(handler.queue) - {old(token)}, old(handler.armed), next)
      ensures handler.expectedOneshotTime == old(handler.expectedOneshotTime) && handler.fired == old(handler.fired)
    {
      assert Agrees(handler, token, handler.queue[token]);
      handler.OnlyOwnToken(this);
      ghost var rest := handler.queue - {token};
      CoherentRemove(handler, handler.queue, token);
      interval := ms;
      CancelTimer(handler, token);
      expectedNext := next;
      token := AddTimer2(handler, next, ms, RepeatingCb(this));
      assert handler.queue == rest[token := handler.queue[token]];
      StillAgree(rest);
      CoherentInsert(handler, rest, token, handler.queue[token]);
    }

    /** on_timer(time): the ring is at `time`, the next one expected a whole
        interval later, and the ring action is spawned. */
    method OnTimer(time: int)
      modifies this
      ensures lastTime == time && expectedNext == time + interval * NsPerMs
      ensures interval == old(interval) && token == old(token)
      ensures rings == old(rings) + [time]
    {
      lastTime := time;
      expectedNext := lastTime + interval * NsPerMs;
      rings := rings + [time];
    }

    /** ~repeating_timer_t(): always cancels its token. */
    method Destroy()
      requires Registered() && handler.Valid() && handler.Coherent()
      modifies handler
      ensures handler.Valid() && handler.Coherent() && handler.Unreferenced(this)
      ensures handler.queue == old(handler.queue) - {token}
      ensures handler.armed == ArmedAfterCancel(handler.queue, old(handler.armed))
      ensures handler.nextId == old(handler.nextId)
      ensures handler.expectedOneshotTime == old(handler.expectedOneshotTime) && handler.fired == old(handler.fired)
    {
      CancelTimer(handler, token);
      handler.IdleUnreferenced(this);
    }
  }

  /** add_timer2(next_time, ms, callback): a repeating timer whose first ring
      is at next_time, or at the next pass if that is already past. */
  method AddTimer2(h: TimerHandler, nextTime: int, ms: int, cb: Callback) returns (id: TokenId)
    requires ms > 0 && nextTime >= 0 && h.Valid()
    modifies h
    ensures h.Valid() && id == old(h.nextId) && id !in old(h.queue) && h.nextId == old(h.nextId) + 1
    ensures h.queue == old(h.queue)[id := Token(ms * NsPerMs, nextTime, cb)]
    ensures h.armed == ArmedAfterAdd(old(h.queue), old(h.armed), nextTime)
    ensures h.expectedOneshotTime == old(h.expectedOneshotTime) && h.fired == old(h.fired)
  {
    id := h.AddTimerInternal(nextTime, ms, cb);
  }

  /** add_timer(ms, callback): a repeating timer first ringing `ms` after `now`. */
  method AddTimer(h: TimerHandler, ms: int, cb: Callback, now: nat) returns (id: TokenId)
    requires ms > 0 && h.Valid()
    modifies h
    ensures h.Valid() && id == old(h.nextId) && id !in old(h.queue) && h.nextId == old(h.nextId) + 1
    ensures h.queue == old(h.queue)[id := Token(ms * NsPerMs, now + ms * NsPerMs, cb)]
    ensures h.armed == ArmedAfterAdd(old(h.queue), old(h.armed), now + ms * NsPerMs)
    ensures h.expectedOneshotTime == old(h.expectedOneshotTime) && h.fired == old(h.fired)
  {
    id := h.AddTimerInternal(now + ms * NsPerMs, ms, cb);
  }

  /** fire_timer_once(ms, callback): a one-shot timer `ms` after `now`; zero is allowed. */
  method FireTimerOnce(h: TimerHandler, ms: int, cb: Callback, now: nat) returns (id: TokenId)
    requires now + ms * NsPerMs >= 0 && h.Valid()
    modifies h
    ensures h.Valid() && id == old(h.nextId) && id !in old(h.queue) && h.nextId == old(h.nextId) + 1
    ensures h.queue == old(h.queue)[id := Token(0, now + ms * NsPerMs, cb)]
    ensures h.armed == ArmedAfterAdd(old(h.queue), old(h.armed), now + ms * NsPerMs)
    ensures h.expectedOneshotTime == old(h.expectedOneshotTime) && h.fired == old(h.fired)
  {
    id := h.AddTimerInternal(now + ms * NsPerMs, 0, cb);
  }

  /** cancel_timer(token) */
  method CancelTimer(h: TimerHandler, id: TokenId)
    requires h.Valid() && id in h.queue
    modifies h
    ensures h.Valid() && h.queue == old(h.queue) - {id} && h.nextId == old(h.nextId)
    ensures h.armed == ArmedAfterCancel(h.queue, old(h.armed))
    ensures h.expectedOneshotTime == old(h.expectedOneshotTime) && h.fired == old(h.fired)
  {
    h.CancelTimer(id);
  }
}

/**
 The persistent store refines the volatile one: under a clock that never goes back, every
 sequence of calls gets the same answers from both.
 */
module StoreRefinement {
  import opened Basics
  import opened Values
  import opened Sessions
  import opened VolatileStore
  import opened SqliteStore

  type Trace = seq<(int, Op)>

  ghost predicate ClockFrom(clock: int, trace: Trace) {
    && (|trace| > 0 ==> clock <= trace[0].0)
    && forall i, j :: 0 <= i <= j < |trace| ==> trace[i].0 <= trace[j].0
  }

  ghost function VolatileAnswers(s: Store, ttl: int, trace: Trace): seq<Answer>
    decreases |trace|
  {
    if trace == [] then []
    else
      var (s', a) := Step(s, ttl, trace[0].0, trace[0].1);
      [a] + VolatileAnswers(s', ttl, trace[1..])
  }

  ghost function SqlAnswers(v: View, ttl: int, trace: Trace): seq<Answer>
    requires v.Valid()
    decreases |trace|
  {
    if trace == [] then []
    else
      SqlStepValid(v, ttl, trace[0].0, trace[0].1);
      var (v', a) := SqlStep(v, ttl, trace[0].0, trace[0].1);
      [a] + SqlAnswers(v', ttl, trace[1..])
  }

  lemma LiveTwice(s: Store, now: int, later: int)
    requires now <= later
    ensures Live(Live(s, now), later) == Live(s, later)
  {
  }

  /** Stores that agree on the live sessions answer alike and go on agreeing. */
  lemma StepsAgree(s: Store, v: View, ttl: int, now: int, op: Op)
    requires v.Valid() && Live(s, now) == Live(v.store, now)
    ensures SqlStep(v, ttl, now, op).1 == Step(s, ttl, now, op).1
    ensures SqlStep(v, ttl, now, op).0.Valid()
    ensures Live(SqlStep(v, ttl, now, op).0.store, now) == Live(Step(s, ttl, now, op).0, now)
  {
    SqlStepValid(v, ttl, now, op);
    LiveTwice(s, now, now);
    LiveTwice(v.store, now, now);
    if Step(s, ttl, now, op).1 == Expired {
      assert Step(s, ttl, now, op).0 == Live(s, now);
    } else {
      assert SqlStep(v, ttl, now, op).0.store == Step(s, ttl, now, op).0;
    }
  }

  lemma {:induction false} SqliteRefinesVolatile(s: Store, v: View, ttl: int, clock: int, trace: Trace)
    requires v.Valid() && Live(s, clock) == Live(v.store, clock)
    requires ClockFrom(clock, trace)
    ensures SqlAnswers(v, ttl, trace) == VolatileAnswers(s, ttl, trace)
    decreases |trace|
  {
    if trace != [] {
      var (now, op) := trace[0];
      LiveTwice(s, clock, now);
      LiveTwice(v.store, clock, now);
      StepsAgree(s, v, ttl, now, op);
      var s', v' := Step(s, ttl, now, op).0, SqlStep(v, ttl, now, op).0;
      SqliteRefinesVolatile(s', v', ttl, now, trace[1..]);
    }
  }

  // ---- a clock that goes back ----

  predicate Nondecreasing(times: seq<int>) {
    forall i, j :: 0 <= i <= j < |times| ==> times[i] <= times[j]
  }

  function CallsAt(times: seq<int>, ops: seq<Op>): Trace
    requires |times| == |ops|
  {
    seq(|times|, i requires 0 <= i < |times| => (times[i], ops[i]))
  }

  lemma {:induction false} SqlAfterMisses(v: View, ttl: int, trace: Trace, k: nat)
    requires v.Valid() && k < |trace| && forall j :: 0 <= j < k ==> trace[j].1.Get? && trace[j].1.id !in v.store
    ensures |SqlAnswers(v, ttl, trace)| == |trace|
    ensures SqlAnswers(v, ttl, trace)[k] == SqlStep(v, ttl, trace[k].0, trace[k].1).1
    decreases |trace|
  {
    SqlStepValid(v, ttl, trace[0].0, trace[0].1);
    if k > 0 {
      assert SqlStep(v, ttl, trace[0].0, trace[0].1) == (v, Expired);
      SqlAfterMisses(v, ttl, trace[1..], k - 1);
    } else {
      SqlCounts(SqlStep(v, ttl, trace[0].0, trace[0].1).0, ttl, trace[1..]);
    }
  }

  lemma {:induction false} SqlCounts(v: View, ttl: int, trace: Trace)
    requires v.Valid()
    ensures |SqlAnswers(v, ttl, trace)| == |trace|
    decreases |trace|
  {
    if trace != [] {
      SqlStepValid(v, ttl, trace[0].0, trace[0].1);
      SqlCounts(SqlStep(v, ttl, trace[0].0, trace[0].1).0, ttl, trace[1..]);
    }
  }

  /** What the volatile store purges once is gone, whatever the clock says later. */
  lemma {:induction false} PurgedForGood(s: Store, ttl: int, trace: Trace, i: nat, k: nat, id: Id)
    requires k < |trace| && trace[k].1 == Op.Get(id) && forall j :: 0 <= j < k ==> trace[j].1.Get?
    requires id !in s || (i <= k && s[id].expiresAt <= trace[i].0)
    ensures k < |VolatileAnswers(s, ttl, trace)| && VolatileAnswers(s, ttl, trace)[k] == Expired
    decreases |trace|
  {
    var later := Step(s, ttl, trace[0].0, trace[0].1).0;
    if k > 0 {
      assert later == Live(s, trace[0].0);
      PurgedForGood(later, ttl, trace[1..], if i > 0 then i - 1 else 0, k - 1, id);
    }
  }

  /** One session, due when the clock stands highest, and asked for once the clock has gone back. */
  lemma ClockBackDiffers(ttl: int, times: seq<int>, i: nat, k: nat) returns (v: View, ops: seq<Op>)
    requires i < k < |times| && times[k] < times[i]
    ensures v.Valid() && |ops| == |times|
    ensures SqlAnswers(v, ttl, CallsAt(times, ops)) != VolatileAnswers(v.store, ttl, CallsAt(times, ops))
  {
    v := View(map["a" := Session(map[], times[i], [])], map["a" := Column("created", 0)]);
    ops := seq(|times|, j requires 0 <= j < |times| => if j == k then Op.Get("a") else Op.Get("b"));
    var trace := CallsAt(times, ops);
    assert "a" in Live(v.store, times[k]);
    assert SqlStep(v, ttl, times[k], Op.Get("a")).1 == Found(v.store["a"]);
    SqlAfterMisses(v, ttl, trace, k);
    PurgedForGood(v.store, ttl, trace, i, k, "a");
  }

  /**
   The stores answer every sequence of calls at the given times alike, from every state they share, exactly when
   the clock never goes back: a rolled-back purge would be visible again.
   */
  lemma ClockMustNotGoBack(ttl: int, times: seq<int>)
    ensures (forall v: View, ops: seq<Op> :: v.Valid() && |ops| == |times| ==>
               SqlAnswers(v, ttl, CallsAt(times, ops)) == VolatileAnswers(v.store, ttl, CallsAt(times, ops)))
            <==> Nondecreasing(times)
  {
    if Nondecreasing(times) {
      forall v: View, ops: seq<Op> | v.Valid() && |ops| == |times|
        ensures SqlAnswers(v, ttl, CallsAt(times, ops)) == VolatileAnswers(v.store, ttl, CallsAt(times, ops))
      {
        SqliteRefinesVolatile(v.store, v, ttl, if times == [] then 0 else times[0], CallsAt(times, ops));
      }
    } else {
      var i, k :| 0 <= i <= k < |times| && times[i] > times[k];
      var v, ops := ClockBackDiffers(ttl, times, i, k);
    }
  }

  // ---- both stores, driven side by side ----

  predicate WellPosed(trace: Trace) {
    && (forall i :: 0 <= i < |trace| ==> CleanOp(trace[i].1) && StatusIsText(trace[i].1))
    && (forall i, j :: 0 <= i < j < |trace| && trace[i].1.Create? && trace[j].1.Create? ==>
          trace[i].1.id != trace[j].1.id)
  }

  lemma NewIds(s: Store, ttl: int, now: int, op: Op)
    ensures Step(s, ttl, now, op).0.Keys <= s.Keys + (if op.Create? then {op.id} else {})
  {
  }

  method DriveBoth(vol: Volatile, sql: Sqlite, clock: int, trace: Trace)
    returns (volAnswers: seq<Answer>, sqlAnswers: seq<Answer>)
    requires sql.Valid() && vol.ttl == sql.ttl
    requires Live(vol.items, clock) == Live(sql.view.store, clock)
    requires ClockFrom(clock, trace) && WellPosed(trace)
    requires forall i :: 0 <= i < |trace| && trace[i].1.Create? ==>
               trace[i].1.id !in vol.items && trace[i].1.id !in sql.view.store
    modifies vol, sql
    ensures volAnswers == sqlAnswers && |volAnswers| == |trace|
    ensures sql.Valid()
    ensures |trace| > 0 ==> Live(vol.items, trace[|trace| - 1].0) == Live(sql.view.store, trace[|trace| - 1].0)
  {
    volAnswers, sqlAnswers := [], [];
    ghost var last := clock;
    for i := 0 to |trace|
      invariant sql.Valid()
      invariant volAnswers == sqlAnswers && |volAnswers| == i
      invariant last == if i == 0 then clock else trace[i - 1].0
      invariant Live(vol.items, last) == Live(sql.view.store, last)
      invariant forall j :: i <= j < |trace| && trace[j].1.Create? ==>
                  trace[j].1.id !in vol.items && trace[j].1.id !in sql.view.store
    {
      var (now, op) := trace[i];
      ghost var s, v := vol.items, sql.view;
      LiveTwice(s, last, now);
      LiveTwice(v.store, last, now);
      StepsAgree(s, v, vol.ttl, now, op);
      NewIds(s, vol.ttl, now, op);
      NewIds(v.store, vol.ttl, now, op);
      var a := vol.Perform(now, op);
      var b := sql.Perform(now, op);
      SqlKeepsIds(v, vol.ttl, now, op);
      volAnswers, sqlAnswers := volAnswers + [a], sqlAnswers + [b];
      last := now;
    }
  }

  /** A transaction that is not rolled back leaves the specified sessions. */
  lemma CommittedOrNot(v: View, ttl: int, now: int, op: Op)
    requires v.Valid()
    ensures SqlStep(v, ttl, now, op).0.store in [v.store, Step(v.store, ttl, now, op).0]
  {
    hide Live, DoCreate, DoGet, DoUpdate, DoRemoveKeys, DoEmit, DoReadEvents, DoReset, DoDelete, DoCount;
  }

  lemma SqlKeepsIds(v: View, ttl: int, now: int, op: Op)
    requires v.Valid()
    ensures SqlStep(v, ttl, now, op).0.store.Keys <= v.store.Keys + (if op.Create? then {op.id} else {})
  {
    hide Step, SqlStep;
    NewIds(v.store, ttl, now, op);
    CommittedOrNot(v, ttl, now, op);
  }

  // ---- event numbering ----

  /** A reader that resumes after the last number it saw gets every event once, in order. */
  lemma ResumedRead(log: seq<Value>, seen: nat)
    requires seen <= |log|
    ensures EventsAfter(log, 0) == EventsAfter(log[..seen], 0) + EventsAfter(log, seen)
    ensures forall i :: 0 <= i < |log| ==> EventsAfter(log, 0)[i] == (i + 1, log[i])
  {
    var all := EventsAfter(log, 0);
    var parts := EventsAfter(log[..seen], 0) + EventsAfter(log, seen);
    assert |all| == |parts| == |log|;
    forall i | 0 <= i < |log| ensures all[i] == parts[i] {
    }
  }

  function Cursor(read: seq<(nat, Value)>, seen: nat): nat {
    if read == [] then seen else read[|read| - 1].0
  }

  predicate Growing(lengths: seq<nat>, n: nat) {
    forall i, j :: 0 <= i <= j < |lengths| ==> lengths[i] <= lengths[j] <= n
  }

  /** What a reader gets who polls a growing log at these lengths, each time after the last number it saw. */
  function Polled(log: seq<Value>, lengths: seq<nat>, seen: nat): seq<(nat, Value)>
    requires Growing(lengths, |log|)
    decreases |lengths|
  {
    if lengths == [] then []
    else
      var read := EventsAfter(log[..lengths[0]], seen);
      read + Polled(log, lengths[1..], Cursor(read, seen))
  }

  lemma CursorMoves(log: seq<Value>, seen: nat)
    requires seen <= |log|
    ensures Cursor(EventsAfter(log, seen), seen) == |log|
  {
  }

  lemma FirstPoll(log: seq<Value>, lengths: seq<nat>, seen: nat)
    requires lengths != [] && Growing(lengths, |log|) && seen <= lengths[0]
    ensures Growing(lengths[1..], |log|)
    ensures Polled(log, lengths, seen) == EventsAfter(log[..lengths[0]], seen) + Polled(log, lengths[1..], lengths[0])
  {
    hide EventsAfter, Cursor;
    CursorMoves(log[..lengths[0]], seen);
  }

  lemma SecondRead(log: seq<Value>, seen: nat, n: nat)
    requires seen <= n <= |log|
    ensures EventsAfter(log[..n], 0) == EventsAfter(log[..seen], 0) + EventsAfter(log[..n], seen)
  {
    hide EventsAfter;
    ResumedRead(log[..n], seen);
    assert log[..n][..seen] == log[..seen];
  }

  lemma JoinedReads(a: seq<(nat, Value)>, b: seq<(nat, Value)>, c: seq<(nat, Value)>)
    ensures a + (b + c) == a + b + c && a + [] == a
  {
  }

  /** However the log grows between polls, the reader gets every event it had not seen once, in order. */
  lemma {:induction false} PollingMissesNothing(log: seq<Value>, lengths: seq<nat>, seen: nat)
    requires lengths != [] && Growing(lengths, |log|) && seen <= lengths[0]
    ensures EventsAfter(log[..seen], 0) + Polled(log, lengths, seen)
         == EventsAfter(log[..lengths[|lengths| - 1]], 0)
    decreases |lengths|
  {
    var rest := lengths[1..];
    FirstPoll(log, lengths, seen);
    SecondRead(log, seen, lengths[0]);
    JoinedReads(EventsAfter(log[..seen], 0), EventsAfter(log[..lengths[0]], seen), Polled(log, rest, lengths[0]));
    JoinedReads(EventsAfter(log[..lengths[0]], 0), [], []);
    if rest == [] {
      NoPolls(log, lengths[0]);
    } else {
      assert lengths[0] <= rest[0] && rest[|rest| - 1] == lengths[|lengths| - 1];
      hide EventsAfter, Polled, Growing;
      PollingMissesNothing(log, rest, lengths[0]);
    }
  }

  lemma NoPolls(log: seq<Value>, seen: nat)
    ensures Growing([], |log|) && Polled(log, [], seen) == []
  {
  }
}

/**
 A run in which the retry endpoint, called without the browser's guard, puts the old attempt's failure into the
 new attempt's log.
 */
module RunRace {
  import opened Basics
  import opened Values
  import opened Sessions
  import opened RunProtocol
  import opened RunSafety

  /** The one live session, whose payload is its status, and the one worker, if any. */
  ghost predicate Stands(s: Sys, id: Id, status: string, phase: Option<Phase>) {
    && s.view.Valid() && s.up && s.clock == 0 && s.ttl > 0
    && s.view.store.Keys == {id} && s.view.store[id].expiresAt > 0
    && s.view.columns[id].status == status && s.view.store[id].payload.Keys == {"status"}
    && s.workers == if phase.Some? then map[0 := Work(id, phase.value)] else map[]
  }

  lemma NoneExpired(s: Sys, id: Id, status: string, phase: Option<Phase>)
    requires Stands(s, id, status, phase)
    ensures s.view.Purged(0) == s.view && IsLive(s, 0, id)
  {
    assert ExpiredIds(s.view.store, 0) == {};
    assert s.view.store - {} == s.view.store && s.view.columns - {} == s.view.columns;
  }

  lemma StatusWritten(s: Sys, id: Id, status: string, phase: Option<Phase>, written: string)
    requires Stands(s, id, status, phase)
    ensures var v := SqlUpdate(s.view, s.ttl, 0, id, map["status" := Str(written)]).0;
            && v.Valid() && v.store.Keys == {id} && v.store[id].expiresAt > 0
            && v.columns[id].status == written && v.store[id].payload.Keys == {"status"}
  {
    NoneExpired(s, id, status, phase);
  }

  lemma Submits(ttl: int, id: Id) returns (s: Sys, t: Sys)
    requires ttl > 0
    ensures Initial(s) && s.view.Valid() && Next(s, 0, Submit(id, map["status" := Str("created")]), t)
    ensures Stands(t, id, "created", None) && t.pending == {id} && t.ttl == ttl
  {
    s := Sys(View(map[], map[]), ttl, 0, true, map[], {}, {}, map[], multiset{}, multiset{});
    var payload := map["status" := Str("created")];
    t := s.(view := SqlCreate(s.view, ttl, 0, id, payload).0, pending := s.pending + {id}, used := s.used + {id});
    assert SubmitStep(s, 0, id, payload, t);
    assert s.view.Purged(0).store.Keys == {};
  }

  lemma Enqueues(s: Sys, id: Id) returns (t: Sys)
    requires Stands(s, id, "created", None) && id in s.pending
    ensures Next(s, 0, Enqueue(id), t) && Stands(t, id, "queued", None) && t.ttl == s.ttl
  {
    t := s.(view := SqlUpdate(s.view, s.ttl, 0, id, map["status" := Str("queued")]).0,
            pending := s.pending - {id}, entered := s.entered[id := Entered(s, id) + 1]);
    NoneExpired(s, id, "created", None);
    StatusWritten(s, id, "created", None, "queued");
    hide SqlUpdate;
    assert EnqueueStep(s, 0, id, t);
  }

  lemma Claims(s: Sys, id: Id) returns (t: Sys)
    requires Stands(s, id, "queued", None)
    ensures Next(s, 0, Claim(0, Some(id)), t) && Stands(t, id, "running", Some(Claimed)) && t.ttl == s.ttl
  {
    NoneExpired(s, id, "queued", None);
    t := s.(view := SetStatus(s.view, id, "running", 0), workers := s.workers[0 := Work(id, Claimed)],
            claims := s.claims + multiset{(id, Entered(s, id))});
    assert IsFirstQueued(s.view, id);
    assert Sessions.ClaimStep(s.view, 0, Some(id), t.view);
    assert RunProtocol.ClaimStep(s, 0, 0, Some(id), t);
  }

  lemma Begins(s: Sys, id: Id) returns (t: Sys)
    requires Stands(s, id, "running", Some(Claimed))
    ensures Next(s, 0, Begin(0), t) && Stands(t, id, "running", Some(Running)) && t.ttl == s.ttl
  {
    t := s.(view := SqlUpdate(s.view, s.ttl, 0, id, map["status" := Str("running")]).0, workers := Moved(s, 0, Running));
    NoneExpired(s, id, "running", Some(Claimed));
    StatusWritten(s, id, "running", Some(Claimed), "running");
    hide SqlUpdate;
    assert BeginStep(s, 0, 0, t);
  }

  lemma Raises(s: Sys, id: Id, code: string) returns (t: Sys)
    requires Stands(s, id, "running", Some(Running))
    ensures Next(s, 0, Raise(0, code), t) && Stands(t, id, "running", Some(Recovering(code, false))) && t.ttl == s.ttl
  {
    t := s.(workers := Moved(s, 0, Recovering(code, false)));
    assert RaiseStep(s, 0, 0, code, t);
  }

  lemma ReadsStale(s: Sys, id: Id, code: string) returns (t: Sys)
    requires Stands(s, id, "running", Some(Recovering(code, false)))
    ensures Next(s, 0, ReadStale(0), t) && Stands(t, id, "running", Some(Clearing(code, false, []))) && t.ttl == s.ttl
  {
    NoneExpired(s, id, "running", Some(Recovering(code, false)));
    var keys: seq<string> := [];
    t := s.(view := SqlGet(s.view, 0, id).0, workers := Moved(s, 0, Clearing(code, false, keys)));
    forall name | name in s.view.store[id].payload
      ensures !IsLeftover(name)
    {
      assert name == "status";
      PlainKeys(name);
    }
    assert ReadStaleStep(s, 0, 0, t);
  }

  lemma Clears(s: Sys, id: Id, code: string) returns (t: Sys)
    requires Stands(s, id, "running", Some(Clearing(code, false, [])))
    ensures Next(s, 0, Clear(0), t) && Stands(t, id, "running", Some(Marking(code, false))) && t.ttl == s.ttl
  {
    NoneExpired(s, id, "running", Some(Clearing(code, false, [])));
    t := s.(view := SqlRemoveKeys(s.view, s.ttl, 0, id, []).0, workers := Moved(s, 0, Marking(code, false)));
    assert ClearStep(s, 0, 0, t);
  }

  /** The failure is stored and not yet reported. */
  ghost predicate AwaitsReport(s: Sys, id: Id, code: string) {
    && s.view.Valid() && s.up && s.clock == 0 && s.ttl > 0 && IsLive(s, 0, id)
    && s.workers == map[0 := Work(id, Reporting(code, false))]
    && "status" in s.view.store[id].payload && s.view.store[id].payload["status"] == Str("failed")
    && "failure_code" in s.view.store[id].payload && s.view.store[id].payload["failure_code"] == Str(code)
  }

  lemma Marks(s: Sys, id: Id, code: string) returns (t: Sys)
    requires Stands(s, id, "running", Some(Marking(code, false)))
    ensures Next(s, 0, Mark(0), t) && AwaitsReport(t, id, code)
  {
    NoneExpired(s, id, "running", Some(Marking(code, false)));
    t := s.(view := SqlUpdate(s.view, s.ttl, 0, id, FailureValues(code)).0, workers := Moved(s, 0, Reporting(code, false)));
    assert MarkStep(s, 0, 0, t);
  }

  lemma Extends(states: seq<Sys>, steps: seq<(int, Action)>, now: int, a: Action, s: Sys, t: Sys)
    returns (states': seq<Sys>, steps': seq<(int, Action)>)
    requires Execution(states, steps) && states[|steps|] == s && s.view.Valid() && Next(s, now, a, t)
    ensures Execution(states', steps') && |steps'| == |steps| + 1 && states'[|steps'|] == t
  {
    hide Next, Initial;
    states', steps' := states + [t], steps + [(now, a)];
  }

  /** A run up to the claim of its only session. */
  lemma ClaimedRun(ttl: int, id: Id) returns (states: seq<Sys>, steps: seq<(int, Action)>)
    requires ttl > 0
    ensures Execution(states, steps) && Stands(states[|steps|], id, "running", Some(Claimed))
  {
    var payload := map["status" := Str("created")];
    var s0, s1 := Submits(ttl, id);
    var s2 := Enqueues(s1, id);
    var s3 := Claims(s2, id);
    assert Execution([s0], []);
    hide Execution, Next;
    states, steps := Extends([s0], [], 0, Submit(id, payload), s0, s1);
    states, steps := Extends(states, steps, 0, Enqueue(id), s1, s2);
    states, steps := Extends(states, steps, 0, Claim(0, Some(id)), s2, s3);
  }

  /** A run that fails with any code comes to the moment between storing its failure and reporting it. */
  lemma FailureAwaitsReport(ttl: int, id: Id, code: string) returns (states: seq<Sys>, steps: seq<(int, Action)>)
    requires ttl > 0
    ensures Execution(states, steps) && AwaitsReport(states[|steps|], id, code)
  {
    states, steps := ClaimedRun(ttl, id);
    var s3 := states[|steps|];
    hide Execution, Next;
    var s4 := Begins(s3, id);
    var s5 := Raises(s4, id, code);
    var s6 := ReadsStale(s5, id, code);
    var s7 := Clears(s6, id, code);
    var s8 := Marks(s7, id, code);
    states, steps := Extends(states, steps, 0, Begin(0), s3, s4);
    states, steps := Extends(states, steps, 0, Raise(0, code), s4, s5);
    states, steps := Extends(states, steps, 0, ReadStale(0), s5, s6);
    states, steps := Extends(states, steps, 0, Clear(0), s6, s7);
    states, steps := Extends(states, steps, 0, Mark(0), s7, s8);
  }

  /**
   There is a run, for any lifetime, session and retryable code, after which the endpoint accepts a retry and the
   worker then reports: the session is created anew and its log holds the old attempt's failure.
   */
  lemma UnguardedResetRace(ttl: int, id: Id, code: string, data: Value)
    returns (states: seq<Sys>, steps: seq<(int, Action)>, s1: Sys, s2: Sys)
    requires ttl > 0 && code in RETRYABLE
    ensures Execution(states, steps)
    ensures states[|steps|].view.Valid() && ResetStep(states[|steps|], 0, id, s1)
    ensures s1.view.Valid() && ReportStep(s1, 0, 0, data, s2)
    ensures s2.view.Valid() && id in s2.view.store
    ensures s2.view.columns[id].status == "created" && Has(s2.view.store[id].events, "run_failed")
    ensures !Inv(s2)
  {
    states, steps := FailureAwaitsReport(ttl, id, code);
    var s := states[|steps|];
    s1 := s.(view := SqlReset(s.view, s.ttl, 0, id, RETRYABLE).0, pending := s.pending + {id},
             retries := s.retries + multiset{(id, Entered(s, id))});
    hide Execution, SqlReset, SqlEmit;
    assert ResetStep(s, 0, id, s1);
    ResetLives(s, id, code, s1);
    s2 := s1.(view := SqlEmit(s1.view, 0, id, "run_failed", data).0, workers := s1.workers - {0});
    assert ReportStep(s1, 0, 0, data, s2);
    ReportLate(s, 0, 0, data, s1, s2);
    assert !Safe(s2, id);
  }

  lemma ResetLives(s: Sys, id: Id, code: string, s1: Sys)
    requires AwaitsReport(s, id, code) && code in RETRYABLE
    requires s1.view == SqlReset(s.view, s.ttl, 0, id, RETRYABLE).0
    ensures s1.view.Valid() && IsLive(s1, 0, id)
  {
  }
}

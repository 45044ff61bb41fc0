/** Runs that can happen: one that completes, one that fails and is retried, one that a crash interrupts. */
module RunPaths {
  import opened Basics
  import opened Values
  import opened Sessions
  import opened RunProtocol
  import opened RunSafety

  type Payload = map<string, Value>

  /** The service holds this one live session, and one worker has it, if any. */
  ghost predicate At(s: Sys, id: Id, payload: Payload, events: seq<Value>, status: string, phase: Option<Phase>) {
    && s.view.Valid() && s.up && s.clock == 0 && s.ttl > 0
    && s.view.store.Keys == {id} && s.view.store[id].expiresAt > 0
    && s.view.store[id].payload == payload && s.view.store[id].events == events
    && s.view.columns[id].status == status && s.view.columns[id].updatedAt == 0
    && s.workers == if phase.Some? then map[0 := Work(id, phase.value)] else map[]
  }

  lemma AllLive(s: Sys, id: Id, payload: Payload, events: seq<Value>, status: string, phase: Option<Phase>)
    requires At(s, id, payload, events, status, phase)
    ensures s.view.Purged(0) == s.view && IsLive(s, 0, id)
  {
    assert ExpiredIds(s.view.store, 0) == {};
    assert s.view.store - {} == s.view.store && s.view.columns - {} == s.view.columns;
  }

  lemma Writes(s: Sys, id: Id, payload: Payload, events: seq<Value>, status: string, phase: Option<Phase>, values: Payload,
               t: Sys, phase': Option<Phase>)
    requires At(s, id, payload, events, status, phase)
    requires t == s.(view := SqlUpdate(s.view, s.ttl, 0, id, values).0, workers := t.workers, pending := t.pending,
                     entered := t.entered)
    requires t.workers == if phase'.Some? then map[0 := Work(id, phase'.value)] else map[]
    ensures At(t, id, payload + values, events, StatusAfter(status, values), phase')
  {
    AllLive(s, id, payload, events, status, phase);
  }

  lemma Logs(s: Sys, id: Id, payload: Payload, events: seq<Value>, status: string, phase: Option<Phase>, kind: string,
             data: Value, t: Sys, phase': Option<Phase>)
    requires At(s, id, payload, events, status, phase)
    requires t == s.(view := SqlEmit(s.view, 0, id, kind, data).0, workers := t.workers)
    requires t.workers == if phase'.Some? then map[0 := Work(id, phase'.value)] else map[]
    ensures At(t, id, payload, events + [Event(kind, data)], status, phase')
  {
    AllLive(s, id, payload, events, status, phase);
  }

  const CREATED: Payload := map["status" := Str("created")]
  const QUEUED: Payload := map["status" := Str("queued")]
  const RUNNING: Payload := map["status" := Str("running")]

  lemma Submitted(ttl: int, id: Id) returns (s: Sys, t: Sys)
    requires ttl > 0
    ensures Initial(s) && s.view.Valid() && Next(s, 0, Submit(id, CREATED), t)
    ensures At(t, id, CREATED, [], "created", None) && t.pending == {id} && t.entered == map[]
  {
    s := Sys(View(map[], map[]), ttl, 0, true, map[], {}, {}, map[], multiset{}, multiset{});
    t := s.(view := SqlCreate(s.view, ttl, 0, id, CREATED).0, pending := s.pending + {id}, used := s.used + {id});
    assert SubmitStep(s, 0, id, CREATED, t);
    assert s.view.Purged(0).store.Keys == {};
  }

  lemma Enqueued(s: Sys, id: Id, events: seq<Value>) returns (t: Sys)
    requires At(s, id, CREATED, events, "created", None) && id in s.pending
    ensures Next(s, 0, Enqueue(id), t) && At(t, id, QUEUED, events, "queued", None)
    ensures t.pending == s.pending - {id} && Entered(t, id) == Entered(s, id) + 1
  {
    t := s.(view := SqlUpdate(s.view, s.ttl, 0, id, QUEUED).0,
            pending := s.pending - {id}, entered := s.entered[id := Entered(s, id) + 1]);
    AllLive(s, id, CREATED, events, "created", None);
    Writes(s, id, CREATED, events, "created", None, QUEUED, t, None);
    assert CREATED + QUEUED == QUEUED;
    hide SqlUpdate;
    assert EnqueueStep(s, 0, id, t);
  }

  lemma ClaimedNow(s: Sys, id: Id, events: seq<Value>) returns (t: Sys)
    requires At(s, id, QUEUED, events, "queued", None)
    ensures Next(s, 0, Claim(0, Some(id)), t) && At(t, id, RUNNING, events, "running", Some(Claimed))
    ensures t.pending == s.pending && Entered(t, id) == Entered(s, id)
  {
    AllLive(s, id, QUEUED, events, "queued", None);
    t := s.(view := SetStatus(s.view, id, "running", 0), workers := s.workers[0 := Work(id, Claimed)],
            claims := s.claims + multiset{(id, Entered(s, id))});
    assert QUEUED["status" := Str("running")] == RUNNING;
    assert IsFirstQueued(s.view, id);
    assert Sessions.ClaimStep(s.view, 0, Some(id), t.view);
    assert RunProtocol.ClaimStep(s, 0, 0, Some(id), t);
  }

  lemma Begun(s: Sys, id: Id) returns (t: Sys)
    requires At(s, id, RUNNING, [], "running", Some(Claimed))
    ensures Next(s, 0, Begin(0), t) && At(t, id, RUNNING, [], "running", Some(Running))
    ensures t.pending == s.pending && Entered(t, id) == Entered(s, id)
  {
    t := s.(view := SqlUpdate(s.view, s.ttl, 0, id, RUNNING).0, workers := Moved(s, 0, Running));
    AllLive(s, id, RUNNING, [], "running", Some(Claimed));
    Writes(s, id, RUNNING, [], "running", Some(Claimed), RUNNING, t, Some(Running));
    assert RUNNING + RUNNING == RUNNING;
    hide SqlUpdate;
    assert BeginStep(s, 0, 0, t);
  }

  lemma Progressed(s: Sys, id: Id, kind: string, data: Value) returns (t: Sys)
    requires At(s, id, RUNNING, [], "running", Some(Running)) && kind != "run_complete" && kind != "run_failed"
    ensures Next(s, 0, Progress(0, kind, data), t) && At(t, id, RUNNING, [Event(kind, data)], "running", Some(Running))
    ensures t.pending == s.pending && Entered(t, id) == Entered(s, id)
  {
    t := s.(view := SqlEmit(s.view, 0, id, kind, data).0);
    AllLive(s, id, RUNNING, [], "running", Some(Running));
    Logs(s, id, RUNNING, [], "running", Some(Running), kind, data, t, Some(Running));
    hide SqlEmit;
    assert ProgressStep(s, 0, 0, kind, data, t);
  }

  function Outcome(result: Value, evidence: Value): Payload {
    map["status" := Str("complete"), "result" := result, "evidence_by_id" := evidence]
  }

  lemma SavedNow(s: Sys, id: Id, events: seq<Value>, result: Value, evidence: Value) returns (t: Sys)
    requires At(s, id, RUNNING, events, "running", Some(Running))
    ensures Next(s, 0, Save(0, result, evidence), t)
    ensures At(t, id, Outcome(result, evidence), events, "complete", Some(Saved))
    ensures t.pending == s.pending && Entered(t, id) == Entered(s, id)
  {
    hide SqlUpdate, Outcome;
    var values := map["result" := result, "evidence_by_id" := evidence, "status" := Str("complete")];
    t := s.(view := SqlUpdate(s.view, s.ttl, 0, id, values).0, workers := Moved(s, 0, Saved));
    AllLive(s, id, RUNNING, events, "running", Some(Running));
    assert SaveStep(s, 0, 0, result, evidence, t);
    Writes(s, id, RUNNING, events, "running", Some(Running), values, t, Some(Saved));
    OutcomeWritten(result, evidence);
  }

  lemma OutcomeWritten(result: Value, evidence: Value)
    ensures var values := map["result" := result, "evidence_by_id" := evidence, "status" := Str("complete")];
            RUNNING + values == Outcome(result, evidence) && StatusAfter("running", values) == "complete"
  {
  }

  lemma Completed(s: Sys, id: Id, payload: Payload, events: seq<Value>, data: Value) returns (t: Sys)
    requires At(s, id, payload, events, "complete", Some(Saved))
    ensures Next(s, 0, Complete(0, data), t)
    ensures At(t, id, payload, events + [Event("run_complete", data)], "complete", None)
  {
    t := s.(view := SqlEmit(s.view, 0, id, "run_complete", data).0, workers := s.workers - {0});
    AllLive(s, id, payload, events, "complete", Some(Saved));
    assert t.workers == map[];
    Logs(s, id, payload, events, "complete", Some(Saved), "run_complete", data, t, None);
    hide SqlEmit;
    assert CompleteStep(s, 0, 0, data, t);
  }

  lemma Extended(states: seq<Sys>, steps: seq<(int, Action)>, a: Action, t: Sys)
    returns (states': seq<Sys>, steps': seq<(int, Action)>)
    requires states != [] && Execution(states, steps) && Last(states).view.Valid() && Next(Last(states), 0, a, t)
    ensures states' != [] && Execution(states', steps') && Last(states') == t
  {
    hide Next, Initial;
    states', steps' := states + [t], steps + [(0, a)];
  }

  function Last(states: seq<Sys>): Sys
    requires states != []
  {
    states[|states| - 1]
  }

  lemma BegunRun(ttl: int, id: Id) returns (states: seq<Sys>, steps: seq<(int, Action)>)
    requires ttl > 0
    ensures Execution(states, steps) && states != []
    ensures At(Last(states), id, RUNNING, [], "running", Some(Running))
    ensures Last(states).pending == {} && Entered(Last(states), id) == 1
  {
    var s0, s1 := Submitted(ttl, id);
    assert Execution([s0], []) && Entered(s1, id) == 0;
    hide Next, Initial, Execution;
    var s2 := Enqueued(s1, id, []);
    var s3 := ClaimedNow(s2, id, []);
    var s4 := Begun(s3, id);
    hide At, Entered;
    states, steps := Extended([s0], [], Submit(id, CREATED), s1);
    states, steps := Extended(states, steps, Enqueue(id), s2);
    states, steps := Extended(states, steps, Claim(0, Some(id)), s3);
    states, steps := Extended(states, steps, Begin(0), s4);
  }

  /** A run up to the moment its result is stored. */
  lemma SavedRun(ttl: int, id: Id, kind: string, data: Value, result: Value, evidence: Value)
    returns (states: seq<Sys>, steps: seq<(int, Action)>)
    requires ttl > 0 && kind != "run_complete" && kind != "run_failed"
    ensures Execution(states, steps) && states != []
    ensures At(Last(states), id, Outcome(result, evidence), [Event(kind, data)], "complete", Some(Saved))
    ensures Last(states).pending == {} && Entered(Last(states), id) == 1
  {
    states, steps := BegunRun(ttl, id);
    hide Next, Initial, Execution, Entered;
    var s5 := Progressed(Last(states), id, kind, data);
    var s6 := SavedNow(s5, id, [Event(kind, data)], result, evidence);
    hide At;
    states, steps := Extended(states, steps, Progress(0, kind, data), s5);
    states, steps := Extended(states, steps, Save(0, result, evidence), s6);
  }

  /** A review can be submitted, run and completed: its result, its evidence and its events are then in the store. */
  lemma CompletedRun(ttl: int, id: Id, kind: string, data: Value, result: Value, evidence: Value, last: Value)
    returns (states: seq<Sys>, steps: seq<(int, Action)>)
    requires ttl > 0 && kind != "run_complete" && kind != "run_failed"
    ensures Execution(states, steps) && states != []
    ensures At(Last(states), id, Outcome(result, evidence), [Event(kind, data), Event("run_complete", last)],
               "complete", None)
  {
    states, steps := SavedRun(ttl, id, kind, data, result, evidence);
    var t := Completed(Last(states), id, Outcome(result, evidence), [Event(kind, data)], last);
    hide Execution, Next;
    assert [Event(kind, data)] + [Event("run_complete", last)] == [Event(kind, data), Event("run_complete", last)];
    states, steps := Extended(states, steps, Complete(0, last), t);
  }

  // ---- failing after all, and retrying ----

  lemma RaisedNow(s: Sys, id: Id, payload: Payload, events: seq<Value>, code: string) returns (t: Sys)
    requires At(s, id, payload, events, "complete", Some(Saved))
    ensures Next(s, 0, Raise(0, code), t) && At(t, id, payload, events, "complete", Some(Recovering(code, false)))
    ensures t.pending == s.pending && Entered(t, id) == Entered(s, id)
  {
    t := s.(workers := Moved(s, 0, Recovering(code, false)));
    assert RaiseStep(s, 0, 0, code, t);
  }

  lemma PlainLeftovers(name: string, result: Value, evidence: Value)
    requires name in Outcome(result, evidence)
    ensures IsLeftover(name) <==> name in ["result", "evidence_by_id"]
  {
    if name == "status" {
      PlainKeys(name);
    }
  }

  lemma StaleRead(s: Sys, id: Id, result: Value, evidence: Value, events: seq<Value>, code: string) returns (t: Sys)
    requires At(s, id, Outcome(result, evidence), events, "complete", Some(Recovering(code, false)))
    ensures Next(s, 0, ReadStale(0), t)
    ensures At(t, id, Outcome(result, evidence), events, "complete", Some(Clearing(code, false, ["result", "evidence_by_id"])))
    ensures t.pending == s.pending && Entered(t, id) == Entered(s, id)
  {
    AllLive(s, id, Outcome(result, evidence), events, "complete", Some(Recovering(code, false)));
    assert SqlGet(s.view, 0, id).0 == s.view;
    hide SqlGet;
    var keys := ["result", "evidence_by_id"];
    t := s.(view := SqlGet(s.view, 0, id).0, workers := Moved(s, 0, Clearing(code, false, keys)));
    forall name | name in s.view.store[id].payload
      ensures IsLeftover(name) <==> name in keys
    {
      PlainLeftovers(name, result, evidence);
    }
    hide IsResearchKey, Outcome;
    assert ReadStaleStep(s, 0, 0, t);
  }

  const COMPLETE: Payload := map["status" := Str("complete")]

  lemma ClearedNow(s: Sys, id: Id, result: Value, evidence: Value, events: seq<Value>, code: string) returns (t: Sys)
    requires At(s, id, Outcome(result, evidence), events, "complete", Some(Clearing(code, false, ["result", "evidence_by_id"])))
    ensures Next(s, 0, Clear(0), t) && At(t, id, COMPLETE, events, "complete", Some(Marking(code, false)))
    ensures t.pending == s.pending && Entered(t, id) == Entered(s, id)
  {
    var keys := ["result", "evidence_by_id"];
    AllLive(s, id, Outcome(result, evidence), events, "complete", Some(Clearing(code, false, keys)));
    t := s.(view := SqlRemoveKeys(s.view, s.ttl, 0, id, keys).0, workers := Moved(s, 0, Marking(code, false)));
    assert Outcome(result, evidence) - KeySet(keys) == COMPLETE;
    assert ClearStep(s, 0, 0, t);
  }

  lemma MarkedNow(s: Sys, id: Id, events: seq<Value>, code: string) returns (t: Sys)
    requires At(s, id, COMPLETE, events, "complete", Some(Marking(code, false)))
    ensures Next(s, 0, Mark(0), t)
    ensures At(t, id, map["status" := Str("failed"), "failure_code" := Str(code)], events, "failed", Some(Reporting(code, false)))
    ensures t.pending == s.pending && Entered(t, id) == Entered(s, id)
  {
    hide SqlUpdate, FailureValues;
    t := s.(view := SqlUpdate(s.view, s.ttl, 0, id, FailureValues(code)).0, workers := Moved(s, 0, Reporting(code, false)));
    AllLive(s, id, COMPLETE, events, "complete", Some(Marking(code, false)));
    assert MarkStep(s, 0, 0, t);
    Writes(s, id, COMPLETE, events, "complete", Some(Marking(code, false)), FailureValues(code), t,
           Some(Reporting(code, false)));
    FailureWritten(code);
  }

  lemma FailureWritten(code: string)
    ensures var values := map["status" := Str("failed"), "failure_code" := Str(code)];
            && FailureValues(code) == values && COMPLETE + values == values
            && StatusAfter("complete", values) == "failed"
  {
  }

  lemma ReportedNow(s: Sys, id: Id, payload: Payload, events: seq<Value>, code: string, data: Value) returns (t: Sys)
    requires At(s, id, payload, events, "failed", Some(Reporting(code, false)))
    ensures Next(s, 0, Report(0, data), t)
    ensures At(t, id, payload, events + [Event("run_failed", data)], "failed", None)
    ensures t.pending == s.pending && Entered(t, id) == Entered(s, id)
  {
    t := s.(view := SqlEmit(s.view, 0, id, "run_failed", data).0, workers := s.workers - {0});
    AllLive(s, id, payload, events, "failed", Some(Reporting(code, false)));
    assert t.workers == map[];
    Logs(s, id, payload, events, "failed", Some(Reporting(code, false)), "run_failed", data, t, None);
    hide SqlEmit;
    assert ReportStep(s, 0, 0, data, t);
  }

  lemma RetriedNow(s: Sys, id: Id, events: seq<Value>, code: string, data: Value) returns (t: Sys)
    requires At(s, id, map["status" := Str("failed"), "failure_code" := Str(code)], events + [Event("run_failed", data)],
                "failed", None)
    requires code in RETRYABLE
    ensures Next(s, 0, Retry(id), t) && At(t, id, CREATED, [Event("run_started", Dict([]))], "created", None)
    ensures t.pending == s.pending + {id} && Entered(t, id) == Entered(s, id)
  {
    var payload := map["status" := Str("failed"), "failure_code" := Str(code)];
    AllLive(s, id, payload, events + [Event("run_failed", data)], "failed", None);
    t := s.(view := SqlReset(s.view, s.ttl, 0, id, RETRYABLE).0, pending := s.pending + {id},
            retries := s.retries + multiset{(id, Entered(s, id))});
    assert Kind(s.view.store[id].events[|events|]) == "run_failed";
    FreshPayload(code);
    hide WithoutStale;
    assert ResetStep(s, 0, id, t);
  }

  lemma FreshPayload(code: string)
    ensures var payload := map["status" := Str("failed"), "failure_code" := Str(code)];
            WithoutStale(payload)["status" := Str("created")] == CREATED
  {
    PlainKeys("status");
  }

  /** A worker that has raised clears what it stored and stores its failure. */
  lemma Unwound(s: Sys, id: Id, events: seq<Value>, result: Value, evidence: Value, code: string)
    returns (s1: Sys, s2: Sys, s3: Sys, s4: Sys)
    requires At(s, id, Outcome(result, evidence), events, "complete", Some(Saved))
    ensures Next(s, 0, Raise(0, code), s1) && s1.view.Valid() && Next(s1, 0, ReadStale(0), s2) && s2.view.Valid()
    ensures Next(s2, 0, Clear(0), s3) && s3.view.Valid() && Next(s3, 0, Mark(0), s4)
    ensures At(s4, id, map["status" := Str("failed"), "failure_code" := Str(code)], events, "failed", Some(Reporting(code, false)))
    ensures s4.pending == s.pending && Entered(s4, id) == Entered(s, id)
  {
    s1 := RaisedNow(s, id, Outcome(result, evidence), events, code);
    s2 := StaleRead(s1, id, result, evidence, events, code);
    s3 := ClearedNow(s2, id, result, evidence, events, code);
    s4 := MarkedNow(s3, id, events, code);
    hide Next;
  }

  /** A run whose last event cannot be stored fails after all: its result is cleared, and its failure stored and reported. */
  lemma FailedRun(ttl: int, id: Id, kind: string, data: Value, result: Value, evidence: Value, code: string, last: Value)
    returns (states: seq<Sys>, steps: seq<(int, Action)>)
    requires ttl > 0 && kind != "run_complete" && kind != "run_failed"
    ensures Execution(states, steps) && states != []
    ensures At(Last(states), id, map["status" := Str("failed"), "failure_code" := Str(code)],
               [Event(kind, data)] + [Event("run_failed", last)], "failed", None)
    ensures Last(states).pending == {} && Entered(Last(states), id) == 1
  {
    hide Next, Initial, Execution;
    states, steps := SavedRun(ttl, id, kind, data, result, evidence);
    var s1, s2, s3, s4 := Unwound(Last(states), id, [Event(kind, data)], result, evidence, code);
    var s5 := ReportedNow(s4, id, map["status" := Str("failed"), "failure_code" := Str(code)], [Event(kind, data)],
                          code, last);
    hide At;
    states, steps := Extended(states, steps, Raise(0, code), s1);
    states, steps := Extended(states, steps, ReadStale(0), s2);
    states, steps := Extended(states, steps, Clear(0), s3);
    states, steps := Extended(states, steps, Mark(0), s4);
    states, steps := Extended(states, steps, Report(0, last), s5);
  }

  /** When the code allows a retry, such a session starts afresh and enters the queue a second time. */
  lemma RetriedRun(ttl: int, id: Id, kind: string, data: Value, result: Value, evidence: Value, code: string, last: Value)
    returns (states: seq<Sys>, steps: seq<(int, Action)>)
    requires ttl > 0 && kind != "run_complete" && kind != "run_failed" && code in RETRYABLE
    ensures Execution(states, steps) && states != []
    ensures At(Last(states), id, QUEUED, [Event("run_started", Dict([]))], "queued", None)
    ensures Last(states).pending == {} && Entered(Last(states), id) == 2
  {
    hide Next, Initial, Execution;
    states, steps := FailedRun(ttl, id, kind, data, result, evidence, code, last);
    var s6 := RetriedNow(Last(states), id, [Event(kind, data)], code, last);
    var s7 := Enqueued(s6, id, [Event("run_started", Dict([]))]);
    states, steps := Extended(states, steps, Retry(id), s6);
    states, steps := Extended(states, steps, Enqueue(id), s7);
  }

  // ---- a crash ----

  lemma CrashedNow(s: Sys) returns (t: Sys)
    requires s.view.Valid()
    ensures Next(s, s.clock, Crash, t)
    ensures t == s.(up := false, workers := map[], pending := {})
  {
    t := s.(up := false, workers := map[], pending := {});
    assert CrashStep(s, s.clock, t);
  }

  lemma RestartedNow(s: Sys, id: Id, t: Sys) returns (u: Sys)
    requires At(s, id, RUNNING, [], "running", Some(Running)) && t == s.(up := false, workers := map[], pending := {})
    ensures Next(t, 0, Restart, u)
    ensures At(u, id, QUEUED, [], "queued", None) && Entered(u, id) == Entered(s, id) + 1
  {
    u := t.(view := SetStatus(t.view, id, "queued", 0), up := true, entered := t.entered[id := Entered(t, id) + 1]);
    assert RUNNING["status" := Str("queued")] == QUEUED;
    assert RequeueStep(t.view, 0, 0, u.view);
    hide RequeueStep, SetStatus;
    assert RestartStep(t, 0, u);
  }

  /** A run that a crash interrupts is queued again by the restart, and can be claimed again. */
  lemma InterruptedRun(ttl: int, id: Id) returns (states: seq<Sys>, steps: seq<(int, Action)>)
    requires ttl > 0
    ensures Execution(states, steps) && states != []
    ensures At(Last(states), id, RUNNING, [], "running", Some(Claimed)) && Entered(Last(states), id) == 2
  {
    states, steps := BegunRun(ttl, id);
    hide Next, Initial, Execution, Entered;
    var s := Last(states);
    var s5 := CrashedNow(s);
    var s6 := RestartedNow(s, id, s5);
    var s7 := ClaimedNow(s6, id, []);
    states, steps := Extended(states, steps, Crash, s5);
    states, steps := Extended(states, steps, Restart, s6);
    states, steps := Extended(states, steps, Claim(0, Some(id)), s7);
  }
}

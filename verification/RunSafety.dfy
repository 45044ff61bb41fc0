/** What holds in every reachable state of the service, for any interleaving of its steps. */
module RunSafety {
  import opened Basics
  import opened Values
  import opened Sessions
  import opened RunProtocol
  import Lineage

  ghost predicate SessionSafe(session: Session, status: string) {
    && "status" in session.payload && session.payload["status"] == Str(status)
    && status in {"created", "queued", "running", "complete", "failed"}
    && AtMostOneTerminal(session.events)
    && (status in {"created", "queued", "running"} ==> NoTerminal(session.events))
    && (Has(session.events, "run_complete") ==> status == "complete" && "result" in session.payload)
    && (Has(session.events, "run_failed") ==> status == "failed")
    && (status == "failed" ==> NoLeftovers(session.payload))
  }

  ghost predicate PhaseSafe(phase: Phase, session: Session, status: string) {
    && NoTerminal(session.events)
    && match phase
       case Claimed => status == "running"
       case Running => status == "running"
       case Saved => status == "complete" && "result" in session.payload
       case Recovering(_, _) => status in {"running", "complete", "failed"}
       case Clearing(_, _, keys) =>
         && status in {"running", "complete", "failed"}
         && (forall name :: name in session.payload && IsLeftover(name) ==> name in keys)
         && (forall name :: name in keys ==> IsLeftover(name))
       case Marking(_, _) => status in {"running", "complete", "failed"} && NoLeftovers(session.payload)
       case Reporting(_, _) => status == "failed"
  }

  /** Everything the invariant says about one session id. */
  ghost predicate Safe(s: Sys, id: Id)
    requires s.view.Valid()
  {
    && (id in s.view.store ==>
          var session, status := s.view.store[id], s.view.columns[id].status;
          && id in s.used
          && s.view.columns[id].updatedAt <= s.clock
          && SessionSafe(session, status)
          && (status == "queued" ==> s.claims[(id, Entered(s, id))] == 0)
          && (status != "created" ==> s.retries[(id, Entered(s, id))] == 0))
    && (id in s.pending ==>
          && id in s.used
          && (id in s.view.store ==> s.view.columns[id].status == "created"))
    && (forall w :: w in s.workers && s.workers[w].id == id ==>
          && id in s.used && id !in s.pending
          && (id in s.view.store ==>
                PhaseSafe(s.workers[w].phase, s.view.store[id], s.view.columns[id].status)))
    && (forall w, x :: w in s.workers && x in s.workers && s.workers[w].id == id && s.workers[x].id == id ==> w == x)
    && (forall n :: s.claims[(id, n)] <= 1 && s.retries[(id, n)] <= 1)
    && (forall n :: n > Entered(s, id) ==> s.claims[(id, n)] == 0 && s.retries[(id, n)] == 0)
  }

  ghost predicate Inv(s: Sys) {
    s.view.Valid() && (!s.up ==> s.workers == map[] && s.pending == {}) && forall id :: Safe(s, id)
  }

  ghost predicate Initial(s: Sys) {
    && s.view == View(map[], map[]) && s.workers == map[] && s.pending == {}
    && s.used == {} && s.entered == map[] && s.claims == multiset{} && s.retries == multiset{}
  }

  lemma InitialSafe(s: Sys)
    requires Initial(s)
    ensures Inv(s)
  {
  }

  // ---- frames ----

  /** `s'` and `s` say the same about `id`, or the session itself is gone from `s'`. */
  ghost predicate SameFor(s: Sys, s': Sys, id: Id)
    requires s.view.Valid() && s'.view.Valid()
  {
    && s.clock <= s'.clock
    && (id in s'.view.store ==>
          && id in s.view.store && s'.view.store[id] == s.view.store[id]
          && s'.view.columns[id] == s.view.columns[id])
    && (id in s'.pending ==> id in s.pending)
    && (id in s.used ==> id in s'.used)
    && (forall w :: w in s'.workers && s'.workers[w].id == id ==> w in s.workers && s.workers[w] == s'.workers[w])
    && Entered(s', id) == Entered(s, id)
    && (forall n :: s'.claims[(id, n)] == s.claims[(id, n)] && s'.retries[(id, n)] == s.retries[(id, n)])
  }

  lemma FrameSafe(s: Sys, s': Sys, id: Id)
    requires s.view.Valid() && s'.view.Valid() && Safe(s, id) && SameFor(s, s', id)
    ensures Safe(s', id)
  {
  }

  /** A step on one session leaves the invariant to be checked for that session only. */
  lemma OneSession(s: Sys, s': Sys, id: Id)
    requires Inv(s) && s'.view.Valid()
    requires !s'.up ==> s'.workers == map[] && s'.pending == {}
    requires forall other :: other != id ==> SameFor(s, s', other)
    requires Safe(s', id)
    ensures Inv(s')
  {
    forall other ensures Safe(s', other) {
      if other != id {
        FrameSafe(s, s', other);
      }
    }
  }

  lemma NoSession(s: Sys, s': Sys)
    requires Inv(s) && s'.view.Valid()
    requires !s'.up ==> s'.workers == map[] && s'.pending == {}
    requires forall id :: SameFor(s, s', id)
    ensures Inv(s')
  {
    forall id ensures Safe(s', id) {
      FrameSafe(s, s', id);
    }
  }

  // ---- events appended to a log ----

  lemma Appended(log: seq<Value>, event: Value)
    ensures NoTerminal(log) && !Terminal(event) ==> NoTerminal(log + [event])
    ensures NoTerminal(log) ==> AtMostOneTerminal(log + [event])
    ensures NoTerminal(log) ==> !Has(log, "run_complete") && !Has(log, "run_failed")
    ensures forall kind :: Has(log + [event], kind) <==> Has(log, kind) || Kind(event) == kind
  {
    forall kind ensures Has(log + [event], kind) <==> Has(log, kind) || Kind(event) == kind {
      if Has(log, kind) {
        var i :| 0 <= i < |log| && Kind(log[i]) == kind;
        assert (log + [event])[i] == log[i];
      }
      if Kind(event) == kind {
        assert (log + [event])[|log|] == event;
      }
    }
  }

  // ---- what one store call does to its own session and to the others ----

  ghost predicate OnlyTouches(v: View, v': View, now: int, id: Id)
    requires v.Valid()
  {
    && v'.Valid() && id in v.store && id in v'.store
    && (forall other :: other in v'.store && other != id ==>
          other in v.store && v'.store[other] == v.store[other] && v'.columns[other] == v.columns[other])
    && (forall other :: other in v.store && other !in v'.store ==> v.store[other].expiresAt <= now)
  }

  lemma UpdateEffect(v: View, ttl: int, now: int, id: Id, values: map<string, Value>, v': View)
    requires v.Valid() && id in Live(v.store, now)
    requires v' == SqlUpdate(v, ttl, now, id, values).0
    ensures OnlyTouches(v, v', now, id)
    ensures v'.store[id].payload == v.store[id].payload + values
    ensures v'.store[id].events == v.store[id].events
    ensures v'.columns[id] == Column(StatusAfter(v.columns[id].status, values), now)
  {
  }

  lemma RemoveKeysEffect(v: View, ttl: int, now: int, id: Id, keys: seq<string>, v': View)
    requires v.Valid() && id in Live(v.store, now)
    requires v' == SqlRemoveKeys(v, ttl, now, id, keys).0
    ensures OnlyTouches(v, v', now, id)
    ensures v'.store[id].payload == v.store[id].payload - KeySet(keys)
    ensures v'.store[id].events == v.store[id].events
    ensures v'.columns[id] == Column(v.columns[id].status, now)
  {
  }

  lemma EmitEffect(v: View, now: int, id: Id, kind: string, data: Value, v': View)
    requires v.Valid() && id in Live(v.store, now)
    requires v' == SqlEmit(v, now, id, kind, data).0
    ensures OnlyTouches(v, v', now, id)
    ensures v'.store[id].payload == v.store[id].payload
    ensures v'.store[id].events == v.store[id].events + [Event(kind, data)]
    ensures v'.columns[id] == v.columns[id]
  {
  }

  lemma ResetEffect(v: View, ttl: int, now: int, id: Id, v': View)
    requires v.Valid() && id in Live(v.store, now) && IsRetryable(v.store[id].payload, RETRYABLE)
    requires v' == SqlReset(v, ttl, now, id, RETRYABLE).0
    ensures OnlyTouches(v, v', now, id)
    ensures v'.store[id] == AfterReset(v.store[id], now + ttl)
    ensures v'.columns[id] == Column("created", now)
  {
  }

  lemma ClaimEffect(v: View, now: int, id: Id, v': View)
    requires v.Valid() && Sessions.ClaimStep(v, now, Some(id), v')
    ensures OnlyTouches(v, v', now, id)
    ensures v.columns[id].status == "queued" && v'.columns[id] == Column("running", now)
    ensures "status" in v.store[id].payload ==>
              v'.store[id].payload == v.store[id].payload["status" := Str("running")]
    ensures v'.store[id].events == v.store[id].events
  {
  }

  /** Only the worker, handler and history of `id` change, besides its session. */
  ghost predicate OnlyConcerns(s: Sys, s': Sys, id: Id) {
    && s.clock <= s'.clock && s.up && s'.up
    && (forall other :: other != id ==> (other in s'.pending ==> other in s.pending))
    && (forall other :: other != id ==> Entered(s', other) == Entered(s, other))
    && s.used <= s'.used
    && (forall w :: w in s'.workers && s'.workers[w].id != id ==> w in s.workers && s.workers[w] == s'.workers[w])
    && (forall other, n :: other != id ==>
          s'.claims[(other, n)] == s.claims[(other, n)] && s'.retries[(other, n)] == s.retries[(other, n)])
  }

  lemma Settled(s: Sys, now: int, s': Sys, id: Id)
    requires Inv(s) && OnlyTouches(s.view, s'.view, now, id) && OnlyConcerns(s, s', id)
    requires Safe(s', id)
    ensures Inv(s')
  {
    forall other | other != id ensures SameFor(s, s', other) {
    }
    OneSession(s, s', id);
  }

  /** A worker's store call, after which the worker is in `phase` or, without one, idle. */
  lemma WorkerSettled(s: Sys, now: int, s': Sys, w: nat, phase: Option<Phase>)
    requires Inv(s) && s.clock <= now && Calls(s, w)
    requires var id := s.workers[w].id;
             && OnlyTouches(s.view, s'.view, now, id)
             && s' == s.(view := s'.view, clock := now,
                         workers := if phase.Some? then Moved(s, w, phase.value) else s.workers - {w})
             && s'.view.columns[id].updatedAt <= now
             && s.view.columns[id].status != "created" && s'.view.columns[id].status !in {"created", "queued"}
             && SessionSafe(s'.view.store[id], s'.view.columns[id].status)
             && (phase.Some? ==> PhaseSafe(phase.value, s'.view.store[id], s'.view.columns[id].status))
    ensures Inv(s')
  {
    hide SessionSafe, PhaseSafe;
    var id := s.workers[w].id;
    assert Safe(s, id);
    assert Safe(s', id);
    Settled(s, now, s', id);
  }

  // ---- key names ----

  lemma PlainKeys(name: string)
    requires name in {"status", "failure_code"} + ASSISTANT_KEYS
    ensures !IsLeftover(name)
  {
    assert "status"[0] != 'r' && "failure_code"[0] != 'r' && "assistant_history"[0] != 'r';
    assert "assistant_active"[0] != 'r' && "assistant_active_owner"[0] != 'r';
    assert "research_"[0] == 'r' && "_research"[8] == 'h';
    assert "status"[5] != 'h' && "failure_code"[11] != 'h' && "assistant_history"[16] != 'h';
    assert "assistant_active"[15] != 'h' && "assistant_active_owner"[21] != 'h';
  }

  lemma WrittenPayload(payload: map<string, Value>, values: map<string, Value>)
    requires forall name :: name in values ==> name in {"status", "failure_code"} + ASSISTANT_KEYS
    ensures NoLeftovers(payload) ==> NoLeftovers(payload + values)
    ensures forall name :: IsLeftover(name) ==> (name in payload + values <==> name in payload)
  {
    forall name | name in values ensures !IsLeftover(name) {
      PlainKeys(name);
    }
  }

  // ---- what each write keeps of one session ----

  lemma ClaimedSession(a: Session, b: Session)
    requires SessionSafe(a, "queued")
    requires b.payload == a.payload["status" := Str("running")] && b.events == a.events
    ensures SessionSafe(b, "running") && PhaseSafe(Claimed, b, "running")
  {
    Appended(a.events, Null);
  }

  lemma SavedSession(a: Session, b: Session, result: Value, evidence: Value)
    requires SessionSafe(a, "running")
    requires b.payload == a.payload + map["result" := result, "evidence_by_id" := evidence, "status" := Str("complete")]
    requires b.events == a.events
    ensures SessionSafe(b, "complete") && PhaseSafe(Saved, b, "complete")
  {
    Appended(a.events, Null);
  }

  lemma ClearedSession(a: Session, b: Session, status: string, phase: Phase)
    requires SessionSafe(a, status) && phase.Clearing? && PhaseSafe(phase, a, status)
    requires b.payload == a.payload - KeySet(phase.keys) && b.events == a.events
    ensures SessionSafe(b, status) && PhaseSafe(Marking(phase.code, phase.lastResort), b, status)
  {
    Appended(a.events, Null);
    PlainKeys("status");
  }

  lemma MarkedSession(a: Session, b: Session, status: string, phase: Phase)
    requires SessionSafe(a, status) && phase.Marking? && PhaseSafe(phase, a, status)
    requires b.payload == a.payload + FailureValues(phase.code)
    requires b.events == a.events
    ensures SessionSafe(b, "failed") && PhaseSafe(Reporting(phase.code, phase.lastResort), b, "failed")
  {
    Appended(a.events, Null);
    WrittenPayload(a.payload, FailureValues(phase.code));
  }

  lemma ReportedSession(a: Session, b: Session, data: Value)
    requires SessionSafe(a, "failed") && NoTerminal(a.events)
    requires b.payload == a.payload && b.events == a.events + [Event("run_failed", data)]
    ensures SessionSafe(b, "failed")
  {
    Appended(a.events, Event("run_failed", data));
  }

  lemma ResetSession(a: Session, deadline: int)
    ensures SessionSafe(AfterReset(a, deadline), "created")
  {
    var started := Event("run_started", Dict([]));
    assert AfterReset(a, deadline).events == [started];
    Appended([], started);
    assert [] + [started] == [started];
  }

  lemma AssistedSession(a: Session, b: Session, status: string, values: map<string, Value>)
    requires SessionSafe(a, status) && values.Keys <= ASSISTANT_KEYS
    requires b.payload == a.payload + values && b.events == a.events
    ensures SessionSafe(b, status)
    ensures forall phase :: PhaseSafe(phase, a, status) ==> PhaseSafe(phase, b, status)
  {
    WrittenPayload(a.payload, values);
  }

  // ---- one lemma a step ----

  ghost predicate IsQueued(s: Sys, id: Id)
    requires s.view.Valid()
  {
    id in s.view.store && s.view.columns[id].status == "queued"
  }

  lemma QueuedHasNoWorker(s: Sys, id: Id)
    requires Inv(s) && IsQueued(s, id)
    ensures id !in s.pending && forall w :: w in s.workers ==> s.workers[w].id != id
  {
    assert Safe(s, id);
  }

  lemma SubmitSafe(s: Sys, now: int, id: Id, payload: map<string, Value>, s': Sys)
    requires Inv(s) && s.clock <= now && SubmitStep(s, now, id, payload, s')
    ensures Inv(s')
  {
    assert Safe(s, id);
    OneSession(s, s', id);
  }

  lemma EnqueueSafe(s: Sys, now: int, id: Id, s': Sys)
    requires Inv(s) && s.clock <= now && EnqueueStep(s, now, id, s')
    ensures Inv(s')
  {
    hide SqlUpdate;
    UpdateEffect(s.view, s.ttl, now, id, map["status" := Str("queued")], s'.view);
    assert Safe(s, id);
    Settled(s, now, s', id);
  }

  lemma ClaimedSafe(s: Sys, now: int, w: nat, id: Id, s': Sys)
    requires Inv(s) && s.clock <= now && RunProtocol.ClaimStep(s, now, w, Some(id), s')
    ensures OnlyTouches(s.view, s'.view, now, id) && Safe(s', id)
  {
    ClaimEffect(s.view, now, id, s'.view);
    QueuedHasNoWorker(s, id);
    assert Safe(s, id);
    ClaimedSession(s.view.store[id], s'.view.store[id]);
    hide Sessions.ClaimStep, SessionSafe, PhaseSafe;
  }

  lemma ClaimSafe(s: Sys, now: int, w: nat, claimed: Option<Id>, s': Sys)
    requires Inv(s) && s.clock <= now && RunProtocol.ClaimStep(s, now, w, claimed, s')
    ensures Inv(s')
  {
    if claimed.Some? {
      ClaimedSafe(s, now, w, claimed.value, s');
      hide Safe, Sessions.ClaimStep;
      Settled(s, now, s', claimed.value);
    } else {
      NoSession(s, s');
    }
  }

  lemma BeginSafe(s: Sys, now: int, w: nat, s': Sys)
    requires Inv(s) && s.clock <= now && BeginStep(s, now, w, s')
    ensures Inv(s')
  {
    hide SqlUpdate;
    var id := s.workers[w].id;
    assert Safe(s, id);
    UpdateEffect(s.view, s.ttl, now, id, map["status" := Str("running")], s'.view);
    WorkerSettled(s, now, s', w, Some(Running));
  }

  lemma ProgressSafe(s: Sys, now: int, w: nat, kind: string, data: Value, s': Sys)
    requires Inv(s) && s.clock <= now && ProgressStep(s, now, w, kind, data, s')
    ensures Inv(s')
  {
    hide SqlEmit;
    var id := s.workers[w].id;
    assert Safe(s, id);
    EmitEffect(s.view, now, id, kind, data, s'.view);
    Appended(s.view.store[id].events, Event(kind, data));
    assert Moved(s, w, Running) == s.workers;
    WorkerSettled(s, now, s', w, Some(Running));
  }

  lemma SaveSafe(s: Sys, now: int, w: nat, result: Value, evidence: Value, s': Sys)
    requires Inv(s) && s.clock <= now && SaveStep(s, now, w, result, evidence, s')
    ensures Inv(s')
  {
    hide SqlUpdate;
    var id := s.workers[w].id;
    assert Safe(s, id);
    var values := map["result" := result, "evidence_by_id" := evidence, "status" := Str("complete")];
    UpdateEffect(s.view, s.ttl, now, id, values, s'.view);
    SavedSession(s.view.store[id], s'.view.store[id], result, evidence);
    WorkerSettled(s, now, s', w, Some(Saved));
  }

  lemma CompleteSafe(s: Sys, now: int, w: nat, data: Value, s': Sys)
    requires Inv(s) && s.clock <= now && CompleteStep(s, now, w, data, s')
    ensures Inv(s')
  {
    hide SqlEmit;
    var id := s.workers[w].id;
    assert Safe(s, id);
    EmitEffect(s.view, now, id, "run_complete", data, s'.view);
    Appended(s.view.store[id].events, Event("run_complete", data));
    WorkerSettled(s, now, s', w, None);
  }

  lemma RaiseSafe(s: Sys, now: int, w: nat, code: string, s': Sys)
    requires Inv(s) && s.clock <= now && RaiseStep(s, now, w, code, s')
    ensures Inv(s')
  {
    assert Safe(s, s.workers[w].id);
    OneSession(s, s', s.workers[w].id);
  }

  lemma ReadStaleSafe(s: Sys, now: int, w: nat, s': Sys)
    requires Inv(s) && s.clock <= now && ReadStaleStep(s, now, w, s')
    ensures Inv(s')
  {
    assert Safe(s, s.workers[w].id);
    OneSession(s, s', s.workers[w].id);
  }

  lemma ClearSafe(s: Sys, now: int, w: nat, s': Sys)
    requires Inv(s) && s.clock <= now && ClearStep(s, now, w, s')
    ensures Inv(s')
  {
    hide SqlRemoveKeys;
    var id := s.workers[w].id;
    assert Safe(s, id);
    var phase := s.workers[w].phase;
    RemoveKeysEffect(s.view, s.ttl, now, id, phase.keys, s'.view);
    ClearedSession(s.view.store[id], s'.view.store[id], s.view.columns[id].status, phase);
    WorkerSettled(s, now, s', w, Some(Marking(phase.code, phase.lastResort)));
  }

  lemma MarkSafe(s: Sys, now: int, w: nat, s': Sys)
    requires Inv(s) && s.clock <= now && MarkStep(s, now, w, s')
    ensures Inv(s')
  {
    hide SqlUpdate;
    var id := s.workers[w].id;
    assert Safe(s, id);
    var phase := s.workers[w].phase;
    UpdateEffect(s.view, s.ttl, now, id, FailureValues(phase.code), s'.view);
    MarkedSession(s.view.store[id], s'.view.store[id], s.view.columns[id].status, phase);
    assert s.view.columns[id].status != "created" && s'.view.columns[id].status == "failed";
    hide SessionSafe, PhaseSafe, FailureValues, OnlyTouches, Inv;
    WorkerSettled(s, now, s', w, Some(Reporting(phase.code, phase.lastResort)));
  }

  lemma ReportSafe(s: Sys, now: int, w: nat, data: Value, s': Sys)
    requires Inv(s) && s.clock <= now && ReportStep(s, now, w, data, s')
    ensures Inv(s')
  {
    hide SqlEmit;
    var id := s.workers[w].id;
    assert Safe(s, id);
    EmitEffect(s.view, now, id, "run_failed", data, s'.view);
    ReportedSession(s.view.store[id], s'.view.store[id], data);
    WorkerSettled(s, now, s', w, None);
  }

  /** Once `run_failed` is logged, the run that logged it has nothing left to do. */
  lemma FailedHasNoWorker(s: Sys, id: Id)
    requires Inv(s) && id in s.view.store && Has(s.view.store[id].events, "run_failed")
    ensures forall w :: w in s.workers ==> s.workers[w].id != id
  {
    assert Safe(s, id);
    Appended(s.view.store[id].events, Null);
  }

  lemma RetryableIsFailed(s: Sys, id: Id)
    requires Inv(s) && id in s.view.store && IsRetryable(s.view.store[id].payload, RETRYABLE)
    ensures s.view.columns[id].status == "failed"
  {
    assert Safe(s, id);
    hide PhaseSafe;
  }

  lemma ResetSafe(s: Sys, now: int, id: Id, s': Sys)
    requires Inv(s) && s.clock <= now && ResetStep(s, now, id, s')
    requires forall w :: w in s.workers ==> s.workers[w].id != id
    ensures OnlyTouches(s.view, s'.view, now, id) && Safe(s', id)
  {
    hide SqlReset;
    assert Safe(s, id);
    ResetEffect(s.view, s.ttl, now, id, s'.view);
    ResetSession(s.view.store[id], now + s.ttl);
    RetryableIsFailed(s, id);
    hide SessionSafe, PhaseSafe, OnlyTouches, IsRetryable, AfterReset, Inv;
  }

  lemma RetrySafe(s: Sys, now: int, id: Id, s': Sys)
    requires Inv(s) && s.clock <= now && RetryStep(s, now, id, s')
    ensures Inv(s')
  {
    hide SqlReset;
    FailedHasNoWorker(s, id);
    ResetSafe(s, now, id, s');
    hide Safe;
    Settled(s, now, s', id);
  }

  /**
   The endpoint checks only the stored status. Without the browser's guard a reset keeps the
   invariant exactly when no worker still has a call to make for the session.
   */
  lemma UnguardedReset(s: Sys, now: int, id: Id, s': Sys)
    requires Inv(s) && s.clock <= now && ResetStep(s, now, id, s')
    ensures Inv(s') <==> forall w :: w in s.workers ==> s.workers[w].id != id
  {
    ResetEffect(s.view, s.ttl, now, id, s'.view);
    if forall w :: w in s.workers ==> s.workers[w].id != id {
      ResetSafe(s, now, id, s');
      hide Safe, SqlReset;
      Settled(s, now, s', id);
    } else {
      var w :| w in s.workers && s.workers[w].id == id;
      ResetUnderWorker(s, now, id, s', w);
    }
  }

  lemma ResetUnderWorker(s: Sys, now: int, id: Id, s': Sys, w: nat)
    requires s.view.Valid() && ResetStep(s, now, id, s') && w in s.workers && s.workers[w].id == id
    ensures !Inv(s')
  {
    hide SqlReset;
    ResetEffect(s.view, s.ttl, now, id, s'.view);
    hide SessionSafe;
    assert !PhaseSafe(s'.workers[w].phase, s'.view.store[id], "created");
    assert !Safe(s', id);
  }

  lemma ResetColumn(s: Sys, now: int, id: Id, s': Sys)
    requires s.view.Valid() && ResetStep(s, now, id, s')
    ensures s'.view.Valid() && id in s'.view.store && s'.view.columns[id].status == "created"
    ensures s'.workers == s.workers
  {
    hide SqlReset;
    ResetEffect(s.view, s.ttl, now, id, s'.view);
  }

  lemma ReportLogs(s: Sys, now: int, w: nat, data: Value, s': Sys)
    requires s.view.Valid() && ReportStep(s, now, w, data, s')
    ensures var id := s.workers[w].id;
            && s'.view.Valid() && id in s'.view.store && s'.view.columns[id] == s.view.columns[id]
            && Has(s'.view.store[id].events, "run_failed")
  {
    hide SqlEmit;
    var id := s.workers[w].id;
    EmitEffect(s.view, now, id, "run_failed", data, s'.view);
    Appended(s.view.store[id].events, Event("run_failed", data));
  }

  /** Then a worker about to report puts the old run's failure into the new run's log. */
  lemma ReportLate(s: Sys, now: int, w: nat, data: Value, s1: Sys, s2: Sys)
    requires s.view.Valid() && Calls(s, w) && s.workers[w].phase.Reporting?
    requires ResetStep(s, now, s.workers[w].id, s1)
    requires s1.view.Valid() && ReportStep(s1, now, w, data, s2)
    ensures var id := s.workers[w].id;
            && s2.view.Valid() && id in s2.view.store
            && s2.view.columns[id].status == "created" && Has(s2.view.store[id].events, "run_failed")
  {
    ResetColumn(s, now, s.workers[w].id, s1);
    ReportLogs(s1, now, w, data, s2);
    hide ResetStep, ReportStep;
  }

  lemma AssistedSafe(s: Sys, now: int, id: Id, values: map<string, Value>, s': Sys)
    requires Inv(s) && s.clock <= now && AssistStep(s, now, id, values, s')
    ensures OnlyTouches(s.view, s'.view, now, id) && Safe(s', id)
  {
    hide SqlUpdate;
    assert Safe(s, id);
    UpdateEffect(s.view, s.ttl, now, id, values, s'.view);
    AssistedSession(s.view.store[id], s'.view.store[id], s.view.columns[id].status, values);
    hide SessionSafe, PhaseSafe;
  }

  lemma AssistSafe(s: Sys, now: int, id: Id, values: map<string, Value>, s': Sys)
    requires Inv(s) && s.clock <= now && AssistStep(s, now, id, values, s')
    ensures Inv(s')
  {
    hide SqlUpdate;
    AssistedSafe(s, now, id, values, s');
    hide Safe;
    Settled(s, now, s', id);
  }

  /** Steps that only drop sessions, workers or pending handlers. */
  lemma DropSafe(s: Sys, now: int, a: Action, s': Sys)
    requires Inv(s) && Next(s, now, a, s')
    requires a.DropHandler? || a.Vanish? || a.Remove? || a.Tick? || a.Crash?
    ensures Inv(s')
  {
    NoSession(s, s');
  }

  lemma RestartSafe(s: Sys, now: int, s': Sys)
    requires Inv(s) && s.clock <= now && RestartStep(s, now, s')
    ensures Inv(s')
  {
    forall id ensures Safe(s', id) {
      assert Safe(s, id);
    }
  }

  lemma NextSafe(s: Sys, now: int, a: Action, s': Sys)
    requires Inv(s) && Next(s, now, a, s')
    ensures Inv(s')
  {
    hide Inv;
    hide SubmitStep, EnqueueStep, RunProtocol.ClaimStep, BeginStep, ProgressStep, SaveStep, CompleteStep,
         RaiseStep, ReadStaleStep, ClearStep, MarkStep, ReportStep, RetryStep, AssistStep, RestartStep;
    match a
    case Submit(id, payload) => SubmitSafe(s, now, id, payload, s');
    case Enqueue(id) => EnqueueSafe(s, now, id, s');
    case Claim(w, claimed) => ClaimSafe(s, now, w, claimed, s');
    case Begin(w) => BeginSafe(s, now, w, s');
    case Progress(w, kind, data) => ProgressSafe(s, now, w, kind, data, s');
    case Save(w, result, evidence) => SaveSafe(s, now, w, result, evidence, s');
    case Complete(w, data) => CompleteSafe(s, now, w, data, s');
    case Raise(w, code) => RaiseSafe(s, now, w, code, s');
    case ReadStale(w) => ReadStaleSafe(s, now, w, s');
    case Clear(w) => ClearSafe(s, now, w, s');
    case Mark(w) => MarkSafe(s, now, w, s');
    case Report(w, data) => ReportSafe(s, now, w, data, s');
    case Retry(id) => RetrySafe(s, now, id, s');
    case Assist(id, values) => AssistSafe(s, now, id, values, s');
    case Restart => RestartSafe(s, now, s');
    case _ => DropSafe(s, now, a, s');
  }

  // ---- whole runs ----

  ghost predicate Execution(states: seq<Sys>, steps: seq<(int, Action)>) {
    && |states| == |steps| + 1
    && Initial(states[0])
    && forall i :: 0 <= i < |steps| ==>
         states[i].view.Valid() && Next(states[i], steps[i].0, steps[i].1, states[i + 1])
  }

  lemma {:induction false} ReachableSafe(states: seq<Sys>, steps: seq<(int, Action)>, k: nat)
    requires Execution(states, steps) && k <= |steps|
    ensures Inv(states[k])
  {
    if k == 0 {
      InitialSafe(states[0]);
    } else {
      ReachableSafe(states, steps, k - 1);
      NextSafe(states[k - 1], steps[k - 1].0, steps[k - 1].1, states[k]);
    }
  }

  /** All that belongs to a failed attempt is a leftover but for its failure code. */
  lemma LeftoverIs(name: string)
    ensures IsLeftover(name) <==> OfTheAttempt(name) && name != "failure_code"
  {
    assert "failure_code"[0] == 'f' && "research_"[0] == 'r';
    assert "failure_code"[|"failure_code"| - 9..][0] == 'l' && "_research"[0] == '_';
  }

  /** What a reader of the store can rely on at any moment of any run. */
  lemma RunOutcomes(states: seq<Sys>, steps: seq<(int, Action)>, k: nat, id: Id)
    requires Execution(states, steps) && k <= |steps|
    ensures states[k].view.Valid() && Mirrored(states[k].view)
    ensures id in states[k].view.store ==>
              var session, status := states[k].view.store[id], states[k].view.columns[id].status;
              && AtMostOneTerminal(session.events)
              && (Has(session.events, "run_complete") ==> status == "complete" && "result" in session.payload)
              && (Has(session.events, "run_failed") ==>
                    && status == "failed"
                    && forall name :: name in session.payload && OfTheAttempt(name) ==> name == "failure_code")
    ensures forall n :: states[k].claims[(id, n)] <= 1 && states[k].retries[(id, n)] <= 1
    ensures forall w, x :: (w in states[k].workers && x in states[k].workers
                            && states[k].workers[w].id == states[k].workers[x].id) ==> w == x
  {
    ReachableSafe(states, steps, k);
    var s := states[k];
    assert Safe(s, id);
    forall name: string
      ensures IsLeftover(name) <==> OfTheAttempt(name) && name != "failure_code"
    {
      LeftoverIs(name);
    }
    hide IsLeftover, OfTheAttempt;
    forall other | other in s.view.store
      ensures "status" in s.view.store[other].payload
      ensures s.view.store[other].payload["status"] == Str(s.view.columns[other].status)
    {
      assert Safe(s, other);
    }
    forall w, x | w in s.workers && x in s.workers && s.workers[w].id == s.workers[x].id ensures w == x {
      assert Safe(s, s.workers[w].id);
    }
  }

  // ---- nothing queued is lost ----

  ghost predicate Keeps(s: Sys, now: int, s': Sys, id: Id)
    requires s.view.Valid() && s'.view.Valid() && IsQueued(s, id)
  {
    IsQueued(s', id) || (id !in s'.view.store && s.view.store[id].expiresAt <= now)
  }

  lemma TouchKeeps(s: Sys, now: int, s': Sys, touched: Id, id: Id)
    requires s.view.Valid() && OnlyTouches(s.view, s'.view, now, touched)
    requires IsQueued(s, id) && id != touched
    ensures Keeps(s, now, s', id)
  {
  }

  lemma UpdateTouches(s: Sys, now: int, a: Action, s': Sys)
    requires Inv(s) && Next(s, now, a, s') && (a.Begin? || a.Save? || a.Mark?)
    ensures a.worker in s.workers && OnlyTouches(s.view, s'.view, now, s.workers[a.worker].id)
  {
    hide SqlUpdate;
    var own := s.workers[a.worker].id;
    hide Inv;
    match a
    case Begin(w) => UpdateEffect(s.view, s.ttl, now, own, map["status" := Str("running")], s'.view);
    case Save(w, result, evidence) =>
      UpdateEffect(s.view, s.ttl, now, own,
        map["result" := result, "evidence_by_id" := evidence, "status" := Str("complete")], s'.view);
    case Mark(w) => UpdateEffect(s.view, s.ttl, now, own, FailureValues(s.workers[w].phase.code), s'.view);
    case _ =>
    hide OnlyTouches;
  }

  lemma EmitTouches(s: Sys, now: int, a: Action, s': Sys)
    requires Inv(s) && Next(s, now, a, s') && (a.Progress? || a.Complete? || a.Clear? || a.Report?)
    ensures a.worker in s.workers && OnlyTouches(s.view, s'.view, now, s.workers[a.worker].id)
  {
    hide SqlRemoveKeys, SqlEmit;
    var own := s.workers[a.worker].id;
    hide Inv;
    match a
    case Clear(w) => RemoveKeysEffect(s.view, s.ttl, now, own, s.workers[w].phase.keys, s'.view);
    case Progress(w, kind, data) => EmitEffect(s.view, now, own, kind, data, s'.view);
    case Complete(w, data) => EmitEffect(s.view, now, own, "run_complete", data, s'.view);
    case Report(w, data) => EmitEffect(s.view, now, own, "run_failed", data, s'.view);
    case _ =>
    hide OnlyTouches;
  }

  lemma WorkerKeeps(s: Sys, now: int, a: Action, s': Sys, id: Id)
    requires Inv(s) && Inv(s') && Next(s, now, a, s') && IsQueued(s, id)
    requires a.Begin? || a.Progress? || a.Save? || a.Complete? || a.Clear? || a.Mark? || a.Report?
    ensures Keeps(s, now, s', id)
  {
    QueuedHasNoWorker(s, id);
    if a.Begin? || a.Save? || a.Mark? {
      UpdateTouches(s, now, a, s');
    } else {
      EmitTouches(s, now, a, s');
    }
    hide Next, OnlyTouches;
    TouchKeeps(s, now, s', s.workers[a.worker].id, id);
  }

  lemma HandlerKeeps(s: Sys, now: int, a: Action, s': Sys, id: Id)
    requires Inv(s) && Inv(s') && Next(s, now, a, s') && IsQueued(s, id)
    requires a.Enqueue? || a.Retry? || a.Assist?
    ensures Keeps(s, now, s', id)
  {
    hide SqlUpdate, SqlReset, PhaseSafe;
    QueuedHasNoWorker(s, id);
    assert Safe(s, id);
    match a
    case Enqueue(other) =>
      UpdateEffect(s.view, s.ttl, now, other, map["status" := Str("queued")], s'.view);
      TouchKeeps(s, now, s', other, id);
    case Retry(other) =>
      ResetEffect(s.view, s.ttl, now, other, s'.view);
      TouchKeeps(s, now, s', other, id);
    case Assist(other, values) =>
      UpdateEffect(s.view, s.ttl, now, other, values, s'.view);
      if other != id { TouchKeeps(s, now, s', other, id); }
    case _ =>
  }

  /** A queued session stays queued until it is claimed, expires or is deleted with its lineage. */
  lemma QueuedNotLost(s: Sys, now: int, a: Action, s': Sys, id: Id)
    requires Inv(s) && Next(s, now, a, s') && IsQueued(s, id)
    ensures s'.view.Valid()
    ensures || IsQueued(s', id)
            || (a.Claim? && a.claimed == Some(id) && id in s'.view.store && s'.view.columns[id].status == "running")
            || (id !in s'.view.store && s.view.store[id].expiresAt <= now)
            || (a.Remove? && id !in s'.view.store
                && id in Lineage.Component(GraphOf(Live(s.view.store, now)), a.id))
  {
    NextSafe(s, now, a, s');
    if a.Begin? || a.Progress? || a.Save? || a.Complete? || a.Clear? || a.Mark? || a.Report? {
      hide Next;
      WorkerKeeps(s, now, a, s', id);
    } else if a.Enqueue? || a.Retry? || a.Assist? {
      hide Next;
      HandlerKeeps(s, now, a, s', id);
    } else if a.Claim? && a.claimed.Some? {
      ClaimEffect(s.view, now, a.claimed.value, s'.view);
      if a.claimed.value != id { TouchKeeps(s, now, s', a.claimed.value, id); }
    } else {
      QuietKeeps(s, now, a, s', id);
    }
  }

  /** Steps that write no session. */
  lemma IdleKeeps(s: Sys, now: int, a: Action, s': Sys, id: Id)
    requires Inv(s) && Inv(s') && Next(s, now, a, s') && IsQueued(s, id)
    requires a.DropHandler? || a.Raise? || a.Vanish? || a.ReadStale? || a.Tick? || a.Crash?
             || (a.Claim? && a.claimed.None?)
    ensures Keeps(s, now, s', id)
  {
    hide Safe;
  }

  lemma RestartKeeps(s: Sys, now: int, s': Sys, id: Id)
    requires Inv(s) && s'.view.Valid() && RestartStep(s, now, s') && IsQueued(s, id)
    ensures Keeps(s, now, s', id)
  {
    assert Safe(s, id);
  }

  lemma SubmitKeeps(s: Sys, now: int, new_: Id, payload: map<string, Value>, s': Sys, id: Id)
    requires Inv(s) && s'.view.Valid() && SubmitStep(s, now, new_, payload, s') && IsQueued(s, id)
    ensures Keeps(s, now, s', id)
  {
    hide Safe;
  }

  lemma RemoveKeeps(s: Sys, now: int, removed: Id, s': Sys, id: Id)
    requires Inv(s) && s'.view.Valid() && RemoveStep(s, now, removed, s') && IsQueued(s, id)
    ensures Keeps(s, now, s', id)
            || (id !in s'.view.store && id in Lineage.Component(GraphOf(Live(s.view.store, now)), removed))
  {
    hide Safe;
  }

  lemma QuietKeeps(s: Sys, now: int, a: Action, s': Sys, id: Id)
    requires Inv(s) && Inv(s') && Next(s, now, a, s') && IsQueued(s, id)
    requires a.Submit? || a.DropHandler? || (a.Claim? && a.claimed.None?) || a.Raise? || a.Vanish? || a.ReadStale?
             || a.Remove? || a.Tick? || a.Crash? || a.Restart?
    ensures || Keeps(s, now, s', id)
            || (a.Remove? && id !in s'.view.store
                && id in Lineage.Component(GraphOf(Live(s.view.store, now)), a.id))
  {
    hide Safe, SubmitStep, RemoveStep, RestartStep;
    match a
    case Submit(new_, payload) => SubmitKeeps(s, now, new_, payload, s', id);
    case Remove(removed) => RemoveKeeps(s, now, removed, s', id);
    case Restart => RestartKeeps(s, now, s', id);
    case _ => IdleKeeps(s, now, a, s', id);
  }

  /** A restart leaves no session running: each one that was is queued again. */
  lemma RestartRequeuesAll(s: Sys, now: int, s': Sys, id: Id)
    requires Inv(s) && Next(s, now, Restart, s') && id in s.view.store
    ensures s'.view.Valid() && id in s'.view.store
    ensures s'.view.columns[id].status ==
              if s.view.columns[id].status == "running" then "queued" else s.view.columns[id].status
    ensures s.view.columns[id].status == "running" ==> Entered(s', id) == Entered(s, id) + 1
  {
    assert Safe(s, id);
  }

  /** A claim takes the live queued session that comes first by (updated_at, session_id). */
  lemma ClaimTakesFirst(s: Sys, now: int, w: nat, claimed: Option<Id>, s': Sys, other: Id)
    requires Inv(s) && Next(s, now, Claim(w, claimed), s')
    requires IsLive(s, now, other) && IsQueued(s, other)
    ensures claimed.Some? && IsLive(s, now, claimed.value) && IsQueued(s, claimed.value)
    ensures claimed.value != other ==> Earlier(s.view, claimed.value, other)
  {
    assert other in s.view.Purged(now).store;
    if claimed.Some? && claimed.value != other {
      assert Earlier(s.view.Purged(now), claimed.value, other);
    }
  }

  /**
   A run that raises is recovered once under its own code, and when the recovery raises too once more as a failed
   review; then the worker lets go. None of this touches the store.
   */
  lemma RecoveryIsTriedTwice(s: Sys, now: int, w: nat, code: string, s': Sys)
    requires s.view.Valid() && Next(s, now, Raise(w, code), s')
    ensures s'.view == s.view && w in s.workers
    ensures var phase := s.workers[w].phase;
            if phase.Claimed? || phase.Running? || phase.Saved? then
              s'.workers == s.workers[w := Work(s.workers[w].id, Recovering(code, false))]
            else if phase.lastResort then w !in s'.workers
            else s'.workers == s.workers[w := Work(s.workers[w].id, Recovering("review_failed", true))]
  {
  }
}

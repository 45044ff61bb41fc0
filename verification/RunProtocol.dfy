/**
 The service around one store: request handlers, any number of claiming workers, crashes and
 restarts, as interleaved atomic store calls. A call either commits or raises with no effect.
 */
module RunProtocol {
  import opened Basics
  import opened Values
  import opened Sessions

  const RETRYABLE := {"research_provider_failed", "research_timeout", "research_malformed", "research_insufficient"}

  const ASSISTANT_KEYS := {"assistant_history", "assistant_active", "assistant_active_owner"}

  /**
   Where a worker stands in `run_assessment`. The recovery phases are walked once by the
   exception handler and, if that raises too, once more by the worker's `_fail_closed`.
   */
  datatype Phase =
    | Claimed
    | Running
    | Saved
    | Recovering(code: string, lastResort: bool)
    | Clearing(code: string, lastResort: bool, keys: seq<string>)
    | Marking(code: string, lastResort: bool)
    | Reporting(code: string, lastResort: bool)

  datatype Work = Work(id: Id, phase: Phase)

  /**
   `pending` holds the sessions a handler has created or reset but not yet enqueued. The rest
   of the last line is history: ids ever used, how often each session entered the queue, and
   which entry each claim and each successful retry consumed.
   */
  datatype Sys = Sys(
    view: View, ttl: int, clock: int, up: bool, workers: map<nat, Work>, pending: set<Id>,
    used: set<Id>, entered: map<Id, nat>, claims: multiset<(Id, nat)>, retries: multiset<(Id, nat)>)

  datatype Action =
    | Submit(id: Id, payload: map<string, Value>)
    | Enqueue(id: Id)
    | DropHandler(id: Id)
    | Claim(worker: nat, claimed: Option<Id>)
    | Begin(worker: nat)
    | Progress(worker: nat, kind: string, data: Value)
    | Save(worker: nat, result: Value, evidence: Value)
    | Complete(worker: nat, data: Value)
    | Raise(worker: nat, code: string)
    | Vanish(worker: nat)
    | ReadStale(worker: nat)
    | Clear(worker: nat)
    | Mark(worker: nat)
    | Report(worker: nat, data: Value)
    | Retry(id: Id)
    | Assist(id: Id, values: map<string, Value>)
    | Remove(id: Id)
    | Tick
    | Crash
    | Restart

  // ---- events and statuses ----

  function Kind(event: Value): string {
    if event.Dict? && |event.fields| > 0 && event.fields[0].value.Str? then event.fields[0].value.s else ""
  }

  predicate Terminal(event: Value) {
    Kind(event) == "run_complete" || Kind(event) == "run_failed"
  }

  predicate NoTerminal(log: seq<Value>) {
    forall i :: 0 <= i < |log| ==> !Terminal(log[i])
  }

  predicate AtMostOneTerminal(log: seq<Value>) {
    forall i, j :: 0 <= i < j < |log| ==> !(Terminal(log[i]) && Terminal(log[j]))
  }

  predicate Has(log: seq<Value>, kind: string) {
    exists i :: 0 <= i < |log| && Kind(log[i]) == kind
  }

  /** The keys a failed run must not leave behind. */
  predicate IsLeftover(name: string) {
    name in {"result", "evidence_by_id", "validation_issues"} || IsResearchKey(name)
  }

  predicate NoLeftovers(payload: map<string, Value>) {
    forall name :: name in payload ==> !IsLeftover(name)
  }

  function FailureValues(code: string): map<string, Value> {
    map["status" := Str("failed"), "failure_code" := Str(code)]
  }

  function Entered(s: Sys, id: Id): nat {
    if id in s.entered then s.entered[id] else 0
  }

  // ---- the steps ----

  ghost predicate Calls(s: Sys, w: nat) {
    s.up && w in s.workers
  }

  function Moved(s: Sys, w: nat, phase: Phase): map<nat, Work>
    requires w in s.workers
  {
    s.workers[w := Work(s.workers[w].id, phase)]
  }

  /** The session is live, so a store call on it will not raise `SessionExpired`. */
  predicate IsLive(s: Sys, now: int, id: Id) {
    id in Live(s.view.store, now)
  }

  function Raised(phase: Phase, code: string): Option<Phase> {
    match phase
    case Claimed => Some(Recovering(code, false))
    case Running => Some(Recovering(code, false))
    case Saved => Some(Recovering(code, false))
    case _ => if phase.lastResort then None else Some(Recovering("review_failed", true))
  }

  ghost predicate SubmitStep(s: Sys, now: int, id: Id, payload: map<string, Value>, s': Sys)
    requires s.view.Valid()
  {
    && s.up && id !in s.used && id !in s.view.store
    && "status" in payload && payload["status"] == Str("created")
    && s' == s.(view := SqlCreate(s.view, s.ttl, now, id, payload).0, clock := now,
                pending := s.pending + {id}, used := s.used + {id})
  }

  ghost predicate EnqueueStep(s: Sys, now: int, id: Id, s': Sys)
    requires s.view.Valid()
  {
    && s.up && id in s.pending && IsLive(s, now, id)
    && s' == s.(view := SqlUpdate(s.view, s.ttl, now, id, map["status" := Str("queued")]).0, clock := now,
                pending := s.pending - {id}, entered := s.entered[id := Entered(s, id) + 1])
  }

  ghost predicate DropHandlerStep(s: Sys, now: int, id: Id, s': Sys)
    requires s.view.Valid()
  {
    s' == s.(clock := now, pending := s.pending - {id})
  }

  ghost predicate ClaimStep(s: Sys, now: int, w: nat, claimed: Option<Id>, s': Sys)
    requires s.view.Valid()
  {
    && s.up && w !in s.workers
    && Sessions.ClaimStep(s.view, now, claimed, s'.view)
    && s' == s.(view := s'.view, clock := now,
                workers := if claimed.Some? then s.workers[w := Work(claimed.value, Claimed)] else s.workers,
                claims := if claimed.Some? then s.claims + multiset{(claimed.value, Entered(s, claimed.value))}
                          else s.claims)
  }

  ghost predicate BeginStep(s: Sys, now: int, w: nat, s': Sys)
    requires s.view.Valid()
  {
    && Calls(s, w) && s.workers[w].phase.Claimed? && IsLive(s, now, s.workers[w].id)
    && s' == s.(view := SqlUpdate(s.view, s.ttl, now, s.workers[w].id, map["status" := Str("running")]).0,
                clock := now, workers := Moved(s, w, Running))
  }

  ghost predicate ProgressStep(s: Sys, now: int, w: nat, kind: string, data: Value, s': Sys)
    requires s.view.Valid()
  {
    && Calls(s, w) && s.workers[w].phase.Running? && IsLive(s, now, s.workers[w].id)
    && kind != "run_complete" && kind != "run_failed"
    && s' == s.(view := SqlEmit(s.view, now, s.workers[w].id, kind, data).0, clock := now)
  }

  ghost predicate SaveStep(s: Sys, now: int, w: nat, result: Value, evidence: Value, s': Sys)
    requires s.view.Valid()
  {
    && Calls(s, w) && s.workers[w].phase.Running? && IsLive(s, now, s.workers[w].id)
    && s' == s.(view := SqlUpdate(s.view, s.ttl, now, s.workers[w].id,
                  map["result" := result, "evidence_by_id" := evidence, "status" := Str("complete")]).0,
                clock := now, workers := Moved(s, w, Saved))
  }

  ghost predicate CompleteStep(s: Sys, now: int, w: nat, data: Value, s': Sys)
    requires s.view.Valid()
  {
    && Calls(s, w) && s.workers[w].phase.Saved? && IsLive(s, now, s.workers[w].id)
    && s' == s.(view := SqlEmit(s.view, now, s.workers[w].id, "run_complete", data).0, clock := now,
                workers := s.workers - {w})
  }

  ghost predicate RaiseStep(s: Sys, now: int, w: nat, code: string, s': Sys)
    requires s.view.Valid()
  {
    && Calls(s, w)
    && s' == s.(clock := now,
                workers := match Raised(s.workers[w].phase, code)
                           case Some(phase) => Moved(s, w, phase)
                           case None => s.workers - {w})
  }

  ghost predicate VanishStep(s: Sys, now: int, w: nat, s': Sys)
    requires s.view.Valid()
  {
    && Calls(s, w) && !IsLive(s, now, s.workers[w].id)
    && s' == s.(clock := now, workers := s.workers - {w})
  }

  ghost predicate ReadStaleStep(s: Sys, now: int, w: nat, s': Sys)
    requires s.view.Valid()
  {
    && Calls(s, w) && s.workers[w].phase.Recovering? && IsLive(s, now, s.workers[w].id)
    && exists keys: seq<string> ::
         && (forall name :: name in s.view.store[s.workers[w].id].payload && IsLeftover(name) ==> name in keys)
         && (forall name :: name in keys ==> IsLeftover(name))
         && s' == s.(view := SqlGet(s.view, now, s.workers[w].id).0, clock := now,
                     workers := Moved(s, w, Clearing(s.workers[w].phase.code, s.workers[w].phase.lastResort, keys)))
  }

  ghost predicate ClearStep(s: Sys, now: int, w: nat, s': Sys)
    requires s.view.Valid()
  {
    && Calls(s, w) && s.workers[w].phase.Clearing? && IsLive(s, now, s.workers[w].id)
    && s' == s.(view := SqlRemoveKeys(s.view, s.ttl, now, s.workers[w].id, s.workers[w].phase.keys).0,
                clock := now,
                workers := Moved(s, w, Marking(s.workers[w].phase.code, s.workers[w].phase.lastResort)))
  }

  ghost predicate MarkStep(s: Sys, now: int, w: nat, s': Sys)
    requires s.view.Valid()
  {
    && Calls(s, w) && s.workers[w].phase.Marking? && IsLive(s, now, s.workers[w].id)
    && s' == s.(view := SqlUpdate(s.view, s.ttl, now, s.workers[w].id,
                  FailureValues(s.workers[w].phase.code)).0,
                clock := now,
                workers := Moved(s, w, Reporting(s.workers[w].phase.code, s.workers[w].phase.lastResort)))
  }

  ghost predicate ReportStep(s: Sys, now: int, w: nat, data: Value, s': Sys)
    requires s.view.Valid()
  {
    && Calls(s, w) && s.workers[w].phase.Reporting? && IsLive(s, now, s.workers[w].id)
    && s' == s.(view := SqlEmit(s.view, now, s.workers[w].id, "run_failed", data).0, clock := now,
                workers := s.workers - {w})
  }

  /** What the retry endpoint does by itself. */
  ghost predicate ResetStep(s: Sys, now: int, id: Id, s': Sys)
    requires s.view.Valid()
  {
    && s.up && IsLive(s, now, id)
    && IsRetryable(s.view.store[id].payload, RETRYABLE)
    && s' == s.(view := SqlReset(s.view, s.ttl, now, id, RETRYABLE).0, clock := now,
                pending := s.pending + {id}, retries := s.retries + multiset{(id, Entered(s, id))})
  }

  /** What the browser asks of it: a retry only after it has seen `run_failed`. */
  ghost predicate RetryStep(s: Sys, now: int, id: Id, s': Sys)
    requires s.view.Valid()
  {
    ResetStep(s, now, id, s') && Has(s.view.store[id].events, "run_failed")
  }

  ghost predicate AssistStep(s: Sys, now: int, id: Id, values: map<string, Value>, s': Sys)
    requires s.view.Valid()
  {
    && s.up && IsLive(s, now, id) && values.Keys <= ASSISTANT_KEYS
    && s' == s.(view := SqlUpdate(s.view, s.ttl, now, id, values).0, clock := now)
  }

  ghost predicate RemoveStep(s: Sys, now: int, id: Id, s': Sys)
    requires s.view.Valid()
  {
    && s.up
    && s' == s.(view := SqlDelete(s.view, now, id).0, clock := now)
  }

  ghost predicate TickStep(s: Sys, now: int, s': Sys)
    requires s.view.Valid()
  {
    s' == s.(view := s.view.Purged(now), clock := now)
  }

  ghost predicate CrashStep(s: Sys, now: int, s': Sys)
    requires s.view.Valid()
  {
    s' == s.(clock := now, up := false, workers := map[], pending := {})
  }

  ghost predicate RestartStep(s: Sys, now: int, s': Sys)
    requires s.view.Valid()
  {
    && !s.up
    && RequeueStep(s.view, now, 0, s'.view)
    && (forall id :: Entered(s', id) == Entered(s, id)
                     + (if id in s.view.store && IsStale(s.view, id, now) then 1 else 0))
    && s' == s.(view := s'.view, clock := now, up := true, entered := s'.entered)
  }

  ghost predicate Next(s: Sys, now: int, a: Action, s': Sys)
    requires s.view.Valid()
  {
    && s.clock <= now
    && match a
       case Submit(id, payload) => SubmitStep(s, now, id, payload, s')
       case Enqueue(id) => EnqueueStep(s, now, id, s')
       case DropHandler(id) => DropHandlerStep(s, now, id, s')
       case Claim(w, claimed) => ClaimStep(s, now, w, claimed, s')
       case Begin(w) => BeginStep(s, now, w, s')
       case Progress(w, kind, data) => ProgressStep(s, now, w, kind, data, s')
       case Save(w, result, evidence) => SaveStep(s, now, w, result, evidence, s')
       case Complete(w, data) => CompleteStep(s, now, w, data, s')
       case Raise(w, code) => RaiseStep(s, now, w, code, s')
       case Vanish(w) => VanishStep(s, now, w, s')
       case ReadStale(w) => ReadStaleStep(s, now, w, s')
       case Clear(w) => ClearStep(s, now, w, s')
       case Mark(w) => MarkStep(s, now, w, s')
       case Report(w, data) => ReportStep(s, now, w, data, s')
       case Retry(id) => RetryStep(s, now, id, s')
       case Assist(id, values) => AssistStep(s, now, id, values, s')
       case Remove(id) => RemoveStep(s, now, id, s')
       case Tick => TickStep(s, now, s')
       case Crash => CrashStep(s, now, s')
       case Restart => RestartStep(s, now, s')
  }
}

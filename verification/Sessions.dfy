/**
 What a session store promises, as functions on the stored sessions. `Step` is the volatile
 store's behaviour; `SqlStep` is the same with the persistent store's queue columns and with
 its rollback of a transaction that ends in an exception.
 */
module Sessions {
  import opened Basics
  import opened Values
  import Lineage

  datatype Session = Session(payload: map<string, Value>, expiresAt: int, events: seq<Value>)

  type Store = map<Id, Session>

  datatype Op =
    | Create(id: Id, payload: map<string, Value>)
    | Get(id: Id)
    | Update(id: Id, values: map<string, Value>)
    | RemoveKeys(id: Id, keys: seq<string>)
    | Emit(id: Id, kind: string, data: Value)
    | ReadEvents(id: Id, after: int)
    | ResetFailedResearch(id: Id, retryable: set<string>)
    | Delete(id: Id)
    | Count

  datatype Answer =
    | Created(id: Id)
    | Found(session: Session)
    | Done
    | Expired
    | Events(numbered: seq<(nat, Value)>)
    | Reset(done: bool)
    | Total(n: nat)

  function ExpiredIds(s: Store, now: int): set<Id> {
    set id | id in s && s[id].expiresAt <= now
  }

  function Live(s: Store, now: int): Store {
    s - ExpiredIds(s, now)
  }

  function Event(kind: string, data: Value): Value {
    Dict([Field("type", Str(kind)), Field("data", data)])
  }

  function EventsAfter(events: seq<Value>, after: int): seq<(nat, Value)> {
    var cursor: nat := if after > 0 then after else 0;
    if cursor >= |events| then []
    else seq(|events| - cursor, i requires 0 <= i < |events| - cursor => (cursor + i + 1, events[cursor + i]))
  }

  predicate IsResearchKey(name: string) {
    HasPrefix(name, "research_") || HasSuffix(name, "_research")
  }

  predicate IsStaleKey(name: string) {
    name in {"failure_code", "result", "evidence_by_id", "validation_issues"} || IsResearchKey(name)
  }

  function WithoutStale(payload: map<string, Value>): map<string, Value> {
    payload - (set name | name in payload && IsStaleKey(name))
  }

  predicate IsRetryable(payload: map<string, Value>, retryable: set<string>) {
    && "status" in payload && payload["status"] == Str("failed")
    && "failure_code" in payload && payload["failure_code"].Str?
    && payload["failure_code"].s in retryable
  }

  function AfterReset(session: Session, deadline: int): Session {
    Session(WithoutStale(session.payload)["status" := Str("created")], deadline,
            [Event("run_started", Dict([]))])
  }

  /** What belongs to a failed attempt: four keys by name, and all that begin or end as research. */
  predicate OfTheAttempt(name: string) {
    || name == "failure_code" || name == "result" || name == "evidence_by_id" || name == "validation_issues"
    || (|name| >= 9 && (name[..9] == "research_" || name[|name| - 9..] == "_research"))
  }

  /** What a retry starts from: nothing of the failed attempt, and everything else. */
  ghost predicate StartsAfresh(before: Session, after: Session) {
    && (forall name :: name in after.payload <==>
          name == "status" || (name in before.payload && !OfTheAttempt(name)))
    && (forall name :: name in after.payload && name != "status" ==> after.payload[name] == before.payload[name])
    && after.payload["status"] == Str("created")
    && after.events == [Dict([Field("type", Str("run_started")), Field("data", Dict([]))])]
  }

  /** A session may start afresh when it failed, with a failure that may be retried. */
  predicate MayStartAfresh(session: Session, retryable: set<string>) {
    && "status" in session.payload && session.payload["status"] == Str("failed")
    && "failure_code" in session.payload
    && session.payload["failure_code"].Str? && session.payload["failure_code"].s in retryable
  }

  /** A reset happens exactly when it may, and then to that session alone. */
  ghost predicate ResetIsFresh(live: Store, deadline: int, id: Id, retryable: set<string>, after: Store, a: Answer) {
    && (a == Reset(true) <==> id in live && MayStartAfresh(live[id], retryable))
    && (a == Reset(true) ==>
          && id in after && StartsAfresh(live[id], after[id]) && after[id].expiresAt == deadline
          && after == live[id := after[id]])
    && (a != Reset(true) ==> after == live)
  }

  function ParentOf(session: Session): Option<Id> {
    if "parent_assessment_id" in session.payload && session.payload["parent_assessment_id"].Str?
    then Some(session.payload["parent_assessment_id"].s)
    else None
  }

  function GraphOf(s: Store): (g: Lineage.Graph)
    ensures g.Valid()
  {
    Lineage.Graph(s.Keys, set id | id in s && ParentOf(s[id]).Some? :: (id, ParentOf(s[id]).value))
  }

  function KeySet(keys: seq<string>): set<string> {
    set k | k in keys
  }

  // ---- each operation on the live sessions ----

  function DoCreate(live: Store, deadline: int, id: Id, payload: map<string, Value>): (Store, Answer) {
    (live[id := Session(payload, deadline, [])], Created(id))
  }

  function DoGet(live: Store, id: Id): (Store, Answer) {
    if id in live then (live, Found(live[id])) else (live, Expired)
  }

  function DoUpdate(live: Store, deadline: int, id: Id, values: map<string, Value>): (Store, Answer) {
    if id in live then
      (live[id := Session(live[id].payload + values, deadline, live[id].events)], Done)
    else (live, Expired)
  }

  function DoRemoveKeys(live: Store, deadline: int, id: Id, keys: seq<string>): (Store, Answer) {
    if id in live then
      (live[id := Session(live[id].payload - KeySet(keys), deadline, live[id].events)], Done)
    else (live, Expired)
  }

  function DoEmit(live: Store, id: Id, kind: string, data: Value): (Store, Answer) {
    if id in live then
      (live[id := live[id].(events := live[id].events + [Event(kind, data)])], Done)
    else (live, Expired)
  }

  function DoReadEvents(live: Store, id: Id, after: int): (Store, Answer) {
    if id in live then (live, Events(EventsAfter(live[id].events, after))) else (live, Expired)
  }

  function DoReset(live: Store, deadline: int, id: Id, retryable: set<string>): (Store, Answer) {
    if id !in live then (live, Expired)
    else if IsRetryable(live[id].payload, retryable) then
      (live[id := AfterReset(live[id], deadline)], Reset(true))
    else (live, Reset(false))
  }

  lemma StaleIsOfTheAttempt(name: string)
    ensures IsStaleKey(name) <==> OfTheAttempt(name)
  {
  }

  lemma ResetSessionIsFresh(session: Session, deadline: int)
    ensures StartsAfresh(session, AfterReset(session, deadline)) && AfterReset(session, deadline).expiresAt == deadline
  {
    hide IsStaleKey, OfTheAttempt;
    forall name
      ensures IsStaleKey(name) <==> OfTheAttempt(name)
    {
      StaleIsOfTheAttempt(name);
    }
  }

  lemma ResetStartsAfresh(live: Store, deadline: int, id: Id, retryable: set<string>)
    ensures var (after, a) := DoReset(live, deadline, id, retryable);
            ResetIsFresh(live, deadline, id, retryable, after, a)
  {
    hide StartsAfresh, AfterReset, IsRetryable, MayStartAfresh;
    if id in live {
      ResetSessionIsFresh(live[id], deadline);
      RetryableIs(live[id], retryable);
    }
  }

  lemma RetryableIs(session: Session, retryable: set<string>)
    ensures IsRetryable(session.payload, retryable) <==> MayStartAfresh(session, retryable)
  {
  }

  ghost function DoDelete(live: Store, id: Id): (Store, Answer) {
    (live - Lineage.Component(GraphOf(live), id), Done)
  }

  function DoCount(live: Store): (Store, Answer) {
    (live, Total(|live|))
  }

  /** The volatile store: expired sessions are purged first, whatever the answer. */
  ghost function Step(s: Store, ttl: int, now: int, op: Op): (Store, Answer) {
    match op
    case Create(id, payload) => DoCreate(Live(s, now), now + ttl, id, payload)
    case Get(id) => DoGet(Live(s, now), id)
    case Update(id, values) => DoUpdate(Live(s, now), now + ttl, id, values)
    case RemoveKeys(id, keys) => DoRemoveKeys(Live(s, now), now + ttl, id, keys)
    case Emit(id, kind, data) => DoEmit(Live(s, now), id, kind, data)
    case ReadEvents(id, after) => DoReadEvents(Live(s, now), id, after)
    case ResetFailedResearch(id, retryable) => DoReset(Live(s, now), now + ttl, id, retryable)
    case Delete(id) => DoDelete(Live(s, now), id)
    case Count => DoCount(Live(s, now))
  }

  // ---- what each call does, key by key ----

  predicate Lives(s: Store, id: Id, now: int) {
    id in s && s[id].expiresAt > now
  }

  /** Sessions other than this one stay when they live, and go when they have expired. */
  ghost predicate OthersStay(s: Store, now: int, id: Id, after: Store) {
    forall other :: other != id ==>
      && (other in after <==> Lives(s, other, now))
      && (other in after ==> after[other] == s[other])
  }

  ghost predicate OnlyPurged(s: Store, now: int, after: Store) {
    forall id :: (id in after <==> Lives(s, id, now)) && (id in after ==> after[id] == s[id])
  }

  /** A session that lives is changed in this way and its life renewed; one that does not is expired. */
  ghost predicate Changes(s: Store, now: int, id: Id, after: Store, a: Answer, done: Answer) {
    if Lives(s, id, now) then a == done && id in after && OthersStay(s, now, id, after)
    else a == Expired && OnlyPurged(s, now, after)
  }

  ghost predicate StepFits(s: Store, ttl: int, now: int, op: Op, after: Store, a: Answer) {
    match op
    case Create(id, payload) =>
      && a == Created(id) && OthersStay(s, now, id, after)
      && id in after && after[id] == Session(payload, now + ttl, [])
    case Get(id) => OnlyPurged(s, now, after) && a == if Lives(s, id, now) then Found(s[id]) else Expired
    case Update(id, values) =>
      && Changes(s, now, id, after, a, Done)
      && (Lives(s, id, now) ==>
            && after[id].expiresAt == now + ttl && after[id].events == s[id].events
            && forall name :: (name in after[id].payload <==> name in values || name in s[id].payload)
                              && (name in after[id].payload ==>
                                    after[id].payload[name] == if name in values then values[name] else s[id].payload[name]))
    case RemoveKeys(id, keys) =>
      && Changes(s, now, id, after, a, Done)
      && (Lives(s, id, now) ==>
            && after[id].expiresAt == now + ttl && after[id].events == s[id].events
            && forall name :: (name in after[id].payload <==> name in s[id].payload && name !in keys)
                              && (name in after[id].payload ==> after[id].payload[name] == s[id].payload[name]))
    case Emit(id, kind, data) =>
      && Changes(s, now, id, after, a, Done)
      && (Lives(s, id, now) ==>
            && after[id].expiresAt == s[id].expiresAt && after[id].payload == s[id].payload
            && after[id].events == s[id].events + [Dict([Field("type", Str(kind)), Field("data", data)])])
    case ReadEvents(id, seen) =>
      && OnlyPurged(s, now, after)
      && (!Lives(s, id, now) ==> a == Expired)
      && (Lives(s, id, now) ==>
            var log, from := s[id].events, if seen > 0 then seen else 0;
            && a.Events? && |a.numbered| == (if from < |log| then |log| - from else 0)
            && forall i :: 0 <= i < |a.numbered| ==> a.numbered[i] == (from + i + 1, log[from + i]))
    case ResetFailedResearch(id, retryable) =>
      if Lives(s, id, now) && MayStartAfresh(s[id], retryable) then
        && a == Reset(true) && OthersStay(s, now, id, after)
        && id in after && after[id].expiresAt == now + ttl && StartsAfresh(s[id], after[id])
      else OnlyPurged(s, now, after) && a == if Lives(s, id, now) then Reset(false) else Expired
    case Delete(id) =>
      && a == Done
      && forall other :: (other in after <==> Lives(s, other, now) && other !in Lineage.Component(GraphOf(Live(s, now)), id))
                         && (other in after ==> after[other] == s[other])
    case Count => OnlyPurged(s, now, after) && a == Total(|set id | id in s && s[id].expiresAt > now|)
  }

  lemma LiveAre(s: Store, now: int)
    ensures OnlyPurged(s, now, Live(s, now))
    ensures Live(s, now).Keys == set id | id in s && s[id].expiresAt > now
  {
  }

  lemma UpdateIs(s: Store, ttl: int, now: int, op: Op)
    requires op.Update? || op.RemoveKeys? || op.Emit?
    ensures var (after, a) := Step(s, ttl, now, op); StepFits(s, ttl, now, op, after, a)
  {
    LiveAre(s, now);
    hide Live;
  }

  lemma ReadIs(s: Store, ttl: int, now: int, op: Op)
    requires op.ReadEvents? || op.Get? || op.Count?
    ensures var (after, a) := Step(s, ttl, now, op); StepFits(s, ttl, now, op, after, a)
  {
    LiveAre(s, now);
    hide Live;
  }

  /** What every call does to the sessions and answers, in the store's own terms. */
  lemma StepIs(s: Store, ttl: int, now: int, op: Op)
    ensures var (after, a) := Step(s, ttl, now, op); StepFits(s, ttl, now, op, after, a)
  {
    if op.Update? || op.RemoveKeys? || op.Emit? {
      UpdateIs(s, ttl, now, op);
    } else if op.ReadEvents? || op.Get? || op.Count? {
      ReadIs(s, ttl, now, op);
    } else {
      LiveAre(s, now);
      if op.ResetFailedResearch? {
        ResetStartsAfresh(Live(s, now), now + ttl, op.id, op.retryable);
      }
      hide Live, DoReset, StartsAfresh, MayStartAfresh, DoUpdate, DoRemoveKeys, DoEmit, DoReadEvents;
    }
  }

  /** A session is linked to its parent, and only so. */
  lemma GraphIs(s: Store, a: Id, b: Id)
    ensures GraphOf(s).nodes == s.Keys
    ensures (a, b) in GraphOf(s).links
            <==> a in s && "parent_assessment_id" in s[a].payload && s[a].payload["parent_assessment_id"] == Str(b)
  {
  }

  // ---- the persistent store's queue columns ----

  datatype Column = Column(status: string, updatedAt: int)

  datatype View = View(store: Store, columns: map<Id, Column>) {
    ghost predicate Valid() {
      columns.Keys == store.Keys
    }

    function Purged(now: int): View {
      View(Live(store, now), columns - ExpiredIds(store, now))
    }
  }

  /** `str(payload.get("status", "created"))` on a payload whose status, if any, is text. */
  function InitialStatus(payload: map<string, Value>): string {
    if "status" in payload && payload["status"].Str? then payload["status"].s else "created"
  }

  /** An update writes the status column only when it carries a status other than `None`. */
  function StatusAfter(current: string, values: map<string, Value>): string {
    if "status" in values && values["status"].Str? then values["status"].s else current
  }

  /** No caller stores a status that is neither text nor, in an update, `None`. */
  predicate StatusIsText(op: Op) {
    match op
    case Create(_, payload) => "status" in payload ==> payload["status"].Str?
    case Update(_, values) => "status" in values ==> values["status"].Str? || values["status"].Null?
    case _ => true
  }

  /** An expired call is rolled back; any other commits its sessions and queue columns. */
  function Commit(before: View, result: (Store, Answer), columns: map<Id, Column>): (View, Answer) {
    if result.1 == Expired then (before, Expired) else (View(result.0, columns), result.1)
  }

  function SqlCreate(v: View, ttl: int, now: int, id: Id, payload: map<string, Value>): (View, Answer)
    requires v.Valid()
  {
    var live := v.Purged(now);
    Commit(v, DoCreate(live.store, now + ttl, id, payload),
           live.columns[id := Column(InitialStatus(payload), now)])
  }

  function SqlGet(v: View, now: int, id: Id): (View, Answer)
    requires v.Valid()
  {
    var live := v.Purged(now);
    Commit(v, DoGet(live.store, id), live.columns)
  }

  /** The status column after a write that sets the deadline: `updated_at` moves too. */
  function Touched(live: View, now: int, id: Id, values: map<string, Value>): map<Id, Column>
    requires live.Valid()
  {
    if id in live.store then live.columns[id := Column(StatusAfter(live.columns[id].status, values), now)]
    else live.columns
  }

  function SqlUpdate(v: View, ttl: int, now: int, id: Id, values: map<string, Value>): (View, Answer)
    requires v.Valid()
  {
    var live := v.Purged(now);
    Commit(v, DoUpdate(live.store, now + ttl, id, values), Touched(live, now, id, values))
  }

  function SqlRemoveKeys(v: View, ttl: int, now: int, id: Id, keys: seq<string>): (View, Answer)
    requires v.Valid()
  {
    var live := v.Purged(now);
    Commit(v, DoRemoveKeys(live.store, now + ttl, id, keys), Touched(live, now, id, map[]))
  }

  function SqlEmit(v: View, now: int, id: Id, kind: string, data: Value): (View, Answer)
    requires v.Valid()
  {
    var live := v.Purged(now);
    Commit(v, DoEmit(live.store, id, kind, data), live.columns)
  }

  function SqlReadEvents(v: View, now: int, id: Id, after: int): (View, Answer)
    requires v.Valid()
  {
    var live := v.Purged(now);
    Commit(v, DoReadEvents(live.store, id, after), live.columns)
  }

  function SqlReset(v: View, ttl: int, now: int, id: Id, retryable: set<string>): (View, Answer)
    requires v.Valid()
  {
    var live := v.Purged(now);
    var result := DoReset(live.store, now + ttl, id, retryable);
    Commit(v, result,
           if result.1 == Reset(true) then live.columns[id := Column("created", now)] else live.columns)
  }

  ghost function SqlDelete(v: View, now: int, id: Id): (View, Answer)
    requires v.Valid()
  {
    var live := v.Purged(now);
    Commit(v, DoDelete(live.store, id), live.columns - Lineage.Component(GraphOf(live.store), id))
  }

  function SqlCount(v: View, now: int): (View, Answer)
    requires v.Valid()
  {
    var live := v.Purged(now);
    Commit(v, DoCount(live.store), live.columns)
  }

  ghost function SqlStep(v: View, ttl: int, now: int, op: Op): (View, Answer)
    requires v.Valid()
  {
    match op
    case Create(id, payload) => SqlCreate(v, ttl, now, id, payload)
    case Get(id) => SqlGet(v, now, id)
    case Update(id, values) => SqlUpdate(v, ttl, now, id, values)
    case RemoveKeys(id, keys) => SqlRemoveKeys(v, ttl, now, id, keys)
    case Emit(id, kind, data) => SqlEmit(v, now, id, kind, data)
    case ReadEvents(id, after) => SqlReadEvents(v, now, id, after)
    case ResetFailedResearch(id, retryable) => SqlReset(v, ttl, now, id, retryable)
    case Delete(id) => SqlDelete(v, now, id)
    case Count => SqlCount(v, now)
  }

  lemma SqlStepValid(v: View, ttl: int, now: int, op: Op)
    requires v.Valid()
    ensures SqlStep(v, ttl, now, op).0.Valid()
  {
  }

  /** `UPDATE ... SET status`: the column always, the payload copy where the row exists. */
  function SetStatus(v: View, id: Id, status: string, now: int): View
    requires v.Valid() && id in v.store
  {
    var session := v.store[id];
    var payload := if "status" in session.payload then session.payload["status" := Str(status)]
                   else session.payload;
    View(v.store[id := session.(payload := payload)], v.columns[id := Column(status, now)])
  }

  predicate Earlier(v: View, a: Id, b: Id)
    requires v.Valid() && a in v.store && b in v.store
  {
    v.columns[a].updatedAt < v.columns[b].updatedAt
    || (v.columns[a].updatedAt == v.columns[b].updatedAt && TextLess(a, b))
  }

  /** The session `ORDER BY updated_at, session_id LIMIT 1` finds among the queued ones. */
  ghost predicate IsFirstQueued(v: View, id: Id)
    requires v.Valid()
  {
    && id in v.store && v.columns[id].status == "queued"
    && forall other :: other in v.store && other != id && v.columns[other].status == "queued"
         ==> Earlier(v, id, other)
  }

  /** Claiming: nothing when no live session is queued, otherwise the first one runs. */
  ghost predicate ClaimStep(v: View, now: int, claimed: Option<Id>, v': View)
    requires v.Valid()
  {
    var live := v.Purged(now);
    match claimed
    case None => v' == live && forall id :: id in live.store ==> live.columns[id].status != "queued"
    case Some(id) => IsFirstQueued(live, id) && v' == SetStatus(live, id, "running", now)
  }

  predicate IsStale(v: View, id: Id, cutoff: int)
    requires v.Valid() && id in v.store
  {
    v.columns[id].status == "running" && v.columns[id].updatedAt <= cutoff
  }

  /** Requeueing touches every stale running session, expired or not, and no other. */
  ghost predicate RequeueStep(v: View, now: int, staleAfter: int, v': View)
    requires v.Valid()
  {
    && v'.Valid() && v'.store.Keys == v.store.Keys
    && forall id :: id in v.store ==>
         var written := SetStatus(v, id, "queued", now);
         if v.columns[id].status == "running" && v.columns[id].updatedAt <= now - staleAfter
         then v'.store[id] == written.store[id] && v'.columns[id] == written.columns[id]
         else v'.store[id] == v.store[id] && v'.columns[id] == v.columns[id]
  }

  // ---- the duplicated status ----

  /** The column repeats the payload's status; without one it reads "created". */
  ghost predicate Mirrored(v: View)
    requires v.Valid()
  {
    forall id :: id in v.store ==>
      if "status" in v.store[id].payload
      then v.store[id].payload["status"] == Str(v.columns[id].status)
      else v.columns[id].status == "created"
  }

  /** The two calls that would part them: `update(status=None)` and removing the key. */
  predicate KeepsStatus(op: Op) {
    match op
    case Update(_, values) => "status" in values ==> values["status"] != Null
    case RemoveKeys(_, keys) => "status" !in keys
    case _ => true
  }

  lemma PurgeKeepsMirror(v: View, now: int)
    requires v.Valid() && Mirrored(v)
    ensures v.Purged(now).Valid() && Mirrored(v.Purged(now))
  {
  }

  lemma WriteKeepsMirror(v: View, id: Id, session: Session, column: Column)
    requires v.Valid() && Mirrored(v)
    requires if "status" in session.payload then session.payload["status"] == Str(column.status)
             else column.status == "created"
    ensures View(v.store[id := session], v.columns[id := column]).Valid()
    ensures Mirrored(View(v.store[id := session], v.columns[id := column]))
  {
  }

  lemma RemovalKeepsMirror(v: View, gone: set<Id>)
    requires v.Valid() && Mirrored(v)
    ensures View(v.store - gone, v.columns - gone).Valid() && Mirrored(View(v.store - gone, v.columns - gone))
  {
  }

  lemma MirrorKeptByUpdate(v: View, ttl: int, now: int, id: Id, values: map<string, Value>)
    requires v.Valid() && Mirrored(v) && ("status" in values ==> values["status"].Str?)
    ensures SqlUpdate(v, ttl, now, id, values).0.Valid() && Mirrored(SqlUpdate(v, ttl, now, id, values).0)
  {
    hide Mirrored;
    PurgeKeepsMirror(v, now);
    var p := v.Purged(now);
    if id in p.store {
      MirroredAt(p, id);
      WriteKeepsMirror(p, id, Session(p.store[id].payload + values, now + ttl, p.store[id].events),
                       Column(StatusAfter(p.columns[id].status, values), now));
    }
  }

  /** Without its key a status reads "created", so taking the key away is harmless while it says just that. */
  lemma MirrorKeptByRemoval(v: View, ttl: int, now: int, id: Id, keys: seq<string>)
    requires v.Valid() && Mirrored(v)
    requires id in Live(v.store, now) ==> "status" !in keys || v.columns[id].status == "created"
    ensures SqlRemoveKeys(v, ttl, now, id, keys).0.Valid() && Mirrored(SqlRemoveKeys(v, ttl, now, id, keys).0)
  {
    hide Mirrored;
    PurgeKeepsMirror(v, now);
    var p := v.Purged(now);
    if id in p.store {
      MirroredAt(p, id);
      WriteKeepsMirror(p, id, Session(p.store[id].payload - KeySet(keys), now + ttl, p.store[id].events),
                       Column(StatusAfter(p.columns[id].status, map[]), now));
    }
  }

  lemma MirrorKeptByReset(v: View, ttl: int, now: int, id: Id, retryable: set<string>)
    requires v.Valid() && Mirrored(v)
    ensures SqlReset(v, ttl, now, id, retryable).0.Valid() && Mirrored(SqlReset(v, ttl, now, id, retryable).0)
  {
    hide Mirrored, WithoutStale, IsRetryable;
    PurgeKeepsMirror(v, now);
    var p := v.Purged(now);
    if id in p.store {
      WriteKeepsMirror(p, id, AfterReset(p.store[id], now + ttl), Column("created", now));
    }
  }

  lemma MirrorKept(v: View, ttl: int, now: int, op: Op)
    requires v.Valid() && Mirrored(v)
    requires StatusIsText(op) && KeepsStatus(op)
    ensures SqlStep(v, ttl, now, op).0.Valid() && Mirrored(SqlStep(v, ttl, now, op).0)
  {
    hide Mirrored, SqlUpdate, SqlRemoveKeys, SqlReset;
    SqlStepValid(v, ttl, now, op);
    PurgeKeepsMirror(v, now);
    var p := v.Purged(now);
    match op
    case Create(id, payload) =>
      WriteKeepsMirror(p, id, Session(payload, now + ttl, []), Column(InitialStatus(payload), now));
    case Delete(id) =>
      RemovalKeepsMirror(p, Lineage.Component(GraphOf(p.store), id));
    case Update(id, values) => MirrorKeptByUpdate(v, ttl, now, id, values);
    case RemoveKeys(id, keys) => MirrorKeptByRemoval(v, ttl, now, id, keys);
    case Emit(id, kind, data) =>
      if id in p.store {
        LogKeepsMirror(p, id, p.store[id].events + [Event(kind, data)]);
      }
    case ResetFailedResearch(id, retryable) => MirrorKeptByReset(v, ttl, now, id, retryable);
    case _ =>
  }

  lemma LogKeepsMirror(v: View, id: Id, log: seq<Value>)
    requires v.Valid() && Mirrored(v) && id in v.store
    ensures View(v.store[id := v.store[id].(events := log)], v.columns).Valid()
    ensures Mirrored(View(v.store[id := v.store[id].(events := log)], v.columns))
  {
  }

  lemma MirroredAt(v: View, id: Id)
    requires v.Valid() && Mirrored(v) && id in v.store
    ensures if "status" in v.store[id].payload then v.store[id].payload["status"] == Str(v.columns[id].status)
            else v.columns[id].status == "created"
  {
  }

  lemma MirrorBroken(v: View, ttl: int, now: int, op: Op)
    requires v.Valid() && Mirrored(v)
    requires StatusIsText(op) && !KeepsStatus(op) && op.id in Live(v.store, now)
    requires op.RemoveKeys? ==> v.columns[op.id].status != "created"
    ensures SqlStep(v, ttl, now, op).0.Valid() && !Mirrored(SqlStep(v, ttl, now, op).0)
  {
    SqlStepValid(v, ttl, now, op);
    var v' := SqlStep(v, ttl, now, op).0;
    assert op.id in v'.store;
  }

  /**
   A call keeps the column equal to the payload's status exactly when it neither updates the status to `None` nor
   removes its key, or finds no live session, or removes the key of a session still "created".
   */
  lemma MirrorIff(v: View, ttl: int, now: int, op: Op)
    requires v.Valid() && Mirrored(v) && StatusIsText(op)
    ensures SqlStep(v, ttl, now, op).0.Valid()
    ensures Mirrored(SqlStep(v, ttl, now, op).0)
            <==> KeepsStatus(op) || op.id !in Live(v.store, now)
                 || (op.RemoveKeys? && v.columns[op.id].status == "created")
  {
    SqlStepValid(v, ttl, now, op);
    hide Mirrored, StatusIsText;
    if KeepsStatus(op) {
      MirrorKept(v, ttl, now, op);
    } else if op.id !in Live(v.store, now) {
      assert SqlStep(v, ttl, now, op).0 == v;
    } else if op.RemoveKeys? && v.columns[op.id].status == "created" {
      MirrorKeptByRemoval(v, ttl, now, op.id, op.keys);
    } else {
      MirrorBroken(v, ttl, now, op);
    }
  }

  lemma MirrorKeptByQueue(v: View, now: int, claimed: Option<Id>, v': View, staleAfter: int)
    requires v.Valid() && Mirrored(v)
    requires ClaimStep(v, now, claimed, v') || RequeueStep(v, now, staleAfter, v')
    ensures v'.Valid() && Mirrored(v')
  {
  }

  /** At most one session is first, so a claim is determined by the tables. */
  lemma FirstQueuedUnique(v: View, a: Id, b: Id)
    requires v.Valid() && IsFirstQueued(v, a) && IsFirstQueued(v, b)
    ensures a == b
  {
    TextLessTotal(a, b);
  }

  lemma EarlierTransitive(v: View, a: Id, b: Id, c: Id)
    requires v.Valid() && a in v.store && b in v.store && c in v.store
    requires Earlier(v, a, b) && Earlier(v, b, c)
    ensures Earlier(v, a, c)
  {
    if TextLess(a, b) && TextLess(b, c) {
      TextLessTransitive(a, b, c);
    }
  }

  /** Whenever something is queued, a first session exists and is claimed. */
  lemma {:induction false} FirstQueuedExists(v: View, queued: set<Id>) returns (first: Id)
    requires v.Valid() && queued != {}
    requires forall id :: id in queued ==> id in v.store
    ensures first in queued
    ensures forall other :: other in queued && other != first ==> Earlier(v, first, other)
    decreases queued
  {
    first :| first in queued;
    var rest := queued - {first};
    assert forall other :: other in queued ==> other == first || other in rest;
    if rest != {} {
      var next := FirstQueuedExists(v, rest);
      TextLessTotal(first, next);
      if Earlier(v, next, first) {
        first := next;
      } else {
        forall other | other in queued && other != first ensures Earlier(v, first, other) {
          assert other in rest;
          if other != next {
            EarlierTransitive(v, first, next, other);
          }
        }
      }
    }
  }
}

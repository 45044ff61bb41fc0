/**
 The persistent session store. Each method is one transaction: it works on a copy of the
 tables and commits it at the end, so a call that finds its session expired changes nothing.
 */
module SqliteStore {
  import opened Basics
  import opened Values
  import opened Sessions
  import opened Tables
  import Lineage

  predicate CleanPayload(payload: map<string, Value>) {
    forall name :: name in payload ==> Clean(payload[name])
  }

  /** What the encoding can carry back unchanged: no dict that is exactly the bytes marker. */
  predicate CleanOp(op: Op) {
    match op
    case Create(_, payload) => CleanPayload(payload)
    case Update(_, values) => CleanPayload(values)
    case Emit(_, _, data) => Clean(data)
    case _ => true
  }

  /** The tables stand for `v`; the session ids are the same on both sides. */
  ghost predicate Backs(c: TextCodec, db: Db, v: View) {
    v.Valid() && v.store.Keys == db.sessions.Keys && Represents(c, db, v)
  }

  lemma EventIsClean(kind: string, data: Value)
    requires Clean(data)
    ensures Clean(Event(kind, data))
  {
    var fields := [Field("type", Str(kind)), Field("data", data)];
    assert fields[1..] == [Field("data", data)];
    assert fields[1..][1..] == [];
    assert CleanFields(fields[1..][1..]);
    assert CleanFields(fields[1..]);
    assert CleanFields(fields);
  }

  // ---- one statement each, with its effect on the view ----

  method Purge(c: TextCodec, t: Db, ghost v: View, now: int) returns (t': Db, ghost v': View)
    requires Backs(c, t, v)
    ensures Backs(c, t', v') && v' == v.Purged(now)
    ensures t'.sessions.Keys <= t.sessions.Keys
  {
    var gone := set id | id in t.sessions && t.sessions[id].expiresAt <= now;
    DeleteSessionsEffect(c, t, v, gone);
    t' := DeleteSessions(t, gone);
    v' := View(v.store - gone, v.columns - gone);
    forall id | id in v.store ensures id in gone <==> v.store[id].expiresAt <= now {
      CellOf(c, t, v, id, "status");
    }
    hide Represents;
    WithoutExpired(v, gone, now);
  }

  lemma WithoutExpired(v: View, gone: set<Id>, now: int)
    requires v.Valid()
    requires forall id :: id in v.store ==> (id in gone <==> v.store[id].expiresAt <= now)
    ensures View(v.store - gone, v.columns - gone) == v.Purged(now)
  {
  }

  method InsertSession(c: TextCodec, t: Db, ghost v: View, id: Id, row: Row) returns (t': Db, ghost v': View)
    requires Backs(c, t, v) && id !in t.sessions
    ensures Backs(c, t', v')
    ensures v' == View(v.store[id := Session(map[], row.expiresAt, [])],
                       v.columns[id := Column(row.status, row.updatedAt)])
  {
    AddRowEffect(c, t, v, id, row);
    t' := PutRow(t, id, row);
    v' := View(v.store[id := Session(map[], row.expiresAt, [])],
               v.columns[id := Column(row.status, row.updatedAt)]);
  }

  method UpdateSession(c: TextCodec, t: Db, ghost v: View, id: Id, row: Row) returns (t': Db, ghost v': View)
    requires Backs(c, t, v) && id in t.sessions
    ensures Backs(c, t', v')
    ensures v' == View(v.store[id := v.store[id].(expiresAt := row.expiresAt)],
                       v.columns[id := Column(row.status, row.updatedAt)])
    ensures t'.values == t.values && t'.sessions == t.sessions[id := row]
  {
    PutRowEffect(c, t, v, id, row);
    t' := PutRow(t, id, row);
    v' := View(v.store[id := v.store[id].(expiresAt := row.expiresAt)],
               v.columns[id := Column(row.status, row.updatedAt)]);
  }

  method UpsertValues(c: TextCodec, t: Db, ghost v: View, id: Id, values: map<string, Value>)
    returns (t': Db, ghost v': View)
    requires c.Valid() && Backs(c, t, v) && id in t.sessions && CleanPayload(values)
    ensures Backs(c, t', v') && t'.sessions == t.sessions
    ensures v' == v.(store := v.store[id := v.store[id].(payload := v.store[id].payload + values)])
  {
    PutValuesEffect(c, t, v, id, values);
    t' := PutValues(c, t, id, values);
    v' := v.(store := v.store[id := v.store[id].(payload := v.store[id].payload + values)]);
  }

  method DeleteValues(c: TextCodec, t: Db, ghost v: View, id: Id, names: set<string>)
    returns (t': Db, ghost v': View)
    requires Backs(c, t, v) && id in t.sessions
    ensures Backs(c, t', v') && t'.sessions == t.sessions
    ensures v' == v.(store := v.store[id := v.store[id].(payload := v.store[id].payload - names)])
  {
    DropValuesEffect(c, t, v, id, names);
    t' := DropValues(t, id, names);
    v' := v.(store := v.store[id := v.store[id].(payload := v.store[id].payload - names)]);
  }

  /** `SELECT COALESCE(MAX(sequence), 0) + 1` */
  method NextSequence(c: TextCodec, t: Db, ghost log: seq<Value>, id: Id) returns (n: nat)
    requires HoldsLog(c, t, id, log)
    ensures n == |log| + 1
  {
    var pending := set k | k in t.events && k.0 == id;
    var highest: nat := 0;
    ghost var seen: set<(Id, nat)> := {};
    while pending != {}
      invariant pending <= t.events.Keys && seen <= t.events.Keys
      invariant forall k :: k in t.events && k.0 == id ==> k in pending || k in seen
      invariant forall k :: k in pending || k in seen ==> k.0 == id
      invariant forall k :: k in seen ==> k.1 <= highest
      invariant highest == 0 || (id, highest) in seen
      decreases pending
    {
      var k :| k in pending;
      pending := pending - {k};
      seen := seen + {k};
      if k.1 > highest { highest := k.1; }
    }
    assert (id, highest) in t.events <==> 1 <= highest <= |log|;
    assert (id, |log|) in t.events <==> 1 <= |log|;
    n := highest + 1;
  }

  method InsertEvent(c: TextCodec, t: Db, ghost v: View, id: Id, event: Value) returns (t': Db, ghost v': View)
    requires c.Valid() && Backs(c, t, v) && id in t.sessions && Clean(event)
    ensures Backs(c, t', v') && t'.sessions == t.sessions
    ensures v' == v.(store := v.store[id := v.store[id].(events := v.store[id].events + [event])])
  {
    assert Holds(c, t, id, v.store[id], v.columns[id]);
    var n := NextSequence(c, t, v.store[id].events, id);
    PutEventEffect(c, t, v, id, event);
    t' := PutEvent(c, t, id, n, event);
    v' := v.(store := v.store[id := v.store[id].(events := v.store[id].events + [event])]);
  }

  method DeleteEvents(c: TextCodec, t: Db, ghost v: View, id: Id) returns (t': Db, ghost v': View)
    requires Backs(c, t, v) && id in t.sessions
    ensures Backs(c, t', v') && t'.sessions == t.sessions
    ensures v' == v.(store := v.store[id := v.store[id].(events := [])])
  {
    DropEventsEffect(c, t, v, id);
    t' := DropEvents(t, id);
    v' := v.(store := v.store[id := v.store[id].(events := [])]);
  }

  /** `SELECT name, value FROM session_values WHERE session_id = ?` */
  method SelectValues(c: TextCodec, t: Db, ghost v: View, id: Id) returns (payload: map<string, Value>)
    requires Backs(c, t, v) && id in t.sessions
    ensures payload == v.store[id].payload
  {
    var names := set k | k in t.values && k.0 == id :: k.1;
    ghost var expected := v.store[id].payload;
    assert Holds(c, t, id, v.store[id], v.columns[id]);
    forall name ensures name in names <==> name in expected {
      assert (id, name) in t.values <==> name in expected;
      if (id, name) in t.values { assert (id, name).1 in names; }
    }
    payload := map name | name in names :: Decode(c, t.values[(id, name)]).value;
    assert payload == expected;
  }

  lemma EventsAfterNext(log: seq<Value>, n: nat, after: int)
    requires 1 <= n <= |log|
    ensures var cursor := if after > 0 then after else 0;
            EventsAfter(log[..n], after) ==
              EventsAfter(log[..n - 1], after) + (if n > cursor then [(n, log[n - 1])] else [])
  {
    assert log[..n][..n - 1] == log[..n - 1];
  }

  /** `SELECT sequence, value ... AND sequence > ? ORDER BY sequence` */
  method SelectEvents(c: TextCodec, t: Db, ghost v: View, id: Id, after: int) returns (numbered: seq<(nat, Value)>)
    requires Backs(c, t, v) && id in t.sessions
    ensures numbered == EventsAfter(v.store[id].events, after)
  {
    ghost var log := v.store[id].events;
    assert Holds(c, t, id, v.store[id], v.columns[id]);
    var next := NextSequence(c, t, log, id);
    numbered := [];
    for n := 1 to next
      invariant numbered == EventsAfter(log[..n - 1], after)
    {
      var cursor := if after > 0 then after else 0;
      EventsAfterNext(log, n, after);
      assert (id, n) in t.events && Decode(c, t.events[(id, n)]) == Some(log[n - 1]);
      if n > cursor && (id, n) in t.events {
        numbered := numbered + [(n, Decode(c, t.events[(id, n)]).value)];
      }
    }
    assert log[..|log|] == log;
  }

  /** `UPDATE sessions SET status` and `UPDATE session_values ... WHERE name = 'status'` */
  method WriteStatus(c: TextCodec, t: Db, ghost v: View, id: Id, status: string, now: int)
    returns (t': Db, ghost v': View)
    requires c.Valid() && Backs(c, t, v) && id in t.sessions
    ensures Backs(c, t', v') && t'.sessions.Keys == t.sessions.Keys
    ensures v' == SetStatus(v, id, status, now)
  {
    hide Represents;
    CellOf(c, t, v, id, "status");
    var row := t.sessions[id];
    t', v' := UpdateSession(c, t, v, id, Row(row.expiresAt, status, now));
    StatusWritten(v, id, status, now);
    if (id, "status") in t.values {
      assert Clean(Str(status));
      t', v' := UpsertValues(c, t', v', id, map["status" := Str(status)]);
    }
  }

  lemma CellOf(c: TextCodec, t: Db, v: View, id: Id, name: string)
    requires Backs(c, t, v) && id in t.sessions
    ensures (id, name) in t.values <==> name in v.store[id].payload
    ensures t.sessions[id] == Row(v.store[id].expiresAt, v.columns[id].status, v.columns[id].updatedAt)
  {
    assert Holds(c, t, id, v.store[id], v.columns[id]);
  }

  lemma StatusWritten(v: View, id: Id, status: string, now: int)
    requires v.Valid() && id in v.store
    ensures var session := v.store[id];
            var touched := v.store[id := session.(expiresAt := session.expiresAt)];
            var written := session.(payload := session.payload + map["status" := Str(status)]);
            SetStatus(v, id, status, now) ==
              View(if "status" in session.payload then touched[id := written] else touched,
                   v.columns[id := Column(status, now)])
  {
    var session := v.store[id];
    assert session.(expiresAt := session.expiresAt) == session;
    assert "status" in session.payload ==>
             session.payload + map["status" := Str(status)] == session.payload["status" := Str(status)];
  }

  // ---- writes that land on the same session ----

  lemma TwoWrites(s: Store, id: Id, payload: map<string, Value>, deadline: int)
    requires id in s
    ensures var once := s[id := s[id].(payload := payload)];
            once[id := once[id].(expiresAt := deadline)] == s[id := Session(payload, deadline, s[id].events)]
  {
  }

  lemma ResetWrites(s: Store, id: Id, stale: set<string>, started: Value, deadline: int)
    requires id in s
    requires stale == set name | name in s[id].payload && IsStaleKey(name)
    requires started == Event("run_started", Dict([]))
    ensures var s1 := s[id := s[id].(payload := s[id].payload - stale)];
            var s2 := s1[id := s1[id].(payload := s1[id].payload + map["status" := Str("created")])];
            var s3 := s2[id := s2[id].(events := [])];
            var s4 := s3[id := s3[id].(events := s3[id].events + [started])];
            s4[id := s4[id].(expiresAt := deadline)] == s[id := AfterReset(s[id], deadline)]
  {
    ResetPayload(s[id].payload, stale);
    assert [] + [started] == [started];
  }

  lemma UpdateCommits(v: View, ttl: int, now: int, row: Row, id: Id, values: map<string, Value>, v': View)
    requires v.Valid() && id in v.Purged(now).store
    requires row == Row(now + ttl, StatusAfter(v.Purged(now).columns[id].status, values), now)
    requires var p := v.Purged(now);
             v' == View(p.store[id := Session(p.store[id].payload + values, row.expiresAt, p.store[id].events)],
                        p.columns[id := Column(row.status, row.updatedAt)])
    ensures (v', Done) == SqlUpdate(v, ttl, now, id, values)
  {
  }

  lemma RemovalCommits(v: View, ttl: int, now: int, row: Row, id: Id, keys: seq<string>, names: set<string>, v': View)
    requires v.Valid() && id in v.Purged(now).store
    requires names == KeySet(keys)
    requires row == Row(now + ttl, v.Purged(now).columns[id].status, now)
    requires var p := v.Purged(now);
             v' == View(p.store[id := Session(p.store[id].payload - names, row.expiresAt, p.store[id].events)],
                        p.columns[id := Column(row.status, row.updatedAt)])
    ensures (v', Done) == SqlRemoveKeys(v, ttl, now, id, keys)
  {
  }

  lemma ResetCommits(v: View, ttl: int, now: int, row: Row, id: Id, retryable: set<string>, v': View)
    requires v.Valid() && id in v.Purged(now).store
    requires row == Row(now + ttl, "created", now)
    requires var p := v.Purged(now);
             v' == if IsRetryable(p.store[id].payload, retryable)
                   then View(p.store[id := AfterReset(p.store[id], row.expiresAt)],
                             p.columns[id := Column(row.status, row.updatedAt)])
                   else p
    ensures (v', Reset(IsRetryable(v.Purged(now).store[id].payload, retryable))) == SqlReset(v, ttl, now, id, retryable)
  {
  }

  lemma ClaimCommits(v: View, now: int, claimed: Option<Id>, v': View)
    requires v.Valid()
    requires var p := v.Purged(now);
             if claimed.None? then v' == p && forall id :: id in p.store ==> p.columns[id].status != "queued"
             else IsFirstQueued(p, claimed.value) && v' == SetStatus(p, claimed.value, "running", now)
    ensures ClaimStep(v, now, claimed, v')
  {
  }

  lemma LinksRead(s: Store, links: set<(Id, Id)>)
    requires forall id, parent :: (id, parent) in links <==> id in s && ParentOf(s[id]) == Some(parent)
    ensures links == GraphOf(s).links
  {
    forall link ensures link in links <==> link in GraphOf(s).links {
      assert link == (link.0, link.1);
    }
  }

  lemma ResetPayload(payload: map<string, Value>, stale: set<string>)
    requires stale == set name | name in payload && IsStaleKey(name)
    ensures (payload - stale) + map["status" := Str("created")] == WithoutStale(payload)["status" := Str("created")]
  {
  }

  // ---- the writes of each operation, as one step on the view ----

  method CreateRows(c: TextCodec, t: Db, ghost v: View, id: Id, row: Row, payload: map<string, Value>)
    returns (t': Db, ghost v': View)
    requires c.Valid() && Backs(c, t, v) && id !in t.sessions && CleanPayload(payload)
    ensures Backs(c, t', v')
    ensures v' == View(v.store[id := Session(payload, row.expiresAt, [])],
                       v.columns[id := Column(row.status, row.updatedAt)])
  {
    hide Represents;
    t', v' := InsertSession(c, t, v, id, row);
    InsertThenFill(v.store, id, payload, row.expiresAt);
    t', v' := UpsertValues(c, t', v', id, payload);
  }

  lemma InsertThenFill(s: Store, id: Id, payload: map<string, Value>, deadline: int)
    ensures var once := s[id := Session(map[], deadline, [])];
            once[id := once[id].(payload := once[id].payload + payload)] == s[id := Session(payload, deadline, [])]
  {
    assert map[] + payload == payload;
  }

  method UpdateRows(c: TextCodec, t: Db, ghost v: View, id: Id, row: Row, values: map<string, Value>)
    returns (t': Db, ghost v': View)
    requires c.Valid() && Backs(c, t, v) && id in t.sessions && CleanPayload(values)
    ensures Backs(c, t', v')
    ensures v' == View(v.store[id := Session(v.store[id].payload + values, row.expiresAt, v.store[id].events)],
                       v.columns[id := Column(row.status, row.updatedAt)])
  {
    hide Represents;
    TwoWrites(v.store, id, v.store[id].payload + values, row.expiresAt);
    t', v' := UpsertValues(c, t, v, id, values);
    t', v' := UpdateSession(c, t', v', id, row);
  }

  method RemoveRows(c: TextCodec, t: Db, ghost v: View, id: Id, row: Row, names: set<string>)
    returns (t': Db, ghost v': View)
    requires Backs(c, t, v) && id in t.sessions
    ensures Backs(c, t', v')
    ensures v' == View(v.store[id := Session(v.store[id].payload - names, row.expiresAt, v.store[id].events)],
                       v.columns[id := Column(row.status, row.updatedAt)])
  {
    hide Represents;
    TwoWrites(v.store, id, v.store[id].payload - names, row.expiresAt);
    t', v' := DeleteValues(c, t, v, id, names);
    t', v' := UpdateSession(c, t', v', id, row);
  }

  method RemovalRows(c: TextCodec, t: Db, ghost v: View, id: Id, deadline: int, now: int, keys: seq<string>)
    returns (t': Db, ghost v': View, ghost row: Row)
    requires Backs(c, t, v) && id in t.sessions
    ensures Backs(c, t', v') && row == Row(deadline, v.columns[id].status, now)
    ensures v' == View(v.store[id := Session(v.store[id].payload - KeySet(keys), row.expiresAt, v.store[id].events)],
                       v.columns[id := Column(row.status, row.updatedAt)])
  {
    hide Represents;
    CellOf(c, t, v, id, "status");
    row := Row(deadline, t.sessions[id].status, now);
    t', v' := RemoveRows(c, t, v, id, Row(deadline, t.sessions[id].status, now), KeySet(keys));
  }

  method ResetRows(c: TextCodec, t: Db, ghost v: View, id: Id, row: Row, payload: map<string, Value>)
    returns (t': Db, ghost v': View)
    requires c.Valid() && Backs(c, t, v) && id in t.sessions && payload == v.store[id].payload
    ensures Backs(c, t', v')
    ensures v' == View(v.store[id := AfterReset(v.store[id], row.expiresAt)],
                       v.columns[id := Column(row.status, row.updatedAt)])
  {
    hide Represents;
    var stale := set name | name in payload && IsStaleKey(name);
    ResetWrites(v.store, id, stale, Event("run_started", Dict([])), row.expiresAt);
    t', v' := DeleteValues(c, t, v, id, stale);
    assert Clean(Str("created"));
    t', v' := UpsertValues(c, t', v', id, map["status" := Str("created")]);
    t', v' := DeleteEvents(c, t', v', id);
    EventIsClean("run_started", Dict([]));
    t', v' := InsertEvent(c, t', v', id, Event("run_started", Dict([])));
    t', v' := UpdateSession(c, t', v', id, row);
  }

  method WriteClaim(c: TextCodec, t: Db, ghost v: View, claimed: Option<Id>, now: int)
    returns (t': Db, ghost v': View)
    requires c.Valid() && Backs(c, t, v)
    requires claimed.Some? ==> claimed.value in v.store
    ensures Backs(c, t', v')
    ensures v' == if claimed.None? then v else SetStatus(v, claimed.value, "running", now)
  {
    hide Represents;
    t', v' := t, v;
    if claimed.Some? {
      t', v' := WriteStatus(c, t, v, claimed.value, "running", now);
    }
  }

  /** The writes of `requeue_stale`, one row at a time. */
  method RequeueRows(c: TextCodec, t: Db, ghost v: View, rows: set<Id>, now: int)
    returns (t': Db, ghost v': View)
    requires c.Valid() && Backs(c, t, v) && rows <= t.sessions.Keys
    ensures Backs(c, t', v') && v'.store.Keys == v.store.Keys
    ensures forall id :: id in v.store ==> Requeued(v, v', rows, now, id)
  {
    hide Represents;
    t', v' := t, v;
    var pending := rows;
    while pending != {}
      invariant pending <= rows
      invariant Backs(c, t', v') && v'.store.Keys == v.store.Keys
      invariant forall id :: id in v.store ==> Requeued(v, v', rows - pending, now, id)
      decreases pending
    {
      var id: Id :| id in pending;
      ghost var before := v';
      assert Requeued(v, before, rows - pending, now, id);
      t', v' := WriteStatus(c, t', v', id, "queued", now);
      RequeuedNext(v, before, v', rows, pending, now, id);
      pending := pending - {id};
    }
    assert rows - pending == rows;
  }

  ghost predicate Requeued(v: View, v': View, done: set<Id>, now: int, id: Id)
    requires v.Valid() && v'.Valid() && v'.store.Keys == v.store.Keys && id in v.store
  {
    if id in done
    then v'.store[id] == SetStatus(v, id, "queued", now).store[id] && v'.columns[id] == Column("queued", now)
    else v'.store[id] == v.store[id] && v'.columns[id] == v.columns[id]
  }

  lemma RequeuedNext(v: View, v1: View, v2: View, rows: set<Id>, pending: set<Id>, now: int, id: Id)
    requires v.Valid() && v1.Valid() && v2.Valid() && v1.store.Keys == v.store.Keys
    requires id in pending && pending <= rows <= v.store.Keys
    requires v2 == SetStatus(v1, id, "queued", now)
    requires forall x :: x in v.store ==> Requeued(v, v1, rows - pending, now, x)
    ensures v2.store.Keys == v.store.Keys
    ensures forall x :: x in v.store ==> Requeued(v, v2, rows - (pending - {id}), now, x)
  {
    assert Requeued(v, v1, rows - pending, now, id);
    forall x | x in v.store ensures Requeued(v, v2, rows - (pending - {id}), now, x) {
      assert Requeued(v, v1, rows - pending, now, x);
    }
  }

  lemma RequeueCommits(v: View, v': View, rows: set<Id>, now: int, staleAfter: int)
    requires v.Valid() && v'.Valid() && v'.store.Keys == v.store.Keys
    requires rows == set id | id in v.store && IsStale(v, id, now - staleAfter)
    requires forall id :: id in v.store ==> Requeued(v, v', rows, now, id)
    ensures RequeueStep(v, now, staleAfter, v')
  {
    forall id | id in v.store
      ensures var written := SetStatus(v, id, "queued", now);
              if IsStale(v, id, now - staleAfter)
              then v'.store[id] == written.store[id] && v'.columns[id] == written.columns[id]
              else v'.store[id] == v.store[id] && v'.columns[id] == v.columns[id]
    {
      assert Requeued(v, v', rows, now, id);
    }
  }

  class Sqlite {
    const codec: TextCodec
    const ttl: int
    var db: Db
    ghost var view: View

    ghost predicate Valid()
      reads this
    {
      codec.Valid() && Backs(codec, db, view)
    }

    /** A nonpositive ttl raises `ValueError`: no store is built. */
    constructor (codec: TextCodec, ttlSeconds: int)
      requires codec.Valid() && ttlSeconds > 0
      ensures Valid() && view == View(map[], map[])
      ensures this.codec == codec && ttl == ttlSeconds
    {
      this.codec := codec;
      ttl := ttlSeconds;
      db := Db(map[], map[], map[]);
      view := View(map[], map[]);
    }

    lemma StatusColumn(t: Db, v: View, id: Id)
      requires Backs(codec, t, v) && id in t.sessions
      ensures t.sessions[id].status == v.columns[id].status
      ensures t.sessions[id].updatedAt == v.columns[id].updatedAt
      ensures t.sessions[id].expiresAt == v.store[id].expiresAt
    {
      assert Holds(codec, t, id, v.store[id], v.columns[id]);
    }

    method ReadStatus(t: Db, ghost v: View, id: Id) returns (status: string)
      requires Backs(codec, t, v) && id in t.sessions
      ensures status == v.columns[id].status
    {
      StatusColumn(t, v, id);
      status := t.sessions[id].status;
    }

    /** `uuid4` gives an id that no stored session has. */
    method Create(now: int, id: Id, payload: map<string, Value>) returns (a: Answer)
      requires Valid() && id !in view.store
      requires CleanPayload(payload) && StatusIsText(Op.Create(id, payload))
      modifies this
      ensures Valid()
      ensures (view, a) == SqlCreate(old(view), ttl, now, id, payload)
    {
      hide Represents;
      ghost var v;
      var t;
      t, v := Purge(codec, db, view, now);
      t, v := CreateRows(codec, t, v, id, Row(now + ttl, InitialStatus(payload), now), payload);
      db, view := t, v;
      a := Created(id);
    }

    method Get(now: int, id: Id) returns (a: Answer)
      requires Valid()
      modifies this
      ensures Valid()
      ensures (view, a) == SqlGet(old(view), now, id)
    {
      hide Represents;
      ghost var v;
      var t;
      t, v := Purge(codec, db, view, now);
      if id !in t.sessions { return Expired; }
      StatusColumn(t, v, id);
      var payload := SelectValues(codec, t, v, id);
      var rows := SelectEvents(codec, t, v, id, 0);
      var events := seq(|rows|, i requires 0 <= i < |rows| => rows[i].1);
      assert events == v.store[id].events;
      a := Found(Session(payload, t.sessions[id].expiresAt, events));
      db, view := t, v;
    }

    method Update(now: int, id: Id, values: map<string, Value>) returns (a: Answer)
      requires Valid()
      requires CleanPayload(values) && StatusIsText(Op.Update(id, values))
      modifies this
      ensures Valid()
      ensures (view, a) == SqlUpdate(old(view), ttl, now, id, values)
    {
      hide Represents;
      ghost var v;
      var t;
      t, v := Purge(codec, db, view, now);
      if id !in t.sessions { return Expired; }
      var status := ReadStatus(t, v, id);
      var row := Row(now + ttl, StatusAfter(status, values), now);
      t, v := UpdateRows(codec, t, v, id, row, values);
      UpdateCommits(view, ttl, now, row, id, values, v);
      db, view := t, v;
      a := Done;
    }

    method RemoveKeys(now: int, id: Id, keys: seq<string>) returns (a: Answer)
      requires Valid()
      modifies this
      ensures Valid()
      ensures (view, a) == SqlRemoveKeys(old(view), ttl, now, id, keys)
    {
      hide Represents;
      ghost var v;
      var t;
      t, v := Purge(codec, db, view, now);
      if id !in t.sessions { return Expired; }
      ghost var row;
      t, v, row := RemovalRows(codec, t, v, id, now + ttl, now, keys);
      RemovalCommits(view, ttl, now, row, id, keys, KeySet(keys), v);
      db, view := t, v;
      a := Done;
    }

    method Emit(now: int, id: Id, kind: string, data: Value) returns (a: Answer)
      requires Valid() && Clean(data)
      modifies this
      ensures Valid()
      ensures (view, a) == SqlEmit(old(view), now, id, kind, data)
    {
      hide Represents;
      ghost var v;
      var t;
      t, v := Purge(codec, db, view, now);
      if id !in t.sessions { return Expired; }
      EventIsClean(kind, data);
      t, v := InsertEvent(codec, t, v, id, Event(kind, data));
      db, view := t, v;
      a := Done;
    }

    method ReadEvents(now: int, id: Id, after: int) returns (a: Answer)
      requires Valid()
      modifies this
      ensures Valid()
      ensures (view, a) == SqlReadEvents(old(view), now, id, after)
    {
      hide Represents;
      ghost var v;
      var t;
      t, v := Purge(codec, db, view, now);
      if id !in t.sessions { return Expired; }
      var numbered := SelectEvents(codec, t, v, id, after);
      a := Events(numbered);
      db, view := t, v;
    }

    method ResetFailedResearch(now: int, id: Id, retryable: set<string>) returns (a: Answer)
      requires Valid()
      modifies this
      ensures Valid()
      ensures (view, a) == SqlReset(old(view), ttl, now, id, retryable)
      ensures a != Expired ==>
        ResetIsFresh(Live(old(view).store, now), now + ttl, id, retryable, view.store, a)
      ensures a == Reset(true) ==> view.Valid() && id in view.store && view.columns[id] == Column("created", now)
    {
      hide Represents, ResetIsFresh;
      ResetStartsAfresh(Live(view.store, now), now + ttl, id, retryable);
      ghost var v;
      var t;
      t, v := Purge(codec, db, view, now);
      if id !in t.sessions { return Expired; }
      var payload := SelectValues(codec, t, v, id);
      var row := Row(now + ttl, "created", now);
      if IsRetryable(payload, retryable) {
        t, v := ResetRows(codec, t, v, id, row, payload);
      }
      a := Reset(IsRetryable(payload, retryable));
      ResetCommits(view, ttl, now, row, id, retryable, v);
      db, view := t, v;
    }

    method Delete(now: int, id: Id) returns (a: Answer)
      requires Valid()
      modifies this
      ensures Valid()
      ensures (view, a) == SqlDelete(old(view), now, id)
    {
      hide Represents;
      ghost var v;
      var t;
      t, v := Purge(codec, db, view, now);
      var graph := LineageGraph(t, v);
      var lineage := Lineage.FindLineage(graph, id);
      DeleteSessionsEffect(codec, t, v, lineage);
      db := DeleteSessions(t, lineage);
      view := View(v.store - lineage, v.columns - lineage);
      a := Done;
    }

    /** The `parents` and `existing` queries of `delete`. */
    method LineageGraph(t: Db, ghost v: View) returns (graph: Lineage.Graph)
      requires Backs(codec, t, v)
      ensures graph == GraphOf(v.store)
    {
      forall id | id in v.store
        ensures (id, "parent_assessment_id") in t.values <==> "parent_assessment_id" in v.store[id].payload
        ensures (id, "parent_assessment_id") in t.values ==>
                  Decode(codec, t.values[(id, "parent_assessment_id")])
                    == Some(v.store[id].payload["parent_assessment_id"])
      {
        assert Holds(codec, t, id, v.store[id], v.columns[id]);
      }
      var links := set id | id in t.sessions && (id, "parent_assessment_id") in t.values
                            && Decode(codec, t.values[(id, "parent_assessment_id")]).value.Str? ::
                      (id, Decode(codec, t.values[(id, "parent_assessment_id")]).value.s);
      hide Represents;
      LinksRead(v.store, links);
      graph := Lineage.Graph(t.sessions.Keys, links);
    }

    method Count(now: int) returns (a: Answer)
      requires Valid()
      modifies this
      ensures Valid()
      ensures (view, a) == SqlCount(old(view), now)
    {
      hide Represents;
      ghost var v;
      var t;
      t, v := Purge(codec, db, view, now);
      assert |v.store| == |v.store.Keys| && |t.sessions| == |t.sessions.Keys|;
      a := Total(|t.sessions|);
      db, view := t, v;
    }

    method Perform(now: int, op: Op) returns (a: Answer)
      requires Valid() && CleanOp(op) && StatusIsText(op)
      requires op.Create? ==> op.id !in view.store
      modifies this
      ensures Valid()
      ensures (view, a) == SqlStep(old(view), ttl, now, op)
    {
      match op
      case Create(id, payload) => a := Create(now, id, payload);
      case Get(id) => a := Get(now, id);
      case Update(id, values) => a := Update(now, id, values);
      case RemoveKeys(id, keys) => a := RemoveKeys(now, id, keys);
      case Emit(id, kind, data) => a := Emit(now, id, kind, data);
      case ReadEvents(id, after) => a := ReadEvents(now, id, after);
      case ResetFailedResearch(id, retryable) => a := ResetFailedResearch(now, id, retryable);
      case Delete(id) => a := Delete(now, id);
      case Count => a := Count(now);
    }

    method ClaimNext(now: int) returns (claimed: Option<Id>)
      requires Valid()
      modifies this
      ensures Valid()
      ensures ClaimStep(old(view), now, claimed, view)
    {
      hide Represents;
      ghost var v;
      var t;
      t, v := Purge(codec, db, view, now);
      claimed := FirstQueued(t, v);
      t, v := WriteClaim(codec, t, v, claimed, now);
      ClaimCommits(view, now, claimed, v);
      db, view := t, v;
    }

    /** `WHERE status = 'queued' ORDER BY updated_at, session_id LIMIT 1` */
    method FirstQueued(t: Db, ghost v: View) returns (found: Option<Id>)
      requires Backs(codec, t, v)
      ensures found.None? ==> forall id :: id in v.store ==> v.columns[id].status != "queued"
      ensures found.Some? ==> IsFirstQueued(v, found.value)
    {
      forall id | id in v.store
        ensures t.sessions[id].status == v.columns[id].status
        ensures t.sessions[id].updatedAt == v.columns[id].updatedAt
      {
        StatusColumn(t, v, id);
      }
      found := FirstRow(t.sessions, v);
    }

    method FirstRow(rows: map<Id, Row>, ghost v: View) returns (found: Option<Id>)
      requires v.Valid() && rows.Keys == v.store.Keys
      requires forall id :: id in v.store ==>
                 rows[id].status == v.columns[id].status && rows[id].updatedAt == v.columns[id].updatedAt
      ensures found.None? ==> forall id :: id in v.store ==> v.columns[id].status != "queued"
      ensures found.Some? ==> IsFirstQueued(v, found.value)
    {
      var queued := set id | id in rows && rows[id].status == "queued";
      assert forall id :: id in v.store && v.columns[id].status == "queued" ==> id in queued;
      if queued == {} {
        return None;
      }
      var first: Id :| first in queued;
      var pending := queued - {first};
      while pending != {}
        invariant pending <= queued && first in queued && first !in pending
        invariant forall other :: other in queued && other !in pending && other != first ==>
                    Earlier(v, first, other)
        decreases pending
      {
        var other: Id :| other in pending;
        pending := pending - {other};
        var a, b := rows[first], rows[other];
        TextLessTotal(first, other);
        if b.updatedAt < a.updatedAt || (b.updatedAt == a.updatedAt && TextLess(other, first)) {
          forall third | third in queued && third !in pending && third != other
            ensures Earlier(v, other, third)
          {
            if third != first { EarlierTransitive(v, other, first, third); }
          }
          first := other;
        }
      }
      found := Some(first);
    }

    method RequeueStale(now: int, staleAfter: int) returns (count: nat)
      requires Valid()
      modifies this
      ensures Valid()
      ensures RequeueStep(old(view), now, staleAfter, view)
      ensures count == |set id | id in old(view).store && IsStale(old(view), id, now - staleAfter)|
    {
      hide Represents;
      var rows := StaleRows(now - staleAfter);
      var t;
      ghost var v;
      t, v := RequeueRows(codec, db, view, rows, now);
      RequeueCommits(view, v, rows, now, staleAfter);
      db, view := t, v;
      count := |rows|;
    }

    method StaleRows(cutoff: int) returns (rows: set<Id>)
      requires Valid()
      ensures rows == set id | id in view.store && IsStale(view, id, cutoff)
      ensures rows <= db.sessions.Keys
    {
      rows := set id | id in db.sessions && db.sessions[id].status == "running"
                       && db.sessions[id].updatedAt <= cutoff;
      forall id | id in view.store ensures id in rows <==> IsStale(view, id, cutoff) {
        StatusColumn(db, view, id);
      }
    }
  }
}

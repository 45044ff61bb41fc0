/**
 The persistent store's three tables, the SQL statements it issues on them, and when the
 tables stand for a given view. Deleting a session row cascades to its values and events.
 */
module Tables {
  import opened Basics
  import opened Values
  import opened Sessions

  datatype Row = Row(expiresAt: int, status: string, updatedAt: int)

  datatype Db = Db(
    sessions: map<Id, Row>,
    values: map<(Id, string), Json>,
    events: map<(Id, nat), Json>)

  // ---- statements ----

  function DeleteSessions(db: Db, gone: set<Id>): Db {
    Db(db.sessions - gone,
       db.values - (set k | k in db.values && k.0 in gone),
       db.events - (set k | k in db.events && k.0 in gone))
  }

  function Cells(id: Id, names: set<string>): set<(Id, string)> {
    set name | name in names :: (id, name)
  }

  function PutValues(c: TextCodec, db: Db, id: Id, values: map<string, Value>): Db {
    db.(values := db.values + map k | k in Cells(id, values.Keys) :: Encode(c, values[k.1]))
  }

  function DropValues(db: Db, id: Id, names: set<string>): Db {
    db.(values := db.values - Cells(id, names))
  }

  function PutRow(db: Db, id: Id, row: Row): Db {
    db.(sessions := db.sessions[id := row])
  }

  function PutEvent(c: TextCodec, db: Db, id: Id, n: nat, event: Value): Db {
    db.(events := db.events[(id, n) := Encode(c, event)])
  }

  function DropEvents(db: Db, id: Id): Db {
    db.(events := db.events - (set k | k in db.events && k.0 == id))
  }

  // ---- what the tables stand for ----

  ghost predicate HoldsPayload(c: TextCodec, db: Db, id: Id, payload: map<string, Value>) {
    && (forall name :: (id, name) in db.values <==> name in payload)
    && (forall name :: name in payload ==> Decode(c, db.values[(id, name)]) == Some(payload[name]))
  }

  /** The sequence numbers of a session are contiguous from 1. */
  ghost predicate HoldsLog(c: TextCodec, db: Db, id: Id, log: seq<Value>) {
    && (forall k: nat :: (id, k) in db.events <==> 1 <= k <= |log|)
    && (forall k: nat :: 1 <= k <= |log| ==> Decode(c, db.events[(id, k)]) == Some(log[k - 1]))
  }

  ghost predicate Holds(c: TextCodec, db: Db, id: Id, session: Session, column: Column) {
    && id in db.sessions
    && db.sessions[id] == Row(session.expiresAt, column.status, column.updatedAt)
    && HoldsPayload(c, db, id, session.payload)
    && HoldsLog(c, db, id, session.events)
  }

  /** Every value and event belongs to a stored session. */
  ghost predicate ForeignKeys(db: Db) {
    && (forall k :: k in db.values ==> k.0 in db.sessions)
    && (forall k :: k in db.events ==> k.0 in db.sessions)
  }

  ghost predicate Represents(c: TextCodec, db: Db, v: View) {
    && ForeignKeys(db)
    && v.Valid() && v.store.Keys == db.sessions.Keys
    && forall id :: id in v.store ==> Holds(c, db, id, v.store[id], v.columns[id])
  }

  lemma PayloadUnique(c: TextCodec, db: Db, id: Id, p: map<string, Value>, q: map<string, Value>)
    requires HoldsPayload(c, db, id, p) && HoldsPayload(c, db, id, q)
    ensures p == q
  {
    forall name ensures name in p <==> name in q {
      assert (id, name) in db.values <==> name in p;
    }
    forall name | name in p ensures p[name] == q[name] {
      assert Decode(c, db.values[(id, name)]) == Some(p[name]);
    }
  }

  lemma LogUnique(c: TextCodec, db: Db, id: Id, a: seq<Value>, b: seq<Value>)
    requires HoldsLog(c, db, id, a) && HoldsLog(c, db, id, b)
    ensures a == b
  {
    assert (id, |a|) in db.events <==> 1 <= |a|;
    assert (id, |b|) in db.events <==> 1 <= |b|;
    forall i | 0 <= i < |a| ensures a[i] == b[i] {
      assert Decode(c, db.events[(id, i + 1)]) == Some(a[i + 1 - 1]);
      assert Decode(c, db.events[(id, i + 1)]) == Some(b[i + 1 - 1]);
    }
  }

  /** The tables stand for at most one view. */
  lemma ViewUnique(c: TextCodec, db: Db, v: View, w: View)
    requires Represents(c, db, v) && Represents(c, db, w)
    ensures v == w
  {
    forall id | id in v.store ensures v.store[id] == w.store[id] && v.columns[id] == w.columns[id] {
      assert Holds(c, db, id, v.store[id], v.columns[id]);
      assert Holds(c, db, id, w.store[id], w.columns[id]);
      PayloadUnique(c, db, id, v.store[id].payload, w.store[id].payload);
      LogUnique(c, db, id, v.store[id].events, w.store[id].events);
    }
  }

  /** `db'` differs from `db` in the rows of session `id` at most. */
  ghost predicate AgreeOff(db: Db, db': Db, id: Id) {
    && db'.sessions.Keys == db.sessions.Keys + {id}
    && (forall other :: other in db.sessions && other != id ==> db'.sessions[other] == db.sessions[other])
    && (forall k: (Id, string) :: k.0 != id ==>
          (k in db.values <==> k in db'.values) && (k in db.values ==> db.values[k] == db'.values[k]))
    && (forall k: (Id, nat) :: k.0 != id ==>
          (k in db.events <==> k in db'.events) && (k in db.events ==> db.events[k] == db'.events[k]))
  }

  lemma HoldsFrame(c: TextCodec, db: Db, db': Db, id: Id, other: Id, session: Session, column: Column)
    requires AgreeOff(db, db', id) && other != id
    requires Holds(c, db, other, session, column)
    ensures Holds(c, db', other, session, column)
  {
    forall name ensures (other, name) in db'.values <==> (other, name) in db.values {
      assert (other, name).0 != id;
    }
    forall k: nat ensures (other, k) in db'.events <==> (other, k) in db.events {
      assert (other, k).0 != id;
    }
    forall name | name in session.payload
      ensures Decode(c, db'.values[(other, name)]) == Some(session.payload[name])
    {
      assert (other, name).0 != id;
    }
    forall k: nat | 1 <= k <= |session.events|
      ensures Decode(c, db'.events[(other, k)]) == Some(session.events[k - 1])
    {
      assert (other, k).0 != id;
    }
  }

  lemma OthersHold(c: TextCodec, db: Db, db': Db, v: View, id: Id)
    requires Represents(c, db, v) && AgreeOff(db, db', id)
    ensures forall other :: other in v.store && other != id ==> Holds(c, db', other, v.store[other], v.columns[other])
  {
    forall other | other in v.store && other != id
      ensures Holds(c, db', other, v.store[other], v.columns[other])
    {
      HoldsFrame(c, db, db', id, other, v.store[other], v.columns[other]);
    }
  }

  lemma Assembled(c: TextCodec, db: Db, v: View)
    requires ForeignKeys(db) && v.Valid() && v.store.Keys == db.sessions.Keys
    requires forall id :: id in v.store ==> Holds(c, db, id, v.store[id], v.columns[id])
    ensures Represents(c, db, v)
  {
  }

  /** A change confined to one session replaces just that session. */
  lemma OneSessionChanged(c: TextCodec, db: Db, db': Db, v: View, id: Id, session: Session, column: Column)
    requires Represents(c, db, v) && AgreeOff(db, db', id)
    requires Holds(c, db', id, session, column)
    ensures Represents(c, db', View(v.store[id := session], v.columns[id := column]))
  {
    OthersHold(c, db, db', v, id);
    ForeignKeysKept(db, db', id);
    var v' := View(v.store[id := session], v.columns[id := column]);
    forall other | other in v'.store ensures Holds(c, db', other, v'.store[other], v'.columns[other]) {
      if other == id { assert v'.store[other] == session; }
    }
    Assembled(c, db', v');
  }

  lemma ForeignKeysKept(db: Db, db': Db, id: Id)
    requires ForeignKeys(db) && AgreeOff(db, db', id)
    ensures ForeignKeys(db')
  {
  }

  // ---- what each statement does ----

  lemma SurvivorHolds(c: TextCodec, db: Db, gone: set<Id>, id: Id, session: Session, column: Column)
    requires Holds(c, db, id, session, column) && id !in gone
    ensures Holds(c, DeleteSessions(db, gone), id, session, column)
  {
    var db' := DeleteSessions(db, gone);
    forall name ensures (id, name) in db'.values <==> (id, name) in db.values {
      assert (id, name).0 !in gone;
    }
    forall k: nat ensures (id, k) in db'.events <==> (id, k) in db.events {
      assert (id, k).0 !in gone;
    }
  }

  lemma CascadeKeepsKeys(db: Db, gone: set<Id>)
    requires ForeignKeys(db)
    ensures ForeignKeys(DeleteSessions(db, gone))
  {
  }

  lemma DeleteSessionsEffect(c: TextCodec, db: Db, v: View, gone: set<Id>)
    requires Represents(c, db, v)
    ensures Represents(c, DeleteSessions(db, gone), View(v.store - gone, v.columns - gone))
  {
    var db' := DeleteSessions(db, gone);
    forall id | id in db'.sessions ensures Holds(c, db', id, v.store[id], v.columns[id]) {
      assert Holds(c, db, id, v.store[id], v.columns[id]);
      SurvivorHolds(c, db, gone, id, v.store[id], v.columns[id]);
    }
    CascadeKeepsKeys(db, gone);
    Assembled(c, db', View(v.store - gone, v.columns - gone));
  }

  lemma PutRowEffect(c: TextCodec, db: Db, v: View, id: Id, row: Row)
    requires Represents(c, db, v) && id in v.store
    ensures Represents(c, PutRow(db, id, row),
              View(v.store[id := v.store[id].(expiresAt := row.expiresAt)],
                   v.columns[id := Column(row.status, row.updatedAt)]))
  {
    assert Holds(c, db, id, v.store[id], v.columns[id]);
    OneSessionChanged(c, db, PutRow(db, id, row), v, id, v.store[id].(expiresAt := row.expiresAt),
                      Column(row.status, row.updatedAt));
  }

  lemma AddRowEffect(c: TextCodec, db: Db, v: View, id: Id, row: Row)
    requires Represents(c, db, v) && id !in v.store
    ensures Represents(c, PutRow(db, id, row),
              View(v.store[id := Session(map[], row.expiresAt, [])],
                   v.columns[id := Column(row.status, row.updatedAt)]))
  {
    OneSessionChanged(c, db, PutRow(db, id, row), v, id, Session(map[], row.expiresAt, []),
                      Column(row.status, row.updatedAt));
  }

  lemma PutValuesCell(c: TextCodec, db: Db, id: Id, values: map<string, Value>, name: string)
    ensures var put := PutValues(c, db, id, values).values;
            && ((id, name) in put <==> name in values || (id, name) in db.values)
            && (name in values ==> put[(id, name)] == Encode(c, values[name]))
            && (name !in values && (id, name) in db.values ==> put[(id, name)] == db.values[(id, name)])
  {
    assert (id, name) in Cells(id, values.Keys) <==> name in values;
  }

  lemma PutValuesEffect(c: TextCodec, db: Db, v: View, id: Id, values: map<string, Value>)
    requires c.Valid() && Represents(c, db, v) && id in v.store
    requires forall name :: name in values ==> Clean(values[name])
    ensures Represents(c, PutValues(c, db, id, values),
              v.(store := v.store[id := v.store[id].(payload := v.store[id].payload + values)]))
  {
    var db' := PutValues(c, db, id, values);
    var before := v.store[id].payload;
    assert Holds(c, db, id, v.store[id], v.columns[id]);
    forall name
      ensures (id, name) in db'.values <==> name in before + values
      ensures name in before + values ==> Decode(c, db'.values[(id, name)]) == Some((before + values)[name])
    {
      PutValuesCell(c, db, id, values, name);
      if name in values { RoundTrip(c, values[name]); }
    }
    assert HoldsPayload(c, db', id, before + values);
    OneSessionChanged(c, db, db', v, id, v.store[id].(payload := before + values), v.columns[id]);
    assert v.columns[id := v.columns[id]] == v.columns;
  }

  lemma DropValuesEffect(c: TextCodec, db: Db, v: View, id: Id, names: set<string>)
    requires Represents(c, db, v) && id in v.store
    ensures Represents(c, DropValues(db, id, names),
              v.(store := v.store[id := v.store[id].(payload := v.store[id].payload - names)]))
  {
    var db' := DropValues(db, id, names);
    var before := v.store[id].payload;
    assert Holds(c, db, id, v.store[id], v.columns[id]);
    forall name
      ensures (id, name) in db'.values <==> name in before - names
    {
      assert (id, name) in Cells(id, names) <==> name in names;
    }
    assert HoldsPayload(c, db', id, before - names);
    OneSessionChanged(c, db, db', v, id, v.store[id].(payload := before - names), v.columns[id]);
    assert v.columns[id := v.columns[id]] == v.columns;
  }

  lemma LogExtended(c: TextCodec, db: Db, id: Id, log: seq<Value>, event: Value)
    requires c.Valid() && HoldsLog(c, db, id, log) && Clean(event)
    ensures HoldsLog(c, PutEvent(c, db, id, |log| + 1, event), id, log + [event])
  {
    RoundTrip(c, event);
  }

  lemma EventAgrees(c: TextCodec, db: Db, id: Id, n: nat, event: Value)
    requires id in db.sessions
    ensures AgreeOff(db, PutEvent(c, db, id, n, event), id)
    ensures PutEvent(c, db, id, n, event).sessions == db.sessions
    ensures PutEvent(c, db, id, n, event).values == db.values
  {
  }

  lemma LogReplaced(c: TextCodec, db: Db, db': Db, v: View, id: Id, log: seq<Value>)
    requires Represents(c, db, v) && id in v.store
    requires AgreeOff(db, db', id) && db'.sessions == db.sessions && db'.values == db.values
    requires HoldsLog(c, db', id, log)
    ensures Represents(c, db', v.(store := v.store[id := v.store[id].(events := log)]))
  {
    var session := v.store[id].(events := log);
    assert Holds(c, db, id, v.store[id], v.columns[id]);
    assert HoldsPayload(c, db', id, session.payload);
    OneSessionChanged(c, db, db', v, id, session, v.columns[id]);
    assert v.columns[id := v.columns[id]] == v.columns;
  }

  lemma PutEventEffect(c: TextCodec, db: Db, v: View, id: Id, event: Value)
    requires c.Valid() && Represents(c, db, v) && id in v.store && Clean(event)
    ensures Represents(c, PutEvent(c, db, id, |v.store[id].events| + 1, event),
              v.(store := v.store[id := v.store[id].(events := v.store[id].events + [event])]))
  {
    var log := v.store[id].events;
    assert Holds(c, db, id, v.store[id], v.columns[id]);
    LogExtended(c, db, id, log, event);
    EventAgrees(c, db, id, |log| + 1, event);
    LogReplaced(c, db, PutEvent(c, db, id, |log| + 1, event), v, id, log + [event]);
  }

  lemma DropEventsEffect(c: TextCodec, db: Db, v: View, id: Id)
    requires Represents(c, db, v) && id in v.store
    ensures Represents(c, DropEvents(db, id),
              v.(store := v.store[id := v.store[id].(events := [])]))
  {
    var db' := DropEvents(db, id);
    assert HoldsLog(c, db', id, []);
    LogReplaced(c, db, db', v, id, []);
  }
}

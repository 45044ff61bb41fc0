/** The process-local session store: one dictionary, changed in place. */
module VolatileStore {
  import opened Basics
  import opened Values
  import opened Sessions
  import Lineage

  class Volatile {
    const ttl: int
    var items: Store

    /** A nonpositive ttl raises `ValueError`: no store is built. */
    constructor (ttlSeconds: int)
      requires ttlSeconds > 0
      ensures items == map[] && ttl == ttlSeconds
    {
      ttl := ttlSeconds;
      items := map[];
    }

    method PurgeExpired(now: int)
      modifies this
      ensures items == Live(old(items), now)
    {
      var expired := set id | id in items && items[id].expiresAt <= now;
      items := items - expired;
    }

    /** `uuid4` gives an id that no stored session has. */
    method Create(now: int, id: Id, payload: map<string, Value>) returns (a: Answer)
      requires id !in items
      modifies this
      ensures (items, a) == DoCreate(Live(old(items), now), now + ttl, id, payload)
    {
      PurgeExpired(now);
      items := items[id := Session(payload, now + ttl, [])];
      a := Created(id);
    }

    method Get(now: int, id: Id) returns (a: Answer)
      modifies this
      ensures (items, a) == DoGet(Live(old(items), now), id)
    {
      PurgeExpired(now);
      if id !in items { return Expired; }
      a := Found(items[id]);
    }

    method Update(now: int, id: Id, values: map<string, Value>) returns (a: Answer)
      modifies this
      ensures (items, a) == DoUpdate(Live(old(items), now), now + ttl, id, values)
    {
      PurgeExpired(now);
      if id !in items { return Expired; }
      var state := items[id];
      state := state.(payload := state.payload + values);
      items := items[id := state.(expiresAt := now + ttl)];
      a := Done;
    }

    method RemoveKeys(now: int, id: Id, keys: seq<string>) returns (a: Answer)
      modifies this
      ensures (items, a) == DoRemoveKeys(Live(old(items), now), now + ttl, id, keys)
    {
      PurgeExpired(now);
      if id !in items { return Expired; }
      var payload := items[id].payload;
      for i := 0 to |keys|
        invariant payload == items[id].payload - KeySet(keys[..i])
      {
        payload := payload - {keys[i]};
        assert KeySet(keys[..i + 1]) == KeySet(keys[..i]) + {keys[i]};
      }
      assert keys[..|keys|] == keys;
      items := items[id := items[id].(payload := payload, expiresAt := now + ttl)];
      a := Done;
    }

    method Emit(now: int, id: Id, kind: string, data: Value) returns (a: Answer)
      modifies this
      ensures (items, a) == DoEmit(Live(old(items), now), id, kind, data)
    {
      PurgeExpired(now);
      if id !in items { return Expired; }
      var state := items[id];
      items := items[id := state.(events := state.events + [Event(kind, data)])];
      a := Done;
    }

    method ReadEvents(now: int, id: Id, after: int) returns (a: Answer)
      modifies this
      ensures (items, a) == DoReadEvents(Live(old(items), now), id, after)
    {
      PurgeExpired(now);
      if id !in items { return Expired; }
      var events := items[id].events;
      var numbered: seq<(nat, Value)> := [];
      for i := 0 to |events|
        invariant numbered == EventsAfter(events[..i], after)
      {
        var cursor := if after > 0 then after else 0;
        if i + 1 > cursor {
          numbered := numbered + [(i + 1, events[i])];
        }
      }
      assert events[..|events|] == events;
      a := Events(numbered);
    }

    method ResetFailedResearch(now: int, id: Id, retryable: set<string>) returns (a: Answer)
      modifies this
      ensures (items, a) == DoReset(Live(old(items), now), now + ttl, id, retryable)
      ensures ResetIsFresh(Live(old(items), now), now + ttl, id, retryable, items, a)
    {
      hide ResetIsFresh;
      PurgeExpired(now);
      ResetStartsAfresh(items, now + ttl, id, retryable);
      if id !in items { return Expired; }
      var state := items[id];
      if !IsRetryable(state.payload, retryable) { return Reset(false); }
      var staleKeys := set name | name in state.payload && IsStaleKey(name);
      var payload := state.payload - staleKeys;
      payload := payload["status" := Str("created")];
      items := items[id := Session(payload, now + ttl, [Event("run_started", Dict([]))])];
      assert payload == WithoutStale(state.payload)["status" := Str("created")];
      a := Reset(true);
    }

    method Delete(now: int, id: Id) returns (a: Answer)
      modifies this
      ensures (items, a) == DoDelete(Live(old(items), now), id)
    {
      PurgeExpired(now);
      var lineage := Lineage.FindLineage(GraphOf(items), id);
      items := items - lineage;
      a := Done;
    }

    method Count(now: int) returns (a: Answer)
      modifies this
      ensures (items, a) == DoCount(Live(old(items), now))
    {
      PurgeExpired(now);
      a := Total(|items|);
    }

    method Perform(now: int, op: Op) returns (a: Answer)
      requires op.Create? ==> op.id !in items
      modifies this
      ensures (items, a) == Step(old(items), ttl, now, op)
    {
      match op
      case Create(id, payload) => a := Create(now, id, payload);
      case Get(id) => a := Get(now, id);
      case Update(id, values) => a := Update(now, id, values);
      case RemoveKeys(id, keys) => a := RemoveKeys(now, id, keys);
      case Emit(id, kind, data) => a := Emit(now, id, kind, data);
      case ReadEvents(id, after) => a := ReadEvents(now, id, after);
      case ResetFailedResearch(id, retryable) => a := ResetFailedResearch(now, id, retryable);
      case Delete(id) => a := Delete(now, id);
      case Count => a := Count(now);
    }
  }
}

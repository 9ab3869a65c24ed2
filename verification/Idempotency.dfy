/** The idempotency records table and the claim service over it.
    A Tier-1 call claims its key with an insert-if-absent before the action
    runs, then completes the claim with a response or releases it. */
module Idempotency {
  import opened Options
  import JsonText

  type Id = nat
  type Time = int
  type Response = JsonText.Json

  datatype Scope = Scope(tenant: nat, principal: nat, key: string)

  /** One request: its key, the tool it names and the hash of its arguments. */
  datatype Call = Call(scope: Scope, tool: string, argumentsHash: string)

  /** A response-less row is a claim that has not been answered yet. */
  datatype Row = Row(call: Call, response: Option<Response>, createdAt: Time, expiresAt: Option<Time>)

  datatype Store = Store(rows: map<Id, Row>, nextId: Id)

  predicate Expired(row: Row, now: Time) {
    row.expiresAt.Some? && row.expiresAt.value < now
  }

  predicate SameCall(row: Row, call: Call) {
    row.call.argumentsHash == call.argumentsHash && row.call.tool == call.tool
  }

  function Deadline(now: Time, ttl: Option<Time>): Option<Time> {
    if ttl.Some? then Some(now + ttl.value) else None
  }

  predicate Held(rows: map<Id, Row>, scope: Scope) {
    exists i :: i in rows && rows[i].call.scope == scope
  }

  /** At most one row per (tenant, principal, key); ids are never reused. */
  ghost predicate WellFormed(s: Store) {
    && (forall i :: i in s.rows ==> i < s.nextId)
    && (forall i, j :: i in s.rows && j in s.rows && s.rows[i].call.scope == s.rows[j].call.scope ==> i == j)
  }

  // ----- the five statements of the repository, as functions on the table -----

  function Inserted(s: Store, call: Call, now: Time, expiresAt: Option<Time>): (Store, Option<Id>) {
    if Held(s.rows, call.scope) then (s, None)
    else (Store(s.rows[s.nextId := Row(call, None, now, expiresAt)], s.nextId + 1), Some(s.nextId))
  }

  ghost function HolderOf(s: Store, scope: Scope): Option<Id> {
    if Held(s.rows, scope) then
      var i :| i in s.rows && s.rows[i].call.scope == scope; Some(i)
    else None
  }

  function Answered(s: Store, id: Id, response: Response, expiresAt: Option<Time>): Store {
    if id in s.rows
    then s.(rows := s.rows[id := s.rows[id].(response := Some(response), expiresAt := expiresAt)])
    else s
  }

  function Deleted(s: Store, id: Id): Store {
    s.(rows := map i | i in s.rows && i != id :: s.rows[i])
  }

  function Reaped(s: Store, cutoff: Time): Store {
    s.(rows := map i | i in s.rows && !Expired(s.rows[i], cutoff) :: s.rows[i])
  }

  datatype Acquired =
    | Claim(recordId: Id)
    | Replay(response: Response, storedAt: Time)
    | KeyReused
    | KeyInFlight

  /** What a holder that is not evicted means for a call that wants its key. */
  function Verdict(row: Row, call: Call): Acquired {
    if !SameCall(row, call) then KeyReused
    else if row.response.None? then KeyInFlight
    else Replay(row.response.value, row.createdAt)
  }

  ghost predicate Lapsed(expiresAt: Option<Time>, now: Time) {
    match expiresAt case None => false case Some(at) => at < now
  }

  /** What a call learns from a live row: another tool or other arguments are a reused key, a
      row without a response is in flight, and a response is replayed with its own time. */
  ghost predicate Meets(row: Row, call: Call, r: Acquired) {
    if row.call.tool != call.tool || row.call.argumentsHash != call.argumentsHash then r == KeyReused
    else match row.response case None => r == KeyInFlight case Some(stored) => r == Replay(stored, row.createdAt)
  }

  class RecordTable {
    var store: Store

    ghost predicate Valid() reads this { WellFormed(store) }

    constructor ()
      ensures Valid() && store.rows == map[]
    {
      store := Store(map[], 0);
    }

    method InsertClaim(call: Call, now: Time, expiresAt: Option<Time>) returns (id: Option<Id>)
      requires Valid()
      modifies this
      ensures Valid() && (store, id) == Inserted(old(store), call, now, expiresAt)
      ensures id.None? <==> exists i :: i in old(store).rows && old(store).rows[i].call.scope == call.scope
      ensures id.None? ==> store == old(store)
      ensures id.Some? ==> id.value !in old(store).rows
                           && store.rows == old(store).rows[id.value := Row(call, None, now, expiresAt)]
    {
      if Held(store.rows, call.scope) {
        return None;
      }
      id := Some(store.nextId);
      store := Store(store.rows[store.nextId := Row(call, None, now, expiresAt)], store.nextId + 1);
    }

    method GetByKey(scope: Scope) returns (id: Option<Id>)
      requires Valid()
      ensures id == HolderOf(store, scope)
      ensures id.Some? ==> id.value in store.rows && store.rows[id.value].call.scope == scope
      ensures id.None? ==> forall i :: i in store.rows ==> store.rows[i].call.scope != scope
    {
      if i :| i in store.rows && store.rows[i].call.scope == scope {
        id := Some(i);
      } else {
        id := None;
      }
    }

    method CompleteClaim(id: Id, response: Response, expiresAt: Option<Time>)
      requires Valid()
      modifies this
      ensures Valid() && store == Answered(old(store), id, response, expiresAt)
      ensures store.rows.Keys == old(store).rows.Keys
      ensures forall i :: i in store.rows ==>
        if i == id then store.rows[i].response == Some(response) && store.rows[i].expiresAt == expiresAt
                        && store.rows[i].call == old(store).rows[i].call
                        && store.rows[i].createdAt == old(store).rows[i].createdAt
        else store.rows[i] == old(store).rows[i]
    {
      if id in store.rows {
        var row := store.rows[id];
        store := store.(rows := store.rows[id := row.(response := Some(response), expiresAt := expiresAt)]);
      }
    }

    method DeleteById(id: Id)
      requires Valid()
      modifies this
      ensures Valid() && store == Deleted(old(store), id)
      ensures store.rows.Keys == old(store).rows.Keys - {id}
      ensures forall i :: i in store.rows ==> store.rows[i] == old(store).rows[i]
    {
      store := store.(rows := map i | i in store.rows && i != id :: store.rows[i]);
    }

    method DeleteExpired(cutoff: Time) returns (count: nat)
      requires Valid()
      modifies this
      ensures Valid() && store == Reaped(old(store), cutoff)
      ensures forall i :: i in store.rows <==>
        i in old(store).rows
        && !(old(store).rows[i].expiresAt.Some? && old(store).rows[i].expiresAt.value < cutoff)
      ensures forall i :: i in store.rows ==> store.rows[i] == old(store).rows[i]
      ensures count == |old(store).rows.Keys| - |store.rows.Keys|
    {
      var gone := set i | i in store.rows && Expired(store.rows[i], cutoff);
      var kept := map i | i in store.rows && !Expired(store.rows[i], cutoff) :: store.rows[i];
      assert store.rows.Keys == kept.Keys + gone;
      count := |gone|;
      store := store.(rows := kept);
    }

    /** Take the key, or learn who has it; at most one eviction and one retry.
        Stated for a call no other caller interrupts; interleaved callers are
        the subject of module IdempotencyProtocol. */
    method Acquire(call: Call, ttl: Option<Time>, start: Time, readAt: Time) returns (r: Acquired)
      requires Valid()
      modifies this
      ensures Valid()
      ensures var holder := HolderOf(old(store), call.scope);
        if holder.Some? && !Lapsed(old(store).rows[holder.value].expiresAt, readAt) then
          store == old(store) && Meets(old(store).rows[holder.value], call, r)
        else
          && r == Claim(old(store).nextId) && old(store).nextId !in old(store).rows
          && store.rows == (if holder.Some? then Deleted(old(store), holder.value) else old(store))
                             .rows[old(store).nextId := Row(call, None, start,
                                                            if ttl.Some? then Some(start + ttl.value) else None)]
    {
      var expiresAt := Deadline(start, ttl);
      var attempt := 1;
      ghost var first := HolderOf(store, call.scope);
      while attempt <= 2
        invariant 1 <= attempt <= 3
        invariant Valid() && first == HolderOf(old(store), call.scope) && store.nextId == old(store).nextId
        invariant attempt == 1 ==> store == old(store)
        invariant attempt == 2 ==>
          && first.Some? && Expired(old(store).rows[first.value], readAt)
          && store == Deleted(old(store), first.value) && !Held(store.rows, call.scope)
        invariant attempt != 3
      {
        var id := InsertClaim(call, start, expiresAt);
        if id.Some? {
          return Claim(id.value);
        }
        var holder := GetByKey(call.scope);
        if holder.None? {
          attempt := attempt + 1;
          continue;
        }
        if attempt == 1 && Expired(store.rows[holder.value], readAt) {
          DeleteById(holder.value);
          attempt := attempt + 1;
          continue;
        }
        return Verdict(store.rows[holder.value], call);
      }
      return KeyInFlight;
    }

    /** Read a key without taking it; an expired record is evicted, not read past. */
    method Lookup(call: Call, now: Time) returns (r: Option<Acquired>)
      requires Valid()
      modifies this
      ensures Valid()
      ensures var holder := HolderOf(old(store), call.scope);
        if holder.Some? && !Lapsed(old(store).rows[holder.value].expiresAt, now) then
          r.Some? && Meets(old(store).rows[holder.value], call, r.value) && store == old(store)
        else
          r == None && !Held(store.rows, call.scope)
          && forall i :: i in old(store).rows && old(store).rows[i].call.scope != call.scope ==>
               i in store.rows && store.rows[i] == old(store).rows[i]
    {
      var holder := GetByKey(call.scope);
      if holder.None? {
        return None;
      }
      if Expired(store.rows[holder.value], now) {
        DeleteById(holder.value);
        return None;
      }
      return Some(Verdict(store.rows[holder.value], call));
    }
  }
}

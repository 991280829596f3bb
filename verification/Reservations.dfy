/**
 Reservations of repository operations: rows that one owner holds under a key
 until they are released or expire. At most one row per key is held.
 */
module Reservations {
  import opened Common
  import opened Text

  type Owner = int

  datatype State = Held | Released | Expired

  datatype Reservation = Reservation(
    key: string, owner: Owner, state: State, createdAt: Time, expiresAt: Time, releasedAt: Option<Time>)

  datatype ReserveResult =
    | Reserved(held: seq<string>)
    | Conflict(key: string, owner: Option<Owner>)
    | StorageError

  /** Keys whose statements fail in the database, by statement. */
  datatype Faults = Faults(insert: set<string>, lookup: set<string>, refresh: set<string>)

  const DAY: Time := 24 * 60 * MINUTE

  predicate HeldFor(r: Reservation, owner: Owner, key: string) { r.state == Held && r.owner == owner && r.key == key }

  ghost predicate OneHeldRow(rows: map<int, Reservation>) {
    forall i, k :: i in rows && k in rows && rows[i].state == Held && rows[k].state == Held && rows[i].key == rows[k].key ==> i == k
  }

  ghost predicate Holds(rows: map<int, Reservation>, owner: Owner, key: string) {
    exists id :: id in rows && HeldFor(rows[id], owner, key)
  }

  predicate Over(r: Reservation, now: Time) { r.state == Held && r.expiresAt <= now }

  function Aged(r: Reservation, now: Time): Reservation {
    if Over(r, now) then r.(state := Expired) else r
  }

  predicate Prunable(r: Reservation, cutoff: Time) {
    r.state != Held && (if r.releasedAt.Some? then r.releasedAt.value else r.expiresAt) < cutoff
  }

  /** Expiry, then removal of what has been over for a day. */
  function Swept(rows: map<int, Reservation>, now: Time): map<int, Reservation> {
    map id | id in rows && !Prunable(Aged(rows[id], now), now - DAY) :: Aged(rows[id], now)
  }

  function Given(rows: map<int, Reservation>, owner: Owner, key: string, now: Time): map<int, Reservation> {
    map id | id in rows ::
      if HeldFor(rows[id], owner, key) then rows[id].(state := Released, releasedAt := Some(now)) else rows[id]
  }

  /** The keys a call asks for: trimmed, blanks left out. */
  function Wanted(keys: seq<string>): seq<string> {
    if keys == [] then []
    else
      var k := TrimSpace(keys[|keys| - 1]);
      Wanted(keys[..|keys| - 1]) + if k == "" then [] else [k]
  }

  /** Rows of other owners are as they were, and new rows belong to the owner. */
  ghost predicate OthersKept(before: map<int, Reservation>, after: map<int, Reservation>, owner: Owner) {
    && (forall id :: id in before && before[id].owner != owner ==> id in after && after[id] == before[id])
    && (forall id :: id in after && id !in before ==> after[id].owner == owner)
    && (forall id :: id in before && before[id].owner == owner && id in after ==> after[id].owner == owner)
  }

  class ReservationStore {
    var rows: map<int, Reservation>
    var nextId: int

    ghost predicate Valid()
      reads this
    {
      OneHeldRow(rows) && forall id :: id in rows ==> id < nextId
    }

    constructor ()
      ensures Valid() && rows == map[]
    {
      rows, nextId := map[], 0;
    }

    method ExpireOperationReservations(now: Time)
      requires Valid()
      modifies this`rows
      ensures Valid() && rows == Swept(old(rows), now)
      ensures forall id :: id in rows <==>
                id in old(rows) && ((old(rows)[id].state == Held && old(rows)[id].expiresAt > now) || EndOf(old(rows)[id]) >= now - 86400 * SECOND)
      ensures forall id :: id in rows ==>
                rows[id] == if old(rows)[id].state == Held && old(rows)[id].expiresAt <= now then old(rows)[id].(state := Expired) else old(rows)[id]
    {
      rows := map id | id in rows :: Aged(rows[id], now);
      rows := map id | id in rows && !Prunable(rows[id], now - DAY) :: rows[id];
    }

    method OperationReservationOwner(key: string) returns (owner: Option<Owner>)
      ensures owner.Some? ==> Holds(rows, owner.value, key)
      ensures owner.None? ==> forall id :: id in rows ==> !(rows[id].state == Held && rows[id].key == key)
    {
      if id :| id in rows && rows[id].state == Held && rows[id].key == key {
        assert HeldFor(rows[id], rows[id].owner, key);
        return Some(rows[id].owner);
      }
      return None;
    }

    /** The insert; the unique index on held keys lets it through or not. */
    method InsertHeld(key: string, owner: Owner, now: Time, ttl: Time) returns (ok: bool)
      requires Valid()
      modifies this
      ensures Valid()
      ensures ok <==> forall id :: id in old(rows) ==> !(old(rows)[id].state == Held && old(rows)[id].key == key)
      ensures !ok ==> rows == old(rows)
      ensures nextId >= old(nextId)
      ensures ok ==> old(nextId) !in old(rows) && rows == old(rows)[old(nextId) := Reservation(key, owner, Held, now, now + ttl, None)]
    {
      var holder := OperationReservationOwner(key);
      if holder.Some? { return false; }
      rows := rows[nextId := Reservation(key, owner, Held, now, now + ttl, None)];
      nextId := nextId + 1;
      return true;
    }

    method RefreshOperationReservation(owner: Owner, key: string, now: Time, ttl: Time)
      requires Valid()
      modifies this`rows
      ensures Valid() && rows.Keys == old(rows).Keys
      ensures forall id :: id in rows ==>
                rows[id] == if HeldFor(old(rows)[id], owner, key) then old(rows)[id].(expiresAt := now + ttl) else old(rows)[id]
    {
      rows := map id | id in rows :: if HeldFor(rows[id], owner, key) then rows[id].(expiresAt := now + ttl) else rows[id];
    }

    method ReleaseOperationReservations(owner: Owner, keys: seq<string>, now: Time)
      requires Valid()
      modifies this`rows
      ensures Valid() && rows.Keys == old(rows).Keys && OthersKept(old(rows), rows, owner)
      ensures forall k :: Holds(rows, owner, k) <==> Holds(old(rows), owner, k) && k !in keys
      ensures forall id :: id in rows ==>
                rows[id] == if old(rows)[id].state == Held && old(rows)[id].owner == owner && old(rows)[id].key in keys
                            then old(rows)[id].(state := Released, releasedAt := Some(now)) else old(rows)[id]
    {
      var i := 0;
      while i < |keys|
        invariant 0 <= i <= |keys| && rows.Keys == old(rows).Keys
        invariant forall id :: id in rows ==>
                    if old(rows)[id].key in keys[..i] && HeldFor(old(rows)[id], owner, old(rows)[id].key)
                    then rows[id] == old(rows)[id].(state := Released, releasedAt := Some(now))
                    else rows[id] == old(rows)[id]
      {
        rows := Given(rows, owner, keys[i], now);
        i := i + 1;
      }
      assert keys[..i] == keys;
      forall k ensures Holds(rows, owner, k) <==> Holds(old(rows), owner, k) && k !in keys {
        if Holds(rows, owner, k) {
          var id :| id in rows && HeldFor(rows[id], owner, k);
          assert HeldFor(old(rows)[id], owner, k);
        }
        if Holds(old(rows), owner, k) && k !in keys {
          var id :| id in old(rows) && HeldFor(old(rows)[id], owner, k);
          assert HeldFor(rows[id], owner, k);
        }
      }
    }

    /** One key: a fresh row, or the owner's own row refreshed, or nothing changed. */
    method ReserveOne(owner: Owner, key: string, now: Time, life: Time, faults: Faults,
                      ghost swept: map<int, Reservation>, ghost held: seq<string>) returns (res: One)
      requires Valid() && Progress(swept, rows, nextId, owner, held, now + life)
      modifies this
      ensures Valid()
      ensures res.Took? ==> Progress(swept, rows, nextId, owner, held + [key], now + life)
      ensures !res.Took? ==> rows == old(rows)
      ensures res.Took? <==> Obtains(swept, owner, held, key, faults)
      ensures res.Busy? && res.owner.Some? ==> res.owner.value != owner && Holds(swept, res.owner.value, key)
      ensures res.Busy? && res.owner.None? ==> key in faults.lookup
    {
      FreeAfter(swept, rows, owner, held, key);
      if key in faults.insert { return Broken; }
      ghost var id := nextId;
      var ok := InsertHeld(key, owner, now, life);
      if ok {
        AfterInsert(swept, old(rows), rows, owner, held, key, now + life, id, now);
        return Took;
      }
      var holder := OperationReservationOwner(key);
      if key in faults.lookup { return Busy(None); }
      if holder != Some(owner) {
        if holder.Some? { HeldByOther(swept, rows, owner, holder.value, key); }
        return Busy(holder);
      }
      if key in faults.refresh { return Broken; }
      RefreshOperationReservation(owner, key, now, life);
      AfterRefresh(swept, old(rows), rows, owner, held, key, now + life);
      return Took;
    }

    /**
     Reserves the keys in order. Either the owner holds all of them until ttl from
     now, or it holds none of those tried before the failure; whatever happens, no
     row of another owner changes.
     */
    method ReserveOperationKeys(owner: Owner, ttl: Time, keys: seq<string>, now: Time, faults: Faults)
      returns (res: ReserveResult, ghost tried: seq<string>)
      requires Valid()
      modifies this
      ensures Valid() && OthersKept(Swept(old(rows), now), rows, owner) && tried <= Wanted(keys)
      ensures res.Reserved? ==> res.held == tried == Wanted(keys)
      ensures res.Reserved? <==> ObtainsAll(Swept(old(rows), now), owner, Wanted(keys), faults)
      ensures res.Reserved? ==> forall k :: Holds(rows, owner, k) <==> k in res.held || Holds(Swept(old(rows), now), owner, k)
      ensures res.Reserved? ==> forall id :: id in rows && rows[id].state == Held && rows[id].owner == owner && rows[id].key in res.held ==>
                rows[id].expiresAt == now + if ttl <= 0 then 5 * MINUTE else ttl
      ensures !res.Reserved? ==> forall k :: Holds(rows, owner, k) <==> Holds(Swept(old(rows), now), owner, k) && k !in tried
      ensures res.Conflict? ==> |tried| < |Wanted(keys)| && res.key == Wanted(keys)[|tried|]
      ensures res.Conflict? && res.owner.Some? ==> res.owner.value != owner && Holds(Swept(old(rows), now), res.owner.value, res.key)
      ensures res.Conflict? && res.owner.None? ==> res.key in faults.lookup
    {
      var life := if ttl <= 0 then 5 * MINUTE else ttl;
      ExpireOperationReservations(now);
      ghost var swept := rows;
      var held: seq<string> := [];
      tried := [];
      var i := 0;
      while i < |keys|
        invariant 0 <= i <= |keys| && Valid() && Progress(swept, rows, nextId, owner, held, now + life)
        invariant held == tried == Wanted(keys[..i])
        invariant ObtainsAll(swept, owner, held, faults)
      {
        WantedNext(keys, i);
        WantedPrefix(keys, i + 1);
        var key := TrimSpace(keys[i]);
        i := i + 1;
        if key == "" { continue; }
        var outcome := ReserveOne(owner, key, now, life, faults, swept, held);
        if !outcome.Took? {
          NotAllObtained(swept, owner, held, key, Wanted(keys), faults);
          ReleaseOperationReservations(owner, held, now);
          return if outcome.Busy? then Conflict(key, outcome.owner) else StorageError, tried;
        }
        OneMoreObtained(swept, owner, held, key, faults);
        held, tried := held + [key], tried + [key];
      }
      assert keys[..i] == keys;
      return Reserved(held), tried;
    }
  }

  datatype One = Took | Busy(owner: Option<Owner>) | Broken

  /** When a reservation came to its end, if it has. */
  function EndOf(r: Reservation): Time { if r.releasedAt.Some? then r.releasedAt.value else r.expiresAt }

  /**
   The owner gets the key: nobody holds it, or the owner does, from before or by one
   of the keys asked for before it, and can look its row up and refresh it.
   */
  ghost predicate Obtains(rows: map<int, Reservation>, owner: Owner, before: seq<string>, key: string, faults: Faults) {
    && key !in faults.insert
    && if key in before || (exists id :: id in rows && rows[id].state == Held && rows[id].owner == owner && rows[id].key == key)
       then key !in faults.lookup && key !in faults.refresh
       else forall id :: id in rows ==> !(rows[id].state == Held && rows[id].key == key)
  }

  /** The owner gets the keys, one after the other. */
  ghost predicate ObtainsAll(rows: map<int, Reservation>, owner: Owner, keys: seq<string>, faults: Faults) {
    forall i :: 0 <= i < |keys| ==> Obtains(rows, owner, keys[..i], keys[i], faults)
  }

  lemma OneMoreObtained(rows: map<int, Reservation>, owner: Owner, held: seq<string>, key: string, faults: Faults)
    requires ObtainsAll(rows, owner, held, faults) && Obtains(rows, owner, held, key, faults)
    ensures ObtainsAll(rows, owner, held + [key], faults)
  {
    var all := held + [key];
    forall i | 0 <= i < |all| ensures Obtains(rows, owner, all[..i], all[i], faults) {
      assert all[..i] == held[..i];
      assert i == |held| ==> held[..i] == held;
    }
  }

  lemma NotAllObtained(rows: map<int, Reservation>, owner: Owner, held: seq<string>, key: string, all: seq<string>, faults: Faults)
    requires held + [key] <= all && !Obtains(rows, owner, held, key, faults)
    ensures !ObtainsAll(rows, owner, all, faults)
  {
    assert all[..|held|] == held && all[|held|] == key;
  }

  /** The keys asked for are the trimmed texts that are not empty. */
  lemma {:induction false} WantedAre(keys: seq<string>)
    ensures forall k :: k in Wanted(keys) <==> k != "" && exists i :: 0 <= i < |keys| && TrimSpace(keys[i]) == k
  {
    if keys != [] {
      var n := |keys| - 1;
      WantedAre(keys[..n]);
      forall k ensures k in Wanted(keys) <==> k != "" && exists i :: 0 <= i < |keys| && TrimSpace(keys[i]) == k {
        if i :| 0 <= i < n && TrimSpace(keys[i]) == k { assert keys[..n][i] == keys[i]; }
      }
    }
  }

  // -------------------------------------------------------------- loop invariant

  /** After some keys: the owner holds them too, until t, and nobody else's rows moved. */
  ghost predicate Progress(swept: map<int, Reservation>, rows: map<int, Reservation>, nextId: int, owner: Owner, held: seq<string>, t: Time) {
    && OthersKept(swept, rows, owner) && HoldsAlso(swept, rows, owner, held) && LiveUntil(rows, owner, held, t)
    && forall id :: id in swept ==> id < nextId
  }

  ghost predicate HoldsAlso(before: map<int, Reservation>, after: map<int, Reservation>, owner: Owner, held: seq<string>) {
    forall k :: Holds(after, owner, k) <==> k in held || Holds(before, owner, k)
  }

  ghost predicate LiveUntil(rows: map<int, Reservation>, owner: Owner, held: seq<string>, t: Time) {
    forall id :: id in rows && rows[id].state == Held && rows[id].owner == owner && rows[id].key in held ==> rows[id].expiresAt == t
  }

  lemma WantedNext(keys: seq<string>, i: nat)
    requires i < |keys|
    ensures Wanted(keys[..i + 1]) == Wanted(keys[..i]) + if TrimSpace(keys[i]) == "" then [] else [TrimSpace(keys[i])]
  {
    assert keys[..i + 1][..i] == keys[..i];
  }

  lemma {:induction false} WantedPrefix(keys: seq<string>, i: nat)
    requires i <= |keys|
    ensures Wanted(keys[..i]) <= Wanted(keys)
    decreases |keys| - i
  {
    if i == |keys| {
      assert keys[..i] == keys;
    } else {
      WantedNext(keys, i);
      WantedPrefix(keys, i + 1);
    }
  }

  lemma HeldByOther(swept: map<int, Reservation>, rows: map<int, Reservation>, owner: Owner, other: Owner, key: string)
    requires OthersKept(swept, rows, owner) && other != owner && Holds(rows, other, key)
    ensures Holds(swept, other, key)
  {
    var id :| id in rows && HeldFor(rows[id], other, key);
    assert id in swept;
  }

  /** A key is free if it was at the start and is not one of those taken since. */
  lemma FreeAfter(swept: map<int, Reservation>, rows: map<int, Reservation>, owner: Owner, held: seq<string>, key: string)
    requires OthersKept(swept, rows, owner) && HoldsAlso(swept, rows, owner, held) && OneHeldRow(rows)
    ensures (forall id :: id in rows ==> !(rows[id].state == Held && rows[id].key == key)) <==>
            key !in held && forall id :: id in swept ==> !(swept[id].state == Held && swept[id].key == key)
    ensures Holds(rows, owner, key) <==>
            key in held || exists id :: id in swept && swept[id].state == Held && swept[id].owner == owner && swept[id].key == key
  {
    if id :| id in rows && rows[id].state == Held && rows[id].key == key {
      assert HeldFor(rows[id], rows[id].owner, key);
      if rows[id].owner == owner { assert Holds(rows, owner, key); } else { assert id in swept; }
    }
    if id :| id in swept && swept[id].state == Held && swept[id].key == key {
      assert HeldFor(swept[id], swept[id].owner, key);
      if swept[id].owner == owner { assert Holds(swept, owner, key); assert Holds(rows, owner, key); } else { assert id in rows; }
    }
    assert Holds(swept, owner, key) <==> exists id :: id in swept && swept[id].state == Held && swept[id].owner == owner && swept[id].key == key by {
      if id :| id in swept && swept[id].state == Held && swept[id].owner == owner && swept[id].key == key { assert HeldFor(swept[id], owner, key); }
    }
  }

  lemma AfterInsert(swept: map<int, Reservation>, before: map<int, Reservation>, after: map<int, Reservation>,
                    owner: Owner, held: seq<string>, key: string, t: Time, id: int, created: Time)
    requires OthersKept(swept, before, owner) && HoldsAlso(swept, before, owner, held) && LiveUntil(before, owner, held, t)
    requires id !in before && id !in swept && after == before[id := Reservation(key, owner, Held, created, t, None)]
    requires forall i :: i in before ==> !(before[i].state == Held && before[i].key == key)
    ensures OthersKept(swept, after, owner) && HoldsAlso(swept, after, owner, held + [key]) && LiveUntil(after, owner, held + [key], t)
  {
    forall k ensures Holds(after, owner, k) <==> Holds(before, owner, k) || k == key {
      if Holds(before, owner, k) { var i :| i in before && HeldFor(before[i], owner, k); assert HeldFor(after[i], owner, k); }
      if k == key { assert HeldFor(after[id], owner, k); }
    }
  }

  lemma AfterRefresh(swept: map<int, Reservation>, before: map<int, Reservation>, after: map<int, Reservation>,
                     owner: Owner, held: seq<string>, key: string, t: Time)
    requires OthersKept(swept, before, owner) && HoldsAlso(swept, before, owner, held) && LiveUntil(before, owner, held, t)
    requires Holds(before, owner, key) && after.Keys == before.Keys
    requires forall id :: id in after ==> after[id] == if HeldFor(before[id], owner, key) then before[id].(expiresAt := t) else before[id]
    ensures OthersKept(swept, after, owner) && HoldsAlso(swept, after, owner, held + [key]) && LiveUntil(after, owner, held + [key], t)
  {
    forall k ensures Holds(after, owner, k) <==> Holds(before, owner, k) {
      if Holds(before, owner, k) { var id :| id in before && HeldFor(before[id], owner, k); assert HeldFor(after[id], owner, k); }
      if Holds(after, owner, k) { var id :| id in after && HeldFor(after[id], owner, k); assert HeldFor(before[id], owner, k); }
    }
  }
}

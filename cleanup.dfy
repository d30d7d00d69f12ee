/**
 * The hourly `cleanupEmptyRooms` job (functions/cleanupEmptyRooms.ts): one
 * pass over every room queues the deletion of those that are empty and
 * have not been touched for an hour, then commits all deletions at once.
 */
module Cleanup {
  import opened Wrappers
  import opened Rooms

  /** One hour in milliseconds. */
  const HOUR_MS: int := 60 * 60 * 1000

  /**
   * The deletion test: no connected users (a missing roster counts as
   * empty) and last updated strictly before an hour ago (a missing
   * `updatedAt` counts as the epoch).
   */
  predicate ShouldDelete(r: Room, now: int) {
    |Roster(r)| == 0 && r.updatedAt.GetOr(0) < now - HOUR_MS
  }

  /** The rooms the pass queues for deletion. */
  function Doomed(rooms: map<string, Room>, now: int): set<string> {
    set k | k in rooms && ShouldDelete(rooms[k], now)
  }

  /** The collection after the committed batch. */
  function Swept(rooms: map<string, Room>, now: int): (r: map<string, Room>)
    ensures forall k :: k in r <==> k in rooms && !ShouldDelete(rooms[k], now)
    ensures forall k :: k in r ==> r[k] == rooms[k]
  {
    map k | k in rooms && !ShouldDelete(rooms[k], now) :: rooms[k]
  }

  /**
   * The scheduled job at time `now`. It returns the number of queued
   * deletions (the count it logs); `None` when reading or committing fails,
   * in which case nothing is deleted.
   */
  method CleanupEmptyRooms(store: RoomStore, now: int, storeOk: bool) returns (deletedCount: Option<nat>)
    modifies store
    ensures !storeOk ==> deletedCount.None? && store.rooms == old(store.rooms)
    ensures storeOk ==> deletedCount == Some(|Doomed(old(store.rooms), now)|)
    ensures storeOk ==> store.rooms == Swept(old(store.rooms), now)
  {
    var rooms := store.rooms;
    var todo := rooms.Keys;
    var batch: set<string> := {};
    var count := 0;
    while todo != {}
      invariant todo <= rooms.Keys
      invariant forall k :: k in batch <==> k in rooms && k !in todo && ShouldDelete(rooms[k], now)
      invariant count == |batch|
      decreases |todo|
    {
      var k :| k in todo;
      if |Roster(rooms[k])| == 0 && rooms[k].updatedAt.GetOr(0) < now - HOUR_MS {
        assert k !in batch;
        batch := batch + {k};
        count := count + 1;
      }
      todo := todo - {k};
    }
    if !storeOk {
      return None;
    }
    assert batch == Doomed(rooms, now);
    store.rooms := map k | k in rooms && k !in batch :: rooms[k];
    return Some(count);
  }

  /** A room with anyone connected is never deleted, however old it is. */
  lemma OccupiedRoomSurvives(rooms: map<string, Room>, now: int, k: string)
    requires k in rooms && |Roster(rooms[k])| > 0
    ensures k in Swept(rooms, now) && Swept(rooms, now)[k] == rooms[k]
    ensures k !in Doomed(rooms, now)
  {
  }

  /** An empty room with neither roster nor timestamp is deleted by any run after the first hour of the epoch. */
  lemma BareRoomIsDeleted(rooms: map<string, Room>, now: int, k: string)
    requires k in rooms && rooms[k].connectedUsers.None? && rooms[k].updatedAt.None?
    requires now > HOUR_MS
    ensures k !in Swept(rooms, now) && k in Doomed(rooms, now)
  {
  }

  /** A room updated exactly an hour ago, or later, is kept. */
  lemma RecentRoomSurvives(rooms: map<string, Room>, now: int, k: string)
    requires k in rooms && rooms[k].updatedAt.Some? && rooms[k].updatedAt.value >= now - HOUR_MS
    ensures k in Swept(rooms, now) && Swept(rooms, now)[k] == rooms[k]
  {
  }

  /** The deleted and the kept rooms split the collection; running the sweep again at the same time deletes nothing more. */
  lemma SweepPartitions(rooms: map<string, Room>, now: int)
    ensures Swept(rooms, now).Keys + Doomed(rooms, now) == rooms.Keys
    ensures Swept(rooms, now).Keys * Doomed(rooms, now) == {}
    ensures Swept(Swept(rooms, now), now) == Swept(rooms, now)
    ensures Doomed(Swept(rooms, now), now) == {}
  {
    var s := Swept(rooms, now);
    assert forall k :: k in Swept(s, now) <==> k in s;
    assert forall k :: k !in Doomed(s, now);
  }
}

/**
 * The `collaborativeRooms` collection: one document per room, holding the
 * shared content and title, the roster of connected users and the map of
 * user cursors. Document writes are modelled as functions from the old
 * document to the new one; the collection is a map from room id.
 */
module Rooms {
  import opened Wrappers
  import Js

  /** An entry of `connectedUsers`; `arrayUnion`/`arrayRemove` compare whole values. */
  datatype User = User(id: string, name: string)

  /** A cursor as `updateCursorPosition` writes it; pixel offsets are carried as opaque numbers. */
  datatype Cursor = Cursor(userId: string, userName: string, cursorPosition: int,
                           relativeX: int, relativeY: int, lastUpdated: int)

  /**
   * A value stored under `userCursors.<uid>`: `null` (written on leave), a
   * cursor object, or anything else (an object lacking `userId` or
   * `cursorPosition`, or a non-object).
   */
  datatype CursorEntry = NullCursor | CursorObject(cursor: Cursor) | Malformed

  /** A room document; `None` is a field the document does not have. */
  datatype Room = Room(
    id: string,
    blogId: Js.Json,
    content: Option<string>,
    title: Option<string>,
    connectedUsers: Option<seq<User>>,
    userCursors: Option<map<string, CursorEntry>>,
    createdAt: Option<int>,
    updatedAt: Option<int>)

  /** `data.connectedUsers || []`. */
  function Roster(r: Room): seq<User> {
    r.connectedUsers.GetOr([])
  }

  /** `arrayUnion(u)`: appends `u` unless an equal value is already there. */
  function ArrayUnion(s: seq<User>, u: User): (r: seq<User>)
    ensures u in r
    ensures forall x :: x in r <==> x in s || x == u
    ensures u in s ==> r == s
    ensures u !in s ==> r == s + [u]
  {
    if u in s then s else s + [u]
  }

  /** `arrayRemove(u)`: drops every value equal to `u`, keeping the order of the rest. */
  function ArrayRemove(s: seq<User>, u: User): (r: seq<User>)
    ensures forall x :: x in r <==> x in s && x != u
    ensures |r| <= |s|
    ensures u !in s ==> r == s
    decreases |s|
  {
    if s == [] then []
    else
      var rest := ArrayRemove(s[1..], u);
      assert s == [s[0]] + s[1..];
      if s[0] == u then rest else [s[0]] + rest
  }

  /** Union then removal of the same user gives back a roster without that user. */
  lemma UnionThenRemove(s: seq<User>, u: User)
    ensures ArrayRemove(ArrayUnion(s, u), u) == ArrayRemove(s, u)
  {
    if u !in s {
      RemoveAppended(s, u);
    }
  }

  lemma {:induction false} RemoveAppended(s: seq<User>, u: User)
    requires u !in s
    ensures ArrayRemove(s + [u], u) == s
    decreases |s|
  {
    if s != [] {
      assert (s + [u])[1..] == s[1..] + [u];
      RemoveAppended(s[1..], u);
    }
  }

  /** The update `addUser` sends: the user joins the roster and the document is touched. */
  function AddUser(r: Room, u: User, now: int): (r': Room)
    ensures Roster(r') == ArrayUnion(Roster(r), u)
    ensures r'.content == r.content && r'.title == r.title && r'.userCursors == r.userCursors
    ensures r'.updatedAt == Some(now)
    ensures r' == r.(connectedUsers := r'.connectedUsers, updatedAt := r'.updatedAt)
  {
    r.(connectedUsers := Some(ArrayUnion(Roster(r), u)), updatedAt := Some(now))
  }

  /** The update of `removeUser` and `leaveRoom`: the user leaves and their cursor becomes `null`. */
  function RemoveUser(r: Room, u: User, now: int): (r': Room)
    ensures Roster(r') == ArrayRemove(Roster(r), u) && u !in Roster(r')
    ensures r'.userCursors.Some? && u.id in r'.userCursors.value
      && r'.userCursors.value[u.id] == NullCursor
    ensures forall k :: (k != u.id && r.userCursors.Some? && k in r.userCursors.value
      ==> k in r'.userCursors.value && r'.userCursors.value[k] == r.userCursors.value[k])
    ensures r'.content == r.content && r'.title == r.title && r'.updatedAt == Some(now)
    ensures r'.userCursors.value.Keys == r.userCursors.GetOr(map[]).Keys + {u.id}
    ensures r' == r.(connectedUsers := r'.connectedUsers, userCursors := r'.userCursors, updatedAt := r'.updatedAt)
  {
    r.(connectedUsers := Some(ArrayRemove(Roster(r), u)),
       userCursors := Some(r.userCursors.GetOr(map[])[u.id := NullCursor]),
       updatedAt := Some(now))
  }

  /** A debounced content write. */
  function WriteContent(r: Room, v: string, now: int): Room {
    r.(content := Some(v), updatedAt := Some(now))
  }

  /** A debounced title write. */
  function WriteTitle(r: Room, v: string, now: int): Room {
    r.(title := Some(v), updatedAt := Some(now))
  }

  /** A debounced cursor write: only `userCursors.<uid>` changes; `updatedAt` is not touched. */
  function WriteCursor(r: Room, c: Cursor): (r': Room)
    ensures r'.updatedAt == r.updatedAt && r'.connectedUsers == r.connectedUsers
    ensures r'.userCursors.Some? && r'.userCursors.value == r.userCursors.GetOr(map[])[c.userId := CursorObject(c)]
    ensures r' == r.(userCursors := r'.userCursors)
  {
    r.(userCursors := Some(r.userCursors.GetOr(map[])[c.userId := CursorObject(c)]))
  }

  /** The cursors a client shows: the entries that are cursor objects. */
  function LiveCursors(m: map<string, CursorEntry>): (r: map<string, Cursor>)
    ensures forall k :: k in r <==> k in m && m[k].CursorObject?
    ensures forall k :: k in r ==> r[k] == m[k].cursor
  {
    map k | k in m && m[k].CursorObject? :: m[k].cursor
  }

  /** The shared collection, updated in place by clients, the room route and the sweep. */
  class RoomStore {
    var rooms: map<string, Room>

    constructor (initial: map<string, Room>)
      ensures rooms == initial
    {
      rooms := initial;
    }
  }
}

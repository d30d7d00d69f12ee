/**
 * One client of a collaborative room (hooks/useCollaborativeRoom.ts) as a
 * sequential state machine with an explicit clock. The client's React state
 * and refs form the value `Client`; the room collection is a map from room
 * id. `setTimeout` becomes a timer slot with a deadline that `Tick` fires
 * once the clock reaches it; a store write lands when the room document
 * exists and the write does not fail (`ok`).
 */
module Collab {
  import opened Wrappers
  import opened Rooms

  /** Delay of the shared content/title write. */
  const UPDATE_DEBOUNCE: int := 150
  /** Delay of the cursor write. */
  const CURSOR_DEBOUNCE: int := 100
  /** A snapshot may replace a field only more than this long after its last local edit. */
  const REMOTE_WINDOW: int := 300

  const ROOM_NOT_FOUND: string := "Room not found"
  const CONNECT_FAILED: string := "Failed to connect to room"

  datatype Field = ContentField | TitleField

  /** The one `updateTimeoutRef` slot, shared by content and title. */
  datatype UpdateTimer = UpdateTimer(deadline: int, field: Field, value: string)

  /** The `cursorTimeoutRef` slot. */
  datatype CursorTimer = CursorTimer(deadline: int, position: int, relativeX: int, relativeY: int)

  /** What a tick wrote, and whether the write landed. */
  datatype Write =
    | NoWrite
    | ContentWrite(value: string, landed: bool)
    | TitleWrite(value: string, landed: bool)
    | CursorWrite(cursor: Cursor, landed: bool)

  /** What `leaveRoom` / the unmount cleanup runs into: nothing, or a failure at one of its three steps. */
  datatype LeaveFault = NoFault | UpdateFails | ReadFails | DeleteFails

  /**
   * The hook's state: local content and title, the pending-write record
   * (`pendingUpdatesRef`), the last local edit times (`lastUserEditTimeRef`),
   * both timer slots, the roster and cursors shown, the connection flags,
   * and whether the snapshot listener is still attached.
   */
  datatype Client = Client(
    roomId: string,
    user: User,
    content: string,
    title: string,
    pendingContent: Option<string>,
    pendingTitle: Option<string>,
    lastContentEdit: int,
    lastTitleEdit: int,
    updateTimer: Option<UpdateTimer>,
    cursorTimer: Option<CursorTimer>,
    connectedUsers: seq<User>,
    userCursors: map<string, Cursor>,
    isConnected: bool,
    error: Option<string>,
    subscribed: bool)

  datatype TickResult = TickResult(client: Client, rooms: map<string, Room>, write: Write)

  datatype LeaveResult = LeaveResult(client: Client, rooms: map<string, Room>)

  /** The hook right after mounting: initial state, listener attached. */
  function Mounted(roomId: string, user: User): (c: Client)
    ensures c.roomId == roomId && c.user == user && c.subscribed
    ensures c.content == "" && c.title == "" && c.pendingContent.None? && c.pendingTitle.None?
    ensures c.updateTimer.None? && c.cursorTimer.None? && !c.isConnected && c.error.None?
    ensures c.connectedUsers == [] && c.userCursors == map[] && c.lastContentEdit == 0 && c.lastTitleEdit == 0
  {
    Client(roomId, user, "", "", None, None, 0, 0, None, None, [], map[], false, None, true)
  }

  /** `addUser`: the update fails on a missing room (or a failing store) and is then ignored. */
  function Join(rooms: map<string, Room>, roomId: string, user: User, now: int, ok: bool): (r: map<string, Room>)
    ensures r.Keys == rooms.Keys
    ensures forall id :: id in rooms && id != roomId ==> r[id] == rooms[id]
    ensures ok && roomId in rooms ==> r[roomId] == AddUser(rooms[roomId], user, now)
    ensures !ok || roomId !in rooms ==> r == rooms
  {
    if ok && roomId in rooms then rooms[roomId := AddUser(rooms[roomId], user, now)] else rooms
  }

  /** `updateContent(v)` at time `now`. */
  function UpdateContent(c: Client, v: string, now: int): (c': Client)
    ensures c'.content == v && c'.pendingContent == Some(v) && c'.lastContentEdit == now
    ensures c'.updateTimer == Some(UpdateTimer(now + UPDATE_DEBOUNCE, ContentField, v))
    ensures c' == c.(content := v, pendingContent := Some(v), lastContentEdit := now, updateTimer := c'.updateTimer)
  {
    c.(lastContentEdit := now, content := v, pendingContent := Some(v),
       updateTimer := Some(UpdateTimer(now + UPDATE_DEBOUNCE, ContentField, v)))
  }

  /** `updateTitle(v)` at time `now`; it replaces whatever the shared slot held. */
  function UpdateTitle(c: Client, v: string, now: int): (c': Client)
    ensures c'.title == v && c'.pendingTitle == Some(v) && c'.lastTitleEdit == now
    ensures c'.updateTimer == Some(UpdateTimer(now + UPDATE_DEBOUNCE, TitleField, v))
    ensures c' == c.(title := v, pendingTitle := Some(v), lastTitleEdit := now, updateTimer := c'.updateTimer)
  {
    c.(lastTitleEdit := now, title := v, pendingTitle := Some(v),
       updateTimer := Some(UpdateTimer(now + UPDATE_DEBOUNCE, TitleField, v)))
  }

  /** `updateCursorPosition(pos, x, y)` at time `now`: only the cursor slot changes. */
  function UpdateCursorPosition(c: Client, pos: int, x: int, y: int, now: int): (c': Client)
    ensures c' == c.(cursorTimer := Some(CursorTimer(now + CURSOR_DEBOUNCE, pos, x, y)))
  {
    c.(cursorTimer := Some(CursorTimer(now + CURSOR_DEBOUNCE, pos, x, y)))
  }

  predicate UpdateDue(c: Client, now: int) {
    c.updateTimer.Some? && c.updateTimer.value.deadline <= now
  }

  predicate CursorDue(c: Client, now: int) {
    c.cursorTimer.Some? && c.cursorTimer.value.deadline <= now
  }

  /** Of two due timers the earlier deadline fires first; on a tie the update slot goes first. */
  predicate UpdateFiresFirst(c: Client, now: int) {
    UpdateDue(c, now) && (!CursorDue(c, now) || c.updateTimer.value.deadline <= c.cursorTimer.value.deadline)
  }

  /**
   * The content or title write of the update slot. The write lands when it
   * succeeds and the room exists; then that room gets the slot's value in the
   * slot's field and `updatedAt`, and the field's pending mark is cleared.
   * A write that does not land changes no room and leaves the mark.
   */
  function FireUpdate(c: Client, rooms: map<string, Room>, now: int, ok: bool): (r: TickResult)
    requires c.updateTimer.Some?
    ensures r.client.updateTimer.None? && r.client.cursorTimer == c.cursorTimer
    ensures r.rooms.Keys == rooms.Keys
    ensures var t := c.updateTimer.value; var landed := ok && c.roomId in rooms;
      r.write == (if t.field == ContentField then ContentWrite(t.value, landed) else TitleWrite(t.value, landed))
    ensures !(ok && c.roomId in rooms) ==> r.rooms == rooms && r.client == c.(updateTimer := None)
    ensures ok && c.roomId in rooms ==> forall id :: id in rooms && id != c.roomId ==> r.rooms[id] == rooms[id]
    ensures ok && c.roomId in rooms && c.updateTimer.value.field == ContentField ==>
      && r.rooms[c.roomId] == rooms[c.roomId].(content := Some(c.updateTimer.value.value), updatedAt := Some(now))
      && r.client == c.(updateTimer := None, pendingContent := None)
    ensures ok && c.roomId in rooms && c.updateTimer.value.field == TitleField ==>
      && r.rooms[c.roomId] == rooms[c.roomId].(title := Some(c.updateTimer.value.value), updatedAt := Some(now))
      && r.client == c.(updateTimer := None, pendingTitle := None)
  {
    var t := c.updateTimer.value;
    var landed := ok && c.roomId in rooms;
    var c1 := c.(updateTimer := None);
    match t.field
    case ContentField =>
      TickResult(
        if landed then c1.(pendingContent := None) else c1,
        if landed then rooms[c.roomId := WriteContent(rooms[c.roomId], t.value, now)] else rooms,
        ContentWrite(t.value, landed))
    case TitleField =>
      TickResult(
        if landed then c1.(pendingTitle := None) else c1,
        if landed then rooms[c.roomId := WriteTitle(rooms[c.roomId], t.value, now)] else rooms,
        TitleWrite(t.value, landed))
  }

  /**
   * The cursor write: the slot's position and pointer under the client's
   * user, stamped with the firing time. It lands when it succeeds and the
   * room exists; then only that user's cursor entry of that room changes.
   * The slot is emptied either way.
   */
  function FireCursor(c: Client, rooms: map<string, Room>, now: int, ok: bool): (r: TickResult)
    requires c.cursorTimer.Some?
    ensures r.client == c.(cursorTimer := None)
    ensures r.rooms.Keys == rooms.Keys
    ensures var t := c.cursorTimer.value;
      r.write == CursorWrite(Cursor(c.user.id, c.user.name, t.position, t.relativeX, t.relativeY, now), ok && c.roomId in rooms)
    ensures !(ok && c.roomId in rooms) ==> r.rooms == rooms
    ensures ok && c.roomId in rooms ==> forall id :: id in rooms && id != c.roomId ==> r.rooms[id] == rooms[id]
    ensures ok && c.roomId in rooms ==>
      var was := rooms[c.roomId];
      && r.rooms[c.roomId] == was.(userCursors := r.rooms[c.roomId].userCursors)
      && r.rooms[c.roomId].userCursors == Some(was.userCursors.GetOr(map[])[c.user.id := CursorObject(r.write.cursor)])
  {
    var t := c.cursorTimer.value;
    var cursor := Cursor(c.user.id, c.user.name, t.position, t.relativeX, t.relativeY, now);
    var landed := ok && c.roomId in rooms;
    TickResult(
      c.(cursorTimer := None),
      if landed then rooms[c.roomId := WriteCursor(rooms[c.roomId], cursor)] else rooms,
      CursorWrite(cursor, landed))
  }

  /** The clock reaches `now`: at most one due timer fires, and its write gets the outcome `ok`. */
  function Tick(c: Client, rooms: map<string, Room>, now: int, ok: bool): (r: TickResult)
    ensures !UpdateDue(c, now) && !CursorDue(c, now) ==> r == TickResult(c, rooms, NoWrite)
    ensures r.write.ContentWrite? || r.write.TitleWrite? ==> UpdateDue(c, now) && r.client.updateTimer.None?
    ensures r.write.CursorWrite? ==> CursorDue(c, now) && r.client.cursorTimer.None?
    ensures r.rooms.Keys == rooms.Keys
    ensures UpdateFiresFirst(c, now) ==> r == FireUpdate(c, rooms, now, ok)
    ensures !UpdateFiresFirst(c, now) && CursorDue(c, now) ==> r == FireCursor(c, rooms, now, ok)
  {
    if UpdateFiresFirst(c, now) then FireUpdate(c, rooms, now, ok)
    else if CursorDue(c, now) then FireCursor(c, rooms, now, ok)
    else TickResult(c, rooms, NoWrite)
  }

  /** May a snapshot replace the local value of a field with this pending mark and last edit time? */
  predicate RemoteApplies(pending: Option<string>, lastEdit: int, now: int) {
    pending.None? && now - lastEdit > REMOTE_WINDOW
  }

  /**
   * The snapshot listener. A missing document only sets the error. An
   * existing one replaces content and title where `RemoteApplies`, always
   * replaces the roster, rebuilds the cursors when the document has a cursor
   * map, marks the client connected and clears the error. A detached
   * listener receives nothing.
   */
  function OnSnapshot(c: Client, doc: Option<Room>, now: int): (c': Client)
    ensures !c.subscribed ==> c' == c
    ensures c.subscribed && doc.None? ==> c' == c.(error := Some(ROOM_NOT_FOUND))
    ensures c.subscribed && doc.Some? ==>
      && c'.content == (if RemoteApplies(c.pendingContent, c.lastContentEdit, now) then doc.value.content.GetOr("") else c.content)
      && c'.title == (if RemoteApplies(c.pendingTitle, c.lastTitleEdit, now) then doc.value.title.GetOr("") else c.title)
      && c'.connectedUsers == Roster(doc.value)
      && c'.userCursors == (if doc.value.userCursors.Some? then LiveCursors(doc.value.userCursors.value) else c.userCursors)
      && c'.isConnected && c'.error.None?
      && c'.pendingContent == c.pendingContent && c'.pendingTitle == c.pendingTitle
      && c'.updateTimer == c.updateTimer && c'.cursorTimer == c.cursorTimer
    ensures c.subscribed && doc.Some? ==>
      c' == c.(content := c'.content, title := c'.title, connectedUsers := c'.connectedUsers,
               userCursors := c'.userCursors, isConnected := true, error := None)
  {
    if !c.subscribed then c
    else if doc.None? then c.(error := Some(ROOM_NOT_FOUND))
    else
      var d := doc.value;
      c.(content := if RemoteApplies(c.pendingContent, c.lastContentEdit, now) then d.content.GetOr("") else c.content,
         title := if RemoteApplies(c.pendingTitle, c.lastTitleEdit, now) then d.title.GetOr("") else c.title,
         connectedUsers := Roster(d),
         userCursors := if d.userCursors.Some? then LiveCursors(d.userCursors.value) else c.userCursors,
         isConnected := true,
         error := None)
  }

  /** The listener's error callback. */
  function OnSnapshotError(c: Client): (c': Client)
    ensures c.subscribed ==> c' == c.(error := Some(CONNECT_FAILED), isConnected := false)
    ensures !c.subscribed ==> c' == c
  {
    if c.subscribed then c.(error := Some(CONNECT_FAILED), isConnected := false) else c
  }

  /**
   * The store side of `leaveRoom` and of the unmount cleanup: remove the
   * user and null their cursor, re-read the room, delete it if its roster is
   * now empty. A failing step ends the sequence (the error is caught).
   */
  function RemoveFromRoom(rooms: map<string, Room>, roomId: string, user: User, now: int, fault: LeaveFault): (r: map<string, Room>)
    ensures r.Keys <= rooms.Keys
    ensures forall id :: id in r && id != roomId ==> r[id] == rooms[id]
    ensures roomId !in rooms || fault == UpdateFails ==> r == rooms
  {
    if roomId !in rooms || fault == UpdateFails then rooms
    else
      var updated := rooms[roomId := RemoveUser(rooms[roomId], user, now)];
      if fault == ReadFails || fault == DeleteFails || |Roster(updated[roomId])| != 0 then updated
      else updated - {roomId}
  }

  /**
   * `leaveRoom`, and equally the effect cleanup run on unmount: the store
   * side, then the listener is detached. Neither cancels a queued timer.
   */
  function Leave(c: Client, rooms: map<string, Room>, now: int, fault: LeaveFault): (r: LeaveResult)
    ensures r.client == c.(subscribed := false)
    ensures r.rooms == RemoveFromRoom(rooms, c.roomId, c.user, now, fault)
  {
    LeaveResult(c.(subscribed := false), RemoveFromRoom(rooms, c.roomId, c.user, now, fault))
  }

  // ------------------------------------------------------------ properties

  /** Joining twice leaves the same roster as joining once. */
  lemma JoinIsIdempotent(rooms: map<string, Room>, roomId: string, user: User, t1: int, t2: int)
    requires roomId in rooms
    ensures var once := Join(rooms, roomId, user, t1, true);
      var twice := Join(once, roomId, user, t2, true);
      && Roster(twice[roomId]) == Roster(once[roomId])
      && user in Roster(once[roomId])
      && (forall u :: u in Roster(once[roomId]) <==> u in Roster(rooms[roomId]) || u == user)
  {
  }

  /** A field with a pending write is never overwritten by a snapshot, at any time. */
  lemma PendingFieldSurvivesSnapshots(c: Client, doc: Option<Room>, now: int)
    requires c.pendingContent.Some?
    ensures OnSnapshot(c, doc, now).content == c.content
    ensures OnSnapshot(c, doc, now).pendingContent == c.pendingContent
  {
  }

  /**
   * The suppression window is strict: a snapshot exactly 300 ms after the
   * last edit keeps the local value, one a millisecond later applies the
   * remote one.
   */
  lemma SuppressionWindowIsStrict(c: Client, doc: Room)
    requires c.subscribed && c.pendingContent.None?
    ensures OnSnapshot(c, Some(doc), c.lastContentEdit + REMOTE_WINDOW).content == c.content
    ensures OnSnapshot(c, Some(doc), c.lastContentEdit + REMOTE_WINDOW + 1).content == doc.content.GetOr("")
  {
  }

  /** Applies the content edits `vs[i]` made at the times `ts[i]`, in order. */
  function ContentEdits(c: Client, vs: seq<string>, ts: seq<int>): (c': Client)
    requires |vs| == |ts|
    ensures c'.cursorTimer == c.cursorTimer && c'.roomId == c.roomId && c'.user == c.user
    ensures |vs| > 0 ==> c'.updateTimer == Some(UpdateTimer(ts[|ts| - 1] + UPDATE_DEBOUNCE, ContentField, vs[|vs| - 1]))
    ensures |vs| > 0 ==> c'.content == vs[|vs| - 1] && c'.pendingContent == Some(vs[|vs| - 1])
    decreases |vs|
  {
    if vs == [] then c
    else UpdateContent(ContentEdits(c, vs[..|vs| - 1], ts[..|ts| - 1]), vs[|vs| - 1], ts[|ts| - 1])
  }

  /**
   * A burst of content edits with no tick in between produces exactly one
   * remote write: the first tick at or after the last edit's deadline writes
   * the last value, and a further tick writes nothing. Before that deadline
   * nothing is written.
   */
  lemma BurstCoalescesToOneWrite(c: Client, vs: seq<string>, ts: seq<int>, rooms: map<string, Room>,
                                  early: int, now: int, later: int, ok: bool, ok2: bool)
    requires |vs| == |ts| > 0 && c.cursorTimer.None?
    requires early < ts[|ts| - 1] + UPDATE_DEBOUNCE <= now
    ensures var b := ContentEdits(c, vs, ts);
      var landed := ok && c.roomId in rooms;
      var r := Tick(b, rooms, now, ok);
      && Tick(b, rooms, early, ok).write == NoWrite
      && r.write == ContentWrite(vs[|vs| - 1], landed)
      && (landed ==> r.rooms[c.roomId].content == Some(vs[|vs| - 1]) && r.client.pendingContent.None?)
      && Tick(r.client, r.rooms, later, ok2).write == NoWrite
  {
  }

  /**
   * A failed write leaves its field pending, so no later snapshot replaces
   * the local value; a landed one clears the mark.
   */
  lemma FailedWriteStaysPending(c: Client, rooms: map<string, Room>, now: int, ok: bool, doc: Option<Room>, later: int)
    requires c.pendingContent.Some? && UpdateFiresFirst(c, now) && c.updateTimer.value.field == ContentField
    ensures var r := Tick(c, rooms, now, ok);
      && (r.write.landed <==> ok && c.roomId in rooms)
      && (!r.write.landed ==> (r.client.pendingContent == c.pendingContent
            && OnSnapshot(r.client, doc, later).content == c.content))
      && (r.write.landed ==> r.client.pendingContent.None?)
  {
  }

  /**
   * A title edit before a content edit's write fires cancels that write:
   * the tick writes only the title, the room's content is untouched, and the
   * content stays pending with nothing queued to clear it, so snapshots
   * never replace it.
   */
  lemma TitleEditCancelsContentWrite(c: Client, rooms: map<string, Room>, v: string, w: string,
                                      t1: int, t2: int, now: int, ok: bool, later: int, ok2: bool, doc: Option<Room>, t3: int)
    requires c.cursorTimer.None? && t2 + UPDATE_DEBOUNCE <= now
    ensures var edited := UpdateTitle(UpdateContent(c, v, t1), w, t2);
      var r := Tick(edited, rooms, now, ok);
      && r.write == TitleWrite(w, ok && c.roomId in rooms)
      && (c.roomId in rooms ==> r.rooms[c.roomId].content == rooms[c.roomId].content)
      && r.client.pendingContent == Some(v)
      && Tick(r.client, r.rooms, later, ok2).write == NoWrite
      && OnSnapshot(r.client, doc, t3).content == v
  {
  }

  /** A snapshot overwrites the roster and shows only the document's cursor objects. */
  lemma SnapshotRosterAndCursors(c: Client, doc: Room, now: int, id: string)
    requires c.subscribed && doc.userCursors.Some?
    ensures var c' := OnSnapshot(c, Some(doc), now);
      && c'.connectedUsers == Roster(doc)
      && (id in c'.userCursors <==> id in doc.userCursors.value && doc.userCursors.value[id].CursorObject?)
      && (id in doc.userCursors.value && doc.userCursors.value[id] == NullCursor ==> id !in c'.userCursors)
  {
  }

  /** Without a cursor map in the document, the shown cursors stay as they were. */
  lemma SnapshotWithoutCursorMapKeepsCursors(c: Client, doc: Room, now: int)
    requires c.subscribed && doc.userCursors.None?
    ensures OnSnapshot(c, Some(doc), now).userCursors == c.userCursors
  {
  }

  /**
   * Leaving removes the user and nulls their cursor; without faults the room
   * is deleted exactly when no one is left, and a room with others in it is
   * kept.
   */
  lemma LeaveDeletesExactlyEmptyRooms(c: Client, rooms: map<string, Room>, now: int)
    requires c.roomId in rooms
    ensures var r := Leave(c, rooms, now, NoFault).rooms;
      var left := ArrayRemove(Roster(rooms[c.roomId]), c.user);
      && (c.roomId in r <==> |left| > 0)
      && (c.roomId in r ==> (Roster(r[c.roomId]) == left && c.user !in Roster(r[c.roomId])
            && r[c.roomId].userCursors.value[c.user.id] == NullCursor))
  {
  }

  /** A failure after the roster update keeps the room, even when it is now empty. */
  lemma LateFaultKeepsRoom(c: Client, rooms: map<string, Room>, now: int, fault: LeaveFault)
    requires c.roomId in rooms && (fault == ReadFails || fault == DeleteFails)
    ensures var r := Leave(c, rooms, now, fault).rooms;
      c.roomId in r && c.user !in Roster(r[c.roomId])
  {
  }

  /** After a user leaves a room others still use, another client's snapshot shows no cursor for them. */
  lemma LeaverCursorDisappears(c: Client, other: Client, rooms: map<string, Room>, now: int, later: int)
    requires c.roomId in rooms && other.subscribed && other.roomId == c.roomId
    requires exists u :: u in Roster(rooms[c.roomId]) && u != c.user
    ensures var r := Leave(c, rooms, now, NoFault).rooms;
      && c.roomId in r
      && var o := OnSnapshot(other, Some(r[c.roomId]), later);
      c.user.id !in o.userCursors && c.user !in o.connectedUsers
  {
    var u :| u in Roster(rooms[c.roomId]) && u != c.user;
    assert u in ArrayRemove(Roster(rooms[c.roomId]), c.user);
  }

  /**
   * Unmounting does not cancel a queued write: it still fires later, and
   * lands when the room survived the departure.
   */
  lemma UnmountKeepsQueuedWrite(c: Client, rooms: map<string, Room>, now: int, later: int, fault: LeaveFault)
    requires c.updateTimer.Some? && c.updateTimer.value.field == ContentField && c.cursorTimer.None?
    requires later >= c.updateTimer.value.deadline
    ensures var l := Leave(c, rooms, now, fault);
      var r := Tick(l.client, l.rooms, later, true);
      && l.client.updateTimer == c.updateTimer
      && r.write == ContentWrite(c.updateTimer.value.value, c.roomId in l.rooms)
      && (c.roomId in l.rooms ==> r.rooms[c.roomId].content == Some(c.updateTimer.value.value))
  {
  }

  /**
   * A cursor move queued before leaving is written after the leave, so the
   * departed user's cursor reappears in a room that is still there.
   */
  lemma CursorWriteAfterLeaveRestoresCursor(c: Client, rooms: map<string, Room>, now: int, later: int)
    requires c.cursorTimer.Some? && c.updateTimer.None? && later >= c.cursorTimer.value.deadline
    requires c.roomId in rooms && exists u :: u in Roster(rooms[c.roomId]) && u != c.user
    ensures var l := Leave(c, rooms, now, NoFault);
      var r := Tick(l.client, l.rooms, later, true);
      && c.roomId in r.rooms
      && c.user !in Roster(r.rooms[c.roomId])
      && r.rooms[c.roomId].userCursors.value[c.user.id].CursorObject?
  {
    var u :| u in Roster(rooms[c.roomId]) && u != c.user;
    assert u in ArrayRemove(Roster(rooms[c.roomId]), c.user);
  }
}

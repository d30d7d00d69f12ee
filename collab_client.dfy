/**
 * The hook's mutable state as an object: each handler of
 * hooks/useCollaborativeRoom.ts updates the fields step by step, and each
 * method is proved to move the state exactly as the transition of the same
 * name in `Collab` does.
 */
module CollabClient {
  import opened Wrappers
  import opened Rooms
  import Collab

  /** The `for ... of Object.entries(userCursors)` loop: keeps the entries that are cursor objects. */
  method CollectCursors(m: map<string, CursorEntry>) returns (shown: map<string, Cursor>)
    ensures shown == LiveCursors(m)
  {
    var todo := m.Keys;
    shown := map[];
    while todo != {}
      invariant todo <= m.Keys
      invariant forall k :: k in shown <==> k in m && k !in todo && m[k].CursorObject?
      invariant forall k :: k in shown ==> shown[k] == m[k].cursor
      decreases |todo|
    {
      var k :| k in todo;
      if m[k].CursorObject? {
        shown := shown[k := m[k].cursor];
      }
      todo := todo - {k};
    }
  }

  /** The snapshot transition from a subscribed state, given the three values it recomputes. */
  lemma SnapshotApplies(c: Collab.Client, d: Room, now: int, content: string, title: string, cursors: map<string, Cursor>)
    requires c.subscribed
    requires content == if Collab.RemoteApplies(c.pendingContent, c.lastContentEdit, now) then d.content.GetOr("") else c.content
    requires title == if Collab.RemoteApplies(c.pendingTitle, c.lastTitleEdit, now) then d.title.GetOr("") else c.title
    requires cursors == if d.userCursors.Some? then LiveCursors(d.userCursors.value) else c.userCursors
    ensures Collab.OnSnapshot(c, Some(d), now)
      == c.(content := content, title := title, connectedUsers := Roster(d), userCursors := cursors,
            isConnected := true, error := None)
  {
  }

  class RoomClient {
    var roomId: string
    var user: User
    var content: string
    var title: string
    var pendingContent: Option<string>
    var pendingTitle: Option<string>
    var lastContentEdit: int
    var lastTitleEdit: int
    var updateTimer: Option<Collab.UpdateTimer>
    var cursorTimer: Option<Collab.CursorTimer>
    var connectedUsers: seq<User>
    var userCursors: map<string, Cursor>
    var isConnected: bool
    var error: Option<string>
    var subscribed: bool

    /** The fields as one value. */
    function State(): Collab.Client
      reads this
    {
      Collab.Client(roomId, user, content, title, pendingContent, pendingTitle,
                    lastContentEdit, lastTitleEdit, updateTimer, cursorTimer,
                    connectedUsers, userCursors, isConnected, error, subscribed)
    }

    /** Mounting: the initial state with the snapshot listener attached. */
    constructor (roomId: string, user: User)
      ensures State() == Collab.Mounted(roomId, user)
    {
      this.roomId := roomId;
      this.user := user;
      content, title := "", "";
      pendingContent, pendingTitle := None, None;
      lastContentEdit, lastTitleEdit := 0, 0;
      updateTimer, cursorTimer := None, None;
      connectedUsers, userCursors := [], map[];
      isConnected, error := false, None;
      subscribed := true;
    }

    /** `addUser`, run on mount. */
    method Join(store: RoomStore, now: int, ok: bool)
      modifies store
      ensures store.rooms == Collab.Join(old(store.rooms), roomId, user, now, ok)
    {
      if ok && roomId in store.rooms {
        var room := store.rooms[roomId];
        var roster := Roster(room);
        if user !in roster {
          roster := roster + [user];
        }
        store.rooms := store.rooms[roomId := room.(connectedUsers := Some(roster), updatedAt := Some(now))];
      }
    }

    method UpdateContent(v: string, now: int)
      modifies this
      ensures State() == Collab.UpdateContent(old(State()), v, now)
    {
      lastContentEdit := now;
      content := v;
      pendingContent := Some(v);
      updateTimer := Some(Collab.UpdateTimer(now + Collab.UPDATE_DEBOUNCE, Collab.ContentField, v));
    }

    method UpdateTitle(v: string, now: int)
      modifies this
      ensures State() == Collab.UpdateTitle(old(State()), v, now)
    {
      lastTitleEdit := now;
      title := v;
      pendingTitle := Some(v);
      updateTimer := Some(Collab.UpdateTimer(now + Collab.UPDATE_DEBOUNCE, Collab.TitleField, v));
    }

    method UpdateCursorPosition(pos: int, x: int, y: int, now: int)
      modifies this
      ensures State() == Collab.UpdateCursorPosition(old(State()), pos, x, y, now)
    {
      cursorTimer := Some(Collab.CursorTimer(now + Collab.CURSOR_DEBOUNCE, pos, x, y));
    }

    /** The clock reaches `now`; the due timer's callback runs its write against the store. */
    method Tick(store: RoomStore, now: int, ok: bool) returns (w: Collab.Write)
      modifies this, store
      ensures Collab.TickResult(State(), store.rooms, w) == Collab.Tick(old(State()), old(store.rooms), now, ok)
    {
      var s := State();
      if Collab.UpdateFiresFirst(s, now) {
        var t := updateTimer.value;
        updateTimer := None;
        var landed := ok && roomId in store.rooms;
        if t.field == Collab.ContentField {
          if landed {
            store.rooms := store.rooms[roomId := WriteContent(store.rooms[roomId], t.value, now)];
            pendingContent := None;
          }
          w := Collab.ContentWrite(t.value, landed);
        } else {
          if landed {
            store.rooms := store.rooms[roomId := WriteTitle(store.rooms[roomId], t.value, now)];
            pendingTitle := None;
          }
          w := Collab.TitleWrite(t.value, landed);
        }
      } else if Collab.CursorDue(s, now) {
        var t := cursorTimer.value;
        cursorTimer := None;
        var cursor := Cursor(user.id, user.name, t.position, t.relativeX, t.relativeY, now);
        var landed := ok && roomId in store.rooms;
        if landed {
          store.rooms := store.rooms[roomId := WriteCursor(store.rooms[roomId], cursor)];
        }
        w := Collab.CursorWrite(cursor, landed);
      } else {
        w := Collab.NoWrite;
      }
    }

    /** The snapshot listener; the cursor map is rebuilt entry by entry. */
    method OnSnapshot(doc: Option<Room>, now: int)
      modifies this
      ensures State() == Collab.OnSnapshot(old(State()), doc, now)
    {
      if !subscribed {
        return;
      }
      if doc.None? {
        error := Some(Collab.ROOM_NOT_FOUND);
        return;
      }
      var d := doc.value;
      ghost var c := State();
      ApplyRemoteText(d, now);
      ApplyRoster(d);
      if d.userCursors.Some? {
        var shown := CollectCursors(d.userCursors.value);
        userCursors := shown;
      }
      SnapshotApplies(c, d, now, content, title, userCursors);
    }

    /** Content and title take the document's values where no local edit is pending or recent. */
    method ApplyRemoteText(d: Room, now: int)
      modifies this
      ensures State() == old(State()).(
        content := if Collab.RemoteApplies(old(pendingContent), old(lastContentEdit), now) then d.content.GetOr("") else old(content),
        title := if Collab.RemoteApplies(old(pendingTitle), old(lastTitleEdit), now) then d.title.GetOr("") else old(title))
    {
      if pendingContent.None? && now - lastContentEdit > Collab.REMOTE_WINDOW {
        content := d.content.GetOr("");
      }
      if pendingTitle.None? && now - lastTitleEdit > Collab.REMOTE_WINDOW {
        title := d.title.GetOr("");
      }
    }

    /** The roster is replaced and the client is connected with no error. */
    method ApplyRoster(d: Room)
      modifies this
      ensures State() == old(State()).(connectedUsers := Roster(d), isConnected := true, error := None)
    {
      connectedUsers := Roster(d);
      isConnected := true;
      error := None;
    }

    method OnSnapshotError()
      modifies this
      ensures State() == Collab.OnSnapshotError(old(State()))
    {
      if subscribed {
        error := Some(Collab.CONNECT_FAILED);
        isConnected := false;
      }
    }

    /** `leaveRoom` (and the unmount cleanup): update, re-read, maybe delete; then detach the listener. */
    method Leave(store: RoomStore, now: int, fault: Collab.LeaveFault)
      modifies this, store
      ensures Collab.LeaveResult(State(), store.rooms) == Collab.Leave(old(State()), old(store.rooms), now, fault)
    {
      if roomId in store.rooms && fault != Collab.UpdateFails {
        store.rooms := store.rooms[roomId := RemoveUser(store.rooms[roomId], user, now)];
        if fault != Collab.ReadFails {
          var snapshot := store.rooms[roomId];
          if |Roster(snapshot)| == 0 && fault != Collab.DeleteFails {
            store.rooms := store.rooms - {roomId};
          }
        }
      }
      subscribed := false;
    }
  }
}

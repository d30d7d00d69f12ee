/**
 * `POST /api/rooms` (app/api/rooms/route.ts): creates the room document a
 * collaboration session starts from. The random room id is a parameter.
 */
module RoomsRoute {
  import opened Wrappers
  import opened Rooms
  import Js
  import Cleanup

  const CREATE_FAILED: string := "Failed to create room"

  /** The request body; `None` stands for a missing or falsy field. */
  datatype CreateRoomRequest = CreateRoomRequest(blogId: Js.Json, content: Option<string>, title: Option<string>)

  datatype CreateRoomResponse =
    | Created(roomId: string, blogId: Js.Json)
    | Failed(status: int, error: string, details: string)

  datatype CreateRoomResult = CreateRoomResult(rooms: map<string, Room>, response: CreateRoomResponse)

  /** The document written for a new room at time `now`. */
  function InitialRoom(roomId: string, req: CreateRoomRequest, now: int): (r: Room)
    ensures r.id == roomId && r.blogId == req.blogId
    ensures r.content == Some(req.content.GetOr("")) && r.title == Some(req.title.GetOr(""))
    ensures r.connectedUsers == Some([]) && r.userCursors == Some(map[])
    ensures r.createdAt == Some(now) && r.updatedAt == Some(now)
  {
    Room(roomId, req.blogId, Some(req.content.GetOr("")), Some(req.title.GetOr("")),
         Some([]), Some(map[]), Some(now), Some(now))
  }

  /**
   * The handler: `setDoc` under the new id, then echo the ids. A failed
   * write is a 500 whose `details` is `thrown`, the text `String(error)`
   * gives for the rejection.
   */
  function PostRoom(rooms: map<string, Room>, roomId: string, req: CreateRoomRequest, now: int,
                    writeOk: bool, thrown: string)
    : (r: CreateRoomResult)
    ensures writeOk ==> r.rooms == rooms[roomId := InitialRoom(roomId, req, now)]
    ensures writeOk ==> r.response == Created(roomId, req.blogId)
    ensures !writeOk ==> r.rooms == rooms && r.response == Failed(500, CREATE_FAILED, thrown)
  {
    if writeOk then CreateRoomResult(rooms[roomId := InitialRoom(roomId, req, now)], Created(roomId, req.blogId))
    else CreateRoomResult(rooms, Failed(500, CREATE_FAILED, thrown))
  }

  /**
   * A fresh room is stored under its own id with nobody in it, and the
   * hourly sweep leaves it alone for exactly one hour: it is deleted only
   * by a run strictly more than an hour after creation, unless someone joins.
   */
  lemma FreshRoomLifetime(rooms: map<string, Room>, roomId: string, req: CreateRoomRequest, t: int, now: int, thrown: string)
    ensures var r := PostRoom(rooms, roomId, req, t, true, thrown).rooms;
      && roomId in r && r[roomId].id == roomId && Roster(r[roomId]) == []
      && (Cleanup.ShouldDelete(r[roomId], now) <==> now > t + Cleanup.HOUR_MS)
  {
  }
}

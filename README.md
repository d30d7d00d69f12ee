# qblog, modelled in Dafny

qblog is a Next.js application that writes blog posts with a language model.
A visitor submits a topic and the generate route checks it. The route then
charges the visitor's quota, stores a placeholder blog and fills that blog in
the background, with the streamed text and a banner image link. Anonymous blogs
are tied to the visitor's IP address; signing up claims them for the new
account. The blog library lists, searches and pages the blogs. Two or more
people can edit a blog together in a collaborative room, which is a shared
document. Each client debounces its writes into the room and filters the room
snapshots it receives. An hourly job sweeps away rooms that are abandoned.

This project models those parts as Dafny code and proves what they promise.

- **Collaborative rooms.**
  - `Rooms` holds the room document: its roster, with `arrayUnion` and
    `arrayRemove` as set operations over `{id, name}` pairs, and its cursor
    map.
  - `Collab` gives one client's state machine as pure transitions. It has an
    explicit clock, one debounce slot that content and title share, a separate
    cursor slot, a snapshot filter and leaving the room.
  - `CollabClient.RoomClient` is the same client as an object, whose methods
    update its fields in place. Each method is proved equal to its transition
    in `Collab`.
  - `RoomsRoute` models the room-creation route.
  - `Cleanup` models the hourly sweep.
- **Blog store.**
  - `Blogs` models the blog store: the search, sort and slice of
    `getAllBlogs`, blog lookup, ownership, create, update, delete, and claiming
    a visitor's anonymous blogs.
  - `BlogStore` is a class over a sequence of records, updated in place.
- **Blog listing.**
  - `BlogsApi` models the listing route: offsets, page counts and the fields a
    response exposes.
  - `BlogsPage` models the library page: the search reset, the Previous and
    Next clamps, the page buttons and the request it sends.
- **Blog generation.**
  - `Generate` models the generate route. It covers the order of its guards,
    the safety check, the choice of system prompt, how a model error is
    classified, and the background job's blog updates.
  - `GenerateImage` models the banner route: prompt validation, the seed and
    the image link.
- **Quota.** `RateLimit` models the quota counters: 5 requests per IP address
  per hour for anonymous visitors and 50 per user per day for signed-in users.
  A failure of the counter store lets the request through.
- **Prompts.**
  - `Prompts` models the custom-prompt store as a key-value map.
  - `CustomPromptApi` models its three routes.
- **Sign-up.**
  - `ClaimApi` models the claim route.
  - `Signup` models the sign-up form.
- **Helpers.**
  - `Utils`, `BlogCard`, `BlogEditor` and `FunFacts` model the string and
    arithmetic helpers.
  - `Headers` models the client-address rule.
  - `Text` and `Js` give the JavaScript built-ins these rely on:
    - `trim`, `split`, `toLowerCase` and `includes`;
    - `slice` and `substring`;
    - `%`, `Math.ceil` and number formatting.

Networked and stored state is modelled as values passed in and returned:
- Firestore collections are maps or sequences.
- Timers are slots with deadlines.
- `Date.now()` becomes a `now` parameter.
- Every call that can fail is a boolean outcome parameter. The one exception is the failure notice's read-back in the generation job: its outcome is caught and changes nothing stored.

## Model

| member | source | states |
|---|---|---|
| `Rooms.ArrayUnion` | hooks/useCollaborativeRoom.ts:43-46 | the roster afterwards holds exactly the old members plus the joining user; it is unchanged when the pair is already there, and otherwise the pair is appended |
| `Rooms.ArrayRemove` | hooks/useCollaborativeRoom.ts:112-116 | the roster afterwards holds exactly the old members other than the leaving pair; it never grows, and it is unchanged when the pair is absent |
| `Rooms.UnionThenRemove` | hooks/useCollaborativeRoom.ts:43-46 | removing a pair after adding it gives the same roster as only removing it |
| `Rooms.RemoveAppended` | hooks/useCollaborativeRoom.ts:112-116 | removing a pair that was just appended to a roster without it gives back the original roster, order included |
| `Rooms.AddUser` | hooks/useCollaborativeRoom.ts:43-46 | the join write unions the user into the roster and stamps `updatedAt`; every other field of the room (id, blog, content, title, cursors, `createdAt`) is kept |
| `Rooms.RemoveUser` | hooks/useCollaborativeRoom.ts:112-116 | the leave write takes the user off the roster and sets their cursor entry to null; other users' cursors are kept and no other cursor key appears; every other field of the room (id, blog, content, title, `createdAt`) is kept, and `updatedAt` is stamped |
| `Rooms.WriteCursor` | hooks/useCollaborativeRoom.ts:210-222 | the cursor write sets the user's entry to the full cursor object and changes no other field, so the roster, content, title and `updatedAt` are kept |
| `Rooms.LiveCursors` | hooks/useCollaborativeRoom.ts:80-88 | the cursors shown are exactly the map's entries that are cursor objects, so null and malformed entries are dropped |
| `Collab.Mounted` | hooks/useCollaborativeRoom.ts:22-34 | a mounted client starts empty: empty content, title, roster and cursor map, zero edit times, no pending writes, no timers, not connected, no error, listener attached |
| `Collab.Join` | hooks/useCollaborativeRoom.ts:41-50 | joining changes only this room, by `AddUser`, when the write succeeds and the room exists; otherwise nothing changes (the error is caught) |
| `Collab.UpdateContent` | hooks/useCollaborativeRoom.ts:136-166 | a content edit shows the value at once, marks content pending and records the edit time; it replaces the one update slot with a write of this value due 150 ms later; nothing else changes |
| `Collab.UpdateTitle` | hooks/useCollaborativeRoom.ts:168-198 | the same for the title, in the same shared slot |
| `Collab.UpdateCursorPosition` | hooks/useCollaborativeRoom.ts:200-229 | a cursor move replaces only the cursor slot, with a write due 100 ms later |
| `Collab.FireUpdate` | hooks/useCollaborativeRoom.ts:151-163 | firing the update slot empties it and leaves the cursor slot. The write lands exactly when it succeeds and the room exists. A landed write puts the slot's value into that room's content or title, stamps its `updatedAt`, clears that field's pending mark, and leaves every other room alone. A write that does not land changes no room and keeps the mark. |
| `Collab.FireCursor` | hooks/useCollaborativeRoom.ts:210-226 | firing the cursor slot empties it and changes nothing else in the client. It writes the slot's position and pointer under the client's user id and name, stamped with the firing time. The write lands exactly when it succeeds and the room exists. Then only that user's entry of that room's `userCursors` changes; otherwise no room changes. |
| `Collab.Tick` | hooks/useCollaborativeRoom.ts:146-226 | with no timer due nothing happens. When the update slot is due and fires first (earlier deadline, or a tie), the result is exactly `FireUpdate`'s; otherwise a due cursor slot gives exactly `FireCursor`'s. So a content or title write happens only when the update slot is due, a cursor write only when the cursor slot is due, each empties its slot, and rooms are neither created nor deleted |
| `Collab.OnSnapshot` | hooks/useCollaborativeRoom.ts:55-97 | a missing document only sets `Room not found`. An existing one does the following. (1) It replaces content or title only if that field has no pending write and more than 300 ms have passed since its last edit. (2) It always replaces the roster. (3) It rebuilds the cursors only if the document has a cursor map. (4) It marks the client connected with no error. Every other field (pending marks, edit times, timers, room id, user, the listener) is kept. A detached client is unaffected. |
| `Collab.OnSnapshotError` | hooks/useCollaborativeRoom.ts:98-102 | a listener error sets `Failed to connect to room` and disconnects |
| `Collab.RemoveFromRoom` | hooks/useCollaborativeRoom.ts:236-254 | leaving never adds rooms and never touches any other room; a missing room or a failed first write leaves everything as it was |
| `Collab.Leave` | hooks/useCollaborativeRoom.ts:231-259 | leaving detaches the listener, does the store side above, and keeps every queued timer |
| `Collab.JoinIsIdempotent` | hooks/useCollaborativeRoom.ts:43-46 | joining again with the same pair leaves the roster as one join made it, and that roster is the old one plus the user |
| `Collab.PendingFieldSurvivesSnapshots` | hooks/useCollaborativeRoom.ts:64-68 | while content is pending, no snapshot changes the local content or its pending mark |
| `Collab.SuppressionWindowIsStrict` | hooks/useCollaborativeRoom.ts:64-66 | a snapshot exactly 300 ms after the last edit is ignored; one at 301 ms is applied |
| `Collab.ContentEdits` | hooks/useCollaborativeRoom.ts:136-163 | after a burst of content edits the slot holds one write of the last value, due 150 ms after the last edit |
| `Collab.BurstCoalescesToOneWrite` | hooks/useCollaborativeRoom.ts:146-163 | a burst of edits produces no write before the last deadline. At that deadline it produces exactly one write, carrying the last value. When that write lands it clears the pending mark. After it, no write follows. |
| `Collab.FailedWriteStaysPending` | hooks/useCollaborativeRoom.ts:152-162 | a content write lands exactly when it succeeds and the room exists; landing clears the pending mark; a failed write keeps the mark, so later snapshots never overwrite the local content |
| `Collab.TitleEditCancelsContentWrite` | hooks/useCollaborativeRoom.ts:177-183 | a title edit within the debounce window of a content edit replaces the queued content write. Only the title is written and the room's content is untouched. Content stays pending, no later write follows, and snapshots do not overwrite it. |
| `Collab.SnapshotRosterAndCursors` | hooks/useCollaborativeRoom.ts:77-88 | the roster is copied from the snapshot; a user is shown a cursor exactly when the snapshot holds a cursor object for them, so a nulled cursor disappears |
| `Collab.SnapshotWithoutCursorMapKeepsCursors` | hooks/useCollaborativeRoom.ts:80-88 | a snapshot without a cursor map keeps the cursors already shown |
| `Collab.LeaveDeletesExactlyEmptyRooms` | hooks/useCollaborativeRoom.ts:236-251 | on a clean leave the room survives exactly when the roster without the user is non-empty, and then it has that roster and the user's cursor set to null |
| `Collab.LateFaultKeepsRoom` | hooks/useCollaborativeRoom.ts:243-254 | if the re-read or the delete fails, the room stays, without the user |
| `Collab.LeaverCursorDisappears` | hooks/useCollaborativeRoom.ts:236-240 | once a user leaves a room that others are still in, the next snapshot shows the others neither that user's cursor nor that user |
| `Collab.UnmountKeepsQueuedWrite` | hooks/useCollaborativeRoom.ts:108-133 | leaving or unmounting does not cancel a queued content write; it still fires later, and it writes into the room if the room still exists |
| `Collab.CursorWriteAfterLeaveRestoresCursor` | hooks/useCollaborativeRoom.ts:205-226 | a cursor write queued before leaving still fires: the leaver is off the roster but their cursor object is back in the room |
| `CollabClient.CollectCursors` | hooks/useCollaborativeRoom.ts:80-88 | the loop over the snapshot's cursor entries builds exactly the live-cursor map |
| `CollabClient.RoomClient.constructor` | hooks/useCollaborativeRoom.ts:22-34 | the hook's initial state is `Collab.Mounted` |
| `CollabClient.RoomClient.Join` | hooks/useCollaborativeRoom.ts:41-50 | the `addUser` write changes the shared store as `Collab.Join` says |
| `CollabClient.RoomClient.UpdateContent` | hooks/useCollaborativeRoom.ts:136-166 | the fields change as `Collab.UpdateContent` says |
| `CollabClient.RoomClient.UpdateTitle` | hooks/useCollaborativeRoom.ts:168-198 | the fields change as `Collab.UpdateTitle` says |
| `CollabClient.RoomClient.UpdateCursorPosition` | hooks/useCollaborativeRoom.ts:200-229 | the fields change as `Collab.UpdateCursorPosition` says |
| `CollabClient.RoomClient.Tick` | hooks/useCollaborativeRoom.ts:146-226 | the client, the store and the reported write are those of `Collab.Tick` |
| `CollabClient.RoomClient.OnSnapshot` | hooks/useCollaborativeRoom.ts:55-97 | the fields change as `Collab.OnSnapshot` says |
| `CollabClient.RoomClient.ApplyRemoteText` | hooks/useCollaborativeRoom.ts:63-75 | content and title take the remote value exactly where the suppression test lets them; nothing else changes |
| `CollabClient.RoomClient.ApplyRoster` | hooks/useCollaborativeRoom.ts:77-91 | the roster is copied and the client is marked connected with no error; nothing else changes |
| `CollabClient.RoomClient.OnSnapshotError` | hooks/useCollaborativeRoom.ts:98-102 | the fields change as `Collab.OnSnapshotError` says |
| `CollabClient.RoomClient.Leave` | hooks/useCollaborativeRoom.ts:231-259 | the client and the store change as `Collab.Leave` says |
| `Cleanup.Swept` | functions/cleanupEmptyRooms.ts:20-35 | a room is kept exactly when it does not meet the deletion test, and a kept room is unchanged |
| `Cleanup.CleanupEmptyRooms` | functions/cleanupEmptyRooms.ts:13-41 | the scan loop queues exactly the rooms that meet the test, and the commit deletes them and reports their number. A failing store changes nothing. |
| `Cleanup.OccupiedRoomSurvives` | functions/cleanupEmptyRooms.ts:29 | a room with anyone connected is never deleted, however old it is |
| `Cleanup.BareRoomIsDeleted` | functions/cleanupEmptyRooms.ts:22-23 | a room with no roster and no `updatedAt` counts as empty and as dating from the epoch, so once the clock is past one hour it is deleted |
| `Cleanup.RecentRoomSurvives` | functions/cleanupEmptyRooms.ts:24-29 | a room updated no longer than an hour ago is kept, since the comparison is strict |
| `Cleanup.SweepPartitions` | functions/cleanupEmptyRooms.ts:17-35 | every room is either kept or deleted, never both; a second sweep at the same time deletes nothing more |
| `RoomsRoute.InitialRoom` | app/api/rooms/route.ts:10-19 | a new room stores its key as `id` and `blogId` as given. Content and title default to `''`. The roster and the cursor map are empty, and both timestamps are the creation time. |
| `RoomsRoute.PostRoom` | app/api/rooms/route.ts:4-25 | a successful write stores the initial room under its key and echoes `roomId` and `blogId`; a failed write stores nothing and answers 500 with `Failed to create room` and the rejection's text as `details` |
| `RoomsRoute.FreshRoomLifetime` | app/api/rooms/route.ts:15-18 | a room that is created and then never joined is swept exactly once more than an hour has passed since its creation |
| `Utils.ExtractTitleFromContent` | lib/utils.ts:2-10 | the loop over the lines returns what `TitleFromLines` defines |
| `Utils.TitleFromLinesSpec` | lib/utils.ts:2-10 | the title is the trimmed text after `# ` on the first line that starts with `# `; with no such line it is `Untitled Blog Post` |
| `Utils.SubheadingIsNotTitle` | lib/utils.ts:5 | a line that starts with `#` followed by something other than a space, such as `##`, is skipped |
| `Utils.TruncateContent` | lib/utils.ts:12-17 | text no longer than the limit is returned unchanged. Longer text gives its first `maxLength` characters followed by `...`, exactly `maxLength + 3` long. |
| `Utils.ReadingMinutes` | lib/utils.ts:33 | the minutes are the least whole number whose 200-word span covers the word count |
| `Utils.CalculateReadingTime` | lib/utils.ts:30-34 | reading time is `ceil(tokens / 200)` and at least 1, where tokens are the pieces of the trimmed text split at whitespace |
| `Utils.ReadingMinutesMonotone` | lib/utils.ts:33 | more words never give fewer minutes |
| `Utils.BlankTextReadsInOneMinute` | lib/utils.ts:32-33 | empty or blank text reads in 1 minute, because splitting it yields one token |
| `Text.TrimStart` | lib/utils.ts:32 | the result is a suffix of the input that starts with no whitespace, and everything cut off is whitespace |
| `Text.TrimEnd` | lib/utils.ts:32 | the result is a prefix of the input that ends with no whitespace, and everything cut off is whitespace |
| `Text.Trim` | lib/utils.ts:6 | the result is a contiguous piece of the input with whitespace at neither end, and everything cut from either end is whitespace |
| `Text.TrimEmptyIffBlank` | app/api/generate/route.ts:83 | trimming leaves nothing exactly when the text is all whitespace |
| `Text.TrimIdempotent` | lib/utils.ts:6 | trimming twice is trimming once |
| `Text.LowerChar` | lib/firestore-blogs.ts:127 | lower-casing maps each of `A`-`Z` to the letter 32 code points on in `a`-`z`, keeps every other character and never yields an upper-case letter |
| `Text.Lower` | lib/firestore-blogs.ts:127 | lower-casing works character by character and keeps the length |
| `Text.LowerIdempotent` | lib/firestore-blogs.ts:147-151 | lower-casing twice is lower-casing once |
| `Text.ContainsIffOccurs` | lib/firestore-blogs.ts:149-151 | `includes` holds exactly when the piece occurs at some position |
| `Text.Split` | lib/utils.ts:3 | splitting gives at least one piece, and no piece contains the separator |
| `Text.JoinSplit` | lib/utils.ts:3 | joining the pieces with the separator gives back the text |
| `Text.SplitFirstIsPrefix` | app/api/generate/route.ts:16 | the first piece is the longest prefix without the separator |
| `Text.SplitSpaceCount` | app/api/generate/route.ts:365 | splitting at whitespace gives at least one piece |
| `Text.TokenCount` | lib/utils.ts:32 | the word count of trimmed text is at least 1 |
| `Text.WordsVersusRuns` | lib/utils.ts:32 | in text that starts with a word, the number of words is the number of whitespace runs, plus one when the text does not end in whitespace |
| `Text.TokenCountIsWords` | components/BlogEditor.tsx:85 | the word count is the number of words of the trimmed text, or 1 for blank text |
| `Js.RelativeIndex` | lib/firestore-blogs.ts:155 | a `slice` index is clamped to the length, and a negative one counts from the end |
| `Js.Slice` | lib/firestore-blogs.ts:155 | `slice` gives at most `end - start` elements: the exact subsequence when the bounds are in range, nothing when `end <= start` |
| `Js.SliceWindow` | lib/firestore-blogs.ts:155 | for a non-negative offset and limit, the slice is the window from `offset` to `offset + limit`, cut at the end, and has at most `limit` elements |
| `Js.ClampIndex` | components/BlogEditor.tsx:34 | a `substring` index is clamped into `[0, length]` |
| `Js.Substring` | components/BlogEditor.tsx:34-40 | `substring` is the slice between its two indices, whichever is smaller |
| `Js.Rem` | lib/fun-facts.ts:64 | `%` truncates, so a non-negative operand gives the usual remainder and a negative one gives the negated remainder of its absolute value, which is non-positive |
| `Js.CeilDiv` | app/api/blogs/route.ts:27 | `Math.ceil(a / b)` is the least whole number whose multiple of a positive `b` covers `a` |
| `Js.NatToString` | app/api/claim-blogs/route.ts:53 | a number prints as a non-empty string of decimal digits |
| `Js.DigitsRoundTrip` | app/api/claim-blogs/route.ts:53 | reading the printed digits back gives the number |
| `Blogs.NullIfEmpty` | lib/firestore-blogs.ts:63-69 | `x \|\| null` turns an empty string into null and keeps everything else |
| `Blogs.ReadBack` | lib/firestore-blogs.ts:57-73 | a read document keeps its id, text fields, timestamps and metadata, and reads empty optional fields as null |
| `Blogs.ReadAll` | lib/firestore-blogs.ts:130-146 | the mapping reads every document, in order |
| `Blogs.FilterMatching` | lib/firestore-blogs.ts:147-152 | each blog is kept, as often as it occurs, exactly when its title, query or content contains the term after lower-casing |
| `Blogs.ConsNewestFirst` | lib/firestore-blogs.ts:153 | a blog no older than anything in a newest-first list can go in front of it |
| `Blogs.InsertNewestFirst` | lib/firestore-blogs.ts:153 | inserting into a newest-first list keeps it newest-first and adds exactly that blog |
| `Blogs.SortNewestFirst` | lib/firestore-blogs.ts:153 | the sort orders by `createdAt`, newest first, and is a permutation of its input |
| `Blogs.GetAllBlogs` | lib/firestore-blogs.ts:117-193 | `total` counts every listed blog, whatever the offset and limit, and with no search it counts every blog; the page is never longer than `total` |
| `Blogs.SearchListsExactlyMatches` | lib/firestore-blogs.ts:126-153 | a search lists newest first exactly the read blogs that match the term, each as often as it is stored |
| `Blogs.EmptyTermMatchesAll` | lib/firestore-blogs.ts:126 | the empty term would match every blog, so sending it down the unfiltered path loses nothing |
| `Blogs.PageIsWindow` | lib/firestore-blogs.ts:155 | the page is the window `[offset, offset + limit)` of the listing, cut at its end. It has at most `limit` blogs and is newest first. |
| `Blogs.PageLength` | lib/firestore-blogs.ts:155 | for a non-negative offset and limit a page is empty past the end of the listing, full while the listing lasts, and holds the remainder on the last page |
| `Blogs.GetBlog` | lib/firestore-blogs.ts:49-78 | a lookup finds nothing exactly when no blog has the id; otherwise it returns the read form of a blog with that id |
| `Blogs.GetBlogOfUnique` | lib/firestore-blogs.ts:49-73 | with unique ids the lookup returns that very blog |
| `Blogs.UserOwnsBlog` | lib/firestore-blogs.ts:269-276 | ownership holds exactly when the read succeeds, the user id is non-empty, and a blog with that id exists whose `userId` is the given id; a failed read gives false |
| `Blogs.NewBlog` | lib/firestore-blogs.ts:21-44 | a created blog carries every field of the given data (owner, title, content, query, image link, address, user agent and metadata) under the new id, with both timestamps set to the creation time |
| `Blogs.ApplyPatch` | lib/firestore-blogs.ts:231-241 | an update overwrites exactly the fields it names and stamps `updatedAt`; id, owner, query, address, user agent and `createdAt` are kept |
| `Blogs.Patched` | lib/firestore-blogs.ts:238-241 | the update changes the blog with that id and no other |
| `Blogs.PatchedKeepsIds` | lib/firestore-blogs.ts:238-241 | an update keeps every id, so ids stay unique and the same ids are present |
| `Blogs.PatchEach` | lib/firestore-blogs.ts:238-241 | the loop over the collection computes exactly `Patched` |
| `Blogs.ClaimAll` | lib/firestore-blogs.ts:299-305 | the claim batch rewrites each blog by the single-blog claim rule, keeping the order |
| `Blogs.ClaimKeepsIds` | lib/firestore-blogs.ts:299-305 | claiming keeps ids unique |
| `Blogs.ClaimTransfersCount` | lib/firestore-blogs.ts:290-312 | after a claim the user owns exactly as many more blogs as there were claimable ones |
| `Blogs.ClaimLeavesNothing` | lib/firestore-blogs.ts:290-305 | after a claim no blog from that address is left unowned |
| `Blogs.Without` | lib/firestore-blogs.ts:257-264 | deleting removes exactly the blogs with that id |
| `Blogs.WithoutOne` | lib/firestore-blogs.ts:257-264 | deleting from a one-blog collection keeps the blog exactly when its id differs |
| `Blogs.WithoutSnoc` | lib/firestore-blogs.ts:257-264 | a blog appended to the collection survives a delete at the end exactly when its id differs |
| `Blogs.WithoutKeepsOrder` | lib/firestore-blogs.ts:257-264 | deleting from a concatenation deletes from each part, so the blogs that stay keep their order |
| `Blogs.WithoutKeepsUnique` | lib/firestore-blogs.ts:259 | deleting keeps ids unique |
| `Blogs.BlogStore.CreateBlog` | lib/firestore-blogs.ts:21-44 | a successful write appends the new blog and returns it; a failed one changes nothing |
| `Blogs.BlogStore.UpdateBlog` | lib/firestore-blogs.ts:231-252 | the update lands exactly when the write succeeds and the blog exists, and then the collection is patched; otherwise nothing changes. A blog is returned exactly when the update lands and the read-back succeeds, and it is the re-read blog. A landed update whose read-back fails still fails the call. |
| `Blogs.BlogStore.DeleteBlog` | lib/firestore-blogs.ts:257-264 | a successful delete removes exactly that id; a failed one changes nothing |
| `Blogs.BlogStore.ClaimUnsignedBlogs` | lib/firestore-blogs.ts:282-317 | with no address the claim returns 0 and changes nothing, and a failing store changes nothing either. Otherwise every blog with no owner from that address gets the user, and the call returns how many there were. |
| `BlogsApi.Summarize` | app/api/blogs/route.ts:15-22 | a listed item carries only id, title, content, query, `createdAt` and image link |
| `BlogsApi.Summaries` | app/api/blogs/route.ts:15-22 | the projection summarizes every blog on the page, in order |
| `BlogsApi.Offset` | app/api/blogs/route.ts:10 | the offset is never negative for a positive page, and it is 0 on page 1 |
| `BlogsApi.PageCount` | app/api/blogs/route.ts:27 | for a positive limit the page count is the least number of pages that hold every blog, and it is 0 exactly when there are none; a zero limit gives no number |
| `BlogsApi.ListBlogs` | app/api/blogs/route.ts:3-37 | page defaults to 1 and limit to 12, and an empty search becomes no search. A working store always answers with a listing: the items are the projected page and the pagination echoes total, page, limit and the page count. A store failure, and only that, answers 500. |
| `BlogsApi.DefaultsListFirstTwelve` | app/api/blogs/route.ts:6-12 | a bare request lists the first twelve blogs of the whole collection and reports its size |
| `BlogsApi.EveryBlogIsOnAPage` | app/api/blogs/route.ts:10-27 | every listed blog appears on some page between 1 and the reported page count |
| `BlogsApi.PageArithmetic` | app/api/blogs/route.ts:10-27 | for a positive limit, every position below the total falls on some page from 1 to the page count, at a slot below the limit, where the page's offset plus the slot gives the position |
| `BlogsPage.PrevPage` | app/blogs/page.tsx:159 | Previous goes to `max(1, page - 1)` |
| `BlogsPage.NextPage` | app/blogs/page.tsx:218 | Next goes to `min(totalPages, page + 1)` |
| `BlogsPage.PageButtons` | app/blogs/page.tsx:182-184 | the buttons are `1 .. min(5, totalPages)` |
| `BlogsPage.Request` | app/blogs/page.tsx:44-48 | the request sends the page and limit 12, and the search exactly when it is non-empty |
| `BlogsPage.ClampsStopAtTheEnds` | app/blogs/page.tsx:158-219 | Previous on page 1 and Next on the last page stay put |
| `BlogsPage.ClampsKeepPageInRange` | app/blogs/page.tsx:158-219 | from a page in range, Previous and Next stay in range and move by at most one |
| `BlogsPage.ButtonsAndEllipsis` | app/blogs/page.tsx:182-215 | every button names an existing page, with five or fewer pages every page has a button, and the ellipsis shows exactly when pages are left without buttons |
| `BlogsPage.RequestRoundTrip` | app/blogs/page.tsx:44-60 | the listing route answers the page's request with that page, the limit 12 and the page count of its total |
| `BlogsPage.LibraryPage.constructor` | app/blogs/page.tsx:29-35 | the page starts on page 1 of 1, loading, with no search and no error |
| `BlogsPage.LibraryPage.TypeSearch` | app/blogs/page.tsx:92 | typing changes only the search box |
| `BlogsPage.LibraryPage.HandleSearch` | app/blogs/page.tsx:71-75 | submitting copies the box into the search and resets to page 1 |
| `BlogsPage.LibraryPage.Previous` | app/blogs/page.tsx:159 | only the page changes, to `PrevPage` |
| `BlogsPage.LibraryPage.Next` | app/blogs/page.tsx:218 | only the page changes, to `NextPage` |
| `BlogsPage.LibraryPage.SelectPage` | app/blogs/page.tsx:188 | a numbered button sets that page, which is in range |
| `BlogsPage.LibraryPage.StartFetch` | app/blogs/page.tsx:40-48 | a fetch starts loading, clears the error and sends `Request(page, search)` |
| `BlogsPage.LibraryPage.FinishFetch` | app/blogs/page.tsx:50-65 | a listing replaces the blogs and the page count. A non-OK response shows `Failed to fetch blogs`. A rejected `fetch` shows its error's message, or `Failed to load blogs` when what was thrown is not an `Error`. Each failure keeps the blogs and the page count, and loading ends in every case. |
| `BlogCard.StripMarkup` | components/BlogCard.tsx:18 | stripping removes every `#`, `*`, `[`, `]`, `(` and `)` and keeps every other character, as often as it occurred |
| `BlogCard.StripOne` | components/BlogCard.tsx:18 | a single character is removed exactly when it is a markup character |
| `BlogCard.StripAppend` | components/BlogCard.tsx:18 | stripping a concatenation strips each part and concatenates the results, so with `StripOne` the kept characters stay in their original order |
| `BlogCard.CardFor` | components/BlogCard.tsx:16-18 | the reading time is computed on the raw content and is at least 1 |
| `BlogCard.TruncateAddsNoMarkup` | components/BlogCard.tsx:18 | truncating text free of markup characters keeps it free of them |
| `BlogCard.PreviewShape` | components/BlogCard.tsx:18 | the preview has no markup characters and at most 153 characters, and it equals the stripped text when that has at most 150 |
| `BlogCard.StripIdempotent` | components/BlogCard.tsx:18 | stripping twice is stripping once |
| `BlogEditor.InsertMarkdown` | components/BlogEditor.tsx:28-50 | without a textarea nothing happens. Otherwise the new content is the splice and the new selection starts after `before`. The selection spans the originally selected text. |
| `BlogEditor.SpliceShape` | components/BlogEditor.tsx:32-40 | the splice is prefix, `before`, selection, `after`, suffix; it grows by exactly the two markers; prefix, suffix and selected text are preserved in place |
| `BlogEditor.EditorStats` | components/BlogEditor.tsx:85-86 | the word count is at least 1, and it is the number of words of the trimmed text; the character count is the length |
| `Headers.ForwardedAddressIsFirstHop` | app/api/generate/route.ts:14-17 | a non-empty `x-forwarded-for` gives its first comma-separated entry, trimmed |
| `Headers.RealIpIsTheFallback` | app/api/generate/route.ts:18-26 | otherwise a non-empty `x-real-ip` is used, else no address; a failure reading the headers gives no address |
| `Generate.IsContentSafe` | app/api/generate/route.ts:40-77 | the loop over the patterns decides as `SafetyVerdict` does |
| `Generate.PolicyBeforeLength` | app/api/generate/route.ts:59-66 | any pattern match makes the query unsafe for the policy reason, whatever its length |
| `Generate.SafeIffNeitherRule` | app/api/generate/route.ts:59-76 | a query is safe exactly when no pattern matches and its trimmed length is at least 3; it gets the detail reason exactly when no pattern matches and the trimmed length is under 3 |
| `Generate.OrNull` | app/api/generate/route.ts:125 | `userId \|\| null` is null exactly for a missing or empty id |
| `Generate.InitialBlog` | app/api/generate/route.ts:124-135 | the placeholder is titled `Generating...` with empty content, zero metadata and the caller's id or null |
| `Generate.InvalidQueryIsRefusedFirst` | app/api/generate/route.ts:83-88 | a missing, non-string or blank query is refused with 400 before anything else, and nothing is stored |
| `Generate.EarlyRefusalsUseNoQuota` | app/api/generate/route.ts:83-116 | an invalid query, an unsafe query (400) or a missing API key (500) is refused before the rate limiter, so no quota is used and nothing is stored |
| `Generate.AcceptedCreatesPlaceholder` | app/api/generate/route.ts:118-158 | an accepted request passed every guard. It answers the new id, appends exactly the placeholder blog and charges the limiter. |
| `Generate.FailedCreateStillUsesQuota` | app/api/generate/route.ts:106-142 | when the placeholder cannot be created the answer is 500, yet the window's count has still gone up by one |
| `Generate.DeniedRequestIsTooMany` | app/api/generate/route.ts:106-116 | a request over its limit is answered 429 with a reset time, and nothing is counted or stored |
| `Generate.SavedPromptIsUsed` | app/api/generate/route.ts:184-189 | a signed-in user's saved prompt is used when the request brings none |
| `Generate.RequestPromptWins` | app/api/generate/route.ts:181 | a prompt sent with the request is used, whatever is stored |
| `Generate.StoredPromptPrecedence` | app/api/generate/route.ts:181-197 | without a request prompt, the stored one is used exactly when there is a user and the read gives a non-empty prompt; a failed read or no user gives the default |
| `Generate.LimitErrorClassification` | app/api/generate/route.ts:306-312 | a model error is a limit error exactly when its status is 429 or 503 or its lower-cased message contains `rate limit`, `quota` or `overloaded`; with no message only the status counts |
| `Generate.LimitErrorIgnoresCase` | app/api/generate/route.ts:306 | the classification does not depend on the message's case |
| `Generate.StreamedTextIsStored` | app/api/generate/route.ts:295-367 | a successful stream stores the whole text, titled by its first `# ` line, with the image link and the text's length and word count |
| `Generate.OtherErrorStoresEmptyBody` | app/api/generate/route.ts:330-367 | any other model error stores an empty body titled `Generation Failed`, with word count 1 |
| `Generate.LimitErrorStoresNotice` | app/api/generate/route.ts:314-328 | a limit error's update sets zero counts and the error tag, and leaves the image field untouched |
| `Generate.PickPrompt` | app/api/generate/route.ts:180-197 | the reassignments of `promptToUse` choose exactly `ChoosePrompt` |
| `Generate.CollectChunks` | app/api/generate/route.ts:296-298 | the loop accumulates the concatenation of the chunks |
| `Generate.BuildPatch` | app/api/generate/route.ts:278-333 | the stream handling builds exactly `ResultPatch` |
| `Generate.WriteResult` | app/api/generate/route.ts:358-379 | the collection ends as `AfterGeneration` says. The first update lands when it can. The failure notice is tried whenever that call throws, including after a landed write whose read-back failed. A blog that is gone is never recreated. |
| `Generate.GenerationTouchesOnlyItsBlog` | app/api/generate/route.ts:358-379 | the job's writes keep the collection's length and every id, and leave every other blog unchanged |
| `Generate.ReadBackFailureShowsNotice` | app/api/generate/route.ts:358-379 | when the first update lands but its read-back fails and the notice lands, the blog shows the failure title and text over the generated ones, keeping the first update's image link and metadata |
| `Generate.GenerateBlogContent` | app/api/generate/route.ts:171-380 | the background job picks `ChoosePrompt` and leaves the collection as `AfterGeneration` of `ResultPatch` says |
| `GenerateImage.NewlinesToSpaces` | app/api/generate-image/route.ts:24 | every line break becomes a space, every other character stays in place, and the length is kept |
| `GenerateImage.EnhancedPrompt` | app/api/generate-image/route.ts:15-24 | the enhanced prompt contains no line break |
| `GenerateImage.Seed` | app/api/generate-image/route.ts:28-32 | the seed lies in `[0, 1000000)` |
| `GenerateImage.ComputeSeed` | app/api/generate-image/route.ts:28-32 | the loop sums the UTF-16 code units and reduces the sum, giving `Seed` |
| `GenerateImage.Post` | app/api/generate-image/route.ts:3-51 | the route answers `Respond` |
| `GenerateImage.SumAppend` | app/api/generate-image/route.ts:29-31 | the code-unit sum of a concatenation is the sum of the parts' sums |
| `GenerateImage.SumOfPermutation` | app/api/generate-image/route.ts:28-31 | rearranging the characters keeps the code-unit sum |
| `GenerateImage.SeedIgnoresOrder` | app/api/generate-image/route.ts:28-32 | prompts that are permutations of each other get the same seed; the route does not promise this, and it follows from seeding with a sum of code units |
| `GenerateImage.LinkCarriesSizeAndSeed` | app/api/generate-image/route.ts:7-34 | an invalid prompt is refused with 400. A valid one gets the image link for its encoded enhanced prompt, with `width=1280`, `height=720` and the decimal digits of its seed. |
| `RateLimit.CheckWindow` | lib/rate-limit.ts:62-107 | a window check allows exactly below the limit. The reported reset time is the stored one, or `now` plus the window for a new window. A denial writes nothing, reports 0 remaining and carries the denial message for that reset time. An allowance writes into this window only: `count + 1`, the owner, the kept first-request time, `now` as the last request and the reset time. It reports `limit - count - 1` remaining. |
| `RateLimit.DeniedExactlyAtLimit` | lib/rate-limit.ts:81-88 | with a working store a request is denied exactly when the stored count has reached the limit; a denial writes nothing; an allowance writes `count + 1` and leaves every other window alone |
| `RateLimit.AllowedCountsOne` | lib/rate-limit.ts:90-101 | below the limit the request is allowed and the stored count grows by one |
| `RateLimit.RemainingInRange` | lib/rate-limit.ts:103-107 | an allowed request reports a remaining count in `[0, limit)` |
| `RateLimit.StoreFailureFailsOpen` | lib/rate-limit.ts:39-48 | a failing store lets the request through with remaining -1 and the failure message, writing nothing |
| `RateLimit.NoAddressIsNotCounted` | lib/rate-limit.ts:52-60 | an anonymous request with no address is allowed with 5 remaining and nothing written |
| `RateLimit.IncrementKeepsWindowTimes` | lib/rate-limit.ts:73-101 | an increment keeps the stored first-request and reset times and records the request time |
| `RateLimit.FreshWindowCountsUp` | lib/rate-limit.ts:90-101 | starting from a fresh window, n allowed requests, up to the limit, leave a count of n |
| `RateLimit.LimitPlusOneIsDenied` | lib/rate-limit.ts:69-88 | after `limit` requests in a fresh window the next one is denied; the limit is 5 for an address and 50 for a user |
| `RateLimit.RateLimiter.CheckRateLimit` | lib/rate-limit.ts:30-49 | the result and the new counters are those of `Check` |
| `RateLimit.RateLimiter.CheckLimit` | lib/rate-limit.ts:110-157 | the result and the new counters are those of `CheckWindow` |
| `Prompts.Saved` | lib/firestore-prompts.ts:13-30 | saving sets the user's document to the prompt and the save time and leaves every other document alone |
| `Prompts.Removed` | lib/firestore-prompts.ts:53-60 | deleting removes exactly the user's document |
| `Prompts.Lookup` | lib/firestore-prompts.ts:35-48 | reading never gives an empty prompt |
| `Prompts.ReadAfterSave` | lib/firestore-prompts.ts:13-43 | a saved non-empty prompt reads back; a saved empty one reads as null |
| `Prompts.ReadAfterDelete` | lib/firestore-prompts.ts:39-41 | a deleted or absent user's prompt reads as null |
| `Prompts.OtherUsersUntouched` | lib/firestore-prompts.ts:16-17 | saving or deleting for one user leaves every other user's prompt as it was |
| `Prompts.SaveReplaces` | lib/firestore-prompts.ts:18-25 | saving again replaces the earlier prompt entirely |
| `Prompts.PromptStore.SaveCustomPrompt` | lib/firestore-prompts.ts:13-30 | a successful save changes the map as `Saved` says; a failed one changes nothing |
| `Prompts.PromptStore.GetCustomPrompt` | lib/firestore-prompts.ts:35-48 | a read gives `Lookup` of the map, or a failure |
| `Prompts.PromptStore.DeleteCustomPrompt` | lib/firestore-prompts.ts:53-60 | a successful delete changes the map as `Removed` says; a failed one changes nothing |
| `CustomPromptApi.UserIdIsCheckedFirst` | app/api/custom-prompt/route.ts:10-15 | every handler refuses a missing `userId` with 400 and changes nothing |
| `CustomPromptApi.BlankPromptIsRefused` | app/api/custom-prompt/route.ts:44-49 | with a user id, a non-string or blank prompt is refused with 400 before the store is tried |
| `CustomPromptApi.PostThenGet` | app/api/custom-prompt/route.ts:51-56 | a saved prompt is echoed back, and a later `GET` returns it |
| `CustomPromptApi.DeleteThenGet` | app/api/custom-prompt/route.ts:79 | after a `DELETE` the user's prompt reads as null and other users keep theirs |
| `CustomPromptApi.StoreFailuresAre500` | app/api/custom-prompt/route.ts:23-29 | with a user id, a store failure changes nothing; `GET` and `DELETE` answer 500, and `POST` answers 500 unless its prompt was already refused with 400 |
| `CustomPromptApi.HandleGet` | app/api/custom-prompt/route.ts:5-30 | `GET` answers `Get` of the store |
| `CustomPromptApi.HandlePost` | app/api/custom-prompt/route.ts:32-64 | `POST` answers and changes the store as `Post` says |
| `CustomPromptApi.HandleDelete` | app/api/custom-prompt/route.ts:66-92 | `DELETE` answers and changes the store as `Delete` says |
| `ClaimApi.MissingUserIsRefusedFirst` | app/api/claim-blogs/route.ts:27-32 | a missing user id is refused with 400 whatever the headers say, and nothing is claimed |
| `ClaimApi.NoAddressClaimsNothing` | app/api/claim-blogs/route.ts:36-44 | for a signed-in caller the answer is 400 with `claimedCount` 0 exactly when the headers yield no address or an empty one, and then nothing is claimed. Unreadable headers, and headers that are both missing or empty, are such cases. |
| `ClaimApi.ReportedCountIsTransferred` | app/api/claim-blogs/route.ts:46-51 | the reported count is exactly how many more blogs the user owns afterwards, and nothing claimable from that address is left |
| `ClaimApi.MessageFollowsCount` | app/api/claim-blogs/route.ts:52-54 | the message takes the success form exactly when the count is positive, and then names the count in decimal |
| `ClaimApi.HandleClaim` | app/api/claim-blogs/route.ts:22-65 | the route answers and changes the store as `Claim` says |
| `FunFacts.GetRotatingFunFact` | lib/fun-facts.ts:63-65 | for a non-negative index the result is always a fact from the list |
| `FunFacts.FactsAreThere` | lib/fun-facts.ts:2-55 | the list holds 41 facts |
| `FunFacts.FirstRoundInOrder` | lib/fun-facts.ts:64 | indices below the length give the facts in order |
| `FunFacts.RotationIsPeriodic` | lib/fun-facts.ts:64 | adding the length to a non-negative index gives the same fact |
| `FunFacts.NegativeIndexShowsNothing` | lib/fun-facts.ts:64 | a negative index that is not a multiple of the length reads before the start of the list and gives `undefined` |
| `Signup.MismatchStopsFirst` | app/auth/signup/page.tsx:23-26 | mismatched passwords show `Passwords do not match`, checked before the length, and no account is requested |
| `Signup.ShortPasswordStops` | app/auth/signup/page.tsx:28-31 | matching passwords under 6 characters show the length error, and no account is requested |
| `Signup.SuccessRedirectsHome` | app/auth/signup/page.tsx:33-51 | valid passwords make exactly one sign-up call with the form's email and password. Success then clears the error, claims for the new user and redirects home. A failed claim request changes none of this. |
| `Signup.FailureStaysOnPage` | app/auth/signup/page.tsx:52-56 | a failed sign-up shows the error's message or a generic one, claims nothing and does not redirect |
| `Signup.SignupPage.constructor` | app/auth/signup/page.tsx:12-16 | the form starts empty, not loading, with no calls made |
| `Signup.SignupPage.Type` | app/auth/signup/page.tsx:12-14 | typing changes only the three fields |
| `Signup.SignupPage.HandleSignup` | app/auth/signup/page.tsx:18-57 | the handler clears the error and then updates the state step by step, ending in the form `Submit` describes |

## Left out

- Firestore itself is not modelled. Collections are maps or sequences. Each read, write, batch or transaction is one step whose success is a boolean parameter. Server timestamps are the `now` parameter.
- Concurrency is not modelled. Clients and requests act one at a time. The race between the rate limiter's read and its write is absent, and so are the gaps in the leave sequence (write, re-read, delete).
- `Collab.Tick` fires one due timer per call. The timer with the earlier deadline fires first; on a tie the update slot fires first. Its write completes inside that call. There is no in-flight window in which another event could interleave with an awaited write.
- `Blogs.BlogPatch` carries only the four fields the callers write (title, content, image link, metadata). The `Partial<Blog>` type of `updateBlog` would also allow other fields, but every caller writes a subset of these four.
- `Collab.Leave` models `leaveRoom` and the unmount cleanup of the effect together, since their store steps are the same.
- Random room ids and `getRandomFunFact` are left out; the room id is a parameter.
- The date and hour bucket keys of the rate limiter are abstract window buckets passed in. The same holds for ISO date formatting and `formatDate`.
- The six harmful-pattern regular expressions are a parameter: a sequence of predicates on the lower-cased query.
- `encodeURIComponent` is a parameter of the image route.
- The default system prompt's text is not copied. It is the `DefaultPrompt` value.
- The model streaming and the image fetch are inputs. The stream is either a sequence of chunks or an error with a status and a message. The image is an optional link. `GenerateBlogContent` covers the fetch's outcomes, but not a `200` reply that has no `imageUrl`.
- The limit-error metadata's `timestamp` field (app/api/generate/route.ts:324) is left out of the stored metadata.
- Request bodies that are not JSON, which would reach each route's outer `catch` and get 500, are not modelled. Only the documented fields of a parsed body are modelled.
- `userId` fields are optional strings. A truthy `userId` that is not a string is left out.
- Query parameters are optional integers. The `NaN` that `parseInt` gives for a non-numeric `page` or `limit` is left out.
- The unfiltered Firestore query is `orderBy('createdAt', 'desc')`, which drops documents without `createdAt`. The model takes every document to have one.
- The model fixes no order among blogs with equal `createdAt`. Their order in the listing is not stated.
- An undefined `blogId` makes `setDoc` reject in the room route. The model has only a failing write for this.
- Strings are sequences of UTF-16 code units with no surrogate pairs, so characters beyond the Basic Multilingual Plane are left out.
- `toLowerCase` is modelled for ASCII letters only.
- JavaScript whitespace in `trim` and `/\s+/` is the ECMAScript set of white-space and line-terminator characters.
- `GetRotatingFunFact` is defined on whole-number indices only. A fractional JavaScript index is left out.
- Logging, the pure UI and markup pages, authentication wrappers, the custom-prompt modal and the compiled JavaScript of the sweep are left out.
- The sign-up page's `error` message for a thrown non-`Error` value is the generic text. That case is covered by `SignupThrew(None)`.
- A few details of the code that a reader might not expect, which the model keeps as written:
  - A snapshot is suppressed until strictly more than 300 ms have passed (`> 300`). One exactly 300 ms after the edit is ignored.
  - Leaving sets the user's cursor entry to null rather than deleting it. Snapshots then drop the null entry.
  - The sweep deletes a room only when `updatedAt` is strictly earlier than one hour ago.
  - The room route takes `blogId`, `content` and `title` from the request body.

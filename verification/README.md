# RPCN in Dafny

RPCN is a match server for PS3 games: players log in, open and search rooms, get matched,
post scores, keep friends and receive signed tickets. This project models the parts of the
server that hold shared state or exact formats and proves what they keep over every input and
every run. `dafny verify dfyconfig.toml` checks all of it.

Each component has a value model (functions on immutable states) about which the properties are
proved, and, where the server changes things in place, a class whose methods are proved to do what
the value model says. Runs are traces: a sequence of states in which each state follows from the
one before by one command, so nothing is assumed about the states in between.

* `ScoreRanking`, `ScoreRuns`, `ScoreCache`: the bounded ranking cache against the full score table.
* `RoomModel`, `RoomInvariants`, `RoomGroups`, `RoomRuns`, `RoomObject`: one Matching2 room.
* `Rooms`, `ManagerRuns`, `RoomManager`, `JoinNotices`, `RoomSearch`: all Matching2 rooms, their
  indexes, who is told about a join, and room search.
* `GuiRooms`, `GuiInvariants`, `GuiRuns`, `GuiQuickmatch`, `GuiRoomManager`: the older GUI rooms
  with quickmatch.
* `Sessions`, `SessionInvariants`, `SessionRuns`, `GameTracker`: logins, commands, resets and
  cleanups of many connections in any interleaving, over both room managers and the counters.
* `Friends`, `FriendRuns`, `FriendServer`: stored friendships and cached friend lists.
* `Ticket`, `StreamExtractor`: the ticket encoding and the packet reader.
* `Prelude`: shared helpers.

## Where the code does not do what is promised

For each of these one lemma shows the failing inputs and another gives the exact condition.

* The score cache misses the true ranking after a submission for a cached key falls behind a row
  the cache has dropped (`ScoreRuns.RepeatedScoreBreaksTheCache`, `ScoreRuns.AlwaysExactIff`).
* Rows loaded at start-up are not in the cache's own order when score and timestamp tie
  (`ScoreCache.TiedRowsLoadOutOfOrder`, `ScoreCache.LoadedIsRankedIff`).
* A label-less room group is said to take the newcomer's label; the code does not set it, and a join
  can then reach the unreachable branch of the slot search
  (`RoomRuns.StrangersPanicInANewRoom`, `RoomGroups.JoinPanicsIff`).
* A join whose member data is malformed is refused after its slot was taken, and the slot stays
  taken (`RoomRuns.MalformedJoinLosesASlot`, `RoomRuns.LosslessIff`).
* A direct join can fill a quickmatch room without closing it, and the next quickmatch overfills it
  (`GuiRuns.FilledRoomOverflows`, `GuiRuns.RunWithinIff`).
* Quickmatch and search-join take the owner flag from an owner they send into their own room
  (`GuiQuickmatch.AskingTwiceLosesTheRoom`, `GuiRuns.RunOwnedIff`).
* Overlapping friend commands about one pair can leave stale cached friends
  (`FriendRuns.OverlapLeavesStaleFriends`, `FriendRuns.RunAgreesIff`).
* Ticket length fields wrap at 64 KiB (`Ticket.FullBinaryLooksEmpty`, `Ticket.WritesLenPlusFourIff`).

## Modelling decisions

* Requests are datatypes. A small integer that fails verification is `None`, and nested fields that
  are only validated are a flag. Network messages, clocks and random draws are parameters or
  results: a drawn heir, the room a search came upon in a hash set, the time of an insertion.
* Hash maps hold rooms by value in the source, so the managers hold values too; a command works on
  one room object and puts the result back.
* Two inputs on which the server panics at once are preconditions: a password setting for group 0
  and a start rank of 0. Other panics are modelled as outcomes: an absent hub, a full label-less
  group, a binary filter with an unsupported operator, a failed assertion.
* The session model takes every lock acquisition as one atomic step. Login keeps the client table's
  write lock from its first check to its end, and a disconnect comes between commands or where a
  reset waits for a notification to go out.
* A session whose quickmatch or search-join comes upon a room it is in fails an assertion; its task
  ends there, which is a disconnect like any other.
* Integers are unbounded except where a width matters: ticket lengths (16 and 32 bits), saturating
  rank bounds (32 bits), flags and masks (bit-vectors), group ids and counts, the 4-bit member counter.

## Model

| member | source | states |
|---|---|---|
| `ScoreRanking.SortingUnique` | src/server/score_cache.rs:171-184 | A table of scores has at most one ranking under the cache's comparison. |
| `ScoreRanking.SortingExists` | src/server/score_cache.rs:171-184 | Every table without tied rows has a ranking. |
| `ScoreRanking.RecordRow` | src/server/score_cache.rs:256-270 | An upsert, read as a map from (user, character), puts the new row under its key and leaves every other key alone. |
| `ScoreRanking.RecordRanked` | src/server/score_cache.rs:256-270 | An upsert keeps the rows strictly sorted with one row a key. |
| `ScoreRanking.RecordSorting` | src/server/score_cache.rs:256-270 | Upserting into the ranking of a table gives the ranking of the upserted table. |
| `ScoreRanking.PositionSplits` | src/server/score_cache.rs:267-269 | The reported insertion point separates the rows that rank before the new one from those after it. |
| `ScoreRanking.BoundedExactIff` | src/server/score_cache.rs:256-296 | One submission keeps the bounded rows equal to the first rank_limit rows of the full ranking exactly when it does not fall behind a row that was dropped. |
| `ScoreRuns.SubmitKeepsInv` | src/server/score_cache.rs:250-298 | One accepted or refused submission keeps the rows ranked, distinct, current and within rank_limit. |
| `ScoreRuns.EveryRunKeepsInv` | src/server/score_cache.rs:250-298 | The same over every run of submissions in any update mode. |
| `ScoreRuns.SubmitExactIff` | src/server/score_cache.rs:250-298 | From an exact cache, a submission leaves it exact if and only if it is not a worsening of a cached row behind a dropped one. |
| `ScoreRuns.AlwaysExactIff` | src/server/score_cache.rs:250-298 | A cache is exact in every state of a run if and only if the run has no such submission: the promise is false in general, and this is its exact condition. |
| `ScoreRuns.ImprovingRunsAreExact` | src/server/database/db_score.rs:202-243 | When every replacement ranks no later than the row it replaces, the cache is the first rank_limit rows of the sorted table throughout the run. |
| `ScoreRuns.NormalUpdateImprovesIff` | src/server/database/db_score.rs:202-243 | Under the normal update rule an accepted replacement ranks no later than the old row exactly when its score differs or its timestamp is not later. |
| `ScoreRuns.RepeatedScoreBreaksTheCache` | src/server/database/db_score.rs:202-243 | A player repeating an equal score later drops behind a player the cache has forgotten: the cache then misses the true first place. |
| `ScoreCache.LoadedIsRankedIff` | src/server/database/db_score.rs:138-166 | Rows loaded by the start-up query are in the cache's order exactly when no two share score and timestamp, because the query and the comparison break that tie in opposite directions. |
| `ScoreCache.LoadedIsExact` | src/server/score_cache.rs:80-99 | A board loaded from a table without such a pair is exact: its rows are the first rank_limit rows of the table's ranking, which is where runs start. |
| `ScoreCache.TiedRowsLoadOutOfOrder` | src/server/database/db_score.rs:138-166 | Two rows of different users that share score and timestamp are always loaded in the wrong order. |
| `ScoreCache.ReindexStart` | src/server/score_cache.rs:274-281 | After removing and inserting a key, every index below the start of the reindexing loop is already right. |
| `ScoreCache.InsertOutcome` | src/server/score_cache.rs:256-297 | Both branches of an insertion amount to the bounded upsert, and the rank tells where the row is. |
| `ScoreCache.ScoreTableCache.constructor` | src/server/score_cache.rs:80-99 | The index built at start-up is the inverse of the loaded rows, whatever their order; the cache is in order exactly when they are ranked. |
| `ScoreCache.ScoreTableCache.InsertScore` | src/server/score_cache.rs:250-298 | Rows become the bounded upsert, the lookup stays their inverse, and the rank is at most rank_limit exactly when the row sits at that place; otherwise the rows are unchanged. |
| `ScoreCache.ScoreTableCache.TakeOut` | src/server/score_cache.rs:256-262 | Removes the row of a cached key and reports where it was. |
| `ScoreCache.ScoreTableCache.Keep` | src/server/score_cache.rs:267-294 | Places the row, reindexes what moved and keeps at most rank_limit rows. |
| `ScoreCache.ScoreTableCache.Reindex` | src/server/score_cache.rs:276-281 | Every row from the start on gets its own index, the rest keep theirs. |
| `ScoreCache.ScoreTableCache.EvictLast` | src/server/score_cache.rs:283-292 | Drops the worst row and its index, nothing else. |
| `ScoreCache.ScoreTableCache.GetScoreRange` | src/server/score_cache.rs:300-337 | The lines of the asked ranks, each showing the row at that rank under its owner's names, with their comments and game infos exactly if asked for, the time of the last insertion and the number of rows. |
| `ScoreCache.ScoreTableCache.GetScoreIds` | src/server/score_cache.rs:339-386 | One line for each asked key: its row at its rank, or the default line exactly when there is no row; comments, game infos, time and total likewise. |
| `ScoreCache.ScoreTableCache.SetGameData` | src/server/score_cache.rs:415-434 | Only the data id of that key's row changes; order and index stay right. |
| `RoomModel.FlagLaws` | src/server/room_manager.rs:1820-1827 | Owner updates with any filter and attribute words never change the FULL bit. |
| `RoomModel.AllocateTakes` | src/server/room_manager.rs:1100-1180 | A granted allocation took exactly the free slot its member id names; a refusal changes nothing. |
| `RoomModel.SegmentUnique` | src/server/room_manager.rs:1106-1128 | The slot segments of two groups never overlap. |
| `RoomInvariants.UsersFit` | src/server/room_manager.rs:1365-1383 | Members on distinct slots are never more than the slots. |
| `RoomInvariants.JoinKeepsInv` | src/server/room_manager.rs:1321-1383 | Every join attempt keeps members on distinct occupied slots, one owner and the FULL bit exact; a success adds exactly the user under an unused member id, anything else adds nobody. |
| `RoomInvariants.LeaveKeepsInv` | src/server/room_manager.rs:1531-1589 | Whatever the succession list and the draw, a departure frees the member's slot, which was occupied, takes out exactly that member, keeps exactly one owner, and ends the room exactly when nobody is left. |
| `RoomInvariants.HeirIsFirstPresent` | src/server/room_manager.rs:1553-1571 | The new owner is the first listed successor still present, else some remaining member. |
| `RoomInvariants.SetInternalKeepsInv` | src/server/room_manager.rs:1805-1862 | The owner's update keeps the invariant and the FULL bit and changes no member, owner or slot. |
| `RoomGroups.GroupSearchIff` | src/server/room_manager.rs:1071-1078 | Inside a group the slot search succeeds exactly while the group's count is below its size. |
| `RoomGroups.PanicsIff` | src/server/room_manager.rs:1100-1157 | The slot search runs into its unreachable branch exactly when no group has the label and the first label-less group it may try is full. |
| `RoomGroups.JoinPanicsIff` | src/server/room_manager.rs:1331-1357 | A join panics exactly when the room is not full, label and password are well sized, and the slot search comes to such a group. |
| `RoomGroups.NextStrangerPanics` | src/server/room_manager.rs:1130-1153 | A label-less group does not keep a newcomer's label: of two joins by strangers, when the first takes the group's last slot the second panics, or is refused as the room is full if that slot was the room's last. |
| `RoomGroups.PanicBreaksCounts` | src/server/room_manager.rs:1148-1151 | A join that panics leaves its group with a member too many in the count. |
| `RoomGroups.JoinKeepsGroups` | src/server/room_manager.rs:1100-1157 | Every join that does not panic keeps each group's count equal to the occupied slots of its segment. |
| `RoomGroups.MemberCounted` | src/server/room_manager.rs:1535-1541 | A group with a member has a positive count, so leaving never wraps it. |
| `RoomGroups.LeaveKeepsGroups` | src/server/room_manager.rs:1534-1543 | Every departure keeps the counts exact. |
| `RoomGroups.FixedLabelsNeverPanic` | src/server/room_manager.rs:1071-1078 | In a room whose labels were all fixed at creation no join panics. |
| `RoomGroups.SetInternalKeepsGroups` | src/server/room_manager.rs:1829-1842 | Password updates keep counts and segments. |
| `RoomRuns.CreatedInv` | src/server/room_manager.rs:1243-1318 | A created room satisfies the invariant with its creator as the only member and owner on slot 1. |
| `RoomRuns.CreatedGroupInv` | src/server/room_manager.rs:1270-1303 | A created group room starts with exact counts. |
| `RoomRuns.StepKeepsInv` | src/server/room_manager.rs:1321-1589 | From a good room every command leads to a good room, no departure crashes, and only the last member's departure ends the room. |
| `RoomRuns.EveryRunKeepsInv` | src/server/room_manager.rs:1243-1589 | Over every run of joins, departures and updates: distinct occupied slots, one owner with the one OWNER flag, never more members than slots, the FULL bit exact for rooms of two or more, and no departure that crashes. |
| `RoomRuns.EveryRunKeepsGroups` | src/server/room_manager.rs:1071-1157 | Over every run of a room with fixed labels, counts are exact and no command reaches the unreachable branch. |
| `RoomRuns.RunGroupsIff` | src/server/room_manager.rs:1071-1157 | Whatever the labels, over every run: counts are exact in all states up to the n-th if and only if none of the first n commands is a join that panics. |
| `RoomRuns.StrangersPanicInANewRoom` | src/server/room_manager.rs:1270-1303 | In a new room of three groups of one slot, the first labelled, the second stranger to join panics although a group is empty. |
| `RoomRuns.IdsNotReusedSoon` | src/server/room_manager.rs:1052-1059 | From creation on, the creator's own member id included, no id is issued twice within 16 consecutive allocations. |
| `RoomRuns.OccupancyConserved` | src/server/room_manager.rs:1358-1367 | In every state of a run the occupied slots are the members plus the slots lost to joins whose member data was malformed. |
| `RoomRuns.LosslessIff` | src/server/room_manager.rs:1358-1367 | The occupied slots are the members' slots exactly as long as no join with malformed member data was granted a slot. |
| `RoomRuns.MalformedJoinLosesASlot` | src/server/room_manager.rs:1358-1367 | Such a join is refused, nobody joins, and one slot more is taken. |
| `RoomRuns.PlainJoinIff` | src/server/room_manager.rs:1061-1069 | In a room without groups and private slots a plain join succeeds exactly while a slot is free. |
| `RoomObject.RoomData.constructor` | src/server/room_manager.rs:421-448 | An object whose fields are those of the given room. |
| `RoomObject.RoomData.OccupySlot` | src/server/room_manager.rs:1052-1059 | Takes the slot and issues the member id made of slot and counter. |
| `RoomObject.RoomData.ReqSlot` | src/server/room_manager.rs:1061-1069 | Takes the lowest free slot of the wanted kind, or refuses when there is none. |
| `RoomObject.RoomData.ReqSpecificSlots` | src/server/room_manager.rs:1071-1078 | Takes the lowest free slot of the segment, or reports that there is none. |
| `RoomObject.RoomData.FreeSlot` | src/server/room_manager.rs:1080-1088 | Succeeds exactly on an occupied slot and frees it. |
| `RoomObject.RoomData.TakeInGroup` | src/server/room_manager.rs:1121-1126 | Counts the member in the group and takes a slot of its segment. |
| `RoomObject.RoomData.FindLabel` | src/server/room_manager.rs:1106-1128 | The first group with the label and the first slot of its segment. |
| `RoomObject.RoomData.FindUnlabelled` | src/server/room_manager.rs:1130-1156 | The first label-less group that may be tried and the first slot of its segment. |
| `RoomObject.RoomData.GetAGroupSlot` | src/server/room_manager.rs:1100-1160 | The group half of the allocation, against the value model whose properties are proved. |
| `RoomObject.RoomData.GetASlot` | src/server/room_manager.rs:1100-1180 | The whole allocation, against the value model. |
| `RoomObject.RoomData.JoinRoom` | src/server/room_manager.rs:1321-1383 | The room's part of a join, against the value model. |
| `RoomObject.RoomData.FindUser` | src/server/room_manager.rs:1090-1098 | The member id of the account, or 0 exactly when it is not in the room. |
| `RoomObject.RoomData.LeaveRoom` | src/server/room_manager.rs:1531-1571 | The room's part of a departure, for some draw among the members, against the value model. |
| `RoomObject.RoomData.PassOn` | src/server/room_manager.rs:1549-1571 | Finds a new owner exactly when members are left. |
| `RoomObject.RoomData.SetRoomData` | src/server/room_manager.rs:1819-1862 | The owner's update, against the value model, with the changes made before a malformed field kept. |
| `RoomObject.RoomData.SetGroupPasswords` | src/server/room_manager.rs:1829-1842 | The loop over the password settings, up to the first malformed group id. |
| `Rooms.CreateRoomKeepsInv` | src/server/room_manager.rs:1221-1318 | Creation adds one room with one member under an id its communication id never used, and keeps every index; a failed creation changes nothing. |
| `Rooms.JoinRoomKeepsInv` | src/server/room_manager.rs:1321-1385 | A join keeps the world, lobby and user indexes equal to a scan of the rooms. |
| `Rooms.LeaveRoomKeepsInv` | src/server/room_manager.rs:1513-1590 | A departure never panics, keeps the indexes, tells exactly the remaining members, and removes the room exactly when its last member leaves, with nobody to tell. |
| `Rooms.SetRoomKeepsInv` | src/server/room_manager.rs:1805-1862 | An update keeps the indexes. |
| `Rooms.CloseKeeps` | src/server/room_manager.rs:1573-1585 | A room that ends is in one index, and is gone from it afterwards. |
| `ManagerRuns.ExecuteKeeps` | src/server/room_manager.rs:1221-1590 | Every command of one user keeps the invariant, changes nobody else's room list and never lowers a room counter. |
| `ManagerRuns.LeaveTakesOut` | src/server/room_manager.rs:1513-1590 | Leaving succeeds exactly for members, and takes exactly that room off the user's list. |
| `ManagerRuns.RunKeepsInv` | src/server/room_manager.rs:1221-1590 | In every state of every run rooms, worlds, lobbies and users agree. |
| `ManagerRuns.RoomIdsNeverReused` | src/server/room_manager.rs:1256-1317 | Within a communication id, of two creations in a run the later gets the larger id. |
| `RoomManager.RoomManager.constructor` | src/server/room_manager.rs:1192-1200 | Starts empty. |
| `RoomManager.RoomManager.CreateRoom` | src/server/room_manager.rs:1243-1318 | Creation in place, against the value model. |
| `RoomManager.RoomManager.Enter` | src/server/room_manager.rs:1221-1231 | Bumps the counter and enters the room everywhere. |
| `RoomManager.RoomManager.JoinRoom` | src/server/room_manager.rs:1321-1511 | Join in place, and for a success the notices every member must get. |
| `RoomManager.RoomManager.LeaveRoom` | src/server/room_manager.rs:1513-1590 | Departure in place; none of its unwraps and assertions can fail. |
| `RoomManager.RoomManager.SetRoom` | src/server/room_manager.rs:1805-1862 | Update in place, only for the owner. |
| `RoomManager.RoomManager.SearchRoom` | src/server/room_manager.rs:1592-1713 | Fails or panics exactly when a room in scope does not decide the request, as that room says, or fails when there is a page to show and an attribute id is malformed; else total is the number of matching rooms found by a scan of all rooms, and the page a slice of a repetition-free enumeration of them. |
| `RoomManager.SearchFindsFewer` | src/server/room_manager.rs:1592-1713 | For the same request the rooms search_room matches are among those search_room_all matches, and whenever the latter succeeds so does the former, with a total that is no larger. |
| `RoomManager.PagesCover` | src/server/room_manager.rs:1629-1645 | Successive pages of one listing put the whole listing back together. |
| `JoinNotices.Build` | src/server/room_manager.rs:1387-1488 | Without signaling everybody gets the plain notice; in a mesh every member is notified and listed under the address kind it shares with the newcomer; in a star only the hub is, the others get the plain notice. |
| `JoinNotices.Spread` | src/server/room_manager.rs:1429-1452 | In a mesh the reply lists each previous member exactly once, with its address of the kind it was notified with. |
| `JoinNotices.EveryoneToldOnce` | src/server/room_manager.rs:1387-1488 | The four recipient sets are disjoint and together are exactly the previous members; only a newcomer that is its own hub is told too. |
| `JoinNotices.HubIsPresentIff` | src/server/room_manager.rs:1453-1457 | The hub lookup succeeds exactly when no hub is named or the named one is a member. |
| `RoomSearch.MatchesAllByFirst` | src/server/room_manager.rs:945-1046 | A room matches when every filter passes; otherwise the first filter that does not decides between no match and a malformed request. |
| `RoomSearch.NarrowInside` | src/server/game_specific_matchmaking.rs:16-52 | Narrowing keeps the midpoint, moves each bound inward by at most 2 and makes the range strictly smaller. |
| `RoomSearch.NarrowingsExact` | src/server/game_specific_matchmaking.rs:16-52 | Above the first dan, repeated narrowing stops after exactly ceil((upper - lower) / 4) steps, at the midpoint. |
| `RoomSearch.AdjustedOnlyBounds` | src/server/game_specific_matchmaking.rs:16-52 | Only the two bounds of the request change. |
| `RoomSearch.LowerBoundOps` | src/server/room_manager.rs:868-899 | A comparison survives lowering its bound exactly for the operators GT and GE. |
| `RoomSearch.UpperBoundOps` | src/server/room_manager.rs:868-899 | A comparison survives raising its bound exactly for the operators LT and LE. |
| `RoomSearch.AdjustedFindsNothingNew` | src/server/game_specific_matchmaking.rs:16-52 | With lower-bound and upper-bound operators on the two filters, every room that matches the adjusted request matches the original. |
| `GuiInvariants.RoomIdInjective` | src/server/gui_room_manager.rs:410-414 | Room ids of different communication ids or room numbers differ. |
| `GuiInvariants.CreateGuiKeeps` | src/server/gui_room_manager.rs:465-473 | Creation keeps every room peopled, the indexes, distinct ids and the slot bound, and one owner a room. |
| `GuiInvariants.JoinGuiKeeps` | src/server/gui_room_manager.rs:475-493 | A join keeps all of that and never fails its assertion. |
| `GuiInvariants.EnterOwnedIff` | src/server/gui_room_manager.rs:422-425 | Entering a room leaves it with one owner exactly unless the owner enters it again. |
| `GuiInvariants.QuickmatchKeepsIff` | src/server/gui_room_manager.rs:427-463 | Quickmatch keeps the indexes whatever room it finds; its assertion fails exactly for a user already inside; and it keeps one owner a room if and only if it does not send an owner into their own room. |
| `GuiInvariants.SearchJoinKeepsIff` | src/server/gui_room_manager.rs:603-622 | The same for search-join. |
| `GuiInvariants.LeaveGuiKeeps` | src/server/gui_room_manager.rs:495-549 | A departure never fails an assertion; the room goes exactly when it emptied or its owner left without passing ownership on, and else keeps exactly the others with one owner. |
| `GuiInvariants.SetFlagKeeps` | src/server/gui_room_manager.rs:642-652 | A search flag update keeps indexes and owners. |
| `GuiInvariants.SetInfoKeeps` | src/server/gui_room_manager.rs:661-669 | So does an update of the attributes. |
| `GuiRuns.PerformKeeps` | src/server/gui_room_manager.rs:427-669 | Every command keeps the indexes, fails an assertion exactly where a search comes upon a room the user is in, and keeps one owner a room exactly unless that room is their own. |
| `GuiRuns.RunKeepsInv` | src/server/gui_room_manager.rs:392-669 | In every state of every run each room has a member, the indexes mirror the rooms, ids are distinct and ordinary rooms with slots are within them; an assertion fails exactly where a search comes upon a room the user is in. |
| `GuiRuns.RunOwnedIff` | src/server/gui_room_manager.rs:422-463 | Over every run: every room has exactly one owner in all states up to the n-th if and only if none of the first n commands is a search that sends an owner into their own room. |
| `GuiRuns.PerformOthers` | src/server/gui_room_manager.rs:520-535 | A command never puts another user into a room. |
| `GuiRuns.LeaveTakesOut` | src/server/gui_room_manager.rs:495-506 | After leaving, the user is in no new room and not in that one. |
| `GuiRuns.PerformWithinIff` | src/server/gui_room_manager.rs:427-463 | A command takes some quickmatch room past its slots if and only if it is a quickmatch, by somebody not in it, that comes upon a full room which is still open. |
| `GuiRuns.RunWithinIff` | src/server/gui_room_manager.rs:427-493 | Over every run: quickmatch rooms are within their slots in all states up to the n-th if and only if none of the first n commands is such a quickmatch. |
| `GuiRuns.PerformFitsIff` | src/server/gui_room_manager.rs:451-458 | A command keeps quickmatch rooms within their slots and closed when full if and only if it is not a direct join that takes the last slot of an open one. |
| `GuiRuns.RunFitsIff` | src/server/gui_room_manager.rs:427-493 | Over every run: quickmatch rooms are within their slots and closed when full in all states up to the n-th if and only if none of the first n commands is such a join. |
| `GuiRuns.OverfillingNeedsAJoin` | src/server/gui_room_manager.rs:475-493 | No run overfills a quickmatch room without a direct join before that took the last slot of an open one. |
| `GuiRuns.FilledRoomOverflows` | src/server/gui_room_manager.rs:427-493 | After such a join a fitting quickmatch puts one member too many into the room. |
| `GuiQuickmatch.CondNumsIsLastValue` | src/server/gui_room_manager.rs:159-172 | The numbers of a new quickmatch room are the values of the last equality conditions on them. |
| `GuiQuickmatch.OneValueEachMatches` | src/server/gui_room_manager.rs:361-382 | A room made for equality conditions with one value a number matches its own request. |
| `GuiQuickmatch.QuickmatchRooms` | src/server/gui_room_manager.rs:427-463 | m different users with one request for n slots end in ceil(m / n) rooms, all full and closed but for at most one, which holds the remaining m mod n. |
| `GuiQuickmatch.RoomsOfTheirOwn` | src/server/gui_room_manager.rs:361-382 | A request that does not match the room it makes, or asks for more than 64 slots, gives every user a room of their own. |
| `GuiQuickmatch.AskingTwiceLosesTheRoom` | src/server/gui_room_manager.rs:422-463 | A user who asks again before anybody else came is sent into their own room: the assertion fails and the room is left without an owner. |
| `GuiRoomManager.GuiRoomManager.constructor` | src/server/gui_room_manager.rs:393-400 | Starts empty, with room number 1. |
| `GuiRoomManager.GuiRoomManager.OpenRoom` | src/server/gui_room_manager.rs:410-425 | Enters a room under a fresh id with its creator as owner. |
| `GuiRoomManager.GuiRoomManager.AddMember` | src/server/gui_room_manager.rs:422-425 | Adds the member and reports what the source asserts. |
| `GuiRoomManager.GuiRoomManager.FromQuickmatch` | src/server/gui_room_manager.rs:143-176 | The loop over the conditions, against the value model. |
| `GuiRoomManager.GuiRoomManager.FindQuickmatch` | src/server/gui_room_manager.rs:428-435 | Finds a matching room of the communication id if and only if there is one. |
| `GuiRoomManager.GuiRoomManager.QuickmatchUser` | src/server/gui_room_manager.rs:427-463 | Quickmatch in place, for the room the search came upon. |
| `GuiRoomManager.GuiRoomManager.CreateRoom` | src/server/gui_room_manager.rs:465-473 | Creation in place. |
| `GuiRoomManager.GuiRoomManager.ApplyAttrs` | src/server/gui_room_manager.rs:134-136 | The loop over the attributes, against the value model. |
| `GuiRoomManager.GuiRoomManager.JoinRoom` | src/server/gui_room_manager.rs:475-493 | Join in place. |
| `GuiRoomManager.GuiRoomManager.SearchJoin` | src/server/gui_room_manager.rs:603-622 | Search-join in place, for the room the search came upon. |
| `GuiRoomManager.GuiRoomManager.DropMembers` | src/server/gui_room_manager.rs:523-525 | Takes everybody off a vanishing room; fails exactly when somebody is unknown. |
| `GuiRoomManager.GuiRoomManager.RemoveRoom` | src/server/gui_room_manager.rs:531-532 | Ends a room; its assertion holds exactly when the room is listed. |
| `GuiRoomManager.GuiRoomManager.LeaveRoom` | src/server/gui_room_manager.rs:495-549 | Departure in place, for the heir that was drawn; no assertion fails. |
| `GuiRoomManager.GuiRoomManager.SetSearchFlag` | src/server/gui_room_manager.rs:642-652 | Only the owner's request, and only of ordinary rooms, changes the flag. |
| `GuiRoomManager.GuiRoomManager.SetRoomInfo` | src/server/gui_room_manager.rs:661-669 | Only the owner's request changes the numbers. |
| `SessionInvariants.PresenceEnlist` | src/server/client/cmd_account.rs:94-178 | A login that found its user neither in the client table nor on cleanup duty is that user's only session. |
| `SessionInvariants.PresenceDisconnect` | src/server/client.rs:374-379 | Going on cleanup duty invalidates no login that is under way. |
| `SessionInvariants.PresenceUnlist` | src/server/client.rs:388-398 | Leaving the client table keeps every other session known. |
| `SessionRuns.EnlistKeeps` | src/server/client/cmd_account.rs:94-178 | A new entry of the client table is in no room. |
| `SessionRuns.RoomCommandKeeps` | src/server/client.rs:457-464 | Room commands and cleanup departures keep every member registered. |
| `SessionRuns.GuiCommandKeeps` | src/server/client.rs:466-474 | The same for GUI rooms, where others can be taken out along with the leaver. |
| `SessionRuns.NextKeeps` | src/server/client.rs:374-486 | Every atomic step of login, commands, reset and cleanup keeps the server's invariant. |
| `SessionRuns.RunKeepsInv` | src/server/client.rs:374-486 | So does every run, whatever the interleaving. |
| `SessionRuns.OneSessionAUser` | src/server/client/cmd_account.rs:94-110 | In every reachable state a user has at most one live or still cleaning session. |
| `SessionRuns.MembersAreRegistered` | src/server/client.rs:374-486 | In every reachable state each member of each room of both managers is in the client table and has a session there. |
| `SessionRuns.OffDutyInNoRoom` | src/server/client.rs:400-404 | Once a user is off cleanup duty no room of either manager contains them. |
| `SessionRuns.ResetInNoRoom` | src/server/client/cmd_misc.rs:240-243 | A live session that reset itself is in no room and in no game. |
| `SessionRuns.CountersExact` | src/server/client.rs:790-806 | The user count is the number of counted sessions, and each game counter the number of sessions in that game, but for sessions between two counter updates; nothing is decremented twice. |
| `SessionRuns.NothingIsLeft` | src/server/client.rs:374-486 | When every connection is over there is no client, duty, room or count left. |
| `GameTracker.GameTracker.constructor` | src/server/game_tracker.rs:21-27 | Starts with no users and no games. |
| `GameTracker.GameTracker.IncreaseNumUsers` | src/server/game_tracker.rs:45-47 | One user more. |
| `GameTracker.GameTracker.DecreaseNumUsers` | src/server/game_tracker.rs:49-51 | One user less. |
| `GameTracker.GameTracker.AddValuePsn` | src/server/game_tracker.rs:53-71 | Adds to that game's counter, created at zero on first use, and to no other. |
| `GameTracker.GameTracker.AddGamenameHint` | src/server/game_tracker.rs:29-43 | A hint is kept exactly for a game that has a counter. |
| `Friends.GetAfterSet` | src/server/database.rs:1268-1318 | A written relation reads back from either side, and no other pair's row changes. |
| `Friends.FriendsAreMutual` | src/server/database.rs:1320-1369 | The friends read at login are exactly those whose row says friend on both sides. |
| `FriendRuns.AddRowMutual` | src/server/client/cmd_friend.rs:29-60 | Adding makes the pair mutual exactly when it accepts a request, and changes no other friendship. |
| `FriendRuns.RemoveRowMutual` | src/server/client/cmd_friend.rs:123-146 | Removing ends the friendship of that pair and no other. |
| `FriendRuns.StepAgreesIff` | src/server/client/cmd_friend.rs:29-80 | Every action, whatever overlaps, keeps cached lists and rows in agreement for all idle pairs if and only if it is not a stale cache update: the last one about its pair, for a row changed since. |
| `FriendRuns.RunAgreesIff` | src/server/client/cmd_friend.rs:29-80 | Over every run of logins, logouts and commands split into their database and cache halves, with any overlap: for all idle pairs cached lists and rows agree in all states up to the n-th if and only if none of the first n steps is stale. |
| `FriendRuns.CachesAreMutual` | src/server/client/cmd_friend.rs:29-80 | So without stale steps the cached list of a user online holds exactly the mutual friends, for every pair no command is busy with, and cached friendship is symmetric. |
| `FriendRuns.SerialRunsAreNeverStale` | src/server/client/cmd_friend.rs:123-170 | A run in which no two commands about one pair overlap has no stale step. |
| `FriendRuns.OverlapLeavesStaleFriends` | src/server/client/cmd_friend.rs:123-170 | Taking a request back while it is being accepted is a possible run whose last step is stale; it leaves both users in each other's lists without being friends. |
| `FriendServer.FriendServer.constructor` | src/server/client.rs:354-372 | Nobody is online at the start. |
| `FriendServer.FriendServer.GetRelStatus` | src/server/database.rs:1268-1292 | Tells an invalid pair, a missing row and the marks of both users apart. |
| `FriendServer.FriendServer.SetRelStatus` | src/server/database.rs:1293-1319 | Replaces the pair's row, and is refused exactly for a user and themselves. |
| `FriendServer.FriendServer.GetRelationships` | src/server/database.rs:1320-1369 | One pass puts every other user on exactly the lists their marks call for, without repetition. |
| `FriendServer.FriendServer.Login` | src/server/client/cmd_account.rs:116-177 | Caches exactly the mutual friends. |
| `FriendServer.FriendServer.Logout` | src/server/client.rs:388-398 | Drops the cache of that user only. |
| `FriendServer.FriendServer.AddFriend` | src/server/client/cmd_friend.rs:8-100 | Row and caches after adding; cached lists stay exactly the mutual friends. |
| `FriendServer.FriendServer.RemoveFriend` | src/server/client/cmd_friend.rs:102-172 | Row and caches after removing; cached lists stay exactly the mutual friends. |
| `Ticket.LenIsSizeModulo` | src/server/client/ticket.rs:33-43 | The length field is the payload's size modulo 65536, at any depth. |
| `Ticket.WritesLenPlusFourIff` | src/server/client/ticket.rs:45-61 | An item is written in len + 4 bytes exactly when its payload is below 64 KiB. |
| `Ticket.FullBinaryLooksEmpty` | src/server/client/ticket.rs:33-61 | A binary of 64 KiB is written in full under a length of zero. |
| `Ticket.ParseEncode` | src/server/client/ticket.rs:45-61 | A written item reads back as itself, whatever follows it. |
| `Ticket.EncodeParse` | src/server/client/ticket.rs:45-61 | Whatever the reader accepts is the encoding of what it returns. |
| `Ticket.SizeFieldIff` | src/server/client/ticket.rs:162-176 | The size field counts the bytes after the 8-byte header exactly when every top-level item fits and the total is below 4 GiB. |
| `Ticket.ReadGeneratedTicket` | src/server/client/ticket.rs:162-176 | A fitting ticket of any nesting depth reads back as itself. |
| `Ticket.TicketsAreInjective` | src/server/client/ticket.rs:162-176 | Two different fitting tickets never share their bytes. |
| `Ticket.Write` | src/server/client/ticket.rs:45-61 | Appends the encoding and nothing else. |
| `Ticket.WritePayload` | src/server/client/ticket.rs:48-60 | Appends the payload and nothing else. |
| `Ticket.WriteAll` | src/server/client/ticket.rs:56-60 | Appends the items in order. |
| `Ticket.GenerateBlob` | src/server/client/ticket.rs:162-176 | Version, size and the items in order. |
| `StreamExtractor.ReadMonotone` | src/server/stream_extractor.rs:36-106 | No read moves the cursor back or clears the error flag. |
| `StreamExtractor.ErrorSticks` | src/server/stream_extractor.rs:36-106 | After an error every further sequence of reads ends with the error set. |
| `StreamExtractor.ReadSound` | src/server/stream_extractor.rs:36-106 | A read without error consumed exactly the encoding of the value it returned. |
| `StreamExtractor.ReadComplete` | src/server/stream_extractor.rs:36-106 | The encoding of a well-formed value reads back as that value. |
| `StreamExtractor.ReadAllSound` | src/server/stream_extractor.rs:36-106 | The same for any sequence of reads. |
| `StreamExtractor.ReadAllComplete` | src/server/stream_extractor.rs:36-106 | An encoded list reads back in full, with no error and the cursor at its end. |
| `StreamExtractor.NoErrorIffEncoded` | src/server/stream_extractor.rs:36-106 | A sequence of reads from the start succeeds if and only if the packet begins with an encoding of such values. |
| `StreamExtractor.Extractor.constructor` | src/server/stream_extractor.rs:25-31 | Starts at the beginning without error. |
| `StreamExtractor.Extractor.Get` | src/server/stream_extractor.rs:36-50 | Reads a little-endian number or sets the error; never out of bounds. |
| `StreamExtractor.Extractor.GetString` | src/server/stream_extractor.rs:51-66 | Reads up to the terminator, with the empty string an error unless allowed. |
| `StreamExtractor.Extractor.GetRawData` | src/server/stream_extractor.rs:67-81 | Reads a length and that many bytes, or sets the error. |
| `StreamExtractor.Extractor.GetComId` | src/server/stream_extractor.rs:82-106 | Accepts exactly nine capitals or digits, an underscore and two digits. |

## Left out

- Protobuf encoding and decoding, TLS, sockets, the UDP helper, SMTP and logging: library calls.
- SQLite: the score table and the friendship rows are maps; connection failures are not modelled.
- TUS variables and data, the HTTP interface, the stat server, configuration and scripts.
- `rematch_pairs` and the matchmaking dialogs built on it: each connection has its own map.
- The map of score tables by communication id and board: one table is modelled, under its lock.
- Attributes of rooms and members that only pass through (external and internal binary attributes,
  member attributes, room messages), `set_roomdata_external`, which also rewrites the searchable
  attributes after creation, and the open and private slot counts
  reported to clients.
- Binary attributes of GUI rooms and the GUI room list; number attributes, flags and membership are
  modelled.
- Ticket counters by service id: they follow the same steps as the game counters.
- Banning and kicking: their checks come before the login lock.
- Ticket signatures and the fields `Ticket::new` puts in: the encoding of any tree is modelled.
- 64-bit wrap-around of room counters and player counters.
- A stored friend status has two flags here; other bits of the byte are not modelled.
- Account deletion, which can take a user out of the friend lists read at login.
- ScoreRuns.EveryRunKeepsInv: assumes that no accepted submission ties with another row in score,
  timestamp and user, because the server panics on such a tie.
- RoomRuns.EveryRunKeepsGroups: is about rooms whose labels are all fixed at creation; for the others
  RoomRuns.RunGroupsIff gives the exact condition.
- RoomManager.RoomManager.SearchRoom: returns room ids; the room data shown for them is not modelled.

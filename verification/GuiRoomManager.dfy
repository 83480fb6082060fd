/** The GUI room manager as the server runs it, its tables changed in place. `View` ties every
    method to the value model of module GuiRooms. */
module GuiRoomManager {
  import opened Prelude
  import opened GuiRooms
  import opened GuiInvariants

  class GuiRoomManager {
    var cur: nat
    var rooms: map<string, GuiRoom>
    var comRooms: map<string, set<string>>
    var userRooms: map<UserId, set<string>>

    function View(): GuiState
      reads this
    {
      GuiState(cur, rooms, comRooms, userRooms)
    }

    constructor ()
      ensures View() == NoGuiRooms
    {
      cur, rooms, comRooms, userRooms := 1, map[], map[], map[];
    }

    // ----- Entering -----

    /** `generate_room_id`, `insert_room` and `add_member_to_room` for the creator of a room. */
    method OpenRoom(room: GuiRoom, userId: UserId) returns (id: string)
      modifies this
      ensures id == RoomIdOf(room.com, old(cur)) && View() == Open(old(View()), room, userId)
    {
      id := RoomIdOf(room.com, cur);
      cur := cur + 1;
      rooms := rooms[id := room];
      comRooms := Add(comRooms, room.com, id);
      rooms := rooms[id := room.(members := room.members[userId := true])];
      userRooms := Add(userRooms, userId, id);
    }

    /** `add_member_to_room` for a newcomer; `added` is what the source asserts. */
    method AddMember(id: string, userId: UserId) returns (added: bool)
      requires id in rooms
      modifies this
      ensures View() == Enter(old(View()), id, userId)
      ensures added <==> !Indexed(old(View()), id, userId)
    {
      rooms := rooms[id := rooms[id].(members := rooms[id].members[userId := false])];
      added := id !in At(userRooms, userId);
      userRooms := Add(userRooms, userId, id);
    }

    /** `from_quickmatch_protobuf`: the equality conditions set the room's numbers, one by one. */
    method FromQuickmatch(com: string, req: Quickmatch) returns (room: GuiRoom)
      ensures room == QuickRoom(com, req)
    {
      var nums: Nums := ZEROS;
      var i := 0;
      while i < |req.conds|
        invariant i <= |req.conds| && CondNums(nums, req.conds[i..]) == CondNums(ZEROS, req.conds)
      {
        var c := req.conds[i];
        assert req.conds[i..][0] == c && req.conds[i..][1..] == req.conds[i + 1..];
        if SetsNumber(c) {
          nums := nums[c.id - 1 := c.value];
        }
        i := i + 1;
      }
      room := GuiRoom(Min(req.availableNum, MAX_SLOTS), 0, true, false, map[], nums, com, true);
    }

    /** The search of `quickmatch_gui` through the communication id's list. */
    method FindQuickmatch(com: string, req: Quickmatch) returns (found: Option<string>)
      requires Mirrored(View())
      ensures MayFind(QuickCandidates(View(), com, req), found)
    {
      hide AllQuickHold, RoomsOk, IdsOk, MembersOk;
      found := None;
      var todo := At(comRooms, com);
      while todo != {}
        invariant todo <= At(comRooms, com)
        invariant forall id :: id in QuickCandidates(View(), com, req) ==> id in todo
      {
        var id :| id in todo;
        assert id in At(comRooms, com) <==> InCom(rooms, com, id);
        if IsQuickmatch(rooms[id], req) {
          return Some(id);
        }
        todo := todo - {id};
      }
    }

    /** `quickmatch_gui`. */
    method QuickmatchUser(com: string, req: Quickmatch, userId: UserId)
      returns (reply: GuiReply, ghost found: Option<string>)
      requires Mirrored(View())
      modifies this
      ensures MayFind(QuickCandidates(old(View()), com, req), found)
      ensures found.Some? ==> found.value in old(rooms)
      ensures (View(), reply) == QuickmatchGui(old(View()), com, req, userId, found)
    {
      hide CondNums, RoomIdOf, Mirrored, Enter, Indexed, IsQuickmatch;
      var pick := FindQuickmatch(com, req);
      found := pick;
      var id;
      if pick.Some? {
        id := pick.value;
        var added := AddMember(id, userId);
        EnterHasRoom(old(View()), id, userId);
        if !added {
          return AssertFailed, found;
        }
      } else {
        var room := FromQuickmatch(com, req);
        id := OpenRoom(room, userId);
      }
      var room := rooms[id];
      if |room.members| == room.total {
        rooms := rooms[id := room.(stealth := true)];
        reply := Entered(id, Others(room, userId));
      } else {
        reply := Waiting(id);
      }
    }

    /** `create_room_gui`. */
    method CreateRoom(com: string, req: GuiCreate, userId: UserId) returns (reply: GuiReply)
      modifies this
      ensures (View(), reply) == CreateGui(old(View()), com, req, userId)
    {
      var nums := ApplyAttrs(ZEROS, req.attrs);
      var total := Min(req.total, MAX_SLOTS);
      var private := Min(Min(req.privateSlots, MAX_SLOTS), total);
      var room := GuiRoom(total, private, req.privilegeGrant, req.stealth, map[], nums, com, false);
      var id := OpenRoom(room, userId);
      reply := Entered(id, {});
    }

    /** The loop over `set_attr`. */
    method ApplyAttrs(start: Nums, attrs: seq<Attr>) returns (nums: Nums)
      ensures nums == SetAttrs(start, attrs)
    {
      nums := start;
      var i := 0;
      while i < |attrs|
        invariant i <= |attrs| && SetAttrs(nums, attrs[i..]) == SetAttrs(start, attrs)
      {
        var a := attrs[i];
        assert attrs[i..][0] == a && attrs[i..][1..] == attrs[i + 1..];
        if a.kind == GAME_NUM && 1 <= a.id <= NUM_ATTRS {
          nums := nums[a.id - 1 := a.num];
        }
        i := i + 1;
      }
    }

    /** `join_room_gui`. */
    method JoinRoom(id: string, userId: UserId) returns (reply: GuiReply)
      modifies this
      ensures (View(), reply) == JoinGui(old(View()), id, userId)
    {
      if id !in rooms {
        return Refusal(RoomMissing);
      }
      if |rooms[id].members| == rooms[id].total {
        return Refusal(RoomFull);
      }
      if userId in rooms[id].members {
        return Refusal(RoomAlreadyJoined);
      }
      var others := Others(rooms[id], userId);
      var added := AddMember(id, userId);
      reply := if added then Entered(id, others) else AssertFailed;
    }

    /** `search_join_gui`. */
    method SearchJoin(com: string, conds: seq<Cond>, userId: UserId)
      returns (reply: GuiReply, ghost found: Option<string>)
      requires Mirrored(View())
      modifies this
      ensures MayFind(SearchCandidates(old(View()), com, conds), found)
      ensures found.Some? ==> found.value in old(rooms)
      ensures (View(), reply) == SearchJoinGui(old(View()), userId, found)
    {
      hide RoomsOk, IdsOk, MembersOk, CondHolds, Indexed, Enter;
      found := None;
      var todo := At(comRooms, com);
      while todo != {}
        invariant View() == old(View()) && todo <= At(comRooms, com)
        invariant forall id :: id in SearchCandidates(View(), com, conds) ==> id in todo
        decreases todo
      {
        var id :| id in todo;
        assert id in At(comRooms, com) <==> InCom(rooms, com, id);
        if IsMatch(rooms[id], conds, true) {
          found := Some(id);
          var others := Others(rooms[id], userId);
          var added := AddMember(id, userId);
          reply := if added then Entered(id, others) else AssertFailed;
          return;
        }
        todo := todo - {id};
      }
      reply := Refusal(NotFound);
    }

    // ----- Leaving -----

    /** The loop that takes everybody out of a room that disappears; `ok` tells that no lookup failed. */
    method DropMembers(users: set<UserId>, id: string) returns (ok: bool)
      modifies this`userRooms
      ensures ok <==> users <= old(userRooms).Keys
      ensures ok ==> userRooms == DropAll(old(userRooms), users, id)
    {
      var todo := users;
      while todo != {}
        invariant todo <= users && users - todo <= old(userRooms).Keys
        invariant userRooms == DropAll(old(userRooms), users - todo, id)
        decreases todo
      {
        var u: UserId :| u in todo;
        if u !in userRooms {
          return false;
        }
        userRooms := userRooms[u := userRooms[u] - {id}];
        todo := todo - {u};
      }
      assert users - todo == users;
      ok := true;
    }

    /** The assertions and removals that end a room. */
    method RemoveRoom(id: string) returns (ok: bool)
      requires id in rooms
      modifies this`rooms, this`comRooms
      ensures ok <==> Listed(old(View()), id)
      ensures View() == if ok then Vanish(old(View()), id) else old(View())
    {
      var com := rooms[id].com;
      ok := id in At(comRooms, com);
      if ok {
        comRooms := Drop(comRooms, com, id);
        rooms := rooms - {id};
      }
    }

    /** `leave_room_gui`. A heir is drawn at random when ownership is passed on. */
    method LeaveRoom(id: string, userId: UserId) returns (reply: GuiReply, ghost heir: UserId)
      requires Mirrored(View())
      modifies this
      ensures MayInherit(old(View()), id, userId, heir)
      ensures (View(), reply) == LeaveGui(old(View()), id, userId, heir)
    {
      hide Mirrored, DropAll, Owned;
      heir := userId;
      if id !in rooms {
        return Refusal(RoomMissing), heir;
      }
      if userId !in rooms[id].members {
        return Refusal(NotFound), heir;
      }
      ghost var s := View();
      MemberFacts(s, id, userId);
      VanishKeeps(s, id);
      var wasOwner := rooms[id].members[userId];
      var room := rooms[id].(members := rooms[id].members - {userId});
      assert room.members.Keys == s.rooms[id].members.Keys - {userId};
      rooms := rooms[id := room];
      userRooms := Drop(userRooms, userId, id);
      if room.members == map[] {
        assert s.rooms[id].members.Keys == room.members.Keys + {userId};
        var listed := RemoveRoom(id);
        assert listed;
        return Departed({}, false, None), heir;
      }
      var left := room.members.Keys;
      assert left != {};
      if wasOwner && !room.privilegeGrant {
        var k :| k in left;
        heir := k;
        var dropped := DropMembers(left, id);
        var listed := RemoveRoom(id);
        assert dropped && listed;
        return Departed(left, true, None), heir;
      }
      if wasOwner {
        var k :| k in left;
        heir := k;
        rooms := rooms[id := room.(members := room.members[k := true])];
        assert rooms == s.rooms[id := rooms[id]];
        return Departed(left, false, Some(k)), heir;
      }
      reply := Departed(left, false, None);
    }

    // ----- The owner's updates -----

    /** `set_search_flag`. */
    method SetSearchFlag(id: string, stealth: bool, userId: UserId) returns (reply: GuiReply)
      modifies this`rooms
      ensures (View(), reply) == SetFlagGui(old(View()), id, stealth, userId)
    {
      var error := OwnerCheck(View(), id, userId);
      if error.Some? {
        return Refusal(error.value);
      }
      if !rooms[id].quickmatch {
        rooms := rooms[id := rooms[id].(stealth := stealth)];
      }
      reply := Updated;
    }

    /** `set_room_info_gui`. */
    method SetRoomInfo(id: string, attrs: seq<Attr>, userId: UserId) returns (reply: GuiReply)
      modifies this`rooms
      ensures (View(), reply) == SetInfoGui(old(View()), id, attrs, userId)
    {
      var error := OwnerCheck(View(), id, userId);
      if error.Some? {
        return Refusal(error.value);
      }
      var nums := ApplyAttrs(rooms[id].nums, attrs);
      rooms := rooms[id := rooms[id].(nums := nums)];
      reply := Updated;
    }
  }
}

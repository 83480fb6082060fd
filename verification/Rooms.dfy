/** All Matching2 rooms of the server: the rooms by (communication id, room id) and the
    indexes by world, lobby and user that create, join and leave keep beside them. */
module Rooms {
  import opened Prelude
  import opened RoomModel
  import opened RoomInvariants
  import opened RoomRuns
  import JoinNotices

  type Key = (string, nat)

  datatype Manager = Manager(rooms: map<Key, Room>, counts: map<string, nat>,
                             worldRooms: map<(string, nat), set<nat>>, lobbyRooms: map<(string, nat), set<nat>>,
                             userRooms: map<int, set<Key>>)

  const NoRooms := Manager(map[], map[], map[], map[], map[])

  function CountOf(s: Manager, com: string): nat { if com in s.counts then s.counts[com] else 0 }

  // ----- The commands -----

  datatype Reply =
    | RoomCreated(roomId: nat)
    | RoomJoined(memberId: nat)
    | RoomLeft(destroyed: bool, notify: set<int>)
    | RoomUpdated
    | Denied(error: Error)
    | ServerPanic

  /** Enter a new room under the next id of its communication id, into the index its
      configuration names and under its creator. */
  function Register(s: Manager, com: string, r: Room, userId: int): Manager {
    var id := CountOf(s, com) + 1;
    Manager(s.rooms[(com, id) := r],
            s.counts[com := id],
            if r.cfg.lobbyId == 0 then Add(s.worldRooms, (com, r.cfg.worldId), id) else s.worldRooms,
            if r.cfg.lobbyId == 0 then s.lobbyRooms else Add(s.lobbyRooms, (com, r.cfg.lobbyId), id),
            Add(s.userRooms, userId, (com, id)))
  }

  /** `create_room`: a failed creation uses no id. */
  function CreateRoom(s: Manager, com: string, req: CreateRequest, userId: int, signaling: Signaling): (Manager,
                      Reply) {
    match Create(req, userId, signaling)
    case NotCreated(e) => (s, Denied(e))
    case Created(r) => (Register(s, com, r, userId), RoomCreated(CountOf(s, com) + 1))
  }

  /** `req_join_room` with `join_room`, under one lock: members are turned away first. A
      missing hub is noticed only after the newcomer is in. */
  function JoinRoom(s: Manager, k: Key, userId: int, req: JoinRequest, signaling: Signaling): (Manager, Reply) {
    if k !in s.rooms then (s, Denied(RoomMissing))
    else if userId in UserIds(s.rooms[k].users) then (s, Denied(RoomAlreadyJoined))
    else
      var (r, out) := Join(s.rooms[k], userId, req, signaling);
      var s1 := s.(rooms := s.rooms[k := r]);
      match out
      case NotJoined(e) => (s1, Denied(e))
      case JoinPanicked => (s1, ServerPanic)
      case Joined(id) =>
        (s1.(userRooms := Add(s.userRooms, userId, k)),
         if JoinNotices.HubMissing(r) then ServerPanic else RoomJoined(id))
  }

  /** `leave_room`. It trusts the user index to know the members: an index entry without a
      member, a member that cannot be taken out or a missing index set would be a panic. */
  ghost function LeaveRoom(s: Manager, k: Key, userId: int, pick: nat): (Manager, Reply) {
    if k !in s.rooms then (s, Denied(RoomMissing))
    else if k !in At(s.userRooms, userId) then (s, Denied(NotFound))
    else
      var r, s1 := s.rooms[k], s.(userRooms := Drop(s.userRooms, userId, k));
      if userId !in UserIds(r.users) || !Removable(r, MemberOf(r, userId)) then (s1, ServerPanic)
      else
        match Leave(r, MemberOf(r, userId), pick)
        case Some(r') => (s1.(rooms := s.rooms[k := r']), RoomLeft(false, UserIds(r'.users)))
        case None => CloseRoom(s1, k)
  }

  /** Forget a room whose last member left. */
  function CloseRoom(s: Manager, k: Key): (Manager, Reply)
    requires k in s.rooms
  {
    var cfg := s.rooms[k].cfg;
    var world, lobby := (k.0, cfg.worldId), (k.0, cfg.lobbyId);
    if (if cfg.lobbyId == 0 then world !in s.worldRooms else lobby !in s.lobbyRooms) then (s, ServerPanic)
    else
      (s.(rooms := s.rooms - {k},
          worldRooms := if cfg.lobbyId == 0 then Drop(s.worldRooms, world, k.1) else s.worldRooms,
          lobbyRooms := if cfg.lobbyId == 0 then s.lobbyRooms else Drop(s.lobbyRooms, lobby, k.1)),
       RoomLeft(true, {}))
  }

  /** `set_roomdata_internal`: only the owner's request changes the room. */
  ghost function SetRoom(s: Manager, k: Key, userId: int, req: InternalRequest): (Manager, Reply)
    requires NoGroupZero(req)
  {
    if k !in s.rooms then (s, Denied(RoomMissing))
    else if userId !in UserIds(s.rooms[k].users) then (s, Denied(NotFound))
    else if MemberOf(s.rooms[k], userId) != s.rooms[k].owner then (s, RoomUpdated)
    else
      var (r, error) := SetInternal(s.rooms[k], req);
      (s.(rooms := s.rooms[k := r]), if error.Some? then Denied(error.value) else RoomUpdated)
  }

  // ----- The invariant -----

  ghost predicate InWorld(rooms: map<Key, Room>, com: string, world: nat, id: nat) {
    (com, id) in rooms && rooms[(com, id)].cfg.lobbyId == 0 && rooms[(com, id)].cfg.worldId == world
  }

  ghost predicate InLobby(rooms: map<Key, Room>, com: string, lobby: nat, id: nat) {
    (com, id) in rooms && rooms[(com, id)].cfg.lobbyId == lobby && lobby != 0
  }

  ghost predicate HasUser(rooms: map<Key, Room>, k: Key, userId: int) {
    k in rooms && userId in UserIds(rooms[k].users)
  }

  ghost predicate RoomsOk(rooms: map<Key, Room>) { forall k :: k in rooms ==> Inv(rooms[k]) }

  ghost predicate IdsOk(rooms: map<Key, Room>, counts: map<string, nat>) {
    forall k :: k in rooms ==> k.0 in counts && 1 <= k.1 <= counts[k.0]
  }

  ghost predicate WorldsOk(rooms: map<Key, Room>, worldRooms: map<(string, nat), set<nat>>) {
    forall com, world, id :: id in At(worldRooms, (com, world)) <==> InWorld(rooms, com, world, id)
  }

  ghost predicate LobbiesOk(rooms: map<Key, Room>, lobbyRooms: map<(string, nat), set<nat>>) {
    forall com, lobby, id :: id in At(lobbyRooms, (com, lobby)) <==> InLobby(rooms, com, lobby, id)
  }

  ghost predicate UsersOk(rooms: map<Key, Room>, userRooms: map<int, set<Key>>) {
    forall userId, k :: k in At(userRooms, userId) <==> HasUser(rooms, k, userId)
  }

  /** Every room is good and the three indexes say exactly what a scan of the rooms would. */
  ghost predicate ManagerInv(s: Manager) {
    && RoomsOk(s.rooms)
    && IdsOk(s.rooms, s.counts)
    && WorldsOk(s.rooms, s.worldRooms)
    && LobbiesOk(s.rooms, s.lobbyRooms)
    && UsersOk(s.rooms, s.userRooms)
  }

  lemma {:induction false} NoRoomsInv()
    ensures ManagerInv(NoRooms)
  {
  }

  // ----- Accounts before and after -----

  lemma {:induction false} JoinUserIds(r: Room, r': Room, out: JoinOutcome, userId: int)
    requires JoinEffect(r, r', out, userId)
    ensures UserIds(r'.users) == UserIds(r.users) + if out.Joined? then {userId} else {}
  {
    if out.Joined? {
      forall u | u in UserIds(r'.users)
        ensures u in UserIds(r.users) || u == userId
      {
        var m :| m in r'.users && r'.users[m].userId == u;
        assert m != out.memberId ==> m in r.users && r.users[m].userId == u;
      }
      forall u | u in UserIds(r.users)
        ensures u in UserIds(r'.users)
      {
        var m :| m in r.users && r.users[m].userId == u;
        assert m in r'.users && r'.users[m].userId == u;
      }
      assert r'.users[out.memberId].userId == userId;
    }
  }

  lemma {:induction false} LeaveUserIds(users: Users, m: nat, users': Users)
    requires AllApart(users) && m in users && SameMembers(users - {m}, users')
    ensures UserIds(users') == UserIds(users) - {users[m].userId}
  {
    forall u | u in UserIds(users')
      ensures u in UserIds(users) && u != users[m].userId
    {
      var n :| n in users' && users'[n].userId == u;
      assert Apart(users, m, n);
    }
    forall u | u in UserIds(users) && u != users[m].userId
      ensures u in UserIds(users')
    {
      var n :| n in users && users[n].userId == u;
      assert n in users - {m} && users'[n].userId == u;
    }
  }

  // ----- What each command keeps -----

  /** Replacing a room by one with the same configuration moves it in no index but the users'. */
  lemma {:induction false} ReplaceKeeps(s: Manager, k: Key, r: Room)
    requires ManagerInv(s) && k in s.rooms && Inv(r) && r.cfg == s.rooms[k].cfg
    ensures var rooms := s.rooms[k := r];
            RoomsOk(rooms) && IdsOk(rooms, s.counts) && WorldsOk(rooms, s.worldRooms) && LobbiesOk(rooms, s.lobbyRooms)
  {
    hide Inv;
    var rooms := s.rooms[k := r];
    forall com, world, id
      ensures id in At(s.worldRooms, (com, world)) <==> InWorld(rooms, com, world, id)
    {
      assert id in At(s.worldRooms, (com, world)) <==> InWorld(s.rooms, com, world, id);
    }
    forall com, lobby, id
      ensures id in At(s.lobbyRooms, (com, lobby)) <==> InLobby(rooms, com, lobby, id)
    {
      assert id in At(s.lobbyRooms, (com, lobby)) <==> InLobby(s.rooms, com, lobby, id);
    }
  }

  lemma {:induction false} UsersAdd(rooms: map<Key, Room>, userRooms: map<int, set<Key>>, k: Key, r: Room, userId: int)
    requires UsersOk(rooms, userRooms)
    requires UserIds(r.users) == (if k in rooms then UserIds(rooms[k].users) else {}) + {userId}
    ensures UsersOk(rooms[k := r], Add(userRooms, userId, k))
  {
    hide UserIds;
    var rooms', index := rooms[k := r], Add(userRooms, userId, k);
    forall u, j
      ensures j in At(index, u) <==> HasUser(rooms', j, u)
    {
      assert j in At(userRooms, u) <==> HasUser(rooms, j, u);
    }
  }

  lemma {:induction false} UsersSame(rooms: map<Key, Room>, userRooms: map<int, set<Key>>, k: Key, r: Room)
    requires UsersOk(rooms, userRooms) && k in rooms && UserIds(r.users) == UserIds(rooms[k].users)
    ensures UsersOk(rooms[k := r], userRooms)
  {
    hide UserIds;
    var rooms' := rooms[k := r];
    forall u, j
      ensures j in At(userRooms, u) <==> HasUser(rooms', j, u)
    {
      assert j in At(userRooms, u) <==> HasUser(rooms, j, u);
    }
  }

  lemma {:induction false} UsersLeave(rooms: map<Key, Room>, userRooms: map<int, set<Key>>, k: Key, r: Room,
                                      userId: int)
    requires UsersOk(rooms, userRooms) && k in rooms && UserIds(r.users) == UserIds(rooms[k].users) - {userId}
    ensures UsersOk(rooms[k := r], Drop(userRooms, userId, k))
  {
    hide UserIds;
    var rooms', index := rooms[k := r], Drop(userRooms, userId, k);
    forall u, j
      ensures j in At(index, u) <==> HasUser(rooms', j, u)
    {
      assert j in At(userRooms, u) <==> HasUser(rooms, j, u);
    }
  }

  lemma {:induction false} UsersClose(rooms: map<Key, Room>, userRooms: map<int, set<Key>>, k: Key, userId: int)
    requires UsersOk(rooms, userRooms) && k in rooms && UserIds(rooms[k].users) == {userId}
    ensures UsersOk(rooms - {k}, Drop(userRooms, userId, k))
  {
    hide UserIds;
    var rooms', index := rooms - {k}, Drop(userRooms, userId, k);
    forall u, j
      ensures j in At(index, u) <==> HasUser(rooms', j, u)
    {
      assert j in At(userRooms, u) <==> HasUser(rooms, j, u);
    }
  }

  lemma {:induction false} JoinRoomKeepsInv(s: Manager, k: Key, userId: int, req: JoinRequest, signaling: Signaling)
    requires ManagerInv(s)
    ensures ManagerInv(JoinRoom(s, k, userId, req, signaling).0)
  {
    hide Inv, Join;
    if k in s.rooms && userId !in UserIds(s.rooms[k].users) {
      var (r, out) := Join(s.rooms[k], userId, req, signaling);
      JoinKeepsInv(s.rooms[k], userId, req, signaling);
      JoinUserIds(s.rooms[k], r, out, userId);
      ReplaceKeeps(s, k, r);
      if out.Joined? {
        UsersAdd(s.rooms, s.userRooms, k, r, userId);
      } else {
        UsersSame(s.rooms, s.userRooms, k, r);
      }
    }
  }

  lemma {:induction false} SetRoomKeepsInv(s: Manager, k: Key, userId: int, req: InternalRequest)
    requires ManagerInv(s) && NoGroupZero(req)
    ensures ManagerInv(SetRoom(s, k, userId, req).0)
  {
    hide Inv, SetInternal, UserIds;
    if k in s.rooms {
      SetInternalKeepsInv(s.rooms[k], req);
      var r := SetInternal(s.rooms[k], req).0;
      ReplaceKeeps(s, k, r);
      UsersSame(s.rooms, s.userRooms, k, r);
    }
  }

  /** A departure, seen from the manager: nothing panics, the user is out of that room and the
      user index, and only an emptied room disappears. */
  ghost predicate LeaveEffect(s: Manager, k: Key, userId: int, s': Manager, reply: Reply)
    requires k in s.rooms
  {
    var was := UserIds(s.rooms[k].users);
    && reply.RoomLeft? && reply.notify == was - {userId}
    && (reply.destroyed <==> was == {userId})
    && (if reply.destroyed then s'.rooms == s.rooms - {k}
        else k in s'.rooms && s'.rooms == s.rooms[k := s'.rooms[k]] && UserIds(s'.rooms[k].users) == was - {userId})
  }

  /** One room more or less, and one entry more or less in the index its configuration names. */
  lemma {:induction false} WorldsAdd(rooms: map<Key, Room>, worldRooms: map<(string, nat), set<nat>>, k: Key, r: Room)
    requires WorldsOk(rooms, worldRooms) && k !in rooms
    ensures WorldsOk(rooms[k := r],
                     if r.cfg.lobbyId == 0 then Add(worldRooms, (k.0, r.cfg.worldId), k.1) else worldRooms)
  {
    var rooms' := rooms[k := r];
    var index := if r.cfg.lobbyId == 0 then Add(worldRooms, (k.0, r.cfg.worldId), k.1) else worldRooms;
    forall com, world, id
      ensures id in At(index, (com, world)) <==> InWorld(rooms', com, world, id)
    {
      assert id in At(worldRooms, (com, world)) <==> InWorld(rooms, com, world, id);
    }
  }

  lemma {:induction false} LobbiesAdd(rooms: map<Key, Room>, lobbyRooms: map<(string, nat), set<nat>>, k: Key, r: Room)
    requires LobbiesOk(rooms, lobbyRooms) && k !in rooms
    ensures LobbiesOk(rooms[k := r],
                      if r.cfg.lobbyId == 0 then lobbyRooms else Add(lobbyRooms, (k.0, r.cfg.lobbyId), k.1))
  {
    var rooms' := rooms[k := r];
    var index := if r.cfg.lobbyId == 0 then lobbyRooms else Add(lobbyRooms, (k.0, r.cfg.lobbyId), k.1);
    forall com, lobby, id
      ensures id in At(index, (com, lobby)) <==> InLobby(rooms', com, lobby, id)
    {
      assert id in At(lobbyRooms, (com, lobby)) <==> InLobby(rooms, com, lobby, id);
    }
  }

  lemma {:induction false} WorldsDrop(rooms: map<Key, Room>, worldRooms: map<(string, nat), set<nat>>, k: Key)
    requires WorldsOk(rooms, worldRooms) && k in rooms
    ensures var cfg := rooms[k].cfg;
            && (cfg.lobbyId == 0 ==> (k.0, cfg.worldId) in worldRooms)
            && WorldsOk(rooms - {k}, if cfg.lobbyId == 0 then Drop(worldRooms, (k.0, cfg.worldId), k.1) else worldRooms)
  {
    var cfg := rooms[k].cfg;
    var rooms' := rooms - {k};
    var index := if cfg.lobbyId == 0 then Drop(worldRooms, (k.0, cfg.worldId), k.1) else worldRooms;
    assert k.1 in At(worldRooms, (k.0, cfg.worldId)) <==> InWorld(rooms, k.0, cfg.worldId, k.1);
    forall com, world, id
      ensures id in At(index, (com, world)) <==> InWorld(rooms', com, world, id)
    {
      assert id in At(worldRooms, (com, world)) <==> InWorld(rooms, com, world, id);
    }
  }

  lemma {:induction false} LobbiesDrop(rooms: map<Key, Room>, lobbyRooms: map<(string, nat), set<nat>>, k: Key)
    requires LobbiesOk(rooms, lobbyRooms) && k in rooms
    ensures var cfg := rooms[k].cfg;
            && (cfg.lobbyId != 0 ==> (k.0, cfg.lobbyId) in lobbyRooms)
            && LobbiesOk(rooms - {k},
                         if cfg.lobbyId == 0 then lobbyRooms else Drop(lobbyRooms, (k.0, cfg.lobbyId), k.1))
  {
    var cfg := rooms[k].cfg;
    var rooms' := rooms - {k};
    var index := if cfg.lobbyId == 0 then lobbyRooms else Drop(lobbyRooms, (k.0, cfg.lobbyId), k.1);
    assert k.1 in At(lobbyRooms, (k.0, cfg.lobbyId)) <==> InLobby(rooms, k.0, cfg.lobbyId, k.1);
    forall com, lobby, id
      ensures id in At(index, (com, lobby)) <==> InLobby(rooms', com, lobby, id)
    {
      assert id in At(lobbyRooms, (com, lobby)) <==> InLobby(rooms, com, lobby, id);
    }
  }

  lemma {:induction false} CloseKeeps(s: Manager, k: Key, userRooms: map<int, set<Key>>)
    requires ManagerInv(s) && k in s.rooms && UsersOk(s.rooms - {k}, userRooms)
    ensures var (s', reply) := CloseRoom(s.(userRooms := userRooms), k);
            ManagerInv(s') && reply == RoomLeft(true, {}) && s'.rooms == s.rooms - {k} && s'.userRooms == userRooms
  {
    hide Inv, UserIds, UsersOk, WorldsOk, LobbiesOk;
    WorldsDrop(s.rooms, s.worldRooms, k);
    LobbiesDrop(s.rooms, s.lobbyRooms, k);
  }

  lemma {:induction false} LeaveUsers(r: Room, userId: int, pick: nat)
    requires Inv(r) && userId in UserIds(r.users)
    ensures var m := MemberOf(r, userId);
            && Removable(r, m)
            && (Leave(r, m, pick).None? <==> UserIds(r.users) == {userId})
            && (Leave(r, m, pick).Some? ==>
                  var r' := Leave(r, m, pick).value;
                  Inv(r') && r'.cfg == r.cfg && UserIds(r'.users) == UserIds(r.users) - {userId})
  {
    var m := MemberOf(r, userId);
    LeaveKeepsInv(r, m, pick);
    if Leave(r, m, pick).Some? {
      LeaveUserIds(r.users, m, Leave(r, m, pick).value.users);
    }
    OnlyUser(r.users, m);
  }

  lemma {:induction false} OnlyUser(users: Users, m: nat)
    requires AllApart(users) && m in users
    ensures users.Keys == {m} <==> UserIds(users) == {users[m].userId}
  {
    if UserIds(users) == {users[m].userId} {
      forall n | n in users
        ensures n == m
      {
        assert users[n].userId in UserIds(users);
        assert Apart(users, m, n);
      }
    }
  }

  lemma {:induction false} LeaveRoomKeepsInv(s: Manager, k: Key, userId: int, pick: nat)
    requires ManagerInv(s)
    ensures var (s', reply) := LeaveRoom(s, k, userId, pick);
            && ManagerInv(s')
            && (if HasUser(s.rooms, k, userId) then LeaveEffect(s, k, userId, s', reply) else s' == s && reply.Denied?)
  {
    hide Inv, Leave, Removable;
    assert k in At(s.userRooms, userId) <==> HasUser(s.rooms, k, userId);
    if HasUser(s.rooms, k, userId) {
      var r := s.rooms[k];
      LeaveUsers(r, userId, pick);
      var after := Leave(r, MemberOf(r, userId), pick);
      hide UserIds;
      if after.Some? {
        UsersLeave(s.rooms, s.userRooms, k, after.value, userId);
        ReplaceKeeps(s, k, after.value);
      } else {
        UsersClose(s.rooms, s.userRooms, k, userId);
        CloseKeeps(s, k, Drop(s.userRooms, userId, k));
      }
    }
  }

  lemma {:induction false} RegisterKeeps(s: Manager, com: string, r: Room, userId: int)
    requires ManagerInv(s) && Inv(r) && UserIds(r.users) == {userId}
    ensures (com, CountOf(s, com) + 1) !in s.rooms && ManagerInv(Register(s, com, r, userId))
  {
    hide Inv, UserIds, UsersOk, WorldsOk, LobbiesOk;
    var k := (com, CountOf(s, com) + 1);
    WorldsAdd(s.rooms, s.worldRooms, k, r);
    LobbiesAdd(s.rooms, s.lobbyRooms, k, r);
    UsersAdd(s.rooms, s.userRooms, k, r, userId);
  }

  /** Creation makes one room with one member, under an id that was never used before. */
  lemma {:induction false} CreateRoomKeepsInv(s: Manager, com: string, req: CreateRequest, userId: int,
                                              signaling: Signaling)
    requires ManagerInv(s) && |req.ints| == 8 && |req.bin| == 64
    ensures var (s', reply) := CreateRoom(s, com, req, userId, signaling);
            && ManagerInv(s')
            && (!reply.RoomCreated? ==> s' == s)
            && (reply.RoomCreated? ==>
                  var k := (com, reply.roomId);
                  && reply.roomId == CountOf(s, com) + 1 == CountOf(s', com)
                  && k !in s.rooms && k in s'.rooms && s'.rooms == s.rooms[k := s'.rooms[k]]
                  && UserIds(s'.rooms[k].users) == {userId})
  {
    hide Inv, Create, UserIds, ManagerInv;
    match Create(req, userId, signaling)
    case NotCreated(_) =>
    case Created(r) =>
      CreatedUsers(req, userId, signaling);
      RegisterKeeps(s, com, r, userId);
  }

  lemma {:induction false} CreatedUsers(req: CreateRequest, userId: int, signaling: Signaling)
    requires |req.ints| == 8 && |req.bin| == 64 && Create(req, userId, signaling).Created?
    ensures var r := Create(req, userId, signaling).room;
            Inv(r) && UserIds(r.users) == {userId}
  {
    CreatedInv(req, userId, signaling);
    var r := Create(req, userId, signaling).room;
    assert r.users[r.owner].userId in UserIds(r.users);
  }
}

/** The room manager as the server runs it: a table of room objects and the index maps beside
    it, changed in place. `View` ties every method to the value model of module Rooms. */
module RoomManager {
  import opened Prelude
  import opened RoomModel
  import opened RoomInvariants
  import opened RoomObject
  import opened Rooms
  import JoinNotices
  import S = RoomSearch

  // ----- Searching -----

  function ListingOf(r: Room): S.Listing { S.Listing(r.flagAttr, r.cfg.ints, r.cfg.bin) }

  /** The rooms a request looks at, by a scan of every room: those of the world, or else of the lobby. */
  ghost predicate InScope(rooms: map<Key, Room>, com: string, req: S.Request, id: nat) {
    if req.worldId != 0 then InWorld(rooms, com, req.worldId, id) else InLobby(rooms, com, req.lobbyId, id)
  }

  ghost function VerdictOf(rooms: map<Key, Room>, com: string, req: S.Request, all: bool, id: nat): S.Verdict
    requires RoomsOk(rooms) && (com, id) in rooms
  {
    var l := ListingOf(rooms[(com, id)]);
    if all then S.MatchesAll(l, req) else S.Matches(l, req)
  }

  datatype SearchResult = SearchFailed | SearchPanics | Found(startIndex: nat, total: nat, page: seq<nat>)

  function StartIndex(req: S.Request): nat { if req.startIndex == 0 then 1 else req.startIndex }
  function PageSize(req: S.Request): nat { if req.max == 0 || req.max > 20 then 20 else req.max }

  function Page(order: seq<nat>, start: nat, size: nat): seq<nat>
    requires 1 <= start
  {
    if |order| < start then [] else order[start - 1..start - 1 + Min(|order| - (start - 1), size)]
  }

  /** `order` lists the rooms of `matching` without repetition. */
  ghost predicate Enumerates(order: seq<nat>, matching: set<nat>) {
    && (forall id :: id in order <==> id in matching)
    && (forall i, j :: 0 <= i < j < |order| ==> order[i] != order[j])
  }

  lemma {:induction false} EnumerationSize(order: seq<nat>, matching: set<nat>)
    requires Enumerates(order, matching)
    ensures |order| == |matching|
    decreases |order|
  {
    if order == [] {
      assert matching == {};
    } else {
      var last := |order| - 1;
      var rest := order[..last];
      forall id
        ensures id in rest <==> id in matching - {order[last]}
      {
        assert id in order <==> id in rest || id == order[last] by {
          assert order == rest + [order[last]];
        }
      }
      EnumerationSize(rest, matching - {order[last]});
    }
  }

  ghost function Scope(rooms: map<Key, Room>, com: string, req: S.Request): set<nat> {
    set k | k in rooms && k.0 == com && InScope(rooms, com, req, k.1) :: k.1
  }

  ghost function Matching(rooms: map<Key, Room>, com: string, req: S.Request, all: bool): set<nat>
    requires RoomsOk(rooms)
  {
    set id | id in Scope(rooms, com, req) && VerdictOf(rooms, com, req, all, id) == S.Decided(true)
  }

  /** No room of `seen` is malformed, and `order` enumerates those that match. */
  ghost predicate ListsMatches(rooms: map<Key, Room>, com: string, req: S.Request, all: bool, seen: set<nat>,
                               order: seq<nat>)
    requires RoomsOk(rooms) && (forall id :: id in seen ==> (com, id) in rooms)
  {
    && (forall id :: id in seen ==> VerdictOf(rooms, com, req, all, id).Decided?)
    && Enumerates(order, set id | id in seen && VerdictOf(rooms, com, req, all, id) == S.Decided(true))
  }

  /** How a search ends at a room that does not decide the request. */
  predicate Reports(v: S.Verdict, result: SearchResult) {
    (v.Malformed? && result.SearchFailed?) || (v.Panics? && result.SearchPanics?)
  }

  /** What a search must answer, stated over all rooms and without the indexes. It fails or panics
      when a room in scope does not decide the request, as that room says; it fails when there is a
      page to show and an attribute id is malformed; else it counts the matching rooms and shows one
      page of some enumeration of them. */
  ghost predicate Answers(rooms: map<Key, Room>, com: string, req: S.Request, all: bool, attrsOk: bool,
                          result: SearchResult)
    requires RoomsOk(rooms)
  {
    var matching, start := Matching(rooms, com, req, all), StartIndex(req);
    if exists id :: id in Scope(rooms, com, req) && !VerdictOf(rooms, com, req, all, id).Decided? then
      exists id :: id in Scope(rooms, com, req) && Reports(VerdictOf(rooms, com, req, all, id), result)
    else if start <= |matching| && !attrsOk then result == SearchFailed
    else
      && result.Found? && result.startIndex == start && result.total == |matching|
      && exists order :: Enumerates(order, matching) && result.page == Page(order, start, PageSize(req))
  }

  /** The two searches on the same request: `search_room` matches a subset of what `search_room_all`
      does, and whenever the latter succeeds so does the former, with a total that is no larger. */
  lemma {:induction false} SearchFindsFewer(rooms: map<Key, Room>, com: string, req: S.Request, attrsOk: bool,
                                            some: SearchResult, all: SearchResult)
    requires RoomsOk(rooms)
    requires Answers(rooms, com, req, false, attrsOk, some) && Answers(rooms, com, req, true, attrsOk, all)
    ensures Matching(rooms, com, req, false) <= Matching(rooms, com, req, true)
    ensures all.Found? ==> some.Found? && some.total <= all.total
  {
    hide Scope, Enumerates, Inv, S.MatchesAll;
    ScopeMeans(rooms, com, req);
    forall id | id in Scope(rooms, com, req)
      ensures VerdictOf(rooms, com, req, false, id) in {S.Decided(false), VerdictOf(rooms, com, req, true, id)}
    {
    }
    CardinalityLe(Matching(rooms, com, req, false), Matching(rooms, com, req, true));
  }

  /** Successive pages of one listing put the whole listing back together. */
  function Pages(order: seq<nat>, start: nat, size: nat): seq<nat>
    requires 1 <= start && 1 <= size
    decreases |order| + 1 - start
  {
    if |order| < start then [] else Page(order, start, size) + Pages(order, start + size, size)
  }

  lemma {:induction false} PagesCover(order: seq<nat>, start: nat, size: nat)
    requires 1 <= start <= |order| + 1 && 1 <= size
    ensures Pages(order, start, size) == order[start - 1..]
    decreases |order| + 1 - start
  {
    if start <= |order| {
      if start + size <= |order| + 1 {
        PagesCover(order, start + size, size);
      } else {
        assert Pages(order, start + size, size) == [];
      }
    }
  }

  // ----- The manager -----

  /** The table holds its rooms by value: a command works on one room object and puts the
      result back. */
  class RoomManager {
    var rooms: map<Key, Room>
    var counts: map<string, nat>
    var worldRooms: map<(string, nat), set<nat>>
    var lobbyRooms: map<(string, nat), set<nat>>
    var userRooms: map<int, set<Key>>

    function View(): Manager
      reads this
    {
      Manager(rooms, counts, worldRooms, lobbyRooms, userRooms)
    }

    constructor ()
      ensures View() == NoRooms
    {
      rooms, counts, worldRooms, lobbyRooms, userRooms := map[], map[], map[], map[], map[];
    }

    /** `create_room`. */
    method CreateRoom(com: string, req: CreateRequest, userId: int, signaling: Signaling) returns (reply: Reply)
      modifies this
      ensures (View(), reply) == Rooms.CreateRoom(old(View()), com, req, userId, signaling)
    {
      hide Create, Register;
      match Create(req, userId, signaling)
      case NotCreated(e) =>
        reply := Denied(e);
      case Created(r) =>
        var id := Enter(com, r, userId);
        reply := RoomCreated(id);
    }

    /** `unfailing_create_room`: the counter is bumped and the room entered everywhere. */
    method Enter(com: string, r: Room, userId: int) returns (id: nat)
      modifies this
      ensures id == CountOf(old(View()), com) + 1
      ensures View() == Register(old(View()), com, r, userId)
    {
      id := (if com in counts then counts[com] else 0) + 1;
      counts := counts[com := id];
      if r.cfg.lobbyId == 0 {
        worldRooms := Add(worldRooms, (com, r.cfg.worldId), id);
      } else {
        lobbyRooms := Add(lobbyRooms, (com, r.cfg.lobbyId), id);
      }
      rooms := rooms[(com, id) := r];
      userRooms := Add(userRooms, userId, (com, id));
    }

    /** `req_join_room` with `join_room`; a new member comes with the notices to send. */
    method JoinRoom(k: Key, userId: int, req: JoinRequest, signaling: Signaling)
      returns (reply: Reply, notices: JoinNotices.Notices)
      requires ManagerInv(View())
      modifies this
      ensures (View(), reply) == Rooms.JoinRoom(old(View()), k, userId, req, signaling)
      ensures reply.RoomJoined? ==>
                && k in rooms && !JoinNotices.HubMissing(rooms[k])
                && JoinNotices.Told(rooms[k], reply.memberId, signaling, notices)
    {
      hide Join, Inv, IdsOk, WorldsOk, LobbiesOk, UsersOk, UserIds, JoinNotices.HubMissing, JoinNotices.Told;
      notices := JoinNotices.Nobody;
      if k !in rooms {
        return Denied(RoomMissing), notices;
      }
      SlotsFit(rooms, k);
      var room := new RoomData(rooms[k]);
      if userId in UserIds(room.users) {
        return Denied(RoomAlreadyJoined), notices;
      }
      var out := room.JoinRoom(userId, req, signaling);
      var r := room.View();
      rooms := rooms[k := r];
      match out
      case NotJoined(e) => reply := Denied(e);
      case JoinPanicked => reply := ServerPanic;
      case Joined(id) =>
        userRooms := Add(userRooms, userId, k);
        if JoinNotices.HubMissing(r) {
          reply := ServerPanic;
        } else {
          notices := JoinNotices.Build(r, id, signaling);
          reply := RoomJoined(id);
        }
    }

    /** `leave_room`. The lookups that would panic never fail. */
    method LeaveRoom(k: Key, userId: int) returns (reply: Reply, ghost drawn: nat)
      requires ManagerInv(View())
      modifies this
      ensures (View(), reply) == Rooms.LeaveRoom(old(View()), k, userId, drawn)
    {
      hide Leave, Removable, Inv, ManagerInv, UserIds;
      drawn := 0;
      if k !in rooms {
        return Denied(RoomMissing), 0;
      }
      if userId !in userRooms || k !in userRooms[userId] {
        return Denied(NotFound), 0;
      }
      IndexedIsMember(View(), k, userId);
      CloseKeys(View(), k, userId);
      userRooms := Drop(userRooms, userId, k);
      var room := new RoomData(rooms[k]);
      var m := room.FindUser(userId);
      OneMember(rooms[k], userId, m);
      var alive;
      alive, drawn := room.LeaveRoom(m);
      if alive {
        rooms := rooms[k := room.View()];
        reply := RoomLeft(false, UserIds(room.users));
      } else {
        if room.cfg.lobbyId == 0 {
          worldRooms := Drop(worldRooms, (k.0, room.cfg.worldId), k.1);
        } else {
          lobbyRooms := Drop(lobbyRooms, (k.0, room.cfg.lobbyId), k.1);
        }
        rooms := rooms - {k};
        reply := RoomLeft(true, {});
      }
    }

    /** `set_roomdata_internal`. */
    method SetRoom(k: Key, userId: int, req: InternalRequest) returns (reply: Reply)
      requires ManagerInv(View()) && NoGroupZero(req)
      modifies this
      ensures (View(), reply) == Rooms.SetRoom(old(View()), k, userId, req)
    {
      hide SetInternal, Inv, ManagerInv, UserIds;
      if k !in rooms {
        return Denied(RoomMissing);
      }
      RoomIsGood(View(), k);
      var room := new RoomData(rooms[k]);
      var m := room.FindUser(userId);
      if m == 0 {
        NoMemberZero(rooms[k]);
        return Denied(NotFound);
      }
      OneMember(rooms[k], userId, m);
      if m != room.owner {
        return RoomUpdated;
      }
      var error := room.SetRoomData(req);
      rooms := rooms[k := room.View()];
      reply := if error.Some? then Denied(error.value) else RoomUpdated;
    }

    /** `search_room`, or `search_room_all` when `all` is set: the index is read, every listed
        room is matched, and one page of the matches is returned. */
    method SearchRoom(com: string, req: S.Request, all: bool, attrsOk: bool)
      returns (result: SearchResult)
      requires ManagerInv(View())
      ensures Answers(rooms, com, req, all, attrsOk, result)
    {
      hide Inv, IdsOk, WorldsOk, LobbiesOk, UsersOk, Scope, Matching, ListsMatches, Enumerates, S.MatchesAll, S.Matches;
      var list: set<nat> := {};
      if req.worldId != 0 {
        list := At(worldRooms, (com, req.worldId));
      } else if req.lobbyId != 0 {
        list := At(lobbyRooms, (com, req.lobbyId));
      }
      IndexIsScope(View(), com, req, list);
      var matching: seq<nat> := [];
      var todo := list;
      NothingListed(rooms, com, req, all);
      assert list - todo == {};
      while todo != {}
        invariant todo <= list
        invariant ListsMatches(rooms, com, req, all, list - todo, matching)
      {
        var id :| id in todo;
        var room := rooms[(com, id)];
        var l := ListingOf(room);
        ListingFits(rooms, com, id);
        var verdict := if all then S.MatchesAll(l, req) else S.Matches(l, req);
        assert verdict == VerdictOf(rooms, com, req, all, id);
        if verdict.Malformed? {
          return SearchFailed;
        }
        if verdict.Panics? {
          return SearchPanics;
        }
        ListOneMore(rooms, com, req, all, list - todo, matching, id);
        assert list - (todo - {id}) == list - todo + {id};
        if verdict.matches {
          matching := matching + [id];
        }
        todo := todo - {id};
      }
      assert list - todo == list;
      AllDecided(rooms, com, req, all, list, matching);
      if StartIndex(req) <= |matching| && !attrsOk {
        result := SearchFailed;
      } else {
        result := Found(StartIndex(req), |matching|, Page(matching, StartIndex(req), PageSize(req)));
      }
    }
  }

  // ----- What the methods rely on -----

  lemma {:induction false} OneMember(r: Room, userId: int, m: nat)
    requires Inv(r) && m in r.users && r.users[m].userId == userId
    ensures userId in UserIds(r.users) && m == MemberOf(r, userId)
  {
    assert Apart(r.users, m, MemberOf(r, userId));
  }

  lemma {:induction false} NoMemberZero(r: Room)
    requires Inv(r)
    ensures 0 !in r.users
  {
    assert SlotOf(0) == 0;
  }

  lemma {:induction false} SlotsFit(rooms: map<Key, Room>, k: Key)
    requires RoomsOk(rooms) && k in rooms
    ensures |rooms[k].slots| == rooms[k].cfg.maxSlot
  {
    assert Inv(rooms[k]);
  }

  lemma {:induction false} RoomIsGood(s: Manager, k: Key)
    requires ManagerInv(s) && k in s.rooms
    ensures Inv(s.rooms[k])
  {
  }

  lemma {:induction false} IndexedIsMember(s: Manager, k: Key, userId: int)
    requires ManagerInv(s) && k in s.rooms && k in At(s.userRooms, userId)
    ensures HasUser(s.rooms, k, userId) && Inv(s.rooms[k]) && Removable(s.rooms[k], MemberOf(s.rooms[k], userId))
  {
    hide Inv, Leave;
    assert k in At(s.userRooms, userId) <==> HasUser(s.rooms, k, userId);
    LeaveUsers(s.rooms[k], userId, 0);
  }

  lemma {:induction false} CloseKeys(s: Manager, k: Key, userId: int)
    requires ManagerInv(s) && HasUser(s.rooms, k, userId)
    ensures var cfg := s.rooms[k].cfg;
            if cfg.lobbyId == 0 then (k.0, cfg.worldId) in s.worldRooms else (k.0, cfg.lobbyId) in s.lobbyRooms
  {
    WorldsDrop(s.rooms, s.worldRooms, k);
    LobbiesDrop(s.rooms, s.lobbyRooms, k);
  }

  lemma {:induction false} NothingListed(rooms: map<Key, Room>, com: string, req: S.Request, all: bool)
    requires RoomsOk(rooms)
    ensures ListsMatches(rooms, com, req, all, {}, [])
  {
  }

  lemma {:induction false} AllDecided(rooms: map<Key, Room>, com: string, req: S.Request, all: bool, seen: set<nat>,
                                      order: seq<nat>)
    requires RoomsOk(rooms) && seen == Scope(rooms, com, req) && (forall id :: id in seen ==> (com, id) in rooms)
    requires ListsMatches(rooms, com, req, all, seen, order)
    ensures forall id :: id in seen ==> VerdictOf(rooms, com, req, all, id).Decided?
    ensures Enumerates(order, Matching(rooms, com, req, all)) && |order| == |Matching(rooms, com, req, all)|
  {
    hide VerdictOf, Scope, Inv;
    var matching := set id | id in seen && VerdictOf(rooms, com, req, all, id) == S.Decided(true);
    assert matching == Matching(rooms, com, req, all);
    EnumerationSize(order, matching);
  }

  lemma {:induction false} ListingFits(rooms: map<Key, Room>, com: string, id: nat)
    requires RoomsOk(rooms) && (com, id) in rooms
    ensures S.ValidListing(ListingOf(rooms[(com, id)]))
  {
    assert Inv(rooms[(com, id)]);
  }

  lemma {:induction false} ListOneMore(rooms: map<Key, Room>, com: string, req: S.Request, all: bool, seen: set<nat>,
                                       order: seq<nat>, id: nat)
    requires RoomsOk(rooms) && (forall n :: n in seen ==> (com, n) in rooms)
    requires ListsMatches(rooms, com, req, all, seen, order) && id !in seen && (com, id) in rooms
    requires VerdictOf(rooms, com, req, all, id).Decided?
    ensures ListsMatches(rooms, com, req, all, seen + {id},
                         if VerdictOf(rooms, com, req, all, id).matches then order + [id] else order)
  {
    hide VerdictOf, Inv;
    var was := set n | n in seen && VerdictOf(rooms, com, req, all, n) == S.Decided(true);
    var now := set n | n in seen + {id} && VerdictOf(rooms, com, req, all, n) == S.Decided(true);
    if VerdictOf(rooms, com, req, all, id).matches {
      assert now == was + {id};
    } else {
      assert now == was;
    }
  }

  lemma {:induction false} IndexIsScope(s: Manager, com: string, req: S.Request, list: set<nat>)
    requires ManagerInv(s)
    requires list == if req.worldId != 0 then At(s.worldRooms, (com, req.worldId))
                     else if req.lobbyId != 0 then At(s.lobbyRooms, (com, req.lobbyId)) else {}
    ensures list == Scope(s.rooms, com, req) && (forall id :: id in list ==> (com, id) in s.rooms)
  {
    hide RoomsOk, IdsOk, UsersOk;
    forall id
      ensures id in list <==> InScope(s.rooms, com, req, id)
    {
      assert id in At(s.worldRooms, (com, req.worldId)) <==> InWorld(s.rooms, com, req.worldId, id);
      assert id in At(s.lobbyRooms, (com, req.lobbyId)) <==> InLobby(s.rooms, com, req.lobbyId, id);
    }
    ScopeMeans(s.rooms, com, req);
  }

  lemma {:induction false} ScopeMeans(rooms: map<Key, Room>, com: string, req: S.Request)
    ensures forall id :: id in Scope(rooms, com, req) <==> InScope(rooms, com, req, id)
  {
    forall id | InScope(rooms, com, req, id)
      ensures id in Scope(rooms, com, req)
    {
      var k := (com, id);
      assert k in rooms && k.0 == com && InScope(rooms, com, req, k.1);
    }
  }
}

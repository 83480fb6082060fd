/** What every GUI room command keeps: one owner a room, indexes that mirror the rooms, ids
    that never collide, and no ordinary room with more members than slots. */
module GuiInvariants {
  import opened Prelude
  import opened GuiRooms

  type Table = map<string, GuiRoom>

  ghost predicate SoleOwner(members: map<UserId, bool>, o: UserId) {
    o in members && (forall u :: u in members ==> (members[u] <==> u == o))
  }

  ghost predicate Owned(members: map<UserId, bool>) { exists o :: SoleOwner(members, o) }

  predicate Fits(r: GuiRoom) { !r.quickmatch && 1 <= r.total ==> |r.members| <= r.total }

  ghost predicate RoomOk(r: GuiRoom) { |r.com| == COM_ID_SIZE && r.members != map[] && Fits(r) }

  ghost predicate RoomsOk(rooms: Table) { forall id :: id in rooms ==> RoomOk(rooms[id]) }

  ghost predicate Numbered(id: string, com: string, cur: nat) { exists n: nat :: n < cur && id == RoomIdOf(com, n) }

  ghost predicate IdsOk(rooms: Table, cur: nat) { forall id :: id in rooms ==> Numbered(id, rooms[id].com, cur) }

  ghost predicate InCom(rooms: Table, com: string, id: string) { id in rooms && rooms[id].com == com }

  ghost predicate ComsOk(rooms: Table, comRooms: map<string, set<string>>) {
    forall com, id :: id in At(comRooms, com) <==> InCom(rooms, com, id)
  }

  ghost predicate HasMember(rooms: Table, id: string, u: UserId) { id in rooms && u in rooms[id].members }

  ghost predicate MembersOk(rooms: Table, userRooms: map<UserId, set<string>>) {
    forall u, id :: id in At(userRooms, u) <==> HasMember(rooms, id, u)
  }

  /** Every room has a member, the indexes mirror the rooms and the ids are numbered apart. */
  ghost predicate Mirrored(s: GuiState) {
    RoomsOk(s.rooms) && IdsOk(s.rooms, s.cur) && ComsOk(s.rooms, s.comRooms) && MembersOk(s.rooms, s.userRooms)
  }

  /** Every room has exactly one owner. */
  ghost predicate AllOwned(rooms: Table) { forall id :: id in rooms ==> Owned(rooms[id].members) }

  lemma {:induction false} NoGuiRoomsInv()
    ensures Mirrored(NoGuiRooms) && AllOwned(NoGuiRooms.rooms)
  {
  }

  // ----- Ids never collide -----

  lemma {:induction false} HexSize(n: nat, width: nat)
    ensures |Hex(n, width)| >= 1 && |Hex(n, width)| >= width
    decreases n, width
  {
    if !(n < 16 && width <= 1) {
      HexSize(n / 16, if width == 0 then 0 else width - 1);
    }
  }

  lemma {:induction false} DigitInjective(a: nat, b: nat)
    requires a < 16 && b < 16 && HexDigit(a) == HexDigit(b)
    ensures a == b
  {
    var digits := "0123456789ABCDEF";
    assert forall i, j :: 0 <= i < j < 16 ==> digits[i] != digits[j];
  }

  /** A longer number is a shorter one and its last digit. */
  lemma {:induction false} HexSplit(n: nat, width: nat)
    requires !(n < 16 && width <= 1)
    ensures var x, w := Hex(n, width), if width == 0 then 0 else width - 1;
            |x| >= 2 && x[..|x| - 1] == Hex(n / 16, w) && x[|x| - 1] == HexDigit(n % 16)
  {
    var w := if width == 0 then 0 else width - 1;
    HexSize(n / 16, w);
    var front, x := Hex(n / 16, w), Hex(n, width);
    assert x == front + [HexDigit(n % 16)];
    assert x[..|x| - 1] == front;
  }

  lemma {:induction false} HexInjective(a: nat, b: nat, width: nat)
    requires Hex(a, width) == Hex(b, width)
    ensures a == b
    decreases a, width
  {
    hide Hex, HexDigit;
    HexStep(a, b, width);
    if !(a < 16 && width <= 1) {
      HexInjective(a / 16, b / 16, if width == 0 then 0 else width - 1);
    }
  }

  lemma {:induction false} HexStep(a: nat, b: nat, width: nat)
    requires Hex(a, width) == Hex(b, width)
    ensures if a < 16 && width <= 1 then a == b
            else var w := if width == 0 then 0 else width - 1; a % 16 == b % 16 && Hex(a / 16, w) == Hex(b / 16, w)
  {
    if !(a < 16 && width <= 1) {
      HexSplit(a, width);
    }
    if !(b < 16 && width <= 1) {
      HexSplit(b, width);
    }
    DigitInjective(a % 16, b % 16);
  }

  /** Room ids of different communication ids or different room numbers are different. */
  lemma {:induction false} RoomIdInjective(com: string, n: nat, com': string, n': nat)
    requires |com| == COM_ID_SIZE && |com'| == COM_ID_SIZE && RoomIdOf(com, n) == RoomIdOf(com', n')
    ensures com == com' && n == n'
  {
    var id := RoomIdOf(com, n);
    assert com == id[..COM_ID_SIZE] == com';
    assert Hex(n, 16) == id[COM_ID_SIZE..] == Hex(n', 16);
    HexInjective(n, n', 16);
  }

  lemma {:induction false} NextIdIsFresh(s: GuiState, com: string)
    requires RoomsOk(s.rooms) && IdsOk(s.rooms, s.cur) && |com| == COM_ID_SIZE
    ensures RoomIdOf(com, s.cur) !in s.rooms
  {
    var id := RoomIdOf(com, s.cur);
    if id in s.rooms {
      assert Numbered(id, s.rooms[id].com, s.cur);
      var n: nat :| n < s.cur && id == RoomIdOf(s.rooms[id].com, n);
      assert RoomOk(s.rooms[id]);
      RoomIdInjective(com, s.cur, s.rooms[id].com, n);
      assert false;
    }
  }

  // ----- The indexes under one change -----

  lemma {:induction false} ComsAdd(rooms: Table, comRooms: map<string, set<string>>, id: string, r: GuiRoom)
    requires ComsOk(rooms, comRooms) && id !in rooms
    ensures ComsOk(rooms[id := r], Add(comRooms, r.com, id))
  {
    var rooms', index := rooms[id := r], Add(comRooms, r.com, id);
    forall com, j
      ensures j in At(index, com) <==> InCom(rooms', com, j)
    {
      assert j in At(comRooms, com) <==> InCom(rooms, com, j);
    }
  }

  lemma {:induction false} ComsSame(rooms: Table, comRooms: map<string, set<string>>, id: string, r: GuiRoom)
    requires ComsOk(rooms, comRooms) && id in rooms && r.com == rooms[id].com
    ensures ComsOk(rooms[id := r], comRooms)
  {
    var rooms' := rooms[id := r];
    forall com, j
      ensures j in At(comRooms, com) <==> InCom(rooms', com, j)
    {
      assert j in At(comRooms, com) <==> InCom(rooms, com, j);
    }
  }

  lemma {:induction false} ComsDrop(rooms: Table, comRooms: map<string, set<string>>, id: string)
    requires ComsOk(rooms, comRooms) && id in rooms
    ensures id in At(comRooms, rooms[id].com) && ComsOk(rooms - {id}, Drop(comRooms, rooms[id].com, id))
  {
    var rooms', index := rooms - {id}, Drop(comRooms, rooms[id].com, id);
    assert id in At(comRooms, rooms[id].com) <==> InCom(rooms, rooms[id].com, id);
    forall com, j
      ensures j in At(index, com) <==> InCom(rooms', com, j)
    {
      assert j in At(comRooms, com) <==> InCom(rooms, com, j);
    }
  }

  lemma {:induction false} MembersAdd(rooms: Table, userRooms: map<UserId, set<string>>, id: string, r: GuiRoom,
                                      u: UserId)
    requires MembersOk(rooms, userRooms)
    requires r.members.Keys == (if id in rooms then rooms[id].members.Keys else {}) + {u}
    ensures MembersOk(rooms[id := r], Add(userRooms, u, id))
  {
    var rooms', index := rooms[id := r], Add(userRooms, u, id);
    forall v, j
      ensures j in At(index, v) <==> HasMember(rooms', j, v)
    {
      assert j in At(userRooms, v) <==> HasMember(rooms, j, v);
      assert v in r.members <==> v in r.members.Keys;
    }
  }

  lemma {:induction false} MembersSame(rooms: Table, userRooms: map<UserId, set<string>>, id: string, r: GuiRoom)
    requires MembersOk(rooms, userRooms) && id in rooms && r.members.Keys == rooms[id].members.Keys
    ensures MembersOk(rooms[id := r], userRooms)
  {
    var rooms' := rooms[id := r];
    forall v, j
      ensures j in At(userRooms, v) <==> HasMember(rooms', j, v)
    {
      assert j in At(userRooms, v) <==> HasMember(rooms, j, v);
      assert v in r.members <==> v in r.members.Keys;
    }
  }

  lemma {:induction false} MembersLeave(rooms: Table, userRooms: map<UserId, set<string>>, id: string, r: GuiRoom,
                                        u: UserId)
    requires MembersOk(rooms, userRooms) && id in rooms && r.members.Keys == rooms[id].members.Keys - {u}
    ensures MembersOk(rooms[id := r], Drop(userRooms, u, id))
  {
    var rooms', index := rooms[id := r], Drop(userRooms, u, id);
    forall v, j
      ensures j in At(index, v) <==> HasMember(rooms', j, v)
    {
      assert j in At(userRooms, v) <==> HasMember(rooms, j, v);
      assert v in r.members <==> v in r.members.Keys;
    }
  }

  /** Everybody is taken out of a room that disappears. */
  lemma {:induction false} MembersClear(rooms: Table, userRooms: map<UserId, set<string>>, id: string)
    requires MembersOk(rooms, userRooms) && id in rooms
    ensures rooms[id].members.Keys <= userRooms.Keys
    ensures MembersOk(rooms - {id}, DropAll(userRooms, rooms[id].members.Keys, id))
  {
    var rooms', index := rooms - {id}, DropAll(userRooms, rooms[id].members.Keys, id);
    forall v | v in rooms[id].members
      ensures v in userRooms
    {
      assert id in At(userRooms, v) <==> HasMember(rooms, id, v);
    }
    forall v, j
      ensures j in At(index, v) <==> HasMember(rooms', j, v)
    {
      assert j in At(userRooms, v) <==> HasMember(rooms, j, v);
    }
  }

  // ----- Opening, entering, changing -----

  lemma {:induction false} NumberedLater(rooms: Table, cur: nat, id: string, r: GuiRoom)
    requires IdsOk(rooms, cur) && id == RoomIdOf(r.com, cur)
    ensures IdsOk(rooms[id := r], cur + 1)
  {
    forall j | j in rooms && j != id
      ensures Numbered(j, rooms[j].com, cur + 1)
    {
      assert Numbered(j, rooms[j].com, cur);
    }
  }

  /** A room under a fresh id, with its creator as its owner. */
  lemma {:induction false} OpenKeeps(s: GuiState, room: GuiRoom, u: UserId)
    requires Mirrored(s) && |room.com| == COM_ID_SIZE && room.members == map[]
    ensures RoomIdOf(room.com, s.cur) !in s.rooms && Mirrored(Open(s, room, u))
    ensures AllOwned(s.rooms) ==> AllOwned(Open(s, room, u).rooms)
  {
    hide RoomIdOf, ComsOk, MembersOk, IdsOk, Add;
    var id, r := RoomIdOf(room.com, s.cur), room.(members := room.members[u := true]);
    NextIdIsFresh(s, room.com);
    NumberedLater(s.rooms, s.cur, id, r);
    ComsAdd(s.rooms, s.comRooms, id, r);
    MembersAdd(s.rooms, s.userRooms, id, r, u);
    assert u in r.members && SoleOwner(r.members, u);
  }

  lemma {:induction false} IdsSame(rooms: Table, cur: nat, id: string, r: GuiRoom)
    requires IdsOk(rooms, cur) && id in rooms && r.com == rooms[id].com
    ensures IdsOk(rooms[id := r], cur)
  {
    hide Numbered;
  }

  lemma {:induction false} IndexedIff(s: GuiState, id: string, u: UserId)
    requires Mirrored(s) && id in s.rooms
    ensures Indexed(s, id, u) <==> u in s.rooms[id].members
  {
    assert id in At(s.userRooms, u) <==> HasMember(s.rooms, id, u);
  }

  lemma {:induction false} EnterMirrors(s: GuiState, id: string, u: UserId)
    requires Mirrored(s) && id in s.rooms
    requires u !in s.rooms[id].members && !s.rooms[id].quickmatch ==> |s.rooms[id].members| != s.rooms[id].total
    ensures Mirrored(Enter(s, id, u))
  {
    hide ComsOk, IdsOk, MembersOk, Add;
    var room := s.rooms[id];
    var r := room.(members := room.members[u := false]);
    assert RoomOk(room) && u in r.members;
    assert r.members.Keys == room.members.Keys + {u};
    assert |r.members| == |r.members.Keys| && |room.members| == |room.members.Keys|;
    IdsSame(s.rooms, s.cur, id, r);
    ComsSame(s.rooms, s.comRooms, id, r);
    MembersAdd(s.rooms, s.userRooms, id, r, u);
  }

  /** A newcomer takes nobody's ownership; an owner who enters their own room again loses it. */
  lemma {:induction false} EnterOwnedIff(members: map<UserId, bool>, u: UserId)
    requires Owned(members)
    ensures Owned(members[u := false]) <==> !(u in members && members[u])
  {
    var o :| SoleOwner(members, o);
    var members' := members[u := false];
    if u in members && members[u] {
      forall v
        ensures !SoleOwner(members', v)
      {
        assert v in members' ==> !members'[v];
      }
    } else {
      assert SoleOwner(members', o);
    }
  }

  lemma {:induction false} OneRoomOwnedIff(rooms: Table, id: string, r: GuiRoom)
    requires AllOwned(rooms)
    ensures AllOwned(rooms[id := r]) <==> Owned(r.members)
  {
    hide Owned;
    assert id in rooms[id := r] && rooms[id := r][id] == r;
  }

  /** Changing a room's flags or numbers only. */
  lemma {:induction false} ChangeKeeps(s: GuiState, id: string, r: GuiRoom)
    requires Mirrored(s) && id in s.rooms && r.com == s.rooms[id].com && r.members == s.rooms[id].members
    requires r.quickmatch == s.rooms[id].quickmatch && r.total == s.rooms[id].total
    ensures Mirrored(s.(rooms := s.rooms[id := r]))
    ensures AllOwned(s.rooms[id := r]) <==> AllOwned(s.rooms)
  {
    hide ComsOk, MembersOk, IdsOk, Owned;
    IdsSame(s.rooms, s.cur, id, r);
    ComsSame(s.rooms, s.comRooms, id, r);
    MembersSame(s.rooms, s.userRooms, id, r);
    var rooms' := s.rooms[id := r];
    assert forall j :: j in s.rooms ==> j in rooms' && rooms'[j].members == s.rooms[j].members;
  }

  lemma {:induction false} CompleteKeeps(s: GuiState, id: string, u: UserId)
    requires Mirrored(s) && id in s.rooms
    ensures Mirrored(Complete(s, id, u).0) && Complete(s, id, u).1 != AssertFailed
    ensures AllOwned(Complete(s, id, u).0.rooms) <==> AllOwned(s.rooms)
  {
    hide Mirrored, AllOwned, Others;
    ChangeKeeps(s, id, s.rooms[id].(stealth := true));
  }

  // ----- What each command keeps -----

  lemma {:induction false} CreateGuiKeeps(s: GuiState, com: string, req: GuiCreate, u: UserId)
    requires Mirrored(s) && |com| == COM_ID_SIZE
    ensures var s' := CreateGui(s, com, req, u).0; Mirrored(s') && (AllOwned(s.rooms) ==> AllOwned(s'.rooms))
  {
    hide Mirrored, AllOwned, Open;
    OpenKeeps(s, PlainRoom(com, req), u);
  }

  lemma {:induction false} JoinGuiKeeps(s: GuiState, id: string, u: UserId)
    requires Mirrored(s)
    ensures var (s', reply) := JoinGui(s, id, u);
            Mirrored(s') && reply != AssertFailed && (AllOwned(s.rooms) ==> AllOwned(s'.rooms))
  {
    hide Mirrored, Indexed;
    if id in s.rooms && |s.rooms[id].members| != s.rooms[id].total && u !in s.rooms[id].members {
      IndexedIff(s, id, u);
      EnterMirrors(s, id, u);
      EnterAllOwnedIff(s, id, u);
    }
  }

  /** The user already owns the room a search came upon. */
  predicate OwnsFound(s: GuiState, u: UserId, found: Option<string>) {
    && found.Some? && found.value in s.rooms
    && u in s.rooms[found.value].members && s.rooms[found.value].members[u]
  }

  lemma {:induction false} EnterAllOwnedIff(s: GuiState, id: string, u: UserId)
    requires id in s.rooms
    ensures AllOwned(s.rooms) ==> (AllOwned(Enter(s, id, u).rooms) <==> !OwnsFound(s, u, Some(id)))
  {
    hide Owned;
    if AllOwned(s.rooms) {
      EnterOwnedIff(s.rooms[id].members, u);
      OneRoomOwnedIff(s.rooms, id, Enter(s, id, u).rooms[id]);
    }
  }

  /** Quickmatch keeps the indexes right whatever room it finds, even where its assertion fails,
      which is exactly for a user already inside. It keeps one owner a room exactly unless it
      sends an owner into their own room. */
  lemma {:induction false} QuickmatchKeepsIff(s: GuiState, com: string, req: Quickmatch, u: UserId,
                                              found: Option<string>)
    requires Mirrored(s) && |com| == COM_ID_SIZE && MayFind(QuickCandidates(s, com, req), found)
    ensures found.Some? ==> found.value in s.rooms
    ensures var (s', reply) := QuickmatchGui(s, com, req, u, found);
            && Mirrored(s')
            && (reply == AssertFailed <==> found.Some? && u in s.rooms[found.value].members)
            && (AllOwned(s.rooms) ==> (AllOwned(s'.rooms) <==> !OwnsFound(s, u, found)))
  {
    hide Mirrored, AllOwned, Open, Enter, Indexed, Complete;
    match found
    case None =>
      OpenKeeps(s, QuickRoom(com, req), u);
      OpenHasRoom(s, QuickRoom(com, req), u);
      CompleteKeeps(Open(s, QuickRoom(com, req), u), RoomIdOf(com, s.cur), u);
    case Some(id) =>
      IndexedIff(s, id, u);
      EnterMirrors(s, id, u);
      EnterAllOwnedIff(s, id, u);
      EnterHasRoom(s, id, u);
      CompleteKeeps(Enter(s, id, u), id, u);
  }

  lemma {:induction false} OpenHasRoom(s: GuiState, room: GuiRoom, u: UserId)
    ensures RoomIdOf(room.com, s.cur) in Open(s, room, u).rooms
  {
  }

  lemma {:induction false} EnterHasRoom(s: GuiState, id: string, u: UserId)
    requires id in s.rooms
    ensures id in Enter(s, id, u).rooms
  {
  }

  lemma {:induction false} SearchJoinKeepsIff(s: GuiState, com: string, conds: seq<Cond>, u: UserId,
                                              found: Option<string>)
    requires Mirrored(s) && MayFind(SearchCandidates(s, com, conds), found)
    ensures found.Some? ==> found.value in s.rooms
    ensures var (s', reply) := SearchJoinGui(s, u, found);
            && Mirrored(s')
            && (reply == AssertFailed <==> found.Some? && u in s.rooms[found.value].members)
            && (AllOwned(s.rooms) ==> (AllOwned(s'.rooms) <==> !OwnsFound(s, u, found)))
  {
    hide Mirrored, AllOwned, Enter, Indexed;
    match found
    case None =>
    case Some(id) =>
      IndexedIff(s, id, u);
      EnterMirrors(s, id, u);
      EnterAllOwnedIff(s, id, u);
  }

  lemma {:induction false} SetFlagKeeps(s: GuiState, id: string, stealth: bool, u: UserId)
    requires Mirrored(s)
    ensures var s' := SetFlagGui(s, id, stealth, u).0; Mirrored(s') && (AllOwned(s'.rooms) <==> AllOwned(s.rooms))
  {
    hide Mirrored, AllOwned;
    if OwnerCheck(s, id, u).None? {
      ChangeKeeps(s, id, s.rooms[id].(stealth := stealth));
    }
  }

  lemma {:induction false} SetInfoKeeps(s: GuiState, id: string, attrs: seq<Attr>, u: UserId)
    requires Mirrored(s)
    ensures var s' := SetInfoGui(s, id, attrs, u).0; Mirrored(s') && (AllOwned(s'.rooms) <==> AllOwned(s.rooms))
  {
    hide Mirrored, AllOwned, SetAttrs;
    if OwnerCheck(s, id, u).None? {
      ChangeKeeps(s, id, s.rooms[id].(nums := SetAttrs(s.rooms[id].nums, attrs)));
    }
  }

  // ----- Leaving -----

  lemma {:induction false} LeaveOwned(members: map<UserId, bool>, u: UserId, heir: UserId)
    requires Owned(members) && u in members && members.Keys != {u}
    requires members[u] ==> heir in members && heir != u
    ensures Owned(if members[u] then (members - {u})[heir := true] else members - {u})
  {
    var o :| SoleOwner(members, o);
    var members' := if members[u] then (members - {u})[heir := true] else members - {u};
    assert SoleOwner(members', if members[u] then heir else o);
  }

  /** A room that goes on with one member less. */
  lemma {:induction false} ShrinkKeeps(s: GuiState, id: string, r: GuiRoom, u: UserId)
    requires Mirrored(s) && id in s.rooms && u in s.rooms[id].members && r.members != map[]
    requires r == s.rooms[id].(members := r.members) && r.members.Keys == s.rooms[id].members.Keys - {u}
    ensures Mirrored(s.(rooms := s.rooms[id := r], userRooms := Drop(s.userRooms, u, id)))
  {
    hide ComsOk, MembersOk, IdsOk, Drop;
    IdsSame(s.rooms, s.cur, id, r);
    ComsSame(s.rooms, s.comRooms, id, r);
    MembersLeave(s.rooms, s.userRooms, id, r, u);
    assert |r.members| == |r.members.Keys| && |s.rooms[id].members| == |s.rooms[id].members.Keys|;
    assert RoomOk(s.rooms[id]);
  }

  /** A room that disappears, with everybody still in it. */
  lemma {:induction false} VanishKeeps(s: GuiState, id: string)
    requires Mirrored(s) && id in s.rooms
    ensures Listed(s, id) && s.rooms[id].members.Keys <= s.userRooms.Keys
    ensures Mirrored(Vanish(s, id).(userRooms := DropAll(s.userRooms, s.rooms[id].members.Keys, id)))
  {
    hide ComsOk, MembersOk, Numbered, RoomOk, Drop, DropAll;
    ComsDrop(s.rooms, s.comRooms, id);
    MembersClear(s.rooms, s.userRooms, id);
  }

  /** Dropping the leaver first and the rest later takes out the same members. */
  lemma {:induction false} DropThenAll(userRooms: map<UserId, set<string>>, u: UserId, users: set<UserId>, id: string)
    requires u in userRooms && u in users
    ensures DropAll(Drop(userRooms, u, id), users - {u}, id) == DropAll(userRooms, users, id)
  {
  }

  /** What a departure tells: no assertion fails, and the room stays with its other members,
      or goes because it emptied or because its owner left and ownership is not passed on. */
  ghost predicate LeaveEffect(s: GuiState, id: string, u: UserId, s': GuiState, reply: GuiReply)
    requires id in s.rooms && u in s.rooms[id].members
  {
    var r := s.rooms[id];
    var left := Others(r, u);
    var gone := left == {} || (r.members[u] && !r.privilegeGrant);
    && reply.Departed? && reply.notify == left
    && (reply.disappeared <==> gone && left != {})
    && (if gone then s'.rooms == s.rooms - {id}
        else id in s'.rooms && s'.rooms == s.rooms[id := s'.rooms[id]] && s'.rooms[id].members.Keys == left)
  }

  lemma {:induction false} LeaveGuiKeeps(s: GuiState, id: string, u: UserId, heir: UserId)
    requires Mirrored(s) && MayInherit(s, id, u, heir)
    ensures var (s', reply) := LeaveGui(s, id, u, heir);
            && Mirrored(s') && (AllOwned(s.rooms) ==> AllOwned(s'.rooms))
            && (if HasMember(s.rooms, id, u) then LeaveEffect(s, id, u, s', reply) else s' == s && reply.Refusal?)
  {
    hide Mirrored, AllOwned, Drop, DropAll, Vanish, Owned;
    if HasMember(s.rooms, id, u) {
      var room := s.rooms[id];
      MemberFacts(s, id, u);
      VanishKeeps(s, id);
      var members := room.members - {u};
      assert members.Keys == Others(room, u);
      DropThenAll(s.userRooms, u, room.members.Keys, id);
      if members == map[] || (room.members[u] && !room.privilegeGrant) {
        LeaveVanishes(s, id, u, heir);
        FewerOwned(s, id);
      } else {
        assert room.members.Keys != {u};
        var members' := if room.members[u] then members[heir := true] else members;
        ShrinkKeeps(s, id, room.(members := members'), u);
        if AllOwned(s.rooms) {
          OneOwned(s.rooms, id);
          LeaveOwned(room.members, u, heir);
          OneRoomOwnedIff(s.rooms, id, room.(members := members'));
        }
      }
    }
  }

  lemma {:induction false} OneOwned(rooms: Table, id: string)
    requires AllOwned(rooms) && id in rooms
    ensures Owned(rooms[id].members)
  {
  }

  lemma {:induction false} FewerOwned(s: GuiState, id: string)
    requires id in s.rooms
    ensures AllOwned(s.rooms) ==> AllOwned(Vanish(s, id).rooms)
  {
  }

  lemma {:induction false} MemberFacts(s: GuiState, id: string, u: UserId)
    requires Mirrored(s) && HasMember(s.rooms, id, u)
    ensures u in s.userRooms
  {
    assert id in At(s.userRooms, u) <==> HasMember(s.rooms, id, u);
  }

  lemma {:induction false} LeaveVanishes(s: GuiState, id: string, u: UserId, heir: UserId)
    requires HasMember(s.rooms, id, u) && u in s.userRooms && Listed(s, id)
    requires s.rooms[id].members.Keys <= s.userRooms.Keys
    requires s.rooms[id].members - {u} == map[] || (s.rooms[id].members[u] && !s.rooms[id].privilegeGrant)
    ensures var (s', reply) := LeaveGui(s, id, u, heir);
            && s' == Vanish(s, id).(userRooms := DropAll(s.userRooms, s.rooms[id].members.Keys, id))
            && LeaveEffect(s, id, u, s', reply)
  {
    hide DropAll;
    var room := s.rooms[id];
    var members := room.members - {u};
    assert members.Keys == Others(room, u);
    DropThenAll(s.userRooms, u, room.members.Keys, id);
    if members == map[] {
      LastDrop(s.userRooms, u, id);
      assert room.members.Keys == members.Keys + {u} == {u};
    }
    assert s.rooms[id := room.(members := members)] - {id} == s.rooms - {id};
  }

  lemma {:induction false} LastDrop(userRooms: map<UserId, set<string>>, u: UserId, id: string)
    requires u in userRooms
    ensures DropAll(userRooms, {u}, id) == Drop(userRooms, u, id)
  {
  }
}

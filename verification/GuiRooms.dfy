/** Rooms of the old GUI matching interface, with quickmatch: a room, the table of all rooms
    and what every command does to it. */
module GuiRooms {
  import opened Prelude

  const COM_ID_SIZE: nat := 12
  const MAX_SLOTS: nat := 64
  const NUM_ATTRS: nat := 16

  // Attribute types and comparison operators of search conditions.
  const BASIC_NUM: nat := 2
  const GAME_NUM: nat := 4
  const EQ: nat := 0
  const NE: nat := 1
  const LT: nat := 2
  const LE: nat := 3
  const GT: nat := 4
  const GE: nat := 5

  /** The sixteen number attributes of a room. */
  type Nums = s: seq<nat> | |s| == NUM_ATTRS witness ZEROS

  const ZEROS: seq<nat> := [0, 0, 0, 0, 0, 0, 0, 0, 0, 0, 0, 0, 0, 0, 0, 0]

  datatype Cond = Cond(kind: nat, id: nat, op: nat, value: nat)
  datatype Attr = Attr(kind: nat, id: nat, num: nat)

  /** `members` says of each member whether it is the owner. */
  datatype GuiRoom = GuiRoom(total: nat, privateSlots: nat, privilegeGrant: bool, stealth: bool,
                             members: map<UserId, bool>, nums: Nums, com: string, quickmatch: bool)

  datatype GuiState = GuiState(cur: nat, rooms: map<string, GuiRoom>,
                               comRooms: map<string, set<string>>, userRooms: map<UserId, set<string>>)

  const NoGuiRooms := GuiState(1, map[], map[], map[])

  datatype GuiError = RoomMissing | RoomFull | RoomAlreadyJoined | NotFound | Unauthorized

  datatype GuiReply =
    | Entered(roomId: string, notify: set<UserId>)
    | Waiting(roomId: string)
    | Departed(notify: set<UserId>, disappeared: bool, newOwner: Option<UserId>)
    | Updated
    | Refusal(error: GuiError)
    | AssertFailed

  // ----- Room ids -----

  function HexDigit(n: nat): char
    requires n < 16
  {
    "0123456789ABCDEF"[n]
  }

  /** At least `width` upper-case hexadecimal digits. */
  function Hex(n: nat, width: nat): string
    decreases n, width
  {
    if n < 16 && width <= 1 then [HexDigit(n)]
    else Hex(n / 16, if width == 0 then 0 else width - 1) + [HexDigit(n % 16)]
  }

  /** `generate_room_id`: the communication id followed by the room number. */
  function RoomIdOf(com: string, n: nat): string { com + Hex(n, 16) }

  // ----- Matching -----

  predicate MatchValue(value: nat, wanted: nat, op: nat) {
    if op == EQ then value == wanted
    else if op == NE then value != wanted
    else if op == LT then value < wanted
    else if op == LE then value <= wanted
    else if op == GT then value > wanted
    else op == GE && value >= wanted
  }

  /** One search condition; conditions on anything but the slots and the first eight numbers are skipped. */
  predicate CondHolds(r: GuiRoom, c: Cond) {
    if c.kind == BASIC_NUM && c.id == 1 then MatchValue(r.total, c.value, c.op)
    else if c.kind == GAME_NUM && 1 <= c.id <= 8 then MatchValue(r.nums[c.id - 1], c.value, c.op)
    else true
  }

  /** `is_match`. */
  predicate IsMatch(r: GuiRoom, conds: seq<Cond>, checkFull: bool) {
    && !r.quickmatch && !r.stealth
    && !(checkFull && |r.members| == r.total)
    && (forall i :: 0 <= i < |conds| ==> CondHolds(r, conds[i]))
  }

  datatype Quickmatch = Quickmatch(availableNum: nat, conds: seq<Cond>)

  predicate Considered(c: Cond) { c.kind == GAME_NUM && 1 <= c.id <= 8 && (c.op == EQ || c.op == NE) }

  predicate QuickHolds(nums: Nums, c: Cond) {
    Considered(c) ==> MatchValue(nums[c.id - 1], c.value, c.op)
  }

  predicate AllQuickHold(nums: Nums, conds: seq<Cond>) {
    forall i :: 0 <= i < |conds| ==> QuickHolds(nums, conds[i])
  }

  /** `is_quickmatch`. */
  predicate IsQuickmatch(r: GuiRoom, req: Quickmatch) {
    r.quickmatch && !r.stealth && r.total == req.availableNum && AllQuickHold(r.nums, req.conds)
  }

  // ----- New rooms -----

  predicate SetsNumber(c: Cond) { c.kind == GAME_NUM && 1 <= c.id <= NUM_ATTRS && c.op == EQ }

  /** The numbers that a quickmatch request's equality conditions leave in a new room. */
  function CondNums(nums: Nums, conds: seq<Cond>): Nums
    decreases |conds|
  {
    if conds == [] then nums
    else
      var c := conds[0];
      CondNums(if SetsNumber(c) then nums[c.id - 1 := c.value] else nums, conds[1..])
  }

  function SetAttrs(nums: Nums, attrs: seq<Attr>): Nums
    decreases |attrs|
  {
    if attrs == [] then nums
    else
      var a := attrs[0];
      SetAttrs(if a.kind == GAME_NUM && 1 <= a.id <= NUM_ATTRS then nums[a.id - 1 := a.num] else nums, attrs[1..])
  }

  /** `from_quickmatch_protobuf`. */
  function QuickRoom(com: string, req: Quickmatch): GuiRoom {
    GuiRoom(Min(req.availableNum, MAX_SLOTS), 0, true, false, map[], CondNums(ZEROS, req.conds), com, true)
  }

  datatype GuiCreate = GuiCreate(total: nat, privateSlots: nat, privilegeGrant: bool, stealth: bool, attrs: seq<Attr>)

  /** `from_protobuf`. */
  function PlainRoom(com: string, req: GuiCreate): GuiRoom {
    var total := Min(req.total, MAX_SLOTS);
    GuiRoom(total, Min(Min(req.privateSlots, MAX_SLOTS), total), req.privilegeGrant, req.stealth, map[],
            SetAttrs(ZEROS, req.attrs), com, false)
  }

  // ----- The commands -----

  /** Enter `room` under a fresh id with `userId` as its owner. */
  function Open(s: GuiState, room: GuiRoom, userId: UserId): GuiState {
    var id := RoomIdOf(room.com, s.cur);
    GuiState(s.cur + 1, s.rooms[id := room.(members := room.members[userId := true])],
             Add(s.comRooms, room.com, id), Add(s.userRooms, userId, id))
  }

  /** `add_member_to_room` for a newcomer. It overwrites the member entry before it asserts
      that the user was not indexed, so it is the reply that tells the assertion. */
  function Enter(s: GuiState, id: string, userId: UserId): GuiState
    requires id in s.rooms
  {
    var room := s.rooms[id];
    s.(rooms := s.rooms[id := room.(members := room.members[userId := false])],
       userRooms := Add(s.userRooms, userId, id))
  }

  predicate Indexed(s: GuiState, id: string, userId: UserId) { id in At(s.userRooms, userId) }

  function Others(r: GuiRoom, userId: UserId): set<UserId> { r.members.Keys - {userId} }

  function CreateGui(s: GuiState, com: string, req: GuiCreate, userId: UserId): (GuiState, GuiReply) {
    (Open(s, PlainRoom(com, req), userId), Entered(RoomIdOf(com, s.cur), {}))
  }

  function JoinGui(s: GuiState, id: string, userId: UserId): (GuiState, GuiReply) {
    if id !in s.rooms then (s, Refusal(RoomMissing))
    else if |s.rooms[id].members| == s.rooms[id].total then (s, Refusal(RoomFull))
    else if userId in s.rooms[id].members then (s, Refusal(RoomAlreadyJoined))
    else
      (Enter(s, id, userId),
       if Indexed(s, id, userId) then AssertFailed else Entered(id, Others(s.rooms[id], userId)))
  }

  /** A room filled by quickmatch is closed to it and its members are told. */
  function Complete(s: GuiState, id: string, userId: UserId): (GuiState, GuiReply)
    requires id in s.rooms
  {
    var room := s.rooms[id];
    if |room.members| == room.total then
      (s.(rooms := s.rooms[id := room.(stealth := true)]), Entered(id, Others(room, userId)))
    else (s, Waiting(id))
  }

  /** The rooms of a communication id that a quickmatch may enter; `find` takes any one of them. */
  ghost function QuickCandidates(s: GuiState, com: string, req: Quickmatch): set<string>
  {
    set id | id in At(s.comRooms, com) && id in s.rooms && IsQuickmatch(s.rooms[id], req)
  }

  /** `quickmatch_gui`, where `found` is the room the search came upon, if any. */
  function QuickmatchGui(s: GuiState, com: string, req: Quickmatch, userId: UserId,
                         found: Option<string>): (GuiState, GuiReply)
    requires found.Some? ==> found.value in s.rooms
  {
    match found
    case None => Complete(Open(s, QuickRoom(com, req), userId), RoomIdOf(com, s.cur), userId)
    case Some(id) =>
      if Indexed(s, id, userId) then (Enter(s, id, userId), AssertFailed)
      else Complete(Enter(s, id, userId), id, userId)
  }

  ghost predicate MayFind(candidates: set<string>, found: Option<string>) {
    if candidates == {} then found == None else found.Some? && found.value in candidates
  }

  ghost function SearchCandidates(s: GuiState, com: string, conds: seq<Cond>): set<string>
  {
    set id | id in At(s.comRooms, com) && id in s.rooms && IsMatch(s.rooms[id], conds, true)
  }

  /** `search_join_gui`, with the room the search came upon. */
  function SearchJoinGui(s: GuiState, userId: UserId, found: Option<string>): (GuiState, GuiReply)
    requires found.Some? ==> found.value in s.rooms
  {
    match found
    case None => (s, Refusal(NotFound))
    case Some(id) =>
      (Enter(s, id, userId),
       if Indexed(s, id, userId) then AssertFailed else Entered(id, Others(s.rooms[id], userId)))
  }

  function DropAll(userRooms: map<UserId, set<string>>, users: set<UserId>, id: string): map<UserId, set<string>> {
    map u | u in userRooms :: if u in users then userRooms[u] - {id} else userRooms[u]
  }

  /** Take the room out of the table and its communication id's list. */
  function Vanish(s: GuiState, id: string): GuiState
    requires id in s.rooms
  {
    s.(rooms := s.rooms - {id}, comRooms := Drop(s.comRooms, s.rooms[id].com, id))
  }

  predicate Listed(s: GuiState, id: string)
    requires id in s.rooms
  {
    id in At(s.comRooms, s.rooms[id].com)
  }

  /** `leave_room_gui`, where `heir` is the member drawn to own a room that passes ownership on. */
  function LeaveGui(s: GuiState, id: string, userId: UserId, heir: UserId): (GuiState, GuiReply) {
    if id !in s.rooms then (s, Refusal(RoomMissing))
    else if userId !in s.rooms[id].members then (s, Refusal(NotFound))
    else
      var wasOwner := s.rooms[id].members[userId];
      var room := s.rooms[id].(members := s.rooms[id].members - {userId});
      var s1 := s.(rooms := s.rooms[id := room], userRooms := Drop(s.userRooms, userId, id));
      if userId !in s.userRooms then (s1, AssertFailed)
      else if room.members == map[] then
        if !Listed(s, id) then (s1, AssertFailed) else (Vanish(s1, id), Departed({}, false, None))
      else if wasOwner && !room.privilegeGrant then
        if !(room.members.Keys <= s.userRooms.Keys) || !Listed(s, id) then (s1, AssertFailed)
        else
          (Vanish(s1, id).(userRooms := DropAll(s1.userRooms, room.members.Keys, id)),
           Departed(room.members.Keys, true, None))
      else if wasOwner && heir in room.members then
        (s1.(rooms := s.rooms[id := room.(members := room.members[heir := true])]),
         Departed(room.members.Keys, false, Some(heir)))
      else (s1, Departed(room.members.Keys, false, None))
  }

  /** A heir is drawn exactly when the owner leaves others behind in a room that passes ownership on. */
  predicate MayInherit(s: GuiState, id: string, userId: UserId, heir: UserId) {
    && id in s.rooms && userId in s.rooms[id].members && s.rooms[id].members[userId]
    && s.rooms[id].members.Keys != {userId}
    ==> heir in s.rooms[id].members && heir != userId
  }

  function OwnerCheck(s: GuiState, id: string, userId: UserId): Option<GuiError> {
    if id !in s.rooms then Some(RoomMissing)
    else if userId !in s.rooms[id].members then Some(NotFound)
    else if !s.rooms[id].members[userId] then Some(Unauthorized)
    else None
  }

  /** `set_search_flag`: ignored for quickmatch rooms. */
  function SetFlagGui(s: GuiState, id: string, stealth: bool, userId: UserId): (GuiState, GuiReply) {
    match OwnerCheck(s, id, userId)
    case Some(e) => (s, Refusal(e))
    case None =>
      (if s.rooms[id].quickmatch then s else s.(rooms := s.rooms[id := s.rooms[id].(stealth := stealth)]), Updated)
  }

  /** `set_room_info_gui`. */
  function SetInfoGui(s: GuiState, id: string, attrs: seq<Attr>, userId: UserId): (GuiState, GuiReply) {
    match OwnerCheck(s, id, userId)
    case Some(e) => (s, Refusal(e))
    case None =>
      (s.(rooms := s.rooms[id := s.rooms[id].(nums := SetAttrs(s.rooms[id].nums, attrs))]), Updated)
  }
}

/** Runs of the room manager: any sequence of create, join, leave and update commands by any
    users, from the empty server. */
module ManagerRuns {
  import opened Prelude
  import opened RoomModel
  import opened RoomInvariants
  import opened Rooms

  datatype Command =
    | CreateCommand(com: string, creation: CreateRequest, from: Signaling)
    | JoinCommand(room: Key, join: JoinRequest, joiner: Signaling)
    | LeaveCommand(room: Key, pick: nat)
    | SetCommand(room: Key, update: InternalRequest)

  /** What parsing a request leaves: eight integer attributes, 64 bytes of binary attribute, no group 0. */
  predicate Parsed(c: Command) {
    && (c.CreateCommand? ==> |c.creation.ints| == 8 && |c.creation.bin| == 64)
    && (c.SetCommand? ==> NoGroupZero(c.update))
  }

  ghost function Execute(s: Manager, userId: int, c: Command): (Manager, Reply)
    requires Parsed(c)
  {
    match c
    case CreateCommand(com, req, from) => CreateRoom(s, com, req, userId, from)
    case JoinCommand(k, req, from) => JoinRoom(s, k, userId, req, from)
    case LeaveCommand(k, pick) => LeaveRoom(s, k, userId, pick)
    case SetCommand(k, req) => SetRoom(s, k, userId, req)
  }

  /** Of the user index a command changes at most the issuer's own entry, and counters never go back. */
  ghost predicate OnlyOwn(s: Manager, s': Manager, userId: int) {
    && (forall u :: u != userId ==> At(s'.userRooms, u) == At(s.userRooms, u))
    && (forall com :: CountOf(s, com) <= CountOf(s', com))
  }

  lemma {:induction false} CreateOnlyOwn(s: Manager, com: string, req: CreateRequest, userId: int, from: Signaling)
    ensures OnlyOwn(s, CreateRoom(s, com, req, userId, from).0, userId)
  {
    hide Create;
  }

  lemma {:induction false} JoinOnlyOwn(s: Manager, k: Key, userId: int, req: JoinRequest, from: Signaling)
    ensures OnlyOwn(s, JoinRoom(s, k, userId, req, from).0, userId)
  {
    hide Join, UserIds;
  }

  lemma {:induction false} LeaveOnlyOwn(s: Manager, k: Key, userId: int, pick: nat)
    ensures OnlyOwn(s, LeaveRoom(s, k, userId, pick).0, userId)
  {
    hide Leave, Removable, UserIds;
  }

  lemma {:induction false} SetOnlyOwn(s: Manager, k: Key, userId: int, req: InternalRequest)
    requires NoGroupZero(req)
    ensures OnlyOwn(s, SetRoom(s, k, userId, req).0, userId)
  {
    hide SetInternal, UserIds;
  }

  /** What one command of one user does to the whole server. */
  lemma {:induction false} ExecuteKeeps(s: Manager, userId: int, c: Command)
    requires ManagerInv(s) && Parsed(c)
    ensures var (s', reply) := Execute(s, userId, c);
            && ManagerInv(s') && OnlyOwn(s, s', userId)
            && (reply.RoomCreated? ==> c.CreateCommand? && CountOf(s, c.com) < reply.roomId <= CountOf(s', c.com))
            && (c.LeaveCommand? ==> !reply.ServerPanic?)
  {
    hide ManagerInv, OnlyOwn, CreateRoom, LeaveRoom, SetInternal, Join, UserIds;
    match c
    case CreateCommand(com, req, from) =>
      CreateRoomKeepsInv(s, com, req, userId, from);
      CreateOnlyOwn(s, com, req, userId, from);
    case JoinCommand(k, req, from) =>
      JoinRoomKeepsInv(s, k, userId, req, from);
      JoinOnlyOwn(s, k, userId, req, from);
    case LeaveCommand(k, pick) =>
      LeaveRoomKeepsInv(s, k, userId, pick);
      LeaveOnlyOwn(s, k, userId, pick);
    case SetCommand(k, req) =>
      SetRoomKeepsInv(s, k, userId, req);
      SetOnlyOwn(s, k, userId, req);
  }

  /** A user outside a room cannot leave it, and one inside is out of it afterwards. */
  lemma {:induction false} LeaveTakesOut(s: Manager, userId: int, k: Key, pick: nat)
    requires ManagerInv(s)
    ensures var (s', reply) := LeaveRoom(s, k, userId, pick);
            && (k in At(s.userRooms, userId) <==> reply.RoomLeft?)
            && At(s'.userRooms, userId) == At(s.userRooms, userId) - {k}
  {
    hide Leave, Removable, UserIds, RoomsOk, IdsOk, WorldsOk, LobbiesOk;
    assert k in At(s.userRooms, userId) <==> HasUser(s.rooms, k, userId);
    LeaveRoomKeepsInv(s, k, userId, pick);
  }

  // ----- Runs -----

  datatype Issue = Issue(userId: int, command: Command)

  ghost predicate StepAt(states: seq<Manager>, issues: seq<Issue>, i: nat)
    requires i < |issues| && i + 1 < |states| && Parsed(issues[i].command)
  {
    states[i + 1] == Execute(states[i], issues[i].userId, issues[i].command).0
  }

  ghost predicate Run(states: seq<Manager>, issues: seq<Issue>) {
    && |states| == |issues| + 1 && states[0] == NoRooms
    && (forall i :: 0 <= i < |issues| ==> Parsed(issues[i].command))
    && (forall i {:trigger StepAt(states, issues, i)} :: 0 <= i < |issues| ==> StepAt(states, issues, i))
  }

  ghost function ReplyAt(states: seq<Manager>, issues: seq<Issue>, i: nat): Reply
    requires i < |issues| && i < |states| && Parsed(issues[i].command)
  {
    Execute(states[i], issues[i].userId, issues[i].command).1
  }

  /** In every state of every run the indexes mirror the rooms. */
  lemma {:induction false} RunKeepsInv(states: seq<Manager>, issues: seq<Issue>, n: nat)
    requires Run(states, issues) && n <= |issues|
    ensures ManagerInv(states[n])
  {
    hide Execute, ManagerInv, OnlyOwn;
    if n == 0 {
      NoRoomsInv();
    } else {
      RunKeepsInv(states, issues, n - 1);
      assert StepAt(states, issues, n - 1);
      ExecuteKeeps(states[n - 1], issues[n - 1].userId, issues[n - 1].command);
    }
  }

  lemma {:induction false} CountsGrow(states: seq<Manager>, issues: seq<Issue>, i: nat, j: nat, com: string)
    requires Run(states, issues) && i <= j <= |issues|
    ensures CountOf(states[i], com) <= CountOf(states[j], com)
    decreases j
  {
    hide Execute, ManagerInv, CountOf;
    if i < j {
      CountsGrow(states, issues, i, j - 1, com);
      RunKeepsInv(states, issues, j - 1);
      assert StepAt(states, issues, j - 1);
      ExecuteKeeps(states[j - 1], issues[j - 1].userId, issues[j - 1].command);
    }
  }

  /** Within a communication id no room id is ever handed out twice, not even after the room is gone. */
  lemma {:induction false} RoomIdsNeverReused(states: seq<Manager>, issues: seq<Issue>, i: nat, j: nat)
    requires Run(states, issues) && i < j < |issues|
    requires ReplyAt(states, issues, i).RoomCreated? && ReplyAt(states, issues, j).RoomCreated?
    ensures issues[i].command.CreateCommand? && issues[j].command.CreateCommand?
    ensures issues[i].command.com == issues[j].command.com ==>
              ReplyAt(states, issues, i).roomId < ReplyAt(states, issues, j).roomId
  {
    hide Execute, ManagerInv, OnlyOwn, CountOf;
    RunKeepsInv(states, issues, i);
    RunKeepsInv(states, issues, j);
    assert StepAt(states, issues, i);
    ExecuteKeeps(states[i], issues[i].userId, issues[i].command);
    ExecuteKeeps(states[j], issues[j].userId, issues[j].command);
    CountsGrow(states, issues, i + 1, j, issues[i].command.com);
  }
}

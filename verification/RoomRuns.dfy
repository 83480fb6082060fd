/** Whole lives of Matching2 rooms: creation, then any sequence of join attempts,
    departures and updates by the owner. */
module RoomRuns {
  import opened Prelude
  import opened RoomModel
  import opened RoomInvariants
  import opened RoomGroups

  // ----- Creation -----

  lemma {:induction false} OpenedInv(req: CreateRequest, userId: int, signaling: Signaling)
    requires 1 <= req.maxSlot <= 64 && |req.ints| == 8 && |req.bin| == 64
    ensures Inv(Opened(req, userId, signaling))
  {
    var r := Opened(req, userId, signaling);
    MemberIdSplits(1, 0);
    FlagLaws(req.flagAttr, 0, 0);
    assert r.users.Keys == {MemberId(1, 0)};
  }

  /** A created room has one member, its owner, on slot 1. */
  lemma {:induction false} CreatedInv(req: CreateRequest, userId: int, signaling: Signaling)
    requires |req.ints| == 8 && |req.bin| == 64 && Create(req, userId, signaling).Created?
    ensures var r := Create(req, userId, signaling).room;
            Inv(r) && r.users.Keys == {r.owner} && r.users[r.owner].userId == userId && SlotOf(r.owner) == 1
  {
    OpenedInv(req, userId, signaling);
    MemberIdSplits(1, 0);
  }

  /** The sizes of the groups cover the room exactly and the creator's group has a slot.
      Creation itself compares the sizes in 32-bit arithmetic and allows an empty first group
      and more than 255 groups. */
  ghost predicate WellGrouped(r: Room) {
    && 1 <= |r.groups| <= 255
    && Start(r.groups, |r.groups|) == |r.slots| + 1
    && r.groups[0].slotNum >= 1
  }

  lemma {:induction false} CreatedGroupInv(req: CreateRequest, userId: int, signaling: Signaling)
    requires Create(req, userId, signaling).Created? && WellGrouped(Create(req, userId, signaling).room)
    ensures GroupInv(Create(req, userId, signaling).room)
  {
    var r := Create(req, userId, signaling).room;
    MemberIdSplits(1, 0);
    var groups, slots := r.groups, r.slots;
    forall g | 0 <= g < |groups|
      ensures CountedAt(groups, slots, g)
    {
      if g > 0 {
        StartGrows(groups, 0, g);
      }
      OnlyFirstOccupied(slots, Start(groups, g), groups[g].slotNum);
    }
  }

  lemma {:induction false} OnlyFirstOccupied(slots: seq<bool>, start: nat, count: nat)
    requires 1 <= start && |slots| >= 1 && forall i :: 0 <= i < |slots| ==> (slots[i] <==> i == 0)
    ensures Count(slots, start, count) == if start == 1 && count >= 1 then 1 else 0
  {
    if count > 0 {
      OnlyFirstOccupied(slots, start, count - 1);
    }
  }

  // ----- Runs -----

  datatype Op =
    | JoinOp(userId: int, join: JoinRequest, signaling: Signaling)
    | LeaveOp(userId: int, pick: nat)
    | SetOp(userId: int, request: InternalRequest)

  /** The one kind of request that is excluded: a password setting for group 0. */
  predicate OpOk(op: Op) { op.SetOp? ==> NoGroupZero(op.request) }

  datatype Next = Alive(room: Room) | Gone | Crash

  /** One command: members cannot join again, strangers cannot leave, only the owner sets. A
      crash is a departure that cannot take its member out; the panic of a join is one of the
      outcomes of `Join` and leaves the room to its members. */
  ghost function Step(r: Room, op: Op): Next
    requires OpOk(op)
  {
    if op.userId in UserIds(r.users) then
      var m := MemberOf(r, op.userId);
      match op
      case JoinOp(_, _, _) => Alive(r)
      case LeaveOp(_, pick) =>
        if !Removable(r, m) then Crash
        else if Leave(r, m, pick).None? then Gone else Alive(Leave(r, m, pick).value)
      case SetOp(_, request) => Alive(if m == r.owner then SetInternal(r, request).0 else r)
    else if op.JoinOp? then Alive(Join(r, op.userId, op.join, op.signaling).0)
    else Alive(r)
  }

  /** From a good room no departure crashes, every command leads to a good room, and only the
      last member's departure ends it. */
  lemma {:induction false} StepKeepsInv(r: Room, op: Op)
    requires Inv(r) && OpOk(op)
    ensures match Step(r, op)
            case Alive(r') => Inv(r')
            case Gone => op.LeaveOp? && UserIds(r.users) == {op.userId}
            case Crash => false
  {
    if op.userId in UserIds(r.users) {
      var m := MemberOf(r, op.userId);
      match op
      case JoinOp(_, _, _) =>
      case LeaveOp(_, pick) => LeaveKeepsInv(r, m, pick);
      case SetOp(_, request) => SetInternalKeepsInv(r, request);
    } else if op.JoinOp? {
      JoinKeepsInv(r, op.userId, op.join, op.signaling);
    }
  }

  ghost predicate Stepped(r: Room, op: Op, r': Room) { OpOk(op) && Step(r, op) == Alive(r') }

  /** A run: the rooms before and after each command. */
  ghost predicate Run(rooms: seq<Room>, ops: seq<Op>) {
    && |rooms| == |ops| + 1
    && forall i {:trigger StepAt(rooms, ops, i)} :: 0 <= i < |ops| ==> StepAt(rooms, ops, i)
  }

  ghost predicate StepAt(rooms: seq<Room>, ops: seq<Op>, i: nat)
    requires i < |ops| && |rooms| == |ops| + 1
  {
    Stepped(rooms[i], ops[i], rooms[i + 1])
  }

  /** In every state of every run from a created room: members on distinct occupied slots, never
      more than max_slot of them, one present owner, FULL set exactly when a room for two or more
      is full - and whatever departure comes next does not crash. */
  lemma {:induction false} EveryRunKeepsInv(rooms: seq<Room>, ops: seq<Op>, n: nat)
    requires Run(rooms, ops) && Inv(rooms[0]) && n <= |ops|
    ensures Inv(rooms[n]) && |rooms[n].users| <= rooms[n].cfg.maxSlot
    ensures forall op :: OpOk(op) ==> !Step(rooms[n], op).Crash?
  {
    GoodRoom(rooms, ops, n);
    UsersFit(rooms[n].users, rooms[n].slots, |rooms[n].groups|);
    hide Step, Inv;
    forall op | OpOk(op)
      ensures !Step(rooms[n], op).Crash?
    {
      StepKeepsInv(rooms[n], op);
    }
  }

  lemma {:induction false} GoodRoom(rooms: seq<Room>, ops: seq<Op>, n: nat)
    requires Run(rooms, ops) && Inv(rooms[0]) && n <= |ops|
    ensures Inv(rooms[n])
  {
    hide Step, Inv;
    if n > 0 {
      GoodRoom(rooms, ops, n - 1);
      assert StepAt(rooms, ops, n - 1);
      StepKeepsInv(rooms[n - 1], ops[n - 1]);
    }
  }

  // ----- Groups over whole runs -----

  lemma {:induction false} StepKeepsGroups(r: Room, op: Op, r': Room)
    requires Inv(r) && GroupInv(r) && AllFixed(r.groups) && Stepped(r, op, r')
    ensures GroupInv(r') && AllFixed(r'.groups)
  {
    if op.userId in UserIds(r.users) {
      var m := MemberOf(r, op.userId);
      match op
      case JoinOp(_, _, _) =>
      case LeaveOp(_, pick) =>
        LeaveKeepsGroups(r, m, pick);
        LeaveKeepsFixed(r, m, pick);
      case SetOp(_, request) => SetInternalKeepsGroups(r, request);
    } else if op.JoinOp? {
      FixedLabelsNeverPanic(r, op.userId, op.join, op.signaling);
      JoinKeepsGroups(r, op.userId, op.join, op.signaling);
      JoinKeepsFixed(r, op.userId, op.join, op.signaling);
    }
  }

  /** In a room whose labels are all fixed at creation, in every state of every run each group's
      count is the number of occupied slots of its segment, rejected joins included, and no join
      reaches the `unreachable!` of the slot search. */
  lemma {:induction false} EveryRunKeepsGroups(rooms: seq<Room>, ops: seq<Op>, n: nat)
    requires Run(rooms, ops) && n <= |ops|
    requires Inv(rooms[0]) && GroupInv(rooms[0]) && AllFixed(rooms[0].groups)
    ensures GroupInv(rooms[n]) && AllFixed(rooms[n].groups)
    ensures forall userId, join, signaling :: !Join(rooms[n], userId, join, signaling).1.JoinPanicked?
  {
    hide Stepped, Step, Inv, GroupInv, AllFixed, Join;
    if n > 0 {
      EveryRunKeepsGroups(rooms, ops, n - 1);
      GoodRoom(rooms, ops, n - 1);
      assert StepAt(rooms, ops, n - 1);
      StepKeepsGroups(rooms[n - 1], ops[n - 1], rooms[n]);
    }
    GoodRoom(rooms, ops, n);
    forall userId, join, signaling
      ensures !Join(rooms[n], userId, join, signaling).1.JoinPanicked?
    {
      FixedLabelsNeverPanic(rooms[n], userId, join, signaling);
    }
  }

  /** The command is a join that runs into the `unreachable!`. */
  ghost predicate PanicsAt(rooms: seq<Room>, ops: seq<Op>, i: nat)
    requires i < |ops| && i < |rooms|
  {
    && ops[i].JoinOp? && ops[i].userId !in UserIds(rooms[i].users)
    && Join(rooms[i], ops[i].userId, ops[i].join, ops[i].signaling).1.JoinPanicked?
  }

  lemma {:induction false} StepGroupsIff(r: Room, op: Op, r': Room)
    requires Inv(r) && GroupInv(r) && Stepped(r, op, r')
    ensures GroupInv(r') <==> !(op.JoinOp? && op.userId !in UserIds(r.users)
                                && Join(r, op.userId, op.join, op.signaling).1.JoinPanicked?)
  {
    hide Inv, GroupInv, Join, Leave, Removable, SetInternal;
    if op.userId in UserIds(r.users) {
      var m := MemberOf(r, op.userId);
      match op
      case JoinOp(_, _, _) =>
      case LeaveOp(_, pick) => LeaveKeepsGroups(r, m, pick);
      case SetOp(_, request) => SetInternalKeepsGroups(r, request);
    } else if op.JoinOp? {
      if Join(r, op.userId, op.join, op.signaling).1.JoinPanicked? {
        PanicBreaksCounts(r, op.userId, op.join, op.signaling);
      } else {
        JoinKeepsGroups(r, op.userId, op.join, op.signaling);
      }
    }
  }

  /** Whatever the labels, over every run: the group counts are exact in every state up to the n-th
      if and only if none of the first n commands is a join that panics. */
  lemma {:induction false} RunGroupsIff(rooms: seq<Room>, ops: seq<Op>, n: nat)
    requires Run(rooms, ops) && n <= |ops| && Inv(rooms[0]) && GroupInv(rooms[0])
    ensures (forall i :: 0 <= i <= n ==> GroupInv(rooms[i])) <==> (forall i :: 0 <= i < n ==> !PanicsAt(rooms, ops, i))
  {
    hide Stepped, Step, Inv, GroupInv, Join, UserIds;
    if n > 0 {
      RunGroupsIff(rooms, ops, n - 1);
      GoodRoom(rooms, ops, n - 1);
      assert StepAt(rooms, ops, n - 1);
      if GroupInv(rooms[n - 1]) {
        StepGroupsIff(rooms[n - 1], ops[n - 1], rooms[n]);
        assert GroupInv(rooms[n]) <==> !PanicsAt(rooms, ops, n - 1);
      }
    }
  }

  /** A request for a room of three groups of one slot each, only the first of them labelled. */
  function ThreeGroups(name: Bytes): CreateRequest {
    CreateRequest(3, 1, 0, 0, [GroupRequest(1, name, false), GroupRequest(1, [], false), GroupRequest(1, [], false)],
                  [], 0, name, NoSignaling, seq(8, _ => 0), seq(64, _ => 0), true)
  }

  predicate OneStranger(req: JoinRequest, name: Bytes) {
    |req.joinLabel| == LABEL_SIZE && req.joinLabel != name && req.password == [] && req.memberDataOk
  }

  /** In such a room the second stranger runs into the panic, although the third group is empty. */
  lemma {:induction false} StrangersPanicInANewRoom(name: Bytes, creator: int, u: int, first: JoinRequest,
                                                    v: int, second: JoinRequest, signaling: Signaling)
    requires |name| == LABEL_SIZE && OneStranger(first, name) && OneStranger(second, name)
    ensures Create(ThreeGroups(name), creator, signaling).Created?
    ensures var r := Create(ThreeGroups(name), creator, signaling).room;
            var (r1, out) := Join(r, u, first, signaling);
            out.Joined? && Join(r1, v, second, signaling).1.JoinPanicked?
  {
    NewRoomOfThree(name, creator, signaling);
    var r := Create(ThreeGroups(name), creator, signaling).room;
    hide Create;
    assert Stranger(r, first, 1) && Stranger(r, second, 1);
    NextStrangerPanics(r, u, first, v, second, signaling, 1);
  }

  lemma {:induction false} NewRoomOfThree(name: Bytes, creator: int, signaling: Signaling)
    requires |name| == LABEL_SIZE
    ensures Create(ThreeGroups(name), creator, signaling).Created?
    ensures var r := Create(ThreeGroups(name), creator, signaling).room;
            && Inv(r) && GroupInv(r) && !IsFull(r.flagAttr) && |r.users| == 1 && r.cfg.maxSlot == 3
            && r.groups == [Group(1, true, Some(name), false, 1), Group(1, false, None, false, 0),
                            Group(1, false, None, false, 0)]
  {
    var req := ThreeGroups(name);
    ThreeSizes(NewGroups(req.groups));
    var r := Create(req, creator, signaling).room;
    ThreeSizes(r.groups);
    CreatedInv(req, creator, signaling);
    CreatedGroupInv(req, creator, signaling);
    assert |r.users| == |r.users.Keys| == 1;
  }

  lemma {:induction false} ThreeSizes(groups: seq<Group>)
    requires |groups| == 3 && forall g :: 0 <= g < 3 ==> groups[g].slotNum == 1
    ensures Start(groups, 3) == 4
  {
    assert Start(groups, 1) == 2 && Start(groups, 2) == 3;
  }

  // ----- Member ids over whole runs -----

  function Ids(a: Allocation): seq<nat> { if a.Granted? then [a.memberId] else [] }

  /** The member id a command allocates, if any; a join that is rejected later has taken one too. */
  function Issued(r: Room, op: Op): seq<nat> {
    if !op.JoinOp? || op.userId in UserIds(r.users) || Precheck(r, op.join).Some? then []
    else Ids(Allocate(r, Optional(op.join.joinLabel), Optional(op.join.password)).1)
  }

  /** Everything issued in the first `n` commands of a run. */
  function Log(rooms: seq<Room>, ops: seq<Op>, n: nat): seq<nat>
    requires n <= |ops| <= |rooms|
  {
    if n == 0 then [] else Log(rooms, ops, n - 1) + Issued(rooms[n - 1], ops[n - 1])
  }

  /** Ids whose low four bits count up from `c`. */
  ghost predicate InTurn(ids: seq<nat>, c: nat) {
    forall i :: 0 <= i < |ids| ==> ids[i] % 16 == (c + i) % 16
  }

  lemma {:induction false} OutcomeInTurn(r: Room, r1: Room, a: Allocation, userId: int, join: JoinRequest,
                                         signaling: Signaling)
    requires r.counter < 16 && Outcome(r, r1, a)
    ensures InTurn(Ids(a), r.counter)
    ensures JoinWith(r1, a, userId, join, signaling).0.counter == (r.counter + |Ids(a)|) % 16
  {
    if a.Granted? {
      MemberIdSplits(SlotOf(a.memberId), r.counter);
      SingleInTurn(a.memberId, r.counter);
    }
  }

  lemma {:induction false} SingleInTurn(id: nat, c: nat)
    requires id % 16 == c < 16
    ensures InTurn([id], c)
  {
  }

  lemma {:induction false} EmptyInTurn(c: nat)
    requires c < 16
    ensures InTurn([], c) && c % 16 == c
  {
  }

  lemma {:induction false} StepInTurn(r: Room, op: Op, r': Room)
    requires r.counter < 16 && Stepped(r, op, r')
    ensures InTurn(Issued(r, op), r.counter) && r'.counter == (r.counter + |Issued(r, op)|) % 16
  {
    hide Allocate, Outcome, JoinWith, Precheck, Ids;
    if op.JoinOp? && op.userId !in UserIds(r.users) && Precheck(r, op.join).None? {
      var (r1, a) := Allocate(r, Optional(op.join.joinLabel), Optional(op.join.password));
      AllocateTakes(r, Optional(op.join.joinLabel), Optional(op.join.password));
      OutcomeInTurn(r, r1, a, op.userId, op.join, op.signaling);
    }
  }

  lemma {:induction false} InTurnConcat(a: seq<nat>, b: seq<nat>, c: nat)
    requires InTurn(a, c) && InTurn(b, (c + |a|) % 16)
    ensures InTurn(a + b, c) && ((c + |a|) % 16 + |b|) % 16 == (c + |a + b|) % 16
  {
    forall i | 0 <= i < |a + b|
      ensures (a + b)[i] % 16 == (c + i) % 16
    {
      if i >= |a| {
        assert b[i - |a|] % 16 == ((c + |a|) % 16 + (i - |a|)) % 16;
      }
    }
  }

  lemma {:induction false} LogInTurn(rooms: seq<Room>, ops: seq<Op>, n: nat)
    requires Run(rooms, ops) && rooms[0].counter < 16 && n <= |ops|
    ensures InTurn(Log(rooms, ops, n), rooms[0].counter)
    ensures rooms[n].counter == (rooms[0].counter + |Log(rooms, ops, n)|) % 16
  {
    hide Stepped, Step, Issued, InTurn;
    if n == 0 {
      EmptyInTurn(rooms[0].counter);
    } else {
      LogInTurn(rooms, ops, n - 1);
      assert StepAt(rooms, ops, n - 1);
      StepInTurn(rooms[n - 1], ops[n - 1], rooms[n]);
      InTurnConcat(Log(rooms, ops, n - 1), Issued(rooms[n - 1], ops[n - 1]), rooms[0].counter);
    }
  }

  lemma {:induction false} InTurnDistinct(ids: seq<nat>, c: nat, i: nat, j: nat)
    requires InTurn(ids, c) && i < j < |ids| && j < i + 16
    ensures ids[i] != ids[j]
  {
    assert ids[i] % 16 == (c + i) % 16 && ids[j] % 16 == (c + j) % 16;
  }

  /** Everything issued in the life of a room, the creator's own member id first. */
  function LifeLog(rooms: seq<Room>, ops: seq<Op>): seq<nat>
    requires |ops| <= |rooms|
  {
    [MemberId(1, 0)] + Log(rooms, ops, |ops|)
  }

  lemma {:induction false} CreatedCounter(req: CreateRequest, userId: int, signaling: Signaling)
    requires Create(req, userId, signaling).Created?
    ensures var r := Create(req, userId, signaling).room; r.counter == 1 && r.owner == MemberId(1, 0)
    ensures InTurn([MemberId(1, 0)], 0)
  {
    MemberIdSplits(1, 0);
    SingleInTurn(MemberId(1, 0), 0);
  }

  /** From creation on, one member id is never issued twice within 16 consecutive allocations. */
  lemma {:induction false} IdsNotReusedSoon(req: CreateRequest, userId: int, signaling: Signaling, rooms: seq<Room>,
                                            ops: seq<Op>, i: nat, j: nat)
    requires Run(rooms, ops) && Create(req, userId, signaling) == Created(rooms[0])
    requires i < j < |LifeLog(rooms, ops)| && j < i + 16
    ensures rooms[0].owner == LifeLog(rooms, ops)[0]
    ensures LifeLog(rooms, ops)[i] != LifeLog(rooms, ops)[j]
  {
    hide Create, StepAt, InTurn, Log, MemberId;
    CreatedCounter(req, userId, signaling);
    LogInTurn(rooms, ops, |ops|);
    InTurnConcat([MemberId(1, 0)], Log(rooms, ops, |ops|), 0);
    InTurnDistinct(LifeLog(rooms, ops), 0, i, j);
  }

  // ----- Slots lost to rejected joins -----

  function Occupancy(slots: seq<bool>): nat { Count(slots, 1, |slots|) }

  /** Slots a command takes without adding a member: a join whose member data is malformed is
      rejected only after its slot was taken, and nothing gives that slot back. */
  function Lost(r: Room, op: Op): nat {
    if op.JoinOp? && !op.join.memberDataOk then |Issued(r, op)| else 0
  }

  function AllLost(rooms: seq<Room>, ops: seq<Op>, n: nat): nat
    requires n <= |ops| <= |rooms|
  {
    if n == 0 then 0 else AllLost(rooms, ops, n - 1) + Lost(rooms[n - 1], ops[n - 1])
  }

  lemma {:induction false} OccupancySet(slots: seq<bool>, slot: nat, b: bool)
    requires 1 <= slot <= |slots| && slots[slot - 1] != b
    ensures Occupancy(slots[slot - 1 := b]) == Occupancy(slots) + if b then 1 else -1
  {
    CountSet(slots, 1, |slots|, slot, b);
  }

  lemma {:induction false} OutcomeOccupancy(r: Room, r1: Room, a: Allocation, userId: int, join: JoinRequest,
                                            signaling: Signaling)
    requires Inv(r) && userId !in UserIds(r.users) && Outcome(r, r1, a)
    ensures var r' := JoinWith(r1, a, userId, join, signaling).0;
            Occupancy(r'.slots) - |r'.users|
            == Occupancy(r.slots) - |r.users| + if join.memberDataOk then 0 else |Ids(a)|
  {
    if a.Granted? {
      OccupancySet(r.slots, SlotOf(a.memberId), true);
      AddMember(r.users, r.slots, |r.groups|, a.memberId, User(userId, 0, a.groupId, signaling));
    }
  }

  lemma {:induction false} LeaveOccupancy(r: Room, m: nat, pick: nat)
    requires Inv(r) && m in r.users && Leave(r, m, pick).Some?
    ensures var r' := Leave(r, m, pick).value;
            Occupancy(r'.slots) - |r'.users| == Occupancy(r.slots) - |r.users|
  {
    OccupancySet(r.slots, SlotOf(m), false);
    LeaveParts(r, m, pick);
    var r' := Leave(r, m, pick).value;
    hide Leave, Inv, Occupancy;
    assert |r'.users.Keys| == |r.users.Keys| - 1;
  }

  lemma {:induction false} LeaveParts(r: Room, m: nat, pick: nat)
    requires Removable(r, m) && Leave(r, m, pick).Some?
    ensures var r' := Leave(r, m, pick).value;
            r'.slots == r.slots[SlotOf(m) - 1 := false] && r'.users.Keys == r.users.Keys - {m}
  {
  }

  lemma {:induction false} StepOccupancy(r: Room, op: Op, r': Room)
    requires Inv(r) && Stepped(r, op, r')
    ensures Occupancy(r'.slots) - |r'.users| == Occupancy(r.slots) - |r.users| + Lost(r, op)
  {
    hide Allocate, Outcome, JoinWith, Leave, Precheck, Ids, Occupancy, Inv;
    if op.userId in UserIds(r.users) {
      if op.LeaveOp? {
        LeaveOccupancy(r, MemberOf(r, op.userId), op.pick);
      }
    } else if op.JoinOp? && Precheck(r, op.join).None? {
      var (r1, a) := Allocate(r, Optional(op.join.joinLabel), Optional(op.join.password));
      GoodCounter(r);
      AllocateTakes(r, Optional(op.join.joinLabel), Optional(op.join.password));
      OutcomeOccupancy(r, r1, a, op.userId, op.join, op.signaling);
    }
  }

  lemma {:induction false} GoodCounter(r: Room)
    requires Inv(r)
    ensures r.counter < 16
  {
  }

  /** Conservation over every run: occupied slots are members plus the slots lost so far, so
      without a rejected join the occupied slots are exactly the members' slots. */
  lemma {:induction false} OccupancyConserved(rooms: seq<Room>, ops: seq<Op>, n: nat)
    requires Run(rooms, ops) && Inv(rooms[0]) && n <= |ops|
    requires Occupancy(rooms[0].slots) == |rooms[0].users|
    ensures Occupancy(rooms[n].slots) == |rooms[n].users| + AllLost(rooms, ops, n)
  {
    hide Stepped, Step, Inv, Lost, Occupancy;
    if n > 0 {
      OccupancyConserved(rooms, ops, n - 1);
      GoodRoom(rooms, ops, n - 1);
      assert StepAt(rooms, ops, n - 1);
      StepOccupancy(rooms[n - 1], ops[n - 1], rooms[n]);
    }
  }

  /** So the occupied slots are the members' slots exactly as long as no command lost one. */
  lemma {:induction false} LosslessIff(rooms: seq<Room>, ops: seq<Op>, n: nat)
    requires Run(rooms, ops) && Inv(rooms[0]) && n <= |ops|
    requires Occupancy(rooms[0].slots) == |rooms[0].users|
    ensures Occupancy(rooms[n].slots) == |rooms[n].users| <==> forall i :: 0 <= i < n ==> Lost(rooms[i], ops[i]) == 0
  {
    hide StepAt, Occupancy, Lost, Inv;
    OccupancyConserved(rooms, ops, n);
    LostSum(rooms, ops, n);
  }

  lemma {:induction false} LostSum(rooms: seq<Room>, ops: seq<Op>, n: nat)
    requires n <= |ops| <= |rooms|
    ensures AllLost(rooms, ops, n) == 0 <==> forall i :: 0 <= i < n ==> Lost(rooms[i], ops[i]) == 0
  {
    hide Lost;
    if n > 0 {
      LostSum(rooms, ops, n - 1);
    }
  }

  /** The request that loses a slot: a join with malformed member data that was granted one. It is
      refused, nobody joins, and one slot more is taken. */
  lemma {:induction false} MalformedJoinLosesASlot(r: Room, op: Op)
    requires Inv(r) && op.JoinOp? && op.userId !in UserIds(r.users)
    requires Precheck(r, op.join).None? && !op.join.memberDataOk
    requires Allocate(r, Optional(op.join.joinLabel), Optional(op.join.password)).1.Granted?
    ensures var (r', out) := Join(r, op.userId, op.join, op.signaling);
            out == NotJoined(Malformed) && r'.users == r.users && Occupancy(r'.slots) == Occupancy(r.slots) + 1
    ensures Lost(r, op) == 1
  {
    var (r1, a) := Allocate(r, Optional(op.join.joinLabel), Optional(op.join.password));
    AllocateTakes(r, Optional(op.join.joinLabel), Optional(op.join.password));
    hide Allocate, Inv;
    OccupancySet(r.slots, SlotOf(a.memberId), true);
  }

  /** What a lost slot costs: in a room without groups and private slots, a plain join succeeds
      exactly while fewer slots than max_slot are occupied, by members or by nobody. */
  lemma {:induction false} PlainJoinIff(r: Room, userId: int, signaling: Signaling)
    requires Inv(r) && userId !in UserIds(r.users) && r.groups == [] && r.slotMask == 0
    ensures Join(r, userId, JoinRequest([], [], true), signaling).1.Joined? <==> Occupancy(r.slots) < r.cfg.maxSlot
  {
    var found := FindSlot(r.slots, r.slotMask, false, 1);
    if Occupancy(r.slots) < r.cfg.maxSlot {
      FreeBelow(r.slots, 1, |r.slots|);
      var s :| 1 <= s < 1 + |r.slots| && Free(r.slots, s);
      assert !IsSlotPrivate(0, s);
      NotFullYet(r);
    } else {
      AllOccupied(r.slots, 1, |r.slots|);
      assert found.Some? ==> !Occupied(r.slots, found.value);
    }
  }

  /** Below full occupancy the FULL flag is off. */
  lemma {:induction false} NotFullYet(r: Room)
    requires Inv(r) && Occupancy(r.slots) < r.cfg.maxSlot
    ensures !IsFull(r.flagAttr)
  {
    FreeBelow(r.slots, 1, |r.slots|);
    var s :| 1 <= s < 1 + |r.slots| && Free(r.slots, s);
    FreeMeansFewer(r.users, r.slots, |r.groups|, s);
  }

  lemma {:induction false} FreeMeansFewer(users: Users, slots: seq<bool>, groups: nat, s: nat)
    requires Seated(users, slots, groups) && AllApart(users) && Free(slots, s)
    ensures |users| < |slots|
  {
    var stranger := Above(UserIds(users));
    var id := MemberId(s, 0);
    MemberIdSplits(s, 0);
    var u := User(stranger, 0, 0, Signaling([], 0, None, []));
    AddMember(users, slots, groups, id, u);
    UsersFit(users[id := u], slots[s - 1 := true], groups);
  }

  lemma {:induction false} Above(ids: set<int>) returns (u: int)
    ensures forall x :: x in ids ==> x < u
  {
    u := 0;
    if x :| x in ids {
      var v := Above(ids - {x});
      u := if x < v then v else x + 1;
      forall y | y in ids
        ensures y < u
      {
        assert y == x || y in ids - {x};
      }
    }
  }
}

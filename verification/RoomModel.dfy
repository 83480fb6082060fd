/** One Matching2 room as a value: slots, member ids, groups, owner and flags, and what
    allocation, join, leave and the owner's flag update make of it. */
module RoomModel {
  import opened Prelude

  const FLAG_FULL: bv32 := 0x20000000
  const MEMBER_FLAG_OWNER: bv32 := 0x80000000

  type Bytes = seq<byte>

  datatype Error =
    | Malformed | RoomMissing | RoomAlreadyJoined | RoomFull | RoomPasswordMismatch | RoomPasswordMissing
    | RoomGroupNoJoinLabel | RoomGroupFull | RoomGroupJoinLabelNotFound | RoomGroupMaxSlotMismatch
    | Unauthorized | NotFound

  datatype Group = Group(slotNum: nat, fixedLabel: bool, groupLabel: Option<Bytes>, withPassword: bool, numMembers: nat)

  datatype Signaling = Signaling(ipv4: Bytes, port: nat, ipv6: Option<(Bytes, nat)>, local: Bytes)

  datatype User = User(userId: int, flagAttr: bv32, groupId: nat, signaling: Signaling)

  datatype SignalParam = NoSignaling | Mesh(flag: bv8) | Star(flag: bv8, hub: nat)

  /** What none of the commands modelled here changes. */
  datatype Config = Config(maxSlot: nat, worldId: nat, lobbyId: nat, password: Option<Bytes>,
                           signaling: SignalParam, ints: seq<nat>, bin: Bytes)

  datatype Room = Room(cfg: Config, flagAttr: bv32, groups: seq<Group>, slotMask: bv64,
                       slots: seq<bool>, counter: nat, users: map<nat, User>, owner: nat, succession: seq<nat>)

  // ----- Flags -----

  predicate IsFull(flags: bv32) { flags & FLAG_FULL != 0 }
  predicate IsOwner(flags: bv32) { flags & MEMBER_FLAG_OWNER != 0 }
  function SetFull(flags: bv32): bv32 { flags | FLAG_FULL }
  function ClearFull(flags: bv32): bv32 { flags & !FLAG_FULL }
  function SetOwner(flags: bv32): bv32 { flags | MEMBER_FLAG_OWNER }

  /** The owner's update: bits under `filter` come from `attr`, except the protected FULL bit. */
  function Blend(flags: bv32, filter: bv32, attr: bv32): bv32 {
    (ClearFull(attr) & ClearFull(filter)) | (flags & !ClearFull(filter))
  }

  lemma {:induction false} FlagLaws(flags: bv32, filter: bv32, attr: bv32)
    ensures IsFull(SetFull(flags)) && !IsFull(ClearFull(flags))
    ensures IsFull(Blend(flags, filter, attr)) == IsFull(flags)
    ensures IsOwner(SetOwner(flags)) && IsOwner(MEMBER_FLAG_OWNER) && !IsOwner(0)
  {
  }

  // ----- Slots -----

  /** `is_slot_private`: the mask and the number `64 - slot` share a bit. */
  predicate IsSlotPrivate(mask: bv64, slot: nat) {
    var k := 64 - slot;
    || (k % 2 == 1 && mask & 1 != 0)
    || (k / 2 % 2 == 1 && mask & 2 != 0)
    || (k / 4 % 2 == 1 && mask & 4 != 0)
    || (k / 8 % 2 == 1 && mask & 8 != 0)
    || (k / 16 % 2 == 1 && mask & 16 != 0)
    || (k / 32 % 2 == 1 && mask & 32 != 0)
  }

  /** Slots are numbered from 1. */
  predicate Occupied(slots: seq<bool>, slot: nat) { 1 <= slot <= |slots| && slots[slot - 1] }
  predicate Free(slots: seq<bool>, slot: nat) { 1 <= slot <= |slots| && !slots[slot - 1] }

  /** The first free slot of the wanted kind from `slot` on. */
  function FindSlot(slots: seq<bool>, mask: bv64, private: bool, slot: nat): (r: Option<nat>)
    requires 1 <= slot
    ensures r.Some? ==> Free(slots, r.value) && private == IsSlotPrivate(mask, r.value)
    ensures forall s :: slot <= s <= |slots| && (r.Some? ==> s < r.value) && Free(slots, s) ==>
              private != IsSlotPrivate(mask, s)
    decreases |slots| - slot
  {
    if slot > |slots| then None
    else if !slots[slot - 1] && private == IsSlotPrivate(mask, slot) then Some(slot)
    else FindSlot(slots, mask, private, slot + 1)
  }

  /** The first free slot among `count` slots from `start` on. */
  function FindIn(slots: seq<bool>, start: nat, count: nat): (r: Option<nat>)
    requires 1 <= start
    ensures r.Some? ==> start <= r.value < start + count && Free(slots, r.value)
    ensures forall s :: start <= s < start + count && (r.Some? ==> s < r.value) ==> !Free(slots, s)
    decreases count
  {
    if count == 0 || start > |slots| then None
    else if !slots[start - 1] then Some(start)
    else FindIn(slots, start + 1, count - 1)
  }

  /** How many of `count` slots from `start` on are occupied. */
  function Count(slots: seq<bool>, start: nat, count: nat): (n: nat)
    requires 1 <= start
    ensures n <= count
  {
    if count == 0 then 0
    else (if Occupied(slots, start + count - 1) then 1 else 0) + Count(slots, start, count - 1)
  }

  lemma {:induction false} CountBelow(slots: seq<bool>, start: nat, count: nat)
    requires 1 <= start && start + count <= |slots| + 1
    ensures Count(slots, start, count) < count <==> FindIn(slots, start, count).Some?
  {
    if Count(slots, start, count) < count {
      FreeBelow(slots, start, count);
    } else {
      AllOccupied(slots, start, count);
      assert FindIn(slots, start, count).Some? ==> !Occupied(slots, FindIn(slots, start, count).value);
    }
  }

  lemma {:induction false} FreeBelow(slots: seq<bool>, start: nat, count: nat)
    requires 1 <= start && start + count <= |slots| + 1 && Count(slots, start, count) < count
    ensures exists s :: start <= s < start + count && Free(slots, s)
    decreases count
  {
    var last := start + count - 1;
    if Free(slots, last) {
    } else {
      FreeBelow(slots, start, count - 1);
    }
  }

  lemma {:induction false} AllOccupied(slots: seq<bool>, start: nat, count: nat)
    requires 1 <= start && Count(slots, start, count) == count
    ensures forall s :: start <= s < start + count ==> Occupied(slots, s)
    decreases count
  {
    if count > 0 {
      AllOccupied(slots, start, count - 1);
    }
  }

  /** Changing one slot changes the count of its own segment by one and no other. */
  lemma {:induction false} CountSet(slots: seq<bool>, start: nat, count: nat, slot: nat, b: bool)
    requires 1 <= start && 1 <= slot <= |slots|
    ensures Count(slots[slot - 1 := b], start, count)
            == Count(slots, start, count)
               + if start <= slot < start + count
                 then (if b then 1 else 0) - (if slots[slot - 1] then 1 else 0) else 0
    decreases count
  {
    if count > 0 {
      CountSet(slots, start, count - 1, slot, b);
    }
  }

  // ----- Group segments -----

  /** The first slot of group `g`. */
  function Start(groups: seq<Group>, g: nat): (s: nat)
    requires g <= |groups|
    ensures s >= 1
  {
    if g == 0 then 1 else Start(groups, g - 1) + groups[g - 1].slotNum
  }

  predicate InSegment(groups: seq<Group>, g: nat, slot: nat)
    requires g < |groups|
  {
    Start(groups, g) <= slot < Start(groups, g) + groups[g].slotNum
  }

  lemma {:induction false} StartGrows(groups: seq<Group>, g: nat, h: nat)
    requires g < h <= |groups|
    ensures Start(groups, g) + groups[g].slotNum <= Start(groups, h)
    decreases h
  {
    if g + 1 < h {
      StartGrows(groups, g, h - 1);
    }
  }

  /** Segments do not overlap. */
  lemma {:induction false} SegmentUnique(groups: seq<Group>, g: nat, h: nat, slot: nat)
    requires g < |groups| && h < |groups| && InSegment(groups, g, slot) && InSegment(groups, h, slot)
    ensures g == h
  {
    if g < h {
      StartGrows(groups, g, h);
    } else if h < g {
      StartGrows(groups, h, g);
    }
  }

  /** Segments depend on the sizes of the groups only. */
  predicate SameSizes(a: seq<Group>, b: seq<Group>) {
    |a| == |b| && forall g :: 0 <= g < |a| ==> a[g].slotNum == b[g].slotNum
  }

  lemma {:induction false} StartSame(a: seq<Group>, b: seq<Group>, g: nat)
    requires SameSizes(a, b) && g <= |a|
    ensures Start(a, g) == Start(b, g)
  {
    if g > 0 {
      StartSame(a, b, g - 1);
    }
  }

  // ----- Allocating a member id -----

  /** A member id is the slot, shifted, plus a 4-bit counter that moves on at every allocation. */
  function MemberId(slot: nat, counter: nat): nat { slot * 16 + counter }
  function SlotOf(memberId: nat): nat { memberId / 16 }

  datatype Allocation = Granted(groupId: nat, memberId: nat) | Refused(error: Error) | Panicked

  function Occupy(r: Room, slot: nat): Room
    requires Free(r.slots, slot)
  {
    r.(slots := r.slots[slot - 1 := true], counter := (r.counter + 1) % 16)
  }

  /** The first group with that label, or the number of groups. */
  function WithLabel(groups: seq<Group>, wanted: Bytes): (g: nat)
    ensures g <= |groups|
    ensures g < |groups| ==> groups[g].groupLabel == Some(wanted)
    ensures forall h :: 0 <= h < g ==> groups[h].groupLabel != Some(wanted)
  {
    if groups == [] || groups[0].groupLabel == Some(wanted) then 0 else 1 + WithLabel(groups[1..], wanted)
  }

  /** The first group without a label that may be tried, or the number of groups. */
  function Unlabelled(groups: seq<Group>, noPassword: bool): (g: nat)
    ensures g <= |groups|
    ensures g < |groups| ==> groups[g].groupLabel.None? && !(groups[g].withPassword && noPassword)
    ensures forall h :: 0 <= h < g && groups[h].groupLabel.None? ==> groups[h].withPassword && noPassword
  {
    if groups == [] || (groups[0].groupLabel.None? && !(groups[0].withPassword && noPassword)) then 0
    else 1 + Unlabelled(groups[1..], noPassword)
  }

  /** Count a member in group `g`, then search its segment; finding nothing is a panic. */
  function AllocateInGroup(r: Room, g: nat): (Room, Allocation)
    requires g < |r.groups|
  {
    var group := r.groups[g];
    var r1 := r.(groups := r.groups[g := group.(numMembers := group.numMembers + 1)]);
    match FindIn(r.slots, Start(r.groups, g), group.slotNum)
    case None => (r1, Panicked)
    case Some(slot) => (Occupy(r1, slot), Granted((g + 1) % 256, MemberId(slot, r.counter)))
  }

  function AllocateSlot(r: Room, slot: Option<nat>): (Room, Allocation)
    requires slot.Some? ==> Free(r.slots, slot.value)
  {
    match slot
    case None => (r, Refused(RoomFull))
    case Some(n) => (Occupy(r, n), Granted(0, MemberId(n, r.counter)))
  }

  /** `get_a_slot`. */
  function Allocate(r: Room, joinLabel: Option<Bytes>, password: Option<Bytes>): (Room, Allocation) {
    if r.groups != [] then
      if joinLabel.None? then (r, Refused(RoomGroupNoJoinLabel))
      else
        var g := WithLabel(r.groups, joinLabel.value);
        if g < |r.groups| then
          if r.groups[g].withPassword && password != r.cfg.password then (r, Refused(RoomPasswordMismatch))
          else if r.groups[g].numMembers >= r.groups[g].slotNum then (r, Refused(RoomGroupFull))
          else AllocateInGroup(r, g)
        else
          var h := Unlabelled(r.groups, password.None?);
          if h == |r.groups| then (r, Refused(RoomGroupJoinLabelNotFound))
          else if r.groups[h].withPassword && password != r.cfg.password then (r, Refused(RoomPasswordMismatch))
          else AllocateInGroup(r, h)
    else if password.None? then AllocateSlot(r, FindSlot(r.slots, r.slotMask, false, 1))
    else if password != r.cfg.password then (r, Refused(RoomPasswordMismatch))
    else
      var private := FindSlot(r.slots, r.slotMask, true, 1);
      AllocateSlot(r, if private.Some? then private else FindSlot(r.slots, r.slotMask, false, 1))
  }

  /** What a granted allocation did: it took the free slot its member id names and touched
      nothing but slots, counter and group counts. */
  predicate Took(r: Room, r1: Room, groupId: nat, memberId: nat) {
    var slot := SlotOf(memberId);
    && Free(r.slots, slot)
    && memberId == MemberId(slot, r.counter)
    && groupId <= |r.groups| && SameSizes(r.groups, r1.groups)
    && r1 == Occupy(r, slot).(groups := r1.groups)
  }

  lemma {:induction false} MemberIdSplits(slot: nat, counter: nat)
    requires counter < 16
    ensures SlotOf(MemberId(slot, counter)) == slot && MemberId(slot, counter) % 16 == counter
  {
  }

  lemma {:induction false} AllocateInGroupTakes(r: Room, g: nat)
    requires g < |r.groups| && r.counter < 16
    ensures Outcome(r, AllocateInGroup(r, g).0, AllocateInGroup(r, g).1)
  {
    var slot := FindIn(r.slots, Start(r.groups, g), r.groups[g].slotNum);
    if slot.Some? {
      MemberIdSplits(slot.value, r.counter);
    }
  }

  lemma {:induction false} AllocateSlotTakes(r: Room, slot: Option<nat>)
    requires (slot.Some? ==> Free(r.slots, slot.value)) && r.counter < 16
    ensures Outcome(r, AllocateSlot(r, slot).0, AllocateSlot(r, slot).1)
  {
    if slot.Some? {
      MemberIdSplits(slot.value, r.counter);
    }
  }

  /** Every way an allocation can end. A panic leaves the group one member too high. */
  predicate Outcome(r: Room, r1: Room, a: Allocation) {
    match a
    case Refused(_) => r1 == r
    case Granted(groupId, memberId) => Took(r, r1, groupId, memberId)
    case Panicked => r1 == r.(groups := r1.groups) && SameSizes(r.groups, r1.groups)
  }

  lemma {:induction false} AllocateTakes(r: Room, joinLabel: Option<Bytes>, password: Option<Bytes>)
    requires r.counter < 16
    ensures Outcome(r, Allocate(r, joinLabel, password).0, Allocate(r, joinLabel, password).1)
  {
    if r.groups != [] && joinLabel.Some? {
      var g := WithLabel(r.groups, joinLabel.value);
      var h := Unlabelled(r.groups, password.None?);
      if g < |r.groups| {
        AllocateInGroupTakes(r, g);
      } else if h < |r.groups| {
        AllocateInGroupTakes(r, h);
      }
    } else if r.groups == [] {
      var private := FindSlot(r.slots, r.slotMask, true, 1);
      var public := FindSlot(r.slots, r.slotMask, false, 1);
      AllocateSlotTakes(r, private);
      AllocateSlotTakes(r, public);
    }
  }

  // ----- Joining -----

  datatype JoinRequest = JoinRequest(joinLabel: Bytes, password: Bytes, memberDataOk: bool)

  datatype JoinOutcome = Joined(memberId: nat) | NotJoined(error: Error) | JoinPanicked

  const LABEL_SIZE: nat := 8
  const PASSWORD_SIZE: nat := 8

  function Optional(b: Bytes): Option<Bytes> { if b == [] then None else Some(b) }

  /** Put a user under a freshly allocated member id and set FULL if that was the last place. */
  function Admit(r: Room, groupId: nat, memberId: nat, userId: int, signaling: Signaling): Room {
    var users := r.users[memberId := User(userId, 0, groupId, signaling)];
    r.(users := users, flagAttr := if |users| == r.cfg.maxSlot then SetFull(r.flagAttr) else r.flagAttr)
  }

  /** After the allocation `a` turned the room into `r`. Malformed member data is noticed
      only here, when the slot is already taken. */
  function JoinWith(r: Room, a: Allocation, userId: int, req: JoinRequest, signaling: Signaling): (Room, JoinOutcome) {
    match a
    case Refused(e) => (r, NotJoined(e))
    case Panicked => (r, JoinPanicked)
    case Granted(groupId, memberId) =>
      if !req.memberDataOk then (r, NotJoined(Malformed))
      else (Admit(r, groupId, memberId, userId, signaling), Joined(memberId))
  }

  function Precheck(r: Room, req: JoinRequest): Option<Error> {
    if IsFull(r.flagAttr) then Some(RoomFull)
    else if req.joinLabel != [] && |req.joinLabel| != LABEL_SIZE then Some(Malformed)
    else if req.password != [] && |req.password| != PASSWORD_SIZE then Some(Malformed)
    else None
  }

  /** The room part of `join_room`. */
  function Join(r: Room, userId: int, req: JoinRequest, signaling: Signaling): (Room, JoinOutcome) {
    match Precheck(r, req)
    case Some(e) => (r, NotJoined(e))
    case None =>
      var (r1, a) := Allocate(r, Optional(req.joinLabel), Optional(req.password));
      JoinWith(r1, a, userId, req, signaling)
  }

  // ----- Leaving -----

  function UserIds(users: map<nat, User>): set<int> { set m | m in users :: users[m].userId }

  /** The member id of an account that is in the room. */
  ghost function MemberOf(r: Room, userId: int): (m: nat)
    requires userId in UserIds(r.users)
    ensures m in r.users && r.users[m].userId == userId
  {
    var m :| m in r.users && r.users[m].userId == userId; m
  }

  const U32_MAX: nat := 0xFFFF_FFFF

  /** One member fewer; the counter wraps below zero, and an emptied group forgets a label it was given later. */
  function Shrink(g: Group): Group {
    var n := if g.numMembers == 0 then U32_MAX else g.numMembers - 1;
    g.(numMembers := n, groupLabel := if n == 0 && !g.fixedLabel then None else g.groupLabel)
  }

  /** The index of the first listed successor who is present, or the length. */
  function Successor(succession: seq<nat>, users: map<nat, User>): (i: nat)
    ensures i <= |succession|
    ensures i < |succession| ==> succession[i] in users
    ensures forall j :: 0 <= j < i ==> succession[j] !in users
  {
    if succession == [] || succession[0] in users then 0 else 1 + Successor(succession[1..], users)
  }

  function Crown(users: map<nat, User>, m: nat): map<nat, User>
    requires m in users
  {
    users[m := users[m].(flagAttr := SetOwner(users[m].flagAttr))]
  }

  /** Taking member `m` out needs its slot to be occupied and its group to exist; the server
      unwraps the one and indexes by the other. */
  predicate Removable(r: Room, m: nat) {
    m in r.users && Occupied(r.slots, SlotOf(m)) && r.users[m].groupId <= |r.groups|
  }

  /** Take member `m` out: its place in the group, its slot and the FULL flag. */
  function Remove(r: Room, m: nat): Room
    requires Removable(r, m)
  {
    var users := r.users - {m};
    var g := r.users[m].groupId;
    r.(users := users,
       groups := if g == 0 then r.groups else r.groups[g - 1 := Shrink(r.groups[g - 1])],
       slots := r.slots[SlotOf(m) - 1 := false],
       flagAttr := if |users| != r.cfg.maxSlot then ClearFull(r.flagAttr) else r.flagAttr)
  }

  /** The random draw among the members: `pick` if it is one of them, else some member. */
  ghost function Draw(users: map<nat, User>, pick: nat): (m: nat)
    requires users != map[]
    ensures m in users && (pick in users ==> m == pick)
  {
    if pick in users then pick else var m :| m in users; m
  }

  /** Hand the room on after its owner left. */
  ghost function HandOver(r: Room, pick: nat): Room
    requires r.users != map[]
  {
    var i := Successor(r.succession, r.users);
    if i < |r.succession|
    then r.(owner := r.succession[i], users := Crown(r.users, r.succession[i]), succession := r.succession[i + 1..])
    else var heir := Draw(r.users, pick); r.(owner := heir, users := Crown(r.users, heir), succession := [])
  }

  /** The room part of `leave_room`; the room is gone when nobody is left. */
  ghost function Leave(r: Room, m: nat, pick: nat): Option<Room>
    requires Removable(r, m)
  {
    var r1 := Remove(r, m);
    if m != r.owner then Some(r1)
    else if r1.users == map[] then None
    else Some(HandOver(r1, pick))
  }

  // ----- Creating -----

  datatype GroupRequest = GroupRequest(slotNum: nat, groupLabel: Bytes, withPassword: bool)

  /** `wellFormed` stands for the verification of the nested fields that are not modelled. */
  datatype CreateRequest = CreateRequest(maxSlot: nat, worldId: nat, lobbyId: nat, flagAttr: bv32,
                                         groups: seq<GroupRequest>, password: Bytes, slotMask: bv64, joinLabel: Bytes,
                                         signaling: SignalParam, ints: seq<nat>, bin: Bytes, wellFormed: bool)

  datatype Creation = Created(room: Room) | NotCreated(error: Error)

  function NewGroup(g: GroupRequest): Group {
    var fixed := |g.groupLabel| == LABEL_SIZE;
    Group(g.slotNum, fixed, if fixed then Some(g.groupLabel) else None, g.withPassword, 0)
  }

  function NewGroups(gs: seq<GroupRequest>): (r: seq<Group>)
    ensures |r| == |gs|
    ensures forall i :: 0 <= i < |gs| ==> r[i] == NewGroup(gs[i])
  {
    if gs == [] then [] else [NewGroup(gs[0])] + NewGroups(gs[1..])
  }

  /** The room before its groups are checked: the creator takes slot 1 and owns it. */
  function Opened(req: CreateRequest, userId: int, signaling: Signaling): Room {
    var password := if |req.password| == PASSWORD_SIZE then Some(req.password) else None;
    var cfg := Config(req.maxSlot, req.worldId, req.lobbyId, password, req.signaling, req.ints, req.bin);
    var id := MemberId(1, 0);
    Room(cfg, ClearFull(req.flagAttr), NewGroups(req.groups), req.slotMask,
         seq(req.maxSlot, i => i == 0), 1,
         map[id := User(userId, MEMBER_FLAG_OWNER, if req.groups == [] then 0 else 1, signaling)], id, [])
  }

  function GroupsError(r: Room, req: CreateRequest): Option<Error>
    requires r.groups != []
  {
    if (Start(r.groups, |r.groups|) - 1) % 0x1_0000_0000 != req.maxSlot then Some(RoomGroupMaxSlotMismatch)
    else if (exists g :: 0 <= g < |r.groups| && r.groups[g].withPassword) && r.cfg.password.None?
    then Some(RoomPasswordMissing)
    else if req.joinLabel == [] then Some(RoomGroupNoJoinLabel)
    else if |req.joinLabel| != LABEL_SIZE then Some(Malformed)
    else if r.groups[0].groupLabel.Some? && r.groups[0].groupLabel != Some(req.joinLabel) then Some(Malformed)
    else None
  }

  /** `create_room` up to the registration of the room. */
  function Create(req: CreateRequest, userId: int, signaling: Signaling): Creation {
    if !(1 <= req.maxSlot <= 64) || !req.wellFormed then NotCreated(Malformed)
    else
      var r := Opened(req, userId, signaling);
      if r.groups != [] then
        match GroupsError(r, req)
        case Some(e) => NotCreated(e)
        case None =>
          var first := r.groups[0].(groupLabel := Some(req.joinLabel), numMembers := 1);
          Created(r.(groups := r.groups[0 := first]))
      else if req.slotMask != 0 && r.cfg.password.None? then NotCreated(RoomPasswordMissing)
      else Created(r)
  }

  // ----- The owner's update of internal data -----

  /** Small integers that fail verification are None; a group id of 0 makes the server panic. */
  datatype InternalRequest = InternalRequest(filter: bv32, attr: bv32, passwords: seq<(Option<nat>, bool)>,
                                             slotMask: Option<bv64>, succession: seq<Option<nat>>)

  predicate NoGroupZero(req: InternalRequest) {
    forall i :: 0 <= i < |req.passwords| ==> req.passwords[i].0 != Some(0)
  }

  /** Set the password requirement of the listed groups, stopping at the first malformed id. */
  function SetPasswords(groups: seq<Group>, config: seq<(Option<nat>, bool)>): (r: (seq<Group>, bool))
    requires forall i :: 0 <= i < |config| ==> config[i].0 != Some(0)
    ensures |r.0| == |groups|
    ensures forall g :: 0 <= g < |groups| ==> r.0[g] == groups[g].(withPassword := r.0[g].withPassword)
    decreases |config|
  {
    if config == [] then (groups, true)
    else
      match config[0]
      case (None, _) => (groups, false)
      case (Some(id), with) =>
        if id > |groups| then SetPasswords(groups, config[1..])
        else SetPasswords(groups[id - 1 := groups[id - 1].(withPassword := with)], config[1..])
  }

  predicate AllSome(s: seq<Option<nat>>) { forall i :: 0 <= i < |s| ==> s[i].Some? }

  function Values(s: seq<Option<nat>>): seq<nat>
    requires AllSome(s)
  {
    if s == [] then [] else [s[0].value] + Values(s[1..])
  }

  /** The owner's part of `set_roomdata_internal`; a malformed field leaves the earlier changes in place. */
  function SetInternal(r: Room, req: InternalRequest): (Room, Option<Error>)
    requires NoGroupZero(req)
  {
    var (groups, ok) := SetPasswords(r.groups, req.passwords);
    (r.(flagAttr := Blend(r.flagAttr, req.filter, req.attr),
        groups := groups,
        slotMask := if ok && req.slotMask.Some? then req.slotMask.value else r.slotMask,
        succession := if ok && req.succession != [] && AllSome(req.succession) then Values(req.succession)
                      else r.succession),
     if ok && AllSome(req.succession) then None else Some(Malformed))
  }
}

/** The room as the server keeps it: an object whose fields the commands update in place.
    Every method is tied to the value model by `View`. */
module RoomObject {
  import opened Prelude
  import opened RoomModel

  class RoomData {
    const cfg: Config
    var flagAttr: bv32
    var groups: seq<Group>
    var slotMask: bv64
    var slots: seq<bool>
    var counter: nat
    var users: map<nat, User>
    var owner: nat
    var succession: seq<nat>

    function View(): Room
      reads this
    {
      Room(cfg, flagAttr, groups, slotMask, slots, counter, users, owner, succession)
    }

    constructor (r: Room)
      ensures View() == r
    {
      cfg, flagAttr, groups, slotMask, slots := r.cfg, r.flagAttr, r.groups, r.slotMask, r.slots;
      counter, users, owner, succession := r.counter, r.users, r.owner, r.succession;
    }

    // ----- Slots -----

    method OccupySlot(slot: nat) returns (memberId: nat)
      requires Free(slots, slot)
      modifies this`slots, this`counter
      ensures View() == Occupy(old(View()), slot) && memberId == MemberId(slot, old(counter))
    {
      slots := slots[slot - 1 := true];
      memberId := slot * 16 + counter;
      counter := (counter + 1) % 16;
    }

    /** `req_slot`: the lowest free slot of the wanted kind. */
    method ReqSlot(private: bool) returns (a: Allocation)
      requires |slots| == cfg.maxSlot
      modifies this`slots, this`counter
      ensures (View(), a) == AllocateSlot(old(View()), FindSlot(old(slots), slotMask, private, 1))
    {
      for i := 1 to cfg.maxSlot + 1
        invariant View() == old(View())
        invariant FindSlot(slots, slotMask, private, 1) == FindSlot(slots, slotMask, private, i)
      {
        if !slots[i - 1] && private == IsSlotPrivate(slotMask, i) {
          var memberId := OccupySlot(i);
          return Granted(0, memberId);
        }
      }
      a := Refused(RoomFull);
    }

    /** `req_specific_slots`: None stands for the `unreachable!` at its end. */
    method ReqSpecificSlots(start: nat, num: nat) returns (memberId: Option<nat>)
      requires 1 <= start
      modifies this`slots, this`counter
      ensures match FindIn(old(slots), start, num)
              case None => memberId == None && View() == old(View())
              case Some(slot) => memberId == Some(MemberId(slot, old(counter))) && View() == Occupy(old(View()), slot)
    {
      for i := start to start + num
        invariant View() == old(View())
        invariant FindIn(slots, start, num) == FindIn(slots, i, start + num - i)
      {
        if i > |slots| {
          return None;
        }
        if !slots[i - 1] {
          var id := OccupySlot(i);
          return Some(id);
        }
      }
      memberId := None;
    }

    /** `free_slot`. */
    method FreeSlot(memberId: nat) returns (ok: bool)
      requires 1 <= SlotOf(memberId) <= |slots|
      modifies this`slots
      ensures ok <==> Occupied(old(slots), SlotOf(memberId))
      ensures slots == old(slots)[SlotOf(memberId) - 1 := false]
    {
      var slot := SlotOf(memberId) - 1;
      ok := slots[slot];
      if ok {
        slots := slots[slot := false];
      }
    }

    // ----- Allocation -----

    /** Count a member in group `g` and take a slot of its segment. */
    method TakeInGroup(g: nat, start: nat) returns (a: Allocation)
      requires g < |groups| && start == Start(groups, g)
      modifies this`groups, this`slots, this`counter
      ensures (View(), a) == AllocateInGroup(old(View()), g)
    {
      var slotNum := groups[g].slotNum;
      groups := groups[g := groups[g].(numMembers := groups[g].numMembers + 1)];
      var id := ReqSpecificSlots(start, slotNum);
      a := if id.Some? then Granted((g + 1) % 256, id.value) else Panicked;
    }

    /** `get_a_slot`: by label, then any label-less group, else by password. */
    method GetASlot(joinLabel: Option<Bytes>, password: Option<Bytes>) returns (a: Allocation)
      requires |slots| == cfg.maxSlot
      modifies this`groups, this`slots, this`counter
      ensures (View(), a) == Allocate(old(View()), joinLabel, password)
    {
      if groups != [] {
        a := GetAGroupSlot(joinLabel, password);
      } else if password.None? {
        a := ReqSlot(false);
      } else if password != cfg.password {
        a := Refused(RoomPasswordMismatch);
      } else {
        a := ReqSlot(true);
        if a.Refused? {
          a := ReqSlot(false);
        }
      }
    }

    method GetAGroupSlot(joinLabel: Option<Bytes>, password: Option<Bytes>) returns (a: Allocation)
      requires groups != []
      modifies this`groups, this`slots, this`counter
      ensures (View(), a) == Allocate(old(View()), joinLabel, password)
    {
      if joinLabel.None? {
        return Refused(RoomGroupNoJoinLabel);
      }
      var g, curSlotId := FindLabel(joinLabel.value);
      if g < |groups| {
        if groups[g].withPassword && password != cfg.password {
          return Refused(RoomPasswordMismatch);
        }
        if groups[g].numMembers >= groups[g].slotNum {
          return Refused(RoomGroupFull);
        }
        a := TakeInGroup(g, curSlotId);
        return;
      }
      g, curSlotId := FindUnlabelled(password.None?);
      if g == |groups| {
        return Refused(RoomGroupJoinLabelNotFound);
      }
      if groups[g].withPassword && password != cfg.password {
        return Refused(RoomPasswordMismatch);
      }
      a := TakeInGroup(g, curSlotId);
    }

    /** The first group with the label and the first slot of its segment. */
    method FindLabel(wanted: Bytes) returns (g: nat, curSlotId: nat)
      ensures g == WithLabel(groups, wanted) && curSlotId == Start(groups, g)
    {
      g, curSlotId := 0, 1;
      while g < |groups| && groups[g].groupLabel != Some(wanted)
        invariant g <= WithLabel(groups, wanted) && curSlotId == Start(groups, g)
      {
        curSlotId := curSlotId + groups[g].slotNum;
        g := g + 1;
      }
    }

    /** The first group without a label, passing over protected ones when no password was given. */
    method FindUnlabelled(noPassword: bool) returns (g: nat, curSlotId: nat)
      ensures g == Unlabelled(groups, noPassword) && curSlotId == Start(groups, g)
    {
      g, curSlotId := 0, 1;
      while g < |groups| && !(groups[g].groupLabel.None? && !(groups[g].withPassword && noPassword))
        invariant g <= Unlabelled(groups, noPassword) && curSlotId == Start(groups, g)
      {
        curSlotId := curSlotId + groups[g].slotNum;
        g := g + 1;
      }
    }

    // ----- Joining -----

    /** The room part of `join_room`. */
    method JoinRoom(userId: int, req: JoinRequest, signaling: Signaling) returns (out: JoinOutcome)
      requires |slots| == cfg.maxSlot
      modifies this
      ensures (View(), out) == Join(old(View()), userId, req, signaling)
    {
      if IsFull(flagAttr) {
        return NotJoined(RoomFull);
      }
      if req.joinLabel != [] && |req.joinLabel| != LABEL_SIZE {
        return NotJoined(Malformed);
      }
      if req.password != [] && |req.password| != PASSWORD_SIZE {
        return NotJoined(Malformed);
      }
      var a := GetASlot(Optional(req.joinLabel), Optional(req.password));
      match a
      case Refused(e) => out := NotJoined(e);
      case Panicked => out := JoinPanicked;
      case Granted(groupId, memberId) =>
        if !req.memberDataOk {
          return NotJoined(Malformed);
        }
        users := users[memberId := User(userId, 0, groupId, signaling)];
        if |users| == cfg.maxSlot {
          flagAttr := SetFull(flagAttr);
        }
        out := Joined(memberId);
    }

    // ----- Leaving -----

    /** `find_user`: the member id of an account, or 0. */
    method FindUser(userId: int) returns (m: nat)
      ensures if userId in UserIds(users) then m in users && users[m].userId == userId else m == 0
    {
      var rest := users;
      while rest != map[]
        invariant forall n :: n in rest ==> n in users && rest[n] == users[n]
        invariant forall n :: n in users && n !in rest ==> users[n].userId != userId
        decreases |rest|
      {
        var n :| n in rest;
        if rest[n].userId == userId {
          return n;
        }
        assert (rest - {n}).Keys == rest.Keys - {n};
        rest := rest - {n};
      }
      m := 0;
    }

    /** The room part of `leave_room` for member `m`. The heir of a room without a present
        successor is drawn at random; the draw is reported as `drawn`. */
    method LeaveRoom(m: nat) returns (alive: bool, ghost drawn: nat)
      requires Removable(View(), m)
      modifies this
      ensures alive <==> Leave(old(View()), m, drawn).Some?
      ensures alive ==> View() == Leave(old(View()), m, drawn).value
    {
      drawn := 0;
      var g := users[m].groupId;
      users := users - {m};
      if g != 0 {
        groups := groups[g - 1 := Shrink(groups[g - 1])];
      }
      var freed := FreeSlot(m);
      assert freed;
      if |users| != cfg.maxSlot {
        flagAttr := ClearFull(flagAttr);
      }
      assert View() == Remove(old(View()), m);
      alive := true;
      if m == owner {
        alive, drawn := PassOn();
      }
    }

    /** Find a new owner: pop successors until one is present, else draw one. */
    method PassOn() returns (found: bool, ghost drawn: nat)
      modifies this`owner, this`users, this`succession
      ensures found <==> old(users) != map[]
      ensures found ==> View() == HandOver(old(View()), drawn)
    {
      drawn := 0;
      var i := 0;
      ghost var k := Successor(succession, users);
      while i < |succession| && succession[i] !in users
        invariant i <= k
      {
        i := i + 1;
      }
      assert i == k;
      if i < |succession| {
        owner := succession[i];
        users := Crown(users, owner);
        succession := succession[i + 1..];
        return true, 0;
      }
      succession := [];
      if users != map[] {
        var heir :| heir in users;
        owner := heir;
        users := Crown(users, heir);
        return true, heir;
      }
      found := false;
    }

    // ----- The owner's update -----

    /** The owner's part of `set_roomdata_internal`. */
    method SetRoomData(req: InternalRequest) returns (error: Option<Error>)
      requires NoGroupZero(req)
      modifies this
      ensures (View(), error) == SetInternal(old(View()), req)
    {
      hide SetPasswords, Blend, Values;
      flagAttr := Blend(flagAttr, req.filter, req.attr);
      var ok := SetGroupPasswords(req.passwords);
      if !ok {
        return Some(Malformed);
      }
      if req.slotMask.Some? {
        slotMask := req.slotMask.value;
      }
      if req.succession != [] {
        if !AllSome(req.succession) {
          return Some(Malformed);
        }
        succession := Values(req.succession);
      }
      error := None;
    }

    /** Its loop over the password settings, which stops at the first malformed group id. */
    method SetGroupPasswords(config: seq<(Option<nat>, bool)>) returns (ok: bool)
      requires forall i :: 0 <= i < |config| ==> config[i].0 != Some(0)
      modifies this`groups
      ensures (groups, ok) == SetPasswords(old(groups), config)
    {
      var i := 0;
      while i < |config|
        invariant i <= |config| && SetPasswords(groups, config[i..]) == SetPasswords(old(groups), config)
      {
        var (groupId, with) := config[i];
        assert config[i..][0] == config[i] && config[i..][1..] == config[i + 1..];
        if groupId.None? {
          return false;
        }
        if groupId.value <= |groups| {
          groups := groups[groupId.value - 1 := groups[groupId.value - 1].(withPassword := with)];
        }
        i := i + 1;
      }
      ok := true;
    }
  }
}

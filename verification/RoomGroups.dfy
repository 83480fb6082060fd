/** Rooms that are split into groups: each group owns a contiguous segment of slots, and
    its member count is exactly the number of occupied slots there. */
module RoomGroups {
  import opened Prelude
  import opened RoomModel
  import opened RoomInvariants

  /** The count of group `g` is the number of occupied slots of its segment. */
  ghost predicate CountedAt(groups: seq<Group>, slots: seq<bool>, g: nat)
    requires g < |groups|
  {
    groups[g].numMembers == Count(slots, Start(groups, g), groups[g].slotNum)
  }

  ghost predicate Counted(groups: seq<Group>, slots: seq<bool>) {
    forall g {:trigger CountedAt(groups, slots, g)} :: 0 <= g < |groups| ==> CountedAt(groups, slots, g)
  }

  /** Every member sits in the segment of its own group. */
  ghost predicate Placed(groups: seq<Group>, users: Users) {
    forall m :: m in users ==> 1 <= users[m].groupId <= |groups| && InSegment(groups, users[m].groupId - 1, SlotOf(m))
  }

  /** The segments of at most 255 groups cover the slots, and counts and members agree with them. */
  ghost predicate GroupsHold(groups: seq<Group>, slots: seq<bool>, users: Users) {
    && 1 <= |groups| <= 255
    && Start(groups, |groups|) == |slots| + 1
    && Counted(groups, slots)
    && Placed(groups, users)
  }

  ghost predicate GroupInv(r: Room) { GroupsHold(r.groups, r.slots, r.users) }

  lemma {:induction false} SegmentInside(r: Room, g: nat)
    requires g < |r.groups| && Start(r.groups, |r.groups|) == |r.slots| + 1
    ensures Start(r.groups, g) + r.groups[g].slotNum <= |r.slots| + 1
  {
    StartGrows(r.groups, g, |r.groups|);
  }

  /** Setting one slot of segment `g` and adjusting that group's count keeps all counts right. */
  lemma {:induction false} CountedSet(groups: seq<Group>, slots: seq<bool>, g: nat, slot: nat, b: bool, group: Group)
    requires Counted(groups, slots) && g < |groups| && 1 <= slot <= |slots| && InSegment(groups, g, slot)
    requires slots[slot - 1] != b && group.slotNum == groups[g].slotNum
    requires group.numMembers == groups[g].numMembers + if b then 1 else -1
    ensures Counted(groups[g := group], slots[slot - 1 := b])
  {
    var groups', slots' := groups[g := group], slots[slot - 1 := b];
    forall h | 0 <= h < |groups'|
      ensures CountedAt(groups', slots', h)
    {
      assert CountedAt(groups, slots, h);
      StartSame(groups, groups', h);
      CountSet(slots, Start(groups, h), groups[h].slotNum, slot, b);
      if InSegment(groups, h, slot) {
        SegmentUnique(groups, g, h, slot);
      }
    }
  }

  lemma {:induction false} PlacedSame(groups: seq<Group>, groups': seq<Group>, users: Users)
    requires SameSizes(groups, groups') && Placed(groups, users)
    ensures Placed(groups', users) && Start(groups', |groups'|) == Start(groups, |groups|)
  {
    StartSame(groups, groups', |groups|);
    forall m | m in users
      ensures InSegment(groups', users[m].groupId - 1, SlotOf(m))
    {
      StartSame(groups, groups', users[m].groupId - 1);
    }
  }

  lemma {:induction false} PlacedAdd(groups: seq<Group>, users: Users, id: nat, u: User)
    requires Placed(groups, users) && 1 <= u.groupId <= |groups| && InSegment(groups, u.groupId - 1, SlotOf(id))
    ensures Placed(groups, users[id := u])
  {
  }

  lemma {:induction false} PlacedRemove(groups: seq<Group>, users: Users, m: nat)
    requires Placed(groups, users)
    ensures Placed(groups, users - {m})
  {
  }

  lemma {:induction false} PlacedCrown(groups: seq<Group>, users: Users, m: nat)
    requires Placed(groups, users) && m in users
    ensures Placed(groups, Crown(users, m))
  {
    PlacedAdd(groups, users, m, Crown(users, m)[m]);
  }

  // ----- Allocation -----

  /** Inside a group the search succeeds exactly while the count is below the size. */
  lemma {:induction false} GroupSearchIff(r: Room, g: nat)
    requires GroupInv(r) && g < |r.groups|
    ensures AllocateInGroup(r, g).1.Panicked? <==> r.groups[g].numMembers >= r.groups[g].slotNum
  {
    SegmentInside(r, g);
    assert CountedAt(r.groups, r.slots, g);
    CountBelow(r.slots, Start(r.groups, g), r.groups[g].slotNum);
  }

  lemma {:induction false} SetSlotKeeps(groups: seq<Group>, slots: seq<bool>, users: Users, g: nat, slot: nat,
                                        b: bool, group: Group)
    requires GroupsHold(groups, slots, users) && g < |groups| && 1 <= slot <= |slots| && InSegment(groups, g, slot)
    requires slots[slot - 1] != b && group.slotNum == groups[g].slotNum
    requires group.numMembers == groups[g].numMembers + if b then 1 else -1
    ensures GroupsHold(groups[g := group], slots[slot - 1 := b], users)
  {
    CountedSet(groups, slots, g, slot, b, group);
    PlacedSame(groups, groups[g := group], users);
  }

  /** A granted allocation, seen from the groups. */
  ghost predicate GroupOutcome(r: Room, r1: Room, a: Allocation) {
    match a
    case Refused(_) => r1 == r
    case Granted(groupId, memberId) =>
      && GroupInv(r1) && SameSizes(r.groups, r1.groups) && r1.users == r.users
      && 1 <= groupId <= |r.groups| && InSegment(r.groups, groupId - 1, SlotOf(memberId))
    case Panicked => true
  }

  lemma {:induction false} AllocateInGroupKeeps(r: Room, g: nat)
    requires GroupInv(r) && g < |r.groups| && r.counter < 16
    ensures GroupOutcome(r, AllocateInGroup(r, g).0, AllocateInGroup(r, g).1)
  {
    var group := r.groups[g];
    var slot := FindIn(r.slots, Start(r.groups, g), group.slotNum);
    if slot.Some? {
      var group' := group.(numMembers := group.numMembers + 1);
      SetSlotKeeps(r.groups, r.slots, r.users, g, slot.value, true, group');
      MemberIdSplits(slot.value, r.counter);
      assert (g + 1) % 256 == g + 1;
    }
  }

  /** The label-less search settled on a group whose segment has no free slot. */
  predicate PicksFullGroup(r: Room, joinLabel: Option<Bytes>, password: Option<Bytes>) {
    && r.groups != [] && joinLabel.Some?
    && WithLabel(r.groups, joinLabel.value) == |r.groups|
    && var h := Unlabelled(r.groups, password.None?);
       && h < |r.groups|
       && (r.groups[h].withPassword ==> password == r.cfg.password)
       && r.groups[h].numMembers >= r.groups[h].slotNum
  }

  /** When the `unreachable!` of the slot search is reached: exactly when no group has the label
      and the first label-less group that may be tried is already full. */
  lemma {:induction false} PanicsIff(r: Room, joinLabel: Option<Bytes>, password: Option<Bytes>)
    requires GroupInv(r)
    ensures Allocate(r, joinLabel, password).1.Panicked? <==> PicksFullGroup(r, joinLabel, password)
  {
    if joinLabel.Some? {
      var g := WithLabel(r.groups, joinLabel.value);
      var h := Unlabelled(r.groups, password.None?);
      if g < |r.groups| {
        GroupSearchIff(r, g);
      } else if h < |r.groups| {
        GroupSearchIff(r, h);
      }
    }
  }

  /** When a join runs into it: a room that is not full, a well-sized request, and such a group. */
  lemma {:induction false} JoinPanicsIff(r: Room, userId: int, req: JoinRequest, signaling: Signaling)
    requires GroupInv(r)
    ensures Join(r, userId, req, signaling).1.JoinPanicked?
            <==> Precheck(r, req).None? && PicksFullGroup(r, Optional(req.joinLabel), Optional(req.password))
  {
    PanicsIff(r, Optional(req.joinLabel), Optional(req.password));
  }

  /** A request whose label no group has, for the first label-less group it may try. */
  predicate Stranger(r: Room, req: JoinRequest, h: nat) {
    && Precheck(r, req).None? && req.joinLabel != [] && WithLabel(r.groups, req.joinLabel) == |r.groups|
    && h < |r.groups| && h == Unlabelled(r.groups, req.password == [])
    && (r.groups[h].withPassword ==> Optional(req.password) == r.cfg.password)
  }

  /** A label-less group does not keep its newcomer's label. So once a stranger has taken its last
      slot the next stranger runs into the panic, unless that slot was the last of the room. */
  lemma {:induction false} NextStrangerPanics(r: Room, u: int, first: JoinRequest, v: int, second: JoinRequest,
                                              signaling: Signaling, h: nat)
    requires Inv(r) && GroupInv(r) && Stranger(r, first, h) && Stranger(r, second, h) && first.memberDataOk
    requires r.groups[h].numMembers + 1 == r.groups[h].slotNum
    ensures var (r1, out) := Join(r, u, first, signaling);
            && out.Joined?
            && Join(r1, v, second, signaling).1
               == if |r.users| + 1 == r.cfg.maxSlot then NotJoined(RoomFull) else JoinPanicked
  {
    StrangerTakes(r, first, h);
    var (r0, a) := Allocate(r, Some(first.joinLabel), Optional(first.password));
    var r1 := Join(r, u, first, signaling).0;
    AllocateTakes(r, Some(first.joinLabel), Optional(first.password));
    assert a.memberId !in r.users by {
      assert Free(r.slots, SlotOf(a.memberId));
    }
    assert |r1.users| == |r.users| + 1 && r1.groups == r0.groups;
    FlagLaws(r.flagAttr, 0, 0);
    FullAfter(r, r1);
    if |r.users| + 1 != r.cfg.maxSlot {
      StillStranger(r, r1, second, h);
      JoinKeepsGroups(r, u, first, signaling);
      JoinPanicsIff(r1, v, second, signaling);
    }
  }

  /** What a stranger's allocation does to the groups: one member more in that group, no label set. */
  lemma {:induction false} StrangerTakes(r: Room, req: JoinRequest, h: nat)
    requires Inv(r) && GroupInv(r) && Stranger(r, req, h) && r.groups[h].numMembers < r.groups[h].slotNum
    ensures var (r1, a) := Allocate(r, Some(req.joinLabel), Optional(req.password));
            && a.Granted? && GroupOutcome(r, r1, a)
            && r1.groups == r.groups[h := r.groups[h].(numMembers := r.groups[h].numMembers + 1)]
  {
    hide GroupInv, GroupOutcome, Seated, AllApart, OneOwner, FullFits, FindIn, Start, Precheck;
    GroupSearchIff(r, h);
    AllocateInGroupKeeps(r, h);
  }

  lemma {:induction false} FullAfter(r: Room, r1: Room)
    requires Inv(r) && !IsFull(r.flagAttr) && |r1.users| == |r.users| + 1
    requires r1.flagAttr == if |r1.users| == r.cfg.maxSlot then SetFull(r.flagAttr) else r.flagAttr
    ensures IsFull(r1.flagAttr) <==> |r.users| + 1 == r.cfg.maxSlot
  {
    FlagLaws(r.flagAttr, 0, 0);
  }

  lemma {:induction false} StillStranger(r: Room, r1: Room, req: JoinRequest, h: nat)
    requires Stranger(r, req, h) && !IsFull(r1.flagAttr) && r1.cfg == r.cfg
    requires r1.groups == r.groups[h := r.groups[h].(numMembers := r.groups[h].numMembers + 1)]
    ensures Stranger(r1, req, h)
  {
    assert forall g :: 0 <= g < |r.groups| ==> r1.groups[g].groupLabel == r.groups[g].groupLabel;
    assert WithLabel(r1.groups, req.joinLabel) == |r1.groups|;
    assert Unlabelled(r1.groups, req.password == []) == h;
  }

  /** A join that panics leaves a group with a member too many in its count. */
  lemma {:induction false} PanicBreaksCounts(r: Room, userId: int, req: JoinRequest, signaling: Signaling)
    requires GroupInv(r) && Join(r, userId, req, signaling).1.JoinPanicked?
    ensures !GroupInv(Join(r, userId, req, signaling).0)
  {
    JoinPanicsIff(r, userId, req, signaling);
    var h, r1 := Unlabelled(r.groups, req.password == []), Join(r, userId, req, signaling).0;
    StartSame(r.groups, r1.groups, h);
    assert CountedAt(r.groups, r.slots, h);
    assert !CountedAt(r1.groups, r1.slots, h);
  }

  lemma {:induction false} AllocateKeepsGroups(r: Room, joinLabel: Option<Bytes>, password: Option<Bytes>)
    requires GroupInv(r) && r.counter < 16
    ensures GroupOutcome(r, Allocate(r, joinLabel, password).0, Allocate(r, joinLabel, password).1)
  {
    if joinLabel.Some? {
      var g := WithLabel(r.groups, joinLabel.value);
      var h := Unlabelled(r.groups, password.None?);
      if g < |r.groups| {
        AllocateInGroupKeeps(r, g);
      } else if h < |r.groups| {
        AllocateInGroupKeeps(r, h);
      }
    }
  }

  // ----- Joining and leaving -----

  lemma {:induction false} JoinWithKeepsGroups(r: Room, r1: Room, a: Allocation, userId: int, req: JoinRequest,
                                               signaling: Signaling)
    requires GroupInv(r) && GroupOutcome(r, r1, a) && !a.Panicked?
    ensures GroupInv(JoinWith(r1, a, userId, req, signaling).0)
  {
    if a.Granted? && req.memberDataOk {
      StartSame(r.groups, r1.groups, a.groupId - 1);
      PlacedAdd(r1.groups, r1.users, a.memberId, User(userId, 0, a.groupId, signaling));
    }
  }

  /** Every join that does not panic keeps the group counts exact, even one that is rejected
      after its slot was taken. */
  lemma {:induction false} JoinKeepsGroups(r: Room, userId: int, req: JoinRequest, signaling: Signaling)
    requires Inv(r) && GroupInv(r) && !Join(r, userId, req, signaling).1.JoinPanicked?
    ensures GroupInv(Join(r, userId, req, signaling).0)
  {
    var (r1, a) := Allocate(r, Optional(req.joinLabel), Optional(req.password));
    AllocateKeepsGroups(r, Optional(req.joinLabel), Optional(req.password));
    if Precheck(r, req).None? {
      JoinWithKeepsGroups(r, r1, a, userId, req, signaling);
    }
  }

  lemma {:induction false} RemoveKeepsGroups(r: Room, m: nat)
    requires Inv(r) && GroupInv(r) && m in r.users
    ensures GroupInv(Remove(r, m))
  {
    var g, slot := r.users[m].groupId - 1, SlotOf(m);
    MemberCounted(r, g, slot);
    var group := Shrink(r.groups[g]);
    SetSlotKeeps(r.groups, r.slots, r.users, g, slot, false, group);
    PlacedRemove(r.groups[g := group], r.users, m);
  }

  /** A group with a member has a positive count, so leaving never wraps it below zero. */
  lemma {:induction false} MemberCounted(r: Room, g: nat, slot: nat)
    requires GroupInv(r) && g < |r.groups| && InSegment(r.groups, g, slot) && Occupied(r.slots, slot)
    ensures r.groups[g].numMembers >= 1
  {
    assert CountedAt(r.groups, r.slots, g);
    CountSet(r.slots, Start(r.groups, g), r.groups[g].slotNum, slot, false);
  }

  lemma {:induction false} LeaveKeepsGroups(r: Room, m: nat, pick: nat)
    requires Inv(r) && GroupInv(r) && m in r.users
    requires Leave(r, m, pick).Some?
    ensures GroupInv(Leave(r, m, pick).value)
  {
    RemoveKeepsGroups(r, m);
    var r1 := Remove(r, m);
    if m == r.owner && r1.users != map[] {
      var i := Successor(r1.succession, r1.users);
      var heir := if i < |r1.succession| then r1.succession[i] else Draw(r1.users, pick);
      PlacedCrown(r1.groups, r1.users, heir);
    }
  }

  // ----- Rooms whose labels are all fixed at creation -----

  ghost predicate AllFixed(groups: seq<Group>) {
    forall g :: 0 <= g < |groups| ==> groups[g].fixedLabel && groups[g].groupLabel.Some?
  }

  /** In such a room no join ever panics. */
  lemma {:induction false} FixedLabelsNeverPanic(r: Room, userId: int, req: JoinRequest, signaling: Signaling)
    requires Inv(r) && GroupInv(r) && AllFixed(r.groups)
    ensures !Join(r, userId, req, signaling).1.JoinPanicked?
  {
    PanicsIff(r, Optional(req.joinLabel), Optional(req.password));
  }

  lemma {:induction false} FixedUpdate(groups: seq<Group>, g: nat, group: Group)
    requires AllFixed(groups) && g < |groups| && group.fixedLabel && group.groupLabel.Some?
    ensures AllFixed(groups[g := group])
  {
  }

  lemma {:induction false} AllocateInGroupKeepsFixed(r: Room, g: nat)
    requires AllFixed(r.groups) && g < |r.groups|
    ensures AllFixed(AllocateInGroup(r, g).0.groups)
  {
    FixedUpdate(r.groups, g, r.groups[g].(numMembers := r.groups[g].numMembers + 1));
  }

  lemma {:induction false} AllocateKeepsFixed(r: Room, joinLabel: Option<Bytes>, password: Option<Bytes>)
    requires AllFixed(r.groups)
    ensures AllFixed(Allocate(r, joinLabel, password).0.groups)
  {
    if joinLabel.Some? {
      var g := WithLabel(r.groups, joinLabel.value);
      if g < |r.groups| {
        AllocateInGroupKeepsFixed(r, g);
      }
    }
  }

  lemma {:induction false} JoinKeepsFixed(r: Room, userId: int, req: JoinRequest, signaling: Signaling)
    requires AllFixed(r.groups)
    ensures AllFixed(Join(r, userId, req, signaling).0.groups)
  {
    AllocateKeepsFixed(r, Optional(req.joinLabel), Optional(req.password));
  }

  lemma {:induction false} LeaveKeepsFixed(r: Room, m: nat, pick: nat)
    requires Inv(r) && m in r.users
    requires AllFixed(r.groups) && Leave(r, m, pick).Some?
    ensures AllFixed(Leave(r, m, pick).value.groups)
  {
    hide AllApart, OneOwner, FullFits, Draw, Successor, Crown;
    var g := r.users[m].groupId;
    if g > 0 {
      FixedUpdate(r.groups, g - 1, Shrink(r.groups[g - 1]));
    }
    assert AllFixed(Remove(r, m).groups);
  }

  lemma {:induction false} SetPasswordsKeeps(groups: seq<Group>, slots: seq<bool>, users: Users,
                                             config: seq<(Option<nat>, bool)>)
    requires forall i :: 0 <= i < |config| ==> config[i].0 != Some(0)
    ensures var groups' := SetPasswords(groups, config).0;
            && (GroupsHold(groups, slots, users) ==> GroupsHold(groups', slots, users))
            && (AllFixed(groups) ==> AllFixed(groups'))
  {
    var groups' := SetPasswords(groups, config).0;
    if GroupsHold(groups, slots, users) {
      PlacedSame(groups, groups', users);
      forall g | 0 <= g < |groups'|
        ensures CountedAt(groups', slots, g)
      {
        StartSame(groups, groups', g);
        assert CountedAt(groups, slots, g);
      }
    }
  }

  lemma {:induction false} SetInternalKeepsGroups(r: Room, req: InternalRequest)
    requires NoGroupZero(req)
    ensures GroupInv(r) ==> GroupInv(SetInternal(r, req).0)
    ensures AllFixed(r.groups) ==> AllFixed(SetInternal(r, req).0.groups)
  {
    SetPasswordsKeeps(r.groups, r.slots, r.users, req.passwords);
  }
}

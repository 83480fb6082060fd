/** What every Matching2 room keeps, whatever its members do: distinct occupied slots,
    one owner who is present, a truthful FULL flag, and exact group counts. */
module RoomInvariants {
  import opened Prelude
  import opened RoomModel

  type Users = map<nat, User>

  // ----- The invariant -----

  ghost predicate Shape(r: Room) {
    && 1 <= r.cfg.maxSlot <= 64
    && |r.slots| == r.cfg.maxSlot
    && r.counter < 16
    && |r.cfg.ints| == 8 && |r.cfg.bin| == 64
  }

  /** Every member sits on an occupied slot. */
  ghost predicate Seated(users: Users, slots: seq<bool>, groups: nat) {
    forall m :: m in users ==> Occupied(slots, SlotOf(m)) && users[m].groupId <= groups
  }

  ghost predicate Apart(users: Users, m: nat, n: nat)
    requires m in users && n in users
  {
    m != n ==> SlotOf(m) != SlotOf(n) && users[m].userId != users[n].userId
  }

  /** One slot and one account per member. */
  ghost predicate AllApart(users: Users) {
    forall m, n {:trigger Apart(users, m, n)} :: m in users && n in users ==> Apart(users, m, n)
  }

  /** The owner is present and is the one member with the OWNER flag. */
  ghost predicate OneOwner(users: Users, owner: nat) {
    && owner in users
    && (forall m :: m in users ==> (IsOwner(users[m].flagAttr) <==> m == owner))
  }

  /** FULL means that every place is taken; a room for one never carries it. */
  ghost predicate FullFits(flags: bv32, members: nat, maxSlot: nat) {
    IsFull(flags) <==> members == maxSlot && maxSlot >= 2
  }

  ghost predicate Inv(r: Room) {
    && Shape(r)
    && Seated(r.users, r.slots, |r.groups|)
    && AllApart(r.users)
    && OneOwner(r.users, r.owner)
    && FullFits(r.flagAttr, |r.users|, r.cfg.maxSlot)
  }

  // ----- Counting members against slots -----

  /** A room never has more members than slots. */
  lemma {:induction false} UsersFit(users: Users, slots: seq<bool>, groups: nat)
    requires Seated(users, slots, groups) && AllApart(users)
    ensures |users| <= |slots|
  {
    var taken := Image(users.Keys);
    forall m, n | m in users.Keys && n in users.Keys && SlotOf(m) == SlotOf(n)
      ensures m == n
    {
      assert Apart(users, m, n);
    }
    InjectiveImage(users.Keys);
    SizeOfRange(taken, |slots|);
  }

  function Image(keys: set<nat>): set<nat> { set m | m in keys :: SlotOf(m) }

  lemma {:induction false} InjectiveImage(keys: set<nat>)
    requires forall m, n :: m in keys && n in keys && SlotOf(m) == SlotOf(n) ==> m == n
    ensures |Image(keys)| == |keys|
  {
    if keys != {} {
      var k :| k in keys;
      var rest := keys - {k};
      InjectiveImage(rest);
      assert Image(keys) == Image(rest) + {SlotOf(k)};
    }
  }

  lemma {:induction false} SizeOfRange(a: set<nat>, n: nat)
    requires forall x :: x in a ==> 1 <= x <= n
    ensures |a| <= n
  {
    if a != {} {
      if n in a {
        SizeOfRange(a - {n}, n - 1);
      } else {
        SizeOfRange(a, n - 1);
      }
    }
  }

  // ----- Joining -----

  /** Taking a free slot under its own member id keeps everybody apart. */
  lemma {:induction false} AddMember(users: Users, slots: seq<bool>, groups: nat, id: nat, u: User)
    requires Seated(users, slots, groups) && AllApart(users)
    requires Free(slots, SlotOf(id)) && u.userId !in UserIds(users) && u.groupId <= groups
    ensures id !in users && |users[id := u]| == |users| + 1
    ensures Seated(users[id := u], slots[SlotOf(id) - 1 := true], groups) && AllApart(users[id := u])
  {
    var users' := users[id := u];
    forall m, n | m in users' && n in users'
      ensures Apart(users', m, n)
    {
      assert m in users && n in users ==> Apart(users, m, n);
      assert m in users ==> users[m].userId in UserIds(users);
      assert n in users ==> users[n].userId in UserIds(users);
    }
  }

  lemma {:induction false} AddedOwner(users: Users, owner: nat, id: nat, u: User)
    requires OneOwner(users, owner) && id !in users && u.flagAttr == 0
    ensures OneOwner(users[id := u], owner)
  {
    FlagLaws(0, 0, 0);
  }

  lemma {:induction false} AdmitKeepsInv(r: Room, r1: Room, groupId: nat, memberId: nat, userId: int,
                                         signaling: Signaling)
    requires Inv(r) && userId !in UserIds(r.users) && Took(r, r1, groupId, memberId)
    ensures memberId !in r.users
    ensures Inv(Admit(r1, groupId, memberId, userId, signaling))
  {
    var u := User(userId, 0, groupId, signaling);
    var users' := r.users[memberId := u];
    AddMember(r.users, r.slots, |r.groups|, memberId, u);
    AddedOwner(r.users, r.owner, memberId, u);
    UsersFit(users', r1.slots, |r1.groups|);
    FlagLaws(r.flagAttr, 0, 0);
  }

  /** A slot taken for a rejected request: the members are the same, the slot stays occupied. */
  lemma {:induction false} TookKeepsInv(r: Room, r1: Room, groupId: nat, memberId: nat)
    requires Inv(r) && Took(r, r1, groupId, memberId)
    ensures Inv(r1) && r1.users == r.users
  {
  }

  /** What a join attempt may do to the members. */
  ghost predicate JoinEffect(r: Room, r': Room, out: JoinOutcome, userId: int) {
    && r'.cfg == r.cfg && r'.owner == r.owner
    && (out.Joined? ==>
          && out.memberId !in r.users && out.memberId % 16 == r.counter
          && out.memberId in r'.users && r'.users[out.memberId].userId == userId
          && r.users == r'.users - {out.memberId})
    && (!out.Joined? ==> r'.users == r.users)
  }

  lemma {:induction false} AdmitEffect(r: Room, r1: Room, groupId: nat, memberId: nat, userId: int,
                                       signaling: Signaling)
    requires r.counter < 16 && memberId !in r.users && Took(r, r1, groupId, memberId)
    ensures JoinEffect(r, Admit(r1, groupId, memberId, userId, signaling), Joined(memberId), userId)
  {
    MemberIdSplits(SlotOf(memberId), r.counter);
    assert r.users == r.users[memberId := User(userId, 0, groupId, signaling)] - {memberId};
  }

  lemma {:induction false} JoinWithKeepsInv(r: Room, r1: Room, a: Allocation, userId: int, req: JoinRequest,
                                            signaling: Signaling)
    requires Inv(r) && userId !in UserIds(r.users) && Outcome(r, r1, a)
    ensures var (r', out) := JoinWith(r1, a, userId, req, signaling);
            Inv(r') && JoinEffect(r, r', out, userId)
  {
    if a.Granted? {
      AdmitKeepsInv(r, r1, a.groupId, a.memberId, userId, signaling);
      AdmitEffect(r, r1, a.groupId, a.memberId, userId, signaling);
      TookKeepsInv(r, r1, a.groupId, a.memberId);
    }
  }

  /** Every join attempt keeps the invariant; a successful one adds exactly its user under a
      member id nobody holds, any other leaves the members alone. */
  lemma {:induction false} JoinKeepsInv(r: Room, userId: int, req: JoinRequest, signaling: Signaling)
    requires Inv(r) && userId !in UserIds(r.users)
    ensures var (r', out) := Join(r, userId, req, signaling);
            Inv(r') && JoinEffect(r, r', out, userId)
  {
    var (r1, a) := Allocate(r, Optional(req.joinLabel), Optional(req.password));
    AllocateTakes(r, Optional(req.joinLabel), Optional(req.password));
    JoinWithKeepsInv(r, r1, a, userId, req, signaling);
  }

  // ----- Leaving -----

  lemma {:induction false} RemoveMember(users: Users, slots: seq<bool>, groups: nat, m: nat)
    requires Seated(users, slots, groups) && AllApart(users) && m in users
    ensures Seated(users - {m}, slots[SlotOf(m) - 1 := false], groups) && AllApart(users - {m})
    ensures |users - {m}| == |users| - 1
  {
    var users' := users - {m};
    forall n | n in users'
      ensures Occupied(slots[SlotOf(m) - 1 := false], SlotOf(n))
    {
      assert Apart(users, m, n);
    }
    forall a, b | a in users' && b in users'
      ensures Apart(users', a, b)
    {
      assert Apart(users, a, b);
    }
    assert users'.Keys == users.Keys - {m};
  }

  /** Crowning a member of a room without owner gives it exactly one. */
  lemma {:induction false} CrownOne(users: Users, m: nat)
    requires m in users && forall n :: n in users ==> !IsOwner(users[n].flagAttr)
    ensures OneOwner(Crown(users, m), m)
  {
    FlagLaws(users[m].flagAttr, 0, 0);
  }

  lemma {:induction false} CrownKeeps(users: Users, m: nat, slots: seq<bool>, groups: nat)
    requires m in users && Seated(users, slots, groups) && AllApart(users)
    ensures var users' := Crown(users, m);
            users'.Keys == users.Keys && |users'| == |users| && Seated(users', slots, groups) && AllApart(users')
  {
    var users' := Crown(users, m);
    assert users'.Keys == users.Keys;
    assert |users'.Keys| == |users.Keys|;
    forall a, b | a in users' && b in users'
      ensures Apart(users', a, b)
    {
      assert Apart(users, a, b);
    }
  }

  /** The members of `r'` are those of `users`, with their accounts. */
  ghost predicate SameMembers(users: Users, users': Users) {
    users'.Keys == users.Keys && forall m :: m in users ==> users'[m].userId == users[m].userId
  }

  lemma {:induction false} HandOverKeepsInv(r: Room, pick: nat)
    requires Shape(r) && Seated(r.users, r.slots, |r.groups|) && AllApart(r.users)
    requires FullFits(r.flagAttr, |r.users|, r.cfg.maxSlot)
    requires r.users != map[] && forall n :: n in r.users ==> !IsOwner(r.users[n].flagAttr)
    ensures var r' := HandOver(r, pick);
            Inv(r') && r'.cfg == r.cfg && r'.slots == r.slots && SameMembers(r.users, r'.users)
  {
    var i := Successor(r.succession, r.users);
    var heir := if i < |r.succession| then r.succession[i] else Draw(r.users, pick);
    CrownOne(r.users, heir);
    CrownKeeps(r.users, heir, r.slots, |r.groups|);
  }

  lemma {:induction false} RemoveKeeps(r: Room, m: nat)
    requires Inv(r) && m in r.users
    ensures var r1 := Remove(r, m);
            && Shape(r1) && Seated(r1.users, r1.slots, |r1.groups|) && AllApart(r1.users)
            && FullFits(r1.flagAttr, |r1.users|, r1.cfg.maxSlot)
  {
    RemoveMember(r.users, r.slots, |r.groups|, m);
    UsersFit(r.users, r.slots, |r.groups|);
    FlagLaws(r.flagAttr, 0, 0);
  }

  lemma {:induction false} RemovedParts(r: Room, m: nat)
    requires Inv(r) && m in r.users
    ensures Removable(r, m)
    ensures var r1 := Remove(r, m);
            && r1.users == r.users - {m} && r1.slots == r.slots[SlotOf(m) - 1 := false]
            && r1.cfg == r.cfg && r1.owner == r.owner
            && (forall n :: n in r1.users ==> (IsOwner(r1.users[n].flagAttr) <==> n == r.owner))
  {
  }

  /** Whatever the succession list and the random draw, a departure frees the member's slot, which
      was occupied, and keeps the invariant; the others stay as they were, and the room is gone
      exactly when its last member left. */
  lemma {:induction false} LeaveKeepsInv(r: Room, m: nat, pick: nat)
    requires Inv(r) && m in r.users
    ensures Removable(r, m) && Occupied(r.slots, SlotOf(m))
    ensures Leave(r, m, pick).None? <==> r.users.Keys == {m}
    ensures Leave(r, m, pick).Some? ==>
              var r' := Leave(r, m, pick).value;
              && Inv(r') && r'.cfg == r.cfg && SameMembers(r.users - {m}, r'.users)
              && r'.slots == r.slots[SlotOf(m) - 1 := false]
  {
    hide Remove, HandOver, AllApart, Seated, FullFits, Shape, IsOwner;
    RemovedParts(r, m);
    RemoveKeeps(r, m);
    var r1 := Remove(r, m);
    assert r1.users.Keys == r.users.Keys - {m};
    if m == r.owner {
      assert r1.users == map[] <==> r1.users.Keys == {};
      if r1.users != map[] {
        HandOverKeepsInv(r1, pick);
      }
    }
  }

  /** The heir is the first listed successor still present, else a drawn member. */
  lemma {:induction false} HeirIsFirstPresent(r: Room, pick: nat)
    requires Inv(r) && Leave(r, r.owner, pick).Some?
    ensures var r', others := Leave(r, r.owner, pick).value, r.users - {r.owner};
            || (&& r'.owner in others && (pick in others ==> r'.owner == pick)
                && r'.succession == [] && forall i :: 0 <= i < |r.succession| ==> r.succession[i] !in others)
            || (exists i :: 0 <= i < |r.succession| && r'.owner == r.succession[i] && r.succession[i] in others
                  && r'.succession == r.succession[i + 1..] && forall j :: 0 <= j < i ==> r.succession[j] !in others)
  {
    var i := Successor(r.succession, r.users - {r.owner});
    assert i < |r.succession| ==> r.succession[i] in r.users - {r.owner};
  }

  // ----- The owner's update -----

  /** Arbitrary filter and attribute words never touch the FULL flag, and nothing else the
      owner sets is part of the invariant. */
  lemma {:induction false} SetInternalKeepsInv(r: Room, req: InternalRequest)
    requires Inv(r) && NoGroupZero(req)
    ensures var r' := SetInternal(r, req).0;
            && Inv(r') && r'.cfg == r.cfg && (IsFull(r'.flagAttr) <==> IsFull(r.flagAttr))
            && r'.users == r.users && r'.owner == r.owner && r'.slots == r.slots && r'.counter == r.counter
  {
    FlagLaws(r.flagAttr, req.filter, req.attr);
  }
}

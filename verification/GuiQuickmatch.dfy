/** Many users with the same quickmatch request: how many rooms they end up in. */
module GuiQuickmatch {
  import opened Prelude
  import opened GuiRooms
  import opened GuiInvariants

  // ----- When a request finds the room it made -----

  predicate Sets(c: Cond, id: nat) { c.kind == GAME_NUM && c.id == id && c.op == EQ }

  /** The value of the last equality condition on number `id`. */
  function LastValue(conds: seq<Cond>, id: nat, unset: nat): nat
    decreases |conds|
  {
    if conds == [] then unset
    else
      var last := |conds| - 1;
      if Sets(conds[last], id) then conds[last].value else LastValue(conds[..last], id, unset)
  }

  lemma {:induction false} LastValueTail(conds: seq<Cond>, id: nat, unset: nat)
    requires conds != []
    ensures LastValue(conds, id, unset)
            == LastValue(conds[1..], id, if Sets(conds[0], id) then conds[0].value else unset)
    decreases |conds|
  {
    var last := |conds| - 1;
    if last > 0 && !Sets(conds[last], id) {
      LastValueTail(conds[..last], id, unset);
      assert conds[..last][1..] == conds[1..][..last - 1];
    }
  }

  lemma {:induction false} CondNumsIsLastValue(nums: Nums, conds: seq<Cond>, id: nat)
    requires 1 <= id <= NUM_ATTRS
    ensures CondNums(nums, conds)[id - 1] == LastValue(conds, id, nums[id - 1])
    decreases |conds|
  {
    if conds != [] {
      var c := conds[0];
      var nums' := if SetsNumber(c) then nums[c.id - 1 := c.value] else nums;
      CondNumsIsLastValue(nums', conds[1..], id);
      LastValueTail(conds, id, nums[id - 1]);
    }
  }

  /** A room made for the request matches it. */
  predicate OwnMatch(req: Quickmatch) { AllQuickHold(CondNums(ZEROS, req.conds), req.conds) }

  /** Equality conditions on the first eight numbers, one value for each. */
  predicate OneValueEach(conds: seq<Cond>) {
    && (forall i :: 0 <= i < |conds| ==> conds[i].kind == GAME_NUM && 1 <= conds[i].id <= 8 && conds[i].op == EQ)
    && (forall i, j :: 0 <= i < j < |conds| && conds[i].id == conds[j].id ==> conds[i].value == conds[j].value)
  }

  lemma {:induction false} LastValueFound(conds: seq<Cond>, i: nat, unset: nat)
    requires OneValueEach(conds) && i < |conds|
    ensures LastValue(conds, conds[i].id, unset) == conds[i].value
    decreases |conds|
  {
    var last := |conds| - 1;
    if !Sets(conds[last], conds[i].id) {
      LastValueFound(conds[..last], i, unset);
    }
  }

  lemma {:induction false} OneValueEachMatches(req: Quickmatch)
    requires OneValueEach(req.conds)
    ensures OwnMatch(req)
  {
    var nums, conds := CondNums(ZEROS, req.conds), req.conds;
    forall i | 0 <= i < |conds|
      ensures QuickHolds(nums, conds[i])
    {
      CondNumsIsLastValue(ZEROS, conds, conds[i].id);
      LastValueFound(conds, i, ZEROS[conds[i].id - 1]);
    }
  }

  // ----- The queue of rooms -----

  predicate MadeFor(r: GuiRoom, req: Quickmatch) {
    r.quickmatch && r.total == Min(req.availableNum, MAX_SLOTS) && r.nums == CondNums(ZEROS, req.conds)
  }

  predicate Full(r: GuiRoom) { |r.members| == r.total && r.stealth }

  /** `full` full rooms, and if `waiting` is not zero one more room, `open`, with that many members. */
  ghost predicate Queue(s: GuiState, com: string, req: Quickmatch, seen: set<UserId>, full: nat, waiting: nat,
                        open: string) {
    var rooms := At(s.comRooms, com);
    && |rooms| == full + (if waiting == 0 then 0 else 1)
    && (forall id :: id in rooms ==> id in s.rooms && MadeFor(s.rooms[id], req) && s.rooms[id].members.Keys <= seen)
    && (forall id :: id in rooms ==> Full(s.rooms[id]) || (waiting != 0 && id == open))
    && (waiting != 0 ==> open in rooms && |s.rooms[open].members| == waiting && !s.rooms[open].stealth)
  }

  /** A room under a fresh id: one more room of its communication id, the others untouched. */
  lemma {:induction false} Opened(s: GuiState, com: string, req: Quickmatch, u: UserId)
    requires Mirrored(s) && |com| == COM_ID_SIZE
    ensures var id := RoomIdOf(com, s.cur);
            var s' := QuickmatchGui(s, com, req, u, None).0;
            && id !in At(s.comRooms, com) && At(s'.comRooms, com) == At(s.comRooms, com) + {id}
            && (forall j :: j in At(s.comRooms, com) ==> j in s.rooms && j in s'.rooms && s'.rooms[j] == s.rooms[j])
            && id in s'.rooms && MadeFor(s'.rooms[id], req) && s'.rooms[id].members.Keys == {u}
            && (s'.rooms[id].stealth <==> s'.rooms[id].total == 1)
  {
    hide RoomIdOf, CondNums, Mirrored, Complete;
    OpenKeeps(s, QuickRoom(com, req), u);
    Completed(Open(s, QuickRoom(com, req), u), RoomIdOf(com, s.cur), u);
    ListedAreThere(s, com);
  }

  lemma {:induction false} ListedAreThere(s: GuiState, com: string)
    requires Mirrored(s)
    ensures forall j :: j in At(s.comRooms, com) ==> j in s.rooms
  {
    forall j | j in At(s.comRooms, com)
      ensures j in s.rooms
    {
      assert j in At(s.comRooms, com) <==> InCom(s.rooms, com, j);
    }
  }

  lemma {:induction false} FindsNothing(s: GuiState, com: string, req: Quickmatch, seen: set<UserId>, full: nat,
                                        open: string)
    requires Queue(s, com, req, seen, full, 0, open)
    ensures QuickCandidates(s, com, req) == {}
  {
    hide CondNums, AllQuickHold;
  }

  lemma {:induction false} OpensNext(s: GuiState, com: string, req: Quickmatch, u: UserId, found: Option<string>,
                                     seen: set<UserId>, full: nat, open: string)
    requires Mirrored(s) && |com| == COM_ID_SIZE && 1 <= req.availableNum <= MAX_SLOTS
    requires MayFind(QuickCandidates(s, com, req), found) && Queue(s, com, req, seen, full, 0, open)
    ensures found == None
    ensures var s' := QuickmatchGui(s, com, req, u, found).0;
            var id := RoomIdOf(com, s.cur);
            if req.availableNum == 1 then Queue(s', com, req, seen + {u}, full + 1, 0, id)
            else Queue(s', com, req, seen + {u}, full, 1, id)
  {
    hide CondNums, RoomIdOf, Mirrored, QuickmatchGui, QuickCandidates;
    FindsNothing(s, com, req, seen, full, open);
    Opened(s, com, req, u);
    var s', id := QuickmatchGui(s, com, req, u, None).0, RoomIdOf(com, s.cur);
    assert |s'.rooms[id].members| == |s'.rooms[id].members.Keys| == 1;
  }

  /** The open room is the only one a request finds. */
  lemma {:induction false} FindsOpen(s: GuiState, com: string, req: Quickmatch, seen: set<UserId>, full: nat,
                                     waiting: nat, open: string)
    requires Queue(s, com, req, seen, full, waiting, open) && waiting != 0
    requires OwnMatch(req) && 1 <= req.availableNum <= MAX_SLOTS
    ensures QuickCandidates(s, com, req) == {open}
  {
    hide CondNums, AllQuickHold;
  }

  lemma {:induction false} Completed(s: GuiState, id: string, u: UserId)
    requires id in s.rooms
    ensures var s', r := Complete(s, id, u).0, s.rooms[id];
            s' == s.(rooms := s.rooms[id := r.(stealth := r.stealth || |r.members| == r.total)])
  {
    hide Others;
    if |s.rooms[id].members| != s.rooms[id].total {
      assert s.rooms[id := s.rooms[id]] == s.rooms;
    }
  }

  /** The room with a newcomer, closed when that fills it. */
  function WithNewcomer(r: GuiRoom, u: UserId): GuiRoom {
    var members := r.members[u := false];
    r.(members := members, stealth := r.stealth || |members| == r.total)
  }

  lemma {:induction false} NewcomerCounts(r: GuiRoom, u: UserId)
    requires u !in r.members
    ensures var r' := WithNewcomer(r, u);
            && r'.members.Keys == r.members.Keys + {u} && |r'.members| == |r.members| + 1
            && (r'.stealth <==> r.stealth || |r.members| + 1 == r.total)
            && r'.quickmatch == r.quickmatch && r'.total == r.total && r'.nums == r.nums
  {
    assert r.members[u := false].Keys == r.members.Keys + {u};
  }

  lemma {:induction false} Joined(s: GuiState, com: string, req: Quickmatch, u: UserId, id: string)
    requires Mirrored(s) && id in s.rooms && u !in s.rooms[id].members
    ensures QuickmatchGui(s, com, req, u, Some(id)).0
            == s.(rooms := s.rooms[id := WithNewcomer(s.rooms[id], u)], userRooms := Add(s.userRooms, u, id))
  {
    hide Mirrored, Indexed, Complete, Add;
    NotIndexed(s, id, u);
    var s1 := Enter(s, id, u);
    Completed(s1, id, u);
    assert s1.rooms[id := WithNewcomer(s.rooms[id], u)] == s.rooms[id := WithNewcomer(s.rooms[id], u)];
  }

  lemma {:induction false} NotIndexed(s: GuiState, id: string, u: UserId)
    requires Mirrored(s) && id in s.rooms && u !in s.rooms[id].members
    ensures !Indexed(s, id, u)
  {
    assert id in At(s.userRooms, u) <==> HasMember(s.rooms, id, u);
  }

  lemma {:induction false} JoinsOpen(s: GuiState, com: string, req: Quickmatch, u: UserId, seen: set<UserId>,
                                     full: nat, waiting: nat, open: string)
    requires Mirrored(s) && Queue(s, com, req, seen, full, waiting, open) && waiting != 0 && u !in seen
    requires 1 <= req.availableNum <= MAX_SLOTS && waiting < req.availableNum
    ensures open in s.rooms
    ensures var s' := QuickmatchGui(s, com, req, u, Some(open)).0;
            if waiting + 1 == req.availableNum then Queue(s', com, req, seen + {u}, full + 1, 0, open)
            else Queue(s', com, req, seen + {u}, full, waiting + 1, open)
  {
    hide CondNums, Mirrored, QuickmatchGui, WithNewcomer, Add;
    assert u !in s.rooms[open].members.Keys;
    Joined(s, com, req, u, open);
    NewcomerCounts(s.rooms[open], u);
  }

  // ----- Serving a line of users -----

  ghost predicate ServeAt(states: seq<GuiState>, com: string, req: Quickmatch, users: seq<UserId>,
                          founds: seq<Option<string>>, i: nat)
    requires i < |users| && i < |founds| && i + 1 < |states|
  {
    && MayFind(QuickCandidates(states[i], com, req), founds[i])
    && states[i + 1] == QuickmatchGui(states[i], com, req, users[i], founds[i]).0
  }

  /** Different users, one after the other, from a state without rooms of this communication id. */
  ghost predicate Serves(states: seq<GuiState>, com: string, req: Quickmatch, users: seq<UserId>,
                         founds: seq<Option<string>>) {
    && |states| == |users| + 1 && |founds| == |users| && |com| == COM_ID_SIZE
    && Mirrored(states[0]) && At(states[0].comRooms, com) == {}
    && (forall i, j :: 0 <= i < j < |users| ==> users[i] != users[j])
    && (forall i {:trigger ServeAt(states, com, req, users, founds, i)} ::
          0 <= i < |users| ==> ServeAt(states, com, req, users, founds, i))
  }

  function Seen(users: seq<UserId>, k: nat): set<UserId>
    requires k <= |users|
  {
    set i | 0 <= i < k :: users[i]
  }

  lemma {:induction false} SeenNext(users: seq<UserId>, k: nat)
    requires k < |users| && (forall i, j :: 0 <= i < j < |users| ==> users[i] != users[j])
    ensures Seen(users, k + 1) == Seen(users, k) + {users[k]} && users[k] !in Seen(users, k)
  {
  }

  lemma {:induction false} ServedSoFar(states: seq<GuiState>, com: string, req: Quickmatch, users: seq<UserId>,
                                       founds: seq<Option<string>>, k: nat)
    returns (full: nat, waiting: nat, open: string)
    requires Serves(states, com, req, users, founds) && k <= |users|
    requires OwnMatch(req) && 1 <= req.availableNum <= MAX_SLOTS
    ensures Mirrored(states[k]) && Queue(states[k], com, req, Seen(users, k), full, waiting, open)
    ensures k == full * req.availableNum + waiting && waiting < req.availableNum
  {
    hide Mirrored, Queue, QuickmatchGui, QuickCandidates, OwnMatch, Seen;
    if k == 0 {
      full, waiting, open := 0, 0, "";
      EmptyQueue(states[0], com, req, Seen(users, 0));
    } else {
      full, waiting, open := ServedSoFar(states, com, req, users, founds, k - 1);
      assert ServeAt(states, com, req, users, founds, k - 1);
      SeenNext(users, k - 1);
      var s, u, found, seen := states[k - 1], users[k - 1], founds[k - 1], Seen(users, k - 1);
      if waiting == 0 {
        OpensNext(s, com, req, u, found, seen, full, open);
        open := RoomIdOf(com, s.cur);
      } else {
        FindsOpen(s, com, req, seen, full, waiting, open);
        JoinsOpen(s, com, req, u, seen, full, waiting, open);
      }
      QuickmatchKeepsIff(s, com, req, u, found);
      assert (full + 1) * req.availableNum == full * req.availableNum + req.availableNum;
      full, waiting := if waiting + 1 == req.availableNum then full + 1 else full,
                       if waiting + 1 == req.availableNum then 0 else waiting + 1;
    }
  }

  lemma {:induction false} EmptyQueue(s: GuiState, com: string, req: Quickmatch, seen: set<UserId>)
    requires At(s.comRooms, com) == {}
    ensures Queue(s, com, req, seen, 0, 0, "")
  {
  }

  function CeilDiv(m: nat, n: nat): nat
    requires n >= 1
  {
    (m + n - 1) / n
  }

  lemma {:induction false} CeilOf(m: nat, n: nat, full: nat, waiting: nat)
    requires n >= 1 && m == full * n + waiting && waiting < n
    ensures CeilDiv(m, n) == full + if waiting == 0 then 0 else 1
  {
    var c := full + if waiting == 0 then 0 else 1;
    assert m + n - 1 == c * n + (if waiting == 0 then n - 1 else waiting - 1);
    DivOf(m + n - 1, n, c, if waiting == 0 then n - 1 else waiting - 1);
  }

  lemma {:induction false} DivOf(a: nat, n: nat, q: nat, r: nat)
    requires n >= 1 && a == q * n + r && r < n
    ensures a / n == q && a % n == r
  {
    var q' := a / n;
    assert a == n * q' + a % n;
    MulLess(n, q', q + 1);
    MulLess(n, q, q' + 1);
  }

  lemma {:induction false} MulLess(n: nat, x: nat, y: nat)
    requires n * x < n * y
    ensures x < y
  {
    if y <= x {
      MulGrows(n, y, x);
    }
  }

  lemma {:induction false} MulGrows(n: nat, x: nat, y: nat)
    requires x <= y
    ensures n * x <= n * y
  {
    assert n * y == n * x + n * (y - x);
  }

  /** `m` different users with one request for `n` slots fill ceil(m / n) rooms; all of them but
      at most one are full and closed to quickmatch. */
  lemma {:induction false} QuickmatchRooms(states: seq<GuiState>, com: string, req: Quickmatch, users: seq<UserId>,
                                           founds: seq<Option<string>>)
    returns (open: string)
    requires Serves(states, com, req, users, founds)
    requires OwnMatch(req) && 1 <= req.availableNum <= MAX_SLOTS
    ensures var s, m, n := states[|users|], |users|, req.availableNum;
            && |At(s.comRooms, com)| == CeilDiv(m, n)
            && (forall id :: id in At(s.comRooms, com) ==> id in s.rooms)
            && (forall id :: id in At(s.comRooms, com) && id != open ==>
                  |s.rooms[id].members| == n && s.rooms[id].stealth)
            && (m % n != 0 ==>
                  open in At(s.comRooms, com) && |s.rooms[open].members| == m % n && !s.rooms[open].stealth)
            && (m % n == 0 && open in At(s.comRooms, com) ==> |s.rooms[open].members| == n && s.rooms[open].stealth)
  {
    hide Mirrored, OwnMatch, Serves, Seen;
    var full, waiting;
    full, waiting, open := ServedSoFar(states, com, req, users, founds, |users|);
    CeilOf(|users|, req.availableNum, full, waiting);
    DivOf(|users|, req.availableNum, full, waiting);
  }

  // ----- Requests that cannot share a room -----

  ghost predicate AllMade(s: GuiState, com: string, req: Quickmatch, rooms: nat) {
    && |At(s.comRooms, com)| == rooms
    && (forall id :: id in At(s.comRooms, com) ==> id in s.rooms && MadeFor(s.rooms[id], req))
  }

  lemma {:induction false} OpensAnother(s: GuiState, com: string, req: Quickmatch, u: UserId, found: Option<string>,
                                        rooms: nat)
    requires Mirrored(s) && |com| == COM_ID_SIZE && (!OwnMatch(req) || req.availableNum > MAX_SLOTS)
    requires MayFind(QuickCandidates(s, com, req), found) && AllMade(s, com, req, rooms)
    ensures found == None && AllMade(QuickmatchGui(s, com, req, u, None).0, com, req, rooms + 1)
  {
    hide CondNums, RoomIdOf, Mirrored, QuickmatchGui, AllQuickHold;
    assert QuickCandidates(s, com, req) == {};
    Opened(s, com, req, u);
  }

  /** A request that contradicts itself, or asks for more than 64 slots, gives every user a room of their own. */
  lemma {:induction false} RoomsOfTheirOwn(states: seq<GuiState>, com: string, req: Quickmatch, users: seq<UserId>,
                                           founds: seq<Option<string>>, k: nat)
    requires Serves(states, com, req, users, founds) && k <= |users|
    requires !OwnMatch(req) || req.availableNum > MAX_SLOTS
    ensures Mirrored(states[k]) && AllMade(states[k], com, req, k)
  {
    hide Mirrored, QuickmatchGui, QuickCandidates, OwnMatch, MadeFor;
    if k > 0 {
      RoomsOfTheirOwn(states, com, req, users, founds, k - 1);
      assert ServeAt(states, com, req, users, founds, k - 1);
      OpensAnother(states[k - 1], com, req, users[k - 1], founds[k - 1], k - 1);
      QuickmatchKeepsIff(states[k - 1], com, req, users[k - 1], founds[k - 1]);
    }
  }

  // ----- A user who does not wait -----

  /** Somebody who asks again before anybody else came is sent into the room they opened: the
      assertion fails, and the room is left without an owner. */
  lemma {:induction false} AskingTwiceLosesTheRoom(com: string, req: Quickmatch, u: UserId)
    requires |com| == COM_ID_SIZE && OwnMatch(req) && 2 <= req.availableNum <= MAX_SLOTS
    ensures var s, id := QuickmatchGui(NoGuiRooms, com, req, u, None).0, RoomIdOf(com, NoGuiRooms.cur);
            && MayFind(QuickCandidates(NoGuiRooms, com, req), None)
            && AllOwned(s.rooms) && QuickCandidates(s, com, req) == {id} && id in s.rooms
            && var (s', reply) := QuickmatchGui(s, com, req, u, Some(id));
               reply == AssertFailed && !AllOwned(s'.rooms)
  {
    hide Mirrored, AllOwned, RoomIdOf, CondNums, OwnMatch;
    var s, id := QuickmatchGui(NoGuiRooms, com, req, u, None).0, RoomIdOf(com, NoGuiRooms.cur);
    NoGuiRoomsInv();
    assert QuickCandidates(NoGuiRooms, com, req) == {};
    QuickmatchKeepsIff(NoGuiRooms, com, req, u, None);
    Opened(NoGuiRooms, com, req, u);
    assert |s.rooms[id].members| == |s.rooms[id].members.Keys| == 1;
    assert At(s.comRooms, com) == {id};
    assert Queue(s, com, req, {u}, 0, 1, id);
    FindsOpen(s, com, req, {u}, 0, 1, id);
    assert s.rooms[id].members[u];
    QuickmatchKeepsIff(s, com, req, u, Some(id));
  }
}

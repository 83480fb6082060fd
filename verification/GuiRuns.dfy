/** Runs of the GUI room manager, and the slot bound of quickmatch rooms. */
module GuiRuns {
  import opened Prelude
  import opened GuiRooms
  import opened GuiInvariants

  datatype GuiOp =
    | CreateOp(com: string, creation: GuiCreate)
    | JoinOp(id: string)
    | LeaveOp(id: string, heir: UserId)
    | QuickOp(com: string, req: Quickmatch, found: Option<string>)
    | SearchOp(com: string, conds: seq<Cond>, found: Option<string>)
    | FlagOp(id: string, stealth: bool)
    | InfoOp(id: string, attrs: seq<Attr>)

  /** Communication ids have twelve characters, and searches and draws come upon what is there. */
  ghost predicate Possible(s: GuiState, u: UserId, op: GuiOp) {
    match op
    case CreateOp(com, _) => |com| == COM_ID_SIZE
    case LeaveOp(id, heir) => MayInherit(s, id, u, heir)
    case QuickOp(com, req, found) => |com| == COM_ID_SIZE && MayFind(QuickCandidates(s, com, req), found)
    case SearchOp(com, conds, found) => MayFind(SearchCandidates(s, com, conds), found)
    case _ => true
  }

  ghost function Perform(s: GuiState, u: UserId, op: GuiOp): (GuiState, GuiReply)
    requires Possible(s, u, op)
  {
    match op
    case CreateOp(com, req) => CreateGui(s, com, req, u)
    case JoinOp(id) => JoinGui(s, id, u)
    case LeaveOp(id, heir) => LeaveGui(s, id, u, heir)
    case QuickOp(com, req, found) => QuickmatchGui(s, com, req, u, found)
    case SearchOp(com, conds, found) => SearchJoinGui(s, u, found)
    case FlagOp(id, stealth) => SetFlagGui(s, id, stealth, u)
    case InfoOp(id, attrs) => SetInfoGui(s, id, attrs, u)
  }

  predicate Searches(op: GuiOp) { op.QuickOp? || op.SearchOp? }

  /** The search came upon a room the user is in, or even owns. */
  predicate FindsInside(s: GuiState, u: UserId, op: GuiOp) {
    Searches(op) && op.found.Some? && op.found.value in s.rooms && u in s.rooms[op.found.value].members
  }

  predicate FindsOwn(s: GuiState, u: UserId, op: GuiOp) { Searches(op) && OwnsFound(s, u, op.found) }

  /** Every command keeps the indexes; its assertions fail exactly where a search comes upon a
      room the user is in; and it keeps one owner a room exactly unless that room is their own. */
  lemma {:induction false} PerformKeeps(s: GuiState, u: UserId, op: GuiOp)
    requires Mirrored(s) && Possible(s, u, op)
    ensures var (s', reply) := Perform(s, u, op);
            && Mirrored(s') && (reply == AssertFailed <==> FindsInside(s, u, op))
            && (AllOwned(s.rooms) ==> (AllOwned(s'.rooms) <==> !FindsOwn(s, u, op)))
  {
    hide Mirrored, AllOwned, QuickmatchGui, LeaveGui, JoinGui, Enter, Open, SetAttrs, QuickCandidates, SearchCandidates;
    match op
    case CreateOp(com, req) => CreateGuiKeeps(s, com, req, u);
    case JoinOp(id) => JoinGuiKeeps(s, id, u);
    case LeaveOp(id, heir) => LeaveGuiKeeps(s, id, u, heir);
    case QuickOp(com, req, found) => QuickmatchKeepsIff(s, com, req, u, found);
    case SearchOp(com, conds, found) => SearchJoinKeepsIff(s, com, conds, u, found);
    case FlagOp(id, stealth) => SetFlagKeeps(s, id, stealth, u);
    case InfoOp(id, attrs) => SetInfoKeeps(s, id, attrs, u);
  }

  /** A command can take other users out of rooms, when an owner takes a room with them, but
      never puts them into one. */
  ghost predicate OthersOnlyLose(s: GuiState, s': GuiState, u: UserId) {
    forall v :: v != u ==> At(s'.userRooms, v) <= At(s.userRooms, v)
  }

  lemma {:induction false} PerformOthers(s: GuiState, u: UserId, op: GuiOp)
    requires Possible(s, u, op)
    ensures OthersOnlyLose(s, Perform(s, u, op).0, u)
  {
    hide RoomIdOf, CondNums, SetAttrs, IsQuickmatch, IsMatch, MayInherit;
  }

  /** After leaving, the user is in no more rooms than before and not in that one. */
  lemma {:induction false} LeaveTakesOut(s: GuiState, u: UserId, id: string, heir: UserId)
    requires Mirrored(s) && MayInherit(s, id, u, heir)
    ensures At(LeaveGui(s, id, u, heir).0.userRooms, u) <= At(s.userRooms, u) - {id}
  {
    hide RoomsOk, IdsOk, ComsOk, MayInherit, RoomIdOf;
    assert id in At(s.userRooms, u) <==> HasMember(s.rooms, id, u);
    if HasMember(s.rooms, id, u) {
      MemberFacts(s, id, u);
      LeaveGuiKeeps(s, id, u, heir);
    }
  }

  // ----- Runs -----

  datatype GuiIssue = GuiIssue(userId: UserId, op: GuiOp)

  ghost predicate StepAt(states: seq<GuiState>, issues: seq<GuiIssue>, i: nat)
    requires i < |issues| && i + 1 < |states|
  {
    var (u, op) := (issues[i].userId, issues[i].op);
    Possible(states[i], u, op) && states[i + 1] == Perform(states[i], u, op).0
  }

  ghost predicate Run(states: seq<GuiState>, issues: seq<GuiIssue>) {
    && |states| == |issues| + 1 && states[0] == NoGuiRooms
    && (forall i {:trigger StepAt(states, issues, i)} :: 0 <= i < |issues| ==> StepAt(states, issues, i))
  }

  /** In every state of every run each room has a member, the indexes mirror the rooms, ids are
      distinct and ordinary rooms with slots are within them; an assertion fails exactly where a
      search comes upon a room the user is in. */
  lemma {:induction false} RunKeepsInv(states: seq<GuiState>, issues: seq<GuiIssue>, n: nat)
    requires Run(states, issues) && n <= |issues|
    ensures Mirrored(states[n])
    ensures n < |issues| ==>
              && StepAt(states, issues, n)
              && var (u, op) := (issues[n].userId, issues[n].op);
                 Perform(states[n], u, op).1 == AssertFailed <==> FindsInside(states[n], u, op)
  {
    hide Mirrored, Perform, Possible, FindsInside;
    if n == 0 {
      NoGuiRoomsInv();
    } else {
      RunKeepsInv(states, issues, n - 1);
      assert StepAt(states, issues, n - 1);
      PerformKeeps(states[n - 1], issues[n - 1].userId, issues[n - 1].op);
    }
    if n < |issues| {
      assert StepAt(states, issues, n);
      PerformKeeps(states[n], issues[n].userId, issues[n].op);
    }
  }

  ghost predicate FindsOwnAt(states: seq<GuiState>, issues: seq<GuiIssue>, i: nat)
    requires i < |issues| && i < |states|
  {
    FindsOwn(states[i], issues[i].userId, issues[i].op)
  }

  /** Along a run every room has exactly one owner up to the first search that sends an owner into
      their own room, and that one leaves a room without. */
  lemma {:induction false} RunOwnedIff(states: seq<GuiState>, issues: seq<GuiIssue>, n: nat)
    requires Run(states, issues) && n <= |issues|
    ensures (forall i :: 0 <= i <= n ==> AllOwned(states[i].rooms))
            <==> (forall i :: 0 <= i < n ==> !FindsOwnAt(states, issues, i))
  {
    hide Mirrored, AllOwned, Perform, Possible, FindsOwn;
    if n == 0 {
      NoGuiRoomsInv();
    } else {
      RunOwnedIff(states, issues, n - 1);
      RunKeepsInv(states, issues, n - 1);
      if AllOwned(states[n - 1].rooms) {
        PerformKeeps(states[n - 1], issues[n - 1].userId, issues[n - 1].op);
        assert AllOwned(states[n].rooms) <==> !FindsOwnAt(states, issues, n - 1);
      }
    }
  }

  // ----- Quickmatch rooms: within their slots -----

  /** A quickmatch room with slots has no more members than slots. */
  predicate Within(r: GuiRoom) { r.quickmatch && 1 <= r.total ==> |r.members| <= r.total }

  ghost predicate AllWithin(rooms: Table) { forall id :: id in rooms ==> Within(rooms[id]) }

  /** A quickmatch that comes upon a full room which is still open, for somebody not in it. */
  predicate Overfills(s: GuiState, u: UserId, op: GuiOp) {
    && op.QuickOp? && op.found.Some? && op.found.value in s.rooms
    && var r := s.rooms[op.found.value]; 1 <= r.total <= |r.members| && u !in r.members
  }

  /** A command takes some quickmatch room past its slots exactly when it is such a quickmatch. */
  lemma {:induction false} PerformWithinIff(s: GuiState, u: UserId, op: GuiOp)
    requires Mirrored(s) && AllWithin(s.rooms) && Possible(s, u, op)
    ensures AllWithin(Perform(s, u, op).0.rooms) <==> !Overfills(s, u, op)
  {
    hide Within, Mirrored;
    match op
    case CreateOp(com, req) => OpenWithin(s, PlainRoom(com, req), u);
    case JoinOp(id) => JoinWithin(s, id, u);
    case LeaveOp(id, heir) => LeaveWithin(s, id, u, heir);
    case QuickOp(com, req, found) => QuickmatchWithinIff(s, com, req, u, found);
    case SearchOp(com, conds, found) => SearchWithin(s, com, conds, u, found);
    case FlagOp(id, stealth) => OneChanged(s.rooms, SetFlagGui(s, id, stealth, u).0.rooms, id);
    case InfoOp(id, attrs) => OneChanged(s.rooms, SetInfoGui(s, id, attrs, u).0.rooms, id);
  }

  /** One room changed in neither members, slots nor kind. */
  lemma {:induction false} OneChanged(rooms: Table, rooms': Table, id: string)
    requires AllWithin(rooms)
    requires rooms' == rooms
             || (&& id in rooms && id in rooms' && rooms' == rooms[id := rooms'[id]]
                 && rooms'[id].members == rooms[id].members && rooms'[id].total == rooms[id].total
                 && rooms'[id].quickmatch == rooms[id].quickmatch)
    ensures AllWithin(rooms')
  {
    assert id in rooms ==> Within(rooms[id]);
  }

  lemma {:induction false} OpenWithin(s: GuiState, room: GuiRoom, u: UserId)
    requires AllWithin(s.rooms) && !room.quickmatch
    ensures AllWithin(Open(s, room, u).rooms)
  {
    hide RoomIdOf;
  }

  lemma {:induction false} JoinWithin(s: GuiState, id: string, u: UserId)
    requires AllWithin(s.rooms)
    ensures AllWithin(JoinGui(s, id, u).0.rooms)
  {
    var rooms' := JoinGui(s, id, u).0.rooms;
    if id in s.rooms {
      assert Within(s.rooms[id]) && Within(rooms'[id]);
    }
  }

  lemma {:induction false} SearchWithin(s: GuiState, com: string, conds: seq<Cond>, u: UserId, found: Option<string>)
    requires AllWithin(s.rooms) && MayFind(SearchCandidates(s, com, conds), found)
    ensures AllWithin(SearchJoinGui(s, u, found).0.rooms)
  {
  }

  lemma {:induction false} LeaveWithin(s: GuiState, id: string, u: UserId, heir: UserId)
    requires Mirrored(s) && AllWithin(s.rooms) && MayInherit(s, id, u, heir)
    ensures AllWithin(LeaveGui(s, id, u, heir).0.rooms)
  {
    if HasMember(s.rooms, id, u) {
      LeaveGuiKeeps(s, id, u, heir);
      LeaveShrinks(s, id, u, heir);
      var r, rooms' := s.rooms[id], LeaveGui(s, id, u, heir).0.rooms;
      assert Within(r);
    }
  }

  /** A room that goes on after a departure is the same room with one member less. */
  lemma {:induction false} LeaveShrinks(s: GuiState, id: string, u: UserId, heir: UserId)
    requires Mirrored(s) && MayInherit(s, id, u, heir) && HasMember(s.rooms, id, u)
    ensures var r, rooms' := s.rooms[id], LeaveGui(s, id, u, heir).0.rooms;
            id in rooms' ==>
              && rooms'[id] == r.(members := rooms'[id].members)
              && |rooms'[id].members| == |r.members| - 1
  {
    hide Mirrored;
    LeaveGuiKeeps(s, id, u, heir);
    var r, rooms' := s.rooms[id], LeaveGui(s, id, u, heir).0.rooms;
    if id in rooms' {
      assert |rooms'[id].members| == |rooms'[id].members.Keys| && |r.members| == |r.members.Keys|;
      assert rooms'[id].members.Keys == r.members.Keys - {u};
    }
  }

  /** The room a quickmatch found has one member more, or is as it was for somebody inside. */
  lemma {:induction false} FoundRoom(s: GuiState, com: string, req: Quickmatch, u: UserId, id: string)
    requires Mirrored(s) && id in s.rooms
    ensures var r, rooms' := s.rooms[id], QuickmatchGui(s, com, req, u, Some(id)).0.rooms;
            && id in rooms' && rooms' == s.rooms[id := rooms'[id]]
            && var r' := rooms'[id];
               && r'.quickmatch == r.quickmatch && r'.total == r.total
               && |r'.members| == |r.members| + (if u in r.members then 0 else 1)
               && (r'.stealth <==> r.stealth || (u !in r.members && |r'.members| == r.total))
  {
    hide Mirrored, Others, Add, Indexed;
    IndexedIff(s, id, u);
    var members := s.rooms[id].members;
    assert members[u := false].Keys == members.Keys + {u};
    assert |members[u := false]| == |members[u := false].Keys| && |members| == |members.Keys|;
  }

  lemma {:induction false} QuickmatchWithinIff(s: GuiState, com: string, req: Quickmatch, u: UserId,
                                               found: Option<string>)
    requires Mirrored(s) && AllWithin(s.rooms) && MayFind(QuickCandidates(s, com, req), found)
    ensures AllWithin(QuickmatchGui(s, com, req, u, found).0.rooms) <==> !Overfills(s, u, QuickOp(com, req, found))
  {
    hide RoomIdOf, CondNums, Mirrored, Add, AllQuickHold, QuickmatchGui;
    var rooms' := QuickmatchGui(s, com, req, u, found).0.rooms;
    match found
    case None => NewRoom(s, com, req, u);
    case Some(id) =>
      FoundRoom(s, com, req, u, id);
      assert Within(s.rooms[id]) && s.rooms[id].quickmatch;
      if Overfills(s, u, QuickOp(com, req, found)) {
        assert !Within(rooms'[id]);
      } else {
        assert Within(rooms'[id]);
      }
  }

  /** The room a quickmatch opens has one member and is closed if that is all it has room for. */
  lemma {:induction false} NewRoom(s: GuiState, com: string, req: Quickmatch, u: UserId)
    ensures var id, rooms' := RoomIdOf(com, s.cur), QuickmatchGui(s, com, req, u, None).0.rooms;
            && id in rooms' && rooms' == s.rooms[id := rooms'[id]]
            && rooms'[id].quickmatch && |rooms'[id].members| == 1
            && (rooms'[id].total == 1 ==> rooms'[id].stealth)
  {
    hide RoomIdOf, CondNums, Others, Add;
  }

  ghost predicate OverfillsAt(states: seq<GuiState>, issues: seq<GuiIssue>, i: nat)
    requires i < |issues| && i < |states|
  {
    Overfills(states[i], issues[i].userId, issues[i].op)
  }

  /** Along a run all quickmatch rooms are within their slots exactly as long as no quickmatch
      comes upon a full room that is still open. */
  lemma {:induction false} RunWithinIff(states: seq<GuiState>, issues: seq<GuiIssue>, n: nat)
    requires Run(states, issues) && n <= |issues|
    ensures (forall i :: 0 <= i <= n ==> AllWithin(states[i].rooms))
            <==> (forall i :: 0 <= i < n ==> !OverfillsAt(states, issues, i))
  {
    hide Perform, Possible, Overfills, AllWithin, Mirrored;
    if n == 0 {
      EmptyFits();
    } else {
      RunWithinIff(states, issues, n - 1);
      RunKeepsInv(states, issues, n - 1);
      if AllWithin(states[n - 1].rooms) {
        PerformWithinIff(states[n - 1], issues[n - 1].userId, issues[n - 1].op);
        assert AllWithin(states[n].rooms) <==> !OverfillsAt(states, issues, n - 1);
      }
    }
  }

  lemma {:induction false} EmptyFits()
    ensures AllWithin(NoGuiRooms.rooms) && AllQuickFit(NoGuiRooms.rooms)
  {
  }

  // ----- Quickmatch rooms: closed as soon as they are full -----

  /** A quickmatch room with slots is within them, and closed when it is full. */
  predicate QuickFits(r: GuiRoom) {
    r.quickmatch && 1 <= r.total ==> |r.members| <= r.total && (|r.members| == r.total ==> r.stealth)
  }

  ghost predicate AllQuickFit(rooms: Table) { forall id :: id in rooms ==> QuickFits(rooms[id]) }

  /** A join that fills a quickmatch room without closing it. */
  predicate FillsQuickRoom(s: GuiState, u: UserId, op: GuiOp) {
    && op.JoinOp? && op.id in s.rooms
    && var r := s.rooms[op.id];
       r.quickmatch && !r.stealth && u !in r.members && |r.members| + 1 == r.total
  }

  /** Every command but one keeps quickmatch rooms within their slots and closed when full: a
      direct join that takes the last slot of an open quickmatch room leaves a full one open. */
  lemma {:induction false} PerformFitsIff(s: GuiState, u: UserId, op: GuiOp)
    requires Mirrored(s) && AllQuickFit(s.rooms) && Possible(s, u, op)
    ensures AllQuickFit(Perform(s, u, op).0.rooms) <==> !FillsQuickRoom(s, u, op)
  {
    hide Mirrored;
    match op
    case CreateOp(com, req) => OpenFits(s, PlainRoom(com, req), u);
    case JoinOp(id) => JoinFitsIff(s, id, u);
    case LeaveOp(id, heir) => LeaveFits(s, id, u, heir);
    case QuickOp(com, req, found) => QuickmatchFits(s, com, req, u, found);
    case SearchOp(com, conds, found) => SearchFits(s, com, conds, u, found);
    case FlagOp(id, stealth) =>
    case InfoOp(id, attrs) =>
  }

  lemma {:induction false} OpenFits(s: GuiState, room: GuiRoom, u: UserId)
    requires AllQuickFit(s.rooms) && !room.quickmatch
    ensures AllQuickFit(Open(s, room, u).rooms)
  {
    hide RoomIdOf;
  }

  lemma {:induction false} JoinFitsIff(s: GuiState, id: string, u: UserId)
    requires AllQuickFit(s.rooms)
    ensures AllQuickFit(JoinGui(s, id, u).0.rooms) <==> !FillsQuickRoom(s, u, JoinOp(id))
  {
    hide Others, Add;
    var rooms' := JoinGui(s, id, u).0.rooms;
    if id in s.rooms && FillsQuickRoom(s, u, JoinOp(id)) {
      assert QuickFits(s.rooms[id]);
      assert !QuickFits(rooms'[id]);
    } else if id in s.rooms {
      assert QuickFits(s.rooms[id]) && QuickFits(rooms'[id]);
    }
  }

  lemma {:induction false} QuickmatchFits(s: GuiState, com: string, req: Quickmatch, u: UserId, found: Option<string>)
    requires Mirrored(s) && AllQuickFit(s.rooms) && MayFind(QuickCandidates(s, com, req), found)
    ensures AllQuickFit(QuickmatchGui(s, com, req, u, found).0.rooms)
  {
    hide RoomIdOf, CondNums, Add, AllQuickHold, Mirrored, QuickmatchGui;
    match found
    case None => NewRoom(s, com, req, u);
    case Some(id) =>
      FoundRoom(s, com, req, u, id);
      assert QuickFits(s.rooms[id]) && !s.rooms[id].stealth;
  }

  lemma {:induction false} SearchFits(s: GuiState, com: string, conds: seq<Cond>, u: UserId, found: Option<string>)
    requires AllQuickFit(s.rooms) && MayFind(SearchCandidates(s, com, conds), found)
    ensures AllQuickFit(SearchJoinGui(s, u, found).0.rooms)
  {
  }

  lemma {:induction false} LeaveFits(s: GuiState, id: string, u: UserId, heir: UserId)
    requires Mirrored(s) && AllQuickFit(s.rooms) && MayInherit(s, id, u, heir)
    ensures AllQuickFit(LeaveGui(s, id, u, heir).0.rooms)
  {
    if HasMember(s.rooms, id, u) {
      LeaveGuiKeeps(s, id, u, heir);
      LeaveShrinks(s, id, u, heir);
      assert QuickFits(s.rooms[id]);
    }
  }

  ghost predicate FillsAt(states: seq<GuiState>, issues: seq<GuiIssue>, i: nat)
    requires i < |issues| && i < |states|
  {
    FillsQuickRoom(states[i], issues[i].userId, issues[i].op)
  }

  /** Along a run quickmatch rooms are within their slots and closed when full exactly as long as
      no join takes the last slot of an open one. */
  lemma {:induction false} RunFitsIff(states: seq<GuiState>, issues: seq<GuiIssue>, n: nat)
    requires Run(states, issues) && n <= |issues|
    ensures (forall i :: 0 <= i <= n ==> AllQuickFit(states[i].rooms))
            <==> (forall i :: 0 <= i < n ==> !FillsAt(states, issues, i))
  {
    hide Perform, Possible, FillsQuickRoom, AllQuickFit, Mirrored;
    if n == 0 {
      EmptyFits();
    } else {
      RunFitsIff(states, issues, n - 1);
      RunKeepsInv(states, issues, n - 1);
      if AllQuickFit(states[n - 1].rooms) {
        PerformFitsIff(states[n - 1], issues[n - 1].userId, issues[n - 1].op);
        assert AllQuickFit(states[n].rooms) <==> !FillsAt(states, issues, n - 1);
      }
    }
  }

  /** So no run overfills a quickmatch room without such a join before. */
  lemma {:induction false} OverfillingNeedsAJoin(states: seq<GuiState>, issues: seq<GuiIssue>, n: nat)
    requires Run(states, issues) && n < |issues| && OverfillsAt(states, issues, n)
    ensures exists i :: 0 <= i < n && FillsAt(states, issues, i)
  {
    hide Perform, Mirrored, FillsQuickRoom;
    RunFitsIff(states, issues, n);
    assert StepAt(states, issues, n);
    var r := states[n].rooms[issues[n].op.found.value];
    assert r.quickmatch && !r.stealth && !QuickFits(r);
  }

  /** After such a join the next quickmatch with a fitting request puts one member too many into
      the room. */
  lemma {:induction false} FilledRoomOverflows(s: GuiState, com: string, req: Quickmatch, id: string, u: UserId,
                                               v: UserId)
    requires Mirrored(s) && FillsQuickRoom(s, u, JoinOp(id)) && u != v && v !in s.rooms[id].members
    requires s.rooms[id].com == com && s.rooms[id].total == req.availableNum
    requires AllQuickHold(s.rooms[id].nums, req.conds)
    ensures var s1 := JoinGui(s, id, u).0;
            && id in QuickCandidates(s1, com, req) && Overfills(s1, v, QuickOp(com, req, Some(id)))
            && var s2 := QuickmatchGui(s1, com, req, v, Some(id)).0;
               id in s2.rooms && |s2.rooms[id].members| == s2.rooms[id].total + 1
  {
    hide AllQuickHold, RoomsOk, IdsOk, Others;
    var s1 := JoinGui(s, id, u).0;
    assert id in At(s.comRooms, com) <==> InCom(s.rooms, com, id);
    assert id in At(s.userRooms, v) <==> HasMember(s.rooms, id, v);
    assert !Indexed(s1, id, v);
  }
}

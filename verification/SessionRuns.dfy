/** Every run of the server, whatever the interleaving. */
module SessionRuns {
  import opened Prelude
  import opened Sessions
  import opened SessionInvariants
  import M = Rooms
  import MR = ManagerRuns
  import G = GuiRooms
  import GI = GuiInvariants
  import GR = GuiRuns
  import T = GameTracker
  import RM = RoomModel
  import RI = RoomInvariants

  // ----- Rooms, one session at a time -----

  /** No rooms change; the session does, and the client table loses nobody with rooms. */
  lemma {:induction false} RoomsSame(t: Table, infos: set<int>, r: map<int, set<M.Key>>, i: nat, x: Session,
                                     infos': set<int>)
    requires RoomPlaces(t, infos, r) && RoomsLeft(x, At(r, x.user))
    requires infos <= infos' || (infos' == infos - {x.user} && At(r, x.user) == {})
    ensures RoomPlaces(t[i := x], infos', r)
  {
  }

  lemma {:induction false} GuiSame(t: Table, infos: set<int>, g: map<UserId, set<string>>, i: nat, x: Session,
                                   infos': set<int>)
    requires GuiPlaces(t, infos, g) && GuiLeft(x, At(g, x.user))
    requires infos <= infos' || (infos' == infos - {x.user} && At(g, x.user) == {})
    ensures GuiPlaces(t[i := x], infos', g)
  {
  }

  /** The user of an active session changes rooms; everybody else can only lose some. */
  lemma {:induction false} RoomsMove(t: Table, lock: Option<nat>, infos: set<int>, duty: set<int>,
                                     r: map<int, set<M.Key>>, i: nat, x: Session, r': map<int, set<M.Key>>)
    requires Presence(t, lock, infos, duty) && i in t && Registered(t[i].phase) && x.user == t[i].user
    requires RoomPlaces(t, infos, r) && RoomsLeft(x, At(r', x.user))
    requires forall u :: u != x.user ==> At(r', u) <= At(r, u)
    ensures RoomPlaces(t[i := x], infos, r')
  {
    OthersApart(t, i);
    assert Known(t[i], infos, duty);
    forall j | j in t && j != i
      ensures RoomsLeft(t[j], At(r', t[j].user))
    {
      assert RoomsLeft(t[j], At(r, t[j].user));
    }
  }

  lemma {:induction false} GuiMove(t: Table, lock: Option<nat>, infos: set<int>, duty: set<int>,
                                   g: map<UserId, set<string>>, i: nat, x: Session, g': map<UserId, set<string>>)
    requires Presence(t, lock, infos, duty) && i in t && Registered(t[i].phase) && x.user == t[i].user
    requires GuiPlaces(t, infos, g) && GuiLeft(x, At(g', x.user))
    requires forall u :: u != x.user ==> At(g', u) <= At(g, u)
    ensures GuiPlaces(t[i := x], infos, g')
  {
    OthersApart(t, i);
    assert Known(t[i], infos, duty);
    forall j | j in t && j != i
      ensures GuiLeft(t[j], At(g', t[j].user))
    {
      assert GuiLeft(t[j], At(g, t[j].user));
    }
  }

  // ----- Counters, one session at a time -----

  /** Two sets that differ at most in one element. */
  lemma {:induction false} SizeStep(a: set<nat>, b: set<nat>, i: nat)
    requires forall j :: j != i ==> (j in a <==> j in b)
    ensures |b| == |a| + (if i in b then 1 else 0) - (if i in a then 1 else 0)
  {
    assert a - {i} == b - {i};
    SizeWithout(a, i);
    SizeWithout(b, i);
  }

  lemma {:induction false} SizeWithout(a: set<nat>, i: nat)
    ensures |a| == |a - {i}| + if i in a then 1 else 0
  {
    if i in a {
      assert a == (a - {i}) + {i};
    } else {
      assert a == a - {i};
    }
  }

  lemma {:induction false} UsersStep(t: Table, n: int, i: nat, x: Session)
    requires UsersCounted(t, n)
    ensures var was := i in t && Counted(t[i].phase);
            UsersCounted(t[i := x], n + (if Counted(x.phase) then 1 else 0) - (if was then 1 else 0))
  {
    SizeStep(Users(t), Users(t[i := x]), i);
  }

  lemma {:induction false} PlayersOf(t: Table, i: nat, x: Session, com: string)
    ensures |Players(t[i := x], com)|
            == |Players(t, com)| + (if x.counted == Some(com) then 1 else 0)
               - (if i in t && t[i].counted == Some(com) then 1 else 0)
  {
    SizeStep(Players(t, com), Players(t[i := x], com), i);
  }

  lemma {:induction false} PlayersSame(t: Table, psn: map<string, int>, i: nat, x: Session)
    requires PlayersCounted(t, psn) && x.counted == if i in t then t[i].counted else None
    ensures PlayersCounted(t[i := x], psn)
  {
    forall com
      ensures T.CountIn(psn, com) == |Players(t[i := x], com)|
    {
      PlayersOf(t, i, x, com);
    }
  }

  lemma {:induction false} PlayersDown(t: Table, psn: map<string, int>, i: nat, x: Session, game: string)
    requires PlayersCounted(t, psn) && i in t && t[i].counted == Some(game) && x.counted.None?
    ensures PlayersCounted(t[i := x], T.Bump(psn, game, -1))
  {
    forall com
      ensures T.CountIn(T.Bump(psn, game, -1), com) == |Players(t[i := x], com)|
    {
      PlayersOf(t, i, x, com);
    }
  }

  lemma {:induction false} PlayersUp(t: Table, psn: map<string, int>, i: nat, x: Session, game: string)
    requires PlayersCounted(t, psn) && i in t && t[i].counted.None? && x.counted == Some(game)
    ensures PlayersCounted(t[i := x], T.Bump(psn, game, 1))
  {
    forall com
      ensures T.CountIn(T.Bump(psn, game, 1), com) == |Players(t[i := x], com)|
    {
      PlayersOf(t, i, x, com);
    }
  }

  // ----- Every action keeps the invariant -----

  lemma {:induction false} OutsideKeeps(s: Server, i: nat, x: Session, lock: Option<nat>)
    requires ServerInv(s) && !Active(x.phase) && (i in s.sessions ==> !Active(s.sessions[i].phase))
    requires x.game.None? && x.counted.None?
    requires s.lock == lock || (s.lock.None? && lock == Some(i)) || (s.lock == Some(i) && lock.None?)
    requires LoginOk(s.sessions[i := x], lock, s.infos, s.duty, i)
    ensures ServerInv(Put(s, i, x).(lock := lock))
  {
    hide Presence, RoomPlaces, GuiPlaces, M.ManagerInv, GI.Mirrored, UsersCounted, PlayersCounted, LoginOk;
    assert i in s.sessions ==> GameOk(s.sessions[i]);
    PresenceOutside(s.sessions, s.lock, s.infos, s.duty, i, x, lock);
    RoomsSame(s.sessions, s.infos, s.m2.userRooms, i, x, s.infos);
    GuiSame(s.sessions, s.infos, s.gui.userRooms, i, x, s.infos);
    UsersStep(s.sessions, s.numUsers, i, x);
    PlayersSame(s.sessions, s.psn, i, x);
  }

  /** Steps of a logged-in session that leave rooms and tables alone. */
  lemma {:induction false} InsideKeeps(s: Server, i: nat, x: Session, psn: map<string, int>, lock: Option<nat>, n: int)
    requires ServerInv(s) && i in s.sessions && SameClass(s.sessions[i], x) && !LoggingIn(x.phase)
    requires lock == if LoggingIn(s.sessions[i].phase) then None else s.lock
    requires n == s.numUsers + (if Counted(x.phase) then 1 else 0) - (if Counted(s.sessions[i].phase) then 1 else 0)
    requires RoomsLeft(x, At(s.m2.userRooms, x.user)) && GuiLeft(x, At(s.gui.userRooms, x.user))
    requires GameOk(x) && PlayersCounted(s.sessions[i := x], psn)
    ensures ServerInv(Put(s, i, x).(psn := psn, lock := lock, numUsers := n))
  {
    hide Presence, RoomPlaces, GuiPlaces, M.ManagerInv, GI.Mirrored, UsersCounted, PlayersCounted, RoomsLeft;
    hide GuiLeft, GameOk;
    PresenceSame(s.sessions, s.lock, s.infos, s.duty, i, x, lock);
    RoomsSame(s.sessions, s.infos, s.m2.userRooms, i, x, s.infos);
    GuiSame(s.sessions, s.infos, s.gui.userRooms, i, x, s.infos);
    UsersStep(s.sessions, s.numUsers, i, x);
  }

  lemma {:induction false} LeftNow(s: Server, i: nat)
    requires ServerInv(s) && i in s.sessions
    ensures var x := s.sessions[i];
            && GameOk(x) && LoginOk(s.sessions, s.lock, s.infos, s.duty, i)
            && RoomsLeft(x, At(s.m2.userRooms, x.user)) && GuiLeft(x, At(s.gui.userRooms, x.user))
            && Known(x, s.infos, s.duty)
  {
    hide M.ManagerInv, GI.Mirrored, UsersCounted, PlayersCounted;
  }

  /** Login up to the client table, and connections that come and go without one. */
  lemma {:induction false} LoginKeeps(s: Server, i: nat, a: Action, s': Server)
    requires ServerInv(s) && Next(s, i, a, s')
    requires a.Connect? || a.Lock? || a.GiveUp? || a.CheckInfos? || a.CheckDuty?
    ensures ServerInv(s')
  {
    hide ServerInv, RoomsLeft, GuiLeft, MR.Execute, GR.Perform, M.LeaveRoom, G.LeaveGui, GR.Possible, G.MayInherit;
    if a.Connect? {
      LockHolderIsThere(s);
    } else {
      LeftNow(s, i);
    }
    OutsideKeeps(s, i, s'.sessions[i], s'.lock);
  }

  lemma {:induction false} LockHolderIsThere(s: Server)
    requires ServerInv(s)
    ensures s.lock.Some? ==> s.lock.value in s.sessions
  {
    hide M.ManagerInv, GI.Mirrored, UsersCounted, PlayersCounted;
  }

  /** The new entry of the client table is in no room: nobody outside the table is. */
  lemma {:induction false} EnlistKeeps(s: Server, i: nat, s': Server)
    requires ServerInv(s) && Next(s, i, Enlist, s')
    ensures ServerInv(s')
  {
    hide Presence, RoomPlaces, GuiPlaces, M.ManagerInv, GI.Mirrored, UsersCounted, PlayersCounted, MR.Execute;
    hide GR.Perform, M.LeaveRoom, G.LeaveGui, GR.Possible, G.MayInherit;
    var x := s'.sessions[i];
    LeftNow(s, i);
    PresenceEnlist(s.sessions, s.lock, s.infos, s.duty, i, x);
    RoomsSame(s.sessions, s.infos, s.m2.userRooms, i, x, s'.infos);
    GuiSame(s.sessions, s.infos, s.gui.userRooms, i, x, s'.infos);
    UsersStep(s.sessions, s.numUsers, i, x);
    PlayersSame(s.sessions, s.psn, i, x);
  }

  /** What the stages of a cleanup may rely on and promise. */
  lemma {:induction false} AdvanceFacts(s: Server, i: nat, x: Session, s': Server)
    requires Advances(s, i, x, s') && GameOk(x)
    requires RoomsLeft(x, At(s.m2.userRooms, x.user)) && GuiLeft(x, At(s.gui.userRooms, x.user))
    ensures i in s'.sessions && s' == Put(s, i, s'.sessions[i])
    ensures var x' := s'.sessions[i];
            && SameClass(x, x') && !LoggingIn(x.phase) && !LoggingIn(x'.phase) && Counted(x.phase) && Counted(x'.phase)
            && GameOk(x') && x'.counted == x.counted
            && RoomsLeft(x', At(s.m2.userRooms, x.user)) && GuiLeft(x', At(s.gui.userRooms, x.user))
  {
    match x.phase.stage
    case ReadRooms =>
    case LeaveRooms(_) =>
    case ReadGui =>
    case LeaveGui(_) =>
    case DecGame =>
    case ClearGame =>
    case Cleaned =>
  }

  lemma {:induction false} AdvanceKeeps(s: Server, i: nat, s': Server)
    requires ServerInv(s) && Next(s, i, Advance, s')
    ensures ServerInv(s')
  {
    hide ServerInv, PlayersCounted, Advances, RoomsLeft, GuiLeft, GameOk, SameClass;
    var x := s.sessions[i];
    LeftNow(s, i);
    PlayersNow(s);
    AdvanceFacts(s, i, x, s');
    PlayersSame(s.sessions, s.psn, i, s'.sessions[i]);
    InsideKeeps(s, i, s'.sessions[i], s.psn, s.lock, s.numUsers);
  }

  /** Counting in and out. */
  lemma {:induction false} CountKeeps(s: Server, i: nat, s': Server)
    requires ServerInv(s) && i in s.sessions
    requires var x := s.sessions[i]; CountsUp(s, i, x, s') || Resets(s, i, x, s') || CountsDown(s, i, x, s')
    ensures ServerInv(s')
  {
    hide ServerInv, PlayersCounted;
    var x' := s'.sessions[i];
    LeftNow(s, i);
    PlayersNow(s);
    PlayersSame(s.sessions, s.psn, i, x');
    InsideKeeps(s, i, x', s.psn, s'.lock, s'.numUsers);
  }

  /** Changing games: the counter the session holds goes down before another goes up. */
  lemma {:induction false} GameDownKeeps(s: Server, i: nat, com: string, s': Server)
    requires ServerInv(s) && i in s.sessions && s.sessions[i].game.Some?
    requires SetsGame(s, i, s.sessions[i], com, s') || DropsGame(s, i, s.sessions[i], s')
    ensures ServerInv(s')
  {
    hide ServerInv, PlayersCounted;
    LeftNow(s, i);
    PlayersNow(s);
    PlayersDown(s.sessions, s.psn, i, s'.sessions[i], s.sessions[i].game.value);
    InsideKeeps(s, i, s'.sessions[i], s'.psn, s.lock, s.numUsers);
  }

  lemma {:induction false} GameUpKeeps(s: Server, i: nat, com: string, s': Server)
    requires ServerInv(s) && i in s.sessions
    requires var x := s.sessions[i];
             (x.game.None? && SetsGame(s, i, x, com, s')) || MovesGame(s, i, x, s') || CountsGame(s, i, x, s')
    ensures ServerInv(s')
  {
    hide ServerInv, PlayersCounted;
    var x, x' := s.sessions[i], s'.sessions[i];
    LeftNow(s, i);
    PlayersNow(s);
    if CountsGame(s, i, x, s') {
      PlayersUp(s.sessions, s.psn, i, x', x.phase.next);
    } else {
      PlayersSame(s.sessions, s.psn, i, x');
    }
    InsideKeeps(s, i, x', s'.psn, s.lock, s.numUsers);
  }

  lemma {:induction false} PlayersNow(s: Server)
    requires ServerInv(s)
    ensures PlayersCounted(s.sessions, s.psn)
  {
    hide M.ManagerInv, GI.Mirrored, UsersCounted, PlayersCounted;
  }

  lemma {:induction false} DisconnectKeeps(s: Server, i: nat, s': Server)
    requires ServerInv(s) && Next(s, i, Disconnect, s')
    ensures ServerInv(s')
  {
    hide Presence, RoomPlaces, GuiPlaces, M.ManagerInv, GI.Mirrored, UsersCounted, PlayersCounted, GamesOk;
    hide MR.Execute, GR.Perform, M.LeaveRoom, G.LeaveGui, GR.Possible, G.MayInherit;
    var x, x' := s.sessions[i], s'.sessions[i];
    LeftNow(s, i);
    if x.phase.Guest? {
      OutsideKeeps(s, i, x', s.lock);
    } else {
      GamesStep(s.sessions, i, x');
      PresenceDisconnect(s.sessions, s.lock, s.infos, s.duty, i, x');
      RoomsSame(s.sessions, s.infos, s.m2.userRooms, i, x', s.infos);
      GuiSame(s.sessions, s.infos, s.gui.userRooms, i, x', s.infos);
      UsersStep(s.sessions, s.numUsers, i, x');
      PlayersSame(s.sessions, s.psn, i, x');
    }
  }

  lemma {:induction false} GamesStep(t: Table, i: nat, x: Session)
    requires GamesOk(t) && GameOk(x)
    ensures GamesOk(t[i := x])
  {
  }

  lemma {:induction false} EndKeeps(s: Server, i: nat, a: Action, s': Server)
    requires ServerInv(s) && Next(s, i, a, s') && (a.Unlist? || a.EndDuty?)
    ensures ServerInv(s')
  {
    hide Presence, RoomPlaces, GuiPlaces, M.ManagerInv, GI.Mirrored, UsersCounted, PlayersCounted, GamesOk;
    hide MR.Execute, GR.Perform, M.LeaveRoom, G.LeaveGui, GR.Possible, G.MayInherit;
    var x' := s'.sessions[i];
    LeftNow(s, i);
    GamesStep(s.sessions, i, x');
    if a.Unlist? {
      PresenceUnlist(s.sessions, s.lock, s.infos, s.duty, i, x');
    } else {
      PresenceEnd(s.sessions, s.lock, s.infos, s.duty, i, x');
    }
    RoomsSame(s.sessions, s.infos, s.m2.userRooms, i, x', s'.infos);
    GuiSame(s.sessions, s.infos, s.gui.userRooms, i, x', s'.infos);
    UsersStep(s.sessions, s.numUsers, i, x');
    PlayersSame(s.sessions, s.psn, i, x');
  }

  /** Commands of live sessions, and the departures of a cleanup. */
  lemma {:induction false} RoomCommandKeeps(s: Server, i: nat, a: Action, s': Server)
    requires ServerInv(s) && Next(s, i, a, s') && (a.RoomCommand? || a.LeaveRoom?)
    ensures ServerInv(s')
  {
    hide Presence, RoomPlaces, GuiPlaces, M.ManagerInv, GI.Mirrored, UsersCounted, PlayersCounted, GamesOk;
    hide MR.Execute, GR.Perform, M.LeaveRoom, G.LeaveGui, GR.Possible, G.MayInherit;
    var x, x' := s.sessions[i], s'.sessions[i];
    LeftNow(s, i);
    GamesStep(s.sessions, i, x');
    if a.RoomCommand? {
      MR.ExecuteKeeps(s.m2, x.user, a.command);
      assert s.sessions[i := x] == s.sessions;
    } else {
      M.LeaveRoomKeepsInv(s.m2, a.room, x.user, a.pick);
      MR.LeaveOnlyOwn(s.m2, a.room, x.user, a.pick);
      MR.LeaveTakesOut(s.m2, x.user, a.room, a.pick);
    }
    PresenceSame(s.sessions, s.lock, s.infos, s.duty, i, x', s.lock);
    RoomsMove(s.sessions, s.lock, s.infos, s.duty, s.m2.userRooms, i, x', s'.m2.userRooms);
    GuiSame(s.sessions, s.infos, s.gui.userRooms, i, x', s.infos);
    UsersStep(s.sessions, s.numUsers, i, x');
    PlayersSame(s.sessions, s.psn, i, x');
  }

  lemma {:induction false} GuiCommandKeeps(s: Server, i: nat, a: Action, s': Server)
    requires ServerInv(s) && Next(s, i, a, s') && (a.GuiCommand? || a.LeaveGuiRoom?)
    ensures ServerInv(s')
  {
    hide Presence, RoomPlaces, GuiPlaces, M.ManagerInv, GI.Mirrored, UsersCounted, PlayersCounted, GamesOk;
    hide MR.Execute, GR.Perform, M.LeaveRoom, G.LeaveGui, GR.Possible, G.MayInherit;
    var x, x' := s.sessions[i], s'.sessions[i];
    LeftNow(s, i);
    GamesStep(s.sessions, i, x');
    if a.GuiCommand? {
      GR.PerformKeeps(s.gui, x.user, a.op);
      GR.PerformOthers(s.gui, x.user, a.op);
      assert s.sessions[i := x] == s.sessions;
    } else {
      GuiDeparture(s.gui, x.user, a.gui, a.heir);
    }
    PresenceSame(s.sessions, s.lock, s.infos, s.duty, i, x', s.lock);
    RoomsSame(s.sessions, s.infos, s.m2.userRooms, i, x', s.infos);
    GuiMove(s.sessions, s.lock, s.infos, s.duty, s.gui.userRooms, i, x', s'.gui.userRooms);
    UsersStep(s.sessions, s.numUsers, i, x');
    PlayersSame(s.sessions, s.psn, i, x');
  }

  lemma {:induction false} GuiDeparture(g: G.GuiState, u: UserId, id: string, heir: UserId)
    requires GI.Mirrored(g) && G.MayInherit(g, id, u, heir)
    ensures var g' := G.LeaveGui(g, id, u, heir).0;
            GI.Mirrored(g') && GR.OthersOnlyLose(g, g', u) && At(g'.userRooms, u) <= At(g.userRooms, u) - {id}
  {
    hide GI.Mirrored, G.LeaveGui, G.MayInherit;
    GI.LeaveGuiKeeps(g, id, u, heir);
    GR.PerformOthers(g, u, GR.LeaveOp(id, heir));
    GR.LeaveTakesOut(g, u, id, heir);
  }

  lemma {:induction false} NextKeeps(s: Server, i: nat, a: Action, s': Server)
    requires ServerInv(s) && Next(s, i, a, s')
    ensures ServerInv(s')
  {
    hide ServerInv, Advances, DoesRoom, DoesGui, LeavesRoom, LeavesGui, Disconnects, GivesUp, CountsUp;
    hide Resets, CountsDown, MovesGame, CountsGame;
    match a
    case Connect => LoginKeeps(s, i, a, s');
    case Lock(_) => LoginKeeps(s, i, a, s');
    case GiveUp => LoginKeeps(s, i, a, s');
    case CheckInfos => LoginKeeps(s, i, a, s');
    case CheckDuty => LoginKeeps(s, i, a, s');
    case Enlist => EnlistKeeps(s, i, s');
    case RoomCommand(_) => RoomCommandKeeps(s, i, a, s');
    case LeaveRoom(_, _) => RoomCommandKeeps(s, i, a, s');
    case GuiCommand(_) => GuiCommandKeeps(s, i, a, s');
    case LeaveGuiRoom(_, _) => GuiCommandKeeps(s, i, a, s');
    case Disconnect => DisconnectKeeps(s, i, s');
    case Unlist => EndKeeps(s, i, a, s');
    case EndDuty => EndKeeps(s, i, a, s');
    case Advance => AdvanceKeeps(s, i, s');
    case CountUp => CountKeeps(s, i, s');
    case Reset => CountKeeps(s, i, s');
    case CountDown => CountKeeps(s, i, s');
    case MoveGame => GameUpKeeps(s, i, "", s');
    case CountGame => GameUpKeeps(s, i, "", s');
    case DropGame => GameDownKeeps(s, i, "", s');
    case SetGame(com) =>
      if s.sessions[i].game.None? {
        GameUpKeeps(s, i, com, s');
      } else {
        GameDownKeeps(s, i, com, s');
      }
  }

  // ----- Runs -----

  datatype Move = Move(session: nat, action: Action)

  ghost predicate MoveAt(states: seq<Server>, moves: seq<Move>, i: nat)
    requires i < |moves| && i + 1 < |states|
  {
    Next(states[i], moves[i].session, moves[i].action, states[i + 1])
  }

  ghost predicate Run(states: seq<Server>, moves: seq<Move>) {
    && |states| == |moves| + 1 && states[0] == Start
    && (forall i {:trigger MoveAt(states, moves, i)} :: 0 <= i < |moves| ==> MoveAt(states, moves, i))
  }

  lemma {:induction false} RunKeepsInv(states: seq<Server>, moves: seq<Move>, n: nat)
    requires Run(states, moves) && n <= |moves|
    ensures ServerInv(states[n])
  {
    hide ServerInv, Next;
    if n == 0 {
      StartInv();
    } else {
      RunKeepsInv(states, moves, n - 1);
      assert MoveAt(states, moves, n - 1);
      NextKeeps(states[n - 1], moves[n - 1].session, moves[n - 1].action, states[n]);
    }
  }

  // ----- What follows in every state of every run -----

  /** At most one live or still cleaning session for a user. */
  lemma {:induction false} OneSessionAUser(states: seq<Server>, moves: seq<Move>, n: nat, i: nat, j: nat)
    requires Run(states, moves) && n <= |moves|
    requires i in states[n].sessions && j in states[n].sessions && i != j
    requires Active(states[n].sessions[i].phase) && Active(states[n].sessions[j].phase)
    ensures states[n].sessions[i].user != states[n].sessions[j].user
  {
    hide MoveAt, M.ManagerInv, GI.Mirrored, UsersCounted, PlayersCounted;
    RunKeepsInv(states, moves, n);
    assert Apart(states[n].sessions, i, j);
  }

  /** Every member of every room, of either kind, is in the client table and has a session. */
  lemma {:induction false} MembersAreRegistered(states: seq<Server>, moves: seq<Move>, n: nat)
    requires Run(states, moves) && n <= |moves|
    ensures var s := states[n];
            && (forall k, u :: M.HasUser(s.m2.rooms, k, u) ==> u in s.infos && HasRegistered(s.sessions, u))
            && (forall id, u: UserId :: GI.HasMember(s.gui.rooms, id, u) ==>
                  u in s.infos && HasRegistered(s.sessions, u))
  {
    hide MoveAt, M.HasUser, GI.HasMember, M.RoomsOk, GI.RoomsOk, UsersCounted, PlayersCounted;
    RunKeepsInv(states, moves, n);
    var s := states[n];
    forall k, u | M.HasUser(s.m2.rooms, k, u)
      ensures u in s.infos
    {
      assert k in At(s.m2.userRooms, u) <==> M.HasUser(s.m2.rooms, k, u);
    }
    forall id, u: UserId | GI.HasMember(s.gui.rooms, id, u)
      ensures u in s.infos
    {
      assert id in At(s.gui.userRooms, u) <==> GI.HasMember(s.gui.rooms, id, u);
    }
  }

  ghost predicate InNoRoom(s: Server, u: UserId) {
    (forall k :: !M.HasUser(s.m2.rooms, k, u)) && (forall id :: !GI.HasMember(s.gui.rooms, id, u))
  }

  lemma {:induction false} NowhereIndexed(s: Server, u: UserId)
    requires ServerInv(s) && At(s.m2.userRooms, u) == {} && At(s.gui.userRooms, u) == {}
    ensures InNoRoom(s, u)
  {
    hide M.HasUser, GI.HasMember, M.RoomsOk, GI.RoomsOk, UsersCounted, PlayersCounted, Presence, RoomPlaces, GuiPlaces;
    forall k
      ensures !M.HasUser(s.m2.rooms, k, u)
    {
      assert k in At(s.m2.userRooms, u) <==> M.HasUser(s.m2.rooms, k, u);
    }
    forall id
      ensures !GI.HasMember(s.gui.rooms, id, u)
    {
      assert id in At(s.gui.userRooms, u) <==> GI.HasMember(s.gui.rooms, id, u);
    }
  }

  /** Once a user is off cleanup duty no room contains them. */
  lemma {:induction false} OffDutyInNoRoom(states: seq<Server>, moves: seq<Move>, n: nat)
    requires Run(states, moves) && n < |moves| && moves[n].action.EndDuty?
    ensures moves[n].session in states[n].sessions
    ensures var u := states[n].sessions[moves[n].session].user;
            InNoRoom(states[n + 1], u) && u !in states[n + 1].duty
  {
    hide ServerInv, M.LeaveRoom, MR.Execute, GR.Perform, InNoRoom;
    RunKeepsInv(states, moves, n);
    RunKeepsInv(states, moves, n + 1);
    assert MoveAt(states, moves, n);
    LeftNow(states[n], moves[n].session);
    NowhereIndexed(states[n + 1], states[n].sessions[moves[n].session].user);
  }

  /** A live session that has reset itself is in no room either, when it goes on. */
  lemma {:induction false} ResetInNoRoom(states: seq<Server>, moves: seq<Move>, n: nat, i: nat)
    requires Run(states, moves) && n <= |moves| && i in states[n].sessions
    requires states[n].sessions[i].phase == Resetting(Cleaned)
    ensures InNoRoom(states[n], states[n].sessions[i].user) && states[n].sessions[i].game.None?
  {
    hide ServerInv, MoveAt, InNoRoom;
    RunKeepsInv(states, moves, n);
    LeftNow(states[n], i);
    NowhereIndexed(states[n], states[n].sessions[i].user);
  }

  // ----- Counters -----

  /** A session is between two counter updates of its own. */
  predicate InFlight(p: Phase) { p.Switching? || p.Moved? || (Cleaning(p) && p.stage.ClearGame?) }

  function Playing(t: Table, com: string): set<nat> { set i | i in t && t[i].game == Some(com) }

  /** The user count is the number of counted sessions; a game's counter is the number of sessions
      in that game, but for sessions that are changing games at this moment. */
  lemma {:induction false} CountersExact(states: seq<Server>, moves: seq<Move>, n: nat, com: string)
    requires Run(states, moves) && n <= |moves|
    ensures var s := states[n];
            && s.numUsers == |Users(s.sessions)|
            && T.CountIn(s.psn, com) == |Players(s.sessions, com)|
            && (forall i :: i in s.sessions && !InFlight(s.sessions[i].phase) ==>
                  (i in Players(s.sessions, com) <==> i in Playing(s.sessions, com)))
            && (forall i :: i in s.sessions && InFlight(s.sessions[i].phase) ==> i !in Players(s.sessions, com))
  {
    hide MoveAt, M.ManagerInv, GI.Mirrored, Presence, RoomPlaces, GuiPlaces;
    RunKeepsInv(states, moves, n);
    var s := states[n];
    assert T.CountIn(s.psn, com) == |Players(s.sessions, com)|;
    forall i | i in s.sessions
      ensures !InFlight(s.sessions[i].phase) ==> s.sessions[i].counted == s.sessions[i].game
      ensures InFlight(s.sessions[i].phase) ==> s.sessions[i].counted.None?
    {
      assert GameOk(s.sessions[i]);
    }
  }

  /** When every connection is over, nothing is left: no client, no duty, no room, no count. */
  lemma {:induction false} NothingIsLeft(states: seq<Server>, moves: seq<Move>, n: nat)
    requires Run(states, moves) && n <= |moves|
    requires forall i :: i in states[n].sessions ==> states[n].sessions[i].phase.Ended?
    ensures var s := states[n];
            && s.infos == {} && s.duty == {} && s.lock.None?
            && s.m2.rooms == map[] && s.gui.rooms == map[]
            && s.numUsers == 0 && (forall com :: T.CountIn(s.psn, com) == 0)
  {
    hide MoveAt, M.ManagerInv, GI.Mirrored;
    RunKeepsInv(states, moves, n);
    var s := states[n];
    NobodyKnown(s.sessions, s.lock, s.infos, s.duty);
    assert Users(s.sessions) == {};
    forall com
      ensures T.CountIn(s.psn, com) == 0
    {
      CountersExact(states, moves, n, com);
      forall i | i in s.sessions
        ensures i !in Players(s.sessions, com)
      {
        assert GameOk(s.sessions[i]);
      }
      assert Players(s.sessions, com) == {};
    }
    MembersAreRegistered(states, moves, n);
    EmptyTables(s);
  }

  lemma {:induction false} NobodyKnown(t: Table, lock: Option<nat>, infos: set<int>, duty: set<int>)
    requires Presence(t, lock, infos, duty) && (forall i :: i in t ==> t[i].phase.Ended?)
    ensures infos == {} && duty == {} && lock.None?
  {
    forall u
      ensures u !in infos && u !in duty
    {
      assert !HasRegistered(t, u) && !HasOnDuty(t, u);
    }
    forall i | i in t
      ensures lock != Some(i)
    {
      assert LoginOk(t, lock, infos, duty, i);
    }
  }

  /** A room always has somebody in it. */
  lemma {:induction false} EmptyTables(s: Server)
    requires ServerInv(s) && s.infos == {}
    requires forall k, u :: M.HasUser(s.m2.rooms, k, u) ==> u in s.infos
    requires forall id, u: UserId :: GI.HasMember(s.gui.rooms, id, u) ==> u in s.infos
    ensures s.m2.rooms == map[] && s.gui.rooms == map[]
  {
    hide Presence, RoomPlaces, GuiPlaces, UsersCounted, PlayersCounted, GamesOk;
    forall k | k in s.m2.rooms
      ensures exists u :: M.HasUser(s.m2.rooms, k, u)
    {
      OwnerIsThere(s.m2, k);
    }
    forall id | id in s.gui.rooms
      ensures exists u :: GI.HasMember(s.gui.rooms, id, u)
    {
      assert GI.RoomOk(s.gui.rooms[id]);
      var o :| o in s.gui.rooms[id].members;
      assert GI.HasMember(s.gui.rooms, id, o);
    }
  }

  lemma {:induction false} OwnerIsThere(m: M.Manager, k: M.Key)
    requires M.ManagerInv(m) && k in m.rooms
    ensures exists u :: M.HasUser(m.rooms, k, u)
  {
    var r := m.rooms[k];
    assert RI.Inv(r);
    assert r.users[r.owner].userId in RM.UserIds(r.users);
    assert M.HasUser(m.rooms, k, r.users[r.owner].userId);
  }
}

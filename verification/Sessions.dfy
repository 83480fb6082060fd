/** The server as its connections see it: login under the client table's lock, commands of live
    sessions, and the cleanup a dropped session leaves to a background task. Every step that
    takes a lock once is one atomic action, and any two actions may interleave. */
module Sessions {
  import opened Prelude
  import M = Rooms
  import MR = ManagerRuns
  import G = GuiRooms
  import GR = GuiRuns
  import T = GameTracker

  // ----- State -----

  /** How far `clean_user_state` got. The room lists are read once, then worked off. */
  datatype Stage =
    | ReadRooms
    | LeaveRooms(rooms: set<M.Key>)
    | ReadGui
    | LeaveGui(gui: set<string>)
    | DecGame
    | ClearGame
    | Cleaned

  datatype Phase =
    | Guest                       // connected, not logged in
    | Locked(id: UserId)          // logging in, holding the client table's write lock
    | Unlisted(id: UserId)        // ... not in the client table
    | Cleared(id: UserId)         // ... and not being cleaned up either
    | Listed                      // entered into the client table, not counted yet
    | Live
    | Switching(next: string)     // changing games: the old counter is down
    | Moved(next: string)         // ... and the new game is set, its counter not up yet
    | Resetting(stage: Stage)     // a live session that cleans itself
    | Dropped(stage: Stage)       // cleanup after the connection ended
    | Uncounted                   // ... taken off the user count
    | Unregistered                // ... and out of the client table
    | Ended

  /** `counted` is the game whose counter this session holds up at the moment. */
  datatype Session = Session(user: UserId, phase: Phase, game: Option<string>, counted: Option<string>)

  datatype Server = Server(sessions: map<nat, Session>, infos: set<int>, duty: set<int>, lock: Option<nat>,
                           m2: M.Manager, gui: G.GuiState, numUsers: int, psn: map<string, int>)

  const Start := Server(map[], {}, {}, None, M.NoRooms, G.NoGuiRooms, 0, map[])

  // ----- Actions -----

  function Put(s: Server, i: nat, x: Session): Server { s.(sessions := s.sessions[i := x]) }

  ghost predicate Connects(s: Server, i: nat, s': Server) {
    i !in s.sessions && s' == Put(s, i, Session(0, Guest, None, None))
  }

  /** `login` takes the write lock of the client table and keeps it to its end. */
  ghost predicate TakesLock(s: Server, i: nat, x: Session, id: UserId, s': Server) {
    x.phase.Guest? && s.lock.None? && s' == Put(s, i, x.(phase := Locked(id))).(lock := Some(i))
  }

  /** A login that fails a check, or whose database calls fail, lets go of the lock. */
  ghost predicate GivesUp(s: Server, i: nat, x: Session, s': Server) {
    && (x.phase.Locked? ==> x.phase.id in s.infos)
    && (x.phase.Unlisted? ==> x.phase.id in s.duty)
    && (x.phase.Locked? || x.phase.Unlisted? || x.phase.Cleared?)
    && s' == Put(s, i, x.(phase := Guest)).(lock := None)
  }

  ghost predicate ChecksInfos(s: Server, i: nat, x: Session, s': Server) {
    x.phase.Locked? && x.phase.id !in s.infos && s' == Put(s, i, x.(phase := Unlisted(x.phase.id)))
  }

  ghost predicate ChecksDuty(s: Server, i: nat, x: Session, s': Server) {
    x.phase.Unlisted? && x.phase.id !in s.duty && s' == Put(s, i, x.(phase := Cleared(x.phase.id)))
  }

  ghost predicate Enlists(s: Server, i: nat, x: Session, s': Server) {
    && x.phase.Cleared?
    && s' == Put(s, i, x.(phase := Listed, user := x.phase.id)).(infos := s.infos + {x.phase.id})
  }

  ghost predicate CountsUp(s: Server, i: nat, x: Session, s': Server) {
    x.phase.Listed? && s' == Put(s, i, x.(phase := Live)).(numUsers := s.numUsers + 1, lock := None)
  }

  ghost predicate DoesRoom(s: Server, x: Session, c: MR.Command, s': Server) {
    x.phase.Live? && MR.Parsed(c) && s' == s.(m2 := MR.Execute(s.m2, x.user, c).0)
  }

  ghost predicate DoesGui(s: Server, x: Session, op: GR.GuiOp, s': Server) {
    && x.phase.Live? && GR.Possible(s.gui, x.user, op)
    && s' == s.(gui := GR.Perform(s.gui, x.user, op).0)
  }

  /** `get_com_id_with_redir`, in up to three steps; asking for the current game changes nothing. */
  ghost predicate SetsGame(s: Server, i: nat, x: Session, com: string, s': Server) {
    && x.phase.Live? && x.game != Some(com)
    && s' == if x.game.None? then Put(s, i, x.(phase := Moved(com), game := Some(com)))
             else Put(s, i, x.(phase := Switching(com), counted := None)).(psn := T.Bump(s.psn, x.game.value, -1))
  }

  ghost predicate MovesGame(s: Server, i: nat, x: Session, s': Server) {
    x.phase.Switching? && s' == Put(s, i, x.(phase := Moved(x.phase.next), game := Some(x.phase.next)))
  }

  ghost predicate CountsGame(s: Server, i: nat, x: Session, s': Server) {
    && x.phase.Moved?
    && s' == Put(s, i, x.(phase := Live, counted := Some(x.phase.next))).(psn := T.Bump(s.psn, x.phase.next, 1))
  }

  ghost predicate Resets(s: Server, i: nat, x: Session, s': Server) {
    x.phase.Live? && s' == Put(s, i, x.(phase := Resetting(ReadRooms)))
  }

  /** `Drop`: a logged-in user is put on cleanup duty. It comes between commands or where a
      reset waits for a notification to go out, never between two counter updates. */
  ghost predicate Disconnects(s: Server, i: nat, x: Session, s': Server) {
    || (x.phase.Guest? && s' == Put(s, i, x.(phase := Ended)))
    || (&& (x.phase.Live? || (x.phase.Resetting? && !x.phase.stage.ClearGame?))
        && s' == Put(s, i, x.(phase := Dropped(ReadRooms))).(duty := s.duty + {x.user}))
  }

  predicate Cleaning(p: Phase) { p.Resetting? || p.Dropped? }

  function AtStage(p: Phase, stage: Stage): Phase { if p.Resetting? then Resetting(stage) else Dropped(stage) }

  /** One step of `clean_user_state` that leaves a Matching2 room. */
  ghost predicate LeavesRoom(s: Server, i: nat, x: Session, k: M.Key, pick: nat, s': Server) {
    && Cleaning(x.phase) && x.phase.stage.LeaveRooms? && k in x.phase.stage.rooms
    && s' == Put(s, i, x.(phase := AtStage(x.phase, LeaveRooms(x.phase.stage.rooms - {k})))).(
               m2 := M.LeaveRoom(s.m2, k, x.user, pick).0)
  }

  /** ... or a GUI room. */
  ghost predicate LeavesGui(s: Server, i: nat, x: Session, id: string, heir: UserId, s': Server) {
    && Cleaning(x.phase) && x.phase.stage.LeaveGui? && id in x.phase.stage.gui && G.MayInherit(s.gui, id, x.user, heir)
    && s' == Put(s, i, x.(phase := AtStage(x.phase, LeaveGui(x.phase.stage.gui - {id})))).(
               gui := G.LeaveGui(s.gui, id, x.user, heir).0)
  }

  /** ... or takes down the counter of the current game. */
  ghost predicate DropsGame(s: Server, i: nat, x: Session, s': Server) {
    && Cleaning(x.phase) && x.phase.stage.DecGame? && x.game.Some?
    && s' == Put(s, i, x.(phase := AtStage(x.phase, ClearGame), counted := None)).(
               psn := T.Bump(s.psn, x.game.value, -1))
  }

  /** ... or goes on to the next stage. */
  ghost predicate Advances(s: Server, i: nat, x: Session, s': Server) {
    && Cleaning(x.phase)
    && match x.phase.stage
       case ReadRooms => s' == Put(s, i, x.(phase := AtStage(x.phase, LeaveRooms(At(s.m2.userRooms, x.user)))))
       case LeaveRooms(rooms) => rooms == {} && s' == Put(s, i, x.(phase := AtStage(x.phase, ReadGui)))
       case ReadGui => s' == Put(s, i, x.(phase := AtStage(x.phase, LeaveGui(At(s.gui.userRooms, x.user)))))
       case LeaveGui(gui) => gui == {} && s' == Put(s, i, x.(phase := AtStage(x.phase, DecGame)))
       case DecGame => x.game.None? && s' == Put(s, i, x.(phase := AtStage(x.phase, Cleaned)))
       case ClearGame => s' == Put(s, i, x.(phase := AtStage(x.phase, Cleaned), game := None))
       case Cleaned => x.phase.Resetting? && s' == Put(s, i, x.(phase := Live))
  }

  /** The last steps of the background task. */
  ghost predicate CountsDown(s: Server, i: nat, x: Session, s': Server) {
    x.phase == Dropped(Cleaned) && s' == Put(s, i, x.(phase := Uncounted)).(numUsers := s.numUsers - 1)
  }

  ghost predicate Unlists(s: Server, i: nat, x: Session, s': Server) {
    x.phase.Uncounted? && s.lock.None? && s' == Put(s, i, x.(phase := Unregistered)).(infos := s.infos - {x.user})
  }

  ghost predicate EndsDuty(s: Server, i: nat, x: Session, s': Server) {
    x.phase.Unregistered? && s' == Put(s, i, x.(phase := Ended)).(duty := s.duty - {x.user})
  }

  datatype Action =
    | Connect | Lock(id: UserId) | GiveUp | CheckInfos | CheckDuty | Enlist | CountUp
    | RoomCommand(command: MR.Command) | GuiCommand(op: GR.GuiOp)
    | SetGame(com: string) | MoveGame | CountGame
    | Reset | Disconnect
    | LeaveRoom(room: M.Key, pick: nat) | LeaveGuiRoom(gui: string, heir: UserId) | DropGame | Advance
    | CountDown | Unlist | EndDuty

  ghost predicate Next(s: Server, i: nat, a: Action, s': Server) {
    if a.Connect? then Connects(s, i, s')
    else i in s.sessions && Acts(s, i, s.sessions[i], a, s')
  }

  ghost predicate Acts(s: Server, i: nat, x: Session, a: Action, s': Server) {
    match a
    case Connect => false
    case Lock(id) => TakesLock(s, i, x, id, s')
    case GiveUp => GivesUp(s, i, x, s')
    case CheckInfos => ChecksInfos(s, i, x, s')
    case CheckDuty => ChecksDuty(s, i, x, s')
    case Enlist => Enlists(s, i, x, s')
    case CountUp => CountsUp(s, i, x, s')
    case RoomCommand(c) => DoesRoom(s, x, c, s')
    case GuiCommand(op) => DoesGui(s, x, op, s')
    case SetGame(com) => SetsGame(s, i, x, com, s')
    case MoveGame => MovesGame(s, i, x, s')
    case CountGame => CountsGame(s, i, x, s')
    case Reset => Resets(s, i, x, s')
    case Disconnect => Disconnects(s, i, x, s')
    case LeaveRoom(k, pick) => LeavesRoom(s, i, x, k, pick, s')
    case LeaveGuiRoom(id, heir) => LeavesGui(s, i, x, id, heir, s')
    case DropGame => DropsGame(s, i, x, s')
    case Advance => Advances(s, i, x, s')
    case CountDown => CountsDown(s, i, x, s')
    case Unlist => Unlists(s, i, x, s')
    case EndDuty => EndsDuty(s, i, x, s')
  }
}

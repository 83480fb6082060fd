/** What every interleaving of sessions keeps: one session a user until its cleanup is over,
    no room member who is not in the client table, and counters that count what they say. */
module SessionInvariants {
  import opened Prelude
  import opened Sessions
  import M = Rooms
  import GI = GuiInvariants
  import T = GameTracker

  type Table = map<nat, Session>

  // ----- Who is where -----

  /** In the client table, on cleanup duty, holding the lock. */
  predicate Registered(p: Phase) {
    p.Listed? || p.Live? || p.Switching? || p.Moved? || p.Resetting? || p.Dropped? || p.Uncounted?
  }
  predicate OnDuty(p: Phase) { p.Dropped? || p.Uncounted? || p.Unregistered? }
  predicate Active(p: Phase) { Registered(p) || OnDuty(p) }
  predicate LoggingIn(p: Phase) { p.Locked? || p.Unlisted? || p.Cleared? || p.Listed? }

  ghost predicate Known(x: Session, infos: set<int>, duty: set<int>) {
    (Registered(x.phase) ==> x.user in infos) && (OnDuty(x.phase) ==> x.user in duty)
  }

  /** Two active sessions are of different users. */
  ghost predicate Apart(t: Table, i: nat, j: nat)
    requires i in t && j in t
  {
    i != j && Active(t[i].phase) && Active(t[j].phase) ==> t[i].user != t[j].user
  }

  ghost predicate Alone(t: Table) { forall i, j {:trigger Apart(t, i, j)} :: i in t && j in t ==> Apart(t, i, j) }

  ghost predicate AllKnown(t: Table, infos: set<int>, duty: set<int>) {
    forall i :: i in t ==> Known(t[i], infos, duty)
  }

  ghost predicate HasRegistered(t: Table, u: int) { exists i :: i in t && Registered(t[i].phase) && t[i].user == u }
  ghost predicate HasOnDuty(t: Table, u: int) { exists i :: i in t && OnDuty(t[i].phase) && t[i].user == u }

  /** The client table and the duty list hold nobody without such a session. */
  ghost predicate NoStrangers(t: Table, infos: set<int>, duty: set<int>) {
    (forall u :: u in infos ==> HasRegistered(t, u)) && (forall u :: u in duty ==> HasOnDuty(t, u))
  }

  /** The login that holds the lock relies on what it has checked. */
  ghost predicate LoginOk(t: Table, lock: Option<nat>, infos: set<int>, duty: set<int>, i: nat)
    requires i in t
  {
    && (LoggingIn(t[i].phase) <==> lock == Some(i))
    && (t[i].phase.Unlisted? || t[i].phase.Cleared? ==> t[i].phase.id !in infos)
    && (t[i].phase.Cleared? ==> t[i].phase.id !in duty)
  }

  ghost predicate LoginsOk(t: Table, lock: Option<nat>, infos: set<int>, duty: set<int>) {
    (lock.Some? ==> lock.value in t) && (forall i :: i in t ==> LoginOk(t, lock, infos, duty, i))
  }

  ghost predicate Presence(t: Table, lock: Option<nat>, infos: set<int>, duty: set<int>) {
    AllKnown(t, infos, duty) && Alone(t) && NoStrangers(t, infos, duty) && LoginsOk(t, lock, infos, duty)
  }

  // ----- Who is in rooms -----

  predicate Past(p: Phase) { p.Uncounted? || p.Unregistered? }

  /** What is left of the user's Matching2 rooms at this point of the cleanup. */
  ghost predicate RoomsLeft(x: Session, rooms: set<M.Key>) {
    if Cleaning(x.phase) then
      match x.phase.stage
      case ReadRooms => true
      case LeaveRooms(todo) => rooms <= todo
      case _ => rooms == {}
    else Past(x.phase) ==> rooms == {}
  }

  ghost predicate GuiLeft(x: Session, rooms: set<string>) {
    if Cleaning(x.phase) then
      match x.phase.stage
      case LeaveGui(todo) => rooms <= todo
      case DecGame => rooms == {}
      case ClearGame => rooms == {}
      case Cleaned => rooms == {}
      case _ => true
    else Past(x.phase) ==> rooms == {}
  }

  ghost predicate RoomPlaces(t: Table, infos: set<int>, r: map<int, set<M.Key>>) {
    && (forall u :: At(r, u) != {} ==> u in infos)
    && (forall i :: i in t ==> RoomsLeft(t[i], At(r, t[i].user)))
  }

  ghost predicate GuiPlaces(t: Table, infos: set<int>, g: map<UserId, set<string>>) {
    && (forall u :: At(g, u) != {} ==> u in infos)
    && (forall i :: i in t ==> GuiLeft(t[i], At(g, t[i].user)))
  }

  // ----- Who is counted -----

  predicate Counted(p: Phase) { p.Live? || p.Switching? || p.Moved? || p.Resetting? || p.Dropped? }

  predicate GameOk(x: Session) {
    match x.phase
    case Live => x.counted == x.game
    case Switching(_) => x.counted.None?
    case Moved(next) => x.counted.None? && x.game == Some(next)
    case Resetting(stage) => StageGame(x, stage)
    case Dropped(stage) => StageGame(x, stage)
    case _ => x.counted.None? && x.game.None?
  }

  predicate StageGame(x: Session, stage: Stage) {
    if stage.ClearGame? then x.counted.None?
    else if stage.Cleaned? then x.counted.None? && x.game.None?
    else x.counted == x.game
  }

  ghost predicate GamesOk(t: Table) { forall i :: i in t ==> GameOk(t[i]) }

  function Users(t: Table): set<nat> { set i | i in t && Counted(t[i].phase) }
  function Players(t: Table, com: string): set<nat> { set i | i in t && t[i].counted == Some(com) }

  ghost predicate UsersCounted(t: Table, n: int) { n == |Users(t)| }
  ghost predicate PlayersCounted(t: Table, psn: map<string, int>) {
    forall com :: T.CountIn(psn, com) == |Players(t, com)|
  }

  ghost predicate ServerInv(s: Server) {
    && Presence(s.sessions, s.lock, s.infos, s.duty)
    && RoomPlaces(s.sessions, s.infos, s.m2.userRooms)
    && GuiPlaces(s.sessions, s.infos, s.gui.userRooms)
    && GamesOk(s.sessions) && UsersCounted(s.sessions, s.numUsers) && PlayersCounted(s.sessions, s.psn)
    && M.ManagerInv(s.m2) && GI.Mirrored(s.gui)
  }

  lemma {:induction false} StartInv()
    ensures ServerInv(Start)
  {
    M.NoRoomsInv();
    GI.NoGuiRoomsInv();
  }

  // ----- Presence, one session at a time -----

  lemma {:induction false} AloneStep(t: Table, i: nat, x: Session)
    requires Alone(t)
    requires Active(x.phase) ==> forall j :: j in t && j != i && Active(t[j].phase) ==> t[j].user != x.user
    ensures Alone(t[i := x])
  {
    var t' := t[i := x];
    forall j, k | j in t' && k in t'
      ensures Apart(t', j, k)
    {
      if j != i && k != i {
        assert Apart(t, j, k);
      }
    }
  }

  /** Whoever is found through a session that did not change class is still found. */
  lemma {:induction false} StrangersStep(t: Table, infos: set<int>, duty: set<int>, i: nat, x: Session,
                                         infos': set<int>, duty': set<int>)
    requires NoStrangers(t, infos, duty)
    requires forall u :: u in infos' ==> u in infos || (Registered(x.phase) && x.user == u)
    requires forall u :: u in duty' ==> u in duty || (OnDuty(x.phase) && x.user == u)
    requires i in t && Registered(t[i].phase) && t[i].user in infos' ==> Registered(x.phase) && x.user == t[i].user
    requires i in t && OnDuty(t[i].phase) && t[i].user in duty' ==> OnDuty(x.phase) && x.user == t[i].user
    ensures NoStrangers(t[i := x], infos', duty')
  {
    var t' := t[i := x];
    forall u | u in infos'
      ensures HasRegistered(t', u)
    {
      if Registered(x.phase) && x.user == u {
        assert i in t' && t'[i] == x;
      } else {
        var j :| j in t && Registered(t[j].phase) && t[j].user == u;
        assert j in t' && t'[j] == t[j];
      }
    }
    forall u | u in duty'
      ensures HasOnDuty(t', u)
    {
      if OnDuty(x.phase) && x.user == u {
        assert i in t' && t'[i] == x;
      } else {
        var j :| j in t && OnDuty(t[j].phase) && t[j].user == u;
        assert j in t' && t'[j] == t[j];
      }
    }
  }

  predicate SameClass(x: Session, y: Session) {
    x.user == y.user && (Registered(x.phase) <==> Registered(y.phase)) && (OnDuty(x.phase) <==> OnDuty(y.phase))
  }

  lemma {:induction false} OthersApart(t: Table, i: nat)
    requires Alone(t) && i in t && Active(t[i].phase)
    ensures forall j :: j in t && j != i && Active(t[j].phase) ==> t[j].user != t[i].user
  {
    forall j | j in t && j != i && Active(t[j].phase)
      ensures t[j].user != t[i].user
    {
      assert Apart(t, j, i);
    }
  }

  /** Steps that move nobody in or out of the tables; the last step of a login lets go of the lock. */
  lemma {:induction false} PresenceSame(t: Table, lock: Option<nat>, infos: set<int>, duty: set<int>, i: nat,
                                        x: Session, lock': Option<nat>)
    requires Presence(t, lock, infos, duty) && i in t && SameClass(t[i], x) && !LoggingIn(x.phase)
    requires lock' == if LoggingIn(t[i].phase) then None else lock
    ensures Presence(t[i := x], lock', infos, duty)
  {
    if Active(x.phase) {
      OthersApart(t, i);
    }
    AloneStep(t, i, x);
    StrangersStep(t, infos, duty, i, x, infos, duty);
    assert LoginOk(t, lock, infos, duty, i);
  }

  /** Steps of a connection that is not logged in. */
  lemma {:induction false} PresenceOutside(t: Table, lock: Option<nat>, infos: set<int>, duty: set<int>, i: nat,
                                           x: Session, lock': Option<nat>)
    requires Presence(t, lock, infos, duty) && !Active(x.phase) && (i in t ==> !Active(t[i].phase))
    requires lock == lock' || (lock.None? && lock' == Some(i)) || (lock == Some(i) && lock'.None?)
    requires LoginOk(t[i := x], lock', infos, duty, i)
    ensures Presence(t[i := x], lock', infos, duty)
  {
    AloneStep(t, i, x);
    StrangersStep(t, infos, duty, i, x, infos, duty);
    forall j | j in t && j != i
      ensures LoginOk(t[i := x], lock', infos, duty, j)
    {
      assert LoginOk(t, lock, infos, duty, j);
    }
  }

  lemma {:induction false} PresenceEnlist(t: Table, lock: Option<nat>, infos: set<int>, duty: set<int>, i: nat,
                                          x: Session)
    requires Presence(t, lock, infos, duty) && i in t && t[i].phase.Cleared?
    requires x.phase.Listed? && x.user == t[i].phase.id
    ensures Presence(t[i := x], lock, infos + {x.user}, duty)
  {
    assert LoginOk(t, lock, infos, duty, i);
    forall j | j in t && j != i && Active(t[j].phase)
      ensures t[j].user != x.user
    {
      assert Known(t[j], infos, duty);
    }
    AloneStep(t, i, x);
    StrangersStep(t, infos, duty, i, x, infos + {x.user}, duty);
    forall j | j in t && j != i
      ensures LoginOk(t[i := x], lock, infos + {x.user}, duty, j)
    {
      assert LoginOk(t, lock, infos, duty, j);
    }
  }

  lemma {:induction false} PresenceDisconnect(t: Table, lock: Option<nat>, infos: set<int>, duty: set<int>, i: nat,
                                              x: Session)
    requires Presence(t, lock, infos, duty) && i in t && (t[i].phase.Live? || t[i].phase.Resetting?)
    requires x.phase.Dropped? && x.user == t[i].user
    ensures Presence(t[i := x], lock, infos, duty + {x.user})
  {
    OthersApart(t, i);
    AloneStep(t, i, x);
    StrangersStep(t, infos, duty, i, x, infos, duty + {x.user});
    assert Known(t[i], infos, duty);
    forall j | j in t
      ensures LoginOk(t[i := x], lock, infos, duty + {x.user}, j)
    {
      assert LoginOk(t, lock, infos, duty, j);
    }
  }

  lemma {:induction false} PresenceUnlist(t: Table, lock: Option<nat>, infos: set<int>, duty: set<int>, i: nat,
                                          x: Session)
    requires Presence(t, lock, infos, duty) && i in t && t[i].phase.Uncounted? && lock.None?
    requires x.phase.Unregistered? && x.user == t[i].user
    ensures Presence(t[i := x], lock, infos - {x.user}, duty)
  {
    OthersApart(t, i);
    AloneStep(t, i, x);
    StrangersStep(t, infos, duty, i, x, infos - {x.user}, duty);
    forall j | j in t
      ensures LoginOk(t[i := x], lock, infos - {x.user}, duty, j)
    {
      assert LoginOk(t, lock, infos, duty, j);
    }
  }

  lemma {:induction false} PresenceEnd(t: Table, lock: Option<nat>, infos: set<int>, duty: set<int>, i: nat, x: Session)
    requires Presence(t, lock, infos, duty) && i in t && t[i].phase.Unregistered?
    requires x.phase.Ended? && x.user == t[i].user
    ensures Presence(t[i := x], lock, infos, duty - {x.user})
  {
    OthersApart(t, i);
    AloneStep(t, i, x);
    StrangersStep(t, infos, duty, i, x, infos, duty - {x.user});
    forall j | j in t
      ensures LoginOk(t[i := x], lock, infos, duty - {x.user}, j)
    {
      assert LoginOk(t, lock, infos, duty, j);
    }
  }
}

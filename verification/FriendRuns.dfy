/** Cached friend lists over every run, and what overlapping commands do to them. */
module FriendRuns {
  import opened Prelude
  import opened Friends

  lemma {:induction false} PairFacts(u: UserId, v: UserId, x: UserId, y: UserId)
    ensures PairOf(u, v) == PairOf(v, u)
    ensures PairOf(u, v) == PairOf(x, y) <==> (x, y) == (u, v) || (x, y) == (v, u)
  {
  }

  lemma {:induction false} MutualBothWays(rows: Rows, u: UserId, v: UserId)
    ensures Mutual(rows, u, v) <==> Mutual(rows, v, u)
  {
  }

  /** Each command changes one pair: an accepted request makes it friends, a removal ends that,
      and a mere request changes no friendship. */
  lemma {:induction false} AddRowMutual(rows: Rows, u: UserId, v: UserId, x: UserId, y: UserId)
    ensures var (rows', out) := AddRow(rows, u, v);
            && (Stored(rows) ==> Stored(rows'))
            && (PairOf(x, y) != PairOf(u, v) ==> Mutual(rows', x, y) == Mutual(rows, x, y))
            && (out.Accepted? ==> u != v && Mutual(rows', u, v) && !Mutual(rows, u, v))
            && (!out.Accepted? ==> Mutual(rows', x, y) == Mutual(rows, x, y))
  {
    PairFacts(u, v, x, y);
    if u != v {
      var (su, sv) := Marked(rows, u, v);
      GetAfterSet(rows, u, v, su.(friend := true), sv, x, y);
      GetAfterSet(rows, u, v, su.(friend := true), sv, u, v);
      GetBothWays(rows, u, v);
    }
  }

  lemma {:induction false} RemoveRowMutual(rows: Rows, u: UserId, v: UserId, x: UserId, y: UserId)
    ensures var (rows', out) := RemoveRow(rows, u, v);
            && (Stored(rows) ==> Stored(rows'))
            && (PairOf(x, y) != PairOf(u, v) ==> Mutual(rows', x, y) == Mutual(rows, x, y))
            && (out.Removed? ==> u != v && !Mutual(rows', u, v))
            && (!out.Removed? ==> rows' == rows && !Mutual(rows, u, v))
  {
    PairFacts(u, v, x, y);
    if u != v {
      var (su, sv) := Marked(rows, u, v);
      GetAfterSet(rows, u, v, su.(friend := false), sv.(friend := false), x, y);
      GetAfterSet(rows, u, v, su.(friend := false), sv.(friend := false), u, v);
    }
  }

  // ----- Pairs that are busy -----

  lemma {:induction false} SameBusy(w: World, w': World, x: UserId, y: UserId)
    requires w'.pending == w.pending
    ensures Busy(w', x, y) <==> Busy(w, x, y)
  {
    if Busy(w, x, y) {
      var j :| About(w, j, x, y);
      assert About(w', j, x, y);
    }
    if Busy(w', x, y) {
      var j :| About(w', j, x, y);
      assert About(w, j, x, y);
    }
  }

  /** A command in between its halves makes its own pair busy and frees no other. */
  lemma {:induction false} StartBusy(w: World, w': World, u: UserId, x: UserId, y: UserId)
    requires u !in w.pending && u in w'.pending && w'.pending == w.pending[u := w'.pending[u]] && !Busy(w', x, y)
    ensures !Busy(w, x, y) && PairOf(x, y) != PairOf(u, w'.pending[u].other)
  {
    hide PairOf;
    assert !About(w', u, x, y);
    forall j
      ensures !About(w, j, x, y)
    {
      assert !About(w', j, x, y);
    }
  }

  lemma {:induction false} FinishBusy(w: World, w': World, u: UserId, x: UserId, y: UserId)
    requires u in w.pending && w'.pending == w.pending - {u} && !Busy(w', x, y)
    requires PairOf(x, y) != PairOf(u, w.pending[u].other)
    ensures !Busy(w, x, y)
  {
    hide PairOf;
    forall j
      ensures !About(w, j, x, y)
    {
      assert !About(w', j, x, y);
    }
  }

  lemma {:induction false} SamePairBusy(w: World, x: UserId, y: UserId, u: UserId, v: UserId)
    requires PairOf(x, y) == PairOf(u, v)
    ensures Busy(w, x, y) <==> Busy(w, u, v)
  {
    hide PairOf;
    assert forall j :: About(w, j, x, y) <==> About(w, j, u, v);
  }

  // ----- Cached lists and rows, whatever overlaps -----

  /** Every action but a stale one keeps cached lists and rows in agreement for idle pairs, and a
      stale one never does. */
  lemma {:induction false} StepAgreesIff(w: World, a: Action)
    requires Sound(w) && IdleAgree(w) && Enabled(w, a)
    ensures Sound(Apply(w, a)) && (IdleAgree(Apply(w, a)) <==> !Stale(w, a))
  {
    hide IdleAgree, Stale, Apply, Sound;
    SoundStep(w, a);
    NotStale(w, a);
    match a
    case Login(u) => OnlineAgrees(w, a);
    case Logout(u) => OnlineAgrees(w, a);
    case StartAdd(u, v) => StartAddAgrees(w, u, v);
    case StartRemove(u, v) => StartRemoveAgrees(w, u, v);
    case Finish(u) => FinishAgreesIff(w, u);
  }

  lemma {:induction false} NotStale(w: World, a: Action)
    ensures !a.Finish? ==> !Stale(w, a)
  {
  }

  lemma {:induction false} SoundStep(w: World, a: Action)
    requires Sound(w) && Enabled(w, a)
    ensures Sound(Apply(w, a))
  {
    hide Mutual, PairOf, FriendsOf, AddRow, RemoveRow, Stored;
    match a
    case Login(u) =>
    case Logout(u) =>
    case StartAdd(u, v) => AddRowMutual(w.rows, u, v, u, v);
    case StartRemove(u, v) => RemoveRowMutual(w.rows, u, v, u, v);
    case Finish(u) => LinkedKeys(w.online, u, w.pending[u].other);
  }

  lemma {:induction false} LinkedKeys(c: Caches, u: UserId, v: UserId)
    ensures Link(c, u, v).Keys == c.Keys && Unlink(c, u, v).Keys == c.Keys
  {
  }

  lemma {:induction false} OnlineAgrees(w: World, a: Action)
    requires Sound(w) && IdleAgree(w) && Enabled(w, a) && (a.Login? || a.Logout?)
    ensures IdleAgree(Apply(w, a))
  {
    hide Mutual, FriendsOf, PairOf;
    var w' := Apply(w, a);
    FriendsAreMutual(w.rows, a.user);
    forall x, y | x in w'.online && !Busy(w', x, y)
      ensures Agrees(w', x, y)
    {
      SameBusy(w, w', x, y);
      assert x != a.user ==> Agrees(w, x, y);
    }
  }

  /** Starting a command, seen from any rows that differ from the old ones at its pair only. */
  lemma {:induction false} StartAgrees(w: World, u: UserId, v: UserId, rows: Rows, add: bool)
    requires IdleAgree(w) && u in w.online && u !in w.pending
    requires forall x, y :: PairOf(x, y) != PairOf(u, v) ==> Mutual(rows, x, y) == Mutual(w.rows, x, y)
    ensures IdleAgree(w.(rows := rows, pending := w.pending[u := Pending(v, add)]))
  {
    hide Mutual, PairOf;
    var w' := w.(rows := rows, pending := w.pending[u := Pending(v, add)]);
    forall x, y | x in w'.online && !Busy(w', x, y)
      ensures Agrees(w', x, y)
    {
      StartBusy(w, w', u, x, y);
      assert Agrees(w, x, y);
    }
  }

  lemma {:induction false} SameMutualAgrees(w: World, rows: Rows)
    requires IdleAgree(w) && (forall x, y :: Mutual(rows, x, y) == Mutual(w.rows, x, y))
    ensures IdleAgree(w.(rows := rows))
  {
    hide Mutual, PairOf;
    var w' := w.(rows := rows);
    forall x, y | x in w'.online && !Busy(w', x, y)
      ensures Agrees(w', x, y)
    {
      SameBusy(w, w', x, y);
      assert Agrees(w, x, y);
    }
  }

  lemma {:induction false} StartAddAgrees(w: World, u: UserId, v: UserId)
    requires IdleAgree(w) && Enabled(w, StartAdd(u, v))
    ensures IdleAgree(Apply(w, StartAdd(u, v)))
  {
    hide Mutual, PairOf, AddRow, IdleAgree;
    var (rows, out) := AddRow(w.rows, u, v);
    forall x, y
      ensures PairOf(x, y) != PairOf(u, v) || !out.Accepted? ==> Mutual(rows, x, y) == Mutual(w.rows, x, y)
    {
      AddRowMutual(w.rows, u, v, x, y);
    }
    if out.Accepted? {
      StartAgrees(w, u, v, rows, true);
    } else {
      SameMutualAgrees(w, rows);
    }
  }

  lemma {:induction false} StartRemoveAgrees(w: World, u: UserId, v: UserId)
    requires IdleAgree(w) && Enabled(w, StartRemove(u, v))
    ensures IdleAgree(Apply(w, StartRemove(u, v)))
  {
    hide Mutual, PairOf, RemoveRow, IdleAgree;
    var (rows, out) := RemoveRow(w.rows, u, v);
    forall x, y
      ensures PairOf(x, y) != PairOf(u, v) || !out.Removed? ==> Mutual(rows, x, y) == Mutual(w.rows, x, y)
    {
      RemoveRowMutual(w.rows, u, v, x, y);
    }
    if out.Removed? {
      StartAgrees(w, u, v, rows, false);
    } else {
      SameMutualAgrees(w, rows);
    }
  }

  lemma {:induction false} LinkedIff(c: Caches, u: UserId, v: UserId, x: UserId, y: UserId, add: bool)
    requires u != v && x in c
    ensures var c' := if add then Link(c, u, v) else Unlink(c, u, v);
            c'.Keys == c.Keys && (y in c'[x] <==> if PairOf(x, y) == PairOf(u, v) then add else y in c[x])
  {
    PairFacts(u, v, x, y);
  }

  lemma {:induction false} SamePairMutual(rows: Rows, x: UserId, y: UserId, u: UserId, v: UserId)
    requires PairOf(x, y) == PairOf(u, v)
    ensures Mutual(rows, x, y) <==> Mutual(rows, u, v)
  {
    PairFacts(u, v, x, y);
    MutualBothWays(rows, u, v);
  }

  lemma {:induction false} FinishAgreesIff(w: World, u: UserId)
    requires Sound(w) && IdleAgree(w) && Enabled(w, Finish(u))
    ensures IdleAgree(Apply(w, Finish(u))) <==> !Stale(w, Finish(u))
  {
    hide Mutual, PairOf, Link, Unlink, Stored, Busy;
    var w', p := Apply(w, Finish(u)), w.pending[u];
    LinkedIff(w.online, u, p.other, u, p.other, p.add);
    if Stale(w, Finish(u)) {
      assert !Agrees(w', u, p.other);
    } else {
      forall x, y | x in w'.online && !Busy(w', x, y)
        ensures Agrees(w', x, y)
      {
        LinkedIff(w.online, u, p.other, x, y, p.add);
        if PairOf(x, y) == PairOf(u, p.other) {
          SamePairBusy(w', x, y, u, p.other);
          SamePairMutual(w.rows, x, y, u, p.other);
        } else {
          FinishBusy(w, w', u, x, y);
          assert Agrees(w, x, y);
        }
      }
    }
  }

  // ----- Runs -----

  ghost predicate StepAt(worlds: seq<World>, actions: seq<Action>, i: nat)
    requires i < |actions| && i + 1 < |worlds|
  {
    Enabled(worlds[i], actions[i]) && worlds[i + 1] == Apply(worlds[i], actions[i])
  }

  /** From any stored relation with nobody online; commands about one pair may overlap. */
  ghost predicate Run(worlds: seq<World>, actions: seq<Action>) {
    && |worlds| == |actions| + 1
    && Stored(worlds[0].rows) && worlds[0].online == map[] && worlds[0].pending == map[]
    && (forall i {:trigger StepAt(worlds, actions, i)} :: 0 <= i < |actions| ==> StepAt(worlds, actions, i))
  }

  ghost predicate StaleAt(worlds: seq<World>, actions: seq<Action>, i: nat)
    requires i < |actions| && i < |worlds|
  {
    Stale(worlds[i], actions[i])
  }

  lemma {:induction false} RunIsSound(worlds: seq<World>, actions: seq<Action>, n: nat)
    requires Run(worlds, actions) && n <= |actions|
    ensures Sound(worlds[n])
  {
    hide Apply, Enabled;
    if n > 0 {
      RunIsSound(worlds, actions, n - 1);
      assert StepAt(worlds, actions, n - 1);
      SoundStep(worlds[n - 1], actions[n - 1]);
    }
  }

  /** Over every run with any overlap: cached lists and rows agree for all idle pairs in every state
      up to the n-th if and only if none of the first n steps is stale. */
  lemma {:induction false} RunAgreesIff(worlds: seq<World>, actions: seq<Action>, n: nat)
    requires Run(worlds, actions) && n <= |actions|
    ensures (forall i :: 0 <= i <= n ==> IdleAgree(worlds[i]))
            <==> (forall i :: 0 <= i < n ==> !StaleAt(worlds, actions, i))
  {
    hide Apply, Enabled, IdleAgree, Stale, Sound;
    if n == 0 {
      NobodyAgrees(worlds[0]);
    } else {
      RunAgreesIff(worlds, actions, n - 1);
      RunIsSound(worlds, actions, n - 1);
      assert StepAt(worlds, actions, n - 1);
      if IdleAgree(worlds[n - 1]) {
        StepAgreesIff(worlds[n - 1], actions[n - 1]);
        assert IdleAgree(worlds[n]) <==> !StaleAt(worlds, actions, n - 1);
      }
    }
  }

  lemma {:induction false} NobodyAgrees(w: World)
    requires w.online == map[]
    ensures IdleAgree(w)
  {
  }

  /** So in a run without stale steps, for every idle pair: the cached list of a user online holds
      exactly the mutual friends, and cached friendship is symmetric. */
  lemma {:induction false} CachesAreMutual(worlds: seq<World>, actions: seq<Action>, n: nat, u: UserId, v: UserId)
    requires Run(worlds, actions) && n <= |actions|
    requires forall i :: 0 <= i < n ==> !StaleAt(worlds, actions, i)
    requires u in worlds[n].online && !Busy(worlds[n], u, v)
    ensures v in worlds[n].online[u] <==> Mutual(worlds[n].rows, u, v)
    ensures v in worlds[n].online ==> (v in worlds[n].online[u] <==> u in worlds[n].online[v])
  {
    hide StepAt, StaleAt, Mutual, PairOf;
    RunAgreesIff(worlds, actions, n);
    var w := worlds[n];
    assert IdleAgree(w);
    assert Agrees(w, u, v);
    if v in w.online {
      PairFacts(u, v, v, u);
      SamePairBusy(w, v, u, u, v);
      assert Agrees(w, v, u);
      MutualBothWays(w.rows, u, v);
    }
  }

  // ----- Serial commands are never stale -----

  /** A pending command that nobody interfered with knows the row: it made the pair friends, or not. */
  ghost predicate KnowsRow(w: World, issuer: UserId)
    requires issuer in w.pending
  {
    var p := w.pending[issuer];
    && (p.add <==> Mutual(w.rows, issuer, p.other))
    && (forall j :: j in w.pending && About(w, j, issuer, p.other) ==> j == issuer)
  }

  ghost predicate AllKnowRow(w: World) {
    forall issuer {:trigger KnowsRow(w, issuer)} :: issuer in w.pending ==> KnowsRow(w, issuer)
  }

  lemma {:induction false} SerialKnows(w: World, a: Action)
    requires AllKnowRow(w) && Enabled(w, a) && Serial(w, a)
    ensures AllKnowRow(Apply(w, a)) && !Stale(w, a)
  {
    hide Mutual, PairOf, AddRow, RemoveRow, FriendsOf, Link, Unlink;
    var w' := Apply(w, a);
    if a.Finish? {
      assert KnowsRow(w, a.user);
    }
    forall j | j in w'.pending
      ensures KnowsRow(w', j)
    {
      match a
      case StartAdd(u, v) => StartKnows(w, a, w', j);
      case StartRemove(u, v) => StartKnows(w, a, w', j);
      case _ =>
        assert KnowsRow(w, j);
        forall k | k in w'.pending && About(w', k, j, w'.pending[j].other)
          ensures k == j
        {
          assert About(w, k, j, w.pending[j].other);
        }
    }
  }

  lemma {:induction false} StartKnows(w: World, a: Action, w': World, j: UserId)
    requires AllKnowRow(w) && Enabled(w, a) && Serial(w, a) && (a.StartAdd? || a.StartRemove?)
    requires w' == Apply(w, a) && j in w'.pending
    ensures KnowsRow(w', j)
  {
    hide Mutual, PairOf, AddRow, RemoveRow;
    var u, v, p := a.user, a.other, w'.pending[j];
    if j != u {
      assert KnowsRow(w, j) && !About(w, j, u, v);
      assert PairOf(j, p.other) != PairOf(u, v);
    }
    if a.StartAdd? {
      AddRowMutual(w.rows, u, v, j, p.other);
    } else {
      RemoveRowMutual(w.rows, u, v, j, p.other);
    }
    forall k | k in w'.pending && About(w', k, j, p.other)
      ensures k == j
    {
      if k != u {
        assert About(w, k, j, p.other);
        assert j == u ==> About(w, k, u, v);
      }
    }
  }

  ghost predicate SerialAt(worlds: seq<World>, actions: seq<Action>, i: nat)
    requires i < |actions| && i < |worlds|
  {
    Serial(worlds[i], actions[i])
  }

  /** A run in which no two commands about one pair overlap has no stale step. */
  lemma {:induction false} SerialRunsAreNeverStale(worlds: seq<World>, actions: seq<Action>, n: nat)
    requires Run(worlds, actions) && n <= |actions| && (forall i :: 0 <= i < n ==> SerialAt(worlds, actions, i))
    ensures AllKnowRow(worlds[n]) && (forall i :: 0 <= i < n ==> !StaleAt(worlds, actions, i))
  {
    hide Apply, Enabled, Stale, Serial;
    if n > 0 {
      SerialRunsAreNeverStale(worlds, actions, n - 1);
      assert StepAt(worlds, actions, n - 1) && SerialAt(worlds, actions, n - 1);
      SerialKnows(worlds[n - 1], actions[n - 1]);
      assert !StaleAt(worlds, actions, n - 1);
    }
  }

  // ----- A stale step -----

  /** The steps of two users, `v` taking a request back while `u` accepts it. */
  function Crossing(u: UserId, v: UserId): seq<Action> { [StartAdd(u, v), StartRemove(v, u), Finish(v), Finish(u)] }

  function After(w: World, actions: seq<Action>): World
    decreases |actions|
  {
    if actions == [] then w else Apply(After(w, actions[..|actions| - 1]), actions[|actions| - 1])
  }

  ghost predicate AllEnabled(w: World, actions: seq<Action>) {
    forall i :: 0 <= i < |actions| ==> Enabled(After(w, actions[..i]), actions[i])
  }

  /** Where `v` has asked `u`, both are online and nobody is busy: the crossing can happen, its last
      step is stale, and it leaves each in the other's list without being friends. */
  lemma {:induction false} OverlapLeavesStaleFriends(w: World, u: UserId, v: UserId)
    requires u != v && u in w.online && v in w.online && w.pending == map[]
    requires GetRel(w.rows, u, v) == Some((NOTHING, FRIEND))
    ensures var w' := After(w, Crossing(u, v));
            && AllEnabled(w, Crossing(u, v)) && Stale(After(w, Crossing(u, v)[..3]), Finish(u))
            && u in w'.online && v in w'.online && !Busy(w', u, v)
            && v in w'.online[u] && u in w'.online[v] && !Mutual(w'.rows, u, v)
  {
    hide PairOf;
    var c := Crossing(u, v);
    GetAfterSet(w.rows, u, v, FRIEND, FRIEND, v, u);
    var w1 := Apply(w, StartAdd(u, v));
    GetAfterSet(w1.rows, v, u, NOTHING, NOTHING, u, v);
    var w2 := Apply(w1, StartRemove(v, u));
    var w3 := Apply(w2, Finish(v));
    var w4 := Apply(w3, Finish(u));
    assert c[..0] == [] && c[..1] == [c[0]] && c[..2] == [c[0], c[1]] && c[..3] == [c[0], c[1], c[2]] && c[..4] == c;
    assert c[..1][..0] == [] && c[..2][..1] == c[..1] && c[..3][..2] == c[..2] && c[..4][..3] == c[..3];
    assert After(w, c[..0]) == w && After(w, c[..1]) == w1 && After(w, c[..2]) == w2;
    assert After(w, c[..3]) == w3 && After(w, c) == w4;
    assert w4.pending == map[];
    forall j
      ensures !About(w4, j, u, v)
    {
    }
  }
}

/** Friendship: one stored row for each unordered pair of users, and the friend lists that the
    server caches for users who are online. */
module Friends {
  import opened Prelude

  // ----- The stored relation -----

  /** What one user has marked about the other; two bits of the stored byte. */
  datatype Status = Status(friend: bool, blocked: bool)

  const NOTHING := Status(false, false)
  const FRIEND := Status(true, false)

  type Pair = (UserId, UserId)
  type Rows = map<Pair, (Status, Status)>

  /** Rows are stored under the smaller id first. */
  predicate Stored(rows: Rows) { forall p :: p in rows ==> p.0 < p.1 }

  /** `get_ordered_userids`. */
  function Ordered(u: UserId, v: UserId): (UserId, UserId, bool) {
    if u < v then (u, v, false) else (v, u, true)
  }

  function PairOf(u: UserId, v: UserId): Pair { (Ordered(u, v).0, Ordered(u, v).1) }

  /** `get_rel_status`: what `u` marked, then what `v` marked. */
  function GetRel(rows: Rows, u: UserId, v: UserId): Option<(Status, Status)> {
    var (first, second, swapped) := Ordered(u, v);
    if u == v || (first, second) !in rows then None
    else
      var (s1, s2) := rows[(first, second)];
      Some(if swapped then (s2, s1) else (s1, s2))
  }

  /** `set_rel_status`. */
  function SetRel(rows: Rows, u: UserId, v: UserId, su: Status, sv: Status): Rows {
    var (first, second, swapped) := Ordered(u, v);
    if u == v then rows else rows[(first, second) := if swapped then (sv, su) else (su, sv)]
  }

  /** Read after write, from either side; every other pair keeps its row. */
  lemma {:induction false} GetAfterSet(rows: Rows, u: UserId, v: UserId, su: Status, sv: Status, x: UserId, y: UserId)
    requires u != v
    ensures var rows' := SetRel(rows, u, v, su, sv);
            GetRel(rows', x, y) == if (x, y) == (u, v) then Some((su, sv))
                                   else if (x, y) == (v, u) then Some((sv, su)) else GetRel(rows, x, y)
  {
  }

  lemma {:induction false} GetBothWays(rows: Rows, u: UserId, v: UserId)
    ensures match GetRel(rows, u, v)
            case Some((su, sv)) => GetRel(rows, v, u) == Some((sv, su))
            case None => GetRel(rows, v, u).None?
  {
  }

  /** Both have marked the other as a friend, and neither has blocked the other. */
  predicate Mutual(rows: Rows, u: UserId, v: UserId) { GetRel(rows, u, v) == Some((FRIEND, FRIEND)) }

  // ----- The two halves of a command: the row, then the caches -----

  datatype Outcome = InvalidInput | Blocked | AlreadyFriend | NotFound | Requested | Accepted | Removed

  function Marked(rows: Rows, u: UserId, v: UserId): (Status, Status) {
    match GetRel(rows, u, v)
    case Some(s) => s
    case None => (NOTHING, NOTHING)
  }

  /** The database part of `add_friend`. */
  function AddRow(rows: Rows, u: UserId, v: UserId): (Rows, Outcome) {
    var (su, sv) := Marked(rows, u, v);
    if u == v then (rows, InvalidInput)
    else if su.blocked || sv.blocked then (rows, Blocked)
    else if su.friend then (rows, AlreadyFriend)
    else (SetRel(rows, u, v, su.(friend := true), sv), if sv.friend then Accepted else Requested)
  }

  /** The database part of `remove_friend`. */
  function RemoveRow(rows: Rows, u: UserId, v: UserId): (Rows, Outcome) {
    var (su, sv) := Marked(rows, u, v);
    if u == v then (rows, InvalidInput)
    else if GetRel(rows, u, v).None? || !(su.friend || sv.friend) then (rows, NotFound)
    else (SetRel(rows, u, v, su.(friend := false), sv.(friend := false)), Removed)
  }

  /** The friend lists of the users who are online. */
  type Caches = map<UserId, set<UserId>>

  function With(c: Caches, u: UserId, v: UserId): Caches { if u in c then c[u := c[u] + {v}] else c }
  function Without(c: Caches, u: UserId, v: UserId): Caches { if u in c then c[u := c[u] - {v}] else c }

  function Link(c: Caches, u: UserId, v: UserId): Caches { With(With(c, u, v), v, u) }
  function Unlink(c: Caches, u: UserId, v: UserId): Caches { Without(Without(c, u, v), v, u) }

  /** `get_relationships`: the other users of the rows that hold `u`. */
  function FriendsOf(rows: Rows, u: UserId): set<UserId> {
    set p | p in rows && (p.0 == u || p.1 == u) && rows[p] == (FRIEND, FRIEND) :: if p.0 != u then p.0 else p.1
  }

  lemma {:induction false} FriendsAreMutual(rows: Rows, u: UserId)
    requires Stored(rows)
    ensures forall v :: v in FriendsOf(rows, u) <==> Mutual(rows, u, v)
  {
    forall v
      ensures v in FriendsOf(rows, u) <==> Mutual(rows, u, v)
    {
      if v in FriendsOf(rows, u) {
        var p :| p in rows && (p.0 == u || p.1 == u) && rows[p] == (FRIEND, FRIEND)
                 && v == if p.0 != u then p.0 else p.1;
        assert p == PairOf(u, v);
      }
      if Mutual(rows, u, v) {
        var p := PairOf(u, v);
        assert p in rows && (p.0 == u || p.1 == u) && rows[p] == (FRIEND, FRIEND);
      }
    }
  }

  // ----- Interleaving -----

  /** A command between its two halves: whom it is about and whether it adds. */
  datatype Pending = Pending(other: UserId, add: bool)

  datatype World = World(rows: Rows, online: Caches, pending: map<UserId, Pending>)

  predicate About(w: World, issuer: UserId, u: UserId, v: UserId) {
    issuer in w.pending && PairOf(issuer, w.pending[issuer].other) == PairOf(u, v)
  }

  /** Some command about this pair is between its halves. */
  ghost predicate Busy(w: World, u: UserId, v: UserId) { exists issuer :: About(w, issuer, u, v) }

  ghost predicate Agrees(w: World, u: UserId, v: UserId)
    requires u in w.online
  {
    v in w.online[u] <==> Mutual(w.rows, u, v)
  }

  /** Whatever overlaps: rows are stored in order, and a pending command is somebody's who is
      online, about somebody else. */
  ghost predicate Sound(w: World) {
    && Stored(w.rows)
    && (forall issuer :: issuer in w.pending ==> issuer in w.online && issuer != w.pending[issuer].other)
  }

  /** For every pair that no command is busy with, cached lists and rows agree. */
  ghost predicate IdleAgree(w: World) {
    forall u, v {:trigger Agrees(w, u, v)} :: u in w.online && !Busy(w, u, v) ==> Agrees(w, u, v)
  }

  datatype Action =
    | Login(user: UserId)
    | Logout(user: UserId)
    | StartAdd(user: UserId, other: UserId)
    | StartRemove(user: UserId, other: UserId)
    | Finish(user: UserId)

  /** A user who is online runs one command at a time; commands of different users overlap freely. */
  predicate Enabled(w: World, a: Action) {
    match a
    case Login(u) => u !in w.online
    case Logout(u) => u in w.online && u !in w.pending
    case StartAdd(u, v) => u in w.online && u !in w.pending
    case StartRemove(u, v) => u in w.online && u !in w.pending
    case Finish(u) => u in w.pending
  }

  function Apply(w: World, a: Action): World {
    match a
    case Login(u) => w.(online := w.online[u := FriendsOf(w.rows, u)])
    case Logout(u) => w.(online := w.online - {u})
    case StartAdd(u, v) =>
      var (rows, out) := AddRow(w.rows, u, v);
      w.(rows := rows, pending := if out.Accepted? then w.pending[u := Pending(v, true)] else w.pending)
    case StartRemove(u, v) =>
      var (rows, out) := RemoveRow(w.rows, u, v);
      w.(rows := rows, pending := if out.Removed? then w.pending[u := Pending(v, false)] else w.pending)
    case Finish(u) =>
      if u !in w.pending then w
      else
        var p := w.pending[u];
        w.(online := if p.add then Link(w.online, u, p.other) else Unlink(w.online, u, p.other),
           pending := w.pending - {u})
  }

  /** The last of the commands about a pair updates the caches for a row that another command has
      changed since. */
  ghost predicate Stale(w: World, a: Action) {
    && a.Finish? && a.user in w.pending
    && var p := w.pending[a.user];
       !Busy(Apply(w, a), a.user, p.other) && p.add != Mutual(w.rows, a.user, p.other)
  }

  /** No two commands about the same pair overlap. */
  ghost predicate Serial(w: World, a: Action) { a.StartAdd? || a.StartRemove? ==> !Busy(w, a.user, a.other) }
}

/** The friend commands as the server runs them, each without another in between. */
module FriendServer {
  import opened Prelude
  import opened Friends
  import opened FriendRuns

  /** The lists that `get_relationships` sorts the other users into. */
  datatype Lists = Lists(friends: seq<UserId>, sent: seq<UserId>, received: seq<UserId>, blocked: seq<UserId>)

  const NoLists := Lists([], [], [], [])

  predicate Distinct(s: seq<UserId>) { forall i, j :: 0 <= i < j < |s| ==> s[i] != s[j] }

  predicate BlockedBy(rel: Option<(Status, Status)>) { rel.Some? && rel.value.1.blocked }

  /** Who is on which list, by the marks of both users, of the rows under `keys`. */
  ghost predicate ListsRows(l: Lists, rows: Rows, keys: set<Pair>, u: UserId) {
    && (forall v :: v in l.friends <==> PairOf(u, v) in keys && GetRel(rows, u, v) == Some((FRIEND, FRIEND)))
    && (forall v :: v in l.sent <==> PairOf(u, v) in keys && GetRel(rows, u, v) == Some((FRIEND, NOTHING)))
    && (forall v :: v in l.received <==> PairOf(u, v) in keys && GetRel(rows, u, v) == Some((NOTHING, FRIEND)))
    && (forall v :: v in l.blocked <==> PairOf(u, v) in keys && BlockedBy(GetRel(rows, u, v)))
    && Distinct(l.friends) && Distinct(l.sent) && Distinct(l.received) && Distinct(l.blocked)
  }

  function Append(s: seq<UserId>, v: UserId, take: bool): seq<UserId> { if take then s + [v] else s }

  lemma {:induction false} AppendIs(s: seq<UserId>, v: UserId, take: bool)
    requires v !in s && Distinct(s)
    ensures Distinct(Append(s, v, take))
    ensures forall x :: x in Append(s, v, take) <==> x in s || (take && x == v)
  {
  }

  /** One row sorted in. */
  function Sorted(l: Lists, v: UserId, su: Status, sv: Status): Lists {
    Lists(Append(l.friends, v, (su, sv) == (FRIEND, FRIEND)), Append(l.sent, v, (su, sv) == (FRIEND, NOTHING)),
          Append(l.received, v, (su, sv) == (NOTHING, FRIEND)), Append(l.blocked, v, sv.blocked))
  }

  lemma {:induction false} SortOne(l: Lists, rows: Rows, keys: set<Pair>, u: UserId, v: UserId)
    requires ListsRows(l, rows, keys, u) && u != v && PairOf(u, v) !in keys && GetRel(rows, u, v).Some?
    ensures var (su, sv) := GetRel(rows, u, v).value;
            ListsRows(Sorted(l, v, su, sv), rows, keys + {PairOf(u, v)}, u)
  {
    hide GetRel, PairOf, Append, Distinct;
    var (su, sv) := GetRel(rows, u, v).value;
    AppendIs(l.friends, v, (su, sv) == (FRIEND, FRIEND));
    AppendIs(l.sent, v, (su, sv) == (FRIEND, NOTHING));
    AppendIs(l.received, v, (su, sv) == (NOTHING, FRIEND));
    AppendIs(l.blocked, v, sv.blocked);
    forall x
      ensures PairOf(u, x) == PairOf(u, v) <==> x == v
    {
      PairFacts(u, v, u, x);
    }
  }

  /** A row that does not hold `u` puts nobody on a list. */
  lemma {:induction false} SortOther(l: Lists, rows: Rows, keys: set<Pair>, u: UserId, p: Pair)
    requires ListsRows(l, rows, keys, u) && p.0 != u && p.1 != u
    ensures ListsRows(l, rows, keys + {p}, u)
  {
    hide GetRel;
  }

  ghost predicate ListedIff(rows: Rows, online: Caches, u: UserId, v: UserId)
    requires u in online
  {
    v in online[u] <==> Mutual(rows, u, v)
  }

  /** The cached list of every user online holds exactly their mutual friends. */
  ghost predicate Consistent(rows: Rows, online: Caches) {
    && Stored(rows)
    && forall u, v {:trigger ListedIff(rows, online, u, v)} :: u in online ==> ListedIff(rows, online, u, v)
  }

  /** What reading a relation tells: `DbError::Invalid`, `DbError::Empty` or the marks. */
  datatype Relation = InvalidPair | NoRow | Marks(user: Status, other: Status)

  class FriendServer {
    var rows: Rows
    var online: Caches

    constructor (stored: Rows)
      requires Stored(stored)
      ensures rows == stored && online == map[] && Consistent(rows, online)
    {
      rows, online := stored, map[];
    }

    /** `get_rel_status`. */
    method GetRelStatus(u: UserId, v: UserId) returns (r: Relation)
      ensures r.InvalidPair? <==> u == v
      ensures r.Marks? <==> GetRel(rows, u, v).Some?
      ensures r.Marks? ==> GetRel(rows, u, v) == Some((r.user, r.other))
    {
      if u == v {
        return InvalidPair;
      }
      var (first, second, swapped) := Ordered(u, v);
      if (first, second) !in rows {
        return NoRow;
      }
      var (s1, s2) := rows[(first, second)];
      r := if swapped then Marks(s2, s1) else Marks(s1, s2);
    }

    /** `set_rel_status`: refused for a user and themselves. */
    method SetRelStatus(u: UserId, v: UserId, su: Status, sv: Status) returns (ok: bool)
      modifies this`rows
      ensures (ok <==> u != v) && rows == SetRel(old(rows), u, v, su, sv)
    {
      if u == v {
        return false;
      }
      var (first, second, swapped) := Ordered(u, v);
      rows := rows[(first, second) := if swapped then (sv, su) else (su, sv)];
      ok := true;
    }

    /** `get_relationships`: one pass over the user's rows. */
    method GetRelationships(u: UserId) returns (l: Lists)
      requires Stored(rows)
      ensures ListsRows(l, rows, rows.Keys, u)
    {
      hide ListsRows, Sorted;
      l := NoLists;
      var todo := rows.Keys;
      NothingSorted(rows, u);
      assert rows.Keys - todo == {};
      while todo != {}
        invariant todo <= rows.Keys && ListsRows(l, rows, rows.Keys - todo, u)
      {
        var p :| p in todo;
        if p.0 == u || p.1 == u {
          var (v, su, sv) := if p.0 != u then (p.0, rows[p].1, rows[p].0) else (p.1, rows[p].0, rows[p].1);
          SortOne(l, rows, rows.Keys - todo, u, v);
          l := Sorted(l, v, su, sv);
        } else {
          SortOther(l, rows, rows.Keys - todo, u, p);
        }
        assert rows.Keys - (todo - {p}) == rows.Keys - todo + {p};
        todo := todo - {p};
      }
      assert rows.Keys - todo == rows.Keys;
    }

    /** Logging in reads the friend list from the rows. */
    method Login(u: UserId) returns (l: Lists)
      requires Consistent(rows, online) && u !in online
      modifies this`online
      ensures Consistent(rows, online)
      ensures ListsRows(l, rows, rows.Keys, u)
      ensures online == old(online)[u := FriendsOf(rows, u)]
    {
      hide GetRel, PairOf;
      l := GetRelationships(u);
      FriendsAreMutual(rows, u);
      var friends := set v | v in l.friends;
      MutualRowThere(rows, u);
      assert friends == FriendsOf(rows, u);
      OthersListed(rows, online, u);
      online := online[u := friends];
    }

    method Logout(u: UserId)
      requires Consistent(rows, online) && u in online
      modifies this`online
      ensures Consistent(rows, online) && online == old(online) - {u}
    {
      OthersListed(rows, online, u);
      online := online - {u};
    }

    /** `add_friend`. */
    method AddFriend(u: UserId, v: UserId) returns (out: Outcome)
      requires Consistent(rows, online) && u in online
      modifies this
      ensures Consistent(rows, online) && (rows, out) == AddRow(old(rows), u, v)
      ensures online == if out.Accepted? then Link(old(online), u, v) else old(online)
    {
      AddKeeps(rows, online, u, v);
      if u == v {
        return InvalidInput;
      }
      var rel := GetRelStatus(u, v);
      var (su, sv) := if rel.Marks? then (rel.user, rel.other) else (NOTHING, NOTHING);
      if su.blocked || sv.blocked {
        return Blocked;
      }
      if su.friend {
        return AlreadyFriend;
      }
      var stored := SetRelStatus(u, v, su.(friend := true), sv);
      assert stored;
      if !sv.friend {
        return Requested;
      }
      if u in online {
        online := online[u := online[u] + {v}];
      }
      if v in online {
        online := online[v := online[v] + {u}];
      }
      out := Accepted;
    }

    /** `remove_friend`. */
    method RemoveFriend(u: UserId, v: UserId) returns (out: Outcome)
      requires Consistent(rows, online) && u in online
      modifies this
      ensures Consistent(rows, online) && (rows, out) == RemoveRow(old(rows), u, v)
      ensures online == if out.Removed? then Unlink(old(online), u, v) else old(online)
    {
      RemoveKeeps(rows, online, u, v);
      if u == v {
        return InvalidInput;
      }
      var rel := GetRelStatus(u, v);
      if rel.NoRow? {
        return NotFound;
      }
      var (su, sv) := (rel.user, rel.other);
      if !(su.friend || sv.friend) {
        return NotFound;
      }
      var stored := SetRelStatus(u, v, su.(friend := false), sv.(friend := false));
      assert stored;
      if u in online {
        online := online[u := online[u] - {v}];
      }
      if v in online {
        online := online[v := online[v] - {u}];
      }
      out := Removed;
    }
  }

  // ----- What the methods rely on -----

  lemma {:induction false} NothingSorted(rows: Rows, u: UserId)
    ensures ListsRows(NoLists, rows, {}, u)
  {
  }

  lemma {:induction false} MutualRowThere(rows: Rows, u: UserId)
    ensures forall v :: Mutual(rows, u, v) ==> PairOf(u, v) in rows
  {
  }

  /** Coming and going leaves the lists of the others alone. */
  lemma {:induction false} OthersListed(rows: Rows, online: Caches, u: UserId)
    requires Consistent(rows, online)
    ensures Consistent(rows, online[u := FriendsOf(rows, u)]) && Consistent(rows, online - {u})
  {
    hide Mutual, FriendsOf;
    FriendsAreMutual(rows, u);
    var with, less := online[u := FriendsOf(rows, u)], online - {u};
    forall x, y | x in with
      ensures ListedIff(rows, with, x, y)
    {
      assert x != u ==> ListedIff(rows, online, x, y);
    }
    forall x, y | x in less
      ensures ListedIff(rows, less, x, y)
    {
      assert ListedIff(rows, online, x, y);
    }
  }

  /** Row and caches changed for one pair in the same way. */
  lemma {:induction false} PairKeeps(rows: Rows, online: Caches, rows': Rows, u: UserId, v: UserId, add: bool)
    requires Consistent(rows, online) && Stored(rows') && u != v && (add <==> Mutual(rows', u, v))
    requires forall x, y :: PairOf(x, y) != PairOf(u, v) ==> Mutual(rows', x, y) == Mutual(rows, x, y)
    ensures Consistent(rows', if add then Link(online, u, v) else Unlink(online, u, v))
  {
    hide Mutual, PairOf, Link, Unlink, Stored;
    var online' := if add then Link(online, u, v) else Unlink(online, u, v);
    LinkedKeys(online, u, v);
    forall x, y | x in online'
      ensures ListedIff(rows', online', x, y)
    {
      LinkedIff(online, u, v, x, y, add);
      if PairOf(x, y) == PairOf(u, v) {
        SamePairMutual(rows', x, y, u, v);
      } else {
        assert ListedIff(rows, online, x, y);
      }
    }
  }

  lemma {:induction false} AddKeeps(rows: Rows, online: Caches, u: UserId, v: UserId)
    requires Consistent(rows, online)
    ensures var (rows', out) := AddRow(rows, u, v);
            Consistent(rows', if out.Accepted? then Link(online, u, v) else online)
  {
    hide Mutual, PairOf, AddRow, Link, Stored;
    var (rows', out) := AddRow(rows, u, v);
    forall x, y
      ensures PairOf(x, y) != PairOf(u, v) || !out.Accepted? ==> Mutual(rows', x, y) == Mutual(rows, x, y)
    {
      AddRowMutual(rows, u, v, x, y);
    }
    AddRowMutual(rows, u, v, u, v);
    if out.Accepted? {
      PairKeeps(rows, online, rows', u, v, true);
    } else {
      forall x, y | x in online
        ensures ListedIff(rows', online, x, y)
      {
        assert ListedIff(rows, online, x, y);
      }
    }
  }

  lemma {:induction false} RemoveKeeps(rows: Rows, online: Caches, u: UserId, v: UserId)
    requires Consistent(rows, online)
    ensures var (rows', out) := RemoveRow(rows, u, v);
            Consistent(rows', if out.Removed? then Unlink(online, u, v) else online)
  {
    hide Mutual, PairOf, RemoveRow, Unlink, Stored;
    var (rows', out) := RemoveRow(rows, u, v);
    forall x, y
      ensures PairOf(x, y) != PairOf(u, v) ==> Mutual(rows', x, y) == Mutual(rows, x, y)
    {
      RemoveRowMutual(rows, u, v, x, y);
    }
    RemoveRowMutual(rows, u, v, u, v);
    if out.Removed? {
      PairKeeps(rows, online, rows', u, v, false);
    }
  }
}

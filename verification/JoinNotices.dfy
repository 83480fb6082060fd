/** Who is told about a new member, and how: without signaling everybody gets the plain
    notice; in a mesh every member is told an address of the newcomer and the newcomer is
    told one of theirs; in a star only the hub is. */
module JoinNotices {
  import opened Prelude
  import opened RoomModel
  import opened RoomInvariants

  /** Which address two peers use: the local one behind the same IPv4, IPv6 if both have it, else IPv4. */
  datatype Kind = Local | PublicV4 | PublicV6

  const LOCAL_PORT: nat := 3658

  function KindOf(a: Signaling, b: Signaling): Kind {
    if a.ipv4 == b.ipv4 then Local else if a.ipv6.Some? && b.ipv6.Some? then PublicV6 else PublicV4
  }

  /** The address of that kind that `s` is reached at. */
  function AddressOf(s: Signaling, kind: Kind): (Bytes, nat)
    requires kind == PublicV6 ==> s.ipv6.Some?
  {
    match kind
    case Local => (s.local, LOCAL_PORT)
    case PublicV4 => (s.ipv4, s.port)
    case PublicV6 => s.ipv6.value
  }

  predicate ShouldSignal(p: SignalParam) {
    match p
    case NoSignaling => false
    case Mesh(flag) => flag & 1 != 1
    case Star(flag, _) => flag & 1 != 1
  }

  datatype Entry = Entry(memberId: nat, address: (Bytes, nat))

  /** The recipients of the four notices, and the signaling list of the reply. */
  datatype Notices = Notices(plain: set<int>, local: set<int>, v4: set<int>, v6: set<int>, reply: seq<Entry>)

  const Nobody := Notices({}, {}, {}, {}, [])

  /** What the newcomer is told about a member: its address of the kind they share. */
  function EntryOf(m: nat, user: User, joiner: Signaling): Entry {
    Entry(m, AddressOf(user.signaling, KindOf(user.signaling, joiner)))
  }

  function Notify(n: Notices, m: nat, user: User, joiner: Signaling): Notices {
    var n1 := n.(reply := n.reply + [EntryOf(m, user, joiner)]);
    match KindOf(user.signaling, joiner)
    case Local => n1.(local := n.local + {user.userId})
    case PublicV4 => n1.(v4 := n.v4 + {user.userId})
    case PublicV6 => n1.(v6 := n.v6 + {user.userId})
  }

  /** The accounts among `members` that share this kind of address with the newcomer. */
  function Recipients(members: Users, joiner: Signaling, kind: Kind): set<int> {
    set m | m in members && KindOf(members[m].signaling, joiner) == kind :: members[m].userId
  }

  ghost predicate ListedAs(e: Entry, members: Users, joiner: Signaling) {
    && e.memberId in members
    && var s := members[e.memberId].signaling; e.address == AddressOf(s, KindOf(s, joiner))
  }

  /** The list names every one of `members` exactly once, with its address of the kind it shares
      with the newcomer. */
  ghost predicate Lists(reply: seq<Entry>, members: Users, joiner: Signaling) {
    && (forall i :: 0 <= i < |reply| ==> ListedAs(reply[i], members, joiner))
    && (forall i, j :: 0 <= i < j < |reply| ==> reply[i].memberId != reply[j].memberId)
    && (forall m :: m in members ==> exists i :: 0 <= i < |reply| && reply[i].memberId == m)
  }

  /** Every one of `members` is notified and listed under the kind it shares with the newcomer. */
  ghost predicate Signals(n: Notices, members: Users, joiner: Signaling) {
    && n.local == Recipients(members, joiner, Local)
    && n.v4 == Recipients(members, joiner, PublicV4)
    && n.v6 == Recipients(members, joiner, PublicV6)
    && Lists(n.reply, members, joiner)
  }

  lemma {:induction false} NotifyOne(n: Notices, members: Users, joiner: Signaling, m: nat, user: User)
    requires Signals(n, members, joiner) && m !in members
    ensures Signals(Notify(n, m, user, joiner), members[m := user], joiner)
  {
    ListsOne(n.reply, members, joiner, m, user);
    RecipientsAdd(members, joiner, m, user, Local);
    RecipientsAdd(members, joiner, m, user, PublicV4);
    RecipientsAdd(members, joiner, m, user, PublicV6);
    hide Lists, Recipients;
  }

  lemma {:induction false} ListsOne(reply: seq<Entry>, members: Users, joiner: Signaling, m: nat, user: User)
    requires Lists(reply, members, joiner) && m !in members
    ensures Lists(reply + [EntryOf(m, user, joiner)], members[m := user], joiner)
  {
    var members', reply' := members[m := user], reply + [EntryOf(m, user, joiner)];
    forall k | k in members'
      ensures exists i :: 0 <= i < |reply'| && reply'[i].memberId == k
    {
      if k == m {
        assert reply'[|reply|].memberId == m;
      } else {
        var i :| 0 <= i < |reply| && reply[i].memberId == k;
        assert reply'[i].memberId == k;
      }
    }
  }

  lemma {:induction false} RecipientsAdd(members: Users, joiner: Signaling, m: nat, user: User, kind: Kind)
    requires m !in members
    ensures Recipients(members[m := user], joiner, kind)
            == Recipients(members, joiner, kind) + if KindOf(user.signaling, joiner) == kind then {user.userId} else {}
  {
    var members' := members[m := user];
    forall u | u in Recipients(members, joiner, kind)
      ensures u in Recipients(members', joiner, kind)
    {
      var k :| k in members && KindOf(members[k].signaling, joiner) == kind && members[k].userId == u;
      assert k in members' && members'[k] == members[k];
    }
    if KindOf(user.signaling, joiner) == kind {
      assert m in members' && members'[m].userId == user.userId;
    }
  }

  /** The previous members of a room that `memberId` just joined. */
  function Others(r: Room, memberId: nat): Users { r.users - {memberId} }

  /** Whom a star connects: the named hub, or the owner when none is named. */
  function Hub(r: Room): nat
    requires r.cfg.signaling.Star?
  {
    if r.cfg.signaling.hub == 0 then r.owner else r.cfg.signaling.hub
  }

  /** The server panics when it has to signal to a hub that is not in the room. */
  predicate HubMissing(r: Room) {
    ShouldSignal(r.cfg.signaling) && r.cfg.signaling.Star? && Hub(r) !in r.users
  }

  /** Who must be told what after `memberId` joined. */
  ghost predicate Told(r: Room, memberId: nat, joiner: Signaling, n: Notices)
    requires !HubMissing(r)
  {
    var others := Others(r, memberId);
    if !ShouldSignal(r.cfg.signaling) then n == Nobody.(plain := UserIds(others))
    else if r.cfg.signaling.Mesh? then n.plain == {} && Signals(n, others, joiner)
    else
      var hub := r.users[Hub(r)];
      n.plain == UserIds(others) - {hub.userId} && Signals(n, map[Hub(r) := hub], joiner)
  }

  /** The notification part of `join_room`. */
  method Build(r: Room, memberId: nat, joiner: Signaling) returns (n: Notices)
    requires !HubMissing(r)
    ensures Told(r, memberId, joiner, n)
  {
    n := Nobody;
    if !ShouldSignal(r.cfg.signaling) {
      n := n.(plain := UserIds(Others(r, memberId)));
    } else if r.cfg.signaling.Mesh? {
      n := Spread(Others(r, memberId), joiner);
    } else {
      var hub := Hub(r);
      NobodySignals(joiner);
      NotifyOne(n, map[], joiner, hub, r.users[hub]);
      n := Notify(n, hub, r.users[hub], joiner);
      n := n.(plain := UserIds(Others(r, memberId)) - {r.users[hub].userId});
    }
  }

  lemma {:induction false} NobodySignals(joiner: Signaling)
    ensures Signals(Nobody, map[], joiner)
  {
  }

  /** The loop over the members of a mesh. */
  method Spread(members: Users, joiner: Signaling) returns (n: Notices)
    ensures n.plain == {} && Signals(n, members, joiner)
  {
    n := Nobody;
    NobodySignals(joiner);
    assert members - members.Keys == map[];
    var todo := members.Keys;
    while todo != {}
      invariant todo <= members.Keys
      invariant n.plain == {} && Signals(n, members - todo, joiner)
    {
      var m :| m in todo;
      NotifyOne(n, members - todo, joiner, m, members[m]);
      n := Notify(n, m, members[m], joiner);
      assert members - (todo - {m}) == (members - todo)[m := members[m]];
      todo := todo - {m};
    }
    assert members - todo == members;
  }

  // ----- Every previous member hears exactly once -----

  ghost predicate Partition(n: Notices, everybody: set<int>) {
    && n.plain !! n.local !! n.v4 !! n.v6
    && n.plain + n.local + n.v4 + n.v6 == everybody
  }

  lemma {:induction false} RecipientsDisjoint(members: Users, joiner: Signaling, a: Kind, b: Kind)
    requires AllApart(members) && a != b
    ensures Recipients(members, joiner, a) !! Recipients(members, joiner, b)
  {
    forall m, k | m in members && k in members && members[m].userId == members[k].userId
      ensures m == k
    {
      assert Apart(members, m, k);
    }
  }

  lemma {:induction false} RecipientsCover(members: Users, joiner: Signaling)
    ensures Recipients(members, joiner, Local) + Recipients(members, joiner, PublicV4)
            + Recipients(members, joiner, PublicV6) == UserIds(members)
  {
    forall u | u in UserIds(members)
      ensures exists kind :: u in Recipients(members, joiner, kind)
    {
      var m :| m in members && members[m].userId == u;
      assert u in Recipients(members, joiner, KindOf(members[m].signaling, joiner));
    }
  }

  lemma {:induction false} SignalsPartition(n: Notices, members: Users, joiner: Signaling, everybody: set<int>)
    requires AllApart(members) && Signals(n, members, joiner)
    requires UserIds(members) <= everybody && n.plain == everybody - UserIds(members)
    ensures Partition(n, everybody)
  {
    RecipientsDisjoint(members, joiner, Local, PublicV4);
    RecipientsDisjoint(members, joiner, Local, PublicV6);
    RecipientsDisjoint(members, joiner, PublicV4, PublicV6);
    RecipientsCover(members, joiner);
  }

  /** Whatever the signaling, the four recipient sets split the previous members; only a
      newcomer that is its own hub is told too. */
  lemma {:induction false} EveryoneToldOnce(r: Room, memberId: nat, joiner: Signaling, n: Notices)
    requires memberId in r.users && AllApart(r.users) && !HubMissing(r) && Told(r, memberId, joiner, n)
    ensures var ownHub := ShouldSignal(r.cfg.signaling) && r.cfg.signaling.Star? && Hub(r) == memberId;
            Partition(n, UserIds(r.users) - if ownHub then {} else {r.users[memberId].userId})
  {
    var others := Others(r, memberId);
    assert AllApart(others) by {
      forall m, k | m in others && k in others
        ensures Apart(others, m, k)
      {
        assert Apart(r.users, m, k);
      }
    }
    OthersIds(r, memberId);
    if ShouldSignal(r.cfg.signaling) {
      if r.cfg.signaling.Mesh? {
        SignalsPartition(n, others, joiner, UserIds(others));
      } else {
        var hub := Hub(r);
        var u := r.users[hub].userId;
        assert u in UserIds(r.users);
        OneId(hub, r.users[hub]);
        assert Apart(r.users, hub, memberId);
        SignalsPartition(n, map[hub := r.users[hub]], joiner, UserIds(others) + {u});
      }
    }
  }

  lemma {:induction false} OneId(m: nat, user: User)
    ensures UserIds(map[m := user]) == {user.userId} && AllApart(map[m := user])
  {
    var one := map[m := user];
    assert m in one && one[m].userId == user.userId;
  }

  lemma {:induction false} OthersIds(r: Room, memberId: nat)
    requires memberId in r.users && AllApart(r.users)
    ensures UserIds(r.users) == UserIds(Others(r, memberId)) + {r.users[memberId].userId}
    ensures r.users[memberId].userId !in UserIds(Others(r, memberId))
  {
    var others := Others(r, memberId);
    forall u | u in UserIds(r.users) && u != r.users[memberId].userId
      ensures u in UserIds(others)
    {
      var m :| m in r.users && r.users[m].userId == u;
      assert m in others && others[m].userId == u;
    }
    forall m | m in others
      ensures others[m].userId != r.users[memberId].userId
    {
      assert Apart(r.users, m, memberId);
    }
  }

  /** A room that names no hub, or a member as its hub, never panics here. */
  lemma {:induction false} HubIsPresentIff(r: Room)
    requires Inv(r) && ShouldSignal(r.cfg.signaling) && r.cfg.signaling.Star?
    ensures !HubMissing(r) <==> r.cfg.signaling.hub == 0 || r.cfg.signaling.hub in r.users
  {
    assert r.owner in r.users;
  }
}

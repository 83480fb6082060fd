/** The ranking order of one score board, the reference table behind it (one row per
    user and character, as the database keeps it) and the bounded vector that the
    server answers rankings from.

    The vector is meant to be "the table, sorted, cut at rank_limit". This module says
    when one upsert keeps it so; ScoreRuns lifts that to every run. */
module ScoreRanking {
  import opened Prelude

  type Key = (int, int)

  datatype Score = Score(userId: int, characterId: int, score: int, timestamp: int,
                         comment: Option<string>, gameInfo: Option<seq<byte>>, dataId: Option<nat>)
  {
    function Key(): Key { (userId, characterId) }
  }

  datatype Ordering = Less | Equal | Greater {
    function Reverse(): Ordering {
      match this
      case Less => Greater
      case Equal => Equal
      case Greater => Less
    }
  }

  function CmpInt(x: int, y: int): Ordering {
    if x < y then Less else if x == y then Equal else Greater
  }

  /** `DbScoreInfo::cmp`: better score first (sort mode 0 is descending), then the earlier
      timestamp, then the larger user id. */
  function Cmp(a: Score, b: Score, sortMode: nat): Ordering {
    var better := if sortMode == 0 then Less else Greater;
    match CmpInt(a.score, b.score)
    case Greater => better
    case Less => better.Reverse()
    case Equal =>
      if a.timestamp != b.timestamp then CmpInt(a.timestamp, b.timestamp) else CmpInt(b.userId, a.userId)
  }

  predicate Before(a: Score, b: Score, mode: nat) { Cmp(a, b, mode) == Less }

  /** Rows whose order `Cmp` leaves open; inserting next to one makes the server panic. */
  predicate Tied(a: Score, b: Score) {
    a.score == b.score && a.timestamp == b.timestamp && a.userId == b.userId
  }

  predicate Ahead(a: Score, b: Score, mode: nat) { Before(a, b, mode) && a.Key() != b.Key() }

  /** Strictly sorted, one row per key. */
  predicate Ranked(rows: seq<Score>, mode: nat) {
    forall i, j {:trigger Ahead(rows[i], rows[j], mode)} :: 0 <= i < j < |rows| ==> Ahead(rows[i], rows[j], mode)
  }

  // ----- Rows by key -----

  /** The first index that holds key `k`, or the length. */
  function IndexOf(rows: seq<Score>, k: Key): (p: nat)
    ensures p <= |rows|
    ensures forall i :: 0 <= i < p ==> rows[i].Key() != k
    ensures p < |rows| ==> rows[p].Key() == k
  {
    if rows == [] || rows[0].Key() == k then 0 else 1 + IndexOf(rows[1..], k)
  }

  predicate HasKey(rows: seq<Score>, k: Key) { IndexOf(rows, k) < |rows| }

  /** The rows read as a map from keys. */
  function Row(rows: seq<Score>, k: Key): Option<Score> {
    if HasKey(rows, k) then Some(rows[IndexOf(rows, k)]) else None
  }

  lemma {:induction false} IndexOfUnique(rows: seq<Score>, i: nat, mode: nat)
    requires Ranked(rows, mode) && i < |rows|
    ensures IndexOf(rows, rows[i].Key()) == i && Row(rows, rows[i].Key()) == Some(rows[i])
  {
    var p := IndexOf(rows, rows[i].Key());
    assert p < i ==> Ahead(rows[p], rows[i], mode);
  }

  /** The precondition of an insertion: no other row ties with the new one. */
  predicate NoTie(rows: seq<Score>, s: Score) {
    forall i :: 0 <= i < |rows| && rows[i].Key() != s.Key() ==> !Tied(rows[i], s)
  }

  // ----- Upserting without a limit -----

  /** Where a binary search for `s` in sorted `rows` reports the insertion point. */
  function Position(rows: seq<Score>, s: Score, mode: nat): (p: nat)
    ensures p <= |rows|
    ensures forall i :: 0 <= i < p ==> !Before(s, rows[i], mode)
    ensures p < |rows| ==> Before(s, rows[p], mode)
  {
    if rows == [] || Before(s, rows[0], mode) then 0 else 1 + Position(rows[1..], s, mode)
  }

  function Place(rows: seq<Score>, s: Score, mode: nat): seq<Score> {
    InsertAt(rows, Position(rows, s, mode), s)
  }

  function Without(rows: seq<Score>, k: Key): seq<Score> {
    if HasKey(rows, k) then RemoveAt(rows, IndexOf(rows, k)) else rows
  }

  /** Upsert into an unbounded sorted vector. */
  function Record(rows: seq<Score>, s: Score, mode: nat): seq<Score> {
    Place(Without(rows, s.Key()), s, mode)
  }

  /** Upsert into a vector that keeps the best `limit` rows only. */
  function Bounded(rows: seq<Score>, s: Score, mode: nat, limit: nat): seq<Score> {
    Take(Record(rows, s, mode), limit)
  }

  lemma {:induction false} WithoutRanked(rows: seq<Score>, k: Key, mode: nat)
    requires Ranked(rows, mode)
    ensures Ranked(Without(rows, k), mode)
  {
    var p, w := IndexOf(rows, k), Without(rows, k);
    forall i, j | 0 <= i < j < |w|
      ensures Ahead(w[i], w[j], mode)
    {
      if p < |rows| {
        assert Ahead(rows[if i < p then i else i + 1], rows[if j < p then j else j + 1], mode);
      }
    }
  }

  lemma {:induction false} WithoutRow(rows: seq<Score>, k: Key, k': Key, mode: nat)
    requires Ranked(rows, mode)
    ensures Row(Without(rows, k), k') == if k' == k then None else Row(rows, k')
  {
    var p, w := IndexOf(rows, k), Without(rows, k);
    var r := IndexOf(rows, k');
    if p < |rows| {
      if k' != k && r < |rows| {
        WithoutRanked(rows, k, mode);
        IndexOfUnique(w, if r < p then r else r - 1, mode);
      } else {
        forall i | 0 <= i < |w|
          ensures w[i].Key() != k'
        {
          IndexOfUnique(rows, if i < p then i else i + 1, mode);
        }
      }
    }
  }

  lemma {:induction false} PlaceRanked(rows: seq<Score>, s: Score, mode: nat)
    requires Ranked(rows, mode) && !HasKey(rows, s.Key()) && NoTie(rows, s)
    ensures Ranked(Place(rows, s, mode), mode)
  {
    var p, r := Position(rows, s, mode), Place(rows, s, mode);
    forall i, j | 0 <= i < j < |r|
      ensures Ahead(r[i], r[j], mode)
    {
      if i != p && j != p {
        assert Ahead(rows[if i < p then i else i - 1], rows[if j < p then j else j - 1], mode);
      } else if i == p {
        PositionSplits(rows, s, mode, j - 1);
      } else {
        PositionSplits(rows, s, mode, i);
      }
    }
  }

  /** The insertion point splits the rows into those ahead of `s` and those behind it. */
  lemma {:induction false} PositionSplits(rows: seq<Score>, s: Score, mode: nat, i: nat)
    requires Ranked(rows, mode) && !HasKey(rows, s.Key()) && NoTie(rows, s) && i < |rows|
    ensures i < Position(rows, s, mode) ==> Ahead(rows[i], s, mode)
    ensures i >= Position(rows, s, mode) ==> Ahead(s, rows[i], mode)
  {
    var p := Position(rows, s, mode);
    assert p < i ==> Ahead(rows[p], rows[i], mode);
  }

  lemma {:induction false} PlaceRow(rows: seq<Score>, s: Score, mode: nat, k: Key)
    requires Ranked(rows, mode) && !HasKey(rows, s.Key()) && NoTie(rows, s)
    ensures Row(Place(rows, s, mode), k) == if k == s.Key() then Some(s) else Row(rows, k)
  {
    hide Ranked, NoTie, Cmp, IndexOf, Position;
    var p, r := Position(rows, s, mode), Place(rows, s, mode);
    PlaceRanked(rows, s, mode);
    var i := IndexOf(rows, k);
    if k == s.Key() {
      IndexOfUnique(r, p, mode);
    } else if i < |rows| {
      IndexOfUnique(r, if i < p then i else i + 1, mode);
    } else {
      forall j | 0 <= j < |r|
        ensures r[j].Key() != k
      {
        assert r[j] == if j < p then rows[j] else if j == p then s else rows[j - 1];
      }
    }
  }

  lemma {:induction false} WithoutNoTie(rows: seq<Score>, s: Score)
    requires NoTie(rows, s)
    ensures NoTie(Without(rows, s.Key()), s)
  {
  }

  lemma {:induction false} RecordRanked(rows: seq<Score>, s: Score, mode: nat)
    requires Ranked(rows, mode) && NoTie(rows, s)
    ensures Ranked(Record(rows, s, mode), mode)
  {
    WithoutRanked(rows, s.Key(), mode);
    WithoutRow(rows, s.Key(), s.Key(), mode);
    WithoutNoTie(rows, s);
    PlaceRanked(Without(rows, s.Key()), s, mode);
  }

  /** What an upsert does, read as a map: the new row under its key, every other key untouched. */
  lemma {:induction false} RecordRow(rows: seq<Score>, s: Score, mode: nat, k: Key)
    requires Ranked(rows, mode) && NoTie(rows, s)
    ensures Row(Record(rows, s, mode), k) == if k == s.Key() then Some(s) else Row(rows, k)
  {
    WithoutRanked(rows, s.Key(), mode);
    WithoutRow(rows, s.Key(), s.Key(), mode);
    WithoutRow(rows, s.Key(), k, mode);
    WithoutNoTie(rows, s);
    PlaceRow(Without(rows, s.Key()), s, mode, k);
  }

  // ----- The reference table -----

  predicate KeyedTable(table: map<Key, Score>) {
    forall k :: k in table ==> table[k].Key() == k
  }

  predicate Tieless(table: map<Key, Score>, s: Score) {
    forall k :: k in table && k != s.Key() ==> !Tied(table[k], s)
  }

  function Entry(table: map<Key, Score>, k: Key): Option<Score> {
    if k in table then Some(table[k]) else None
  }

  /** `full` lists the whole table in ranking order. */
  ghost predicate Sorting(table: map<Key, Score>, full: seq<Score>, mode: nat) {
    Ranked(full, mode) && forall k :: Row(full, k) == Entry(table, k)
  }

  lemma {:induction false} SortingEntry(table: map<Key, Score>, full: seq<Score>, mode: nat, i: nat)
    requires Sorting(table, full, mode) && i < |full|
    ensures full[i].Key() in table && table[full[i].Key()] == full[i]
  {
    IndexOfUnique(full, i, mode);
    assert Row(full, full[i].Key()) == Entry(table, full[i].Key());
  }

  lemma {:induction false} SortingNoTie(table: map<Key, Score>, full: seq<Score>, s: Score, mode: nat)
    requires Sorting(table, full, mode) && Tieless(table, s)
    ensures NoTie(full, s)
  {
    forall i | 0 <= i < |full| && full[i].Key() != s.Key()
      ensures !Tied(full[i], s)
    {
      SortingEntry(table, full, mode, i);
    }
  }

  lemma {:induction false} RecordSorting(table: map<Key, Score>, full: seq<Score>, s: Score, mode: nat)
    requires Sorting(table, full, mode) && Tieless(table, s)
    ensures Sorting(table[s.Key() := s], Record(full, s, mode), mode)
  {
    SortingNoTie(table, full, s, mode);
    RecordRanked(full, s, mode);
    forall k
      ensures Row(Record(full, s, mode), k) == Entry(table[s.Key() := s], k)
    {
      RecordRow(full, s, mode, k);
      assert Row(full, k) == Entry(table, k);
    }
  }

  /** A table has only one ranking. */
  lemma {:induction false} SortingUnique(table: map<Key, Score>, a: seq<Score>, b: seq<Score>, mode: nat)
    requires Sorting(table, a, mode) && Sorting(table, b, mode)
    ensures a == b
    decreases |a|
  {
    if b != [] {
      FirstAgree(table, b, a, mode);
    }
    if a != [] {
      FirstAgree(table, a, b, mode);
      TailSorting(table, a, mode);
      TailSorting(table, b, mode);
      SortingUnique(table - {a[0].Key()}, a[1..], b[1..], mode);
      assert a == [a[0]] + a[1..] && b == [b[0]] + b[1..];
    }
  }

  lemma {:induction false} FirstAgree(table: map<Key, Score>, a: seq<Score>, b: seq<Score>, mode: nat)
    requires Sorting(table, a, mode) && Sorting(table, b, mode) && a != []
    ensures b != [] && a[0] == b[0]
  {
    SortingEntry(table, a, mode, 0);
    var i := IndexOf(b, a[0].Key());
    assert Row(b, a[0].Key()) == Entry(table, a[0].Key());
    SortingEntry(table, b, mode, 0);
    var j := IndexOf(a, b[0].Key());
    assert Row(a, b[0].Key()) == Entry(table, b[0].Key());
    assert i > 0 ==> Ahead(b[0], b[i], mode);
    assert j > 0 ==> Ahead(a[0], a[j], mode);
  }

  lemma {:induction false} TailSorting(table: map<Key, Score>, a: seq<Score>, mode: nat)
    requires Sorting(table, a, mode) && a != []
    ensures Sorting(table - {a[0].Key()}, a[1..], mode)
  {
    var tail := a[1..];
    forall i, j | 0 <= i < j < |tail|
      ensures Ahead(tail[i], tail[j], mode)
    {
      assert Ahead(a[i + 1], a[j + 1], mode);
    }
    forall k
      ensures Row(tail, k) == Entry(table - {a[0].Key()}, k)
    {
      assert Row(a, k) == Entry(table, k);
      var q := IndexOf(tail, k);
      assert q < |tail| ==> Ahead(a[0], a[q + 1], mode);
    }
  }

  /** Every table without ties has a ranking: insert its rows one by one. */
  lemma {:induction false} SortingExists(table: map<Key, Score>, mode: nat) returns (full: seq<Score>)
    requires KeyedTable(table) && forall k :: k in table ==> Tieless(table, table[k])
    ensures Sorting(table, full, mode)
    decreases |table|
  {
    if table == map[] {
      full := [];
    } else {
      var k :| k in table;
      var rest := table - {k};
      assert rest.Keys == table.Keys - {k};
      assert |rest.Keys| < |table.Keys|;
      forall j | j in rest
        ensures Tieless(rest, rest[j])
      {
        assert Tieless(table, table[j]);
      }
      var f := SortingExists(rest, mode);
      assert Tieless(table, table[k]);
      RecordSorting(rest, f, table[k], mode);
      full := Record(f, table[k], mode);
      assert rest[k := table[k]] == table;
    }
  }

  /** The promise of the cache: the best `limit` rows of the table, in ranking order. */
  ghost predicate TopRows(rows: seq<Score>, table: map<Key, Score>, mode: nat, limit: nat) {
    exists full :: Sorting(table, full, mode) && rows == Take(full, limit)
  }

  // ----- When the bounded vector is exact -----

  lemma {:induction false} TakeRanked(full: seq<Score>, mode: nat, n: nat)
    requires Ranked(full, mode)
    ensures Ranked(Take(full, n), mode)
  {
    var r := Take(full, n);
    forall i, j | 0 <= i < j < |r|
      ensures Ahead(r[i], r[j], mode)
    {
      assert Ahead(full[i], full[j], mode);
    }
  }

  lemma {:induction false} IndexOfTake(full: seq<Score>, k: Key, n: nat)
    ensures IndexOf(Take(full, n), k) == Min(IndexOf(full, k), n)
  {
    var p, q := IndexOf(full, k), IndexOf(Take(full, n), k);
    assert q < |Take(full, n)| ==> full[q].Key() == k;
    assert p < |Take(full, n)| ==> Take(full, n)[p].Key() == k;
  }

  lemma {:induction false} PositionOfTake(g: seq<Score>, s: Score, mode: nat, n: nat)
    ensures Position(Take(g, n), s, mode) == Min(Position(g, s, mode), n)
  {
    if g != [] && n != 0 && !Before(s, g[0], mode) {
      PositionOfTake(g[1..], s, mode, n - 1);
      assert Take(g[1..], n - 1) == Take(g, n)[1..];
    }
  }

  /** Cutting before or after an insertion makes no difference. */
  lemma {:induction false} TakePlace(g: seq<Score>, s: Score, mode: nat, n: nat)
    ensures Take(Place(Take(g, n), s, mode), n) == Take(Place(g, s, mode), n)
  {
    PositionOfTake(g, s, mode, n);
  }

  /** One row fewer before the insertion: exact unless the new row belongs behind row n-1. */
  lemma {:induction false} TakePlaceShort(g: seq<Score>, s: Score, mode: nat, n: nat)
    requires n > 0 && !HasKey(g, s.Key())
    ensures Take(Place(Take(g, n - 1), s, mode), n) == Take(Place(g, s, mode), n)
            <==> Position(g, s, mode) < n
  {
    PositionOfTake(g, s, mode, n - 1);
    var p := Position(g, s, mode);
    if p >= n {
      assert Place(Take(g, n - 1), s, mode)[n - 1] == s;
      assert Place(g, s, mode)[n - 1] == g[n - 1];
    }
  }

  /** The submission that breaks the cache: its key is cached, the table has rows that the
      cache dropped, and the best of those now ranks before the submitted row. */
  predicate Displaces(full: seq<Score>, s: Score, mode: nat, limit: nat) {
    && HasKey(Take(full, limit), s.Key())
    && |full| > limit
    && Before(full[limit], s, mode)
  }

  /** One submission keeps the cache exact if and only if it displaces no dropped row. */
  lemma {:induction false} BoundedExactIff(full: seq<Score>, s: Score, mode: nat, limit: nat)
    requires Ranked(full, mode) && NoTie(full, s) && limit > 0
    ensures Bounded(Take(full, limit), s, mode, limit) == Take(Record(full, s, mode), limit)
            <==> !Displaces(full, s, mode, limit)
  {
    var g := Without(full, s.Key());
    WithoutOfTake(full, s.Key(), limit);
    if HasKey(Take(full, limit), s.Key()) {
      BehindIff(full, s, mode, limit);
      TakePlaceShort(g, s, mode, limit);
    } else {
      TakePlace(g, s, mode, limit);
    }
  }

  lemma {:induction false} WithoutOfTake(full: seq<Score>, k: Key, limit: nat)
    requires limit > 0
    ensures Without(Take(full, limit), k)
            == if HasKey(Take(full, limit), k) then Take(Without(full, k), limit - 1) else Take(Without(full, k), limit)
  {
    IndexOfTake(full, k, limit);
  }

  lemma {:induction false} BehindIff(full: seq<Score>, s: Score, mode: nat, limit: nat)
    requires Ranked(full, mode) && NoTie(full, s) && limit > 0 && HasKey(Take(full, limit), s.Key())
    ensures !HasKey(Without(full, s.Key()), s.Key())
    ensures Position(Without(full, s.Key()), s, mode) < limit <==> !Displaces(full, s, mode, limit)
  {
    var k, g := s.Key(), Without(full, s.Key());
    IndexOfTake(full, k, limit);
    WithoutRanked(full, k, mode);
    WithoutRow(full, k, k, mode);
    WithoutNoTie(full, s);
    if |full| > limit {
      assert g[limit - 1] == full[limit];
      PositionSplits(g, s, mode, limit - 1);
    }
  }
}

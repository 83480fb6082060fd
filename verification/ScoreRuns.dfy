/** Runs of score submissions: the database accepts or refuses each one, and every
    accepted one goes to the cached vector. */
module ScoreRuns {
  import opened Prelude
  import opened ScoreRanking

  datatype Info = Info(rankLimit: nat, updateMode: nat, sortMode: nat)

  /** One board as the server holds it: the stored table and the cached rows. */
  datatype Board = Board(table: map<Key, Score>, rows: seq<Score>)

  const EmptyBoard := Board(map[], [])

  /** The WHERE clause of the upsert: NORMAL_UPDATE (mode 0) keeps a strictly better old score. */
  predicate Accepts(table: map<Key, Score>, s: Score, info: Info) {
    var k := s.Key();
    k in table && info.updateMode == 0 ==>
      if info.sortMode == 0 then s.score >= table[k].score else s.score <= table[k].score
  }

  function Submit(b: Board, s: Score, info: Info): Board {
    if Accepts(b.table, s, info) then
      Board(b.table[s.Key() := s], Bounded(b.rows, s, info.sortMode, info.rankLimit))
    else b
  }

  function Run(b: Board, subs: seq<Score>, info: Info): Board
    decreases |subs|
  {
    if subs == [] then b else Run(Submit(b, subs[0], info), subs[1..], info)
  }

  /** No accepted submission ties with another row of the table at its time. */
  predicate TieFree(b: Board, subs: seq<Score>, info: Info)
    decreases |subs|
  {
    subs != [] ==>
      && (Accepts(b.table, subs[0], info) ==> Tieless(b.table, subs[0]))
      && TieFree(Submit(b, subs[0], info), subs[1..], info)
  }

  // ----- What holds in every run, whatever the update mode -----

  ghost predicate Inv(b: Board, info: Info) {
    && info.rankLimit > 0
    && KeyedTable(b.table)
    && Ranked(b.rows, info.sortMode)
    && (forall i :: 0 <= i < |b.rows| ==> Entry(b.table, b.rows[i].Key()) == Some(b.rows[i]))
    && |b.rows| == Min(|b.table|, info.rankLimit)
  }

  lemma {:induction false} SubmitKeepsInv(b: Board, s: Score, info: Info)
    requires Inv(b, info)
    requires Accepts(b.table, s, info) ==> Tieless(b.table, s)
    ensures Inv(Submit(b, s, info), info)
  {
    hide Cmp, Record, Tieless;
    if Accepts(b.table, s, info) {
      RowsNeverTie(b, s, info);
      RecordRanked(b.rows, s, info.sortMode);
      TakeRanked(Record(b.rows, s, info.sortMode), info.sortMode, info.rankLimit);
      RowsStayCurrent(b, s, info);
      SizeAfter(b, s, info);
    }
  }

  /** An upsert of rows and table leaves every row the table's own. */
  lemma {:induction false} RowsStayCurrent(b: Board, s: Score, info: Info)
    requires Inv(b, info) && NoTie(b.rows, s) && Ranked(Record(b.rows, s, info.sortMode), info.sortMode)
    ensures var r := Record(b.rows, s, info.sortMode);
            forall i :: 0 <= i < |r| ==> Entry(b.table[s.Key() := s], r[i].Key()) == Some(r[i])
  {
    hide Record, Cmp;
    var r := Record(b.rows, s, info.sortMode);
    forall i | 0 <= i < |r|
      ensures Entry(b.table[s.Key() := s], r[i].Key()) == Some(r[i])
    {
      IndexOfUnique(r, i, info.sortMode);
      RecordRow(b.rows, s, info.sortMode, r[i].Key());
    }
  }

  lemma {:induction false} RowsNeverTie(b: Board, s: Score, info: Info)
    requires Inv(b, info) && Tieless(b.table, s)
    ensures NoTie(b.rows, s)
  {
    forall i | 0 <= i < |b.rows| && b.rows[i].Key() != s.Key()
      ensures !Tied(b.rows[i], s)
    {
      assert Entry(b.table, b.rows[i].Key()) == Some(b.rows[i]);
    }
  }

  lemma {:induction false} SizeAfter(b: Board, s: Score, info: Info)
    requires Inv(b, info)
    ensures |Bounded(b.rows, s, info.sortMode, info.rankLimit)| == Min(|b.table[s.Key() := s]|, info.rankLimit)
  {
    var k := s.Key();
    assert b.table[k := s].Keys == b.table.Keys + {k};
    if k in b.table {
      if !HasKey(b.rows, k) {
        RowsMissAKey(b, k, info);
      }
    } else {
      assert !HasKey(b.rows, k);
    }
  }

  lemma {:induction false} RowsMissAKey(b: Board, k: Key, info: Info)
    requires Inv(b, info) && k in b.table && !HasKey(b.rows, k)
    ensures |b.rows| < |b.table|
  {
    KeysOfRows(b.rows, info.sortMode);
    CardinalityLe(Keys(b.rows), b.table.Keys - {k});
    assert |b.table.Keys - {k}| == |b.table.Keys| - 1;
  }

  function Keys(rows: seq<Score>): set<Key> { set i | 0 <= i < |rows| :: rows[i].Key() }

  lemma {:induction false} KeysOfRows(rows: seq<Score>, mode: nat)
    requires Ranked(rows, mode)
    ensures |Keys(rows)| == |rows|
  {
    if rows != [] {
      var n := |rows| - 1;
      var init := Take(rows, n);
      TakeRanked(rows, mode, n);
      KeysOfRows(init, mode);
      assert Keys(rows) == Keys(init) + {rows[n].Key()} by {
        assert forall i :: 0 <= i < n ==> init[i] == rows[i];
      }
      forall i | 0 <= i < n
        ensures init[i].Key() != rows[n].Key()
      {
        assert Ahead(rows[i], rows[n], mode);
      }
    }
  }

  /** In every run the cached rows are strictly sorted, one per key, current rows of the
      table, and exactly min(table size, rank_limit) many. */
  lemma {:induction false} EveryRunKeepsInv(b: Board, subs: seq<Score>, info: Info)
    requires Inv(b, info) && TieFree(b, subs, info)
    ensures Inv(Run(b, subs, info), info)
    decreases |subs|
  {
    if subs != [] {
      SubmitKeepsInv(b, subs[0], info);
      EveryRunKeepsInv(Submit(b, subs[0], info), subs[1..], info);
    }
  }

  // ----- When the cache is exact -----

  ghost predicate Exact(b: Board, info: Info) {
    TopRows(b.rows, b.table, info.sortMode, info.rankLimit)
  }

  /** An accepted submission for a cached key that ends up behind a row the cache dropped. */
  predicate Displacing(b: Board, s: Score, info: Info) {
    && Accepts(b.table, s, info)
    && HasKey(b.rows, s.Key())
    && exists k :: k in b.table && !HasKey(b.rows, k) && Before(b.table[k], s, info.sortMode)
  }

  /** `full` is the ranking of the table and the cache is its first rank_limit rows. */
  ghost predicate ExactBy(b: Board, full: seq<Score>, info: Info) {
    Sorting(b.table, full, info.sortMode) && b.rows == Take(full, info.rankLimit)
  }

  /** Exactly the rows from rank_limit on are missing from an exact cache. */
  lemma {:induction false} DroppedRows(b: Board, full: seq<Score>, i: nat, info: Info)
    requires ExactBy(b, full, info) && i < |full|
    ensures Entry(b.table, full[i].Key()) == Some(full[i])
    ensures HasKey(b.rows, full[i].Key()) <==> i < info.rankLimit
  {
    SortingEntry(b.table, full, info.sortMode, i);
    IndexOfUnique(full, i, info.sortMode);
    IndexOfTake(full, full[i].Key(), info.rankLimit);
  }

  lemma {:induction false} DisplacingIsDisplaces(b: Board, full: seq<Score>, s: Score, info: Info)
    requires ExactBy(b, full, info) && Accepts(b.table, s, info)
    ensures Displacing(b, s, info) <==> Displaces(full, s, info.sortMode, info.rankLimit)
  {
    var n, mode := info.rankLimit, info.sortMode;
    if Displaces(full, s, mode, n) {
      DroppedRows(b, full, n, info);
    }
    if Displacing(b, s, info) {
      var k :| k in b.table && !HasKey(b.rows, k) && Before(b.table[k], s, mode);
      assert Row(full, k) == Entry(b.table, k);
      var i := IndexOf(full, k);
      DroppedRows(b, full, i, info);
      FirstDroppedIsBest(full, i, n, s, mode);
    }
  }

  lemma {:induction false} FirstDroppedIsBest(full: seq<Score>, i: nat, n: nat, s: Score, mode: nat)
    requires Ranked(full, mode) && n <= i < |full| && Before(full[i], s, mode)
    ensures Before(full[n], s, mode)
  {
    assert i > n ==> Ahead(full[n], full[i], mode);
  }

  /** From an exact state, one submission leaves the cache exact iff it is not displacing. */
  lemma {:induction false} SubmitExactIff(b: Board, s: Score, info: Info)
    requires Inv(b, info) && Exact(b, info)
    requires Accepts(b.table, s, info) ==> Tieless(b.table, s)
    ensures Exact(Submit(b, s, info), info) <==> !Displacing(b, s, info)
  {
    if Accepts(b.table, s, info) {
      var mode, n := info.sortMode, info.rankLimit;
      var full :| Sorting(b.table, full, mode) && b.rows == Take(full, n);
      var table' := b.table[s.Key() := s];
      DisplacingIsDisplaces(b, full, s, info);
      SortingNoTie(b.table, full, s, mode);
      RecordSorting(b.table, full, s, mode);
      BoundedExactIff(full, s, mode, n);
      var full' := Record(full, s, mode);
      if Exact(Submit(b, s, info), info) {
        var g :| Sorting(table', g, mode) && Submit(b, s, info).rows == Take(g, n);
        SortingUnique(table', g, full', mode);
      }
    }
  }

  ghost predicate AlwaysExact(b: Board, subs: seq<Score>, info: Info)
    decreases |subs|
  {
    Exact(b, info) && (subs != [] ==> AlwaysExact(Submit(b, subs[0], info), subs[1..], info))
  }

  predicate NeverDisplacing(b: Board, subs: seq<Score>, info: Info)
    decreases |subs|
  {
    subs != [] ==> !Displacing(b, subs[0], info) && NeverDisplacing(Submit(b, subs[0], info), subs[1..], info)
  }

  /** The refinement theorem, in both directions: the cache equals "sort the table, keep
      the best rank_limit rows" after every step of a run iff no step is displacing. */
  lemma {:induction false} AlwaysExactIff(b: Board, subs: seq<Score>, info: Info)
    requires Inv(b, info) && Exact(b, info) && TieFree(b, subs, info)
    ensures AlwaysExact(b, subs, info) <==> NeverDisplacing(b, subs, info)
    decreases |subs|
  {
    if subs != [] {
      var b' := Submit(b, subs[0], info);
      SubmitKeepsInv(b, subs[0], info);
      SubmitExactIff(b, subs[0], info);
      if Exact(b', info) {
        AlwaysExactIff(b', subs[1..], info);
      }
    }
  }

  // ----- Runs in which every replacement ranks no later than the row it replaces -----

  predicate Improves(table: map<Key, Score>, s: Score, info: Info) {
    s.Key() in table ==> !Before(table[s.Key()], s, info.sortMode)
  }

  predicate Improving(b: Board, subs: seq<Score>, info: Info)
    decreases |subs|
  {
    subs != [] ==>
      && (Accepts(b.table, subs[0], info) ==> Improves(b.table, subs[0], info))
      && Improving(Submit(b, subs[0], info), subs[1..], info)
  }

  lemma {:induction false} ImprovesNotDisplacing(b: Board, s: Score, info: Info)
    requires Inv(b, info) && Exact(b, info) && Improves(b.table, s, info)
    ensures !Displacing(b, s, info)
  {
    if Displacing(b, s, info) {
      var mode, n := info.sortMode, info.rankLimit;
      var full :| Sorting(b.table, full, mode) && b.rows == Take(full, n);
      DisplacingIsDisplaces(b, full, s, info);
      var i := IndexOf(b.rows, s.Key());
      DroppedRows(b, full, i, info);
      CachedIsBetter(full, i, n, s, mode);
    }
  }

  lemma {:induction false} CachedIsBetter(full: seq<Score>, i: nat, n: nat, s: Score, mode: nat)
    requires Ranked(full, mode) && i < n < |full| && !Before(full[i], s, mode)
    ensures !Before(full[n], s, mode)
  {
    assert Ahead(full[i], full[n], mode);
  }

  /** Over every run whose replacements all rank no later than the rows they replace, the
      cached vector is exactly the first rank_limit rows of the sorted table. */
  lemma {:induction false} ImprovingRunsAreExact(b: Board, subs: seq<Score>, info: Info)
    requires Inv(b, info) && Exact(b, info) && TieFree(b, subs, info) && Improving(b, subs, info)
    ensures AlwaysExact(b, subs, info) && Exact(Run(b, subs, info), info)
    decreases |subs|
  {
    if subs != [] {
      var b' := Submit(b, subs[0], info);
      SubmitKeepsInv(b, subs[0], info);
      if Accepts(b.table, subs[0], info) {
        ImprovesNotDisplacing(b, subs[0], info);
      }
      SubmitExactIff(b, subs[0], info);
      ImprovingRunsAreExact(b', subs[1..], info);
    }
  }

  /** Under NORMAL_UPDATE an accepted replacement ranks no later than the old row exactly
      when it changes the score or does not carry a later timestamp. */
  lemma {:induction false} NormalUpdateImprovesIff(table: map<Key, Score>, s: Score, info: Info)
    requires KeyedTable(table) && s.Key() in table && info.updateMode == 0 && Accepts(table, s, info)
    ensures Improves(table, s, info)
            <==> s.score != table[s.Key()].score || s.timestamp <= table[s.Key()].timestamp
  {
  }

  /** So the promise fails under NORMAL_UPDATE: on a board of one place, whenever a player
      repeats their own score after another player reached it, the cache keeps the repeater
      while the table now ranks the other player first. */
  lemma {:induction false} RepeatedScoreBreaksTheCache(first: Score, second: Score, again: Score)
    requires first.Key() != second.Key() && again.Key() == first.Key()
    requires first.score == second.score == again.score
    requires first.timestamp < second.timestamp < again.timestamp
    ensures var info := Info(1, 0, 0);
            var b := Submit(Submit(EmptyBoard, first, info), second, info);
            && Accepts(b.table, again, info) && Tieless(b.table, again)
            && Exact(b, info) && !Exact(Submit(b, again, info), info)
  {
    var info := Info(1, 0, 0);
    var b := Board(map[first.Key() := first, second.Key() := second], [first]);
    TwoSubmissions(first, second);
    TwoPlayerBoard(b, first, second);
    assert second.Key() in b.table && !HasKey(b.rows, second.Key()) && Before(b.table[second.Key()], again, 0);
    SubmitExactIff(b, again, info);
  }

  lemma {:induction false} TwoSubmissions(first: Score, second: Score)
    requires first.Key() != second.Key() && first.score == second.score && first.timestamp < second.timestamp
    ensures var info := Info(1, 0, 0);
            Submit(Submit(EmptyBoard, first, info), second, info)
            == Board(map[first.Key() := first, second.Key() := second], [first])
  {
    assert Submit(EmptyBoard, first, Info(1, 0, 0)) == Board(map[first.Key() := first], [first]);
  }

  lemma {:induction false} TwoPlayerBoard(b: Board, first: Score, second: Score)
    requires first.Key() != second.Key() && first.score == second.score && first.timestamp < second.timestamp
    requires b == Board(map[first.Key() := first, second.Key() := second], [first])
    ensures Inv(b, Info(1, 0, 0)) && Exact(b, Info(1, 0, 0)) && !HasKey(b.rows, second.Key())
  {
    assert b.table.Keys == {first.Key(), second.Key()};
    var full := [first, second];
    forall k
      ensures Row(full, k) == Entry(b.table, k)
    {
      var p := IndexOf(full, k);
      assert p < 2 ==> full[p].Key() == k;
      assert p > 0 ==> full[0].Key() != k;
      assert p > 1 ==> full[1].Key() != k;
    }
    assert Ranked(full, 0) && b.rows == Take(full, 1);
  }
}

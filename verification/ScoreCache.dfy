/** The in-memory score table: the bounded sorted vector and its (user, character) -> index
    lookup, updated in place by every accepted submission. */
module ScoreCache {
  import opened Prelude
  import opened ScoreRanking
  import opened ScoreRuns

  type Lookup = map<int, map<int, nat>>

  datatype Names = Names(npid: string, onlineName: string)

  /** One line of a ranking reply; `rank` is counted from zero. */
  datatype RankLine = RankLine(names: Names, pcid: int, rank: nat, score: int, hasGameData: bool, timestamp: int)

  const NoLine := RankLine(Names("", ""), 0, 0, 0, false, 0)

  /** A ranking reply: the lines, the comments and game infos that were asked for, the time of the
      last insertion and the number of rows there are. */
  datatype RankReply = RankReply(lines: seq<RankLine>, comments: Option<seq<string>>, infos: Option<seq<seq<byte>>>,
                                 timestamp: nat, total: nat)

  // ----- The nested lookup map -----

  function Get(lookup: Lookup, k: Key): Option<nat> {
    if k.0 in lookup && k.1 in lookup[k.0] then Some(lookup[k.0][k.1]) else None
  }

  function Put(lookup: Lookup, k: Key, i: nat): (r: Lookup)
    ensures forall k' :: Get(r, k') == if k' == k then Some(i) else Get(lookup, k')
  {
    lookup[k.0 := (if k.0 in lookup then lookup[k.0] else map[])[k.1 := i]]
  }

  function Delete(lookup: Lookup, k: Key): (r: Lookup)
    requires Get(lookup, k).Some?
    ensures forall k' :: Get(r, k') == if k' == k then None else Get(lookup, k')
  {
    lookup[k.0 := lookup[k.0] - {k.1}]
  }

  /** The lookup knows exactly the keys of `rows`, and the right index for the first `n` rows. */
  ghost predicate IndexedUpTo(rows: seq<Score>, lookup: Lookup, n: int) {
    && (forall k :: Get(lookup, k).Some? <==> HasKey(rows, k))
    && (forall i :: 0 <= i < |rows| && i < n ==> Get(lookup, rows[i].Key()) == Some(i))
  }

  /** The lookup is the inverse of the vector: key to the index that holds it. */
  ghost predicate Indexed(rows: seq<Score>, lookup: Lookup) {
    forall k :: Get(lookup, k) == if HasKey(rows, k) then Some(IndexOf(rows, k)) else None
  }

  lemma {:induction false} IndexOfDistinct(rows: seq<Score>, i: nat)
    requires DistinctKeys(rows) && i < |rows|
    ensures IndexOf(rows, rows[i].Key()) == i
  {
    assert forall j :: 0 <= j < i ==> rows[j].Key() != rows[i].Key();
  }

  /** Indexing one row more. */
  lemma {:induction false} IndexGrows(rows: seq<Score>, lookup: Lookup, index: nat)
    requires DistinctKeys(rows) && index < |rows| && Indexed(Take(rows, index), lookup)
    ensures Indexed(Take(rows, index + 1), Put(lookup, rows[index].Key(), index))
  {
    hide Put;
    var next := Put(lookup, rows[index].Key(), index);
    IndexOfDistinct(rows, index);
    forall k
      ensures Get(next, k) == if HasKey(Take(rows, index + 1), k) then Some(IndexOf(Take(rows, index + 1), k)) else None
    {
      IndexOfTake(rows, k, index);
      IndexOfTake(rows, k, index + 1);
      assert Get(next, k) == if k == rows[index].Key() then Some(index) else Get(lookup, k);
      assert IndexOf(rows, k) == index ==> rows[index].Key() == k;
    }
  }

  lemma {:induction false} FullyIndexed(rows: seq<Score>, lookup: Lookup, mode: nat)
    requires Ranked(rows, mode)
    ensures Indexed(rows, lookup) <==> IndexedUpTo(rows, lookup, |rows|)
  {
    if Indexed(rows, lookup) {
      forall i | 0 <= i < |rows|
        ensures Get(lookup, rows[i].Key()) == Some(i)
      {
        IndexOfUnique(rows, i, mode);
      }
    }
    if IndexedUpTo(rows, lookup, |rows|) {
      forall k | HasKey(rows, k)
        ensures Get(lookup, k) == Some(IndexOf(rows, k))
      {
        assert Get(lookup, rows[IndexOf(rows, k)].Key()) == Some(IndexOf(rows, k));
      }
    }
  }

  lemma {:induction false} IndexNext(rows: seq<Score>, lookup: Lookup, i: nat, mode: nat)
    requires Ranked(rows, mode) && i < |rows| && IndexedUpTo(rows, lookup, i)
    ensures IndexedUpTo(rows, Put(lookup, rows[i].Key(), i), i + 1)
  {
    forall j | 0 <= j < i
      ensures rows[j].Key() != rows[i].Key()
    {
      assert Ahead(rows[j], rows[i], mode);
    }
  }

  lemma {:induction false} IndexWithoutLast(rows: seq<Score>, lookup: Lookup, mode: nat)
    requires Ranked(rows, mode) && rows != [] && Indexed(rows, lookup)
    ensures HasKey(rows, rows[|rows| - 1].Key())
    ensures Indexed(Take(rows, |rows| - 1), Delete(lookup, rows[|rows| - 1].Key()))
  {
    var n := |rows| - 1;
    IndexOfUnique(rows, n, mode);
    forall k
      ensures Get(Delete(lookup, rows[n].Key()), k)
              == if HasKey(Take(rows, n), k) then Some(IndexOf(Take(rows, n), k)) else None
    {
      IndexOfTake(rows, k, n);
      assert IndexOf(rows, k) == n ==> k == rows[n].Key();
    }
  }

  /** Where the reindexing loop starts: nothing below it moved. */
  function ReorderStart(initialPos: Option<nat>, insertPos: nat): nat {
    if initialPos.Some? then Min(initialPos.value, insertPos + 1) else insertPos + 1
  }

  /** Removing and re-inserting a key leaves the domain of the lookup exact and every index
      below the start of the reindexing loop right. */
  lemma {:induction false} ReindexStart(rows: seq<Score>, lookup: Lookup, s: Score, mode: nat)
    requires Ranked(rows, mode) && NoTie(rows, s) && Indexed(rows, lookup)
    ensures var p := Position(Without(rows, s.Key()), s, mode);
            IndexedUpTo(Record(rows, s, mode), Put(lookup, s.Key(), p), ReorderStart(Get(lookup, s.Key()), p))
  {
    var k, r := s.Key(), Record(rows, s, mode);
    var p := Position(Without(rows, k), s, mode);
    var l := Put(lookup, k, p);
    forall k'
      ensures HasKey(r, k') <==> Get(l, k').Some?
    {
      RecordRow(rows, s, mode, k');
    }
    forall i | 0 <= i < |r| && i < ReorderStart(Get(lookup, k), p)
      ensures Get(l, r[i].Key()) == Some(i)
    {
      RowsBelowStart(rows, s, mode, i);
      if i != p {
        IndexOfUnique(rows, i, mode);
      }
    }
  }

  lemma {:induction false} RowsBelowStart(rows: seq<Score>, s: Score, mode: nat, i: nat)
    requires Ranked(rows, mode)
    requires i <= Position(Without(rows, s.Key()), s, mode) && i < |Record(rows, s, mode)|
    requires HasKey(rows, s.Key()) ==> i < IndexOf(rows, s.Key())
    ensures if i == Position(Without(rows, s.Key()), s, mode) then Record(rows, s, mode)[i] == s
            else i < |rows| && Record(rows, s, mode)[i] == rows[i] && rows[i].Key() != s.Key()
  {
  }

  // ----- Loading from the database -----

  /** The ORDER BY of the load: ties on score and timestamp put the SMALLER user id first. */
  predicate SqlLess(a: Score, b: Score, sortMode: nat) {
    if a.score != b.score then (if sortMode == 0 then a.score > b.score else a.score < b.score)
    else if a.timestamp != b.timestamp then a.timestamp < b.timestamp
    else a.userId < b.userId
  }

  predicate SqlSorted(rows: seq<Score>, mode: nat) {
    forall i, j {:trigger SqlLess(rows[j], rows[i], mode)} :: 0 <= i < j < |rows| ==> !SqlLess(rows[j], rows[i], mode)
  }

  /** The primary key of the table makes the keys of loaded rows distinct. */
  predicate DistinctKeys(rows: seq<Score>) {
    forall i, j :: 0 <= i < j < |rows| ==> rows[i].Key() != rows[j].Key()
  }

  /** A loaded vector is in `Cmp` order exactly when no two rows share score and timestamp. */
  lemma {:induction false} LoadedIsRankedIff(rows: seq<Score>, mode: nat)
    requires SqlSorted(rows, mode) && DistinctKeys(rows)
    ensures Ranked(rows, mode) <==> NoneShare(rows)
  {
    if Ranked(rows, mode) {
      forall i, j | 0 <= i < j < |rows|
        ensures rows[i].score != rows[j].score || rows[i].timestamp != rows[j].timestamp
      {
        assert Ahead(rows[i], rows[j], mode) && !SqlLess(rows[j], rows[i], mode);
      }
    } else {
      var i, j :| 0 <= i < j < |rows| && !Ahead(rows[i], rows[j], mode);
      assert !SqlLess(rows[j], rows[i], mode);
    }
  }

  predicate NoneShare(rows: seq<Score>) {
    forall i, j :: 0 <= i < j < |rows| ==> rows[i].score != rows[j].score || rows[i].timestamp != rows[j].timestamp
  }

  /** The rows of the whole table in the order of the query. */
  ghost predicate Queried(table: map<Key, Score>, full: seq<Score>, mode: nat) {
    SqlSorted(full, mode) && DistinctKeys(full) && forall k :: Row(full, k) == Entry(table, k)
  }

  /** A board loaded at start-up is exact when no two rows of its table share score and timestamp. */
  lemma {:induction false} LoadedIsExact(table: map<Key, Score>, full: seq<Score>, info: Info)
    requires Queried(table, full, info.sortMode) && NoneShare(full)
    ensures Exact(Board(table, Take(full, info.rankLimit)), info)
  {
    LoadedIsRankedIff(full, info.sortMode);
    assert Sorting(table, full, info.sortMode);
  }

  /** Two rows that do share both are loaded in the wrong order, whenever they are of different users. */
  lemma {:induction false} TiedRowsLoadOutOfOrder(a: Score, b: Score, mode: nat)
    requires a.score == b.score && a.timestamp == b.timestamp && a.userId < b.userId
    ensures SqlSorted([a, b], mode) && DistinctKeys([a, b]) && !Ranked([a, b], mode)
  {
    var rows := [a, b];
    assert !Ahead(rows[0], rows[1], mode);
  }

  // ----- The cache object -----

  /** The representation invariant of the cache. */
  ghost predicate Consistent(rows: seq<Score>, lookup: Lookup, users: map<int, Names>, info: Info) {
    && 0 < info.rankLimit
    && |rows| <= info.rankLimit
    && Ranked(rows, info.sortMode)
    && Indexed(rows, lookup)
    && (forall i :: 0 <= i < |rows| ==> rows[i].userId in users)
  }

  class ScoreTableCache {
    const info: Info
    var sortedScores: seq<Score>
    var npidLookup: Lookup
    var users: map<int, Names>
    var lastInsert: nat

    ghost predicate Valid()
      reads this
    {
      Consistent(sortedScores, npidLookup, users, info)
    }

    /** Build the index of the rows loaded at start-up. The index is right even for rows that are
        not in the cache's own order. */
    constructor (info: Info, rows: seq<Score>, users: map<int, Names>, now: nat)
      requires 0 < info.rankLimit && |rows| <= info.rankLimit && DistinctKeys(rows)
      requires forall i :: 0 <= i < |rows| ==> rows[i].userId in users
      ensures sortedScores == rows && this.info == info && this.users == users && lastInsert == now
      ensures Indexed(sortedScores, npidLookup) && (Valid() <==> Ranked(rows, info.sortMode))
    {
      var lookup: Lookup := map[];
      assert Take(rows, 0) == [];
      for index := 0 to |rows|
        invariant Indexed(Take(rows, index), lookup)
      {
        IndexGrows(rows, lookup, index);
        lookup := Put(lookup, rows[index].Key(), index);
      }
      assert Take(rows, |rows|) == rows;
      this.info, this.sortedScores, this.npidLookup, this.users, this.lastInsert := info, rows, lookup, users, now;
    }

    /** `insert_score`: the rows become the bounded upsert of the old rows, the lookup stays
        exact, and the answer is the new rank, or rank_limit + 1 when the row is not kept. */
    method InsertScore(score: Score, names: Names, now: nat) returns (rank: nat)
      requires Valid() && NoTie(sortedScores, score)
      modifies this
      ensures Valid() && lastInsert == now
      ensures sortedScores == Bounded(old(sortedScores), score, info.sortMode, info.rankLimit)
      ensures 1 <= rank <= info.rankLimit + 1
      ensures rank <= info.rankLimit ==> rank <= |sortedScores| && sortedScores[rank - 1] == score
      ensures rank == info.rankLimit + 1 ==>
                sortedScores == old(sortedScores) && npidLookup == old(npidLookup) && !HasKey(sortedScores, score.Key())
      ensures users == if rank > info.rankLimit || score.userId in old(users) then old(users)
                       else old(users)[score.userId := names]
    {
      ghost var before := sortedScores;
      InsertOutcome(before, score, info.sortMode, info.rankLimit);
      var initialPos := TakeOut(score.Key());
      lastInsert := now;
      if |sortedScores| < info.rankLimit || Before(score, sortedScores[|sortedScores| - 1], info.sortMode) {
        if score.userId !in users {
          users := users[score.userId := names];
        }
        rank := Keep(score, initialPos, before);
        StaysConsistent(before, old(npidLookup), old(users), score, info, npidLookup, users);
      } else {
        rank := info.rankLimit + 1;
      }
    }

    /** Remove the row of a key that is already cached and say where it was. */
    method TakeOut(k: Key) returns (initialPos: Option<nat>)
      requires Indexed(sortedScores, npidLookup)
      modifies this`sortedScores
      ensures sortedScores == Without(old(sortedScores), k) && initialPos == Get(npidLookup, k)
    {
      initialPos := Get(npidLookup, k);
      if initialPos.Some? {
        sortedScores := RemoveAt(sortedScores, initialPos.value);
      }
    }

    /** Insert the row, reindex what moved and drop the worst row if there are too many. */
    method Keep(score: Score, initialPos: Option<nat>, ghost before: seq<Score>) returns (rank: nat)
      requires Ranked(before, info.sortMode) && NoTie(before, score) && Indexed(before, npidLookup)
      requires sortedScores == Without(before, score.Key()) && |sortedScores| <= info.rankLimit
      requires initialPos == Get(npidLookup, score.Key())
      modifies this`sortedScores, this`npidLookup
      ensures sortedScores == Bounded(before, score, info.sortMode, info.rankLimit)
      ensures Indexed(sortedScores, npidLookup)
      ensures rank == Position(Without(before, score.Key()), score, info.sortMode) + 1
    {
      var insertPos := Position(sortedScores, score, info.sortMode);
      sortedScores := InsertAt(sortedScores, insertPos, score);
      RecordRanked(before, score, info.sortMode);
      ReindexStart(before, npidLookup, score, info.sortMode);
      npidLookup := Put(npidLookup, score.Key(), insertPos);
      Reindex(ReorderStart(initialPos, insertPos));
      if |sortedScores| > info.rankLimit {
        EvictLast();
      }
      rank := insertPos + 1;
    }

    /** Set the index of everything from `start` on. */
    method Reindex(start: nat)
      requires Ranked(sortedScores, info.sortMode)
      requires start <= |sortedScores| && IndexedUpTo(sortedScores, npidLookup, start)
      modifies this`npidLookup
      ensures Indexed(sortedScores, npidLookup)
    {
      for i := start to |sortedScores|
        invariant IndexedUpTo(sortedScores, npidLookup, i)
      {
        IndexNext(sortedScores, npidLookup, i, info.sortMode);
        npidLookup := Put(npidLookup, sortedScores[i].Key(), i);
      }
      FullyIndexed(sortedScores, npidLookup, info.sortMode);
    }

    /** Drop the worst row. */
    method EvictLast()
      requires Ranked(sortedScores, info.sortMode) && sortedScores != [] && Indexed(sortedScores, npidLookup)
      modifies this`sortedScores, this`npidLookup
      ensures sortedScores == Take(old(sortedScores), |old(sortedScores)| - 1) && Indexed(sortedScores, npidLookup)
    {
      IndexWithoutLast(sortedScores, npidLookup, info.sortMode);
      var lastIndex := |sortedScores| - 1;
      var last := sortedScores[lastIndex];
      sortedScores := Take(sortedScores, lastIndex);
      npidLookup := Delete(npidLookup, last.Key());
    }

    /** `get_score_range`: the rows of ranks `startRank ..`, as far as there are any. */
    method GetScoreRange(startRank: nat, numRanks: nat, withComment: bool, withGameInfo: bool)
      returns (reply: RankReply)
      requires Valid() && 1 <= startRank
      ensures |reply.lines| == if startRank > |sortedScores| then 0 else Min(|sortedScores| - (startRank - 1), numRanks)
      ensures forall i :: 0 <= i < |reply.lines| ==>
                Shows(reply.lines[i], sortedScores[startRank - 1 + i], startRank - 1 + i, users)
      ensures withComment <==> reply.comments.Some?
      ensures withComment ==>
                && |reply.comments.value| == |reply.lines|
                && forall i :: 0 <= i < |reply.lines| ==>
                     reply.comments.value[i] == CommentOf(sortedScores[startRank - 1 + i])
      ensures withGameInfo <==> reply.infos.Some?
      ensures withGameInfo ==>
                && |reply.infos.value| == |reply.lines|
                && forall i :: 0 <= i < |reply.lines| ==>
                     reply.infos.value[i] == GameInfoOf(sortedScores[startRank - 1 + i])
      ensures reply.timestamp == lastInsert && reply.total == |sortedScores|
    {
      var lines, comments, infos := [], [], [];
      var startIndex := startRank - 1;
      var endIndex := Min(startIndex + numRanks, |sortedScores|);
      var index := startIndex;
      while index < endIndex
        invariant startIndex <= index && (index <= endIndex || index == startIndex)
        invariant |lines| == index - startIndex
        invariant |comments| == if withComment then |lines| else 0
        invariant |infos| == if withGameInfo then |lines| else 0
        invariant forall i :: 0 <= i < |lines| ==> Shows(lines[i], sortedScores[startIndex + i], startIndex + i, users)
        invariant forall i :: 0 <= i < |comments| ==> comments[i] == CommentOf(sortedScores[startIndex + i])
        invariant forall i :: 0 <= i < |infos| ==> infos[i] == GameInfoOf(sortedScores[startIndex + i])
      {
        var s := sortedScores[index];
        lines := lines + [Line(s, index, users[s.userId])];
        if withComment {
          comments := comments + [CommentOf(s)];
        }
        if withGameInfo {
          infos := infos + [GameInfoOf(s)];
        }
        index := index + 1;
      }
      reply := RankReply(lines, if withComment then Some(comments) else None,
                         if withGameInfo then Some(infos) else None, lastInsert, |sortedScores|);
    }

    /** `get_score_ids`: one line per asked key, the default line for a key without a row. */
    method GetScoreIds(npids: seq<Key>, withComment: bool, withGameInfo: bool) returns (reply: RankReply)
      requires Valid()
      ensures |reply.lines| == |npids|
      ensures forall i :: 0 <= i < |npids| ==> Answers(reply.lines[i], npids[i])
      ensures withComment <==> reply.comments.Some?
      ensures withComment ==>
                && |reply.comments.value| == |npids|
                && forall i :: 0 <= i < |npids| ==> reply.comments.value[i] == KeyComment(sortedScores, npids[i])
      ensures withGameInfo <==> reply.infos.Some?
      ensures withGameInfo ==>
                && |reply.infos.value| == |npids|
                && forall i :: 0 <= i < |npids| ==> reply.infos.value[i] == KeyGameInfo(sortedScores, npids[i])
      ensures reply.timestamp == lastInsert && reply.total == |sortedScores|
    {
      hide Ranked, IndexOf;
      var lines, comments, infos := [], [], [];
      for n := 0 to |npids|
        invariant |lines| == n
        invariant |comments| == if withComment then n else 0
        invariant |infos| == if withGameInfo then n else 0
        invariant forall i :: 0 <= i < n ==> Answers(lines[i], npids[i])
        invariant forall i :: 0 <= i < |comments| ==> comments[i] == KeyComment(sortedScores, npids[i])
        invariant forall i :: 0 <= i < |infos| ==> infos[i] == KeyGameInfo(sortedScores, npids[i])
      {
        var found := Get(npidLookup, npids[n]);
        var line, comment, info := NoLine, "", [];
        if found.Some? {
          var s := sortedScores[found.value];
          line, comment, info := Line(s, found.value, users[npids[n].0]), CommentOf(s), GameInfoOf(s);
        }
        lines := lines + [line];
        if withComment {
          comments := comments + [comment];
        }
        if withGameInfo {
          infos := infos + [info];
        }
      }
      reply := RankReply(lines, if withComment then Some(comments) else None,
                         if withGameInfo then Some(infos) else None, lastInsert, |sortedScores|);
    }

    /** A line answers a key if it shows the row of that key at its rank, or is empty when there is none. */
    ghost predicate Answers(line: RankLine, k: Key)
      reads this
    {
      if HasKey(sortedScores, k)
      then line.rank < |sortedScores| && sortedScores[line.rank].Key() == k
           && Shows(line, sortedScores[line.rank], line.rank, users)
      else line == NoLine
    }

    /** `set_game_data`: only the data id of the row of that key changes. */
    method SetGameData(k: Key, dataId: nat) returns (found: bool)
      requires Valid()
      modifies this`sortedScores
      ensures Valid() && (found <==> HasKey(old(sortedScores), k))
      ensures |sortedScores| == |old(sortedScores)|
      ensures forall i :: 0 <= i < |sortedScores| ==>
                sortedScores[i] == if found && i == IndexOf(old(sortedScores), k)
                                   then old(sortedScores)[i].(dataId := Some(dataId)) else old(sortedScores)[i]
    {
      found := Get(npidLookup, k).Some?;
      if found {
        var rank := Get(npidLookup, k).value;
        RetagKeeps(sortedScores, npidLookup, rank, dataId, info.sortMode);
        sortedScores := sortedScores[rank := sortedScores[rank].(dataId := Some(dataId))];
      }
    }
  }

  function Line(s: Score, rank: nat, names: Names): RankLine {
    RankLine(names, s.characterId, rank, s.score, s.dataId.Some?, s.timestamp)
  }

  function CommentOf(s: Score): string { if s.comment.Some? then s.comment.value else "" }
  function GameInfoOf(s: Score): seq<byte> { if s.gameInfo.Some? then s.gameInfo.value else [] }

  /** What is shown for a key: its row's comment and game info, or nothing. */
  function KeyComment(rows: seq<Score>, k: Key): string {
    if Row(rows, k).Some? then CommentOf(Row(rows, k).value) else ""
  }

  function KeyGameInfo(rows: seq<Score>, k: Key): seq<byte> {
    if Row(rows, k).Some? then GameInfoOf(Row(rows, k).value) else []
  }

  /** The line shows that row, at that index, under its owner's names. */
  predicate Shows(line: RankLine, s: Score, rank: nat, users: map<int, Names>) {
    s.userId in users && line == Line(s, rank, users[s.userId])
  }

  lemma {:induction false} RetagKeeps(rows: seq<Score>, lookup: Lookup, i: nat, dataId: nat, mode: nat)
    requires i < |rows| && Ranked(rows, mode) && Indexed(rows, lookup)
    ensures var r := rows[i := rows[i].(dataId := Some(dataId))];
            Ranked(r, mode) && Indexed(r, lookup)
  {
    var r := rows[i := rows[i].(dataId := Some(dataId))];
    forall a, b | 0 <= a < b < |r|
      ensures Ahead(r[a], r[b], mode)
    {
      assert Ahead(rows[a], rows[b], mode);
    }
    forall k
      ensures IndexOf(r, k) == IndexOf(rows, k)
    {
      var p, q := IndexOf(rows, k), IndexOf(r, k);
      assert p < |rows| ==> r[p].Key() == k;
      assert q < |rows| ==> rows[q].Key() == k;
    }
  }

  lemma {:induction false} StaysConsistent(rows: seq<Score>, lookup: Lookup, users: map<int, Names>, s: Score,
                                           info: Info,
                        lookup': Lookup, users': map<int, Names>)
    requires Consistent(rows, lookup, users, info) && NoTie(rows, s)
    requires users.Keys <= users'.Keys && s.userId in users'
    requires Indexed(Bounded(rows, s, info.sortMode, info.rankLimit), lookup')
    ensures Consistent(Bounded(rows, s, info.sortMode, info.rankLimit), lookup', users', info)
  {
    var r := Record(rows, s, info.sortMode);
    RecordRanked(rows, s, info.sortMode);
    TakeRanked(r, info.sortMode, info.rankLimit);
    forall i | 0 <= i < |r|
      ensures r[i].userId in users'
    {
      IndexOfUnique(r, i, info.sortMode);
      RecordRow(rows, s, info.sortMode, r[i].Key());
    }
  }

  /** What either branch of an insertion amounts to. */
  lemma {:induction false} InsertOutcome(rows: seq<Score>, s: Score, mode: nat, limit: nat)
    requires 0 < limit && |rows| <= limit && Ranked(rows, mode) && NoTie(rows, s)
    ensures var w, t := Without(rows, s.Key()), Bounded(rows, s, mode, limit);
            if |w| < limit || Before(s, w[|w| - 1], mode)
            then Position(w, s, mode) < |t| && t[Position(w, s, mode)] == s
            else t == rows == w && !HasKey(rows, s.Key())
  {
    var w := Without(rows, s.Key());
    WithoutRanked(rows, s.Key(), mode);
    WithoutRow(rows, s.Key(), s.Key(), mode);
    WithoutNoTie(rows, s);
    if |w| == limit {
      PositionSplits(w, s, mode, limit - 1);
    }
  }
}

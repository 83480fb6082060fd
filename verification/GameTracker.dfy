/** Player counters of the server: connected users, and users by game. */
module GameTracker {
  import opened Prelude

  function CountIn(games: map<string, int>, com: string): int { if com in games then games[com] else 0 }

  /** Add to one counter, which starts at zero. */
  function Bump(games: map<string, int>, com: string, delta: int): map<string, int> {
    games[com := CountIn(games, com) + delta]
  }

  class GameTracker {
    var numUsers: int
    var psnGames: map<string, int>
    var nameHints: map<string, set<string>>

    constructor ()
      ensures numUsers == 0 && psnGames == map[] && nameHints == map[]
    {
      numUsers, psnGames, nameHints := 0, map[], map[];
    }

    method IncreaseNumUsers()
      modifies this`numUsers
      ensures numUsers == old(numUsers) + 1
    {
      numUsers := numUsers + 1;
    }

    method DecreaseNumUsers()
      modifies this`numUsers
      ensures numUsers == old(numUsers) - 1
    {
      numUsers := numUsers - 1;
    }

    /** `add_value_psn`: the counter is created on first use. */
    method AddValuePsn(com: string, toAdd: int)
      modifies this`psnGames, this`nameHints
      ensures psnGames == Bump(old(psnGames), com, toAdd)
      ensures forall c :: c != com ==> CountIn(psnGames, c) == old(CountIn(psnGames, c))
      ensures forall c :: At(nameHints, c) == old(At(nameHints, c))
    {
      if com in psnGames {
        psnGames := psnGames[com := psnGames[com] + toAdd];
        return;
      }
      psnGames := psnGames[com := 0];
      nameHints := nameHints[com := At(nameHints, com)];
      psnGames := psnGames[com := psnGames[com] + toAdd];
    }

    /** `add_gamename_hint`: a hint for a game without a counter is dropped. */
    method AddGamenameHint(com: string, hint: string)
      modifies this`nameHints
      ensures nameHints == if com in psnGames then Add(old(nameHints), com, hint) else old(nameHints)
    {
      if com !in psnGames {
        return;
      }
      if hint in At(nameHints, com) {
        assert At(nameHints, com) + {hint} == At(nameHints, com);
        assert Add(nameHints, com, hint) == nameHints;
        return;
      }
      nameHints := Add(nameHints, com, hint);
    }
  }
}
